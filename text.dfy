/**
  The handful of Python string operations the answer path relies on:
  `str.lower`, `str.split()` with no separator, the substring test
  `t in s` and `sep.join(parts)`.
*/
module Text {

  /** The characters Python's `str.split()` (no argument) treats as separators. */
  predicate IsSpace(c: char) {
    || c == ' '
    || '\t' <= c <= '\r'
    || '\U{1C}' <= c <= '\U{1F}'
    || c == '\U{85}' || c == '\U{A0}' || c == '\U{1680}'
    || '\U{2000}' <= c <= '\U{200A}'
    || c == '\U{2028}' || c == '\U{2029}' || c == '\U{202F}' || c == '\U{205F}' || c == '\U{3000}'
  }

  predicate NoSpace(w: string) {
    forall i :: 0 <= i < |w| ==> !IsSpace(w[i])
  }

  predicate AllSpace(s: string) {
    forall i :: 0 <= i < |s| ==> IsSpace(s[i])
  }

  /** `str.lower` restricted to ASCII letters. */
  function LowerChar(c: char): (d: char)
    ensures IsSpace(c) ==> d == c
    ensures 'A' <= c <= 'Z' ==> 'a' <= d <= 'z' && d as int - c as int == 32
    ensures !('A' <= c <= 'Z') ==> d == c
  {
    if 'A' <= c <= 'Z' then (c as int + 32) as char else c
  }

  function Lower(s: string): (r: string)
    ensures |r| == |s|
    ensures forall i :: 0 <= i < |s| ==> r[i] == LowerChar(s[i])
  {
    if s == [] then [] else [LowerChar(s[0])] + Lower(s[1..])
  }

  /** Lowering twice is lowering once: an already-lowered string is left alone. */
  lemma LowerIdempotent(s: string)
    ensures Lower(Lower(s)) == Lower(s)
  {
  }

  /** Lowering leaves every character of `s` as it is. */
  predicate IsLower(s: string) {
    forall i :: 0 <= i < |s| ==> LowerChar(s[i]) == s[i]
  }

  lemma LowerIsLower(s: string)
    ensures IsLower(Lower(s))
  {
  }

  lemma LowerKeepsLower(s: string)
    requires IsLower(s)
    ensures Lower(s) == s
  {
  }

  /** Length of the run of non-separator characters at the front of `s`. */
  function WordLen(s: string): (n: nat)
    ensures n <= |s|
    ensures NoSpace(s[..n])
    ensures n < |s| ==> IsSpace(s[n])
    ensures s != [] && !IsSpace(s[0]) ==> n > 0
  {
    if s == [] || IsSpace(s[0]) then 0 else 1 + WordLen(s[1..])
  }

  /**
    `s.split()`: the maximal runs of non-separator characters, in order;
    leading, trailing and repeated separators produce no empty words.
  */
  function Words(s: string): (ws: seq<string>)
    ensures forall k :: 0 <= k < |ws| ==> ws[k] != [] && NoSpace(ws[k])
    decreases |s|
  {
    if s == [] then []
    else if IsSpace(s[0]) then Words(s[1..])
    else
      var n := WordLen(s);
      [s[..n]] + Words(s[n..])
  }

  /** The words of a lower-case string are lower-case. */
  lemma {:induction false} WordsKeepLower(s: string)
    requires IsLower(s)
    ensures forall w :: w in Words(s) ==> IsLower(w)
    decreases |s|
  {
    if s == [] {
    } else if IsSpace(s[0]) {
      assert IsLower(s[1..]) by {
        forall i | 0 <= i < |s[1..]| ensures LowerChar(s[1..][i]) == s[1..][i] {
          assert s[1..][i] == s[i + 1];
        }
      }
      WordsKeepLower(s[1..]);
    } else {
      var n := WordLen(s);
      assert IsLower(s[n..]) by {
        forall i | 0 <= i < |s[n..]| ensures LowerChar(s[n..][i]) == s[n..][i] {
          assert s[n..][i] == s[i + n];
        }
      }
      assert IsLower(s[..n]) by {
        forall i | 0 <= i < n ensures LowerChar(s[..n][i]) == s[..n][i] {
          assert s[..n][i] == s[i];
        }
      }
      WordsKeepLower(s[n..]);
    }
  }

  /** `s` with every separator character removed. */
  function Squeeze(s: string): (r: string)
    ensures NoSpace(r)
  {
    if s == [] then [] else (if IsSpace(s[0]) then [] else [s[0]]) + Squeeze(s[1..])
  }

  function Concat(ws: seq<string>): string {
    if ws == [] then [] else ws[0] + Concat(ws[1..])
  }

  lemma {:induction false} SqueezeWord(w: string, rest: string)
    requires NoSpace(w)
    ensures Squeeze(w + rest) == w + Squeeze(rest)
  {
    if w != [] {
      var s := w + rest;
      assert s[1..] == w[1..] + rest;
      SqueezeWord(w[1..], rest);
      assert w == [w[0]] + w[1..];
    } else {
      assert w + rest == rest;
    }
  }

  /** Splitting loses exactly the separators: the words, glued back together, are the input without them. */
  lemma {:induction false} WordsCoverInput(s: string)
    ensures Concat(Words(s)) == Squeeze(s)
    decreases |s|
  {
    if s == [] {
    } else if IsSpace(s[0]) {
      WordsCoverInput(s[1..]);
    } else {
      var n := WordLen(s);
      WordsCoverInput(s[n..]);
      assert s == s[..n] + s[n..];
      SqueezeWord(s[..n], s[n..]);
    }
  }

  /** The word at the front stops at the first separator, whatever follows it. */
  lemma {:induction false} WordLenStops(a: string, c: char, b: string)
    requires IsSpace(c)
    ensures WordLen(a + [c] + b) == WordLen(a)
  {
    if a == [] {
      assert (a + [c] + b)[0] == c;
    } else {
      assert (a + [c] + b)[0] == a[0];
      if !IsSpace(a[0]) {
        assert (a + [c] + b)[1..] == a[1..] + [c] + b;
        WordLenStops(a[1..], c, b);
      }
    }
  }

  /** A separator splits the input in two: the words of each side, in order, and nothing else. */
  lemma {:induction false} WordsSplitAt(a: string, c: char, b: string)
    requires IsSpace(c)
    ensures Words(a + [c] + b) == Words(a) + Words(b)
    decreases |a|
  {
    var s := a + [c] + b;
    if a == [] {
      assert s[0] == c && s[1..] == b;
    } else if IsSpace(a[0]) {
      assert s[0] == a[0] && s[1..] == a[1..] + [c] + b;
      WordsSplitAt(a[1..], c, b);
    } else {
      assert s[0] == a[0];
      var n := WordLen(a);
      WordLenStops(a, c, b);
      assert s[..n] == a[..n];
      assert s[n..] == a[n..] + [c] + b;
      WordsSplitAt(a[n..], c, b);
    }
  }

  /** A non-empty run of non-separators is one word. */
  lemma OneWord(w: string)
    requires w != [] && NoSpace(w)
    ensures Words(w) == [w]
  {
    var n := WordLen(w);
    assert n == |w|;
    assert w[..n] == w && w[n..] == [];
  }

  /** A string of separators only (the empty string included) has no words. */
  lemma BlankHasNoWords(s: string)
    requires AllSpace(s)
    ensures Words(s) == []
  {
    WordsCoverInput(s);
    SqueezeBlank(s);
  }

  lemma {:induction false} SqueezeBlank(s: string)
    requires AllSpace(s)
    ensures Squeeze(s) == []
  {
    if s != [] {
      SqueezeBlank(s[1..]);
    }
  }

  /** Python's `t in s` on strings: `t` occurs in `s` as a contiguous piece. */
  predicate Contains(s: string, t: string) {
    t <= s || (s != [] && Contains(s[1..], t))
  }

  /** Whatever sits between two pieces of a string occurs in it. */
  lemma {:induction false} ContainsInfix(a: string, t: string, b: string)
    ensures Contains(a + t + b, t)
  {
    if a == [] {
      assert a + t + b == t + b;
    } else {
      assert (a + t + b)[1..] == a[1..] + t + b;
      ContainsInfix(a[1..], t, b);
    }
  }

  /** `Contains` agrees with the positional reading of a substring. */
  lemma {:induction false} ContainsAt(s: string, t: string)
    ensures Contains(s, t) <==> exists i :: 0 <= i <= |s| && t <= s[i..]
  {
    if Contains(s, t) {
      if t <= s {
        assert t <= s[0..];
      } else {
        ContainsAt(s[1..], t);
        var i :| 0 <= i <= |s[1..]| && t <= s[1..][i..];
        assert s[1..][i..] == s[i + 1..];
      }
    }
    if exists i :: 0 <= i <= |s| && t <= s[i..] {
      var i :| 0 <= i <= |s| && t <= s[i..];
      if i > 0 {
        assert s[1..][i - 1..] == s[i..];
        ContainsAt(s[1..], t);
      }
    }
  }

  /** `sep.join(parts)`. */
  function Join(sep: string, parts: seq<string>): string {
    if parts == [] then []
    else if |parts| == 1 then parts[0]
    else Join(sep, parts[..|parts| - 1]) + sep + parts[|parts| - 1]
  }

  /** Every part survives the join. */
  lemma {:induction false} JoinKeepsParts(sep: string, parts: seq<string>, k: nat)
    requires k < |parts|
    ensures Contains(Join(sep, parts), parts[k])
  {
    var n := |parts|;
    if n == 1 {
      ContainsInfix([], parts[0], []);
      assert [] + parts[0] + [] == parts[0];
    } else if k == n - 1 {
      ContainsInfix(Join(sep, parts[..n - 1]) + sep, parts[k], []);
      assert Join(sep, parts[..n - 1]) + sep + parts[k] + [] == Join(sep, parts);
    } else {
      var init := parts[..n - 1];
      JoinKeepsParts(sep, init, k);
      ContainsExtend(Join(sep, init), parts[k], sep + parts[n - 1]);
      assert Join(sep, init) + (sep + parts[n - 1]) == Join(sep, parts);
    }
  }

  /** A string contains what it ends with. */
  lemma ContainsSuffix(a: string, t: string)
    ensures Contains(a + t, t)
  {
    ContainsInfix(a, t, []);
    assert a + t + [] == a + t;
  }

  /** `s.endswith(t)`. */
  predicate EndsWith(s: string, t: string) {
    |t| <= |s| && s[|s| - |t|..] == t
  }

  lemma EndsWithAppend(a: string, t: string)
    ensures EndsWith(a + t, t)
  {
    assert (a + t)[|a + t| - |t|..] == t;
  }

  lemma EndsWithPrepend(a: string, b: string, t: string)
    requires EndsWith(b, t)
    ensures EndsWith(a + b, t)
  {
    assert (a + b)[|a + b| - |t|..] == b[|b| - |t|..];
  }

  /** Appending text after a string keeps what it contains. */
  lemma {:induction false} ContainsExtend(s: string, t: string, more: string)
    requires Contains(s, t)
    ensures Contains(s + more, t)
  {
    if t <= s {
    } else {
      assert (s + more)[1..] == s[1..] + more;
      ContainsExtend(s[1..], t, more);
    }
  }
}
