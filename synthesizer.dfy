/**
  The answer synthesizer of backend/gemini_client.py: the keyword-overlap
  fallback answer (`simple_local_response`), the prompt sent to the
  generative model, and the choice between the model's text and the
  fallback (`generate_gemini_response`).
*/
module Synthesizer {
  import opened Wrappers
  import opened Text

  /** A retrieved article with its similarity score (kept opaque). */
  datatype Passage = Passage(title: string, url: string, text: string, score: real)

  /** What the external generation step produced for the prompt. */
  datatype GenOutcome =
    | Generated(text: string)            // the model answered
    | PackageMissing                     // the client library could not be imported (ImportError)
    | ImportRaised(message: string)      // importing it raised anything else, which nothing catches
    | ModelUnavailable(message: string)  // NotFound or ResourceExhausted
    | CallFailed(message: string)        // any other exception

  const ExcerptLength: nat := 150
  const FallbackCount: nat := 2
  const Disclaimer := "\nNote: This is a simplified response as the AI service is currently unavailable."
  const ApiErrorPrefix := "\n\nAPI Error: "
  const ErrorPrefix := "\n\nError: "
  const PackageMissingMessage := "Google Generative AI package not installed. Run 'pip install google-generativeai'."
  const PackageMissingNote := ErrorPrefix + PackageMissingMessage

  // ---------------------------------------------------------------------
  // Selection of the passages the fallback answer quotes
  // ---------------------------------------------------------------------

  /** `set(query.lower().split())`: the distinct lower-cased words of the query. */
  function QueryTerms(query: string): (terms: set<string>)
    ensures forall t :: t in terms ==> t != [] && NoSpace(t) && Lower(t) == t
  {
    LowerIsLower(query);
    WordsKeepLower(Lower(query));
    forall t | t in Words(Lower(query)) ensures Lower(t) == t {
      LowerKeepsLower(t);
    }
    set w | w in Words(Lower(query))
  }

  /** Some query term occurs in the lower-cased text or the lower-cased title. */
  predicate Relevant(terms: set<string>, p: Passage) {
    exists t :: t in terms && (Contains(Lower(p.text), t) || Contains(Lower(p.title), t))
  }

  /** The relevant passages, in input order. */
  function Matching(terms: set<string>, ps: seq<Passage>): (r: seq<Passage>)
    ensures |r| <= |ps|
  {
    if ps == [] then []
    else Matching(terms, ps[..|ps| - 1]) + (if Relevant(terms, ps[|ps| - 1]) then [ps[|ps| - 1]] else [])
  }

  /** `passages[:2]`. */
  function FirstTwo(ps: seq<Passage>): seq<Passage> {
    ps[..if |ps| < FallbackCount then |ps| else FallbackCount]
  }

  /** The passages the fallback answer quotes: the matching ones, or the first two when none match. */
  function Selection(query: string, ps: seq<Passage>): seq<Passage> {
    var m := Matching(QueryTerms(query), ps);
    if m != [] then m else FirstTwo(ps)
  }

  /** `a` is `b` with some elements left out, the rest kept in order. */
  predicate SubsequenceOf<T(==)>(a: seq<T>, b: seq<T>)
    decreases |b|
  {
    if b == [] then a == []
    else
      || (a != [] && a[|a| - 1] == b[|b| - 1] && SubsequenceOf(a[..|a| - 1], b[..|b| - 1]))
      || SubsequenceOf(a, b[..|b| - 1])
  }

  /** A passage is kept exactly when it is one of the inputs and some term hits it. */
  lemma {:induction false} MatchingIff(terms: set<string>, ps: seq<Passage>, p: Passage)
    ensures p in Matching(terms, ps) <==> p in ps && Relevant(terms, p)
  {
    if ps != [] {
      var init, last := ps[..|ps| - 1], ps[|ps| - 1];
      MatchingIff(terms, init, p);
      assert ps == init + [last];
    }
  }

  /** The kept passages appear in the same relative order as in the input. */
  lemma {:induction false} MatchingKeepsOrder(terms: set<string>, ps: seq<Passage>)
    ensures SubsequenceOf(Matching(terms, ps), ps)
  {
    if ps != [] {
      var init, last := ps[..|ps| - 1], ps[|ps| - 1];
      MatchingKeepsOrder(terms, init);
      var m := Matching(terms, ps);
      if Relevant(terms, last) {
        assert m == Matching(terms, init) + [last];
        assert m[..|m| - 1] == Matching(terms, init);
      } else {
        assert m == Matching(terms, init);
        assert ps[..|ps| - 1] == init;
      }
    }
  }

  /** A relevant passage is kept as many times as it occurs; an irrelevant one never. */
  lemma {:induction false} MatchingCount(terms: set<string>, ps: seq<Passage>, p: Passage)
    ensures multiset(Matching(terms, ps))[p] == if Relevant(terms, p) then multiset(ps)[p] else 0
  {
    if ps != [] {
      var init, last := ps[..|ps| - 1], ps[|ps| - 1];
      MatchingCount(terms, init, p);
      assert ps == init + [last];
      assert multiset(ps) == multiset(init) + multiset{last};
    }
  }

  /**
    The selection is the matching passages whenever any match, and the first
    two (or fewer, if fewer exist) exactly when none does.
  */
  lemma SelectionCases(query: string, ps: seq<Passage>)
    ensures var terms := QueryTerms(query);
      && ((exists p :: p in ps && Relevant(terms, p)) ==> Selection(query, ps) == Matching(terms, ps))
      && ((forall p :: p in ps ==> !Relevant(terms, p)) ==> Selection(query, ps) == FirstTwo(ps))
      && |FirstTwo(ps)| == (if |ps| < 2 then |ps| else 2)
  {
    var terms := QueryTerms(query);
    if exists p :: p in ps && Relevant(terms, p) {
      var p :| p in ps && Relevant(terms, p);
      MatchingIff(terms, ps, p);
    } else if Matching(terms, ps) != [] {
      MatchingIff(terms, ps, Matching(terms, ps)[0]);
    }
  }

  /** A query made of separators only has no terms, so the first two passages are quoted. */
  lemma BlankQueryQuotesFirstTwo(query: string, ps: seq<Passage>)
    requires AllSpace(query)
    ensures QueryTerms(query) == {}
    ensures Selection(query, ps) == FirstTwo(ps)
  {
    BlankHasNoWords(Lower(query));
    SelectionCases(query, ps);
  }

  /** Letter case in the query does not change which passages are quoted. */
  lemma SelectionIgnoresQueryCase(query: string, ps: seq<Passage>)
    ensures Selection(Lower(query), ps) == Selection(query, ps)
  {
    LowerIdempotent(query);
  }

  // ---------------------------------------------------------------------
  // The fallback answer
  // ---------------------------------------------------------------------

  /** `text[:150]`. */
  function Excerpt(text: string): (e: string)
    ensures |e| == if |text| <= ExcerptLength then |text| else ExcerptLength
    ensures e <= text
    ensures |text| <= ExcerptLength ==> e == text
  {
    if |text| <= ExcerptLength then text else text[..ExcerptLength]
  }

  function Header(query: string): string {
    "Based on the available information about '" + query + "':\n\n"
  }

  /** One quoted passage; the ellipsis is there even when nothing was cut. */
  function Block(p: Passage): string {
    "From " + p.title + ": " + Excerpt(p.text) + "...\n\n"
  }

  /** `text` followed by one block per passage, in order. */
  function Quote(text: string, ps: seq<Passage>): string {
    if ps == [] then text else Quote(text, ps[..|ps| - 1]) + Block(ps[|ps| - 1])
  }

  /** Quoting a list of passages is quoting each part in turn. */
  lemma {:induction false} QuoteAppend(text: string, a: seq<Passage>, b: seq<Passage>)
    ensures Quote(text, a + b) == Quote(Quote(text, a), b)
  {
    if b != [] {
      var init := b[..|b| - 1];
      QuoteAppend(text, a, init);
      assert (a + b)[..|a + b| - 1] == a + init;
    } else {
      assert a + b == a;
    }
  }

  /** Each passage contributes exactly its own block, in order. */
  lemma QuoteEach(text: string, ps: seq<Passage>, k: nat)
    requires k < |ps|
    ensures Quote(text, ps) == Quote(Quote(text, ps[..k]) + Block(ps[k]), ps[k + 1..])
  {
    var front, back := ps[..k + 1], ps[k + 1..];
    assert front + back == ps;
    QuoteAppend(text, front, back);
    assert front[..|front| - 1] == ps[..k] && front[|front| - 1] == ps[k];
    assert Quote(text, front) == Quote(text, ps[..k]) + Block(ps[k]);
  }

  /**
    The fallback answer: a header naming the query, one block per selected
    passage, and the fixed disclaimer.
  */
  function LocalAnswer(query: string, ps: seq<Passage>): string {
    Quote(Header(query), Selection(query, ps)) + Disclaimer
  }

  lemma {:induction false} QuoteKeeps(text: string, ps: seq<Passage>, t: string)
    requires Contains(text, t)
    ensures Contains(Quote(text, ps), t)
  {
    if ps != [] {
      QuoteKeeps(text, ps[..|ps| - 1], t);
      ContainsExtend(Quote(text, ps[..|ps| - 1]), t, Block(ps[|ps| - 1]));
    }
  }

  lemma {:induction false} QuotePrefix(text: string, ps: seq<Passage>)
    ensures text <= Quote(text, ps)
  {
    if ps != [] {
      QuotePrefix(text, ps[..|ps| - 1]);
    }
  }

  /** The fallback answer opens with the header, so it quotes the query, and closes with the disclaimer. */
  lemma LocalAnswerFrame(query: string, ps: seq<Passage>)
    ensures var r := LocalAnswer(query, ps);
      Header(query) <= r && Contains(r, query) && EndsWith(r, Disclaimer)
  {
    var quoted := Quote(Header(query), Selection(query, ps));
    var lead := "Based on the available information about '";
    ContainsSuffix(lead, query);
    ContainsExtend(lead + query, query, "':\n\n");
    QuoteKeeps(Header(query), Selection(query, ps), query);
    ContainsExtend(quoted, query, Disclaimer);
    EndsWithAppend(quoted, Disclaimer);
    QuotePrefix(Header(query), Selection(query, ps));
  }

  /** With nothing retrieved the answer is the header and the disclaimer alone. */
  lemma NoPassagesAnswer(query: string)
    ensures LocalAnswer(query, []) == Header(query) + Disclaimer
  {
    assert Matching(QueryTerms(query), []) == [];
  }

  /** `simple_local_response`: collects the matching passages, then grows the answer block by block. */
  method SimpleLocalResponse(query: string, passages: seq<Passage>) returns (response: string)
    ensures response == LocalAnswer(query, passages)
  {
    var terms := QueryTerms(query);
    var relevant: seq<Passage> := [];
    for i := 0 to |passages|
      invariant relevant == Matching(terms, passages[..i])
    {
      assert passages[..i + 1][..i] == passages[..i];
      if Relevant(terms, passages[i]) {
        relevant := relevant + [passages[i]];
      }
    }
    assert passages[..|passages|] == passages;
    if relevant == [] {
      relevant := FirstTwo(passages);
    }
    response := Header(query);
    for i := 0 to |relevant|
      invariant response == Quote(Header(query), relevant[..i])
    {
      assert relevant[..i + 1][..i] == relevant[..i];
      response := response + Block(relevant[i]);
    }
    assert relevant[..|relevant|] == relevant;
    response := response + Disclaimer;
  }

  // ---------------------------------------------------------------------
  // The prompt and the fallback decision
  // ---------------------------------------------------------------------

  function Entry(p: Passage): string {
    "Title: " + p.title + "\nText: " + p.text + "\nURL: " + p.url
  }

  function Entries(ps: seq<Passage>): (es: seq<string>)
    ensures |es| == |ps| && forall k :: 0 <= k < |ps| ==> es[k] == Entry(ps[k])
  {
    if ps == [] then [] else [Entry(ps[0])] + Entries(ps[1..])
  }

  /** The retrieval context: one entry per passage, separated by blank lines. */
  function Context(ps: seq<Passage>): string {
    Join("\n\n", Entries(ps))
  }

  /** Every passage's title, text and URL reach the model. */
  lemma ContextHoldsEveryPassage(ps: seq<Passage>, k: nat)
    requires k < |ps|
    ensures Contains(Context(ps), Entry(ps[k]))
  {
    JoinKeepsParts("\n\n", Entries(ps), k);
  }

  const PromptLead := "\n        User Query: "
  const PromptMiddle := "\n        \n        Context Information:\n        "
  const PromptTail := "\n        \n        Based on the above information, please provide a comprehensive answer to the user's query.\n        If the information isn't sufficient, please indicate what's missing.\n        Include relevant facts from the provided context.\n        "

  /** The prompt submitted to the model: the query, then the context, then the instructions. */
  function Prompt(query: string, ps: seq<Passage>): (prompt: string)
    ensures Contains(prompt, query) && Contains(prompt, Context(ps))
  {
    var context := Context(ps);
    ContainsSuffix(PromptLead, query);
    ContainsExtend(PromptLead + query, query, PromptMiddle);
    ContainsExtend(PromptLead + query + PromptMiddle, query, context);
    ContainsExtend(PromptLead + query + PromptMiddle + context, query, PromptTail);
    ContainsSuffix(PromptLead + query + PromptMiddle, context);
    ContainsExtend(PromptLead + query + PromptMiddle + context, context, PromptTail);
    PromptLead + query + PromptMiddle + context + PromptTail
  }

  /** The failures `generate_gemini_response` catches and answers with the fallback. */
  predicate FallsBack(outcome: GenOutcome) {
    outcome.PackageMissing? || outcome.ModelUnavailable? || outcome.CallFailed?
  }

  /** What follows the fallback answer when generation failed. */
  function FailureNote(outcome: GenOutcome): (note: string)
    requires FallsBack(outcome)
    ensures outcome.ModelUnavailable? || outcome.CallFailed? ==> EndsWith(note, outcome.message)
  {
    match outcome
    case PackageMissing => PackageMissingNote
    case ModelUnavailable(msg) => EndsWithAppend(ApiErrorPrefix, msg); ApiErrorPrefix + msg
    case CallFailed(msg) => EndsWithAppend(ErrorPrefix, msg); ErrorPrefix + msg
  }

  /**
    `generate_gemini_response`, given what the generation step produced for
    `Prompt(query, ps)`: the model's text verbatim, or the fallback answer
    followed by a note that names the failure. An import that fails other
    than with ImportError escapes to the caller, as `Failure` with its message.
  */
  function GenerateResponse(query: string, ps: seq<Passage>, outcome: GenOutcome): (r: Result<string, string>)
    ensures outcome.Generated? ==> r == Success(outcome.text)
    ensures outcome.ImportRaised? ==> r == Failure(outcome.message)
    ensures FallsBack(outcome) ==> r.Success? && LocalAnswer(query, ps) <= r.value
    ensures outcome.ModelUnavailable? || outcome.CallFailed? ==> r.Success? && EndsWith(r.value, outcome.message)
  {
    match outcome
    case Generated(text) => Success(text)
    case ImportRaised(msg) => Failure(msg)
    case _ =>
      var note := FailureNote(outcome);
      NoteEndsAnswer(LocalAnswer(query, ps), outcome);
      Success(LocalAnswer(query, ps) + note)
  }

  lemma NoteEndsAnswer(local: string, outcome: GenOutcome)
    requires FallsBack(outcome)
    ensures outcome.ModelUnavailable? || outcome.CallFailed? ==>
      EndsWith(local + FailureNote(outcome), outcome.message)
  {
    if outcome.ModelUnavailable? || outcome.CallFailed? {
      EndsWithPrepend(local, FailureNote(outcome), outcome.message);
    }
  }

  /** A degraded answer still quotes the query and still carries the disclaimer. */
  lemma DegradedAnswerFrame(query: string, ps: seq<Passage>, outcome: GenOutcome)
    requires FallsBack(outcome)
    ensures var r := GenerateResponse(query, ps, outcome);
      r.Success? && Contains(r.value, query) && Contains(r.value, Disclaimer)
  {
    var local := LocalAnswer(query, ps);
    var note := FailureNote(outcome);
    LocalAnswerFrame(query, ps);
    ContainsExtend(local, query, note);
    var front := local[..|local| - |Disclaimer|];
    assert local == front + Disclaimer;
    ContainsSuffix(front, Disclaimer);
    ContainsExtend(local, Disclaimer, note);
  }

  /** Reads the failure back out of the note that follows a fallback answer. */
  function ReadNote(note: string): Option<GenOutcome> {
    if note == PackageMissingNote then Some(PackageMissing)
    else if ApiErrorPrefix <= note then Some(ModelUnavailable(note[|ApiErrorPrefix|..]))
    else if ErrorPrefix <= note then Some(CallFailed(note[|ErrorPrefix|..]))
    else None
  }

  /** Reads the failure back out of a fallback answer. */
  function Diagnose(query: string, ps: seq<Passage>, answer: string): Option<GenOutcome> {
    var local := LocalAnswer(query, ps);
    if local <= answer then ReadNote(answer[|local|..]) else None
  }

  /** Every note but one names its failure unambiguously. */
  lemma ReadNoteInverts(outcome: GenOutcome)
    requires FallsBack(outcome)
    requires outcome != CallFailed(PackageMissingMessage)
    ensures ReadNote(FailureNote(outcome)) == Some(outcome)
  {
    match outcome
    case PackageMissing =>
    case ModelUnavailable(msg) =>
      DropPrefix(ApiErrorPrefix, msg);
      assert FailureNote(outcome)[2] != PackageMissingNote[2];
    case CallFailed(msg) =>
      DropPrefix(ErrorPrefix, msg);
      assert FailureNote(outcome)[2] != ApiErrorPrefix[2];
  }

  /**
    Every failure is recoverable from the answer it produced, except a
    generic failure whose message is word for word the missing-package text.
  */
  lemma DiagnoseRecoversFailure(query: string, ps: seq<Passage>, outcome: GenOutcome)
    requires FallsBack(outcome)
    requires outcome != CallFailed(PackageMissingMessage)
    ensures GenerateResponse(query, ps, outcome).Success?
    ensures Diagnose(query, ps, GenerateResponse(query, ps, outcome).value) == Some(outcome)
  {
    DropPrefix(LocalAnswer(query, ps), FailureNote(outcome));
    ReadNoteInverts(outcome);
  }

  lemma DropPrefix(a: string, b: string)
    ensures a <= a + b && (a + b)[|a|..] == b
  {
  }

  /** The one collision: that generic failure and the missing package give the same answer. */
  lemma PackageNoteCollision(query: string, ps: seq<Passage>)
    ensures GenerateResponse(query, ps, CallFailed(PackageMissingMessage))
         == GenerateResponse(query, ps, PackageMissing)
  {
  }
}
