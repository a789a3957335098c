/**
  The conversation store of backend/session_manager.py: one list of turns
  per session key, pushed at the tail, with a sliding expiry of 1800
  seconds that every push resets. Time is an explicit simulated clock.
*/
module Sessions {

  datatype Role = User | Bot

  /** One `{"role": ..., "text": ...}` record. */
  datatype Turn = Turn(role: Role, text: string)

  /** A stored key: its list and the instant at which it expires. */
  datatype Entry = Entry(turns: seq<Turn>, expiresAt: int)

  type Store = map<string, Entry>

  const TtlSeconds: int := 1800

  /** The three states a session key can be in. */
  datatype Lifecycle = Absent | Active | Expired

  /** `lrange(id, 0, -1)` at time `now`: an unknown or expired key reads as empty. */
  function Read(store: Store, now: int, id: string): seq<Turn> {
    if id in store && now < store[id].expiresAt then store[id].turns else []
  }

  /** `rpush(id, turn)` then `expire(id, 1800)`; an expired key is gone, so the push starts a new list. */
  function Append(store: Store, now: int, id: string, turn: Turn): Store {
    store[id := Entry(Read(store, now, id) + [turn], now + TtlSeconds)]
  }

  /** `delete(id)`. */
  function Delete(store: Store, id: string): Store {
    store - {id}
  }

  function StateOf(store: Store, now: int, id: string): Lifecycle {
    if id !in store then Absent else if now < store[id].expiresAt then Active else Expired
  }

  /** The turns of a list of stamped appends. */
  function TurnsOf(stamped: seq<(int, Turn)>): seq<Turn> {
    if stamped == [] then [] else TurnsOf(stamped[..|stamped| - 1]) + [stamped[|stamped| - 1].1]
  }

  /** Appends to one session, each at its own instant, in order. */
  function AppendAll(store: Store, id: string, stamped: seq<(int, Turn)>): Store {
    if stamped == [] then store
    else
      var last := stamped[|stamped| - 1];
      Append(AppendAll(store, id, stamped[..|stamped| - 1]), last.0, id, last.1)
  }

  /** Each append lands before the previous one's expiry. */
  predicate KeptAlive(stamped: seq<(int, Turn)>) {
    forall k :: 0 < k < |stamped| ==> stamped[k - 1].0 <= stamped[k].0 < stamped[k - 1].0 + TtlSeconds
  }

  // ---------------------------------------------------------------------
  // Properties of the store operations
  // ---------------------------------------------------------------------

  /** A push lands at the tail and keeps everything before it, until the key expires. */
  lemma AppendThenRead(store: Store, now: int, later: int, id: string, turn: Turn)
    requires now <= later < now + TtlSeconds
    ensures Read(Append(store, now, id, turn), later, id) == Read(store, now, id) + [turn]
    ensures StateOf(Append(store, now, id, turn), later, id) == Active
  {
  }

  /** A push resets the expiry to 1800 seconds from now, whatever it was before. */
  lemma AppendResetsExpiry(store: Store, now: int, id: string, turn: Turn)
    ensures Append(store, now, id, turn)[id].expiresAt == now + TtlSeconds
  {
  }

  /** Once 1800 seconds pass without a push, the session reads as empty. */
  lemma AppendExpires(store: Store, now: int, later: int, id: string, turn: Turn)
    requires later >= now + TtlSeconds
    ensures Read(Append(store, now, id, turn), later, id) == []
    ensures StateOf(Append(store, now, id, turn), later, id) == Expired
  {
  }

  /** A push to one session leaves every other session as it was. */
  lemma AppendIsolated(store: Store, now: int, id: string, turn: Turn, other: string, at: int)
    requires other != id
    ensures Read(Append(store, now, id, turn), at, other) == Read(store, at, other)
    ensures StateOf(Append(store, now, id, turn), at, other) == StateOf(store, at, other)
  {
  }

  /** After a delete the session reads as empty; deleting again changes nothing. */
  lemma DeleteThenRead(store: Store, id: string, at: int)
    ensures Read(Delete(store, id), at, id) == []
    ensures StateOf(Delete(store, id), at, id) == Absent
    ensures Delete(Delete(store, id), id) == Delete(store, id)
    ensures id !in store ==> Delete(store, id) == store
  {
  }

  /** A delete leaves every other session as it was. */
  lemma DeleteIsolated(store: Store, id: string, other: string, at: int)
    requires other != id
    ensures Read(Delete(store, id), at, other) == Read(store, at, other)
  {
  }

  /**
    Sliding expiry has no upper bound on a session's life: as long as each
    push lands within 1800 seconds of the one before, the session keeps every
    turn, in push order.
  */
  lemma {:induction false} KeptAliveKeepsEverything(store: Store, id: string, stamped: seq<(int, Turn)>)
    requires stamped != [] && KeptAlive(stamped)
    ensures Read(AppendAll(store, id, stamped), stamped[|stamped| - 1].0, id)
         == Read(store, stamped[0].0, id) + TurnsOf(stamped)
  {
    var n := |stamped|;
    var last := stamped[n - 1];
    if n == 1 {
      AppendThenRead(store, last.0, last.0, id, last.1);
      assert TurnsOf(stamped) == TurnsOf([]) + [last.1];
    } else {
      var init := stamped[..n - 1];
      assert KeptAlive(init) by {
        forall k | 0 < k < |init| ensures init[k - 1].0 <= init[k].0 < init[k - 1].0 + TtlSeconds {
          assert init[k - 1] == stamped[k - 1] && init[k] == stamped[k];
        }
      }
      KeptAliveKeepsEverything(store, id, init);
      var before := AppendAll(store, id, init);
      var prev := init[n - 2];
      assert prev == stamped[n - 2] && init[0] == stamped[0];
      assert prev.0 <= last.0 < prev.0 + TtlSeconds;
      // the previous push set the expiry to 1800 seconds after it, and this one comes sooner
      assert before == Append(AppendAll(store, id, init[..n - 2]), prev.0, id, prev.1);
      AppendResetsExpiry(AppendAll(store, id, init[..n - 2]), prev.0, id, prev.1);
      assert Read(before, last.0, id) == Read(before, prev.0, id);
      AppendThenRead(before, last.0, last.0, id, last.1);
      assert TurnsOf(stamped) == TurnsOf(init) + [last.1];
    }
  }

  // ---------------------------------------------------------------------
  // The store itself
  // ---------------------------------------------------------------------

  /** The shared key-value store with its clock. */
  class ConversationStore {
    var entries: Store
    var now: int

    /** Only pushes create keys, so no key holds an empty list, and no expiry is more than 1800 seconds away. */
    ghost predicate Valid()
      reads this
    {
      forall id :: id in entries ==> entries[id].turns != [] && entries[id].expiresAt <= now + TtlSeconds
    }

    /** What `get_history(id)` would return now. */
    function History(id: string): seq<Turn>
      reads this
    {
      Read(entries, now, id)
    }

    function State(id: string): Lifecycle
      reads this
    {
      StateOf(entries, now, id)
    }

    constructor (start: int)
      ensures Valid()
      ensures entries == map[] && now == start
    {
      entries := map[];
      now := start;
    }

    /** The passage of time: after 1800 idle seconds every session reads as empty. */
    method Tick(seconds: nat)
      requires Valid()
      modifies this
      ensures Valid()
      ensures entries == old(entries) && now == old(now) + seconds
      ensures seconds >= TtlSeconds ==> forall id :: History(id) == []
    {
      now := now + seconds;
    }

    /** `add_message`. */
    method AddMessage(id: string, role: Role, text: string)
      requires Valid()
      modifies this
      ensures Valid()
      ensures now == old(now)
      ensures entries == Append(old(entries), now, id, Turn(role, text))
      ensures History(id) == old(History(id)) + [Turn(role, text)]
      ensures entries[id].expiresAt == now + TtlSeconds && State(id) == Active
      ensures forall other :: other != id ==> History(other) == old(History(other))
    {
      var pushed := History(id) + [Turn(role, text)];
      entries := entries[id := Entry(pushed, now + TtlSeconds)];
    }

    /** `get_history`: the stored turns, in push order; a session has turns exactly while it is active. */
    method GetHistory(id: string) returns (turns: seq<Turn>)
      requires Valid()
      ensures turns == History(id)
      ensures turns != [] <==> State(id) == Active
    {
      if id in entries && now < entries[id].expiresAt {
        turns := entries[id].turns;
      } else {
        turns := [];
      }
    }

    /** `clear_session`: removes the key; clearing an unknown key does nothing. */
    method ClearSession(id: string)
      requires Valid()
      modifies this
      ensures Valid()
      ensures now == old(now)
      ensures entries == Delete(old(entries), id)
      ensures History(id) == [] && State(id) == Absent
      ensures old(State(id)) == Absent ==> entries == old(entries)
      ensures forall other :: other != id ==> History(other) == old(History(other))
    {
      entries := entries - {id};
    }
  }
}
