/** The warm coalescer: a map pruned on every call, against the full history of
    the calls made on it. */
module Coalescing {

  /** What a warm is for; the branch is part of the key. */
  datatype Key = Key(owner: string, repo: string, branch: string, sha: string)

  /** `Check(key, now)` is one `check_and_mark`, `Clear(key, marked)` one `clear`,
      in the order in which they take the mutex. `now` was read before. */
  datatype Event = Check(key: Key, now: nat) | Clear(key: Key, marked: nat)

  /** `now.saturating_duration_since(then)` */
  function Age(now: nat, then_: nat): nat { if now < then_ then 0 else now - then_ }

  function Retained(ttl: nat, seen: map<Key, nat>, now: nat): map<Key, nat> {
    map k | k in seen && Age(now, seen[k]) < ttl :: seen[k]
  }

  /** The coalescer's map after one call. */
  function After(ttl: nat, seen: map<Key, nat>, e: Event): map<Key, nat> {
    match e
    case Check(key, now) =>
      var kept := Retained(ttl, seen, now);
      if key in kept then kept else kept[key := now]
    case Clear(key, marked) => if key in seen && seen[key] == marked then seen - {key} else seen
  }

  function Replay(ttl: nat, log: seq<Event>): map<Key, nat> {
    if log == [] then map[] else After(ttl, Replay(ttl, log[..|log| - 1]), log[|log| - 1])
  }

  predicate Refuses(ttl: nat, log: seq<Event>, key: Key, now: nat) {
    key in Retained(ttl, Replay(ttl, log), now)
  }

  class Coalescer {
    const ttl: nat
    var seen: map<Key, nat>
    ghost var log: seq<Event>

    ghost predicate Valid()
      reads this
    {
      seen == Replay(ttl, log)
    }

    constructor (ttl: nat)
      ensures Valid() && this.ttl == ttl && log == []
    {
      this.ttl, seen, log := ttl, map[], [];
    }

    method CheckAndMark(key: Key, now: nat) returns (proceed: bool)
      requires Valid()
      modifies this
      ensures Valid() && log == old(log) + [Check(key, now)]
      ensures proceed <==> !Refuses(ttl, old(log), key, now)
      ensures key in seen && (proceed ==> seen[key] == now)
    {
      log := log + [Check(key, now)];
      assert log[..|log| - 1] == old(log);
      seen := map k | k in seen && Age(now, seen[k]) < ttl :: seen[k];
      if key in seen { return false; }
      seen := seen[key := now];
      return true;
    }

    method Clear(key: Key, marked: nat)
      requires Valid()
      modifies this
      ensures Valid() && log == old(log) + [Event.Clear(key, marked)]
    {
      log := log + [Event.Clear(key, marked)];
      assert log[..|log| - 1] == old(log);
      if key in seen && seen[key] == marked { seen := seen - {key}; }
    }
  }

  // ---- what the map means -----------------------------------------------

  /** Call `i` was a check that was told to proceed: the mark of one warm. */
  predicate Marks(ttl: nat, log: seq<Event>, i: nat, key: Key, at: nat) {
    i < |log| && log[i] == Check(key, at) && !Refuses(ttl, log[..i], key, at)
  }

  predicate ClearedAfter(log: seq<Event>, i: nat, key: Key, at: nat) {
    exists j :: i < j < |log| && log[j] == Clear(key, at)
  }

  predicate ExpiredAfter(ttl: nat, log: seq<Event>, i: nat, at: nat) {
    exists j :: i < j < |log| && log[j].Check? && Age(log[j].now, at) >= ttl
  }

  /** A mark nobody has cleared and no later reading of the clock found expired. */
  predicate Live(ttl: nat, log: seq<Event>, i: nat, key: Key, at: nat) {
    Marks(ttl, log, i, key, at) && !ClearedAfter(log, i, key, at) && !ExpiredAfter(ttl, log, i, at)
  }

  lemma LiveInPrefix(ttl: nat, log: seq<Event>, i: nat, key: Key, at: nat)
    requires log != [] && i < |log| - 1
    ensures var last := log[|log| - 1];
            Live(ttl, log, i, key, at) <==>
              Live(ttl, log[..|log| - 1], i, key, at)
              && last != Clear(key, at) && (last.Check? ==> Age(last.now, at) < ttl)
  {
    var init := log[..|log| - 1];
    assert init[..i] == log[..i];
    assert forall j :: 0 <= j < |init| ==> init[j] == log[j];
    assert log[|log| - 1] == Clear(key, at) ==> ClearedAfter(log, i, key, at);
    assert var last := log[|log| - 1]; last.Check? && Age(last.now, at) >= ttl ==> ExpiredAfter(ttl, log, i, at);
  }

  /** For calls in any order, the map holds exactly the live marks. */
  lemma {:induction false} SeenExactly(ttl: nat, log: seq<Event>, key: Key, at: nat)
    ensures (key in Replay(ttl, log) && Replay(ttl, log)[key] == at) <==> exists i: nat :: Live(ttl, log, i, key, at)
  {
    if log != [] {
      var n := |log| - 1;
      var init, last := log[..n], log[n];
      SeenExactly(ttl, init, key, at);
      if i: nat :| Live(ttl, init, i, key, at) { LiveInPrefix(ttl, log, i, key, at); }
      if i: nat :| Live(ttl, log, i, key, at) {
        if i < n { LiveInPrefix(ttl, log, i, key, at); }
      }
      if last == Check(key, at) && !Refuses(ttl, init, key, at) { assert Live(ttl, log, n, key, at); }
    }
  }

  /** So for calls in any order, a check is refused exactly while a live mark of
      its key is young enough. */
  lemma RefusedExactly(ttl: nat, log: seq<Event>, key: Key, now: nat)
    ensures Refuses(ttl, log, key, now) <==> exists i: nat, at: nat :: Live(ttl, log, i, key, at) && Age(now, at) < ttl
  {
    if Refuses(ttl, log, key, now) {
      var at := Replay(ttl, log)[key];
      SeenExactly(ttl, log, key, at);
      var i: nat :| Live(ttl, log, i, key, at);
      assert Live(ttl, log, i, key, at) && Age(now, at) < ttl;
    }
    if i: nat, at: nat :| Live(ttl, log, i, key, at) && Age(now, at) < ttl {
      SeenExactly(ttl, log, key, at);
    }
  }

  // ---- refinement of the unpruned history -------------------------------

  /** The clock readings never go back, in the order of the mutex. */
  predicate Monotone(log: seq<Event>) {
    forall i, j :: 0 <= i <= j < |log| && log[i].Check? && log[j].Check? ==> log[i].now <= log[j].now
  }

  /** The rule without a map and without pruning: some accepted, uncleared mark
      of this key is younger than `ttl`. */
  ghost predicate HistoryRefuses(ttl: nat, log: seq<Event>, key: Key, now: nat) {
    exists i: nat, at: nat :: Marks(ttl, log, i, key, at) && !ClearedAfter(log, i, key, at) && Age(now, at) < ttl
  }

  /** With non-decreasing time, pruning never changes an answer. */
  lemma PrunedAnswersLikeHistory(ttl: nat, log: seq<Event>, key: Key, now: nat)
    requires Monotone(log + [Check(key, now)])
    ensures Refuses(ttl, log, key, now) <==> HistoryRefuses(ttl, log, key, now)
  {
    RefusedExactly(ttl, log, key, now);
    var more := log + [Check(key, now)];
    forall i: nat, at: nat | Marks(ttl, log, i, key, at) && !ClearedAfter(log, i, key, at) && Age(now, at) < ttl
      ensures Live(ttl, log, i, key, at)
    {
      forall j | i < j < |log| && log[j].Check? ensures Age(log[j].now, at) < ttl {
        assert more[j].now <= more[|log|].now;
      }
    }
  }

  /** For calls in any order, pruning changes an answer exactly when every young,
      uncleared mark of the key has been found expired by some other reading. */
  lemma AnswersDifferExactly(ttl: nat, log: seq<Event>, key: Key, now: nat)
    ensures Refuses(ttl, log, key, now) != HistoryRefuses(ttl, log, key, now)
            <==> HistoryRefuses(ttl, log, key, now)
                 && (forall i: nat, at: nat ::
                       Marks(ttl, log, i, key, at) && !ClearedAfter(log, i, key, at) && Age(now, at) < ttl ==>
                         ExpiredAfter(ttl, log, i, at))
  {
    RefusedExactly(ttl, log, key, now);
    if Refuses(ttl, log, key, now) {
      var i: nat, at: nat :| Live(ttl, log, i, key, at) && Age(now, at) < ttl;
      assert Marks(ttl, log, i, key, at) && !ClearedAfter(log, i, key, at) && !ExpiredAfter(ttl, log, i, at);
    } else {
      forall i: nat, at: nat | Marks(ttl, log, i, key, at) && !ClearedAfter(log, i, key, at) && Age(now, at) < ttl
        ensures ExpiredAfter(ttl, log, i, at)
      {
        assert !Live(ttl, log, i, key, at);
      }
    }
  }

  const HERE: Key := Key("o", "r", "main", "a")
  const ELSEWHERE: Key := Key("o", "r", "main", "b")

  /** With time going back it can: a check of another key at 10 prunes the mark
      made at 0, and a caller that had read the clock at 9 is let through. */
  lemma LateReadingSlipsThrough()
    ensures var log := [Check(HERE, 0), Check(ELSEWHERE, 10)];
            !Refuses(10, log, HERE, 9) && HistoryRefuses(10, log, HERE, 9)
  {
    var log := [Check(HERE, 0), Check(ELSEWHERE, 10)];
    assert log[..1] == [Check(HERE, 0)] && log[..0] == [];
    assert Replay(10, []) == map[];
    assert Replay(10, log[..1]) == map[HERE := 0];
    assert Replay(10, log) == map[ELSEWHERE := 10];
    assert Marks(10, log, 0, HERE, 0) && !ClearedAfter(log, 0, HERE, 0) && Age(9, 0) < 10;
  }

  /** Accepted marks of one key, the earlier of which has not been cleared, are
      at least `ttl` apart. */
  lemma MarksSpaced(ttl: nat, log: seq<Event>, i: nat, j: nat, key: Key, at: nat, later: nat)
    requires Monotone(log) && i < j
    requires Marks(ttl, log, i, key, at) && Marks(ttl, log, j, key, later) && !ClearedAfter(log[..j], i, key, at)
    ensures later >= at + ttl
  {
    var before := log[..j];
    assert before[..i] == log[..i];
    if later < at + ttl {
      assert log[i].now <= log[j].now;
      forall m | i < m < |before| && before[m].Check? ensures Age(before[m].now, at) < ttl {
        assert log[m].now <= log[j].now;
      }
      assert Live(ttl, before, i, key, at);
      SeenExactly(ttl, before, key, at);
      assert false;
    }
  }

  /** Exactly `ttl` apart does happen. */
  lemma MarksExactlyTtlApart(ttl: nat, key: Key)
    ensures var log := [Check(key, 0), Check(key, ttl)];
            && Monotone(log) && Marks(ttl, log, 0, key, 0) && Marks(ttl, log, 1, key, ttl)
            && !ClearedAfter(log, 0, key, 0)
  {
    var log := [Check(key, 0), Check(key, ttl)];
    assert log[..1] == [Check(key, 0)] && log[..0] == [] && log[..1][..0] == [];
    assert Replay(ttl, log[..1]) == map[key := 0];
  }

  /** For `ttl > 0`, a warm that clears its mark late, once, never removes the
      mark of another warm. */
  lemma ClearSparesOthers(ttl: nat, log: seq<Event>, i: nat, key: Key, marked: nat, j: nat, other: Key, at: nat)
    requires ttl > 0 && Monotone(log)
    requires Marks(ttl, log, i, key, marked) && !ClearedAfter(log, i, key, marked)
    requires j != i && Live(ttl, log, j, other, at)
    ensures Live(ttl, log + [Clear(key, marked)], j, other, at)
  {
    if other == key && at == marked {
      if i < j { MarksSpaced(ttl, log, i, j, key, marked, at); } else { MarksSpaced(ttl, log, j, i, key, at, marked); }
      assert false;
    }
    var more := log + [Clear(key, marked)];
    assert more[..|more| - 1] == log;
    LiveInPrefix(ttl, more, j, other, at);
  }

  /** A zero `ttl` lets every check through, but does not keep the map empty, as
      the comment on it says: the latest mark stays until the next call. */
  lemma ZeroTtl(log: seq<Event>, key: Key, now: nat)
    ensures !Refuses(0, log, key, now)
    ensures Replay(0, log + [Check(key, now)]) == map[key := now]
  {
    var more := log + [Check(key, now)];
    assert more[..|more| - 1] == log;
  }
}
