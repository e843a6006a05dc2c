/**
 * The observable lock discipline of the ledger operations. Threads are not
 * modelled: an operation records, in a ghost log, each WaitAsync (Acquire)
 * and each Release it performs on a per-player lock, and each player record
 * it saves (Write). The lemmas here say what such a log shows: locks are
 * taken in ascending player-id order, released in the reverse order, none is
 * left held, and every record is written while its owner's lock is held; and
 * tasks that keep this order can never wait for one another in a cycle.
 */
module Locking {
  import opened Wrappers

  datatype LockEvent = Acquire(id: int) | Release(id: int) | Write(id: int)

  /**
   * The events of try/finally blocks nested around each other that lock
   * `ids` in turn, with the events `body` of the innermost block.
   */
  function Bracket(ids: seq<int>, body: seq<LockEvent>): seq<LockEvent> {
    if ids == [] then body else [Acquire(ids[0])] + Bracket(ids[1..], body) + [Release(ids[0])]
  }

  /** The events of saving the records of `ids`, in order. */
  function Writes(ids: seq<int>): seq<LockEvent> {
    if ids == [] then [] else [Write(ids[0])] + Writes(ids[1..])
  }

  predicate StrictlyIncreasing(s: seq<int>) {
    forall i, j :: 0 <= i < j < |s| ==> s[i] < s[j]
  }

  /** A task holding the locks `held` may wait for lock `x` only when `x` is above all of them. */
  predicate MayRequest(held: seq<int>, x: int) {
    forall y :: y in held ==> y < x
  }

  /**
   * Replays one task's events against the stack of locks it holds: an
   * Acquire must keep the global order, a Release must be of the lock
   * taken last and a Write must be of a record whose lock is held. None
   * when the events break this discipline.
   */
  function Replay(events: seq<LockEvent>, held: seq<int>): Option<seq<int>>
    decreases |events|
  {
    if events == [] then Some(held)
    else match events[0]
      case Acquire(x) =>
        if MayRequest(held, x) then Replay(events[1..], held + [x]) else None
      case Release(x) =>
        if held != [] && held[|held| - 1] == x then Replay(events[1..], held[..|held| - 1]) else None
      case Write(x) =>
        if x in held then Replay(events[1..], held) else None
  }

  /** Starting with no lock held, the events keep the discipline and end with no lock held. */
  ghost predicate Disciplined(events: seq<LockEvent>) {
    Replay(events, []) == Some([])
  }

  /** The ids of the Acquire events, in order. */
  function Acquisitions(events: seq<LockEvent>): seq<int> {
    if events == [] then []
    else (if events[0].Acquire? then [events[0].id] else []) + Acquisitions(events[1..])
  }

  /** The ids of the Release events, in order. */
  function Releases(events: seq<LockEvent>): seq<int> {
    if events == [] then []
    else (if events[0].Release? then [events[0].id] else []) + Releases(events[1..])
  }

  function Reverse(s: seq<int>): seq<int> {
    if s == [] then [] else Reverse(s[1..]) + [s[0]]
  }

  /** The lock events of a gift between two players, the smaller id first, around the saves of `written`. */
  function GiftLocks(sender: int, recipient: int, written: seq<int>): seq<LockEvent> {
    Bracket([Min(sender, recipient), Max(sender, recipient)], Writes(written))
  }

  lemma {:induction false} ReplayAppend(a: seq<LockEvent>, b: seq<LockEvent>, held: seq<int>)
    ensures Replay(a + b, held) == match Replay(a, held) case None => None case Some(h) => Replay(b, h)
    decreases |a|
  {
    if a != [] {
      assert (a + b)[0] == a[0];
      assert (a + b)[1..] == a[1..] + b;
      match a[0]
      case Acquire(x) =>
        if MayRequest(held, x) { ReplayAppend(a[1..], b, held + [x]); }
      case Release(x) =>
        if held != [] && held[|held| - 1] == x { ReplayAppend(a[1..], b, held[..|held| - 1]); }
      case Write(x) =>
        if x in held { ReplayAppend(a[1..], b, held); }
    } else {
      assert a + b == b;
    }
  }

  /**
   * Nested blocks over increasing ids, all above the locks already held,
   * around a body that keeps the held stack, leave the held stack as it was.
   */
  lemma {:induction false} BracketReplays(ids: seq<int>, body: seq<LockEvent>, held: seq<int>)
    requires StrictlyIncreasing(ids)
    requires forall y, i :: y in held && 0 <= i < |ids| ==> y < ids[i]
    requires Replay(body, held + ids) == Some(held + ids)
    ensures Replay(Bracket(ids, body), held) == Some(held)
    decreases |ids|
  {
    if ids == [] {
      assert held + ids == held;
    } else {
      var x, rest := ids[0], ids[1..];
      var inner := Bracket(rest, body) + [Release(x)];
      assert Bracket(ids, body) == [Acquire(x)] + inner;
      ReplayAppend([Acquire(x)], inner, held);
      assert MayRequest(held, x);
      assert [Acquire(x)][1..] == [];
      assert Replay([Acquire(x)], held) == Some(held + [x]);
      ReplayAppend(Bracket(rest, body), [Release(x)], held + [x]);
      forall y, i | y in held + [x] && 0 <= i < |rest|
        ensures y < rest[i]
      {
        assert rest[i] == ids[i + 1];
        if y !in held {
          assert y == x;
        }
      }
      assert (held + [x]) + rest == held + ids;
      BracketReplays(rest, body, held + [x]);
      assert (held + [x])[..|held + [x]| - 1] == held;
      assert [Release(x)][1..] == [];
    }
  }

  /** Disciplined logs compose: one operation after another keeps the discipline. */
  lemma DisciplinedAppend(a: seq<LockEvent>, b: seq<LockEvent>)
    requires Disciplined(a) && Disciplined(b)
    ensures Disciplined(a + b)
  {
    ReplayAppend(a, b, []);
  }

  lemma {:induction false} AcquisitionsAppend(a: seq<LockEvent>, b: seq<LockEvent>)
    ensures Acquisitions(a + b) == Acquisitions(a) + Acquisitions(b)
    ensures Releases(a + b) == Releases(a) + Releases(b)
    decreases |a|
  {
    if a == [] {
      assert a + b == b;
    } else {
      assert (a + b)[0] == a[0];
      assert (a + b)[1..] == a[1..] + b;
      AcquisitionsAppend(a[1..], b);
    }
  }

  /**
   * Nested blocks around a body that takes and releases no lock acquire
   * exactly `ids`, in order, and release them in the reverse order.
   */
  lemma {:induction false} BracketOrder(ids: seq<int>, body: seq<LockEvent>)
    requires Acquisitions(body) == [] && Releases(body) == []
    ensures Acquisitions(Bracket(ids, body)) == ids
    ensures Releases(Bracket(ids, body)) == Reverse(ids)
    decreases |ids|
  {
    if ids != [] {
      var x, rest := ids[0], ids[1..];
      assert Bracket(ids, body) == [Acquire(x)] + Bracket(rest, body) + [Release(x)];
      AcquisitionsAppend([Acquire(x)] + Bracket(rest, body), [Release(x)]);
      AcquisitionsAppend([Acquire(x)], Bracket(rest, body));
      BracketOrder(rest, body);
      assert Acquisitions([Acquire(x)]) == [x];
      assert Releases([Acquire(x)]) == [];
      assert Acquisitions([Release(x)]) == [];
      assert Releases([Release(x)]) == [x];
      assert [x] + rest == ids;
    }
  }

  /**
   * Saving records whose locks are all held keeps the held stack, and takes
   * or releases no lock.
   */
  lemma {:induction false} WritesReplay(ids: seq<int>, held: seq<int>)
    requires forall x :: x in ids ==> x in held
    ensures Replay(Writes(ids), held) == Some(held)
    ensures Acquisitions(Writes(ids)) == [] && Releases(Writes(ids)) == []
    decreases |ids|
  {
    if ids != [] {
      assert Writes(ids)[0] == Write(ids[0]);
      assert Writes(ids)[1..] == Writes(ids[1..]);
      WritesReplay(ids[1..], held);
    }
  }

  /**
   * In a log that keeps the discipline, every Write happens while the lock
   * of the record it saves is held.
   */
  lemma WriteUnderLock(events: seq<LockEvent>, held: seq<int>, i: nat)
    requires Replay(events, held).Some? && i < |events| && events[i].Write?
    ensures Replay(events[..i], held).Some? && events[i].id in Replay(events[..i], held).value
  {
    assert events == events[..i] + events[i..];
    ReplayAppend(events[..i], events[i..], held);
    assert events[i..][0] == events[i];
  }

  /**
   * The two locks of a gift are taken in ascending id order whichever side
   * sends, released in the reverse order, and none is left held; the
   * records saved in between are the two players'.
   */
  lemma GiftLocksOrdered(sender: int, recipient: int, written: seq<int>)
    requires sender != recipient
    requires forall x :: x in written ==> x == sender || x == recipient
    ensures Disciplined(GiftLocks(sender, recipient, written))
    ensures Acquisitions(GiftLocks(sender, recipient, written)) == [Min(sender, recipient), Max(sender, recipient)]
    ensures Releases(GiftLocks(sender, recipient, written)) == [Max(sender, recipient), Min(sender, recipient)]
  {
    var ids := [Min(sender, recipient), Max(sender, recipient)];
    assert GiftLocks(sender, recipient, written) == Bracket(ids, Writes(written));
    WritesReplay(written, [] + ids);
    BracketReplays(ids, Writes(written), []);
    BracketOrder(ids, Writes(written));
    assert Reverse(ids) == [ids[1], ids[0]] by {
      assert Reverse(ids[1..]) == [ids[1]] + Reverse([]);
    }
  }

  /** A gift's events, appended to a log that keeps the discipline, keep it. */
  lemma GiftLogShape(log: seq<LockEvent>, sender: int, recipient: int, written: seq<int>)
    requires Disciplined(log) && sender != recipient
    requires forall x :: x in written ==> x == sender || x == recipient
    ensures Disciplined(log + GiftLocks(sender, recipient, written))
    ensures GiftLocks(sender, recipient, written)
            == [Acquire(Min(sender, recipient)), Acquire(Max(sender, recipient))] + Writes(written)
               + [Release(Max(sender, recipient)), Release(Min(sender, recipient))]
  {
    var second := Max(sender, recipient);
    assert Bracket([second], Writes(written)) == [Acquire(second)] + Writes(written) + [Release(second)];
    GiftLocksOrdered(sender, recipient, written);
    DisciplinedAppend(log, GiftLocks(sender, recipient, written));
  }

  /** A single-player operation takes and releases its one lock, saving only that player's record in between. */
  lemma SingleLockDisciplined(id: int, written: seq<int>)
    requires forall x :: x in written ==> x == id
    ensures Disciplined(Bracket([id], Writes(written)))
    ensures Acquisitions(Bracket([id], Writes(written))) == [id] && Releases(Bracket([id], Writes(written))) == [id]
  {
    WritesReplay(written, [] + [id]);
    BracketReplays([id], Writes(written), []);
    BracketOrder([id], Writes(written));
  }

  function Min(a: int, b: int): int { if a < b then a else b }
  function Max(a: int, b: int): int { if a < b then b else a }

  /**
   * Tasks 0..n-1 wait in a cycle when task i holds `held[i]` and waits for
   * `wanted[i]`, a lock held by the next task, the last task waiting for a
   * lock of task 0.
   */
  ghost predicate WaitCycle(held: seq<seq<int>>, wanted: seq<int>) {
    && |held| == |wanted| > 0
    && (forall i :: 0 <= i < |wanted| - 1 ==> wanted[i] in held[i + 1])
    && wanted[|wanted| - 1] in held[0]
  }

  /**
   * Deadlock freedom of the ascending order: in every wait cycle some task
   * waits for a lock below one it holds, so tasks that keep the order never
   * wait for each other in a cycle.
   */
  lemma WaitCycleBreaksOrder(held: seq<seq<int>>, wanted: seq<int>)
    requires WaitCycle(held, wanted)
    ensures exists i :: 0 <= i < |wanted| && !MayRequest(held[i], wanted[i])
  {
    if forall i :: 0 <= i < |wanted| ==> MayRequest(held[i], wanted[i]) {
      WaitChainIncreases(held, wanted, |wanted| - 1);
      assert false;
    }
  }

  /** Along a chain of waits that keep the order, each wanted lock is above the first one. */
  lemma {:induction false} WaitChainIncreases(held: seq<seq<int>>, wanted: seq<int>, k: nat)
    requires |held| == |wanted| && k < |wanted|
    requires forall i :: 0 <= i < |wanted| ==> MayRequest(held[i], wanted[i])
    requires forall i :: 0 <= i < |wanted| - 1 ==> wanted[i] in held[i + 1]
    ensures wanted[0] <= wanted[k]
  {
    if k > 0 {
      WaitChainIncreases(held, wanted, k - 1);
      assert wanted[k - 1] in held[k];
      assert MayRequest(held[k], wanted[k]);
    }
  }
}
