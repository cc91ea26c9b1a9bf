/**
 * The offline attendance queue of the mobile client: a FIFO list of check-in and
 * check-out actions persisted, as one serialized sequence, under a single fixed key
 * of a keyed store. Enqueue appends one action; flush replays every entry in order
 * and writes back exactly the entries whose replay failed.
 *
 * The store's reads and writes, and the server's answer to each replay, are
 * oracles: `readOk`/`writeOk` say whether the store call completed, and
 * `outcomes[i]` whether the i-th replay of a flush succeeded (a replay beyond the
 * end of `outcomes` counts as failed, as with no network).
 */
module Offline {
  import opened Wrappers

  /** The fixed key under which the queue is persisted. */
  const QueueKey: string := "odhr_offline_queue"

  /** `'checkin' | 'checkout'`. */
  datatype Kind = CheckIn | CheckOut

  /** `{ lat?, lng?, manual?, reason?: string | null }`; an absent member is None. */
  datatype Payload = Payload(lat: Option<real>, lng: Option<real>, manual: Option<bool>, reason: Option<Option<string>>)

  datatype Action = Action(kind: Kind, payload: Payload, ts: int)

  /** A call the flush makes to the server: the endpoint chosen and the payload it is given. */
  datatype Replay = AttendanceCheckIn(payload: Payload) | AttendanceCheckOut(payload: Payload)

  /** What the store holds under QueueKey: nothing, the serialization of a queue, or text that
    * does not parse as JSON. */
  datatype Slot = Absent | Stored(queue: seq<Action>) | Unparseable

  /** The queue a read yields: the stored sequence, or the empty queue when nothing is stored, the
    * stored text does not parse, or the store's read throws. */
  function Loaded(slot: Slot, readOk: bool): (q: seq<Action>)
    ensures q != [] ==> readOk && slot.Stored? && q == slot.queue
    ensures readOk && slot.Stored? ==> q == slot.queue
  {
    if readOk && slot.Stored? then slot.queue else []
  }

  /** `setQueue` then `getQueue`: a completed write reads back as the written queue; a failed write
    * reads back as whatever was readable before. */
  lemma ReadAfterWrite(slot: Slot, q: seq<Action>, writeOk: bool)
    ensures Loaded(if writeOk then Stored(q) else slot, true) == if writeOk then q else Loaded(slot, true)
  {
  }

  /** The server call replaying one entry: `'checkin'` goes to the check-in endpoint, anything
    * else to the check-out endpoint, and the payload is passed unchanged. */
  function ReplayOf(a: Action): (r: Replay)
    ensures r.AttendanceCheckIn? <==> a.kind == CheckIn
    ensures r.payload == a.payload
  {
    if a.kind == CheckIn then AttendanceCheckIn(a.payload) else AttendanceCheckOut(a.payload)
  }

  /** The calls a flush of `q` makes, one per entry, in stored order. */
  function ReplaysOf(q: seq<Action>): (rs: seq<Replay>)
    ensures |rs| == |q|
    ensures forall i :: 0 <= i < |q| ==> rs[i] == ReplayOf(q[i])
  {
    if q == [] then [] else ReplaysOf(q[..|q| - 1]) + [ReplayOf(q[|q| - 1])]
  }

  predicate Succeeded(outcomes: seq<bool>, i: nat) {
    i < |outcomes| && outcomes[i]
  }

  /** The entries of `q` whose replay failed, in their original order. */
  function Failed(q: seq<Action>, outcomes: seq<bool>): seq<Action>
  {
    if q == [] then []
    else Failed(q[..|q| - 1], outcomes) + (if Succeeded(outcomes, |q| - 1) then [] else [q[|q| - 1]])
  }

  /** The positions (below `n`) whose replay failed, in increasing order. */
  function FailedPositions(n: nat, outcomes: seq<bool>): seq<nat>
  {
    if n == 0 then []
    else FailedPositions(n - 1, outcomes) + (if Succeeded(outcomes, n - 1) then [] else [n - 1])
  }

  /** A failed position lies below `n`, and the positions are strictly increasing. */
  lemma {:induction false} FailedPositionsShape(n: nat, outcomes: seq<bool>)
    ensures forall j :: 0 <= j < |FailedPositions(n, outcomes)| ==> FailedPositions(n, outcomes)[j] < n
    ensures forall j, k :: 0 <= j < k < |FailedPositions(n, outcomes)| ==>
              FailedPositions(n, outcomes)[j] < FailedPositions(n, outcomes)[k]
  {
    if n > 0 {
      FailedPositionsShape(n - 1, outcomes);
    }
  }

  /** A position appears exactly when its replay failed. */
  lemma {:induction false} FailedPositionsMembers(n: nat, outcomes: seq<bool>, i: nat)
    ensures i in FailedPositions(n, outcomes) <==> i < n && !Succeeded(outcomes, i)
  {
    if n > 0 {
      FailedPositionsMembers(n - 1, outcomes, i);
    }
  }

  /** What a flush writes back is the subsequence of `q` at the failed positions: the entries whose
    * replay failed, each once, in their original relative order. */
  lemma {:induction false} FailedIsFailedSubsequence(q: seq<Action>, outcomes: seq<bool>)
    ensures |Failed(q, outcomes)| == |FailedPositions(|q|, outcomes)|
    ensures forall j :: 0 <= j < |Failed(q, outcomes)| ==>
              FailedPositions(|q|, outcomes)[j] < |q| &&
              Failed(q, outcomes)[j] == q[FailedPositions(|q|, outcomes)[j]]
  {
    FailedPositionsShape(|q|, outcomes);
    if q != [] {
      var init := q[..|q| - 1];
      FailedIsFailedSubsequence(init, outcomes);
      FailedPositionsShape(|init|, outcomes);
    }
  }

  /** If every replay succeeds the queue written back is empty. */
  lemma {:induction false} AllSucceededLeavesNothing(q: seq<Action>, outcomes: seq<bool>)
    requires forall i :: 0 <= i < |q| ==> Succeeded(outcomes, i)
    ensures Failed(q, outcomes) == []
  {
    if q != [] {
      AllSucceededLeavesNothing(q[..|q| - 1], outcomes);
    }
  }

  /** If no replay succeeds (for instance, still offline) the whole queue is kept as it was. */
  lemma {:induction false} NoneSucceededKeepsAll(q: seq<Action>, outcomes: seq<bool>)
    requires forall i :: 0 <= i < |q| ==> !Succeeded(outcomes, i)
    ensures Failed(q, outcomes) == q
  {
    if q != [] {
      var init := q[..|q| - 1];
      assert forall i :: 0 <= i < |init| ==> !Succeeded(outcomes, i);
      NoneSucceededKeepsAll(init, outcomes);
      assert !Succeeded(outcomes, |q| - 1);
      assert Failed(q, outcomes) == init + [q[|q| - 1]];
      assert init + [q[|q| - 1]] == q;
    }
  }

  /** Three queued actions A, B, C of which only B fails to replay leave exactly [B]. */
  lemma MiddleFailureLeavesIt(a: Action, b: Action, c: Action)
    ensures Failed([a, b, c], [true, false, true]) == [b]
  {
    var o := [true, false, true];
    assert [a, b, c][..2] == [a, b] && [a, b][..1] == [a] && [a][..0] == [];
    assert Failed([a], o) == [];
    assert Failed([a, b], o) == [b];
  }

  /** The stored slot after a flush: the failed entries, unless there was nothing to replay or the
    * write failed. */
  function AfterFlush(slot: Slot, outcomes: seq<bool>, readOk: bool, writeOk: bool): Slot {
    var q := Loaded(slot, readOk);
    if q == [] || !writeOk then slot else Stored(Failed(q, outcomes))
  }

  /** The persisted queue. */
  class OfflineQueue {
    var slot: Slot

    constructor ()
      ensures slot == Absent
    {
      slot := Absent;
    }

    /** `getQueue`: never throws; yields [] when nothing usable is stored. */
    method GetQueue(readOk: bool) returns (q: seq<Action>)
      ensures q == Loaded(slot, readOk)
      ensures !readOk || slot.Absent? || slot.Unparseable? ==> q == []
      ensures readOk && slot.Stored? ==> q == slot.queue
    {
      if !readOk {
        return [];
      }
      match slot
      case Stored(stored) => q := stored;
      case _ => q := [];
    }

    /** `setQueue`: a failed write is swallowed and leaves the stored value as it was. */
    method SetQueue(q: seq<Action>, writeOk: bool)
      modifies this
      ensures slot == if writeOk then Stored(q) else old(slot)
    {
      if writeOk {
        slot := Stored(q);
      }
    }

    /** `enqueueAttendanceAction`: read the queue, push one action at the end, write it back. */
    method Enqueue(a: Action, readOk: bool, writeOk: bool)
      modifies this
      ensures slot == if writeOk then Stored(Loaded(old(slot), readOk) + [a]) else old(slot)
    {
      var q := GetQueue(readOk);
      q := q + [a];
      SetQueue(q, writeOk);
    }

    /** `flushAttendanceQueue`: replay every entry in stored order, collect the failures, and write
      * them back; an empty queue is neither replayed nor written. */
    method Flush(outcomes: seq<bool>, readOk: bool, writeOk: bool) returns (replays: seq<Replay>)
      modifies this
      ensures replays == ReplaysOf(Loaded(old(slot), readOk))
      ensures Loaded(old(slot), readOk) == [] || !writeOk ==> slot == old(slot)
      ensures Loaded(old(slot), readOk) != [] && writeOk ==>
                slot == Stored(Failed(Loaded(old(slot), readOk), outcomes))
      ensures slot == AfterFlush(old(slot), outcomes, readOk, writeOk)
    {
      var q := GetQueue(readOk);
      replays := [];
      if |q| == 0 {
        return;
      }
      var remaining: seq<Action> := [];
      for i := 0 to |q|
        invariant remaining == Failed(q[..i], outcomes)
        invariant replays == ReplaysOf(q[..i])
      {
        assert q[..i + 1][..i] == q[..i];
        var item := q[i];
        if item.kind == CheckIn {
          replays := replays + [AttendanceCheckIn(item.payload)];
        } else {
          replays := replays + [AttendanceCheckOut(item.payload)];
        }
        if !Succeeded(outcomes, i) {
          remaining := remaining + [item];
        }
      }
      assert q[..|q|] == q;
      SetQueue(remaining, writeOk);
    }

    /** The attendance screen's `doCheck`: with a session, send the check-in or check-out with the
      * current position (absent when it cannot be had); when that call fails, queue the action as a
      * manual, offline one instead of reporting the error. */
    method DoCheck(button: Button, signedIn: bool, pos: Option<Position>, directOk: bool, ts: int,
                   readOk: bool, writeOk: bool)
      returns (direct: Option<Replay>)
      modifies this
      ensures direct == if signedIn then Some(DirectCall(button, pos)) else None
      ensures !signedIn || directOk || !writeOk ==> slot == old(slot)
      ensures signedIn && !directOk && writeOk ==>
                slot == Stored(Loaded(old(slot), readOk) + [QueuedAfterFailure(button, ts)])
    {
      if !signedIn {
        return None;
      }
      var payload := Payload(if pos.Some? then Some(pos.value.lat) else None,
                             if pos.Some? then Some(pos.value.lng) else None, None, None);
      if button == In {
        direct := Some(AttendanceCheckIn(payload));
      } else {
        direct := Some(AttendanceCheckOut(payload));
      }
      if !directOk {
        Enqueue(QueuedAfterFailure(button, ts), readOk, writeOk);
      }
    }
  }

  datatype Position = Position(lat: real, lng: real)

  /** The call `doCheck` makes directly: the position's coordinates and nothing else. */
  function DirectCall(button: Button, pos: Option<Position>): (r: Replay)
    ensures r.AttendanceCheckIn? <==> button == In
    ensures r.payload.manual.None? && r.payload.reason.None?
    ensures r.payload.lat.Some? <==> pos.Some?
    ensures r.payload.lng.Some? <==> pos.Some?
    ensures pos.Some? ==> r.payload.lat == Some(pos.value.lat) && r.payload.lng == Some(pos.value.lng)
  {
    var payload := Payload(if pos.Some? then Some(pos.value.lat) else None,
                           if pos.Some? then Some(pos.value.lng) else None, None, None);
    if button == In then AttendanceCheckIn(payload) else AttendanceCheckOut(payload)
  }

  /** The two buttons of the attendance screen, `'in' | 'out'`. */
  datatype Button = In | Out

  /** The entry queued after a failed direct call: `'in'` becomes `'checkin'`, `'out'` becomes
    * `'checkout'`, and the payload is `{manual: true, reason: 'offline'}` (the position is not kept). */
  function QueuedAfterFailure(button: Button, ts: int): (a: Action)
    ensures a.kind == CheckIn <==> button == In
    ensures a.payload.manual == Some(true) && a.payload.reason == Some(Some("offline"))
    ensures a.payload.lat.None? && a.payload.lng.None? && a.ts == ts
  {
    Action(if button == In then CheckIn else CheckOut, Payload(None, None, Some(true), Some(Some("offline"))), ts)
  }
}
