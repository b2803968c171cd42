/** The sink as an object: its queue holds the events themselves, and each method is one synchronous stretch of code. */
module EvidenceSink {
  import opened Options
  import opened AuditSinks

  class Sink<T(==)> {
    const kind: Kind
    var queue: seq<T>
    var overflowed: bool
    var writeFailed: bool

    // The promise chain: drains not yet over, and how those that are over ended.
    var waiting: nat
    var writing: bool
    var outcomes: seq<bool>

    /** Every event ever accepted, and the state of the protocol. */
    ghost var accepted: seq<T>
    ghost var state: AuditSinks.Sink

    ghost predicate Valid()
      reads this
    {
      AuditSinks.Valid(kind, state) && Represents()
    }

    /** The fields show the state of the protocol. */
    ghost predicate Represents()
      reads this
    {
      && state.shifted <= |accepted| == state.accepted && queue == accepted[state.shifted..]
      && overflowed == state.overflowed && (kind.Gateway? ==> writeFailed == state.writeFailed)
      && writing == state.writing && outcomes == state.results
      && waiting == |state.scheduled| - |state.results|
    }

    constructor (kind: Kind)
      ensures this.kind == kind && state == EMPTY && Represents()
    {
      this.kind := kind;
      queue, overflowed, writeFailed, waiting, writing, outcomes := [], false, false, 0, false, [];
      accepted, state := [], EMPTY;
    }

    /** `emit` and `onApprovalLifecycleEvent`: performs no I/O. */
    method Emit(event: T)
      requires Valid()
      modifies this
      ensures Valid() && state == Accept(kind, old(state))
      ensures accepted == if state.accepted == old(state.accepted) then old(accepted) else old(accepted) + [event]
      ensures |old(queue)| < 4096 ==> queue == old(queue) + [event] && overflowed == old(overflowed)
      ensures |old(queue)| >= 4096 ==> queue == old(queue) && overflowed
    {
      AcceptKeeps(kind, state);
      if |queue| >= MAX_PENDING {
        overflowed := true;
      } else {
        queue := queue + [event];
        accepted := accepted + [event];
        if kind.Gateway? {
          waiting := waiting + 1;
        }
      }
      state := Accept(kind, state);
    }

    /** The drain loop from its condition to the next `await`: the event to write, or none and the drain is over. */
    method Continue() returns (head: Option<T>)
      requires Valid() && !writing && waiting > 0
      modifies this
      ensures Valid() && state == Advance(kind, old(state)) && accepted == old(accepted)
      ensures head == if old(state.shifted) < |accepted| then Some(accepted[old(state.shifted)]) else None
    {
      AdvanceKeeps(kind, state);
      if |queue| > 0 {
        head := Some(queue[0]);
        writing := true;
      } else {
        head := None;
        outcomes := outcomes + [kind.Gateway? || !overflowed];
        waiting := waiting - 1;
      }
      state := Advance(kind, state);
    }

    /** The awaited write of the head was rejected, though it may have landed: the head stays queued. */
    method WriteRejected(landed: bool)
      requires Valid() && writing
      modifies this
      ensures Valid() && state == Settled(kind, old(state), Rejected(landed))
      ensures accepted == old(accepted) && queue == old(queue)
    {
      RejectedKeeps(kind, state, landed);
      writeFailed := writeFailed || kind.Gateway?;
      writing := false;
      outcomes := outcomes + [false];
      waiting := waiting - 1;
      state := Settled(kind, state, Rejected(landed));
    }

    /** The awaited write of the head was stored: the head leaves the queue and the loop goes round. */
    method WriteStored() returns (head: Option<T>)
      requires Valid() && writing
      modifies this
      ensures Valid() && state == Settled(kind, old(state), Stored) && accepted == old(accepted)
      ensures head == if old(state.shifted) + 1 < |accepted| then Some(accepted[old(state.shifted) + 1]) else None
    {
      Shift();
      head := Continue();
    }

    method Shift()
      requires Valid() && writing
      modifies this
      ensures Valid() && !writing && waiting > 0 && accepted == old(accepted)
      ensures state == AuditSinks.Shift(old(state))
    {
      ShiftKeeps(kind, state);
      queue := queue[1..];
      writing := false;
      state := AuditSinks.Shift(state);
    }

    /** `flush()` up to its `await`: how many drains must be over before it returns. */
    method CallFlush() returns (drains: nat)
      requires Valid()
      modifies this
      ensures Valid() && state == AuditSinks.CallFlush(kind, old(state)) && accepted == old(accepted)
      ensures drains == state.flushes[|state.flushes| - 1].drains
    {
      CallFlushKeeps(kind, state);
      if kind.Approval? {
        waiting := waiting + 1;
      }
      state := AuditSinks.CallFlush(kind, state);
      drains := |outcomes| + waiting;
    }

    /** The rest of `flush()`: true where it resolves, false where it throws. When it resolves, every event
        accepted before the call is in the chain. */
    method FinishFlush(flush: Flush) returns (resolves: bool)
      requires Valid() && flush in state.flushes && CanReturn(state, flush)
      ensures resolves <==> Resolves(kind, state, flush)
      ensures resolves ==> !flush.mark.overflowed && forall n :: 0 <= n < flush.mark.accepted ==> n in state.chain
    {
      if flush.drains > 0 && !outcomes[flush.drains - 1] {
        return false;
      }
      if kind.Gateway? && (writeFailed || overflowed) {
        return false;
      }
      ghost var i :| 0 <= i < |state.flushes| && state.flushes[i] == flush;
      FlushMeansCommitted(kind, state, i);
      return true;
    }
  }
}
