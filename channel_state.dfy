/**
 * The channel as a sequential state machine: the closed flag, the capacity
 * and the FIFO contents of the bounded buffer.  Each non-blocking operation is
 * a step from a state to a status and a new state; `Run` strings steps
 * together so that properties of whole histories (FIFO delivery, the capacity
 * bound, the effect of closing) can be stated and proved.
 */
module ChannelState {
  import opened Optional

  /** The statuses a channel operation returns. */
  datatype Status = Success | WouldBlock | ClosedError | DestroyError | OtherError

  /** An opaque payload reference, identified by a number; the channel never looks inside it. */
  type Payload = nat

  /** The closed flag, the fixed capacity and the buffered payloads, oldest first. */
  datatype State = State(closed: bool, capacity: nat, items: seq<Payload>)

  /** The buffer never holds more payloads than its capacity. */
  predicate Inv(s: State)
  {
    |s.items| <= s.capacity
  }

  /** The buffer is full in the sense of the channel code: no free slot is left (always so for capacity 0). */
  predicate Full(s: State)
  {
    s.capacity - |s.items| == 0
  }

  /** The buffer holds nothing. */
  predicate Empty(s: State)
  {
    |s.items| == 0
  }

  /** A blocking send would have to wait: the channel is open and full. */
  predicate SendWouldWait(s: State)
  {
    !s.closed && Full(s)
  }

  /** A blocking receive would have to wait: the channel is open and empty. */
  predicate ReceiveWouldWait(s: State)
  {
    !s.closed && Empty(s)
  }

  /** The status of an operation, the state after it and, for a receive, the payload handed out. */
  datatype Outcome = Outcome(status: Status, state: State, received: Option<Payload>)

  /**
   * A non-blocking send: a closed channel refuses before the free space is
   * looked at; a full one would block; otherwise `data` joins the tail.
   */
  function SendStep(s: State, data: Payload): (r: Outcome)
    ensures r.status == Success || r.status == WouldBlock || r.status == ClosedError
    ensures r.received == None
    ensures r.status != Success ==> r.state == s
    ensures r.state.closed == s.closed && r.state.capacity == s.capacity
    ensures Inv(s) ==> Inv(r.state)
  {
    if s.closed then Outcome(ClosedError, s, None)
    else if Full(s) then Outcome(WouldBlock, s, None)
    else Outcome(Success, s.(items := s.items + [data]), None)
  }

  /**
   * A non-blocking receive: a closed channel refuses even when it still
   * buffers payloads; an empty one would block; otherwise the oldest payload
   * is removed and handed out.
   */
  function ReceiveStep(s: State): (r: Outcome)
    ensures r.status == Success || r.status == WouldBlock || r.status == ClosedError
    ensures r.received.Some? <==> r.status == Success
    ensures r.status != Success ==> r.state == s
    ensures r.status == Success ==> [r.received.value] + r.state.items == s.items
    ensures r.state.closed == s.closed && r.state.capacity == s.capacity
    ensures Inv(s) ==> Inv(r.state)
  {
    if s.closed then Outcome(ClosedError, s, None)
    else if Empty(s) then Outcome(WouldBlock, s, None)
    else Outcome(Success, s.(items := s.items[1..]), Some(s.items[0]))
  }

  /** Closing: the first close sets the flag, any later one is refused; the buffer is never touched. */
  function CloseStep(s: State): (r: Outcome)
    ensures r.status == Success || r.status == ClosedError
    ensures r.received == None
    ensures r.state.closed
    ensures r.state.capacity == s.capacity && r.state.items == s.items
    ensures r.status == Success <==> !s.closed
  {
    if s.closed then Outcome(ClosedError, s, None)
    else Outcome(Success, s.(closed := true), None)
  }

  /** Destroying is accepted only on a closed channel. */
  function DestroyStatus(s: State): (st: Status)
    ensures st == Success || st == DestroyError
    ensures st == Success <==> s.closed
  {
    if s.closed then Success else DestroyError
  }

  /** The operations a history is made of. */
  datatype Op = SendOp(data: Payload) | ReceiveOp | CloseOp

  function Step(s: State, op: Op): Outcome
  {
    match op
    case SendOp(data) => SendStep(s, data)
    case ReceiveOp => ReceiveStep(s)
    case CloseOp => CloseStep(s)
  }

  /** Payloads a step took in: the payload of a successful send, nothing otherwise. */
  function Accepted(op: Op, o: Outcome): seq<Payload>
  {
    if op.SendOp? && o.status == Success then [op.data] else []
  }

  /** Payloads a step handed out. */
  function Delivered(o: Outcome): seq<Payload>
  {
    if o.received.Some? then [o.received.value] else []
  }

  /** The final state, the status of every step, and the payloads accepted and delivered, in order. */
  datatype Trace = Trace(final: State, statuses: seq<Status>, accepted: seq<Payload>, delivered: seq<Payload>)

  /** The operations `ops` applied one after the other, from `s`. */
  function Run(s: State, ops: seq<Op>): (t: Trace)
    ensures |t.statuses| == |ops|
    decreases |ops|
  {
    if ops == [] then Trace(s, [], [], [])
    else
      var o := Step(s, ops[0]);
      var t := Run(o.state, ops[1..]);
      Trace(t.final, [o.status] + t.statuses, Accepted(ops[0], o) + t.accepted, Delivered(o) + t.delivered)
  }

  /**
   * FIFO delivery: what was buffered at the start followed by everything
   * accepted is exactly everything delivered followed by what is buffered at
   * the end.  Payloads are neither lost, duplicated nor reordered.
   */
  lemma {:induction false} RunIsFifo(s: State, ops: seq<Op>)
    ensures var t := Run(s, ops); s.items + t.accepted == t.delivered + t.final.items
    decreases |ops|
  {
    if ops != [] {
      var o := Step(s, ops[0]);
      var t := Run(o.state, ops[1..]);
      var a, d := Accepted(ops[0], o), Delivered(o);
      RunIsFifo(o.state, ops[1..]);
      StepIsFifo(s, ops[0]);
      calc {
        s.items + (a + t.accepted);
        (s.items + a) + t.accepted;
        (d + o.state.items) + t.accepted;
        d + (o.state.items + t.accepted);
        d + (t.delivered + t.final.items);
        (d + t.delivered) + t.final.items;
      }
    }
  }

  /** One step keeps FIFO order: buffered-then-accepted equals delivered-then-buffered. */
  lemma StepIsFifo(s: State, op: Op)
    ensures var o := Step(s, op); s.items + Accepted(op, o) == Delivered(o) + o.state.items
  {
    var o := Step(s, op);
    if op.ReceiveOp? && o.status == Success {
      assert s.items == [s.items[0]] + s.items[1..];
    }
  }

  /** The capacity bound holds through any history, and the capacity never changes. */
  lemma {:induction false} RunKeepsInv(s: State, ops: seq<Op>)
    requires Inv(s)
    ensures Inv(Run(s, ops).final) && Run(s, ops).final.capacity == s.capacity
    decreases |ops|
  {
    if ops != [] {
      RunKeepsInv(Step(s, ops[0]).state, ops[1..]);
    }
  }

  /** Once closed, a channel stays closed through any history. */
  lemma {:induction false} RunStaysClosed(s: State, ops: seq<Op>)
    requires s.closed
    ensures Run(s, ops).final.closed
    decreases |ops|
  {
    if ops != [] {
      RunStaysClosed(Step(s, ops[0]).state, ops[1..]);
    }
  }

  /**
   * On a closed channel every operation is refused with CLOSED_ERROR and
   * nothing changes: payloads still buffered can no longer be drained.
   */
  lemma {:induction false} RunOnClosed(s: State, ops: seq<Op>)
    requires s.closed
    ensures var t := Run(s, ops);
      && t.final == s && t.accepted == [] && t.delivered == []
      && forall k :: 0 <= k < |ops| ==> t.statuses[k] == ClosedError
    decreases |ops|
  {
    if ops != [] {
      RunOnClosed(s, ops[1..]);
      var t := Run(s, ops[1..]);
      assert forall k :: 0 < k < |ops| ==> Run(s, ops).statuses[k] == t.statuses[k - 1];
    }
  }

  /** Nothing is ever delivered beyond what was buffered or accepted. */
  lemma DeliveredBound(s: State, ops: seq<Op>)
    ensures |Run(s, ops).delivered| <= |s.items| + |Run(s, ops).accepted|
  {
    RunIsFifo(s, ops);
  }

  /** Closing twice: the second close is refused and changes nothing. */
  lemma CloseTwice(s: State)
    ensures var once := CloseStep(s);
      CloseStep(once.state).status == ClosedError && CloseStep(once.state).state == once.state
  {
  }

  /**
   * A capacity-2 history, for any payloads a to d: two sends are accepted,
   * the third would block and changes nothing, receives hand the payloads
   * out oldest first, and a send after a receive fits into the freed slot.
   */
  lemma CapacityTwoHistory(a: Payload, b: Payload, c: Payload, d: Payload)
    ensures
      var s1 := SendStep(State(false, 2, []), a);
      var s2 := SendStep(s1.state, b);
      var s3 := SendStep(s2.state, c);
      var r1 := ReceiveStep(s3.state);
      var s4 := SendStep(r1.state, d);
      var r2 := ReceiveStep(s4.state);
      var r3 := ReceiveStep(r2.state);
      && s1.status == Success && s2.status == Success
      && s3.status == WouldBlock && s3.state == s2.state
      && r1.received == Some(a) && s4.status == Success
      && r2.received == Some(b) && r3.received == Some(d)
      && r3.state == State(false, 2, [])
  {
    assert [a, b][1..] == [b];
    assert [b, d][1..] == [d];
  }

  /** A capacity-0 channel never accepts a send and never has anything to receive. */
  lemma {:induction false} CapacityZeroNeverTransfers(s: State, ops: seq<Op>)
    requires s.capacity == 0 && Inv(s)
    ensures Run(s, ops).accepted == [] && Run(s, ops).delivered == []
    decreases |ops|
  {
    if ops != [] {
      CapacityZeroNeverTransfers(Step(s, ops[0]).state, ops[1..]);
    }
  }
}
