/**
 * The channel object: the closed flag and the bounded FIFO buffer, guarded in
 * the original by a lock, and two registration lists of select tokens, one of
 * callers waiting to send and one of callers waiting to receive.
 *
 * Every C entry point becomes a method of this module that takes the channel
 * as a possibly-null reference, so that the NULL-argument branch is part of
 * the model.  Each method's effect on the closed flag and the buffer is the
 * matching step of `ChannelState`; notifying a registration list is modelled
 * by adding each registered token once to the multiset `posts`, the number of
 * times every token has been posted by this channel.
 */
module Channels {
  import opened Optional
  import opened ChannelState
  import LinkedList

  /** A select token; only its identity matters to a channel. */
  class Semaphore {
    constructor ()
    {
    }
  }

  class Channel {
    const capacity: nat
    var closed: bool
    /** The buffered payloads, oldest first. */
    var items: seq<Payload>
    const sendList: LinkedList.List<Semaphore>
    const receiveList: LinkedList.List<Semaphore>
    /** How often each token has been posted by this channel. */
    var posts: multiset<Semaphore>

    /** The channel, its two registration lists and everything they own. */
    ghost function Repr(): set<object>
      reads sendList, receiveList
    {
      {this, sendList, receiveList} + sendList.Repr + receiveList.Repr
    }

    /** Both lists are valid and separate from each other and from the channel; the buffer respects the capacity. */
    ghost predicate Valid()
      reads this, sendList, receiveList, sendList.Repr, receiveList.Repr
    {
      && sendList.Valid() && receiveList.Valid()
      && sendList.Repr !! receiveList.Repr
      && this !in sendList.Repr && this !in receiveList.Repr
      && Inv(Snapshot())
    }

    /** The closed flag, capacity and buffer as a state of the state machine. */
    function Snapshot(): ChannelState.State
      reads this
    {
      ChannelState.State(closed, capacity, items)
    }

    /** channel_create: an open channel with an empty buffer of the given capacity and empty registration lists. */
    constructor (capacity: nat)
      ensures Valid() && fresh(Repr())
      ensures Snapshot() == ChannelState.State(false, capacity, [])
      ensures sendList.Elements() == [] && receiveList.Elements() == []
      ensures posts == multiset{}
    {
      this.capacity := capacity;
      closed := false;
      items := [];
      sendList := new LinkedList.List();
      receiveList := new LinkedList.List();
      posts := multiset{};
    }
  }

  /** sem_post on a token: one more post of `t`. */
  function Post(m: multiset<Semaphore>, t: Semaphore): (r: multiset<Semaphore>)
    ensures m <= r && r[t] == m[t] + 1 && |r| == |m| + 1
  {
    m + multiset{t}
  }

  /** Posting every token of `ts` in turn adds each of them once per occurrence. */
  lemma {:induction false} PostAll(m: multiset<Semaphore>, ts: seq<Semaphore>)
    ensures LinkedList.FoldLeft(Post, m, ts) == m + multiset(ts)
    decreases |ts|
  {
    if ts != [] {
      var init := ts[..|ts| - 1];
      PostAll(m, init);
      assert ts == init + [ts[|ts| - 1]];
    }
  }

  /** The notify step: when `l` is not empty, every token registered in it is posted once. */
  method Notify(c: Channel, l: LinkedList.List<Semaphore>)
    requires l.Valid() && c !in l.Repr
    modifies c
    ensures c.posts == old(c.posts) + multiset(l.Elements())
    ensures c.closed == old(c.closed) && c.items == old(c.items)
  {
    var n := LinkedList.Count(l);
    if n != 0 {
      c.posts := PostEach(l, c.posts);
    }
  }

  /** list_foreach with sem_post as the callback, starting from the posts `m`. */
  method PostEach(l: LinkedList.List<Semaphore>, m: multiset<Semaphore>) returns (r: multiset<Semaphore>)
    requires l.Valid()
    ensures r == m + multiset(l.Elements())
  {
    r := LinkedList.Foreach(l, Post, m);
    PostAll(m, l.Elements());
  }

  /**
   * channel_send: OTHER_ERROR for a NULL channel; otherwise the send step
   * (CLOSED_ERROR, WOULDBLOCK or SUCCESS).  After a successful send every
   * token waiting to receive is posted once, and no token waiting to send.
   * A blocking send is modelled only where it does not have to wait, where it
   * behaves as the non-blocking one.
   */
  method Send(c: Channel?, data: Payload, blocking: bool) returns (status: Status)
    requires c != null ==> c.Valid()
    requires c != null && blocking ==> !SendWouldWait(c.Snapshot())
    modifies if c == null then {} else {c}
    ensures c == null ==> status == OtherError
    ensures c != null ==>
      var o := SendStep(old(c.Snapshot()), data);
      status == o.status && c.Snapshot() == o.state && c.Valid()
    ensures c != null ==>
      c.posts == old(c.posts) + if status == Success then multiset(c.receiveList.Elements()) else multiset{}
    ensures c != null && status != Success ==> unchanged(c)
  {
    if c == null {
      return OtherError;
    }
    if c.closed {
      return ClosedError;
    }
    if c.capacity - |c.items| == 0 {
      return WouldBlock;
    }
    c.items := c.items + [data];
    Notify(c, c.receiveList);
    return Success;
  }

  /**
   * channel_receive: OTHER_ERROR for a NULL channel; otherwise the receive
   * step, which hands out the oldest payload on SUCCESS and nothing otherwise.
   * After a successful receive every token waiting to send is posted once, and
   * no token waiting to receive.  A blocking receive is modelled only where it
   * does not have to wait.
   */
  method Receive(c: Channel?, blocking: bool) returns (status: Status, data: Option<Payload>)
    requires c != null ==> c.Valid()
    requires c != null && blocking ==> !ReceiveWouldWait(c.Snapshot())
    modifies if c == null then {} else {c}
    ensures c == null ==> status == OtherError && data == None
    ensures c != null ==>
      var o := ReceiveStep(old(c.Snapshot()));
      status == o.status && data == o.received && c.Snapshot() == o.state && c.Valid()
    ensures c != null ==>
      c.posts == old(c.posts) + if status == Success then multiset(c.sendList.Elements()) else multiset{}
    ensures c != null && status != Success ==> unchanged(c)
  {
    if c == null {
      return OtherError, None;
    }
    if c.closed {
      return ClosedError, None;
    }
    if |c.items| == 0 {
      return WouldBlock, None;
    }
    data := Some(c.items[0]);
    c.items := c.items[1..];
    Notify(c, c.sendList);
    return Success, data;
  }

  /**
   * channel_close: OTHER_ERROR for a NULL channel; CLOSED_ERROR, changing
   * nothing, for a channel already closed; otherwise the channel becomes
   * closed, its buffer untouched, and every token in both registration lists
   * is posted once.
   */
  method Close(c: Channel?) returns (status: Status)
    requires c != null ==> c.Valid()
    modifies if c == null then {} else {c}
    ensures c == null ==> status == OtherError
    ensures c != null ==>
      var o := CloseStep(old(c.Snapshot()));
      status == o.status && c.Snapshot() == o.state && c.Valid()
    ensures c != null ==>
      c.posts == old(c.posts) +
        if status == Success then multiset(c.sendList.Elements()) + multiset(c.receiveList.Elements()) else multiset{}
    ensures c != null && status != Success ==> unchanged(c)
  {
    if c == null {
      return OtherError;
    }
    if c.closed {
      return ClosedError;
    }
    c.closed := true;
    Notify(c, c.sendList);
    Notify(c, c.receiveList);
    return Success;
  }

  /**
   * channel_destroy: OTHER_ERROR for a NULL channel; DESTROY_ERROR, changing
   * nothing, for an open channel; on a closed channel both registration
   * lists are released (with the corrected list release, every node once,
   * head to tail) and SUCCESS is returned.  The released nodes of each list
   * are returned; nothing is released on an error.
   */
  method Destroy(c: Channel?) returns (status: Status, freedSends: seq<LinkedList.Node<Semaphore>>, freedReceives: seq<LinkedList.Node<Semaphore>>)
    requires c != null ==> c.Valid()
    modifies if c == null then {} else {c.sendList, c.receiveList}
    ensures c == null ==> status == OtherError
    ensures c != null ==> status == DestroyStatus(old(c.Snapshot()))
    ensures status != Success ==> freedSends == [] && freedReceives == []
    ensures c != null && status == DestroyError ==> unchanged(c.sendList, c.receiveList)
    ensures c != null && status == Success ==>
      && freedSends == old(c.sendList.nodes) && freedReceives == old(c.receiveList.nodes)
      && c.sendList.head == null && c.receiveList.head == null
  {
    if c == null {
      return OtherError, [], [];
    }
    if !c.closed {
      return DestroyError, [], [];
    }
    freedSends := LinkedList.Destroy(c.sendList);
    freedReceives := LinkedList.Destroy(c.receiveList);
    status := Success;
  }
}
