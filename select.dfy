/**
 * channel_select, seen sequentially: the argument check, the registration
 * pass that puts the caller's token into the wait list of every request
 * (once per list, however often a channel and direction repeat), one scan
 * round of non-blocking probes in array order where the first probe that
 * does not report WOULDBLOCK wins, and the deregistration pass that takes the
 * token out again.  Parking on the token and scanning again is not modelled:
 * a round in which every probe would block returns WOULDBLOCK with the token
 * still registered, which is the state in which the original waits.
 */
module ChannelSelect {
  import opened Optional
  import opened ChannelState
  import LinkedList
  import opened Channels

  /** select_t: a channel, the direction asked for, and the payload to send or the slot a received payload is stored in. */
  datatype Request = Request(channel: Channel, isSend: bool, data: Payload)

  /** The registration list a request waits in: senders wait for space, receivers for data. */
  function WaitList(r: Request): LinkedList.List<Semaphore>
  {
    if r.isSend then r.channel.sendList else r.channel.receiveList
  }

  /** The registration list a successful probe of `r` notifies. */
  function NotifiedList(r: Request): LinkedList.List<Semaphore>
  {
    if r.isSend then r.channel.receiveList else r.channel.sendList
  }

  /** The effect a non-blocking probe of `r` has on the state of its channel. */
  function ProbeStep(r: Request, s: State): (o: Outcome)
    ensures o.status == ClosedError <==> s.closed
    ensures o.status != Success ==> o.state == s && o.received == None
    ensures r.isSend ==> o.received == None
    ensures o.state.closed == s.closed && o.state.capacity == s.capacity
  {
    if r.isSend then SendStep(s, r.data) else ReceiveStep(s)
  }

  /** Both registration lists of every channel of `rs`. */
  ghost function Lists(rs: seq<Request>): set<LinkedList.List<Semaphore>>
  {
    (set j | 0 <= j < |rs| :: rs[j].channel.sendList) + (set j | 0 <= j < |rs| :: rs[j].channel.receiveList)
  }

  /** Everything the channels of `rs` own: the channels, their lists and the lists' nodes. */
  ghost function Footprint(rs: seq<Request>): set<object>
    reads Lists(rs)
  {
    (set j | 0 <= j < |rs| :: rs[j].channel)
    + Lists(rs)
    + (set j, o | 0 <= j < |rs| && o in rs[j].channel.sendList.Repr :: o)
    + (set j, o | 0 <= j < |rs| && o in rs[j].channel.receiveList.Repr :: o)
  }

  /** The channels of `rs` are valid, and two different channels own nothing in common. */
  ghost predicate Separate(rs: seq<Request>)
    reads Footprint(rs)
  {
    && (forall j :: 0 <= j < |rs| ==> rs[j].channel.Valid())
    && (forall j, k :: 0 <= j < |rs| && 0 <= k < |rs| && rs[j].channel != rs[k].channel ==>
          rs[j].channel.Repr() !! rs[k].channel.Repr())
  }

  /** One of the first `i` requests waits in `l`. */
  ghost predicate RegisteredIn(rs: seq<Request>, i: nat, l: LinkedList.List<Semaphore>)
    requires i <= |rs|
  {
    exists k :: 0 <= k < i && WaitList(rs[k]) == l
  }

  lemma RegisteredInStep(rs: seq<Request>, i: nat, l: LinkedList.List<Semaphore>)
    requires i < |rs|
    ensures RegisteredIn(rs, i + 1, l) <==> RegisteredIn(rs, i, l) || WaitList(rs[i]) == l
  {
    if WaitList(rs[i]) == l {
      assert 0 <= i < i + 1 && WaitList(rs[i]) == l;
    }
  }

  /**
   * The lists of `rs` once the first `i` requests have registered `token`:
   * a list one of them waits in holds `token` in front of what it held at the
   * start (`s0`); every other list holds what it held.
   */
  ghost predicate RegisteredUpTo(rs: seq<Request>, i: nat, token: Semaphore, s0: map<LinkedList.List<Semaphore>, seq<Semaphore>>)
    requires i <= |rs|
    reads Lists(rs)
  {
    forall l :: l in Lists(rs) ==>
      l in s0 && l.Elements() == if RegisteredIn(rs, i, l) then [token] + s0[l] else s0[l]
  }

  /**
   * The lists of `rs` once the first `i` requests have deregistered `token`
   * after all of them registered it: only a list that no one of those `i`
   * waits in, but a later request does, still holds `token`.
   */
  ghost predicate DeregisteredUpTo(rs: seq<Request>, i: nat, token: Semaphore, s0: map<LinkedList.List<Semaphore>, seq<Semaphore>>)
    requires i <= |rs|
    reads Lists(rs)
  {
    forall l :: l in Lists(rs) ==>
      l in s0 && l.Elements() == if RegisteredIn(rs, |rs|, l) && !RegisteredIn(rs, i, l) then [token] + s0[l] else s0[l]
  }

  /**
   * The registration of one request: unless `token` is already in the
   * request's wait list, it is inserted in front.  Nothing but that list
   * changes.
   */
  method Register(r: Request, token: Semaphore)
    requires r.channel.Valid()
    modifies WaitList(r).Repr
    ensures r.channel.Valid() && fresh(r.channel.Repr() - old(r.channel.Repr()))
    ensures var e := old(WaitList(r).Elements());
      WaitList(r).Elements() == if token in e then e else [token] + e
  {
    var l := WaitList(r);
    var found := LinkedList.Find(l, token);
    if found == null {
      LinkedList.Insert(l, token);
    }
  }

  /**
   * The deregistration of one request: the first node holding `token` in the
   * request's wait list, if there is one, is removed.  Nothing but that list
   * changes.
   */
  method Deregister(r: Request, token: Semaphore)
    requires r.channel.Valid()
    modifies WaitList(r).Repr
    ensures r.channel.Valid() && r.channel.Repr() <= old(r.channel.Repr())
    ensures var e := old(WaitList(r).Elements());
      WaitList(r).Elements() == if token in e then LinkedList.Without(e, LinkedList.IndexOf(e, token)) else e
  {
    var l := WaitList(r);
    var found := LinkedList.Find(l, token);
    if found != null {
      LinkedList.Remove(l, found);
    }
  }

  /** A token put in front of a list that did not hold it occurs there exactly once, and taking it out again gives back the list. */
  lemma RegisterThenDeregister<T>(e: seq<T>, x: T)
    requires x !in e
    ensures multiset([x] + e)[x] == 1
    ensures LinkedList.Without([x] + e, LinkedList.IndexOf([x] + e, x)) == e
  {
    var s := [x] + e;
    assert LinkedList.IndexOf(s, x) == 0;
    assert s[1..] == e;
    assert multiset(s) == multiset{x} + multiset(e);
  }

  /**
   * A list of the channels of `rs` other than the wait list of request `i`
   * owns nothing that list owns, so a change inside that list leaves it as
   * it was.
   */
  lemma OtherListApart(rs: seq<Request>, i: nat, l: LinkedList.List<Semaphore>)
    requires i < |rs| && Separate(rs) && l in Lists(rs) && l != WaitList(rs[i])
    ensures l !in WaitList(rs[i]).Repr
  {
    var j :| 0 <= j < |rs| && (l == rs[j].channel.sendList || l == rs[j].channel.receiveList);
    assert l in l.Repr;
    if rs[j].channel != rs[i].channel {
      assert l in rs[j].channel.Repr();
    }
  }

  /**
   * The registration of request `i`, seen from all requests: only the wait
   * list of request `i` changes, as `Register` says, and the channels stay
   * valid and separate.
   */
  method RegisterFramed(rs: seq<Request>, i: nat, token: Semaphore)
    requires i < |rs| && Separate(rs)
    modifies WaitList(rs[i]).Repr
    ensures Separate(rs)
    ensures fresh(rs[i].channel.Repr() - old(rs[i].channel.Repr()))
    ensures forall j :: 0 <= j < |rs| && rs[j].channel != rs[i].channel ==> rs[j].channel.Repr() == old(rs[j].channel.Repr())
    ensures forall j :: 0 <= j < |rs| ==> unchanged(rs[j].channel)
    ensures forall l :: l in Lists(rs) && l != WaitList(rs[i]) ==> unchanged(l)
    ensures var e := old(WaitList(rs[i]).Elements());
      WaitList(rs[i]).Elements() == if token in e then e else [token] + e
  {
    var c := rs[i].channel;
    ghost var r0 := c.Repr();
    forall l | l in Lists(rs) && l != WaitList(rs[i]) ensures l !in WaitList(rs[i]).Repr {
      OtherListApart(rs, i, l);
    }
    Register(rs[i], token);
    forall j | 0 <= j < |rs| && rs[j].channel != c
      ensures rs[j].channel.Valid() && rs[j].channel.Repr() == old(rs[j].channel.Repr())
      ensures rs[j].channel.Repr() !! c.Repr()
      ensures unchanged(rs[j].channel.sendList, rs[j].channel.receiveList)
    {
      var d := rs[j].channel;
      assert d.Repr() !! r0 by { assert old(d.Repr()) !! r0; assert unchanged(d.sendList, d.receiveList); }
      assert unchanged(d.Repr());
      forall o | o in d.Repr() ensures o !in c.Repr() {
        assert old(allocated(o));
      }
    }
    forall j, k | 0 <= j < |rs| && 0 <= k < |rs| && rs[j].channel != rs[k].channel
      ensures rs[j].channel.Repr() !! rs[k].channel.Repr()
    {
      if rs[j].channel != c && rs[k].channel != c {
        assert old(rs[j].channel.Repr()) !! old(rs[k].channel.Repr());
      }
    }
  }

  /**
   * The deregistration of request `i`, seen from all requests: only the wait
   * list of request `i` changes, as `Deregister` says, and the channels stay
   * valid and separate.
   */
  method DeregisterFramed(rs: seq<Request>, i: nat, token: Semaphore)
    requires i < |rs| && Separate(rs)
    modifies WaitList(rs[i]).Repr
    ensures Separate(rs)
    ensures rs[i].channel.Repr() <= old(rs[i].channel.Repr())
    ensures forall j :: 0 <= j < |rs| && rs[j].channel != rs[i].channel ==> rs[j].channel.Repr() == old(rs[j].channel.Repr())
    ensures forall j :: 0 <= j < |rs| ==> unchanged(rs[j].channel)
    ensures forall l :: l in Lists(rs) && l != WaitList(rs[i]) ==> unchanged(l)
    ensures var e := old(WaitList(rs[i]).Elements());
      WaitList(rs[i]).Elements() == if token in e then LinkedList.Without(e, LinkedList.IndexOf(e, token)) else e
  {
    var c := rs[i].channel;
    ghost var r0 := c.Repr();
    forall l | l in Lists(rs) && l != WaitList(rs[i]) ensures l !in WaitList(rs[i]).Repr {
      OtherListApart(rs, i, l);
    }
    Deregister(rs[i], token);
    forall j | 0 <= j < |rs| && rs[j].channel != c
      ensures rs[j].channel.Valid() && rs[j].channel.Repr() == old(rs[j].channel.Repr())
      ensures rs[j].channel.Repr() !! c.Repr()
    {
      var d := rs[j].channel;
      assert d.Repr() !! r0 by { assert old(d.Repr()) !! r0; assert unchanged(d.sendList, d.receiveList); }
      assert unchanged(d.Repr());
    }
    forall j, k | 0 <= j < |rs| && 0 <= k < |rs| && rs[j].channel != rs[k].channel
      ensures rs[j].channel.Repr() !! rs[k].channel.Repr()
    {
      if rs[j].channel != c && rs[k].channel != c {
        assert old(rs[j].channel.Repr()) !! old(rs[k].channel.Repr());
      }
    }
  }

  /** One iteration of the registration pass: the lists move from `i` registrations to `i + 1`. */
  method RegisterOne(rs: seq<Request>, i: nat, token: Semaphore, ghost s0: map<LinkedList.List<Semaphore>, seq<Semaphore>>)
    requires i < |rs| && Separate(rs) && RegisteredUpTo(rs, i, token, s0)
    requires forall l :: l in s0 ==> token !in s0[l]
    modifies WaitList(rs[i]).Repr
    ensures Separate(rs) && RegisteredUpTo(rs, i + 1, token, s0)
    ensures fresh(rs[i].channel.Repr() - old(rs[i].channel.Repr()))
    ensures forall j :: 0 <= j < |rs| && rs[j].channel != rs[i].channel ==> rs[j].channel.Repr() == old(rs[j].channel.Repr())
    ensures forall j :: 0 <= j < |rs| ==> unchanged(rs[j].channel)
  {
    RegisterFramed(rs, i, token);
    forall l | l in Lists(rs)
      ensures l in s0 && l.Elements() == if RegisteredIn(rs, i + 1, l) then [token] + s0[l] else s0[l]
    {
      RegisteredInStep(rs, i, l);
    }
  }

  /** One iteration of the deregistration pass: the lists move from `i` deregistrations to `i + 1`. */
  method DeregisterOne(rs: seq<Request>, i: nat, token: Semaphore, ghost s0: map<LinkedList.List<Semaphore>, seq<Semaphore>>)
    requires i < |rs| && Separate(rs) && DeregisteredUpTo(rs, i, token, s0)
    requires forall l :: l in s0 ==> token !in s0[l]
    modifies WaitList(rs[i]).Repr
    ensures Separate(rs) && DeregisteredUpTo(rs, i + 1, token, s0)
    ensures rs[i].channel.Repr() <= old(rs[i].channel.Repr())
    ensures forall j :: 0 <= j < |rs| && rs[j].channel != rs[i].channel ==> rs[j].channel.Repr() == old(rs[j].channel.Repr())
    ensures forall j :: 0 <= j < |rs| ==> unchanged(rs[j].channel)
  {
    DeregisterFramed(rs, i, token);
    forall l | l in Lists(rs)
      ensures l in s0 && l.Elements() == if RegisteredIn(rs, |rs|, l) && !RegisteredIn(rs, i + 1, l) then [token] + s0[l] else s0[l]
    {
      RegisteredInStep(rs, i, l);
      if l == WaitList(rs[i]) && RegisteredIn(rs, |rs|, l) && !RegisteredIn(rs, i, l) {
        RegisterThenDeregister(s0[l], token);
      }
    }
  }

  /**
   * The registration pass: for every request in turn, `token` is inserted into
   * its wait list unless already there.  Afterwards every list that some
   * request waits in holds `token` once, in front of its old tokens, whatever
   * repetitions there were; every other list is as before, and the channels'
   * states and posts are untouched.
   */
  method RegisterAll(rs: seq<Request>, token: Semaphore, ghost s0: map<LinkedList.List<Semaphore>, seq<Semaphore>>, ghost fp: set<object>)
    returns (ghost added: set<object>)
    requires Separate(rs) && RegisteredUpTo(rs, 0, token, s0)
    requires forall l :: l in s0 ==> token !in s0[l]
    requires forall j :: 0 <= j < |rs| ==> rs[j].channel.Repr() <= fp
    modifies fp
    ensures Separate(rs) && RegisteredUpTo(rs, |rs|, token, s0)
    ensures fresh(added) && forall j :: 0 <= j < |rs| ==> rs[j].channel.Repr() <= fp + added
    ensures forall j :: 0 <= j < |rs| ==> unchanged(rs[j].channel)
  {
    added := {};
    var i := 0;
    while i < |rs|
      invariant 0 <= i <= |rs|
      invariant Separate(rs) && RegisteredUpTo(rs, i, token, s0)
      invariant fresh(added) && forall j :: 0 <= j < |rs| ==> rs[j].channel.Repr() <= fp + added
      invariant forall j :: 0 <= j < |rs| ==> unchanged(rs[j].channel)
    {
      ghost var before := rs[i].channel.Repr();
      RegisterOne(rs, i, token, s0);
      added := added + (rs[i].channel.Repr() - before);
      i := i + 1;
    }
  }

  /**
   * The deregistration pass: for every request in turn, the node holding
   * `token` in its wait list, if any, is removed.  Starting from the lists the
   * registration pass left, every list ends as it was before registration.
   */
  method DeregisterAll(rs: seq<Request>, token: Semaphore, ghost s0: map<LinkedList.List<Semaphore>, seq<Semaphore>>, ghost fp: set<object>)
    requires Separate(rs) && RegisteredUpTo(rs, |rs|, token, s0)
    requires forall l :: l in s0 ==> token !in s0[l]
    requires forall j :: 0 <= j < |rs| ==> rs[j].channel.Repr() <= fp
    modifies fp
    ensures Separate(rs)
    ensures forall l :: l in Lists(rs) ==> l in s0 && l.Elements() == s0[l]
    ensures forall j :: 0 <= j < |rs| ==> unchanged(rs[j].channel) && rs[j].channel.Repr() <= fp
  {
    var i := 0;
    while i < |rs|
      invariant 0 <= i <= |rs|
      invariant Separate(rs) && DeregisteredUpTo(rs, i, token, s0)
      invariant forall j :: 0 <= j < |rs| ==> rs[j].channel.Repr() <= fp
      invariant forall j :: 0 <= j < |rs| ==> unchanged(rs[j].channel)
    {
      DeregisterOne(rs, i, token, s0);
      i := i + 1;
    }
  }

  /** The channels of `rs`. */
  ghost function ChannelsOf(rs: seq<Request>): set<Channel>
  {
    set j | 0 <= j < |rs| :: rs[j].channel
  }

  /**
   * What a select over `rs` can observe and change: the state and the posts
   * of the channel of each request, and the tokens held by each registration
   * list of those channels.
   */
  datatype View = View(states: seq<State>, posts: seq<multiset<Semaphore>>, lists: map<LinkedList.List<Semaphore>, seq<Semaphore>>)

  /** A view of `rs` holds one state and one post count per request. */
  ghost predicate Fits(rs: seq<Request>, v: View)
  {
    |v.states| == |rs| && |v.posts| == |rs|
  }

  /** A view of `rs` holds one entry per list of the requests' channels. */
  ghost predicate Covers(rs: seq<Request>, v: View)
  {
    v.lists.Keys == Lists(rs)
  }

  /** The current view of `rs`. */
  ghost function ViewOf(rs: seq<Request>): (v: View)
    reads ChannelsOf(rs), Lists(rs)
    ensures Fits(rs, v) && Covers(rs, v)
    ensures forall j :: 0 <= j < |rs| ==> v.states[j] == rs[j].channel.Snapshot() && v.posts[j] == rs[j].channel.posts
    ensures forall l :: l in Lists(rs) ==> v.lists[l] == l.Elements()
  {
    View(seq(|rs|, j requires 0 <= j < |rs| reads ChannelsOf(rs) => rs[j].channel.Snapshot()),
         seq(|rs|, j requires 0 <= j < |rs| reads ChannelsOf(rs) => rs[j].channel.posts),
         map l | l in Lists(rs) :: l.Elements())
  }

  /** What list `l` holds once every request of `rs` has registered `token`, when it held `e` before. */
  ghost function AfterRegistration(rs: seq<Request>, l: LinkedList.List<Semaphore>, e: seq<Semaphore>, token: Semaphore): seq<Semaphore>
  {
    if RegisteredIn(rs, |rs|, l) then [token] + e else e
  }

  /** The view `v` once the registration pass of a select over `rs` has registered `token`. */
  ghost function WithToken(rs: seq<Request>, v: View, token: Semaphore): View
  {
    v.(lists := map l | l in v.lists :: AfterRegistration(rs, l, v.lists[l], token))
  }

  /** Two views of `rs` that agree entry by entry are equal. */
  lemma ViewsEqual(rs: seq<Request>, a: View, b: View)
    requires Fits(rs, a) && Fits(rs, b) && Covers(rs, a) && Covers(rs, b)
    requires forall j :: 0 <= j < |rs| ==> a.states[j] == b.states[j] && a.posts[j] == b.posts[j]
    requires forall l :: l in Lists(rs) ==> a.lists[l] == b.lists[l]
    ensures a == b
  {
    assert a.states == b.states;
    assert a.posts == b.posts;
  }

  /** The list of request `k` is one of the lists of `rs`. */
  lemma ListsHave(rs: seq<Request>, k: nat)
    requires k < |rs|
    ensures WaitList(rs[k]) in Lists(rs) && NotifiedList(rs[k]) in Lists(rs)
  {
    assert rs[k].channel.sendList in Lists(rs) && rs[k].channel.receiveList in Lists(rs);
  }

  /**
   * The probe of request `i` took the view `b` to `a`, reporting `status`: no
   * list changes; a probe that would block changes nothing; otherwise the
   * probed channel, however many requests name it, took the step `ProbeStep`
   * says and, on success, was posted every token of the list the probe
   * notifies, and every other channel is as it was.
   */
  ghost predicate ProbeView(rs: seq<Request>, i: nat, b: View, a: View, status: Status)
    requires Fits(rs, b) && Fits(rs, a) && i < |rs|
  {
    var c := rs[i].channel;
    var o := ProbeStep(rs[i], b.states[i]);
    var n := NotifiedList(rs[i]);
    && status == o.status
    && a.lists == b.lists
    && (status == WouldBlock ==> a == b)
    && (forall j :: 0 <= j < |rs| ==> a.states[j] == if rs[j].channel == c then o.state else b.states[j])
    && (forall j :: 0 <= j < |rs| ==>
          a.posts[j] == if rs[j].channel == c && status == Success && n in b.lists then b.posts[j] + multiset(b.lists[n]) else b.posts[j])
  }

  /**
   * One scan round took the view `b` to `a`, reporting `status` and stopping
   * at request `index` (`|rs|` when no probe won): every probe before `index`
   * would have blocked on `b`; when none won, the status is WOULDBLOCK and
   * nothing changed; otherwise the status is not WOULDBLOCK and the probe of
   * request `index` made the change, as `ProbeView` says.
   */
  ghost predicate ScanDone(rs: seq<Request>, b: View, a: View, status: Status, index: nat)
    requires Fits(rs, b) && Fits(rs, a)
  {
    && index <= |rs|
    && (status == WouldBlock <==> index == |rs|)
    && (forall j :: 0 <= j < index ==> ProbeStep(rs[j], b.states[j]).status == WouldBlock)
    && (index == |rs| ==> a == b)
    && (index < |rs| ==> ProbeView(rs, index, b, a, status))
  }

  /** A round whose probe of request `index` won, every earlier probe having blocked, is a scan round. */
  lemma ScanWon(rs: seq<Request>, b: View, a: View, status: Status, index: nat)
    requires Fits(rs, b) && Fits(rs, a) && index < |rs|
    requires forall j :: 0 <= j < index ==> ProbeStep(rs[j], b.states[j]).status == WouldBlock
    requires ProbeView(rs, index, b, a, status) && status != WouldBlock
    ensures ScanDone(rs, b, a, status, index)
  {
  }

  /**
   * One select round took the view `b` to `a`: the scan round ran on `b`
   * with `token` registered, as `ScanDone` says; when no probe won, the
   * lists keep `token` (the original parks on it here), and otherwise every
   * list is back to what it held in `b`.
   */
  ghost predicate RoundSpec(rs: seq<Request>, b: View, a: View, status: Status, index: nat, token: Semaphore)
    requires Fits(rs, b) && Fits(rs, a)
  {
    var reg := WithToken(rs, b, token);
    && ScanDone(rs, reg, a.(lists := reg.lists), status, index)
    && a.lists == if index == |rs| then reg.lists else b.lists
  }

  /** The three passes of a round, chained, make up the round. */
  lemma RoundOfPhases(rs: seq<Request>, b: View, reg: View, scanned: View, a: View, status: Status, index: nat, token: Semaphore)
    requires Fits(rs, b) && reg == WithToken(rs, b, token) && Fits(rs, scanned) && Fits(rs, a)
    requires ScanDone(rs, reg, scanned, status, index)
    requires a == if index == |rs| then scanned else scanned.(lists := b.lists)
    ensures RoundSpec(rs, b, a, status, index, token)
  {
  }

  /**
   * A non-blocking probe of `r`, on a channel that was in state `s` with
   * posts `posts`, reported `status` and `received`: the channel took the
   * step `ProbeStep` says and, on success, was posted every token of the
   * list the probe notifies.
   */
  ghost predicate Probed(r: Request, s: State, posts: multiset<Semaphore>, status: Status, received: Option<Payload>)
    reads r.channel, NotifiedList(r)
  {
    var o := ProbeStep(r, s);
    && status == o.status && received == o.received && r.channel.Snapshot() == o.state
    && r.channel.posts == posts + (if status == Success then multiset(NotifiedList(r).Elements()) else multiset{})
  }

  /**
   * The non-blocking probe of one request: a send of its payload or a
   * receive, as the request's direction says.  A probe that would block
   * leaves the channel exactly as it was.
   */
  method Probe(r: Request) returns (status: Status, received: Option<Payload>)
    requires r.channel.Valid()
    modifies r.channel
    ensures r.channel.Valid()
    ensures Probed(r, old(r.channel.Snapshot()), old(r.channel.posts), status, received)
    ensures status == WouldBlock ==> unchanged(r.channel)
  {
    if r.isSend {
      status := Send(r.channel, r.data, false);
      received := None;
    } else {
      status, received := Receive(r.channel, false);
    }
  }

  /** The probe of request `i`: the channels stay valid and separate. */
  method ProbeAt(rs: seq<Request>, i: nat) returns (status: Status, received: Option<Payload>)
    requires i < |rs| && Separate(rs)
    modifies rs[i].channel
    ensures Separate(rs)
    ensures Probed(rs[i], old(rs[i].channel.Snapshot()), old(rs[i].channel.posts), status, received)
    ensures status == WouldBlock ==> unchanged(rs[i].channel)
    ensures forall l :: l in Lists(rs) ==> l.Elements() == old(l.Elements())
  {
    status, received := Probe(rs[i]);
  }

  /** The probe of request `i` in terms of views. */
  method ProbeInView(rs: seq<Request>, i: nat) returns (status: Status, received: Option<Payload>)
    requires i < |rs| && Separate(rs)
    modifies rs[i].channel
    ensures Separate(rs)
    ensures ProbeView(rs, i, old(ViewOf(rs)), ViewOf(rs), status)
    ensures received == ProbeStep(rs[i], old(ViewOf(rs)).states[i]).received
  {
    ghost var b := ViewOf(rs);
    status, received := ProbeAt(rs, i);
    ghost var a := ViewOf(rs);
    ListsHave(rs, i);
    assert a.lists == b.lists;
    if status == WouldBlock {
      ViewsEqual(rs, a, b);
    }
  }

  /**
   * The scan loop of channel_select, run once: the requests are probed in
   * order and the first probe that does not report WOULDBLOCK wins.
   */
  method ScanRound(rs: seq<Request>, ghost fp: set<object>) returns (status: Status, index: nat, received: Option<Payload>)
    requires Separate(rs) && Owned(rs, fp)
    modifies ChannelsOf(rs)
    ensures Separate(rs) && Owned(rs, fp)
    ensures ScanDone(rs, old(ViewOf(rs)), ViewOf(rs), status, index)
    ensures received == if index < |rs| then ProbeStep(rs[index], old(ViewOf(rs)).states[index]).received else None
  {
    ghost var b := ViewOf(rs);
    index := 0;
    while index < |rs|
      invariant 0 <= index <= |rs|
      invariant Separate(rs) && Owned(rs, fp) && ViewOf(rs) == b
      invariant forall j :: 0 <= j < index ==> ProbeStep(rs[j], b.states[j]).status == WouldBlock
    {
      status, received := ScanStep(rs, index, b, fp);
      if status != WouldBlock {
        return;
      }
      index := index + 1;
    }
    status, received := WouldBlock, None;
  }

  /**
   * One iteration of the scan loop: request `index` is probed after every
   * earlier probe blocked.  A probe that blocks changes nothing; any other
   * result ends the scan round at `index`.
   */
  method ScanStep(rs: seq<Request>, index: nat, ghost b: View, ghost fp: set<object>) returns (status: Status, received: Option<Payload>)
    requires index < |rs| && Separate(rs) && Owned(rs, fp) && ViewOf(rs) == b
    requires forall j :: 0 <= j < index ==> ProbeStep(rs[j], b.states[j]).status == WouldBlock
    modifies rs[index].channel
    ensures Separate(rs) && Owned(rs, fp)
    ensures status == WouldBlock ==> ViewOf(rs) == b && ProbeStep(rs[index], b.states[index]).status == WouldBlock
    ensures status != WouldBlock ==> ScanDone(rs, b, ViewOf(rs), status, index)
    ensures received == ProbeStep(rs[index], b.states[index]).received
  {
    status, received := ProbeInView(rs, index);
    if status != WouldBlock {
      ScanWon(rs, b, ViewOf(rs), status, index);
    }
  }

  /** The registration pass in terms of views. */
  method RegisterPass(rs: seq<Request>, token: Semaphore, ghost fp: set<object>) returns (ghost added: set<object>)
    requires Separate(rs)
    requires forall l :: l in Lists(rs) ==> token !in l.Elements()
    requires Owned(rs, fp)
    modifies fp
    ensures Separate(rs)
    ensures fresh(added) && Owned(rs, fp + added)
    ensures ViewOf(rs) == WithToken(rs, old(ViewOf(rs)), token)
  {
    ghost var b := ViewOf(rs);
    added := RegisterAll(rs, token, b.lists, fp);
    ghost var a := ViewOf(rs);
    ViewsEqual(rs, a, WithToken(rs, b, token));
  }

  /** The deregistration pass in terms of views: every list goes back to what it held in `v`, before registration. */
  method DeregisterPass(rs: seq<Request>, token: Semaphore, ghost v: View, ghost fp: set<object>)
    requires Separate(rs)
    requires Fits(rs, v) && Covers(rs, v) && forall l :: l in v.lists ==> token !in v.lists[l]
    requires ViewOf(rs).lists == WithToken(rs, v, token).lists
    requires Owned(rs, fp)
    modifies fp
    ensures Separate(rs) && Owned(rs, fp)
    ensures ViewOf(rs) == old(ViewOf(rs)).(lists := v.lists)
  {
    ghost var b := ViewOf(rs);
    DeregisterAll(rs, token, v.lists, fp);
    ghost var a := ViewOf(rs);
    ViewsEqual(rs, a, b.(lists := v.lists));
  }

  /** sem_init: a new token, which no registration list holds. */
  method NewToken(rs: seq<Request>) returns (token: Semaphore)
    ensures fresh(token)
    ensures forall l :: l in Lists(rs) ==> token !in l.Elements()
    ensures ViewOf(rs) == old(ViewOf(rs))
  {
    token := new Semaphore();
    forall l | l in Lists(rs) ensures token !in l.Elements() {
      forall k | 0 <= k < |l.nodes| ensures l.nodes[k].data != token {
        assert old(allocated(l.nodes[k].data));
      }
    }
  }

  /** Everything the channels of `rs` own lies in `s`. */
  ghost predicate Owned(rs: seq<Request>, s: set<object>)
    reads Lists(rs)
  {
    forall j :: 0 <= j < |rs| ==> rs[j].channel.Repr() <= s
  }

  /** The footprint of `rs` is the union of what its channels own. */
  lemma FootprintWithin(rs: seq<Request>, s: set<object>)
    requires Owned(rs, s)
    ensures Footprint(rs) <= s
  {
  }

  /** Everything a channel of `rs` owns is in the footprint of `rs`. */
  lemma ReprInFootprint(rs: seq<Request>)
    ensures Owned(rs, Footprint(rs))
  {
  }

  /** The body of channel_select once its arguments are checked: registration, one scan round and, on a win, deregistration. */
  method SelectRound(rs: seq<Request>) returns (status: Status, index: nat, received: Option<Payload>, token: Semaphore, ghost grown: set<object>)
    requires Separate(rs)
    modifies Footprint(rs)
    ensures fresh(token) && Separate(rs)
    ensures fresh(grown) && Footprint(rs) <= old(Footprint(rs)) + grown
    ensures forall l :: l in old(ViewOf(rs)).lists ==> token !in old(ViewOf(rs)).lists[l]
    ensures RoundSpec(rs, old(ViewOf(rs)), ViewOf(rs), status, index, token)
    ensures received == if index < |rs| then ProbeStep(rs[index], old(ViewOf(rs)).states[index]).received else None
  {
    ghost var b := ViewOf(rs);
    ghost var fp := Footprint(rs);
    ReprInFootprint(rs);
    token := NewToken(rs);
    ghost var added := RegisterPass(rs, token, fp);
    ghost var reg := ViewOf(rs);
    status, index, received := ScanRound(rs, fp + added);
    ghost var scanned := ViewOf(rs);
    if status != WouldBlock {
      DeregisterPass(rs, token, b, fp + added);
    }
    RoundOfPhases(rs, b, reg, scanned, ViewOf(rs), status, index, token);
    FootprintWithin(rs, fp + added);
    grown := added;
  }

  /** Stores a received payload in the slot of request `index`; no channel or list changes. */
  method StoreReceived(list: array<Request>, index: nat, value: Payload, ghost rs: seq<Request>)
    requires index < list.Length && Separate(rs) && list !in Footprint(rs)
    modifies list
    ensures list[..] == old(list[..])[index := old(list[index]).(data := value)]
    ensures ViewOf(rs) == old(ViewOf(rs)) && Separate(rs)
  {
    ghost var b := ViewOf(rs);
    list[index] := list[index].(data := value);
    ViewsEqual(rs, ViewOf(rs), b);
  }

  /**
   * channel_select over the first `count` requests of `list`, with one scan
   * round.  No requests, or a NULL request array, is OTHER_ERROR and changes
   * nothing.  Otherwise a token no list holds is registered, one round runs
   * as `RoundSpec` says, the winner's index is reported (none when every
   * probe would block), and a payload the winner received is stored in its
   * request's slot.
   */
  method Select(count: nat, list: array?<Request>) returns (status: Status, selected: Option<nat>, ghost token: Semaphore?)
    requires list != null ==> count <= list.Length && Separate(list[..count]) && list !in Footprint(list[..count])
    modifies if list == null then {} else {list} + Footprint(list[..count])
    ensures count == 0 || list == null ==> status == OtherError && selected == None
    ensures count == 0 && list != null ==> unchanged(list)
    ensures list != null ==> Separate(old(list[..count]))
    ensures count > 0 && list != null ==>
      var rs := old(list[..count]);
      var b := old(ViewOf(rs));
      var index := if selected.Some? then selected.value else |rs|;
      && token != null && fresh(token)
      && (forall l :: l in b.lists ==> token !in b.lists[l])
      && (selected == None <==> status == WouldBlock)
      && RoundSpec(rs, b, ViewOf(rs), status, index, token)
      && list[..] ==
           if index < |rs| && ProbeStep(rs[index], b.states[index]).received.Some?
           then old(list[..])[index := rs[index].(data := ProbeStep(rs[index], b.states[index]).received.value)]
           else old(list[..])
  {
    if count == 0 || list == null {
      return OtherError, None, null;
    }
    var rs := list[..count];
    var index, received, sem;
    ghost var grown;
    status, index, received, sem, grown := SelectRound(rs);
    token := sem;
    if status == WouldBlock {
      return status, None, token;
    }
    selected := Some(index);
    if received.Some? {
      StoreReceived(list, index, received.value, rs);
    }
  }

  /**
   * After the registration pass every wait list holds the token exactly
   * once, provided no list held it before: repeated channels and directions
   * do not register it twice.
   */
  lemma RegisteredOnce(rs: seq<Request>, v: View, token: Semaphore, j: nat)
    requires Fits(rs, v) && Covers(rs, v) && j < |rs|
    requires forall l :: l in v.lists ==> token !in v.lists[l]
    ensures WaitList(rs[j]) in WithToken(rs, v, token).lists
    ensures multiset(WithToken(rs, v, token).lists[WaitList(rs[j])])[token] == 1
  {
    var l := WaitList(rs[j]);
    ListsHave(rs, j);
    assert RegisteredIn(rs, |rs|, l);
    RegisterThenDeregister(v.lists[l], token);
  }

  /**
   * Select takes the first ready request: when the probe of request `k` would
   * not block, the round does not report WOULDBLOCK and wins at `k` or at an
   * earlier request.
   */
  lemma SelectTakesFirstReady(rs: seq<Request>, b: View, a: View, status: Status, index: nat, token: Semaphore, k: nat)
    requires Fits(rs, b) && Fits(rs, a) && RoundSpec(rs, b, a, status, index, token)
    requires k < |rs| && ProbeStep(rs[k], b.states[k]).status != WouldBlock
    ensures index <= k && status != WouldBlock
  {
    var reg := WithToken(rs, b, token);
    assert reg.states == b.states;
  }

  /**
   * With exactly one ready request, select takes it: when the probe of
   * request `k` would succeed and the probe of every other request would
   * block, the round reports SUCCESS at `k`.
   */
  lemma SelectTakesOnlyReady(rs: seq<Request>, b: View, a: View, status: Status, index: nat, token: Semaphore, k: nat)
    requires Fits(rs, b) && Fits(rs, a) && RoundSpec(rs, b, a, status, index, token)
    requires k < |rs| && ProbeStep(rs[k], b.states[k]).status == Success
    requires forall j :: 0 <= j < |rs| && j != k ==> ProbeStep(rs[j], b.states[j]).status == WouldBlock
    ensures index == k && status == Success
  {
    SelectTakesFirstReady(rs, b, a, status, index, token, k);
    assert WithToken(rs, b, token).states == b.states;
  }

  /**
   * A round that did not report WOULDBLOCK leaves no trace of the caller's
   * token: every list holds what it held before the round.
   */
  lemma WonRoundLeavesNoToken(rs: seq<Request>, b: View, a: View, status: Status, index: nat, token: Semaphore)
    requires Fits(rs, b) && Fits(rs, a) && RoundSpec(rs, b, a, status, index, token)
    requires forall l :: l in b.lists ==> token !in b.lists[l]
    requires status != WouldBlock
    ensures a.lists == b.lists
    ensures forall l :: l in a.lists ==> token !in a.lists[l]
  {
    assert index < |rs|;
  }

  /**
   * A round in which every probe would block changes no channel and leaves
   * the caller's token in the wait list of every request exactly once, ready
   * to be posted by the next send or receive.
   */
  lemma BlockedRoundStaysRegistered(rs: seq<Request>, b: View, a: View, status: Status, index: nat, token: Semaphore, j: nat)
    requires Fits(rs, b) && Covers(rs, b) && Fits(rs, a) && RoundSpec(rs, b, a, status, index, token)
    requires forall l :: l in b.lists ==> token !in b.lists[l]
    requires status == WouldBlock && j < |rs|
    ensures a.states == b.states && a.posts == b.posts
    ensures WaitList(rs[j]) in a.lists && multiset(a.lists[WaitList(rs[j])])[token] == 1
  {
    RegisteredOnce(rs, b, token, j);
  }
}
