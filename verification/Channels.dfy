/**
 The stop and attach channels of a container (internal/model/types/container.go).
 Adding and signalling are atomic calls here; every caller adds a channel it has
 just made, with room for one value.
 */
module Channels {
  // A Go channel of struct{}: what is in it, how many values it was ever sent, and
  // whether it is closed. A send to a closed channel and a second close panic, a
  // send to a full channel blocks; both are excluded by requires.
  class Channel {
    const capacity: nat
    var queued: nat
    var sent: nat
    var closed: bool

    constructor (capacity: nat)
      ensures this.capacity == capacity && queued == 0 && sent == 0 && !closed
    {
      this.capacity := capacity;
      queued, sent, closed := 0, 0, false;
    }

    method Send()
      requires !closed && queued < capacity
      modifies this
      ensures queued == old(queued) + 1 && sent == old(sent) + 1 && !closed
    {
      queued, sent := queued + 1, sent + 1;
    }

    method Close()
      requires !closed
      modifies this
      ensures closed && queued == old(queued) && sent == old(sent)
    {
      closed := true;
    }

    // A receiver takes a value if there is one; on a closed channel it never waits.
    method Receive()
      modifies this
      ensures queued == (if old(queued) > 0 then old(queued) - 1 else 0)
      ensures sent == old(sent) && closed == old(closed)
    {
      if queued > 0 { queued := queued - 1; }
    }

    ghost predicate Unused()
      reads this
    {
      capacity == 1 && queued == 0 && sent == 0 && !closed
    }

    // One value was sent, and then the channel was closed.
    ghost predicate Notified()
      reads this
    {
      sent == 1 && closed
    }
  }

  ghost predicate Fresh(l: seq<Channel>)
    reads l
  {
    && (forall i :: 0 <= i < |l| ==> l[i].Unused())
    && (forall i, j :: 0 <= i < j < |l| ==> l[i] != l[j])
  }

  // Sends to every channel of the list and closes it.
  method Signal(l: seq<Channel>)
    requires Fresh(l)
    modifies l
    ensures forall i :: 0 <= i < |l| ==> l[i].Notified() && l[i].queued == 1
  {
    for n := 0 to |l|
      invariant forall i :: 0 <= i < n ==> l[i].Notified() && l[i].queued == 1
      invariant forall i :: n <= i < |l| ==> l[i].Unused()
    {
      l[n].Send();
      l[n].Close();
    }
  }

  class Container {
    var stopChannels: seq<Channel>
    var attachChannels: seq<Channel>

    ghost predicate Valid()
      reads this, stopChannels, attachChannels
    {
      Fresh(stopChannels) && Fresh(attachChannels) && forall c :: c in stopChannels ==> c !in attachChannels
    }

    constructor ()
      ensures Valid() && stopChannels == [] && attachChannels == []
    {
      stopChannels, attachChannels := [], [];
    }

    method AddStopChannel(stop: Channel)
      requires Valid() && stop.Unused() && stop !in stopChannels && stop !in attachChannels
      modifies this
      ensures Valid() && stopChannels == old(stopChannels) + [stop] && attachChannels == old(attachChannels)
    {
      stopChannels := stopChannels + [stop];
    }

    method SignalStop()
      requires Valid()
      modifies this, stopChannels
      ensures Valid() && stopChannels == [] && attachChannels == old(attachChannels)
      ensures forall c :: c in old(stopChannels) ==> c.Notified() && c.queued == 1
    {
      assert forall c :: c in attachChannels ==> c !in stopChannels;
      ghost var others := attachChannels;
      assert forall i :: 0 <= i < |others| ==> others[i] in attachChannels;
      Signal(stopChannels);
      stopChannels := [];
    }

    method AddAttachChannel(stop: Channel)
      requires Valid() && stop.Unused() && stop !in stopChannels && stop !in attachChannels
      modifies this
      ensures Valid() && attachChannels == old(attachChannels) + [stop] && stopChannels == old(stopChannels)
    {
      attachChannels := attachChannels + [stop];
    }

    method SignalDetach()
      requires Valid()
      modifies this, attachChannels
      ensures Valid() && attachChannels == [] && stopChannels == old(stopChannels)
      ensures forall c :: c in old(attachChannels) ==> c.Notified() && c.queued == 1
    {
      ghost var others := stopChannels;
      assert forall i :: 0 <= i < |others| ==> others[i] in stopChannels;
      Signal(attachChannels);
      attachChannels := [];
    }
  }

  // ---------- Every run ----------

  datatype Kind = Stop | Attach
  datatype Call = Add(kind: Kind) | Raise(kind: Kind) | Receive(added: nat)

  // The channel that call i added is signalled by a later one of the first n calls.
  ghost predicate SignalledBy(calls: seq<Call>, i: nat, n: nat)
    requires i < n <= |calls| && calls[i].Add?
  {
    exists j :: i < j < n && calls[j] == Raise(calls[i].kind)
  }

  ghost predicate Distinct(chans: map<nat, Channel>) {
    forall i, j :: i in chans && j in chans && i != j ==> chans[i] != chans[j]
  }

  // The state after the first n calls: chans[i] is the channel that call i added. It
  // is notified exactly when its kind has been signalled since, and unused otherwise.
  ghost predicate Follows(co: Container, chans: map<nat, Channel>, all: set<Channel>, calls: seq<Call>, n: nat)
    reads co, all
  {
    && n <= |calls| && Distinct(chans)
    && (forall i :: i in chans <==> 0 <= i < n && calls[i].Add?)
    && (forall i :: 0 <= i < |co.stopChannels| ==> co.stopChannels[i] in all)
    && (forall i :: 0 <= i < |co.attachChannels| ==> co.attachChannels[i] in all)
    && (forall i :: i in chans ==> chans[i] in all && Tracks(co, chans[i], calls, i, n))
  }

  ghost predicate Tracks(co: Container, c: Channel, calls: seq<Call>, i: nat, n: nat)
    requires i < n <= |calls| && calls[i].Add?
    reads co, c
  {
    if SignalledBy(calls, i, n)
    then c.Notified() && c.queued <= 1 && c !in co.stopChannels && c !in co.attachChannels
    else c.Unused() && c in if calls[i].kind.Stop? then co.stopChannels else co.attachChannels
  }

  lemma SignalledNext(calls: seq<Call>, i: nat, n: nat)
    requires i < n < |calls| && calls[i].Add?
    ensures SignalledBy(calls, i, n + 1) <==> SignalledBy(calls, i, n) || calls[n] == Raise(calls[i].kind)
  {
    if j :| i < j < n + 1 && calls[j] == Raise(calls[i].kind) {
      assert j < n ==> SignalledBy(calls, i, n);
    }
  }

  lemma AllNext(calls: seq<Call>, n: nat)
    requires n < |calls|
    ensures forall i :: 0 <= i < n && calls[i].Add? ==>
              (SignalledBy(calls, i, n + 1) <==> SignalledBy(calls, i, n) || calls[n] == Raise(calls[i].kind))
  {
    forall i | 0 <= i < n && calls[i].Add?
      ensures SignalledBy(calls, i, n + 1) <==> SignalledBy(calls, i, n) || calls[n] == Raise(calls[i].kind)
    {
      SignalledNext(calls, i, n);
    }
  }

  method Added(co: Container, chans: map<nat, Channel>, ghost all: set<Channel>, calls: seq<Call>, n: nat)
    returns (c: Channel)
    requires co.Valid() && n < |calls| && Follows(co, chans, all, calls, n) && calls[n].Add?
    modifies co
    ensures fresh(c) && co.Valid() && Follows(co, chans[n := c], all + {c}, calls, n + 1)
  {
    hide SignalledBy;
    AllNext(calls, n);
    NotYet(calls, n);
    c := new Channel(1);
    if calls[n].kind.Stop? { co.AddStopChannel(c); } else { co.AddAttachChannel(c); }
  }

  method Raised(co: Container, chans: map<nat, Channel>, ghost all: set<Channel>, calls: seq<Call>, n: nat)
    requires co.Valid() && n < |calls| && Follows(co, chans, all, calls, n) && calls[n].Raise?
    modifies co, all
    ensures co.Valid() && Follows(co, chans, all, calls, n + 1)
  {
    hide SignalledBy;
    AllNext(calls, n);
    if calls[n].kind.Stop? { co.SignalStop(); } else { co.SignalDetach(); }
  }

  method Received(co: Container, chans: map<nat, Channel>, ghost all: set<Channel>, calls: seq<Call>, n: nat)
    requires co.Valid() && n < |calls| && Follows(co, chans, all, calls, n) && calls[n].Receive?
    modifies all
    ensures co.Valid() && Follows(co, chans, all, calls, n + 1)
  {
    hide SignalledBy;
    AllNext(calls, n);
    var k := calls[n].added;
    if k in chans { chans[k].Receive(); }
  }

  // Any sequence of calls, receivers included. That the sends and closes in it meet
  // their requires says that none of them blocks or panics.
  method Drive(calls: seq<Call>) returns (co: Container, chans: map<nat, Channel>, ghost all: set<Channel>)
    ensures co.Valid() && Follows(co, chans, all, calls, |calls|)
  {
    co := new Container();
    chans, all := map[], {};
    for n := 0 to |calls|
      invariant fresh(co) && fresh(all)
      invariant co.Valid() && Follows(co, chans, all, calls, n)
    {
      hide SignalledBy, Follows, Container.Valid;
      match calls[n] {
        case Add(_) =>
          var c := Added(co, chans, all, calls, n);
          chans, all := chans[n := c], all + {c};
        case Raise(_) =>
          Raised(co, chans, all, calls, n);
        case Receive(_) =>
          Received(co, chans, all, calls, n);
      }
    }
  }

  lemma NotYet(calls: seq<Call>, n: nat)
    requires n < |calls| && calls[n].Add?
    ensures !SignalledBy(calls, n, n + 1)
  {
  }
}
