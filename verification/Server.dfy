/**
 The handlers themselves, updating the database fields in place. Each is proved
 to take the step that `Lifecycle.Apply` gives for its event, so what is proved
 there about every run holds of every sequence of handler calls.
 */
module Server {
  import opened Basics
  import opened Lifecycle

  class Api {
    var now: Time
    var containers: map<Id, Record>
    var networks: map<Id, string>
    var names: map<string, Id>
    ghost var used: set<Id>
    ghost var live: set<Id>

    ghost function View(): State
      reads this
    {
      State(now, containers, used, live, networks, names)
    }

    // loadDefaults saves the three predefined networks.
    constructor (now: Time, none: Id, host: Id, bridge: Id)
      requires now > 0 && none != host && host != bridge && none != bridge
      ensures Init(View())
    {
      this.now := now;
      containers := map[];
      networks := map[none := "null", host := "host", bridge := "bridge"];
      names := map["null" := none, "host" := host, "bridge" := bridge];
      used := {none, host, bridge};
      live := {};
    }

    // Lookup by id or name, as GetNetworkByNameOrID does it.
    method FindNetwork(ref: string) returns (r: Option<Id>)
      ensures r == Resolve(View(), ref)
    {
      if ref in networks { return Some(ref); }
      if ref in names { return Some(names[ref]); }
      return None;
    }

    // Connects the references one by one; an empty one is skipped.
    method ConnectAll(refs: seq<string>) returns (r: Option<set<Id>>)
      ensures r == ResolveAll(View(), refs)
    {
      ghost var s := View();
      var nets: set<Id> := {};
      for i := 0 to |refs|
        invariant ResolveAll(s, refs[..i]) == Some(nets)
      {
        ResolveNext(s, refs, i);
        if refs[i] != "" {
          var netw := FindNetwork(refs[i]);
          if netw == None {
            Unresolved(s, refs, i + 1);
            return None;
          }
          nets := nets + {netw.value};
        }
      }
      assert refs[..|refs|] == refs;
      return Some(nets);
    }

    // The networks a new container joins.
    method FindAttachments(mode: string, endpoints: seq<string>) returns (r: Option<set<Id>>)
      ensures r == Attachments(View(), mode, endpoints)
    {
      r := ConnectAll([if mode == "default" then "" else mode] + endpoints);
      if r.Some? && |r.value| == 0 {
        if "bridge" !in names { return None; }
        r := Some({names["bridge"]});
      }
    }

    method ContainerCreate(id: Id, mode: string, endpoints: seq<string>) returns (status: int)
      requires id !in used
      modifies this
      ensures View() == Apply(old(View()), Create(id, mode, endpoints))
      ensures status == if Attachments(old(View()), mode, endpoints).Some? then 201 else 500
    {
      hide Attachments;
      var nets := FindAttachments(mode, endpoints);
      if nets == None { return 500; }
      containers := containers[id := NewRecord(now, nets.value)];
      used := used + {id};
      return 201;
    }

    method ContainerStart(id: Id, l: Launch) returns (status: int)
      modifies this
      ensures View() == Apply(old(View()), Start(id, l))
      ensures status == 404 <==> id !in old(containers)
      ensures status == 204 ==> containers[id].running || containers[id].completed
    {
      if id !in containers { return 404; }
      if !containers[id].running && !containers[id].completed {
        var ok := StartRecord(id, l);
        if !ok { return 500; }
      }
      return 204;
    }

    // StartContainer of the backend, which deletes the Pod on DeployFailed.
    method DeployRecord(id: Id, l: Launch) returns (r: Report)
      requires id in containers
      modifies this
      ensures r == BackendStart(old(containers)[id], l)
      ensures View() == old(View()).(containers := old(containers)[id := r.record],
                                     live := if PodStays(l) then old(live) + {id} else old(live) - {id})
      ensures r.ok ==> r.state.DeployRunning? || r.state.DeployCompleted?
    {
      hide BackendStart, PodStays;
      BackendUp(containers[id], l);
      r := BackendStart(containers[id], l);
      containers := containers[id := r.record];
      live := if r.state == DeployFailed then live - {id} else live + {id};
    }

    // StartContainer of the routes: the backend start, then the flags.
    method StartRecord(id: Id, l: Launch) returns (ok: bool)
      requires id in containers
      modifies this
      ensures View() == StartStep(old(View()), id, l)
      ensures ok == StartContainer(old(containers)[id], l, now).ok
      ensures ok ==> containers[id].running || containers[id].completed
    {
      hide BackendStart, PodStays;
      var r := DeployRecord(id, l);
      if !r.ok || l.fault.AddressFault? { return false; }
      var c := SetFlags(r);
      FlagsSet(r, now);
      hide Flagged;
      containers := containers[id := c];
      return true;
    }

    method SetFlags(r: Report) returns (c: Record)
      ensures c == Flagged(r, now)
    {
      c := r.record.(stopped := false, killed := false, failed := r.state == DeployFailed,
                     completed := r.state == DeployCompleted, running := r.state == DeployRunning);
      if (c.running || c.completed) && c.started == 0 { c := c.(started := now); }
      if c.completed && c.finished == 0 { c := c.(finished := now); }
    }

    method ContainerRestart(id: Id, watched: bool, l: Launch) returns (status: int)
      modifies this
      ensures View() == Apply(old(View()), Restart(id, watched, l))
      ensures status == 404 <==> id !in old(containers)
    {
      if id !in containers { return 404; }
      live := live - {id};
      var c := containers[id];
      c := c.(running := false, completed := false, stopped := true);
      containers := containers[id := c];
      if !watched { return 0; }
      var ok := StartRecord(id, l);
      return if ok then 204 else 500;
    }

    method ContainerStop(id: Id) returns (status: int)
      modifies this
      ensures View() == Apply(old(View()), Stop(id))
      ensures status == 404 <==> id !in old(containers)
    {
      if id !in containers { return 404; }
      var c := containers[id];
      if !c.stopped && !c.killed { live := live - {id}; }
      c := c.(running := false, completed := false, stopped := true);
      containers := containers[id := c];
      return 204;
    }

    method ContainerKill(id: Id, signal: string) returns (status: int)
      modifies this
      ensures View() == Apply(old(View()), Kill(id, signal))
      ensures status == 404 <==> id !in old(containers)
    {
      if id !in containers { return 404; }
      if signal != "" && signal !in {"kil", "term", "quit", "int"} { return 204; }
      var c := containers[id];
      if !c.stopped && !c.killed { live := live - {id}; }
      c := c.(killed := true, running := false, completed := false);
      containers := containers[id := c];
      return 204;
    }

    // Attaching starts a container that is not up; the streaming is left out.
    method ContainerAttach(id: Id, stream: bool, l: Launch) returns (status: int)
      modifies this
      ensures View() == Apply(old(View()), Attach(id, stream, l))
      ensures status == 404 <==> id !in old(containers)
      ensures status == 200 ==> containers[id].running || containers[id].completed
    {
      if id !in containers { return 404; }
      if !stream { return 204; }
      if !containers[id].running && !containers[id].completed {
        var ok := StartRecord(id, l);
        if !ok { return 500; }
      }
      return 200;
    }

    // The Docker and libpod handlers agree on the state.
    method ContainerDelete(id: Id) returns (status: int)
      modifies this
      ensures View() == Apply(old(View()), Delete(id))
      ensures status == 404 <==> id !in old(containers)
      ensures id !in containers
    {
      if id !in containers { return 404; }
      var c := containers[id];
      if !c.stopped && !c.killed { live := live - {id}; }
      containers := containers - {id};
      return 204;
    }

    // UpdateContainerStatus.
    method PollStatus(before: Record, pod: Pod, allowed: bool) returns (c: Record)
      ensures c == UpdateStatus(before, pod, allowed, now)
    {
      hide GetContainerStatus;
      c := before;
      if c.completed || !allowed { return; }
      var r := GetContainerStatus(c, pod);
      c := r.record;
      if !r.ok { c := c.(failed := true); }
      if r.state == DeployCompleted {
        if c.finished == 0 { c := c.(finished := now); }
        c := c.(completed := true, running := false);
      }
    }

    // One turn of ContainerWait: refresh the status, answer if it is over.
    method ContainerWait(id: Id, pod: Pod, allowed: bool) returns (answer: Option<int>)
      modifies this
      ensures View() == Apply(old(View()), Observe(id, pod, allowed))
      ensures answer == WaitCode(View(), id)
      ensures id in old(containers) && !old(containers)[id].completed && allowed ==>
                forall i :: AnswersAt(pod, i) ==> answer == Some(CodeAt(pod, i))
    {
      hide UpdateStatus;
      if id in containers && !containers[id].completed && allowed {
        forall i | AnswersAt(pod, i)
          ensures WaitCode(Apply(View(), Observe(id, pod, true)), id) == Some(CodeAt(pod, i))
        {
          WaitReports(View(), id, pod, i);
        }
      }
      hide AnswersAt, CodeAt;
      if id !in containers { return None; }
      var c := PollStatus(containers[id], pod, allowed);
      containers := containers[id := c];
      if c.stopped || c.killed || c.completed { return Some(c.exitCode); }
      return None;
    }

    // CleanContainers, for any order of the container table: what is old goes, with
    // a cluster delete issued first, and the rest stays.
    method CleanContainers(keepMax: Time)
      requires keepMax > 0
      modifies this
      ensures View() == Apply(old(View()), Reap(keepMax))
    {
      ghost var s := View();
      var todo := containers.Keys;
      ghost var done: set<Id> := {};
      while todo != {}
        invariant todo + done == s.containers.Keys && todo !! done
        invariant View() == s.(containers := s.containers - (done * Expired(s, keepMax)),
                               live := s.live - (done * Expired(s, keepMax)))
        decreases todo
      {
        var id :| id in todo;
        todo := todo - {id};
        done := done + {id};
        if containers[id].created < now - keepMax {
          live := live - {id};
          containers := containers - {id};
        }
      }
      assert done * Expired(s, keepMax) == Expired(s, keepMax);
    }

    method NetworksCreate(id: Id, name: string) returns (status: int)
      requires id !in used
      modifies this
      ensures View() == Apply(old(View()), NetCreate(id, name))
      ensures status == if name == "" then 500 else 201
    {
      if name == "" { return 500; }
      networks := networks[id := name];
      names := names[name := id];
      used := used + {id};
      return 201;
    }

    // getContainersInNetwork.
    method ContainersInNetwork(network: Id) returns (ids: set<Id>)
      ensures forall id :: id in ids <==> id in containers && network in containers[id].networks
      ensures ids == {} <==> !InUse(View(), network)
    {
      ids := {};
      var todo := containers.Keys;
      while todo != {}
        invariant todo <= containers.Keys
        invariant forall id :: id in ids <==> id in containers && id !in todo && network in containers[id].networks
        decreases todo
      {
        var id :| id in todo;
        if network in containers[id].networks { ids := ids + {id}; }
        todo := todo - {id};
      }
    }

    method NetworksDelete(ref: string) returns (status: int)
      requires NetworksOk(View())
      modifies this
      ensures View() == Apply(old(View()), NetDelete(ref))
      ensures status == 204 <==>
                Resolve(old(View()), ref).Some? && Removable(old(View()), Resolve(old(View()), ref).value)
      ensures status == 404 <==> Resolve(old(View()), ref).None?
      ensures status in {204, 403, 404}
    {
      var netw := FindNetwork(ref);
      if netw == None { return 404; }
      if networks[netw.value] in PREDEFINED { return 403; }
      var users := ContainersInNetwork(netw.value);
      if users != {} { return 403; }
      DropOne(netw.value);
      return 204;
    }

    // DeleteNetwork of the database: the record and its name go.
    method DropOne(id: Id)
      requires id in networks
      modifies this
      ensures View() == DropNetworks(old(View()), {id})
    {
      assert (set i | i in {id} :: networks[i]) == {networks[id]};
      names := names - {networks[id]};
      networks := networks - {id};
    }

    method NetworksConnect(ref: string, id: Id) returns (status: int)
      modifies this
      ensures View() == Apply(old(View()), Connect(ref, id))
      ensures status == if Resolve(old(View()), ref).None? || id !in old(containers) then 404 else 201
    {
      var netw := FindNetwork(ref);
      if netw == None || id !in containers { return 404; }
      var c := containers[id];
      containers := containers[id := c.(networks := c.networks + {netw.value})];
      return 201;
    }

    method NetworksDisconnect(ref: string, id: Id) returns (status: int)
      requires NetworksOk(View())
      modifies this
      ensures View() == Apply(old(View()), Disconnect(ref, id))
      ensures var netw := Resolve(old(View()), ref);
              status == if netw.None? || id !in old(containers) then 404
                        else if networks[netw.value] in PREDEFINED then 500
                        else if netw.value !in old(containers)[id].networks then 404
                        else 204
    {
      var netw := FindNetwork(ref);
      if netw == None || id !in containers { return 404; }
      if networks[netw.value] in PREDEFINED { return 500; }
      var c := containers[id];
      if netw.value !in c.networks { return 404; }
      containers := containers[id := c.(networks := c.networks - {netw.value})];
      return 204;
    }

    // Removes, for any order of the table, exactly the networks that are neither
    // predefined nor in use.
    method NetworksPrune() returns (pruned: seq<string>)
      modifies this
      ensures View() == Apply(old(View()), Prune)
      ensures forall id :: id in old(networks) ==> (id in networks <==> !Removable(old(View()), id))
      ensures forall name :: name in pruned <==>
                exists id :: id in old(networks) && id !in networks && old(networks)[id] == name
    {
      ghost var s := View();
      pruned := [];
      var todo := networks.Keys;
      ghost var gone: set<Id> := {};
      while todo != {}
        invariant todo <= networks.Keys && gone <= s.networks.Keys
        invariant View() == DropNetworks(s, gone)
        invariant forall id :: id in gone <==> id in s.networks && id !in todo && Removable(s, id)
        invariant forall name :: name in pruned <==> exists id :: id in gone && s.networks[id] == name
        decreases todo
      {
        var id :| id in todo;
        todo := todo - {id};
        var users := ContainersInNetwork(id);
        if networks[id] in PREDEFINED || users != {} { continue; }
        pruned := pruned + [networks[id]];
        DropMore(s, gone, id);
        DropOne(id);
        gone := gone + {id};
      }
      assert gone == set id | id in s.networks && Removable(s, id);
    }
  }

  // Status i decides, and its container has terminated, with this code.
  ghost predicate AnswersAt(pod: Pod, i: int) {
    && pod.Pod? && Decides(pod.statuses, i)
    && (pod.statuses[i].terminated.Some? || pod.statuses[i].lastTerminated.Some?)
  }

  ghost function CodeAt(pod: Pod, i: int): int
    requires AnswersAt(pod, i)
  {
    var st := pod.statuses[i];
    if st.terminated.Some? then st.terminated.value.exitCode else st.lastTerminated.value.exitCode
  }

  lemma FlagsSet(r: Report, now: Time)
    ensures Flagged(r, now).running == r.state.DeployRunning? && Flagged(r, now).completed == r.state.DeployCompleted?
  {
  }

  // A backend start without an error has the container up, or done already; DeployFailed
  // is exactly what does not leave the Pod.
  lemma BackendUp(c: Record, l: Launch)
    ensures BackendStart(c, l).ok ==>
              BackendStart(c, l).state.DeployRunning? || BackendStart(c, l).state.DeployCompleted?
    ensures BackendStart(c, l).state.DeployFailed? <==> !PodStays(l)
  {
    hide ScanStatuses, Verdict;
    if l.pod.Pod? { ScanVerdict(c, l.pod.statuses, l.pod.phaseFailed); }
  }

  lemma DropMore(s: State, gone: set<Id>, id: Id)
    requires gone <= s.networks.Keys && id in s.networks && id !in gone
    ensures DropNetworks(DropNetworks(s, gone), {id}) == DropNetworks(s, gone + {id})
  {
    var first := set i | i in gone :: s.networks[i];
    assert (set i | i in gone + {id} :: s.networks[i]) == first + {s.networks[id]};
    assert (set i | i in {id} :: DropNetworks(s, gone).networks[i]) == {s.networks[id]};
    assert s.names - first - {s.networks[id]} == s.names - (first + {s.networks[id]});
    assert s.networks - gone - {id} == s.networks - (gone + {id});
  }

  lemma ResolveNext(s: State, refs: seq<string>, i: nat)
    requires i < |refs|
    ensures ResolveAll(s, refs[..i + 1]) == AddRef(s, ResolveAll(s, refs[..i]), refs[i])
  {
    assert refs[..i + 1][..i] == refs[..i];
  }

  // A reference that does not resolve makes the whole list unresolved.
  lemma {:induction false} Unresolved(s: State, refs: seq<string>, n: nat)
    requires n <= |refs| && ResolveAll(s, refs[..n]) == None
    ensures ResolveAll(s, refs) == None
  {
    if n < |refs| {
      assert refs[..|refs| - 1][..n] == refs[..n];
      Unresolved(s, refs[..|refs| - 1], n);
    } else {
      assert refs[..n] == refs;
    }
  }
}
