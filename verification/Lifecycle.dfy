/**
 Containers and networks as the API handlers change them
 (internal/server/routes/common, internal/server/routes/docker,
 internal/backend/deploy.go, internal/reaper/container.go).

 A handler is one atomic step: no lock spans a handler, so interleavings inside
 one are not covered. The database is a set of finite maps whose lookups return
 only stored records, and database errors do not occur. What the cluster does is
 an input: the Pod a status poll sees and where a start fails. `live` tracks the
 containers whose Pod was brought up with no delete issued since.
 */
module Lifecycle {
  import opened Basics

  type Id = string
  type Time = int  // 0 is Go's zero time

  datatype Record = Record(
    running: bool, completed: bool, failed: bool, stopped: bool, killed: bool,
    oomKilled: bool, exitCode: int, started: Time, finished: Time, created: Time,
    networks: set<Id>)

  function NewRecord(now: Time, networks: set<Id>): Record {
    Record(false, false, false, false, false, false, 0, 0, 0, now, networks)
  }

  // ---------- What the backend reports ----------

  datatype DeployState = DeployPending | DeployFailed | DeployRunning | DeployCompleted

  datatype Term = Term(exitCode: int, oom: bool, startedAt: Time, finishedAt: Time)

  datatype Status = Status(name: string, terminated: Option<Term>, lastTerminated: Option<Term>,
                           restarts: nat, waiting: string, running: Option<Time>)

  datatype Pod = NoPod | Pod(statuses: seq<Status>, phaseFailed: bool)

  // A record, the state reported for it, and whether there was no error.
  datatype Report = Report(record: Record, state: DeployState, ok: bool)

  function UpdateTerminated(c: Record, t: Term): Record {
    c.(exitCode := t.exitCode,
       oomKilled := t.oom,
       started := if t.startedAt != 0 then t.startedAt else c.started,
       finished := if t.finishedAt != 0 then t.finishedAt else c.finished)
  }

  // What one container status decides; None goes on to the next.
  function StatusReport(c: Record, s: Status): Option<Report> {
    var term := if s.terminated.Some? then s.terminated else s.lastTerminated;
    if s.name != "main" then None
    else if term.Some? then Some(Report(UpdateTerminated(c, term.value), DeployCompleted, true))
    else if s.restarts > 0 || s.waiting == "ImagePullBackOff" then Some(Report(c, DeployFailed, false))
    else if s.running.Some? then
      Some(Report(if s.running.value != 0 then c.(started := s.running.value) else c, DeployRunning, true))
    else None
  }

  function ScanStatuses(c: Record, ss: seq<Status>, phaseFailed: bool): Report {
    if ss == [] then
      (if phaseFailed then Report(c, DeployFailed, false) else Report(c, DeployPending, true))
    else
      match StatusReport(c, ss[0])
      case Some(r) => r
      case None => ScanStatuses(c, ss[1..], phaseFailed)
  }

  function GetContainerStatus(c: Record, pod: Pod): Report {
    match pod
    case NoPod => Report(c, DeployFailed, false)
    case Pod(ss, phaseFailed) => ScanStatuses(c, ss, phaseFailed)
  }

  // What the polled Pod amounts to, whatever the record.
  function Verdict(ss: seq<Status>, phaseFailed: bool): DeployState {
    if ss == [] then (if phaseFailed then DeployFailed else DeployPending)
    else
      var s := ss[0];
      if s.name != "main" then Verdict(ss[1..], phaseFailed)
      else if s.terminated.Some? || s.lastTerminated.Some? then DeployCompleted
      else if s.restarts > 0 || s.waiting == "ImagePullBackOff" then DeployFailed
      else if s.running.Some? then DeployRunning
      else Verdict(ss[1..], phaseFailed)
  }

  predicate Up(pod: Pod) {
    && pod.Pod?
    && var v := Verdict(pod.statuses, pod.phaseFailed);
       v.DeployRunning? || v.DeployCompleted?
  }

  // Where a start goes wrong: up to the creation of the Pod and the copying of
  // volumes, in mapping ports, in creating services, or in reading the Pod's address.
  // `pod` is the last poll, still pending if the poll timed out.
  datatype Fault = NoFault | EarlyFault | PortFault | ServiceFault | AddressFault

  datatype Launch = Launch(pod: Pod, fault: Fault)

  datatype Started = Started(record: Record, ok: bool)

  // A service error is returned with the state of the Pod, all others with DeployFailed.
  function BackendStart(c: Record, l: Launch): Report {
    if l.fault.EarlyFault? then Report(c, DeployFailed, false)
    else
      var r := GetContainerStatus(c, l.pod);
      if !r.ok || r.state.DeployPending? || l.fault.PortFault? then Report(r.record, DeployFailed, false)
      else if l.fault.ServiceFault? then Report(r.record, r.state, false)
      else r
  }

  // The Pod is up and stays: the backend deletes it exactly on DeployFailed.
  predicate PodStays(l: Launch) {
    Up(l.pod) && !l.fault.EarlyFault? && !l.fault.PortFault?
  }

  // The start reports an error and leaves its Pod.
  predicate Leftover(l: Launch) { PodStays(l) && !l.fault.NoFault? }

  // The flags and times a successful start sets.
  function Flagged(r: Report, now: Time): Record {
    var completed, running := r.state.DeployCompleted?, r.state.DeployRunning?;
    r.record.(
      stopped := false, killed := false,
      failed := r.state.DeployFailed?, completed := completed, running := running,
      started := if (running || completed) && r.record.started == 0 then now else r.record.started,
      finished := if completed && r.record.finished == 0 then now else r.record.finished)
  }

  function StartContainer(c: Record, l: Launch, now: Time): Started {
    var r := BackendStart(c, l);
    if !r.ok || l.fault.AddressFault? then Started(r.record, false) else Started(Flagged(r, now), true)
  }

  function UpdateStatus(c: Record, pod: Pod, allowed: bool, now: Time): Record {
    if c.completed || !allowed then c
    else
      var r := GetContainerStatus(c, pod);
      var c' := if r.ok then r.record else r.record.(failed := true);
      if !r.state.DeployCompleted? then c'
      else c'.(finished := if c'.finished == 0 then now else c'.finished, completed := true, running := false)
  }

  // ---------- The state machine ----------

  // `names` is the unique name index of the network table: saving a network
  // points its name at it, deleting one drops its name.
  datatype State = State(
    now: Time,
    containers: map<Id, Record>,
    used: set<Id>,
    live: set<Id>,
    networks: map<Id, string>,
    names: map<string, Id>)

  const PREDEFINED: set<string> := {"bridge", "host", "null"}
  const KILL_SIGNALS: set<string> := {"", "kil", "term", "quit", "int"}

  datatype Event =
    | Tick(d: nat)
    | Create(id: Id, mode: string, endpoints: seq<string>)
    | Start(id: Id, launch: Launch)
    | Attach(id: Id, stream: bool, launch: Launch)
    | Restart(id: Id, watched: bool, launch: Launch)  // without a watch the handler hangs before starting
    | Stop(id: Id)
    | Kill(id: Id, signal: string)
    | Delete(id: Id)
    | Observe(id: Id, pod: Pod, allowed: bool)
    | Reap(keepMax: Time)
    | NetCreate(id: Id, name: string)
    | NetDelete(ref: string)
    | Connect(ref: string, id: Id)
    | Disconnect(ref: string, id: Id)
    | Prune

  // GetNetworkByNameOrID.
  function Resolve(s: State, ref: string): Option<Id> {
    if ref in s.networks then Some(ref)
    else if ref in s.names then Some(s.names[ref]) else None
  }

  function AddRef(s: State, ids: Option<set<Id>>, ref: string): Option<set<Id>> {
    if ids.None? || ref == "" then ids
    else match Resolve(s, ref) case None => None case Some(id) => Some(ids.value + {id})
  }

  function ResolveAll(s: State, refs: seq<string>): Option<set<Id>> {
    if refs == [] then Some({})
    else AddRef(s, ResolveAll(s, refs[..|refs| - 1]), refs[|refs| - 1])
  }

  // The networks of a new container: its network mode, its endpoints, or bridge.
  function Attachments(s: State, mode: string, endpoints: seq<string>): Option<set<Id>> {
    match ResolveAll(s, [if mode == "default" then "" else mode] + endpoints)
    case None => None
    case Some(ids) =>
      if ids != {} then Some(ids)
      else if "bridge" in s.names then Some({s.names["bridge"]}) else None
  }

  predicate InUse(s: State, network: Id) {
    exists id :: id in s.containers && network in s.containers[id].networks
  }

  predicate Removable(s: State, network: Id) {
    network in s.networks && s.networks[network] !in PREDEFINED && !InUse(s, network)
  }

  function DropNetworks(s: State, ids: set<Id>): State
    requires ids <= s.networks.Keys
  {
    s.(networks := s.networks - ids, names := s.names - (set id | id in ids :: s.networks[id]))
  }

  function StartStep(s: State, id: Id, l: Launch): State
    requires id in s.containers
  {
    var r := StartContainer(s.containers[id], l, s.now);
    s.(containers := s.containers[id := r.record], live := if PodStays(l) then s.live + {id} else s.live - {id})
  }

  // Stop and kill issue a delete unless one of them already has.
  function HaltStep(s: State, id: Id, killed: bool): State
    requires id in s.containers
  {
    var c := s.containers[id];
    s.(containers := s.containers[id :=
         c.(running := false, completed := false,
            stopped := if killed then c.stopped else true, killed := if killed then true else c.killed)],
       live := if c.stopped || c.killed then s.live else s.live - {id})
  }

  // A restart stops the container first.
  function Halting(s: State, id: Id): State
    requires id in s.containers
  {
    var c := s.containers[id].(running := false, completed := false, stopped := true);
    s.(containers := s.containers[id := c], live := s.live - {id})
  }

  function RestartStep(s: State, id: Id, watched: bool, l: Launch): State
    requires id in s.containers
  {
    if watched then StartStep(Halting(s, id), id, l) else Halting(s, id)
  }

  function Expired(s: State, keepMax: Time): set<Id> {
    set id | id in s.containers && s.containers[id].created < s.now - keepMax
  }

  function Apply(s: State, e: Event): State {
    match e
    case Tick(d) => s.(now := s.now + d)
    case Create(id, mode, endpoints) =>
      (match Attachments(s, mode, endpoints)
       case Some(nets) =>
         if id in s.used then s
         else s.(containers := s.containers[id := NewRecord(s.now, nets)], used := s.used + {id})
       case None => s)
    case Start(id, l) =>
      if id !in s.containers || s.containers[id].running || s.containers[id].completed then s
      else StartStep(s, id, l)
    case Attach(id, stream, l) =>
      if id !in s.containers || !stream || s.containers[id].running || s.containers[id].completed then s
      else StartStep(s, id, l)
    case Restart(id, watched, l) => if id !in s.containers then s else RestartStep(s, id, watched, l)
    case Stop(id) => if id !in s.containers then s else HaltStep(s, id, false)
    case Kill(id, signal) =>
      if id !in s.containers || signal !in KILL_SIGNALS then s else HaltStep(s, id, true)
    case Delete(id) =>
      if id !in s.containers then s
      else
        var c := s.containers[id];
        s.(containers := s.containers - {id}, live := if c.stopped || c.killed then s.live else s.live - {id})
    case Observe(id, pod, allowed) =>
      if id !in s.containers then s
      else s.(containers := s.containers[id := UpdateStatus(s.containers[id], pod, allowed, s.now)])
    case Reap(keepMax) =>
      if keepMax <= 0 then s
      else
        var ids := Expired(s, keepMax);
        s.(containers := s.containers - ids, live := s.live - ids)
    case NetCreate(id, name) =>
      if id in s.used || name == "" then s
      else s.(networks := s.networks[id := name], names := s.names[name := id], used := s.used + {id})
    case NetDelete(ref) =>
      (match Resolve(s, ref)
       case Some(id) => if Removable(s, id) then DropNetworks(s, {id}) else s
       case None => s)
    case Connect(ref, id) =>
      (match Resolve(s, ref)
       case Some(net) =>
         if id !in s.containers then s
         else
           var c := s.containers[id];
           s.(containers := s.containers[id := c.(networks := c.networks + {net})])
       case None => s)
    case Disconnect(ref, id) =>
      (match Resolve(s, ref)
       case Some(net) =>
         if id !in s.containers || net !in s.networks || s.networks[net] in PREDEFINED
            || net !in s.containers[id].networks then s
         else
           var c := s.containers[id];
           s.(containers := s.containers[id := c.(networks := c.networks - {net})])
       case None => s)
    case Prune => DropNetworks(s, set id | id in s.networks && Removable(s, id))
  }

  function Run(s: State, es: seq<Event>): State {
    if es == [] then s else Apply(Run(s, es[..|es| - 1]), es[|es| - 1])
  }

  // loadDefaults.
  predicate Init(s: State) {
    && s.now > 0
    && s.containers == map[] && s.live == {}
    && s.networks.Keys == s.used
    && s.names.Keys == PREDEFINED
    && (forall name :: name in s.names ==> s.names[name] in s.networks && s.networks[s.names[name]] == name)
    && (forall id :: id in s.networks ==> s.networks[id] in s.names && s.names[s.networks[id]] == id)
  }

  // ---------- Every reachable record is consistent ----------

  ghost predicate Consistent(c: Record) {
    && (c.running ==> !c.completed && !c.stopped && !c.killed && c.started != 0)
    && (c.completed ==> c.finished != 0)
  }

  ghost predicate AllConsistent(s: State) {
    s.now > 0 && forall id :: id in s.containers ==> Consistent(s.containers[id])
  }

  // A status poll can set times and the exit code; it never clears a time and
  // never touches the lifecycle flags.
  ghost predicate PollOnly(c: Record, r: Report) {
    && (c.started != 0 ==> r.record.started != 0)
    && (c.finished != 0 ==> r.record.finished != 0)
    && r.record == c.(exitCode := r.record.exitCode, oomKilled := r.record.oomKilled,
                      started := r.record.started, finished := r.record.finished)
    && (r.ok ==> !r.state.DeployFailed?)
  }

  lemma ReportPolls(c: Record, s: Status)
    ensures StatusReport(c, s).Some? ==> PollOnly(c, StatusReport(c, s).value)
  {
    hide UpdateTerminated;
    if s.terminated.Some? { TerminatedPolls(c, s.terminated.value); }
    if s.lastTerminated.Some? { TerminatedPolls(c, s.lastTerminated.value); }
    if s.running.Some? { RunningPolls(c, s.running.value); }
    hide PollOnly;
    FailedPolls(c);
  }

  lemma TerminatedPolls(c: Record, t: Term)
    ensures PollOnly(c, Report(UpdateTerminated(c, t), DeployCompleted, true))
  {
  }

  lemma RunningPolls(c: Record, since: Time)
    ensures PollOnly(c, Report(if since != 0 then c.(started := since) else c, DeployRunning, true))
  {
  }

  lemma FailedPolls(c: Record)
    ensures PollOnly(c, Report(c, DeployFailed, false))
  {
  }

  lemma {:induction false} ScanPolls(c: Record, ss: seq<Status>, phaseFailed: bool)
    ensures PollOnly(c, ScanStatuses(c, ss, phaseFailed))
  {
    hide StatusReport;
    if ss != [] {
      ReportPolls(c, ss[0]);
      ScanPolls(c, ss[1..], phaseFailed);
    }
  }

  lemma StatusKeeps(c: Record, pod: Pod)
    ensures PollOnly(c, GetContainerStatus(c, pod))
  {
    hide ScanStatuses;
    match pod
    case NoPod =>
    case Pod(ss, phaseFailed) => ScanPolls(c, ss, phaseFailed);
  }

  // A start that succeeds leaves the container running or completed, never both.
  lemma StartConsistent(c: Record, l: Launch, now: Time)
    requires Consistent(c) && now > 0
    ensures var r := StartContainer(c, l, now);
            && Consistent(r.record)
            && (r.ok ==> !r.record.stopped && !r.record.killed && r.record.running == !r.record.completed)
            && (!r.ok ==> r.record.stopped == c.stopped && r.record.killed == c.killed)
  {
    hide ScanStatuses;
    StatusKeeps(c, l.pod);
  }

  lemma StartKeepsConsistent(s: State, id: Id, l: Launch)
    requires AllConsistent(s) && id in s.containers
    ensures AllConsistent(StartStep(s, id, l))
  {
    hide StartContainer, PodStays;
    StartConsistent(s.containers[id], l, s.now);
  }

  lemma RestartKeepsConsistent(s: State, id: Id, watched: bool, l: Launch)
    requires AllConsistent(s) && id in s.containers
    ensures AllConsistent(RestartStep(s, id, watched, l))
  {
    hide StartStep;
    var halting := Halting(s, id);
    assert AllConsistent(halting);
    StartKeepsConsistent(halting, id, l);
  }

  lemma ObserveConsistent(c: Record, pod: Pod, allowed: bool, now: Time)
    requires Consistent(c) && now > 0
    ensures Consistent(UpdateStatus(c, pod, allowed, now))
  {
    hide GetContainerStatus;
    StatusKeeps(c, pod);
  }

  lemma ApplyConsistent(s: State, e: Event)
    requires AllConsistent(s)
    ensures AllConsistent(Apply(s, e))
  {
    hide UpdateStatus, StartStep, RestartStep, Attachments, Resolve;
    match e
    case Start(id, l) => if id in s.containers { StartKeepsConsistent(s, id, l); }
    case Attach(id, _, l) => if id in s.containers { StartKeepsConsistent(s, id, l); }
    case Restart(id, watched, l) => if id in s.containers { RestartKeepsConsistent(s, id, watched, l); }
    case Observe(id, pod, allowed) =>
      if id in s.containers { ObserveConsistent(s.containers[id], pod, allowed, s.now); }
    case _ =>
  }

  lemma {:induction false} RunConsistent(s: State, es: seq<Event>)
    requires AllConsistent(s)
    ensures AllConsistent(Run(s, es))
  {
    if es != [] {
      RunConsistent(s, es[..|es| - 1]);
      ApplyConsistent(Run(s, es[..|es| - 1]), es[|es| - 1]);
    }
  }

  // ---------- What a poll reports ----------

  ghost predicate Conclusive(s: Status) {
    && s.name == "main"
    && (|| s.terminated.Some? || s.lastTerminated.Some? || s.running.Some?
        || s.restarts > 0 || s.waiting == "ImagePullBackOff")
  }

  // The first conclusive status decides.
  ghost predicate Decides(ss: seq<Status>, i: int) {
    0 <= i < |ss| && Conclusive(ss[i]) && forall j :: 0 <= j < i ==> !Conclusive(ss[j])
  }

  // What the deciding status makes of the record: the result of a container that has
  // terminated, now or before a restart; else a failure; else the start of a running one.
  ghost predicate Tells(c: Record, s: Status, r: Report) {
    if s.terminated.Some? || s.lastTerminated.Some? then
      var t := if s.terminated.Some? then s.terminated.value else s.lastTerminated.value;
      && r.state == DeployCompleted && r.ok
      && r.record.exitCode == t.exitCode && r.record.oomKilled == t.oom
      && r.record.started == (if t.startedAt != 0 then t.startedAt else c.started)
      && r.record.finished == (if t.finishedAt != 0 then t.finishedAt else c.finished)
    else if s.restarts > 0 || s.waiting == "ImagePullBackOff" then
      r.state == DeployFailed && !r.ok && r.record == c
    else
      && r.state == DeployRunning && r.ok && s.running.Some?
      && r.record == c.(started := r.record.started)
      && r.record.started == (if s.running.value != 0 then s.running.value else c.started)
  }

  lemma StatusTells(c: Record, s: Status)
    ensures StatusReport(c, s).Some? <==> Conclusive(s)
    ensures Conclusive(s) ==> Tells(c, s, StatusReport(c, s).value)
  {
  }

  lemma {:induction false} ScanTells(c: Record, ss: seq<Status>, phaseFailed: bool, i: int)
    ensures Decides(ss, i) ==> Tells(c, ss[i], ScanStatuses(c, ss, phaseFailed))
    ensures (forall j :: 0 <= j < |ss| ==> !Conclusive(ss[j])) ==>
              ScanStatuses(c, ss, phaseFailed) ==
                if phaseFailed then Report(c, DeployFailed, false) else Report(c, DeployPending, true)
  {
    hide StatusReport, Tells, Conclusive;
    if ss != [] {
      var rest := ss[1..];
      StatusTells(c, ss[0]);
      ScanTells(c, rest, phaseFailed, i - 1);
      assert forall j :: 0 <= j < |rest| ==> rest[j] == ss[j + 1];
    }
  }

  // A poll: no Pod is a failure, the first conclusive status of the main container
  // decides, and without one the Pod is pending or has failed.
  lemma PollTells(c: Record, pod: Pod, i: int)
    ensures pod.NoPod? ==> GetContainerStatus(c, pod) == Report(c, DeployFailed, false)
    ensures pod.Pod? && Decides(pod.statuses, i) ==> Tells(c, pod.statuses[i], GetContainerStatus(c, pod))
    ensures pod.Pod? && (forall j :: 0 <= j < |pod.statuses| ==> !Conclusive(pod.statuses[j])) ==>
              GetContainerStatus(c, pod) ==
                if pod.phaseFailed then Report(c, DeployFailed, false) else Report(c, DeployPending, true)
  {
    hide ScanStatuses, Tells, Conclusive;
    if pod.Pod? { ScanTells(c, pod.statuses, pod.phaseFailed, i); }
  }

  // A wait on a container that is not over yet answers the code its main container
  // terminated with.
  lemma WaitReports(s: State, id: Id, pod: Pod, i: int)
    requires id in s.containers && !s.containers[id].completed && pod.Pod? && Decides(pod.statuses, i)
    requires pod.statuses[i].terminated.Some? || pod.statuses[i].lastTerminated.Some?
    ensures var st := pod.statuses[i];
            var code := if st.terminated.Some? then st.terminated.value.exitCode else st.lastTerminated.value.exitCode;
            var s' := Apply(s, Observe(id, pod, true));
            WaitCode(s', id) == Some(code) && s'.containers[id].completed && !s'.containers[id].running
  {
    PollTells(s.containers[id], pod, i);
    hide GetContainerStatus, Conclusive;
  }

  // An update leaves a completed container alone, and any when it is rate-limited. Otherwise
  // it marks a failed poll, and ends the container when the poll says so.
  lemma UpdateTells(c: Record, pod: Pod, allowed: bool, now: Time)
    ensures c.completed || !allowed ==> UpdateStatus(c, pod, allowed, now) == c
    ensures !c.completed && allowed ==>
              var r, u := GetContainerStatus(c, pod), UpdateStatus(c, pod, allowed, now);
              && u.failed == (c.failed || !r.ok)
              && u.completed == r.state.DeployCompleted? && u.running == (c.running && !r.state.DeployCompleted?)
              && u.exitCode == r.record.exitCode && u.oomKilled == r.record.oomKilled && u.started == r.record.started
              && u.finished == (if u.completed && r.record.finished == 0 then now else r.record.finished)
              && u.stopped == c.stopped && u.killed == c.killed && u.created == c.created
  {
    StatusKeeps(c, pod);
    hide GetContainerStatus;
  }

  // A successful start is running or completed as its Pod is, has the times the Pod
  // gives, and the present where it gives none.
  lemma StartTells(c: Record, l: Launch, now: Time, i: int)
    requires l.pod.Pod? && Decides(l.pod.statuses, i) && StartContainer(c, l, now).ok
    ensures var st, r := l.pod.statuses[i], StartContainer(c, l, now).record;
            var polled := GetContainerStatus(c, l.pod).record;
            && r.completed == (st.terminated.Some? || st.lastTerminated.Some?) && r.running == !r.completed
            && !r.failed && !r.stopped && !r.killed
            && r.exitCode == polled.exitCode && r.oomKilled == polled.oomKilled && r.created == polled.created
            && r.started == (if polled.started != 0 then polled.started else now)
            && r.finished == (if polled.finished == 0 && r.completed then now else polled.finished)
  {
    PollTells(c, l.pod, i);
    hide GetContainerStatus, Conclusive;
  }

  // A Pod is up if its main container is running or has terminated.
  lemma UpIff(pod: Pod)
    ensures Up(pod) <==>
              pod.Pod? && exists i :: Decides(pod.statuses, i) && RunsOrRan(pod.statuses[i])
  {
    var c := NewRecord(0, {});
    if pod.Pod? {
      ScanVerdict(c, pod.statuses, pod.phaseFailed);
      hide Verdict, ScanStatuses, Conclusive;
      if forall j :: 0 <= j < |pod.statuses| ==> !Conclusive(pod.statuses[j]) {
        ScanTells(c, pod.statuses, pod.phaseFailed, 0);
      } else {
        var j :| 0 <= j < |pod.statuses| && Conclusive(pod.statuses[j]);
        var i := SomeDecides(pod.statuses, j);
        ScanTells(c, pod.statuses, pod.phaseFailed, i);
        OneDecides(pod.statuses, i);
      }
    }
  }

  ghost predicate RunsOrRan(s: Status) {
    || s.terminated.Some? || s.lastTerminated.Some?
    || (s.restarts == 0 && s.waiting != "ImagePullBackOff" && s.running.Some?)
  }

  lemma {:induction false} SomeDecides(ss: seq<Status>, j: nat) returns (i: int)
    requires j < |ss| && Conclusive(ss[j])
    ensures Decides(ss, i)
    decreases j
  {
    if k :| 0 <= k < j && Conclusive(ss[k]) {
      i := SomeDecides(ss, k);
    } else {
      i := j;
    }
  }

  lemma OneDecides(ss: seq<Status>, i: int)
    requires Decides(ss, i)
    ensures forall j :: Decides(ss, j) ==> j == i
  {
    hide Conclusive;
  }

  // A start that fails leaves its Pod exactly when the Pod came up and the failure was in
  // creating services or reading the address.
  lemma LeftoverIff(c: Record, l: Launch, now: Time)
    ensures Leftover(l) <==> Up(l.pod) && (l.fault.ServiceFault? || l.fault.AddressFault?)
    ensures Leftover(l) ==> !StartContainer(c, l, now).ok
    ensures BackendStart(c, l).state.DeployFailed? <==> !Up(l.pod) || l.fault.EarlyFault? || l.fault.PortFault?
  {
    StartFlags(c, l, now);
    hide ScanStatuses, Verdict;
    if l.pod.Pod? { ScanVerdict(c, l.pod.statuses, l.pod.phaseFailed); }
  }

  // ---------- What the other steps do ----------

  lemma ResolveIff(s: State, ref: string, net: Id)
    ensures Resolve(s, ref) == Some(net) <==>
              (ref in s.networks && net == ref) || (ref !in s.networks && ref in s.names && net == s.names[ref])
  {
  }

  // A new container is stopped dead, made now, and on exactly the networks named, or on
  // the bridge if none is.
  lemma Creates(s: State, id: Id, mode: string, endpoints: seq<string>)
    requires id !in s.used && Attachments(s, mode, endpoints).Some?
    ensures var s' := Apply(s, Create(id, mode, endpoints));
            && s'.containers.Keys == s.containers.Keys + {id}
            && (forall i :: i in s.containers && i != id ==> s'.containers[i] == s.containers[i])
            && var c := s'.containers[id];
               && !c.running && !c.completed && !c.failed && !c.stopped && !c.killed && c.created == s.now
               && c.started == 0 && c.finished == 0 && c.exitCode == 0
               && c.networks == Attachments(s, mode, endpoints).value
  {
    hide Attachments;
  }

  ghost predicate Wanted(mode: string, endpoints: seq<string>, ref: string) {
    ref != "" && ((ref == mode && mode != "default") || ref in endpoints)
  }

  lemma {:induction false} ResolveAllIff(s: State, refs: seq<string>)
    ensures ResolveAll(s, refs).Some? <==> forall i :: 0 <= i < |refs| && refs[i] != "" ==> Resolve(s, refs[i]).Some?
    ensures ResolveAll(s, refs).Some? ==>
              forall net :: net in ResolveAll(s, refs).value <==>
                exists i :: 0 <= i < |refs| && refs[i] != "" && Resolve(s, refs[i]) == Some(net)
  {
    hide Resolve;
    if refs != [] {
      var n := |refs| - 1;
      ResolveAllIff(s, refs[..n]);
      assert forall i :: 0 <= i < n ==> refs[..n][i] == refs[i];
    }
  }

  lemma AttachmentsIff(s: State, mode: string, endpoints: seq<string>)
    ensures var a := Attachments(s, mode, endpoints);
            && (a.Some? ==>
                  forall ref :: Wanted(mode, endpoints, ref) ==>
                    Resolve(s, ref).Some? && Resolve(s, ref).value in a.value)
            && ((exists ref :: Wanted(mode, endpoints, ref) && Resolve(s, ref).None?) ==> a.None?)
            && (a.Some? && (forall ref :: !Wanted(mode, endpoints, ref)) ==>
                  "bridge" in s.names && a.value == {s.names["bridge"]})
            && (a.Some? && (exists ref :: Wanted(mode, endpoints, ref)) ==>
                  forall net :: net in a.value ==>
                    exists ref :: Wanted(mode, endpoints, ref) && Resolve(s, ref) == Some(net))
  {
    var refs := [if mode == "default" then "" else mode] + endpoints;
    ResolveAllIff(s, refs);
    hide ResolveAll, Resolve;
    forall ref
      ensures Wanted(mode, endpoints, ref) <==> exists i :: 0 <= i < |refs| && refs[i] != "" && refs[i] == ref
    {
      WantedAt(mode, endpoints, refs, ref);
    }
    hide Wanted;
    var ids := ResolveAll(s, refs);
    if ids.Some? && forall ref :: !Wanted(mode, endpoints, ref) {
      assert forall i :: 0 <= i < |refs| && refs[i] != "" ==> Wanted(mode, endpoints, refs[i]);
      assert forall net :: net !in ids.value;
      assert ids.value == {};
    }
  }

  lemma WantedAt(mode: string, endpoints: seq<string>, refs: seq<string>, ref: string)
    requires refs == [if mode == "default" then "" else mode] + endpoints
    ensures Wanted(mode, endpoints, ref) <==> exists i :: 0 <= i < |refs| && refs[i] != "" && refs[i] == ref
  {
    assert forall i :: 0 < i < |refs| ==> refs[i] == endpoints[i - 1];
    if ref in endpoints {
      var k :| 0 <= k < |endpoints| && endpoints[k] == ref;
      assert refs[k + 1] == ref;
    }
    if ref == mode { assert refs[0] == if mode == "default" then "" else mode; }
  }

  // Stopping and killing: the flag is set, the container is neither running nor
  // completed, and its Pod has had a delete.
  lemma HaltsContainer(s: State, id: Id, signal: string)
    requires Safe(s) && id in s.containers
    ensures var s' := Apply(s, Stop(id));
            && id in s'.containers && s'.containers[id].stopped && !s'.containers[id].running
            && !s'.containers[id].completed && s'.containers[id].killed == s.containers[id].killed && id !in s'.live
    ensures var s' := Apply(s, Kill(id, signal));
            if signal in {"", "kil", "term", "quit", "int"} then
              && id in s'.containers && s'.containers[id].killed && !s'.containers[id].running
              && !s'.containers[id].completed && s'.containers[id].stopped == s.containers[id].stopped && id !in s'.live
            else s' == s
  {
  }

  // Connecting and disconnecting change exactly the one attachment.
  lemma ConnectsNetwork(s: State, ref: string, id: Id)
    requires id in s.containers && Resolve(s, ref).Some?
    ensures var net, s' := Resolve(s, ref).value, Apply(s, Connect(ref, id));
            s' == s.(containers := s'.containers) && s'.containers.Keys == s.containers.Keys
            && (forall i :: i in s.containers && i != id ==> s'.containers[i] == s.containers[i])
            && s'.containers[id] == s.containers[id].(networks := s'.containers[id].networks)
            && forall n :: n in s'.containers[id].networks <==> n in s.containers[id].networks || n == net
    ensures var net, s' := Resolve(s, ref).value, Apply(s, Disconnect(ref, id));
            if net in s.networks && s.networks[net] !in {"bridge", "host", "null"}
               && net in s.containers[id].networks
            then
              s' == s.(containers := s'.containers) && s'.containers.Keys == s.containers.Keys
              && (forall i :: i in s.containers && i != id ==> s'.containers[i] == s.containers[i])
              && s'.containers[id] == s.containers[id].(networks := s'.containers[id].networks)
              && forall n :: n in s'.containers[id].networks <==> n in s.containers[id].networks && n != net
            else s' == s
  {
    hide Resolve;
  }

  // A network can be found under its id and name once made, and no longer once deleted,
  // which it is exactly when it is neither predefined nor in use.
  lemma MakesNetwork(s: State, id: Id, name: string)
    requires NetworksOk(s) && id !in s.used && name != ""
    ensures var s' := Apply(s, NetCreate(id, name));
            && Resolve(s', id) == Some(id) && (name !in s'.networks ==> Resolve(s', name) == Some(id))
            && s'.networks == s.networks[id := name] && s'.containers == s.containers
  {
  }

  lemma DeletesNetwork(s: State, ref: string)
    requires NetworksOk(s) && Resolve(s, ref).Some?
    ensures var net, s' := Resolve(s, ref).value, Apply(s, NetDelete(ref));
            && net in s.networks
            && if s.networks[net] !in {"bridge", "host", "null"}
                  && forall id :: id in s.containers ==> net !in s.containers[id].networks
               then s'.networks.Keys == s.networks.Keys - {net} && Resolve(s', net) != Some(net)
               else s' == s
  {
    assert InUse(s, Resolve(s, ref).value) <==>
           exists id :: id in s.containers && Resolve(s, ref).value in s.containers[id].networks;
  }

  // A pass of the reaper takes exactly the records older than keepMax, and their Pods.
  lemma Reaps(s: State, keepMax: Time, id: Id)
    requires id in s.containers
    ensures var s' := Apply(s, Reap(keepMax));
            && (id in s'.containers <==> !(keepMax > 0 && s.now - s.containers[id].created > keepMax))
            && (id !in s'.containers ==> id !in s'.live)
  {
  }

  // ---------- A completed container stays completed ----------

  ghost predicate Halts(e: Event, id: Id) {
    (e.Stop? || e.Kill? || e.Restart?) && e.id == id
  }

  // The step takes the record of id away.
  ghost predicate Removes(s: State, e: Event, id: Id) {
    e == Delete(id) || (e.Reap? && e.keepMax > 0 && id in Expired(s, e.keepMax))
  }

  ghost predicate Removed(s: State, es: seq<Event>, id: Id) {
    exists i :: 0 <= i < |es| && Removes(Run(s, es[..i]), es[i], id)
  }

  // The record is stored and, its networks apart, equal to c.
  ghost predicate Frozen(s: State, id: Id, c: Record) {
    id in s.containers && id in s.used && s.containers[id].(networks := {}) == c.(networks := {})
  }

  // Ids are not reused.
  ghost predicate Gone(s: State, id: Id) { id !in s.containers && id in s.used }

  lemma CompletedStep(s: State, e: Event, id: Id, c: Record)
    requires Frozen(s, id, c) && c.completed && !Halts(e, id)
    ensures if Removes(s, e, id) then Gone(Apply(s, e), id) else Frozen(Apply(s, e), id, c)
  {
    hide Apply, Frozen, Gone, Halts, Removes;
    if e.Delete? || e.Reap? {
      RemovalStep(s, e, id, c);
    } else if e.Connect? || e.Disconnect? || e.NetCreate? || e.NetDelete? || e.Prune? {
      NetworkStep(s, e, id, c);
    } else {
      RecordStep(s, e, id, c);
    }
  }

  lemma RemovalStep(s: State, e: Event, id: Id, c: Record)
    requires Frozen(s, id, c) && (e.Delete? || e.Reap?)
    ensures if Removes(s, e, id) then Gone(Apply(s, e), id) else Frozen(Apply(s, e), id, c)
  {
  }

  lemma NetworkStep(s: State, e: Event, id: Id, c: Record)
    requires Frozen(s, id, c) && (e.Connect? || e.Disconnect? || e.NetCreate? || e.NetDelete? || e.Prune?)
    ensures !Removes(s, e, id) && Frozen(Apply(s, e), id, c)
  {
    hide Resolve;
  }

  lemma RecordStep(s: State, e: Event, id: Id, c: Record)
    requires Frozen(s, id, c) && c.completed && !Halts(e, id)
    requires !(e.Delete? || e.Reap? || e.Connect? || e.Disconnect? || e.NetCreate? || e.NetDelete? || e.Prune?)
    ensures !Removes(s, e, id) && Frozen(Apply(s, e), id, c)
  {
    hide UpdateStatus, Attachments, StartStep, RestartStep, HaltStep;
    match e
    case Start(i, l) => if i in s.containers && i != id { StartOther(s, i, l, id); }
    case Attach(i, _, l) => if i in s.containers && i != id { StartOther(s, i, l, id); }
    case Restart(i, watched, l) => if i in s.containers { RestartOther(s, i, watched, l, id); }
    case Stop(i) => if i in s.containers { HaltOther(s, i, false, id); }
    case Kill(i, _) => if i in s.containers { HaltOther(s, i, true, id); }
    case Observe(i, pod, allowed) => if i == id { CompletedUnpolled(s.containers[id], pod, allowed, s.now); }
    case _ =>
  }

  lemma CompletedUnpolled(c: Record, pod: Pod, allowed: bool, now: Time)
    requires c.completed
    ensures UpdateStatus(c, pod, allowed, now) == c
  {
    hide GetContainerStatus;
  }

  lemma StartOther(s: State, i: Id, l: Launch, id: Id)
    requires i in s.containers && id in s.containers && i != id
    ensures id in StartStep(s, i, l).containers && StartStep(s, i, l).containers[id] == s.containers[id]
    ensures StartStep(s, i, l).used == s.used
  {
    hide StartContainer;
  }

  lemma RestartOther(s: State, i: Id, watched: bool, l: Launch, id: Id)
    requires i in s.containers && id in s.containers && i != id
    ensures var s' := RestartStep(s, i, watched, l);
            id in s'.containers && s'.containers[id] == s.containers[id] && s'.used == s.used
  {
    hide StartContainer;
  }

  lemma HaltOther(s: State, i: Id, killed: bool, id: Id)
    requires i in s.containers && id in s.containers && i != id
    ensures var s' := HaltStep(s, i, killed);
            id in s'.containers && s'.containers[id] == s.containers[id] && s'.used == s.used
  {
  }

  lemma GoneStep(s: State, e: Event, id: Id)
    requires Gone(s, id)
    ensures Gone(Apply(s, e), id)
  {
    hide StartContainer, GetContainerStatus, Attachments, Resolve;
  }

  // Once completed, nothing but stopping, killing, restarting or removing a container
  // touches its record, its networks apart: after any run without the first three it
  // is as it was, or it was removed.
  lemma {:induction false} CompletedStays(s: State, es: seq<Event>, id: Id)
    requires id in s.containers && s.containers[id].completed && id in s.used
    requires forall i :: 0 <= i < |es| ==> !Halts(es[i], id)
    ensures if Removed(s, es, id) then Gone(Run(s, es), id) else Frozen(Run(s, es), id, s.containers[id])
  {
    hide Apply, Removes;
    if es != [] {
      var n := |es| - 1;
      CompletedStays(s, es[..n], id);
      RemovedNext(s, es, id);
      if Removed(s, es[..n], id) {
        GoneStep(Run(s, es[..n]), es[n], id);
      } else {
        CompletedStep(Run(s, es[..n]), es[n], id, s.containers[id]);
      }
    }
  }

  lemma RemovedNext(s: State, es: seq<Event>, id: Id)
    requires es != []
    ensures var n := |es| - 1; Removed(s, es, id) <==> Removed(s, es[..n], id) || Removes(Run(s, es[..n]), es[n], id)
  {
    hide Run, Removes;
    var n := |es| - 1;
    assert forall i :: 0 <= i < n ==> es[..n][..i] == es[..i] && es[..n][i] == es[i];
    if i :| 0 <= i < |es| && Removes(Run(s, es[..i]), es[i], id) {
      assert i < n ==> es[..n][..i] == es[..i] && es[..n][i] == es[i];
    }
    if i :| 0 <= i < n && Removes(Run(s, es[..n][..i]), es[..n][i], id) {
      assert es[..n][..i] == es[..i] && es[..n][i] == es[i];
    }
  }

  // What a wait reports, if it returns.
  function WaitCode(s: State, id: Id): Option<int> {
    if id in s.containers && (s.containers[id].stopped || s.containers[id].killed || s.containers[id].completed)
    then Some(s.containers[id].exitCode) else None
  }

  // Two waits without a stop, kill or restart between them report the same, unless the
  // container was removed in between.
  lemma RepeatedWaitsAgree(s: State, pod: Pod, es: seq<Event>, pod': Pod, allowed: bool, id: Id)
    requires id in s.used && id in s.containers
    requires Apply(s, Observe(id, pod, true)).containers[id].completed
    requires forall i :: 0 <= i < |es| ==> !Halts(es[i], id)
    ensures var first := Apply(s, Observe(id, pod, true));
            var second := Apply(Run(first, es), Observe(id, pod', allowed));
            && WaitCode(first, id).Some?
            && WaitCode(second, id) == if Removed(first, es, id) then None else WaitCode(first, id)
  {
    hide GetContainerStatus, Removed;
    CompletedStays(Apply(s, Observe(id, pod, true)), es, id);
  }

  // ---------- No workload outlives its record unnoticed ----------

  // Every Pod that was brought up, with no delete issued since, has a record.
  ghost predicate NoOrphans(s: State) { s.live <= s.containers.Keys }

  ghost predicate Safe(s: State) {
    && NoOrphans(s)
    && s.containers.Keys <= s.used
    && (forall id :: id in s.containers && (s.containers[id].stopped || s.containers[id].killed) ==> id !in s.live)
  }

  ghost predicate Halted(s: State, id: Id) {
    id in s.containers && (s.containers[id].stopped || s.containers[id].killed)
  }

  // A start of a stopped or killed container that fails with its Pod left up: the
  // record still says that the workload has been deleted.
  ghost predicate Hazard(s: State, e: Event) {
    || (e.Start? && Starts(s, e.id) && Halted(s, e.id) && Leftover(e.launch))
    || (e.Attach? && e.stream && Starts(s, e.id) && Halted(s, e.id) && Leftover(e.launch))
    || (e.Restart? && e.watched && e.id in s.containers && Leftover(e.launch))
  }

  ghost predicate Starts(s: State, id: Id) {
    id in s.containers && !s.containers[id].running && !s.containers[id].completed
  }

  lemma {:induction false} ScanVerdict(c: Record, ss: seq<Status>, phaseFailed: bool)
    ensures var r := ScanStatuses(c, ss, phaseFailed);
            r.state == Verdict(ss, phaseFailed) && (r.ok <==> !r.state.DeployFailed?)
  {
    if ss != [] { ScanVerdict(c, ss[1..], phaseFailed); }
  }

  // A start succeeds exactly when the Pod is up and nothing fails.
  lemma StartFlags(c: Record, l: Launch, now: Time)
    ensures var r := StartContainer(c, l, now);
            && (r.ok <==> PodStays(l) && l.fault.NoFault?)
            && (r.ok ==> !r.record.stopped && !r.record.killed)
            && (!r.ok ==> r.record.stopped == c.stopped && r.record.killed == c.killed)
  {
    hide ScanStatuses, Verdict;
    StatusKeeps(c, l.pod);
    if l.pod.Pod? { ScanVerdict(c, l.pod.statuses, l.pod.phaseFailed); }
  }

  // Starting keeps the state safe exactly when it is no hazard.
  lemma StartSafeIff(s: State, id: Id, l: Launch)
    requires Safe(s) && id in s.containers
    ensures Safe(StartStep(s, id, l)) <==> !(Halted(s, id) && Leftover(l))
    ensures Halted(s, id) && Leftover(l) ==> Halted(StartStep(s, id, l), id) && id in StartStep(s, id, l).live
  {
    hide StartContainer, Up;
    StartFlags(s.containers[id], l, s.now);
    var s' := StartStep(s, id, l);
    assert forall i :: i in s'.containers && i != id ==> s'.containers[i] == s.containers[i];
    if Halted(s, id) && Leftover(l) { assert id in s'.containers && id in s'.live; }
  }

  lemma RestartSafeIff(s: State, id: Id, watched: bool, l: Launch)
    requires Safe(s) && id in s.containers
    ensures Safe(RestartStep(s, id, watched, l)) <==> !(watched && Leftover(l))
  {
    hide StartStep, Leftover;
    StartSafeIff(Halting(s, id), id, l);
  }

  lemma HaltSafe(s: State, id: Id, killed: bool)
    requires Safe(s) && id in s.containers
    ensures Safe(HaltStep(s, id, killed))
  {
  }

  lemma ObserveSafe(s: State, id: Id, pod: Pod, allowed: bool)
    requires Safe(s) && id in s.containers
    ensures Safe(s.(containers := s.containers[id := UpdateStatus(s.containers[id], pod, allowed, s.now)]))
  {
    hide GetContainerStatus;
    StatusKeeps(s.containers[id], pod);
  }

  // From a safe state, every step leads to a safe state unless it is a hazard, and
  // a hazard never does.
  lemma StepSafeIff(s: State, e: Event)
    requires Safe(s)
    ensures Safe(Apply(s, e)) <==> !Hazard(s, e)
  {
    hide UpdateStatus, StartStep, RestartStep, HaltStep, Attachments, Resolve, Leftover;
    match e
    case Start(id, l) => if id in s.containers { StartSafeIff(s, id, l); }
    case Attach(id, _, l) => if id in s.containers { StartSafeIff(s, id, l); }
    case Restart(id, watched, l) => if id in s.containers { RestartSafeIff(s, id, watched, l); }
    case Stop(id) => if id in s.containers { HaltSafe(s, id, false); }
    case Kill(id, _) => if id in s.containers { HaltSafe(s, id, true); }
    case Observe(id, pod, allowed) => if id in s.containers { ObserveSafe(s, id, pod, allowed); }
    case _ =>
  }

  // No step of the run is a hazard where it is taken.
  ghost predicate HazardFree(s: State, es: seq<Event>) {
    forall i :: 0 <= i < |es| ==> !Hazard(Run(s, es[..i]), es[i])
  }

  ghost predicate SafeThroughout(s: State, es: seq<Event>) {
    forall i :: 0 <= i <= |es| ==> Safe(Run(s, es[..i]))
  }

  // A run stays safe throughout exactly when none of its steps is a hazard.
  lemma {:induction false} RunSafeIff(s: State, es: seq<Event>)
    requires Safe(s)
    ensures SafeThroughout(s, es) <==> HazardFree(s, es)
  {
    hide Run, Safe, Hazard;
    if es == [] {
      RunUnfold(s, es);
      assert es[..0] == es;
    } else {
      var n := |es| - 1;
      var front := es[..n];
      RunSafeIff(s, front);
      RunUnfold(s, es);
      assert forall i :: 0 <= i <= n ==> front[..i] == es[..i];
      assert es[..|es|] == es;
      if SafeThroughout(s, front) {
        assert front[..n] == front && Safe(Run(s, front[..n]));
        StepSafeIff(Run(s, front), es[n]);
        assert SafeThroughout(s, es) ==> Safe(Run(s, es[..n + 1]));
      }
      FrontOf(s, es);
    }
  }

  lemma RunUnfold(s: State, es: seq<Event>)
    ensures Run(s, es) == if es == [] then s else Apply(Run(s, es[..|es| - 1]), es[|es| - 1])
  {
  }

  lemma FrontOf(s: State, es: seq<Event>)
    requires es != []
    ensures var n := |es| - 1;
            && (SafeThroughout(s, es) <==> SafeThroughout(s, es[..n]) && Safe(Run(s, es)))
            && (HazardFree(s, es) <==> HazardFree(s, es[..n]) && !Hazard(Run(s, es[..n]), es[n]))
  {
    hide Run, Safe, Hazard;
    var n := |es| - 1;
    var front := es[..n];
    assert es[..|es|] == es;
    assert forall i :: 0 <= i <= n ==> front[..i] == es[..i];
    if HazardFree(s, es) {
      forall i | 0 <= i < n ensures !Hazard(Run(s, front[..i]), front[i]) { assert front[..i] == es[..i]; }
    }
    if HazardFree(s, front) && !Hazard(Run(s, front), es[n]) {
      forall i | 0 <= i < |es| ensures !Hazard(Run(s, es[..i]), es[i]) {
        if i < n { assert front[..i] == es[..i] && front[i] == es[i]; }
      }
    }
    if SafeThroughout(s, es) {
      forall i | 0 <= i <= n ensures Safe(Run(s, front[..i])) { assert front[..i] == es[..i]; }
      assert Safe(Run(s, es[..|es|]));
    }
    if SafeThroughout(s, front) && Safe(Run(s, es)) {
      forall i | 0 <= i <= |es| ensures Safe(Run(s, es[..i])) {
        if i <= n { assert front[..i] == es[..i]; }
      }
    }
  }

  lemma RunSafe(s: State, es: seq<Event>)
    requires Safe(s) && HazardFree(s, es)
    ensures Safe(Run(s, es))
  {
    hide Run, Safe, HazardFree;
    RunSafeIff(s, es);
    assert es[..|es|] == es;
  }

  // From a state with no orphans, no run without a hazard ever makes one exactly when
  // every stopped or killed container has had its workload deleted.
  lemma NeverOrphansIff(s: State)
    requires NoOrphans(s) && s.containers.Keys <= s.used
    ensures (forall es :: HazardFree(s, es) ==> NoOrphans(Run(s, es))) <==> Safe(s)
  {
    if Safe(s) {
      forall es | HazardFree(s, es) ensures NoOrphans(Run(s, es)) { RunSafe(s, es); }
    } else {
      var id :| id in s.containers && (s.containers[id].stopped || s.containers[id].killed) && id in s.live;
      var es := [Delete(id)];
      assert es[..0] == [] && HazardFree(s, es);
      assert id in Run(s, es).live;
    }
  }

  // A hazard is what it takes to leak: from a safe state, removing the container after
  // a step orphans a Pod exactly when that step was a hazard.
  lemma LeaksIff(s: State, e: Event, id: Id)
    requires Safe(s) && (e.Start? || e.Attach? || e.Restart?) && e.id == id
    ensures NoOrphans(Run(s, [e, Delete(id)])) <==> !Hazard(s, e)
  {
    RunOfTwo(s, e, Delete(id));
    hide Run;
    if Hazard(s, e) {
      HazardHalts(s, e, id);
    } else {
      StepSafeIff(s, e);
      StepSafeIff(Apply(s, e), Delete(id));
    }
  }

  lemma HazardHalts(s: State, e: Event, id: Id)
    requires Safe(s) && Hazard(s, e) && e.id == id
    ensures Halted(Apply(s, e), id) && id in Apply(s, e).live
  {
    hide StartStep, Leftover;
    if e.Restart? {
      StartSafeIff(Halting(s, id), id, e.launch);
    } else {
      StartSafeIff(s, id, e.launch);
    }
  }

  function RunningPod(): Pod { Pod([Status("main", None, None, 0, "", Some(1))], false) }

  // A run from a fresh database that leaks: the container is started and stopped, a
  // second start brings its Pod up and cannot read the address, and it is removed.
  lemma LeakingRun(s: State, id: Id)
    requires Init(s) && id !in s.used
    ensures var up := Launch(RunningPod(), NoFault);
            var es := [Create(id, "", []), Start(id, up), Stop(id), Start(id, up.(fault := AddressFault)), Delete(id)];
            !NoOrphans(Run(s, es))
  {
    var up := Launch(RunningPod(), NoFault);
    var bad := up.(fault := AddressFault);
    assert Up(RunningPod());
    hide Up, RunningPod;
    var halted := StartedAndStopped(s, id, up);
    LeaksIff(halted, Start(id, bad), id);
    hide Run, Safe, Init;
    var first := [Create(id, "", []), Start(id, up), Stop(id)];
    RunTwo(s, first, Start(id, bad), Delete(id));
    assert first + [Start(id, bad), Delete(id)]
        == [Create(id, "", []), Start(id, up), Stop(id), Start(id, bad), Delete(id)];
  }

  lemma StartedAndStopped(s: State, id: Id, up: Launch) returns (halted: State)
    requires Init(s) && id !in s.used && PodStays(up) && up.fault.NoFault?
    ensures halted == Run(s, [Create(id, "", []), Start(id, up), Stop(id)])
    ensures Safe(halted) && Halted(halted, id) && Starts(halted, id)
  {
    var s1 := Apply(s, Create(id, "", []));
    NewContainer(s, id);
    StepSafeIff(s, Create(id, "", []));
    hide Attachments;
    StepSafeIff(s1, Start(id, up));
    var s2 := Apply(s1, Start(id, up));
    StepSafeIff(s2, Stop(id));
    halted := Apply(s2, Stop(id));
    RunOfTwo(s, Create(id, "", []), Start(id, up));
    RunNext(s, [Create(id, "", []), Start(id, up)], Stop(id));
    assert [Create(id, "", []), Start(id, up)] + [Stop(id)] == [Create(id, "", []), Start(id, up), Stop(id)];
    hide StartContainer;
  }

  lemma RunNext(s: State, es: seq<Event>, e: Event)
    ensures Run(s, es + [e]) == Apply(Run(s, es), e)
  {
    hide Apply;
    assert (es + [e])[..|es|] == es;
  }

  lemma RunOfTwo(s: State, e: Event, f: Event)
    ensures Run(s, [e, f]) == Apply(Apply(s, e), f)
  {
    hide Apply;
    RunNext(s, [], e);
    RunNext(s, [e], f);
    assert [] + [e] == [e] && [e] + [f] == [e, f];
  }

  lemma NewContainer(s: State, id: Id)
    requires Init(s) && id !in s.used
    ensures var s1 := Apply(s, Create(id, "", []));
            s1.containers.Keys == {id} && s1.containers[id].(networks := {}) == NewRecord(s.now, {}) && s1.live == {}
            && s1.used == s.used + {id}
  {
    assert ResolveAll(s, [""] + []) == Some({}) by {
      assert ([""] + [])[..0] == [];
    }
    assert "bridge" in s.names;
  }

  lemma RunTwo(s: State, es: seq<Event>, e: Event, f: Event)
    ensures Run(s, es + [e, f]) == Run(Run(s, es), [e, f])
  {
    hide Apply, Run;
    RunNext(s, es, e);
    RunNext(s, es + [e], f);
    RunOfTwo(Run(s, es), e, f);
    assert es + [e] + [f] == es + [e, f];
  }

  // ---------- Networks ----------

  ghost predicate NetworksOk(s: State) {
    && (forall id, net :: id in s.containers && net in s.containers[id].networks ==> net in s.networks)
    && (forall name :: name in s.names ==> s.names[name] in s.networks && s.networks[s.names[name]] == name)
    && PREDEFINED <= s.names.Keys
    && s.networks.Keys <= s.used
  }

  lemma {:induction false} ResolveAllStored(s: State, refs: seq<string>)
    requires NetworksOk(s)
    ensures ResolveAll(s, refs).Some? ==> ResolveAll(s, refs).value <= s.networks.Keys
  {
    if refs != [] { ResolveAllStored(s, refs[..|refs| - 1]); }
  }

  lemma AttachmentsStored(s: State, mode: string, endpoints: seq<string>)
    requires NetworksOk(s)
    ensures Attachments(s, mode, endpoints).Some? ==> Attachments(s, mode, endpoints).value <= s.networks.Keys
  {
    ResolveAllStored(s, [if mode == "default" then "" else mode] + endpoints);
  }

  lemma DropKeeps(s: State, ids: set<Id>)
    requires NetworksOk(s) && ids <= s.networks.Keys && forall id :: id in ids ==> Removable(s, id)
    ensures NetworksOk(DropNetworks(s, ids))
  {
  }

  // A change of one record that does not touch its networks.
  lemma RecordKeeps(s: State, s': State)
    requires NetworksOk(s) && s'.containers.Keys == s.containers.Keys
    requires forall i :: i in s.containers ==> s'.containers[i].networks == s.containers[i].networks
    requires s'.networks == s.networks && s'.names == s.names && s'.used == s.used
    ensures NetworksOk(s')
  {
  }

  lemma StartKeeps(s: State, id: Id, l: Launch)
    requires NetworksOk(s) && id in s.containers
    ensures NetworksOk(StartStep(s, id, l))
  {
    hide StartContainer, PodStays, NetworksOk;
    StartNetworks(s.containers[id], l, s.now);
    RecordKeeps(s, StartStep(s, id, l));
  }

  lemma RestartKeeps(s: State, id: Id, watched: bool, l: Launch)
    requires NetworksOk(s) && id in s.containers
    ensures NetworksOk(RestartStep(s, id, watched, l))
  {
    hide StartStep, NetworksOk;
    RecordKeeps(s, Halting(s, id));
    StartKeeps(Halting(s, id), id, l);
  }

  lemma ObserveKeeps(s: State, id: Id, pod: Pod, allowed: bool)
    requires NetworksOk(s) && id in s.containers
    ensures NetworksOk(s.(containers := s.containers[id := UpdateStatus(s.containers[id], pod, allowed, s.now)]))
  {
    hide GetContainerStatus, NetworksOk;
    StatusKeeps(s.containers[id], pod);
    RecordKeeps(s, s.(containers := s.containers[id := UpdateStatus(s.containers[id], pod, allowed, s.now)]));
  }

  lemma HaltKeeps(s: State, id: Id, killed: bool)
    requires NetworksOk(s) && id in s.containers
    ensures NetworksOk(HaltStep(s, id, killed))
  {
    hide NetworksOk;
    RecordKeeps(s, HaltStep(s, id, killed));
  }

  lemma ApplyNetworks(s: State, e: Event)
    requires NetworksOk(s)
    ensures NetworksOk(Apply(s, e))
  {
    hide UpdateStatus, StartStep, RestartStep, HaltStep, Attachments, DropNetworks;
    match e
    case Create(_, mode, endpoints) => AttachmentsStored(s, mode, endpoints);
    case NetDelete(ref) =>
      if Resolve(s, ref).Some? && Removable(s, Resolve(s, ref).value) { DropKeeps(s, {Resolve(s, ref).value}); }
    case Prune => DropKeeps(s, set id | id in s.networks && Removable(s, id));
    case Start(id, l) => if id in s.containers { StartKeeps(s, id, l); }
    case Attach(id, _, l) => if id in s.containers { StartKeeps(s, id, l); }
    case Restart(id, watched, l) => if id in s.containers { RestartKeeps(s, id, watched, l); }
    case Stop(id) => if id in s.containers { HaltKeeps(s, id, false); }
    case Kill(id, _) => if id in s.containers { HaltKeeps(s, id, true); }
    case Observe(id, pod, allowed) => if id in s.containers { ObserveKeeps(s, id, pod, allowed); }
    case _ =>
  }

  lemma StartNetworks(c: Record, l: Launch, now: Time)
    ensures StartContainer(c, l, now).record.networks == c.networks
  {
    hide ScanStatuses;
    StatusKeeps(c, l.pod);
  }

  // Over every run, an attached network is a stored network and the predefined
  // names resolve.
  lemma {:induction false} RunNetworks(s: State, es: seq<Event>)
    requires NetworksOk(s)
    ensures NetworksOk(Run(s, es))
  {
    if es != [] {
      RunNetworks(s, es[..|es| - 1]);
      ApplyNetworks(Run(s, es[..|es| - 1]), es[|es| - 1]);
    }
  }

  // All of it, from a fresh database.
  lemma Reachable(s: State, es: seq<Event>)
    requires Init(s)
    ensures AllConsistent(Run(s, es)) && NetworksOk(Run(s, es)) && (HazardFree(s, es) ==> Safe(Run(s, es)))
    ensures forall name :: name in PREDEFINED ==> Resolve(Run(s, es), name).Some?
  {
    RunConsistent(s, es);
    RunNetworks(s, es);
    if HazardFree(s, es) { RunSafe(s, es); }
  }
}
