/**
 The cached key set of the OIDC verifier (internal/auth/oidc.go) as an
 interleaved system: any number of concurrent keyForToken calls, a lock on the
 keys, a mutex around refreshing, a clock, and an issuer whose document changes
 with time.

 One event is one step that other callers can see between: reading under
 the read lock, comparing with the clock, taking the refresh mutex, fetching, and
 committing a new set under the write lock. A run is any sequence of events; an
 event that is not enabled does nothing.
 */
module KeyCache {
  import opened Basics
  import opened KeySet
  import opened Strings

  type Time = int
  type Caller = nat

  const UNKNOWN_KEY_DELAY: Time := 30_000_000_000

  // `interval` is RefreshInterval, positive after normalizeConfig; `bound` is the
  // longest time from fetching a JWKS document to committing it.
  datatype Config = Config(interval: Time, bound: Time)

  ghost predicate ValidConfig(cfg: Config) { cfg.interval > 0 && cfg.bound >= 0 }

  function Delay(cfg: Config, unknown: bool): Time {
    if unknown then UNKNOWN_KEY_DELAY else cfg.interval
  }

  function MinDelay(cfg: Config): Time {
    if cfg.interval < UNKNOWN_KEY_DELAY then cfg.interval else UNKNOWN_KEY_DELAY
  }

  datatype Answer = Found(record: Record) | Untrusted | RefreshFailed

  // How far behind the issuer an answer may be, the time to commit apart.
  function Window(cfg: Config, answer: Answer): Time {
    Delay(cfg, answer.Untrusted?)
  }

  // Where a caller is. `start` is when its call began. `at` records when the key
  // set it looked at was fetched: bookkeeping the program does not have.
  datatype Pc =
    | Idle
    | Begun(kid: string, start: Time)
    | Looked(kid: string, start: Time, found: Option<Record>, last: Time, at: Time)
    | Queued(kid: string, start: Time, unknown: bool)
    | Entered(kid: string, start: Time, unknown: bool)
    | Judging(kid: string, start: Time, unknown: bool, last: Time)
    | Fetching(kid: string, start: Time, unknown: bool)
    | Fetched(kid: string, start: Time, unknown: bool, keys: map<string, Record>, at: Time)
    | Leaving(kid: string, start: Time, failed: bool)
    | Rereading(kid: string, start: Time)
    | Done(kid: string, start: Time, answer: Answer, at: Time)

  // `at` is when the current keys were fetched; `commits` lists the commit times.
  datatype State = State(
    now: Time,
    keys: map<string, Record>,
    last: Time,
    holder: Option<Caller>,
    pcs: map<Caller, Pc>,
    at: Time,
    commits: seq<Time>)
  {
    function Pc(c: Caller): Pc { if c in pcs then pcs[c] else Idle }
    function Move(c: Caller, pc: Pc): State { this.(pcs := pcs[c := pc]) }
  }

  datatype Event =
    | Tick(d: nat)
    | Begin(c: Caller, kid: string)
    | Look(c: Caller)
    | Compare(c: Caller)
    | Lock(c: Caller)
    | ReadLast(c: Caller)
    | Judge(c: Caller)
    | Fetch(c: Caller, ok: bool)
    | Commit(c: Caller)
    | Unlock(c: Caller)
    | Reread(c: Caller)

  function Lookup(keys: map<string, Record>, kid: string): Option<Record> {
    if kid in keys then Some(keys[kid]) else None
  }

  function AnswerOf(found: Option<Record>): Answer {
    match found case Some(r) => Found(r) case None => Untrusted
  }

  function Apply(cfg: Config, issuer: Time -> Document, s: State, e: Event): State {
    match e
    case Tick(d) => s.(now := s.now + d)
    case Begin(c, kid) =>
      if s.Pc(c).Idle? || s.Pc(c).Done? then s.Move(c, Begun(kid, s.now)) else s
    case Look(c) =>
      (match s.Pc(c)
       case Begun(kid, start) => s.Move(c, Looked(kid, start, Lookup(s.keys, kid), s.last, s.at))
       case _ => s)
    case Compare(c) =>
      (match s.Pc(c)
       case Looked(kid, start, found, last, at) =>
         if found.Some? && s.now - last < cfg.interval then s.Move(c, Done(kid, start, AnswerOf(found), at))
         else s.Move(c, Queued(kid, start, found.None?))
       case _ => s)
    case Lock(c) =>
      (match s.Pc(c)
       case Queued(kid, start, unknown) =>
         if s.holder.None? then s.Move(c, Entered(kid, start, unknown)).(holder := Some(c)) else s
       case _ => s)
    case ReadLast(c) =>
      (match s.Pc(c)
       case Entered(kid, start, unknown) => s.Move(c, Judging(kid, start, unknown, s.last))
       case _ => s)
    case Judge(c) =>
      (match s.Pc(c)
       case Judging(kid, start, unknown, last) =>
         if s.now - last < Delay(cfg, unknown) then s.Move(c, Leaving(kid, start, false))
         else s.Move(c, Fetching(kid, start, unknown))
       case _ => s)
    case Fetch(c, ok) =>
      (match s.Pc(c)
       case Fetching(kid, start, unknown) =>
         var parsed := Parsed(issuer(s.now));
         if ok && parsed.Keys? then s.Move(c, Fetched(kid, start, unknown, parsed.keys, s.now))
         else s.Move(c, Leaving(kid, start, true))
       case _ => s)
    case Commit(c) =>
      (match s.Pc(c)
       case Fetched(kid, start, unknown, keys, at) =>
         if s.now - at <= cfg.bound then
           s.Move(c, Leaving(kid, start, false))
            .(keys := keys, last := s.now, at := at, commits := s.commits + [s.now])
         else s
       case _ => s)
    case Unlock(c) =>
      (match s.Pc(c)
       case Leaving(kid, start, failed) =>
         s.Move(c, if failed then Done(kid, start, RefreshFailed, s.at) else Rereading(kid, start))
          .(holder := None)
       case _ => s)
    case Reread(c) =>
      (match s.Pc(c)
       case Rereading(kid, start) => s.Move(c, Done(kid, start, AnswerOf(Lookup(s.keys, kid)), s.at))
       case _ => s)
  }

  // A verifier exists once its first refresh has succeeded.
  ghost predicate Init(cfg: Config, issuer: Time -> Document, s: State) {
    && Parsed(issuer(s.at)) == Keys(s.keys)
    && s.at <= s.last <= s.at + cfg.bound && s.last <= s.now
    && s.holder == None && s.pcs == map[] && s.commits == [s.last]
  }

  function Run(cfg: Config, issuer: Time -> Document, s: State, es: seq<Event>): State {
    if es == [] then s
    else Apply(cfg, issuer, Run(cfg, issuer, s, es[..|es| - 1]), es[|es| - 1])
  }

  // ---------- What every step keeps ----------

  // A key set fetched at `at` and committed at `last`.
  ghost predicate CommittedAt(cfg: Config, at: Time, last: Time) {
    at <= last <= at + cfg.bound
  }

  ghost predicate InMutex(pc: Pc) {
    pc.Entered? || pc.Judging? || pc.Fetching? || pc.Fetched? || pc.Leaving?
  }

  // Late enough that the next commit respects the delay.
  ghost predicate Due(cfg: Config, s: State, unknown: bool) {
    s.now - s.last >= Delay(cfg, unknown)
  }

  // The cache has kid as the caller found it when it looked, or is newer than the call.
  ghost predicate AsSeen(s: State, kid: string, start: Time, unknown: bool) {
    (kid !in s.keys <==> unknown) || s.last >= start
  }

  // The cached set is recent enough to answer a call for kid that began at `start`.
  ghost predicate Recent(cfg: Config, s: State, kid: string, start: Time) {
    s.last > start - Delay(cfg, kid !in s.keys)
  }

  // An answer reflects the issuer at a time within the window and the bound of the call.
  ghost predicate Reflects(cfg: Config, issuer: Time -> Document, kid: string, start: Time, answer: Answer, at: Time) {
    && at > start - Window(cfg, answer) - cfg.bound
    && Parsed(issuer(at)).Keys?
    && answer == AnswerOf(Lookup(Parsed(issuer(at)).keys, kid))
  }

  ghost predicate PcInv(cfg: Config, issuer: Time -> Document, s: State, c: Caller) {
    match s.Pc(c)
    case Idle => true
    case Begun(kid, start) => start <= s.now
    case Looked(kid, start, found, last, at) =>
      && start <= s.now && last <= s.last && at <= s.now && AsSeen(s, kid, start, found.None?)
      && CommittedAt(cfg, at, last)
      && Parsed(issuer(at)).Keys? && found == Lookup(Parsed(issuer(at)).keys, kid)
    case Queued(kid, start, unknown) => start <= s.now && AsSeen(s, kid, start, unknown)
    case Entered(kid, start, unknown) => start <= s.now && AsSeen(s, kid, start, unknown)
    case Judging(kid, start, unknown, last) => start <= s.now && last == s.last && AsSeen(s, kid, start, unknown)
    case Fetching(_, start, unknown) => start <= s.now && Due(cfg, s, unknown)
    case Fetched(_, start, unknown, keys, at) =>
      start <= at <= s.now && Due(cfg, s, unknown) && Parsed(issuer(at)) == Keys(keys)
    case Leaving(kid, start, failed) => start <= s.now && (!failed ==> Recent(cfg, s, kid, start))
    case Rereading(kid, start) => start <= s.now && Recent(cfg, s, kid, start)
    case Done(kid, start, answer, at) =>
      start <= s.now && at <= s.now && (answer.RefreshFailed? || Reflects(cfg, issuer, kid, start, answer, at))
  }

  ghost predicate Spaced(cfg: Config, ts: seq<Time>) {
    forall i :: 0 <= i < |ts| - 1 ==> ts[i + 1] - ts[i] >= MinDelay(cfg)
  }

  ghost predicate Inv(cfg: Config, issuer: Time -> Document, s: State) {
    && Parsed(issuer(s.at)) == Keys(s.keys)
    && CommittedAt(cfg, s.at, s.last) && s.last <= s.now
    && s.commits != [] && s.commits[|s.commits| - 1] == s.last && Spaced(cfg, s.commits)
    && (forall c: Caller :: InMutex(s.Pc(c)) <==> s.holder == Some(c))
    && (forall c: Caller :: PcInv(cfg, issuer, s, c))
  }

  // A caller that does not move keeps its facts while time passes and, unless it
  // holds the mutex, while others commit.
  lemma PcKept(cfg: Config, issuer: Time -> Document, s: State, s': State, c: Caller)
    requires ValidConfig(cfg) && PcInv(cfg, issuer, s, c) && s'.Pc(c) == s.Pc(c)
    requires s'.now >= s.now && s'.last >= s.last && (s'.keys == s.keys || s'.last >= s.now)
    requires InMutex(s.Pc(c)) ==> s'.last == s.last
    ensures PcInv(cfg, issuer, s', c)
  {
    hide Parsed;
  }

  lemma InitInv(cfg: Config, issuer: Time -> Document, s: State)
    requires Init(cfg, issuer, s)
    ensures Inv(cfg, issuer, s)
  {
    hide Parsed;
  }

  // The caller that moves.
  lemma MoverKept(cfg: Config, issuer: Time -> Document, s: State, e: Event)
    requires ValidConfig(cfg) && Inv(cfg, issuer, s) && !e.Tick?
    ensures PcInv(cfg, issuer, Apply(cfg, issuer, s, e), e.c)
    ensures var s' := Apply(cfg, issuer, s, e); InMutex(s'.Pc(e.c)) <==> s'.holder == Some(e.c)
  {
    hide Parsed;
    assert PcInv(cfg, issuer, s, e.c);
    assert InMutex(s.Pc(e.c)) <==> s.holder == Some(e.c);
  }

  lemma CacheKept(cfg: Config, issuer: Time -> Document, s: State, e: Event)
    requires ValidConfig(cfg) && Inv(cfg, issuer, s)
    ensures var s' := Apply(cfg, issuer, s, e);
            && Parsed(issuer(s'.at)) == Keys(s'.keys)
            && CommittedAt(cfg, s'.at, s'.last) && s.last <= s'.last <= s'.now && s.now <= s'.now
            && (s'.keys == s.keys || s'.last >= s.now)
            && s'.commits != [] && s'.commits[|s'.commits| - 1] == s'.last && Spaced(cfg, s'.commits)
  {
    hide Parsed;
    if !e.Tick? { assert PcInv(cfg, issuer, s, e.c); }
  }

  // What a step leaves alone: the other callers, and, outside the mutex, the cache.
  lemma StepFrame(cfg: Config, issuer: Time -> Document, s: State, e: Event, c: Caller)
    requires e.Tick? || e.c != c
    ensures var s' := Apply(cfg, issuer, s, e);
            && s'.Pc(c) == s.Pc(c)
            && (s'.last == s.last || (!e.Tick? && InMutex(s.Pc(e.c))))
            && (|| s'.holder == s.holder
                || (!e.Tick? && s.holder == None && s'.holder == Some(e.c))
                || (!e.Tick? && InMutex(s.Pc(e.c)) && s'.holder == None))
  {
    hide Parsed;
  }

  lemma ApplyKeepsInv(cfg: Config, issuer: Time -> Document, s: State, e: Event)
    requires ValidConfig(cfg) && Inv(cfg, issuer, s)
    ensures Inv(cfg, issuer, Apply(cfg, issuer, s, e))
  {
    hide Parsed, Apply;
    var s' := Apply(cfg, issuer, s, e);
    CacheKept(cfg, issuer, s, e);
    if !e.Tick? { MoverKept(cfg, issuer, s, e); }
    forall c: Caller | e.Tick? || c != e.c
      ensures PcInv(cfg, issuer, s', c) && (InMutex(s'.Pc(c)) <==> s'.holder == Some(c))
    {
      assert InMutex(s.Pc(c)) <==> s.holder == Some(c);
      if !e.Tick? { assert InMutex(s.Pc(e.c)) <==> s.holder == Some(e.c); }
      StepFrame(cfg, issuer, s, e, c);
      PcKept(cfg, issuer, s, s', c);
    }
  }

  lemma {:induction false} RunFromInv(cfg: Config, issuer: Time -> Document, s: State, es: seq<Event>)
    requires ValidConfig(cfg) && Inv(cfg, issuer, s)
    ensures Inv(cfg, issuer, Run(cfg, issuer, s, es))
  {
    if es != [] {
      RunFromInv(cfg, issuer, s, es[..|es| - 1]);
      ApplyKeepsInv(cfg, issuer, Run(cfg, issuer, s, es[..|es| - 1]), es[|es| - 1]);
    }
  }

  lemma RunKeepsInv(cfg: Config, issuer: Time -> Document, s: State, es: seq<Event>)
    requires ValidConfig(cfg) && Init(cfg, issuer, s)
    ensures Inv(cfg, issuer, Run(cfg, issuer, s, es))
  {
    InitInv(cfg, issuer, s);
    RunFromInv(cfg, issuer, s, es);
  }

  // ---------- Bounded staleness ----------

  // In every interleaving, a completed call answers as the issuer's own document
  // would have at some time later than the window and the bound before the call began:
  // RefreshInterval for a key that is found, 30 seconds for one that is not.
  lemma BoundedStaleness(cfg: Config, issuer: Time -> Document, s: State, es: seq<Event>, c: Caller)
    requires ValidConfig(cfg) && Init(cfg, issuer, s)
    requires Run(cfg, issuer, s, es).Pc(c).Done?
    ensures var d := Run(cfg, issuer, s, es).Pc(c);
            d.answer.RefreshFailed? ||
            (Reflects(cfg, issuer, d.kid, d.start, d.answer, d.at) && d.at <= Run(cfg, issuer, s, es).now)
  {
    RunKeepsInv(cfg, issuer, s, es);
    assert PcInv(cfg, issuer, Run(cfg, issuer, s, es), c);
  }

  // The issuer no longer offers `record` under `kid` from time t on.
  ghost predicate Withdrawn(issuer: Time -> Document, kid: string, record: Record, t: Time) {
    forall u :: u >= t && Parsed(issuer(u)).Keys? ==> Lookup(Parsed(issuer(u)).keys, kid) != Some(record)
  }

  // The issuer offers some key under `kid` from time t on.
  ghost predicate Published(issuer: Time -> Document, kid: string, t: Time) {
    forall u :: u >= t && Parsed(issuer(u)).Keys? ==> kid in Parsed(issuer(u)).keys
  }

  lemma WithdrawnNeverReturned(cfg: Config, issuer: Time -> Document, s: State, es: seq<Event>, c: Caller,
                               record: Record, t: Time)
    requires ValidConfig(cfg) && Init(cfg, issuer, s)
    requires Run(cfg, issuer, s, es).Pc(c).Done?
    requires Withdrawn(issuer, Run(cfg, issuer, s, es).Pc(c).kid, record, t)
    requires Run(cfg, issuer, s, es).Pc(c).start > t + cfg.bound + cfg.interval - 2
    ensures Run(cfg, issuer, s, es).Pc(c).answer != Found(record)
  {
    hide Parsed, Run;
    BoundedStaleness(cfg, issuer, s, es, c);
  }

  lemma PublishedNeverUntrusted(cfg: Config, issuer: Time -> Document, s: State, es: seq<Event>, c: Caller, t: Time)
    requires ValidConfig(cfg) && Init(cfg, issuer, s)
    requires Run(cfg, issuer, s, es).Pc(c).Done?
    requires Published(issuer, Run(cfg, issuer, s, es).Pc(c).kid, t)
    requires Run(cfg, issuer, s, es).Pc(c).start > t + cfg.bound + 30_000_000_000 - 2
    ensures Run(cfg, issuer, s, es).Pc(c).answer != Untrusted
  {
    hide Parsed, Run;
    BoundedStaleness(cfg, issuer, s, es, c);
  }

  // A verifier whose keys were fetched at t - 1 and committed as late as allowed, and
  // a call that begins `wait` after that.
  function LateStart(cfg: Config, issuer: Time -> Document, t: Time): State
    requires Parsed(issuer(t - 1)).Keys?
  {
    var last := t - 1 + cfg.bound;
    State(last, Parsed(issuer(t - 1)).keys, last, None, map[], t - 1, [last])
  }

  lemma LateCall(cfg: Config, issuer: Time -> Document, kid: string, t: Time, wait: nat)
    requires ValidConfig(cfg) && Parsed(issuer(t - 1)).Keys?
    ensures var s := LateStart(cfg, issuer, t);
            && Init(cfg, issuer, s)
            && Run(cfg, issuer, s, [Tick(wait), Begin(0, kid), Look(0)])
                 == s.(now := s.now + wait)
                     .Move(0, Begun(kid, s.now + wait))
                     .Move(0, Looked(kid, s.now + wait, Lookup(s.keys, kid), s.last, t - 1))
  {
    hide Parsed;
    var s := LateStart(cfg, issuer, t);
    var e1 := [Tick(wait)];
    var e2 := e1 + [Begin(0, kid)];
    var e3 := e2 + [Look(0)];
    assert e1[..0] == [] && e2[..1] == e1 && e3[..2] == e2;
    assert e3 == [Tick(wait), Begin(0, kid), Look(0)];
    assert Run(cfg, issuer, s, e1) == s.(now := s.now + wait);
    assert Run(cfg, issuer, s, e2) == s.(now := s.now + wait).Move(0, Begun(kid, s.now + wait));
  }

  // The bound for withdrawn keys is exact: one clock unit earlier, a key fetched just
  // before it was withdrawn and committed `bound` later is still returned.
  lemma StalenessTight(cfg: Config, issuer: Time -> Document, kid: string, record: Record, t: Time)
    requires ValidConfig(cfg)
    requires Parsed(issuer(t - 1)).Keys? && Lookup(Parsed(issuer(t - 1)).keys, kid) == Some(record)
    ensures exists s: State, es: seq<Event> ::
              && Init(cfg, issuer, s)
              && Run(cfg, issuer, s, es).Pc(0) == Done(kid, t + cfg.bound + cfg.interval - 2, Found(record), t - 1)
  {
    hide Parsed;
    var s := LateStart(cfg, issuer, t);
    var es := [Tick(cfg.interval - 1), Begin(0, kid), Look(0)];
    LateCall(cfg, issuer, kid, t, cfg.interval - 1);
    hide Run;
    RunNext(cfg, issuer, s, es, Compare(0));
    assert Run(cfg, issuer, s, es + [Compare(0)]).Pc(0).Done?;
  }

  // So is the bound for published ones: a call for a key that appeared just after the
  // fetch is turned away until 30 seconds after the commit.
  lemma UntrustedTight(cfg: Config, issuer: Time -> Document, kid: string, t: Time)
    requires ValidConfig(cfg) && Parsed(issuer(t - 1)).Keys? && kid !in Parsed(issuer(t - 1)).keys
    ensures exists s: State, es: seq<Event> ::
              && Init(cfg, issuer, s)
              && Run(cfg, issuer, s, es).Pc(0) == Done(kid, t + cfg.bound + 30_000_000_000 - 2, Untrusted, t - 1)
  {
    hide Parsed;
    var s := LateStart(cfg, issuer, t);
    var wait := UNKNOWN_KEY_DELAY - 1;
    var es := [Tick(wait), Begin(0, kid), Look(0)];
    LateCall(cfg, issuer, kid, t, wait);
    var looked := Run(cfg, issuer, s, es);
    hide Run;
    RunConcat(cfg, issuer, s, es, TurnedAway());
    TurnedAwayRuns(cfg, issuer, looked, kid);
    assert Run(cfg, issuer, s, es + TurnedAway()).Pc(0).Done?;
  }

  function TurnedAway(): seq<Event> {
    [Compare(0), Lock(0), ReadLast(0)] + [Judge(0), Unlock(0), Reread(0)]
  }

  function Then3(cfg: Config, issuer: Time -> Document, s: State, e: Event, f: Event, g: Event): State {
    Apply(cfg, issuer, Apply(cfg, issuer, Apply(cfg, issuer, s, e), f), g)
  }

  lemma RunThree(cfg: Config, issuer: Time -> Document, s: State, e: Event, f: Event, g: Event)
    ensures Run(cfg, issuer, s, [e, f, g]) == Then3(cfg, issuer, s, e, f, g)
  {
    hide Apply;
    assert [e, f, g] == [] + [e] + [f] + [g];
    assert Run(cfg, issuer, s, []) == s;
    RunNext(cfg, issuer, s, [], e);
    RunNext(cfg, issuer, s, [] + [e], f);
    RunNext(cfg, issuer, s, [] + [e] + [f], g);
  }

  lemma TurnedAwayRuns(cfg: Config, issuer: Time -> Document, s: State, kid: string)
    requires s.holder == None && s.now - s.last < UNKNOWN_KEY_DELAY && kid !in s.keys
    requires s.Pc(0).Looked? && s.Pc(0).kid == kid && s.Pc(0).found == None
    ensures Run(cfg, issuer, s, TurnedAway()).Pc(0) == Done(kid, s.Pc(0).start, Untrusted, s.at)
  {
    hide Parsed, Run, Then3;
    var enter, leave := [Compare(0), Lock(0), ReadLast(0)], [Judge(0), Unlock(0), Reread(0)];
    RunThree(cfg, issuer, s, Compare(0), Lock(0), ReadLast(0));
    QueuedEnters(cfg, issuer, s);
    var judging := Run(cfg, issuer, s, enter);
    RunThree(cfg, issuer, judging, Judge(0), Unlock(0), Reread(0));
    JudgedLeaves(cfg, issuer, judging);
    RunConcat(cfg, issuer, s, enter, leave);
  }

  lemma QueuedEnters(cfg: Config, issuer: Time -> Document, s: State)
    requires s.holder == None && s.Pc(0).Looked? && s.Pc(0).found == None
    ensures var j := Then3(cfg, issuer, s, Compare(0), Lock(0), ReadLast(0));
            && j == s.(pcs := j.pcs, holder := Some(0))
            && j.Pc(0) == Judging(s.Pc(0).kid, s.Pc(0).start, true, s.last)
  {
    hide Parsed;
  }

  lemma JudgedLeaves(cfg: Config, issuer: Time -> Document, s: State)
    requires s.Pc(0).Judging? && s.Pc(0).unknown && s.now - s.Pc(0).last < UNKNOWN_KEY_DELAY && s.Pc(0).kid !in s.keys
    ensures Then3(cfg, issuer, s, Judge(0), Unlock(0), Reread(0)).Pc(0)
         == Done(s.Pc(0).kid, s.Pc(0).start, Untrusted, s.at)
  {
    hide Parsed;
  }

  // ---------- Refreshing works ----------

  // A fetch of c that cannot succeed: the issuer is not reached or its document is not
  // accepted.
  ghost predicate FailingFetch(cfg: Config, issuer: Time -> Document, s: State, e: Event, c: Caller) {
    e.Fetch? && e.c == c && s.Pc(c).Fetching? && (!e.ok || Parsed(issuer(s.now)).Rejected?)
  }

  ghost predicate HasFailed(pc: Pc) {
    (pc.Leaving? && pc.failed) || (pc.Done? && pc.answer.RefreshFailed?)
  }

  ghost predicate FetchFailed(cfg: Config, issuer: Time -> Document, s: State, es: seq<Event>, c: Caller) {
    exists i :: 0 <= i < |es| && FailingFetch(cfg, issuer, Run(cfg, issuer, s, es[..i]), es[i], c)
  }

  lemma FailsInFetch(cfg: Config, issuer: Time -> Document, s: State, e: Event, c: Caller)
    requires !HasFailed(s.Pc(c))
    ensures HasFailed(Apply(cfg, issuer, s, e).Pc(c)) <==> FailingFetch(cfg, issuer, s, e, c)
  {
    hide Parsed;
  }

  // A call fails only because one of its caller's fetches could not succeed.
  lemma {:induction false} FailureHasCause(cfg: Config, issuer: Time -> Document, s: State, es: seq<Event>, c: Caller)
    requires Init(cfg, issuer, s)
    ensures HasFailed(Run(cfg, issuer, s, es).Pc(c)) ==> FetchFailed(cfg, issuer, s, es, c)
  {
    hide Apply, FailingFetch, Parsed;
    if es != [] {
      var n := |es| - 1;
      var front := es[..n];
      if HasFailed(Run(cfg, issuer, s, front).Pc(c)) {
        FailureHasCause(cfg, issuer, s, front, c);
        var i :| 0 <= i < n && FailingFetch(cfg, issuer, Run(cfg, issuer, s, front[..i]), front[i], c);
        assert front[..i] == es[..i] && front[i] == es[i];
      } else {
        FailsInFetch(cfg, issuer, Run(cfg, issuer, s, front), es[n], c);
      }
    }
  }

  // With an issuer that is always reached and always serves an acceptable document, no
  // call fails.
  lemma NeverFails(cfg: Config, issuer: Time -> Document, s: State, es: seq<Event>, c: Caller)
    requires Init(cfg, issuer, s) && forall t :: Parsed(issuer(t)).Keys?
    requires forall i :: 0 <= i < |es| && es[i].Fetch? && es[i].c == c ==> es[i].ok
    ensures !HasFailed(Run(cfg, issuer, s, es).Pc(c))
  {
    hide Run, Parsed, HasFailed;
    FailureHasCause(cfg, issuer, s, es, c);
  }

  // A call that finds its key too old, or not at all, after the delay for that.
  function Refreshing(c: Caller, kid: string, wait: nat, d: nat): seq<Event> {
    [Begin(c, kid), Look(c), Compare(c)] + [Lock(c), ReadLast(c), Judge(c)]
    + [Tick(wait), Fetch(c, true), Tick(d)] + [Commit(c), Unlock(c), Reread(c)]
  }

  // Undisturbed, it commits the issuer's document of the time it fetched, which is after
  // the call began, and answers from that.
  lemma RefreshAnswers(cfg: Config, issuer: Time -> Document, s: State, c: Caller, kid: string, wait: nat, d: nat)
    requires ValidConfig(cfg) && s.holder == None && (s.Pc(c).Idle? || s.Pc(c).Done?) && d <= cfg.bound
    requires s.now - s.last >= if kid in s.keys then cfg.interval else 30_000_000_000
    requires Parsed(issuer(s.now + wait)).Keys?
    ensures var keys := Parsed(issuer(s.now + wait)).keys;
            var s' := Run(cfg, issuer, s, Refreshing(c, kid, wait, d));
            && s'.Pc(c) == Done(kid, s.now, if kid in keys then Found(keys[kid]) else Untrusted, s.now + wait)
            && s'.keys == keys && s'.last == s.now + wait + d && s'.holder == None
  {
    hide Parsed, Run, Then3;
    var a, b := [Begin(c, kid), Look(c), Compare(c)], [Lock(c), ReadLast(c), Judge(c)];
    var f, g := [Tick(wait), Fetch(c, true), Tick(d)], [Commit(c), Unlock(c), Reread(c)];
    RunConcat(cfg, issuer, s, a + b + f, g);
    RunConcat(cfg, issuer, s, a + b, f);
    RunConcat(cfg, issuer, s, a, b);
    var s1 := Run(cfg, issuer, s, a);
    RunThree(cfg, issuer, s, Begin(c, kid), Look(c), Compare(c));
    Queues(cfg, issuer, s, c, kid);
    var s2 := Run(cfg, issuer, s1, b);
    RunThree(cfg, issuer, s1, Lock(c), ReadLast(c), Judge(c));
    Admits(cfg, issuer, s1, c);
    var s3 := Run(cfg, issuer, s2, f);
    RunThree(cfg, issuer, s2, Tick(wait), Fetch(c, true), Tick(d));
    Fetches(cfg, issuer, s2, c, wait, d);
    RunThree(cfg, issuer, s3, Commit(c), Unlock(c), Reread(c));
    Commits(cfg, issuer, s3, c);
  }

  // Everything but where the callers are.
  ghost predicate SameCache(s: State, s': State) {
    s'.now == s.now && s'.keys == s.keys && s'.last == s.last && s'.at == s.at && s'.holder == s.holder
  }

  lemma Queues(cfg: Config, issuer: Time -> Document, s: State, c: Caller, kid: string)
    requires s.Pc(c).Idle? || s.Pc(c).Done?
    requires s.now - s.last >= if kid in s.keys then cfg.interval else 30_000_000_000
    ensures var s' := Then3(cfg, issuer, s, Begin(c, kid), Look(c), Compare(c));
            SameCache(s, s') && s'.Pc(c) == Queued(kid, s.now, kid !in s.keys)
  {
    hide Parsed;
  }

  lemma Admits(cfg: Config, issuer: Time -> Document, s: State, c: Caller)
    requires s.holder == None && s.Pc(c).Queued?
    requires s.now - s.last >= if s.Pc(c).unknown then 30_000_000_000 else cfg.interval
    ensures var s' := Then3(cfg, issuer, s, Lock(c), ReadLast(c), Judge(c));
            && SameCache(s.(holder := Some(c)), s')
            && s'.Pc(c) == Fetching(s.Pc(c).kid, s.Pc(c).start, s.Pc(c).unknown)
  {
    hide Parsed;
  }

  lemma Fetches(cfg: Config, issuer: Time -> Document, s: State, c: Caller, wait: nat, d: nat)
    requires s.Pc(c).Fetching? && Parsed(issuer(s.now + wait)).Keys?
    ensures var s' := Then3(cfg, issuer, s, Tick(wait), Fetch(c, true), Tick(d));
            && SameCache(s.(now := s.now + wait + d), s')
            && s'.Pc(c) == Fetched(s.Pc(c).kid, s.Pc(c).start, s.Pc(c).unknown,
                                   Parsed(issuer(s.now + wait)).keys, s.now + wait)
  {
    hide Parsed;
  }

  lemma Commits(cfg: Config, issuer: Time -> Document, s: State, c: Caller)
    requires s.Pc(c).Fetched? && s.now - s.Pc(c).at <= cfg.bound
    ensures var pc, s' := s.Pc(c), Then3(cfg, issuer, s, Commit(c), Unlock(c), Reread(c));
            && s'.keys == pc.keys && s'.last == s.now && s'.holder == None
            && s'.Pc(c) == Done(pc.kid, pc.start,
                                if pc.kid in pc.keys then Found(pc.keys[pc.kid]) else Untrusted, pc.at)
  {
    hide Parsed;
  }

  // ---------- Refresh rate ----------

  function InWindow(ts: seq<Time>, lo: Time, hi: Time): nat {
    if ts == [] then 0
    else InWindow(ts[..|ts| - 1], lo, hi) + (if lo <= ts[|ts| - 1] <= hi then 1 else 0)
  }

  lemma {:induction false} SpacedWindow(cfg: Config, ts: seq<Time>, lo: Time, hi: Time)
    requires ValidConfig(cfg) && Spaced(cfg, ts) && lo <= hi
    ensures InWindow(ts, lo, hi) == 0 ||
            (ts != [] && (InWindow(ts, lo, hi) - 1) * MinDelay(cfg) <= Min(ts[|ts| - 1], hi) - lo)
  {
    if ts != [] {
      var n := |ts| - 1;
      var front := ts[..n];
      assert forall i :: 0 <= i < n ==> front[i] == ts[i];
      SpacedWindow(cfg, front, lo, hi);
      var before := InWindow(front, lo, hi);
      var m := MinDelay(cfg);
      if n > 0 { assert ts[n] - ts[n - 1] >= m; }
      if before > 0 {
        assert ts[n - 1] <= ts[n];
        if lo <= ts[n] <= hi {
          assert (before - 1) * m <= ts[n - 1] - lo;
          assert (before + 1 - 1) * m == (before - 1) * m + m;
        }
      }
    }
  }

  function Min(a: Time, b: Time): Time { if a < b then a else b }

  // Key sets are committed at least min(RefreshInterval, 30s) apart, so a window
  // of length w sees at most w / min + 1 commits.
  lemma CommitRate(cfg: Config, issuer: Time -> Document, s: State, es: seq<Event>, lo: Time, w: nat)
    requires ValidConfig(cfg) && Init(cfg, issuer, s)
    ensures var ts, least := Run(cfg, issuer, s, es).commits,
                             if cfg.interval < 30_000_000_000 then cfg.interval else 30_000_000_000;
            && (forall i :: 0 <= i < |ts| - 1 ==> ts[i + 1] - ts[i] >= least)
            && InWindow(ts, lo, lo + w) <= w / least + 1
  {
    hide Run, Parsed, InWindow;
    RunKeepsInv(cfg, issuer, s, es);
    var ts := Run(cfg, issuer, s, es).commits;
    hide Inv, PcInv, Spaced;
    SpacedWindow(cfg, ts, lo, lo + w);
    var n := InWindow(ts, lo, lo + w);
    if n > 0 { DivBound(n - 1, MinDelay(cfg), w); }
  }

  lemma DivBound(k: nat, m: int, w: nat)
    requires m > 0 && k * m <= w
    ensures k <= w / m
  {
    var q := w / m;
    assert w < q * m + m;
    assert (k - q) * m < m;
    Cancel(k - q, m);
  }

  lemma Cancel(a: int, m: int)
    requires m > 0 && a * m < m
    ensures a < 1
  {
  }

  // The keys, their age and the commit history change only together, in Commit;
  // in particular a failed refresh changes none of them.
  lemma CacheChangesTogether(cfg: Config, issuer: Time -> Document, s: State, e: Event)
    ensures var s' := Apply(cfg, issuer, s, e);
            (s'.keys == s.keys && s'.last == s.last && s'.commits == s.commits)
            || (e.Commit? && s.Pc(e.c).Fetched? && s'.keys == s.Pc(e.c).keys
                && s'.last == s.now && s'.commits == s.commits + [s.now])
  {
  }

  // ---------- The verifier ----------

  // Events of the clock and of callers other than c.
  ghost predicate NotOf(c: Caller, es: seq<Event>) {
    forall i :: 0 <= i < |es| ==> es[i].Tick? || es[i].c != c
  }

  lemma RunNext(cfg: Config, issuer: Time -> Document, s: State, es: seq<Event>, e: Event)
    ensures Run(cfg, issuer, s, es + [e]) == Apply(cfg, issuer, Run(cfg, issuer, s, es), e)
  {
    hide Apply;
    assert (es + [e])[..|es|] == es;
  }

  lemma {:induction false} RunConcat(cfg: Config, issuer: Time -> Document, s: State, a: seq<Event>, b: seq<Event>)
    ensures Run(cfg, issuer, s, a + b) == Run(cfg, issuer, Run(cfg, issuer, s, a), b)
  {
    hide Apply;
    if b == [] {
      assert a + b == a;
    } else {
      var n := |b| - 1;
      RunConcat(cfg, issuer, s, a, b[..n]);
      RunNext(cfg, issuer, s, a + b[..n], b[n]);
      assert a + b == a + b[..n] + [b[n]];
    }
  }

  lemma {:induction false} RunForward(cfg: Config, issuer: Time -> Document, s: State, es: seq<Event>)
    ensures Run(cfg, issuer, s, es).now >= s.now
  {
    hide Parsed;
    if es != [] {
      RunForward(cfg, issuer, s, es[..|es| - 1]);
      StepForward(cfg, issuer, Run(cfg, issuer, s, es[..|es| - 1]), es[|es| - 1]);
      hide Apply;
    }
  }

  lemma StepForward(cfg: Config, issuer: Time -> Document, s: State, e: Event)
    ensures Apply(cfg, issuer, s, e).now >= s.now
  {
    hide Parsed;
  }

  // The issuer could not be reached, or served a document between the two times that is
  // not accepted.
  ghost predicate Unlucky(issuer: Time -> Document, reached: bool, start: Time, end: Time) {
    !reached || exists t :: start <= t <= end && Parsed(issuer(t)).Rejected?
  }

  lemma Widen(issuer: Time -> Document, reached: bool, start: Time, end: Time, before: Time, after: Time)
    requires before <= start && end <= after
    ensures Unlucky(issuer, reached, start, end) ==> Unlucky(issuer, reached, before, after)
  {
    hide Parsed;
  }

  lemma {:induction false} OthersKeep(cfg: Config, issuer: Time -> Document, s: State, es: seq<Event>, c: Caller)
    requires NotOf(c, es)
    ensures Run(cfg, issuer, s, es).Pc(c) == s.Pc(c)
  {
    hide Apply;
    if es != [] {
      var n := |es| - 1;
      OthersKeep(cfg, issuer, s, es[..n], c);
      StepFrame(cfg, issuer, Run(cfg, issuer, s, es[..n]), es[n], c);
    }
  }

  datatype Refresh = Refreshed | FailedRefresh | Waiting

  // What a token is answered with.
  datatype Verdict = Verified(key: Key) | NoKeyId | NotTrusted | WrongAlgorithm | NoRefresh

  // The verifier's fields, with the bookkeeping of the step system beside them.
  class Verifier {
    const cfg: Config
    const issuer: Time -> Document
    var now: Time
    var keys: map<string, Record>
    var lastRefresh: Time
    var refreshMu: Option<Caller>
    var pcs: map<Caller, Pc>
    var at: Time
    var commits: seq<Time>

    function View(): State
      reads this
    {
      State(now, keys, lastRefresh, refreshMu, pcs, at, commits)
    }

    // New: the first refresh, fetched at `at`, has to succeed.
    constructor (cfg: Config, issuer: Time -> Document, at: Time, now: Time)
      requires Parsed(issuer(at)).Keys? && at <= now <= at + cfg.bound
      ensures this.cfg == cfg && this.issuer == issuer && Init(cfg, issuer, View())
    {
      this.cfg, this.issuer, this.now, this.at := cfg, issuer, now, at;
      keys, lastRefresh := Parsed(issuer(at)).keys, now;
      refreshMu, pcs, commits := None, map[], [now];
    }

    // The caller's own run so far, everybody's steps included.
    ghost predicate After(before: State, es: seq<Event>)
      reads this
    {
      View() == Run(cfg, issuer, before, es)
    }

    // The caller waits for somebody else's refresh, or has waited too long for a reply.
    ghost predicate Held(c: Caller)
      reads this
    {
      var pc := View().Pc(c);
      (pc.Queued? && refreshMu.Some?) || (pc.Fetched? && now - pc.at > cfg.bound)
    }

    // Between two steps of one caller the others take any steps.
    method Others(c: Caller, es: seq<Event>, ghost before: State, ghost done: seq<Event>)
      requires NotOf(c, es) && After(before, done)
      modifies this
      ensures After(before, done + es) && View().Pc(c) == old(View()).Pc(c) && now >= old(now)
    {
      RunForward(cfg, issuer, View(), es);
      hide Run;
      OthersKeep(cfg, issuer, View(), es, c);
      RunConcat(cfg, issuer, before, done, es);
      var s := Run(cfg, issuer, View(), es);
      now, keys, lastRefresh, refreshMu := s.now, s.keys, s.last, s.holder;
      pcs, at, commits := s.pcs, s.at, s.commits;
    }

    // The sections of the code, each one step of the system.

    method BeginCall(c: Caller, kid: string, ghost before: State, ghost done: seq<Event>)
      requires After(before, done) && (View().Pc(c).Idle? || View().Pc(c).Done?)
      modifies this
      ensures now == old(now)
      ensures After(before, done + [Begin(c, kid)]) && View().Pc(c) == Begun(kid, old(now))
    {
      hide Run, Parsed;
      RunNext(cfg, issuer, before, done, Begin(c, kid));
      pcs := pcs[c := Begun(kid, now)];
    }

    method ReadCache(c: Caller, kid: string, ghost before: State, ghost done: seq<Event>)
      returns (found: Option<Record>, last: Time)
      requires After(before, done) && View().Pc(c).Begun? && View().Pc(c).kid == kid
      modifies this
      ensures now == old(now)
      ensures After(before, done + [Look(c)])
      ensures View().Pc(c) == Looked(kid, old(View()).Pc(c).start, found, last, at)
    {
      hide Run, Parsed;
      RunNext(cfg, issuer, before, done, Look(c));
      found, last := Lookup(keys, kid), lastRefresh;
      pcs := pcs[c := Looked(kid, pcs[c].start, found, last, at)];
    }

    // Whether the cached entry can be used as it is.
    method UseCached(c: Caller, found: Option<Record>, last: Time, ghost before: State, ghost done: seq<Event>)
      returns (use: bool)
      requires After(before, done)
      requires View().Pc(c).Looked? && View().Pc(c).found == found && View().Pc(c).last == last
      modifies this
      ensures now == old(now)
      ensures After(before, done + [Compare(c)])
      ensures var pc := old(View()).Pc(c);
              View().Pc(c) == if use then Done(pc.kid, pc.start, AnswerOf(found), pc.at)
                              else Queued(pc.kid, pc.start, found.None?)
      ensures use ==> found.Some?
    {
      hide Run, Parsed;
      RunNext(cfg, issuer, before, done, Compare(c));
      var pc := pcs[c];
      use := found.Some? && now - last < cfg.interval;
      pcs := pcs[c := if use then Done(pc.kid, pc.start, Found(found.value), pc.at)
                      else Queued(pc.kid, pc.start, found.None?)];
    }

    method Acquire(c: Caller, ghost before: State, ghost done: seq<Event>) returns (got: bool)
      requires After(before, done) && View().Pc(c).Queued?
      modifies this
      ensures now == old(now)
      ensures got <==> old(refreshMu).None?
      ensures !got ==> After(before, done) && View() == old(View())
      ensures got ==> After(before, done + [Lock(c)])
      ensures var pc := old(View()).Pc(c); got ==> View().Pc(c) == Entered(pc.kid, pc.start, pc.unknown)
    {
      hide Run, Parsed;
      if refreshMu.Some? { return false; }
      RunNext(cfg, issuer, before, done, Lock(c));
      var pc := pcs[c];
      refreshMu, pcs := Some(c), pcs[c := Entered(pc.kid, pc.start, pc.unknown)];
      return true;
    }

    // Whether the last refresh is too recent for another.
    method TooSoon(c: Caller, unknown: bool, others: nat -> seq<Event>, ghost before: State, ghost done: seq<Event>)
      returns (skip: bool, ghost es: seq<Event>)
      requires forall i :: NotOf(c, others(i))
      requires After(before, done) && View().Pc(c).Entered? && View().Pc(c).unknown == unknown
      modifies this
      ensures now >= old(now)
      ensures After(before, es)
      ensures var pc := old(View()).Pc(c);
              View().Pc(c) == if skip then Leaving(pc.kid, pc.start, false) else Fetching(pc.kid, pc.start, unknown)
    {
      hide Run, Parsed;
      var last := lastRefresh;
      RunNext(cfg, issuer, before, done, ReadLast(c));
      var pc := pcs[c];
      pcs, es := pcs[c := Judging(pc.kid, pc.start, unknown, last)], done + [ReadLast(c)];
      Others(c, others(1), before, es);
      es := es + others(1);
      RunNext(cfg, issuer, before, es, Judge(c));
      var delay := if unknown then UNKNOWN_KEY_DELAY else cfg.interval;
      skip, es := now - last < delay, es + [Judge(c)];
      pcs := pcs[c := if skip then Leaving(pc.kid, pc.start, false) else Fetching(pc.kid, pc.start, unknown)];
    }

    // Asks the issuer; None is a failure.
    method FetchKeys(c: Caller, reached: bool, ghost before: State, ghost done: seq<Event>)
      returns (fetched: Option<map<string, Record>>)
      requires After(before, done) && View().Pc(c).Fetching?
      modifies this
      ensures now == old(now)
      ensures fetched.None? <==> !reached || Parsed(issuer(now)).Rejected?
      ensures fetched.Some? ==> Parsed(issuer(now)) == Keys(fetched.value)
      ensures After(before, done + [Fetch(c, reached)])
      ensures var pc := old(View()).Pc(c);
              match fetched
              case None => View().Pc(c) == Leaving(pc.kid, pc.start, true)
              case Some(keys) => View().Pc(c) == Fetched(pc.kid, pc.start, pc.unknown, keys, now)
    {
      hide Run, Parsed;
      RunNext(cfg, issuer, before, done, Fetch(c, reached));
      var pc, parsed := pcs[c], Parsed(issuer(now));
      if !reached || parsed.Rejected? {
        pcs := pcs[c := Leaving(pc.kid, pc.start, true)];
        return None;
      }
      pcs := pcs[c := Fetched(pc.kid, pc.start, pc.unknown, parsed.keys, now)];
      return Some(parsed.keys);
    }

    // A reply that took longer than the bound is outside the model.
    method Store(c: Caller, fetched: map<string, Record>, ghost before: State, ghost done: seq<Event>)
      returns (ok: bool)
      requires After(before, done) && View().Pc(c).Fetched? && View().Pc(c).keys == fetched
      modifies this
      ensures now == old(now)
      ensures ok <==> old(now - View().Pc(c).at) <= cfg.bound
      ensures !ok ==> After(before, done) && View() == old(View())
      ensures ok ==> After(before, done + [Commit(c)]) && keys == fetched && lastRefresh == now
      ensures var pc := old(View()).Pc(c); ok ==> View().Pc(c) == Leaving(pc.kid, pc.start, false)
    {
      hide Run, Parsed;
      var pc := pcs[c];
      if now - pc.at > cfg.bound { return false; }
      RunNext(cfg, issuer, before, done, Commit(c));
      keys, lastRefresh := fetched, now;
      at, commits, pcs := pc.at, commits + [now], pcs[c := Leaving(pc.kid, pc.start, false)];
      return true;
    }

    method Release(c: Caller, ghost before: State, ghost done: seq<Event>)
      requires After(before, done) && View().Pc(c).Leaving?
      modifies this
      ensures now == old(now)
      ensures After(before, done + [Unlock(c)])
      ensures var pc := old(View()).Pc(c);
              View().Pc(c) == if pc.failed then Done(pc.kid, pc.start, RefreshFailed, at)
                              else Rereading(pc.kid, pc.start)
    {
      hide Run, Parsed;
      RunNext(cfg, issuer, before, done, Unlock(c));
      var pc := pcs[c];
      refreshMu := None;
      pcs := pcs[c := if pc.failed then Done(pc.kid, pc.start, RefreshFailed, at) else Rereading(pc.kid, pc.start)];
    }

    method ReadAgain(c: Caller, kid: string, ghost before: State, ghost done: seq<Event>) returns (answer: Answer)
      requires After(before, done) && View().Pc(c).Rereading? && View().Pc(c).kid == kid
      modifies this
      ensures now == old(now)
      ensures After(before, done + [Reread(c)])
      ensures View().Pc(c) == Done(kid, old(View()).Pc(c).start, answer, at)
      ensures answer == if kid in keys then Found(keys[kid]) else Untrusted
    {
      hide Run, Parsed;
      RunNext(cfg, issuer, before, done, Reread(c));
      var found := Lookup(keys, kid);
      answer := if found.None? then Untrusted else Found(found.value);
      pcs := pcs[c := Done(kid, pcs[c].start, answer, at)];
    }

    method RefreshLocked(c: Caller, others: nat -> seq<Event>, reached: bool,
                         ghost before: State, ghost done: seq<Event>)
      returns (r: Refresh, ghost es: seq<Event>)
      requires forall i :: NotOf(c, others(i))
      requires After(before, done) && View().Pc(c).Fetching?
      modifies this
      ensures now >= old(now)
      ensures r.FailedRefresh? ==> Unlucky(issuer, reached, old(now), now)
      ensures r.Waiting? ==> Held(c)
      ensures After(before, es)
      ensures var pc := old(View()).Pc(c);
              !r.Waiting? ==> View().Pc(c) == Leaving(pc.kid, pc.start, r.FailedRefresh?)
    {
      hide Run, Parsed, Apply;
      var fetched := FetchKeys(c, reached, before, done);
      es := done + [Fetch(c, reached)];
      if fetched.None? { return FailedRefresh, es; }
      Others(c, others(4), before, es);
      es := es + others(4);
      var ok := Store(c, fetched.value, before, es);
      if !ok { return Waiting, es; }
      return Refreshed, es + [Commit(c)];
    }

    // The caller may still be waiting for the mutex, or for the reply, when the
    // schedule ends.
    method RefreshIfAllowed(c: Caller, unknown: bool, others: nat -> seq<Event>, reached: bool,
                            ghost before: State, ghost done: seq<Event>)
      returns (r: Refresh, ghost es: seq<Event>)
      requires forall i :: NotOf(c, others(i))
      requires After(before, done) && View().Pc(c).Queued? && View().Pc(c).unknown == unknown
      modifies this
      ensures now >= old(now)
      ensures r.FailedRefresh? ==> Unlucky(issuer, reached, old(now), now)
      ensures r.Waiting? ==> Held(c)
      ensures After(before, es)
      ensures var pc := old(View()).Pc(c);
              && (r.Refreshed? ==> View().Pc(c) == Rereading(pc.kid, pc.start))
              && (r.FailedRefresh? ==> View().Pc(c) == Done(pc.kid, pc.start, RefreshFailed, at))
    {
      hide Run, Parsed, Apply, Unlucky;
      var got := Acquire(c, before, done);
      if !got { return Waiting, done; }
      es := done + [Lock(c)];
      Others(c, others(0), before, es);
      var skip;
      skip, es := TooSoon(c, unknown, others, before, es + others(0));
      r := Refreshed;
      if !skip {
        Others(c, others(2), before, es);
        ghost var from := now;
        r, es := RefreshLocked(c, others, reached, before, es + others(2));
        if r.Waiting? { return; }
        Widen(issuer, reached, from, now, old(now), now);
      }
      ghost var to := now;
      Others(c, others(3), before, es);
      Widen(issuer, reached, old(now), to, old(now), now);
      es := es + others(3);
      Release(c, before, es);
      es := es + [Unlock(c)];
    }

    // Up to the decision between the cached key and a refresh.
    method Consult(c: Caller, kid: string, others: nat -> seq<Event>)
      returns (use: bool, found: Option<Record>, ghost es: seq<Event>)
      requires forall i :: NotOf(c, others(i))
      requires View().Pc(c).Idle? || View().Pc(c).Done?
      modifies this
      ensures now >= old(now) && After(old(View()), es) && (use ==> found.Some?)
      ensures var pc := View().Pc(c);
              if use then pc.Done? && pc.kid == kid && pc.start == old(now) && pc.answer == AnswerOf(found)
              else pc == Queued(kid, old(now), found.None?)
    {
      hide Parsed, Apply;
      ghost var before := View();
      assert Run(cfg, issuer, before, []) == before;
      hide Run;
      BeginCall(c, kid, before, []);
      es := [] + [Begin(c, kid)];
      Others(c, others(5), before, es);
      es := es + others(5);
      var last;
      found, last := ReadCache(c, kid, before, es);
      es := es + [Look(c)];
      Others(c, others(6), before, es);
      es := es + others(6);
      use := UseCached(c, found, last, before, es);
      es := es + [Compare(c)];
    }

    method LookUp(c: Caller, kid: string, others: nat -> seq<Event>, reached: bool)
      returns (answer: Option<Answer>, ghost es: seq<Event>)
      requires forall i :: NotOf(c, others(i))
      requires View().Pc(c).Idle? || View().Pc(c).Done?
      modifies this
      ensures now >= old(now) && After(old(View()), es)
      ensures answer == Some(RefreshFailed) ==> Unlucky(issuer, reached, old(now), now)
      ensures answer.None? ==> Held(c)
      ensures answer.Some? ==>
                && View().Pc(c).Done? && View().Pc(c).kid == kid && View().Pc(c).start == old(now)
                && View().Pc(c).answer == answer.value
    {
      hide Parsed, Apply, Run, Unlucky;
      ghost var before := View();
      var use, found;
      use, found, es := Consult(c, kid, others);
      if use { return Some(Found(found.value)), es; }
      Others(c, others(7), before, es);
      ghost var from := now;
      var r;
      r, es := RefreshIfAllowed(c, found.None?, others, reached, before, es + others(7));
      Widen(issuer, reached, from, now, old(now), now);
      if r.Waiting? { return None, es; }
      if r.FailedRefresh? { return Some(RefreshFailed), es; }
      Others(c, others(8), before, es);
      es := es + others(8);
      var again := ReadAgain(c, kid, before, es);
      return Some(again), es + [Reread(c)];
    }

    // The lookup of keyForToken, in any interleaving: a run of the step system, so its
    // answer is out of date by less than its window and the bound.
    method KeyForToken(c: Caller, kid: string, others: nat -> seq<Event>, reached: bool)
      returns (answer: Option<Answer>, ghost es: seq<Event>)
      requires ValidConfig(cfg) && Inv(cfg, issuer, View())
      requires forall i :: NotOf(c, others(i))
      requires View().Pc(c).Idle? || View().Pc(c).Done?
      modifies this
      ensures answer == Some(RefreshFailed) ==> Unlucky(issuer, reached, old(now), now)
      ensures answer.None? ==> Held(c)
      ensures View() == Run(cfg, issuer, old(View()), es) && Inv(cfg, issuer, View())
      ensures answer.Some? && answer != Some(RefreshFailed) ==>
                exists t :: t <= now && Reflects(cfg, issuer, kid, old(now), answer.value, t)
    {
      hide Run, Parsed, Inv, Reflects, Unlucky;
      ghost var before := View();
      answer, es := LookUp(c, kid, others, reached);
      RunFromInv(cfg, issuer, before, es);
      if answer.Some? { InvDone(cfg, issuer, View(), c); }
    }

    // keyForToken: a token without a key id is turned away, and a key is handed out
    // only for the algorithm it is for, if the issuer offered it under the trimmed id
    // less than RefreshInterval and the bound before the call.
    method KeyForHeader(c: Caller, header: Option<string>, alg: string, others: nat -> seq<Event>, reached: bool)
      returns (v: Option<Verdict>, ghost es: seq<Event>)
      requires ValidConfig(cfg) && Inv(cfg, issuer, View())
      requires forall i :: NotOf(c, others(i))
      requires View().Pc(c).Idle? || View().Pc(c).Done?
      modifies this
      ensures v == Some(NoRefresh) ==> Unlucky(issuer, reached, old(now), now)
      ensures v.None? ==> Held(c)
      ensures v == Some(NotTrusted) ==>
                header.Some? && exists t :: t <= now && MissingAt(cfg, issuer, TrimSpace(header.value), old(now), t)
      ensures View() == Run(cfg, issuer, old(View()), es) && Inv(cfg, issuer, View())
      ensures v == Some(NoKeyId) <==> header.None? || TrimSpace(header.value) == ""
      ensures v == Some(NoKeyId) ==> View() == old(View())
      ensures v.Some? && v.value.Verified? ==>
                exists t, r :: t <= now && OfferedAt(cfg, issuer, TrimSpace(header.value), old(now), r, t)
                               && CheckKeyAlgorithm(r, alg) == Some(v.value.key)
      ensures v.Some? && v.value.WrongAlgorithm? ==>
                exists t, r :: t <= now && OfferedAt(cfg, issuer, TrimSpace(header.value), old(now), r, t)
                               && CheckKeyAlgorithm(r, alg).None?
    {
      hide Parsed, Inv, TrimSpace, CheckKeyAlgorithm, Unlucky;
      if header.None? || TrimSpace(header.value) == "" { return Some(NoKeyId), []; }
      hide Run;
      var kid := TrimSpace(header.value);
      var answer;
      answer, es := KeyForToken(c, kid, others, reached);
      match answer {
        case None => return None, es;
        case Some(RefreshFailed) => return Some(NoRefresh), es;
        case Some(Untrusted) =>
          assert exists t :: t <= now && MissingAt(cfg, issuer, kid, old(now), t) by {
            var t :| t <= now && Reflects(cfg, issuer, kid, old(now), Untrusted, t);
            assert MissingAt(cfg, issuer, kid, old(now), t);
          }
          return Some(NotTrusted), es;
        case Some(Found(record)) =>
          assert exists t :: t <= now && OfferedAt(cfg, issuer, kid, old(now), record, t) by {
            var t :| t <= now && Reflects(cfg, issuer, kid, old(now), Found(record), t);
            assert OfferedAt(cfg, issuer, kid, old(now), record, t);
          }
          var key := CheckKeyAlgorithm(record, alg);
          return Some(if key.Some? then Verified(key.value) else WrongAlgorithm), es;
      }
    }
  }

  // The issuer's document at t had no such key, and t is recent for a call that began at
  // `start`.
  ghost predicate MissingAt(cfg: Config, issuer: Time -> Document, kid: string, start: Time, t: Time) {
    && t > start - 30_000_000_000 - cfg.bound
    && Parsed(issuer(t)).Keys? && kid !in Parsed(issuer(t)).keys
  }

  // The issuer's document at t had the record under kid, and t is recent for a call
  // that began at `start`.
  ghost predicate OfferedAt(cfg: Config, issuer: Time -> Document, kid: string, start: Time, r: Record, t: Time) {
    && t > start - cfg.interval - cfg.bound
    && Parsed(issuer(t)).Keys? && kid in Parsed(issuer(t)).keys && Parsed(issuer(t)).keys[kid] == r
  }

  lemma InvDone(cfg: Config, issuer: Time -> Document, s: State, c: Caller)
    requires Inv(cfg, issuer, s) && s.Pc(c).Done?
    ensures var d := s.Pc(c);
            d.at <= s.now && (d.answer.RefreshFailed? || Reflects(cfg, issuer, d.kid, d.start, d.answer, d.at))
  {
    hide Parsed;
    assert PcInv(cfg, issuer, s, c);
  }
}
