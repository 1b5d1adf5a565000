/**
 The reaper's timer loop (internal/reaper/main.go, internal/reaper/container.go) as
 a timed system that runs beside the API: records come and go between any two of
 its steps. A pass takes a snapshot of the container table, checks its records one
 at a time in any order against the clock, and is followed by a one-minute timer.
 */
module Reaper {
  type Id = string
  type Time = int

  const MINUTE: Time := 60_000_000_000

  // `pass` bounds how long a pass takes.
  datatype Config = Config(keepMax: Time, pass: Time)

  datatype Phase =
    | Sleeping(since: Time)
    | Cleaning(start: Time, previous: Time, pending: map<Id, Time>)

  // `db` maps stored containers to their creation times. `lastStart` is when the
  // latest pass began. `aborts` counts the passes that gave up on a database error:
  // a record they were about to delete was gone.
  datatype State = State(now: Time, phase: Phase, lastStart: Time, db: map<Id, Time>, used: set<Id>, aborts: nat)

  datatype Event =
    | Tick(d: nat)
    | Insert(id: Id)
    | Remove(id: Id)
    | Fire
    | Check(id: Id)
    | Finish

  predicate Expired(cfg: Config, s: State, created: Time) { created < s.now - cfg.keepMax }

  function Apply(cfg: Config, s: State, e: Event): State {
    match e
    case Tick(d) =>
      var limit := if s.phase.Sleeping? then s.phase.since + MINUTE else s.phase.start + cfg.pass;
      if s.now + d <= limit then s.(now := s.now + d) else s
    case Insert(id) =>
      if id in s.used then s else s.(db := s.db[id := s.now], used := s.used + {id})
    case Remove(id) => s.(db := s.db - {id})
    case Fire =>
      if s.phase.Sleeping? && s.now == s.phase.since + MINUTE then
        s.(phase := Cleaning(s.now, s.lastStart, if cfg.keepMax <= 0 then map[] else s.db), lastStart := s.now)
      else s
    case Check(id) =>
      if s.phase.Sleeping? || id !in s.phase.pending then s
      else
        var rest := s.(phase := s.phase.(pending := s.phase.pending - {id}));
        if !Expired(cfg, s, s.phase.pending[id]) then rest
        else if id in s.db then rest.(db := s.db - {id})
        else s.(phase := s.phase.(pending := map[]), aborts := s.aborts + 1)
    case Finish =>
      if s.phase.Cleaning? && s.phase.pending == map[] then s.(phase := Sleeping(s.now)) else s
  }

  function Run(cfg: Config, s: State, es: seq<Event>): State {
    if es == [] then s else Apply(cfg, Run(cfg, s, es[..|es| - 1]), es[|es| - 1])
  }

  predicate Init(s: State) {
    s.phase == Sleeping(s.now) && s.lastStart == s.now && s.db == map[] && s.aborts == 0
  }

  // ---------- How long a record can stay ----------

  ghost predicate PhaseInv(cfg: Config, s: State) {
    match s.phase
    case Sleeping(since) =>
      && s.lastStart <= since <= s.lastStart + cfg.pass
      && since <= s.now <= since + MINUTE
    case Cleaning(start, previous, _) =>
      && start == s.lastStart
      && previous <= start <= previous + cfg.pass + MINUTE
      && start <= s.now <= start + cfg.pass
  }

  // The longest time from the start of one pass to the start of the next.
  function Period(cfg: Config): Time { MINUTE + cfg.pass }

  // What the aborted passes so far may have delayed.
  function Slack(cfg: Config, s: State): Time { cfg.keepMax + s.aborts * Period(cfg) }

  // A record was young when the latest pass began, or is still to be checked by it
  // and was young when the pass before began, each up to the slack.
  ghost predicate RecordInv(cfg: Config, s: State, id: Id)
    requires id in s.db
  {
    && s.db[id] <= s.now
    && (s.db[id] >= s.lastStart - Slack(cfg, s) ||
        (s.phase.Cleaning? && id in s.phase.pending && s.phase.pending[id] == s.db[id]
         && s.db[id] >= s.phase.previous - Slack(cfg, s)))
  }

  ghost predicate Inv(cfg: Config, s: State) {
    && PhaseInv(cfg, s)
    && s.db.Keys <= s.used
    && (forall id :: id in s.db ==> RecordInv(cfg, s, id))
    && (s.phase.Cleaning? ==> forall id :: id in s.phase.pending ==> id in s.used)
    && (s.phase.Cleaning? ==> forall id :: id in s.phase.pending && id in s.db ==> s.phase.pending[id] == s.db[id])
  }

  lemma SlackStep(cfg: Config, s: State, s': State)
    requires cfg.pass >= 0 && cfg.keepMax > 0
    ensures s'.aborts == s.aborts ==> Slack(cfg, s') == Slack(cfg, s)
    ensures s'.aborts == s.aborts + 1 ==> Slack(cfg, s') == Slack(cfg, s) + Period(cfg)
    ensures Slack(cfg, s) >= cfg.keepMax
  {
    assert (s.aborts + 1) * Period(cfg) == s.aborts * Period(cfg) + Period(cfg);
  }

  lemma ApplyKeepsInv(cfg: Config, s: State, e: Event)
    requires cfg.keepMax > 0 && cfg.pass >= 0
    requires Inv(cfg, s)
    ensures Inv(cfg, Apply(cfg, s, e))
  {
    var s' := Apply(cfg, s, e);
    SlackStep(cfg, s, s');
    hide Slack;
    forall id | id in s'.db ensures RecordInv(cfg, s', id) {
      if id in s.db { assert RecordInv(cfg, s, id); }
    }
  }

  lemma {:induction false} RunKeepsInv(cfg: Config, s: State, es: seq<Event>)
    requires cfg.keepMax > 0 && cfg.pass >= 0
    requires Init(s)
    ensures Inv(cfg, Run(cfg, s, es))
  {
    if es != [] {
      RunKeepsInv(cfg, s, es[..|es| - 1]);
      ApplyKeepsInv(cfg, Run(cfg, s, es[..|es| - 1]), es[|es| - 1]);
    }
  }

  // No record is ever older than keepMax + 1 minute + 2 passes, plus one period for
  // every pass that aborted.
  lemma NoRecordLingers(cfg: Config, s: State, es: seq<Event>, id: Id)
    requires cfg.keepMax > 0 && cfg.pass >= 0
    requires Init(s) && id in Run(cfg, s, es).db
    ensures var s' := Run(cfg, s, es);
            s'.now - s'.db[id] <= cfg.keepMax + 60_000_000_000 + 2 * cfg.pass + s'.aborts * (60_000_000_000 + cfg.pass)
  {
    RunKeepsInv(cfg, s, es);
    assert RecordInv(cfg, Run(cfg, s, es), id);
  }

  // ---------- What the reaper may remove ----------

  ghost predicate Matches(s: State) {
    s.phase.Cleaning? ==>
      && s.phase.pending.Keys <= s.used
      && forall id :: id in s.phase.pending && id in s.db ==> s.phase.pending[id] == s.db[id]
  }

  ghost predicate Owned(s: State) { Matches(s) && s.db.Keys <= s.used }

  lemma {:induction false} RunOwned(cfg: Config, s: State, es: seq<Event>)
    requires Init(s)
    ensures Owned(Run(cfg, s, es))
  {
    if es != [] { RunOwned(cfg, s, es[..|es| - 1]); }
  }

  // Whatever the run, aborted passes included: a step that removes a record is
  // the API's, or a check that finds it older than a positive keepMax.
  lemma OnlyOldRemoved(cfg: Config, s: State, es: seq<Event>, e: Event, id: Id)
    requires Init(s) && id in Run(cfg, s, es).db
    ensures id !in Run(cfg, s, es + [e]).db ==>
              e == Remove(id) || (e == Check(id) && Run(cfg, s, es).now - Run(cfg, s, es).db[id] > cfg.keepMax)
  {
    RunOwned(cfg, s, es);
    assert (es + [e])[..|es|] == es;
  }

  // With keepMax <= 0 the reaper never removes a record.
  lemma {:induction false} DisabledNeverReaps(cfg: Config, s: State, es: seq<Event>, id: Id)
    requires cfg.keepMax <= 0 && Init(s)
    ensures var s' := Run(cfg, s, es); s'.phase.Cleaning? ==> s'.phase.pending == map[]
    ensures id in Run(cfg, s, es).db <==> Inserted(cfg, s, es, id)
  {
    if es != [] { DisabledNeverReaps(cfg, s, es[..|es| - 1], id); }
  }

  // The API has inserted id and not removed it since.
  ghost predicate Inserted(cfg: Config, s: State, es: seq<Event>, id: Id) {
    if es == [] then false
    else
      var front, e := es[..|es| - 1], es[|es| - 1];
      (e == Insert(id) && id !in Run(cfg, s, front).used) || (e != Remove(id) && Inserted(cfg, s, front, id))
  }
}
