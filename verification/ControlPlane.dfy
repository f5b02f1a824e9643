/**
 The operator configuration: validated, applied to the runtime, then committed with a
 version compare-and-set and an append-only audit. Any number of services share one store
 and interleave at every await; applying and storing may fail.
 */
module ControlPlane {
  import opened MarketData

  datatype Mode = Paper | Live

  /** Watchlist, strategy and risk policy; the protocol never looks inside them. */
  datatype Payload = Payload(symbols: seq<string>, strategy: string, riskPolicy: string)

  datatype Configuration = Configuration(mode: Mode, automatic: bool, monitoring: bool, payload: Payload, version: int)

  datatype Update = Update(
    mode: Mode, automatic: bool, monitoring: bool, payload: Payload,
    expectedVersion: int, liveConfirmation: Option<string>, automationConfirmation: Option<string>)

  function ToConfiguration(u: Update, version: int): Configuration {
    Configuration(u.mode, u.automatic, u.monitoring, u.payload, version)
  }

  datatype Refusal = VersionConflict | LiveUnconfirmed | AutomationUnconfirmed

  function AutomationPhrase(mode: Mode): string {
    if mode.Live? then "ENABLE_LIVE_AUTOMATION" else "ENABLE_PAPER_AUTOMATION"
  }

  /** `None` when the transition is allowed, the first reason otherwise. */
  function ValidateTransition(current: Configuration, candidate: Configuration, u: Update): Option<Refusal> {
    var enteringLive := candidate.mode.Live? && !current.mode.Live?;
    var enablingAutomation := candidate.automatic && (!current.automatic || candidate.mode != current.mode);
    if u.expectedVersion != current.version then Some(VersionConflict)
    else if enteringLive && u.liveConfirmation != Some("ENABLE_LIVE_TRADING") then Some(LiveUnconfirmed)
    else if enablingAutomation && u.automationConfirmation != Some(AutomationPhrase(candidate.mode)) then
      Some(AutomationUnconfirmed)
    else None
  }

  // ---------- the store ----------

  datatype Store = Store(current: Option<Configuration>, audit: seq<Configuration>)

  function GetOrCreate(s: Store, default: Configuration): (Store, Configuration) {
    match s.current
    case Some(c) => (s, c)
    case None => (Store(Some(default), s.audit + [default]), default)
  }

  /** Compare the stored version, then replace the configuration and append to the audit in one commit. */
  function CompareAndSet(s: Store, c: Configuration, expectedVersion: int): Option<Store> {
    if s.current.None? || s.current.value.version != expectedVersion then None
    else Some(Store(Some(c), s.audit + [c]))
  }

  // ---------- services interleaving on one store ----------

  datatype Phase =
    | Off
    | Booting(config: Configuration)                                    // configuration read, not applied yet
    | Idle
    | Validated(update: Update, current: Configuration)                 // about to apply the candidate
    | Applied(update: Update, current: Configuration)                   // about to commit
    | RollingBack(current: Configuration)

  /** `runtime` is the configuration last applied; a failed application leaves an arbitrary one. */
  datatype Service = Service(phase: Phase, runtime: Option<Configuration>, default: Configuration)

  datatype CommitFault = NoFault | BeforeCommit | AfterCommit

  /** `updates[n]` is the request behind the audit entry `n`; the first entry has none. */
  datatype System = System(store: Store, services: seq<Service>, updates: seq<Option<Update>>)

  datatype Step =
    | Boot(k: nat)
    | BootApply(k: nat, ok: bool, left: Option<Configuration>)
    | Read(k: nat, update: Update)
    | Apply(k: nat, ok: bool, left: Option<Configuration>)
    | Commit(k: nat, fault: CommitFault)
    | Rollback(k: nat, ok: bool, left: Option<Configuration>)

  function Candidate(u: Update, current: Configuration): Configuration {
    ToConfiguration(u, current.version + 1)
  }

  predicate Enabled(s: System, step: Step) {
    step.k < |s.services| &&
    var phase := s.services[step.k].phase;
    match step
    case Boot(_) => phase.Off?
    case BootApply(_, _, _) => phase.Booting?
    case Read(_, _) => phase.Idle?
    case Apply(_, _, _) => phase.Validated?
    case Commit(_, _) => phase.Applied?
    case Rollback(_, _, _) => phase.RollingBack?
  }

  function SetService(s: System, k: nat, v: Service): (t: System)
    requires k < |s.services|
    ensures |t.services| == |s.services|
  {
    s.(services := s.services[k := v])
  }

  /** Reading creates the first stored configuration, and its audit entry, when there is none. */
  function ReadStore(s: System, default: Configuration): (System, Configuration) {
    var (store, c) := GetOrCreate(s.store, default);
    (s.(store := store, updates := if s.store.current.None? then s.updates + [None] else s.updates), c)
  }

  function Next(s: System, step: Step): (t: System)
    requires Enabled(s, step)
    ensures |t.services| == |s.services|
  {
    var v := s.services[step.k];
    match step
    case Boot(k) =>
      var (t, c) := ReadStore(s, v.default);
      SetService(t, k, v.(phase := Booting(c)))
    case BootApply(k, ok, left) =>
      SetService(s, k, v.(phase := Idle, runtime := if ok then Some(v.phase.config) else left))
    case Read(k, u) =>
      var (t, c) := ReadStore(s, v.default);
      SetService(t, k, v.(phase := if ValidateTransition(c, Candidate(u, c), u).None? then Validated(u, c) else Idle))
    case Apply(k, ok, left) =>
      var (u, c) := (v.phase.update, v.phase.current);
      // outside the guarded block: a failure here is not rolled back
      SetService(s, k, if ok then v.(phase := Applied(u, c), runtime := Some(Candidate(u, c)))
                       else v.(phase := Idle, runtime := left))
    case Commit(k, fault) =>
      var (u, c) := (v.phase.update, v.phase.current);
      var result := CompareAndSet(s.store, Candidate(u, c), u.expectedVersion);
      if fault.BeforeCommit? || result.None? then SetService(s, k, v.(phase := RollingBack(c)))
      else SetService(s.(store := result.value, updates := s.updates + [Some(u)]), k,
                      v.(phase := if fault.NoFault? then Idle else RollingBack(c)))
    case Rollback(k, ok, left) =>
      SetService(s, k, v.(phase := Idle, runtime := if ok then Some(v.phase.current) else left))
  }

  function Start(defaults: seq<Configuration>): System {
    System(Store(None, []), seq(|defaults|, k requires 0 <= k < |defaults| => Service(Off, None, defaults[k])), [])
  }

  function Exec(s: System, steps: seq<Step>): (t: System)
    ensures |t.services| == |s.services|
  {
    if steps == [] then s
    else
      var t := Exec(s, steps[..|steps| - 1]);
      if Enabled(t, steps[|steps| - 1]) then Next(t, steps[|steps| - 1]) else t
  }

  // ---------- the audit invariant ----------

  /** The store holds the newest audit entry, and versions count from one without gaps. */
  ghost predicate AuditSound(s: Store) {
    && (s.current.None? <==> s.audit == [])
    && (s.audit != [] ==> s.current == Some(s.audit[|s.audit| - 1]))
    && (forall n :: 0 <= n < |s.audit| ==> s.audit[n].version == n + 1)
  }

  /** Entry `n` is what its request asked for, allowed against exactly the entry it replaced. */
  ghost predicate Justified(audit: seq<Configuration>, updates: seq<Option<Update>>, n: nat)
    requires 0 < n < |audit| == |updates|
  {
    && updates[n].Some?
    && audit[n] == Candidate(updates[n].value, audit[n - 1])
    && ValidateTransition(audit[n - 1], audit[n], updates[n].value) == None
  }

  ghost predicate InAudit(s: Store, c: Configuration) {
    0 < c.version <= |s.audit| && s.audit[c.version - 1] == c
  }

  ghost predicate PhaseSound(s: Store, v: Service) {
    && v.default.version == 1
    && (v.phase.Validated? || v.phase.Applied? ==>
         InAudit(s, v.phase.current)
         && ValidateTransition(v.phase.current, Candidate(v.phase.update, v.phase.current), v.phase.update) == None)
  }

  ghost predicate Inv(s: System) {
    && AuditSound(s.store)
    && |s.updates| == |s.store.audit|
    && (forall n :: 0 < n < |s.updates| ==> Justified(s.store.audit, s.updates, n))
    && (forall v <- s.services :: PhaseSound(s.store, v))
  }

  ghost predicate Extends(s: System, t: System) {
    s.store.audit <= t.store.audit && s.updates <= t.updates
  }

  lemma ReadInv(s: System, default: Configuration)
    requires Inv(s) && default.version == 1
    ensures var (t, c) := ReadStore(s, default);
            Inv(t) && InAudit(t.store, c) && t.store.current == Some(c) && t.services == s.services && Extends(s, t)
  {
    var (t, c) := ReadStore(s, default);
    assert forall v <- t.services :: PhaseSound(s.store, v);
  }

  lemma SetInv(s: System, k: nat, v: Service)
    requires Inv(s) && k < |s.services| && PhaseSound(s.store, v)
    ensures Inv(SetService(s, k, v))
  {
    forall w <- SetService(s, k, v).services ensures PhaseSound(s.store, w) {
      assert w == v || w in s.services;
    }
  }

  /** A commit replaces exactly the configuration its request was validated against. */
  lemma CommitInv(s: System, u: Update, c: Configuration)
    requires Inv(s) && InAudit(s.store, c)
    requires ValidateTransition(c, Candidate(u, c), u) == None
    requires CompareAndSet(s.store, Candidate(u, c), u.expectedVersion).Some?
    ensures s.store.current == Some(c)
    ensures Inv(s.(store := CompareAndSet(s.store, Candidate(u, c), u.expectedVersion).value,
                   updates := s.updates + [Some(u)]))
  {
    var t := s.(store := CompareAndSet(s.store, Candidate(u, c), u.expectedVersion).value,
                updates := s.updates + [Some(u)]);
    var size := |s.store.audit|;
    assert c.version == s.store.audit[size - 1].version == size;
    forall n | 0 < n < |t.updates| ensures Justified(t.store.audit, t.updates, n) {
      if n < size { assert Justified(s.store.audit, s.updates, n); }
    }
    forall v <- t.services ensures PhaseSound(t.store, v) {
      assert PhaseSound(s.store, v);
    }
  }

  lemma StepInv(s: System, step: Step)
    requires Inv(s) && Enabled(s, step)
    ensures Inv(Next(s, step)) && Extends(s, Next(s, step))
  {
    var v := s.services[step.k];
    assert v in s.services;
    match step
    case Boot(k) =>
      ReadInv(s, v.default);
      var (t, c) := ReadStore(s, v.default);
      SetInv(t, k, v.(phase := Booting(c)));
    case BootApply(k, ok, left) => SetInv(s, k, Next(s, step).services[k]);
    case Read(k, u) =>
      ReadInv(s, v.default);
      SetInv(ReadStore(s, v.default).0, k, Next(s, step).services[k]);
    case Apply(k, ok, left) => SetInv(s, k, Next(s, step).services[k]);
    case Commit(k, fault) =>
      var (u, c) := (v.phase.update, v.phase.current);
      var result := CompareAndSet(s.store, Candidate(u, c), u.expectedVersion);
      if fault.BeforeCommit? || result.None? {
        SetInv(s, k, v.(phase := RollingBack(c)));
      } else {
        CommitInv(s, u, c);
        SetInv(s.(store := result.value, updates := s.updates + [Some(u)]), k, Next(s, step).services[k]);
      }
    case Rollback(k, ok, left) => SetInv(s, k, Next(s, step).services[k]);
  }

  lemma StartInv(defaults: seq<Configuration>)
    requires forall d <- defaults :: d.version == 1
    ensures Inv(Start(defaults))
  {}

  lemma {:induction false} ExecInv(s: System, steps: seq<Step>)
    requires Inv(s)
    ensures Inv(Exec(s, steps)) && Extends(s, Exec(s, steps))
  {
    if steps != [] {
      ExecInv(s, steps[..|steps| - 1]);
      var t := Exec(s, steps[..|steps| - 1]);
      if Enabled(t, steps[|steps| - 1]) { StepInv(t, steps[|steps| - 1]); }
    }
  }

  // ---------- results over every interleaving ----------

  /**
   With any number of services and any failures: audit versions are 1..n, the stored
   configuration is the newest entry, and every entry was allowed against the one it replaced.
  */
  lemma NoLostUpdates(defaults: seq<Configuration>, steps: seq<Step>)
    requires forall d <- defaults :: d.version == 1
    ensures var s := Exec(Start(defaults), steps);
            && AuditSound(s.store) && |s.updates| == |s.store.audit|
            && forall n :: 0 < n < |s.updates| ==> Justified(s.store.audit, s.updates, n)
  {
    StartInv(defaults);
    ExecInv(Start(defaults), steps);
  }

  /** The audit is append-only: later steps only extend it. */
  lemma AuditOnlyGrows(defaults: seq<Configuration>, steps: seq<Step>, more: seq<Step>)
    requires forall d <- defaults :: d.version == 1
    ensures Exec(Start(defaults), steps).store.audit <= Exec(Exec(Start(defaults), steps), more).store.audit
  {
    StartInv(defaults);
    ExecInv(Start(defaults), steps);
    ExecInv(Exec(Start(defaults), steps), more);
  }

  /** Each entry into live mode and each enabling of automation in the audit carried its confirmation. */
  lemma EveryEscalationConfirmed(defaults: seq<Configuration>, steps: seq<Step>, n: nat)
    requires forall d <- defaults :: d.version == 1
    requires 0 < n < |Exec(Start(defaults), steps).store.audit|
    ensures var s := Exec(Start(defaults), steps);
            && |s.updates| == |s.store.audit| && s.updates[n].Some?
            && var (before, after, u) := (s.store.audit[n - 1], s.store.audit[n], s.updates[n].value);
            && (after.mode.Live? && before.mode.Paper? ==> u.liveConfirmation == Some("ENABLE_LIVE_TRADING"))
            && (after.automatic && (!before.automatic || before.mode != after.mode) ==>
                 u.automationConfirmation
                 == Some(if after.mode.Live? then "ENABLE_LIVE_AUTOMATION" else "ENABLE_PAPER_AUTOMATION"))
  {
    NoLostUpdates(defaults, steps);
    var s := Exec(Start(defaults), steps);
    assert Justified(s.store.audit, s.updates, n);
  }

  /** What an operator must send to change `c` as `u` asks: its version, and the phrase of each escalation. */
  predicate Confirmed(c: Configuration, u: Update) {
    && u.expectedVersion == c.version
    && (u.mode.Live? && c.mode.Paper? ==> u.liveConfirmation == Some("ENABLE_LIVE_TRADING"))
    && (u.automatic && u.mode.Live? && !(c.automatic && c.mode.Live?) ==>
          u.automationConfirmation == Some("ENABLE_LIVE_AUTOMATION"))
    && (u.automatic && u.mode.Paper? && !(c.automatic && c.mode.Paper?) ==>
          u.automationConfirmation == Some("ENABLE_PAPER_AUTOMATION"))
  }

  /** Each refusal names what is missing, the version first and then the live phrase. */
  lemma RefusalIsTrue(c: Configuration, u: Update)
    ensures var refusal := ValidateTransition(c, Candidate(u, c), u);
            && (refusal.None? <==> Confirmed(c, u))
            && (refusal == Some(VersionConflict) <==> u.expectedVersion != c.version)
            && (refusal == Some(LiveUnconfirmed) <==>
                  u.expectedVersion == c.version
                  && u.mode.Live? && c.mode.Paper? && u.liveConfirmation != Some("ENABLE_LIVE_TRADING"))
            && (refusal == Some(AutomationUnconfirmed) ==>
                  u.automatic && u.automationConfirmation
                                 != Some(if u.mode.Live? then "ENABLE_LIVE_AUTOMATION" else "ENABLE_PAPER_AUTOMATION"))
  {}

  lemma {:induction false} StoredOnceBooted(defaults: seq<Configuration>, steps: seq<Step>, k: nat)
    requires k < |defaults| && !Exec(Start(defaults), steps).services[k].phase.Off?
    ensures Exec(Start(defaults), steps).store.current.Some?
  {
    if steps != [] {
      var before := steps[..|steps| - 1];
      if !Exec(Start(defaults), before).services[k].phase.Off? { StoredOnceBooted(defaults, before, k); }
    }
  }

  /** `t` is `s` after service `k` put a configuration of this content and the next version into runtime and store. */
  ghost predicate Commits(s: System, t: System, k: nat, c: Configuration, u: Update)
    requires |t.services| == |s.services| && k < |s.services|
  {
    && t.store.current.Some? && t.services[k].phase.Idle?
    && var now := t.store.current.value;
    && t.store.audit == s.store.audit + [now] && t.services[k].runtime == Some(now)
    && now.version == c.version + 1 && now.mode == u.mode && now.automatic == u.automatic
    && now.monitoring == u.monitoring && now.payload == u.payload
  }

  lemma {:induction false} ThreeSteps(s: System, a: Step, b: Step, c: Step)
    ensures Exec(s, [a, b, c]) == StepOrSkip(StepOrSkip(StepOrSkip(s, a), b), c)
  {
    ExecAppend(s, [], a);
    ExecAppend(s, [a], b);
    ExecAppend(s, [a, b], c);
    assert [] + [a] == [a] && [a] + [b] == [a, b] && [a, b] + [c] == [a, b, c];
  }

  lemma UpdateUndisturbed(s: System, k: nat, u: Update)
    requires k < |s.services| && s.services[k].phase.Idle? && s.store.current.Some?
    ensures var c := s.store.current.value;
            var t := StepOrSkip(StepOrSkip(StepOrSkip(s, Read(k, u)), Apply(k, true, None)), Commit(k, NoFault));
            if Confirmed(c, u) then Commits(s, t, k, c, u) else t == s
  {
    var c := s.store.current.value;
    RefusalIsTrue(c, u);
    if !Confirmed(c, u) { assert s.services[k := s.services[k]] == s.services; }
  }

  /**
   Whatever happened before, and in any number of services: an update that meets no failure and no
   interruption is committed, with exactly the content it asked for, if it carries the stored
   version and the phrases of its escalations, and otherwise changes nothing.
  */
  lemma ConfirmedUpdateCommits(defaults: seq<Configuration>, steps: seq<Step>, k: nat, u: Update)
    requires k < |defaults| && Exec(Start(defaults), steps).services[k].phase.Idle?
    ensures var s := Exec(Start(defaults), steps);
            s.store.current.Some?
            && var t := Exec(s, [Read(k, u), Apply(k, true, None), Commit(k, NoFault)]);
            if Confirmed(s.store.current.value, u) then Commits(s, t, k, s.store.current.value, u) else t == s
  {
    var s := Exec(Start(defaults), steps);
    StoredOnceBooted(defaults, steps, k);
    RefusalIsTrue(s.store.current.value, u);
    ThreeSteps(s, Read(k, u), Apply(k, true, None), Commit(k, NoFault));
    UpdateUndisturbed(s, k, u);
  }

  /** Of two commits validated against the same version, at most one succeeds. */
  lemma StaleCommitFails(s: System, k: nat, fault: CommitFault)
    requires Inv(s) && Enabled(s, Commit(k, fault))
    requires s.store.current != Some(s.services[k].phase.current)
    ensures Next(s, Commit(k, fault)).store == s.store && Next(s, Commit(k, fault)).services[k].phase.RollingBack?
  {
    var v := s.services[k];
    assert v in s.services;
    var size := |s.store.audit|;
    assert s.store.audit[size - 1].version == size;
  }

  // ---------- the runtime follows the store ----------

  /** Applying never fails, and a commit that raises did not commit. */
  ghost predicate Clean(steps: seq<Step>) {
    forall e <- steps :: match e
      case BootApply(_, ok, _) => ok
      case Apply(_, ok, _) => ok
      case Rollback(_, ok, _) => ok
      case Commit(_, fault) => fault != AfterCommit
      case _ => true
  }

  /** Where the only service stands, and what the store and the runtime hold there. */
  ghost predicate InStep(s: System) {
    |s.services| == 1 &&
    var (v, current) := (s.services[0], s.store.current);
    match v.phase
    case Off => true
    case Booting(c) => current == Some(c)
    case Idle => current.Some? && v.runtime == current
    case Validated(_, c) => current == Some(c) && v.runtime == current
    case Applied(u, c) => current == Some(c) && v.runtime == Some(Candidate(u, c))
    case RollingBack(c) => current == Some(c)
  }

  lemma {:induction false} SingleServiceInStep(default: Configuration, steps: seq<Step>)
    requires Clean(steps)
    ensures InStep(Exec(Start([default]), steps))
  {
    if steps != [] {
      var before, e := steps[..|steps| - 1], steps[|steps| - 1];
      assert e in steps && forall x <- before :: x in steps;
      SingleServiceInStep(default, before);
    }
  }

  /**
   With one service whose applications succeed, the runtime configuration is the stored one
   whenever no update is in progress, also after updates that were refused or failed to commit.
  */
  lemma RuntimeIsStored(default: Configuration, steps: seq<Step>)
    requires Clean(steps) && Exec(Start([default]), steps).services[0].phase.Idle?
    ensures var s := Exec(Start([default]), steps); s.store.current.Some? && s.services[0].runtime == s.store.current
  {
    SingleServiceInStep(default, steps);
  }

  /** How the awaits of one update end; `left` is what a failed application leaves in the runtime. */
  datatype Outcome = Outcome(applied: bool, left: Option<Configuration>, fault: CommitFault,
                             restored: bool, leftAfter: Option<Configuration>)

  function StepOrSkip(s: System, step: Step): (t: System)
    ensures |t.services| == |s.services|
  {
    if Enabled(s, step) then Next(s, step) else s
  }

  /** One update of the first service, from its read to its end, with nothing in between. */
  function RunUpdate(s: System, u: Update, o: Outcome): (t: System)
    ensures |t.services| == |s.services|
  {
    var read := StepOrSkip(s, Read(0, u));
    var applied := StepOrSkip(read, Apply(0, o.applied, o.left));
    var committed := StepOrSkip(applied, Commit(0, o.fault));
    StepOrSkip(committed, Rollback(0, o.restored, o.leftAfter))
  }

  lemma ExecAppend(s: System, steps: seq<Step>, e: Step)
    ensures Exec(s, steps + [e]) == StepOrSkip(Exec(s, steps), e)
  {
    assert (steps + [e])[..|steps|] == steps;
  }

  /** The steps of one update; those that its earlier steps rule out are skipped. */
  function UpdateSteps(u: Update, o: Outcome): seq<Step> {
    [Read(0, u), Apply(0, o.applied, o.left), Commit(0, o.fault), Rollback(0, o.restored, o.leftAfter)]
  }

  lemma RunUpdateIsExec(s: System, u: Update, o: Outcome)
    ensures RunUpdate(s, u, o) == Exec(s, UpdateSteps(u, o))
  {
    var (r, a) := (Read(0, u), Apply(0, o.applied, o.left));
    var (c, b) := (Commit(0, o.fault), Rollback(0, o.restored, o.leftAfter));
    ExecAppend(s, [], r);
    ExecAppend(s, [r], a);
    ExecAppend(s, [r, a], c);
    ExecAppend(s, [r, a, c], b);
    assert [] + [r] == [r] && [r] + [a] == [r, a] && [r, a] + [c] == [r, a, c] && [r, a, c] + [b] == [r, a, c, b];
  }

  lemma {:induction false} ExecConcat(s: System, first: seq<Step>, more: seq<Step>)
    ensures Exec(s, first + more) == Exec(Exec(s, first), more)
  {
    if more == [] {
      assert first + more == first;
    } else {
      var init, e := more[..|more| - 1], more[|more| - 1];
      assert first + more == (first + init) + [e] && more == init + [e];
      ExecConcat(s, first, init);
      ExecAppend(s, first + init, e);
      ExecAppend(Exec(s, first), init, e);
    }
  }

  ghost predicate Synchronised(s: System) {
    s.services != [] && s.services[0].runtime == s.store.current
  }

  predicate Refused(s: System, u: Update) {
    s.store.current.Some? && ValidateTransition(s.store.current.value, Candidate(u, s.store.current.value), u).Some?
  }

  /** Refused up front; or applied, and then committed cleanly or restored after an uncommitted failure. */
  predicate SafeOutcome(o: Outcome) {
    o.applied && (o.fault.NoFault? || (o.fault.BeforeCommit? && o.restored))
  }

  lemma UpdateEffect(s: System, u: Update, o: Outcome)
    requires InStep(s) && s.services[0].phase.Idle?
    ensures var t := RunUpdate(s, u, o); var c := s.store.current.value;
            (t.services[0].runtime, t.store.current) ==
            if Refused(s, u) then (Some(c), Some(c))
            else if !o.applied then (o.left, Some(c))
            else if o.fault.NoFault? then (Some(Candidate(u, c)), Some(Candidate(u, c)))
            else (if o.restored then Some(c) else o.leftAfter,
                  if o.fault.AfterCommit? then Some(Candidate(u, c)) else Some(c))
  {}

  /**
   Exactly when one update of an idle, synchronised service is sure to leave runtime and store
   equal, whatever failed applications leave behind: when it is refused, or its awaits end safely.
  */
  lemma SynchronisedExactly(s: System, u: Update, o: Outcome)
    requires InStep(s) && s.services[0].phase.Idle?
    ensures (forall left, leftAfter :: Synchronised(RunUpdate(s, u, o.(left := left, leftAfter := leftAfter))))
       <==> (Refused(s, u) || SafeOutcome(o))
  {
    forall left, leftAfter | Refused(s, u) || SafeOutcome(o)
      ensures Synchronised(RunUpdate(s, u, o.(left := left, leftAfter := leftAfter)))
    {
      UpdateEffect(s, u, o.(left := left, leftAfter := leftAfter));
    }
    if !Refused(s, u) && !SafeOutcome(o) {
      var worst := o.(left := None, leftAfter := None);
      UpdateEffect(s, u, worst);
      assert !Synchronised(RunUpdate(s, u, worst));
    }
  }

  /** Start up: read the configuration and apply it. */
  lemma Started(default: Configuration, steps: seq<Step>)
    requires |steps| == 2 && steps[0] == Boot(0) && steps[1] == BootApply(0, true, None)
    ensures var s := Exec(Start([default]), steps);
            InStep(s) && s.services[0].phase.Idle? && s.store.current == Some(default)
  {
    assert steps == [] + [steps[0]] + [steps[1]];
    ExecAppend(Start([default]), [], steps[0]);
    ExecAppend(Start([default]), [] + [steps[0]], steps[1]);
  }

  /**
   A reachable run that leaves them unequal: after start-up any allowed update whose first
   application raises ends with the stored configuration unchanged and none in the runtime.
  */
  lemma FailedApplyDesynchronises(default: Configuration, u: Update, boot: seq<Step>, o: Outcome)
    requires |boot| == 2 && boot[0] == Boot(0) && boot[1] == BootApply(0, true, None)
    requires ValidateTransition(default, Candidate(u, default), u) == None && !o.applied && o.left == None
    ensures var s := Exec(Start([default]), boot + UpdateSteps(u, o));
            && s.services[0].phase.Idle? && s.store.current == Some(default) && s.services[0].runtime == None
            && !Synchronised(s)
  {
    Started(default, boot);
    var s := Exec(Start([default]), boot);
    UpdateEffect(s, u, o);
    RunUpdateIsExec(s, u, o);
    ExecConcat(Start([default]), boot, UpdateSteps(u, o));
  }
}
