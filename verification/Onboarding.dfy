/**
 Tenant onboarding under concurrency: any number of `runOnboarding` calls (packages/server/src/onboarding/run.ts),
 the unlock route (packages/server/src/routes/admin-onboard.ts), deletions and edits, interleaved step by step
 over one tenant store, with crashes and a clock. Each awaited store call is one step.
 */
module Onboarding {
  import opened Options
  import opened TenantRegistry

  /** The order in which `runOnboarding` tries to acquire the lock. */
  const ORDER := [Created, Failed, ProductionReady, TenantState.Onboarding]

  /**
   Where one run stands. `expires` is the claim expiry it computed before its first attempt.
   Holding: lock acquired, handshake in flight. Vaulted, Dated, Promoted: after vault.put, setProductionExpiry and
   setState('production-ready'). Failing: an error was caught before promotion, setState('failed') is still to come.
   */
  datatype Phase =
    | Idle
    | Trying(next: nat, expires: int)
    | Holding(expires: int)
    | Vaulted(expires: int, expiry: int)
    | Dated(expires: int)
    | Promoted
    | Failing(expires: int, message: string)
    | Ended
    | Crashed

  datatype Run = Run(ref: string, instance: string, phase: Phase)

  datatype Unlock = Unlock(ref: string, force: bool)

  /** `unlocks` holds unlock requests whose check has passed and whose write is still to come. */
  datatype State = State(
    tenants: map<string, Tenant>, vault: map<string, string>, runs: map<nat, Run>, unlocks: map<nat, Unlock>, now: int)

  datatype Event =
    | Tick(now: int)
    | Create(ref: string, profile: string)
    | Patch(ref: string, profile: string)
    | SoftDelete(ref: string)
    | Start(run: nat, ref: string, instance: string, ttl: int)
    | Attempt(run: nat)
    | Progress(run: nat, scenario: string, passed: bool)
    | PutVault(run: nat, material: string, expiry: int)
    | SetExpiry(run: nat)
    | Promote(run: nat)
    | AuditWritten(run: nat)
    | AuditFailed(run: nat, message: string)
    | Fail(run: nat, message: string)
    | ReleaseFailed(run: nat)
    | Crash(run: nat)
    | CheckUnlock(request: nat, ref: string, force: bool)
    | WriteUnlock(request: nat)

  function UnlockMessage(force: bool): string {
    if force then "Onboarding claim force-released by admin." else "Onboarding claim manually released by admin."
  }

  function Start0(now: int): State {
    State(map[], map[], map[], map[], now)
  }

  function PhaseOf(s: State, p: nat): Phase {
    if p in s.runs then s.runs[p].phase else Idle
  }

  function RefOf(s: State, p: nat): string {
    if p in s.runs then s.runs[p].ref else ""
  }

  function Moved(s: State, p: nat, phase: Phase): State
    requires p in s.runs
  {
    s.(runs := s.runs[p := s.runs[p].(phase := phase)])
  }

  predicate IsFreshClaim(t: Tenant, now: int) {
    t.state == TenantState.Onboarding && t.claimExpiresAt.Some? && t.claimExpiresAt.value > now
  }

  function ClaimOptions(s: State, p: nat, from: TenantState, expires: int): StateOptions
    requires p in s.runs
  {
    StateOptions(Some(from), Some(s.runs[p].instance), Some(expires), None)
  }

  /** The answer of the compare-and-swap in step `Attempt(p)`. */
  function Acquire(s: State, p: nat): (map<string, Tenant>, Result<Tenant>)
    requires p in s.runs && s.runs[p].phase.Trying? && s.runs[p].phase.next < |ORDER|
  {
    var ph := s.runs[p].phase;
    AfterSetState(s.tenants, s.runs[p].ref, TenantState.Onboarding,
      ClaimOptions(s, p, ORDER[ph.next], ph.expires), s.now)
  }

  /** A step that is not enabled in `s` leaves `s` as it is. */
  function Next(s: State, e: Event): State {
    match e
    case Tick(t) => s.(now := t)
    case Create(ref, profile) => s.(tenants := AfterCreate(s.tenants, ref, profile, s.now))
    case Patch(ref, profile) => s.(tenants := AfterPatch(s.tenants, ref, profile, s.now))
    case SoftDelete(ref) => s.(tenants := AfterSoftDelete(s.tenants, ref, s.now))
    case CheckUnlock(u, ref, force) =>
      if u in s.unlocks || !IsLive(s.tenants, ref) || s.tenants[ref].state != TenantState.Onboarding ||
         (!IsStaleClaim(s.tenants[ref], s.now) && !force) then s
      else s.(unlocks := s.unlocks[u := Unlock(ref, force)])
    case WriteUnlock(u) =>
      if u !in s.unlocks then s
      else
        var options := NO_OPTIONS.(lastError := Some(UnlockMessage(s.unlocks[u].force)));
        s.(tenants := AfterSetState(s.tenants, s.unlocks[u].ref, Failed, options, s.now).0, unlocks := s.unlocks - {u})
    case Start(p, ref, instance, ttl) =>
      if p in s.runs then s
      else
        var refused := !IsLive(s.tenants, ref) || IsFreshClaim(s.tenants[ref], s.now);
        s.(runs := s.runs[p := Run(ref, instance, if refused then Ended else Trying(0, s.now + ttl))])
    case _ => if e.run in s.runs then RunStep(s, e) else s
  }

  function RunStep(s: State, e: Event): State
    requires !e.Tick? && !e.Create? && !e.Patch? && !e.SoftDelete? && !e.CheckUnlock? && !e.WriteUnlock? && !e.Start?
    requires e.run in s.runs
  {
    var p := e.run;
    var ref := s.runs[p].ref;
    var live := IsLive(s.tenants, ref);
    match (e, s.runs[p].phase)
    case (Crash(_), _) => Moved(s, p, Crashed)
    case (Attempt(_), Trying(n, expires)) =>
      if n >= |ORDER| then Moved(s, p, Ended)
      else
        var (tenants, answer) := Acquire(s, p);
        Moved(s.(tenants := tenants), p, if answer.Ok? then Holding(expires) else Trying(n + 1, expires))
    case (Progress(_, scenario, passed), Holding(_)) =>
      s.(tenants := AfterProgress(s.tenants, ref, scenario, passed, s.now))
    case (PutVault(_, material, expiry), Holding(expires)) =>
      Moved(s.(vault := s.vault[ref := material]), p, Vaulted(expires, expiry))
    case (SetExpiry(_), Vaulted(expires, expiry)) =>
      Moved(s.(tenants := AfterExpiry(s.tenants, ref, expiry, s.now)), p,
            if live then Dated(expires) else Failing(expires, "unknown tenant"))
    case (Promote(_), Dated(expires)) =>
      Moved(s.(tenants := AfterSetState(s.tenants, ref, ProductionReady, NO_OPTIONS, s.now).0), p,
            if live then Promoted else Failing(expires, "unknown tenant"))
    case (AuditWritten(_), Promoted) => Moved(s, p, Ended)
    case (AuditFailed(_, message), Promoted) =>
      Moved(s.(tenants := AfterSetState(
        s.tenants, ref, Failed, NO_OPTIONS.(lastError := Some(message)), s.now).0), p, Ended)
    case (Fail(_, message), Holding(expires)) => Moved(s, p, Failing(expires, message))
    case (Fail(_, message), Vaulted(expires, _)) => Moved(s, p, Failing(expires, message))
    case (Fail(_, message), Dated(expires)) => Moved(s, p, Failing(expires, message))
    case (ReleaseFailed(_), Failing(_, message)) =>
      Moved(s.(tenants := AfterSetState(
        s.tenants, ref, Failed, NO_OPTIONS.(lastError := Some(message)), s.now).0), p, Ended)
    case _ => s
  }

  function After(now: int, events: seq<Event>): State {
    if events == [] then Start0(now) else Next(After(now, events[..|events| - 1]), events[|events| - 1])
  }

  /** Between acquiring the lock and the run's own final setState, and not crashed. */
  predicate IsActive(phase: Phase) {
    phase.Holding? || phase.Vaulted? || phase.Dated? || phase.Failing?
  }

  predicate Acquires(s: State, e: Event) {
    e.Attempt? && e.run in s.runs && s.runs[e.run].phase.Trying? && s.runs[e.run].phase.next < |ORDER| &&
    Acquire(s, e.run).1.Ok?
  }

  predicate IsRunEvent(s: State, e: Event) {
    !e.Tick? && !e.Create? && !e.Patch? && !e.SoftDelete? && !e.CheckUnlock? &&
    !e.WriteUnlock? && !e.Start? && e.run in s.runs
  }

  /** A run's step touches its own phase and its own tenant only. */
  lemma RunStepFrame(s: State, e: Event, q: nat, ref: string)
    requires IsRunEvent(s, e)
    ensures var s' := RunStep(s, e);
            s'.now == s.now && RefOf(s', q) == RefOf(s, q) && (q != e.run ==> PhaseOf(s', q) == PhaseOf(s, q)) &&
            (ref in s'.tenants <==> ref in s.tenants) &&
            (ref != RefOf(s, e.run) && ref in s.tenants ==> s'.tenants[ref] == s.tenants[ref])
  {
    RunsFrame(s, e, q);
  }

  lemma OnlyOwnPhaseMoves(s: State, e: Event)
    requires IsRunEvent(s, e)
    ensures var s' := RunStep(s, e);
            s'.now == s.now && e.run in s'.runs &&
            s'.runs == s.runs[e.run := s.runs[e.run].(phase := s'.runs[e.run].phase)]
  {
  }

  lemma RunsFrame(s: State, e: Event, q: nat)
    requires IsRunEvent(s, e)
    ensures var s' := RunStep(s, e);
            s'.now == s.now && RefOf(s', q) == RefOf(s, q) && (q != e.run ==> PhaseOf(s', q) == PhaseOf(s, q))
  {
    OnlyOwnPhaseMoves(s, e);
  }

  lemma DeletedTenantFrozen(s: State, e: Event, ref: string)
    requires IsRunEvent(s, e) && ref in s.tenants && !IsLive(s.tenants, ref)
    ensures RunStep(s, e).tenants[ref] == s.tenants[ref]
  {
  }
}
