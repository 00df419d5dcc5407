/**
 Complete runs in which two onboarding runs are active on one tenant: through an unlock that is written after its
 check went stale, and through an audit write that fails after promotion.
 */
module OnboardingRaces {
  import opened Options
  import opened TenantRegistry
  import opened Onboarding
  import opened OnboardingExclusion
  import opened OnboardingLifecycle

  predicate IsWaiting(s: State, p: nat, ref: string) {
    p in s.runs && s.runs[p].ref == ref && s.runs[p].phase.Trying? && s.runs[p].phase.next <= 1
  }

  /** A waiting run acquires a failed tenant in two attempts at most, whoever else still works on it. */
  lemma FailedTenantIsAcquired(s: State, holder: nat, other: nat)
    requires IsActive(PhaseOf(s, holder)) && IsWaiting(s, other, RefOf(s, holder))
    requires IsLive(s.tenants, RefOf(s, holder)) && s.tenants[RefOf(s, holder)].state == Failed
    ensures AreRivals(Next(s, Attempt(other)), holder, other)
      || AreRivals(Next(Next(s, Attempt(other)), Attempt(other)), holder, other)
  {
  }

  /**
   The unlock route reads the claim and writes the state in two awaited steps. If a run acquires in between, the
   write, though not forced, takes its claim away and a second run can enter.
   */
  lemma UnlockBetweenCheckAndWriteBreaksExclusion(s: State, holder: nat, other: nat, u: nat)
    requires IsActive(PhaseOf(s, holder)) && IsWaiting(s, other, RefOf(s, holder))
    requires u in s.unlocks && s.unlocks[u].ref == RefOf(s, holder) && IsLive(s.tenants, RefOf(s, holder))
    ensures var s1 := Next(s, WriteUnlock(u));
            AreRivals(Next(s1, Attempt(other)), holder, other) ||
            AreRivals(Next(Next(s1, Attempt(other)), Attempt(other)), holder, other)
  {
    WrittenUnlock(s, u);
    FailedTenantIsAcquired(Next(s, WriteUnlock(u)), holder, other);
  }

  lemma Extend(now: int, events: seq<Event>, e: Event) returns (longer: seq<Event>)
    ensures longer == events + [e] && After(now, longer) == Next(After(now, events), e)
  {
    longer := events + [e];
    assert longer[..|events|] == events;
  }

  function ClaimedTenant(instance: string, expires: int, updatedAt: int): Tenant {
    NewTenant("profile", 0).(state := TenantState.Onboarding, claimedBy := Some(instance),
                             claimExpiresAt := Some(expires), updatedAt := updatedAt)
  }

  predicate IsWithoutUnlock(events: seq<Event>) {
    forall i :: 0 <= i < |events| ==> !events[i].CheckUnlock? && !events[i].Tick?
  }

  /** A run claims the tenant until 10. */
  lemma FirstClaim() returns (events: seq<Event>)
    ensures After(0, events) ==
            State(map["t" := ClaimedTenant("a", 10, 0)], map[], map[0 := Run("t", "a", Holding(10))], map[], 0)
    ensures IsUnforced(events) && IsWithoutUnlock(events)
  {
    events := Extend(0, [], Create("t", "profile"));
    events := Extend(0, events, Start(0, "t", "a", 10));
    events := Extend(0, events, Attempt(0));
  }

  /** A lone run that outlives its claim loses it, and still no two runs are active. */
  lemma LoneRunMayExpire() returns (events: seq<Event>)
    ensures !AllKeepClaims(0, events) && forall p, q :: !AreRivals(After(0, events), p, q)
  {
    var before := FirstClaim();
    assert PhaseOf(After(0, before), 0) == Holding(10);
    events := Extend(0, before, Tick(20));
    assert events[..|events| - 1] == before && !KeepsClaims(After(0, before), Tick(20));
  }

  /** Then it crashes; at time 10 an unforced unlock request passes its check. */
  lemma AbandonedClaim() returns (events: seq<Event>)
    ensures After(0, events) ==
            State(map["t" := ClaimedTenant("a", 10, 0)], map[], map[0 := Run("t", "a", Crashed)],
                  map[0 := Unlock("t", false)], 10)
    ensures IsUnforced(events)
  {
    events := FirstClaim();
    events := Extend(0, events, Crash(0));
    events := Extend(0, events, Tick(10));
    events := Extend(0, events, CheckUnlock(0, "t", false));
  }

  predicate IsUnforced(events: seq<Event>) {
    forall i :: 0 <= i < |events| ==> (events[i].CheckUnlock? ==> !events[i].force) && !events[i].AuditFailed?
  }

  /** A tenant whose claim has expired, an unlock request that has passed its check, and two runs that try. */
  predicate IsContested(s: State) {
    && s.now == 10 && s.tenants == map["t" := ClaimedTenant("a", 10, 0)] && s.unlocks == map[0 := Unlock("t", false)]
    && 1 in s.runs && s.runs[1] == Run("t", "b", Trying(0, 20)) && IsWaiting(s, 2, "t")
  }

  lemma TwoRunsTry() returns (events: seq<Event>)
    ensures IsContested(After(0, events)) && IsUnforced(events)
  {
    events := AbandonedClaim();
    events := Extend(0, events, Start(1, "t", "b", 10));
    events := Extend(0, events, Start(2, "t", "c", 10));
  }

  predicate IsTakenOver(s: State) {
    && s.tenants == map["t" := ClaimedTenant("b", 20, 10)] && s.unlocks == map[0 := Unlock("t", false)]
    && 1 in s.runs && s.runs[1] == Run("t", "b", Holding(20)) && IsWaiting(s, 2, "t")
  }

  lemma ContestedIsTakenOver(s: State)
    requires IsContested(s)
    ensures IsTakenOver(Next(s, Attempt(1)))
  {
  }

  /** One of the two claims the tenant while the unlock request has still to write. */
  lemma ClaimTakenOver() returns (events: seq<Event>)
    ensures IsTakenOver(After(0, events)) && IsUnforced(events)
  {
    events := TwoRunsTry();
    ContestedIsTakenOver(After(0, events));
    events := Extend(0, events, Attempt(1));
  }

  /** So exclusion fails on a run with no forced unlock, no late audit failure and the clock running forward. */
  lemma UnforcedUnlockCounterexample() returns (events: seq<Event>)
    ensures AreRivals(After(0, events), 1, 2) && IsUnforced(events)
  {
    events := ClaimTakenOver();
    UnlockBetweenCheckAndWriteBreaksExclusion(After(0, events), 1, 2, 0);
    events := Extend(0, events, WriteUnlock(0));
    events := Extend(0, events, Attempt(2));
    if !AreRivals(After(0, events), 1, 2) {
      events := Extend(0, events, Attempt(2));
    }
  }

  /**
   Without a transactional unit of work the audit row is written after promotion. If that write fails after
   another run has acquired the tenant, the failure path takes the new claim away.
   */
  lemma LateAuditFailureBreaksExclusion(s: State, finished: nat, holder: nat, other: nat, message: string)
    requires PhaseOf(s, finished) == Promoted && RefOf(s, finished) == RefOf(s, holder)
    requires IsActive(PhaseOf(s, holder)) && IsWaiting(s, other, RefOf(s, holder)) &&
      IsLive(s.tenants, RefOf(s, holder))
    ensures var s1 := Next(s, AuditFailed(finished, message));
            AreRivals(Next(s1, Attempt(other)), holder, other)
            || AreRivals(Next(Next(s1, Attempt(other)), Attempt(other)), holder, other)
  {
    FailedAudit(s, finished, message);
    FailedTenantIsAcquired(Next(s, AuditFailed(finished, message)), holder, other);
  }

  function PromotedTenant(): Tenant {
    NewTenant("profile", 0).(state := ProductionReady, productionExpiry := Some(99))
  }

  /** A run claims the tenant and stores its signing material. */
  lemma FirstMaterial() returns (events: seq<Event>)
    ensures After(0, events) ==
            State(map["t" := ClaimedTenant("a", 10, 0)], map["t" := "m"], map[0 := Run("t", "a", Vaulted(10, 99))],
                  map[], 0)
    ensures IsWithoutUnlock(events)
  {
    events := FirstClaim();
    events := Extend(0, events, PutVault(0, "m", 99));
  }

  /** A run onboards the tenant and has only its audit row still to write. */
  lemma FirstPromotion() returns (events: seq<Event>)
    ensures After(0, events) ==
            State(map["t" := PromotedTenant()], map["t" := "m"], map[0 := Run("t", "a", Promoted)], map[], 0)
    ensures IsWithoutUnlock(events)
  {
    events := FirstMaterial();
    events := Extend(0, events, SetExpiry(0));
    events := Extend(0, events, Promote(0));
  }

  /** Two more runs start, and one of them acquires the promoted tenant at its third attempt. */
  lemma RotationBegins() returns (events: seq<Event>)
    ensures var s := After(0, events);
            IsLive(s.tenants, "t") && PhaseOf(s, 0) == Promoted && RefOf(s, 0) == "t"
            && PhaseOf(s, 1) == Holding(10) && RefOf(s, 1) == "t" && IsWaiting(s, 2, "t")
    ensures IsWithoutUnlock(events)
  {
    events := FirstPromotion();
    events := Extend(0, events, Start(1, "t", "b", 10));
    events := Extend(0, events, Start(2, "t", "c", 10));
    var runs := map[0 := Run("t", "a", Promoted), 1 := Run("t", "b", Trying(0, 10)), 2 := Run("t", "c", Trying(0, 10))];
    assert After(0, events) == State(map["t" := PromotedTenant()], map["t" := "m"], runs, map[], 0);
    events := ThreeAttempts(events);
  }

  /** The promoted tenant, its run, and two runs of which the first is at attempt `n`. */
  predicate IsRotating(s: State, n: nat) {
    && s.now == 0 && s.tenants == map["t" := PromotedTenant()]
    && PhaseOf(s, 0) == Promoted && RefOf(s, 0) == "t" && IsWaiting(s, 2, "t")
    && RefOf(s, 1) == "t" && PhaseOf(s, 1) == Trying(n, 10)
  }

  lemma FailedAttempt(s: State, n: nat)
    requires IsRotating(s, n) && n < 2
    ensures IsRotating(Next(s, Attempt(1)), n + 1)
  {
    AttemptOutcome(s, 1);
    OnlyOwnPhaseMoves(s, Attempt(1));
  }

  lemma ThreeAttempts(before: seq<Event>) returns (events: seq<Event>)
    requires IsWithoutUnlock(before) && IsRotating(After(0, before), 0)
    ensures var s := After(0, events);
            IsLive(s.tenants, "t") && PhaseOf(s, 0) == Promoted && RefOf(s, 0) == "t"
            && PhaseOf(s, 1) == Holding(10) && RefOf(s, 1) == "t" && IsWaiting(s, 2, "t")
    ensures IsWithoutUnlock(events)
  {
    FailedAttempt(After(0, before), 0);
    events := Extend(0, before, Attempt(1));
    FailedAttempt(After(0, events), 1);
    events := Extend(0, events, Attempt(1));
    AcquiredRotation(After(0, events));
    events := Extend(0, events, Attempt(1));
  }

  lemma AcquiredRotation(s: State)
    requires IsRotating(s, 2)
    ensures var s' := Next(s, Attempt(1));
            IsLive(s'.tenants, "t") && PhaseOf(s', 0) == Promoted && RefOf(s', 0) == "t"
            && PhaseOf(s', 1) == Holding(10) && RefOf(s', 1) == "t" && IsWaiting(s', 2, "t")
  {
    AttemptOutcome(s, 1);
    OnlyOwnPhaseMoves(s, Attempt(1));
  }

  /** So exclusion fails on a run with no unlock at all, within one instant, through the failed audit write alone. */
  lemma LateAuditCounterexample() returns (events: seq<Event>)
    ensures AreRivals(After(0, events), 1, 2) && IsWithoutUnlock(events)
  {
    events := RotationBegins();
    LateAuditFailureBreaksExclusion(After(0, events), 0, 1, 2, "audit log unavailable");
    events := Extend(0, events, AuditFailed(0, "audit log unavailable"));
    events := Extend(0, events, Attempt(2));
    if !AreRivals(After(0, events), 1, 2) {
      events := Extend(0, events, Attempt(2));
    }
  }
}
