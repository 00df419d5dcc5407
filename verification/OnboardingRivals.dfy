/**
 When a second onboarding run can become active beside another one: exactly on those runs of the system on which
 some step takes a claim away (packages/server/src/onboarding/run.ts:209-397).
 */
module OnboardingRivals {
  import opened Options
  import opened Collections
  import opened TenantRegistry
  import opened Onboarding
  import opened OnboardingExclusion
  import opened OnboardingLifecycle

  /** One more run, started now and attempted four times, would be active beside another one. */
  ghost predicate AdmitsRival(s: State) {
    exists q: nat, p: nat, instance: string, ttl: int ::
      p !in s.runs && AreRivals(Retried(s, p, RefOf(s, q), instance, ttl, s.now), q, p)
  }

  /** No two runs are active on one tenant, and no further run would join one. */
  ghost predicate IsSafe(s: State) {
    !AdmitsRival(s) && forall p, q :: !AreRivals(s, p, q)
  }

  ghost predicate SafeThroughout(now: int, events: seq<Event>) {
    IsSafe(After(now, events)) && (events != [] ==> SafeThroughout(now, events[..|events| - 1]))
  }

  // ---- Owned claims keep others out ---------------------------------------------------------------

  lemma RefusedOutcome(s: State, p: nat, ref: string, instance: string, ttl: int)
    requires p !in s.runs && (IsLive(s.tenants, ref) ==> IsFreshClaim(s.tenants[ref], s.now))
    ensures PhaseOf(Retried(s, p, ref, instance, ttl, s.now), p) == Ended
  {
    AttemptsAfterEnd(Next(Next(s, Tick(s.now)), Start(p, ref, instance, ttl)), p, |ORDER|);
  }

  lemma {:induction false} AttemptsKeepOthers(s: State, p: nat, n: nat, q: nat)
    requires q != p
    ensures PhaseOf(Attempts(s, p, n), q) == PhaseOf(s, q) && RefOf(Attempts(s, p, n), q) == RefOf(s, q)
    ensures RefOf(Attempts(s, p, n), p) == RefOf(s, p)
    decreases n
  {
    if n > 0 {
      if IsRunEvent(s, Attempt(p)) {
        RunsFrame(s, Attempt(p), q);
        RunsFrame(s, Attempt(p), p);
      }
      AttemptsKeepOthers(Next(s, Attempt(p)), p, n - 1, q);
    }
  }

  lemma RetriedKeepsOthers(s: State, p: nat, ref: string, instance: string, ttl: int, q: nat)
    requires p !in s.runs && q != p
    ensures var s' := Retried(s, p, ref, instance, ttl, s.now);
      PhaseOf(s', q) == PhaseOf(s, q) && RefOf(s', q) == RefOf(s, q) && RefOf(s', p) == ref
  {
    AttemptsKeepOthers(Next(Next(s, Tick(s.now)), Start(p, ref, instance, ttl)), p, |ORDER|, q);
  }

  lemma ExclusiveIsSafe(s: State)
    requires Exclusive(s)
    ensures IsSafe(s)
  {
    forall q: nat, p: nat, instance: string, ttl: int | p !in s.runs
      ensures !AreRivals(Retried(s, p, RefOf(s, q), instance, ttl, s.now), q, p)
    {
      assert OwnsClaim(s, q);
      if q != p && IsActive(PhaseOf(s, q)) {
        RefusedOutcome(s, p, RefOf(s, q), instance, ttl);
      } else if q != p {
        RetriedKeepsOthers(s, p, RefOf(s, q), instance, ttl, q);
      }
    }
  }

  // ---- A run without a fresh claim can be joined --------------------------------------------------

  predicate IsExposed(s: State, q: nat) {
    IsActive(PhaseOf(s, q)) && IsLive(s.tenants, RefOf(s, q)) && !IsFreshClaim(s.tenants[RefOf(s, q)], s.now)
  }

  lemma ExposedAdmitsRival(s: State, q: nat)
    requires Lifecycle(s) && IsExposed(s, q)
    ensures AdmitsRival(s)
  {
    var p := BeyondAll(s.runs.Keys);
    var ref := RefOf(s, q);
    assert TenantInv(s, ref);
    RetriedKeepsOthers(s, p, ref, "", 0, q);
    FreshRunHolds(s, p, ref, "", 0, s.now);
    assert p !in s.runs && AreRivals(Retried(s, p, RefOf(s, q), "", 0, s.now), q, p);
  }

  lemma WriteExposes(s: State, e: Event, ref: string) returns (q: nat)
    requires !MeetsNoHolder(s, ref) && IsLive(Next(s, e).tenants, ref) && Next(s, e).tenants[ref].state == Failed
    requires forall q :: IsActive(PhaseOf(s, q)) ==>
      PhaseOf(Next(s, e), q) == PhaseOf(s, q) && RefOf(Next(s, e), q) == RefOf(s, q)
    ensures IsExposed(Next(s, e), q)
  {
    q :| RefOf(s, q) == ref && IsActive(PhaseOf(s, q));
  }

  lemma LateTickExposes(s: State, t: int) returns (q: nat)
    requires Exclusive(s) && !KeepsClaims(s, Tick(t))
    ensures IsExposed(Next(s, Tick(t)), q)
  {
    q :| IsActive(PhaseOf(s, q)) && IsLive(s.tenants, RefOf(s, q)) && t >= PhaseOf(s, q).expires;
    assert OwnsClaim(s, q);
  }

  lemma StaleAcquisitionExposes(s: State, p: nat)
    requires !KeepsClaims(s, Attempt(p))
    ensures IsExposed(Next(s, Attempt(p)), p)
  {
  }

  lemma OtherStepsExpose(s: State, e: Event) returns (q: nat)
    requires Exclusive(s) && !KeepsClaims(s, e)
    ensures IsExposed(Next(s, e), q)
  {
    match e
    case Tick(t) => q := LateTickExposes(s, t);
    case Attempt(p) =>
      StaleAcquisitionExposes(s, p);
      q := p;
    case WriteUnlock(u) =>
      WrittenUnlock(s, u);
      q := WriteExposes(s, e, s.unlocks[u].ref);
    case AuditFailed(p, message) =>
      FailedAudit(s, p, message);
      q := WriteExposes(s, e, RefOf(s, p));
  }

  /**
   Main result: throughout a run of the system no two runs are active on one tenant, and none could be joined by
   another one, if and only if no step takes a claim away.
   */
  lemma {:induction false} SafeIffClaimsKept(now: int, events: seq<Event>)
    ensures SafeThroughout(now, events) <==> AllKeepClaims(now, events)
  {
    ExclusiveIffClaimsKept(now, events);
    if AllKeepClaims(now, events) {
      ExclusiveIsSafe(After(now, events));
    }
    if events != [] {
      var before := events[..|events| - 1];
      SafeIffClaimsKept(now, before);
      ExclusiveIffClaimsKept(now, before);
      if AllKeepClaims(now, before) && !AllKeepClaims(now, events) {
        LifecycleAlways(now, events);
        var q := OtherStepsExpose(After(now, before), events[|events| - 1]);
        ExposedAdmitsRival(After(now, events), q);
      }
    }
  }
}
