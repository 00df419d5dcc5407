/**
 Ownership of the onboarding claim (packages/server/src/onboarding/run.ts:247-397): which steps leave every active run
 with its own fresh claim, so that no two are active on one tenant. `OnboardingRivals` says when a second run can
 become active.
 */
module OnboardingExclusion {
  import opened Options
  import opened TenantRegistry
  import opened Onboarding

  /** No run is active on the tenant, or the tenant is unknown or deleted, so that no state can be taken away. */
  ghost predicate MeetsNoHolder(s: State, ref: string) {
    IsLive(s.tenants, ref) ==> forall q :: RefOf(s, q) == ref ==> !IsActive(PhaseOf(s, q))
  }

  /**
   The step takes no claim away from an active run: the clock stays below the deadline of every run that is active
   on a live tenant; a claim is still fresh when it is acquired; and an unlock, or the failure of an audit write
   after promotion, meets no active run on its tenant.
   */
  ghost predicate KeepsClaims(s: State, e: Event) {
    match e
    case Tick(t) =>
      forall p :: IsActive(PhaseOf(s, p)) && IsLive(s.tenants, RefOf(s, p)) ==> t < PhaseOf(s, p).expires
    case Attempt(p) => Acquires(s, e) ==> s.now < PhaseOf(s, p).expires
    case WriteUnlock(u) => u in s.unlocks ==> MeetsNoHolder(s, s.unlocks[u].ref)
    case AuditFailed(p, _) => PhaseOf(s, p) == Promoted ==> MeetsNoHolder(s, RefOf(s, p))
    case _ => true
  }

  /** While a run is active its tenant is deleted, or carries exactly this run's unexpired claim. */
  predicate OwnsClaim(s: State, p: nat) {
    IsActive(PhaseOf(s, p)) ==>
      RefOf(s, p) in s.tenants &&
      (IsLive(s.tenants, RefOf(s, p)) ==>
        IsFreshClaim(s.tenants[RefOf(s, p)], s.now) &&
        s.tenants[RefOf(s, p)].claimExpiresAt == Some(PhaseOf(s, p).expires))
  }

  predicate AreRivals(s: State, p: nat, q: nat) {
    p != q && RefOf(s, p) == RefOf(s, q) && IsActive(PhaseOf(s, p)) && IsActive(PhaseOf(s, q))
  }

  /** Every active run owns its tenant's fresh claim, and no two runs are active on one tenant. */
  ghost predicate Exclusive(s: State) {
    (forall p :: OwnsClaim(s, p)) && forall p, q :: !AreRivals(s, p, q)
  }

  lemma RegistryStepsKeepExclusion(s: State, e: Event)
    requires Exclusive(s) && KeepsClaims(s, e)
    requires e.Tick? || e.Create? || e.Patch? || e.SoftDelete? || e.CheckUnlock? || e.WriteUnlock? || e.Start?
    ensures Exclusive(Next(s, e))
  {
    var s' := Next(s, e);
    forall p ensures IsActive(PhaseOf(s', p)) ==> PhaseOf(s', p) == PhaseOf(s, p) && RefOf(s', p) == RefOf(s, p) {
    }
    forall p ensures OwnsClaim(s', p) {
      assert OwnsClaim(s, p);
    }
    forall p, q ensures !AreRivals(s', p, q) {
      assert !AreRivals(s, p, q);
    }
  }

  /** A successful acquisition finds no active run on its tenant. */
  lemma AcquisitionExcludesOthers(s: State, p: nat, q: nat)
    requires Exclusive(s) && p in s.runs && s.runs[p].phase.Trying? && s.runs[p].phase.next < |ORDER|
    requires Acquire(s, p).1.Ok? && RefOf(s, q) == RefOf(s, p)
    ensures !IsActive(PhaseOf(s, q))
  {
    assert OwnsClaim(s, q);
  }

  /** A run that is active after its step was active before it, or has just acquired. */
  lemma ActiveOrigin(s: State, e: Event)
    requires IsRunEvent(s, e) && IsActive(PhaseOf(RunStep(s, e), e.run))
    ensures IsActive(PhaseOf(s, e.run)) || Acquires(s, e)
  {
  }

  /** A step of a run that neither is active nor acquires leaves another run's fresh claim alone. */
  lemma BystanderKeepsClaim(s: State, e: Event, q: nat)
    requires IsRunEvent(s, e) && KeepsClaims(s, e) && !IsActive(PhaseOf(s, e.run)) && !Acquires(s, e)
    requires IsLive(s.tenants, RefOf(s, e.run)) && IsFreshClaim(s.tenants[RefOf(s, e.run)], s.now)
    requires RefOf(s, q) == RefOf(s, e.run) && IsActive(PhaseOf(s, q))
    ensures RunStep(s, e).tenants == s.tenants
  {
  }

  lemma OwnClaimKept(s: State, e: Event)
    requires IsRunEvent(s, e) && KeepsClaims(s, e) && OwnsClaim(s, e.run)
    ensures OwnsClaim(RunStep(s, e), e.run)
  {
  }

  lemma RunStepKeepsOthers(s: State, e: Event, q: nat)
    requires Exclusive(s) && KeepsClaims(s, e) && IsRunEvent(s, e) && q != e.run && IsActive(PhaseOf(s, q))
    ensures OwnsClaim(RunStep(s, e), q)
    ensures !AreRivals(RunStep(s, e), q, e.run) && !AreRivals(RunStep(s, e), e.run, q)
  {
    var ref := RefOf(s, q);
    assert OwnsClaim(s, q) && !AreRivals(s, e.run, q);
    RunStepFrame(s, e, q, ref);
    RunStepFrame(s, e, e.run, ref);
    if RefOf(s, e.run) == ref {
      if Acquires(s, e) {
        AcquisitionExcludesOthers(s, e.run, q);
      }
      if IsActive(PhaseOf(RunStep(s, e), e.run)) {
        ActiveOrigin(s, e);
      }
      if IsLive(s.tenants, ref) {
        BystanderKeepsClaim(s, e, q);
      } else {
        DeletedTenantFrozen(s, e, ref);
      }
    }
  }

  lemma RunStepsKeepExclusion(s: State, e: Event)
    requires Exclusive(s) && KeepsClaims(s, e) && IsRunEvent(s, e)
    ensures Exclusive(RunStep(s, e))
  {
    var s' := RunStep(s, e);
    assert OwnsClaim(s, e.run);
    OwnClaimKept(s, e);
    forall p ensures OwnsClaim(s', p) {
      RunStepFrame(s, e, p, "");
      if p != e.run && IsActive(PhaseOf(s, p)) {
        RunStepKeepsOthers(s, e, p);
      }
    }
    forall p, q ensures !AreRivals(s', p, q) {
      RunStepFrame(s, e, p, "");
      RunStepFrame(s, e, q, "");
      assert !AreRivals(s, p, q);
      if p != e.run && IsActive(PhaseOf(s, p)) {
        RunStepKeepsOthers(s, e, p);
      }
      if q != e.run && IsActive(PhaseOf(s, q)) {
        RunStepKeepsOthers(s, e, q);
      }
    }
  }

  lemma StepKeepsExclusion(s: State, e: Event)
    requires Exclusive(s) && KeepsClaims(s, e)
    ensures Exclusive(Next(s, e))
  {
    if IsRunEvent(s, e) {
      RunStepsKeepExclusion(s, e);
    } else if e.Tick? || e.Create? || e.Patch? || e.SoftDelete? || e.CheckUnlock? || e.WriteUnlock? || e.Start? {
      RegistryStepsKeepExclusion(s, e);
    }
  }

  // ---- And only such steps do -------------------------------------------------------------------

  lemma LateTickLosesClaim(s: State, t: int)
    requires Exclusive(s) && !KeepsClaims(s, Tick(t))
    ensures !Exclusive(Next(s, Tick(t)))
  {
    var p :| IsActive(PhaseOf(s, p)) && IsLive(s.tenants, RefOf(s, p)) && t >= PhaseOf(s, p).expires;
    assert OwnsClaim(s, p);
    assert !OwnsClaim(Next(s, Tick(t)), p);
  }

  lemma StaleAcquisitionLosesClaim(s: State, p: nat)
    requires !KeepsClaims(s, Attempt(p))
    ensures !OwnsClaim(Next(s, Attempt(p)), p)
  {
  }

  lemma WriteTakesClaim(s: State, e: Event, ref: string)
    requires Exclusive(s) && !MeetsNoHolder(s, ref) && IsLive(Next(s, e).tenants, ref)
    requires Next(s, e).tenants[ref].state == Failed
    requires forall q :: IsActive(PhaseOf(s, q)) ==>
      PhaseOf(Next(s, e), q) == PhaseOf(s, q) && RefOf(Next(s, e), q) == RefOf(s, q)
    ensures !Exclusive(Next(s, e))
  {
    var q :| RefOf(s, q) == ref && IsActive(PhaseOf(s, q));
    assert !OwnsClaim(Next(s, e), q);
  }

  lemma OtherStepsLoseExclusion(s: State, e: Event)
    requires Exclusive(s) && !KeepsClaims(s, e)
    ensures !Exclusive(Next(s, e))
  {
    match e
    case Tick(t) => LateTickLosesClaim(s, t);
    case Attempt(p) => StaleAcquisitionLosesClaim(s, p);
    case WriteUnlock(u) =>
      WrittenUnlock(s, u);
      WriteTakesClaim(s, e, s.unlocks[u].ref);
    case AuditFailed(p, message) =>
      FailedAudit(s, p, message);
      WriteTakesClaim(s, e, RefOf(s, p));
  }

  lemma WrittenUnlock(s: State, u: nat)
    requires u in s.unlocks && IsLive(s.tenants, s.unlocks[u].ref)
    ensures var s1 := Next(s, WriteUnlock(u));
            s1.runs == s.runs && IsLive(s1.tenants, s.unlocks[u].ref) && s1.tenants[s.unlocks[u].ref].state == Failed
  {
  }

  lemma FailedAudit(s: State, p: nat, message: string)
    requires PhaseOf(s, p) == Promoted && IsLive(s.tenants, RefOf(s, p))
    ensures var s1 := Next(s, AuditFailed(p, message));
            s1.runs == s.runs[p := s.runs[p].(phase := Ended)] && IsLive(s1.tenants, RefOf(s, p)) &&
            s1.tenants[RefOf(s, p)].state == Failed
  {
  }

  /** One step: that every active run owns its claim is kept exactly by the steps that take no claim away. */
  lemma StepKeepsExclusionIff(s: State, e: Event)
    requires Exclusive(s)
    ensures Exclusive(Next(s, e)) <==> KeepsClaims(s, e)
  {
    if KeepsClaims(s, e) {
      StepKeepsExclusion(s, e);
    } else {
      OtherStepsLoseExclusion(s, e);
    }
  }

  /** Every step of the run takes no claim away. */
  ghost predicate AllKeepClaims(now: int, events: seq<Event>) {
    events != [] ==>
      var before := events[..|events| - 1];
      AllKeepClaims(now, before) && KeepsClaims(After(now, before), events[|events| - 1])
  }

  /** Every state of the run, from the first to the last, is exclusive. */
  ghost predicate ExclusiveThroughout(now: int, events: seq<Event>) {
    Exclusive(After(now, events)) && (events != [] ==> ExclusiveThroughout(now, events[..|events| - 1]))
  }

  /** Over whole runs: every active run owns its claim throughout if and only if no step takes a claim away. */
  lemma {:induction false} ExclusiveIffClaimsKept(now: int, events: seq<Event>)
    ensures ExclusiveThroughout(now, events) <==> AllKeepClaims(now, events)
  {
    if events != [] {
      var before := events[..|events| - 1];
      ExclusiveIffClaimsKept(now, before);
      if ExclusiveThroughout(now, before) {
        StepKeepsExclusionIff(After(now, before), events[|events| - 1]);
      }
    }
  }

  /** Onboarding is mutually exclusive per tenant: at most one non-crashed run is between acquire and final setState. */
  lemma AtMostOneActiveRun(now: int, events: seq<Event>, p: nat, q: nat)
    requires AllKeepClaims(now, events)
    ensures !AreRivals(After(now, events), p, q)
  {
    ExclusiveIffClaimsKept(now, events);
  }

  // ---- Which unlocks are harmless ----------------------------------------------------------------

  /** An unforced unlock that is written at once, with no step in between, takes no claim away. */
  lemma ImmediateUnlockKeepsClaims(s: State, u: nat, ref: string)
    requires Exclusive(s) && u !in s.unlocks
    ensures KeepsClaims(Next(s, CheckUnlock(u, ref, false)), WriteUnlock(u))
  {
    var s1 := Next(s, CheckUnlock(u, ref, false));
    if u in s1.unlocks {
      forall q | RefOf(s1, q) == ref ensures !IsActive(PhaseOf(s1, q)) {
        assert OwnsClaim(s, q);
      }
    }
  }

  /** A forced unlock takes no claim away, however fresh, when its holder is dead and nobody has followed. */
  lemma ForcedUnlockOfDeadHolder(s: State, u: nat, ref: string, holder: nat)
    requires Exclusive(s) && u !in s.unlocks && holder in s.runs && RefOf(s, holder) == ref
    requires IsActive(PhaseOf(s, holder))
    ensures KeepsClaims(Next(Next(s, Crash(holder)), CheckUnlock(u, ref, true)), WriteUnlock(u))
  {
    var s1 := Next(Next(s, Crash(holder)), CheckUnlock(u, ref, true));
    forall q | RefOf(s1, q) == ref ensures !IsActive(PhaseOf(s1, q)) {
      assert !AreRivals(s, q, holder);
    }
  }
}
