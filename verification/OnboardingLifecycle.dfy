/**
 What every reachable state of the tenant store satisfies, and that none of them is stuck
 (packages/server/src/tenants/registry-memory.ts:117-294, packages/server/src/onboarding/run.ts:334-397).
 */
module OnboardingLifecycle {
  import opened Options
  import opened TenantRegistry
  import opened Onboarding

  predicate TenantOk(t: Tenant) {
    (t.claimExpiresAt.Some? || t.claimedBy.Some? ==> t.state == TenantState.Onboarding || t.state == Revoked) &&
    (t.state == Revoked <==> t.deletedAt.Some?) &&
    (t.state == ProductionReady ==> t.productionExpiry.Some?)
  }

  predicate TenantInv(s: State, ref: string) {
    ref in s.tenants ==> TenantOk(s.tenants[ref]) && (s.tenants[ref].state == ProductionReady ==> ref in s.vault)
  }

  predicate RunInv(s: State, p: nat) {
    (PhaseOf(s, p).Vaulted? ==> RefOf(s, p) in s.vault) &&
    (PhaseOf(s, p).Dated? ==>
      RefOf(s, p) in s.vault && RefOf(s, p) in s.tenants && s.tenants[RefOf(s, p)].productionExpiry.Some?)
  }

  ghost predicate Lifecycle(s: State) {
    (forall ref :: TenantInv(s, ref)) && forall p :: RunInv(s, p)
  }

  lemma StepKeepsTenantInv(s: State, e: Event, ref: string)
    requires TenantInv(s, ref) && (IsRunEvent(s, e) ==> RunInv(s, e.run))
    ensures TenantInv(Next(s, e), ref)
  {
    if IsRunEvent(s, e) {
      RunStepKeepsTenantInv(s, e, ref);
    }
  }

  lemma RunStepKeepsTenantInv(s: State, e: Event, ref: string)
    requires TenantInv(s, ref) && IsRunEvent(s, e) && RunInv(s, e.run)
    ensures TenantInv(RunStep(s, e), ref)
  {
  }

  /** Nothing removes a vault row, a tenant, or a recorded production expiry. */
  lemma StepOnlyAdds(s: State, e: Event, ref: string)
    ensures ref in s.vault ==> ref in Next(s, e).vault
    ensures ref in s.tenants ==> ref in Next(s, e).tenants
    ensures ref in s.tenants && s.tenants[ref].productionExpiry.Some? ==> Next(s, e).tenants[ref].productionExpiry.Some?
  {
    if IsRunEvent(s, e) {
      RunStepOnlyAdds(s, e, ref);
    }
  }

  lemma RunStepOnlyAdds(s: State, e: Event, ref: string)
    requires IsRunEvent(s, e)
    ensures ref in s.vault ==> ref in RunStep(s, e).vault
    ensures ref in s.tenants ==> ref in RunStep(s, e).tenants
    ensures ref in s.tenants && s.tenants[ref].productionExpiry.Some? ==>
      RunStep(s, e).tenants[ref].productionExpiry.Some?
  {
  }

  lemma OwnRunInvKept(s: State, e: Event)
    requires IsRunEvent(s, e) && RunInv(s, e.run)
    ensures RunInv(RunStep(s, e), e.run)
  {
  }

  lemma StepKeepsRunInv(s: State, e: Event, p: nat)
    requires RunInv(s, p)
    ensures RunInv(Next(s, e), p)
  {
    StepOnlyAdds(s, e, RefOf(s, p));
    if IsRunEvent(s, e) {
      RunsFrame(s, e, p);
      if p == e.run {
        OwnRunInvKept(s, e);
      }
    }
  }

  /**
   In every reachable state, over all runs of onboarding, rotation, unlock and deletion: a production-ready tenant
   has stored signing material and a production expiry; claim fields appear only in onboarding or revoked records;
   a record is revoked exactly when it is deleted.
   */
  lemma {:induction false} LifecycleAlways(now: int, events: seq<Event>)
    ensures Lifecycle(After(now, events))
  {
    if events != [] {
      var s, e := After(now, events[..|events| - 1]), events[|events| - 1];
      LifecycleAlways(now, events[..|events| - 1]);
      forall ref ensures TenantInv(Next(s, e), ref) {
        assert IsRunEvent(s, e) ==> RunInv(s, e.run);
        StepKeepsTenantInv(s, e, ref);
      }
      forall p ensures RunInv(Next(s, e), p) {
        StepKeepsRunInv(s, e, p);
      }
    }
  }

  lemma RevokedIsFrozen(s: State, e: Event, ref: string)
    requires ref in s.tenants && s.tenants[ref].deletedAt.Some?
    ensures ref in Next(s, e).tenants && Next(s, e).tenants[ref] == s.tenants[ref]
  {
    if IsRunEvent(s, e) {
      RunStepFrame(s, e, e.run, ref);
      DeletedTenantFrozen(s, e, ref);
    }
  }

  /** Once deleted, a ref keeps its record unchanged for the rest of every run and is never created again. */
  lemma {:induction false} RevokedForever(now: int, events: seq<Event>, n: nat, ref: string)
    requires n <= |events| && ref in After(now, events[..n]).tenants
    requires After(now, events[..n]).tenants[ref].deletedAt.Some?
    ensures ref in After(now, events).tenants && After(now, events).tenants[ref] == After(now, events[..n]).tenants[ref]
  {
    if n < |events| {
      var before := events[..|events| - 1];
      assert before[..n] == events[..n];
      RevokedForever(now, before, n, ref);
      RevokedIsFrozen(After(now, before), events[|events| - 1], ref);
    } else {
      assert events[..n] == events;
    }
  }

  // ---- The lock is never lost ----------------------------------------------------------------------

  /** For a tenant in onboarding, a compare-and-swap succeeds exactly when the claim is stale, whatever it expects. */
  lemma OnboardingAcquirableIffStale(s: State, p: nat)
    requires p in s.runs && s.runs[p].phase.Trying? && s.runs[p].phase.next < |ORDER|
    requires IsLive(s.tenants, RefOf(s, p)) && s.tenants[RefOf(s, p)].state == TenantState.Onboarding
    ensures PhaseOf(Next(s, Attempt(p)), p).Holding? <==> IsStaleClaim(s.tenants[RefOf(s, p)], s.now)
  {
  }

  /** Acquiring keeps the error of an earlier failure, so it leaves none behind exactly when there was none. */
  lemma AcquiringLeavesNoErrorIff(s: State, p: nat)
    requires Acquires(s, Attempt(p))
    ensures RefOf(s, p) in s.tenants && PhaseOf(Next(s, Attempt(p)), p).Holding?
    ensures Next(s, Attempt(p)).tenants[RefOf(s, p)].lastError.None? <==> s.tenants[RefOf(s, p)].lastError.None?
  {
  }

  function Attempts(s: State, p: nat, n: nat): State
    decreases n
  {
    if n == 0 then s else Attempts(Next(s, Attempt(p)), p, n - 1)
  }

  /** A fresh run for the tenant, started at time `t`, with its four attempts. */
  function Retried(s: State, p: nat, ref: string, instance: string, ttl: int, t: int): State {
    Attempts(Next(Next(s, Tick(t)), Start(p, ref, instance, ttl)), p, |ORDER|)
  }

  lemma {:induction false} AttemptsAfterEnd(s: State, p: nat, n: nat)
    requires PhaseOf(s, p).Holding? || PhaseOf(s, p) == Ended
    ensures PhaseOf(Attempts(s, p, n), p) == PhaseOf(s, p)
    decreases n
  {
    if n > 0 {
      AttemptsAfterEnd(Next(s, Attempt(p)), p, n - 1);
    }
  }

  lemma AttemptOutcome(s: State, p: nat)
    requires PhaseOf(s, p).Trying? && PhaseOf(s, p).next < |ORDER| && IsLive(s.tenants, RefOf(s, p))
    ensures var s', n, expires := Next(s, Attempt(p)), PhaseOf(s, p).next, PhaseOf(s, p).expires;
      && (PhaseOf(s', p) == Holding(expires) <==> MayTransition(s.tenants[RefOf(s, p)], Some(ORDER[n]), s.now))
      && (PhaseOf(s', p) == Holding(expires)
        || (s'.tenants == s.tenants && s'.now == s.now && RefOf(s', p) == RefOf(s, p)
          && PhaseOf(s', p) == Trying(n + 1, expires)))
  {
  }

  /** The attempts reach the `k`-th starting state unless an earlier one acquires. */
  lemma {:induction false} SomeAttemptAcquires(s: State, p: nat, k: nat, n: nat)
    requires PhaseOf(s, p).Trying? && PhaseOf(s, p).next <= k < PhaseOf(s, p).next + n && k < |ORDER|
    requires IsLive(s.tenants, RefOf(s, p)) && MayTransition(s.tenants[RefOf(s, p)], Some(ORDER[k]), s.now)
    ensures PhaseOf(Attempts(s, p, n), p).Holding?
    decreases n
  {
    AttemptOutcome(s, p);
    var s' := Next(s, Attempt(p));
    if PhaseOf(s', p).Holding? {
      AttemptsAfterEnd(s', p, n - 1);
    } else {
      SomeAttemptAcquires(s', p, k, n - 1);
    }
  }

  lemma StartOutcome(s: State, p: nat, ref: string, instance: string, ttl: int, t: int)
    requires p !in s.runs && IsLive(s.tenants, ref)
    ensures var s' := Next(Next(s, Tick(t)), Start(p, ref, instance, ttl));
      s'.tenants == s.tenants && s'.now == t && RefOf(s', p) == ref
      && PhaseOf(s', p) == if IsFreshClaim(s.tenants[ref], t) then Ended else Trying(0, t + ttl)
  {
  }

  /** A live tenant without a fresh claim is in a state that one of the four attempts expects. */
  lemma SomeStateFits(t: Tenant, now: int) returns (k: nat)
    requires TenantOk(t) && t.deletedAt.None? && !IsFreshClaim(t, now)
    ensures k < |ORDER| && MayTransition(t, Some(ORDER[k]), now)
  {
    k := if t.state == Created then 0 else if t.state == Failed then 1 else if t.state == ProductionReady then 2 else 3;
  }

  lemma FreshRunHolds(s: State, p: nat, ref: string, instance: string, ttl: int, t: int)
    requires p !in s.runs && IsLive(s.tenants, ref) && TenantInv(s, ref)
    ensures PhaseOf(Retried(s, p, ref, instance, ttl, t), p).Holding? <==> !IsFreshClaim(s.tenants[ref], t)
  {
    StartOutcome(s, p, ref, instance, ttl, t);
    var started := Next(Next(s, Tick(t)), Start(p, ref, instance, ttl));
    if IsFreshClaim(s.tenants[ref], t) {
      AttemptsAfterEnd(started, p, |ORDER|);
    } else {
      var k := SomeStateFits(s.tenants[ref], t);
      SomeAttemptAcquires(started, p, k, |ORDER|);
    }
  }

  /**
   Main result: no reachable state is stuck. Whatever has happened, a fresh run that starts at time `t` on a live
   tenant holds the lock after its four attempts exactly when no claim is fresh at `t`.
   */
  lemma NoTenantIsStuck(now: int, events: seq<Event>, p: nat, ref: string, instance: string, ttl: int, t: int)
    requires p !in After(now, events).runs && IsLive(After(now, events).tenants, ref)
    ensures PhaseOf(Retried(After(now, events), p, ref, instance, ttl, t), p).Holding?
      <==> !IsFreshClaim(After(now, events).tenants[ref], t)
  {
    LifecycleAlways(now, events);
    assert TenantInv(After(now, events), ref);
    FreshRunHolds(After(now, events), p, ref, instance, ttl, t);
  }

  lemma CrashOutcome(s: State, holder: nat)
    requires holder in s.runs
    ensures Next(s, Crash(holder)).tenants == s.tenants && Next(s, Crash(holder)).runs.Keys == s.runs.Keys
  {
  }

  /** In particular, a claim whose holder crashes holds up the others until its own deadline and no longer. */
  lemma CrashedClaimRecoverable(now: int, events: seq<Event>, holder: nat, p: nat, instance: string, ttl: int, t: int)
    requires var s := After(now, events);
      IsActive(PhaseOf(s, holder)) && p !in s.runs && IsLive(s.tenants, RefOf(s, holder))
    ensures var s, ref := After(now, events), RefOf(After(now, events), holder);
      PhaseOf(Retried(Next(s, Crash(holder)), p, ref, instance, ttl, t), p).Holding? <==>
        !IsFreshClaim(s.tenants[ref], t)
  {
    var s, crashed := After(now, events), events + [Crash(holder)];
    assert crashed[..|events|] == events;
    CrashOutcome(s, holder);
    NoTenantIsStuck(now, crashed, p, RefOf(s, holder), instance, ttl, t);
  }
}
