/** `runOnboarding` as one sequential call (packages/server/src/onboarding/run.ts). */
module OnboardingRun {
  import opened Options
  import opened TenantRegistry
  import opened Onboarding

  datatype Progress = Progress(scenario: string, passed: bool)

  /**
   What the handshake and the audit log do, after the scenarios the handshake reports on the way; `expiry` is None
   when the certificate's expiry cannot be parsed.
   */
  datatype Handshake =
    | Throws(progress: seq<Progress>, message: string)
    | Reports(progress: seq<Progress>, passed: bool, material: Material<string>, expiry: Option<int>,
        auditError: Option<string>)

  /** The last report on each scenario counts. */
  function WithProgress(scenarios: map<string, bool>, progress: seq<Progress>): map<string, bool> {
    if progress == [] then scenarios
    else
      var last := progress[|progress| - 1];
      WithProgress(scenarios, progress[..|progress| - 1])[last.scenario := last.passed]
  }

  method ReportProgress(store: TenantStore, ref: string, progress: seq<Progress>, now: int)
    requires IsLive(store.records, ref)
    modifies store
    ensures store.records.Keys == old(store.records.Keys)
    ensures forall other :: other != ref && other in old(store.records) ==>
      store.records[other] == old(store.records)[other]
    ensures store.records[ref] == old(store.records)[ref].(
      scenarios := WithProgress(old(store.records)[ref].scenarios, progress), updatedAt := store.records[ref].updatedAt)
  {
    var i := 0;
    while i < |progress|
      invariant i <= |progress| && store.records.Keys == old(store.records.Keys)
      invariant forall other :: other != ref && other in old(store.records) ==>
        store.records[other] == old(store.records)[other]
      invariant store.records[ref] == old(store.records)[ref].(
        scenarios := WithProgress(old(store.records)[ref].scenarios, progress[..i]),
        updatedAt := store.records[ref].updatedAt)
    {
      assert progress[..i + 1][..i] == progress[..i];
      var _ := store.RecordOnboardingProgress(ref, progress[i].scenario, progress[i].passed, now);
      i := i + 1;
    }
    assert progress[..i] == progress;
  }

  datatype RunResult = UnknownTenant | AlreadyOnboarding | Onboarded(tenant: Tenant) | OnboardingFailed(message: string)

  /** The states the lock may be taken from: any but revoked, and onboarding only with a stale claim. */
  predicate IsAcquirable(t: Tenant, now: int) {
    t.state == Created || t.state == Failed || t.state == ProductionReady || IsStaleClaim(t, now)
  }

  function Claimed(t: Tenant, instance: string, expires: int, now: int): Tenant {
    WithState(t, TenantState.Onboarding, StateOptions(None, Some(instance), Some(expires), None), now)
  }

  /** Tries the four starting states in order; one compare-and-swap at most takes effect. */
  method AcquireLock(store: TenantStore, ref: string, instance: string, expires: int, now: int) returns (acquired: bool)
    modifies store
    ensures acquired <==> IsLive(old(store.records), ref) && IsAcquirable(old(store.records)[ref], now)
    ensures store.records ==
            if acquired then old(store.records)[ref := Claimed(old(store.records)[ref], instance, expires, now)]
            else old(store.records)
  {
    acquired := false;
    var i := 0;
    while i < |ORDER| && !acquired
      invariant 0 <= i <= |ORDER|
      invariant !acquired ==> store.records == old(store.records)
      invariant !acquired && IsLive(store.records, ref) ==>
                  forall j :: 0 <= j < i ==> !MayTransition(store.records[ref], Some(ORDER[j]), now)
      invariant acquired ==> IsLive(old(store.records), ref) && IsAcquirable(old(store.records)[ref], now)
      invariant acquired ==>
                  store.records == old(store.records)[ref := Claimed(old(store.records)[ref], instance, expires, now)]
    {
      var r := store.SetState(ref, TenantState.Onboarding,
        StateOptions(Some(ORDER[i]), Some(instance), Some(expires), None), now);
      acquired := r.Ok?;
      i := i + 1;
    }
    if !acquired {
      assert ORDER[0] == Created && ORDER[1] == Failed && ORDER[2] == ProductionReady;
    }
  }

  /** A failed compliance report, and an expiry that cannot be parsed, are errors of their own. */
  function ReportError(ref: string, passed: bool, expiry: Option<int>): (error: Option<string>)
    ensures error.None? <==> passed && expiry.Some?
  {
    if !passed then Some("Compliance tests failed for tenant '" + ref + "'.")
    else if expiry.None? then
      Some("Onboarding succeeded but production certificate expiry could not be parsed for '" + ref + "'.")
    else None
  }

  /** The handshake succeeds as far as the final batch of writes. */
  predicate ReachesBatch(handshake: Handshake) {
    handshake.Reports? && handshake.passed && handshake.expiry.Some?
  }

  /** What an error after the acquisition says. */
  function FailureMessage(ref: string, handshake: Handshake): Option<string> {
    match handshake
    case Throws(_, message) => Some(message)
    case Reports(_, passed, _, expiry, auditError) =>
      var error := ReportError(ref, passed, expiry);
      if error.Some? then error else auditError
  }

  /** The tenant after a run that acquired it: no claim is left, and the scenarios reported on the way are recorded. */
  function Released(t: Tenant, handshake: Handshake, later: int): Tenant {
    t.(claimedBy := None, claimExpiresAt := None, updatedAt := later,
       scenarios := WithProgress(t.scenarios, handshake.progress),
       productionExpiry := if ReachesBatch(handshake) then handshake.expiry else t.productionExpiry)
  }

  /**
   When each result occurs, and what the registry and the vault then hold: nothing new when the lock is refused;
   otherwise the promoted or failed record, and the material when the handshake got as far as the final writes.
   */
  ghost predicate IsOutcome<E>(cipher: Cipher<E>, before: map<string, Tenant>, rows: map<string, Material<E>>,
      after: map<string, Tenant>, rowsAfter: map<string, Material<E>>, ref: string, handshake: Handshake, now: int,
      later: int, result: RunResult)
  {
    var acquires := IsLive(before, ref) && IsAcquirable(before[ref], now);
    && (result == UnknownTenant <==> !IsLive(before, ref))
    && (result == AlreadyOnboarding <==> IsLive(before, ref) && !acquires)
    && (result.Onboarded? <==> acquires && ReachesBatch(handshake) && handshake.auditError.None?)
    && (result.OnboardingFailed? ==> Some(result.message) == FailureMessage(ref, handshake))
    && (!acquires ==> after == before && rowsAfter == rows)
    && (acquires ==>
      && ref in after
      && (forall other :: other != ref && other in before ==> other in after && after[other] == before[other])
      && rowsAfter == (if ReachesBatch(handshake) then rows[ref := Encrypted(cipher, handshake.material)] else rows)
      && after[ref] == if result.Onboarded? then Released(before[ref], handshake, later).(state := ProductionReady)
        else Released(before[ref], handshake, later).(
          state := Failed, lastError := FailureMessage(ref, handshake)))
    && (result.Onboarded? ==> ref in after && result.tenant == after[ref])
  }

  /** `now` is the time of the acquisition, `later` the time of the final writes. */
  method RunOnboarding<E>(store: TenantStore, vault: CredentialVault<E>, ref: string, instance: string, ttl: int,
                          now: int, later: int, handshake: Handshake)
    returns (result: RunResult)
    modifies store, vault
    ensures IsOutcome(vault.cipher, old(store.records), old(vault.rows), store.records, vault.rows, ref, handshake, now,
              later, result)
  {
    var existing := store.Get(ref);
    if existing.None? {
      return UnknownTenant;
    }
    if existing.value.state == TenantState.Onboarding && existing.value.claimExpiresAt.Some? &&
      existing.value.claimExpiresAt.value > now {
      return AlreadyOnboarding;
    }
    var acquired := AcquireLock(store, ref, instance, now + ttl, now);
    if !acquired {
      return AlreadyOnboarding;
    }
    result := Conclude(store, vault, ref, handshake, now, later);
  }

  /** The part after the lock is acquired: the handshake, the final writes, and the failure path. */
  method Conclude<E>(store: TenantStore, vault: CredentialVault<E>, ref: string, handshake: Handshake, now: int,
                     later: int)
    returns (result: RunResult)
    requires IsLive(store.records, ref)
    modifies store, vault
    ensures result.Onboarded? <==> ReachesBatch(handshake) && handshake.auditError.None?
    ensures !result.Onboarded? ==>
              result.OnboardingFailed? && Some(result.message) == FailureMessage(ref, handshake)
    ensures ref in store.records && (result.Onboarded? ==> result.tenant == store.records[ref])
    ensures store.records[ref] ==
      if result.Onboarded? then Released(old(store.records)[ref], handshake, later).(state := ProductionReady)
      else Released(old(store.records)[ref], handshake, later).(
        state := Failed, lastError := FailureMessage(ref, handshake))
    ensures vault.rows == if ReachesBatch(handshake)
                          then old(vault.rows)[ref := Encrypted(vault.cipher, handshake.material)] else old(vault.rows)
    ensures forall other :: other != ref && other in old(store.records) ==>
              other in store.records && store.records[other] == old(store.records)[other]
  {
    ReportProgress(store, ref, handshake.progress, now);
    var error: Option<string> := None;
    match handshake {
      case Throws(_, message) =>
        error := Some(message);
      case Reports(_, passed, material, expiry, auditError) =>
        error := ReportError(ref, passed, expiry);
        if error.None? {
          vault.Put(ref, material);
          var dated := store.SetProductionExpiry(ref, expiry.value, later);
          var promoted := store.SetState(ref, ProductionReady, NO_OPTIONS, later);
          if auditError.None? {
            return Onboarded(store.records[ref]);
          }
          error := auditError;
        }
    }
    var released := store.SetState(ref, Failed, NO_OPTIONS.(lastError := error), later);
    return OnboardingFailed(error.value);
  }
}
