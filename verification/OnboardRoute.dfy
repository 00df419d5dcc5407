/**
 The control skeleton of POST /v1/tenants/:ref/onboard and /credentials/rotate
 (packages/server/src/routes/admin-onboard.ts): semaphore slot, request checks, idempotency slot, run, finish.
 */
module OnboardRoute {
  import opened Options
  import opened Idempotency
  import opened Semaphores
  import opened TenantRegistry
  import opened OnboardingRun

  datatype Reply =
    | Throttled                       // 503
    | BadRequest                      // authentication or body validation threw
    | InFlightConflict                // 409
    | ReplayOf(response: Response)
    | Done(response: Response)        // 200
    | Error(result: RunResult)

  /** What the request carries: whether its checks pass, its cache key if it has one, the handshake it will meet. */
  datatype Request = Request(
    wellFormed: bool, cacheKey: Option<string>, ref: string, instance: string, lockTtl: int,
    ttl: int, handshake: Handshake)

  /** The reply to an onboarded tenant; `render` stands for printing its fields as JSON. */
  function RenderSuccess(render: Tenant -> string, tenant: Tenant): Response {
    Response(200, map["content-type" := "application/json; charset=utf-8"], render(tenant))
  }

  /** No response is stored for the request's key, and nobody works on it. */
  predicate IsFirst(request: Request, entries: map<string, Entry>, now: int) {
    request.cacheKey.None? || !IsFresh(entries, request.cacheKey.value, now)
  }

  /**
   A keyed request replays a committed response, is turned away while another one works, and otherwise leaves its
   slot committed with exactly the reply it sends, or free. Without a key it leaves all slots alone.
   */
  predicate FollowsProtocol(
    request: Request, before: map<string, Entry>, after: map<string, Entry>, reply: Reply, now: int, later: int) {
    if request.cacheKey.None? then after == before && (reply.Done? || reply.Error?)
    else
      var key := request.cacheKey.value;
      if IsFresh(before, key, now) then
        after == before &&
        reply ==
          match before[key] case InFlight(_) => InFlightConflict case Committed(response, _) => ReplayOf(response)
      else
        (reply.Done? && after == before[key := Committed(reply.response, later + request.ttl)]) ||
        (reply.Error? && after == before - {key})
  }

  /** The tenant is onboarded: it can be acquired, and the handshake, its checks and the audit row succeed. */
  predicate Succeeds(request: Request, records: map<string, Tenant>, now: int) {
    && IsLive(records, request.ref) && IsAcquirable(records[request.ref], now)
    && ReachesBatch(request.handshake) && request.handshake.auditError.None?
  }

  /** The result of the run that a reply reports. */
  function ResultOf(reply: Reply, request: Request, records: map<string, Tenant>): RunResult {
    match reply
    case Done(_) => if request.ref in records then Onboarded(records[request.ref]) else UnknownTenant
    case Error(result) => result
    case _ => UnknownTenant
  }

  /**
   Whatever the outcome, the semaphore slot is given back; the idempotency slot is committed exactly with the
   reply on success, freed on error, and left alone when the request did not claim it. The reply is the one that the
   run of the onboarding calls for.
   */
  method HandleOnboard<E>(sem: Semaphore, slots: IdempotencyStore, store: TenantStore, vault: CredentialVault<E>,
                          request: Request, render: Tenant -> string, now: int, later: int)
    returns (reply: Reply)
    requires sem.Valid()
    modifies sem, slots, store, vault
    ensures sem.Valid() && sem.count == old(sem.count)
    ensures reply == Throttled <==> old(sem.count) == sem.capacity
    ensures reply == BadRequest <==> old(sem.count) < sem.capacity && !request.wellFormed
    ensures reply.Done? || reply.Error? <==>
      old(sem.count) < sem.capacity && request.wellFormed && IsFirst(request, old(slots.entries), now)
    ensures reply.Done? <==>
      old(sem.count) < sem.capacity && request.wellFormed && IsFirst(request, old(slots.entries), now) &&
      Succeeds(request, old(store.records), now)
    ensures old(sem.count) == sem.capacity || !request.wellFormed ==> slots.entries == old(slots.entries)
    ensures old(sem.count) < sem.capacity && request.wellFormed ==>
              FollowsProtocol(request, old(slots.entries), slots.entries, reply, now, later)
    ensures reply.Done? || reply.Error? ==>
              IsOutcome(vault.cipher, old(store.records), old(vault.rows), store.records, vault.rows, request.ref,
                request.handshake, now, later, ResultOf(reply, request, store.records))
    ensures reply.Done? ==>
              request.ref in store.records && reply.response == RenderSuccess(render, store.records[request.ref])
    ensures !reply.Done? && !reply.Error? ==> store.records == old(store.records) && vault.rows == old(vault.rows)
  {
    var permit := sem.TryAcquire();
    if permit == null {
      return Throttled;
    }
    if !request.wellFormed {
      reply := BadRequest;
    } else {
      reply := AfterSlot(slots, store, vault, request, render, now, later);
      assert sem.Valid() && permit in sem.permits && !permit.released;
    }
    sem.Release(permit);
  }

  /** The part of the handler inside the inner `try`. */
  method AfterSlot<E>(
      slots: IdempotencyStore, store: TenantStore, vault: CredentialVault<E>, request: Request,
      render: Tenant -> string, now: int, later: int)
    returns (reply: Reply)
    modifies slots, store, vault
    ensures reply.ReplayOf? || reply == InFlightConflict || reply.Done? || reply.Error?
    ensures reply.Done? || reply.Error? <==> IsFirst(request, old(slots.entries), now)
    ensures reply.Done? <==> IsFirst(request, old(slots.entries), now) && Succeeds(request, old(store.records), now)
    ensures FollowsProtocol(request, old(slots.entries), slots.entries, reply, now, later)
    ensures reply.Done? || reply.Error? ==>
              IsOutcome(vault.cipher, old(store.records), old(vault.rows), store.records, vault.rows, request.ref,
                request.handshake, now, later, ResultOf(reply, request, store.records))
    ensures reply.Done? ==>
              request.ref in store.records && reply.response == RenderSuccess(render, store.records[request.ref])
    ensures !reply.Done? && !reply.Error? ==> store.records == old(store.records) && vault.rows == old(vault.rows)
  {
    if request.cacheKey.Some? {
      var r := slots.Begin(request.cacheKey.value, request.ttl, now);
      match r {
        case Replay(response) => return ReplayOf(response);
        case Busy => return InFlightConflict;
        case Claimed =>
      }
    }
    var result := RunOnboarding(store, vault, request.ref, request.instance, request.lockTtl,
      now, later, request.handshake);
    if result.Onboarded? {
      var response := RenderSuccess(render, result.tenant);
      if request.cacheKey.Some? {
        var ok := slots.Commit(request.cacheKey.value, response, request.ttl, later);
        assert slots.entries == old(slots.entries)[request.cacheKey.value := Committed(response, later + request.ttl)];
      }
      return Done(response);
    }
    if request.cacheKey.Some? {
      slots.Release(request.cacheKey.value);
      assert slots.entries == old(slots.entries) - {request.cacheKey.value};
    }
    return Error(result);
  }
}
