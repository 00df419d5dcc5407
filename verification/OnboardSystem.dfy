/**
 Any number of onboarding and rotation requests at once (packages/server/src/routes/admin-onboard.ts:193-377): the
 semaphore, the idempotency slots and the tenant lock in one machine. The state keeps the run of each part as the
 list of its events, so what is known of every run of a part holds of it here.
 */
module OnboardSystem {
  import opened Options
  import I = Idempotency
  import O = Onboarding
  import X = OnboardingExclusion

  datatype Request = Request(key: Option<string>, ref: string, instance: string, lockTtl: int, slotTtl: int)

  /**
   Where a request stands. Admitted: it holds a permit. Working: past the idempotency check. Running: inside
   `runOnboarding`. Succeeded: promoted and audited, the reply still to be committed. Leaving: only the permit is
   still to be given back.
   */
  datatype Stage = Outside | Admitted | Working | Running | Succeeded | Leaving | Gone

  datatype System = System(
    start: int, requests: map<nat, Request>, stages: map<nat, Stage>, inFlight: set<nat>,
    slotEvents: seq<I.Event>, runEvents: seq<O.Event>)

  datatype Event =
    | Tick(now: int)
    | Enter(id: nat, request: Request)
    | Reject(id: nat)
    | Claim(id: nat)
    | Launch(id: nat)
    | RunStep(event: O.Event)
    | Succeed(id: nat, response: I.Response)
    | Fail(id: nat)
    | Leave(id: nat)

  function StageOf(s: System, r: nat): Stage {
    if r in s.stages then s.stages[r] else Outside
  }

  function Slots(s: System): I.State {
    I.After(s.start, s.slotEvents)
  }

  function Runs(s: System): O.State {
    O.After(s.start, s.runEvents)
  }

  function At(s: System, r: nat, stage: Stage): System {
    s.(stages := s.stages[r := stage])
  }

  function WithSlotEvent(s: System, e: I.Event): System {
    s.(slotEvents := s.slotEvents + [e])
  }

  function WithRunEvent(s: System, e: O.Event): System {
    s.(runEvents := s.runEvents + [e])
  }

  /** Inside a try block that ends with the release of the permit. */
  predicate IsInside(stage: Stage) {
    stage.Admitted? || IsBusy(stage) || stage.Leaving?
  }

  /** Between the idempotency check and the commit or release. */
  predicate IsBusy(stage: Stage) {
    stage.Working? || stage.Running? || stage.Succeeded?
  }

  /** Changes of the registry from elsewhere. */
  predicate IsForeign(e: O.Event) {
    e.Create? || e.Patch? || e.SoftDelete? || e.CheckUnlock? || e.WriteUnlock?
  }

  predicate IsOwnStep(s: System, e: O.Event) {
    !IsForeign(e) && !e.Tick? && !e.Start? && StageOf(s, e.run).Running?
  }

  /** A step that is not enabled in `s` leaves `s` as it is. */
  function Next(capacity: nat, s: System, e: Event): System {
    match e
    case Tick(t) => WithRunEvent(WithSlotEvent(s, I.Tick(t)), O.Tick(t))
    case Enter(r, request) =>
      if r in s.requests then s
      else
        var known := s.(requests := s.requests[r := request]);
        if |s.inFlight| < capacity then At(known.(inFlight := s.inFlight + {r}), r, Admitted) else At(known, r, Gone)
    case Reject(r) => if StageOf(s, r).Admitted? then At(s, r, Leaving) else s
    case Claim(r) =>
      if !StageOf(s, r).Admitted? || r !in s.requests then s
      else if s.requests[r].key.None? then At(s, r, Working)
      else
        var claimed := WithSlotEvent(s, I.Begin(r, s.requests[r].key.value, s.requests[r].slotTtl));
        At(claimed, r, if I.PhaseOf(Slots(claimed), r).Working? then Working else Leaving)
    case Launch(r) =>
      if !StageOf(s, r).Working? || r !in s.requests then s
      else
        var request := s.requests[r];
        At(WithRunEvent(s, O.Start(r, request.ref, request.instance, request.lockTtl)), r, Running)
    case RunStep(step) =>
      if IsForeign(step) then WithRunEvent(s, step)
      else if !IsOwnStep(s, step) then s
      else
        var stepped := WithRunEvent(s, step);
        if step.AuditWritten? && O.PhaseOf(Runs(s), step.run).Promoted? then At(stepped, step.run, Succeeded)
        else stepped
    case Succeed(r, response) =>
      if !StageOf(s, r).Succeeded? || r !in s.requests then s
      else At(Finished(s, r, I.Commit(r, response, s.requests[r].slotTtl)), r, Leaving)
    case Fail(r) =>
      if !StageOf(s, r).Running? || r !in s.requests || O.PhaseOf(Runs(s), r) != O.Ended then s
      else At(Finished(s, r, I.Release(r)), r, Leaving)
    case Leave(r) =>
      if StageOf(s, r).Leaving? then At(s.(inFlight := s.inFlight - {r}), r, Gone) else s
  }

  function Finished(s: System, r: nat, e: I.Event): System
    requires r in s.requests
  {
    if s.requests[r].key.Some? then WithSlotEvent(s, e) else s
  }

  function After(capacity: nat, now: int, events: seq<Event>): System {
    if events == [] then System(now, map[], map[], {}, [], [])
    else Next(capacity, After(capacity, now, events[..|events| - 1]), events[|events| - 1])
  }

  // ---- Invariant -------------------------------------------------------------------------------

  predicate PermitOk(s: System, r: nat) {
    (r in s.inFlight <==> IsInside(StageOf(s, r))) && (!StageOf(s, r).Outside? <==> r in s.requests)
  }

  /** A keyed request is at work in its idempotency slot exactly while it is busy. */
  predicate SlotOk(s: System, r: nat) {
    && (I.PhaseOf(Slots(s), r).Working? <==> IsBusy(StageOf(s, r)) && r in s.requests && s.requests[r].key.Some?)
    && (I.PhaseOf(Slots(s), r).Working? ==> Some(I.KeyOf(Slots(s), r)) == s.requests[r].key)
    && (StageOf(s, r).Outside? || StageOf(s, r).Admitted? ==> r !in Slots(s).calls)
  }

  /** A run that holds the tenant lock belongs to a request that is running. */
  predicate RunOk(s: System, r: nat) {
    && (O.IsActive(O.PhaseOf(Runs(s), r)) ==> StageOf(s, r).Running?)
    && (StageOf(s, r).Running? ==> !O.PhaseOf(Runs(s), r).Idle?)
    && (StageOf(s, r).Outside? || StageOf(s, r).Admitted? || StageOf(s, r).Working? ==> r !in Runs(s).runs)
  }

  ghost predicate Inv(capacity: nat, s: System) {
    && |s.inFlight| <= capacity
    && (forall r :: PermitOk(s, r)) && (forall r :: SlotOk(s, r)) && (forall r :: RunOk(s, r))
  }

  lemma SlotsAfter(s: System, e: I.Event)
    ensures Slots(WithSlotEvent(s, e)) == I.Next(Slots(s), e)
  {
    assert (s.slotEvents + [e])[..|s.slotEvents|] == s.slotEvents;
  }

  lemma RunsAfter(s: System, e: O.Event)
    ensures Runs(WithRunEvent(s, e)) == O.Next(Runs(s), e)
  {
    assert (s.runEvents + [e])[..|s.runEvents|] == s.runEvents;
  }

  lemma OtherCalls(s: I.State, e: I.Event, r: nat)
    requires e.Tick? || e.call != r
    ensures I.PhaseOf(I.Next(s, e), r) == I.PhaseOf(s, r) && I.KeyOf(I.Next(s, e), r) == I.KeyOf(s, r)
    ensures r in I.Next(s, e).calls <==> r in s.calls
  {
  }

  lemma OtherRuns(s: O.State, e: O.Event, r: nat)
    requires IsForeign(e) || e.Tick? || e.run != r
    ensures O.PhaseOf(O.Next(s, e), r) == O.PhaseOf(s, r) && (r in O.Next(s, e).runs <==> r in s.runs)
  {
    if O.IsRunEvent(s, e) {
      O.OnlyOwnPhaseMoves(s, e);
    }
  }

  predicate IsAbout(e: Event, r: nat) {
    match e
    case Tick(_) => false
    case RunStep(step) => !IsForeign(step) && !step.Tick? && step.run == r
    case _ => e.id == r
  }

  /** A step leaves the requests it is not about where they stand. */
  lemma OthersStay(capacity: nat, s: System, e: Event, r: nat)
    requires !IsAbout(e, r)
    ensures var s' := Next(capacity, s, e);
      StageOf(s', r) == StageOf(s, r) && (r in s'.requests <==> r in s.requests)
      && (r in s.requests ==> s'.requests[r] == s.requests[r]) && (r in s'.inFlight <==> r in s.inFlight)
  {
  }

  lemma OwnStepKeepsPermit(capacity: nat, s: System, e: Event, r: nat)
    requires IsAbout(e, r) && PermitOk(s, r)
    ensures PermitOk(Next(capacity, s, e), r)
  {
  }

  lemma PermitsBounded(capacity: nat, s: System, e: Event)
    requires |s.inFlight| <= capacity
    ensures |Next(capacity, s, e).inFlight| <= capacity
  {
    if e.Leave? {
      Cardinality(s.inFlight - {e.id}, s.inFlight);
    }
  }

  lemma NextKeepsPermits(capacity: nat, s: System, e: Event, r: nat)
    requires PermitOk(s, r)
    ensures PermitOk(Next(capacity, s, e), r)
  {
    if IsAbout(e, r) {
      OwnStepKeepsPermit(capacity, s, e, r);
    } else {
      OthersStay(capacity, s, e, r);
    }
  }

  lemma Cardinality(a: set<nat>, b: set<nat>)
    ensures a <= b ==> |a| <= |b|
  {
    if a <= b {
      assert b == a + (b - a);
    }
  }

  /** The idempotency event of a step, if it has one. */
  function SlotEvent(s: System, e: Event): Option<I.Event> {
    match e
    case Tick(t) => Some(I.Tick(t))
    case Claim(r) =>
      if StageOf(s, r).Admitted? && r in s.requests && s.requests[r].key.Some?
      then Some(I.Begin(r, s.requests[r].key.value, s.requests[r].slotTtl)) else None
    case Succeed(r, response) =>
      if StageOf(s, r).Succeeded? && r in s.requests && s.requests[r].key.Some?
      then Some(I.Commit(r, response, s.requests[r].slotTtl)) else None
    case Fail(r) =>
      if StageOf(s, r).Running? && r in s.requests && O.PhaseOf(Runs(s), r) == O.Ended && s.requests[r].key.Some?
      then Some(I.Release(r)) else None
    case _ => None
  }

  lemma SlotsNext(capacity: nat, s: System, e: Event)
    ensures Slots(Next(capacity, s, e))
      == match SlotEvent(s, e) case None => Slots(s) case Some(step) => I.Next(Slots(s), step)
  {
    if SlotEvent(s, e).Some? {
      SlotsAfter(s, SlotEvent(s, e).value);
    }
  }

  lemma QuietStepKeepsSlot(capacity: nat, s: System, e: Event, r: nat)
    requires IsAbout(e, r) && PermitOk(s, r) && SlotOk(s, r) && SlotEvent(s, e).None?
    ensures SlotOk(Next(capacity, s, e), r)
  {
    SlotsNext(capacity, s, e);
  }

  lemma ClaimKeepsSlot(capacity: nat, s: System, r: nat)
    requires PermitOk(s, r) && SlotOk(s, r) && SlotEvent(s, Claim(r)).Some?
    ensures SlotOk(Next(capacity, s, Claim(r)), r)
  {
    SlotsNext(capacity, s, Claim(r));
    SlotsAfter(s, SlotEvent(s, Claim(r)).value);
  }

  lemma FinishKeepsSlot(capacity: nat, s: System, e: Event, r: nat)
    requires PermitOk(s, r) && SlotOk(s, r) && SlotEvent(s, e).Some? && (e.Succeed? || e.Fail?) && e.id == r
    ensures SlotOk(Next(capacity, s, e), r)
  {
    SlotsNext(capacity, s, e);
  }

  lemma NextKeepsSlots(capacity: nat, s: System, e: Event, r: nat)
    requires PermitOk(s, r) && SlotOk(s, r)
    ensures SlotOk(Next(capacity, s, e), r)
  {
    if !IsAbout(e, r) {
      OthersStay(capacity, s, e, r);
      SlotsNext(capacity, s, e);
      if SlotEvent(s, e).Some? {
        OtherCalls(Slots(s), SlotEvent(s, e).value, r);
      }
    } else if SlotEvent(s, e).None? {
      QuietStepKeepsSlot(capacity, s, e, r);
    } else if e.Claim? {
      ClaimKeepsSlot(capacity, s, r);
    } else {
      FinishKeepsSlot(capacity, s, e, r);
    }
  }

  /** The onboarding event of a step, if it has one. */
  function RunEvent(s: System, e: Event): Option<O.Event> {
    match e
    case Tick(t) => Some(O.Tick(t))
    case Launch(r) =>
      if StageOf(s, r).Working? && r in s.requests
      then Some(O.Start(r, s.requests[r].ref, s.requests[r].instance, s.requests[r].lockTtl)) else None
    case RunStep(step) => if IsForeign(step) || IsOwnStep(s, step) then Some(step) else None
    case _ => None
  }

  lemma RunsNext(capacity: nat, s: System, e: Event)
    ensures Runs(Next(capacity, s, e))
      == match RunEvent(s, e) case None => Runs(s) case Some(step) => O.Next(Runs(s), step)
  {
    if RunEvent(s, e).Some? {
      RunsAfter(s, RunEvent(s, e).value);
    }
  }

  lemma StartedIsIdle(s: O.State, r: nat, ref: string, instance: string, ttl: int)
    requires r !in s.runs
    ensures var phase := O.PhaseOf(O.Next(s, O.Start(r, ref, instance, ttl)), r); !O.IsActive(phase) && !phase.Idle?
  {
  }

  lemma AuditEnds(s: O.State, r: nat)
    requires O.PhaseOf(s, r).Promoted?
    ensures O.PhaseOf(O.Next(s, O.AuditWritten(r)), r) == O.Ended
  {
  }

  /** A run that has started stays started. */
  lemma StaysStarted(s: O.State, e: O.Event)
    requires O.IsRunEvent(s, e) && !O.PhaseOf(s, e.run).Idle?
    ensures !O.PhaseOf(O.Next(s, e), e.run).Idle?
  {
  }

  lemma RunStepKeepsRun(capacity: nat, s: System, step: O.Event)
    requires IsOwnStep(s, step) && PermitOk(s, step.run) && RunOk(s, step.run)
    ensures RunOk(Next(capacity, s, RunStep(step)), step.run)
  {
    RunsAfter(s, step);
    StaysStarted(Runs(s), step);
    if step.AuditWritten? && O.PhaseOf(Runs(s), step.run).Promoted? {
      AuditEnds(Runs(s), step.run);
    }
  }

  lemma LaunchKeepsRun(capacity: nat, s: System, r: nat)
    requires PermitOk(s, r) && RunOk(s, r) && StageOf(s, r).Working?
    ensures RunOk(Next(capacity, s, Launch(r)), r)
  {
    var request := s.requests[r];
    RunsAfter(s, O.Start(r, request.ref, request.instance, request.lockTtl));
    StartedIsIdle(Runs(s), r, request.ref, request.instance, request.lockTtl);
  }

  lemma QuietStepKeepsRun(capacity: nat, s: System, e: Event, r: nat)
    requires IsAbout(e, r) && PermitOk(s, r) && RunOk(s, r) && RunEvent(s, e).None?
    ensures RunOk(Next(capacity, s, e), r)
  {
    RunsNext(capacity, s, e);
  }

  lemma OwnStepKeepsRun(capacity: nat, s: System, e: Event, r: nat)
    requires IsAbout(e, r) && PermitOk(s, r) && RunOk(s, r)
    ensures RunOk(Next(capacity, s, e), r)
  {
    if RunEvent(s, e).None? {
      QuietStepKeepsRun(capacity, s, e, r);
    } else if e.Launch? {
      LaunchKeepsRun(capacity, s, r);
    } else {
      RunStepKeepsRun(capacity, s, e.event);
    }
  }

  lemma NextKeepsRuns(capacity: nat, s: System, e: Event, r: nat)
    requires PermitOk(s, r) && RunOk(s, r)
    ensures RunOk(Next(capacity, s, e), r)
  {
    if IsAbout(e, r) {
      OwnStepKeepsRun(capacity, s, e, r);
    } else {
      OthersStay(capacity, s, e, r);
      RunsNext(capacity, s, e);
      if RunEvent(s, e).Some? {
        OtherRuns(Runs(s), RunEvent(s, e).value, r);
      }
    }
  }

  lemma {:induction false} InvAlways(capacity: nat, now: int, events: seq<Event>)
    ensures Inv(capacity, After(capacity, now, events))
  {
    if events != [] {
      var s, e := After(capacity, now, events[..|events| - 1]), events[|events| - 1];
      InvAlways(capacity, now, events[..|events| - 1]);
      PermitsBounded(capacity, s, e);
      forall r ensures PermitOk(Next(capacity, s, e), r) {
        assert PermitOk(s, r);
        NextKeepsPermits(capacity, s, e, r);
      }
      forall r ensures SlotOk(Next(capacity, s, e), r) {
        assert PermitOk(s, r) && SlotOk(s, r);
        NextKeepsSlots(capacity, s, e, r);
      }
      forall r ensures RunOk(Next(capacity, s, e), r) {
        assert PermitOk(s, r) && RunOk(s, r);
        NextKeepsRuns(capacity, s, e, r);
      }
    }
  }

  // ---- How a request gets to work --------------------------------------------------------------

  /** A new request is admitted if and only if there is room for it. */
  lemma AdmittedIffRoom(capacity: nat, s: System, r: nat, request: Request)
    requires r !in s.requests
    ensures StageOf(Next(capacity, s, Enter(r, request)), r)
      == if |s.inFlight| < capacity then Admitted else Gone
  {
  }

  /** An admitted request works if and only if it has no key, or no fresh entry stands under its key. */
  lemma WorksIffFirst(capacity: nat, now: int, events: seq<Event>, r: nat)
    requires StageOf(After(capacity, now, events), r).Admitted? && r in After(capacity, now, events).requests
    ensures var s := After(capacity, now, events);
      StageOf(Next(capacity, s, Claim(r)), r)
      == if s.requests[r].key.Some? && I.IsFresh(Slots(s).entries, s.requests[r].key.value, Slots(s).now)
         then Leaving else Working
  {
    var s := After(capacity, now, events);
    InvAlways(capacity, now, events);
    assert SlotOk(s, r);
    if s.requests[r].key.Some? {
      SlotsAfter(s, I.Begin(r, s.requests[r].key.value, s.requests[r].slotTtl));
    }
  }

  /** A working request starts its run, and a run that is promoted and audited makes its request succeed. */
  lemma RunsAndSucceeds(capacity: nat, now: int, events: seq<Event>, r: nat)
    ensures var s := After(capacity, now, events);
      && (StageOf(s, r).Working? ==>
        StageOf(Next(capacity, s, Launch(r)), r).Running? && r in Runs(Next(capacity, s, Launch(r))).runs)
      && (StageOf(s, r).Running? && O.PhaseOf(Runs(s), r).Promoted? ==>
        StageOf(Next(capacity, s, RunStep(O.AuditWritten(r))), r).Succeeded?)
  {
    var s := After(capacity, now, events);
    InvAlways(capacity, now, events);
    assert PermitOk(s, r) && RunOk(s, r);
    if StageOf(s, r).Working? {
      Launched(capacity, s, r);
    }
  }

  // ---- What the whole guarantees ---------------------------------------------------------------

  function Active(s: System): set<nat> {
    set r | r in Runs(s).runs && O.IsActive(Runs(s).runs[r].phase)
  }

  function Busy(s: System): set<nat> {
    set r | r in s.stages && IsBusy(s.stages[r])
  }

  /** Under every interleaving the runs that hold a tenant lock, and the requests at work, fit in the capacity. */
  lemma HandshakesWithinCapacity(capacity: nat, now: int, events: seq<Event>)
    ensures var s := After(capacity, now, events);
      Active(s) <= Busy(s) <= s.inFlight && |Active(s)| <= |Busy(s)| <= capacity
  {
    var s := After(capacity, now, events);
    InvAlways(capacity, now, events);
    forall r | r in Active(s) ensures r in Busy(s) {
      assert RunOk(s, r);
    }
    forall r | r in Busy(s) ensures r in s.inFlight {
      assert PermitOk(s, r);
    }
    Cardinality(Active(s), Busy(s));
    Cardinality(Busy(s), s.inFlight);
  }

  /** While no claim on a slot expires under its holder, one request per key is between check and finish. */
  lemma OneRequestPerKey(capacity: nat, now: int, events: seq<Event>, r: nat, q: nat)
    requires I.AllKeepSlots(now, After(capacity, now, events).slotEvents)
    requires var s := After(capacity, now, events);
      r in Busy(s) && q in Busy(s) && r in s.requests && q in s.requests
      && s.requests[r].key.Some? && s.requests[r].key == s.requests[q].key
    ensures r == q
  {
    var s := After(capacity, now, events);
    InvAlways(capacity, now, events);
    StartStays(capacity, now, events);
    assert SlotOk(s, r) && SlotOk(s, q);
    I.AtMostOneWorking(now, s.slotEvents, r, q);
  }

  lemma {:induction false} StartStays(capacity: nat, now: int, events: seq<Event>)
    ensures After(capacity, now, events).start == now
  {
    if events != [] {
      StartStays(capacity, now, events[..|events| - 1]);
    }
  }

  /** While no step takes a claim on a tenant away, one request per tenant holds its lock. */
  lemma OneRunPerTenant(capacity: nat, now: int, events: seq<Event>, r: nat, q: nat)
    requires X.AllKeepClaims(now, After(capacity, now, events).runEvents)
    ensures !X.AreRivals(Runs(After(capacity, now, events)), r, q)
  {
    StartStays(capacity, now, events);
    X.AtMostOneActiveRun(now, After(capacity, now, events).runEvents, r, q);
  }

  /** And then a commit finds the entry that its request claimed, so it is never refused. */
  lemma CommitFindsItsSlot(capacity: nat, now: int, events: seq<Event>, r: nat)
    requires I.AllKeepSlots(now, After(capacity, now, events).slotEvents)
    requires var s := After(capacity, now, events);
      StageOf(s, r).Succeeded? && r in s.requests && s.requests[r].key.Some?
    ensures var s := After(capacity, now, events);
      s.requests[r].key.value in Slots(s).entries && Slots(s).entries[s.requests[r].key.value].InFlight?
  {
    var s := After(capacity, now, events);
    InvAlways(capacity, now, events);
    StartStays(capacity, now, events);
    I.ExclusiveIffSlotsKept(now, s.slotEvents);
    assert SlotOk(s, r) && I.HoldsSlot(Slots(s), r);
  }

  // ---- No permit is lost -----------------------------------------------------------------------

  /** The events in turn, the first one first. */
  function From(capacity: nat, s: System, events: seq<Event>): System
    decreases |events|
  {
    if events == [] then s else From(capacity, Next(capacity, s, events[0]), events[1..])
  }

  lemma {:induction false} AfterFrom(capacity: nat, now: int, events: seq<Event>, more: seq<Event>)
    ensures After(capacity, now, events + more) == From(capacity, After(capacity, now, events), more)
    decreases |more|
  {
    if more == [] {
      assert events + more == events;
    } else {
      assert (events + [more[0]])[..|events|] == events;
      assert events + [more[0]] + more[1..] == events + more;
      AfterFrom(capacity, now, events + [more[0]], more[1..]);
    }
  }

  predicate HasCrashed(s: System, r: nat) {
    StageOf(s, r).Running? && O.PhaseOf(Runs(s), r).Crashed?
  }

  /** How far a request is from giving its permit back. */
  function Distance(s: System, r: nat): nat {
    match StageOf(s, r)
    case Working => 20
    case Running => RunDistance(O.PhaseOf(Runs(s), r))
    case Succeeded => 2
    case Admitted => 2
    case Leaving => 1
    case _ => 0
  }

  function RunDistance(phase: O.Phase): nat {
    match phase
    case Trying(n, _) => if n < |O.ORDER| then 6 + |O.ORDER| - n else 6
    case Failing(_, _) => 4
    case Promoted => 3
    case Ended => 3
    case _ => 5
  }

  /** The step of its run that brings a running request closer to its end. */
  function NextRunEvent(phase: O.Phase, r: nat): O.Event {
    match phase
    case Trying(_, _) => O.Attempt(r)
    case Failing(_, _) => O.ReleaseFailed(r)
    case Promoted => O.AuditWritten(r)
    case _ => O.Fail(r, "")
  }

  lemma RunGetsCloser(s: O.State, r: nat)
    requires !O.PhaseOf(s, r).Idle? && !O.PhaseOf(s, r).Crashed? && !O.PhaseOf(s, r).Ended?
    ensures var phase := O.PhaseOf(O.Next(s, NextRunEvent(O.PhaseOf(s, r), r)), r);
      (!phase.Crashed? && RunDistance(phase) < RunDistance(O.PhaseOf(s, r))) || O.PhaseOf(s, r).Promoted?
  {
  }

  /** The next step of a request, whatever the others do. */
  function NextOwn(s: System, r: nat): Event {
    match StageOf(s, r)
    case Working => Launch(r)
    case Running =>
      if O.PhaseOf(Runs(s), r).Ended? then Fail(r) else RunStep(NextRunEvent(O.PhaseOf(Runs(s), r), r))
    case Succeeded => Succeed(r, I.Response(200, map[], ""))
    case Admitted => Reject(r)
    case _ => Leave(r)
  }

  lemma RunningGetsCloser(capacity: nat, s: System, r: nat)
    requires PermitOk(s, r) && RunOk(s, r) && StageOf(s, r).Running? && !HasCrashed(s, r)
    ensures var s' := Next(capacity, s, NextOwn(s, r));
      !HasCrashed(s', r) && Distance(s', r) < Distance(s, r)
  {
    if !O.PhaseOf(Runs(s), r).Ended? {
      RunsAfter(s, NextRunEvent(O.PhaseOf(Runs(s), r), r));
      RunGetsCloser(Runs(s), r);
    }
  }

  lemma StartedPhase(s: O.State, r: nat, ref: string, instance: string, ttl: int)
    requires r !in s.runs
    ensures var phase := O.PhaseOf(O.Next(s, O.Start(r, ref, instance, ttl)), r);
      !phase.Crashed? && RunDistance(phase) <= 10
  {
  }

  /** The stage and the run of a request that is launched. */
  lemma Launched(capacity: nat, s: System, r: nat)
    requires StageOf(s, r).Working? && r in s.requests
    ensures var s', request := Next(capacity, s, Launch(r)), s.requests[r];
      StageOf(s', r).Running?
      && Runs(s') == O.Next(Runs(s), O.Start(r, request.ref, request.instance, request.lockTtl))
  {
    RunsNext(capacity, s, Launch(r));
  }

  lemma LaunchGetsCloser(capacity: nat, s: System, r: nat)
    requires PermitOk(s, r) && RunOk(s, r) && StageOf(s, r).Working?
    ensures var s' := Next(capacity, s, Launch(r));
      !HasCrashed(s', r) && Distance(s', r) < Distance(s, r)
  {
    var request := s.requests[r];
    Launched(capacity, s, r);
    StartedPhase(Runs(s), r, request.ref, request.instance, request.lockTtl);
  }

  lemma OwnStepGetsCloser(capacity: nat, s: System, r: nat)
    requires PermitOk(s, r) && RunOk(s, r) && r in s.inFlight && !HasCrashed(s, r)
    ensures var e := NextOwn(s, r);
      var s' := Next(capacity, s, e);
      IsAbout(e, r) && !HasCrashed(s', r) && Distance(s', r) < Distance(s, r)
  {
    if StageOf(s, r).Running? {
      RunningGetsCloser(capacity, s, r);
    } else if StageOf(s, r).Working? {
      LaunchGetsCloser(capacity, s, r);
    }
  }

  lemma {:induction false} CanLeaveFrom(capacity: nat, s: System, r: nat) returns (more: seq<Event>)
    requires PermitOk(s, r) && RunOk(s, r) && r in s.inFlight && !HasCrashed(s, r)
    ensures forall i :: 0 <= i < |more| ==> IsAbout(more[i], r)
    ensures StageOf(From(capacity, s, more), r).Gone? && r !in From(capacity, s, more).inFlight
    decreases Distance(s, r)
  {
    var e := NextOwn(s, r);
    var s' := Next(capacity, s, e);
    OwnStepGetsCloser(capacity, s, r);
    NextKeepsPermits(capacity, s, e, r);
    NextKeepsRuns(capacity, s, e, r);
    if r in s'.inFlight {
      var rest := CanLeaveFrom(capacity, s', r);
      more := [e] + rest;
    } else {
      more := [e];
      assert more[1..] == [];
    }
  }

  /**
   No permit is lost: from every reachable state, a request that holds a permit and whose run has not crashed can go
   on by its own steps alone until it has given the permit back.
   */
  lemma NoPermitIsLost(capacity: nat, now: int, events: seq<Event>, r: nat) returns (more: seq<Event>)
    requires r in After(capacity, now, events).inFlight && !HasCrashed(After(capacity, now, events), r)
    ensures forall i :: 0 <= i < |more| ==> IsAbout(more[i], r)
    ensures StageOf(After(capacity, now, events + more), r).Gone?
    ensures r !in After(capacity, now, events + more).inFlight
  {
    InvAlways(capacity, now, events);
    assert PermitOk(After(capacity, now, events), r) && RunOk(After(capacity, now, events), r);
    more := CanLeaveFrom(capacity, After(capacity, now, events), r);
    AfterFrom(capacity, now, events, more);
  }

  // ---- Later requests get the response ---------------------------------------------------------

  lemma {:induction false} SlotEventsGrow(capacity: nat, now: int, events: seq<Event>, n: nat)
    requires n <= |events|
    ensures After(capacity, now, events[..n]).slotEvents <= After(capacity, now, events).slotEvents
  {
    if n < |events| {
      var before := events[..|events| - 1];
      assert before[..n] == events[..n];
      SlotEventsGrow(capacity, now, before, n);
      OneStepGrows(capacity, After(capacity, now, before), events[|events| - 1]);
    } else {
      assert events[..n] == events;
    }
  }

  lemma OneStepGrows(capacity: nat, s: System, e: Event)
    ensures Next(capacity, s, e).slotEvents ==
      s.slotEvents + match SlotEvent(s, e) case None => [] case Some(step) => [step]
  {
  }

  lemma CommitIsLogged(capacity: nat, now: int, events: seq<Event>, n: nat, r: nat, response: I.Response)
    requires n < |events| && events[n] == Succeed(r, response)
    requires SlotEvent(After(capacity, now, events[..n]), events[n]).Some?
    ensures var s, before := After(capacity, now, events), After(capacity, now, events[..n]);
      var m := |before.slotEvents|;
      m < |s.slotEvents| && s.slotEvents[..m] == before.slotEvents
      && Some(s.slotEvents[m]) == SlotEvent(before, events[n])
  {
    assert events[..n + 1][..n] == events[..n];
    SlotEventsGrow(capacity, now, events, n + 1);
    OneStepGrows(capacity, After(capacity, now, events[..n]), events[n]);
  }

  /**
   Once a request has committed its response, every later request with the same key that arrives within the time to
   live, and is admitted, gets that response and does not work.
   */
  lemma LaterRequestReplays(capacity: nat, now: int, events: seq<Event>, n: nat, r: nat, response: I.Response, d: nat,
      request: Request)
    requires n < |events| && events[n] == Succeed(r, response)
    requires var before := After(capacity, now, events[..n]);
      StageOf(before, r).Succeeded? && r in before.requests
      && request.key.Some? && before.requests[r].key == request.key
      && Slots(After(capacity, now, events)).now < Slots(before).now + before.requests[r].slotTtl
    requires I.IsOrderly(now, After(capacity, now, events).slotEvents)
    requires d !in After(capacity, now, events).requests && |After(capacity, now, events).inFlight| < capacity
    ensures var s := Next(capacity, Next(capacity, After(capacity, now, events), Enter(d, request)), Claim(d));
      StageOf(s, d).Leaving? && I.PhaseOf(Slots(s), d) == I.Replayed(response)
  {
    var s, before := After(capacity, now, events), After(capacity, now, events[..n]);
    var m, ttl := |before.slotEvents|, before.requests[r].slotTtl;
    InvAlways(capacity, now, events);
    InvAlways(capacity, now, events[..n]);
    StartStays(capacity, now, events);
    StartStays(capacity, now, events[..n]);
    assert PermitOk(s, d) && SlotOk(s, d) && SlotOk(before, r);
    CommitIsLogged(capacity, now, events, n, r, response);
    I.CommittedResponseReplayed(now, s.slotEvents, m, r, response, ttl, d, request.slotTtl);
    AdmittedCaller(capacity, s, d, request);
  }

  lemma AdmittedCaller(capacity: nat, s: System, d: nat, request: Request)
    requires d !in s.requests && |s.inFlight| < capacity && request.key.Some?
    ensures var s1 := Next(capacity, s, Enter(d, request));
      var s2 := Next(capacity, s1, Claim(d));
      Slots(s2) == I.Next(Slots(s), I.Begin(d, request.key.value, request.slotTtl))
      && (StageOf(s2, d).Leaving? <==> !I.PhaseOf(Slots(s2), d).Working?)
  {
    var s1 := Next(capacity, s, Enter(d, request));
    SlotsAfter(s1, I.Begin(d, request.key.value, request.slotTtl));
  }
}
