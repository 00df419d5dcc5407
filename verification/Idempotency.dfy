/**
 Idempotency slots (packages/server/src/middleware/idempotency.ts): begin, commit, release with expiring
 entries, as an object and under every interleaving of callers. The clock is in milliseconds.
 */
module Idempotency {
  import opened Collections

  datatype Response = Response(statusCode: int, headers: map<string, string>, body: string)

  datatype Entry = InFlight(expiresAt: int) | Committed(response: Response, expiresAt: int)

  datatype BeginResult = Claimed | Busy | Replay(response: Response)

  predicate IsFresh(entries: map<string, Entry>, key: string, now: int) {
    key in entries && entries[key].expiresAt > now
  }

  function AfterBegin(entries: map<string, Entry>, key: string, ttl: int, now: int): (map<string, Entry>, BeginResult) {
    if !IsFresh(entries, key, now) then (entries[key := InFlight(now + ttl)], Claimed)
    else (entries, if entries[key].InFlight? then Busy else Replay(entries[key].response))
  }

  /** Refused when the key has no entry at all. */
  function AfterCommit(entries: map<string, Entry>, key: string, response: Response, ttl: int, now: int)
    : (map<string, Entry>, bool)
  {
    if key in entries then (entries[key := Committed(response, now + ttl)], true) else (entries, false)
  }

  function AfterRelease(entries: map<string, Entry>, key: string): map<string, Entry> {
    entries - {key}
  }

  class IdempotencyStore {
    var entries: map<string, Entry>

    constructor ()
      ensures entries == map[]
    {
      entries := map[];
    }

    /** Drops an expired entry on the way. */
    method ReadFresh(key: string, now: int) returns (found: bool)
      modifies this
      ensures found == IsFresh(old(entries), key, now)
      ensures entries == if key in old(entries) && !found then old(entries) - {key} else old(entries)
    {
      if key !in entries {
        return false;
      }
      if entries[key].expiresAt <= now {
        entries := entries - {key};
        return false;
      }
      return true;
    }

    method Begin(key: string, ttl: int, now: int) returns (r: BeginResult)
      modifies this
      ensures (entries, r) == AfterBegin(old(entries), key, ttl, now)
    {
      var found := ReadFresh(key, now);
      if !found {
        entries := entries[key := InFlight(now + ttl)];
        assert entries == old(entries)[key := InFlight(now + ttl)];
        return Claimed;
      }
      match entries[key]
      case InFlight(_) => return Busy;
      case Committed(response, _) => return Replay(response);
    }

    /** Refused (the source throws) when the key has no entry at all. */
    method Commit(key: string, response: Response, ttl: int, now: int) returns (ok: bool)
      modifies this
      ensures (entries, ok) == AfterCommit(old(entries), key, response, ttl, now)
    {
      if key !in entries {
        return false;
      }
      entries := entries[key := Committed(response, now + ttl)];
      return true;
    }

    method Release(key: string)
      modifies this
      ensures entries == AfterRelease(old(entries), key)
    {
      entries := entries - {key};
    }
  }

  // ---- All interleavings -------------------------------------------------------------------------

  /** Working: the caller holds a claim that expires at `deadline`, and has yet to commit or release. */
  datatype Phase = Idle | Working(deadline: int) | Replayed(response: Response) | TurnedAway | Finished

  datatype Call = Call(key: string, phase: Phase)

  datatype State = State(entries: map<string, Entry>, calls: map<nat, Call>, now: int)

  datatype Event =
    | Tick(now: int)
    | Begin(call: nat, key: string, ttl: int)
    | Commit(call: nat, response: Response, ttl: int)
    | Release(call: nat)

  function PhaseOf(s: State, c: nat): Phase {
    if c in s.calls then s.calls[c].phase else Idle
  }

  function KeyOf(s: State, c: nat): string {
    if c in s.calls then s.calls[c].key else ""
  }

  /** A caller finishes once: commit and release are enabled only while it works. */
  function Next(s: State, e: Event): State {
    match e
    case Tick(t) => s.(now := t)
    case Begin(c, key, ttl) =>
      if c in s.calls then s
      else
        var (entries, r) := AfterBegin(s.entries, key, ttl, s.now);
        var phase := match r
          case Claimed => Working(s.now + ttl)
          case Busy => TurnedAway
          case Replay(response) => Replayed(response);
        s.(entries := entries, calls := s.calls[c := Call(key, phase)])
    case Commit(c, response, ttl) =>
      if !PhaseOf(s, c).Working? then s
      else
        var key := s.calls[c].key;
        var entries := AfterCommit(s.entries, key, response, ttl, s.now).0;
        s.(entries := entries, calls := s.calls[c := Call(key, Finished)])
    case Release(c) =>
      if !PhaseOf(s, c).Working? then s
      else s.(entries := AfterRelease(s.entries, s.calls[c].key), calls := s.calls[c := Call(s.calls[c].key, Finished)])
  }

  function After(now: int, events: seq<Event>): State {
    if events == [] then State(map[], map[], now) else Next(After(now, events[..|events| - 1]), events[|events| - 1])
  }

  /** The clock stays below the deadline of every caller at work, and a claim is not expired from the start. */
  ghost predicate KeepsSlots(s: State, e: Event) {
    match e
    case Tick(t) => forall c :: PhaseOf(s, c).Working? ==> t < PhaseOf(s, c).deadline
    case Begin(c, key, ttl) => c !in s.calls && !IsFresh(s.entries, key, s.now) ==> ttl > 0
    case _ => true
  }

  predicate HoldsSlot(s: State, c: nat) {
    PhaseOf(s, c).Working? ==>
      s.now < PhaseOf(s, c).deadline && KeyOf(s, c) in s.entries &&
      s.entries[KeyOf(s, c)] == InFlight(PhaseOf(s, c).deadline)
  }

  predicate AreRivals(s: State, c: nat, d: nat) {
    c != d && PhaseOf(s, c).Working? && PhaseOf(s, d).Working? && KeyOf(s, c) == KeyOf(s, d)
  }

  /** Every working caller owns the slot of its key, unexpired, and so no two share one. */
  ghost predicate Exclusive(s: State) {
    (forall c :: HoldsSlot(s, c)) && forall c, d :: !AreRivals(s, c, d)
  }

  lemma StepKeepsExclusion(s: State, e: Event)
    requires Exclusive(s) && KeepsSlots(s, e)
    ensures Exclusive(Next(s, e))
  {
    var s' := Next(s, e);
    forall c ensures HoldsSlot(s', c) {
      assert HoldsSlot(s, c);
      if !e.Tick? {
        assert HoldsSlot(s, e.call) && !AreRivals(s, c, e.call);
      }
    }
    forall c, d ensures !AreRivals(s', c, d) {
      assert !AreRivals(s, c, d) && HoldsSlot(s, c) && HoldsSlot(s, d);
    }
  }

  lemma OtherStepsLoseSlots(s: State, e: Event)
    requires Exclusive(s) && !KeepsSlots(s, e)
    ensures !Exclusive(Next(s, e))
  {
    if e.Tick? {
      var c :| PhaseOf(s, c).Working? && e.now >= PhaseOf(s, c).deadline;
      assert !HoldsSlot(Next(s, e), c);
    } else {
      assert !HoldsSlot(Next(s, e), e.call);
    }
  }

  /** One step: that every working caller owns its slot is kept exactly by the steps that let no claim expire. */
  lemma StepKeepsExclusionIff(s: State, e: Event)
    requires Exclusive(s)
    ensures Exclusive(Next(s, e)) <==> KeepsSlots(s, e)
  {
    if KeepsSlots(s, e) {
      StepKeepsExclusion(s, e);
    } else {
      OtherStepsLoseSlots(s, e);
    }
  }

  ghost predicate AllKeepSlots(now: int, events: seq<Event>) {
    events != [] ==>
      var before := events[..|events| - 1];
      AllKeepSlots(now, before) && KeepsSlots(After(now, before), events[|events| - 1])
  }

  /** Every state of the run, from the first to the last, is exclusive. */
  ghost predicate ExclusiveThroughout(now: int, events: seq<Event>) {
    Exclusive(After(now, events)) && (events != [] ==> ExclusiveThroughout(now, events[..|events| - 1]))
  }

  /** Over whole runs: every working caller owns its slot throughout if and only if no claim expires under one. */
  lemma {:induction false} ExclusiveIffSlotsKept(now: int, events: seq<Event>)
    ensures ExclusiveThroughout(now, events) <==> AllKeepSlots(now, events)
  {
    if events != [] {
      var before := events[..|events| - 1];
      ExclusiveIffSlotsKept(now, before);
      if ExclusiveThroughout(now, before) {
        StepKeepsExclusionIff(After(now, before), events[|events| - 1]);
      }
    }
  }

  /** At most one caller per key is between claim and finish. */
  lemma AtMostOneWorking(now: int, events: seq<Event>, c: nat, d: nat)
    requires AllKeepSlots(now, events)
    ensures !AreRivals(After(now, events), c, d)
  {
    ExclusiveIffSlotsKept(now, events);
  }

  /** What a new caller finds: its claim, the work in flight until it expires, or the response until that expires. */
  lemma BeginOutcome(s: State, d: nat, key: string, ttl: int)
    requires d !in s.calls
    ensures PhaseOf(Next(s, Begin(d, key, ttl)), d) ==
      if key !in s.entries || s.entries[key].expiresAt <= s.now then Working(s.now + ttl)
      else match s.entries[key] case InFlight(_) => TurnedAway case Committed(response, _) => Replayed(response)
  {
  }

  /** While no claim expires under its holder, every other caller of a working caller's key is turned away. */
  lemma OthersTurnedAway(now: int, events: seq<Event>, c: nat, d: nat, ttl: int)
    requires AllKeepSlots(now, events) && PhaseOf(After(now, events), c).Working? && d !in After(now, events).calls
    ensures var s := After(now, events);
      var s' := Next(s, Begin(d, KeyOf(s, c), ttl));
      PhaseOf(s', d) == TurnedAway && PhaseOf(s', c) == PhaseOf(s, c) && s'.entries == s.entries
  {
    var s := After(now, events);
    ExclusiveIffSlotsKept(now, events);
    assert HoldsSlot(s, c);
    BeginOutcome(s, d, KeyOf(s, c), ttl);
  }

  // ---- When a second caller can work -------------------------------------------------------------

  /** One more caller for the key of a working caller would work beside it. */
  ghost predicate AdmitsRival(s: State) {
    exists c: nat, d: nat, ttl: int :: d !in s.calls && AreRivals(Next(s, Begin(d, KeyOf(s, c), ttl)), c, d)
  }

  /** No two callers work on one key, and no further caller would join one. */
  ghost predicate IsSafe(s: State) {
    !AdmitsRival(s) && forall c, d :: !AreRivals(s, c, d)
  }

  ghost predicate SafeThroughout(now: int, events: seq<Event>) {
    IsSafe(After(now, events)) && (events != [] ==> SafeThroughout(now, events[..|events| - 1]))
  }

  lemma ExclusiveIsSafe(s: State)
    requires Exclusive(s)
    ensures IsSafe(s)
  {
    forall c: nat, d: nat, ttl: int | d !in s.calls
      ensures !AreRivals(Next(s, Begin(d, KeyOf(s, c), ttl)), c, d)
    {
      assert HoldsSlot(s, c);
    }
  }

  /** A working caller whose claim has expired would not keep the next one out. */
  lemma ExpiredAdmitsRival(s: State, c: nat)
    requires PhaseOf(s, c).Working? && !IsFresh(s.entries, KeyOf(s, c), s.now)
    ensures AdmitsRival(s)
  {
    var d := BeyondAll(s.calls.Keys);
    assert d !in s.calls && AreRivals(Next(s, Begin(d, KeyOf(s, c), 1)), c, d);
  }

  lemma OtherStepsAdmitRival(s: State, e: Event)
    requires Exclusive(s) && !KeepsSlots(s, e)
    ensures AdmitsRival(Next(s, e))
  {
    if e.Tick? {
      var c :| PhaseOf(s, c).Working? && e.now >= PhaseOf(s, c).deadline;
      assert HoldsSlot(s, c);
      ExpiredAdmitsRival(Next(s, e), c);
    } else {
      ExpiredAdmitsRival(Next(s, e), e.call);
    }
  }

  /**
   Main result: throughout a run no two callers work on one key, and none could be joined by another one, if and
   only if no claim expires under its holder.
   */
  lemma {:induction false} SafeIffSlotsKept(now: int, events: seq<Event>)
    ensures SafeThroughout(now, events) <==> AllKeepSlots(now, events)
  {
    ExclusiveIffSlotsKept(now, events);
    if AllKeepSlots(now, events) {
      ExclusiveIsSafe(After(now, events));
    }
    if events != [] {
      var before := events[..|events| - 1];
      SafeIffSlotsKept(now, before);
      ExclusiveIffSlotsKept(now, before);
      if AllKeepSlots(now, before) && !AllKeepSlots(now, events) {
        OtherStepsAdmitRival(After(now, before), events[|events| - 1]);
      }
    }
  }

  /** At most one working caller is a weaker condition: a lone caller may outlive its claim. */
  lemma LoneCallerMayExpire(key: string)
    ensures var events := [Begin(0, key, 10), Tick(20)];
            !AllKeepSlots(0, events) && forall c, d :: !AreRivals(After(0, events), c, d)
  {
    var events := [Begin(0, key, 10), Tick(20)];
    assert events[..1] == [Begin(0, key, 10)] && events[..1][..0] == [];
    assert PhaseOf(After(0, events[..1]), 0) == Working(10);
  }

  // ---- Replay ------------------------------------------------------------------------------------

  predicate HasResponse(s: State, key: string, response: Response, until: int) {
    key in s.entries && s.entries[key] == Committed(response, until)
  }

  /** A committed response is left alone by every step until its time is over. */
  lemma ResponseStays(s: State, e: Event, key: string, response: Response, until: int)
    requires Exclusive(s) && HasResponse(s, key, response, until) && s.now < until
    ensures HasResponse(Next(s, e), key, response, until)
  {
    if !e.Tick? {
      assert HoldsSlot(s, e.call);
    }
  }

  /** No claim expires under its holder, and the clock does not run backwards. */
  ghost predicate IsOrderly(now: int, events: seq<Event>) {
    events != [] ==>
      var before, e := events[..|events| - 1], events[|events| - 1];
      IsOrderly(now, before) && KeepsSlots(After(now, before), e) && (e.Tick? ==> e.now >= After(now, before).now)
  }

  lemma {:induction false} OrderlyKeepsSlots(now: int, events: seq<Event>)
    requires IsOrderly(now, events)
    ensures AllKeepSlots(now, events)
  {
    if events != [] {
      OrderlyKeepsSlots(now, events[..|events| - 1]);
    }
  }

  lemma {:induction false} OrderlyPrefix(now: int, events: seq<Event>, n: nat)
    requires IsOrderly(now, events) && n <= |events|
    ensures IsOrderly(now, events[..n])
  {
    if n < |events| {
      OrderlyPrefix(now, events[..|events| - 1], n);
      assert events[..|events| - 1][..n] == events[..n];
    } else {
      assert events[..n] == events;
    }
  }

  lemma {:induction false} ResponseStaysUntil(now: int, events: seq<Event>, n: nat, key: string, response: Response,
      until: int)
    requires IsOrderly(now, events) && n <= |events| && HasResponse(After(now, events[..n]), key, response, until)
    ensures After(now, events).now < until ==> HasResponse(After(now, events), key, response, until)
    ensures After(now, events[..n]).now <= After(now, events).now
  {
    if n < |events| {
      var before := events[..|events| - 1];
      assert before[..n] == events[..n];
      ResponseStaysUntil(now, before, n, key, response, until);
      OrderlyKeepsSlots(now, before);
      ExclusiveIffSlotsKept(now, before);
      if After(now, before).now < until {
        ResponseStays(After(now, before), events[|events| - 1], key, response, until);
      }
    } else {
      assert events[..n] == events;
    }
  }

  /**
   At most once: when a working caller commits at step `n`, every later caller of the key within the time to live
   gets exactly that response and does not work, whatever happens in between.
   */
  lemma CommittedResponseReplayed(now: int, events: seq<Event>, n: nat, c: nat, response: Response, ttl: int, d: nat,
      ttl': int)
    requires IsOrderly(now, events) && n < |events| && events[n] == Commit(c, response, ttl)
    requires PhaseOf(After(now, events[..n]), c).Working? && d !in After(now, events).calls
    requires After(now, events).now < After(now, events[..n]).now + ttl
    ensures var key := KeyOf(After(now, events[..n]), c);
            PhaseOf(Next(After(now, events), Begin(d, key, ttl')), d) == Replayed(response)
  {
    var s := After(now, events[..n]);
    OrderlyPrefix(now, events, n);
    OrderlyKeepsSlots(now, events[..n]);
    ExclusiveIffSlotsKept(now, events[..n]);
    assert HoldsSlot(s, c);
    assert events[..n + 1][..n] == events[..n];
    ResponseStaysUntil(now, events, n + 1, KeyOf(s, c), response, s.now + ttl);
  }

  // ---- A claim that expires under its holder ------------------------------------------------------

  /** A caller that outlives its claim frees the slot that another caller holds. */
  lemma StaleReleaseFreesForeignSlot(s: State, stale: nat, holder: nat, third: nat, ttl: int)
    requires stale != holder && PhaseOf(s, stale).Working? && PhaseOf(s, holder).Working?
    requires KeyOf(s, stale) == KeyOf(s, holder) && third !in s.calls
    ensures AreRivals(Next(Next(s, Release(stale)), Begin(third, KeyOf(s, holder), ttl)), holder, third)
  {
  }

  lemma Extend(now: int, events: seq<Event>, e: Event) returns (longer: seq<Event>)
    ensures longer == events + [e] && After(now, longer) == Next(After(now, events), e)
  {
    longer := events + [e];
    assert longer[..|events|] == events;
  }

  /** The complete run: the first caller outlives its claim, a second one works, and its slot goes to a third. */
  lemma StaleReleaseCounterexample(key: string) returns (events: seq<Event>)
    ensures events == [Begin(0, key, 10), Tick(10), Begin(1, key, 10), Release(0), Begin(2, key, 10)]
    ensures AreRivals(After(0, events), 1, 2)
  {
    events := Extend(0, [], Begin(0, key, 10));
    events := Extend(0, events, Tick(10));
    events := Extend(0, events, Begin(1, key, 10));
    StaleReleaseFreesForeignSlot(After(0, events), 0, 1, 2, 10);
    events := Extend(0, events, Release(0));
    events := Extend(0, events, Begin(2, key, 10));
  }
}
