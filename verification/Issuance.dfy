/**
 Invoice issuance (the issuers in packages/core/src/issue) over the storage adapter.

 An issuer takes a counter value, reads its kind's chain head, builds and hashes the document, and records it.
 Each of these is one atomic step; a run is any sequence of steps of any issuers. The invoice hash, the XML and the QR
 code are arbitrary functions of the document.
 */
module Issuance {
  import opened Options
  import opened InvoiceStorage

  /** What the hash is taken over. `payload` stands for the business content. */
  datatype Document = Document(scope: Scope, kind: Kind, sequence: nat, serial: string, previous: Hash, payload: string)

  /** One issuing call; `egs` is the (VAT number, EGS uuid) pair found in its `egsInfo`. */
  datatype Job = Job(scope: Scope, egs: Scope, kind: Kind, invoiceId: string, payload: string)

  /** What building a document gives: its hash, its XML (signed, except in Phase 1) and its QR code. */
  datatype Builder = Builder(hash: Document -> Hash, xml: Document -> string, qr: Document -> string)

  datatype World = World(jobs: map<nat, Job>, builder: Builder)

  /**
   Where an issuer stands. `at` is the index of its ticket among all tickets; `seen` is the length its chain
   had when it read the head.
   */
  datatype Phase =
    | Idle
    | Counted(at: nat)
    | Linked(at: nat, previous: Hash, seen: nat)
    | Done(at: nat, record: InvoiceRecord)
    | Failed

  datatype State = State(store: Storage, tickets: seq<Ticket>, ops: map<string, seq<Op>>, phases: map<nat, Phase>)

  datatype Event =
    | Count(pid: nat, year: nat, month: nat)
    | ReadHead(pid: nat)
    | Commit(pid: nat, issuedAt: int)
    | ChangeStatus(scope: Scope, invoiceId: string, status: Status)

  const START := State(Storage(map[], map[]), [], map[], map[])

  function PhaseOf(s: State, pid: nat): Phase {
    if pid in s.phases then s.phases[pid] else Idle
  }

  function OpsOf(s: State, key: string): seq<Op> {
    if key in s.ops then s.ops[key] else []
  }

  function ChainOf(s: State, key: string, kind: Kind): seq<InvoiceRecord> {
    Chain(Log(OpsOf(s, key)), Of(kind))
  }

  function DocumentOf(job: Job, ticket: Ticket, previous: Hash): Document {
    Document(job.scope, job.kind, ticket.sequence, ticket.serial, previous, job.payload)
  }

  function Build(w: World, job: Job, ticket: Ticket, previous: Hash, issuedAt: int): InvoiceRecord {
    var document := DocumentOf(job, ticket, previous);
    InvoiceRecord(job.invoiceId, job.kind, ticket.serial, ticket.sequence, job.egs.egsUuid,
                  if job.kind.IsPhase1() then BASE_HASH else w.builder.hash(document), previous,
                  w.builder.xml(document), w.builder.qr(document), issuedAt, Pending, None, None)
  }

  function Store(w: World, s: State, pid: nat, at: nat, record: InvoiceRecord): State
    requires pid in w.jobs
  {
    var scope := w.jobs[pid].scope;
    var (cell, outcome) := Recorded(Cell(s.store, scope), record);
    s.(store := WithCell(s.store, scope, cell),
       ops := s.ops[ScopeKey(scope) := OpsOf(s, ScopeKey(scope)) + [Record(record)]],
       phases := s.phases[pid := if outcome == Conflict then Failed else Done(at, record)])
  }

  /** A step that is not enabled in `s` leaves `s` as it is. */
  function Next(w: World, s: State, e: Event): State {
    match e
    case Count(p, year, month) =>
      if p !in w.jobs || PhaseOf(s, p) != Idle then s
      else if w.jobs[p].egs != w.jobs[p].scope then s.(phases := s.phases[p := Failed])
      else
        var (store, ticket) := Incremented(s.store, w.jobs[p].scope, year, month);
        s.(store := store, tickets := s.tickets + [ticket], phases := s.phases[p := Counted(|s.tickets|)])
    case ReadHead(p) =>
      if p !in w.jobs || !PhaseOf(s, p).Counted? || w.jobs[p].kind.IsPhase1() then s
      else
        var job := w.jobs[p];
        var previous := Head(Cell(s.store, job.scope), Of(job.kind));
        var seen := |ChainOf(s, ScopeKey(job.scope), job.kind)|;
        s.(phases := s.phases[p := Linked(PhaseOf(s, p).at, previous, seen)])
    case Commit(p, issuedAt) =>
      if p !in w.jobs then s
      else
        var job := w.jobs[p];
        match PhaseOf(s, p) {
          case Linked(at, previous, _) =>
            if at < |s.tickets| then Store(w, s, p, at, Build(w, job, s.tickets[at], previous, issuedAt)) else s
          case Counted(at) =>
            if at < |s.tickets| && job.kind.IsPhase1()
            then Store(w, s, p, at, Build(w, job, s.tickets[at], BASE_HASH, issuedAt)) else s
          case _ => s
        }
    case ChangeStatus(scope, id, status) =>
      if ScopeKey(scope) !in s.store.scopes then s
      else
        s.(store := WithCell(s.store, scope, StatusUpdated(Cell(s.store, scope), id, status).0),
           ops := s.ops[ScopeKey(scope) := OpsOf(s, ScopeKey(scope)) + [SetStatus(id, status)]])
  }

  function After(w: World, events: seq<Event>): State {
    if events == [] then START else Next(w, After(w, events[..|events| - 1]), events[|events| - 1])
  }

  // ---- Invariant -------------------------------------------------------------------------------

  /** Record `i` was linked to the end of the chain's first `j` records: to record `j - 1`, or to the base. */
  ghost predicate LinksTo(chain: seq<InvoiceRecord>, i: nat, j: nat)
    requires i < |chain|
  {
    j <= i && chain[i].previousInvoiceHash == LastHash(chain[..j])
  }

  ghost predicate IsLinked(chain: seq<InvoiceRecord>, i: nat)
    requires i < |chain|
  {
    exists j: nat :: LinksTo(chain, i, j)
  }

  /** Every record of the chain points at the base or at an earlier record of the same chain. */
  ghost predicate IsTree(chain: seq<InvoiceRecord>) {
    forall i: nat :: i < |chain| ==> IsLinked(chain, i)
  }

  /** Every record of the chain points at the one right before it. */
  ghost predicate IsLinear(chain: seq<InvoiceRecord>) {
    forall i :: 0 <= i < |chain| ==> chain[i].previousInvoiceHash == LastHash(chain[..i])
  }

  ghost predicate StoreOk(s: State) {
    Gapless(s.tickets, s.store) && s.store.scopes.Keys == s.ops.Keys &&
    forall key :: key in s.ops ==> s.store.scopes[key] == Run(s.ops[key])
  }

  ghost predicate LinkOk(w: World, s: State, p: nat)
    requires p in w.jobs
  {
    var chain := ChainOf(s, ScopeKey(w.jobs[p].scope), w.jobs[p].kind);
    PhaseOf(s, p).Linked? ==>
      PhaseOf(s, p).seen <= |chain| && PhaseOf(s, p).previous == LastHash(chain[..PhaseOf(s, p).seen])
  }

  ghost predicate Inv(w: World, s: State) {
    StoreOk(s) &&
    (forall p :: p in w.jobs ==> LinkOk(w, s, p)) &&
    (forall key, kind: Kind :: !kind.IsPhase1() ==> IsTree(ChainOf(s, key, kind)))
  }

  lemma HeadOfCell(s: State, scope: Scope, kind: Kind)
    requires StoreOk(s)
    ensures Head(Cell(s.store, scope), Of(kind)) == LastHash(ChainOf(s, ScopeKey(scope), kind))
    ensures Cell(s.store, scope) == Run(OpsOf(s, ScopeKey(scope)))
  {
    HeadIsLastLogged(OpsOf(s, ScopeKey(scope)), Of(kind));
  }

  /** What one more call does to a chain: at most one record is added, and only to its own chain. */
  function Added(ops: seq<Op>, op: Op, kind: Kind): seq<InvoiceRecord> {
    if op.Record? && !Records(ops, op.record.invoiceId) && op.record.kind == kind then [op.record] else []
  }

  lemma ChainAfter(ops: seq<Op>, op: Op, kind: Kind)
    ensures Chain(Log(ops + [op]), Of(kind)) == Chain(Log(ops), Of(kind)) + Added(ops, op, kind)
  {
    assert (ops + [op])[..|ops|] == ops;
    if op.Record? {
      ChainAppend(Log(ops), op.record, Of(kind));
    }
  }

  lemma TreeGrows(chain: seq<InvoiceRecord>, record: InvoiceRecord, j: nat)
    requires IsTree(chain) && j <= |chain| && record.previousInvoiceHash == LastHash(chain[..j])
    ensures IsTree(chain + [record])
  {
    var longer := chain + [record];
    forall i: nat | i < |longer| ensures IsLinked(longer, i) {
      if i < |chain| {
        assert IsLinked(chain, i);
        var m: nat :| LinksTo(chain, i, m);
        assert longer[..m] == chain[..m];
        assert LinksTo(longer, i, m);
      } else {
        assert longer[..j] == chain[..j];
        assert LinksTo(longer, i, j);
      }
    }
  }

  /** A state change that applies one storage call to one scope. */
  ghost predicate IsCall(s: State, s': State, scope: Scope, op: Op) {
    s'.store == WithCell(s.store, scope, Apply(Cell(s.store, scope), op).0) && s'.tickets == s.tickets &&
    s'.ops == s.ops[ScopeKey(scope) := OpsOf(s, ScopeKey(scope)) + [op]]
  }

  lemma CallKeepsStore(s: State, s': State, scope: Scope, op: Op)
    requires StoreOk(s) && IsCall(s, s', scope, op)
    ensures StoreOk(s')
  {
    var ops := OpsOf(s, ScopeKey(scope));
    assert (ops + [op])[..|ops|] == ops;
  }

  lemma CallExtendsChain(s: State, s': State, scope: Scope, op: Op, key: string, kind: Kind)
    requires IsCall(s, s', scope, op)
    ensures ChainOf(s', key, kind) ==
            ChainOf(s, key, kind) + if key == ScopeKey(scope) then Added(OpsOf(s, key), op, kind) else []
  {
    ChainAfter(OpsOf(s, key), op, kind);
  }

  lemma LinksSurviveGrowth(w: World, s: State, s': State, p: nat)
    requires p in w.jobs && LinkOk(w, s, p) && PhaseOf(s', p) == PhaseOf(s, p)
    requires ChainOf(s, ScopeKey(w.jobs[p].scope), w.jobs[p].kind) <=
      ChainOf(s', ScopeKey(w.jobs[p].scope), w.jobs[p].kind)
    ensures LinkOk(w, s', p)
  {
    if PhaseOf(s, p).Linked? {
      var chain := ChainOf(s, ScopeKey(w.jobs[p].scope), w.jobs[p].kind);
      var longer := ChainOf(s', ScopeKey(w.jobs[p].scope), w.jobs[p].kind);
      assert longer[..PhaseOf(s, p).seen] == chain[..PhaseOf(s, p).seen];
    }
  }

  /** Recording what an issuer built keeps the invariant, whatever happened since it read the head. */
  lemma StoreKeepsInv(w: World, s: State, p: nat, at: nat, record: InvoiceRecord)
    requires Inv(w, s) && p in w.jobs && record.kind == w.jobs[p].kind
    requires record.kind.IsPhase1() ||
             (PhaseOf(s, p).Linked? && record.previousInvoiceHash == PhaseOf(s, p).previous)
    ensures Inv(w, Store(w, s, p, at, record))
  {
    var scope := w.jobs[p].scope;
    var s' := Store(w, s, p, at, record);
    HeadOfCell(s, scope, record.kind);
    CallKeepsStore(s, s', scope, Record(record));
    forall key, kind: Kind ensures ChainOf(s, key, kind) <= ChainOf(s', key, kind) {
      CallExtendsChain(s, s', scope, Record(record), key, kind);
    }
    forall q | q in w.jobs ensures LinkOk(w, s', q) {
      if q != p {
        LinksSurviveGrowth(w, s, s', q);
      }
    }
    forall key, kind: Kind | !kind.IsPhase1() ensures IsTree(ChainOf(s', key, kind)) {
      CallExtendsChain(s, s', scope, Record(record), key, kind);
      if ChainOf(s', key, kind) != ChainOf(s, key, kind) {
        assert LinkOk(w, s, p);
        TreeGrows(ChainOf(s, key, kind), record, PhaseOf(s, p).seen);
      }
    }
  }

  lemma ReadKeepsInv(w: World, s: State, p: nat)
    requires Inv(w, s) && p in w.jobs && PhaseOf(s, p).Counted? && !w.jobs[p].kind.IsPhase1()
    ensures Inv(w, Next(w, s, ReadHead(p)))
  {
    var s' := Next(w, s, ReadHead(p));
    var chain := ChainOf(s, ScopeKey(w.jobs[p].scope), w.jobs[p].kind);
    HeadOfCell(s, w.jobs[p].scope, w.jobs[p].kind);
    assert chain[..|chain|] == chain;
    forall q | q in w.jobs ensures LinkOk(w, s', q) {
      if q != p {
        LinksSurviveGrowth(w, s, s', q);
      }
    }
    forall key, kind: Kind | !kind.IsPhase1() ensures IsTree(ChainOf(s', key, kind)) {
      assert ChainOf(s', key, kind) == ChainOf(s, key, kind);
    }
  }

  lemma NextKeepsInv(w: World, s: State, e: Event)
    requires Inv(w, s)
    ensures Inv(w, Next(w, s, e))
  {
    var s' := Next(w, s, e);
    match e {
      case Count(p, year, month) =>
        if s' != s {
          IncrementKeepsGapless(s.tickets, s.store, w.jobs[p].scope, year, month);
          UnlinkedKeepsInv(w, s, s', p);
        }
      case ReadHead(p) =>
        if s' != s {
          ReadKeepsInv(w, s, p);
        }
      case Commit(p, issuedAt) =>
        if s' != s {
          match PhaseOf(s, p) {
            case Linked(at, previous, _) =>
              StoreKeepsInv(w, s, p, at, Build(w, w.jobs[p], s.tickets[at], previous, issuedAt));
            case Counted(at) =>
              StoreKeepsInv(w, s, p, at, Build(w, w.jobs[p], s.tickets[at], BASE_HASH, issuedAt));
            case _ =>
          }
        }
      case ChangeStatus(scope, id, status) =>
        if s' != s {
          StatusKeepsInv(w, s, s', scope, id, status);
        }
    }
  }

  lemma UnlinkedKeepsInv(w: World, s: State, s': State, p: nat)
    requires Inv(w, s) && StoreOk(s') && s'.ops == s.ops && !PhaseOf(s', p).Linked?
    requires forall q :: q != p ==> PhaseOf(s', q) == PhaseOf(s, q)
    ensures Inv(w, s')
  {
    forall q | q in w.jobs ensures LinkOk(w, s', q) {
      if q != p {
        LinksSurviveGrowth(w, s, s', q);
      }
    }
    forall key, kind: Kind | !kind.IsPhase1() ensures IsTree(ChainOf(s', key, kind)) {
      assert ChainOf(s', key, kind) == ChainOf(s, key, kind);
    }
  }

  lemma StatusKeepsInv(w: World, s: State, s': State, scope: Scope, id: string, status: Status)
    requires Inv(w, s) && IsCall(s, s', scope, SetStatus(id, status)) && s'.phases == s.phases
    ensures Inv(w, s')
  {
    CallKeepsStore(s, s', scope, SetStatus(id, status));
    forall key, kind: Kind ensures ChainOf(s', key, kind) == ChainOf(s, key, kind) {
      CallExtendsChain(s, s', scope, SetStatus(id, status), key, kind);
    }
    forall q | q in w.jobs ensures LinkOk(w, s', q) {
      LinksSurviveGrowth(w, s, s', q);
    }
  }

  lemma {:induction false} InvAlways(w: World, events: seq<Event>)
    ensures Inv(w, After(w, events))
  {
    if events != [] {
      InvAlways(w, events[..|events| - 1]);
      NextKeepsInv(w, After(w, events[..|events| - 1]), events[|events| - 1]);
    }
  }

  // ---- Every record traces back to the base ----------------------------------------------------

  /** `path` leads from record `i` to a first record by previous-hash links, each to an earlier record. */
  ghost predicate IsTrace(chain: seq<InvoiceRecord>, i: nat, path: seq<nat>) {
    path != [] && path[0] == i &&
    (forall k :: 0 <= k < |path| ==> path[k] < |chain|) &&
    (forall k :: 0 < k < |path| ==>
      path[k] < path[k - 1] && chain[path[k - 1]].previousInvoiceHash == chain[path[k]].invoiceHash) &&
    chain[path[|path| - 1]].previousInvoiceHash == BASE_HASH
  }

  lemma {:induction false} TraceInTree(chain: seq<InvoiceRecord>, i: nat) returns (path: seq<nat>)
    requires IsTree(chain) && i < |chain|
    ensures IsTrace(chain, i, path)
    decreases i
  {
    assert IsLinked(chain, i);
    var j: nat :| LinksTo(chain, i, j);
    if j == 0 {
      return [i];
    }
    assert chain[..j][j - 1] == chain[j - 1];
    var rest := TraceInTree(chain, j - 1);
    path := [i] + rest;
    assert path[1..] == rest;
    assert path[|path| - 1] == rest[|rest| - 1];
    forall k | 0 < k < |path|
      ensures path[k] < path[k - 1] && chain[path[k - 1]].previousInvoiceHash == chain[path[k]].invoiceHash
    {
      assert path[k] == rest[k - 1];
      if k > 1 {
        assert path[k - 1] == rest[k - 2];
      }
    }
  }

  /**
   Under every interleaving, each Phase 2 record of a scope reaches the base hash by finitely many links
   through earlier records of the same scope and kind.
   */
  lemma EveryRecordTracesToBase(w: World, events: seq<Event>, key: string, kind: Kind, i: nat) returns (path: seq<nat>)
    requires !kind.IsPhase1() && i < |ChainOf(After(w, events), key, kind)|
    ensures IsTrace(ChainOf(After(w, events), key, kind), i, path)
  {
    InvAlways(w, events);
    path := TraceInTree(ChainOf(After(w, events), key, kind), i);
  }

  // ---- Distinct hashes -------------------------------------------------------------------------

  /** Collision freedom, and no document hashes to the base value. */
  ghost predicate IsCollisionFree(w: World) {
    (forall d, e :: w.builder.hash(d) == w.builder.hash(e) ==> d == e) && forall d :: w.builder.hash(d) != BASE_HASH
  }

  ghost predicate JobsOk(w: World) {
    forall p :: p in w.jobs ==> IsScope(w.jobs[p].scope)
  }

  predicate IsDated(e: Event) {
    e.Count? ==> IsMonth(e.month)
  }

  ghost predicate AreDated(events: seq<Event>) {
    forall i :: 0 <= i < |events| ==> IsDated(events[i])
  }

  function TicketIndex(phase: Phase): Option<nat> {
    match phase
    case Counted(at) => Some(at)
    case Linked(at, _, _) => Some(at)
    case Done(at, _) => Some(at)
    case _ => None
  }

  /** No ticket is used by two issuers. */
  ghost predicate TicketsOk(w: World, s: State) {
    (forall i :: 0 <= i < |s.tickets| ==> IsTicket(s.tickets[i])) &&
    (forall p :: TicketIndex(PhaseOf(s, p)).Some? ==>
      p in w.jobs && TicketIndex(PhaseOf(s, p)).value < |s.tickets| &&
      s.tickets[TicketIndex(PhaseOf(s, p)).value].scope == w.jobs[p].scope) &&
    (forall p, q :: p != q && TicketIndex(PhaseOf(s, p)).Some? ==>
      TicketIndex(PhaseOf(s, p)) != TicketIndex(PhaseOf(s, q)))
  }

  /**
   `record` is what issuing `job` records when the counter answers `sequence` and `serial`: under that number, about
   the document that carries it and the previous hash, and still to be submitted.
   */
  predicate IsIssued(builder: Builder, job: Job, sequence: nat, serial: string, record: InvoiceRecord) {
    var document := Document(job.scope, job.kind, sequence, serial, record.previousInvoiceHash, job.payload);
    && record.invoiceId == job.invoiceId && record.kind == job.kind
    && record.counterNumber == sequence && record.serial == serial && record.uuid == job.egs.egsUuid
    && record.signedXml == builder.xml(document) && record.qrBase64 == builder.qr(document)
    && record.status == Pending && record.clearanceNumber == record.validationResults == None
    && (if job.kind.IsPhase1() then record.invoiceHash == record.previousInvoiceHash == BASE_HASH
        else record.invoiceHash == builder.hash(document))
  }

  /** Issuer `p` of this scope produced `record` from its own ticket. */
  ghost predicate MadeBy(w: World, s: State, p: nat, key: string, record: InvoiceRecord) {
    p in w.jobs && ScopeKey(w.jobs[p].scope) == key && PhaseOf(s, p).Done? && PhaseOf(s, p).record == record &&
    PhaseOf(s, p).at < |s.tickets| &&
    IsIssued(w.builder, w.jobs[p], s.tickets[PhaseOf(s, p).at].sequence, s.tickets[PhaseOf(s, p).at].serial, record)
  }

  ghost predicate IsMade(w: World, s: State, key: string, record: InvoiceRecord) {
    exists p: nat :: MadeBy(w, s, p, key, record)
  }

  ghost predicate ChainsMade(w: World, s: State) {
    forall key, kind: Kind, r :: r in ChainOf(s, key, kind) ==> IsMade(w, s, key, r)
  }

  /** Phase 1 issuers read no head. */
  ghost predicate PhasesOk(w: World, s: State) {
    forall p :: p in w.jobs && PhaseOf(s, p).Linked? ==> !w.jobs[p].kind.IsPhase1()
  }

  ghost predicate FullInv(w: World, s: State) {
    Inv(w, s) && TicketsOk(w, s) && PhasesOk(w, s) && ChainsMade(w, s)
  }

  lemma NextKeepsPhases(w: World, s: State, e: Event)
    requires PhasesOk(w, s)
    ensures PhasesOk(w, Next(w, s, e))
  {
    forall p | p in w.jobs && PhaseOf(Next(w, s, e), p).Linked? ensures !w.jobs[p].kind.IsPhase1() {
      assert PhaseOf(s, p).Linked? ==> !w.jobs[p].kind.IsPhase1();
    }
  }

  lemma OnlyOwnPhaseMoves(w: World, s: State, e: Event)
    ensures var s' := Next(w, s, e);
            s.tickets <= s'.tickets &&
            (forall p :: PhaseOf(s, p).Done? || e.ChangeStatus? || p != e.pid ==> PhaseOf(s', p) == PhaseOf(s, p))
  {
  }

  predicate TakesTicket(w: World, s: State, e: Event) {
    e.Count? && e.pid in w.jobs && PhaseOf(s, e.pid).Idle? && w.jobs[e.pid].egs == w.jobs[e.pid].scope
  }

  lemma OtherStepsKeepTicket(w: World, s: State, e: Event)
    requires !TakesTicket(w, s, e)
    ensures var s' := Next(w, s, e);
            s'.tickets == s.tickets &&
            (!e.ChangeStatus? ==> TicketIndex(PhaseOf(s', e.pid)) in {TicketIndex(PhaseOf(s, e.pid)), None})
  {
  }

  lemma NextKeepsTickets(w: World, s: State, e: Event)
    requires TicketsOk(w, s) && JobsOk(w) && IsDated(e)
    ensures TicketsOk(w, Next(w, s, e))
    ensures s.tickets <= Next(w, s, e).tickets
    ensures forall p :: PhaseOf(s, p).Done? ==> PhaseOf(Next(w, s, e), p) == PhaseOf(s, p)
  {
    OnlyOwnPhaseMoves(w, s, e);
    if TakesTicket(w, s, e) {
      NewTicket(w, s, Next(w, s, e), e);
    } else {
      OtherStepsKeepTicket(w, s, e);
      SameTickets(w, s, Next(w, s, e), if e.ChangeStatus? then 0 else e.pid);
    }
  }

  lemma SameTickets(w: World, s: State, s': State, p: nat)
    requires TicketsOk(w, s) && s'.tickets == s.tickets
    requires forall q :: q != p ==> PhaseOf(s', q) == PhaseOf(s, q)
    requires TicketIndex(PhaseOf(s', p)) == TicketIndex(PhaseOf(s, p)) || TicketIndex(PhaseOf(s', p)) == None
    ensures TicketsOk(w, s')
  {
  }

  lemma NewTicket(w: World, s: State, s': State, e: Event)
    requires TicketsOk(w, s) && JobsOk(w) && IsDated(e) && e.Count? && e.pid in w.jobs
    requires s'.tickets == s.tickets + [Incremented(s.store, w.jobs[e.pid].scope, e.year, e.month).1]
    requires s'.phases == s.phases[e.pid := Counted(|s.tickets|)]
    ensures TicketsOk(w, s')
  {
    forall p | TicketIndex(PhaseOf(s', p)).Some?
      ensures p in w.jobs && TicketIndex(PhaseOf(s', p)).value < |s'.tickets| &&
              s'.tickets[TicketIndex(PhaseOf(s', p)).value].scope == w.jobs[p].scope &&
              (p != e.pid ==> TicketIndex(PhaseOf(s', p)).value < |s.tickets|)
    {
      assert p != e.pid ==> PhaseOf(s', p) == PhaseOf(s, p);
    }
  }

  lemma MakersStay(w: World, s: State, s': State, key: string, record: InvoiceRecord)
    requires IsMade(w, s, key, record) && s.tickets <= s'.tickets
    requires forall p :: PhaseOf(s, p).Done? ==> PhaseOf(s', p) == PhaseOf(s, p)
    ensures IsMade(w, s', key, record)
  {
    var p: nat :| MadeBy(w, s, p, key, record);
    assert MadeBy(w, s', p, key, record);
  }

  lemma CommitIsCall(w: World, s: State, e: Event)
    requires Commits(w, s, e)
    ensures IsCall(s, Next(w, s, e), w.jobs[e.pid].scope, Record(Product(w, s, e)))
  {
  }

  /** The record a step adds to a chain, if any, was stored by an issuer's commit. */
  lemma NextExtendsChain(w: World, s: State, e: Event, key: string, kind: Kind)
    ensures var s' := Next(w, s, e);
            if IsStoring(w, s, e, key, kind)
            then ChainOf(s', key, kind) == ChainOf(s, key, kind) + [Product(w, s, e)]
            else ChainOf(s', key, kind) == ChainOf(s, key, kind)
  {
    if Commits(w, s, e) {
      CommitIsCall(w, s, e);
      CallExtendsChain(s, Next(w, s, e), w.jobs[e.pid].scope, Record(Product(w, s, e)), key, kind);
    } else if e.ChangeStatus? {
      if ScopeKey(e.scope) in s.store.scopes {
        CallExtendsChain(s, Next(w, s, e), e.scope, SetStatus(e.invoiceId, e.status), key, kind);
      }
    } else {
      OtherStepsKeepOps(w, s, e);
    }
  }

  lemma OtherStepsKeepOps(w: World, s: State, e: Event)
    requires !Commits(w, s, e) && !e.ChangeStatus?
    ensures Next(w, s, e).ops == s.ops
  {
  }

  predicate Commits(w: World, s: State, e: Event) {
    e.Commit? && e.pid in w.jobs &&
    match PhaseOf(s, e.pid)
    case Linked(at, _, _) => at < |s.tickets|
    case Counted(at) => at < |s.tickets| && w.jobs[e.pid].kind.IsPhase1()
    case _ => false
  }

  function Product(w: World, s: State, e: Event): InvoiceRecord
    requires Commits(w, s, e)
  {
    var previous := if PhaseOf(s, e.pid).Linked? then PhaseOf(s, e.pid).previous else BASE_HASH;
    Build(w, w.jobs[e.pid], s.tickets[PhaseOf(s, e.pid).at], previous, e.issuedAt)
  }

  /** Step `e` records a new invoice in the chain of `key` and `kind`. */
  predicate IsStoring(w: World, s: State, e: Event, key: string, kind: Kind) {
    Commits(w, s, e) && ScopeKey(w.jobs[e.pid].scope) == key && w.jobs[e.pid].kind == kind &&
    !Records(OpsOf(s, key), w.jobs[e.pid].invoiceId)
  }

  lemma StoringIsMade(w: World, s: State, e: Event, key: string, kind: Kind)
    requires StoreOk(s) && PhasesOk(w, s) && IsStoring(w, s, e, key, kind)
    ensures IsMade(w, Next(w, s, e), key, Product(w, s, e))
  {
    RowsMatchLog(OpsOf(s, key), w.jobs[e.pid].invoiceId);
    HeadOfCell(s, w.jobs[e.pid].scope, kind);
    assert MadeBy(w, Next(w, s, e), e.pid, key, Product(w, s, e));
  }

  lemma ChainsStayMade(w: World, s: State, s': State, key: string, kind: Kind, r: InvoiceRecord)
    requires ChainsMade(w, s) && s.tickets <= s'.tickets
    requires forall p :: PhaseOf(s, p).Done? ==> PhaseOf(s', p) == PhaseOf(s, p)
    requires r in ChainOf(s, key, kind)
    ensures IsMade(w, s', key, r)
  {
    MakersStay(w, s, s', key, r);
  }

  lemma NextKeepsFullInv(w: World, s: State, e: Event)
    requires FullInv(w, s) && JobsOk(w) && IsDated(e)
    ensures FullInv(w, Next(w, s, e))
  {
    var s' := Next(w, s, e);
    NextKeepsInv(w, s, e);
    NextKeepsTickets(w, s, e);
    NextKeepsPhases(w, s, e);
    forall key, kind: Kind, r | r in ChainOf(s', key, kind) ensures IsMade(w, s', key, r) {
      NextExtendsChain(w, s, e, key, kind);
      if r in ChainOf(s, key, kind) {
        ChainsStayMade(w, s, s', key, kind, r);
      } else {
        StoringIsMade(w, s, e, key, kind);
      }
    }
  }

  lemma {:induction false} FullInvAlways(w: World, events: seq<Event>)
    requires JobsOk(w) && AreDated(events)
    ensures FullInv(w, After(w, events))
  {
    if events != [] {
      FullInvAlways(w, events[..|events| - 1]);
      NextKeepsFullInv(w, After(w, events[..|events| - 1]), events[|events| - 1]);
    }
  }

  ghost predicate HashesDistinct(chain: seq<InvoiceRecord>) {
    (forall i, j :: 0 <= i < j < |chain| ==> chain[i].invoiceHash != chain[j].invoiceHash) &&
    forall i :: 0 <= i < |chain| ==> chain[i].invoiceHash != BASE_HASH
  }

  lemma {:induction false} ChainIdsDistinct(log: seq<InvoiceRecord>, key: ChainKey)
    requires forall i, j :: 0 <= i < j < |log| ==> log[i].invoiceId != log[j].invoiceId
    ensures forall i, j :: 0 <= i < j < |Chain(log, key)| ==>
      Chain(log, key)[i].invoiceId != Chain(log, key)[j].invoiceId
  {
    if log != [] {
      ChainIdsDistinct(log[..|log| - 1], key);
    }
  }

  lemma MakersDiffer(w: World, s: State, key: string, r: InvoiceRecord, q: InvoiceRecord)
    requires TicketsOk(w, s) && Gapless(s.tickets, s.store) && JobsOk(w) && IsCollisionFree(w)
    requires IsMade(w, s, key, r) && IsMade(w, s, key, q) && r.invoiceId != q.invoiceId
    requires !r.kind.IsPhase1() && !q.kind.IsPhase1()
    ensures r.invoiceHash != q.invoiceHash
  {
    var m: nat :| MadeBy(w, s, m, key, r);
    var n: nat :| MadeBy(w, s, n, key, q);
    MakersTickets(w, s, key, m, n, r, q);
    TicketsDiffer(s.tickets, s.store, PhaseOf(s, m).at, PhaseOf(s, n).at);
  }

  /** Two makers have different tickets of their common scope. */
  lemma MakersTickets(w: World, s: State, key: string, m: nat, n: nat, r: InvoiceRecord, q: InvoiceRecord)
    requires TicketsOk(w, s) && JobsOk(w)
    requires MadeBy(w, s, m, key, r) && MadeBy(w, s, n, key, q) && r.invoiceId != q.invoiceId
    ensures PhaseOf(s, m).at != PhaseOf(s, n).at
    ensures s.tickets[PhaseOf(s, m).at].scope == s.tickets[PhaseOf(s, n).at].scope == w.jobs[m].scope
    ensures IsTicket(s.tickets[PhaseOf(s, m).at]) && IsTicket(s.tickets[PhaseOf(s, n).at])
  {
    assert TicketIndex(PhaseOf(s, m)) == Some(PhaseOf(s, m).at) && TicketIndex(PhaseOf(s, n)) == Some(PhaseOf(s, n).at);
    ScopeKeyInjective(w.jobs[m].scope, w.jobs[n].scope);
  }

  lemma MadeIsNotBase(w: World, s: State, key: string, r: InvoiceRecord)
    requires IsCollisionFree(w) && IsMade(w, s, key, r) && !r.kind.IsPhase1()
    ensures r.invoiceHash != BASE_HASH
  {
    var m: nat :| MadeBy(w, s, m, key, r);
  }

  lemma ChainHashesDistinct(w: World, s: State, key: string, kind: Kind)
    requires FullInv(w, s) && JobsOk(w) && IsCollisionFree(w) && !kind.IsPhase1()
    ensures HashesDistinct(ChainOf(s, key, kind))
  {
    var chain := ChainOf(s, key, kind);
    assert forall i, j :: 0 <= i < j < |chain| ==> chain[i].invoiceId != chain[j].invoiceId by {
      LogIdsDistinct(OpsOf(s, key));
      ChainIdsDistinct(Log(OpsOf(s, key)), Of(kind));
    }
    forall i | 0 <= i < |chain| ensures IsMade(w, s, key, chain[i]) && chain[i].invoiceHash != BASE_HASH {
      assert chain[i] in ChainOf(s, key, kind) && chain[i].kind == kind;
      MadeIsNotBase(w, s, key, chain[i]);
    }
    forall i, j | 0 <= i < j < |chain| ensures chain[i].invoiceHash != chain[j].invoiceHash {
      MakersDiffer(w, s, key, chain[i], chain[j]);
    }
  }

  // ---- When the chain is linear ----------------------------------------------------------------

  /** Step `e` records an invoice although its chain grew after its issuer had read the head. */
  predicate Overlaps(w: World, s: State, e: Event, key: string, kind: Kind) {
    IsStoring(w, s, e, key, kind) && PhaseOf(s, e.pid).Linked? && PhaseOf(s, e.pid).seen != |ChainOf(s, key, kind)|
  }

  ghost predicate NeverOverlaps(w: World, events: seq<Event>, key: string, kind: Kind) {
    forall n :: 0 <= n < |events| ==> !Overlaps(w, After(w, events[..n]), events[n], key, kind)
  }

  lemma LinkIsDirectIff(w: World, s: State, e: Event, key: string, kind: Kind)
    requires FullInv(w, s) && JobsOk(w) && IsCollisionFree(w) && !kind.IsPhase1() && IsStoring(w, s, e, key, kind)
    ensures Product(w, s, e).previousInvoiceHash == LastHash(ChainOf(s, key, kind)) <==> !Overlaps(w, s, e, key, kind)
  {
    var chain := ChainOf(s, key, kind);
    ChainHashesDistinct(w, s, key, kind);
    assert LinkOk(w, s, e.pid);
    var seen := PhaseOf(s, e.pid).seen;
    assert chain[..|chain|] == chain;
  }

  lemma LinearGrows(chain: seq<InvoiceRecord>, record: InvoiceRecord)
    ensures IsLinear(chain + [record]) <==> IsLinear(chain) && record.previousInvoiceHash == LastHash(chain)
  {
    var longer := chain + [record];
    assert forall i :: 0 <= i <= |chain| ==> longer[..i] == chain[..i];
    assert chain[..|chain|] == chain;
    if IsLinear(longer) {
      assert longer[|chain|] == record;
      assert forall i :: 0 <= i < |chain| ==> longer[i] == chain[i];
    }
  }

  /**
   With collision-free hashes, the records of a scope and kind form one linear chain in record order exactly
   when no invoice of that chain was recorded inside another one's read-to-record window.
   */
  lemma {:induction false} LinearIffNeverOverlaps(w: World, events: seq<Event>, key: string, kind: Kind)
    requires JobsOk(w) && IsCollisionFree(w) && AreDated(events) && !kind.IsPhase1()
    ensures IsLinear(ChainOf(After(w, events), key, kind)) <==> NeverOverlaps(w, events, key, kind)
  {
    if events != [] {
      var before, e := events[..|events| - 1], events[|events| - 1];
      LinearIffNeverOverlaps(w, before, key, kind);
      FullInvAlways(w, before);
      LinearAfterStep(w, After(w, before), e, key, kind);
      NeverOverlapsStep(w, before, e, key, kind);
      assert events == before + [e];
    }
  }

  lemma NeverOverlapsStep(w: World, before: seq<Event>, e: Event, key: string, kind: Kind)
    ensures NeverOverlaps(w, before + [e], key, kind) <==>
            NeverOverlaps(w, before, key, kind) && !Overlaps(w, After(w, before), e, key, kind)
  {
    var events := before + [e];
    assert forall n :: 0 <= n < |before| ==> before[..n] == events[..n] && before[n] == events[n];
    assert events[..|before|] == before && events[|before|] == e;
  }

  lemma LinearAfterStep(w: World, s: State, e: Event, key: string, kind: Kind)
    requires FullInv(w, s) && JobsOk(w) && IsCollisionFree(w) && !kind.IsPhase1()
    ensures IsLinear(ChainOf(Next(w, s, e), key, kind)) <==>
            IsLinear(ChainOf(s, key, kind)) && !Overlaps(w, s, e, key, kind)
  {
    NextExtendsChain(w, s, e, key, kind);
    if IsStoring(w, s, e, key, kind) {
      LinkIsDirectIff(w, s, e, key, kind);
      LinearGrows(ChainOf(s, key, kind), Product(w, s, e));
    }
  }

  // ---- Serialised issuance -----------------------------------------------------------------------

  predicate SameChain(w: World, p: nat, q: nat) {
    p in w.jobs && q in w.jobs && ScopeKey(w.jobs[p].scope) == ScopeKey(w.jobs[q].scope) &&
    w.jobs[p].kind == w.jobs[q].kind
  }

  /** Another issuer of `p`'s chain reaches its record step. */
  predicate IsRival(w: World, e: Event, p: nat) {
    e.Commit? && e.pid != p && SameChain(w, p, e.pid)
  }

  /** No read-to-record window of the chain contains another issuer's record step. */
  ghost predicate IsSerialised(w: World, events: seq<Event>, key: string, kind: Kind) {
    forall i, m, n :: 0 <= i < m < n < |events| && events[i].ReadHead? && events[n].Commit? &&
      events[i].pid == events[n].pid && events[n].pid in w.jobs &&
      ScopeKey(w.jobs[events[n].pid].scope) == key && w.jobs[events[n].pid].kind == kind
      ==> !IsRival(w, events[m], events[n].pid)
  }

  ghost predicate NoRivalAfter(w: World, events: seq<Event>, i: nat, p: nat) {
    forall m :: i < m < |events| ==> !IsRival(w, events[m], p)
  }

  /** What issuer `p` saw when it read the head is still all of its chain. */
  predicate IsCurrent(w: World, s: State, p: nat)
    requires p in w.jobs
  {
    PhaseOf(s, p).Linked? && PhaseOf(s, p).seen == |ChainOf(s, ScopeKey(w.jobs[p].scope), w.jobs[p].kind)|
  }

  /** A linked issuer read the head at some step `i`, and only rivals can have moved it since. */
  lemma {:induction false} ReadOpenedWindow(w: World, events: seq<Event>, p: nat) returns (i: nat)
    requires p in w.jobs && PhaseOf(After(w, events), p).Linked?
    ensures i < |events| && events[i] == ReadHead(p)
    ensures NoRivalAfter(w, events, i, p) ==> IsCurrent(w, After(w, events), p)
  {
    var n := |events| - 1;
    var before, e := events[..n], events[n];
    var s := After(w, before);
    if PhaseOf(s, p).Linked? {
      i := ReadOpenedWindow(w, before, p);
      if NoRivalAfter(w, events, i, p) {
        assert NoRivalAfter(w, before, i, p);
        StaysCurrent(w, s, e, p);
      }
    } else {
      LinkedByRead(w, s, e, p);
      i := n;
    }
  }

  lemma StaysCurrent(w: World, s: State, e: Event, p: nat)
    requires p in w.jobs && IsCurrent(w, s, p) && PhaseOf(Next(w, s, e), p).Linked? && !IsRival(w, e, p)
    ensures IsCurrent(w, Next(w, s, e), p)
  {
    NextExtendsChain(w, s, e, ScopeKey(w.jobs[p].scope), w.jobs[p].kind);
    LinkedUntilOwnCommit(w, s, e, p);
  }

  lemma LinkedUntilOwnCommit(w: World, s: State, e: Event, p: nat)
    requires p in w.jobs && PhaseOf(s, p).Linked? && PhaseOf(Next(w, s, e), p).Linked?
    ensures PhaseOf(Next(w, s, e), p) == PhaseOf(s, p) && !(Commits(w, s, e) && e.pid == p)
  {
  }

  lemma LinkedByRead(w: World, s: State, e: Event, p: nat)
    requires p in w.jobs && !PhaseOf(s, p).Linked? && PhaseOf(Next(w, s, e), p).Linked?
    ensures e == ReadHead(p) && IsCurrent(w, Next(w, s, e), p)
  {
    assert Next(w, s, e).ops == s.ops;
  }

  /** Issuers that take turns between read and record produce one linear chain. */
  lemma SerialisedIssuanceIsLinear(w: World, events: seq<Event>, key: string, kind: Kind)
    requires JobsOk(w) && IsCollisionFree(w) && AreDated(events) && !kind.IsPhase1()
    requires IsSerialised(w, events, key, kind)
    ensures IsLinear(ChainOf(After(w, events), key, kind))
  {
    forall n | 0 <= n < |events| ensures !Overlaps(w, After(w, events[..n]), events[n], key, kind) {
      var s, e := After(w, events[..n]), events[n];
      if IsStoring(w, s, e, key, kind) && PhaseOf(s, e.pid).Linked? {
        var i := ReadOpenedWindow(w, events[..n], e.pid);
        assert events[i] == ReadHead(e.pid);
        assert NoRivalAfter(w, events[..n], i, e.pid);
      }
    }
    LinearIffNeverOverlaps(w, events, key, kind);
  }

  predicate IsWaiting(w: World, s: State, p: nat) {
    p in w.jobs && !w.jobs[p].kind.IsPhase1() && PhaseOf(s, p).Counted? && PhaseOf(s, p).at < |s.tickets| &&
    !Records(OpsOf(s, ScopeKey(w.jobs[p].scope)), w.jobs[p].invoiceId)
  }

  lemma BothRead(w: World, s: State, p: nat, q: nat)
    requires StoreOk(s) && p != q && SameChain(w, p, q) && IsWaiting(w, s, p) && IsWaiting(w, s, q)
    ensures var s2 := Next(w, Next(w, s, ReadHead(p)), ReadHead(q));
            var previous := LastHash(ChainOf(s, ScopeKey(w.jobs[p].scope), w.jobs[p].kind));
            s2.ops == s.ops && s2.tickets == s.tickets && s2.store == s.store &&
            PhaseOf(s2, p).Linked? && PhaseOf(s2, p).previous == previous && PhaseOf(s2, p).at == PhaseOf(s, p).at &&
            PhaseOf(s2, q).Linked? && PhaseOf(s2, q).previous == previous && PhaseOf(s2, q).at == PhaseOf(s, q).at
  {
    HeadOfCell(s, w.jobs[p].scope, w.jobs[p].kind);
  }

  lemma OtherIdStaysNew(ops: seq<Op>, record: InvoiceRecord, id: string)
    requires !Records(ops, id) && record.invoiceId != id
    ensures !Records(ops + [Record(record)], id)
  {
  }

  /** Two issuers that both read before either records give their records the same predecessor. */
  lemma InterleavedReadersFork(w: World, s: State, p: nat, q: nat, t: int, u: int)
    requires StoreOk(s) && p != q && SameChain(w, p, q) && IsWaiting(w, s, p) && IsWaiting(w, s, q)
    requires w.jobs[p].invoiceId != w.jobs[q].invoiceId
    ensures var key, kind := ScopeKey(w.jobs[p].scope), w.jobs[p].kind;
            var s2 := Next(w, Next(w, s, ReadHead(p)), ReadHead(q));
            var s4 := Next(w, Next(w, s2, Commit(p, t)), Commit(q, u));
            exists a, b :: ChainOf(s4, key, kind) == ChainOf(s, key, kind) + [a] + [b] &&
                           a.previousInvoiceHash == b.previousInvoiceHash == LastHash(ChainOf(s, key, kind))
  {
    var key, kind := ScopeKey(w.jobs[p].scope), w.jobs[p].kind;
    var previous := LastHash(ChainOf(s, key, kind));
    var s2 := Next(w, Next(w, s, ReadHead(p)), ReadHead(q));
    BothRead(w, s, p, q);
    var a := Product(w, s2, Commit(p, t));
    var s3 := Next(w, s2, Commit(p, t));
    NextExtendsChain(w, s2, Commit(p, t), key, kind);
    CommitIsCall(w, s2, Commit(p, t));
    OnlyOwnPhaseMoves(w, s2, Commit(p, t));
    assert OpsOf(s3, key) == OpsOf(s, key) + [Record(a)];
    OtherIdStaysNew(OpsOf(s, key), a, w.jobs[q].invoiceId);
    var b := Product(w, s3, Commit(q, u));
    NextExtendsChain(w, s3, Commit(q, u), key, kind);
    assert ChainOf(Next(w, s3, Commit(q, u)), key, kind) == ChainOf(s, key, kind) + [a] + [b];
  }

  // ---- Counters ----------------------------------------------------------------------------------

  /** Under every interleaving the sequences handed out for one scope and month are 1, 2, ..., n in order. */
  lemma CountersRunGapless(w: World, events: seq<Event>, scope: Scope, year: nat, month: nat)
    ensures var s := After(w, events);
            var key := CounterKey(scope, year, month);
            Sequences(s.tickets, key) == OneTo(Counter(s.store, key))
  {
    InvAlways(w, events);
  }

  /** Under every interleaving two answers for one scope print the same serial only for months that clash. */
  lemma IssuedSerialsDistinct(w: World, events: seq<Event>, a: nat, b: nat)
    requires JobsOk(w) && AreDated(events) && a < b < |After(w, events).tickets|
    requires After(w, events).tickets[a].scope == After(w, events).tickets[b].scope
    ensures var tickets := After(w, events).tickets;
            tickets[a].serial == tickets[b].serial ==> CanShareSerial(tickets[a], tickets[b])
  {
    var s := After(w, events);
    FullInvAlways(w, events);
    SerialsDistinct(s.tickets, s.store, a, b);
  }

  /**
   Under every interleaving each record of a chain was issued for a job of its scope under the number and the serial
   of a ticket of that scope.
   */
  lemma RecordsCarryTickets(w: World, events: seq<Event>, key: string, kind: Kind, r: InvoiceRecord)
    returns (p: nat, at: nat)
    requires JobsOk(w) && AreDated(events) && r in ChainOf(After(w, events), key, kind)
    ensures p in w.jobs && ScopeKey(w.jobs[p].scope) == key && at < |After(w, events).tickets|
    ensures var ticket := After(w, events).tickets[at];
      ticket.scope == w.jobs[p].scope
      && ticket.serial == FormatInvoiceNumber(ticket.year, ticket.month, ticket.sequence)
      && IsIssued(w.builder, w.jobs[p], ticket.sequence, ticket.serial, r)
  {
    var s := After(w, events);
    FullInvAlways(w, events);
    assert IsMade(w, s, key, r);
    p :| MadeBy(w, s, p, key, r);
    at := PhaseOf(s, p).at;
    assert TicketIndex(PhaseOf(s, p)) == Some(at);
  }

  /**
   Two records of one scope, of whatever kinds, never have both number and serial in common, and share a serial only
   when the months of their tickets clash.
   */
  lemma RecordSerialsDistinct(w: World, events: seq<Event>, key: string, k: Kind, l: Kind, r: InvoiceRecord,
      q: InvoiceRecord)
    returns (a: Ticket, b: Ticket)
    requires JobsOk(w) && AreDated(events) && r.invoiceId != q.invoiceId
    requires r in ChainOf(After(w, events), key, k) && q in ChainOf(After(w, events), key, l)
    ensures a in After(w, events).tickets && b in After(w, events).tickets && a.scope == b.scope
    ensures r.serial == FormatInvoiceNumber(a.year, a.month, r.counterNumber)
    ensures q.serial == FormatInvoiceNumber(b.year, b.month, q.counterNumber)
    ensures r.counterNumber != q.counterNumber || r.serial != q.serial
    ensures r.serial == q.serial ==> CanShareSerial(a, b)
  {
    var s := After(w, events);
    FullInvAlways(w, events);
    assert IsMade(w, s, key, r) && IsMade(w, s, key, q);
    var m: nat :| MadeBy(w, s, m, key, r);
    var n: nat :| MadeBy(w, s, n, key, q);
    var i, j := PhaseOf(s, m).at, PhaseOf(s, n).at;
    a, b := s.tickets[i], s.tickets[j];
    MakersTickets(w, s, key, m, n, r, q);
    TicketsDiffer(s.tickets, s.store, i, j);
    if i < j {
      SerialsDistinct(s.tickets, s.store, i, j);
    } else {
      SerialsDistinct(s.tickets, s.store, j, i);
    }
  }

  /** In years of four digits no two tickets of one scope print the same serial. */
  lemma FourDigitSerialsDistinct(w: World, events: seq<Event>, a: nat, b: nat)
    requires JobsOk(w) && AreDated(events) && a < b < |After(w, events).tickets|
    requires var tickets := After(w, events).tickets;
      tickets[a].scope == tickets[b].scope && 1000 <= tickets[a].year <= 9999 && 1000 <= tickets[b].year <= 9999
    ensures After(w, events).tickets[a].serial != After(w, events).tickets[b].serial
  {
    var one, two := After(w, events).tickets[a], After(w, events).tickets[b];
    FullInvAlways(w, events);
    IssuedSerialsDistinct(w, events, a, b);
    FourDigits(one.year);
    FourDigits(two.year);
    SameLengthNeverClashes(one.year, one.month, two.year, two.month);
    SameLengthNeverClashes(two.year, two.month, one.year, one.month);
  }

  lemma {:induction false} TicketScopes(w: World, events: seq<Event>, i: nat)
    requires JobsOk(w) && i < |After(w, events).tickets|
    ensures IsScope(After(w, events).tickets[i].scope)
  {
    var before, e := After(w, events[..|events| - 1]), events[|events| - 1];
    if i < |before.tickets| {
      OnlyOwnPhaseMoves(w, before, e);
      TicketScopes(w, events[..|events| - 1], i);
    } else {
      NewTicketScope(w, before, e, i);
    }
  }

  lemma NewTicketScope(w: World, s: State, e: Event, i: nat)
    requires JobsOk(w) && |s.tickets| <= i < |Next(w, s, e).tickets|
    ensures IsScope(Next(w, s, e).tickets[i].scope)
  {
  }

  predicate IsOneMonth(tickets: seq<Ticket>, scope: Scope) {
    forall i, j :: 0 <= i < j < |tickets| && tickets[i].scope == tickets[j].scope == scope ==>
      tickets[i].year == tickets[j].year && tickets[i].month == tickets[j].month
  }

  lemma KeyIsMonth(a: Ticket, b: Ticket)
    requires IsTicket(a) && IsTicket(b) && IsScope(a.scope) && IsScope(b.scope)
    ensures a.key == b.key <==> a.scope == b.scope && a.year == b.year && a.month == b.month
  {
    if a.key == b.key {
      CounterKeyInjective(a.scope, a.year, a.month, b.scope, b.year, b.month);
    }
  }

  ghost predicate KeysAreMonths(tickets: seq<Ticket>) {
    forall i, j :: 0 <= i < j < |tickets| ==>
      (tickets[i].key == tickets[j].key <==>
        tickets[i].scope == tickets[j].scope && tickets[i].year == tickets[j].year
        && tickets[i].month == tickets[j].month)
  }

  lemma IssuedKeysAreMonths(w: World, events: seq<Event>)
    requires JobsOk(w) && AreDated(events)
    ensures KeysAreMonths(After(w, events).tickets)
  {
    var tickets := After(w, events).tickets;
    FullInvAlways(w, events);
    forall i, j | 0 <= i < j < |tickets|
      ensures tickets[i].key == tickets[j].key <==>
        tickets[i].scope == tickets[j].scope && tickets[i].year == tickets[j].year
        && tickets[i].month == tickets[j].month
    {
      TicketScopes(w, events, i);
      TicketScopes(w, events, j);
      KeyIsMonth(tickets[i], tickets[j]);
    }
  }

  lemma OneMonthIsOneKey(tickets: seq<Ticket>, scope: Scope)
    requires KeysAreMonths(tickets)
    ensures KeysHaveScopes(tickets) && (HasOneKey(tickets, scope) <==> IsOneMonth(tickets, scope))
  {
  }

  /** Under every interleaving a scope's sequences increase strictly exactly while all its months are one. */
  lemma MonotonicIffOneMonth(w: World, events: seq<Event>, scope: Scope)
    requires JobsOk(w) && AreDated(events)
    ensures IsMonotonic(After(w, events).tickets, scope) <==> IsOneMonth(After(w, events).tickets, scope)
  {
    var s := After(w, events);
    InvAlways(w, events);
    IssuedKeysAreMonths(w, events);
    OneMonthIsOneKey(s.tickets, scope);
    MonotonicIffOneKey(s.tickets, s.store, scope);
  }
}
