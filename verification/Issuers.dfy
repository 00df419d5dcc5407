/**
 The issuing functions as sequential programs over the adapter object: issueSimplifiedTaxInvoice (the other five
 Phase 2 issuers differ in the kind only) and issuePhase1Invoice.
 */
module Issuers {
  import opened Options
  import opened InvoiceStorage
  import opened Issuance
  import opened StorageAdapter

  datatype IssueResult = Issued(record: InvoiceRecord) | ScopeMismatch | StorageConflict

  /** What one issuing call does to the store when no other issuer interferes. */
  function IssuedAlone(store: Storage, builder: Builder, job: Job, year: nat, month: nat, issuedAt: int)
    : (Storage, IssueResult)
  {
    if job.egs != job.scope then (store, ScopeMismatch)
    else
      var (counted, ticket) := Incremented(store, job.scope, year, month);
      var previous := if job.kind.IsPhase1() then BASE_HASH else Head(Cell(counted, job.scope), Of(job.kind));
      var record := Build(World(map[0 := job], builder), job, ticket, previous, issuedAt);
      var (cell, outcome) := Recorded(Cell(counted, job.scope), record);
      (WithCell(counted, job.scope, cell), if outcome == Conflict then StorageConflict else Issued(record))
  }

  lemma CountedAlone(w: World, s: State, p: nat, year: nat, month: nat)
    requires p in w.jobs && PhaseOf(s, p) == Idle && w.jobs[p].egs == w.jobs[p].scope
    ensures var s1 := Next(w, s, Count(p, year, month));
            var (counted, ticket) := Incremented(s.store, w.jobs[p].scope, year, month);
            var s2 := if w.jobs[p].kind.IsPhase1() then s1 else Next(w, s1, ReadHead(p));
            s1.store == counted && s2.store == counted && s2.tickets == s.tickets + [ticket] &&
            PhaseOf(s1, p) == Counted(|s.tickets|)
  {
  }

  /** The interleaving model's steps of one issuer, run in a row, do the same. */
  lemma StepsInARow(w: World, s: State, p: nat, year: nat, month: nat, issuedAt: int)
    requires p in w.jobs && PhaseOf(s, p) == Idle
    ensures var job := w.jobs[p];
            var (store, result) := IssuedAlone(s.store, w.builder, job, year, month, issuedAt);
            var s1 := Next(w, s, Count(p, year, month));
            var s2 := if job.kind.IsPhase1() then s1 else Next(w, s1, ReadHead(p));
            var s3 := Next(w, s2, Commit(p, issuedAt));
            s3.store == store && (result.Issued? <==> PhaseOf(s3, p).Done?) &&
            (result.Issued? ==> PhaseOf(s3, p).record == result.record)
  {
    var job := w.jobs[p];
    if job.egs == job.scope {
      CountedAlone(w, s, p, year, month);
    }
  }

  /**
   One call takes the next number of its scope and month and records the invoice under it, unless the scope is another
   one, or the invoice is on record with other contents. A call that fails so has used up the number.
   */
  predicate IssuesOne(builder: Builder, before: Storage, after: Storage, job: Job, year: nat, month: nat, issuedAt: int,
      result: IssueResult)
  {
    var key := CounterKey(job.scope, year, month);
    var number := Counter(before, key) + 1;
    && (result == ScopeMismatch <==> job.egs != job.scope)
    && (result == ScopeMismatch ==> after == before)
    && (result == StorageConflict ==>
      job.invoiceId in Cell(before, job.scope).records && Cell(after, job.scope) == Cell(before, job.scope))
    && (result != ScopeMismatch ==> after.counters == before.counters[key := number])
    && (result.Issued? ==>
      && IsIssued(builder, job, number, FormatInvoiceNumber(year, month, number), result.record)
      && result.record.issuedAt == issuedAt
      && job.invoiceId in Cell(after, job.scope).records
      && Cell(after, job.scope).records[job.invoiceId] == result.record)
  }

  lemma BuildIsIssued(w: World, job: Job, ticket: Ticket, previous: Hash, issuedAt: int)
    requires job.kind.IsPhase1() ==> previous == BASE_HASH
    ensures IsIssued(w.builder, job, ticket.sequence, ticket.serial, Build(w, job, ticket, previous, issuedAt))
  {
  }

  lemma RecordedRow(cell: ScopeCell, record: InvoiceRecord)
    ensures var (after, outcome) := Recorded(cell, record);
      if outcome == Conflict then record.invoiceId in cell.records && after == cell
      else record.invoiceId in after.records && after.records[record.invoiceId] == record
  {
  }

  lemma CellWritten(store: Storage, scope: Scope, cell: ScopeCell)
    ensures Cell(WithCell(store, scope, cell), scope) == cell
    ensures WithCell(store, scope, cell).counters == store.counters
  {
  }

  lemma IssuedAloneIssuesOne(store: Storage, builder: Builder, job: Job, year: nat, month: nat, issuedAt: int)
    ensures var (after, result) := IssuedAlone(store, builder, job, year, month, issuedAt);
      IssuesOne(builder, store, after, job, year, month, issuedAt, result)
  {
    if job.egs == job.scope {
      var w := World(map[0 := job], builder);
      var (counted, ticket) := Incremented(store, job.scope, year, month);
      var previous := if job.kind.IsPhase1() then BASE_HASH else Head(Cell(counted, job.scope), Of(job.kind));
      var record := Build(w, job, ticket, previous, issuedAt);
      BuildIsIssued(w, job, ticket, previous, issuedAt);
      RecordedRow(Cell(counted, job.scope), record);
      CellWritten(counted, job.scope, Recorded(Cell(counted, job.scope), record).0);
    }
  }

  /** Run alone, a Phase 2 issuer extends its chain by a record linked to the chain's last one. */
  method IssuePhase2(
      adapter: MemoryStorageAdapter, builder: Builder, job: Job, year: nat, month: nat, issuedAt: int)
    returns (result: IssueResult)
    requires adapter.Valid() && !job.kind.IsPhase1()
    modifies adapter
    ensures adapter.Valid()
    ensures (adapter.State(), result) == IssuedAlone(old(adapter.State()), builder, job, year, month, issuedAt)
    ensures IssuesOne(builder, old(adapter.State()), adapter.State(), job, year, month, issuedAt, result)
    ensures result.Issued? && !Records(old(adapter.History(job.scope)), job.invoiceId) ==>
              var chain := old(Chain(Log(adapter.History(job.scope)), Of(job.kind)));
              result.record.previousInvoiceHash == LastHash(chain) &&
              Chain(Log(adapter.History(job.scope)), Of(job.kind)) == chain + [result.record]
  {
    IssuedAloneIssuesOne(adapter.State(), builder, job, year, month, issuedAt);
    if job.egs != job.scope {
      return ScopeMismatch;
    }
    var ticket := adapter.IncrementCounter(job.scope, year, month);
    var previous := adapter.GetPreviousHash(job.scope, Some(job.kind));
    var record := Build(World(map[0 := job], builder), job, ticket, previous, issuedAt);
    ghost var ops := adapter.History(job.scope);
    assert ops == old(adapter.History(job.scope));
    ChainAfter(ops, Record(record), job.kind);
    var outcome := adapter.RecordInvoice(job.scope, record);
    return if outcome == Conflict then StorageConflict else Issued(record);
  }

  /** A Phase 1 issuer moves no Phase 2 chain, but it resets the head of the any-kind chain to the base. */
  method IssuePhase1(
      adapter: MemoryStorageAdapter, builder: Builder, job: Job, year: nat, month: nat, issuedAt: int)
    returns (result: IssueResult)
    requires adapter.Valid() && job.kind.IsPhase1()
    modifies adapter
    ensures adapter.Valid()
    ensures (adapter.State(), result) == IssuedAlone(old(adapter.State()), builder, job, year, month, issuedAt)
    ensures IssuesOne(builder, old(adapter.State()), adapter.State(), job, year, month, issuedAt, result)
    ensures forall kind: Kind :: kind != job.kind ==>
              Chain(Log(adapter.History(job.scope)), Of(kind)) == old(Chain(Log(adapter.History(job.scope)), Of(kind)))
    ensures result.Issued? && !Records(old(adapter.History(job.scope)), job.invoiceId) ==>
              Head(Cell(adapter.State(), job.scope), AnyKind) == BASE_HASH
  {
    IssuedAloneIssuesOne(adapter.State(), builder, job, year, month, issuedAt);
    if job.egs != job.scope {
      return ScopeMismatch;
    }
    var ticket := adapter.IncrementCounter(job.scope, year, month);
    var record := Build(World(map[0 := job], builder), job, ticket, BASE_HASH, issuedAt);
    ghost var ops := adapter.History(job.scope);
    assert ops == old(adapter.History(job.scope));
    RowsMatchLog(ops, job.invoiceId);
    forall kind: Kind | kind != job.kind
      ensures Chain(Log(ops + [Record(record)]), Of(kind)) == Chain(Log(ops), Of(kind))
    {
      ChainAfter(ops, Record(record), kind);
    }
    var outcome := adapter.RecordInvoice(job.scope, record);
    return if outcome == Conflict then StorageConflict else Issued(record);
  }
}
