/** `MemoryStorageAdapter` (packages/storage-memory/src/adapter.ts) as an object with mutable maps. */
module StorageAdapter {
  import opened Options
  import opened InvoiceStorage

  class MemoryStorageAdapter {
    var counters: map<string, nat>
    var scopes: map<string, ScopeCell>
    ghost var tickets: seq<Ticket>            // every answer of incrementCounter, in order
    ghost var history: map<string, seq<Op>>   // every record and status call, per scope key

    function State(): Storage
      reads this
    {
      Storage(counters, scopes)
    }

    /** The maps are exactly what the calls so far account for. */
    ghost predicate Valid()
      reads this
    {
      Gapless(tickets, State()) && history.Keys == scopes.Keys &&
      forall key :: key in scopes ==> scopes[key] == Run(history[key])
    }

    ghost function History(scope: Scope): seq<Op>
      reads this
    {
      if ScopeKey(scope) in history then history[ScopeKey(scope)] else []
    }

    constructor ()
      ensures Valid() && State() == Storage(map[], map[]) && tickets == [] && history == map[]
    {
      counters, scopes, tickets, history := map[], map[], [], map[];
    }

    method IncrementCounter(scope: Scope, year: nat, month: nat) returns (ticket: Ticket)
      requires Valid()
      modifies this
      ensures Valid() && (State(), ticket) == Incremented(old(State()), scope, year, month)
      ensures tickets == old(tickets) + [ticket] && history == old(history)
    {
      var key := CounterKey(scope, year, month);
      IncrementKeepsGapless(tickets, State(), scope, year, month);
      ghost var (next, answer) := Incremented(State(), scope, year, month);
      if key !in counters {
        counters := counters[key := 0];
      }
      counters := counters[key := counters[key] + 1];
      ticket := Ticket(key, scope, year, month, counters[key], FormatInvoiceNumber(year, month, counters[key]));
      assert State() == next && ticket == answer;
      tickets := tickets + [ticket];
    }

    method GetPreviousHash(scope: Scope, kind: Option<Kind>) returns (hash: Hash)
      requires Valid()
      ensures var key := if kind.Some? then Of(kind.value) else AnyKind;
              hash == Head(Cell(State(), scope), key) == LastHash(Chain(Log(History(scope)), key))
    {
      ghost var k := if kind.Some? then Of(kind.value) else AnyKind;
      HeadIsLastLogged(History(scope), k);
      if ScopeKey(scope) !in scopes {
        return BASE_HASH;
      }
      var cell := scopes[ScopeKey(scope)];
      var key := if kind.Some? then Of(kind.value) else AnyKind;
      return if key in cell.chainHead then cell.chainHead[key] else BASE_HASH;
    }

    method RecordInvoice(scope: Scope, record: InvoiceRecord) returns (outcome: Outcome)
      requires Valid()
      modifies this
      ensures Valid() && counters == old(counters) && tickets == old(tickets)
      ensures State() == WithCell(old(State()), scope, Recorded(Cell(old(State()), scope), record).0)
      ensures outcome == Recorded(Cell(old(State()), scope), record).1
      ensures history == old(history)[ScopeKey(scope) := old(History(scope)) + [Record(record)]]
    {
      var key := ScopeKey(scope);
      ghost var ops := History(scope);
      assert (ops + [Record(record)])[..|ops|] == ops;
      history := history[key := ops + [Record(record)]];
      if key !in scopes {
        scopes := scopes[key := EMPTY_CELL];
      }
      var cell := scopes[key];
      if record.invoiceId in cell.records {
        outcome := if RecordsEqual(cell.records[record.invoiceId], record) then Repeated else Conflict;
      } else {
        cell := cell.(records := cell.records[record.invoiceId := record]);
        cell := cell.(chainHead := cell.chainHead[AnyKind := record.invoiceHash]);
        cell := cell.(chainHead := cell.chainHead[Of(record.kind) := record.invoiceHash]);
        scopes := scopes[key := cell];
        outcome := Stored;
      }
      assert scopes == WithCell(old(State()), scope, Recorded(Cell(old(State()), scope), record).0).scopes;
    }

    method LoadInvoice(scope: Scope, invoiceId: string) returns (found: Option<InvoiceRecord>)
      requires Valid()
      ensures found.Some? <==> Records(History(scope), invoiceId)
      ensures var rows := Cell(State(), scope).records;
              found == if invoiceId in rows then Some(rows[invoiceId]) else None
    {
      RowsMatchLog(History(scope), invoiceId);
      if ScopeKey(scope) !in scopes {
        return None;
      }
      var cell := scopes[ScopeKey(scope)];
      return if invoiceId in cell.records then Some(cell.records[invoiceId]) else None;
    }

    method UpdateInvoiceStatus(scope: Scope, invoiceId: string, status: Status) returns (outcome: Outcome)
      requires Valid()
      modifies this
      ensures Valid() && counters == old(counters) && tickets == old(tickets)
      ensures outcome == StatusUpdated(Cell(old(State()), scope), invoiceId, status).1
      ensures outcome == UnknownInvoice ==> State() == old(State())
      ensures history == if ScopeKey(scope) !in old(scopes) then old(history)
        else old(history)[ScopeKey(scope) := old(History(scope)) + [SetStatus(invoiceId, status)]]
      ensures outcome != UnknownInvoice ==>
                State() == WithCell(old(State()), scope, StatusUpdated(Cell(old(State()), scope), invoiceId, status).0)
    {
      var key := ScopeKey(scope);
      if key !in scopes {
        return UnknownInvoice;
      }
      ghost var ops := History(scope);
      assert (ops + [SetStatus(invoiceId, status)])[..|ops|] == ops;
      history := history[key := ops + [SetStatus(invoiceId, status)]];
      var cell := scopes[key];
      if invoiceId !in cell.records {
        return UnknownInvoice;
      }
      cell := cell.(records := cell.records[invoiceId := cell.records[invoiceId].(status := status)]);
      scopes := scopes[key := cell];
      outcome := Stored;
    }
  }
}
