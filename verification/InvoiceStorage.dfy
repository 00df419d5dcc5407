/**
 The in-process storage adapter (packages/storage-memory/src/adapter.ts): counters per scope and month,
 records per scope, and one chain head per invoice kind plus one for "any kind".
 */
module InvoiceStorage {
  import opened Options
  import opened Decimal

  type Hash = string

  const BASE_HASH: Hash := "NWZlY2ViNjZmZmM4NmYzOGQ5NTI3ODZjNmQ2OTZjNzljMmRiYzIzOWRkNGU5MWI0NjcyOWQ3M2EyN2ZiNTdlOQ=="

  datatype Kind =
    | SimplifiedTaxInvoice | StandardTaxInvoice
    | SimplifiedCreditNote | StandardCreditNote
    | SimplifiedDebitNote | StandardDebitNote
    | Phase1Invoice | Phase1CreditNote
  {
    predicate IsPhase1() {
      Phase1Invoice? || Phase1CreditNote?
    }
  }

  datatype Status = Pending | Submitted | Accepted | Rejected | Cancelled

  datatype Scope = Scope(vatNumber: string, egsUuid: string)

  /** `issuedAt` in epoch milliseconds, `validationResults` as its JSON text. */
  datatype InvoiceRecord = InvoiceRecord(
    invoiceId: string, kind: Kind, serial: string, counterNumber: nat, uuid: string,
    invoiceHash: Hash, previousInvoiceHash: Hash, signedXml: string, qrBase64: string,
    issuedAt: int, status: Status, clearanceNumber: Option<string>, validationResults: Option<string>)

  /** `recordsEqual`: every field is compared. */
  predicate RecordsEqual(a: InvoiceRecord, b: InvoiceRecord) {
    a == b
  }

  datatype ChainKey = AnyKind | Of(kind: Kind)

  datatype ScopeCell = ScopeCell(records: map<string, InvoiceRecord>, chainHead: map<ChainKey, Hash>)

  const EMPTY_CELL := ScopeCell(map[], map[])

  datatype Outcome = Stored | Repeated | Conflict | UnknownInvoice

  // ---- Keys and serial numbers ------------------------------------------------------------

  function ScopeKey(scope: Scope): string {
    scope.vatNumber + ":" + scope.egsUuid
  }

  function YearMonth(year: nat, month: nat): string {
    Numeral(year) + PadStart(Numeral(month), 2)
  }

  function CounterKey(scope: Scope, year: nat, month: nat): string {
    ScopeKey(scope) + ":" + YearMonth(year, month)
  }

  /** `defaultFormatter`: YYYYMM######. */
  function FormatInvoiceNumber(year: nat, month: nat, sequence: nat): string {
    YearMonth(year, month) + PadStart(Numeral(sequence), 6)
  }

  predicate IsMonth(month: nat) {
    1 <= month <= 12
  }

  lemma MonthIsTwoDigits(year: nat, month: nat)
    requires IsMonth(month)
    ensures |PadStart(Numeral(month), 2)| == 2 && |YearMonth(year, month)| == |Numeral(year)| + 2
    ensures AllDigits(YearMonth(year, month))
  {
    assert month / 10 < 10;
    assert |Numeral(month)| <= 2;
  }

  lemma YearMonthInjective(y1: nat, m1: nat, y2: nat, m2: nat)
    requires IsMonth(m1) && IsMonth(m2) && YearMonth(y1, m1) == YearMonth(y2, m2)
    ensures y1 == y2 && m1 == m2
  {
    MonthIsTwoDigits(y1, m1);
    MonthIsTwoDigits(y2, m2);
    var n := |Numeral(y1)|;
    assert Numeral(y1) == YearMonth(y1, m1)[..n] == Numeral(y2);
    assert PadStart(Numeral(m1), 2) == YearMonth(y1, m1)[n..] == PadStart(Numeral(m2), 2);
    PaddedNumeralInjective(m1, m2, 2);
  }

  // ---- When two months can print one serial ----------------------------------------------------

  /** The first month's text is a proper prefix of the second one's, and no zero follows it there. */
  predicate MonthsClash(y1: nat, m1: nat, y2: nat, m2: nat) {
    && YearMonth(y1, m1) < YearMonth(y2, m2)
    && YearMonth(y2, m2)[|YearMonth(y1, m1)|] != '0'
  }

  predicate IsSameSerial(y1: nat, m1: nat, s1: nat, y2: nat, m2: nat, s2: nat) {
    s1 > 0 && s2 > 0 && FormatInvoiceNumber(y1, m1, s1) == FormatInvoiceNumber(y2, m2, s2)
  }

  lemma SplitPrefix(a: string, b: string, c: string, d: string)
    requires a + b == c + d && |a| <= |c|
    ensures a <= c && b == c[|a|..] + d
  {
    assert a == (a + b)[..|a|] == (c + d)[..|a|] == c[..|a|];
    assert b == (a + b)[|a|..] == (c + d)[|a|..];
  }

  /** A number printed with six digits or more has no leading zero when it needs more than six. */
  lemma LongSequence(sequence: nat)
    requires sequence > 0 && |PadStart(Numeral(sequence), 6)| > 6
    ensures PadStart(Numeral(sequence), 6)[0] != '0'
  {
    NumeralHead(sequence);
  }

  /** A serial number determines year, month and sequence, even past 999999, unless the two months clash. */
  lemma SerialInjective(y1: nat, m1: nat, s1: nat, y2: nat, m2: nat, s2: nat)
    requires IsMonth(m1) && IsMonth(m2) && IsSameSerial(y1, m1, s1, y2, m2, s2)
    requires |YearMonth(y1, m1)| <= |YearMonth(y2, m2)|
    ensures (y1 == y2 && m1 == m2 && s1 == s2) || MonthsClash(y1, m1, y2, m2)
  {
    var a, b, p, q := YearMonth(y1, m1), YearMonth(y2, m2), PadStart(Numeral(s1), 6), PadStart(Numeral(s2), 6);
    SplitPrefix(a, p, b, q);
    if a == b {
      assert b[|a|..] + q == q;
      YearMonthInjective(y1, m1, y2, m2);
      PaddedNumeralInjective(s1, s2, 6);
    } else {
      assert |p| > 6 && p[0] == b[|a|];
      LongSequence(s1);
    }
  }

  lemma JoinedTail(a: string, b: string, q: string)
    requires a <= b
    ensures a + (b[|a|..] + q) == b + q
  {
  }

  /** For months that clash: the rest of the longer text, with a sequence, is the sequence of the shorter one. */
  lemma ClashingSequences(y1: nat, m1: nat, y2: nat, m2: nat)
    requires IsMonth(m2) && MonthsClash(y1, m1, y2, m2)
    ensures exists s1: nat, s2: nat :: IsSameSerial(y1, m1, s1, y2, m2, s2)
  {
    var a, b, q := YearMonth(y1, m1), YearMonth(y2, m2), PadStart(Numeral(1), 6);
    MonthIsTwoDigits(y2, m2);
    var rest := b[|a|..] + q;
    NumeralOfValue(rest);
    JoinedTail(a, b, q);
    assert IsSameSerial(y1, m1, Value(rest), y2, m2, 1);
  }

  /** Main result on serials: exactly when two different months of a scope can print the same one. */
  lemma SerialsClashIff(y1: nat, m1: nat, y2: nat, m2: nat)
    requires IsMonth(m1) && IsMonth(m2) && (y1 != y2 || m1 != m2)
    requires |YearMonth(y1, m1)| <= |YearMonth(y2, m2)|
    ensures (exists s1: nat, s2: nat :: IsSameSerial(y1, m1, s1, y2, m2, s2)) <==> MonthsClash(y1, m1, y2, m2)
  {
    if s1: nat, s2: nat :| IsSameSerial(y1, m1, s1, y2, m2, s2) {
      SerialInjective(y1, m1, s1, y2, m2, s2);
    } else if MonthsClash(y1, m1, y2, m2) {
      ClashingSequences(y1, m1, y2, m2);
    }
  }

  /** Years with the same number of digits never clash, so four-digit years do not. */
  lemma SameLengthNeverClashes(y1: nat, m1: nat, y2: nat, m2: nat)
    requires IsMonth(m1) && IsMonth(m2) && |Numeral(y1)| == |Numeral(y2)|
    ensures !MonthsClash(y1, m1, y2, m2)
  {
    MonthIsTwoDigits(y1, m1);
    MonthIsTwoDigits(y2, m2);
  }

  lemma FourDigits(year: nat)
    requires 1000 <= year <= 9999
    ensures |Numeral(year)| == 4
  {
    assert |Numeral(year / 10 / 10 / 10)| == 1;
    assert |Numeral(year / 10 / 10)| == 2;
    assert |Numeral(year / 10)| == 3;
  }

  /** A serial of four-digit years reads as the decimal number YYYYMM######, twelve digits up to 999999. */
  lemma SerialIsNumber(year: nat, month: nat, sequence: nat)
    requires 1000 <= year <= 9999 && IsMonth(month) && sequence <= 999999
    ensures |FormatInvoiceNumber(year, month, sequence)| == 12 && AllDigits(FormatInvoiceNumber(year, month, sequence))
    ensures Value(FormatInvoiceNumber(year, month, sequence)) == year * 100000000 + month * 1000000 + sequence
  {
    FourDigits(year);
    MonthIsTwoDigits(year, month);
    SixDigits(sequence);
    ValueConcat(Numeral(year), PadStart(Numeral(month), 2));
    PadStartKeepsValue(Numeral(month), 2);
    ValueConcat(YearMonth(year, month), PadStart(Numeral(sequence), 6));
    PadStartKeepsValue(Numeral(sequence), 6);
    PowersOfTen();
  }

  lemma PowersOfTen()
    ensures Pow10(2) == 100 && Pow10(6) == 1000000
  {
    assert Pow10(3) == 1000 && Pow10(4) == 10000 && Pow10(5) == 100000;
  }

  lemma {:induction false} NumeralLength(n: nat, k: nat)
    requires k > 0 && n < Pow10(k)
    ensures |Numeral(n)| <= k
    decreases k
  {
    if n >= 10 {
      NumeralLength(n / 10, k - 1);
    }
  }

  lemma SixDigits(sequence: nat)
    requires sequence <= 999999
    ensures |PadStart(Numeral(sequence), 6)| == 6
  {
    PowersOfTen();
    NumeralLength(sequence, 6);
  }

  /** One such clash: February 20241 and October 2024. */
  lemma SerialClashBeyondFourDigitYears()
    ensures FormatInvoiceNumber(20241, 2, 1) == FormatInvoiceNumber(2024, 10, 2000001)
  {
    var y := Numeral(2024);
    SmallNumerals();
    TwoMillionAndOne();
    assert Numeral(20241) == y + "1";
    assert YearMonth(20241, 2) == y + "1" + "02";
    assert YearMonth(2024, 10) == y + "10";
    assert y + "1" + "02" + "000001" == y + "10" + "2000001";
  }

  lemma SmallNumerals()
    ensures PadStart(Numeral(2), 2) == "02" && PadStart(Numeral(10), 2) == "10" && PadStart(Numeral(1), 6) == "000001"
  {
    assert Numeral(1) == "1" && Numeral(2) == "2" && Numeral(10) == "10";
  }

  lemma TwoMillionAndOne()
    ensures Numeral(2000001) == "2000001"
  {
    assert Numeral(20) == "20";
    assert Numeral(200) == "200";
    assert Numeral(2000) == "2000";
    assert Numeral(20000) == "20000";
    assert Numeral(200000) == "200000";
  }

  // ---- Counter keys ----------------------------------------------------------------------------

  /** VAT numbers are all digits, so the first colon of a key ends the VAT number. */
  predicate IsScope(scope: Scope) {
    ':' !in scope.vatNumber && ':' !in scope.egsUuid
  }

  lemma SplitAtColon(a: string, b: string, c: string, d: string)
    requires ':' !in a && ':' !in c && a + ":" + b == c + ":" + d
    ensures a == c && b == d
  {
    var s, t := a + ":" + b, c + ":" + d;
    assert s[|a|] == ':' && t[|c|] == ':';
    assert forall i :: 0 <= i < |a| ==> s[i] == a[i] && a[i] in a;
    assert forall i :: 0 <= i < |c| ==> t[i] == c[i] && c[i] in c;
    assert |a| == |c|;
    assert a == s[..|a|] && c == t[..|c|] && b == s[|a| + 1..] && d == t[|c| + 1..];
  }

  lemma ScopeKeyInjective(s1: Scope, s2: Scope)
    requires IsScope(s1) && IsScope(s2) && ScopeKey(s1) == ScopeKey(s2)
    ensures s1 == s2
  {
    SplitAtColon(s1.vatNumber, s1.egsUuid, s2.vatNumber, s2.egsUuid);
  }

  lemma CounterKeyParts(s: Scope, year: nat, month: nat)
    ensures CounterKey(s, year, month) == s.vatNumber + ":" + (s.egsUuid + ":" + YearMonth(year, month))
  {
    var ym := YearMonth(year, month);
    assert s.vatNumber + ":" + s.egsUuid + ":" + ym == s.vatNumber + ":" + (s.egsUuid + ":" + ym);
  }

  lemma CounterKeyInjective(s1: Scope, y1: nat, m1: nat, s2: Scope, y2: nat, m2: nat)
    requires IsScope(s1) && IsScope(s2) && IsMonth(m1) && IsMonth(m2)
    requires CounterKey(s1, y1, m1) == CounterKey(s2, y2, m2)
    ensures s1 == s2 && y1 == y2 && m1 == m2
  {
    var t1, t2 := s1.egsUuid + ":" + YearMonth(y1, m1), s2.egsUuid + ":" + YearMonth(y2, m2);
    CounterKeyParts(s1, y1, m1);
    CounterKeyParts(s2, y2, m2);
    SplitAtColon(s1.vatNumber, t1, s2.vatNumber, t2);
    SplitAtColon(s1.egsUuid, YearMonth(y1, m1), s2.egsUuid, YearMonth(y2, m2));
    YearMonthInjective(y1, m1, y2, m2);
  }

  // ---- One scope: what each call does to its cell --------------------------------------------

  function Recorded(cell: ScopeCell, record: InvoiceRecord): (ScopeCell, Outcome) {
    var id := record.invoiceId;
    if id in cell.records then
      if RecordsEqual(cell.records[id], record) then (cell, Repeated) else (cell, Conflict)
    else
      (ScopeCell(cell.records[id := record],
                 cell.chainHead[AnyKind := record.invoiceHash][Of(record.kind) := record.invoiceHash]), Stored)
  }

  function StatusUpdated(cell: ScopeCell, invoiceId: string, status: Status): (ScopeCell, Outcome) {
    if invoiceId in cell.records then
      (cell.(records := cell.records[invoiceId := cell.records[invoiceId].(status := status)]), Stored)
    else (cell, UnknownInvoice)
  }

  function Head(cell: ScopeCell, key: ChainKey): Hash {
    if key in cell.chainHead then cell.chainHead[key] else BASE_HASH
  }

  datatype Op = Record(record: InvoiceRecord) | SetStatus(invoiceId: string, status: Status)

  function Apply(cell: ScopeCell, op: Op): (ScopeCell, Outcome) {
    match op
    case Record(r) => Recorded(cell, r)
    case SetStatus(id, s) => StatusUpdated(cell, id, s)
  }

  function Run(ops: seq<Op>): ScopeCell {
    if ops == [] then EMPTY_CELL else Apply(Run(ops[..|ops| - 1]), ops[|ops| - 1]).0
  }

  // ---- The append-only log, read off the calls alone -----------------------------------------

  predicate Records(ops: seq<Op>, id: string) {
    exists i :: 0 <= i < |ops| && ops[i].Record? && ops[i].record.invoiceId == id
  }

  /** The first `recordInvoice` call for each id, in call order. */
  function Log(ops: seq<Op>): seq<InvoiceRecord> {
    if ops == [] then []
    else
      var earlier, last := ops[..|ops| - 1], ops[|ops| - 1];
      if last.Record? && !Records(earlier, last.record.invoiceId) then Log(earlier) + [last.record] else Log(earlier)
  }

  /** The status the calls leave `id` in: a status call before the first record call fails. */
  function StatusOf(ops: seq<Op>, id: string): Option<Status> {
    if ops == [] then None
    else
      var earlier, last := ops[..|ops| - 1], ops[|ops| - 1];
      match last
      case Record(r) => if r.invoiceId == id && !Records(earlier, id) then Some(r.status) else StatusOf(earlier, id)
      case SetStatus(i, s) => if i == id && Records(earlier, id) then Some(s) else StatusOf(earlier, id)
  }

  predicate OnChain(record: InvoiceRecord, key: ChainKey) {
    key == AnyKind || key == Of(record.kind)
  }

  function Chain(log: seq<InvoiceRecord>, key: ChainKey): (chain: seq<InvoiceRecord>)
    ensures forall i :: 0 <= i < |chain| ==> chain[i] in log && OnChain(chain[i], key)
  {
    if log == [] then []
    else
      var rest, last := Chain(log[..|log| - 1], key), log[|log| - 1];
      if OnChain(last, key) then rest + [last] else rest
  }

  function LastHash(chain: seq<InvoiceRecord>): Hash {
    if chain == [] then BASE_HASH else chain[|chain| - 1].invoiceHash
  }

  predicate InLog(log: seq<InvoiceRecord>, id: string) {
    exists i :: 0 <= i < |log| && log[i].invoiceId == id
  }

  // ---- Refinement ------------------------------------------------------------------------------

  lemma InLogAppend(log: seq<InvoiceRecord>, record: InvoiceRecord, id: string)
    ensures InLog(log + [record], id) <==> InLog(log, id) || record.invoiceId == id
  {
    if InLog(log, id) {
      var i :| 0 <= i < |log| && log[i].invoiceId == id;
      assert (log + [record])[i].invoiceId == id;
    }
    assert (log + [record])[|log|] == record;
  }

  lemma {:induction false} RecordsAreLogged(ops: seq<Op>, id: string)
    ensures Records(ops, id) <==> InLog(Log(ops), id)
    ensures StatusOf(ops, id).Some? <==> Records(ops, id)
  {
    if ops != [] {
      var earlier, last := ops[..|ops| - 1], ops[|ops| - 1];
      RecordsAreLogged(earlier, id);
      assert ops == earlier + [last];
      assert Records(ops, id) <==> Records(earlier, id) || (last.Record? && last.record.invoiceId == id);
      if last.Record? {
        InLogAppend(Log(earlier), last.record, id);
      }
    }
  }

  lemma {:induction false} LogIdsDistinct(ops: seq<Op>)
    ensures forall i, j :: 0 <= i < j < |Log(ops)| ==> Log(ops)[i].invoiceId != Log(ops)[j].invoiceId
  {
    if ops != [] {
      var earlier, last := ops[..|ops| - 1], ops[|ops| - 1];
      LogIdsDistinct(earlier);
      if last.Record? {
        RecordsAreLogged(earlier, last.record.invoiceId);
      }
    }
  }

  /** The stored rows are the logged records with their current status, and nothing else. */
  lemma {:induction false} RowsMatchLog(ops: seq<Op>, id: string)
    ensures id in Run(ops).records <==> Records(ops, id)
    ensures forall r :: r in Log(ops) && r.invoiceId == id ==>
              id in Run(ops).records && StatusOf(ops, id).Some? &&
              Run(ops).records[id] == r.(status := StatusOf(ops, id).value)
  {
    RecordsAreLogged(ops, id);
    if ops != [] {
      var earlier, last := ops[..|ops| - 1], ops[|ops| - 1];
      RowsMatchLog(earlier, id);
      RecordsAreLogged(earlier, id);
      assert ops == earlier + [last];
      if last.Record? {
        RowsMatchLog(earlier, last.record.invoiceId);
      }
    }
  }

  lemma ChainAppend(log: seq<InvoiceRecord>, record: InvoiceRecord, key: ChainKey)
    ensures Chain(log + [record], key) == Chain(log, key) + (if OnChain(record, key) then [record] else [])
  {
    assert (log + [record])[..|log|] == log;
  }

  lemma HeadAfterRecord(cell: ScopeCell, record: InvoiceRecord, key: ChainKey)
    ensures Head(Recorded(cell, record).0, key) ==
            if record.invoiceId !in cell.records && OnChain(record, key) then record.invoiceHash else Head(cell, key)
  {
  }

  /** Every chain head is the hash of the last logged record of its chain, or the base hash. */
  lemma {:induction false} HeadIsLastLogged(ops: seq<Op>, key: ChainKey)
    ensures Head(Run(ops), key) == LastHash(Chain(Log(ops), key))
  {
    if ops != [] {
      var earlier, last := ops[..|ops| - 1], ops[|ops| - 1];
      HeadIsLastLogged(earlier, key);
      if last.Record? {
        RowsMatchLog(earlier, last.record.invoiceId);
        HeadAfterRecord(Run(earlier), last.record, key);
        ChainAppend(Log(earlier), last.record, key);
      }
    }
  }

  /** What `recordInvoice` answers after any run, and that only a first call changes the cell. */
  lemma RecordOutcome(ops: seq<Op>, record: InvoiceRecord)
    ensures var (cell', outcome) := Recorded(Run(ops), record);
            (outcome == Stored <==> !Records(ops, record.invoiceId)) &&
            (outcome != Stored ==> cell' == Run(ops)) &&
            (outcome == Repeated <==> Records(ops, record.invoiceId) && Run(ops).records[record.invoiceId] == record)
  {
    RowsMatchLog(ops, record.invoiceId);
  }

  /**
   A retry with the original payload never changes the store; it is accepted as a repeat exactly while the
   status is still the one the payload carries. After a status update the same retry is refused.
   */
  lemma RetryAcceptedIffStatusUnchanged(ops: seq<Op>, record: InvoiceRecord)
    requires record in Log(ops)
    ensures Recorded(Run(ops), record).0 == Run(ops)
    ensures Recorded(Run(ops), record).1 == Repeated <==> StatusOf(ops, record.invoiceId) == Some(record.status)
  {
    RowsMatchLog(ops, record.invoiceId);
  }

  lemma StatusNeverMovesHeads(ops: seq<Op>, id: string, status: Status, key: ChainKey)
    ensures Head(Run(ops + [SetStatus(id, status)]), key) == Head(Run(ops), key)
    ensures Log(ops + [SetStatus(id, status)]) == Log(ops)
  {
    var more := ops + [SetStatus(id, status)];
    assert more[..|more| - 1] == ops;
  }

  /** Recording moves only the chain of its own kind and the any-kind chain. */
  lemma RecordMovesOwnKindOnly(ops: seq<Op>, record: InvoiceRecord, kind: Kind)
    requires kind != record.kind
    ensures Head(Run(ops + [Record(record)]), Of(kind)) == Head(Run(ops), Of(kind))
  {
    var more := ops + [Record(record)];
    assert more[..|more| - 1] == ops && more[|more| - 1] == Record(record);
    assert Run(more) == Recorded(Run(ops), record).0;
    assert Of(kind) != Of(record.kind);
  }

  // ---- The whole store: counters and scope cells -----------------------------------------------

  datatype Storage = Storage(counters: map<string, nat>, scopes: map<string, ScopeCell>)

  /** One answer of `incrementCounter`. */
  datatype Ticket = Ticket(key: string, scope: Scope, year: nat, month: nat, sequence: nat, serial: string)

  function Counter(store: Storage, key: string): nat {
    if key in store.counters then store.counters[key] else 0
  }

  function Cell(store: Storage, scope: Scope): ScopeCell {
    if ScopeKey(scope) in store.scopes then store.scopes[ScopeKey(scope)] else EMPTY_CELL
  }

  function Incremented(store: Storage, scope: Scope, year: nat, month: nat): (Storage, Ticket) {
    var key := CounterKey(scope, year, month);
    var next := Counter(store, key) + 1;
    (store.(counters := store.counters[key := next]),
     Ticket(key, scope, year, month, next, FormatInvoiceNumber(year, month, next)))
  }

  function WithCell(store: Storage, scope: Scope, cell: ScopeCell): Storage {
    store.(scopes := store.scopes[ScopeKey(scope) := cell])
  }

  predicate IsTicket(t: Ticket) {
    t.key == CounterKey(t.scope, t.year, t.month) && IsMonth(t.month) &&
    t.serial == FormatInvoiceNumber(t.year, t.month, t.sequence)
  }

  /** The sequences handed out under one counter key, in order. */
  function Sequences(tickets: seq<Ticket>, key: string): seq<nat> {
    if tickets == [] then []
    else
      var earlier, last := Sequences(tickets[..|tickets| - 1], key), tickets[|tickets| - 1];
      if last.key == key then earlier + [last.sequence] else earlier
  }

  function OneTo(n: nat): seq<nat> {
    seq(n, i => i + 1)
  }

  ghost predicate Gapless(tickets: seq<Ticket>, store: Storage) {
    forall key :: Sequences(tickets, key) == OneTo(Counter(store, key))
  }

  /** Each answer extends its own counter's run 1, 2, 3, ... by one and leaves the others alone. */
  lemma IncrementKeepsGapless(tickets: seq<Ticket>, store: Storage, scope: Scope, year: nat, month: nat)
    requires Gapless(tickets, store)
    ensures var (store', ticket) := Incremented(store, scope, year, month);
            Gapless(tickets + [ticket], store')
  {
    var (store', ticket) := Incremented(store, scope, year, month);
    assert (tickets + [ticket])[..|tickets|] == tickets;
  }

  lemma {:induction false} SequencesPrefix(tickets: seq<Ticket>, i: nat, key: string)
    requires i <= |tickets|
    ensures Sequences(tickets[..i], key) <= Sequences(tickets, key)
  {
    var n := |tickets| - 1;
    if i <= n {
      SequencesPrefix(tickets[..n], i, key);
      assert tickets[..n][..i] == tickets[..i];
    } else {
      assert tickets[..i] == tickets;
    }
  }

  lemma SequencesUpTo(tickets: seq<Ticket>, i: nat)
    requires i < |tickets|
    ensures Sequences(tickets[..i + 1], tickets[i].key) ==
            Sequences(tickets[..i], tickets[i].key) + [tickets[i].sequence]
  {
    assert tickets[..i + 1][..i] == tickets[..i];
  }

  /** The k-th answer for one scope and month carries sequence number k. */
  lemma SequenceIsRank(tickets: seq<Ticket>, store: Storage, i: nat)
    requires Gapless(tickets, store) && i < |tickets|
    ensures tickets[i].sequence == |Sequences(tickets[..i], tickets[i].key)| + 1
  {
    var key := tickets[i].key;
    SequencesUpTo(tickets, i);
    SequencesPrefix(tickets, i + 1, key);
    var rank := |Sequences(tickets[..i], key)|;
    assert Sequences(tickets, key)[rank] == Sequences(tickets[..i + 1], key)[rank];
  }

  lemma RanksIncrease(tickets: seq<Ticket>, store: Storage, i: nat, j: nat)
    requires Gapless(tickets, store) && i < j < |tickets| && tickets[i].key == tickets[j].key
    ensures tickets[i].sequence < tickets[j].sequence
  {
    SequenceIsRank(tickets, store, i);
    SequenceIsRank(tickets, store, j);
    SequencesUpTo(tickets, i);
    SequencesPrefix(tickets[..j], i + 1, tickets[i].key);
    assert tickets[..j][..i + 1] == tickets[..i + 1];
  }

  /** No sequence and serial are handed out together twice within a scope, across all its months. */
  lemma TicketsDiffer(tickets: seq<Ticket>, store: Storage, i: nat, j: nat)
    requires Gapless(tickets, store) && i < |tickets| && j < |tickets| && i != j
    requires IsTicket(tickets[i]) && IsTicket(tickets[j]) && tickets[i].scope == tickets[j].scope
    ensures tickets[i].sequence != tickets[j].sequence || tickets[i].serial != tickets[j].serial
  {
    var a, b := tickets[i], tickets[j];
    if a.key == b.key {
      RanksIncrease(tickets, store, if i < j then i else j, if i < j then j else i);
    } else if a.sequence == b.sequence && a.serial == b.serial {
      SameSequenceSerials(a.year, a.month, b.year, b.month, a.sequence);
    }
  }

  lemma SameSequenceSerials(y1: nat, m1: nat, y2: nat, m2: nat, sequence: nat)
    requires IsMonth(m1) && IsMonth(m2)
    requires FormatInvoiceNumber(y1, m1, sequence) == FormatInvoiceNumber(y2, m2, sequence)
    ensures y1 == y2 && m1 == m2
  {
    var a, b, p := YearMonth(y1, m1), YearMonth(y2, m2), PadStart(Numeral(sequence), 6);
    assert |a + p| == |b + p|;
    assert a == (a + p)[..|a|] == (b + p)[..|b|] == b;
    YearMonthInjective(y1, m1, y2, m2);
  }

  predicate CanShareSerial(a: Ticket, b: Ticket) {
    MonthsClash(a.year, a.month, b.year, b.month) || MonthsClash(b.year, b.month, a.year, a.month)
  }

  /** Within a scope a serial is handed out twice only for months that clash. */
  lemma SerialsDistinct(tickets: seq<Ticket>, store: Storage, i: nat, j: nat)
    requires Gapless(tickets, store) && i < j < |tickets| && tickets[i].scope == tickets[j].scope
    requires IsTicket(tickets[i]) && IsTicket(tickets[j])
    ensures tickets[i].serial == tickets[j].serial ==> CanShareSerial(tickets[i], tickets[j])
  {
    var a, b := tickets[i], tickets[j];
    SequenceIsRank(tickets, store, i);
    SequenceIsRank(tickets, store, j);
    if a.serial == b.serial {
      TicketsDiffer(tickets, store, i, j);
      if |YearMonth(a.year, a.month)| <= |YearMonth(b.year, b.month)| {
        SerialInjective(a.year, a.month, a.sequence, b.year, b.month, b.sequence);
      } else {
        SerialInjective(b.year, b.month, b.sequence, a.year, a.month, a.sequence);
      }
    }
  }

  // ---- One counter or several ------------------------------------------------------------------

  ghost predicate KeysHaveScopes(tickets: seq<Ticket>) {
    forall i, j :: 0 <= i < j < |tickets| && tickets[i].key == tickets[j].key ==> tickets[i].scope == tickets[j].scope
  }

  /** The sequences handed out for the scope increase strictly, as one counter's would. */
  ghost predicate IsMonotonic(tickets: seq<Ticket>, scope: Scope) {
    forall i, j :: 0 <= i < j < |tickets| && tickets[i].scope == tickets[j].scope == scope ==>
      tickets[i].sequence < tickets[j].sequence
  }

  ghost predicate HasOneKey(tickets: seq<Ticket>, scope: Scope) {
    forall i, j :: 0 <= i < j < |tickets| && tickets[i].scope == tickets[j].scope == scope ==>
      tickets[i].key == tickets[j].key
  }

  /** The first ticket of a counter carries sequence 1. */
  lemma {:induction false} FirstOfKey(tickets: seq<Ticket>, store: Storage, i: nat) returns (first: nat)
    requires Gapless(tickets, store) && i < |tickets|
    ensures first <= i && tickets[first].key == tickets[i].key && tickets[first].sequence == 1
    decreases i
  {
    if j: nat :| j < i && tickets[j].key == tickets[i].key {
      first := FirstOfKey(tickets, store, j);
    } else {
      first := i;
      NothingYet(tickets[..i], tickets[i].key);
      SequenceIsRank(tickets, store, i);
    }
  }

  lemma {:induction false} NothingYet(tickets: seq<Ticket>, key: string)
    requires forall j :: 0 <= j < |tickets| ==> tickets[j].key != key
    ensures Sequences(tickets, key) == []
  {
    if tickets != [] {
      NothingYet(tickets[..|tickets| - 1], key);
    }
  }

  /** Main result on counters: the sequences of a scope are strictly monotonic exactly while it uses one counter. */
  lemma MonotonicIffOneKey(tickets: seq<Ticket>, store: Storage, scope: Scope)
    requires Gapless(tickets, store) && KeysHaveScopes(tickets)
    ensures IsMonotonic(tickets, scope) <==> HasOneKey(tickets, scope)
  {
    if HasOneKey(tickets, scope) {
      forall i, j | 0 <= i < j < |tickets| && tickets[i].scope == tickets[j].scope == scope
        ensures tickets[i].sequence < tickets[j].sequence
      {
        RanksIncrease(tickets, store, i, j);
      }
    } else {
      var i, j :| 0 <= i < j < |tickets| && tickets[i].scope == tickets[j].scope == scope
        && tickets[i].key != tickets[j].key;
      var a := FirstOfKey(tickets, store, i);
      var b := FirstOfKey(tickets, store, j);
      assert tickets[a].scope == tickets[b].scope == scope;
      assert tickets[a].sequence == tickets[b].sequence && a != b;
    }
  }

  /** A second month starts at 1 again. */
  lemma NewMonthRestarts(scope: Scope)
    ensures var (one, first) := Incremented(Storage(map[], map[]), scope, 2024, 1);
            var (_, second) := Incremented(one, scope, 2024, 2);
            first.sequence == second.sequence == 1 && !IsMonotonic([first, second], scope)
  {
    var (one, first) := Incremented(Storage(map[], map[]), scope, 2024, 1);
    var (two, second) := Incremented(one, scope, 2024, 2);
    var prefix := ScopeKey(scope) + ":";
    assert CounterKey(scope, 2024, 1)[|prefix|..] == YearMonth(2024, 1);
    assert CounterKey(scope, 2024, 2)[|prefix|..] == YearMonth(2024, 2);
    if first.key == second.key {
      YearMonthInjective(2024, 1, 2024, 2);
    }
    var tickets := [first, second];
    assert tickets[0].scope == tickets[1].scope == scope && !(tickets[0].sequence < tickets[1].sequence);
  }
}
