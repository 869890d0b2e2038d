/** The admin transaction list: search and status filter, the status
    badges, the displayed id, and the CSV export's text. */
module TransactionManager {
  import opened Wrappers
  import opened Text
  import opened Seqs
  import opened Database
  import opened AdminUi
  import Csv

  /** `field?.toLowerCase().includes(term.toLowerCase())`: an absent field
      never matches, whatever the term. */
  predicate OptionalMatches(field: Option<string>, term: string) {
    field.Some? && MatchesTerm(field.value, term)
  }

  /** The search looks at the payment reference, the joined order's number
      and the joined customer's name. */
  predicate SearchMatches(t: Transaction, term: string) {
    OptionalMatches(t.transactionId, term) ||
    (t.order.Some? && (MatchesTerm(t.order.value.orderNumber, term) ||
                       OptionalMatches(t.order.value.customerName, term)))
  }

  predicate TransactionMatches(t: Transaction, term: string, statusFilter: string) {
    SearchMatches(t, term) && (statusFilter == "all" || t.status.Name() == statusFilter)
  }

  function TransactionFilter(term: string, statusFilter: string): Transaction -> bool {
    (t: Transaction) => TransactionMatches(t, term, statusFilter)
  }

  /** The listed transactions, in the order the hook delivered them. */
  function FilteredTransactions(ts: seq<Transaction>, term: string, statusFilter: string): (r: seq<Transaction>)
    ensures |r| <= |ts|
  {
    Filter(ts, TransactionFilter(term, statusFilter))
  }

  /** A transaction is listed iff it matches, and the list keeps the input
      order. */
  lemma FilteredTransactionsContents(ts: seq<Transaction>, term: string, statusFilter: string)
    ensures forall t :: t in FilteredTransactions(ts, term, statusFilter) <==>
      t in ts && TransactionMatches(t, term, statusFilter)
    ensures IsSubseq(FilteredTransactions(ts, term, statusFilter), ts)
  {
    FilterIsSubseq(ts, TransactionFilter(term, statusFilter));
  }

  /** With an empty search, a transaction is listed iff it has a payment
      reference or a joined order: one with neither is hidden even then. */
  lemma EmptySearchNeedsAField(t: Transaction, statusFilter: string)
    ensures SearchMatches(t, "") <==> t.transactionId.Some? || t.order.Some?
    ensures t.transactionId.None? && t.order.None? ==> FilteredTransactions([t], "", statusFilter) == []
  {
    if t.transactionId.Some? {
      EmptyTermMatches(t.transactionId.value);
    }
    if t.order.Some? {
      EmptyTermMatches(t.order.value.orderNumber);
    }
  }

  /** A status filter other than `all` keeps only that status. */
  lemma StatusFilterExact(ts: seq<Transaction>, term: string, st: TransactionStatus)
    ensures forall t :: t in FilteredTransactions(ts, term, st.Name()) ==> t.status == st
  {
    FilteredTransactionsContents(ts, term, st.Name());
  }

  // ---------------------------------------------------------------- badges

  /** `getStatusBadgeVariant` on the stored status text. */
  function TransactionBadge(status: string): (v: BadgeVariant)
    ensures v == Default <==> status == "success"
    ensures v == Destructive <==> status == "failed" || status == "cancelled"
    ensures v == Secondary <==> status == "pending" || status !in TransactionStatusNames
  {
    if status == "success" then Default
    else if status == "pending" then Secondary
    else if status == "failed" then Destructive
    else if status == "cancelled" then Destructive
    else Secondary
  }

  // ------------------------------------------------------------ displayed id

  /** The payment reference when there is a non-empty one, else `TXN-` and
      the first eight characters of the row id. */
  function DisplayId(t: Transaction): (r: string)
    ensures t.transactionId.Some? && t.transactionId.value != "" ==> r == t.transactionId.value
    ensures !(t.transactionId.Some? && t.transactionId.value != "") ==>
      r == "TXN-" + Take(t.id, 8) && |r| <= 12
  {
    if t.transactionId.Some? && t.transactionId.value != "" then t.transactionId.value
    else "TXN-" + Take(t.id, 8)
  }

  /** Without a reference, two rows whose ids differ within the first eight
      characters are told apart. */
  lemma FallbackIdsDistinguishPrefixes(a: Transaction, b: Transaction)
    requires a.transactionId.None? && b.transactionId.None?
    requires |a.id| >= 8 && |b.id| >= 8 && a.id[..8] != b.id[..8]
    ensures DisplayId(a) != DisplayId(b)
  {
    assert DisplayId(a)[4..] == a.id[..8];
    assert DisplayId(b)[4..] == b.id[..8];
  }

  // -------------------------------------------------------------------- CSV

  const HeaderFields: seq<string> :=
    ["Transaction ID", "Order Number", "Customer", "Amount", "Status", "Payment Method", "Date"]

  /** The seven values of a transaction's row, absent ones as the empty
      string. The date text comes from the browser's locale formatting,
      which is a parameter here. */
  function RowFields(t: Transaction, formatDate: int -> string): (r: seq<string>)
    ensures |r| == |HeaderFields|
  {
    [ t.transactionId.GetOr(""),
      if t.order.Some? then t.order.value.orderNumber else "",
      if t.order.Some? then t.order.value.customerName.GetOr("") else "",
      IntToString(t.amount),
      t.status.Name(),
      t.paymentMethod.GetOr(""),
      formatDate(t.createdAt) ]
  }

  function CsvRow(t: Transaction, formatDate: int -> string): string {
    Join(RowFields(t, formatDate), ',')
  }

  function CsvRows(ts: seq<Transaction>, formatDate: int -> string): (r: seq<string>)
    ensures |r| == |ts|
    ensures forall i :: 0 <= i < |ts| ==> r[i] == CsvRow(ts[i], formatDate)
  {
    if ts == [] then [] else [CsvRow(ts[0], formatDate)] + CsvRows(ts[1..], formatDate)
  }

  /** The exported text as written: header and rows joined by newlines,
      fields by commas, nothing quoted. */
  function CsvContent(ts: seq<Transaction>, term: string, statusFilter: string, formatDate: int -> string): string {
    Join([Join(HeaderFields, ',')] + CsvRows(FilteredTransactions(ts, term, statusFilter), formatDate), '\n')
  }

  /** No value of the row contains `c`. */
  predicate RowFreeOf(t: Transaction, formatDate: int -> string, c: char) {
    forall i :: 0 <= i < |RowFields(t, formatDate)| ==> c !in RowFields(t, formatDate)[i]
  }

  /** As long as no value holds a line break, the export has one line for
      the header and one per listed transaction, in list order. */
  lemma CsvLines(ts: seq<Transaction>, term: string, statusFilter: string, formatDate: int -> string)
    requires forall t :: t in ts ==> RowFreeOf(t, formatDate, '\n')
    ensures Split(CsvContent(ts, term, statusFilter, formatDate), '\n')
         == [Join(HeaderFields, ',')] + CsvRows(FilteredTransactions(ts, term, statusFilter), formatDate)
    ensures |Split(CsvContent(ts, term, statusFilter, formatDate), '\n')|
         == 1 + |FilteredTransactions(ts, term, statusFilter)|
  {
    var f := FilteredTransactions(ts, term, statusFilter);
    var rows := CsvRows(f, formatDate);
    FilteredRowsFree(ts, term, statusFilter, formatDate);
    HeaderLineFree();
    LinesFree(Join(HeaderFields, ','), rows);
    SplitJoin([Join(HeaderFields, ',')] + rows, '\n');
  }

  lemma HeaderLineFree()
    ensures '\n' !in Join(HeaderFields, ',')
  {
    JoinFree(HeaderFields, ',', '\n');
  }

  lemma FilteredRowsFree(ts: seq<Transaction>, term: string, statusFilter: string, formatDate: int -> string)
    requires forall t :: t in ts ==> RowFreeOf(t, formatDate, '\n')
    ensures forall i :: 0 <= i < |FilteredTransactions(ts, term, statusFilter)| ==>
      '\n' !in CsvRows(FilteredTransactions(ts, term, statusFilter), formatDate)[i]
  {
    var f := FilteredTransactions(ts, term, statusFilter);
    assert forall i :: 0 <= i < |f| ==> f[i] in ts;
    RowsFree(f, formatDate);
  }

  lemma RowsFree(f: seq<Transaction>, formatDate: int -> string)
    requires forall i :: 0 <= i < |f| ==> RowFreeOf(f[i], formatDate, '\n')
    ensures forall i :: 0 <= i < |f| ==> '\n' !in CsvRows(f, formatDate)[i]
  {
    forall i | 0 <= i < |f|
      ensures '\n' !in CsvRows(f, formatDate)[i]
    {
      assert RowFreeOf(f[i], formatDate, '\n');
      JoinFree(RowFields(f[i], formatDate), ',', '\n');
    }
  }

  lemma LinesFree(header: string, rows: seq<string>)
    requires '\n' !in header
    requires forall i :: 0 <= i < |rows| ==> '\n' !in rows[i]
    ensures forall i :: 0 <= i < |[header] + rows| ==> '\n' !in ([header] + rows)[i]
  {
  }

  /** As long as no value holds a comma, each row reads back as its seven
      values. */
  lemma CsvRowFields(t: Transaction, formatDate: int -> string)
    requires RowFreeOf(t, formatDate, ',')
    ensures Split(CsvRow(t, formatDate), ',') == RowFields(t, formatDate)
  {
    SplitJoin(RowFields(t, formatDate), ',');
  }

  /** The as-written row's fault: a date text holding a comma (as
      `toLocaleString` produces in common locales, "10/11/2026, 3:00:00 PM")
      makes the row read back as eight values under a seven-column header. */
  lemma CommaInDateShiftsColumns(t: Transaction, formatDate: int -> string, day: string, time: string)
    requires forall i :: 0 <= i < 6 ==> ',' !in RowFields(t, formatDate)[i]
    requires ',' !in day && ',' !in time
    requires formatDate(t.createdAt) == day + "," + time
    ensures |Split(CsvRow(t, formatDate), ',')| == |HeaderFields| + 1
  {
    var fs := RowFields(t, formatDate);
    var split := fs[..6] + [day, time];
    JoinSnoc(fs, ',');
    JoinSnoc(split, ',');
    assert fs[..6] == split[..7][..6];
    assert split[..7] == fs[..6] + [day];
    JoinSnoc(split[..7], ',');
    assert Join(split, ',') == Join(fs, ',');
    SplitJoin(split, ',');
  }

  // ------------------------------------------------------ the corrected CSV

  function RowsFields(ts: seq<Transaction>, formatDate: int -> string): (r: seq<seq<string>>)
    ensures |r| == |ts|
    ensures forall i :: 0 <= i < |ts| ==> r[i] == RowFields(ts[i], formatDate)
  {
    if ts == [] then [] else [RowFields(ts[0], formatDate)] + RowsFields(ts[1..], formatDate)
  }

  /** The export with every value quoted as section 2 of RFC 4180 describes:
      the same header and rows, whatever the values contain. */
  function QuotedCsvContent(ts: seq<Transaction>, term: string, statusFilter: string, formatDate: int -> string): string {
    Csv.Document([HeaderFields] + RowsFields(FilteredTransactions(ts, term, statusFilter), formatDate))
  }

  /** The quoted export always reads back as the header followed by one
      seven-value record per listed transaction, with no condition on the
      values: commas, quotes and line breaks in names or dates are kept
      inside their column. */
  lemma QuotedCsvReadsBack(ts: seq<Transaction>, term: string, statusFilter: string, formatDate: int -> string)
    ensures Csv.ReadDocument(QuotedCsvContent(ts, term, statusFilter, formatDate))
         == Some([HeaderFields] + RowsFields(FilteredTransactions(ts, term, statusFilter), formatDate))
    ensures forall rec :: rec in [HeaderFields] + RowsFields(FilteredTransactions(ts, term, statusFilter), formatDate) ==>
      |rec| == |HeaderFields|
  {
    var rows := [HeaderFields] + RowsFields(FilteredTransactions(ts, term, statusFilter), formatDate);
    assert forall i :: 0 <= i < |rows| ==> |rows[i]| == |HeaderFields|;
    Csv.ReadWritten(rows);
  }
}
