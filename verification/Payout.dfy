/** Provider payouts: the settle loop of `adminPayoutsRun` (`coordinator/internal/api/billing.go`)
    over the earning rows of the store (`coordinator/internal/store/billing_pg.go`).
    Amounts are micro-USD; a transfer moves whole cents. */
module Payout {
  import opened Sorting

  const CENT: int := 10_000

  datatype RowState = Accrued | PaidBy(payoutId: nat)

  datatype Row = Row(pk: string, micros: int, state: RowState)

  datatype PayoutRow = PayoutRow(pk: string, amount: int, created: bool)

  datatype Accrual = Accrual(pk: string, jobs: nat, owed: int)

  datatype Line = Paid(pk: string, amount: int) | Skipped(pk: string, why: Reason)

  datatype Reason = BelowMinimum | NoEnabledAccount | BelowOneCent | TransferFailed

  // ---------------------------------------------------------------- rows

  predicate IsOwed(r: Row, pk: string) {
    r.pk == pk && r.state.Accrued?
  }

  function Owed(rows: seq<Row>, pk: string): int {
    if rows == [] then 0
    else Owed(rows[..|rows| - 1], pk) + (if IsOwed(rows[|rows| - 1], pk) then rows[|rows| - 1].micros else 0)
  }

  function JobsOf(rows: seq<Row>, pk: string): nat {
    if rows == [] then 0
    else JobsOf(rows[..|rows| - 1], pk) + (if IsOwed(rows[|rows| - 1], pk) then 1 else 0)
  }

  function Settle(rows: seq<Row>, pk: string, id: nat): (r: seq<Row>)
    ensures |r| == |rows|
  {
    if rows == [] then []
    else
      var last := rows[|rows| - 1];
      Settle(rows[..|rows| - 1], pk, id) + [if IsOwed(last, pk) then last.(state := PaidBy(id)) else last]
  }

  /** The rows after settling a payout and re-accruing the sub-cent dust. */
  function SettleWithDust(rows: seq<Row>, pk: string, id: nat, dust: int): seq<Row> {
    Settle(rows, pk, id) + (if dust > 0 then [Row(pk, dust, Accrued)] else [])
  }

  ghost predicate NonNegative(rows: seq<Row>) {
    forall r | r in rows :: r.micros >= 0
  }

  lemma OwedSnoc(rows: seq<Row>, r: Row, pk: string)
    ensures Owed(rows + [r], pk) == Owed(rows, pk) + (if IsOwed(r, pk) then r.micros else 0)
    ensures JobsOf(rows + [r], pk) == JobsOf(rows, pk) + (if IsOwed(r, pk) then 1 else 0)
  {
    assert (rows + [r])[..|rows|] == rows;
  }

  lemma {:induction false} SettleClears(rows: seq<Row>, pk: string, id: nat, other: string)
    ensures Owed(Settle(rows, pk, id), other) == if other == pk then 0 else Owed(rows, other)
    ensures JobsOf(Settle(rows, pk, id), other) == if other == pk then 0 else JobsOf(rows, other)
  {
    if rows == [] {
    } else {
      var n := |rows| - 1;
      var last := rows[n];
      SettleClears(rows[..n], pk, id, other);
      OwedSnoc(Settle(rows[..n], pk, id), if IsOwed(last, pk) then last.(state := PaidBy(id)) else last, other);
    }
  }

  /** What is marked as paid by payout `id`. */
  function SettledBy(rows: seq<Row>, id: nat): int {
    if rows == [] then 0
    else
      var last := rows[|rows| - 1];
      SettledBy(rows[..|rows| - 1], id) + (if last.state == PaidBy(id) then last.micros else 0)
  }

  /** A settle marks all that was owed to the identity as paid by this payout, and leaves what other
      payouts paid as it was. */
  lemma {:induction false} SettleRecordsPayout(rows: seq<Row>, pk: string, id: nat, other: nat)
    ensures SettledBy(Settle(rows, pk, id), other)
         == SettledBy(rows, other) + (if other == id then Owed(rows, pk) else 0)
  {
    if rows == [] {
    } else {
      var n := |rows| - 1;
      var last := rows[n];
      SettleRecordsPayout(rows[..n], pk, id, other);
      var settled := Settle(rows[..n], pk, id);
      assert (settled + [if IsOwed(last, pk) then last.(state := PaidBy(id)) else last])[..|settled|] == settled;
    }
  }

  lemma {:induction false} SettleKeepsSign(rows: seq<Row>, pk: string, id: nat)
    requires NonNegative(rows)
    ensures NonNegative(Settle(rows, pk, id))
  {
    if rows == [] {
    } else {
      assert rows[|rows| - 1] in rows && forall r | r in rows[..|rows| - 1] :: r in rows;
      SettleKeepsSign(rows[..|rows| - 1], pk, id);
    }
  }

  lemma SettleWithDustOwes(rows: seq<Row>, pk: string, id: nat, dust: int, other: string)
    requires dust >= 0
    ensures Owed(SettleWithDust(rows, pk, id, dust), other) == if other == pk then dust else Owed(rows, other)
    ensures NonNegative(rows) ==> NonNegative(SettleWithDust(rows, pk, id, dust))
  {
    SettleClears(rows, pk, id, other);
    if NonNegative(rows) {
      SettleKeepsSign(rows, pk, id);
    }
    var settled := Settle(rows, pk, id);
    if dust > 0 {
      OwedSnoc(settled, Row(pk, dust, Accrued), other);
    } else {
      assert settled + [] == settled;
    }
  }

  lemma {:induction false} OwedIsNonNegative(rows: seq<Row>, pk: string)
    requires NonNegative(rows)
    ensures Owed(rows, pk) >= 0
  {
    if rows == [] {
    } else {
      assert rows[|rows| - 1] in rows && forall r | r in rows[..|rows| - 1] :: r in rows;
      OwedIsNonNegative(rows[..|rows| - 1], pk);
    }
  }

  /** Whole cents of an amount, in micros. */
  function WholeCents(micros: int): int {
    micros / CENT * CENT
  }

  // ---------------------------------------------------------------- the report

  function LargestFirst(): (Accrual, Accrual) -> bool {
    (a: Accrual, b: Accrual) => a.owed > b.owed
  }

  /** One line per identity with accrued rows, largest sum first. */
  ghost predicate IsReport(rows: seq<Row>, report: seq<Accrual>) {
    && (forall i | 0 <= i < |report| ::
          report[i].pk != "" && report[i].jobs > 0
          && report[i] == Accrual(report[i].pk, JobsOf(rows, report[i].pk), Owed(rows, report[i].pk)))
    && (forall i, j | 0 <= i < j < |report| :: report[i].pk != report[j].pk)
    && (forall pk | pk != "" && JobsOf(rows, pk) > 0 :: exists i :: 0 <= i < |report| && report[i].pk == pk)
    && Sorted(LargestFirst(), report)
  }

  /** The lines of a report in some order, from the sums grouped by identity. */
  ghost predicate HoldsAll(groups: map<string, Accrual>, lines: seq<Accrual>) {
    && (forall i | 0 <= i < |lines| :: lines[i].pk in groups && lines[i] == groups[lines[i].pk])
    && (forall i, j | 0 <= i < j < |lines| :: lines[i].pk != lines[j].pk)
    && (forall pk | pk in groups :: groups[pk] in lines)
  }

  method Flatten(groups: map<string, Accrual>) returns (lines: seq<Accrual>)
    requires forall pk | pk in groups :: groups[pk].pk == pk
    ensures HoldsAll(groups, lines)
  {
    var left := groups.Keys;
    lines := [];
    while left != {}
      invariant left <= groups.Keys
      invariant forall i | 0 <= i < |lines| :: lines[i].pk in groups.Keys - left && lines[i] == groups[lines[i].pk]
      invariant forall i, j | 0 <= i < j < |lines| :: lines[i].pk != lines[j].pk
      invariant forall pk | pk in groups.Keys - left :: groups[pk] in lines
      decreases left
    {
      var pk :| pk in left;
      lines := lines + [groups[pk]];
      left := left - {pk};
    }
  }

  function PkOf(): Accrual -> string {
    (a: Accrual) => a.pk
  }

  lemma LargestFirstIsOrder()
    ensures StrictWeak(LargestFirst())
  {
  }

  lemma SortedLinesReport(rows: seq<Row>, groups: map<string, Accrual>, lines: seq<Accrual>)
    requires HoldsAll(groups, lines)
    requires forall pk :: pk in groups <==> pk != "" && JobsOf(rows, pk) > 0
    requires forall pk | pk in groups :: groups[pk] == Accrual(pk, JobsOf(rows, pk), Owed(rows, pk))
    ensures IsReport(rows, Sort(LargestFirst(), lines))
  {
    var report := Sort(LargestFirst(), lines);
    LargestFirstIsOrder();
    SortSorts(LargestFirst(), lines);
    assert DistinctKeys(PkOf(), lines);
    DistinctKeysIgnoreOrder(PkOf(), lines, report);
    forall i, j | 0 <= i < j < |report| ensures report[i].pk != report[j].pk {
      assert PkOf()(report[i]) != PkOf()(report[j]);
    }
    forall i | 0 <= i < |report|
      ensures report[i].pk in groups && report[i] == groups[report[i].pk]
    {
      assert report[i] in lines;
    }
    forall pk | pk in groups ensures exists i :: 0 <= i < |report| && report[i].pk == pk {
      assert groups[pk] in report;
    }
  }

  // ---------------------------------------------------------------- one payout run

  /** What the run decides for one reported identity. */
  function LineFor(a: Accrual, minMicros: int, enabled: set<string>, transferOk: set<string>): Line {
    if a.owed < minMicros then Skipped(a.pk, BelowMinimum)
    else if a.pk !in enabled then Skipped(a.pk, NoEnabledAccount)
    else if a.owed < CENT then Skipped(a.pk, BelowOneCent)
    else if a.pk !in transferOk then Skipped(a.pk, TransferFailed)
    else Paid(a.pk, WholeCents(a.owed))
  }

  function PaidTo(lines: seq<Line>, pk: string): int {
    if lines == [] then 0
    else PaidTo(lines[..|lines| - 1], pk)
         + (if lines[|lines| - 1].Paid? && lines[|lines| - 1].pk == pk then lines[|lines| - 1].amount else 0)
  }

  function TotalPaid(lines: seq<Line>): int {
    if lines == [] then 0
    else TotalPaid(lines[..|lines| - 1]) + (if lines[|lines| - 1].Paid? then lines[|lines| - 1].amount else 0)
  }

  function Moved(transfers: seq<(string, int)>, pk: string): int {
    if transfers == [] then 0
    else
      var last := transfers[|transfers| - 1];
      Moved(transfers[..|transfers| - 1], pk) + (if last.0 == pk then last.1 else 0)
  }

  lemma LineSnoc(lines: seq<Line>, line: Line, pk: string)
    ensures PaidTo(lines + [line], pk) == PaidTo(lines, pk) + (if line.Paid? && line.pk == pk then line.amount else 0)
    ensures TotalPaid(lines + [line]) == TotalPaid(lines) + (if line.Paid? then line.amount else 0)
  {
    assert (lines + [line])[..|lines|] == lines;
  }

  lemma MovedSnoc(transfers: seq<(string, int)>, t: (string, int), pk: string)
    ensures Moved(transfers + [t], pk) == Moved(transfers, pk) + (if t.0 == pk then t.1 else 0)
  {
    assert (transfers + [t])[..|transfers|] == transfers;
  }

  lemma {:induction false} NotNamedNotPaid(lines: seq<Line>, pk: string)
    requires forall k | 0 <= k < |lines| :: lines[k].pk != pk
    ensures PaidTo(lines, pk) == 0
  {
    if lines == [] {
    } else {
      NotNamedNotPaid(lines[..|lines| - 1], pk);
    }
  }

  /** With one line per identity, what an identity is paid is the amount on its line. */
  lemma {:induction false} PaidByItsLine(lines: seq<Line>, k: nat)
    requires k < |lines| && forall i, j | 0 <= i < j < |lines| :: lines[i].pk != lines[j].pk
    ensures PaidTo(lines, lines[k].pk) == if lines[k].Paid? then lines[k].amount else 0
  {
    var n := |lines| - 1;
    if k == n {
      NotNamedNotPaid(lines[..n], lines[n].pk);
    } else {
      PaidByItsLine(lines[..n], k);
    }
  }

  /** Does a committed run move money to `pk`? */
  predicate Pays(rows: seq<Row>, pk: string, minMicros: int, enabled: set<string>, transferOk: set<string>) {
    pk != "" && Owed(rows, pk) >= minMicros && Owed(rows, pk) >= CENT && pk in enabled && pk in transferOk
  }

  lemma {:induction false} NoJobsNothingOwed(rows: seq<Row>, pk: string)
    requires JobsOf(rows, pk) == 0
    ensures Owed(rows, pk) == 0
  {
    if rows == [] {
    } else {
      NoJobsNothingOwed(rows[..|rows| - 1], pk);
    }
  }

  lemma {:induction false} LinesPayWhoIsDue(rows: seq<Row>, report: seq<Accrual>, lines: seq<Line>, minMicros: int,
                         enabled: set<string>, transferOk: set<string>, pk: string)
    requires IsReport(rows, report) && |lines| == |report|
    requires forall k | 0 <= k < |lines| :: lines[k] == LineFor(report[k], minMicros, enabled, transferOk)
    ensures PaidTo(lines, pk)
         == if Pays(rows, pk, minMicros, enabled, transferOk) then WholeCents(Owed(rows, pk)) else 0
  {
    assert forall k | 0 <= k < |lines| :: lines[k].pk == report[k].pk;
    if pk != "" && JobsOf(rows, pk) > 0 {
      var k :| 0 <= k < |report| && report[k].pk == pk;
      PaidByItsLine(lines, k);
    } else {
      if pk != "" { NoJobsNothingOwed(rows, pk); }
      NotNamedNotPaid(lines, pk);
    }
  }

  /** What `lines` say was paid has been transferred since `transfers0`, identity by identity, and
      has left the rows since `rows0` where the store took the settle. */
  ghost predicate Accounts(rows0: seq<Row>, transfers0: seq<(string, int)>,
                           rows: seq<Row>, transfers: seq<(string, int)>,
                           lines: seq<Line>, storeOk: set<string>) {
    && (forall pk :: Owed(rows, pk) == Owed(rows0, pk) - (if pk in storeOk then PaidTo(lines, pk) else 0))
    && (forall pk :: Moved(transfers, pk) == Moved(transfers0, pk) + PaidTo(lines, pk))
  }

  lemma AccountsStep(rows0: seq<Row>, transfers0: seq<(string, int)>, rows: seq<Row>, transfers: seq<(string, int)>,
                     rows': seq<Row>, transfers': seq<(string, int)>,
                     lines: seq<Line>, line: Line, storeOk: set<string>)
    requires Accounts(rows0, transfers0, rows, transfers, lines, storeOk)
    requires var moved := if line.Paid? then line.amount else 0;
      && (forall pk :: Owed(rows', pk) == Owed(rows, pk) - (if pk == line.pk && pk in storeOk then moved else 0))
      && (forall pk :: Moved(transfers', pk) == Moved(transfers, pk) + (if pk == line.pk then moved else 0))
    ensures Accounts(rows0, transfers0, rows', transfers', lines + [line], storeOk)
  {
    forall pk
      ensures Owed(rows', pk) == Owed(rows0, pk) - (if pk in storeOk then PaidTo(lines + [line], pk) else 0)
      ensures Moved(transfers', pk) == Moved(transfers0, pk) + PaidTo(lines + [line], pk)
    {
      LineSnoc(lines, line, pk);
    }
  }

  /** An identity whose turn has not come is still owed what the report says. */
  lemma StillCurrent(rows0: seq<Row>, transfers0: seq<(string, int)>, rows: seq<Row>, transfers: seq<(string, int)>,
                     due: seq<Accrual>, lines: seq<Line>, commit: bool, storeOk: set<string>)
    requires IsReport(rows0, due) && |lines| < |due| && forall k | 0 <= k < |lines| :: lines[k].pk == due[k].pk
    requires if commit then Accounts(rows0, transfers0, rows, transfers, lines, storeOk) else rows == rows0
    ensures due[|lines|].owed == Owed(rows, due[|lines|].pk)
  {
    NotNamedNotPaid(lines, due[|lines|].pk);
  }

  datatype State = State(rows: seq<Row>, payouts: seq<PayoutRow>, transfers: seq<(string, int)>)

  /** The payout row a decision leaves behind, if the store takes it: a transfer, a failed
      transfer, or none. */
  function RowFor(a: Accrual, line: Line, storeOk: set<string>): seq<PayoutRow> {
    if a.pk !in storeOk then []
    else
      match line
      case Paid(pk, amount) => [PayoutRow(pk, amount, true)]
      case Skipped(pk, TransferFailed) => [PayoutRow(pk, WholeCents(a.owed), false)]
      case Skipped(_, _) => []
  }

  function RowsFor(due: seq<Accrual>, lines: seq<Line>, storeOk: set<string>): seq<PayoutRow>
    requires |lines| <= |due|
  {
    if lines == [] then []
    else RowsFor(due, lines[..|lines| - 1], storeOk) + RowFor(due[|lines| - 1], lines[|lines| - 1], storeOk)
  }

  /** What one turn of the settle loop does for the reported identity `a`, even if its report is
      no longer current: a settle leaves it owed the difference between report and payment. */
  ghost predicate Turn(before: State, a: Accrual, commit: bool, line: Line, storeOk: set<string>, after: State) {
    && NonNegative(after.rows)
    && if commit then
         && after.payouts == before.payouts + RowFor(a, line, storeOk)
         && (forall pk :: Owed(after.rows, pk)
               == if line.Paid? && pk == a.pk && pk in storeOk then a.owed - line.amount else Owed(before.rows, pk))
         && (forall pk :: Moved(after.transfers, pk)
               == Moved(before.transfers, pk) + (if line.Paid? && pk == a.pk then line.amount else 0))
       else after == before
  }

  /** The run a caller asks for, and how the other systems answer: which identities have an enabled
      account, whose transfers succeed, and whose store transactions commit. */
  datatype Terms = Terms(commit: bool, minMicros: int,
                         enabled: set<string>, transferOk: set<string>, storeOk: set<string>)
  {
    /** Whose transfers count as successful: a dry run reports as if all were. */
    function Reached(): set<string> {
      if commit then transferOk else enabled
    }
  }

  /** The lines are what the run decides, in the order of the report. */
  ghost predicate Decided(due: seq<Accrual>, t: Terms, lines: seq<Line>) {
    && |lines| <= |due|
    && forall k | 0 <= k < |lines| :: lines[k] == LineFor(due[k], t.minMicros, t.enabled, t.Reached())
  }

  /** The state of the settle loop once the first `|lines|` identities had their turn. */
  ghost predicate Progress(start: State, due: seq<Accrual>, t: Terms, now: State, lines: seq<Line>) {
    && NonNegative(now.rows) && Decided(due, t, lines)
    && if t.commit then
         && now.payouts == start.payouts + RowsFor(due, lines, t.storeOk)
         && Accounts(start.rows, start.transfers, now.rows, now.transfers, lines, t.storeOk)
       else now == start
  }

  /** What the created payouts to `pk` add up to. */
  function CreatedFor(payouts: seq<PayoutRow>, pk: string): int {
    if payouts == [] then 0
    else
      var last := payouts[|payouts| - 1];
      CreatedFor(payouts[..|payouts| - 1], pk) + (if last.created && last.pk == pk then last.amount else 0)
  }

  lemma CreatedSnoc(payouts: seq<PayoutRow>, row: PayoutRow, pk: string)
    ensures CreatedFor(payouts + [row], pk)
         == CreatedFor(payouts, pk) + (if row.created && row.pk == pk then row.amount else 0)
  {
    assert (payouts + [row])[..|payouts|] == payouts;
  }

  lemma {:induction false} CreatedAdds(a: seq<PayoutRow>, b: seq<PayoutRow>, pk: string)
    ensures CreatedFor(a + b, pk) == CreatedFor(a, pk) + CreatedFor(b, pk)
  {
    if b == [] {
      assert a + b == a;
    } else {
      var init, last := b[..|b| - 1], b[|b| - 1];
      CreatedAdds(a, init, pk);
      assert a + b == (a + init) + [last];
      CreatedSnoc(a + init, last, pk);
    }
  }

  /** The payout rows that the store takes are created for exactly what the lines say was paid. */
  lemma {:induction false} RowsRecordWhatIsPaid(due: seq<Accrual>, t: Terms, lines: seq<Line>, pk: string)
    requires Decided(due, t, lines)
    ensures CreatedFor(RowsFor(due, lines, t.storeOk), pk) == if pk in t.storeOk then PaidTo(lines, pk) else 0
  {
    if lines == [] {
    } else {
      var n := |lines| - 1;
      RowsRecordWhatIsPaid(due, t, lines[..n], pk);
      CreatedAdds(RowsFor(due, lines[..n], t.storeOk), RowFor(due[n], lines[n], t.storeOk), pk);
      OneRowRecords(due[n], t, lines[n], pk);
    }
  }

  lemma OneRowRecords(a: Accrual, t: Terms, line: Line, pk: string)
    requires line == LineFor(a, t.minMicros, t.enabled, t.Reached())
    ensures CreatedFor(RowFor(a, line, t.storeOk), pk)
         == if line.Paid? && line.pk == pk && pk in t.storeOk then line.amount else 0
  {
    var rows := RowFor(a, line, t.storeOk);
    assert line.pk == a.pk;
    if rows != [] {
      OneRow(rows[0], pk);
      assert rows == [rows[0]];
    }
  }

  lemma OneRow(row: PayoutRow, pk: string)
    ensures CreatedFor([row], pk) == if row.created && row.pk == pk then row.amount else 0
  {
    assert [row][..0] == [];
  }

  /** A failed payout is recorded with the whole cents of what is owed. */
  ghost predicate FailsWholeCents(rows: seq<Row>, r: PayoutRow) {
    r.created || (r.amount > 0 && r.amount % CENT == 0 && 0 <= Owed(rows, r.pk) - r.amount < CENT)
  }

  lemma {:induction false} FailedRowsAreWhole(rows: seq<Row>, due: seq<Accrual>, t: Terms, lines: seq<Line>)
    requires IsReport(rows, due) && Decided(due, t, lines)
    ensures forall r | r in RowsFor(due, lines, t.storeOk) :: FailsWholeCents(rows, r)
  {
    if lines == [] {
    } else {
      var n := |lines| - 1;
      FailedRowsAreWhole(rows, due, t, lines[..n]);
      assert due[n].owed == Owed(rows, due[n].pk);
    }
  }

  lemma RowsSnoc(due: seq<Accrual>, lines: seq<Line>, line: Line, storeOk: set<string>)
    requires |lines| < |due|
    ensures RowsFor(due, lines + [line], storeOk) == RowsFor(due, lines, storeOk) + RowFor(due[|lines|], line, storeOk)
  {
    assert (lines + [line])[..|lines|] == lines;
  }

  lemma ProgressSteps(start: State, due: seq<Accrual>, t: Terms, now: State, lines: seq<Line>, line: Line, next: State)
    requires Progress(start, due, t, now, lines) && |lines| < |due|
    requires due[|lines|].owed == Owed(now.rows, due[|lines|].pk)
    requires line == LineFor(due[|lines|], t.minMicros, t.enabled, t.Reached())
    requires Turn(now, due[|lines|], t.commit, line, t.storeOk, next)
    ensures Progress(start, due, t, next, lines + [line])
  {
    if t.commit {
      RowsSnoc(due, lines, line, t.storeOk);
      AccountsStep(start.rows, start.transfers, now.rows, now.transfers, next.rows, next.transfers,
                   lines, line, t.storeOk);
    }
  }

  lemma NextIsCurrent(start: State, due: seq<Accrual>, t: Terms, now: State, lines: seq<Line>)
    requires Progress(start, due, t, now, lines) && |lines| < |due| && IsReport(start.rows, due)
    ensures due[|lines|].owed == Owed(now.rows, due[|lines|].pk) >= 0 && NonNegative(now.rows)
  {
    OwedIsNonNegative(now.rows, due[|lines|].pk);
    StillCurrent(start.rows, start.transfers, now.rows, now.transfers, due, lines, t.commit, t.storeOk);
  }

  /** The rows of the store, and the transfers made so far (identity and micros). */
  class Store {
    var rows: seq<Row>
    var payouts: seq<PayoutRow>
    var transfers: seq<(string, int)>
    /** The jobs and identities whose earnings have been recorded. */
    var claims: set<(string, string)>

    ghost function View(): State
      reads this
    {
      State(rows, payouts, transfers)
    }

    constructor ()
      ensures rows == [] && payouts == [] && transfers == [] && claims == {}
    {
      rows, payouts, transfers, claims := [], [], [], {};
    }

    /** An earning needs a job and an identity, and is recorded once per pair of them. */
    method RecordEarning(jobId: string, pk: string, micros: int) returns (ok: bool)
      modifies this`rows, this`claims
      ensures ok <==> jobId != "" && pk != ""
      ensures rows == if ok && (jobId, pk) !in old(claims) then old(rows) + [Row(pk, micros, Accrued)] else old(rows)
      ensures claims == if ok then old(claims) + {(jobId, pk)} else old(claims)
    {
      if jobId == "" || pk == "" {
        return false;
      }
      if (jobId, pk) !in claims {
        rows := rows + [Row(pk, micros, Accrued)];
        claims := claims + {(jobId, pk)};
      }
      ok := true;
    }

    method AccruedByProvider() returns (report: seq<Accrual>)
      ensures IsReport(rows, report)
    {
      var groups: map<string, Accrual> := map[];
      for i := 0 to |rows|
        invariant forall pk :: pk in groups <==> pk != "" && JobsOf(rows[..i], pk) > 0
        invariant forall pk | pk in groups :: groups[pk] == Accrual(pk, JobsOf(rows[..i], pk), Owed(rows[..i], pk))
      {
        var r := rows[i];
        assert rows[..i + 1][..i] == rows[..i];
        if r.state.Accrued? && r.pk != "" {
          if r.pk !in groups {
            NoJobsNothingOwed(rows[..i], r.pk);
          }
          var g := if r.pk in groups then groups[r.pk] else Accrual(r.pk, 0, 0);
          groups := groups[r.pk := Accrual(r.pk, g.jobs + 1, g.owed + r.micros)];
        }
      }
      assert rows[..|rows|] == rows;
      var lines := Flatten(groups);
      SortedLinesReport(rows, groups, lines);
      report := Sort(LargestFirst(), lines);
    }

    method RecordPayoutAndSettle(pk: string, amount: int, created: bool, dust: int) returns (id: nat)
      modifies this`rows, this`payouts
      ensures id == |old(payouts)| && payouts == old(payouts) + [PayoutRow(pk, amount, created)]
      ensures rows == if created then SettleWithDust(old(rows), pk, id, dust) else old(rows)
    {
      id := |payouts|;
      payouts := payouts + [PayoutRow(pk, amount, created)];
      if created {
        var before := rows;
        var updated: seq<Row> := [];
        for i := 0 to |before|
          invariant updated == Settle(before[..i], pk, id)
        {
          assert before[..i + 1][..i] == before[..i];
          var r := before[i];
          updated := updated + [if r.pk == pk && r.state.Accrued? then r.(state := PaidBy(id)) else r];
        }
        assert before[..|before|] == before;
        rows := updated;
        if dust > 0 {
          rows := rows + [Row(pk, dust, Accrued)];
        } else {
          assert rows + [] == rows;
        }
      }
    }

    /** One turn of the settle loop. The errors of the store are ignored, as in the source. */
    method PayOne(a: Accrual, t: Terms) returns (line: Line)
      requires NonNegative(rows) && a.owed >= 0
      modifies this`rows, this`payouts, this`transfers
      ensures line == LineFor(a, t.minMicros, t.enabled, t.Reached())
      ensures Turn(old(View()), a, t.commit, line, t.storeOk, View())
    {
      if a.owed < t.minMicros {
        return Skipped(a.pk, BelowMinimum);
      }
      if a.pk !in t.enabled {
        return Skipped(a.pk, NoEnabledAccount);
      }
      var cents := a.owed / CENT;
      if cents < 1 {
        return Skipped(a.pk, BelowOneCent);
      }
      var pay := cents * CENT;
      var dust := a.owed - pay;
      if !t.commit {
        return Paid(a.pk, pay);
      }
      if a.pk !in t.transferOk {
        if a.pk in t.storeOk {
          var _ := RecordPayoutAndSettle(a.pk, pay, false, 0);
        }
        return Skipped(a.pk, TransferFailed);
      }
      transfers := transfers + [(a.pk, pay)];
      forall pk ensures Moved(transfers, pk) == old(Moved(transfers, pk)) + (if pk == a.pk then pay else 0) {
        MovedSnoc(old(transfers), (a.pk, pay), pk);
      }
      if a.pk in t.storeOk {
        var id := RecordPayoutAndSettle(a.pk, pay, true, dust);
        forall pk ensures Owed(rows, pk) == if pk == a.pk then dust else old(Owed(rows, pk)) {
          SettleWithDustOwes(old(rows), a.pk, id, dust, pk);
        }
        SettleWithDustOwes(old(rows), a.pk, id, dust, a.pk);
      }
      line := Paid(a.pk, pay);
    }

    method PayAll(due: seq<Accrual>, t: Terms) returns (lines: seq<Line>, totalMicros: int)
      requires NonNegative(rows) && IsReport(rows, due)
      modifies this`rows, this`payouts, this`transfers
      ensures |lines| == |due| && totalMicros == TotalPaid(lines)
      ensures Progress(old(View()), due, t, View(), lines)
    {
      ghost var start := View();
      lines, totalMicros := [], 0;
      for i := 0 to |due|
        invariant |lines| == i && totalMicros == TotalPaid(lines)
        invariant Progress(start, due, t, View(), lines)
      {
        ghost var before := View();
        NextIsCurrent(start, due, t, before, lines);
        var line := PayOne(due[i], t);
        ProgressSteps(start, due, t, before, lines, line, View());
        assert TotalPaid(lines + [line]) == TotalPaid(lines) + (if line.Paid? then line.amount else 0) by {
          LineSnoc(lines, line, "");
        }
        lines := lines + [line];
        if line.Paid? {
          totalMicros := totalMicros + line.amount;
        }
      }
    }

    /** Each identity owed at least the minimum and a whole cent, with an enabled account and a
        successful transfer, is paid its whole cents; where the store takes the settle just the
        rest stays owed, and everyone else is owed what they were. A dry run changes nothing and
        reports as if every transfer succeeded. */
    method AdminPayoutsRun(t: Terms) returns (lines: seq<Line>, totalMicros: int, ghost report: seq<Accrual>)
      requires NonNegative(rows)
      modifies this`rows, this`payouts, this`transfers
      ensures NonNegative(rows)
      ensures IsReport(old(rows), report) && |lines| == |report|
      ensures forall k | 0 <= k < |lines| :: lines[k] == LineFor(report[k], t.minMicros, t.enabled, t.Reached())
      ensures totalMicros == TotalPaid(lines)
      ensures Progress(old(View()), report, t, View(), lines)
      ensures !t.commit ==> rows == old(rows) && payouts == old(payouts) && transfers == old(transfers)
      ensures t.commit ==> payouts == old(payouts) + RowsFor(report, lines, t.storeOk)
      ensures t.commit ==> forall pk ::
        var moved :=
          if Pays(old(rows), pk, t.minMicros, t.enabled, t.transferOk) then WholeCents(old(Owed(rows, pk))) else 0;
        && Owed(rows, pk) == old(Owed(rows, pk)) - (if pk in t.storeOk then moved else 0)
        && Moved(transfers, pk) == old(Moved(transfers, pk)) + moved
        && CreatedFor(payouts, pk) == old(CreatedFor(payouts, pk)) + (if pk in t.storeOk then moved else 0)
      ensures t.commit ==> forall r | r in payouts[|old(payouts)|..] :: FailsWholeCents(old(rows), r)
    {
      var due := AccruedByProvider();
      report := due;
      lines, totalMicros := PayAll(due, t);
      if t.commit {
        forall pk
          ensures PaidTo(lines, pk)
               == if Pays(old(rows), pk, t.minMicros, t.enabled, t.transferOk)
                  then WholeCents(old(Owed(rows, pk))) else 0
        {
          LinesPayWhoIsDue(old(rows), due, lines, t.minMicros, t.enabled, t.transferOk, pk);
        }
        forall pk
          ensures CreatedFor(payouts, pk)
               == old(CreatedFor(payouts, pk)) + (if pk in t.storeOk then PaidTo(lines, pk) else 0)
        {
          RowsRecordWhatIsPaid(due, t, lines, pk);
          CreatedAdds(old(payouts), RowsFor(due, lines, t.storeOk), pk);
        }
        FailedRowsAreWhole(old(rows), due, t, lines);
        assert payouts[|old(payouts)|..] == RowsFor(due, lines, t.storeOk);
      }
    }
  }
}
