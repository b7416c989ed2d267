/** Payouts over whole histories: earnings, reads of the accrual report, and settles that may
    come later (`adminPayoutsRun` and the store, `coordinator/internal/api/billing.go`,
    `coordinator/internal/store/billing_pg.go`). Reading and settling are separate
    transactions, so other steps may fall in between, and several runs may overlap. */
module PayoutRuns {
  import opened Common
  import opened Payout

  /** `earnings` and `transfers` log every amount that entered and left; `pending[n]` is what
      the `n`-th payout run read and has not dealt with yet. */
  datatype Books = Books(rows: seq<Row>, payouts: seq<PayoutRow>, earnings: seq<(string, int)>,
                         transfers: seq<(string, int)>, pending: seq<map<string, int>>)

  const EMPTY: Books := Books([], [], [], [], [])

  datatype Step =
    | Earn(pk: string, micros: nat)
    | Read
    | Skip(run: nat, pk: string)       // below the minimum or a cent, no account, or a dry run
    | Fail(run: nat, pk: string)       // the transfer fails
    | Commit(run: nat, pk: string)     // transfer and settle
    | LoseSettle(run: nat, pk: string) // the transfer succeeds and the settle does not commit

  function ReportOf(rows: seq<Row>): map<string, int> {
    map r | r in rows && r.pk != "" && r.state.Accrued? :: r.pk := Owed(rows, r.pk)
  }

  /** What run `run` will pay `pk`: the whole cents of the amount it read. */
  function Due(b: Books, run: nat, pk: string): int {
    if run < |b.pending| && pk in b.pending[run] && b.pending[run][pk] >= CENT then WholeCents(b.pending[run][pk])
    else 0
  }

  function AmountRead(b: Books, run: nat, pk: string): int {
    if run < |b.pending| && pk in b.pending[run] then b.pending[run][pk] else 0
  }

  function DealtWith(b: Books, run: nat, pk: string): Books {
    if run < |b.pending| then b.(pending := b.pending[run := b.pending[run] - {pk}]) else b
  }

  function Next(b: Books, step: Step): Books {
    match step
    case Earn(pk, micros) => b.(rows := b.rows + [Row(pk, micros, Accrued)], earnings := b.earnings + [(pk, micros)])
    case Read => b.(pending := b.pending + [ReportOf(b.rows)])
    case Skip(run, pk) => DealtWith(b, run, pk)
    case Fail(run, pk) =>
      if Due(b, run, pk) > 0 then
        DealtWith(b, run, pk).(payouts := b.payouts + [PayoutRow(pk, Due(b, run, pk), false)])
      else b
    case Commit(run, pk) =>
      if Due(b, run, pk) > 0 then
        DealtWith(b, run, pk).(payouts := b.payouts + [PayoutRow(pk, Due(b, run, pk), true)],
          transfers := b.transfers + [(pk, Due(b, run, pk))],
          rows := SettleWithDust(b.rows, pk, |b.payouts|, AmountRead(b, run, pk) - Due(b, run, pk)))
      else b
    case LoseSettle(run, pk) =>
      if Due(b, run, pk) > 0 then
        DealtWith(b, run, pk).(transfers := b.transfers + [(pk, Due(b, run, pk))])
      else b
  }

  function Exec(steps: seq<Step>): Books {
    if steps == [] then EMPTY else Next(Exec(steps[..|steps| - 1]), steps[|steps| - 1])
  }

  // ---------------------------------------------------------------- conservation

  /** Earned, minus what was transferred and what is still owed. */
  function Gap(b: Books, pk: string): int {
    Moved(b.earnings, pk) - Moved(b.transfers, pk) - Owed(b.rows, pk)
  }

  /** How much a step opens the gap of `pk`: a settle marks everything owed at that moment as
      paid, whatever was read; a lost settle leaves transferred money owed. */
  function Shift(b: Books, step: Step, pk: string): int {
    match step
    case Commit(run, p) => if p == pk && Due(b, run, pk) > 0 then Owed(b.rows, pk) - AmountRead(b, run, pk) else 0
    case LoseSettle(run, p) => if p == pk then -Due(b, run, pk) else 0
    case _ => 0
  }

  lemma GapShifts(b: Books, step: Step, pk: string)
    ensures Gap(Next(b, step), pk) == Gap(b, pk) + Shift(b, step, pk)
  {
    match step
    case Earn(p, micros) =>
      OwedSnoc(b.rows, Row(p, micros, Accrued), pk);
      MovedSnoc(b.earnings, (p, micros), pk);
    case Commit(run, p) =>
      if Due(b, run, p) > 0 {
        SettleWithDustOwes(b.rows, p, |b.payouts|, AmountRead(b, run, p) - Due(b, run, p), pk);
        MovedSnoc(b.transfers, (p, Due(b, run, p)), pk);
      }
    case LoseSettle(run, p) =>
      MovedSnoc(b.transfers, (p, Due(b, run, p)), pk);
    case _ =>
  }

  /** What an operator can check before a settle: the amount read is still the amount owed —
      and that the settle commits. */
  predicate Clean(b: Books, step: Step, pk: string) {
    match step
    case Commit(run, p) => p == pk && Due(b, run, pk) > 0 ==> AmountRead(b, run, pk) == Owed(b.rows, pk)
    case LoseSettle(run, p) => p == pk ==> Due(b, run, pk) == 0
    case _ => true
  }

  function IsClean(pk: string): (seq<Step>, Step) -> bool {
    (steps: seq<Step>, step: Step) => Clean(Exec(steps), step, pk)
  }

  /** Every settle of the history was clean at its moment. */
  ghost predicate AllClean(steps: seq<Step>, pk: string) {
    AtEveryStep(IsClean(pk), steps)
  }

  function IsConserved(pk: string): seq<Step> -> bool {
    (steps: seq<Step>) => Gap(Exec(steps), pk) == 0
  }

  /** transferred + owed = total accrued, at the start and after every step. */
  ghost predicate AlwaysConserved(steps: seq<Step>, pk: string) {
    AtEveryPrefix(IsConserved(pk), steps)
  }

  /** Money is conserved throughout a history exactly when every settle was clean. */
  lemma ConservedIffClean(steps: seq<Step>, pk: string)
    ensures AlwaysConserved(steps, pk) <==> AllClean(steps, pk)
  {
    assert Gap(EMPTY, pk) == 0;
    forall before, step
      ensures IsConserved(pk)(before) ==> (IsConserved(pk)(before + [step]) <==> IsClean(pk)(before, step))
    {
      CleanIffConservedNext(before, step, pk);
    }
    AlwaysIffEveryStep(IsConserved(pk), IsClean(pk), steps);
  }

  lemma CleanIffConservedNext(steps: seq<Step>, step: Step, pk: string)
    ensures IsConserved(pk)(steps) ==> (IsConserved(pk)(steps + [step]) <==> Clean(Exec(steps), step, pk))
  {
    ExecSnoc(steps, step);
    GapShifts(Exec(steps), step, pk);
    DueIsNonNegative(Exec(steps), step, pk);
  }

  lemma DueIsNonNegative(b: Books, step: Step, pk: string)
    ensures step.LoseSettle? ==> Due(b, step.run, pk) >= 0
  {
  }

  // ---------------------------------------------------------------- histories that are not clean

  lemma ExecSnoc(steps: seq<Step>, step: Step)
    ensures Exec(steps + [step]) == Next(Exec(steps), step)
  {
    assert (steps + [step])[..|steps|] == steps;
  }

  lemma EarnThenRead(pk: string, micros: nat)
    requires pk != ""
    ensures Exec([Earn(pk, micros)] + [Step.Read])
         == Books([Row(pk, micros, Accrued)], [], [(pk, micros)], [], [map[pk := micros]])
  {
    assert [] + [Earn(pk, micros)] == [Earn(pk, micros)];
    ExecSnoc([], Earn(pk, micros));
    ExecSnoc([Earn(pk, micros)], Step.Read);
    var rows := [Row(pk, micros, Accrued)];
    assert [] + rows == rows && rows[..0] == [];
    assert Owed(rows, pk) == micros;
    assert rows[0] in rows;
    assert ReportOf(rows) == map[pk := micros];
  }

  /** An earning that falls between a run's read and its settle is marked paid and never
      transferred. */
  lemma EarningInBetweenIsLost()
    ensures var steps := [Earn("a", 20_000)] + [Step.Read] + [Earn("a", 5_000)] + [Commit(0, "a")];
      Gap(Exec(steps), "a") == 5_000 && !AllClean(steps, "a")
  {
    var start := [Earn("a", 20_000)] + [Step.Read];
    var before := start + [Earn("a", 5_000)];
    EarnThenRead("a", 20_000);
    ExecSnoc(start, Earn("a", 5_000));
    ExecSnoc(before, Commit(0, "a"));
    var b := Exec(start);
    GapShifts(b, Earn("a", 5_000), "a");
    OwedSnoc(b.rows, Row("a", 5_000, Accrued), "a");
    OneRowOwed("a", 20_000);
    GapShifts(Exec(before), Commit(0, "a"), "a");
    GapMeansUnclean(before + [Commit(0, "a")], "a");
  }

  lemma OneRowOwed(pk: string, micros: nat)
    ensures Owed([Row(pk, micros, Accrued)], pk) == micros && Moved([(pk, micros)], pk) == micros && Moved([], pk) == 0
  {
    assert [Row(pk, micros, Accrued)][..0] == [] && [(pk, micros)][..0] == [];
  }

  lemma GapMeansUnclean(steps: seq<Step>, pk: string)
    requires Gap(Exec(steps), pk) != 0
    ensures !AllClean(steps, pk)
  {
    if AllClean(steps, pk) {
      ConservedNow(steps, pk);
    }
  }

  /** A transfer whose settle does not commit stays owed, and the next run transfers it again. */
  lemma LostSettleIsPaidTwice()
    ensures var steps := [Earn("a", 20_000)] + [Step.Read] + [LoseSettle(0, "a")] + [Step.Read] + [Commit(1, "a")];
      && Moved(Exec(steps).transfers, "a") == 40_000 && Moved(Exec(steps).earnings, "a") == 20_000
      && !AllClean(steps, "a")
  {
    var start := [Earn("a", 20_000)] + [Step.Read];
    var lost := start + [LoseSettle(0, "a")];
    EarnThenRead("a", 20_000);
    OneRowOwed("a", 20_000);
    ExecSnoc(start, LoseSettle(0, "a"));
    ExecSnoc(lost, Step.Read);
    ExecSnoc(lost + [Step.Read], Commit(1, "a"));
    AfterLostSettle(Exec(start));
    PaidAgain(Exec(lost));
    GapMeansUnclean(lost + [Step.Read] + [Commit(1, "a")], "a");
  }

  lemma AfterLostSettle(b: Books)
    requires b == Books([Row("a", 20_000, Accrued)], [], [("a", 20_000)], [], [map["a" := 20_000]])
    ensures Next(b, LoseSettle(0, "a"))
         == Books([Row("a", 20_000, Accrued)], [], [("a", 20_000)], [("a", 20_000)], [map[]])
  {
    assert [] + [("a", 20_000)] == [("a", 20_000)];
    var left: map<string, int> := b.pending[0] - {"a"};
    assert left == map[] && b.pending[0 := left] == [left];
    assert Due(b, 0, "a") == 20_000;
  }

  lemma PaidAgain(b: Books)
    requires b == Books([Row("a", 20_000, Accrued)], [], [("a", 20_000)], [("a", 20_000)], [map[]])
    ensures var end := Next(Next(b, Step.Read), Commit(1, "a"));
      Moved(end.transfers, "a") == 40_000 && end.earnings == b.earnings && Gap(end, "a") == -20_000
  {
    var again := Next(b, Step.Read);
    OneRowOwed("a", 20_000);
    assert b.rows[0] in b.rows;
    assert ReportOf(b.rows)["a"] == 20_000;
    assert Due(again, 1, "a") == 20_000 && AmountRead(again, 1, "a") == 20_000;
    MovedSnoc(b.transfers, ("a", 20_000), "a");
    GapShifts(again, Commit(1, "a"), "a");
  }

  // ---------------------------------------------------------------- the payout rows

  function IsBooked(pk: string): seq<Step> -> bool {
    (steps: seq<Step>) => CreatedFor(Exec(steps).payouts, pk) == Moved(Exec(steps).transfers, pk)
  }

  /** No step loses the settle of a transfer to `pk`. */
  function Settles(pk: string): (seq<Step>, Step) -> bool {
    (steps: seq<Step>, step: Step) => step.LoseSettle? && step.pk == pk ==> Due(Exec(steps), step.run, pk) == 0
  }

  /** By how much the created payouts to `pk` fall short of what was transferred to it. */
  function Unbooked(b: Books, pk: string): int {
    Moved(b.transfers, pk) - CreatedFor(b.payouts, pk)
  }

  lemma UnbookedNext(b: Books, step: Step, pk: string)
    ensures Unbooked(Next(b, step), pk)
         == Unbooked(b, pk) + (if step.LoseSettle? && step.pk == pk then Due(b, step.run, pk) else 0)
  {
    match step
    case Fail(run, p) => CreatedSnoc(b.payouts, PayoutRow(p, Due(b, run, p), false), pk);
    case Commit(run, p) =>
      CreatedSnoc(b.payouts, PayoutRow(p, Due(b, run, p), true), pk);
      MovedSnoc(b.transfers, (p, Due(b, run, p)), pk);
    case LoseSettle(run, p) => MovedSnoc(b.transfers, (p, Due(b, run, p)), pk);
    case _ =>
  }

  lemma CreatedNext(steps: seq<Step>, step: Step, pk: string)
    ensures Unbooked(Exec(steps + [step]), pk)
         == Unbooked(Exec(steps), pk)
            + (if step.LoseSettle? && step.pk == pk then Due(Exec(steps), step.run, pk) else 0)
  {
    ExecSnoc(steps, step);
    UnbookedNext(Exec(steps), step, pk);
  }

  /** The created payouts to `pk` add up to what was transferred to it, throughout a history,
      exactly when no transfer to it lost its settle. */
  lemma BookedIffSettled(steps: seq<Step>, pk: string)
    ensures AtEveryPrefix(IsBooked(pk), steps) <==> AtEveryStep(Settles(pk), steps)
  {
    forall before, step
      ensures IsBooked(pk)(before) ==> (IsBooked(pk)(before + [step]) <==> Settles(pk)(before, step))
    {
      CreatedNext(before, step, pk);
    }
    AlwaysIffEveryStep(IsBooked(pk), Settles(pk), steps);
  }

  /** Created payouts never exceed what was transferred. */
  lemma {:induction false} NeverOverbooked(steps: seq<Step>, pk: string)
    ensures CreatedFor(Exec(steps).payouts, pk) <= Moved(Exec(steps).transfers, pk)
  {
    if steps == [] {
    } else {
      var before, step := steps[..|steps| - 1], steps[|steps| - 1];
      NeverOverbooked(before, pk);
      assert before + [step] == steps;
      CreatedNext(before, step, pk);
      DueIsNonNegative(Exec(before), step, pk);
    }
  }

  // ---------------------------------------------------------------- the report

  /** The map a run reads is the store's report: the same identities, each with what it is owed. */
  lemma ReportsAgree(rows: seq<Row>, report: seq<Accrual>, pk: string)
    requires IsReport(rows, report)
    ensures pk in ReportOf(rows) <==> exists i :: 0 <= i < |report| && report[i].pk == pk
    ensures forall i | 0 <= i < |report| && report[i].pk == pk ::
      pk in ReportOf(rows) && ReportOf(rows)[pk] == report[i].owed
  {
    HasJobsIffRow(rows, pk);
  }

  lemma {:induction false} HasJobsIffRow(rows: seq<Row>, pk: string)
    ensures JobsOf(rows, pk) > 0 <==> exists r | r in rows :: IsOwed(r, pk)
  {
    if rows == [] {
    } else {
      var init, last := rows[..|rows| - 1], rows[|rows| - 1];
      assert rows == init + [last];
      HasJobsIffRow(init, pk);
    }
  }

  // ---------------------------------------------------------------- dust

  /** Rows are never negative, transfers are whole cents, and so is every payout row. */
  ghost predicate Sound(b: Books) {
    && NonNegative(b.rows) && WholePayouts(b.payouts)
    && (forall pk :: Moved(b.transfers, pk) % CENT == 0 && Moved(b.transfers, pk) >= 0)
  }

  ghost predicate WholePayouts(payouts: seq<PayoutRow>) {
    forall r | r in payouts :: r.amount > 0 && r.amount % CENT == 0
  }

  lemma PayoutsStayWhole(b: Books, step: Step)
    requires WholePayouts(b.payouts)
    ensures WholePayouts(Next(b, step).payouts)
  {
  }

  lemma NextIsSound(b: Books, step: Step)
    requires Sound(b)
    ensures Sound(Next(b, step))
  {
    PayoutsStayWhole(b, step);
    match step
    case Commit(run, p) =>
      if Due(b, run, p) > 0 {
        SettleWithDustOwes(b.rows, p, |b.payouts|, AmountRead(b, run, p) - Due(b, run, p), p);
        TransfersStayWhole(b.transfers, p, AmountRead(b, run, p));
      }
    case LoseSettle(run, p) =>
      if Due(b, run, p) > 0 {
        TransfersStayWhole(b.transfers, p, AmountRead(b, run, p));
      }
    case _ =>
  }

  lemma TransfersStayWhole(transfers: seq<(string, int)>, p: string, micros: int)
    requires micros >= CENT && forall pk :: Moved(transfers, pk) % CENT == 0 && Moved(transfers, pk) >= 0
    ensures forall pk :: Moved(transfers + [(p, WholeCents(micros))], pk) % CENT == 0
                         && Moved(transfers + [(p, WholeCents(micros))], pk) >= 0
  {
    forall pk ensures Moved(transfers + [(p, WholeCents(micros))], pk) % CENT == 0
                      && Moved(transfers + [(p, WholeCents(micros))], pk) >= 0 {
      MovedSnoc(transfers, (p, WholeCents(micros)), pk);
    }
  }

  lemma {:induction false} EveryHistoryIsSound(steps: seq<Step>)
    ensures Sound(Exec(steps))
  {
    if steps == [] {
    } else {
      EveryHistoryIsSound(steps[..|steps| - 1]);
      NextIsSound(Exec(steps[..|steps| - 1]), steps[|steps| - 1]);
    }
  }

  lemma CommitLeavesDust(b: Books, run: nat, pk: string)
    requires Due(b, run, pk) > 0
    ensures 0 <= Owed(Next(b, Commit(run, pk)).rows, pk) < CENT
  {
    LessThanACent(AmountRead(b, run, pk));
    SettleWithDustOwes(b.rows, pk, |b.payouts|, AmountRead(b, run, pk) - Due(b, run, pk), pk);
  }

  lemma LessThanACent(micros: int)
    ensures 0 <= micros - WholeCents(micros) < CENT
  {
  }

  lemma ConservedNow(steps: seq<Step>, pk: string)
    requires AllClean(steps, pk)
    ensures Gap(Exec(steps), pk) == 0
  {
    ConservedIffClean(steps, pk);
    assert steps[..|steps|] == steps;
    assert IsConserved(pk)(steps[..|steps|]);
  }

  /** After a committed payout in a clean history less than a cent is owed, and all that was
      ever earned has been transferred, rounded down to whole cents: dust is neither lost
      nor paid twice. */
  lemma DustIsCarried(steps: seq<Step>, run: nat, pk: string)
    requires AllClean(steps + [Commit(run, pk)], pk) && Due(Exec(steps), run, pk) > 0
    ensures var b := Exec(steps + [Commit(run, pk)]);
      && 0 <= Owed(b.rows, pk) < CENT
      && Moved(b.transfers, pk) == WholeCents(Moved(b.earnings, pk))
      && Moved(b.transfers, pk) + Owed(b.rows, pk) == Moved(b.earnings, pk)
  {
    var all := steps + [Commit(run, pk)];
    var b := Exec(all);
    ConservedNow(all, pk);
    EveryHistoryIsSound(all);
    ExecSnoc(steps, Commit(run, pk));
    CommitLeavesDust(Exec(steps), run, pk);
    Rounding(Moved(b.transfers, pk), Owed(b.rows, pk));
  }

  lemma Rounding(whole: int, rest: int)
    requires whole % CENT == 0 && 0 <= rest < CENT
    ensures WholeCents(whole + rest) == whole
  {
  }

  // ---------------------------------------------------------------- when a read stays good

  /** Does the step change what `pk` is owed? */
  predicate Touches(step: Step, pk: string) {
    match step
    case Earn(p, micros) => p == pk && micros > 0
    case Commit(_, p) => p == pk
    case _ => false
  }

  /** What run `run` still has to deal with for `pk`, if anything, is what `pk` is owed. */
  ghost predicate Current(b: Books, run: nat, pk: string) {
    run < |b.pending| && (pk in b.pending[run] ==> b.pending[run][pk] == Owed(b.rows, pk))
  }

  lemma FreshReadIsCurrent(b: Books, pk: string)
    ensures Current(Next(b, Step.Read), |b.pending|, pk)
  {
  }

  lemma StaysOwed(b: Books, step: Step, pk: string)
    requires !Touches(step, pk)
    ensures Owed(Next(b, step).rows, pk) == Owed(b.rows, pk)
  {
    match step
    case Earn(p, micros) => OwedSnoc(b.rows, Row(p, micros, Accrued), pk);
    case Commit(other, p) =>
      if Due(b, other, p) > 0 {
        SettleWithDustOwes(b.rows, p, |b.payouts|, AmountRead(b, other, p) - Due(b, other, p), pk);
      }
    case _ =>
  }

  lemma PendingShrinks(b: Books, step: Step, run: nat, pk: string)
    requires run < |b.pending|
    ensures run < |Next(b, step).pending|
    ensures pk in Next(b, step).pending[run] ==>
      pk in b.pending[run] && Next(b, step).pending[run][pk] == b.pending[run][pk]
  {
  }

  lemma StaysCurrent(b: Books, step: Step, run: nat, pk: string)
    requires Current(b, run, pk) && !Touches(step, pk)
    ensures Current(Next(b, step), run, pk)
  {
    StaysOwed(b, step, pk);
    PendingShrinks(b, step, run, pk);
  }

  /** A settle is clean if `pk` was neither earning nor settled between this run's read and it. */
  lemma {:induction false} UndisturbedReadIsClean(steps: seq<Step>, mid: seq<Step>, pk: string)
    requires forall step | step in mid :: !Touches(step, pk)
    ensures var run := |Exec(steps).pending|;
            var b := Exec(steps + [Step.Read] + mid);
            Current(b, run, pk) && Clean(b, Commit(run, pk), pk)
  {
    var run, started := |Exec(steps).pending|, steps + [Step.Read];
    if mid == [] {
      ExecSnoc(steps, Step.Read);
      FreshReadIsCurrent(Exec(steps), pk);
      assert started + mid == started;
    } else {
      var before, last := mid[..|mid| - 1], mid[|mid| - 1];
      assert last in mid && forall step | step in before :: step in mid;
      UndisturbedReadIsClean(steps, before, pk);
      ExecSnoc(started + before, last);
      assert started + mid == (started + before) + [last];
      StaysCurrent(Exec(started + before), last, run, pk);
    }
  }

  // ---------------------------------------------------------------- an uninterrupted run is a history

  /** The step that the decision about one identity is. A failed transfer whose payout row the
      store refuses leaves no trace, and a dry run leaves none at all. */
  function StepFor(run: nat, line: Line, t: Terms): Step {
    match line
    case Paid(pk, _) =>
      if !t.commit then Skip(run, pk) else if pk in t.storeOk then Commit(run, pk) else LoseSettle(run, pk)
    case Skipped(pk, why) =>
      if t.commit && why == TransferFailed && pk in t.storeOk then Fail(run, pk) else Skip(run, pk)
  }

  function StepsOf(run: nat, lines: seq<Line>, t: Terms): seq<Step> {
    if lines == [] then [] else StepsOf(run, lines[..|lines| - 1], t) + [StepFor(run, lines[|lines| - 1], t)]
  }

  /** The lines that had an effect: none of a dry run's. */
  function Effective(lines: seq<Line>, t: Terms): seq<Line> {
    if t.commit then lines else []
  }

  /** Books and store agree, identity by identity and payout row by payout row. */
  ghost predicate Agree(b: Books, s: State) {
    && (forall pk :: Owed(b.rows, pk) == Owed(s.rows, pk))
    && (forall pk :: Moved(b.transfers, pk) == Moved(s.transfers, pk))
    && b.payouts == s.payouts
  }

  lemma ReadAll(b: Books, pk: string)
    requires pk != ""
    ensures AmountRead(Next(b, Step.Read), |b.pending|, pk) == Owed(b.rows, pk)
  {
    HasJobsIffRow(b.rows, pk);
    if pk !in ReportOf(b.rows) {
      NoJobsNothingOwed(b.rows, pk);
    }
  }

  lemma DealsWithOne(b: Books, run: nat, pk: string, other: string)
    requires other != pk
    ensures AmountRead(DealtWith(b, run, pk), run, other) == AmountRead(b, run, other)
  {
  }

  /** What a committed run moves to `pk` for a line about `a`. */
  function MovedBy(a: Accrual, t: Terms, line: Line, pk: string): int {
    if t.commit && line.Paid? && pk == a.pk then line.amount else 0
  }

  lemma StepMoves(b: Books, run: nat, a: Accrual, t: Terms, line: Line, pk: string)
    requires AmountRead(b, run, a.pk) == a.owed && line == LineFor(a, t.minMicros, t.enabled, t.Reached())
    ensures Moved(Next(b, StepFor(run, line, t)).transfers, pk) == Moved(b.transfers, pk) + MovedBy(a, t, line, pk)
  {
    MovedSnoc(b.transfers, (a.pk, Due(b, run, a.pk)), pk);
  }

  lemma StepOwes(b: Books, run: nat, a: Accrual, t: Terms, line: Line, pk: string)
    requires AmountRead(b, run, a.pk) == Owed(b.rows, a.pk) == a.owed
    requires line == LineFor(a, t.minMicros, t.enabled, t.Reached())
    ensures Owed(Next(b, StepFor(run, line, t)).rows, pk)
         == Owed(b.rows, pk) - (if pk in t.storeOk then MovedBy(a, t, line, pk) else 0)
  {
    if line.Paid? && t.commit && a.pk in t.storeOk {
      assert Due(b, run, a.pk) == line.amount;
      SettleWithDustOwes(b.rows, a.pk, |b.payouts|, a.owed - line.amount, pk);
    } else {
      assert Next(b, StepFor(run, line, t)).rows == b.rows;
    }
  }

  lemma StepCountsLine(b: Books, run: nat, a: Accrual, t: Terms, line: Line)
    requires AmountRead(b, run, a.pk) == a.owed && line == LineFor(a, t.minMicros, t.enabled, t.Reached())
    ensures var next := Next(b, StepFor(run, line, t));
      && next.payouts == b.payouts + (if t.commit then RowFor(a, line, t.storeOk) else [])
      && (forall pk | pk != a.pk :: AmountRead(next, run, pk) == AmountRead(b, run, pk))
  {
    forall pk | pk != a.pk ensures AmountRead(DealtWith(b, run, a.pk), run, pk) == AmountRead(b, run, pk) {
      DealsWithOne(b, run, a.pk, pk);
    }
  }

  /** The books after the steps of `lines`, where the run read what `due` says. */
  ghost predicate Follows(b: Books, start: State, run: nat, due: seq<Accrual>, t: Terms, lines: seq<Line>) {
    && |lines| <= |due|
    && Accounts(start.rows, start.transfers, b.rows, b.transfers, Effective(lines, t), t.storeOk)
    && b.payouts == start.payouts + RowsFor(due, Effective(lines, t), t.storeOk)
    && forall k | |lines| <= k < |due| :: AmountRead(b, run, due[k].pk) == due[k].owed
  }

  lemma RowsFollow(b: Books, start: State, run: nat, due: seq<Accrual>, t: Terms, lines: seq<Line>, line: Line)
    requires |lines| < |due| && Follows(b, start, run, due, t, lines)
    requires line == LineFor(due[|lines|], t.minMicros, t.enabled, t.Reached())
    ensures Next(b, StepFor(run, line, t)).payouts
         == start.payouts + RowsFor(due, Effective(lines + [line], t), t.storeOk)
  {
    StepCountsLine(b, run, due[|lines|], t, line);
    if t.commit {
      RowsSnoc(due, lines, line, t.storeOk);
    }
  }

  lemma AccountsFollow(b: Books, start: State, run: nat, due: seq<Accrual>, t: Terms, lines: seq<Line>, line: Line)
    requires IsReport(start.rows, due) && |lines| < |due| && Follows(b, start, run, due, t, lines)
    requires forall k | 0 <= k < |lines| :: lines[k].pk == due[k].pk
    requires line == LineFor(due[|lines|], t.minMicros, t.enabled, t.Reached())
    ensures var next := Next(b, StepFor(run, line, t));
      Accounts(start.rows, start.transfers, next.rows, next.transfers, Effective(lines + [line], t), t.storeOk)
  {
    var a, next := due[|lines|], Next(b, StepFor(run, line, t));
    NotNamedNotPaid(Effective(lines, t), a.pk);
    forall pk
      ensures Owed(next.rows, pk) == Owed(b.rows, pk) - (if pk in t.storeOk then MovedBy(a, t, line, pk) else 0)
      ensures Moved(next.transfers, pk) == Moved(b.transfers, pk) + MovedBy(a, t, line, pk)
    {
      StepOwes(b, run, a, t, line, pk);
      StepMoves(b, run, a, t, line, pk);
    }
    if t.commit {
      AccountsStep(start.rows, start.transfers, b.rows, b.transfers, next.rows, next.transfers, lines, line, t.storeOk);
    }
  }

  lemma FollowsNext(b: Books, start: State, run: nat, due: seq<Accrual>, t: Terms, lines: seq<Line>, line: Line)
    requires IsReport(start.rows, due) && |lines| < |due| && Follows(b, start, run, due, t, lines)
    requires forall k | 0 <= k < |lines| :: lines[k].pk == due[k].pk
    requires line == LineFor(due[|lines|], t.minMicros, t.enabled, t.Reached())
    ensures Follows(Next(b, StepFor(run, line, t)), start, run, due, t, lines + [line])
  {
    RowsFollow(b, start, run, due, t, lines, line);
    AccountsFollow(b, start, run, due, t, lines, line);
    StepCountsLine(b, run, due[|lines|], t, line);
  }

  lemma LineSteps(steps: seq<Step>, run: nat, lines: seq<Line>, t: Terms)
    requires lines != []
    ensures Exec(steps + StepsOf(run, lines, t))
         == Next(Exec(steps + StepsOf(run, lines[..|lines| - 1], t)), StepFor(run, lines[|lines| - 1], t))
  {
    var before, step := steps + StepsOf(run, lines[..|lines| - 1], t), StepFor(run, lines[|lines| - 1], t);
    assert steps + StepsOf(run, lines, t) == before + [step];
    ExecSnoc(before, step);
  }

  lemma {:induction false} RunEarnsNothing(steps: seq<Step>, run: nat, lines: seq<Line>, t: Terms)
    ensures Exec(steps + StepsOf(run, lines, t)).earnings == Exec(steps).earnings
  {
    if lines == [] {
      assert steps + [] == steps;
    } else {
      RunEarnsNothing(steps, run, lines[..|lines| - 1], t);
      LineSteps(steps, run, lines, t);
    }
  }

  lemma ReadFollows(steps: seq<Step>, start: State, due: seq<Accrual>, t: Terms)
    requires Agree(Exec(steps), start) && IsReport(start.rows, due)
    ensures Follows(Exec(steps + [Step.Read]), start, |Exec(steps).pending|, due, t, [])
    ensures Exec(steps + [Step.Read]).earnings == Exec(steps).earnings
  {
    ExecSnoc(steps, Step.Read);
    forall k | 0 <= k < |due|
      ensures AmountRead(Exec(steps + [Step.Read]), |Exec(steps).pending|, due[k].pk) == due[k].owed
    {
      ReadAll(Exec(steps), due[k].pk);
    }
  }

  lemma LastFollows(b: Books, start: State, run: nat, due: seq<Accrual>, t: Terms, lines: seq<Line>)
    requires lines != [] && Decided(due, t, lines) && IsReport(start.rows, due)
    requires Follows(b, start, run, due, t, lines[..|lines| - 1])
    ensures Follows(Next(b, StepFor(run, lines[|lines| - 1], t)), start, run, due, t, lines)
  {
    var before, line := lines[..|lines| - 1], lines[|lines| - 1];
    FollowsNext(b, start, run, due, t, before, line);
    assert before + [line] == lines;
  }

  lemma DecidedBefore(due: seq<Accrual>, t: Terms, lines: seq<Line>)
    requires lines != [] && Decided(due, t, lines)
    ensures Decided(due, t, lines[..|lines| - 1])
  {
  }

  lemma {:induction false} LinesFollow(read: seq<Step>, start: State, run: nat, due: seq<Accrual>,
                                       t: Terms, lines: seq<Line>)
    requires Follows(Exec(read), start, run, due, t, []) && IsReport(start.rows, due) && Decided(due, t, lines)
    ensures Follows(Exec(read + StepsOf(run, lines, t)), start, run, due, t, lines)
  {
    if lines == [] {
      assert read + [] == read;
    } else {
      var before := lines[..|lines| - 1];
      DecidedBefore(due, t, lines);
      LinesFollow(read, start, run, due, t, before);
      LineSteps(read, run, lines, t);
      LastFollows(Exec(read + StepsOf(run, before, t)), start, run, due, t, lines);
    }
  }

  /** An uninterrupted run of the store is a history: a read, then one step for each reported
      identity. It leaves the books in agreement with the store: what each identity is owed and was
      paid, and every payout row. */
  lemma RunIsHistory(steps: seq<Step>, start: State, due: seq<Accrual>, t: Terms, lines: seq<Line>, now: State)
    requires Agree(Exec(steps), start) && IsReport(start.rows, due)
    requires |lines| == |due| && Progress(start, due, t, now, lines)
    ensures var run := |Exec(steps).pending|;
      var end := Exec(steps + [Step.Read] + StepsOf(run, lines, t));
      Agree(end, now) && end.earnings == Exec(steps).earnings
  {
    var run := |Exec(steps).pending|;
    ReadFollows(steps, start, due, t);
    LinesFollow(steps + [Step.Read], start, run, due, t, lines);
    RunEarnsNothing(steps + [Step.Read], run, lines, t);
  }

  /** So does recording an earning. */
  lemma RecordingIsHistory(steps: seq<Step>, start: State, pk: string, micros: nat)
    requires Agree(Exec(steps), start)
    ensures var end := Exec(steps + [Earn(pk, micros)]);
      && Agree(end, start.(rows := start.rows + [Row(pk, micros, Accrued)]))
      && end.earnings == Exec(steps).earnings + [(pk, micros)]
  {
    ExecSnoc(steps, Earn(pk, micros));
    forall other
      ensures Owed(Exec(steps).rows + [Row(pk, micros, Accrued)], other)
           == Owed(start.rows + [Row(pk, micros, Accrued)], other)
    {
      OwedSnoc(Exec(steps).rows, Row(pk, micros, Accrued), other);
      OwedSnoc(start.rows, Row(pk, micros, Accrued), other);
    }
  }
}
