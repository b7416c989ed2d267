/** The reference ledger and its replay guards (`security/ayni_security/ledger.py`,
    `security/ayni_security/replay.py`). An exception is an outcome; what a raising call has
    already changed stays changed, as in the source. */
module Ledger {
  import opened Common

  // ---------------------------------------------------------------- replay guards

  class ReplayGuard {
    var seen: set<string>

    constructor ()
      ensures seen == {}
    {
      seen := {};
    }

    method Consume(value: string) returns (isNew: bool)
      modifies this
      ensures isNew <==> value != "" && value !in old(seen)
      ensures seen == if isNew then old(seen) + {value} else old(seen)
    {
      if value == "" || value in seen {
        return false;
      }
      seen := seen + {value};
      isNew := true;
    }
  }

  /** The text under which one device's claim on one job is remembered. */
  function ClaimKey(jobId: string, devicePk: string): string {
    jobId + ['\0'] + devicePk
  }

  class SettlementGuard {
    const claims: ReplayGuard

    constructor ()
      ensures fresh(claims) && claims.seen == {}
    {
      claims := new ReplayGuard();
    }

    method Claim(jobId: string, devicePk: string) returns (ok: bool)
      modifies claims
      ensures ok <==> jobId != "" && devicePk != "" && ClaimKey(jobId, devicePk) !in old(claims.seen)
      ensures claims.seen == if ok then old(claims.seen) + {ClaimKey(jobId, devicePk)} else old(claims.seen)
    {
      if jobId == "" || devicePk == "" {
        return false;
      }
      ok := claims.Consume(jobId + ['\0'] + devicePk);
    }
  }

  /** `longer` goes on with a NUL character after `job`. */
  predicate RunsOn(job: string, longer: string) {
    job + ['\0'] <= longer
  }

  lemma KeyRunsOn(job: string, device: string, longer: string, device': string)
    requires |job| < |longer| && ClaimKey(job, device) == ClaimKey(longer, device')
    ensures RunsOn(job, longer) && device == longer[|job| + 1..] + ['\0'] + device'
  {
    var key, key' := ClaimKey(job, device), ClaimKey(longer, device');
    assert forall k | 0 <= k <= |job| :: key[k] == (job + ['\0'])[k] && key'[k] == longer[k];
    assert key[|job| + 1..] == device;
    assert key'[|job| + 1..] == longer[|job| + 1..] + ['\0'] + device';
  }

  /** Two claims share a key exactly when they are the same claim, or one job id goes on with a
      NUL after the other and the devices make up for the rest. */
  lemma ClaimsCollideIff(job: string, device: string, job': string, device': string)
    ensures ClaimKey(job, device) == ClaimKey(job', device')
       <==> || (job == job' && device == device')
            || (RunsOn(job, job') && device == job'[|job| + 1..] + ['\0'] + device')
            || (RunsOn(job', job) && device' == job[|job'| + 1..] + ['\0'] + device)
  {
    if ClaimKey(job, device) == ClaimKey(job', device') {
      if |job| < |job'| {
        KeyRunsOn(job, device, job', device');
      } else if |job'| < |job| {
        KeyRunsOn(job', device', job, device);
      } else {
        assert job == ClaimKey(job, device)[..|job|] == ClaimKey(job', device')[..|job'|] == job';
        assert device == ClaimKey(job, device)[|job| + 1..] == ClaimKey(job', device')[|job'| + 1..] == device';
      }
    } else if RunsOn(job, job') {
      assert job' == job + ['\0'] + job'[|job| + 1..];
    } else if RunsOn(job', job) {
      assert job == job' + ['\0'] + job[|job'| + 1..];
    }
  }

  /** The claims of two jobs can be confused, by some devices, exactly when one id goes on with a
      NUL after the other. */
  lemma JobsConfusableIff(job: string, job': string)
    requires job != job'
    ensures (exists d, d' :: d != "" && d' != "" && ClaimKey(job, d) == ClaimKey(job', d'))
       <==> RunsOn(job, job') || RunsOn(job', job)
  {
    if d, d' :| d != "" && d' != "" && ClaimKey(job, d) == ClaimKey(job', d') {
      ClaimsCollideIff(job, d, job', d');
    }
    if RunsOn(job, job') {
      ClaimsCollideIff(job, job'[|job| + 1..] + ['\0'] + "d", job', "d");
    } else if RunsOn(job', job) {
      ClaimsCollideIff(job, "d", job', job[|job'| + 1..] + ['\0'] + "d");
    }
  }

  /** Claims of jobs whose ids cannot be confused are told apart. */
  lemma ClaimsAreDistinct(job: string, device: string, job': string, device': string)
    requires !RunsOn(job, job') && !RunsOn(job', job)
    requires ClaimKey(job, device) == ClaimKey(job', device')
    ensures job == job' && device == device'
  {
    ClaimsCollideIff(job, device, job', device');
  }

  lemma RunsOnHasNul(job: string, longer: string)
    requires RunsOn(job, longer)
    ensures '\0' in longer
  {
    assert longer[|job|] == (job + ['\0'])[|job|];
  }

  /** Ids without a NUL cannot be confused. */
  lemma NulFreeClaimsAreDistinct(job: string, device: string, job': string, device': string)
    requires '\0' !in job && '\0' !in job' && ClaimKey(job, device) == ClaimKey(job', device')
    ensures job == job' && device == device'
  {
    if RunsOn(job, job') {
      RunsOnHasNul(job, job');
    } else if RunsOn(job', job) {
      RunsOnHasNul(job', job);
    } else {
      ClaimsAreDistinct(job, device, job', device');
    }
  }

  lemma NulConfusesClaims()
    ensures ClaimKey("a\0b", "c") == ClaimKey("a", "b\0c")
  {
    assert ClaimKey("a\0b", "c") == "a\0b\0c" == ClaimKey("a", "b\0c");
  }

  // ---------------------------------------------------------------- sums over balances

  ghost function Sum(m: map<string, int>): int {
    if m == map[] then 0
    else
      var k :| k in m;
      m[k] + Sum(m - {k})
  }

  lemma {:induction false} SumWithout(m: map<string, int>, k: string)
    requires k in m
    ensures Sum(m) == m[k] + Sum(m - {k})
    decreases |m|
  {
    var picked :| picked in m && Sum(m) == m[picked] + Sum(m - {picked});
    if picked != k {
      SumWithout(m - {picked}, k);
      SumWithout(m - {k}, picked);
      assert (m - {picked}) - {k} == (m - {k}) - {picked};
    }
  }

  lemma SumUpdate(m: map<string, int>, k: string, v: int)
    ensures Sum(m[k := v]) == Sum(m) - GetOrZero(m, k) + v
  {
    var m' := m[k := v];
    SumWithout(m', k);
    if k in m {
      SumWithout(m, k);
      assert m' - {k} == m - {k};
    } else {
      assert m' - {k} == m;
    }
  }

  lemma {:induction false} SumAtMost(a: map<string, int>, b: map<string, int>)
    requires a.Keys <= b.Keys
    requires forall k | k in a :: a[k] <= b[k]
    requires forall k | k in b :: 0 <= b[k]
    ensures Sum(a) <= Sum(b)
    decreases |b|
  {
    if b == map[] {
      assert a == map[];
    } else {
      var k :| k in b;
      SumWithout(b, k);
      if k in a {
        SumWithout(a, k);
        SumAtMost(a - {k}, b - {k});
      } else {
        SumAtMost(a, b - {k});
      }
    }
  }

  // ---------------------------------------------------------------- the ledger

  datatype Books = Books(funded: int, charged: int, earned: int, paid: int,
                         balances: map<string, int>, providerBalances: map<string, int>,
                         chargedJobs: set<string>, claims: set<string>)

  datatype Outcome = Booked | AlreadyDone | Refused | Crashed

  const EMPTY: Books := Books(0, 0, 0, 0, map[], map[], {}, {})

  function FundOutcome(accountId: string, amount: int, paymentId: string, payments: set<string>): Outcome {
    if accountId == "" || paymentId == "" || amount <= 0 then Refused
    else if paymentId in payments then AlreadyDone
    else Booked
  }

  function Fund(b: Books, accountId: string, amount: int, paymentId: string, payments: set<string>): Books {
    if FundOutcome(accountId, amount, paymentId, payments).Booked? then
      b.(funded := b.funded + amount, balances := b.balances[accountId := GetOrZero(b.balances, accountId) + amount])
    else b
  }

  /** A zero charge to an account that was never funded marks the job and then crashes. */
  function ChargeOutcome(b: Books, accountId: string, jobId: string, gross: int): Outcome {
    if accountId == "" || jobId == "" || gross < 0 then Refused
    else if jobId in b.chargedJobs then AlreadyDone
    else if GetOrZero(b.balances, accountId) < gross then Refused
    else if accountId !in b.balances then Crashed
    else Booked
  }

  function Charge(b: Books, accountId: string, jobId: string, gross: int): Books {
    match ChargeOutcome(b, accountId, jobId, gross)
    case Booked =>
      b.(chargedJobs := b.chargedJobs + {jobId}, charged := b.charged + gross,
         balances := b.balances[accountId := b.balances[accountId] - gross])
    case Crashed => b.(chargedJobs := b.chargedJobs + {jobId})
    case _ => b
  }

  function AccrueOutcome(b: Books, jobId: string, devicePk: string, providerId: string,
                         gross: int, share: int): Outcome {
    if providerId == "" || gross < 0 || share < 0 || share > gross || jobId !in b.chargedJobs then Refused
    else if jobId == "" || devicePk == "" || ClaimKey(jobId, devicePk) in b.claims then AlreadyDone
    else Booked
  }

  function Accrue(b: Books, jobId: string, devicePk: string, providerId: string, gross: int, share: int): Books {
    if AccrueOutcome(b, jobId, devicePk, providerId, gross, share).Booked? then
      b.(claims := b.claims + {ClaimKey(jobId, devicePk)}, earned := b.earned + share,
         providerBalances := b.providerBalances[providerId := GetOrZero(b.providerBalances, providerId) + share])
    else b
  }

  function PayoutOutcome(b: Books, providerId: string, amount: int): Outcome {
    if amount <= 0 || amount > GetOrZero(b.providerBalances, providerId) then Refused else Booked
  }

  function Payout(b: Books, providerId: string, amount: int): Books {
    if PayoutOutcome(b, providerId, amount).Booked? then
      b.(providerBalances := b.providerBalances[providerId := GetOrZero(b.providerBalances, providerId) - amount],
         paid := b.paid + amount)
    else b
  }

  /** A caller-owned record of the payments already credited. */
  class PaymentLog {
    var seen: set<string>
  }

  class ReferenceLedger {
    const settlements: SettlementGuard
    var funded: int
    var charged: int
    var earned: int
    var paid: int
    var balances: map<string, int>
    var providerBalances: map<string, int>
    var chargedJobs: set<string>

    function View(): Books
      reads this, settlements.claims
    {
      Books(funded, charged, earned, paid, balances, providerBalances, chargedJobs, settlements.claims.seen)
    }

    constructor ()
      ensures fresh(settlements.claims) && View() == EMPTY
    {
      settlements := new SettlementGuard();
      funded, charged, earned, paid := 0, 0, 0, 0;
      balances, providerBalances, chargedJobs := map[], map[], {};
    }

    method FundAccount(accountId: string, amount: int, paymentId: string, payments: PaymentLog) returns (r: Outcome)
      modifies this, payments
      ensures r == FundOutcome(accountId, amount, paymentId, old(payments.seen))
      ensures View() == Fund(old(View()), accountId, amount, paymentId, old(payments.seen))
      ensures payments.seen == if r.Booked? then old(payments.seen) + {paymentId} else old(payments.seen)
    {
      if accountId == "" || paymentId == "" || amount <= 0 {
        return Refused;
      }
      if paymentId in payments.seen {
        return AlreadyDone;
      }
      payments.seen := payments.seen + {paymentId};
      funded := funded + amount;
      balances := balances[accountId := GetOrZero(balances, accountId) + amount];
      r := Booked;
    }

    method ChargeJob(accountId: string, jobId: string, gross: int) returns (r: Outcome)
      modifies this
      ensures r == ChargeOutcome(old(View()), accountId, jobId, gross)
      ensures View() == Charge(old(View()), accountId, jobId, gross)
    {
      if accountId == "" || jobId == "" || gross < 0 {
        return Refused;
      }
      if jobId in chargedJobs {
        return AlreadyDone;
      }
      if GetOrZero(balances, accountId) < gross {
        return Refused;
      }
      chargedJobs := chargedJobs + {jobId};
      if accountId !in balances {
        return Crashed;
      }
      balances := balances[accountId := balances[accountId] - gross];
      charged := charged + gross;
      r := Booked;
    }

    method AccrueJob(jobId: string, devicePk: string, providerId: string, gross: int, share: int) returns (r: Outcome)
      modifies this, settlements.claims
      ensures r == AccrueOutcome(old(View()), jobId, devicePk, providerId, gross, share)
      ensures View() == Accrue(old(View()), jobId, devicePk, providerId, gross, share)
    {
      if providerId == "" || gross < 0 || share < 0 {
        return Refused;
      }
      if share > gross {
        return Refused;
      }
      if jobId !in chargedJobs {
        return Refused;
      }
      var claimed := settlements.Claim(jobId, devicePk);
      if !claimed {
        return AlreadyDone;
      }
      earned := earned + share;
      providerBalances := providerBalances[providerId := GetOrZero(providerBalances, providerId) + share];
      r := Booked;
    }

    method PayOut(providerId: string, amount: int) returns (r: Outcome)
      modifies this
      ensures r == PayoutOutcome(old(View()), providerId, amount)
      ensures View() == Payout(old(View()), providerId, amount)
    {
      if amount <= 0 {
        return Refused;
      }
      var owed := GetOrZero(providerBalances, providerId);
      if amount > owed {
        return Refused;
      }
      providerBalances := providerBalances[providerId := owed - amount];
      paid := paid + amount;
      r := Booked;
    }
  }

  // ---------------------------------------------------------------- every run

  datatype Op =
    | FundOp(accountId: string, amount: int, paymentId: string)
    | ChargeOp(accountId: string, jobId: string, gross: int)
    | AccrueOp(jobId: string, devicePk: string, providerId: string, gross: int, share: int)
    | PayoutOp(providerId: string, amount: int)

  /** A run keeps, beside the books, the shared payment record and what each job was charged
      and has earned. */
  datatype Run = Run(books: Books, payments: set<string>, chargedOf: map<string, int>, earnedOf: map<string, int>)

  function Next(run: Run, op: Op): Run {
    var b := run.books;
    match op
    case FundOp(accountId, amount, paymentId) =>
      var r := FundOutcome(accountId, amount, paymentId, run.payments);
      run.(books := Fund(b, accountId, amount, paymentId, run.payments),
           payments := if r.Booked? then run.payments + {paymentId} else run.payments)
    case ChargeOp(accountId, jobId, gross) =>
      var r := ChargeOutcome(b, accountId, jobId, gross);
      run.(books := Charge(b, accountId, jobId, gross),
           chargedOf := if r.Booked? then run.chargedOf[jobId := gross]
                        else if r.Crashed? then run.chargedOf[jobId := 0] else run.chargedOf)
    case AccrueOp(jobId, devicePk, providerId, gross, share) =>
      run.(books := Accrue(b, jobId, devicePk, providerId, gross, share),
           earnedOf := if AccrueOutcome(b, jobId, devicePk, providerId, gross, share).Booked?
                       then run.earnedOf[jobId := GetOrZero(run.earnedOf, jobId) + share] else run.earnedOf)
    case PayoutOp(providerId, amount) => run.(books := Payout(b, providerId, amount))
  }

  function Exec(ops: seq<Op>): Run {
    if ops == [] then Run(EMPTY, {}, map[], map[]) else Next(Exec(ops[..|ops| - 1]), ops[|ops| - 1])
  }

  ghost predicate NonNegative(m: map<string, int>) {
    forall k | k in m :: m[k] >= 0
  }

  /** Money is neither created nor destroyed, and no balance is overdrawn. */
  ghost predicate Conserves(b: Books) {
    && b.funded == Sum(b.balances) + b.charged
    && b.earned == Sum(b.providerBalances) + b.paid
    && NonNegative(b.balances) && NonNegative(b.providerBalances)
  }

  /** The per-job journal agrees with the books. */
  ghost predicate Journalled(run: Run) {
    && run.books.charged == Sum(run.chargedOf) && run.books.earned == Sum(run.earnedOf)
    && NonNegative(run.chargedOf) && NonNegative(run.earnedOf)
    && run.earnedOf.Keys <= run.chargedOf.Keys == run.books.chargedJobs
  }

  lemma FundConserves(b: Books, accountId: string, amount: int, paymentId: string, payments: set<string>)
    requires Conserves(b)
    ensures Conserves(Fund(b, accountId, amount, paymentId, payments))
  {
    SumUpdate(b.balances, accountId, GetOrZero(b.balances, accountId) + amount);
  }

  lemma ChargeConserves(b: Books, accountId: string, jobId: string, gross: int)
    requires Conserves(b)
    ensures Conserves(Charge(b, accountId, jobId, gross))
  {
    SumUpdate(b.balances, accountId, GetOrZero(b.balances, accountId) - gross);
  }

  lemma AccrueConserves(b: Books, jobId: string, devicePk: string, providerId: string, gross: int, share: int)
    requires Conserves(b)
    ensures Conserves(Accrue(b, jobId, devicePk, providerId, gross, share))
  {
    SumUpdate(b.providerBalances, providerId, GetOrZero(b.providerBalances, providerId) + share);
  }

  lemma PayoutConserves(b: Books, providerId: string, amount: int)
    requires Conserves(b)
    ensures Conserves(Payout(b, providerId, amount))
  {
    SumUpdate(b.providerBalances, providerId, GetOrZero(b.providerBalances, providerId) - amount);
  }

  lemma NextConserves(run: Run, op: Op)
    requires Conserves(run.books)
    ensures Conserves(Next(run, op).books)
  {
    match op
    case FundOp(accountId, amount, paymentId) => FundConserves(run.books, accountId, amount, paymentId, run.payments);
    case ChargeOp(accountId, jobId, gross) => ChargeConserves(run.books, accountId, jobId, gross);
    case AccrueOp(jobId, devicePk, providerId, gross, share) =>
      AccrueConserves(run.books, jobId, devicePk, providerId, gross, share);
    case PayoutOp(providerId, amount) => PayoutConserves(run.books, providerId, amount);
  }

  lemma ChargeJournals(run: Run, accountId: string, jobId: string, gross: int)
    requires Journalled(run)
    ensures Journalled(Next(run, ChargeOp(accountId, jobId, gross)))
  {
    SumUpdate(run.chargedOf, jobId, gross);
    SumUpdate(run.chargedOf, jobId, 0);
  }

  lemma AccrueJournals(run: Run, jobId: string, devicePk: string, providerId: string, gross: int, share: int)
    requires Journalled(run)
    ensures Journalled(Next(run, AccrueOp(jobId, devicePk, providerId, gross, share)))
  {
    SumUpdate(run.earnedOf, jobId, GetOrZero(run.earnedOf, jobId) + share);
  }

  lemma NextJournals(run: Run, op: Op)
    requires Journalled(run)
    ensures Journalled(Next(run, op))
  {
    match op
    case FundOp(_, _, _) =>
    case ChargeOp(accountId, jobId, gross) => ChargeJournals(run, accountId, jobId, gross);
    case AccrueOp(jobId, devicePk, providerId, gross, share) =>
      AccrueJournals(run, jobId, devicePk, providerId, gross, share);
    case PayoutOp(_, _) =>
  }

  ghost predicate Sound(run: Run) {
    Conserves(run.books) && Journalled(run) && run.books.paid <= run.books.earned
  }

  lemma EmptyIsSound()
    ensures Sound(Run(EMPTY, {}, map[], map[]))
  {
    assert Sum(map[]) == 0;
  }

  lemma NextIsSound(run: Run, op: Op)
    requires Sound(run)
    ensures Sound(Next(run, op))
  {
    NextConserves(run, op);
    NextJournals(run, op);
    PaidWithinEarned(Next(run, op).books);
  }

  /** Conservation over every run: funded = customer balances + charged, earned = provider
      balances + paid, nothing negative — so payouts never exceed earnings. */
  lemma {:induction false} EveryRunConserves(ops: seq<Op>)
    ensures Sound(Exec(ops))
  {
    if ops == [] {
      EmptyIsSound();
    } else {
      EveryRunConserves(ops[..|ops| - 1]);
      NextIsSound(Exec(ops[..|ops| - 1]), ops[|ops| - 1]);
    }
  }

  lemma PaidWithinEarned(b: Books)
    requires Conserves(b)
    ensures b.paid <= b.earned
  {
    assert Sum(map[]) == 0;
    SumAtMost(map[], b.providerBalances);
  }

  // ---------------------------------------------------------------- earnings against charges

  /** No job has earned its providers more than its customer was charged. */
  predicate Solvent(run: Run) {
    forall job | job in run.earnedOf :: run.earnedOf[job] <= GetOrZero(run.chargedOf, job)
  }

  /** What a caller can check before accruing: the share fits what is left of the charge. */
  predicate Fits(run: Run, op: Op) {
    op.AccrueOp? && AccrueOutcome(run.books, op.jobId, op.devicePk, op.providerId, op.gross, op.share).Booked?
    ==> GetOrZero(run.earnedOf, op.jobId) + op.share <= GetOrZero(run.chargedOf, op.jobId)
  }

  /** The ledger compares a share with the gross its caller states, not with the charge, and
      lets several devices accrue one job. An accrual keeps every job solvent exactly when it fits. */
  lemma SolventIffFits(run: Run, op: Op)
    requires Journalled(run) && Solvent(run)
    ensures Solvent(Next(run, op)) <==> Fits(run, op)
  {
    var run' := Next(run, op);
    if op.AccrueOp? && AccrueOutcome(run.books, op.jobId, op.devicePk, op.providerId, op.gross, op.share).Booked? {
      assert run'.earnedOf[op.jobId] == GetOrZero(run.earnedOf, op.jobId) + op.share;
    } else {
      forall job | job in run'.earnedOf ensures run'.earnedOf[job] <= GetOrZero(run'.chargedOf, job) {
        assert job in run.chargedOf;
      }
    }
  }

  function IsSolvent(): seq<Op> -> bool {
    (ops: seq<Op>) => Solvent(Exec(ops))
  }

  function DoesFit(): (seq<Op>, Op) -> bool {
    (ops: seq<Op>, op: Op) => Fits(Exec(ops), op)
  }

  ghost predicate AllFit(ops: seq<Op>) {
    AtEveryStep(DoesFit(), ops)
  }

  ghost predicate AlwaysSolvent(ops: seq<Op>) {
    AtEveryPrefix(IsSolvent(), ops)
  }

  lemma SolventStep(ops: seq<Op>, op: Op)
    ensures Solvent(Exec(ops)) ==> (Solvent(Exec(ops + [op])) <==> Fits(Exec(ops), op))
  {
    EveryRunConserves(ops);
    ExecSnoc(ops, op);
    if Solvent(Exec(ops)) {
      SolventIffFits(Exec(ops), op);
    }
  }

  /** A whole run stays solvent job by job exactly when every accrual fits. */
  lemma SolventRunsAreThoseThatFit(ops: seq<Op>)
    ensures AlwaysSolvent(ops) <==> AllFit(ops)
  {
    forall before, op ensures IsSolvent()(before) ==> (IsSolvent()(before + [op]) <==> DoesFit()(before, op)) {
      SolventStep(before, op);
    }
    AlwaysIffEveryStep(IsSolvent(), DoesFit(), ops);
  }

  lemma ExecSnoc(ops: seq<Op>, op: Op)
    ensures Exec(ops + [op]) == Next(Exec(ops), op)
  {
    assert (ops + [op])[..|ops|] == ops;
  }

  /** In a solvent run provider earnings stay within customer charges. */
  lemma SolventMeansEarnedWithinCharged(ops: seq<Op>)
    requires AllFit(ops)
    ensures Exec(ops).books.earned <= Exec(ops).books.charged
  {
    SolventRunsAreThoseThatFit(ops);
    EveryRunConserves(ops);
    assert ops[..|ops|] == ops && IsSolvent()(ops[..|ops|]);
    var run := Exec(ops);
    SumAtMost(run.earnedOf, run.chargedOf);
  }

  // ---------------------------------------------------------------- totals

  /** What the ledger's own check asks: total earnings stay within total charges. */
  predicate Covered(run: Run) {
    run.books.earned <= run.books.charged
  }

  /** The share of an accrual that goes through fits what is left of all charges. */
  predicate FitsTotal(run: Run, op: Op) {
    op.AccrueOp? && AccrueOutcome(run.books, op.jobId, op.devicePk, op.providerId, op.gross, op.share).Booked?
    ==> op.share <= run.books.charged - run.books.earned
  }

  function IsCovered(): seq<Op> -> bool {
    (ops: seq<Op>) => Covered(Exec(ops))
  }

  function DoesFitTotal(): (seq<Op>, Op) -> bool {
    (ops: seq<Op>, op: Op) => FitsTotal(Exec(ops), op)
  }

  lemma CoveredIffFitsTotal(run: Run, op: Op)
    requires Covered(run)
    ensures Covered(Next(run, op)) <==> FitsTotal(run, op)
  {
  }

  /** Over whole runs: total earnings stay within total charges exactly when the share of every
      booked accrual fits what is left of all charges at that moment. */
  lemma CoveredRunsAreThoseThatFit(ops: seq<Op>)
    ensures AtEveryPrefix(IsCovered(), ops) <==> AtEveryStep(DoesFitTotal(), ops)
  {
    forall before, op ensures IsCovered()(before) ==> (IsCovered()(before + [op]) <==> DoesFitTotal()(before, op)) {
      ExecSnoc(before, op);
      if Covered(Exec(before)) {
        CoveredIffFitsTotal(Exec(before), op);
      }
    }
    AlwaysIffEveryStep(IsCovered(), DoesFitTotal(), ops);
  }

  /** Job by job is the stronger property: it keeps the totals covered. */
  lemma SolventRunsAreCovered(ops: seq<Op>)
    requires AllFit(ops)
    ensures AtEveryPrefix(IsCovered(), ops)
  {
    forall i | 0 <= i <= |ops| ensures IsCovered()(ops[..i]) {
      forall k | 0 <= k < i ensures DoesFit()(ops[..i][..k], ops[..i][k]) {
        assert ops[..i][..k] == ops[..k] && DoesFit()(ops[..k], ops[k]);
      }
      SolventMeansEarnedWithinCharged(ops[..i]);
    }
  }

  /** Strictly stronger: in this run one job earns more than it was charged, and another
      customer's charge covers it. */
  lemma TotalsCanHideOneJob()
    ensures var ops := [FundOp("c", 20, "p")] + [ChargeOp("c", "j", 10)] + [ChargeOp("c", "k", 10)]
                       + [AccrueOp("j", "d", "x", 15, 15)];
      AtEveryPrefix(IsCovered(), ops) && !Solvent(Exec(ops))
  {
    var a, b, c := FundOp("c", 20, "p"), ChargeOp("c", "j", 10), ChargeOp("c", "k", 10);
    var d := AccrueOp("j", "d", "x", 15, 15);
    assert [] + [a] == [a];
    ExecSnoc([], a);
    ExecSnoc([a], b);
    ExecSnoc([a] + [b], c);
    ExecSnoc([a] + [b] + [c], d);
    ChargedTwice(Exec([]), a, b, c);
    FifteenForTen(Exec([a] + [b] + [c]), d);
    CoveredFourTimes(a, b, c, d);
  }

  lemma CoveredFourTimes(a: Op, b: Op, c: Op, d: Op)
    requires IsCovered()([]) && IsCovered()([a]) && IsCovered()([a] + [b])
    requires IsCovered()([a] + [b] + [c]) && IsCovered()([a] + [b] + [c] + [d])
    ensures AtEveryPrefix(IsCovered(), [a] + [b] + [c] + [d])
  {
    assert [] + [a] == [a];
    AtEveryPrefixSnoc(IsCovered(), [], a);
    AtEveryPrefixSnoc(IsCovered(), [a], b);
    AtEveryPrefixSnoc(IsCovered(), [a] + [b], c);
    AtEveryPrefixSnoc(IsCovered(), [a] + [b] + [c], d);
  }

  lemma FifteenForTen(run: Run, d: Op)
    requires run.books.charged == 20 && run.books.earned == 0
    requires run.books.claims == {} && run.books.chargedJobs == {"j", "k"}
    requires run.chargedOf == map["j" := 10, "k" := 10] && run.earnedOf == map[] && d == AccrueOp("j", "d", "x", 15, 15)
    ensures Covered(Next(run, d)) && !Solvent(Next(run, d))
  {
    assert AccrueOutcome(run.books, "j", "d", "x", 15, 15).Booked?;
    assert "j"[0] != "k"[0];
    assert Next(run, d).earnedOf["j"] == 15;
  }

  lemma ChargedTwice(run: Run, a: Op, b: Op, c: Op)
    requires run == Run(EMPTY, {}, map[], map[])
    requires a == FundOp("c", 20, "p") && b == ChargeOp("c", "j", 10) && c == ChargeOp("c", "k", 10)
    ensures Covered(Next(run, a)) && Covered(Next(Next(run, a), b))
    ensures var end := Next(Next(Next(run, a), b), c);
      && end.books.charged == 20 && end.books.earned == 0
      && end.books.claims == {} && end.books.chargedJobs == {"j", "k"}
      && end.chargedOf == map["j" := 10, "k" := 10] && end.earnedOf == map[]
  {
    var funded := Next(run, a);
    assert funded.books.balances == map["c" := 20];
    assert ChargeOutcome(funded.books, "c", "j", 10).Booked?;
    var once := Next(funded, b);
    assert once.books.balances == map["c" := 10];
    assert "j"[0] != "k"[0];
    assert ChargeOutcome(once.books, "c", "k", 10).Booked?;
  }

  // ---------------------------------------------------------------- a sufficient discipline

  /** Every job is accrued by one device, always with the gross it was charged. */
  ghost predicate Disciplined(ops: seq<Op>, deviceOf: string -> string) {
    forall i | 0 <= i < |ops| && ops[i].AccrueOp? ::
      ops[i].devicePk == deviceOf(ops[i].jobId) && ops[i].gross == GetOrZero(Exec(ops[..i]).chargedOf, ops[i].jobId)
  }

  ghost predicate EarnedAreClaimed(run: Run, deviceOf: string -> string) {
    forall job | job in run.earnedOf :: ClaimKey(job, deviceOf(job)) in run.books.claims
  }

  lemma DisciplinedPrefix(ops: seq<Op>, deviceOf: string -> string, n: nat)
    requires Disciplined(ops, deviceOf) && n <= |ops|
    ensures Disciplined(ops[..n], deviceOf)
  {
    assert forall i | 0 <= i < n :: ops[..n][..i] == ops[..i];
  }

  lemma NextKeepsClaims(run: Run, op: Op, deviceOf: string -> string)
    requires EarnedAreClaimed(run, deviceOf) && (op.AccrueOp? ==> op.devicePk == deviceOf(op.jobId))
    ensures EarnedAreClaimed(Next(run, op), deviceOf)
  {
  }

  lemma {:induction false} ClaimsCoverEarnings(ops: seq<Op>, deviceOf: string -> string)
    requires Disciplined(ops, deviceOf)
    ensures EarnedAreClaimed(Exec(ops), deviceOf)
  {
    if ops == [] {
    } else {
      DisciplinedPrefix(ops, deviceOf, |ops| - 1);
      ClaimsCoverEarnings(ops[..|ops| - 1], deviceOf);
      NextKeepsClaims(Exec(ops[..|ops| - 1]), ops[|ops| - 1], deviceOf);
    }
  }

  lemma SecondClaimIsRefused(run: Run, op: Op, deviceOf: string -> string)
    requires Journalled(run) && EarnedAreClaimed(run, deviceOf)
    requires op.AccrueOp? ==> op.devicePk == deviceOf(op.jobId) && op.gross == GetOrZero(run.chargedOf, op.jobId)
    ensures Fits(run, op)
  {
  }

  /** Accrued by a single device with the gross it was charged, no job earns more than that:
      the settlement guard turns every further accrual away. */
  lemma DisciplinedRunsFit(ops: seq<Op>, deviceOf: string -> string)
    requires Disciplined(ops, deviceOf)
    ensures AllFit(ops)
    ensures Exec(ops).books.earned <= Exec(ops).books.charged
  {
    forall i | 0 <= i < |ops| ensures DoesFit()(ops[..i], ops[i]) {
      DisciplinedPrefix(ops, deviceOf, i);
      ClaimsCoverEarnings(ops[..i], deviceOf);
      EveryRunConserves(ops[..i]);
      SecondClaimIsRefused(Exec(ops[..i]), ops[i], deviceOf);
    }
    SolventMeansEarnedWithinCharged(ops);
  }

  /** Two devices accruing one job at its full gross break it. */
  lemma TwoDevicesCanOutearnTheCharge()
    ensures var run := Exec([FundOp("c", 10, "p")] + [ChargeOp("c", "j", 10)]
                            + [AccrueOp("j", "d", "x", 10, 10)] + [AccrueOp("j", "e", "x", 10, 10)]);
      run.books.earned == 20 && run.books.charged == 10
  {
    var a, b := FundOp("c", 10, "p"), ChargeOp("c", "j", 10);
    var c, d := AccrueOp("j", "d", "x", 10, 10), AccrueOp("j", "e", "x", 10, 10);
    assert [] + [a] == [a];
    ExecSnoc([], a);
    ExecSnoc([a], b);
    ExecSnoc([a] + [b], c);
    ExecSnoc([a] + [b] + [c], d);
    ChargedTen(Exec([]), a, b);
    OutearnedTwice(Exec([a] + [b]), c, d);
  }

  lemma ChargedTen(run: Run, a: Op, b: Op)
    requires run == Run(EMPTY, {}, map[], map[]) && a == FundOp("c", 10, "p") && b == ChargeOp("c", "j", 10)
    ensures var books := Next(Next(run, a), b).books;
      books.charged == 10 && books.earned == 0 && books.chargedJobs == {"j"} && books.claims == {}
  {
    var funded := Next(run, a);
    assert funded.books.balances == map["c" := 10];
    assert ChargeOutcome(funded.books, "c", "j", 10).Booked?;
  }

  lemma OutearnedTwice(run: Run, c: Op, d: Op)
    requires run.books.charged == 10 && run.books.earned == 0
    requires run.books.chargedJobs == {"j"} && run.books.claims == {}
    requires c == AccrueOp("j", "d", "x", 10, 10) && d == AccrueOp("j", "e", "x", 10, 10)
    ensures Next(Next(run, c), d).books.earned == 20 && Next(Next(run, c), d).books.charged == 10
  {
    assert AccrueOutcome(run.books, "j", "d", "x", 10, 10).Booked?;
    var once := Next(run, c);
    assert once.books.claims == {ClaimKey("j", "d")};
    assert ClaimKey("j", "e")[2] == 'e' && ClaimKey("j", "d")[2] == 'd';
    assert AccrueOutcome(once.books, "j", "e", "x", 10, 10).Booked?;
  }

  // ---------------------------------------------------------------- answers from the history alone

  function OutcomeOf(run: Run, op: Op): Outcome {
    var b := run.books;
    match op
    case FundOp(accountId, amount, paymentId) => FundOutcome(accountId, amount, paymentId, run.payments)
    case ChargeOp(accountId, jobId, gross) => ChargeOutcome(b, accountId, jobId, gross)
    case AccrueOp(jobId, devicePk, providerId, gross, share) =>
      AccrueOutcome(b, jobId, devicePk, providerId, gross, share)
    case PayoutOp(providerId, amount) => PayoutOutcome(b, providerId, amount)
  }

  /** The last operation of a history was booked. */
  predicate LastBooked(ops: seq<Op>)
    requires ops != []
  {
    OutcomeOf(Exec(ops[..|ops| - 1]), ops[|ops| - 1]).Booked?
  }

  /** A valid funding event with this payment id was presented. */
  predicate Presented(ops: seq<Op>, paymentId: string) {
    ops != [] &&
    (|| Presented(ops[..|ops| - 1], paymentId)
     || (var op := ops[|ops| - 1];
         op.FundOp? && op.paymentId == paymentId && op.accountId != "" && paymentId != "" && op.amount >= 1))
  }

  /** The account was funded. */
  predicate Funded(ops: seq<Op>, accountId: string) {
    ops != [] &&
    (|| Funded(ops[..|ops| - 1], accountId)
     || (ops[|ops| - 1].FundOp? && ops[|ops| - 1].accountId == accountId && LastBooked(ops)))
  }

  /** The job was charged, or marked by a charge that crashed. */
  predicate Marked(ops: seq<Op>, jobId: string) {
    ops != [] &&
    (|| Marked(ops[..|ops| - 1], jobId)
     || (ops[|ops| - 1].ChargeOp? && ops[|ops| - 1].jobId == jobId
         && OutcomeOf(Exec(ops[..|ops| - 1]), ops[|ops| - 1]) in {Booked, Crashed}))
  }

  /** An accrual under this claim was booked. */
  predicate Claimed(ops: seq<Op>, key: string) {
    ops != [] &&
    (|| Claimed(ops[..|ops| - 1], key)
     || (var op := ops[|ops| - 1]; op.AccrueOp? && ClaimKey(op.jobId, op.devicePk) == key && LastBooked(ops)))
  }

  /** What was booked to the account and from it. */
  function Net(ops: seq<Op>, accountId: string): int {
    if ops == [] then 0
    else
      Net(ops[..|ops| - 1], accountId)
      + match ops[|ops| - 1]
        case FundOp(a, amount, _) => if a == accountId && LastBooked(ops) then amount else 0
        case ChargeOp(a, _, gross) => if a == accountId && LastBooked(ops) then -gross else 0
        case _ => 0
  }

  /** What was booked to the provider and paid to it. */
  function ProviderNet(ops: seq<Op>, providerId: string): int {
    if ops == [] then 0
    else
      ProviderNet(ops[..|ops| - 1], providerId)
      + match ops[|ops| - 1]
        case AccrueOp(_, _, p, _, share) => if p == providerId && LastBooked(ops) then share else 0
        case PayoutOp(p, amount) => if p == providerId && LastBooked(ops) then -amount else 0
        case _ => 0
  }

  lemma {:induction false} BalancesFromHistory(ops: seq<Op>, id: string)
    ensures GetOrZero(Exec(ops).books.balances, id) == Net(ops, id)
    ensures GetOrZero(Exec(ops).books.providerBalances, id) == ProviderNet(ops, id)
  {
    if ops == [] {
    } else {
      BalancesFromHistory(ops[..|ops| - 1], id);
    }
  }

  lemma {:induction false} MarksFromHistory(ops: seq<Op>, id: string)
    ensures id in Exec(ops).payments <==> Presented(ops, id)
    ensures id in Exec(ops).books.balances <==> Funded(ops, id)
    ensures id in Exec(ops).books.chargedJobs <==> Marked(ops, id)
    ensures id in Exec(ops).books.claims <==> Claimed(ops, id)
  {
    if ops == [] {
    } else {
      MarksFromHistory(ops[..|ops| - 1], id);
    }
  }

  /** What the operations before it say an operation is answered. */
  function AnswerFromHistory(ops: seq<Op>, op: Op): Outcome {
    match op
    case FundOp(accountId, amount, paymentId) =>
      if accountId == "" || paymentId == "" || amount < 1 then Refused
      else if Presented(ops, paymentId) then AlreadyDone else Booked
    case ChargeOp(accountId, jobId, gross) =>
      if accountId == "" || jobId == "" || gross < 0 then Refused
      else if Marked(ops, jobId) then AlreadyDone
      else if gross > Net(ops, accountId) then Refused
      else if Funded(ops, accountId) then Booked else Crashed
    case AccrueOp(jobId, devicePk, providerId, gross, share) =>
      if providerId == "" || share < 0 || share > gross || !Marked(ops, jobId) then Refused
      else if devicePk == "" || Claimed(ops, ClaimKey(jobId, devicePk)) then AlreadyDone else Booked
    case PayoutOp(providerId, amount) =>
      if 1 <= amount <= ProviderNet(ops, providerId) then Booked else Refused
  }

  /** After any history, what the ledger answers follows from the operations before it: each payment
      id is credited once, each job charged once and only against credit, each claim accrued once for
      a charged job, and a provider is paid whatever it asks for up to what it is still due. */
  lemma AnswersFollowFromHistory(ops: seq<Op>, op: Op)
    ensures OutcomeOf(Exec(ops), op) == AnswerFromHistory(ops, op)
  {
    match op
    case FundOp(accountId, _, paymentId) => MarksFromHistory(ops, paymentId);
    case ChargeOp(accountId, jobId, _) =>
      MarksFromHistory(ops, jobId);
      MarksFromHistory(ops, accountId);
      BalancesFromHistory(ops, accountId);
    case AccrueOp(jobId, devicePk, _, _, _) =>
      MarksFromHistory(ops, jobId);
      MarksFromHistory(ops, ClaimKey(jobId, devicePk));
      NothingMarkedUnnamed(ops);
    case PayoutOp(providerId, _) => BalancesFromHistory(ops, providerId);
  }

  lemma {:induction false} NothingMarkedUnnamed(ops: seq<Op>)
    ensures !Marked(ops, "")
  {
    if ops == [] {
    } else {
      NothingMarkedUnnamed(ops[..|ops| - 1]);
    }
  }
}
