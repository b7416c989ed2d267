/** The deterministic policy gate over the Council's reviews (`Evaluate`, `Policy.count`,
    `Outcome.Acceptable` of `coordinator/internal/council/evaluate.go`). A reviewer is what its
    seat answers to the proposal at hand; seats are ranked by a hash, here any function. */
module Council {
  import opened Common
  import opened Sorting
  import opened Strings

  datatype Verdict = Approve | Conditional | Block | Blank | Unrecognised(text: string)

  datatype Severity = Low | Medium | High | Critical | Unrated(text: string)

  datatype Reply =
    | Failed
    | Review(decision: Verdict, severity: Severity, requiredControls: seq<string>)

  datatype Reviewer = Reviewer(seat: string, reply: Reply)

  datatype Risk = Normal | HighRisk | SecurityCritical

  datatype Policy = Policy(normal: nat, high: nat, critical: nat, criticalBlocks: int, highBlocks: int)
  {
    function Count(risk: Risk): nat {
      match risk
      case SecurityCritical => critical
      case HighRisk => high
      case Normal => normal
    }
  }

  datatype Outcome = Outcome(decision: Verdict, selected: seq<string>, missing: seq<string>,
                             requiredControls: seq<string>)
  {
    predicate Acceptable() { decision != Block }
  }

  type Ranking = string -> nat

  // ---------------------------------------------------------------- selection

  function ByRank(rank: Ranking): (Reviewer, Reviewer) -> bool {
    (a: Reviewer, b: Reviewer) => rank(a.seat) < rank(b.seat)
  }

  function RankKey(rank: Ranking): Reviewer -> nat {
    (r: Reviewer) => rank(r.seat)
  }

  function Smaller(a: nat, b: nat): nat {
    if a < b then a else b
  }

  function Select(reviewers: seq<Reviewer>, rank: Ranking, count: nat): (r: seq<Reviewer>)
    ensures |r| == Smaller(count, |reviewers|)
  {
    Sort(ByRank(rank), reviewers)[..Smaller(count, |reviewers|)]
  }

  lemma ByRankIsOrder(rank: Ranking, s: seq<Reviewer>)
    ensures StrictWeak(ByRank(rank))
    ensures DistinctKeys(RankKey(rank), s) ==> Decides(ByRank(rank), s)
  {
    if DistinctKeys(RankKey(rank), s) {
      forall x, y | x in s && y in s ensures x == y || ByRank(rank)(x, y) || ByRank(rank)(y, x) {
        var i :| 0 <= i < |s| && s[i] == x;
        var j :| 0 <= j < |s| && s[j] == y;
        assert i != j ==> RankKey(rank)(s[i]) != RankKey(rank)(s[j]);
      }
    }
  }

  // ---------------------------------------------------------------- the gate

  predicate IsCriticalBlock(r: Reply) {
    r.Review? && r.decision == Block && r.severity == Critical
  }

  predicate IsHighBlock(r: Reply) {
    r.Review? && r.decision == Block && (r.severity == High || r.severity == Critical)
  }

  predicate IsApproval(r: Reply) {
    r.Review? && r.decision == Approve
  }

  function HowMany(p: Reply -> bool, rs: seq<Reviewer>): (n: nat)
    ensures n <= |rs|
  {
    if rs == [] then 0 else HowMany(p, rs[..|rs| - 1]) + (if p(rs[|rs| - 1].reply) then 1 else 0)
  }

  ghost predicate AnyMissing(rs: seq<Reviewer>) {
    exists i :: 0 <= i < |rs| && rs[i].reply.Failed?
  }

  ghost predicate Blocked(rs: seq<Reviewer>, policy: Policy) {
    || AnyMissing(rs)
    || HowMany(IsCriticalBlock, rs) >= policy.criticalBlocks
    || HowMany(IsHighBlock, rs) >= policy.highBlocks
  }

  /** The decision, stated without the loops. */
  ghost function Gate(rs: seq<Reviewer>, policy: Policy): Verdict {
    if Blocked(rs, policy) then Block
    else if forall i | 0 <= i < |rs| :: IsApproval(rs[i].reply) then Approve
    else Conditional
  }

  function MissingSeats(rs: seq<Reviewer>): seq<string> {
    if rs == [] then []
    else MissingSeats(rs[..|rs| - 1]) + (if rs[|rs| - 1].reply.Failed? then [rs[|rs| - 1].seat] else [])
  }

  function ControlSet(rs: seq<Reviewer>): set<string> {
    set i, c | 0 <= i < |rs| && rs[i].reply.Review? && c in rs[i].reply.requiredControls :: c
  }

  /** `list` holds exactly the strings of `s`, once each, in order. */
  ghost predicate Lists(list: seq<string>, s: set<string>) {
    && (forall c :: c in list <==> c in s)
    && (forall i, j | 0 <= i < j < |list| :: StringLess(list[i], list[j]))
  }

  function StringOrder(): (string, string) -> bool {
    (a: string, b: string) => StringLess(a, b)
  }

  function Itself(): string -> string {
    (s: string) => s
  }

  method SortedList(s: set<string>) returns (list: seq<string>)
    ensures Lists(list, s)
  {
    var left := s;
    var found: seq<string> := [];
    while left != {}
      invariant left <= s
      invariant forall c :: c in found <==> c in s - left
      invariant DistinctKeys(Itself(), found)
      decreases left
    {
      var c :| c in left;
      found := found + [c];
      left := left - {c};
    }
    list := Sort(StringOrder(), found);
    StringOrderIsStrict();
    SortSorts(StringOrder(), found);
    DistinctKeysIgnoreOrder(Itself(), found, list);
    forall i, j | 0 <= i < j < |list| ensures StringLess(list[i], list[j]) {
      assert Itself()(list[i]) != Itself()(list[j]);
      StringLessTotal(list[i], list[j]);
      assert !StringOrder()(list[j], list[i]);
    }
  }

  lemma StringOrderIsStrict()
    ensures StrictWeak(StringOrder())
  {
    forall a: string, b: string, c: string
      ensures !StringOrder()(a, a)
      ensures StringOrder()(a, b) && StringOrder()(b, c) ==> StringOrder()(a, c)
      ensures StringOrder()(a, c) ==> StringOrder()(a, b) || StringOrder()(b, c)
    {
      StringLessTotal(a, b);
      StringLessTotal(b, c);
      StringLessTransitive(a, b, c);
      StringLessTransitive(b, a, c);
      StringLessTransitive(a, c, b);
    }
  }

  lemma {:induction false} ListIsUnique(a: seq<string>, b: seq<string>, s: set<string>)
    requires Lists(a, s) && Lists(b, s)
    ensures a == b
  {
    assert b != [] ==> b[0] in a;
    if a == [] {
    } else {
      assert a[0] in s;
      var j :| 0 <= j < |b| && b[j] == a[0];
      assert b[0] in s;
      var i :| 0 <= i < |a| && a[i] == b[0];
      StringLessTotal(a[0], b[0]);
      assert a[0] == b[0];
      Rest(a, s);
      Rest(b, s);
      ListIsUnique(a[1..], b[1..], s - {a[0]});
      assert a == [a[0]] + a[1..] && b == [b[0]] + b[1..];
    }
  }

  lemma Rest(a: seq<string>, s: set<string>)
    requires Lists(a, s) && a != []
    ensures Lists(a[1..], s - {a[0]})
  {
    forall k | 1 <= k < |a| ensures a[k] != a[0] {
      StringLessTotal(a[0], a[0]);
      assert StringLess(a[0], a[k]);
    }
    assert forall c :: c in a <==> c == a[0] || c in a[1..];
  }

  /** Everything an evaluation answers that does not depend on a clock. */
  ghost predicate Answers(reviewers: seq<Reviewer>, risk: Risk, policy: Policy, rank: Ranking, out: Outcome) {
    var chosen := Select(reviewers, rank, policy.Count(risk));
    && out.decision == Gate(chosen, policy)
    && |out.selected| == |chosen| && (forall i | 0 <= i < |chosen| :: out.selected[i] == chosen[i].seat)
    && out.missing == MissingSeats(chosen)
    && Lists(out.requiredControls, ControlSet(chosen))
  }

  /** Ask the chosen reviewers: who is missing, and what controls the others require. */
  method Collect(chosen: seq<Reviewer>) returns (seats: seq<string>, missing: seq<string>, controls: set<string>)
    ensures |seats| == |chosen| && forall i | 0 <= i < |chosen| :: seats[i] == chosen[i].seat
    ensures missing == MissingSeats(chosen) && (missing != [] <==> AnyMissing(chosen))
    ensures controls == ControlSet(chosen)
  {
    seats, missing, controls := [], [], {};
    for i := 0 to |chosen|
      invariant |seats| == i && forall k | 0 <= k < i :: seats[k] == chosen[k].seat
      invariant missing == MissingSeats(chosen[..i])
      invariant missing != [] <==> exists k :: 0 <= k < i && chosen[k].reply.Failed?
      invariant controls == ControlSet(chosen[..i])
    {
      var reviewer := chosen[i];
      assert chosen[..i + 1][..i] == chosen[..i];
      assert chosen[..i + 1] == chosen[..i] + [reviewer];
      ControlsSnoc(chosen[..i], reviewer);
      seats := seats + [reviewer.seat];
      if reviewer.reply.Failed? {
        missing := missing + [reviewer.seat];
      } else {
        controls := controls + (set c | c in reviewer.reply.requiredControls);
      }
    }
    assert chosen[..|chosen|] == chosen;
  }

  /** Count the blocks among the answers, and see whether every answer approves. */
  method CountBlocks(chosen: seq<Reviewer>) returns (criticalBlocks: nat, highBlocks: nat, allApprove: bool)
    ensures criticalBlocks == HowMany(IsCriticalBlock, chosen) && highBlocks == HowMany(IsHighBlock, chosen)
    ensures allApprove <==> forall i | 0 <= i < |chosen| :: chosen[i].reply.Failed? || IsApproval(chosen[i].reply)
  {
    criticalBlocks, highBlocks, allApprove := 0, 0, true;
    for i := 0 to |chosen|
      invariant criticalBlocks == HowMany(IsCriticalBlock, chosen[..i])
      invariant highBlocks == HowMany(IsHighBlock, chosen[..i])
      invariant allApprove <==> forall k | 0 <= k < i :: chosen[k].reply.Failed? || IsApproval(chosen[k].reply)
    {
      var review := chosen[i].reply;
      assert chosen[..i + 1][..i] == chosen[..i];
      if review.Failed? {
        continue;
      }
      var position := if review.decision == Blank then Conditional else review.decision;
      if position != Approve {
        allApprove := false;
      }
      if position != Block {
        continue;
      }
      if review.severity == Critical {
        criticalBlocks := criticalBlocks + 1;
      }
      if review.severity == High || review.severity == Critical {
        highBlocks := highBlocks + 1;
      }
    }
    assert chosen[..|chosen|] == chosen;
  }

  lemma GateDecides(chosen: seq<Reviewer>, policy: Policy, criticalBlocks: nat, highBlocks: nat, allApprove: bool)
    requires criticalBlocks == HowMany(IsCriticalBlock, chosen) && highBlocks == HowMany(IsHighBlock, chosen)
    requires allApprove <==> forall i | 0 <= i < |chosen| :: chosen[i].reply.Failed? || IsApproval(chosen[i].reply)
    ensures Gate(chosen, policy)
         == if AnyMissing(chosen) then Block
            else if criticalBlocks >= policy.criticalBlocks || highBlocks >= policy.highBlocks then Block
            else if allApprove then Approve else Conditional
  {
  }

  method Evaluate(reviewers: seq<Reviewer>, risk: Risk, policy: Policy, rank: Ranking) returns (out: Outcome)
    ensures Answers(reviewers, risk, policy, rank, out)
  {
    var want := policy.Count(risk);
    if want > |reviewers| {
      want := |reviewers|;
    }
    var chosen := Sort(ByRank(rank), reviewers)[..want];
    var seats, missing, controls := Collect(chosen);
    var criticalBlocks, highBlocks, allApprove := CountBlocks(chosen);
    var decision := Approve;
    if |missing| > 0 {
      decision := Block;
    } else if criticalBlocks >= policy.criticalBlocks {
      decision := Block;
    } else if highBlocks >= policy.highBlocks {
      decision := Block;
    } else if !allApprove {
      decision := Conditional;
    }
    GateDecides(chosen, policy, criticalBlocks, highBlocks, allApprove);
    var required := SortedList(controls);
    out := Outcome(decision, seats, missing, required);
  }

  lemma ControlsSnoc(rs: seq<Reviewer>, r: Reviewer)
    ensures ControlSet(rs + [r])
         == ControlSet(rs) + (if r.reply.Review? then set c | c in r.reply.requiredControls else {})
  {
    var more := rs + [r];
    assert forall i | 0 <= i < |rs| :: more[i] == rs[i];
    assert more[|rs|] == r;
  }

  // ---------------------------------------------------------------- order does not matter

  /** With distinct seat hashes nothing in the answer depends on the order of the reviewers. */
  lemma AnswerIgnoresOrder(a: seq<Reviewer>, b: seq<Reviewer>, risk: Risk, policy: Policy, rank: Ranking,
                           x: Outcome, y: Outcome)
    requires multiset(a) == multiset(b) && DistinctKeys(RankKey(rank), a)
    requires Answers(a, risk, policy, rank, x) && Answers(b, risk, policy, rank, y)
    ensures x == y
  {
    ByRankIsOrder(rank, a);
    SortIgnoresOrder(ByRank(rank), a, b);
    SameElements(a, b);
    var chosen := Select(a, rank, policy.Count(risk));
    assert chosen == Select(b, rank, policy.Count(risk));
    ListIsUnique(x.requiredControls, y.requiredControls, ControlSet(chosen));
    assert x.selected == y.selected;
  }

  // ---------------------------------------------------------------- stricter answers

  /** How strict an answer is: approve, conditional, block by rising severity, missing. */
  function Strictness(r: Reply): nat {
    match r
    case Failed => 6
    case Review(Approve, _, _) => 0
    case Review(Block, Medium, _) => 3
    case Review(Block, High, _) => 4
    case Review(Block, Critical, _) => 5
    case Review(Block, _, _) => 2
    case Review(_, _, _) => 1
  }

  function Sternness(v: Verdict): nat {
    match v
    case Approve => 0
    case Block => 2
    case _ => 1
  }

  ghost predicate NoLaxer(a: Reviewer, b: Reviewer) {
    a.seat == b.seat && Strictness(a.reply) <= Strictness(b.reply)
  }

  ghost predicate NowhereLaxer(a: seq<Reviewer>, b: seq<Reviewer>) {
    |a| == |b| && forall i | 0 <= i < |a| :: NoLaxer(a[i], b[i])
  }

  lemma {:induction false} CountsGrow(a: seq<Reviewer>, b: seq<Reviewer>)
    requires NowhereLaxer(a, b) && !AnyMissing(b)
    ensures HowMany(IsCriticalBlock, a) <= HowMany(IsCriticalBlock, b)
    ensures HowMany(IsHighBlock, a) <= HowMany(IsHighBlock, b)
  {
    if a == [] {
    } else {
      var n := |a| - 1;
      assert NoLaxer(a[n], b[n]);
      assert !AnyMissing(b[..n]) by {
        assert forall i | 0 <= i < n :: b[..n][i] == b[i];
      }
      CountsGrow(a[..n], b[..n]);
      assert !b[n].reply.Failed?;
    }
  }

  lemma GateIsMonotone(a: seq<Reviewer>, b: seq<Reviewer>, policy: Policy)
    requires NowhereLaxer(a, b)
    ensures Sternness(Gate(a, policy)) <= Sternness(Gate(b, policy))
    ensures Gate(b, policy) == Approve ==> Gate(a, policy) == Approve
    ensures Gate(a, policy) == Block ==> Gate(b, policy) == Block
  {
    if !Blocked(b, policy) {
      CountsGrow(a, b);
      forall i | 0 <= i < |a| ensures !a[i].reply.Failed? && (IsApproval(b[i].reply) ==> IsApproval(a[i].reply)) {
        assert NoLaxer(a[i], b[i]);
        assert !b[i].reply.Failed?;
      }
    }
  }

  lemma NowhereLaxerCons(x: Reviewer, y: Reviewer, a: seq<Reviewer>, b: seq<Reviewer>)
    requires NoLaxer(x, y) && NowhereLaxer(a, b)
    ensures NowhereLaxer([x] + a, [y] + b)
  {
    forall i | 0 <= i <= |a| ensures NoLaxer(([x] + a)[i], ([y] + b)[i]) {
      assert i > 0 ==> NoLaxer(a[i - 1], b[i - 1]);
    }
  }

  lemma NowhereLaxerTail(a: seq<Reviewer>, b: seq<Reviewer>)
    requires NowhereLaxer(a, b) && a != []
    ensures NoLaxer(a[0], b[0]) && NowhereLaxer(a[1..], b[1..])
  {
  }

  lemma {:induction false} InsertKeepsPairs(rank: Ranking, x: Reviewer, y: Reviewer, a: seq<Reviewer>, b: seq<Reviewer>)
    requires NoLaxer(x, y) && NowhereLaxer(a, b)
    ensures NowhereLaxer(Insert(ByRank(rank), x, a), Insert(ByRank(rank), y, b))
  {
    if a == [] {
      NowhereLaxerCons(x, y, a, b);
    } else {
      NowhereLaxerTail(a, b);
      if ByRank(rank)(a[0], x) {
        InsertKeepsPairs(rank, x, y, a[1..], b[1..]);
        NowhereLaxerCons(a[0], b[0], Insert(ByRank(rank), x, a[1..]), Insert(ByRank(rank), y, b[1..]));
      } else {
        NowhereLaxerCons(x, y, a, b);
      }
    }
  }

  /** Ranking looks at seats only, so it keeps each seat's two answers together. */
  lemma {:induction false} SortKeepsPairs(rank: Ranking, a: seq<Reviewer>, b: seq<Reviewer>)
    requires NowhereLaxer(a, b)
    ensures NowhereLaxer(Sort(ByRank(rank), a), Sort(ByRank(rank), b))
  {
    if a == [] {
    } else {
      NowhereLaxerTail(a, b);
      SortKeepsPairs(rank, a[1..], b[1..]);
      InsertKeepsPairs(rank, a[0], b[0], Sort(ByRank(rank), a[1..]), Sort(ByRank(rank), b[1..]));
    }
  }

  /** Making answers stricter, at any seats, never makes the decision more lenient; the seats
      selected stay the same. */
  lemma StricterAnswersNeverRelax(a: seq<Reviewer>, b: seq<Reviewer>, risk: Risk, policy: Policy, rank: Ranking,
                                  x: Outcome, y: Outcome)
    requires NowhereLaxer(a, b)
    requires Answers(a, risk, policy, rank, x) && Answers(b, risk, policy, rank, y)
    ensures Sternness(x.decision) <= Sternness(y.decision)
    ensures y.decision == Approve ==> x.decision == Approve
    ensures x.selected == y.selected
    ensures y.Acceptable() ==> x.Acceptable()
  {
    SortKeepsPairs(rank, a, b);
    var p, q := Select(a, rank, policy.Count(risk)), Select(b, rank, policy.Count(risk));
    assert NowhereLaxer(p, q);
    GateIsMonotone(p, q, policy);
    assert forall i | 0 <= i < |p| :: NoLaxer(p[i], q[i]);
  }

  /** The gate fails closed: an accepted proposal has an answer from every selected seat. */
  lemma {:induction false} AcceptedMeansAllAnswered(reviewers: seq<Reviewer>, risk: Risk, policy: Policy,
                                                    rank: Ranking, out: Outcome)
    requires Answers(reviewers, risk, policy, rank, out) && out.Acceptable()
    ensures out.missing == []
    ensures |out.selected| == Smaller(policy.Count(risk), |reviewers|)
  {
    NobodyMissing(Select(reviewers, rank, policy.Count(risk)));
  }

  lemma {:induction false} NobodyMissing(rs: seq<Reviewer>)
    requires !AnyMissing(rs)
    ensures MissingSeats(rs) == []
  {
    if rs == [] {
    } else {
      var n := |rs| - 1;
      assert !rs[n].reply.Failed?;
      assert !AnyMissing(rs[..n]) by {
        assert forall i | 0 <= i < n :: rs[..n][i] == rs[i];
      }
      NobodyMissing(rs[..n]);
    }
  }

  // ---------------------------------------------------------------- who is asked

  /** The order of risk classes. */
  function Level(risk: Risk): nat {
    match risk
    case Normal => 0
    case HighRisk => 1
    case SecurityCritical => 2
  }

  /** Where counts rise with the risk, a riskier proposal is put to everyone a less risky one would
      have been put to. */
  lemma HigherRiskAsksMore(reviewers: seq<Reviewer>, low: Risk, high: Risk, policy: Policy, rank: Ranking,
                           x: Outcome, y: Outcome)
    requires policy.normal <= policy.high <= policy.critical && Level(low) <= Level(high)
    requires Answers(reviewers, low, policy, rank, x) && Answers(reviewers, high, policy, rank, y)
    ensures x.selected <= y.selected
  {
    var p, q := Select(reviewers, rank, policy.Count(low)), Select(reviewers, rank, policy.Count(high));
    assert p == q[..|p|];
  }

  /** `ranked` lists the same reviewers by rising rank. */
  ghost predicate IsRanking(ranked: seq<Reviewer>, reviewers: seq<Reviewer>, rank: Ranking) {
    && multiset(ranked) == multiset(reviewers)
    && forall i, j | 0 <= i < j < |ranked| :: rank(ranked[i].seat) <= rank(ranked[j].seat)
  }

  lemma SortRanks(reviewers: seq<Reviewer>, rank: Ranking)
    ensures IsRanking(Sort(ByRank(rank), reviewers), reviewers, rank)
  {
    var ranked := Sort(ByRank(rank), reviewers);
    ByRankIsOrder(rank, []);
    SortSorts(ByRank(rank), reviewers);
    forall i, j | 0 <= i < j < |ranked| ensures rank(ranked[i].seat) <= rank(ranked[j].seat) {
      assert !ByRank(rank)(ranked[j], ranked[i]);
    }
  }

  /** As many seats are asked as the policy says for the risk, or all there are, and nobody who is
      not asked ranks before one who is. */
  lemma FirstByRankAreAsked(reviewers: seq<Reviewer>, risk: Risk, policy: Policy, rank: Ranking, out: Outcome)
    returns (ranked: seq<Reviewer>)
    requires Answers(reviewers, risk, policy, rank, out)
    ensures IsRanking(ranked, reviewers, rank) && |ranked| == |reviewers|
    ensures |out.selected| <= |ranked| && forall i | 0 <= i < |out.selected| :: out.selected[i] == ranked[i].seat
    ensures var asked := if risk == SecurityCritical then policy.critical
                         else if risk == HighRisk then policy.high else policy.normal;
      |out.selected| == if asked <= |reviewers| then asked else |reviewers|
  {
    ranked := Sort(ByRank(rank), reviewers);
    SortRanks(reviewers, rank);
  }

  /** Missing are exactly the selected seats that gave no answer. */
  lemma {:induction false} MissingAreThoseThatFailed(rs: seq<Reviewer>, seat: string)
    ensures seat in MissingSeats(rs) <==> exists i :: 0 <= i < |rs| && rs[i].reply.Failed? && rs[i].seat == seat
  {
    if rs == [] {
    } else {
      var n := |rs| - 1;
      MissingAreThoseThatFailed(rs[..n], seat);
      assert forall i | 0 <= i < n :: rs[..n][i] == rs[i];
    }
  }

  /** Required are exactly the controls that some selected reviewer asked for. */
  lemma RequiredAreThoseAskedFor(reviewers: seq<Reviewer>, risk: Risk, policy: Policy, rank: Ranking, out: Outcome,
                                 control: string)
    requires Answers(reviewers, risk, policy, rank, out)
    ensures control in out.requiredControls <==>
      exists r | r in Select(reviewers, rank, policy.Count(risk)) ::
        r.reply.Review? && control in r.reply.requiredControls
  {
    var chosen := Select(reviewers, rank, policy.Count(risk));
    assert control in out.requiredControls <==> control in ControlSet(chosen);
    if r :| r in chosen && r.reply.Review? && control in r.reply.requiredControls {
      var i :| 0 <= i < |chosen| && chosen[i] == r;
    }
  }

  // ---------------------------------------------------------------- the gate in numbers

  function SeatIs(p: Reply -> bool): Reviewer -> bool {
    (r: Reviewer) => p(r.reply)
  }

  lemma {:induction false} HowManyPlaces(p: Reply -> bool, rs: seq<Reviewer>)
    ensures HowMany(p, rs) == |Places(rs, SeatIs(p))|
  {
    if rs == [] {
    } else {
      HowManyPlaces(p, rs[..|rs| - 1]);
      PlacesSnoc(rs, SeatIs(p));
    }
  }

  lemma CriticalPlaces(rs: seq<Reviewer>)
    ensures HowMany(IsCriticalBlock, rs)
         == |set i | 0 <= i < |rs| && rs[i].reply.Review? && rs[i].reply.decision == Block
                     && rs[i].reply.severity == Critical|
  {
    HowManyPlaces(IsCriticalBlock, rs);
    forall r: Reviewer ensures SeatIs(IsCriticalBlock)(r) <==> IsCriticalBlock(r.reply) {
    }
    assert Places(rs, SeatIs(IsCriticalBlock))
        == set i | 0 <= i < |rs| && rs[i].reply.Review? && rs[i].reply.decision == Block
                   && rs[i].reply.severity == Critical;
  }

  lemma SeverePlaces(rs: seq<Reviewer>)
    ensures HowMany(IsHighBlock, rs)
         == |set i | 0 <= i < |rs| && rs[i].reply.Review? && rs[i].reply.decision == Block
                     && (rs[i].reply.severity == High || rs[i].reply.severity == Critical)|
  {
    HowManyPlaces(IsHighBlock, rs);
    forall r: Reviewer ensures SeatIs(IsHighBlock)(r) <==> IsHighBlock(r.reply) {
    }
    assert Places(rs, SeatIs(IsHighBlock))
        == set i | 0 <= i < |rs| && rs[i].reply.Review? && rs[i].reply.decision == Block
                   && (rs[i].reply.severity == High || rs[i].reply.severity == Critical);
  }

  /** The decision, from the numbers of critical blocks and of high or critical ones. */
  lemma GateInNumbers(rs: seq<Reviewer>, policy: Policy)
    ensures var critical := |set i | 0 <= i < |rs| && rs[i].reply.Review? && rs[i].reply.decision == Block
                                     && rs[i].reply.severity == Critical|;
      var severe := |set i | 0 <= i < |rs| && rs[i].reply.Review? && rs[i].reply.decision == Block
                             && (rs[i].reply.severity == High || rs[i].reply.severity == Critical)|;
      Gate(rs, policy)
      == if (exists i :: 0 <= i < |rs| && rs[i].reply.Failed?) then Block
         else if critical >= policy.criticalBlocks || severe >= policy.highBlocks then Block
         else if forall i | 0 <= i < |rs| :: rs[i].reply.Review? && rs[i].reply.decision == Approve then Approve
         else Conditional
  {
    CriticalPlaces(rs);
    SeverePlaces(rs);
  }
}
