/** Qualification of candidate models and the pruned backtracking search that seats the
    Council (`security/ayni_security/qualification.py`, `validate_roster` of `council.py`).
    Scores are read as exact reals. */
module Roster {
  import opened Common
  import opened Sorting
  import opened Strings

  datatype Candidate = Candidate(modelId: string, provider: string,
                                 security: real, calibration: real, reliability: real,
                                 roleScores: map<string, real>, openWeight: bool)
  {
    /** What the constructor of a candidate checks and the code below relies on. */
    predicate WellFormed() {
      modelId != "" && provider != ""
    }

    function Baseline(): real {
      0.5 * security + 0.25 * calibration + 0.25 * reliability
    }

    function ScoreFor(seat: string): real {
      0.65 * (if seat in roleScores then roleScores[seat] else security) + 0.35 * Baseline()
    }
  }

  datatype Policy = Policy(minSecurity: real, minCalibration: real, minReliability: real,
                           minProviders: int, minOpenWeight: int, maxPerProvider: int)

  datatype Assignment = Assignment(seat: string, modelId: string, provider: string)

  datatype Refusal =
    | CeilingExceeded | DuplicateModel | TooFewQualified
    | ProviderDiversity | OpenWeightShortage | NoRoster

  datatype Outcome = Selected(assignments: seq<Assignment>) | Refused(why: Refusal)

  const SEATS: seq<string> := [
    "security_critic", "red_team", "privacy", "financial_integrity", "node_safety",
    "renter_abuse", "reliability", "human_impact", "ai_stewardship", "dissenter"]

  // ---------------------------------------------------------------- ranking

  /** Tuple comparison of `(-score, provider, model_id)`. */
  predicate RanksBefore(x: real, a: Candidate, y: real, b: Candidate) {
    || x > y
    || (x == y && (StringLess(a.provider, b.provider)
                   || (a.provider == b.provider && StringLess(a.modelId, b.modelId))))
  }

  function SeatOrder(seat: string): (Candidate, Candidate) -> bool {
    (a: Candidate, b: Candidate) => RanksBefore(a.ScoreFor(seat), a, b.ScoreFor(seat), b)
  }

  function BaselineOrder(): (Candidate, Candidate) -> bool {
    (a: Candidate, b: Candidate) => RanksBefore(a.Baseline(), a, b.Baseline(), b)
  }

  function ModelOf(): Candidate -> string {
    (c: Candidate) => c.modelId
  }

  lemma RanksBeforeIsStrictWeak(x: real, a: Candidate, y: real, b: Candidate, z: real, c: Candidate)
    ensures !RanksBefore(x, a, x, a)
    ensures RanksBefore(x, a, y, b) && RanksBefore(y, b, z, c) ==> RanksBefore(x, a, z, c)
    ensures RanksBefore(x, a, z, c) ==> RanksBefore(x, a, y, b) || RanksBefore(y, b, z, c)
    ensures a.modelId != b.modelId ==> RanksBefore(x, a, y, b) || RanksBefore(y, b, x, a)
  {
    StringLessTotal(a.provider, b.provider);
    StringLessTotal(b.provider, c.provider);
    StringLessTotal(a.modelId, b.modelId);
    StringLessTotal(b.modelId, c.modelId);
    StringLessTransitive(a.provider, b.provider, c.provider);
    StringLessTransitive(a.modelId, b.modelId, c.modelId);
    StringLessTransitive(b.provider, a.provider, c.provider);
    StringLessTransitive(a.provider, c.provider, b.provider);
    StringLessTransitive(b.modelId, a.modelId, c.modelId);
    StringLessTransitive(a.modelId, c.modelId, b.modelId);
  }

  lemma SeatOrderIsStrictWeak(seat: string)
    ensures StrictWeak(SeatOrder(seat))
  {
    forall a: Candidate, b: Candidate, c: Candidate
      ensures !SeatOrder(seat)(a, a)
      ensures SeatOrder(seat)(a, b) && SeatOrder(seat)(b, c) ==> SeatOrder(seat)(a, c)
      ensures SeatOrder(seat)(a, c) ==> SeatOrder(seat)(a, b) || SeatOrder(seat)(b, c)
    {
      RanksBeforeIsStrictWeak(a.ScoreFor(seat), a, b.ScoreFor(seat), b, c.ScoreFor(seat), c);
    }
  }

  lemma BaselineOrderIsStrictWeak()
    ensures StrictWeak(BaselineOrder())
  {
    forall a: Candidate, b: Candidate, c: Candidate
      ensures !BaselineOrder()(a, a)
      ensures BaselineOrder()(a, b) && BaselineOrder()(b, c) ==> BaselineOrder()(a, c)
      ensures BaselineOrder()(a, c) ==> BaselineOrder()(a, b) || BaselineOrder()(b, c)
    {
      RanksBeforeIsStrictWeak(a.Baseline(), a, b.Baseline(), b, c.Baseline(), c);
    }
  }

  lemma BaselineOrderDecides(s: seq<Candidate>)
    requires DistinctKeys(ModelOf(), s)
    ensures Decides(BaselineOrder(), s)
  {
    forall x, y | x in s && y in s ensures x == y || BaselineOrder()(x, y) || BaselineOrder()(y, x) {
      var i :| 0 <= i < |s| && s[i] == x;
      var j :| 0 <= j < |s| && s[j] == y;
      assert i != j ==> ModelOf()(s[i]) != ModelOf()(s[j]);
      RanksBeforeIsStrictWeak(x.Baseline(), x, y.Baseline(), y, x.Baseline(), x);
    }
  }

  // ---------------------------------------------------------------- what a roster must satisfy

  function SeatsOf(team: seq<Candidate>, provider: string): (n: nat)
    ensures n <= |team|
  {
    if team == [] then 0
    else SeatsOf(team[..|team| - 1], provider) + (if team[|team| - 1].provider == provider then 1 else 0)
  }

  function OpenSeats(team: seq<Candidate>): (n: nat)
    ensures n <= |team|
  {
    if team == [] then 0
    else OpenSeats(team[..|team| - 1]) + (if team[|team| - 1].openWeight then 1 else 0)
  }

  ghost predicate UniqueModels(team: seq<Candidate>) {
    DistinctKeys(ModelOf(), team)
  }

  ghost predicate WithinCap(team: seq<Candidate>, cap: int) {
    forall i | 0 <= i < |team| :: SeatsOf(team, team[i].provider) <= cap
  }

  /** The hard constraints: unique models, the per-provider cap, the open-weight minimum. */
  ghost predicate Admissible(team: seq<Candidate>, policy: Policy) {
    UniqueModels(team) && WithinCap(team, policy.maxPerProvider) && OpenSeats(team) >= policy.minOpenWeight
  }

  /** A choice of one position in every seat's preference list. */
  ghost predicate IsPicks(ranked: seq<seq<Candidate>>, picks: seq<nat>) {
    |picks| == |ranked| && forall i | 0 <= i < |picks| :: picks[i] < |ranked[i]|
  }

  function Seated(ranked: seq<seq<Candidate>>, picks: seq<nat>): (team: seq<Candidate>)
    requires |picks| == |ranked| && forall i | 0 <= i < |picks| :: picks[i] < |ranked[i]|
    ensures |team| == |picks|
    ensures forall i | 0 <= i < |team| :: team[i] == ranked[i][picks[i]]
  {
    if picks == [] then [] else [ranked[0][picks[0]]] + Seated(ranked[1..], picks[1..])
  }

  /** Dictionary order: an earlier seat's preference outweighs every later one. */
  ghost predicate Preferred(p: seq<nat>, q: seq<nat>)
    requires |p| == |q|
  {
    p != [] && (p[0] < q[0] || (p[0] == q[0] && Preferred(p[1..], q[1..])))
  }

  /** `picks` completes `prefix` to an admissible team, and no preferred choice does. */
  ghost predicate FirstCompletion(ranked: seq<seq<Candidate>>, policy: Policy,
                                  prefix: seq<Candidate>, picks: seq<nat>) {
    && IsPicks(ranked, picks)
    && Admissible(prefix + Seated(ranked, picks), policy)
    && forall r | IsPicks(ranked, r) && Preferred(r, picks) :: !Admissible(prefix + Seated(ranked, r), policy)
  }

  ghost predicate NoCompletion(ranked: seq<seq<Candidate>>, policy: Policy, prefix: seq<Candidate>) {
    forall r | IsPicks(ranked, r) :: !Admissible(prefix + Seated(ranked, r), policy)
  }

  lemma {:induction false} CountsAdd(a: seq<Candidate>, b: seq<Candidate>, provider: string)
    ensures SeatsOf(a + b, provider) == SeatsOf(a, provider) + SeatsOf(b, provider)
    ensures OpenSeats(a + b) == OpenSeats(a) + OpenSeats(b)
  {
    if b == [] {
      assert a + b == a;
    } else {
      var b' := b[..|b| - 1];
      assert (a + b)[..|a + b| - 1] == a + b';
      CountsAdd(a, b', provider);
    }
  }

  lemma {:induction false} PreferredIsTotal(p: seq<nat>, q: seq<nat>)
    requires |p| == |q|
    ensures p == q || Preferred(p, q) || Preferred(q, p)
  {
    if p == [] {
    } else {
      PreferredIsTotal(p[1..], q[1..]);
      assert p == [p[0]] + p[1..] && q == [q[0]] + q[1..];
    }
  }

  // ---------------------------------------------------------------- pruning loses nothing

  /** No admissible completion of `prefix` gives the next seat its `k`-th preference. */
  ghost predicate HopelessAt(ranked: seq<seq<Candidate>>, policy: Policy, prefix: seq<Candidate>, k: nat)
    requires ranked != []
  {
    forall r | IsPicks(ranked, r) && r[0] == k :: !Admissible(prefix + Seated(ranked, r), policy)
  }

  lemma SeatedFrom(ranked: seq<seq<Candidate>>, prefix: seq<Candidate>, r: seq<nat>)
    requires ranked != [] && IsPicks(ranked, r)
    ensures IsPicks(ranked[1..], r[1..])
    ensures prefix + Seated(ranked, r) == (prefix + [ranked[0][r[0]]]) + Seated(ranked[1..], r[1..])
  {
  }

  lemma ReuseIsHopeless(ranked: seq<seq<Candidate>>, policy: Policy, prefix: seq<Candidate>, k: nat)
    requires ranked != [] && k < |ranked[0]|
    requires exists d | d in prefix :: d.modelId == ranked[0][k].modelId
    ensures HopelessAt(ranked, policy, prefix, k)
  {
    var i :| 0 <= i < |prefix| && prefix[i].modelId == ranked[0][k].modelId;
    forall r | IsPicks(ranked, r) && r[0] == k ensures !UniqueModels(prefix + Seated(ranked, r)) {
      var team := prefix + Seated(ranked, r);
      assert ModelOf()(team[i]) == ModelOf()(team[|prefix|]);
    }
  }

  lemma FullProviderIsHopeless(ranked: seq<seq<Candidate>>, policy: Policy, prefix: seq<Candidate>, k: nat)
    requires ranked != [] && k < |ranked[0]|
    requires SeatsOf(prefix, ranked[0][k].provider) >= policy.maxPerProvider
    ensures HopelessAt(ranked, policy, prefix, k)
  {
    var c := ranked[0][k];
    forall r | IsPicks(ranked, r) && r[0] == k
      ensures !WithinCap(prefix + Seated(ranked, r), policy.maxPerProvider)
    {
      var rest := Seated(ranked[1..], r[1..]);
      SeatedFrom(ranked, prefix, r);
      CountsAdd(prefix + [c], rest, c.provider);
      CountsAdd(prefix, [c], c.provider);
      assert (prefix + Seated(ranked, r))[|prefix|] == c;
    }
  }

  lemma TooFewOpenIsHopeless(ranked: seq<seq<Candidate>>, policy: Policy, prefix: seq<Candidate>, k: nat)
    requires ranked != [] && k < |ranked[0]|
    requires OpenSeats(prefix + [ranked[0][k]]) + |ranked| - 1 < policy.minOpenWeight
    ensures HopelessAt(ranked, policy, prefix, k)
  {
    forall r | IsPicks(ranked, r) && r[0] == k
      ensures OpenSeats(prefix + Seated(ranked, r)) < policy.minOpenWeight
    {
      SeatedFrom(ranked, prefix, r);
      CountsAdd(prefix + [ranked[0][k]], Seated(ranked[1..], r[1..]), "");
    }
  }

  lemma FailedBranchIsHopeless(ranked: seq<seq<Candidate>>, policy: Policy, prefix: seq<Candidate>, k: nat)
    requires ranked != [] && k < |ranked[0]|
    requires NoCompletion(ranked[1..], policy, prefix + [ranked[0][k]])
    ensures HopelessAt(ranked, policy, prefix, k)
  {
    forall r | IsPicks(ranked, r) && r[0] == k ensures !Admissible(prefix + Seated(ranked, r), policy) {
      SeatedFrom(ranked, prefix, r);
    }
  }

  lemma LaterIsPreferredInTail(k: nat, tail: seq<nat>, r: seq<nat>)
    requires |r| == |tail| + 1 && Preferred(r, [k] + tail) && r[0] >= k
    ensures r[0] == k && Preferred(r[1..], tail)
  {
    assert ([k] + tail)[0] == k && ([k] + tail)[1..] == tail;
  }

  /** Anything preferred to the first completion of the first branch that has one is hopeless. */
  lemma NothingPreferred(ranked: seq<seq<Candidate>>, policy: Policy, prefix: seq<Candidate>,
                         k: nat, tail: seq<nat>, r: seq<nat>)
    requires ranked != [] && k < |ranked[0]| && |tail| + 1 == |ranked|
    requires forall j: nat | j < k :: HopelessAt(ranked, policy, prefix, j)
    requires FirstCompletion(ranked[1..], policy, prefix + [ranked[0][k]], tail)
    requires IsPicks(ranked, r) && Preferred(r, [k] + tail)
    ensures !Admissible(prefix + Seated(ranked, r), policy)
  {
    if r[0] < k {
      assert HopelessAt(ranked, policy, prefix, r[0]);
    } else {
      LaterIsPreferredInTail(k, tail, r);
      SeatedFrom(ranked, prefix, r);
      assert !Admissible((prefix + [ranked[0][k]]) + Seated(ranked[1..], r[1..]), policy);
    }
  }

  lemma FirstBranchIsFirst(ranked: seq<seq<Candidate>>, policy: Policy, prefix: seq<Candidate>, k: nat, tail: seq<nat>)
    requires ranked != [] && k < |ranked[0]|
    requires forall j: nat | j < k :: HopelessAt(ranked, policy, prefix, j)
    requires FirstCompletion(ranked[1..], policy, prefix + [ranked[0][k]], tail)
    ensures FirstCompletion(ranked, policy, prefix, [k] + tail)
    ensures Seated(ranked, [k] + tail) == [ranked[0][k]] + Seated(ranked[1..], tail)
  {
    var picks := [k] + tail;
    assert picks[1..] == tail;
    assert IsPicks(ranked, picks);
    SeatedFrom(ranked, prefix, picks);
    forall r | IsPicks(ranked, r) && Preferred(r, picks) ensures !Admissible(prefix + Seated(ranked, r), policy) {
      NothingPreferred(ranked, policy, prefix, k, tail, r);
    }
  }

  lemma UniqueExtends(team: seq<Candidate>, c: Candidate)
    requires UniqueModels(team) && forall d | d in team :: d.modelId != c.modelId
    ensures UniqueModels(team + [c])
  {
    forall i, j | 0 <= i < j < |team + [c]| ensures ModelOf()((team + [c])[i]) != ModelOf()((team + [c])[j]) {
      assert (team + [c])[i] == team[i];
      if j < |team| {
        assert ModelOf()(team[i]) != ModelOf()(team[j]);
      }
    }
  }

  // ---------------------------------------------------------------- the search

  function Models(prefix: seq<Candidate>): set<string> {
    if prefix == [] then {} else Models(prefix[..|prefix| - 1]) + {prefix[|prefix| - 1].modelId}
  }

  function Counts(prefix: seq<Candidate>): map<string, int> {
    if prefix == [] then map[]
    else
      var counts, last := Counts(prefix[..|prefix| - 1]), prefix[|prefix| - 1].provider;
      counts[last := GetOrZero(counts, last) + 1]
  }

  /** The accumulators the search passes down describe the seats filled so far. */
  ghost predicate Tracks(prefix: seq<Candidate>, used: set<string>, counts: map<string, int>, openCount: int) {
    used == Models(prefix) && counts == Counts(prefix) && openCount == OpenSeats(prefix)
  }

  lemma {:induction false} ModelsAreTheirs(prefix: seq<Candidate>, id: string)
    ensures id in Models(prefix) <==> exists c | c in prefix :: c.modelId == id
  {
    if prefix == [] {
    } else {
      var init, last := prefix[..|prefix| - 1], prefix[|prefix| - 1];
      assert prefix == init + [last];
      ModelsAreTheirs(init, id);
    }
  }

  lemma {:induction false} CountsAreSeats(prefix: seq<Candidate>, provider: string)
    ensures GetOrZero(Counts(prefix), provider) == SeatsOf(prefix, provider)
  {
    if prefix == [] {
    } else {
      CountsAreSeats(prefix[..|prefix| - 1], provider);
    }
  }

  lemma TracksExtends(prefix: seq<Candidate>, used: set<string>, counts: map<string, int>, openCount: int, c: Candidate)
    requires Tracks(prefix, used, counts, openCount)
    ensures Tracks(prefix + [c], used + {c.modelId}, counts[c.provider := GetOrZero(counts, c.provider) + 1],
                   openCount + (if c.openWeight then 1 else 0))
  {
    assert (prefix + [c])[..|prefix|] == prefix;
  }

  lemma PrefixExtends(prefix: seq<Candidate>, c: Candidate, cap: int)
    requires UniqueModels(prefix) && WithinCap(prefix, cap)
    requires forall d | d in prefix :: d.modelId != c.modelId
    requires SeatsOf(prefix, c.provider) < cap
    ensures UniqueModels(prefix + [c]) && WithinCap(prefix + [c], cap)
  {
    var team := prefix + [c];
    forall i | 0 <= i < |team| ensures SeatsOf(team, team[i].provider) <= cap {
      CountsAdd(prefix, [c], team[i].provider);
      if i < |prefix| && prefix[i].provider != c.provider {
        assert SeatsOf([c], team[i].provider) == 0;
      }
    }
    UniqueExtends(prefix, c);
  }

  /** The three tests after which `search` tries the next preference. */
  predicate Skips(c: Candidate, policy: Policy, used: set<string>, counts: map<string, int>, openCount: int,
                  remainingAfter: int)
  {
    || c.modelId in used
    || GetOrZero(counts, c.provider) >= policy.maxPerProvider
    || openCount + (if c.openWeight then 1 else 0) + remainingAfter < policy.minOpenWeight
  }

  lemma SkippedIsHopeless(ranked: seq<seq<Candidate>>, policy: Policy, used: set<string>, counts: map<string, int>,
                          openCount: int, prefix: seq<Candidate>, k: nat)
    requires ranked != [] && k < |ranked[0]| && Tracks(prefix, used, counts, openCount)
    requires Skips(ranked[0][k], policy, used, counts, openCount, |ranked| - 1)
    ensures HopelessAt(ranked, policy, prefix, k)
  {
    var c := ranked[0][k];
    ModelsAreTheirs(prefix, c.modelId);
    CountsAreSeats(prefix, c.provider);
    if c.modelId in used {
      ReuseIsHopeless(ranked, policy, prefix, k);
    } else if GetOrZero(counts, c.provider) >= policy.maxPerProvider {
      FullProviderIsHopeless(ranked, policy, prefix, k);
    } else {
      TracksExtends(prefix, used, counts, openCount, c);
      TooFewOpenIsHopeless(ranked, policy, prefix, k);
    }
  }

  lemma EnteredKeepsTrack(policy: Policy, used: set<string>, counts: map<string, int>, openCount: int,
                          prefix: seq<Candidate>, c: Candidate, remainingAfter: int)
    requires UniqueModels(prefix) && WithinCap(prefix, policy.maxPerProvider) && Tracks(prefix, used, counts, openCount)
    requires !Skips(c, policy, used, counts, openCount, remainingAfter)
    ensures UniqueModels(prefix + [c]) && WithinCap(prefix + [c], policy.maxPerProvider)
    ensures Tracks(prefix + [c], used + {c.modelId}, counts[c.provider := GetOrZero(counts, c.provider) + 1],
                   openCount + (if c.openWeight then 1 else 0))
  {
    ModelsAreTheirs(prefix, c.modelId);
    CountsAreSeats(prefix, c.provider);
    PrefixExtends(prefix, c, policy.maxPerProvider);
    TracksExtends(prefix, used, counts, openCount, c);
  }

  /** What a call of `search` with `prefix` already seated answers for the seats left. */
  ghost predicate Finds(ranked: seq<seq<Candidate>>, policy: Policy,
                        prefix: seq<Candidate>, tail: Option<seq<Candidate>>) {
    match tail
    case None => NoCompletion(ranked, policy, prefix)
    case Some(team) => exists picks :: FirstCompletion(ranked, policy, prefix, picks) && team == Seated(ranked, picks)
  }

  ghost predicate HopelessBefore(ranked: seq<seq<Candidate>>, policy: Policy, prefix: seq<Candidate>, k: nat)
    requires ranked != []
  {
    forall j: nat | j < k :: HopelessAt(ranked, policy, prefix, j)
  }

  lemma EverySeatFilled(policy: Policy, prefix: seq<Candidate>)
    requires UniqueModels(prefix) && WithinCap(prefix, policy.maxPerProvider)
    ensures Finds([], policy, prefix, if OpenSeats(prefix) >= policy.minOpenWeight then Some([]) else None)
  {
    assert prefix + [] == prefix;
    assert forall r | IsPicks([], r) :: r == [];
    if OpenSeats(prefix) >= policy.minOpenWeight {
      assert FirstCompletion([], policy, prefix, []);
    }
  }

  lemma EveryBranchHopeless(ranked: seq<seq<Candidate>>, policy: Policy, prefix: seq<Candidate>)
    requires ranked != [] && HopelessBefore(ranked, policy, prefix, |ranked[0]|)
    ensures NoCompletion(ranked, policy, prefix)
  {
    forall r | IsPicks(ranked, r) ensures !Admissible(prefix + Seated(ranked, r), policy) {
      assert HopelessAt(ranked, policy, prefix, r[0]);
    }
  }

  lemma BranchAnswers(ranked: seq<seq<Candidate>>, policy: Policy, prefix: seq<Candidate>, k: nat,
                      tail: Option<seq<Candidate>>)
    requires ranked != [] && k < |ranked[0]| && HopelessBefore(ranked, policy, prefix, k)
    requires Finds(ranked[1..], policy, prefix + [ranked[0][k]], tail)
    ensures tail.Some? ==> Finds(ranked, policy, prefix, Some([ranked[0][k]] + tail.value))
    ensures tail.None? ==> HopelessBefore(ranked, policy, prefix, k + 1)
  {
    if tail.Some? {
      var picks :| && FirstCompletion(ranked[1..], policy, prefix + [ranked[0][k]], picks)
                   && tail.value == Seated(ranked[1..], picks);
      FirstBranchIsFirst(ranked, policy, prefix, k, picks);
    } else {
      FailedBranchIsHopeless(ranked, policy, prefix, k);
    }
  }

  /** The nested `search`: seat `index`, `index + 1`, … in turn, each by preference,
      skipping a used model, a full provider, and a choice after which the open-weight
      minimum is out of reach. */
  method Search(ranked: seq<seq<Candidate>>, policy: Policy, index: nat, used: set<string>,
                counts: map<string, int>, openCount: int, ghost prefix: seq<Candidate>)
    returns (tail: Option<seq<Candidate>>)
    requires index <= |ranked| && |prefix| == index
    requires UniqueModels(prefix) && WithinCap(prefix, policy.maxPerProvider)
    requires Tracks(prefix, used, counts, openCount)
    ensures Finds(ranked[index..], policy, prefix, tail)
    decreases |ranked| - index
  {
    ghost var rest := ranked[index..];
    if index == |ranked| {
      assert rest == [];
      EverySeatFilled(policy, prefix);
      return if openCount >= policy.minOpenWeight then Some([]) else None;
    }
    var remainingAfter := |ranked| - index - 1;
    assert rest[0] == ranked[index] && rest[1..] == ranked[index + 1..];
    for k := 0 to |ranked[index]|
      invariant HopelessBefore(rest, policy, prefix, k)
    {
      var c := ranked[index][k];
      if Skips(c, policy, used, counts, openCount, remainingAfter) {
        SkippedIsHopeless(rest, policy, used, counts, openCount, prefix, k);
        continue;
      }
      EnteredKeepsTrack(policy, used, counts, openCount, prefix, c, remainingAfter);
      tail := Search(ranked, policy, index + 1, used + {c.modelId},
                     counts[c.provider := GetOrZero(counts, c.provider) + 1],
                     openCount + (if c.openWeight then 1 else 0), prefix + [c]);
      BranchAnswers(rest, policy, prefix, k, tail);
      if tail.Some? {
        return Some([c] + tail.value);
      }
    }
    EveryBranchHopeless(rest, policy, prefix);
    tail := None;
  }

  // ---------------------------------------------------------------- qualification

  predicate Qualifies(c: Candidate, policy: Policy) {
    && c.security >= policy.minSecurity
    && c.calibration >= policy.minCalibration
    && c.reliability >= policy.minReliability
  }

  function Qualifying(candidates: seq<Candidate>, policy: Policy): (r: seq<Candidate>)
    ensures forall c :: c in r <==> c in candidates && Qualifies(c, policy)
  {
    if candidates == [] then []
    else
      var init, last := candidates[..|candidates| - 1], candidates[|candidates| - 1];
      assert candidates == init + [last];
      Qualifying(init, policy) + (if Qualifies(last, policy) then [last] else [])
  }

  lemma {:induction false} QualifyingCounts(candidates: seq<Candidate>, policy: Policy, c: Candidate)
    ensures multiset(Qualifying(candidates, policy))[c] == if Qualifies(c, policy) then multiset(candidates)[c] else 0
  {
    if candidates == [] {
    } else {
      var init, last := candidates[..|candidates| - 1], candidates[|candidates| - 1];
      assert candidates == init + [last];
      QualifyingCounts(init, policy, c);
    }
  }

  lemma {:induction false} QualifyingKeepsUnique(candidates: seq<Candidate>, policy: Policy)
    requires UniqueModels(candidates)
    ensures UniqueModels(Qualifying(candidates, policy))
  {
    if candidates == [] {
    } else {
      var init, last := candidates[..|candidates| - 1], candidates[|candidates| - 1];
      QualifyingKeepsUnique(init, policy);
      var q := Qualifying(init, policy);
      forall i | 0 <= i < |q| ensures ModelOf()(q[i]) != ModelOf()(last) {
        assert q[i] in init;
        var k :| 0 <= k < |init| && init[k] == q[i];
        assert ModelOf()(candidates[k]) != ModelOf()(candidates[|candidates| - 1]);
      }
    }
  }

  /** The qualified candidates, best baseline first. */
  function Pool(candidates: seq<Candidate>, policy: Policy): seq<Candidate> {
    Sort(BaselineOrder(), Qualifying(candidates, policy))
  }

  method QualifiedCandidates(candidates: seq<Candidate>, policy: Policy) returns (pool: Option<seq<Candidate>>)
    ensures pool.None? <==> !UniqueModels(candidates)
    ensures pool.Some? ==> pool.value == Pool(candidates, policy)
  {
    var seen: set<string> := {};
    var qualified: seq<Candidate> := [];
    for i := 0 to |candidates|
      invariant seen == set j | 0 <= j < i :: candidates[j].modelId
      invariant UniqueModels(candidates[..i])
      invariant qualified == Qualifying(candidates[..i], policy)
    {
      var c := candidates[i];
      if c.modelId in seen {
        ghost var j :| 0 <= j < i && candidates[j].modelId == c.modelId;
        assert ModelOf()(candidates[j]) == ModelOf()(candidates[i]);
        return None;
      }
      assert candidates[..i + 1][..i] == candidates[..i];
      UniqueExtends(candidates[..i], c);
      assert candidates[..i + 1] == candidates[..i] + [c];
      seen := seen + {c.modelId};
      if Qualifies(c, policy) {
        qualified := qualified + [c];
      }
    }
    assert candidates[..|candidates|] == candidates;
    pool := Some(Sort(BaselineOrder(), qualified));
  }

  // ---------------------------------------------------------------- the roster

  function Rankings(pool: seq<Candidate>): (ranked: seq<seq<Candidate>>)
    ensures |ranked| == |SEATS|
    ensures forall i | 0 <= i < |SEATS| :: ranked[i] == Sort(SeatOrder(SEATS[i]), pool)
  {
    seq(|SEATS|, i requires 0 <= i < |SEATS| => Sort(SeatOrder(SEATS[i]), pool))
  }

  function Providers(team: seq<Candidate>): set<string> {
    set c | c in team :: c.provider
  }

  function Assign(team: seq<Candidate>): (r: seq<Assignment>)
    requires |team| == |SEATS|
    ensures |r| == |team|
    ensures forall i | 0 <= i < |team| :: r[i] == Assignment(SEATS[i], team[i].modelId, team[i].provider)
  {
    seq(|team|, i requires 0 <= i < |team| => Assignment(SEATS[i], team[i].modelId, team[i].provider))
  }

  /** `assignments` seats the first admissible choice of the preference lists. */
  ghost predicate SeatsFirst(ranked: seq<seq<Candidate>>, policy: Policy, assignments: seq<Assignment>)
    requires |ranked| == |SEATS|
  {
    exists picks :: FirstCompletion(ranked, policy, [], picks) && assignments == Assign(Seated(ranked, picks))
  }

  /** The complete meaning of a selection, in the order the source tests things. */
  ghost predicate Answers(candidates: seq<Candidate>, policy: Policy, out: Outcome) {
    var pool := Pool(candidates, policy);
    if policy.maxPerProvider > 2 then out == Refused(CeilingExceeded)
    else if !UniqueModels(candidates) then out == Refused(DuplicateModel)
    else if |pool| < |SEATS| then out == Refused(TooFewQualified)
    else if |Providers(pool)| < policy.minProviders then out == Refused(ProviderDiversity)
    else if OpenSeats(pool) < policy.minOpenWeight then out == Refused(OpenWeightShortage)
    else if NoCompletion(Rankings(pool), policy, []) then out == Refused(NoRoster)
    else out.Selected? && SeatsFirst(Rankings(pool), policy, out.assignments)
  }

  function ProviderSeats(roster: seq<Assignment>, provider: string): nat {
    if roster == [] then 0
    else ProviderSeats(roster[..|roster| - 1], provider) + (if roster[|roster| - 1].provider == provider then 1 else 0)
  }

  /** `validate_roster`, as a check that answers instead of raising. */
  method ValidateRoster(roster: seq<Assignment>) returns (ok: bool)
    ensures ok <==> ValidRoster(roster)
  {
    if |roster| != |SEATS| || (set a | a in roster :: a.seat) != (set s | s in SEATS) {
      return false;
    }
    if exists i, j | 0 <= i < j < |roster| :: roster[i].modelId == roster[j].modelId {
      return false;
    }
    var counts := TallyProviders(roster);
    ok := counts.Some? && forall p | p in counts.value :: counts.value[p] <= 2;
  }

  method TallyProviders(roster: seq<Assignment>) returns (tally: Option<map<string, int>>)
    ensures tally.Some? <==> forall i | 0 <= i < |roster| :: roster[i].modelId != "" && roster[i].provider != ""
    ensures tally.Some? ==> forall i | 0 <= i < |roster| ::
      var p := roster[i].provider;
      p in tally.value && tally.value[p] == ProviderSeats(roster, p)
    ensures tally.Some? ==> forall p | p in tally.value :: exists i | 0 <= i < |roster| :: roster[i].provider == p
  {
    var counts: map<string, int> := map[];
    for i := 0 to |roster|
      invariant forall k | 0 <= k < i :: roster[k].modelId != "" && roster[k].provider != ""
      invariant forall p :: GetOrZero(counts, p) == ProviderSeats(roster[..i], p)
      invariant forall k | 0 <= k < i :: roster[k].provider in counts
      invariant forall p | p in counts :: exists k | 0 <= k < i :: roster[k].provider == p
    {
      var a := roster[i];
      if a.modelId == "" || a.provider == "" {
        return None;
      }
      assert roster[..i + 1][..i] == roster[..i];
      counts := counts[a.provider := GetOrZero(counts, a.provider) + 1];
    }
    assert roster[..|roster|] == roster;
    forall i | 0 <= i < |roster| ensures counts[roster[i].provider] == ProviderSeats(roster, roster[i].provider) {
      assert GetOrZero(counts, roster[i].provider) == ProviderSeats(roster, roster[i].provider);
    }
    tally := Some(counts);
  }

  lemma {:induction false} AssignedSeatCounts(team: seq<Candidate>, roster: seq<Assignment>, provider: string)
    requires |team| == |roster| && forall i | 0 <= i < |team| :: roster[i].provider == team[i].provider
    ensures ProviderSeats(roster, provider) == SeatsOf(team, provider)
  {
    if team == [] {
    } else {
      AssignedSeatCounts(team[..|team| - 1], roster[..|roster| - 1], provider);
    }
  }

  ghost predicate ValidRoster(roster: seq<Assignment>) {
    && |roster| == |SEATS|
    && (set a | a in roster :: a.seat) == (set s | s in SEATS)
    && (forall i, j | 0 <= i < j < |roster| :: roster[i].modelId != roster[j].modelId)
    && (forall i | 0 <= i < |roster| :: roster[i].modelId != "" && roster[i].provider != "")
    && (forall i | 0 <= i < |roster| :: ProviderSeats(roster, roster[i].provider) <= 2)
  }

  lemma AssignFillsEverySeat(team: seq<Candidate>)
    requires |team| == |SEATS|
    ensures (set a | a in Assign(team) :: a.seat) == (set s | s in SEATS)
  {
    var roster := Assign(team);
    forall s | s in SEATS ensures exists a | a in roster :: a.seat == s {
      var i :| 0 <= i < |SEATS| && SEATS[i] == s;
      assert roster[i] in roster;
    }
  }

  /** An admissible ten-seat team always passes the Council's own roster check. */
  lemma AdmissiblePassesValidation(team: seq<Candidate>, policy: Policy)
    requires |team| == |SEATS| && Admissible(team, policy) && policy.maxPerProvider <= 2
    requires forall c | c in team :: c.WellFormed()
    ensures ValidRoster(Assign(team))
  {
    var roster := Assign(team);
    AssignFillsEverySeat(team);
    forall i, j | 0 <= i < j < |roster| ensures roster[i].modelId != roster[j].modelId {
      assert ModelOf()(team[i]) != ModelOf()(team[j]);
    }
    forall i | 0 <= i < |roster| ensures ProviderSeats(roster, roster[i].provider) <= 2 {
      AssignedSeatCounts(team, roster, team[i].provider);
    }
    forall i | 0 <= i < |roster| ensures roster[i].modelId != "" && roster[i].provider != "" {
      assert team[i] in team;
    }
  }

  lemma SeatedFromPool(pool: seq<Candidate>, picks: seq<nat>)
    requires IsPicks(Rankings(pool), picks)
    ensures forall c | c in Seated(Rankings(pool), picks) :: c in pool
  {
    var team := Seated(Rankings(pool), picks);
    forall c | c in team ensures c in pool {
      var i :| 0 <= i < |team| && team[i] == c;
      assert c in Rankings(pool)[i];
    }
  }

  /** The search over the whole roster, from no seat filled. */
  method SearchRoster(ranked: seq<seq<Candidate>>, policy: Policy) returns (team: Option<seq<Candidate>>)
    ensures Finds(ranked, policy, [], team)
  {
    team := Search(ranked, policy, 0, {}, map[], 0, []);
    assert ranked[0..] == ranked;
  }

  /** A team the search finds passes the roster check and seats the first admissible choice. */
  lemma FoundTeamIsSeated(pool: seq<Candidate>, policy: Policy, team: seq<Candidate>)
    requires Finds(Rankings(pool), policy, [], Some(team)) && policy.maxPerProvider <= 2
    requires forall c | c in pool :: c.WellFormed()
    ensures |team| == |SEATS| && ValidRoster(Assign(team)) && SeatsFirst(Rankings(pool), policy, Assign(team))
    ensures !NoCompletion(Rankings(pool), policy, [])
  {
    var picks :| FirstCompletion(Rankings(pool), policy, [], picks) && team == Seated(Rankings(pool), picks);
    assert [] + team == team;
    SeatedFromPool(pool, picks);
    AdmissiblePassesValidation(team, policy);
  }

  method SelectRoster(candidates: seq<Candidate>, policy: Policy) returns (out: Outcome)
    requires forall c | c in candidates :: c.WellFormed()
    ensures Answers(candidates, policy, out)
  {
    if policy.maxPerProvider > 2 {
      return Refused(CeilingExceeded);
    }
    var qualified := QualifiedCandidates(candidates, policy);
    if qualified.None? {
      return Refused(DuplicateModel);
    }
    var pool := qualified.value;
    if |pool| < |SEATS| {
      return Refused(TooFewQualified);
    }
    if |Providers(pool)| < policy.minProviders {
      return Refused(ProviderDiversity);
    }
    if OpenSeats(pool) < policy.minOpenWeight {
      return Refused(OpenWeightShortage);
    }
    var ranked := Rankings(pool);
    var selected := SearchRoster(ranked, policy);
    if selected.None? {
      return Refused(NoRoster);
    }
    var team := selected.value;
    FoundTeamIsSeated(pool, policy, team);
    var assignments := Assign(team);
    var valid := ValidateRoster(assignments);
    assert valid;
    out := Selected(assignments);
  }

  // ---------------------------------------------------------------- what follows for every selection

  lemma {:induction false} CapTimesProviders(team: seq<Candidate>, providers: set<string>, cap: int)
    requires forall c | c in team :: c.provider in providers
    requires forall p | p in providers :: SeatsOf(team, p) <= cap
    ensures |team| <= cap * |providers|
    decreases providers
  {
    if team == [] {
      if providers != {} {
        var p :| p in providers;
        assert 0 <= cap;
      }
    } else {
      assert team[0] in team;
      var p := team[0].provider;
      var others := Without(team, p);
      WithoutCounts(team, p);
      forall q | q in providers - {p} ensures SeatsOf(others, q) <= cap {
        WithoutKeeps(team, p, q);
      }
      CapTimesProviders(others, providers - {p}, cap);
      assert |providers| == |providers - {p}| + 1;
      OneMore(cap, |providers - {p}|);
    }
  }

  lemma OneMore(cap: int, n: int)
    ensures cap * (n + 1) == cap * n + cap
  {
  }

  function Without(team: seq<Candidate>, p: string): (r: seq<Candidate>)
    ensures forall c | c in r :: c in team && c.provider != p
  {
    if team == [] then []
    else
      var last := team[|team| - 1];
      Without(team[..|team| - 1], p) + (if last.provider != p then [last] else [])
  }

  lemma {:induction false} WithoutCounts(team: seq<Candidate>, p: string)
    ensures |team| == |Without(team, p)| + SeatsOf(team, p)
  {
    if team == [] {
    } else {
      WithoutCounts(team[..|team| - 1], p);
    }
  }

  lemma {:induction false} WithoutKeeps(team: seq<Candidate>, p: string, q: string)
    requires p != q
    ensures SeatsOf(Without(team, p), q) == SeatsOf(team, q)
  {
    if team == [] {
    } else {
      var last := team[|team| - 1];
      WithoutKeeps(team[..|team| - 1], p, q);
      CountsAdd(Without(team[..|team| - 1], p), if last.provider != p then [last] else [], q);
    }
  }

  lemma SeatedHaveFiveProviders(ranked: seq<seq<Candidate>>, policy: Policy, assignments: seq<Assignment>)
    requires |ranked| == |SEATS| && policy.maxPerProvider <= 2
    requires SeatsFirst(ranked, policy, assignments)
    ensures |assignments| <= policy.maxPerProvider * |set a | a in assignments :: a.provider|
    ensures |set a | a in assignments :: a.provider| >= 5
  {
    var picks :| FirstCompletion(ranked, policy, [], picks) && assignments == Assign(Seated(ranked, picks));
    var team := Seated(ranked, picks);
    assert [] + team == team;
    AdmissibleWithinCap(team, policy);
    AssignKeepsProviders(team);
    TenNeedFive(policy.maxPerProvider, |Providers(team)|);
  }

  /** Seats never exceed cap times distinct providers, so a selected ten-seat roster has at
      least five providers — although the source tests diversity on the pool only. */
  lemma SelectedHasFiveProviders(candidates: seq<Candidate>, policy: Policy, out: Outcome)
    ensures Answers(candidates, policy, out) && out.Selected? ==>
              && |out.assignments| <= policy.maxPerProvider * |set a | a in out.assignments :: a.provider|
              && |set a | a in out.assignments :: a.provider| >= 5
  {
    if Answers(candidates, policy, out) && out.Selected? {
      SeatedHaveFiveProviders(Rankings(Pool(candidates, policy)), policy, out.assignments);
    }
  }

  lemma TenNeedFive(cap: int, providers: nat)
    requires 10 <= cap * providers && cap <= 2
    ensures providers >= 5
  {
    assert cap * providers <= 2 * providers;
  }

  lemma AdmissibleWithinCap(team: seq<Candidate>, policy: Policy)
    requires Admissible(team, policy)
    ensures |team| <= policy.maxPerProvider * |Providers(team)|
  {
    forall p | p in Providers(team) ensures SeatsOf(team, p) <= policy.maxPerProvider {
      var i :| 0 <= i < |team| && team[i].provider == p;
    }
    CapTimesProviders(team, Providers(team), policy.maxPerProvider);
  }

  lemma AssignKeepsProviders(team: seq<Candidate>)
    requires |team| == |SEATS|
    ensures (set a | a in Assign(team) :: a.provider) == Providers(team)
  {
    var roster := Assign(team);
    forall p | p in Providers(team) ensures exists a | a in roster :: a.provider == p {
      var i :| 0 <= i < |team| && team[i].provider == p;
      assert roster[i] in roster;
    }
    forall a | a in roster ensures a.provider in Providers(team) {
      var i :| 0 <= i < |roster| && roster[i] == a;
      assert team[i] in team;
    }
  }

  lemma FirstCompletionIsUnique(ranked: seq<seq<Candidate>>, policy: Policy, prefix: seq<Candidate>,
                                p: seq<nat>, q: seq<nat>)
    requires FirstCompletion(ranked, policy, prefix, p) && FirstCompletion(ranked, policy, prefix, q)
    ensures p == q
  {
    PreferredIsTotal(p, q);
  }

  lemma PoolIgnoresOrder(a: seq<Candidate>, b: seq<Candidate>, policy: Policy)
    requires multiset(a) == multiset(b) && UniqueModels(a)
    ensures Pool(a, policy) == Pool(b, policy)
  {
    var qa, qb := Qualifying(a, policy), Qualifying(b, policy);
    forall c ensures multiset(qa)[c] == multiset(qb)[c] {
      QualifyingCounts(a, policy, c);
      QualifyingCounts(b, policy, c);
    }
    QualifyingKeepsUnique(a, policy);
    BaselineOrderIsStrictWeak();
    BaselineOrderDecides(qa);
    assert multiset(qa) == multiset(qb);
    SortIgnoresOrder(BaselineOrder(), qa, qb);
  }

  lemma SameFirst(ranked: seq<seq<Candidate>>, policy: Policy, a: seq<Assignment>, b: seq<Assignment>)
    requires |ranked| == |SEATS|
    requires SeatsFirst(ranked, policy, a) && SeatsFirst(ranked, policy, b)
    ensures a == b
  {
    var p :| FirstCompletion(ranked, policy, [], p) && a == Assign(Seated(ranked, p));
    var q :| FirstCompletion(ranked, policy, [], q) && b == Assign(Seated(ranked, q));
    FirstCompletionIsUnique(ranked, policy, [], p, q);
  }

  /** The selection is a function of the set of candidates: the order in which they are
      listed never changes the roster, nor the reason for refusing one. */
  lemma SelectionIgnoresListing(a: seq<Candidate>, b: seq<Candidate>, policy: Policy, x: Outcome, y: Outcome)
    requires multiset(a) == multiset(b)
    requires Answers(a, policy, x) && Answers(b, policy, y)
    ensures x == y
  {
    if policy.maxPerProvider <= 2 {
      if UniqueModels(a) {
        DistinctKeysIgnoreOrder(ModelOf(), a, b);
        PoolIgnoresOrder(a, b, policy);
        if x.Selected? && y.Selected? {
          SameFirst(Rankings(Pool(a, policy)), policy, x.assignments, y.assignments);
        }
      } else if UniqueModels(b) {
        DistinctKeysIgnoreOrder(ModelOf(), b, a);
      }
    }
  }

  lemma RanksDecide(x: real, a: Candidate, y: real, b: Candidate)
    requires !RanksBefore(y, b, x, a)
    ensures x >= y && (x == y ==> a.provider == b.provider || StringLess(a.provider, b.provider))
    ensures x == y && a.provider == b.provider ==> a.modelId == b.modelId || StringLess(a.modelId, b.modelId)
  {
    StringLessTotal(a.provider, b.provider);
    StringLessTotal(a.modelId, b.modelId);
  }

  /** Each seat's preference list really is by falling role score, ties broken by provider
      and then model, and holds exactly the qualified candidates. */
  lemma RankingsAreByScore(candidates: seq<Candidate>, policy: Policy, s: nat, i: nat, j: nat)
    requires s < |SEATS|
    requires var pool := Pool(candidates, policy); i < j < |Rankings(pool)[s]|
    ensures multiset(Rankings(Pool(candidates, policy))[s]) == multiset(Qualifying(candidates, policy))
    ensures var list := Rankings(Pool(candidates, policy))[s]; var a, b := list[i], list[j];
      var x, y := a.ScoreFor(SEATS[s]), b.ScoreFor(SEATS[s]);
      && x >= y && (x == y ==> a.provider == b.provider || StringLess(a.provider, b.provider))
      && (x == y && a.provider == b.provider ==> a.modelId == b.modelId || StringLess(a.modelId, b.modelId))
  {
    var pool := Pool(candidates, policy);
    var list := Rankings(pool)[s];
    SeatOrderIsStrictWeak(SEATS[s]);
    SortSorts(SeatOrder(SEATS[s]), pool);
    assert !SeatOrder(SEATS[s])(list[j], list[i]);
    RanksDecide(list[i].ScoreFor(SEATS[s]), list[i], list[j].ScoreFor(SEATS[s]), list[j]);
  }

  // ---------------------------------------------------------------- what a score rewards

  /** The weights of a seat's list in the fields themselves. A candidate without a score for the
      seat is taken at its security score: 52 parts of that score, 14 of security, 7 each of
      calibration and reliability. An earlier candidate is never worth less. */
  lemma ListsFollowWeights(candidates: seq<Candidate>, policy: Policy, s: nat, i: nat, j: nat)
    requires s < |SEATS|
    requires i < j < |Rankings(Pool(candidates, policy))[s]|
    ensures var list := Rankings(Pool(candidates, policy))[s]; var a, b := list[i], list[j];
      var x := if SEATS[s] in a.roleScores then a.roleScores[SEATS[s]] else a.security;
      var y := if SEATS[s] in b.roleScores then b.roleScores[SEATS[s]] else b.security;
      52.0 * x + 14.0 * a.security + 7.0 * a.calibration + 7.0 * a.reliability
      >= 52.0 * y + 14.0 * b.security + 7.0 * b.calibration + 7.0 * b.reliability
  {
    RankingsAreByScore(candidates, policy, s, i, j);
    var list := Rankings(Pool(candidates, policy))[s];
    ScoreInFields(list[i], SEATS[s]);
    ScoreInFields(list[j], SEATS[s]);
  }

  lemma ScoreInFields(c: Candidate, seat: string)
    ensures var fitness := if seat in c.roleScores then c.roleScores[seat] else c.security;
      80.0 * c.ScoreFor(seat) == 52.0 * fitness + 14.0 * c.security + 7.0 * c.calibration + 7.0 * c.reliability
  {
  }

  /** Of two candidates alike in security, calibration and reliability, the one with the strictly
      higher score for the seat comes first. */
  lemma HigherRoleScorePrecedes(candidates: seq<Candidate>, policy: Policy, s: nat, i: nat, j: nat)
    requires s < |SEATS|
    requires var list := Rankings(Pool(candidates, policy))[s]; i < |list| && j < |list|
    requires var list := Rankings(Pool(candidates, policy))[s]; var a, b := list[i], list[j];
      && a.security == b.security && a.calibration == b.calibration && a.reliability == b.reliability
      && (if SEATS[s] in a.roleScores then a.roleScores[SEATS[s]] else a.security)
         > (if SEATS[s] in b.roleScores then b.roleScores[SEATS[s]] else b.security)
    ensures i < j
  {
    if j < i {
      ListsFollowWeights(candidates, policy, s, j, i);
    }
  }

  /** At equal scores for the seat, the one with the strictly higher baseline comes first. */
  lemma HigherBaselinePrecedes(candidates: seq<Candidate>, policy: Policy, s: nat, i: nat, j: nat)
    requires s < |SEATS|
    requires var list := Rankings(Pool(candidates, policy))[s]; i < |list| && j < |list|
    requires var list := Rankings(Pool(candidates, policy))[s]; var a, b := list[i], list[j];
      && 2.0 * a.security + a.calibration + a.reliability > 2.0 * b.security + b.calibration + b.reliability
      && (if SEATS[s] in a.roleScores then a.roleScores[SEATS[s]] else a.security)
         == (if SEATS[s] in b.roleScores then b.roleScores[SEATS[s]] else b.security)
    ensures i < j
  {
    if j < i {
      ListsFollowWeights(candidates, policy, s, j, i);
    }
  }

  /** Exactly the candidates that meet all three minimums are listed for a seat, each as often as
      it was submitted. */
  lemma ListedIffMinimumsMet(candidates: seq<Candidate>, policy: Policy, s: nat, c: Candidate)
    requires s < |SEATS|
    ensures multiset(Rankings(Pool(candidates, policy))[s])[c]
         == if c.security >= policy.minSecurity && c.calibration >= policy.minCalibration
               && c.reliability >= policy.minReliability
            then multiset(candidates)[c] else 0
  {
    QualifyingCounts(candidates, policy, c);
  }

  // ---------------------------------------------------------------- raising a role score

  /** The candidate at position `k`, with another score for one seat. */
  function Rescored(candidates: seq<Candidate>, k: nat, seat: string, score: real): seq<Candidate>
    requires k < |candidates|
  {
    candidates[k := candidates[k].(roleScores := candidates[k].roleScores[seat := score])]
  }

  lemma QualifyingUpdate(candidates: seq<Candidate>, after: seq<Candidate>, policy: Policy, c: Candidate, c': Candidate)
    requires multiset(after) == multiset(candidates) - multiset{c} + multiset{c'} && c in candidates
    requires Qualifies(c, policy) && Qualifies(c', policy)
    ensures multiset(Qualifying(after, policy)) == multiset(Qualifying(candidates, policy)) - multiset{c} + multiset{c'}
  {
    var q := multiset(Qualifying(candidates, policy));
    QualifyingCounts(candidates, policy, c);
    assert multiset(candidates)[c] > 0;
    forall x ensures multiset(Qualifying(after, policy))[x] == (q - multiset{c} + multiset{c'})[x] {
      QualifyingCounts(after, policy, x);
      QualifyingCounts(candidates, policy, x);
    }
  }

  lemma RescoredKeepsUnique(candidates: seq<Candidate>, k: nat, seat: string, score: real)
    requires k < |candidates| && UniqueModels(candidates)
    ensures UniqueModels(Rescored(candidates, k, seat, score))
  {
    var after := Rescored(candidates, k, seat, score);
    forall i, j | 0 <= i < j < |after| ensures ModelOf()(after[i]) != ModelOf()(after[j]) {
      assert ModelOf()(after[i]) == ModelOf()(candidates[i]) && ModelOf()(after[j]) == ModelOf()(candidates[j]);
    }
  }

  lemma SeatOrderDecides(seat: string, s: seq<Candidate>)
    requires DistinctKeys(ModelOf(), s)
    ensures Decides(SeatOrder(seat), s)
  {
    forall x, y | x in s && y in s ensures x == y || SeatOrder(seat)(x, y) || SeatOrder(seat)(y, x) {
      var i :| 0 <= i < |s| && s[i] == x;
      var j :| 0 <= j < |s| && s[j] == y;
      assert i != j ==> ModelOf()(s[i]) != ModelOf()(s[j]);
      RanksBeforeIsStrictWeak(x.ScoreFor(seat), x, y.ScoreFor(seat), y, x.ScoreFor(seat), x);
    }
  }

  lemma PoolKeepsUnique(candidates: seq<Candidate>, policy: Policy, s: nat)
    requires UniqueModels(candidates) && s < |SEATS|
    ensures UniqueModels(Pool(candidates, policy)) && UniqueModels(Rankings(Pool(candidates, policy))[s])
  {
    QualifyingKeepsUnique(candidates, policy);
    DistinctKeysIgnoreOrder(ModelOf(), Qualifying(candidates, policy), Pool(candidates, policy));
    DistinctKeysIgnoreOrder(ModelOf(), Pool(candidates, policy), Rankings(Pool(candidates, policy))[s]);
  }

  lemma ListIsSorted(candidates: seq<Candidate>, policy: Policy, s: nat)
    requires UniqueModels(candidates) && s < |SEATS|
    ensures var list := Rankings(Pool(candidates, policy))[s];
      Sorted(SeatOrder(SEATS[s]), list) && Decides(SeatOrder(SEATS[s]), list)
  {
    SeatOrderIsStrictWeak(SEATS[s]);
    SortSorts(SeatOrder(SEATS[s]), Pool(candidates, policy));
    PoolKeepsUnique(candidates, policy, s);
    SeatOrderDecides(SEATS[s], Rankings(Pool(candidates, policy))[s]);
  }

  lemma RescoredOutranks(c: Candidate, seat: string, score: real, x: Candidate)
    requires score >= if seat in c.roleScores then c.roleScores[seat] else c.security
    requires SeatOrder(seat)(c, x)
    ensures SeatOrder(seat)(c.(roleScores := c.roleScores[seat := score]), x)
  {
    assert c.(roleScores := c.roleScores[seat := score]).ScoreFor(seat) >= c.ScoreFor(seat);
  }

  lemma UniqueModelsDiffer(list: seq<Candidate>)
    requires UniqueModels(list)
    ensures forall x, y | 0 <= x < y < |list| :: list[x] != list[y]
  {
    forall x, y | 0 <= x < y < |list| ensures list[x] != list[y] {
      assert ModelOf()(list[x]) != ModelOf()(list[y]);
    }
  }

  lemma RescoredLists(candidates: seq<Candidate>, policy: Policy, k: nat, s: nat, score: real)
    requires k < |candidates| && s < |SEATS| && Qualifies(candidates[k], policy)
    ensures var after := Rescored(candidates, k, SEATS[s], score);
      multiset(Rankings(Pool(after, policy))[s])
      == multiset(Rankings(Pool(candidates, policy))[s]) - multiset{candidates[k]} + multiset{after[k]}
  {
    var after := Rescored(candidates, k, SEATS[s], score);
    assert multiset(after) == multiset(candidates) - multiset{candidates[k]} + multiset{after[k]};
    QualifyingUpdate(candidates, after, policy, candidates[k], after[k]);
  }

  /** Raising a candidate's score for a seat never moves it later in that seat's list. */
  lemma RaisingNeverMovesLater(candidates: seq<Candidate>, policy: Policy, k: nat, s: nat, score: real, i: nat, j: nat)
    requires k < |candidates| && UniqueModels(candidates) && s < |SEATS|
    requires var c := candidates[k];
      score >= if SEATS[s] in c.roleScores then c.roleScores[SEATS[s]] else c.security
    requires var list := Rankings(Pool(candidates, policy))[s]; i < |list| && list[i] == candidates[k]
    requires var after := Rescored(candidates, k, SEATS[s], score);
      var list := Rankings(Pool(after, policy))[s]; j < |list| && list[j] == after[k]
    ensures j <= i
  {
    var less, after := SeatOrder(SEATS[s]), Rescored(candidates, k, SEATS[s], score);
    var list, list' := Rankings(Pool(candidates, policy))[s], Rankings(Pool(after, policy))[s];
    assert list[i] in list && list[i] in Pool(candidates, policy);
    RescoredLists(candidates, policy, k, s, score);
    RescoredKeepsUnique(candidates, k, SEATS[s], score);
    ListIsSorted(candidates, policy, s);
    ListIsSorted(after, policy, s);
    SeatOrderIsStrictWeak(SEATS[s]);
    PoolKeepsUnique(candidates, policy, s);
    UniqueModelsDiffer(list);
    forall x | x in list && less(list[i], x) ensures less(list'[j], x) {
      RescoredOutranks(candidates[k], SEATS[s], score, x);
    }
    BetterKeepsPlace(less, list, i, list', j);
  }

  // ---------------------------------------------------------------- what a selection promises

  function IsFrom(provider: string): Candidate -> bool {
    (c: Candidate) => c.provider == provider
  }

  function IsOpen(): Candidate -> bool {
    (c: Candidate) => c.openWeight
  }

  /** The recursive counts are numbers of seats. */
  lemma {:induction false} SeatsAreCounted(team: seq<Candidate>, provider: string)
    ensures SeatsOf(team, provider) == |Places(team, IsFrom(provider))|
    ensures OpenSeats(team) == |Places(team, IsOpen())|
  {
    if team == [] {
    } else {
      SeatsAreCounted(team[..|team| - 1], provider);
      PlacesSnoc(team, IsFrom(provider));
      PlacesSnoc(team, IsOpen());
    }
  }

  lemma SameModelSameCandidate(candidates: seq<Candidate>, a: Candidate, b: Candidate)
    requires UniqueModels(candidates) && a in candidates && b in candidates && a.modelId == b.modelId
    ensures a == b
  {
    var i :| 0 <= i < |candidates| && candidates[i] == a;
    var j :| 0 <= j < |candidates| && candidates[j] == b;
    assert ModelOf()(candidates[i]) == ModelOf()(candidates[j]);
  }

  lemma SameTeam(candidates: seq<Candidate>, a: seq<Candidate>, b: seq<Candidate>)
    requires UniqueModels(candidates) && |a| == |SEATS| == |b| && Assign(a) == Assign(b)
    requires (forall c | c in a :: c in candidates) && (forall c | c in b :: c in candidates)
    ensures a == b
  {
    forall k | 0 <= k < |a| ensures a[k] == b[k] {
      assert Assign(a)[k].modelId == Assign(b)[k].modelId;
      SameModelSameCandidate(candidates, a[k], b[k]);
    }
  }

  lemma TeamFromCandidates(candidates: seq<Candidate>, policy: Policy, picks: seq<nat>)
    requires IsPicks(Rankings(Pool(candidates, policy)), picks)
    ensures forall c | c in Seated(Rankings(Pool(candidates, policy)), picks) :: c in candidates && Qualifies(c, policy)
  {
    SeatedFromPool(Pool(candidates, policy), picks);
  }

  lemma AdmissibleInNumbers(team: seq<Candidate>, policy: Policy)
    requires Admissible(team, policy)
    ensures forall i, j | 0 <= i < j < |team| :: team[i].modelId != team[j].modelId
    ensures |set i | 0 <= i < |team| && team[i].openWeight| >= policy.minOpenWeight
    ensures forall k | 0 <= k < |team| ::
      |set i | 0 <= i < |team| && team[i].provider == team[k].provider| <= policy.maxPerProvider
  {
    forall i, j | 0 <= i < j < |team| ensures team[i].modelId != team[j].modelId {
      assert ModelOf()(team[i]) != ModelOf()(team[j]);
    }
    SeatsAreCounted(team, "");
    assert (set i | 0 <= i < |team| && team[i].openWeight) == Places(team, IsOpen());
    forall k | 0 <= k < |team|
      ensures |set i | 0 <= i < |team| && team[i].provider == team[k].provider| <= policy.maxPerProvider
    {
      SeatsAreCounted(team, team[k].provider);
      assert (set i | 0 <= i < |team| && team[i].provider == team[k].provider)
          == Places(team, IsFrom(team[k].provider));
    }
  }

  lemma SelectedPicks(candidates: seq<Candidate>, policy: Policy, assignments: seq<Assignment>)
    returns (picks: seq<nat>)
    requires Answers(candidates, policy, Selected(assignments))
    ensures FirstCompletion(Rankings(Pool(candidates, policy)), policy, [], picks)
    ensures assignments == Assign(Seated(Rankings(Pool(candidates, policy)), picks))
    ensures UniqueModels(candidates)
  {
    var ranked := Rankings(Pool(candidates, policy));
    picks :| FirstCompletion(ranked, policy, [], picks) && assignments == Assign(Seated(ranked, picks));
  }

  /** The roster seats ten submitted candidates that meet the minimums, all of different models,
      enough of them open-weight and no more than the cap of any provider. */
  lemma SelectionMeetsEveryConstraint(candidates: seq<Candidate>, policy: Policy, assignments: seq<Assignment>)
    returns (team: seq<Candidate>)
    requires Answers(candidates, policy, Selected(assignments))
    ensures |team| == |SEATS| && assignments == Assign(team)
    ensures forall c | c in team ::
      && c in candidates && c.security >= policy.minSecurity
      && c.calibration >= policy.minCalibration && c.reliability >= policy.minReliability
    ensures forall i, j | 0 <= i < j < |team| :: team[i].modelId != team[j].modelId
    ensures |set i | 0 <= i < |team| && team[i].openWeight| >= policy.minOpenWeight
    ensures forall k | 0 <= k < |team| ::
      |set i | 0 <= i < |team| && team[i].provider == team[k].provider| <= policy.maxPerProvider
  {
    var picks := SelectedPicks(candidates, policy, assignments);
    team := Seated(Rankings(Pool(candidates, policy)), picks);
    assert [] + team == team;
    TeamFromCandidates(candidates, policy, picks);
    AdmissibleInNumbers(team, policy);
  }

  lemma PreferredAt(p: seq<nat>, s: nat, k: nat)
    requires s < |p| && k < p[s]
    ensures Preferred(p[s := k], p)
    decreases |p|
  {
    if s > 0 {
      assert p[s := k][1..] == p[1..][s - 1 := k];
      PreferredAt(p[1..], s - 1, k);
    }
  }

  lemma SeatedElsewhere(ranked: seq<seq<Candidate>>, picks: seq<nat>, s: nat, k: nat)
    requires IsPicks(ranked, picks) && s < |picks| && k < |ranked[s]|
    ensures IsPicks(ranked, picks[s := k])
    ensures Seated(ranked, picks[s := k]) == Seated(ranked, picks)[s := ranked[s][k]]
  {
  }

  lemma NonePreferred(ranked: seq<seq<Candidate>>, policy: Policy, picks: seq<nat>, r: seq<nat>)
    requires FirstCompletion(ranked, policy, [], picks) && IsPicks(ranked, r) && Preferred(r, picks)
    ensures !Admissible(Seated(ranked, r), policy)
  {
    assert [] + Seated(ranked, r) == Seated(ranked, r);
  }

  lemma PickedElsewhere(ranked: seq<seq<Candidate>>, policy: Policy, picks: seq<nat>, s: nat, k: nat)
    requires FirstCompletion(ranked, policy, [], picks) && s < |picks| && k < |ranked[s]|
    requires Admissible(Seated(ranked, picks)[s := ranked[s][k]], policy)
    ensures picks[s] <= k
  {
    SeatedElsewhere(ranked, picks, s, k);
    if k < picks[s] {
      PreferredAt(picks, s, k);
      NonePreferred(ranked, policy, picks, picks[s := k]);
    }
  }

  lemma EarlierIsWorthMore(candidates: seq<Candidate>, policy: Policy, s: nat, i: nat, k: nat)
    requires s < |SEATS| && i <= k < |Rankings(Pool(candidates, policy))[s]|
    ensures var list := Rankings(Pool(candidates, policy))[s];
      list[i].ScoreFor(SEATS[s]) >= list[k].ScoreFor(SEATS[s])
  {
    if i < k {
      RankingsAreByScore(candidates, policy, s, i, k);
    }
  }

  /** No seat would rather have someone else: any other qualified candidate that the rest of the
      selected team admits in that seat is worth no more there. */
  lemma NoSeatPrefersAnother(candidates: seq<Candidate>, policy: Policy, team: seq<Candidate>, s: nat, c: Candidate)
    requires |team| == |SEATS| && Answers(candidates, policy, Selected(Assign(team)))
    requires (forall d | d in team :: d in candidates) && s < |SEATS| && c in candidates
    requires c.security >= policy.minSecurity && c.calibration >= policy.minCalibration
    requires c.reliability >= policy.minReliability && Admissible(team[s := c], policy)
    ensures var a := team[s];
      var x := if SEATS[s] in a.roleScores then a.roleScores[SEATS[s]] else a.security;
      var y := if SEATS[s] in c.roleScores then c.roleScores[SEATS[s]] else c.security;
      52.0 * x + 14.0 * a.security + 7.0 * a.calibration + 7.0 * a.reliability
      >= 52.0 * y + 14.0 * c.security + 7.0 * c.calibration + 7.0 * c.reliability
  {
    var ranked := Rankings(Pool(candidates, policy));
    var picks := SelectedPicks(candidates, policy, Assign(team));
    TeamFromCandidates(candidates, policy, picks);
    SameTeam(candidates, team, Seated(ranked, picks));
    var k := ListedAt(candidates, policy, s, c);
    PickedElsewhere(ranked, policy, picks, s, k);
    EarlierIsWorthMore(candidates, policy, s, picks[s], k);
    ScoreInFields(team[s], SEATS[s]);
    ScoreInFields(c, SEATS[s]);
  }

  lemma ListedAt(candidates: seq<Candidate>, policy: Policy, s: nat, c: Candidate) returns (k: nat)
    requires s < |SEATS| && c in candidates && Qualifies(c, policy)
    ensures k < |Rankings(Pool(candidates, policy))[s]| && Rankings(Pool(candidates, policy))[s][k] == c
  {
    var list := Rankings(Pool(candidates, policy))[s];
    assert c in list;
    k :| 0 <= k < |list| && list[k] == c;
  }
}
