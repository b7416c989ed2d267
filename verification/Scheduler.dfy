/** Which providers may serve a job, and in what order
    (`coordinator/internal/scheduler/scheduler.go`), over one snapshot of the registry. */
module Scheduler {
  import opened Common
  import opened Sorting

  datatype Provider = Provider(
    publicKey: string, models: seq<string>, active: nat, draining: bool, trustTier: string,
    maxContext: int, hardwareClass: string,
    thermalState: string, charging: Option<bool>, batteryPct: Option<int>, memAvailable: int)
  {
    predicate Serves(model: string) {
      model in models
    }
  }

  datatype Requirements = Requirements(model: string, minTier: string, minContext: int, hwClass: string)

  datatype Refusal = NoProvider | TierUnmet | CapsUnmet

  datatype Outcome = Ranked(candidates: seq<Provider>) | Refused(why: Refusal)

  // ---------------------------------------------------------------- ranks

  function TierRank(tier: string): int {
    if tier == "confidential" then 2 else if tier == "device_attested" then 1 else 0
  }

  function ClassRank(hw: string): int {
    if hw == "CONFIDENTIAL_GPU" then 5
    else if hw == "XL" then 4
    else if hw == "LARGE" then 3
    else if hw == "MEDIUM" then 2
    else if hw == "SMALL" then 1
    else 0
  }

  function ThermalScore(state: string): int {
    if state == "nominal" || state == "" then 3
    else if state == "fair" then 2
    else if state == "serious" then 1
    else 0
  }

  function BatteryHeadroom(p: Provider): int {
    if p.charging.None? || p.charging.value then 100
    else p.batteryPct.GetOr(100)
  }

  /** What the ranking looks at. */
  datatype Merit = Merit(active: int, tier: int, cool: int, battery: int, memory: int)

  function MeritOf(p: Provider): Merit {
    Merit(p.active, TierRank(p.trustTier), ThermalScore(p.thermalState), BatteryHeadroom(p), p.memAvailable)
  }

  /** Less load, then a stronger tier, then cooler, more battery, more free memory. */
  predicate Outranks(a: Merit, b: Merit) {
    if a.active != b.active then a.active < b.active
    else if a.tier != b.tier then a.tier > b.tier
    else if a.cool != b.cool then a.cool > b.cool
    else if a.battery != b.battery then a.battery > b.battery
    else a.memory > b.memory
  }

  function Better(): (Provider, Provider) -> bool {
    (a: Provider, b: Provider) => Outranks(MeritOf(a), MeritOf(b))
  }

  lemma OutranksIsOrder(a: Merit, b: Merit, c: Merit)
    ensures !Outranks(a, a)
    ensures Outranks(a, b) && Outranks(b, c) ==> Outranks(a, c)
    ensures a == b || Outranks(a, b) || Outranks(b, a)
  {
  }

  lemma BetterIsStrictWeak()
    ensures StrictWeak(Better())
  {
    forall a: Provider, b: Provider, c: Provider
      ensures !Better()(a, a)
      ensures Better()(a, b) && Better()(b, c) ==> Better()(a, c)
      ensures Better()(a, c) ==> Better()(a, b) || Better()(b, c)
    {
      var x, y, z := MeritOf(a), MeritOf(b), MeritOf(c);
      OutranksIsOrder(x, y, z);
      OutranksIsOrder(y, x, z);
      OutranksIsOrder(x, z, y);
    }
  }

  // ---------------------------------------------------------------- who is eligible

  predicate Open(p: Provider, req: Requirements) {
    p.Serves(req.model) && !p.draining && TierRank(p.trustTier) >= TierRank(req.minTier)
  }

  predicate Fits(p: Provider, req: Requirements) {
    && Open(p, req)
    && (req.minContext > 0 && p.maxContext > 0 ==> p.maxContext >= req.minContext)
    && (ClassRank(req.hwClass) > 0 ==> ClassRank(p.hardwareClass) >= ClassRank(req.hwClass))
  }

  function Fitting(snapshot: seq<Provider>, req: Requirements): seq<Provider> {
    if snapshot == [] then []
    else
      var last := snapshot[|snapshot| - 1];
      Fitting(snapshot[..|snapshot| - 1], req) + (if Fits(last, req) then [last] else [])
  }

  /** Exactly the providers that fit, each as often as it is registered. */
  lemma {:induction false} FittingIsExact(snapshot: seq<Provider>, req: Requirements, p: Provider)
    ensures multiset(Fitting(snapshot, req))[p] == if Fits(p, req) then multiset(snapshot)[p] else 0
  {
    if snapshot == [] {
    } else {
      var init, last := snapshot[..|snapshot| - 1], snapshot[|snapshot| - 1];
      assert snapshot == init + [last];
      FittingIsExact(init, req, p);
    }
  }

  lemma FittingMembers(snapshot: seq<Provider>, req: Requirements, p: Provider)
    ensures p in Fitting(snapshot, req) <==> p in snapshot && Fits(p, req)
  {
    FittingIsExact(snapshot, req, p);
    assert p in Fitting(snapshot, req) <==> p in multiset(Fitting(snapshot, req));
    assert p in snapshot <==> p in multiset(snapshot);
  }

  /** Why nobody fits. A draining provider of the model counts for the first test only. */
  ghost function Reason(snapshot: seq<Provider>, req: Requirements): Refusal {
    if forall i | 0 <= i < |snapshot| :: !snapshot[i].Serves(req.model) then NoProvider
    else if TierRank(req.minTier) > 0 && forall i | 0 <= i < |snapshot| :: !Open(snapshot[i], req) then TierUnmet
    else CapsUnmet
  }

  /** The whole answer: the providers that fit, none ranked before a better one, or why there are none. */
  ghost predicate Answers(snapshot: seq<Provider>, req: Requirements, out: Outcome) {
    match out
    case Ranked(candidates) =>
      candidates != [] && multiset(candidates) == multiset(Fitting(snapshot, req)) && Sorted(Better(), candidates)
    case Refused(why) =>
      (forall p | p in snapshot :: !Fits(p, req)) && why == Reason(snapshot, req)
  }

  /** The filtering loop, with the two flags that explain an empty answer. */
  method Gather(snapshot: seq<Provider>, req: Requirements)
    returns (candidates: seq<Provider>, sawModel: bool, sawTier: bool)
    ensures candidates == Fitting(snapshot, req)
    ensures sawModel <==> exists i | 0 <= i < |snapshot| :: snapshot[i].Serves(req.model)
    ensures sawTier <==> exists i | 0 <= i < |snapshot| :: Open(snapshot[i], req)
  {
    var wantTier, wantClass := TierRank(req.minTier), ClassRank(req.hwClass);
    candidates, sawModel, sawTier := [], false, false;
    for i := 0 to |snapshot|
      invariant candidates == Fitting(snapshot[..i], req)
      invariant sawModel <==> exists k | 0 <= k < i :: snapshot[k].Serves(req.model)
      invariant sawTier <==> exists k | 0 <= k < i :: Open(snapshot[k], req)
    {
      var p := snapshot[i];
      assert snapshot[..i + 1][..i] == snapshot[..i];
      if !p.Serves(req.model) {
        continue;
      }
      sawModel := true;
      if p.draining {
        continue;
      }
      if TierRank(p.trustTier) < wantTier {
        continue;
      }
      sawTier := true;
      if req.minContext > 0 && p.maxContext > 0 && p.maxContext < req.minContext {
        continue;
      }
      if wantClass > 0 && ClassRank(p.hardwareClass) < wantClass {
        continue;
      }
      candidates := candidates + [p];
    }
    assert snapshot[..|snapshot|] == snapshot;
  }

  method Eligible(snapshot: seq<Provider>, req: Requirements) returns (out: Outcome)
    ensures Answers(snapshot, req, out)
  {
    var candidates, sawModel, sawTier := Gather(snapshot, req);
    if |candidates| == 0 {
      forall p | p in snapshot ensures !Fits(p, req) {
        FittingMembers(snapshot, req, p);
      }
      if !sawModel {
        return Refused(NoProvider);
      } else if TierRank(req.minTier) > 0 && !sawTier {
        return Refused(TierUnmet);
      }
      return Refused(CapsUnmet);
    }
    BetterIsStrictWeak();
    SortSorts(Better(), candidates);
    out := Ranked(Sort(Better(), candidates));
  }

  method Pick(snapshot: seq<Provider>, req: Requirements) returns (best: Option<Provider>, why: Refusal)
    ensures best.None? <==> forall p | p in snapshot :: !Fits(p, req)
    ensures best.None? ==> why == Reason(snapshot, req)
    ensures best.Some? ==> best.value in snapshot && Fits(best.value, req)
                           && forall p | p in snapshot && Fits(p, req) :: !Better()(p, best.value)
  {
    why := NoProvider;
    var out := Eligible(snapshot, req);
    match out
    case Refused(reason) =>
      best, why := None, reason;
    case Ranked(candidates) =>
      forall p | p in snapshot && Fits(p, req) ensures !Better()(p, candidates[0]) {
        HeadIsUnbeaten(snapshot, req, candidates, p);
      }
      HeadFits(snapshot, req, candidates);
      best := Some(candidates[0]);
  }

  lemma HeadFits(snapshot: seq<Provider>, req: Requirements, candidates: seq<Provider>)
    requires Answers(snapshot, req, Ranked(candidates))
    ensures candidates[0] in snapshot && Fits(candidates[0], req)
  {
    SameElements(candidates, Fitting(snapshot, req));
    FittingMembers(snapshot, req, candidates[0]);
  }

  /** No eligible provider beats the head of the list. */
  lemma HeadIsUnbeaten(snapshot: seq<Provider>, req: Requirements, candidates: seq<Provider>, p: Provider)
    requires Answers(snapshot, req, Ranked(candidates))
    requires p in snapshot && Fits(p, req)
    ensures !Better()(p, candidates[0])
  {
    SameElements(candidates, Fitting(snapshot, req));
    FittingMembers(snapshot, req, p);
    var i :| 0 <= i < |candidates| && candidates[i] == p;
    BetterIsStrictWeak();
  }

  // ---------------------------------------------------------------- what follows for every snapshot

  ghost predicate WithoutLoss(fewer: seq<Provider>, hard: Requirements, more: seq<Provider>, easy: Requirements) {
    forall p | p in fewer && Fits(p, hard) :: p in more && Fits(p, easy)
  }

  /** More providers, or weaker requirements, never turn an answer into a refusal and never
      make the provider picked a worse one. */
  lemma MoreChoiceNeverHurts(fewer: seq<Provider>, hard: Requirements, x: Outcome,
                             more: seq<Provider>, easy: Requirements, y: Outcome)
    requires WithoutLoss(fewer, hard, more, easy)
    requires Answers(fewer, hard, x) && Answers(more, easy, y)
    ensures x.Ranked? ==> y.Ranked? && !Better()(x.candidates[0], y.candidates[0])
  {
    if x.Ranked? {
      var p := x.candidates[0];
      HeadFits(fewer, hard, x.candidates);
      assert p in more && Fits(p, easy);
      if y.Ranked? {
        HeadIsUnbeaten(more, easy, y.candidates, p);
      }
    }
  }

  /** Requirements in which every demand is at least as high. */
  predicate Harder(hard: Requirements, easy: Requirements) {
    && hard.model == easy.model
    && TierRank(hard.minTier) >= TierRank(easy.minTier)
    && (easy.minContext > 0 ==> hard.minContext >= easy.minContext)
    && ClassRank(hard.hwClass) >= ClassRank(easy.hwClass)
  }

  lemma HarderLosesNothing(snapshot: seq<Provider>, hard: Requirements, easy: Requirements)
    requires Harder(hard, easy)
    ensures WithoutLoss(snapshot, hard, snapshot, easy)
  {
  }

  /** The registry's order shows only among equals: two orders of one snapshot are refused for
      the same reason, or give lists of the same providers whose heads have the same merit. */
  lemma SnapshotOrderIsImmaterial(a: seq<Provider>, b: seq<Provider>, req: Requirements, x: Outcome, y: Outcome)
    requires multiset(a) == multiset(b)
    requires Answers(a, req, x) && Answers(b, req, y)
    ensures x.Ranked? <==> y.Ranked?
    ensures x.Ranked? ==> multiset(x.candidates) == multiset(y.candidates)
    ensures x.Ranked? ==> MeritOf(x.candidates[0]) == MeritOf(y.candidates[0])
    ensures x.Refused? ==> x == y
  {
    SameElements(a, b);
    MoreChoiceNeverHurts(a, req, x, b, req, y);
    MoreChoiceNeverHurts(b, req, y, a, req, x);
    if x.Ranked? {
      forall p ensures multiset(Fitting(a, req))[p] == multiset(Fitting(b, req))[p] {
        FittingIsExact(a, req, p);
        FittingIsExact(b, req, p);
      }
      assert multiset(Fitting(a, req)) == multiset(Fitting(b, req));
      OutranksIsOrder(MeritOf(x.candidates[0]), MeritOf(y.candidates[0]), MeritOf(x.candidates[0]));
    } else {
      SameReason(a, b, req);
    }
  }

  lemma SameReason(a: seq<Provider>, b: seq<Provider>, req: Requirements)
    requires forall p :: p in a <==> p in b
    ensures Reason(a, req) == Reason(b, req)
  {
    assert forall i | 0 <= i < |a| :: a[i] in b;
    assert forall i | 0 <= i < |b| :: b[i] in a;
  }

  // ---------------------------------------------------------------- what the ranking prefers

  /** An eligible provider that no eligible one beats has the least load; among those with its load
      the strongest tier; among those the coolest; then the most battery; then the most free memory. */
  lemma UnbeatenIsBest(snapshot: seq<Provider>, req: Requirements, best: Provider, p: Provider)
    requires forall q | q in snapshot && Fits(q, req) :: !Better()(q, best)
    requires p in snapshot && Fits(p, req)
    ensures best.active <= p.active
    ensures best.active == p.active ==> TierRank(best.trustTier) >= TierRank(p.trustTier)
    ensures best.active == p.active && TierRank(best.trustTier) == TierRank(p.trustTier) ==>
      && ThermalScore(best.thermalState) >= ThermalScore(p.thermalState)
      && (ThermalScore(best.thermalState) == ThermalScore(p.thermalState) ==>
            && BatteryHeadroom(best) >= BatteryHeadroom(p)
            && (BatteryHeadroom(best) == BatteryHeadroom(p) ==> best.memAvailable >= p.memAvailable))
  {
    assert !Better()(p, best);
  }

  /** With equal load a confidential provider is never passed over for another tier, nor a
      device-attested one for a lower tier; nor, all else equal, a cool one for a hotter one or one
      on the mains for one on battery. */
  lemma PreferencesByName(snapshot: seq<Provider>, req: Requirements, best: Provider, p: Provider)
    requires forall q | q in snapshot && Fits(q, req) :: !Better()(q, best)
    requires p in snapshot && Fits(p, req) && best.active == p.active
    ensures p.trustTier == "confidential" ==> best.trustTier == "confidential"
    ensures p.trustTier == "device_attested" ==> best.trustTier in ["confidential", "device_attested"]
    ensures best.trustTier == p.trustTier ==>
      && (p.thermalState in ["nominal", ""] ==> best.thermalState in ["nominal", ""])
      && (p.thermalState == "fair" ==> best.thermalState in ["nominal", "", "fair"])
      && (p.thermalState == "serious" ==> best.thermalState in ["nominal", "", "fair", "serious"])
    ensures best.trustTier == p.trustTier && best.thermalState == p.thermalState ==>
      (p.charging == Some(true) || p.charging == None) && best.charging == Some(false) ==>
        best.batteryPct.GetOr(100) >= 100
  {
    UnbeatenIsBest(snapshot, req, best, p);
  }

  /** Who is listed, in the terms of the request. */
  lemma ListedIffMeets(snapshot: seq<Provider>, req: Requirements, candidates: seq<Provider>, p: Provider)
    requires Answers(snapshot, req, Ranked(candidates))
    ensures p in candidates <==>
      && p in snapshot && req.model in p.models && !p.draining
      && TierRank(p.trustTier) >= TierRank(req.minTier)
      && (req.minContext <= 0 || p.maxContext <= 0 || p.maxContext >= req.minContext)
      && ClassRank(p.hardwareClass) >= ClassRank(req.hwClass)
  {
    SameElements(candidates, Fitting(snapshot, req));
    FittingMembers(snapshot, req, p);
  }

  /** A demand for a tier or a class is met by name: only a confidential provider serves a request
      for that tier, and the classes are ordered by size. */
  lemma DemandsByName(snapshot: seq<Provider>, req: Requirements, candidates: seq<Provider>, p: Provider)
    requires Answers(snapshot, req, Ranked(candidates)) && p in candidates
    ensures req.minTier == "confidential" ==> p.trustTier == "confidential"
    ensures req.minTier == "device_attested" ==> p.trustTier in ["confidential", "device_attested"]
    ensures req.hwClass == "CONFIDENTIAL_GPU" ==> p.hardwareClass == "CONFIDENTIAL_GPU"
    ensures req.hwClass == "XL" ==> p.hardwareClass in ["XL", "CONFIDENTIAL_GPU"]
    ensures req.hwClass == "LARGE" ==> p.hardwareClass in ["LARGE", "XL", "CONFIDENTIAL_GPU"]
    ensures req.hwClass == "MEDIUM" ==> p.hardwareClass in ["MEDIUM", "LARGE", "XL", "CONFIDENTIAL_GPU"]
    ensures req.hwClass == "SMALL" ==> p.hardwareClass in ["SMALL", "MEDIUM", "LARGE", "XL", "CONFIDENTIAL_GPU"]
  {
    ListedIffMeets(snapshot, req, candidates, p);
  }

  // ---------------------------------------------------------------- what a refusal says

  /** The reason says what would help. Without a provider of the model nothing does; with none that
      meets the tier only a lower one does; otherwise asking for no context and no class does, if
      the tier was a real demand. */
  lemma ReasonSaysWhatHelps(snapshot: seq<Provider>, req: Requirements, why: Refusal, other: Requirements, out: Outcome)
    requires Answers(snapshot, req, Refused(why)) && Answers(snapshot, other, out) && other.model == req.model
    ensures why == NoProvider ==> out == Refused(NoProvider)
    ensures why == TierUnmet && TierRank(other.minTier) >= TierRank(req.minTier) ==> out == Refused(TierUnmet)
    ensures (why == CapsUnmet && TierRank(req.minTier) > 0 && other.minTier == req.minTier
             && other.minContext <= 0 && ClassRank(other.hwClass) == 0) ==> out.Ranked?
  {
    if out.Ranked? {
      HeadFits(snapshot, other, out.candidates);
    }
    if why == CapsUnmet && TierRank(req.minTier) > 0 {
      var i :| 0 <= i < |snapshot| && Open(snapshot[i], req);
      assert snapshot[i] in snapshot;
    }
  }
}
