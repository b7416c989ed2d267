/** The concurrent worker pool of one batch and its least-loaded chooser
    (`Run`, `choose`, `release`, `runOne` of `coordinator/internal/batch/batch.go`). */
module Batch {
  import opened Common
  import Pricing

  const DEFAULT_CONCURRENCY: int := 8
  const MAX_CONCURRENCY: int := 16

  /** How many workers `Run` starts. */
  function Workers(concurrency: int, items: nat): (w: nat)
    ensures w <= items && w <= 16 && (items > 0 ==> w > 0)
    ensures concurrency > 0 ==> w <= concurrency && (w < concurrency ==> w == items || w == 16)
    ensures concurrency <= 0 ==> w <= 8 && (w < 8 ==> w == items)
  {
    var w := if concurrency <= 0 then DEFAULT_CONCURRENCY else concurrency;
    var w := if w > MAX_CONCURRENCY then MAX_CONCURRENCY else w;
    if w > items then items else w
  }

  // ---------------------------------------------------------------- the chooser

  datatype Load = Load(inflight: map<string, int>, handed: map<string, int>)
  {
    /** Fewest in flight first, then fewest assigned so far. */
    predicate Lighter(p: string, q: string) {
      || GetOrZero(inflight, p) < GetOrZero(inflight, q)
      || (GetOrZero(inflight, p) == GetOrZero(inflight, q) && GetOrZero(handed, p) < GetOrZero(handed, q))
    }

    function Take(id: string): Load {
      Load(inflight[id := GetOrZero(inflight, id) + 1], handed[id := GetOrZero(handed, id) + 1])
    }

    function Give(id: string): Load {
      this.(inflight := inflight[id := GetOrZero(inflight, id) - 1])
    }
  }

  /** Candidate `k` is lightest, and the first of those equally light. */
  ghost predicate FirstLightest(cands: seq<string>, load: Load, k: nat) {
    && k < |cands|
    && (forall j | 0 <= j < |cands| :: !load.Lighter(cands[j], cands[k]))
    && (forall j | 0 <= j < k :: load.Lighter(cands[k], cands[j]))
  }

  function Choice(cands: seq<string>, load: Load): (k: nat)
    requires cands != []
    ensures FirstLightest(cands, load, k)
  {
    var last := |cands| - 1;
    if last == 0 then 0
    else
      var k := Choice(cands[..last], load);
      if load.Lighter(cands[last], cands[k]) then last else k
  }

  class Chooser {
    const cands: seq<string>
    var inflight: map<string, int>
    var handed: map<string, int>

    function State(): Load
      reads this
    {
      Load(inflight, handed)
    }

    constructor (cands: seq<string>)
      requires cands != []
      ensures this.cands == cands && State() == Load(map[], map[])
    {
      this.cands := cands;
      inflight, handed := map[], map[];
    }

    method Choose() returns (best: string)
      requires cands != []
      modifies this
      ensures exists k: nat :: FirstLightest(cands, old(State()), k) && best == cands[k]
      ensures State() == old(State()).Take(best)
    {
      best := cands[0];
      ghost var k := 0;
      for j := 1 to |cands|
        invariant State() == old(State())
        invariant k < j && best == cands[k] && FirstLightest(cands[..j], State(), k)
      {
        var p := cands[j];
        if GetOrZero(inflight, p) < GetOrZero(inflight, best)
           || (GetOrZero(inflight, p) == GetOrZero(inflight, best) && GetOrZero(handed, p) < GetOrZero(handed, best)) {
          best, k := p, j;
        }
      }
      assert cands[..|cands|] == cands;
      inflight := inflight[best := GetOrZero(inflight, best) + 1];
      handed := handed[best := GetOrZero(handed, best) + 1];
    }

    method Release(id: string)
      modifies this
      ensures State() == old(State()).Give(id)
    {
      inflight := inflight[id := GetOrZero(inflight, id) - 1];
    }
  }

  // ---------------------------------------------------------------- the pool

  datatype Item = Item(messages: seq<string>, maxTokens: int)

  /** Error codes are never empty. */
  type ErrCode = s: string | s != "" witness "internal"

  /** What executing an item produced. */
  datatype Answer =
    | Failed(code: ErrCode)
    | Answered(content: string, promptTokens: nat, completionTokens: nat,
               providerId: string, providerPk: string, tier: Pricing.Tier, jobId: string)

  /** One item's result: cancelled before a provider was chosen, or what the provider answered. */
  datatype Tagged = Cancelled(index: nat, code: ErrCode) | Tagged(index: nat, provider: string, answer: Answer)

  datatype Worker =
    | Idle
    | Holding(item: nat)
    | Executing(item: nat, provider: string)
    | Done(item: nat, result: Tagged)

  /** One execution that has returned: the position it was for, the item it was given. */
  datatype Call = Call(slot: nat, given: Item, provider: string, answer: Answer)

  /** `next` items have been handed to workers; `results` is the slice being filled in; `log`
      lists the executions in the order they returned. */
  datatype Pool = Pool(cands: seq<string>, work: seq<Item>, next: nat, workers: seq<Worker>,
                       load: Load, results: seq<Option<Tagged>>, log: seq<Call>)

  datatype Step =
    | Fetch(w: nat)                  // receive from the work channel
    | Cancel(w: nat, code: ErrCode)  // the context is done before a provider is chosen
    | Choose(w: nat)
    | Finish(w: nat, answer: Answer) // exec returns; the deferred release runs
    | Store(w: nat)

  function Start(cands: seq<string>, work: seq<Item>, workers: nat): Pool {
    Pool(cands, work, 0, seq(workers, _ => Idle), Load(map[], map[]), seq(|work|, _ => None), [])
  }

  function At(pool: Pool, w: nat): Worker {
    if w < |pool.workers| then pool.workers[w] else Idle
  }

  function Become(pool: Pool, w: nat, worker: Worker): Pool
    requires w < |pool.workers|
  {
    pool.(workers := pool.workers[w := worker])
  }

  function Next(pool: Pool, step: Step): Pool
    requires pool.cands != []
  {
    match step
    case Fetch(w) =>
      if w < |pool.workers| && pool.workers[w].Idle? && pool.next < |pool.work| then
        Become(pool, w, Holding(pool.next)).(next := pool.next + 1)
      else pool
    case Cancel(w, code) =>
      if At(pool, w).Holding? then
        Become(pool, w, Done(pool.workers[w].item, Cancelled(pool.workers[w].item, code)))
      else pool
    case Choose(w) =>
      if At(pool, w).Holding? then
        var best := pool.cands[Choice(pool.cands, pool.load)];
        Become(pool, w, Executing(pool.workers[w].item, best)).(load := pool.load.Take(best))
      else pool
    case Finish(w, answer) =>
      if At(pool, w).Executing? && pool.workers[w].item < |pool.work| then
        var Executing(item, provider) := pool.workers[w];
        Become(pool, w, Done(item, Tagged(item, provider, answer)))
          .(load := pool.load.Give(provider), log := pool.log + [Call(item, pool.work[item], provider, answer)])
      else pool
    case Store(w) =>
      if At(pool, w).Done? && pool.workers[w].item < |pool.results| then
        var Done(item, result) := pool.workers[w];
        Become(pool, w, Idle).(results := pool.results[item := Some(result)])
      else pool
  }

  function Exec(pool: Pool, steps: seq<Step>): (r: Pool)
    requires pool.cands != []
    ensures r.cands == pool.cands && r.work == pool.work && |r.workers| == |pool.workers|
  {
    if steps == [] then pool else Next(Exec(pool, steps[..|steps| - 1]), steps[|steps| - 1])
  }

  // ---------------------------------------------------------------- counting

  function IsOn(worker: Worker, id: string): nat {
    if worker.Executing? && worker.provider == id then 1 else 0
  }

  function Busy(workers: seq<Worker>, id: string): nat {
    if workers == [] then 0 else Busy(workers[..|workers| - 1], id) + IsOn(workers[|workers| - 1], id)
  }

  function InFlight(workers: seq<Worker>): (n: nat)
    ensures n <= |workers|
  {
    if workers == [] then 0
    else InFlight(workers[..|workers| - 1]) + (if workers[|workers| - 1].Executing? then 1 else 0)
  }

  function SumOver(ids: seq<string>, workers: seq<Worker>): nat {
    if ids == [] then 0 else SumOver(ids[..|ids| - 1], workers) + Busy(workers, ids[|ids| - 1])
  }

  ghost predicate Distinct(ids: seq<string>) {
    forall i, j | 0 <= i < j < |ids| :: ids[i] != ids[j]
  }

  lemma {:induction false} BusyUpdate(workers: seq<Worker>, w: nat, worker: Worker, id: string)
    requires w < |workers|
    ensures Busy(workers[w := worker], id) == Busy(workers, id) - IsOn(workers[w], id) + IsOn(worker, id)
    ensures InFlight(workers[w := worker]) ==
      InFlight(workers) - (if workers[w].Executing? then 1 else 0) + (if worker.Executing? then 1 else 0)
  {
    var last := |workers| - 1;
    var updated := workers[w := worker];
    if w < last {
      assert updated[..last] == workers[..last][w := worker];
      BusyUpdate(workers[..last], w, worker, id);
    } else {
      assert updated[..last] == workers[..last];
    }
  }

  /** Workers idle somewhere keep the number executing below the pool's size. */
  lemma {:induction false} OneNotExecuting(workers: seq<Worker>, w: nat)
    requires w < |workers| && !workers[w].Executing?
    ensures InFlight(workers) <= |workers| - 1
  {
    var last := |workers| - 1;
    if w < last {
      OneNotExecuting(workers[..last], w);
    }
  }

  lemma {:induction false} SumAddsWorker(ids: seq<string>, workers: seq<Worker>, worker: Worker)
    requires Distinct(ids) && (worker.Executing? ==> worker.provider in ids)
    ensures SumOver(ids, workers + [worker]) == SumOver(ids, workers) + (if worker.Executing? then 1 else 0)
  {
    SumAddsWorkerPart(ids, workers, worker, |ids|);
    assert ids[..|ids|] == ids;
  }

  lemma {:induction false} SumAddsWorkerPart(ids: seq<string>, workers: seq<Worker>, worker: Worker, n: nat)
    requires Distinct(ids) && n <= |ids|
    ensures SumOver(ids[..n], workers + [worker])
         == SumOver(ids[..n], workers) + (if worker.Executing? && worker.provider in ids[..n] then 1 else 0)
  {
    if n > 0 {
      SumAddsWorkerPart(ids, workers, worker, n - 1);
      assert ids[..n][..n - 1] == ids[..n - 1];
      assert (workers + [worker])[..|workers|] == workers;
      assert forall i | 0 <= i < n - 1 :: ids[i] != ids[n - 1];
      assert ids[..n] == ids[..n - 1] + [ids[n - 1]];
    }
  }

  /** The in-flight counts of all candidates add up to the workers executing. */
  lemma {:induction false} SumIsExecuting(ids: seq<string>, workers: seq<Worker>)
    requires Distinct(ids)
    requires forall w | 0 <= w < |workers| && workers[w].Executing? :: workers[w].provider in ids
    ensures SumOver(ids, workers) == InFlight(workers)
  {
    if workers == [] {
      SumOfNothing(ids);
    } else {
      var last := |workers| - 1;
      SumIsExecuting(ids, workers[..last]);
      SumAddsWorker(ids, workers[..last], workers[last]);
      assert workers == workers[..last] + [workers[last]];
    }
  }

  lemma {:induction false} SumOfNothing(ids: seq<string>)
    ensures SumOver(ids, []) == 0
  {
    if ids == [] {
    } else {
      SumOfNothing(ids[..|ids| - 1]);
    }
  }

  lemma {:induction false} SumAtLeast(ids: seq<string>, workers: seq<Worker>, m: nat)
    requires forall id | id in ids :: Busy(workers, id) >= m
    ensures SumOver(ids, workers) >= m * |ids|
  {
    if ids == [] {
    } else {
      SumAtLeast(ids[..|ids| - 1], workers, m);
      assert m * |ids| == m * (|ids| - 1) + m;
    }
  }

  // ---------------------------------------------------------------- invariants of every run

  ghost function Bound(pool: Pool): int
    requires pool.cands != []
  {
    (|pool.workers| - 1) / |pool.cands| + 1
  }

  /** Load bookkeeping: in-flight counters are the workers executing, and none is too high. */
  ghost predicate LoadInv(pool: Pool)
    requires pool.cands != []
  {
    && Distinct(pool.cands)
    && (forall w | 0 <= w < |pool.workers| && pool.workers[w].Executing? :: pool.workers[w].provider in pool.cands)
    && (forall id :: GetOrZero(pool.load.inflight, id) == Busy(pool.workers, id))
    && (forall id :: Busy(pool.workers, id) > 0 ==> Busy(pool.workers, id) <= Bound(pool))
  }

  function ItemOf(worker: Worker): Option<nat> {
    match worker
    case Idle => None
    case Holding(item) => Some(item)
    case Executing(item, _) => Some(item)
    case Done(item, _) => Some(item)
  }

  /** Item bookkeeping: every item handed out is with exactly one worker or stored, never both,
      and what is stored at `i` is the result of item `i`. */
  ghost predicate ItemInv(pool: Pool) {
    && pool.next <= |pool.work| == |pool.results|
    && (forall w | 0 <= w < |pool.workers| && ItemOf(pool.workers[w]).Some? ::
          ItemOf(pool.workers[w]).value < pool.next && pool.results[ItemOf(pool.workers[w]).value].None?)
    && (forall v, w | 0 <= v < w < |pool.workers| && ItemOf(pool.workers[v]).Some? ::
          ItemOf(pool.workers[v]) != ItemOf(pool.workers[w]))
    && (forall w | 0 <= w < |pool.workers| && pool.workers[w].Done? ::
          pool.workers[w].result.index == pool.workers[w].item)
    && (forall i: nat | i < |pool.work| && pool.results[i].Some? :: i < pool.next && pool.results[i].value.index == i)
    && (forall i: nat | i < pool.next && pool.results[i].None? ::
          exists w :: 0 <= w < |pool.workers| && ItemOf(pool.workers[w]) == Some(i))
  }

  lemma ChooseKeepsBound(pool: Pool, w: nat)
    requires pool.cands != [] && LoadInv(pool) && At(pool, w).Holding?
    ensures Busy(pool.workers, pool.cands[Choice(pool.cands, pool.load)]) + 1 <= Bound(pool)
  {
    var k := Choice(pool.cands, pool.load);
    var m := Busy(pool.workers, pool.cands[k]);
    forall id | id in pool.cands ensures Busy(pool.workers, id) >= m {
      var j :| 0 <= j < |pool.cands| && pool.cands[j] == id;
      assert !pool.load.Lighter(pool.cands[j], pool.cands[k]);
      assert GetOrZero(pool.load.inflight, pool.cands[k]) == m;
    }
    SumAtLeast(pool.cands, pool.workers, m);
    SumIsExecuting(pool.cands, pool.workers);
    OneNotExecuting(pool.workers, w);
    Quotient(m, |pool.cands|, |pool.workers| - 1);
  }

  lemma Quotient(m: nat, k: nat, n: nat)
    requires k > 0 && m * k <= n
    ensures m <= n / k
  {
    var q := n / k;
    assert n < q * k + k;
    MulMonotone(q + 1, m, k);
    assert (q + 1) * k == q * k + k;
  }

  lemma MulMonotone(a: nat, b: nat, k: nat)
    ensures a <= b ==> a * k <= b * k
  {
    assert a <= b ==> b * k == a * k + (b - a) * k;
  }

  lemma NextKeepsLoadOf(pool: Pool, step: Step, id: string)
    requires pool.cands != [] && LoadInv(pool)
    requires var pool' := Next(pool, step); pool' != pool
    ensures var pool' := Next(pool, step);
      && GetOrZero(pool'.load.inflight, id) == Busy(pool'.workers, id)
      && (Busy(pool'.workers, id) > 0 ==> Busy(pool'.workers, id) <= Bound(pool'))
  {
    var pool' := Next(pool, step);
    BusyUpdate(pool.workers, step.w, pool'.workers[step.w], id);
    assert GetOrZero(pool.load.inflight, id) == Busy(pool.workers, id);
    if step.Choose? {
      ChooseKeepsBound(pool, step.w);
    }
  }

  lemma NextKeepsLoad(pool: Pool, step: Step)
    requires pool.cands != [] && LoadInv(pool)
    ensures LoadInv(Next(pool, step))
  {
    var pool' := Next(pool, step);
    if pool' != pool {
      forall id
        ensures GetOrZero(pool'.load.inflight, id) == Busy(pool'.workers, id)
        ensures Busy(pool'.workers, id) > 0 ==> Busy(pool'.workers, id) <= Bound(pool')
      {
        NextKeepsLoadOf(pool, step, id);
      }
    }
  }

  lemma SameItemKeeps(pool: Pool, w: nat, worker: Worker, load: Load, log: seq<Call>)
    requires ItemInv(pool) && w < |pool.workers| && ItemOf(worker) == ItemOf(pool.workers[w])
    requires worker.Done? ==> worker.result.index == worker.item
    ensures ItemInv(Become(pool, w, worker).(load := load, log := log))
  {
    var pool' := Become(pool, w, worker).(load := load, log := log);
    assert forall v | 0 <= v < |pool.workers| :: ItemOf(pool'.workers[v]) == ItemOf(pool.workers[v]);
    forall i: nat | i < pool'.next && pool'.results[i].None?
      ensures exists v :: 0 <= v < |pool'.workers| && ItemOf(pool'.workers[v]) == Some(i)
    {
      var v :| 0 <= v < |pool.workers| && ItemOf(pool.workers[v]) == Some(i);
      assert ItemOf(pool'.workers[v]) == Some(i);
    }
  }

  lemma FetchKeepsItems(pool: Pool, w: nat)
    requires pool.cands != [] && ItemInv(pool)
    ensures ItemInv(Next(pool, Fetch(w)))
  {
    var pool' := Next(pool, Fetch(w));
    if pool' != pool {
      forall i: nat | i < pool'.next && pool'.results[i].None?
        ensures exists v :: 0 <= v < |pool'.workers| && ItemOf(pool'.workers[v]) == Some(i)
      {
        if i < pool.next {
          var v :| 0 <= v < |pool.workers| && ItemOf(pool.workers[v]) == Some(i);
          assert ItemOf(pool'.workers[v]) == Some(i);
        } else {
          assert ItemOf(pool'.workers[w]) == Some(i);
        }
      }
    }
  }

  lemma StoreKeepsItems(pool: Pool, w: nat)
    requires pool.cands != [] && ItemInv(pool) && At(pool, w).Done?
    ensures ItemInv(Next(pool, Store(w)))
  {
    var pool' := Next(pool, Store(w));
    var item := pool.workers[w].item;
    assert ItemOf(pool.workers[w]) == Some(item);
    forall v | 0 <= v < |pool.workers| && v != w ensures ItemOf(pool.workers[v]) != Some(item) {
      if v < w { assert ItemOf(pool.workers[v]).Some? ==> ItemOf(pool.workers[v]) != ItemOf(pool.workers[w]); }
    }
    forall i: nat | i < pool'.next && pool'.results[i].None?
      ensures exists v :: 0 <= v < |pool'.workers| && ItemOf(pool'.workers[v]) == Some(i)
    {
      var v :| 0 <= v < |pool.workers| && ItemOf(pool.workers[v]) == Some(i);
      assert ItemOf(pool'.workers[v]) == Some(i);
    }
  }

  lemma NextKeepsItems(pool: Pool, step: Step)
    requires pool.cands != [] && ItemInv(pool)
    ensures ItemInv(Next(pool, step))
  {
    match step
    case Fetch(w) => FetchKeepsItems(pool, w);
    case Store(w) =>
      if At(pool, w).Done? { StoreKeepsItems(pool, w); }
    case Cancel(w, _) =>
      if At(pool, w).Holding? {
        var pool' := Next(pool, step);
        SameItemKeeps(pool, w, pool'.workers[w], pool'.load, pool'.log);
      }
    case Choose(w) =>
      if At(pool, w).Holding? {
        var pool' := Next(pool, step);
        SameItemKeeps(pool, w, pool'.workers[w], pool'.load, pool'.log);
      }
    case Finish(w, _) =>
      if At(pool, w).Executing? && pool.workers[w].item < |pool.work| {
        var pool' := Next(pool, step);
        SameItemKeeps(pool, w, pool'.workers[w], pool'.load, pool'.log);
      }
  }

  lemma {:induction false} IdleWorkers(n: nat, id: string)
    ensures Busy(seq(n, _ => Idle), id) == 0
  {
    if n > 0 {
      var workers := seq(n, _ => Idle);
      assert workers[..n - 1] == seq(n - 1, _ => Idle);
      IdleWorkers(n - 1, id);
    }
  }

  lemma {:induction false} EveryRunIsBalanced(cands: seq<string>, work: seq<Item>, workers: nat, steps: seq<Step>)
    requires cands != [] && Distinct(cands)
    ensures LoadInv(Exec(Start(cands, work, workers), steps))
    ensures ItemInv(Exec(Start(cands, work, workers), steps))
  {
    if steps == [] {
      forall id ensures Busy(Start(cands, work, workers).workers, id) == 0 {
        IdleWorkers(workers, id);
      }
    } else {
      var before := steps[..|steps| - 1];
      EveryRunIsBalanced(cands, work, workers, before);
      NextKeepsLoad(Exec(Start(cands, work, workers), before), steps[|steps| - 1]);
      NextKeepsItems(Exec(Start(cands, work, workers), before), steps[|steps| - 1]);
    }
  }

  /** In every reachable state no provider has more than floor((W-1)/k)+1 items in flight,
      and the counters add up to the workers between `choose` and `release`. */
  lemma NoProviderIsOverloaded(cands: seq<string>, work: seq<Item>, workers: nat, steps: seq<Step>, id: string)
    requires cands != [] && Distinct(cands) && workers > 0
    ensures var pool := Exec(Start(cands, work, workers), steps);
      && GetOrZero(pool.load.inflight, id) <= (workers - 1) / |cands| + 1
      && GetOrZero(pool.load.inflight, id) == Busy(pool.workers, id)
      && SumOver(cands, pool.workers) == InFlight(pool.workers)
  {
    EveryRunIsBalanced(cands, work, workers, steps);
    BalancedIsBounded(Exec(Start(cands, work, workers), steps), id);
  }

  lemma QuotientIsNonNegative(n: nat, k: nat)
    requires k > 0
    ensures n / k >= 0
  {
  }

  lemma BalancedIsBounded(pool: Pool, id: string)
    requires pool.cands != [] && LoadInv(pool) && |pool.workers| > 0
    ensures GetOrZero(pool.load.inflight, id) <= (|pool.workers| - 1) / |pool.cands| + 1
    ensures GetOrZero(pool.load.inflight, id) == Busy(pool.workers, id)
    ensures SumOver(pool.cands, pool.workers) == InFlight(pool.workers)
  {
    SumIsExecuting(pool.cands, pool.workers);
    assert GetOrZero(pool.load.inflight, id) == Busy(pool.workers, id);
    QuotientIsNonNegative(|pool.workers| - 1, |pool.cands|);
  }

  // ---------------------------------------------------------------- results against executions

  ghost predicate NotCalled(log: seq<Call>, item: nat) {
    forall k | 0 <= k < |log| :: log[k].slot != item
  }

  /** No item is executed twice. */
  ghost predicate CalledOnce(log: seq<Call>) {
    forall j, k | 0 <= j < k < |log| :: log[j].slot != log[k].slot
  }

  /** Every execution was for one of the first `next` items and was given that item. */
  ghost predicate Given(work: seq<Item>, log: seq<Call>, next: nat) {
    next <= |work| && forall k | 0 <= k < |log| :: log[k].slot < next && log[k].given == work[log[k].slot]
  }

  /** The result is that of executing the item itself, or the item was cancelled unexecuted. */
  ghost predicate Vouched(work: seq<Item>, log: seq<Call>, item: nat, r: Tagged) {
    && item < |work| && r.index == item
    && match r
       case Cancelled(_, _) => NotCalled(log, item)
       case Tagged(_, provider, answer) => Call(item, work[item], provider, answer) in log
  }

  ghost predicate GoodWorker(pool: Pool, worker: Worker) {
    match worker
    case Idle => true
    case Holding(item) => NotCalled(pool.log, item)
    case Executing(item, _) => NotCalled(pool.log, item)
    case Done(item, result) => Vouched(pool.work, pool.log, item, result)
  }

  ghost predicate LogInv(pool: Pool) {
    && CalledOnce(pool.log)
    && Given(pool.work, pool.log, pool.next)
    && (forall w | 0 <= w < |pool.workers| :: GoodWorker(pool, pool.workers[w]))
    && (forall i: nat | i < |pool.results| && pool.results[i].Some? ::
          Vouched(pool.work, pool.log, i, pool.results[i].value))
  }

  lemma VouchedStays(work: seq<Item>, log: seq<Call>, call: Call, item: nat, r: Tagged)
    requires Vouched(work, log, item, r) && call.slot != item
    ensures Vouched(work, log + [call], item, r)
  {
  }

  lemma WorkerStays(pool: Pool, call: Call, worker: Worker)
    requires GoodWorker(pool, worker) && ItemOf(worker) != Some(call.slot)
    ensures GoodWorker(pool.(log := pool.log + [call]), worker)
  {
    if worker.Done? {
      VouchedStays(pool.work, pool.log, call, worker.item, worker.result);
    }
  }

  /** Steps that log nothing: one worker changes, and stays in good standing. */
  lemma QuietKeepsLog(pool: Pool, w: nat, worker: Worker, load: Load)
    requires LogInv(pool) && w < |pool.workers| && GoodWorker(pool, worker)
    ensures LogInv(Become(pool, w, worker).(load := load))
  {
    var pool' := Become(pool, w, worker).(load := load);
    forall v | 0 <= v < |pool'.workers| ensures GoodWorker(pool', pool'.workers[v]) {
      assert GoodWorker(pool, pool.workers[v]);
      assert v != w ==> pool'.workers[v] == pool.workers[v];
    }
  }

  lemma FetchKeepsLog(pool: Pool, w: nat)
    requires pool.cands != [] && LogInv(pool)
    ensures LogInv(Next(pool, Fetch(w)))
  {
    var pool' := Next(pool, Fetch(w));
    if pool' != pool {
      assert NotCalled(pool.log, pool.next);
      QuietKeepsLog(pool, w, Holding(pool.next), pool.load);
      forall v | 0 <= v < |pool'.workers| ensures GoodWorker(pool', pool'.workers[v]) {
        assert GoodWorker(Become(pool, w, Holding(pool.next)), pool'.workers[v]);
      }
    }
  }

  lemma FinishKeepsLog(pool: Pool, w: nat, answer: Answer)
    requires pool.cands != [] && ItemInv(pool) && LogInv(pool)
    ensures LogInv(Next(pool, Finish(w, answer)))
  {
    var pool' := Next(pool, Finish(w, answer));
    if At(pool, w).Executing? && pool.workers[w].item < |pool.work| {
      var item := pool.workers[w].item;
      var call := Call(item, pool.work[item], pool.workers[w].provider, answer);
      assert GoodWorker(pool, pool.workers[w]) && ItemOf(pool.workers[w]) == Some(item);
      forall v | 0 <= v < |pool'.workers| ensures GoodWorker(pool', pool'.workers[v]) {
        if v == w {
          assert call == pool'.log[|pool.log|];
        } else {
          assert ItemOf(pool.workers[v]) != Some(item);
          WorkerStays(pool, call, pool.workers[v]);
        }
      }
      forall i: nat | i < |pool'.results| && pool'.results[i].Some?
        ensures Vouched(pool'.work, pool'.log, i, pool'.results[i].value)
      {
        VouchedStays(pool.work, pool.log, call, i, pool.results[i].value);
      }
    }
  }

  lemma StoreKeepsLog(pool: Pool, w: nat)
    requires pool.cands != [] && LogInv(pool)
    ensures LogInv(Next(pool, Store(w)))
  {
    if At(pool, w).Done? && pool.workers[w].item < |pool.results| {
      assert GoodWorker(pool, pool.workers[w]);
      QuietKeepsLog(pool, w, Idle, pool.load);
      var pool' := Next(pool, Store(w));
      forall v | 0 <= v < |pool'.workers| ensures GoodWorker(pool', pool'.workers[v]) {
        assert GoodWorker(Become(pool, w, Idle), pool'.workers[v]);
      }
    }
  }

  lemma NextKeepsLog(pool: Pool, step: Step)
    requires pool.cands != [] && ItemInv(pool) && LogInv(pool)
    ensures LogInv(Next(pool, step))
  {
    match step
    case Fetch(w) => FetchKeepsLog(pool, w);
    case Finish(w, answer) => FinishKeepsLog(pool, w, answer);
    case Store(w) => StoreKeepsLog(pool, w);
    case Cancel(w, code) =>
      if At(pool, w).Holding? {
        assert GoodWorker(pool, pool.workers[w]) && ItemOf(pool.workers[w]) == Some(pool.workers[w].item);
        QuietKeepsLog(pool, w, Done(pool.workers[w].item, Cancelled(pool.workers[w].item, code)), pool.load);
      }
    case Choose(w) =>
      if At(pool, w).Holding? {
        var best := pool.cands[Choice(pool.cands, pool.load)];
        assert GoodWorker(pool, pool.workers[w]);
        QuietKeepsLog(pool, w, Executing(pool.workers[w].item, best), pool.load.Take(best));
      }
  }

  lemma {:induction false} EveryRunIsVouched(cands: seq<string>, work: seq<Item>, workers: nat, steps: seq<Step>)
    requires cands != [] && Distinct(cands)
    ensures LogInv(Exec(Start(cands, work, workers), steps))
  {
    if steps == [] {
    } else {
      var before := steps[..|steps| - 1];
      EveryRunIsVouched(cands, work, workers, before);
      EveryRunIsBalanced(cands, work, workers, before);
      NextKeepsLog(Exec(Start(cands, work, workers), before), steps[|steps| - 1]);
    }
  }

  /** The work channel is drained and every worker is back. */
  predicate Drained(pool: Pool) {
    pool.next == |pool.work| && forall w | 0 <= w < |pool.workers| :: pool.workers[w].Idle?
  }

  /** When the pool has drained, under any interleaving, every item was executed at most once,
      each time with the item itself, and result `i` is the answer of item `i`'s one execution —
      or says that item `i` was cancelled and never executed. */
  lemma EveryItemIsAnsweredOnce(cands: seq<string>, work: seq<Item>, workers: nat, steps: seq<Step>)
    requires cands != [] && Distinct(cands)
    requires Drained(Exec(Start(cands, work, workers), steps))
    ensures var pool := Exec(Start(cands, work, workers), steps);
      && |pool.results| == |work| && CalledOnce(pool.log)
      && Given(work, pool.log, |work|)
      && (forall i: nat | i < |work| :: pool.results[i].Some? && Vouched(work, pool.log, i, pool.results[i].value))
  {
    EveryRunIsBalanced(cands, work, workers, steps);
    EveryRunIsVouched(cands, work, workers, steps);
  }

  // ---------------------------------------------------------------- sums over executions

  /** The sum of `f` over the executions that have returned. */
  function LogSum(log: seq<Call>, f: Call -> int): int {
    if log == [] then 0 else LogSum(log[..|log| - 1], f) + f(log[|log| - 1])
  }

  /** What the last execution for position `i` adds, if there was one. */
  function SlotValue(log: seq<Call>, f: Call -> int, i: nat): int {
    if log == [] then 0
    else if log[|log| - 1].slot == i then f(log[|log| - 1])
    else SlotValue(log[..|log| - 1], f, i)
  }

  function SlotSum(log: seq<Call>, f: Call -> int, n: nat): int {
    if n == 0 then 0 else SlotSum(log, f, n - 1) + SlotValue(log, f, n - 1)
  }

  lemma {:induction false} NoValue(log: seq<Call>, f: Call -> int, i: nat)
    requires NotCalled(log, i)
    ensures SlotValue(log, f, i) == 0
  {
    if log == [] {
    } else {
      NoValue(log[..|log| - 1], f, i);
    }
  }

  lemma {:induction false} ValueOfCall(log: seq<Call>, f: Call -> int, k: nat)
    requires CalledOnce(log) && k < |log|
    ensures SlotValue(log, f, log[k].slot) == f(log[k])
  {
    if k < |log| - 1 {
      ValueOfCall(log[..|log| - 1], f, k);
    }
  }

  lemma {:induction false} OneMoreSlot(log: seq<Call>, f: Call -> int, n: nat)
    requires log != [] && CalledOnce(log)
    ensures var init, last := log[..|log| - 1], log[|log| - 1];
      SlotSum(log, f, n) == SlotSum(init, f, n) + (if last.slot < n then f(last) else 0)
  {
    if n == 0 {
    } else {
      OneMoreSlot(log, f, n - 1);
      if log[|log| - 1].slot == n - 1 {
        NoValue(log[..|log| - 1], f, n - 1);
      }
    }
  }

  lemma {:induction false} NoSlots(f: Call -> int, n: nat)
    ensures SlotSum([], f, n) == 0
  {
    if n == 0 {
    } else {
      NoSlots(f, n - 1);
    }
  }

  /** Adding up by position or by the order of returns is the same. */
  lemma {:induction false} SumBySlot(log: seq<Call>, f: Call -> int, n: nat)
    requires CalledOnce(log) && forall k | 0 <= k < |log| :: log[k].slot < n
    ensures SlotSum(log, f, n) == LogSum(log, f)
  {
    if log == [] {
      NoSlots(f, n);
    } else {
      OneMoreSlot(log, f, n);
      SumBySlot(log[..|log| - 1], f, n);
    }
  }

  lemma {:induction false} LogSumAdds(a: seq<Call>, b: seq<Call>, f: Call -> int)
    ensures LogSum(a + b, f) == LogSum(a, f) + LogSum(b, f)
  {
    if b == [] {
      assert a + b == a;
    } else {
      assert (a + b)[..|a + b| - 1] == a + b[..|b| - 1];
      LogSumAdds(a, b[..|b| - 1], f);
    }
  }

  // ---------------------------------------------------------------- the pool drains

  /** Steps a worker still has before it. */
  function Remaining(worker: Worker): nat {
    match worker
    case Idle => 0
    case Done(_, _) => 1
    case Executing(_, _) => 2
    case Holding(_) => 3
  }

  function RemainingSum(workers: seq<Worker>): nat {
    if workers == [] then 0 else RemainingSum(workers[..|workers| - 1]) + Remaining(workers[|workers| - 1])
  }

  /** Steps the pool still has before it: four for an item not handed out, fewer once it is. */
  function Left(pool: Pool): int {
    4 * (|pool.work| - pool.next) + RemainingSum(pool.workers)
  }

  lemma {:induction false} RemainingUpdate(workers: seq<Worker>, w: nat, worker: Worker)
    requires w < |workers|
    ensures RemainingSum(workers[w := worker]) == RemainingSum(workers) - Remaining(workers[w]) + Remaining(worker)
  {
    var last := |workers| - 1;
    if w == last {
      assert workers[w := worker][..last] == workers[..last];
    } else {
      assert workers[w := worker][..last] == workers[..last][w := worker];
      RemainingUpdate(workers[..last], w, worker);
    }
  }

  /** Every step that does anything brings the end nearer. */
  lemma StepsLowerLeft(pool: Pool, step: Step)
    requires pool.cands != [] && Next(pool, step) != pool
    ensures Left(Next(pool, step)) < Left(pool)
  {
    var pool' := Next(pool, step);
    RemainingUpdate(pool.workers, step.w, pool'.workers[step.w]);
  }

  /** As long as there is work to do, some worker can take a step. */
  lemma SomeStepIsPossible(pool: Pool) returns (step: Step)
    requires pool.cands != [] && ItemInv(pool) && |pool.workers| > 0 && !Drained(pool)
    ensures Next(pool, step) != pool
  {
    if w :| 0 <= w < |pool.workers| && !pool.workers[w].Idle? {
      assert ItemOf(pool.workers[w]).Some?;
      match pool.workers[w]
      case Holding(_) => step := Choose(w);
      case Executing(_, _) => step := Finish(w, Failed("internal"));
      case Done(_, _) => step := Store(w);
    } else {
      step := Fetch(0);
    }
  }

  function DoesSomething(cands: seq<string>, work: seq<Item>, workers: nat): (seq<Step>, Step) -> bool
    requires cands != []
  {
    (before: seq<Step>, step: Step) =>
      Next(Exec(Start(cands, work, workers), before), step) != Exec(Start(cands, work, workers), before)
  }

  lemma {:induction false} NothingRemains(n: nat)
    ensures RemainingSum(seq(n, _ => Idle)) == 0
  {
    if n == 0 {
    } else {
      assert seq(n, _ => Idle)[..n - 1] == seq(n - 1, _ => Idle);
      NothingRemains(n - 1);
    }
  }

  /** Under any interleaving a pool takes at most four steps an item. */
  lemma {:induction false} FourStepsAnItem(cands: seq<string>, work: seq<Item>, workers: nat, steps: seq<Step>)
    requires cands != [] && Distinct(cands) && AtEveryStep(DoesSomething(cands, work, workers), steps)
    ensures |steps| + Left(Exec(Start(cands, work, workers), steps)) <= 4 * |work|
    ensures |steps| <= 4 * |work|
  {
    EveryRunIsBalanced(cands, work, workers, steps);
    if steps == [] {
      NothingRemains(workers);
    } else {
      var before, last := steps[..|steps| - 1], steps[|steps| - 1];
      assert before + [last] == steps;
      AtEveryStepSnoc(DoesSomething(cands, work, workers), before, last);
      FourStepsAnItem(cands, work, workers, before);
      StepsLowerLeft(Exec(Start(cands, work, workers), before), last);
    }
  }

  lemma DrainedIsStill(pool: Pool, step: Step)
    requires pool.cands != [] && Drained(pool)
    ensures Next(pool, step) == pool
  {
  }

  /** A pool with a worker comes to an end under every interleaving: it is stuck exactly when it has
      drained, and gets there in at most four steps an item. */
  lemma StuckIffDrained(cands: seq<string>, work: seq<Item>, workers: nat, steps: seq<Step>)
    requires cands != [] && Distinct(cands) && workers > 0
    ensures Drained(Exec(Start(cands, work, workers), steps))
       <==> forall step :: !DoesSomething(cands, work, workers)(steps, step)
  {
    EveryRunIsBalanced(cands, work, workers, steps);
    var pool := Exec(Start(cands, work, workers), steps);
    if Drained(pool) {
      forall step ensures !DoesSomething(cands, work, workers)(steps, step) {
        DrainedIsStill(pool, step);
      }
    } else {
      var step := SomeStepIsPossible(pool);
      assert DoesSomething(cands, work, workers)(steps, step);
    }
  }

  /** From every reachable state the pool `Run` starts can be driven to its end. */
  lemma {:induction false} EveryPoolCanDrain(cands: seq<string>, work: seq<Item>, concurrency: int, steps: seq<Step>)
    returns (all: seq<Step>)
    requires cands != [] && Distinct(cands)
    ensures steps <= all && Drained(Exec(Start(cands, work, Workers(concurrency, |work|)), all))
    decreases Left(Exec(Start(cands, work, Workers(concurrency, |work|)), steps))
  {
    var workers := Workers(concurrency, |work|);
    var pool := Exec(Start(cands, work, workers), steps);
    EveryRunIsBalanced(cands, work, workers, steps);
    if Drained(pool) {
      all := steps;
    } else {
      var step := SomeStepIsPossible(pool);
      assert (steps + [step])[..|steps|] == steps;
      StepsLowerLeft(pool, step);
      all := EveryPoolCanDrain(cands, work, concurrency, steps + [step]);
    }
  }

  // ---------------------------------------------------------------- one worker: round robin

  ghost predicate Even(cands: seq<string>, load: Load) {
    forall i, j | 0 <= i < |cands| && 0 <= j < |cands| ::
      GetOrZero(load.handed, cands[i]) <= GetOrZero(load.handed, cands[j]) + 1
  }

  lemma ChooseStaysEven(pool: Pool)
    requires pool.cands != [] && LoadInv(pool) && Even(pool.cands, pool.load)
    requires |pool.workers| == 1 && pool.workers[0].Holding?
    ensures Even(pool.cands, Next(pool, Choose(0)).load)
  {
    var k := Choice(pool.cands, pool.load);
    forall j | 0 <= j < |pool.cands|
      ensures GetOrZero(pool.load.handed, pool.cands[k]) <= GetOrZero(pool.load.handed, pool.cands[j])
    {
      NobodyBusy(pool, pool.cands[j]);
      NobodyBusy(pool, pool.cands[k]);
      assert !pool.load.Lighter(pool.cands[j], pool.cands[k]);
    }
  }

  lemma NobodyBusy(pool: Pool, id: string)
    requires pool.cands != [] && LoadInv(pool) && |pool.workers| == 1 && pool.workers[0].Holding?
    ensures GetOrZero(pool.load.inflight, id) == 0
  {
    assert pool.workers[..0] == [];
    assert GetOrZero(pool.load.inflight, id) == Busy(pool.workers, id);
  }

  lemma StepStaysEven(pool: Pool, step: Step)
    requires pool.cands != [] && LoadInv(pool) && Even(pool.cands, pool.load) && |pool.workers| == 1
    ensures Even(pool.cands, Next(pool, step).load)
  {
    if step.Choose? && At(pool, step.w).Holding? {
      ChooseStaysEven(pool);
    } else {
      assert Next(pool, step).load.handed == pool.load.handed;
    }
  }

  /** With one worker the totals assigned to any two providers differ by at most one. */
  lemma {:induction false} OneWorkerSharesEvenly(cands: seq<string>, work: seq<Item>, steps: seq<Step>)
    requires cands != [] && Distinct(cands)
    ensures Even(cands, Exec(Start(cands, work, 1), steps).load)
  {
    if steps == [] {
    } else {
      var before := steps[..|steps| - 1];
      OneWorkerSharesEvenly(cands, work, before);
      EveryRunIsBalanced(cands, work, 1, before);
      StepStaysEven(Exec(Start(cands, work, 1), before), steps[|steps| - 1]);
    }
  }
}
