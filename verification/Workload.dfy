/** Running an accepted workload in chunks (`executeWorkload` of `coordinator/internal/api/runs.go`,
    `chunkItems` and `mergeSummary` of `workloads.go`, `summarize` of `batch.go`).
    A failed item carries a non-empty error code, as in the source. */
module Workload {
  import opened Common
  import Batch
  import Pricing

  /** The batch limit, the chunk size. */
  const MAX_ITEMS: nat := 256

  datatype ItemResult = ItemResult(index: nat, content: string, promptTokens: nat, completionTokens: nat,
                                   providerId: string, providerPk: string, tier: Pricing.Tier,
                                   jobId: string, errCode: string)
  {
    predicate Ok() { errCode == "" }
  }

  type Counts = map<string, int>

  datatype Totals = Totals(items: seq<ItemResult>, ok: nat, failed: nat, fanout: nat, providers: Counts,
                           promptTokens: int, completionTokens: int, concurrency: nat)

  // ---------------------------------------------------------------- what a summary means

  function OkCount(rs: seq<ItemResult>): (n: nat)
    ensures n <= |rs|
  {
    if rs == [] then 0 else OkCount(rs[..|rs| - 1]) + (if rs[|rs| - 1].Ok() then 1 else 0)
  }

  function PromptSum(rs: seq<ItemResult>): int {
    if rs == [] then 0 else PromptSum(rs[..|rs| - 1]) + (if rs[|rs| - 1].Ok() then rs[|rs| - 1].promptTokens else 0)
  }

  function CompletionSum(rs: seq<ItemResult>): int {
    if rs == [] then 0
    else CompletionSum(rs[..|rs| - 1]) + (if rs[|rs| - 1].Ok() then rs[|rs| - 1].completionTokens else 0)
  }

  function HandledBy(rs: seq<ItemResult>, id: string): (n: nat) {
    if rs == [] then 0 else HandledBy(rs[..|rs| - 1], id) + (if rs[|rs| - 1].providerId == id then 1 else 0)
  }

  /** The providers that handled an item, successfully or not. An item cancelled before a
      provider was chosen names none. */
  function Handlers(rs: seq<ItemResult>): set<string> {
    set r | r in rs && r.providerId != "" :: r.providerId
  }

  function ProviderCounts(rs: seq<ItemResult>): Counts {
    if rs == [] then map[]
    else
      var m, id := ProviderCounts(rs[..|rs| - 1]), rs[|rs| - 1].providerId;
      if id == "" then m else m[id := GetOrZero(m, id) + 1]
  }

  /** The summary of a list of results, described without the loop that computes it. */
  function SummaryOf(rs: seq<ItemResult>, workers: nat): Totals {
    Unfanned(rs, workers).(fanout := |Handlers(rs)|)
  }

  /** A summary before its fan-out is filled in. */
  function Unfanned(rs: seq<ItemResult>, workers: nat): Totals {
    Totals(rs, OkCount(rs), |rs| - OkCount(rs), 0, ProviderCounts(rs), PromptSum(rs), CompletionSum(rs), workers)
  }

  method Summarize(results: seq<ItemResult>, workers: nat) returns (s: Totals)
    ensures s == SummaryOf(results, workers)
  {
    var providers: Counts := map[];
    var ok, failed, prompt, completion := 0, 0, 0, 0;
    for i := 0 to |results|
      invariant providers == ProviderCounts(results[..i])
      invariant ok == OkCount(results[..i]) && failed == i - ok
      invariant prompt == PromptSum(results[..i]) && completion == CompletionSum(results[..i])
    {
      var r := results[i];
      assert results[..i + 1][..i] == results[..i];
      if r.providerId != "" {
        providers := providers[r.providerId := GetOrZero(providers, r.providerId) + 1];
      }
      if r.errCode != "" {
        failed := failed + 1;
        continue;
      }
      ok := ok + 1;
      prompt := prompt + r.promptTokens;
      completion := completion + r.completionTokens;
    }
    assert results[..|results|] == results;
    FanoutIsHandlers(results);
    s := Totals(results, ok, failed, |providers|, providers, prompt, completion, workers);
  }

  /** The provider counts name exactly the handlers, each with the items it handled. */
  lemma {:induction false} CountsAreHandled(rs: seq<ItemResult>)
    ensures ProviderCounts(rs).Keys == Handlers(rs)
    ensures forall id | id != "" :: GetOrZero(ProviderCounts(rs), id) == HandledBy(rs, id)
  {
    if rs == [] {
    } else {
      var init, last := rs[..|rs| - 1], rs[|rs| - 1];
      CountsAreHandled(init);
      assert rs == init + [last];
      assert forall x :: x in rs <==> x in init || x == last;
      assert Handlers(rs) == if last.providerId == "" then Handlers(init) else Handlers(init) + {last.providerId};
      forall id | id != "" ensures GetOrZero(ProviderCounts(rs), id) == HandledBy(rs, id) {
        assert GetOrZero(ProviderCounts(init), id) == HandledBy(init, id);
      }
    }
  }

  // ---------------------------------------------------------------- chunks

  function Flatten<T>(parts: seq<seq<T>>): seq<T> {
    if parts == [] then [] else Flatten(parts[..|parts| - 1]) + parts[|parts| - 1]
  }

  /** Full chunks of `size`, then one of at most `size`; a short list is one chunk, even empty. */
  ghost predicate IsChunking<T>(items: seq<T>, size: nat, chunks: seq<seq<T>>) {
    && Flatten(chunks) == items
    && chunks != []
    && (forall k | 0 <= k < |chunks| - 1 :: |chunks[k]| == size)
    && |chunks[|chunks| - 1]| <= size
    && (|chunks| > 1 ==> |chunks[|chunks| - 1]| > 0)
  }

  function Chunks<T>(items: seq<T>, size: nat): seq<seq<T>>
    requires size > 0
  {
    if |items| <= size then [items] else [items[..size]] + Chunks(items[size..], size)
  }

  lemma {:induction false} FlattenCons<T>(first: seq<T>, rest: seq<seq<T>>)
    ensures Flatten([first] + rest) == first + Flatten(rest)
  {
    var parts := [first] + rest;
    if rest == [] {
      assert parts[..0] == [] && parts[0] == first;
    } else {
      var last := |rest| - 1;
      FlattenCons(first, rest[..last]);
      var init := [first] + rest[..last];
      assert parts[..|parts| - 1] == init && parts[|parts| - 1] == rest[last];
      assert Flatten(parts) == Flatten(init) + rest[last];
    }
  }

  lemma ChunkingCons<T>(first: seq<T>, items: seq<T>, size: nat, rest: seq<seq<T>>)
    requires |first| == size && items != [] && IsChunking(items, size, rest)
    ensures IsChunking(first + items, size, [first] + rest)
  {
    FlattenCons(first, rest);
    if |rest| == 1 {
      assert rest[..0] == [] && Flatten(rest) == rest[0];
    }
    assert forall k | 0 <= k < |rest| :: ([first] + rest)[k + 1] == rest[k];
  }

  lemma {:induction false} ChunksAreChunking<T>(items: seq<T>, size: nat)
    requires size > 0
    ensures IsChunking(items, size, Chunks(items, size))
  {
    if |items| <= size {
      assert [items][..0] == [];
    } else {
      ChunksAreChunking(items[size..], size);
      ChunkingCons(items[..size], items[size..], size, Chunks(items[size..], size));
      assert items[..size] + items[size..] == items;
    }
  }

  /** `chunks` are the chunks of everything before position `i`. */
  ghost predicate ChunkedTo<T>(items: seq<T>, size: nat, i: nat, chunks: seq<seq<T>>)
    requires size > 0
  {
    if i < |items| then chunks + Chunks(items[i..], size) == Chunks(items, size) else chunks == Chunks(items, size)
  }

  lemma NextChunk<T>(items: seq<T>, size: nat, i: nat, end: nat, chunks: seq<seq<T>>)
    requires size > 0 && i < |items| && end == (if i + size > |items| then |items| else i + size)
    requires ChunkedTo(items, size, i, chunks)
    ensures ChunkedTo(items, size, i + size, chunks + [items[i..end]])
  {
    var rest := items[i..];
    assert rest[..end - i] == items[i..end];
    if i + size < |items| {
      assert rest[size..] == items[i + size..];
      assert chunks + ([items[i..end]] + Chunks(rest[size..], size))
          == (chunks + [items[i..end]]) + Chunks(rest[size..], size);
    } else {
      assert rest == items[i..end];
    }
  }

  method ChunkItems<T>(items: seq<T>, size: nat) returns (chunks: seq<seq<T>>)
    requires size > 0
    ensures chunks == Chunks(items, size)
    ensures IsChunking(items, size, chunks)
  {
    ChunksAreChunking(items, size);
    if |items| <= size {
      return [items];
    }
    chunks := [];
    assert items[0..] == items;
    var i := 0;
    while i < |items|
      invariant i >= 0 && ChunkedTo(items, size, i, chunks)
    {
      var end := i + size;
      if end > |items| {
        end := |items|;
      }
      NextChunk(items, size, i, end, chunks);
      chunks := chunks + [items[i..end]];
      i := i + size;
    }
  }

  // ---------------------------------------------------------------- merging

  function Add(a: Counts, b: Counts): Counts {
    map id | id in a.Keys + b.Keys :: GetOrZero(a, id) + GetOrZero(b, id)
  }

  function Shift(rs: seq<ItemResult>, offset: nat): (r: seq<ItemResult>)
    ensures |r| == |rs|
    ensures forall i | 0 <= i < |rs| :: r[i] == rs[i].(index := rs[i].index + offset)
  {
    if rs == [] then []
    else Shift(rs[..|rs| - 1], offset) + [rs[|rs| - 1].(index := rs[|rs| - 1].index + offset)]
  }

  /** `mergeSummary` on values. */
  function Merged(dst: Totals, src: Totals, offset: nat): Totals {
    Totals(dst.items + Shift(src.items, offset), dst.ok + src.ok, dst.failed + src.failed, dst.fanout,
           Add(dst.providers, src.providers), dst.promptTokens + src.promptTokens,
           dst.completionTokens + src.completionTokens,
           if src.concurrency > dst.concurrency then src.concurrency else dst.concurrency)
  }

  /** The summary being built up, updated in place chunk by chunk. */
  class Summary {
    var items: seq<ItemResult>
    var ok: nat
    var failed: nat
    var providers: Counts
    var promptTokens: int
    var completionTokens: int
    var concurrency: nat
    var fanout: nat

    function View(): Totals
      reads this
    {
      Totals(items, ok, failed, fanout, providers, promptTokens, completionTokens, concurrency)
    }

    constructor ()
      ensures View() == Totals([], 0, 0, 0, map[], 0, 0, 0)
    {
      items, ok, failed, providers := [], 0, 0, map[];
      promptTokens, completionTokens, concurrency, fanout := 0, 0, 0, 0;
    }

    method AppendItems(src: seq<ItemResult>, offset: nat)
      modifies this`items
      ensures items == old(items) + Shift(src, offset)
    {
      for i := 0 to |src|
        invariant items == old(items) + Shift(src[..i], offset)
      {
        var it := src[i];
        assert src[..i + 1][..i] == src[..i];
        items := items + [it.(index := it.index + offset)];
      }
      assert src[..|src|] == src;
    }

    method AddProviders(src: Counts)
      modifies this`providers
      ensures providers == Add(old(providers), src)
    {
      var left := src.Keys;
      while left != {}
        invariant left <= src.Keys
        invariant providers.Keys == old(providers).Keys + (src.Keys - left)
        invariant forall id | id in providers ::
          providers[id] == GetOrZero(old(providers), id) + (if id in src.Keys - left then src[id] else 0)
        decreases left
      {
        var id :| id in left;
        providers := providers[id := GetOrZero(providers, id) + src[id]];
        left := left - {id};
      }
    }

    method Merge(src: Totals, offset: nat)
      modifies this
      ensures View() == Merged(old(View()), src, offset)
    {
      AppendItems(src.items, offset);
      AddProviders(src.providers);
      ok := ok + src.ok;
      failed := failed + src.failed;
      promptTokens := promptTokens + src.promptTokens;
      completionTokens := completionTokens + src.completionTokens;
      if src.concurrency > concurrency {
        concurrency := src.concurrency;
      }
    }
  }

  lemma Snoc(rs: seq<ItemResult>, r: ItemResult, id: string)
    ensures OkCount(rs + [r]) == OkCount(rs) + (if r.Ok() then 1 else 0)
    ensures PromptSum(rs + [r]) == PromptSum(rs) + (if r.Ok() then r.promptTokens else 0)
    ensures CompletionSum(rs + [r]) == CompletionSum(rs) + (if r.Ok() then r.completionTokens else 0)
    ensures HandledBy(rs + [r], id) == HandledBy(rs, id) + (if r.providerId == id then 1 else 0)
  {
    assert (rs + [r])[..|rs|] == rs;
  }

  lemma {:induction false} SumsAdd(a: seq<ItemResult>, b: seq<ItemResult>, offset: nat, id: string)
    ensures OkCount(a + Shift(b, offset)) == OkCount(a) + OkCount(b)
    ensures PromptSum(a + Shift(b, offset)) == PromptSum(a) + PromptSum(b)
    ensures CompletionSum(a + Shift(b, offset)) == CompletionSum(a) + CompletionSum(b)
    ensures HandledBy(a + Shift(b, offset), id) == HandledBy(a, id) + HandledBy(b, id)
  {
    if b == [] {
      assert a + Shift(b, offset) == a;
    } else {
      var init, r := b[..|b| - 1], b[|b| - 1];
      SumsAdd(a, init, offset, id);
      var shifted := r.(index := r.index + offset);
      assert a + Shift(b, offset) == (a + Shift(init, offset)) + [shifted];
      Snoc(a + Shift(init, offset), shifted, id);
    }
  }

  lemma HandlersAdd(a: seq<ItemResult>, b: seq<ItemResult>, offset: nat)
    ensures Handlers(a + Shift(b, offset)) == Handlers(a) + Handlers(b)
  {
    var all := a + Shift(b, offset);
    forall id | id in Handlers(a) + Handlers(b) ensures id in Handlers(all) {
      if id in Handlers(a) {
        var r :| r in a && r.providerId == id;
        assert r in all;
      } else {
        var i :| 0 <= i < |b| && b[i].providerId == id;
        assert all[|a| + i].providerId == id && all[|a| + i] in all;
      }
    }
    forall id | id in Handlers(all) ensures id in Handlers(a) + Handlers(b) {
      var i :| 0 <= i < |all| && all[i].providerId == id;
      if i < |a| {
        assert a[i] in a;
      } else {
        assert all[i] == Shift(b, offset)[i - |a|];
        assert b[i - |a|] in b;
      }
    }
  }

  lemma SameCounts(m: Counts, n: Counts)
    requires m.Keys == n.Keys && forall id | id in m.Keys :: m[id] == n[id]
    ensures m == n
  {
  }

  lemma CountsAddUp(a: seq<ItemResult>, b: seq<ItemResult>, offset: nat)
    ensures ProviderCounts(a + Shift(b, offset)) == Add(ProviderCounts(a), ProviderCounts(b))
  {
    var all := a + Shift(b, offset);
    var sum := Add(ProviderCounts(a), ProviderCounts(b));
    HandlersAdd(a, b, offset);
    CountsAreHandled(a);
    CountsAreHandled(b);
    CountsAreHandled(all);
    forall id | id in Handlers(all) ensures ProviderCounts(all)[id] == sum[id] {
      SumsAdd(a, b, offset, id);
      assert GetOrZero(ProviderCounts(all), id) == HandledBy(all, id);
    }
    SameCounts(ProviderCounts(all), sum);
  }

  /** Merging the summary of one more chunk gives the summary of all results so far. */
  lemma MergeAgrees(a: seq<ItemResult>, b: seq<ItemResult>, v: nat, w: nat)
    ensures Merged(Unfanned(a, v), SummaryOf(b, w), |a|) == Unfanned(a + Shift(b, |a|), if w > v then w else v)
  {
    var all := a + Shift(b, |a|);
    SumsAdd(a, b, |a|, "");
    var m, u := Merged(Unfanned(a, v), SummaryOf(b, w), |a|), Unfanned(all, if w > v then w else v);
    assert m.items == u.items;
    assert m.ok == u.ok;
    assert m.failed == u.failed;
    assert m.providers == u.providers by { CountsAddUp(a, b, |a|); }
    assert m.promptTokens == u.promptTokens;
    assert m.completionTokens == u.completionTokens;
    assert m.concurrency == u.concurrency;
  }

  // ---------------------------------------------------------------- the whole workload

  /** What `batch.Run` answered for each chunk: nothing could be attempted, or its results. */
  type Attempt = Option<seq<ItemResult>>

  /** All results of the chunks, numbered through. */
  function Renumbered(runs: seq<seq<ItemResult>>): seq<ItemResult> {
    if runs == [] then []
    else
      var before := Renumbered(runs[..|runs| - 1]);
      before + Shift(runs[|runs| - 1], |before|)
  }

  function MaxOf(ws: seq<nat>): nat {
    if ws == [] then 0
    else
      var m := MaxOf(ws[..|ws| - 1]);
      if ws[|ws| - 1] > m then ws[|ws| - 1] else m
  }

  /** Items are answered one by one, in submission order. */
  ghost predicate InOrder(rs: seq<ItemResult>) {
    forall i | 0 <= i < |rs| :: rs[i].index == i
  }

  // ---------------------------------------------------------------- what a batch answers

  /** The result `runOne` builds. A provider that names itself replaces the one that was chosen. */
  function ResultOf(t: Batch.Tagged): (r: ItemResult)
    ensures r.index == t.index && (r.Ok() <==> t.Tagged? && t.answer.Answered?)
  {
    match t
    case Cancelled(index, code) => ItemResult(index, "", 0, 0, "", "", Pricing.Community, "", code)
    case Tagged(index, provider, Failed(code)) => ItemResult(index, "", 0, 0, provider, "", Pricing.Community, "", code)
    case Tagged(index, provider, Answered(content, prompt, completion, providerId, providerPk, tier, jobId)) =>
      ItemResult(index, content, prompt, completion, if providerId != "" then providerId else provider,
                 providerPk, tier, jobId, "")
  }

  function ResultsOf(results: seq<Option<Batch.Tagged>>): (rs: seq<ItemResult>)
    requires forall i | 0 <= i < |results| :: results[i].Some?
    ensures |rs| == |results| && forall i | 0 <= i < |rs| :: rs[i] == ResultOf(results[i].value)
  {
    seq(|results|, i requires 0 <= i < |results| => ResultOf(results[i].value))
  }

  /** `rs` is what some interleaving of the worker pool answers for `chunk`. */
  ghost predicate BatchAnswers(chunk: seq<Batch.Item>, concurrency: int, rs: seq<ItemResult>) {
    exists cands: seq<string>, steps: seq<Batch.Step> :: IsRun(chunk, concurrency, cands, steps, rs)
  }

  ghost predicate IsRun(chunk: seq<Batch.Item>, concurrency: int, cands: seq<string>, steps: seq<Batch.Step>,
                        rs: seq<ItemResult>)
  {
    && cands != [] && Batch.Distinct(cands)
    && var pool := Batch.Exec(Batch.Start(cands, chunk, Batch.Workers(concurrency, |chunk|)), steps);
       && Batch.Drained(pool) && (forall i | 0 <= i < |pool.results| :: pool.results[i].Some?)
       && rs == ResultsOf(pool.results)
  }

  /** Whatever the interleaving, a batch answers each of its items in its place. */
  lemma BatchAnswersInOrder(chunk: seq<Batch.Item>, concurrency: int, rs: seq<ItemResult>)
    requires BatchAnswers(chunk, concurrency, rs)
    ensures |rs| == |chunk| && InOrder(rs)
  {
    var cands: seq<string>, steps: seq<Batch.Step> :| IsRun(chunk, concurrency, cands, steps, rs);
    Batch.EveryItemIsAnsweredOnce(cands, chunk, Batch.Workers(concurrency, |chunk|), steps);
  }

  // ---------------------------------------------------------------- results against executions

  /** `rs` is what some interleaving answers for `chunk`, and `log` lists its executions. */
  ghost predicate BatchLogged(chunk: seq<Batch.Item>, concurrency: int, rs: seq<ItemResult>, log: seq<Batch.Call>) {
    exists cands: seq<string>, steps: seq<Batch.Step> ::
      && IsRun(chunk, concurrency, cands, steps, rs)
      && log == Batch.Exec(Batch.Start(cands, chunk, Batch.Workers(concurrency, |chunk|)), steps).log
  }

  lemma EveryBatchIsLogged(chunk: seq<Batch.Item>, concurrency: int, rs: seq<ItemResult>) returns (log: seq<Batch.Call>)
    requires BatchAnswers(chunk, concurrency, rs)
    ensures BatchLogged(chunk, concurrency, rs, log)
  {
    var cands: seq<string>, steps: seq<Batch.Step> :| IsRun(chunk, concurrency, cands, steps, rs);
    log := Batch.Exec(Batch.Start(cands, chunk, Batch.Workers(concurrency, |chunk|)), steps).log;
  }

  /** The result says what the execution answered. */
  ghost predicate Carries(r: ItemResult, call: Batch.Call) {
    match call.answer
    case Failed(code) =>
      && r.errCode == code && r.content == "" && r.promptTokens == 0 && r.completionTokens == 0
      && r.providerId == call.provider && r.providerPk == "" && r.jobId == ""
    case Answered(content, promptTokens, completionTokens, providerId, providerPk, tier, jobId) =>
      && r.errCode == "" && r.content == content
      && r.promptTokens == promptTokens && r.completionTokens == completionTokens
      && r.providerId == (if providerId == "" then call.provider else providerId)
      && r.providerPk == providerPk && r.tier == tier && r.jobId == jobId
  }

  /** The item failed before any provider was chosen for it. */
  ghost predicate NeverTried(r: ItemResult) {
    && r.errCode != "" && r.content == "" && r.promptTokens == 0 && r.completionTokens == 0
    && r.providerId == "" && r.providerPk == "" && r.jobId == ""
  }

  /** Every execution was for another item and was given that item; the result in its place is what
      it answered, and the results in other places are of items never tried. */
  ghost predicate Reports(chunk: seq<Batch.Item>, rs: seq<ItemResult>, log: seq<Batch.Call>) {
    && |rs| == |chunk| && Batch.CalledOnce(log)
    && (forall k | 0 <= k < |log| :: log[k].slot < |chunk| && log[k].given == chunk[log[k].slot])
    && (forall k | 0 <= k < |log| && log[k].slot < |rs| :: Carries(rs[log[k].slot], log[k]))
    && (forall i: nat | i < |rs| && Batch.NotCalled(log, i) :: NeverTried(rs[i]))
  }

  lemma VouchedIsCarried(work: seq<Batch.Item>, log: seq<Batch.Call>, i: nat, t: Batch.Tagged, k: nat)
    requires Batch.Vouched(work, log, i, t) && Batch.CalledOnce(log) && k < |log| && log[k].slot == i
    ensures Carries(ResultOf(t), log[k])
  {
    match t
    case Cancelled(_, _) => assert false;
    case Tagged(_, provider, answer) =>
      var j :| 0 <= j < |log| && log[j] == Batch.Call(i, work[i], provider, answer);
      assert j == k;
  }

  lemma TaggedIsCalled(work: seq<Batch.Item>, log: seq<Batch.Call>, i: nat, t: Batch.Tagged)
    requires Batch.Vouched(work, log, i, t) && t.Tagged?
    ensures !Batch.NotCalled(log, i)
  {
    var j :| 0 <= j < |log| && log[j] == Batch.Call(i, work[i], t.provider, t.answer);
  }

  lemma UncalledIsNeverTried(work: seq<Batch.Item>, log: seq<Batch.Call>, i: nat, t: Batch.Tagged)
    requires Batch.Vouched(work, log, i, t) && Batch.NotCalled(log, i)
    ensures NeverTried(ResultOf(t))
  {
    if t.Tagged? {
      TaggedIsCalled(work, log, i, t);
    }
  }

  /** Whatever the interleaving, the results of a batch are what its executions answered. */
  lemma BatchReportsExecutions(chunk: seq<Batch.Item>, concurrency: int, rs: seq<ItemResult>, log: seq<Batch.Call>)
    requires BatchLogged(chunk, concurrency, rs, log)
    ensures Reports(chunk, rs, log)
  {
    var cands: seq<string>, steps: seq<Batch.Step> :|
      && IsRun(chunk, concurrency, cands, steps, rs)
      && log == Batch.Exec(Batch.Start(cands, chunk, Batch.Workers(concurrency, |chunk|)), steps).log;
    Batch.EveryItemIsAnsweredOnce(cands, chunk, Batch.Workers(concurrency, |chunk|), steps);
    var pool := Batch.Exec(Batch.Start(cands, chunk, Batch.Workers(concurrency, |chunk|)), steps);
    forall k | 0 <= k < |log| && log[k].slot < |rs| ensures Carries(rs[log[k].slot], log[k]) {
      VouchedIsCarried(chunk, log, log[k].slot, pool.results[log[k].slot].value, k);
    }
    forall i: nat | i < |rs| && Batch.NotCalled(log, i) ensures NeverTried(rs[i]) {
      UncalledIsNeverTried(chunk, log, i, pool.results[i].value);
    }
  }

  // ---------------------------------------------------------------- provider earnings

  /** The configured multiplier of the rate card and its further factor for spot work. */
  datatype Prices = Prices(multiplier: real, spotFactor: real)
  {
    /** What a workload is quoted with, and asks its items to be recorded with. */
    function SpotPriceMult(spot: bool): real {
      if spot then multiplier * spotFactor else multiplier
    }

    /** What an item is recorded with: a multiplier that is not positive gives way to the
        configured one. */
    function RecordMult(priceMult: real): real {
      if priceMult <= 0.0 then multiplier else priceMult
    }
  }

  /** What `recordJob` credits for one successful item. */
  datatype Earning = Earning(jobId: string, providerPk: string, grossMicros: int, providerMicros: int)

  function EarningOf(c: Pricing.ModelClass, priceMult: real, r: ItemResult): Earning {
    var quote := Pricing.QuoteJob(c, r.tier, r.promptTokens, r.completionTokens, priceMult, 1.0);
    Earning(r.jobId, r.providerPk, quote.grossMicros, quote.providerMicros)
  }

  /** One earning per successful item, in order. */
  function Earnings(c: Pricing.ModelClass, priceMult: real, rs: seq<ItemResult>): seq<Earning> {
    if rs == [] then []
    else
      var last := rs[|rs| - 1];
      Earnings(c, priceMult, rs[..|rs| - 1]) + (if last.Ok() then [EarningOf(c, priceMult, last)] else [])
  }

  function Micros(earnings: seq<Earning>): int {
    if earnings == [] then 0 else Micros(earnings[..|earnings| - 1]) + earnings[|earnings| - 1].providerMicros
  }

  function UseOf(r: ItemResult): Pricing.Use {
    Pricing.Use(r.tier, r.promptTokens, r.completionTokens)
  }

  /** The successful items as the pricing bound counts them. */
  function UsesOf(rs: seq<ItemResult>): (uses: seq<Pricing.Use>)
    ensures |uses| == OkCount(rs)
  {
    if rs == [] then []
    else UsesOf(rs[..|rs| - 1]) + (if rs[|rs| - 1].Ok() then [UseOf(rs[|rs| - 1])] else [])
  }

  lemma {:induction false} TotalSnoc(f: Pricing.Use -> int, uses: seq<Pricing.Use>, u: Pricing.Use)
    ensures Pricing.Total(f, uses + [u]) == Pricing.Total(f, uses) + f(u)
  {
    if uses == [] {
      assert [] + [u] == [u] && [u][1..] == [];
    } else {
      assert (uses + [u])[1..] == uses[1..] + [u];
      TotalSnoc(f, uses[1..], u);
    }
  }

  lemma MicrosSnoc(earnings: seq<Earning>, e: Earning)
    ensures Micros(earnings + [e]) == Micros(earnings) + e.providerMicros
  {
    assert (earnings + [e])[..|earnings|] == earnings;
  }

  lemma EarningsSnoc(c: Pricing.ModelClass, priceMult: real, rs: seq<ItemResult>, r: ItemResult)
    ensures Micros(Earnings(c, priceMult, rs + [r]))
         == Micros(Earnings(c, priceMult, rs)) + (if r.Ok() then EarningOf(c, priceMult, r).providerMicros else 0)
  {
    assert (rs + [r])[..|rs|] == rs;
    var before := Earnings(c, priceMult, rs);
    assert before + [] == before;
    if r.Ok() {
      MicrosSnoc(before, EarningOf(c, priceMult, r));
    }
  }

  lemma UsesSnoc(c: Pricing.ModelClass, priceMult: real, rs: seq<ItemResult>, r: ItemResult)
    ensures Pricing.Accrued(c, UsesOf(rs + [r]), priceMult)
         == Pricing.Accrued(c, UsesOf(rs), priceMult)
            + (if r.Ok() then EarningOf(c, priceMult, r).providerMicros else 0)
  {
    assert (rs + [r])[..|rs|] == rs;
    var before := UsesOf(rs);
    assert before + [] == before;
    if r.Ok() {
      TotalSnoc(Pricing.Accrual(c, priceMult), before, UseOf(r));
    }
  }

  /** What the providers of a workload are credited is what the pricing bound adds up. */
  lemma {:induction false} EarningsAreAccrued(c: Pricing.ModelClass, priceMult: real, rs: seq<ItemResult>)
    ensures Micros(Earnings(c, priceMult, rs)) == Pricing.Accrued(c, UsesOf(rs), priceMult)
  {
    if rs == [] {
    } else {
      var init, last := rs[..|rs| - 1], rs[|rs| - 1];
      assert init + [last] == rs;
      EarningsAreAccrued(c, priceMult, init);
      EarningsSnoc(c, priceMult, init, last);
      UsesSnoc(c, priceMult, init, last);
    }
  }

  // ---------------------------------------------------------------- totals against executions

  function ResultSum(rs: seq<ItemResult>, g: ItemResult -> int): int {
    if rs == [] then 0 else ResultSum(rs[..|rs| - 1], g) + g(rs[|rs| - 1])
  }

  /** What a result adds under `g` is what its execution adds under `f`, and a result of an item
      never tried adds nothing. The position does not matter. */
  ghost predicate Matches(g: ItemResult -> int, f: Batch.Call -> int) {
    && (forall r, call | Carries(r, call) :: g(r) == f(call))
    && (forall r | NeverTried(r) :: g(r) == 0)
    && AnyPosition(g)
  }

  ghost predicate AnyPosition(g: ItemResult -> int) {
    forall r: ItemResult, i: nat :: g(r.(index := i)) == g(r)
  }

  lemma {:induction false} SumOverPositions(chunk: seq<Batch.Item>, rs: seq<ItemResult>, log: seq<Batch.Call>,
                                            g: ItemResult -> int, f: Batch.Call -> int, n: nat)
    requires Reports(chunk, rs, log) && Matches(g, f) && n <= |rs|
    ensures ResultSum(rs[..n], g) == Batch.SlotSum(log, f, n)
  {
    if n == 0 {
    } else {
      SumOverPositions(chunk, rs, log, g, f, n - 1);
      assert rs[..n][..n - 1] == rs[..n - 1];
      ResultIsSlotValue(chunk, rs, log, g, f, n - 1);
    }
  }

  lemma ResultIsSlotValue(chunk: seq<Batch.Item>, rs: seq<ItemResult>, log: seq<Batch.Call>,
                          g: ItemResult -> int, f: Batch.Call -> int, i: nat)
    requires Reports(chunk, rs, log) && Matches(g, f) && i < |rs|
    ensures g(rs[i]) == Batch.SlotValue(log, f, i)
  {
    if Batch.NotCalled(log, i) {
      Batch.NoValue(log, f, i);
    } else {
      var k :| 0 <= k < |log| && log[k].slot == i;
      assert Carries(rs[log[k].slot], log[k]);
      Batch.ValueOfCall(log, f, k);
    }
  }

  lemma SumOverExecutions(chunk: seq<Batch.Item>, rs: seq<ItemResult>, log: seq<Batch.Call>,
                          g: ItemResult -> int, f: Batch.Call -> int)
    requires Reports(chunk, rs, log) && Matches(g, f)
    ensures ResultSum(rs, g) == Batch.LogSum(log, f)
  {
    assert rs[..|rs|] == rs;
    SumOverPositions(chunk, rs, log, g, f, |rs|);
    Batch.SumBySlot(log, f, |rs|);
  }

  lemma ResultSumSnoc(rs: seq<ItemResult>, r: ItemResult, g: ItemResult -> int)
    ensures ResultSum(rs + [r], g) == ResultSum(rs, g) + g(r)
  {
    assert (rs + [r])[..|rs|] == rs;
  }

  lemma {:induction false} ResultSumAdds(a: seq<ItemResult>, b: seq<ItemResult>, offset: nat, g: ItemResult -> int)
    requires AnyPosition(g)
    ensures ResultSum(a + Shift(b, offset), g) == ResultSum(a, g) + ResultSum(b, g)
  {
    if b == [] {
      assert a + Shift(b, offset) == a;
    } else {
      var init, r := b[..|b| - 1], b[|b| - 1];
      ResultSumAdds(a, init, offset, g);
      var moved := r.(index := r.index + offset);
      assert a + Shift(b, offset) == (a + Shift(init, offset)) + [moved];
      ResultSumSnoc(a + Shift(init, offset), moved, g);
    }
  }

  /** Chunk by chunk, the results report the executions in the logs. */
  ghost predicate AllReport(chunks: seq<seq<Batch.Item>>, done: seq<seq<ItemResult>>, logs: seq<seq<Batch.Call>>) {
    && |done| == |chunks| == |logs|
    && forall k | 0 <= k < |done| :: Reports(chunks[k], done[k], logs[k])
  }

  lemma {:induction false} SumOverLogs(chunks: seq<seq<Batch.Item>>, done: seq<seq<ItemResult>>,
                                       logs: seq<seq<Batch.Call>>, g: ItemResult -> int, f: Batch.Call -> int)
    requires AllReport(chunks, done, logs) && Matches(g, f)
    ensures ResultSum(Renumbered(done), g) == Batch.LogSum(Flatten(logs), f)
  {
    if done == [] {
    } else {
      var n := |done| - 1;
      SumOverLogs(chunks[..n], done[..n], logs[..n], g, f);
      ResultSumAdds(Renumbered(done[..n]), done[n], |Renumbered(done[..n])|, g);
      Batch.LogSumAdds(Flatten(logs[..n]), logs[n], f);
      SumOverExecutions(chunks[n], done[n], logs[n], g, f);
    }
  }

  // the four totals of a summary, of results and of executions

  function OkOf(): ItemResult -> int { (r: ItemResult) => if r.errCode == "" then 1 else 0 }

  function PromptOf(): ItemResult -> int { (r: ItemResult) => if r.errCode == "" then r.promptTokens else 0 }

  function CompletionOf(): ItemResult -> int { (r: ItemResult) => if r.errCode == "" then r.completionTokens else 0 }

  function HandledOf(id: string): ItemResult -> int { (r: ItemResult) => if r.providerId == id then 1 else 0 }

  function OkAnswers(): Batch.Call -> int { (c: Batch.Call) => if c.answer.Answered? then 1 else 0 }

  function PromptAnswered(): Batch.Call -> int {
    (c: Batch.Call) => if c.answer.Answered? then c.answer.promptTokens else 0
  }

  function CompletionAnswered(): Batch.Call -> int {
    (c: Batch.Call) => if c.answer.Answered? then c.answer.completionTokens else 0
  }

  /** The provider is the one the answer names, or the chosen one where it names none. */
  function AnsweredBy(id: string): Batch.Call -> int {
    (c: Batch.Call) =>
      var named := c.answer.Answered? && c.answer.providerId != "";
      if (if named then c.answer.providerId else c.provider) == id then 1 else 0
  }

  lemma TotalsMatch(id: string)
    ensures Matches(OkOf(), OkAnswers())
    ensures Matches(PromptOf(), PromptAnswered())
    ensures Matches(CompletionOf(), CompletionAnswered())
    ensures id != "" ==> Matches(HandledOf(id), AnsweredBy(id))
  {
  }

  lemma {:induction false} TotalsAreSums(rs: seq<ItemResult>, id: string)
    ensures OkCount(rs) == ResultSum(rs, OkOf()) && PromptSum(rs) == ResultSum(rs, PromptOf())
    ensures CompletionSum(rs) == ResultSum(rs, CompletionOf()) && HandledBy(rs, id) == ResultSum(rs, HandledOf(id))
  {
    if rs == [] {
    } else {
      TotalsAreSums(rs[..|rs| - 1], id);
    }
  }

  /** The totals of a summary are those of the executions in `log`. */
  ghost predicate CountsExecutions(s: Totals, log: seq<Batch.Call>) {
    && s.ok == Batch.LogSum(log, OkAnswers())
    && s.promptTokens == Batch.LogSum(log, PromptAnswered())
    && s.completionTokens == Batch.LogSum(log, CompletionAnswered())
    && forall id | id != "" :: GetOrZero(s.providers, id) == Batch.LogSum(log, AnsweredBy(id))
  }

  lemma SummaryCountsExecutions(chunks: seq<seq<Batch.Item>>, done: seq<seq<ItemResult>>,
                                logs: seq<seq<Batch.Call>>, workers: nat)
    requires AllReport(chunks, done, logs)
    ensures CountsExecutions(SummaryOf(Renumbered(done), workers), Flatten(logs))
  {
    var all := Renumbered(done);
    TotalsMatch("");
    TotalsAreSums(all, "");
    SumOverLogs(chunks, done, logs, OkOf(), OkAnswers());
    SumOverLogs(chunks, done, logs, PromptOf(), PromptAnswered());
    SumOverLogs(chunks, done, logs, CompletionOf(), CompletionAnswered());
    forall id | id != ""
      ensures GetOrZero(ProviderCounts(all), id) == Batch.LogSum(Flatten(logs), AnsweredBy(id))
    {
      CountsAreHandled(all);
      TotalsMatch(id);
      TotalsAreSums(all, id);
      SumOverLogs(chunks, done, logs, HandledOf(id), AnsweredBy(id));
    }
  }

  // the earnings, under any measure of them

  function EarningSum(earnings: seq<Earning>, h: Earning -> int): int {
    if earnings == [] then 0 else EarningSum(earnings[..|earnings| - 1], h) + h(earnings[|earnings| - 1])
  }

  /** What an answered execution earns its provider: the price of the tokens it reports at the tier
      it reports, credited to its key under its job. */
  function EarnedBy(c: Pricing.ModelClass, priceMult: real, h: Earning -> int): Batch.Call -> int {
    (call: Batch.Call) =>
      if call.answer.Answered? then
        var a := call.answer;
        var quote := Pricing.QuoteJob(c, a.tier, a.promptTokens, a.completionTokens, priceMult, 1.0);
        h(Earning(a.jobId, a.providerPk, quote.grossMicros, quote.providerMicros))
      else 0
  }

  function EarnedOf(c: Pricing.ModelClass, priceMult: real, h: Earning -> int): ItemResult -> int {
    (r: ItemResult) => if r.Ok() then h(EarningOf(c, priceMult, r)) else 0
  }

  lemma EarnedMatches(c: Pricing.ModelClass, priceMult: real, h: Earning -> int)
    ensures Matches(EarnedOf(c, priceMult, h), EarnedBy(c, priceMult, h))
  {
    var g, f := EarnedOf(c, priceMult, h), EarnedBy(c, priceMult, h);
    forall r: ItemResult, call | Carries(r, call) ensures g(r) == f(call) {
      EarnedAlike(c, priceMult, r, call);
    }
    forall r | NeverTried(r) ensures g(r) == 0 {
      assert !r.Ok();
    }
    forall r: ItemResult, i: nat ensures g(r.(index := i)) == g(r) {
      EarnedAnywhere(c, priceMult, h, r, i);
    }
  }

  lemma EarnedAnywhere(c: Pricing.ModelClass, priceMult: real, h: Earning -> int, r: ItemResult, i: nat)
    ensures EarnedOf(c, priceMult, h)(r.(index := i)) == EarnedOf(c, priceMult, h)(r)
  {
    var moved := r.(index := i);
    assert moved.Ok() == r.Ok() && EarningOf(c, priceMult, moved) == EarningOf(c, priceMult, r);
    if r.Ok() {
      assert EarnedOf(c, priceMult, h)(moved) == h(EarningOf(c, priceMult, moved));
    } else {
      assert EarnedOf(c, priceMult, h)(moved) == 0;
    }
  }

  lemma EarnedAlike(c: Pricing.ModelClass, priceMult: real, r: ItemResult, call: Batch.Call)
    requires Carries(r, call)
    ensures r.Ok() <==> call.answer.Answered?
    ensures call.answer.Answered? ==>
      var a := call.answer;
      var quote := Pricing.QuoteJob(c, a.tier, a.promptTokens, a.completionTokens, priceMult, 1.0);
      EarningOf(c, priceMult, r) == Earning(a.jobId, a.providerPk, quote.grossMicros, quote.providerMicros)
  {
  }

  lemma {:induction false} EarningsAreSums(c: Pricing.ModelClass, priceMult: real, h: Earning -> int,
                                           rs: seq<ItemResult>)
    ensures EarningSum(Earnings(c, priceMult, rs), h) == ResultSum(rs, EarnedOf(c, priceMult, h))
  {
    if rs == [] {
    } else {
      var before, last := Earnings(c, priceMult, rs[..|rs| - 1]), rs[|rs| - 1];
      EarningsAreSums(c, priceMult, h, rs[..|rs| - 1]);
      assert before + [] == before;
      if last.Ok() {
        assert (before + [EarningOf(c, priceMult, last)])[..|before|] == before;
      }
    }
  }

  /** The earnings are those of the answered executions and no others: whatever is measured, the
      providers, jobs and amounts included, adds up to the same over both. */
  lemma EarningsAreForExecutions(chunks: seq<seq<Batch.Item>>, done: seq<seq<ItemResult>>,
                                 logs: seq<seq<Batch.Call>>, c: Pricing.ModelClass, priceMult: real, h: Earning -> int)
    requires AllReport(chunks, done, logs)
    ensures EarningSum(Earnings(c, priceMult, Renumbered(done)), h)
         == Batch.LogSum(Flatten(logs), EarnedBy(c, priceMult, h))
  {
    EarnedMatches(c, priceMult, h);
    EarningsAreSums(c, priceMult, h, Renumbered(done));
    SumOverLogs(chunks, done, logs, EarnedOf(c, priceMult, h), EarnedBy(c, priceMult, h));
  }

  datatype Outcome = Aborted | Ran(summary: Totals, accruals: seq<Earning>, charged: int)

  /** The summary of the chunks run so far. */
  function SoFar(done: seq<seq<ItemResult>>, workers: seq<nat>): Totals {
    Unfanned(Renumbered(done), MaxOf(workers))
  }

  lemma OneMoreList(done: seq<seq<ItemResult>>, rs: seq<ItemResult>, ws: seq<nat>, w: nat)
    ensures Renumbered(done + [rs]) == Renumbered(done) + Shift(rs, |Renumbered(done)|)
    ensures MaxOf(ws + [w]) == if w > MaxOf(ws) then w else MaxOf(ws)
  {
    assert (done + [rs])[..|done|] == done && (ws + [w])[..|ws|] == ws;
  }

  lemma InOrderGrows(a: seq<ItemResult>, b: seq<ItemResult>)
    requires InOrder(a) && InOrder(b)
    ensures InOrder(a + Shift(b, |a|))
  {
  }

  lemma OneMoreChunk(done: seq<seq<ItemResult>>, rs: seq<ItemResult>, ws: seq<nat>, w: nat)
    requires InOrder(Renumbered(done)) && InOrder(rs)
    ensures Merged(SoFar(done, ws), SummaryOf(rs, w), |Renumbered(done)|) == SoFar(done + [rs], ws + [w])
    ensures InOrder(Renumbered(done + [rs]))
  {
    OneMoreList(done, rs, ws, w);
    InOrderGrows(Renumbered(done), rs);
    MergeAgrees(Renumbered(done), rs, MaxOf(ws), w);
  }

  lemma FanoutIsHandlers(rs: seq<ItemResult>)
    ensures |ProviderCounts(rs)| == |Handlers(rs)|
  {
    CountsAreHandled(rs);
    assert |ProviderCounts(rs)| == |ProviderCounts(rs).Keys|;
  }

  /** The state of the chunk loop before chunk `k`. */
  ghost predicate Progress(runs: seq<Attempt>, workers: seq<nat>, k: nat, view: Totals, done: seq<seq<ItemResult>>) {
    && k <= |runs| == |workers|
    && |done| == k && (forall j | 0 <= j < k :: runs[j] == Some(done[j]))
    && view == SoFar(done, workers[..k]) && InOrder(Renumbered(done))
  }

  lemma ProgressSteps(runs: seq<Attempt>, workers: seq<nat>, k: nat, view: Totals, done: seq<seq<ItemResult>>,
                      rs: seq<ItemResult>)
    requires Progress(runs, workers, k, view, done) && k < |runs| && runs[k] == Some(rs) && InOrder(rs)
    ensures Progress(runs, workers, k + 1, Merged(view, SummaryOf(rs, workers[k]), |view.items|), done + [rs])
  {
    OneMoreChunk(done, rs, workers[..k], workers[k]);
    assert workers[..k] + [workers[k]] == workers[..k + 1];
  }

  lemma ProgressEnds(runs: seq<Attempt>, workers: seq<nat>, view: Totals, done: seq<seq<ItemResult>>)
    requires Progress(runs, workers, |runs|, view, done)
    ensures view.(fanout := |view.providers|) == SummaryOf(Renumbered(done), MaxOf(workers))
    ensures InOrder(view.items)
  {
    assert workers[..|workers|] == workers;
    FanoutIsHandlers(Renumbered(done));
  }

  /** Run and merge the chunks in turn; the first that cannot be attempted ends everything. */
  method RunChunks(runs: seq<Attempt>, workers: seq<nat>)
    returns (merged: Option<Totals>, ghost done: seq<seq<ItemResult>>)
    requires |runs| == |workers|
    requires forall k | 0 <= k < |runs| && runs[k].Some? :: InOrder(runs[k].value)
    ensures merged.None? <==> exists k :: 0 <= k < |runs| && runs[k].None?
    ensures merged.Some? ==> |done| == |runs| && forall k | 0 <= k < |runs| :: runs[k] == Some(done[k])
    ensures merged.Some? ==> merged.value == SummaryOf(Renumbered(done), MaxOf(workers)) && InOrder(merged.value.items)
  {
    var sum := new Summary();
    done := [];
    assert workers[..0] == [];
    for k := 0 to |runs|
      invariant fresh(sum)
      invariant Progress(runs, workers, k, sum.View(), done)
    {
      if runs[k].None? {
        return None, done;
      }
      var rs := runs[k].value;
      ProgressSteps(runs, workers, k, sum.View(), done, rs);
      var part := Summarize(rs, workers[k]);
      sum.Merge(part, |sum.items|);
      done := done + [rs];
    }
    ProgressEnds(runs, workers, sum.View(), done);
    sum.fanout := |sum.providers|;
    merged := Some(sum.View());
  }

  /** One earning per item that succeeded, priced by the tier it was served at and the tokens used. */
  method Accrue(items: seq<ItemResult>, c: Pricing.ModelClass, prices: Prices, priceMult: real)
    returns (accruals: seq<Earning>)
    ensures accruals == Earnings(c, prices.RecordMult(priceMult), items)
  {
    accruals := [];
    for i := 0 to |items|
      invariant accruals == Earnings(c, prices.RecordMult(priceMult), items[..i])
    {
      var it := items[i];
      assert items[..i + 1][..i] == items[..i];
      if it.errCode != "" {
        continue;
      }
      var mult := priceMult;
      if mult <= 0.0 {
        mult := prices.multiplier;
      }
      var quote := Pricing.QuoteJob(c, it.tier, it.promptTokens, it.completionTokens, mult, 1.0);
      accruals := accruals + [Earning(it.jobId, it.providerPk, quote.grossMicros, quote.providerMicros)];
    }
    assert items[..|items|] == items;
  }

  /** Every chunk that could be attempted was answered by its batch. */
  ghost predicate AnswersChunks(runs: seq<Attempt>, chunks: seq<seq<Batch.Item>>, concurrency: int) {
    && |runs| == |chunks|
    && forall k | 0 <= k < |runs| && runs[k].Some? :: BatchAnswers(chunks[k], concurrency, runs[k].value)
  }

  function PoolSizes<Item>(chunks: seq<seq<Item>>, concurrency: int): (ws: seq<nat>)
    ensures |ws| == |chunks| && forall k | 0 <= k < |ws| :: ws[k] == Batch.Workers(concurrency, |chunks[k]|)
  {
    seq(|chunks|, k requires 0 <= k < |chunks| => Batch.Workers(concurrency, |chunks[k]|))
  }

  const SPOT_MAX_CONCURRENCY: int := 4

  /** The `Concurrency` option of a workload's batches; zero asks for the default. */
  function Concurrency(spot: bool): int {
    if spot then SPOT_MAX_CONCURRENCY else 0
  }

  /** What a workload costs its caller: the quoted price, or nothing if nothing succeeded. */
  function Charge(ok: nat, totalMicros: int): int {
    if ok == 0 then 0 else totalMicros
  }

  function Debits(charge: int): seq<int> {
    if charge > 0 then [charge] else []
  }

  /** How a workload is settled: nothing is taken for one that was aborted. */
  predicate Settles(out: Outcome, debits: seq<int>, totalMicros: int) {
    match out
    case Aborted => debits == []
    case Ran(summary, _, charged) => charged == Charge(summary.ok, totalMicros) && debits == Debits(charged)
  }

  /** `logs[k]` lists the executions of the `k`-th chunk's batch, which answered `done[k]`. */
  ghost predicate AllLogged(chunks: seq<seq<Batch.Item>>, concurrency: int, done: seq<seq<ItemResult>>,
                            logs: seq<seq<Batch.Call>>) {
    && |done| == |chunks| == |logs|
    && forall k | 0 <= k < |done| :: BatchLogged(chunks[k], concurrency, done[k], logs[k])
  }

  lemma {:induction false} LogsOf(chunks: seq<seq<Batch.Item>>, concurrency: int, done: seq<seq<ItemResult>>)
    returns (logs: seq<seq<Batch.Call>>)
    requires |done| == |chunks|
    requires forall k | 0 <= k < |done| :: BatchAnswers(chunks[k], concurrency, done[k])
    ensures AllLogged(chunks, concurrency, done, logs)
  {
    if done == [] {
      logs := [];
    } else {
      var n := |done| - 1;
      logs := LogsOf(chunks[..n], concurrency, done[..n]);
      var log := EveryBatchIsLogged(chunks[n], concurrency, done[n]);
      logs := logs + [log];
    }
  }

  lemma LoggedIsReported(chunks: seq<seq<Batch.Item>>, concurrency: int, done: seq<seq<ItemResult>>,
                         logs: seq<seq<Batch.Call>>)
    requires AllLogged(chunks, concurrency, done, logs)
    ensures AllReport(chunks, done, logs)
  {
    forall k | 0 <= k < |done| ensures Reports(chunks[k], done[k], logs[k]) {
      BatchReportsExecutions(chunks[k], concurrency, done[k], logs[k]);
    }
  }

  /** Totals and earnings are those of the executions that the pools made. */
  ghost predicate AccountsFor(summary: Totals, accruals: seq<Earning>, log: seq<Batch.Call>,
                              c: Pricing.ModelClass, priceMult: real) {
    && CountsExecutions(summary, log)
    && forall h: Earning -> int :: EarningSum(accruals, h) == Batch.LogSum(log, EarnedBy(c, priceMult, h))
  }

  lemma ReportAccountsFor(chunks: seq<seq<Batch.Item>>, done: seq<seq<ItemResult>>, logs: seq<seq<Batch.Call>>,
                          workers: nat, c: Pricing.ModelClass, priceMult: real)
    requires AllReport(chunks, done, logs)
    ensures AccountsFor(SummaryOf(Renumbered(done), workers), Earnings(c, priceMult, Renumbered(done)),
                        Flatten(logs), c, priceMult)
  {
    SummaryCountsExecutions(chunks, done, logs, workers);
    forall h: Earning -> int
      ensures EarningSum(Earnings(c, priceMult, Renumbered(done)), h)
           == Batch.LogSum(Flatten(logs), EarnedBy(c, priceMult, h))
    {
      EarningsAreForExecutions(chunks, done, logs, c, priceMult, h);
    }
  }

  /** The chunk loop, the earnings and the settlement. */
  ghost predicate Executed(items: seq<Batch.Item>, spot: bool, c: Pricing.ModelClass, prices: Prices, out: Outcome,
                           done: seq<seq<ItemResult>>, logs: seq<seq<Batch.Call>>)
    requires out.Ran?
  {
    var all, mult := Renumbered(done), prices.RecordMult(prices.SpotPriceMult(spot));
    && |all| == |items| && InOrder(all)
    && out.summary
       == SummaryOf(all, Batch.Workers(Concurrency(spot), if |items| < MAX_ITEMS then |items| else MAX_ITEMS))
    && out.accruals == Earnings(c, mult, all)
    && AllLogged(Chunks(items, MAX_ITEMS), Concurrency(spot), done, logs)
    && AccountsFor(out.summary, out.accruals, Flatten(logs), c, mult)
  }

  /** `done` and `merged` are what the chunk loop ends with when every chunk could run. */
  ghost predicate Merges(items: seq<Batch.Item>, runs: seq<Attempt>, spot: bool, done: seq<seq<ItemResult>>,
                         merged: Totals) {
    var chunks := Chunks(items, MAX_ITEMS);
    && AnswersChunks(runs, chunks, Concurrency(spot)) && |done| == |runs|
    && (forall k | 0 <= k < |runs| :: runs[k] == Some(done[k]))
    && merged == SummaryOf(Renumbered(done), MaxOf(PoolSizes(chunks, Concurrency(spot))))
    && InOrder(Renumbered(done))
  }

  lemma MergedCoversItems(items: seq<Batch.Item>, runs: seq<Attempt>, spot: bool, done: seq<seq<ItemResult>>,
                          merged: Totals)
    requires Merges(items, runs, spot, done, merged)
    ensures |Renumbered(done)| == |items|
    ensures merged == SummaryOf(Renumbered(done), Batch.Workers(Concurrency(spot),
                                                                if |items| < MAX_ITEMS then |items| else MAX_ITEMS))
  {
    var chunks := Chunks(items, MAX_ITEMS);
    ChunksAreChunking(items, MAX_ITEMS);
    forall k | 0 <= k < |done| ensures |done[k]| == |chunks[k]| {
      BatchAnswersInOrder(chunks[k], Concurrency(spot), runs[k].value);
    }
    FirstChunkIsLargest(items, MAX_ITEMS, chunks, Concurrency(spot));
    AnswersCoverItems(chunks, done);
  }

  lemma MergedIsExecuted(items: seq<Batch.Item>, runs: seq<Attempt>, spot: bool, c: Pricing.ModelClass, prices: Prices,
                         out: Outcome, done: seq<seq<ItemResult>>)
    returns (logs: seq<seq<Batch.Call>>)
    requires out.Ran? && Merges(items, runs, spot, done, out.summary)
    requires out.accruals == Earnings(c, prices.RecordMult(prices.SpotPriceMult(spot)), Renumbered(done))
    ensures Executed(items, spot, c, prices, out, done, logs)
  {
    MergedCoversItems(items, runs, spot, done, out.summary);
    var chunks, mult := Chunks(items, MAX_ITEMS), prices.RecordMult(prices.SpotPriceMult(spot));
    assert forall k | 0 <= k < |done| :: runs[k].value == done[k];
    logs := LogsOf(chunks, Concurrency(spot), done);
    LoggedIsReported(chunks, Concurrency(spot), done, logs);
    ReportAccountsFor(chunks, done, logs, out.summary.concurrency, c, mult);
  }

  /** `runs[k]` is what `batch.Run` answers for the `k`-th chunk; `debits` lists what was
      taken from the caller's credit; `logs[k]` lists the executions behind the `k`-th answer. */
  method ExecuteWorkload(items: seq<Batch.Item>, runs: seq<Attempt>, spot: bool, totalMicros: int,
                         c: Pricing.ModelClass, prices: Prices)
    returns (out: Outcome, debits: seq<int>, ghost done: seq<seq<ItemResult>>, ghost logs: seq<seq<Batch.Call>>)
    requires AnswersChunks(runs, Chunks(items, MAX_ITEMS), Concurrency(spot))
    ensures out.Aborted? <==> exists k :: 0 <= k < |runs| && runs[k].None?
    ensures Settles(out, debits, totalMicros)
    ensures out.Ran? ==> |done| == |runs| && forall k | 0 <= k < |runs| :: runs[k] == Some(done[k])
    ensures out.Ran? ==> Executed(items, spot, c, prices, out, done, logs)
  {
    debits, logs := [], [];
    var concurrency := 0;
    if spot {
      concurrency := SPOT_MAX_CONCURRENCY;
    }
    var chunks := ChunkItems(items, MAX_ITEMS);
    forall k | 0 <= k < |runs| && runs[k].Some? ensures InOrder(runs[k].value) {
      BatchAnswersInOrder(chunks[k], concurrency, runs[k].value);
    }
    var merged;
    merged, done := RunChunks(runs, PoolSizes(chunks, concurrency));
    if merged.None? {
      return Aborted, [], done, [];
    }
    var accruals := Accrue(merged.value.items, c, prices, prices.SpotPriceMult(spot));
    var charge := totalMicros;
    if merged.value.ok == 0 {
      charge := 0;
    }
    if charge > 0 {
      debits := [charge];
    }
    out := Ran(merged.value, accruals, charge);
    logs := MergedIsExecuted(items, runs, spot, c, prices, out, done);
  }

  /** What a workload is quoted at. */
  function QuotedTerms(quoted: Pricing.Tier, prices: Prices, spot: bool): Pricing.Terms {
    Pricing.Terms(quoted, prices.SpotPriceMult(spot))
  }

  /** All earnings of an executed workload against its quote, when no item was served at terms
      dearer than the quoted ones and the tokens used stay within the estimate. */
  lemma EarningsStayWithinQuote(all: seq<ItemResult>, c: Pricing.ModelClass, quoted: Pricing.Tier, r: Pricing.Request,
                                prices: Prices, spot: bool)
    requires var mult := prices.RecordMult(prices.SpotPriceMult(spot));
      Pricing.Covers(c, QuotedTerms(quoted, prices, spot), UsesOf(all), mult)
    requires Pricing.Estimated(UsesOf(all), r.promptTokens, r.completionTokens, r.redundancy)
    ensures var mult := prices.RecordMult(prices.SpotPriceMult(spot));
      var quote := Pricing.QuoteWorkload(c, quoted, r.promptTokens, r.completionTokens, r.redundancy, r.marginRate,
                                         prices.SpotPriceMult(spot));
      2 * Micros(Earnings(c, mult, all)) <= 2 * quote.compute + 3 * OkCount(all) + 4
  {
    var mult := prices.RecordMult(prices.SpotPriceMult(spot));
    EarningsAreAccrued(c, mult, all);
    Pricing.AccrualsStayWithinQuote(c, QuotedTerms(quoted, prices, spot), r, UsesOf(all), mult);
  }

  /** With a positive multiplier, serving at or below the quoted tier is never dearer; a spot
      multiplier that is not positive is quoted as one and recorded as the configured one. */
  lemma RankSuffices(c: Pricing.ModelClass, served: Pricing.Tier, quoted: Pricing.Tier, prices: Prices, spot: bool)
    requires Pricing.Rank(served) <= Pricing.Rank(quoted)
    requires prices.SpotPriceMult(spot) > 0.0 || prices.multiplier <= 0.0
    ensures var mult := prices.RecordMult(prices.SpotPriceMult(spot));
      Pricing.NoDearer(c, Pricing.Terms(served, mult), QuotedTerms(quoted, prices, spot))
  {
    var quotedMult := prices.SpotPriceMult(spot);
    Pricing.RankSufficesAtEqualScale(c, served, prices.RecordMult(quotedMult), quoted, quotedMult);
  }

  lemma {:induction false} MaxIsFirst(ws: seq<nat>)
    requires ws != [] && forall k | 0 <= k < |ws| :: ws[k] <= ws[0]
    ensures MaxOf(ws) == ws[0]
  {
    if |ws| == 1 {
      assert MaxOf(ws[..0]) == 0;
    } else {
      MaxIsFirst(ws[..|ws| - 1]);
    }
  }

  lemma FirstChunkIsLargest<Item>(items: seq<Item>, size: nat, chunks: seq<seq<Item>>, concurrency: int)
    requires size > 0 && IsChunking(items, size, chunks)
    ensures MaxOf(PoolSizes(chunks, concurrency))
         == Batch.Workers(concurrency, if |items| < size then |items| else size)
  {
    FlattenGrows(chunks, 0);
    if |chunks| == 1 {
      assert Flatten(chunks[..0]) == [];
      assert Flatten(chunks) == chunks[0];
    } else {
      FlattenGrows(chunks, |chunks| - 1);
      assert |chunks[0]| == size;
    }
    MaxIsFirst(PoolSizes(chunks, concurrency));
  }

  lemma {:induction false} AnswersCoverItems<Item>(chunks: seq<seq<Item>>, done: seq<seq<ItemResult>>)
    requires |done| == |chunks| && forall k | 0 <= k < |done| :: |done[k]| == |chunks[k]|
    ensures |Renumbered(done)| == |Flatten(chunks)|
  {
    if chunks == [] {
    } else {
      AnswersCoverItems(chunks[..|chunks| - 1], done[..|done| - 1]);
    }
  }

  // ---------------------------------------------------------------- chunking is invisible

  /** The `n` results starting at `from` of a list, as the batch that produced them numbers them. */
  function Segment(all: seq<ItemResult>, from: nat, n: nat): (r: seq<ItemResult>)
    requires from + n <= |all|
    ensures |r| == n && forall i | 0 <= i < n :: r[i] == all[from + i].(index := i)
  {
    seq(n, i requires 0 <= i < n => all[from + i].(index := i))
  }

  function Start<Item>(chunks: seq<seq<Item>>, k: nat): nat
    requires k <= |chunks|
  {
    |Flatten(chunks[..k])|
  }

  /** Each chunk is answered as its items are in one big batch. */
  ghost predicate AnsweredAsOne<Item>(chunks: seq<seq<Item>>, all: seq<ItemResult>, done: seq<seq<ItemResult>>) {
    && |Flatten(chunks)| == |all| && |done| == |chunks|
    && forall k | 0 <= k < |chunks| ::
         Start(chunks, k) + |chunks[k]| <= |all| && done[k] == Segment(all, Start(chunks, k), |chunks[k]|)
  }

  lemma EarlierChunkAnswered<Item>(chunks: seq<seq<Item>>, all: seq<ItemResult>, done: seq<seq<ItemResult>>,
                                   last: nat, k: nat)
    requires AnsweredAsOne(chunks, all, done) && k < last < |chunks|
    ensures Start(chunks, last) <= |all| && Start(chunks[..last], k) + |chunks[k]| <= Start(chunks, last)
    ensures done[k] == Segment(all[..Start(chunks, last)], Start(chunks[..last], k), |chunks[k]|)
  {
    assert chunks[..last][..k] == chunks[..k];
    FlattenGrows(chunks[..last], k);
    assert done[k] == Segment(all, Start(chunks, k), |chunks[k]|);
    assert Start(chunks, last) + |chunks[last]| <= |all|;
    SegmentOfPrefix(all, Start(chunks, last), Start(chunks, k), |chunks[k]|);
  }

  lemma LastChunkAnswered(all: seq<ItemResult>, n: nat)
    requires n <= |all| && InOrder(all)
    ensures all[..n] + Shift(Segment(all, n, |all| - n), n) == all
  {
  }

  lemma LastChunkJoins(all: seq<ItemResult>, done: seq<seq<ItemResult>>, n: nat)
    requires done != [] && n <= |all| && InOrder(all)
    requires Renumbered(done[..|done| - 1]) == all[..n] && done[|done| - 1] == Segment(all, n, |all| - n)
    ensures Renumbered(done) == all
  {
    LastChunkAnswered(all, n);
  }

  /** If each chunk is answered as its items would be in one big batch, the merged workload
      is answered exactly as the one big batch: same items in the same order, numbered
      0..n-1, and (by the contract of `ExecuteWorkload`) the same summary. */
  lemma {:induction false} ChunkingIsInvisible<Item>(chunks: seq<seq<Item>>, all: seq<ItemResult>,
                                                     done: seq<seq<ItemResult>>)
    requires InOrder(all) && AnsweredAsOne(chunks, all, done)
    ensures Renumbered(done) == all
  {
    if chunks == [] {
    } else {
      var last := |chunks| - 1;
      var n := Start(chunks, last);
      FlattenGrows(chunks, last);
      forall k | 0 <= k < last
        ensures Start(chunks[..last], k) + |chunks[..last][k]| <= n
        ensures done[..last][k] == Segment(all[..n], Start(chunks[..last], k), |chunks[..last][k]|)
      {
        EarlierChunkAnswered(chunks, all, done, last, k);
      }
      ChunkingIsInvisible(chunks[..last], all[..n], done[..last]);
      LastChunkJoins(all, done, n);
    }
  }

  lemma SegmentOfPrefix(all: seq<ItemResult>, end: nat, from: nat, n: nat)
    requires from + n <= end <= |all|
    ensures Segment(all[..end], from, n) == Segment(all, from, n)
  {
  }

  lemma {:induction false} FlattenGrows<Item>(chunks: seq<seq<Item>>, k: nat)
    requires k < |chunks|
    ensures |Flatten(chunks[..k])| + |chunks[k]| <= |Flatten(chunks)|
  {
    var last := |chunks| - 1;
    if k < last {
      FlattenGrows(chunks[..last], k);
      assert chunks[..last][..k] == chunks[..k];
    }
  }
}
