/** Outstanding workload quotes: stored, looked up, accepted once and settled once (`Store` of
    `coordinator/internal/marketplace/marketplace.go`, the accept sequence of
    `coordinator/internal/api/workloads.go`, the settlement of `executeWorkload` in
    `coordinator/internal/api/runs.go`). Clock readings, random ids and the answers of other
    components are parameters. */
module QuoteStore {
  import opened Common
  import Workload

  const MAX_QUOTES: nat := 2048
  const DEFAULT_TTL: int := 600

  datatype Quote = Quote(id: string, keyId: string, items: nat, price: int, councilAccepts: bool,
                         createdAt: int, expiresAt: int, accepted: bool)
  {
    predicate Expired(now: int) { now > expiresAt }
    predicate Runnable() { items > 0 }

    /** The offer as it was made. */
    function Offer(): Quote { this.(accepted := false) }
  }

  type Quotes = map<string, Quote>

  // ---------------------------------------------------------------- the store's operations on values

  function Live(m: Quotes, now: int): Quotes {
    map id | id in m && !m[id].Expired(now) :: m[id]
  }

  ghost predicate Oldest(m: Quotes, victim: string) {
    victim in m && forall id | id in m :: m[victim].createdAt <= m[id].createdAt
  }

  /** What may be dropped to make room: nothing, or the oldest live quote of a full store. */
  ghost predicate MakesRoom(m: Quotes, now: int, victim: Option<string>) {
    if |Live(m, now)| < MAX_QUOTES then victim == None
    else victim.Some? && Oldest(Live(m, now), victim.value)
  }

  function Stored(m: Quotes, q: Quote, now: int, victim: Option<string>): Quotes {
    (if victim.Some? then Live(m, now) - {victim.value} else Live(m, now))[q.id := q]
  }

  predicate Takes(m: Quotes, id: string, now: int) {
    id in m && !m[id].Expired(now) && !m[id].accepted
  }

  function Taken(m: Quotes, id: string): Quotes
    requires id in m
  {
    m[id := m[id].(accepted := true)]
  }

  lemma StoredFits(m: Quotes, q: Quote, now: int, victim: Option<string>)
    requires |m| <= MAX_QUOTES && MakesRoom(m, now, victim)
    ensures |Stored(m, q, now, victim)| <= MAX_QUOTES
  {
    var live := Live(m, now);
    LiveIsSmaller(m, now);
    if victim.Some? {
      assert (live - {victim.value}).Keys == live.Keys - {victim.value};
      OneMoreKey(live - {victim.value}, q);
    } else {
      OneMoreKey(live, q);
    }
  }

  lemma LiveIsSmaller(m: Quotes, now: int)
    ensures |Live(m, now)| <= |m|
  {
    FewerInside(Live(m, now).Keys, m.Keys);
  }

  lemma FewerInside(a: set<string>, b: set<string>)
    requires a <= b
    ensures |a| <= |b|
  {
    assert b == a + (b - a);
  }

  lemma OneMoreKey(m: Quotes, q: Quote)
    ensures |m[q.id := q]| <= |m| + 1
  {
    assert m[q.id := q].Keys == m.Keys + {q.id};
  }

  // ---------------------------------------------------------------- the store

  class Store {
    var m: Quotes
    const ttl: int

    ghost predicate Valid()
      reads this
    {
      && 0 < ttl && |m| <= MAX_QUOTES
      && forall id | id in m :: m[id].id == id && m[id].expiresAt == m[id].createdAt + ttl
    }

    constructor (lifetime: int)
      ensures Valid() && m == map[] && ttl == if lifetime <= 0 then 600 else lifetime
    {
      m := map[];
      ttl := if lifetime <= 0 then DEFAULT_TTL else lifetime;
    }

    method CollectExpired(now: int)
      requires Valid()
      modifies this`m
      ensures Valid() && m == Live(old(m), now)
    {
      var left := m.Keys;
      while left != {}
        invariant left <= m.Keys
        invariant forall id :: id in m <==> id in old(m) && (id in left || !old(m)[id].Expired(now))
        invariant forall id | id in m :: m[id] == old(m)[id]
        decreases left
      {
        var id :| id in left;
        left := left - {id};
        if m[id].Expired(now) {
          m := m - {id};
        }
      }
      assert m == Live(old(m), now);
      LiveIsSmaller(old(m), now);
    }

    method FindOldest() returns (oldest: string)
      requires m.Keys != {}
      ensures Oldest(m, oldest)
    {
      oldest :| oldest in m.Keys;
      var left := m.Keys - {oldest};
      while left != {}
        invariant left <= m.Keys && oldest in m
        invariant forall id | id in m.Keys - left :: m[oldest].createdAt <= m[id].createdAt
        decreases left
      {
        var id :| id in left;
        left := left - {id};
        if m[id].createdAt < m[oldest].createdAt {
          oldest := id;
        }
      }
    }

    method Create(id: string, keyId: string, items: nat, price: int, councilAccepts: bool, now: int)
      returns (q: Quote, ghost victim: Option<string>)
      requires Valid()
      modifies this`m
      ensures Valid() && q == Quote(id, keyId, items, price, councilAccepts, now, now + ttl, false)
      ensures MakesRoom(old(m), now, victim) && m == Stored(old(m), q, now, victim)
    {
      q := Quote(id, keyId, items, price, councilAccepts, now, now + ttl, false);
      victim := None;
      ghost var before := m;
      CollectExpired(now);
      if |m| >= MAX_QUOTES {
        assert |m.Keys| > 0;
        var oldest := FindOldest();
        victim := Some(oldest);
        m := m - {oldest};
      }
      m := m[q.id := q];
      StoredFits(before, q, now, victim);
    }

    method Get(id: string, now: int) returns (q: Option<Quote>)
      requires Valid()
      ensures q == Lookup(m, id, now)
    {
      if id !in m || m[id].Expired(now) {
        return None;
      }
      return Some(m[id]);
    }

    method MarkAccepted(id: string, now: int) returns (q: Option<Quote>)
      requires Valid()
      modifies this`m
      ensures Valid() && (q.Some? <==> Takes(old(m), id, now))
      ensures q.Some? ==> m == Taken(old(m), id) && q.value == m[id]
      ensures q.None? ==> m == old(m)
    {
      if id !in m || m[id].Expired(now) || m[id].accepted {
        return None;
      }
      assert m[id := m[id].(accepted := true)].Keys == m.Keys;
      m := m[id := m[id].(accepted := true)];
      return Some(m[id]);
    }
  }

  // ---------------------------------------------------------------- accepting over HTTP

  datatype Refusal =
    | NotFound | AlreadyAccepted | EstimateOnly | CouncilBlocked
    | InsufficientCredit | BadWebhook | TooManyRuns

  /** What the other components say while a request is vetted. */
  datatype Circumstances = Circumstances(enforceBilling: bool, balance: int, webhookOk: bool,
                                         background: bool, inflight: nat, maxRuns: nat)

  /** Every test made before the quote is locked. */
  function Vet(found: Option<Quote>, keyId: string, c: Circumstances): (why: Option<Refusal>)
    ensures why.None? <==> && found.Some? && found.value.keyId == keyId && !found.value.accepted
                           && found.value.Runnable() && found.value.councilAccepts
                           && (c.enforceBilling ==> c.balance >= found.value.price)
                           && c.webhookOk && (c.background ==> c.inflight < c.maxRuns)
  {
    if found.None? || found.value.keyId != keyId then Some(NotFound)
    else if found.value.accepted then Some(AlreadyAccepted)
    else if !found.value.Runnable() then Some(EstimateOnly)
    else if !found.value.councilAccepts then Some(CouncilBlocked)
    else if c.enforceBilling && c.balance < found.value.price then Some(InsufficientCredit)
    else if !c.webhookOk then Some(BadWebhook)
    else if c.background && c.inflight >= c.maxRuns then Some(TooManyRuns)
    else None
  }

  /** A lookup at `now`. */
  function Lookup(m: Quotes, id: string, now: int): Option<Quote> {
    if id in m && !m[id].Expired(now) then Some(m[id]) else None
  }

  /** One accept request that nothing else interrupts: vetted at `looked`, locked at `locked`.
      A quote that expired in between is reported as already accepted. */
  method Accept(store: Store, id: string, keyId: string, c: Circumstances, looked: int, locked: int)
    returns (answer: Option<Refusal>)
    requires store.Valid()
    modifies store`m
    ensures store.Valid()
    ensures var before := old(store.m); var why := Vet(Lookup(before, id, looked), keyId, c);
      && answer == (if why.Some? then why else if Takes(before, id, locked) then None else Some(AlreadyAccepted))
      && store.m == (if answer.None? then Taken(before, id) else before)
    ensures answer.None? ==> Takes(old(store.m), id, looked) && Takes(old(store.m), id, locked)
  {
    var found := store.Get(id, looked);
    answer := Vet(found, keyId, c);
    if answer.Some? {
      return;
    }
    var q := store.MarkAccepted(id, locked);
    if q.None? {
      return Some(AlreadyAccepted);
    }
  }

  // ---------------------------------------------------------------- every interleaving

  /** How the execution of an accepted quote ended: items that succeeded, whether the whole batch
      failed instead, and whether the ledger took the debit. */
  datatype Ending = Ending(ok: nat, failed: bool, recorded: bool)

  datatype Execution = Execution(quote: Quote, acceptedAt: int, ending: Option<Ending>)
  {
    /** It succeeded on some item and the ledger took the debit. */
    predicate Paid() {
      ending.Some? && !ending.value.failed && ending.value.ok > 0 && ending.value.recorded
    }

    /** What the settlement takes from the caller's credit. */
    function Debit(): int {
      if ending.None? || ending.value.failed || !ending.value.recorded then 0
      else Sum(Workload.Debits(Workload.Charge(ending.value.ok, quote.price)))
    }
  }

  function Sum(amounts: seq<int>): int {
    if amounts == [] then 0 else Sum(amounts[..|amounts| - 1]) + amounts[|amounts| - 1]
  }

  /** The ending of an execution whose workload came out as `out`. */
  function EndingOf(out: Workload.Outcome, recorded: bool): Ending {
    match out
    case Aborted => Ending(0, true, recorded)
    case Ran(summary, _, _) => Ending(summary.ok, false, recorded)
  }

  /** An executed workload, settled at the quoted price, is an execution whose debit is what the
      workload took from its caller, if the ledger recorded it. */
  lemma ExecutionSettles(q: Quote, at: int, out: Workload.Outcome, debits: seq<int>, recorded: bool)
    requires Workload.Settles(out, debits, q.price)
    ensures Execution(q, at, Some(EndingOf(out, recorded))).Debit() == if recorded then Sum(debits) else 0
  {
  }

  datatype System = System(
    m: Quotes,
    offers: Quotes,             // every quote ever created, as offered
    vetted: set<Quote>,         // held by requests that have passed every test and not locked yet
    executions: seq<Execution>) // one per successful lock, oldest first

  datatype Event =
    | Create(q: Quote, victim: Option<string>)
    | Look(id: string, keyId: string, now: int, c: Circumstances)
    | Lock(q: Quote, now: int)
    | Finish(k: nat, ending: Ending)

  const START: System := System(map[], map[], {}, [])

  ghost predicate Enabled(s: System, e: Event) {
    match e
    case Create(q, victim) =>
      q.id !in s.offers && !q.accepted && q.createdAt < q.expiresAt && MakesRoom(s.m, q.createdAt, victim)
    case Look(id, keyId, now, c) =>
      id in s.m && !s.m[id].Expired(now) && Vet(Some(s.m[id]), keyId, c).None?
    case Lock(q, now) => q in s.vetted && Takes(s.m, q.id, now)
    case Finish(k, ending) => k < |s.executions| && s.executions[k].ending.None?
  }

  ghost function Next(s: System, e: Event): System
    requires Enabled(s, e)
  {
    match e
    case Create(q, victim) => s.(m := Stored(s.m, q, q.createdAt, victim), offers := s.offers[q.id := q])
    case Look(id, keyId, now, c) => s.(vetted := s.vetted + {s.m[id]})
    case Lock(q, now) => s.(m := Taken(s.m, q.id), executions := s.executions + [Execution(q, now, None)])
    case Finish(k, ending) => s.(executions := s.executions[k := s.executions[k].(ending := Some(ending))])
  }

  /** The state after a run; an event that is not possible changes nothing. */
  ghost function After(run: seq<Event>): System {
    if run == [] then START
    else
      var s, e := After(run[..|run| - 1]), run[|run| - 1];
      if Enabled(s, e) then Next(s, e) else s
  }

  ghost predicate IsOffer(s: System, q: Quote) {
    q.id in s.offers && q.Offer() == s.offers[q.id]
  }

  ghost predicate StoreSound(s: System) {
    && |s.m| <= MAX_QUOTES
    && (forall id | id in s.m :: s.m[id].id == id && IsOffer(s, s.m[id]))
    && (forall id | id in s.offers :: s.offers[id].id == id)
    && (forall q | q in s.vetted :: IsOffer(s, q) && q.Runnable() && q.councilAccepts)
  }

  /** An execution belongs to an offer, and the offer cannot be taken again. */
  ghost predicate Proper(s: System, x: Execution) {
    && IsOffer(s, x.quote) && x.quote.Runnable() && x.quote.councilAccepts
    && !x.quote.Expired(x.acceptedAt)
    && (x.quote.id in s.m ==> s.m[x.quote.id].accepted)
  }

  ghost predicate TakenOnce(xs: seq<Execution>) {
    forall i, j | 0 <= i < j < |xs| :: xs[i].quote.id != xs[j].quote.id
  }

  ghost predicate Sound(s: System) {
    StoreSound(s) && (forall x | x in s.executions :: Proper(s, x)) && TakenOnce(s.executions)
  }

  lemma StoredHolds(m: Quotes, q: Quote, now: int, victim: Option<string>, id: string)
    requires id in Stored(m, q, now, victim) && id != q.id
    ensures id in m && Stored(m, q, now, victim)[id] == m[id]
  {
  }

  lemma OfferStays(s: System, q: Quote, victim: Option<string>, x: Quote)
    requires Enabled(s, Create(q, victim)) && IsOffer(s, x)
    ensures x.id != q.id && IsOffer(Next(s, Create(q, victim)), x)
  {
  }

  lemma CreateKeepsStore(s: System, q: Quote, victim: Option<string>)
    requires StoreSound(s) && Enabled(s, Create(q, victim))
    ensures StoreSound(Next(s, Create(q, victim)))
  {
    var t := Next(s, Create(q, victim));
    StoredFits(s.m, q, q.createdAt, victim);
    forall id | id in t.m ensures t.m[id].id == id && IsOffer(t, t.m[id]) {
      if id != q.id {
        StoredHolds(s.m, q, q.createdAt, victim, id);
        OfferStays(s, q, victim, s.m[id]);
      }
    }
    forall x | x in t.vetted ensures IsOffer(t, x) && x.Runnable() && x.councilAccepts {
      OfferStays(s, q, victim, x);
    }
  }

  lemma CreateKeepsSound(s: System, q: Quote, victim: Option<string>)
    requires Sound(s) && Enabled(s, Create(q, victim))
    ensures Sound(Next(s, Create(q, victim)))
  {
    var t := Next(s, Create(q, victim));
    CreateKeepsStore(s, q, victim);
    forall x | x in t.executions ensures Proper(t, x) {
      assert Proper(s, x);
      OfferStays(s, q, victim, x.quote);
      if x.quote.id in t.m {
        StoredHolds(s.m, q, q.createdAt, victim, x.quote.id);
      }
    }
  }

  lemma LookKeepsSound(s: System, id: string, keyId: string, now: int, c: Circumstances)
    requires Sound(s) && Enabled(s, Look(id, keyId, now, c))
    ensures Sound(Next(s, Look(id, keyId, now, c)))
  {
    var t := Next(s, Look(id, keyId, now, c));
    forall q | q in t.vetted ensures IsOffer(t, q) && q.Runnable() && q.councilAccepts {
      assert q in s.vetted || q == s.m[id];
    }
    forall x | x in t.executions ensures Proper(t, x) {
      assert Proper(s, x);
    }
  }

  lemma LockKeepsStore(s: System, q: Quote, now: int)
    requires StoreSound(s) && Enabled(s, Lock(q, now))
    ensures StoreSound(Next(s, Lock(q, now)))
  {
    assert Next(s, Lock(q, now)).m.Keys == s.m.Keys;
    assert IsOffer(s, s.m[q.id]);
  }

  lemma LockKeepsProper(s: System, q: Quote, now: int, x: Execution)
    requires Enabled(s, Lock(q, now)) && Proper(s, x)
    ensures Proper(Next(s, Lock(q, now)), x)
    ensures x.quote.id != q.id
  {
  }

  lemma LockIsProper(s: System, q: Quote, now: int)
    requires StoreSound(s) && Enabled(s, Lock(q, now))
    ensures Proper(Next(s, Lock(q, now)), Execution(q, now, None))
  {
    assert IsOffer(s, q) && IsOffer(s, s.m[q.id]);
    assert q.expiresAt == q.Offer().expiresAt == s.m[q.id].Offer().expiresAt == s.m[q.id].expiresAt;
  }

  lemma LockKeepsSound(s: System, q: Quote, now: int)
    requires Sound(s) && Enabled(s, Lock(q, now))
    ensures Sound(Next(s, Lock(q, now)))
  {
    var t := Next(s, Lock(q, now));
    LockKeepsStore(s, q, now);
    LockIsProper(s, q, now);
    forall i | 0 <= i < |s.executions| ensures Proper(t, s.executions[i]) && s.executions[i].quote.id != q.id {
      LockKeepsProper(s, q, now, s.executions[i]);
    }
  }

  lemma FinishKeepsSound(s: System, k: nat, ending: Ending)
    requires Sound(s) && Enabled(s, Finish(k, ending))
    ensures Sound(Next(s, Finish(k, ending)))
  {
    var t := Next(s, Finish(k, ending));
    forall i | 0 <= i < |t.executions|
      ensures Proper(t, t.executions[i]) && t.executions[i].quote == s.executions[i].quote
    {
      assert Proper(s, s.executions[i]);
    }
  }

  lemma {:induction false} EveryRunIsSound(run: seq<Event>)
    ensures Sound(After(run))
  {
    if run == [] {
    } else {
      var s, e := After(run[..|run| - 1]), run[|run| - 1];
      EveryRunIsSound(run[..|run| - 1]);
      if Enabled(s, e) {
        match e
        case Create(q, victim) => CreateKeepsSound(s, q, victim);
        case Look(id, keyId, now, c) => LookKeepsSound(s, id, keyId, now, c);
        case Lock(q, now) => LockKeepsSound(s, q, now);
        case Finish(k, ending) => FinishKeepsSound(s, k, ending);
      }
    }
  }

  // ---------------------------------------------------------------- what a quote costs

  /** All debits settled for one quote. */
  function Charged(xs: seq<Execution>, id: string): int {
    if xs == [] then 0
    else
      var last := xs[|xs| - 1];
      Charged(xs[..|xs| - 1], id) + (if last.quote.id == id then last.Debit() else 0)
  }

  lemma DebitIsPriceOrNothing(x: Execution)
    ensures x.Debit() == if x.Paid() && x.quote.price > 0 then x.quote.price else 0
  {
    var price := x.quote.price;
    assert [price][..0] == [] && Sum([price]) == price;
  }

  lemma {:induction false} NothingCharged(xs: seq<Execution>, id: string)
    requires forall i | 0 <= i < |xs| :: xs[i].quote.id == id ==> xs[i].Debit() == 0
    ensures Charged(xs, id) == 0
  {
    if xs == [] {
    } else {
      NothingCharged(xs[..|xs| - 1], id);
    }
  }

  lemma {:induction false} ChargedOnce(xs: seq<Execution>, k: nat)
    requires k < |xs| && TakenOnce(xs)
    ensures Charged(xs, xs[k].quote.id) == xs[k].Debit()
  {
    var init := xs[..|xs| - 1];
    if k == |xs| - 1 {
      NothingCharged(init, xs[k].quote.id);
    } else {
      ChargedOnce(init, k);
      assert init[k] == xs[k];
    }
  }

  /** Some execution of the quote succeeded on an item and its debit was recorded. */
  ghost predicate Settled(s: System, id: string) {
    exists x :: x in s.executions && x.quote.id == id && x.Paid()
  }

  /** Over every interleaving, whatever number of requests raced for it: a quote is accepted at
      most once, never after it expired, and only if it has items to run and the Council accepts it;
      the store stays within its bound, and what is debited for the quote is exactly its quoted price
      if an execution settled, and nothing otherwise. */
  lemma OneQuoteOneCharge(run: seq<Event>, id: string)
    requires id in After(run).offers
    ensures var s := After(run);
      && |s.m| <= MAX_QUOTES
      && TakenOnce(s.executions)
      && (forall x | x in s.executions ::
            && x.quote.id in s.offers && x.acceptedAt <= s.offers[x.quote.id].expiresAt
            && s.offers[x.quote.id].items >= 1 && s.offers[x.quote.id].councilAccepts)
      && Charged(s.executions, id) == if Settled(s, id) && s.offers[id].price > 0 then s.offers[id].price else 0
  {
    var s := After(run);
    EveryRunIsSound(run);
    forall x | x in s.executions
      ensures x.quote.id in s.offers && x.acceptedAt <= s.offers[x.quote.id].expiresAt
      ensures s.offers[x.quote.id].items >= 1 && s.offers[x.quote.id].councilAccepts
    {
      assert Proper(s, x);
      assert x.quote.Offer() == x.quote.(accepted := false);
    }
    SettlementIsThePrice(s, id);
  }

  lemma SettlementIsThePrice(s: System, id: string)
    requires Sound(s) && id in s.offers
    ensures Charged(s.executions, id) == if Settled(s, id) && s.offers[id].price > 0 then s.offers[id].price else 0
  {
    if Settled(s, id) {
      var k :| 0 <= k < |s.executions| && s.executions[k].quote.id == id && s.executions[k].Paid();
      ChargedOnce(s.executions, k);
      DebitIsPriceOrNothing(s.executions[k]);
      assert Proper(s, s.executions[k]);
      assert s.executions[k].quote.Offer().price == s.executions[k].quote.price;
    } else {
      forall i | 0 <= i < |s.executions| && s.executions[i].quote.id == id ensures s.executions[i].Debit() == 0 {
        DebitIsPriceOrNothing(s.executions[i]);
      }
      NothingCharged(s.executions, id);
    }
  }

  /** Two requests that both passed every test: whichever locks first, the other is turned away,
      however late it comes and whatever happened in between. */
  lemma {:induction false} LoserStaysOut(run: seq<Event>, more: seq<Event>, q: Quote, now: int)
    requires exists x | x in After(run).executions :: x.quote.id == q.id
    ensures !Enabled(After(run + more), Lock(q, now))
  {
    EveryRunIsSound(run + more);
    ExecutionsStay(run, more, q.id);
    var s := After(run + more);
    var x :| x in s.executions && x.quote.id == q.id;
    assert Proper(s, x);
  }

  lemma {:induction false} ExecutionsStay(run: seq<Event>, more: seq<Event>, id: string)
    requires exists x | x in After(run).executions :: x.quote.id == id
    ensures exists x | x in After(run + more).executions :: x.quote.id == id
  {
    if more == [] {
      assert run + more == run;
    } else {
      var init := more[..|more| - 1];
      assert (run + more)[..|run + more| - 1] == run + init;
      ExecutionsStay(run, init, id);
      var s, t := After(run + init), After(run + more);
      var k :| 0 <= k < |s.executions| && s.executions[k].quote.id == id;
      assert t.executions[k].quote.id == id;
    }
  }

  // ---------------------------------------------------------------- a live quote can be taken

  /** An event that leaves the stored quote `q` alone: it neither takes it nor drops it. */
  ghost predicate Spares(e: Event, q: Quote) {
    match e
    case Create(other, victim) => other.createdAt <= q.expiresAt && victim != Some(q.id)
    case Lock(other, _) => other.id != q.id
    case _ => true
  }

  lemma SparedQuoteStays(s: System, e: Event, q: Quote)
    requires q.id in s.m && s.m[q.id] == q && q.id in s.offers && Spares(e, q) && Enabled(s, e)
    ensures q.id in Next(s, e).m && Next(s, e).m[q.id] == q && q.id in Next(s, e).offers
  {
  }

  lemma {:induction false} SparedQuoteIsStored(run: seq<Event>, q: Quote, victim: Option<string>, more: seq<Event>)
    requires Enabled(After(run), Create(q, victim)) && forall e | e in more :: Spares(e, q)
    ensures var s := After(run + [Create(q, victim)] + more);
      q.id in s.m && s.m[q.id] == q && q.id in s.offers
  {
    var started := run + [Create(q, victim)];
    if more == [] {
      assert started + more == started && started[..|started| - 1] == run;
    } else {
      var init, last := more[..|more| - 1], more[|more| - 1];
      SparedQuoteIsStored(run, q, victim, init);
      assert (started + more)[..|started + more| - 1] == started + init;
      assert last in more;
      if Enabled(After(started + init), last) {
        SparedQuoteStays(After(started + init), last, q);
      }
    }
  }

  /** Until it expires a quote that was neither taken nor dropped to make room is found, and a
      request that passes every test can take it, whatever else happened since it was made. */
  lemma LiveQuoteCanBeTaken(run: seq<Event>, q: Quote, victim: Option<string>, more: seq<Event>,
                            now: int, c: Circumstances)
    requires Enabled(After(run), Create(q, victim)) && forall e | e in more :: Spares(e, q)
    requires now <= q.expiresAt
    ensures var past := run + [Create(q, victim)] + more;
      && Lookup(After(past).m, q.id, now) == Some(q) && Takes(After(past).m, q.id, now)
      && (Vet(Some(q), q.keyId, c).None? ==> Enabled(After(past + [Look(q.id, q.keyId, now, c)]), Lock(q, now)))
  {
    SparedQuoteIsStored(run, q, victim, more);
    var past, look := run + [Create(q, victim)] + more, Look(q.id, q.keyId, now, c);
    assert (past + [look])[..|past|] == past;
  }

  /** Once its lifetime is over it is neither found nor taken. */
  lemma ExpiredQuoteIsGone(run: seq<Event>, id: string, now: int)
    requires id in After(run).offers && now > After(run).offers[id].expiresAt
    ensures Lookup(After(run).m, id, now) == None && !Takes(After(run).m, id, now)
  {
    EveryRunIsSound(run);
    var s := After(run);
    if id in s.m {
      assert IsOffer(s, s.m[id]);
      assert s.m[id].Offer().expiresAt == s.m[id].expiresAt;
    }
  }

  // ---------------------------------------------------------------- and then it is charged

  lemma AfterSnoc(run: seq<Event>, e: Event)
    ensures After(run + [e]) == if Enabled(After(run), e) then Next(After(run), e) else After(run)
  {
    assert (run + [e])[..|run|] == run;
  }

  /** A request that passed every test takes the quote: it is accepted there and then, and the one
      new execution is of this quote. */
  lemma VettedRequestTakes(run: seq<Event>, q: Quote, now: int)
    requires Enabled(After(run), Lock(q, now))
    ensures var s, t := After(run), After(run + [Lock(q, now)]);
      && t.executions == s.executions + [Execution(q, now, None)]
      && q.id in t.m && t.m[q.id].accepted && !Takes(t.m, q.id, now)
  {
    AfterSnoc(run, Lock(q, now));
  }

  /** A taken quote is charged, once, the quoted price when its execution ends with an item that
      succeeded and the ledger records the debit; until then, and for any other ending, nothing. */
  lemma TakenQuoteIsCharged(run: seq<Event>, q: Quote, now: int, ending: Ending)
    requires Enabled(After(run), Lock(q, now))
    ensures var taken := run + [Lock(q, now)];
      var settled := taken + [Finish(|After(run).executions|, ending)];
      && Charged(After(taken).executions, q.id) == 0
      && Charged(After(settled).executions, q.id)
         == if ending.ok > 0 && !ending.failed && ending.recorded && q.price > 0 then q.price else 0
  {
    var taken, n := run + [Lock(q, now)], |After(run).executions|;
    VettedRequestTakes(run, q, now);
    AfterSnoc(taken, Finish(n, ending));
    EveryRunIsSound(taken);
    EveryRunIsSound(taken + [Finish(n, ending)]);
    ChargedOnce(After(taken).executions, n);
    ChargedOnce(After(taken + [Finish(n, ending)]).executions, n);
    DebitIsPriceOrNothing(After(taken + [Finish(n, ending)]).executions[n]);
  }
}
