/** The fixed-capacity ring of operational events and its newest-first query
    (`coordinator/internal/events/events.go`). Upper-casing, lower-casing and trimming of
    strings are parameters. */
module EventRing {

  datatype Event = Event(seqNo: nat, ts: int, level: string, msg: string, attrs: map<string, string>)

  /** Case folding and trimming, as the query does them. */
  datatype Folding = Folding(level: string -> string, text: string -> string, lower: string -> string)

  datatype Query = Query(level: string, text: string, since: nat)

  const SMALLEST_RING: nat := 16
  const DEFAULT_LIMIT: nat := 200
  const LARGEST_LIMIT: nat := 1000

  // ---------------------------------------------------------------- what the ring stands for

  function Last<T>(n: nat, s: seq<T>): (r: seq<T>)
    ensures |r| == if |s| < n then |s| else n
  {
    if |s| <= n then s else s[|s| - n..]
  }

  function First<T>(n: nat, s: seq<T>): (r: seq<T>)
    ensures |r| == if |s| < n then |s| else n
  {
    if |s| <= n then s else s[..n]
  }

  /** Sequence numbers rise in the order the events were stored. */
  ghost predicate Ascending(s: seq<Event>) {
    forall i, j | 0 <= i < j < |s| :: s[i].seqNo < s[j].seqNo
  }

  // ---------------------------------------------------------------- what a query asks

  predicate Contains(s: string, q: string) {
    |q| <= |s| && (s[..|q|] == q || (s != "" && Contains(s[1..], q)))
  }

  predicate Matches(ev: Event, q: string, lower: string -> string) {
    || Contains(lower(ev.msg), q)
    || exists k | k in ev.attrs :: Contains(lower(k), q) || Contains(lower(ev.attrs[k]), q)
  }

  /** Level and text, without the sequence floor. */
  predicate Hits(ev: Event, query: Query, lower: string -> string) {
    && (query.level == "" || ev.level == query.level)
    && (query.text == "" || Matches(ev, query.text, lower))
  }

  function IsHit(query: Query, lower: string -> string): Event -> bool {
    (ev: Event) => Hits(ev, query, lower)
  }

  /** Everything the caller asks for, the floor included. */
  function IsWanted(query: Query, lower: string -> string): Event -> bool {
    (ev: Event) => ev.seqNo > query.since && Hits(ev, query, lower)
  }

  /** The events of `s` that satisfy `p`, newest first. */
  function Newest(s: seq<Event>, p: Event -> bool): seq<Event> {
    if s == [] then []
    else (if p(s[|s| - 1]) then [s[|s| - 1]] else []) + Newest(s[..|s| - 1], p)
  }

  /** One past the newest event at or below the floor: where the query's loop stops looking. */
  function Cut(s: seq<Event>, since: nat): (n: nat)
    ensures n <= |s|
    ensures n > 0 ==> s[n - 1].seqNo <= since
    ensures forall i | n <= i < |s| :: s[i].seqNo > since
  {
    if s == [] then 0
    else if s[|s| - 1].seqNo <= since then |s|
    else Cut(s[..|s| - 1], since)
  }

  function Limit(limit: int): (n: nat)
    ensures 0 < n <= LARGEST_LIMIT
  {
    if limit <= 0 || limit > LARGEST_LIMIT then DEFAULT_LIMIT else limit
  }

  lemma {:induction false} NewestOfBoth(a: seq<Event>, b: seq<Event>, p: Event -> bool)
    ensures Newest(a + b, p) == Newest(b, p) + Newest(a, p)
  {
    if b == [] {
      assert a + b == a;
    } else {
      var rest, last := b[..|b| - 1], b[|b| - 1];
      var mine := if p(last) then [last] else [];
      NewestOfBoth(a, rest, p);
      assert (a + b)[..|a + b| - 1] == a + rest && (a + b)[|a + b| - 1] == last;
      assert mine + (Newest(rest, p) + Newest(a, p)) == (mine + Newest(rest, p)) + Newest(a, p);
    }
  }

  lemma {:induction false} NewestAgree(s: seq<Event>, p: Event -> bool, q: Event -> bool)
    requires forall i | 0 <= i < |s| :: p(s[i]) == q(s[i])
    ensures Newest(s, p) == Newest(s, q)
  {
    if s == [] {
    } else {
      NewestAgree(s[..|s| - 1], p, q);
    }
  }

  lemma {:induction false} NewestOfNone(s: seq<Event>, p: Event -> bool)
    requires forall i | 0 <= i < |s| :: !p(s[i])
    ensures Newest(s, p) == []
  {
    if s == [] {
    } else {
      NewestOfNone(s[..|s| - 1], p);
    }
  }

  lemma NewestStep(s: seq<Event>, i: nat, p: Event -> bool)
    requires 0 < i <= |s|
    ensures Newest(s[i - 1..], p) == Newest(s[i..], p) + (if p(s[i - 1]) then [s[i - 1]] else [])
  {
    assert s[i - 1..] == [s[i - 1]] + s[i..];
    NewestOfBoth([s[i - 1]], s[i..], p);
    assert [s[i - 1]][..0] == [];
  }

  lemma NewestEnough(s: seq<Event>, cut: nat, i: nat, limit: nat, p: Event -> bool)
    requires cut <= i <= |s|
    requires i == cut || |Newest(s[i..], p)| == limit
    ensures |Newest(s[i..], p)| <= limit ==> Newest(s[i..], p) == First(limit, Newest(s[cut..], p))
  {
    assert s[cut..] == s[cut..i] + s[i..];
    NewestOfBoth(s[cut..i], s[i..], p);
  }

  // ---------------------------------------------------------------- leaving early

  /** What the query returns: its loop never looks past the first event at the floor. */
  ghost function EarlyAnswer(held: seq<Event>, limit: nat, query: Query, lower: string -> string): seq<Event> {
    First(limit, Newest(held[Cut(held, query.since)..], IsHit(query, lower)))
  }

  /** What the caller asked for: the newest `limit` of everything held that is wanted. */
  ghost function FullAnswer(held: seq<Event>, limit: nat, query: Query, lower: string -> string): seq<Event> {
    First(limit, Newest(held, IsWanted(query, lower)))
  }

  /** The early exit is exact for a query just when the limit was reached before the exit or
      nothing wanted lies behind it. */
  lemma EarlyAnswerExactIff(held: seq<Event>, limit: nat, query: Query, lower: string -> string)
    ensures var cut := Cut(held, query.since);
      EarlyAnswer(held, limit, query, lower) == FullAnswer(held, limit, query, lower)
      <==> |Newest(held[cut..], IsHit(query, lower))| >= limit || Newest(held[..cut], IsWanted(query, lower)) == []
  {
    var cut := Cut(held, query.since);
    var seen, behind := Newest(held[cut..], IsHit(query, lower)), Newest(held[..cut], IsWanted(query, lower));
    NewestAgree(held[cut..], IsHit(query, lower), IsWanted(query, lower));
    NewestOfBoth(held[..cut], held[cut..], IsWanted(query, lower));
    assert held == held[..cut] + held[cut..];
    assert Newest(held, IsWanted(query, lower)) == seen + behind;
    if |seen| >= limit {
      assert First(limit, seen + behind) == First(limit, seen);
    }
  }

  /** No event is stored after one with a higher number. */
  ghost predicate NeverDescends(s: seq<Event>) {
    forall i, j | 0 <= i < j < |s| :: s[i].seqNo <= s[j].seqNo
  }

  lemma NeverDescendsMakesExact(held: seq<Event>, limit: nat, query: Query, lower: string -> string)
    requires NeverDescends(held)
    ensures EarlyAnswer(held, limit, query, lower) == FullAnswer(held, limit, query, lower)
  {
    var cut := Cut(held, query.since);
    forall i | 0 <= i < cut ensures !IsWanted(query, lower)(held[..cut][i]) {
      assert held[i].seqNo <= held[cut - 1].seqNo;
    }
    NewestOfNone(held[..cut], IsWanted(query, lower));
    EarlyAnswerExactIff(held, limit, query, lower);
  }

  lemma {:induction false} NewestHas(s: seq<Event>, p: Event -> bool, i: nat)
    requires i < |s| && p(s[i])
    ensures Newest(s, p) != []
  {
    if i < |s| - 1 {
      NewestHas(s[..|s| - 1], p, i);
    }
  }

  lemma {:induction false} NewestIsNoLonger(s: seq<Event>, p: Event -> bool)
    ensures |Newest(s, p)| <= |s|
  {
    if s == [] {
    } else {
      NewestIsNoLonger(s[..|s| - 1], p);
    }
  }

  /** Where numbers descend below an event the filters let through, the query for everything after
      the lower number misses that event, unless its limit is reached by what lies after. */
  lemma DescentIsMissed(held: seq<Event>, i: nat, j: nat, limit: nat, level: string, text: string,
                        lower: string -> string)
    requires i < j < |held| && held[i].seqNo > held[j].seqNo
    requires var query := Query(level, text, held[j].seqNo);
      Hits(held[i], query, lower) && |Newest(held[j + 1..], IsHit(query, lower))| < limit
    ensures var query := Query(level, text, held[j].seqNo);
      EarlyAnswer(held, limit, query, lower) != FullAnswer(held, limit, query, lower)
  {
    var query := Query(level, text, held[j].seqNo);
    var cut := Cut(held, query.since);
    assert j < cut;
    assert IsWanted(query, lower)(held[..cut][i]);
    NewestHas(held[..cut], IsWanted(query, lower), i);
    assert held[j + 1..] == held[j + 1..cut] + held[cut..];
    NewestOfBoth(held[j + 1..cut], held[cut..], IsHit(query, lower));
    EarlyAnswerExactIff(held, limit, query, lower);
  }

  /** The events stored after the `j`-th. */
  function Later(held: seq<Event>, j: nat): seq<Event>
    requires j < |held|
  {
    held[j + 1..]
  }

  /** Wherever a number descends below an event that the filters let through, at least `most`
      events that they let through are stored later. */
  ghost predicate DescentsAreOld(held: seq<Event>, most: nat, level: string, text: string, lower: string -> string) {
    forall i, j | 0 <= i < j < |held| && Hits(held[i], Query(level, text, 0), lower) && held[i].seqNo > held[j].seqNo ::
      |Newest(Later(held, j), IsHit(Query(level, text, 0), lower))| >= most
  }

  ghost predicate ExactUpTo(held: seq<Event>, most: nat, level: string, text: string, lower: string -> string) {
    forall limit: nat, since: nat | 0 < limit <= most ::
      EarlyAnswer(held, limit, Query(level, text, since), lower)
      == FullAnswer(held, limit, Query(level, text, since), lower)
  }

  lemma SameHits(s: seq<Event>, level: string, text: string, a: nat, b: nat, lower: string -> string)
    ensures Newest(s, IsHit(Query(level, text, a), lower)) == Newest(s, IsHit(Query(level, text, b), lower))
  {
    NewestAgree(s, IsHit(Query(level, text, a), lower), IsHit(Query(level, text, b), lower));
  }

  lemma {:induction false} NewestNeeds(s: seq<Event>, p: Event -> bool) returns (i: nat)
    requires Newest(s, p) != []
    ensures i < |s| && p(s[i])
  {
    if p(s[|s| - 1]) {
      i := |s| - 1;
    } else {
      i := NewestNeeds(s[..|s| - 1], p);
    }
  }

  lemma OldDescentsAreHarmless(held: seq<Event>, most: nat, limit: nat, query: Query, lower: string -> string)
    requires DescentsAreOld(held, most, query.level, query.text, lower) && 0 < limit <= most
    ensures EarlyAnswer(held, limit, query, lower) == FullAnswer(held, limit, query, lower)
  {
    var cut := Cut(held, query.since);
    EarlyAnswerExactIff(held, limit, query, lower);
    if Newest(held[..cut], IsWanted(query, lower)) != [] {
      var i := NewestNeeds(held[..cut], IsWanted(query, lower));
      assert held[..cut][i] == held[i] && held[i].seqNo > held[cut - 1].seqNo;
      assert Hits(held[i], Query(query.level, query.text, 0), lower);
      SameHits(held[cut..], query.level, query.text, 0, query.since, lower);
      assert held[cut - 1 + 1..] == held[cut..];
    }
  }

  /** The exact condition for one pair of filters: every floor and every limit up to `most` is
      answered exactly just when each descent that could hide an event is followed by `most`
      events that the filters let through. */
  lemma ExactIffDescentsAreOld(held: seq<Event>, most: nat, level: string, text: string, lower: string -> string)
    requires most > 0
    ensures ExactUpTo(held, most, level, text, lower) <==> DescentsAreOld(held, most, level, text, lower)
  {
    if DescentsAreOld(held, most, level, text, lower) {
      forall limit: nat, since: nat | 0 < limit <= most
        ensures var query := Query(level, text, since);
          EarlyAnswer(held, limit, query, lower) == FullAnswer(held, limit, query, lower)
      {
        OldDescentsAreHarmless(held, most, limit, Query(level, text, since), lower);
      }
    } else {
      var i, j :| 0 <= i < j < |held| && Hits(held[i], Query(level, text, 0), lower) && held[i].seqNo > held[j].seqNo
                  && |Newest(Later(held, j), IsHit(Query(level, text, 0), lower))| < most;
      SameHits(held[j + 1..], level, text, 0, held[j].seqNo, lower);
      DescentIsMissed(held, i, j, most, level, text, lower);
    }
  }

  lemma {:induction false} NewestOfAll(s: seq<Event>, since: nat, lower: string -> string)
    ensures |Newest(s, IsHit(Query("", "", since), lower))| == |s|
  {
    if s == [] {
    } else {
      NewestOfAll(s[..|s| - 1], since, lower);
    }
  }

  /** No event among the last `most` has a lower number than one stored before it. */
  ghost predicate RecentNeverDescend(held: seq<Event>, most: nat) {
    forall i, j | 0 <= i < j < |held| && |held| - most <= j :: held[i].seqNo <= held[j].seqNo
  }

  /** Without filters: every floor and every limit up to `most` is answered exactly just when no
      event among the last `most` has a lower number than an earlier one. */
  lemma ExactIffRecentNeverDescend(held: seq<Event>, most: nat, lower: string -> string)
    requires most > 0
    ensures ExactUpTo(held, most, "", "", lower) <==> RecentNeverDescend(held, most)
  {
    ExactIffDescentsAreOld(held, most, "", "", lower);
    forall j | 0 <= j < |held| ensures |Newest(Later(held, j), IsHit(Query("", "", 0), lower))| == |held| - j - 1 {
      NewestOfAll(Later(held, j), 0, lower);
    }
  }

  /** The limits the query accepts go up to 1000. A ring of that many events or fewer answers every
      query exactly just when its numbers never descend; a larger one answers every unfiltered
      query exactly just when the last 1000 are no lower than any before them. */
  lemma RecentIsExactIff(held: seq<Event>, lower: string -> string)
    ensures ExactUpTo(held, LARGEST_LIMIT, "", "", lower) <==> RecentNeverDescend(held, LARGEST_LIMIT)
    ensures |held| <= LARGEST_LIMIT ==>
              ((forall level, text :: ExactUpTo(held, LARGEST_LIMIT, level, text, lower)) <==> NeverDescends(held))
  {
    ExactIffRecentNeverDescend(held, LARGEST_LIMIT, lower);
    if |held| <= LARGEST_LIMIT {
      ExactIffNeverDescends(held, LARGEST_LIMIT, lower);
    }
  }

  /** Where a limit could show all that is held, every query with any filters is exact just when
      stored numbers never descend. */
  lemma ExactIffNeverDescends(held: seq<Event>, most: nat, lower: string -> string)
    requires |held| <= most && most > 0
    ensures (forall level, text :: ExactUpTo(held, most, level, text, lower)) <==> NeverDescends(held)
  {
    if NeverDescends(held) {
      forall level, text, limit: nat, since: nat | 0 < limit <= most
        ensures var query := Query(level, text, since);
          EarlyAnswer(held, limit, query, lower) == FullAnswer(held, limit, query, lower)
      {
        NeverDescendsMakesExact(held, limit, Query(level, text, since), lower);
      }
    } else {
      ExactIffRecentNeverDescend(held, most, lower);
      assert !ExactUpTo(held, most, "", "", lower);
    }
  }

  /** Sequence numbers taken in lock order make every query exact. */
  lemma AscendingMakesExact(held: seq<Event>, limit: nat, query: Query, lower: string -> string)
    requires Ascending(held)
    ensures NeverDescends(held)
    ensures EarlyAnswer(held, limit, query, lower) == FullAnswer(held, limit, query, lower)
  {
    NeverDescendsMakesExact(held, limit, query, lower);
  }

  /** A number is taken before the lock, so two pushes can be stored the other way round; a
      poll from the number last seen then misses an event for good. */
  lemma SwappedPushIsMissed(early: Event, late: Event, lower: string -> string)
    requires early.seqNo == 1 && late.seqNo == 2
    ensures var query := Query("", "", 1);
      && EarlyAnswer([late, early], DEFAULT_LIMIT, query, lower) == []
      && FullAnswer([late, early], DEFAULT_LIMIT, query, lower) == [late]
  {
    var query := Query("", "", 1);
    assert Cut([late, early], 1) == 2;
    assert [late, early][..1] == [late];
    assert Newest([late], IsWanted(query, lower)) == [late];
  }

  lemma LastAscends(n: nat, s: seq<Event>)
    requires Ascending(s)
    ensures Ascending(Last(n, s))
  {
  }

  lemma LastOfMore<T>(n: nat, s: seq<T>, x: T)
    requires n > 0
    ensures Last(n, s + [x]) == if |s| < n then s + [x] else Last(n, s)[1..] + [x]
  {
  }

  // ---------------------------------------------------------------- the ring

  /** A ring buffer read oldest first. */
  function Unrolled<T>(b: seq<T>, head: nat, full: bool): seq<T>
    requires head <= |b|
  {
    if full then b[head..] + b[..head] else b[..head]
  }

  function Wrapped(i: nat, n: nat): nat {
    if i == n then 0 else i
  }

  lemma StepWraps(head: nat, n: nat)
    requires head < n
    ensures (head + 1) % n == Wrapped(head + 1, n)
  {
    if head + 1 < n {
      SmallStays(head + 1, n);
    }
  }

  lemma SmallStays(i: nat, n: nat)
    requires i < n
    ensures i % n == i
  {
  }

  lemma OverwriteIsPush<T>(b: seq<T>, head: nat, full: bool, x: T)
    requires head < |b|
    ensures var next := Wrapped(head + 1, |b|);
      Unrolled(b[head := x], next, full || next == 0)
      == (if full then Unrolled(b, head, full)[1..] else Unrolled(b, head, full)) + [x]
  {
    var after := b[head := x];
    assert after[..head + 1] == b[..head] + [x];
    assert after[head + 1..] == b[head + 1..] == b[head..][1..];
    if head + 1 == |b| {
      assert after[..] == after[..head + 1];
      assert b[head..][1..] == [];
    }
  }

  /** The buffer stands for the last events of `history`, as many as fit. */
  ghost predicate Stands<T>(b: seq<T>, head: nat, full: bool, history: seq<T>) {
    && head < |b|
    && (full <==> |history| >= |b|)
    && Unrolled(b, head, full) == Last(|b|, history)
  }

  lemma OverwriteKeepsStanding<T>(b: seq<T>, head: nat, full: bool, history: seq<T>, x: T)
    requires Stands(b, head, full, history)
    ensures var next := (head + 1) % |b|; Stands(b[head := x], next, full || next == 0, history + [x])
  {
    StepWraps(head, |b|);
    OverwriteIsPush(b, head, full, x);
    LastOfMore(|b|, history, x);
    assert !full ==> |history| == head;
  }

  class Ring {
    var buf: array<Event>
    var head: nat
    var full: bool
    var seqNo: nat
    /** Every event ever stored, oldest first. */
    ghost var history: seq<Event>

    ghost predicate Valid()
      reads this, buf
    {
      SMALLEST_RING <= buf.Length && Stands(buf[..], head, full, history)
    }

    /** Every number stored was drawn from the counter, in this order. */
    ghost predicate InLockOrder()
      reads this
    {
      Ascending(history) && forall i | 0 <= i < |history| :: history[i].seqNo <= seqNo
    }

    constructor (capacity: int)
      ensures Valid() && InLockOrder() && history == [] && seqNo == 0 && fresh(buf)
      ensures buf.Length == if capacity < 16 then 16 else capacity
    {
      buf := new Event[if capacity < SMALLEST_RING then SMALLEST_RING else capacity](_ => Event(0, 0, "", "", map[]));
      head, full, seqNo, history := 0, false, 0, [];
    }

    /** Before the lock: draw the next sequence number. */
    method Draw() returns (n: nat)
      requires Valid()
      modifies this`seqNo
      ensures Valid() && n == seqNo == old(seqNo) + 1
      ensures old(InLockOrder()) ==> Ascending(history) && forall i | 0 <= i < |history| :: history[i].seqNo < n
    {
      seqNo := seqNo + 1;
      n := seqNo;
    }

    /** Under the lock: store one event, over the oldest when the ring is full. */
    method Put(ev: Event)
      requires Valid()
      modifies this`head, this`full, this`history, buf
      ensures Valid() && buf == old(buf) && history == old(history) + [ev]
    {
      OverwriteKeepsStanding(buf[..], head, full, history, ev);
      buf[head] := ev;
      history := history + [ev];
      head := (head + 1) % buf.Length;
      if head == 0 {
        full := true;
      }
      assert buf[..] == old(buf[..])[old(head) := ev];
    }

    method Push(level: string, msg: string, attrs: map<string, string>, now: int) returns (ev: Event)
      requires Valid()
      modifies this, buf
      ensures Valid() && buf == old(buf) && history == old(history) + [ev]
      ensures ev == Event(old(seqNo) + 1, now, level, msg, attrs)
      ensures old(InLockOrder()) ==> InLockOrder()
    {
      var n := Draw();
      ev := Event(n, now, level, msg, attrs);
      Put(ev);
    }

    method Snapshot() returns (all: seq<Event>)
      requires Valid()
      ensures all == Last(buf.Length, history)
    {
      if !full {
        return buf[..head];
      }
      assert buf[head..] == buf[..][head..];
      all := buf[head..] + buf[..head];
    }

    method Len() returns (n: nat)
      requires Valid()
      ensures n == if |history| < buf.Length then |history| else buf.Length
    {
      n := if full then buf.Length else head;
      assert n == |Unrolled(buf[..], head, full)|;
    }

    method Recent(limit: int, level: string, q: string, since: nat, fold: Folding) returns (out: seq<Event>)
      requires Valid()
      ensures var query := Query(fold.level(level), fold.text(q), since);
        && out == EarlyAnswer(Last(buf.Length, history), Limit(limit), query, fold.lower)
        && (NeverDescends(Last(buf.Length, history)) || Ascending(history)
            ==> out == FullAnswer(Last(buf.Length, history), Limit(limit), query, fold.lower))
    {
      var most := Limit(limit);
      var query := Query(fold.level(level), fold.text(q), since);
      var all := Snapshot();
      out := ScanBack(all, most, query, fold.lower);
      if Ascending(history) {
        LastAscends(buf.Length, history);
        AscendingMakesExact(all, most, query, fold.lower);
      } else if NeverDescends(all) {
        NeverDescendsMakesExact(all, most, query, fold.lower);
      }
    }
  }

  /** The query's loop over a snapshot, newest event first. */
  method ScanBack(all: seq<Event>, limit: nat, query: Query, lower: string -> string) returns (out: seq<Event>)
    ensures out == EarlyAnswer(all, limit, query, lower)
  {
    ghost var cut, p := Cut(all, query.since), IsHit(query, lower);
    out := [];
    var i := |all|;
    while i > 0 && |out| < limit
      invariant cut <= i <= |all|
      invariant |out| <= limit && out == Newest(all[i..], p)
    {
      var ev := all[i - 1];
      if ev.seqNo <= query.since {
        break;
      }
      NewestStep(all, i, p);
      i := i - 1;
      if Hits(ev, query, lower) {
        out := out + [ev];
      }
    }
    NewestEnough(all, cut, i, limit, p);
  }

  /** Two pushes of which the second stores first: a poll from the first number answers nothing
      although the second event is held. */
  method SwappedPushes(fold: Folding) returns (ring: Ring, missed: seq<Event>)
    requires fold.level("") == "" && fold.text("") == ""
    ensures ring.Valid() && |ring.history| == 2 && ring.history[0].seqNo == 2 && ring.history[1].seqNo == 1
    ensures missed == []
    ensures FullAnswer(Last(ring.buf.Length, ring.history), DEFAULT_LIMIT, Query("", "", 1), fold.lower)
         == [ring.history[0]]
  {
    ring := new Ring(16);
    var first := ring.Draw();
    var second := ring.Draw();
    var early := Event(first, 0, "INFO", "early", map[]);
    var late := Event(second, 0, "INFO", "late", map[]);
    ring.Put(late);
    ring.Put(early);
    SwappedPushIsMissed(early, late, fold.lower);
    assert ring.history == [late, early];
    missed := ring.Recent(0, "", "", 1, fold);
  }

  // ---------------------------------------------------------------- what an answer holds

  /** `text` occurs in `s` at position `i`. */
  predicate Occurs(s: string, text: string, i: int) {
    0 <= i && i + |text| <= |s| && s[i..i + |text|] == text
  }

  lemma {:induction false} ContainsIffOccurs(s: string, text: string)
    ensures Contains(s, text) <==> exists i :: Occurs(s, text, i)
  {
    if |text| <= |s| && s[..|text|] == text {
      assert Occurs(s, text, 0);
    } else if s != [] {
      ContainsIffOccurs(s[1..], text);
      if i :| Occurs(s, text, i) {
        assert s[0..0 + |text|] == s[..|text|];
        assert s[1..][i - 1..i - 1 + |text|] == s[i..i + |text|];
        assert Occurs(s[1..], text, i - 1);
      }
      if i :| Occurs(s[1..], text, i) {
        assert s[1..][i..i + |text|] == s[i + 1..i + 1 + |text|];
        assert Occurs(s, text, i + 1);
      }
    } else {
      forall i ensures !Occurs(s, text, i) {
        assert s[..0] == [];
      }
    }
  }

  lemma {:induction false} NewestAreHits(s: seq<Event>, p: Event -> bool, e: Event)
    ensures multiset(Newest(s, p))[e] == if p(e) then multiset(s)[e] else 0
  {
    if s == [] {
    } else {
      var init, last := s[..|s| - 1], s[|s| - 1];
      assert s == init + [last];
      NewestAreHits(init, p, e);
    }
  }

  lemma {:induction false} NewestAreFromList(s: seq<Event>, p: Event -> bool)
    ensures forall e | e in Newest(s, p) :: e in s
  {
    if s == [] {
    } else {
      NewestAreFromList(s[..|s| - 1], p);
    }
  }

  ghost predicate Descending(s: seq<Event>) {
    forall i, j | 0 <= i < j < |s| :: s[i].seqNo > s[j].seqNo
  }

  /** Numbers stored in the order they were drawn come back newest first. */
  lemma {:induction false} NewestComeFirst(s: seq<Event>, p: Event -> bool)
    requires Ascending(s)
    ensures Descending(Newest(s, p))
  {
    if s == [] {
    } else {
      var init, last := s[..|s| - 1], s[|s| - 1];
      var rest := Newest(init, p);
      NewestComeFirst(init, p);
      NewestAreFromList(init, p);
      forall j | 0 <= j < |rest| ensures rest[j].seqNo < last.seqNo {
        assert rest[j] in init;
        var k :| 0 <= k < |init| && init[k] == rest[j];
      }
      assert Newest(s, p) == (if p(last) then [last] else []) + rest;
    }
  }

  /** Every event of an answer is held, above the floor, of the level and with the text asked for. */
  ghost predicate Asked(e: Event, query: Query, lower: string -> string) {
    && e.seqNo > query.since && (query.level == "" || e.level == query.level)
    && (query.text == "" || Mentions(e, query.text, lower))
  }

  /** The text occurs in the message or in the name or value of an attribute, in lower case. */
  ghost predicate Mentions(e: Event, text: string, lower: string -> string) {
    || (exists i :: Occurs(lower(e.msg), text, i))
    || (exists k, i | k in e.attrs :: Occurs(lower(k), text, i) || Occurs(lower(e.attrs[k]), text, i))
  }

  lemma WantedIffAsked(e: Event, query: Query, lower: string -> string)
    ensures IsWanted(query, lower)(e) <==> Asked(e, query, lower)
  {
    MatchesIffMentions(e, query.text, lower);
  }

  lemma MatchesIffMentions(e: Event, text: string, lower: string -> string)
    ensures Matches(e, text, lower) <==> Mentions(e, text, lower)
  {
    ContainsIffOccurs(lower(e.msg), text);
    forall k | k in e.attrs
      ensures Contains(lower(k), text) <==> exists i :: Occurs(lower(k), text, i)
      ensures Contains(lower(e.attrs[k]), text) <==> exists i :: Occurs(lower(e.attrs[k]), text, i)
    {
      ContainsIffOccurs(lower(k), text);
      ContainsIffOccurs(lower(e.attrs[k]), text);
    }
  }

  /** What is asked of everything held: an event is in the full answer, as often as it is held, only
      if it was asked for; and if fewer were asked for than the limit, all of them are. */
  lemma FullAnswerIsAsked(held: seq<Event>, limit: nat, query: Query, lower: string -> string, e: Event)
    ensures e in FullAnswer(held, limit, query, lower) ==> e in held && Asked(e, query, lower)
    ensures e in held && Asked(e, query, lower) && |FullAnswer(held, limit, query, lower)| < limit ==>
              e in FullAnswer(held, limit, query, lower)
  {
    var all := Newest(held, IsWanted(query, lower));
    NewestAreHits(held, IsWanted(query, lower), e);
    WantedIffAsked(e, query, lower);
    assert e in all <==> e in multiset(all);
    assert e in held <==> e in multiset(held);
  }

  /** Whatever order numbers were stored in, a poll answers with held events that were asked for, and
      with no more of them than an accepted limit; other limits count as 200. */
  lemma EarlyAnswerIsAsked(held: seq<Event>, limit: int, query: Query, lower: string -> string, e: Event)
    ensures e in EarlyAnswer(held, Limit(limit), query, lower) ==> e in held && Asked(e, query, lower)
    ensures |EarlyAnswer(held, Limit(limit), query, lower)| <= if 0 < limit <= 1000 then limit else 200
  {
    if e in EarlyAnswer(held, Limit(limit), query, lower) {
      TailHoldsHits(held, Cut(held, query.since), query, lower, e);
      WantedIffAsked(e, query, lower);
    }
  }

  lemma TailHoldsHits(held: seq<Event>, cut: nat, query: Query, lower: string -> string, e: Event)
    requires cut <= |held| && e in Newest(held[cut..], IsHit(query, lower))
    ensures Hits(e, query, lower) && exists i :: cut <= i < |held| && held[i] == e
  {
    var tail := held[cut..];
    NewestAreHits(tail, IsHit(query, lower), e);
    assert e in multiset(Newest(tail, IsHit(query, lower)));
    assert e in multiset(tail);
    var i :| 0 <= i < |tail| && tail[i] == e;
    assert held[cut + i] == e;
  }

  /** Sequential pushes are answered newest first. */
  lemma AnswersComeNewestFirst(held: seq<Event>, limit: nat, query: Query, lower: string -> string)
    requires Ascending(held)
    ensures Descending(EarlyAnswer(held, limit, query, lower))
  {
    NewestComeFirst(held[Cut(held, query.since)..], IsHit(query, lower));
  }

  /** Nothing asked for is held back while the limit has room, if numbers never descend. */
  lemma NothingIsHeldBack(held: seq<Event>, limit: int, query: Query, lower: string -> string, e: Event)
    requires NeverDescends(held) && e in held && Asked(e, query, lower)
    ensures var out := EarlyAnswer(held, Limit(limit), query, lower);
      e in out || |out| >= if 0 < limit <= 1000 then limit else 200
  {
    NeverDescendsMakesExact(held, Limit(limit), query, lower);
    FullAnswerIsAsked(held, Limit(limit), query, lower, e);
  }
}
