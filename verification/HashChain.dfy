/** The two hash chains of the security package: the internal audit log
    (`security/ayni_security/audit.py`) and the published decision records
    (`security/ayni_security/publication.py`). The hash of a record's canonical form is an
    arbitrary function: nothing is assumed of it, and what tampering would take is stated
    as an explicit pair of colliding bodies. */
module HashChain {
  import opened Common

  // ---------------------------------------------------------------- the audit log

  datatype Body<D> = Body(index: nat, eventType: string, createdAt: int, payloadDigest: D, previous: D)

  datatype Record<D> = Record(body: Body<D>, recordHash: D)

  /** What a caller supplies for one record. */
  datatype Entry<D> = Entry(eventType: string, createdAt: int, payloadDigest: D)

  function HeadOf<D>(genesis: D, records: seq<Record<D>>): D {
    if records == [] then genesis else records[|records| - 1].recordHash
  }

  ghost predicate Verifies<D>(hash: Body<D> -> D, genesis: D, records: seq<Record<D>>) {
    forall i | 0 <= i < |records| ::
      && records[i].body.index == i
      && records[i].body.previous == HeadOf(genesis, records[..i])
      && hash(records[i].body) == records[i].recordHash
  }

  class AuditLog<D(==)> {
    const hash: Body<D> -> D
    const genesis: D
    var records: seq<Record<D>>

    ghost predicate Valid()
      reads this
    {
      Verifies(hash, genesis, records)
    }

    constructor (hash: Body<D> -> D, genesis: D)
      ensures this.hash == hash && this.genesis == genesis && records == [] && Valid()
    {
      this.hash, this.genesis, records := hash, genesis, [];
    }

    /** Refuses an empty event type; otherwise the log grows by one record and still verifies. */
    method Append(eventType: string, createdAt: int, payloadDigest: D) returns (r: Option<Record<D>>)
      requires Valid()
      modifies this
      ensures Valid()
      ensures r.None? <==> eventType == ""
      ensures r.None? ==> records == old(records)
      ensures r.Some? ==> records == old(records) + [r.value]
      ensures r.Some? ==>
        r.value.body == Body(|old(records)|, eventType, createdAt, payloadDigest, HeadOf(genesis, old(records)))
    {
      if eventType == "" {
        return None;
      }
      var previous := if records != [] then records[|records| - 1].recordHash else genesis;
      var body := Body(|records|, eventType, createdAt, payloadDigest, previous);
      var record := Record(body, hash(body));
      ghost var before := records;
      records := records + [record];
      assert records[..|before|] == before;
      assert forall i | 0 <= i < |before| :: records[..i] == before[..i];
      r := Some(record);
    }

    method Verify() returns (ok: bool)
      ensures ok <==> Verifies(hash, genesis, records)
    {
      var previous := genesis;
      for i := 0 to |records|
        invariant previous == HeadOf(genesis, records[..i])
        invariant Verifies(hash, genesis, records[..i])
      {
        var record := records[i];
        assert records[..i + 1] == records[..i] + [record];
        VerifiesSnoc(hash, genesis, records[..i], record);
        if record.body.index != i || record.body.previous != previous {
          BadLink(hash, genesis, records, i);
          return false;
        }
        var claimed := record.recordHash;
        if hash(record.body) != claimed {
          BadLink(hash, genesis, records, i);
          return false;
        }
        previous := claimed;
      }
      assert records[..|records|] == records;
      ok := true;
    }
  }

  /** The chain that appending `entries` one after the other produces. */
  function Build<D>(hash: Body<D> -> D, genesis: D, entries: seq<Entry<D>>): (records: seq<Record<D>>)
    ensures |records| == |entries|
  {
    if entries == [] then []
    else
      var before := Build(hash, genesis, entries[..|entries| - 1]);
      var e := entries[|entries| - 1];
      var body := Body(|before|, e.eventType, e.createdAt, e.payloadDigest, HeadOf(genesis, before));
      before + [Record(body, hash(body))]
  }

  function EntriesOf<D>(records: seq<Record<D>>): seq<Entry<D>> {
    seq(|records|, i requires 0 <= i < |records| =>
      Entry(records[i].body.eventType, records[i].body.createdAt, records[i].body.payloadDigest))
  }

  lemma VerifiesPrefix<D>(hash: Body<D> -> D, genesis: D, records: seq<Record<D>>, n: nat)
    requires n <= |records| && Verifies(hash, genesis, records)
    ensures Verifies(hash, genesis, records[..n])
  {
    assert forall i | 0 <= i < n :: records[..n][..i] == records[..i];
  }

  /** What makes one more record verify. */
  ghost predicate Links<D>(hash: Body<D> -> D, genesis: D, before: seq<Record<D>>, r: Record<D>) {
    r.body.index == |before| && r.body.previous == HeadOf(genesis, before) && hash(r.body) == r.recordHash
  }

  lemma VerifiesSnoc<D>(hash: Body<D> -> D, genesis: D, before: seq<Record<D>>, r: Record<D>)
    ensures Verifies(hash, genesis, before + [r])
            <==> Verifies(hash, genesis, before) && Links(hash, genesis, before, r)
  {
    var more := before + [r];
    assert forall i | 0 <= i <= |before| :: more[..i] == before[..i];
    assert before[..|before|] == before && more[|before|] == r;
    if Verifies(hash, genesis, more) {
      VerifiesPrefix(hash, genesis, more, |before|);
    }
  }

  lemma BuildSnoc<D>(hash: Body<D> -> D, genesis: D, before: seq<Record<D>>, r: Record<D>)
    ensures var built := Build(hash, genesis, EntriesOf(before));
      var body := Body(|built|, r.body.eventType, r.body.createdAt, r.body.payloadDigest, HeadOf(genesis, built));
      Build(hash, genesis, EntriesOf(before + [r])) == built + [Record(body, hash(body))]
  {
    assert EntriesOf(before + [r])[..|before|] == EntriesOf(before);
  }

  lemma BadLink<D>(hash: Body<D> -> D, genesis: D, records: seq<Record<D>>, i: nat)
    requires i < |records| && !Links(hash, genesis, records[..i], records[i])
    ensures !Verifies(hash, genesis, records)
  {
  }

  /** A log verifies exactly when it is what appending its own entries would have produced. */
  lemma {:induction false} VerifiesIffBuilt<D>(hash: Body<D> -> D, genesis: D, records: seq<Record<D>>)
    ensures Verifies(hash, genesis, records) <==> records == Build(hash, genesis, EntriesOf(records))
  {
    if records == [] {
    } else {
      var before, r := records[..|records| - 1], records[|records| - 1];
      assert records == before + [r];
      VerifiesIffBuilt(hash, genesis, before);
      VerifiesSnoc(hash, genesis, before, r);
      BuildSnoc(hash, genesis, before, r);
      assert before + [r] == Build(hash, genesis, EntriesOf(before + [r]))
        <==> before == Build(hash, genesis, EntriesOf(before)) && Links(hash, genesis, before, r);
    }
  }

  /** Two different bodies with one hash. */
  ghost predicate Collides<B, D>(hash: B -> D, x: B, y: B) {
    x != y && hash(x) == hash(y)
  }

  /** Two non-empty verifying logs with one head are the same log, record for record —
      or comparing them from the end exhibits a collision of the hash. */
  lemma {:induction false} OneHeadOneLog<D>(hash: Body<D> -> D, genesis: D, a: seq<Record<D>>, b: seq<Record<D>>)
    returns (collision: Option<(Body<D>, Body<D>)>)
    requires Verifies(hash, genesis, a) && Verifies(hash, genesis, b)
    requires a != [] && b != [] && HeadOf(genesis, a) == HeadOf(genesis, b)
    ensures collision.None? ==> a == b
    ensures collision.Some? ==> Collides(hash, collision.value.0, collision.value.1)
  {
    var a', x := a[..|a| - 1], a[|a| - 1];
    var b', y := b[..|b| - 1], b[|b| - 1];
    assert a == a' + [x] && b == b' + [y];
    VerifiesSnoc(hash, genesis, a', x);
    VerifiesSnoc(hash, genesis, b', y);
    if x.body != y.body {
      return Some((x.body, y.body));
    }
    assert x == y && |a'| == |b'|;
    collision := None;
    if a' == [] {
    } else {
      collision := OneHeadOneLog(hash, genesis, a', b');
    }
  }

  /** Under a collision-free hash the head fixes the whole log. */
  lemma CollisionFreeLogs<D>(hash: Body<D> -> D, genesis: D, a: seq<Record<D>>, b: seq<Record<D>>)
    requires forall x, y :: hash(x) == hash(y) ==> x == y
    requires Verifies(hash, genesis, a) && Verifies(hash, genesis, b)
    requires a != [] && b != [] && HeadOf(genesis, a) == HeadOf(genesis, b)
    ensures a == b
  {
    var collision := OneHeadOneLog(hash, genesis, a, b);
  }

  // ---------------------------------------------------------------- published records

  /** A decision's public content is opaque here; `previous` links to the record before it.
      The empty digest marks both the first link and a record not sealed yet. */
  datatype PublicBody<C, D> = PublicBody(content: C, previous: D)

  datatype PublicRecord<C, D> = PublicRecord(body: PublicBody<C, D>, recordHash: D)

  predicate SealHolds<C, D(==)>(hash: PublicBody<C, D> -> D, empty: D, r: PublicRecord<C, D>) {
    r.recordHash != empty && hash(r.body) == r.recordHash
  }

  /** Sealing refuses a record that carries a hash already. */
  function SealRecord<C, D(==)>(hash: PublicBody<C, D> -> D, empty: D, r: PublicRecord<C, D>)
    : (sealed: Option<PublicRecord<C, D>>)
    ensures sealed.None? <==> r.recordHash != empty
    ensures sealed.Some? ==> sealed.value.body == r.body
    ensures sealed.Some? ==> (SealHolds(hash, empty, sealed.value) <==> hash(r.body) != empty)
  {
    if r.recordHash != empty then None else Some(r.(recordHash := hash(r.body)))
  }

  function PublicHead<C, D>(empty: D, records: seq<PublicRecord<C, D>>): D {
    if records == [] then empty else records[|records| - 1].recordHash
  }

  ghost predicate ChainHolds<C, D>(hash: PublicBody<C, D> -> D, empty: D, records: seq<PublicRecord<C, D>>) {
    forall i | 0 <= i < |records| ::
      && records[i].body.previous == PublicHead(empty, records[..i])
      && records[i].recordHash != empty && hash(records[i].body) == records[i].recordHash
  }

  method VerifyPublicChain<C, D(==)>(hash: PublicBody<C, D> -> D, empty: D, records: seq<PublicRecord<C, D>>)
    returns (ok: bool)
    ensures ok <==> ChainHolds(hash, empty, records)
  {
    var previous := empty;
    for i := 0 to |records|
      invariant previous == PublicHead(empty, records[..i])
      invariant forall j | 0 <= j < i ::
        && records[j].body.previous == PublicHead(empty, records[..j])
        && records[j].recordHash != empty && hash(records[j].body) == records[j].recordHash
    {
      var record := records[i];
      if record.body.previous != previous || !SealHolds(hash, empty, record) {
        return false;
      }
      previous := record.recordHash;
    }
    ok := true;
  }

  lemma ChainPrefix<C, D>(hash: PublicBody<C, D> -> D, empty: D, records: seq<PublicRecord<C, D>>, n: nat)
    requires n <= |records| && ChainHolds(hash, empty, records)
    ensures ChainHolds(hash, empty, records[..n])
  {
    assert forall i | 0 <= i < n :: records[..n][..i] == records[..i];
  }

  /** Public records carry no index, yet the head still fixes the whole chain: the empty
      marker that starts a chain is never the hash of a sealed record. */
  lemma {:induction false} OneHeadOneChain<C, D>(hash: PublicBody<C, D> -> D, empty: D,
                                                 a: seq<PublicRecord<C, D>>, b: seq<PublicRecord<C, D>>)
    returns (collision: Option<(PublicBody<C, D>, PublicBody<C, D>)>)
    requires ChainHolds(hash, empty, a) && ChainHolds(hash, empty, b)
    requires PublicHead(empty, a) == PublicHead(empty, b)
    ensures collision.None? ==> a == b
    ensures collision.Some? ==> Collides(hash, collision.value.0, collision.value.1)
    decreases |a| + |b|
  {
    if a == [] || b == [] {
      return None;
    }
    var m, n := |a| - 1, |b| - 1;
    if a[m].body != b[n].body {
      return Some((a[m].body, b[n].body));
    }
    ChainPrefix(hash, empty, a, m);
    ChainPrefix(hash, empty, b, n);
    assert a == a[..m] + [a[m]] && b == b[..n] + [b[n]];
    collision := OneHeadOneChain(hash, empty, a[..m], b[..n]);
  }

  lemma CollisionFreeChains<C, D>(hash: PublicBody<C, D> -> D, empty: D,
                                  a: seq<PublicRecord<C, D>>, b: seq<PublicRecord<C, D>>)
    requires forall x, y :: hash(x) == hash(y) ==> x == y
    requires ChainHolds(hash, empty, a) && ChainHolds(hash, empty, b) && PublicHead(empty, a) == PublicHead(empty, b)
    ensures a == b
  {
    var collision := OneHeadOneChain(hash, empty, a, b);
  }

  /** Linking a record to the head of a chain and sealing it keeps the chain verifying,
      exactly when its hash is not the empty marker. */
  lemma PublishingKeepsChain<C, D>(hash: PublicBody<C, D> -> D, empty: D, records: seq<PublicRecord<C, D>>, content: C)
    requires ChainHolds(hash, empty, records)
    ensures var body := PublicBody(content, PublicHead(empty, records));
      ChainHolds(hash, empty, records + [PublicRecord(body, hash(body))]) <==> hash(body) != empty
  {
    var body := PublicBody(content, PublicHead(empty, records));
    var more := records + [PublicRecord(body, hash(body))];
    assert forall i | 0 <= i <= |records| :: more[..i] == records[..i];
    assert records[..|records|] == records;
    if hash(body) == empty {
      assert more[|records|].recordHash == empty;
    }
  }
}
