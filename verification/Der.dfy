/** The tag/length/value scanner of `findContextTagged` (`coordinator/internal/attest/android.go`)
    against the encoding rules of ITU-T X.690, sections 8.1.2 (identifier octets) and
    8.1.3 (length octets). */
module Der {
  import opened Common

  type byte = x: int | 0 <= x < 256

  const TWO_64: int := 0x1_0000_0000_0000_0000
  const TWO_32: int := 0x1_0000_0000
  const CONTEXT: nat := 2

  // ---------------------------------------------------------------- the octets of one element

  /** Subsequent identifier octets, most significant first, seven bits each (8.1.2.4.2). */
  function Base128(digits: seq<byte>): nat {
    if digits == [] then 0
    else Base128(digits[..|digits| - 1]) * 128 + digits[|digits| - 1] % 128
  }

  /** An octet string read as an unsigned binary integer (8.1.3.5 c). */
  function BigEndian(octets: seq<byte>): nat {
    if octets == [] then 0
    else BigEndian(octets[..|octets| - 1]) * 256 + octets[|octets| - 1]
  }

  /** Identifier octets: one octet, or a leading octet with tag bits 11111 and further
      octets of which exactly the last has bit 8 clear. */
  ghost predicate IsIdentifier(id: seq<byte>) {
    && id != []
    && (if id[0] % 32 != 31 then |id| == 1
        else |id| >= 2 && id[|id| - 1] < 128 && forall k | 1 <= k < |id| - 1 :: id[k] >= 128)
  }

  function TagOf(id: seq<byte>): nat
    requires id != []
  {
    if id[0] % 32 != 31 then id[0] % 32 else Base128(id[1..])
  }

  /** Length octets in the definite form, of at most four subsequent octets. */
  ghost predicate IsLength(len: seq<byte>) {
    len != [] && (if len[0] < 128 then |len| == 1 else 1 <= len[0] - 128 <= 4 && |len| == 1 + len[0] - 128)
  }

  function LengthOf(len: seq<byte>): nat
    requires len != []
  {
    if len[0] < 128 then len[0] else BigEndian(len[1..])
  }

  /** One encoded element, octet for octet. */
  datatype Tlv = Tlv(id: seq<byte>, len: seq<byte>, content: seq<byte>)
  {
    ghost predicate WellFormed() {
      IsIdentifier(id) && IsLength(len) && LengthOf(len) == |content|
    }

    function Octets(): seq<byte> {
      id + len + content
    }

    /** What the scanner looks for. It keeps the tag number in 64 bits. */
    ghost predicate Matches(want: nat) {
      id != [] && id[0] / 64 == CONTEXT && TagOf(id) % TWO_64 == want
    }
  }

  function Concat(es: seq<Tlv>): seq<byte> {
    if es == [] then [] else es[0].Octets() + Concat(es[1..])
  }

  ghost predicate AllWellFormed(es: seq<Tlv>) {
    forall e | e in es :: e.WellFormed()
  }

  ghost predicate NoneMatches(es: seq<Tlv>, want: nat) {
    forall e | e in es :: !e.Matches(want)
  }

  /** `input` starts with whole elements of which only the last, `e`, matches. */
  ghost predicate HitAt(input: seq<byte>, want: nat, before: seq<Tlv>, e: Tlv) {
    && AllWellFormed(before) && NoneMatches(before, want)
    && e.WellFormed() && e.Matches(want)
    && Concat(before) + e.Octets() <= input
  }

  /** The whole meaning of a scan, in both directions. */
  ghost predicate Answers(input: seq<byte>, want: nat, hit: Option<seq<byte>>) {
    && (hit.Some? ==> exists before, e :: HitAt(input, want, before, e) && e.content == hit.value)
    && (hit.None? ==> forall before, e :: !HitAt(input, want, before, e))
  }

  /** No whole element starts here. */
  ghost predicate Malformed(b: seq<byte>) {
    forall e: Tlv | e.WellFormed() :: !(e.Octets() <= b)
  }

  // ---------------------------------------------------------------- elements are prefix-free

  lemma IdentifierIsUnique(id: seq<byte>, e: Tlv, b: seq<byte>)
    requires IsIdentifier(id) && id <= b
    requires IsIdentifier(e.id) && e.Octets() <= b
    ensures e.id == id
  {
    assert e.id[0] == b[0] == id[0];
    assert forall k | 0 <= k < |e.id| :: e.id[k] == e.Octets()[k] == b[k];
    var shorter := if |id| < |e.id| then |id| else |e.id|;
    assert id[shorter - 1] == b[shorter - 1] == e.id[shorter - 1];
  }

  lemma LengthIsUnique(id: seq<byte>, len: seq<byte>, e: Tlv, b: seq<byte>)
    requires IsLength(len) && id + len <= b
    requires IsLength(e.len) && e.id == id && e.Octets() <= b
    ensures e.len == len
  {
    assert forall k | 0 <= k < |e.len| :: e.len[k] == e.Octets()[|id| + k] == b[|id| + k];
    assert forall k | 0 <= k < |len| :: len[k] == (id + len)[|id| + k] == b[|id| + k];
    assert e.len[0] == len[0];
  }

  lemma ElementIsUnique(d: Tlv, e: Tlv, b: seq<byte>)
    requires d.WellFormed() && e.WellFormed()
    requires d.Octets() <= b && e.Octets() <= b
    ensures d == e
  {
    assert forall k | 0 <= k < |d.id| :: d.id[k] == d.Octets()[k] == b[k];
    IdentifierIsUnique(d.id, e, b);
    assert forall k | 0 <= k < |d.id + d.len| :: (d.id + d.len)[k] == d.Octets()[k] == b[k];
    LengthIsUnique(d.id, d.len, e, b);
    var at := |d.id| + |d.len|;
    assert d.content == d.Octets()[at..] == b[at..at + |d.content|];
    assert e.content == e.Octets()[at..] == b[at..at + |e.content|];
  }

  lemma {:induction false} ConcatAppend(es: seq<Tlv>, e: Tlv)
    ensures Concat(es + [e]) == Concat(es) + e.Octets()
  {
    if es == [] {
      assert [] + [e] == [e] && [e][1..] == [];
    } else {
      assert (es + [e])[1..] == es[1..] + [e];
      ConcatAppend(es[1..], e);
    }
  }

  lemma NothingHere(input: seq<byte>, want: nat, before: seq<Tlv>, e: Tlv)
    requires Malformed(input)
    ensures !HitAt(input, want, before, e)
  {
    var first := if before == [] then e else before[0];
    assert e.Octets() <= Concat([]) + e.Octets();
    assert before != [] ==> first.Octets() <= Concat(before) + e.Octets();
    assert first.WellFormed() ==> !(first.Octets() <= input);
  }

  lemma StepOver(t: seq<byte>, rest: seq<byte>, input: seq<byte>)
    requires t + rest <= input
    ensures t <= input && rest <= input[|t|..]
  {
    assert input[..|t|] == (t + rest)[..|t|];
    assert input[|t|..][..|rest|] == (t + rest)[|t|..];
  }

  lemma Associates(a: seq<byte>, b: seq<byte>, c: seq<byte>)
    ensures a + b + c == a + (b + c)
  {
  }

  lemma ConcatFirst(es: seq<Tlv>, b: seq<byte>)
    requires es != []
    ensures Concat(es) + b == es[0].Octets() + (Concat(es[1..]) + b)
  {
    Associates(es[0].Octets(), Concat(es[1..]), b);
  }

  lemma FirstIsForced(input: seq<byte>, want: nat, t: Tlv, before: seq<Tlv>, e: Tlv)
    requires t.WellFormed() && !t.Matches(want) && t.Octets() <= input
    requires HitAt(input, want, before, e)
    ensures before != [] && before[0] == t
    ensures HitAt(input[|t.Octets()|..], want, before[1..], e)
  {
    if before == [] {
      assert Concat(before) + e.Octets() == e.Octets();
      ElementIsUnique(t, e, input);
    } else {
      ConcatFirst(before, e.Octets());
      StepOver(before[0].Octets(), Concat(before[1..]) + e.Octets(), input);
      ElementIsUnique(t, before[0], input);
    }
  }

  /** Once `trail` has been stepped over without a match and no whole element follows,
      no reading of the input contains a hit. */
  lemma {:induction false} DeadEnd(input: seq<byte>, want: nat, trail: seq<Tlv>, rest: seq<byte>,
                                   before: seq<Tlv>, e: Tlv)
    requires AllWellFormed(trail) && NoneMatches(trail, want)
    requires input == Concat(trail) + rest && Malformed(rest)
    ensures !HitAt(input, want, before, e)
  {
    if trail == [] {
      assert input == rest;
      NothingHere(input, want, before, e);
    } else if HitAt(input, want, before, e) {
      var t := trail[0];
      ConcatFirst(trail, rest);
      FirstIsForced(input, want, t, before, e);
      DeadEnd(input[|t.Octets()|..], want, trail[1..], rest, before[1..], e);
    }
  }

  // ---------------------------------------------------------------- why a scan may stop

  lemma TooShort(b: seq<byte>)
    requires |b| < 2
    ensures Malformed(b)
  {
  }

  lemma EndlessTag(b: seq<byte>)
    requires b != [] && b[0] % 32 == 31 && forall k | 1 <= k < |b| :: b[k] >= 128
    ensures Malformed(b)
  {
    forall e: Tlv | e.WellFormed() ensures !(e.Octets() <= b) {
      assert e.Octets()[0] == e.id[0] && e.Octets()[|e.id| - 1] == e.id[|e.id| - 1];
    }
  }

  lemma MissingLength(b: seq<byte>, id: seq<byte>)
    requires IsIdentifier(id) && b == id
    ensures Malformed(b)
  {
    forall e: Tlv | e.WellFormed() && e.Octets() <= b ensures false {
      IdentifierIsUnique(id, e, b);
    }
  }

  lemma BadLength(b: seq<byte>, id: seq<byte>)
    requires IsIdentifier(id) && id <= b && |id| < |b| && b[|id|] >= 128
    requires var n := b[|id|] - 128; n == 0 || n > 4 || |id| + 1 + n > |b|
    ensures Malformed(b)
  {
    forall e: Tlv | e.WellFormed() ensures !(e.Octets() <= b) {
      assert e.Octets()[|e.id|] == e.len[0];
      if e.Octets() <= b {
        IdentifierIsUnique(id, e, b);
      }
    }
  }

  lemma ContentCutOff(b: seq<byte>, id: seq<byte>, len: seq<byte>)
    requires IsIdentifier(id) && IsLength(len) && id + len <= b
    requires |id| + |len| + LengthOf(len) > |b|
    ensures Malformed(b)
  {
    forall e: Tlv | e.WellFormed() && e.Octets() <= b ensures false {
      assert forall k | 0 <= k < |id| :: id[k] == (id + len)[k] == b[k];
      IdentifierIsUnique(id, e, b);
      LengthIsUnique(id, len, e, b);
    }
  }

  // ---------------------------------------------------------------- the scanner

  lemma ModIs(x: nat, q: nat, r: nat)
    requires x == q * TWO_64 + r && r < TWO_64
    ensures x % TWO_64 == r
  {
  }

  lemma Split(x: nat, m: nat) returns (q: nat, r: nat)
    requires m > 0
    ensures x == q * m + r && r < m && r == x % m
  {
    q, r := x / m, x % m;
  }

  /** Keeping a tag number in 64 bits at every step keeps the whole number modulo 2^64. */
  lemma WrapStep(tag: nat, c: byte)
    ensures ((tag % TWO_64) * 128) % TWO_64 + c % 128 == (tag * 128 + c % 128) % TWO_64
  {
    var low := c % 128;
    var q, r := Split(tag, TWO_64);
    var u, v := Split(r, TWO_64 / 128);
    ModIs(r * 128, u, v * 128);
    ModIs(tag * 128 + low, q * 128 + u, v * 128 + low);
  }

  /** The identifier octets of `b`: where they end, and the tag number kept in 64 bits. */
  method ReadIdentifier(b: seq<byte>) returns (ok: bool, i: nat, tagNum: nat)
    requires |b| >= 2
    ensures !ok ==> Malformed(b)
    ensures ok ==> 1 <= i <= |b| && IsIdentifier(b[..i]) && tagNum == TagOf(b[..i]) % TWO_64
  {
    i := 1;
    tagNum := b[0] % 32;
    if tagNum == 31 {
      tagNum := 0;
      while true
        invariant 1 <= i <= |b|
        invariant forall k | 1 <= k < i :: b[k] >= 128
        invariant tagNum == Base128(b[1..i]) % TWO_64
        decreases |b| - i
      {
        if i >= |b| {
          EndlessTag(b);
          return false, i, tagNum;
        }
        var c := b[i];
        assert b[1..i + 1][..i - 1] == b[1..i];
        WrapStep(Base128(b[1..i]), c);
        i := i + 1;
        tagNum := (tagNum * 128) % TWO_64 + c % 128;
        if c < 128 {
          break;
        }
      }
      assert b[..i][1..] == b[1..i];
    }
    ok := true;
  }

  /** The length octets of `b` from `start`: where they end, and the length. */
  method ReadLength(b: seq<byte>, start: nat) returns (ok: bool, i: nat, l: nat)
    requires start <= |b| && IsIdentifier(b[..start])
    ensures !ok ==> Malformed(b)
    ensures ok ==> start < i <= |b| && IsLength(b[start..i]) && l == LengthOf(b[start..i])
  {
    i := start;
    l := 0;
    if i >= |b| {
      MissingLength(b, b[..start]);
      return false, i, l;
    }
    l := b[i];
    i := i + 1;
    if l >= 128 {
      var n := l - 128;
      if n == 0 || n > 4 || i + n > |b| {
        BadLength(b, b[..start]);
        return false, i, l;
      }
      l := 0;
      for k := 0 to n
        invariant i == start + 1 + k
        invariant l == BigEndian(b[start + 1..i])
      {
        assert b[start + 1..i + 1][..k] == b[start + 1..i];
        l := l * 256 + b[i];
        i := i + 1;
      }
      assert b[start..i][1..] == b[start + 1..i];
    }
    ok := true;
  }

  /** `trail` is everything before `b`, and none of it matches. */
  ghost predicate Passed(input: seq<byte>, want: nat, trail: seq<Tlv>, b: seq<byte>) {
    AllWellFormed(trail) && NoneMatches(trail, want) && input == Concat(trail) + b
  }

  /** The element of `b` whose length octets start at `at`, content at `i`. */
  ghost function ElementOf(b: seq<byte>, at: nat, i: nat, l: nat): Tlv
    requires at <= i <= i + l <= |b|
  {
    Tlv(b[..at], b[at..i], b[i..i + l])
  }

  lemma ElementOfIsWhole(b: seq<byte>, at: nat, i: nat, l: nat)
    requires at < i <= |b| && IsIdentifier(b[..at]) && IsLength(b[at..i]) && l == LengthOf(b[at..i])
    ensures i + l > |b| ==> Malformed(b)
    ensures i + l <= |b| ==> ElementOf(b, at, i, l).WellFormed() && b == ElementOf(b, at, i, l).Octets() + b[i + l..]
  {
    assert b[..at] + b[at..i] == b[..i];
    if i + l > |b| {
      ContentCutOff(b, b[..at], b[at..i]);
    } else {
      assert b[..i] + b[i..i + l] == b[..i + l];
    }
  }

  lemma Found(input: seq<byte>, want: nat, trail: seq<Tlv>, b: seq<byte>, e: Tlv, rest: seq<byte>)
    requires Passed(input, want, trail, b) && e.WellFormed() && e.Matches(want) && b == e.Octets() + rest
    ensures Answers(input, want, Some(e.content))
  {
    assert Concat(trail) + b == Concat(trail) + e.Octets() + rest;
    assert HitAt(input, want, trail, e);
  }

  lemma SteppedOver(input: seq<byte>, want: nat, trail: seq<Tlv>, b: seq<byte>, e: Tlv, rest: seq<byte>)
    requires Passed(input, want, trail, b) && e.WellFormed() && !e.Matches(want) && b == e.Octets() + rest
    ensures Passed(input, want, trail + [e], rest)
  {
    ConcatAppend(trail, e);
    assert Concat(trail) + b == Concat(trail) + e.Octets() + rest;
  }

  lemma Stop(input: seq<byte>, want: nat, trail: seq<Tlv>, b: seq<byte>)
    requires Passed(input, want, trail, b) && Malformed(b)
    ensures Answers(input, want, None)
  {
    forall before, e ensures !HitAt(input, want, before, e) {
      DeadEnd(input, want, trail, b, before, e);
    }
  }

  method FindContextTagged(input: seq<byte>, want: nat) returns (hit: Option<seq<byte>>)
    requires want < TWO_64
    ensures Answers(input, want, hit)
  {
    var b := input;
    ghost var trail: seq<Tlv> := [];
    while |b| > 0
      invariant Passed(input, want, trail, b)
    {
      if |b| < 2 {
        TooShort(b);
        Stop(input, want, trail, b);
        return None;
      }
      var tagClass := b[0] / 64;
      var okId, afterId, tagNum := ReadIdentifier(b);
      if !okId {
        Stop(input, want, trail, b);
        return None;
      }
      var okLen, i, l := ReadLength(b, afterId);
      if !okLen {
        Stop(input, want, trail, b);
        return None;
      }
      ElementOfIsWhole(b, afterId, i, l);
      if i + l > |b| {
        Stop(input, want, trail, b);
        return None;
      }
      var content := b[i..i + l];
      ghost var e := ElementOf(b, afterId, i, l);
      if tagClass == CONTEXT && tagNum == want {
        Found(input, want, trail, b, e, b[i + l..]);
        return Some(content);
      }
      SteppedOver(input, want, trail, b, e, b[i + l..]);
      b := b[i + l..];
      trail := trail + [e];
    }
    TooShort(b);
    Stop(input, want, trail, b);
    hit := None;
  }

  // ---------------------------------------------------------------- a scan has one answer

  lemma {:induction false} HitsAgree(input: seq<byte>, want: nat, before: seq<Tlv>, e: Tlv, before': seq<Tlv>, e': Tlv)
    requires HitAt(input, want, before, e) && HitAt(input, want, before', e')
    ensures before == before' && e == e'
  {
    if before == [] && before' == [] {
      assert Concat(before) + e.Octets() == e.Octets() && Concat(before') + e'.Octets() == e'.Octets();
      ElementIsUnique(e, e', input);
    } else {
      var t := if before == [] then before'[0] else before[0];
      assert t.Octets() <= input by {
        assert before != [] ==> before[0].Octets() <= Concat(before) + e.Octets();
        assert before' != [] ==> before'[0].Octets() <= Concat(before') + e'.Octets();
      }
      FirstIsForced(input, want, t, before, e);
      FirstIsForced(input, want, t, before', e');
      HitsAgree(input[|t.Octets()|..], want, before[1..], e, before'[1..], e');
      assert before == [t] + before[1..] && before' == [t] + before'[1..];
    }
  }

  lemma AnswerIsUnique(input: seq<byte>, want: nat, x: Option<seq<byte>>, y: Option<seq<byte>>)
    requires Answers(input, want, x) && Answers(input, want, y)
    ensures x == y
  {
    if x.Some? && y.Some? {
      var before, e :| HitAt(input, want, before, e) && e.content == x.value;
      var before', e' :| HitAt(input, want, before', e') && e'.content == y.value;
      HitsAgree(input, want, before, e, before', e');
    }
  }

  // ---------------------------------------------------------------- the encoder

  /** An element before encoding. */
  datatype Element = Element(tagClass: nat, constructed: bool, tag: nat, content: seq<byte>)
  {
    /** Four classes, and a length that fits four subsequent octets. */
    predicate Encodable() {
      tagClass < 4 && |content| < TWO_32
    }
  }

  function TagDigits(n: nat, last: bool): (r: seq<byte>)
    ensures r != []
  {
    var digit := n % 128 + (if last then 0 else 128);
    if n < 128 then [digit] else TagDigits(n / 128, false) + [digit]
  }

  function LengthDigits(n: nat): (r: seq<byte>)
    ensures r != []
  {
    if n < 256 then [n] else LengthDigits(n / 256) + [n % 256]
  }

  function IdentifierOctets(e: Element): seq<byte>
    requires e.Encodable()
  {
    var lead := e.tagClass * 64 + (if e.constructed then 32 else 0);
    if e.tag < 31 then [lead + e.tag] else [lead + 31] + TagDigits(e.tag, true)
  }

  function LengthOctets(n: nat): seq<byte>
    requires n < TWO_32
  {
    LengthDigitsFit(n);
    if n < 128 then [n] else [128 + |LengthDigits(n)|] + LengthDigits(n)
  }

  function Encode(e: Element): Tlv
    requires e.Encodable()
  {
    Tlv(IdentifierOctets(e), LengthOctets(|e.content|), e.content)
  }

  function EncodeAll(es: seq<Element>): (ts: seq<Tlv>)
    requires forall e | e in es :: e.Encodable()
    ensures |ts| == |es| && forall i | 0 <= i < |es| :: ts[i] == Encode(es[i])
  {
    if es == [] then [] else [Encode(es[0])] + EncodeAll(es[1..])
  }

  lemma {:induction false} TagDigitsRead(n: nat, last: bool)
    ensures var r := TagDigits(n, last);
      && Base128(r) == n
      && (forall k | 0 <= k < |r| - 1 :: r[k] >= 128)
      && (r[|r| - 1] < 128 <==> last)
  {
    if n >= 128 {
      TagDigitsRead(n / 128, false);
      var r := TagDigits(n, last);
      assert r[..|r| - 1] == TagDigits(n / 128, false);
    }
  }

  lemma {:induction false} LengthDigitsRead(n: nat)
    ensures BigEndian(LengthDigits(n)) == n
  {
    if n >= 256 {
      LengthDigitsRead(n / 256);
      var r := LengthDigits(n);
      assert r[..|r| - 1] == LengthDigits(n / 256);
    }
  }

  lemma LengthDigitsFit(n: nat)
    requires n < TWO_32
    ensures |LengthDigits(n)| <= 4
  {
    var a, b, c := n / 256, n / 256 / 256, n / 256 / 256 / 256;
    assert c < 256;
    assert |LengthDigits(c)| == 1;
    assert |LengthDigits(b)| <= 2;
    assert |LengthDigits(a)| <= 3;
  }

  lemma EncodingIsWellFormed(e: Element)
    requires e.Encodable()
    ensures Encode(e).WellFormed()
    ensures TagOf(Encode(e).id) == e.tag && Encode(e).id[0] / 64 == e.tagClass
    ensures forall want: nat :: Encode(e).Matches(want) <==> IsAlias(e, want)
  {
    TagDigitsRead(e.tag, true);
    LengthDigitsRead(|e.content|);
    LengthDigitsFit(|e.content|);
    var id, len := Encode(e).id, Encode(e).len;
    if e.tag >= 31 {
      assert id[1..] == TagDigits(e.tag, true);
    }
    if |e.content| >= 128 {
      assert len[1..] == LengthDigits(|e.content|);
    }
  }

  // ---------------------------------------------------------------- round trip

  /** A context-class element the scanner cannot tell from one tagged `want`. */
  predicate IsAlias(e: Element, want: nat) {
    e.tagClass == CONTEXT && e.tag % TWO_64 == want
  }

  predicate IsWanted(e: Element, want: nat) {
    e.tagClass == CONTEXT && e.tag == want
  }

  /** Position of the first element satisfying `p`, or the length of the list. */
  function FirstWhere(es: seq<Element>, p: Element -> bool): (k: nat)
    ensures k <= |es|
    ensures forall j | 0 <= j < k :: !p(es[j])
    ensures k < |es| ==> p(es[k])
  {
    if es == [] || p(es[0]) then 0 else 1 + FirstWhere(es[1..], p)
  }

  function FirstWanted(es: seq<Element>, want: nat): nat {
    FirstWhere(es, (e: Element) => IsWanted(e, want))
  }

  function FirstAlias(es: seq<Element>, want: nat): nat {
    FirstWhere(es, (e: Element) => IsAlias(e, want))
  }

  function ContentAt(es: seq<Element>, k: nat): Option<seq<byte>> {
    if k < |es| then Some(es[k].content) else None
  }

  lemma {:induction false} ConcatSplits(es: seq<Tlv>, k: nat)
    requires k <= |es|
    ensures Concat(es) == Concat(es[..k]) + Concat(es[k..])
  {
    if k > 0 {
      ConcatSplits(es[1..], k - 1);
      assert es[..k][1..] == es[1..][..k - 1] && es[k..] == es[1..][k - 1..];
    }
  }

  /** Scanning an encoded list answers with the content of the first context-class element
      whose tag, taken modulo 2^64, is the wanted one — for tags of any size. */
  lemma ScanInvertsEncoding(es: seq<Element>, want: nat, hit: Option<seq<byte>>)
    requires forall e | e in es :: e.Encodable()
    requires Answers(Concat(EncodeAll(es)), want, hit)
    ensures hit == ContentAt(es, FirstAlias(es, want))
  {
    var ts, k := EncodeAll(es), FirstAlias(es, want);
    var input := Concat(ts);
    forall i | 0 <= i < |es| ensures ts[i].WellFormed() && (ts[i].Matches(want) <==> IsAlias(es[i], want)) {
      assert es[i] in es;
      EncodingIsWellFormed(es[i]);
    }
    ConcatSplits(ts, k);
    assert Passed(input, want, ts[..k], Concat(ts[k..]));
    if k < |es| {
      assert ts[k..][0] == ts[k];
      Found(input, want, ts[..k], Concat(ts[k..]), ts[k], Concat(ts[k..][1..]));
      AnswerIsUnique(input, want, hit, Some(ts[k].content));
    } else {
      assert ts[k..] == [];
      TooShort([]);
      Stop(input, want, ts[..k], []);
      AnswerIsUnique(input, want, hit, None);
    }
  }

  /** Below 2^64 the scan and the encoder undo each other. */
  lemma RoundTrip(es: seq<Element>, want: nat, hit: Option<seq<byte>>)
    requires forall e | e in es :: e.Encodable() && e.tag < TWO_64
    requires Answers(Concat(EncodeAll(es)), want, hit)
    ensures hit == ContentAt(es, FirstWanted(es, want))
  {
    ScanInvertsEncoding(es, want, hit);
    forall k | 0 <= k < |es| ensures IsAlias(es[k], want) <==> IsWanted(es[k], want) {
      assert es[k] in es;
      FitsIn64Bits(es[k].tag);
    }
    FirstWhereAgrees(es, (e: Element) => IsAlias(e, want), (e: Element) => IsWanted(e, want));
  }

  lemma FitsIn64Bits(tag: nat)
    requires tag < TWO_64
    ensures tag % TWO_64 == tag
  {
  }

  lemma {:induction false} FirstWhereAgrees(es: seq<Element>, p: Element -> bool, q: Element -> bool)
    requires forall k | 0 <= k < |es| :: p(es[k]) <==> q(es[k])
    ensures FirstWhere(es, p) == FirstWhere(es, q)
  {
    if es == [] {
    } else {
      FirstWhereAgrees(es[1..], p, q);
    }
  }

  lemma AliasesIncludeWanted(es: seq<Element>, want: nat)
    requires want < TWO_64
    ensures FirstAlias(es, want) <= FirstWanted(es, want)
    ensures FirstAlias(es, want) == FirstWanted(es, want)
       <==> forall k | 0 <= k < FirstWanted(es, want) :: !IsAlias(es[k], want)
  {
    var a, w := FirstAlias(es, want), FirstWanted(es, want);
    if w < |es| {
      FitsIn64Bits(want);
      assert IsWanted(es[w], want);
      assert IsAlias(es[w], want);
    }
    if a < w {
      assert IsAlias(es[a], want);
    }
  }

  /** With tags of any size the scan answers as it should — the content of the first element
      tagged `want`, or nothing — exactly when no alias of the tag precedes that element, or the
      first alias happens to hold the same content. */
  lemma StopsRightIffNoAliasBefore(es: seq<Element>, want: nat, hit: Option<seq<byte>>)
    requires want < TWO_64 && forall e | e in es :: e.Encodable()
    requires Answers(Concat(EncodeAll(es)), want, hit)
    ensures var w := FirstWanted(es, want);
      hit == ContentAt(es, w)
      <==> || (forall k | 0 <= k < w :: !IsAlias(es[k], want))
           || (w < |es| && es[FirstAlias(es, want)].content == es[w].content)
  {
    ScanInvertsEncoding(es, want, hit);
    AliasesIncludeWanted(es, want);
  }

  /** Such an alias exists: tag 2^64 + 704 is taken for tag 704. */
  lemma WideTagIsTakenForAnother(hit: Option<seq<byte>>)
    requires Answers(Encode(Element(CONTEXT, true, TWO_64 + 704, [7])).Octets(), 704, hit)
    ensures hit == Some([7]) && FirstWanted([Element(CONTEXT, true, TWO_64 + 704, [7])], 704) == 1
  {
    var e := Element(CONTEXT, true, TWO_64 + 704, [7]);
    assert EncodeAll([e]) == [Encode(e)] && [Encode(e)][1..] == [];
    assert Concat([Encode(e)]) == Encode(e).Octets();
    ScanInvertsEncoding([e], 704, hit);
    assert IsAlias([e][0], 704);
  }
}
