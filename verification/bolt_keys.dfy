/**
 * Byte-level encodings used by the snapshot metadata store (core/snapshots/storage/bolt.go):
 * unsigned varints for ids, zig-zag varints for usage, the composite parent/child link key,
 * and decimal formatting of ids.
 */
module BoltKeys {
  import opened Errdefs

  type byte = x: int | 0 <= x < 256

  /** 2^64: the range of Go's uint64. */
  const TwoTo64: int := 0x1_0000_0000_0000_0000
  /** 2^56: every id below it encodes in at most 8 bytes. */
  const TwoTo56: int := 0x100_0000_0000_0000
  /** 2^63: the range of Go's int64 is [-TwoTo63, TwoTo63). */
  const TwoTo63: int := 0x8000_0000_0000_0000

  function Pow128(k: nat): (r: nat)
    ensures r >= 1
  {
    if k == 0 then 1 else 128 * Pow128(k - 1)
  }

  // ---------------------------------------------------------------- unsigned varint

  /** binary.PutUvarint: seven bits per byte, least significant first, 0x80 marks "more". */
  function Uvarint(x: nat): (b: seq<byte>)
    ensures 1 <= |b|
    decreases x
  {
    if x < 128 then [x] else [x % 128 + 128] + Uvarint(x / 128)
  }

  /**
   * binary.Uvarint read from position i: the value and the number of bytes read, 0 for a
   * buffer that ends too early and -(i+1) for an overflow, exactly as the Go loop reports them.
   */
  function DecodeUvarintAt(buf: seq<byte>, i: nat): (r: (int, int))
    ensures r.0 >= 0
    decreases |buf| - i
  {
    if i >= |buf| then (0, 0)
    else if i == 10 then (0, -(i + 1))
    else if buf[i] < 128 then
      if i == 9 && buf[i] > 1 then (0, -(i + 1)) else (buf[i], i + 1)
    else
      var rest := DecodeUvarintAt(buf, i + 1);
      if rest.1 > 0 then (buf[i] - 128 + 128 * rest.0, rest.1) else (0, rest.1)
  }

  /**
   * binary.Uvarint: the value read is a uint64 and the count never exceeds the buffer; a
   * buffer that ends too early or overflows reads as the value 0.
   */
  function DecodeUvarint(buf: seq<byte>): (r: (int, int))
    ensures 0 <= r.0 < TwoTo64
    ensures r.1 <= |buf|
    ensures r.1 <= 0 ==> r.0 == 0
    ensures buf == [] ==> r == (0, 0)
  {
    DecodeUvarintBound(buf, 0);
    DecodeUvarintAt(buf, 0)
  }

  /** From position i the value read, scaled by the i bytes before it, stays within 64 bits. */
  lemma {:induction false} DecodeUvarintBound(buf: seq<byte>, i: nat)
    requires i <= 10
    ensures var r := DecodeUvarintAt(buf, i);
      r.1 <= |buf| && (r.1 <= 0 ==> r.0 == 0) &&
      (r.1 > 0 ==> (r.0 + 1) * Pow128(i) <= TwoTo64)
    decreases |buf| - i
  {
    if i >= |buf| || i == 10 {
    } else if buf[i] < 128 {
      LastByteBound(buf, i);
    } else {
      DecodeUvarintBound(buf, i + 1);
      var rest := DecodeUvarintAt(buf, i + 1);
      if rest.1 > 0 {
        Pow128Split(i + 1);
        ContinuationStep(buf[i] - 128, rest.0, Pow128(i), Pow128(i + 1));
      }
    }
  }

  /** A final byte (no continuation bit) keeps the value within 64 bits. */
  lemma LastByteBound(buf: seq<byte>, i: nat)
    requires i < |buf| && i < 10 && buf[i] < 128
    ensures var r := DecodeUvarintAt(buf, i);
      r.1 <= |buf| && (r.1 <= 0 ==> r.0 == 0) &&
      (r.1 > 0 ==> (r.0 + 1) * Pow128(i) <= TwoTo64)
  {
    var r := DecodeUvarintAt(buf, i);
    if r.1 > 0 {
      Pow128At9();
      if i == 9 {
        MulMono(r.0 + 1, 2, Pow128(i));
      } else {
        Pow128Split(i + 1);
        Pow128Le(i + 1, 9);
        MulMono(r.0 + 1, 128, Pow128(i));
      }
    }
  }

  /** One continuation byte below 128 followed by a bounded tail keeps the whole bounded. */
  lemma ContinuationStep(low: int, high: int, p: nat, q: nat)
    requires 0 <= low < 128 && high >= 0
    requires q == 128 * p
    requires (high + 1) * q <= TwoTo64
    ensures (low + 128 * high + 1) * p <= TwoTo64
  {
    MulMono(low + 128 * high + 1, 128 * (high + 1), p);
    assert 128 * (high + 1) * p == (high + 1) * q;
  }

  lemma MulMono(a: int, b: int, c: nat)
    requires a <= b
    ensures a * c <= b * c
  {
  }

  lemma Pow128At9()
    ensures 2 * Pow128(9) == TwoTo64
  {
    assert Pow128(9) == 0x8000_0000_0000_0000 by {
      var _ := Pow128(1); var _ := Pow128(2); var _ := Pow128(3); var _ := Pow128(4);
      var _ := Pow128(5); var _ := Pow128(6); var _ := Pow128(7); var _ := Pow128(8);
    }
  }

  lemma {:induction false} Pow128Le(i: nat, j: nat)
    requires i <= j
    ensures Pow128(i) <= Pow128(j)
    decreases j - i
  {
    if i < j {
      Pow128Le(i, j - 1);
    }
  }

  lemma Pow128Split(k: nat)
    requires k >= 1
    ensures Pow128(k) == 128 * Pow128(k - 1)
  {
  }

  /** The encoding of a value below 128^(k+1) has at most k + 1 bytes. */
  lemma {:induction false} UvarintLength(x: nat, k: nat)
    requires x < Pow128(k + 1)
    ensures |Uvarint(x)| <= k + 1
    decreases x
  {
    if x >= 128 {
      assert k >= 1;
      UvarintLength(x / 128, k - 1);
    }
  }

  /** A value needs more than one byte exactly when it is at least 128, and all bytes but the last are >= 128. */
  lemma {:induction false} UvarintShape(x: nat)
    ensures forall j :: 0 <= j < |Uvarint(x)| - 1 ==> Uvarint(x)[j] >= 128
    ensures Uvarint(x)[|Uvarint(x)| - 1] < 128
    decreases x
  {
    if x >= 128 {
      UvarintShape(x / 128);
    }
  }

  /**
   * Decoding at depth i reads back a value written there, as long as the value is in the
   * range the remaining 10 - i bytes can carry (2^(64 - 7 i) = 2 * 128^(9 - i)).
   */
  lemma {:induction false} DecodeUvarintAtEncoding(pre: seq<byte>, x: nat, rest: seq<byte>)
    requires |pre| <= 9
    requires x < 2 * Pow128(9 - |pre|)
    ensures DecodeUvarintAt(pre + Uvarint(x) + rest, |pre|) == (x, |pre| + |Uvarint(x)|)
    decreases x
  {
    var buf := pre + Uvarint(x) + rest;
    var i := |pre|;
    assert buf[i] == Uvarint(x)[0];
    if x >= 128 {
      assert i <= 8;
      Pow128Split(9 - i);
      var pre' := pre + [x % 128 + 128];
      assert buf == pre' + Uvarint(x / 128) + rest;
      DecodeUvarintAtEncoding(pre', x / 128, rest);
    }
  }

  /** Round trip: binary.Uvarint reads back every uint64 binary.PutUvarint wrote, whatever follows it. */
  lemma UvarintRoundTrip(x: nat, rest: seq<byte>)
    requires x < TwoTo64
    ensures DecodeUvarint(Uvarint(x) + rest) == (x, |Uvarint(x)|)
  {
    assert 2 * Pow128(9) == TwoTo64 by {
      assert Pow128(9) == 0x8000_0000_0000_0000;
    }
    assert [] + Uvarint(x) + rest == Uvarint(x) + rest;
    DecodeUvarintAtEncoding([], x, rest);
  }

  /** Ids below 2^56 fit the 8 bytes the parent keys leave for them. */
  lemma SmallIdLength(x: nat)
    ensures x < TwoTo56 <==> |Uvarint(x)| <= 8
  {
    assert Pow128(8) == TwoTo56;
    if x < TwoTo56 {
      UvarintLength(x, 7);
    } else {
      LengthLowerBound(x, 8);
    }
  }

  // ---------------------------------------------------------------- zig-zag varint (usage)

  /** binary.PutVarint maps a signed value to an unsigned one: 0, -1, 1, -2, ... become 0, 1, 2, 3, ... */
  function ZigZag(x: int): (u: nat)
  {
    if x >= 0 then 2 * x else -2 * x - 1
  }

  /** binary.Varint's inverse mapping: `x := int64(ux >> 1); if ux&1 != 0 { x = ^x }`. */
  function UnZigZag(u: nat): int
  {
    if u % 2 == 0 then u / 2 else -(u / 2) - 1
  }

  /** encodeSize: the zig-zag varint of a size; the Go code's "empty encoding" error cannot happen. */
  function EncodeSize(size: int): (b: seq<byte>)
    ensures |b| >= 1
  {
    Uvarint(ZigZag(size))
  }

  /** getUsage: binary.Varint of the stored bytes, ignoring the count; a missing value reads as 0. */
  function DecodeSize(b: seq<byte>): (r: int)
    ensures -TwoTo63 <= r < TwoTo63
    ensures b == [] ==> r == 0
  {
    var (u, n) := DecodeUvarint(b);
    if n > 0 then UnZigZag(u) else 0
  }

  /** Round trip of putUsage/getUsage for every int64. */
  lemma SizeRoundTrip(size: int)
    requires -TwoTo63 <= size < TwoTo63
    ensures DecodeSize(EncodeSize(size)) == size
  {
    assert Uvarint(ZigZag(size)) + [] == Uvarint(ZigZag(size));
    UvarintRoundTrip(ZigZag(size), []);
  }

  // ---------------------------------------------------------------- parent link keys

  /**
   * parentKey(parent, child): PutUvarint(parent), a zero byte, PutUvarint(child), written into a
   * 17-byte buffer. When the two encodings do not fit, the Go code indexes past the buffer and
   * panics; that is `None` here.
   */
  function ParentKey(parent: nat, child: nat): (r: Option<seq<byte>>)
    ensures r.Some? <==> |Uvarint(parent)| + |Uvarint(child)| <= 16
    ensures parent < TwoTo56 && child < TwoTo56 ==> r.Some?
    ensures r.Some? ==> |r.value| <= 17 && IsPrefix(Uvarint(parent) + [0], r.value)
    ensures r.Some? ==> r.value[|Uvarint(parent)| + 1..] == Uvarint(child)
  {
    SmallIdLength(parent);
    SmallIdLength(child);
    if |Uvarint(parent)| + 1 + |Uvarint(child)| <= 17 then Some(Uvarint(parent) + [0] + Uvarint(child))
    else None
  }

  /** parentPrefixKey(parent): PutUvarint(parent) and a zero byte in a 9-byte buffer; a longer encoding panics. */
  function ParentPrefixKey(parent: nat): (r: Option<seq<byte>>)
    ensures r.Some? <==> parent < TwoTo56
    ensures r.Some? ==> 2 <= |r.value| <= 9 && r.value[..|r.value| - 1] == Uvarint(parent) && r.value[|r.value| - 1] == 0
  {
    SmallIdLength(parent);
    if |Uvarint(parent)| + 1 <= 9 then Some(Uvarint(parent) + [0]) else None
  }

  /** getParentPrefix: the parent part of a link key, the count binary.Uvarint returns ignored. */
  function GetParentPrefix(k: seq<byte>): (r: int)
    ensures 0 <= r < TwoTo64
    ensures k == [] ==> r == 0
  {
    DecodeUvarint(k).0
  }

  /** Both key builders succeed for ids below 2^56 (the ids NextSequence hands out in practice). */
  lemma KeysDefined(parent: nat, child: nat)
    requires parent < TwoTo56 && child < TwoTo56
    ensures ParentKey(parent, child).Some? && ParentPrefixKey(parent).Some?
  {
    SmallIdLength(parent);
    SmallIdLength(child);
  }

  /** A link key starts with the parent's encoding and a zero byte, and getParentPrefix recovers the parent. */
  lemma ParentKeyPrefix(parent: nat, child: nat)
    requires parent < TwoTo64
    requires ParentKey(parent, child).Some?
    ensures IsPrefix(Uvarint(parent) + [0], ParentKey(parent, child).value)
    ensures GetParentPrefix(ParentKey(parent, child).value) == parent
  {
    var k := ParentKey(parent, child).value;
    assert k == Uvarint(parent) + ([0] + Uvarint(child));
    UvarintRoundTrip(parent, [0] + Uvarint(child));
  }

  lemma {:induction false} LengthLowerBound(x: nat, k: nat)
    requires x >= Pow128(k)
    ensures |Uvarint(x)| >= k + 1
    decreases k
  {
    if k > 0 {
      Pow128Split(k);
      LengthLowerBound(x / 128, k - 1);
    }
  }

  /** The key builders are injective: distinct (parent, child) pairs never share a key. */
  lemma ParentKeyInjective(p1: nat, c1: nat, p2: nat, c2: nat)
    requires p1 < TwoTo64 && p2 < TwoTo64
    requires ParentKey(p1, c1).Some? && ParentKey(p2, c2).Some?
    requires ParentKey(p1, c1) == ParentKey(p2, c2)
    ensures p1 == p2 && c1 == c2
  {
    ParentKeyPrefix(p1, c1);
    ParentKeyPrefix(p2, c2);
    var k := ParentKey(p1, c1).value;
    var n := |Uvarint(p1)|;
    assert Uvarint(p2) == Uvarint(p1);
    assert Uvarint(c1) == k[n + 1..] == Uvarint(c2);
    UvarintInjective(c1, c2);
  }

  lemma {:induction false} UvarintInjective(x: nat, y: nat)
    requires Uvarint(x) == Uvarint(y)
    ensures x == y
    decreases x
  {
    if x >= 128 && y >= 128 {
      assert Uvarint(x)[1..] == Uvarint(y)[1..];
      UvarintInjective(x / 128, y / 128);
    }
  }

  // ---------------------------------------------------------------- key order and Seek

  predicate IsPrefix(a: seq<byte>, b: seq<byte>)
  {
    |a| <= |b| && b[..|a|] == a
  }

  /** bytes.Compare(a, b) <= 0: the order of keys in a bolt bucket. */
  predicate LexLe(a: seq<byte>, b: seq<byte>)
    decreases |a|
  {
    a == [] || (b != [] && (a[0] < b[0] || (a[0] == b[0] && LexLe(a[1..], b[1..]))))
  }

  lemma {:induction false} PrefixLexLe(a: seq<byte>, b: seq<byte>)
    requires IsPrefix(a, b)
    ensures LexLe(a, b)
    decreases |a|
  {
    if a != [] {
      assert a[1..] == b[1..][..|a| - 1];
      PrefixLexLe(a[1..], b[1..]);
    }
  }

  /** A key between a prefix and a key that has that prefix has it too. */
  lemma {:induction false} Sandwich(p: seq<byte>, k: seq<byte>, k1: seq<byte>)
    requires LexLe(p, k) && LexLe(k, k1) && IsPrefix(p, k1)
    ensures IsPrefix(p, k)
    decreases |p|
  {
    if p != [] {
      assert k != [];
      assert k1 != [] && k1[0] == p[0];
      assert p[1..] == k1[1..][..|p| - 1];
      assert k[0] == p[0];
      Sandwich(p[1..], k[1..], k1[1..]);
      assert k[..|p|] == [k[0]] + k[1..][..|p| - 1];
    }
  }

  /**
   * Cursor.Seek(target) on a bucket holding `keys`: the least key at or after `target`,
   * or nil (the empty slice) when there is none.
   */
  predicate IsSeekResult(keys: set<seq<byte>>, target: seq<byte>, k: seq<byte>)
  {
    (k in keys && LexLe(target, k) && forall k' :: k' in keys && LexLe(target, k') ==> LexLe(k, k'))
    || (k == [] && forall k' :: k' in keys ==> !LexLe(target, k'))
  }

  /** The keys of a parents bucket holding the given (parent id, child id) links. */
  function LinkKeys(links: set<(nat, nat)>): set<seq<byte>>
    requires forall l :: l in links ==> ParentKey(l.0, l.1).Some?
  {
    set l | l in links :: ParentKey(l.0, l.1).value
  }

  /**
   * Remove's child check: seeking the parents bucket to parentPrefixKey(id) and comparing
   * getParentPrefix of the key found with id answers exactly "does some link have parent id".
   * Ids start at 1, so the nil key of an exhausted cursor (which decodes to 0) never matches.
   */
  lemma SeekFindsChild(links: set<(nat, nat)>, id: nat, k: seq<byte>)
    requires forall l :: l in links ==> l.0 < TwoTo64 && ParentKey(l.0, l.1).Some?
    requires id >= 1 && ParentPrefixKey(id).Some?
    requires IsSeekResult(LinkKeys(links), ParentPrefixKey(id).value, k)
    ensures GetParentPrefix(k) == id <==> exists c :: (id, c) in links
  {
    if c :| (id, c) in links {
      SeekFindsLink(links, id, c, k);
    } else if k != [] {
      SeekMissesOthers(links, id, k);
    } else {
      assert DecodeUvarint(k) == (0, 0);
    }
  }

  /** When id has a child link, the seek lands on a key under id's prefix. */
  lemma SeekFindsLink(links: set<(nat, nat)>, id: nat, c: nat, k: seq<byte>)
    requires forall l :: l in links ==> l.0 < TwoTo64 && ParentKey(l.0, l.1).Some?
    requires id >= 1 && ParentPrefixKey(id).Some? && (id, c) in links
    requires IsSeekResult(LinkKeys(links), ParentPrefixKey(id).value, k)
    ensures GetParentPrefix(k) == id
  {
    var target := ParentPrefixKey(id).value;
    var keys := LinkKeys(links);
    var k1 := ParentKey(id, c).value;
    assert k1 in keys;
    ParentKeyPrefix(id, c);
    PrefixLexLe(target, k1);
    assert k in keys && LexLe(target, k) && LexLe(k, k1);
    Sandwich(target, k, k1);
    assert k == Uvarint(id) + ([0] + k[|target|..]);
    SmallIdLength(id);
    UvarintRoundTrip(id, [0] + k[|target|..]);
  }

  /** When id has no child link, a key the seek finds belongs to another parent. */
  lemma SeekMissesOthers(links: set<(nat, nat)>, id: nat, k: seq<byte>)
    requires forall l :: l in links ==> l.0 < TwoTo64 && ParentKey(l.0, l.1).Some?
    requires id >= 1 && ParentPrefixKey(id).Some? && k != []
    requires IsSeekResult(LinkKeys(links), ParentPrefixKey(id).value, k)
    requires forall c :: (id, c) !in links
    ensures GetParentPrefix(k) != id
  {
    var l :| l in links && ParentKey(l.0, l.1).value == k;
    ParentKeyPrefix(l.0, l.1);
    assert l.0 != id;
  }
}
