/** The Bloom filter: its bits are exactly the probes of its keys, so no key that
    went in is ever said to be absent. */
module Bloom {
  import opened Keys
  import opened Entries
  import opened Encoding

  // --------------------------------------------------------------------- bits

  predicate Bit(b: nat, i: nat) {
    if i == 0 then b % 2 == 1 else Bit(b / 2, i - 1)
  }

  /** b | (1 << i). */
  function SetBit(b: nat, i: nat): nat {
    if i == 0 then b - b % 2 + 1 else b % 2 + 2 * SetBit(b / 2, i - 1)
  }

  function Power(n: nat): nat {
    if n == 0 then 1 else 2 * Power(n - 1)
  }

  lemma {:induction false} SetBitFits(b: nat, i: nat, n: nat)
    requires b < Power(n) && i < n
    ensures SetBit(b, i) < Power(n)
    decreases n
  {
    var half, p := b / 2, Power(n - 1);
    HalfFits(b, p);
    if i > 0 {
      SetBitFits(half, i - 1, n - 1);
      var r := SetBit(half, i - 1);
      assert SetBit(b, i) == b % 2 + 2 * r;
    }
  }

  lemma HalfFits(b: nat, p: nat)
    requires b < 2 * p
    ensures b / 2 < p && b - b % 2 + 1 < 2 * p
  {
  }

  lemma {:induction false} SetBitSets(b: nat, i: nat, j: nat)
    ensures Bit(SetBit(b, i), j) <==> i == j || Bit(b, j)
    decreases i
  {
    var r := SetBit(b, i);
    if i > 0 {
      assert r / 2 == SetBit(b / 2, i - 1) && r % 2 == b % 2;
      if j > 0 {
        SetBitSets(b / 2, i - 1, j - 1);
      }
    } else {
      assert r / 2 == b / 2;
    }
  }

  // ------------------------------------------------------------------- probes

  /** bloom_hash, whose values nothing here depends on. */
  type Hash = UserKey -> nat

  const MAX_PROBES: nat := 30

  /** Rotated right by seventeen, in thirty-two bits. */
  function Delta(h: nat): nat {
    h % LIMIT_32 / 0x2_0000 + h % 0x2_0000 * 0x8000
  }

  /** Rotating back gives the hash again. */
  lemma DeltaRotates(h: nat)
    ensures Delta(h) < LIMIT_32
    ensures Delta(h) % 0x8000 * 0x2_0000 + Delta(h) / 0x8000 == h % LIMIT_32
  {
    var low, high := h % 0x2_0000, h % LIMIT_32 / 0x2_0000;
    assert h % LIMIT_32 % 0x2_0000 == low;
    assert high < 0x8000;
  }

  /** The j-th value of h in either loop. */
  function Probe(h: nat, delta: nat, j: nat): nat {
    if j == 0 then h % LIMIT_32 else (Probe(h, delta, j - 1) + delta) % LIMIT_32
  }

  /** Double hashing: each probe is one more delta away. */
  lemma {:induction false} ProbeIs(h: nat, delta: nat, j: nat)
    ensures Probe(h, delta, j) == (h + j * delta) % LIMIT_32
  {
    if j > 0 {
      ProbeIs(h, delta, j - 1);
      var x := h + (j - 1) * delta;
      assert h + j * delta == x + delta;
      ModAdds(x, delta);
    }
  }

  lemma ModAdds(x: nat, y: nat)
    ensures (x % LIMIT_32 + y) % LIMIT_32 == (x + y) % LIMIT_32
  {
  }

  predicate BitAt(bytes: seq<Byte>, p: nat)
    requires p < 8 * |bytes|
  {
    Bit(bytes[p / 8], p % 8)
  }

  /** The first n probes of a key are set. */
  ghost predicate Probed(bytes: seq<Byte>, h: nat, n: nat) {
    bytes != [] && forall j :: 0 <= j < n ==> BitAt(bytes, Probe(h, Delta(h), j) % (8 * |bytes|))
  }

  /** What a filter says of a key; anything unreadable may hold it. */
  ghost predicate MayMatch(hash: Hash, filter: Bytes, key: UserKey) {
    || |filter| < 2 || filter[|filter| - 1] > MAX_PROBES
    || Probed(filter[..|filter| - 1], hash(key), filter[|filter| - 1])
  }

  /** Bit p is one of the first n probes of a key with this hash. */
  ghost predicate IsProbe(h: nat, n: nat, bits: nat, p: nat)
    requires bits > 0
  {
    exists j: nat :: j < n && p == Probe(h, Delta(h), j) % bits
  }

  /** Bit p is a probe of one of the keys. */
  ghost predicate IsSomeProbe(hash: Hash, keys: seq<UserKey>, k: nat, bits: nat, p: nat)
    requires bits > 0
  {
    exists key :: key in keys && IsProbe(hash(key), k, bits, p)
  }

  /** The bits set are exactly the probes of the keys. */
  ghost predicate Holds(hash: Hash, bytes: seq<Byte>, keys: seq<UserKey>, k: nat) {
    && bytes != []
    && forall p :: 0 <= p < 8 * |bytes| ==> (BitAt(bytes, p) <==> IsSomeProbe(hash, keys, k, 8 * |bytes|, p))
  }

  /** This is a filter of these keys, whatever its size. */
  ghost predicate IsFilterOf(hash: Hash, filter: Bytes, keys: seq<UserKey>) {
    && |filter| >= 2 && filter[|filter| - 1] <= MAX_PROBES
    && Holds(hash, filter[..|filter| - 1], keys, filter[|filter| - 1])
  }

  /** So it admits a key if and only if every probe of the key is a probe of
      some key that went in. */
  lemma AdmitsIff(hash: Hash, filter: Bytes, keys: seq<UserKey>, key: UserKey)
    requires IsFilterOf(hash, filter, keys)
    ensures var n, k := |filter| - 1, filter[|filter| - 1];
            MayMatch(hash, filter, key) <==>
              forall p :: 0 <= p < 8 * n && IsProbe(hash(key), k, 8 * n, p) ==> IsSomeProbe(hash, keys, k, 8 * n, p)
    ensures key in keys ==> MayMatch(hash, filter, key)
  {
    var bytes, k := filter[..|filter| - 1], filter[|filter| - 1];
    var bits, h := 8 * |bytes|, hash(key);
    if MayMatch(hash, filter, key) {
      forall p | 0 <= p < bits && IsProbe(h, k, bits, p) ensures IsSomeProbe(hash, keys, k, bits, p) {
        assert BitAt(bytes, p);
      }
    }
    if forall p :: 0 <= p < bits && IsProbe(h, k, bits, p) ==> IsSomeProbe(hash, keys, k, bits, p) {
      forall j: nat | j < k ensures BitAt(bytes, Probe(h, Delta(h), j) % bits) {
        assert IsProbe(h, k, bits, Probe(h, Delta(h), j) % bits);
      }
    }
  }

  /** Bit p is set, and no other changes. */
  ghost predicate SetsOnly(a: seq<Byte>, b: seq<Byte>, p: nat) {
    |a| == |b| && forall q :: 0 <= q < 8 * |a| ==> (BitAt(b, q) <==> q == p || BitAt(a, q))
  }

  method SetBitAt(array_: array<Byte>, p: nat)
    requires p < 8 * array_.Length
    modifies array_
    ensures SetsOnly(old(array_[..]), array_[..], p)
  {
    var at := p / 8;
    SetBitFits(array_[at], p % 8, 8);
    ghost var before := array_[..];
    array_[at] := SetBit(array_[at], p % 8);
    ghost var after := array_[..];
    forall q | 0 <= q < 8 * |before| ensures BitAt(after, q) <==> q == p || BitAt(before, q) {
      if q / 8 == at {
        SetBitSets(before[at], p % 8, q % 8);
      }
    }
  }

  /** The probes of the key are set, and no other bit changes. */
  ghost predicate SetsProbes(a: seq<Byte>, b: seq<Byte>, h: nat, n: nat) {
    && |a| == |b| && a != []
    && forall q :: 0 <= q < 8 * |a| ==> (BitAt(b, q) <==> IsProbe(h, n, 8 * |a|, q) || BitAt(a, q))
  }

  lemma OneMoreProbe(a: seq<Byte>, b: seq<Byte>, c: seq<Byte>, h: nat, n: nat)
    requires SetsProbes(a, b, h, n) && SetsOnly(b, c, Probe(h, Delta(h), n) % (8 * |a|))
    ensures SetsProbes(a, c, h, n + 1)
  {
    var bits := 8 * |a|;
    forall q | 0 <= q < bits ensures BitAt(c, q) <==> IsProbe(h, n + 1, bits, q) || BitAt(a, q) {
      ProbeIsLast(h, n, bits, q);
    }
  }

  lemma ProbeIsLast(h: nat, n: nat, bits: nat, q: nat)
    requires bits > 0
    ensures IsProbe(h, n + 1, bits, q) <==> IsProbe(h, n, bits, q) || q == Probe(h, Delta(h), n) % bits
  {
    if j: nat :| j < n + 1 && q == Probe(h, Delta(h), j) % bits {
      assert j == n || j < n;
    }
    if j: nat :| j < n && q == Probe(h, Delta(h), j) % bits {
      assert j < n + 1;
    }
  }

  method AddKey(array_: array<Byte>, h0: nat, k: nat)
    requires 0 < array_.Length
    modifies array_
    ensures SetsProbes(old(array_[..]), array_[..], h0, k)
  {
    var h := h0 % LIMIT_32;
    var delta := Delta(h0);
    for j := 0 to k
      invariant h == Probe(h0, delta, j)
      invariant SetsProbes(old(array_[..]), array_[..], h0, j)
    {
      ghost var before := array_[..];
      SetBitAt(array_, h % (8 * array_.Length));
      OneMoreProbe(old(array_[..]), before, array_[..], h0, j);
      h := (h + delta) % LIMIT_32;
    }
  }

  lemma OneMoreKey(hash: Hash, a: seq<Byte>, b: seq<Byte>, keys: seq<UserKey>, key: UserKey, k: nat)
    requires Holds(hash, a, keys, k) && SetsProbes(a, b, hash(key), k)
    ensures Holds(hash, b, keys + [key], k)
  {
    var more := keys + [key];
    forall p | 0 <= p < 8 * |b| ensures BitAt(b, p) <==> IsSomeProbe(hash, more, k, 8 * |b|, p) {
      assert more[|keys|] == key;
      assert forall x :: x in more <==> x in keys || x == key;
    }
  }

  lemma {:induction false} NoBits(i: nat)
    ensures !Bit(0, i)
  {
    if i > 0 {
      NoBits(i - 1);
    }
  }

  lemma EmptyHolds(hash: Hash, bytes: seq<Byte>, k: nat)
    requires bytes != [] && forall i :: 0 <= i < |bytes| ==> bytes[i] == 0
    ensures Holds(hash, bytes, [], k)
  {
    forall p | 0 <= p < 8 * |bytes| ensures !BitAt(bytes, p) {
      NoBits(p % 8);
    }
  }

  /** At least sixty-four bits, whole bytes, and one byte for the probes. */
  function FilterSize(keys: nat, bitsPerKey: nat): (n: nat)
    ensures n >= 9 && keys * bitsPerKey <= 8 * (n - 1)
    ensures 8 * (n - 1) < keys * bitsPerKey + 8 || n == 9
  {
    var bits := keys * bitsPerKey;
    ((if bits < 64 then 64 else bits) + 7) / 8 + 1
  }

  /** The filter of some keys, with the number of probes in its last byte. */
  method CreateFilter(hash: Hash, keys: seq<UserKey>, bitsPerKey: nat, k: nat) returns (filter: Bytes)
    requires 1 <= k <= MAX_PROBES
    ensures |filter| == FilterSize(|keys|, bitsPerKey) && filter[|filter| - 1] == k
    ensures IsFilterOf(hash, filter, keys)
    ensures forall key :: key in keys ==> MayMatch(hash, filter, key)
  {
    var bits := |keys| * bitsPerKey;
    if bits < 64 {
      bits := 64;
    }
    var bytes := (bits + 7) / 8;
    var array_ := new Byte[bytes](_ => 0);
    EmptyHolds(hash, array_[..], k);
    for i := 0 to |keys|
      invariant Holds(hash, array_[..], keys[..i], k)
    {
      ghost var before := array_[..];
      AddKey(array_, hash(keys[i]), k);
      OneMoreKey(hash, before, array_[..], keys[..i], keys[i], k);
      assert keys[..i] + [keys[i]] == keys[..i + 1];
    }
    assert keys[..|keys|] == keys;
    filter := array_[..] + [k];
    assert filter[..|filter| - 1] == array_[..];
    forall key | key in keys ensures MayMatch(hash, filter, key) {
      AdmitsIff(hash, filter, keys, key);
    }
  }

  method KeyMayMatch(hash: Hash, filter: Bytes, key: UserKey) returns (r: bool)
    ensures r == MayMatch(hash, filter, key)
  {
    if |filter| < 2 {
      return true;
    }
    var bytes, k := filter[..|filter| - 1], filter[|filter| - 1];
    if k > MAX_PROBES {
      return true;
    }
    var h := hash(key) % LIMIT_32;
    var delta := Delta(hash(key));
    for j := 0 to k
      invariant h == Probe(hash(key), delta, j)
      invariant Probed(bytes, hash(key), j)
    {
      if !BitAt(bytes, h % (8 * |bytes|)) {
        return false;
      }
      h := (h + delta) % LIMIT_32;
    }
    return true;
  }
}
