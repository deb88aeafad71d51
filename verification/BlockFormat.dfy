/** A block: entries whose keys share prefixes with the one before, restart
    points where one stands alone, and the table of those at the end. */
module BlockFormat {
  import opened Entries
  import opened Encoding

  /** A key as stored, in whatever order the comparator gives. */
  datatype Pair = Pair(key: Bytes, value: Bytes)

  // ----------------------------------------------------------------- an entry

  function EntryBytes(shared: nat, pair: Pair): Bytes
    requires shared <= |pair.key|
  {
    Varint(shared) + Varint(|pair.key| - shared) + Varint(|pair.value|) + pair.key[shared..] + pair.value
  }

  datatype Header = Header(shared: nat, ownLength: nat, valueLength: nat, body: nat)

  /** The three lengths at p, however they are encoded. */
  function HeaderAt(s: Bytes, p: nat): (h: Option<Header>)
    ensures h.Some? ==> p + 3 <= h.value.body <= |s|
  {
    match GetVarint32(s, p)
    case None => None
    case Some(a) =>
      match GetVarint32(s, a.next)
      case None => None
      case Some(b) =>
        match GetVarint32(s, b.next)
        case None => None
        case Some(c) => Some(Header(a.value, b.value, c.value, c.next))
  }

  /** decode_entry: the lengths, if the key and value they claim are there. */
  function DecodeEntry(s: Bytes, p: nat): (h: Option<Header>)
    ensures h.Some? ==> p + 3 <= h.value.body && h.value.body + h.value.ownLength + h.value.valueLength <= |s|
  {
    match HeaderAt(s, p)
    case None => None
    case Some(h) => if |s| - h.body < h.ownLength + h.valueLength then None else Some(h)
  }

  /** Three bytes below 128 are three lengths: the fast path reads the same. */
  lemma ShortHeader(s: Bytes, p: nat)
    requires p + 3 <= |s| && s[p] < 128 && s[p + 1] < 128 && s[p + 2] < 128
    ensures HeaderAt(s, p) == Some(Header(s[p], s[p + 1], s[p + 2], p + 3))
  {
    assert GetVarint32(s, p) == Some(Number(s[p], p + 1));
    assert GetVarint32(s, p + 1) == Some(Number(s[p + 1], p + 2));
    assert GetVarint32(s, p + 2) == Some(Number(s[p + 2], p + 3));
  }

  lemma EntryParts(s: Bytes, p: nat, shared: nat, pair: Pair)
    requires shared <= |pair.key| && Has(s, p, EntryBytes(shared, pair))
    ensures var a, b, c := Varint(shared), Varint(|pair.key| - shared), Varint(|pair.value|);
            && Has(s, p, a) && Has(s, p + |a|, b) && Has(s, p + |a| + |b|, c)
            && Has(s, p + |a| + |b| + |c|, pair.key[shared..])
            && Has(s, p + |a| + |b| + |c| + (|pair.key| - shared), pair.value)
            && |EntryBytes(shared, pair)| == |a| + |b| + |c| + (|pair.key| - shared) + |pair.value|
  {
    HasFive(s, p, Varint(shared), Varint(|pair.key| - shared), Varint(|pair.value|), pair.key[shared..], pair.value);
  }

  /** An entry is read back from where it was written. */
  lemma EntryDecodes(s: Bytes, p: nat, shared: nat, pair: Pair)
    requires shared <= |pair.key| < LIMIT_32 && |pair.value| < LIMIT_32 && Has(s, p, EntryBytes(shared, pair))
    ensures var h := DecodeEntry(s, p);
            && h.Some? && h.value.shared == shared && h.value.ownLength == |pair.key| - shared &&
                h.value.valueLength == |pair.value|
            && h.value.body + h.value.ownLength + h.value.valueLength == p + |EntryBytes(shared, pair)|
            && s[h.value.body..h.value.body + h.value.ownLength] == pair.key[shared..]
            && s[h.value.body + h.value.ownLength..p + |EntryBytes(shared, pair)|] == pair.value
  {
    EntryParts(s, p, shared, pair);
    var a, b, c := Varint(shared), Varint(|pair.key| - shared), Varint(|pair.value|);
    VarintRoundTrip(s, p, shared);
    VarintRoundTrip(s, p + |a|, |pair.key| - shared);
    VarintRoundTrip(s, p + |a| + |b|, |pair.value|);
    var body := p + |a| + |b| + |c|;
    HasSlice(s, body, pair.key[shared..]);
    HasSlice(s, body + (|pair.key| - shared), pair.value);
  }

  // ------------------------------------------------------------------ a block

  /** How much of the previous key a key repeats. */
  function SharedPrefix(a: Bytes, b: Bytes): (n: nat)
    ensures n <= |a| && n <= |b| && a[..n] == b[..n]
    ensures n < |a| && n < |b| ==> a[n] != b[n]
  {
    if a == [] || b == [] || a[0] != b[0] then 0
    else
      var n := SharedPrefix(a[1..], b[1..]);
      assert a[..1 + n] == [a[0]] + a[1..][..n] && b[..1 + n] == [b[0]] + b[1..][..n];
      1 + n
  }

  /** A block as laid out: entry i at offsets[i], sharing shared[i] bytes of the
      key before it; those in `starts` stand alone. */
  datatype Layout = Layout(list: seq<Pair>, offsets: seq<nat>, shared: seq<nat>, starts: seq<nat>)
  {
    ghost predicate Shaped() {
      |offsets| == |list| + 1 && |shared| == |list| && offsets[0] == 0
    }
  }

  ghost predicate EntryOk(region: Bytes, l: Layout, i: nat)
    requires l.Shaped() && i < |l.list|
  {
    var n, pair := l.shared[i], l.list[i];
    && n <= |pair.key| < LIMIT_32 && |pair.value| < LIMIT_32
    && Has(region, l.offsets[i], EntryBytes(n, pair))
    && l.offsets[i + 1] == l.offsets[i] + |EntryBytes(n, pair)|
    && (n != 0 ==> 0 < i && n <= |l.list[i - 1].key| && l.list[i - 1].key[..n] == pair.key[..n])
  }

  ghost predicate IsLaid(region: Bytes, l: Layout) {
    && l.Shaped() && l.offsets[|l.list|] == |region|
    && forall i {:trigger EntryOk(region, l, i)} :: 0 <= i < |l.list| ==> EntryOk(region, l, i)
  }

  /** Where keys stand alone: the first entry, and others in order. */
  ghost predicate StartsOk(l: Layout)
    requires l.Shaped()
  {
    && l.starts != [] && l.starts[0] == 0
    && (forall i, j :: 0 <= i < j < |l.starts| ==> l.starts[i] < l.starts[j])
    && (forall i :: 0 <= i < |l.starts| ==> l.starts[i] < |l.list| || (i == 0 && l.list == []))
    && (forall i :: 0 <= i < |l.starts| && l.starts[i] < |l.list| ==> l.shared[l.starts[i]] == 0)
  }

  /** Restart point k, read from the table that begins at `table`. */
  ghost predicate RestartOk(data: Bytes, table: nat, l: Layout, k: nat)
    requires l.Shaped() && k < |l.starts|
  {
    l.starts[k] <= |l.list| && l.offsets[l.starts[k]] < LIMIT_32 &&
        Has(data, table + 4 * k, Fixed32(l.offsets[l.starts[k]]))
  }

  /** What finish() leaves: entries, restart points, and how many there are. */
  ghost predicate IsBlock(data: Bytes, region: Bytes, l: Layout) {
    && IsLaid(region, l) && StartsOk(l) && |l.starts| < LIMIT_32
    && |data| == |region| + 4 * |l.starts| + 4 && region <= data
    && Has(data, |region| + 4 * |l.starts|, Fixed32(|l.starts|))
    && forall k {:trigger RestartOk(data, |region|, l, k)} :: 0 <= k < |l.starts| ==> RestartOk(data, |region|, l, k)
  }

  lemma EntrySize(shared: nat, pair: Pair)
    requires shared <= |pair.key|
    ensures |EntryBytes(shared, pair)| >= 3
  {
    assert |Varint(shared)| >= 1 && |Varint(|pair.key| - shared)| >= 1 && |Varint(|pair.value|)| >= 1;
  }

  lemma {:induction false} OffsetsGrow(region: Bytes, l: Layout, i: nat, j: nat)
    requires IsLaid(region, l) && i <= j <= |l.list|
    ensures if i < j then l.offsets[i] + 3 <= l.offsets[j] else l.offsets[i] == l.offsets[j]
    decreases j - i
  {
    if i < j {
      assert EntryOk(region, l, j - 1);
      EntrySize(l.shared[j - 1], l.list[j - 1]);
      OffsetsGrow(region, l, i, j - 1);
    }
  }

  /** The decoded header rebuilds the pair from the key before it. */
  ghost predicate Rebuilds(region: Bytes, p: nat, key: Bytes, pair: Pair, next: nat) {
    var h := DecodeEntry(region, p);
    && h.Some? && h.value.shared <= |key| && h.value.body + h.value.ownLength + h.value.valueLength == next
    && key[..h.value.shared] + region[h.value.body..h.value.body + h.value.ownLength] == pair.key
    && region[h.value.body + h.value.ownLength..next] == pair.value
  }

  lemma EntryRebuilds(region: Bytes, p: nat, shared: nat, key: Bytes, pair: Pair)
    requires shared <= |pair.key| < LIMIT_32 && |pair.value| < LIMIT_32 && Has(region, p, EntryBytes(shared, pair))
    requires shared <= |key| && key[..shared] == pair.key[..shared]
    ensures Rebuilds(region, p, key, pair, p + |EntryBytes(shared, pair)|)
    ensures DecodeEntry(region, p).value.shared == shared
  {
    EntryDecodes(region, p, shared, pair);
    assert pair.key == pair.key[..shared] + pair.key[shared..];
  }

  /** What a reader finds at entry i, given the key before it. */
  lemma EntryReads(region: Bytes, l: Layout, i: nat, key: Bytes)
    requires IsLaid(region, l) && i < |l.list| && (l.shared[i] == 0 || (0 < i && key == l.list[i - 1].key))
    ensures Rebuilds(region, l.offsets[i], key, l.list[i], l.offsets[i + 1])
    ensures DecodeEntry(region, l.offsets[i]).value.shared == l.shared[i]
  {
    assert EntryOk(region, l, i);
    EntryRebuilds(region, l.offsets[i], l.shared[i], key, l.list[i]);
  }

  /** Restart point k, and how many there are. */
  lemma RestartReads(data: Bytes, region: Bytes, l: Layout, k: nat)
    requires IsBlock(data, region, l) && k < |l.starts|
    ensures l.starts[k] <= |l.list| && GetFixed32(data, |region| + 4 * k) == l.offsets[l.starts[k]]
    ensures GetFixed32(data, |data| - 4) == |l.starts|
  {
    assert RestartOk(data, |region|, l, k);
    Fixed32RoundTrip(data, |region| + 4 * k, l.offsets[l.starts[k]]);
    Fixed32RoundTrip(data, |data| - 4, |l.starts|);
  }
}
