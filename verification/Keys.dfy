/** User keys, internal keys and the order the whole engine is built on.

    User keys are byte strings in lexicographic order.  An internal key adds a
    sequence number and a type; ties between equal user keys break on the
    trailer in reverse, so that the newest version of a key sorts first.

    The order is stated once, on byte strings, by `LexLess`.  `Rank` is an
    order-embedding of byte strings into the reals, so that every later proof
    reasons about key order by arithmetic; `Compare` ties it back to the
    byte-by-byte comparison. */
module Keys {

  type Byte = x: int | 0 <= x < 256

  type UserKey = seq<Byte>

  // ------------------------------------------------------- lexicographic order

  predicate LexLess(a: UserKey, b: UserKey)
    decreases |a|
  {
    if b == [] then false
    else if a == [] then true
    else if a[0] != b[0] then a[0] < b[0]
    else LexLess(a[1..], b[1..])
  }

  /** The digits of the key, each shifted by one, read as a fraction in base 257. */
  ghost function Fraction(k: UserKey): (r: real)
    ensures 0.0 <= r < 1.0
    ensures k != [] ==> 0.0 < r
  {
    if k == [] then 0.0 else (k[0] as real + 1.0 + Fraction(k[1..])) / 257.0
  }

  lemma {:induction false} FractionIsLexicographic(a: UserKey, b: UserKey)
    ensures LexLess(a, b) <==> Fraction(a) < Fraction(b)
    decreases |a|
  {
    if a != [] && b != [] && a[0] == b[0] {
      FractionIsLexicographic(a[1..], b[1..]);
    }
  }

  lemma {:induction false} LexTotal(a: UserKey, b: UserKey)
    ensures LexLess(a, b) || LexLess(b, a) || a == b
    decreases |a|
  {
    if a != [] && b != [] && a[0] == b[0] {
      LexTotal(a[1..], b[1..]);
      assert a == [a[0]] + a[1..] && b == [b[0]] + b[1..];
    }
  }

  ghost predicate IsRanking(f: UserKey -> real) {
    forall a, b {:trigger LexLess(a, b)} :: LexLess(a, b) <==> f(a) < f(b)
  }

  lemma RankingExists()
    ensures exists f :: IsRanking(f)
  {
    var f := (k: UserKey) => Fraction(k);
    forall a: UserKey, b: UserKey
      ensures LexLess(a, b) <==> f(a) < f(b)
    {
      FractionIsLexicographic(a, b);
    }
    assert IsRanking(f);
  }

  ghost const Ranking: UserKey -> real := (RankingExists(); var f :| IsRanking(f); f)

  /** Where a user key stands in the order. */
  ghost function Rank(k: UserKey): real {
    Ranking(k)
  }

  lemma RankIsLexicographic(a: UserKey, b: UserKey)
    ensures LexLess(a, b) <==> Rank(a) < Rank(b)
    ensures Rank(a) == Rank(b) ==> a == b
  {
    assert IsRanking(Ranking);
    LexTotal(a, b);
  }

  /** bytewise_compare: negative, zero or positive. */
  function Compare(a: UserKey, b: UserKey): (r: int)
    ensures r < 0 <==> Rank(a) < Rank(b)
    ensures r > 0 <==> Rank(a) > Rank(b)
    ensures r == 0 <==> a == b
  {
    RankIsLexicographic(a, b);
    RankIsLexicographic(b, a);
    if LexLess(a, b) then -1 else if a == b then 0 else 1
  }

  // ------------------------------------------------------------ internal keys

  datatype Kind = Deletion | Value

  /** A trailer is a 56-bit sequence number times 256, plus a code for the kind. */
  const MAX_SEQUENCE: nat := 0xff_ffff_ffff_ffff

  datatype InternalKey = InternalKey(user: UserKey, sequence: nat, kind: Kind)

  function Trailer(k: InternalKey): nat {
    256 * k.sequence + if k.kind.Value? then 1 else 0
  }

  /** a sorts strictly before b: user key ascending, trailer descending. */
  ghost predicate Less(a: InternalKey, b: InternalKey) {
    Rank(a.user) < Rank(b.user) || (Rank(a.user) == Rank(b.user) && Trailer(a) > Trailer(b))
  }

  ghost predicate AtMost(a: InternalKey, b: InternalKey) {
    !Less(b, a)
  }

  /** compare_internal_keys: negative, zero or positive. */
  function CompareInternal(a: InternalKey, b: InternalKey): (r: int)
    ensures r < 0 <==> Less(a, b)
    ensures r > 0 <==> Less(b, a)
    ensures r == 0 <==> a == b
  {
    var byUser := Compare(a.user, b.user);
    if byUser != 0 then byUser
    else if Trailer(a) > Trailer(b) then -1
    else if Trailer(a) < Trailer(b) then 1
    else 0
  }

  /** The seek target of a point lookup: at or before every entry of the user
      key visible at the snapshot. */
  function LookupKey(user: UserKey, snapshot: nat): InternalKey {
    InternalKey(user, snapshot, Value)
  }

  /** Distinct user keys have distinct ranks, for every pair in sight. */
  lemma RankInjective()
    ensures forall a, b {:trigger Rank(a), Rank(b)} :: Rank(a) == Rank(b) ==> a == b
  {
    forall a: UserKey, b: UserKey ensures Rank(a) == Rank(b) ==> a == b {
      RankIsLexicographic(a, b);
    }
  }

  /** An internal key is at or after the lookup key for (user, snapshot) exactly
      when it belongs to a later user key, or is a version of this one that the
      snapshot sees. */
  lemma LookupKeySplits(k: InternalKey, user: UserKey, snapshot: nat)
    ensures AtMost(LookupKey(user, snapshot), k)
      <==> Rank(user) < Rank(k.user) || (k.user == user && k.sequence <= snapshot)
  {
    RankIsLexicographic(k.user, user);
  }
}
