/** Shortened keys for a table's index: between two blocks, or past the last. */
module Separators {
  import opened Keys

  /** The first byte that differs decides. */
  lemma {:induction false} FirstDifference(a: UserKey, b: UserKey, d: nat)
    requires d < |a| && d < |b| && a[..d] == b[..d] && a[d] < b[d]
    ensures Rank(a) < Rank(b)
    decreases d
  {
    RankIsLexicographic(a, b);
    LexAt(a, b, d);
  }

  lemma {:induction false} LexAt(a: UserKey, b: UserKey, d: nat)
    requires d < |a| && d < |b| && a[..d] == b[..d] && a[d] < b[d]
    ensures LexLess(a, b)
    decreases d
  {
    if d > 0 {
      assert a[0] == a[..d][0] == b[..d][0] == b[0];
      assert a[1..][..d - 1] == a[..d][1..] && b[1..][..d - 1] == b[..d][1..];
      LexAt(a[1..], b[1..], d - 1);
    }
  }

  /** How many bytes two keys have in common from the front. */
  ghost function Shared(a: UserKey, b: UserKey): (n: nat)
    ensures n <= |a| && n <= |b| && a[..n] == b[..n]
    ensures n < |a| && n < |b| ==> a[n] != b[n]
  {
    if a != [] && b != [] && a[0] == b[0] then
      var n := Shared(a[1..], b[1..]);
      assert a[..n + 1] == [a[0]] + a[1..][..n] && b[..n + 1] == [b[0]] + b[1..][..n];
      n + 1
    else 0
  }

  /** After what the keys share there is a byte between theirs. */
  ghost predicate Room(start: UserKey, limit: UserKey) {
    var d := Shared(start, limit);
    d < |start| && d < |limit| && start[d] as int + 1 < limit[d]
  }

  /** Whatever lies between two keys is longer than what they share. */
  lemma {:induction false} BetweenIsLonger(start: UserKey, limit: UserKey, s: UserKey, d: nat)
    requires d < |start| && d < |limit| && start[..d] == limit[..d]
    requires !LexLess(s, start) && LexLess(s, limit)
    ensures d < |s|
    decreases d
  {
    if d > 0 {
      assert start[0] == start[..d][0] == limit[..d][0] == limit[0];
      assert s != [];
      assert start[1..][..d - 1] == start[..d][1..] && limit[1..][..d - 1] == limit[..d][1..];
      BetweenIsLonger(start[1..], limit[1..], s[1..], d - 1);
    }
  }

  /** So no key from start to limit is shorter than one cut off after that. */
  lemma CutIsShortest(start: UserKey, limit: UserKey, s: UserKey)
    requires Room(start, limit) && Rank(start) <= Rank(s) < Rank(limit)
    ensures Shared(start, limit) + 1 <= |s|
  {
    RankIsLexicographic(s, start);
    RankIsLexicographic(s, limit);
    BetweenIsLonger(start, limit, s, Shared(start, limit));
  }

  /** Where there is room after what the two share, the result ends there, and so
      is as short as a separator can be; elsewhere it is the key itself. */
  method ShortestSeparator(start: UserKey, limit: UserKey) returns (r: UserKey)
    ensures |r| <= |start|
    ensures r == start || (Rank(start) < Rank(r) < Rank(limit))
    ensures r != start <==> Room(start, limit)
    ensures r != start ==> |r| == Shared(start, limit) + 1
  {
    var shorter := if |start| < |limit| then |start| else |limit|;
    var diff := 0;
    while diff < shorter && start[diff] == limit[diff]
      invariant diff <= shorter && diff + Shared(start[diff..], limit[diff..]) == Shared(start, limit)
    {
      assert start[diff..][1..] == start[diff + 1..] && limit[diff..][1..] == limit[diff + 1..];
      diff := diff + 1;
    }
    assert diff == Shared(start, limit);
    if diff >= shorter {
      return start;
    }
    var byte := start[diff];
    if byte < 255 && byte + 1 < limit[diff] {
      r := start[..diff] + [byte + 1];
      FirstDifference(start, r, diff);
      assert r[..diff] == limit[..diff];
      FirstDifference(r, limit, diff);
    } else {
      r := start;
    }
  }

  /** Up to the first byte that is not 255, or the whole key. */
  ghost function ShortLength(key: UserKey): (n: nat)
    ensures n <= |key|
  {
    if key == [] then 0 else if key[0] != 255 then 1 else 1 + ShortLength(key[1..])
  }

  lemma {:induction false} AfterIsLonger(key: UserKey, s: UserKey)
    requires !LexLess(s, key)
    ensures ShortLength(key) <= |s|
    decreases |key|
  {
    if key != [] {
      assert s != [];
      if key[0] == 255 {
        AfterIsLonger(key[1..], s[1..]);
      }
    }
  }

  /** No key at or after this one is shorter than that. */
  lemma SuccessorIsShortest(key: UserKey, s: UserKey)
    requires Rank(key) <= Rank(s)
    ensures ShortLength(key) <= |s|
  {
    RankIsLexicographic(s, key);
    AfterIsLonger(key, s);
  }

  /** As short as a key at or after this one can be. */
  method ShortSuccessor(key: UserKey) returns (r: UserKey)
    ensures |r| == ShortLength(key)
    ensures r == key || Rank(key) < Rank(r)
    ensures r == key <==> forall i :: 0 <= i < |key| ==> key[i] == 255
  {
    for i := 0 to |key|
      invariant forall j :: 0 <= j < i ==> key[j] == 255
      invariant i + ShortLength(key[i..]) == ShortLength(key)
    {
      assert key[i..][1..] == key[i + 1..];
      if key[i] != 255 {
        r := key[..i] + [key[i] + 1];
        FirstDifference(key, r, i);
        assert r[i] != key[i];
        return;
      }
    }
    r := key;
  }

  /** Before every entry of its user key. */
  function FirstOf(user: UserKey): InternalKey {
    InternalKey(user, MAX_SEQUENCE, Value)
  }

  /** At or after `start`; and either it is `start`, or its user key lies
      strictly between the two. */
  method InternalShortestSeparator(start: InternalKey, limit: InternalKey) returns (r: InternalKey)
    ensures r == start || (Rank(start.user) < Rank(r.user) < Rank(limit.user) && |r.user| < |start.user|)
    ensures AtMost(start, r) && (Less(start, limit) ==> Less(r, limit))
    ensures Room(start.user, limit.user) && Shared(start.user, limit.user) + 1 < |start.user| ==>
              r != start && r == FirstOf(r.user) && |r.user| == Shared(start.user, limit.user) + 1
  {
    var shortened := ShortestSeparator(start.user, limit.user);
    if |shortened| >= |start.user| {
      return start;
    }
    if Compare(start.user, shortened) >= 0 {
      return start;
    }
    if Compare(shortened, limit.user) >= 0 {
      return start;
    }
    return FirstOf(shortened);
  }

  method InternalShortSuccessor(key: InternalKey) returns (r: InternalKey)
    ensures r == key || (Rank(key.user) < Rank(r.user) && |r.user| < |key.user|)
    ensures AtMost(key, r)
    ensures |r.user| == ShortLength(key.user)
    ensures r != key ==> r == FirstOf(r.user)
  {
    var shortened := ShortSuccessor(key.user);
    if |shortened| >= |key.user| {
      return key;
    }
    if Compare(key.user, shortened) >= 0 {
      return key;
    }
    return FirstOf(shortened);
  }
}
