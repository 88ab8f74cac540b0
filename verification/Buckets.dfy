/** Temperature buckets: parsing shape, the completeness check, and membership (app/services/rules.py, app/schemas.py). */
module Buckets {
  import opened Outcomes
  import opened Text

  datatype Bucket = Bucket(
    title: string, lower: Option<real>, upper: Option<real>, lowerInclusive: bool, upperInclusive: bool)
  {
    predicate Contains(value: real) {
      && (lower.None? || value > lower.value || (lowerInclusive && value == lower.value))
      && (upper.None? || value < upper.value || (upperInclusive && value == upper.value))
    }
  }

  datatype BucketError = MissingTerminalRange | Overlap | Gap

  /** The sort key order: a missing lower bound sorts as minus infinity. */
  predicate KeyLess(a: Bucket, b: Bucket) {
    b.lower.Some? && (a.lower.None? || a.lower.value < b.lower.value)
  }

  function Insert(b: Bucket, s: seq<Bucket>): seq<Bucket> {
    if s == [] || !KeyLess(s[0], b) then [b] + s else [s[0]] + Insert(b, s[1..])
  }

  /** A stable sort by lower bound. */
  function Sorted(bs: seq<Bucket>): seq<Bucket> {
    if bs == [] then [] else Insert(bs[0], Sorted(bs[1..]))
  }

  /** The adjacent-pair checks, in the source's order. */
  function PairError(previous: Bucket, current: Bucket): Option<BucketError> {
    if previous.upper.None? || current.lower.None? then Some(Overlap)
    else if current.lower.value <= previous.upper.value then Some(Overlap)
    else if current.lower.value != previous.upper.value + 1.0 then Some(Gap)
    else None
  }

  function FirstPairError(s: seq<Bucket>): Option<BucketError> {
    if |s| < 2 then None
    else if PairError(s[0], s[1]).Some? then PairError(s[0], s[1])
    else FirstPairError(s[1..])
  }

  function ValidateComplete(bs: seq<Bucket>): Result<seq<Bucket>, BucketError> {
    var ordered := Sorted(bs);
    if ordered == [] || ordered[0].lower.Some? || ordered[|ordered| - 1].upper.Some? then Err(MissingTerminalRange)
    else if FirstPairError(ordered).Some? then Err(FirstPairError(ordered).value)
    else Ok(ordered)
  }

  // ---- What the check is for ----

  /** How many buckets of the family hold the value. */
  function Hits(bs: seq<Bucket>, value: real): nat {
    if bs == [] then 0 else (if bs[0].Contains(value) then 1 else 0) + Hits(bs[1..], value)
  }

  /** Every whole-degree reading falls in exactly one bucket. */
  ghost predicate PartitionsIntegers(bs: seq<Bucket>) {
    forall n :: HeldOnce(bs, n)
  }

  ghost predicate HeldOnce(bs: seq<Bucket>, n: int) {
    Hits(bs, n as real) == 1
  }

  ghost predicate IsIntegral(bound: Option<real>) {
    bound.None? || bound.value == bound.value.Floor as real
  }

  ghost predicate AllIntegral(bs: seq<Bucket>) {
    forall b :: b in bs ==> IsIntegral(b.lower) && IsIntegral(b.upper)
  }

  /** Both ends belong to the bucket, as `parse_bucket` always builds them. */
  ghost predicate AllInclusive(bs: seq<Bucket>) {
    forall b :: b in bs ==> b.lowerInclusive && b.upperInclusive
  }

  ghost predicate AllNonEmpty(bs: seq<Bucket>) {
    forall b :: b in bs && b.lower.Some? && b.upper.Some? ==> b.lower.value <= b.upper.value
  }

  ghost predicate Ascending(s: seq<Bucket>) {
    forall i, j :: 0 <= i < j < |s| ==> !KeyLess(s[j], s[i])
  }

  lemma {:induction false} InsertKeeps(b: Bucket, s: seq<Bucket>, value: real)
    ensures Hits(Insert(b, s), value) == (if b.Contains(value) then 1 else 0) + Hits(s, value)
    ensures multiset(Insert(b, s)) == multiset{b} + multiset(s)
  {
    if s == [] || !KeyLess(s[0], b) {
      assert ([b] + s)[1..] == s;
    } else {
      InsertKeeps(b, s[1..], value);
      var t := Insert(b, s[1..]);
      assert ([s[0]] + t)[1..] == t;
      assert s == [s[0]] + s[1..];
    }
  }

  lemma {:induction false} InsertAscending(b: Bucket, s: seq<Bucket>)
    requires Ascending(s)
    ensures Ascending(Insert(b, s))
  {
    if s != [] && KeyLess(s[0], b) {
      InsertAscending(b, s[1..]);
      var t := Insert(b, s[1..]);
      InsertKeeps(b, s[1..], 0.0);
      forall j | 0 <= j < |t| ensures !KeyLess(t[j], s[0]) {
        assert t[j] in multiset(t);
        assert t[j] == b || t[j] in s[1..];
      }
    }
  }

  lemma {:induction false} SortedKeeps(bs: seq<Bucket>, value: real)
    ensures Hits(Sorted(bs), value) == Hits(bs, value)
    ensures multiset(Sorted(bs)) == multiset(bs)
    ensures Ascending(Sorted(bs))
  {
    if bs != [] {
      SortedKeeps(bs[1..], value);
      InsertKeeps(bs[0], Sorted(bs[1..]), value);
      InsertAscending(bs[0], Sorted(bs[1..]));
      assert bs == [bs[0]] + bs[1..];
    }
  }

  lemma SortedSameBuckets(bs: seq<Bucket>)
    ensures forall b :: b in Sorted(bs) <==> b in bs
    ensures |Sorted(bs)| == |bs|
  {
    SortedKeeps(bs, 0.0);
    assert forall b :: b in Sorted(bs) <==> b in multiset(Sorted(bs));
    assert forall b :: b in bs <==> b in multiset(bs);
    assert |multiset(Sorted(bs))| == |multiset(bs)|;
  }

  /** Bucket k follows its predecessor without overlap or gap. */
  ghost predicate Linked(s: seq<Bucket>, k: int) {
    0 < k < |s| && PairError(s[k - 1], s[k]).None?
  }

  ghost predicate Chained(s: seq<Bucket>) {
    forall k :: 0 < k < |s| ==> Linked(s, k)
  }

  lemma {:induction false} PairsAdjacent(s: seq<Bucket>)
    ensures FirstPairError(s).None? <==> Chained(s)
  {
    if |s| >= 2 {
      var t := s[1..];
      PairsAdjacent(t);
      if FirstPairError(s).None? {
        forall k | 0 < k < |s| ensures Linked(s, k) {
          assert k > 1 ==> Linked(t, k - 1);
        }
      } else if PairError(s[0], s[1]).Some? {
        assert !Linked(s, 1);
      } else {
        var k :| 0 < k < |t| && !Linked(t, k);
        assert !Linked(s, k + 1);
      }
    }
  }

  lemma {:induction false} HitsZero(s: seq<Bucket>, value: real)
    ensures Hits(s, value) == 0 <==> forall i :: 0 <= i < |s| ==> !s[i].Contains(value)
  {
    if s != [] {
      HitsZero(s[1..], value);
      assert forall i :: 0 < i < |s| ==> s[i] == s[1..][i - 1];
    }
  }

  lemma {:induction false} HitsTwo(s: seq<Bucket>, i: nat, j: nat, value: real)
    requires i < j < |s| && s[i].Contains(value) && s[j].Contains(value)
    ensures Hits(s, value) >= 2
  {
    if i == 0 {
      HitsZero(s[1..], value);
      assert s[1..][j - 1].Contains(value);
    } else {
      HitsTwo(s[1..], i - 1, j - 1, value);
    }
  }

  /** One hit means one index. */
  lemma HitsOne(s: seq<Bucket>, value: real) returns (i: nat)
    requires Hits(s, value) == 1
    ensures i < |s| && s[i].Contains(value)
    ensures forall j :: 0 <= j < |s| && s[j].Contains(value) ==> j == i
  {
    HitsZero(s, value);
    i :| 0 <= i < |s| && s[i].Contains(value);
    forall j | 0 <= j < |s| && s[j].Contains(value) ensures j == i {
      if j < i {
        HitsTwo(s, j, i, value);
      } else if i < j {
        HitsTwo(s, i, j, value);
      }
    }
  }

  /** On whole bounds, membership of a whole degree is integer comparison. */
  lemma ContainsWhole(b: Bucket, n: int)
    requires b.lowerInclusive && b.upperInclusive && IsIntegral(b.lower) && IsIntegral(b.upper)
    ensures b.Contains(n as real) <==>
      (b.lower.None? || b.lower.value.Floor <= n) && (b.upper.None? || n <= b.upper.value.Floor)
  {
  }

  lemma LinkedWhole(p: Bucket, c: Bucket)
    requires IsIntegral(p.upper) && IsIntegral(c.lower) && PairError(p, c).None?
    ensures c.lower.value.Floor == p.upper.value.Floor + 1
  {
    assert c.lower.value == (p.upper.value.Floor + 1) as real;
  }

  /** The buckets from one link of the chain on hold n once if n is at or above the link, and otherwise not at all. */
  lemma {:induction false} ChainHits(s: seq<Bucket>, n: int)
    requires s != [] && Ascending(s) && AllInclusive(s) && AllIntegral(s) && Chained(s)
    requires s[|s| - 1].upper.None?
    ensures Hits(s, n as real) == if s[0].lower.None? || n >= s[0].lower.value.Floor then 1 else 0
  {
    assert s[0] in s;
    ContainsWhole(s[0], n);
    if |s| > 1 {
      var t := s[1..];
      forall k | 0 < k < |t| ensures Linked(t, k) {
        assert Linked(s, k + 1);
      }
      assert forall b :: b in t ==> b in s;
      ChainHits(t, n);
      assert Linked(s, 1) && s[1] in s;
      LinkedWhole(s[0], s[1]);
      assert !KeyLess(s[1], s[0]);
    } else {
      assert s[1..] == [];
    }
  }

  /** In an accepted chain, bounds before a link lie at or below it and bounds after it at or above the next. */
  lemma ChainOrder(s: seq<Bucket>, k: nat, i: nat)
    requires k + 1 < |s| && i < |s| && Ascending(s) && Chained(s)
    ensures s[k].upper.Some?
    ensures i <= k ==> s[i].upper.Some? && s[i].upper.value <= s[k].upper.value
    ensures i > k ==> s[i].lower.Some? && s[i].lower.value >= s[k].upper.value + 1.0
  {
    assert Linked(s, k + 1);
    if i < k {
      assert Linked(s, i + 1);
      assert !KeyLess(s[k + 1], s[i + 1]);
    } else if i > k + 1 {
      assert Linked(s, i);
      assert !KeyLess(s[i], s[k + 1]);
    }
  }

  /** A fractional bound leaves the whole degree just above it in no bucket. */
  lemma FractionalBoundMisses(s: seq<Bucket>, k: nat)
    requires k + 1 < |s| && Ascending(s) && Chained(s)
    requires s[k].upper.Some? && !IsIntegral(s[k].upper)
    ensures Hits(s, (s[k].upper.value.Floor + 1) as real) == 0
  {
    var n := s[k].upper.value.Floor + 1;
    forall i | 0 <= i < |s| ensures !s[i].Contains(n as real) {
      ChainOrder(s, k, i);
    }
    HitsZero(s, n as real);
  }

  /**
   * The adjacent-pair check on sorted inclusive buckets is a global guarantee exactly on whole-number bounds:
   * an accepted set puts every whole degree in exactly one bucket, whatever order the buckets came in,
   * if and only if all its bounds are whole.
   */
  lemma AcceptedPartitionsIff(bs: seq<Bucket>)
    requires AllInclusive(bs) && ValidateComplete(bs).Ok?
    ensures PartitionsIntegers(bs) <==> AllIntegral(bs)
  {
    var s := Sorted(bs);
    SortedSameBuckets(bs);
    SortedKeeps(bs, 0.0);
    PairsAdjacent(s);
    if AllIntegral(bs) {
      forall n ensures HeldOnce(bs, n) {
        SortedKeeps(bs, n as real);
        ChainHits(s, n);
      }
    } else {
      var k := FractionalUpper(s);
      FractionalBoundMisses(s, k);
      SortedKeeps(bs, (s[k].upper.value.Floor + 1) as real);
      assert !HeldOnce(bs, s[k].upper.value.Floor + 1);
    }
  }

  lemma NextWhole(x: real, y: real)
    requires y == x + 1.0 && x == x.Floor as real
    ensures y == y.Floor as real
  {
    assert y == (x.Floor + 1) as real;
  }

  /** Where some bound of an accepted chain is fractional, some upper bound before the last bucket is. */
  lemma FractionalUpper(s: seq<Bucket>) returns (k: nat)
    requires s != [] && Chained(s) && s[0].lower.None? && s[|s| - 1].upper.None? && !AllIntegral(s)
    ensures k + 1 < |s| && s[k].upper.Some? && !IsIntegral(s[k].upper)
  {
    var i :| 0 <= i < |s| && !(IsIntegral(s[i].lower) && IsIntegral(s[i].upper));
    if IsIntegral(s[i].upper) {
      k := i - 1;
      assert Linked(s, i);
      if IsIntegral(s[k].upper) {
        NextWhole(s[k].upper.value, s[i].lower.value);
      }
    } else {
      k := i;
    }
  }

  /** Bounds 22.5 and 23.5 pass the "+ 1" test, and a reading of 23 then belongs nowhere. */
  lemma FractionalBoundsExample()
    ensures var bs := [Bucket("high", Some(23.5), None, true, true), Bucket("low", None, Some(22.5), true, true)];
      ValidateComplete(bs).Ok? && Hits(bs, 23.0) == 0
  {
    var high, low := Bucket("high", Some(23.5), None, true, true), Bucket("low", None, Some(22.5), true, true);
    var bs := [high, low];
    assert bs[1..] == [low] && [low][1..] == [];
    assert Sorted([low]) == Insert(low, Sorted([])) == [low];
    assert Insert(high, [low]) == [low] + Insert(high, [low][1..]);
    assert Sorted(bs) == Insert(high, Sorted([low])) == [low, high];
    assert FirstPairError([low, high]).None?;
    assert Hits([low], 23.0) == 0;
  }

  // ---- The converse: nothing that partitions the whole degrees is turned away ----

  /** No whole degree lies in two buckets of a partition. */
  lemma Disjoint(s: seq<Bucket>, i: nat, k: nat, n: int)
    requires i < k < |s| && AllInclusive(s) && AllIntegral(s) && PartitionsIntegers(s)
    ensures !(s[i].Contains(n as real) && s[k].Contains(n as real))
  {
    assert HeldOnce(s, n);
    if s[i].Contains(n as real) && s[k].Contains(n as real) {
      HitsTwo(s, i, k, n as real);
    }
  }

  /** The whole degree just above a bucket's upper bound is in no bucket sorted at or before it. */
  lemma NothingEarlierCovers(s: seq<Bucket>, k: nat, i: nat)
    requires k < |s| && i <= k && Ascending(s) && AllInclusive(s) && AllNonEmpty(s) && AllIntegral(s)
    requires PartitionsIntegers(s) && s[k].upper.Some?
    ensures !s[i].Contains((s[k].upper.value.Floor + 1) as real)
  {
    var n := s[k].upper.value.Floor + 1;
    assert s[k] in s && s[i] in s;
    ContainsWhole(s[i], n);
    if i < k {
      assert !KeyLess(s[k], s[i]);
      var w := if s[k].lower.Some? then s[k].lower.value.Floor else s[k].upper.value.Floor;
      ContainsWhole(s[i], w);
      ContainsWhole(s[k], w);
      Disjoint(s, i, k, w);
    }
  }

  /** A whole degree that two buckets share, when the pair check calls them overlapping. */
  function SharedDegree(p: Bucket, c: Bucket): int {
    if c.lower.Some? then c.lower.value.Floor
    else if c.upper.None? then (if p.upper.None? then 0 else p.upper.value.Floor)
    else if p.upper.None? then c.upper.value.Floor
    else Min(p.upper.value, c.upper.value).Floor
  }

  /** Two neighbours of a partition pass the pair check. */
  lemma NeighboursPass(s: seq<Bucket>, k: nat)
    requires 0 < k < |s| && Ascending(s) && AllInclusive(s) && AllNonEmpty(s) && AllIntegral(s)
    requires PartitionsIntegers(s)
    ensures Linked(s, k)
  {
    var p, c := s[k - 1], s[k];
    assert p in s && c in s && !KeyLess(c, p);
    var w := SharedDegree(p, c);
    ContainsWhole(p, w);
    ContainsWhole(c, w);
    Disjoint(s, k - 1, k, w);
    assert p.upper.Some? && c.lower.Some? && p.upper.value < c.lower.value;
    var n := p.upper.value.Floor + 1;
    assert HeldOnce(s, n);
    if c.lower.value.Floor != n {
      forall i | 0 <= i < |s| ensures !s[i].Contains(n as real) {
        if i <= k - 1 {
          NothingEarlierCovers(s, k - 1, i);
        } else {
          assert i > k ==> !KeyLess(s[i], s[k]);
        }
      }
      HitsZero(s, n as real);
    }
  }

  /** The family's first and last buckets are the open-ended ones. */
  lemma EndsAreOpen(s: seq<Bucket>)
    requires Ascending(s) && AllInclusive(s) && AllNonEmpty(s) && AllIntegral(s) && PartitionsIntegers(s)
    ensures s != [] && s[0].lower.None? && s[|s| - 1].upper.None?
  {
    assert HeldOnce(s, 0);
    if s[0].lower.Some? {
      assert s[0] in s;
      var n := s[0].lower.value.Floor - 1;
      assert HeldOnce(s, n);
      forall i | 0 <= i < |s| ensures !s[i].Contains(n as real) {
        assert i > 0 ==> !KeyLess(s[i], s[0]);
      }
      HitsZero(s, n as real);
    }
    var last := |s| - 1;
    if s[last].upper.Some? {
      assert s[last] in s;
      var n := s[last].upper.value.Floor + 1;
      assert HeldOnce(s, n);
      forall i | 0 <= i < |s| ensures !s[i].Contains(n as real) {
        NothingEarlierCovers(s, last, i);
      }
      HitsZero(s, n as real);
    }
  }

  /** On inclusive, non-empty, whole-number buckets the check accepts exactly the partitions of the whole degrees. */
  lemma AcceptsExactlyPartitions(bs: seq<Bucket>)
    requires AllInclusive(bs) && AllNonEmpty(bs) && AllIntegral(bs)
    ensures ValidateComplete(bs).Ok? <==> PartitionsIntegers(bs)
  {
    if ValidateComplete(bs).Ok? {
      AcceptedPartitionsIff(bs);
    }
    if PartitionsIntegers(bs) {
      var s := Sorted(bs);
      SortedSameBuckets(bs);
      SortedKeeps(bs, 0.0);
      forall n ensures HeldOnce(s, n) {
        assert HeldOnce(bs, n);
        SortedKeeps(bs, n as real);
      }
      EndsAreOpen(s);
      forall k | 0 < k < |s| ensures Linked(s, k) {
        NeighboursPass(s, k);
      }
      PairsAdjacent(s);
    }
  }

  // ---- What the refusals mean ----

  /** The pair the check stumbles over, with everything before it linked. */
  lemma {:induction false} FirstBadPair(s: seq<Bucket>) returns (k: nat)
    requires FirstPairError(s).Some?
    ensures 0 < k < |s| && PairError(s[k - 1], s[k]) == FirstPairError(s)
    ensures forall j :: 0 < j < k ==> Linked(s, j)
  {
    if PairError(s[0], s[1]).Some? {
      k := 1;
    } else {
      var m := FirstBadPair(s[1..]);
      k := m + 1;
      forall j | 0 < j < k ensures Linked(s, j) {
        assert j > 1 ==> Linked(s[1..], j - 1);
      }
    }
  }

  /** Neighbours refused as overlapping share a whole degree. */
  lemma OverlapShares(s: seq<Bucket>, k: nat) returns (n: int)
    requires 0 < k < |s| && Ascending(s) && AllInclusive(s) && AllNonEmpty(s) && AllIntegral(s)
    requires PairError(s[k - 1], s[k]) == Some(Overlap)
    ensures Hits(s, n as real) >= 2
  {
    var p, c := s[k - 1], s[k];
    assert p in s && c in s && !KeyLess(c, p);
    n := SharedDegree(p, c);
    ContainsWhole(p, n);
    ContainsWhole(c, n);
    HitsTwo(s, k - 1, k, n as real);
  }

  /** Everything up to a link of the chain ends where that link does, at the latest. */
  lemma {:induction false} ChainEnds(s: seq<Bucket>, k: nat, i: nat)
    requires i <= k < |s| && AllNonEmpty(s) && (forall j :: 0 < j <= k ==> Linked(s, j)) && s[k].upper.Some?
    ensures s[i].upper.Some? && s[i].upper.value <= s[k].upper.value
    decreases k - i
  {
    if i < k {
      assert Linked(s, k) && s[k] in s;
      ChainEnds(s, k - 1, i);
    }
  }

  /** Neighbours refused for a gap leave a whole degree in no bucket. */
  lemma GapMisses(s: seq<Bucket>, k: nat) returns (n: int)
    requires 0 < k < |s| && Ascending(s) && AllInclusive(s) && AllNonEmpty(s) && AllIntegral(s)
    requires PairError(s[k - 1], s[k]) == Some(Gap) && forall j :: 0 < j < k ==> Linked(s, j)
    ensures Hits(s, n as real) == 0
  {
    var p, c := s[k - 1], s[k];
    assert p in s && c in s;
    n := p.upper.value.Floor + 1;
    GapIsWide(p, c);
    forall i | 0 <= i < |s| ensures !s[i].Contains(n as real) {
      assert s[i] in s;
      ContainsWhole(s[i], n);
      if i < k {
        ChainEnds(s, k - 1, i);
        FloorOrder(s[i].upper.value, p.upper.value);
      } else {
        assert i > k ==> !KeyLess(s[i], s[k]);
        FloorOrder(c.lower.value, s[i].lower.value);
      }
    }
    HitsZero(s, n as real);
  }

  lemma FloorOrder(x: real, y: real)
    requires x <= y
    ensures x.Floor <= y.Floor
  {
  }

  lemma GapIsWide(p: Bucket, c: Bucket)
    requires IsIntegral(p.upper) && IsIntegral(c.lower) && PairError(p, c) == Some(Gap)
    ensures p.upper.Some? && c.lower.Some? && p.upper.value.Floor + 1 < c.lower.value.Floor
  {
    var x, y := p.upper.value.Floor, c.lower.value.Floor;
    assert p.upper.value == x as real && c.lower.value == y as real;
    assert y as real != x as real + 1.0;
  }

  ghost predicate HeldTwice(bs: seq<Bucket>, n: int) {
    Hits(bs, n as real) >= 2
  }

  ghost predicate HeldNever(bs: seq<Bucket>, n: int) {
    Hits(bs, n as real) == 0
  }

  /** On inclusive, non-empty, whole bounds an overlap refusal names a degree held twice, a gap refusal one held by none. */
  lemma RefusalMeaning(bs: seq<Bucket>)
    requires AllInclusive(bs) && AllNonEmpty(bs) && AllIntegral(bs)
    ensures ValidateComplete(bs) == Err(Overlap) ==> exists n: int :: HeldTwice(bs, n)
    ensures ValidateComplete(bs) == Err(Gap) ==> exists n: int :: HeldNever(bs, n)
  {
    var s := Sorted(bs);
    SortedSameBuckets(bs);
    SortedKeeps(bs, 0.0);
    if FirstPairError(s).Some? {
      var k := FirstBadPair(s);
      if PairError(s[k - 1], s[k]) == Some(Overlap) {
        var n := OverlapShares(s, k);
        SortedKeeps(bs, n as real);
        assert HeldTwice(bs, n);
      } else {
        var n := GapMisses(s, k);
        SortedKeeps(bs, n as real);
        assert HeldNever(bs, n);
      }
    }
  }

  // ---- From labels to settlement ----

  /** `canonical_bucket_label`: drop the mojibake character and normalize white space. */
  function CanonicalLabel(text: string): string {
    Unwords(Words(Without(text, '\U{00C2}')))
  }

  /** Two labels are the same exactly when, without the mojibake character, they have the same words. */
  lemma SameLabelIff(x: string, y: string)
    ensures CanonicalLabel(x) == CanonicalLabel(y) <==> Words(Without(x, '\U{00C2}')) == Words(Without(y, '\U{00C2}'))
  {
    hide Words, Without, Unwords;
    WordsAreWords(Without(x, '\U{00C2}'));
    WordsAreWords(Without(y, '\U{00C2}'));
    WordsRoundTrip(Words(Without(x, '\U{00C2}')));
    WordsRoundTrip(Words(Without(y, '\U{00C2}')));
  }

  /** What the bucket pattern reads from a label: a value and an optional direction. */
  datatype Shape = AtMost(value: real) | AtLeast(value: real) | Exactly(value: real)

  /** `parse_bucket`, given what the pattern reads from canonical labels (None when it does not match). */
  function ParseBucket(text: string, read: string -> Option<Shape>): Option<Bucket> {
    match read(CanonicalLabel(text))
    case None => None
    case Some(AtMost(v)) => Some(Bucket(text, None, Some(v), true, true))
    case Some(AtLeast(v)) => Some(Bucket(text, Some(v), None, true, true))
    case Some(Exactly(v)) => Some(Bucket(text, Some(v), Some(v), true, true))
  }

  function ParseAll(labels: seq<string>, read: string -> Option<Shape>): (r: Option<seq<Bucket>>)
    ensures r.Some? ==> |r.value| == |labels|
    ensures r.Some? ==> forall i :: 0 <= i < |labels| ==> ParseBucket(labels[i], read) == Some(r.value[i])
  {
    if labels == [] then Some([])
    else
      var head, tail := ParseBucket(labels[0], read), ParseAll(labels[1..], read);
      if head.None? || tail.None? then None else Some([head.value] + tail.value)
  }

  /** The first bucket holding the value, as both the forecast and the settlement look it up. */
  function FirstContaining(bs: seq<Bucket>, value: real): (r: Option<Bucket>)
    ensures r.Some? ==> r.value in bs && r.value.Contains(value)
    ensures r.None? <==> Hits(bs, value) == 0
  {
    if bs == [] then None else if bs[0].Contains(value) then Some(bs[0]) else FirstContaining(bs[1..], value)
  }

  /** A signal on `title` resolves YES for a rounded reading. */
  predicate SettlesYes(title: string, buckets: seq<Bucket>, reading: real) {
    var b := FirstContaining(buckets, reading);
    b.Some? && CanonicalLabel(title) == CanonicalLabel(b.value.title)
  }

  /** The bucket the look-up finds is the first that holds the value. */
  ghost predicate FirstHolds(bs: seq<Bucket>, value: real, i: int) {
    0 <= i < |bs| && bs[i].Contains(value) && forall j :: 0 <= j < i ==> !bs[j].Contains(value)
  }

  lemma {:induction false} FoundIsFirst(bs: seq<Bucket>, value: real)
    ensures FirstContaining(bs, value).Some? ==> exists i :: FirstHolds(bs, value, i) && FirstContaining(bs, value) == Some(bs[i])
  {
    if bs != [] && bs[0].Contains(value) {
      assert FirstHolds(bs, value, 0);
    } else if bs != [] {
      FoundIsFirst(bs[1..], value);
      if FirstContaining(bs[1..], value).Some? {
        var i :| FirstHolds(bs[1..], value, i) && FirstContaining(bs[1..], value) == Some(bs[1..][i]);
        assert FirstHolds(bs, value, i + 1);
      }
    }
  }

  /** A signal settles YES exactly when its label is that of the first bucket that holds the reading. */
  lemma SettlesYesMeaning(title: string, bs: seq<Bucket>, reading: real)
    ensures SettlesYes(title, bs, reading) <==>
      exists i :: FirstHolds(bs, reading, i) && CanonicalLabel(title) == CanonicalLabel(bs[i].title)
  {
    hide CanonicalLabel, FirstContaining;
    FoundIsFirst(bs, reading);
    if exists i :: FirstHolds(bs, reading, i) {
      var i :| FirstHolds(bs, reading, i);
      HolderFound(bs, reading, i);
      var k :| FirstHolds(bs, reading, k) && FirstContaining(bs, reading) == Some(bs[k]);
      assert forall m :: FirstHolds(bs, reading, m) ==> !(m < k) && !(k < m);
    }
  }

  lemma {:induction false} HolderFound(bs: seq<Bucket>, value: real, i: nat)
    requires i < |bs| && bs[i].Contains(value)
    ensures FirstContaining(bs, value).Some?
  {
    if !bs[0].Contains(value) {
      HolderFound(bs[1..], value, i - 1);
    }
  }

  // ---- What a bucket holds ----

  /** Everything strictly between the ends, nothing beyond them, and an end exactly when it is included. */
  lemma BucketHolds(b: Bucket, value: real)
    ensures b.lower.Some? && value < b.lower.value ==> !b.Contains(value)
    ensures b.upper.Some? && b.upper.value < value ==> !b.Contains(value)
    ensures (b.lower.None? || b.lower.value < value) && (b.upper.None? || value < b.upper.value) ==> b.Contains(value)
    ensures b.lower == Some(value) && (b.upper.None? || value < b.upper.value) ==> (b.Contains(value) <==> b.lowerInclusive)
    ensures b.upper == Some(value) && (b.lower.None? || b.lower.value < value) ==> (b.Contains(value) <==> b.upperInclusive)
    ensures b.lower == Some(value) && b.upper == Some(value) ==> (b.Contains(value) <==> b.lowerInclusive && b.upperInclusive)
  {
  }

  /** A parsed label holds the values its direction names, its own value included, and keeps its text. */
  lemma ParsedHolds(text: string, read: string -> Option<Shape>, value: real)
    ensures ParseBucket(text, read).None? <==> read(CanonicalLabel(text)).None?
    ensures ParseBucket(text, read).Some? ==> ParseBucket(text, read).value.title == text
    ensures ParseBucket(text, read).Some? ==>
      (ParseBucket(text, read).value.Contains(value) <==>
        match read(CanonicalLabel(text)).value
        case AtMost(v) => value <= v
        case AtLeast(v) => value >= v
        case Exactly(v) => value == v)
  {
  }

  lemma ParsedInclusive(labels: seq<string>, read: string -> Option<Shape>)
    requires ParseAll(labels, read).Some?
    ensures AllInclusive(ParseAll(labels, read).value)
  {
    hide CanonicalLabel;
    var bs := ParseAll(labels, read).value;
    forall b | b in bs ensures b.lowerInclusive && b.upperInclusive {
      var i :| 0 <= i < |bs| && bs[i] == b;
      assert ParseBucket(labels[i], read) == Some(b);
    }
  }

  /** In an accepted family on whole bounds, the look-up finds the only bucket that holds the reading. */
  lemma LookupFindsTheOne(bs: seq<Bucket>, n: int) returns (winner: nat)
    requires AllInclusive(bs) && AllIntegral(bs) && ValidateComplete(bs).Ok?
    ensures winner < |bs| && bs[winner].Contains(n as real)
    ensures FirstContaining(ValidateComplete(bs).value, n as real) == Some(bs[winner])
    ensures forall j :: 0 <= j < |bs| && bs[j].Contains(n as real) ==> j == winner
  {
    AcceptedPartitionsIff(bs);
    assert HeldOnce(bs, n);
    SortedKeeps(bs, n as real);
    SortedSameBuckets(bs);
    winner := HitsOne(bs, n as real);
  }

  lemma SameLabelSameBounds(x: string, xb: Bucket, y: string, yb: Bucket, read: string -> Option<Shape>, v: real)
    requires ParseBucket(x, read) == Some(xb) && ParseBucket(y, read) == Some(yb)
    ensures xb.title == x && yb.title == y
    ensures CanonicalLabel(x) == CanonicalLabel(y) ==> xb.Contains(v) == yb.Contains(v)
  {
  }

  /**
   * For an accepted event on whole bounds, every whole-degree reading settles exactly one of the event's
   * labels YES and all the others NO, although the check never compares labels.
   */
  lemma ExactlyOneLabelSettlesYes(labels: seq<string>, read: string -> Option<Shape>, n: int) returns (winner: nat)
    requires ParseAll(labels, read).Some? && AllIntegral(ParseAll(labels, read).value)
    requires ValidateComplete(ParseAll(labels, read).value).Ok?
    ensures winner < |labels|
    ensures forall j :: 0 <= j < |labels| ==> (ParseAll(labels, read).value[j].Contains(n as real) <==> j == winner)
    ensures forall j :: 0 <= j < |labels| ==>
      (SettlesYes(labels[j], ValidateComplete(ParseAll(labels, read).value).value, n as real) <==> j == winner)
  {
    hide CanonicalLabel;
    var bs := ParseAll(labels, read).value;
    ParsedInclusive(labels, read);
    winner := LookupFindsTheOne(bs, n);
    forall j | 0 <= j < |labels|
      ensures SettlesYes(labels[j], ValidateComplete(bs).value, n as real) <==> j == winner
    {
      SameLabelSameBounds(labels[j], bs[j], labels[winner], bs[winner], read, n as real);
    }
  }
}
