/** The bucketed counter of src/util/Histogram.ts. Its buckets are kept under
    string keys built from two bounds, and every logged value parses them again. */
module Histogram {

  /** A JavaScript number. A finite one stands for the decimal that it is printed as. */
  datatype Number = MinusInfinity | Finite(r: real) | Infinity | NaN

  predicate Less(a: Number, b: Number) {
    match a
    case MinusInfinity => b.Finite? || b.Infinity?
    case Finite(r) => b.Infinity? || (b.Finite? && r < b.r)
    case _ => false
  }

  predicate AtMost(a: Number, b: Number) {
    Less(a, b) || (a == b && !a.NaN?)
  }

  /** The key `${start}-${end}`. The text determines the two numbers, so they stand for it. */
  datatype Key = Key(start: Number, end: Number)

  datatype Bucket = Bucket(key: Key, count: nat)

  /** Below this a positive number is printed with an exponent, as in 1e-7. */
  const SMALLEST_PLAIN: real := 0.000001

  /** The exponent, without its sign, that a number below 10 to the -6 is printed with. */
  function Exponent(r: real, power: real, e: nat): nat
    decreases 400 - e
  {
    if 400 <= e || power <= r then e else Exponent(r, power / 10.0, e + 1)
  }

  /** What splitting a printed number at its hyphens and reading the pieces gives. A minus sign and the sign
      of an exponent are hyphens too; the empty piece before a minus sign reads as zero, and a piece that
      ends in "e" as no number. */
  function Pieces(x: Number): (ps: seq<Number>)
    ensures |ps| > 0
  {
    match x
    case MinusInfinity => [Finite(0.0), Infinity]
    case Finite(r) =>
      if r < 0.0 then [Finite(0.0)] + PositivePieces(-r) else PositivePieces(r)
    case _ => [x]
  }

  function PositivePieces(r: real): (ps: seq<Number>)
    ensures |ps| > 0
  {
    if 0.0 < r < SMALLEST_PLAIN then [NaN, Finite(Exponent(r, 0.0000001, 7) as real)] else [Finite(r)]
  }

  /** The first two pieces of a key. */
  function ParseKey(key: Key): (Number, Number) {
    var pieces := Pieces(key.start) + Pieces(key.end);
    (pieces[0], pieces[1])
  }

  /** A next bound that JavaScript takes for false counts as a missing one. */
  function KeyAt(bounds: seq<Number>, i: nat): Key
    requires i < |bounds|
  {
    Key(bounds[i],
        if i + 1 < |bounds| && bounds[i + 1] != Finite(0.0) && bounds[i + 1] != NaN then bounds[i + 1] else Infinity)
  }

  /** A next bound of zero leaves a range open: with the bounds 5 and 0, every value from 5 on is taken first by
      the first bucket. */
  lemma ZeroLeavesRangeOpen(value: Number)
    requires AtMost(Finite(5.0), value) && Less(value, Infinity)
    ensures FirstMatch(InitialBuckets([Finite(5.0), Finite(0.0)], 2), NumberComparator(), value) == 0
  {
    var bounds := [Finite(5.0), Finite(0.0)];
    hide Exponent, Less;
    assert KeyAt(bounds, 0) == Key(Finite(5.0), Infinity) && KeyAt(bounds, 1) == Key(Finite(0.0), Infinity);
    assert InitialBuckets(bounds, 1) == [Bucket(KeyAt(bounds, 0), 0)];
    NewKeyGoesLast(InitialBuckets(bounds, 1), KeyAt(bounds, 1));
    assert ParseKey(KeyAt(bounds, 0)) == (Finite(5.0), Infinity);
  }

  function TenToMinus(e: nat): real {
    if e == 0 then 1.0 else TenToMinus(e - 1) / 10.0
  }

  /** The exponent is the one that leaves a digit from 1 to 9 before the point. */
  lemma {:induction false} ExponentIs(r: real, power: real, e: nat)
    requires power == TenToMinus(e) && 0.0 < r < 10.0 * power && e < 400
    ensures var x := Exponent(r, power, e); x < 400 ==> TenToMinus(x) <= r < 10.0 * TenToMinus(x)
    decreases 400 - e
  {
    if r < power && e + 1 < 400 {
      ExponentIs(r, power / 10.0, e + 1);
    }
  }

  /** Setting a key of an insertion-ordered map: in place if it is there, else at the end. */
  function SetCount(buckets: seq<Bucket>, key: Key, count: nat): (r: seq<Bucket>) {
    if buckets == [] then [Bucket(key, count)]
    else if buckets[0].key == key then [Bucket(key, count)] + buckets[1..]
    else [buckets[0]] + SetCount(buckets[1..], key, count)
  }

  function InitialBuckets(bounds: seq<Number>, n: nat): seq<Bucket>
    requires n <= |bounds|
  {
    if n == 0 then [] else SetCount(InitialBuckets(bounds, n - 1), KeyAt(bounds, n - 1), 0)
  }

  /** The position of the first bucket that takes the value, or the number of buckets. */
  function FirstMatch<T>(buckets: seq<Bucket>, comparator: (T, Number, Number) -> bool, value: T): (i: nat)
    ensures i <= |buckets|
    ensures forall j :: 0 <= j < i ==> !Takes(buckets[j], comparator, value)
    ensures i < |buckets| ==> Takes(buckets[i], comparator, value)
  {
    if buckets == [] || Takes(buckets[0], comparator, value) then 0
    else 1 + FirstMatch(buckets[1..], comparator, value)
  }

  predicate Takes<T>(entry: Bucket, comparator: (T, Number, Number) -> bool, value: T) {
    var range := ParseKey(entry.key);
    comparator(value, range.0, range.1)
  }

  function Logged<T>(buckets: seq<Bucket>, comparator: (T, Number, Number) -> bool, value: T): seq<Bucket> {
    var i := FirstMatch(buckets, comparator, value);
    if i == |buckets| then buckets else buckets[i := buckets[i].(count := buckets[i].count + 1)]
  }

  function Cleared(buckets: seq<Bucket>): seq<Bucket> {
    seq(|buckets|, i requires 0 <= i < |buckets| => buckets[i].(count := 0))
  }

  ghost predicate DistinctRanges(buckets: seq<Bucket>) {
    forall i, j :: 0 <= i < j < |buckets| ==> buckets[i].key != buckets[j].key
  }

  lemma {:induction false} SetCountOnMap(buckets: seq<Bucket>, key: Key, count: nat)
    requires DistinctRanges(buckets)
    ensures var r := SetCount(buckets, key, count);
            if exists i :: 0 <= i < |buckets| && buckets[i].key == key
            then |r| == |buckets| && forall i :: 0 <= i < |buckets| ==>
                   r[i] == if buckets[i].key == key then Bucket(key, count) else buckets[i]
            else r == buckets + [Bucket(key, count)]
    ensures DistinctRanges(SetCount(buckets, key, count))
  {
    if buckets != [] && buckets[0].key != key {
      var rest := buckets[1..];
      SetCountOnMap(rest, key, count);
      assert forall i :: 0 < i < |buckets| ==> buckets[i] == rest[i - 1];
      if i :| 0 <= i < |rest| && rest[i].key == key {
        assert buckets[i + 1].key == key;
      }
    }
  }

  lemma SetCountInPlace(buckets: seq<Bucket>, i: nat, count: nat)
    requires DistinctRanges(buckets) && i < |buckets|
    ensures SetCount(buckets, buckets[i].key, count) == buckets[i := buckets[i].(count := count)]
    ensures DistinctRanges(buckets[i := buckets[i].(count := count)])
  {
    SetCountOnMap(buckets, buckets[i].key, count);
  }

  lemma FirstMatchIs<T>(buckets: seq<Bucket>, comparator: (T, Number, Number) -> bool, value: T, i: nat)
    requires i <= |buckets| && forall j :: 0 <= j < i ==> !Takes(buckets[j], comparator, value)
    requires i < |buckets| ==> Takes(buckets[i], comparator, value)
    ensures FirstMatch(buckets, comparator, value) == i
  {
    hide Takes;
  }

  class Histogram<!T> {
    const bucketRanges: seq<Number>
    const comparator: (T, Number, Number) -> bool
    var buckets: seq<Bucket>

    ghost predicate Valid()
      reads this
    {
      DistinctRanges(buckets)
    }

    constructor (bucketRanges: seq<Number>, comparator: (T, Number, Number) -> bool)
      ensures Valid() && this.bucketRanges == bucketRanges && this.comparator == comparator
      ensures buckets == InitialBuckets(bucketRanges, |bucketRanges|)
    {
      this.bucketRanges := bucketRanges;
      this.comparator := comparator;
      this.buckets := [];
      new;
      InitializeBuckets();
    }

    method InitializeBuckets()
      requires buckets == []
      modifies this`buckets
      ensures Valid()
      ensures buckets == InitialBuckets(bucketRanges, |bucketRanges|)
    {
      for i := 0 to |bucketRanges|
        invariant Valid()
        invariant buckets == InitialBuckets(bucketRanges, i)
      {
        var rangeEnd := Infinity;
        if i + 1 < |bucketRanges| && bucketRanges[i + 1] != Finite(0.0) && bucketRanges[i + 1] != NaN {
          rangeEnd := bucketRanges[i + 1];
        }
        SetCountOnMap(buckets, Key(bucketRanges[i], rangeEnd), 0);
        buckets := SetCount(buckets, Key(bucketRanges[i], rangeEnd), 0);
      }
    }

    method LogData(value: T)
      requires Valid()
      modifies this`buckets
      ensures Valid()
      ensures buckets == Logged(old(buckets), comparator, value)
    {
      var i := 0;
      while i < |buckets|
        invariant i <= |buckets|
        invariant buckets == old(buckets)
        invariant forall j :: 0 <= j < i ==> !Takes(buckets[j], comparator, value)
      {
        var range := ParseKey(buckets[i].key);
        if comparator(value, range.0, range.1) {
          SetCountInPlace(buckets, i, buckets[i].count + 1);
          buckets := SetCount(buckets, buckets[i].key, buckets[i].count + 1);
          break;
        }
        i := i + 1;
      }
      FirstMatchIs(old(buckets), comparator, value, i);
    }

    method ClearHistogram()
      requires Valid()
      modifies this`buckets
      ensures Valid()
      ensures buckets == Cleared(old(buckets))
    {
      var i := 0;
      while i < |buckets|
        invariant Valid()
        invariant i <= |buckets| == old(|buckets|)
        invariant forall j :: 0 <= j < |buckets| ==>
          buckets[j] == if j < i then old(buckets)[j].(count := 0) else old(buckets)[j]
      {
        SetCountOnMap(buckets, buckets[i].key, 0);
        buckets := SetCount(buckets, buckets[i].key, 0);
        i := i + 1;
      }
    }
  }

  // ---- What the counts mean ----

  datatype Event<T> = Log(value: T) | Clear

  function Run<T>(buckets: seq<Bucket>, comparator: (T, Number, Number) -> bool, events: seq<Event<T>>): seq<Bucket> {
    if events == [] then buckets
    else
      var before := Run(buckets, comparator, events[..|events| - 1]);
      match events[|events| - 1]
      case Log(value) => Logged(before, comparator, value)
      case Clear => Cleared(before)
  }

  function SinceLastClear<T>(events: seq<Event<T>>): seq<T> {
    if events == [] || events[|events| - 1].Clear? then []
    else SinceLastClear(events[..|events| - 1]) + [events[|events| - 1].value]
  }

  /** The comparator of the number histogram. */
  function NumberComparator(): (Number, Number, Number) -> bool {
    (value: Number, start: Number, end: Number) => AtMost(start, value) && Less(value, end)
  }

  ghost predicate StrictlyAscending(bounds: seq<Number>) {
    forall i, j :: 0 <= i < j < |bounds| ==> Less(bounds[i], bounds[j])
  }

  /** The half-open range that the i-th bound opens; the last one goes up to infinity. */
  predicate InRange(bounds: seq<Number>, i: nat, value: Number)
    requires i < |bounds|
  {
    AtMost(bounds[i], value) && Less(value, if i + 1 < |bounds| then bounds[i + 1] else Infinity)
  }

  /** Printed without a hyphen: neither negative nor so small that it takes an exponent. */
  predicate Plain(x: Number) {
    match x
    case MinusInfinity => false
    case Finite(r) => r == 0.0 || SMALLEST_PLAIN <= r
    case _ => true
  }

  ghost predicate AllPlain(bounds: seq<Number>) {
    forall i :: 0 <= i < |bounds| ==> Plain(bounds[i])
  }

  function CountInRange(bounds: seq<Number>, i: nat, values: seq<Number>): nat
    requires i < |bounds|
  {
    if values == [] then 0
    else CountInRange(bounds, i, values[..|values| - 1]) + (if InRange(bounds, i, values[|values| - 1]) then 1 else 0)
  }

  /** How many values are at or above first, and not infinite. */
  function CountFrom(first: Number, values: seq<Number>): nat {
    if values == [] then 0
    else CountFrom(first, values[..|values| - 1]) + (if Above(first, values[|values| - 1]) then 1 else 0)
  }

  predicate Above(first: Number, value: Number) {
    AtMost(first, value) && Less(value, Infinity)
  }

  function Total(buckets: seq<Bucket>): nat {
    if buckets == [] then 0 else Total(buckets[..|buckets| - 1]) + buckets[|buckets| - 1].count
  }

  lemma {:induction false} NewKeyGoesLast(buckets: seq<Bucket>, key: Key)
    requires forall i :: 0 <= i < |buckets| ==> buckets[i].key != key
    ensures SetCount(buckets, key, 0) == buckets + [Bucket(key, 0)]
  {
    if buckets != [] {
      NewKeyGoesLast(buckets[1..], key);
    }
  }

  lemma {:induction false} AscendingBuckets(bounds: seq<Number>, n: nat)
    requires StrictlyAscending(bounds) && n <= |bounds|
    ensures |InitialBuckets(bounds, n)| == n
    ensures forall i :: 0 <= i < n ==> InitialBuckets(bounds, n)[i] == Bucket(KeyAt(bounds, i), 0)
  {
    if n > 0 {
      AscendingBuckets(bounds, n - 1);
      var before, key := InitialBuckets(bounds, n - 1), KeyAt(bounds, n - 1);
      forall i | 0 <= i < n - 1
        ensures before[i].key != key
      {
        assert Less(bounds[i], bounds[n - 1]);
      }
      hide KeyAt, StrictlyAscending, SetCount;
      NewKeyGoesLast(before, key);
    }
  }

  ghost predicate KeysOf(buckets: seq<Bucket>, bounds: seq<Number>) {
    |buckets| == |bounds| && forall i :: 0 <= i < |bounds| ==> buckets[i].key == KeyAt(bounds, i)
  }

  /** A plain bound and a plain next bound are read back as they were. */
  lemma PlainKeyReadsBack(bounds: seq<Number>, i: nat)
    requires StrictlyAscending(bounds) && AllPlain(bounds) && i < |bounds|
    ensures ParseKey(KeyAt(bounds, i)) == (bounds[i], if i + 1 < |bounds| then bounds[i + 1] else Infinity)
  {
    hide Exponent;
    if i + 1 < |bounds| {
      assert Less(bounds[i], bounds[i + 1]);
    }
  }

  /** Any other bound makes its bucket miss that bound itself. */
  lemma OtherKeyMissesItsBound(bounds: seq<Number>, i: nat)
    requires i < |bounds| && !Plain(bounds[i])
    ensures var range := ParseKey(KeyAt(bounds, i)); !NumberComparator()(bounds[i], range.0, range.1)
  {
    hide Exponent;
  }

  lemma TakesIffInRange(bounds: seq<Number>, buckets: seq<Bucket>, value: Number, i: nat)
    requires StrictlyAscending(bounds) && AllPlain(bounds) && KeysOf(buckets, bounds) && i < |bounds|
    ensures Takes(buckets[i], NumberComparator(), value) <==> InRange(bounds, i, value)
  {
    hide ParseKey;
    PlainKeyReadsBack(bounds, i);
  }

  lemma RangesDisjoint(bounds: seq<Number>, value: Number, i: nat, j: nat)
    requires StrictlyAscending(bounds) && i < j < |bounds|
    ensures !(InRange(bounds, i, value) && InRange(bounds, j, value))
  {
    assert i + 1 < j ==> Less(bounds[i + 1], bounds[j]);
  }

  lemma RangeIsAbove(bounds: seq<Number>, value: Number, i: nat)
    requires StrictlyAscending(bounds) && i < |bounds| && InRange(bounds, i, value)
    ensures Above(bounds[0], value)
  {
    assert i > 0 ==> Less(bounds[0], bounds[i]);
  }

  /** Which bucket takes a value: the one whose half-open range holds it. */
  lemma ValueFindsItsRange(bounds: seq<Number>, buckets: seq<Bucket>, value: Number, i: nat)
    requires StrictlyAscending(bounds) && AllPlain(bounds) && KeysOf(buckets, bounds) && i < |bounds|
    ensures FirstMatch(buckets, NumberComparator(), value) == i <==> InRange(bounds, i, value)
    ensures FirstMatch(buckets, NumberComparator(), value) == |bounds| <==> !Above(bounds[0], value)
  {
    hide InRange, Takes, NumberComparator, StrictlyAscending, AllPlain;
    var hit := FirstMatch(buckets, NumberComparator(), value);
    TakesIffInRange(bounds, buckets, value, i);
    if hit < |bounds| {
      TakesIffInRange(bounds, buckets, value, hit);
      RangeIsAbove(bounds, value, hit);
      if i < hit {
        RangesDisjoint(bounds, value, i, hit);
      } else if hit < i {
        RangesDisjoint(bounds, value, hit, i);
      }
    } else if Above(bounds[0], value) {
      var j := SomeRangeHolds(bounds, value, |bounds|);
      TakesIffInRange(bounds, buckets, value, j);
    }
  }

  lemma {:induction false} SomeRangeHolds(bounds: seq<Number>, value: Number, n: nat) returns (i: nat)
    requires StrictlyAscending(bounds) && 0 < n <= |bounds| && Above(bounds[0], value)
    requires Less(value, if n < |bounds| then bounds[n] else Infinity)
    ensures i < |bounds| && InRange(bounds, i, value)
  {
    if AtMost(bounds[n - 1], value) {
      i := n - 1;
    } else {
      assert Less(bounds[0], bounds[n - 1]);
      i := SomeRangeHolds(bounds, value, n - 1);
    }
  }

  ghost predicate EveryValueFindsItsRange(bounds: seq<Number>) {
    forall i: nat, value: Number {:trigger InRange(bounds, i, value)} :: i < |bounds| ==>
      (FirstMatch(InitialBuckets(bounds, |bounds|), NumberComparator(), value) == i <==> InRange(bounds, i, value))
  }

  /** For ascending bounds the keys read back as the ranges they were built from, for every value, exactly
      when every bound is printed without a hyphen. */
  lemma RangesReadBackIffPlain(bounds: seq<Number>)
    requires StrictlyAscending(bounds)
    ensures EveryValueFindsItsRange(bounds) <==> AllPlain(bounds)
  {
    var buckets := InitialBuckets(bounds, |bounds|);
    AscendingBuckets(bounds, |bounds|);
    if AllPlain(bounds) {
      forall i: nat, value: Number | i < |bounds|
        ensures FirstMatch(buckets, NumberComparator(), value) == i <==> InRange(bounds, i, value)
      {
        ValueFindsItsRange(bounds, buckets, value, i);
      }
    } else {
      var i: nat :| i < |bounds| && !Plain(bounds[i]);
      OtherKeyMissesItsBound(bounds, i);
      assert i + 1 < |bounds| ==> Less(bounds[i], bounds[i + 1]);
      hide ParseKey, NumberComparator;
      assert InRange(bounds, i, bounds[i]);
      assert !Takes(buckets[i], NumberComparator(), bounds[i]);
    }
  }

  /** A negative bound is not read back. */
  lemma NegativeBoundIsMisread()
    ensures var bounds := [Finite(-5.0), Finite(3.0)];
            StrictlyAscending(bounds) && !EveryValueFindsItsRange(bounds)
  {
    var bounds := [Finite(-5.0), Finite(3.0)];
    hide EveryValueFindsItsRange;
    RangesReadBackIffPlain(bounds);
    assert !Plain(bounds[0]);
  }

  /** Nor is a tiny one: from its range, and from the range before it, no value finds a bucket. */
  lemma TinyBoundIsMisread()
    ensures var bounds := [Finite(0.0), Finite(0.0000001), Finite(1.0)];
            && StrictlyAscending(bounds) && InRange(bounds, 0, Finite(0.0)) && InRange(bounds, 1, Finite(0.5))
            && FirstMatch(InitialBuckets(bounds, 3), NumberComparator(), Finite(0.0)) == 3
            && FirstMatch(InitialBuckets(bounds, 3), NumberComparator(), Finite(0.5)) == 3
  {
    hide Exponent;
    var bounds := [Finite(0.0), Finite(0.0000001), Finite(1.0)];
    assert StrictlyAscending(bounds);
    assert ParseKey(KeyAt(bounds, 0)).1 == NaN;
    assert ParseKey(KeyAt(bounds, 1)).0 == NaN;
    assert ParseKey(KeyAt(bounds, 2)).0 == Finite(1.0);
    hide ParseKey, KeyAt, FirstMatch, InitialBuckets, StrictlyAscending;
    AscendingBuckets(bounds, 3);
  }

  lemma {:induction false} TotalAfterRaise(buckets: seq<Bucket>, i: nat)
    requires i < |buckets|
    ensures Total(buckets[i := buckets[i].(count := buckets[i].count + 1)]) == Total(buckets) + 1
  {
    var last := |buckets| - 1;
    var raised := buckets[i := buckets[i].(count := buckets[i].count + 1)];
    if i == last {
      assert raised[..last] == buckets[..last];
    } else {
      TotalAfterRaise(buckets[..last], i);
      assert raised[..last] == buckets[..last][i := buckets[i].(count := buckets[i].count + 1)];
    }
  }

  lemma {:induction false} TotalOfZeros(buckets: seq<Bucket>)
    requires forall i :: 0 <= i < |buckets| ==> buckets[i].count == 0
    ensures Total(buckets) == 0
  {
    if buckets != [] {
      TotalOfZeros(buckets[..|buckets| - 1]);
    }
  }

  /** The buckets hold exactly the given values: each bucket those in its range, all
      together those at or above the first bound. */
  ghost predicate Holds(bounds: seq<Number>, buckets: seq<Bucket>, values: seq<Number>)
    requires bounds != []
  {
    && KeysOf(buckets, bounds)
    && (forall i: nat :: i < |bounds| ==> buckets[i].count == CountInRange(bounds, i, values))
    && Total(buckets) == CountFrom(bounds[0], values)
  }

  lemma LogHolds(bounds: seq<Number>, buckets: seq<Bucket>, values: seq<Number>, value: Number)
    requires bounds != [] && StrictlyAscending(bounds) && AllPlain(bounds)
    requires Holds(bounds, buckets, values)
    ensures Holds(bounds, Logged(buckets, NumberComparator(), value), values + [value])
  {
    hide NumberComparator, StrictlyAscending, AllPlain, InRange, Above, Takes, Total;
    var raised := values + [value];
    var hit := FirstMatch(buckets, NumberComparator(), value);
    ValueFindsItsRange(bounds, buckets, value, 0);
    assert raised[..|raised| - 1] == values;
    if hit < |buckets| {
      TotalAfterRaise(buckets, hit);
    }
    forall i: nat | i < |bounds|
      ensures Logged(buckets, NumberComparator(), value)[i].count == CountInRange(bounds, i, raised)
    {
      ValueFindsItsRange(bounds, buckets, value, i);
    }
  }

  lemma StartHolds(bounds: seq<Number>)
    requires bounds != [] && StrictlyAscending(bounds)
    ensures Holds(bounds, InitialBuckets(bounds, |bounds|), [])
  {
    hide StrictlyAscending, InitialBuckets, KeyAt;
    AscendingBuckets(bounds, |bounds|);
    TotalOfZeros(InitialBuckets(bounds, |bounds|));
  }

  lemma ClearHolds(bounds: seq<Number>, buckets: seq<Bucket>, values: seq<Number>)
    requires bounds != [] && Holds(bounds, buckets, values)
    ensures Holds(bounds, Cleared(buckets), [])
  {
    hide KeyAt;
    TotalOfZeros(Cleared(buckets));
  }

  /** Over every sequence of logs and clears, each bucket holds the number of values logged since the last
      clear that lie in its range, and all buckets together the number of those at or above the first
      bound. */
  lemma {:induction false} CountsMatchTheLog(bounds: seq<Number>, events: seq<Event<Number>>)
    requires bounds != [] && StrictlyAscending(bounds) && AllPlain(bounds)
    ensures Holds(bounds, Run(InitialBuckets(bounds, |bounds|), NumberComparator(), events), SinceLastClear(events))
  {
    hide NumberComparator, StrictlyAscending, AllPlain, Holds, Logged, Cleared, InitialBuckets;
    if events == [] {
      StartHolds(bounds);
    } else {
      var init, last := events[..|events| - 1], events[|events| - 1];
      CountsMatchTheLog(bounds, init);
      var before := Run(InitialBuckets(bounds, |bounds|), NumberComparator(), init);
      match last
      case Clear => ClearHolds(bounds, before, SinceLastClear(init));
      case Log(value) => LogHolds(bounds, before, SinceLastClear(init), value);
    }
  }
}
