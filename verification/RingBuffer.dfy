/** A buffer of the most recent values, with long-term extremes, against the full history of what was put. */
module RingBuffer {
  import opened Bytes

  datatype Ring = Ring(
    index: nat, size: nat, buffer: seq<nat>, longTermMax: Option<nat>, longTermMin: Option<nat>)

  datatype Stats = Stats(longTermMax: nat, longTermMin: nat, min: nat, max: nat, total: nat, count: nat)

  function Max2(a: nat, b: nat): nat {
    if a <= b then b else a
  }

  function Min2(a: nat, b: nat): nat {
    if a <= b then a else b
  }

  function UnwrapOrDefault(o: Option<nat>): nat {
    if o.Some? then o.value else 0
  }

  function Sum(s: seq<nat>): nat {
    if s == [] then 0 else s[0] + Sum(s[1..])
  }

  /** The greatest element, or 0 of nothing. */
  function Max(s: seq<nat>): nat {
    if s == [] then 0 else Max2(s[0], Max(s[1..]))
  }

  /** The least element, or 0 of nothing. */
  function Min(s: seq<nat>): nat {
    if s == [] then 0 else if |s| == 1 then s[0] else Min2(s[0], Min(s[1..]))
  }

  // ---- Specification -------------------------------------------------------

  function Empty(size: nat): Ring {
    Ring(0, size, [], None, None)
  }

  /** The slot that the next value goes to: the end of the buffer, or the start again when it is full. */
  function Slot(r: Ring): nat {
    if r.index == r.size then 0 else r.index
  }

  function AfterPut(r: Ring, v: nat): Ring
    requires Slot(r) <= |r.buffer|
  {
    var i := Slot(r);
    Ring(i + 1, r.size,
         if i == |r.buffer| then r.buffer + [v] else r.buffer[i := v],
         Some(Max2(if r.longTermMax.Some? then r.longTermMax.value else v, v)),
         Some(Min2(if r.longTermMin.Some? then r.longTermMin.value else v, v)))
  }

  /** The last values put, oldest first: all of them, or as many as fit. */
  function LastOf(size: nat, h: seq<nat>): seq<nat> {
    if |h| <= size then h else h[|h| - size..]
  }

  function RotateLeft(s: seq<nat>, k: nat): seq<nat>
    requires k <= |s|
  {
    s[k..] + s[..k]
  }

  /** What the buffer is after the puts of h: until it is full, h itself; from then on the last values,
      rotated so that the newest ends just before the index. */
  ghost predicate Abbreviates(r: Ring, h: seq<nat>) {
    && 0 < r.size
    && (if |h| < r.size then r.index == |h| else 1 <= r.index <= r.size)
    && r.buffer == RotateLeft(LastOf(r.size, h), Shift(r, h))
    && r.longTermMax == (if h == [] then None else Some(Max(h)))
    && r.longTermMin == (if h == [] then None else Some(Min(h)))
  }

  function Shift(r: Ring, h: seq<nat>): (k: nat)
    ensures k <= |LastOf(r.size, h)|
  {
    if |h| < r.size || r.index > r.size then 0 else r.size - r.index
  }

  /** While it fills, the buffer is the history. */
  lemma FillingPut(r: Ring, h: seq<nat>, v: nat)
    requires Abbreviates(r, h) && |h| < r.size
    ensures Slot(r) == |r.buffer| == |h|
    ensures AfterPut(r, v).buffer == RotateLeft(LastOf(r.size, h + [v]), Shift(AfterPut(r, v), h + [v]))
  {
    hide Max, Min;
    assert r.buffer == h;
    assert AfterPut(r, v).buffer == h + [v];
    assert LastOf(r.size, h + [v]) == h + [v] && Shift(AfterPut(r, v), h + [v]) == 0;
  }

  /** Once it is full, the new value takes the place of the oldest. */
  lemma FullPut(r: Ring, h: seq<nat>, v: nat)
    requires Abbreviates(r, h) && r.size <= |h|
    ensures Slot(r) < |r.buffer| == r.size
    ensures AfterPut(r, v).buffer == RotateLeft(LastOf(r.size, h + [v]), Shift(AfterPut(r, v), h + [v]))
  {
    hide Max, Min, RotateLeft;
    var last := LastOf(r.size, h);
    assert LastOf(r.size, h + [v]) == last[1..] + [v];
    hide LastOf;
    if r.index == r.size {
      WriteAtStart(last, v);
    } else {
      WriteBehind(last, v, r.size - r.index);
    }
  }

  lemma WriteAtStart(s: seq<nat>, v: nat)
    requires s != []
    ensures |RotateLeft(s, 0)| == |s| && RotateLeft(s, 0)[0 := v] == RotateLeft(s[1..] + [v], |s| - 1)
  {
    var s' := s[1..] + [v];
    assert s'[|s| - 1..] == [v] && s'[..|s| - 1] == s[1..];
  }

  lemma WriteBehind(s: seq<nat>, v: nat, k: nat)
    requires 0 < k < |s|
    ensures |RotateLeft(s, k)| == |s| && RotateLeft(s, k)[|s| - k := v] == RotateLeft(s[1..] + [v], k - 1)
  {
    var s' := s[1..] + [v];
    assert s'[k - 1..] == s[k..] + [v] && s'[..k - 1] == s[1..k];
  }

  /** The write is always in range, and the buffer again abbreviates the history. */
  lemma PutAbbreviates(r: Ring, h: seq<nat>, v: nat)
    requires Abbreviates(r, h)
    ensures Slot(r) <= |r.buffer| <= r.size && Slot(r) < r.size
    ensures Abbreviates(AfterPut(r, v), h + [v])
  {
    ExtremesSnoc(h, v);
    if |h| < r.size {
      FillingPut(r, h, v);
    } else {
      FullPut(r, h, v);
    }
    hide Max, Min, RotateLeft, LastOf, Shift;
  }

  // ---- Sums and extremes ---------------------------------------------------

  /** The total of no values is zero, and one more value adds itself. */
  lemma SumIsTotal(s: seq<nat>, v: nat)
    ensures Sum([]) == 0 && Sum(s + [v]) == Sum(s) + v
  {
    SumAppend(s, [v]);
    assert [v][1..] == [];
  }

  lemma {:induction false} SumAppend(a: seq<nat>, b: seq<nat>)
    ensures Sum(a + b) == Sum(a) + Sum(b)
  {
    if a == [] {
      assert a + b == b;
    } else {
      assert (a + b)[1..] == a[1..] + b;
      SumAppend(a[1..], b);
    }
  }

  /** Max(s) is in s and at least every element. */
  lemma {:induction false} MaxIsGreatest(s: seq<nat>)
    requires s != []
    ensures Max(s) in s && forall x :: x in s ==> x <= Max(s)
  {
    if |s| > 1 {
      MaxIsGreatest(s[1..]);
      assert s == [s[0]] + s[1..];
    }
  }

  lemma {:induction false} MinIsLeast(s: seq<nat>)
    requires s != []
    ensures Min(s) in s && forall x :: x in s ==> Min(s) <= x
  {
    if |s| > 1 {
      MinIsLeast(s[1..]);
      assert s == [s[0]] + s[1..];
    }
  }

  lemma ExtremesSnoc(h: seq<nat>, v: nat)
    ensures Max(h + [v]) == if h == [] then v else Max2(Max(h), v)
    ensures Min(h + [v]) == if h == [] then v else Min2(Min(h), v)
  {
    MaxIsGreatest(h + [v]);
    MinIsLeast(h + [v]);
    if h != [] {
      MaxIsGreatest(h);
      MinIsLeast(h);
    }
    assert v in h + [v];
    assert forall x :: x in h ==> x in h + [v];
  }

  lemma SameElements(a: seq<nat>, b: seq<nat>)
    requires (forall x :: x in a <==> x in b) && |a| == |b|
    ensures Max(a) == Max(b) && Min(a) == Min(b)
  {
    if a != [] {
      MaxIsGreatest(a);
      MinIsLeast(a);
      MaxIsGreatest(b);
      MinIsLeast(b);
    }
  }

  // ---- Statistics ----------------------------------------------------------

  function StatsOf(r: Ring): Stats {
    Stats(UnwrapOrDefault(r.longTermMax), UnwrapOrDefault(r.longTermMin),
          Min(r.buffer), Max(r.buffer), Sum(r.buffer), |r.buffer|)
  }

  /** The contents are the last values put, rotated, and so with the same total and extremes. */
  lemma ContentsAreLast(r: Ring, h: seq<nat>)
    requires Abbreviates(r, h)
    ensures |r.buffer| == (if |h| <= r.size then |h| else r.size)
    ensures multiset(r.buffer) == multiset(LastOf(r.size, h))
    ensures Sum(r.buffer) == Sum(LastOf(r.size, h))
    ensures Max(r.buffer) == Max(LastOf(r.size, h)) && Min(r.buffer) == Min(LastOf(r.size, h))
  {
    var last, k := LastOf(r.size, h), Shift(r, h);
    assert last == last[..k] + last[k..];
    SumAppend(last[..k], last[k..]);
    SumAppend(last[k..], last[..k]);
    forall x
      ensures x in r.buffer <==> x in last
    {
      assert x in r.buffer <==> x in multiset(r.buffer);
      assert x in last <==> x in multiset(last);
    }
    SameElements(r.buffer, last);
  }

  /** The statistics are those of the history: total, extremes and count of the last values that fit, and
      long-term extremes of everything ever put. */
  lemma StatsAgreeWithHistory(r: Ring, h: seq<nat>)
    requires Abbreviates(r, h)
    ensures var last := LastOf(r.size, h);
            StatsOf(r) == Stats(Max(h), Min(h), Min(last), Max(last), Sum(last), |last|)
    ensures var s := StatsOf(r);
            h != [] ==> s.longTermMin <= s.min <= s.max <= s.longTermMax
    ensures var s, last := StatsOf(r), LastOf(r.size, h);
            if h == [] then s == Stats(0, 0, 0, 0, 0, 0)
            else
              && s.longTermMin in h && s.longTermMax in h
              && (forall x :: x in h ==> s.longTermMin <= x <= s.longTermMax)
              && s.min in last && s.max in last && (forall x :: x in last ==> s.min <= x <= s.max)
  {
    ContentsAreLast(r, h);
    var last := LastOf(r.size, h);
    if h != [] {
      MaxIsGreatest(h);
      MinIsLeast(h);
      MaxIsGreatest(last);
      MinIsLeast(last);
      assert forall x :: x in last ==> x in h;
    }
  }

  // ---- The object ----------------------------------------------------------

  class RingBuffer {
    var index: nat
    const size: nat
    var buffer: seq<nat>
    var longTermMax: Option<nat>
    var longTermMin: Option<nat>
    ghost var history: seq<nat>

    function View(): Ring
      reads this
    {
      Ring(index, size, buffer, longTermMax, longTermMin)
    }

    ghost predicate Valid()
      reads this
    {
      Abbreviates(View(), history)
    }

    constructor (size: nat)
      requires 0 < size
      ensures Valid() && history == [] && this.size == size
    {
      this.size := size;
      index, buffer := 0, [];
      longTermMax, longTermMin := None, None;
      history := [];
    }

    method Put(value: nat)
      requires Valid()
      modifies this
      ensures Valid() && history == old(history) + [value]
    {
      PutAbbreviates(View(), history, value);
      ghost var next := AfterPut(View(), value);
      if index == size {
        index := 0;
      }
      if index == |buffer| {
        buffer := buffer + [value];
      } else {
        buffer := buffer[index := value];
      }
      index := index + 1;
      var max := if longTermMax.Some? then longTermMax.value else value;
      longTermMax := Some(Max2(max, value));
      var min := if longTermMin.Some? then longTermMin.value else value;
      longTermMin := Some(Min2(min, value));
      history := history + [value];
      assert View() == next;
    }

    method GetStats() returns (stats: Stats)
      requires Valid()
      ensures var last := LastOf(size, history);
              stats == Stats(Max(history), Min(history), Min(last), Max(last), Sum(last), |last|)
    {
      StatsAgreeWithHistory(View(), history);
      stats := Stats(UnwrapOrDefault(longTermMax), UnwrapOrDefault(longTermMin), Min(buffer), Max(buffer), Sum(buffer),
                     |buffer|);
    }
  }
}
