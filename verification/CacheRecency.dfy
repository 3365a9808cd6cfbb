/** Which connections the least-recently-used cache holds, told from the history of its uses alone. */
module CacheRecency {
  import opened Outbound
  import opened ConnectionCache

  // ---- The history ---------------------------------------------------------

  /** The number of uses up to and including the last one that names the address, or 0 if none does. */
  function LastNamed(ops: seq<CacheOp>, a: SocketAddr): (k: nat)
    ensures k <= |ops|
    ensures k > 0 ==> ops[k - 1].address == a
    ensures forall i :: k <= i < |ops| ==> ops[i].address != a
  {
    if ops == [] then 0
    else if ops[|ops| - 1].address == a then |ops|
    else LastNamed(ops[..|ops| - 1], a)
  }

  /** Asked for, and not removed since. */
  predicate Wanted(ops: seq<CacheOp>, a: SocketAddr) {
    var k := LastNamed(ops, a);
    k > 0 && ops[k - 1].Get?
  }

  /** The wanted addresses, the one asked for last first. */
  function Recency(ops: seq<CacheOp>): seq<SocketAddr> {
    if ops == [] then []
    else
      var before, last := Recency(ops[..|ops| - 1]), ops[|ops| - 1];
      (if last.Get? then [last.address] else []) + Dropped(before, last.address)
  }

  function Dropped(s: seq<SocketAddr>, a: SocketAddr): seq<SocketAddr> {
    if s == [] then [] else (if s[0] == a then [] else [s[0]]) + Dropped(s[1..], a)
  }

  lemma {:induction false} DroppedElements(s: seq<SocketAddr>, a: SocketAddr)
    requires Distinct(s)
    ensures Distinct(Dropped(s, a)) && forall x :: x in Dropped(s, a) <==> x in s && x != a
    ensures |Dropped(s, a)| == if a in s then |s| - 1 else |s|
  {
    if s != [] {
      DroppedElements(s[1..], a);
      assert forall x :: x in s <==> x == s[0] || x in s[1..];
      assert s[0] !in s[1..];
    }
  }

  lemma {:induction false} DroppedAppend(s: seq<SocketAddr>, t: seq<SocketAddr>, a: SocketAddr)
    ensures Dropped(s + t, a) == Dropped(s, a) + Dropped(t, a)
  {
    if s == [] {
      assert s + t == t;
    } else {
      assert (s + t)[1..] == s[1..] + t;
      DroppedAppend(s[1..], t, a);
    }
  }

  lemma {:induction false} NothingDropped(s: seq<SocketAddr>, a: SocketAddr)
    requires a !in s
    ensures Dropped(s, a) == s
  {
    if s != [] {
      NothingDropped(s[1..], a);
    }
  }

  /** What the list holds: exactly the wanted addresses, each once. */
  lemma {:induction false} RecencyIsWanted(ops: seq<CacheOp>)
    ensures Distinct(Recency(ops)) && forall a :: a in Recency(ops) <==> Wanted(ops, a)
  {
    if ops != [] {
      var init, last := ops[..|ops| - 1], ops[|ops| - 1];
      RecencyIsWanted(init);
      DroppedElements(Recency(init), last.address);
      assert Wanted(ops, last.address) <==> last.Get?;
      hide Dropped;
      forall a
        ensures a in Recency(ops) <==> Wanted(ops, a)
      {
        if a != last.address {
          WantedStep(ops, a);
        }
      }
    }
  }

  predicate Ordered(ops: seq<CacheOp>, s: seq<SocketAddr>) {
    forall i, j :: 0 <= i < j < |s| ==> LastNamed(ops, s[i]) > LastNamed(ops, s[j])
  }

  lemma {:induction false} OrderedCons(ops: seq<CacheOp>, x: SocketAddr, rest: seq<SocketAddr>)
    ensures Ordered(ops, [x] + rest) <==>
              Ordered(ops, rest) && forall y :: y in rest ==> LastNamed(ops, x) > LastNamed(ops, y)
  {
    hide LastNamed;
    var all := [x] + rest;
    if Ordered(ops, all) {
      forall i, j | 0 <= i < j < |rest|
        ensures LastNamed(ops, rest[i]) > LastNamed(ops, rest[j])
      {
        assert rest[i] == all[i + 1] && rest[j] == all[j + 1];
      }
      forall y | y in rest
        ensures LastNamed(ops, x) > LastNamed(ops, y)
      {
        var j :| 0 <= j < |rest| && rest[j] == y;
        assert all[0] == x && all[j + 1] == y;
      }
    }
  }

  lemma {:induction false} DroppedOrdered(ops: seq<CacheOp>, s: seq<SocketAddr>, a: SocketAddr)
    requires Ordered(ops, s)
    ensures Ordered(ops, Dropped(s, a)) && forall x :: x in Dropped(s, a) ==> x in s && x != a
  {
    hide LastNamed;
    if s != [] {
      assert s == [s[0]] + s[1..];
      OrderedCons(ops, s[0], s[1..]);
      hide Ordered;
      DroppedOrdered(ops, s[1..], a);
      OrderedCons(ops, s[0], Dropped(s[1..], a));
    }
  }

  /** And in which order: by the last use, the latest first. */
  lemma {:induction false} RecencyIsOrdered(ops: seq<CacheOp>)
    ensures Ordered(ops, Recency(ops))
  {
    if ops != [] {
      var init, last := ops[..|ops| - 1], ops[|ops| - 1];
      RecencyIsOrdered(init);
      DroppedOrdered(init, Recency(init), last.address);
      var rest := Dropped(Recency(init), last.address);
      forall i | 0 <= i < |rest|
        ensures LastNamed(ops, rest[i]) == LastNamed(init, rest[i])
      {
        assert rest[i] in rest;
      }
      assert LastNamed(ops, last.address) == |ops|;
      hide Dropped;
    }
  }

  // ---- The cache -----------------------------------------------------------

  function Addresses(entries: seq<Entry>): seq<SocketAddr> {
    seq(|entries|, i requires 0 <= i < |entries| => entries[i].address)
  }

  /** The entries are the beginning of the list. */
  ghost predicate IsBeginning(entries: seq<Entry>, recency: seq<SocketAddr>) {
    |entries| <= |recency| && forall i :: 0 <= i < |entries| ==> entries[i].address == recency[i]
  }

  lemma {:induction false} DroppedInside(r: seq<SocketAddr>, i: nat)
    requires Distinct(r) && i < |r|
    ensures Dropped(r, r[i]) == r[..i] + r[i + 1..]
  {
    var a, before, after := r[i], r[..i], r[i + 1..];
    assert a !in before && a !in after;
    hide Distinct;
    assert r == before + ([a] + after) && ([a] + after)[1..] == after;
    DroppedAppend(before, [a] + after, a);
    NothingDropped(before, a);
    NothingDropped(after, a);
  }

  lemma {:induction false} DroppedOutside(r: seq<SocketAddr>, n: nat, a: SocketAddr)
    requires Distinct(r) && n <= |r| && a !in r[..n]
    ensures |Dropped(r, a)| >= n && Dropped(r, a)[..n] == r[..n]
  {
    DroppedAppend(r[..n], r[n..], a);
    assert r == r[..n] + r[n..];
    NothingDropped(r[..n], a);
  }

  lemma {:induction false} GetKeepsBeginning(
    capacity: nat, entries: seq<Entry>, recency: seq<SocketAddr>, a: SocketAddr, conn: nat)
    requires 0 < capacity && |entries| <= capacity && IsBeginning(entries, recency) && Distinct(recency)
    ensures var cache := GetOrInsert(LruCache(capacity, entries), a, conn).cache;
            cache.LruCache? && cache.capacity == capacity && |cache.entries| <= capacity
            && IsBeginning(cache.entries, [a] + Dropped(recency, a))
    ensures var next := GetOrInsert(LruCache(capacity, entries), a, conn).cache.entries;
            |next| == if Find(entries, a) < |entries| || |entries| == capacity then |entries| else |entries| + 1
  {
    var i := Find(entries, a);
    if i < |entries| {
      DroppedInside(recency, i);
    } else {
      DroppedOutside(recency, |entries|, a);
    }
  }

  lemma {:induction false} RemoveKeepsBeginning(
    capacity: nat, entries: seq<Entry>, recency: seq<SocketAddr>, a: SocketAddr)
    requires IsBeginning(entries, recency) && Distinct(recency)
    ensures var cache := Remove(LruCache(capacity, entries), a).cache;
            cache.LruCache? && cache.capacity == capacity && |cache.entries| <= |entries|
            && IsBeginning(cache.entries, Dropped(recency, a))
  {
    var i := Find(entries, a);
    if i < |entries| {
      DroppedInside(recency, i);
    } else {
      DroppedOutside(recency, |entries|, a);
    }
  }

  /** Over every run from empty: the cache holds the addresses asked for last and not removed since, in the
      order of their last uses, the latest first; how many of them, the capacity and the removals decide. */
  lemma {:induction false} HoldsTheMostRecent(capacity: nat, ops: seq<CacheOp>)
    requires 0 < capacity
    ensures var cache := ApplyOps(FreshLru(capacity), ops).cache;
            cache.LruCache? && cache.capacity == capacity && |cache.entries| <= capacity
            && IsBeginning(cache.entries, Recency(ops))
    ensures (forall op :: op in ops ==> op.Get?) ==>
              |ApplyOps(FreshLru(capacity), ops).cache.entries|
              == if |Recency(ops)| <= capacity then |Recency(ops)| else capacity
    decreases |ops|
  {
    if ops != [] {
      var init, last := ops[..|ops| - 1], ops[|ops| - 1];
      HoldsTheMostRecent(capacity, init);
      assert ops == init + [last];
      ApplySnoc(FreshLru(capacity), init, last);
      RecencyIsWanted(init);
      var before := ApplyOps(FreshLru(capacity), init);
      hide ApplyOps, Dropped, Find, GetOrInsert, Remove;
      match last
      case Get(a) =>
        GetKeepsBeginning(capacity, before.cache.entries, Recency(init), a, |before.conns|);
        DroppedElements(Recency(init), a);
        assert Find(before.cache.entries, a) < |before.cache.entries| ==> a in Recency(init);
        if |before.cache.entries| == |Recency(init)| && a in Recency(init) {
          InBeginning(before.cache.entries, Recency(init), a);
        }
      case Drop(a) => RemoveKeepsBeginning(capacity, before.cache.entries, Recency(init), a);
    }
  }

  lemma {:induction false} InBeginning(entries: seq<Entry>, recency: seq<SocketAddr>, a: SocketAddr)
    requires IsBeginning(entries, recency) && |entries| == |recency| && a in recency
    ensures Find(entries, a) < |entries|
  {
    var i :| 0 <= i < |recency| && recency[i] == a;
    assert entries[i].address == a;
  }

  // ---- When an address is still held --------------------------------------

  function Position(s: seq<SocketAddr>, a: SocketAddr): (i: nat)
    ensures i <= |s|
    ensures i < |s| ==> s[i] == a
    ensures forall j :: 0 <= j < i ==> s[j] != a
  {
    if s == [] || s[0] == a then 0 else 1 + Position(s[1..], a)
  }

  lemma {:induction false} HasIffEarly(capacity: nat, entries: seq<Entry>, recency: seq<SocketAddr>, a: SocketAddr)
    requires IsBeginning(entries, recency)
    ensures Has(LruCache(capacity, entries), a) <==> Position(recency, a) < |entries|
  {
    var i, p := Find(entries, a), Position(recency, a);
    assert i < |entries| ==> recency[i] == a;
    assert p < |entries| ==> entries[p].address == a;
  }

  lemma {:induction false} OnlyFullCacheEvicts(
    capacity: nat, entries: seq<Entry>, a: SocketAddr, b: SocketAddr, conn: nat)
    requires 0 < capacity && |entries| <= capacity && DistinctKeys(entries) && a != b
    requires Has(LruCache(capacity, entries), a)
    requires !Has(GetOrInsert(LruCache(capacity, entries), b, conn).cache, a)
    ensures |GetOrInsert(LruCache(capacity, entries), b, conn).cache.entries| == capacity
  {
    var held := LruCache(capacity, entries);
    GetOrInsertEffect(held, b, conn);
    HasIsHolds(held, a);
    HasIsHolds(GetOrInsert(held, b, conn).cache, a);
    hide Has, Find;
  }

  /** At every moment since its last use, fewer than that many other addresses were wanted more recently. */
  ghost predicate NeverCrowded(capacity: nat, ops: seq<CacheOp>, a: SocketAddr) {
    forall k :: LastNamed(ops, a) <= k <= |ops| ==> Position(Recency(ops[..k]), a) < capacity
  }

  lemma {:induction false} CrowdedStep(capacity: nat, ops: seq<CacheOp>, a: SocketAddr)
    requires ops != [] && ops[|ops| - 1].address != a
    ensures var init := ops[..|ops| - 1];
            NeverCrowded(capacity, ops, a) <==>
              NeverCrowded(capacity, init, a) && Position(Recency(ops), a) < capacity
  {
    hide Recency, Position;
    var init := ops[..|ops| - 1];
    assert LastNamed(ops, a) == LastNamed(init, a);
    assert ops[..|ops|] == ops;
    assert forall k :: 0 <= k <= |init| ==> ops[..k] == init[..k];
    if NeverCrowded(capacity, ops, a) {
      forall k | LastNamed(init, a) <= k <= |init|
        ensures Position(Recency(init[..k]), a) < capacity
      {
        assert Position(Recency(ops[..k]), a) < capacity;
      }
    }
  }

  lemma {:induction false} WantedStep(ops: seq<CacheOp>, a: SocketAddr)
    requires ops != [] && ops[|ops| - 1].address != a
    ensures Wanted(ops, a) <==> Wanted(ops[..|ops| - 1], a)
  {
    assert LastNamed(ops, a) == LastNamed(ops[..|ops| - 1], a);
  }

  lemma {:induction false} HeldThroughOther(capacity: nat, ops: seq<CacheOp>, a: SocketAddr)
    requires 0 < capacity && ops != [] && ops[|ops| - 1].address != a
    requires var init := ops[..|ops| - 1];
             Has(ApplyOps(FreshLru(capacity), init).cache, a) <==> Wanted(init, a) && NeverCrowded(capacity, init, a)
    ensures Has(ApplyOps(FreshLru(capacity), ops).cache, a) <==> Wanted(ops, a) && NeverCrowded(capacity, ops, a)
  {
    hide ApplyOps, ApplyOp, Recency, NeverCrowded, Has, Position, Wanted, IsBeginning, FreshLru;
    var init, last := ops[..|ops| - 1], ops[|ops| - 1];
    assert ops == init + [last];
    ApplySnoc(FreshLru(capacity), init, last);
    HoldsTheMostRecent(capacity, ops);
    WantedStep(ops, a);
    CrowdedStep(capacity, ops, a);
    HasIffEarly(capacity, ApplyOps(FreshLru(capacity), ops).cache.entries, Recency(ops), a);
    OtherUse(capacity, init, last, a);
  }

  /** Exactly when the cache holds a connection for an address, told from the history: when it was asked for,
      not removed since, and never since its last use were as many others as the cache has room for wanted
      more recently. */
  lemma {:induction false} HeldIff(capacity: nat, ops: seq<CacheOp>, a: SocketAddr)
    requires 0 < capacity
    ensures Has(ApplyOps(FreshLru(capacity), ops).cache, a) <==> Wanted(ops, a) && NeverCrowded(capacity, ops, a)
    decreases |ops|
  {
    hide Recency, NeverCrowded;
    if ops != [] {
      hide ApplyOps, Has, Wanted;
      if ops[|ops| - 1].address == a {
        NamedLast(capacity, ops, a);
      } else {
        HeldIff(capacity, ops[..|ops| - 1], a);
        HeldThroughOther(capacity, ops, a);
      }
    }
  }

  lemma {:induction false} NamedLast(capacity: nat, ops: seq<CacheOp>, a: SocketAddr)
    requires 0 < capacity && ops != [] && ops[|ops| - 1].address == a
    ensures Has(ApplyOps(FreshLru(capacity), ops).cache, a) <==> ops[|ops| - 1].Get?
    ensures Wanted(ops, a) && NeverCrowded(capacity, ops, a) <==> ops[|ops| - 1].Get?
  {
    var init, last := ops[..|ops| - 1], ops[|ops| - 1];
    ApplySnoc(FreshLru(capacity), init, last);
    assert init + [last] == ops;
    RunKeepsInv(FreshLru(capacity), init);
    NamedEffect(ApplyOps(FreshLru(capacity), init), last);
    if last.Get? {
      assert ops[..|ops|] == ops;
      assert Recency(ops)[0] == a;
    }
    hide ApplyOps;
  }

  lemma {:induction false} NamedEffect(h: History, op: CacheOp)
    requires HistoryInv(h)
    ensures Has(ApplyOp(h, op).cache, op.address) <==> op.Get?
  {
    HasIsHolds(ApplyOp(h, op).cache, op.address);
    if op.Get? {
      GetOrInsertEffect(h.cache, op.address, |h.conns|);
    } else {
      RemoveEffect(h.cache, op.address);
    }
  }

  /** A use of another address never brings a back, and takes it away only when the cache is full. */
  lemma {:induction false} OtherUse(capacity: nat, init: seq<CacheOp>, last: CacheOp, a: SocketAddr)
    requires 0 < capacity && last.address != a
    ensures var before, after := ApplyOps(FreshLru(capacity), init), ApplyOp(ApplyOps(FreshLru(capacity), init), last);
            && (Has(after.cache, a) ==> Has(before.cache, a))
            && (Has(before.cache, a) && !Has(after.cache, a) ==>
                  after.cache.LruCache? && |after.cache.entries| == capacity)
  {
    HoldsTheMostRecent(capacity, init);
    RunKeepsInv(FreshLru(capacity), init);
    var before := ApplyOps(FreshLru(capacity), init);
    hide ApplyOps, Recency;
    var after := ApplyOp(before, last);
    HasIsHolds(before.cache, a);
    HasIsHolds(after.cache, a);
    match last {
      case Get(b) =>
        GetOrInsertEffect(before.cache, b, |before.conns|);
        if Has(before.cache, a) && !Has(after.cache, a) {
          OnlyFullCacheEvicts(capacity, before.cache.entries, a, b, |before.conns|);
        }
      case Drop(b) => RemoveEffect(before.cache, b);
    }
  }

  // ---- A recently used address is shared ----------------------------------

  function Elements(s: seq<SocketAddr>): set<SocketAddr> {
    set x | x in s
  }

  lemma {:induction false} DistinctCount(s: seq<SocketAddr>)
    requires Distinct(s)
    ensures |Elements(s)| == |s|
  {
    if s != [] {
      DistinctCount(s[1..]);
      assert Elements(s) == Elements(s[1..]) + {s[0]};
      assert s[0] !in s[1..];
    }
  }

  /** The addresses wanted more recently than a were all asked for since a was. */
  lemma {:induction false} NewerWereAskedSince(ops: seq<CacheOp>, a: SocketAddr)
    requires Wanted(ops, a)
    ensures Position(Recency(ops), a) <= |Used(ops[LastNamed(ops, a)..])|
  {
    RecencyIsWanted(ops);
    RecencyIsOrdered(ops);
    var r, u := Recency(ops), LastNamed(ops, a);
    var p := Position(r, a);
    hide Recency, Position;
    var newer := r[..p];
    forall x | x in newer
      ensures x in Used(ops[u..])
    {
      var i :| 0 <= i < p && r[i] == x;
      assert r[p] == a && r[i] in r;
      AskedSince(ops, x, u);
    }
    DistinctCount(newer);
    SubsetSize(Elements(newer), Used(ops[u..]));
  }

  lemma {:induction false} AskedSince(ops: seq<CacheOp>, x: SocketAddr, u: nat)
    requires Wanted(ops, x) && u < LastNamed(ops, x)
    ensures x in Used(ops[u..])
  {
    var k := LastNamed(ops, x);
    assert ops[u..][k - 1 - u] == Get(x);
  }

  /** A use that comes while fewer other addresses than the cache has room for were asked for since the last
      use of its own makes no new connection. */
  lemma {:induction false} RecentUseIsShared(capacity: nat, ops: seq<CacheOp>, a: SocketAddr)
    requires 0 < capacity && Wanted(ops, a) && |Used(ops[LastNamed(ops, a)..])| < capacity
    ensures Has(ApplyOps(FreshLru(capacity), ops).cache, a)
    ensures ApplyOps(FreshLru(capacity), ops + [Get(a)]).conns == ApplyOps(FreshLru(capacity), ops).conns
  {
    var u := LastNamed(ops, a);
    forall k | u <= k <= |ops|
      ensures Position(Recency(ops[..k]), a) < capacity
    {
      LastNamedPrefix(ops, a, k);
      NewerWereAskedSince(ops[..k], a);
      assert forall op :: op in ops[..k][u..] ==> op in ops[u..];
      SubsetSize(Used(ops[..k][u..]), Used(ops[u..]));
    }
    HeldIff(capacity, ops, a);
    ApplySnoc(FreshLru(capacity), ops, Get(a));
    RunKeepsInv(FreshLru(capacity), ops);
    var before := ApplyOps(FreshLru(capacity), ops);
    hide ApplyOps, Recency, NeverCrowded;
    GetOrInsertEffect(before.cache, a, |before.conns|);
  }

  lemma {:induction false} LastNamedPrefix(ops: seq<CacheOp>, a: SocketAddr, k: nat)
    requires LastNamed(ops, a) <= k <= |ops| && Wanted(ops, a)
    ensures LastNamed(ops[..k], a) == LastNamed(ops, a) && Wanted(ops[..k], a)
    decreases |ops|
  {
    if k == |ops| {
      assert ops[..k] == ops;
    } else {
      assert ops[|ops| - 1].address != a;
      LastNamedPrefix(ops[..|ops| - 1], a, k);
      assert ops[..|ops| - 1][..k] == ops[..k];
    }
  }
}
