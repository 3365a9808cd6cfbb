/** The two caches of shared connections: an unbounded hash map, and a least-recently-used cache. */
module ConnectionCache {
  import opened Bytes
  import opened Outbound

  /** Connections are numbered in the order they are created. */
  datatype Entry = Entry(address: SocketAddr, conn: nat)

  datatype Cache =
    | HashCache(table: map<SocketAddr, nat>)
    | LruCache(capacity: nat, entries: seq<Entry>)   // most recently used first

  /** What `get_or_insert` hands out, and the entry it pushed out of a full cache, if any. */
  datatype Lookup = Lookup(conn: nat, cache: Cache, evicted: Option<Entry>)

  datatype Removal = Removal(cache: Cache, removed: Option<nat>)

  predicate DistinctKeys(entries: seq<Entry>) {
    forall i, j :: 0 <= i < j < |entries| ==> entries[i].address != entries[j].address
  }

  predicate Valid(cache: Cache) {
    match cache
    case HashCache(_) => true
    case LruCache(capacity, entries) => 0 < capacity && |entries| <= capacity && DistinctKeys(entries)
  }

  predicate Holds(cache: Cache, address: SocketAddr, conn: nat) {
    match cache
    case HashCache(table) => address in table && table[address] == conn
    case LruCache(_, entries) => Entry(address, conn) in entries
  }

  predicate Has(cache: Cache, address: SocketAddr) {
    match cache
    case HashCache(table) => address in table
    case LruCache(_, entries) => Find(entries, address) < |entries|
  }

  /** Position of the entry for an address, or the length if there is none. */
  function Find(entries: seq<Entry>, address: SocketAddr): (i: nat)
    ensures i <= |entries|
    ensures i < |entries| ==> entries[i].address == address
    ensures forall j :: 0 <= j < i ==> entries[j].address != address
  {
    if entries == [] || entries[0].address == address then 0 else 1 + Find(entries[1..], address)
  }

  function Without(entries: seq<Entry>, i: nat): seq<Entry>
    requires i < |entries|
  {
    entries[..i] + entries[i + 1..]
  }

  // ---- Specification -------------------------------------------------------

  function GetOrInsert(cache: Cache, address: SocketAddr, newConn: nat): Lookup {
    match cache
    case HashCache(table) =>
      if address in table then Lookup(table[address], cache, None)
      else Lookup(newConn, HashCache(table[address := newConn]), None)
    case LruCache(capacity, entries) =>
      var i := Find(entries, address);
      if i < |entries| then
        Lookup(entries[i].conn, LruCache(capacity, [entries[i]] + Without(entries, i)), None)
      else if |entries| < capacity || entries == [] then
        Lookup(newConn, LruCache(capacity, [Entry(address, newConn)] + entries), None)
      else
        var last := |entries| - 1;
        Lookup(newConn, LruCache(capacity, [Entry(address, newConn)] + entries[..last]), Some(entries[last]))
  }

  function Remove(cache: Cache, address: SocketAddr): Removal {
    match cache
    case HashCache(table) =>
      Removal(HashCache(table - {address}), if address in table then Some(table[address]) else None)
    case LruCache(capacity, entries) =>
      var i := Find(entries, address);
      if i < |entries| then Removal(LruCache(capacity, Without(entries, i)), Some(entries[i].conn))
      else Removal(cache, None)
  }

  // ---- What both caches promise -------------------------------------------

  lemma HoldsOneConnection(cache: Cache, address: SocketAddr, c1: nat, c2: nat)
    requires Valid(cache) && Holds(cache, address, c1) && Holds(cache, address, c2)
    ensures c1 == c2
  {
    if cache.LruCache? {
      var i :| 0 <= i < |cache.entries| && cache.entries[i] == Entry(address, c1);
      var j :| 0 <= j < |cache.entries| && cache.entries[j] == Entry(address, c2);
      assert !(i < j) && !(j < i);
    }
  }

  /** Has(a) means that some connection is held for a. */
  lemma HasIsHolds(cache: Cache, address: SocketAddr)
    ensures Has(cache, address) <==> exists c: nat :: Holds(cache, address, c)
  {
    match cache
    case HashCache(table) =>
      if address in table {
        assert Holds(cache, address, table[address]);
      }
    case LruCache(_, entries) =>
      var i := Find(entries, address);
      if i < |entries| {
        assert Holds(cache, address, entries[i].conn) by { assert entries[i] in entries; }
      }
  }

  /** The whole effect of `get_or_insert`: a held connection is handed out and nothing else changes; a
      missing one is created, and at most one other entry, of a different address, makes room for it. */
  lemma GetOrInsertEffect(cache: Cache, address: SocketAddr, newConn: nat)
    requires Valid(cache)
    ensures var r := GetOrInsert(cache, address, newConn);
            && Valid(r.cache)
            && Holds(r.cache, address, r.conn)
            && (Has(cache, address) ==>
                  Holds(cache, address, r.conn) && r.evicted.None?
                  && forall a: SocketAddr, c: nat :: Holds(r.cache, a, c) <==> Holds(cache, a, c))
            && (!Has(cache, address) ==>
                  r.conn == newConn
                  && (r.evicted.Some? ==> r.evicted.value.address != address
                                          && Holds(cache, r.evicted.value.address, r.evicted.value.conn))
                  && forall a: SocketAddr, c: nat :: Holds(r.cache, a, c) <==>
                                    (a == address && c == newConn)
                                    || (Holds(cache, a, c) && r.evicted != Some(Entry(a, c))))
  {
    if cache.LruCache? {
      var entries := cache.entries;
      var i := Find(entries, address);
      if i < |entries| {
        WithoutEffect(entries, i);
      } else if entries != [] && |entries| >= cache.capacity {
        WithoutEffect(entries, |entries| - 1);
        assert Without(entries, |entries| - 1) == entries[..|entries| - 1];
      }
    }
  }

  lemma WithoutEffect(entries: seq<Entry>, i: nat)
    requires DistinctKeys(entries) && i < |entries|
    ensures DistinctKeys(Without(entries, i))
    ensures forall e :: e in Without(entries, i) <==> e in entries && e != entries[i]
    ensures forall e :: e in Without(entries, i) ==> e.address != entries[i].address
  {
    var w := Without(entries, i);
    forall e | e in entries && e != entries[i]
      ensures e in w
    {
      var j :| 0 <= j < |entries| && entries[j] == e;
      assert w[if j < i then j else j - 1] == e;
    }
  }

  lemma RemoveEffect(cache: Cache, address: SocketAddr)
    requires Valid(cache)
    ensures var r := Remove(cache, address);
            && Valid(r.cache)
            && (r.removed.Some? <==> Has(cache, address))
            && (r.removed.Some? ==> Holds(cache, address, r.removed.value))
            && forall a: SocketAddr, c: nat :: Holds(r.cache, a, c) <==> Holds(cache, a, c) && a != address
  {
    if cache.LruCache? {
      var i := Find(cache.entries, address);
      if i < |cache.entries| {
        WithoutEffect(cache.entries, i);
      }
    }
  }

  // ---- Runs of operations --------------------------------------------------

  datatype CacheOp = Get(address: SocketAddr) | Drop(address: SocketAddr)

  datatype Handout = Handout(address: SocketAddr, conn: nat)

  /** A cache, the address of every connection created so far, and every connection handed out. */
  datatype History = History(cache: Cache, conns: seq<SocketAddr>, handed: seq<Handout>)

  function ApplyOp(h: History, op: CacheOp): History {
    match op
    case Get(a) =>
      var r := GetOrInsert(h.cache, a, |h.conns|);
      History(r.cache, if r.conn == |h.conns| then h.conns + [a] else h.conns, h.handed + [Handout(a, r.conn)])
    case Drop(a) => h.(cache := Remove(h.cache, a).cache)
  }

  function ApplyOps(h: History, ops: seq<CacheOp>): History
    decreases |ops|
  {
    if ops == [] then h else ApplyOps(ApplyOp(h, ops[0]), ops[1..])
  }

  ghost predicate HistoryInv(h: History) {
    && Valid(h.cache)
    && (forall a: SocketAddr, c: nat :: Holds(h.cache, a, c) ==> c < |h.conns| && h.conns[c] == a)
    && (forall x :: x in h.handed ==> x.conn < |h.conns| && h.conns[x.conn] == x.address)
  }

  lemma OpKeepsInv(h: History, op: CacheOp)
    requires HistoryInv(h)
    ensures HistoryInv(ApplyOp(h, op))
    ensures h.cache.LruCache? ==>
              ApplyOp(h, op).cache.LruCache? && ApplyOp(h, op).cache.capacity == h.cache.capacity
  {
    hide Valid;
    match op
    case Get(a) =>
      GetOrInsertEffect(h.cache, a, |h.conns|);
      HasIsHolds(h.cache, a);
    case Drop(a) => RemoveEffect(h.cache, a);
  }

  /** Over every run: an LRU cache stays within its capacity and holds one entry per address, and every
      connection handed out has the address that was asked for. */
  lemma {:induction false} RunKeepsInv(h: History, ops: seq<CacheOp>)
    requires HistoryInv(h)
    ensures HistoryInv(ApplyOps(h, ops))
    ensures h.cache.LruCache? ==>
              var end := ApplyOps(h, ops).cache;
              end.LruCache? && end.capacity == h.cache.capacity && |end.entries| <= h.cache.capacity
    decreases |ops|
  {
    hide ApplyOp;
    if ops != [] {
      OpKeepsInv(h, ops[0]);
      RunKeepsInv(ApplyOp(h, ops[0]), ops[1..]);
    }
  }

  // ---- The two caches share alike -----------------------------------------

  function Keys(entries: seq<Entry>): set<SocketAddr> {
    set e | e in entries :: e.address
  }

  lemma {:induction false} KeyCount(entries: seq<Entry>)
    requires DistinctKeys(entries)
    ensures |Keys(entries)| == |entries|
  {
    if entries != [] {
      KeyCount(entries[1..]);
      assert Keys(entries) == Keys(entries[1..]) + {entries[0].address};
      assert entries[0].address !in Keys(entries[1..]);
    }
  }

  lemma SubsetSize(a: set<SocketAddr>, b: set<SocketAddr>)
    requires a <= b
    ensures |a| <= |b|
  {
    if a != {} {
      var x :| x in a;
      SubsetSize(a - {x}, b - {x});
    }
  }

  /** The addresses a run asks connections for. */
  function Used(ops: seq<CacheOp>): set<SocketAddr> {
    set op | op in ops && op.Get? :: op.address
  }

  /** Same contents, same connections created, same connections handed out. */
  ghost predicate Alike(h: History, l: History) {
    && (forall a: SocketAddr, c: nat :: Holds(h.cache, a, c) <==> Holds(l.cache, a, c))
    && h.conns == l.conns && h.handed == l.handed
  }

  lemma StepAlike(h: History, l: History, op: CacheOp, used: set<SocketAddr>)
    requires HistoryInv(h) && HistoryInv(l) && Alike(h, l)
    requires h.cache.HashCache? && l.cache.LruCache?
    requires Keys(l.cache.entries) <= used && |used| <= l.cache.capacity
    requires op.Get? ==> op.address in used
    ensures Alike(ApplyOp(h, op), ApplyOp(l, op))
    ensures ApplyOp(h, op).cache.HashCache?
    ensures ApplyOp(l, op).cache.LruCache? && ApplyOp(l, op).cache.capacity == l.cache.capacity
    ensures Keys(ApplyOp(l, op).cache.entries) <= used
  {
    HasIsHolds(h.cache, op.address);
    HasIsHolds(l.cache, op.address);
    var l' := ApplyOp(l, op);
    match op {
      case Get(a) =>
        GetOrInsertEffect(h.cache, a, |h.conns|);
        GetOrInsertEffect(l.cache, a, |l.conns|);
        if Has(l.cache, a) {
          HoldsOneConnection(h.cache, a, GetOrInsert(h.cache, a, |h.conns|).conn,
                             GetOrInsert(l.cache, a, |l.conns|).conn);
        } else {
          NoEviction(l.cache, a, used);
        }
      case Drop(a) =>
        RemoveEffect(h.cache, a);
        RemoveEffect(l.cache, a);
    }
    forall e | e in l'.cache.entries
      ensures e.address in used
    {
      assert Holds(l'.cache, e.address, e.conn);
      assert Holds(l.cache, e.address, e.conn) ==> e.address in Keys(l.cache.entries);
    }
  }

  lemma NoEviction(cache: Cache, a: SocketAddr, used: set<SocketAddr>)
    requires Valid(cache) && cache.LruCache? && Keys(cache.entries) <= used && |used| <= cache.capacity
    requires a in used && !Has(cache, a)
    ensures |cache.entries| < cache.capacity
  {
    KeyCount(cache.entries);
    assert a !in Keys(cache.entries);
    SubsetSize(Keys(cache.entries) + {a}, used);
  }

  /** With room for every address used, the LRU cache hands out the same connections, in the same order,
      as the hash map does. */
  lemma {:induction false} LruSharesLikeHashMap(h: History, l: History, ops: seq<CacheOp>, used: set<SocketAddr>)
    requires HistoryInv(h) && HistoryInv(l) && Alike(h, l)
    requires h.cache.HashCache? && l.cache.LruCache?
    requires Keys(l.cache.entries) + Used(ops) <= used && |used| <= l.cache.capacity
    ensures Alike(ApplyOps(h, ops), ApplyOps(l, ops))
    decreases |ops|
  {
    hide HistoryInv, Alike, ApplyOp;
    if ops != [] {
      assert ops[0].Get? ==> ops[0].address in Used(ops);
      assert Used(ops[1..]) <= Used(ops);
      StepAlike(h, l, ops[0], used);
      OpKeepsInv(h, ops[0]);
      OpKeepsInv(l, ops[0]);
      LruSharesLikeHashMap(ApplyOp(h, ops[0]), ApplyOp(l, ops[0]), ops[1..], used);
    }
  }

  const FRESH_HASH := History(HashCache(map[]), [], [])

  function FreshLru(capacity: nat): History {
    History(LruCache(capacity, []), [], [])
  }

  /** From empty, both caches hand out the same connections. */
  predicate ShareAlike(capacity: nat, ops: seq<CacheOp>) {
    ApplyOps(FreshLru(capacity), ops).handed == ApplyOps(FRESH_HASH, ops).handed
  }

  /** The capacity need only reach the number of distinct addresses asked for. */
  lemma FreshLruSharesLikeHashMap(capacity: nat, ops: seq<CacheOp>)
    requires 0 < capacity && |Used(ops)| <= capacity
    ensures ShareAlike(capacity, ops)
  {
    LruSharesLikeHashMap(FRESH_HASH, FreshLru(capacity), ops, Used(ops));
  }

  // ---- Too little room -----------------------------------------------------

  predicate Distinct(addresses: seq<SocketAddr>) {
    forall i, j :: 0 <= i < j < |addresses| ==> addresses[i] != addresses[j]
  }

  function Gets(addresses: seq<SocketAddr>): seq<CacheOp> {
    seq(|addresses|, i requires 0 <= i < |addresses| => Get(addresses[i]))
  }

  /** What an LRU cache holds after asking for distinct addresses, the newest first. */
  function Newest(capacity: nat, addresses: seq<SocketAddr>): seq<Entry> {
    var n := |addresses|;
    seq(if n <= capacity then n else capacity,
        i requires 0 <= i < (if n <= capacity then n else capacity) => Entry(addresses[n - 1 - i], n - 1 - i))
  }

  lemma {:induction false} ApplySnoc(h: History, ops: seq<CacheOp>, op: CacheOp)
    ensures ApplyOps(h, ops + [op]) == ApplyOp(ApplyOps(h, ops), op)
    decreases |ops|
  {
    hide ApplyOp;
    if ops == [] {
      assert ops + [op] == [op] && [op][1..] == [];
    } else {
      assert (ops + [op])[1..] == ops[1..] + [op];
      ApplySnoc(ApplyOp(h, ops[0]), ops[1..], op);
    }
  }

  lemma GetsOneByOne(h: History, addresses: seq<SocketAddr>)
    ensures ApplyOps(h, Gets([])) == h
    ensures addresses != [] ==>
              var n := |addresses| - 1;
              ApplyOps(h, Gets(addresses)) == ApplyOp(ApplyOps(h, Gets(addresses[..n])), Get(addresses[n]))
  {
    hide ApplyOp;
    if addresses != [] {
      var n := |addresses| - 1;
      assert Gets(addresses) == Gets(addresses[..n]) + [Get(addresses[n])];
      ApplySnoc(h, Gets(addresses[..n]), Get(addresses[n]));
    }
  }

  lemma {:induction false} HashAfterGets(addresses: seq<SocketAddr>)
    requires Distinct(addresses)
    ensures var h := ApplyOps(FRESH_HASH, Gets(addresses));
            && h.cache.HashCache? && h.conns == addresses
            && (forall a :: a in h.cache.table ==> a in addresses)
            && (forall i :: 0 <= i < |addresses| ==>
                  addresses[i] in h.cache.table && h.cache.table[addresses[i]] == i)
    decreases |addresses|
  {
    hide ApplyOps, Gets;
    GetsOneByOne(FRESH_HASH, addresses);
    if addresses != [] {
      var n := |addresses| - 1;
      HashAfterGets(addresses[..n]);
      assert addresses == addresses[..n] + [addresses[n]];
    }
  }

  lemma {:induction false} LruAfterGets(capacity: nat, addresses: seq<SocketAddr>)
    requires 0 < capacity && Distinct(addresses)
    ensures var l := ApplyOps(FreshLru(capacity), Gets(addresses));
            l.cache == LruCache(capacity, Newest(capacity, addresses)) && l.conns == addresses
    decreases |addresses|
  {
    hide ApplyOps, Gets, Find;
    GetsOneByOne(FreshLru(capacity), addresses);
    if addresses == [] {
      assert Newest(capacity, addresses) == [];
    } else {
      var n := |addresses| - 1;
      var before, a := addresses[..n], addresses[n];
      LruAfterGets(capacity, before);
      assert addresses == before + [a] && a !in before;
      hide Distinct, Newest, GetOrInsert;
      NewAddressGoesFirst(capacity, before, a);
    }
  }

  lemma NewAddressGoesFirst(capacity: nat, before: seq<SocketAddr>, a: SocketAddr)
    requires 0 < capacity && a !in before
    ensures GetOrInsert(LruCache(capacity, Newest(capacity, before)), a, |before|).conn == |before|
    ensures GetOrInsert(LruCache(capacity, Newest(capacity, before)), a, |before|).cache
         == LruCache(capacity, Newest(capacity, before + [a]))
  {
    hide Find;
    var held, next := Newest(capacity, before), Newest(capacity, before + [a]);
    assert Find(held, a) == |held|;
    if |held| < capacity {
      assert next == [Entry(a, |before|)] + held;
    } else {
      assert next == [Entry(a, |before|)] + held[..|held| - 1];
    }
  }

  /** With fewer places than addresses: asking for each address once and then for the first again makes one
      more connection, where the hash map hands out the first one. */
  lemma SmallLruSharesLess(capacity: nat, addresses: seq<SocketAddr>)
    requires 0 < capacity < |addresses| && Distinct(addresses)
    ensures var ops := Gets(addresses) + [Get(addresses[0])];
            && !ShareAlike(capacity, ops)
            && (forall a :: a in Used(ops) ==> a in addresses)
            && |ApplyOps(FreshLru(capacity), ops).conns| == |addresses| + 1
            && |ApplyOps(FRESH_HASH, ops).conns| == |addresses|
  {
    hide ApplyOps, Gets, Find;
    var a, gets := addresses[0], Gets(addresses);
    var l, h := ApplyOps(FreshLru(capacity), gets), ApplyOps(FRESH_HASH, gets);
    HashAfterGets(addresses);
    LruAfterGets(capacity, addresses);
    ApplySnoc(FreshLru(capacity), gets, Get(a));
    ApplySnoc(FRESH_HASH, gets, Get(a));
    FirstIsGone(capacity, addresses);
    assert ApplyOp(l, Get(a)).handed[|l.handed|] == Handout(a, |addresses|);
    assert ApplyOp(h, Get(a)).handed[|h.handed|] == Handout(a, 0);
    UsedByGets(addresses);
    OnePerStep(FreshLru(capacity), gets);
    OnePerStep(FRESH_HASH, gets);
  }

  lemma FirstIsGone(capacity: nat, addresses: seq<SocketAddr>)
    requires 0 < capacity < |addresses| && Distinct(addresses)
    ensures Find(Newest(capacity, addresses), addresses[0]) == |Newest(capacity, addresses)|
  {
  }

  /** As many connections are handed out as uses ask for one. */
  lemma {:induction false} OnePerStep(h: History, ops: seq<CacheOp>)
    requires forall op :: op in ops ==> op.Get?
    ensures |ApplyOps(h, ops).handed| == |h.handed| + |ops|
    decreases |ops|
  {
    hide GetOrInsert;
    if ops != [] {
      OnePerStep(ApplyOp(h, ops[0]), ops[1..]);
    }
  }

  lemma UsedByGets(addresses: seq<SocketAddr>)
    ensures forall op :: op in Gets(addresses) ==> op.Get?
    ensures addresses != [] ==> forall a :: a in Used(Gets(addresses) + [Get(addresses[0])]) ==> a in addresses
  {
  }

  lemma {:induction false} Listing(used: set<SocketAddr>) returns (addresses: seq<SocketAddr>)
    ensures Distinct(addresses) && |addresses| == |used|
    ensures forall a :: a in addresses <==> a in used
    decreases |used|
  {
    if used == {} {
      addresses := [];
    } else {
      var a :| a in used;
      var rest := Listing(used - {a});
      addresses := [a] + rest;
    }
  }

  /** How much room is enough: both caches hand out the same connections, whatever the uses of a set of
      addresses, if and only if the LRU cache has a place for each. */
  lemma ShareAlikeIffRoom(capacity: nat, used: set<SocketAddr>)
    requires 0 < capacity
    ensures (forall ops :: Used(ops) <= used ==> ShareAlike(capacity, ops)) <==> |used| <= capacity
  {
    hide ShareAlike, ApplyOps;
    if |used| <= capacity {
      forall ops | Used(ops) <= used
        ensures ShareAlike(capacity, ops)
      {
        SubsetSize(Used(ops), used);
        FreshLruSharesLikeHashMap(capacity, ops);
      }
    } else {
      var addresses := Listing(used);
      SmallLruSharesLess(capacity, addresses);
      assert Used(Gets(addresses) + [Get(addresses[0])]) <= used;
    }
  }

  // ---- The caches as objects ----------------------------------------------

  class HashMapCache {
    var table: map<SocketAddr, nat>
    var created: nat

    constructor ()
      ensures table == map[] && created == 0
    {
      table := map[];
      created := 0;
    }

    method GetOrInsertConnection(address: SocketAddr) returns (conn: nat)
      modifies this
      ensures var r := GetOrInsert(HashCache(old(table)), address, old(created));
              conn == r.conn && HashCache(table) == r.cache
      ensures created == old(created) + if address in old(table) then 0 else 1
    {
      if address !in table {
        table := table[address := created];
        created := created + 1;
      }
      conn := table[address];
    }

    method RemoveConnection(address: SocketAddr) returns (removed: Option<nat>)
      modifies this`table
      ensures Removal(HashCache(table), removed) == Remove(HashCache(old(table)), address)
    {
      removed := if address in table then Some(table[address]) else None;
      table := table - {address};
    }
  }

  /** The library LRU cache: `Get` and `Put` make an entry the most recent; `Put` on a full cache pushes
      out the least recent. */
  class LruConnectionCache {
    const capacity: nat
    var entries: seq<Entry>
    var created: nat

    function AsCache(): Cache
      reads this
    {
      LruCache(capacity, entries)
    }

    constructor (capacity: nat)
      requires 0 < capacity
      ensures AsCache() == LruCache(capacity, []) && created == 0
    {
      this.capacity := capacity;
      entries := [];
      created := 0;
    }

    method Get(address: SocketAddr) returns (conn: Option<nat>)
      requires Valid(AsCache())
      modifies this`entries
      ensures Valid(AsCache())
      ensures conn.Some? <==> Has(old(AsCache()), address)
      ensures conn.Some? ==> AsCache() == GetOrInsert(old(AsCache()), address, 0).cache
                             && conn.value == GetOrInsert(old(AsCache()), address, 0).conn
      ensures conn.None? ==> entries == old(entries)
    {
      GetOrInsertEffect(AsCache(), address, 0);
      var i := Find(entries, address);
      if i == |entries| {
        return None;
      }
      conn := Some(entries[i].conn);
      entries := [entries[i]] + Without(entries, i);
    }

    method Put(address: SocketAddr, conn: nat) returns (evicted: Option<Entry>)
      requires Valid(AsCache()) && !Has(AsCache(), address)
      modifies this`entries
      ensures Valid(AsCache())
      ensures Lookup(conn, AsCache(), evicted) == GetOrInsert(old(AsCache()), address, conn)
    {
      GetOrInsertEffect(AsCache(), address, conn);
      evicted := None;
      if |entries| >= capacity {
        evicted := Some(entries[|entries| - 1]);
        entries := entries[..|entries| - 1];
      }
      entries := [Entry(address, conn)] + entries;
    }

    method GetOrInsertConnection(address: SocketAddr) returns (conn: nat)
      requires Valid(AsCache())
      modifies this
      ensures Valid(AsCache())
      ensures var r := GetOrInsert(old(AsCache()), address, old(created));
              conn == r.conn && AsCache() == r.cache
      ensures created == old(created) + if Has(old(AsCache()), address) then 0 else 1
    {
      var held := Get(address);
      if held.Some? {
        return held.value;
      }
      conn := created;
      created := created + 1;
      var evicted := Put(address, conn);
    }

    method RemoveConnection(address: SocketAddr) returns (removed: Option<nat>)
      requires Valid(AsCache())
      modifies this`entries
      ensures Valid(AsCache())
      ensures Removal(AsCache(), removed) == Remove(old(AsCache()), address)
    {
      RemoveEffect(AsCache(), address);
      removed := None;
      var i := Find(entries, address);
      if i < |entries| {
        removed := Some(entries[i].conn);
        entries := Without(entries, i);
      }
    }
  }
}
