/** TTSPhraseCache (ttsbot/providers.py): an LRU index of cached files with a byte cap and an optional count cap. */
module PhraseCache {
  import opened Bytes

  type Key = nat // the sha256 of voice and text

  datatype Item = Item(key: Key, size: nat)

  datatype Caps = Caps(maxBytes: nat, maxEntries: nat) {
    /** With drift the running total is off by that much from what the items hold. */
    predicate Allow(s: seq<Item>, drift: nat) {
      TotalSize(s) + drift <= maxBytes && (maxEntries > 0 ==> |s| <= maxEntries)
    }
  }

  // ---- The reference: a list of items, least recently used first

  function TotalSize(s: seq<Item>): nat {
    if s == [] then 0 else s[0].size + TotalSize(s[1..])
  }

  /** Drop from the front until the caps hold. */
  function Evict(s: seq<Item>, caps: Caps, drift: nat): seq<Item> {
    if s == [] || caps.Allow(s, drift) then s else Evict(s[1..], caps, drift)
  }

  function Without(s: seq<Item>, key: Key): seq<Item> {
    if s == [] then [] else (if s[0].key == key then [] else [s[0]]) + Without(s[1..], key)
  }

  function Find(s: seq<Item>, key: Key): Option<nat> {
    if s == [] then None else if s[0].key == key then Some(s[0].size) else Find(s[1..], key)
  }

  /** drift is how far the byte count is above the sum of the sizes. */
  function Store(s: seq<Item>, caps: Caps, key: Key, size: nat, drift: nat): seq<Item> {
    if caps.maxBytes > 0 && size > caps.maxBytes then s else Evict(Without(s, key) + [Item(key, size)], caps, drift)
  }

  /** Both caps hold of what the cache believes it holds, or it holds nothing. */
  predicate WithinCaps(s: seq<Item>, caps: Caps, drift: nat) { s == [] || caps.Allow(s, drift) }

  /** A hit moves the item to the end; an item whose file has vanished goes. */
  function Lookup(s: seq<Item>, key: Key, exists_: bool): (seq<Item>, bool) {
    match Find(s, key)
    case None => (s, false)
    case Some(size) => if exists_ then (Without(s, key) + [Item(key, size)], true) else (Without(s, key), false)
  }

  /** self._sizes.get(key, 0) */
  function SizeOr0(found: Option<nat>): nat { if found.Some? then found.value else 0 }

  ghost predicate Distinct(s: seq<Item>) { forall i, j :: 0 <= i < j < |s| ==> s[i].key != s[j].key }

  // ---- Facts about the reference

  /** Evict takes the shortest prefix whose removal restores the caps. */
  lemma {:induction false} EvictShortest(s: seq<Item>, caps: Caps, drift: nat) returns (k: nat)
    ensures k <= |s| && Evict(s, caps, drift) == s[k..] && (k == |s| || caps.Allow(s[k..], drift))
    ensures forall j :: 0 <= j < k ==> !caps.Allow(s[j..], drift)
  {
    if s == [] || caps.Allow(s, drift) {
      k := 0;
    } else {
      var m := EvictShortest(s[1..], caps, drift);
      k := m + 1;
      assert s[1..][m..] == s[k..];
      forall j | 0 <= j < k ensures !caps.Allow(s[j..], drift) {
        if j > 0 { assert s[j..] == s[1..][j - 1..]; }
      }
    }
  }

  lemma {:induction false} TotalAppend(a: seq<Item>, b: seq<Item>)
    ensures TotalSize(a + b) == TotalSize(a) + TotalSize(b)
  {
    if a == [] {
      assert a + b == b;
    } else {
      TotalAppend(a[1..], b);
      assert (a + b)[1..] == a[1..] + b;
    }
  }

  lemma {:induction false} WithoutIs(s: seq<Item>, key: Key)
    requires Distinct(s)
    ensures var r := Without(s, key);
            && Distinct(r) && (forall x <- r :: x in s && x.key != key) && (forall x <- s :: x.key != key ==> x in r)
            && |r| <= |s|
            && TotalSize(s) == TotalSize(r) + SizeOr0(Find(s, key))
            && (Find(s, key).None? ==> r == s)
            && (Find(s, key).Some? <==> exists x <- s :: x.key == key)
  {
    WithoutKeeps(s, key);
    WithoutTotal(s, key);
    FindIs(s, key);
    WithoutLength(s, key);
  }

  lemma {:induction false} WithoutTotal(s: seq<Item>, key: Key)
    requires Distinct(s)
    ensures TotalSize(s) == TotalSize(Without(s, key)) + SizeOr0(Find(s, key))
    ensures Find(s, key).None? ==> Without(s, key) == s
  {
    if s != [] {
      var first, tail := s[0], s[1..];
      WithoutTotal(tail, key);
      var rest := Without(tail, key);
      if first.key == key {
        assert forall x <- tail :: x.key != key;
        FindIs(tail, key);
        assert Without(s, key) == [] + rest == rest;
      } else {
        hide Distinct;
        assert Without(s, key) == [first] + rest;
        assert ([first] + rest)[1..] == rest && s == [first] + tail;
      }
    }
  }

  lemma {:induction false} FindIs(s: seq<Item>, key: Key)
    ensures Find(s, key).Some? <==> exists x <- s :: x.key == key
  {
    if s != [] {
      FindIs(s[1..], key);
      assert s[0] in s && forall x <- s[1..] :: x in s;
      assert forall x <- s :: x == s[0] || x in s[1..];
    }
  }

  lemma {:induction false} WithoutHas(s: seq<Item>, key: Key)
    ensures forall x :: x in Without(s, key) <==> x in s && x.key != key
  {
    if s != [] {
      WithoutHas(s[1..], key);
      assert s == [s[0]] + s[1..];
      assert Without(s, key) == (if s[0].key == key then [] else [s[0]]) + Without(s[1..], key);
    }
  }

  lemma {:induction false} WithoutDistinct(s: seq<Item>, key: Key)
    requires Distinct(s)
    ensures Distinct(Without(s, key))
  {
    if s != [] {
      var first, rest := s[0], Without(s[1..], key);
      DistinctFirst(s);
      WithoutDistinct(s[1..], key);
      WithoutHas(s[1..], key);
      assert Without(s, key) == (if first.key == key then [] else [first]) + rest;
      hide Without, Distinct;
      if first.key == key {
        assert [] + rest == rest;
      } else {
        DistinctCons(first, rest);
      }
    }
  }

  lemma DistinctFirst(s: seq<Item>)
    requires Distinct(s) && s != []
    ensures Distinct(s[1..]) && forall x <- s[1..] :: x.key != s[0].key
  {}

  lemma DistinctCons(x: Item, s: seq<Item>)
    requires Distinct(s) && forall y <- s :: y.key != x.key
    ensures Distinct([x] + s)
  {}

  lemma WithoutKeeps(s: seq<Item>, key: Key)
    requires Distinct(s)
    ensures var r := Without(s, key);
            Distinct(r) && (forall x <- r :: x in s && x.key != key) && forall x <- s :: x.key != key ==> x in r
  {
    hide Without;
    WithoutHas(s, key);
    WithoutDistinct(s, key);
  }

  /** A store that starts within the caps ends within them, with its keys distinct. */
  lemma StoreHolds(s: seq<Item>, caps: Caps, key: Key, size: nat, drift: nat)
    requires Distinct(s) && WithinCaps(s, caps, drift)
    ensures Distinct(Store(s, caps, key, size, drift)) && WithinCaps(Store(s, caps, key, size, drift), caps, drift)
  {
    WithoutIs(s, key);
    hide Without, Find, TotalSize, Evict, Caps.Allow, Distinct;
    var grown := Without(s, key) + [Item(key, size)];
    var k := EvictShortest(grown, caps, drift);
    assert grown[|grown|..] == [];
    DistinctPush(Without(s, key), Item(key, size));
    DistinctFrom(grown, k);
  }

  lemma DistinctPush(s: seq<Item>, x: Item)
    requires Distinct(s) && forall y <- s :: y.key != x.key
    ensures Distinct(s + [x])
  {}

  lemma DistinctFrom(s: seq<Item>, k: nat)
    requires Distinct(s) && k <= |s|
    ensures Distinct(s[k..])
  {}

  /** So does a lookup, whether it hits, misses or finds the file gone. */
  lemma LookupHolds(s: seq<Item>, caps: Caps, key: Key, exists_: bool, drift: nat)
    requires Distinct(s) && WithinCaps(s, caps, drift)
    ensures Distinct(Lookup(s, key, exists_).0) && WithinCaps(Lookup(s, key, exists_).0, caps, drift)
  {
    WithoutIs(s, key);
    hide Without, Find, TotalSize;
    if Find(s, key).Some? {
      TotalOfPush(Without(s, key), Item(key, Find(s, key).value));
      WithoutShrinks(s, key);
    }
  }

  /** A key that is there once, and the items around it. */
  ghost predicate Around(s: seq<Item>, a: seq<Item>, x: Item, b: seq<Item>, key: Key) {
    s == a + [x] + b && x.key == key && (forall y <- a :: y.key != key) && forall y <- b :: y.key != key
  }

  lemma {:induction false} WithoutAround(s: seq<Item>, a: seq<Item>, x: Item, b: seq<Item>, key: Key)
    requires Around(s, a, x, b, key)
    ensures Without(s, key) == a + b && Find(s, key) == Some(x.size)
    decreases |a|
  {
    if a == [] {
      assert s == [x] + b && s[1..] == b;
      WithoutAbsent(b, key);
      assert Without(s, key) == [] + Without(b, key);
    } else {
      assert s[1..] == a[1..] + [x] + b && s[0] == a[0];
      WithoutAround(s[1..], a[1..], x, b, key);
      assert [a[0]] + (a[1..] + b) == a + b;
    }
  }

  lemma {:induction false} WithoutAbsent(s: seq<Item>, key: Key)
    requires forall y <- s :: y.key != key
    ensures Without(s, key) == s && Find(s, key).None?
  {
    if s != [] {
      WithoutAbsent(s[1..], key);
      assert [s[0]] + s[1..] == s;
    }
  }

  /**
   A lookup hits exactly when the key is stored and its file exists, and then only that item moves, to the newest end. A
   vanished file takes only its own item away; an unknown key changes nothing.
   */
  lemma LookupMoves(s: seq<Item>, key: Key, exists_: bool)
    requires Distinct(s)
    ensures Lookup(s, key, exists_).1 <==> exists_ && exists x <- s :: x.key == key
    ensures forall a, x, b :: Around(s, a, x, b, key) ==>
      Lookup(s, key, exists_).0 == if exists_ then a + b + [x] else a + b
    ensures (forall x <- s :: x.key != key) ==> Lookup(s, key, exists_).0 == s
    ensures (exists x <- s :: x.key == key) ==> exists a, x, b :: Around(s, a, x, b, key)
  {
    hide Without, Find, Around;
    FindIs(s, key);
    forall a, x, b | Around(s, a, x, b, key)
      ensures Lookup(s, key, exists_).0 == if exists_ then a + b + [x] else a + b
    {
      WithoutAround(s, a, x, b, key);
      AroundKey(s, a, x, b, key);
    }
    if x :| x in s && x.key == key {
      var i: nat :| i < |s| && s[i] == x;
      SplitAround(s, i);
    }
  }

  lemma AroundKey(s: seq<Item>, a: seq<Item>, x: Item, b: seq<Item>, key: Key)
    requires Around(s, a, x, b, key)
    ensures x.key == key
  {}

  lemma SplitAround(s: seq<Item>, i: nat)
    requires Distinct(s) && i < |s|
    ensures Around(s, s[..i], s[i], s[i + 1..], s[i].key)
  {
    assert s == s[..i] + [s[i]] + s[i + 1..];
  }

  /** A store replaces the item of its key by the newest and drops only from the oldest end; an oversized one is ignored. */
  lemma StoreMoves(s: seq<Item>, caps: Caps, key: Key, size: nat, drift: nat)
    requires Distinct(s)
    ensures caps.maxBytes > 0 && size > caps.maxBytes ==> Store(s, caps, key, size, drift) == s
    ensures !(caps.maxBytes > 0 && size > caps.maxBytes) ==> forall a, x, b :: Around(s, a, x, b, key) ==>
      exists k: nat :: k <= |a + b| + 1 && Store(s, caps, key, size, drift) == (a + b + [Item(key, size)])[k..]
    ensures !(caps.maxBytes > 0 && size > caps.maxBytes) && (forall x <- s :: x.key != key) ==>
      exists k: nat :: k <= |s| + 1 && Store(s, caps, key, size, drift) == (s + [Item(key, size)])[k..]
  {
    hide Without, Evict, Around;
    if caps.maxBytes > 0 && size > caps.maxBytes { return; }
    forall a, x, b | Around(s, a, x, b, key)
      ensures exists k: nat :: k <= |a + b| + 1 && Store(s, caps, key, size, drift) == (a + b + [Item(key, size)])[k..]
    {
      WithoutAround(s, a, x, b, key);
      var k := EvictShortest(a + b + [Item(key, size)], caps, drift);
    }
    if forall x <- s :: x.key != key {
      WithoutAbsent(s, key);
      var k := EvictShortest(s + [Item(key, size)], caps, drift);
    }
  }

  lemma {:induction false} WithoutShrinks(s: seq<Item>, key: Key)
    requires Find(s, key).Some?
    ensures |Without(s, key)| < |s|
  {
    if s[0].key == key {
      WithoutLength(s[1..], key);
    } else {
      WithoutShrinks(s[1..], key);
    }
  }

  lemma {:induction false} WithoutLength(s: seq<Item>, key: Key)
    ensures |Without(s, key)| <= |s|
  {
    if s != [] { WithoutLength(s[1..], key); }
  }

  lemma {:induction false} OneOfTotal(s: seq<Item>, i: nat)
    requires i < |s|
    ensures s[i].size <= TotalSize(s)
  {
    if i > 0 { OneOfTotal(s[1..], i - 1); }
  }

  /** An entry survives its own store, as the most recent one, exactly when it fits beside the bytes miscounted. */
  lemma StoreSurvivesIff(s: seq<Item>, caps: Caps, key: Key, size: nat, drift: nat)
    requires WithinCaps(s, caps, drift)
    ensures var r := Store(s, caps, key, size, drift);
            r != [] && r[|r| - 1] == Item(key, size) <==> size + drift <= caps.maxBytes
  {
    hide Without, Evict;
    if caps.maxBytes > 0 && size > caps.maxBytes {
      if s != [] { OneOfTotal(s, |s| - 1); }
    } else {
      var grown := Without(s, key) + [Item(key, size)];
      var k := EvictShortest(grown, caps, drift);
      var last := grown[|grown| - 1..];
      assert last == [Item(key, size)] && last[1..] == [] && TotalSize(last) == size;
      assert caps.Allow(last, drift) <==> size + drift <= caps.maxBytes;
      if k < |grown| { OneOfTotal(grown[k..], |grown| - 1 - k); }
    }
  }

  // ---- The index as two tables

  /** The tables as the reference list. */
  ghost function ViewOf(entries: seq<Key>, sizes: map<Key, nat>): (r: seq<Item>)
    requires forall k <- entries :: k in sizes
    ensures |r| == |entries|
  {
    seq(|entries|, i requires 0 <= i < |entries| => Item(entries[i], sizes[entries[i]]))
  }

  /** Each key once, the same keys in both tables. */
  ghost predicate Matched(entries: seq<Key>, sizes: map<Key, nat>) {
    && (forall i, j :: 0 <= i < j < |entries| ==> entries[i] != entries[j])
    && forall k :: k in sizes <==> k in entries
  }

  /** entries are in the order of their last use. */
  ghost predicate ByUse(entries: seq<Key>, used: map<Key, nat>, clock: nat) {
    && (forall k <- entries :: k in used && used[k] < clock)
    && forall i, j :: 0 <= i < j < |entries| ==> used[entries[i]] < used[entries[j]]
  }

  function Removed(entries: seq<Key>, key: Key): seq<Key> {
    if entries == [] then [] else (if entries[0] == key then [] else [entries[0]]) + Removed(entries[1..], key)
  }

  ghost predicate NoRepeats(entries: seq<Key>) { forall i, j :: 0 <= i < j < |entries| ==> entries[i] != entries[j] }

  lemma {:induction false} RemovedIs(entries: seq<Key>, used: map<Key, nat>, clock: nat, key: Key)
    requires NoRepeats(entries) && ByUse(entries, used, clock)
    ensures NoRepeats(Removed(entries, key)) && ByUse(Removed(entries, key), used, clock)
    ensures forall k :: k in Removed(entries, key) <==> k in entries && k != key
  {
    RemovedMembers(entries, key);
    if entries != [] {
      var first, rest := entries[0], Removed(entries[1..], key);
      UseTail(entries, used, clock);
      RemovedIs(entries[1..], used, clock, key);
      hide Removed;
      if first != key {
        UsePush(first, rest, used, clock);
        assert Removed(entries, key) == [first] + rest;
      } else {
        assert Removed(entries, key) == rest;
      }
    }
  }

  lemma UseTail(entries: seq<Key>, used: map<Key, nat>, clock: nat)
    requires entries != [] && NoRepeats(entries) && ByUse(entries, used, clock)
    ensures NoRepeats(entries[1..]) && ByUse(entries[1..], used, clock)
    ensures entries[0] in used && used[entries[0]] < clock
    ensures forall k <- entries[1..] :: entries[0] != k && k in used && used[entries[0]] < used[k]
  {
    assert entries[0] in entries;
  }

  lemma UsePush(first: Key, rest: seq<Key>, used: map<Key, nat>, clock: nat)
    requires NoRepeats(rest) && ByUse(rest, used, clock) && first in used && used[first] < clock
    requires forall k <- rest :: first != k && k in used && used[first] < used[k]
    ensures NoRepeats([first] + rest) && ByUse([first] + rest, used, clock)
  {}

  lemma {:induction false} RemovedView(entries: seq<Key>, sizes: map<Key, nat>, key: Key)
    requires (forall k <- entries :: k in sizes) && forall k <- Removed(entries, key) :: k in entries
    ensures ViewOf(Removed(entries, key), sizes) == Without(ViewOf(entries, sizes), key)
    ensures Find(ViewOf(entries, sizes), key) == if key in entries then Some(sizes[key]) else None
  {
    if entries != [] {
      var first, rest := entries[0], Removed(entries[1..], key);
      RemovedMembers(entries[1..], key);
      RemovedView(entries[1..], sizes, key);
      assert entries == [first] + entries[1..];
      assert ViewOf(entries, sizes)[1..] == ViewOf(entries[1..], sizes);
      if first != key {
        assert Removed(entries, key) == [first] + rest;
        assert ViewOf([first] + rest, sizes) == [Item(first, sizes[first])] + ViewOf(rest, sizes);
      } else {
        assert Removed(entries, key) == rest;
      }
    }
  }

  lemma {:induction false} RemovedMembers(entries: seq<Key>, key: Key)
    ensures forall k :: k in Removed(entries, key) <==> k in entries && k != key
  {
    if entries != [] {
      RemovedMembers(entries[1..], key);
      assert entries == [entries[0]] + entries[1..];
      assert Removed(entries, key) == (if entries[0] == key then [] else [entries[0]]) + Removed(entries[1..], key);
    }
  }

  lemma ViewCons(key: Key, rest: seq<Key>, sizes: map<Key, nat>)
    requires key in sizes && forall k <- rest :: k in sizes
    ensures ViewOf([key] + rest, sizes) == [Item(key, sizes[key])] + ViewOf(rest, sizes)
    ensures ViewOf([key] + rest, sizes)[1..] == ViewOf(rest, sizes) && ViewOf([key] + rest, sizes)[0] == Item(key, sizes[key])
  {}

  lemma TailMatched(key: Key, rest: seq<Key>, sizes: map<Key, nat>, used: map<Key, nat>, clock: nat)
    requires Matched([key] + rest, sizes) && ByUse([key] + rest, used, clock)
    ensures Matched(rest, sizes - {key}) && ByUse(rest, used, clock) && key !in rest && key in sizes
    ensures forall k <- rest :: k in sizes
  {
    var all := [key] + rest;
    assert all[0] == key && all[1..] == rest && NoRepeats(all);
    UseTail(all, used, clock);
    hide ByUse;
    assert forall k :: k in all <==> k == key || k in rest;
  }

  lemma ViewAgrees(entries: seq<Key>, a: map<Key, nat>, b: map<Key, nat>)
    requires forall k <- entries :: k in a && k in b && a[k] == b[k]
    ensures ViewOf(entries, a) == ViewOf(entries, b)
  {}

  /** popitem(last=False) */
  lemma DropFirst(entries: seq<Key>, sizes: map<Key, nat>, used: map<Key, nat>, clock: nat)
    requires entries != [] && Matched(entries, sizes) && ByUse(entries, used, clock)
    ensures entries[0] in sizes
    ensures var sizes' := sizes - {entries[0]};
            && Matched(entries[1..], sizes') && ByUse(entries[1..], used, clock)
            && ViewOf(entries[1..], sizes') == ViewOf(entries, sizes)[1..]
            && TotalSize(ViewOf(entries, sizes)) == sizes[entries[0]] + TotalSize(ViewOf(entries[1..], sizes'))
  {
    hide Matched, ByUse, ViewOf;
    var key, rest := entries[0], entries[1..];
    assert entries == [key] + rest;
    TailMatched(key, rest, sizes, used, clock);
    ViewCons(key, rest, sizes);
    ViewAgrees(rest, sizes, sizes - {key});
  }

  lemma DropKey(entries: seq<Key>, sizes: map<Key, nat>, used: map<Key, nat>, clock: nat, key: Key)
    requires Matched(entries, sizes) && ByUse(entries, used, clock)
    ensures var entries', sizes' := Removed(entries, key), sizes - {key};
            && Matched(entries', sizes') && ByUse(entries', used, clock)
            && ViewOf(entries', sizes') == Without(ViewOf(entries, sizes), key)
  {
    RemovedIs(entries, used, clock, key);
    RemovedView(entries, sizes, key);
    ViewAgrees(Removed(entries, key), sizes, sizes - {key});
    hide Removed, ViewOf, ByUse;
  }

  /** move_to_end, with this size */
  lemma TouchKey(entries: seq<Key>, sizes: map<Key, nat>, used: map<Key, nat>, clock: nat, key: Key, size: nat)
    requires Matched(entries, sizes) && ByUse(entries, used, clock)
    ensures var entries', sizes' := Removed(entries, key) + [key], sizes[key := size];
            && Matched(entries', sizes') && ByUse(entries', used[key := clock], clock + 1)
            && ViewOf(entries', sizes') == Without(ViewOf(entries, sizes), key) + [Item(key, size)]
            && TotalSize(ViewOf(entries', sizes')) == TotalSize(Without(ViewOf(entries, sizes), key)) + size
  {
    hide Removed, TotalSize, Without, Find;
    RemovedIs(entries, used, clock, key);
    UseMore(Removed(entries, key), key, used, clock);
    TouchView(entries, sizes, key, size);
    TotalOfPush(Without(ViewOf(entries, sizes), key), Item(key, size));
    hide ViewOf;
  }

  lemma UseMore(rest: seq<Key>, key: Key, used: map<Key, nat>, clock: nat)
    requires NoRepeats(rest) && ByUse(rest, used, clock) && key !in rest
    ensures NoRepeats(rest + [key]) && ByUse(rest + [key], used[key := clock], clock + 1)
  {
    forall i | 0 <= i < |rest| ensures rest[i] != key && used[rest[i]] < clock { assert rest[i] in rest; }
  }

  lemma TouchView(entries: seq<Key>, sizes: map<Key, nat>, key: Key, size: nat)
    requires Matched(entries, sizes) && forall k :: k in Removed(entries, key) <==> k in entries && k != key
    ensures ViewOf(Removed(entries, key) + [key], sizes[key := size])
         == Without(ViewOf(entries, sizes), key) + [Item(key, size)]
  {
    RemovedView(entries, sizes, key);
    hide Removed, Without, Find;
    ViewAgrees(Removed(entries, key), sizes, sizes[key := size]);
  }

  lemma TotalOfPush(s: seq<Item>, x: Item)
    ensures TotalSize(s + [x]) == TotalSize(s) + x.size
  {
    TotalAppend(s, [x]);
    var one := [x];
    assert one[1..] == [];
  }

  // ---- The class

  class TTSPhraseCache {
    const caps: Caps
    var entries: seq<Key>
    var sizes: map<Key, nat>
    var total: int
    ghost var drift: nat // how far total is above the sum of the sizes
    ghost var clock: nat
    ghost var used: map<Key, nat> // when each entry was last stored or hit

    ghost predicate Indexed()
      reads this
    {
      Matched(entries, sizes) && ByUse(entries, used, clock)
    }

    ghost function View(): seq<Item>
      requires Indexed()
      reads this
    {
      ViewOf(entries, sizes)
    }

    /** The byte total is the sum of the sizes and what loading counted too much; both caps hold of it. */
    ghost predicate Valid()
      reads this
    {
      Indexed() && total == TotalSize(View()) + drift && WithinCaps(View(), caps, drift)
    }

    constructor (c: Caps)
      ensures Valid() && View() == [] && caps == c && drift == 0
    {
      caps, entries, sizes, total, drift := c, [], map[], 0, 0;
      clock, used := 0, map[];
    }

    method EvictToFit()
      requires Indexed() && total == TotalSize(View()) + drift
      modifies `entries, `sizes, `total
      ensures Indexed() && View() == Evict(old(View()), caps, drift) && total == TotalSize(View()) + drift
    {
      hide Matched, ByUse, ViewOf, TotalSize;
      while entries != [] && (total > caps.maxBytes || (caps.maxEntries > 0 && |entries| > caps.maxEntries))
        invariant Indexed() && total == TotalSize(View()) + drift
        invariant Evict(View(), caps, drift) == Evict(old(View()), caps, drift)
        decreases |entries|
      {
        DropFirst(entries, sizes, used, clock);
        var key := entries[0];
        total := total - sizes[key];
        entries := entries[1..];
        sizes := sizes - {key};
      }
    }

    /** The end of store: oversized files are not indexed, others replace their key as the newest. */
    method Register(key: Key, size: nat)
      requires Valid()
      modifies this
      ensures Valid() && View() == Store(old(View()), caps, key, size, drift) && drift == old(drift)
    {
      hide ByUse, ViewOf, TotalSize, Without, Find, Evict, Removed;
      ViewDistinct(entries, sizes);
      StoreHolds(View(), caps, key, size, drift);
      WithoutIs(View(), key);
      TouchKey(entries, sizes, used, clock, key, size);
      ViewFinds(entries, sizes, key);
      if caps.maxBytes > 0 && size > caps.maxBytes { return; }
      total := total + size - if key in sizes then sizes[key] else 0;
      entries := Removed(entries, key) + [key];
      sizes := sizes[key := size];
      used, clock := used[key := clock], clock + 1;
      EvictToFit();
    }

    /** Whether the phrase is served; exists_ says whether its file is still there. */
    method LookupKey(key: Key, exists_: bool) returns (hit: bool)
      requires Valid()
      modifies this
      ensures Valid() && (View(), hit) == Lookup(old(View()), key, exists_) && drift == old(drift)
      ensures hit ==> key in used && used[key] == clock - 1
    {
      hide ByUse, ViewOf, TotalSize, Without, Find, Evict, Removed, Store;
      ViewDistinct(entries, sizes);
      LookupHolds(View(), caps, key, exists_, drift);
      WithoutIs(View(), key);
      ViewFinds(entries, sizes, key);
      if key !in entries { return false; }
      if !exists_ {
        DropKey(entries, sizes, used, clock, key);
        total := total - sizes[key];
        entries := Removed(entries, key);
        sizes := sizes - {key};
        return false;
      }
      TouchKey(entries, sizes, used, clock, key, sizes[key]);
      assert sizes[key := sizes[key]] == sizes;
      entries := Removed(entries, key) + [key];
      used, clock := used[key := clock], clock + 1;
      return true;
    }

    /** Rebuild from the files found, oldest first; a later file of the same key takes its place in the tables. */
    method LoadExisting(files: seq<Item>)
      requires Valid() && entries == [] && drift == 0
      modifies this
      ensures Valid() && drift == Shadowed(files) && View() == Evict(Loaded(files), caps, drift)
    {
      hide Matched, ByUse, ViewOf, Put, Find, TotalSize, Evict;
      assert files[..0] == [];
      EmptyView();
      for i := 0 to |files|
        invariant Indexed() && View() == Loaded(files[..i]) && total == TotalSize(View()) + Shadowed(files[..i])
      {
        assert files[..i + 1][..i] == files[..i];
        AddFile(files[i]);
      }
      assert files[..|files|] == files;
      drift := Shadowed(files);
      ghost var all := View();
      ghost var k := EvictShortest(all, caps, drift);
      EvictToFit();
      assert all[|all|..] == [];
    }

    method AddFile(f: Item)
      requires Indexed()
      modifies `entries, `sizes, `total, `used, `clock
      ensures Indexed() && View() == Put(old(View()), f) && total == old(total) + f.size
      ensures TotalSize(View()) + SizeOr0(Find(old(View()), f.key)) == TotalSize(old(View())) + f.size
    {
      PutIs(entries, sizes, f);
      if f.key !in entries { UseMore(entries, f.key, used, clock); }
      hide ViewOf, Put, Find, TotalSize, ByUse, Matched;
      if f.key !in entries {
        entries := entries + [f.key];
        used := used[f.key := clock];
        clock := clock + 1;
      }
      sizes := sizes[f.key := f.size];
      total := total + f.size;
    }
  }

  lemma EmptyView()
    ensures ViewOf([], map[]) == [] && TotalSize([]) == 0
  {}

  lemma ViewFinds(entries: seq<Key>, sizes: map<Key, nat>, key: Key)
    requires Matched(entries, sizes)
    ensures Find(ViewOf(entries, sizes), key) == if key in entries then Some(sizes[key]) else None
  {
    RemovedMembers(entries, key);
    RemovedView(entries, sizes, key);
  }

  lemma ViewDistinct(entries: seq<Key>, sizes: map<Key, nat>)
    requires Matched(entries, sizes)
    ensures Distinct(ViewOf(entries, sizes))
  {}

  // ---- Loading

  /** entries[key] = path keeps the place of a key that is already there. */
  function Put(s: seq<Item>, f: Item): seq<Item> {
    if s == [] then [f] else if s[0].key == f.key then [f] + s[1..] else [s[0]] + Put(s[1..], f)
  }

  function Loaded(files: seq<Item>): seq<Item> {
    if files == [] then [] else Put(Loaded(files[..|files| - 1]), files[|files| - 1])
  }

  /** Bytes of files whose key a later file took over: loading counts them for ever. */
  function Shadowed(files: seq<Item>): nat {
    if files == [] then 0
    else
      var front := files[..|files| - 1];
      Shadowed(front) + SizeOr0(Find(Loaded(front), files[|files| - 1].key))
  }

  lemma {:induction false} PutTotal(s: seq<Item>, f: Item)
    ensures TotalSize(Put(s, f)) + SizeOr0(Find(s, f.key)) == TotalSize(s) + f.size
  {
    if s != [] {
      if s[0].key == f.key {
        assert Put(s, f)[1..] == s[1..];
      } else {
        PutTotal(s[1..], f);
        assert Put(s, f)[1..] == Put(s[1..], f);
      }
    }
  }

  lemma {:induction false} PutView(entries: seq<Key>, sizes: map<Key, nat>, f: Item)
    requires (forall k <- entries :: k in sizes) && forall i, j :: 0 <= i < j < |entries| ==> entries[i] != entries[j]
    ensures ViewOf(if f.key in entries then entries else entries + [f.key], sizes[f.key := f.size])
         == Put(ViewOf(entries, sizes), f)
  {
    var sizes' := sizes[f.key := f.size];
    if entries == [] {
      assert ViewOf([f.key], sizes') == [f];
    } else {
      hide ViewOf;
      var first, rest := entries[0], entries[1..];
      assert entries == [first] + rest;
      ViewCons(first, rest, sizes);
      if first == f.key {
        assert forall k <- rest :: k != f.key;
        ViewAgrees(rest, sizes, sizes');
        ViewCons(first, rest, sizes');
      } else {
        PutView(rest, sizes, f);
        var rest' := if f.key in rest then rest else rest + [f.key];
        assert (if f.key in entries then entries else entries + [f.key]) == [first] + rest';
        ViewCons(first, rest', sizes');
      }
    }
  }

  lemma PutIs(entries: seq<Key>, sizes: map<Key, nat>, f: Item)
    requires Matched(entries, sizes)
    ensures var entries', sizes' := if f.key in entries then entries else entries + [f.key], sizes[f.key := f.size];
            && Matched(entries', sizes') && ViewOf(entries', sizes') == Put(ViewOf(entries, sizes), f)
    ensures TotalSize(Put(ViewOf(entries, sizes), f)) + SizeOr0(Find(ViewOf(entries, sizes), f.key))
         == TotalSize(ViewOf(entries, sizes)) + f.size
  {
    PutTotal(ViewOf(entries, sizes), f);
    PutView(entries, sizes, f);
  }

  lemma {:induction false} PutFind(s: seq<Item>, f: Item, key: Key)
    ensures Find(Put(s, f), key) == if key == f.key then Some(f.size) else Find(s, key)
  {
    if s != [] && s[0].key != f.key {
      PutFind(s[1..], f, key);
      assert Put(s, f)[1..] == Put(s[1..], f);
    } else {
      assert s == [] || Put(s, f)[1..] == s[1..];
    }
  }

  /** What loading keeps for a key: the size of its last file. */
  lemma {:induction false} LoadedFind(files: seq<Item>, key: Key) returns (i: int)
    ensures -1 <= i < |files| && forall j :: i < j < |files| ==> files[j].key != key
    ensures if i == -1 then Find(Loaded(files), key).None? else files[i].key == key && Find(Loaded(files), key) == Some(files[i].size)
  {
    if files == [] {
      i := -1;
    } else {
      var n := |files| - 1;
      hide Find, Put;
      PutFind(Loaded(files[..n]), files[n], key);
      if files[n].key == key {
        i := n;
      } else {
        i := LoadedFind(files[..n], key);
        hide Loaded;
        forall j | i < j < |files| ensures files[j].key != key {
          if j < n { assert files[..n][j].key != key; }
        }
      }
    }
  }

  /** firsts are the places at which each key first appears among the files. */
  ghost predicate FirstPlaces(files: seq<Item>, firsts: seq<nat>) {
    && (forall i :: 0 <= i < |firsts| ==> firsts[i] < |files| && FirstOfKey(files, firsts[i]))
    && (forall i, j :: 0 <= i < j < |firsts| ==> firsts[i] < firsts[j])
    && forall n: nat :: n < |files| && FirstOfKey(files, n) ==> n in firsts
  }

  ghost predicate FirstOfKey(files: seq<Item>, n: nat)
    requires n < |files|
  {
    forall m :: 0 <= m < n ==> files[m].key != files[n].key
  }

  lemma {:induction false} PutKeys(s: seq<Item>, f: Item)
    ensures var r := Put(s, f);
            && |r| == (if exists x <- s :: x.key == f.key then |s| else |s| + 1)
            && (forall i :: 0 <= i < |s| ==> r[i].key == s[i].key)
            && (|r| > |s| ==> r[|s|] == f)
  {
    if s != [] && s[0].key != f.key {
      PutKeys(s[1..], f);
      var r, t := Put(s, f), Put(s[1..], f);
      assert r == [s[0]] + t && forall x <- s :: x == s[0] || x in s[1..];
      forall i | 0 <= i < |s| ensures r[i].key == s[i].key { if i > 0 { assert r[i] == t[i - 1] && s[i] == s[1..][i - 1]; } }
      if |r| > |s| { assert r[|s|] == t[|s| - 1]; }
    } else if s != [] {
      assert s[0] in s;
    }
  }

  lemma FirstsBefore(files: seq<Item>, f: Item, m: nat)
    requires m < |files|
    ensures FirstOfKey(files + [f], m) <==> FirstOfKey(files, m)
  {
    var all := files + [f];
    assert forall i :: 0 <= i < |files| ==> all[i] == files[i];
  }

  lemma FirstsGrow(files: seq<Item>, f: Item, firsts: seq<nat>, known: bool)
    requires FirstPlaces(files, firsts) && (known <==> exists m :: 0 <= m < |files| && files[m].key == f.key)
    ensures FirstPlaces(files + [f], if known then firsts else firsts + [|files|])
  {
    hide FirstOfKey;
    var all, n := files + [f], |files|;
    assert FirstOfKey(all, n) <==> !known by { LastIsFirst(files, f); }
    forall m: nat | m < n ensures FirstOfKey(all, m) <==> FirstOfKey(files, m) { FirstsBefore(files, f, m); }
  }

  lemma LastIsFirst(files: seq<Item>, f: Item)
    ensures FirstOfKey(files + [f], |files|) <==> forall m :: 0 <= m < |files| ==> files[m].key != f.key
  {
    var all := files + [f];
    assert forall i :: 0 <= i < |files| ==> all[i] == files[i];
  }

  /** Keys are kept in the order in which their first files were found. */
  lemma {:induction false} LoadedOrder(files: seq<Item>) returns (firsts: seq<nat>)
    ensures FirstPlaces(files, firsts) && |Loaded(files)| == |firsts|
    ensures forall i :: 0 <= i < |firsts| ==> firsts[i] < |files| && Loaded(files)[i].key == files[firsts[i]].key
  {
    hide FirstOfKey, Put, Find;
    if files == [] {
      firsts := [];
    } else {
      var n := |files| - 1;
      var front, f := files[..n], files[n];
      firsts := LoadedOrder(front);
      PutKeys(Loaded(front), f);
      var at := LoadedFind(front, f.key);
      FindIs(Loaded(front), f.key);
      assert Loaded(files) == Put(Loaded(front), f);
      hide Loaded;
      assert files == front + [f];
      assert at == -1 ==> forall m :: 0 <= m < n ==> front[m].key != f.key;
      FirstsGrow(front, f, firsts, at != -1);
      hide FirstPlaces;
      if at == -1 { firsts := firsts + [n]; }
    }
  }

  /** No file with bytes in it is followed by another of its key. */
  ghost predicate OnePerKey(files: seq<Item>) {
    forall i, j :: 0 <= i < j < |files| && files[i].key == files[j].key ==> files[i].size == 0
  }

  /** Loading counts the bytes right exactly when each key has one file (or only empty ones before its last). */
  lemma {:induction false} CountRightIff(files: seq<Item>)
    ensures Shadowed(files) == 0 <==> OnePerKey(files)
  {
    if files != [] {
      var n := |files| - 1;
      var front, f := files[..n], files[n];
      CountRightIff(front);
      var i := LoadedFind(front, f.key);
      hide Loaded, Find;
      assert files == front + [f];
      if OnePerKey(files) {
        assert OnePerKey(front);
        if i >= 0 { assert files[i].key == files[n].key; }
      }
      if OnePerKey(front) && Shadowed(files) == 0 {
        forall k | 0 <= k < n && files[k].key == f.key ensures files[k].size == 0 {
          assert k <= i;
          assert front[k].key == front[i].key;
        }
        assert OnePerKey(files);
      }
    }
  }

  /** With one file for each key the index is the files found, oldest first. */
  lemma {:induction false} NothingShadowed(files: seq<Item>)
    requires Distinct(files)
    ensures Shadowed(files) == 0 && Loaded(files) == files
  {
    if files != [] {
      var front, f := files[..|files| - 1], files[|files| - 1];
      NothingShadowed(front);
      PutNew(front, f);
      assert files == front + [f];
    }
  }

  lemma {:induction false} PutNew(s: seq<Item>, f: Item)
    requires forall x <- s :: x.key != f.key
    ensures Put(s, f) == s + [f] && Find(s, f.key).None?
  {
    if s != [] { PutNew(s[1..], f); }
  }

  /** Two files of one key: the first one's bytes are counted for ever, and an entry within the cap is thrown out. */
  lemma ShadowedOverCounts()
    ensures var files := [Item(7, 60), Item(7, 50)];
            Shadowed(files) == 60 && Loaded(files) == [Item(7, 50)] && Evict(Loaded(files), Caps(100, 0), 60) == []
  {
    var files := [Item(7, 60), Item(7, 50)];
    var one := [Item(7, 60)];
    assert files[..1] == one && one[..0] == [];
    assert Loaded(one) == [Item(7, 60)] && Shadowed(one) == 0;
    var last := [Item(7, 50)];
    assert Put(one, Item(7, 50)) == last;
    assert Find(one, 7) == Some(60);
    assert last[1..] == [];
    assert !Caps(100, 0).Allow(last, 60);
  }
}
