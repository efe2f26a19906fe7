/** The write-back cache in front of the state store: a bounded read cache with a least-recently-used list, and the set
of records touched since the last commit, which are written back together.

A record is an object, so the touched set and the cache hold references to it and a caller that fetched a record updates
it in place. */
module WriteBackCache {
  import opened Sets
  import opened Wrappers

  /** One record in memory. The ghost key says which record it is. */
  class Cell<V> {
    ghost const key: string
    var value: V

    constructor (ghost key: string, value: V)
      ensures this.key == key && this.value == value
    {
      this.key := key;
      this.value := value;
    }
  }

  // ---------------------------------------------------------------------------------------------
  // The recency list, most recent first
  // ---------------------------------------------------------------------------------------------

  ghost predicate NoRepeats(list: seq<string>) {
    forall i, j | 0 <= i < j < |list| :: list[i] != list[j]
  }

  function Without(list: seq<string>, key: string): seq<string> {
    if list == [] then [] else if list[0] == key then list[1..] else [list[0]] + Without(list[1..], key)
  }

  lemma ConsNoRepeats(key: string, rest: seq<string>)
    requires NoRepeats(rest) && key !in rest
    ensures NoRepeats([key] + rest)
  {
  }

  lemma {:induction false} WithoutHas(list: seq<string>, key: string)
    requires NoRepeats(list)
    ensures forall k :: k in Without(list, key) <==> k in list && k != key
    ensures NoRepeats(Without(list, key))
  {
    if list != [] {
      WithoutHas(list[1..], key);
      assert list == [list[0]] + list[1..];
      assert list[0] !in list[1..];
      if list[0] != key {
        ConsNoRepeats(list[0], Without(list[1..], key));
      }
    }
  }

  lemma MovedToFront(list: seq<string>, key: string)
    requires NoRepeats(list)
    ensures NoRepeats([key] + Without(list, key))
    ensures forall k :: k in [key] + Without(list, key) <==> k in list || k == key
  {
    WithoutHas(list, key);
    ConsNoRepeats(key, Without(list, key));
  }

  function IfDroppable(key: string, touched: set<string>): seq<string> {
    if key in touched || key == "" then [] else [key]
  }

  /** The keys of the list that eviction may drop, in list order. */
  function Evictable(list: seq<string>, touched: set<string>): seq<string> {
    if list == [] then [] else IfDroppable(list[0], touched) + Evictable(list[1..], touched)
  }

  lemma Associative(a: seq<string>, b: seq<string>, c: seq<string>)
    ensures a + b + c == a + (b + c)
  {
  }

  lemma {:induction false} EvictableOfSum(a: seq<string>, b: seq<string>, touched: set<string>)
    ensures Evictable(a + b, touched) == Evictable(a, touched) + Evictable(b, touched)
  {
    if a == [] {
      assert a + b == b;
    } else {
      EvictableOfSum(a[1..], b, touched);
      assert (a + b)[0] == a[0] && (a + b)[1..] == a[1..] + b;
      Associative(IfDroppable(a[0], touched), Evictable(a[1..], touched), Evictable(b, touched));
    }
  }

  /** What moving the last key to the front or dropping it does to the list. */
  lemma BackFacts(list: seq<string>, touched: set<string>)
    requires list != [] && NoRepeats(list)
    ensures var back, rest := list[|list| - 1], list[..|list| - 1];
            && NoRepeats(rest) && NoRepeats([back] + rest)
            && (forall k :: k in list <==> k in rest || k == back) && back !in rest
            && (back in touched || back == "" ==>
                  Evictable(rest, touched) == Evictable(list, touched) == Evictable([back] + rest, touched))
            && Evictable(rest, touched) <= Evictable(list, touched)
  {
    var back, rest := list[|list| - 1], list[..|list| - 1];
    assert list == rest + [back];
    EvictableOfSum(rest, [back], touched);
    EvictableOfSum([back], rest, touched);
    ConsNoRepeats(back, rest);
  }

  /** The list has no repeats; it holds the indexed keys, except perhaps the empty one; the cached keys are indexed. */
  ghost predicate Listed(lru: seq<string>, index: set<string>, cached: set<string>) {
    && NoRepeats(lru)
    && (forall k | k in lru :: k in index)
    && (forall k | k in index :: k in lru || k == "")
    && cached <= index
  }

  /** Eviction on the way from cache and list (c0, l0) to (c, l): what is gone is what was used least recently. */
  ghost predicate Evicted<T>(
      c0: map<string, T>, l0: seq<string>, c: map<string, T>, l: seq<string>, touched: set<string>) {
    && (forall k | k in c :: k in c0 && c[k] == c0[k])
    && (forall k | k in c0 && (k in touched || k == "") :: k in c)
    && (forall k | k in c0 && k !in touched && k != "" :: k in c <==> k in l)
    && Evictable(l, touched) <= Evictable(l0, touched)
  }

  lemma KeepBack<T>(
      c0: map<string, T>, l0: seq<string>, c: map<string, T>, l: seq<string>, index: set<string>, touched: set<string>)
    requires l != [] && Listed(l, index, c.Keys) && Evicted(c0, l0, c, l, touched)
    ensures var back, rest := l[|l| - 1], l[..|l| - 1];
            && (back in touched ==> Listed([back] + rest, index, c.Keys) && Evicted(c0, l0, c, [back] + rest, touched))
            && (back == "" ==> Listed(rest, index, c.Keys) && Evicted(c0, l0, c, rest, touched))
  {
    BackFacts(l, touched);
  }

  /** The first keys of the list are touched: they were moved there since the last drop. */
  ghost predicate FirstTouched(l: seq<string>, skipped: nat, touched: set<string>) {
    && skipped <= |l| && (skipped == |l| ==> "" !in l)
    && forall i | 0 <= i < skipped :: l[i] in touched
  }

  ghost predicate MayStay(keys: set<string>, touched: set<string>) {
    forall k | k in keys :: k in touched || k == ""
  }

  lemma FirstTouchedFacts(l: seq<string>, skipped: nat, index: set<string>, cached: set<string>, touched: set<string>)
    requires l != [] && FirstTouched(l, skipped, touched) && Listed(l, index, cached)
    ensures var back, rest := l[|l| - 1], l[..|l| - 1];
            && (back == "" ==> FirstTouched(rest, skipped, touched)) && FirstTouched(rest, 0, touched)
            && (back in touched && skipped + 1 < |l| ==> FirstTouched([back] + rest, skipped + 1, touched))
            && (back in touched && skipped + 1 >= |l| ==> MayStay(cached, touched))
  {
  }

  lemma DropBack<T>(
      c0: map<string, T>, l0: seq<string>, c: map<string, T>, l: seq<string>, index: set<string>, touched: set<string>)
    requires l != [] && Listed(l, index, c.Keys) && Evicted(c0, l0, c, l, touched)
    requires l[|l| - 1] !in touched && l[|l| - 1] != ""
    ensures var back, rest := l[|l| - 1], l[..|l| - 1];
            && Listed(rest, index - {back}, (c - {back}).Keys) && Evicted(c0, l0, c - {back}, rest, touched)
            && |c - {back}| >= |c| - 1
  {
    BackFacts(l, touched);
    var back := l[|l| - 1];
    if back in c {
      assert (c - {back}).Keys == c.Keys - {back};
    } else {
      assert c - {back} == c;
    }
  }

  lemma OnlyEmptyKey(keys: set<string>)
    ensures (forall k | k in keys :: k == "") ==> |keys| <= 1
  {
    if forall k | k in keys :: k == "" {
      assert keys <= {""};
      assert {""} == keys + ({""} - keys);
    }
  }

  /** Drops the least recently used untouched keys, no more than needed, and never a touched one.

  What can remain above the cap is what may not be dropped: touched keys, and the empty key. */
  method EvictIfNeeded<T>(cache: map<string, T>, touched: set<string>, cap: int, lru: seq<string>, index: set<string>)
    returns (c: map<string, T>, l: seq<string>, ix: set<string>)
    requires Listed(lru, index, cache.Keys)
    ensures Listed(l, ix, c.Keys) && Evicted(cache, lru, c, l, touched)
    ensures cap > 0 && |c| > cap ==> MayStay(c.Keys, touched)
    ensures |c| >= cap > 0 || c == cache
  {
    c, l, ix := cache, lru, index;
    if cap <= 0 {
      return;
    }
    var skipped := 0;
    while |c| > cap
      invariant Listed(l, ix, c.Keys) && Evicted(cache, lru, c, l, touched) && FirstTouched(l, skipped, touched)
      invariant |c| >= cap > 0 || c == cache
      decreases |l|, |l| - skipped
    {
      if l == [] {
        OnlyEmptyKey(c.Keys);
        break;
      }
      FirstTouchedFacts(l, skipped, ix, c.Keys, touched);
      var back, rest := l[|l| - 1], l[..|l| - 1];
      if back == "" {
        KeepBack(cache, lru, c, l, ix, touched);
        l := rest;
        continue;
      }
      if back in touched {
        KeepBack(cache, lru, c, l, ix, touched);
        l := [back] + rest;
        skipped := skipped + 1;
        if skipped >= |l| {
          break;
        }
        continue;
      }
      DropBack(cache, lru, c, l, ix, touched);
      c := c - {back};
      l := rest;
      ix := ix - {back};
      skipped := 0;
    }
  }

  /** Above its cap only with every cached key touched: that holds of an eviction exactly unless the empty key is cached
  and untouched while the touched keys alone fill the cap. */
  lemma AboveCapMeansAllTouchedIff(cached: set<string>, kept: set<string>, touched: set<string>, cap: int)
    requires cap > 0 && kept <= cached && (forall k | k in cached && (k in touched || k == "") :: k in kept)
    requires |kept| > cap ==> MayStay(kept, touched)
    ensures (|kept| > cap ==> kept <= touched) <==> !("" in cached && "" !in touched && |cached * touched| >= cap)
  {
    if "" in cached && "" !in touched {
      SubsetCount(cached * touched + {""}, kept);
      if |kept| > cap {
        assert kept <= cached * touched + {""};
        SubsetCount(kept, cached * touched + {""});
      }
    } else if |kept| > cap && "" in kept {
      assert "" in cached;
    }
  }

  /** Every entry is its own key's record, and one of the given objects. */
  ghost predicate Own<V>(m: map<string, Cell<V>>, cells: set<Cell<V>>) {
    forall k | k in m :: m[k].key == k && m[k] in cells
  }

  /** A key in both maps has one object. */
  ghost predicate Agree<V>(m: map<string, Cell<V>>, n: map<string, Cell<V>>) {
    forall k | k in m && k in n :: m[k] == n[k]
  }

  /** The cached keys after `key` was made the most recent one: touched keys are still there, above the cap only such
  keys are, and the key itself is gone only then. */
  ghost predicate KeysAfterTouch(
      before: set<string>, after: set<string>, key: string, touched: set<string>, cap: int) {
    && after <= before && before * touched <= after
    && (key in before && key !in after ==> 0 < cap <= |after| && MayStay(after, touched))
    && (cap > 0 && |after| > cap ==> MayStay(after, touched))
  }

  ghost predicate AfterTouch<V>(
      before: map<string, V>, after: map<string, V>, key: string, touched: set<string>, cap: int) {
    && (forall k | k in after :: k in before && after[k] == before[k])
    && KeysAfterTouch(before.Keys, after.Keys, key, touched, cap)
  }

  /** The touched keys that stay cached when the getter touches `key`: a new one is kept while they do not
  fill the cap. */
  function KeptAfterGet(kept: set<string>, touched: set<string>, key: string, cap: int): set<string> {
    if key in touched || 0 < cap <= |kept| then kept else kept + {key}
  }

  /** The same for a record that is put: one that was touched before is not dropped. */
  function KeptAfterPut(kept: set<string>, touched: set<string>, key: string, cap: int): set<string> {
    if key in touched then kept + {key} else KeptAfterGet(kept, touched, key, cap)
  }

  lemma DroppedKeys(before: set<string>, after: set<string>, key: string, touched: set<string>, cap: int)
    requires KeysAfterTouch(before + {key}, after, key, touched, cap) && "" !in before && key != ""
    requires key !in touched && key !in after
    ensures after == before * touched && 0 < cap <= |after|
  {
  }

  /** Which touched keys stay cached does not depend on what else the cache holds. */
  lemma KeptKeys(before: set<string>, after: set<string>, key: string, touched: set<string>, cap: int)
    requires KeysAfterTouch(before + {key}, after, key, touched, cap) && "" !in before && key != ""
    ensures "" !in after && after * (touched + {key}) == KeptAfterPut(before * touched, touched, key, cap)
  {
    var kept := before * touched;
    if key in touched {
      assert after * (touched + {key}) == kept + {key};
    } else if key in after {
      assert after * (touched + {key}) == kept + {key};
      SubsetCount(kept + {key}, after);
    } else {
      DroppedKeys(before, after, key, touched, cap);
    }
  }

  /** The same, as what an operation on the cache does; it is not said of a cache that holds the empty key. */
  ghost predicate Keeps(before: set<string>, after: set<string>, key: string, touched: set<string>, cap: int) {
    "" !in before && key != "" ==>
      "" !in after && after * (touched + {key}) == KeptAfterPut(before * touched, touched, key, cap)
  }

  lemma {:induction false} EvictableEmpty(list: seq<string>, touched: set<string>)
    requires Evictable(list, touched) == []
    ensures forall k | k in list :: k in touched || k == ""
  {
    if list != [] {
      EvictableEmpty(list[1..], touched);
      assert list == [list[0]] + list[1..];
    }
  }

  lemma {:induction false} EvictableHas(list: seq<string>, touched: set<string>)
    ensures forall k | k in Evictable(list, touched) :: k in list
  {
    if list != [] {
      EvictableHas(list[1..], touched);
      assert list == [list[0]] + list[1..];
    }
  }

  lemma PrefixHead(prefix: seq<string>, whole: seq<string>)
    requires prefix <= whole && whole != []
    ensures prefix == [] || whole[0] in prefix
  {
  }

  /** The most recent key is dropped last: when it is gone, only what may not be dropped is left. */
  lemma NewestGoesLast<T>(
      c0: map<string, T>, l0: seq<string>, c: map<string, T>, l: seq<string>, index: set<string>, touched: set<string>)
    requires l0 != [] && l0[0] in c0 && l0[0] !in c && l0[0] != ""
    requires Listed(l, index, c.Keys) && Evicted(c0, l0, c, l, touched)
    ensures MayStay(c.Keys, touched)
  {
    EvictableHas(l, touched);
    PrefixHead(Evictable(l, touched), Evictable(l0, touched));
    EvictableEmpty(l, touched);
  }

  lemma TouchResult<V>(
      before: map<string, V>, key: string, l0: seq<string>, c: map<string, V>, l: seq<string>, index: set<string>,
        touched: set<string>, cap: int)
    requires key != "" ==> l0 != [] && l0[0] == key
    requires Listed(l, index, c.Keys) && Evicted(before, l0, c, l, touched)
    requires (cap > 0 && |c| > cap ==> MayStay(c.Keys, touched)) && (|c| >= cap > 0 || c == before)
    ensures AfterTouch(before, c, key, touched, cap)
  {
    if key in before && key !in c {
      NewestGoesLast(before, l0, c, l, index, touched);
    }
  }

  /** m is part of n, but for the entry of `key`, which is the given object. */
  ghost predicate PartBut<V>(m: map<string, V>, n: map<string, V>, key: string, value: V) {
    && (forall k | k in m && k != key :: k in n && m[k] == n[k])
    && (key in m ==> m[key] == value)
  }

  lemma PutResult<V>(
      before: map<string, V>, after: map<string, V>, key: string, value: V, touched: set<string>, cap: int)
    requires AfterTouch(before[key := value], after, key, touched, cap)
    ensures PartBut(after, before, key, value)
    ensures KeysAfterTouch(before.Keys + {key}, after.Keys, key, touched, cap)
  {
    assert before[key := value].Keys == before.Keys + {key};
  }

  lemma OneMoreTouched<V>(
      before: map<string, Cell<V>>, c: map<string, Cell<V>>, touched: map<string, Cell<V>>, cells: set<Cell<V>>,
        key: string, cell: Cell<V>)
    requires Own(before, cells) && Own(touched, cells) && Agree(before, touched) && cell.key == key
    requires PartBut(c, before, key, cell)
    ensures Own(c, cells + {cell}) && Own(touched[key := cell], cells + {cell}) && Agree(c, touched[key := cell])
  {
  }

  // ---------------------------------------------------------------------------------------------
  // The cache
  // ---------------------------------------------------------------------------------------------

  lemma PendingUpdate<V>(store: map<string, V>, pending: map<string, V>, key: string, value: V)
    ensures store + pending[key := value] == (store + pending)[key := value]
  {
  }

  function WithDefault<V>(m: map<string, V>, key: string, zero: V): map<string, V> {
    if key in m then m else m[key := zero]
  }

  lemma PendingDefault<V>(store: map<string, V>, pending: map<string, V>, key: string, value: V, zero: V)
    requires key !in pending && value == if key in store then store[key] else zero
    ensures store + pending[key := value] == WithDefault(store + pending, key, zero)
    ensures key in store + pending <==> key in store
  {
  }

  class Cache<V> {
    const cap: int
    const zero: V
    var cache: map<string, Cell<V>>
    var touched: map<string, Cell<V>>
    var lru: seq<string>
    var index: set<string>
    var store: map<string, V>
    var created: nat
    ghost var cells: set<Cell<V>>

    /** Every entry is this key's own record, and a key's entries in the touched set and the cache are one object. */
    ghost predicate Objects()
      reads this
    {
      Own(cache, cells) && Own(touched, cells) && Agree(cache, touched)
    }

    /** A cached record that was not touched since the last commit is what the store holds. */
    ghost predicate Clean()
      reads this, cells
    {
      forall k | k in cache && k !in touched :: k in store && cache[k] in cells && cache[k].value == store[k]
    }

    ghost predicate Valid()
      reads this, cells
    {
      Listed(lru, index, cache.Keys) && Objects() && Clean()
    }

    /** The values waiting to be written back. */
    ghost function Pending(): map<string, V>
      requires Own(touched, cells)
      reads `touched, `cells, cells
    {
      map k | k in touched :: touched[k].value
    }

    /** The plain map that the three layers stand for. */
    ghost function Contents(): map<string, V>
      requires Own(touched, cells)
      reads `store, `touched, `cells, cells
    {
      store + Pending()
    }

    /** Everything pending has reached the store. */
    ghost predicate Flushed()
      requires Objects()
      reads this, cells
    {
      forall k | k in touched :: k in store && touched[k].value == store[k]
    }

    constructor (cap: int, zero: V, store: map<string, V>)
      ensures Valid() && Flushed() && Contents() == store && this.store == store && touched == map[] && cache == map[]
      ensures this.cap == cap && this.zero == zero && cells == {} && created == 0
    {
      this.cap, this.zero, this.store := cap, zero, store;
      cache, touched, lru, index, created, cells := map[], map[], [], {}, 0, {};
    }

    method Touch(key: string)
      requires Listed(lru, index, cache.Keys - {key})
      modifies `lru, `index
      ensures Listed(lru, index, cache.Keys)
      ensures key != "" ==> lru != [] && lru[0] == key
    {
      if key in index {
        if key in lru {
          MovedToFront(lru, key);
          lru := [key] + Without(lru, key);
        }
        return;
      }
      index := index + {key};
      ConsNoRepeats(key, lru);
      lru := [key] + lru;
    }

    /** The touched keys that are cached. */
    ghost function Kept(): set<string>
      reads `cache, `touched
    {
      cache.Keys * touched.Keys
    }

    /** No record is cached under the empty key. */
    ghost predicate Named()
      reads this
    {
      "" !in cache
    }

    /** Every untouched cached record but this one's is what the store holds. */
    ghost predicate CleanBut(key: string)
      reads this, cache.Values
    {
      forall k | k in cache && k !in touched && k != key :: k in store && cache[k].value == store[k]
    }

    /** Makes a record the most recent one and evicts. */
    method TouchAndEvict(key: string)
      requires Listed(lru, index, cache.Keys - {key})
      modifies `cache, `lru, `index
      ensures Listed(lru, index, cache.Keys) && AfterTouch(old(cache), cache, key, touched.Keys, cap)
    {
      Touch(key);
      ghost var l0 := lru;
      cache, lru, index := EvictIfNeeded(cache, touched.Keys, cap, lru, index);
      TouchResult(old(cache), key, l0, cache, lru, index, touched.Keys, cap);
    }

    /** Enters a record as the most recent one and evicts. */
    method Place(key: string, cell: Cell<V>)
      requires Listed(lru, index, cache.Keys)
      modifies `cache, `lru, `index
      ensures Listed(lru, index, cache.Keys) && PartBut(cache, old(cache), key, cell)
      ensures Keeps(old(cache).Keys, cache.Keys, key, touched.Keys, cap)
    {
      cache := cache[key := cell];
      TouchAndEvict(key);
      PutResult(old(cache), cache, key, cell, touched.Keys, cap);
      if "" !in old(cache) && key != "" {
        KeptKeys(old(cache).Keys, cache.Keys, key, touched.Keys, cap);
      }
    }

    /** Makes a cached record the most recent one and evicts. */
    method Revisit(key: string)
      requires Listed(lru, index, cache.Keys) && key in cache
      modifies `cache, `lru, `index
      ensures Listed(lru, index, cache.Keys) && PartBut(cache, old(cache), key, old(cache)[key])
      ensures Keeps(old(cache).Keys, cache.Keys, key, touched.Keys, cap)
    {
      assert cache[key := cache[key]] == cache;
      TouchAndEvict(key);
      PutResult(old(cache), cache, key, old(cache)[key], touched.Keys, cap);
      if "" !in old(cache) && key != "" {
        KeptKeys(old(cache).Keys, cache.Keys, key, touched.Keys, cap);
      }
    }

    /** Puts a record into the cache as the most recent one; the record itself may be evicted at once. */
    method Put(key: string, cell: Cell<V>)
      requires Valid() && cell.key == key
      modifies `cache, `lru, `index
      ensures Listed(lru, index, cache.Keys) && Keeps(old(cache).Keys, cache.Keys, key, touched.Keys, cap)
      ensures Own(cache, cells + {cell}) && Agree(cache, touched[key := cell]) && CleanBut(key)
    {
      Place(key, cell);
      OneMoreTouched(old(cache), cache, touched, cells, key, cell);
    }

    /** Marks a record as touched. */
    method Mark(key: string, cell: Cell<V>)
      requires Listed(lru, index, cache.Keys) && CleanBut(key)
      requires Own(cache, cells + {cell}) && Own(touched, cells) && Agree(cache, touched[key := cell])
               && cell.key == key
      modifies `touched, `cells
      ensures Valid() && cells == old(cells) + {cell} && touched == old(touched)[key := cell]
      ensures Pending() == old(Pending())[key := cell.value]
      ensures touched.Keys == old(touched).Keys + {key}
    {
      cells := cells + {cell};
      touched := touched[key := cell];
    }

    /** Brings a record that is in neither the touched set nor the cache into both, unless it is evicted at once. */
    method Admit(key: string, value: V) returns (cell: Cell<V>)
      requires Valid()
      modifies `cache, `lru, `index, `touched, `cells
      ensures Valid() && fresh(cell) && cells == old(cells) + {cell}
      ensures touched == old(touched)[key := cell] && Pending() == old(Pending())[key := value]
      ensures old(Named()) && key != "" ==> Named() && Kept() == KeptAfterPut(old(Kept()), old(touched).Keys, key, cap)
    {
      cell := new Cell(key, value);
      Put(key, cell);
      Mark(key, cell);
    }

    /** Makes a touched record the most recent one. */
    method Refresh(key: string)
      requires Valid() && key in touched
      modifies `cache, `lru, `index
      ensures Valid() && Contents() == old(Contents()) && Kept() == old(Kept()) && (old(Named()) ==> Named())
    {
      TouchAndEvict(key);
    }

    /** Marks a cached record as touched and makes it the most recent one. */
    method Recall(key: string) returns (cell: Cell<V>)
      requires Valid() && key !in touched && key in cache
      modifies `cache, `lru, `index, `touched, `cells
      ensures Valid() && cells == old(cells) && touched == old(touched)[key := cell]
      ensures key in store && Pending() == old(Pending())[key := store[key]]
      ensures old(Named()) && key != "" ==> Named() && Kept() == KeptAfterPut(old(Kept()), old(touched).Keys, key, cap)
    {
      cell := cache[key];
      Revisit(key);
      OneMoreTouched(old(cache), cache, touched, cells, key, cell);
      assert cells == cells + {cell};
      Mark(key, cell);
    }

    /** The validator getter: touched set, then cache, then store; a record that exists nowhere is not created. */
    method GetExisting(key: string) returns (found: Option<Cell<V>>)
      requires Valid()
      modifies this
      ensures Valid() && store == old(store) && created == old(created) && fresh(cells - old(cells))
              && old(cells) <= cells
      ensures found.Some? <==> key in old(Contents())
      ensures touched == if found.Some? then old(touched)[key := found.value] else old(touched)
      ensures touched.Keys == if found.Some? then old(touched).Keys + {key} else old(touched).Keys
      ensures key in old(touched) ==> found == Some(old(touched)[key])
      ensures Contents() == old(Contents())
      ensures old(Named()) && key != "" ==>
                Named() && Kept() ==
                  if found.Some? then KeptAfterGet(old(Kept()), old(touched).Keys, key, cap) else old(Kept())
    {
      if key in touched {
        Refresh(key);
        return Some(touched[key]);
      }
      if key !in cache && key !in store {
        return None;
      }
      PendingDefault(store, Pending(), key, store[key], store[key]);
      var cell;
      if key in cache {
        cell := Recall(key);
      } else {
        cell := Admit(key, store[key]);
      }
      found := Some(cell);
    }

    method CreateNew(key: string) returns (cell: Cell<V>)
      requires Valid() && key !in Contents()
      modifies this
      ensures Valid() && store == old(store) && cells == old(cells) + {cell} && fresh(cell)
      ensures touched == old(touched)[key := cell] && created == old(created) + 1
      ensures Contents() == old(Contents())[key := zero]
    {
      PendingDefault(store, Pending(), key, zero, zero);
      cell := Admit(key, zero);
      created := created + 1;
    }

    /** The account getter: the same layers, and a new record with the zero value where the validator getter
    finds none. */
    method GetOrCreate(key: string) returns (cell: Cell<V>)
      requires Valid()
      modifies this
      ensures Valid() && store == old(store) && fresh(cells - old(cells)) && old(cells) <= cells
      ensures touched == old(touched)[key := cell]
      ensures key in old(touched) ==> cell == old(touched)[key]
      ensures Contents() == WithDefault(old(Contents()), key, zero)
      ensures created == old(created) + if key in old(Contents()) then 0 else 1
    {
      var found := GetExisting(key);
      if found.Some? {
        return found.value;
      }
      cell := CreateNew(key);
    }

    /** Brings a stored record into the cache without touching it. */
    method Load(key: string)
      requires Valid() && key !in touched && key in store
      modifies `cache, `lru, `index, `cells
      ensures Valid() && Pending() == old(Pending()) && fresh(cells - old(cells)) && old(cells) <= cells
    {
      var cell := new Cell(key, store[key]);
      Put(key, cell);
      cells := cells + {cell};
    }

    /** The read-only getter of the other threads: what it returns is the logical value, and nothing becomes pending. */
    method Peek(key: string) returns (value: Option<V>)
      requires Valid()
      modifies `cache, `lru, `index, `cells
      ensures Valid() && Contents() == old(Contents()) && fresh(cells - old(cells)) && old(cells) <= cells
      ensures value == if key in old(Contents()) then Some(old(Contents())[key]) else None
    {
      if key in touched {
        return Some(touched[key].value);
      }
      if key in cache {
        return Some(cache[key].value);
      }
      if key !in store {
        return None;
      }
      Load(key);
      value := Some(store[key]);
    }

    /** Looking in the cache and the store finds every record that exists, exactly unless it is only in the
    touched set. */
    lemma CreationCheckExactIff(key: string)
      requires Valid()
      ensures (key in cache || key in store <==> key in Contents()) <==>
              !(key in touched && key !in cache && key !in store)
      ensures key in cache || key in store <==> key in Kept() || key in store
    {
    }

    /** Creation of a validator: the check looks at the cache and the store but not at the touched set. */
    method CreateIfAbsent(key: string, value: V) returns (ok: bool)
      requires Valid()
      modifies this
      ensures Valid() && store == old(store) && fresh(cells - old(cells)) && old(cells) <= cells
      ensures ok <==> key !in old(cache) && key !in old(store)
      ensures Contents() == if ok then old(Contents())[key := value] else old(Contents())
      ensures touched.Keys == if ok then old(touched).Keys + {key} else old(touched).Keys
      ensures old(Named()) && key != "" ==>
                Named() && Kept() == if ok then KeptAfterPut(old(Kept()), old(touched).Keys, key, cap) else old(Kept())
    {
      if key in cache || key in store {
        return false;
      }
      ghost var before := Pending();
      var _ := Admit(key, value);
      PendingUpdate(store, before, key, value);
      ok := true;
    }

    /** An update through a fetched reference: it changes the logical value of that record and of no other. */
    method Write(key: string, cell: Cell<V>, value: V)
      requires Valid() && key in touched && touched[key] == cell
      modifies cell
      ensures Valid() && Contents() == old(Contents())[key := value] && cell.value == value
    {
      cell.value := value;
    }

    /** Writes every touched record back in one batch; afterwards every cached value is the stored one. */
    method Commit()
      requires Valid()
      modifies `store
      ensures Valid() && Flushed() && store == Contents() == old(Contents())
      ensures forall k | k in cache :: k in store && cache[k].value == store[k]
    {
      store := store + map k | k in touched :: touched[k].value;
    }

    /** The start of the next batch; nothing is lost because everything had been written back. */
    method ResetTouched()
      requires Valid() && Flushed()
      modifies `touched
      ensures Valid() && Flushed() && touched == map[] && Contents() == store == old(Contents())
    {
      touched := map[];
    }
  }

  /** With the touched keys filling the cap, a record that is created is at once only in the touched set. */
  method CreateHidden<V>(c: Cache<V>, key: string, v: V) returns (ok: bool)
    requires c.Valid() && c.Named() && 0 < c.cap <= |c.Kept()| && key != "" && key !in c.Contents()
    modifies c
    ensures ok && c.Valid() && c.Contents() == old(c.Contents())[key := v]
    ensures key in c.touched && key !in c.cache && key !in c.store
  {
    ghost var kept := c.Kept();
    ok := c.CreateIfAbsent(key, v);
    assert key !in kept && c.Kept() == kept;
  }

  /** The first two records created over an empty store with a cap of one: the second one is hidden. */
  method CreateHiddenRecord<V>(a: string, b: string, zero: V, v: V) returns (c: Cache<V>)
    requires a != "" && b != "" && a != b
    ensures fresh(c) && c.Valid() && c.cap == 1
    ensures c.Contents() == map[a := v][b := v] && b in c.touched && b !in c.cache && b !in c.store
  {
    c := new Cache(1, zero, map[]);
    var ok := c.CreateIfAbsent(a, v);
    assert ok && c.Kept() == {a};
    ok := CreateHidden(c, b, v);
  }

  /** A second creation of such a record succeeds and replaces its value: the check looks past the touched set. */
  method SecondCreationReplaces<V>(c: Cache<V>, b: string, v: V) returns (ok: bool)
    requires c.Valid() && b in c.touched && b !in c.cache && b !in c.store
    modifies c
    ensures ok && c.Valid() && b in old(c.Contents()) && c.Contents() == old(c.Contents())[b := v]
  {
    ok := c.CreateIfAbsent(b, v);
  }
}
