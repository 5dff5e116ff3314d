/** The layered write-back cache of coins (CCoinsViewCache, src/coins.cpp:85-276) over the
    coin database (src/txdb.cpp:41-78).

    A layer keeps entries with a DIRTY and a FRESH flag. What a reader sees through a stack
    of layers is one plain map from transaction id to live coins, `View()`; a pruned entry
    and a missing one look the same. */
module CoinsCache {
  import opened Coins

  type Utxo = map<Hash, Coins>

  ghost predicate ValidUtxo(m: Utxo) {
    forall t | t in m :: Trimmed(m[t].vout) && !m[t].IsPruned()
  }

  /** The plain map after writing `c` at `t`: a pruned record deletes the key. */
  function SetCoins(m: Utxo, t: Hash, c: Coins): Utxo {
    if c.IsPruned() then m - {t} else m[t := c]
  }

  /** The plain map as it is read back once it is on disk. */
  function OnDisk(m: Utxo): Utxo { map t | t in m :: Stored(m[t]) }

  datatype CacheEntry = CacheEntry(coins: Coins, isDirty: bool, isFresh: bool)
  type CoinsMap = map<Hash, CacheEntry>

  /** What is visible through a layer `cache` above a visible map `m`. */
  ghost function Overlay(cache: CoinsMap, m: Utxo): Utxo {
    map t | t in cache.Keys + m.Keys && (t in cache ==> !cache[t].coins.IsPruned()) ::
      if t in cache then cache[t].coins else m[t]
  }

  /** The flag discipline of one entry, above a visible map `m` whose own store holds `held`:
      FRESH means nothing live below, not FRESH means the store below has the key, and an
      entry that is not DIRTY agrees with what lies below. */
  ghost predicate EntryOk(t: Hash, e: CacheEntry, m: Utxo, held: set<Hash>) {
    && Trimmed(e.coins.vout)
    && (e.isFresh ==> t !in m)
    && (!e.isFresh ==> t in held)
    && (!e.isDirty ==> if e.coins.IsPruned() then t !in m else t in m && m[t] == e.coins)
  }

  ghost predicate CacheOk(cache: CoinsMap, m: Utxo, held: set<Hash>) {
    forall t {:trigger EntryOk(t, cache[t], m, held)} | t in cache :: EntryOk(t, cache[t], m, held)
  }

  lemma OverlayValid(cache: CoinsMap, m: Utxo, held: set<Hash>)
    requires ValidUtxo(m) && CacheOk(cache, m, held)
    ensures ValidUtxo(Overlay(cache, m))
  {
    forall t | t in Overlay(cache, m)
      ensures Trimmed(Overlay(cache, m)[t].vout)
    {
      assert t in cache ==> EntryOk(t, cache[t], m, held);
    }
  }

  /** Two visible maps are equal when no key tells them apart. */
  lemma SameView(v: Utxo, w: Utxo)
    requires forall k :: k in v <==> k in w
    requires forall k | k in v :: v[k] == w[k]
    ensures v == w
  {
  }

  /** Reading a record through into the cache (FetchCoins, and the first half of ModifyCoins). */
  lemma FillKeeps(cache: CoinsMap, t: Hash, c: Coins, m: Utxo, held: set<Hash>)
    requires CacheOk(cache, m, held) && t !in cache && Trimmed(c.vout)
    requires if c.IsPruned() then t !in m else t in m && m[t] == c && t in held
    ensures var cache' := cache[t := CacheEntry(c, false, c.IsPruned())];
            CacheOk(cache', m, held) && Overlay(cache', m) == Overlay(cache, m)
  {
    var cache' := cache[t := CacheEntry(c, false, c.IsPruned())];
    assert EntryOk(t, cache'[t], m, held);
    SameView(Overlay(cache', m), Overlay(cache, m));
  }

  /** The store below may gain keys by being read. */
  lemma HeldMayGrow(cache: CoinsMap, m: Utxo, held: set<Hash>, held': set<Hash>)
    requires CacheOk(cache, m, held) && held <= held'
    ensures CacheOk(cache, m, held')
  {
    forall t | t in cache
      ensures EntryOk(t, cache[t], m, held')
    {
      assert EntryOk(t, cache[t], m, held);
    }
  }

  /** Setting DIRTY is always allowed and never visible. */
  lemma MarkDirtyKeeps(cache: CoinsMap, t: Hash, m: Utxo, held: set<Hash>)
    requires CacheOk(cache, m, held) && t in cache
    ensures var cache' := cache[t := cache[t].(isDirty := true)];
            CacheOk(cache', m, held) && Overlay(cache', m) == Overlay(cache, m)
  {
    var cache' := cache[t := cache[t].(isDirty := true)];
    assert EntryOk(t, cache[t], m, held);
    SameView(Overlay(cache', m), Overlay(cache, m));
  }

  /** What the modifier's destructor leaves behind: a fresh entry that got pruned is dropped. */
  function WriteEntry(cache: CoinsMap, t: Hash, c: Coins): CoinsMap
    requires t in cache
  {
    if cache[t].isFresh && c.IsPruned() then cache - {t} else cache[t := cache[t].(coins := c)]
  }

  lemma WriteEntryRefines(cache: CoinsMap, t: Hash, c: Coins, m: Utxo, held: set<Hash>)
    requires CacheOk(cache, m, held) && t in cache && cache[t].isDirty && Trimmed(c.vout)
    ensures CacheOk(WriteEntry(cache, t, c), m, held)
    ensures Overlay(WriteEntry(cache, t, c), m) == SetCoins(Overlay(cache, m), t, c)
  {
    assert EntryOk(t, cache[t], m, held);
    var cache' := WriteEntry(cache, t, c);
    assert forall k | k != t :: k in cache' <==> k in cache;
    SameView(Overlay(cache', m), SetCoins(Overlay(cache, m), t, c));
  }

  /** BatchWrite for a single entry of the child. */
  function MergeEntry(parent: CoinsMap, t: Hash, e: CacheEntry): CoinsMap {
    if !e.isDirty then parent
    else if t !in parent then
      if e.coins.IsPruned() then parent else parent[t := CacheEntry(e.coins, true, true)]
    else if parent[t].isFresh && e.coins.IsPruned() then parent - {t}
    else parent[t := CacheEntry(e.coins, true, parent[t].isFresh)]
  }

  /** The step behind BatchWrite: merging one well-flagged child entry writes exactly that
      key of the parent's visible map, keeps the parent's flag discipline, and finds FRESH
      set wherever the source asserts it (src/coins.cpp:176). */
  lemma MergeEntryRefines(parent: CoinsMap, t: Hash, e: CacheEntry, m: Utxo, held: set<Hash>)
    requires CacheOk(parent, m, held)
    requires EntryOk(t, e, Overlay(parent, m), parent.Keys)
    ensures e.isDirty && t !in parent && !e.coins.IsPruned() ==> e.isFresh
    ensures CacheOk(MergeEntry(parent, t, e), m, held)
    ensures Overlay(MergeEntry(parent, t, e), m) == SetCoins(Overlay(parent, m), t, e.coins)
  {
    var p' := MergeEntry(parent, t, e);
    assert t in parent ==> EntryOk(t, parent[t], m, held);
    assert forall k | k != t :: k in p' <==> k in parent;
    SameView(Overlay(p', m), SetCoins(Overlay(parent, m), t, e.coins));
  }

  /** The other child entries stay well flagged after a write at `t` below them. */
  lemma RestStaysOk(child: CoinsMap, t: Hash, v: Utxo, c: Coins, held: set<Hash>, held': set<Hash>)
    requires CacheOk(child, v, held)
    requires forall k | k != t :: k in held ==> k in held'
    ensures CacheOk(child - {t}, SetCoins(v, t, c), held')
  {
    forall k | k in child - {t}
      ensures EntryOk(k, (child - {t})[k], SetCoins(v, t, c), held')
    {
      assert EntryOk(k, child[k], v, held);
    }
  }

  /** Moving an entry down does not change what is visible above. */
  lemma MoveDownKeepsView(child: CoinsMap, t: Hash, v: Utxo)
    requires t in child
    ensures Overlay(child - {t}, SetCoins(v, t, child[t].coins)) == Overlay(child, v)
  {
    SameView(Overlay(child - {t}, SetCoins(v, t, child[t].coins)), Overlay(child, v));
  }

  /** BatchWrite of a layer: takes over the child's entries in whatever order its map yields
      them, and leaves the child's view as the parent's view. */
  method MergeAll(child: CoinsMap, parent: CoinsMap, ghost m: Utxo, ghost held: set<Hash>) returns (merged: CoinsMap)
    requires CacheOk(parent, m, held) && CacheOk(child, Overlay(parent, m), parent.Keys)
    ensures CacheOk(merged, m, held)
    ensures Overlay(merged, m) == Overlay(child, Overlay(parent, m))
  {
    merged := parent;
    var rest := child;
    while rest != map[]
      invariant CacheOk(merged, m, held)
      invariant CacheOk(rest, Overlay(merged, m), merged.Keys)
      invariant Overlay(rest, Overlay(merged, m)) == Overlay(child, Overlay(parent, m))
      decreases |rest|
    {
      var t :| t in rest;
      var e := rest[t];
      assert EntryOk(t, e, Overlay(merged, m), merged.Keys);
      MergeEntryRefines(merged, t, e, m, held);
      MoveDownKeepsView(rest, t, Overlay(merged, m));
      RestStaysOk(rest, t, Overlay(merged, m), e.coins, merged.Keys, MergeEntry(merged, t, e).Keys);
      ghost var next := MergeEntry(merged, t, e);
      if e.isDirty {
        if t !in merged {
          if !e.coins.IsPruned() {
            assert e.isFresh;  // the assertion of src/coins.cpp:176
            merged := merged[t := CacheEntry(e.coins, true, true)];
          }
        } else if merged[t].isFresh && e.coins.IsPruned() {
          merged := merged - {t};
        } else {
          merged := merged[t := CacheEntry(e.coins, true, merged[t].isFresh)];
        }
      }
      assert merged == next;
      rest := rest - {t};
    }
    SameView(Overlay(rest, Overlay(merged, m)), Overlay(merged, m));
  }

  /** BatchWrite of the database for a single entry. */
  function WriteOne(coins: Utxo, t: Hash, e: CacheEntry): Utxo {
    if !e.isDirty then coins else if e.coins.IsPruned() then coins - {t} else coins[t := Stored(e.coins)]
  }

  lemma WriteOneRefines(coins: Utxo, t: Hash, e: CacheEntry, held: set<Hash>)
    requires ValidUtxo(coins) && OnDisk(coins) == coins && EntryOk(t, e, coins, held)
    ensures WriteOne(coins, t, e) == SetCoins(coins, t, Stored(e.coins)) && ValidUtxo(WriteOne(coins, t, e))
    ensures OnDisk(WriteOne(coins, t, e)) == WriteOne(coins, t, e)
  {
    var written := WriteOne(coins, t, e);
    assert Stored(e.coins).IsPruned() <==> e.coins.IsPruned();
    assert t in coins ==> coins[t] == OnDisk(coins)[t] == Stored(coins[t]);
    SameView(written, SetCoins(coins, t, Stored(e.coins)));
    forall k | k in written
      ensures written[k] == Stored(written[k])
    {
      assert k in coins ==> coins[k] == OnDisk(coins)[k];
    }
    SameView(OnDisk(written), written);
  }

  /** Moving an entry to disk shows above at most as a cut version. */
  lemma StoreDownKeepsView(child: CoinsMap, t: Hash, v: Utxo)
    requires t in child
    ensures OnDisk(Overlay(child - {t}, SetCoins(v, t, Stored(child[t].coins)))) == OnDisk(Overlay(child, v))
  {
    var c := child[t].coins;
    assert Stored(c).IsPruned() <==> c.IsPruned();
    var a, b := Overlay(child - {t}, SetCoins(v, t, Stored(c))), Overlay(child, v);
    forall k
      ensures k in a <==> k in b
      ensures k in a ==> Stored(a[k]) == Stored(b[k])
    {
    }
    SameView(OnDisk(a), OnDisk(b));
  }

  lemma NothingOver(m: Utxo)
    ensures Overlay(map[], m) == m
  {
  }

  lemma NothingIsOk(m: Utxo, held: set<Hash>)
    ensures CacheOk(map[], m, held)
  {
  }

  /** BatchWrite of the database: dirty records are written, pruned ones erased. Read back, every
      version has lost what the format does not keep. */
  method WriteAll(child: CoinsMap, coins: Utxo) returns (written: Utxo)
    requires ValidUtxo(coins) && OnDisk(coins) == coins && CacheOk(child, coins, coins.Keys)
    ensures ValidUtxo(written) && written == OnDisk(Overlay(child, coins)) && OnDisk(written) == written
  {
    hide Overlay, SetCoins, ValidUtxo, WriteOne, OnDisk;
    written := coins;
    var rest := child;
    while rest != map[]
      invariant ValidUtxo(written) && OnDisk(written) == written && CacheOk(rest, written, coins.Keys)
      invariant OnDisk(Overlay(rest, written)) == OnDisk(Overlay(child, coins))
      decreases |rest|
    {
      var t :| t in rest;
      var e := rest[t];
      assert EntryOk(t, e, written, coins.Keys);
      WriteOneRefines(written, t, e, coins.Keys);
      StoreDownKeepsView(rest, t, written);
      RestStaysOk(rest, t, written, Stored(e.coins), coins.Keys, coins.Keys);
      written := WriteOne(written, t, e);
      rest := rest - {t};
    }
    NothingOver(written);
  }

  /** CCoinsViewDB: the database never stores a pruned record, and no negative version. */
  class CoinsViewDB {
    var coins: Utxo
    var best: Hash

    ghost predicate Valid() reads this { ValidUtxo(coins) && OnDisk(coins) == coins }

    method GetCoins(t: Hash) returns (found: bool, c: Coins)
      ensures found <==> t in coins
      ensures c == if found then coins[t] else EMPTY_COINS
    {
      found := t in coins;
      c := if found then coins[t] else EMPTY_COINS;
    }

    method BatchWrite(mapCoins: CoinsMap, hash: Hash)
      requires Valid() && CacheOk(mapCoins, coins, coins.Keys)
      modifies this
      ensures Valid() && coins == OnDisk(Overlay(mapCoins, old(coins)))
      ensures best == if hash != NULL_HASH then hash else old(best)
    {
      coins := WriteAll(mapCoins, coins);
      if hash != NULL_HASH {
        best := hash;
      }
    }
  }

  /** CCoinsViewCache: one layer. `base` is the layer below, or null when the layer sits
      directly on the database. */
  class CoinsViewCache {
    const base: CoinsViewCache?
    const db: CoinsViewDB
    ghost const Repr: set<object>
    ghost const depth: nat

    var cacheCoins: CoinsMap
    var hashBlock: Hash
    var hasModifier: bool

    ghost predicate Linked()
      decreases depth
    {
      if base == null then Repr == {this, db} && depth == 0
      else
        && base.depth < depth && base.db == db
        && Repr == base.Repr + {this} && this !in base.Repr
        && db in Repr && base in base.Repr
        && base.Linked()
    }

    ghost function BaseView(): Utxo
      requires Linked()
      reads Repr - {this}
      decreases depth, 0
    {
      if base == null then db.coins else base.View()
    }

    /** The plain map seen through this layer and all layers below. */
    ghost function View(): Utxo
      requires Linked()
      reads Repr
      decreases depth, 1
    {
      Overlay(cacheCoins, BaseView())
    }

    /** The plain maps below this layer, nearest first, ending with the disk. */
    ghost function BaseViews(): (views: seq<Utxo>)
      requires Linked()
      reads Repr - {this}
      ensures |views| > 0 && views[0] == BaseView() && (|views| == 1 <==> base == null)
      decreases depth, 0
    {
      if base == null then [db.coins] else base.Views()
    }

    /** The whole stack as plain maps, this layer first. */
    ghost function Views(): seq<Utxo>
      requires Linked()
      reads Repr
      decreases depth, 1
    {
      [View()] + BaseViews()
    }

    ghost function BaseKeys(): set<Hash>
      requires Linked()
      reads Repr - {this}
    {
      if base == null then db.coins.Keys else base.cacheCoins.Keys
    }

    ghost function BaseBest(): Hash
      requires Linked()
      reads Repr - {this}
      decreases depth, 0
    {
      if base == null then db.best else base.BestBlock()
    }

    /** The best block seen through the stack; a null hash means "ask below". */
    ghost function BestBlock(): Hash
      requires Linked()
      reads Repr
      decreases depth, 1
    {
      if hashBlock != NULL_HASH then hashBlock else BaseBest()
    }

    /** Every layer keeps the flag discipline, and only the top layer can hold a modifier. */
    ghost predicate Valid()
      reads this, Repr
      decreases depth
    {
      && Linked()
      && db.Valid()
      && (base != null ==> base.Valid() && !base.hasModifier)
      && CacheOk(cacheCoins, BaseView(), BaseKeys())
    }

    lemma ViewValid()
      requires Valid()
      ensures ValidUtxo(View()) && ValidUtxo(BaseView())
      decreases depth
    {
      if base != null {
        base.ViewValid();
      }
      OverlayValid(cacheCoins, BaseView(), BaseKeys());
    }

    constructor OnDatabase(db: CoinsViewDB)
      requires db.Valid()
      ensures Valid() && !hasModifier && this.db == db && base == null
      ensures View() == db.coins && BestBlock() == db.best
      ensures fresh(Repr - {db})
    {
      this.base, this.db := null, db;
      Repr, depth := {this, db}, 0;
      cacheCoins, hashBlock, hasModifier := map[], NULL_HASH, false;
      new;
      assert Overlay(cacheCoins, db.coins) == db.coins;
    }

    constructor Over(below: CoinsViewCache)
      requires below.Valid() && !below.hasModifier
      ensures Valid() && !hasModifier && base == below
      ensures View() == below.View() && BestBlock() == below.BestBlock()
      ensures Repr == below.Repr + {this} && cacheCoins == map[]
    {
      base, db := below, below.db;
      Repr, depth := below.Repr + {this}, below.depth + 1;
      cacheCoins, hashBlock, hasModifier := map[], NULL_HASH, false;
      new;
      assert Overlay(cacheCoins, below.View()) == below.View();
    }

    /** base->GetCoins: reads through, possibly filling the caches below. */
    method BaseGetCoins(t: Hash) returns (found: bool, c: Coins)
      requires Valid()
      modifies Repr - {this}
      ensures Valid() && View() == old(View()) && BaseViews() == old(BaseViews())
      ensures BestBlock() == old(BestBlock())
      ensures found ==> t in BaseKeys() && Trimmed(c.vout)
      ensures !found ==> t !in BaseView() && c == EMPTY_COINS
      ensures if found && !c.IsPruned() then t in BaseView() && BaseView()[t] == c else t !in BaseView()
      decreases depth, 0
    {
      ViewValid();
      if base == null {
        found, c := db.GetCoins(t);
      } else {
        ghost var held := BaseKeys();
        found, c := base.GetCoins(t);
        HeldMayGrow(cacheCoins, BaseView(), held, BaseKeys());
      }
    }

    /** Put a record just read from below into this layer. */
    method Fill(t: Hash, c: Coins)
      requires Valid() && t !in cacheCoins && Trimmed(c.vout)
      requires if c.IsPruned() then t !in BaseView() else t in BaseView() && BaseView()[t] == c && t in BaseKeys()
      modifies `cacheCoins
      ensures Valid() && View() == old(View())
      ensures cacheCoins == old(cacheCoins)[t := CacheEntry(c, false, c.IsPruned())]
    {
      FillKeeps(cacheCoins, t, c, BaseView(), BaseKeys());
      cacheCoins := cacheCoins[t := CacheEntry(c, false, c.IsPruned())];
    }

    method FetchCoins(t: Hash) returns (found: bool)
      requires Valid()
      modifies Repr
      ensures Valid() && View() == old(View()) && BaseViews() == old(BaseViews())
      ensures BestBlock() == old(BestBlock()) && hasModifier == old(hasModifier) && hashBlock == old(hashBlock)
      ensures found <==> t in cacheCoins
      ensures !found ==> t !in View()
      ensures forall k | k in old(cacheCoins) :: k in cacheCoins && cacheCoins[k] == old(cacheCoins[k])
      decreases depth, 1
    {
      found := t in cacheCoins;
      if !found {
        var c;
        found, c := BaseGetCoins(t);
        if found {
          Fill(t, c);
        }
      }
    }

    /** GetCoins: a hit may be a pruned record; only live records are in the view. */
    method GetCoins(t: Hash) returns (found: bool, c: Coins)
      requires Valid()
      modifies Repr
      ensures Valid() && View() == old(View()) && BaseViews() == old(BaseViews())
      ensures BestBlock() == old(BestBlock()) && hasModifier == old(hasModifier) && hashBlock == old(hashBlock)
      ensures found <==> t in cacheCoins
      ensures found ==> c == cacheCoins[t].coins && Trimmed(c.vout)
      ensures !found ==> c == EMPTY_COINS
      ensures if found && !c.IsPruned() then t in View() && View()[t] == c else t !in View()
      ensures forall k | k in old(cacheCoins) :: k in cacheCoins && cacheCoins[k] == old(cacheCoins[k])
      decreases depth, 2
    {
      found := FetchCoins(t);
      c := if found then cacheCoins[t].coins else EMPTY_COINS;
      assert found ==> EntryOk(t, cacheCoins[t], BaseView(), BaseKeys());
    }

    /** HaveCoins tests for an empty output list instead of scanning; the two agree. */
    method HaveCoins(t: Hash) returns (have: bool)
      requires Valid()
      modifies Repr
      ensures Valid() && View() == old(View()) && BaseViews() == old(BaseViews())
      ensures BestBlock() == old(BestBlock()) && hasModifier == old(hasModifier)
      ensures have <==> t in View()
    {
      var found := FetchCoins(t);
      have := found && cacheCoins[t].coins.vout != [];
      if found {
        assert EntryOk(t, cacheCoins[t], BaseView(), BaseKeys());
        TrimmedPrunedIffEmpty(cacheCoins[t].coins);
      }
    }

    method GetBestBlock() returns (h: Hash)
      requires Valid()
      modifies Repr
      ensures Valid() && View() == old(View()) && BaseViews() == old(BaseViews())
      ensures BestBlock() == old(BestBlock()) && hasModifier == old(hasModifier)
      ensures cacheCoins == old(cacheCoins)
      ensures h == BestBlock() && (h != NULL_HASH ==> hashBlock == h)
      decreases depth
    {
      if hashBlock == NULL_HASH {
        if base == null {
          hashBlock := db.best;
        } else {
          var b := base.GetBestBlock();
          hashBlock := b;
        }
      }
      h := hashBlock;
    }

    method SetBestBlock(h: Hash)
      requires Valid()
      modifies this
      ensures Valid() && View() == old(View()) && BaseViews() == old(BaseViews())
      ensures hasModifier == old(hasModifier) && hashBlock == h
    {
      hashBlock := h;
    }

    /** Reserve the entry for a modification, which is assumed to happen. */
    method Reserve(t: Hash)
      requires Valid() && t in cacheCoins && !hasModifier
      modifies `cacheCoins, `hasModifier
      ensures Valid() && View() == old(View()) && hasModifier
      ensures t in cacheCoins && cacheCoins[t].isDirty && Trimmed(cacheCoins[t].coins.vout)
      ensures if t in View() then cacheCoins[t].coins == View()[t] else cacheCoins[t].coins.vout == []
    {
      MarkDirtyKeeps(cacheCoins, t, BaseView(), BaseKeys());
      cacheCoins, hasModifier := cacheCoins[t := cacheCoins[t].(isDirty := true)], true;
      assert EntryOk(t, cacheCoins[t], BaseView(), BaseKeys());
      TrimmedPrunedIffEmpty(cacheCoins[t].coins);
    }

    /** Make sure there is an entry for `t`; a missing or pruned parent entry makes it fresh. */
    method Insert(t: Hash)
      requires Valid()
      modifies Repr
      ensures Valid() && View() == old(View()) && BaseViews() == old(BaseViews())
      ensures BestBlock() == old(BestBlock()) && hasModifier == old(hasModifier) && hashBlock == old(hashBlock)
      ensures t in cacheCoins
    {
      if t !in cacheCoins {
        var found, c := BaseGetCoins(t);
        Fill(t, c);
      }
    }

    /** ModifyCoins: take the modifier for `t`. The record handed out holds the visible
        coins, or no outputs when nothing is visible. */
    method ModifyCoins(t: Hash) returns (c: Coins)
      requires Valid() && !hasModifier
      modifies Repr
      ensures Valid() && View() == old(View()) && BaseViews() == old(BaseViews())
      ensures BestBlock() == old(BestBlock()) && hasModifier && hashBlock == old(hashBlock)
      ensures t in cacheCoins && cacheCoins[t].isDirty
      ensures Trimmed(c.vout) && if t in View() then c == View()[t] else c.vout == []
    {
      Insert(t);
      Reserve(t);
      c := cacheCoins[t].coins;
    }

    /** ~CCoinsModifier: give the modified record back. Exactly the key `t` of the view changes. */
    method Release(t: Hash, c: Coins)
      requires Valid() && hasModifier
      requires t in cacheCoins && cacheCoins[t].isDirty
      modifies `cacheCoins, `hasModifier
      ensures Valid() && !hasModifier
      ensures View() == SetCoins(old(View()), t, CleanedUp(c))
    {
      WriteEntryRefines(cacheCoins, t, CleanedUp(c), BaseView(), BaseKeys());
      cacheCoins, hasModifier := WriteEntry(cacheCoins, t, CleanedUp(c)), false;
    }

    method BatchWrite(mapCoins: CoinsMap, hash: Hash)
      requires Valid() && !hasModifier
      requires CacheOk(mapCoins, View(), cacheCoins.Keys)
      modifies this
      ensures Valid() && !hasModifier && BaseViews() == old(BaseViews())
      ensures View() == Overlay(mapCoins, old(View()))
      ensures hashBlock == hash
    {
      cacheCoins := MergeAll(mapCoins, cacheCoins, BaseView(), BaseKeys());
      hashBlock := hash;
    }

    /** This layer's view as the layer below will show it. */
    ghost function Below(): Utxo
      requires Linked()
      reads Repr
    {
      if base == null then OnDisk(View()) else View()
    }

    /** base->BatchWrite(cacheCoins, hashBlock) */
    method WriteBelow()
      requires Valid() && !hasModifier
      modifies Repr - {this}
      ensures Linked() && db.Valid() && (base != null ==> base.Valid() && !base.hasModifier)
      ensures BaseViews() == old(BaseViews())[0 := old(Below())]
      ensures BaseBest() == if hashBlock != NULL_HASH then hashBlock
                            else if base == null then old(BaseBest()) else old(base.BaseBest())
    {
      hide OnDisk, Overlay, CacheOk, ValidUtxo;
      if base == null {
        db.BatchWrite(cacheCoins, hashBlock);
        assert BaseViews() == [db.coins];
      } else {
        ghost var below := base.BaseViews();
        base.BatchWrite(cacheCoins, hashBlock);
        assert BaseViews() == [base.View()] + below;
      }
    }

    /** Flush: the view below becomes the view of this layer, which stays as it was, unless below is
        the disk: then negative versions are cut in both. The best block is passed down too,
        unless this layer never learned it and the layer below had an opinion of its own. */
    method Flush()
      requires Valid() && !hasModifier
      modifies Repr
      ensures Valid() && !hasModifier && cacheCoins == map[]
      ensures View() == old(Below()) && BaseViews() == old(BaseViews())[0 := old(Below())]
      ensures hashBlock == old(hashBlock)
      ensures BaseBest() == old(BestBlock()) <==>
              old(hashBlock) != NULL_HASH || base == null || old(base.BaseBest()) == old(base.BestBlock())
    {
      WriteBelow();
      cacheCoins := map[];
      SameView(View(), BaseView());
    }

    /** Flushing layer after layer brings the top view to disk, with versions as the disk keeps them. */
    method FlushAll()
      requires Valid() && !hasModifier
      modifies Repr
      ensures Valid() && !hasModifier
      ensures View() == OnDisk(old(View())) && db.coins == OnDisk(old(View()))
      decreases depth
    {
      hide OnDisk, Overlay, CacheOk;
      Flush();
      if base != null {
        base.FlushAll();
        NothingOver(BaseView());
        NothingIsOk(BaseView(), BaseKeys());
      }
    }
  }
  // ----- whole runs -----

  /** What a client can do with a layer. `Scope` opens a child layer, runs a program on it, and
      then either flushes it or throws it away, as ConnectTip and DisconnectTip do. */
  datatype Op =
    | Read(t: Hash)
    | Have(t: Hash)
    | Write(t: Hash, coins: Coins)
    | FlushLayer
    | Scope(body: seq<Op>, commit: bool)

  datatype Answer = Missing | Found(coins: Coins) | Yes | No

  function Look(m: Utxo, t: Hash): Answer { if t in m then Found(m[t]) else Missing }

  /** One operation on a stack of plain maps, top first and the disk last: no caches and no flags. */
  function StepPlain(stack: seq<Utxo>, op: Op): (r: (seq<Utxo>, seq<Answer>))
    requires |stack| >= 2
    ensures |r.0| == |stack|
    decreases op
  {
    match op
    case Read(t) => (stack, [Look(stack[0], t)])
    case Have(t) => (stack, [if t in stack[0] then Yes else No])
    case Write(t, c) => (stack[0 := SetCoins(stack[0], t, CleanedUp(c))], [])
    case FlushLayer => (if |stack| == 2 then [OnDisk(stack[0]), OnDisk(stack[0])] else stack[1 := stack[0]], [])
    case Scope(body, commit) =>
      var (inner, answers) := RunPlain([stack[0]] + stack, body);
      (if commit then inner[1..][0 := inner[0]] else inner[1..], answers)
  }

  function RunPlain(stack: seq<Utxo>, ops: seq<Op>): (r: (seq<Utxo>, seq<Answer>))
    requires |stack| >= 2
    ensures |r.0| == |stack|
    decreases ops
  {
    if ops == [] then (stack, [])
    else
      var (mid, now) := StepPlain(stack, ops[0]);
      var (end, later) := RunPlain(mid, ops[1..]);
      (end, now + later)
  }

  /** Nothing a layer does reaches more than one layer down. */
  lemma {:induction false} RunKeepsDeeper(stack: seq<Utxo>, ops: seq<Op>)
    requires |stack| >= 2
    ensures RunPlain(stack, ops).0[2..] == stack[2..]
    decreases ops, 1
  {
    if ops != [] {
      StepKeepsDeeper(stack, ops[0]);
      RunKeepsDeeper(StepPlain(stack, ops[0]).0, ops[1..]);
    }
  }

  lemma {:induction false} StepKeepsDeeper(stack: seq<Utxo>, op: Op)
    requires |stack| >= 2
    ensures StepPlain(stack, op).0[2..] == stack[2..]
    ensures !op.FlushLayer? ==> StepPlain(stack, op).0[1] == stack[1]
    decreases op, 0
  {
    if op.Scope? {
      RunKeepsDeeper([stack[0]] + stack, op.body);
      var inner := RunPlain([stack[0]] + stack, op.body).0;
      assert inner[2..] == stack[1..];
      var r := StepPlain(stack, op).0;
      assert r[1..] == inner[2..];
      assert r[2..] == r[1..][1..] && stack[2..] == stack[1..][1..];
      assert r[1] == r[1..][0];
    }
  }

  /** A run sees the top two layers only: what it answers and leaves in them does not depend
      on the rest of the stack but for whether the second is the disk; without a flush of its
      own, not even on that. */
  lemma {:induction false} RunIsLocal(s: seq<Utxo>, s': seq<Utxo>, ops: seq<Op>)
    requires |s| >= 2 && |s'| >= 2 && s[0] == s'[0]
    requires (s[1] == s'[1] && (|s| == 2 <==> |s'| == 2)) || FlushLayer !in ops
    ensures RunPlain(s, ops).1 == RunPlain(s', ops).1
    ensures RunPlain(s, ops).0[0] == RunPlain(s', ops).0[0]
    ensures s[1] == s'[1] ==> RunPlain(s, ops).0[1] == RunPlain(s', ops).0[1]
    decreases ops, 1
  {
    if ops != [] {
      var op := ops[0];
      if op.Scope? {
        RunIsLocal([s[0]] + s, [s'[0]] + s', op.body);
      }
      StepKeepsDeeper(s, op);
      StepKeepsDeeper(s', op);
      RunIsLocal(StepPlain(s, op).0, StepPlain(s', op).0, ops[1..]);
    }
  }

  /** A child layer is a transaction: committing it is the same as having run its program in
      place, and throwing it away leaves no trace. */
  lemma ScopeIsTransaction(stack: seq<Utxo>, body: seq<Op>)
    requires |stack| >= 2 && FlushLayer !in body
    ensures StepPlain(stack, Scope(body, true)) == RunPlain(stack, body)
    ensures StepPlain(stack, Scope(body, false)).0 == stack
  {
    hide RunPlain;
    var deep := [stack[0]] + stack;
    RunIsLocal(deep, stack, body);
    RunKeepsDeeper(deep, body);
    RunKeepsDeeper(stack, body);
    RunKeepsBelow(deep, body);
    RunKeepsBelow(stack, body);
    assert deep[2..] == stack[1..];
    CommittedIs(stack, RunPlain(deep, body).0, RunPlain(stack, body).0);
  }

  lemma CommittedIs(stack: seq<Utxo>, inner: seq<Utxo>, here: seq<Utxo>)
    requires |stack| >= 2 && |inner| == |stack| + 1 && |here| == |stack|
    requires inner[0] == here[0] && inner[1] == stack[0] && here[1] == stack[1]
    requires inner[2..] == stack[1..] && here[2..] == stack[2..]
    ensures inner[1..] == stack && inner[1..][0 := inner[0]] == here
  {
    assert inner[1..] == [inner[1]] + inner[2..];
    assert stack == [stack[0]] + stack[1..];
    assert stack[1..] == [stack[1]] + stack[2..];
    assert here == [here[0]] + ([here[1]] + here[2..]);
  }

  lemma {:induction false} RunKeepsBelow(stack: seq<Utxo>, ops: seq<Op>)
    requires |stack| >= 2 && FlushLayer !in ops
    ensures RunPlain(stack, ops).0[1] == stack[1]
    decreases ops
  {
    if ops != [] {
      StepKeepsDeeper(stack, ops[0]);
      RunKeepsBelow(StepPlain(stack, ops[0]).0, ops[1..]);
    }
  }

  method RunOne(view: CoinsViewCache, op: Op) returns (answers: seq<Answer>)
    requires view.Valid() && !view.hasModifier
    modifies view.Repr
    ensures view.Valid() && !view.hasModifier
    ensures (view.Views(), answers) == StepPlain(old(view.Views()), op)
    decreases op
  {
    answers := [];
    if op.Read? {
      var found, c := view.GetCoins(op.t);
      answers := [if found && !c.IsPruned() then Found(c) else Missing];
    } else if op.Have? {
      var have := view.HaveCoins(op.t);
      answers := [if have then Yes else No];
    } else if op.Write? {
      RunWrite(view, op.t, op.coins);
    } else if op.FlushLayer? {
      RunFlush(view);
    } else {
      answers := RunScope(view, op.body, op.commit);
    }
  }

  method RunWrite(view: CoinsViewCache, t: Hash, c: Coins)
    requires view.Valid() && !view.hasModifier
    modifies view.Repr
    ensures view.Valid() && !view.hasModifier
    ensures view.Views() == StepPlain(old(view.Views()), Write(t, c)).0
  {
    hide StepPlain, SetCoins, Overlay, CacheOk;
    WriteSetsTop(view.Views(), t, c);
    var _ := view.ModifyCoins(t);
    view.Release(t, c);
    assert view.Views() == old(view.Views())[0 := view.View()];
  }

  lemma WriteSetsTop(stack: seq<Utxo>, t: Hash, c: Coins)
    requires |stack| >= 2
    ensures StepPlain(stack, Write(t, c)).0 == stack[0 := SetCoins(stack[0], t, CleanedUp(c))]
  {
  }

  method RunFlush(view: CoinsViewCache)
    requires view.Valid() && !view.hasModifier
    modifies view.Repr
    ensures view.Valid() && !view.hasModifier
    ensures view.Views() == StepPlain(old(view.Views()), FlushLayer).0
  {
    hide OnDisk, Overlay, CacheOk;
    ghost var stack := view.Views();
    assert stack[0] == view.View() && stack[1..] == view.BaseViews();
    view.Flush();
    assert view.Views() == [view.View()] + stack[1..][0 := view.View()];
  }

  method RunScope(view: CoinsViewCache, body: seq<Op>, commit: bool) returns (answers: seq<Answer>)
    requires view.Valid() && !view.hasModifier
    modifies view.Repr
    ensures view.Valid() && !view.hasModifier
    ensures (view.Views(), answers) == StepPlain(old(view.Views()), Scope(body, commit))
    decreases body, 1
  {
    var child := new CoinsViewCache.Over(view);
    assert child.Views() == [view.View()] + view.Views();
    answers := Run(child, body);
    if commit {
      child.Flush();
    }
  }

  /** Every program, over a stack of any depth and with any nesting of scopes, sees and leaves
      exactly what the run on plain maps says, in every layer and on disk. */
  method Run(view: CoinsViewCache, ops: seq<Op>) returns (answers: seq<Answer>)
    requires view.Valid() && !view.hasModifier
    modifies view.Repr
    ensures view.Valid() && !view.hasModifier
    ensures (view.Views(), answers) == RunPlain(old(view.Views()), ops)
    decreases ops, 0
  {
    answers := [];
    if ops != [] {
      var now := RunOne(view, ops[0]);
      var later := Run(view, ops[1..]);
      answers := now + later;
    }
  }
}
