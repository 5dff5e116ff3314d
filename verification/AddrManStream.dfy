/** Saving the address manager and loading it again (src/addrman.h:276-421).

    The stream holds far less than the memory: ids, vRandom, mapAddr, reference counts, tried
    slots and positions in new buckets are all rebuilt. Loading into an empty manager gives
    back the same book with the ids renumbered. */
module AddrManStream {
  import opened AddrBook
  import opened AddrSteps
  import opened AddrMan
  import opened Sets

  /** What is written of an entry. */
  datatype Saved = Saved(service: Service, services: Services, time: nat, source: Net, lastSuccess: int, attempts: int)

  /** Format version 1 with 1024 new buckets. */
  datatype Stream = Stream(nNew: int, nTried: int, newEntries: seq<Saved>, triedEntries: seq<Saved>,
                           buckets: seq<seq<nat>>)

  function Save(i: AddrInfo): Saved { Saved(i.service, i.services, i.time, i.source, i.lastSuccess, i.attempts) }

  /** An entry as it is read: the last try is not saved. */
  function Load(e: Saved, pos: int, inTried: bool): AddrInfo {
    AddrInfo(e.service, e.source, e.services, e.time, 0, e.lastSuccess, e.attempts, 0, inTried, pos)
  }

  // ----- the order in which entries are written -----

  /** `order` is the order in which mapInfo is walked: any, but each key once. */
  ghost predicate WalksAll(info: InfoMap, order: seq<Id>) { Distinct(order) && IdSet(order) == info.Keys }

  function NewOrder(info: InfoMap, order: seq<Id>, k: nat): seq<Id>
    requires k <= |order| && forall i | 0 <= i < |order| :: order[i] in info
  {
    if k == 0 then []
    else NewOrder(info, order, k - 1) + if info[order[k - 1]].refs != 0 then [order[k - 1]] else []
  }

  function TriedOrder(info: InfoMap, order: seq<Id>, k: nat): seq<Id>
    requires k <= |order| && forall i | 0 <= i < |order| :: order[i] in info
  {
    if k == 0 then []
    else TriedOrder(info, order, k - 1) + if info[order[k - 1]].inTried then [order[k - 1]] else []
  }

  lemma {:induction false} OrdersHold(info: InfoMap, order: seq<Id>, k: nat)
    requires k <= |order| && Distinct(order) && forall i | 0 <= i < |order| :: order[i] in info
    ensures var a, t := NewOrder(info, order, k), TriedOrder(info, order, k);
            && Distinct(a) && Distinct(t)
            && (forall id :: id in a <==> id in order[..k] && info[id].refs != 0)
            && (forall id :: id in t <==> id in order[..k] && info[id].inTried)
  {
    if k > 0 {
      OrdersHold(info, order, k - 1);
      assert order[..k] == order[..k - 1] + [order[k - 1]];
      assert order[k - 1] !in order[..k - 1];
    }
  }

  /** The new id of an old one is its place among `ids`. */
  ghost function Rank(ids: seq<Id>): map<Id, nat> {
    map id | id in IdSet(ids) :: PlaceOf(ids, id)
  }

  ghost function PlaceOf(ids: seq<Id>, id: Id): (i: nat)
    requires id in ids
    ensures i < |ids| && ids[i] == id
  {
    var i :| 0 <= i < |ids| && ids[i] == id; i
  }

  lemma RankIs(ids: seq<Id>, i: nat)
    requires Distinct(ids) && i < |ids|
    ensures ids[i] in Rank(ids) && Rank(ids)[ids[i]] == i
  {
  }

  /** All entries, in the order in which they are written and read. */
  function Written(info: InfoMap, order: seq<Id>): seq<Id>
    requires forall i | 0 <= i < |order| :: order[i] in info
  {
    NewOrder(info, order, |order|) + TriedOrder(info, order, |order|)
  }

  /** New and tried entries in walking order. */
  lemma OrderSets(b: Book, place: Placement, order: seq<Id>)
    requires Consistent(b, place) && WalksAll(b.info, order)
    ensures forall i | 0 <= i < |order| :: order[i] in b.info
    ensures var a, t := NewOrder(b.info, order, |order|), TriedOrder(b.info, order, |order|);
            && Distinct(a) && Distinct(t) && IdSet(a) == NewIds(b.info) && IdSet(t) == TriedIds(b.info)
  {
    hide RandomOk, AddrOk, TriedOk, NewOk, IdsOk, TimesOk, CountsOk;
    assert forall i | 0 <= i < |order| :: order[i] in IdSet(order);
    OrdersHold(b.info, order, |order|);
    assert order[..|order|] == order;
    forall id | id in b.info
      ensures id in order && (b.info[id].refs != 0 <==> !b.info[id].inTried)
    {
      assert StatOk(b.info[id], false);
      assert id in IdSet(order);
    }
  }

  lemma OrdersAre(b: Book, place: Placement, order: seq<Id>)
    requires Consistent(b, place) && WalksAll(b.info, order)
    ensures forall i | 0 <= i < |order| :: order[i] in b.info
    ensures var a, t := NewOrder(b.info, order, |order|), TriedOrder(b.info, order, |order|);
            && Distinct(a) && Distinct(t) && IdSet(a) == NewIds(b.info) && IdSet(t) == TriedIds(b.info)
            && |a| == b.nNew && |t| == b.nTried
  {
    OrderSets(b, place, order);
    hide RandomOk, AddrOk, TriedOk, NewOk, IdsOk, StatsOk, TimesOk, WalksAll, NewOrder, TriedOrder, Distinct, IdSet;
    DistinctCount(NewOrder(b.info, order, |order|));
    DistinctCount(TriedOrder(b.info, order, |order|));
    assert NewIds(b.info) - {} == NewIds(b.info);
  }

  lemma JoinOrders(info: InfoMap, a: seq<Id>, t: seq<Id>)
    requires Distinct(a) && Distinct(t) && IdSet(a) == NewIds(info) && IdSet(t) == TriedIds(info)
    ensures Distinct(a + t) && IdSet(a + t) == info.Keys
    ensures forall i | 0 <= i < |a + t| :: (a + t)[i] in info && info[(a + t)[i]].inTried == (i >= |a|)
  {
    var ids := a + t;
    forall i | 0 <= i < |ids|
      ensures ids[i] in info && info[ids[i]].inTried == (i >= |a|)
    {
      assert ids[i] in if i < |a| then IdSet(a) else IdSet(t);
    }
    assert forall id | id in info :: id in IdSet(a) || id in IdSet(t);
  }

  lemma WrittenHolds(b: Book, place: Placement, order: seq<Id>)
    requires Consistent(b, place) && WalksAll(b.info, order)
    ensures forall i | 0 <= i < |order| :: order[i] in b.info
    ensures var ids := Written(b.info, order);
            && Distinct(ids) && IdSet(ids) == b.info.Keys
            && |NewOrder(b.info, order, |order|)| == b.nNew && |TriedOrder(b.info, order, |order|)| == b.nTried
            && (forall i | 0 <= i < |ids| :: ids[i] in b.info && b.info[ids[i]].inTried == (i >= b.nNew))
  {
    hide Consistent, WalksAll, Distinct, IdSet, NewOrder, TriedOrder;
    OrdersAre(b, place, order);
    JoinOrders(b.info, NewOrder(b.info, order, |order|), TriedOrder(b.info, order, |order|));
  }

  // ----- writing -----

  /** The occupied slots of a new bucket before position `p`, in order. */
  function SlotList(tab: Table, bucket: nat, p: nat): seq<Slot> {
    if p == 0 then []
    else SlotList(tab, bucket, p - 1) + if Slot(bucket, p - 1) in tab then [Slot(bucket, p - 1)] else []
  }

  lemma {:induction false} SlotListHolds(tab: Table, bucket: nat, p: nat)
    ensures var l := SlotList(tab, bucket, p);
            && (forall s :: s in l <==> s in tab && s.bucket == bucket && s.pos < p)
            && (forall i, j | 0 <= i < j < |l| :: l[i] != l[j])
  {
    if p > 0 {
      SlotListHolds(tab, bucket, p - 1);
    }
  }

  /** The indices written for a bucket. */
  ghost predicate BucketWritten(written: seq<nat>, tab: Table, bucket: nat, p: nat, ids: seq<Id>) {
    var l := SlotList(tab, bucket, p);
    |written| == |l| && forall n | 0 <= n < |l| :: l[n] in tab && tab[l[n]] in Rank(ids) && written[n] == Rank(ids)[tab[l[n]]]
  }

  /** `s` is what a consistent book is written as. */
  ghost predicate IsStreamOf(s: Stream, b: Book, order: seq<Id>)
    requires forall i | 0 <= i < |order| :: order[i] in b.info
  {
    var a, t := NewOrder(b.info, order, |order|), TriedOrder(b.info, order, |order|);
    && s.nNew == b.nNew && s.nTried == b.nTried
    && |s.newEntries| == |a| && (forall i | 0 <= i < |a| :: a[i] in b.info && s.newEntries[i] == Save(b.info[a[i]]))
    && |s.triedEntries| == |t| && (forall i | 0 <= i < |t| :: t[i] in b.info && s.triedEntries[i] == Save(b.info[t[i]]))
    && |s.buckets| == NEW_BUCKETS
    && forall k | 0 <= k < NEW_BUCKETS :: BucketWritten(s.buckets[k], b.newTab, k, BUCKET_SIZE, Written(b.info, order))
  }

  /** The index under which each new entry was written. */
  lemma NewOrderStarts(info: InfoMap, order: seq<Id>)
    requires forall i | 0 <= i < |order| :: order[i] in info
    ensures NewOrder(info, order, 0) == []
  {
  }

  lemma NewOrderNext(info: InfoMap, order: seq<Id>, k: nat)
    requires k < |order| && Distinct(order) && forall i | 0 <= i < |order| :: order[i] in info
    ensures NewOrder(info, order, k + 1) == NewOrder(info, order, k) + if info[order[k]].refs != 0 then [order[k]] else []
    ensures order[k] !in NewOrder(info, order, k)
  {
    hide TriedOrder;
    OrdersHold(info, order, k);
    assert order[k] !in order[..k];
  }

  ghost predicate UnkIds(m: map<Id, nat>, a: seq<Id>) { forall i | 0 <= i < |a| :: a[i] in m && m[a[i]] == i }

  method WriteNewEntries(info: InfoMap, order: seq<Id>, nNew: int) returns (entries: seq<Saved>, mapUnkIds: map<Id, nat>)
    requires Distinct(order) && forall i | 0 <= i < |order| :: order[i] in info
    requires |NewOrder(info, order, |order|)| == nNew
    ensures var a := NewOrder(info, order, |order|);
            |entries| == |a| && (forall i | 0 <= i < |a| :: a[i] in info && entries[i] == Save(info[a[i]])) && UnkIds(mapUnkIds, a)
  {
    hide TriedOrder, NewOrder;
    NewOrderStarts(info, order);
    entries, mapUnkIds := [], map[];
    for k := 0 to |order|
      invariant var a := NewOrder(info, order, k);
                && |entries| == |a| && (forall i | 0 <= i < |a| :: a[i] in info && entries[i] == Save(info[a[i]]))
                && UnkIds(mapUnkIds, a)
    {
      OrderGrows(info, order, k + 1, |order|);
      NewOrderNext(info, order, k);
      var id := order[k];
      mapUnkIds := mapUnkIds[id := |entries|];
      if info[id].refs != 0 {
        assert |entries| != nNew;  // the assertion of src/addrman.h:296
        entries := entries + [Save(info[id])];
      }
    }
  }

  lemma {:induction false} OrderGrows(info: InfoMap, order: seq<Id>, k: nat, n: nat)
    requires k <= n <= |order| && forall i | 0 <= i < |order| :: order[i] in info
    ensures |NewOrder(info, order, k)| <= |NewOrder(info, order, n)|
    ensures |TriedOrder(info, order, k)| <= |TriedOrder(info, order, n)|
  {
    if k < n {
      OrderGrows(info, order, k, n - 1);
    }
  }

  method WriteTriedEntries(info: InfoMap, order: seq<Id>, nTried: int) returns (entries: seq<Saved>)
    requires forall i | 0 <= i < |order| :: order[i] in info
    requires |TriedOrder(info, order, |order|)| == nTried
    ensures var t := TriedOrder(info, order, |order|);
            |entries| == |t| && (forall i | 0 <= i < |t| :: t[i] in info && entries[i] == Save(info[t[i]]))
  {
    entries := [];
    for k := 0 to |order|
      invariant var t := TriedOrder(info, order, k);
                |entries| == |t| && (forall i | 0 <= i < |t| :: t[i] in info && entries[i] == Save(info[t[i]]))
    {
      OrderGrows(info, order, k + 1, |order|);
      if info[order[k]].inTried {
        assert |entries| != nTried;  // the assertion of src/addrman.h:306
        entries := entries + [Save(info[order[k]])];
      }
    }
  }

  method WriteBucket(man: CAddrMan, bucket: nat, mapUnkIds: map<Id, nat>, ghost ids: seq<Id>) returns (written: seq<nat>)
    requires man.Shape() && bucket < NEW_BUCKETS
    requires forall s | s in man.State().newTab :: var id := man.State().newTab[s];
               id in mapUnkIds && id in Rank(ids) && mapUnkIds[id] == Rank(ids)[id]
    ensures BucketWritten(written, man.State().newTab, bucket, BUCKET_SIZE, ids)
  {
    hide Cells, CAddrMan.Shape, Rank;
    written := [];
    ghost var tab := man.State().newTab;
    for p := 0 to BUCKET_SIZE
      invariant BucketWritten(written, tab, bucket, p, ids)
    {
      var id := man.GetNew(Slot(bucket, p));
      if id != -1 {
        written := written + [mapUnkIds[id]];
      }
    }
  }

  method Serialize(man: CAddrMan, order: seq<Id>) returns (s: Stream)
    requires man.Valid() && WalksAll(man.mapInfo, order)
    ensures forall i | 0 <= i < |order| :: order[i] in man.mapInfo
    ensures IsStreamOf(s, man.State(), order)
  {
    hide Cells, CAddrMan.Shape, Consistent, Rank, BucketWritten, UnkIds, Distinct, IdSet, NewOrder, TriedOrder;
    ghost var b := man.State();
    ghost var ids;
    WrittenHolds(b, man.place, order);
    ids := Written(b.info, order);
    var newEntries, mapUnkIds := WriteNewEntries(man.mapInfo, order, man.nNew);
    var triedEntries := WriteTriedEntries(man.mapInfo, order, man.nTried);
    UnkIdsAreRanks(b, man.place, order, mapUnkIds);
    var buckets: seq<seq<nat>> := [];
    for k := 0 to NEW_BUCKETS
      invariant |buckets| == k && forall j | 0 <= j < k :: BucketWritten(buckets[j], b.newTab, j, BUCKET_SIZE, ids)
    {
      var written := WriteBucket(man, k, mapUnkIds, ids);
      buckets := buckets + [written];
    }
    s := Stream(man.nNew, man.nTried, newEntries, triedEntries, buckets);
  }

  lemma UnkIdsAreRanks(b: Book, place: Placement, order: seq<Id>, m: map<Id, nat>)
    requires Consistent(b, place) && WalksAll(b.info, order)
    requires forall i | 0 <= i < |order| :: order[i] in b.info
    requires UnkIds(m, NewOrder(b.info, order, |order|))
    ensures forall s | s in b.newTab ::
              var id := b.newTab[s]; id in m && id in Rank(Written(b.info, order)) && m[id] == Rank(Written(b.info, order))[id]
  {
    hide Consistent, WalksAll, Distinct, NewOrder, TriedOrder, Rank;
    OrdersAre(b, place, order);
    WrittenHolds(b, place, order);
    var a, ids := NewOrder(b.info, order, |order|), Written(b.info, order);
    forall s | s in b.newTab
      ensures var id := b.newTab[s]; id in m && id in Rank(ids) && m[id] == Rank(ids)[id]
    {
      var id := b.newTab[s];
      SlotIsNew(b, place, s);
      assert id in IdSet(a);
      var i :| 0 <= i < |a| && a[i] == id;
      assert ids[i] == id;
      RankIs(ids, i);
    }
  }

  lemma SlotIsNew(b: Book, place: Placement, s: Slot)
    requires Consistent(b, place) && s in b.newTab
    ensures b.newTab[s] in NewIds(b.info)
  {
    hide RandomOk, AddrOk, CountsOk, TriedOk, IdsOk;
    ListedIsNew(b, place, {}, 0, s);
  }

  // ----- reading -----

  /** The book `b` with the ids renumbered by their place among `ids`; the last tries are lost,
      and vRandom is in the order of the new ids. */
  ghost predicate Renumbered(b': Book, b: Book, ids: seq<Id>) {
    && b'.info == InfoRead(b, ids, |ids|, b.newTab.Keys)
    && b'.addr == AddrRead(b, ids, |ids|)
    && b'.random == seq(|ids|, i requires 0 <= i < |ids| => i)
    && b'.nTried == b.nTried && b'.nNew == b.nNew
    && b'.triedTab == TabRead(b.triedTab, ids, |ids|)
    && b'.newTab == TabRead(b.newTab, ids, |ids|)
    && b'.idCount == |ids|
  }

  /** The part of a table whose entries have ranks below `n`, under the new ids. */
  ghost function TabRead(tab: Table, ids: seq<Id>, n: nat): Table {
    map s | s in tab && tab[s] in Rank(ids) && Rank(ids)[tab[s]] < n :: Rank(ids)[tab[s]]
  }

  /** The part of a table on the slots in `done`, under the new ids. */
  ghost function TabDone(tab: Table, ids: seq<Id>, done: set<Slot>): Table {
    map s | s in tab && s in done && tab[s] in Rank(ids) :: Rank(ids)[tab[s]]
  }

  ghost function AddrRead(b: Book, ids: seq<Id>, n: nat): map<Net, Id> {
    map net | net in b.addr && b.addr[net] in Rank(ids) && Rank(ids)[b.addr[net]] < n :: Rank(ids)[b.addr[net]]
  }

  /** The first `n` entries, with references from the new slots in `done` only. */
  ghost function InfoRead(b: Book, ids: seq<Id>, n: nat, done: set<Slot>): InfoMap {
    map i: nat | i < n && i < |ids| && ids[i] in b.info ::
      b.info[ids[i]].(lastTry := 0, randomPos := i, refs := |DoneSlots(b.newTab, ids[i], done)|)
  }

  ghost function DoneSlots(tab: Table, id: Id, done: set<Slot>): set<Slot> {
    set s | s in SlotsOf(tab, id) && s in done
  }

  /** What the loader knows of the book it is rebuilding. */
  ghost predicate Source(b: Book, place: Placement, ids: seq<Id>) {
    && Consistent(b, place) && Distinct(ids) && IdSet(ids) == b.info.Keys && |ids| == b.nNew + b.nTried && b.nNew >= 0 && b.nTried >= 0
    && (forall i | 0 <= i < |ids| :: ids[i] in b.info && b.info[ids[i]].inTried == (i >= b.nNew))
  }

  /** The stream holds the entries in the order of `ids`, and the buckets. */
  ghost predicate Feeds(s: Stream, b: Book, place: Placement, ids: seq<Id>) {
    && Source(b, place, ids)
    && s.nNew == b.nNew == |s.newEntries| <= |ids| && s.nTried == b.nTried == |s.triedEntries|
    && (forall i | 0 <= i < b.nNew :: ids[i] in b.info && s.newEntries[i] == Save(b.info[ids[i]]))
    && (forall i | 0 <= i < b.nTried :: ids[b.nNew + i] in b.info && s.triedEntries[i] == Save(b.info[ids[b.nNew + i]]))
    && |s.buckets| == NEW_BUCKETS
    && (forall k | 0 <= k < NEW_BUCKETS :: BucketWritten(s.buckets[k], b.newTab, k, BUCKET_SIZE, ids))
  }

  lemma StreamFeeds(s: Stream, b: Book, place: Placement, order: seq<Id>)
    requires Consistent(b, place) && WalksAll(b.info, order)
    requires forall i | 0 <= i < |order| :: order[i] in b.info
    requires IsStreamOf(s, b, order)
    ensures Feeds(s, b, place, Written(b.info, order)) && Source(b, place, Written(b.info, order))
  {
    hide Consistent, IdSet, Distinct, NewOrder, TriedOrder, BucketWritten, WalksAll;
    WrittenHolds(b, place, order);
  }

  lemma NextEntry(b: Book, place: Placement, ids: seq<Id>, n: nat)
    requires Source(b, place, ids) && n < |ids|
    ensures var i := b.info[ids[n]];
            && InfoRead(b, ids, n + 1, {}) == InfoRead(b, ids, n, {})[n := Load(Save(i), n, i.inTried)]
            && AddrRead(b, ids, n + 1) == AddrRead(b, ids, n)[i.service.net := n]
  {
    hide Consistent;
    var i := b.info[ids[n]];
    RankIs(ids, n);
    assert DoneSlots(b.newTab, ids[n], {}) == {};
    AddrIsThere(b, place, ids[n]);
    assert InfoRead(b, ids, n + 1, {}) == InfoRead(b, ids, n, {})[n := Load(Save(i), n, i.inTried)] by {
      InfoGrows(b, place, ids, n);
    }
    forall net | net in b.addr && b.addr[net] in Rank(ids) && Rank(ids)[b.addr[net]] == n
      ensures net == i.service.net
    {
      NetIsThere(b, place, net);
    }
  }

  lemma InfoGrows(b: Book, place: Placement, ids: seq<Id>, n: nat)
    requires Source(b, place, ids) && n < |ids| && DoneSlots(b.newTab, ids[n], {}) == {}
    ensures var i := b.info[ids[n]]; InfoRead(b, ids, n + 1, {}) == InfoRead(b, ids, n, {})[n := Load(Save(i), n, i.inTried)]
  {
    hide Consistent, DoneSlots, IdSet, Distinct;
  }

  lemma AddrIsThere(b: Book, place: Placement, id: Id)
    requires Consistent(b, place) && id in b.info
    ensures b.info[id].service.net in b.addr && b.addr[b.info[id].service.net] == id
  {
    hide RandomOk, CountsOk, TriedOk, NewOk, IdsOk;
  }

  lemma NetIsThere(b: Book, place: Placement, net: Net)
    requires Consistent(b, place) && net in b.addr
    ensures b.addr[net] in b.info && b.info[b.addr[net]].service.net == net
  {
    hide RandomOk, CountsOk, TriedOk, NewOk, IdsOk;
  }

  /** A tried entry finds its slot free, and takes it. */
  lemma NextTried(b: Book, place: Placement, ids: seq<Id>, n: nat)
    requires Source(b, place, ids) && b.nNew <= n < |ids|
    ensures var k := place.TriedSlot(b.info[ids[n]].service);
            k !in TabRead(b.triedTab, ids, n) && TabRead(b.triedTab, ids, n + 1) == TabRead(b.triedTab, ids, n)[k := n]
  {
    hide Consistent;
    RankIs(ids, n);
    var k := place.TriedSlot(b.info[ids[n]].service);
    TriedIsThere(b, place, ids[n]);
    forall s | s in b.triedTab && b.triedTab[s] in Rank(ids) && Rank(ids)[b.triedTab[s]] == n
      ensures s == k
    {
      TriedSlotIs(b, place, s);
    }
  }

  lemma TriedIsThere(b: Book, place: Placement, id: Id)
    requires Consistent(b, place) && id in b.info && b.info[id].inTried
    ensures var k := place.TriedSlot(b.info[id].service); k in b.triedTab && b.triedTab[k] == id
  {
    hide RandomOk, AddrOk, CountsOk, NewOk, IdsOk;
  }

  lemma TriedSlotIs(b: Book, place: Placement, s: Slot)
    requires Consistent(b, place) && s in b.triedTab
    ensures b.triedTab[s] in b.info && b.info[b.triedTab[s]].inTried && s == place.TriedSlot(b.info[b.triedTab[s]].service)
  {
    hide RandomOk, AddrOk, CountsOk, NewOk, IdsOk;
  }

  /** A new slot that is read back: it is free, its entry has room, and its position is found
      again from the bucket and the entry alone. */
  lemma NextSlot(b: Book, place: Placement, ids: seq<Id>, done: set<Slot>, s: Slot)
    requires Source(b, place, ids) && s in b.newTab && s !in done
    ensures b.newTab[s] in Rank(ids)
    ensures var i := Rank(ids)[b.newTab[s]];
            var info, info' := InfoRead(b, ids, |ids|, done), InfoRead(b, ids, |ids|, done + {s});
            && i < b.nNew && i in info && s.bucket < NEW_BUCKETS && s.pos == place.newPos(info[i].service, s.bucket)
            && s !in TabDone(b.newTab, ids, done) && info[i].refs < MAX_REFS
            && TabDone(b.newTab, ids, done + {s}) == TabDone(b.newTab, ids, done)[s := i]
            && info' == info[i := info[i].(refs := info[i].refs + 1)]
  {
    hide Consistent, SlotsOf;
    NewSlotIs(b, place, s);
    var id := b.newTab[s];
    assert id in IdSet(ids);
    var i := Rank(ids)[id];
    RankIs(ids, i);
    OneMoreSlot(b.newTab, id, done, s);
    forall j | 0 <= j < |ids| && j != i
      ensures DoneSlots(b.newTab, ids[j], done + {s}) == DoneSlots(b.newTab, ids[j], done)
    {
      OtherSlots(b.newTab, ids[j], done, s);
    }
  }

  lemma NewSlotIs(b: Book, place: Placement, s: Slot)
    requires Consistent(b, place) && s in b.newTab
    ensures var id := b.newTab[s];
            && id in b.info && s.bucket < NEW_BUCKETS && s.pos == place.newPos(b.info[id].service, s.bucket)
            && !b.info[id].inTried && b.info[id].refs == |SlotsOf(b.newTab, id)| <= MAX_REFS
  {
    hide RandomOk, AddrOk, CountsOk, TriedOk, IdsOk, SlotsOf;
    ListedIsNew(b, place, {}, 0, s);
    assert StatOk(b.info[b.newTab[s]], false);
  }

  lemma OneMoreSlot(tab: Table, id: Id, done: set<Slot>, s: Slot)
    requires s in tab && tab[s] == id && s !in done
    ensures |DoneSlots(tab, id, done + {s})| == |DoneSlots(tab, id, done)| + 1 <= |SlotsOf(tab, id)|
  {
    assert DoneSlots(tab, id, done + {s}) == DoneSlots(tab, id, done) + {s};
    SubsetCount(DoneSlots(tab, id, done + {s}), SlotsOf(tab, id));
  }

  lemma OtherSlots(tab: Table, id: Id, done: set<Slot>, s: Slot)
    requires s in tab && tab[s] != id
    ensures DoneSlots(tab, id, done + {s}) == DoneSlots(tab, id, done)
  {
  }

  function Numbers(n: nat): seq<nat> { seq(n, i requires 0 <= i < n => i) }

  /** After the first `n` new entries. */
  method ReadNewEntries(man: CAddrMan, s: Stream, ghost b: Book, ghost place: Placement, ghost ids: seq<Id>)
    requires man.Shape() && man.State() == EMPTY_BOOK.(nTried := s.nTried, nNew := s.nNew) && Feeds(s, b, place, ids)
    modifies man`mapInfo, man`mapAddr, man`vRandom
    ensures s.nNew == b.nNew >= 0
    ensures man.State() == Book(InfoRead(b, ids, b.nNew, {}), AddrRead(b, ids, b.nNew), Numbers(b.nNew), s.nTried, s.nNew,
                                map[], map[], 0)
  {
    hide Cells, InfoRead, AddrRead, Consistent, CAddrMan.Shape, IdSet, Distinct, BucketWritten;
    NothingRead(b, ids);
    for n := 0 to s.nNew
      invariant man.State() == Book(InfoRead(b, ids, n, {}), AddrRead(b, ids, n), Numbers(n), s.nTried, s.nNew, map[], map[], 0)
    {
      NextEntry(b, place, ids, n);
      var info := Load(s.newEntries[n], |man.vRandom|, false);
      man.mapInfo := man.mapInfo[n := info];
      man.mapAddr := man.mapAddr[info.service.net := n];
      man.vRandom := man.vRandom + [n];
      assert man.vRandom == Numbers(n + 1);
    }
  }

  lemma NothingRead(b: Book, ids: seq<Id>)
    ensures InfoRead(b, ids, 0, {}) == map[] && AddrRead(b, ids, 0) == map[]
    ensures TabRead(b.triedTab, ids, 0) == map[] && TabDone(b.newTab, ids, {}) == map[]
  {
    hide Rank, DoneSlots, IdSet, InfoRead, AddrRead, TabRead, TabDone;
    assert InfoRead(b, ids, 0, {}).Keys == {} by { NoInfoRead(b, ids); }
    assert AddrRead(b, ids, 0).Keys == {} by { NoAddrRead(b, ids); }
    assert TabRead(b.triedTab, ids, 0).Keys == {} && TabDone(b.newTab, ids, {}).Keys == {} by { NoTabRead(b, ids); }
  }

  lemma NoInfoRead(b: Book, ids: seq<Id>)
    ensures InfoRead(b, ids, 0, {}).Keys == {}
  {
    hide DoneSlots;
  }

  lemma NoAddrRead(b: Book, ids: seq<Id>)
    ensures AddrRead(b, ids, 0).Keys == {}
  {
    hide Rank;
  }

  lemma NoTabRead(b: Book, ids: seq<Id>)
    ensures TabRead(b.triedTab, ids, 0).Keys == {} && TabDone(b.newTab, ids, {}).Keys == {}
  {
    hide Rank;
  }

  method ReadTriedEntries(man: CAddrMan, s: Stream, ghost b: Book, ghost ids: seq<Id>) returns (nLost: nat)
    requires man.Shape() && Feeds(s, b, man.place, ids) && b.nNew >= 0
    requires man.State() == Book(InfoRead(b, ids, b.nNew, {}), AddrRead(b, ids, b.nNew), Numbers(b.nNew), s.nTried, s.nNew,
                                 map[], map[], b.nNew)
    modifies man, man.vvTried
    ensures man.Shape() && nLost == 0 && s.nTried == b.nTried && s.nNew == b.nNew
    ensures man.State() == Book(InfoRead(b, ids, |ids|, {}), AddrRead(b, ids, |ids|), Numbers(|ids|), s.nTried, s.nNew,
                                TabRead(b.triedTab, ids, |ids|), map[], |ids|)
  {
    hide Cells, InfoRead, AddrRead, TabRead, Consistent, CAddrMan.Shape, IdSet, Distinct, Placement.InRange, BucketWritten;
    NoTriedBelow(b, man.place, ids);
    assert man.place.InRange() by { man.PlaceInRange(); }
    nLost := 0;
    for n := 0 to s.nTried
      invariant man.Shape() && nLost == 0
      invariant man.State() == Book(InfoRead(b, ids, b.nNew + n, {}), AddrRead(b, ids, b.nNew + n), Numbers(b.nNew + n),
                                    s.nTried, s.nNew, TabRead(b.triedTab, ids, b.nNew + n), map[], b.nNew + n)
    {
      NextEntry(b, man.place, ids, b.nNew + n);
      NextTried(b, man.place, ids, b.nNew + n);
      var e := s.triedEntries[n];
      TriedSlotInRange(man.place, e.service);
      var k := man.place.TriedSlot(e.service);
      var occupant := man.GetTried(k);
      if occupant == -1 {
        var info := Load(e, |man.vRandom|, true);
        man.vRandom := man.vRandom + [man.nIdCount];
        man.mapInfo := man.mapInfo[man.nIdCount := info];
        man.mapAddr := man.mapAddr[info.service.net := man.nIdCount];
        man.SetTried(k, man.nIdCount);
        man.nIdCount := man.nIdCount + 1;
      } else {
        assert false;  // an entry that finds its slot taken would be counted as lost
      }
      assert man.vRandom == Numbers(b.nNew + n + 1);
    }
  }

  lemma NoTriedBelow(b: Book, place: Placement, ids: seq<Id>)
    requires Source(b, place, ids)
    ensures TabRead(b.triedTab, ids, b.nNew) == map[]
  {
    hide Consistent;
    forall s | s in b.triedTab && b.triedTab[s] in Rank(ids)
      ensures Rank(ids)[b.triedTab[s]] >= b.nNew
    {
      TriedSlotIs(b, place, s);
    }
  }

  /** The slots of the buckets before `bucket`, and the first `n` of that bucket. */
  ghost function Before(tab: Table, bucket: nat, n: nat): set<Slot> {
    set s | s in tab && (s.bucket < bucket || (s.bucket == bucket && s in SlotList(tab, bucket, BUCKET_SIZE) &&
                         exists m :: 0 <= m < n && m < |SlotList(tab, bucket, BUCKET_SIZE)| && SlotList(tab, bucket, BUCKET_SIZE)[m] == s))
  }

  lemma BeforeNext(tab: Table, bucket: nat, n: nat)
    requires n < |SlotList(tab, bucket, BUCKET_SIZE)|
    ensures var s := SlotList(tab, bucket, BUCKET_SIZE)[n];
            s in tab && s.bucket == bucket && s !in Before(tab, bucket, n) && Before(tab, bucket, n + 1) == Before(tab, bucket, n) + {s}
  {
    SlotListHolds(tab, bucket, BUCKET_SIZE);
    hide SlotList;
  }

  lemma BeforeNextBucket(tab: Table, bucket: nat)
    requires forall s | s in tab :: s.pos < BUCKET_SIZE
    ensures Before(tab, bucket, |SlotList(tab, bucket, BUCKET_SIZE)|) == Before(tab, bucket + 1, 0)
  {
    SlotListHolds(tab, bucket, BUCKET_SIZE);
    hide SlotList;
    var l := SlotList(tab, bucket, BUCKET_SIZE);
    forall s | s in tab && s.bucket == bucket
      ensures s in Before(tab, bucket, |l|)
    {
      assert s in l;
    }
  }

  lemma BeforeEnds(tab: Table)
    requires forall s | s in tab :: s.bucket < NEW_BUCKETS
    ensures Before(tab, 0, 0) == {} && Before(tab, NEW_BUCKETS, 0) == tab.Keys
  {
    hide SlotList;
  }

  /** The book once the new slots in `done` are back. */
  ghost function BookRead(b: Book, ids: seq<Id>, done: set<Slot>): Book {
    Book(InfoRead(b, ids, |ids|, done), AddrRead(b, ids, |ids|), Numbers(|ids|), b.nTried, b.nNew,
         TabRead(b.triedTab, ids, |ids|), TabDone(b.newTab, ids, done), |ids|)
  }

  method ReadIndex(man: CAddrMan, nIndex: nat, bucket: nat, ghost b: Book, ghost ids: seq<Id>, ghost done: set<Slot>, ghost slot: Slot)
    requires man.Shape() && Source(b, man.place, ids) && man.State() == BookRead(b, ids, done)
    requires slot in b.newTab && slot.bucket == bucket && slot !in done
    requires b.newTab[slot] in Rank(ids) && nIndex == Rank(ids)[b.newTab[slot]]
    modifies man`mapInfo, man.vvNew
    ensures man.Shape() && man.State() == BookRead(b, ids, done + {slot})
  {
    hide Cells, InfoRead, AddrRead, TabRead, TabDone, Consistent, CAddrMan.Shape, IdSet, Distinct, Rank, Source;
    NextSlot(b, man.place, ids, done, slot);
    if nIndex < man.nNew {
      var info := man.mapInfo[nIndex];
      man.PosInRange(info.service, bucket);
      var s := Slot(bucket, man.place.newPos(info.service, bucket));
      var there := man.GetNew(s);
      if there == -1 && info.refs < MAX_REFS {
        man.mapInfo := man.mapInfo[nIndex := info.(refs := info.refs + 1)];
        man.SetNew(s, nIndex);
      }
    }
  }

  method ReadBucket(man: CAddrMan, bucket: nat, written: seq<nat>, ghost b: Book, ghost ids: seq<Id>)
    requires man.Shape() && Source(b, man.place, ids) && man.State() == BookRead(b, ids, Before(b.newTab, bucket, 0))
    requires bucket < NEW_BUCKETS && BucketWritten(written, b.newTab, bucket, BUCKET_SIZE, ids)
    modifies man`mapInfo, man.vvNew
    ensures man.Shape() && man.State() == BookRead(b, ids, Before(b.newTab, bucket, |written|))
  {
    hide BookRead, Before, Source, Rank, SlotList;
    for n := 0 to |written|
      invariant man.Shape() && man.State() == BookRead(b, ids, Before(b.newTab, bucket, n))
    {
      BeforeNext(b.newTab, bucket, n);
      ReadIndex(man, written[n], bucket, b, ids, Before(b.newTab, bucket, n), SlotList(b.newTab, bucket, BUCKET_SIZE)[n]);
    }
  }

  method ReadBuckets(man: CAddrMan, s: Stream, ghost b: Book, ghost ids: seq<Id>)
    requires man.Shape() && Feeds(s, b, man.place, ids) && man.State() == BookRead(b, ids, {})
    modifies man`mapInfo, man.vvNew
    ensures man.Shape() && man.State() == BookRead(b, ids, b.newTab.Keys)
  {
    hide BookRead, Before, Source;
    forall u | u in b.newTab
      ensures u.bucket < NEW_BUCKETS && u.pos < BUCKET_SIZE
    {
      SlotsInRange(man, b, ids, u);
    }
    BeforeEnds(b.newTab);
    for k := 0 to NEW_BUCKETS
      invariant man.Shape() && man.State() == BookRead(b, ids, Before(b.newTab, k, 0))
    {
      ReadBucket(man, k, s.buckets[k], b, ids);
      BeforeNextBucket(b.newTab, k);
    }
  }

  lemma SlotsInRange(man: CAddrMan, b: Book, ids: seq<Id>, s: Slot)
    requires man.Shape() && Source(b, man.place, ids) && s in b.newTab
    ensures s.bucket < NEW_BUCKETS && s.pos < BUCKET_SIZE
  {
    hide Consistent, Cells;
    NewSlotIs(b, man.place, s);
    man.PosInRange(b.info[b.newTab[s]].service, s.bucket);
  }

  /** Pruning new entries without references. */
  method Prune(man: CAddrMan, ghost b: Book, ghost ids: seq<Id>) returns (nLostUnk: nat)
    requires man.Shape() && Source(b, man.place, ids) && man.State() == BookRead(b, ids, b.newTab.Keys)
    modifies man`mapInfo, man`mapAddr, man`vRandom, man`nNew
    ensures man.State() == old(man.State()) && nLostUnk == 0
  {
    hide Cells, InfoRead, AddrRead, TabRead, TabDone, Consistent, CAddrMan.Shape, IdSet, Distinct, Rank, Source;
    nLostUnk := 0;
    var rest := man.mapInfo.Keys;
    while rest != {}
      invariant man.State() == old(man.State()) && nLostUnk == 0
      invariant rest <= man.mapInfo.Keys
      decreases |rest|
    {
      var id :| id in rest;
      EveryNewHasSlot(b, man.place, ids, id);
      if !man.mapInfo[id].inTried && man.mapInfo[id].refs == 0 {
        assert false;  // an entry in no slot would be deleted and counted
      }
      rest := rest - {id};
    }
  }

  lemma EveryNewHasSlot(b: Book, place: Placement, ids: seq<Id>, i: Id)
    requires Source(b, place, ids) && i in InfoRead(b, ids, |ids|, b.newTab.Keys)
    ensures i < |ids| && InfoRead(b, ids, |ids|, b.newTab.Keys)[i] == b.info[ids[i]].(lastTry := 0, randomPos := i)
    ensures !b.info[ids[i]].inTried ==> b.info[ids[i]].refs > 0
  {
    hide RandomOk, AddrOk, CountsOk, TriedOk, IdsOk;
    assert StatOk(b.info[ids[i]], false);
    assert DoneSlots(b.newTab, ids[i], b.newTab.Keys) == SlotsOf(b.newTab, ids[i]);
  }

  /** Loading what was saved from a consistent book, into a manager without entries and with the same
      placement: no entry is lost to a collision or pruned, and the result is the book with
      its ids renumbered. */
  method Unserialize(man: CAddrMan, s: Stream, ghost b: Book, ghost order: seq<Id>)
    requires man.Shape() && man.mapInfo == map[] && man.mapAddr == map[]
    requires Consistent(b, man.place) && WalksAll(b.info, order)
    requires forall i | 0 <= i < |order| :: order[i] in b.info
    requires IsStreamOf(s, b, order)
    modifies man, man.vvNew, man.vvTried
    ensures man.Shape() && Renumbered(man.State(), b, Written(b.info, order))
  {
    hide Cells, InfoRead, AddrRead, TabRead, TabDone, Consistent, CAddrMan.Shape, IdSet, Distinct, Rank, NewOrder, TriedOrder,
         BucketWritten, WalksAll, Numbers, BookRead, Renumbered, Feeds, Source, IsStreamOf;
    ghost var ids := Written(b.info, order);
    StreamFeeds(s, b, man.place, order);
    man.Clear();
    man.nNew := s.nNew;
    man.nTried := s.nTried;
    ReadNewEntries(man, s, b, man.place, ids);
    man.nIdCount := man.nNew;
    var nLost := ReadTriedEntries(man, s, b, ids);
    man.nTried := man.nTried - nLost;
    AllButSlots(b, ids);
    ReadBuckets(man, s, b, ids);
    var nLostUnk := Prune(man, b, ids);
    ReadIsRenumbered(b, ids);
  }

  lemma AllButSlots(b: Book, ids: seq<Id>)
    ensures Book(InfoRead(b, ids, |ids|, {}), AddrRead(b, ids, |ids|), Numbers(|ids|), b.nTried, b.nNew,
                 TabRead(b.triedTab, ids, |ids|), map[], |ids|) == BookRead(b, ids, {})
  {
    hide InfoRead, AddrRead, TabRead;
    NothingRead(b, ids);
  }

  lemma ReadIsRenumbered(b: Book, ids: seq<Id>)
    ensures Renumbered(BookRead(b, ids, b.newTab.Keys), b, ids)
  {
    hide InfoRead, AddrRead;
    assert TabDone(b.newTab, ids, b.newTab.Keys) == TabRead(b.newTab, ids, |ids|);
  }

  // ----- a manager that is not empty -----

  /** Clear leaves an empty book, and one that passes Check_, only in a manager that held nothing. */
  lemma ClearedIsConsistentIff(b: Book, place: Placement)
    requires Consistent(b, place)
    ensures var cleared := EMPTY_BOOK.(info := b.info, addr := b.addr);
            && (cleared == EMPTY_BOOK <==> b.info == map[])
            && (Consistent(cleared, place) <==> b.info == map[])
  {
    var cleared := EMPTY_BOOK.(info := b.info, addr := b.addr);
    assert forall net | net in b.addr :: b.addr[net] in b.info;
    if b.info == map[] {
      assert b.addr == map[];
      EmptyIsConsistent(place);
    } else {
      var id :| id in b.info;
      assert !(0 <= cleared.info[id].randomPos < |cleared.random|);
    }
  }

  /** Loading what an empty manager wrote: no entry is read, and of the entries that were there none is
      pruned either, because each was tried or has references. The result is what was written
      exactly when the manager was empty too. */
  method UnserializeNothing(man: CAddrMan) returns (nLostUnk: nat)
    requires man.Valid()
    modifies man, man.vvNew, man.vvTried
    ensures man.Shape() && nLostUnk == 0
    ensures man.State() == EMPTY_BOOK.(info := old(man.mapInfo), addr := old(man.mapAddr))
    ensures Renumbered(man.State(), EMPTY_BOOK, []) <==> old(man.mapInfo) == map[]
    ensures man.Valid() <==> old(man.mapInfo) == map[]
  {
    hide Consistent, Cells, CAddrMan.Shape, Renumbered;
    ghost var b := man.State();
    ClearedIsConsistentIff(b, man.place);
    NothingRenumbered(b, man.place);
    man.Clear();
    man.nNew, man.nTried, man.nIdCount := 0, 0, 0;
    nLostUnk := 0;
    var rest := man.mapInfo.Keys;
    while rest != {}
      invariant man.Shape() && nLostUnk == 0 && rest <= b.info.Keys && man.mapInfo == b.info
      invariant man.State() == EMPTY_BOOK.(info := b.info, addr := b.addr)
      decreases |rest|
    {
      var id :| id in rest;
      TriedOrListed(b, man.place, id);
      if !man.mapInfo[id].inTried && man.mapInfo[id].refs == 0 {
        assert false;  // no entry is pruned
      }
      rest := rest - {id};
    }
  }

  lemma TriedOrListed(b: Book, place: Placement, id: Id)
    requires Consistent(b, place) && id in b.info
    ensures b.info[id].inTried || b.info[id].refs > 0
  {
    assert StatOk(b.info[id], false);
  }

  lemma NothingRenumbered(b: Book, place: Placement)
    requires Consistent(b, place)
    ensures Renumbered(EMPTY_BOOK.(info := b.info, addr := b.addr), EMPTY_BOOK, []) <==> b.info == map[]
  {
    ClearedIsConsistentIff(b, place);
  }

  // ----- the loaded book -----

  /** The old entries and the new ones correspond one to one: the same services, sources, times
      of success and attempts, references and tables, under the new ids. */
  lemma RenumberedMeans(b': Book, b: Book, place: Placement, ids: seq<Id>, id: Id)
    requires Source(b, place, ids) && Renumbered(b', b, ids) && id in b.info
    ensures id in Rank(ids)
    ensures var i := Rank(ids)[id];
            && i < |ids| && ids[i] == id && i in b'.info
            && b'.info[i] == b.info[id].(lastTry := 0, randomPos := i)
            && b'.addr[b.info[id].service.net] == i
            && (forall s :: s in b'.triedTab && b'.triedTab[s] == i <==> s in b.triedTab && b.triedTab[s] == id)
            && SlotsOf(b'.newTab, i) == SlotsOf(b.newTab, id)
  {
    hide Consistent;
    assert id in IdSet(ids);
    RankIs(ids, Rank(ids)[id]);
    AddrIsThere(b, place, id);
    assert DoneSlots(b.newTab, id, b.newTab.Keys) == SlotsOf(b.newTab, id);
    NewEntryMeans(b, place, ids, Rank(ids)[id]);
    forall s
      ensures s in b'.triedTab && b'.triedTab[s] == Rank(ids)[id] <==> s in b.triedTab && b.triedTab[s] == id
      ensures s in b'.newTab && b'.newTab[s] == Rank(ids)[id] <==> s in b.newTab && b.newTab[s] == id
    {
    }
  }

  lemma NewEntryMeans(b: Book, place: Placement, ids: seq<Id>, i: nat)
    requires Source(b, place, ids) && i < |ids| && ids[i] in b.info
    ensures i in InfoRead(b, ids, |ids|, b.newTab.Keys)
    ensures InfoRead(b, ids, |ids|, b.newTab.Keys)[i] == b.info[ids[i]].(lastTry := 0, randomPos := i)
  {
    hide Consistent, SlotsOf, IdSet, Distinct;
    RefsMean(b, place, ids[i]);
    assert DoneSlots(b.newTab, ids[i], b.newTab.Keys) == SlotsOf(b.newTab, ids[i]) by {
      AllSlotsDone(b.newTab, ids[i]);
    }
  }

  lemma AllSlotsDone(tab: Table, id: Id)
    ensures DoneSlots(tab, id, tab.Keys) == SlotsOf(tab, id)
  {
  }

  lemma RefsMean(b: Book, place: Placement, id: Id)
    requires Consistent(b, place) && id in b.info
    ensures b.info[id].refs == |SlotsOf(b.newTab, id)| && StatOk(b.info[id], false) && TimeOk(b.info[id])
  {
    hide RandomOk, AddrOk, CountsOk, TriedOk, IdsOk, SlotsOf;
  }

  /** The numbers from `a` to before `n`. */
  ghost function Range(a: nat, n: nat): (r: set<nat>)
    requires a <= n
    ensures |r| == n - a
    ensures forall i: nat :: i in r <==> a <= i < n
  {
    if a == n then {} else Range(a, n - 1) + {n - 1}
  }

  lemma LoadedEntry(b': Book, b: Book, place: Placement, ids: seq<Id>, i: Id)
    requires Source(b, place, ids) && Renumbered(b', b, ids)
    ensures i in b'.info <==> i < |ids|
    ensures i in b'.info ==> b'.info[i] == b.info[ids[i]].(lastTry := 0, randomPos := i)
    ensures i in b'.info ==> StatOk(b'.info[i], false) && TimeOk(b'.info[i])
  {
    hide Consistent, AddrRead, TabRead, SlotsOf;
    if i < |ids| {
      NewEntryMeans(b, place, ids, i);
      RefsMean(b, place, ids[i]);
    }
  }

  lemma LoadedAddrs(b': Book, b: Book, place: Placement, ids: seq<Id>)
    requires Source(b, place, ids) && Renumbered(b', b, ids)
    ensures AddrOk(b'.info, b'.addr)
  {
    hide Consistent, InfoRead, TabRead;
    forall i | i in b'.info
      ensures b'.info[i].service.net in b'.addr && b'.addr[b'.info[i].service.net] == i
    {
      LoadedEntry(b', b, place, ids, i);
      AddrIsThere(b, place, ids[i]);
      RankIs(ids, i);
    }
    forall net | net in b'.addr
      ensures b'.addr[net] in b'.info && b'.info[b'.addr[net]].service.net == net
    {
      NetIsThere(b, place, net);
      LoadedEntry(b', b, place, ids, b'.addr[net]);
    }
  }

  lemma LoadedTried(b': Book, b: Book, place: Placement, ids: seq<Id>)
    requires Source(b, place, ids) && Renumbered(b', b, ids)
    ensures TriedOk(b'.info, b'.triedTab, place)
  {
    hide Consistent, InfoRead, AddrRead;
    forall s | s in b'.triedTab
      ensures b'.triedTab[s] in b'.info && b'.info[b'.triedTab[s]].inTried
      ensures s == place.TriedSlot(b'.info[b'.triedTab[s]].service)
    {
      TriedSlotIs(b, place, s);
      LoadedEntry(b', b, place, ids, b'.triedTab[s]);
    }
    forall i | i in b'.info && b'.info[i].inTried
      ensures place.TriedSlot(b'.info[i].service) in b'.triedTab && b'.triedTab[place.TriedSlot(b'.info[i].service)] == i
    {
      LoadedEntry(b', b, place, ids, i);
      TriedIsThere(b, place, ids[i]);
      RankIs(ids, i);
    }
  }

  lemma LoadedNew(b': Book, b: Book, place: Placement, ids: seq<Id>)
    requires Source(b, place, ids) && Renumbered(b', b, ids)
    ensures NewOk(b'.info, b'.newTab, place)
  {
    hide Consistent, InfoRead, AddrRead, SlotsOf, Renumbered;
    forall s | s in b'.newTab
      ensures b'.newTab[s] in b'.info && s.bucket < NEW_BUCKETS && s.pos == place.newPos(b'.info[b'.newTab[s]].service, s.bucket)
    {
      LoadedSlot(b', b, place, ids, s);
    }
    forall i | i in b'.info
      ensures b'.info[i].refs == |SlotsOf(b'.newTab, i)|
    {
      LoadedEntry(b', b, place, ids, i);
      RankIs(ids, i);
      RenumberedMeans(b', b, place, ids, ids[i]);
      RefsMean(b, place, ids[i]);
    }
  }

  lemma LoadedSlot(b': Book, b: Book, place: Placement, ids: seq<Id>, s: Slot)
    requires Source(b, place, ids) && Renumbered(b', b, ids) && s in b'.newTab
    ensures b'.newTab[s] in b'.info && s.bucket < NEW_BUCKETS && s.pos == place.newPos(b'.info[b'.newTab[s]].service, s.bucket)
  {
    hide Consistent, InfoRead, AddrRead, SlotsOf;
    NewSlotIs(b, place, s);
    LoadedEntry(b', b, place, ids, b'.newTab[s]);
  }

  lemma LoadedCounts(b': Book, b: Book, place: Placement, ids: seq<Id>)
    requires Source(b, place, ids) && Renumbered(b', b, ids)
    ensures CountsOk(b'.info, b'.nTried, b'.nNew, {}, 0)
  {
    hide Consistent, InfoRead, AddrRead, TabRead;
    forall i: nat
      ensures i in TriedIds(b'.info) <==> b.nNew <= i < |ids|
      ensures i in NewIds(b'.info) <==> 0 <= i < b.nNew
    {
      LoadedEntry(b', b, place, ids, i);
    }
    assert TriedIds(b'.info) == Range(b.nNew, |ids|);
    assert NewIds(b'.info) - {} == Range(0, b.nNew);
  }

  lemma LoadedRest(b': Book, b: Book, place: Placement, ids: seq<Id>)
    requires Source(b, place, ids) && Renumbered(b', b, ids)
    ensures RandomOk(b'.info, b'.random) && StatsOk(b'.info, {}) && IdsOk(b'.info, b'.idCount) && TimesOk(b'.info)
  {
    hide Consistent, InfoRead, AddrRead, TabRead;
    forall i: Id
      ensures i in b'.info <==> i < |ids|
      ensures i in b'.info ==> b'.info[i].randomPos == i && StatOk(b'.info[i], false) && TimeOk(b'.info[i])
    {
      LoadedEntry(b', b, place, ids, i);
    }
  }

  /** The loaded book is consistent again. */
  lemma RenumberedIsConsistent(b': Book, b: Book, place: Placement, ids: seq<Id>)
    requires Source(b, place, ids) && Renumbered(b', b, ids)
    ensures Consistent(b', place)
  {
    hide RandomOk, AddrOk, CountsOk, StatsOk, TriedOk, NewOk, IdsOk, TimesOk, Source, Renumbered;
    LoadedAddrs(b', b, place, ids);
    LoadedTried(b', b, place, ids);
    LoadedNew(b', b, place, ids);
    LoadedCounts(b', b, place, ids);
    LoadedRest(b', b, place, ids);
  }

  /** Saving and loading: the new manager is consistent, and its book is the old one renumbered. */
  method RoundTrip(man: CAddrMan, order: seq<Id>) returns (loaded: CAddrMan)
    requires man.Valid() && WalksAll(man.mapInfo, order)
    ensures loaded.Valid() && loaded.place == man.place
    ensures forall i | 0 <= i < |order| :: order[i] in man.mapInfo
    ensures Renumbered(loaded.State(), man.State(), Written(man.mapInfo, order))
  {
    hide Consistent, WalksAll, Renumbered, Source, IsStreamOf, Cells;
    var s := Serialize(man, order);
    assert man.place.InRange() by { man.PlaceInRange(); }
    loaded := new CAddrMan(man.place);
    Unserialize(loaded, s, man.State(), order);
    WrittenIsSource(man.State(), man.place, order);
    RenumberedIsConsistent(loaded.State(), man.State(), man.place, Written(man.mapInfo, order));
  }

  lemma WrittenIsSource(b: Book, place: Placement, order: seq<Id>)
    requires Consistent(b, place) && WalksAll(b.info, order)
    ensures forall i | 0 <= i < |order| :: order[i] in b.info
    ensures Source(b, place, Written(b.info, order))
  {
    hide Consistent, WalksAll, Distinct, IdSet, NewOrder, TriedOrder;
    WrittenHolds(b, place, order);
  }
}
