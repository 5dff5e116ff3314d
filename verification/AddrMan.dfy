/** CAddrMan with the fields and in-place steps of src/addrman.cpp, proved against the steps of
    module AddrSteps. */
module AddrMan {
  import opened AddrBook
  import opened AddrSteps
  import opened Sets

  ghost function SlotsUpTo(n: nat, m: nat): set<Slot> {
    set b, p | 0 <= b < n && 0 <= p < m :: Slot(b, p)
  }

  /** A bucket array as a table; -1 marks an empty cell. */
  ghost function Cells(a: array2<int>): Table
    reads a
  {
    map s | s in SlotsUpTo(a.Length0, a.Length1) && a[s.bucket, s.pos] >= 0 :: a[s.bucket, s.pos] as nat
  }

  method SetCell(a: array2<int>, s: Slot, id: int)
    requires s.bucket < a.Length0 && s.pos < a.Length1
    modifies a
    ensures Cells(a) == if id >= 0 then old(Cells(a))[s := id] else old(Cells(a)) - {s}
    ensures a[s.bucket, s.pos] == id
    ensures forall b, p | 0 <= b < a.Length0 && 0 <= p < a.Length1 && Slot(b, p) != s :: a[b, p] == old(a[b, p])
  {
    a[s.bucket, s.pos] := id;
    assert s in SlotsUpTo(a.Length0, a.Length1);
    assert Cells(a) == if id >= 0 then old(Cells(a))[s := id] else old(Cells(a)) - {s};
  }

  method RefreshInfo(i: AddrInfo, a: Heard, penalty: int, now: int) returns (r: AddrInfo)
    ensures r == Refreshed(i, a, penalty, now)
  {
    var currentlyOnline := now - a.time < 24 * 60 * 60;
    var interval := if currentlyOnline then 60 * 60 else 24 * 60 * 60;
    r := i;
    if a.time != 0 && (i.time == 0 || i.time < a.time - interval - penalty) {
      r := r.(time := AtLeastZero(a.time - penalty));
    }
    r := r.(services := r.services + a.services);
  }

  method EmptyTable(a: array2<int>)
    modifies a
    ensures Cells(a) == map[] && forall b, p | 0 <= b < a.Length0 && 0 <= p < a.Length1 :: a[b, p] == -1
  {
    for bucket := 0 to a.Length0
      invariant forall b, p | 0 <= b < bucket && 0 <= p < a.Length1 :: a[b, p] == -1
    {
      for entry := 0 to a.Length1
        invariant forall b, p | 0 <= b < bucket && 0 <= p < a.Length1 :: a[b, p] == -1
        invariant forall p | 0 <= p < entry :: a[bucket, p] == -1
      {
        a[bucket, entry] := -1;
      }
    }
  }

  class CAddrMan {
    const place: Placement
    const vvNew: array2<int>
    const vvTried: array2<int>
    var mapInfo: InfoMap
    var mapAddr: map<Net, Id>
    var vRandom: seq<Id>
    var nTried: int
    var nNew: int
    var nIdCount: nat

    ghost predicate Shape()
      reads vvNew, vvTried
    {
      && vvNew != vvTried && place.InRange()
      && vvNew.Length0 == NEW_BUCKETS && vvNew.Length1 == BUCKET_SIZE
      && vvTried.Length0 == TRIED_BUCKETS && vvTried.Length1 == BUCKET_SIZE
      && (forall b, p | 0 <= b < NEW_BUCKETS && 0 <= p < BUCKET_SIZE :: vvNew[b, p] >= -1)
      && (forall b, p | 0 <= b < TRIED_BUCKETS && 0 <= p < BUCKET_SIZE :: vvTried[b, p] >= -1)
    }

    ghost function State(): Book
      reads this, vvNew, vvTried
    {
      Book(mapInfo, mapAddr, vRandom, nTried, nNew, Cells(vvTried), Cells(vvNew), nIdCount)
    }

    /** Check_ finds nothing wrong. */
    ghost predicate Valid()
      reads this, vvNew, vvTried
    {
      Shape() && Consistent(State(), place)
    }

    constructor (place: Placement)
      requires place.InRange()
      ensures Valid() && State() == EMPTY_BOOK && this.place == place
      ensures fresh(vvNew) && fresh(vvTried)
    {
      this.place := place;
      vvNew := new int[NEW_BUCKETS, BUCKET_SIZE]((_, _) => -1);
      vvTried := new int[TRIED_BUCKETS, BUCKET_SIZE]((_, _) => -1);
      mapInfo, mapAddr, vRandom := map[], map[], [];
      nTried, nNew, nIdCount := 0, 0, 0;
      new;
      assert Cells(vvNew) == map[] && Cells(vvTried) == map[];
      EmptyIsConsistent(place);
    }

    /** Clear: the vector, both tables and the counters are emptied, but mapInfo and mapAddr are not. The
        new secret key is not part of this model. */
    method Clear()
      requires Shape()
      modifies `vRandom, `nIdCount, `nTried, `nNew, vvNew, vvTried
      ensures Shape() && State() == EMPTY_BOOK.(info := mapInfo, addr := mapAddr)
    {
      vRandom := [];
      EmptyTable(vvNew);
      EmptyTable(vvTried);
      nIdCount, nTried, nNew := 0, 0, 0;
    }

    method SwapRandom(i: nat, j: nat)
      requires i < |vRandom| && j < |vRandom| && vRandom[i] in mapInfo && vRandom[j] in mapInfo
      modifies `mapInfo, `vRandom
      ensures State() == Swap(old(State()), i, j)
    {
      if i == j {
        return;
      }
      var x, y := vRandom[i], vRandom[j];
      mapInfo := mapInfo[x := mapInfo[x].(randomPos := j)];
      mapInfo := mapInfo[y := mapInfo[y].(randomPos := i)];
      vRandom := vRandom[i := y];
      vRandom := vRandom[j := x];
    }

    /** Delete, of an entry in no table. */
    method Delete(id: Id)
      requires CanDelete(State(), id)
      modifies `mapInfo, `vRandom, `mapAddr, `nNew
      ensures State() == DeleteId(old(State()), id)
    {
      hide Cells;
      // the assertions of src/addrman.cpp:123-125
      assert id in mapInfo;
      assert !mapInfo[id].inTried;
      assert mapInfo[id].refs == 0;
      var net := mapInfo[id].service.net;
      SwapRandom(mapInfo[id].randomPos, |vRandom| - 1);
      vRandom := vRandom[..|vRandom| - 1];
      mapAddr := mapAddr - {net};
      mapInfo := mapInfo - {id};
      nNew := nNew - 1;
    }

    method SetNew(s: Slot, id: int)
      requires Shape() && s.bucket < NEW_BUCKETS && s.pos < BUCKET_SIZE && id >= -1
      modifies vvNew
      ensures Shape() && Cells(vvNew) == if id >= 0 then old(Cells(vvNew))[s := id] else old(Cells(vvNew)) - {s}
      ensures Cells(vvTried) == old(Cells(vvTried))
    {
      hide Cells;
      SetCell(vvNew, s, id);
    }

    method SetTried(s: Slot, id: int)
      requires Shape() && s.bucket < TRIED_BUCKETS && s.pos < BUCKET_SIZE && id >= -1
      modifies vvTried
      ensures Shape() && Cells(vvTried) == if id >= 0 then old(Cells(vvTried))[s := id] else old(Cells(vvTried)) - {s}
      ensures Cells(vvNew) == old(Cells(vvNew))
    {
      hide Cells;
      SetCell(vvTried, s, id);
    }

    method GetNew(s: Slot) returns (id: int)
      requires Shape() && s.bucket < NEW_BUCKETS && s.pos < BUCKET_SIZE
      ensures if s in Cells(vvNew) then id == Cells(vvNew)[s] else id == -1
    {
      assert s in SlotsUpTo(NEW_BUCKETS, BUCKET_SIZE);
      id := vvNew[s.bucket, s.pos];
    }

    method GetTried(s: Slot) returns (id: int)
      requires Shape() && s.bucket < TRIED_BUCKETS && s.pos < BUCKET_SIZE
      ensures if s in Cells(vvTried) then id == Cells(vvTried)[s] else id == -1
    {
      assert s in SlotsUpTo(TRIED_BUCKETS, BUCKET_SIZE);
      id := vvTried[s.bucket, s.pos];
    }

    /** ClearNew, with its assertion in the requires. */
    method ClearNew(s: Slot)
      requires Shape() && s.bucket < NEW_BUCKETS && s.pos < BUCKET_SIZE
      requires CanClear(State(), s) && (s in State().newTab ==> mapInfo[State().newTab[s]].refs > 0)
      modifies `mapInfo, `vRandom, `mapAddr, `nNew, vvNew
      ensures Shape() && State() == ClearSlot(old(State()), s)
    {
      hide DeleteId, CanDelete, Cells, Shape;
      var id := GetNew(s);
      if id != -1 {
        mapInfo := mapInfo[id := mapInfo[id].(refs := mapInfo[id].refs - 1)];
        SetNew(s, -1);
        if mapInfo[id].refs == 0 {
          Delete(id);
        }
      }
    }

    /** The loop of MakeTried over all new buckets. */
    method UnlistEverywhere(id: Id)
      requires Shape() && id in mapInfo && NewOk(mapInfo, State().newTab, place)
      modifies `mapInfo, `nNew, vvNew
      ensures Shape() && State() == UnlistAll(old(State()), id)
    {
      hide Cells, Shape, NewOk, SlotsOf, SlotsBelow;
      ghost var tab, info := Cells(vvNew), mapInfo;
      var service := mapInfo[id].service;
      SlotsBelowEnds(tab, info, place, id);
      for bucket := 0 to NEW_BUCKETS
        invariant Shape() && id in mapInfo && nNew == old(nNew)
        invariant Cells(vvNew) == tab - SlotsBelow(tab, id, bucket) && Cells(vvTried) == old(Cells(vvTried))
        invariant mapInfo == info[id := info[id].(refs := info[id].refs - |SlotsBelow(tab, id, bucket)|)]
      {
        var s := Slot(bucket, place.newPos(service, bucket));
        SlotsBelowNext(tab, info, place, id, bucket);
        assert s.pos < BUCKET_SIZE by { PosInRange(service, bucket); }
        var there := GetNew(s);
        if there == id {
          SetNew(s, -1);
          mapInfo := mapInfo[id := mapInfo[id].(refs := mapInfo[id].refs - 1)];
        }
      }
      nNew := nNew - 1;
    }

    /** The entry of a tried slot, taken out of the tried set. */
    method TakeOut(k: Slot) returns (id: Id)
      requires Shape() && k.bucket < TRIED_BUCKETS && k.pos < BUCKET_SIZE
      requires k in State().triedTab && State().triedTab[k] in State().info
      modifies `mapInfo, `nTried, vvTried
      ensures Shape() && id == old(State()).triedTab[k] && State() == Evict(old(State()), k)
    {
      hide Cells, Shape;
      id := GetTried(k);
      mapInfo := mapInfo[id := mapInfo[id].(inTried := false)];
      SetTried(k, -1);
      nTried := nTried - 1;
    }

    /** The entry evicted from tried slot `k` goes back to its new slot. */
    method EvictTo(k: Slot, ghost out: set<Id>, ghost extra: int)
      requires Shape() && k.bucket < TRIED_BUCKETS && k.pos < BUCKET_SIZE
      requires Between(State(), place, out, extra) && k in State().triedTab
      modifies this, vvNew, vvTried
      ensures Shape() && State() == MakeRoom(old(State()), place, k, out, extra)
    {
      hide Cells, Shape, Between, ClearSlot, DeleteId, CanClear, Placement.InRange, Placement.NewSlot;
      ghost var b := State();
      assert place.InRange() by { PlaceInRange(); }
      EvictKeeps(b, place, out, extra, k);
      var id := TakeOut(k);
      ghost var b1 := State();
      // find which new slot it belongs to, and empty that
      var u := place.NewSlot(mapInfo[id].service, mapInfo[id].source);
      SlotInRange(place, mapInfo[id].service, mapInfo[id].source);
      ClearKeeps(b1, place, out + {id}, extra, u);
      OldStays(b1, place, out + {id}, extra, u, id);
      ClearNew(u);
      // enter it there
      OutIsListed(State(), place, out + {id}, extra, id);
      mapInfo := mapInfo[id := mapInfo[id].(refs := 1)];
      SetNew(u, id);
      nNew := nNew + 1;
    }

    lemma PlaceInRange()
      requires Shape()
      ensures place.InRange()
    {
    }

    method MakeTriedEntry(id: Id)
      requires Shape() && Between(State(), place, {}, 0) && id in mapInfo && !mapInfo[id].inTried
      modifies this, vvNew, vvTried
      ensures Shape() && place.InRange() && State() == MakeTried(old(State()), place, id)
    {
      hide Cells, Shape, Between, MakeRoom, Placement.InRange, NewOk;
      ghost var b := State();
      assert place.InRange() by { PlaceInRange(); }
      assert NewOk(mapInfo, State().newTab, place) by { BetweenNew(b, place, {}, 0); }
      var service := mapInfo[id].service;
      UnlistEverywhere(id);
      UnlistAllKeeps(b, place, {}, 0, id);
      assert mapInfo[id].refs == 0;  // the assertion of src/addrman.cpp:155
      assert {} + {id} == {id};
      var k := place.TriedSlot(service);
      TriedSlotInRange(place, service);
      ghost var b1 := State();
      var occupant := GetTried(k);
      if occupant != -1 {
        MakeRoomKeeps(b1, place, k, {id}, 0, id);
        EvictTo(k, {id}, 0);
      }
      // the assertion of src/addrman.cpp:184
      assert k !in State().triedTab;
      SetTried(k, id);
      nTried := nTried + 1;
      mapInfo := mapInfo[id := mapInfo[id].(inTried := true)];
    }

    /** Good_. The bucket search cannot fail: an entry that is not tried is in some new slot. */
    method Good_(service: Service, time: int, rnd: nat)
      requires Shape() && Between(State(), place, {}, 0) && rnd < NEW_BUCKETS
      modifies this, vvNew, vvTried
      ensures Shape() && place.InRange() && State() == Good(old(State()), place, service, time)
    {
      hide Cells, Shape, Between, MakeTried, Placement.InRange;
      ghost var b := State();
      assert place.InRange() by { PlaceInRange(); }
      if service.net !in mapAddr || mapAddr[service.net] !in mapInfo {
        return;
      }
      var id := mapAddr[service.net];
      if mapInfo[id].service != service {
        return;
      }
      NoteGoodKeeps(b, place, id, time);
      mapInfo := mapInfo[id := mapInfo[id].(lastSuccess := time, lastTry := time, attempts := 0)];
      if mapInfo[id].inTried {
        return;
      }
      var found := FindBucket(id, rnd);
      MakeTriedEntry(id);
    }

    /** The search for a bucket that an entry is in, from a random start. */
    method FindBucket(id: Id, rnd: nat) returns (bucket: nat)
      requires Shape() && Between(State(), place, {}, 0) && rnd < NEW_BUCKETS
      requires id in mapInfo && !mapInfo[id].inTried
      ensures bucket < NEW_BUCKETS
      ensures var s := Slot(bucket, place.newPos(mapInfo[id].service, bucket)); s in State().newTab && State().newTab[s] == id
    {
      hide Cells, Shape, Between;
      var service := mapInfo[id].service;
      ghost var home := HasSlot(State(), place, id);
      ghost var turns := (home.bucket + NEW_BUCKETS - rnd) % NEW_BUCKETS;
      for n := 0 to NEW_BUCKETS
        invariant n <= turns  // not passed it yet
      {
        bucket := (n + rnd) % NEW_BUCKETS;
        assert n == turns ==> bucket == home.bucket;
        PosInRange(service, bucket);
        var there := GetNew(Slot(bucket, place.newPos(service, bucket)));
        if there == id {
          return;
        }
      }
      assert false;
    }

    method Attempt_(service: Service, time: int)
      modifies `mapInfo
      ensures State() == Attempt(old(State()), service, time)
    {
      hide Cells;
      if service.net !in mapAddr || mapAddr[service.net] !in mapInfo {
        return;
      }
      var id := mapAddr[service.net];
      if mapInfo[id].service != service {
        return;
      }
      mapInfo := mapInfo[id := mapInfo[id].(lastTry := time, attempts := mapInfo[id].attempts + 1)];
    }

    method Connected_(service: Service, time: int)
      modifies `mapInfo
      ensures State() == Connected(old(State()), service, time)
    {
      hide Cells;
      if service.net !in mapAddr || mapAddr[service.net] !in mapInfo {
        return;
      }
      var id := mapAddr[service.net];
      if mapInfo[id].service != service {
        return;
      }
      if time - mapInfo[id].time > 20 * 60 {
        mapInfo := mapInfo[id := mapInfo[id].(time := time % TWO_TO_THE_32)];
      }
    }

    /** Add_. `lucky` is whether the random draw came out as zero. */
    method Add_(a: Heard, penalty: int, now: int, lucky: bool) returns (added: bool)
      requires Shape() && Between(State(), place, {}, 0)
      modifies this, vvNew
      ensures Shape() && (State(), added) == Add(old(State()), place, a, penalty, now, lucky)
    {
      hide Cells, Shape, Between, Settle;
      ghost var b := State();
      if !a.routable {
        return false;
      }
      AddrIsListed(b, place, a.service.net);
      if a.service.net in mapAddr && mapAddr[a.service.net] in mapInfo {
        var id := mapAddr[a.service.net];
        RefreshKeeps(b, place, id, a, penalty, now);
        Refresh(id, a, penalty, now);
        if LeaveIt(mapInfo[id], a, lucky) {
          return false;
        }
        SettleEntry(id, a.source, now, {}, 0);
        return false;
      }
      ghost var t := AtLeastZero(a.time - penalty);
      CreateKeeps(b, place, a.service, a.services, t, a.source);
      MoreNew(CreateId(b, a.service, a.services, t, a.source), place, {b.idCount}, 0);
      var id := CreateEntry(a, penalty);
      nNew := nNew + 1;
      SettleEntry(id, a.source, now, {id}, 1);
      return true;
    }

    method CreateEntry(a: Heard, penalty: int) returns (id: Id)
      modifies this
      ensures id == old(nIdCount)
      ensures State() == CreateId(old(State()), a.service, a.services, AtLeastZero(a.time - penalty), a.source)
    {
      hide Cells;
      id := nIdCount;
      nIdCount := nIdCount + 1;
      mapInfo := mapInfo[id := AddrInfo(a.service, a.source, a.services, a.time, 0, 0, 0, 0, false, -1)];
      mapAddr := mapAddr[a.service.net := id];
      mapInfo := mapInfo[id := mapInfo[id].(randomPos := |vRandom|)];
      vRandom := vRandom + [id];
      var time := mapInfo[id].time - penalty;
      mapInfo := mapInfo[id := mapInfo[id].(time := if time < 0 then 0 else time % TWO_TO_THE_32)];
    }

    method Refresh(id: Id, a: Heard, penalty: int, now: int)
      requires id in mapInfo
      modifies `mapInfo
      ensures State() == old(State()).(info := old(mapInfo)[id := Refreshed(old(mapInfo)[id], a, penalty, now)])
    {
      hide Cells, Refreshed;
      var i := RefreshInfo(mapInfo[id], a, penalty, now);
      mapInfo := mapInfo[id := i];
    }

    /** The end of Add_ */
    method SettleEntry(id: Id, source: Net, now: int, ghost out: set<Id>, ghost extra: int)
      requires Shape() && Between(State(), place, out, extra) && id in mapInfo && (mapInfo[id].refs == 0 ==> id in out)
      requires !mapInfo[id].inTried && mapInfo[id].refs < MAX_REFS
      modifies this, vvNew
      ensures Shape() && State() == Settle(old(State()), place, out, extra, id, source, now)
    {
      hide Cells, Shape, Between, ClearSlot, DeleteId, CanDelete, CanClear, Placement.InRange;
      ghost var b := State();
      assert place.InRange() by { PlaceInRange(); }
      var u := place.NewSlot(mapInfo[id].service, source);
      SlotInRange(place, mapInfo[id].service, source);
      var there := GetNew(u);
      if there == id {
        return;
      }
      var insert := there == -1;
      if !insert {
        ListedIsNew(b, place, out, extra, u);
        var existing := mapInfo[there];
        if existing.IsTerrible(now) || (existing.refs > 1 && mapInfo[id].refs == 0) {
          insert := true;
        }
      }
      if insert {
        ClearKeeps(b, place, out, extra, u);
        ClearNew(u);
        mapInfo := mapInfo[id := mapInfo[id].(refs := mapInfo[id].refs + 1)];
        SetNew(u, id);
      } else if mapInfo[id].refs == 0 {
        DeleteKeeps(b, place, out, extra, id);
        Delete(id);
      }
    }

    /** GetAddr_: as many distinct, not terrible addresses as there are, up to 23 percent of all
        entries and at most 2500. Only the order of vRandom changes. */
    method GetAddr_(draw: nat -> nat, now: int) returns (vAddr: seq<Service>, ghost ids: seq<Id>)
      requires RandomOk(mapInfo, vRandom)
      modifies `mapInfo, `vRandom
      ensures RandomOk(mapInfo, vRandom) && SameEntries(old(mapInfo), mapInfo)
      ensures State() == old(State()).(info := mapInfo, random := vRandom)
      ensures |vAddr| == |ids| && Distinct(ids)
      ensures ServicesOf(old(mapInfo), ids, vAddr)
      ensures forall id | id in ids :: id in mapInfo && !mapInfo[id].IsTerrible(now)
      ensures var limit := GetAddrLimit(|vRandom|);
              |vAddr| == if limit < |Presentable(mapInfo, now)| then limit else |Presentable(mapInfo, now)|
    {
      hide AddrInfo.IsTerrible, Swap, RandomOk, SameEntries, Gathered, Distinct, Presentable, ServicesOf, Cells;
      vAddr, ids := [], [];
      var limit := 23 * |vRandom| / 100;
      if limit > 2500 {
        limit := 2500;
      }
      ghost var size := |vRandom|;
      SameEntriesSelf(mapInfo);
      NothingGathered(mapInfo, vRandom, now);
      var n := 0;
      while n < |vRandom| && |vAddr| < limit
        invariant 0 <= n <= |vRandom| == size && |vAddr| == |ids| <= limit
        invariant RandomOk(mapInfo, vRandom) && SameEntries(old(mapInfo), mapInfo)
        invariant State() == old(State()).(info := mapInfo, random := vRandom)
        invariant Gathered(mapInfo, now, ids, n)
        invariant Distinct(ids) && ServicesOf(old(mapInfo), ids, vAddr)
      {
        ghost var info := mapInfo;
        var other := draw(n) % (|vRandom| - n) + n;
        GatherSwap(mapInfo, vRandom, now, ids, n, other, State());
        SwapRandom(n, other);
        SameEntriesTwice(old(mapInfo), info, mapInfo);
        RandomListed(mapInfo, vRandom, n);
        var entry := mapInfo[vRandom[n]];
        ServicesNext(old(mapInfo), mapInfo, ids, vAddr, vRandom[n]);
        GatherNext(mapInfo, vRandom, now, ids, n);
        if !entry.IsTerrible(now) {
          vAddr := vAddr + [entry.service];
          ids := ids + [vRandom[n]];
        }
        n := n + 1;
      }
      GatheredCount(mapInfo, vRandom, now, ids, n);
    }

    lemma PosInRange(service: Service, bucket: nat)
      requires Shape()
      ensures place.newPos(service, bucket) < BUCKET_SIZE
    {
    }
  }

  // ----- GetAddr_ -----

  function GetAddrLimit(size: nat): nat { if 23 * size / 100 > 2500 then 2500 else 23 * size / 100 }

  /** The greatest number within 23 percent and 2500. */
  lemma LimitIs(size: nat, n: nat)
    ensures n <= GetAddrLimit(size) <==> n <= 2500 && 100 * n <= 23 * size
  {
  }

  ghost predicate Distinct(ids: seq<Id>) { forall i, j | 0 <= i < j < |ids| :: ids[i] != ids[j] }

  ghost function Presentable(info: InfoMap, now: int): set<Id> { set id | id in info && !info[id].IsTerrible(now) }

  /** `ids` are the presentable entries among the first `n` of vRandom. */
  ghost predicate Gathered(info: InfoMap, now: int, ids: seq<Id>, n: nat) {
    && (forall k | 0 <= k < |ids| :: ids[k] in info && info[ids[k]].randomPos < n && !info[ids[k]].IsTerrible(now))
    && (forall id | id in info && info[id].randomPos < n && !info[id].IsTerrible(now) :: id in ids)
  }

  lemma SameEntriesSelf(info: InfoMap)
    ensures SameEntries(info, info)
  {
  }

  lemma SameEntriesTwice(a: InfoMap, b: InfoMap, c: InfoMap)
    requires SameEntries(a, b) && SameEntries(b, c)
    ensures SameEntries(a, c)
  {
  }

  lemma GatherSwap(info: InfoMap, random: seq<Id>, now: int, ids: seq<Id>, n: nat, m: nat, b: Book)
    requires RandomOk(info, random) && n <= m < |random| && Gathered(info, now, ids, n)
    requires b.info == info && b.random == random
    ensures random[n] in info && random[m] in info
    ensures var b' := Swap(b, n, m);
            && RandomOk(b'.info, b'.random) && SameEntries(info, b'.info) && Gathered(b'.info, now, ids, n)
            && |b'.random| == |random|
  {
    SwapMoves(b, n, m);
    var info' := Swap(b, n, m).info;
    forall id | id in info
      ensures info'[id].randomPos < n <==> info[id].randomPos < n
      ensures info'[id].IsTerrible(now) == info[id].IsTerrible(now)
    {
      assert SameEntry(info[id], info'[id]);
    }
  }

  lemma GatherNext(info: InfoMap, random: seq<Id>, now: int, ids: seq<Id>, n: nat)
    requires RandomOk(info, random) && n < |random| && Gathered(info, now, ids, n)
    ensures var ids' := if info[random[n]].IsTerrible(now) then ids else ids + [random[n]];
            Gathered(info, now, ids', n + 1) && (Distinct(ids) ==> Distinct(ids'))
  {
    hide AddrInfo.IsTerrible;
    var ids' := if info[random[n]].IsTerrible(now) then ids else ids + [random[n]];
    forall id | id in info && info[id].randomPos < n + 1 && !info[id].IsTerrible(now)
      ensures id in ids'
    {
      if info[id].randomPos == n {
        assert id == random[n];
      } else {
        assert id in ids;
      }
    }
  }

  /** The addresses of the given entries, in order. */
  ghost predicate ServicesOf(info: InfoMap, ids: seq<Id>, services: seq<Service>) {
    |ids| == |services| && forall k | 0 <= k < |ids| :: ids[k] in info && services[k] == info[ids[k]].service
  }

  lemma ServicesNext(info: InfoMap, info': InfoMap, ids: seq<Id>, services: seq<Service>, id: Id)
    requires ServicesOf(info, ids, services) && SameEntries(info, info') && id in info'
    ensures ServicesOf(info, ids + [id], services + [info'[id].service])
  {
    assert SameEntry(info[id], info'[id]);
  }

  lemma RandomListed(info: InfoMap, random: seq<Id>, n: nat)
    requires RandomOk(info, random) && n < |random|
    ensures random[n] in info
  {
  }

  lemma NothingGathered(info: InfoMap, random: seq<Id>, now: int)
    requires RandomOk(info, random)
    ensures Gathered(info, now, [], 0) && Distinct([]) && ServicesOf(info, [], [])
  {
  }

  ghost function IdSet(ids: seq<Id>): set<Id> { set id | id in ids }

  lemma {:induction false} DistinctCount(ids: seq<Id>)
    requires Distinct(ids)
    ensures |IdSet(ids)| == |ids|
  {
    if ids != [] {
      var rest, last := ids[..|ids| - 1], ids[|ids| - 1];
      DistinctCount(rest);
      assert ids == rest + [last];
      assert IdSet(ids) == IdSet(rest) + {last};
      assert last !in rest;
    }
  }

  lemma GatheredCount(info: InfoMap, random: seq<Id>, now: int, ids: seq<Id>, n: nat)
    requires RandomOk(info, random) && n <= |random| && Gathered(info, now, ids, n) && Distinct(ids)
    ensures forall id | id in ids :: id in info && !info[id].IsTerrible(now)
    ensures |ids| <= |Presentable(info, now)| && (n == |random| ==> |ids| == |Presentable(info, now)|)
  {
    hide AddrInfo.IsTerrible;
    DistinctCount(ids);
    SubsetCount(IdSet(ids), Presentable(info, now));
    if n == |random| {
      assert Presentable(info, now) == IdSet(ids);
    }
  }

  /** The slots of `id` in the buckets before `bucket`. */
  ghost function SlotsBelow(tab: Table, id: Id, bucket: nat): set<Slot> {
    set s | s in SlotsOf(tab, id) && s.bucket < bucket
  }

  lemma SlotsBelowNext(tab: Table, info: InfoMap, place: Placement, id: Id, bucket: nat)
    requires NewOk(info, tab, place) && id in info
    ensures var s := Slot(bucket, place.newPos(info[id].service, bucket));
            var b, b' := SlotsBelow(tab, id, bucket), SlotsBelow(tab, id, bucket + 1);
            && s !in b
            && (if s in tab && tab[s] == id then b' == b + {s} && |b'| == |b| + 1 && tab - b' == tab - b - {s} else b' == b)
            && (s in tab ==> s in tab - b)
  {
    var s := Slot(bucket, place.newPos(info[id].service, bucket));
    var b, b' := SlotsBelow(tab, id, bucket), SlotsBelow(tab, id, bucket + 1);
    if s in tab && tab[s] == id {
      assert b' == b + {s};
    } else {
      assert b' == b;
    }
  }

  lemma SlotsBelowEnds(tab: Table, info: InfoMap, place: Placement, id: Id)
    requires NewOk(info, tab, place)
    ensures SlotsBelow(tab, id, 0) == {} && tab - {} == tab && SlotsBelow(tab, id, NEW_BUCKETS) == SlotsOf(tab, id)
  {
  }

  lemma BetweenNew(b: Book, place: Placement, out: set<Id>, extra: int)
    requires Between(b, place, out, extra)
    ensures NewOk(b.info, b.newTab, place)
  {
  }

  lemma TriedSlotInRange(place: Placement, service: Service)
    requires place.InRange()
    ensures place.TriedSlot(service).bucket < TRIED_BUCKETS && place.TriedSlot(service).pos < BUCKET_SIZE
  {
  }

  /** An entry that is not tried is in some new slot, at its computed position. */
  lemma HasSlot(b: Book, place: Placement, id: Id) returns (s: Slot)
    requires Between(b, place, {}, 0) && id in b.info && !b.info[id].inTried
    ensures s in b.newTab && b.newTab[s] == id && s.bucket < NEW_BUCKETS && s.pos == place.newPos(b.info[id].service, s.bucket)
  {
    assert StatOk(b.info[id], false);
    assert SlotsOf(b.newTab, id) != {};
    s :| s in SlotsOf(b.newTab, id);
  }

  lemma EmptyIsConsistent(place: Placement)
    ensures Consistent(EMPTY_BOOK, place)
  {
    assert TriedIds(map[]) == {} && NewIds(map[]) == {};
  }

  // ----- Check_ -----

  /** What Check_ asks of each entry, with its error codes. */
  ghost predicate EntryPasses(b: Book, place: Placement, id: Id)
    requires id in b.info
  {
    var i := b.info[id];
    && (i.inTried ==> i.lastSuccess != 0 && i.refs == 0)                                      // -1, -2
    && (!i.inTried ==> 0 < i.refs <= MAX_REFS)                                                // -3, -4
    && (i.service.net in b.addr && b.addr[i.service.net] == id)                               // -5
    && (0 <= i.randomPos < |b.random| && b.random[i.randomPos] == id)                         // -14
    && i.lastTry >= 0 && i.lastSuccess >= 0                                                   // -6, -8
    && (i.inTried ==> exists s :: s in b.triedTab && b.triedTab[s] == id)                     // -13
    && (!i.inTried ==> |SlotsOf(b.newTab, id)| == i.refs)                                     // -15
  }

  /** What it asks of each slot. */
  ghost predicate SlotPasses(b: Book, place: Placement, s: Slot) {
    && (s in b.triedTab ==>
          && b.triedTab[s] in TriedIds(b.info)                                                // -11
          && place.TriedSlot(b.info[b.triedTab[s]].service) == s)                             // -17, -18
    && (s in b.newTab ==>
          && b.newTab[s] in NewIds(b.info)                                                    // -12
          && place.newPos(b.info[b.newTab[s]].service, s.bucket) == s.pos)                    // -19
  }

  /** The conditions that Check_ tests; whether the secret key is null (-16) is not part of this. */
  ghost predicate CheckPasses(b: Book, place: Placement) {
    && |b.random| == b.nTried + b.nNew                                                        // -7
    && |TriedIds(b.info)| == b.nTried && |NewIds(b.info)| == b.nNew                           // -9, -10
    && (forall id | id in b.info :: EntryPasses(b, place, id))
    && (forall s :: SlotPasses(b, place, s))
  }

  lemma RandomCount(info: InfoMap, random: seq<Id>)
    requires RandomOk(info, random)
    ensures |random| == |info.Keys| == |TriedIds(info)| + |NewIds(info)|
  {
    assert Distinct(random);
    DistinctCount(random);
    assert IdSet(random) == info.Keys;
    assert info.Keys == TriedIds(info) + NewIds(info);
    assert TriedIds(info) !! NewIds(info);
  }

  lemma EntryChecks(b: Book, place: Placement, id: Id)
    requires Consistent(b, place) && id in b.info
    ensures EntryPasses(b, place, id)
  {
    hide SlotsOf, CountsOk, IdsOk;
    assert StatOk(b.info[id], false) && TimeOk(b.info[id]);
    assert b.info[id].inTried ==> place.TriedSlot(b.info[id].service) in b.triedTab;
  }

  lemma SlotChecks(b: Book, place: Placement, s: Slot)
    requires Consistent(b, place)
    ensures SlotPasses(b, place, s)
  {
    hide SlotsOf, CountsOk, IdsOk, RandomOk, AddrOk;
    if s in b.newTab {
      ListedIsNew(b, place, {}, 0, s);
    }
  }

  lemma CheckFindsNothing(b: Book, place: Placement)
    requires Consistent(b, place)
    ensures CheckPasses(b, place)
  {
    hide AddrOk, StatsOk, TriedOk, NewOk, IdsOk, EntryPasses, SlotPasses, RandomOk;
    RandomCount(b.info, b.random);
    assert NewIds(b.info) - {} == NewIds(b.info);
    forall id | id in b.info
      ensures EntryPasses(b, place, id)
    {
      EntryChecks(b, place, id);
    }
    forall s
      ensures SlotPasses(b, place, s)
    {
      SlotChecks(b, place, s);
    }
  }

  lemma ReorderedIsConsistent(b: Book, b': Book, place: Placement)
    requires Consistent(b, place) && b' == b.(info := b'.info, random := b'.random)
    requires RandomOk(b'.info, b'.random) && SameEntries(b.info, b'.info)
    ensures Consistent(b', place)
  {
    hide RandomOk, AddrOk, CountsOk, StatsOk, TriedOk, NewOk, IdsOk;
    SameEntriesAgree(b.info, b'.info, b, place, {}, 0);
    forall id | id in b'.info
      ensures TimeOk(b'.info[id])
    {
      assert SameEntry(b.info[id], b'.info[id]) && TimeOk(b.info[id]);
    }
  }

  // ----- runs -----

  datatype AddrOp =
    | AddOp(heard: Heard, penalty: int, now: int, lucky: bool)
    | GoodOp(service: Service, time: int, rnd: nat)
    | AttemptOp(service: Service, time: int)
    | ConnectedOp(service: Service, time: int)
    | GetAddrOp(draw: nat -> nat, now: int)

  /** What the callers give: positive times, and draws in range. */
  predicate OpOk(op: AddrOp) {
    match op
    case GoodOp(_, time, rnd) => time > 0 && rnd < NEW_BUCKETS
    case AttemptOp(_, time) => time >= 0
    case _ => true
  }

  method RunOp(man: CAddrMan, op: AddrOp)
    requires man.Valid() && OpOk(op)
    modifies man, man.vvNew, man.vvTried
    ensures man.Valid()
  {
    hide Consistent, Between, RandomOk, SameEntries, Add, Good, Attempt, Connected, Cells, CAddrMan.Shape, Placement.InRange,
         Presentable, Distinct, ServicesOf;
    assert man.place.InRange() by { man.PlaceInRange(); }
    ghost var b := man.State();
    ConsistentBetween(b, man.place);
    if op.AddOp? {
      AddKeeps(b, man.place, op.heard, op.penalty, op.now, op.lucky);
      var _ := man.Add_(op.heard, op.penalty, op.now, op.lucky);
    } else if op.GoodOp? {
      GoodKeepsIff(b, man.place, op.service, op.time);
      man.Good_(op.service, op.time, op.rnd);
    } else if op.AttemptOp? {
      AttemptKeepsIff(b, man.place, op.service, op.time);
      man.Attempt_(op.service, op.time);
    } else if op.ConnectedOp? {
      ConnectedKeeps(b, man.place, op.service, op.time);
      man.Connected_(op.service, op.time);
    } else {
      ghost var ids;
      var vAddr;
      vAddr, ids := man.GetAddr_(op.draw, op.now);
      ReorderedIsConsistent(b, man.State(), man.place);
    }
  }

  lemma ConsistentBetween(b: Book, place: Placement)
    requires Consistent(b, place)
    ensures Between(b, place, {}, 0) && RandomOk(b.info, b.random)
  {
  }

  /** Whatever operations are run, with whatever draws, Check_ finds nothing wrong after each. */
  method RunOps(man: CAddrMan, ops: seq<AddrOp>)
    requires man.Valid() && forall i | 0 <= i < |ops| :: OpOk(ops[i])
    modifies man, man.vvNew, man.vvTried
    ensures man.Valid() && CheckPasses(man.State(), man.place)
  {
    hide Consistent, CheckPasses, OpOk, Cells;
    for i := 0 to |ops|
      invariant man.Valid()
    {
      RunOp(man, ops[i]);
    }
    CheckFindsNothing(man.State(), man.place);
  }
}
