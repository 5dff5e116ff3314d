/** The state of the address manager as a value, its steps, and the consistency that
    CAddrMan::Check_ tests (src/addrman.cpp:374-448).

    Which bucket and position an address hashes to is left open: `Placement` stands for
    GetTriedBucket, GetNewBucket and GetBucketPosition with the manager's secret key. */
module AddrBook {

  type Id = nat
  /** A network address, without the port. */
  type Net = nat
  datatype Service = Service(net: Net, port: nat)
  /** The bits set in nServices. */
  type Services = set<nat>
  datatype Slot = Slot(bucket: nat, pos: nat)

  const TRIED_BUCKETS := 256
  const NEW_BUCKETS := 1024
  const BUCKET_SIZE := 64
  const MAX_REFS := 8
  const HORIZON_DAYS := 30
  const RETRIES := 3
  const MAX_FAILURES := 10
  const MIN_FAIL_DAYS := 7
  const DAY := 86400
  const TWO_TO_THE_32 := 0x1_0000_0000

  datatype Placement = Placement(triedBucket: Service -> nat, newBucket: (Service, Net) -> nat,
                                 triedPos: (Service, nat) -> nat, newPos: (Service, nat) -> nat) {
    ghost predicate InRange() {
      && (forall s :: triedBucket(s) < TRIED_BUCKETS)
      && (forall s, n :: newBucket(s, n) < NEW_BUCKETS)
      && (forall s, b :: triedPos(s, b) < BUCKET_SIZE)
      && (forall s, b :: newPos(s, b) < BUCKET_SIZE)
    }

    function TriedSlot(s: Service): Slot { Slot(triedBucket(s), triedPos(s, triedBucket(s))) }

    function NewSlot(s: Service, source: Net): Slot { Slot(newBucket(s, source), newPos(s, newBucket(s, source))) }
  }

  datatype AddrInfo = AddrInfo(service: Service, source: Net, services: Services, time: nat, lastTry: int,
                               lastSuccess: int, attempts: int, refs: int, inTried: bool, randomPos: int) {
    predicate IsTerrible(now: int) {
      if lastTry != 0 && lastTry >= now - 60 then false
      else
        || time > now + 600
        || time == 0 || now - time > HORIZON_DAYS * DAY
        || (lastSuccess == 0 && attempts >= RETRIES)
        || (now - lastSuccess > MIN_FAIL_DAYS * DAY && attempts >= MAX_FAILURES)
    }
  }

  type InfoMap = map<Id, AddrInfo>
  type Table = map<Slot, Id>

  datatype Book = Book(info: InfoMap, addr: map<Net, Id>, random: seq<Id>, nTried: int, nNew: int,
                       triedTab: Table, newTab: Table, idCount: nat)

  const EMPTY_BOOK := Book(map[], map[], [], 0, 0, map[], map[], 0)

  // ----- the steps -----

  /** SwapRandom */
  function Swap(b: Book, i: nat, j: nat): Book
    requires i < |b.random| && j < |b.random| && b.random[i] in b.info && b.random[j] in b.info
  {
    if i == j then b
    else
      var x, y := b.random[i], b.random[j];
      var moved := b.info[x := b.info[x].(randomPos := j)];
      b.(info := moved[y := moved[y].(randomPos := i)], random := b.random[i := y][j := x])
  }

  /** What Delete asserts, and what its accesses need. */
  predicate CanDelete(b: Book, id: Id) {
    && id in b.info && !b.info[id].inTried && b.info[id].refs == 0 && |b.random| > 0
    && 0 <= b.info[id].randomPos < |b.random|
    && b.random[b.info[id].randomPos] in b.info && b.random[|b.random| - 1] in b.info
  }

  /** Delete */
  function DeleteId(b: Book, id: Id): Book
    requires CanDelete(b, id)
  {
    var b1 := Swap(b, b.info[id].randomPos, |b.random| - 1);
    b1.(random := b1.random[..|b1.random| - 1], addr := b1.addr - {b.info[id].service.net}, info := b1.info - {id},
        nNew := b1.nNew - 1)
  }

  /** The part of ClearNew before the entry may be deleted. */
  function Unlist(b: Book, s: Slot): Book
    requires s in b.newTab && b.newTab[s] in b.info
  {
    var id := b.newTab[s];
    b.(newTab := b.newTab - {s}, info := b.info[id := b.info[id].(refs := b.info[id].refs - 1)])
  }

  function SlotsOf(tab: Table, id: Id): set<Slot> { set s | s in tab && tab[s] == id }

  /** An entry taken off every new slot (the loop of MakeTried). */
  function UnlistAll(b: Book, id: Id): Book
    requires id in b.info
  {
    b.(newTab := b.newTab - SlotsOf(b.newTab, id),
       info := b.info[id := b.info[id].(refs := b.info[id].refs - |SlotsOf(b.newTab, id)|)],
       nNew := b.nNew - 1)
  }

  /** An entry put on a new slot. */
  function List(b: Book, id: Id, s: Slot): Book
    requires id in b.info
  {
    b.(newTab := b.newTab[s := id], info := b.info[id := b.info[id].(refs := b.info[id].refs + 1)])
  }

  /** A tried entry taken out of its slot. */
  function Evict(b: Book, s: Slot): Book
    requires s in b.triedTab && b.triedTab[s] in b.info
  {
    var id := b.triedTab[s];
    b.(triedTab := b.triedTab - {s}, info := b.info[id := b.info[id].(inTried := false)], nTried := b.nTried - 1)
  }

  function Promote(b: Book, id: Id, s: Slot): Book
    requires id in b.info
  {
    b.(triedTab := b.triedTab[s := id], info := b.info[id := b.info[id].(inTried := true)], nTried := b.nTried + 1)
  }

  /** Create */
  function CreateId(b: Book, service: Service, services: Services, time: nat, source: Net): Book {
    b.(info := b.info[b.idCount := AddrInfo(service, source, services, time, 0, 0, 0, 0, false, |b.random|)],
       addr := b.addr[service.net := b.idCount], random := b.random + [b.idCount], idCount := b.idCount + 1)
  }

  // ----- consistency -----

  /** vRandom and nRandomPos are inverse. */
  ghost predicate RandomOk(info: InfoMap, random: seq<Id>) {
    && (forall id | id in info :: 0 <= info[id].randomPos < |random| && random[info[id].randomPos] == id)
    && (forall k | 0 <= k < |random| :: random[k] in info && info[random[k]].randomPos == k)
  }

  /** mapAddr and mapInfo agree. */
  ghost predicate AddrOk(info: InfoMap, addr: map<Net, Id>) {
    && (forall id | id in info :: info[id].service.net in addr && addr[info[id].service.net] == id)
    && (forall net | net in addr :: addr[net] in info && info[addr[net]].service.net == net)
  }

  ghost function NewIds(info: InfoMap): set<Id> { set id | id in info && !info[id].inTried }

  ghost function TriedIds(info: InfoMap): set<Id> { set id | id in info && info[id].inTried }

  /** `out` are entries that are between the tables; `extra` is how many of them nNew counts. */
  ghost predicate CountsOk(info: InfoMap, nTried: int, nNew: int, out: set<Id>, extra: int) {
    nTried == |TriedIds(info)| && nNew == |NewIds(info) - out| + extra
  }

  /** A new entry has one to eight references, a tried one none. */
  ghost predicate StatOk(i: AddrInfo, isOut: bool) {
    if isOut then !i.inTried && i.refs == 0
    else if i.inTried then i.refs == 0
    else 1 <= i.refs <= MAX_REFS
  }

  ghost predicate StatsOk(info: InfoMap, out: set<Id>) {
    out <= info.Keys && forall id | id in info :: StatOk(info[id], id in out)
  }

  /** The tried slots are in bijection with the tried entries, each at its computed place. */
  ghost predicate TriedOk(info: InfoMap, tab: Table, place: Placement) {
    && (forall s | s in tab :: tab[s] in info && info[tab[s]].inTried && s == place.TriedSlot(info[tab[s]].service))
    && (forall id | id in info && info[id].inTried ::
          place.TriedSlot(info[id].service) in tab && tab[place.TriedSlot(info[id].service)] == id)
  }

  /** A new slot holds an entry at its computed position, and nRefCount counts the slots. */
  ghost predicate NewOk(info: InfoMap, tab: Table, place: Placement) {
    && (forall s | s in tab :: tab[s] in info && s.bucket < NEW_BUCKETS && s.pos == place.newPos(info[tab[s]].service, s.bucket))
    && (forall id | id in info :: info[id].refs == |SlotsOf(tab, id)|)
  }

  ghost predicate IdsOk(info: InfoMap, idCount: nat) { forall id | id in info :: id < idCount }

  ghost predicate Between(b: Book, place: Placement, out: set<Id>, extra: int) {
    && RandomOk(b.info, b.random) && AddrOk(b.info, b.addr)
    && CountsOk(b.info, b.nTried, b.nNew, out, extra) && StatsOk(b.info, out)
    && TriedOk(b.info, b.triedTab, place) && NewOk(b.info, b.newTab, place) && IdsOk(b.info, b.idCount)
  }

  /** The times Check_ looks at. */
  predicate TimeOk(i: AddrInfo) { i.lastTry >= 0 && i.lastSuccess >= 0 && (i.inTried ==> i.lastSuccess != 0) }

  ghost predicate TimesOk(info: InfoMap) { forall id | id in info :: TimeOk(info[id]) }

  /** Everything Check_ asks for: no entry is between the tables, and all times make sense. */
  ghost predicate Consistent(b: Book, place: Placement) { Between(b, place, {}, 0) && TimesOk(b.info) }

  // ----- vRandom -----

  /** Two entries that differ at most in their position in vRandom. */
  predicate SameEntry(i: AddrInfo, j: AddrInfo) { i.(randomPos := 0) == j.(randomPos := 0) }

  ghost predicate SameEntries(info: InfoMap, info': InfoMap) {
    info.Keys == info'.Keys && forall id | id in info :: SameEntry(info[id], info'[id])
  }

  lemma MoveBoth(info: InfoMap, random: seq<Id>, i: nat, j: nat, x: Id, y: Id)
    requires RandomOk(info, random) && i < |random| && j < |random| && i != j && x == random[i] && y == random[j]
    ensures x != y
    ensures RandomOk(info[x := info[x].(randomPos := j)][y := info[y].(randomPos := i)], random[i := y][j := x])
  {
    assert info[x].randomPos == i && info[y].randomPos == j;
  }

  lemma SwapMoves(b: Book, i: nat, j: nat)
    requires RandomOk(b.info, b.random) && i < |b.random| && j < |b.random|
    ensures b.random[i] in b.info && b.random[j] in b.info
    ensures var b' := Swap(b, i, j);
            && RandomOk(b'.info, b'.random) && SameEntries(b.info, b'.info)
            && b'.random == b.random[i := b.random[j]][j := b.random[i]]
            && b' == b.(info := b'.info, random := b'.random)
  {
    assert b.random[i] in b.info && b.random[j] in b.info;
    if i != j {
      MoveBoth(b.info, b.random, i, j, b.random[i], b.random[j]);
      hide RandomOk;
    }
  }

  /** Everything but vRandom is indifferent to positions. */
  lemma SameEntriesAgree(info: InfoMap, info': InfoMap, b: Book, place: Placement, out: set<Id>, extra: int)
    requires SameEntries(info, info')
    ensures AddrOk(info, b.addr) ==> AddrOk(info', b.addr)
    ensures CountsOk(info, b.nTried, b.nNew, out, extra) ==> CountsOk(info', b.nTried, b.nNew, out, extra)
    ensures StatsOk(info, out) ==> StatsOk(info', out)
    ensures TriedOk(info, b.triedTab, place) ==> TriedOk(info', b.triedTab, place)
    ensures NewOk(info, b.newTab, place) ==> NewOk(info', b.newTab, place)
    ensures IdsOk(info, b.idCount) ==> IdsOk(info', b.idCount)
  {
    assert TriedIds(info) == TriedIds(info');
    assert NewIds(info) == NewIds(info');
  }

  lemma SwapKeeps(b: Book, place: Placement, out: set<Id>, extra: int, i: nat, j: nat)
    requires Between(b, place, out, extra) && i < |b.random| && j < |b.random|
    ensures b.random[i] in b.info && b.random[j] in b.info && Between(Swap(b, i, j), place, out, extra)
  {
    hide AddrOk, CountsOk, StatsOk, TriedOk, NewOk, IdsOk, SameEntries, Swap;
    SwapMoves(b, i, j);
    SameEntriesAgree(b.info, Swap(b, i, j).info, b, place, out, extra);
  }

  // ----- Delete -----

  lemma DropLast(info: InfoMap, random: seq<Id>, id: Id)
    requires RandomOk(info, random) && id in info && info[id].randomPos == |random| - 1
    ensures RandomOk(info - {id}, random[..|random| - 1])
  {
  }

  lemma DropAddr(info: InfoMap, addr: map<Net, Id>, id: Id)
    requires AddrOk(info, addr) && id in info
    ensures AddrOk(info - {id}, addr - {info[id].service.net})
  {
  }

  lemma DropCount(info: InfoMap, nTried: int, nNew: int, out: set<Id>, extra: int, id: Id)
    requires CountsOk(info, nTried, nNew, out, extra) && StatsOk(info, out) && id in out
    ensures CountsOk(info - {id}, nTried, nNew - 1, out - {id}, extra - 1) && StatsOk(info - {id}, out - {id})
  {
    assert TriedIds(info - {id}) == TriedIds(info);
    assert NewIds(info - {id}) - (out - {id}) == NewIds(info) - out;
  }

  /** An entry without references is in no table. */
  lemma NoSlots(info: InfoMap, newTab: Table, place: Placement, id: Id)
    requires NewOk(info, newTab, place) && id in info && info[id].refs == 0
    ensures forall s | s in newTab :: newTab[s] != id
  {
    forall s | s in newTab
      ensures newTab[s] != id
    {
      assert s in SlotsOf(newTab, newTab[s]);
    }
  }

  lemma DropTables(info: InfoMap, triedTab: Table, newTab: Table, place: Placement, id: Id)
    requires TriedOk(info, triedTab, place) && NewOk(info, newTab, place)
    requires id in info && !info[id].inTried && info[id].refs == 0
    ensures TriedOk(info - {id}, triedTab, place) && NewOk(info - {id}, newTab, place)
  {
    hide SlotsOf;
    NoSlots(info, newTab, place, id);
  }

  lemma DropId(info: InfoMap, b: Book, place: Placement, out: set<Id>, extra: int, id: Id)
    requires AddrOk(info, b.addr) && CountsOk(info, b.nTried, b.nNew, out, extra) && StatsOk(info, out)
    requires TriedOk(info, b.triedTab, place) && NewOk(info, b.newTab, place) && IdsOk(info, b.idCount)
    requires id in out
    ensures var info' := info - {id};
            && id in info
            && AddrOk(info', b.addr - {info[id].service.net}) && CountsOk(info', b.nTried, b.nNew - 1, out - {id}, extra - 1)
            && StatsOk(info', out - {id}) && TriedOk(info', b.triedTab, place) && NewOk(info', b.newTab, place)
            && IdsOk(info', b.idCount)
  {
    hide AddrOk, CountsOk, TriedOk, NewOk;
    assert StatOk(info[id], true);
    DropAddr(info, b.addr, id);
    DropCount(info, b.nTried, b.nNew, out, extra, id);
    DropTables(info, b.triedTab, b.newTab, place, id);
  }

  lemma CanDeleteListed(b: Book, id: Id)
    requires RandomOk(b.info, b.random) && id in b.info && !b.info[id].inTried && b.info[id].refs == 0
    ensures CanDelete(b, id)
  {
    assert b.random[|b.random| - 1] in b.info;
  }

  lemma DeleteKeeps(b: Book, place: Placement, out: set<Id>, extra: int, id: Id)
    requires Between(b, place, out, extra) && id in out
    ensures CanDelete(b, id) && Between(DeleteId(b, id), place, out - {id}, extra - 1)
    ensures DeleteId(b, id).newTab == b.newTab && DeleteId(b, id).triedTab == b.triedTab
    ensures SameEntries(b.info - {id}, DeleteId(b, id).info)
  {
    hide RandomOk, AddrOk, CountsOk, TriedOk, NewOk, IdsOk, SameEntries, Swap;
    assert StatOk(b.info[id], true);
    CanDeleteListed(b, id);
    var i, j := b.info[id].randomPos, |b.random| - 1;
    var b1 := Swap(b, i, j);
    SwapMoves(b, i, j);
    SameEntriesAgree(b.info, b1.info, b, place, out, extra);
    SameEntryAt(b.info, b1.info, id);
    MovedLast(b1, b, id);
    DropLast(b1.info, b1.random, id);
    DropId(b1.info, b1, place, out, extra, id);
    SameEntriesWithout(b.info, b1.info, id);
  }

  lemma MovedLast(b1: Book, b: Book, id: Id)
    requires CanDelete(b, id) && b1 == Swap(b, b.info[id].randomPos, |b.random| - 1)
    requires RandomOk(b.info, b.random)
    ensures b1.info[id].randomPos == |b1.random| - 1
  {
    assert b.random[|b.random| - 1] in b.info;
  }

  lemma SameEntryAt(info: InfoMap, info': InfoMap, id: Id)
    requires SameEntries(info, info') && id in info
    ensures id in info' && SameEntry(info[id], info'[id])
  {
  }

  lemma SameEntriesWithout(info: InfoMap, info': InfoMap, id: Id)
    requires SameEntries(info, info')
    ensures SameEntries(info - {id}, info' - {id})
  {
  }

  // ----- changing one entry -----

  /** Same place in vRandom and the same service. */
  predicate SamePlace(i: AddrInfo, j: AddrInfo) { i.randomPos == j.randomPos && i.service == j.service }

  lemma ChangeKeepsLinks(b: Book, id: Id, x: AddrInfo)
    requires id in b.info && SamePlace(b.info[id], x)
    ensures RandomOk(b.info, b.random) ==> RandomOk(b.info[id := x], b.random)
    ensures AddrOk(b.info, b.addr) ==> AddrOk(b.info[id := x], b.addr)
    ensures IdsOk(b.info, b.idCount) ==> IdsOk(b.info[id := x], b.idCount)
  {
  }

  // ----- the new table -----

  lemma SlotsMinus(tab: Table, s: Slot, id: Id)
    requires s in tab
    ensures |SlotsOf(tab - {s}, id)| == |SlotsOf(tab, id)| - if tab[s] == id then 1 else 0
  {
    if tab[s] == id {
      assert SlotsOf(tab - {s}, id) == SlotsOf(tab, id) - {s};
    } else {
      assert SlotsOf(tab - {s}, id) == SlotsOf(tab, id);
    }
  }

  lemma SlotsPlus(tab: Table, s: Slot, newId: Id, id: Id)
    requires s !in tab
    ensures |SlotsOf(tab[s := newId], id)| == |SlotsOf(tab, id)| + if newId == id then 1 else 0
  {
    if newId == id {
      assert SlotsOf(tab[s := newId], id) == SlotsOf(tab, id) + {s};
    } else {
      assert SlotsOf(tab[s := newId], id) == SlotsOf(tab, id);
    }
  }

  /** Only the entry that was in the slot loses a reference. */
  lemma UnlistTable(info: InfoMap, tab: Table, place: Placement, s: Slot, x: AddrInfo)
    requires NewOk(info, tab, place) && s in tab
    requires SamePlace(info[tab[s]], x) && x.refs == info[tab[s]].refs - 1
    ensures NewOk(info[tab[s] := x], tab - {s}, place)
  {
    hide SlotsOf;
    var info' := info[tab[s] := x];
    forall id | id in info'
      ensures info'[id].refs == |SlotsOf(tab - {s}, id)|
    {
      SlotsMinus(tab, s, id);
    }
  }

  lemma ListTable(info: InfoMap, tab: Table, place: Placement, s: Slot, id: Id, x: AddrInfo)
    requires NewOk(info, tab, place) && s !in tab && id in info
    requires SamePlace(info[id], x) && x.refs == info[id].refs + 1
    requires s.bucket < NEW_BUCKETS && s.pos == place.newPos(x.service, s.bucket)
    ensures NewOk(info[id := x], tab[s := id], place)
  {
    hide SlotsOf;
    var info' := info[id := x];
    forall i | i in info'
      ensures info'[i].refs == |SlotsOf(tab[s := id], i)|
    {
      SlotsPlus(tab, s, id, i);
    }
  }

  lemma TriedUnchanged(info: InfoMap, tab: Table, place: Placement, id: Id, x: AddrInfo)
    requires TriedOk(info, tab, place) && id in info && SamePlace(info[id], x) && x.inTried == info[id].inTried
    ensures TriedOk(info[id := x], tab, place)
  {
  }

  lemma OutOneMore(info: InfoMap, nTried: int, nNew: int, out: set<Id>, extra: int, id: Id, x: AddrInfo)
    requires CountsOk(info, nTried, nNew, out, extra) && StatsOk(info, out) && id in info && id !in out
    requires !info[id].inTried && !x.inTried && StatOk(x, true)
    ensures CountsOk(info[id := x], nTried, nNew, out + {id}, extra + 1) && StatsOk(info[id := x], out + {id})
  {
    var info' := info[id := x];
    assert TriedIds(info') == TriedIds(info);
    assert NewIds(info') - (out + {id}) == (NewIds(info) - out) - {id};
  }

  lemma OutOneLess(info: InfoMap, nTried: int, nNew: int, out: set<Id>, extra: int, id: Id, x: AddrInfo)
    requires CountsOk(info, nTried, nNew, out, extra) && StatsOk(info, out) && id in out
    requires !x.inTried && StatOk(x, false)
    ensures CountsOk(info[id := x], nTried, nNew, out - {id}, extra - 1) && StatsOk(info[id := x], out - {id})
  {
    var info' := info[id := x];
    assert TriedIds(info') == TriedIds(info);
    assert NewIds(info') - (out - {id}) == (NewIds(info) - out) + {id};
  }

  lemma OutUnchanged(info: InfoMap, nTried: int, nNew: int, out: set<Id>, extra: int, id: Id, x: AddrInfo)
    requires CountsOk(info, nTried, nNew, out, extra) && StatsOk(info, out) && id in info
    requires x.inTried == info[id].inTried && StatOk(x, id in out)
    ensures CountsOk(info[id := x], nTried, nNew, out, extra) && StatsOk(info[id := x], out)
  {
    var info' := info[id := x];
    assert TriedIds(info') == TriedIds(info);
    assert NewIds(info') == NewIds(info);
  }

  lemma NewUnchanged(info: InfoMap, tab: Table, place: Placement, id: Id, x: AddrInfo)
    requires NewOk(info, tab, place) && id in info && SamePlace(info[id], x) && x.refs == info[id].refs
    ensures NewOk(info[id := x], tab, place)
  {
    hide SlotsOf;
  }

  /** Statistics may change freely, as long as they stay in range. */
  lemma NoteKeeps(b: Book, place: Placement, out: set<Id>, extra: int, id: Id, x: AddrInfo)
    requires Between(b, place, out, extra) && id in b.info && SamePlace(b.info[id], x)
    requires x.inTried == b.info[id].inTried && x.refs == b.info[id].refs && StatOk(x, id in out)
    ensures Between(b.(info := b.info[id := x]), place, out, extra)
  {
    hide RandomOk, AddrOk, CountsOk, StatsOk, TriedOk, NewOk, IdsOk;
    ChangeKeepsLinks(b, id, x);
    TriedUnchanged(b.info, b.triedTab, place, id, x);
    NewUnchanged(b.info, b.newTab, place, id, x);
    OutUnchanged(b.info, b.nTried, b.nNew, out, extra, id, x);
  }

  /** An entry in a new slot is new and has a reference. */
  lemma ListedIsNew(b: Book, place: Placement, out: set<Id>, extra: int, s: Slot)
    requires Between(b, place, out, extra) && s in b.newTab
    ensures b.newTab[s] in b.info && b.newTab[s] !in out
    ensures !b.info[b.newTab[s]].inTried && b.info[b.newTab[s]].refs >= 1
  {
    var id := b.newTab[s];
    assert s in SlotsOf(b.newTab, id);
    assert StatOk(b.info[id], id in out);
  }

  lemma UnlistKeeps(b: Book, place: Placement, out: set<Id>, extra: int, s: Slot)
    requires Between(b, place, out, extra) && s in b.newTab
    ensures b.newTab[s] in b.info && b.newTab[s] !in out && b.info[b.newTab[s]].refs >= 1
    ensures if b.info[b.newTab[s]].refs == 1 then Between(Unlist(b, s), place, out + {b.newTab[s]}, extra + 1)
            else Between(Unlist(b, s), place, out, extra)
  {
    hide RandomOk, AddrOk, CountsOk, TriedOk, NewOk, IdsOk, SlotsOf;
    ListedIsNew(b, place, out, extra, s);
    var id := b.newTab[s];
    var x := b.info[id].(refs := b.info[id].refs - 1);
    assert StatOk(b.info[id], false);
    ChangeKeepsLinks(b, id, x);
    UnlistTable(b.info, b.newTab, place, s, x);
    TriedUnchanged(b.info, b.triedTab, place, id, x);
    if b.info[id].refs == 1 {
      OutOneMore(b.info, b.nTried, b.nNew, out, extra, id, x);
    } else {
      OutUnchanged(b.info, b.nTried, b.nNew, out, extra, id, x);
    }
  }

  lemma ListKeeps(b: Book, place: Placement, out: set<Id>, extra: int, id: Id, s: Slot)
    requires Between(b, place, out, extra) && id in b.info && s !in b.newTab && !b.info[id].inTried
    requires s.bucket < NEW_BUCKETS && s.pos == place.newPos(b.info[id].service, s.bucket) && b.info[id].refs < MAX_REFS
    ensures Between(List(b, id, s), place, out - {id}, if id in out then extra - 1 else extra)
  {
    hide RandomOk, AddrOk, CountsOk, TriedOk, NewOk, IdsOk, SlotsOf;
    var x := b.info[id].(refs := b.info[id].refs + 1);
    assert StatOk(b.info[id], id in out);
    ChangeKeepsLinks(b, id, x);
    ListTable(b.info, b.newTab, place, s, id, x);
    TriedUnchanged(b.info, b.triedTab, place, id, x);
    if id in out {
      OutOneLess(b.info, b.nTried, b.nNew, out, extra, id, x);
    } else {
      assert out - {id} == out;
      OutUnchanged(b.info, b.nTried, b.nNew, out, extra, id, x);
    }
  }

  // ----- ClearNew -----

  predicate CanClear(b: Book, s: Slot) {
    s in b.newTab ==> b.newTab[s] in b.info && (b.info[b.newTab[s]].refs == 1 ==> CanDelete(Unlist(b, s), b.newTab[s]))
  }

  /** ClearNew: empty a new slot, and forget the entry that was there if it was in no other. */
  function ClearSlot(b: Book, s: Slot): Book
    requires CanClear(b, s)
  {
    if s !in b.newTab then b
    else if b.info[b.newTab[s]].refs == 1 then DeleteId(Unlist(b, s), b.newTab[s])
    else Unlist(b, s)
  }

  lemma ClearKeeps(b: Book, place: Placement, out: set<Id>, extra: int, s: Slot)
    requires Between(b, place, out, extra)
    ensures s in b.newTab ==> b.newTab[s] in b.info && b.newTab[s] !in out && b.info[b.newTab[s]].refs >= 1
    ensures CanClear(b, s)
    ensures Between(ClearSlot(b, s), place, out, extra)
    ensures ClearSlot(b, s).newTab == b.newTab - {s} && ClearSlot(b, s).triedTab == b.triedTab
    ensures ClearSlot(b, s).info.Keys <= b.info.Keys
    ensures forall id | id in b.info && (s !in b.newTab || b.newTab[s] != id) ::
              id in ClearSlot(b, s).info && SameEntry(b.info[id], ClearSlot(b, s).info[id])
  {
    hide Between, DeleteId, CanDelete;
    if s in b.newTab {
      UnlistKeeps(b, place, out, extra, s);
      var id, b1 := b.newTab[s], Unlist(b, s);
      if b.info[id].refs == 1 {
        DeleteKeeps(b1, place, out + {id}, extra + 1, id);
        assert out + {id} - {id} == out;
      }
    } else {
      assert b.newTab - {s} == b.newTab;
    }
  }

  // ----- taking an entry off all new slots -----

  lemma UnlistAllTable(info: InfoMap, tab: Table, place: Placement, id: Id, x: AddrInfo)
    requires NewOk(info, tab, place) && id in info && SamePlace(info[id], x) && x.refs == 0
    ensures NewOk(info[id := x], tab - SlotsOf(tab, id), place)
  {
    var tab' := tab - SlotsOf(tab, id);
    forall i | i in info[id := x]
      ensures info[id := x][i].refs == |SlotsOf(tab', i)|
    {
      if i == id {
        assert SlotsOf(tab', id) == {};
      } else {
        assert SlotsOf(tab', i) == SlotsOf(tab, i);
      }
    }
  }

  /** Taking off all slots leaves no reference: the assertion of src/addrman.cpp:155. */
  lemma UnlistAllKeeps(b: Book, place: Placement, out: set<Id>, extra: int, id: Id)
    requires Between(b, place, out, extra) && id in b.info && id !in out && !b.info[id].inTried
    ensures UnlistAll(b, id).info[id].refs == 0
    ensures Between(UnlistAll(b, id), place, out + {id}, extra)
  {
    hide RandomOk, AddrOk, CountsOk, TriedOk, IdsOk, SlotsOf;
    var x := b.info[id].(refs := b.info[id].refs - |SlotsOf(b.newTab, id)|);
    assert StatOk(b.info[id], false);
    assert x.refs == 0;
    hide NewOk;
    ChangeKeepsLinks(b, id, x);
    UnlistAllTable(b.info, b.newTab, place, id, x);
    TriedUnchanged(b.info, b.triedTab, place, id, x);
    OutOneMore(b.info, b.nTried, b.nNew, out, extra, id, x);
    FewerNew(UnlistAll(b, id), b.nNew, out + {id}, extra);
  }

  lemma FewerNew(b: Book, nNew: int, out: set<Id>, extra: int)
    requires CountsOk(b.info, b.nTried, nNew, out, extra + 1) && b.nNew == nNew - 1
    ensures CountsOk(b.info, b.nTried, b.nNew, out, extra)
  {
  }

  lemma MoreNew(b: Book, place: Placement, out: set<Id>, extra: int)
    requires Between(b, place, out, extra)
    ensures Between(b.(nNew := b.nNew + 1), place, out, extra + 1)
  {
    hide RandomOk, AddrOk, TriedOk, NewOk, IdsOk;
  }

  // ----- the tried table -----

  lemma EvictTable(info: InfoMap, tab: Table, place: Placement, s: Slot, x: AddrInfo)
    requires TriedOk(info, tab, place) && s in tab && SamePlace(info[tab[s]], x) && !x.inTried
    ensures TriedOk(info[tab[s] := x], tab - {s}, place)
  {
  }

  lemma PromoteTable(info: InfoMap, tab: Table, place: Placement, id: Id, x: AddrInfo)
    requires TriedOk(info, tab, place) && id in info && !info[id].inTried && SamePlace(info[id], x) && x.inTried
    requires place.TriedSlot(x.service) !in tab
    ensures TriedOk(info[id := x], tab[place.TriedSlot(x.service) := id], place)
  {
  }

  lemma OutFromTried(info: InfoMap, nTried: int, nNew: int, out: set<Id>, extra: int, id: Id, x: AddrInfo)
    requires CountsOk(info, nTried, nNew, out, extra) && StatsOk(info, out) && id in info && info[id].inTried
    requires !x.inTried && StatOk(x, true)
    ensures CountsOk(info[id := x], nTried - 1, nNew, out + {id}, extra) && StatsOk(info[id := x], out + {id})
  {
    var info' := info[id := x];
    assert StatOk(info[id], id in out);
    assert TriedIds(info') == TriedIds(info) - {id};
    assert NewIds(info') - (out + {id}) == NewIds(info) - out;
  }

  lemma OutToTried(info: InfoMap, nTried: int, nNew: int, out: set<Id>, extra: int, id: Id, x: AddrInfo)
    requires CountsOk(info, nTried, nNew, out, extra) && StatsOk(info, out) && id in out
    requires x.inTried && StatOk(x, false)
    ensures CountsOk(info[id := x], nTried + 1, nNew, out - {id}, extra) && StatsOk(info[id := x], out - {id})
  {
    var info' := info[id := x];
    assert StatOk(info[id], true);
    assert TriedIds(info') == TriedIds(info) + {id};
    assert NewIds(info') - (out - {id}) == NewIds(info) - out;
  }

  lemma TriedIsListed(info: InfoMap, tab: Table, place: Placement, s: Slot)
    requires TriedOk(info, tab, place) && s in tab
    ensures tab[s] in info && info[tab[s]].inTried && s == place.TriedSlot(info[tab[s]].service)
  {
  }

  lemma EvictKeeps(b: Book, place: Placement, out: set<Id>, extra: int, s: Slot)
    requires Between(b, place, out, extra) && s in b.triedTab
    ensures b.triedTab[s] in b.info && b.triedTab[s] !in out
    ensures Between(Evict(b, s), place, out + {b.triedTab[s]}, extra)
  {
    hide RandomOk, AddrOk, CountsOk, TriedOk, NewOk, IdsOk;
    TriedIsListed(b.info, b.triedTab, place, s);
    var id := b.triedTab[s];
    var x := b.info[id].(inTried := false);
    assert StatOk(b.info[id], id in out);
    ChangeKeepsLinks(b, id, x);
    EvictTable(b.info, b.triedTab, place, s, x);
    NewUnchanged(b.info, b.newTab, place, id, x);
    OutFromTried(b.info, b.nTried, b.nNew, out, extra, id, x);
  }

  lemma PromoteKeeps(b: Book, place: Placement, out: set<Id>, extra: int, id: Id)
    requires Between(b, place, out, extra) && id in out && id in b.info
    requires place.TriedSlot(b.info[id].service) !in b.triedTab
    ensures Between(Promote(b, id, place.TriedSlot(b.info[id].service)), place, out - {id}, extra)
  {
    hide RandomOk, AddrOk, CountsOk, TriedOk, NewOk, IdsOk;
    var x := b.info[id].(inTried := true);
    assert StatOk(b.info[id], true);
    ChangeKeepsLinks(b, id, x);
    PromoteTable(b.info, b.triedTab, place, id, x);
    NewUnchanged(b.info, b.newTab, place, id, x);
    OutToTried(b.info, b.nTried, b.nNew, out, extra, id, x);
  }

  // ----- Create -----

  lemma CreateLinks(b: Book, x: AddrInfo)
    requires RandomOk(b.info, b.random) && AddrOk(b.info, b.addr) && IdsOk(b.info, b.idCount)
    requires x.service.net !in b.addr && x.randomPos == |b.random|
    ensures b.idCount !in b.info
    ensures var info' := b.info[b.idCount := x];
            && RandomOk(info', b.random + [b.idCount]) && AddrOk(info', b.addr[x.service.net := b.idCount])
            && IdsOk(info', b.idCount + 1)
  {
  }

  lemma CreateKeeps(b: Book, place: Placement, service: Service, services: Services, time: nat, source: Net)
    requires Between(b, place, {}, 0) && service.net !in b.addr
    ensures b.idCount !in b.info
    ensures Between(CreateId(b, service, services, time, source), place, {b.idCount}, 0)
  {
    hide RandomOk, AddrOk, CountsOk, TriedOk, NewOk, IdsOk;
    var x := CreateId(b, service, services, time, source).info[b.idCount];
    CreateLinks(b, x);
    CreateCounts(b, x);
    CreateTables(b, place, x);
  }

  lemma CreateCounts(b: Book, x: AddrInfo)
    requires CountsOk(b.info, b.nTried, b.nNew, {}, 0) && b.idCount !in b.info && !x.inTried
    ensures CountsOk(b.info[b.idCount := x], b.nTried, b.nNew, {b.idCount}, 0)
  {
    var info' := b.info[b.idCount := x];
    assert TriedIds(info') == TriedIds(b.info);
    assert NewIds(info') - {b.idCount} == NewIds(b.info) - {};
  }

  lemma CreateTables(b: Book, place: Placement, x: AddrInfo)
    requires TriedOk(b.info, b.triedTab, place) && NewOk(b.info, b.newTab, place)
    requires b.idCount !in b.info && !x.inTried && x.refs == 0
    ensures TriedOk(b.info[b.idCount := x], b.triedTab, place) && NewOk(b.info[b.idCount := x], b.newTab, place)
  {
    assert SlotsOf(b.newTab, b.idCount) == {};
  }
}
