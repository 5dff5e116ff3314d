/** The operations of the address manager on its state (src/addrman.cpp:124-371, 450-490), and
    what each keeps. Random draws and the clock are parameters. */
module AddrSteps {
  import opened AddrBook

  /** The entries of `info'` other than `id` are entries of `info`, with the same service and times. */
  ghost predicate TimesFrom(info': InfoMap, info: InfoMap, id: Id) {
    forall i | i in info' && i != id ::
      && i in info && info'[i].service == info[i].service && info'[i].lastTry == info[i].lastTry && info'[i].lastSuccess == info[i].lastSuccess
      && (info'[i].inTried ==> info[i].inTried)
  }

  /** `id` is still there, and only its references and positions differ. */
  ghost predicate StillThere(info': InfoMap, info: InfoMap, id: Id) {
    && id in info && id in info'
    && info'[id].(randomPos := 0, refs := 0, inTried := false) == info[id].(randomPos := 0, refs := 0, inTried := false)
  }

  lemma TimesStayOk(info': InfoMap, info: InfoMap, id: Id)
    requires TimesOk(info) && TimesFrom(info', info, id)
    ensures TimesOk(info') <==> (id in info' ==> TimeOk(info'[id]))
  {
    forall i | i in info' && i != id
      ensures TimeOk(info'[i])
    {
      assert TimeOk(info[i]);
    }
  }

  lemma TimesFromTwice(c: InfoMap, b: InfoMap, a: InfoMap, id: Id)
    requires TimesFrom(c, b, id) && TimesFrom(b, a, id)
    ensures TimesFrom(c, a, id)
  {
  }

  lemma StillThereTwice(c: InfoMap, b: InfoMap, a: InfoMap, id: Id)
    requires StillThere(c, b, id) && StillThere(b, a, id)
    ensures StillThere(c, a, id)
  {
  }

  // ----- MakeTried -----

  /** The entry that loses its tried slot `k` goes back to its new slot. */
  ghost function MakeRoom(b: Book, place: Placement, k: Slot, out: set<Id>, extra: int): (b': Book)
    requires Between(b, place, out, extra) && place.InRange() && k in b.triedTab
  {
    EvictKeeps(b, place, out, extra, k);
    var evicted := b.triedTab[k];
    var b1 := Evict(b, k);
    var u := place.NewSlot(b.info[evicted].service, b.info[evicted].source);
    ClearKeeps(b1, place, out + {evicted}, extra, u);
    OldStays(b1, place, out + {evicted}, extra, u, evicted);
    var b2 := List(ClearSlot(b1, u), evicted, u);
    b2.(nNew := b2.nNew + 1)
  }

  lemma OldStays(b: Book, place: Placement, out: set<Id>, extra: int, u: Slot, id: Id)
    requires Between(b, place, out, extra) && id in out
    ensures CanClear(b, u)
    ensures id in ClearSlot(b, u).info && SameEntry(b.info[id], ClearSlot(b, u).info[id])
  {
    hide Between;
    ClearKeeps(b, place, out, extra, u);
    OutIsListed(b, place, out, extra, id);
  }

  lemma OutIsListed(b: Book, place: Placement, out: set<Id>, extra: int, id: Id)
    requires Between(b, place, out, extra) && id in out
    ensures id in b.info && !b.info[id].inTried && b.info[id].refs == 0
    ensures forall s | s in b.newTab :: b.newTab[s] != id
  {
    assert StatOk(b.info[id], true);
    NoSlots(b.info, b.newTab, place, id);
  }

  /** Emptying a slot does not touch an entry that is in no slot. */
  lemma ClearFrom(b: Book, place: Placement, out: set<Id>, extra: int, u: Slot, id: Id)
    requires Between(b, place, out, extra) && id in out
    ensures CanClear(b, u)
    ensures Between(ClearSlot(b, u), place, out, extra) && u !in ClearSlot(b, u).newTab && ClearSlot(b, u).triedTab == b.triedTab
    ensures TimesFrom(ClearSlot(b, u).info, b.info, id) && StillThere(ClearSlot(b, u).info, b.info, id)
  {
    hide Between;
    ClearKeeps(b, place, out, extra, u);
    OldStays(b, place, out, extra, u, id);
    forall i | i in ClearSlot(b, u).info && i != id
      ensures i in b.info && ClearSlot(b, u).info[i].(refs := 0, randomPos := 0) == b.info[i].(refs := 0, randomPos := 0)
    {
      if u in b.newTab && b.newTab[u] == i {
        UnlistKeeps(b, place, out, extra, u);
        if b.info[i].refs == 1 {
          assert false;
        }
      }
    }
  }

  lemma MakeRoomKeeps(b: Book, place: Placement, k: Slot, out: set<Id>, extra: int, id: Id)
    requires Between(b, place, out, extra) && place.InRange() && k in b.triedTab && id in out
    ensures var b' := MakeRoom(b, place, k, out, extra);
            && Between(b', place, out, extra)
            && b'.triedTab == b.triedTab - {k}
            && TimesFrom(b'.info, b.info, id) && StillThere(b'.info, b.info, id)
  {
    hide Between, Placement.InRange, ClearSlot, Placement.NewSlot;
    EvictKeeps(b, place, out, extra, k);
    OutIsListed(b, place, out, extra, id);
    var evicted := b.triedTab[k];
    var b1 := Evict(b, k);
    var u := place.NewSlot(b.info[evicted].service, b.info[evicted].source);
    var out1 := out + {evicted};
    OldStays(b1, place, out1, extra, u, evicted);
    ClearFrom(b1, place, out1, extra, u, id);
    var b2 := ClearSlot(b1, u);
    OutIsListed(b2, place, out1, extra, evicted);
    SlotInRange(place, b.info[evicted].service, b.info[evicted].source);
    ListKeeps(b2, place, out1, extra, evicted, u);
    assert out1 - {evicted} == out;
    MoreNew(List(b2, evicted, u), place, out, extra - 1);
    assert TimesFrom(b1.info, b.info, id) && StillThere(b1.info, b.info, id);
    TimesFromTwice(b2.info, b1.info, b.info, id);
    StillThereTwice(b2.info, b1.info, b.info, id);
  }

  lemma SlotInRange(place: Placement, service: Service, source: Net)
    requires place.InRange()
    ensures var u := place.NewSlot(service, source);
            u.bucket < NEW_BUCKETS && u.pos < BUCKET_SIZE && u.pos == place.newPos(service, u.bucket)
  {
  }

  /** MakeTried's slot, freed if it is taken. */
  ghost function RoomMade(b: Book, place: Placement, id: Id, k: Slot): (b': Book)
    requires Between(b, place, {id}, 0) && place.InRange() && id in b.info
    ensures id in b'.info
  {
    if k in b.triedTab then
      MakeRoomKeeps(b, place, k, {id}, 0, id);
      MakeRoom(b, place, k, {id}, 0)
    else b
  }

  lemma OnlyOneOut(b: Book, place: Placement, id: Id)
    requires Between(b, place, {}, 0) && id in b.info && !b.info[id].inTried
    ensures id in UnlistAll(b, id).info && Between(UnlistAll(b, id), place, {id}, 0)
  {
    hide Between;
    UnlistAllKeeps(b, place, {}, 0, id);
    assert {} + {id} == {id};
  }

  ghost function MakeTried(b: Book, place: Placement, id: Id): Book
    requires Between(b, place, {}, 0) && place.InRange() && id in b.info && !b.info[id].inTried
  {
    OnlyOneOut(b, place, id);
    var k := place.TriedSlot(b.info[id].service);
    Promote(RoomMade(UnlistAll(b, id), place, id, k), id, k)
  }

  /** MakeTried: all four of its assertions hold, and nothing is left between the tables. */
  lemma MakeTriedKeeps(b: Book, place: Placement, id: Id)
    requires Between(b, place, {}, 0) && place.InRange() && id in b.info && !b.info[id].inTried
    ensures var b' := MakeTried(b, place, id);
            && Between(b', place, {}, 0)
            && TimesFrom(b'.info, b.info, id) && StillThere(b'.info, b.info, id) && b'.info[id].inTried
  {
    hide Between, Placement.InRange, MakeRoom;
    OnlyOneOut(b, place, id);
    UnlistAllKeeps(b, place, {}, 0, id);
    var b1 := UnlistAll(b, id);
    var k := place.TriedSlot(b.info[id].service);
    if k in b1.triedTab {
      MakeRoomKeeps(b1, place, k, {id}, 0, id);
    }
    var b2 := if k in b1.triedTab then MakeRoom(b1, place, k, {id}, 0) else b1;
    PromoteKeeps(b2, place, {id}, 0, id);
    assert {id} - {id} == {};
  }

  // ----- Good_, Attempt_, Connected_ -----

  /** Find, and the test for the very same service, port included. */
  predicate Known(b: Book, service: Service) {
    service.net in b.addr && b.addr[service.net] in b.info && b.info[b.addr[service.net]].service == service
  }

  function NoteGood(b: Book, id: Id, time: int): Book
    requires id in b.info
  {
    b.(info := b.info[id := b.info[id].(lastSuccess := time, lastTry := time, attempts := 0)])
  }

  lemma NoteGoodKeeps(b: Book, place: Placement, id: Id, time: int)
    requires Between(b, place, {}, 0) && id in b.info
    ensures Between(NoteGood(b, id, time), place, {}, 0)
  {
    assert StatOk(b.info[id], false);
    NoteKeeps(b, place, {}, 0, id, NoteGood(b, id, time).info[id]);
  }

  ghost function Good(b: Book, place: Placement, service: Service, time: int): Book
    requires Between(b, place, {}, 0) && place.InRange()
  {
    if !Known(b, service) then b
    else
      var id := b.addr[service.net];
      NoteGoodKeeps(b, place, id, time);
      if b.info[id].inTried then NoteGood(b, id, time) else MakeTried(NoteGood(b, id, time), place, id)
  }

  /** Good_ keeps the tables whatever the time, and Check_ satisfied exactly when the time is
      positive (or the address unknown). A known address ends up tried. */
  lemma GoodKeepsIff(b: Book, place: Placement, service: Service, time: int)
    requires Consistent(b, place) && place.InRange()
    ensures var b' := Good(b, place, service, time);
            && Between(b', place, {}, 0)
            && (Consistent(b', place) <==> !Known(b, service) || time > 0)
            && (Known(b, service) ==> var id := b.addr[service.net]; id in b'.info && b'.info[id].inTried)
  {
    hide Between, Placement.InRange, MakeTried, TimesOk, TimeOk;
    if Known(b, service) {
      var id := b.addr[service.net];
      var b1 := NoteGood(b, id, time);
      NoteGoodKeeps(b, place, id, time);
      if !b.info[id].inTried {
        MakeTriedKeeps(b1, place, id);
      }
      var b' := Good(b, place, service, time);
      assert TimesFrom(b1.info, b.info, id);
      TimesFromTwice(b'.info, b1.info, b.info, id);
      TimesStayOk(b'.info, b.info, id);
      assert b'.info[id].lastTry == time && b'.info[id].lastSuccess == time;
      TriedTime(b'.info[id], time);
    }
  }

  lemma TriedTime(i: AddrInfo, time: int)
    requires i.inTried && i.lastTry == time && i.lastSuccess == time
    ensures TimeOk(i) <==> time > 0
  {
  }

  function Attempt(b: Book, service: Service, time: int): Book {
    if !Known(b, service) then b
    else
      var id := b.addr[service.net];
      b.(info := b.info[id := b.info[id].(lastTry := time, attempts := b.info[id].attempts + 1)])
  }

  lemma AttemptKeepsIff(b: Book, place: Placement, service: Service, time: int)
    requires Consistent(b, place)
    ensures Between(Attempt(b, service, time), place, {}, 0)
    ensures Consistent(Attempt(b, service, time), place) <==> !Known(b, service) || time >= 0
  {
    hide RandomOk, AddrOk, CountsOk, TriedOk, NewOk, IdsOk;
    if Known(b, service) {
      var id := b.addr[service.net];
      var b' := Attempt(b, service, time);
      assert StatOk(b.info[id], false);
      NoteKeeps(b, place, {}, 0, id, b'.info[id]);
      assert TimesFrom(b'.info, b.info, id);
      TimesStayOk(b'.info, b.info, id);
      assert TimeOk(b.info[id]);
    }
  }

  /** The time is cut to 32 bits when it is stored. */
  function Connected(b: Book, service: Service, time: int): Book {
    if !Known(b, service) then b
    else
      var id := b.addr[service.net];
      if time - b.info[id].time > 20 * 60
      then b.(info := b.info[id := b.info[id].(time := time % TWO_TO_THE_32)])
      else b
  }

  lemma ConnectedKeeps(b: Book, place: Placement, service: Service, time: int)
    requires Consistent(b, place)
    ensures Consistent(Connected(b, service, time), place)
  {
    hide RandomOk, AddrOk, CountsOk, TriedOk, NewOk, IdsOk;
    var b' := Connected(b, service, time);
    if b' != b {
      var id := b.addr[service.net];
      assert StatOk(b.info[id], false);
      NoteKeeps(b, place, {}, 0, id, b'.info[id]);
      assert TimeOk(b.info[id]);
    }
  }

  // ----- Add_ -----

  /** An address as it arrives: where from, when seen, by whom told. */
  datatype Heard = Heard(service: Service, services: Services, time: nat, source: Net, routable: bool)

  function AtLeastZero(t: int): nat { if t < 0 then 0 else t % TWO_TO_THE_32 }

  /** Refreshing a known entry. */
  function Refreshed(i: AddrInfo, a: Heard, penalty: int, now: int): AddrInfo {
    var interval := if now - a.time < 86400 then 3600 else 86400;
    i.(time := if a.time != 0 && (i.time == 0 || i.time < a.time - interval - penalty) then AtLeastZero(a.time - penalty)
               else i.time,
       services := i.services + a.services)
  }

  /** After the refresh, nothing more is done with a known entry. `lucky` is the draw that gets
      harder with every reference. */
  predicate LeaveIt(i: AddrInfo, a: Heard, lucky: bool) {
    a.time == 0 || (i.time != 0 && a.time <= i.time) || i.inTried || i.refs == MAX_REFS || !lucky
  }

  /** Whether the slot can be had: it is free, or what is there is not worth keeping. */
  predicate SlotToHave(b: Book, u: Slot, refs: int, now: int) {
    u !in b.newTab ||
    (b.newTab[u] in b.info &&
     (b.info[b.newTab[u]].IsTerrible(now) || (b.info[b.newTab[u]].refs > 1 && refs == 0)))
  }

  /** The end of Add_: put the entry on its slot, or drop it when it has none. */
  ghost function Settle(b: Book, place: Placement, out: set<Id>, extra: int, id: Id, source: Net, now: int): Book
    requires Between(b, place, out, extra) && id in b.info && (b.info[id].refs == 0 ==> id in out)
  {
    var u := place.NewSlot(b.info[id].service, source);
    if u in b.newTab && b.newTab[u] == id then b
    else if SlotToHave(b, u, b.info[id].refs, now) then
      ClearKeeps(b, place, out, extra, u);
      List(ClearSlot(b, u), id, u)
    else if b.info[id].refs == 0 then
      DeleteKeeps(b, place, out, extra, id);
      DeleteId(b, id)
    else b
  }

  ghost function Add(b: Book, place: Placement, a: Heard, penalty: int, now: int, lucky: bool): (Book, bool)
    requires Between(b, place, {}, 0)
  {
    if !a.routable then (b, false)
    else if a.service.net in b.addr && b.addr[a.service.net] in b.info then
      var id := b.addr[a.service.net];
      var i := Refreshed(b.info[id], a, penalty, now);
      var b1 := b.(info := b.info[id := i]);
      RefreshKeeps(b, place, id, a, penalty, now);
      if LeaveIt(i, a, lucky) then (b1, false)
      else (Settle(b1, place, {}, 0, id, a.source, now), false)
    else
      AddrIsListed(b, place, a.service.net);
      CreateKeeps(b, place, a.service, a.services, AtLeastZero(a.time - penalty), a.source);
      var b1 := CreateId(b, a.service, a.services, AtLeastZero(a.time - penalty), a.source);
      MoreNew(b1, place, {b.idCount}, 0);
      (Settle(b1.(nNew := b1.nNew + 1), place, {b.idCount}, 1, b.idCount, a.source, now), true)
  }

  lemma AddrIsListed(b: Book, place: Placement, net: Net)
    requires Between(b, place, {}, 0)
    ensures net in b.addr ==> b.addr[net] in b.info && b.info[b.addr[net]].service.net == net
  {
  }

  lemma RefreshKeeps(b: Book, place: Placement, id: Id, a: Heard, penalty: int, now: int)
    requires Between(b, place, {}, 0) && id in b.info
    ensures var b1 := b.(info := b.info[id := Refreshed(b.info[id], a, penalty, now)]);
            Between(b1, place, {}, 0) && (b1.info[id].refs > 0 <==> !b1.info[id].inTried) && b1.info[id].refs <= MAX_REFS
  {
    assert StatOk(b.info[id], false);
    NoteKeeps(b, place, {}, 0, id, Refreshed(b.info[id], a, penalty, now));
  }

  lemma SettleKeeps(b: Book, place: Placement, out: set<Id>, extra: int, id: Id, source: Net, now: int)
    requires Between(b, place, out, extra) && place.InRange() && id in b.info && !b.info[id].inTried
    requires b.info[id].refs < MAX_REFS
    requires (out == {id} && extra == 1 && b.info[id].refs == 0) || (out == {} && extra == 0 && b.info[id].refs > 0)
    ensures var b' := Settle(b, place, out, extra, id, source, now);
            Between(b', place, {}, 0) && TimesFrom(b'.info, b.info, id)
            && (id in b'.info ==> StillThere(b'.info, b.info, id) && !b'.info[id].inTried)
    ensures var u := place.NewSlot(b.info[id].service, source);
            id in Settle(b, place, out, extra, id, source, now).info <==>
              b.info[id].refs > 0 || SlotToHave(b, u, 0, now)
  {
    hide Between, Placement.InRange;
    var u := place.NewSlot(b.info[id].service, source);
    SlotInRange(place, b.info[id].service, source);
    if u in b.newTab && b.newTab[u] == id {
      ListedIsNew(b, place, out, extra, u);
    } else if SlotToHave(b, u, b.info[id].refs, now) {
      ClearKeeps(b, place, out, extra, u);
      ListKeeps(ClearSlot(b, u), place, out, extra, id, u);
      assert out - {id} == {};
    } else if b.info[id].refs == 0 {
      DeleteKeeps(b, place, out, extra, id);
      assert out - {id} == {};
    }
  }

  lemma SettledTimes(info': InfoMap, info: InfoMap, id: Id)
    requires TimesOk(info) && TimesFrom(info', info, id)
    requires id in info' ==> StillThere(info', info, id) && !info'[id].inTried
    ensures TimesOk(info')
  {
    if id in info' {
      assert TimeOk(info[id]);
    }
    TimesStayOk(info', info, id);
  }

  lemma AddKnown(b: Book, place: Placement, a: Heard, penalty: int, now: int, lucky: bool)
    requires Consistent(b, place) && place.InRange() && a.routable && a.service.net in b.addr
    ensures var (b', added) := Add(b, place, a, penalty, now, lucky); Consistent(b', place) && !added
  {
    hide Between, Placement.InRange, Settle, Placement.NewSlot;
    AddrIsListed(b, place, a.service.net);
    var id := b.addr[a.service.net];
    var b1 := b.(info := b.info[id := Refreshed(b.info[id], a, penalty, now)]);
    RefreshKeeps(b, place, id, a, penalty, now);
    assert TimeOk(b.info[id]) && TimeOk(b1.info[id]);
    assert TimesFrom(b1.info, b.info, id);
    TimesStayOk(b1.info, b.info, id);
    if !LeaveIt(b1.info[id], a, lucky) {
      SettleKeeps(b1, place, {}, 0, id, a.source, now);
      SettledTimes(Settle(b1, place, {}, 0, id, a.source, now).info, b1.info, id);
    }
  }

  lemma AddNew(b: Book, place: Placement, a: Heard, penalty: int, now: int, lucky: bool)
    requires Consistent(b, place) && place.InRange() && a.routable && a.service.net !in b.addr
    ensures var (b', added) := Add(b, place, a, penalty, now, lucky);
            && Consistent(b', place) && added
            && (a.service.net in b'.addr <==> SlotToHave(b, place.NewSlot(a.service, a.source), 0, now))
  {
    hide Between, Placement.InRange, Settle, Placement.NewSlot;
    var id := b.idCount;
    var t := AtLeastZero(a.time - penalty);
    var b1 := CreateId(b, a.service, a.services, t, a.source);
    CreateKeeps(b, place, a.service, a.services, t, a.source);
    MoreNew(b1, place, {id}, 0);
    var b2 := b1.(nNew := b1.nNew + 1);
    SettleKeeps(b2, place, {id}, 1, id, a.source, now);
    var b' := Settle(b2, place, {id}, 1, id, a.source, now);
    assert TimesFrom(b2.info, b.info, id);
    TimesStayOk(b2.info, b.info, id);
    SettledTimes(b'.info, b2.info, id);
    SlotToHaveAlike(b, b2, place, {id}, 1, place.NewSlot(a.service, a.source), now);
    AddrAgrees(b2, place, {id}, 1);
    IdOfNet(b', b2, place, id, a.service.net);
  }

  lemma AddrAgrees(b: Book, place: Placement, out: set<Id>, extra: int)
    requires Between(b, place, out, extra)
    ensures AddrOk(b.info, b.addr)
  {
  }

  lemma SlotToHaveAlike(b: Book, b2: Book, place: Placement, out: set<Id>, extra: int, u: Slot, now: int)
    requires Consistent(b, place) && b2.newTab == b.newTab && forall i | i in b.info :: i in b2.info && b2.info[i] == b.info[i]
    ensures SlotToHave(b2, u, 0, now) == SlotToHave(b, u, 0, now)
  {
    if u in b.newTab {
      ListedIsNew(b, place, {}, 0, u);
    }
  }

  /** Whether a net is known is whether its entry is still there. */
  lemma IdOfNet(b': Book, b2: Book, place: Placement, id: Id, net: Net)
    requires Between(b', place, {}, 0) && AddrOk(b2.info, b2.addr) && TimesFrom(b'.info, b2.info, id)
    requires id in b2.info && b2.info[id].service.net == net && (id in b'.info ==> StillThere(b'.info, b2.info, id))
    ensures net in b'.addr <==> id in b'.info
  {
    hide RandomOk, CountsOk, StatsOk, TriedOk, NewOk, IdsOk;
    if net in b'.addr && id !in b'.info {
      assert false;
    }
  }

  /** Add_ keeps everything Check_ asks for. It reports true exactly for an address it did not
      know, and that address is then really in the book exactly when its slot was to be had. */
  lemma AddKeeps(b: Book, place: Placement, a: Heard, penalty: int, now: int, lucky: bool)
    requires Consistent(b, place) && place.InRange()
    ensures var (b', added) := Add(b, place, a, penalty, now, lucky);
            && Consistent(b', place)
            && (added <==> a.routable && a.service.net !in b.addr)
            && (added ==> (a.service.net in b'.addr <==> SlotToHave(b, place.NewSlot(a.service, a.source), 0, now)))
  {
    hide Between, Placement.InRange, Settle, SlotToHave, TimesOk, Placement.NewSlot;
    if a.routable {
      if a.service.net in b.addr {
        AddKnown(b, place, a, penalty, now, lucky);
      } else {
        AddNew(b, place, a, penalty, now, lucky);
      }
    }
  }
}
