/** What the operations of the address manager do to single entries, in seconds and slots
    (src/addrman.cpp:43-61, 124-371, 450-490). Module AddrSteps says that they keep the book
    consistent. */
module AddrOutcomes {
  import opened AddrBook
  import opened AddrSteps

  // ----- which entries are worth keeping -----

  /** Tried within the last minute; or seen neither never, nor more than 30 days ago, nor more than ten minutes
      ahead, with a success at some time or fewer than three attempts, and with a success within a week
      or fewer than ten attempts. */
  predicate WorthKeeping(i: AddrInfo, now: int) {
    || (i.lastTry != 0 && now - i.lastTry <= 60)
    || (&& 0 < i.time <= now + 600 && now - i.time <= 2_592_000
        && (i.lastSuccess != 0 || i.attempts < 3)
        && (now - i.lastSuccess <= 604_800 || i.attempts < 10))
  }

  lemma TerribleIff(i: AddrInfo, now: int)
    ensures i.IsTerrible(now) <==> !WorthKeeping(i, now)
  {
  }

  // ----- Add_ -----

  /** Where an address told by `source` goes: a bucket below 1024, a position below 64. */
  lemma NewSlotIs(place: Placement, service: Service, source: Net)
    requires place.InRange()
    ensures var u := place.NewSlot(service, source);
            u.bucket == place.newBucket(service, source) < 1024 && u.pos == place.newPos(service, u.bucket) < 64
  {
  }

  /** The occupant of a slot gives way to a new address exactly when it is in another slot too or is not
      worth keeping. */
  lemma NewcomerIsInIff(b: Book, place: Placement, a: Heard, penalty: int, now: int, lucky: bool)
    requires Consistent(b, place) && place.InRange() && a.routable && a.service.net !in b.addr
    ensures var b', u := Add(b, place, a, penalty, now, lucky).0, place.NewSlot(a.service, a.source);
            a.service.net in b'.addr <==>
              || u !in b.newTab
              || (b.newTab[u] in b.info && (b.info[b.newTab[u]].refs >= 2 || !WorthKeeping(b.info[b.newTab[u]], now)))
  {
    hide Between, Add, WorthKeeping, AddrInfo.IsTerrible, Placement.NewSlot;
    AddKeeps(b, place, a, penalty, now, lucky);
    var u := place.NewSlot(a.service, a.source);
    if u in b.newTab && b.newTab[u] in b.info {
      TerribleIff(b.info[b.newTab[u]], now);
    }
  }

  /** In particular one never seen, or not for 30 days, and not tried within a minute, gives way. */
  lemma OldOccupantGoes(b: Book, place: Placement, a: Heard, penalty: int, now: int, lucky: bool)
    requires Consistent(b, place) && place.InRange() && a.routable && a.service.net !in b.addr
    requires var u := place.NewSlot(a.service, a.source);
             u in b.newTab && b.newTab[u] in b.info &&
             var i := b.info[b.newTab[u]]; (i.time == 0 || now - i.time > 30 * 86400) && (i.lastTry == 0 || i.lastTry < now - 60)
    ensures a.service.net in Add(b, place, a, penalty, now, lucky).0.addr
  {
    hide Between, Add;
    NewcomerIsInIff(b, place, a, penalty, now, lucky);
  }

  /** Emptying a slot empties no other. */
  lemma ClearKeepsSlots(b: Book, u: Slot)
    requires CanClear(b, u)
    ensures ClearSlot(b, u).newTab == b.newTab - {u} && ClearSlot(b, u).triedTab == b.triedTab
  {
  }

  lemma CanClearIt(b: Book, place: Placement, out: set<Id>, extra: int, u: Slot)
    requires Between(b, place, out, extra)
    ensures CanClear(b, u)
  {
    hide Between;
    ClearKeeps(b, place, out, extra, u);
  }

  /** The end of Add_ puts the entry on its slot or leaves the slots as they are. */
  lemma SettleSlots(b: Book, place: Placement, out: set<Id>, extra: int, id: Id, source: Net, now: int)
    requires Between(b, place, out, extra) && id in b.info && (b.info[id].refs == 0 ==> id in out)
    ensures var b', u := Settle(b, place, out, extra, id, source, now), place.NewSlot(b.info[id].service, source);
            && b'.triedTab == b.triedTab
            && b'.newTab == if u !in b.newTab
                               || (b.newTab[u] in b.info && b.newTab[u] != id
                                   && (!WorthKeeping(b.info[b.newTab[u]], now)
                                       || (b.info[b.newTab[u]].refs > 1 && b.info[id].refs == 0)))
                            then b.newTab[u := id] else b.newTab
  {
    hide Between, ClearSlot, WorthKeeping, AddrInfo.IsTerrible, Placement.NewSlot;
    var u := place.NewSlot(b.info[id].service, source);
    CanClearIt(b, place, out, extra, u);
    ClearKeepsSlots(b, u);
    if u in b.newTab && b.newTab[u] in b.info {
      TerribleIff(b.info[b.newTab[u]], now);
    }
    if u in b.newTab && b.newTab[u] != id && !SlotToHave(b, u, b.info[id].refs, now) && b.info[id].refs == 0 {
      DeleteKeeps(b, place, out, extra, id);
    }
  }

  lemma ListedIsThere(b: Book, place: Placement, out: set<Id>, extra: int, s: Slot)
    requires Between(b, place, out, extra) && s in b.newTab
    ensures b.newTab[s] in b.info && b.newTab[s] < b.idCount
  {
  }

  /** What becomes of a known address, and of all other entries. */
  lemma KnownTimes(b: Book, place: Placement, a: Heard, penalty: int, now: int, lucky: bool)
    requires Consistent(b, place) && place.InRange() && a.routable && a.service.net in b.addr
    ensures var x, b' := b.addr[a.service.net], Add(b, place, a, penalty, now, lucky).0;
            && x in b.info && TimesFrom(b'.info, b.info, x)
            && StillThere(b'.info, b.info[x := Refreshed(b.info[x], a, penalty, now)], x) && b'.info[x].inTried == b.info[x].inTried
            && (b.info[x].inTried ==> b'.info[x] == Refreshed(b.info[x], a, penalty, now))
  {
    hide Between, Placement.InRange, Settle, Placement.NewSlot, Refreshed;
    AddrIsListed(b, place, a.service.net);
    var x := b.addr[a.service.net];
    var b1 := b.(info := b.info[x := Refreshed(b.info[x], a, penalty, now)]);
    RefreshKeeps(b, place, x, a, penalty, now);
    RefreshIsSmall(b.info[x], a, penalty, now);
    assert TimesFrom(b1.info, b.info, x);
    if !LeaveIt(b1.info[x], a, lucky) {
      SettleKeeps(b1, place, {}, 0, x, a.source, now);
      TimesFromTwice(Add(b, place, a, penalty, now, lucky).0.info, b1.info, b.info, x);
    }
  }

  lemma NewTimes(b: Book, place: Placement, a: Heard, penalty: int, now: int, lucky: bool)
    requires Consistent(b, place) && place.InRange() && a.routable && a.service.net !in b.addr
    ensures var b' := Add(b, place, a, penalty, now, lucky).0;
            && TimesFrom(b'.info, b.info, b.idCount)
            && (b.idCount in b'.info ==> StillThere(b'.info, CreateId(b, a.service, a.services, AtLeastZero(a.time - penalty), a.source).info, b.idCount))
  {
    hide Between, Placement.InRange, Settle, Placement.NewSlot;
    var id, t := b.idCount, AtLeastZero(a.time - penalty);
    var b1 := CreateId(b, a.service, a.services, t, a.source);
    CreateKeeps(b, place, a.service, a.services, t, a.source);
    MoreNew(b1, place, {id}, 0);
    SettleKeeps(b1.(nNew := b1.nNew + 1), place, {id}, 1, id, a.source, now);
    assert TimesFrom(b1.info, b.info, id);
    TimesFromTwice(Add(b, place, a, penalty, now, lucky).0.info, b1.info, b.info, id);
  }

  /** A known address keeps its times of trying, its place in the tried table, and what was known of its source. Its
      services are joined with those heard of. It is seen at the time heard, less the penalty, if it was
      never seen or more than that and an hour ago - a day, if the time heard is a day old - and else when
      it was. */
  lemma KnownIsRefreshed(b: Book, place: Placement, a: Heard, penalty: int, now: int, lucky: bool)
    requires Consistent(b, place) && place.InRange() && a.routable && a.service.net in b.addr
    requires a.time - penalty < 0x1_0000_0000
    ensures var x, b' := b.addr[a.service.net], Add(b, place, a, penalty, now, lucky).0;
            x in b.info && x in b'.info &&
            var i, i' := b.info[x], b'.info[x];
            && i'.services == i.services + a.services
            && i'.lastTry == i.lastTry && i'.lastSuccess == i.lastSuccess && i'.attempts == i.attempts
            && i'.service == i.service && i'.source == i.source && i'.inTried == i.inTried
            && (a.time == 0 ==> i'.time == i.time)
            && (a.time > 0 && i.time == 0 ==> i'.time == if a.time < penalty then 0 else a.time - penalty)
            && (a.time > 0 && i.time > 0 && now - a.time < 86400 ==>
                  i'.time == if a.time - i.time > 3600 + penalty then if a.time < penalty then 0 else a.time - penalty else i.time)
            && (a.time > 0 && i.time > 0 && now - a.time >= 86400 ==>
                  i'.time == if a.time - i.time > 86400 + penalty then if a.time < penalty then 0 else a.time - penalty else i.time)
  {
    hide Between, Placement.InRange, Add;
    KnownTimes(b, place, a, penalty, now, lucky);
  }

  /** A tried address never gets into a new slot again; no address gets into a slot when it has eight already,
      when nothing new was heard of it, or when the draw was against it. */
  lemma LeftAlone(b: Book, place: Placement, a: Heard, penalty: int, now: int, lucky: bool)
    requires Consistent(b, place) && a.routable && a.service.net in b.addr
    ensures var x, b' := b.addr[a.service.net], Add(b, place, a, penalty, now, lucky).0;
            && x in b.info && b'.triedTab == b.triedTab
            && ((b.info[x].inTried || b.info[x].refs == 8 || a.time == 0 || !lucky
                 || (b.info[x].time > 0 && a.time <= b.info[x].time && penalty >= 0)) ==> b'.newTab == b.newTab)
  {
    hide Between, Settle;
    AddrIsListed(b, place, a.service.net);
    var x := b.addr[a.service.net];
    var b1 := b.(info := b.info[x := Refreshed(b.info[x], a, penalty, now)]);
    RefreshKeeps(b, place, x, a, penalty, now);
    if !LeaveIt(b1.info[x], a, lucky) {
      SettleSlots(b1, place, {}, 0, x, a.source, now);
    }
  }

  /** A new address that is let in gets the next number, is in the one slot, was seen at the time heard less the
      penalty, and has not been tried. */
  lemma NewcomerIs(b: Book, place: Placement, a: Heard, penalty: int, now: int, lucky: bool)
    requires Consistent(b, place) && place.InRange() && a.routable && a.service.net !in b.addr
    requires a.time - penalty < 0x1_0000_0000 && a.service.net in Add(b, place, a, penalty, now, lucky).0.addr
    ensures var b', u := Add(b, place, a, penalty, now, lucky).0, place.NewSlot(a.service, a.source);
            b'.addr[a.service.net] in b'.info &&
            var i := b'.info[b'.addr[a.service.net]];
            && i.service == a.service && i.source == a.source && i.services == a.services
            && i.time == (if a.time < penalty then 0 else a.time - penalty)
            && i.lastTry == 0 && i.lastSuccess == 0 && i.attempts == 0 && i.refs == 1 && !i.inTried
            && u in b'.newTab && b'.newTab[u] == b'.addr[a.service.net]
  {
    hide Between, Placement.InRange, Settle, Placement.NewSlot, WorthKeeping;
    var id, b' := b.idCount, Add(b, place, a, penalty, now, lucky).0;
    AddKeeps(b, place, a, penalty, now, lucky);
    NewTimes(b, place, a, penalty, now, lucky);
    AddrIsListed(b', place, a.service.net);
    if b'.addr[a.service.net] != id {
      StrangerStays(b, b', place, a.service.net);
    }
    var t := AtLeastZero(a.time - penalty);
    CreateKeeps(b, place, a.service, a.services, t, a.source);
    var b1 := CreateId(b, a.service, a.services, t, a.source);
    MoreNew(b1, place, {id}, 0);
    SettleSlots(b1.(nNew := b1.nNew + 1), place, {id}, 1, id, a.source, now);
    NewcomerIsInIff(b, place, a, penalty, now, lucky);
    SlotsAreNew(b, place, id);
    OneSlot(b', place, id, place.NewSlot(a.service, a.source));
  }

  lemma SlotsAreNew(b: Book, place: Placement, id: Id)
    requires Consistent(b, place) && id == b.idCount
    ensures forall s | s in b.newTab :: b.newTab[s] in b.info && b.newTab[s] != id
  {
  }

  /** References are slots. */
  lemma OneSlot(b: Book, place: Placement, id: Id, u: Slot)
    requires Consistent(b, place) && id in b.info && forall s | s in b.newTab :: b.newTab[s] == id <==> s == u
    requires u in b.newTab
    ensures b.info[id].refs == 1 && !b.info[id].inTried
  {
    assert SlotsOf(b.newTab, id) == {u};
    assert StatOk(b.info[id], false);
  }

  lemma StrangerStays(b: Book, b': Book, place: Placement, net: Net)
    requires Consistent(b, place) && net !in b.addr && TimesFrom(b'.info, b.info, b.idCount)
    requires net in b'.addr && b'.addr[net] in b'.info && b'.info[b'.addr[net]].service.net == net
    ensures b'.addr[net] == b.idCount
  {
  }

  /** An entry that is in one slot only and worth keeping survives every Add_, and keeps that slot. */
  lemma GoodOccupantStays(b: Book, place: Placement, a: Heard, penalty: int, now: int, lucky: bool, s: Slot)
    requires Consistent(b, place) && place.InRange() && s in b.newTab && b.newTab[s] in b.info
    requires var i := b.info[b.newTab[s]]; i.refs == 1 && WorthKeeping(i, now)
    ensures var b', id := Add(b, place, a, penalty, now, lucky).0, b.newTab[s];
            s in b'.newTab && b'.newTab[s] == id && id in b'.info && b'.info[id].service == b.info[id].service
  {
    hide Between, WorthKeeping, Settle, Placement.InRange, Placement.NewSlot, LeaveIt, Refreshed;
    var id, b' := b.newTab[s], Add(b, place, a, penalty, now, lucky).0;
    AddKeeps(b, place, a, penalty, now, lucky);
    if a.routable {
      AddrIsListed(b, place, a.service.net);
      if a.service.net in b.addr {
        var x := b.addr[a.service.net];
        var b1 := b.(info := b.info[x := Refreshed(b.info[x], a, penalty, now)]);
        RefreshKeeps(b, place, x, a, penalty, now);
        RefreshIsSmall(b.info[x], a, penalty, now);
        if !LeaveIt(b1.info[x], a, lucky) {
          NotLeft(b1.info[x], a, lucky);
          SettleSlots(b1, place, {}, 0, x, a.source, now);
        }
      } else {
        var t := AtLeastZero(a.time - penalty);
        CreateKeeps(b, place, a.service, a.services, t, a.source);
        var b1 := CreateId(b, a.service, a.services, t, a.source);
        MoreNew(b1, place, {b.idCount}, 0);
        ListedIsThere(b, place, {}, 0, s);
        SettleSlots(b1.(nNew := b1.nNew + 1), place, {b.idCount}, 1, b.idCount, a.source, now);
      }
    }
    assert s in b'.newTab && b'.newTab[s] == id;
    ListedIsThere(b, place, {}, 0, s);
    ListedIsThere(b', place, {}, 0, s);
    if a.routable {
      if a.service.net in b.addr {
        KnownTimes(b, place, a, penalty, now, lucky);
      } else {
        NewTimes(b, place, a, penalty, now, lucky);
      }
    }
  }

  lemma NotLeft(i: AddrInfo, a: Heard, lucky: bool)
    requires !LeaveIt(i, a, lucky)
    ensures !i.inTried
  {
  }

  lemma RefreshIsSmall(i: AddrInfo, a: Heard, penalty: int, now: int)
    ensures Refreshed(i, a, penalty, now) == i.(time := Refreshed(i, a, penalty, now).time, services := i.services + a.services)
  {
  }

  // ----- Good_, Attempt_, Connected_ -----

  /** Attempt_ notes the time and one more attempt, for that very service, and nothing else. */
  lemma AttemptTells(b: Book, place: Placement, service: Service, time: int)
    requires Consistent(b, place)
    ensures var b' := Attempt(b, service, time);
            if service.net in b.addr && b.info[b.addr[service.net]].service == service then
              var id := b.addr[service.net];
              var i, i' := b.info[id], b'.info[id];
              && b'.info == b.info[id := i'] && b' == b.(info := b'.info)
              && i' == i.(lastTry := time, attempts := i.attempts + 1)
            else b' == b
  {
    hide Between, TimesOk;
    AddrIsListed(b, place, service.net);
  }

  /** Connected_ moves the time an address was seen only when that was more than twenty minutes ago. */
  lemma ConnectedTells(b: Book, place: Placement, service: Service, time: int)
    requires Consistent(b, place) && 0 <= time < 0x1_0000_0000
    ensures var b' := Connected(b, service, time);
            if service.net in b.addr && b.info[b.addr[service.net]].service == service then
              var id := b.addr[service.net];
              && b'.info.Keys == b.info.Keys && b' == b.(info := b'.info)
              && b'.info[id] == b.info[id].(time := b'.info[id].time)
              && b'.info[id].time == (if time - b.info[id].time > 1200 then time else b.info[id].time)
              && forall x | x in b.info && x != id :: b'.info[x] == b.info[x]
            else b' == b
  {
    hide Between, TimesOk;
    AddrIsListed(b, place, service.net);
  }

  lemma PromoteTells(b: Book, id: Id, k: Slot)
    requires id in b.info
    ensures var b' := Promote(b, id, k);
            b'.triedTab == b.triedTab[k := id] && b'.newTab == b.newTab && b'.info == b.info[id := b.info[id].(inTried := true)]
  {
  }

  /** The entry that has to leave a tried slot goes to the new slot of its address and source. */
  lemma RoomTells(b: Book, place: Placement, k: Slot, id: Id)
    requires Between(b, place, {id}, 0) && place.InRange() && k in b.triedTab && id in b.info
    ensures b.triedTab[k] in b.info && b.triedTab[k] != id
    ensures var b', e := MakeRoom(b, place, k, {id}, 0), b.triedTab[k];
            var u := place.NewSlot(b.info[e].service, b.info[e].source);
            && b'.triedTab == b.triedTab - {k} && b'.newTab == b.newTab[u := e]
            && e in b'.info && b'.info[e].refs == 1 && !b'.info[e].inTried
  {
    hide Between, Placement.InRange, ClearSlot, Placement.NewSlot;
    EvictKeeps(b, place, {id}, 0, k);
    var e := b.triedTab[k];
    var b1 := Evict(b, k);
    var u := place.NewSlot(b.info[e].service, b.info[e].source);
    OldStays(b1, place, {id} + {e}, 0, u, e);
    OutIsListed(b1, place, {id} + {e}, 0, e);
    OutIsListed(b, place, {id}, 0, id);
    TriedListed(b, place, {id}, 0, k);
    ClearKeepsSlots(b1, u);
  }

  lemma TriedListed(b: Book, place: Placement, out: set<Id>, extra: int, k: Slot)
    requires Between(b, place, out, extra) && k in b.triedTab
    ensures b.triedTab[k] in b.info && b.info[b.triedTab[k]].inTried
  {
  }

  lemma UnlistedSlots(b: Book, id: Id)
    requires id in b.info
    ensures var b' := UnlistAll(b, id);
            && b'.triedTab == b.triedTab && (forall s | s in b'.newTab :: b'.newTab[s] != id)
            && (forall s | s in b.newTab && b.newTab[s] != id :: s in b'.newTab && b'.newTab[s] == b.newTab[s])
            && (forall x | x in b.info && x != id :: x in b'.info && b'.info[x] == b.info[x])
  {
  }

  /** Good_ on a known address that is not tried: its times are set, its attempts forgotten, it leaves all new
      slots for its tried slot; whoever was there goes to its own new slot. */
  lemma GoodTells(b: Book, place: Placement, service: Service, time: int)
    requires Consistent(b, place) && place.InRange() && service.net in b.addr && b.info[b.addr[service.net]].service == service
    requires !b.info[b.addr[service.net]].inTried
    ensures var b', id := Good(b, place, service, time), b.addr[service.net];
            var k := Slot(place.triedBucket(service), place.triedPos(service, place.triedBucket(service)));
            && id in b'.info && b'.info[id].inTried && b'.info[id].attempts == 0
            && b'.info[id].lastTry == time && b'.info[id].lastSuccess == time && b'.info[id].time == b.info[id].time
            && b'.triedTab == b.triedTab[k := id] && forall s | s in b'.newTab :: b'.newTab[s] != id
    ensures var b', id := Good(b, place, service, time), b.addr[service.net];
            var k := Slot(place.triedBucket(service), place.triedPos(service, place.triedBucket(service)));
            k in b.triedTab ==>
              var e := b.triedTab[k];
              && e in b.info && e in b'.info && !b'.info[e].inTried && b'.info[e].refs == 1
              && var bucket := place.newBucket(b.info[e].service, b.info[e].source);
                 var u := Slot(bucket, place.newPos(b.info[e].service, bucket));
                 u in b'.newTab && b'.newTab[u] == e
  {
    hide Between, Placement.InRange, MakeRoom, ClearSlot;
    AddrIsListed(b, place, service.net);
    var id, k := b.addr[service.net], place.TriedSlot(service);
    NoteGoodKeeps(b, place, id, time);
    var b0 := NoteGood(b, id, time);
    MakeTriedKeeps(b0, place, id);
    OnlyOneOut(b0, place, id);
    var b1 := UnlistAll(b0, id);
    UnlistedSlots(b0, id);
    if k in b1.triedTab {
      RoomTells(b1, place, k, id);
      MakeRoomKeeps(b1, place, k, {id}, 0, id);
      PromoteTells(MakeRoom(b1, place, k, {id}, 0), id, k);
    } else {
      PromoteTells(b1, id, k);
    }
  }

  /** On a tried one it only sets the times. */
  lemma GoodAgain(b: Book, place: Placement, service: Service, time: int)
    requires Consistent(b, place) && place.InRange() && service.net in b.addr && b.info[b.addr[service.net]].service == service
    requires b.info[b.addr[service.net]].inTried
    ensures var b', id := Good(b, place, service, time), b.addr[service.net];
            && b'.info == b.info[id := b.info[id].(lastSuccess := time, lastTry := time, attempts := 0)]
            && b' == b.(info := b'.info)
  {
    hide Between, TimesOk;
    AddrIsListed(b, place, service.net);
  }
}
