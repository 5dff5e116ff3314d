/** What the node keeps about each peer: the blocks asked of it, and the latch of its block sync
    request (src/main.cpp:130-172, 340-406, 6075-6111). */
module NodeState {
  import opened Options

  type NodeId = nat
  type BlockHash = nat

  const SYNC_REQUEST_RETRY_INTERVAL := 10 * 60
  const CLOSE_TO_TODAY := 6 * 60 * 60

  datatype QueuedBlock = QueuedBlock(hash: BlockHash, nTime: int, nValidatedQueuedBefore: int, fValidatedHeaders: bool)

  /** An element of a peer's list; `at` tells it from all others, as an iterator does. */
  datatype Element = Element(at: nat, block: QueuedBlock)

  datatype CNodeState = CNodeState(fSyncStarted: bool, nSyncRequestTime: int, nStallingSince: int,
                                   vBlocksInFlight: seq<Element>, nBlocksInFlight: int, fPreferredDownload: bool)

  const NEW_NODE := CNodeState(false, 0, 0, [], 0, false)

  /** What is known of the connection itself. */
  datatype Peer = Peer(fInbound: bool, fWhitelisted: bool, fOneShot: bool, fClient: bool)

  /** The global variables. */
  datatype World = World(nodes: map<NodeId, CNodeState>, inFlight: map<BlockHash, (NodeId, nat)>,
                         nQueuedValidatedHeaders: int, nSyncStarted: int, nPreferredDownload: int, nextAt: nat)

  const EMPTY_WORLD := World(map[], map[], 0, 0, 0, 0)

  function Bit(b: bool): int { if b then 1 else 0 }

  // ----- lists -----

  predicate DistinctAt(list: seq<Element>) { forall j, k | 0 <= j < k < |list| :: list[j].at != list[k].at }

  /** list::erase at an iterator */
  function Without(list: seq<Element>, at: nat): (r: seq<Element>)
    ensures forall e :: e in r <==> e in list && e.at != at
  {
    if list == [] then []
    else
      var n := |list| - 1;
      assert list == list[..n] + [list[n]];
      Without(list[..n], at) + if list[n].at == at then [] else [list[n]]
  }

  lemma {:induction false} WithoutNothing(list: seq<Element>, at: nat)
    requires forall e | e in list :: e.at != at
    ensures Without(list, at) == list
  {
    hide Without;
    if list == [] {
      NothingLeftOut(at);
    } else {
      var n := |list| - 1;
      assert list == list[..n] + [list[n]];
      assert list[n] in list && forall e | e in list[..n] :: e in list;
      WithoutLast(list, at);
      WithoutNothing(list[..n], at);
    }
  }

  lemma NothingLeftOut(at: nat)
    ensures Without([], at) == []
  {
  }

  lemma {:induction false} WithoutOne(list: seq<Element>, e: Element)
    requires DistinctAt(list) && e in list
    ensures DistinctAt(Without(list, e.at)) && |Without(list, e.at)| == |list| - 1
  {
    hide Without;
    var n := |list| - 1;
    var i :| 0 <= i <= n && list[i] == e;
    WithoutLast(list, e.at);
    WithoutKeepsDistinct(list, e.at);
    if i == n {
      WithoutNothing(list[..n], e.at);
    } else {
      assert list[..n][i] == e;
      WithoutOne(list[..n], e);
    }
  }

  lemma WithoutLast(list: seq<Element>, at: nat)
    requires list != []
    ensures var n := |list| - 1;
            Without(list, at) == Without(list[..n], at) + if list[n].at == at then [] else [list[n]]
  {
  }

  lemma {:induction false} WithoutKeepsDistinct(list: seq<Element>, at: nat)
    requires DistinctAt(list)
    ensures DistinctAt(Without(list, at))
  {
    if list != [] {
      var n := |list| - 1;
      WithoutKeepsDistinct(list[..n], at);
      var r := Without(list[..n], at);
      WithoutLast(list, at);
      hide Without;
      forall j | 0 <= j < |r|
        ensures r[j].at != list[n].at
      {
        assert r[j] in r;
      }
    }
  }

  // ----- what holds between the lists and the map -----

  predicate Holds(list: seq<Element>, at: nat, h: BlockHash) { exists e | e in list :: e.at == at && e.block.hash == h }

  /** mapBlocksInFlight and the peers' lists tell the same story, and each list's length is kept. */
  ghost predicate FlightOk(w: World) { Pointing(w.nodes, w.inFlight) && Listed(w.nodes, w.inFlight, w.nextAt) && ListsOk(w.nodes) }

  ghost predicate Pointing(nodes: map<NodeId, CNodeState>, inFlight: map<BlockHash, (NodeId, nat)>) {
    forall h | h in inFlight ::
      inFlight[h].0 in nodes && Holds(nodes[inFlight[h].0].vBlocksInFlight, inFlight[h].1, h)
  }

  ghost predicate Listed(nodes: map<NodeId, CNodeState>, inFlight: map<BlockHash, (NodeId, nat)>, nextAt: nat) {
    forall n, e | n in nodes && e in nodes[n].vBlocksInFlight ::
      e.block.hash in inFlight && inFlight[e.block.hash] == (n, e.at) && e.at < nextAt
  }

  ghost predicate ListsOk(nodes: map<NodeId, CNodeState>) {
    forall n | n in nodes ::
      DistinctAt(nodes[n].vBlocksInFlight) && nodes[n].nBlocksInFlight == |nodes[n].vBlocksInFlight|
  }

  ghost predicate InList(w: World, n: NodeId, k: nat, h: BlockHash) {
    n in w.nodes && k < |w.nodes[n].vBlocksInFlight| && w.nodes[n].vBlocksInFlight[k].block.hash == h
  }

  /** Each block in flight stands in exactly one peer's list, once; nothing else stands there. */
  lemma OnePlaceEach(w: World, h: BlockHash)
    requires FlightOk(w)
    ensures h in w.inFlight <==> exists n, k :: InList(w, n, k, h)
    ensures forall n, k, n', k' :: InList(w, n, k, h) && InList(w, n', k', h) ==> n == n' && k == k'
    ensures forall n, k :: InList(w, n, k, h) ==> w.inFlight[h].0 == n
  {
    if h in w.inFlight {
      var n := w.inFlight[h].0;
      var list := w.nodes[n].vBlocksInFlight;
      var e :| e in list && e.at == w.inFlight[h].1 && e.block.hash == h;
      var k :| 0 <= k < |list| && list[k] == e;
      assert InList(w, n, k, h);
    }
    forall n: NodeId, k: nat, n': NodeId, k': nat | InList(w, n, k, h) && InList(w, n', k', h)
      ensures n == n' && k == k' && h in w.inFlight && w.inFlight[h].0 == n
    {
      var e, e' := w.nodes[n].vBlocksInFlight[k], w.nodes[n'].vBlocksInFlight[k'];
      assert e in w.nodes[n].vBlocksInFlight && e' in w.nodes[n'].vBlocksInFlight;
    }
  }

  // ----- counting -----

  ghost function Syncing(nodes: map<NodeId, CNodeState>): set<NodeId> { set n | n in nodes && nodes[n].fSyncStarted }

  ghost function Preferred(nodes: map<NodeId, CNodeState>): set<NodeId> { set n | n in nodes && nodes[n].fPreferredDownload }

  /** The validated blocks in flight. */
  ghost function Validated(nodes: map<NodeId, CNodeState>): set<BlockHash> {
    set n, e | n in nodes && e in nodes[n].vBlocksInFlight && e.block.fValidatedHeaders :: e.block.hash
  }

  ghost function ValidatedIn(list: seq<Element>): set<BlockHash> {
    set e | e in list && e.block.fValidatedHeaders :: e.block.hash
  }

  /** The counters count, apart from `lost` blocks that were in flight when their peer left. */
  ghost predicate CountsOk(w: World, lost: nat) {
    && w.nSyncStarted == |Syncing(w.nodes)| && w.nPreferredDownload == |Preferred(w.nodes)|
    && w.nQueuedValidatedHeaders == |Validated(w.nodes)| + lost
  }

  /** Membership of one element may change. */
  lemma OneMore<T>(a: set<T>, b: set<T>, x: T)
    requires forall y | y != x :: y in a <==> y in b
    ensures |b| == |a| - Bit(x in a) + Bit(x in b)
  {
    var c := a - {x};
    assert c == b - {x};
    assert a == if x in a then c + {x} else c;
    assert b == if x in b then c + {x} else c;
  }

  /** Changing one peer's entry changes the flag counts by its flags only. */
  lemma FlagsMove(nodes: map<NodeId, CNodeState>, n: NodeId, s: CNodeState)
    ensures var was := if n in nodes then nodes[n] else NEW_NODE;
            && |Syncing(nodes[n := s])| == |Syncing(nodes)| - Bit(was.fSyncStarted) + Bit(s.fSyncStarted)
            && |Preferred(nodes[n := s])| == |Preferred(nodes)| - Bit(was.fPreferredDownload) + Bit(s.fPreferredDownload)
  {
    OneMore(Syncing(nodes), Syncing(nodes[n := s]), n);
    OneMore(Preferred(nodes), Preferred(nodes[n := s]), n);
  }

  // ----- MarkBlockAsReceived, MarkBlockAsInFlight -----

  ghost function ElementOf(w: World, h: BlockHash): (e: Element)
    requires FlightOk(w) && h in w.inFlight
    ensures e in w.nodes[w.inFlight[h].0].vBlocksInFlight && e.at == w.inFlight[h].1 && e.block.hash == h
  {
    var e :| e in w.nodes[w.inFlight[h].0].vBlocksInFlight && e.at == w.inFlight[h].1 && e.block.hash == h; e
  }

  ghost function Received(w: World, h: BlockHash): World
    requires FlightOk(w)
  {
    if h !in w.inFlight then w
    else
      var (n, at) := w.inFlight[h];
      var s := w.nodes[n];
      w.(nodes := w.nodes[n := s.(vBlocksInFlight := Without(s.vBlocksInFlight, at),
                                  nBlocksInFlight := s.nBlocksInFlight - 1, nStallingSince := 0)],
         nQueuedValidatedHeaders := w.nQueuedValidatedHeaders - Bit(ElementOf(w, h).block.fValidatedHeaders),
         inFlight := w.inFlight - {h})
  }

  lemma ReceivedFlight(w: World, h: BlockHash)
    requires FlightOk(w)
    ensures FlightOk(Received(w, h)) && h !in Received(w, h).inFlight && Received(w, h).nodes.Keys == w.nodes.Keys
  {
    if h in w.inFlight {
      hide Without, DistinctAt, Pointing, Listed;
      WithoutOne(w.nodes[w.inFlight[h].0].vBlocksInFlight, ElementOf(w, h));
      ReceivedPoints(w, h);
      ReceivedListed(w, h);
    }
  }

  lemma ReceivedPoints(w: World, h: BlockHash)
    requires FlightOk(w) && h in w.inFlight
    ensures Pointing(Received(w, h).nodes, Received(w, h).inFlight)
  {
    hide Without, DistinctAt;
    var w' := Received(w, h);
    forall g | g in w'.inFlight
      ensures w'.inFlight[g].0 in w'.nodes && Holds(w'.nodes[w'.inFlight[g].0].vBlocksInFlight, w'.inFlight[g].1, g)
    {
      OthersStay(w, h, w.inFlight[g].0, ElementOf(w, g));
    }
  }

  /** Erasing the element of one block leaves those of the others. */
  lemma OthersStay(w: World, h: BlockHash, m: NodeId, e: Element)
    requires FlightOk(w) && h in w.inFlight && m in w.nodes && e in w.nodes[m].vBlocksInFlight && e.block.hash != h
    ensures e in Received(w, h).nodes[m].vBlocksInFlight
  {
    hide Without, DistinctAt, Pointing, Listed;
    if m == w.inFlight[h].0 {
      SameAt(w.nodes[m].vBlocksInFlight, e, ElementOf(w, h));
    }
  }

  lemma SameAt(list: seq<Element>, a: Element, b: Element)
    requires DistinctAt(list) && a in list && b in list
    ensures a.at == b.at ==> a == b
  {
  }

  lemma ReceivedListed(w: World, h: BlockHash)
    requires FlightOk(w) && h in w.inFlight
    ensures Listed(Received(w, h).nodes, Received(w, h).inFlight, w.nextAt)
  {
    hide Without, DistinctAt, Holds;
    var w' := Received(w, h);
    forall n, e | n in w'.nodes && e in w'.nodes[n].vBlocksInFlight
      ensures e.block.hash in w'.inFlight && w'.inFlight[e.block.hash] == (n, e.at) && e.at < w.nextAt
    {
      assert e in w.nodes[n].vBlocksInFlight;
    }
  }

  lemma ReceivedCounts(w: World, h: BlockHash, lost: nat)
    requires FlightOk(w) && CountsOk(w, lost)
    ensures CountsOk(Received(w, h), lost)
  {
    if h in w.inFlight {
      var n, e, w' := w.inFlight[h].0, ElementOf(w, h), Received(w, h);
      FlagsMove(w.nodes, n, w'.nodes[n]);
      forall g
        ensures g in Validated(w'.nodes) <==> g in Validated(w.nodes) && g != h
      {
        ReceivedValidated(w, h, g);
      }
      assert h in Validated(w.nodes) <==> e.block.fValidatedHeaders;
      OneMore(Validated(w.nodes), Validated(w'.nodes), h);
    }
  }

  lemma ReceivedValidated(w: World, h: BlockHash, g: BlockHash)
    requires FlightOk(w) && h in w.inFlight
    ensures g in Validated(Received(w, h).nodes) <==> g in Validated(w.nodes) && g != h
  {
    hide Without, DistinctAt, Pointing, ListsOk;
    var w' := Received(w, h);
    ReceivedFlight(w, h);
    if g in Validated(w.nodes) && g != h {
      var m, e :| m in w.nodes && e in w.nodes[m].vBlocksInFlight && e.block.fValidatedHeaders && e.block.hash == g;
      OthersStay(w, h, m, e);
    }
    if g in Validated(w'.nodes) {
      var m, e :| m in w'.nodes && e in w'.nodes[m].vBlocksInFlight && e.block.fValidatedHeaders && e.block.hash == g;
      assert e in w.nodes[m].vBlocksInFlight;
    }
  }

  ghost function Requested(w: World, n: NodeId, h: BlockHash, known: bool, now: int): World
    requires FlightOk(w) && n in w.nodes
  {
    var v := Received(w, h);
    var block := QueuedBlock(h, now, v.nQueuedValidatedHeaders, known);
    ReceivedFlight(w, h);
    var s := v.nodes[n];
    v.(nodes := v.nodes[n := s.(vBlocksInFlight := s.vBlocksInFlight + [Element(v.nextAt, block)],
                                nBlocksInFlight := s.nBlocksInFlight + 1)],
       nQueuedValidatedHeaders := v.nQueuedValidatedHeaders + Bit(known),
       inFlight := v.inFlight[h := (n, v.nextAt)],
       nextAt := v.nextAt + 1)
  }

  lemma RequestedKeeps(w: World, n: NodeId, h: BlockHash, known: bool, now: int, lost: nat)
    requires FlightOk(w) && CountsOk(w, lost) && n in w.nodes
    ensures FlightOk(Requested(w, n, h, known, now)) && CountsOk(Requested(w, n, h, known, now), lost)
    ensures Requested(w, n, h, known, now).inFlight.Keys == w.inFlight.Keys + {h}
  {
    hide FlightOk, CountsOk, Received;
    ReceivedFlight(w, h);
    ReceivedCounts(w, h, lost);
    ReceivedKeys(w, h);
    var v, w' := Received(w, h), Requested(w, n, h, known, now);
    var last := Element(v.nextAt, QueuedBlock(h, now, v.nQueuedValidatedHeaders, known));
    AddedFlight(v, w', n, last);
    AddedCounts(v, w', n, last, lost);
  }

  lemma ReceivedKeys(w: World, h: BlockHash)
    requires FlightOk(w)
    ensures Received(w, h).inFlight.Keys == w.inFlight.Keys - {h}
  {
    hide FlightOk, ElementOf;
  }

  /** `w'` is `v` with one element more at the end of a list. */
  ghost predicate Added(v: World, w': World, n: NodeId, last: Element) {
    && n in v.nodes && last.at == v.nextAt && last.block.hash !in v.inFlight
    && w' == v.(nodes := v.nodes[n := v.nodes[n].(vBlocksInFlight := v.nodes[n].vBlocksInFlight + [last],
                                                  nBlocksInFlight := v.nodes[n].nBlocksInFlight + 1)],
                nQueuedValidatedHeaders := v.nQueuedValidatedHeaders + Bit(last.block.fValidatedHeaders),
                inFlight := v.inFlight[last.block.hash := (n, v.nextAt)],
                nextAt := v.nextAt + 1)
  }

  lemma AddedFlight(v: World, w': World, n: NodeId, last: Element)
    requires FlightOk(v) && Added(v, w', n, last)
    ensures FlightOk(w')
  {
    AddedPoints(v, w', n, last);
    hide Holds, Pointing;
    var list := v.nodes[n].vBlocksInFlight;
    assert DistinctAt(list + [last]) by {
      forall j | 0 <= j < |list|
        ensures list[j].at < last.at
      {
        assert list[j] in list;
      }
    }
    hide DistinctAt;
    forall m, e | m in w'.nodes && e in w'.nodes[m].vBlocksInFlight
      ensures e.block.hash in w'.inFlight && w'.inFlight[e.block.hash] == (m, e.at) && e.at < w'.nextAt
    {
      assert e in v.nodes[m].vBlocksInFlight || (m == n && e == last);
    }
  }

  lemma AddedPoints(v: World, w': World, n: NodeId, last: Element)
    requires FlightOk(v) && Added(v, w', n, last)
    ensures Pointing(w'.nodes, w'.inFlight)
  {
    hide DistinctAt;
    forall g | g in w'.inFlight
      ensures w'.inFlight[g].0 in w'.nodes && Holds(w'.nodes[w'.inFlight[g].0].vBlocksInFlight, w'.inFlight[g].1, g)
    {
      var e := if g == last.block.hash then last else ElementOf(v, g);
      assert e in w'.nodes[w'.inFlight[g].0].vBlocksInFlight;
    }
  }

  lemma AddedCounts(v: World, w': World, n: NodeId, last: Element, lost: nat)
    requires FlightOk(v) && CountsOk(v, lost) && Added(v, w', n, last)
    ensures CountsOk(w', lost)
  {
    FlagsMove(v.nodes, n, w'.nodes[n]);
    var h := last.block.hash;
    assert h !in Validated(v.nodes);
    forall g
      ensures g in Validated(w'.nodes) <==> g in Validated(v.nodes) || (g == h && last.block.fValidatedHeaders)
    {
      AddedValidated(v, w', n, last, g);
    }
    OneMore(Validated(v.nodes), Validated(w'.nodes), h);
  }

  lemma AddedValidated(v: World, w': World, n: NodeId, last: Element, g: BlockHash)
    requires Added(v, w', n, last)
    ensures g in Validated(w'.nodes) <==> g in Validated(v.nodes) || (g == last.block.hash && last.block.fValidatedHeaders)
  {
    if g in Validated(v.nodes) {
      var m, e :| m in v.nodes && e in v.nodes[m].vBlocksInFlight && e.block.fValidatedHeaders && e.block.hash == g;
      assert e in w'.nodes[m].vBlocksInFlight;
    }
    if g == last.block.hash && last.block.fValidatedHeaders {
      assert last in w'.nodes[n].vBlocksInFlight;
    }
  }

  // ----- InitializeNode, FinalizeNode, UpdatePreferredDownload -----

  ghost function Initialized(w: World, n: NodeId): World {
    if n in w.nodes then w else w.(nodes := w.nodes[n := NEW_NODE])
  }

  lemma InitializedKeeps(w: World, n: NodeId, lost: nat)
    requires FlightOk(w) && CountsOk(w, lost)
    ensures FlightOk(Initialized(w, n)) && CountsOk(Initialized(w, n), lost)
  {
    if n !in w.nodes {
      var w' := Initialized(w, n);
      FlagsMove(w.nodes, n, NEW_NODE);
      assert Validated(w'.nodes) == Validated(w.nodes) by {
        forall g
          ensures g in Validated(w.nodes) ==> g in Validated(w'.nodes)
        {
          if g in Validated(w.nodes) {
            var m, e :| m in w.nodes && e in w.nodes[m].vBlocksInFlight && e.block.fValidatedHeaders && e.block.hash == g;
            assert e in w'.nodes[m].vBlocksInFlight;
          }
        }
      }
    }
  }

  ghost function Hashes(list: seq<Element>): set<BlockHash> { set e | e in list :: e.block.hash }

  ghost function Finalized(w: World, n: NodeId): World
    requires n in w.nodes
  {
    w.(nodes := w.nodes - {n}, inFlight := w.inFlight - Hashes(w.nodes[n].vBlocksInFlight),
       nSyncStarted := w.nSyncStarted - Bit(w.nodes[n].fSyncStarted),
       nPreferredDownload := w.nPreferredDownload - Bit(w.nodes[n].fPreferredDownload))
  }

  lemma FinalizedFlight(w: World, n: NodeId)
    requires FlightOk(w) && n in w.nodes
    ensures FlightOk(Finalized(w, n))
  {
    var w' := Finalized(w, n);
    forall g | g in w'.inFlight
      ensures w'.inFlight[g].0 in w'.nodes && Holds(w'.nodes[w'.inFlight[g].0].vBlocksInFlight, w'.inFlight[g].1, g)
    {
      var e := ElementOf(w, g);
      assert e in w'.nodes[w'.inFlight[g].0].vBlocksInFlight;
    }
    forall m, e | m in w'.nodes && e in w'.nodes[m].vBlocksInFlight
      ensures e.block.hash in w'.inFlight
    {
      assert w.inFlight[e.block.hash] == (m, e.at);
    }
  }

  /** The queue counter keeps counting the validated blocks of a peer that has left. */
  lemma FinalizedCounts(w: World, n: NodeId, lost: nat)
    requires FlightOk(w) && CountsOk(w, lost) && n in w.nodes
    ensures CountsOk(Finalized(w, n), lost + |ValidatedIn(w.nodes[n].vBlocksInFlight)|)
  {
    var w' := Finalized(w, n);
    OneMore(Syncing(w.nodes), Syncing(w'.nodes), n);
    OneMore(Preferred(w.nodes), Preferred(w'.nodes), n);
    FinalizedSplit(w, n);
  }

  lemma FinalizedSplit(w: World, n: NodeId)
    requires FlightOk(w) && n in w.nodes
    ensures |Validated(w.nodes)| == |Validated(Finalized(w, n).nodes)| + |ValidatedIn(w.nodes[n].vBlocksInFlight)|
  {
    hide Validated, ValidatedIn, FlightOk, Finalized;
    var v, v', gone := Validated(w.nodes), Validated(Finalized(w, n).nodes), ValidatedIn(w.nodes[n].vBlocksInFlight);
    forall g
      ensures (g in v <==> g in v' || g in gone) && !(g in v' && g in gone)
    {
      FinalizedValidated(w, n, g);
    }
    assert v == v' + gone && v' !! gone;
  }

  lemma FinalizedValidated(w: World, n: NodeId, g: BlockHash)
    requires FlightOk(w) && n in w.nodes
    ensures var v', gone := Validated(Finalized(w, n).nodes), ValidatedIn(w.nodes[n].vBlocksInFlight);
            (g in Validated(w.nodes) <==> g in v' || g in gone) && !(g in v' && g in gone)
  {
    var w' := Finalized(w, n);
    if g in Validated(w.nodes) {
      var m, e :| m in w.nodes && e in w.nodes[m].vBlocksInFlight && e.block.fValidatedHeaders && e.block.hash == g;
      if m != n {
        assert e in w'.nodes[m].vBlocksInFlight;
      }
    }
    if g in Validated(w'.nodes) {
      var m, e :| m in w'.nodes && e in w'.nodes[m].vBlocksInFlight && e.block.fValidatedHeaders && e.block.hash == g;
      assert e in w.nodes[m].vBlocksInFlight;
    }
    if g in ValidatedIn(w.nodes[n].vBlocksInFlight) {
      var e :| e in w.nodes[n].vBlocksInFlight && e.block.fValidatedHeaders && e.block.hash == g;
      assert g in Validated(w.nodes);
    }
  }

  predicate Prefers(peer: Peer) { (!peer.fInbound || peer.fWhitelisted) && !peer.fOneShot && !peer.fClient }

  /** A change that leaves the lists alone. */
  ghost predicate OnlyFlags(s: CNodeState, s': CNodeState) {
    s'.vBlocksInFlight == s.vBlocksInFlight && s'.nBlocksInFlight == s.nBlocksInFlight
  }

  lemma FlagsKeep(w: World, n: NodeId, s: CNodeState, w': World, lost: nat)
    requires FlightOk(w) && CountsOk(w, lost) && n in w.nodes && OnlyFlags(w.nodes[n], s)
    requires w' == w.(nodes := w.nodes[n := s],
                      nSyncStarted := w.nSyncStarted - Bit(w.nodes[n].fSyncStarted) + Bit(s.fSyncStarted),
                      nPreferredDownload := w.nPreferredDownload - Bit(w.nodes[n].fPreferredDownload) + Bit(s.fPreferredDownload))
    ensures FlightOk(w') && CountsOk(w', lost)
  {
    FlagsMove(w.nodes, n, s);
    SameListsSameValidated(w.nodes, w'.nodes);
    hide Validated, Syncing, Preferred, DistinctAt;
  }

  lemma SameListsSameValidated(nodes: map<NodeId, CNodeState>, nodes': map<NodeId, CNodeState>)
    requires nodes.Keys == nodes'.Keys && forall n | n in nodes :: OnlyFlags(nodes[n], nodes'[n])
    ensures Validated(nodes') == Validated(nodes)
  {
    forall g
      ensures g in Validated(nodes) <==> g in Validated(nodes')
    {
      if g in Validated(nodes) {
        var m, e :| m in nodes && e in nodes[m].vBlocksInFlight && e.block.fValidatedHeaders && e.block.hash == g;
        assert e in nodes'[m].vBlocksInFlight;
      }
    }
  }

  ghost function Updated(w: World, n: NodeId, peer: Peer): World
    requires n in w.nodes
  {
    var s := w.nodes[n].(fPreferredDownload := Prefers(peer));
    w.(nodes := w.nodes[n := s],
       nPreferredDownload := w.nPreferredDownload - Bit(w.nodes[n].fPreferredDownload) + Bit(Prefers(peer)))
  }

  // ----- the sync latch -----

  /** What one round of SendMessages sees: three readings of the clock, the tip's time if there is
      a tip, the best header's time, the adjusted time, and whether the node is reindexing. */
  datatype Sight = Sight(t1: int, t2: int, t3: int, tip: Option<int>, header: int, adjusted: int, reindex: bool)

  predicate TipStale(v: Sight) { v.tip.Some? && v.tip.value < v.t1 - SYNC_REQUEST_RETRY_INTERVAL }

  predicate Releases(s: CNodeState, v: Sight) {
    s.fSyncStarted && TipStale(v) && s.nSyncRequestTime != 0 && v.t2 - s.nSyncRequestTime > SYNC_REQUEST_RETRY_INTERVAL
  }

  predicate Fetches(w: World, s: CNodeState, peer: Peer) {
    s.fPreferredDownload || (w.nPreferredDownload == 0 && !peer.fClient && !peer.fOneShot)
  }

  /** Whether a request goes out to peer `n` in this round. */
  predicate Asks(w: World, n: NodeId, peer: Peer, v: Sight)
    requires n in w.nodes
  {
    var s := w.nodes[n];
    var idle := w.nSyncStarted - Bit(Releases(s, v)) == 0;
    && (!s.fSyncStarted || Releases(s, v)) && !peer.fClient && Fetches(w, s, peer) && !v.reindex
    && (idle || TipStale(v) || v.header > v.adjusted - CLOSE_TO_TODAY)
  }

  ghost function Rounded(w: World, n: NodeId, peer: Peer, v: Sight): World
    requires n in w.nodes
  {
    var s, asks := w.nodes[n], Asks(w, n, peer, v);
    var started := asks || (s.fSyncStarted && !Releases(s, v));
    w.(nodes := w.nodes[n := s.(fSyncStarted := started, nSyncRequestTime := if asks then v.t3 else s.nSyncRequestTime)],
       nSyncStarted := w.nSyncStarted - Bit(s.fSyncStarted) + Bit(started))
  }

  /** No peer stays silent on a stale tip: whenever a peer may be asked and the tip is stale, the
      round leaves a request behind that is at most one interval old, or one made at time zero. */
  lemma StaleTipIsAskedFor(w: World, n: NodeId, peer: Peer, v: Sight)
    requires n in w.nodes && TipStale(v) && !v.reindex && !peer.fClient && Fetches(w, w.nodes[n], peer) && v.t2 <= v.t3
    ensures var s := Rounded(w, n, peer, v).nodes[n];
            && s.fSyncStarted
            && (s.nSyncRequestTime == 0 || v.t2 - s.nSyncRequestTime <= SYNC_REQUEST_RETRY_INTERVAL)
  {
  }

  /** A peer is preferred if the node connected to it itself, or has it on its whitelist, and it has blocks to
      give and means to stay. */
  lemma PreferredIff(w: World, n: NodeId, peer: Peer)
    requires n in w.nodes
    ensures var s' := Updated(w, n, peer).nodes[n];
            && (s'.fPreferredDownload <==> !peer.fOneShot && !peer.fClient && (peer.fInbound ==> peer.fWhitelisted))
            && s' == w.nodes[n].(fPreferredDownload := s'.fPreferredDownload)
  {
  }

  lemma OnlyOne(s: set<NodeId>, n: NodeId)
    ensures |s| == Bit(n in s) <==> forall m | m in s :: m == n
    ensures |s| == 0 <==> forall m :: m !in s
  {
    if forall m | m in s :: m == n {
      assert s == if n in s then {n} else {};
    }
    if |s| == Bit(n in s) && n in s {
      assert |s - {n}| == 0;
    }
  }

  /** A round asks a peer that is not a client, unless the node is reindexing, its request of before still stands,
      or it is not preferred while another peer is - and then only if no other peer is syncing, or the tip is
      more than ten minutes old, or the best header less than six hours. A request no longer stands when the
      tip and the request are both more than ten minutes old, but one made at time zero always does. */
  lemma AskedIff(w: World, n: NodeId, peer: Peer, v: Sight, lost: nat)
    requires CountsOk(w, lost) && n in w.nodes
    ensures var s, s' := w.nodes[n], Rounded(w, n, peer, v).nodes[n];
            var stale := v.tip.Some? && v.t1 - v.tip.value > 600;
            var stands := s.fSyncStarted && !(stale && s.nSyncRequestTime != 0 && v.t2 - s.nSyncRequestTime > 600);
            && (Asks(w, n, peer, v) <==>
                  && !stands && !v.reindex && !peer.fClient
                  && (s.fPreferredDownload || (!peer.fOneShot && forall m | m in w.nodes :: !w.nodes[m].fPreferredDownload))
                  && (stale || v.adjusted - v.header < 21600 || forall m | m in w.nodes && w.nodes[m].fSyncStarted :: m == n && !stands))
            && s'.fSyncStarted == (stands || Asks(w, n, peer, v))
            && s'.nSyncRequestTime == (if Asks(w, n, peer, v) then v.t3 else s.nSyncRequestTime)
            && s' == s.(fSyncStarted := s'.fSyncStarted, nSyncRequestTime := s'.nSyncRequestTime)
  {
    OnlyOne(Syncing(w.nodes), n);
    OnlyOne(Preferred(w.nodes), n);
    assert n in Syncing(w.nodes) <==> w.nodes[n].fSyncStarted;
    forall m | m in w.nodes
      ensures m in Preferred(w.nodes) <==> w.nodes[m].fPreferredDownload
      ensures m in Syncing(w.nodes) <==> w.nodes[m].fSyncStarted
    {
    }
  }

  /** A request puts the block at the end of the peer's list, with the time and the number of validated blocks
      asked for before; no other peer has it. A block that comes in is in no list, and its peer is not
      stalling. */
  lemma RequestTells(w: World, n: NodeId, h: BlockHash, known: bool, now: int, lost: nat)
    requires FlightOk(w) && CountsOk(w, lost) && n in w.nodes
    ensures var list := Requested(w, n, h, known, now).nodes[n].vBlocksInFlight;
            && list != [] && list[|list| - 1].block == QueuedBlock(h, now, |Validated(w.nodes) - {h}| + lost, known)
            && forall e | e in list[..|list| - 1] :: e.block.hash != h && e in w.nodes[n].vBlocksInFlight
    ensures var w' := Received(w, h);
            h in w.inFlight ==> var m := w.inFlight[h].0; w'.nodes[m].nStallingSince == 0 && w' == w'.(nodes := w.nodes[m := w'.nodes[m]])
  {
    hide Without, CountsOk, Validated, DistinctAt, Holds;
    ReceivedFlight(w, h);
    ReceivedCounts(w, h, lost);
    CountIs(Received(w, h), lost);
    assert Validated(Received(w, h).nodes) == Validated(w.nodes) - {h} by {
      forall g
        ensures g in Validated(Received(w, h).nodes) <==> g in Validated(w.nodes) && g != h
      {
        if h in w.inFlight {
          ReceivedValidated(w, h, g);
        } else if h in Validated(w.nodes) {
          ValidatedFlies(w, h);
        }
      }
    }
  }

  lemma CountIs(w: World, lost: nat)
    requires CountsOk(w, lost)
    ensures w.nQueuedValidatedHeaders == |Validated(w.nodes)| + lost
  {
  }

  lemma ValidatedFlies(w: World, h: BlockHash)
    requires FlightOk(w) && h in Validated(w.nodes)
    ensures h in w.inFlight
  {
  }

  // ----- the functions of the source -----

  class CNodeStates {
    var mapNodeState: map<NodeId, CNodeState>
    var mapBlocksInFlight: map<BlockHash, (NodeId, nat)>
    var nQueuedValidatedHeaders: int
    var nSyncStarted: int
    var nPreferredDownload: int
    /** The next list element; stands for a fresh place in memory. */
    var nextAt: nat

    ghost function State(): World
      reads this
    {
      World(mapNodeState, mapBlocksInFlight, nQueuedValidatedHeaders, nSyncStarted, nPreferredDownload, nextAt)
    }

    constructor ()
      ensures State() == EMPTY_WORLD
    {
      mapNodeState, mapBlocksInFlight := map[], map[];
      nQueuedValidatedHeaders, nSyncStarted, nPreferredDownload, nextAt := 0, 0, 0, 0;
    }

    method UpdatePreferredDownload(n: NodeId, peer: Peer)
      requires n in mapNodeState
      modifies this
      ensures State() == Updated(old(State()), n, peer)
    {
      nPreferredDownload := nPreferredDownload - Bit(mapNodeState[n].fPreferredDownload);
      var preferred := (!peer.fInbound || peer.fWhitelisted) && !peer.fOneShot && !peer.fClient;
      mapNodeState := mapNodeState[n := mapNodeState[n].(fPreferredDownload := preferred)];
      nPreferredDownload := nPreferredDownload + Bit(preferred);
    }

    method InitializeNode(n: NodeId)
      modifies this
      ensures State() == Initialized(old(State()), n)
    {
      if n !in mapNodeState {
        mapNodeState := mapNodeState[n := NEW_NODE];
      }
    }

    method FinalizeNode(n: NodeId)
      requires n in mapNodeState
      modifies this
      ensures State() == Finalized(old(State()), n)
    {
      var state := mapNodeState[n];
      if state.fSyncStarted {
        nSyncStarted := nSyncStarted - 1;
      }
      var list := state.vBlocksInFlight;
      for k := 0 to |list|
        invariant mapBlocksInFlight == old(mapBlocksInFlight) - Hashes(list[..k])
        invariant mapNodeState == old(mapNodeState) && nQueuedValidatedHeaders == old(nQueuedValidatedHeaders)
        invariant nSyncStarted == old(nSyncStarted) - Bit(state.fSyncStarted)
        invariant nPreferredDownload == old(nPreferredDownload) && nextAt == old(nextAt)
      {
        mapBlocksInFlight := mapBlocksInFlight - {list[k].block.hash};
        assert Hashes(list[..k + 1]) == Hashes(list[..k]) + {list[k].block.hash} by { OneMoreHash(list, k); }
      }
      assert list[..|list|] == list;
      nPreferredDownload := nPreferredDownload - Bit(state.fPreferredDownload);
      mapNodeState := mapNodeState - {n};
    }

    method MarkBlockAsReceived(h: BlockHash)
      requires FlightOk(State())
      modifies this
      ensures State() == Received(old(State()), h)
    {
      hide DistinctAt, Without;
      if h in mapBlocksInFlight {
        var (n, at) := mapBlocksInFlight[h];
        ghost var found := ElementOf(State(), h);
        var state := mapNodeState[n];
        assert found in state.vBlocksInFlight && found.at == at;
        var e :| e in state.vBlocksInFlight && e.at == at;
        SameAt(state.vBlocksInFlight, e, found);
        nQueuedValidatedHeaders := nQueuedValidatedHeaders - Bit(e.block.fValidatedHeaders);
        state := state.(vBlocksInFlight := Without(state.vBlocksInFlight, at));
        state := state.(nBlocksInFlight := state.nBlocksInFlight - 1);
        state := state.(nStallingSince := 0);
        mapNodeState := mapNodeState[n := state];
        mapBlocksInFlight := mapBlocksInFlight - {h};
      }
    }

    method MarkBlockAsInFlight(n: NodeId, h: BlockHash, known: bool, now: int)
      requires FlightOk(State()) && n in mapNodeState
      modifies this
      ensures State() == Requested(old(State()), n, h, known, now)
    {
      hide FlightOk, Received;
      ReceivedFlight(State(), h);
      MarkBlockAsReceived(h);
      var newentry := QueuedBlock(h, now, nQueuedValidatedHeaders, known);
      nQueuedValidatedHeaders := nQueuedValidatedHeaders + Bit(newentry.fValidatedHeaders);
      var state := mapNodeState[n];
      state := state.(vBlocksInFlight := state.vBlocksInFlight + [Element(nextAt, newentry)]);
      state := state.(nBlocksInFlight := state.nBlocksInFlight + 1);
      mapNodeState := mapNodeState[n := state];
      mapBlocksInFlight := mapBlocksInFlight[h := (n, nextAt)];
      nextAt := nextAt + 1;
    }

    /** The part of SendMessages that starts the block sync. */
    method StartBlockSync(n: NodeId, peer: Peer, v: Sight) returns (asked: bool)
      requires n in mapNodeState
      modifies this
      ensures State() == Rounded(old(State()), n, peer, v) && asked == Asks(old(State()), n, peer, v)
    {
      asked := false;
      var state := mapNodeState[n];
      var fFetch := state.fPreferredDownload || (nPreferredDownload == 0 && !peer.fClient && !peer.fOneShot);
      var fTipStale := v.tip.Some? && v.tip.value < v.t1 - SYNC_REQUEST_RETRY_INTERVAL;
      if state.fSyncStarted && fTipStale && state.nSyncRequestTime != 0
         && v.t2 - state.nSyncRequestTime > SYNC_REQUEST_RETRY_INTERVAL {
        state := state.(fSyncStarted := false);
        nSyncStarted := nSyncStarted - 1;
      }
      if !state.fSyncStarted && !peer.fClient && fFetch && !v.reindex {
        if nSyncStarted == 0 || fTipStale || v.header > v.adjusted - CLOSE_TO_TODAY {
          state := state.(fSyncStarted := true);
          state := state.(nSyncRequestTime := v.t3);
          nSyncStarted := nSyncStarted + 1;
          asked := true;
        }
      }
      mapNodeState := mapNodeState[n := state];
    }
  }

  lemma OneMoreHash(list: seq<Element>, k: nat)
    requires k < |list|
    ensures Hashes(list[..k + 1]) == Hashes(list[..k]) + {list[k].block.hash}
  {
    assert list[..k + 1] == list[..k] + [list[k]];
  }

  // ----- runs -----

  datatype Event =
    | Connect(n: NodeId)
    | Version(n: NodeId, peer: Peer)
    | Request(n: NodeId, h: BlockHash, known: bool, now: int)
    | Receive(h: BlockHash)
    | Round(n: NodeId, peer: Peer, sight: Sight)
    | Disconnect(n: NodeId)

  /** The world with its history: the clock, the sync requests made so far, the validated blocks
      that were in flight when their peer left, and the ids given out. */
  datatype Trace = Trace(w: World, clock: int, requests: seq<(NodeId, int)>, lost: nat, used: set<NodeId>)

  const START := Trace(EMPTY_WORLD, 0, [], 0, {})

  /** Ids are given out once; the clock does not run backwards. */
  predicate Enabled(t: Trace, e: Event) {
    if e.Connect? then e.n !in t.used
    else if e.Receive? then true
    else if e.Round? then e.n in t.w.nodes && t.clock <= e.sight.t1 <= e.sight.t2 <= e.sight.t3
    else e.n in t.w.nodes
  }

  ghost function Next(t: Trace, e: Event): Trace
    requires FlightOk(t.w) && Enabled(t, e)
  {
    match e
    case Connect(n) => t.(w := Initialized(t.w, n), used := t.used + {n})
    case Version(n, peer) => t.(w := Updated(t.w, n, peer))
    case Request(n, h, known, now) => t.(w := Requested(t.w, n, h, known, now))
    case Receive(h) => t.(w := Received(t.w, h))
    case Round(n, peer, v) =>
      t.(w := Rounded(t.w, n, peer, v), clock := v.t3,
         requests := if Asks(t.w, n, peer, v) then t.requests + [(n, v.t3)] else t.requests)
    case Disconnect(n) => t.(w := Finalized(t.w, n), lost := t.lost + |ValidatedIn(t.w.nodes[n].vBlocksInFlight)|)
  }

  /** Two sync requests over one connection are more than the retry interval apart. */
  predicate Apart(requests: seq<(NodeId, int)>) {
    forall i, j | 0 <= i < j < |requests| && requests[i].0 == requests[j].0 ::
      requests[j].1 - requests[i].1 > SYNC_REQUEST_RETRY_INTERVAL
  }

  /** A latched peer remembers its last request; that of any other is long ago. */
  ghost predicate Remembered(t: Trace, r: (NodeId, int)) {
    && r.0 in t.used
    && (r.0 in t.w.nodes ==>
          if t.w.nodes[r.0].fSyncStarted then r.1 <= t.w.nodes[r.0].nSyncRequestTime
          else t.clock - r.1 > SYNC_REQUEST_RETRY_INTERVAL)
  }

  ghost predicate TimesOk(t: Trace) {
    && t.w.nodes.Keys <= t.used && Apart(t.requests)
    && forall i | 0 <= i < |t.requests| :: Remembered(t, t.requests[i])
  }

  ghost predicate Inv(t: Trace) { FlightOk(t.w) && CountsOk(t.w, t.lost) && TimesOk(t) }

  lemma NextKeepsWorld(t: Trace, e: Event)
    requires Inv(t) && Enabled(t, e)
    ensures FlightOk(Next(t, e).w) && CountsOk(Next(t, e).w, Next(t, e).lost)
  {
    hide FlightOk, CountsOk, TimesOk, Initialized, Requested, Received, Finalized, Asks;
    if e.Connect? {
      InitializedKeeps(t.w, e.n, t.lost);
    } else if e.Version? {
      FlagsKeep(t.w, e.n, Updated(t.w, e.n, e.peer).nodes[e.n], Updated(t.w, e.n, e.peer), t.lost);
    } else if e.Request? {
      RequestedKeeps(t.w, e.n, e.h, e.known, e.now, t.lost);
    } else if e.Receive? {
      ReceivedFlight(t.w, e.h);
      ReceivedCounts(t.w, e.h, t.lost);
    } else if e.Round? {
      var w' := Rounded(t.w, e.n, e.peer, e.sight);
      FlagsKeep(t.w, e.n, w'.nodes[e.n], w', t.lost);
    } else {
      FinalizedFlight(t.w, e.n);
      FinalizedCounts(t.w, e.n, t.lost);
    }
  }

  /** All that matters to the latch stays as it is. */
  ghost predicate LatchKept(w: World, w': World) {
    forall n | n in w'.nodes && n in w.nodes ::
      w'.nodes[n].fSyncStarted == w.nodes[n].fSyncStarted && w'.nodes[n].nSyncRequestTime == w.nodes[n].nSyncRequestTime
  }

  lemma LatchKeepsTimes(t: Trace, t': Trace)
    requires TimesOk(t) && LatchKept(t.w, t'.w) && t'.requests == t.requests && t'.clock == t.clock && t.used <= t'.used
    requires t'.w.nodes.Keys <= t'.used && forall n | n in t'.w.nodes && n in t.used :: n in t.w.nodes
    ensures TimesOk(t')
  {
    forall i | 0 <= i < |t'.requests|
      ensures Remembered(t', t'.requests[i])
    {
      assert Remembered(t, t.requests[i]);
    }
  }

  lemma NextKeepsTimes(t: Trace, e: Event)
    requires Inv(t) && Enabled(t, e)
    ensures TimesOk(Next(t, e))
  {
    if e.Round? {
      RoundKeepsTimes(t, e);
    } else {
      hide CountsOk, TimesOk, FlightOk, Requested, Received;
      KeysUsed(t);
      if e.Request? {
        RequestedLatch(t.w, e.n, e.h, e.known, e.now);
      } else if e.Receive? {
        ReceivedLatch(t.w, e.h);
      }
      LatchKeepsTimes(t, Next(t, e));
    }
  }

  lemma ReceivedLatch(w: World, h: BlockHash)
    requires FlightOk(w)
    ensures LatchKept(w, Received(w, h)) && Received(w, h).nodes.Keys == w.nodes.Keys
  {
    hide Without, ElementOf;
  }

  lemma RequestedLatch(w: World, n: NodeId, h: BlockHash, known: bool, now: int)
    requires FlightOk(w) && n in w.nodes
    ensures LatchKept(w, Requested(w, n, h, known, now)) && Requested(w, n, h, known, now).nodes.Keys == w.nodes.Keys
  {
    hide FlightOk, Received;
    ReceivedFlight(w, h);
    ReceivedLatch(w, h);
  }

  lemma KeysUsed(t: Trace)
    requires TimesOk(t)
    ensures t.w.nodes.Keys <= t.used
  {
  }

  lemma RoundKeepsTimes(t: Trace, e: Event)
    requires Inv(t) && Enabled(t, e) && e.Round?
    ensures TimesOk(Next(t, e))
  {
    hide FlightOk, CountsOk, Fetches;
    var t' := Next(t, e);
    forall i | 0 <= i < |t.requests|
      ensures Remembered(t', t.requests[i])
      ensures t.requests[i].0 == e.n && Asks(t.w, e.n, e.peer, e.sight) ==>
                e.sight.t3 - t.requests[i].1 > SYNC_REQUEST_RETRY_INTERVAL
    {
      assert Remembered(t, t.requests[i]);
    }
  }

  /** A run from `t` in which each event is enabled when it comes. */
  ghost predicate Legal(t: Trace, es: seq<Event>)
    requires Inv(t)
    decreases |es|
  {
    es == [] ||
    (Enabled(t, es[0]) && (NextKeepsWorld(t, es[0]); NextKeepsTimes(t, es[0]); Legal(Next(t, es[0]), es[1..])))
  }

  ghost function RunOf(t: Trace, es: seq<Event>): (t': Trace)
    requires Inv(t) && Legal(t, es)
    ensures Inv(t')
    decreases |es|
  {
    if es == [] then t
    else
      NextKeepsWorld(t, es[0]);
      NextKeepsTimes(t, es[0]);
      RunOf(Next(t, es[0]), es[1..])
  }

  lemma StartIsOk()
    ensures Inv(START)
  {
  }

  /** In every run, from the start or from any state reached: the hashes in flight are those in
      the peers' lists, each in one list once; the counters count; two requests over one connection
      are more than the interval apart; and the queue counter is ahead by exactly the validated
      blocks whose peer left. */
  lemma RunKeepsPeers(start: Trace, es: seq<Event>, h: BlockHash)
    requires Inv(start) && Legal(start, es)
    ensures var t := RunOf(start, es);
            && (h in t.w.inFlight <==> exists n, k :: InList(t.w, n, k, h))
            && (forall n, k, n', k' :: InList(t.w, n, k, h) && InList(t.w, n', k', h) ==> n == n' && k == k')
            && (forall n | n in t.w.nodes :: t.w.nodes[n].nBlocksInFlight == |t.w.nodes[n].vBlocksInFlight|)
            && t.w.nSyncStarted == |Syncing(t.w.nodes)| && t.w.nPreferredDownload == |Preferred(t.w.nodes)|
            && t.w.nQueuedValidatedHeaders - |Validated(t.w.nodes)| == t.lost >= 0
            && Apart(t.requests)
  {
    hide Legal, RunOf;
    OnePlaceEach(RunOf(start, es).w, h);
  }

  /** The counter really stays behind: one peer, one block, and the peer is gone. */
  lemma CounterOutlivesPeer()
    ensures Inv(START)
    ensures var es := [Connect(1), Request(1, 7, true, 0), Disconnect(1)];
            && Legal(START, es)
            && RunOf(START, es).w.inFlight == map[] && RunOf(START, es).w.nQueuedValidatedHeaders == 1
  {
    hide FlightOk, TimesOk, CountsOk;
    StartIsOk();
    var e1, e2, e3 := Connect(1), Request(1, 7, true, 0), Disconnect(1);
    NextKeepsWorld(START, e1);
    NextKeepsTimes(START, e1);
    var t1 := Next(START, e1);
    NextKeepsWorld(t1, e2);
    NextKeepsTimes(t1, e2);
    var t2 := Next(t1, e2);
    NextKeepsWorld(t2, e3);
    NextKeepsTimes(t2, e3);
    var t3 := Next(t2, e3);
    assert t2.w.nodes[1].vBlocksInFlight[0] in t2.w.nodes[1].vBlocksInFlight;
    assert t3.w.inFlight == map[];
    var es := [e1, e2, e3];
    assert es[1..] == [e2, e3] && [e2, e3][1..] == [e3] && [e3][1..] == [];
    assert Legal(t3, []) && Legal(t2, [e3]) && Legal(t1, [e2, e3]) && Legal(START, es);
    assert RunOf(t2, [e3]) == t3 && RunOf(t1, [e2, e3]) == t3 && RunOf(START, es) == t3;
  }
}
