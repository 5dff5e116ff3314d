/** Choosing and activating the best chain, in the source's own loops
    (src/main.cpp:3019-3214), and taking in block data (src/main.cpp:3355-3400). */
module BestChain {
  import opened BlockIndex
  import opened ChainState
  import opened Sets

  // ----- how the steps keep the invariant -----

  /** Marking blocks as failed for a reason, and dropping candidates that became unusable. */
  lemma DropKeepsInv(v: View, v': View, best: CBlockIndex?, connects: Verdict)
    requires Inv(v, best, connects)
    requires v' == v.(candidates := v'.candidates, failed := v'.failed)
    requires v.failed <= v'.failed && v'.candidates <= v.candidates
    requires forall b | b in v'.failed - v.failed :: b in v.nChainTx && b.Linked() && !ValidPath(b, connects)
    requires forall b | b in v.candidates - v'.candidates :: b.Linked() && !Usable(b, v'.failed)
    ensures Inv(v', best, connects)
  {
    hide IsPath, ValidPath, CBlockIndex.Built, CBlockIndex.Linked, CBlockIndex.Ancestor, TreeOk, Worse;
    assert FailedOk(v', connects);
    assert DataOk(v');
    forall b | b in v.nChainTx
      ensures b.Linked() && (Usable(b, v'.failed) && !WorseThan(v.seqId, b, best) ==> b in v'.candidates)
    {
      UsableShrinks(b, v.failed, v'.failed);
    }
  }

  lemma UsableShrinks(b: CBlockIndex, failed: set<CBlockIndex>, failed': set<CBlockIndex>)
    requires failed <= failed'
    ensures b.Linked() ==> (Usable(b, failed') ==> Usable(b, failed))
  {
  }

  /** `a` is not worse than `b`, or there is no `b`. */
  ghost predicate AtLeast(seqId: map<CBlockIndex, nat>, a: CBlockIndex?, b: CBlockIndex?) {
    b != null ==> a != null && !Worse(seqId, a, b)
  }

  lemma AtLeastTwice(seqId: map<CBlockIndex, nat>, a: CBlockIndex?, b: CBlockIndex?, c: CBlockIndex?)
    ensures AtLeast(seqId, a, a)
    ensures AtLeast(seqId, a, b) && AtLeast(seqId, b, c) ==> AtLeast(seqId, a, c)
  {
  }

  /** No candidate sorts before the tip, as CheckBlockIndex demands. */
  ghost predicate NoneBefore(seqId: map<CBlockIndex, nat>, candidates: set<CBlockIndex>, tip: CBlockIndex?) {
    forall c | c in candidates :: !WorseThan(seqId, c, tip)
  }

  ghost function LastOf(active: seq<CBlockIndex?>): CBlockIndex? { if active == [] then null else active[|active| - 1] }

  lemma TipIsLast(chain: CChain)
    ensures chain.Tip() == LastOf(chain.vChain)
  {
  }

  lemma StillNoneBefore(seqId: map<CBlockIndex, nat>, was: set<CBlockIndex>, candidates: set<CBlockIndex>, tip: CBlockIndex?)
    requires NoneBefore(seqId, was, tip) && candidates <= was
    ensures NoneBefore(seqId, candidates, tip)
  {
  }

  /** No candidate sorts before a block below the tip either. */
  lemma BelowNoneBefore(seqId: map<CBlockIndex, nat>, candidates: set<CBlockIndex>, was: seq<CBlockIndex?>, now: seq<CBlockIndex?>)
    requires NoneBefore(seqId, candidates, LastOf(was)) && IsPath(was) && now <= was
    ensures NoneBefore(seqId, candidates, LastOf(now))
  {
    hide Worse, CBlockIndex.Built;
    if now != [] && |now| < |was| {
      var tip, low := LastOf(was), LastOf(now);
      assert low == was[|now| - 1] == tip.Ancestor(|now| - 1);
      WorkGrows(tip, |now| - 1, seqId);
      LessWorkIsWorse(seqId, low, tip);
      forall c | c in candidates
        ensures !WorseThan(seqId, c, low)
      {
        WorseIsOrder(seqId, c, low, tip);
      }
    }
  }

  /** Exactly the blocks with complete data have a sequence id, each its own, all below `next`, and
      a parent's is lower. */
  ghost predicate SeqOk(seqId: map<CBlockIndex, nat>, linked: set<CBlockIndex>, next: nat) {
    && seqId.Keys == linked
    && (forall b | b in seqId :: seqId[b] < next)
    && (forall a, b | a in seqId && b in seqId && a != b :: seqId[a] != seqId[b])
    && (forall b | b in seqId && b.pprev != null && b.pprev in seqId :: seqId[b.pprev] < seqId[b])
  }

  /** Blocks already linked keep their sequence ids; those linked since have later ones. */
  ghost predicate SeqLater(was: map<CBlockIndex, nat>, seqId: map<CBlockIndex, nat>, next: nat) {
    && was.Keys <= seqId.Keys
    && (forall b | b in was :: seqId[b] == was[b])
    && (forall b | b in seqId && b !in was :: seqId[b] >= next)
  }

  /** Only blocks that were linked since have become candidates. */
  ghost predicate OnlyNewJoin(before: set<CBlockIndex>, candidates: set<CBlockIndex>, was: map<CBlockIndex, nat>,
                              seqId: map<CBlockIndex, nat>) {
    forall c | c in candidates && c !in before :: c in seqId && c !in was
  }

  lemma NoneJoined(before: set<CBlockIndex>, was: map<CBlockIndex, nat>)
    ensures OnlyNewJoin(before, before, was, was)
  {
  }

  lemma OneJoins(before: set<CBlockIndex>, candidates: set<CBlockIndex>, was: map<CBlockIndex, nat>, seqId: map<CBlockIndex, nat>,
                 x: CBlockIndex, q: nat, candidates': set<CBlockIndex>)
    requires OnlyNewJoin(before, candidates, was, seqId) && was.Keys <= seqId.Keys && x !in seqId && candidates' <= candidates + {x}
    ensures OnlyNewJoin(before, candidates', was, seqId[x := q])
  {
  }

  /** The better of the old best and the new tip. */
  ghost function BestOf(seqId: map<CBlockIndex, nat>, best: CBlockIndex?, tip: CBlockIndex): CBlockIndex {
    if best == null || Worse(seqId, best, tip) then tip else best
  }

  /** `p` and its ancestors from height `low` on. */
  ghost function PathDown(p: CBlockIndex, low: nat): set<CBlockIndex>
    requires p.Linked()
  {
    set h | low <= h <= p.nHeight :: p.Ancestor(h)
  }

  lemma PathDownStep(p: CBlockIndex, low: nat)
    requires p.Linked() && low <= p.nHeight
    ensures PathDown(p, low) == PathDown(p, low + 1) + {p.Ancestor(low)}
    ensures PathDown(p, p.nHeight + 1) == {}
  {
    hide CBlockIndex.Linked, CBlockIndex.Ancestor;
  }

  /** Connecting a block. */
  lemma ConnectKeepsInv(v: View, v': View, best: CBlockIndex?, connects: Verdict, tip: CBlockIndex)
    requires Inv(v, best, connects) && tip in v.nChainTx && tip.Built() && tip.Linked() && ValidPath(tip, connects)
    requires v' == v.(active := PathTo(tip))
    ensures Inv(v', BestOf(v.seqId, best, tip), connects)
    ensures !Worse(v.seqId, BestOf(v.seqId, best, tip), tip)
  {
    hide ValidPath, Usable, CBlockIndex.Built, CBlockIndex.Linked, CBlockIndex.Ancestor, TreeOk, Worse, IsPath, PathTo;
    PathIsPath(tip);
    PathEnds(tip);
    var best' := BestOf(v.seqId, best, tip);
    WorseIsOrder(v.seqId, tip, tip, tip);
    forall b | b in v.nChainTx
      ensures b.Linked() && (Usable(b, v'.failed) && !WorseThan(v.seqId, b, best') ==> b in v'.candidates)
    {
      if best != null {
        WorseIsOrder(v.seqId, b, best, tip);
      }
    }
  }

  /** Dropping candidates that sort before the tip. */
  lemma PruneKeepsInv(v: View, v': View, best: CBlockIndex, connects: Verdict, tip: CBlockIndex)
    requires Inv(v, best, connects) && !Worse(v.seqId, best, tip)
    requires v' == v.(candidates := v'.candidates) && v'.candidates <= v.candidates
    requires forall c | c in v.candidates - v'.candidates :: Worse(v.seqId, c, tip)
    ensures Inv(v', best, connects)
  {
    hide ValidPath, Usable, CBlockIndex.Built, CBlockIndex.Linked, CBlockIndex.Ancestor, TreeOk, Worse, IsPath;
    forall b | b in v.nChainTx
      ensures b.Linked() && (Usable(b, v'.failed) && !WorseThan(v.seqId, b, best) ==> b in v'.candidates)
    {
      WorseIsOrder(v.seqId, b, tip, best);
      WorseIsOrder(v.seqId, tip, best, b);
      WorseIsOrder(v.seqId, b, best, tip);
    }
  }

  lemma PathEnds(tip: CBlockIndex)
    requires tip.Built() && tip.Linked()
    ensures PathTo(tip) != [] && PathTo(tip)[|PathTo(tip)| - 1] == tip
  {
  }

  /** What does not look at the active chain. */
  lemma OnlyActive(v: View, v': View, best: CBlockIndex?, connects: Verdict)
    requires v' == v.(active := v'.active)
    requires DataOk(v) && CountsOk(v) && FailedOk(v, connects) && CandidatesOk(v, best)
    ensures DataOk(v') && CountsOk(v') && FailedOk(v', connects) && CandidatesOk(v', best)
  {
    hide ValidPath, Usable, Worse;
  }

  lemma ParentIsLinked(v: View, tip: CBlockIndex)
    requires DataOk(v) && tip in v.nChainTx && tip.pprev != null
    ensures tip.pprev in v.nChainTx
  {
  }

  lemma ParentIsWorse(seqId: map<CBlockIndex, nat>, best: CBlockIndex, tip: CBlockIndex)
    requires tip.pprev != null && tip.pprev.nChainWork < tip.nChainWork && !Worse(seqId, best, tip)
    ensures !Worse(seqId, best, tip.pprev)
  {
  }

  lemma ShorterActive(v: View, v': View, connects: Verdict, tip: CBlockIndex)
    requires ActiveOk(v, connects) && DataOk(v) && v.active != [] && tip == v.active[|v.active| - 1] && tip.Linked()
    requires v' == v.(active := if tip.pprev == null then [] else PathTo(tip.pprev))
    ensures ActiveOk(v', connects)
    ensures v'.active != [] ==> tip.pprev != null && v'.active[|v'.active| - 1] == tip.pprev && tip.pprev.nChainWork < tip.nChainWork
  {
    hide DataOk, IsPath, PathTo, ValidPath, CBlockIndex.Linked, CBlockIndex.Ancestor;
    ShorterPath(v.active);
    if tip.pprev != null {
      ParentIsLinked(v, tip);
      ParentIsValid(tip, connects);
    }
  }

  /** Disconnecting the tip. */
  lemma DisconnectKeepsInv(v: View, v': View, best: CBlockIndex?, connects: Verdict)
    requires Inv(v, best, connects) && v.active != []
    requires var tip := v.active[|v.active| - 1];
             && tip.Linked()
             && v' == v.(active := if tip.pprev == null then [] else PathTo(tip.pprev))
    ensures Inv(v', best, connects)
  {
    hide TreeOk, DataOk, CountsOk, ActiveOk, FailedOk, CandidatesOk, PathTo, Worse, ValidPath, CBlockIndex.Linked;
    var tip := v.active[|v.active| - 1];
    OnlyActive(v, v', best, connects);
    ShorterActive(v, v', connects, tip);
    if v'.active != [] {
      ParentIsWorse(v.seqId, best, tip);
    }
  }

  // ----- blocks that refuse to be disconnected -----

  /** Taken off one by one, tip first, every active block off the path to `mostWork` lets itself be
      disconnected. */
  ghost predicate AllYield(active: seq<CBlockIndex?>, mostWork: CBlockIndex, moves: nat, disconnects: UndoVerdict)
    requires mostWork.Linked()
  {
    forall i | 0 <= i < |active| && active[i] != null && !AncestorOf(active[i], mostWork) ::
      disconnects(active[i], moves + |active| - 1 - i)
  }

  /** The block can never be disconnected. */
  ghost predicate Stuck(b: CBlockIndex, disconnects: UndoVerdict) { forall n: nat :: !disconnects(b, n) }

  /** Stuck blocks stay where they are. */
  ghost predicate KeepsStuck(was: seq<CBlockIndex?>, now: seq<CBlockIndex?>, disconnects: UndoVerdict) {
    forall i | 0 <= i < |was| && was[i] != null && Stuck(was[i], disconnects) :: i < |now| && now[i] == was[i]
  }

  lemma KeepsStuckTwice(a: seq<CBlockIndex?>, b: seq<CBlockIndex?>, c: seq<CBlockIndex?>, disconnects: UndoVerdict)
    ensures KeepsStuck(a, a, disconnects)
    ensures KeepsStuck(a, b, disconnects) && KeepsStuck(b, c, disconnects) ==> KeepsStuck(a, c, disconnects)
  {
    hide Stuck;
  }

  lemma ConnectKeepsStuck(was: seq<CBlockIndex?>, b: CBlockIndex, disconnects: UndoVerdict)
    requires b.Built() && b.Linked() && IsPath(was) && b.pprev == (if was == [] then null else was[|was| - 1])
    ensures PathTo(b) == was + [b] && KeepsStuck(was, PathTo(b), disconnects)
  {
    hide Stuck;
    var path := PathTo(b);
    if b.pprev != null {
      PathIsPath(b.pprev);
      forall h | 0 <= h < b.nHeight
        ensures path[h] == was[h]
      {
        assert b.Ancestor(h) == b.pprev.Ancestor(h);
      }
    }
  }

  /** The active blocks above the fork are those off the path. */
  lemma OffPathIff(active: seq<CBlockIndex?>, mostWork: CBlockIndex, fork: CBlockIndex?, i: nat)
    requires IsPath(active) && i < |active| && mostWork.Built() && mostWork.Linked()
    requires fork != null ==> fork.nHeight < |active| && active[fork.nHeight] == fork && fork.Linked() && AncestorOf(fork, mostWork)
    requires forall h | 0 <= h <= mostWork.nHeight && h < |active| && active[h] == mostWork.Ancestor(h) ::
               fork != null && h <= fork.nHeight
    ensures active[i] != null && (AncestorOf(active[i], mostWork) <==> fork != null && i <= fork.nHeight)
  {
    var tip := active[|active| - 1];
    assert active[i] == tip.Ancestor(i);
    tip.AncestorBuilt(i);
    if fork != null && i <= fork.nHeight {
      assert fork == tip.Ancestor(fork.nHeight);
      tip.AncestorOfAncestor(fork.nHeight, i);
      mostWork.AncestorOfAncestor(fork.nHeight, i);
    }
  }

  lemma TipHeight(active: seq<CBlockIndex?>)
    requires IsPath(active)
    ensures active != [] ==> LastOf(active) != null && LastOf(active).nHeight == |active| - 1
  {
  }

  /** Below the tip the chain is the path to its parent. */
  lemma ParentPath(active: seq<CBlockIndex?>, tip: CBlockIndex)
    requires IsPath(active) && active != [] && tip == active[|active| - 1] && tip.Linked()
    requires tip.pprev != null ==> tip.pprev.Linked()
    ensures active[..|active| - 1] == if tip.pprev == null then [] else PathTo(tip.pprev)
  {
    if tip.pprev != null {
      forall h | 0 <= h < tip.nHeight
        ensures active[h] == PathTo(tip.pprev)[h]
      {
        assert active[h] == tip.Ancestor(h) == tip.pprev.Ancestor(h);
      }
    }
  }

  lemma NothingTaken(active: seq<CBlockIndex?>, moves: nat, disconnects: UndoVerdict)
    ensures YieldedFrom(active, |active|, moves, disconnects)
  {
  }

  /** The block below height `k` decides how far it goes. */
  lemma OneMoreYields(active: seq<CBlockIndex?>, k: nat, low: nat, moves: nat, disconnects: UndoVerdict)
    requires low < k <= |active| && active[k - 1] != null && YieldedFrom(active, k, moves, disconnects)
    ensures disconnects(active[k - 1], moves + |active| - k) ==> YieldedFrom(active, k - 1, moves, disconnects)
    ensures !disconnects(active[k - 1], moves + |active| - k) ==> !YieldedFrom(active, low, moves, disconnects)
  {
    if YieldedFrom(active, low, moves, disconnects) {
      assert disconnects(active[k - 1], moves + |active| - 1 - (k - 1));
    }
  }

  lemma StuckPrefix(active: seq<CBlockIndex?>, k: nat, moves: nat, disconnects: UndoVerdict)
    requires k <= |active| && YieldedFrom(active, k, moves, disconnects)
    ensures KeepsStuck(active, active[..k], disconnects)
  {
  }

  /** The blocks down to the fork are those off the path. */
  lemma YieldedIsAllYield(active: seq<CBlockIndex?>, mostWork: CBlockIndex, fork: CBlockIndex?, moves: nat, disconnects: UndoVerdict)
    requires IsPath(active) && mostWork.Built() && mostWork.Linked()
    requires fork != null ==> fork.nHeight < |active| && active[fork.nHeight] == fork && fork.Linked() && AncestorOf(fork, mostWork)
    requires forall h | 0 <= h <= mostWork.nHeight && h < |active| && active[h] == mostWork.Ancestor(h) ::
               fork != null && h <= fork.nHeight
    ensures YieldedFrom(active, if fork == null then 0 else fork.nHeight + 1, moves, disconnects)
            <==> AllYield(active, mostWork, moves, disconnects)
  {
    hide IsPath, CBlockIndex.Built, CBlockIndex.Linked, AncestorOf;
    forall i | 0 <= i < |active|
      ensures active[i] != null && (AncestorOf(active[i], mostWork) <==> fork != null && i <= fork.nHeight)
    {
      OffPathIff(active, mostWork, fork, i);
    }
  }

  /** The fork is the highest entry of the chain that is on the path. */
  lemma ForkIsHighest(chain: CChain, p: CBlockIndex, fork: CBlockIndex?)
    requires chain.Valid() && p.Built() && p.Linked()
    requires fork != null ==> fork.Linked() && chain.Contains(fork)
    requires forall h | 0 <= h <= p.nHeight && chain.Contains(p.Ancestor(h)) :: fork != null && h <= fork.nHeight
    ensures fork != null ==> fork.nHeight < |chain.vChain| && chain.vChain[fork.nHeight] == fork
    ensures forall h | 0 <= h <= p.nHeight && h < |chain.vChain| && chain.vChain[h] == p.Ancestor(h) ::
              fork != null && h <= fork.nHeight
  {
    forall h | 0 <= h <= p.nHeight && h < |chain.vChain| && chain.vChain[h] == p.Ancestor(h)
      ensures fork != null && h <= fork.nHeight
    {
      assert chain.Contains(p.Ancestor(h));
    }
  }

  /** A failed step has met a block that refused. */
  lemma SomeRefused(v: View, best: CBlockIndex?, connects: Verdict, mostWork: CBlockIndex, moves: nat, disconnects: UndoVerdict)
    requires Inv(v, best, connects) && mostWork.Linked() && !AllYield(v.active, mostWork, moves, disconnects)
    ensures exists b, n: nat :: b in v.blocks && !disconnects(b, n)
  {
    hide CBlockIndex.Built, Worse, Usable, ValidPath, AncestorOf, CountsOk, FailedOk, CandidatesOk, BestOk;
    var i :| 0 <= i < |v.active| && v.active[i] != null && !AncestorOf(v.active[i], mostWork)
             && !disconnects(v.active[i], moves + |v.active| - 1 - i);
    var tip := v.active[|v.active| - 1];
    assert v.active[i] == tip.Ancestor(i);
    LinkedBelow(v, tip, i);
  }

  lemma {:induction false} AncestorsKnown(v: View, b: CBlockIndex)
    requires TreeOk(v.blocks) && b in v.blocks
    ensures b.Linked() && forall h | 0 <= h <= b.nHeight :: b.Ancestor(h) in v.blocks
    decreases b.nHeight
  {
    if b.pprev != null {
      AncestorsKnown(v, b.pprev);
      forall h | 0 <= h <= b.nHeight
        ensures b.Ancestor(h) in v.blocks
      {
        assert h < b.nHeight ==> b.Ancestor(h) == b.pprev.Ancestor(h);
      }
    }
  }

  lemma AllConnectIsValid(v: View, best: CBlockIndex?, connects: Verdict, b: CBlockIndex)
    requires Inv(v, best, connects) && b in v.candidates && b.Linked()
    ensures (forall x | x in v.blocks :: connects(x)) ==> ValidPath(b, connects)
  {
    hide CBlockIndex.Built, CBlockIndex.Linked, CBlockIndex.Ancestor, Worse, Usable, CountsOk, ActiveOk, FailedOk, BestOk;
    AncestorsKnown(v, b);
  }

  /** Whatever is left of the chain, its tip sorts before the candidate that was worked towards. */
  lemma BlockedWorse(v: View, best: CBlockIndex?, connects: Verdict, now: seq<CBlockIndex?>, mostWork: CBlockIndex)
    requires Inv(v, best, connects) && NoneBefore(v.seqId, v.candidates, LastOf(v.active))
    requires mostWork in v.candidates && mostWork != LastOf(v.active) && now <= v.active && now != []
    ensures LastOf(now) != null && Worse(v.seqId, LastOf(now), mostWork) && mostWork in v.nChainTx
  {
    hide CBlockIndex.Built, Worse, Usable, ValidPath, CountsOk, FailedOk, BestOk;
    var tip := LastOf(v.active);
    assert tip in v.blocks && mostWork in v.blocks;
    WorseIsOrder(v.seqId, tip, mostWork, mostWork);
    assert Worse(v.seqId, tip, mostWork);
    if |now| < |v.active| {
      var low := LastOf(now);
      assert low == v.active[|now| - 1] == tip.Ancestor(|now| - 1);
      WorkGrows(tip, |now| - 1, v.seqId);
      LessWorkIsWorse(v.seqId, low, tip);
      WorseIsOrder(v.seqId, low, tip, mostWork);
    }
  }

  /** What disconnecting down to height `now` has found out. */
  ghost predicate YieldedFrom(active: seq<CBlockIndex?>, now: nat, moves: nat, disconnects: UndoVerdict) {
    forall i | now <= i < |active| :: active[i] != null && disconnects(active[i], moves + |active| - 1 - i)
  }

  lemma ShorterPath(active: seq<CBlockIndex?>)
    requires IsPath(active) && active != []
    ensures IsPath([])
    ensures var tip := active[|active| - 1];
            && tip != null && tip.Linked()
            && (tip.pprev != null ==>
                  && tip.pprev.Linked() && tip.pprev.nChainWork < tip.nChainWork
                  && IsPath(PathTo(tip.pprev)) && PathTo(tip.pprev) != []
                  && PathTo(tip.pprev)[|PathTo(tip.pprev)| - 1] == tip.pprev)
  {
    var tip := active[|active| - 1];
    if tip.pprev != null {
      PathIsPath(tip.pprev);
      PathEnds(tip.pprev);
    }
  }

  lemma ParentIsValid(tip: CBlockIndex, connects: Verdict)
    requires tip.Linked() && ValidPath(tip, connects) && tip.pprev != null
    ensures tip.pprev.Linked() && ValidPath(tip.pprev, connects)
  {
    assert tip.pprev == tip.Ancestor(tip.nHeight - 1);
    ValidBelow(tip, tip.nHeight - 1, connects);
  }

  lemma LessWorkIsWorse(seqId: map<CBlockIndex, nat>, a: CBlockIndex, b: CBlockIndex)
    requires a.nChainWork < b.nChainWork
    ensures Worse(seqId, a, b)
  {
  }

  /** A descendant of a failed block does not connect either. */
  lemma FailedAbove(v: View, b: CBlockIndex, h: nat, connects: Verdict)
    requires FailedOk(v, connects) && b.Linked() && h <= b.nHeight && b.Ancestor(h) in v.failed
    ensures !ValidPath(b, connects) && !Usable(b, v.failed)
  {
    if ValidPath(b, connects) {
      ValidBelow(b, h, connects);
    }
  }

  class ChainManager {
    const chain: CChain
    /** The verdict of ConnectTip on each block. */
    const connects: Verdict
    /** Whether DisconnectTip goes through on a block when the tip has changed so often. */
    const disconnects: UndoVerdict
    var blocks: set<CBlockIndex>
    var candidates: set<CBlockIndex>
    var failed: set<CBlockIndex>
    var nTx: map<CBlockIndex, nat>
    var nChainTx: map<CBlockIndex, nat>
    var seqId: map<CBlockIndex, nat>
    var unlinked: set<(CBlockIndex, CBlockIndex)>
    var nBlockSequenceId: nat
    /** How often the tip has changed; it stands for what became of the coins. */
    var nTipChanges: nat
    /** The best block that has been the tip so far. */
    ghost var best: CBlockIndex?

    ghost function State(): View
      reads this, chain
    {
      View(blocks, candidates, failed, nTx, nChainTx, seqId, unlinked, chain.vChain)
    }

    ghost predicate Valid()
      reads this, chain
    {
      Inv(State(), best, connects)
    }

    constructor (connects: Verdict, disconnects: UndoVerdict)
      ensures Calm() && this.connects == connects && this.disconnects == disconnects && blocks == {} && chain.vChain == [] && best == null
      ensures candidates == {} && nChainTx == map[] && seqId == map[]
      ensures fresh(chain)
    {
      this.connects, this.disconnects := connects, disconnects;
      chain := new CChain();
      blocks, candidates, failed, unlinked := {}, {}, {}, {};
      nTx, nChainTx, seqId := map[], map[], map[];
      nBlockSequenceId, nTipChanges := 1, 0;
      best := null;
    }

    /** setBlockIndexCandidates.rbegin() */
    method BestCandidate() returns (b: CBlockIndex?)
      requires forall x, y | x in candidates && y in candidates && x != y :: x.address != y.address
      ensures b == null <==> candidates == {}
      ensures b != null ==> b in candidates && forall c | c in candidates :: !Worse(seqId, b, c)
    {
      hide Worse;
      b := null;
      var rest := candidates;
      while rest != {}
        invariant rest <= candidates
        invariant b == null <==> rest == candidates
        invariant b != null ==> b in candidates && forall c | c in candidates - rest :: !Worse(seqId, b, c)
        decreases |rest|
      {
        var c :| c in rest;
        if b == null || Worse(seqId, b, c) {
          forall d | d in candidates - rest
            ensures !Worse(seqId, c, d)
          {
            if b != null {
              WorseIsOrder(seqId, b, c, d);
              WorseIsOrder(seqId, c, d, d);
            }
          }
          WorseIsOrder(seqId, c, c, c);
          b := c;
        }
        rest := rest - {c};
      }
    }

    /** The walk of FindMostWorkChain from a candidate down to the active chain: the first bad
        block on the way, or null. */
    method FirstBad(candidate: CBlockIndex) returns (bad: CBlockIndex?)
      requires Valid() && candidate in candidates && candidate.Built() && candidate.Linked()
      ensures bad != null ==> bad.Linked() && AncestorOf(bad, candidate) && bad in failed
      ensures bad == null ==> Usable(candidate, failed)
    {
      hide CBlockIndex.Built, CBlockIndex.Linked, CBlockIndex.Ancestor, Inv, Usable;
      ghost var v := State();
      BuiltIsLinked(candidate);
      var test: CBlockIndex? := candidate;
      while test != null && !chain.Contains(test)
        invariant test != null ==> test.Built() && test.Linked() && AncestorOf(test, candidate)
        invariant forall h | (if test == null then 0 else test.nHeight + 1) <= h <= candidate.nHeight :: candidate.Ancestor(h) !in failed
        decreases if test == null then 0 else test.nHeight + 1
      {
        CandidatesAreLinked(v, best, connects, candidate, test.nHeight);
        // the assertion of src/main.cpp:3037
        assert test in nChainTx;
        var failedChain, missingData := test in failed, test !in nTx;
        if failedChain || missingData {
          assert failedChain;  // data is never missing here
          return test;
        }
        StepDown(candidate, test);
        test := test.pprev;
      }
      bad := null;
      if test != null {
        OnChainIsUsable(v, best, connects, test, this);
        UsableAbove(candidate, test, failed);
      } else {
        UsableAll(candidate, failed);
      }
    }

    /** Remove a bad block and all above it, up to the candidate, from the candidates. */
    method RemovePath(candidate: CBlockIndex, bad: CBlockIndex)
      requires Valid() && candidate in candidates && candidate.Built() && candidate.Linked()
      requires bad.Linked() && AncestorOf(bad, candidate) && bad in failed
      modifies `candidates, `failed
      ensures Valid() && candidate !in candidates
      ensures candidates == old(candidates) - PathDown(candidate, bad.nHeight)
      ensures failed == old(failed) + PathDown(candidate, bad.nHeight + 1)
    {
      hide CBlockIndex.Built, CBlockIndex.Linked, CBlockIndex.Ancestor, Inv, Usable, ValidPath, PathDown;
      ghost var v := State();
      BuiltIsLinked(candidate);
      PathDownStep(candidate, candidate.nHeight);
      var gone: CBlockIndex := candidate;
      while gone != bad
        invariant gone.Built() && gone.Linked() && AncestorOf(gone, candidate) && bad.nHeight <= gone.nHeight
        invariant candidates == v.candidates - PathDown(candidate, gone.nHeight + 1)
        invariant failed == v.failed + PathDown(candidate, gone.nHeight + 1)
        invariant gone != candidate ==> candidate !in candidates
        invariant forall b | b in failed - v.failed :: b in v.nChainTx && b.Linked() && !ValidPath(b, connects)
        invariant forall b | b in v.candidates - candidates :: b.Linked() && !Usable(b, v.failed)
        decreases gone.nHeight
      {
        CandidatesAreLinked(v, best, connects, candidate, gone.nHeight);
        candidate.AncestorOfAncestor(gone.nHeight, bad.nHeight);
        FailedAboveInv(v, best, connects, gone, bad.nHeight);
        PathDownStep(candidate, gone.nHeight);
        failed := failed + {gone};
        candidates := candidates - {gone};
        StepDown(candidate, gone);
        gone := gone.pprev;
      }
      BuiltIsLinked(bad);
      PathDownStep(candidate, bad.nHeight);
      FailedAboveInv(v, best, connects, bad, bad.nHeight);
      candidates := candidates - {bad};
      assert candidate !in candidates;
      StillUnusable(v.candidates - candidates, v.failed, failed);
      DropKeepsInv(v, State(), best, connects);
    }

    /** FindMostWorkChain: the best candidate whose path has no failed block, or null when none is
        left. */
    method FindMostWorkChain() returns (r: CBlockIndex?)
      requires Valid()
      modifies `candidates, `failed
      ensures Valid() && candidates <= old(candidates) && old(failed) <= failed
      ensures r == null ==> candidates == {}
      ensures r != null ==> r in candidates && (forall c | c in candidates :: !Worse(seqId, r, c))
      ensures r != null ==> r.Built() && r.Linked() && Usable(r, failed)
    {
      hide CBlockIndex.Built, CBlockIndex.Linked, CBlockIndex.Ancestor, Inv, Usable, Worse;
      while true
        invariant Valid() && candidates <= old(candidates) && old(failed) <= failed
        decreases |candidates|
      {
        CandidatesHaveOrder(State(), best, connects);
        r := BestCandidate();
        if r == null {
          return;
        }
        var bad := FirstBad(r);
        if bad == null {
          return;
        }
        ghost var was := candidates;
        RemovePath(r, bad);
        assert candidates < was by { assert r in was; }
        SubsetCount(candidates, was);
      }
    }

    /** ConnectTip: on a bad verdict the block is marked and is no candidate any more. */
    method ConnectTip(b: CBlockIndex) returns (ok: bool)
      requires Valid() && b in nChainTx && b.Built() && b.Linked()
      requires b.pprev == chain.Tip()
      modifies this`candidates, this`failed, this`best, this`nTipChanges, chain
      ensures Valid() && ok == connects(b) && AtLeast(seqId, best, old(best))
      ensures KeepsStuck(old(chain.vChain), chain.vChain, disconnects)
      ensures best == if ok then BestOf(seqId, old(best), b) else old(best)
      ensures ok ==> chain.vChain == PathTo(b) && State() == old(State()).(active := PathTo(b)) && best != null && !Worse(seqId, best, b)
      ensures !ok ==> State() == old(State()).(failed := old(failed) + {b}, candidates := old(candidates) - {b})
    {
      hide CBlockIndex.Built, CBlockIndex.Linked, CBlockIndex.Ancestor, Inv, Usable, Worse, ValidPath, IsPath, PathTo,
           KeepsStuck;
      ghost var v := State();
      BestGrows(seqId, best, b);
      KeepsStuckTwice(chain.vChain, chain.vChain, chain.vChain, disconnects);
      ok := connects(b);
      if ok {
        ExtendedIsValid(v, best, connects, b, chain);
        ConnectKeepsInv(v, v.(active := PathTo(b)), best, connects, b);
        ActiveIsPath(v, best, connects);
        ConnectKeepsStuck(chain.vChain, b, disconnects);
        chain.SetTip(b);
        nTipChanges := nTipChanges + 1;
        best := BestOf(seqId, best, b);
      } else {
        RefusedIsInvalid(b, connects, failed + {b});
        failed := failed + {b};
        candidates := candidates - {b};
        DropKeepsInv(v, State(), best, connects);
      }
    }

    /** DisconnectTip: nothing changes when the block cannot be disconnected cleanly. */
    method DisconnectTip() returns (ok: bool)
      requires Valid() && chain.Tip() != null
      modifies `nTipChanges, chain
      ensures Valid() && ok == disconnects(old(chain.Tip()), old(nTipChanges))
      ensures chain.vChain == if ok then old(chain.vChain)[..|old(chain.vChain)| - 1] else old(chain.vChain)
      ensures nTipChanges == old(nTipChanges) + if ok then 1 else 0
    {
      hide CBlockIndex.Built, CBlockIndex.Linked, CBlockIndex.Ancestor, Inv, Usable, Worse, ValidPath, IsPath, PathTo;
      ActiveIsPath(State(), best, connects);
      ghost var v := State();
      var tip := chain.Tip();
      TipIsBuilt(chain);
      StepDown(tip, tip);
      ok := disconnects(tip, nTipChanges);
      if ok {
        chain.SetTip(tip.pprev);
        nTipChanges := nTipChanges + 1;
        ParentPath(v.active, tip);
        DisconnectKeepsInv(v, State(), best, connects);
      }
    }

    /** PruneBlockIndexCandidates; `keep` is the block the node works towards. */
    method PruneBlockIndexCandidates(ghost keep: CBlockIndex)
      requires Valid() && chain.Tip() != null && best != null && !Worse(seqId, best, chain.Tip())
      requires keep in candidates && !Worse(seqId, keep, chain.Tip())
      modifies `candidates
      ensures Valid() && candidates == set c | c in old(candidates) && !Worse(seqId, c, chain.Tip())
    {
      hide Inv, Worse;
      ghost var v := State();
      var tip := chain.Tip();
      var rest := candidates;
      while rest != {}
        invariant rest <= v.candidates && candidates <= v.candidates && keep in candidates
        invariant forall c | c in v.candidates - candidates :: Worse(seqId, c, tip)
        invariant forall c | c in candidates - rest :: !Worse(seqId, c, tip)
        decreases |rest|
      {
        var c :| c in rest;
        if Worse(seqId, c, tip) {
          candidates := candidates - {c};
        }
        rest := rest - {c};
      }
      assert candidates != {};  // the assertion of src/main.cpp:3084
      PruneKeepsInv(v, State(), best, connects, tip);
    }

    /** Disconnect active blocks until the fork is the tip, or all of them when there is none. It stops
        early exactly when one of them refuses. */
    method DisconnectToFork(fork: CBlockIndex?) returns (ok: bool)
      requires Valid()
      requires fork != null ==> fork.Linked() && chain.Contains(fork)
      modifies `nTipChanges, chain
      ensures Valid()
      ensures ok <==> YieldedFrom(old(chain.vChain), if fork == null then 0 else fork.nHeight + 1, old(nTipChanges), disconnects)
      ensures ok ==> chain.Tip() == fork
      ensures !ok ==> chain.Tip() != null && !disconnects(chain.Tip(), nTipChanges)
      ensures !ok && fork != null ==> fork.nHeight + 1 < |chain.vChain|
      ensures chain.vChain <= old(chain.vChain) && KeepsStuck(old(chain.vChain), chain.vChain, disconnects)
    {
      hide CBlockIndex.Built, CBlockIndex.Linked, CBlockIndex.Ancestor, Inv, Usable, Worse, ValidPath, PathTo;
      hide YieldedFrom, KeepsStuck, IsPath, LastOf;
      ghost var was, low := chain.vChain, if fork == null then 0 else fork.nHeight + 1;
      ActiveIsPath(State(), best, connects);
      NothingTaken(was, nTipChanges, disconnects);
      while chain.Tip() != null && chain.Tip() != fork
        invariant Valid() && low <= |chain.vChain| <= |was| && chain.vChain == was[..|chain.vChain|]
        invariant nTipChanges == old(nTipChanges) + |was| - |chain.vChain|
        invariant YieldedFrom(was, |chain.vChain|, old(nTipChanges), disconnects)
        decreases |chain.vChain|
      {
        var tip := chain.Tip();
        assert fork != null ==> chain.vChain[fork.nHeight] == fork;
        OneMoreYields(was, |chain.vChain|, low, old(nTipChanges), disconnects);
        ok := DisconnectTip();
        if !ok {
          StuckPrefix(was, |chain.vChain|, old(nTipChanges), disconnects);
          return;
        }
      }
      ok := true;
      ActiveIsPath(State(), best, connects);
      assert chain.Tip() == LastOf(chain.vChain) by { TipIsLast(chain); }
      TipHeight(chain.vChain);
      StuckPrefix(was, |chain.vChain|, old(nTipChanges), disconnects);
    }

    /** The blocks to connect, highest first: those on the path to `mostWork` above height `low`,
        up to height `target`. */
    method BlocksToConnect(mostWork: CBlockIndex, low: int, target: nat) returns (list: seq<CBlockIndex>)
      requires mostWork.Built() && mostWork.Linked() && -1 <= low < target <= mostWork.nHeight
      ensures |list| == target - low
      ensures forall i | 0 <= i < |list| :: list[i] == mostWork.Ancestor(target - i)
    {
      hide CBlockIndex.Built, CBlockIndex.Ancestor, CBlockIndex.Linked;
      list := [];
      ghost var steps;
      var iter;
      iter, steps := mostWork.GetAncestor(target);
      while iter != null && iter.nHeight != low
        invariant |list| <= target - low
        invariant if iter == null then low == -1 && |list| == target + 1
                  else iter.Built() && iter.Linked() && iter.nHeight == target - |list| && iter == mostWork.Ancestor(iter.nHeight)
        invariant forall i | 0 <= i < |list| :: list[i] == mostWork.Ancestor(target - i)
        decreases target + 1 - |list|
      {
        list := list + [iter];
        StepDown(mostWork, iter);
        iter := iter.pprev;
      }
    }

    /** One batch of the inner loop of ActivateBestChainStep: connects the blocks in order until one
        is refused, or the tip has more work than before. */
    method ConnectBatch(mostWork: CBlockIndex, low: int, target: nat, oldTip: CBlockIndex?)
      returns (goOn: bool, invalid: bool)
      requires Valid() && mostWork in candidates && mostWork.Built() && mostWork.Linked() && Usable(mostWork, failed)
      requires -1 <= low < target <= mostWork.nHeight
      requires chain.Tip() == if low == -1 then null else mostWork.Ancestor(low)
      requires NoneBefore(seqId, candidates, chain.Tip())
      modifies this`candidates, this`failed, this`best, this`nTipChanges, chain
      ensures Valid() && candidates <= old(candidates) && AtLeast(seqId, best, old(best))
      ensures NoneBefore(seqId, candidates, chain.Tip()) && KeepsStuck(old(chain.vChain), chain.vChain, disconnects)
      ensures if invalid then !goOn && old(failed) < failed else failed == old(failed) && mostWork in candidates
      ensures goOn ==> chain.Tip() == mostWork.Ancestor(target)
      ensures !goOn && !invalid ==> chain.Tip() != null && (oldTip == null || chain.Tip().nChainWork > oldTip.nChainWork)
    {
      hide CBlockIndex.Built, CBlockIndex.Linked, CBlockIndex.Ancestor, Inv, Usable, Worse, ValidPath, IsPath, PathTo,
           AtLeast, Ahead, KeepsStuck;
      AtLeastTwice(seqId, best, best, best);
      KeepsStuckTwice(chain.vChain, chain.vChain, chain.vChain, disconnects);
      var list := BlocksToConnect(mostWork, low, target);
      var i := |list|;
      while i > 0
        invariant 0 <= i <= |list|
        invariant Valid() && mostWork in candidates && candidates <= old(candidates) && failed == old(failed)
        invariant AtLeast(seqId, best, old(best)) && NoneBefore(seqId, candidates, chain.Tip())
        invariant KeepsStuck(old(chain.vChain), chain.vChain, disconnects)
        invariant var h := target - i; chain.Tip() == if h == -1 then null else mostWork.Ancestor(h)
      {
        i := i - 1;
        var b := list[i];
        ghost var h := target - i;
        CandidatesAreLinked(State(), best, connects, mostWork, h);
        StepDown(mostWork, b);
        NotFailed(mostWork, h, failed);
        ghost var best0, chain0 := best, chain.vChain;
        var ok := ConnectTip(b);
        AtLeastTwice(seqId, best, best0, old(best));
        KeepsStuckTwice(old(chain.vChain), chain0, chain.vChain, disconnects);
        if !ok {
          return false, true;
        }
        PathEnds(b);
        WorkGrows(mostWork, h, seqId);
        PruneBlockIndexCandidates(mostWork);
        if oldTip == null || chain.Tip().nChainWork > oldTip.nChainWork {
          return false, false;
        }
      }
      return true, false;
    }

    /** ActivateBestChainStep: it fails exactly when an active block off the path to `mostWork` refuses
        to be disconnected. The tip is then that block, and nothing else has changed. Otherwise
        either a new block turned out invalid, or the tip is the block that was worked towards,
        or it has more work than before. */
    method ActivateBestChainStep(mostWork: CBlockIndex) returns (ok: bool, invalid: bool)
      requires Valid() && mostWork in candidates && mostWork.Built() && mostWork.Linked() && Usable(mostWork, failed)
      requires NoneBefore(seqId, candidates, chain.Tip())
      modifies this`candidates, this`failed, this`best, this`nTipChanges, chain
      ensures Valid() && candidates <= old(candidates) && AtLeast(seqId, best, old(best))
      ensures NoneBefore(seqId, candidates, chain.Tip()) && KeepsStuck(old(chain.vChain), chain.vChain, disconnects)
      ensures ok <==> AllYield(old(chain.vChain), mostWork, old(nTipChanges), disconnects)
      ensures !ok ==> chain.vChain <= old(chain.vChain) && chain.Tip() != null && !disconnects(chain.Tip(), nTipChanges)
      ensures !ok ==> !AncestorOf(chain.Tip(), mostWork)
      ensures !ok ==> candidates == old(candidates) && failed == old(failed) && best == old(best)
      ensures ok ==> if invalid then old(failed) < failed else failed == old(failed) && mostWork in candidates
      ensures ok && !invalid ==> chain.Tip() != null
      ensures ok && !invalid && chain.Tip() != mostWork && old(chain.Tip()) != null ==>
                chain.Tip().nChainWork > old(chain.Tip().nChainWork)
    {
      hide CBlockIndex.Built, CBlockIndex.Linked, CBlockIndex.Ancestor, Inv, Usable, Worse, ValidPath, IsPath, PathTo,
           YieldedFrom, AllYield, KeepsStuck, NoneBefore;
      ghost var was := chain.vChain;
      var oldTip := chain.Tip();
      ActiveIsPath(State(), best, connects);
      var fork := chain.FindFork(mostWork);
      ForkIsHighest(chain, mostWork, fork);
      YieldedIsAllYield(was, mostWork, fork, nTipChanges, disconnects);
      AtLeastTwice(seqId, best, best, best);
      invalid := false;
      ok := DisconnectToFork(fork);
      BelowNoneBefore(seqId, candidates, was, chain.vChain);
      if !ok {
        OffPathIff(was, mostWork, fork, |chain.vChain| - 1);
        return;
      }
      var height := if fork == null then -1 else fork.nHeight;
      BuiltIsLinked(mostWork);
      var goOn := true;
      while goOn && height != mostWork.nHeight
        invariant Valid() && candidates <= old(candidates) && -1 <= height <= mostWork.nHeight
        invariant AtLeast(seqId, best, old(best)) && NoneBefore(seqId, candidates, chain.Tip())
        invariant KeepsStuck(was, chain.vChain, disconnects)
        invariant if invalid then !goOn && old(failed) < failed else failed == old(failed) && mostWork in candidates
        invariant goOn ==> chain.Tip() == if height == -1 then null else mostWork.Ancestor(height)
        invariant !goOn && !invalid ==> chain.Tip() != null && (oldTip == null || chain.Tip().nChainWork > oldTip.nChainWork)
        decreases mostWork.nHeight - height, goOn
      {
        var target := if height + 32 < mostWork.nHeight then height + 32 else mostWork.nHeight;
        ghost var best0, chain0 := best, chain.vChain;
        goOn, invalid := ConnectBatch(mostWork, height, target, oldTip);
        AtLeastTwice(seqId, best, best0, old(best));
        KeepsStuckTwice(was, chain0, chain.vChain, disconnects);
        height := target;
      }
    }

    /** Between calls no candidate sorts before the tip, and sequence ids tell in which order blocks
        became complete. */
    ghost predicate Calm()
      reads this, chain
    {
      Valid() && NoneBefore(seqId, candidates, chain.Tip()) && SeqOk(seqId, nChainTx.Keys, nBlockSequenceId)
    }

    /** At rest, the tip is also the best block that was ever active. */
    ghost predicate AtRest()
      reads this, chain
    {
      Calm() && best == chain.Tip()
    }

    /** The tip is the best of all blocks whose data is complete and that connect from genesis on. */
    ghost predicate TipIsBestValid()
      requires Valid()
      reads this, chain
    {
      forall b | b in nChainTx && b.Linked() && ValidPath(b, connects) ::
        chain.Tip() != null && !Worse(seqId, chain.Tip(), b)
    }

    /** Every other complete valid block has less work than the tip, or as much and was complete later. */
    ghost predicate TipIsFirst()
      requires Valid()
      reads this, chain
    {
      forall b | b in nChainTx && b.Linked() && ValidPath(b, connects) ::
        && chain.Tip() != null && chain.Tip() in seqId && b in seqId
        && (b == chain.Tip() || b.nChainWork < chain.Tip().nChainWork
            || (b.nChainWork == chain.Tip().nChainWork && seqId[chain.Tip()] < seqId[b]))
    }

    lemma BestIsFirst()
      requires Calm() && TipIsBestValid()
      ensures TipIsFirst()
    {
      hide CBlockIndex.Built, CBlockIndex.Linked, CBlockIndex.Ancestor, Usable, ValidPath, IsPath, TreeOk, DataOk, CountsOk, FailedOk,
           CandidatesOk, BestOk, Worse;
      forall b | b in nChainTx && b.Linked() && ValidPath(b, connects)
        ensures chain.Tip() != null && chain.Tip() in seqId && b in seqId
        ensures b == chain.Tip() || b.nChainWork < chain.Tip().nChainWork
                || (b.nChainWork == chain.Tip().nChainWork && seqId[chain.Tip()] < seqId[b])
      {
        WorseIff(seqId, chain.Tip(), b);
      }
    }

    /** The tip refuses to be disconnected although `target`, a usable candidate on another path that no
        candidate sorts after, would be better. */
    ghost predicate BlockedFrom(target: CBlockIndex)
      reads this, chain
    {
      && chain.Tip() != null && !disconnects(chain.Tip(), nTipChanges)
      && target in candidates && target.Linked() && Usable(target, failed) && !AncestorOf(chain.Tip(), target)
      && Worse(seqId, chain.Tip(), target) && forall c | c in candidates :: !Worse(seqId, target, c)
    }

    /** ActivateBestChain ends: every round finds an invalid block, gains work, or fails. When it succeeds
        the tip is the best of all complete and valid blocks, never a worse one than any before.
        It fails only when the tip has refused to be disconnected on the way to a better
        candidate; if that candidate is valid, the tip is not the best. So where every block
        connects, it succeeds exactly when the tip is the best. Without refusals it never fails,
        and blocks that always refuse are never taken off. */
    method ActivateBestChain() returns (ok: bool, ghost target: CBlockIndex?)
      requires Calm()
      modifies this`candidates, this`failed, this`best, this`nTipChanges, chain
      ensures Calm() && old(failed) <= failed && AtLeast(seqId, best, old(best))
      ensures KeepsStuck(old(chain.vChain), chain.vChain, disconnects)
      ensures ok ==> AtRest() && TipIsBestValid() && TipIsFirst() && candidates <= {chain.Tip()}
      ensures old(chain.Tip()) != null && old(candidates) <= {old(chain.Tip())} ==> ok && chain.vChain == old(chain.vChain)
      ensures !ok ==> target != null && BlockedFrom(target) && (ValidPath(target, connects) ==> !TipIsBestValid())
      ensures (forall b | b in blocks :: connects(b)) ==> (ok <==> TipIsBestValid())
      ensures (forall b, n: nat | b in blocks :: disconnects(b, n)) ==> ok
    {
      hide CBlockIndex.Built, CBlockIndex.Linked, CBlockIndex.Ancestor, Inv, Usable, Worse, ValidPath, IsPath, PathTo,
           AtLeast, Ahead, SeqOk, KeepsStuck, AllYield, NoneBefore, TipIsFirst;
      AtLeastTwice(seqId, best, best, best);
      KeepsStuckTwice(chain.vChain, chain.vChain, chain.vChain, disconnects);
      target := null;
      while true
        invariant Valid() && old(failed) <= failed && AtLeast(seqId, best, old(best)) && NoneBefore(seqId, candidates, chain.Tip())
        invariant KeepsStuck(old(chain.vChain), chain.vChain, disconnects)
        invariant old(chain.Tip()) != null && old(candidates) <= {old(chain.Tip())} ==>
                    chain.vChain == old(chain.vChain) && candidates <= {chain.Tip()}
        decreases |blocks - failed|, |Ahead(blocks, chain.Tip())|
      {
        ghost var failed0, tip0, bestBefore, chain0 := failed, chain.Tip(), best, chain.vChain;
        ghost var candidates0 := candidates;
        var mostWork := FindMostWorkChain();
        StillNoneBefore(seqId, candidates0, candidates, chain.Tip());
        if mostWork == null || mostWork == chain.Tip() {
          Settled(State(), best, connects, chain, mostWork);
          OnlyTipLeft(State(), best, connects, chain, mostWork);
          BestIsFirst();
          return true, null;
        }
        ghost var v, moves := State(), nTipChanges;
        var invalid;
        ok, invalid := ActivateBestChainStep(mostWork);
        AtLeastTwice(seqId, best, bestBefore, old(best));
        KeepsStuckTwice(old(chain.vChain), chain0, chain.vChain, disconnects);
        if !ok {
          target := mostWork;
          SomeRefused(v, best, connects, mostWork, moves, disconnects);
          BlockedWorse(v, best, connects, chain.vChain, mostWork);
          AllConnectIsValid(v, best, connects, mostWork);
          return;
        }
        if !invalid && chain.Tip() == mostWork {
          Settled(State(), best, connects, chain, mostWork);
          OnlyTipLeft(State(), best, connects, chain, mostWork);
          BestIsFirst();
          return true, null;
        }
        FailedAreBlocks(State(), best, connects);
        if invalid {
          SubsetCount(blocks - failed, blocks - failed0);
        } else {
          SubsetCount(blocks - failed, blocks - failed0);
          TipIsBlock(State(), best, connects, chain);
          GetsAhead(blocks, tip0, chain.Tip());
        }
      }
    }

    // ----- taking in blocks -----

    /** AddToBlockIndex: a header whose parent is known, or the genesis block. */
    method AddToBlockIndex(prev: CBlockIndex?, hash: nat, work: nat, address: nat) returns (b: CBlockIndex)
      requires Calm() && work > 0 && (prev != null ==> prev in blocks)
      requires forall x | x in blocks :: x.address != address
      modifies `blocks
      ensures Calm() && blocks == old(blocks) + {b} && b !in old(blocks) && b.pprev == prev
      ensures b.address == address && b.nChainWork == (if prev == null then 0 else prev.nChainWork) + work
      ensures fresh(b) && b !in nTx && b !in failed
    {
      hide CBlockIndex.Built, CBlockIndex.Linked, CBlockIndex.Ancestor, Usable, Worse, ValidPath, IsPath, PathTo;
      ghost var v := State();
      if prev == null {
        b := new CBlockIndex.Genesis(hash, work, address);
      } else {
        b := new CBlockIndex.After(hash, prev, work, address);
      }
      BuiltIsLinked(b);
      assert b !in nTx && b !in failed by { OnlyKnown(v, best, connects, b); }
      blocks := blocks + {b};
      HeaderKeepsInv(v, State(), best, connects, b);
    }

    /** A block that fails its own checks is marked before its data is stored. */
    method RejectBlock(b: CBlockIndex)
      requires Calm() && b in blocks && b !in nTx && !connects(b)
      modifies `failed
      ensures Calm() && failed == old(failed) + {b}
    {
      ghost var v := State();
      failed := failed + {b};
      RejectKeepsInv(v, State(), best, connects, b);
    }

    /** ReceivedBlockTransactions: the block and all waiting descendants whose data is now complete
        get linked, in an order from parents to children, and become candidates unless they sort
        before the tip. */
    method ReceivedBlockTransactions(b: CBlockIndex, txs: nat)
      requires Calm() && b in blocks && b !in nTx && b !in failed && txs > 0
      modifies `nTx, `nChainTx, `seqId, `candidates, `unlinked, `nBlockSequenceId
      ensures Calm() && nTx == old(nTx)[b := txs]
      ensures SeqLater(old(seqId), seqId, old(nBlockSequenceId)) && OnlyNewJoin(old(candidates), candidates, old(seqId), seqId)
    {
      hide CBlockIndex.Built, CBlockIndex.Linked, CBlockIndex.Ancestor, Usable, Worse, ValidPath, IsPath, PathTo, Inv, Waiting,
           SeqOk, SeqLater, OnlyNewJoin;
      ghost var v := State();
      ghost var was := seqId;
      SeqSame(was, nBlockSequenceId);
      NoneJoined(candidates, was);
      nTx := nTx[b := txs];
      if b.pprev == null || b.pprev in nChainTx {
        DataArrives(v, State(), best, connects, b, txs);
        LinkQueue([b]);
        NoneWaiting(State(), best, connects);
      } else {
        if b.pprev !in failed {
          unlinked := unlinked + {(b.pprev, b)};
        }
        MustWait(v, State(), best, connects, b, txs);
      }
    }

    /** Link the blocks of the queue, and recursively all that waited for them. */
    method LinkQueue(start: seq<CBlockIndex>)
      requires Waiting(State(), best, connects, start) && NoneBefore(seqId, candidates, chain.Tip())
      requires SeqOk(seqId, nChainTx.Keys, nBlockSequenceId)
      modifies `nChainTx, `seqId, `candidates, `unlinked, `nBlockSequenceId
      ensures Waiting(State(), best, connects, []) && NoneBefore(seqId, candidates, chain.Tip())
      ensures SeqOk(seqId, nChainTx.Keys, nBlockSequenceId) && SeqLater(old(seqId), seqId, old(nBlockSequenceId))
      ensures OnlyNewJoin(old(candidates), candidates, old(seqId), seqId)
    {
      hide LinkedView, InRound, Waiting, NoneBefore, SeqOk, SeqLater, Worse, Fetched, LastOf, OnlyNewJoin;
      assert chain.Tip() == LastOf(chain.vChain) by { TipIsLast(chain); }
      ghost var was, next := seqId, nBlockSequenceId;
      FirstRound(State(), best, connects, start, next);
      NoneJoined(candidates, was);
      var queue := start;
      while queue != []
        invariant InRound(State(), best, connects, queue, nBlockSequenceId, was, next)
        invariant OnlyNewJoin(old(candidates), candidates, was, seqId)
        decreases |blocks - nChainTx.Keys|
      {
        ghost var v, q := State(), nBlockSequenceId;
        var x := queue[0];
        NextRound(v, best, connects, queue, x, q, was, next);
        var children := LinkBlock(x);
        RoundDone(v, State(), best, connects, queue, children, x, q, nBlockSequenceId, was, next);
        RoundJoins(old(candidates), v, best, connects, queue, x, q, was, next);
        queue := queue[1..] + children;
      }
      LastRound(State(), best, connects, nBlockSequenceId, was, next);
    }

    /** Link `x`, and fetch the blocks that waited for it. */
    method LinkBlock(x: CBlockIndex) returns (children: seq<CBlockIndex>)
      requires x in nTx
      modifies `nChainTx, `seqId, `candidates, `unlinked, `nBlockSequenceId
      ensures State() == LinkedView(old(State()), x, old(nBlockSequenceId), chain.Tip())
      ensures nBlockSequenceId == old(nBlockSequenceId) + 1
      ensures Fetched(children, x, old(unlinked))
    {
      hide Worse;
      nChainTx := nChainTx[x := (if x.pprev != null && x.pprev in nChainTx then nChainTx[x.pprev] else 0) + nTx[x]];
      seqId := seqId[x := nBlockSequenceId];
      nBlockSequenceId := nBlockSequenceId + 1;
      if chain.Tip() == null || !Worse(seqId, x, chain.Tip()) {
        candidates := candidates + {x};
      }
      children := TakeChildren(x);
    }

    /** Move the blocks that wait for `x` out of mapBlocksUnlinked. */
    method TakeChildren(x: CBlockIndex) returns (children: seq<CBlockIndex>)
      modifies `unlinked
      ensures unlinked == old(unlinked) - (set e | e in old(unlinked) && e.0 == x)
      ensures Fetched(children, x, old(unlinked))
    {
      children := [];
      var rest := set e | e in unlinked && e.0 == x;
      ghost var all := rest;
      while rest != {}
        invariant rest <= all
        invariant unlinked == old(unlinked) - (all - rest)
        invariant forall c :: c in children <==> (x, c) in all - rest
        invariant forall i, j | 0 <= i < j < |children| :: children[i] != children[j]
        decreases |rest|
      {
        var e :| e in rest;
        assert e == (x, e.1);
        children := children + [e.1];
        unlinked := unlinked - {e};
        rest := rest - {e};
      }
    }
  }

  lemma FailedAreBlocks(v: View, best: CBlockIndex?, connects: Verdict)
    requires Inv(v, best, connects)
    ensures v.failed <= v.blocks
  {
  }

  lemma TipIsBlock(v: View, best: CBlockIndex?, connects: Verdict, chain: CChain)
    requires Inv(v, best, connects) && v.active == chain.vChain && chain.Tip() != null
    ensures chain.Tip() in v.blocks
  {
  }

  lemma GetsAhead(blocks: set<CBlockIndex>, a: CBlockIndex?, b: CBlockIndex)
    requires b in blocks && (a == null || b.nChainWork > a.nChainWork)
    ensures |Ahead(blocks, b)| < |Ahead(blocks, a)|
  {
    assert b in Ahead(blocks, a) && b !in Ahead(blocks, b);
    SubsetCount(Ahead(blocks, b), Ahead(blocks, a));
  }

  /** Without candidates there is no valid block at all. */
  lemma NothingValid(v: View, best: CBlockIndex?, connects: Verdict, b: CBlockIndex)
    requires Inv(v, best, connects) && v.candidates == {} && b in v.nChainTx && b.Linked()
    ensures !ValidPath(b, connects)
  {
    hide IsPath, Worse, ValidPath, Usable;
    if ValidPath(b, connects) {
      ValidIsUsable(v, b, connects);
      if best != null {
        ValidIsUsable(v, best, connects);
        WorseIsOrder(v.seqId, best, best, best);
      }
      assert false;
    }
  }

  /** When no candidate sorts after the tip, the node is at rest on the best valid block. */
  lemma Settled(v: View, best: CBlockIndex?, connects: Verdict, chain: CChain, mostWork: CBlockIndex?)
    requires Inv(v, best, connects) && v.active == chain.vChain
    requires mostWork == null ==> v.candidates == {}
    requires mostWork != null ==> mostWork == chain.Tip() && forall c | c in v.candidates :: !Worse(v.seqId, mostWork, c)
    ensures best == chain.Tip()
    ensures forall b | b in v.nChainTx && b.Linked() && ValidPath(b, connects) :: chain.Tip() != null && !Worse(v.seqId, chain.Tip(), b)
    ensures AtLeast(v.seqId, chain.Tip(), best)
  {
    hide IsPath, Worse, ValidPath, Usable, CandidatesOk, FailedOk, CountsOk, TreeOk;
    if mostWork == null {
      if best != null {
        NothingValid(v, best, connects, best);
      }
      forall b | b in v.nChainTx && b.Linked()
        ensures !ValidPath(b, connects)
      {
        NothingValid(v, best, connects, b);
      }
    } else {
      var tip := v.active[|v.active| - 1];
      assert tip == chain.Tip();
      TipIsBest(v, best, connects, tip, tip);
      SameBest(v, best, connects, tip);
      forall b | b in v.nChainTx && b.Linked() && ValidPath(b, connects)
        ensures !Worse(v.seqId, tip, b)
      {
        TipIsBest(v, best, connects, tip, b);
      }
    }
  }

  /** Then the tip is the only candidate left. */
  lemma OnlyTipLeft(v: View, best: CBlockIndex?, connects: Verdict, chain: CChain, mostWork: CBlockIndex?)
    requires Inv(v, best, connects) && v.active == chain.vChain && NoneBefore(v.seqId, v.candidates, chain.Tip())
    requires mostWork == null ==> v.candidates == {}
    requires mostWork != null ==> mostWork == chain.Tip() && forall c | c in v.candidates :: !Worse(v.seqId, mostWork, c)
    ensures v.candidates <= {chain.Tip()}
  {
    hide CBlockIndex.Built, CBlockIndex.Linked, CBlockIndex.Ancestor, IsPath, Worse, ValidPath, Usable, DataOk, CountsOk, FailedOk;
    if mostWork != null {
      TipIsBlock(v, best, connects, chain);
      forall c | c in v.candidates
        ensures c == mostWork
      {
        assert c in v.blocks by { CandidateIsBlock(v, best, connects, c); }
        WorseIsOrder(v.seqId, mostWork, c, c);
      }
    }
  }

  lemma CandidateIsBlock(v: View, best: CBlockIndex?, connects: Verdict, c: CBlockIndex)
    requires Inv(v, best, connects) && c in v.candidates
    ensures c in v.blocks
  {
    hide CBlockIndex.Built, CBlockIndex.Linked, CBlockIndex.Ancestor, IsPath, Worse, ValidPath, Usable;
  }

  lemma SameBest(v: View, best: CBlockIndex?, connects: Verdict, tip: CBlockIndex)
    requires Inv(v, best, connects) && v.active != [] && v.active[|v.active| - 1] == tip
    requires best != null && !Worse(v.seqId, tip, best)
    ensures best == tip
  {
    hide IsPath, CandidatesOk, FailedOk, CountsOk;
    WorseIsOrder(v.seqId, tip, best, tip);
    assert best in v.blocks && tip in v.blocks;
  }

  lemma OnlyKnown(v: View, best: CBlockIndex?, connects: Verdict, b: CBlockIndex)
    requires Inv(v, best, connects) && b !in v.blocks
    ensures b !in v.nTx && b !in v.failed
  {
  }

  lemma HeaderKeepsInv(v: View, v': View, best: CBlockIndex?, connects: Verdict, b: CBlockIndex)
    requires Inv(v, best, connects) && b !in v.blocks && b.Built() && b.Linked() && (b.pprev != null ==> b.pprev in v.blocks)
    requires v' == v.(blocks := v.blocks + {b}) && forall x | x in v.blocks :: x.address != b.address
    ensures Inv(v', best, connects)
  {
    hide CBlockIndex.Built, CBlockIndex.Linked, CBlockIndex.Ancestor, Usable, Worse, ValidPath, IsPath;
  }

  lemma RejectKeepsInv(v: View, v': View, best: CBlockIndex?, connects: Verdict, b: CBlockIndex)
    requires Inv(v, best, connects) && b in v.blocks && b !in v.nTx && !connects(b)
    requires v' == v.(failed := v.failed + {b})
    ensures Inv(v', best, connects)
  {
    hide CBlockIndex.Built, CBlockIndex.Linked, CBlockIndex.Ancestor, Worse, IsPath, ValidPath, Usable;
    RefusedIsInvalid(b, connects, v'.failed);
    forall x | x in v.nChainTx
      ensures x.Linked() && (Usable(x, v'.failed) ==> Usable(x, v.failed))
    {
      UsableShrinks(x, v.failed, v'.failed);
    }
  }

  // ----- linking -----

  /** As Inv, but the blocks of the queue have their data and a linked parent and are not linked
      yet; they are not among the unlinked any more. */
  ghost predicate DataWaiting(v: View, queue: seq<CBlockIndex>) {
    && v.nChainTx.Keys <= v.nTx.Keys <= v.blocks
    && (forall b | b in v.nChainTx :: b.pprev != null ==> b.pprev in v.nChainTx)
    && (forall b | b in v.nTx && (b.pprev == null || b.pprev in v.nChainTx) :: b in v.nChainTx || b in queue)
    && (forall b | b in v.nTx && b !in v.nChainTx && b.pprev !in v.failed :: (b.pprev, b) in v.unlinked || b in queue)
    && (forall e | e in v.unlinked :: e.1 in v.nTx && e.1 !in v.nChainTx && e.1.pprev == e.0 && e.1 !in queue)
    && (forall b | b in v.failed && b in v.nTx :: b in v.nChainTx)
    && (forall b | b in queue :: b in v.nTx && b !in v.nChainTx && (b.pprev == null || b.pprev in v.nChainTx))
    && (forall i, j | 0 <= i < j < |queue| :: queue[i] != queue[j])
  }

  ghost predicate Waiting(v: View, best: CBlockIndex?, connects: Verdict, queue: seq<CBlockIndex>) {
    && TreeOk(v.blocks) && DataWaiting(v, queue) && CountsOk(v) && ActiveOk(v, connects) && FailedOk(v, connects)
    && CandidatesOk(v, best) && BestOk(v, best, connects)
  }

  /** `children` are the blocks that wait for `x`, each once. */
  ghost predicate Fetched(children: seq<CBlockIndex>, x: CBlockIndex, unlinked: set<(CBlockIndex, CBlockIndex)>) {
    && (forall c | c in children :: (x, c) in unlinked)
    && (forall e | e in unlinked && e.0 == x :: e.1 in children)
    && (forall i, j | 0 <= i < j < |children| :: children[i] != children[j])
  }

  lemma DataArrives(v: View, v': View, best: CBlockIndex?, connects: Verdict, b: CBlockIndex, txs: nat)
    requires Inv(v, best, connects) && b in v.blocks && b !in v.nTx && b !in v.failed && txs > 0
    requires b.pprev == null || b.pprev in v.nChainTx
    requires v' == v.(nTx := v.nTx[b := txs])
    ensures Waiting(v', best, connects, [b])
  {
    hide CBlockIndex.Built, CBlockIndex.Linked, CBlockIndex.Ancestor, Usable, Worse, ValidPath, IsPath, TreeOk;
  }

  lemma MustWait(v: View, v': View, best: CBlockIndex?, connects: Verdict, b: CBlockIndex, txs: nat)
    requires Inv(v, best, connects) && b in v.blocks && b !in v.nTx && b !in v.failed && txs > 0
    requires b.pprev != null && b.pprev !in v.nChainTx
    requires v' == v.(nTx := v.nTx[b := txs], unlinked := if b.pprev in v.failed then v.unlinked else v.unlinked + {(b.pprev, b)})
    ensures Inv(v', best, connects)
  {
    hide CBlockIndex.Built, CBlockIndex.Linked, CBlockIndex.Ancestor, Usable, Worse, ValidPath, IsPath, TreeOk;
  }

  lemma NoneWaiting(v: View, best: CBlockIndex?, connects: Verdict)
    requires Waiting(v, best, connects, [])
    ensures Inv(v, best, connects)
  {
    hide CBlockIndex.Built, CBlockIndex.Linked, CBlockIndex.Ancestor, Usable, Worse, ValidPath, IsPath, TreeOk;
  }

  lemma QueueHead(v: View, best: CBlockIndex?, connects: Verdict, queue: seq<CBlockIndex>)
    requires Waiting(v, best, connects, queue) && queue != []
    ensures queue[0] in v.blocks && queue[0] !in v.nChainTx && queue[0] in v.nTx
    ensures queue[0].pprev != null ==> queue[0].pprev in v.nChainTx
  {
  }

  ghost function ChainTxOf(v: View, x: CBlockIndex): nat
    requires x in v.nTx
  {
    (if x.pprev != null && x.pprev in v.nChainTx then v.nChainTx[x.pprev] else 0) + v.nTx[x]
  }

  /** The view after linking `x` with sequence number `q`. */
  ghost function LinkedView(v: View, x: CBlockIndex, q: nat, tip: CBlockIndex?): View
    requires x in v.nTx
  {
    v.(nChainTx := v.nChainTx[x := ChainTxOf(v, x)], seqId := v.seqId[x := q],
       candidates := if tip == null || !Worse(v.seqId[x := q], x, tip) then v.candidates + {x} else v.candidates,
       unlinked := v.unlinked - (set e | e in v.unlinked && e.0 == x))
  }

  lemma LinkedFewer(v: View, x: CBlockIndex, q: nat, tip: CBlockIndex?)
    requires x in v.nTx && x in v.blocks && x !in v.nChainTx
    ensures var v' := LinkedView(v, x, q, tip); |v'.blocks - v'.nChainTx.Keys| < |v.blocks - v.nChainTx.Keys|
  {
    hide Worse;
    var v' := LinkedView(v, x, q, tip);
    assert x in v.blocks - v.nChainTx.Keys && x !in v'.blocks - v'.nChainTx.Keys;
    SubsetCount(v'.blocks - v'.nChainTx.Keys, v.blocks - v.nChainTx.Keys);
  }

  lemma LinkData(v: View, v': View, queue: seq<CBlockIndex>, children: seq<CBlockIndex>, x: CBlockIndex)
    requires DataWaiting(v, queue) && queue != [] && x == queue[0]
    requires v'.nChainTx.Keys == v.nChainTx.Keys + {x} && v'.nTx == v.nTx && v'.blocks == v.blocks && v'.failed == v.failed
    requires v'.unlinked == v.unlinked - (set e | e in v.unlinked && e.0 == x)
    requires Fetched(children, x, v.unlinked)
    ensures DataWaiting(v', queue[1..] + children)
  {
    var queue' := queue[1..] + children;
    assert queue == [x] + queue[1..];
    assert x !in queue[1..];
    assert forall b :: b in queue' <==> (b in queue && b != x) || b in children;
    assert x in v.nTx && x !in v.failed;
    forall i, j | 0 <= i < j < |queue'|
      ensures queue'[i] != queue'[j]
    {
      if i < |queue| - 1 <= j {
        assert queue'[j] in children && queue'[i] in queue;
      }
    }
  }

  lemma LinkCounts(v: View, x: CBlockIndex, q: nat, tip: CBlockIndex?, queue: seq<CBlockIndex>)
    requires DataWaiting(v, queue) && CountsOk(v) && x in queue
    ensures x in v.nTx && CountsOk(LinkedView(v, x, q, tip))
  {
  }

  /** The tip has complete data and does not sort after the best tip. */
  lemma ActiveTip(v: View, best: CBlockIndex?, connects: Verdict)
    requires ActiveOk(v, connects) && BestOk(v, best, connects)
    ensures best == null ==> v.active == []
    ensures best != null ==> best in v.nChainTx
    ensures v.active != [] ==> LastOf(v.active) != null && LastOf(v.active) in v.nChainTx
    ensures v.active != [] && best != null ==> !Worse(v.seqId, best, LastOf(v.active))
  {
    hide Worse, CBlockIndex.Built, CBlockIndex.Linked, CBlockIndex.Ancestor, ValidPath;
  }

  lemma LinkCandidates(v: View, x: CBlockIndex, q: nat, best: CBlockIndex?)
    requires CandidatesOk(v, best) && x in v.nTx && x !in v.nChainTx && x.Linked() && best != x && LastOf(v.active) != x
    requires best == null ==> v.active == []
    requires best != null && v.active != [] ==> LastOf(v.active) != null && !Worse(v.seqId, best, LastOf(v.active))
    ensures CandidatesOk(LinkedView(v, x, q, LastOf(v.active)), best)
  {
    hide CBlockIndex.Linked, Usable;
    forall b: CBlockIndex | b != x && best != null
      ensures Worse(v.seqId[x := q], b, best) == Worse(v.seqId, b, best)
    {
    }
  }

  /** A block that is linked late takes its place among the candidates only if it does not sort
      before the tip, and does not change the order of the others. */
  lemma LinkKeepsOrder(v: View, best: CBlockIndex?, connects: Verdict, queue: seq<CBlockIndex>, x: CBlockIndex, q: nat)
    requires Waiting(v, best, connects, queue) && queue != [] && x == queue[0] && NoneBefore(v.seqId, v.candidates, LastOf(v.active))
    ensures x in v.nTx && NoneBefore(LinkedView(v, x, q, LastOf(v.active)).seqId, LinkedView(v, x, q, LastOf(v.active)).candidates, LastOf(v.active))
  {
    hide CBlockIndex.Linked, CBlockIndex.Built, Usable, ValidPath, IsPath, TreeOk, CountsOk, ActiveOk, FailedOk;
    QueueHead(v, best, connects, queue);
    ActiveTip(v, best, connects);
    assert LastOf(v.active) != x && x !in v.candidates;
  }

  lemma SeqSame(seqId: map<CBlockIndex, nat>, next: nat)
    ensures SeqLater(seqId, seqId, next)
  {
  }

  lemma SeqGrows(seqId: map<CBlockIndex, nat>, linked: set<CBlockIndex>, x: CBlockIndex, q: nat, was: map<CBlockIndex, nat>, next: nat)
    requires SeqOk(seqId, linked, q) && SeqLater(was, seqId, next) && next <= q
    requires x !in linked && x.pprev != x && forall b | b in linked :: b.pprev != x
    ensures SeqOk(seqId[x := q], linked + {x}, q + 1) && SeqLater(was, seqId[x := q], next)
  {
  }

  /** What each round of the queue finds: `was` and `next` are the sequence ids at the start. */
  ghost predicate InRound(v: View, best: CBlockIndex?, connects: Verdict, queue: seq<CBlockIndex>, q: nat,
                          was: map<CBlockIndex, nat>, next: nat) {
    && Waiting(v, best, connects, queue) && NoneBefore(v.seqId, v.candidates, LastOf(v.active))
    && SeqOk(v.seqId, v.nChainTx.Keys, q) && SeqLater(was, v.seqId, next) && next <= q
  }

  lemma FirstRound(v: View, best: CBlockIndex?, connects: Verdict, queue: seq<CBlockIndex>, q: nat)
    requires Waiting(v, best, connects, queue) && NoneBefore(v.seqId, v.candidates, LastOf(v.active)) && SeqOk(v.seqId, v.nChainTx.Keys, q)
    ensures InRound(v, best, connects, queue, q, v.seqId, q)
  {
    hide Waiting, NoneBefore, SeqOk;
  }

  lemma LastRound(v: View, best: CBlockIndex?, connects: Verdict, q: nat, was: map<CBlockIndex, nat>, next: nat)
    requires InRound(v, best, connects, [], q, was, next)
    ensures Waiting(v, best, connects, []) && NoneBefore(v.seqId, v.candidates, LastOf(v.active))
    ensures SeqOk(v.seqId, v.nChainTx.Keys, q) && SeqLater(was, v.seqId, next)
  {
    hide Waiting, NoneBefore, SeqOk, SeqLater;
  }

  lemma NextRound(v: View, best: CBlockIndex?, connects: Verdict, queue: seq<CBlockIndex>, x: CBlockIndex, q: nat,
                  was: map<CBlockIndex, nat>, next: nat)
    requires InRound(v, best, connects, queue, q, was, next) && queue != [] && x == queue[0]
    ensures x in v.blocks && x !in v.nChainTx && x in v.nTx
    ensures |LinkedView(v, x, q, LastOf(v.active)).blocks - LinkedView(v, x, q, LastOf(v.active)).nChainTx.Keys| < |v.blocks - v.nChainTx.Keys|
  {
    hide Waiting, LinkedView, NoneBefore, SeqOk, SeqLater;
    QueueHead(v, best, connects, queue);
    LinkedFewer(v, x, q, LastOf(v.active));
  }

  lemma RoundDone(v: View, v': View, best: CBlockIndex?, connects: Verdict, queue: seq<CBlockIndex>, children: seq<CBlockIndex>,
                  x: CBlockIndex, q: nat, q': nat, was: map<CBlockIndex, nat>, next: nat)
    requires InRound(v, best, connects, queue, q, was, next) && queue != [] && x == queue[0] && q' == q + 1
    requires Fetched(children, x, v.unlinked)
    requires x in v.nTx && v' == LinkedView(v, x, q, LastOf(v.active))
    ensures InRound(v', best, connects, queue[1..] + children, q', was, next)
  {
    hide Waiting, NoneBefore, SeqOk, SeqLater, Worse, Fetched;
    LinkOne(v, best, connects, queue, children, x, q);
    LinkKeepsOrder(v, best, connects, queue, x, q);
    NoChildLinked(v, best, connects, queue, x);
    SeqGrows(v.seqId, v.nChainTx.Keys, x, q, was, next);
    assert LinkedView(v, x, q, LastOf(v.active)).nChainTx.Keys == v.nChainTx.Keys + {x};
  }

  lemma RoundJoins(before: set<CBlockIndex>, v: View, best: CBlockIndex?, connects: Verdict, queue: seq<CBlockIndex>, x: CBlockIndex,
                   q: nat, was: map<CBlockIndex, nat>, next: nat)
    requires InRound(v, best, connects, queue, q, was, next) && queue != [] && x == queue[0] && x in v.nTx
    requires OnlyNewJoin(before, v.candidates, was, v.seqId)
    ensures var v' := LinkedView(v, x, q, LastOf(v.active)); OnlyNewJoin(before, v'.candidates, was, v'.seqId)
  {
    hide Waiting, NoneBefore, Worse, OnlyNewJoin;
    QueueHead(v, best, connects, queue);
    OneJoins(before, v.candidates, was, v.seqId, x, q, LinkedView(v, x, q, LastOf(v.active)).candidates);
  }

  lemma NoChildLinked(v: View, best: CBlockIndex?, connects: Verdict, queue: seq<CBlockIndex>, x: CBlockIndex)
    requires Waiting(v, best, connects, queue) && queue != [] && x == queue[0]
    ensures x !in v.nChainTx && x.pprev != x && forall b | b in v.nChainTx :: b.pprev != x
  {
    hide TreeOk, CountsOk, ActiveOk, FailedOk, CandidatesOk, BestOk;
  }

  lemma LinkBest(v: View, x: CBlockIndex, q: nat, best: CBlockIndex?, connects: Verdict)
    requires ActiveOk(v, connects) && BestOk(v, best, connects) && x in v.nTx && x !in v.nChainTx
    ensures ActiveOk(LinkedView(v, x, q, LastOf(v.active)), connects) && BestOk(LinkedView(v, x, q, LastOf(v.active)), best, connects)
  {
    hide CBlockIndex.Linked, Usable, ValidPath, IsPath;
  }

  /** Linking the first block of the queue. */
  lemma LinkOne(v: View, best: CBlockIndex?, connects: Verdict, queue: seq<CBlockIndex>, children: seq<CBlockIndex>,
                x: CBlockIndex, q: nat)
    requires Waiting(v, best, connects, queue) && queue != [] && x == queue[0]
    requires Fetched(children, x, v.unlinked)
    ensures x in v.nTx && Waiting(LinkedView(v, x, q, LastOf(v.active)), best, connects, queue[1..] + children)
  {
    hide CBlockIndex.Built, CBlockIndex.Linked, CBlockIndex.Ancestor, Usable, ValidPath, IsPath, Worse, DataWaiting, CountsOk,
         ActiveOk, CandidatesOk;
    QueueHead(v, best, connects, queue);
    ActiveTip(v, best, connects);
    assert x.Linked();
    hide TreeOk, BestOk, LinkedView;
    LinkData(v, LinkedView(v, x, q, LastOf(v.active)), queue, children, x);
    LinkCounts(v, x, q, LastOf(v.active), queue);
    LinkCandidates(v, x, q, best);
    LinkBest(v, x, q, best, connects);
  }

  /** The blocks with more work than the tip. */
  ghost function Ahead(blocks: set<CBlockIndex>, tip: CBlockIndex?): set<CBlockIndex> {
    set b | b in blocks && (tip == null || b.nChainWork > tip.nChainWork)
  }

  lemma BestGrows(seqId: map<CBlockIndex, nat>, best: CBlockIndex?, tip: CBlockIndex)
    ensures AtLeast(seqId, BestOf(seqId, best, tip), best) && AtLeast(seqId, best, best)
  {
  }

  lemma NotFailed(b: CBlockIndex, h: nat, failed: set<CBlockIndex>)
    requires b.Linked() && Usable(b, failed) && h <= b.nHeight
    ensures b.Ancestor(h) !in failed
  {
  }

  /** An ancestor never sorts after its descendant. */
  lemma {:induction false} WorkGrows(b: CBlockIndex, h: nat, seqId: map<CBlockIndex, nat>)
    requires b.Linked() && h <= b.nHeight
    ensures !Worse(seqId, b, b.Ancestor(h))
    ensures h < b.nHeight ==> b.Ancestor(h).nChainWork < b.nChainWork
    decreases b.nHeight
  {
    if h < b.nHeight {
      WorkGrows(b.pprev, h, seqId);
    }
  }

  lemma TipIsBuilt(chain: CChain)
    requires chain.Valid() && chain.Tip() != null
    ensures chain.Tip().Built() && chain.Tip().Linked() && chain.vChain == PathTo(chain.Tip())
    ensures chain.vChain != [] && chain.vChain[|chain.vChain| - 1] == chain.Tip()
    ensures chain.Tip().Ancestor(chain.Tip().nHeight) == chain.Tip()
  {
  }

  lemma ActiveIsPath(v: View, best: CBlockIndex?, connects: Verdict)
    requires Inv(v, best, connects)
    ensures IsPath(v.active)
  {
  }

  /** A block that connects on top of the tip has a valid path. */
  lemma ExtendedIsValid(v: View, best: CBlockIndex?, connects: Verdict, b: CBlockIndex, chain: CChain)
    requires Inv(v, best, connects) && v.active == chain.vChain && b.Linked() && b.pprev == chain.Tip() && connects(b)
    ensures ValidPath(b, connects)
  {
    forall h | 0 <= h <= b.nHeight
      ensures connects(b.Ancestor(h))
    {
      if h < b.nHeight {
        assert b.Ancestor(h) == b.pprev.Ancestor(h);
      }
    }
  }

  lemma RefusedIsInvalid(b: CBlockIndex, connects: Verdict, failed: set<CBlockIndex>)
    requires b.Linked() && !connects(b) && b in failed
    ensures !ValidPath(b, connects) && !Usable(b, failed)
  {
    assert b.Ancestor(b.nHeight) == b;
  }

  lemma CandidatesHaveOrder(v: View, best: CBlockIndex?, connects: Verdict)
    requires Inv(v, best, connects)
    ensures forall x, y | x in v.candidates && y in v.candidates && x != y :: x.address != y.address
    ensures forall x | x in v.candidates :: x.Built() && x.Linked()
  {
    hide CBlockIndex.Built, CBlockIndex.Linked, CBlockIndex.Ancestor, IsPath, Usable, ValidPath;
  }

  /** Below a candidate everything is linked, and has data. */
  lemma CandidatesAreLinked(v: View, best: CBlockIndex?, connects: Verdict, c: CBlockIndex, h: nat)
    requires Inv(v, best, connects) && c in v.candidates && c.Linked() && h <= c.nHeight
    ensures c.Ancestor(h) in v.nChainTx && c.Ancestor(h) in v.nTx
  {
    hide IsPath, Usable, ValidPath;
    LinkedBelow(v, c, h);
  }

  lemma FailedAboveInv(v: View, best: CBlockIndex?, connects: Verdict, b: CBlockIndex, h: nat)
    requires Inv(v, best, connects) && b.Linked() && h <= b.nHeight && b.Ancestor(h) in v.failed
    ensures !ValidPath(b, connects) && !Usable(b, v.failed)
  {
    FailedAbove(v, b, h, connects);
  }

  /** Blocks of the active chain carry no failed mark. */
  lemma OnChainIsUsable(v: View, best: CBlockIndex?, connects: Verdict, b: CBlockIndex, m: ChainManager)
    requires Inv(v, best, connects) && v.active == m.chain.vChain && b.Linked() && m.chain.Contains(b)
    ensures Usable(b, v.failed)
  {
    m.chain.ContainsIff(b);
    var tip := v.active[|v.active| - 1];
    ValidBelow(tip, b.nHeight, connects);
    ValidIsUsable(v, b, connects);
  }

  lemma UsableAbove(c: CBlockIndex, b: CBlockIndex, failed: set<CBlockIndex>)
    requires c.Linked() && b.Linked() && AncestorOf(b, c) && Usable(b, failed)
    requires forall h | b.nHeight + 1 <= h <= c.nHeight :: c.Ancestor(h) !in failed
    ensures Usable(c, failed)
  {
    forall h | 0 <= h <= c.nHeight
      ensures c.Ancestor(h) !in failed
    {
      if h <= b.nHeight {
        c.AncestorOfAncestor(b.nHeight, h);
        assert b.Ancestor(h) !in failed;
      }
    }
  }

  lemma UsableAll(c: CBlockIndex, failed: set<CBlockIndex>)
    requires c.Linked() && forall h | 0 <= h <= c.nHeight :: c.Ancestor(h) !in failed
    ensures Usable(c, failed)
  {
  }

  lemma StillUnusable(gone: set<CBlockIndex>, failed: set<CBlockIndex>, failed': set<CBlockIndex>)
    requires failed <= failed' && forall b | b in gone :: b.Linked() && !Usable(b, failed)
    ensures forall b | b in gone :: b.Linked() && !Usable(b, failed')
  {
    hide Usable;
    forall b | b in gone
      ensures !Usable(b, failed')
    {
      UsableShrinks(b, failed, failed');
    }
  }

  // ----- runs -----

  /** What reaches the node; blocks are named by the order in which their headers came. */
  datatype Event =
    | Header(parent: nat, hash: nat, work: nat, address: nat)
    | Data(block: nat, txs: nat)
    | Reject(block: nat)
    | Activate

  /** Nothing that is known ever refuses to be disconnected. */
  ghost predicate NoneRefuses(m: ChainManager)
    reads m
  {
    forall b, n: nat | b in m.blocks :: m.disconnects(b, n)
  }

  /** Handle one event; what does not apply is ignored. The result is that of ActivateBestChain. */
  method Handle(m: ChainManager, known: seq<CBlockIndex>, event: Event) returns (known': seq<CBlockIndex>, ok: bool)
    requires m.Calm() && m.blocks == set b | b in known
    modifies m, m.chain
    ensures m.Calm() && m.blocks == set b | b in known'
    ensures KeepsStuck(old(m.chain.vChain), m.chain.vChain, m.disconnects)
    ensures event.Activate? && ok ==>
              m.AtRest() && m.TipIsBestValid() && m.TipIsFirst() && AtLeast(m.seqId, m.chain.Tip(), old(m.chain.Tip()))
    ensures NoneRefuses(m) ==> ok
  {
    hide Inv, Worse, CBlockIndex.Built, CBlockIndex.Linked, CBlockIndex.Ancestor, ValidPath, KeepsStuck, NoneBefore, SeqOk, AtLeast;
    known', ok := known, true;
    KeepsStuckTwice(m.chain.vChain, m.chain.vChain, m.chain.vChain, m.disconnects);
    if event.Header? {
      if event.work > 0 && (event.parent < |known| || known == []) && (forall i | 0 <= i < |known| :: known[i].address != event.address) {
        var b := m.AddToBlockIndex(if known == [] then null else known[event.parent], event.hash, event.work, event.address);
        known' := known + [b];
      }
    } else if event.Data? {
      if event.block < |known| && known[event.block] !in m.nTx && known[event.block] !in m.failed && event.txs > 0 {
        m.ReceivedBlockTransactions(known[event.block], event.txs);
      }
    } else if event.Reject? {
      if event.block < |known| && known[event.block] !in m.nTx && !m.connects(known[event.block]) {
        m.RejectBlock(known[event.block]);
      }
    } else {
      BestIsAtLeast(m.State(), m.best, m.connects);
      ghost var tip0, best0 := m.chain.Tip(), m.best;
      ghost var target;
      ok, target := m.ActivateBestChain();
      AtLeastTwice(m.seqId, m.best, best0, tip0);
    }
  }

  lemma BestIsAtLeast(v: View, best: CBlockIndex?, connects: Verdict)
    requires Inv(v, best, connects)
    ensures AtLeast(v.seqId, best, LastOf(v.active))
  {
    hide Worse, CBlockIndex.Built, CBlockIndex.Linked, CBlockIndex.Ancestor, ValidPath, TreeOk, DataOk, CountsOk, FailedOk, CandidatesOk;
  }

  /** From an empty index, through any events in any order, with any blocks refusing to be disconnected:
      the invariants hold throughout, and each time the activation of the best chain succeeds
      its tip is the best of all complete valid blocks. Without refusals it always succeeds. */
  method RunEvents(events: seq<Event>, connects: Verdict, disconnects: UndoVerdict) returns (m: ChainManager, ok: bool)
    ensures m.Calm() && m.connects == connects && m.disconnects == disconnects
    ensures events != [] && events[|events| - 1].Activate? && ok ==> m.AtRest() && m.TipIsBestValid() && m.TipIsFirst()
    ensures NoneRefuses(m) ==> ok
  {
    hide Inv, Worse, ChainManager.TipIsBestValid, ChainManager.TipIsFirst, KeepsStuck, NoneRefuses;
    m := new ChainManager(connects, disconnects);
    ok := true;
    var known: seq<CBlockIndex> := [];
    for i := 0 to |events|
      invariant m.Calm() && m.connects == connects && m.disconnects == disconnects && m.blocks == set b | b in known
      invariant fresh(m) && fresh(m.chain)
      invariant i > 0 && events[i - 1].Activate? && ok ==> m.AtRest() && m.TipIsBestValid() && m.TipIsFirst()
      invariant NoneRefuses(m) ==> ok
    {
      known, ok := Handle(m, known, events[i]);
    }
  }

  // ----- the block received first stays -----

  /** A block that has become a candidate is not better than a tip that was complete before it and has no less
      work. */
  lemma LateIsNotBetter(m: ChainManager, was: map<CBlockIndex, nat>, next: nat, before: set<CBlockIndex>)
    requires m.Calm() && m.chain.Tip() != null && before <= {m.chain.Tip()} && OnlyNewJoin(before, m.candidates, was, m.seqId)
    requires m.chain.Tip() in was && was[m.chain.Tip()] < next && SeqLater(was, m.seqId, next)
    requires forall c | c in m.candidates :: c.nChainWork <= m.chain.Tip().nChainWork
    ensures m.candidates <= {m.chain.Tip()}
  {
    hide Inv, Worse, SeqOk;
    var tip := m.chain.Tip();
    forall c | c in m.candidates
      ensures c == tip
    {
      if c !in before {
        WorseIff(m.seqId, c, tip);
      }
    }
  }

  lemma TipIsComplete(m: ChainManager)
    requires m.Calm() && m.chain.Tip() != null
    ensures m.chain.Tip() in m.seqId && m.seqId[m.chain.Tip()] < m.nBlockSequenceId && m.candidates <= m.blocks
  {
    hide Worse, CBlockIndex.Built, CBlockIndex.Linked, CBlockIndex.Ancestor, Usable, ValidPath, TreeOk, CountsOk, FailedOk;
  }

  /** After an activation that succeeded, any number of blocks arrive, none of which brings a chain with more work
      than the tip's. The next activation succeeds and leaves the active chain as it is: of blocks with
      equal work the one that was complete first stays. */
  method FirstSeenStays(m: ChainManager, arrivals: seq<(CBlockIndex, nat)>) returns (ok: bool)
    requires m.Calm() && m.chain.Tip() != null && m.candidates <= {m.chain.Tip()}
    requires forall i | 0 <= i < |arrivals| ::
               && arrivals[i].0 in m.blocks && arrivals[i].0 !in m.nTx && arrivals[i].0 !in m.failed && arrivals[i].1 > 0
    requires forall i, j | 0 <= i < j < |arrivals| :: arrivals[i].0 != arrivals[j].0
    requires forall b | b in m.blocks :: b.nChainWork <= m.chain.Tip().nChainWork
    modifies m, m.chain
    ensures m.Calm() && ok && m.chain.vChain == old(m.chain.vChain)
  {
    hide Inv, Worse, CBlockIndex.Built, CBlockIndex.Linked, CBlockIndex.Ancestor, ValidPath, KeepsStuck, NoneBefore, SeqOk, SeqLater,
         OnlyNewJoin, AtLeast, ChainManager.TipIsBestValid, ChainManager.TipIsFirst, ChainManager.BlockedFrom;
    for i := 0 to |arrivals|
      invariant m.Calm() && m.chain.vChain == old(m.chain.vChain) && m.candidates <= {m.chain.Tip()}
      invariant m.blocks == old(m.blocks) && m.failed == old(m.failed)
      invariant forall j | i <= j < |arrivals| :: arrivals[j].0 !in m.nTx
    {
      ghost var was, next, before := m.seqId, m.nBlockSequenceId, m.candidates;
      TipIsComplete(m);
      m.ReceivedBlockTransactions(arrivals[i].0, arrivals[i].1);
      TipIsComplete(m);
      LateIsNotBetter(m, was, next, before);
    }
    ghost var target;
    ok, target := m.ActivateBestChain();
  }
}
