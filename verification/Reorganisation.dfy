/** Which reorganisations the coins allow. Module BestChain takes the verdict of DisconnectTip as given;
    here it is that of the coins, and ActivateBestChainStep gets down to the fork exactly when no
    coinstake above it was emptied by a later block of the active chain or has lost its flag.
    The chain of RollbackWitness makes it fail on a longer chain without any fault. */
module Reorganisation {
  import opened BlockIndex
  import opened ChainState
  import opened BestChain
  import opened Coins
  import opened CoinsCache
  import opened BlockCoins
  import opened Undo
  import opened Rollback
  import opened RollbackWitness

  // ----- taking blocks off -----

  /** The blocks above height `f` disconnected again, tip first: the coins, and whether all went well.
      The first of `blocks` lies on genesis, and their undo data are those of their first
      connect; module UndoFile says why it does not matter which connect. */
  function TakenOff(v: Utxo, blocks: seq<seq<Tx>>, f: nat): (Utxo, bool)
    requires f <= |blocks|
  {
    var m := StateAt(map[], blocks, 0, f);
    ChainUndosFit(m, blocks[f..], f);
    RollBack(v, blocks[f..], ChainUndo(m, blocks[f..], f), f, |blocks| - f)
  }

  /** Every coinstake above height `f` is still live after each later block, and has not lost its
      flag. */
  ghost predicate Removable(blocks: seq<seq<Tx>>, f: nat, gone: set<Hash>)
    requires f <= |blocks|
  {
    && (forall i, j | f <= i < j <= |blocks| :: StakesLive(blocks[i], StateAt(map[], blocks, 0, j)))
    && (forall i | f <= i < |blocks| :: StakesOutside(blocks[i], gone))
  }

  lemma {:induction false} StateFrom(blocks: seq<seq<Tx>>, maturity: nat, f: nat, j: nat)
    requires f + j <= |blocks| && ChainOk(map[], blocks, 0, maturity, f + j)
    ensures var m := StateAt(map[], blocks, 0, f);
            && StateAt(m, blocks[f..], f, j) == StateAt(map[], blocks, 0, f + j)
            && ChainOk(m, blocks[f..], f, maturity, j)
    decreases j
  {
    hide ApplyBlock, BlockOk;
    if j > 0 {
      StateFrom(blocks, maturity, f, j - 1);
      assert blocks[f..][j - 1] == blocks[f + j - 1];
    }
  }

  lemma RemovableFrom(blocks: seq<seq<Tx>>, maturity: nat, f: nat, gone: set<Hash>)
    requires f <= |blocks| && ChainOk(map[], blocks, 0, maturity, |blocks|)
    ensures var m, rest := StateAt(map[], blocks, 0, f), blocks[f..];
            Removable(blocks, f, gone) <==>
            StakesStayLive(m, rest, f, |rest|) && forall i | 0 <= i < |rest| :: StakesOutside(rest[i], gone)
  {
    hide StateAt, StakesLive, StakesOutside, ChainOk;
    var m, rest := StateAt(map[], blocks, 0, f), blocks[f..];
    forall j | 0 <= j <= |rest|
      ensures StateAt(m, rest, f, j) == StateAt(map[], blocks, 0, f + j)
    {
      ChainOkPrefix(map[], blocks, 0, maturity, f + j, |blocks|);
      StateFrom(blocks, maturity, f, j);
    }
    if StakesStayLive(m, rest, f, |rest|) && forall i | 0 <= i < |rest| :: StakesOutside(rest[i], gone) {
      forall i, j | f <= i < j <= |blocks|
        ensures StakesLive(blocks[i], StateAt(map[], blocks, 0, j))
      {
        assert StakesLive(rest[i - f], StateAt(m, rest, f, j - f));
      }
      forall i | f <= i < |blocks|
        ensures StakesOutside(blocks[i], gone)
      {
        assert StakesOutside(rest[i - f], gone);
      }
    }
  }

  /** On coins that are those of the chain up to wear, the blocks above a height come off cleanly
      exactly when their coinstakes are all there with their flags; the coins are then those at
      that height, up to wear. */
  lemma TakenOffIff(v: Utxo, blocks: seq<seq<Tx>>, maturity: nat, f: nat, gone: set<Hash>, cut: set<Hash>)
    requires f <= |blocks| && ChainOk(map[], blocks, 0, maturity, |blocks|)
    requires v == Worn(StateAt(map[], blocks, 0, |blocks|), gone, cut)
    ensures var m := StateAt(map[], blocks, 0, f);
            TakenOff(v, blocks, f) == (Worn(m, gone + Lost(m, blocks[f..], f, |blocks| - f), cut), Removable(blocks, f, gone))
  {
    hide StateAt, ChainOk, Worn, WellFormed, ChainUndo, RollBack, Lost, Removable, StakesKept, StakesStayLive, StakesOutside;
    var m, rest := StateAt(map[], blocks, 0, f), blocks[f..];
    NothingIsWellFormed();
    ChainOkPrefix(map[], blocks, 0, maturity, f, |blocks|);
    StatesWellFormed(map[], blocks, 0, maturity, f);
    StateFrom(blocks, maturity, f, |rest|);
    ChainUndosFit(m, rest, f);
    RollBackFrom(m, rest, f, maturity, |rest|, v, gone, cut);
    StakesKeptIff(m, rest, f, |rest|, gone);
    RemovableFrom(blocks, maturity, f, gone);
  }

  lemma NothingIsWellFormed()
    ensures WellFormed(map[])
  {
  }

  // ----- the verdict of the coins -----

  /** As long as the blocks above have come off, DisconnectTip goes through on an active block just when
      disconnecting it is clean. */
  ghost predicate FollowsCoins(disconnects: UndoVerdict, active: seq<CBlockIndex?>, moves: nat, v: Utxo, blocks: seq<seq<Tx>>) {
    && |active| == |blocks| + 1
    && forall h | 1 <= h <= |blocks| && TakenOff(v, blocks, h).1 ::
         active[h] != null && (disconnects(active[h], moves + |blocks| - h) <==> TakenOff(v, blocks, h - 1).1)
  }

  /** The path to `mostWork` leaves the active chain above height `f`. */
  ghost predicate ForksAt(active: seq<CBlockIndex?>, mostWork: CBlockIndex, f: nat)
    requires mostWork.Linked()
  {
    && f < |active|
    && forall i | 0 <= i < |active| :: active[i] != null && (AncestorOf(active[i], mostWork) <==> i <= f)
  }

  /** The blocks above height `k` let themselves be disconnected, tip first. */
  ghost predicate YieldAbove(active: seq<CBlockIndex?>, k: nat, moves: nat, disconnects: UndoVerdict) {
    forall i | k < i < |active| && active[i] != null :: disconnects(active[i], moves + |active| - 1 - i)
  }

  lemma {:induction false} YieldAboveIff(active: seq<CBlockIndex?>, k: nat, moves: nat, disconnects: UndoVerdict, v: Utxo,
                                        blocks: seq<seq<Tx>>, maturity: nat, gone: set<Hash>, cut: set<Hash>)
    requires k <= |blocks| && ChainOk(map[], blocks, 0, maturity, |blocks|)
    requires v == Worn(StateAt(map[], blocks, 0, |blocks|), gone, cut) && FollowsCoins(disconnects, active, moves, v, blocks)
    ensures YieldAbove(active, k, moves, disconnects) <==> TakenOff(v, blocks, k).1
    decreases |blocks| - k
  {
    hide StateAt, ChainOk, Worn, TakenOff, StakesLive, StakesOutside;
    TakenOffIff(v, blocks, maturity, k, gone, cut);
    if k < |blocks| {
      TakenOffIff(v, blocks, maturity, k + 1, gone, cut);
      YieldAboveIff(active, k + 1, moves, disconnects, v, blocks, maturity, gone, cut);
      assert YieldAbove(active, k, moves, disconnects) ==> YieldAbove(active, k + 1, moves, disconnects);
      if TakenOff(v, blocks, k + 1).1 {
        assert active[k + 1] != null;
      }
    }
  }

  /** Every block off the path yields exactly when the coinstakes above the fork are all live and
      flagged. */
  lemma ReorganisationIff(active: seq<CBlockIndex?>, mostWork: CBlockIndex, f: nat, moves: nat, disconnects: UndoVerdict,
                          v: Utxo, blocks: seq<seq<Tx>>, maturity: nat, gone: set<Hash>, cut: set<Hash>)
    requires ChainOk(map[], blocks, 0, maturity, |blocks|) && v == Worn(StateAt(map[], blocks, 0, |blocks|), gone, cut)
    requires FollowsCoins(disconnects, active, moves, v, blocks) && mostWork.Linked() && ForksAt(active, mostWork, f)
    ensures f <= |blocks| && (AllYield(active, mostWork, moves, disconnects) <==> Removable(blocks, f, gone))
  {
    hide StateAt, ChainOk, Worn, TakenOff, StakesLive, StakesOutside, AncestorOf, CBlockIndex.Linked, Removable;
    TakenOffIff(v, blocks, maturity, f, gone, cut);
    YieldAboveIff(active, f, moves, disconnects, v, blocks, maturity, gone, cut);
    assert AllYield(active, mostWork, moves, disconnects) <==> YieldAbove(active, f, moves, disconnects);
  }

  /** Without lost flags, a fork no deeper than the maturity is always reached. */
  lemma ShallowIsRemovable(blocks: seq<seq<Tx>>, maturity: nat, f: nat)
    requires ChainOk(map[], blocks, 0, maturity, |blocks|) && f <= |blocks| <= f + maturity
    ensures Removable(blocks, f, {})
  {
    hide StateAt, BlockOk, Case.Phase;
    forall i, j | f <= i < j <= |blocks|
      ensures StakesLive(blocks[i], StateAt(map[], blocks, 0, j))
    {
      ChainOkPrefix(map[], blocks, 0, maturity, j, |blocks|);
      YoungStakesStand(map[], blocks, 0, maturity, i, j);
    }
  }

  /** ActivateBestChainStep on the coins of the active chain: it goes on exactly when the blocks above
      the fork can be taken off, and otherwise stops at the first that cannot. */
  method Reorganise(m: ChainManager, mostWork: CBlockIndex, ghost f: nat, ghost v: Utxo, ghost blocks: seq<seq<Tx>>,
                    ghost maturity: nat, ghost gone: set<Hash>, ghost cut: set<Hash>)
    returns (ok: bool, invalid: bool)
    requires m.Valid() && mostWork in m.candidates && mostWork.Built() && mostWork.Linked() && Usable(mostWork, m.failed)
    requires NoneBefore(m.seqId, m.candidates, m.chain.Tip())
    requires ChainOk(map[], blocks, 0, maturity, |blocks|) && v == Worn(StateAt(map[], blocks, 0, |blocks|), gone, cut)
    requires FollowsCoins(m.disconnects, m.chain.vChain, m.nTipChanges, v, blocks) && ForksAt(m.chain.vChain, mostWork, f)
    modifies m`candidates, m`failed, m`best, m`nTipChanges, m.chain
    ensures m.Valid() && f <= |blocks| && (ok <==> Removable(blocks, f, gone))
    ensures gone == {} && |blocks| <= f + maturity ==> ok
    ensures !ok ==> m.chain.vChain <= old(m.chain.vChain) && m.chain.Tip() != null && !AncestorOf(m.chain.Tip(), mostWork)
    ensures ok && !invalid && m.chain.Tip() != mostWork && old(m.chain.Tip()) != null ==>
              m.chain.Tip() != null && m.chain.Tip().nChainWork > old(m.chain.Tip().nChainWork)
  {
    hide StateAt, ChainOk, Worn, TakenOff, CBlockIndex.Built, CBlockIndex.Linked, CBlockIndex.Ancestor, Inv, Usable, Worse,
         IsPath, KeepsStuck, NoneBefore, AllYield, FollowsCoins, ForksAt, Removable, AtLeast;
    ReorganisationIff(m.chain.vChain, mostWork, f, m.nTipChanges, m.disconnects, v, blocks, maturity, gone, cut);
    if gone == {} && |blocks| <= f + maturity {
      ShallowIsRemovable(blocks, maturity, f);
    }
    ok, invalid := m.ActivateBestChainStep(mostWork);
  }

  // ----- the chain of RollbackWitness -----

  /** All its blocks, from genesis on. */
  function Whole(c: Case): seq<seq<Tx>> { c.Part(0, c.End()) }

  lemma WholeIsOk(c: Case)
    requires c.Ok()
    ensures ChainOk(map[], Whole(c), 0, c.maturity, c.End()) && PeriodsOk(Whole(c), 0, c.lastPow)
    ensures c.Phase(StateAt(map[], Whole(c), 0, c.End()), c.End())
  {
    hide ChainOk, StateAt, PeriodOk, Case.Phase, Case.BlockAt;
    StartPhase(c);
    ChainPasses(map[], 0, c.End(), c, c.End());
    assert Whole(c)[..c.End()] == Whole(c);
  }

  /** It comes off down to the first coinstake, and no further. */
  lemma WholeRemovableIff(c: Case, f: nat)
    requires c.Ok() && f <= c.End()
    ensures Removable(Whole(c), f, {}) <==> f > c.lastPow
  {
    hide ChainOk, StateAt, Case.Phase, Case.BlockAt, StakesLive, Removable;
    WholeIsOk(c);
    if f > c.lastPow {
      ShallowIsRemovable(Whole(c), c.maturity, f);
    } else {
      VictimGone(StateAt(map[], Whole(c), 0, c.End()), c);
      assert Whole(c)[c.lastPow] == c.BlockAt(c.lastPow + 1);
      if Removable(Whole(c), f, {}) {
        RemovableAt(Whole(c), f, {}, c.lastPow, c.End());
      }
    }
  }

  lemma RemovableAt(blocks: seq<seq<Tx>>, f: nat, gone: set<Hash>, i: nat, j: nat)
    requires f <= i < j <= |blocks| && Removable(blocks, f, gone)
    ensures StakesLive(blocks[i], StateAt(map[], blocks, 0, j))
  {
  }

  /** So the coins refuse on that block alone. */
  lemma CoinsRefuseOne(c: Case, active: seq<CBlockIndex>, moves: nat, disconnects: UndoVerdict)
    requires c.Ok() && |active| == c.End() + 1
    requires forall h, n: nat | 0 <= h < |active| :: disconnects(active[h], n) <==> h != c.lastPow + 1
    ensures FollowsCoins(disconnects, active, moves, StateAt(map[], Whole(c), 0, c.End()), Whole(c))
  {
    hide ChainOk, StateAt, Case.Phase, Case.BlockAt, TakenOff, Removable, Worn;
    var v := StateAt(map[], Whole(c), 0, c.End());
    WholeIsOk(c);
    WornNothing(v);
    forall f | 0 <= f <= c.End()
      ensures TakenOff(v, Whole(c), f).1 <==> f > c.lastPow
    {
      TakenOffIff(v, Whole(c), c.maturity, f, {}, {});
      WholeRemovableIff(c, f);
    }
  }

  // ----- a longer chain that is refused -----

  /** `branch` lies on `from`, block on block, each adding one unit of work. */
  ghost predicate Branch(branch: seq<CBlockIndex>, from: CBlockIndex?, address: nat) {
    forall i | 0 <= i < |branch| ::
      && branch[i].pprev == (if i == 0 then from else branch[i - 1])
      && branch[i].nChainWork == (if from == null then 0 else from.nChainWork) + i + 1
      && branch[i].address == address + i
  }

  /** Headers and data of a new branch. */
  method GrowBranch(m: ChainManager, from: CBlockIndex?, size: nat, address: nat) returns (branch: seq<CBlockIndex>)
    requires m.Calm() && m.blocks <= m.nTx.Keys && (from != null ==> from in m.blocks)
    requires forall x | x in m.blocks :: x.address < address
    modifies m
    ensures m.Calm() && m.blocks <= m.nTx.Keys && |branch| == size && Branch(branch, from, address)
    ensures m.blocks == old(m.blocks) + (set b | b in branch)
  {
    hide Inv, Worse, CBlockIndex.Built, CBlockIndex.Linked, CBlockIndex.Ancestor, ValidPath, NoneBefore, SeqOk, SeqLater;
    branch := [];
    assert Branch([], from, address) && Arrived(m.blocks, m.blocks, [], address);
    while |branch| < size
      invariant m.Calm() && m.blocks <= m.nTx.Keys && |branch| <= size && Branch(branch, from, address)
      invariant Arrived(old(m.blocks), m.blocks, branch, address)
    {
      hide Branch, Arrived;
      NextArrives(old(m.blocks), m.blocks, branch, from, address);
      var prev := if branch == [] then from else branch[|branch| - 1];
      ghost var known := m.blocks;
      var b := AddBlock(m, prev, address + |branch|);
      BranchGrows(old(m.blocks), known, branch, from, address, b);
      branch := branch + [b];
    }
  }

  /** Header and data of one block. */
  method AddBlock(m: ChainManager, prev: CBlockIndex?, address: nat) returns (b: CBlockIndex)
    requires m.Calm() && m.blocks <= m.nTx.Keys && (prev != null ==> prev in m.blocks)
    requires forall x | x in m.blocks :: x.address < address
    modifies m
    ensures m.Calm() && m.blocks <= m.nTx.Keys && m.blocks == old(m.blocks) + {b}
    ensures b.pprev == prev && b.address == address && b.nChainWork == (if prev == null then 0 else prev.nChainWork) + 1
  {
    hide Inv, Worse, CBlockIndex.Built, CBlockIndex.Linked, CBlockIndex.Ancestor, ValidPath, NoneBefore, SeqOk, SeqLater;
    b := m.AddToBlockIndex(prev, 0, 1, address);
    m.ReceivedBlockTransactions(b, 1);
  }

  /** `branch` is what is new, at the next addresses. */
  ghost predicate Arrived(was: set<CBlockIndex>, blocks: set<CBlockIndex>, branch: seq<CBlockIndex>, address: nat) {
    && blocks == was + (set b | b in branch)
    && forall x | x in blocks :: x.address < address + |branch|
  }

  lemma NextArrives(was: set<CBlockIndex>, blocks: set<CBlockIndex>, branch: seq<CBlockIndex>, from: CBlockIndex?, address: nat)
    requires Arrived(was, blocks, branch, address) && (from != null ==> from in was)
    ensures var prev := if branch == [] then from else branch[|branch| - 1]; prev != null ==> prev in blocks
    ensures forall x | x in blocks :: x.address < address + |branch|
  {
  }

  lemma BranchGrows(was: set<CBlockIndex>, blocks: set<CBlockIndex>, branch: seq<CBlockIndex>, from: CBlockIndex?, address: nat,
                    b: CBlockIndex)
    requires Branch(branch, from, address) && b.address == address + |branch|
    requires var prev := if branch == [] then from else branch[|branch| - 1];
             b.pprev == prev && b.nChainWork == (if prev == null then 0 else prev.nChainWork) + 1
    requires Arrived(was, blocks, branch, address)
    ensures Branch(branch + [b], from, address) && Arrived(was, blocks + {b}, branch + [b], address)
  {
    assert (set x | x in branch + [b]) == (set x | x in branch) + {b};
  }

  /** With data everywhere and nothing invalid, every block is complete and valid. */
  lemma AllComplete(m: ChainManager, b: CBlockIndex)
    requires m.Valid() && m.blocks <= m.nTx.Keys && b in m.blocks && forall x: CBlockIndex | x in m.blocks :: m.connects(x)
    ensures b in m.nChainTx && b.Linked() && ValidPath(b, m.connects)
  {
    hide Worse, CBlockIndex.Built, Usable, CountsOk, ActiveOk, FailedOk, CandidatesOk, BestOk;
    var v := m.State();
    AncestorsKnown(v, b);
    LinkedIff(v, b);
  }

  lemma TipKnown(m: ChainManager)
    requires m.Valid() && m.chain.Tip() != null
    ensures m.chain.Tip() in m.blocks && m.chain.Tip().Linked() && m.chain.vChain == PathTo(m.chain.Tip())
  {
    hide Worse, CBlockIndex.Built, Usable, ValidPath;
  }

  /** Along a branch from genesis, places are heights. */
  lemma {:induction false} BranchPath(main: seq<CBlockIndex>, j: nat)
    requires j < |main| && Branch(main, null, 1) && forall b | b in main :: b.Linked()
    ensures main[j].nHeight == j && forall i | 0 <= i <= j :: main[j].Ancestor(i) == main[i]
  {
    assert main[j] in main;
    if j > 0 {
      BranchPath(main, j - 1);
      assert main[j - 1] in main && main[j].pprev == main[j - 1];
      forall i | 0 <= i < j
        ensures main[j].Ancestor(i) == main[i]
      {
        assert main[j].Ancestor(i) == main[j - 1].Ancestor(i);
      }
    }
  }

  /** Along a branch from a block of that one, they are heights above it. */
  lemma {:induction false} SidePath(main: seq<CBlockIndex>, f: nat, side: seq<CBlockIndex>, address: nat, j: nat)
    requires f < |main| && main[f].Linked() && main[f].nHeight == f
    requires j < |side| && Branch(side, main[f], address) && forall b | b in side :: b.Linked()
    ensures side[j].nHeight == f + 1 + j && forall i | 0 <= i <= j :: side[j].Ancestor(f + 1 + i) == side[i]
  {
    assert side[j] in side;
    if j > 0 {
      SidePath(main, f, side, address, j - 1);
      assert side[j - 1] in side && side[j].pprev == side[j - 1];
      forall i | 0 <= i < j
        ensures side[j].Ancestor(f + 1 + i) == side[i]
      {
        assert side[j].Ancestor(f + 1 + i) == side[j - 1].Ancestor(f + 1 + i);
      }
    }
  }

  lemma AllLinked(m: ChainManager)
    requires m.Valid()
    ensures forall b | b in m.blocks :: b.Linked()
    ensures forall a, b | a in m.blocks && b in m.blocks && a != b :: a.address != b.address
    ensures m.candidates <= m.blocks
  {
    hide Worse, CBlockIndex.Built, CBlockIndex.Linked, Usable, ValidPath, IsPath, CountsOk;
  }

  /** The only branch becomes the active chain. */
  lemma BecameActive(m: ChainManager, main: seq<CBlockIndex>, ok: bool, target: CBlockIndex?)
    requires m.Valid() && m.blocks <= m.nTx.Keys && m.blocks == (set b | b in main) && main != []
    requires forall x: CBlockIndex | x in m.blocks :: m.connects(x)
    requires Branch(main, null, 1)
    requires ok ==> m.TipIsBestValid()
    requires !ok ==> target != null && m.BlockedFrom(target)
    ensures m.chain.vChain == main
  {
    hide CBlockIndex.Built, CBlockIndex.Linked, CBlockIndex.Ancestor, Usable, ValidPath, Inv;
    var last := |main| - 1;
    AllLinked(m);
    assert main[last] in m.blocks;
    AllComplete(m, main[last]);
    TipKnown(m);
    var t :| 0 <= t < |main| && main[t] == m.chain.Tip();
    BranchPath(main, t);
    if !ok {
      var g :| 0 <= g < |main| && main[g] == target;
      BranchPath(main, g);
    }
    assert t == last;
    BranchPath(main, last);
  }

  /** The activation of the longer branch stops at the block that refuses. */
  lemma StopsAt(m: ChainManager, main: seq<CBlockIndex>, f: nat, side: seq<CBlockIndex>, x: nat, ok: bool, target: CBlockIndex?)
    requires m.Valid() && m.blocks <= m.nTx.Keys && m.blocks == (set b | b in main) + (set b | b in side)
    requires forall b: CBlockIndex | b in m.blocks :: m.connects(b)
    requires f < x < |main| && |side| == |main| - f && Branch(main, null, 1) && Branch(side, main[f], |main| + 1)
    requires forall b, n: nat | b in m.blocks :: m.disconnects(b, n) <==> b != main[x]
    requires KeepsStuck(main, m.chain.vChain, m.disconnects)
    requires ok ==> m.TipIsBestValid()
    requires !ok ==> target != null && m.BlockedFrom(target)
    ensures !ok && m.chain.vChain == main[..x + 1] && !m.TipIsBestValid()
  {
    hide CBlockIndex.Built, CBlockIndex.Linked, CBlockIndex.Ancestor, Usable, ValidPath, Inv, IsPath, KeepsStuck;
    var best := side[|side| - 1];
    assert best in m.blocks && main[x] in m.blocks;
    AllLinked(m);
    assert forall b | b in main :: b in m.blocks;
    assert forall b | b in side :: b in m.blocks;
    AllComplete(m, best);
    BranchPath(main, f);
    BranchPath(main, x);
    SidePath(main, f, side, |main| + 1, |side| - 1);
    StuckStaysAt(main, m.chain.vChain, x, m.disconnects);
    PathHasTip(m);
    TipKnown(m);
    var tip := m.chain.Tip();
    assert best.nChainWork == |main| + 1;
    assert tip != best by {
      assert side[x - f - 1].address != main[x].address;
      assert best.Ancestor(x) != main[x];
    }
    BestHasMostWork(m, main, f, side, tip);
    assert tip.nChainWork < best.nChainWork;
    if !ok {
      assert tip == main[x];
      assert main[..x + 1] == PathTo(main[x]);
    }
  }

  lemma StuckStaysAt(was: seq<CBlockIndex>, now: seq<CBlockIndex?>, x: nat, disconnects: UndoVerdict)
    requires x < |was| && KeepsStuck(was, now, disconnects) && forall n: nat :: !disconnects(was[x], n)
    ensures x < |now| && now[x] == was[x]
  {
    assert Stuck(was[x], disconnects);
  }

  lemma BestHasMostWork(m: ChainManager, main: seq<CBlockIndex>, f: nat, side: seq<CBlockIndex>, b: CBlockIndex)
    requires f < |main| && |side| == |main| - f && Branch(main, null, 1) && Branch(side, main[f], |main| + 1)
    requires b in main || b in side
    ensures b.nChainWork < |main| + 1 || b == side[|side| - 1]
  {
  }

  lemma PathHasTip(m: ChainManager)
    requires m.Valid() && m.chain.vChain != []
    ensures m.chain.Tip() != null
  {
    hide Worse, CBlockIndex.Built, CBlockIndex.Linked, CBlockIndex.Ancestor, Usable, ValidPath, TreeOk, DataOk, CountsOk, FailedOk;
  }

  lemma AddressesBelow(main: seq<CBlockIndex>)
    requires Branch(main, null, 1)
    ensures forall b | b in main :: b.address < |main| + 1
  {
  }

  predicate NoFault(b: CBlockIndex) { true }

  /** Of the first branch, the block at height `x` always refuses. */
  function AllBut(x: nat): UndoVerdict { (b: CBlockIndex, n: nat) => b.address != x + 1 }

  /** Genesis and `size` blocks on top of it, connected; one of them refuses to be disconnected. */
  method ActiveBranch(size: nat, x: nat) returns (m: ChainManager, main: seq<CBlockIndex>)
    ensures m.Calm() && fresh(m) && fresh(m.chain) && m.blocks <= m.nTx.Keys && m.blocks == (set b | b in main)
    ensures |main| == size + 1 && Branch(main, null, 1) && m.chain.vChain == main
    ensures m.connects == NoFault && m.disconnects == AllBut(x)
  {
    hide Inv, Worse, CBlockIndex.Built, CBlockIndex.Linked, CBlockIndex.Ancestor, ValidPath, KeepsStuck, NoneBefore, SeqOk, AtLeast,
         ChainManager.TipIsBestValid, ChainManager.BlockedFrom, Branch, Usable;
    m := new ChainManager(NoFault, AllBut(x));
    main := GrowBranch(m, null, size + 1, 1);
    ghost var target;
    var ok;
    ok, target := m.ActivateBestChain();
    BecameActive(m, main, ok, target);
  }

  /** Only the block at height `x` has that address. */
  lemma OneRefuses(m: ChainManager, main: seq<CBlockIndex>, x: nat)
    requires m.Valid() && x < |main| && Branch(main, null, 1) && forall b | b in main :: b in m.blocks
    requires m.disconnects == AllBut(x)
    ensures forall b, n: nat | b in m.blocks :: m.disconnects(b, n) <==> b != main[x]
    ensures forall h, n: nat | 0 <= h < |main| :: m.disconnects(main[h], n) <==> h != x
  {
    hide Inv, CBlockIndex.Linked;
    AllLinked(m);
    assert main[x] in main;
  }

  /** For every maturity, every proof-of-work period at least as long, and every fork below the first
      coinstake: a node takes in the chain of RollbackWitness and activates it. Then a branch with
      more work arrives, with no fault in it. The verdict on each disconnect is that of the coins.
      The activation fails: the chain is taken back to the first coinstake, and a complete valid
      block with more work than the tip is left aside. */
  method RefusedReorganisation(c: Case, f: nat) returns (m: ChainManager, ghost main: seq<CBlockIndex>, ok: bool)
    requires c.Ok() && f <= c.lastPow
    ensures m.Calm() && |main| == c.End() + 1 && Branch(main, null, 1)
    ensures forall moves: nat :: FollowsCoins(m.disconnects, main, moves, StateAt(map[], Whole(c), 0, c.End()), Whole(c))
    ensures !ok && m.chain.vChain == main[..c.lastPow + 2] && !m.TipIsBestValid()
    ensures forall b, n: nat | b in m.blocks && b != m.chain.Tip() :: m.disconnects(b, n)
  {
    hide Inv, Worse, CBlockIndex.Built, CBlockIndex.Linked, CBlockIndex.Ancestor, ValidPath, KeepsStuck, NoneBefore, SeqOk, AtLeast,
         ChainManager.TipIsBestValid, ChainManager.BlockedFrom, FollowsCoins, Stuck, Usable, Branch;
    var x, first := c.lastPow + 1, [];
    m, first := ActiveBranch(c.End(), x);
    main := first;
    AddressesBelow(main);
    var side := GrowBranch(m, first[f], c.End() + 1 - f, c.End() + 2);
    ghost var target;
    ok, target := m.ActivateBestChain();
    OneRefuses(m, main, x);
    StopsAt(m, main, f, side, x, ok, target);
    forall moves: nat
      ensures FollowsCoins(m.disconnects, main, moves, StateAt(map[], Whole(c), 0, c.End()), Whole(c))
    {
      CoinsRefuseOne(c, main, moves, m.disconnects);
    }
  }
}
