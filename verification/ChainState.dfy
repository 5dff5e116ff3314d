/** What the node knows about blocks when it chooses its best chain, and the invariants behind
    the choice (src/main.cpp:105-127, 3019-3214, 3355-3400, 4585-4640).

    The bits of nStatus are kept as sets of blocks. Whether a block connects on top of its parent
    is a fixed verdict: no disk errors, no corruption, and no block whose acceptance hangs on a
    coinstake flag that a reorganisation has lost (module LostFlags). Whether the tip can be
    disconnected depends on the coins; they are not part of this module, so the verdict is
    one per block and number of tip changes so far. Module Reorganisation has that of the coins. */
module ChainState {
  import opened BlockIndex

  type Verdict = CBlockIndex -> bool

  /** Whether DisconnectBlock is clean on a tip, after so many changes of the tip. */
  type UndoVerdict = (CBlockIndex, nat) -> bool

  datatype View = View(blocks: set<CBlockIndex>,
                       candidates: set<CBlockIndex>,
                       failed: set<CBlockIndex>,
                       nTx: map<CBlockIndex, nat>,
                       nChainTx: map<CBlockIndex, nat>,
                       seqId: map<CBlockIndex, nat>,
                       unlinked: set<(CBlockIndex, CBlockIndex)>,
                       active: seq<CBlockIndex?>)

  function SeqOf(seqId: map<CBlockIndex, nat>, b: CBlockIndex): nat { if b in seqId then seqId[b] else 0 }

  /** CBlockIndexWorkComparator: `a` sorts before `b`. Less work, then received later, then the
      higher address. */
  predicate Worse(seqId: map<CBlockIndex, nat>, a: CBlockIndex, b: CBlockIndex) {
    || a.nChainWork < b.nChainWork
    || (a.nChainWork == b.nChainWork &&
        (|| SeqOf(seqId, a) > SeqOf(seqId, b)
         || (SeqOf(seqId, a) == SeqOf(seqId, b) && a.address > b.address)))
  }

  predicate WorseThan(seqId: map<CBlockIndex, nat>, a: CBlockIndex, b: CBlockIndex?) { b != null && Worse(seqId, a, b) }

  /** Every block from genesis to `b` connects. */
  ghost predicate ValidPath(b: CBlockIndex, connects: Verdict)
    requires b.Linked()
  {
    forall h | 0 <= h <= b.nHeight :: connects(b.Ancestor(h))
  }

  /** No block from genesis to `b` is marked as failed. */
  ghost predicate Usable(b: CBlockIndex, failed: set<CBlockIndex>)
    requires b.Linked()
  {
    forall h | 0 <= h <= b.nHeight :: b.Ancestor(h) !in failed
  }

  // ----- invariants -----

  ghost predicate TreeOk(blocks: set<CBlockIndex>) {
    && (forall b | b in blocks :: b.Built() && b.Linked() && (b.pprev != null ==> b.pprev in blocks))
    && (forall a, b | a in blocks && b in blocks && a != b :: a.address != b.address)
  }

  /** nChainTx is set exactly on blocks whose data, and that of all ancestors, is there; blocks
      with data that wait for an ancestor are in mapBlocksUnlinked. */
  ghost predicate DataOk(v: View) {
    && v.nChainTx.Keys <= v.nTx.Keys <= v.blocks
    && (forall b | b in v.nChainTx :: b.pprev != null ==> b.pprev in v.nChainTx)
    && (forall b | b in v.nTx && (b.pprev == null || b.pprev in v.nChainTx) :: b in v.nChainTx)
    && (forall b | b in v.nTx && b !in v.nChainTx && b.pprev !in v.failed :: (b.pprev, b) in v.unlinked)
    && (forall e | e in v.unlinked :: e.1 in v.nTx && e.1 !in v.nChainTx && e.1.pprev == e.0)
    && (forall b | b in v.failed && b in v.nTx :: b in v.nChainTx)
  }

  /** nChainTx counts the transactions from genesis on. */
  ghost predicate CountsOk(v: View) {
    && (forall b | b in v.nTx :: v.nTx[b] > 0)
    && (forall b | b in v.nChainTx && b in v.nTx ::
          v.nChainTx[b] == (if b.pprev != null && b.pprev in v.nChainTx then v.nChainTx[b.pprev] else 0) + v.nTx[b])
  }

  /** The active chain is a path of linked blocks that connect. */
  ghost predicate ActiveOk(v: View, connects: Verdict) {
    && IsPath(v.active)
    && (v.active != [] ==>
          var tip := v.active[|v.active| - 1];
          tip in v.nChainTx && tip.Linked() && ValidPath(tip, connects))
  }

  /** A failed mark always has a reason. */
  ghost predicate FailedOk(v: View, connects: Verdict) {
    && v.failed <= v.blocks
    && forall b | b in v.failed :: b.Linked() && !ValidPath(b, connects)
  }

  /** The candidates hold every usable linked block that does not sort before `best`, the best
      block that has been active so far. */
  ghost predicate CandidatesOk(v: View, best: CBlockIndex?) {
    && v.candidates <= v.nChainTx.Keys
    && forall b | b in v.nChainTx :: b.Linked() && (Usable(b, v.failed) && !WorseThan(v.seqId, b, best) ==> b in v.candidates)
  }

  ghost predicate BestOk(v: View, best: CBlockIndex?, connects: Verdict) {
    if best == null then v.active == []
    else
      && best in v.nChainTx && best.Linked() && ValidPath(best, connects)
      && (v.active != [] ==> v.active[|v.active| - 1] != null && !Worse(v.seqId, best, v.active[|v.active| - 1]))
  }

  ghost predicate Inv(v: View, best: CBlockIndex?, connects: Verdict) {
    && TreeOk(v.blocks) && DataOk(v) && CountsOk(v) && ActiveOk(v, connects) && FailedOk(v, connects)
    && CandidatesOk(v, best) && BestOk(v, best, connects)
  }

  // ----- the order -----

  lemma WorseIsOrder(seqId: map<CBlockIndex, nat>, a: CBlockIndex, b: CBlockIndex, c: CBlockIndex)
    ensures !(Worse(seqId, a, b) && Worse(seqId, b, a)) && !Worse(seqId, a, a)
    ensures Worse(seqId, a, b) && Worse(seqId, b, c) ==> Worse(seqId, a, c)
    ensures a.address != b.address ==> Worse(seqId, a, b) || Worse(seqId, b, a)
    ensures !Worse(seqId, b, a) && Worse(seqId, b, c) ==> Worse(seqId, a, c) || (a.address == b.address)
    ensures !Worse(seqId, a, b) && !Worse(seqId, b, c) ==> !Worse(seqId, a, c)
  {
  }

  /** The order in words: less work comes first, then the block that was complete later, then the one at the higher
      address. */
  lemma WorseIff(seqId: map<CBlockIndex, nat>, a: CBlockIndex, b: CBlockIndex)
    requires a in seqId && b in seqId
    ensures a.nChainWork < b.nChainWork ==> Worse(seqId, a, b)
    ensures a.nChainWork == b.nChainWork && seqId[a] > seqId[b] ==> Worse(seqId, a, b)
    ensures a.nChainWork == b.nChainWork && seqId[a] == seqId[b] && a.address > b.address ==> Worse(seqId, a, b)
    ensures Worse(seqId, a, b) ==> a.nChainWork <= b.nChainWork && (a.nChainWork == b.nChainWork ==> seqId[a] >= seqId[b])
    ensures Worse(seqId, a, b) && a.nChainWork == b.nChainWork && seqId[a] == seqId[b] ==> a.address > b.address
  {
  }

  // ----- paths -----

  lemma ValidBelow(b: CBlockIndex, h: nat, connects: Verdict)
    requires b.Linked() && h <= b.nHeight && ValidPath(b, connects)
    ensures ValidPath(b.Ancestor(h), connects)
  {
    forall k | 0 <= k <= h
      ensures connects(b.Ancestor(h).Ancestor(k))
    {
      b.AncestorOfAncestor(h, k);
    }
  }

  /** A block whose path connects is never spoiled by a failed mark. */
  lemma ValidIsUsable(v: View, b: CBlockIndex, connects: Verdict)
    requires FailedOk(v, connects) && b.Linked() && ValidPath(b, connects)
    ensures Usable(b, v.failed)
  {
    forall h | 0 <= h <= b.nHeight
      ensures b.Ancestor(h) !in v.failed
    {
      ValidBelow(b, h, connects);
    }
  }

  /** The data of `b` and of all its ancestors is there. */
  ghost predicate HasAllData(b: CBlockIndex, nTx: map<CBlockIndex, nat>)
    requires b.Linked()
  {
    forall h | 0 <= h <= b.nHeight :: b.Ancestor(h) in nTx
  }

  lemma AllDataStep(b: CBlockIndex, nTx: map<CBlockIndex, nat>)
    requires b.Linked()
    ensures HasAllData(b, nTx) <==> b in nTx && (b.pprev == null || HasAllData(b.pprev, nTx))
  {
    assert b.Ancestor(b.nHeight) == b;
    if b.pprev != null {
      forall h | 0 <= h < b.nHeight
        ensures b.Ancestor(h) == b.pprev.Ancestor(h)
      {
      }
      if HasAllData(b, nTx) {
        forall h | 0 <= h <= b.pprev.nHeight
          ensures b.pprev.Ancestor(h) in nTx
        {
          assert b.Ancestor(h) in nTx;
        }
      }
    }
  }

  /** nChainTx is set exactly on the blocks whose data is complete down to genesis. */
  lemma {:induction false} LinkedIff(v: View, b: CBlockIndex)
    requires TreeOk(v.blocks) && DataOk(v) && b in v.blocks
    ensures b in v.nChainTx <==> HasAllData(b, v.nTx)
    decreases b.nHeight
  {
    hide HasAllData, CBlockIndex.Built, CBlockIndex.Ancestor;
    AllDataStep(b, v.nTx);
    if b.pprev != null {
      LinkedIff(v, b.pprev);
    }
  }

  lemma {:induction false} LinkedBelow(v: View, b: CBlockIndex, h: nat)
    requires DataOk(v) && b in v.nChainTx && b.Linked() && h <= b.nHeight
    ensures b.Ancestor(h) in v.nChainTx
    decreases b.nHeight
  {
    if h < b.nHeight {
      LinkedBelow(v, b.pprev, h);
    }
  }

  // ----- what the invariant means for the final tip -----

  /** Once the tip is the best of all candidates, it is the best of all blocks whose data is
      complete and whose path connects. */
  lemma TipIsBest(v: View, best: CBlockIndex?, connects: Verdict, tip: CBlockIndex, b: CBlockIndex)
    requires Inv(v, best, connects) && v.active != [] && v.active[|v.active| - 1] == tip
    requires forall c | c in v.candidates :: !Worse(v.seqId, tip, c)
    requires b in v.nChainTx && b.Linked() && ValidPath(b, connects)
    ensures !Worse(v.seqId, tip, b) && best != null && !Worse(v.seqId, tip, best)
  {
    hide IsPath, CountsOk, Worse, DataOk;
    ValidIsUsable(v, best, connects);
    ValidIsUsable(v, b, connects);
    WorseIsOrder(v.seqId, best, best, best);
    assert best in v.candidates;
    if b !in v.candidates {
      assert Worse(v.seqId, b, best);
      WorseIsOrder(v.seqId, tip, best, b);
      WorseIsOrder(v.seqId, b, best, tip);
    }
  }
}
