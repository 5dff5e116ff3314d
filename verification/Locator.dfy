/** Block locators (src/chain.cpp:26-52) and finding a fork with them (src/main.cpp:583-595). */
module Locator {
  import opened BlockIndex
  import opened Powers

  /** How far entry `k` lies below the start: single steps for the first eleven, then doubling. */
  function Step(k: nat): (s: nat)
    ensures s >= 1
  {
    if k <= 10 then 1 else Pow2(k - 10)
  }

  function Depth(k: nat): (d: nat)
    ensures d >= k
  {
    if k == 0 then 0 else Depth(k - 1) + Step(k - 1)
  }

  lemma {:induction false} DepthIs(k: nat)
    ensures Depth(k) == if k <= 11 then k else 9 + Pow2(k - 10)
  {
    if k > 0 {
      DepthIs(k - 1);
      if k == 12 {
        assert Pow2(1) == 2 * Pow2(0) && Pow2(2) == 2 * Pow2(1);
      }
    }
  }

  /** The height of entry `k` of the locator of a block at height `h`. */
  function EntryHeight(h: nat, k: nat): nat { if Depth(k) < h then h - Depth(k) else 0 }

  /** The number of the last entry: the first to reach genesis. */
  function LastEntry(h: nat, k: nat): (r: nat)
    requires k == 0 || Depth(k - 1) < h
    ensures r >= k && Depth(r) >= h && (r > 0 ==> Depth(r - 1) < h)
    decreases h - Depth(k)
  {
    if Depth(k) >= h then k else LastEntry(h, k + 1)
  }

  lemma {:induction false} DepthGrows(j: nat, k: nat)
    requires j < k
    ensures Depth(j) < Depth(k)
  {
    if j < k - 1 {
      DepthGrows(j, k - 1);
    }
  }

  ghost function Entry(p: CBlockIndex, k: nat): CBlockIndex
    requires p.Linked()
  {
    p.Ancestor(EntryHeight(p.nHeight, k))
  }

  /** The blocks of a locator. */
  ghost predicate IsLocator(have: seq<nat>, p: CBlockIndex)
    requires p.Linked()
  {
    && |have| == LastEntry(p.nHeight, 0) + 1
    && forall k | 0 <= k < |have| :: have[k] == Entry(p, k).hash
  }

  method GetLocator(chain: CChain, start: CBlockIndex?) returns (vHave: seq<nat>)
    requires chain.Valid() && (start != null ==> start.Built())
    ensures var p := if start != null then start else chain.Tip();
            if p == null then vHave == [] else p.Linked() && IsLocator(vHave, p)
  {
    hide CBlockIndex.Built, CBlockIndex.Ancestor, CBlockIndex.Linked, IsPath, Depth, Step, Pow2;
    var nStep := 1;
    vHave := [];
    var index: CBlockIndex? := if start != null then start else chain.Tip();
    if index == null {
      return;
    }
    ghost var p := index;
    if start == null {
      TipBuilt(chain);
    }
    BuiltIsLinked(p);
    StepIs(0);
    while true
      invariant p.Linked() && p.Built() && index != null && index.Built() && index.Linked()
      invariant index == Entry(p, |vHave|) && index.nHeight == EntryHeight(p.nHeight, |vHave|) && nStep == Step(|vHave|)
      invariant |vHave| > 0 ==> Depth(|vHave| - 1) < p.nHeight
      invariant forall k | 0 <= k < |vHave| :: vHave[k] == Entry(p, k).hash
      decreases index.nHeight
    {
      ghost var n := |vHave|;
      vHave := vHave + [index.hash];
      StepIs(n);
      if index.nHeight == 0 {
        LastIs(p.nHeight, n, 0);
        return;
      }
      // exponentially larger steps back, plus the genesis block
      var height := if index.nHeight - nStep > 0 then index.nHeight - nStep else 0;
      p.AncestorOfAncestor(index.nHeight, height);
      if chain.Contains(index) {
        ByChain(chain, index, height);
        index := chain.At(height);
      } else {
        ghost var steps;
        index, steps := index.GetAncestor(height);
      }
      if |vHave| > 10 {
        nStep := nStep * 2;
      }
    }
  }

  lemma TipBuilt(chain: CChain)
    requires chain.Valid() && chain.Tip() != null
    ensures chain.Tip().Built()
  {
  }

  lemma StepIs(k: nat)
    ensures Step(0) == 1 && Depth(0) == 0 && Depth(k + 1) == Depth(k) + Step(k)
    ensures Step(k + 1) == if k >= 10 then 2 * Step(k) else Step(k)
  {
    if k == 10 {
      assert Pow2(1) == 2 * Pow2(0);
    }
  }

  lemma {:induction false} LastIs(h: nat, n: nat, k: nat)
    requires Depth(n) >= h && (n > 0 ==> Depth(n - 1) < h) && k <= n
    requires k == 0 || Depth(k - 1) < h
    ensures LastEntry(h, k) == n
    decreases n - k
  {
    if k < n {
      if k < n - 1 {
        DepthGrows(k, n - 1);
      }
      LastIs(h, n, k + 1);
    } else if Depth(k) < h {
      assert false;
    }
  }

  /** On the chain, ancestors are found by height. */
  lemma ByChain(chain: CChain, index: CBlockIndex, height: nat)
    requires chain.Valid() && index.Linked() && chain.Contains(index) && height <= index.nHeight
    ensures chain.At(height) == index.Ancestor(height) && index.Ancestor(height).Built() && index.Ancestor(height).nHeight == height
  {
    chain.ContainsIff(index);
    var tip := chain.vChain[|chain.vChain| - 1];
    tip.AncestorOfAncestor(index.nHeight, height);
    tip.AncestorBuilt(height);
  }

  lemma HeightsDescend(h: nat)
    ensures EntryHeight(h, 0) == h && EntryHeight(h, LastEntry(h, 0)) == 0
    ensures forall j, k | 0 <= j < k <= LastEntry(h, 0) :: EntryHeight(h, j) > EntryHeight(h, k)
    ensures LastEntry(h, 0) >= 12 ==> Pow2(LastEntry(h, 0) - 11) < h
  {
    var last := LastEntry(h, 0);
    forall j, k | 0 <= j < k <= last
      ensures EntryHeight(h, j) > EntryHeight(h, k)
    {
      DepthGrows(j, k);
      if j < last - 1 {
        DepthGrows(j, last - 1);
      }
    }
    if last >= 12 {
      DepthIs(last - 1);
    }
  }

  /** A locator starts at the block and ends at genesis, its heights strictly descend, and it is
      only logarithmically long. */
  lemma LocatorShape(have: seq<nat>, p: CBlockIndex)
    requires p.Linked() && IsLocator(have, p)
    ensures Entry(p, 0) == p && Entry(p, |have| - 1) == p.Ancestor(0)
    ensures forall j, k | 0 <= j < k < |have| :: EntryHeight(p.nHeight, j) > EntryHeight(p.nHeight, k)
    ensures |have| >= 13 ==> Pow2(|have| - 12) < p.nHeight
  {
    hide EntryHeight, LastEntry, Depth, Pow2;
    HeightsDescend(p.nHeight);
  }

  // ----- finding the fork -----

  type BlockMap = map<nat, CBlockIndex>

  /** Hashes tell blocks apart: what the map holds under the hash of a block is that block. */
  ghost predicate KnownByHash(mapBlockIndex: BlockMap, q: CBlockIndex) {
    q.hash in mapBlockIndex ==> mapBlockIndex[q.hash] == q
  }

  method FindForkInGlobalIndex(mapBlockIndex: BlockMap, chain: CChain, locator: seq<nat>) returns (r: CBlockIndex?)
    ensures forall k | 0 <= k < |locator| && OnChain(mapBlockIndex, chain, locator, k) && (forall j | 0 <= j < k :: !OnChain(mapBlockIndex, chain, locator, j)) ::
              r == mapBlockIndex[locator[k]]
    ensures (forall k | 0 <= k < |locator| :: !OnChain(mapBlockIndex, chain, locator, k)) ==> r == chain.Genesis()
  {
    for k := 0 to |locator|
      invariant forall j | 0 <= j < k :: !OnChain(mapBlockIndex, chain, locator, j)
    {
      if locator[k] in mapBlockIndex && chain.Contains(mapBlockIndex[locator[k]]) {
        assert OnChain(mapBlockIndex, chain, locator, k);
        return mapBlockIndex[locator[k]];
      }
    }
    return chain.Genesis();
  }

  ghost predicate OnChain(mapBlockIndex: BlockMap, chain: CChain, locator: seq<nat>, k: nat)
    requires k < |locator|
    reads chain
  {
    locator[k] in mapBlockIndex && chain.Contains(mapBlockIndex[locator[k]])
  }

  /** What all blocks up to height `f` on the path to `p` share with the chain. */
  lemma BelowForkOnChain(chain: CChain, p: CBlockIndex, f: nat, h: nat)
    requires chain.Valid() && p.Linked() && h <= f <= p.nHeight && chain.Contains(p.Ancestor(f))
    ensures chain.Contains(p.Ancestor(h))
  {
    p.AncestorOfAncestor(f, h);
    ByChain(chain, p.Ancestor(f), h);
  }

  /** The depth that the locator finds for a fork at depth `d`: exact up to eleven, and never more
      than twice as deep. */
  lemma FoundDepth(h: nat, d: nat, k: nat)
    requires d <= h && k <= LastEntry(h, 0)
    requires EntryHeight(h, k) <= h - d && (k > 0 ==> EntryHeight(h, k - 1) > h - d)
    ensures d <= h - EntryHeight(h, k) <= 2 * d
    ensures d <= 11 ==> h - EntryHeight(h, k) == d
  {
    DepthIs(k);
    if k > 0 {
      DepthIs(k - 1);
      if k >= 13 {
        assert Pow2(k - 10) == 2 * Pow2(k - 11);
      } else if k == 12 {
        assert Pow2(1) == 2 * Pow2(0) && Pow2(2) == 2 * Pow2(1);
      }
    }
  }

  /** Asking with the locator of `p` finds a block that chain and `p` have in common, at most twice
      as deep as the highest such block, and exactly that block when it is at most eleven deep. */
  method FindForkByLocator(mapBlockIndex: BlockMap, chain: CChain, p: CBlockIndex, locator: seq<nat>, ghost f: nat)
    returns (r: CBlockIndex?)
    requires chain.Valid() && p.Linked() && IsLocator(locator, p)
    requires forall h | 0 <= h <= p.nHeight :: KnownByHash(mapBlockIndex, p.Ancestor(h))
    requires forall q | q in chain.vChain :: q != null && q.hash in mapBlockIndex
    // the true fork
    requires f <= p.nHeight && chain.Contains(p.Ancestor(f))
    requires forall h | f < h <= p.nHeight :: !chain.Contains(p.Ancestor(h))
    ensures r != null && chain.Contains(r) && AncestorOf(r, p)
    ensures p.nHeight - f <= p.nHeight - r.nHeight <= 2 * (p.nHeight - f)
    ensures p.nHeight - f <= 11 ==> r.nHeight == f
  {
    hide IsPath, Depth, CBlockIndex.Ancestor, CBlockIndex.Linked;
    r := FindForkInGlobalIndex(mapBlockIndex, chain, locator);
    ghost var k := FirstBelow(p.nHeight, f, 0);
    forall j | 0 <= j <= k
      ensures OnChain(mapBlockIndex, chain, locator, j) <==> j == k
      ensures j == k ==> mapBlockIndex[locator[j]] == Entry(p, j)
    {
      EntryOnChain(mapBlockIndex, chain, p, locator, f, j);
    }
    assert OnChain(mapBlockIndex, chain, locator, k);
    assert r == Entry(p, k);
    FoundDepth(p.nHeight, p.nHeight - f, k);
  }

  /** The first entry at or below height `f`. */
  ghost function FirstBelow(h: nat, f: nat, k: nat): (r: nat)
    requires f <= h && k <= LastEntry(h, 0) && forall j | 0 <= j < k :: EntryHeight(h, j) > f
    ensures r <= LastEntry(h, 0) && EntryHeight(h, r) <= f && forall j | 0 <= j < r :: EntryHeight(h, j) > f
    decreases LastEntry(h, 0) - k
  {
    if EntryHeight(h, k) <= f then k else FirstBelow(h, f, k + 1)
  }

  lemma EntryOnChain(mapBlockIndex: BlockMap, chain: CChain, p: CBlockIndex, locator: seq<nat>, f: nat, j: nat)
    requires chain.Valid() && p.Linked() && IsLocator(locator, p) && j < |locator|
    requires forall h | 0 <= h <= p.nHeight :: KnownByHash(mapBlockIndex, p.Ancestor(h))
    requires forall q | q in chain.vChain :: q != null && q.hash in mapBlockIndex
    requires f <= p.nHeight && chain.Contains(p.Ancestor(f))
    requires forall h | f < h <= p.nHeight :: !chain.Contains(p.Ancestor(h))
    ensures OnChain(mapBlockIndex, chain, locator, j) <==> EntryHeight(p.nHeight, j) <= f
    ensures OnChain(mapBlockIndex, chain, locator, j) ==> mapBlockIndex[locator[j]] == Entry(p, j)
  {
    var h := EntryHeight(p.nHeight, j);
    assert KnownByHash(mapBlockIndex, p.Ancestor(h));
    if h <= f {
      BelowForkOnChain(chain, p, f, h);
      assert p.Ancestor(h) in chain.vChain;
    }
  }
}
