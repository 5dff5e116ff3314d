/** Block index entries with their skip pointers, and the active chain over them
    (src/main.cpp:3850-3897, src/chain.cpp:13-62, src/chain.h:480-551). */
module BlockIndex {
  import opened SkipHeights

  /** CBlockIndex, as far as the shape of the tree goes. An entry never changes its place: its
      links and its height are set when it is created. */
  class CBlockIndex {
    const hash: nat
    /** Total work up to this block; every block adds some. */
    const nChainWork: nat
    /** Where the entry lies in memory: the last tie breaker between blocks. */
    const address: nat
    const pprev: CBlockIndex?
    const pskip: CBlockIndex?
    const nHeight: nat

    /** Heights count the blocks down to genesis. */
    ghost predicate Linked()
      decreases nHeight
    {
      if pprev == null then nHeight == 0
      else pprev.nHeight + 1 == nHeight && pprev.nChainWork < nChainWork && pprev.Linked()
    }

    /** The ancestor at a height, by walking pprev one by one. */
    ghost function Ancestor(height: nat): (a: CBlockIndex)
      requires Linked() && height <= nHeight
      ensures a.Linked() && a.nHeight == height
      decreases nHeight
    {
      if height == nHeight then this else pprev.Ancestor(height)
    }

    /** All the way down, skip pointers point to the ancestor at the skip height. */
    ghost predicate Built()
      decreases nHeight
    {
      && Linked()
      && (pprev != null ==> pprev.Built() && pskip == pprev.Ancestor(SkipHeight(nHeight)))
    }

    lemma AncestorOfAncestor(high: nat, low: nat)
      requires Linked() && low <= high <= nHeight
      ensures Ancestor(high).Ancestor(low) == Ancestor(low)
      decreases nHeight
    {
      if high < nHeight {
        pprev.AncestorOfAncestor(high, low);
      }
    }

    lemma AncestorBuilt(height: nat)
      requires Built() && height <= nHeight
      ensures Ancestor(height).Built()
      decreases nHeight
    {
      if height < nHeight {
        pprev.AncestorBuilt(height);
      }
    }

    lemma PrevIsAncestor()
      requires Linked() && nHeight > 0
      ensures pprev != null && pprev == Ancestor(nHeight - 1)
    {
    }

    /** Where the two pointers of an ancestor lead. */
    lemma PointersLead(height: nat)
      requires Built() && 0 < height <= nHeight
      ensures Linked()
      ensures var w := Ancestor(height);
              && w.pprev == Ancestor(height - 1) && Ancestor(height - 1).Built()
              && w.pskip == Ancestor(SkipHeight(height)) && Ancestor(SkipHeight(height)).Built()
    {
      hide SkipHeight;
      AncestorBuilt(height);
      AncestorBuilt(height - 1);
      AncestorBuilt(SkipHeight(height));
      Ancestor(height).PrevIsAncestor();
      AncestorOfAncestor(height, height - 1);
      AncestorOfAncestor(height, SkipHeight(height));
    }

    constructor Genesis(hash: nat, work: nat, address: nat)
      ensures Built() && nHeight == 0 && pprev == null
      ensures this.hash == hash && nChainWork == work && this.address == address
    {
      this.hash, nChainWork, this.address := hash, work, address;
      pprev, pskip, nHeight := null, null, 0;
    }

    /** AddToBlockIndex: height and skip pointer of a new entry. */
    constructor After(hash: nat, prev: CBlockIndex, work: nat, address: nat)
      requires prev.Built() && work > 0
      ensures Built() && pprev == prev && nHeight == prev.nHeight + 1
      ensures this.hash == hash && nChainWork == prev.nChainWork + work && this.address == address
    {
      this.hash, nChainWork, this.address := hash, prev.nChainWork + work, address;
      pprev, nHeight := prev, prev.nHeight + 1;
      // BuildSkip
      ghost var steps;
      var skip;
      skip, steps := prev.GetAncestor(SkipHeight(prev.nHeight + 1));
      pskip := skip;
    }

    /** GetAncestor: whichever pointers it follows, it arrives where walking pprev would; it never
        follows a null pointer, and gives null exactly for a height the block does not have. The
        number of steps is at most quadratic in the number of binary digits of the block's height. */
    method GetAncestor(height: int) returns (a: CBlockIndex?, ghost steps: nat)
      requires Built()
      ensures a == null <==> height > nHeight || height < 0
      ensures 0 <= height <= nHeight ==> a == Ancestor(height) && a.Built() && a.Linked() && a.nHeight == height
      ensures steps <= MostSteps(nHeight)
    {
      steps := 0;
      if height > nHeight || height < 0 {
        return null, 0;
      }
      hide SkipHeight, Steps, MostSteps, Built, Linked, Ancestor;
      WalkIsShort(nHeight, height);
      BuiltIsLinked(this);
      var walk, heightWalk := this, nHeight;
      while heightWalk > height
        invariant height <= heightWalk <= nHeight
        invariant walk == Ancestor(heightWalk) && walk.Built()
        invariant steps + Steps(heightWalk, height) == Steps(nHeight, height)
      {
        steps := steps + 1;
        StepsUnfold(heightWalk, height);
        PointersLead(heightWalk);
        var heightSkip, heightSkipPrev := SkipHeight(heightWalk), SkipHeight(heightWalk - 1);
        if heightSkip == height ||
           (heightSkip > height && !(heightSkipPrev < heightSkip - 2 && heightSkipPrev >= height)) {
          walk, heightWalk := walk.pskip, heightSkip;
        } else {
          walk, heightWalk := walk.pprev, heightWalk - 1;
        }
      }
      return walk, steps;
    }
  }

  /** One step down the path to `p`. */
  lemma StepDown(p: CBlockIndex, q: CBlockIndex)
    requires p.Built() && q.Linked() && q.nHeight <= p.nHeight && p.Ancestor(q.nHeight) == q
    ensures q.Built()
    ensures q.nHeight == 0 <==> q.pprev == null
    ensures q.nHeight > 0 ==> q.pprev.Built() && q.pprev.Linked() && q.pprev.nHeight == q.nHeight - 1
                              && q.pprev == p.Ancestor(q.nHeight - 1)
  {
    p.AncestorBuilt(q.nHeight);
    if q.nHeight > 0 {
      q.PrevIsAncestor();
      p.AncestorOfAncestor(q.nHeight, q.nHeight - 1);
    }
  }

  lemma BuiltIsLinked(p: CBlockIndex)
    requires p.Built()
    ensures p.Linked() && p.Ancestor(p.nHeight) == p
  {
  }

  /** The blocks from genesis to `p`. */
  ghost function PathTo(p: CBlockIndex): (path: seq<CBlockIndex>)
    requires p.Linked()
    ensures |path| == p.nHeight + 1
    ensures forall h | 0 <= h <= p.nHeight :: path[h] == p.Ancestor(h)
  {
    seq(p.nHeight + 1, h requires 0 <= h < p.nHeight + 1 => p.Ancestor(h))
  }

  /** The chain is the path to its tip. */
  ghost predicate IsPath(chain: seq<CBlockIndex?>) {
    chain != [] ==>
      var tip := chain[|chain| - 1];
      tip != null && tip.Built() && chain == PathTo(tip)
  }

  lemma EmptyIsPath()
    ensures IsPath([])
  {
  }

  /** `a` is `p` or an ancestor of it. */
  ghost predicate AncestorOf(a: CBlockIndex, p: CBlockIndex)
    requires p.Linked()
  {
    a.nHeight <= p.nHeight && p.Ancestor(a.nHeight) == a
  }

  lemma PathKeeps(chain: seq<CBlockIndex?>, p: CBlockIndex)
    requires IsPath(chain) && p in chain
    ensures p.Built() && p.nHeight < |chain| && chain[p.nHeight] == p && chain[..p.nHeight + 1] == PathTo(p)
  {
    var tip := chain[|chain| - 1];
    var h :| 0 <= h < |chain| && chain[h] == p;
    assert tip.Ancestor(h) == p;
    tip.AncestorBuilt(h);
    forall k | 0 <= k <= p.nHeight
      ensures chain[k] == p.Ancestor(k)
    {
      tip.AncestorOfAncestor(h, k);
    }
  }

  /** Below a block of the old chain that is on the path to `p`, old and new chain agree. */
  lemma SamePathBelow(p: CBlockIndex, q: CBlockIndex, was: seq<CBlockIndex?>, now: seq<CBlockIndex?>)
    requires p.Linked() && q.Linked() && q.nHeight <= p.nHeight && q == p.Ancestor(q.nHeight)
    requires q.nHeight < |was| && was[..q.nHeight + 1] == PathTo(q)
    requires q.nHeight < |now| && forall h | 0 <= h <= q.nHeight :: now[h] == was[h]
    ensures forall h | 0 <= h <= q.nHeight :: now[h] == p.Ancestor(h)
  {
    forall h | 0 <= h <= q.nHeight
      ensures now[h] == p.Ancestor(h)
    {
      assert was[..q.nHeight + 1][h] == q.Ancestor(h);
      p.AncestorOfAncestor(q.nHeight, h);
    }
  }

  lemma PathIsPath(p: CBlockIndex)
    requires p.Built()
    ensures p.Linked() && IsPath(PathTo(p)) && |PathTo(p)| == p.nHeight + 1
    ensures forall h | 0 <= h <= p.nHeight :: PathTo(p)[h] == p.Ancestor(h)
  {
  }

  /** vector::resize */
  function Resized(chain: seq<CBlockIndex?>, size: nat): (r: seq<CBlockIndex?>)
    ensures |r| == size && forall h | 0 <= h < size :: r[h] == if h < |chain| then chain[h] else null
  {
    if |chain| >= size then chain[..size] else chain + seq(size - |chain|, _ => null)
  }

  /** From height `k` on the path to `p`, below it as at the start. */
  ghost predicate HalfWay(chain: seq<CBlockIndex?>, start: seq<CBlockIndex?>, p: CBlockIndex, k: nat)
    requires p.Linked()
  {
    && |chain| == |start| == p.nHeight + 1
    && (forall h | k <= h <= p.nHeight :: chain[h] == p.Ancestor(h))
    && (forall h | 0 <= h < k && h <= p.nHeight :: chain[h] == start[h])
  }

  lemma HalfWayStarts(start: seq<CBlockIndex?>, p: CBlockIndex)
    requires p.Linked() && |start| == p.nHeight + 1
    ensures HalfWay(start, start, p, p.nHeight + 1)
  {
  }

  lemma HalfWayStep(chain: seq<CBlockIndex?>, start: seq<CBlockIndex?>, p: CBlockIndex, q: CBlockIndex)
    requires p.Linked() && q.Linked() && q.nHeight <= p.nHeight && q == p.Ancestor(q.nHeight)
    requires HalfWay(chain, start, p, q.nHeight + 1)
    ensures HalfWay(chain[q.nHeight := q], start, p, q.nHeight)
  {
    hide CBlockIndex.Ancestor, CBlockIndex.Linked;
  }

  /** Stopping at the first match is enough: what lies below it was the path already. */
  lemma HalfWayEnds(chain: seq<CBlockIndex?>, was: seq<CBlockIndex?>, p: CBlockIndex, q: CBlockIndex?)
    requires p.Built() && p.Linked() && IsPath(was)
    requires HalfWay(chain, Resized(was, p.nHeight + 1), p, if q == null then 0 else q.nHeight + 1)
    requires q != null ==> q.Linked() && q.nHeight <= p.nHeight && q == p.Ancestor(q.nHeight) && chain[q.nHeight] == q
    ensures chain == PathTo(p) && IsPath(chain)
  {
    hide CBlockIndex.Ancestor, CBlockIndex.Linked, IsPath;
    if q != null {
      assert was[q.nHeight] == q;
      PathKeeps(was, q);
      SamePathBelow(p, q, was, chain);
    }
    PathIsPath(p);
    assert chain == PathTo(p);
  }

  class CChain {
    var vChain: seq<CBlockIndex?>

    ghost predicate Valid() reads this { IsPath(vChain) }

    constructor ()
      ensures Valid() && vChain == []
    {
      vChain := [];
    }

    function Height(): int reads this { |vChain| - 1 }

    function At(height: int): CBlockIndex?
      reads this
    {
      if 0 <= height < |vChain| then vChain[height] else null
    }

    function Tip(): CBlockIndex? reads this { At(|vChain| - 1) }

    function Genesis(): CBlockIndex? reads this { At(0) }

    predicate Contains(p: CBlockIndex) reads this { At(p.nHeight) == p }

    /** Contains looks at one entry only, and is right: the block is on the path to the tip. */
    lemma ContainsIff(p: CBlockIndex)
      requires Valid() && p.Linked()
      ensures Contains(p) <==> vChain != [] && AncestorOf(p, vChain[|vChain| - 1])
    {
    }

    /** SetTip stops at the first entry that matches, and still leaves the whole path. */
    method SetTip(p: CBlockIndex?)
      requires Valid() && (p != null ==> p.Built())
      modifies this
      ensures Valid() && vChain == if p == null then [] else PathTo(p)
    {
      hide CBlockIndex.Built, CBlockIndex.Ancestor, CBlockIndex.Linked, IsPath, PathTo, Resized, HalfWay;
      if p == null {
        EmptyIsPath();
        vChain := [];
        return;
      }
      BuiltIsLinked(p);
      ghost var was := vChain;
      var size := p.nHeight + 1;
      vChain := Resized(vChain, size);
      ghost var start := vChain;
      HalfWayStarts(start, p);
      var index: CBlockIndex? := p;
      while index != null && vChain[index.nHeight] != index
        invariant |vChain| == size && HalfWay(vChain, start, p, if index == null then 0 else index.nHeight + 1)
        invariant index != null ==> index.Built() && index.Linked() && index.nHeight < size && index == p.Ancestor(index.nHeight)
        decreases if index == null then 0 else index.nHeight + 1
      {
        HalfWayStep(vChain, start, p, index);
        vChain := vChain[index.nHeight := index];
        StepDown(p, index);
        index := index.pprev;
      }
      HalfWayEnds(vChain, was, p, index);
    }

    /** FindFork gives the highest block that the chain and the path to `p` have in common. */
    method FindFork(p: CBlockIndex) returns (fork: CBlockIndex?)
      requires Valid() && p.Built()
      ensures fork != null ==> fork.Linked() && Contains(fork) && AncestorOf(fork, p)
      ensures forall h | 0 <= h <= p.nHeight && Contains(p.Ancestor(h)) :: fork != null && h <= fork.nHeight
    {
      hide CBlockIndex.Built, CBlockIndex.Ancestor, CBlockIndex.Linked, IsPath;
      BuiltIsLinked(p);
      fork := p;
      if p.nHeight > Height() {
        ghost var steps;
        fork, steps := p.GetAncestor(Height());
      }
      while fork != null && !Contains(fork)
        invariant fork != null ==> fork.Built() && fork.Linked() && fork.nHeight <= p.nHeight && fork == p.Ancestor(fork.nHeight)
        invariant forall h | (if fork == null then 0 else fork.nHeight + 1) <= h <= p.nHeight :: !Contains(p.Ancestor(h))
        decreases if fork == null then 0 else fork.nHeight + 1
      {
        StepDown(p, fork);
        fork := fork.pprev;
      }
    }
  }

  /** LastCommonAncestor, for blocks of one tree: its assertion holds, and the result is the
      highest common ancestor. */
  method LastCommonAncestor(a: CBlockIndex, b: CBlockIndex) returns (c: CBlockIndex)
    requires a.Built() && b.Built() && a.Linked() && b.Linked() && a.Ancestor(0) == b.Ancestor(0)
    ensures c.Linked() && AncestorOf(c, a) && AncestorOf(c, b)
    ensures forall h | 0 <= h <= a.nHeight && h <= b.nHeight && a.Ancestor(h) == b.Ancestor(h) :: h <= c.nHeight
  {
    hide CBlockIndex.Built, CBlockIndex.Ancestor, CBlockIndex.Linked;
    BuiltIsLinked(a);
    BuiltIsLinked(b);
    var pa: CBlockIndex?, pb: CBlockIndex? := a, b;
    ghost var steps;
    if a.nHeight > b.nHeight {
      pa, steps := a.GetAncestor(b.nHeight);
    } else if b.nHeight > a.nHeight {
      pb, steps := b.GetAncestor(a.nHeight);
    }
    while pa != pb && pa != null && pb != null
      invariant pa != null && pb != null && pa.Linked() && pb.Linked() && pa.nHeight == pb.nHeight
      invariant pa.nHeight <= a.nHeight && pb.nHeight <= b.nHeight
      invariant pa == a.Ancestor(pa.nHeight) && pb == b.Ancestor(pb.nHeight)
      invariant forall h | pa.nHeight < h <= a.nHeight && h <= b.nHeight :: a.Ancestor(h) != b.Ancestor(h)
      decreases pa.nHeight
    {
      // at height 0 both are the genesis block
      assert pa.nHeight > 0;
      StepDown(a, pa);
      StepDown(b, pb);
      pa, pb := pa.pprev, pb.pprev;
    }
    assert pa == pb;  // the assertion of src/main.cpp:459
    c := pa;
  }
}
