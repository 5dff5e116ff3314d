/** The stake modifier: up to 64 blocks are drawn from the recent ones, each gives one bit
    (src/kernel.cpp:21-134, 142-239, 244-273). */
module StakeModifier {
  import opened Options
  import opened Powers
  import opened Sets

  const MODIFIER_INTERVAL := 60
  const MODIFIER_INTERVAL_RATIO := 3

  datatype Block = Block(hash: nat, time: nat, height: nat, isProofOfStake: bool, generated: bool, modifier: nat) {
    function EntropyBit(): nat { hash % 2 }
  }

  /** The double hash of a proof hash and a modifier. */
  type Hasher = (nat, nat) -> nat

  /** A candidate as it is sorted: its time and its hash. */
  type Item = (nat, nat)

  // ----- interval sections -----

  function Section(n: nat): nat
    requires n < 64
  {
    MODIFIER_INTERVAL * 63 / (63 + (63 - n) * (MODIFIER_INTERVAL_RATIO - 1))
  }

  function Sections(k: nat): nat
    requires k <= 64
  {
    if k == 0 then 0 else Sections(k - 1) + Section(k - 1)
  }

  lemma NoSections()
    ensures Sections(0) == 0
  {
  }

  lemma OneMoreSection(k: nat)
    requires k < 64
    ensures Sections(k + 1) == Sections(k) + Section(k)
  {
  }

  method SelectionInterval() returns (n: nat)
    ensures n == Sections(64)
  {
    n := 0;
    for k := 0 to 64
      invariant n == Sections(k)
    {
      n := n + Section(k);
    }
  }

  /** The first round ends 20 seconds after the start, and the last section is a minute; */
  lemma SectionsAre()
    ensures Section(0) == 20 && Section(63) == 60
  {
  }

  /** all sections together take 2087 seconds. */
  lemma IntervalIs(k: nat)
    requires k == 64
    ensures Sections(k) == 2087
  {
    hide Sections, SumOfEight;
    HalfIs(k - 32);
    EightFrom32(k - 32);
    EightFrom40(k - 24);
    EightFrom48(k - 16);
    EightFrom56(k - 8);
    EightMore(k - 32, 253);
    EightMore(k - 24, 293);
    EightMore(k - 16, 348);
    EightMore(k - 8, 431);
  }

  lemma HalfIs(k: nat)
    requires k == 32
    ensures Sections(k) == 762
  {
    hide Sections, SumOfEight;
    NoSections();
    EightFrom0(k - 32);
    EightFrom8(k - 24);
    EightFrom16(k - 16);
    EightFrom24(k - 8);
    EightMore(k - 32, 163);
    EightMore(k - 24, 178);
    EightMore(k - 16, 199);
    EightMore(k - 8, 222);
  }

  lemma EightFrom0(k: nat)
    requires k == 0
    ensures SumOfEight(k) == 163
  {
  }

  lemma EightFrom8(k: nat)
    requires k == 8
    ensures SumOfEight(k) == 178
  {
  }

  lemma EightFrom16(k: nat)
    requires k == 16
    ensures SumOfEight(k) == 199
  {
  }

  lemma EightFrom24(k: nat)
    requires k == 24
    ensures SumOfEight(k) == 222
  {
  }

  lemma EightFrom32(k: nat)
    requires k == 32
    ensures SumOfEight(k) == 253
  {
  }

  lemma EightFrom40(k: nat)
    requires k == 40
    ensures SumOfEight(k) == 293
  {
  }

  lemma EightFrom48(k: nat)
    requires k == 48
    ensures SumOfEight(k) == 348
  {
  }

  lemma EightFrom56(k: nat)
    requires k == 56
    ensures SumOfEight(k) == 431
  {
    assert Section(k) == 49 && Section(k + 1) == 50 && Section(k + 2) == 51 && Section(k + 3) == 53;
  }

  function SumOfEight(k: nat): nat
    requires k + 8 <= 64
  {
    Section(k) + Section(k + 1) + Section(k + 2) + Section(k + 3) + Section(k + 4) + Section(k + 5) + Section(k + 6) + Section(k + 7)
  }

  lemma EightMore(k: nat, sum: nat)
    requires k + 8 <= 64
    requires sum == SumOfEight(k)
    ensures Sections(k + 8) == Sections(k) + sum
  {
    hide Sections, Section;
    OneMoreSection(k);
    OneMoreSection(k + 1);
    OneMoreSection(k + 2);
    OneMoreSection(k + 3);
    OneMoreSection(k + 4);
    OneMoreSection(k + 5);
    OneMoreSection(k + 6);
    OneMoreSection(k + 7);
  }

  /** No section is shorter than one before. */
  lemma SectionGrows(k: nat, n: nat)
    requires k <= n < 64
    ensures Section(k) <= Section(n)
  {
    QuotientGrows(3780, 63 + (63 - n) * 2, 63 + (63 - k) * 2);
  }

  lemma QuotientGrows(a: nat, d: nat, e: nat)
    requires 0 < d <= e
    ensures a / e <= a / d
  {
    if a / e > a / d {
      assert a / e >= a / d + 1;
      MulMono(a / d + 1, a / e, d);
      MulMono(d, e, a / e);
    }
  }

  // ----- sorting -----

  predicate Before(a: Item, b: Item) { a.0 < b.0 || (a.0 == b.0 && a.1 <= b.1) }

  predicate InOrder(s: seq<Item>) { forall i, j | 0 <= i < j < |s| :: Before(s[i], s[j]) }

  predicate DistinctHashes(s: seq<Item>) { forall i, j | 0 <= i < j < |s| :: s[i].1 != s[j].1 }

  function Insert(a: Item, s: seq<Item>): (r: seq<Item>)
    ensures |r| == |s| + 1 && forall x :: x in r <==> x == a || x in s
  {
    if s == [] || Before(a, s[0]) then [a] + s
    else
      assert s == [s[0]] + s[1..];
      [s[0]] + Insert(a, s[1..])
  }

  /** std::sort on pairs */
  function Sort(s: seq<Item>): (r: seq<Item>)
    ensures |r| == |s| && forall x :: x in r <==> x in s
  {
    if s == [] then []
    else
      assert s == [s[0]] + s[1..];
      Insert(s[0], Sort(s[1..]))
  }

  lemma {:induction false} InsertKeeps(a: Item, s: seq<Item>)
    requires InOrder(s) && DistinctHashes(s) && forall x | x in s :: x.1 != a.1
    ensures InOrder(Insert(a, s)) && DistinctHashes(Insert(a, s))
  {
    if s == [] {
    } else if Before(a, s[0]) {
      forall k | 0 <= k < |s|
        ensures Before(a, s[k]) && s[k] in s
      {
        assert k == 0 || Before(s[0], s[k]);
      }
    } else {
      var t := Insert(a, s[1..]);
      InsertKeeps(a, s[1..]);
      FrontFits(s[0], t);
      assert Insert(a, s) == [s[0]] + t;
    }
  }

  lemma FrontFits(x: Item, t: seq<Item>)
    requires InOrder(t) && DistinctHashes(t) && forall y | y in t :: Before(x, y) && x.1 != y.1
    ensures InOrder([x] + t) && DistinctHashes([x] + t)
  {
    var r := [x] + t;
    forall i, j | 0 <= i < j < |r|
      ensures Before(r[i], r[j]) && r[i].1 != r[j].1
    {
      assert r[j] in t;
    }
  }

  lemma {:induction false} SortKeeps(s: seq<Item>)
    requires DistinctHashes(s)
    ensures InOrder(Sort(s)) && DistinctHashes(Sort(s))
  {
    if s != [] {
      SortKeeps(s[1..]);
      forall x | x in s[1..]
        ensures x.1 != s[0].1
      {
        var i :| 0 <= i < |s| - 1 && s[1..][i] == x;
        assert s[i + 1] == x;
      }
      InsertKeeps(s[0], Sort(s[1..]));
    }
  }

  // ----- one round -----

  /** What a round of the draw looks at. */
  datatype Draw = Draw(cands: seq<Block>, previous: nat, upgraded: bool, hasher: Hasher) {
    /** Proof-of-stake blocks are favoured by dropping 32 bits. */
    function Score(i: nat): nat
      requires i < |cands|
    {
      var b := cands[i];
      var proof := if upgraded then b.hash else if b.isProofOfStake then 0 else b.hash;
      if b.isProofOfStake then hasher(proof, previous) / B else hasher(proof, previous)
    }

    predicate Free(selected: set<nat>, i: nat) { i < |cands| && cands[i].hash !in selected }

    predicate InTime(selected: set<nat>, stop: int, i: nat) { Free(selected, i) && cands[i].time <= stop }

    /** `i` is at least as good as `j`. */
    predicate Beats(i: nat, j: nat)
      requires i < |cands| && j < |cands|
    {
      Score(i) < Score(j) || (Score(i) == Score(j) && i <= j)
    }

    /** `i` has the least score of the free candidates in time; or it is the earliest free one, when
        none is in time. */
    ghost predicate IsPick(selected: set<nat>, stop: int, i: nat) {
      && Free(selected, i)
      && (if exists j :: InTime(selected, stop, j) then
            InTime(selected, stop, i) && forall j | InTime(selected, stop, j) :: Beats(i, j)
          else forall j | Free(selected, j) :: i <= j)
    }

    lemma PickIsUnique(selected: set<nat>, stop: int, i: nat, j: nat)
      requires IsPick(selected, stop, i) && IsPick(selected, stop, j)
      ensures i == j
    {
      hide Score;
    }
  }

  /** What is hashed for a block: its own hash, but for a proof-of-stake block zero before the upgrade. */
  function Proof(d: Draw, i: nat): nat
    requires i < |d.cands|
  {
    if d.cands[i].isProofOfStake && !d.upgraded then 0 else d.cands[i].hash
  }

  /** The pick is in time if any free candidate is; and then no other that is has a lower hash, where a
      proof-of-stake block's hash is counted at one part in 2^32, nor the same and an earlier place. */
  lemma PickTells(d: Draw, selected: set<nat>, stop: int, i: nat, j: nat)
    requires d.IsPick(selected, stop, i) && j < |d.cands| && d.cands[j].hash !in selected && d.cands[j].time <= stop
    ensures i < |d.cands| && d.cands[i].hash !in selected && d.cands[i].time <= stop
    ensures var a, b := d.hasher(Proof(d, i), d.previous), d.hasher(Proof(d, j), d.previous);
            match (d.cands[i].isProofOfStake, d.cands[j].isProofOfStake)
            case (true, true) => a / 0x1_0000_0000 < b / 0x1_0000_0000 || (a / 0x1_0000_0000 == b / 0x1_0000_0000 && i <= j)
            case (true, false) => a / 0x1_0000_0000 < b || (a / 0x1_0000_0000 == b && i <= j)
            case (false, true) => a < b / 0x1_0000_0000 || (a == b / 0x1_0000_0000 && i <= j)
            case (false, false) => a < b || (a == b && i <= j)
  {
    assert d.InTime(selected, stop, j);
  }

  /** Stake is favoured: a proof-of-work block is not picked while a proof-of-stake block in time has a hash below
      2^32 times its own. */
  lemma StakeIsFavoured(d: Draw, selected: set<nat>, stop: int, stake: nat, work: nat)
    requires stake < |d.cands| && d.cands[stake].hash !in selected && d.cands[stake].time <= stop
    requires d.cands[stake].isProofOfStake && work < |d.cands| && !d.cands[work].isProofOfStake
    requires d.hasher(if d.upgraded then d.cands[stake].hash else 0, d.previous) / 0x1_0000_0000 < d.hasher(d.cands[work].hash, d.previous)
    ensures !d.IsPick(selected, stop, work)
  {
    if d.IsPick(selected, stop, work) {
      PickTells(d, selected, stop, work, stake);
    }
  }

  /** When none is in time, the earliest free candidate is picked. */
  lemma EarliestIsPicked(d: Draw, selected: set<nat>, stop: int, i: nat, j: nat)
    requires d.IsPick(selected, stop, i) && forall k | 0 <= k < |d.cands| && d.cands[k].time <= stop :: d.cands[k].hash in selected
    requires j < i
    ensures i < |d.cands| && d.cands[i].hash !in selected && d.cands[j].hash in selected
  {
    assert forall k :: !d.InTime(selected, stop, k);
    assert !d.Free(selected, j);
  }

  predicate Indexed(sorted: seq<Item>, index: map<nat, Block>) {
    forall i | 0 <= i < |sorted| ::
      sorted[i].1 in index && index[sorted[i].1].hash == sorted[i].1 && index[sorted[i].1].time == sorted[i].0
  }

  function Cands(sorted: seq<Item>, index: map<nat, Block>): (r: seq<Block>)
    requires Indexed(sorted, index)
    ensures |r| == |sorted| && forall i | 0 <= i < |r| :: r[i] == index[sorted[i].1]
  {
    seq(|sorted|, i requires 0 <= i < |sorted| => index[sorted[i].1])
  }

  function DrawOf(sorted: seq<Item>, index: map<nat, Block>, previous: nat, upgrade: int, hasher: Hasher): Draw
    requires Indexed(sorted, index)
  {
    var cands := Cands(sorted, index);
    Draw(cands, previous, cands != [] && cands[0].height >= upgrade, hasher)
  }

  /** A round fails only for want of a free candidate, or of a candidate's index entry. */
  method SelectBlockFromCandidates(sorted: seq<Item>, index: map<nat, Block>, selected: set<nat>, stop: int, previous: nat,
                                   upgrade: int, hasher: Hasher) returns (fSelected: bool, pick: nat)
    requires InOrder(sorted)
    ensures fSelected ==> pick < |sorted|
    ensures Indexed(sorted, index) ==>
              var d := DrawOf(sorted, index, previous, upgrade, hasher);
              && (fSelected <==> exists i :: d.Free(selected, i))
              && (fSelected ==> d.IsPick(selected, stop, pick))
  {
    var fModifierV2, fFirstRun, hashBest := false, true, 0;
    fSelected, pick := false, 0;
    for k := 0 to |sorted|
      invariant fFirstRun == (k == 0) && (fSelected ==> pick < k)
      invariant Indexed(sorted, index) ==>
                  Scanned(DrawOf(sorted, index, previous, upgrade, hasher), selected, stop, k, fSelected, pick, hashBest)
      invariant Indexed(sorted, index) && k > 0 ==> fModifierV2 == DrawOf(sorted, index, previous, upgrade, hasher).upgraded
    {
      if sorted[k].1 !in index {
        return false, 0;
      }
      var pindex := index[sorted[k].1];
      if fSelected && pindex.time > stop {
        if Indexed(sorted, index) {
          ScanStops(sorted, index, previous, upgrade, hasher, selected, stop, k, pick, hashBest);
        }
        return;
      }
      if fFirstRun {
        fModifierV2 := pindex.height >= upgrade;
        fFirstRun := false;
      }
      if pindex.hash !in selected {
        var hashProof := if fModifierV2 then pindex.hash else if pindex.isProofOfStake then 0 else pindex.hash;
        var hashSelection := hasher(hashProof, previous);
        if pindex.isProofOfStake {
          hashSelection := Over(hashSelection, B);
        }
        if fSelected && hashSelection < hashBest {
          hashBest := hashSelection;
          pick := k;
        } else if !fSelected {
          fSelected := true;
          hashBest := hashSelection;
          pick := k;
        }
      }
    }
    if Indexed(sorted, index) {
      ScanEnds(DrawOf(sorted, index, previous, upgrade, hasher), selected, stop, fSelected, pick, hashBest);
    }
  }

  lemma ScanEnds(d: Draw, selected: set<nat>, stop: int, fSelected: bool, pick: nat, hashBest: nat)
    requires Scanned(d, selected, stop, |d.cands|, fSelected, pick, hashBest)
    ensures fSelected <==> exists i :: d.Free(selected, i)
    ensures fSelected ==> d.IsPick(selected, stop, pick)
  {
    hide Draw.Score, Draw.Beats;
  }

  /** After the first `k` candidates, as long as the scan has not stopped: what has been picked is the
      best so far, or a first one out of time. */
  ghost predicate Scanned(d: Draw, selected: set<nat>, stop: int, k: nat, fSelected: bool, pick: nat, hashBest: nat)
  {
    && k <= |d.cands|
    && (!fSelected ==> forall j: nat | j < k :: !d.Free(selected, j))
    && (fSelected ==>
          && pick < k && d.Free(selected, pick) && hashBest == d.Score(pick)
          && (forall j: nat | j < k && d.Free(selected, j) :: d.Beats(pick, j))
          && (forall j: nat | j < k && d.Free(selected, j) && j != pick :: d.cands[j].time <= stop && d.cands[pick].time <= stop))
  }

  lemma ScanStops(sorted: seq<Item>, index: map<nat, Block>, previous: nat, upgrade: int, hasher: Hasher,
                  selected: set<nat>, stop: int, k: nat, pick: nat, hashBest: nat)
    requires InOrder(sorted) && Indexed(sorted, index) && k < |sorted| && index[sorted[k].1].time > stop
    requires Scanned(DrawOf(sorted, index, previous, upgrade, hasher), selected, stop, k, true, pick, hashBest)
    ensures DrawOf(sorted, index, previous, upgrade, hasher).IsPick(selected, stop, pick)
  {
    var d := DrawOf(sorted, index, previous, upgrade, hasher);
    hide Draw.Score;
    forall j | k <= j < |sorted|
      ensures d.cands[j].time > stop
    {
      assert j == k || Before(sorted[k], sorted[j]);
    }
  }

  // ----- the whole draw -----

  function Hashes(cands: seq<Block>, picks: seq<nat>): set<nat>
    requires forall r | 0 <= r < |picks| :: picks[r] < |cands|
  {
    set r | 0 <= r < |picks| :: cands[picks[r]].hash
  }

  /** One pick for each round, each made among what the earlier rounds left. */
  ghost predicate IsDraw(d: Draw, start: int, picks: seq<nat>) {
    && |picks| <= 64 && (forall r | 0 <= r < |picks| :: picks[r] < |d.cands|)
    && (forall r | 0 <= r < |picks| :: RoundOk(d, start, picks, r))
  }

  ghost predicate RoundOk(d: Draw, start: int, picks: seq<nat>, r: nat)
    requires r < |picks| && r < 64 && forall q | 0 <= q < |picks| :: picks[q] < |d.cands|
  {
    d.IsPick(Hashes(d.cands, picks[..r]), start + Sections(r + 1), picks[r])
  }

  /** Round by round: the first pick is the best up to 20 seconds after the start, among all candidates; each
      round has its section more than the one before, and leaves out what was picked; the 64th ends after
      2087 seconds. */
  lemma RoundsAre(d: Draw, start: int, picks: seq<nat>, r: nat, last: nat)
    requires IsDraw(d, start, picks) && r < |picks| && last == 63
    ensures forall q | 0 <= q < r :: d.cands[picks[q]].hash != d.cands[picks[r]].hash
    ensures r == 0 ==> d.IsPick({}, start + 20, picks[r])
    ensures r == last ==> d.IsPick(Hashes(d.cands, picks[..r]), start + 2087, picks[r])
    ensures d.IsPick(Hashes(d.cands, picks[..r]), start + Sections(r) + Section(r), picks[r])
  {
    hide Draw.IsPick, Sections, Section;
    assert RoundOk(d, start, picks, r);
    forall q | 0 <= q < r
      ensures d.cands[picks[q]].hash != d.cands[picks[r]].hash
    {
      PicksAreDistinct(d, start, picks, q, r);
    }
    NoSections();
    OneMoreSection(r);
    if r == 0 {
      SectionsAre();
      assert Hashes(d.cands, picks[..0]) == {};
    }
    if r == last {
      IntervalIs(last + 1);
    }
  }

  /** The picks are pairwise distinct. */
  lemma PicksAreDistinct(d: Draw, start: int, picks: seq<nat>, q: nat, r: nat)
    requires IsDraw(d, start, picks) && q < r < |picks|
    ensures picks[q] != picks[r] && d.cands[picks[q]].hash != d.cands[picks[r]].hash
  {
    hide Draw.InTime, Draw.Beats;
    assert RoundOk(d, start, picks, r);
    assert picks[..r][q] == picks[q];
    assert d.cands[picks[q]].hash in Hashes(d.cands, picks[..r]);
  }

  /** There is only one draw of each length. */
  lemma {:induction false} DrawIsUnique(d: Draw, start: int, a: seq<nat>, b: seq<nat>)
    requires IsDraw(d, start, a) && IsDraw(d, start, b) && |a| == |b|
    ensures a == b
  {
    hide Draw.IsPick;
    if a != [] {
      var n := |a| - 1;
      DrawPrefix(d, start, a);
      DrawPrefix(d, start, b);
      DrawIsUnique(d, start, a[..n], b[..n]);
      assert RoundOk(d, start, a, n) && RoundOk(d, start, b, n);
      d.PickIsUnique(Hashes(d.cands, a[..n]), start + Sections(n + 1), a[n], b[n]);
    }
  }

  lemma DrawPrefix(d: Draw, start: int, a: seq<nat>)
    requires IsDraw(d, start, a) && a != []
    ensures IsDraw(d, start, a[..|a| - 1])
  {
    hide Draw.IsPick;
    var n := |a| - 1;
    forall r | 0 <= r < n
      ensures RoundOk(d, start, a[..n], r)
    {
      assert RoundOk(d, start, a, r);
      assert a[..n][..r] == a[..r];
    }
  }

  lemma DrawGrows(d: Draw, start: int, picks: seq<nat>, pick: nat)
    requires IsDraw(d, start, picks) && |picks| < 64 && pick < |d.cands|
    requires d.IsPick(Hashes(d.cands, picks), start + Sections(|picks| + 1), pick)
    ensures IsDraw(d, start, picks + [pick])
    ensures Hashes(d.cands, picks + [pick]) == Hashes(d.cands, picks) + {d.cands[pick].hash}
  {
    hide Draw.IsPick;
    var more := picks + [pick];
    assert more[..|picks|] == picks;
    forall r | 0 <= r < |more|
      ensures RoundOk(d, start, more, r)
    {
      if r < |picks| {
        assert RoundOk(d, start, picks, r);
        assert more[..r] == picks[..r];
      }
    }
    assert more[|picks|] == pick;
    forall h | h in Hashes(d.cands, picks)
      ensures h in Hashes(d.cands, more)
    {
      var r :| 0 <= r < |picks| && d.cands[picks[r]].hash == h;
      assert more[r] == picks[r];
    }
  }

  predicate DistinctBlocks(s: seq<Block>) { forall i, j | 0 <= i < j < |s| :: s[i].hash != s[j].hash }

  /** As long as there are fewer picks than candidates, one is free. */
  lemma SomeFree(d: Draw, picks: seq<nat>)
    requires DistinctBlocks(d.cands) && |picks| < |d.cands| && forall r | 0 <= r < |picks| :: picks[r] < |d.cands|
    ensures exists i :: d.Free(Hashes(d.cands, picks), i)
  {
    var taken := Taken(picks);
    if Upto(|d.cands|) <= taken {
      SubsetCount(Upto(|d.cands|), taken);
      assert false;
    }
    var i :| i in Upto(|d.cands|) && i !in taken;
    forall r | 0 <= r < |picks|
      ensures d.cands[picks[r]].hash != d.cands[i].hash
    {
      assert picks[r] in taken;
    }
    assert d.Free(Hashes(d.cands, picks), i);
  }

  function Upto(n: nat): (r: set<nat>)
    ensures |r| == n && forall i: nat :: i in r <==> i < n
  {
    if n == 0 then {} else Upto(n - 1) + {n - 1}
  }

  function Taken(picks: seq<nat>): (r: set<nat>)
    ensures |r| <= |picks| && forall i :: i in r <==> i in picks
  {
    if picks == [] then {}
    else
      assert picks == [picks[0]] + picks[1..];
      Taken(picks[1..]) + {picks[0]}
  }

  // ----- the bits -----

  /** One bit for each pick, the first lowest. */
  function BitsOf(cands: seq<Block>, picks: seq<nat>, k: nat): (m: nat)
    requires k <= |picks| && forall r | 0 <= r < |picks| :: picks[r] < |cands|
    ensures m < Pow2(k)
  {
    if k == 0 then 0
    else BitsOf(cands, picks, k - 1) + if cands[picks[k - 1]].EntropyBit() == 1 then Pow2(k - 1) else 0
  }

  /** Bit `r` is the entropy bit of round `r`'s block, and there are no others. */
  lemma {:induction false} EachRoundGivesItsBit(cands: seq<Block>, picks: seq<nat>, k: nat, r: nat)
    requires k <= |picks| && forall q | 0 <= q < |picks| :: picks[q] < |cands|
    ensures BitOf(BitsOf(cands, picks, k), r) <==> r < k && cands[picks[r]].EntropyBit() == 1
    decreases k
  {
    hide Pow2, BitOf;
    if k <= r {
      Pow2Grows(k, r);
      TopBit(BitsOf(cands, picks, k), r);
    } else {
      var low := BitsOf(cands, picks, k - 1);
      if r == k - 1 {
        TopBit(low, r);
      } else {
        EachRoundGivesItsBit(cands, picks, k - 1, r);
        LowerBit(low, k - 1, r);
      }
    }
  }

  lemma {:induction false} BitsSame(cands: seq<Block>, a: seq<nat>, b: seq<nat>, k: nat)
    requires k <= |a| && k <= |b| && a[..k] == b[..k]
    requires (forall r | 0 <= r < |a| :: a[r] < |cands|) && (forall r | 0 <= r < |b| :: b[r] < |cands|)
    ensures BitsOf(cands, a, k) == BitsOf(cands, b, k)
  {
    if k > 0 {
      assert a[..k - 1] == a[..k][..k - 1] && b[..k - 1] == b[..k][..k - 1];
      BitsSame(cands, a, b, k - 1);
      assert a[..k][k - 1] == b[..k][k - 1];
    }
  }

  /** |= bit << round */
  lemma OneMoreBit(cands: seq<Block>, picks: seq<nat>, pick: nat)
    requires pick < |cands| && forall r | 0 <= r < |picks| :: picks[r] < |cands|
    ensures var k := |picks|;
            Or(BitsOf(cands, picks, k), Times(cands[pick].EntropyBit(), Pow2(k))) == BitsOf(cands, picks + [pick], k + 1)
  {
    hide Pow2, Or;
    var k, more := |picks|, picks + [pick];
    assert more[..k] == picks == picks[..k];
    BitsSame(cands, picks, more, k);
    OrDisjoint(BitsOf(cands, picks, k), cands[pick].EntropyBit(), k);
  }

  // ----- ComputeNextStakeModifier -----

  datatype Outcome = Failed | Kept(modifier: nat) | Generated(modifier: nat)

  /** The highest of the first `k` blocks that generated a modifier. */
  function LastGenerated(chain: seq<Block>, k: nat): (r: Option<nat>)
    requires k <= |chain|
    ensures r.None? ==> forall i | 0 <= i < k :: !chain[i].generated
    ensures r.Some? ==> r.value < k && chain[r.value].generated && forall j | r.value < j < k :: !chain[j].generated
  {
    if k == 0 then None else if chain[k - 1].generated then Some(k - 1) else LastGenerated(chain, k - 1)
  }

  /** Where the unbroken run of blocks from `start` on begins. */
  function FirstRecent(chain: seq<Block>, start: int, k: nat): (f: nat)
    requires k <= |chain|
    ensures f <= k && (forall i | f <= i < k :: chain[i].time >= start) && (f > 0 ==> chain[f - 1].time < start)
  {
    if k == 0 || chain[k - 1].time < start then k else FirstRecent(chain, start, k - 1)
  }

  function Items(chain: seq<Block>, f: nat): (r: seq<Item>)
    requires f <= |chain|
    ensures |r| == |chain| - f && forall i | 0 <= i < |r| :: r[i] == (chain[f + i].time, chain[f + i].hash)
  {
    seq(|chain| - f, i requires 0 <= i < |chain| - f => (chain[f + i].time, chain[f + i].hash))
  }

  function StartOf(chain: seq<Block>): int
    requires chain != []
  {
    chain[|chain| - 1].time / MODIFIER_INTERVAL * MODIFIER_INTERVAL - Sections(64)
  }

  /** The candidates of a chain, by time and then by hash. */
  function Sorted(chain: seq<Block>): seq<Item>
    requires chain != []
  {
    Sort(Items(chain, FirstRecent(chain, StartOf(chain), |chain|)))
  }

  /** The candidates are the blocks back to the first that is older than the start, which lies 2087 seconds before
      the last full minute; they are sorted by time, and at the same time by hash. */
  lemma SortedAre(chain: seq<Block>, item: Item)
    requires chain != []
    ensures StartOf(chain) + 2087 <= chain[|chain| - 1].time < StartOf(chain) + 2087 + 60 && (StartOf(chain) + 2087) % 60 == 0
    ensures item in Sorted(chain) <==>
            exists k :: 0 <= k < |chain| && item == (chain[k].time, chain[k].hash)
                        && forall g | k <= g < |chain| :: chain[g].time >= StartOf(chain)
    ensures DistinctBlocks(chain) ==>
              forall i, j | 0 <= i < j < |Sorted(chain)| ::
                Sorted(chain)[i].0 < Sorted(chain)[j].0
                || (Sorted(chain)[i].0 == Sorted(chain)[j].0 && Sorted(chain)[i].1 < Sorted(chain)[j].1)
  {
    hide Sections, Sort;
    IntervalIs(64);
    var f := FirstRecent(chain, StartOf(chain), |chain|);
    var items := Items(chain, f);
    if item in Sorted(chain) {
      var i :| 0 <= i < |items| && items[i] == item;
      assert item == (chain[f + i].time, chain[f + i].hash);
    }
    if k :| 0 <= k < |chain| && item == (chain[k].time, chain[k].hash) && forall g | k <= g < |chain| :: chain[g].time >= StartOf(chain) {
      assert f <= k;
      assert items[k - f] == item;
    }
    if DistinctBlocks(chain) {
      SortKeeps(items);
    }
  }

  /** The upgrade counts from the earliest candidate's height on. */
  lemma UpgradedIff(sorted: seq<Item>, index: map<nat, Block>, previous: nat, upgrade: int, hasher: Hasher)
    requires Indexed(sorted, index) && sorted != []
    ensures DrawOf(sorted, index, previous, upgrade, hasher).upgraded <==> index[sorted[0].1].height >= upgrade
  {
  }

  predicate InIndex(chain: seq<Block>, index: map<nat, Block>) {
    DistinctBlocks(chain) && forall i | 0 <= i < |chain| :: chain[i].hash in index && index[chain[i].hash] == chain[i]
  }

  lemma SortedIsIndexed(chain: seq<Block>, index: map<nat, Block>)
    requires chain != [] && InIndex(chain, index)
    ensures Indexed(Sorted(chain), index) && InOrder(Sorted(chain)) && DistinctBlocks(Cands(Sorted(chain), index))
  {
    hide Sections;
    var items := Items(chain, FirstRecent(chain, StartOf(chain), |chain|));
    SortKeeps(items);
    forall i | 0 <= i < |Sort(items)|
      ensures Sort(items)[i] in items
    {
    }
  }

  /** The new modifier of a chain, told by its draw. */
  ghost predicate IsNewModifier(chain: seq<Block>, index: map<nat, Block>, previous: nat, upgrade: int, hasher: Hasher,
                                picks: seq<nat>, modifier: nat)
    requires chain != [] && InIndex(chain, index)
  {
    SortedIsIndexed(chain, index);
    var d := DrawOf(Sorted(chain), index, previous, upgrade, hasher);
    && |picks| == Min(64, |d.cands|) && IsDraw(d, StartOf(chain), picks) && modifier == BitsOf(d.cands, picks, |picks|)
  }

  function Min(a: nat, b: nat): nat { if a < b then a else b }

  /** It fails exactly when the last block is not genesis and no block has a modifier; no round of a
      draw ever fails. `literal` stands for the modifier of the first block. */
  method ComputeNextStakeModifier(chain: seq<Block>, index: map<nat, Block>, upgrade: int, hasher: Hasher, literal: nat)
    returns (r: Outcome)
    requires InIndex(chain, index)
    ensures chain == [] ==> r == Generated(0)
    ensures chain != [] && chain[|chain| - 1].height == 0 ==> r == Generated(literal)
    ensures chain != [] && chain[|chain| - 1].height != 0 ==>
              match LastGenerated(chain, |chain|)
              case None => r == Failed
              case Some(g) =>
                if chain[g].time / MODIFIER_INTERVAL >= chain[|chain| - 1].time / MODIFIER_INTERVAL then r == Kept(chain[g].modifier)
                else r.Generated? && exists picks :: IsNewModifier(chain, index, chain[g].modifier, upgrade, hasher, picks, r.modifier)
  {
    hide Sections, Sort, FirstRecent, IsNewModifier, InIndex;
    if chain == [] {
      return Generated(0);
    }
    var prev := chain[|chain| - 1];
    if prev.height == 0 {
      return Generated(literal);
    }
    var g := |chain| - 1;
    while g > 0 && !chain[g].generated
      invariant 0 <= g < |chain| && LastGenerated(chain, |chain|) == LastGenerated(chain, g + 1)
    {
      g := g - 1;
    }
    if !chain[g].generated {
      return Failed;
    }
    var nStakeModifier := chain[g].modifier;
    if chain[g].time / MODIFIER_INTERVAL >= prev.time / MODIFIER_INTERVAL {
      return Kept(nStakeModifier);
    }
    var nSelectionInterval := SelectionInterval();
    var nStart := prev.time / MODIFIER_INTERVAL * MODIFIER_INTERVAL - nSelectionInterval;
    var items := CollectCandidates(chain, nStart);
    var vSorted := Sort(items);
    var modifier := DrawBits(chain, index, vSorted, nStart, nStakeModifier, upgrade, hasher);
    return Generated(modifier);
  }

  method CollectCandidates(chain: seq<Block>, nStart: int) returns (items: seq<Item>)
    ensures items == Items(chain, FirstRecent(chain, nStart, |chain|))
  {
    var back: seq<Item> := [];
    var k := |chain|;
    while k > 0 && chain[k - 1].time >= nStart
      invariant 0 <= k <= |chain| && FirstRecent(chain, nStart, |chain|) == FirstRecent(chain, nStart, k)
      invariant |back| == |chain| - k
      invariant forall i | 0 <= i < |back| :: back[i] == (chain[|chain| - 1 - i].time, chain[|chain| - 1 - i].hash)
    {
      back := back + [(chain[k - 1].time, chain[k - 1].hash)];
      k := k - 1;
    }
    items := seq(|back|, i requires 0 <= i < |back| => back[|back| - 1 - i]);
    assert items == Items(chain, k);
  }

  method DrawBits(chain: seq<Block>, index: map<nat, Block>, vSorted: seq<Item>, nStart: int, previous: nat, upgrade: int,
                  hasher: Hasher) returns (modifier: nat)
    requires chain != [] && InIndex(chain, index) && vSorted == Sorted(chain) && nStart == StartOf(chain)
    ensures exists picks :: IsNewModifier(chain, index, previous, upgrade, hasher, picks, modifier)
  {
    hide Draw.IsPick, Draw.Free, Sections, Section, Pow2, Or, FirstRecent, Sort;
    SortedIsIndexed(chain, index);
    ghost var d := DrawOf(vSorted, index, previous, upgrade, hasher);
    ghost var picks: seq<nat> := [];
    modifier := 0;
    var nStop, selected: set<nat> := nStart, {};
    NoSections();
    assert IsDraw(d, nStart, []) && Hashes(d.cands, []) == {};
    var rounds := Min(64, |vSorted|);
    for nRound := 0 to rounds
      invariant |picks| == nRound && IsDraw(d, nStart, picks)
      invariant selected == Hashes(d.cands, picks) && nStop == nStart + Sections(nRound)
      invariant modifier == BitsOf(d.cands, picks, nRound)
    {
      OneMoreSection(nRound);
      nStop := nStop + Section(nRound);
      SomeFree(d, picks);
      var fSelected, pick := SelectBlockFromCandidates(vSorted, index, selected, nStop, previous, upgrade, hasher);
      assert fSelected;
      var block := index[vSorted[pick].1];
      OneMoreBit(d.cands, picks, pick);
      DrawGrows(d, nStart, picks, pick);
      modifier := Or(modifier, Times(block.EntropyBit(), Pow2(nRound)));
      selected := selected + {block.hash};
      picks := picks + [pick];
    }
    assert IsNewModifier(chain, index, previous, upgrade, hasher, picks, modifier);
  }

  /** The modifier is determined by the chain, fits 64 bits, and is made of one entropy bit per
      round, each of a block of its own. */
  lemma NewModifierIs(chain: seq<Block>, index: map<nat, Block>, previous: nat, upgrade: int, hasher: Hasher,
                      picks: seq<nat>, modifier: nat, picks': seq<nat>, modifier': nat)
    requires chain != [] && InIndex(chain, index)
    requires IsNewModifier(chain, index, previous, upgrade, hasher, picks, modifier)
    requires IsNewModifier(chain, index, previous, upgrade, hasher, picks', modifier')
    ensures picks == picks' && modifier == modifier' && modifier < Pow2(64)
    ensures var sorted := Sorted(chain);
            && |picks| == Min(64, |sorted|)
            && (forall r: nat :: BitOf(modifier, r) <==> r < |picks| && picks[r] < |sorted| && sorted[picks[r]].1 % 2 == 1)
            && (forall q, r | 0 <= q < r < |picks| :: picks[q] != picks[r])
  {
    hide Sorted, Pow2, BitOf, IsDraw, BitsOf;
    SortedIsIndexed(chain, index);
    var d := DrawOf(Sorted(chain), index, previous, upgrade, hasher);
    DrawIsUnique(d, StartOf(chain), picks, picks');
    Pow2Grows(|picks|, 64);
    assert forall r | 0 <= r < |picks| :: picks[r] < |d.cands| by { PicksInRange(d, StartOf(chain), picks); }
    forall r: nat
      ensures BitOf(modifier, r) <==> r < |picks| && picks[r] < |d.cands| && d.cands[picks[r]].hash % 2 == 1
    {
      EachRoundGivesItsBit(d.cands, picks, |picks|, r);
    }
    forall q, r | 0 <= q < r < |picks|
      ensures picks[q] != picks[r]
    {
      PicksAreDistinct(d, StartOf(chain), picks, q, r);
    }
  }

  lemma PicksInRange(d: Draw, start: int, picks: seq<nat>)
    requires IsDraw(d, start, picks)
    ensures forall r | 0 <= r < |picks| :: picks[r] < |d.cands|
  {
  }

  // ----- GetKernelStakeModifier -----

  datatype Kernel = Kernel(modifier: nat, height: int, time: int)

  /** A block that generated a modifier at least a selection interval after `from`. */
  predicate Late(active: seq<Block>, from: Block, h: int) {
    from.height < h < |active| && active[h].generated && active[h].time >= from.time + Sections(64)
  }

  /** That interval is 2087 seconds. */
  lemma LateIff(active: seq<Block>, from: Block, h: int)
    ensures Late(active, from, h) <==>
            from.height < h < |active| && active[h].generated && active[h].time - from.time >= 2087
  {
    hide Sections;
    IntervalIs(64);
  }

  /** The kernel of `from` uses the modifier of the first late enough block above it on the active
      chain, and fails without one. */
  method GetKernelStakeModifier(hashBlockFrom: nat, index: map<nat, Block>, active: seq<Block>) returns (r: Option<Kernel>)
    ensures r.Some? <==> hashBlockFrom in index && exists h :: Late(active, index[hashBlockFrom], h)
    ensures r.Some? ==> exists h :: Late(active, index[hashBlockFrom], h)
                                    && (forall h' | h' < h :: !Late(active, index[hashBlockFrom], h'))
                                    && r.value == Kernel(active[h].modifier, h, active[h].time)
  {
    hide Sections;
    if hashBlockFrom !in index {
      return None;
    }
    var from := index[hashBlockFrom];
    var height, time: int := from.height, from.time;
    var nInterval := SelectionInterval();
    IntervalIsPositive();
    var at := from.height;
    while time < from.time + nInterval
      invariant at >= from.height && (at > from.height ==> at < |active|)
      invariant forall h | h < at :: !Late(active, from, h)
      invariant time < from.time + nInterval ==> !Late(active, from, at)
      invariant time >= from.time + nInterval ==> Late(active, from, at) && height == at && time == active[at].time
      decreases |active| - at, from.time + nInterval - time
    {
      if at + 1 >= |active| {
        return None;
      }
      at := at + 1;
      if active[at].generated {
        height := at;
        time := active[at].time;
      }
    }
    return Some(Kernel(active[at].modifier, height, time));
  }

  lemma {:induction false} IntervalIsPositive()
    ensures Sections(64) > 0
  {
    assert Section(63) == 60;
    OneMoreSection(63);
  }
}
