/** The undo file: CTxInUndo (src/undo.h:40-66), vectors of them (src/serialize.h:390-445, 790-836),
    and the checksum around a block's undo data (src/main.cpp:6227-6278). What comes back is
    what module BlockCoins calls ReadBack. */
module UndoCodec {
  import opened Options
  import opened Coins
  import opened BlockCoins
  import opened Serial

  // ----- sizes -----

  /** `n` in `k` bytes, lowest first. */
  function Little(n: nat, k: nat): (s: Bytes)
    ensures |s| == k
  {
    if k == 0 then [] else [n % 256] + Little(n / 256, k - 1)
  }

  function FromLittle(s: Bytes): nat { if s == [] then 0 else s[0] + 256 * FromLittle(s[1..]) }

  function Bound(k: nat): nat { if k == 0 then 1 else 256 * Bound(k - 1) }

  lemma {:induction false} LittleIsRead(n: nat, k: nat)
    requires n < Bound(k)
    ensures FromLittle(Little(n, k)) == n
  {
    if k > 0 {
      LittleIsRead(n / 256, k - 1);
      assert Little(n, k)[1..] == Little(n / 256, k - 1);
    }
  }

  const MAX_SIZE := 0x200_0000

  /** WriteCompactSize, of a 64-bit size. */
  function CompactSize(n: nat): Bytes {
    if n < 253 then [n]
    else if n < 0x1_0000 then [253] + Little(n, 2)
    else if n < 0x1_0000_0000 then [254] + Little(n, 4)
    else [255] + Little(n, 8)
  }

  /** The four forms, written out: a tag byte, and then the number with its lowest byte first. */
  lemma SizeForms(n: nat)
    requires n < 0x1_0000_0000
    ensures n < 253 ==> CompactSize(n) == [n]
    ensures 253 <= n < 0x1_0000 ==> CompactSize(n) == [253, n % 256, n / 256]
    ensures n >= 0x1_0000 ==> CompactSize(n) == [254, n % 256, n / 256 % 256, n / 256 / 256 % 256, n / 256 / 256 / 256]
  {
    if n < 0x1_0000 {
      assert Little(n / 256, 1) == [n / 256 % 256] + Little(n / 256 / 256, 0);
    } else {
      var a, b, c := n / 256, n / 256 / 256, n / 256 / 256 / 256;
      assert a < 0x100_0000 && b < 0x1_0000 && c < 0x100;
      assert Little(c, 1) == [c % 256] + Little(c / 256, 0);
      assert Little(b, 2) == [b % 256] + Little(c, 1);
      assert Little(a, 3) == [a % 256] + Little(b, 2);
    }
  }

  /** `k` bytes of a number that must be at least `low`. */
  function ReadWide(s: Bytes, k: nat, low: nat): Option<(nat, Bytes)> {
    if |s| < k || FromLittle(s[..k]) < low then None else Some((FromLittle(s[..k]), s[k..]))
  }

  /** ReadCompactSize: refuses longer forms than needed, and sizes above the limit. */
  function ReadCompactSize(s: Bytes): Option<(nat, Bytes)> {
    if s == [] then None
    else
      var r := if s[0] < 253 then Some((s[0], s[1..]))
               else if s[0] == 253 then ReadWide(s[1..], 2, 253)
               else if s[0] == 254 then ReadWide(s[1..], 4, 0x1_0000)
               else ReadWide(s[1..], 8, 0x1_0000_0000);
      if r.Some? && r.value.0 > MAX_SIZE then None else r
  }

  lemma SizeRoundTrip(n: nat, rest: Bytes)
    requires n <= MAX_SIZE
    ensures ReadCompactSize(CompactSize(n) + rest) == Some((n, rest))
  {
    hide FromLittle;
    var s := CompactSize(n) + rest;
    assert n < 253 ==> s[1..] == rest;
    if n >= 253 {
      var k := if n < 0x1_0000 then 2 else 4;
      FourBytes();
      LittleIsRead(n, k);
      assert s[1..] == Little(n, k) + rest;
      assert s[1..][..k] == Little(n, k) && s[1..][k..] == rest;
    }
  }

  /** Sizes above 0x2000000 are refused, and so is a form with a tag for a number that has a shorter one. */
  lemma SizeIsRefused(n: nat, rest: Bytes)
    ensures 0x200_0000 < n < 0x1_0000_0000 ==> ReadCompactSize(CompactSize(n) + rest) == None
    ensures n < 253 ==> ReadCompactSize([253, n, 0] + rest) == None
    ensures n < 0x1_0000 ==> ReadCompactSize([254] + Little(n, 4) + rest) == None
  {
    hide FromLittle, Little;
    FourBytes();
    if 0x200_0000 < n < 0x1_0000_0000 {
      LittleIsRead(n, 4);
      FrontOf(254, Little(n, 4), rest);
    }
    if n < 253 {
      LittleIsRead(n, 2);
      LittleTwo(n);
      FrontOf(253, [n, 0], rest);
      assert [253] + [n, 0] + rest == [253, n, 0] + rest;
    }
    if n < 0x1_0000 {
      LittleIsRead(n, 4);
      FrontOf(254, Little(n, 4), rest);
    }
  }

  lemma FourBytes()
    ensures Bound(2) == 0x1_0000 && Bound(4) == 0x1_0000_0000
  {
    assert Bound(0) == 1 && Bound(1) == 256 && Bound(3) == 0x100_0000;
  }

  lemma LittleTwo(n: nat)
    requires n < 256
    ensures Little(n, 2) == [n, 0]
  {
    assert Little(0, 1) == [0] + Little(0, 0);
  }

  lemma FrontOf(tag: Byte, number: Bytes, rest: Bytes)
    ensures var s := [tag] + number + rest; s[0] == tag && s[1..][..|number|] == number && |s[1..]| == |number| + |rest|
  {
    assert ([tag] + number + rest)[1..] == number + rest;
  }

  // ----- one record -----

  /** nHeight * 4 + flags, in 32 bits. */
  function UndoCode(u: TxInUndo): nat {
    (u.height * 4 + (if u.coinBase then 2 else 0) + (if u.coinStake then 1 else 0)) % 0x1_0000_0000
  }

  /** The bits of the code: the coinstake flag lowest, then the coinbase flag, then the height. */
  lemma UndoCodeBits(u: TxInUndo)
    requires u.height < 0x4000_0000
    ensures var code := UndoCode(u);
            (code % 2 == 1 <==> u.coinStake) && (code / 2 % 2 == 1 <==> u.coinBase) && code / 4 == u.height
  {
  }

  /** What Serialize can be called on: the height has 30 bits, and the output is one that was live. */
  predicate Writable(u: TxInUndo) { u.height < 0x4000_0000 && u.txout.value >= 0 }

  /** CTxInUndo::Serialize */
  function UndoBytes(u: TxInUndo, curve: Curve): Bytes
    requires Writable(u)
  {
    VarInt(UndoCode(u)) + (if u.height > 0 then VarSigned(u.version) else []) + OutBytes(u.txout, curve)
  }

  /** CTxInUndo::Unserialize, into a record that starts out with version 0. */
  function ReadUndo(s: Bytes, curve: Curve): Option<(TxInUndo, Bytes)> {
    match ReadVar(s)
    case None => None
    case Some((code, s1)) =>
      match (if code / 4 > 0 then ReadVar(s1) else Some((0, s1)))
      case None => None
      case Some((version, s2)) =>
        match ReadOut(s2, curve)
        case None => None
        case Some((txout, s3)) => Some((TxInUndo(txout, code / 2 % 2 == 1, code % 2 == 1, code / 4, version), s3))
  }

  /** Every record is read back up to its version: a negative one has lost all but seven bits, and one
      without a height all. */
  lemma UndoRoundTrip(u: TxInUndo, curve: Curve, rest: Bytes)
    requires Writable(u) && curve.Sound()
    ensures ReadUndo(UndoBytes(u, curve) + rest, curve) == Some((StoredUndo(u), rest))
  {
    hide ReadVar, VarInt, VarSigned, OutBytes, ReadOut, Curve.Sound, CutVersion;
    var code, out := UndoCode(u), OutBytes(u.txout, curve);
    var version := if u.height > 0 then VarSigned(u.version) else [];
    var s2 := out + rest;
    var s1 := version + s2;
    assert UndoBytes(u, curve) + rest == VarInt(code) + s1;
    VarIntRoundTrip(code, s1);
    assert code / 4 == u.height && (code / 2 % 2 == 1 <==> u.coinBase) && (code % 2 == 1 <==> u.coinStake);
    if u.height > 0 {
      VersionIsRead(u.version, s2);
    } else {
      assert s1 == s2;
    }
    OutRoundTrip(u.txout, curve, rest);
  }

  /** ... exactly, when the version is not negative or, without a height, is zero. Spend leaves it
      zero then, so of the undo data of a block only negative versions are lost. */
  lemma UndoExactIff(u: TxInUndo, curve: Curve, rest: Bytes)
    requires Writable(u) && curve.Sound()
    ensures ReadUndo(UndoBytes(u, curve) + rest, curve) == Some((u, rest)) <==>
            if u.height > 0 then u.version >= 0 else u.version == 0
  {
    hide ReadUndo, UndoBytes, Curve.Sound, CutVersion;
    UndoRoundTrip(u, curve, rest);
  }

  /** Writing the record that was read gives the bytes that were written. */
  lemma UndoIsStable(u: TxInUndo, curve: Curve)
    requires Writable(u)
    ensures Writable(StoredUndo(u)) && UndoBytes(StoredUndo(u), curve) == UndoBytes(u, curve)
  {
    hide VarInt, VarSigned, OutBytes, CutVersion;
    VersionIsStable(u.version);
  }

  /** The parts of a record in their order: code, version unless the height is zero, amount, script. */
  lemma UndoExamples(b: Byte, curve: Curve)
    requires 2 <= b < 0x80
    ensures var u := TxInUndo(TxOut(1, [b]), true, false, 5, 3); Writable(u) && UndoBytes(u, curve) == [22, 3, 1, 7, b]
    ensures var u := TxInUndo(TxOut(0, []), false, false, 0, 0); Writable(u) && UndoBytes(u, curve) == [0, 0, 6]
  {
    hide VarInt;
    CompressedIs(0, 1, 0);
    VarIntSizes(22);
    VarIntSizes(3);
    VarIntSizes(1);
    VarIntSizes(7);
    VarIntSizes(0);
    VarIntSizes(6);
    SpecialForms([], [b], curve);
    SpecialForms([], [], curve);
  }

  // ----- the inputs of a transaction -----

  predicate WritableTx(undos: seq<TxInUndo>) { |undos| <= MAX_SIZE && forall j | 0 <= j < |undos| :: Writable(undos[j]) }

  function UndosFrom(undos: seq<TxInUndo>, j: nat, curve: Curve): Bytes
    requires j <= |undos| && WritableTx(undos)
    decreases |undos| - j
  {
    if j == |undos| then [] else UndoBytes(undos[j], curve) + UndosFrom(undos, j + 1, curve)
  }

  function TxBytes(undos: seq<TxInUndo>, curve: Curve): Bytes
    requires WritableTx(undos)
  {
    CompactSize(|undos|) + UndosFrom(undos, 0, curve)
  }

  /** `n` more records, behind those in `acc`. */
  function ReadUndos(s: Bytes, n: nat, acc: seq<TxInUndo>, curve: Curve): Option<(seq<TxInUndo>, Bytes)>
    decreases n
  {
    if n == 0 then Some((acc, s))
    else
      match ReadUndo(s, curve)
      case None => None
      case Some((u, rest)) => ReadUndos(rest, n - 1, acc + [u], curve)
  }

  function ReadTxUndo(s: Bytes, curve: Curve): Option<(seq<TxInUndo>, Bytes)> {
    match ReadCompactSize(s)
    case None => None
    case Some((n, rest)) => ReadUndos(rest, n, [], curve)
  }

  lemma {:induction false} UndosAreRead(undos: seq<TxInUndo>, j: nat, curve: Curve, rest: Bytes)
    requires j <= |undos| && WritableTx(undos) && curve.Sound()
    ensures ReadUndos(UndosFrom(undos, j, curve) + rest, |undos| - j, ReadTx(undos)[..j], curve) == Some((ReadTx(undos), rest))
    decreases |undos| - j
  {
    hide ReadUndo, UndoBytes, Curve.Sound, Writable, StoredUndo;
    var read := ReadTx(undos);
    if j == |undos| {
      assert UndosFrom(undos, j, curve) + rest == rest && read[..j] == read;
    } else {
      var tail := UndosFrom(undos, j + 1, curve) + rest;
      assert UndosFrom(undos, j, curve) + rest == UndoBytes(undos[j], curve) + tail;
      UndoRoundTrip(undos[j], curve, tail);
      assert read[..j + 1] == read[..j] + [StoredUndo(undos[j])];
      UndosAreRead(undos, j + 1, curve, rest);
    }
  }

  lemma TxRoundTrip(undos: seq<TxInUndo>, curve: Curve, rest: Bytes)
    requires WritableTx(undos) && curve.Sound()
    ensures ReadTxUndo(TxBytes(undos, curve) + rest, curve) == Some((ReadTx(undos), rest))
  {
    hide ReadCompactSize, CompactSize, UndosFrom, ReadUndos, ReadTx, Curve.Sound, Writable;
    var s := UndosFrom(undos, 0, curve) + rest;
    assert TxBytes(undos, curve) + rest == CompactSize(|undos|) + s;
    SizeRoundTrip(|undos|, s);
    UndosAreRead(undos, 0, curve, rest);
    assert ReadTx(undos)[..0] == [];
  }

  lemma {:induction false} UndosAreStable(undos: seq<TxInUndo>, j: nat, curve: Curve)
    requires j <= |undos| && WritableTx(undos)
    ensures WritableTx(ReadTx(undos)) && UndosFrom(ReadTx(undos), j, curve) == UndosFrom(undos, j, curve)
    decreases |undos| - j
  {
    hide UndoBytes;
    assert WritableTx(ReadTx(undos));
    if j < |undos| {
      UndosAreStable(undos, j + 1, curve);
      UndoIsStable(undos[j], curve);
    }
  }

  // ----- a block -----

  predicate WritableBlock(undos: seq<seq<TxInUndo>>) {
    |undos| <= MAX_SIZE && forall i | 0 <= i < |undos| :: WritableTx(undos[i])
  }

  function TxsFrom(undos: seq<seq<TxInUndo>>, i: nat, curve: Curve): Bytes
    requires i <= |undos| && WritableBlock(undos)
    decreases |undos| - i
  {
    if i == |undos| then [] else TxBytes(undos[i], curve) + TxsFrom(undos, i + 1, curve)
  }

  function BlockBytes(undos: seq<seq<TxInUndo>>, curve: Curve): Bytes
    requires WritableBlock(undos)
  {
    CompactSize(|undos|) + TxsFrom(undos, 0, curve)
  }

  function ReadTxUndos(s: Bytes, n: nat, acc: seq<seq<TxInUndo>>, curve: Curve): Option<(seq<seq<TxInUndo>>, Bytes)>
    decreases n
  {
    if n == 0 then Some((acc, s))
    else
      match ReadTxUndo(s, curve)
      case None => None
      case Some((undos, rest)) => ReadTxUndos(rest, n - 1, acc + [undos], curve)
  }

  function ReadBlock(s: Bytes, curve: Curve): Option<(seq<seq<TxInUndo>>, Bytes)> {
    match ReadCompactSize(s)
    case None => None
    case Some((n, rest)) => ReadTxUndos(rest, n, [], curve)
  }

  lemma {:induction false} TxsAreRead(undos: seq<seq<TxInUndo>>, i: nat, curve: Curve, rest: Bytes)
    requires i <= |undos| && WritableBlock(undos) && curve.Sound()
    ensures ReadTxUndos(TxsFrom(undos, i, curve) + rest, |undos| - i, ReadBack(undos)[..i], curve)
              == Some((ReadBack(undos), rest))
    decreases |undos| - i
  {
    hide ReadTxUndo, TxBytes, Curve.Sound, WritableTx, ReadTx;
    var read := ReadBack(undos);
    if i == |undos| {
      assert TxsFrom(undos, i, curve) + rest == rest && read[..i] == read;
    } else {
      var tail := TxsFrom(undos, i + 1, curve) + rest;
      assert TxsFrom(undos, i, curve) + rest == TxBytes(undos[i], curve) + tail;
      TxRoundTrip(undos[i], curve, tail);
      assert read[..i + 1] == read[..i] + [ReadTx(undos[i])];
      TxsAreRead(undos, i + 1, curve, rest);
    }
  }

  lemma BlockRoundTrip(undos: seq<seq<TxInUndo>>, curve: Curve, rest: Bytes)
    requires WritableBlock(undos) && curve.Sound()
    ensures ReadBlock(BlockBytes(undos, curve) + rest, curve) == Some((ReadBack(undos), rest))
  {
    hide ReadCompactSize, CompactSize, TxsFrom, ReadTxUndos, ReadBack, Curve.Sound, WritableTx;
    var s := TxsFrom(undos, 0, curve) + rest;
    assert BlockBytes(undos, curve) + rest == CompactSize(|undos|) + s;
    SizeRoundTrip(|undos|, s);
    TxsAreRead(undos, 0, curve, rest);
    assert ReadBack(undos)[..0] == [];
  }

  lemma TxIsStable(undos: seq<TxInUndo>, curve: Curve)
    requires WritableTx(undos)
    ensures WritableTx(ReadTx(undos)) && TxBytes(ReadTx(undos), curve) == TxBytes(undos, curve)
  {
    hide UndosFrom, CompactSize;
    ReadTxLength(undos);
    UndosAreStable(undos, 0, curve);
  }

  lemma BlockStaysWritable(undos: seq<seq<TxInUndo>>, curve: Curve)
    requires WritableBlock(undos)
    ensures WritableBlock(ReadBack(undos))
  {
    hide WritableTx, ReadTx;
    forall i | 0 <= i < |undos|
      ensures WritableTx(ReadTx(undos[i]))
    {
      TxIsStable(undos[i], curve);
    }
  }

  lemma {:induction false} TxsAreStable(undos: seq<seq<TxInUndo>>, i: nat, curve: Curve)
    requires i <= |undos| && WritableBlock(undos)
    ensures WritableBlock(ReadBack(undos)) && TxsFrom(ReadBack(undos), i, curve) == TxsFrom(undos, i, curve)
    decreases |undos| - i
  {
    hide WritableTx, TxBytes, ReadTx;
    BlockStaysWritable(undos, curve);
    if i < |undos| {
      TxsAreStable(undos, i + 1, curve);
      TxIsStable(undos[i], curve);
    }
  }

  lemma ReadTxLength(undos: seq<TxInUndo>)
    ensures |ReadTx(undos)| == |undos|
  {
  }

  // ----- the file -----

  /** The hash of the checksum, 32 bytes of any bytes. */
  type Hasher = f: Bytes -> Bytes | forall s :: |f(s)| == 32
    ghost witness ((_: Bytes) => seq(32, _ => 0))

  /** WriteToDisk, behind the magic number and the size: undo data, then a checksum over the hash of
      the block below and the data. */
  function FileBytes(undos: seq<seq<TxInUndo>>, below: Bytes, curve: Curve, hasher: Hasher): Bytes
    requires WritableBlock(undos)
  {
    BlockBytes(undos, curve) + hasher(below + BlockBytes(undos, curve))
  }

  /** ReadFromDisk: the checksum is compared with one over what was read, written out again. */
  function ReadFile(s: Bytes, below: Bytes, curve: Curve, hasher: Hasher): Option<seq<seq<TxInUndo>>> {
    match ReadBlock(s, curve)
    case None => None
    case Some((undos, rest)) =>
      if |rest| < 32 || !WritableBlock(undos) || rest[..32] != hasher(below + BlockBytes(undos, curve)) then None
      else Some(undos)
  }

  /** The checksum is the last 32 bytes: the hash of the block below's hash and then of everything before
      the checksum. */
  lemma ChecksumIs(undos: seq<seq<TxInUndo>>, below: Bytes, curve: Curve, hasher: Hasher)
    requires WritableBlock(undos)
    ensures var f := FileBytes(undos, below, curve, hasher);
            |f| >= 32 && f[|f| - 32..] == hasher(below + f[..|f| - 32])
  {
    var data := BlockBytes(undos, curve);
    var f := data + hasher(below + data);
    assert f[..|data|] == data && f[|data|..] == hasher(below + data);
  }

  /** The undo data of a block are read back, and the checksum does not notice the versions that were
      cut: written again, they give the same bytes. */
  lemma FileRoundTrip(undos: seq<seq<TxInUndo>>, below: Bytes, curve: Curve, hasher: Hasher)
    requires WritableBlock(undos) && curve.Sound()
    ensures ReadFile(FileBytes(undos, below, curve, hasher), below, curve, hasher) == Some(ReadBack(undos))
  {
    hide ReadBlock, CompactSize, TxsFrom, Curve.Sound, WritableTx, ReadTx;
    var checksum := hasher(below + BlockBytes(undos, curve));
    BlockRoundTrip(undos, curve, checksum);
    TxsAreStable(undos, 0, curve);
    assert BlockBytes(ReadBack(undos), curve) == BlockBytes(undos, curve);
    assert checksum[..32] == checksum;
  }

  // ----- the source's loops -----

  /** The vector of a CTxUndo, written element by element. */
  method SerializeTx(undos: seq<TxInUndo>, curve: Curve) returns (s: Bytes)
    requires WritableTx(undos)
    ensures s == TxBytes(undos, curve)
  {
    hide UndoBytes, CompactSize;
    s := CompactSize(|undos|);
    for j := 0 to |undos|
      invariant s + UndosFrom(undos, j, curve) == TxBytes(undos, curve)
    {
      assert s + UndosFrom(undos, j, curve) == s + UndoBytes(undos[j], curve) + UndosFrom(undos, j + 1, curve);
      s := s + UndoBytes(undos[j], curve);
    }
  }

  /** ... and read back: the vector grows `block` elements at a time, so that a wrong size cannot ask
      for too much memory at once. */
  method UnserializeTx(start: Bytes, block: nat, curve: Curve) returns (r: Option<(seq<TxInUndo>, Bytes)>)
    requires block > 0
    ensures r == ReadTxUndo(start, curve)
  {
    hide ReadUndo, ReadCompactSize;
    var size := ReadCompactSize(start);
    if size.None? {
      return None;
    }
    var nSize, s := size.value.0, size.value.1;
    var v: seq<TxInUndo>, i, nMid := [], 0, 0;
    while nMid < nSize
      invariant 0 <= i == nMid <= nSize
      invariant ReadUndos(s, nSize - i, v, curve) == ReadTxUndo(start, curve)
    {
      nMid := nMid + block;
      if nMid > nSize {
        nMid := nSize;
      }
      while i < nMid
        invariant 0 <= i <= nMid <= nSize
        invariant ReadUndos(s, nSize - i, v, curve) == ReadTxUndo(start, curve)
      {
        var u := ReadUndo(s, curve);
        if u.None? {
          return None;
        }
        v, s := v + [u.value.0], u.value.1;
        i := i + 1;
      }
    }
    return Some((v, s));
  }

  method SerializeBlock(undos: seq<seq<TxInUndo>>, curve: Curve) returns (s: Bytes)
    requires WritableBlock(undos)
    ensures s == BlockBytes(undos, curve)
  {
    hide TxBytes, CompactSize, WritableTx, TxsFrom;
    s := CompactSize(|undos|);
    for i := 0 to |undos|
      invariant s + TxsFrom(undos, i, curve) == BlockBytes(undos, curve)
    {
      TxsFromUnfold(undos, i, curve);
      var tx := SerializeTx(undos[i], curve);
      assert s + TxsFrom(undos, i, curve) == s + tx + TxsFrom(undos, i + 1, curve);
      s := s + tx;
    }
    TxsFromUnfold(undos, |undos|, curve);
  }

  lemma TxsFromUnfold(undos: seq<seq<TxInUndo>>, i: nat, curve: Curve)
    requires i <= |undos| && WritableBlock(undos)
    ensures TxsFrom(undos, i, curve) == if i == |undos| then [] else TxBytes(undos[i], curve) + TxsFrom(undos, i + 1, curve)
  {
    hide TxBytes, WritableTx;
  }

  /** CBlockUndo::WriteToDisk, behind the magic number and the size. */
  method WriteToDisk(undos: seq<seq<TxInUndo>>, below: Bytes, curve: Curve, hasher: Hasher) returns (s: Bytes)
    requires WritableBlock(undos)
    ensures s == FileBytes(undos, below, curve, hasher)
  {
    hide BlockBytes, WritableBlock;
    s := SerializeBlock(undos, curve);
    s := s + hasher(below + s);
  }

  /** Writing the undo data of a block to disk and reading them gives each record back up to its
      version, and exactly that block's when no record of it has a version VARINT would cut. */
  method WriteThenRead(undos: seq<seq<TxInUndo>>, below: Bytes, curve: Curve, hasher: Hasher)
    returns (read: Option<seq<seq<TxInUndo>>>)
    requires WritableBlock(undos) && curve.Sound()
    ensures read == Some(ReadBack(undos))
    ensures read == Some(undos) <==>
            forall i, j | 0 <= i < |undos| && 0 <= j < |undos[i]| ::
              if undos[i][j].height > 0 then undos[i][j].version >= 0 else undos[i][j].version == 0
  {
    hide FileBytes, ReadFile, Curve.Sound, WritableTx;
    var s := WriteToDisk(undos, below, curve, hasher);
    read := ReadFile(s, below, curve, hasher);
    FileRoundTrip(undos, below, curve, hasher);
    ExactIff(undos);
  }

  lemma ExactIff(undos: seq<seq<TxInUndo>>)
    ensures ReadBack(undos) == undos <==>
            forall i, j | 0 <= i < |undos| && 0 <= j < |undos[i]| ::
              if undos[i][j].height > 0 then undos[i][j].version >= 0 else undos[i][j].version == 0
  {
    hide CutVersion;
    var read := ReadBack(undos);
    if read == undos {
      forall i, j | 0 <= i < |undos| && 0 <= j < |undos[i]|
        ensures if undos[i][j].height > 0 then undos[i][j].version >= 0 else undos[i][j].version == 0
      {
        assert read[i][j] == StoredUndo(undos[i][j]);
      }
    }
    if forall i, j | 0 <= i < |undos| && 0 <= j < |undos[i]| ::
         if undos[i][j].height > 0 then undos[i][j].version >= 0 else undos[i][j].version == 0 {
      forall i | 0 <= i < |undos|
        ensures read[i] == undos[i]
      {
        assert forall j | 0 <= j < |undos[i]| :: read[i][j] == StoredUndo(undos[i][j]) == undos[i][j];
      }
    }
  }
}
