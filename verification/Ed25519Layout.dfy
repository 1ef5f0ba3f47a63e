/** Byte geometry of the multi-signature Ed25519 precompile instruction
    (crank/ed25519SelfPack.ts): the image the packer must produce, and how a reader that
    follows the declared offsets sees it. */
module Ed25519Layout {
  import opened Results
  import opened StableSort

  type Byte = x: int | 0 <= x < 256

  const SIG_LEN := 64
  const PK_LEN := 32
  const OFF_LEN := 14
  const HDR := 2
  const STRIDE := 96
  const U16_LIMIT := 0x1_0000
  const U64_LIMIT := 0x1_0000_0000_0000_0000
  /** "SBOD" */
  const SBOD: seq<Byte> := [0x53, 0x42, 0x4F, 0x44]

  datatype Triple = Triple(oracleIdx: int, signature: seq<Byte>, pubkey: seq<Byte>, message: seq<Byte>)

  datatype OffsetStruct = OffsetStruct(
    signatureOffset: int,
    signatureInstructionIndex: int,
    publicKeyOffset: int,
    publicKeyInstructionIndex: int,
    messageDataOffset: int,
    messageDataSize: int,
    messageInstructionIndex: int)

  // ---- little-endian fields ----

  function U16(v: int): seq<Byte> {
    [v % 256, v / 256 % 256]
  }

  function LittleEndian(v: int, width: nat): (s: seq<Byte>)
    ensures |s| == width
    decreases width
  {
    if width == 0 then [] else [v % 256] + LittleEndian(v / 256, width - 1)
  }

  // ---- offsets ----

  function DataStart(n: nat): nat { HDR + OFF_LEN * n }
  function SigOffset(n: nat, i: nat): nat { DataStart(n) + i * STRIDE }
  function MsgOffset(n: nat): nat { DataStart(n) + n * STRIDE }
  function Total(n: nat, msgLen: nat): nat { MsgOffset(n) + msgLen + n + 8 + 1 + 4 }

  function StructOf(n: nat, i: nat, msgLen: nat, instructionIdx: int): OffsetStruct {
    OffsetStruct(
      SigOffset(n, i), instructionIdx,
      SigOffset(n, i) + SIG_LEN, instructionIdx,
      MsgOffset(n), msgLen, instructionIdx)
  }

  // ---- the image ----

  predicate WellSized(ts: seq<Triple>) {
    forall i :: 0 <= i < |ts| ==> |ts[i].signature| == SIG_LEN && |ts[i].pubkey| == PK_LEN
  }

  predicate SharedMessage(ts: seq<Triple>) {
    forall i :: 0 <= i < |ts| ==> ts[i].message == ts[0].message
  }

  predicate FieldsFit(n: nat, msgLen: nat, instructionIdx: int) {
    MsgOffset(n) < U16_LIMIT && msgLen < U16_LIMIT && 0 <= instructionIdx < U16_LIMIT
  }

  predicate Packable(ts: seq<Triple>, instructionIdx: int, slot: int) {
    && ts != []
    && WellSized(ts)
    && SharedMessage(ts)
    && FieldsFit(|ts|, |ts[0].message|, instructionIdx)
    && 0 <= slot < U64_LIMIT
  }

  function StructBytes(o: OffsetStruct): (s: seq<Byte>)
    ensures |s| == OFF_LEN
  {
    U16(o.signatureOffset) + U16(o.signatureInstructionIndex) +
    U16(o.publicKeyOffset) + U16(o.publicKeyInstructionIndex) +
    U16(o.messageDataOffset) + U16(o.messageDataSize) + U16(o.messageInstructionIndex)
  }

  function OffsetTable(n: nat, count: nat, msgLen: nat, instructionIdx: int): (s: seq<Byte>)
    ensures |s| == OFF_LEN * count
  {
    if count == 0 then []
    else OffsetTable(n, count - 1, msgLen, instructionIdx) + StructBytes(StructOf(n, count - 1, msgLen, instructionIdx))
  }

  function Blobs(ts: seq<Triple>, count: nat): (s: seq<Byte>)
    requires count <= |ts| && WellSized(ts)
    ensures |s| == STRIDE * count
  {
    if count == 0 then [] else Blobs(ts, count - 1) + (ts[count - 1].signature + ts[count - 1].pubkey)
  }

  function OracleIndices(ts: seq<Triple>, count: nat): (s: seq<Byte>)
    requires count <= |ts|
    ensures |s| == count
  {
    if count == 0 then [] else OracleIndices(ts, count - 1) + [ts[count - 1].oracleIdx % 256]
  }

  /** Everything up to the shared message. */
  function Front(ts: seq<Triple>, instructionIdx: int): (s: seq<Byte>)
    requires ts != [] && WellSized(ts)
    ensures |s| == MsgOffset(|ts|)
  {
    [|ts| % 256, 0] + OffsetTable(|ts|, |ts|, |ts[0].message|, instructionIdx) + Blobs(ts, |ts|)
  }

  function Trailer(ts: seq<Triple>, slot: int, version: int): (s: seq<Byte>)
    ensures |s| == |ts| + 8 + 1 + 4
  {
    OracleIndices(ts, |ts|) + LittleEndian(slot, 8) + [version % 256] + SBOD
  }

  function Image(ts: seq<Triple>, instructionIdx: int, slot: int, version: int): (s: seq<Byte>)
    requires ts != [] && WellSized(ts)
    ensures |s| == Total(|ts|, |ts[0].message|)
  {
    Front(ts, instructionIdx) + ts[0].message + Trailer(ts, slot, version)
  }

  predicate ByOracleIdx(a: Triple, b: Triple) {
    a.oracleIdx <= b.oracleIdx
  }

  function SortTriples(ts: seq<Triple>): (r: seq<Triple>)
    ensures multiset(r) == multiset(ts) && |r| == |ts|
  {
    Sort(ts, ByOracleIdx)
  }

  // ---- the reader ----

  type Verifier = (seq<Byte>, seq<Byte>, seq<Byte>) -> bool

  datatype Slice = Slice(
    index: nat, offsets: OffsetStruct,
    signature: seq<Byte>, pubkey: seq<Byte>, message: seq<Byte>, verified: bool)

  datatype Decoded = Decoded(
    numSignatures: Option<Byte>, padding: Option<Byte>, dataLen: nat,
    slices: seq<Slice>, allVerified: bool)

  function ReadU16(buf: seq<Byte>, off: nat): int
    requires off + 2 <= |buf|
  {
    (buf[off] as int) + 256 * (buf[off + 1] as int)
  }

  function ReadStruct(buf: seq<Byte>, b: nat): OffsetStruct
    requires b + OFF_LEN <= |buf|
  {
    OffsetStruct(
      ReadU16(buf, b), ReadU16(buf, b + 2), ReadU16(buf, b + 4), ReadU16(buf, b + 6),
      ReadU16(buf, b + 8), ReadU16(buf, b + 10), ReadU16(buf, b + 12))
  }

  /** Buffer.subarray: both ends clamped to the buffer. */
  function Subarray(buf: seq<Byte>, start: nat, end: nat): seq<Byte> {
    var lo, hi := Min(start, |buf|), Min(end, |buf|);
    if lo <= hi then buf[lo..hi] else []
  }

  function SliceAt(buf: seq<Byte>, i: nat, verify: Verifier): Slice
    requires HDR + i * OFF_LEN + OFF_LEN <= |buf|
  {
    var o := ReadStruct(buf, HDR + i * OFF_LEN);
    var signature := Subarray(buf, o.signatureOffset, o.signatureOffset + SIG_LEN);
    var pubkey := Subarray(buf, o.publicKeyOffset, o.publicKeyOffset + PK_LEN);
    var message := Subarray(buf, o.messageDataOffset, o.messageDataOffset + o.messageDataSize);
    Slice(i, o, signature, pubkey, message, verify(message, signature, pubkey))
  }

  predicate AllVerified(slices: seq<Slice>) {
    |slices| > 0 && forall i :: 0 <= i < |slices| ==> slices[i].verified
  }

  /** The declared signature count, or None when reading its offset table runs off the buffer. */
  function DeclaredCount(buf: seq<Byte>): Option<nat> {
    var n: nat := if buf == [] then 0 else buf[0];
    if n > 0 && HDR + n * OFF_LEN > |buf| then None else Some(n)
  }

  function Decode(buf: seq<Byte>, verify: Verifier): Option<Decoded> {
    match DeclaredCount(buf)
    case None => None
    case Some(n) =>
      var slices := seq(n, i requires 0 <= i < n => SliceAt(buf, i, verify));
      Some(Decoded(
        if |buf| > 0 then Some(buf[0]) else None,
        if |buf| > 1 then Some(buf[1]) else None,
        |buf|, slices, AllVerified(slices)))
  }

  // ---- where each part of the image sits ----

  lemma SliceOfLeft(a: seq<Byte>, b: seq<Byte>, lo: nat, hi: nat)
    requires lo <= hi <= |a|
    ensures (a + b)[lo..hi] == a[lo..hi]
  {
  }

  lemma {:induction false} OffsetTableAt(n: nat, count: nat, msgLen: nat, instructionIdx: int, i: nat)
    requires i < count
    ensures OffsetTable(n, count, msgLen, instructionIdx)[OFF_LEN * i..OFF_LEN * i + OFF_LEN] ==
            StructBytes(StructOf(n, i, msgLen, instructionIdx))
  {
    var prev, last := OffsetTable(n, count - 1, msgLen, instructionIdx),
                      StructBytes(StructOf(n, count - 1, msgLen, instructionIdx));
    assert OffsetTable(n, count, msgLen, instructionIdx) == prev + last;
    hide OffsetTable, StructBytes, StructOf;
    if i < count - 1 {
      OffsetTableAt(n, count - 1, msgLen, instructionIdx, i);
      SliceOfLeft(prev, last, OFF_LEN * i, OFF_LEN * i + OFF_LEN);
    }
  }

  lemma {:induction false} BlobsAt(ts: seq<Triple>, count: nat, i: nat)
    requires i < count <= |ts| && WellSized(ts)
    ensures Blobs(ts, count)[STRIDE * i..STRIDE * i + SIG_LEN] == ts[i].signature
    ensures Blobs(ts, count)[STRIDE * i + SIG_LEN..STRIDE * i + STRIDE] == ts[i].pubkey
  {
    var prev, last := Blobs(ts, count - 1), ts[count - 1].signature + ts[count - 1].pubkey;
    assert Blobs(ts, count) == prev + last;
    hide Blobs;
    if i < count - 1 {
      BlobsAt(ts, count - 1, i);
      SliceOfLeft(prev, last, STRIDE * i, STRIDE * i + SIG_LEN);
      SliceOfLeft(prev, last, STRIDE * i + SIG_LEN, STRIDE * i + STRIDE);
    }
  }

  lemma {:induction false} OracleIndexAt(ts: seq<Triple>, count: nat, i: nat)
    requires i < count <= |ts|
    ensures OracleIndices(ts, count)[i] == ts[i].oracleIdx % 256
  {
    if i < count - 1 {
      OracleIndexAt(ts, count - 1, i);
    }
  }

  lemma ReadStructOfBytes(buf: seq<Byte>, b: nat, o: OffsetStruct)
    requires b + OFF_LEN <= |buf| && buf[b..b + OFF_LEN] == StructBytes(o)
    requires 0 <= o.signatureOffset < U16_LIMIT && 0 <= o.signatureInstructionIndex < U16_LIMIT
    requires 0 <= o.publicKeyOffset < U16_LIMIT && 0 <= o.publicKeyInstructionIndex < U16_LIMIT
    requires 0 <= o.messageDataOffset < U16_LIMIT && 0 <= o.messageDataSize < U16_LIMIT
    requires 0 <= o.messageInstructionIndex < U16_LIMIT
    ensures ReadStruct(buf, b) == o
  {
    var s := StructBytes(o);
    assert forall k :: 0 <= k < OFF_LEN ==> buf[b + k] == buf[b..b + OFF_LEN][k] == s[k];
    assert buf[b] == s[0] && buf[b + 1] == s[1] && buf[b + 2] == s[2] && buf[b + 3] == s[3];
    assert buf[b + 4] == s[4] && buf[b + 5] == s[5] && buf[b + 6] == s[6] && buf[b + 7] == s[7];
    assert buf[b + 8] == s[8] && buf[b + 9] == s[9] && buf[b + 10] == s[10] && buf[b + 11] == s[11];
    assert buf[b + 12] == s[12] && buf[b + 13] == s[13];
  }

  lemma ImageFront(ts: seq<Triple>, instructionIdx: int, slot: int, version: int, i: nat)
    requires WellSized(ts) && i < |ts|
    ensures var img, n := Image(ts, instructionIdx, slot, version), |ts|;
      && img[HDR + OFF_LEN * i..HDR + OFF_LEN * i + OFF_LEN] ==
        StructBytes(StructOf(n, i, |ts[0].message|, instructionIdx))
      && img[SigOffset(n, i)..SigOffset(n, i) + SIG_LEN] == ts[i].signature
      && img[SigOffset(n, i) + SIG_LEN..SigOffset(n, i) + STRIDE] == ts[i].pubkey
  {
    var n := |ts|;
    var front, rest := Front(ts, instructionIdx), ts[0].message + Trailer(ts, slot, version);
    FrontStruct(ts, instructionIdx, i);
    FrontBlob(ts, instructionIdx, i);
    hide StructBytes, StructOf;
    assert Image(ts, instructionIdx, slot, version) == front + rest;
    SliceOfLeft(front, rest, HDR + OFF_LEN * i, HDR + OFF_LEN * i + OFF_LEN);
    SliceOfLeft(front, rest, SigOffset(n, i), SigOffset(n, i) + SIG_LEN);
    SliceOfLeft(front, rest, SigOffset(n, i) + SIG_LEN, SigOffset(n, i) + STRIDE);
  }

  lemma ImageMessage(ts: seq<Triple>, instructionIdx: int, slot: int, version: int)
    requires WellSized(ts) && ts != []
    ensures var img, n := Image(ts, instructionIdx, slot, version), |ts|;
      && img[0] == n % 256 && img[1] == 0
      && img[MsgOffset(n)..MsgOffset(n) + |ts[0].message|] == ts[0].message
  {
    var front, message, trailer := Front(ts, instructionIdx), ts[0].message, Trailer(ts, slot, version);
    assert Image(ts, instructionIdx, slot, version) == front + message + trailer;
  }

  /** The bytes the quote program reads after the message: the oracle indices, the recent
      slot, the version and the tag. */
  lemma ImageTrailer(ts: seq<Triple>, instructionIdx: int, slot: int, version: int, i: nat)
    requires WellSized(ts) && i < |ts|
    ensures var img, n := Image(ts, instructionIdx, slot, version), |ts|; var at := MsgOffset(n) + |ts[0].message|;
      && img[at + i] == ts[i].oracleIdx % 256
      && img[at + n..at + n + 8] == LittleEndian(slot, 8)
      && img[at + n + 8] == version % 256
      && img[at + n + 9..at + n + 13] == SBOD
  {
    var n := |ts|;
    var head, trailer := Front(ts, instructionIdx) + ts[0].message, Trailer(ts, slot, version);
    TrailerParts(ts, slot, version, i);
    assert Image(ts, instructionIdx, slot, version) == head + trailer;
    SliceOfRight(head, trailer, n, n + 8);
    SliceOfRight(head, trailer, n + 9, n + 13);
  }

  lemma SliceOfRight(a: seq<Byte>, b: seq<Byte>, lo: nat, hi: nat)
    requires lo <= hi <= |b|
    ensures (a + b)[|a| + lo..|a| + hi] == b[lo..hi]
  {
  }

  lemma TrailerParts(ts: seq<Triple>, slot: int, version: int, i: nat)
    requires i < |ts|
    ensures var t, n := Trailer(ts, slot, version), |ts|;
      && t[i] == ts[i].oracleIdx % 256
      && t[n..n + 8] == LittleEndian(slot, 8)
      && t[n + 8] == version % 256
      && t[n + 9..n + 13] == SBOD
  {
    OracleIndexAt(ts, |ts|, i);
  }

  lemma FrontStruct(ts: seq<Triple>, instructionIdx: int, i: nat)
    requires WellSized(ts) && i < |ts|
    ensures var f, n := Front(ts, instructionIdx), |ts|;
      f[HDR + OFF_LEN * i..HDR + OFF_LEN * i + OFF_LEN] == StructBytes(StructOf(n, i, |ts[0].message|, instructionIdx))
  {
    var n := |ts|;
    var head, table, blobs := [n % 256, 0], OffsetTable(n, n, |ts[0].message|, instructionIdx), Blobs(ts, n);
    OffsetTableAt(n, n, |ts[0].message|, instructionIdx, i);
    hide StructBytes, StructOf, Blobs, OffsetTable;
    SliceOfLeft(head + table, blobs, HDR + OFF_LEN * i, HDR + OFF_LEN * i + OFF_LEN);
    SliceOfRight(head, table, OFF_LEN * i, OFF_LEN * i + OFF_LEN);
  }

  lemma FrontBlob(ts: seq<Triple>, instructionIdx: int, i: nat)
    requires WellSized(ts) && i < |ts|
    ensures var f, n := Front(ts, instructionIdx), |ts|;
      && f[SigOffset(n, i)..SigOffset(n, i) + SIG_LEN] == ts[i].signature
      && f[SigOffset(n, i) + SIG_LEN..SigOffset(n, i) + STRIDE] == ts[i].pubkey
  {
    var n := |ts|;
    var before, blobs := [n % 256, 0] + OffsetTable(n, n, |ts[0].message|, instructionIdx), Blobs(ts, n);
    BlobsAt(ts, n, i);
    assert Front(ts, instructionIdx) == before + blobs;
    hide Blobs, OffsetTable, Front, WellSized;
    SliceOfRight(before, blobs, STRIDE * i, STRIDE * i + SIG_LEN);
    SliceOfRight(before, blobs, STRIDE * i + SIG_LEN, STRIDE * i + STRIDE);
  }

  /** The reader's view of a buffer that carries `ts`: its counts, and for every triple the
      offset struct and the bytes the struct points at. */
  ghost predicate Carries(buf: seq<Byte>, ts: seq<Triple>, instructionIdx: int) {
    && ts != []
    && |buf| >= MsgOffset(|ts|) + |ts[0].message|
    && buf[0] == |ts| % 256 && buf[1] == 0
    && forall i :: 0 <= i < |ts| ==> CarriesAt(buf, ts, instructionIdx, i)
  }

  ghost predicate CarriesAt(buf: seq<Byte>, ts: seq<Triple>, instructionIdx: int, i: nat)
    requires i < |ts| && |buf| >= MsgOffset(|ts|) + |ts[0].message|
  {
    var n, len := |ts|, |ts[0].message|;
    && ReadStruct(buf, HDR + i * OFF_LEN) == StructOf(n, i, len, instructionIdx)
    && buf[SigOffset(n, i)..SigOffset(n, i) + SIG_LEN] == ts[i].signature
    && buf[SigOffset(n, i) + SIG_LEN..SigOffset(n, i) + STRIDE] == ts[i].pubkey
    && buf[MsgOffset(n)..MsgOffset(n) + len] == ts[i].message
  }

  lemma ImageCarriesAt(ts: seq<Triple>, instructionIdx: int, slot: int, version: int, i: nat)
    requires Packable(ts, instructionIdx, slot) && i < |ts|
    ensures CarriesAt(Image(ts, instructionIdx, slot, version), ts, instructionIdx, i)
  {
    var img, n, len := Image(ts, instructionIdx, slot, version), |ts|, |ts[0].message|;
    ImageMessage(ts, instructionIdx, slot, version);
    ImageFront(ts, instructionIdx, slot, version, i);
    hide Image, StructBytes, ReadStruct;
    ReadStructOfBytes(img, HDR + OFF_LEN * i, StructOf(n, i, len, instructionIdx));
  }

  lemma ImageCarries(ts: seq<Triple>, instructionIdx: int, slot: int, version: int)
    requires Packable(ts, instructionIdx, slot)
    ensures Carries(Image(ts, instructionIdx, slot, version), ts, instructionIdx)
  {
    hide Image, CarriesAt;
    ImageMessage(ts, instructionIdx, slot, version);
    forall i | 0 <= i < |ts| ensures CarriesAt(Image(ts, instructionIdx, slot, version), ts, instructionIdx, i) {
      ImageCarriesAt(ts, instructionIdx, slot, version, i);
    }
  }

  // ---- regions ----

  datatype Region = Region(start: nat, len: nat)

  predicate Inside(p: int, r: Region) {
    r.start <= p < r.start + r.len
  }

  /** The regions in address order, for blobs that start at `dataStart`: header, n offset
      structs, n signature/key blobs, message, index bytes, slot, version, tag. */
  function RegionAt(n: nat, msgLen: nat, dataStart: nat, k: nat): Region
    requires k < 2 * n + 6
  {
    var msg := dataStart + STRIDE * n;
    if k == 0 then Region(0, HDR)
    else if k <= n then Region(HDR + OFF_LEN * (k - 1), OFF_LEN)
    else if k <= 2 * n then Region(dataStart + STRIDE * (k - n - 1), STRIDE)
    else if k == 2 * n + 1 then Region(msg, msgLen)
    else if k == 2 * n + 2 then Region(msg + msgLen, n)
    else if k == 2 * n + 3 then Region(msg + msgLen + n, 8)
    else if k == 2 * n + 4 then Region(msg + msgLen + n + 8, 1)
    else Region(msg + msgLen + n + 9, 4)
  }

  ghost predicate PairwiseDisjoint(n: nat, msgLen: nat, dataStart: nat) {
    forall j, k, p :: 0 <= j < k < 2 * n + 6 && Inside(p, RegionAt(n, msgLen, dataStart, j))
      ==> !Inside(p, RegionAt(n, msgLen, dataStart, k))
  }

  ghost predicate Covered(p: int, n: nat, msgLen: nat, dataStart: nat) {
    exists k :: 0 <= k < 2 * n + 6 && Inside(p, RegionAt(n, msgLen, dataStart, k))
  }

  lemma {:induction false} RegionsInOrder(n: nat, msgLen: nat, j: nat, k: nat)
    requires j < k < 2 * n + 6
    ensures var a := RegionAt(n, msgLen, DataStart(n), j);
            a.start + a.len <= RegionAt(n, msgLen, DataStart(n), k).start
    decreases k
  {
    if j + 1 < k {
      RegionsInOrder(n, msgLen, j, k - 1);
    }
  }

  lemma {:induction false} RegionHolding(n: nat, msgLen: nat, p: nat, k: nat) returns (at: nat)
    requires k < 2 * n + 6 && p < RegionAt(n, msgLen, DataStart(n), k).start + RegionAt(n, msgLen, DataStart(n), k).len
    ensures at < 2 * n + 6 && Inside(p, RegionAt(n, msgLen, DataStart(n), at))
    decreases k
  {
    if RegionAt(n, msgLen, DataStart(n), k).start <= p {
      at := k;
    } else {
      at := RegionHolding(n, msgLen, p, k - 1);
    }
  }

  /** The packer's regions tile the buffer: every byte of it lies in exactly one region. */
  lemma RegionsTile(n: nat, msgLen: nat)
    ensures PairwiseDisjoint(n, msgLen, DataStart(n))
    ensures forall p :: Covered(p, n, msgLen, DataStart(n)) <==> 0 <= p < Total(n, msgLen)
  {
    forall j, k, p | 0 <= j < k < 2 * n + 6 && Inside(p, RegionAt(n, msgLen, DataStart(n), j))
      ensures !Inside(p, RegionAt(n, msgLen, DataStart(n), k))
    {
      RegionsInOrder(n, msgLen, j, k);
    }
    forall p ensures Covered(p, n, msgLen, DataStart(n)) <==> 0 <= p < Total(n, msgLen) {
      if 0 <= p < Total(n, msgLen) {
        var k := RegionHolding(n, msgLen, p, 2 * n + 5);
      } else if k :| 0 <= k < 2 * n + 6 && Inside(p, RegionAt(n, msgLen, DataStart(n), k)) {
        if k < 2 * n + 5 {
          RegionsInOrder(n, msgLen, k, 2 * n + 5);
        }
      }
    }
  }

  /** With the data start fixed at its one-signature value the offset table and the blobs
      collide as soon as there are two signatures, and only then. */
  lemma FixedDataStartOverlaps(n: nat, msgLen: nat)
    requires n >= 1
    ensures PairwiseDisjoint(n, msgLen, 16) <==> n == 1
  {
    if n == 1 {
      RegionsTile(1, msgLen);
    } else {
      assert Inside(16, RegionAt(n, msgLen, 16, 2));
      assert Inside(16, RegionAt(n, msgLen, 16, n + 1));
    }
  }

  /** For at most 255 signatures and a byte-string message of u16 length every offset the
      packer writes fits its field, and what it points at lies inside the buffer. */
  lemma OffsetsFit(n: nat, i: nat, msgLen: nat, instructionIdx: int)
    requires i < n <= 255 && msgLen < U16_LIMIT && 0 <= instructionIdx < U16_LIMIT
    ensures FieldsFit(n, msgLen, instructionIdx)
    ensures var o := StructOf(n, i, msgLen, instructionIdx);
      && o.signatureOffset + SIG_LEN == o.publicKeyOffset
      && o.publicKeyOffset + PK_LEN <= o.messageDataOffset
      && o.messageDataOffset + o.messageDataSize <= Total(n, msgLen)
      && DataStart(n) <= o.signatureOffset && o.messageDataOffset < 28_053
  {
  }
}
