/** The packed instruction and its reader, byte by byte: what stands at each position of the
    buffer, as numbers, without reference to how the image is put together. */
module Ed25519Wire {
  import opened Results
  import opened Ed25519Layout

  // ---- numbers in the buffer ----

  /** The two bytes at `at`, least significant first, make up v. */
  predicate HoldsU16(buf: seq<Byte>, at: nat, v: int) {
    at + 2 <= |buf| && (buf[at] as int) + 256 * (buf[at + 1] as int) == v
  }

  /** The eight bytes at `at`, least significant first, make up v. */
  predicate HoldsU64(buf: seq<Byte>, at: nat, v: int) {
    at + 8 <= |buf| &&
    (buf[at] as int) + 0x100 * (buf[at + 1] as int) + 0x1_0000 * (buf[at + 2] as int) +
    0x100_0000 * (buf[at + 3] as int) + 0x1_0000_0000 * (buf[at + 4] as int) +
    0x100_0000_0000 * (buf[at + 5] as int) + 0x1_0000_0000_0000 * (buf[at + 6] as int) +
    0x100_0000_0000_0000 * (buf[at + 7] as int) == v
  }

  lemma Peel(v: int, width: nat)
    requires width > 0
    ensures LittleEndian(v, width)[0] as int == v % 256
    ensures LittleEndian(v, width)[1..] == LittleEndian(v / 256, width - 1)
  {
  }

  lemma PeelEight(v: int) returns (q: seq<int>)
    requires 0 <= v < U64_LIMIT
    ensures |q| == 9 && q[0] == v && q[8] == 0
    ensures forall i :: 0 <= i < 8 ==> q[i] == 256 * q[i + 1] + LittleEndian(v, 8)[i] as int
  {
    hide LittleEndian;
    q := [v, v / 0x100, v / 0x100 / 0x100, v / 0x100 / 0x100 / 0x100, v / 0x100 / 0x100 / 0x100 / 0x100,
          v / 0x100 / 0x100 / 0x100 / 0x100 / 0x100, v / 0x100 / 0x100 / 0x100 / 0x100 / 0x100 / 0x100,
          v / 0x100 / 0x100 / 0x100 / 0x100 / 0x100 / 0x100 / 0x100,
          v / 0x100 / 0x100 / 0x100 / 0x100 / 0x100 / 0x100 / 0x100 / 0x100];
    var s := LittleEndian(v, 8);
    for i := 0 to 8
      invariant s[i..] == LittleEndian(q[i], 8 - i)
      invariant forall j :: 0 <= j < i ==> s[j] as int == q[j] % 256
    {
      Peel(q[i], 8 - i);
      assert s[i..][0] == s[i] && s[i..][1..] == s[i + 1..];
      assert q[i + 1] == q[i] / 256;
    }
    assert forall i :: 0 <= i < 8 ==> q[i + 1] == q[i] / 256;
  }

  lemma LittleEndianHolds(v: int)
    requires 0 <= v < U64_LIMIT
    ensures HoldsU64(LittleEndian(v, 8), 0, v)
  {
    var q := PeelEight(v);
    hide LittleEndian;
    assert q[0] == 256 * q[1] + LittleEndian(v, 8)[0] as int && q[1] == 256 * q[2] + LittleEndian(v, 8)[1] as int;
    assert q[2] == 256 * q[3] + LittleEndian(v, 8)[2] as int && q[3] == 256 * q[4] + LittleEndian(v, 8)[3] as int;
    assert q[4] == 256 * q[5] + LittleEndian(v, 8)[4] as int && q[5] == 256 * q[6] + LittleEndian(v, 8)[5] as int;
    assert q[6] == 256 * q[7] + LittleEndian(v, 8)[6] as int && q[7] == LittleEndian(v, 8)[7] as int;
  }

  // ---- what the packer writes ----

  /** The triples as the packer orders them: the same ones, by ascending oracle index. */
  ghost predicate QueueOrder(ts: seq<Triple>, sorted: seq<Triple>) {
    && multiset(sorted) == multiset(ts)
    && forall i, j :: 0 <= i < j < |sorted| ==> sorted[i].oracleIdx <= sorted[j].oracleIdx
  }

  /** The seven fields of the i-th offset struct, of n, with a message of `len` bytes. */
  ghost predicate StructWritten(buf: seq<Byte>, n: nat, len: nat, instructionIdx: int, i: nat) {
    var at, blob := 2 + 14 * i, 2 + 14 * n + 96 * i;
    && HoldsU16(buf, at, blob) && HoldsU16(buf, at + 2, instructionIdx)
    && HoldsU16(buf, at + 4, blob + 64) && HoldsU16(buf, at + 6, instructionIdx)
    && HoldsU16(buf, at + 8, 2 + 110 * n) && HoldsU16(buf, at + 10, len) && HoldsU16(buf, at + 12, instructionIdx)
  }

  /** The bytes of the i-th triple: signature, then key, then its index in the trailer. */
  ghost predicate TripleWritten(buf: seq<Byte>, n: nat, t: Triple, i: nat) {
    var blob, index := 2 + 14 * n + 96 * i, 2 + 110 * n + |t.message| + i;
    && blob + 96 <= |buf| && index < |buf|
    && buf[blob..blob + 64] == t.signature && buf[blob + 64..blob + 96] == t.pubkey
    && buf[index] as int == t.oracleIdx % 256
  }

  /** The whole instruction for n triples that share a message. */
  ghost predicate Written(buf: seq<Byte>, sorted: seq<Triple>, instructionIdx: int, slot: int, version: int)
    requires sorted != []
  {
    var n, message := |sorted|, sorted[0].message;
    var end := 2 + 110 * n + |message| + n;
    && |buf| == end + 13
    && buf[0] as int == n % 256 && buf[1] == 0
    && (forall i :: 0 <= i < n ==> StructWritten(buf, n, |message|, instructionIdx, i))
    && (forall i :: 0 <= i < n ==> TripleWritten(buf, n, sorted[i], i))
    && buf[2 + 110 * n..2 + 110 * n + |message|] == message
    && HoldsU64(buf, end, slot)
    && buf[end + 8] as int == version % 256
    && buf[end + 9] as int == 0x53 && buf[end + 10] as int == 0x42 && buf[end + 11] as int == 0x4F
    && buf[end + 12] as int == 0x44
  }

  /** The instruction for these triples, sorted. */
  ghost predicate OnTheWire(buf: seq<Byte>, ts: seq<Triple>, instructionIdx: int, slot: int, version: int) {
    exists sorted :: sorted != [] && QueueOrder(ts, sorted) && Written(buf, sorted, instructionIdx, slot, version)
  }

  lemma StructHolds(o: OffsetStruct, buf: seq<Byte>, b: nat)
    requires b + OFF_LEN <= |buf| && buf[b..b + OFF_LEN] == StructBytes(o)
    requires 0 <= o.signatureOffset < U16_LIMIT && 0 <= o.signatureInstructionIndex < U16_LIMIT
    requires 0 <= o.publicKeyOffset < U16_LIMIT && 0 <= o.publicKeyInstructionIndex < U16_LIMIT
    requires 0 <= o.messageDataOffset < U16_LIMIT && 0 <= o.messageDataSize < U16_LIMIT
    requires 0 <= o.messageInstructionIndex < U16_LIMIT
    ensures HoldsU16(buf, b, o.signatureOffset) && HoldsU16(buf, b + 2, o.signatureInstructionIndex)
    ensures HoldsU16(buf, b + 4, o.publicKeyOffset) && HoldsU16(buf, b + 6, o.publicKeyInstructionIndex)
    ensures HoldsU16(buf, b + 8, o.messageDataOffset) && HoldsU16(buf, b + 10, o.messageDataSize)
    ensures HoldsU16(buf, b + 12, o.messageInstructionIndex)
  {
    StructParts(o);
    hide StructBytes, U16, HoldsU16;
    var s := StructBytes(o);
    FieldHolds(s, buf, b, 0, o.signatureOffset);
    FieldHolds(s, buf, b, 2, o.signatureInstructionIndex);
    FieldHolds(s, buf, b, 4, o.publicKeyOffset);
    FieldHolds(s, buf, b, 6, o.publicKeyInstructionIndex);
    FieldHolds(s, buf, b, 8, o.messageDataOffset);
    FieldHolds(s, buf, b, 10, o.messageDataSize);
    FieldHolds(s, buf, b, 12, o.messageInstructionIndex);
  }

  lemma StructParts(o: OffsetStruct)
    ensures var s := StructBytes(o);
      && s[0..2] == U16(o.signatureOffset) && s[2..4] == U16(o.signatureInstructionIndex)
      && s[4..6] == U16(o.publicKeyOffset) && s[6..8] == U16(o.publicKeyInstructionIndex)
      && s[8..10] == U16(o.messageDataOffset) && s[10..12] == U16(o.messageDataSize)
      && s[12..14] == U16(o.messageInstructionIndex)
  {
  }

  lemma FieldHolds(s: seq<Byte>, buf: seq<Byte>, b: nat, k: nat, v: int)
    requires b + |s| <= |buf| && buf[b..b + |s|] == s && k + 2 <= |s| && s[k..k + 2] == U16(v) && 0 <= v < U16_LIMIT
    ensures HoldsU16(buf, b + k, v)
  {
    assert s[k] == s[k..k + 2][0] && s[k + 1] == s[k..k + 2][1];
    assert buf[b + k] == buf[b..b + |s|][k] && buf[b + k + 1] == buf[b..b + |s|][k + 1];
  }

  lemma StructIsWritten(ts: seq<Triple>, instructionIdx: int, slot: int, version: int, i: nat)
    requires Packable(ts, instructionIdx, slot) && i < |ts|
    ensures StructWritten(Image(ts, instructionIdx, slot, version), |ts|, |ts[0].message|, instructionIdx, i)
  {
    hide Image, StructBytes, HoldsU16;
    ImageFront(ts, instructionIdx, slot, version, i);
    StructNumbers(|ts|, i, |ts[0].message|, instructionIdx);
    hide StructOf;
    StructHolds(StructOf(|ts|, i, |ts[0].message|, instructionIdx), Image(ts, instructionIdx, slot, version),
                HDR + OFF_LEN * i);
  }

  lemma StructNumbers(n: nat, i: nat, len: nat, instructionIdx: int)
    requires FieldsFit(n, len, instructionIdx) && i < n
    ensures var o, blob := StructOf(n, i, len, instructionIdx), 2 + 14 * n + 96 * i;
      o == OffsetStruct(blob, instructionIdx, blob + 64, instructionIdx, 2 + 110 * n, len, instructionIdx)
    ensures 2 + 14 * n + 96 * i + 96 <= 2 + 110 * n < U16_LIMIT
  {
  }

  lemma TripleIsWritten(ts: seq<Triple>, instructionIdx: int, slot: int, version: int, i: nat)
    requires Packable(ts, instructionIdx, slot) && i < |ts|
    ensures TripleWritten(Image(ts, instructionIdx, slot, version), |ts|, ts[i], i)
  {
    ImageFront(ts, instructionIdx, slot, version, i);
    ImageTrailer(ts, instructionIdx, slot, version, i);
    hide Image, StructBytes;
    assert ts[i].message == ts[0].message;
  }

  lemma TailIsWritten(ts: seq<Triple>, instructionIdx: int, slot: int, version: int)
    requires Packable(ts, instructionIdx, slot)
    ensures var buf := Image(ts, instructionIdx, slot, version);
      var end := 2 + 110 * |ts| + |ts[0].message| + |ts|;
      && |buf| == end + 13 && HoldsU64(buf, end, slot) && buf[end + 8] as int == version % 256
      && buf[end + 9] as int == 0x53 && buf[end + 10] as int == 0x42 && buf[end + 11] as int == 0x4F
      && buf[end + 12] as int == 0x44
  {
    ImageTrailer(ts, instructionIdx, slot, version, 0);
    LittleEndianHolds(slot);
    hide Image, LittleEndian;
    var buf, end := Image(ts, instructionIdx, slot, version), 2 + 110 * |ts| + |ts[0].message| + |ts|;
    var s, tag := buf[end..end + 8], buf[end + 9..end + 13];
    assert s == LittleEndian(slot, 8);
    assert s[0] == buf[end] && s[1] == buf[end + 1] && s[2] == buf[end + 2] && s[3] == buf[end + 3];
    assert s[4] == buf[end + 4] && s[5] == buf[end + 5] && s[6] == buf[end + 6] && s[7] == buf[end + 7];
    assert tag[0] == buf[end + 9] && tag[1] == buf[end + 10] && tag[2] == buf[end + 11] && tag[3] == buf[end + 12];
  }

  lemma ImageIsWritten(ts: seq<Triple>, instructionIdx: int, slot: int, version: int)
    requires Packable(ts, instructionIdx, slot)
    ensures Written(Image(ts, instructionIdx, slot, version), ts, instructionIdx, slot, version)
  {
    ImageMessage(ts, instructionIdx, slot, version);
    TailIsWritten(ts, instructionIdx, slot, version);
    hide Image, HoldsU64, StructWritten, TripleWritten;
    forall i | 0 <= i < |ts|
      ensures StructWritten(Image(ts, instructionIdx, slot, version), |ts|, |ts[0].message|, instructionIdx, i)
      ensures TripleWritten(Image(ts, instructionIdx, slot, version), |ts|, ts[i], i)
    {
      StructIsWritten(ts, instructionIdx, slot, version, i);
      TripleIsWritten(ts, instructionIdx, slot, version, i);
    }
  }

  // ---- what the reader reads ----

  /** The bytes of `buf` from `from` up to `to`, as far as there are any. */
  ghost predicate CutOut(piece: seq<Byte>, buf: seq<Byte>, from: nat, to: nat)
    requires from <= to
  {
    && |piece| == Max(0, Min(to, |buf|) - from)
    && forall k :: 0 <= k < |piece| ==> from + k < |buf| && piece[k] == buf[from + k]
  }

  /** Slice i of any buffer follows the offsets its struct declares. */
  ghost predicate Resolved(s: Slice, buf: seq<Byte>, i: nat, verify: Verifier) {
    var at := 2 + 14 * i;
    && s.index == i
    && HoldsU16(buf, at, s.offsets.signatureOffset) && HoldsU16(buf, at + 2, s.offsets.signatureInstructionIndex)
    && HoldsU16(buf, at + 4, s.offsets.publicKeyOffset) && HoldsU16(buf, at + 6, s.offsets.publicKeyInstructionIndex)
    && HoldsU16(buf, at + 8, s.offsets.messageDataOffset) && HoldsU16(buf, at + 10, s.offsets.messageDataSize)
    && HoldsU16(buf, at + 12, s.offsets.messageInstructionIndex)
    && 0 <= s.offsets.signatureOffset && 0 <= s.offsets.publicKeyOffset && 0 <= s.offsets.messageDataOffset
    && 0 <= s.offsets.messageDataSize
    && CutOut(s.signature, buf, s.offsets.signatureOffset, s.offsets.signatureOffset + 64)
    && CutOut(s.pubkey, buf, s.offsets.publicKeyOffset, s.offsets.publicKeyOffset + 32)
    && CutOut(s.message, buf, s.offsets.messageDataOffset, s.offsets.messageDataOffset + s.offsets.messageDataSize)
    && s.verified == verify(s.message, s.signature, s.pubkey)
  }

  /** Whatever the buffer: the reader fails exactly when a declared struct lies outside it; otherwise
      it resolves as many structs as the first byte says, and finds all verified exactly when there
      is one and none fails. */
  lemma DecodeResolves(buf: seq<Byte>, verify: Verifier)
    ensures var n: int := if buf == [] then 0 else buf[0] as int;
      && (Decode(buf, verify).None? <==> n > 0 && 2 + 14 * n > |buf|)
      && (Decode(buf, verify).Some? ==>
            var d := Decode(buf, verify).value;
            && |d.slices| == n && d.dataLen == |buf|
            && (d.numSignatures.Some? <==> |buf| >= 1) && (d.padding.Some? <==> |buf| >= 2)
            && (|buf| >= 1 ==> d.numSignatures == Some(buf[0])) && (|buf| >= 2 ==> d.padding == Some(buf[1]))
            && (forall i :: 0 <= i < n ==> Resolved(d.slices[i], buf, i, verify))
            && (d.allVerified <==> n > 0 && forall i :: 0 <= i < n ==> d.slices[i].verified))
  {
    hide Resolved, SliceAt;
    var n: nat := if buf == [] then 0 else buf[0];
    if n == 0 || 2 + 14 * n <= |buf| {
      forall i | 0 <= i < n ensures Resolved(SliceAt(buf, i, verify), buf, i, verify) {
        SliceResolves(buf, i, verify);
      }
    }
  }

  lemma SliceResolves(buf: seq<Byte>, i: nat, verify: Verifier)
    requires 2 + 14 * i + 14 <= |buf|
    ensures Resolved(SliceAt(buf, i, verify), buf, i, verify)
  {
    hide Subarray, CutOut;
    var o := ReadStruct(buf, HDR + i * OFF_LEN);
    SubarrayCuts(buf, o.signatureOffset, o.signatureOffset + 64);
    SubarrayCuts(buf, o.publicKeyOffset, o.publicKeyOffset + 32);
    SubarrayCuts(buf, o.messageDataOffset, o.messageDataOffset + o.messageDataSize);
  }

  lemma SubarrayCuts(buf: seq<Byte>, from: nat, to: nat)
    requires from <= to
    ensures CutOut(Subarray(buf, from, to), buf, from, to)
  {
  }
}
