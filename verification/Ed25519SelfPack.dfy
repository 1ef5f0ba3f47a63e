/** crank/ed25519SelfPack.ts: the packer that writes the instruction data in place, the
    decoder that follows the offsets back, and what one does to the other. */
module Ed25519SelfPack {
  import opened Results
  import opened StableSort
  import opened Ed25519Layout
  import opened Ed25519Wire

  datatype PackError =
    | EmptyTriples | NegativeInstructionIdx
    | BadSignatureLength | BadPubkeyLength
    | MessagesDiffer | OutOfRange

  function LengthError(ts: seq<Triple>): (e: Option<PackError>)
    ensures e.None? <==> WellSized(ts)
  {
    if ts == [] then None
    else if |ts[0].signature| != SIG_LEN then Some(BadSignatureLength)
    else if |ts[0].pubkey| != PK_LEN then Some(BadPubkeyLength)
    else
      assert WellSized(ts[1..]) ==> WellSized(ts) by { assert ts == [ts[0]] + ts[1..]; }
      LengthError(ts[1..])
  }

  /** What the packer throws, or None when it returns an instruction. */
  function Refusal(ts: seq<Triple>, instructionIdx: int, slot: int): (e: Option<PackError>)
    ensures e.None? <==> Packable(ts, instructionIdx, slot)
  {
    if ts == [] then Some(EmptyTriples)
    else if instructionIdx < 0 then Some(NegativeInstructionIdx)
    else if LengthError(ts).Some? then LengthError(ts)
    else if !SharedMessage(ts) then Some(MessagesDiffer)
    else if !FieldsFit(|ts|, |ts[0].message|, instructionIdx) then Some(OutOfRange)
    else if !(0 <= slot < U64_LIMIT) then Some(OutOfRange)
    else None
  }

  // ---- buffer primitives ----

  method CopyTo(data: array<Byte>, src: seq<Byte>, off: nat)
    requires off + |src| <= data.Length
    modifies data
    ensures data[..off + |src|] == old(data[..off]) + src
  {
    forall k | 0 <= k < |src| {
      data[off + k] := src[k];
    }
  }

  /** Buffer.writeUInt16LE: throws on a value that does not fit. */
  method WriteUInt16LE(data: array<Byte>, v: int, off: nat) returns (ok: bool)
    requires off + 2 <= data.Length
    modifies data
    ensures ok <==> 0 <= v < U16_LIMIT
    ensures ok ==> data[..off + 2] == old(data[..off]) + U16(v)
  {
    ok := 0 <= v < U16_LIMIT;
    if ok {
      data[off] := v % 256;
      data[off + 1] := v / 256;
    }
  }

  method WriteStruct(data: array<Byte>, o: OffsetStruct, base: nat) returns (ok: bool)
    requires base + OFF_LEN <= data.Length
    modifies data
    ensures ok <==>
      && 0 <= o.signatureOffset < U16_LIMIT && 0 <= o.signatureInstructionIndex < U16_LIMIT
      && 0 <= o.publicKeyOffset < U16_LIMIT && 0 <= o.publicKeyInstructionIndex < U16_LIMIT
      && 0 <= o.messageDataOffset < U16_LIMIT && 0 <= o.messageDataSize < U16_LIMIT
      && 0 <= o.messageInstructionIndex < U16_LIMIT
    ensures ok ==> data[..base + OFF_LEN] == old(data[..base]) + StructBytes(o)
  {
    ok := WriteUInt16LE(data, o.signatureOffset, base);
    if !ok { return; }
    ok := WriteUInt16LE(data, o.signatureInstructionIndex, base + 2);
    if !ok { return; }
    ok := WriteUInt16LE(data, o.publicKeyOffset, base + 4);
    if !ok { return; }
    ok := WriteUInt16LE(data, o.publicKeyInstructionIndex, base + 6);
    if !ok { return; }
    ok := WriteUInt16LE(data, o.messageDataOffset, base + 8);
    if !ok { return; }
    ok := WriteUInt16LE(data, o.messageDataSize, base + 10);
    if !ok { return; }
    ok := WriteUInt16LE(data, o.messageInstructionIndex, base + 12);
  }

  lemma SortedTriples(ts: seq<Triple>)
    ensures WellSized(ts) ==> WellSized(SortTriples(ts))
    ensures SharedMessage(ts) <==> SharedMessage(SortTriples(ts))
    ensures SharedMessage(ts) && ts != [] ==> SortTriples(ts)[0].message == ts[0].message
  {
    SameMembers(ts, SortTriples(ts));
  }

  lemma SameMembers(a: seq<Triple>, b: seq<Triple>)
    requires multiset(a) == multiset(b)
    ensures forall x :: x in a <==> x in b
    ensures WellSized(a) ==> WellSized(b)
    ensures SharedMessage(a) <==> SharedMessage(b)
    ensures SharedMessage(a) && a != [] ==> b != [] && b[0].message == a[0].message
  {
    assert forall x :: x in a <==> x in multiset(a);
    assert forall x :: x in b <==> x in multiset(b);
    assert forall i :: 0 <= i < |a| ==> a[i] in b;
    assert forall i :: 0 <= i < |b| ==> b[i] in a;
    assert |a| == |multiset(a)| && |b| == |multiset(b)|;
  }

  // ---- the packer ----

  /** The per-triple checks, in input order. */
  method CheckLengths(ts: seq<Triple>) returns (e: Option<PackError>)
    ensures e == LengthError(ts)
  {
    for i := 0 to |ts|
      invariant LengthError(ts) == LengthError(ts[i..])
    {
      if |ts[i].signature| != SIG_LEN {
        return Some(BadSignatureLength);
      }
      if |ts[i].pubkey| != PK_LEN {
        return Some(BadPubkeyLength);
      }
      assert ts[i..][1..] == ts[i + 1..];
    }
    return None;
  }

  method CheckMessages(ts: seq<Triple>) returns (same: bool)
    requires ts != []
    ensures same <==> SharedMessage(ts)
  {
    for i := 0 to |ts|
      invariant forall j :: 0 <= j < i ==> ts[j].message == ts[0].message
    {
      if ts[i].message != ts[0].message {
        return false;
      }
    }
    return true;
  }

  method WriteOffsetTable(data: array<Byte>, n: nat, len: nat, instructionIdx: int) returns (ok: bool)
    requires 0 < n && DataStart(n) <= data.Length && instructionIdx >= 0
    modifies data
    ensures ok <==> FieldsFit(n, len, instructionIdx)
    ensures ok ==> data[..DataStart(n)] == old(data[..HDR]) + OffsetTable(n, n, len, instructionIdx)
  {
    hide StructBytes;
    for i := 0 to n
      invariant i > 0 ==> FieldsFit(n, len, instructionIdx)
      invariant data[..HDR + OFF_LEN * i] == old(data[..HDR]) + OffsetTable(n, i, len, instructionIdx)
    {
      ok := WriteStruct(data, StructOf(n, i, len, instructionIdx), HDR + i * OFF_LEN);
      if !ok {
        return;
      }
    }
    ok := true;
  }

  method WriteBlobs(data: array<Byte>, triples: seq<Triple>)
    requires WellSized(triples) && MsgOffset(|triples|) <= data.Length
    modifies data
    ensures data[..MsgOffset(|triples|)] == old(data[..DataStart(|triples|)]) + Blobs(triples, |triples|)
  {
    var n := |triples|;
    for i := 0 to n
      invariant data[..SigOffset(n, i)] == old(data[..DataStart(n)]) + Blobs(triples, i)
    {
      CopyTo(data, triples[i].signature, SigOffset(n, i));
      CopyTo(data, triples[i].pubkey, SigOffset(n, i) + SIG_LEN);
    }
  }

  method WriteIndices(data: array<Byte>, triples: seq<Triple>, off: nat)
    requires off + |triples| <= data.Length
    modifies data
    ensures data[..off + |triples|] == old(data[..off]) + OracleIndices(triples, |triples|)
  {
    for i := 0 to |triples|
      invariant data[..off + i] == old(data[..off]) + OracleIndices(triples, i)
    {
      data[off + i] := triples[i].oracleIdx % 256;
    }
  }

  method WriteTrailer(data: array<Byte>, triples: seq<Triple>, slot: int, version: int, off: nat) returns (ok: bool)
    requires off + |triples| + 13 == data.Length
    modifies data
    ensures ok <==> 0 <= slot < U64_LIMIT
    ensures ok ==> data[..] == old(data[..off]) + Trailer(triples, slot, version)
  {
    hide OracleIndices, LittleEndian;
    var slotOffset := off + |triples|;
    WriteIndices(data, triples, off);
    if !(0 <= slot < U64_LIMIT) {
      return false;
    }
    CopyTo(data, LittleEndian(slot, 8), slotOffset);
    CopyTo(data, [version % 256], slotOffset + 8);
    CopyTo(data, SBOD, slotOffset + 9);
    assert data[..] == data[..data.Length];
    return true;
  }

  /** The instruction data the packer produces for these inputs. */
  function Packed(ts: seq<Triple>, instructionIdx: int, slot: int, version: int): seq<Byte>
    requires Packable(ts, instructionIdx, slot)
  {
    SortedTriples(ts);
    Image(SortTriples(ts), instructionIdx, slot, version)
  }

  /** For all accepted inputs, the array the packer returns holds at its fixed positions the numbers
      and the bytes that the precompile and the quote program read there. */
  lemma PackedIsWritten(ts: seq<Triple>, instructionIdx: int, slot: int, version: int)
    requires Packable(ts, instructionIdx, slot)
    ensures OnTheWire(Packed(ts, instructionIdx, slot, version), ts, instructionIdx, slot, version)
  {
    var sorted := SortTriples(ts);
    SortedTriples(ts);
    SortSorts(ts, ByOracleIdx);
    assert QueueOrder(ts, sorted) by {
      forall i, j | 0 <= i < j < |sorted| ensures sorted[i].oracleIdx <= sorted[j].oracleIdx {
        assert ByOracleIdx(sorted[i], sorted[j]);
      }
    }
    hide Image, Written;
    ImageIsWritten(sorted, instructionIdx, slot, version);
  }

  method PackEd25519Ix(triplesIn: seq<Triple>, instructionIdx: int, recentSlot: int, version: int)
    returns (r: Result<array<Byte>, PackError>)
    ensures r.Err? ==> Refusal(triplesIn, instructionIdx, recentSlot) == Some(r.error)
    ensures r.Ok? ==>
      && Packable(triplesIn, instructionIdx, recentSlot)
      && fresh(r.value)
      && r.value[..] == Packed(triplesIn, instructionIdx, recentSlot, version)
      && OnTheWire(r.value[..], triplesIn, instructionIdx, recentSlot, version)
  {
    hide OffsetTable, Blobs, Trailer, SortTriples, WellSized, SharedMessage, LengthError, OnTheWire;
    if |triplesIn| == 0 {
      return Err(EmptyTriples);
    }
    if instructionIdx < 0 {
      return Err(NegativeInstructionIdx);
    }
    var lengthError := CheckLengths(triplesIn);
    if lengthError.Some? {
      return Err(lengthError.value);
    }
    var triples := SortTriples(triplesIn);
    SortedTriples(triplesIn);
    var same := CheckMessages(triples);
    if !same {
      return Err(MessagesDiffer);
    }

    var n, message := |triples|, triples[0].message;
    var data := new Byte[Total(n, |message|)](_ => 0);
    data[0] := n % 256;
    data[1] := 0;
    assert data[..HDR] == [n % 256, 0];
    var ok := WriteOffsetTable(data, n, |message|, instructionIdx);
    if !ok {
      return Err(OutOfRange);
    }
    WriteBlobs(data, triples);
    CopyTo(data, message, MsgOffset(n));
    ok := WriteTrailer(data, triples, recentSlot, version, MsgOffset(n) + |message|);
    if !ok {
      return Err(OutOfRange);
    }
    PackedIsWritten(triplesIn, instructionIdx, recentSlot, version);
    return Ok(data);
  }

  // ---- the decoder ----

  method DecodeAndVerifyEd25519(data: seq<Byte>, verify: Verifier) returns (r: Option<Decoded>)
    ensures r == Decode(data, verify)
  {
    hide SliceAt, AllVerified;
    var n: nat := if data == [] then 0 else data[0];
    var slices: seq<Slice> := [];
    for i := 0 to n
      invariant i > 0 ==> HDR + i * OFF_LEN <= |data|
      invariant |slices| == i
      invariant forall j :: 0 <= j < i ==> slices[j] == SliceAt(data, j, verify)
    {
      if HDR + i * OFF_LEN + OFF_LEN > |data| {
        return None;
      }
      slices := slices + [SliceAt(data, i, verify)];
    }
    assert DeclaredCount(data) == Some(n);
    assert slices == seq(n, i requires 0 <= i < n => SliceAt(data, i, verify));
    r := Some(Decoded(
      if |data| > 0 then Some(data[0]) else None,
      if |data| > 1 then Some(data[1]) else None,
      |data|, slices, AllVerified(slices)));
  }

  // ---- round trip ----

  /** What a reader must find at slice `i` of a packed instruction. */
  predicate SliceCarries(s: Slice, i: nat, t: Triple, instructionIdx: int, verify: Verifier) {
    && s.index == i
    && s.signature == t.signature && s.pubkey == t.pubkey && s.message == t.message
    && s.offsets.signatureInstructionIndex == instructionIdx
    && s.offsets.publicKeyInstructionIndex == instructionIdx
    && s.offsets.messageInstructionIndex == instructionIdx
    && (s.verified <==> verify(t.message, t.signature, t.pubkey))
  }

  lemma SliceCarried(buf: seq<Byte>, ts: seq<Triple>, instructionIdx: int, i: nat, verify: Verifier)
    requires Carries(buf, ts, instructionIdx) && WellSized(ts) && i < |ts|
    ensures SliceCarries(SliceAt(buf, i, verify), i, ts[i], instructionIdx, verify)
  {
    assert CarriesAt(buf, ts, instructionIdx, i);
  }

  lemma DecodeCarried(buf: seq<Byte>, ts: seq<Triple>, instructionIdx: int, verify: Verifier)
    requires Carries(buf, ts, instructionIdx) && WellSized(ts)
    ensures var d := Decode(buf, verify);
      && d.Some?
      && d.value.numSignatures == Some(|ts| % 256) && d.value.padding == Some(0)
      && |d.value.slices| == |ts| % 256
      && d.value.allVerified == AllVerified(d.value.slices)
      && (forall i :: 0 <= i < |ts| % 256 ==> SliceCarries(d.value.slices[i], i, ts[i], instructionIdx, verify))
  {
    forall i | 0 <= i < |ts| % 256
      ensures SliceCarries(SliceAt(buf, i, verify), i, ts[i], instructionIdx, verify)
    {
      SliceCarried(buf, ts, instructionIdx, i, verify);
    }
  }

  predicate VerifiesAll(ts: seq<Triple>, verify: Verifier) {
    forall i :: 0 <= i < |ts| ==> verify(ts[i].message, ts[i].signature, ts[i].pubkey)
  }

  lemma AllVerifiedMeans(slices: seq<Slice>, ts: seq<Triple>, instructionIdx: int, verify: Verifier)
    requires |slices| == |ts| > 0
    requires forall i :: 0 <= i < |ts| ==> SliceCarries(slices[i], i, ts[i], instructionIdx, verify)
    ensures AllVerified(slices) <==> VerifiesAll(ts, verify)
  {
    assert forall i :: 0 <= i < |ts| ==>
      (slices[i].verified <==> verify(ts[i].message, ts[i].signature, ts[i].pubkey));
  }

  lemma VerifiesAllUnordered(a: seq<Triple>, b: seq<Triple>, verify: Verifier)
    requires multiset(a) == multiset(b) && VerifiesAll(a, verify)
    ensures VerifiesAll(b, verify)
  {
    forall i | 0 <= i < |b| ensures verify(b[i].message, b[i].signature, b[i].pubkey) {
      assert b[i] in multiset(a);
      var j :| 0 <= j < |a| && a[j] == b[i];
    }
  }

  /** Decoding a packed instruction gives back the input triples in oracle-index order, every
      one with its own signature and key and the shared message; and `allVerified` holds
      exactly when every input triple verifies. */
  lemma RoundTrip(ts: seq<Triple>, instructionIdx: int, slot: int, version: int, verify: Verifier)
    requires Packable(ts, instructionIdx, slot) && |ts| <= 255
    ensures var d, sorted := Decode(Packed(ts, instructionIdx, slot, version), verify), SortTriples(ts);
      && d.Some?
      && d.value.numSignatures == Some(|ts|) && d.value.padding == Some(0)
      && |d.value.slices| == |ts|
      && (forall i :: 0 <= i < |ts| ==> SliceCarries(d.value.slices[i], i, sorted[i], instructionIdx, verify))
      && Sorted(sorted, ByOracleIdx) && multiset(sorted) == multiset(ts)
      && (d.value.allVerified <==> VerifiesAll(ts, verify))
  {
    hide Image, Decode, SliceCarries, VerifiesAll, AllVerified, Sorted, Carries, WellSized, SharedMessage;
    var sorted, buf := SortTriples(ts), Packed(ts, instructionIdx, slot, version);
    SortedTriples(ts);
    SortSorts(ts, ByOracleIdx);
    ImageCarries(sorted, instructionIdx, slot, version);
    DecodeCarried(buf, sorted, instructionIdx, verify);
    AllVerifiedMeans(Decode(buf, verify).value.slices, sorted, instructionIdx, verify);
    if VerifiesAll(ts, verify) {
      VerifiesAllUnordered(ts, sorted, verify);
    } else if VerifiesAll(sorted, verify) {
      VerifiesAllUnordered(sorted, ts, verify);
    }
  }

  /** The count byte is not range-checked. Among all the inputs the packer accepts, the
      instruction it returns declares all its signatures exactly when there are at most 255;
      beyond that the reader sees a correct prefix and silently loses the rest. */
  lemma DeclaresAllSignatures(ts: seq<Triple>, instructionIdx: int, slot: int, version: int, verify: Verifier)
    requires Packable(ts, instructionIdx, slot)
    ensures var d := Decode(Packed(ts, instructionIdx, slot, version), verify);
      && d.Some?
      && (|d.value.slices| == |ts| <==> |ts| <= 255)
      && |d.value.slices| <= |ts|
      && (forall i :: 0 <= i < |d.value.slices| ==>
            SliceCarries(d.value.slices[i], i, SortTriples(ts)[i], instructionIdx, verify))
  {
    SortedTriples(ts);
    hide Image, Decode, SortTriples, SliceCarries;
    ImageCarries(SortTriples(ts), instructionIdx, slot, version);
    DecodeCarried(Packed(ts, instructionIdx, slot, version), SortTriples(ts), instructionIdx, verify);
  }

  function Zeros(n: nat): (bytes: seq<Byte>)
    ensures |bytes| == n
  {
    seq(n, _ => 0)
  }

  /** 256 triples are accepted, and none of them is declared. */
  lemma TooManyTriples(verify: Verifier)
    ensures var ts := seq(256, i => Triple(0, Zeros(SIG_LEN), Zeros(PK_LEN), []));
      && Packable(ts, 0, 0)
      && Decode(Packed(ts, 0, 0, 0), verify).Some?
      && Decode(Packed(ts, 0, 0, 0), verify).value.slices == []
  {
    var ts := seq(256, i => Triple(0, Zeros(SIG_LEN), Zeros(PK_LEN), []));
    assert Packable(ts, 0, 0);
    DeclaresAllSignatures(ts, 0, 0, 0, verify);
    NoneDeclared(ts, verify);
  }

  lemma NoneDeclared(ts: seq<Triple>, verify: Verifier)
    requires Packable(ts, 0, 0) && |ts| == 256
    ensures Decode(Packed(ts, 0, 0, 0), verify).Some? ==> Decode(Packed(ts, 0, 0, 0), verify).value.slices == []
  {
    var sorted := SortTriples(ts);
    SortedTriples(ts);
    ImageMessage(sorted, 0, 0, 0);
    assert Packed(ts, 0, 0, 0)[0] == 0;
  }

  /** The order in which the triples arrive does not reach the wire: with distinct oracle indices,
      any two orders of the same triples pack to the same bytes. */
  lemma PackIgnoresInputOrder(a: seq<Triple>, b: seq<Triple>, instructionIdx: int, slot: int, version: int)
    requires Packable(a, instructionIdx, slot) && Packable(b, instructionIdx, slot)
    requires multiset(a) == multiset(b)
    requires forall i, j :: 0 <= i < j < |a| ==> a[i].oracleIdx != a[j].oracleIdx
    ensures Packed(a, instructionIdx, slot, version) == Packed(b, instructionIdx, slot, version)
  {
    var le := ByOracleIdx;
    SortSorts(a, le);
    SortSorts(b, le);
    var sa, sb := SortTriples(a), SortTriples(b);
    DistinctIndices(a, sa);
    SortedDistinctUnique(sa, sb);
  }

  ghost predicate NoRepeatedIndex(m: multiset<Triple>) {
    forall x, y :: x in m && y in m && x.oracleIdx == y.oracleIdx ==> x == y && m[x] == 1
  }

  lemma {:induction false} DistinctIndices(a: seq<Triple>, s: seq<Triple>)
    requires multiset(a) == multiset(s)
    requires forall i, j :: 0 <= i < j < |a| ==> a[i].oracleIdx != a[j].oracleIdx
    ensures NoRepeatedIndex(multiset(s))
  {
    forall x, y | x in multiset(s) && y in multiset(s) && x.oracleIdx == y.oracleIdx
      ensures x == y && multiset(s)[x] == 1
    {
      var i :| 0 <= i < |a| && a[i] == x;
      var j :| 0 <= j < |a| && a[j] == y;
      assert i == j;
      assert a == a[..i] + [a[i]] + a[i + 1..];
      assert x !in a[..i] && x !in a[i + 1..];
    }
  }

  lemma {:induction false} SortedDistinctUnique(a: seq<Triple>, b: seq<Triple>)
    requires multiset(a) == multiset(b) && NoRepeatedIndex(multiset(a))
    requires Sorted(a, ByOracleIdx) && Sorted(b, ByOracleIdx)
    ensures a == b
  {
    hide NoRepeatedIndex, Sorted, ByOracleIdx;
    assert |a| == |multiset(a)| == |multiset(b)| == |b|;
    if a != [] {
      SameHead(a, b);
      TailTriples(a);
      TailTriples(b);
      SortedDistinctUnique(a[1..], b[1..]);
      assert a == [a[0]] + a[1..] && b == [b[0]] + b[1..];
    }
  }

  lemma TailTriples(s: seq<Triple>)
    requires s != [] && Sorted(s, ByOracleIdx) && NoRepeatedIndex(multiset(s))
    ensures multiset(s[1..]) == multiset(s) - multiset{s[0]}
    ensures Sorted(s[1..], ByOracleIdx) && NoRepeatedIndex(multiset(s[1..]))
  {
    assert s == [s[0]] + s[1..];
    FewerTriples(multiset(s), multiset(s[1..]));
  }

  lemma SameHead(a: seq<Triple>, b: seq<Triple>)
    requires multiset(a) == multiset(b) && a != [] && b != [] && NoRepeatedIndex(multiset(a))
    requires Sorted(a, ByOracleIdx) && Sorted(b, ByOracleIdx)
    ensures a[0] == b[0]
  {
    SortedHead(a, b);
    SortedHead(b, a);
    assert a[0] in multiset(a) && b[0] in multiset(b);
  }

  lemma FewerTriples(m: multiset<Triple>, less: multiset<Triple>)
    requires NoRepeatedIndex(m) && less <= m
    ensures NoRepeatedIndex(less)
  {
    forall x, y | x in less && y in less && x.oracleIdx == y.oracleIdx
      ensures x == y && less[x] == 1
    {
      assert x in m && y in m && less[x] <= m[x];
    }
  }

  lemma SortedHead(a: seq<Triple>, b: seq<Triple>)
    requires multiset(a) == multiset(b) && a != [] && b != []
    requires Sorted(a, ByOracleIdx)
    ensures a[0].oracleIdx <= b[0].oracleIdx
  {
    assert b[0] in multiset(a);
    var i :| 0 <= i < |a| && a[i] == b[0];
    assert i > 0 ==> ByOracleIdx(a[0], a[i]);
  }
}
