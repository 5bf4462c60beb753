/** The "simple" packing of bytes into an EIP-4844 blob: a zero byte leads every
    32-byte field element, the first element holds the length, and each of the
    others 31 bytes of data. */
module Blob {
  import opened Wrappers
  import opened Bytes
  import opened Text

  const ELEMENT: nat := 32
  const SIMPLE_BLOB_BYTES: nat := 4096 * ELEMENT
  const MAX_PAYLOAD_BYTES: nat := (4096 - 1) * (ELEMENT - 1)

  /** BLS_MODULUS of EIP-4844, section "Parameters". */
  const BLS_MODULUS: nat := 0x73eda753299d7d483339d80809a1d80553bda402fffe5bfeffffffff00000001

  datatype BlobError = TooShort | NotMultiple | DoesNotFit | TooLong

  // ------------------------------------------------------------------
  // Encoding

  /** Where byte `k` of the data goes. */
  function DataPosition(k: nat): nat { (k / 31 + 1) * 32 + 1 + k % 31 }

  /** The byte at `j` of the blob of `data`. */
  function BlobByte(data: seq<byte>, j: nat): byte {
    if j % 32 == 0 then 0
    else if j < 9 then Be(|data|, 8)[j - 1]
    else if j < 32 then 0
    else
      var k := (j / 32 - 1) * 31 + j % 32 - 1;
      if k < |data| then data[k] else 0
  }

  /** The data byte at `j`, if any, is the one that goes there. */
  lemma DataPositionInverse(k: nat)
    ensures DataPosition(k) >= 32 && DataPosition(k) % 32 == k % 31 + 1 && DataPosition(k) / 32 == k / 31 + 1
    ensures (DataPosition(k) / 32 - 1) * 31 + DataPosition(k) % 32 - 1 == k
  {
  }

  /** Copies one chunk behind its leading zero byte. */
  method PutChunk(blob: array<byte>, data: seq<byte>, i: nat)
    requires blob.Length == SIMPLE_BLOB_BYTES && |data| <= MAX_PAYLOAD_BYTES && 31 * i < |data|
    modifies blob
    ensures forall j :: 0 <= j < blob.Length && !(32 * (i + 1) <= j < 32 * (i + 2)) ==> blob[j] == old(blob[j])
    ensures blob[32 * (i + 1)] == 0
    ensures forall j :: 32 * (i + 1) < j < 32 * (i + 2) ==>
      blob[j] == if j - i - 33 < |data| then data[j - i - 33] else old(blob[j])
  {
    var offset := (i + 1) * ELEMENT;
    var size := if |data| - 31 * i < 31 then |data| - 31 * i else 31;
    blob[offset] := 0;
    for c := 0 to size
      invariant forall j :: 0 <= j < blob.Length && !(offset <= j < offset + 1 + c) ==> blob[j] == old(blob[j])
      invariant blob[offset] == 0
      invariant forall j :: offset < j < offset + 1 + c ==> blob[j] == data[j - i - 33]
    {
      blob[offset + 1 + c] := data[31 * i + c];
    }
  }

  lemma ChunkBytes(data: seq<byte>, i: nat, c: nat)
    requires c < 31
    ensures BlobByte(data, 32 * (i + 1) + 1 + c) == if 31 * i + c < |data| then data[31 * i + c] else 0
    ensures BlobByte(data, 32 * (i + 1)) == 0
  {
  }

  /** The blob of `data`, refused exactly when it is too long. */
  method EncodeSimpleBlob(data: seq<byte>) returns (r: Result<seq<byte>, BlobError>)
    ensures r.Ok? <==> |data| <= MAX_PAYLOAD_BYTES
    ensures r.Ok? ==> IsBlobOf(r.value, data) && HoldsAt(r.value, data)
    ensures r.Ok? ==> forall j :: 0 <= j < |r.value| && IsPadding(j, |data|) ==> r.value[j] == 0
  {
    if |data| > MAX_PAYLOAD_BYTES { return Err(TooLong); }
    var blob := new byte[SIMPLE_BLOB_BYTES](_ => 0);
    var length := Be(|data|, 8);
    for i := 0 to 8
      invariant forall j :: 0 <= j < SIMPLE_BLOB_BYTES ==> blob[j] == if 1 <= j < 1 + i then length[j - 1] else 0
    {
      blob[1 + i] := length[i];
    }
    var i := 0;
    while 31 * i < |data|
      invariant 31 * i <= |data| + 30
      invariant forall j :: 0 <= j < 32 * (i + 1) && j < SIMPLE_BLOB_BYTES ==> blob[j] == BlobByte(data, j)
      invariant forall j :: 32 * (i + 1) <= j < SIMPLE_BLOB_BYTES ==> blob[j] == 0
    {
      ghost var was := blob[..];
      PutChunk(blob, data, i);
      forall j | 0 <= j < 32 * (i + 2) && j < SIMPLE_BLOB_BYTES ensures blob[j] == BlobByte(data, j) {
        if j >= 32 * (i + 1) {
          if j > 32 * (i + 1) { ChunkBytes(data, i, j - 32 * (i + 1) - 1); } else { ChunkBytes(data, i, 0); }
        } else {
          assert was[j] == BlobByte(data, j);
        }
      }
      i := i + 1;
    }
    forall j | 32 * (i + 1) <= j < SIMPLE_BLOB_BYTES ensures BlobByte(data, j) == 0 { BeyondData(data, i, j); }
    r := Ok(blob[..]);
    BlobHoldsAt(blob[..], data);
  }

  /** The length is in the eight bytes after the first, most significant first,
      and byte `k` of the data in element `k / 31 + 1`, behind its first byte. */
  predicate HoldsAt(blob: seq<byte>, data: seq<byte>) {
    && |blob| >= 9 && LengthAt(blob) == |data|
    && forall k :: 0 <= k < |data| ==>
         32 * (k / 31) + 33 + k % 31 < |blob| && blob[32 * (k / 31) + 33 + k % 31] == data[k]
  }

  function ByteAt(blob: seq<byte>, i: nat): int
    requires i < |blob|
  {
    blob[i]
  }

  function LengthAt(blob: seq<byte>): int
    requires |blob| >= 9
  {
    0x1_0000_0000
    * (0x100_0000 * ByteAt(blob, 1) + 0x1_0000 * ByteAt(blob, 2) + 0x100 * ByteAt(blob, 3) + ByteAt(blob, 4))
    + 0x100_0000 * ByteAt(blob, 5) + 0x1_0000 * ByteAt(blob, 6) + 0x100 * ByteAt(blob, 7) + ByteAt(blob, 8)
  }

  lemma FromBeStep(s: seq<byte>, k: nat)
    requires 0 < k <= |s|
    ensures FromBe(s[..k]) == 256 * FromBe(s[..k - 1]) + ByteAt(s, k - 1)
  {
    assert s[..k][..k - 1] == s[..k - 1];
  }

  lemma LengthAtIs(blob: seq<byte>)
    requires |blob| >= 9
    ensures FromBe(blob[1..9]) == LengthAt(blob)
  {
    hide FromBe;
    var s := blob[1..9];
    assert s[..8] == s && s[..0] == [];
    FromBeStep(s, 8);
    FromBeStep(s, 7);
    FromBeStep(s, 6);
    FromBeStep(s, 5);
    FromBeStep(s, 4);
    FromBeStep(s, 3);
    FromBeStep(s, 2);
    FromBeStep(s, 1);
    FromBeNothing();
  }

  lemma FromBeNothing()
    ensures FromBe([]) == 0
  {
  }

  lemma BlobHoldsAt(blob: seq<byte>, data: seq<byte>)
    requires |data| <= MAX_PAYLOAD_BYTES && IsBlobOf(blob, data)
    ensures HoldsAt(blob, data)
    ensures forall j :: 0 <= j < |blob| && IsPadding(j, |data|) ==> blob[j] == 0
  {
    LengthField(data, blob);
    LengthAtIs(blob);
    hide FromBe, Be, LengthAt;
    forall k | 0 <= k < |data|
      ensures 32 * (k / 31) + 33 + k % 31 < |blob| && blob[32 * (k / 31) + 33 + k % 31] == data[k]
    {
      DataPositionInverse(k);
      assert blob[DataPosition(k)] == BlobByte(data, DataPosition(k));
    }
  }

  lemma BeyondData(data: seq<byte>, i: nat, j: nat)
    requires |data| <= 31 * i && 32 * (i + 1) <= j
    ensures BlobByte(data, j) == 0
  {
  }

  predicate IsBlobOf(blob: seq<byte>, data: seq<byte>) {
    |blob| == SIMPLE_BLOB_BYTES && forall j :: 0 <= j < |blob| ==> blob[j] == BlobByte(data, j)
  }

  /** Every 32-byte element of an encoded blob is a canonical field element. */
  lemma ElementsAreCanonical(data: seq<byte>, blob: seq<byte>, i: nat)
    requires IsBlobOf(blob, data) && i < 4096
    ensures FromBe(blob[32 * i..32 * i + 32]) < BLS_MODULUS
  {
    var element := blob[32 * i..32 * i + 32];
    assert element[0] == BlobByte(data, 32 * i) == 0;
    LeadingZero(element);
    LargestElement();
  }

  /** A field element holds any 31 bytes. */
  lemma LargestElement()
    ensures Pow256(31) < BLS_MODULUS
  {
    assert Pow256(8) == 0x1_0000_0000_0000_0000;
    assert Pow256(16) == 0x1_0000_0000_0000_0000_0000_0000_0000_0000;
    assert Pow256(24) == 0x1_0000_0000_0000_0000_0000_0000_0000_0000_0000_0000_0000_0000;
  }

  // ------------------------------------------------------------------
  // Decoding

  /** The data bytes of the elements from `i` on. */
  function ChunksFrom(blob: seq<byte>, i: nat): (r: seq<byte>)
    requires |blob| % 32 == 0 && 32 * i <= |blob|
    ensures |r| == (|blob| / 32 - i) * 31
    decreases |blob| - 32 * i
  {
    if 32 * i == |blob| then [] else blob[32 * i + 1..32 * i + 32] + ChunksFrom(blob, i + 1)
  }

  function DecodeSimpleBlob(blob: seq<byte>): Result<seq<byte>, BlobError> {
    if |blob| < 9 then Err(TooShort)
    else if |blob| % ELEMENT != 0 then Err(NotMultiple)
    else
      var length := FromBe(blob[1..9]);
      if length > (|blob| / ELEMENT - 1) * (ELEMENT - 1) then Err(DoesNotFit)
      else Ok(ChunksFrom(blob, 1)[..length])
  }

  lemma {:induction false} ChunksAt(blob: seq<byte>, i: nat, k: nat)
    requires |blob| % 32 == 0 && 32 * i <= |blob| && k < |ChunksFrom(blob, i)|
    ensures 32 * (i + k / 31) + 1 + k % 31 < |blob| && ChunksFrom(blob, i)[k] == blob[32 * (i + k / 31) + 1 + k % 31]
    decreases |blob| - 32 * i
  {
    if k >= 31 {
      ChunksAt(blob, i + 1, k - 31);
      assert (k - 31) / 31 == k / 31 - 1 && (k - 31) % 31 == k % 31;
    }
  }

  lemma LengthField(data: seq<byte>, blob: seq<byte>)
    requires |data| <= MAX_PAYLOAD_BYTES && IsBlobOf(blob, data)
    ensures FromBe(blob[1..9]) == |data|
  {
    assert blob[1..9] == Be(|data|, 8) by {
      forall j | 0 <= j < 8 ensures blob[1..9][j] == Be(|data|, 8)[j] { assert blob[j + 1] == BlobByte(data, j + 1); }
    }
    assert Pow256(8) == 0x1_0000_0000_0000_0000;
    BeRoundTrip(|data|, 8);
  }

  /** Decoding an encoded blob gives the data back. */
  lemma BlobRoundTrip(data: seq<byte>, blob: seq<byte>)
    requires |data| <= MAX_PAYLOAD_BYTES && IsBlobOf(blob, data)
    ensures DecodeSimpleBlob(blob) == Ok(data)
  {
    LengthField(data, blob);
    hide FromBe, Be;
    var all := ChunksFrom(blob, 1);
    forall k | 0 <= k < |data| ensures all[k] == data[k] {
      ChunksAt(blob, 1, k);
      DataPositionInverse(k);
      assert blob[DataPosition(k)] == BlobByte(data, DataPosition(k));
    }
    assert all[..|data|] == data;
  }

  /** What decoding reads: the length, and each byte of the data, at these
      positions of a blob of whole elements that can hold them. */
  lemma DecodesIff(blob: seq<byte>, data: seq<byte>)
    ensures DecodeSimpleBlob(blob) == Ok(data) <==>
      |blob| % 32 == 0 && HoldsAt(blob, data) && |data| <= (|blob| / 32 - 1) * 31
  {
    if |blob| >= 9 && |blob| % 32 == 0 {
      LengthAtIs(blob);
      hide FromBe, LengthAt;
      var all := ChunksFrom(blob, 1);
      forall k | 0 <= k < |all|
        ensures 32 * (k / 31) + 33 + k % 31 < |blob| && all[k] == blob[32 * (k / 31) + 33 + k % 31]
      {
        ChunksAt(blob, 1, k);
      }
      hide ChunksFrom;
      if HoldsAt(blob, data) && |data| <= |all| { assert all[..|data|] == data; }
    }
  }

  /** A position that carries neither length nor data. */
  predicate IsPadding(j: nat, length: nat) {
    j % 32 == 0 || 9 <= j < 32 || (j >= 32 && (j / 32 - 1) * 31 + j % 32 - 1 >= length)
  }

  /** A decoded blob is the encoding of its data exactly when its padding is
      zero: decoding does not look there. */
  lemma DecodedIsEncodedIff(blob: seq<byte>, data: seq<byte>)
    requires |blob| == SIMPLE_BLOB_BYTES && DecodeSimpleBlob(blob) == Ok(data)
    ensures IsBlobOf(blob, data) <==> forall j :: 0 <= j < |blob| && IsPadding(j, |data|) ==> blob[j] == 0
  {
    var all := ChunksFrom(blob, 1);
    FromBeRoundTrip(blob[1..9]);
    assert |data| == FromBe(blob[1..9]);
    hide FromBe, Be, ChunksFrom;
    if forall j :: 0 <= j < |blob| && IsPadding(j, |data|) ==> blob[j] == 0 {
      forall j | 0 <= j < |blob| ensures blob[j] == BlobByte(data, j) {
        if !IsPadding(j, |data|) && j >= 32 {
          var k := (j / 32 - 1) * 31 + j % 32 - 1;
          ChunksAt(blob, 1, k);
          DataPositionInverse(k);
          assert k / 31 == j / 32 - 1 && k % 31 == j % 32 - 1;
        } else if !IsPadding(j, |data|) {
          assert blob[1..9][j - 1] == Be(|data|, 8)[j - 1];
        }
      }
    }
  }
}
