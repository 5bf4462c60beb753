/** The binary format of a relayed payload: magic, proof, two hashes and two
    counted lists of hashes. The proof's own bytes are those of an abstract
    self-delimiting codec. */
module PayloadCodec {
  import opened Wrappers
  import opened Bytes
  import opened Text
  import Blob

  /** Order of the Goldilocks field. */
  const ORDER: nat := 0xFFFF_FFFF_0000_0001

  type Elem = n: int | 0 <= n < ORDER

  type Hash = h: seq<Elem> | |h| == 4 witness [0, 0, 0, 0]

  datatype ParseError = Truncated | BadMagic | BadProofType | BadProof | NotCanonical | IndexPanic

  datatype Parsed<+T> = Parsed(value: T, rest: seq<byte>)

  // ------------------------------------------------------------------
  // Field elements

  function EncodeElems(es: seq<Elem>): (s: seq<byte>)
    ensures |s| == 8 * |es|
  {
    if es == [] then [] else Le(es[0], 8) + EncodeElems(es[1..])
  }

  function ParseElems(bytes: seq<byte>, n: nat): Result<Parsed<seq<Elem>>, ParseError> {
    if n == 0 then Ok(Parsed([], bytes))
    else if |bytes| < 8 then Err(Truncated)
    else
      var e := FromLe(bytes[..8]);
      if e >= ORDER then Err(NotCanonical) else Prefixed([e], ParseElems(bytes[8..], n - 1))
  }

  method WriteElems(buffer: seq<byte>, es: seq<Elem>) returns (out: seq<byte>)
    ensures out == buffer + EncodeElems(es)
  {
    out := buffer;
    for i := 0 to |es|
      invariant out + EncodeElems(es[i..]) == buffer + EncodeElems(es)
    {
      assert es[i..][0] == es[i] && es[i..][1..] == es[i + 1..];
      out := out + Le(es[i], 8);
    }
    assert es[|es|..] == [];
  }

  method ReadElems(bytes: seq<byte>, n: nat) returns (r: Result<Parsed<seq<Elem>>, ParseError>)
    ensures r == ParseElems(bytes, n)
  {
    var elems: seq<Elem>, rest := [], bytes;
    PrefixedNone(ParseElems(bytes, n));
    for i := 0 to n
      invariant ParseElems(bytes, n) == Prefixed(elems, ParseElems(rest, n - i))
    {
      if |rest| < 8 { return Err(Truncated); }
      var e := FromLe(rest[..8]);
      if e >= ORDER { return Err(NotCanonical); }
      PrefixedTwice(elems, e, ParseElems(rest[8..], n - i - 1));
      elems, rest := elems + [e], rest[8..];
    }
    assert elems + [] == elems;
    r := Ok(Parsed(elems, rest));
  }

  function Prefixed<T>(front: seq<T>, r: Result<Parsed<seq<T>>, ParseError>): Result<Parsed<seq<T>>, ParseError> {
    if r.Err? then r else Ok(Parsed(front + r.value.value, r.value.rest))
  }

  lemma PrefixedNone<T>(r: Result<Parsed<seq<T>>, ParseError>)
    ensures Prefixed([], r) == r
  {
    if r.Ok? { assert [] + r.value.value == r.value.value; }
  }

  lemma PrefixedTwice<T>(front: seq<T>, e: T, r: Result<Parsed<seq<T>>, ParseError>)
    ensures Prefixed(front, Prefixed([e], r)) == Prefixed(front + [e], r)
  {
    if r.Ok? { assert front + ([e] + r.value.value) == (front + [e]) + r.value.value; }
  }

  lemma ElemRoundTrip(e: Elem)
    ensures FromLe(Le(e, 8)) == e
  {
    assert Pow256(8) == 0x1_0000_0000_0000_0000;
    LeRoundTrip(e, 8);
  }

  lemma {:induction false} ElemsRoundTrip(es: seq<Elem>, tail: seq<byte>)
    ensures ParseElems(EncodeElems(es) + tail, |es|) == Ok(Parsed(es, tail))
  {
    hide Le, FromLe;
    if es == [] {
      assert EncodeElems(es) + tail == tail;
    } else {
      var bytes := EncodeElems(es) + tail;
      assert bytes[..8] == Le(es[0], 8) && bytes[8..] == EncodeElems(es[1..]) + tail;
      ElemRoundTrip(es[0]);
      ElemsRoundTrip(es[1..], tail);
      assert es == [es[0]] + es[1..];
    }
  }

  lemma {:induction false} ParsedElems(bytes: seq<byte>, n: nat)
    ensures var r := ParseElems(bytes, n);
      r.Ok? ==> |r.value.value| == n && bytes == EncodeElems(r.value.value) + r.value.rest
  {
    if n > 0 && ParseElems(bytes, n).Ok? {
      var es, rest := ParseElems(bytes, n).value.value, ParseElems(bytes, n).value.rest;
      ParsedElems(bytes[8..], n - 1);
      FromLeRoundTrip(bytes[..8]);
      assert es[1..] == ParseElems(bytes[8..], n - 1).value.value;
      assert bytes == bytes[..8] + bytes[8..];
    }
  }

  // ------------------------------------------------------------------
  // Lists of hashes

  function EncodeHashList(hs: seq<Hash>): seq<byte> {
    if hs == [] then [] else EncodeElems(hs[0]) + EncodeHashList(hs[1..])
  }

  /** Preceded by their number in one byte. */
  function EncodeHashes(hs: seq<Hash>): seq<byte>
    requires |hs| <= 255
  {
    [|hs|] + EncodeHashList(hs)
  }

  function ParseHash(bytes: seq<byte>): (r: Result<Parsed<Hash>, ParseError>) {
    var r := ParseElems(bytes, 4);
    if r.Err? then Err(r.error)
    else
      assert |r.value.value| == 4 by { ParsedElems(bytes, 4); }
      Ok(Parsed(r.value.value, r.value.rest))
  }

  function ParseHashList(bytes: seq<byte>, n: nat): Result<Parsed<seq<Hash>>, ParseError>
    decreases n
  {
    if n == 0 then Ok(Parsed([], bytes))
    else
      var h := ParseHash(bytes);
      if h.Err? then Err(h.error) else Prefixed([h.value.value], ParseHashList(h.value.rest, n - 1))
  }

  function ParseHashes(bytes: seq<byte>): Result<Parsed<seq<Hash>>, ParseError> {
    if bytes == [] then Err(Truncated) else ParseHashList(bytes[1..], bytes[0])
  }

  method WriteHashes(buffer: seq<byte>, hs: seq<Hash>) returns (out: seq<byte>)
    requires |hs| <= 255
    ensures out == buffer + EncodeHashes(hs)
  {
    out := buffer + [|hs|];
    for i := 0 to |hs|
      invariant out + EncodeHashList(hs[i..]) == buffer + EncodeHashes(hs)
    {
      assert hs[i..][0] == hs[i] && hs[i..][1..] == hs[i + 1..];
      ghost var before := out;
      out := WriteElems(out, hs[i]);
      assert out + EncodeHashList(hs[i + 1..]) == before + (EncodeElems(hs[i]) + EncodeHashList(hs[i + 1..]));
    }
    assert hs[|hs|..] == [];
  }

  method ReadHashes(bytes: seq<byte>) returns (r: Result<Parsed<seq<Hash>>, ParseError>)
    ensures r == ParseHashes(bytes)
  {
    if bytes == [] { return Err(Truncated); }
    var n: nat := bytes[0];
    var hashes: seq<Hash>, rest := [], bytes[1..];
    PrefixedNone(ParseHashes(bytes));
    for i := 0 to n
      invariant ParseHashes(bytes) == Prefixed(hashes, ParseHashList(rest, n - i))
    {
      var h := ReadElems(rest, 4);
      if h.Err? { return Err(h.error); }
      ParsedElems(rest, 4);
      var hash: Hash := h.value.value;
      PrefixedTwice(hashes, hash, ParseHashList(h.value.rest, n - i - 1));
      hashes, rest := hashes + [hash], h.value.rest;
    }
    assert hashes + [] == hashes;
    r := Ok(Parsed(hashes, rest));
  }

  lemma {:induction false} HashListRoundTrip(hs: seq<Hash>, tail: seq<byte>)
    ensures ParseHashList(EncodeHashList(hs) + tail, |hs|) == Ok(Parsed(hs, tail))
  {
    if hs == [] {
      assert EncodeHashList(hs) + tail == tail;
    } else {
      var rest := EncodeHashList(hs[1..]) + tail;
      assert EncodeHashList(hs) + tail == EncodeElems(hs[0]) + rest;
      ElemsRoundTrip(hs[0], rest);
      HashListRoundTrip(hs[1..], tail);
      assert hs == [hs[0]] + hs[1..];
    }
  }

  lemma HashesRoundTrip(hs: seq<Hash>, tail: seq<byte>)
    requires |hs| <= 255
    ensures ParseHashes(EncodeHashes(hs) + tail) == Ok(Parsed(hs, tail))
  {
    var bytes := EncodeHashes(hs) + tail;
    assert bytes[1..] == EncodeHashList(hs) + tail;
    HashListRoundTrip(hs, tail);
  }

  lemma {:induction false} ParsedHashList(bytes: seq<byte>, n: nat)
    ensures var r := ParseHashList(bytes, n);
      r.Ok? ==> |r.value.value| == n && bytes == EncodeHashList(r.value.value) + r.value.rest
    decreases n
  {
    var r := ParseHashList(bytes, n);
    if n > 0 && r.Ok? {
      var h := ParseHash(bytes);
      ParsedElems(bytes, 4);
      ParsedHashList(h.value.rest, n - 1);
      var hs := ParseHashList(h.value.rest, n - 1).value.value;
      assert r.value.value[0] == h.value.value && r.value.value[1..] == hs;
      assert bytes == EncodeElems(h.value.value) + (EncodeHashList(hs) + r.value.rest);
    }
  }

  lemma ParsedHashes(bytes: seq<byte>)
    ensures var r := ParseHashes(bytes);
      r.Ok? ==> |r.value.value| <= 255 && bytes == EncodeHashes(r.value.value) + r.value.rest
  {
    if bytes != [] {
      ParsedHashList(bytes[1..], bytes[0]);
      assert bytes == [bytes[0]] + bytes[1..];
    }
  }

  // ------------------------------------------------------------------
  // Payloads

  /** The proof's serializer and reader; the reader tells how much it read. */
  datatype ProofCodec<!P> = ProofCodec(encode: P -> seq<byte>, decode: seq<byte> -> Result<(P, nat), ParseError>)

  /** Self-delimiting: a proof is read back whatever follows it, and the reader
      never runs past the end. */
  ghost predicate Lawful<P(!new)>(c: ProofCodec<P>) {
    && (forall p, tail :: c.decode(c.encode(p) + tail) == Ok((p, |c.encode(p)|)))
    && (forall b :: c.decode(b).Ok? ==> c.decode(b).value.1 <= |b|)
  }

  /** One byte string per proof. */
  ghost predicate OneForm<P(!new)>(c: ProofCodec<P>) {
    forall b :: c.decode(b).Ok? ==>
      c.decode(b).value.1 <= |b| && b[..c.decode(b).value.1] == c.encode(c.decode(b).value.0)
  }

  datatype Payload<P> = Payload(proof: P, txFinal: Hash, stateRoot: Hash, nullifiers: seq<Hash>, created: seq<Hash>)

  const MAGIC: nat := 0xd10b
  const PLONKY2: byte := 0

  predicate Writable<P>(p: Payload<P>) { |p.nullifiers| <= 255 && |p.created| <= 255 }

  /** What follows the proof. */
  function EncodeBody<P>(p: Payload<P>): seq<byte>
    requires Writable(p)
  {
    EncodeElems(p.txFinal) + (EncodeElems(p.stateRoot) + (EncodeHashes(p.nullifiers) + EncodeHashes(p.created)))
  }

  function Encoding<P>(c: ProofCodec<P>, p: Payload<P>): seq<byte>
    requires Writable(p)
  {
    Le(MAGIC, 2) + ([PLONKY2] + (c.encode(p.proof) + EncodeBody(p)))
  }

  // ------------------------------------------------------------------
  // The layout, byte by byte

  function At(bytes: seq<byte>, i: nat): int
    requires i < |bytes|
  {
    bytes[i]
  }

  /** The eight bytes from `at` on, least significant first, are the element. */
  predicate ElemAt(bytes: seq<byte>, at: nat, e: Elem) {
    && at + 8 <= |bytes|
    && At(bytes, at) + 0x100 * At(bytes, at + 1) + 0x1_0000 * At(bytes, at + 2) + 0x100_0000 * At(bytes, at + 3)
       + 0x1_0000_0000 * (At(bytes, at + 4) + 0x100 * At(bytes, at + 5) + 0x1_0000 * At(bytes, at + 6)
                          + 0x100_0000 * At(bytes, at + 7)) == e
  }

  predicate HashAt(bytes: seq<byte>, at: nat, h: Hash) {
    && ElemAt(bytes, at, h[0]) && ElemAt(bytes, at + 8, h[1])
    && ElemAt(bytes, at + 16, h[2]) && ElemAt(bytes, at + 24, h[3])
  }

  /** One byte for their number, then 32 for each. */
  predicate HashesAt(bytes: seq<byte>, at: nat, hs: seq<Hash>) {
    at < |bytes| && bytes[at] == |hs| && forall i :: 0 <= i < |hs| ==> HashAt(bytes, at + 1 + 32 * i, hs[i])
  }

  /** Transaction, state root, nullifiers and created objects, in this order. */
  predicate BodyAt<P>(bytes: seq<byte>, at: nat, p: Payload<P>) {
    && HashAt(bytes, at, p.txFinal) && HashAt(bytes, at + 32, p.stateRoot)
    && HashesAt(bytes, at + 64, p.nullifiers) && HashesAt(bytes, at + 65 + 32 * |p.nullifiers|, p.created)
  }

  /** The payload's bytes: 0b d1 00, the proof, and the rest. */
  ghost predicate HasLayout<P>(c: ProofCodec<P>, p: Payload<P>, bytes: seq<byte>) {
    var n := |c.encode(p.proof)|;
    && |bytes| == 69 + n + 32 * |p.nullifiers| + 32 * |p.created|
    && bytes[0] == 0x0b && bytes[1] == 0xd1 && bytes[2] == 0x00
    && bytes[3..3 + n] == c.encode(p.proof) && BodyAt(bytes, 3 + n, p)
  }

  /** What the reader makes of bytes: those after the payload do not matter. */
  ghost predicate ReadsAs<P>(c: ProofCodec<P>, bytes: seq<byte>, p: Payload<P>) {
    && |bytes| >= 3 && bytes[0] == 0x0b && bytes[1] == 0xd1 && bytes[2] == 0x00
    && c.decode(bytes[3..]).Ok? && c.decode(bytes[3..]).value.0 == p.proof
    && BodyAt(bytes, 3 + c.decode(bytes[3..]).value.1, p)
  }

  lemma LeIff(s: seq<byte>, n: nat, k: nat)
    requires |s| == k && n < Pow256(k)
    ensures s == Le(n, k) <==> FromLe(s) == n
  {
    LeRoundTrip(n, k);
    FromLeRoundTrip(s);
  }

  lemma FromLe8(s: seq<byte>)
    requires |s| == 8
    ensures FromLe(s) == At(s, 0) + 0x100 * At(s, 1) + 0x1_0000 * At(s, 2) + 0x100_0000 * At(s, 3)
      + 0x1_0000_0000 * (At(s, 4) + 0x100 * At(s, 5) + 0x1_0000 * At(s, 6) + 0x100_0000 * At(s, 7))
  {
    FromLe4(s[4..]);
    FromLeStep(s);
    FromLeStep(s[1..]);
    FromLeStep(s[2..]);
    FromLeStep(s[3..]);
    hide FromLe;
    assert s[1..][1..] == s[2..] && s[2..][1..] == s[3..] && s[3..][1..] == s[4..];
  }

  lemma FromLe4(s: seq<byte>)
    requires |s| == 4
    ensures FromLe(s) == At(s, 0) + 0x100 * At(s, 1) + 0x1_0000 * At(s, 2) + 0x100_0000 * At(s, 3)
  {
    FromLeStep(s);
    FromLeStep(s[1..]);
    FromLeStep(s[2..]);
    FromLeStep(s[3..]);
    assert s[1..][1..] == s[2..] && s[2..][1..] == s[3..] && s[3..][1..] == [];
  }

  lemma FromLeStep(s: seq<byte>)
    requires s != []
    ensures FromLe(s) == s[0] + 256 * FromLe(s[1..])
  {
  }

  lemma ElemLayout(bytes: seq<byte>, at: nat, e: Elem)
    requires at + 8 <= |bytes|
    ensures bytes[at..at + 8] == Le(e, 8) <==> ElemAt(bytes, at, e)
  {
    assert Pow256(8) == 0x1_0000_0000_0000_0000;
    var s := bytes[at..at + 8];
    LeIff(s, e, 8);
    FromLe8(s);
  }

  lemma {:induction false} ElemsLayout(bytes: seq<byte>, at: nat, es: seq<Elem>)
    requires at <= |bytes|
    ensures EncodeElems(es) <= bytes[at..] <==>
      at + 8 * |es| <= |bytes| && forall i :: 0 <= i < |es| ==> ElemAt(bytes, at + 8 * i, es[i])
    decreases |es|
  {
    hide Le, ElemAt;
    if es != [] {
      if at + 8 <= |bytes| {
        ElemLayout(bytes, at, es[0]);
        ElemsLayout(bytes, at + 8, es[1..]);
        assert bytes[at..] == bytes[at..at + 8] + bytes[at + 8..];
        PrefixOfBoth(Le(es[0], 8), EncodeElems(es[1..]), bytes[at..at + 8], bytes[at + 8..]);
        ShiftElems(bytes, at, es);
      }
    }
  }

  lemma ShiftElems(bytes: seq<byte>, at: nat, es: seq<Elem>)
    requires es != []
    ensures (forall i :: 0 <= i < |es| ==> ElemAt(bytes, at + 8 * i, es[i])) <==>
      ElemAt(bytes, at, es[0]) && forall i :: 0 <= i < |es[1..]| ==> ElemAt(bytes, at + 8 + 8 * i, es[1..][i])
  {
    hide ElemAt;
    var rest := es[1..];
    if ElemAt(bytes, at, es[0]) && forall i :: 0 <= i < |rest| ==> ElemAt(bytes, at + 8 + 8 * i, rest[i]) {
      forall i | 0 <= i < |es| ensures ElemAt(bytes, at + 8 * i, es[i]) {
        if i > 0 { assert ElemAt(bytes, at + 8 + 8 * (i - 1), rest[i - 1]); }
      }
    }
    if forall i :: 0 <= i < |es| ==> ElemAt(bytes, at + 8 * i, es[i]) {
      assert ElemAt(bytes, at + 8 * 0, es[0]);
      forall i | 0 <= i < |rest| ensures ElemAt(bytes, at + 8 + 8 * i, rest[i]) {
        assert ElemAt(bytes, at + 8 * (i + 1), es[i + 1]);
      }
    }
  }

  /** Two parts of fixed length are a prefix exactly if each is where it should. */
  lemma PrefixOfBoth(a: seq<byte>, b: seq<byte>, x: seq<byte>, y: seq<byte>)
    requires |a| == |x|
    ensures a + b <= x + y <==> a == x && b <= y
  {
    if a + b <= x + y {
      assert (a + b)[..|a|] == a && (x + y)[..|a|] == x;
      assert (a + b)[|a|..] == b && (x + y)[|a|..] == y;
      assert (x + y)[..|a + b|][|a|..] == (x + y)[|a|..][..|b|];
    }
  }

  lemma HashLayout(bytes: seq<byte>, at: nat, h: Hash)
    requires at <= |bytes|
    ensures EncodeElems(h) <= bytes[at..] <==> HashAt(bytes, at, h)
    ensures |EncodeElems(h)| == 32
  {
    hide ElemAt, EncodeElems, Le;
    ElemsLayout(bytes, at, h);
    ElemsBounded(bytes, at, h);
    forall i | 0 <= i < |h| && HashAt(bytes, at, h) ensures ElemAt(bytes, at + 8 * i, h[i]) {
      assert i == 0 || i == 1 || i == 2 || i == 3;
    }
    if forall i :: 0 <= i < |h| ==> ElemAt(bytes, at + 8 * i, h[i]) {
      assert ElemAt(bytes, at + 8 * 0, h[0]) && ElemAt(bytes, at + 8 * 1, h[1]);
      assert ElemAt(bytes, at + 8 * 2, h[2]) && ElemAt(bytes, at + 8 * 3, h[3]);
    }
  }

  lemma ElemsBounded(bytes: seq<byte>, at: nat, h: Hash)
    ensures HashAt(bytes, at, h) ==> at + 32 <= |bytes|
  {
  }

  lemma {:induction false} HashListLayout(bytes: seq<byte>, at: nat, hs: seq<Hash>)
    requires at <= |bytes|
    ensures |EncodeHashList(hs)| == 32 * |hs|
    ensures EncodeHashList(hs) <= bytes[at..] <==> forall i :: 0 <= i < |hs| ==> HashAt(bytes, at + 32 * i, hs[i])
    decreases |hs|
  {
    hide HashAt, EncodeElems;
    if hs != [] {
      HashLayout(bytes, at, hs[0]);
      if at + 32 <= |bytes| {
        HashListLayout(bytes, at + 32, hs[1..]);
        assert bytes[at..] == bytes[at..at + 32] + bytes[at + 32..];
        PrefixOfBoth(EncodeElems(hs[0]), EncodeHashList(hs[1..]), bytes[at..at + 32], bytes[at + 32..]);
        ShiftHashes(bytes, at, hs);
        assert EncodeElems(hs[0]) <= bytes[at..] <==> EncodeElems(hs[0]) == bytes[at..at + 32];
      } else {
        ElemsBounded(bytes, at, hs[0]);
        HashListLength(hs);
        assert !HashAt(bytes, at + 32 * 0, hs[0]);
      }
    }
  }

  lemma {:induction false} HashListLength(hs: seq<Hash>)
    ensures |EncodeHashList(hs)| == 32 * |hs|
  {
    if hs != [] { HashListLength(hs[1..]); }
  }

  lemma ShiftHashes(bytes: seq<byte>, at: nat, hs: seq<Hash>)
    requires hs != []
    ensures (forall i :: 0 <= i < |hs| ==> HashAt(bytes, at + 32 * i, hs[i])) <==>
      HashAt(bytes, at, hs[0]) && forall i :: 0 <= i < |hs[1..]| ==> HashAt(bytes, at + 32 + 32 * i, hs[1..][i])
  {
    hide HashAt;
    var rest := hs[1..];
    if HashAt(bytes, at, hs[0]) && forall i :: 0 <= i < |rest| ==> HashAt(bytes, at + 32 + 32 * i, rest[i]) {
      forall i | 0 <= i < |hs| ensures HashAt(bytes, at + 32 * i, hs[i]) {
        if i > 0 { assert HashAt(bytes, at + 32 + 32 * (i - 1), rest[i - 1]); }
      }
    }
    if forall i :: 0 <= i < |hs| ==> HashAt(bytes, at + 32 * i, hs[i]) {
      assert HashAt(bytes, at + 32 * 0, hs[0]);
      forall i | 0 <= i < |rest| ensures HashAt(bytes, at + 32 + 32 * i, rest[i]) {
        assert HashAt(bytes, at + 32 * (i + 1), hs[i + 1]);
      }
    }
  }

  lemma HashesLayout(bytes: seq<byte>, at: nat, hs: seq<Hash>)
    requires at <= |bytes| && |hs| <= 255
    ensures |EncodeHashes(hs)| == 1 + 32 * |hs|
    ensures EncodeHashes(hs) <= bytes[at..] <==> HashesAt(bytes, at, hs)
  {
    hide HashAt, EncodeHashList;
    HashListLength(hs);
    if at < |bytes| {
      HashListLayout(bytes, at + 1, hs);
      assert bytes[at..] == [bytes[at]] + bytes[at + 1..];
      PrefixOfBoth([|hs|], EncodeHashList(hs), [bytes[at]], bytes[at + 1..]);
    }
  }

  /** The encoding of what follows the proof begins at `at` exactly if each part
      is where the layout has it. */
  lemma BodyLayout<P>(bytes: seq<byte>, at: nat, p: Payload<P>)
    requires at <= |bytes| && Writable(p)
    ensures |EncodeBody(p)| == 66 + 32 * |p.nullifiers| + 32 * |p.created|
    ensures EncodeBody(p) <= bytes[at..] <==> BodyAt(bytes, at, p)
  {
    hide HashAt, HashesAt, EncodeElems, EncodeHashes;
    var n := 1 + 32 * |p.nullifiers|;
    HashLayout(bytes, at, p.txFinal);
    HashesLength(p.nullifiers);
    HashesLength(p.created);
    var rest := EncodeElems(p.stateRoot) + (EncodeHashes(p.nullifiers) + EncodeHashes(p.created));
    PrefixOfAppended(EncodeElems(p.txFinal), rest, bytes, at);
    if at + 32 <= |bytes| {
      HashLayout(bytes, at + 32, p.stateRoot);
      PrefixOfAppended(EncodeElems(p.stateRoot), EncodeHashes(p.nullifiers) + EncodeHashes(p.created), bytes, at + 32);
      if at + 64 <= |bytes| {
        HashesLayout(bytes, at + 64, p.nullifiers);
        PrefixOfAppended(EncodeHashes(p.nullifiers), EncodeHashes(p.created), bytes, at + 64);
        if at + 64 + n <= |bytes| { HashesLayout(bytes, at + 64 + n, p.created); }
      }
    }
    BodyBounded(bytes, at, p);
  }

  lemma BodyBounded<P>(bytes: seq<byte>, at: nat, p: Payload<P>)
    ensures BodyAt(bytes, at, p) ==> at + 65 + 32 * |p.nullifiers| < |bytes|
  {
  }

  lemma HashesLength(hs: seq<Hash>)
    requires |hs| <= 255
    ensures |EncodeHashes(hs)| == 1 + 32 * |hs|
  {
    HashListLength(hs);
  }

  /** One part after another from `at` on. */
  lemma PrefixOfAppended(a: seq<byte>, b: seq<byte>, bytes: seq<byte>, at: nat)
    requires at <= |bytes|
    ensures a + b <= bytes[at..] <==> a <= bytes[at..] && at + |a| <= |bytes| && b <= bytes[at + |a|..]
  {
    if at + |a| <= |bytes| {
      assert bytes[at..] == bytes[at..at + |a|] + bytes[at + |a|..];
      PrefixOfBoth(a, b, bytes[at..at + |a|], bytes[at + |a|..]);
      assert a <= bytes[at..] <==> a == bytes[at..at + |a|];
    }
  }

  lemma MagicBytes(bytes: seq<byte>)
    requires |bytes| >= 2
    ensures FromLe(bytes[..2]) == MAGIC <==> bytes[0] == 0x0b && bytes[1] == 0xd1
  {
    var s := bytes[..2];
    FromLeStep(s);
    FromLeStep(s[1..]);
    assert s[1..][1..] == [];
  }

  lemma EncodingLayout<P>(c: ProofCodec<P>, p: Payload<P>)
    requires Writable(p)
    ensures HasLayout(c, p, Encoding(c, p))
  {
    hide Le, FromLe, EncodeBody, BodyAt;
    var proof, body := c.encode(p.proof), EncodeBody(p);
    var bytes := Encoding(c, p);
    MagicEncoding();
    assert bytes[..2] == Le(MAGIC, 2);
    MagicBytes(bytes);
    assert bytes[2] == PLONKY2;
    assert bytes[3..] == proof + body;
    assert bytes[3..3 + |proof|] == proof && bytes[3 + |proof|..] == body;
    BodyLayout(bytes, 3 + |proof|, p);
  }

  lemma MagicEncoding()
    ensures FromLe(Le(MAGIC, 2)) == MAGIC
  {
    assert Pow256(2) == 0x1_0000;
    LeRoundTrip(MAGIC, 2);
  }

  /** A payload is read exactly from the positions the layout has its parts at. */
  lemma ReadsIff<P(!new)>(c: ProofCodec<P>, bytes: seq<byte>, p: Payload<P>)
    requires Lawful(c)
    ensures ParsePayload(c, bytes) == Ok(p) <==> ReadsAs(c, bytes, p)
  {
    hide ParseBody, BodyAt, FromLe;
    if |bytes| >= 2 { MagicBytes(bytes); }
    if |bytes| >= 3 && c.decode(bytes[3..]).Ok? {
      var (proof, n) := c.decode(bytes[3..]).value;
      assert bytes[3..][n..] == bytes[3 + n..];
      ReadsBodyIff(proof, bytes, 3 + n, p);
    }
  }

  lemma ReadsBodyIff<P>(proof: P, bytes: seq<byte>, at: nat, p: Payload<P>)
    requires at <= |bytes|
    ensures ParseBody(proof, bytes[at..]) == Ok(p) <==> p.proof == proof && BodyAt(bytes, at, p)
  {
    hide ParseBody, EncodeBody, BodyAt;
    ParsedBody(proof, bytes[at..]);
    if ParseBody(proof, bytes[at..]) == Ok(p) { BodyLayout(bytes, at, p); }
    if BodyAt(bytes, at, p) {
      CountsFit(bytes, at, p);
      BodyLayout(bytes, at, p);
      var tail := bytes[at..][|EncodeBody(p)|..];
      assert bytes[at..] == EncodeBody(p) + tail;
      BodyRoundTrip(p, tail);
    }
  }

  lemma CountsFit<P>(bytes: seq<byte>, at: nat, p: Payload<P>)
    requires BodyAt(bytes, at, p)
    ensures Writable(p)
  {
  }

  method ToBytes<P>(c: ProofCodec<P>, p: Payload<P>) returns (buffer: seq<byte>)
    requires Writable(p)
    ensures buffer == Encoding(c, p)
    ensures HasLayout(c, p, buffer)
  {
    hide Le, EncodeElems, EncodeHashes, HasLayout;
    EncodingLayout(c, p);
    buffer := Le(MAGIC, 2);
    buffer := buffer + [PLONKY2] + c.encode(p.proof);
    buffer := WriteElems(buffer, p.txFinal);
    buffer := WriteElems(buffer, p.stateRoot);
    buffer := WriteHashes(buffer, p.nullifiers);
    buffer := WriteHashes(buffer, p.created);
  }

  function ParseBody<P>(proof: P, bytes: seq<byte>): Result<Payload<P>, ParseError> {
    var t := ParseHash(bytes);
    if t.Err? then Err(t.error)
    else
      var s := ParseHash(t.value.rest);
      if s.Err? then Err(s.error)
      else
        var n := ParseHashes(s.value.rest);
        if n.Err? then Err(n.error)
        else
          var c := ParseHashes(n.value.rest);
          if c.Err? then Err(c.error)
          else Ok(Payload(proof, t.value.value, s.value.value, n.value.value, c.value.value))
  }

  /** Bytes after the payload are ignored. */
  method FromBytes<P(!new)>(c: ProofCodec<P>, bytes: seq<byte>) returns (r: Result<Payload<P>, ParseError>)
    requires Lawful(c)
    ensures r == ParsePayload(c, bytes)
    ensures forall p :: r == Ok(p) <==> ReadsAs(c, bytes, p)
    ensures |bytes| >= 2 && (bytes[0] != 0x0b || bytes[1] != 0xd1) ==> r == Err(BadMagic)
  {
    forall p ensures ParsePayload(c, bytes) == Ok(p) <==> ReadsAs(c, bytes, p) { ReadsIff(c, bytes, p); }
    hide ReadsAs, ParseBody, ParseElems, ParseHashes;
    if |bytes| < 2 { return Err(Truncated); }
    MagicBytes(bytes);
    if FromLe(bytes[..2]) != MAGIC { return Err(BadMagic); }
    var rest := bytes[2..];
    if rest == [] { return Err(IndexPanic); }
    if rest[0] != PLONKY2 { return Err(BadProofType); }
    var proof := c.decode(rest[1..]);
    if proof.Err? { return Err(proof.error); }
    rest := rest[proof.value.1 + 1..];
    var txFinal := ReadElems(rest, 4);
    if txFinal.Err? { return Err(txFinal.error); }
    ParsedElems(rest, 4);
    var stateRoot := ReadElems(txFinal.value.rest, 4);
    if stateRoot.Err? { return Err(stateRoot.error); }
    ParsedElems(txFinal.value.rest, 4);
    var nullifiers := ReadHashes(stateRoot.value.rest);
    if nullifiers.Err? { return Err(nullifiers.error); }
    var created := ReadHashes(nullifiers.value.rest);
    if created.Err? { return Err(created.error); }
    r := Ok(Payload(
      proof.value.0, txFinal.value.value, stateRoot.value.value, nullifiers.value.value, created.value.value));
  }

  function ParsePayload<P(!new)>(c: ProofCodec<P>, bytes: seq<byte>): (r: Result<Payload<P>, ParseError>)
    requires Lawful(c)
  {
    if |bytes| < 2 then Err(Truncated)
    else if FromLe(bytes[..2]) != MAGIC then Err(BadMagic)
    else if |bytes| == 2 then Err(IndexPanic)
    else if bytes[2] != PLONKY2 then Err(BadProofType)
    else ParseProofAndBody(c, bytes[3..])
  }

  function ParseProofAndBody<P(!new)>(c: ProofCodec<P>, bytes: seq<byte>): Result<Payload<P>, ParseError>
    requires Lawful(c)
  {
    var proof := c.decode(bytes);
    if proof.Err? then Err(proof.error) else ParseBody(proof.value.0, bytes[proof.value.1..])
  }

  lemma Header<P(!new)>(c: ProofCodec<P>, rest: seq<byte>)
    requires Lawful(c)
    ensures ParsePayload(c, Le(MAGIC, 2) + ([PLONKY2] + rest)) == ParseProofAndBody(c, rest)
  {
    hide ParseProofAndBody, Lawful;
    var bytes := Le(MAGIC, 2) + ([PLONKY2] + rest);
    assert bytes[..2] == Le(MAGIC, 2) && bytes[2] == PLONKY2 && bytes[3..] == rest;
    assert Pow256(2) == 0x1_0000;
    LeRoundTrip(MAGIC, 2);
  }

  lemma ParsedHeader<P(!new)>(c: ProofCodec<P>, bytes: seq<byte>)
    requires Lawful(c) && ParsePayload(c, bytes).Ok?
    ensures |bytes| > 2 && bytes == Le(MAGIC, 2) + ([PLONKY2] + bytes[3..])
    ensures ParsePayload(c, bytes) == ParseProofAndBody(c, bytes[3..])
  {
    hide ParseProofAndBody, Lawful;
    FromLeRoundTrip(bytes[..2]);
    assert bytes == bytes[..2] + ([bytes[2]] + bytes[3..]);
  }

  lemma BodyRoundTrip<P>(p: Payload<P>, tail: seq<byte>)
    requires Writable(p)
    ensures ParseBody(p.proof, EncodeBody(p) + tail) == Ok(p)
  {
    var c := EncodeHashes(p.created) + tail;
    var n := EncodeHashes(p.nullifiers) + c;
    var s := EncodeElems(p.stateRoot) + n;
    assert EncodeBody(p) + tail == EncodeElems(p.txFinal) + s;
    ElemsRoundTrip(p.txFinal, s);
    ElemsRoundTrip(p.stateRoot, n);
    HashesRoundTrip(p.nullifiers, c);
    HashesRoundTrip(p.created, tail);
  }

  lemma ParsedBody<P>(proof: P, bytes: seq<byte>)
    ensures var r := ParseBody(proof, bytes); r.Ok? ==>
      r.value.proof == proof && Writable(r.value) && EncodeBody(r.value) <= bytes
  {
    var r := ParseBody(proof, bytes);
    if r.Ok? {
      var t := ParseHash(bytes);
      ParsedElems(bytes, 4);
      var s := ParseHash(t.value.rest);
      ParsedElems(t.value.rest, 4);
      var n := ParseHashes(s.value.rest);
      ParsedHashes(s.value.rest);
      ParsedHashes(n.value.rest);
      var tail := ParseHashes(n.value.rest).value.rest;
      assert bytes == EncodeBody(r.value) + tail;
    }
  }

  /** Decoding undoes encoding, whatever bytes follow. */
  lemma PayloadRoundTrip<P(!new)>(c: ProofCodec<P>, p: Payload<P>, tail: seq<byte>)
    requires Lawful(c) && Writable(p)
    ensures ParsePayload(c, Encoding(c, p) + tail) == Ok(p)
  {
    hide Le, FromLe, EncodeBody, ParseBody, ParsePayload, Lawful;
    var proof := c.encode(p.proof);
    var body := EncodeBody(p) + tail;
    assert Encoding(c, p) + tail == Le(MAGIC, 2) + ([PLONKY2] + (proof + body));
    Header(c, proof + body);
    ProofReadBack(c, p.proof, body);
    assert (proof + body)[|proof|..] == body;
    BodyRoundTrip(p, tail);
  }

  lemma ProofReadBack<P(!new)>(c: ProofCodec<P>, p: P, tail: seq<byte>)
    requires Lawful(c)
    ensures c.decode(c.encode(p) + tail) == Ok((p, |c.encode(p)|))
  {
  }

  lemma ProofRead<P(!new)>(c: ProofCodec<P>, bytes: seq<byte>)
    requires OneForm(c) && c.decode(bytes).Ok?
    ensures c.decode(bytes).value.1 <= |bytes|
    ensures bytes == c.encode(c.decode(bytes).value.0) + bytes[c.decode(bytes).value.1..]
  {
  }

  /** The format is canonical: bytes are decoded to a payload exactly when they
      begin with its encoding. */
  lemma DecodesIff<P(!new)>(c: ProofCodec<P>, p: Payload<P>, bytes: seq<byte>)
    requires Lawful(c) && OneForm(c)
    ensures ParsePayload(c, bytes) == Ok(p) <==> Writable(p) && Encoding(c, p) <= bytes
  {
    hide Le, FromLe, EncodeBody, ParseBody, ParsePayload, Lawful, OneForm;
    if Writable(p) && Encoding(c, p) <= bytes {
      PayloadRoundTrip(c, p, bytes[|Encoding(c, p)|..]);
      assert bytes == Encoding(c, p) + bytes[|Encoding(c, p)|..];
    }
    if ParsePayload(c, bytes) == Ok(p) {
      ParsedHeader(c, bytes);
      var rest := bytes[3..];
      var proof := c.decode(rest);
      ProofRead(c, rest);
      var body := rest[proof.value.1..];
      ParsedBody(proof.value.0, body);
      var tail := body[|EncodeBody(p)|..];
      assert body == EncodeBody(p) + tail;
      assert bytes == Encoding(c, p) + tail;
    }
  }

  /** Exactly the bare magic makes the reader index past the end. */
  lemma PanicsIff<P(!new)>(c: ProofCodec<P>, bytes: seq<byte>)
    requires Lawful(c) && forall b :: c.decode(b) != Err(IndexPanic)
    ensures ParsePayload(c, bytes) == Err(IndexPanic) <==> bytes == Le(MAGIC, 2)
  {
    assert Pow256(2) == 0x1_0000;
    LeRoundTrip(MAGIC, 2);
    if |bytes| == 2 {
      FromLeRoundTrip(bytes);
      assert bytes[..2] == bytes;
    }
    if |bytes| > 2 && bytes[2] == PLONKY2 && c.decode(bytes[3..]).Ok? {
      BodyNeverPanics(c.decode(bytes[3..]).value.0, bytes[3..][c.decode(bytes[3..]).value.1..]);
    }
  }

  lemma ElemsNeverPanic(bytes: seq<byte>, n: nat)
    ensures ParseElems(bytes, n) != Err(IndexPanic)
  {
  }

  lemma HashesNeverPanic(bytes: seq<byte>, n: nat)
    ensures ParseHashList(bytes, n) != Err(IndexPanic)
    decreases n
  {
    if n > 0 {
      ElemsNeverPanic(bytes, 4);
      var h := ParseHash(bytes);
      if h.Ok? { HashesNeverPanic(h.value.rest, n - 1); }
    }
  }

  lemma BodyNeverPanics<P>(proof: P, bytes: seq<byte>)
    ensures ParseBody(proof, bytes) != Err(IndexPanic)
  {
    ElemsNeverPanic(bytes, 4);
    var t := ParseHash(bytes);
    if t.Ok? {
      ElemsNeverPanic(t.value.rest, 4);
      var s := ParseHash(t.value.rest);
      if s.Ok? && s.value.rest != [] {
        HashesNeverPanic(s.value.rest[1..], s.value.rest[0]);
        var n := ParseHashes(s.value.rest);
        if n.Ok? && n.value.rest != [] { HashesNeverPanic(n.value.rest[1..], n.value.rest[0]); }
      }
    }
  }

  /** Payload to bytes to blob and back: what was sent is what is read, and
      every element of the blob is a canonical field element. */
  method ThroughBlob<P(!new)>(c: ProofCodec<P>, p: Payload<P>)
    returns (blob: Result<seq<byte>, Blob.BlobError>, r: Result<Payload<P>, ParseError>)
    requires Lawful(c) && Writable(p)
    ensures blob.Ok? <==> |Encoding(c, p)| <= Blob.MAX_PAYLOAD_BYTES
    ensures blob.Ok? ==> r == Ok(p)
    ensures blob.Ok? ==> |blob.value| == Blob.SIMPLE_BLOB_BYTES && forall i :: 0 <= i < 4096 ==>
      ElementValue(blob.value, i) < Blob.BLS_MODULUS
  {
    hide HasLayout, ReadsAs, Encoding, Lawful, Blob.HoldsAt, Blob.DecodeSimpleBlob, FromBe;
    r := Err(Truncated);
    var bytes := ToBytes(c, p);
    blob := Blob.EncodeSimpleBlob(bytes);
    if blob.Err? { return; }
    Blob.BlobRoundTrip(bytes, blob.value);
    var decoded := Blob.DecodeSimpleBlob(blob.value);
    r := FromBytes(c, decoded.value);
    PayloadRoundTrip(c, p, []);
    assert Encoding(c, p) + [] == bytes;
    forall i | 0 <= i < 4096 ensures ElementValue(blob.value, i) < Blob.BLS_MODULUS {
      Blob.ElementsAreCanonical(bytes, blob.value, i);
    }
  }

  function ElementValue(blob: seq<byte>, i: nat): nat
    requires 32 * i + 32 <= |blob|
  {
    FromBe(blob[32 * i..32 * i + 32])
  }
}
