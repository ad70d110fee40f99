/** The length-prefixed layout of a sealed blob (common/src/enclave.rs, `Sealed`). */
module SealedCodec {
  import opened Wrappers

  datatype Sealed = Sealed(keyrequest: seq<Byte>, ciphertext: seq<Byte>)

  datatype SealedError = DeserializationError

  function U32Le(n: nat): (b: seq<Byte>)
    requires n < TWO_32
    ensures |b| == 4
  {
    [n % 256, n / 256 % 256, n / 256 / 256 % 256, n / 256 / 256 / 256]
  }

  function FromU32Le(b: seq<Byte>): (n: nat)
    requires |b| == 4
    ensures n < TWO_32
  {
    (b[0] as nat) + 256 * ((b[1] as nat) + 256 * ((b[2] as nat) + 256 * (b[3] as nat)))
  }

  lemma U32RoundTrip(n: nat)
    requires n < TWO_32
    ensures FromU32Le(U32Le(n)) == n
  {}

  lemma U32BytesRoundTrip(b: seq<Byte>)
    requires |b| == 4
    ensures U32Le(FromU32Le(b)) == b
  {
    var n := FromU32Le(b);
    assert n / 256 == (b[1] as nat) + 256 * ((b[2] as nat) + 256 * (b[3] as nat));
    assert n / 256 / 256 == (b[2] as nat) + 256 * (b[3] as nat);
  }

  /** A part with its length, which is cut down to 32 bits. */
  function Part(part: seq<Byte>): seq<Byte> {
    U32Le(|part| % TWO_32) + part
  }

  function Layout(s: Sealed): seq<Byte> {
    Part(s.keyrequest) + Part(s.ciphertext)
  }

  /** Lengths are little-endian, and the key request comes first. */
  lemma KnownLayout()
    ensures U32Le(0x04030201) == [1, 2, 3, 4]
    ensures Layout(Sealed([7], [8, 9])) == [1, 0, 0, 0, 7, 2, 0, 0, 0, 8, 9]
  {
    assert Part([7]) == [1, 0, 0, 0, 7] && Part([8, 9]) == [2, 0, 0, 0, 8, 9];
  }

  method Serialize(s: Sealed) returns (out: seq<Byte>)
    ensures out == Layout(s)
  {
    out := [];
    out := out + U32Le(|s.keyrequest| % TWO_32);
    out := out + s.keyrequest;
    out := out + U32Le(|s.ciphertext| % TWO_32);
    out := out + s.ciphertext;
  }

  function ReadU32Le(bytes: seq<Byte>): (r: Result<(nat, seq<Byte>), SealedError>) {
    if |bytes| >= 4 then Ok((FromU32Le(bytes[..4]), bytes[4..])) else Err(DeserializationError)
  }

  function ReadBytes(bytes: seq<Byte>): (r: Result<(seq<Byte>, seq<Byte>), SealedError>)
  {
    match ReadU32Le(bytes)
    case Err(e) => Err(e)
    case Ok((len, rest)) => if |rest| >= len then Ok((rest[..len], rest[len..])) else Err(DeserializationError)
  }

  function Deserialize(bytes: seq<Byte>): (r: Result<Sealed, SealedError>)
  {
    match ReadBytes(bytes)
    case Err(e) => Err(e)
    case Ok((keyrequest, bytes)) =>
      match ReadBytes(bytes)
      case Err(e) => Err(e)
      case Ok((ciphertext, bytes)) =>
        if bytes == [] then Ok(Sealed(keyrequest, ciphertext)) else Err(DeserializationError)
  }

  lemma ReadPart(part: seq<Byte>, rest: seq<Byte>)
    requires |part| < TWO_32
    ensures ReadBytes(Part(part) + rest) == Ok((part, rest))
  {
    hide U32Le, FromU32Le;
    U32RoundTrip(|part|);
    var bytes := Part(part) + rest;
    assert bytes[..4] == U32Le(|part|);
    assert bytes[4..] == part + rest;
    assert (part + rest)[..|part|] == part && (part + rest)[|part|..] == rest;
  }

  /** Whatever was read is the part that was in front. */
  lemma ReadIsPart(bytes: seq<Byte>)
    requires ReadBytes(bytes).Ok?
    ensures var (part, rest) := ReadBytes(bytes).value;
            |part| < TWO_32 && bytes == Part(part) + rest
  {
    hide U32Le, FromU32Le;
    U32BytesRoundTrip(bytes[..4]);
    var len := FromU32Le(bytes[..4]);
    var head, tail := bytes[..4], bytes[4..];
    assert bytes == head + tail;
    assert tail == tail[..len] + tail[len..];
    assert head + tail == (head + tail[..len]) + tail[len..];
  }

  /** Deserializing a serialized blob gives it back exactly when both parts are shorter than 2^32 bytes. */
  lemma RoundTripIff(s: Sealed)
    ensures Deserialize(Layout(s)) == Ok(s) <==> |s.keyrequest| < TWO_32 && |s.ciphertext| < TWO_32
  {
    if |s.keyrequest| < TWO_32 && |s.ciphertext| < TWO_32 {
      ReadPart(s.keyrequest, Part(s.ciphertext));
      assert Part(s.ciphertext) == Part(s.ciphertext) + [];
      ReadPart(s.ciphertext, []);
    }
  }

  /** Accepted input re-serializes to the same bytes, so the accepted inputs are exactly the layouts of short parts. */
  lemma AcceptedIff(bytes: seq<Byte>)
    ensures Deserialize(bytes).Ok? ==> Layout(Deserialize(bytes).value) == bytes
    ensures Deserialize(bytes).Ok? <==>
              exists s: Sealed :: |s.keyrequest| < TWO_32 && |s.ciphertext| < TWO_32 && bytes == Layout(s)
  {
    if Deserialize(bytes).Ok? {
      ReadIsPart(bytes);
      ReadIsPart(ReadBytes(bytes).value.1);
      var s := Deserialize(bytes).value;
      assert bytes == Part(s.keyrequest) + (Part(s.ciphertext) + []);
      assert Part(s.ciphertext) + [] == Part(s.ciphertext);
    }
    forall s: Sealed | |s.keyrequest| < TWO_32 && |s.ciphertext| < TWO_32 && bytes == Layout(s)
      ensures Deserialize(bytes).Ok?
    {
      RoundTripIff(s);
    }
  }
}
