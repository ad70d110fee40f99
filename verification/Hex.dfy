/** Hex encoding and decoding (common/src/hex.rs; the base16 alphabet of section 8 of RFC 4648). */
module Hex {
  import opened Wrappers

  datatype DecodeError = BadOutputLength | InvalidCharacter | OddInputLength

  /** The ASCII code of a digit, lower case. */
  function NibbleCode(d: nat): (c: Byte)
    requires d < 16
  {
    if d < 10 then 48 + d else 87 + d
  }

  function DecodeNibble(x: Byte): (r: Result<nat, DecodeError>)
    ensures r.Ok? ==> r.value < 16
  {
    if 48 <= x <= 57 then Ok(x - 48)
    else if 97 <= x <= 102 then Ok(x - 97 + 10)
    else if 65 <= x <= 70 then Ok(x - 65 + 10)
    else Err(InvalidCharacter)
  }

  function Lower(x: Byte): Byte { if 65 <= x <= 90 then x + 32 else x }

  function LowerAll(s: seq<Byte>): seq<Byte> { seq(|s|, i requires 0 <= i < |s| => Lower(s[i])) }

  lemma NibbleRoundTrip(d: nat, x: Byte)
    ensures d < 16 ==> DecodeNibble(NibbleCode(d)) == Ok(d)
    ensures DecodeNibble(x).Ok? ==> NibbleCode(DecodeNibble(x).value) == Lower(x)
  {}

  const ALPHABET := "0123456789abcdef"

  /** The base16 alphabet, and the upper-case letters read like the lower-case ones. */
  lemma Base16Table(d: nat)
    requires d < 16
    ensures NibbleCode(d) as char == ALPHABET[d]
    ensures DecodeNibble(NibbleCode(d)) == Ok(d)
    ensures d >= 10 ==> DecodeNibble(NibbleCode(d) - 32) == Ok(d) && (NibbleCode(d) - 32) as char == "ABCDEF"[d - 10]
  {}

  /** Two digits per byte, high nibble first. */
  function Encoded(bytes: seq<Byte>): (s: seq<Byte>)
    ensures |s| == 2 * |bytes|
  {
    if bytes == [] then []
    else Encoded(bytes[..|bytes| - 1]) +
         [NibbleCode(bytes[|bytes| - 1] / 16), NibbleCode(bytes[|bytes| - 1] % 16)]
  }

  predicate HexDigits(s: seq<Byte>) { forall i :: 0 <= i < |s| ==> DecodeNibble(s[i]).Ok? }

  /** The bytes that an even number of hex digits stands for. */
  function Decoded(s: seq<Byte>): (bytes: seq<Byte>)
    requires |s| % 2 == 0 && HexDigits(s)
    ensures |bytes| == |s| / 2
  {
    seq(|s| / 2, k requires 0 <= k < |s| / 2 => ByteAt(s, k))
  }

  function ByteAt(s: seq<Byte>, k: nat): Byte
    requires HexDigits(s) && 2 * k + 1 < |s|
  {
    16 * DecodeNibble(s[2 * k]).value + DecodeNibble(s[2 * k + 1]).value
  }

  lemma EncodedSnoc(bytes: seq<Byte>, b: Byte)
    ensures Encoded(bytes + [b]) == Encoded(bytes) + [NibbleCode(b / 16), NibbleCode(b % 16)]
  {}

  lemma DecodedSnoc(s: seq<Byte>, c: Byte, d: Byte)
    requires |s| % 2 == 0 && HexDigits(s) && DecodeNibble(c).Ok? && DecodeNibble(d).Ok?
    ensures HexDigits(s + [c, d])
    ensures Decoded(s + [c, d]) == Decoded(s) + [16 * DecodeNibble(c).value + DecodeNibble(d).value]
  {}

  /** Each byte's two digits, at twice its position: the high nibble, then the low one. */
  lemma {:induction false} EncodedAt(bytes: seq<Byte>, i: nat)
    requires i < |bytes|
    ensures Encoded(bytes)[2 * i] == NibbleCode(bytes[i] / 16)
    ensures Encoded(bytes)[2 * i + 1] == NibbleCode(bytes[i] % 16)
  {
    if i < |bytes| - 1 { EncodedAt(bytes[..|bytes| - 1], i); }
  }

  /** Decoding what was encoded gives the bytes back. */
  lemma {:induction false} DecodeEncode(bytes: seq<Byte>)
    ensures HexDigits(Encoded(bytes)) && Decoded(Encoded(bytes)) == bytes
  {
    hide HexDigits, Decoded, NibbleCode, DecodeNibble;
    if bytes == [] {
      DecodedNone();
    } else {
      var init, last := bytes[..|bytes| - 1], bytes[|bytes| - 1];
      assert bytes == init + [last];
      DecodeEncode(init);
      NibbleRoundTrip(last / 16, 0);
      NibbleRoundTrip(last % 16, 0);
      DecodedSnoc(Encoded(init), NibbleCode(last / 16), NibbleCode(last % 16));
    }
  }

  lemma DecodedNone()
    ensures HexDigits([]) && Decoded([]) == []
  {}

  /** Encoding what was decoded gives the string back in lower case. */
  lemma {:induction false} EncodeDecode(s: seq<Byte>)
    requires |s| % 2 == 0 && HexDigits(s)
    ensures Encoded(Decoded(s)) == LowerAll(s)
  {
    hide Decoded, NibbleCode, DecodeNibble, Encoded, LowerAll;
    if s == [] {
      NothingToDo();
    } else {
      var n := |s|;
      var init, c, d := s[..n - 2], s[n - 2], s[n - 1];
      assert s == init + [c, d];
      assert DecodeNibble(s[n - 2]).Ok? && DecodeNibble(s[n - 1]).Ok?;
      EncodeDecode(init);
      DecodedSnoc(init, c, d);
      EncodedSnoc(Decoded(init), 16 * DecodeNibble(c).value + DecodeNibble(d).value);
      NibbleRoundTrip(0, c);
      NibbleRoundTrip(0, d);
      LowerSnoc(init, c, d);
    }
  }

  lemma NothingToDo()
    ensures HexDigits([]) && Encoded(Decoded([])) == LowerAll([])
  {}

  lemma LowerSnoc(s: seq<Byte>, c: Byte, d: Byte)
    ensures LowerAll(s + [c, d]) == LowerAll(s) + [Lower(c), Lower(d)]
  {}

  method Encode(bytes: seq<Byte>) returns (s: seq<Byte>)
    ensures s == Encoded(bytes)
  {
    s := [];
    for i := 0 to |bytes|
      invariant s == Encoded(bytes[..i])
    {
      assert bytes[..i + 1] == bytes[..i] + [bytes[i]];
      EncodedSnoc(bytes[..i], bytes[i]);
      s := s + [NibbleCode(bytes[i] / 16), NibbleCode(bytes[i] % 16)];
    }
    assert bytes[..|bytes|] == bytes;
  }

  /** Fills the buffer chunk by chunk; stops at the first character that is not a hex digit. */
  method DecodeToSliceInner(hex: seq<Byte>, out: array<Byte>) returns (r: Result<(), DecodeError>)
    requires |hex| % 2 == 0
    modifies out
    ensures |hex| / 2 != out.Length ==> r == Err(BadOutputLength) && out[..] == old(out[..])
    ensures |hex| / 2 == out.Length ==> (r.Ok? <==> HexDigits(hex))
    ensures r.Ok? ==> HexDigits(hex) && out[..] == Decoded(hex)
    ensures r.Err? && |hex| / 2 == out.Length ==> r == Err(InvalidCharacter)
  {
    hide DecodeNibble, Decoded;
    if |hex| / 2 != out.Length { return Err(BadOutputLength); }
    DecodedNone();
    var i := 0;
    while i < out.Length
      invariant 0 <= i <= out.Length
      invariant HexDigits(hex[..2 * i]) && out[..i] == Decoded(hex[..2 * i])
    {
      var hi, lo := DecodeNibble(hex[2 * i]), DecodeNibble(hex[2 * i + 1]);
      if hi.Err? || lo.Err? { return Err(InvalidCharacter); }
      assert hex[..2 * i + 2] == hex[..2 * i] + [hex[2 * i], hex[2 * i + 1]];
      DecodedSnoc(hex[..2 * i], hex[2 * i], hex[2 * i + 1]);
      out[i] := 16 * hi.value + lo.value;
      assert out[..i + 1] == out[..i] + [out[i]];
      i := i + 1;
    }
    assert hex[..2 * i] == hex && out[..i] == out[..];
    r := Ok(());
  }

  /** Succeeds exactly on strings of hex digits of even length. */
  method Decode(hex: seq<Byte>) returns (r: Result<seq<Byte>, DecodeError>)
    ensures r.Ok? <==> |hex| % 2 == 0 && HexDigits(hex)
    ensures r.Ok? ==> r.value == Decoded(hex)
    ensures r == Err(OddInputLength) <==> |hex| % 2 == 1
  {
    if |hex| % 2 == 1 { return Err(OddInputLength); }
    var out := new Byte[|hex| / 2](_ => 0);
    var inner := DecodeToSliceInner(hex, out);
    if inner.Err? { return Err(inner.error); }
    r := Ok(out[..]);
  }

  /** `decode_const`: anything but exactly `2 * n` hex digits panics, here `None`. */
  method DecodeConst(hex: seq<Byte>, n: nat) returns (r: Option<seq<Byte>>)
    ensures r.Some? <==> |hex| == 2 * n && HexDigits(hex)
    ensures r.Some? ==> r.value == Decoded(hex)
  {
    hide DecodeNibble, Decoded;
    if |hex| != 2 * n { return None; }
    var bytes: seq<Byte>, idx := [], 0;
    DecodedNone();
    while idx < n
      invariant 0 <= idx <= n
      invariant HexDigits(hex[..2 * idx]) && bytes == Decoded(hex[..2 * idx])
    {
      var hi, lo := DecodeNibble(hex[2 * idx]), DecodeNibble(hex[2 * idx + 1]);
      if hi.Err? || lo.Err? { return None; }
      assert hex[..2 * idx + 2] == hex[..2 * idx] + [hex[2 * idx], hex[2 * idx + 1]];
      DecodedSnoc(hex[..2 * idx], hex[2 * idx], hex[2 * idx + 1]);
      bytes := bytes + [16 * hi.value + lo.value];
      idx := idx + 1;
    }
    assert hex[..2 * idx] == hex;
    r := Some(bytes);
  }
}
