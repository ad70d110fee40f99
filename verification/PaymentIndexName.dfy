/**
 * The string form of a payment index, which is also its file name in the
 * payments directory: `<19 decimal digits>-<kind>_<64 hex digits>`
 * (common/src/ln/payments.rs, common/src/time.rs).
 */
module PaymentIndexName {
  import opened Wrappers
  import opened Payments
  import Strings

  const I64_MAX: nat := 0x7FFF_FFFF_FFFF_FFFF

  // --- Padded positional numerals --- //

  function DigitChar(d: nat): (c: char)
    requires d < 16
  {
    if d < 10 then '0' + d as char else 'a' + (d - 10) as char
  }

  /** The value of a hex digit of either case. */
  function DigitValue(c: char): (r: Option<nat>)
    ensures r.Some? ==> r.value < 16
  {
    if '0' <= c <= '9' then Some((c - '0') as nat)
    else if 'a' <= c <= 'f' then Some((c - 'a') as nat + 10)
    else if 'A' <= c <= 'F' then Some((c - 'A') as nat + 10)
    else None
  }

  predicate Upper(c: char) { 'A' <= c <= 'F' }

  lemma DigitRoundTrip(d: nat)
    requires d < 16
    ensures DigitValue(DigitChar(d)) == Some(d)
    ensures DigitChar(d) !in "-_+" && !Upper(DigitChar(d))
  {}

  lemma DigitOrder(d: nat, e: nat)
    requires d < 16 && e < 16
    ensures DigitChar(d) < DigitChar(e) <==> d < e
  {}

  /** The two radixes in use, with the operations spelled out per radix. */
  datatype Radix = Decimal | Hex {
    function Size(): nat { if Decimal? then 10 else 16 }

    function Times(n: nat): nat { if Decimal? then 10 * n else 16 * n }

    function High(n: nat): nat { if Decimal? then n / 10 else n / 16 }

    function Low(n: nat): (d: nat)
      ensures d < 16
    {
      if Decimal? then n % 10 else n % 16
    }

    function Pow(width: nat): nat {
      if width == 0 then 1 else Times(Pow(width - 1))
    }
  }

  /** `n` in the given radix, zero-padded to exactly `width` digits. */
  function Pad(n: nat, radix: Radix, width: nat): (s: string)
    ensures |s| == width
  {
    if width == 0 then "" else Pad(radix.High(n), radix, width - 1) + [DigitChar(radix.Low(n))]
  }

  /** Reads digits of the given radix; any other character is an error. */
  function ParseDigits(s: string, radix: Radix): (r: Option<nat>)
  {
    if s == "" then Some(0)
    else
      match (ParseDigits(s[..|s| - 1], radix), DigitValue(s[|s| - 1]))
      case (Some(hi), Some(d)) => if d < radix.Size() then Some(radix.Times(hi) + d) else None
      case _ => None
  }

  lemma ParseSnoc(s: string, d: nat, radix: Radix)
    requires d < radix.Size()
    ensures ParseDigits(s, radix).Some? ==>
              ParseDigits(s + [DigitChar(d)], radix) == Some(radix.Times(ParseDigits(s, radix).value) + d)
  {
    hide DigitChar, DigitValue, Radix.Times;
    DigitRoundTrip(d);
    assert (s + [DigitChar(d)])[..|s|] == s;
  }

  lemma {:induction false} PadRoundTrip(n: nat, radix: Radix, width: nat)
    requires n < radix.Pow(width)
    ensures ParseDigits(Pad(n, radix, width), radix) == Some(n)
  {
    if width > 0 {
      PadRoundTrip(radix.High(n), radix, width - 1);
      ParseSnoc(Pad(radix.High(n), radix, width - 1), radix.Low(n), radix);
    }
  }

  lemma {:induction false} PadHasNo(n: nat, radix: Radix, width: nat, c: char)
    requires c in "-_+" || Upper(c)
    ensures c !in Pad(n, radix, width)
  {
    if width > 0 {
      PadHasNo(radix.High(n), radix, width - 1, c);
      DigitRoundTrip(radix.Low(n));
    }
  }

  lemma DigitValueRoundTrip(c: char)
    requires DigitValue(c).Some? && !Upper(c)
    ensures DigitChar(DigitValue(c).value) == c
  {}

  lemma RadixJoin(hi: nat, d: nat, radix: Radix)
    requires d < radix.Size()
    ensures radix.High(radix.Times(hi) + d) == hi && radix.Low(radix.Times(hi) + d) == d
  {}

  /** Digits without upper case are the padded form of what they parse to. */
  lemma {:induction false} PadOfParse(s: string, radix: Radix)
    requires ParseDigits(s, radix).Some? && forall c :: c in s ==> !Upper(c)
    ensures Pad(ParseDigits(s, radix).value, radix, |s|) == s
  {
    hide DigitValue, DigitChar, Upper, Radix.High, Radix.Low, Radix.Times;
    if s != "" {
      var init, c := s[..|s| - 1], s[|s| - 1];
      assert s == init + [c];
      PadOfParse(init, radix);
      DigitValueRoundTrip(c);
      RadixJoin(ParseDigits(init, radix).value, DigitValue(c).value, radix);
    }
  }

  lemma OneCharLess(c: char, d: char)
    ensures Strings.Less([c], [d]) <==> c < d
  {}

  /** Padded numerals of one width compare as strings exactly as their numbers do. */
  lemma {:induction false} PadOrder(m: nat, n: nat, radix: Radix, width: nat)
    requires m < radix.Pow(width) && n < radix.Pow(width)
    ensures Strings.Less(Pad(m, radix, width), Pad(n, radix, width)) <==> m < n
    ensures Pad(m, radix, width) == Pad(n, radix, width) <==> m == n
  {
    if m != n {
      PadRoundTrip(m, radix, width);
      PadRoundTrip(n, radix, width);
    }
    if width > 0 {
      var m', n', c, d := radix.High(m), radix.High(n), radix.Low(m), radix.Low(n);
      PadOrder(m', n', radix, width - 1);
      DigitOrder(c, d);
      OneCharLess(DigitChar(c), DigitChar(d));
      Strings.LessConcat(Pad(m', radix, width - 1), Pad(n', radix, width - 1), [DigitChar(c)], [DigitChar(d)]);
    }
  }

  // --- Ids and indexes --- //

  function Prefix(id: LxPaymentId): (s: string)
    ensures |s| == 2
  {
    match id
    case OnchainSend(_) => "os"
    case OnchainRecv(_) => "or"
    case Lightning(_) => "ln"
  }

  function FormatId(id: LxPaymentId): (s: string)
  {
    Prefix(id) + ['_'] + Pad(id.Raw(), Hex, 64)
  }

  function ParseId(s: string): (r: Option<LxPaymentId>)
  {
    var parts := Strings.Split(s, '_');
    if |parts| != 2 || |parts[1]| != 64 then None
    else
      match ParseDigits(parts[1], Hex)
      case None => None
      case Some(n) =>
        if n > 0xFFFF_FFFF_FFFF_FFFF_FFFF_FFFF_FFFF_FFFF_FFFF_FFFF_FFFF_FFFF_FFFF_FFFF_FFFF_FFFF then None
        else if parts[0] == "os" then Some(OnchainSend(n))
        else if parts[0] == "or" then Some(OnchainRecv(n))
        else if parts[0] == "ln" then Some(Lightning(n))
        else None
  }

  /** `i64::from_str` then the sign check: an optional plus, then at least one decimal digit. */
  function ParseTimestamp(s: string): (r: Option<TimestampMs>)
  {
    var digits := if s != "" && s[0] == '+' then s[1..] else s;
    if digits == "" then None
    else
      match ParseDigits(digits, Decimal)
      case Some(n) => if n <= I64_MAX then Some(n) else None
      case None => None
  }

  function Format(index: PaymentIndex): (s: string)
  {
    Pad(index.createdAt, Decimal, 19) + ['-'] + FormatId(index.id)
  }

  function Parse(s: string): (r: Option<PaymentIndex>)
  {
    var parts := Strings.Split(s, '-');
    if |parts| != 2 then None
    else
      match (ParseTimestamp(parts[0]), ParseId(parts[1]))
      case (Some(t), Some(id)) => Some(PaymentIndex(t, id))
      case _ => None
  }

  /** The fields of a name, at fixed places. */
  lemma NameFields(index: PaymentIndex)
    ensures |Format(index)| == 87
    ensures Format(index)[19] == '-' && Format(index)[22] == '_'
    ensures Format(index)[..19] == Pad(index.createdAt, Decimal, 19)
    ensures Format(index)[23..] == Pad(index.id.Raw(), Hex, 64)
    ensures Format(index)[20..22] ==
            match index.id case Lightning(_) => "ln" case OnchainRecv(_) => "or" case OnchainSend(_) => "os"
  {
    var stamp, raw, f := Pad(index.createdAt, Decimal, 19), Pad(index.id.Raw(), Hex, 64), Format(index);
    assert f == stamp + ['-'] + Prefix(index.id) + ['_'] + raw;
  }

  lemma Pow10Bound()
    ensures Decimal.Pow(19) == 10_000_000_000_000_000_000
  {
    assert Decimal.Pow(4) == 10_000;
    assert Decimal.Pow(8) == 100_000_000;
    assert Decimal.Pow(12) == 1_000_000_000_000;
    assert Decimal.Pow(16) == 10_000_000_000_000_000;
  }

  lemma {:induction false} Pow16Add(a: nat, b: nat)
    ensures Hex.Pow(a + b) == Hex.Pow(a) * Hex.Pow(b)
  {
    if a > 0 {
      Pow16Add(a - 1, b);
    }
  }

  lemma Pow16Four()
    ensures Hex.Pow(4) == 0x1_0000
  {}

  lemma Pow16Bound()
    ensures Hex.Pow(64) == 0x1_0000_0000_0000_0000_0000_0000_0000_0000_0000_0000_0000_0000_0000_0000_0000_0000
  {
    hide *;
    Pow16Four();
    Pow16Add(4, 4);
    Pow16Add(8, 8);
    Pow16Add(16, 16);
    Pow16Add(32, 32);
  }

  /** The 64-digit hex field. */
  lemma IdField(m: Id256, n: Id256)
    ensures ParseDigits(Pad(m, Hex, 64), Hex) == Some(m)
    ensures Strings.Less(Pad(m, Hex, 64), Pad(n, Hex, 64)) <==> m < n
    ensures '_' !in Pad(m, Hex, 64) && '-' !in Pad(m, Hex, 64)
  {
    Pow16Bound();
    PadRoundTrip(m, Hex, 64);
    PadOrder(m, n, Hex, 64);
    PadHasNo(m, Hex, 64, '_');
    PadHasNo(m, Hex, 64, '-');
  }

  /** The 19-digit decimal field. */
  lemma TimestampField(m: TimestampMs, n: TimestampMs)
    ensures ParseDigits(Pad(m, Decimal, 19), Decimal) == Some(m)
    ensures Strings.Less(Pad(m, Decimal, 19), Pad(n, Decimal, 19)) <==> m < n
    ensures Pad(m, Decimal, 19) == Pad(n, Decimal, 19) <==> m == n
    ensures '+' !in Pad(m, Decimal, 19) && '-' !in Pad(m, Decimal, 19)
  {
    Pow10Bound();
    PadRoundTrip(m, Decimal, 19);
    PadOrder(m, n, Decimal, 19);
    PadHasNo(m, Decimal, 19, '+');
    PadHasNo(m, Decimal, 19, '-');
  }

  lemma IdRoundTrip(id: LxPaymentId)
    ensures ParseId(FormatId(id)) == Some(id)
    ensures '-' !in FormatId(id)
  {
    IdField(id.Raw(), id.Raw());
    Strings.SplitFirst(Prefix(id), '_', Pad(id.Raw(), Hex, 64));
    Strings.SplitNone(Pad(id.Raw(), Hex, 64), '_');
  }

  /** Reading back a name written for an index gives that index. */
  lemma ParseFormat(index: PaymentIndex)
    ensures Parse(Format(index)) == Some(index)
  {
    ParsePrefixed(index, "");
    assert "" + Format(index) == Format(index);
  }

  /** The name with a leading plus sign parses to the same index: the parser is not one-to-one. */
  lemma PlusSignIsAccepted(index: PaymentIndex)
    ensures Parse("+" + Format(index)) == Some(index)
    ensures "+" + Format(index) != Format(index)
  {
    ParsePrefixed(index, "+");
    assert |"+" + Format(index)| == |Format(index)| + 1;
  }

  /** The prefix of the documented examples is not one that the parser knows. */
  lemma DocumentedPrefixIsRefused(stamp: string, hex: string)
    requires '-' !in stamp
    ensures Parse(stamp + ['-'] + ("bc" + ['_'] + hex)).None?
  {
    var id := "bc" + ['_'] + hex;
    Strings.SplitFirst(stamp, '-', id);
    if |Strings.Split(id, '-')| == 1 { Strings.SplitOneIsAll(id, '-'); }
    Strings.SplitFirst("bc", '_', hex);
  }

  /** The names that `Format` writes: full width, no sign, lower case. */
  predicate Canonical(s: string) {
    |s| == 87 && s[0] != '+' && forall c :: c in s ==> !Upper(c)
  }

  lemma FormatIsCanonical(index: PaymentIndex)
    ensures Canonical(Format(index))
  {
    var stamp := Pad(index.createdAt, Decimal, 19);
    PadHasNo(index.createdAt, Decimal, 19, '+');
    assert stamp[0] in stamp;
    forall c | c in Format(index) ensures !Upper(c) {
      if Upper(c) {
        PadHasNo(index.createdAt, Decimal, 19, c);
        PadHasNo(index.id.Raw(), Hex, 64, c);
      }
    }
  }

  lemma CanonicalId(s: string)
    requires ParseId(s).Some? && forall c :: c in s ==> !Upper(c)
    ensures FormatId(ParseId(s).value) == s && |s| == 67
  {
    hide Pad, ParseDigits;
    Strings.SplitTwoJoins(s, '_');
    PadOfParse(Strings.Split(s, '_')[1], Hex);
  }

  /** A name that parses is the one that its index is written under exactly when it is canonical. */
  lemma CanonicalIff(s: string)
    requires Parse(s).Some?
    ensures Format(Parse(s).value) == s <==> Canonical(s)
  {
    hide Pad, ParseDigits, ParseId;
    FormatIsCanonical(Parse(s).value);
    if Canonical(s) {
      var stamp, id := Strings.Split(s, '-')[0], Strings.Split(s, '-')[1];
      Strings.SplitTwoJoins(s, '-');
      CanonicalId(id);
      assert s[0] == stamp[0];
      PadOfParse(stamp, Decimal);
    }
  }

  lemma TimestampRoundTrip(t: TimestampMs, sign: string)
    requires sign == "" || sign == "+"
    ensures ParseTimestamp(sign + Pad(t, Decimal, 19)) == Some(t)
    ensures '-' !in sign + Pad(t, Decimal, 19)
  {
    var digits := Pad(t, Decimal, 19);
    TimestampField(t, t);
    assert digits[0] in digits;
    if sign == "+" {
      assert (sign + digits)[1..] == digits;
    } else {
      assert sign + digits == digits;
    }
  }

  lemma ParsePrefixed(index: PaymentIndex, sign: string)
    requires sign == "" || sign == "+"
    ensures Parse(sign + Format(index)) == Some(index)
  {
    var stamp, id := sign + Pad(index.createdAt, Decimal, 19), FormatId(index.id);
    TimestampRoundTrip(index.createdAt, sign);
    IdRoundTrip(index.id);
    assert sign + Format(index) == stamp + ['-'] + id;
    Strings.SplitFirst(stamp, '-', id);
    Strings.SplitNone(id, '-');
  }

  lemma FormatInjective(a: PaymentIndex, b: PaymentIndex)
    requires Format(a) == Format(b)
    ensures a == b
  {
    ParseFormat(a);
    ParseFormat(b);
  }

  lemma PrefixOrder(a: LxPaymentId, b: LxPaymentId)
    ensures Strings.Less(Prefix(a), Prefix(b)) <==> a.KindRank() < b.KindRank()
    ensures Prefix(a) == Prefix(b) <==> a.KindRank() == b.KindRank()
  {
    assert Prefix(a)[1..] == [Prefix(a)[1]];
    assert Prefix(b)[1..] == [Prefix(b)[1]];
    OneCharLess(Prefix(a)[1], Prefix(b)[1]);
  }

  /** Two fields joined by a separator, the first of fixed width: field order decides. */
  lemma LessFields(a: string, b: string, sep: char, c: string, d: string)
    requires |a| == |b|
    ensures Strings.Less(a + [sep] + c, b + [sep] + d) <==> Strings.Less(a, b) || (a == b && Strings.Less(c, d))
  {
    assert a + [sep] + c == a + ([sep] + c);
    assert b + [sep] + d == b + ([sep] + d);
    Strings.LessConcat(a, b, [sep] + c, [sep] + d);
    Strings.LessConcat([sep], [sep], c, d);
    Strings.Irreflexive([sep]);
  }

  lemma IdNameOrder(a: LxPaymentId, b: LxPaymentId)
    ensures Strings.Less(FormatId(a), FormatId(b)) <==> a.Less(b)
    ensures FormatId(a) == FormatId(b) <==> a == b
  {
    IdRoundTrip(a);
    IdRoundTrip(b);
    PrefixOrder(a, b);
    IdField(a.Raw(), b.Raw());
    LessFields(Prefix(a), Prefix(b), '_', Pad(a.Raw(), Hex, 64), Pad(b.Raw(), Hex, 64));
  }

  /** The documented promise: names sort as strings exactly as the indexes sort. */
  lemma NameOrder(a: PaymentIndex, b: PaymentIndex)
    ensures Strings.Less(Format(a), Format(b)) <==> a.Less(b)
  {
    TimestampField(a.createdAt, b.createdAt);
    IdNameOrder(a.id, b.id);
    LessFields(Pad(a.createdAt, Decimal, 19), Pad(b.createdAt, Decimal, 19), '-', FormatId(a.id), FormatId(b.id));
  }
}
