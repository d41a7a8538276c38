/**
  Class A position reports in `!AIVDM` sentences (ITU-R M.1371, Annex 8, section 3.1):
  the decoder, the encoder its tests are written against, and the round trip.
*/
module Aivdm {
  import opened Reals
  import opened Text
  import opened Wrappers

  // ---------------------------------------------------------- JavaScript strings

  predicate IsBit(c: char) { c == '0' || c == '1' }
  predicate Binary(s: string) { forall i :: 0 <= i < |s| ==> IsBit(s[i]) }

  function Bit(c: char): nat { if c == '1' then 1 else 0 }

  function Value(s: string): nat {
    if s == "" then 0 else 2 * Value(s[..|s| - 1]) + Bit(s[|s| - 1])
  }

  /** How many binary digits `s` starts with. */
  function Leading(s: string): (n: nat)
    ensures n <= |s| && Binary(s[..n]) && (n < |s| ==> !IsBit(s[n]))
  {
    if s == "" || !IsBit(s[0]) then 0
    else
      assert forall n :: 0 <= n < |s| ==> s[1..][..n] == s[..n + 1][1..];
      1 + Leading(s[1..])
  }

  /** The digits `parseInt` reads; `None` is `NaN`. */
  function ParseDigits(s: string): Option<nat> {
    if Leading(s) == 0 then None else Some(Value(s[..Leading(s)]))
  }

  /** `parseInt(s, 2)`, for strings of digits and minus signs. */
  function ParseBinary(s: string): Option<int> {
    if s != "" && s[0] == '-' then
      var r := ParseDigits(s[1..]);
      if r.Some? then Some(0 - r.value as int) else None
    else
      var r := ParseDigits(s);
      if r.Some? then Some(r.value) else None
  }

  function Pow2(n: nat): (p: nat)
    ensures p > 0
  {
    if n == 0 then 1 else 2 * Pow2(n - 1)
  }

  /** `s.indexOf(c)`, or the length where that is -1. */
  function IndexOf(s: string, c: char): (i: nat)
    ensures i <= |s| && c !in s[..i] && (i < |s| ==> s[i] == c)
  {
    if s == "" || s[0] == c then 0
    else
      assert forall n :: 0 <= n < |s| ==> s[..n + 1] == [s[0]] + s[1..][..n];
      1 + IndexOf(s[1..], c)
  }

  /** `s.split(c)`. */
  function Split(s: string, c: char): (r: seq<string>)
    ensures r != []
  {
    var i := IndexOf(s, c);
    if i == |s| then [s] else [s[..i]] + Split(s[i + 1..], c)
  }

  // ------------------------------------------------------------------ the armor

  /** The UTF-16 code unit `charCodeAt(0)` gives for one character. */
  function CharCode(c: char): nat {
    var n := c as int;
    if n < 0x1_0000 then n else 0xd800 + (n - 0x1_0000) / 1024
  }

  function SixBitValue(code: nat): int {
    var value := code - 48;
    if value > 40 then value - 8 else value
  }

  function SixBits(payload: string): string {
    if payload == "" then ""
    else SixBits(payload[..|payload| - 1]) + PadStart(ToString(SixBitValue(CharCode(payload[|payload| - 1])), 2), 6)
  }

  method SixBitAsciiToBits(payload: string) returns (bits: string)
    ensures bits == SixBits(payload)
  {
    bits := "";
    for i := 0 to |payload|
      invariant bits == SixBits(payload[..i])
    {
      assert payload[..i + 1][..i] == payload[..i];
      var value := CharCode(payload[i]) - 48;
      if value > 40 { value := value - 8; }
      bits := bits + PadStart(ToString(value, 2), 6);
    }
    assert payload[..|payload|] == payload;
  }

  function ArmorCode(value: nat): nat { if value < 40 then value + 48 else value + 56 }

  /** Two codes stand for one value exactly when they are eight apart and the greater lies between 89 and 96. */
  lemma ArmorCollisions(a: nat, b: nat)
    requires a < b
    ensures SixBitValue(a) == SixBitValue(b) <==> 89 <= b <= 96 && a == b - 8
  {}

  /** All 64 values survive the armor, and none is written with an unused character (codes 88 to 95). */
  lemma ArmorInverts(value: nat)
    requires value < 64
    ensures SixBitValue(ArmorCode(value)) == value
    ensures 48 <= ArmorCode(value) <= 87 || 96 <= ArmorCode(value) <= 119
  {}

  // ---------------------------------------------------------------- the decoder

  datatype Report = Report(mmsi: string, messageType: int, navStatus: int, lat: real, lon: real,
                           speedKnots: Option<real>, courseDeg: Option<real>, headingDeg: Option<int>)

  const SENTINEL_LON_DEG: real := 181.0
  const SENTINEL_LAT_DEG: real := 91.0
  const SENTINEL_SOG_RAW: int := 1023
  const SENTINEL_COG_RAW: int := 3600
  const SENTINEL_HEADING_RAW: int := 511

  /** Every minus sign is followed by a digit: what a decoded payload looks like, whatever its characters. */
  ghost predicate Signed(bits: string) {
    forall i :: 0 <= i < |bits| ==> SignedAt(bits, i)
  }

  ghost predicate SignedAt(bits: string, i: nat)
    requires i < |bits|
  {
    IsBit(bits[i]) || (bits[i] == '-' && i + 1 < |bits| && IsBit(bits[i + 1]))
  }

  /** On such bits `parseInt` never gives `NaN` for a field of two bits or more. */
  function ReadUint(bits: string, offset: nat, length: nat): int
    requires Signed(bits) && 2 <= length && offset + length <= |bits|
  {
    var field := bits[offset..offset + length];
    FieldIsNumber(bits, offset, length);
    ParseBinary(field).value
  }

  function ReadInt(bits: string, offset: nat, length: nat): int
    requires Signed(bits) && 2 <= length && offset + length <= |bits|
  {
    var raw := ReadUint(bits, offset, length);
    if 2 * raw >= Pow2(length) then raw - Pow2(length) else raw
  }

  lemma FieldIsNumber(bits: string, offset: nat, length: nat)
    requires Signed(bits) && 2 <= length && offset + length <= |bits|
    ensures ParseBinary(bits[offset..offset + length]).Some?
  {
    var field := bits[offset..offset + length];
    assert SignedAt(bits, offset) && field[0] == bits[offset] && field[1] == bits[offset + 1];
    assert field[1..][0] == field[1];
  }

  lemma DigitsAreBits(n: nat)
    ensures Binary(Digits(n, 2))
  {}

  lemma {:induction false} SixBitsSigned(payload: string)
    ensures Signed(SixBits(payload))
  {
    if payload != "" {
      var init := SixBits(payload[..|payload| - 1]);
      SixBitsSigned(payload[..|payload| - 1]);
      var value := SixBitValue(CharCode(payload[|payload| - 1]));
      PaddedSigned(value);
      SignedAppend(init, PadStart(ToString(value, 2), 6));
    }
  }

  lemma PaddedSigned(value: int)
    ensures Signed(PadStart(ToString(value, 2), 6))
  {
    var s := ToString(value, 2);
    DigitsAreBits(if value < 0 then -value else value);
    assert Signed(s);
    if |s| < 6 {
      assert Signed(Zeros(6 - |s|));
      SignedAppend(Zeros(6 - |s|), s);
    }
  }

  lemma SignedAppend(a: string, b: string)
    requires Signed(a) && Signed(b)
    ensures Signed(a + b)
  {
    var s := a + b;
    forall i | 0 <= i < |s| ensures SignedAt(s, i) {
      if i < |a| { assert SignedAt(a, i); } else { assert SignedAt(b, i - |a|); }
    }
  }

  /** What the raw numbers mean. */
  function Interpret(messageType: int, mmsi: int, navStatus: int, sog: int, lonRaw: int, latRaw: int, cog: int,
                     heading: int): Option<Report> {
    var lon, lat := lonRaw as real / 600000.0, latRaw as real / 600000.0;
    if messageType != 1 && messageType != 2 && messageType != 3 then None
    else if Abs(lon) >= SENTINEL_LON_DEG || Abs(lat) >= SENTINEL_LAT_DEG then None
    else Some(Report(PadStart(ToString(mmsi, 10), 9), messageType, navStatus, lat, lon,
                     if sog == SENTINEL_SOG_RAW then None else Some(sog as real / 10.0),
                     if cog == SENTINEL_COG_RAW then None else Some(cog as real / 10.0),
                     if heading == SENTINEL_HEADING_RAW then None else Some(heading)))
  }

  /** From the bits of a payload. */
  function DecodeBits(bits: string): Option<Report>
    requires Signed(bits)
  {
    if |bits| < 168 then None
    else Interpret(ReadUint(bits, 0, 6), ReadUint(bits, 8, 30), ReadUint(bits, 38, 4), ReadUint(bits, 50, 10),
                   ReadInt(bits, 61, 28), ReadInt(bits, 89, 27), ReadUint(bits, 116, 12), ReadUint(bits, 128, 9))
  }

  predicate IsLetter(c: char) { 'A' <= c <= 'Z' || 'a' <= c <= 'z' }

  /** `/^![A-Za-z]{2}VD[MO],/`. */
  predicate IsVdm(s: string) {
    |s| >= 7 && s[0] == '!' && IsLetter(s[1]) && IsLetter(s[2]) && s[3] == 'V' && s[4] == 'D' &&
      (s[5] == 'M' || s[5] == 'O') && s[6] == ','
  }

  /** The sentence behind an NMEA tag block, if it has one; `None` if the block does not end. */
  function WithoutTagBlock(s: string): Option<string> {
    if s == "" || s[0] != '\\' then Some(s)
    else
      var end := IndexOf(s[1..], '\\');
      if end == |s| - 1 then None else Some(s[end + 2..])
  }

  /** The payload of a single-fragment sentence. `number` is JavaScript's `Number`. */
  function Payload(number: string -> Option<real>, sentence: string): Option<string> {
    var s := WithoutTagBlock(Trim(sentence));
    if s.None? || !IsVdm(s.value) then None
    else
      var fields := Split(Split(s.value, '*')[0], ',');
      if |fields| < 6 || number(fields[1]) != Some(1.0) || fields[5] == "" then None else Some(fields[5])
  }

  function Decode(number: string -> Option<real>, sentence: string): Option<Report> {
    var payload := Payload(number, sentence);
    if payload.None? then None
    else
      SixBitsSigned(payload.value);
      DecodeBits(SixBits(payload.value))
  }

  method DecodeAivdmPositionReport(number: string -> Option<real>, sentence: string) returns (r: Option<Report>)
    ensures r == Decode(number, sentence)
  {
    var trimmed := Trim(sentence);
    if trimmed != "" && trimmed[0] == '\\' {
      var tagBlockEnd := IndexOf(trimmed[1..], '\\');
      if tagBlockEnd == |trimmed| - 1 { return None; }
      trimmed := trimmed[tagBlockEnd + 2..];
    }
    if !IsVdm(trimmed) { return None; }
    var fields := Split(Split(trimmed, '*')[0], ',');
    if |fields| < 6 { return None; }
    if number(fields[1]) != Some(1.0) || fields[5] == "" { return None; }
    var bits := SixBitAsciiToBits(fields[5]);
    SixBitsSigned(fields[5]);
    r := DecodeBits(bits);
  }

  /** Whatever is received, a decoded position is a number and lies strictly inside the sentinels. */
  lemma DecodedIsOnEarth(number: string -> Option<real>, sentence: string)
    requires Decode(number, sentence).Some?
    ensures var r := Decode(number, sentence).value;
      -181.0 < r.lon < 181.0 && -91.0 < r.lat < 91.0 && 1 <= r.messageType <= 3
  {}

  // ---------------------------------------------------------------- the encoder

  datatype Fields = Fields(messageType: int, mmsi: int, navStatus: int, sog: int, lon: int, lat: int, cog: int,
                           heading: int)

  function ToBinary(value: int, length: nat): string {
    var normalized := if value < 0 then value + Pow2(length) else value;
    PadStart(ToString(normalized, 2), length)
  }

  /** The character for six bits. */
  function ArmorChar(six: string): (c: char)
    requires |six| == 6
    ensures 48 <= c as int <= 87 || 96 <= c as int <= 119
  {
    ValueBelow(six);
    assert Pow2(6) == 64;
    ArmorInverts(Value(six));
    ArmorCode(Value(six)) as char
  }

  function Armor(bits: string): (payload: string)
    requires |bits| % 6 == 0
    ensures |payload| == |bits| / 6
  {
    if bits == "" then "" else Armor(bits[..|bits| - 6]) + [ArmorChar(bits[|bits| - 6..])]
  }

  /** The bits are padded at the end to a multiple of six. */
  function PadEnd(s: string): (r: string)
    ensures |r| % 6 == 0
  {
    s + Zeros((6 - |s| % 6) % 6)
  }

  method BitsToSixBitAscii(bits: string) returns (payload: string)
    ensures payload == Armor(PadEnd(bits))
  {
    var padded := PadEnd(bits);
    payload := "";
    var i := 0;
    while i < |padded|
      invariant 0 <= i <= |padded| && i % 6 == 0
      invariant payload == Armor(padded[..i])
    {
      SixMore(i, |padded|);
      ArmorNext(padded, i);
      payload := payload + [ArmorChar(padded[i..i + 6])];
      i := i + 6;
    }
    assert padded[..|padded|] == padded;
  }

  lemma SixMore(i: nat, n: nat)
    requires i % 6 == 0 && n % 6 == 0 && i < n
    ensures i + 6 <= n && (i + 6) % 6 == 0
  {}

  lemma ArmorNext(bits: string, i: nat)
    requires i % 6 == 0 && i + 6 <= |bits|
    ensures Armor(bits[..i + 6]) == Armor(bits[..i]) + [ArmorChar(bits[i..i + 6])]
  {
    assert bits[..i + 6][i..] == bits[i..i + 6] && bits[..i + 6][..i] == bits[..i];
  }

  /** A value and its width in bits. */
  datatype Field = Field(value: int, width: nat)

  function Layout(f: Fields): seq<Field> {
    [Field(f.messageType, 6), Field(0, 2), Field(f.mmsi, 30), Field(f.navStatus, 4), Field(0, 8), Field(f.sog, 10),
     Field(1, 1), Field(f.lon, 28), Field(f.lat, 27), Field(f.cog, 12), Field(f.heading, 9), Field(0, 6), Field(0, 2),
     Field(0, 3), Field(0, 1), Field(0, 19)]
  }

  /** The fields one after the other. */
  function Packed(fs: seq<Field>): string {
    if fs == [] then "" else Packed(fs[..|fs| - 1]) + ToBinary(fs[|fs| - 1].value, fs[|fs| - 1].width)
  }

  /** `None` where the encoder's own length assertion fails. */
  function Encode(f: Fields): Option<string> {
    var bits := Packed(Layout(f));
    if |bits| != 168 then None else Some("!AIVDM,1,1,,A," + Armor(PadEnd(bits)) + ",0*00")
  }

  // ------------------------------------------------------------- the round trip

  /** Unsigned fields fit their width, longitude and latitude theirs as two's complement. */
  predicate InRange(f: Fields) {
    && 0 <= f.messageType < 0x40 && 0 <= f.mmsi < 0x4000_0000 && 0 <= f.navStatus < 0x10 && 0 <= f.sog < 0x400
    && -0x800_0000 <= f.lon < 0x800_0000 && -0x400_0000 <= f.lat < 0x400_0000
    && 0 <= f.cog < 0x1000 && 0 <= f.heading < 0x200
  }

  /** What the fields of a report mean: nothing for other message types or a position not available or not on Earth. */
  function Meaning(f: Fields): Option<Report> {
    if !(1 <= f.messageType <= 3) || !(-108600000 < f.lon < 108600000) || !(-54600000 < f.lat < 54600000) then None
    else Some(Report(PadStart(Digits(if f.mmsi >= 0 then f.mmsi else 0, 10), 9), f.messageType, f.navStatus,
                     f.lat as real / 600000.0, f.lon as real / 600000.0,
                     if f.sog == 1023 then None else Some(f.sog as real / 10.0),
                     if f.cog == 3600 then None else Some(f.cog as real / 10.0),
                     if f.heading == 511 then None else Some(f.heading)))
  }

  lemma {:induction false} ValueBelow(s: string)
    ensures Value(s) < Pow2(|s|)
  {
    if s != "" { ValueBelow(s[..|s| - 1]); }
  }

  lemma {:induction false} DigitsValue(n: nat)
    ensures Binary(Digits(n, 2)) && Value(Digits(n, 2)) == n
  {
    if n >= 2 { DigitsValue(n / 2); }
  }

  lemma {:induction false} DigitsFit(n: nat, k: nat)
    requires k > 0 && n < Pow2(k)
    ensures |Digits(n, 2)| <= k
  {
    if n >= 2 { DigitsFit(n / 2, k - 1); }
  }

  lemma {:induction false} ZerosAdd(k: nat, s: string)
    ensures Value(Zeros(k) + s) == Value(s)
  {
    if s != "" {
      assert (Zeros(k) + s)[..k + |s| - 1] == Zeros(k) + s[..|s| - 1];
      ZerosAdd(k, s[..|s| - 1]);
    } else if k > 0 {
      assert (Zeros(k) + s)[..k - 1] == Zeros(k - 1) + s;
      ZerosAdd(k - 1, s);
    }
  }

  lemma PaddedDigits(n: nat, k: nat)
    requires k > 0 && n < Pow2(k)
    ensures var s := PadStart(Digits(n, 2), k); |s| == k && Binary(s) && Value(s) == n
  {
    DigitsValue(n);
    DigitsFit(n, k);
    PaddedFacts(Digits(n, 2), k);
  }

  /** Padding keeps a bit string's value. */
  lemma PaddedFacts(s: string, k: nat)
    requires Binary(s) && |s| <= k
    ensures Binary(PadStart(s, k)) && Value(PadStart(s, k)) == Value(s)
  {
    ZerosAdd(k - |s|, s);
    assert Zeros(0) + s == s;
  }

  /** What a field holds as a number. */
  function Raw(f: Field): int { if f.value < 0 then f.value + Pow2(f.width) else f.value }

  predicate Narrow(f: Field) { f.width > 0 && 0 <= Raw(f) < Pow2(f.width) }

  lemma ToBinaryField(f: Field)
    requires Narrow(f)
    ensures var s := ToBinary(f.value, f.width); |s| == f.width && Binary(s) && Value(s) == Raw(f)
  {
    PaddedDigits(Raw(f), f.width);
  }

  lemma {:induction false} SameValue(a: string, b: string)
    requires Binary(a) && Binary(b) && |a| == |b| && Value(a) == Value(b)
    ensures a == b
  {
    if a != "" {
      SameValue(a[..|a| - 1], b[..|b| - 1]);
      assert a == a[..|a| - 1] + [a[|a| - 1]] && b == b[..|b| - 1] + [b[|b| - 1]];
    }
  }

  /** Taking off the armor gives back the bits. */
  lemma {:induction false} ArmorRoundTrip(bits: string)
    requires Binary(bits) && |bits| % 6 == 0
    ensures SixBits(Armor(bits)) == bits
  {
    if bits != "" {
      var n := |bits| - 6;
      var init, six := bits[..n], bits[n..];
      assert bits == init + six && |six| == 6 && |init| % 6 == 0;
      ArmorRoundTrip(init);
      ArmorGroup(six);
      SixBitsSnoc(Armor(init), ArmorChar(six));
    }
  }

  lemma SixBitsSnoc(payload: string, c: char)
    ensures SixBits(payload + [c]) == SixBits(payload) + PadStart(ToString(SixBitValue(CharCode(c)), 2), 6)
  {
    assert (payload + [c])[..|payload|] == payload;
  }

  lemma ArmorGroup(six: string)
    requires Binary(six) && |six| == 6
    ensures PadStart(ToString(SixBitValue(CharCode(ArmorChar(six))), 2), 6) == six
  {
    ValueBelow(six);
    assert Pow2(6) == 64;
    ArmorInverts(Value(six));
    PaddedDigits(Value(six), 6);
    SameValue(six, PadStart(Digits(Value(six), 2), 6));
  }

  lemma {:induction false} LeadingAll(s: string)
    requires Binary(s)
    ensures Leading(s) == |s|
  {
    if s != "" { LeadingAll(s[1..]); }
  }

  lemma ParseBits(s: string)
    requires Binary(s) && s != ""
    ensures ParseBinary(s) == Some(Value(s))
  {
    LeadingAll(s);
    assert s[..|s|] == s && IsBit(s[0]);
  }

  function Offset(fs: seq<Field>, j: nat): nat
    requires j <= |fs|
  {
    if j == 0 then 0 else Offset(fs, j - 1) + fs[j - 1].width
  }

  /** Field `j` stands at its offset. */
  ghost predicate At(bits: string, offset: nat, f: Field) {
    offset + f.width <= |bits| && bits[offset..offset + f.width] == ToBinary(f.value, f.width)
  }

  lemma {:induction false} OffsetOfPrefix(fs: seq<Field>, n: nat, j: nat)
    requires j <= n <= |fs|
    ensures Offset(fs[..n], j) == Offset(fs, j)
  {
    if j > 0 { OffsetOfPrefix(fs, n, j - 1); }
  }

  lemma {:induction false} PackedShape(fs: seq<Field>)
    requires AllNarrow(fs)
    ensures Binary(Packed(fs)) && |Packed(fs)| == Offset(fs, |fs|)
  {
    if fs != [] {
      var n := |fs| - 1;
      PackedShape(fs[..n]);
      OffsetOfPrefix(fs, n, n);
      ToBinaryField(fs[n]);
    }
  }

  lemma {:induction false} FieldAt(fs: seq<Field>, j: nat)
    requires AllNarrow(fs) && j < |fs|
    ensures At(Packed(fs), Offset(fs, j), fs[j])
  {
    var n := |fs| - 1;
    PackedShape(fs[..n]);
    OffsetOfPrefix(fs, n, j);
    ToBinaryField(fs[n]);
    if j < n {
      FieldAt(fs[..n], j);
      AtInLonger(Packed(fs[..n]), ToBinary(fs[n].value, fs[n].width), Offset(fs, j), fs[j]);
    }
  }

  lemma AtInLonger(bits: string, more: string, offset: nat, f: Field)
    requires At(bits, offset, f)
    ensures At(bits + more, offset, f)
  {
    assert (bits + more)[offset..offset + f.width] == bits[offset..offset + f.width];
  }

  /** Reading a field where it stands. */
  lemma ReadBack(bits: string, offset: nat, f: Field)
    requires Signed(bits) && Narrow(f) && f.width >= 2 && At(bits, offset, f)
    ensures ReadUint(bits, offset, f.width) == Raw(f)
    ensures 0 <= 2 * f.value + Pow2(f.width) && 2 * f.value < Pow2(f.width) ==>
        ReadInt(bits, offset, f.width) == f.value
  {
    ToBinaryField(f);
    ParseBits(ToBinary(f.value, f.width));
  }

  ghost predicate AllNarrow(fs: seq<Field>) { forall i :: 0 <= i < |fs| ==> Narrow(fs[i]) }

  lemma Powers()
    ensures Pow2(1) == 2 && Pow2(2) == 4 && Pow2(3) == 8 && Pow2(4) == 0x10 && Pow2(6) == 0x40 && Pow2(8) == 0x100
    ensures Pow2(9) == 0x200
    ensures Pow2(10) == 0x400 && Pow2(12) == 0x1000 && Pow2(27) == 0x800_0000 && Pow2(28) == 0x1000_0000
    ensures Pow2(30) == 0x4000_0000
  {
    assert Pow2(5) == 0x20;
    assert Pow2(10) == 0x400;
    assert Pow2(15) == 0x8000;
    assert Pow2(20) == 0x10_0000;
    assert Pow2(25) == 0x200_0000;
  }

  lemma LayoutNarrow(f: Fields)
    requires InRange(f)
    ensures AllNarrow(Layout(f))
  {
    Powers();
    assert Narrow(Field(f.messageType, 6)) && Narrow(Field(f.mmsi, 30)) && Narrow(Field(f.navStatus, 4)) &&
        Narrow(Field(f.sog, 10));
    assert Narrow(Field(f.lon, 28)) && Narrow(Field(f.lat, 27)) && Narrow(Field(f.cog, 12)) &&
        Narrow(Field(f.heading, 9));
    assert Narrow(Field(1, 1)) && forall w: nat :: w > 0 ==> Narrow(Field(0, w));
  }

  /** Where the decoder looks for each field. */
  lemma LayoutOffsets(f: Fields)
    ensures var fs := Layout(f);
      && Offset(fs, 2) == 8 && Offset(fs, 3) == 38 && Offset(fs, 5) == 50 && Offset(fs, 7) == 61 && Offset(fs, 8) == 89
      && Offset(fs, 9) == 116 && Offset(fs, 10) == 128 && Offset(fs, 16) == 168
  {
    var fs := Layout(f);
    assert Offset(fs, 1) == 6;
    assert Offset(fs, 2) == 8;
    assert Offset(fs, 3) == 38;
    assert Offset(fs, 4) == 42;
    assert Offset(fs, 5) == 50;
    assert Offset(fs, 6) == 60;
    assert Offset(fs, 7) == 61;
    assert Offset(fs, 8) == 89;
    assert Offset(fs, 9) == 116;
    assert Offset(fs, 10) == 128;
    assert Offset(fs, 11) == 137;
    assert Offset(fs, 12) == 143;
    assert Offset(fs, 13) == 145;
    assert Offset(fs, 14) == 148;
    assert Offset(fs, 15) == 149;
  }

  /** Field `j` reads back from the packed fields. */
  lemma ReadPacked(fs: seq<Field>, j: nat, bits: string, offset: nat, width: nat)
    requires AllNarrow(fs) && j < |fs| && bits == Packed(fs) && offset == Offset(fs, j) && width == fs[j].width >= 2
    ensures Signed(bits) && offset + width <= |bits| && ReadUint(bits, offset, width) == Raw(fs[j])
    ensures 0 <= 2 * fs[j].value + Pow2(width) && 2 * fs[j].value < Pow2(width) ==>
        ReadInt(bits, offset, width) == fs[j].value
  {
    PackedShape(fs);
    forall i | 0 <= i < |bits| ensures SignedAt(bits, i) {}
    FieldAt(fs, j);
    ReadBack(bits, offset, fs[j]);
  }

  /** The fields the decoder reads, where it reads them. */
  ghost predicate LaidOut(f: Fields, fs: seq<Field>) {
    && AllNarrow(fs) && |fs| == 16 && Offset(fs, 0) == 0 && Offset(fs, 16) == 168
    && fs[0] == Field(f.messageType, 6) && fs[2] == Field(f.mmsi, 30) && fs[3] == Field(f.navStatus, 4) &&
      fs[5] == Field(f.sog, 10)
    && fs[7] == Field(f.lon, 28) && fs[8] == Field(f.lat, 27) && fs[9] == Field(f.cog, 12) &&
      fs[10] == Field(f.heading, 9)
    && Offset(fs, 2) == 8 && Offset(fs, 3) == 38 && Offset(fs, 5) == 50 && Offset(fs, 7) == 61 && Offset(fs, 8) == 89
    && Offset(fs, 9) == 116 && Offset(fs, 10) == 128
  }

  /** Decoding the bits of a report. */
  lemma DecodePacked(f: Fields, fs: seq<Field>, bits: string)
    requires InRange(f) && LaidOut(f, fs) && bits == Packed(fs)
    ensures Binary(bits) && Signed(bits) && |bits| == 168 && DecodeBits(bits) == Meaning(f)
  {
    PackedShape(fs);
    Powers();
    ReadPacked(fs, 0, bits, 0, 6);
    ReadPacked(fs, 2, bits, 8, 30);
    ReadPacked(fs, 3, bits, 38, 4);
    ReadPacked(fs, 5, bits, 50, 10);
    ReadPacked(fs, 7, bits, 61, 28);
    ReadPacked(fs, 8, bits, 89, 27);
    ReadPacked(fs, 9, bits, 116, 12);
    ReadPacked(fs, 10, bits, 128, 9);
    InterpretMeaning(f);
  }

  lemma InterpretMeaning(f: Fields)
    requires InRange(f)
    ensures Interpret(f.messageType, f.mmsi, f.navStatus, f.sog, f.lon, f.lat, f.cog, f.heading) == Meaning(f)
  {
    DegreesInside(f.lon, 181);
    DegreesInside(f.lat, 91);
  }

  lemma DegreesInside(raw: int, degrees: nat)
    ensures Abs(raw as real / 600000.0) < degrees as real <==> -(600000 * degrees) < raw < 600000 * degrees
  {}

  // ------------------------------------------------------------ the sentence

  lemma {:induction false} IndexOfAt(s: string, c: char, i: nat)
    requires i <= |s| && c !in s[..i] && (i < |s| ==> s[i] == c)
    ensures IndexOf(s, c) == i
  {
    if i > 0 {
      assert s[..i][0] == s[0];
      assert s[1..][..i - 1] == s[..i][1..];
      IndexOfAt(s[1..], c, i - 1);
    }
  }

  /** Fields with a separator between them. */
  function Join(parts: seq<string>, c: char): string
    requires parts != []
  {
    if |parts| == 1 then parts[0] else parts[0] + [c] + Join(parts[1..], c)
  }

  /** Splitting takes apart what was joined, if no field holds the separator. */
  lemma {:induction false} SplitJoin(parts: seq<string>, c: char)
    requires parts != [] && forall i :: 0 <= i < |parts| ==> c !in parts[i]
    ensures Split(Join(parts, c), c) == parts
  {
    if |parts| == 1 {
      SplitAt(parts[0], c, parts[0]);
    } else {
      SplitJoin(parts[1..], c);
      var s := parts[0] + [c] + Join(parts[1..], c);
      assert s[|parts[0]| + 1..] == Join(parts[1..], c);
      SplitAt(parts[0], c, s);
      assert parts == [parts[0]] + parts[1..];
    }
  }

  lemma SplitAt(first: string, c: char, s: string)
    requires c !in first && first <= s && (first < s ==> s[|first|] == c)
    ensures Split(s, c) == if first == s then [first] else [first] + Split(s[|first| + 1..], c)
  {
    assert s[..|first|] == first;
    IndexOfAt(s, c, |first|);
  }

  lemma {:induction false} ArmorChars(bits: string, c: char)
    requires |bits| % 6 == 0 && c in Armor(bits)
    ensures 48 <= c as int <= 87 || 96 <= c as int <= 119
  {
    var n := |bits| - 6;
    if c in Armor(bits[..n]) { ArmorChars(bits[..n], c); }
  }

  function SentenceParts(payload: string): seq<string> { ["!AIVDM", "1", "1", "", "A", payload, "0"] }

  lemma JoinCons(first: string, rest: seq<string>, c: char)
    requires rest != []
    ensures Join([first] + rest, c) == first + [c] + Join(rest, c)
  {
    assert ([first] + rest)[1..] == rest;
  }

  /** The text before the checksum is these fields joined. */
  lemma SentenceText(payload: string)
    ensures "!AIVDM,1,1,,A," + payload + ",0" == Join(SentenceParts(payload), ',')
  {
    var r5, c := [payload, "0"], ',';
    var r4 := ["A"] + r5;
    var r3 := [""] + r4;
    var r2 := ["1"] + r3;
    var r1 := ["1"] + r2;
    JoinCons(payload, ["0"], c);
    JoinCons("A", r5, c);
    JoinCons("", r4, c);
    JoinCons("1", r3, c);
    JoinCons("1", r2, c);
    JoinCons("!AIVDM", r1, c);
    assert SentenceParts(payload) == ["!AIVDM"] + r1 && r5 == [payload] + ["0"];
    TextShape(payload, Join(r1, c), Join(r2, c), Join(r3, c), Join(r4, c), Join(r5, c));
  }

  lemma TextShape(payload: string, t1: string, t2: string, t3: string, t4: string, t5: string)
    requires t5 == payload + [','] + "0" && t4 == "A" + [','] + t5 && t3 == "" + [','] + t4
    requires t2 == "1" + [','] + t3 && t1 == "1" + [','] + t2
    ensures "!AIVDM,1,1,,A," + payload + ",0" == "!AIVDM" + [','] + t1
  {
    assert t5 == payload + ",0";
    assert t4 == "A," + t5;
    assert t3 == ",A," + t5;
    assert t2 == "1,,A," + t5;
    assert t1 == "1,1,,A," + t5;
    assert "!AIVDM" + [','] + t1 == "!AIVDM,1,1,,A," + t5;
  }

  /** The sentence around a payload is taken apart as it was put together. */
  lemma SentenceFields(number: string -> Option<real>, payload: string)
    requires number("1") == Some(1.0) && payload != ""
    requires forall c :: c in payload ==> 48 <= c as int
    ensures Payload(number, "!AIVDM,1,1,,A," + payload + ",0*00") == Some(payload)
  {
    var body := "!AIVDM,1,1,,A," + payload + ",0";
    var s := "!AIVDM,1,1,,A," + payload + ",0*00";
    SentenceShape(payload);
    BeforeChecksum(payload);
    SentenceText(payload);
    SplitJoin(SentenceParts(payload), ',');
    PayloadField(number, s, body, SentenceParts(payload));
  }

  lemma BeforeChecksum(payload: string)
    requires forall c :: c in payload ==> 48 <= c as int
    ensures Split("!AIVDM,1,1,,A," + payload + ",0*00", '*')[0] == "!AIVDM,1,1,,A," + payload + ",0"
  {
    var body := "!AIVDM,1,1,,A," + payload + ",0";
    var s := "!AIVDM,1,1,,A," + payload + ",0*00";
    assert s[..|body|] == body && s[|body|] == '*';
    SplitAt(body, '*', s);
  }

  lemma PayloadField(number: string -> Option<real>, s: string, body: string, parts: seq<string>)
    requires Trim(s) == s && IsVdm(s) && Split(s, '*')[0] == body && Split(body, ',') == parts
    requires |parts| >= 6 && number(parts[1]) == Some(1.0) && parts[5] != ""
    ensures Payload(number, s) == Some(parts[5])
  {}

  lemma SentenceShape(payload: string)
    ensures var s := "!AIVDM,1,1,,A," + payload + ",0*00"; Trim(s) == s && IsVdm(s)
  {
    var s := "!AIVDM,1,1,,A," + payload + ",0*00";
    assert s[0] == '!' && s[|s| - 1] == '0';
  }

  /**
    The round trip: decoding an encoded report gives back every field, for every report
    in range, or nothing when the message type is not a position report's or the
    position is not one.
  */
  lemma RoundTrip(number: string -> Option<real>, f: Fields)
    requires InRange(f) && number("1") == Some(1.0)
    ensures Encode(f).Some? && Decode(number, Encode(f).value) == Meaning(f)
  {
    var bits := Packed(Layout(f));
    LayoutNarrow(f);
    LayoutOffsets(f);
    DecodePacked(f, Layout(f), bits);
    PayloadRoundTrip(number, bits);
  }

  lemma PayloadRoundTrip(number: string -> Option<real>, bits: string)
    requires Binary(bits) && |bits| == 168 && number("1") == Some(1.0)
    ensures var payload := Payload(number, "!AIVDM,1,1,,A," + Armor(PadEnd(bits)) + ",0*00");
      payload.Some? && SixBits(payload.value) == bits
  {
    assert PadEnd(bits) == bits;
    ArmorRoundTrip(bits);
    var armored := Armor(bits);
    forall c | c in armored ensures 48 <= c as int { ArmorChars(bits, c); }
    SentenceFields(number, armored);
  }

  /** An encoded report has no character below the exclamation mark, so no line end in particular. */
  lemma EncodedChars(f: Fields)
    requires InRange(f)
    ensures Encode(f).Some? && |Encode(f).value| > 2
    ensures Encode(f).value[0] == '!' && Encode(f).value[|Encode(f).value| - 1] == '0'
    ensures forall c :: c in Encode(f).value ==> c as int >= 33
  {
    LayoutNarrow(f);
    LayoutOffsets(f);
    DecodePacked(f, Layout(f), Packed(Layout(f)));
    var armored := Armor(PadEnd(Packed(Layout(f))));
    forall c | c in armored ensures 48 <= c as int { ArmorChars(PadEnd(Packed(Layout(f))), c); }
    SentenceChars(armored);
  }

  lemma SentenceChars(payload: string)
    requires forall c :: c in payload ==> 48 <= c as int
    ensures var s := "!AIVDM,1,1,,A," + payload + ",0*00";
      s[0] == '!' && s[|s| - 1] == '0' && forall c :: c in s ==> c as int >= 33
  {}
}
