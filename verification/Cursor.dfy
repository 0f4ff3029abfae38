/** The paging cursor: a sort key as text, in the URL-safe unpadded base64 of RFC 4648, section 5. */
module Cursor {
  import opened Wrappers
  import opened Int64

  /** A row's sort key: its creation time in nanoseconds and its 128-bit identifier, which the database
      compares byte by byte and so as a number. */
  datatype Key = Key(at: int, id: nat)

  const ID_LIMIT: nat := 0x1_0000_0000_0000_0000_0000_0000_0000_0000

  predicate Storable(k: Key) {
    Fits(k.at) && k.id < ID_LIMIT
  }

  // ----- Decimal

  predicate IsDigit(c: char) {
    '0' <= c <= '9'
  }

  function DigitOf(n: nat): (c: char)
    requires n < 10
    ensures IsDigit(c) && (c as int) - ('0' as int) == n
  {
    '0' + n as char
  }

  function Digits(n: nat): (s: string)
    ensures s != "" && forall i :: 0 <= i < |s| ==> IsDigit(s[i])
  {
    if n < 10 then [DigitOf(n)] else Digits(n / 10) + [DigitOf(n % 10)]
  }

  function DigitsValue(s: string): nat
    requires forall i :: 0 <= i < |s| ==> IsDigit(s[i])
  {
    if s == "" then 0
    else
      assert IsDigit(s[|s| - 1]);
      10 * DigitsValue(s[..|s| - 1]) + (s[|s| - 1] as int - '0' as int)
  }

  function FormatInt(n: int): string {
    if n < 0 then "-" + Digits(-n) else Digits(n)
  }

  /** An optional sign, at least one digit, nothing else, and a value that fits. */
  function ParseInt(s: string): Option<int> {
    var signed := s != "" && (s[0] == '-' || s[0] == '+');
    var digits := if signed then s[1..] else s;
    if digits == "" || exists i :: 0 <= i < |digits| && !IsDigit(digits[i]) then None
    else
      var magnitude: int := DigitsValue(digits);
      var value := if signed && s[0] == '-' then -magnitude else magnitude;
      if Fits(value) then Some(value) else None
  }

  lemma {:induction false} DigitsRoundTrip(n: nat)
    ensures DigitsValue(Digits(n)) == n
  {
    if n >= 10 {
      DigitsRoundTrip(n / 10);
      assert Digits(n)[..|Digits(n)| - 1] == Digits(n / 10);
    }
  }

  lemma IntRoundTrip(n: int)
    requires Fits(n)
    ensures ParseInt(FormatInt(n)) == Some(n)
  {
    DigitsRoundTrip(if n < 0 then -n else n);
    if n < 0 {
      assert FormatInt(n)[1..] == Digits(-n);
    } else {
      assert IsDigit(FormatInt(n)[0]);
    }
  }

  // ----- Identifiers

  function HexOf(n: nat): (c: char)
    requires n < 16
  {
    if n < 10 then '0' + n as char else 'a' + (n - 10) as char
  }

  function HexValue(c: char): (v: Option<nat>)
    ensures v.Some? ==> v.value < 16
  {
    if '0' <= c <= '9' then Some(c as int - '0' as int)
    else if 'a' <= c <= 'f' then Some(c as int - 'a' as int + 10)
    else if 'A' <= c <= 'F' then Some(c as int - 'A' as int + 10)
    else None
  }

  function Hex(n: nat, width: nat): (s: string)
    ensures |s| == width
  {
    if width == 0 then "" else Hex(n / 16, width - 1) + [HexOf(n % 16)]
  }

  function ParseHex(s: string): Option<nat> {
    if s == "" then Some(0)
    else
      var front, last := ParseHex(s[..|s| - 1]), HexValue(s[|s| - 1]);
      if front.Some? && last.Some? then Some(16 * front.value + last.value) else None
  }

  function Sixteens(width: nat): nat {
    if width == 0 then 1 else 16 * Sixteens(width - 1)
  }

  lemma {:induction false} HexRoundTrip(n: nat, width: nat)
    requires n < Sixteens(width)
    ensures ParseHex(Hex(n, width)) == Some(n)
  {
    if width > 0 {
      HexRoundTrip(n / 16, width - 1);
      assert Hex(n, width)[..width - 1] == Hex(n / 16, width - 1);
    }
  }

  lemma SixteensOfThirtyTwo()
    ensures Sixteens(32) == ID_LIMIT
  {
    assert Sixteens(8) == 0x1_0000_0000;
    assert Sixteens(16) == 0x1_0000_0000_0000_0000;
    assert Sixteens(24) == 0x1_0000_0000_0000_0000_0000_0000;
  }

  /** Groups of eight, four, four, four and twelve hexadecimal digits. */
  function Grouped(h: string): (s: string)
    requires |h| == 32
    ensures |s| == 36
  {
    h[..8] + ("-" + (h[8..12] + ("-" + (h[12..16] + ("-" + (h[16..20] + ("-" + h[20..])))))))
  }

  /** The digits without the hyphens, if those are where they belong. */
  function Ungrouped(s: string): Option<string> {
    if |s| != 36 || s[8] != '-' || s[13] != '-' || s[18] != '-' || s[23] != '-' then None
    else Some(s[..8] + s[9..13] + s[14..18] + s[19..23] + s[24..])
  }

  function ParseId(s: string): Option<nat> {
    var digits := Ungrouped(s);
    if digits.None? then None else ParseHex(digits.value)
  }

  lemma Beyond(x: string, y: string, i: nat, j: nat)
    requires |x| <= i <= j <= |x| + |y|
    ensures (x + y)[i..j] == y[i - |x|..j - |x|]
  {
  }

  /** Past `x` and a hyphen. */
  lemma BeyondHyphen(x: string, y: string, i: nat, j: nat)
    requires |x| + 1 <= i <= j <= |x| + 1 + |y|
    ensures (x + ("-" + y))[i..j] == y[i - |x| - 1..j - |x| - 1] && (x + ("-" + y))[|x|] == '-'
  {
    Beyond(x, "-" + y, i, j);
    Beyond("-", y, i - |x|, j - |x|);
  }

  lemma LastGroups(d: string, x: string, y: string)
    requires |x| == 4 && |y| == 12 && d == x + ("-" + y)
    ensures |d| == 17 && d[..4] == x && d[4] == '-' && d[5..17] == y
  {
    BeyondHyphen(x, y, 5, 17);
  }

  /** One more group in front shifts everything behind it by its length and a hyphen. */
  lemma GroupInFront(s: string, x: string, y: string, i: nat, j: nat)
    requires s == x + ("-" + y) && i < j <= |y|
    ensures s[..|x|] == x && s[|x|] == '-'
    ensures s[|x| + 1 + i..|x| + 1 + j] == y[i..j] && s[|x| + 1 + i] == y[i]
  {
    BeyondHyphen(x, y, |x| + 1 + i, |x| + 1 + j);
    assert s[|x| + 1 + i] == s[|x| + 1 + i..|x| + 1 + j][0];
  }

  lemma MiddleGroups(c: string, x: string, d: string)
    requires |x| == 4 && |d| == 17 && c == x + ("-" + d)
    ensures |c| == 22 && c[..4] == x && c[4] == '-'
    ensures c[5..9] == d[..4] && c[9] == d[4] && c[10..22] == d[5..17]
  {
    GroupInFront(c, x, d, 0, 4);
    GroupInFront(c, x, d, 4, 5);
    GroupInFront(c, x, d, 5, 17);
  }

  lemma LaterGroups(b: string, x: string, c: string)
    requires |x| == 4 && |c| == 22 && b == x + ("-" + c)
    ensures |b| == 27 && b[..4] == x && b[4] == '-'
    ensures b[5..9] == c[..4] && b[9] == c[4] && b[10..14] == c[5..9] && b[14] == c[9] && b[15..27] == c[10..22]
  {
    GroupInFront(b, x, c, 0, 4);
    GroupInFront(b, x, c, 4, 5);
    GroupInFront(b, x, c, 5, 9);
    GroupInFront(b, x, c, 9, 10);
    GroupInFront(b, x, c, 10, 22);
  }

  lemma AllGroups(s: string, x: string, b: string)
    requires |x| == 8 && |b| == 27 && s == x + ("-" + b)
    ensures |s| == 36 && s[..8] == x && s[8] == '-'
    ensures s[9..13] == b[..4] && s[13] == b[4] && s[14..18] == b[5..9] && s[18] == b[9]
    ensures s[19..23] == b[10..14] && s[23] == b[14] && s[24..36] == b[15..27]
  {
    GroupInFront(s, x, b, 0, 4);
    GroupInFront(s, x, b, 4, 5);
    GroupInFront(s, x, b, 5, 9);
    GroupInFront(s, x, b, 9, 10);
    GroupInFront(s, x, b, 10, 14);
    GroupInFront(s, x, b, 14, 15);
    GroupInFront(s, x, b, 15, 27);
  }

  lemma Regroup(h: string)
    requires |h| == 32
    ensures h[..8] + h[8..12] + h[12..16] + h[16..20] + h[20..] == h
  {
    assert h[..8] + h[8..12] == h[..12];
    assert h[..12] + h[12..16] == h[..16];
    assert h[..16] + h[16..20] == h[..20];
  }

  lemma UngroupGroups(h: string)
    requires |h| == 32
    ensures Ungrouped(Grouped(h)) == Some(h)
  {
    var d := h[16..20] + ("-" + h[20..]);
    var c := h[12..16] + ("-" + d);
    var b := h[8..12] + ("-" + c);
    LastGroups(d, h[16..20], h[20..]);
    MiddleGroups(c, h[12..16], d);
    LaterGroups(b, h[8..12], c);
    AllGroups(Grouped(h), h[..8], b);
    Regroup(h);
    assert Grouped(h)[24..] == Grouped(h)[24..36];
  }

  lemma IdRoundTrip(id: nat)
    requires id < ID_LIMIT
    ensures ParseId(Grouped(Hex(id, 32))) == Some(id)
  {
    SixteensOfThirtyTwo();
    HexRoundTrip(id, 32);
    UngroupGroups(Hex(id, 32));
  }

  // ----- Base64

  type Byte = n: nat | n < 256
  type Sextet = n: nat | n < 64

  function Sextets(bytes: seq<Byte>): seq<Sextet> {
    if |bytes| == 0 then []
    else if |bytes| == 1 then [bytes[0] / 4, bytes[0] % 4 * 16]
    else if |bytes| == 2 then [bytes[0] / 4, bytes[0] % 4 * 16 + bytes[1] / 16, bytes[1] % 16 * 4]
    else
      [bytes[0] / 4, bytes[0] % 4 * 16 + bytes[1] / 16, bytes[1] % 16 * 4 + bytes[2] / 64, bytes[2] % 64]
        + Sextets(bytes[3..])
  }

  /** One sextet left over is an error; the spare bits of the last one are not looked at. */
  function Bytes(sextets: seq<Sextet>): Option<seq<Byte>> {
    if |sextets| == 0 then Some([])
    else if |sextets| == 1 then None
    else
      var a: int, b: int := sextets[0], sextets[1];
      var first: Byte := a * 4 + b / 16;
      if |sextets| == 2 then Some([first])
      else
        var c: int := sextets[2];
        var second: Byte := b % 16 * 16 + c / 4;
        if |sextets| == 3 then Some([first, second])
        else
          var third: Byte := c % 4 * 64 + sextets[3];
          var rest := Bytes(sextets[4..]);
          if rest.Some? then Some([first, second, third] + rest.value) else None
  }

  lemma Repack(x: int, y: int, z: int)
    requires 0 <= x < 256 && 0 <= y < 256 && 0 <= z < 256
    ensures x / 4 * 4 + (x % 4 * 16 + y / 16) / 16 == x
    ensures (x % 4 * 16 + y / 16) % 16 * 16 + (y % 16 * 4 + z / 64) / 4 == y
    ensures (y % 16 * 4 + z / 64) % 4 * 64 + z % 64 == z
  {
  }

  lemma FourMoreSextets(a: Sextet, b: Sextet, c: Sextet, d: Sextet, more: seq<Sextet>, x: Byte, y: Byte, z: Byte)
    requires a * 4 + b / 16 == x && b % 16 * 16 + c / 4 == y && c % 4 * 64 + d == z && Bytes(more).Some?
    ensures Bytes([a, b, c, d] + more) == Some([x, y, z] + Bytes(more).value)
  {
    var sextets := [a, b, c, d] + more;
    assert sextets[4..] == more;
  }

  lemma ThreeMoreBytes(x: Byte, y: Byte, z: Byte, more: seq<Byte>)
    requires Bytes(Sextets(more)) == Some(more)
    ensures Bytes(Sextets([x, y, z] + more)) == Some([x, y, z] + more)
  {
    var a, b, c, d := x / 4, x % 4 * 16 + y / 16, y % 16 * 4 + z / 64, z % 64;
    Repack(x, y, z);
    FourMoreSextets(a, b, c, d, Sextets(more), x, y, z);
    SextetsOfThree(x, y, z, more);
  }

  lemma SextetsOfThree(x: Byte, y: Byte, z: Byte, more: seq<Byte>)
    ensures Sextets([x, y, z] + more)
         == [x / 4, x % 4 * 16 + y / 16, y % 16 * 4 + z / 64, z % 64] + Sextets(more)
  {
    assert ([x, y, z] + more)[3..] == more;
  }

  lemma {:induction false} BytesRoundTrip(bytes: seq<Byte>)
    ensures Bytes(Sextets(bytes)) == Some(bytes)
  {
    if |bytes| == 1 {
      Repack(bytes[0], 0, 0);
      assert bytes == [bytes[0]];
    } else if |bytes| == 2 {
      Repack(bytes[0], bytes[1], 0);
      assert bytes == [bytes[0], bytes[1]];
    } else if |bytes| >= 3 {
      BytesRoundTrip(bytes[3..]);
      ThreeMoreBytes(bytes[0], bytes[1], bytes[2], bytes[3..]);
      assert bytes == [bytes[0], bytes[1], bytes[2]] + bytes[3..];
    }
  }

  function SextetChar(n: Sextet): char {
    if n < 26 then 'A' + n as char
    else if n < 52 then 'a' + (n - 26) as char
    else if n < 62 then '0' + (n - 52) as char
    else if n == 62 then '-'
    else '_'
  }

  function SextetValue(c: char): Option<Sextet> {
    if 'A' <= c <= 'Z' then Some(c as int - 'A' as int)
    else if 'a' <= c <= 'z' then Some(c as int - 'a' as int + 26)
    else if '0' <= c <= '9' then Some(c as int - '0' as int + 52)
    else if c == '-' then Some(62)
    else if c == '_' then Some(63)
    else None
  }

  function SextetText(sextets: seq<Sextet>): string {
    if sextets == [] then "" else SextetText(sextets[..|sextets| - 1]) + [SextetChar(sextets[|sextets| - 1])]
  }

  /** Line breaks are skipped, anything else outside the alphabet is an error. */
  function TextSextets(text: string): Option<seq<Sextet>> {
    if text == "" then Some([])
    else
      var front, last := TextSextets(text[..|text| - 1]), text[|text| - 1];
      if last == '\n' || last == '\r' then front
      else
        var value := SextetValue(last);
        if front.Some? && value.Some? then Some(front.value + [value.value]) else None
  }

  const UPPER := "ABCDEFGHIJKLMNOPQRSTUVWXYZ"
  const LOWER := "abcdefghijklmnopqrstuvwxyz"
  const OTHERS := "0123456789-_"

  lemma UpperInOrder(n: nat)
    requires n < 26
    ensures |UPPER| == 26 && UPPER[n] as int == 'A' as int + n
  {
  }

  lemma LowerInOrder(n: nat)
    requires n < 26
    ensures |LOWER| == 26 && LOWER[n] as int == 'a' as int + n
  {
  }

  lemma OthersInOrder(n: nat)
    requires n < 12
    ensures |OTHERS| == 12 && OTHERS[n] == if n < 10 then '0' + n as char else if n == 10 then '-' else '_'
  {
  }

  /** The alphabet of section 5 of RFC 4648. */
  lemma AlphabetIsUrlSafe(n: Sextet)
    ensures |UPPER| == 26 && |LOWER| == 26 && |OTHERS| == 12
    ensures SextetChar(n) == (UPPER + LOWER + OTHERS)[n]
  {
    if n < 26 {
      UpperInOrder(n);
    } else if n < 52 {
      LowerInOrder(n - 26);
    } else {
      OthersInOrder(n - 52);
    }
  }

  /** The bits are taken in order: three bytes are four sextets, two bytes and two zero bits are three, and one byte and
      four zero bits are two. */
  lemma SextetsKeepBits(x: Byte, y: Byte, z: Byte, more: seq<Byte>)
    ensures
      var s := Sextets([x, y, z] + more);
      && |s| == 4 + |Sextets(more)| && s[4..] == Sextets(more)
      && 0x40000 * (s[0] as int) + 0x1000 * (s[1] as int) + 0x40 * (s[2] as int) + s[3] as int
         == 0x10000 * (x as int) + 0x100 * (y as int) + z as int
    ensures
      var s := Sextets([x, y]);
      |s| == 3 && 0x1000 * (s[0] as int) + 0x40 * (s[1] as int) + s[2] as int == (0x100 * (x as int) + y as int) * 4
    ensures
      var s := Sextets([x]);
      |s| == 2 && 0x40 * (s[0] as int) + s[1] as int == x as int * 16
  {
    SextetsOfThree(x, y, z, more);
  }

  lemma {:induction false} TextRoundTrip(sextets: seq<Sextet>)
    ensures TextSextets(SextetText(sextets)) == Some(sextets)
  {
    if sextets != [] {
      var front := sextets[..|sextets| - 1];
      TextRoundTrip(front);
      assert SextetText(sextets)[..|SextetText(sextets)| - 1] == SextetText(front);
      assert front + [sextets[|sextets| - 1]] == sextets;
    }
  }

  // ----- The cursor

  function AsBytes(text: string): Option<seq<Byte>> {
    if text == "" then Some([])
    else
      var front, last := AsBytes(text[..|text| - 1]), text[|text| - 1] as int;
      if front.Some? && last < 256 then Some(front.value + [last]) else None
  }

  function AsText(bytes: seq<Byte>): string {
    seq(|bytes|, i requires 0 <= i < |bytes| => bytes[i] as char)
  }

  predicate Ascii(text: string) {
    forall i :: 0 <= i < |text| ==> text[i] as int < 128
  }

  lemma {:induction false} AsBytesRoundTrip(text: string)
    requires Ascii(text)
    ensures AsBytes(text).Some? && AsText(AsBytes(text).value) == text
  {
    if text != "" {
      AsBytesRoundTrip(text[..|text| - 1]);
      assert text == text[..|text| - 1] + [text[|text| - 1]];
    }
  }

  predicate IsSpace(c: char) {
    c == ' ' || c == '\t' || c == '\n' || c == '\r' || c as int == 11 || c as int == 12 || c as int == 0x85
    || c as int == 0xA0
  }

  function Trimmed(text: string): string {
    if text == "" then ""
    else if IsSpace(text[0]) then Trimmed(text[1..])
    else if IsSpace(text[|text| - 1]) then Trimmed(text[..|text| - 1])
    else text
  }

  /** Where the first colon is, or the length when there is none. */
  function ColonAt(text: string): (i: nat)
    ensures i <= |text|
  {
    if text == "" || text[0] == ':' then 0 else 1 + ColonAt(text[1..])
  }

  function CursorText(k: Key): string {
    FormatInt(k.at) + ":" + Grouped(Hex(k.id, 32))
  }

  function EncodeCursor(k: Key): string {
    var bytes := AsBytes(CursorText(k));
    if bytes.Some? then SextetText(Sextets(bytes.value)) else ""
  }

  function DecodeText(text: string): Option<Key> {
    var colon := ColonAt(text);
    if colon == |text| then None
    else
      var at, id := ParseInt(text[..colon]), ParseId(text[colon + 1..]);
      if at.Some? && id.Some? then Some(Key(at.value, id.value)) else None
  }

  function DecodeCursor(raw: string): Option<Key> {
    var sextets := TextSextets(Trimmed(raw));
    if Trimmed(raw) == "" || sextets.None? then None
    else
      var bytes := Bytes(sextets.value);
      if bytes.None? then None else DecodeText(AsText(bytes.value))
  }

  lemma {:induction false} TrimmedBehind(text: string, c: char)
    requires IsSpace(c)
    ensures Trimmed(text + [c]) == Trimmed(text)
  {
    if text == "" {
      assert text + [c] == [c];
    } else if IsSpace(text[0]) {
      TrimmedBehind(text[1..], c);
      assert (text + [c])[1..] == text[1..] + [c];
    } else {
      assert (text + [c])[..|text|] == text;
    }
  }

  /** Blanks around a cursor do not matter. */
  lemma BlanksDoNotMatter(raw: string, c: char)
    requires IsSpace(c)
    ensures DecodeCursor([c] + raw) == DecodeCursor(raw) && DecodeCursor(raw + [c]) == DecodeCursor(raw)
  {
    assert ([c] + raw)[1..] == raw;
    TrimmedBehind(raw, c);
  }

  lemma {:induction false} ColonAfter(before: string, after: string)
    requires forall i :: 0 <= i < |before| ==> before[i] != ':'
    ensures ColonAt(before + ":" + after) == |before|
  {
    var text := before + ":" + after;
    if before == "" {
      assert text[0] == ':';
    } else {
      ColonAfter(before[1..], after);
      assert text[0] == before[0] && text[1..] == before[1..] + ":" + after;
    }
  }

  lemma TextDecodes(k: Key)
    requires Storable(k)
    ensures DecodeText(CursorText(k)) == Some(k)
  {
    var before, after := FormatInt(k.at), Grouped(Hex(k.id, 32));
    forall i | 0 <= i < |before| ensures before[i] != ':' {
      assert before[i] == '-' || IsDigit(before[i]);
    }
    ColonAfter(before, after);
    IntRoundTrip(k.at);
    IdRoundTrip(k.id);
    assert CursorText(k)[..|before|] == before && CursorText(k)[|before| + 1..] == after;
  }

  lemma {:induction false} HexAscii(n: nat, width: nat)
    ensures Ascii(Hex(n, width))
  {
    if width > 0 {
      HexAscii(n / 16, width - 1);
    }
  }

  lemma CursorTextAscii(k: Key)
    ensures Ascii(CursorText(k))
  {
    HexAscii(k.id, 32);
    var before, after := FormatInt(k.at), Grouped(Hex(k.id, 32));
    assert Ascii(before) by {
      forall i | 0 <= i < |before| ensures before[i] as int < 128 {
        assert before[i] == '-' || IsDigit(before[i]);
      }
    }
    assert Ascii(after);
  }

  lemma {:induction false} SextetTextNotSpace(sextets: seq<Sextet>)
    ensures |SextetText(sextets)| == |sextets|
    ensures forall i :: 0 <= i < |SextetText(sextets)| ==> !IsSpace(SextetText(sextets)[i])
  {
    if sextets != [] {
      SextetTextNotSpace(sextets[..|sextets| - 1]);
    }
  }

  lemma SextetsNonEmpty(bytes: seq<Byte>)
    ensures Sextets(bytes) == [] <==> bytes == []
  {
  }

  /** Every key a row can have survives the trip through a cursor. */
  lemma CursorRoundTrip(k: Key)
    requires Storable(k)
    ensures DecodeCursor(EncodeCursor(k)) == Some(k)
  {
    CursorTextAscii(k);
    AsBytesRoundTrip(CursorText(k));
    var bytes := AsBytes(CursorText(k)).value;
    BytesRoundTrip(bytes);
    TextRoundTrip(Sextets(bytes));
    SextetTextNotSpace(Sextets(bytes));
    assert |bytes| == |AsText(bytes)| > 0;
    SextetsNonEmpty(bytes);
    TextDecodes(k);
  }

  /** So two rows never share a cursor. */
  lemma CursorsDiffer(k: Key, other: Key)
    requires Storable(k) && Storable(other) && k != other
    ensures EncodeCursor(k) != EncodeCursor(other)
  {
    CursorRoundTrip(k);
    CursorRoundTrip(other);
  }
}
