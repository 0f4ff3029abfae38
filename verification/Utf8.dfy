/** Texts as their UTF-8 bytes, each one character below 256 of a string, and lower-casing them. */
module Utf8 {
  import opened Nonce

  // ----- Lower-casing bytes

  predicate Ascii(c: char) {
    c as int < 0x80
  }

  predicate AllAscii(s: string) {
    forall i :: 0 <= i < |s| ==> Ascii(s[i])
  }

  predicate Trail(c: char) {
    0x80 <= c as int <= 0xBF
  }

  /** How many bytes the character at the front takes; 0 when no character is encoded there. */
  function Width(s: string): (n: nat)
    requires s != ""
    ensures n <= 4 && n <= |s|
  {
    var b := s[0] as int;
    if b < 0x80 then 1
    else if 0xC2 <= b <= 0xDF then
      if |s| >= 2 && Trail(s[1]) then 2 else 0
    else if 0xE0 <= b <= 0xEF then
      if |s| >= 3 && Trail(s[1]) && Trail(s[2]) && (b == 0xE0 ==> 0xA0 <= s[1] as int)
      && (b == 0xED ==> s[1] as int <= 0x9F)
      then 3 else 0
    else if 0xF0 <= b <= 0xF4 then
      if |s| >= 4 && Trail(s[1]) && Trail(s[2]) && Trail(s[3])
         && (b == 0xF0 ==> 0x90 <= s[1] as int) && (b == 0xF4 ==> s[1] as int <= 0x8F)
      then 4 else 0
    else 0
  }

  /** A byte that belongs to no character is passed over alone. */
  function Span(s: string): (n: nat)
    requires s != ""
    ensures 1 <= n <= |s|
  {
    if Width(s) == 0 then 1 else Width(s)
  }

  /** A Unicode scalar value. */
  type Rune = r: int | 0 <= r < 0xD800 || 0xE000 <= r < 0x110000

  function Byte(n: int): char
    requires 0 <= n < 0x100
  {
    n as char
  }

  function Encode(r: Rune): string {
    if r < 0x80 then [Byte(r)]
    else if r < 0x800 then [Byte(0xC0 + r / 64), Byte(0x80 + r % 64)]
    else if r < 0x10000 then [Byte(0xE0 + r / 4096), Byte(0x80 + r / 64 % 64), Byte(0x80 + r % 64)]
    else [Byte(0xF0 + r / 262144), Byte(0x80 + r / 4096 % 64), Byte(0x80 + r / 64 % 64), Byte(0x80 + r % 64)]
  }

  /** The characters whose lower-case form takes a different number of bytes, with that form (Unicode 14). */
  const SHIFTING: map<Rune, Rune> := map[
    0x130 := 0x69, 0x23A := 0x2C65, 0x23E := 0x2C66, 0x1E9E := 0xDF, 0x2126 := 0x3C9, 0x212A := 0x6B, 0x212B := 0xE5,
    0x2C62 := 0x26B, 0x2C64 := 0x27D, 0x2C6D := 0x251, 0x2C6E := 0x271, 0x2C6F := 0x250, 0x2C70 := 0x252,
    0x2C7E := 0x23F, 0x2C7F := 0x240, 0xA78D := 0x265, 0xA7AA := 0x266, 0xA7AB := 0x25C, 0xA7AC := 0x261,
    0xA7AD := 0x26C, 0xA7AE := 0x26A, 0xA7B0 := 0x29E, 0xA7B1 := 0x287, 0xA7B2 := 0x29D, 0xA7C5 := 0x282
  ]

  lemma ShiftingScalars(r: Rune)
    requires r in SHIFTING
    ensures 0x80 <= r < 0x10000 && SHIFTING[r] != '<' as int
  {
  }

  /** The character at the front of at most three bytes, the only ones the table is about. */
  function RuneAt(s: string): int
    requires s != ""
  {
    if Width(s) == 2 then (s[0] as int - 0xC0) * 64 + (s[1] as int - 0x80)
    else if Width(s) == 3 then (s[0] as int - 0xE0) * 4096 + (s[1] as int - 0x80) * 64 + (s[2] as int - 0x80)
    else s[0] as int
  }

  const REPLACEMENT := [0xEF as char, 0xBF as char, 0xBD as char]

  /** The front in lower case. Letters of more than one byte whose lower-case form is as long are left as they are,
      since only ASCII is looked for. A byte that belongs to no character becomes the replacement character. */
  function LowerFront(s: string): string
    requires s != ""
  {
    if Width(s) == 0 then REPLACEMENT
    else if Width(s) == 1 then [LowerChar(s[0])]
    else if RuneAt(s) in SHIFTING then
      ShiftingScalars(RuneAt(s));
      Encode(SHIFTING[RuneAt(s)])
    else s[..Span(s)]
  }

  function LowerText(s: string): string {
    if s == "" then "" else LowerFront(s) + LowerText(s[Span(s)..])
  }

  // ----- Lower-casing piece by piece

  lemma Regroup(a: string, b: string, c: string)
    ensures a + (b + c) == a + b + c
  {
  }

  /** No character is encoded across the seam. */
  predicate Seam(x: string, y: string) {
    x == "" || y == "" || Ascii(x[|x| - 1]) || Ascii(y[0])
  }

  lemma FrontStays(x: string, y: string)
    requires x != "" && Seam(x, y)
    ensures Width(x + y) == Width(x) && Span(x + y) == Span(x) && LowerFront(x + y) == LowerFront(x)
  {
    assert forall i :: 0 <= i < |x| ==> (x + y)[i] == x[i];
    assert y != "" ==> (x + y)[|x|] == y[0];
    assert (x + y)[..Span(x)] == x[..Span(x)];
  }

  lemma LowerUnfolds(s: string, front: string, tail: string)
    requires s != "" && front == LowerFront(s) && tail == s[Span(s)..]
    ensures LowerText(s) == front + LowerText(tail)
  {
  }

  lemma SeamStays(x: string, y: string, n: nat)
    requires Seam(x, y) && n <= |x|
    ensures Seam(x[n..], y) && (x + y)[n..] == x[n..] + y
  {
  }

  lemma {:induction false} LowerJoins(x: string, y: string)
    requires Seam(x, y)
    ensures LowerText(x + y) == LowerText(x) + LowerText(y)
    decreases |x|, 1
  {
    if x == "" {
      assert x + y == y;
    } else {
      FrontStays(x, y);
      SeamStays(x, y, Span(x));
      LowerJoinsBehind(x, y, LowerFront(x), x[Span(x)..]);
    }
  }

  lemma LowerJoinsBehind(x: string, y: string, front: string, tail: string)
    requires x != "" && front == LowerFront(x) == LowerFront(x + y) && tail == x[Span(x)..] && Seam(tail, y)
    requires (x + y)[Span(x + y)..] == tail + y
    ensures LowerText(x + y) == LowerText(x) + LowerText(y)
    decreases |x|, 0
  {
    LowerUnfolds(x, front, tail);
    LowerUnfolds(x + y, front, tail + y);
    LowerJoins(tail, y);
    Regroup(front, LowerText(tail), LowerText(y));
  }

  lemma AsciiFront(s: string)
    requires s != "" && Ascii(s[0])
    ensures LowerText(s) == [LowerChar(s[0])] + LowerText(s[1..])
  {
  }

  predicate NoneAscii(s: string) {
    forall i :: 0 <= i < |s| ==> !Ascii(s[i])
  }

  lemma EncodedBytes(r: Rune)
    requires 0x80 <= r
    ensures NoneAscii(Encode(r)) && 2 <= |Encode(r)| <= 4
  {
  }

  const DOTTED := [0xC4 as char, 0xB0 as char]

  lemma OnlyTwoTurnAscii(r: Rune)
    requires r in SHIFTING && SHIFTING[r] < 0x80
    ensures r == 0x130 || r == 0x212A
  {
  }

  /** A character of more than one byte stays one in lower case, except that a dotted capital I becomes `i` and the
      Kelvin sign `k`. */
  lemma WideFront(s: string)
    requires s != "" && !Ascii(s[0])
    ensures LowerFront(s) != "" && forall i :: 0 <= i < Span(s) ==> !Ascii(s[i])
    ensures NoneAscii(LowerFront(s)) || (LowerFront(s) == "i" && s[..Span(s)] == DOTTED) || LowerFront(s) == "k"
  {
    if Width(s) >= 2 && RuneAt(s) in SHIFTING {
      var r := RuneAt(s);
      ShiftingScalars(r);
      if SHIFTING[r] >= 0x80 {
        EncodedBytes(SHIFTING[r]);
      } else {
        OnlyTwoTurnAscii(r);
      }
    }
  }

  lemma LowerOfPrefix(s: string, m: nat)
    requires s != "" && Span(s) <= m <= |s|
    ensures LowerText(s[..m]) == LowerFront(s) + LowerText(s[Span(s)..m])
  {
    var x := s[..m];
    assert forall i :: 0 <= i < m ==> x[i] == s[i];
    assert Width(x) == Width(s) && x[..Span(s)] == s[..Span(s)];
    assert LowerFront(x) == LowerFront(s) && x[Span(x)..] == s[Span(s)..m];
  }

  lemma PrefixLength(s: string, tail: string, i: nat)
    requires s != "" && tail == s[Span(s)..] && i <= |tail|
    ensures |LowerText(s[..Span(s) + i])| == |LowerFront(s)| + |LowerText(tail[..i])|
  {
    LowerOfPrefix(s, Span(s) + i);
    assert tail[..i] == s[Span(s)..Span(s) + i];
  }

  lemma {:induction false} LowerOfAscii(s: string)
    requires AllAscii(s)
    ensures LowerText(s) == Lower(s)
  {
    if s != "" {
      LowerOfAscii(s[1..]);
      AsciiFront(s);
    }
  }

  // ----- Characters and their bytes

  function Text(runes: seq<Rune>): string {
    if runes == [] then "" else Encode(runes[0]) + Text(runes[1..])
  }

  lemma EncodedShort(r: Rune, s: string)
    requires r < 0x800 && Encode(r) <= s
    ensures Width(s) == |Encode(r)| && RuneAt(s) == r
  {
  }

  lemma EncodedThree(r: Rune, s: string)
    requires 0x800 <= r < 0x10000 && Encode(r) <= s
    ensures Width(s) == 3 && RuneAt(s) == r
  {
  }

  lemma EncodedFour(r: Rune, s: string)
    requires 0x10000 <= r && Encode(r) <= s
    ensures Width(s) == 4
  {
  }

  /** What a character is encoded as is read back as one character. */
  lemma EncodedFront(r: Rune, rest: string)
    ensures
      var s := Encode(r) + rest;
      && s != "" && Width(s) == Span(s) == |Encode(r)| && s[Span(s)..] == rest && s[..Span(s)] == Encode(r)
      && (|Encode(r)| < 4 ==> RuneAt(s) == r)
  {
    var s := Encode(r) + rest;
    if r < 0x800 {
      EncodedShort(r, s);
    } else if r < 0x10000 {
      EncodedThree(r, s);
    } else {
      EncodedFour(r, s);
    }
  }

  function LowerRune(r: Rune): string {
    if r < 0x80 then [LowerChar(Byte(r))] else if r in SHIFTING then Encode(SHIFTING[r]) else Encode(r)
  }

  lemma LowerOfEncoded(r: Rune, rest: string)
    ensures LowerFront(Encode(r) + rest) == LowerRune(r)
            && LowerText(Encode(r) + rest) == LowerRune(r) + LowerText(rest)
  {
    EncodedFront(r, rest);
    if r in SHIFTING {
      ShiftingScalars(r);
    }
    LowerUnfolds(Encode(r) + rest, LowerFront(Encode(r) + rest), rest);
  }
}
