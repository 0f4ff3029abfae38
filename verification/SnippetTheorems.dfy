/** For which snippets the filter does what it is to do, and what it promises for them. */
module SnippetTheorems {
  import opened Nonce
  import opened Utf8
  import opened Snippets

  // ----- Whole alphabets

  /** Every character is as long in lower case. */
  predicate Unshifting(s: string) {
    s == "" || (|LowerFront(s)| == Span(s) && Unshifting(s[Span(s)..]))
  }

  lemma {:induction false} TextUnshifting(runes: seq<Rune>)
    requires forall i :: 0 <= i < |runes| ==> runes[i] !in SHIFTING
    ensures Unshifting(Text(runes))
  {
    if runes != [] {
      TextUnshifting(runes[1..]);
      EncodedFront(runes[0], Text(runes[1..]));
      LowerOfEncoded(runes[0], Text(runes[1..]));
    }
  }

  lemma DottedShrinks(s: string)
    requires s != "" && s[..Span(s)] == DOTTED
    ensures LowerFront(s) == "i"
  {
    assert s[0] == DOTTED[0] && s[1] == DOTTED[1];
  }

  lemma {:induction false} UnshiftingUndotted(s: string)
    requires Unshifting(s)
    ensures Undotted(s)
  {
    if s != "" {
      UnshiftingUndotted(s[Span(s)..]);
      if s[..Span(s)] == DOTTED {
        DottedShrinks(s);
      }
    }
  }

  lemma AsciiBehind(s: string, i: nat)
    requires 0 < i < |s| && Ascii(s[i])
    ensures Span(s) <= i
  {
    if !Ascii(s[0]) {
      WideFront(s);
    }
  }

  lemma {:induction false} UnshiftingPrefix(s: string, i: nat)
    requires Unshifting(s) && i <= |s| && (i < |s| ==> Ascii(s[i]))
    ensures |LowerText(s[..i])| == i
    decreases |s|
  {
    if i > 0 {
      if i < |s| {
        AsciiBehind(s, i);
      }
      UnshiftingPrefix(s[Span(s)..], i - Span(s));
      PrefixLength(s, s[Span(s)..], i - Span(s));
    }
  }

  lemma {:induction false} UnshiftingRest(s: string, n: nat)
    requires Unshifting(s) && 0 < n <= |s| && Ascii(s[n - 1])
    ensures Unshifting(s[n..])
    decreases |s|
  {
    var m := Span(s);
    AsciiIsBoundary(s, n);
    if m < n {
      UnshiftingRest(s[m..], n - m);
      assert s[m..][n - m..] == s[n..];
    }
  }

  lemma {:induction false} UnshiftingBalanced(s: string)
    requires Unshifting(s)
    ensures Balanced(s)
    decreases |s|
  {
    var i := FirstOpening(s);
    if i < |s| {
      OpeningThere(s);
      OpeningIsBracket(s, i);
      UnshiftingPrefix(s, i);
      OpeningEndsAscii(s, i);
      UnshiftingRest(s, i + 7);
      UnshiftingBalanced(s[i + 7..]);
    }
  }

  /** A snippet none of whose characters changes its length is filtered right. */
  lemma UnshiftingIsRight(runes: seq<Rune>, nonce: string)
    requires forall i :: 0 <= i < |runes| ==> runes[i] !in SHIFTING
    ensures Filter(Text(runes), nonce) == Done(WithNonce(Text(runes), nonce))
  {
    TextUnshifting(runes);
    UnshiftingUndotted(Text(runes));
    UnshiftingBalanced(Text(runes));
    AlignedIffBalanced(Text(runes));
    FilterIsRight(Text(runes), nonce);
  }

  // ----- One character that shifts

  lemma OpeningIsAscii()
    ensures AllAscii(OPENING) && Lower(OPENING) == OPENING && |OPENING| == 7
  {
  }

  lemma OpeningFirst(tail: string)
    ensures FirstOpening(OPENING + tail) == 0 && Matches(OPENING + tail, 0, OPENING)
  {
    OpeningIsAscii();
    assert (OPENING + tail)[0..0 + |OPENING|] == OPENING;
    FirstIs(OPENING + tail, 0);
  }

  lemma OpeningLowered(tail: string)
    ensures LowerText(OPENING + tail) == OPENING + LowerText(tail)
  {
    OpeningIsAscii();
    LowerJoins(OPENING, tail);
    LowerOfAscii(OPENING);
  }

  lemma BytesAreNoBracket(r: Rune)
    requires r != '<' as int
    ensures forall j :: 0 <= j < |Encode(r)| ==> Encode(r)[j] != '<'
  {
    if 0x80 <= r {
      EncodedBytes(r);
    }
  }

  lemma NoneInRune(r: Rune, y: string)
    requires r != '<' as int
    ensures FirstOpening(Encode(r) + y) == |Encode(r)| + FirstOpening(y)
  {
    BytesAreNoBracket(r);
    assert (Encode(r) + y)[0] == Encode(r)[0];
    NoneAtOther(Encode(r) + y, 0);
    NoneIn(Encode(r), y);
  }

  /** Behind a character that shifts, the opening is found at the offset the lower-case form leaves. */
  lemma FoundShifted(r: Rune, tail: string)
    requires r in SHIFTING
    ensures Found(Encode(r) + (OPENING + tail)) == |Encode(SHIFTING[r])| && !FindsNone(Encode(r) + (OPENING + tail))
  {
    ShiftingScalars(r);
    LowerOfEncoded(r, OPENING + tail);
    OpeningLowered(tail);
    OpeningFirst(LowerText(tail));
    NoneInRune(SHIFTING[r], OPENING + LowerText(tail));
  }

  /** By one byte up, or by one or two down. */
  lemma ShiftingBytes(r: Rune)
    requires r in SHIFTING
    ensures |Encode(SHIFTING[r])| == |Encode(r)| + 1 || |Encode(r)| - 2 <= |Encode(SHIFTING[r])| < |Encode(r)|
  {
  }

  /** A tag too short to hold `nonce=`. */
  lemma ShortTag(rest: string, attribute: string)
    requires |rest| < |ATTRIBUTE|
    ensures AdditionFor(rest, attribute) == attribute == Addition(rest, attribute)
  {
    SameAddition(rest, attribute);
    assert |Tag(rest)| <= |rest|;
  }

  lemma LastBracket(attribute: string)
    ensures Addition(">", attribute) + Inserted(">", attribute) == attribute + ">"
  {
    ShortTag(">", attribute);
    FirstIs(">", 1);
  }

  /** The specified text for one opening at the end of a snippet. */
  lemma SpecifiedShifted(r: Rune, attribute: string)
    requires r != '<' as int
    ensures Inserted(Encode(r) + (OPENING + ">"), attribute) == (Encode(r) + OPENING) + (attribute + ">")
  {
    OpeningFirst(">");
    NoneInRune(r, OPENING + ">");
    Split(Encode(r), OPENING, ">");
    InsertedParts(Encode(r) + (OPENING + ">"), Encode(r) + OPENING, ">", attribute);
    LastBracket(attribute);
  }

  lemma Split(a: string, b: string, c: string)
    ensures (a + (b + c))[..|a| + |b|] == a + b && (a + (b + c))[|a| + |b|..] == c
  {
  }

  /** The attribute goes in where the cut is. */
  lemma CutShows(s: string, attribute: string, end: nat, text: string)
    requires !FindsNone(s) && end == Found(s) + |OPENING| <= |s| && |s| - end < |ATTRIBUTE|
    requires attribute != "" && Filtered(s, attribute) == Done(text)
    ensures end < |text| && text[end] == attribute[0]
  {
    FilteredParts(s, attribute, end);
    ShortTag(s[end..], attribute);
  }

  lemma CutAtEnd(s: string, attribute: string)
    requires !FindsNone(s) && |s| == Found(s) + |OPENING|
    ensures Filtered(s, attribute) == Done(s + attribute)
  {
    FilteredParts(s, attribute, |s|);
    ShortTag("", attribute);
    assert s[..|s|] == s && s[|s|..] == "";
    NothingLeft(attribute);
    assert (s + attribute) + "" == s + attribute;
  }

  lemma NothingLeft(attribute: string)
    ensures Filtered("", attribute) == Done("")
  {
  }

  lemma LastsDiffer(x: string, y: string, attribute: string)
    requires attribute != "" && attribute[|attribute| - 1] != '>'
    ensures x + attribute != y + (attribute + ">")
  {
    assert (x + attribute)[|x + attribute| - 1] == attribute[|attribute| - 1];
    assert (y + (attribute + ">"))[|y + (attribute + ">")| - 1] == '>';
  }

  lemma OpeningHasNoBlank(x: string, y: string, end: nat)
    requires |x| <= end < |x| + 7
    ensures ((x + OPENING) + y)[end] != ' '
  {
    assert ((x + OPENING) + y)[end] == OPENING[end - |x|];
  }

  lemma ShiftedUpIsWrong(r: Rune, attribute: string)
    requires r in SHIFTING && |Encode(SHIFTING[r])| == |Encode(r)| + 1
    requires attribute != "" && attribute[|attribute| - 1] != '>'
    ensures Filtered(Encode(r) + (OPENING + ">"), attribute) != Done(Inserted(Encode(r) + (OPENING + ">"), attribute))
  {
    ShiftingScalars(r);
    FoundShifted(r, ">");
    CutAtEnd(Encode(r) + (OPENING + ">"), attribute);
    SpecifiedShifted(r, attribute);
    LastsDiffer(Encode(r) + (OPENING + ">"), Encode(r) + OPENING, attribute);
  }

  lemma ShiftedDownIsWrong(r: Rune, attribute: string)
    requires r in SHIFTING && |Encode(r)| - 2 <= |Encode(SHIFTING[r])| < |Encode(r)|
    requires attribute != "" && attribute[0] == ' '
    ensures Filtered(Encode(r) + (OPENING + ">"), attribute) != Done(Inserted(Encode(r) + (OPENING + ">"), attribute))
  {
    ShiftingScalars(r);
    FoundShifted(r, ">");
    SpecifiedShifted(r, attribute);
    var s, specified := Encode(r) + (OPENING + ">"), (Encode(r) + OPENING) + (attribute + ">");
    if Filtered(s, attribute) == Done(specified) {
      CutShows(s, attribute, Found(s) + |OPENING|, specified);
      OpeningHasNoBlank(Encode(r), attribute + ">", Found(s) + |OPENING|);
    }
  }

  lemma ShiftedIsWrong(r: Rune, attribute: string)
    requires r in SHIFTING && attribute != "" && attribute[0] == ' ' && attribute[|attribute| - 1] != '>'
    ensures Filtered(Encode(r) + (OPENING + ">"), attribute) != Done(Inserted(Encode(r) + (OPENING + ">"), attribute))
  {
    ShiftingBytes(r);
    if |Encode(SHIFTING[r])| == |Encode(r)| + 1 {
      ShiftedUpIsWrong(r, attribute);
    } else {
      ShiftedDownIsWrong(r, attribute);
    }
  }

  /** The filter is right for every snippet written in these characters, whatever the nonce. */
  ghost predicate RightOver(alphabet: set<Rune>) {
    forall runes: seq<Rune>, nonce: string :: (forall i :: 0 <= i < |runes| ==> runes[i] in alphabet)
      ==> Filter(Text(runes), nonce) == Done(WithNonce(Text(runes), nonce))
  }

  /** `<script>` behind one character. */
  function Tagged(r: Rune): seq<Rune> {
    [r, '<' as int, 's' as int, 'c' as int, 'r' as int, 'i' as int, 'p' as int, 't' as int, '>' as int]
  }

  lemma TextUnfolds(runes: seq<Rune>, r: Rune, tail: seq<Rune>)
    requires runes == [r] + tail
    ensures Text(runes) == Encode(r) + Text(tail)
  {
    assert runes[1..] == tail;
  }

  lemma TagEnd()
    ensures Text(Tagged(0)[5..]) == "ipt>"
  {
    var t := Tagged(0);
    assert Text(t[9..]) == "";
    TextUnfolds(t[8..], t[8], t[9..]);
    TextUnfolds(t[7..], t[7], t[8..]);
    TextUnfolds(t[6..], t[6], t[7..]);
    TextUnfolds(t[5..], t[5], t[6..]);
  }

  lemma TagMiddle()
    ensures Text(Tagged(0)[3..]) == "cript>"
  {
    var t := Tagged(0);
    TagEnd();
    TextUnfolds(t[4..], t[4], t[5..]);
    TextUnfolds(t[3..], t[3], t[4..]);
  }

  lemma TagText()
    ensures Text(Tagged(0)[1..]) == OPENING + ">"
  {
    var t := Tagged(0);
    TagMiddle();
    TextUnfolds(t[2..], t[2], t[3..]);
    TextUnfolds(t[1..], t[1], t[2..]);
  }

  lemma TaggedText(r: Rune)
    ensures Text(Tagged(r)) == Encode(r) + (OPENING + ">")
  {
    TagText();
    TextUnfolds(Tagged(r), r, Tagged(0)[1..]);
  }

  lemma TaggedIsWrong(r: Rune, nonce: string)
    requires r in SHIFTING && nonce != ""
    ensures Filter(Text(Tagged(r)), nonce) != Done(WithNonce(Text(Tagged(r)), nonce))
  {
    TaggedText(r);
    ShiftedIsWrong(r, NonceAttribute(nonce));
  }

  lemma OneIsEnough(alphabet: set<Rune>, runes: seq<Rune>, nonce: string)
    requires forall i :: 0 <= i < |runes| ==> runes[i] in alphabet
    requires Filter(Text(runes), nonce) != Done(WithNonce(Text(runes), nonce))
    ensures !RightOver(alphabet)
  {
  }

  lemma TaggedIn(alphabet: set<Rune>, r: Rune)
    requires r in alphabet && forall i :: 1 <= i < 9 ==> Tagged(0)[i] in alphabet
    ensures forall i :: 0 <= i < 9 ==> Tagged(r)[i] in alphabet
  {
    assert forall i :: 1 <= i < 9 ==> Tagged(r)[i] == Tagged(0)[i];
  }

  /** Over an alphabet in which a script tag can be written, the filter is right for every snippet if and only if no
      character of the alphabet changes its length in lower case. */
  lemma RightOverIff(alphabet: set<Rune>)
    requires forall i :: 1 <= i < 9 ==> Tagged(0)[i] in alphabet
    ensures RightOver(alphabet) <==> forall r :: r in alphabet ==> r !in SHIFTING
  {
    if r :| r in alphabet && r in SHIFTING {
      TaggedIn(alphabet, r);
      TaggedIsWrong(r, "n");
      OneIsEnough(alphabet, Tagged(r), "n");
    } else {
      forall runes: seq<Rune>, nonce: string | forall i :: 0 <= i < |runes| ==> runes[i] in alphabet
        ensures Filter(Text(runes), nonce) == Done(WithNonce(Text(runes), nonce))
      {
        assert forall i :: 0 <= i < |runes| ==> runes[i] !in SHIFTING;
        UnshiftingIsRight(runes, nonce);
      }
    }
  }

  // ----- Inputs on which it goes wrong

  const LONG_A: Rune := 0x23A

  lemma LowerTwice(s: string, j: nat)
    requires Matches(Lower(s), j, OPENING)
    ensures Matches(s, j, OPENING)
  {
    assert Lower(Lower(s)[j..j + 7]) == Lower(s[j..j + 7]);
  }

  lemma NothingFound(s: string)
    requires AllAscii(s) && forall j: nat :: j < |s| ==> !Matches(s, j, OPENING)
    ensures FindsNone(s)
  {
    LowerOfAscii(s);
    forall j: nat | j < |s| ensures !Matches(Lower(s), j, OPENING) {
      if Matches(Lower(s), j, OPENING) {
        LowerTwice(s, j);
      }
    }
    FirstIs(LowerText(s), |s|);
  }

  /** One cut, with nothing left to find behind it. */
  lemma OneCut(r: Rune, tail: string, attribute: string, front: string, rest: string)
    requires r in SHIFTING && Encode(r) + (OPENING + tail) == front + rest && |front| == |Encode(SHIFTING[r])| + 7
    requires FindsNone(rest) && !HasNonce(Tag(rest))
    ensures Filtered(Encode(r) + (OPENING + tail), attribute) == Done((front + attribute) + rest)
  {
    var s := Encode(r) + (OPENING + tail);
    FoundShifted(r, tail);
    FilteredParts(s, attribute, |front|);
    assert s[..|front|] == front && s[|front|..] == rest;
    SameAddition(rest, attribute);
  }

  lemma NoTagIn(s: string)
    requires forall j :: 0 <= j < |s| - 1 && s[j] == '<' ==> LowerChar(s[j + 1]) != 's'
    ensures forall j: nat :: j < |s| ==> !Matches(s, j, OPENING)
  {
    forall j: nat | j < |s| ensures !Matches(s, j, OPENING) {
      if Matches(s, j, OPENING) {
        MatchedChar(s, j, OPENING, 0);
        MatchedChar(s, j, OPENING, 1);
      }
    }
  }

  lemma NoLetterN(rest: string)
    requires forall i :: 0 <= i < |rest| ==> LowerChar(rest[i]) != 'n'
    ensures !HasNonce(Tag(rest))
  {
    TagPrefix(rest);
    forall i: nat | i <= |Tag(rest)| ensures !Matches(Tag(rest), i, ATTRIBUTE) {
      if Matches(Tag(rest), i, ATTRIBUTE) {
        MatchedChar(Tag(rest), i, ATTRIBUTE, 0);
      }
    }
  }

  lemma ClosedAtOnce(front: string, back: string)
    ensures !Covered(front + (OPENING + (">" + back)))
  {
    OpeningFirst(">" + back);
    MatchesBehind(front, OPENING + (">" + back), 0, OPENING);
    assert (front + (OPENING + (">" + back)))[|front| + 7..] == ">" + back;
    EmptyTag(back);
  }

  lemma EmptyTag(back: string)
    ensures !HasNonce(Tag(">" + back))
  {
    assert Tag(">" + back) == "";
  }

  lemma Reshape(a: string, b: string, c: string, d: string, e: string)
    ensures ((a + (b + c)) + d) + e == a + (b + (c + (d + e)))
    ensures (a + (b + c)) + e == a + (b + (c + e))
  {
  }

  /** Behind the tag of the first example. */
  const BEHIND := "x</script>"

  lemma BehindIsPlain()
    ensures AllAscii(BEHIND) && forall j :: 0 <= j < |BEHIND| - 1 && BEHIND[j] == '<' ==>
              LowerChar(BEHIND[j + 1]) != 's'
    ensures forall i :: 0 <= i < |BEHIND| ==> LowerChar(BEHIND[i]) != 'n'
  {
  }

  lemma NothingInRest()
    ensures FindsNone(BEHIND) && !HasNonce(Tag(BEHIND))
  {
    BehindIsPlain();
    NoTagIn(BEHIND);
    NothingFound(BEHIND);
    NoLetterN(BEHIND);
  }

  /** In "\u{23A}<script>x</script>" the attribute is written behind the tag, and the script carries none. */
  lemma MissesOpening(nonce: string)
    requires nonce != ""
    ensures
      var outcome := Filter(Encode(LONG_A) + (OPENING + (">" + BEHIND)), nonce);
      && outcome == Done(((Encode(LONG_A) + (OPENING + ">")) + NonceAttribute(nonce)) + BEHIND)
      && !Covered(outcome.text)
  {
    var attribute := NonceAttribute(nonce);
    NothingInRest();
    Reshape(Encode(LONG_A), OPENING, ">", attribute, BEHIND);
    OneCut(LONG_A, ">" + BEHIND, attribute, Encode(LONG_A) + (OPENING + ">"), BEHIND);
    ClosedAtOnce(Encode(LONG_A), attribute + BEHIND);
  }

  /** At "\u{23A}<script" the slice is beyond the end. */
  lemma RunsBeyond(nonce: string)
    requires nonce != ""
    ensures Filter(Encode(LONG_A) + (OPENING + ""), nonce) == Panic
  {
    FoundShifted(LONG_A, "");
  }

  lemma NothingInRemains()
    ensures FindsNone("t>") && !HasNonce(Tag("t>"))
  {
    NothingFound("t>");
    NoLetterN("t>");
  }

  /** In "\u{130}<script>" the attribute is written into the tag's name. */
  lemma SplitsOpening(nonce: string)
    requires nonce != ""
    ensures Filter(Encode(0x130) + (OPENING + ">"), nonce)
         == Done(((Encode(0x130) + "<scrip") + NonceAttribute(nonce)) + "t>")
  {
    NothingInRemains();
    assert Encode(0x130) + (OPENING + ">") == (Encode(0x130) + "<scrip") + "t>";
    OneCut(0x130, ">", NonceAttribute(nonce), Encode(0x130) + "<scrip", "t>");
  }

  // ----- What the filter promises where its offsets are right

  /** Whatever happens to the offsets, the result is the input's own pieces with the attribute between some of them. */
  function Kept(s: string): seq<Piece>
    decreases |s|
  {
    if FindsNone(s) || Found(s) + |OPENING| > |s| then [Piece(s, false)]
    else
      var end := Found(s) + |OPENING|;
      [Piece(s[..end], !HasNonce(LowerText(Tag(s[end..]))))] + Kept(s[end..])
  }

  lemma KeptUnfolds(s: string, end: nat, rest: string)
    requires !FindsNone(s) && end == Found(s) + |OPENING| <= |s| && rest == s[end..]
    ensures Kept(s) == [Piece(s[..end], !HasNonce(LowerText(Tag(rest))))] + Kept(rest)
  {
  }

  lemma KeptHere(s: string, end: nat, rest: string, attribute: string)
    requires !FindsNone(s) && end == Found(s) + |OPENING| <= |s| && rest == s[end..]
    ensures Assembled(Kept(s), attribute)
              == s[..end] + (AdditionFor(rest, attribute) + Assembled(Kept(rest), attribute))
  {
    KeptUnfolds(s, end, rest);
    AssembledFirst(Piece(s[..end], !HasNonce(LowerText(Tag(rest)))), Kept(rest), attribute);
  }

  lemma OnlyPiece(s: string, attribute: string)
    ensures Assembled([Piece(s, false)], attribute) == s
  {
    assert [Piece(s, false)][1..] == [];
    assert s + ("" + "") == s;
  }

  lemma {:induction false} FilteredIsAssembled(s: string, attribute: string)
    ensures Filtered(s, attribute).Done? ==> Filtered(s, attribute).text == Assembled(Kept(s), attribute)
    ensures Assembled(Kept(s), "") == s
    decreases |s|
  {
    var end := Found(s) + |OPENING|;
    if FindsNone(s) || end > |s| {
      OnlyPiece(s, attribute);
      OnlyPiece(s, "");
    } else {
      FilteredIsAssembled(s[end..], attribute);
      FilteredParts(s, attribute, end);
      KeptHere(s, end, s[end..], attribute);
      KeptHere(s, end, s[end..], "");
      CutInTwo(s, end);
      if Filtered(s[end..], attribute).Done? {
        Regroup(s[..end], AdditionFor(s[end..], attribute), Assembled(Kept(s[end..]), attribute));
      }
    }
  }

  /** The filter only ever adds attributes: leaving them out gives back the input, character for character, for
      every input it does not panic on. */
  lemma ErasingGivesBack(snippet: string, nonce: string)
    requires nonce != "" && snippet != "" && Filter(snippet, nonce).Done?
    ensures Filter(snippet, nonce).text == Assembled(Kept(snippet), NonceAttribute(nonce))
    ensures snippet == Assembled(Kept(snippet), "")
  {
    FilteredIsAssembled(snippet, NonceAttribute(nonce));
  }

  /** Where the offsets are right every script opening of the result carries a nonce before its first bracket. */
  lemma EveryScriptCarriesNonce(snippet: string, nonce: string)
    requires nonce != "" && Aligned(snippet)
    ensures Filter(snippet, nonce).Done? && Covered(Filter(snippet, nonce).text)
  {
    FilterIsRight(snippet, nonce);
    Nonce.EveryScriptCarriesNonce(snippet, nonce);
  }

  /** A snippet is left alone if and only if all its scripts already carry one. */
  lemma UnchangedIffCovered(snippet: string, nonce: string)
    requires nonce != "" && Aligned(snippet)
    ensures Filter(snippet, nonce) == Done(snippet) <==> Covered(snippet)
  {
    FilterIsRight(snippet, nonce);
    Nonce.UnchangedIffCovered(snippet, nonce);
  }

  // ----- A second application

  lemma AsciiAhead(x: string, y: string)
    requires AllAscii(x) && NoBrackets(x)
    ensures FirstOpening(x + y) == |x| + FirstOpening(y) && Found(x + y) == |x| + Found(y)
    ensures FindsNone(x + y) <==> FindsNone(y)
  {
    LowerJoins(x, y);
    LowerOfAscii(x);
    NoBracketNoOpening(x, y);
    NoBracketNoOpening(Lower(x), LowerText(y));
  }

  lemma NoBracketNoOpening(x: string, y: string)
    requires forall i :: 0 <= i < |x| ==> x[i] != '<'
    ensures FirstOpening(x + y) == |x| + FirstOpening(y)
  {
    if x != "" {
      assert (x + y)[0] == x[0];
      NoneAtOther(x + y, 0);
    }
    NoneIn(x, y);
  }

  lemma DropBehind(x: string, y: string, n: nat)
    requires n <= |y|
    ensures (x + y)[|x| + n..] == y[n..]
  {
  }

  lemma AlignedBehindAscii(x: string, y: string)
    requires AllAscii(x) && NoBrackets(x) && Aligned(y)
    ensures Aligned(x + y)
  {
    AsciiAhead(x, y);
    var first := FirstOpening(y);
    if first < |y| {
      DropBehind(x, y, first + 7);
      AlignedFrom(y, first, y[first + 7..]);
      AlignedFrom(x + y, |x| + first, y[first + 7..]);
    }
  }

  lemma FirstStays(x: string, y: string, z: string, i: nat)
    requires FirstOpening(x + y) == i && i + 7 <= |x| && Matches(x + y, i, OPENING)
    ensures FirstOpening(x + z) == i
  {
    forall j: nat | j < i ensures !Matches(x + z, j, OPENING) {
      NoneBefore(x + y, j);
      MatchesInFront(x, y, z, j, OPENING);
    }
    MatchesInFront(x, y, z, i, OPENING);
    FirstIs(x + z, i);
  }

  lemma OpeningAscii(y: string)
    requires |y| == 7 && Matches(y, 0, OPENING)
    ensures AllAscii(y) && Lower(y) == OPENING
  {
    forall k | 0 <= k < 7 ensures Ascii(y[k]) {
      MatchedChar(y, 0, OPENING, k);
    }
    assert y[0..0 + 7] == y;
  }

  /** An opening at the end of a text ends the lower-cased text too. */
  lemma LowerReaches(x: string, y: string)
    requires |y| == 7 && Matches(y, 0, OPENING)
    ensures LowerText(x + y) == LowerText(x) + OPENING
  {
    OpeningAscii(y);
    LowerJoins(x, y);
    LowerOfAscii(y);
  }

  lemma FirstReaches(front: string, back: string, i: nat)
    requires FirstOpening((front + OPENING) + back) == i
    ensures i <= |front|
  {
    OpeningFirst(back);
    MatchesBehind(front, OPENING + back, 0, OPENING);
    assert (front + OPENING) + back == front + (OPENING + back);
    if |front| < i {
      NoneBefore((front + OPENING) + back, |front|);
    }
  }

  /** Up to the end of an opening the text determines what is found. */
  lemma FoundStays(x: string, y: string, rest: string, back: string)
    requires |y| == 7 && Matches(y, 0, OPENING) && !FindsNone((x + y) + rest) && Found((x + y) + rest) == |x|
    ensures !FindsNone((x + y) + back) && Found((x + y) + back) == |x|
  {
    OpeningAscii(y);
    LowerJoins(x + y, rest);
    LowerJoins(x + y, back);
    LowerReaches(x, y);
    FirstReaches(LowerText(x), LowerText(rest), |x|);
    OpeningThere(LowerText((x + y) + rest));
    FirstStays(LowerText(x) + OPENING, LowerText(rest), LowerText(back), |x|);
  }

  lemma OpeningStays(x: string, y: string, rest: string, back: string)
    requires |y| == 7 && Matches(y, 0, OPENING) && FirstOpening((x + y) + rest) == |x|
    ensures FirstOpening((x + y) + back) == |x|
  {
    MatchesBehind(x, y, 0, OPENING);
    assert (x + y) + "" == x + y;
    MatchesInFront(x + y, "", rest, |x|, OPENING);
    FirstStays(x + y, rest, back, |x|);
  }

  lemma AlignedAfterOne(s: string, x: string, y: string, rest: string, back: string)
    requires s == (x + y) + rest && |y| == 7 && Matches(y, 0, OPENING) && FirstOpening(s) == |x| && Aligned(s)
    requires Aligned(back)
    ensures Aligned((x + y) + back)
  {
    AlignedFrom(s, |x|, rest);
    FoundStays(x, y, rest, back);
    OpeningStays(x, y, rest, back);
    DropBehind(x + y, back, 0);
    AlignedFrom((x + y) + back, |x|, back);
  }

  lemma AdditionAligned(rest: string, attribute: string, tail: string)
    requires AllAscii(attribute) && NoBrackets(attribute) && Aligned(tail)
    ensures Aligned(Addition(rest, attribute) + tail)
  {
    AlignedBehindAscii(Addition(rest, attribute), tail);
  }

  lemma Thirds(s: string, i: nat)
    requires Matches(s, i, OPENING)
    ensures s == (s[..i] + s[i..i + 7]) + s[i + 7..] && s[..i] + s[i..i + 7] == s[..i + 7]
    ensures Matches(s[i..i + 7], 0, OPENING)
  {
    assert s[i..i + 7][0..0 + 7] == s[i..i + 7];
  }

  lemma InsertionStep(s: string, i: nat, rest: string, tail: string, attribute: string)
    requires Aligned(s) && AllAscii(attribute) && NoBrackets(attribute) && i == FirstOpening(s) < |s|
    requires rest == s[i + 7..] && tail == Inserted(rest, attribute) && Aligned(tail)
    ensures Aligned(Inserted(s, attribute))
  {
    OpeningThere(s);
    Thirds(s, i);
    AdditionAligned(rest, attribute, tail);
    AlignedAfterOne(s, s[..i], s[i..i + 7], rest, Addition(rest, attribute) + tail);
    InsertedParts(s, s[..i + 7], rest, attribute);
  }

  /** ASCII attributes keep the offsets right. */
  lemma {:induction false} InsertionStaysAligned(s: string, attribute: string)
    requires Aligned(s) && AllAscii(attribute) && NoBrackets(attribute)
    ensures Aligned(Inserted(s, attribute))
    decreases |s|
  {
    var i := FirstOpening(s);
    if i < |s| {
      AlignedHere(s);
      InsertionStaysAligned(s[i + 7..], attribute);
      InsertionStep(s, i, s[i + 7..], Inserted(s[i + 7..], attribute), attribute);
    }
  }

  lemma {:induction false} EscapedIsAscii(nonce: string)
    requires AllAscii(nonce)
    ensures AllAscii(Escaped(nonce))
  {
    if nonce != "" {
      EscapedIsAscii(nonce[..|nonce| - 1]);
    }
  }

  lemma RightStaysAligned(snippet: string, nonce: string)
    requires nonce != "" && AllAscii(nonce) && Aligned(snippet)
    ensures Aligned(WithNonce(snippet, nonce))
  {
    EscapedIsAscii(nonce);
    AttributeIsNonce(nonce);
    InsertionStaysAligned(snippet, NonceAttribute(nonce));
  }

  /** A second application, with whatever nonce, changes nothing. Nonces are drawn in ASCII. */
  lemma SecondTimeIsIdentity(snippet: string, nonce: string, another: string)
    requires nonce != "" && AllAscii(nonce) && Aligned(snippet)
    ensures
      var once := Filter(snippet, nonce);
      once.Done? && Filter(once.text, another) == once
  {
    RightStaysAligned(snippet, nonce);
    FilterIsRight(snippet, nonce);
    FilterIsRight(WithNonce(snippet, nonce), another);
    Nonce.SecondTimeIsIdentity(snippet, nonce, another);
  }
}
