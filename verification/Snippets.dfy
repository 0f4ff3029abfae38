/** The snippet filter as it runs: it looks for openings in the lower-cased text and cuts the text itself at the
    offsets it finds there. */
module Snippets {
  import opened Wrappers
  import opened Nonce
  import opened Utf8

  // ----- The filter

  /** A slice beyond the end of the text is a panic. */
  datatype Outcome = Panic | Done(text: string)

  function Prefixed(front: string, o: Outcome): Outcome {
    if o.Panic? then Panic else Done(front + o.text)
  }

  function Found(s: string): (i: nat)
    ensures i <= |LowerText(s)|
  {
    FirstOpening(LowerText(s))
  }

  predicate FindsNone(s: string) {
    Found(s) == |LowerText(s)|
  }

  function AdditionFor(rest: string, attribute: string): string {
    if HasNonce(LowerText(Tag(rest))) then "" else attribute
  }

  function Filtered(s: string, attribute: string): Outcome
    decreases |s|
  {
    if FindsNone(s) then Done(s)
    else
      var end := Found(s) + |OPENING|;
      if end > |s| then Panic
      else Prefixed(s[..end] + AdditionFor(s[end..], attribute), Filtered(s[end..], attribute))
  }

  function Filter(snippet: string, nonce: string): Outcome {
    if nonce == "" || snippet == "" then Done(snippet) else Filtered(snippet, NonceAttribute(nonce))
  }

  lemma PrefixedTwice(a: string, b: string, o: Outcome)
    ensures Prefixed(a, Prefixed(b, o)) == Prefixed(a + b, o)
  {
    if o.Done? {
      assert a + (b + o.text) == (a + b) + o.text;
    }
  }

  lemma FilteredParts(s: string, attribute: string, end: nat)
    requires !FindsNone(s) && end == Found(s) + |OPENING|
    ensures Filtered(s, attribute)
         == if end > |s| then Panic
            else Prefixed(s[..end] + AdditionFor(s[end..], attribute), Filtered(s[end..], attribute))
  {
  }

  /** The loop: find an opening in the lower-cased remainder, copy the remainder up to the end of it, add the
      attribute if the tag behind has none, and go on after it. */
  method AddNonce(snippet: string, nonce: string) returns (filtered: Outcome)
    ensures filtered == Filter(snippet, nonce)
  {
    if nonce == "" || snippet == "" {
      return Done(snippet);
    }
    var attribute, remaining, built := NonceAttribute(nonce), snippet, "";
    NothingInFront(Filtered(snippet, attribute));
    while !FindsNone(remaining)
      invariant Prefixed(built, Filtered(remaining, attribute)) == Filtered(snippet, attribute)
      decreases |remaining|
    {
      var end := Found(remaining) + |OPENING|;
      FilteredParts(remaining, attribute, end);
      if end > |remaining| {
        return Panic;
      }
      built, remaining := CopyOpening(built, remaining, end, attribute);
    }
    return Done(built + remaining);
  }

  lemma NothingInFront(o: Outcome)
    ensures Prefixed("", o) == o
  {
    if o.Done? {
      assert "" + o.text == o.text;
    }
  }

  method CopyOpening(built: string, remaining: string, end: nat, attribute: string)
      returns (longer: string, rest: string)
    requires !FindsNone(remaining) && end == Found(remaining) + |OPENING| <= |remaining|
    ensures Prefixed(longer, Filtered(rest, attribute)) == Prefixed(built, Filtered(remaining, attribute))
    ensures |rest| < |remaining|
  {
    rest := remaining[end..];
    longer := built + remaining[..end];
    FilteredParts(remaining, attribute, end);
    PrefixedTwice(built, remaining[..end] + AdditionFor(rest, attribute), Filtered(rest, attribute));
    Regroup(built, remaining[..end], AdditionFor(rest, attribute));
    if HasNonce(LowerText(Tag(rest))) {
      assert longer + "" == longer;
    } else {
      longer := longer + attribute;
    }
  }

  // ----- What is found in the lower-cased text

  /** `pattern` in lower case stands at the front, whatever the case of the text. */
  predicate Front(s: string, pattern: string) {
    pattern == "" || (s != "" && LowerChar(s[0]) == pattern[0] && Front(s[1..], pattern[1..]))
  }

  lemma {:induction false} FrontMatches(s: string, pattern: string)
    ensures Matches(s, 0, pattern) <==> Front(s, pattern)
  {
    if pattern != "" && s != "" {
      FrontMatches(s[1..], pattern[1..]);
      if |pattern| <= |s| {
        assert Lower(s[..|pattern|]) == [LowerChar(s[0])] + Lower(s[1..][..|pattern| - 1]);
        assert pattern == [pattern[0]] + pattern[1..];
        assert s[0..0 + |pattern|] == s[..|pattern|] && s[1..][0..0 + |pattern[1..]|] == s[1..][..|pattern| - 1];
      }
    }
  }

  /** No dotted capital I, whose lower-case form is an ASCII letter of the opening. */
  predicate Undotted(s: string) {
    s == "" || (s[..Span(s)] != DOTTED && Undotted(s[Span(s)..]))
  }

  predicate Plain(pattern: string) {
    forall i :: 0 <= i < |pattern| ==> Ascii(pattern[i]) && LowerChar(pattern[i]) == pattern[i] && pattern[i] != 'k'
  }

  lemma WideIsNotPlain(s: string, pattern: string)
    requires s != "" && !Ascii(s[0]) && Plain(pattern) && pattern != "" && (pattern[0] != 'i' || s[..Span(s)] != DOTTED)
    ensures !Front(LowerText(s), pattern) && !Front(s, pattern)
  {
    WideFront(s);
    assert LowerText(s)[0] == LowerFront(s)[0];
  }

  /** Lower-casing neither hides nor makes up a plain pattern at the front, unless by the dotted capital I. */
  lemma {:induction false} LowerKeepsFront(s: string, pattern: string)
    requires Plain(pattern) && (Undotted(s) || 'i' !in pattern)
    ensures Front(LowerText(s), pattern) <==> Front(s, pattern)
    decreases |pattern|
  {
    if pattern != "" && s != "" {
      if Ascii(s[0]) {
        AsciiFront(s);
        assert LowerText(s)[1..] == LowerText(s[1..]);
        LowerKeepsFront(s[1..], pattern[1..]);
      } else {
        WideIsNotPlain(s, pattern);
      }
    }
  }

  predicate Contains(s: string, pattern: string) {
    exists i: nat :: i <= |s| && Matches(s, i, pattern)
  }

  lemma ContainsParts(x: string, y: string, pattern: string)
    requires pattern != "" && forall i :: 0 <= i < |x| ==> LowerChar(x[i]) != pattern[0]
    ensures Contains(x + y, pattern) <==> Contains(y, pattern)
  {
    forall i: nat | i <= |x + y| && Matches(x + y, i, pattern) ensures |x| <= i && Matches(y, i - |x|, pattern) {
      MatchedChar(x + y, i, pattern, 0);
      MatchesBehind(x, y, i - |x|, pattern);
    }
    forall i: nat | i <= |y| && Matches(y, i, pattern) ensures Matches(x + y, |x| + i, pattern) {
      MatchesBehind(x, y, i, pattern);
    }
  }

  lemma ContainsFirst(c: char, y: string, pattern: string)
    ensures Contains([c] + y, pattern) <==> Matches([c] + y, 0, pattern) || Contains(y, pattern)
  {
    forall i: nat | 1 <= i <= |[c] + y| ensures Matches([c] + y, i, pattern) <==> Matches(y, i - 1, pattern) {
      MatchesBehind([c], y, i - 1, pattern);
    }
    if Contains(y, pattern) {
      var i: nat :| i <= |y| && Matches(y, i, pattern);
      assert Matches([c] + y, i + 1, pattern);
    }
  }

  lemma PlainAttribute()
    ensures Plain(ATTRIBUTE) && 'i' !in ATTRIBUTE && Plain(OPENING)
  {
  }

  lemma ContainsAlike(c: char, y: string, c': char, y': string, pattern: string)
    requires Matches([c] + y, 0, pattern) <==> Matches([c'] + y', 0, pattern)
    requires Contains(y, pattern) <==> Contains(y', pattern)
    ensures Contains([c] + y, pattern) <==> Contains([c'] + y', pattern)
  {
    ContainsFirst(c, y, pattern);
    ContainsFirst(c', y', pattern);
  }

  lemma MatchesLowered(s: string, pattern: string)
    requires Plain(pattern) && (Undotted(s) || 'i' !in pattern)
    ensures Matches(LowerText(s), 0, pattern) <==> Matches(s, 0, pattern)
  {
    LowerKeepsFront(s, pattern);
    FrontMatches(s, pattern);
    FrontMatches(LowerText(s), pattern);
  }

  lemma LowerKeepsNonceInFront(s: string, tail: string)
    requires s != "" && Ascii(s[0]) && tail == s[1..]
    requires Contains(LowerText(tail), ATTRIBUTE) <==> Contains(tail, ATTRIBUTE)
    ensures Contains(LowerText(s), ATTRIBUTE) <==> Contains(s, ATTRIBUTE)
  {
    PlainAttribute();
    AsciiFront(s);
    MatchesLowered(s, ATTRIBUTE);
    assert [s[0]] + tail == s;
    ContainsAlike(LowerChar(s[0]), LowerText(tail), s[0], tail, ATTRIBUTE);
  }

  lemma WideHoldsNothing(x: string, y: string)
    requires NoneAscii(x) || x == "i" || x == "k"
    ensures Contains(x + y, ATTRIBUTE) <==> Contains(y, ATTRIBUTE)
  {
    ContainsParts(x, y, ATTRIBUTE);
  }

  lemma Whole(s: string, n: nat)
    requires n <= |s|
    ensures s[..n] + s[n..] == s
  {
  }

  lemma LowerKeepsNonceBehind(s: string, tail: string)
    requires s != "" && !Ascii(s[0]) && tail == s[Span(s)..]
    requires Contains(LowerText(tail), ATTRIBUTE) <==> Contains(tail, ATTRIBUTE)
    ensures Contains(LowerText(s), ATTRIBUTE) <==> Contains(s, ATTRIBUTE)
  {
    WideFront(s);
    LowerUnfolds(s, LowerFront(s), tail);
    WideHoldsNothing(LowerFront(s), LowerText(tail));
    WideHoldsNothing(s[..Span(s)], tail);
    Whole(s, Span(s));
  }

  /** Whether a text contains `nonce=` can be asked of it or of its lower-cased form. */
  lemma {:induction false} LowerKeepsNonce(s: string)
    ensures Contains(LowerText(s), ATTRIBUTE) <==> Contains(s, ATTRIBUTE)
    decreases |s|
  {
    if s != "" {
      LowerKeepsNonce(s[Span(s)..]);
      if Ascii(s[0]) {
        LowerKeepsNonceInFront(s, s[Span(s)..]);
      } else {
        LowerKeepsNonceBehind(s, s[Span(s)..]);
      }
    }
  }

  lemma SameAddition(rest: string, attribute: string)
    ensures AdditionFor(rest, attribute) == Addition(rest, attribute)
  {
    LowerKeepsNonce(Tag(rest));
    assert HasNonce(Tag(rest)) <==> Contains(Tag(rest), ATTRIBUTE);
    assert HasNonce(LowerText(Tag(rest))) <==> Contains(LowerText(Tag(rest)), ATTRIBUTE);
  }

  // ----- When the offsets are right

  /** The lower-cased text has its first opening where the text has it, and so on behind it. */
  predicate Aligned(s: string)
    decreases |s|
  {
    var i := FirstOpening(s);
    if i == |s| then FindsNone(s)
    else !FindsNone(s) && Found(s) == i && Aligned(s[i + 7..])
  }

  function Ahead(end: int, behind: Option<seq<int>>): Option<seq<int>> {
    if behind.None? then None else Some([end] + behind.value)
  }

  /** Where the filter cuts the text, each counted from the cut before; nothing when it runs beyond the end. */
  function Cuts(s: string): Option<seq<int>>
    decreases |s|, 1
  {
    if FindsNone(s) then Some([]) else CutsFrom(s, Found(s) + |OPENING|)
  }

  function CutsFrom(s: string, end: int): Option<seq<int>>
    requires 0 < end
    decreases |s|, 0
  {
    if end > |s| then None else Ahead(end, Cuts(s[end..]))
  }

  /** Where the openings of the text end, each counted from the one before. */
  function Ends(s: string): seq<int>
    decreases |s|, 1
  {
    if FirstOpening(s) == |s| then [] else EndsFrom(s, FirstOpening(s) + |OPENING|)
  }

  function EndsFrom(s: string, end: int): seq<int>
    requires 0 < end <= |s|
    decreases |s|, 0
  {
    [end] + Ends(s[end..])
  }

  lemma SameFirst(a: int, x: seq<int>, b: int, y: seq<int>)
    ensures [a] + x == [b] + y <==> a == b && x == y
  {
    assert ([a] + x)[0] == a && ([b] + y)[0] == b && ([a] + x)[1..] == x && ([b] + y)[1..] == y;
  }

  lemma SameCut(s: string, end: int, rest: string)
    requires 0 < end <= |s| && rest == s[end..]
    ensures CutsFrom(s, end) == Some(EndsFrom(s, end)) <==> Cuts(rest) == Some(Ends(rest))
  {
    var cuts, ends := Cuts(rest), Ends(rest);
    if cuts.Some? {
      SameFirst(end, cuts.value, end, ends);
    }
  }

  lemma OtherCut(s: string, end: int, other: int)
    requires 0 < end <= |s| && 0 < other != end
    ensures CutsFrom(s, other) != Some(EndsFrom(s, end))
  {
    if other <= |s| && Cuts(s[other..]).Some? {
      SameFirst(other, Cuts(s[other..]).value, end, Ends(s[end..]));
    }
  }

  lemma CutsHere(s: string)
    requires !FindsNone(s)
    ensures Cuts(s) == CutsFrom(s, Found(s) + 7)
  {
  }

  lemma EndsHere(s: string)
    requires FirstOpening(s) < |s|
    ensures Ends(s) == EndsFrom(s, FirstOpening(s) + 7)
  {
  }

  lemma AlignedHere(s: string)
    requires FirstOpening(s) < |s|
    ensures Aligned(s) <==> !FindsNone(s) && Found(s) == FirstOpening(s) && Aligned(s[FirstOpening(s) + 7..])
  {
  }

  lemma CutsRightHere(s: string, end: int, rest: string)
    requires FirstOpening(s) < |s| && !FindsNone(s) && Found(s) == FirstOpening(s) == end - 7 && rest == s[end..]
    ensures Cuts(s) == Some(Ends(s)) <==> Cuts(rest) == Some(Ends(rest))
  {
    CutsHere(s);
    EndsHere(s);
    SameCut(s, end, rest);
  }

  lemma CutsWrongHere(s: string)
    requires FirstOpening(s) < |s| && !FindsNone(s) && Found(s) != FirstOpening(s)
    ensures Cuts(s) != Some(Ends(s))
  {
    CutsHere(s);
    EndsHere(s);
    OtherCut(s, FirstOpening(s) + 7, Found(s) + 7);
  }

  /** The filter cuts behind the openings and nowhere else if and only if the lower-cased text has its openings where
      the text has them. */
  lemma {:induction false} CutsRightIff(s: string)
    ensures Cuts(s) == Some(Ends(s)) <==> Aligned(s)
    decreases |s|
  {
    if FirstOpening(s) < |s| {
      AlignedHere(s);
      if !FindsNone(s) && Found(s) == FirstOpening(s) {
        CutsRightIff(s[FirstOpening(s) + 7..]);
        CutsRightHere(s, FirstOpening(s) + 7, s[FirstOpening(s) + 7..]);
      } else if !FindsNone(s) {
        CutsWrongHere(s);
      }
    }
  }

  lemma RightHere(s: string, end: nat, rest: string, attribute: string)
    requires FirstOpening(s) < |s| && !FindsNone(s) && Found(s) == FirstOpening(s)
    requires end == FirstOpening(s) + 7 && rest == s[end..]
             && Filtered(rest, attribute) == Done(Inserted(rest, attribute))
    ensures Filtered(s, attribute) == Done(Inserted(s, attribute))
  {
    FilteredParts(s, attribute, end);
    SameAddition(rest, attribute);
    InsertedParts(s, s[..end], rest, attribute);
    Regroup(s[..end], Addition(rest, attribute), Inserted(rest, attribute));
  }

  /** And then it computes the specified text. */
  lemma {:induction false} AlignedIsRight(s: string, attribute: string)
    requires Aligned(s)
    ensures Filtered(s, attribute) == Done(Inserted(s, attribute))
    decreases |s|
  {
    if FirstOpening(s) < |s| {
      AlignedHere(s);
      AlignedIsRight(s[FirstOpening(s) + 7..], attribute);
      RightHere(s, FirstOpening(s) + 7, s[FirstOpening(s) + 7..], attribute);
    }
  }

  lemma FilterIsRight(snippet: string, nonce: string)
    requires Aligned(snippet)
    ensures Filter(snippet, nonce) == Done(WithNonce(snippet, nonce))
  {
    AlignedIsRight(snippet, NonceAttribute(nonce));
  }

  // ----- Byte lengths

  lemma FirstIs(s: string, i: nat)
    requires i <= |s| && (i < |s| ==> Matches(s, i, OPENING)) && forall j: nat :: j < i ==> !Matches(s, j, OPENING)
    ensures FirstOpening(s) == i
  {
    if i < FirstOpening(s) {
      NoneBefore(s, i);
    } else if FirstOpening(s) < i {
      OpeningThere(s);
    }
  }

  lemma FirstSkips(x: string, y: string)
    requires forall j: nat :: j < |x| ==> !Matches(x + y, j, OPENING)
    ensures FirstOpening(x + y) == |x| + FirstOpening(y)
  {
    var i := FirstOpening(y);
    forall j: nat | j < |x| + i ensures !Matches(x + y, j, OPENING) {
      if |x| <= j {
        MatchesBehind(x, y, j - |x|, OPENING);
        NoneBefore(y, j - |x|);
      }
    }
    if i < |y| {
      OpeningThere(y);
    }
    MatchesBehind(x, y, i, OPENING);
    FirstIs(x + y, |x| + i);
  }

  lemma NoneIn(x: string, y: string)
    requires (x != "" ==> !Matches(x + y, 0, OPENING)) && forall j :: 1 <= j < |x| ==> x[j] != '<'
    ensures FirstOpening(x + y) == |x| + FirstOpening(y)
  {
    forall j: nat | j < |x| ensures !Matches(x + y, j, OPENING) {
      if j > 0 {
        assert (x + y)[j] == x[j];
        NoneAtOther(x + y, j);
      }
    }
    FirstSkips(x, y);
  }

  lemma MatchesFirst(s: string)
    requires Undotted(s)
    ensures Matches(LowerText(s), 0, OPENING) <==> Matches(s, 0, OPENING)
  {
    PlainAttribute();
    MatchesLowered(s, OPENING);
  }

  lemma OpeningBehind(s: string)
    requires s != "" && !Matches(s, 0, OPENING)
    ensures FirstOpening(s) == Span(s) + FirstOpening(s[Span(s)..])
  {
    assert s[..Span(s)] + s[Span(s)..] == s;
    if !Ascii(s[0]) {
      WideFront(s);
    }
    NoneIn(s[..Span(s)], s[Span(s)..]);
  }

  lemma FrontHasNoBracketInside(s: string)
    requires s != ""
    ensures forall j :: 1 <= j < |LowerFront(s)| ==> LowerFront(s)[j] != '<'
  {
    if !Ascii(s[0]) {
      WideFront(s);
    }
  }

  lemma FoundBehind(s: string)
    requires Undotted(s) && s != "" && !Matches(s, 0, OPENING)
    ensures Found(s) == |LowerFront(s)| + Found(s[Span(s)..])
  {
    MatchesFirst(s);
    FrontHasNoBracketInside(s);
    LowerUnfolds(s, LowerFront(s), s[Span(s)..]);
    NoneIn(LowerFront(s), LowerText(s[Span(s)..]));
  }

  lemma FoundAtOnce(s: string)
    requires Undotted(s) && Matches(s, 0, OPENING)
    ensures FirstOpening(s) == 0 && Found(s) == 0 && !FindsNone(s)
  {
    MatchesFirst(s);
    FirstIs(s, 0);
    FirstIs(LowerText(s), 0);
  }

  /** The filter finds `first` behind exactly the lower-cased text in front of it. */
  predicate FoundRight(s: string, first: int) {
    0 <= first <= |s| && Found(s) == |LowerText(s[..first])| && (FindsNone(s) <==> first == |s|)
  }

  lemma FoundFurther(s: string, tail: string, first: nat)
    requires Undotted(s) && s != "" && !Matches(s, 0, OPENING) && tail == s[Span(s)..] && FoundRight(tail, first)
    ensures FoundRight(s, Span(s) + first)
  {
    FoundBehind(s);
    PrefixLength(s, tail, first);
    PrefixLength(s, tail, |tail|);
    assert s[..|s|] == s && tail[..|tail|] == tail;
  }

  lemma FoundStep(s: string, n: nat, first: nat)
    requires Undotted(s) && s != "" && !Matches(s, 0, OPENING) && n == Span(s) <= first && FoundRight(s[n..], first - n)
    ensures FoundRight(s, first)
  {
    FoundFurther(s, s[n..], first - n);
  }

  /** Without a dotted capital I the filter finds each opening behind exactly the lower-cased text in front of it. */
  lemma {:induction false} FoundBehindPrefix(s: string)
    requires Undotted(s)
    ensures FoundRight(s, FirstOpening(s))
    decreases |s|
  {
    if s == "" {
    } else if Matches(s, 0, OPENING) {
      FoundAtOnce(s);
    } else {
      OpeningBehind(s);
      FoundBehindPrefix(s[Span(s)..]);
      FoundStep(s, Span(s), FirstOpening(s));
    }
  }

  /** What stands between the openings is as long in lower case. */
  predicate Balanced(s: string)
    decreases |s|
  {
    var i := FirstOpening(s);
    i == |s| || (|LowerText(s[..i])| == i && Balanced(s[i + 7..]))
  }

  /** An ASCII character ends one encoding, so the next begins behind it. */
  lemma AsciiIsBoundary(s: string, n: nat)
    requires 0 < n <= |s| && Ascii(s[n - 1])
    ensures Span(s) <= n && (n == Span(s) || Ascii(s[Span(s)..][n - Span(s) - 1]))
  {
    if !Ascii(s[0]) {
      WideFront(s);
    }
  }

  lemma {:induction false} UndottedRest(s: string, n: nat)
    requires Undotted(s) && 0 < n <= |s| && Ascii(s[n - 1])
    ensures Undotted(s[n..])
    decreases |s|
  {
    var m := Span(s);
    AsciiIsBoundary(s, n);
    if m < n {
      UndottedRest(s[m..], n - m);
      assert s[m..][n - m..] == s[n..];
    }
  }

  lemma OpeningEndsAscii(s: string, i: nat)
    requires Matches(s, i, OPENING)
    ensures Ascii(s[i + 6])
  {
    OpeningEndsInT(s, i);
  }

  lemma BalancedHere(s: string, first: nat, rest: string)
    requires first == FirstOpening(s) < |s| && rest == s[first + 7..]
    ensures Balanced(s) <==> |LowerText(s[..first])| == first && Balanced(rest)
  {
  }

  lemma AlignedFrom(s: string, first: nat, rest: string)
    requires first == FirstOpening(s) < |s| && rest == s[first + 7..]
    ensures Aligned(s) <==> !FindsNone(s) && Found(s) == first && Aligned(rest)
  {
  }

  lemma AlignedIffBalancedHere(s: string, first: nat, rest: string)
    requires Undotted(s) && first == FirstOpening(s) < |s| && rest == s[first + 7..]
    requires Aligned(rest) <==> Balanced(rest)
    ensures Aligned(s) <==> Balanced(s)
  {
    FoundBehindPrefix(s);
    BalancedHere(s, first, rest);
    AlignedFrom(s, first, rest);
  }

  /** Without a dotted capital I the offsets are right if and only if the text in front of the first opening, and
      between each and the next, is as long in lower case. */
  lemma {:induction false} AlignedIffBalanced(s: string)
    requires Undotted(s)
    ensures Aligned(s) <==> Balanced(s)
    decreases |s|
  {
    var first := FirstOpening(s);
    if first < |s| {
      OpeningThere(s);
      OpeningEndsAscii(s, first);
      UndottedRest(s, first + 7);
      AlignedIffBalanced(s[first + 7..]);
      AlignedIffBalancedHere(s, first, s[first + 7..]);
    } else {
      FoundBehindPrefix(s);
    }
  }
}
