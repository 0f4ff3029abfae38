/** What adding a nonce attribute to every script tag of a snippet is to give. */
module Nonce {
  function LowerChar(c: char): char {
    if 'A' <= c <= 'Z' then (c as int + 32) as char else c
  }

  function Lower(s: string): (r: string)
    ensures |r| == |s|
  {
    seq(|s|, i requires 0 <= i < |s| => LowerChar(s[i]))
  }

  /** `pattern`, in lower case, stands at `i` whatever the case of the text. */
  predicate Matches(s: string, i: nat, pattern: string) {
    i + |pattern| <= |s| && Lower(s[i..i + |pattern|]) == pattern
  }

  const OPENING := "<script"
  const ATTRIBUTE := "nonce="

  lemma MatchedChar(s: string, i: nat, pattern: string, k: nat)
    requires Matches(s, i, pattern) && k < |pattern|
    ensures LowerChar(s[i + k]) == pattern[k]
  {
    assert Lower(s[i..i + |pattern|])[k] == LowerChar(s[i..i + |pattern|][k]);
  }

  lemma MatchesBehind(x: string, y: string, i: nat, pattern: string)
    ensures Matches(x + y, |x| + i, pattern) <==> Matches(y, i, pattern)
  {
    if i + |pattern| <= |y| {
      assert (x + y)[|x| + i..|x| + i + |pattern|] == y[i..i + |pattern|];
    }
  }

  lemma MatchesInFront(x: string, y: string, z: string, i: nat, pattern: string)
    requires i + |pattern| <= |x|
    ensures Matches(x + y, i, pattern) <==> Matches(x + z, i, pattern)
  {
    assert (x + y)[i..i + |pattern|] == x[i..i + |pattern|] == (x + z)[i..i + |pattern|];
  }

  /** The first opening from `i` on, or the end of the text. */
  function FirstFrom(s: string, i: nat): (r: nat)
    requires i <= |s|
    ensures i <= r <= |s| && (r < |s| ==> r + 7 <= |s|)
    decreases |s| - i
  {
    if i == |s| || Matches(s, i, OPENING) then i else FirstFrom(s, i + 1)
  }

  lemma {:induction false} MatchesFrom(s: string, i: nat)
    requires i <= |s| && FirstFrom(s, i) < |s|
    ensures Matches(s, FirstFrom(s, i), OPENING)
    decreases |s| - i
  {
    if !Matches(s, i, OPENING) {
      MatchesFrom(s, i + 1);
    }
  }

  lemma OpeningThere(s: string)
    requires FirstOpening(s) < |s|
    ensures Matches(s, FirstOpening(s), OPENING)
  {
    MatchesFrom(s, 0);
  }

  function FirstOpening(s: string): nat {
    FirstFrom(s, 0)
  }

  lemma {:induction false} NoneFrom(s: string, i: nat, j: nat)
    requires i <= |s| && i <= j < FirstFrom(s, i)
    ensures !Matches(s, j, OPENING)
    decreases |s| - i
  {
    if i < j {
      NoneFrom(s, i + 1, j);
    }
  }

  lemma NoneBefore(s: string, j: nat)
    requires j < FirstOpening(s)
    ensures !Matches(s, j, OPENING)
  {
    NoneFrom(s, 0, j);
  }

  /** The first closing bracket from `i` on, or the end of the text. */
  function ClosingFrom(s: string, i: nat): (r: nat)
    requires i <= |s|
    ensures i <= r <= |s| && (r < |s| ==> s[r] == '>')
    ensures forall j :: i <= j < r ==> s[j] != '>'
    decreases |s| - i
  {
    if i == |s| || s[i] == '>' then i else ClosingFrom(s, i + 1)
  }

  /** The text up to the first closing bracket. */
  function Tag(s: string): string {
    s[..ClosingFrom(s, 0)]
  }

  predicate HasNonce(tag: string) {
    exists i: nat :: i <= |tag| && Matches(tag, i, ATTRIBUTE)
  }

  /** What goes in after an opening, by what follows it. */
  function Addition(rest: string, attribute: string): string {
    if HasNonce(Tag(rest)) then "" else attribute
  }

  function Inserted(s: string, attribute: string): string
    decreases |s|
  {
    var i := FirstOpening(s);
    if i == |s| then s
    else
      var rest := s[i + 7..];
      s[..i + 7] + (Addition(rest, attribute) + Inserted(rest, attribute))
  }

  function EscapedChar(c: char): string {
    match c
    case '<' => "&lt;"
    case '>' => "&gt;"
    case '&' => "&amp;"
    case '\'' => "&#39;"
    case '"' => "&#34;"
    case c => [c]
  }

  function Escaped(s: string): string {
    if s == "" then "" else Escaped(s[..|s| - 1]) + EscapedChar(s[|s| - 1])
  }

  function NonceAttribute(nonce: string): string {
    " nonce=\"" + Escaped(nonce) + "\""
  }

  function WithNonce(snippet: string, nonce: string): string {
    if nonce == "" || snippet == "" then snippet else Inserted(snippet, NonceAttribute(nonce))
  }

  lemma InsertedParts(s: string, head: string, rest: string, attribute: string)
    requires FirstOpening(s) < |s| && head == s[..FirstOpening(s) + 7] && rest == s[FirstOpening(s) + 7..]
    ensures Inserted(s, attribute) == head + (Addition(rest, attribute) + Inserted(rest, attribute))
  {
  }

  // ----- Erasing what was inserted

  /** The snippet cut after each opening; `marked` says whether an attribute goes there. */
  datatype Piece = Piece(text: string, marked: bool)

  function Pieces(s: string): seq<Piece>
    decreases |s|
  {
    var i := FirstOpening(s);
    if i == |s| then [Piece(s, false)] else [Piece(s[..i + 7], !HasNonce(Tag(s[i + 7..])))] + Pieces(s[i + 7..])
  }

  function Assembled(pieces: seq<Piece>, attribute: string): string {
    if pieces == [] then ""
    else pieces[0].text + ((if pieces[0].marked then attribute else "") + Assembled(pieces[1..], attribute))
  }

  lemma AssembledFirst(first: Piece, others: seq<Piece>, attribute: string)
    ensures Assembled([first] + others, attribute)
         == first.text + ((if first.marked then attribute else "") + Assembled(others, attribute))
  {
    assert ([first] + others)[1..] == others;
  }

  lemma PiecesParts(s: string, attribute: string)
    requires FirstOpening(s) < |s|
    ensures
      var head, rest := s[..FirstOpening(s) + 7], s[FirstOpening(s) + 7..];
      Assembled(Pieces(s), attribute) == head + (Addition(rest, attribute) + Assembled(Pieces(rest), attribute))
  {
    var head, rest := s[..FirstOpening(s) + 7], s[FirstOpening(s) + 7..];
    AssembledFirst(Piece(head, !HasNonce(Tag(rest))), Pieces(rest), attribute);
  }

  lemma CutInTwo(s: string, n: nat)
    requires n <= |s|
    ensures s[..n] + ("" + s[n..]) == s
  {
  }

  lemma LastPiece(s: string, attribute: string)
    requires FirstOpening(s) == |s|
    ensures Assembled(Pieces(s), attribute) == s
  {
    assert Pieces(s)[1..] == [];
    assert s + ("" + "") == s;
  }

  lemma {:induction false} InsertedIsAssembled(s: string, attribute: string)
    ensures Inserted(s, attribute) == Assembled(Pieces(s), attribute)
    decreases |s|
  {
    if FirstOpening(s) == |s| {
      LastPiece(s, attribute);
    } else {
      InsertedIsAssembled(s[FirstOpening(s) + 7..], attribute);
      PiecesParts(s, attribute);
    }
  }

  lemma {:induction false} PiecesAreTheInput(s: string)
    ensures Assembled(Pieces(s), "") == s
    decreases |s|
  {
    if FirstOpening(s) == |s| {
      LastPiece(s, "");
    } else {
      PiecesAreTheInput(s[FirstOpening(s) + 7..]);
      PiecesParts(s, "");
      CutInTwo(s, FirstOpening(s) + 7);
    }
  }

  /** The output is the input's own pieces with the attribute between some of them: leaving the attributes
      out gives back the input, character for character. */
  lemma ErasingGivesBack(snippet: string, nonce: string)
    requires nonce != "" && snippet != ""
    ensures WithNonce(snippet, nonce) == Assembled(Pieces(snippet), NonceAttribute(nonce))
    ensures snippet == Assembled(Pieces(snippet), "")
  {
    InsertedIsAssembled(snippet, NonceAttribute(nonce));
    PiecesAreTheInput(snippet);
  }

  // ----- Every opening is covered

  predicate NoBrackets(s: string) {
    forall i :: 0 <= i < |s| ==> s[i] != '<' && s[i] != '>'
  }

  predicate NoClosing(s: string) {
    forall i :: 0 <= i < |s| ==> s[i] != '>'
  }

  /** `nonce=` stands at `k`, before any closing bracket. */
  predicate CarriesAt(s: string, k: nat) {
    Matches(s, k, ATTRIBUTE) && NoClosing(s[..k + 6])
  }

  lemma TagPrefix(s: string)
    ensures |Tag(s)| <= |s| && Tag(s) == s[..|Tag(s)|] && NoClosing(Tag(s))
  {
  }

  lemma TagCarries(s: string, k: nat)
    requires k <= |Tag(s)| && Matches(Tag(s), k, ATTRIBUTE)
    ensures CarriesAt(s, k)
  {
    TagPrefix(s);
    var tag := Tag(s);
    assert s[k..k + 6] == tag[k..k + 6] && s[..k + 6] == tag[..k + 6];
  }

  lemma LongTag(s: string, n: nat)
    requires n <= |s| && NoClosing(s[..n])
    ensures n <= |Tag(s)|
  {
    forall j | 0 <= j < n ensures s[j] != '>' {
      assert s[j] == s[..n][j];
    }
  }

  lemma CarriesInTag(s: string, k: nat)
    requires CarriesAt(s, k)
    ensures HasNonce(Tag(s))
  {
    TagPrefix(s);
    LongTag(s, k + 6);
    assert s[k..k + 6] == Tag(s)[k..k + 6];
    assert Matches(Tag(s), k, ATTRIBUTE);
  }

  /** Text without a closing bracket in front of a tag that carries a nonce leaves it carrying one. */
  lemma CarriesBehind(x: string, y: string, k: nat)
    requires CarriesAt(y, k) && NoClosing(x)
    ensures CarriesAt(x + y, |x| + k)
  {
    MatchesBehind(x, y, k, ATTRIBUTE);
    assert (x + y)[..|x| + k + 6] == x + y[..k + 6];
  }

  lemma CarriedByRest(x: string, y: string, k: nat)
    requires CarriesAt(x + y, k) && |x| <= k
    ensures NoClosing(x) && CarriesAt(y, k - |x|)
  {
    MatchesBehind(x, y, k - |x|, ATTRIBUTE);
    assert (x + y)[..k + 6] == x + y[..k - |x| + 6];
    var seen := (x + y)[..k + 6];
    forall i | 0 <= i < |x| ensures x[i] != '>' {
      assert x[i] == seen[i];
    }
    var behind := y[..k - |x| + 6];
    forall i | 0 <= i < |behind| ensures behind[i] != '>' {
      assert behind[i] == seen[|x| + i];
    }
  }

  /** What stands wholly in the common front of two texts stands in both. */
  lemma CarriesInFront(x: string, y: string, z: string, k: nat)
    requires CarriesAt(x + y, k) && k + 6 <= |x|
    ensures CarriesAt(x + z, k)
  {
    MatchesInFront(x, y, z, k, ATTRIBUTE);
    assert (x + y)[..k + 6] == x[..k + 6] == (x + z)[..k + 6];
  }

  lemma OpeningEndsInT(s: string, i: nat)
    requires Matches(s, i, OPENING)
    ensures LowerChar(s[i + 6]) == 't'
  {
    MatchedChar(s, i, OPENING, 6);
  }

  lemma NoTInside(s: string, k: nat, p: nat)
    requires Matches(s, k, ATTRIBUTE) && k <= p < k + 6
    ensures LowerChar(s[p]) != 't'
  {
    MatchedChar(s, k, ATTRIBUTE, p - k);
  }

  /** No opening ends inside a `nonce=`: its last letter is not one of those. */
  lemma NoStraddle(s: string, i: nat, k: nat)
    requires Matches(s, i, OPENING) && Matches(s, k, ATTRIBUTE) && k < i + 7
    ensures k + 6 <= i + 7
  {
    OpeningEndsInT(s, i);
    if i + 6 < k + 6 {
      NoTInside(s, k, i + 6);
    }
  }

  lemma NonceInFront(s: string, i: nat, after: string, k: nat)
    requires Matches(s, i, OPENING) && CarriesAt(s, k) && k < i + 7
    ensures CarriesAt(s[..i + 7] + after, k)
  {
    NoStraddle(s, i, k);
    assert s == s[..i + 7] + s[i + 7..];
    CarriesInFront(s[..i + 7], s[i + 7..], after, k);
  }

  lemma NonceBehind(s: string, n: nat, k: nat)
    requires CarriesAt(s, k) && n <= k && n <= |s|
    ensures NoClosing(s[..n]) && CarriesAt(s[n..], k - n)
  {
    assert s == s[..n] + s[n..];
    CarriedByRest(s[..n], s[n..], k);
  }

  lemma AdditionClean(rest: string, attribute: string)
    requires NoBrackets(attribute)
    ensures NoBrackets(Addition(rest, attribute)) && NoClosing(Addition(rest, attribute))
  {
  }

  lemma NonceInRest(head: string, middle: string, tail: string, k: nat) returns (k': nat)
    requires NoClosing(head) && NoClosing(middle) && CarriesAt(tail, k)
    ensures CarriesAt(head + (middle + tail), k')
  {
    CarriesBehind(middle, tail, k);
    CarriesBehind(head, middle + tail, |middle| + k);
    k' := |head| + (|middle| + k);
  }

  lemma KeepsInFront(s: string, attribute: string, k: nat)
    requires FirstOpening(s) < |s| && CarriesAt(s, k) && k < FirstOpening(s) + 7
    ensures CarriesAt(Inserted(s, attribute), k)
  {
    var i := FirstOpening(s);
    OpeningThere(s);
    NonceInFront(s, i, Addition(s[i + 7..], attribute) + Inserted(s[i + 7..], attribute), k);
  }

  lemma KeepsBehind(s: string, attribute: string, k: nat) returns (k': nat)
    requires FirstOpening(s) < |s| && NoBrackets(attribute) && NoClosing(s[..FirstOpening(s) + 7])
    requires CarriesAt(Inserted(s[FirstOpening(s) + 7..], attribute), k)
    ensures CarriesAt(Inserted(s, attribute), k')
  {
    var rest := s[FirstOpening(s) + 7..];
    AdditionClean(rest, attribute);
    k' := NonceInRest(s[..FirstOpening(s) + 7], Addition(rest, attribute), Inserted(rest, attribute), k);
  }

  /** Insertion never takes a nonce away from a tag that has one. */
  lemma {:induction false} InsertionKeepsNonce(s: string, attribute: string, k: nat) returns (k': nat)
    requires NoBrackets(attribute) && CarriesAt(s, k)
    ensures CarriesAt(Inserted(s, attribute), k')
    decreases |s|
  {
    var n := FirstOpening(s) + 7;
    if FirstOpening(s) == |s| {
      k' := k;
    } else if k < n {
      KeepsInFront(s, attribute, k);
      k' := k;
    } else {
      NonceBehind(s, n, k);
      var k0 := InsertionKeepsNonce(s[n..], attribute, k - n);
      k' := KeepsBehind(s, attribute, k0);
    }
  }

  /** Every script opening carries `nonce=` before its tag closes. */
  predicate Covered(s: string) {
    forall i: nat :: i < |s| && Matches(s, i, OPENING) ==> HasNonce(Tag(s[i + 7..]))
  }

  lemma AttributeCarries(attribute: string, tail: string, k: nat)
    requires NoBrackets(attribute) && Matches(attribute, k, ATTRIBUTE)
    ensures HasNonce(Tag(attribute + tail))
  {
    assert attribute + "" == attribute;
    CarriesInFront(attribute, "", tail, k);
    CarriesInTag(attribute + tail, k);
  }

  /** The opening just found is covered once the attribute has gone in or was there before. */
  lemma FoundIsCovered(rest: string, attribute: string, k: nat)
    requires NoBrackets(attribute) && Matches(attribute, k, ATTRIBUTE)
    ensures HasNonce(Tag(Addition(rest, attribute) + Inserted(rest, attribute)))
  {
    var tail := Inserted(rest, attribute);
    if HasNonce(Tag(rest)) {
      var k0: nat :| k0 <= |Tag(rest)| && Matches(Tag(rest), k0, ATTRIBUTE);
      TagCarries(rest, k0);
      var k1 := InsertionKeepsNonce(rest, attribute, k0);
      CarriesInTag(tail, k1);
      assert "" + tail == tail;
    } else {
      AttributeCarries(attribute, tail, k);
    }
  }

  lemma OpeningIsBracket(s: string, j: nat)
    requires Matches(s, j, OPENING)
    ensures s[j] == '<'
  {
    MatchedChar(s, j, OPENING, 0);
  }

  lemma NoBracketInside(s: string, i: nat, p: nat)
    requires Matches(s, i, OPENING) && i < p < i + 7
    ensures s[p] != '<'
  {
    MatchedChar(s, i, OPENING, p - i);
  }

  lemma NoneAtOther(s: string, j: nat)
    requires j < |s| && s[j] != '<'
    ensures !Matches(s, j, OPENING)
  {
    if Matches(s, j, OPENING) {
      OpeningIsBracket(s, j);
    }
  }

  /** No opening of the assembled text starts in front of the found one. */
  lemma NoneInFront(s: string, i: nat, back: string, j: nat)
    requires i == FirstOpening(s) && i < |s| && j < i
    ensures !Matches(s[..i + 7] + back, j, OPENING)
  {
    NoneBefore(s, j);
    assert s == s[..i + 7] + s[i + 7..];
    MatchesInFront(s[..i + 7], back, s[i + 7..], j, OPENING);
  }

  /** None starts inside it. */
  lemma NoneInside(s: string, i: nat, back: string, j: nat)
    requires Matches(s, i, OPENING) && i < j < i + 7
    ensures !Matches(s[..i + 7] + back, j, OPENING)
  {
    NoBracketInside(s, i, j);
    assert (s[..i + 7] + back)[j] == s[j];
    NoneAtOther(s[..i + 7] + back, j);
  }

  /** And none in the attribute behind it. */
  lemma NoneInAddition(middle: string, tail: string, j: nat)
    requires NoBrackets(middle) && j < |middle|
    ensures !Matches(middle + tail, j, OPENING)
  {
    assert (middle + tail)[j] == middle[j];
    NoneAtOther(middle + tail, j);
  }

  lemma NothingToCover(s: string)
    requires FirstOpening(s) == |s|
    ensures Covered(s)
  {
    forall j: nat | j < |s| ensures !Matches(s, j, OPENING) {
      NoneBefore(s, j);
    }
  }

  lemma {:induction false} InsertionCovers(s: string, attribute: string, k: nat)
    requires NoBrackets(attribute) && Matches(attribute, k, ATTRIBUTE)
    ensures Covered(Inserted(s, attribute))
    decreases |s|
  {
    if FirstOpening(s) == |s| {
      NothingToCover(s);
    } else {
      InsertionCovers(s[FirstOpening(s) + 7..], attribute, k);
      CoveredWithFirst(s, attribute, k);
    }
  }

  lemma CoveredWithFirst(s: string, attribute: string, k: nat)
    requires NoBrackets(attribute) && Matches(attribute, k, ATTRIBUTE) && FirstOpening(s) < |s|
    requires Covered(Inserted(s[FirstOpening(s) + 7..], attribute))
    ensures Covered(Inserted(s, attribute))
  {
    var i := FirstOpening(s);
    var head, rest := s[..i + 7], s[i + 7..];
    InsertedParts(s, head, rest, attribute);
    var middle, tail := Addition(rest, attribute), Inserted(rest, attribute);
    RestCovered(rest, attribute, k, middle, tail);
    FrontCovered(s, i, middle + tail);
  }

  lemma RestCovered(rest: string, attribute: string, k: nat, middle: string, tail: string)
    requires NoBrackets(attribute) && Matches(attribute, k, ATTRIBUTE)
    requires middle == Addition(rest, attribute) && tail == Inserted(rest, attribute) && Covered(tail)
    ensures HasNonce(Tag(middle + tail)) && Covered(middle + tail)
  {
    FoundIsCovered(rest, attribute, k);
    AdditionClean(rest, attribute);
    BehindCovered(middle, tail);
  }

  lemma BehindCovered(middle: string, tail: string)
    requires NoBrackets(middle) && Covered(tail)
    ensures Covered(middle + tail)
  {
    var back := middle + tail;
    forall j: nat | j < |back| && Matches(back, j, OPENING) ensures HasNonce(Tag(back[j + 7..])) {
      if j < |middle| {
        NoneInAddition(middle, tail, j);
      } else {
        TailOpening(middle, tail, j);
      }
    }
  }

  lemma TailOpening(front: string, tail: string, j: nat)
    requires Covered(tail) && |front| <= j && Matches(front + tail, j, OPENING)
    ensures HasNonce(Tag((front + tail)[j + 7..]))
  {
    MatchesBehind(front, tail, j - |front|, OPENING);
    assert (front + tail)[j + 7..] == tail[j - |front| + 7..];
  }

  lemma FrontCovered(s: string, i: nat, back: string)
    requires i == FirstOpening(s) && i < |s| && HasNonce(Tag(back)) && Covered(back)
    ensures Covered(s[..i + 7] + back)
  {
    var out := s[..i + 7] + back;
    OpeningThere(s);
    forall j: nat | j < |out| && Matches(out, j, OPENING) ensures HasNonce(Tag(out[j + 7..])) {
      if j < i {
        NoneInFront(s, i, back, j);
      } else if j == i {
        assert out[i + 7..] == back;
      } else if j < i + 7 {
        NoneInside(s, i, back, j);
      } else {
        TailOpening(s[..i + 7], back, j);
      }
    }
  }

  lemma CoveredRest(s: string, n: nat)
    requires Covered(s) && n <= |s|
    ensures Covered(s[n..])
  {
    var rest := s[n..];
    assert s[..n] + rest == s;
    forall j: nat | j < |rest| && Matches(rest, j, OPENING) ensures HasNonce(Tag(rest[j + 7..])) {
      MatchesBehind(s[..n], rest, j, OPENING);
      assert rest[j + 7..] == s[n + j + 7..];
    }
  }

  lemma {:induction false} CoveredUnchanged(s: string, attribute: string)
    requires Covered(s)
    ensures Inserted(s, attribute) == s
    decreases |s|
  {
    var i := FirstOpening(s);
    if i < |s| {
      OpeningThere(s);
      assert HasNonce(Tag(s[i + 7..]));
      CoveredRest(s, i + 7);
      CoveredUnchanged(s[i + 7..], attribute);
      CutInTwo(s, i + 7);
    }
  }

  // ----- The nonce attribute

  lemma {:induction false} EscapedHasNoBrackets(s: string)
    ensures NoBrackets(Escaped(s))
  {
    if s != "" {
      EscapedHasNoBrackets(s[..|s| - 1]);
    }
  }

  /** A character that would end the attribute or its tag, or begin an escape. */
  predicate Special(c: char) {
    c in {'<', '>', '&', '\'', '"'}
  }

  /** Nothing in it leaves an attribute value. */
  predicate StaysInside(s: string) {
    forall i :: 0 <= i < |s| ==> s[i] !in {'<', '>', '\'', '"'}
  }

  predicate Plain(s: string) {
    forall i :: 0 <= i < |s| ==> !Special(s[i])
  }

  lemma InsideJoins(x: string, y: string)
    requires StaysInside(x) && StaysInside(y)
    ensures StaysInside(x + y)
  {
  }

  lemma CharStaysInside(c: char)
    ensures StaysInside(EscapedChar(c)) && (!Special(c) ==> EscapedChar(c) == [c])
  {
  }

  lemma {:induction false} EscapedStaysInside(s: string)
    ensures StaysInside(Escaped(s)) && (Plain(s) ==> Escaped(s) == s)
  {
    if s != "" {
      var front, last := s[..|s| - 1], s[|s| - 1];
      EscapedStaysInside(front);
      CharStaysInside(last);
      InsideJoins(Escaped(front), EscapedChar(last));
      assert s == front + [last];
    }
  }

  /** The attribute's value cannot leave its quotes, and is the nonce itself when that needs no escaping, as the base64
      nonces the server draws do not. */
  lemma AttributeValue(nonce: string)
    ensures
      var attribute := NonceAttribute(nonce);
      && |attribute| >= 9 && attribute[..8] == " nonce=\"" && attribute[|attribute| - 1] == '"'
      && (forall i :: 8 <= i < |attribute| - 1 ==> attribute[i] !in {'<', '>', '\'', '"'})
      && (Plain(nonce) ==> attribute == " nonce=\"" + nonce + "\"")
  {
    EscapedStaysInside(nonce);
    var attribute := NonceAttribute(nonce);
    forall i | 8 <= i < |attribute| - 1 ensures attribute[i] == Escaped(nonce)[i - 8] {
    }
  }

  lemma AttributeIsNonce(nonce: string)
    ensures NoBrackets(NonceAttribute(nonce)) && Matches(NonceAttribute(nonce), 1, ATTRIBUTE)
  {
    EscapedHasNoBrackets(nonce);
    assert NonceAttribute(nonce)[1..7] == ATTRIBUTE;
  }

  /** With a nonce, every script opening of the result carries one before its first closing bracket. */
  lemma EveryScriptCarriesNonce(snippet: string, nonce: string)
    requires nonce != ""
    ensures Covered(WithNonce(snippet, nonce))
  {
    AttributeIsNonce(nonce);
    InsertionCovers(snippet, NonceAttribute(nonce), 1);
  }

  /** A second application, with whatever nonce, changes nothing. */
  lemma SecondTimeIsIdentity(snippet: string, nonce: string, another: string)
    requires nonce != ""
    ensures WithNonce(WithNonce(snippet, nonce), another) == WithNonce(snippet, nonce)
  {
    EveryScriptCarriesNonce(snippet, nonce);
    CoveredUnchanged(WithNonce(snippet, nonce), NonceAttribute(another));
  }

  /** A snippet whose scripts all carry a nonce is left alone, and only such a one is. */
  lemma UnchangedIffCovered(snippet: string, nonce: string)
    requires nonce != ""
    ensures WithNonce(snippet, nonce) == snippet <==> Covered(snippet)
  {
    if Covered(snippet) {
      CoveredUnchanged(snippet, NonceAttribute(nonce));
    } else {
      EveryScriptCarriesNonce(snippet, nonce);
    }
  }
}
