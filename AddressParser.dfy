/**
 * `parse_adresse` of the address migration: a best-effort split of a free-text Swiss
 * address into street, house number, postal code and city.
 *
 * The text is cut into its non-blank lines (each stripped). The first line is matched
 * against `^(.+?)\s+(\d+[a-zA-Z]?)$` (street, then a house number at the end); the last
 * line, when there are at least two, against `^(\d{4})\s+(.+)$` (postal code, city).
 * Both regular expressions are modelled by hand below, as predicates on positions of
 * the line.
 */
module AddressParser {
  import opened Wrappers
  import opened Text

  /** The four fields `parse_adresse` returns; `None` where nothing was recognised. */
  datatype Address = Address(
    strasse: Option<string>,
    hausnummer: Option<string>,
    plz: Option<string>,
    stadt: Option<string>)

  const Unparsed: Address := Address(None, None, None, None)

  /** Lines as the parser receives them: no line feed inside, as `split('\n')` guarantees. */
  predicate OneLine(line: string) {
    '\n' !in line
  }

  // ---------------------------------------------------------------------------------
  // The first line: `^(.+?)\s+(\d+[a-zA-Z]?)$`

  /** `\d+[a-zA-Z]?` matching all of `s`: digits, then at most one ASCII letter. */
  predicate IsHouseNumber(s: string) {
    (|s| >= 1 && AllDigits(s)) || (|s| >= 2 && AllDigits(s[..|s| - 1]) && IsLetter(s[|s| - 1]))
  }

  /** `\d+[a-zA-Z]?$` matching `line` from position `j` to its end. */
  predicate HouseNumberAt(line: string, j: nat) {
    && j < |line|
    && (|| DigitsIn(line, j, |line|)
        || (j + 2 <= |line| && DigitsIn(line, j, |line| - 1) && IsLetter(line[|line| - 1])))
  }

  lemma HouseNumberAtSlice(line: string, j: nat)
    requires j < |line|
    ensures HouseNumberAt(line, j) <==> IsHouseNumber(line[j..])
  {
    var s := line[j..];
    assert forall i :: 0 <= i < |s| ==> s[i] == line[j + i];
    if |s| >= 1 {
      var digits := s[..|s| - 1];
      assert forall i :: 0 <= i < |digits| ==> digits[i] == line[j + i];
    }
  }

  /** A house number starts with a digit and ends with a digit or letter. */
  lemma HouseNumberStripped(s: string)
    requires IsHouseNumber(s)
    ensures s != [] && Stripped(s)
    ensures forall i :: 0 <= i < |s| ==> !IsSpace(s[i])
  {
    if !AllDigits(s) {
      var digits := s[..|s| - 1];
      assert forall i :: 0 <= i < |digits| ==> digits[i] == s[i];
    }
  }

  /** A house number holds no whitespace. */
  lemma HouseNumberHasNoSpace(line: string, j: nat, i: int)
    requires HouseNumberAt(line, j) && j <= i < |line|
    ensures !IsSpace(line[i])
  {
  }

  /** `\s+\d+[a-zA-Z]?$` matching `line` from position `k` to its end. */
  predicate NumberTailAt(line: string, k: nat) {
    exists j :: k < j < |line| && SpacesIn(line, k, j) && HouseNumberAt(line, j)
  }

  /**
   * The lazy group `(.+?)`: the regex engine tries the shortest street first, so the
   * match splits at the least position `k >= 1` from which the rest of the pattern
   * matches. This searches the positions from `k` upwards as the engine does.
   */
  function FindStreetSplit(line: string, k: nat): (r: Option<nat>)
    ensures r.Some? ==> k <= r.value < |line| && NumberTailAt(line, r.value)
    ensures forall i :: k <= i < (if r.Some? then r.value else |line|) ==> !NumberTailAt(line, i)
    decreases |line| - k
  {
    if k >= |line| then None
    else if NumberTailAt(line, k) then Some(k)
    else FindStreetSplit(line, k + 1)
  }

  /** Where `\s+` stops, the house number starts. */
  lemma NumberAfterSpaces(line: string, k: nat)
    requires k < |line| && NumberTailAt(line, k)
    ensures var j := SkipSpaces(line, k); k < j && HouseNumberAt(line, j)
  {
    var j :| k < j < |line| && SpacesIn(line, k, j) && HouseNumberAt(line, j);
    HouseNumberHasNoSpace(line, j, j);
    assert SkipSpaces(line, k) == j;
  }

  /**
   * `re.match(r'^(.+?)\s+(\d+[a-zA-Z]?)$', line)`: `None` when it does not match,
   * otherwise groups 1 and 2, with whitespace between them.
   */
  function MatchStreet(line: string): (m: Option<(string, string)>)
    requires OneLine(line)
    ensures m.Some? ==>
      var (street, number) := m.value;
      && 1 <= |street| && |street| + |number| < |line|
      && street == line[..|street|] && number == line[|line| - |number|..]
      && SpacesIn(line, |street|, |line| - |number|)
      && HouseNumberAt(line, |line| - |number|)
      && forall i :: 1 <= i < |street| ==> !NumberTailAt(line, i)
  {
    match FindStreetSplit(line, 1)
    case None => None
    case Some(k) =>
      NumberAfterSpaces(line, k);
      Some((line[..k], line[SkipSpaces(line, k)..]))
  }

  /** Street and house number from the first line (lines 22-29 of the migration script). */
  function FirstLine(line: string): (r: (string, Option<string>))
    requires OneLine(line)
    ensures r.1.None? ==> r.0 == line
    ensures r.1.Some? ==> IsHouseNumber(r.1.value)
  {
    match MatchStreet(line)
    case Some((street, number)) =>
      MatchedNumber(line, street, number);
      (Strip(street), Some(Strip(number)))
    case None => (line, None)
  }

  // ---------------------------------------------------------------------------------
  // The last line: `^(\d{4})\s+(.+)$`

  /**
   * `re.match(r'^(\d{4})\s+(.+)$', line)`: four digits, whitespace, and at least one more
   * character. The greedy `\s+` takes all the whitespace it can while leaving `.+` one
   * character.
   */
  function MatchPostal(line: string): (m: Option<(string, string)>)
    requires OneLine(line)
    ensures m.Some? <==> |line| >= 6 && DigitsIn(line, 0, 4) && IsSpace(line[4])
    ensures m.Some? ==>
      var (plz, rest) := m.value;
      && plz == line[..4]
      && 1 <= |rest| <= |line| - 5
      && rest == line[|line| - |rest|..]
      && SpacesIn(line, 4, |line| - |rest|)
      && (|rest| == 1 || !IsSpace(rest[0]))
  {
    if |line| >= 6 && DigitsIn(line, 0, 4) && IsSpace(line[4]) then
      var j := SkipSpaces(line, 4);
      var start := if j < |line| then j else |line| - 1;
      Some((line[..4], line[start..]))
    else None
  }

  /** Postal code and city from the last line (lines 32-37 of the migration script). */
  function LastLine(line: string): (r: (Option<string>, Option<string>))
    requires OneLine(line)
    ensures r.0.Some? <==> r.1.Some?
    ensures r.0.Some? ==> |r.0.value| == 4 && AllDigits(r.0.value)
  {
    match MatchPostal(line)
    case Some((plz, city)) =>
      assert forall i :: 0 <= i < 4 ==> plz[i] == line[i];
      (Some(plz), Some(Strip(city)))
    case None => (None, None)
  }

  // ---------------------------------------------------------------------------------
  // The lines and the whole parse

  /** Pieces as `split('\n')` leaves them: none holds a line feed. */
  predicate AllOneLine(pieces: seq<string>) {
    forall i :: 0 <= i < |pieces| ==> OneLine(pieces[i])
  }

  /** `[l.strip() for l in pieces if l.strip()]`. */
  function NonBlank(pieces: seq<string>): (ls: seq<string>)
    requires AllOneLine(pieces)
    ensures |ls| <= |pieces|
    ensures forall i :: 0 <= i < |ls| ==> ls[i] != []
    ensures forall i :: 0 <= i < |ls| ==> Stripped(ls[i])
    ensures forall i :: 0 <= i < |ls| ==> OneLine(ls[i])
  {
    if pieces == [] then []
    else
      var l := Strip(pieces[0]);
      assert OneLine(pieces[0]);
      StripAvoids(pieces[0], '\n');
      var rest := NonBlank(pieces[1..]);
      if l != [] then
        CleanCons(l, rest);
        [l] + rest
      else rest
  }

  lemma CleanCons(l: string, rest: seq<string>)
    requires l != [] && Stripped(l) && OneLine(l) && CleanLines(rest)
    ensures CleanLines([l] + rest)
  {
    var ls := [l] + rest;
    forall i | 0 <= i < |ls| ensures ls[i] != [] && Stripped(ls[i]) && OneLine(ls[i]) {
      if i > 0 {
        assert ls[i] == rest[i - 1];
      }
    }
  }

  /** `[l.strip() for l in text.strip().split('\n') if l.strip()]` (line 14). */
  function Lines(text: string): (ls: seq<string>)
    ensures forall i :: 0 <= i < |ls| ==> ls[i] != []
    ensures forall i :: 0 <= i < |ls| ==> Stripped(ls[i])
    ensures forall i :: 0 <= i < |ls| ==> OneLine(ls[i])
  {
    NonBlank(SplitOn(Strip(text), '\n'))
  }

  /** Lines 16-39: the four fields from the non-blank lines. */
  function ParseLines(ls: seq<string>): (a: Address)
    requires forall i :: 0 <= i < |ls| ==> OneLine(ls[i])
    ensures a.strasse.Some? <==> |ls| >= 1
    ensures |ls| <= 1 ==> a.plz.None? && a.stadt.None?
  {
    if |ls| == 0 then Unparsed
    else
      var first := FirstLine(ls[0]);
      var last := if |ls| >= 2 then LastLine(ls[|ls| - 1]) else (None, None);
      Address(Some(first.0), first.1, last.0, last.1)
  }

  /** `parse_adresse(adresse_text)`; `None` stands for Python's `None`. */
  function ParseAdresse(text: Option<string>): (a: Address)
    ensures text.None? || text == Some("") ==> a == Unparsed
  {
    if text.None? || text.value == "" then Unparsed
    else ParseLines(Lines(text.value))
  }

  // ---------------------------------------------------------------------------------
  // Properties of the first line

  /**
   * Composing direction: a street that ends in a non-blank character, whitespace and a
   * house number are taken apart again into that street and that number.
   */
  lemma StreetAndNumber(street: string, gap: string, number: string)
    requires street != [] && !IsSpace(street[|street| - 1])
    requires gap != [] && AllSpace(gap)
    requires IsHouseNumber(number)
    requires OneLine(street + gap + number)
    ensures FirstLine(street + gap + number) == (Strip(street), Some(number))
  {
    var line := street + gap + number;
    var p, q := |street|, |street| + |gap|;
    assert line[..p] == street;
    assert line[q..] == number;
    assert line[p - 1] == street[p - 1];
    assert SpacesIn(line, p, q) by {
      forall i | p <= i < q ensures IsSpace(line[i]) {
        assert line[i] == gap[i - p];
      }
    }
    HouseNumberAtSlice(line, q);
    SplitFound(line, p, q);
    HouseNumberStripped(number);
  }

  /** The street ends at `p`, before the whitespace, when the character there is not blank. */
  lemma SplitFound(line: string, p: nat, q: nat)
    requires OneLine(line)
    requires 1 <= p < q < |line| && !IsSpace(line[p - 1])
    requires SpacesIn(line, p, q) && HouseNumberAt(line, q)
    ensures MatchStreet(line) == Some((line[..p], line[q..]))
  {
    assert NumberTailAt(line, p);
    var r := FindStreetSplit(line, 1);
    assert r.Some? && r.value <= p;
    var k := r.value;
    if k < p {
      var j :| k < j < |line| && SpacesIn(line, k, j) && HouseNumberAt(line, j);
      if j < p {
        HouseNumberHasNoSpace(line, j, p);
      }
      assert false;
    }
    HouseNumberHasNoSpace(line, q, q);
    assert SkipSpaces(line, p) == q;
  }

  /**
   * Analysing direction, for the stripped lines the parser sees: either no house number
   * was found and the street is the whole line, or the line is the street, whitespace
   * and the house number, and the street is itself stripped.
   */
  lemma FirstLineShape(line: string)
    requires OneLine(line) && Stripped(line) && line != []
    ensures FirstLine(line).1.None? ==>
      FirstLine(line).0 == line && forall k :: 1 <= k < |line| ==> !NumberTailAt(line, k)
    ensures FirstLine(line).1.Some? ==>
      StreetNumberSplit(line, FirstLine(line).0, FirstLine(line).1.value)
  {
    var m := MatchStreet(line);
    if m.Some? {
      FirstLineMatched(line, m.value.0, m.value.1);
    } else {
      assert FindStreetSplit(line, 1).None?;
    }
  }

  lemma FirstLineMatched(line: string, street: string, number: string)
    requires OneLine(line) && Stripped(line) && line != []
    requires MatchStreet(line) == Some((street, number))
    ensures FirstLine(line) == (street, Some(number))
    ensures StreetNumberSplit(line, street, number)
  {
    MatchedStreetStripped(line, street, number);
    MatchedNumber(line, street, number);
  }

  /** `line` is a non-empty stripped street, whitespace, and the house number `number`. */
  predicate StreetNumberSplit(line: string, street: string, number: string) {
    && street != [] && Stripped(street) && IsHouseNumber(number)
    && |street| + |number| < |line|
    && street == line[..|street|]
    && number == line[|line| - |number|..]
    && SpacesIn(line, |street|, |line| - |number|)
  }

  /** Group 2 is a house number, so stripping it changes nothing. */
  lemma MatchedNumber(line: string, street: string, number: string)
    requires OneLine(line)
    requires MatchStreet(line) == Some((street, number))
    ensures IsHouseNumber(number) && Strip(number) == number
  {
    HouseNumberAtSlice(line, |line| - |number|);
    HouseNumberStripped(number);
  }

  /** The lazy group never ends in whitespace: one position less would also have matched. */
  lemma MatchedStreetStripped(line: string, street: string, number: string)
    requires OneLine(line) && Stripped(line) && line != []
    requires MatchStreet(line) == Some((street, number))
    ensures Stripped(street) && Strip(street) == street
  {
    var e := |street| - 1;
    var j := |line| - |number|;
    assert street[0] == line[0];
    assert street[e] == line[e];
    if e >= 1 && IsSpace(line[e]) {
      assert SpacesIn(line, e, j);
      assert NumberTailAt(line, e);
      assert false;
    }
  }

  // ---------------------------------------------------------------------------------
  // Properties of the last line

  /** Composing direction: four digits, whitespace and a city are taken apart again. */
  lemma PostalAndCity(plz: string, gap: string, city: string)
    requires |plz| == 4 && AllDigits(plz)
    requires gap != [] && AllSpace(gap)
    requires city != [] && !IsSpace(city[0])
    requires OneLine(plz + gap + city)
    ensures LastLine(plz + gap + city) == (Some(plz), Some(Strip(city)))
  {
    var line := plz + gap + city;
    var q := 4 + |gap|;
    assert line[..4] == plz;
    assert line[q..] == city;
    assert DigitsIn(line, 0, 4) by {
      forall i | 0 <= i < 4 ensures IsDigit(line[i]) {
        assert line[i] == plz[i];
      }
    }
    assert SpacesIn(line, 4, q) by {
      forall i | 4 <= i < q ensures IsSpace(line[i]) {
        assert line[i] == gap[i - 4];
      }
    }
    assert line[4] == gap[0];
    assert line[q] == city[0];
    assert SkipSpaces(line, 4) == q;
  }

  /**
   * Analysing direction, for stripped lines: a postal code is found exactly when the line
   * starts with four digits and whitespace and goes on; it is those four digits, and the
   * city is the stripped, non-empty rest after the whitespace.
   */
  lemma LastLineShape(line: string)
    requires OneLine(line) && Stripped(line)
    ensures var (plz, city) := LastLine(line);
      && (plz.Some? <==> |line| >= 6 && DigitsIn(line, 0, 4) && IsSpace(line[4]))
      && (plz.Some? <==> city.Some?)
      && (plz.Some? ==>
            && plz.value == line[..4] && AllDigits(plz.value)
            && city.value != [] && Stripped(city.value)
            && |city.value| <= |line| - 5
            && city.value == line[|line| - |city.value|..]
            && SpacesIn(line, 4, |line| - |city.value|))
  {
    var m := MatchPostal(line);
    if m.Some? {
      PostalFound(line, m.value.0, m.value.1);
    }
  }

  /** The two groups of a postal-code match on a stripped line: four digits and a stripped rest. */
  lemma PostalFound(line: string, plz: string, rest: string)
    requires OneLine(line) && Stripped(line)
    requires MatchPostal(line) == Some((plz, rest))
    ensures AllDigits(plz) && plz == line[..4]
    ensures rest != [] && Stripped(rest) && Strip(rest) == rest
    ensures |rest| <= |line| - 5 && rest == line[|line| - |rest|..]
    ensures SpacesIn(line, 4, |line| - |rest|)
  {
    assert forall i :: 0 <= i < 4 ==> plz[i] == line[i];
    assert rest[|rest| - 1] == line[|line| - 1];
  }

  /** With no digit among its last two characters the line holds no house number at its end. */
  lemma NoHouseNumber(line: string)
    requires OneLine(line) && line != [] && !IsDigit(line[|line| - 1])
    requires |line| < 2 || !IsDigit(line[|line| - 2])
    ensures FirstLine(line) == (line, None)
  {
    if MatchStreet(line).Some? {
      assert false;
    }
  }

  // ---------------------------------------------------------------------------------
  // Properties of the line split and of the whole parse

  /** Lines that are already non-blank and stripped are all kept, unchanged. */
  lemma {:induction false} NonBlankKeeps(ls: seq<string>)
    requires forall i :: 0 <= i < |ls| ==> ls[i] != [] && Stripped(ls[i]) && OneLine(ls[i])
    ensures NonBlank(ls) == ls
  {
    if ls != [] {
      NonBlankKeeps(ls[1..]);
      assert [ls[0]] + ls[1..] == ls;
    }
  }

  /** One piece is kept, stripped, exactly when it is not blank. */
  lemma NonBlankOne(p: string)
    requires OneLine(p)
    ensures NonBlank([p]) == if AllSpace(p) then [] else [Strip(p)]
  {
    assert [p][1..] == [];
  }

  /** The filter works piece by piece: it distributes over concatenation, keeping order. */
  lemma {:induction false} NonBlankAppend(ps: seq<string>, qs: seq<string>)
    requires AllOneLine(ps)
    requires AllOneLine(qs)
    ensures NonBlank(ps + qs) == NonBlank(ps) + NonBlank(qs)
  {
    if ps == [] {
      assert ps + qs == qs;
    } else {
      assert (ps + qs)[0] == ps[0];
      assert (ps + qs)[1..] == ps[1..] + qs;
      NonBlankAppend(ps[1..], qs);
    }
  }

  /**
   * The outer `strip()` of line 14 changes nothing: the lines are the non-blank pieces of
   * the text itself, stripped and in order.
   */
  lemma LinesOfPieces(text: string)
    ensures Lines(text) == NonBlank(SplitOn(text, '\n'))
  {
    var right := StripRight(text);
    LeadingSpaceIgnored(right);
    TrailingSpaceIgnored(text);
  }

  /** Lines of pieces joined with line feeds are the non-blank pieces, stripped. */
  lemma LinesOfJoinedPieces(ps: seq<string>)
    requires |ps| >= 1 && AllOneLine(ps)
    ensures Lines(Join(ps, '\n')) == NonBlank(ps)
  {
    LinesOfPieces(Join(ps, '\n'));
    SplitJoin(ps, '\n');
  }

  /** `lstrip()` before splitting does not change the non-blank pieces. */
  lemma {:induction false} LeadingSpaceIgnored(s: string)
    ensures NonBlank(SplitOn(StripLeft(s), '\n')) == NonBlank(SplitOn(s, '\n'))
  {
    if s != [] && IsSpace(s[0]) {
      LeadingSpaceIgnored(s[1..]);
      DropLeadingSpace(s);
    }
  }

  lemma DropLeadingSpace(s: string)
    requires s != [] && IsSpace(s[0])
    ensures NonBlank(SplitOn(s, '\n')) == NonBlank(SplitOn(s[1..], '\n'))
  {
    var ps, rest := SplitOn(s, '\n'), SplitOn(s[1..], '\n');
    if s[0] == '\n' {
      assert ps == [[]] + rest;
      assert ps[1..] == rest;
    } else {
      assert ps == [[s[0]] + rest[0]] + rest[1..];
      StripSpaceCons(s[0], rest[0]);
      SameHead(ps, rest);
    }
  }

  /** `rstrip()` before splitting does not change the non-blank pieces. */
  lemma {:induction false} TrailingSpaceIgnored(s: string)
    ensures NonBlank(SplitOn(StripRight(s), '\n')) == NonBlank(SplitOn(s, '\n'))
  {
    if s != [] && IsSpace(s[|s| - 1]) {
      var t, c := s[..|s| - 1], s[|s| - 1];
      TrailingSpaceIgnored(t);
      assert s == t + [c];
      if c == '\n' {
        DropTrailingSep(t);
      } else {
        DropTrailingOther(t, c);
      }
    }
  }

  lemma DropTrailingSep(t: string)
    ensures NonBlank(SplitOn(t + ['\n'], '\n')) == NonBlank(SplitOn(t, '\n'))
  {
    SplitSnocSep(t, '\n');
    BlankLastDropped(SplitOn(t, '\n'));
  }

  lemma DropTrailingOther(t: string, c: char)
    requires IsSpace(c) && c != '\n'
    ensures NonBlank(SplitOn(t + [c], '\n')) == NonBlank(SplitOn(t, '\n'))
  {
    var ps := SplitOn(t, '\n');
    var init, last := ps[..|ps| - 1], ps[|ps| - 1];
    SplitSnocOther(t, c, '\n');
    SplitLast(ps);
    StripSpaceSnoc(last, c);
    assert OneLine(last + [c]);
    SameLast(init, last + [c], last);
  }

  /** An empty piece at the end is dropped. */
  lemma BlankLastDropped(ps: seq<string>)
    requires AllOneLine(ps)
    ensures NonBlank(ps + [[]]) == NonBlank(ps)
  {
    var none: seq<string> := [[]];
    assert AllOneLine(none);
    NonBlankAppend(ps, none);
    NonBlankOne([]);
    AppendEmpty(NonBlank(ps));
  }

  lemma AppendEmpty<T>(s: seq<T>)
    ensures s + [] == s
  {
  }

  /** Two piece lists that differ only in a first piece that strips alike filter alike. */
  lemma SameHead(ps: seq<string>, qs: seq<string>)
    requires AllOneLine(ps) && AllOneLine(qs)
    requires |ps| == |qs| >= 1 && ps[1..] == qs[1..] && Strip(ps[0]) == Strip(qs[0])
    ensures NonBlank(ps) == NonBlank(qs)
  {
  }

  /** Two last pieces that strip alike filter alike after the same front. */
  lemma SameLast(init: seq<string>, p: string, q: string)
    requires AllOneLine(init) && OneLine(p) && OneLine(q) && Strip(p) == Strip(q)
    ensures AllOneLine(init + [p]) && AllOneLine(init + [q])
    ensures NonBlank(init + [p]) == NonBlank(init + [q])
  {
    OneLineSnoc(init, p);
    OneLineSnoc(init, q);
    NonBlankAppend(init, [p]);
    NonBlankAppend(init, [q]);
    NonBlankOne(p);
    NonBlankOne(q);
  }

  lemma OneLineSnoc(init: seq<string>, p: string)
    requires AllOneLine(init) && OneLine(p)
    ensures AllOneLine([p]) && AllOneLine(init + [p])
  {
    forall i | 0 <= i < |init| + 1 ensures OneLine((init + [p])[i]) {
      if i < |init| {
        assert (init + [p])[i] == init[i];
      }
    }
  }

  /** A list of pieces is its front and its last piece. */
  lemma SplitLast(ps: seq<string>)
    requires AllOneLine(ps) && ps != []
    ensures AllOneLine(ps[..|ps| - 1]) && AllOneLine([ps[|ps| - 1]])
    ensures ps == ps[..|ps| - 1] + [ps[|ps| - 1]]
  {
  }

  lemma BlankMiddleDropped(a: string, b: string, c: string)
    requires OneLine(a) && OneLine(b) && OneLine(c)
    requires !AllSpace(a) && AllSpace(b) && !AllSpace(c)
    ensures AllOneLine([a, b, c])
    ensures NonBlank([a, b, c]) == [Strip(a), Strip(c)]
  {
    var ps, bc := [a, b, c], [b, c];
    assert AllOneLine(ps) && ps[1..] == bc;
    assert AllOneLine(bc) && bc[1..] == [c];
    KeptHead(ps);
    DroppedHead(bc);
    NonBlankOne(c);
  }

  /** A first piece that is not blank is kept, stripped. */
  lemma KeptHead(ps: seq<string>)
    requires ps != [] && AllOneLine(ps) && !AllSpace(ps[0])
    ensures NonBlank(ps) == [Strip(ps[0])] + NonBlank(ps[1..])
  {
  }

  /** A blank first piece is dropped. */
  lemma DroppedHead(ps: seq<string>)
    requires ps != [] && AllOneLine(ps) && AllSpace(ps[0])
    ensures NonBlank(ps) == NonBlank(ps[1..])
  {
  }

  /**
   * A blank or padded line between the street line and the town line is dropped, and the
   * two outer lines are stripped.
   */
  lemma LinesWithBlankMiddle(first: string, blank: string, last: string)
    requires OneLine(first) && OneLine(blank) && OneLine(last)
    requires !AllSpace(first) && AllSpace(blank) && !AllSpace(last)
    ensures Lines(first + "\n" + blank + "\n" + last) == [Strip(first), Strip(last)]
  {
    var ps := [first, blank, last];
    Join3(first, blank, last, '\n');
    BlankMiddleDropped(first, blank, last);
    LinesOfJoinedPieces(ps);
  }

  /** Non-blank, stripped lines joined with line feeds are cut back into the same lines. */
  lemma LinesOfJoin(ls: seq<string>)
    requires |ls| >= 1
    requires forall i :: 0 <= i < |ls| ==> ls[i] != [] && Stripped(ls[i]) && OneLine(ls[i])
    ensures Lines(Join(ls, '\n')) == ls
  {
    JoinFirst(ls, '\n');
    JoinLast(ls, '\n');
    assert Stripped(Join(ls, '\n'));
    SplitJoin(ls, '\n');
    NonBlankKeeps(ls);
  }

  /** A single line of text, such as a comma-separated address, is the only line found. */
  lemma LinesOfOneLine(text: string)
    requires OneLine(text) && !AllSpace(text)
    ensures Lines(text) == [Strip(text)]
  {
    var t := Strip(text);
    StripAvoids(text, '\n');
    SplitWithoutSep(t, '\n');
    assert NonBlank([t]) == [t] + NonBlank([]);
  }

  /**
   * The parse finds nothing at all exactly when the address is blank (empty or only
   * whitespace); any other address yields a street.
   */
  lemma BlankAddress(text: string)
    ensures ParseAdresse(Some(text)) == Unparsed <==> AllSpace(text)
    ensures ParseAdresse(Some(text)).strasse.Some? <==> !AllSpace(text)
  {
    if text != [] {
      var t := Strip(text);
      var pieces := SplitOn(t, '\n');
      if t == [] {
        assert pieces == [[]];
        assert NonBlank(pieces) == [] + NonBlank([]);
      } else {
        SplitFirstPiece(t, '\n');
        assert !AllSpace(pieces[0]);
        assert Strip(pieces[0]) != [];
        assert Lines(text) != [];
      }
    }
  }

  /** A one-line address never yields a postal code or a city, even when it holds one. */
  lemma OneLineAddress(text: string)
    requires OneLine(text) && !AllSpace(text)
    ensures ParseAdresse(Some(text)) ==
      Address(Some(FirstLine(Strip(text)).0), FirstLine(Strip(text)).1, None, None)
  {
    LinesOfOneLine(text);
  }

  /**
   * The shape of every parse result: a street is non-empty and stripped; a house number
   * comes with a street and has the house-number form; postal code and city come
   * together, with a street, as four digits and a non-empty stripped name.
   */
  predicate WellShaped(a: Address) {
    && (a.strasse.Some? ==> a.strasse.value != [] && Stripped(a.strasse.value))
    && (a.hausnummer.Some? ==> a.strasse.Some? && IsHouseNumber(a.hausnummer.value))
    && (a.plz.Some? <==> a.stadt.Some?)
    && (a.plz.Some? ==> a.strasse.Some? && |a.plz.value| == 4 && AllDigits(a.plz.value))
    && (a.stadt.Some? ==> a.stadt.value != [] && Stripped(a.stadt.value))
  }

  /** What every parse result looks like, whatever the text. */
  lemma ParseAdresseShape(text: Option<string>)
    ensures WellShaped(ParseAdresse(text))
  {
    if text.Some? && text.value != [] {
      var ls := Lines(text.value);
      ParseLinesShape(ls);
      assert ParseAdresse(text) == ParseLines(ls);
    }
  }

  lemma ParseLinesShape(ls: seq<string>)
    requires CleanLines(ls)
    ensures WellShaped(ParseLines(ls))
  {
    if |ls| >= 1 {
      FirstLineShape(ls[0]);
      if |ls| >= 2 {
        LastLineShape(ls[|ls| - 1]);
      }
    }
  }

  /** Lines in the conventional shape: non-empty, stripped, without a line feed. */
  predicate CleanLines(ls: seq<string>) {
    forall i :: 0 <= i < |ls| ==> ls[i] != [] && Stripped(ls[i]) && OneLine(ls[i])
  }

  /**
   * Only the first and the last non-blank line matter: two texts of at least two lines
   * that agree on those parse alike, whatever lies between them.
   */
  lemma MiddleLinesIgnored(text: string, text': string)
    requires |Lines(text)| >= 2 && |Lines(text')| >= 2
    requires Lines(text)[0] == Lines(text')[0]
    requires Lines(text)[|Lines(text)| - 1] == Lines(text')[|Lines(text')| - 1]
    ensures ParseAdresse(Some(text)) == ParseAdresse(Some(text'))
  {
    ParsedByEnds(text);
    ParsedByEnds(text');
  }

  /** A text of two or more lines is parsed from its first and its last line. */
  lemma ParsedByEnds(text: string)
    requires |Lines(text)| >= 2
    ensures var ls := Lines(text);
      ParseAdresse(Some(text)) == Ends(ls[0], ls[|ls| - 1])
  {
    var ls := Lines(text);
    calc {
      ParseAdresse(Some(text));
      == { ParsedAsLines(text); }
      ParseLines(ls);
      == { LinesEnds(ls); }
      Ends(ls[0], ls[|ls| - 1]);
    }
  }

  /** A text with a line is parsed from its lines. */
  lemma ParsedAsLines(text: string)
    requires |Lines(text)| >= 1
    ensures ParseAdresse(Some(text)) == ParseLines(Lines(text))
  {
    if text == "" {
      LinesOfEmpty();
      assert false;
    }
  }

  lemma LinesEnds(ls: seq<string>)
    requires |ls| >= 2 && forall i :: 0 <= i < |ls| ==> OneLine(ls[i])
    ensures ParseLines(ls) == Ends(ls[0], ls[|ls| - 1])
  {
  }

  /** The fields of a first line and a last line. */
  function Ends(first: string, last: string): Address
    requires OneLine(first) && OneLine(last)
  {
    Address(Some(FirstLine(first).0), FirstLine(first).1, LastLine(last).0, LastLine(last).1)
  }

  /** The empty text has no lines. */
  lemma LinesOfEmpty()
    ensures Lines("") == []
  {
    assert Strip("") == "";
    SplitWithoutSep("", '\n');
    assert NonBlank([""]) == NonBlank([]);
  }

  /** Lines joined by line feeds parse as those lines. */
  lemma ParseJoined(ls: seq<string>)
    requires |ls| >= 1 && CleanLines(ls)
    ensures ParseAdresse(Some(Join(ls, '\n'))) == ParseLines(ls)
  {
    LinesOfJoin(ls);
    JoinFirst(ls, '\n');
  }

  /** A first line, any middle lines and a last line: the parse of the first and the last. */
  lemma ParseFramed(first: string, middle: seq<string>, last: string)
    requires CleanLines([first] + middle + [last])
    ensures OneLine(first) && OneLine(last)
    ensures ParseAdresse(Some(Join([first] + middle + [last], '\n')))
         == Address(Some(FirstLine(first).0), FirstLine(first).1, LastLine(last).0, LastLine(last).1)
  {
    var ls := [first] + middle + [last];
    FrameEnds(first, middle, last);
    ParseJoined(ls);
  }

  lemma FrameEnds<T>(first: T, middle: seq<T>, last: T)
    ensures var ls := [first] + middle + [last]; |ls| >= 2 && ls[0] == first && ls[|ls| - 1] == last
  {
  }

  /**
   * Round trip: an address written as `street number`, any further lines, and
   * `plz city` as the last line parses back into exactly those four fields.
   */
  lemma ParseWrittenAddress(street: string, number: string, middle: seq<string>, plz: string, city: string)
    requires street != [] && Stripped(street) && OneLine(street)
    requires IsHouseNumber(number)
    requires |plz| == 4 && AllDigits(plz)
    requires city != [] && Stripped(city) && OneLine(city)
    requires CleanLines(middle)
    ensures ParseAdresse(Some(Join([street + " " + number] + middle + [plz + " " + city], '\n')))
         == Address(Some(street), Some(number), Some(plz), Some(city))
  {
    var first, last := street + " " + number, plz + " " + city;
    WrittenLinesClean(street, number, middle, plz, city);
    assert OneLine(first) && OneLine(last) by { FrameEnds(first, middle, last); }
    calc {
      ParseAdresse(Some(Join([first] + middle + [last], '\n')));
      == { ParseFramed(first, middle, last); }
      Address(Some(FirstLine(first).0), FirstLine(first).1, LastLine(last).0, LastLine(last).1);
      == { StreetAndNumber(street, " ", number);
           PostalAndCity(plz, " ", city);
           assert Strip(street) == street && Strip(city) == city; }
      Address(Some(street), Some(number), Some(plz), Some(city));
    }
  }

  lemma StreetLineClean(street: string, number: string)
    requires street != [] && Stripped(street) && OneLine(street)
    requires IsHouseNumber(number)
    ensures CleanLines([street + " " + number])
  {
    var first := street + " " + number;
    HouseNumberStripped(number);
    assert first[0] == street[0] && first[|first| - 1] == number[|number| - 1];
    assert '\n' !in number;
  }

  lemma WrittenLinesClean(street: string, number: string, middle: seq<string>, plz: string, city: string)
    requires street != [] && Stripped(street) && OneLine(street)
    requires IsHouseNumber(number)
    requires |plz| == 4 && AllDigits(plz)
    requires city != [] && Stripped(city) && OneLine(city)
    requires CleanLines(middle)
    ensures CleanLines([street + " " + number] + middle + [plz + " " + city])
  {
    var first, last := street + " " + number, plz + " " + city;
    StreetLineClean(street, number);
    assert last[0] == plz[0] && last[|last| - 1] == city[|city| - 1];
    assert IsDigit(plz[0]);
    assert '\n' !in plz by {
      assert forall i :: 0 <= i < 4 ==> IsDigit(plz[i]);
    }
    var ls := [first] + middle + [last];
    forall i | 0 <= i < |ls| ensures ls[i] != [] && Stripped(ls[i]) && OneLine(ls[i]) {
      if 1 <= i < |ls| - 1 {
        assert ls[i] == middle[i - 1];
      }
    }
  }

  /** The address as it is usually written, on two lines. */
  lemma ParseTwoLineAddress()
    ensures ParseAdresse(Some("Bahnhofstrasse 10\n8001 Z\U{FC}rich"))
         == Address(Some("Bahnhofstrasse"), Some("10"), Some("8001"), Some("Z\U{FC}rich"))
  {
    var street, number, plz, city := "Bahnhofstrasse", "10", "8001", "Z\U{FC}rich";
    assert Join([street + " " + number] + [] + [plz + " " + city], '\n')
        == "Bahnhofstrasse 10\n8001 Z\U{FC}rich";
    ParseWrittenAddress(street, number, [], plz, city);
  }

  /** The seeded test addresses are one line with a comma: all of it becomes the street. */
  lemma ParseCommaAddress()
    ensures ParseAdresse(Some("Bahnhofstrasse 10, 8001 Z\U{FC}rich"))
         == Address(Some("Bahnhofstrasse 10, 8001 Z\U{FC}rich"), None, None, None)
  {
    var street, city := "Bahnhofstrasse 10, ", "8001 Z\U{FC}rich";
    assert OneLine(street) && OneLine(city);
    assert street + city == "Bahnhofstrasse 10, 8001 Z\U{FC}rich";
    ParseStreetOnly(street + city);
  }

  /**
   * One line that neither starts nor ends with whitespace and whose last two characters
   * are no digits holds no house number: all of it is the street.
   */
  lemma ParseStreetOnly(text: string)
    requires OneLine(text) && text != [] && !IsSpace(text[0]) && !IsSpace(text[|text| - 1])
    requires !IsDigit(text[|text| - 1]) && (|text| < 2 || !IsDigit(text[|text| - 2]))
    ensures ParseAdresse(Some(text)) == Address(Some(text), None, None, None)
  {
    assert Strip(text) == text;
    OneLineAddress(text);
    NoHouseNumber(text);
  }

  /** The first line as it is usually written, `street number`, is taken apart again. */
  lemma FirstLineWritten(street: string, number: string)
    requires street != [] && Stripped(street) && OneLine(street)
    requires IsHouseNumber(number)
    ensures OneLine(street + " " + number)
    ensures FirstLine(street + " " + number) == (street, Some(number))
  {
    StreetLineClean(street, number);
    assert [street + " " + number][0] == street + " " + number;
    StreetAndNumber(street, " ", number);
  }

  /** One line `street number`: street and house number, and nothing more. */
  lemma ParseStreetLine(street: string, number: string)
    requires street != [] && Stripped(street) && OneLine(street)
    requires IsHouseNumber(number)
    ensures ParseAdresse(Some(street + " " + number)) == Address(Some(street), Some(number), None, None)
  {
    var text := street + " " + number;
    assert OneLine(text) && text != [] && Stripped(text) by {
      StreetLineClean(street, number);
      assert [text][0] == text;
    }
    assert FirstLine(Strip(text)) == (street, Some(number)) by {
      StreetAndNumber(street, " ", number);
    }
    OneLineAddress(text);
  }

  /** "Main Street 12" gives street and number. */
  lemma ParseMainStreet()
    ensures ParseAdresse(Some("Main Street 12")) == Address(Some("Main Street"), Some("12"), None, None)
  {
    assert "Main Street 12" == "Main Street" + " " + "12";
    ParseStreetLine("Main Street", "12");
  }

  /** A house number alone has no street before it, so it is taken as the street. */
  lemma ParseNumberOnly(number: string)
    requires IsHouseNumber(number)
    ensures ParseAdresse(Some(number)) == Address(Some(number), None, None, None)
  {
    HouseNumberStripped(number);
    assert OneLine(number) && !AllSpace(number);
    calc {
      ParseAdresse(Some(number));
      == { OneLineAddress(number); }
      Address(Some(FirstLine(Strip(number)).0), FirstLine(Strip(number)).1, None, None);
      == { NumberNotSplit(number); }
      Address(Some(number), None, None, None);
    }
  }

  /** No gap precedes a house number's end inside the number itself, so nothing is split off. */
  lemma NumberNotSplit(number: string)
    requires IsHouseNumber(number)
    ensures OneLine(number) && Strip(number) == number
    ensures FirstLine(number) == (number, None)
  {
    HouseNumberStripped(number);
    forall k | 1 <= k < |number| ensures !NumberTailAt(number, k) {
      assert !IsSpace(number[k]);
    }
    assert FindStreetSplit(number, 1).None?;
  }

  /**
   * A last line that does not start with four digits and whitespace sets neither postal
   * code nor city, however many lines there are.
   */
  lemma ParseWithoutPostalCode(first: string, middle: seq<string>, last: string)
    requires CleanLines([first] + middle + [last])
    requires |last| < 6 || !DigitsIn(last, 0, 4) || !IsSpace(last[4])
    ensures ParseAdresse(Some(Join([first] + middle + [last], '\n')))
         == Address(Some(FirstLine(first).0), FirstLine(first).1, None, None)
  {
    ParseFramed(first, middle, last);
  }

  /** Street and number on the first line, a second line that is no postal line. */
  lemma ParseStreetWithoutPostalCode(street: string, number: string, last: string)
    requires street != [] && Stripped(street) && OneLine(street)
    requires IsHouseNumber(number)
    requires last != [] && Stripped(last) && OneLine(last)
    requires |last| < 6 || !DigitsIn(last, 0, 4) || !IsSpace(last[4])
    ensures ParseAdresse(Some(street + " " + number + "\n" + last))
         == Address(Some(street), Some(number), None, None)
  {
    var first := street + " " + number;
    FirstLineWritten(street, number);
    StreetLineClean(street, number);
    assert [first][0] == first;
    ParseTwoLines(first, last);
  }

  /** Two lines: street and house number from the first, postal code and city from the second. */
  lemma ParseTwoLines(first: string, last: string)
    requires first != [] && Stripped(first) && OneLine(first)
    requires last != [] && Stripped(last) && OneLine(last)
    ensures ParseAdresse(Some(first + "\n" + last))
         == Address(Some(FirstLine(first).0), FirstLine(first).1, LastLine(last).0, LastLine(last).1)
  {
    var ls := [first] + [] + [last];
    assert ls == [first, last];
    Join2(first, last, '\n');
    ParseFramed(first, [], last);
  }

  /** Five leading digits are not a postal code: neither postal code nor city is set. */
  lemma ParseFiveDigitPostalCode()
    ensures ParseAdresse(Some("Bahnhofstrasse 10\n80011 Z\U{FC}rich"))
         == Address(Some("Bahnhofstrasse"), Some("10"), None, None)
  {
    assert "Bahnhofstrasse 10\n80011 Z\U{FC}rich" == "Bahnhofstrasse" + " " + "10" + "\n" + "80011 Z\U{FC}rich";
    ParseStreetWithoutPostalCode("Bahnhofstrasse", "10", "80011 Z\U{FC}rich");
  }
}
