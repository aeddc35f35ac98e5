/** The iCalendar writer: text escaping (RFC 5545, section 3.3.11) and line folding (section 3.1). */
module Ical {
  import opened JsText

  const SP: CodeUnit := 32
  const SEMICOLON: CodeUnit := 59
  const UPPER_N: CodeUnit := 78

  // ----- folding: what a reader does -----

  /** Cut a text at every CRLF. */
  function SplitCrlf(text: Text): (r: seq<Text>)
    ensures |r| >= 1
  {
    if text == [] then [[]]
    else if |text| >= 2 && text[0] == CR && text[1] == LF then [[]] + SplitCrlf(text[2..])
    else
      var r := SplitCrlf(text[1..]);
      [[text[0]] + r[0]] + r[1..]
  }

  predicate StartsWithSpace(line: Text) {
    line != [] && (line[0] == SP || line[0] == TAB)
  }

  /** A reader of physical lines: nothing yet, or finished logical lines and the one still open. */
  datatype Reader = Nothing | Reading(done: seq<Text>, open: Text) {
    function Lines(): seq<Text> {
      if Nothing? then [] else done + [open]
    }

    /** A physical line that starts with white space continues the logical line before it. */
    function Read(line: Text): Reader {
      if Reading? && StartsWithSpace(line) then Reading(done, open + line[1..])
      else Reading(Lines(), line)
    }
  }

  function ReadAll(physical: seq<Text>): (r: Reader)
    ensures r.Nothing? <==> physical == []
  {
    if physical == [] then Nothing
    else ReadAll(physical[..|physical| - 1]).Read(physical[|physical| - 1])
  }

  function Unfold(text: Text): seq<Text> {
    ReadAll(SplitCrlf(text)).Lines()
  }

  // ----- folding: what the writer does -----

  ghost predicate Fits(physical: seq<Text>) {
    forall p :: p in physical ==> |p| <= 75 && LF !in p
  }

  /** The physical lines of one logical line: all but the first start with a space, which is not
      part of it. */
  function Glue(pieces: seq<Text>): Text {
    if |pieces| == 0 then []
    else if |pieces| == 1 then pieces[0]
    else
      var last := pieces[|pieces| - 1];
      Glue(pieces[..|pieces| - 1]) + if last == [] then [] else last[1..]
  }

  ghost predicate FoldOf(pieces: seq<Text>, line: Text) {
    && pieces != []
    && (|pieces| > 1 ==> pieces[0] != [])
    && (forall k :: 0 < k < |pieces| ==> pieces[k] != [] && pieces[k][0] == SP)
    && Glue(pieces) == line
  }

  /** The pieces behind the first one. */
  function Continuations(rest: Text): seq<Text> {
    if rest == [] then []
    else if |rest| <= 74 then [[SP] + rest]
    else [[SP] + rest[..74]] + Continuations(rest[74..])
  }

  /** The physical lines of a line. */
  function Folded(line: Text): seq<Text> {
    if |line| <= 75 then [line] else [line[..75]] + Continuations(line[75..])
  }

  /** The body of the loop over the lines: cut a line that is too long into pieces. */
  method FoldLine(line: Text) returns (pieces: seq<Text>)
    requires LF !in line
    ensures pieces == Folded(line)
    ensures FoldOf(pieces, line) && Fits(pieces)
  {
    hide FoldOf, Fits, Folded, Continuations;
    if |line| <= 75 {
      ShortLine(line);
      return [line];
    }
    var remaining := line;
    pieces := [remaining[..75]];
    remaining := remaining[75..];
    ghost var written := line[..75];
    LongLine(line);
    while |remaining| > 74
      invariant FoldOf(pieces, written) && Fits(pieces) && pieces != [] && pieces[0] != []
      invariant written + remaining == line && LF !in remaining
      invariant pieces + Continuations(remaining) == Folded(line)
    {
      var piece := remaining[..74];
      PushPiece(pieces, written, piece);
      NextPiece(pieces, remaining);
      pieces := pieces + [[SP] + piece];
      remaining := remaining[74..];
      assert (written + piece) + remaining == line;
      written := written + piece;
    }
    LastPiece(pieces, remaining);
    if |remaining| > 0 {
      PushPiece(pieces, written, remaining);
      pieces := pieces + [[SP] + remaining];
    } else {
      assert written == line;
    }
  }

  lemma ShortLine(line: Text)
    requires |line| <= 75 && LF !in line
    ensures Folded(line) == [line] && FoldOf([line], line) && Fits([line])
  {
  }

  lemma LongLine(line: Text)
    requires |line| > 75 && LF !in line
    ensures var head := line[..75];
            Folded(line) == [head] + Continuations(line[75..]) && FoldOf([head], head) && Fits([head])
  {
  }

  lemma NextPiece(pieces: seq<Text>, rest: Text)
    requires |rest| > 74
    ensures pieces + Continuations(rest) == pieces + [[SP] + rest[..74]] + Continuations(rest[74..])
  {
  }

  lemma LastPiece(pieces: seq<Text>, rest: Text)
    requires |rest| <= 74
    ensures pieces + Continuations(rest) == if rest == [] then pieces else pieces + [[SP] + rest]
  {
  }

  lemma PushPiece(pieces: seq<Text>, written: Text, piece: Text)
    requires FoldOf(pieces, written) && Fits(pieces) && pieces != [] && pieces[0] != []
    requires |piece| <= 74 && LF !in piece
    ensures var next := pieces + [[SP] + piece];
            FoldOf(next, written + piece) && Fits(next)
  {
    var next := pieces + [[SP] + piece];
    assert next[..|pieces|] == pieces && ([SP] + piece)[1..] == piece;
  }

  /** Reading the pieces in a row is reading the line they were cut from. */
  lemma {:induction false} ReadPieces(start: seq<Text>, pieces: seq<Text>, line: Text)
    requires FoldOf(pieces, line)
    ensures ReadAll(start + pieces) == ReadAll(start).Read(line)
  {
    var n := |pieces| - 1;
    var init := pieces[..n];
    assert (start + pieces)[..|start| + n] == start + init;
    if n == 0 {
      assert start + init == start;
    } else {
      ReadPieces(start, init, Glue(init));
      FirstPiece(init);
      ReadContinues(ReadAll(start), Glue(init), pieces[n]);
    }
  }

  lemma {:induction false} FirstPiece(pieces: seq<Text>)
    requires pieces != [] && pieces[0] != []
    ensures Glue(pieces) != []
  {
    if |pieces| > 1 {
      FirstPiece(pieces[..|pieces| - 1]);
    }
  }

  method FoldLines(lines: seq<Text>) returns (text: Text)
    requires forall k :: 0 <= k < |lines| ==> LF !in lines[k]
    ensures lines != [] ==> Unfold(text) == ReadAll(lines).Lines()
    ensures lines != [] ==>
              (Unfold(text) == lines <==> forall k :: 0 < k < |lines| ==> !StartsWithSpace(lines[k]))
    ensures Fits(SplitCrlf(text))
  {
    var folded: seq<Text> := [];
    for k := 0 to |lines|
      invariant k > 0 ==> folded != []
      invariant ReadAll(folded) == ReadAll(lines[..k])
      invariant Fits(folded)
    {
      assert lines[..k + 1][..k] == lines[..k];
      var pieces := FoldLine(lines[k]);
      ReadPieces(folded, pieces, lines[k]);
      folded := folded + pieces;
    }
    assert lines[..|lines|] == lines;
    text := Join(folded, [CR, LF]);
    if folded != [] {
      SplitJoin(folded);
      ReadIsIdentity(lines);
    } else {
      assert SplitCrlf(text) == [[]];
    }
  }

  /** A piece behind a space is added to the logical line it was cut from. */
  lemma ReadContinues(r: Reader, start: Text, piece: Text)
    requires start != [] && piece != [] && piece[0] == SP
    ensures r.Read(start).Read(piece) == r.Read(start + piece[1..])
  {
    var joined := start + piece[1..];
    assert joined[0] == start[0];
    if r.Reading? && StartsWithSpace(start) {
      assert joined[1..] == start[1..] + piece[1..];
      assert r.open + joined[1..] == (r.open + start[1..]) + piece[1..];
    }
  }

  /** The reader gets the lines back exactly when none but the first starts with white space. */
  lemma ReadIsIdentity(lines: seq<Text>)
    ensures ReadAll(lines).Lines() == lines <==>
            forall k :: 0 < k < |lines| ==> lines[k] == [] || (lines[k][0] != 32 && lines[k][0] != 9)
  {
    if k :| 0 < k < |lines| && StartsWithSpace(lines[k]) {
      ReadLosesALine(lines, k);
    } else {
      ReadKeeps(lines);
    }
  }

  lemma {:induction false} ReadKeeps(lines: seq<Text>)
    requires forall k :: 0 < k < |lines| ==> !StartsWithSpace(lines[k])
    ensures ReadAll(lines).Lines() == lines
  {
    if lines != [] {
      ReadKeeps(lines[..|lines| - 1]);
    }
  }

  lemma {:induction false} ReadLength(lines: seq<Text>)
    ensures |ReadAll(lines).Lines()| <= |lines|
  {
    if lines != [] {
      ReadLength(lines[..|lines| - 1]);
    }
  }

  lemma {:induction false} ReadLosesALine(lines: seq<Text>, k: nat)
    requires 0 < k < |lines| && StartsWithSpace(lines[k])
    ensures |ReadAll(lines).Lines()| < |lines|
  {
    var init := lines[..|lines| - 1];
    ReadLength(init);
    if k < |init| {
      ReadLosesALine(init, k);
    }
  }

  lemma {:induction false} SplitJoin(lines: seq<Text>)
    requires lines != []
    requires forall p :: p in lines ==> LF !in p
    ensures SplitCrlf(Join(lines, [CR, LF])) == lines
  {
    if |lines| == 1 {
      SplitOne(lines[0]);
    } else {
      SplitJoin(lines[1..]);
      SplitFirst(lines[0], Join(lines[1..], [CR, LF]));
      assert lines[0] + [CR, LF] + Join(lines[1..], [CR, LF]) == lines[0] + ([CR, LF] + Join(lines[1..], [CR, LF]));
    }
  }

  lemma {:induction false} SplitOne(line: Text)
    requires LF !in line
    ensures SplitCrlf(line) == [line]
  {
    if line != [] {
      SplitOne(line[1..]);
      assert line == [line[0]] + line[1..];
      assert |line| > 1 ==> line[1] in line;
    }
  }

  lemma {:induction false} SplitFirst(line: Text, rest: Text)
    requires LF !in line
    ensures SplitCrlf(line + ([CR, LF] + rest)) == [line] + SplitCrlf(rest)
  {
    var text := line + ([CR, LF] + rest);
    if line == [] {
      assert text[2..] == rest;
    } else {
      SplitFirst(line[1..], rest);
      assert text[1..] == line[1..] + ([CR, LF] + rest);
      assert text[1] == if |line| > 1 then line[1] else CR;
      assert |line| > 1 ==> line[1] in line;
      assert line == [line[0]] + line[1..];
    }
  }

  // ----- escaping -----

  /** `s.replace(/c/g, sub)` for a single code unit */
  function ReplaceUnit(s: Text, c: CodeUnit, sub: Text): Text {
    if s == [] then [] else (if s[0] == c then sub else [s[0]]) + ReplaceUnit(s[1..], c, sub)
  }

  predicate StartsWithCrlf(s: Text) {
    |s| >= 2 && s[0] == CR && s[1] == LF
  }

  /** `s.replace(/\r?\n/g, sub)` */
  function ReplaceNewlines(s: Text, sub: Text): Text {
    if s == [] then []
    else if StartsWithCrlf(s) then sub + ReplaceNewlines(s[2..], sub)
    else (if s[0] == LF then sub else [s[0]]) + ReplaceNewlines(s[1..], sub)
  }

  /** The four replaces, in the order of the code. */
  function EscapeIcs(s: Text): Text {
    var s1 := ReplaceUnit(s, BACKSLASH, [BACKSLASH, BACKSLASH]);
    var s2 := ReplaceUnit(s1, SEMICOLON, [BACKSLASH, SEMICOLON]);
    var s3 := ReplaceUnit(s2, COMMA, [BACKSLASH, COMMA]);
    ReplaceNewlines(s3, [BACKSLASH, LOWER_N])
  }

  /** Reading an escaped text: backslash with backslash, semicolon, comma, n or N stands for one unit. */
  function Unescape(t: Text): Text {
    if t == [] then []
    else if t[0] == BACKSLASH && |t| >= 2 then
      (if t[1] == LOWER_N || t[1] == UPPER_N then [LF] else [t[1]]) + Unescape(t[2..])
    else
      [t[0]] + Unescape(t[1..])
  }

  /** A text with every CRLF turned into LF. */
  function Normalized(s: Text): Text {
    ReplaceNewlines(s, [LF])
  }

  predicate Special(c: CodeUnit) {
    c == BACKSLASH || c == SEMICOLON || c == COMMA
  }

  /** What one unit becomes when newlines are left aside. */
  function EscapeUnit(c: CodeUnit): Text {
    if Special(c) then [BACKSLASH, c] else [c]
  }

  function EscapeUnits(s: Text): Text {
    if s == [] then [] else EscapeUnit(s[0]) + EscapeUnits(s[1..])
  }

  lemma {:induction false} ReplaceUnitConcat(a: Text, b: Text, c: CodeUnit, sub: Text)
    ensures ReplaceUnit(a + b, c, sub) == ReplaceUnit(a, c, sub) + ReplaceUnit(b, c, sub)
  {
    if a == [] {
      assert a + b == b;
    } else {
      ReplaceUnitConcat(a[1..], b, c, sub);
      assert (a + b)[1..] == a[1..] + b;
      var head := if a[0] == c then sub else [a[0]];
      var x, y := ReplaceUnit(a[1..], c, sub), ReplaceUnit(b, c, sub);
      assert head + (x + y) == (head + x) + y;
    }
  }

  /** The first three replaces never touch each other's output: backslash has to come first. */
  lemma {:induction false} ThreeReplacesAreOne(s: Text)
    ensures ReplaceUnit(ReplaceUnit(ReplaceUnit(s, BACKSLASH, [BACKSLASH, BACKSLASH]),
                                    SEMICOLON, [BACKSLASH, SEMICOLON]),
                        COMMA, [BACKSLASH, COMMA]) == EscapeUnits(s)
  {
    if s != [] {
      ThreeReplacesAreOne(s[1..]);
      var r1 := if s[0] == BACKSLASH then [BACKSLASH, BACKSLASH] else [s[0]];
      var rest1 := ReplaceUnit(s[1..], BACKSLASH, [BACKSLASH, BACKSLASH]);
      ReplaceUnitConcat(r1, rest1, SEMICOLON, [BACKSLASH, SEMICOLON]);
      var r2 := ReplaceUnit(r1, SEMICOLON, [BACKSLASH, SEMICOLON]);
      ShortReplace(r1, SEMICOLON, [BACKSLASH, SEMICOLON]);
      ReplaceUnitConcat(r2, ReplaceUnit(rest1, SEMICOLON, [BACKSLASH, SEMICOLON]), COMMA, [BACKSLASH, COMMA]);
      ShortReplace(r2, COMMA, [BACKSLASH, COMMA]);
    }
  }

  lemma ShortReplace(a: Text, c: CodeUnit, sub: Text)
    requires 1 <= |a| <= 2
    ensures |a| == 1 ==> ReplaceUnit(a, c, sub) == if a[0] == c then sub else a
    ensures |a| == 2 && c !in a ==> ReplaceUnit(a, c, sub) == a
    ensures |a| == 2 && a[1] == c && a[0] != c ==> ReplaceUnit(a, c, sub) == [a[0]] + sub
  {
    assert ReplaceUnit([], c, sub) == [];
    if |a| == 2 {
      assert a[1..] == [a[1]] && a[1..][1..] == [];
    }
  }

  /** Escaping the special units neither makes nor breaks a CRLF at the start. */
  lemma EscapeUnitsStart(s: Text)
    requires s != []
    ensures EscapeUnits(s)[0] == if Special(s[0]) then BACKSLASH else s[0]
    ensures StartsWithCrlf(EscapeUnits(s)) <==> StartsWithCrlf(s)
    ensures EscapeUnits(s)[|EscapeUnit(s[0])|..] == EscapeUnits(s[1..])
    ensures StartsWithCrlf(s) ==> EscapeUnits(s)[2..] == EscapeUnits(s[2..])
  {
    if |s| >= 2 {
      assert EscapeUnits(s[1..])[0] == if Special(s[1]) then BACKSLASH else s[1];
      assert s[1..][1..] == s[2..];
    }
  }

  /** The four replaces act as one pass over the text, one unit (or one CRLF) at a time. */
  lemma EscapeIsPerUnit(s: Text)
    ensures EscapeIcs(s) ==
            if s == [] then []
            else if StartsWithCrlf(s) then [BACKSLASH, LOWER_N] + EscapeIcs(s[2..])
            else if s[0] == LF then [BACKSLASH, LOWER_N] + EscapeIcs(s[1..])
            else EscapeUnit(s[0]) + EscapeIcs(s[1..])
  {
    ThreeReplacesAreOne(s);
    if s != [] {
      EscapeUnitsStart(s);
      ThreeReplacesAreOne(s[if StartsWithCrlf(s) then 2 else 1..]);
      if Special(s[0]) {
        NewlinesAfterBackslash(EscapeUnits(s), s[0]);
      }
    }
  }

  /** The letters of it: CRLF and line feed become backslash and n, backslash, semicolon and comma get a
      backslash; a reader takes a capital N for a line feed, too. */
  lemma EscapeLetters(s: Text)
    ensures s != [] ==>
              EscapeIcs(s) ==
              if |s| >= 2 && s[0] == 13 && s[1] == 10 then [92, 110] + EscapeIcs(s[2..])
              else if s[0] == 10 then [92, 110] + EscapeIcs(s[1..])
              else if s[0] == 92 || s[0] == 59 || s[0] == 44 then [92, s[0]] + EscapeIcs(s[1..])
              else [s[0]] + EscapeIcs(s[1..])
    ensures Unescape([92, 110]) == Unescape([92, 78]) == [10]
  {
    EscapeIsPerUnit(s);
    assert [BACKSLASH, LOWER_N][2..] == [] && [BACKSLASH, UPPER_N][2..] == [];
  }

  lemma NewlinesAfterBackslash(e: Text, c: CodeUnit)
    requires |e| >= 2 && e[0] == BACKSLASH && e[1] == c && Special(c)
    ensures var sub := [BACKSLASH, LOWER_N];
            ReplaceNewlines(e, sub) == [BACKSLASH, c] + ReplaceNewlines(e[2..], sub)
  {
    var sub := [BACKSLASH, LOWER_N];
    var r := ReplaceNewlines(e[2..], sub);
    assert e[1..][1..] == e[2..];
    assert ReplaceNewlines(e[1..], sub) == [c] + r;
    assert [BACKSLASH] + ([c] + r) == [BACKSLASH, c] + r;
  }

  /** Reading back an escaped text gives the text with CRLF turned into LF. */
  lemma {:induction false} EscapeRoundTrip(s: Text)
    ensures Unescape(EscapeIcs(s)) == Normalized(s)
    decreases |s|
  {
    EscapeIsPerUnit(s);
    if s != [] {
      var skip := if StartsWithCrlf(s) then 2 else 1;
      EscapeRoundTrip(s[skip..]);
      var e := EscapeIcs(s);
      var tail := EscapeIcs(s[skip..]);
      if s[0] == LF || StartsWithCrlf(s) || Special(s[0]) {
        assert e[2..] == tail;
      } else {
        assert e[1..] == tail;
      }
    }
  }

  /** So two texts are written alike exactly when they differ in no more than CRLF against LF. */
  lemma EscapeDistinguishes(a: Text, b: Text)
    ensures EscapeIcs(a) == EscapeIcs(b) <==> Normalized(a) == Normalized(b)
  {
    EscapeRoundTrip(a);
    EscapeRoundTrip(b);
    EscapeOfNormalized(a);
    EscapeOfNormalized(b);
  }

  /** Escaping a text in which a line break is always LF, never CRLF. */
  function EscapePlain(t: Text): Text {
    if t == [] then []
    else (if t[0] == LF then [BACKSLASH, LOWER_N] else EscapeUnit(t[0])) + EscapePlain(t[1..])
  }

  lemma {:induction false} EscapeOfNormalized(s: Text)
    ensures EscapeIcs(s) == EscapePlain(Normalized(s))
    decreases |s|
  {
    EscapeIsPerUnit(s);
    if s != [] {
      var skip := if StartsWithCrlf(s) then 2 else 1;
      EscapeOfNormalized(s[skip..]);
      assert Normalized(s)[1..] == Normalized(s[skip..]);
    }
  }

  /** An escaped value holds no line feed, so it may be put on a line that is folded afterwards. */
  lemma {:induction false} EscapeHasNoLineFeed(s: Text)
    ensures LF !in EscapeIcs(s)
    decreases |s|
  {
    EscapeIsPerUnit(s);
    if s != [] {
      EscapeHasNoLineFeed(s[if StartsWithCrlf(s) then 2 else 1..]);
    }
  }

  // ----- folding and surrogate pairs -----

  /** Where a line of n units is cut: behind 75 units, and then behind every 74. */
  predicate IsCut(c: nat, n: nat) {
    75 <= c < n && (c - 75) % 74 == 0
  }

  ghost predicate AllWellFormed(pieces: seq<Text>) {
    forall k :: 0 <= k < |pieces| ==> WellFormed(pieces[k])
  }

  lemma {:induction false} ContinuationsWellFormedIff(rest: Text)
    requires WellFormed(rest)
    ensures AllWellFormed(Continuations(rest)) <==>
            forall c: nat :: 0 < c < |rest| && c % 74 == 0 ==> !SplitsPair(rest, c)
  {
    if |rest| <= 74 {
      if rest != [] {
        assert ([SP] + rest)[1..] == rest;
      }
    } else {
      var head, tail := rest[..74], rest[74..];
      var pieces := Continuations(rest);
      WellFormedCut(rest, 74);
      assert ([SP] + head)[1..] == head;
      assert pieces[0] == [SP] + head && pieces[1..] == Continuations(tail);
      assert forall k :: 0 < k < |pieces| ==> pieces[k] == Continuations(tail)[k - 1];
      assert forall k :: 0 <= k < |Continuations(tail)| ==> Continuations(tail)[k] == pieces[k + 1];
      if !SplitsPair(rest, 74) {
        ContinuationsWellFormedIff(tail);
        forall c: nat | 0 < c < |tail|
          ensures SplitsPair(tail, c) <==> SplitsPair(rest, c + 74)
        {
        }
        forall c: nat | 74 < c < |rest|
          ensures SplitsPair(rest, c) <==> SplitsPair(tail, c - 74)
        {
        }
      }
    }
  }

  /** The pieces of a well-formed line are well-formed exactly when no cut splits a pair. */
  lemma FoldWellFormedIff(line: Text)
    requires WellFormed(line)
    ensures AllWellFormed(Folded(line)) <==> forall c :: IsCut(c, |line|) ==> !SplitsPair(line, c)
  {
    if |line| > 75 {
      var tail := line[75..];
      var pieces := Folded(line);
      WellFormedCut(line, 75);
      assert IsCut(75, |line|);
      assert forall k :: 0 < k < |pieces| ==> pieces[k] == Continuations(tail)[k - 1];
      assert forall k :: 0 <= k < |Continuations(tail)| ==> Continuations(tail)[k] == pieces[k + 1];
      if !SplitsPair(line, 75) {
        ContinuationsWellFormedIff(tail);
        CutsOfTail(line);
      }
    }
  }

  lemma CutsOfTail(line: Text)
    requires |line| > 75 && !SplitsPair(line, 75)
    ensures var tail := line[75..];
            (forall c :: IsCut(c, |line|) ==> !SplitsPair(line, c)) <==>
            (forall c: nat :: 0 < c < |tail| && c % 74 == 0 ==> !SplitsPair(tail, c))
  {
    var tail := line[75..];
    forall c: nat | 0 < c < |tail|
      ensures SplitsPair(tail, c) <==> SplitsPair(line, c + 75)
      ensures IsCut(c + 75, |line|) <==> c % 74 == 0
    {
    }
    forall c: nat | IsCut(c, |line|) && c != 75
      ensures var d: nat := c - 75; 0 < d < |tail| && d % 74 == 0 && (SplitsPair(tail, d) <==> SplitsPair(line, c))
    {
    }
  }

  /** The pieces as a reader gets them from UTF-8. */
  function Sent(pieces: seq<Text>): seq<Text> {
    seq(|pieces|, k requires 0 <= k < |pieces| => Replaced(pieces[k]))
  }

  lemma SameParts(a: Text, b: Text, c: Text, d: Text)
    requires a + b == c + d && |b| == |d|
    ensures a == c && b == d
  {
    assert a == (a + b)[..|a|] && c == (c + d)[..|c|];
    assert b == (a + b)[|a|..] && d == (c + d)[|c|..];
  }

  lemma {:induction false} GlueDetermines(p: seq<Text>, q: seq<Text>)
    requires |p| == |q| && Glue(p) == Glue(q)
    requires forall k :: 0 <= k < |p| ==> |p[k]| == |q[k]|
    requires forall k :: 0 < k < |p| ==> p[k] != [] && p[k][0] == q[k][0]
    ensures p == q
  {
    if |p| == 1 {
      assert p[0] == q[0];
    } else if |p| > 1 {
      var n := |p| - 1;
      var a, b := p[n][1..], q[n][1..];
      SameParts(Glue(p[..n]), a, Glue(q[..n]), b);
      GlueDetermines(p[..n], q[..n]);
      assert p[n] == [p[n][0]] + a && q[n] == [q[n][0]] + b;
      assert p == p[..n] + [p[n]] && q == q[..n] + [q[n]];
    }
  }

  /** A reader that unfolds what UTF-8 made of the pieces gets a well-formed line back exactly when
      no cut splits a surrogate pair. */
  lemma FoldSurvivesUtf8Iff(line: Text, pieces: seq<Text>)
    requires WellFormed(line) && pieces == Folded(line) && FoldOf(pieces, line)
    ensures Glue(Sent(pieces)) == line <==> forall c :: IsCut(c, |line|) ==> !SplitsPair(line, c)
  {
    hide IsCut, SplitsPair, Folded;
    FoldWellFormedIff(line);
    forall k | 0 <= k < |pieces|
      ensures |Sent(pieces)[k]| == |pieces[k]| && (Sent(pieces)[k] == pieces[k] <==> WellFormed(pieces[k]))
    {
      ReplacedIff(pieces[k]);
    }
    if AllWellFormed(pieces) {
      assert Sent(pieces) == pieces;
    } else if Glue(Sent(pieces)) == line {
      forall k | 0 < k < |pieces|
        ensures Sent(pieces)[k][0] == pieces[k][0]
      {
        assert pieces[k][0] == SP;
      }
      GlueDetermines(Sent(pieces), pieces);
    }
  }

  // ----- lines and texts that do not come back -----

  /** A second line that starts with a space is taken for the rest of the first. */
  lemma SpacedLineIsJoined()
    ensures Unfold(Join([Ascii("A"), Ascii(" B")], [CR, LF])) == [Ascii("AB")]
  {
    var a, b := Ascii("A"), Ascii(" B");
    SplitJoin([a, b]);
    var first := [a];
    assert [a, b][..1] == first && first[..0] == [];
    assert a + b[1..] == Ascii("AB");
    assert ReadAll(first) == Reading([], a);
  }

  /** A line of 74 letters and an emoji is cut in the middle of the emoji. */
  lemma EmojiIsCut(line: Text)
    requires |line| == 76 && (forall i :: 0 <= i < 74 ==> line[i] == 65) && line[74] == 0xD83D && line[75] == 0xDE00
    ensures WellFormed(line) && Glue(Sent(Folded(line))) != line
  {
    PlainIsWellFormed(line[..74]);
    assert WellFormed(line[74..]) by { assert line[74..][2..] == []; }
    WellFormedConcat(line[..74], line[74..]);
    assert line == line[..74] + line[74..];
    var pieces := Folded(line);
    assert line[75..] == [line[75]] && [SP] + [line[75]] == [SP, line[75]];
    assert pieces == [line[..75], [SP, line[75]]];
    assert pieces[..1] == [line[..75]];
    assert Glue(pieces) == line[..75] + [line[75]] == line;
    FoldSurvivesUtf8Iff(line, pieces);
    assert IsCut(75, |line|) && SplitsPair(line, 75);
  }
}
