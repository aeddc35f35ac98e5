/** What the dice parser accepts, and as what: every way to spell a list of terms, and the proof
    that the parser takes exactly these spellings, each for its own terms. */
module DiceSpelling {
  import opened DecimalText
  import opened DiceNotation
  import opened JsText
  import opened Wrappers

  // ----- spellings -----

  datatype KeepSpelling = KeepSpelling(k: CodeUnit, mode: CodeUnit, space: Text, amount: Text)

  datatype FacesSpelling = Percent | Numeral(space: Text, digits: Text)

  /** An empty count means one die. */
  datatype TermSpelling =
    | IntegerTerm(digits: Text)
    | DiceTerm(count: Text, d: CodeUnit, faces: FacesSpelling, keep: Option<KeepSpelling>)

  /** A term with its sign and the white space on both sides of the sign. */
  datatype SignedSpelling = SignedSpelling(before: Text, sign: Option<CodeUnit>, after: Text, term: TermSpelling)

  predicate ValidNumeral(space: Text, digits: Text) {
    AllSpace(space) && digits != [] && AllDigits(digits)
  }

  predicate ValidTerm(s: TermSpelling) {
    match s
    case IntegerTerm(digits) => digits != [] && AllDigits(digits)
    case DiceTerm(count, d, faces, keep) =>
      && AllDigits(count)
      && IsD(d)
      && (faces.Numeral? ==> ValidNumeral(faces.space, faces.digits))
      && (keep.Some? ==>
            && Lower(keep.value.k) == LOWER_K
            && (Lower(keep.value.mode) == LOWER_H || Lower(keep.value.mode) == LOWER_L)
            && ValidNumeral(keep.value.space, keep.value.amount))
  }

  /** Only the first term may go without a sign. */
  predicate ValidSigned(s: SignedSpelling, first: bool) {
    && ValidTerm(s.term)
    && AllSpace(s.before) && AllSpace(s.after)
    && (s.sign.Some? ==> IsSign(s.sign.value))
    && (s.sign.None? ==> first && s.after == [])
  }

  ghost predicate ValidRoll(roll: seq<SignedSpelling>) {
    && roll != []
    && roll[0].before == []
    && forall i :: 0 <= i < |roll| ==> ValidSigned(roll[i], i == 0)
  }

  function FacesText(f: FacesSpelling): Text {
    if f.Percent? then [PERCENT] else f.space + f.digits
  }

  function KeepText(k: Option<KeepSpelling>): Text {
    if k.None? then [] else [k.value.k, k.value.mode] + (k.value.space + k.value.amount)
  }

  function TermText(s: TermSpelling): Text {
    match s
    case IntegerTerm(digits) => digits
    case DiceTerm(count, d, faces, keep) => count + ([d] + (FacesText(faces) + KeepText(keep)))
  }

  function SignText(s: SignedSpelling): Text {
    if s.sign.None? then [] else [s.sign.value]
  }

  function SignedText(s: SignedSpelling): Text {
    s.before + (SignText(s) + (s.after + TermText(s.term)))
  }

  function RollText(roll: seq<SignedSpelling>): Text {
    if roll == [] then [] else SignedText(roll[0]) + RollText(roll[1..])
  }

  // ----- meanings -----

  function FacesOf(f: FacesSpelling): nat {
    if f.Percent? then 100 else DigitsValue(f.digits)
  }

  function KeepOf(k: Option<KeepSpelling>): Option<Keep> {
    if k.None? then None else Some(Keep(Lower(k.value.mode) == LOWER_H, DigitsValue(k.value.amount)))
  }

  function CountOf(count: Text): nat {
    if count == [] then 1 else DigitsValue(count)
  }

  function TermOf(s: TermSpelling, negative: bool): Term {
    match s
    case IntegerTerm(digits) => Modifier(DigitsValue(digits), negative)
    case DiceTerm(count, _, faces, keep) => Dice(CountOf(count), FacesOf(faces), KeepOf(keep), negative)
  }

  function SignedOf(s: SignedSpelling): Term {
    TermOf(s.term, s.sign == Some(MINUS))
  }

  function RollOf(roll: seq<SignedSpelling>): seq<Term> {
    seq(|roll|, i requires 0 <= i < |roll| => SignedOf(roll[i]))
  }

  // ----- limits -----

  predicate TermWithin(t: Term, limits: Limits) {
    t.Dice? ==>
      && 1 <= t.count <= limits.maxDice
      && 1 <= t.faces <= limits.maxFaces
      && (t.keep.Some? ==> 1 <= t.keep.value.amount <= t.count)
  }

  function TotalDice(terms: seq<Term>): nat {
    if terms == [] then 0 else DiceIn(terms[0]) + TotalDice(terms[1..])
  }

  ghost predicate Within(terms: seq<Term>, total: nat, limits: Limits) {
    && (forall i :: 0 <= i < |terms| ==> TermWithin(terms[i], limits))
    && total + TotalDice(terms) <= limits.maxDice
  }

  // ----- reading a spelled term -----

  /** What may follow a term: the end, white space or a sign. */
  predicate EndsTerm(t: Text) {
    t == [] || IsSpace(t[0]) || IsSign(t[0])
  }

  lemma {:induction false} SkipSpelled(space: Text, t: Text)
    requires AllSpace(space) && (t == [] || !IsSpace(t[0]))
    ensures SkipSpace(space + t) == t
  {
    if space == [] {
      assert space + t == t;
    } else {
      assert (space + t)[1..] == space[1..] + t;
      SkipSpelled(space[1..], t);
    }
  }

  lemma IntegerSpelled(space: Text, digits: Text, t: Text)
    requires ValidNumeral(space, digits) && !StartsWithDigit(t)
    ensures IntegerAt(space + digits + t) == Ok(DigitsValue(digits), t)
  {
    var u := digits + t;
    assert space + digits + t == space + u;
    assert IsDigit(u[0]);
    SkipSpelled(space, u);
    DigitRunOf(digits, t);
    assert u[..|digits|] == digits && u[|digits|..] == t;
  }

  lemma FacesSpelled(f: FacesSpelling, t: Text)
    requires f.Numeral? ==> ValidNumeral(f.space, f.digits)
    requires !StartsWithDigit(t)
    ensures FacesAt(FacesText(f) + t) == Ok(FacesOf(f), t)
  {
    if f.Percent? {
      assert ([PERCENT] + t)[1..] == t;
    } else {
      IntegerSpelled(f.space, f.digits, t);
      var u := f.space + f.digits + t;
      assert IsDigit(f.digits[0]);
      assert u[0] == if f.space == [] then f.digits[0] else f.space[0];
    }
  }

  lemma KeepSpelled(k: Option<KeepSpelling>, count: nat, t: Text)
    requires k.Some? ==>
               && Lower(k.value.k) == LOWER_K
               && (Lower(k.value.mode) == LOWER_H || Lower(k.value.mode) == LOWER_L)
               && ValidNumeral(k.value.space, k.value.amount)
               && 1 <= DigitsValue(k.value.amount) <= count
    requires EndsTerm(t)
    ensures KeepAt(KeepText(k) + t, count) == Ok(KeepOf(k), t)
  {
    if k.None? {
      assert KeepText(k) + t == t;
    } else {
      var number := k.value.space + k.value.amount;
      assert (KeepText(k) + t)[2..] == number + t;
      IntegerSpelled(k.value.space, k.value.amount, t);
    }
  }

  /** Behind the faces there is a keep part, or the term ends: no digit in either case. */
  lemma KeepStart(k: Option<KeepSpelling>, t: Text)
    requires k.Some? ==> Lower(k.value.k) == LOWER_K
    requires EndsTerm(t)
    ensures !StartsWithDigit(KeepText(k) + t)
  {
    if k.None? {
      assert KeepText(k) + t == t;
    }
  }

  lemma DiceSpelled(s: TermSpelling, negative: bool, limits: Limits, t: Text)
    requires s.DiceTerm? && ValidTerm(s) && TermWithin(TermOf(s, negative), limits) && EndsTerm(t)
    ensures DiceAt(FacesText(s.faces) + (KeepText(s.keep) + t), CountOf(s.count), negative, limits) ==
            Ok(TermOf(s, negative), t)
  {
    hide FacesAt, KeepAt;
    KeepStart(s.keep, t);
    FacesSpelled(s.faces, KeepText(s.keep) + t);
    KeepSpelled(s.keep, CountOf(s.count), t);
  }

  lemma CountedDice(t: Text, negative: bool, limits: Limits, count: nat, d: CodeUnit, dice: Text)
    requires !StartsWithD(t) && IntegerAt(t) == Ok(count, [d] + dice) && IsD(d)
    ensures TermAt(t, negative, limits) == DiceAt(dice, count, negative, limits)
  {
    assert ([d] + dice)[1..] == dice;
  }

  lemma BareDice(d: CodeUnit, dice: Text, negative: bool, limits: Limits)
    requires IsD(d)
    ensures TermAt([d] + dice, negative, limits) == DiceAt(dice, 1, negative, limits)
  {
    assert ([d] + dice)[1..] == dice;
  }

  lemma DigitsSpelled(digits: Text, t: Text)
    requires digits != [] && AllDigits(digits) && !StartsWithDigit(t)
    ensures IntegerAt(digits + t) == Ok(DigitsValue(digits), t)
    ensures !StartsWithD(digits + t)
  {
    hide IntegerAt;
    assert IsDigit(digits[0]);
    IntegerSpelled([], digits, t);
    assert [] + digits + t == digits + t;
  }

  /** A spelled term is read as its meaning, up to where it ends. */
  lemma TermSpelled(s: TermSpelling, negative: bool, limits: Limits, t: Text)
    requires ValidTerm(s) && TermWithin(TermOf(s, negative), limits) && EndsTerm(t)
    ensures TermAt(TermText(s) + t, negative, limits) == Ok(TermOf(s, negative), t)
  {
    hide DiceAt, IntegerAt;
    if s.IntegerTerm? {
      DigitsSpelled(s.digits, t);
    } else {
      hide TermAt;
      var dice := FacesText(s.faces) + (KeepText(s.keep) + t);
      DiceSpelled(s, negative, limits, t);
      TextOfDice(s, t);
      if s.count == [] {
        BareDice(s.d, dice, negative, limits);
      } else {
        DigitsSpelled(s.count, [s.d] + dice);
        CountedDice(s.count + ([s.d] + dice), negative, limits, DigitsValue(s.count), s.d, dice);
      }
    }
  }

  lemma TextOfDice(s: TermSpelling, t: Text)
    requires s.DiceTerm?
    ensures var dice := FacesText(s.faces) + (KeepText(s.keep) + t);
            TermText(s) + t == if s.count == [] then [s.d] + dice else s.count + ([s.d] + dice)
  {
    var dice := FacesText(s.faces) + (KeepText(s.keep) + t);
    assert FacesText(s.faces) + KeepText(s.keep) + t == dice;
    assert TermText(s) + t == s.count + ([s.d] + dice);
  }

  lemma TermStart(s: TermSpelling)
    requires ValidTerm(s)
    ensures TermText(s) != []
    ensures IsDigit(TermText(s)[0]) || IsD(TermText(s)[0])
  {
    if s.IntegerTerm? {
      assert IsDigit(s.digits[0]);
    } else if s.count != [] {
      assert IsDigit(s.count[0]);
    }
  }

  // ----- reading a spelled roll -----

  /** The text behind the sign of a roll's first term. */
  function BehindSign(roll: seq<SignedSpelling>): Text
    requires roll != []
  {
    roll[0].after + (TermText(roll[0].term) + RollText(roll[1..]))
  }

  ghost predicate ValidTail(roll: seq<SignedSpelling>) {
    forall i :: 0 <= i < |roll| ==> ValidSigned(roll[i], false)
  }

  lemma TailText(roll: seq<SignedSpelling>)
    requires roll != [] && roll[0].sign.Some?
    ensures RollText(roll) == roll[0].before + ([roll[0].sign.value] + BehindSign(roll))
  {
    var s := roll[0];
    var rest := RollText(roll[1..]);
    var x := s.after + TermText(s.term);
    assert x + rest == BehindSign(roll);
    assert s.before + (SignText(s) + x) + rest == s.before + (SignText(s) + (x + rest));
  }

  /** A later part of a roll ends the term in front of it, and goes on with its sign. */
  lemma TailStart(roll: seq<SignedSpelling>)
    requires ValidTail(roll)
    ensures EndsTerm(RollText(roll))
    ensures roll == [] ==> SkipSpace(RollText(roll)) == []
    ensures roll != [] ==> SkipSpace(RollText(roll)) == [roll[0].sign.value] + BehindSign(roll)
  {
    if roll != [] {
      TailText(roll);
      SkipSpelled(roll[0].before, [roll[0].sign.value] + BehindSign(roll));
    }
  }

  lemma RollStep(roll: seq<SignedSpelling>, total: nat, limits: Limits)
    requires roll != [] && Within(RollOf(roll), total, limits)
    ensures RollOf(roll) == [SignedOf(roll[0])] + RollOf(roll[1..])
    ensures TermWithin(SignedOf(roll[0]), limits)
    ensures Within(RollOf(roll[1..]), total + DiceIn(SignedOf(roll[0])), limits)
    ensures total + DiceIn(SignedOf(roll[0])) <= limits.maxDice
    ensures |roll| == 1 ==> RollOf(roll) == [SignedOf(roll[0])]
  {
    var terms := RollOf(roll);
    assert terms[0] == SignedOf(roll[0]);
    assert terms[1..] == RollOf(roll[1..]);
  }

  lemma {:induction false} TermsSpelled(roll: seq<SignedSpelling>, negative: bool, total: nat, limits: Limits)
    requires roll != [] && ValidTerm(roll[0].term) && AllSpace(roll[0].after) && ValidTail(roll[1..])
    requires negative == (roll[0].sign == Some(MINUS))
    requires Within(RollOf(roll), total, limits)
    ensures TermsAt(BehindSign(roll), negative, total, limits) == Ok(RollOf(roll), [])
  {
    hide TermAt, TermsAt, TermOf, TermText, RollText, RollOf, Within;
    var term, tail := roll[0].term, roll[1..];
    TermStart(term);
    SkipSpelled(roll[0].after, TermText(term) + RollText(tail));
    TailStart(tail);
    RollStep(roll, total, limits);
    TermSpelled(term, negative, limits, RollText(tail));
    if tail == [] {
      LastTerm(BehindSign(roll), negative, total, limits, SignedOf(roll[0]), RollText(tail));
    } else {
      TermsSpelled(tail, tail[0].sign == Some(MINUS), total + DiceIn(SignedOf(roll[0])), limits);
      OneMoreTerm(BehindSign(roll), negative, total, limits, SignedOf(roll[0]), RollText(tail),
                  tail[0].sign.value, BehindSign(tail), RollOf(tail));
    }
  }

  lemma LastTerm(t: Text, negative: bool, total: nat, limits: Limits, term: Term, rest: Text)
    requires TermAt(SkipSpace(t), negative, limits) == Ok(term, rest) && total + DiceIn(term) <= limits.maxDice
    requires SkipSpace(rest) == []
    ensures TermsAt(t, negative, total, limits) == Ok([term], [])
  {
    hide TermAt, TermsAt;
    TermsStep(t, negative, total, limits);
  }

  lemma OneMoreTerm(t: Text, negative: bool, total: nat, limits: Limits, term: Term, rest: Text,
                    sign: CodeUnit, others: Text, more: seq<Term>)
    requires TermAt(SkipSpace(t), negative, limits) == Ok(term, rest) && total + DiceIn(term) <= limits.maxDice
    requires SkipSpace(rest) == [sign] + others && IsSign(sign)
    requires TermsAt(others, sign == MINUS, total + DiceIn(term), limits) == Ok(more, [])
    ensures TermsAt(t, negative, total, limits) == Ok([term] + more, [])
  {
    hide TermAt, TermsAt;
    TermsStep(t, negative, total, limits);
    assert ([sign] + others)[1..] == others;
  }

  // ----- trimming -----

  lemma {:induction false} TrimEndSpelled(t: Text, space: Text)
    requires AllSpace(space) && (t == [] || !IsSpace(t[|t| - 1]))
    ensures TrimEnd(t + space) == t
  {
    if space == [] {
      assert t + space == t;
    } else {
      var n := |space| - 1;
      assert (t + space)[..|t + space| - 1] == t + space[..n];
      TrimEndSpelled(t, space[..n]);
    }
  }

  lemma TrimSpelled(lead: Text, t: Text, trail: Text)
    requires AllSpace(lead) && AllSpace(trail)
    requires t != [] && !IsSpace(t[0]) && !IsSpace(t[|t| - 1])
    ensures Trim(lead + t + trail) == t
  {
    assert lead + t + trail == lead + (t + trail);
    SkipSpelled(lead, t + trail);
    TrimEndSpelled(t, trail);
  }

  lemma TermEnd(s: TermSpelling)
    requires ValidTerm(s)
    ensures TermText(s) != [] && !IsSpace(TermText(s)[|TermText(s)| - 1])
  {
    match s
    case IntegerTerm(digits) =>
      assert IsDigit(digits[|digits| - 1]);
    case DiceTerm(count, d, faces, keep) =>
      if keep.Some? {
        assert IsDigit(keep.value.amount[|keep.value.amount| - 1]);
      } else if faces.Numeral? {
        assert IsDigit(faces.digits[|faces.digits| - 1]);
      }
  }

  lemma {:induction false} RollEnd(roll: seq<SignedSpelling>)
    requires roll != [] && forall i :: 0 <= i < |roll| ==> ValidTerm(roll[i].term)
    ensures RollText(roll) != [] && !IsSpace(RollText(roll)[|RollText(roll)| - 1])
  {
    TermEnd(roll[0].term);
    var first := SignedText(roll[0]);
    assert first[|first| - 1] == TermText(roll[0].term)[|TermText(roll[0].term)| - 1];
    if |roll| > 1 {
      RollEnd(roll[1..]);
    }
  }

  lemma RollStart(roll: seq<SignedSpelling>)
    requires ValidRoll(roll)
    ensures RollText(roll) == SignText(roll[0]) + BehindSign(roll)
    ensures RollText(roll) != [] && !IsSpace(RollText(roll)[0])
    ensures roll[0].sign.None? ==> !IsSign(RollText(roll)[0])
  {
    TermStart(roll[0].term);
    var s := roll[0];
    assert s.before + (SignText(s) + (s.after + TermText(s.term))) + RollText(roll[1..]) == SignText(s) + BehindSign(roll);
  }

  /** Every spelling of a list of terms within the limits, surrounded by any white space, is parsed
      to these terms. */
  lemma SpellingIsParsed(lead: Text, roll: seq<SignedSpelling>, trail: Text, limits: Limits)
    requires AllSpace(lead) && AllSpace(trail) && ValidRoll(roll)
    requires Within(RollOf(roll), 0, limits) && |RollText(roll)| <= limits.maxLength
    ensures Trim(lead + RollText(roll) + trail) == RollText(roll)
    ensures NotationOutcome(lead + RollText(roll) + trail, limits) == Ok(RollOf(roll), [])
  {
    hide TermsAt;
    var t := RollText(roll);
    RollStart(roll);
    RollEnd(roll);
    TrimSpelled(lead, t, trail);
    forall i | 0 <= i < |roll[1..]|
      ensures ValidSigned(roll[1..][i], false)
    {
      assert ValidSigned(roll[i + 1], i + 1 == 0);
    }
    TermsSpelled(roll, roll[0].sign == Some(MINUS), 0, limits);
    if roll[0].sign.Some? {
      assert t[1..] == BehindSign(roll);
    } else {
      assert t == BehindSign(roll);
    }
  }

  // ----- what an accepted text looks like -----

  lemma {:induction false} SkipSplit(t: Text) returns (space: Text)
    ensures AllSpace(space) && t == space + SkipSpace(t)
    ensures t == [] || !IsSpace(t[0]) ==> space == []
  {
    if t != [] && IsSpace(t[0]) {
      var s := SkipSplit(t[1..]);
      space := [t[0]] + s;
    } else {
      space := [];
    }
  }

  lemma IntegerSplit(t: Text) returns (space: Text, digits: Text)
    requires IntegerAt(t).Ok?
    ensures ValidNumeral(space, digits) && t == space + digits + IntegerAt(t).rest
    ensures t == [] || !IsSpace(t[0]) ==> space == []
    ensures IntegerAt(t).value == DigitsValue(digits)
  {
    hide SkipSpace, DigitRun, DigitsValue;
    var u := SkipSpace(t);
    var n := DigitRun(u);
    space := SkipSplit(t);
    DigitRunFacts(u);
    digits := u[..n];
    assert u == digits + u[n..];
    assert space + (digits + u[n..]) == space + digits + u[n..];
  }

  lemma FacesSplit(t: Text) returns (f: FacesSpelling)
    requires FacesAt(t).Ok?
    ensures f.Numeral? ==> ValidNumeral(f.space, f.digits)
    ensures t == FacesText(f) + FacesAt(t).rest && FacesAt(t).value == FacesOf(f)
  {
    if t != [] && t[0] == PERCENT {
      f := Percent;
      assert t == [PERCENT] + t[1..];
    } else {
      var space, digits := IntegerSplit(t);
      f := Numeral(space, digits);
    }
  }

  lemma KeepSplit(t: Text, count: nat) returns (k: Option<KeepSpelling>)
    requires KeepAt(t, count).Ok?
    ensures k.Some? ==>
              && Lower(k.value.k) == LOWER_K
              && (Lower(k.value.mode) == LOWER_H || Lower(k.value.mode) == LOWER_L)
              && ValidNumeral(k.value.space, k.value.amount)
              && 1 <= DigitsValue(k.value.amount) <= count
    ensures t == KeepText(k) + KeepAt(t, count).rest && KeepAt(t, count).value == KeepOf(k)
  {
    if Matches(t, LOWER_H) || Matches(t, LOWER_L) {
      var space, digits := IntegerSplit(t[2..]);
      k := Some(KeepSpelling(t[0], t[1], space, digits));
      assert t == [t[0], t[1]] + t[2..];
      assert t == KeepText(k) + IntegerAt(t[2..]).rest;
    } else {
      k := None;
      assert t == [] + t;
    }
  }

  lemma DiceSplit(count: Text, d: CodeUnit, t: Text, negative: bool, limits: Limits) returns (s: TermSpelling)
    requires DiceAt(t, CountOf(count), negative, limits).Ok? && AllDigits(count) && IsD(d)
    ensures s.DiceTerm? && s.count == count && s.d == d && ValidTerm(s)
    ensures var r := DiceAt(t, CountOf(count), negative, limits);
            && t == FacesText(s.faces) + (KeepText(s.keep) + r.rest)
            && r.value == TermOf(s, negative) && TermWithin(r.value, limits)
  {
    hide KeepAt, FacesAt;
    var faces := FacesSplit(t);
    var keep := KeepSplit(FacesAt(t).rest, CountOf(count));
    s := DiceTerm(count, d, faces, keep);
  }

  lemma TermSplit(t: Text, negative: bool, limits: Limits) returns (s: TermSpelling)
    requires TermAt(t, negative, limits).Ok? && (t == [] || !IsSpace(t[0]))
    ensures ValidTerm(s) && t == TermText(s) + TermAt(t, negative, limits).rest
    ensures TermAt(t, negative, limits).value == TermOf(s, negative) && TermWithin(TermOf(s, negative), limits)
  {
    hide DiceAt, IntegerAt, FacesText, KeepText, DigitRun, DigitsValue;
    if StartsWithD(t) {
      s := DiceSplit([], t[0], t[1..], negative, limits);
      TextOfDice(s, TermAt(t, negative, limits).rest);
      assert t == [t[0]] + t[1..];
    } else {
      var space, digits := IntegerSplit(t);
      var rest := IntegerAt(t).rest;
      assert t == digits + rest;
      if StartsWithD(rest) {
        s := DiceSplit(digits, rest[0], rest[1..], negative, limits);
        TextOfDice(s, TermAt(t, negative, limits).rest);
        assert rest == [rest[0]] + rest[1..];
      } else {
        s := IntegerTerm(digits);
      }
    }
  }

  lemma {:induction false} TermsSplit(t: Text, sign: Option<CodeUnit>, total: nat, limits: Limits)
    returns (roll: seq<SignedSpelling>, trail: Text)
    requires TermsAt(t, sign == Some(MINUS), total, limits).Ok? && total <= limits.maxDice
    requires sign.None? ==> t == [] || !IsSpace(t[0])
    ensures roll != [] && roll[0].before == [] && roll[0].sign == sign && ValidTerm(roll[0].term)
    ensures AllSpace(roll[0].after) && (sign.None? ==> roll[0].after == [])
    ensures ValidTail(roll[1..]) && AllSpace(trail) && t == BehindSign(roll) + trail
    ensures TermsAt(t, sign == Some(MINUS), total, limits) == Ok(RollOf(roll), [])
    ensures Within(RollOf(roll), total, limits)
    decreases |t|
  {
    hide TermAt, TermsAt, TermText, TermOf, RollText, Within, RollOf, BehindSign;
    TermsStep(t, sign == Some(MINUS), total, limits);
    var after := SkipSplit(t);
    var term := TermSplit(SkipSpace(t), sign == Some(MINUS), limits);
    var rest := TermAt(SkipSpace(t), sign == Some(MINUS), limits).rest;
    var first := SignedSpelling([], sign, after, term);
    var space := SkipSplit(rest);
    var next := SkipSpace(rest);
    if next == [] {
      roll, trail := [first], space;
      SingleRoll(first, total, limits);
      assert RollText(roll[1..]) + trail == rest;
    } else {
      var others, end := TermsSplit(next[1..], Some(next[0]), total + DiceIn(SignedOf(first)), limits);
      var tail := WithSpace(space, others);
      roll, trail := [first] + tail, end;
      assert roll[1..] == tail;
      assert next == [next[0]] + next[1..];
      TailValid(space, others);
      TailTextBack(space, others, end);
      RollJoins(first, space, others, total, limits);
      assert RollText(roll[1..]) + trail == rest;
    }
    FirstTextBack(roll, trail, t);
  }

  lemma SingleRoll(first: SignedSpelling, total: nat, limits: Limits)
    ensures [first][1..] == [] && RollText([]) == []
    ensures RollOf([first]) == [SignedOf(first)]
    ensures TermWithin(SignedOf(first), limits) && total + DiceIn(SignedOf(first)) <= limits.maxDice ==>
              Within(RollOf([first]), total, limits)
  {
    assert RollOf([first]) == [SignedOf(first)];
  }

  /** A roll whose first sign has white space in front of it. */
  function WithSpace(space: Text, roll: seq<SignedSpelling>): (r: seq<SignedSpelling>)
    requires roll != []
    ensures |r| == |roll|
  {
    [roll[0].(before := space)] + roll[1..]
  }

  lemma TailValid(space: Text, others: seq<SignedSpelling>)
    requires others != [] && others[0].sign.Some? && IsSign(others[0].sign.value) && AllSpace(space)
    requires ValidTerm(others[0].term) && AllSpace(others[0].after) && ValidTail(others[1..])
    ensures ValidTail(WithSpace(space, others))
  {
    var tail := WithSpace(space, others);
    assert forall i :: 0 < i < |tail| ==> tail[i] == others[1..][i - 1];
  }

  lemma TailTextBack(space: Text, others: seq<SignedSpelling>, trail: Text)
    requires others != [] && others[0].sign.Some?
    ensures RollText(WithSpace(space, others)) + trail ==
            space + ([others[0].sign.value] + (BehindSign(others) + trail))
  {
    hide RollText;
    var tail := WithSpace(space, others);
    assert tail[1..] == others[1..];
    TailText(tail);
    Regroup(space, [others[0].sign.value], BehindSign(others), trail);
  }

  lemma Regroup(a: Text, b: Text, c: Text, d: Text)
    ensures a + (b + c) + d == a + (b + (c + d))
  {
  }

  lemma FirstTextBack(roll: seq<SignedSpelling>, trail: Text, t: Text)
    requires roll != []
    requires t == roll[0].after + (TermText(roll[0].term) + (RollText(roll[1..]) + trail))
    ensures t == BehindSign(roll) + trail
  {
    Regroup(roll[0].after, TermText(roll[0].term), RollText(roll[1..]), trail);
  }

  lemma RollJoins(first: SignedSpelling, space: Text, others: seq<SignedSpelling>, total: nat, limits: Limits)
    requires others != [] && TermWithin(SignedOf(first), limits)
    requires Within(RollOf(others), total + DiceIn(SignedOf(first)), limits)
    ensures var roll := [first] + WithSpace(space, others);
            RollOf(roll) == [SignedOf(first)] + RollOf(others) && Within(RollOf(roll), total, limits)
  {
    var roll := [first] + WithSpace(space, others);
    var terms := RollOf(others);
    assert RollOf(roll) == [SignedOf(first)] + terms;
    assert RollOf(roll)[1..] == terms;
    assert forall i :: 0 < i < |RollOf(roll)| ==> RollOf(roll)[i] == terms[i - 1];
  }

  // ----- the notation, both ways -----

  /** The text is a spelling of the terms, surrounded by white space, and not too long. */
  ghost predicate IsSpelling(text: Text, terms: seq<Term>, limits: Limits) {
    exists lead, roll, trail :: SpelledBy(text, terms, limits, lead, roll, trail)
  }

  ghost predicate SpelledBy(text: Text, terms: seq<Term>, limits: Limits, lead: Text, roll: seq<SignedSpelling>,
                            trail: Text) {
    && AllSpace(lead) && AllSpace(trail) && ValidRoll(roll)
    && text == lead + RollText(roll) + trail
    && RollOf(roll) == terms
    && |RollText(roll)| <= limits.maxLength
  }

  lemma {:induction false} TrimEndSplit(t: Text) returns (space: Text)
    ensures AllSpace(space) && t == TrimEnd(t) + space
  {
    if t != [] && IsSpace(t[|t| - 1]) {
      var s := TrimEndSplit(t[..|t| - 1]);
      space := s + [t[|t| - 1]];
    } else {
      space := [];
    }
  }

  lemma {:induction false} TrimEndStart(t: Text)
    ensures |TrimEnd(t)| <= |t|
    ensures TrimEnd(t) != [] ==> TrimEnd(t)[0] == t[0]
  {
    if t != [] && IsSpace(t[|t| - 1]) {
      TrimEndStart(t[..|t| - 1]);
    }
  }

  lemma TrimmedStep(t: Text, limits: Limits)
    requires t != [] && !IsSpace(t[0]) && |t| <= limits.maxLength
    ensures TrimmedOutcome(t, limits) ==
            TermsAt(if IsSign(t[0]) then t[1..] else t, t[0] == MINUS, 0, limits)
  {
    hide TermsAt;
  }

  lemma RollIsValid(roll: seq<SignedSpelling>)
    requires roll != [] && roll[0].before == [] && ValidSigned(roll[0], true) && ValidTail(roll[1..])
    ensures ValidRoll(roll)
  {
    hide ValidTerm;
    forall i | 0 <= i < |roll|
      ensures ValidSigned(roll[i], i == 0)
    {
      assert i > 0 ==> roll[i] == roll[1..][i - 1];
    }
  }

  lemma TrimmedSplit(t: Text, limits: Limits) returns (roll: seq<SignedSpelling>, trail: Text)
    requires t != [] && !IsSpace(t[0]) && |t| <= limits.maxLength && TrimmedOutcome(t, limits).Ok?
    ensures ValidRoll(roll) && AllSpace(trail) && t == RollText(roll) + trail
    ensures TrimmedOutcome(t, limits) == Ok(RollOf(roll), [])
    ensures Within(RollOf(roll), 0, limits)
  {
    hide TermsAt, TrimmedOutcome, TermText, RollText, RollOf, Within, BehindSign, ValidTerm, ValidTail, ValidRoll;
    TrimmedStep(t, limits);
    var u := if IsSign(t[0]) then t[1..] else t;
    var sign := if IsSign(t[0]) then Some(t[0]) else None;
    roll, trail := TermsSplit(u, sign, 0, limits);
    RollIsValid(roll);
    RollStart(roll);
    assert t == SignText(roll[0]) + u;
    assert SignText(roll[0]) + (BehindSign(roll) + trail) == RollText(roll) + trail;
  }

  /** The parser accepts exactly the spellings of term lists within the limits, and each as the
      terms it spells. */
  lemma ParserAcceptsSpellings(notation: Text, terms: seq<Term>, limits: Limits)
    ensures NotationOutcome(notation, limits) == Ok(terms, []) <==>
            IsSpelling(notation, terms, limits) && Within(terms, 0, limits)
    ensures NotationOutcome(notation, limits).Ok? ==> NotationOutcome(notation, limits).rest == []
  {
    hide TrimmedOutcome;
    if IsSpelling(notation, terms, limits) && Within(terms, 0, limits) {
      var lead, roll, trail :| SpelledBy(notation, terms, limits, lead, roll, trail);
      SpellingIsParsed(lead, roll, trail, limits);
    }
    if NotationOutcome(notation, limits).Ok? {
      AcceptedIsSpelling(notation, limits);
    }
  }

  lemma LengthChecked(t: Text, limits: Limits)
    requires TrimmedOutcome(t, limits).Ok?
    ensures t != [] && |t| <= limits.maxLength
  {
    hide TermsAt;
  }

  lemma AcceptedIsSpelling(notation: Text, limits: Limits)
    requires NotationOutcome(notation, limits).Ok?
    ensures var r := NotationOutcome(notation, limits);
            r.rest == [] && IsSpelling(notation, r.value, limits) && Within(r.value, 0, limits)
  {
    hide TrimmedOutcome, RollText, RollOf, Within, ValidRoll;
    var t := Trim(notation);
    var lead := SkipSplit(notation);
    var end := TrimEndSplit(SkipSpace(notation));
    TrimEndStart(SkipSpace(notation));
    assert t != [] && |t| <= limits.maxLength by {
      LengthChecked(t, limits);
    }
    var roll, trail := TrimmedSplit(t, limits);
    Regroup(lead, RollText(roll), trail, end);
    assert lead + RollText(roll) + (trail + end) == lead + (RollText(roll) + (trail + end));
    assert SpelledBy(notation, RollOf(roll), limits, lead, roll, trail + end);
  }

  // ----- every list of terms has a printed form -----

  function PrintTerm(term: Term): TermSpelling {
    match term
    case Modifier(value, _) => IntegerTerm(Digits(value))
    case Dice(count, faces, keep, _) =>
      DiceTerm(Digits(count), LOWER_D, Numeral([], Digits(faces)),
               if keep.None? then None
               else Some(KeepSpelling(LOWER_K, if keep.value.highest then LOWER_H else LOWER_L, [], Digits(keep.value.amount))))
  }

  /** The printed term behind white space, sign and white space again; a positive first term goes
      without a sign. */
  function PrintSigned(term: Term, first: bool, before: Text, after: Text): SignedSpelling {
    SignedSpelling(
      if first then [] else before,
      if term.negative then Some(MINUS) else if first then None else Some(PLUS),
      if first && !term.negative then [] else after,
      PrintTerm(term))
  }

  /** The terms in a row, with the white space given for each sign. */
  function Print(terms: seq<Term>, before: seq<Text>, after: seq<Text>): seq<SignedSpelling>
    requires |before| == |after| == |terms|
  {
    seq(|terms|, i requires 0 <= i < |terms| => PrintSigned(terms[i], i == 0, before[i], after[i]))
  }

  lemma PrintedTerm(term: Term)
    ensures ValidTerm(PrintTerm(term)) && TermOf(PrintTerm(term), term.negative) == term
  {
    hide Digits, DigitsValue;
    match term
    case Modifier(value, _) => DigitsRead(value);
    case Dice(count, faces, keep, _) =>
      DigitsRead(count);
      DigitsRead(faces);
      if keep.Some? {
        DigitsRead(keep.value.amount);
      }
  }

  /** Every non-empty list of terms within the limits is what the parser makes of its printed form,
      with any white space around the signs and at both ends, if only the text is not too long. */
  lemma PrintedIsParsed(terms: seq<Term>, before: seq<Text>, after: seq<Text>, lead: Text, trail: Text, limits: Limits)
    requires terms != [] && Within(terms, 0, limits)
    requires |before| == |after| == |terms| && AllSpace(lead) && AllSpace(trail)
    requires forall i :: 0 <= i < |terms| ==> AllSpace(before[i]) && AllSpace(after[i])
    requires |RollText(Print(terms, before, after))| <= limits.maxLength
    ensures NotationOutcome(lead + RollText(Print(terms, before, after)) + trail, limits) == Ok(terms, [])
  {
    hide PrintTerm, TermOf, ValidTerm, RollText, Within, NotationOutcome, Trim;
    var roll := Print(terms, before, after);
    forall i | 0 <= i < |roll|
      ensures ValidSigned(roll[i], i == 0) && SignedOf(roll[i]) == terms[i]
    {
      PrintedTerm(terms[i]);
    }
    assert RollOf(roll) == terms;
    SpellingIsParsed(lead, roll, trail, limits);
  }

  /** The round trip under the limits that are configured. */
  method PrintAndParse(terms: seq<Term>, before: seq<Text>, after: seq<Text>) returns (parsed: Parsed<seq<Term>>)
    requires terms != [] && Within(terms, 0, DICE_LIMITS)
    requires |before| == |after| == |terms|
    requires forall i :: 0 <= i < |terms| ==> AllSpace(before[i]) && AllSpace(after[i])
    ensures |RollText(Print(terms, before, after))| <= DICE_LIMITS.maxLength ==> parsed == Success(terms)
  {
    hide RollText, Print, Within, NotationOutcome, Trim;
    var text := RollText(Print(terms, before, after));
    assert [] + text + [] == text;
    if |text| <= DICE_LIMITS.maxLength {
      PrintedIsParsed(terms, before, after, [], [], DICE_LIMITS);
    }
    parsed := ParseDiceNotation(text, DICE_LIMITS);
  }
}
