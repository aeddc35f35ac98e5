/** Which error a dice notation gets that is refused, and the letters of the notation. */
module DiceRefusals {
  import opened DecimalText
  import opened DiceNotation
  import opened DiceSpelling
  import opened JsText
  import opened Wrappers

  // ----- letters and limits -----

  const SPACES: set<int> :=
    {9, 10, 11, 12, 13, 32, 0xA0, 0x1680, 0x2000, 0x2001, 0x2002, 0x2003, 0x2004, 0x2005, 0x2006, 0x2007, 0x2008,
     0x2009, 0x200A, 0x2028, 0x2029, 0x202F, 0x205F, 0x3000, 0xFEFF}

  /** What the notation is written in: "d" and "D", "%", the two signs, the letters of "kh" and "kl" in
      either case, of which "k" has the Kelvin sign as a third, and the white space of ECMAScript. */
  lemma Letters(c: CodeUnit)
    ensures IsD(c) <==> c in {'d' as int, 'D' as int}
    ensures IsSign(c) <==> c in {'+' as int, '-' as int}
    ensures c == MINUS <==> c == '-' as int
    ensures c == PERCENT <==> c == '%' as int
    ensures Lower(c) == LOWER_K <==> c in {'k' as int, 'K' as int, 0x212A}
    ensures Lower(c) == LOWER_H <==> c in {'h' as int, 'H' as int}
    ensures Lower(c) == LOWER_L <==> c in {'l' as int, 'L' as int}
    ensures IsSpace(c) <==> c in SPACES
    ensures IsDigit(c) <==> '0' as int <= c <= '9' as int
  {
  }

  lemma ConfiguredLimits()
    ensures DICE_LIMITS.maxDice == 100 && DICE_LIMITS.maxFaces == 1000 && DICE_LIMITS.maxLength == 128
  {
  }

  // ----- a spelled term -----

  /** The first limit that a spelled term breaks, in the order in which the parser checks. */
  function TermFault(t: Term, limits: Limits): Option<Error> {
    if t.Modifier? then None
    else if t.count < 1 || limits.maxDice < t.count then Some(CountOutOfRange)
    else if t.faces < 1 || limits.maxFaces < t.faces then Some(FacesOutOfRange)
    else if t.keep.None? then None
    else if t.keep.value.amount < 1 then Some(ExpectedKeepAmount)
    else if t.count < t.keep.value.amount then Some(KeepExceedsCount)
    else None
  }

  lemma FaultIff(t: Term, limits: Limits)
    ensures TermFault(t, limits).None? <==> TermWithin(t, limits)
  {
  }

  lemma KeepRefused(k: Option<KeepSpelling>, count: nat, t: Text)
    requires k.Some?
             && Lower(k.value.k) == LOWER_K
             && (Lower(k.value.mode) == LOWER_H || Lower(k.value.mode) == LOWER_L)
             && ValidNumeral(k.value.space, k.value.amount)
    requires EndsTerm(t) && (KeepOf(k).value.amount < 1 || count < KeepOf(k).value.amount)
    ensures var r := KeepAt(KeepText(k) + t, count);
            r.Err? && r.error == if KeepOf(k).value.amount < 1 then ExpectedKeepAmount else KeepExceedsCount
  {
    var number := k.value.space + k.value.amount;
    assert (KeepText(k) + t)[2..] == number + t;
    IntegerSpelled(k.value.space, k.value.amount, t);
  }

  lemma DiceRefused(s: TermSpelling, negative: bool, limits: Limits, t: Text)
    requires s.DiceTerm? && ValidTerm(s) && EndsTerm(t) && TermFault(TermOf(s, negative), limits).Some?
    ensures var r := DiceAt(FacesText(s.faces) + (KeepText(s.keep) + t), CountOf(s.count), negative, limits);
            r.Err? && Some(r.error) == TermFault(TermOf(s, negative), limits)
  {
    hide FacesAt, KeepAt;
    KeepStart(s.keep, t);
    FacesSpelled(s.faces, KeepText(s.keep) + t);
    if s.keep.Some? && (KeepOf(s.keep).value.amount < 1 || CountOf(s.count) < KeepOf(s.keep).value.amount) {
      KeepRefused(s.keep, CountOf(s.count), t);
    }
  }

  /** A spelled term that breaks a limit is refused for the first one that it breaks. */
  lemma TermRefused(s: TermSpelling, negative: bool, limits: Limits, t: Text)
    requires ValidTerm(s) && EndsTerm(t) && TermFault(TermOf(s, negative), limits).Some?
    ensures var r := TermAt(TermText(s) + t, negative, limits);
            r.Err? && Some(r.error) == TermFault(TermOf(s, negative), limits)
  {
    hide DiceAt, IntegerAt, TermAt;
    var dice := FacesText(s.faces) + (KeepText(s.keep) + t);
    DiceRefused(s, negative, limits, t);
    TextOfDice(s, t);
    if s.count == [] {
      BareDice(s.d, dice, negative, limits);
    } else {
      DigitsSpelled(s.count, [s.d] + dice);
      CountedDice(s.count + ([s.d] + dice), negative, limits, DigitsValue(s.count), s.d, dice);
    }
  }

  // ----- a spelled roll -----

  /** The first fault of a list of terms, `total` dice being in front of it. */
  function Fault(terms: seq<Term>, total: nat, limits: Limits): Option<Error> {
    if terms == [] then None
    else if TermFault(terms[0], limits).Some? then TermFault(terms[0], limits)
    else if terms[0].Dice? && limits.maxDice < total + terms[0].count then Some(TooManyDice)
    else Fault(terms[1..], total + DiceIn(terms[0]), limits)
  }

  lemma {:induction false} FaultsIff(terms: seq<Term>, total: nat, limits: Limits)
    requires total <= limits.maxDice
    ensures Fault(terms, total, limits).None? <==> Within(terms, total, limits)
  {
    if terms != [] {
      FaultIff(terms[0], limits);
      if TermFault(terms[0], limits).None? && total + DiceIn(terms[0]) <= limits.maxDice {
        FaultsIff(terms[1..], total + DiceIn(terms[0]), limits);
        assert forall i :: 0 < i < |terms| ==> terms[i] == terms[1..][i - 1];
      } else {
        MoreDice(terms[1..]);
      }
    }
  }

  lemma MoreDice(terms: seq<Term>)
    ensures TotalDice(terms) >= 0
  {
  }

  lemma RollOfStep(roll: seq<SignedSpelling>)
    requires roll != []
    ensures RollOf(roll) == [SignedOf(roll[0])] + RollOf(roll[1..])
    ensures RollOf(roll)[1..] == RollOf(roll[1..])
  {
  }

  lemma NoTerms()
    ensures RollOf([]) == []
  {
  }

  lemma {:induction false} TermsRefused(roll: seq<SignedSpelling>, negative: bool, total: nat, limits: Limits)
    requires roll != [] && ValidTerm(roll[0].term) && AllSpace(roll[0].after) && ValidTail(roll[1..])
    requires negative == (roll[0].sign == Some(MINUS)) && total <= limits.maxDice
    requires Fault(RollOf(roll), total, limits).Some?
    ensures var r := TermsAt(BehindSign(roll), negative, total, limits);
            r.Err? && Some(r.error) == Fault(RollOf(roll), total, limits)
  {
    hide TermAt, TermsAt, TermOf, TermText, RollText, RollOf, TermFault, TermWithin;
    var term, tail := roll[0].term, roll[1..];
    var t := BehindSign(roll);
    TermStart(term);
    SkipSpelled(roll[0].after, TermText(term) + RollText(tail));
    TailStart(tail);
    RollOfStep(roll);
    TermsStep(t, negative, total, limits);
    var first := SignedOf(roll[0]);
    if TermFault(first, limits).Some? {
      TermRefused(term, negative, limits, RollText(tail));
    } else {
      FaultIff(first, limits);
      TermSpelled(term, negative, limits, RollText(tail));
      if tail == [] {
        NoTerms();
      } else if total + DiceIn(first) <= limits.maxDice {
        assert ValidSigned(tail[0], false);
        TermsRefused(tail, tail[0].sign == Some(MINUS), total + DiceIn(first), limits);
        var next := SkipSpace(RollText(tail));
        assert next[0] == tail[0].sign.value && next[1..] == BehindSign(tail);
      }
    }
  }

  /** A spelled list of terms that is not within the limits is refused for its first fault: each term
      is checked for itself, then the dice so far. */
  lemma RollRefused(lead: Text, roll: seq<SignedSpelling>, trail: Text, limits: Limits)
    requires AllSpace(lead) && AllSpace(trail) && ValidRoll(roll)
    requires |RollText(roll)| <= limits.maxLength && !Within(RollOf(roll), 0, limits)
    ensures var r := NotationOutcome(lead + RollText(roll) + trail, limits);
            r.Err? && Some(r.error) == Fault(RollOf(roll), 0, limits)
  {
    hide TermsAt, RollOf, Fault, Within;
    var t := RollText(roll);
    RollStart(roll);
    RollEnd(roll);
    TrimSpelled(lead, t, trail);
    forall i | 0 <= i < |roll[1..]|
      ensures ValidSigned(roll[1..][i], false)
    {
      assert ValidSigned(roll[i + 1], i + 1 == 0);
    }
    FaultsIff(RollOf(roll), 0, limits);
    TermsRefused(roll, roll[0].sign == Some(MINUS), 0, limits);
    if roll[0].sign.Some? {
      assert t[1..] == BehindSign(roll);
    } else {
      assert t == BehindSign(roll);
    }
  }

  // ----- texts that are no spelling -----

  lemma {:induction false} SkipAll(t: Text)
    requires AllSpace(t)
    ensures SkipSpace(t) == []
  {
    if t != [] {
      SkipAll(t[1..]);
    }
  }

  lemma {:induction false} NotBlank(t: Text)
    requires !AllSpace(t)
    ensures SkipSpace(t) != [] && Trim(t) != []
  {
    if IsSpace(t[0]) {
      var i :| 0 <= i < |t| && !IsSpace(t[i]);
      assert t[1..][i - 1] == t[i];
      NotBlank(t[1..]);
    } else {
      TrimEndKeeps(t);
    }
  }

  lemma {:induction false} TrimEndKeeps(t: Text)
    requires t != [] && !IsSpace(t[0])
    ensures TrimEnd(t) != []
  {
    if IsSpace(t[|t| - 1]) {
      TrimEndKeeps(t[..|t| - 1]);
    }
  }

  /** Blank and overlong notations are refused as such. */
  lemma EmptyOrTooLong(notation: Text, limits: Limits)
    ensures AllSpace(notation) ==> NotationOutcome(notation, limits) == Err(EmptyNotation, [])
    ensures !AllSpace(notation) && |Trim(notation)| > limits.maxLength ==>
              NotationOutcome(notation, limits) == Err(TooLong, Trim(notation))
  {
    if AllSpace(notation) {
      SkipAll(notation);
    } else {
      NotBlank(notation);
    }
  }

  /** The rest of the text has an integer in front, behind any white space. */
  predicate HasInteger(t: Text) {
    StartsWithDigit(SkipSpace(t))
  }

  /** An integer that is missing at the start of a term, behind "d" or behind "kh" and "kl". */
  lemma MissingInteger(t: Text, negative: bool, count: nat, limits: Limits)
    requires !HasInteger(t)
    ensures !StartsWithD(t) ==> TermAt(t, negative, limits) == Err(ExpectedTerm, SkipSpace(t))
    ensures !([PERCENT] <= t) ==> DiceAt(t, count, negative, limits) == Err(ExpectedFaces, SkipSpace(t))
    ensures forall k: CodeUnit, mode: CodeUnit :: Lower(k) == LOWER_K && Lower(mode) in {LOWER_H, LOWER_L} ==>
              KeepAt([k, mode] + t, count) == Err(ExpectedKeepAmount, SkipSpace(t))
  {
    forall k: CodeUnit, mode: CodeUnit | Lower(k) == LOWER_K && Lower(mode) in {LOWER_H, LOWER_L}
      ensures KeepAt([k, mode] + t, count) == Err(ExpectedKeepAmount, SkipSpace(t))
    {
      assert ([k, mode] + t)[2..] == t;
    }
  }

  /** Behind a term that is read there must be the end or a sign. */
  lemma StrayCharacter(t: Text, negative: bool, total: nat, limits: Limits)
    requires var r := TermAt(SkipSpace(t), negative, limits);
             && r.Ok? && total + DiceIn(r.value) <= limits.maxDice
             && SkipSpace(r.rest) != [] && SkipSpace(r.rest)[0] !in {'+' as int, '-' as int}
    ensures TermsAt(t, negative, total, limits) ==
            Err(UnexpectedCharacter, SkipSpace(TermAt(SkipSpace(t), negative, limits).rest))
  {
    hide TermAt;
    TermsStep(t, negative, total, limits);
  }
}
