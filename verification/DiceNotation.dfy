/** The dice notation: tokenizer and recursive-descent parser, and the notation it accepts.

    roll := ("+" | "-")? term (("+" | "-") term)*
    term := integer | integer? "d" (integer | "%") (("kh" | "kl") integer)?

    White space is allowed around the signs and in front of an integer behind "d", "kh" or "kl". */
module DiceNotation {
  import opened Wrappers
  import opened DecimalText
  import opened JsText

  datatype Limits = Limits(maxDice: nat, maxFaces: nat, maxLength: nat)

  const DICE_LIMITS: Limits := Limits(100, 1000, 128)

  datatype Keep = Keep(highest: bool, amount: nat)

  datatype Term =
    | Dice(count: nat, faces: nat, keep: Option<Keep>, negative: bool)
    | Modifier(value: nat, negative: bool)

  datatype Error =
    | EmptyNotation
    | TooLong
    | UnexpectedEnd
    | ExpectedTerm
    | ExpectedFaces
    | CountOutOfRange
    | FacesOutOfRange
    | ExpectedKeepAmount
    | KeepExceedsCount
    | TooManyDice
    | UnexpectedCharacter

  /** A value and the text behind it, or an error and the text in front of which it arose. */
  datatype Outcome<+T> = Ok(value: T, rest: Text) | Err(error: Error, rest: Text)

  const PLUS: CodeUnit := 43
  const PERCENT: CodeUnit := 37
  const UPPER_D: CodeUnit := 68
  const LOWER_D: CodeUnit := 100
  const LOWER_H: CodeUnit := 104
  const LOWER_K: CodeUnit := 107
  const LOWER_L: CodeUnit := 108
  const KELVIN_SIGN: CodeUnit := 0x212A

  /** What `\s` matches and `trim` removes. */
  predicate IsSpace(c: CodeUnit) {
    9 <= c <= 13 || c == 32 || c == 0xA0 || c == 0x1680 || 0x2000 <= c <= 0x200A || c == 0x2028 || c == 0x2029
    || c == 0x202F || c == 0x205F || c == 0x3000 || c == 0xFEFF
  }

  predicate AllSpace(t: Text) {
    forall i :: 0 <= i < |t| ==> IsSpace(t[i])
  }

  /** `toLowerCase` on one unit, as far as the result can be an ASCII letter. */
  function Lower(c: CodeUnit): CodeUnit {
    if 65 <= c <= 90 then c + 32 else if c == KELVIN_SIGN then LOWER_K else c
  }

  predicate IsD(c: CodeUnit) {
    c == LOWER_D || c == UPPER_D
  }

  predicate IsSign(c: CodeUnit) {
    c == PLUS || c == MINUS
  }

  // ----- the parser as functions on the text that is left -----

  function SkipSpace(t: Text): (r: Text)
    ensures |r| <= |t|
    ensures r == [] || !IsSpace(r[0])
    ensures t != [] && !IsSpace(t[0]) ==> r == t
  {
    if t != [] && IsSpace(t[0]) then SkipSpace(t[1..]) else t
  }

  function IntegerAt(t: Text): (r: Outcome<nat>)
    ensures |r.rest| <= |t|
    ensures r.Ok? ==> |r.rest| < |t|
  {
    var u := SkipSpace(t);
    var n := DigitRun(u);
    if n == 0 then Err(ExpectedTerm, u) else Ok(DigitsValue(u[..n]), u[n..])
  }

  predicate StartsWithD(t: Text) {
    t != [] && IsD(t[0])
  }

  /** `match('k' + mode)` */
  predicate Matches(t: Text, mode: CodeUnit) {
    |t| >= 2 && Lower(t[0]) == LOWER_K && Lower(t[1]) == mode
  }

  function FacesAt(t: Text): (r: Outcome<nat>)
    ensures |r.rest| <= |t|
  {
    if t != [] && t[0] == PERCENT then Ok(100, t[1..])
    else
      match IntegerAt(t)
      case Err(_, rest) => Err(ExpectedFaces, rest)
      case Ok(faces, rest) => Ok(faces, rest)
  }

  function KeepAmountAt(t: Text, highest: bool, count: nat): (r: Outcome<Option<Keep>>)
    ensures |r.rest| <= |t|
  {
    match IntegerAt(t)
    case Err(_, rest) => Err(ExpectedKeepAmount, rest)
    case Ok(amount, rest) =>
      if amount == 0 then Err(ExpectedKeepAmount, rest)
      else if amount > count then Err(KeepExceedsCount, rest)
      else Ok(Some(Keep(highest, amount)), rest)
  }

  function KeepAt(t: Text, count: nat): (r: Outcome<Option<Keep>>)
    ensures |r.rest| <= |t|
  {
    if Matches(t, LOWER_H) then KeepAmountAt(t[2..], true, count)
    else if Matches(t, LOWER_L) then KeepAmountAt(t[2..], false, count)
    else Ok(None, t)
  }

  /** A dice term behind its "d". */
  function DiceAt(t: Text, count: nat, negative: bool, limits: Limits): (r: Outcome<Term>)
    ensures |r.rest| <= |t|
  {
    match FacesAt(t)
    case Err(error, rest) => Err(error, rest)
    case Ok(faces, rest) =>
      if count == 0 || count > limits.maxDice then Err(CountOutOfRange, rest)
      else if faces == 0 || faces > limits.maxFaces then Err(FacesOutOfRange, rest)
      else
        match KeepAt(rest, count)
        case Err(error, rest) => Err(error, rest)
        case Ok(keep, rest) => Ok(Dice(count, faces, keep, negative), rest)
  }

  function TermAt(t: Text, negative: bool, limits: Limits): (r: Outcome<Term>)
    ensures |r.rest| <= |t|
    ensures r.Ok? ==> |r.rest| < |t|
  {
    if StartsWithD(t) then DiceAt(t[1..], 1, negative, limits)
    else
      match IntegerAt(t)
      case Err(error, rest) => Err(error, rest)
      case Ok(count, rest) =>
        if StartsWithD(rest) then DiceAt(rest[1..], count, negative, limits)
        else Ok(Modifier(count, negative), rest)
  }

  function DiceIn(term: Term): nat {
    if term.Dice? then term.count else 0
  }

  /** Terms already read in front of what the rest gives. */
  function Behind(terms: seq<Term>, r: Outcome<seq<Term>>): Outcome<seq<Term>> {
    match r
    case Ok(more, rest) => Ok(terms + more, rest)
    case Err(error, rest) => Err(error, rest)
  }

  /** The terms from here on, `total` dice having been read. */
  function TermsAt(t: Text, negative: bool, total: nat, limits: Limits): (r: Outcome<seq<Term>>)
    ensures |r.rest| <= |t|
    decreases |t|
  {
    match TermAt(SkipSpace(t), negative, limits)
    case Err(error, rest) => Err(error, rest)
    case Ok(term, rest) =>
      var sum := total + DiceIn(term);
      if sum > limits.maxDice && term.Dice? then Err(TooManyDice, rest)
      else
        var next := SkipSpace(rest);
        if next == [] then Ok([term], next)
        else if !IsSign(next[0]) then Err(UnexpectedCharacter, next)
        else
          Behind([term], TermsAt(next[1..], next[0] == MINUS, sum, limits))
  }

  function TrimEnd(t: Text): Text {
    if t != [] && IsSpace(t[|t| - 1]) then TrimEnd(t[..|t| - 1]) else t
  }

  /** `notation.trim()` */
  function Trim(t: Text): Text {
    TrimEnd(SkipSpace(t))
  }

  function TrimmedOutcome(t: Text, limits: Limits): (r: Outcome<seq<Term>>)
    ensures |r.rest| <= |t|
  {
    if t == [] then Err(EmptyNotation, t)
    else if |t| > limits.maxLength then Err(TooLong, t)
    else
      var u := SkipSpace(t);
      if u != [] && IsSign(u[0]) then TermsAt(u[1..], u[0] == MINUS, 0, limits)
      else TermsAt(u, false, 0, limits)
  }

  function NotationOutcome(notation: Text, limits: Limits): (r: Outcome<seq<Term>>)
    ensures |r.rest| <= |Trim(notation)|
  {
    TrimmedOutcome(Trim(notation), limits)
  }

  // ----- the tokenizer and the parser as the program runs them -----

  /** Ok, or an error with its position in the trimmed notation. */
  datatype Parsed<+T> = Success(value: T) | Failure(error: Error, position: nat)

  /** An outcome on the text that is left, as a result with a position. */
  function AsParsed<T>(r: Outcome<T>, length: nat): Parsed<T>
    requires |r.rest| <= length
  {
    match r
    case Ok(value, _) => Success(value)
    case Err(error, rest) => Failure(error, length - |rest|)
  }

  class Tokenizer {
    const input: Text
    var pos: nat

    ghost predicate Valid()
      reads this
    {
      pos <= |input|
    }

    ghost function Rest(): Text
      reads this
      requires Valid()
    {
      input[pos..]
    }

    constructor (input: Text)
      ensures Valid() && this.input == input && pos == 0
    {
      this.input := input;
      pos := 0;
    }

    method Peek() returns (c: Option<CodeUnit>)
      requires Valid()
      ensures c == if Rest() == [] then None else Some(Rest()[0])
    {
      return if pos < |input| then Some(input[pos]) else None;
    }

    /** None stands for the error thrown at the end of the input. */
    method Consume() returns (c: Option<CodeUnit>)
      requires Valid()
      modifies this
      ensures Valid()
      ensures c == if old(Rest()) == [] then None else Some(old(Rest())[0])
      ensures Rest() == if old(Rest()) == [] then [] else old(Rest())[1..]
    {
      if pos >= |input| {
        return None;
      }
      c := Some(input[pos]);
      pos := pos + 1;
    }

    /** `match('k' + mode)` */
    method Match(mode: CodeUnit) returns (found: bool)
      requires Valid()
      modifies this
      ensures Valid()
      ensures found == Matches(old(Rest()), mode)
      ensures Rest() == if found then old(Rest())[2..] else old(Rest())
    {
      if pos + 2 <= |input| && Lower(input[pos]) == LOWER_K && Lower(input[pos + 1]) == mode {
        pos := pos + 2;
        return true;
      }
      return false;
    }

    method SkipWhitespace()
      requires Valid()
      modifies this
      ensures Valid()
      ensures Rest() == SkipSpace(old(Rest()))
    {
      while pos < |input| && IsSpace(input[pos])
        invariant Valid()
        invariant SkipSpace(Rest()) == SkipSpace(old(Rest()))
      {
        assert Rest()[0] == input[pos] && Rest()[1..] == input[pos + 1..];
        pos := pos + 1;
      }
    }

    method SkipDigits()
      requires Valid()
      modifies this
      ensures Valid()
      ensures pos == old(pos) + DigitRun(old(Rest()))
    {
      ghost var start := pos;
      while pos < |input| && IsDigit(input[pos])
        invariant start <= pos && Valid()
        invariant DigitRun(old(Rest())) == (pos - start) + DigitRun(Rest())
      {
        assert Rest()[0] == input[pos] && Rest()[1..] == input[pos + 1..];
        pos := pos + 1;
      }
    }

    method ReadInteger() returns (n: Option<nat>)
      requires Valid()
      modifies this
      ensures Valid()
      ensures Rest() == IntegerAt(old(Rest())).rest
      ensures n == match IntegerAt(old(Rest())) case Ok(value, _) => Some(value) case Err(_, _) => None
    {
      SkipWhitespace();
      var start := pos;
      ghost var text := Rest();
      SkipDigits();
      if pos == start {
        return None;
      }
      assert input[start..pos] == text[..pos - start];
      return Some(DigitsValue(input[start..pos]));
    }
  }

  /** The tokenizer stands behind the value, or the parser stopped with the error where it stands. */
  ghost predicate Follows<T>(r: Parsed<T>, t: Tokenizer, outcome: Outcome<T>)
    reads t
    requires t.Valid()
  {
    && t.Rest() == outcome.rest
    && r == match outcome
            case Ok(value, _) => Success(value)
            case Err(error, _) => Failure(error, t.pos)
  }

  method ParseTerm(t: Tokenizer, negative: bool, limits: Limits) returns (r: Parsed<Term>)
    requires t.Valid()
    modifies t
    ensures t.Valid()
    ensures Follows(r, t, TermAt(old(t.Rest()), negative, limits))
  {
    var count: Option<nat> := None;
    var next := t.Peek();
    if next.None? || !IsD(next.value) {
      count := t.ReadInteger();
      if count.None? {
        return Failure(ExpectedTerm, t.pos);
      }
    }
    next := t.Peek();
    if next.None? || !IsD(next.value) {
      return Success(Modifier(count.value, negative));
    }
    var _ := t.Consume();
    r := ParseDice(t, if count.None? then 1 else count.value, negative, limits);
  }

  method ParseDice(t: Tokenizer, count: nat, negative: bool, limits: Limits) returns (r: Parsed<Term>)
    requires t.Valid()
    modifies t
    ensures t.Valid()
    ensures Follows(r, t, DiceAt(old(t.Rest()), count, negative, limits))
  {
    var faces: nat;
    var next := t.Peek();
    if next == Some(PERCENT) {
      var _ := t.Consume();
      faces := 100;
    } else {
      var f := t.ReadInteger();
      if f.None? {
        return Failure(ExpectedFaces, t.pos);
      }
      faces := f.value;
    }
    if count <= 0 || count > limits.maxDice {
      return Failure(CountOutOfRange, t.pos);
    }
    if faces <= 0 || faces > limits.maxFaces {
      return Failure(FacesOutOfRange, t.pos);
    }
    var keep := ParseKeep(t, count);
    match keep {
      case Failure(error, position) => return Failure(error, position);
      case Success(k) => return Success(Dice(count, faces, k, negative));
    }
  }

  method ParseKeep(t: Tokenizer, count: nat) returns (r: Parsed<Option<Keep>>)
    requires t.Valid()
    modifies t
    ensures t.Valid()
    ensures Follows(r, t, KeepAt(old(t.Rest()), count))
  {
    var highest := t.Match(LOWER_H);
    var lowest := false;
    if !highest {
      lowest := t.Match(LOWER_L);
    }
    if !highest && !lowest {
      return Success(None);
    }
    var amount := t.ReadInteger();
    if amount.None? || amount.value <= 0 {
      return Failure(ExpectedKeepAmount, t.pos);
    }
    if amount.value > count {
      return Failure(KeepExceedsCount, t.pos);
    }
    return Success(Some(Keep(highest, amount.value)));
  }

  method ParseDiceNotation(notation: Text, limits: Limits) returns (r: Parsed<seq<Term>>)
    ensures r == AsParsed(NotationOutcome(notation, limits), |Trim(notation)|)
  {
    var trimmed := Trim(notation);
    if |trimmed| == 0 {
      return Failure(EmptyNotation, 0);
    }
    if |trimmed| > limits.maxLength {
      return Failure(TooLong, 0);
    }
    var t := new Tokenizer(trimmed);
    var negative := false;
    t.SkipWhitespace();
    var next := t.Peek();
    if next.Some? && IsSign(next.value) {
      var sign := t.Consume();
      negative := sign == Some(MINUS);
    }
    r := ParseLoop(t, negative, limits);
  }

  /** The parser's loop. Every pass consumes at least one unit, so it ends. */
  method ParseLoop(t: Tokenizer, firstNegative: bool, limits: Limits) returns (r: Parsed<seq<Term>>)
    requires t.Valid()
    modifies t
    ensures t.Valid()
    ensures Follows(r, t, TermsAt(old(t.Rest()), firstNegative, 0, limits))
  {
    hide TermsAt;
    var terms: seq<Term> := [];
    var totalDice: nat := 0;
    var negative := firstNegative;
    ghost var whole := TermsAt(t.Rest(), negative, 0, limits);
    BehindNothing(whole);
    while true
      invariant t.Valid()
      invariant whole == Behind(terms, TermsAt(t.Rest(), negative, totalDice, limits))
      decreases |t.Rest()|
    {
      ghost var here := TermsAt(t.Rest(), negative, totalDice, limits);
      var parsed, next := ParsePass(t, negative, totalDice, limits);
      match parsed {
        case Failure(error, position) => return Failure(error, position);
        case Success(term) =>
          totalDice := totalDice + DiceIn(term);
          if next.None? {
            return Success(terms + [term]);
          }
          negative := next.value == MINUS;
          BehindOne(terms, term, TermsAt(t.Rest(), negative, totalDice, limits));
          terms := terms + [term];
      }
    }
  }

  /** One pass: a term, and the sign behind it unless the input ends there. */
  method ParsePass(t: Tokenizer, negative: bool, totalDice: nat, limits: Limits)
    returns (r: Parsed<Term>, next: Option<CodeUnit>)
    requires t.Valid()
    modifies t
    ensures t.Valid()
    ensures r.Failure? ==>
              && TermsAt(old(t.Rest()), negative, totalDice, limits) == Err(r.error, t.Rest())
              && r.position == t.pos
    ensures r.Success? && next.None? ==>
              TermsAt(old(t.Rest()), negative, totalDice, limits) == Ok([r.value], t.Rest())
    ensures r.Success? && next.Some? ==>
              && TermsAt(old(t.Rest()), negative, totalDice, limits) ==
                 Behind([r.value], TermsAt(t.Rest(), next.value == MINUS, totalDice + DiceIn(r.value), limits))
              && |t.Rest()| < |old(t.Rest())|
  {
    hide TermAt, TermsAt;
    TermsStep(t.Rest(), negative, totalDice, limits);
    t.SkipWhitespace();
    r := ParseTerm(t, negative, limits);
    next := None;
    if r.Failure? {
      return;
    }
    if r.value.Dice? && totalDice + r.value.count > limits.maxDice {
      return Failure(TooManyDice, t.pos), None;
    }
    t.SkipWhitespace();
    next := t.Peek();
    if next.None? {
      return;
    }
    if !IsSign(next.value) {
      return Failure(UnexpectedCharacter, t.pos), None;
    }
    next := t.Consume();
  }

  lemma BehindNothing(r: Outcome<seq<Term>>)
    ensures Behind([], r) == r
  {
    if r.Ok? {
      assert [] + r.value == r.value;
    }
  }

  /** One unfolding of TermsAt. */
  lemma TermsStep(t: Text, negative: bool, total: nat, limits: Limits)
    ensures TermsAt(t, negative, total, limits) ==
            match TermAt(SkipSpace(t), negative, limits)
            case Err(error, rest) => Err(error, rest)
            case Ok(term, rest) =>
              var sum, next := total + DiceIn(term), SkipSpace(rest);
              if sum > limits.maxDice && term.Dice? then Err(TooManyDice, rest)
              else if next == [] then Ok([term], next)
              else if !IsSign(next[0]) then Err(UnexpectedCharacter, next)
              else Behind([term], TermsAt(next[1..], next[0] == MINUS, sum, limits))
  {
    hide TermAt;
  }

  lemma BehindOne(terms: seq<Term>, term: Term, r: Outcome<seq<Term>>)
    ensures Behind(terms, Behind([term], r)) == Behind(terms + [term], r)
  {
    if r.Ok? {
      assert terms + ([term] + r.value) == (terms + [term]) + r.value;
    }
  }
}
