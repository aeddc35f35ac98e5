/** Rolling a parsed notation: which dice are kept, and what they add up to. */
module DiceEvaluation {
  import opened JsText
  import opened DiceNotation
  import opened DiceSpelling
  import opened Wrappers

  /** The random source: what its k-th call answers when asked for a number from 1 to `max`. */
  type Rng = (nat, nat) -> nat

  ghost predicate InRange(rng: Rng) {
    forall k, max {:trigger rng(k, max)} :: max > 0 ==> 1 <= rng(k, max) <= max
  }

  datatype Die = Die(value: nat, kept: bool)

  datatype Result =
    | ModifierResult(value: nat, negative: bool, subtotal: int)
    | DiceResult(count: nat, faces: nat, keep: Option<Keep>, rolls: seq<Die>, negative: bool, subtotal: int)

  function Signed(negative: bool, n: int): int {
    if negative then -n else n
  }

  // ----- choosing dice -----

  /** The sum of the values at the indices in `chosen`. */
  ghost function SumAt(values: seq<nat>, chosen: set<nat>): nat {
    if values == [] then 0
    else
      var n := |values| - 1;
      SumAt(values[..n], chosen) + if n in chosen then values[n] else 0
  }

  ghost predicate Choice(values: seq<nat>, chosen: set<nat>, amount: nat) {
    |chosen| == amount && forall i :: i in chosen ==> i < |values|
  }

  /** Among all choices of that many dice this one has the highest, or the lowest, sum. */
  ghost predicate BestChoice(values: seq<nat>, kept: set<nat>, keep: Keep) {
    && Choice(values, kept, keep.amount)
    && forall other :: Choice(values, other, keep.amount) ==>
         if keep.highest then SumAt(values, other) <= SumAt(values, kept) else SumAt(values, other) >= SumAt(values, kept)
  }

  /** The sort's order: by value, and dice of the same value as they were rolled. */
  predicate Beats(values: seq<nat>, highest: bool, i: nat, j: nat)
    requires i < |values| && j < |values|
  {
    if values[i] == values[j] then i < j else (values[i] > values[j]) == highest
  }

  ghost predicate Indices(values: seq<nat>, order: seq<nat>) {
    forall k :: 0 <= k < |order| ==> order[k] < |values|
  }

  ghost predicate Sorted(values: seq<nat>, highest: bool, order: seq<nat>)
    requires Indices(values, order)
  {
    forall i, j :: 0 <= i < j < |order| ==> Beats(values, highest, order[i], order[j])
  }

  /** A stable sort of the indices, one insertion after the other. */
  method SortIndices(values: seq<nat>, highest: bool) returns (order: seq<nat>)
    ensures |order| == |values| && Indices(values, order) && Sorted(values, highest, order)
    ensures forall i: nat :: i < |values| ==> i in order
  {
    order := [];
    for n := 0 to |values|
      invariant |order| == n && Indices(values, order) && Sorted(values, highest, order)
      invariant forall i: nat :: i in order <==> i < n
    {
      var k := 0;
      while k < |order| && Beats(values, highest, order[k], n)
        invariant 0 <= k <= |order|
        invariant forall j :: 0 <= j < k ==> Beats(values, highest, order[j], n)
      {
        k := k + 1;
      }
      InsertSorted(values, highest, order, k, n);
      InsertedMembers(order, k, n);
      order := order[..k] + [n] + order[k..];
    }
  }

  lemma InsertedMembers(order: seq<nat>, k: nat, n: nat)
    requires k <= |order|
    ensures forall i :: i in order[..k] + [n] + order[k..] <==> i == n || i in order
  {
    assert order == order[..k] + order[k..];
  }

  lemma InsertSorted(values: seq<nat>, highest: bool, order: seq<nat>, k: nat, n: nat)
    requires n < |values| && Indices(values, order) && Sorted(values, highest, order) && n !in order
    requires k <= |order| && forall j :: 0 <= j < k ==> Beats(values, highest, order[j], n)
    requires k < |order| ==> !Beats(values, highest, order[k], n)
    ensures var r := order[..k] + [n] + order[k..];
            Indices(values, r) && Sorted(values, highest, r)
  {
    forall j | k <= j < |order|
      ensures Beats(values, highest, n, order[j])
    {
      assert order[j] in order && order[k] in order;
      if j > k {
        assert Beats(values, highest, order[k], order[j]);
      }
    }
  }

  /** Keeping marks exactly `amount` dice; no other choice of as many dice does better, and of dice
      with the same value those rolled first are kept. */
  method KeepDice(values: seq<nat>, keep: Keep) returns (rolls: seq<Die>)
    requires keep.amount <= |values|
    ensures |rolls| == |values| && forall i :: 0 <= i < |rolls| ==> rolls[i].value == values[i]
    ensures BestChoice(values, KeptIndices(rolls), keep)
    ensures KeptBeatOthers(values, keep.highest, KeptIndices(rolls))
  {
    var order := SortIndices(values, keep.highest);
    var keepIndices := set k | 0 <= k < keep.amount :: order[k];
    FirstsAreBest(values, keep.highest, order, keepIndices, keep.amount);
    rolls := [];
    for i := 0 to |values|
      invariant |rolls| == i
      invariant forall j :: 0 <= j < i ==> rolls[j] == Die(values[j], j in keepIndices)
    {
      rolls := rolls + [Die(values[i], i in keepIndices)];
    }
    assert KeptIndices(rolls) == keepIndices;
    ChoiceIsBest(values, keepIndices, keep);
  }

  ghost function KeptIndices(rolls: seq<Die>): set<nat> {
    set i: nat | i < |rolls| && rolls[i].kept
  }

  /** No die that is left out beats one that is kept. */
  ghost predicate KeptBeatOthers(values: seq<nat>, highest: bool, kept: set<nat>) {
    forall i: nat, j: nat {:trigger i in kept, j in kept} :: i in kept && j < |values| && j !in kept ==>
      i < |values| && Beats(values, highest, i, j)
  }

  lemma FirstsAreBest(values: seq<nat>, highest: bool, order: seq<nat>, kept: set<nat>, amount: nat)
    requires Indices(values, order) && Sorted(values, highest, order)
    requires forall i: nat :: i < |values| ==> i in order
    requires amount <= |order| && kept == set k | 0 <= k < amount :: order[k]
    ensures Choice(values, kept, amount) && KeptBeatOthers(values, highest, kept)
  {
    DistinctFirsts(values, highest, order, amount);
    forall i: nat, j: nat | i in kept && j < |values| && j !in kept
      ensures i < |values| && Beats(values, highest, i, j)
    {
      var k :| 0 <= k < amount && order[k] == i;
      assert j in order;
      var m :| 0 <= m < |order| && order[m] == j;
    }
  }

  lemma {:induction false} DistinctFirsts(values: seq<nat>, highest: bool, order: seq<nat>, amount: nat)
    requires Indices(values, order) && Sorted(values, highest, order) && amount <= |order|
    ensures |set k | 0 <= k < amount :: order[k]| == amount
  {
    if amount > 0 {
      var n := amount - 1;
      DistinctFirsts(values, highest, order, n);
      var firsts := set k | 0 <= k < n :: order[k];
      assert (set k | 0 <= k < amount :: order[k]) == firsts + {order[n]};
      assert order[n] !in firsts;
    }
  }

  lemma {:induction false} SumWith(values: seq<nat>, chosen: set<nat>, i: nat)
    requires i < |values| && i !in chosen
    ensures SumAt(values, chosen + {i}) == SumAt(values, chosen) + values[i]
  {
    var n := |values| - 1;
    if i < n {
      SumWith(values[..n], chosen, i);
    } else {
      SumBelow(values[..n], chosen, i);
    }
  }

  lemma {:induction false} SumBelow(values: seq<nat>, chosen: set<nat>, i: nat)
    requires i >= |values|
    ensures SumAt(values, chosen + {i}) == SumAt(values, chosen)
  {
    if values != [] {
      SumBelow(values[..|values| - 1], chosen, i);
    }
  }

  /** Exchanging one chosen die for another. */
  lemma SumExchange(values: seq<nat>, chosen: set<nat>, from: nat, to: nat)
    requires from < |values| && to < |values| && from in chosen && to !in chosen
    ensures SumAt(values, chosen - {from} + {to}) == SumAt(values, chosen) - values[from] + values[to]
  {
    var others := chosen - {from};
    SumWith(values, others, from);
    SumWith(values, others, to);
    assert others + {from} == chosen;
  }

  /** Any other choice can be turned into the kept one, exchange by exchange, never for the worse. */
  lemma {:induction false} NoChoiceIsBetter(values: seq<nat>, highest: bool, kept: set<nat>, other: set<nat>)
    requires Choice(values, kept, |kept|) && Choice(values, other, |kept|) && KeptBeatOthers(values, highest, kept)
    ensures if highest then SumAt(values, other) <= SumAt(values, kept) else SumAt(values, other) >= SumAt(values, kept)
    decreases |other - kept|
  {
    if other - kept == {} {
      assert other <= kept;
      SubsetOfSameSize(other, kept);
    } else {
      var from :| from in other - kept;
      if kept - other == {} {
        assert forall x :: x in kept ==> x in other || x in kept - other;
        SubsetOfSameSize(kept, other);
      }
      var to :| to in kept - other;
      var closer := other - {from} + {to};
      SumExchange(values, other, from, to);
      assert closer - kept == (other - kept) - {from};
      assert Beats(values, highest, to, from);
      NoChoiceIsBetter(values, highest, kept, closer);
    }
  }

  lemma SubsetOfSameSize(a: set<nat>, b: set<nat>)
    requires a <= b && |a| == |b|
    ensures a == b
  {
    assert |b - a| == 0;
  }

  lemma ChoiceIsBest(values: seq<nat>, kept: set<nat>, keep: Keep)
    requires Choice(values, kept, keep.amount) && KeptBeatOthers(values, keep.highest, kept)
    ensures BestChoice(values, kept, keep)
  {
    forall other | Choice(values, other, keep.amount)
      ensures if keep.highest then SumAt(values, other) <= SumAt(values, kept)
              else SumAt(values, other) >= SumAt(values, kept)
    {
      NoChoiceIsBetter(values, keep.highest, kept, other);
    }
  }

  // ----- one term -----

  function Values(rolls: seq<Die>): (values: seq<nat>)
    ensures |values| == |rolls| && forall i :: 0 <= i < |rolls| ==> values[i] == rolls[i].value
  {
    seq(|rolls|, i requires 0 <= i < |rolls| => rolls[i].value)
  }

  /** What a term's result promises, whatever was rolled. */
  ghost predicate Fits(term: Term, r: Result) {
    match term
    case Modifier(value, negative) => r == ModifierResult(value, negative, Signed(negative, value))
    case Dice(count, faces, keep, negative) =>
      && r.DiceResult?
      && r.count == count && r.faces == faces && r.keep == keep && r.negative == negative
      && |r.rolls| == count
      && (forall i :: 0 <= i < count ==> 1 <= r.rolls[i].value <= faces)
      && (if keep.Some? then
            && BestChoice(Values(r.rolls), KeptIndices(r.rolls), keep.value)
            && KeptBeatOthers(Values(r.rolls), keep.value.highest, KeptIndices(r.rolls))
          else forall i :: 0 <= i < count ==> r.rolls[i].kept)
      && r.subtotal == Signed(negative, SumAt(Values(r.rolls), KeptIndices(r.rolls)))
  }

  method RollTerm(term: Term, limits: Limits, rng: Rng, calls: nat) returns (r: Result)
    requires TermWithin(term, limits) && InRange(rng)
    ensures Fits(term, r) && Drawn(term, r, rng, calls)
  {
    if term.Modifier? {
      return ModifierResult(term.value, term.negative, Signed(term.negative, term.value));
    }
    var values: seq<nat> := [];
    for i := 0 to term.count
      invariant |values| == i && forall j :: 0 <= j < i ==> values[j] == rng(calls + j, term.faces)
    {
      values := values + [rng(calls + i, term.faces)];
    }
    var rolls := seq(term.count, i requires 0 <= i < term.count => Die(values[i], true));
    if term.keep.Some? {
      rolls := KeepDice(values, term.keep.value);
    }
    assert Values(rolls) == values;
    var kept := SumKept(rolls);
    r := DiceResult(term.count, term.faces, term.keep, rolls, term.negative, Signed(term.negative, kept));
  }

  method SumKept(rolls: seq<Die>) returns (sum: nat)
    ensures sum == SumAt(Values(rolls), KeptIndices(rolls))
  {
    sum := 0;
    for k := 0 to |rolls|
      invariant sum == SumAt(Values(rolls)[..k], KeptIndices(rolls))
    {
      assert Values(rolls)[..k + 1][..k] == Values(rolls)[..k];
      if rolls[k].kept {
        sum := sum + rolls[k].value;
      }
    }
    assert Values(rolls)[..|rolls|] == Values(rolls);
  }

  // ----- the whole roll -----

  function SumOfSubtotals(results: seq<Result>): int {
    if results == [] then 0 else SumOfSubtotals(results[..|results| - 1]) + results[|results| - 1].subtotal
  }

  ghost predicate AllFit(terms: seq<Term>, results: seq<Result>) {
    |results| == |terms| && forall i :: 0 <= i < |terms| ==> Fits(terms[i], results[i])
  }

  /** The dice of a term show what the random source answered behind the dice of the terms before. */
  ghost predicate Drawn(term: Term, r: Result, rng: Rng, calls: nat) {
    term.Dice? ==>
      r.DiceResult? && |r.rolls| == term.count
      && forall i :: 0 <= i < term.count ==> r.rolls[i].value == rng(calls + i, term.faces)
  }

  ghost predicate AllDrawn(terms: seq<Term>, results: seq<Result>, rng: Rng) {
    |results| == |terms| && forall i :: 0 <= i < |terms| ==> Drawn(terms[i], results[i], rng, TotalDice(terms[..i]))
  }

  method Evaluate(terms: seq<Term>, limits: Limits, rng: Rng) returns (results: seq<Result>, total: int)
    requires forall i :: 0 <= i < |terms| ==> TermWithin(terms[i], limits)
    requires InRange(rng)
    ensures AllFit(terms, results) && AllDrawn(terms, results, rng) && total == SumOfSubtotals(results)
  {
    hide Fits, Drawn;
    results, total := [], 0;
    var calls: nat := 0;
    for k := 0 to |terms|
      invariant AllFit(terms[..k], results) && AllDrawn(terms[..k], results, rng)
      invariant total == SumOfSubtotals(results) && calls == TotalDice(terms[..k])
    {
      var r := RollTerm(terms[k], limits, rng, calls);
      calls := calls + DiceIn(terms[k]);
      TotalDicePush(terms[..k], terms[k]);
      assert terms[..k + 1] == terms[..k] + [terms[k]];
      assert forall i :: 0 <= i <= k ==> terms[..k + 1][..i] == terms[..i] == terms[..k][..i];
      assert (results + [r])[..k] == results;
      results := results + [r];
      total := total + r.subtotal;
    }
    assert terms[..|terms|] == terms;
  }

  /** Parsing and rolling: an accepted notation always gives a result that fits its terms. */
  method EvaluateDiceNotation(notation: Text, limits: Limits, rng: Rng)
    returns (parsed: Parsed<seq<Term>>, results: seq<Result>, total: int)
    requires InRange(rng)
    ensures parsed == AsParsed(NotationOutcome(notation, limits), |Trim(notation)|)
    ensures parsed.Success? ==>
              && AllFit(parsed.value, results) && AllDrawn(parsed.value, results, rng) && total == SumOfSubtotals(results)
              && -DiceBound(limits) <= DicePart(results) <= DiceBound(limits)
  {
    hide NotationOutcome, AllFit, AllDrawn;
    parsed := ParseDiceNotation(notation, limits);
    results, total := [], 0;
    if parsed.Success? {
      AcceptedWithin(notation, limits);
      results, total := Evaluate(parsed.value, limits, rng);
      DicePartBounded(parsed.value, results, limits);
    }
  }

  /** The same under the limits that are configured: 100 dice of 1000 faces at most. */
  method RollNotation(notation: Text, rng: Rng) returns (parsed: Parsed<seq<Term>>, results: seq<Result>, total: int)
    requires InRange(rng)
    ensures parsed == AsParsed(NotationOutcome(notation, DICE_LIMITS), |Trim(notation)|)
    ensures parsed.Success? ==>
              && AllFit(parsed.value, results) && AllDrawn(parsed.value, results, rng) && total == SumOfSubtotals(results)
              && -100_000 <= DicePart(results) <= 100_000
  {
    hide NotationOutcome, AllFit, AllDrawn;
    parsed, results, total := EvaluateDiceNotation(notation, DICE_LIMITS, rng);
  }

  function DiceBound(limits: Limits): int {
    limits.maxDice * limits.maxFaces
  }

  /** What a term comes to before its sign: its integer, or the sum of its kept dice. */
  ghost function Magnitude(r: Result): int {
    if r.ModifierResult? then r.value else SumAt(Values(r.rolls), KeptIndices(r.rolls))
  }

  /** The sum over the terms with a minus in front, or over those without. */
  ghost function MagnitudeSum(terms: seq<Term>, results: seq<Result>, negative: bool): int
    requires |terms| == |results|
  {
    if terms == [] then 0
    else
      var n := |terms| - 1;
      MagnitudeSum(terms[..n], results[..n], negative)
      + if terms[n].negative == negative then Magnitude(results[n]) else 0
  }

  /** The total is what the added terms come to, less what the subtracted ones do. */
  lemma {:induction false} TotalIsDifference(terms: seq<Term>, results: seq<Result>)
    requires AllFit(terms, results)
    ensures SumOfSubtotals(results) == MagnitudeSum(terms, results, false) - MagnitudeSum(terms, results, true)
  {
    hide BestChoice, KeptBeatOthers, SumAt;
    if terms != [] {
      var n := |terms| - 1;
      assert forall i :: 0 <= i < n ==> Fits(terms[i], results[i]);
      TotalIsDifference(terms[..n], results[..n]);
      assert Fits(terms[n], results[n]);
    }
  }

  /** The part of the total that comes from dice. */
  function DicePart(results: seq<Result>): int {
    if results == [] then 0
    else
      var n := |results| - 1;
      DicePart(results[..n]) + if results[n].DiceResult? then results[n].subtotal else 0
  }

  lemma {:induction false} SumBounded(values: seq<nat>, chosen: set<nat>, faces: nat)
    requires forall i :: 0 <= i < |values| ==> values[i] <= faces
    ensures SumAt(values, chosen) <= |values| * faces
  {
    if values != [] {
      var n := |values| - 1;
      SumBounded(values[..n], chosen, faces);
      assert |values| * faces == n * faces + faces;
    }
  }

  lemma {:induction false} TotalDicePush(terms: seq<Term>, term: Term)
    ensures TotalDice(terms + [term]) == TotalDice(terms) + DiceIn(term)
  {
    if terms == [] {
      assert [] + [term] == [term];
    } else {
      assert (terms + [term])[1..] == terms[1..] + [term];
      TotalDicePush(terms[1..], term);
    }
  }

  lemma TimesMonotone(a: nat, b: nat, k: nat)
    requires a <= b
    ensures a * k <= b * k
  {
    assert b * k == a * k + (b - a) * k;
  }

  ghost predicate WithinBound(n: int, dice: nat, faces: nat) {
    -(dice * faces as int) <= n <= dice * faces
  }

  lemma TermBounded(term: Term, r: Result, faces: nat)
    requires Fits(term, r) && r.DiceResult? && r.faces <= faces
    ensures WithinBound(r.subtotal, DiceIn(term), faces)
  {
    SumBounded(Values(r.rolls), KeptIndices(r.rolls), faces);
  }

  lemma BoundsAdd(n: int, dice: nat, m: int, more: nat, faces: nat)
    requires WithinBound(n, dice, faces) && WithinBound(m, more, faces)
    ensures WithinBound(n + m, dice + more, faces)
  {
    assert (dice + more) * faces == dice * faces + more * faces;
  }

  lemma {:induction false} DiceSumBounded(terms: seq<Term>, results: seq<Result>, limits: Limits)
    requires AllFit(terms, results)
    requires forall i :: 0 <= i < |terms| ==> TermWithin(terms[i], limits)
    ensures WithinBound(DicePart(results), TotalDice(terms), limits.maxFaces)
  {
    hide WithinBound;
    if terms == [] {
      NoDice(limits.maxFaces);
    } else {
      var n := |terms| - 1;
      DiceSumBounded(terms[..n], results[..n], limits);
      TotalDicePush(terms[..n], terms[n]);
      assert terms[..n] + [terms[n]] == terms;
      var before := TotalDice(terms[..n]);
      if results[n].DiceResult? {
        TermBounded(terms[n], results[n], limits.maxFaces);
        BoundsAdd(DicePart(results[..n]), before, results[n].subtotal, DiceIn(terms[n]), limits.maxFaces);
      }
    }
  }

  lemma NoDice(faces: nat)
    ensures WithinBound(0, 0, faces)
  {
  }

  /** Whatever is rolled, the dice part stays within the greatest number of dice times the most faces. */
  lemma DicePartBounded(terms: seq<Term>, results: seq<Result>, limits: Limits)
    requires AllFit(terms, results) && Within(terms, 0, limits)
    ensures -DiceBound(limits) <= DicePart(results) <= DiceBound(limits)
  {
    hide AllFit;
    DiceSumBounded(terms, results, limits);
    TimesMonotone(TotalDice(terms), limits.maxDice, limits.maxFaces);
  }

  lemma AcceptedWithin(notation: Text, limits: Limits)
    requires NotationOutcome(notation, limits).Ok?
    ensures Within(NotationOutcome(notation, limits).value, 0, limits)
  {
    AcceptedIsSpelling(notation, limits);
  }
}
