/** ULID generation: a 10-letter timestamp followed by a 16-letter random part, both base 32.
    Within one millisecond the random part is the previous one plus one. */
module Ulid {
  import opened JsText
  import opened Wrappers

  const ENCODING: string := "0123456789ABCDEFGHJKMNPQRSTVWXYZ"
  const ENCODING_LEN: int := 32
  const TIME_LEN: nat := 10
  const RANDOM_LEN: nat := 16

  type Digit = d: int | 0 <= d < 32

  // ----- specification: base-32 numbers, most significant digit first -----

  function Pow32(n: nat): (p: int)
    ensures p >= 1
  {
    if n == 0 then 1 else 32 * Pow32(n - 1)
  }

  function Val(ds: seq<Digit>): nat {
    if ds == [] then 0 else Val(ds[..|ds| - 1]) * 32 + ds[|ds| - 1]
  }

  function Letters(ds: seq<Digit>): string {
    seq(|ds|, i requires 0 <= i < |ds| => ENCODING[ds[i]])
  }

  function FreshDigits(bytes: seq<Byte>): seq<Digit> {
    seq(|bytes|, i requires 0 <= i < |bytes| => bytes[i] % 32)
  }

  /** The n base-32 digits of a number, dropping anything above them. */
  function TimeDigits(value: nat, n: nat): (ds: seq<Digit>)
    ensures |ds| == n
  {
    if n == 0 then [] else TimeDigits(value / 32, n - 1) + [value % 32]
  }

  /** Add one with carry; None when every digit is 31. */
  function Incremented(ds: seq<Digit>): (r: Option<seq<Digit>>)
    ensures r.Some? ==> |r.value| == |ds|
  {
    if ds == [] then None
    else
      var last := |ds| - 1;
      if ds[last] < 31 then Some(ds[..last] + [ds[last] + 1])
      else Behind(Incremented(ds[..last]), [0])
  }

  /** `a < b` on identifiers. */
  predicate Below(a: string, b: string) {
    TextLess(Ascii(a), Ascii(b))
  }

  // ----- state of the generator -----

  /** The module state: time and random digits of the last identifier; (-1, []) before the first. */
  datatype State = State(lastTime: int, lastRandom: seq<Digit>)

  ghost predicate ValidState(s: State) {
    |s.lastRandom| == RANDOM_LEN || s == State(-1, [])
  }

  /** The random digits for a call at time `now`, drawing `drawn` where the code draws bytes. */
  function NextRandom(s: State, now: nat, drawn: seq<Byte>): seq<Digit> {
    if now == s.lastTime && |s.lastRandom| == RANDOM_LEN then
      match Incremented(s.lastRandom)
      case Some(ds) => ds
      case None => FreshDigits(drawn)
    else
      FreshDigits(drawn)
  }

  function NextState(s: State, now: nat, drawn: seq<Byte>): State {
    State(now, NextRandom(s, now, drawn))
  }

  function NextId(s: State, now: nat, drawn: seq<Byte>): string {
    Letters(TimeDigits(now, TIME_LEN)) + Letters(NextRandom(s, now, drawn))
  }

  /** The call falls in the millisecond of the previous one, whose random part is at its maximum. */
  ghost predicate Overflows(s: State, now: nat) {
    now == s.lastTime && |s.lastRandom| == RANDOM_LEN && Val(s.lastRandom) + 1 == Pow32(RANDOM_LEN)
  }

  // ----- the loops -----

  /** A carry result with more digits written behind it. */
  function Behind(high: Option<seq<Digit>>, low: seq<Digit>): (r: Option<seq<Digit>>)
    ensures low == [] ==> r == high
  {
    match high
    case None => None
    case Some(ds) =>
      assert low == [] ==> ds + low == ds;
      Some(ds + low)
  }

  lemma BehindTwice(high: Option<seq<Digit>>, mid: seq<Digit>, low: seq<Digit>)
    ensures Behind(Behind(high, mid), low) == Behind(high, mid + low)
  {
    if high.Some? {
      assert (high.value + mid) + low == high.value + (mid + low);
    }
  }

  method EncodeTime(now: nat) returns (text: string)
    ensures text == Letters(TimeDigits(now, TIME_LEN))
  {
    var value := now;
    var out := new char[TIME_LEN];
    var i: int := TIME_LEN - 1;
    ghost var done: seq<Digit> := [];
    while i >= 0
      invariant -1 <= i < TIME_LEN && value >= 0
      invariant |done| == TIME_LEN - 1 - i
      invariant TimeDigits(now, TIME_LEN) == TimeDigits(value, i + 1) + done
      invariant forall k :: i < k < TIME_LEN ==> out[k] == ENCODING[done[k - i - 1]]
    {
      var mod := value % ENCODING_LEN;
      out[i] := ENCODING[mod];
      done := [mod] + done;
      assert (value - mod) / ENCODING_LEN == value / 32;
      value := (value - mod) / ENCODING_LEN;
      i := i - 1;
    }
    text := out[..];
  }

  function Zeros(n: nat): seq<Digit> {
    seq(n, _ => 0)
  }

  method IncrementRandomDigits(arr: seq<Digit>, drawn: seq<Byte>) returns (r: seq<Digit>)
    ensures r == match Incremented(arr) case Some(ds) => ds case None => FreshDigits(drawn)
  {
    var out := new Digit[|arr|](k requires 0 <= k < |arr| => arr[k]);
    var i := |arr| - 1;
    assert arr[..|arr|] == arr && out[..] == arr + Zeros(0);
    while i >= 0
      invariant -1 <= i < |arr|
      invariant out[..] == arr[..i + 1] + Zeros(|arr| - 1 - i)
      invariant Incremented(arr) == Behind(Incremented(arr[..i + 1]), Zeros(|arr| - 1 - i))
    {
      CarryStep(arr[..i + 1], |arr| - 1 - i);
      ghost var prefix := arr[..i + 1];
      assert prefix[..i] == arr[..i] && out[i] == prefix[i];
      var v := out[i] as int + 1;
      if v < ENCODING_LEN {
        out[i] := v;
        return out[..];
      }
      out[i] := 0;
      i := i - 1;
    }
    return FreshDigits(drawn);
  }

  lemma CarryStep(prefix: seq<Digit>, n: nat)
    requires prefix != []
    ensures var i := |prefix| - 1;
            && (prefix[i] < 31 ==>
                  Behind(Incremented(prefix), Zeros(n)) == Some((prefix + Zeros(n))[i := prefix[i] + 1]))
            && (prefix[i] == 31 ==>
                  && Behind(Incremented(prefix), Zeros(n)) == Behind(Incremented(prefix[..i]), Zeros(n + 1))
                  && (prefix + Zeros(n))[i := 0] == prefix[..i] + Zeros(n + 1))
  {
    var i := |prefix| - 1;
    if prefix[i] < 31 {
      SetLast(prefix, Zeros(n), prefix[i] + 1);
    } else {
      SetLast(prefix, Zeros(n), 0);
      assert [0] + Zeros(n) == Zeros(n + 1);
      BehindTwice(Incremented(prefix[..i]), [0], Zeros(n));
      assert prefix[..i] + ([0] + Zeros(n)) == prefix[..i] + [0] + Zeros(n);
    }
  }

  lemma SetLast(prefix: seq<Digit>, tail: seq<Digit>, d: Digit)
    requires prefix != []
    ensures var i := |prefix| - 1;
            (prefix + tail)[i := d] == prefix[..i] + [d] + tail
  {
  }

  class Generator {
    var lastTime: int
    var lastRandom: seq<Digit>

    ghost function Contents(): State
      reads this
    {
      State(lastTime, lastRandom)
    }

    constructor ()
      ensures Contents() == State(-1, [])
    {
      lastTime, lastRandom := -1, [];
    }

    method Next(now: nat, drawn: seq<Byte>) returns (id: string)
      modifies this
      ensures Contents() == NextState(old(Contents()), now, drawn)
      ensures id == NextId(old(Contents()), now, drawn)
    {
      var digits: seq<Digit>;
      if now == lastTime && |lastRandom| == RANDOM_LEN {
        digits := IncrementRandomDigits(lastRandom, drawn);
      } else {
        digits := FreshDigits(drawn);
      }
      lastTime := now;
      lastRandom := digits;
      var time := EncodeTime(now);
      id := time + Letters(digits);
    }
  }

  method IsUlid(value: string) returns (ok: bool)
    ensures ok <==> |value| == 26 && forall i :: 0 <= i < |value| ==> value[i] in ENCODING
  {
    if |value| != TIME_LEN + RANDOM_LEN {
      return false;
    }
    for i := 0 to |value|
      invariant forall k :: 0 <= k < i ==> value[k] in ENCODING
    {
      if value[i] !in ENCODING {
        return false;
      }
    }
    return true;
  }

  ghost predicate ForeignLetter(text: string) {
    exists i :: 0 <= i < |text| && text[i] !in ENCODING
  }

  /** The text spells the number in base 32. */
  ghost predicate Spells(text: string, value: nat) {
    exists ds: seq<Digit> :: Letters(ds) == text && Val(ds) == value
  }

  /** None stands for the errors thrown on a short identifier and on a foreign letter. */
  method UlidTimestamp(id: string) returns (time: Option<nat>)
    ensures time.None? <==> |id| < 10 || ForeignLetter(id[..10])
    ensures time.Some? ==> Spells(id[..10], time.value)
  {
    hide Letters, Val, IndexOf, Spells, ForeignLetter;
    if |id| < TIME_LEN {
      return None;
    }
    var result: nat := 0;
    ghost var ds: seq<Digit> := [];
    NoDigits();
    for i := 0 to TIME_LEN
      invariant Letters(ds) == id[..i] && Val(ds) == result
    {
      var idx := IndexOf(ENCODING, id[i]);
      if idx.None? {
        IsForeign(id[..TIME_LEN], i);
        return None;
      }
      PushDigit(ds, idx.value);
      ds := ds + [idx.value];
      assert id[..i + 1] == id[..i] + [id[i]];
      result := result * ENCODING_LEN + idx.value;
    }
    LettersAreKnown(ds);
    SpelledBy(ds);
    return Some(result);
  }

  lemma NoDigits()
    ensures Letters([]) == "" && Val([]) == 0
  {
  }

  lemma IsForeign(text: string, i: nat)
    requires i < |text| && text[i] !in ENCODING
    ensures ForeignLetter(text)
  {
  }

  lemma SpelledBy(ds: seq<Digit>)
    ensures Spells(Letters(ds), Val(ds))
  {
  }

  lemma PushDigit(ds: seq<Digit>, d: Digit)
    ensures Val(ds + [d]) == Val(ds) * 32 + d
    ensures Letters(ds + [d]) == Letters(ds) + [ENCODING[d]]
  {
    assert (ds + [d])[..|ds|] == ds;
  }

  lemma LettersAreKnown(ds: seq<Digit>)
    ensures !ForeignLetter(Letters(ds))
  {
  }

  // ----- one step -----

  lemma {:induction false} ValBound(ds: seq<Digit>)
    ensures Val(ds) < Pow32(|ds|)
  {
    if ds != [] {
      ValBound(ds[..|ds| - 1]);
    }
  }

  /** The carry loop adds one to the number, and gives up exactly at the largest number. */
  lemma {:induction false} IncrementedIsPlusOne(ds: seq<Digit>)
    ensures Incremented(ds).Some? <==> Val(ds) + 1 < Pow32(|ds|)
    ensures Incremented(ds).Some? ==> Val(Incremented(ds).value) == Val(ds) + 1
  {
    ValBound(ds);
    if ds != [] {
      var last := |ds| - 1;
      var high := ds[..last];
      ValBound(high);
      IncrementedIsPlusOne(high);
      if ds[last] < 31 {
        assert (high + [ds[last] + 1])[..last] == high;
      } else if Incremented(high).Some? {
        var h := Incremented(high).value;
        assert (h + [0])[..last] == h;
      }
    }
  }

  /** TimeDigits is the inverse of Val below 32^n. */
  lemma {:induction false} TimeDigitsVal(value: nat, n: nat)
    requires value < Pow32(n)
    ensures Val(TimeDigits(value, n)) == value
  {
    if n > 0 {
      TimeDigitsVal(value / 32, n - 1);
      var ds := TimeDigits(value, n);
      assert ds[..n - 1] == TimeDigits(value / 32, n - 1);
    }
  }

  lemma {:induction false} ValInjective(a: seq<Digit>, b: seq<Digit>)
    requires |a| == |b| && Val(a) == Val(b)
    ensures a == b
  {
    if a != [] {
      var n := |a| - 1;
      ValInjective(a[..n], b[..n]);
      assert a == a[..n] + [a[n]] && b == b[..n] + [b[n]];
    }
  }

  lemma {:induction false} EncodingAscends(i: Digit, j: Digit)
    requires i < j
    ensures ENCODING[i] < ENCODING[j]
    ensures |Ascii(ENCODING)| == 32 && Ascii(ENCODING)[i] < Ascii(ENCODING)[j]
    decreases j
  {
    hide ENCODING, Ascii;
    NextLetter(j - 1);
    if i < j - 1 {
      EncodingAscends(i, j - 1);
    }
  }

  lemma NextLetter(i: nat)
    requires i < 31
    ensures |ENCODING| == |Ascii(ENCODING)| == 32
    ensures ENCODING[i] < ENCODING[i + 1] && Ascii(ENCODING)[i] < Ascii(ENCODING)[i + 1]
  {
  }

  /** Comparing the texts of two numbers of the same width compares the numbers. */
  lemma {:induction false} LettersOrder(a: seq<Digit>, b: seq<Digit>)
    requires |a| == |b|
    ensures Below(Letters(a), Letters(b)) <==> Val(a) < Val(b)
  {
    TextLessTotal(Ascii(Letters(a)), Ascii(Letters(b)));
    if Val(a) < Val(b) {
      LettersLess(a, b);
    } else if Val(a) == Val(b) {
      ValInjective(a, b);
    } else {
      LettersLess(b, a);
    }
  }

  /** The first digit in which two numbers of one width differ. */
  lemma {:induction false} FirstDigit(a: seq<Digit>, b: seq<Digit>) returns (k: nat)
    requires |a| == |b| && Val(a) < Val(b)
    ensures k < |a| && a[..k] == b[..k] && a[k] < b[k]
  {
    var n := |a| - 1;
    if Val(a[..n]) < Val(b[..n]) {
      k := FirstDigit(a[..n], b[..n]);
      assert a[..n][..k] == a[..k] && b[..n][..k] == b[..k];
    } else {
      ValInjective(a[..n], b[..n]);
      k := n;
    }
  }

  lemma LettersLess(a: seq<Digit>, b: seq<Digit>)
    requires |a| == |b| && Val(a) < Val(b)
    ensures Below(Letters(a), Letters(b))
  {
    hide ENCODING, Ascii, Letters, Val;
    var k := FirstDigit(a, b);
    LetterUnits(a);
    LetterUnits(b);
    EncodingAscends(a[k], b[k]);
    forall i | 0 <= i < k
      ensures a[i] == b[i]
    {
      assert a[i] == a[..k][i] == b[i];
    }
    DifferenceDecides(Ascii(Letters(a)), Ascii(Letters(b)), k);
  }

  lemma LetterUnits(ds: seq<Digit>)
    ensures |Ascii(Letters(ds))| == |ds| && |Ascii(ENCODING)| == 32
    ensures forall i :: 0 <= i < |ds| ==> Ascii(Letters(ds))[i] == Ascii(ENCODING)[ds[i]]
  {
  }

  lemma {:induction false} ValConcat(a: seq<Digit>, b: seq<Digit>)
    ensures Val(a + b) == Val(a) * Pow32(|b|) + Val(b)
  {
    if b == [] {
      assert a + b == a;
    } else {
      var n := |b| - 1;
      ValConcat(a, b[..n]);
      assert (a + b)[..|a + b| - 1] == a + b[..n];
      ShiftPair(Val(a), Pow32(n), Val(b[..n]), b[n]);
    }
  }

  lemma ShiftPair(v: nat, p: nat, low: nat, d: nat)
    ensures (v * p + low) * 32 + d == v * (32 * p) + (low * 32 + d)
  {
    assert v * p * 32 == v * (32 * p);
  }

  /** The sixteen random letters: one more than the last ones, if the call falls into the same millisecond
      and they were not at their maximum; and otherwise five bits of each byte drawn. */
  lemma RandomPart(s: State, now: nat, drawn: seq<Byte>)
    requires ValidState(s) && |drawn| == 16
    ensures var ds := NextRandom(s, now, drawn);
            && |ds| == 16 && NextId(s, now, drawn)[10..] == Letters(ds)
            && if now == s.lastTime && Val(s.lastRandom) + 1 < Pow32(16) then Val(ds) == Val(s.lastRandom) + 1
               else forall i :: 0 <= i < 16 ==> ds[i] == drawn[i] % 32
  {
    var ds := NextRandom(s, now, drawn);
    var head := Letters(TimeDigits(now, TIME_LEN));
    assert (head + Letters(ds))[|head|..] == Letters(ds);
    if |s.lastRandom| == 16 {
      IncrementedIsPlusOne(s.lastRandom);
      ValBound(s.lastRandom);
    }
  }

  /** One call after another: the second identifier is the larger text exactly when time moved
      forward, or stood still without the random part overflowing. */
  lemma NextIdIsLarger(s: State, now: nat, drawn: seq<Byte>, next: nat, drawn': seq<Byte>)
    requires ValidState(s) && |drawn| == |drawn'| == RANDOM_LEN
    requires now < Pow32(TIME_LEN) && next < Pow32(TIME_LEN)
    ensures var s' := NextState(s, now, drawn);
            Below(NextId(s, now, drawn), NextId(s', next, drawn')) <==>
            now < next || (now == next && !Overflows(s', next))
  {
    var s' := NextState(s, now, drawn);
    var r, r' := NextRandom(s, now, drawn), NextRandom(s', next, drawn');
    var t, t' := TimeDigits(now, TIME_LEN), TimeDigits(next, TIME_LEN);
    assert NextId(s, now, drawn) == Letters(t + r) && NextId(s', next, drawn') == Letters(t' + r');
    LettersOrder(t + r, t' + r');
    ValConcat(t, r);
    ValConcat(t', r');
    ValBound(r);
    ValBound(r');
    TimeDigitsVal(now, TIME_LEN);
    TimeDigitsVal(next, TIME_LEN);
    IncrementedIsPlusOne(r);
    PairOrder(now, next, Val(r), Val(r'), Pow32(RANDOM_LEN));
    if now == next && Overflows(s', next) {
      ValBound(r');
    }
  }

  lemma PairOrder(t: nat, t': nat, r: nat, r': nat, p: nat)
    requires r < p && r' < p
    ensures t * p + r < t' * p + r' <==> t < t' || (t == t' && r < r')
  {
    if t < t' {
      assert (t + 1) * p <= t' * p;
    } else if t' < t {
      assert (t' + 1) * p <= t * p;
    }
  }

  // ----- whole runs -----

  datatype Call = Call(now: nat, drawn: seq<Byte>)

  function StateAfter(s: State, calls: seq<Call>): State {
    if calls == [] then s
    else
      var n := |calls| - 1;
      NextState(StateAfter(s, calls[..n]), calls[n].now, calls[n].drawn)
  }

  /** The identifier returned by call number k. */
  function IdAt(s: State, calls: seq<Call>, k: nat): string
    requires k < |calls|
  {
    NextId(StateAfter(s, calls[..k]), calls[k].now, calls[k].drawn)
  }

  /** Time never runs backwards nor past the range, and the random part never overflows. */
  ghost predicate GoodRun(s: State, calls: seq<Call>) {
    && (forall k :: 0 <= k < |calls| ==> calls[k].now < Pow32(TIME_LEN) && |calls[k].drawn| == RANDOM_LEN)
    && (forall k :: 0 <= k < |calls| - 1 ==> calls[k].now <= calls[k + 1].now)
    && (forall k :: 0 <= k < |calls| ==> !Overflows(StateAfter(s, calls[..k]), calls[k].now))
  }

  lemma {:induction false} RunKeepsValid(s: State, calls: seq<Call>)
    requires ValidState(s)
    requires forall k :: 0 <= k < |calls| ==> |calls[k].drawn| == RANDOM_LEN
    ensures ValidState(StateAfter(s, calls))
  {
    if calls != [] {
      RunKeepsValid(s, calls[..|calls| - 1]);
    }
  }

  /** Identifiers of a good run are strictly increasing texts, hence pairwise different. */
  lemma {:induction false} RunStrictlyIncreasing(s: State, calls: seq<Call>, i: nat, j: nat)
    requires ValidState(s) && GoodRun(s, calls) && i < j < |calls|
    ensures Below(IdAt(s, calls, i), IdAt(s, calls, j))
    ensures IdAt(s, calls, i) != IdAt(s, calls, j)
  {
    var m := j - 1;
    var before := StateAfter(s, calls[..m]);
    RunKeepsValid(s, calls[..m]);
    assert calls[..j][..m] == calls[..m];
    NextIdIsLarger(before, calls[m].now, calls[m].drawn, calls[j].now, calls[j].drawn);
    if i < m {
      RunStrictlyIncreasing(s, calls, i, m);
      TextLessTransitive(Ascii(IdAt(s, calls, i)), Ascii(IdAt(s, calls, m)), Ascii(IdAt(s, calls, j)));
    }
    TextLessTotal(Ascii(IdAt(s, calls, i)), Ascii(IdAt(s, calls, j)));
  }

  /** Every identifier of a run has the shape IsUlid accepts, and its first ten letters spell
      the timestamp of the call and no other number. */
  lemma IdIsWellFormed(s: State, now: nat, drawn: seq<Byte>)
    requires ValidState(s) && now < Pow32(TIME_LEN) && |drawn| == RANDOM_LEN
    ensures var id := NextId(s, now, drawn);
            && |id| == 26
            && (forall i :: 0 <= i < |id| ==> id[i] in ENCODING)
            && !ForeignLetter(id[..10])
            && (forall value :: Spells(id[..10], value) <==> value == now)
  {
    var t := TimeDigits(now, TIME_LEN);
    assert NextId(s, now, drawn)[..TIME_LEN] == Letters(t);
    TimeDigitsVal(now, TIME_LEN);
    LettersAreKnown(t);
    forall value | Spells(Letters(t), value)
      ensures value == now
    {
      var ds: seq<Digit> :| Letters(ds) == Letters(t) && Val(ds) == value;
      LettersInjective(ds, t);
    }
  }

  lemma LettersInjective(a: seq<Digit>, b: seq<Digit>)
    requires Letters(a) == Letters(b)
    ensures a == b
  {
    assert |a| == |Letters(a)| == |b|;
    forall k | 0 <= k < |a|
      ensures a[k] == b[k]
    {
      assert Letters(a)[k] == Letters(b)[k];
      if a[k] < b[k] {
        EncodingAscends(a[k], b[k]);
      } else if b[k] < a[k] {
        EncodingAscends(b[k], a[k]);
      }
    }
  }
}
