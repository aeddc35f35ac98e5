/** JavaScript strings: sequences of UTF-16 code units, not of Unicode characters. */
module JsText {
  type CodeUnit = c: int | 0 <= c < 0x1_0000
  type Text = seq<CodeUnit>

  const TAB: CodeUnit := 9
  const LF: CodeUnit := 10
  const CR: CodeUnit := 13
  const COMMA: CodeUnit := 44
  const MINUS: CodeUnit := 45
  const BACKSLASH: CodeUnit := 92
  const LOWER_N: CodeUnit := 110

  /** A string literal of the source. */
  function Ascii(s: string): (t: Text)
    ensures |t| == |s|
  {
    seq(|s|, i requires 0 <= i < |s| => s[i] as int % 0x1_0000)
  }

  /** `parts.join(separator)` */
  function Join(parts: seq<Text>, separator: Text): Text {
    if parts == [] then []
    else if |parts| == 1 then parts[0]
    else parts[0] + separator + Join(parts[1..], separator)
  }

  /** `a < b`: the first difference decides, and a proper prefix comes first. */
  predicate TextLess(a: Text, b: Text) {
    b != [] && (a == [] || a[0] < b[0] || (a[0] == b[0] && TextLess(a[1..], b[1..])))
  }

  lemma {:induction false} TextLessTotal(a: Text, b: Text)
    ensures TextLess(a, b) || a == b || TextLess(b, a)
    ensures TextLess(a, b) ==> a != b && !TextLess(b, a)
  {
    if a != [] && b != [] {
      TextLessTotal(a[1..], b[1..]);
      assert a == [a[0]] + a[1..] && b == [b[0]] + b[1..];
    }
  }

  lemma {:induction false} DifferenceDecides(a: Text, b: Text, k: nat)
    requires k < |a| && k < |b| && a[k] < b[k] && forall i :: 0 <= i < k ==> a[i] == b[i]
    ensures TextLess(a, b)
  {
    if k > 0 {
      DifferenceDecides(a[1..], b[1..], k - 1);
    }
  }

  lemma {:induction false} TextLessTransitive(a: Text, b: Text, c: Text)
    requires TextLess(a, b) && TextLess(b, c)
    ensures TextLess(a, c)
  {
    if a != [] {
      if a[0] == b[0] && b[0] == c[0] {
        TextLessTransitive(a[1..], b[1..], c[1..]);
      }
    }
  }

  ghost predicate StrictlySorted(keys: seq<Text>) {
    forall i, j :: 0 <= i < j < |keys| ==> TextLess(keys[i], keys[j])
  }

  function Insert(key: Text, keys: seq<Text>): seq<Text> {
    if keys == [] then [key]
    else if TextLess(key, keys[0]) then [key] + keys
    else [keys[0]] + Insert(key, keys[1..])
  }

  /** `keys.sort()` */
  function Sort(keys: seq<Text>): seq<Text> {
    if keys == [] then [] else Insert(keys[0], Sort(keys[1..]))
  }

  ghost predicate Distinct(keys: seq<Text>) {
    forall i, j :: 0 <= i < j < |keys| ==> keys[i] != keys[j]
  }

  lemma {:induction false} InsertMembers(key: Text, keys: seq<Text>)
    ensures forall k :: k in Insert(key, keys) <==> k == key || k in keys
  {
    if keys != [] && !TextLess(key, keys[0]) {
      InsertMembers(key, keys[1..]);
      assert forall k :: k in keys <==> k == keys[0] || k in keys[1..];
    }
  }

  lemma {:induction false} InsertSorted(key: Text, keys: seq<Text>)
    requires StrictlySorted(keys) && key !in keys
    ensures StrictlySorted(Insert(key, keys))
  {
    if keys == [] {
    } else if TextLess(key, keys[0]) {
      forall i | 0 < i < |keys|
        ensures TextLess(key, keys[i])
      {
        TextLessTransitive(key, keys[0], keys[i]);
      }
    } else {
      TextLessTotal(key, keys[0]);
      InsertSorted(key, keys[1..]);
      InsertMembers(key, keys[1..]);
      var rest := Insert(key, keys[1..]);
      forall i | 0 <= i < |rest|
        ensures TextLess(keys[0], rest[i])
      {
        assert rest[i] in rest;
        if rest[i] != key {
          var j :| 0 <= j < |keys[1..]| && keys[1..][j] == rest[i];
          assert keys[j + 1] == rest[i];
        }
      }
    }
  }

  lemma {:induction false} SortIsSorted(keys: seq<Text>)
    requires Distinct(keys)
    ensures StrictlySorted(Sort(keys))
    ensures forall k :: k in Sort(keys) <==> k in keys
  {
    if keys != [] {
      SortIsSorted(keys[1..]);
      assert keys[0] !in keys[1..];
      InsertSorted(keys[0], Sort(keys[1..]));
      InsertMembers(keys[0], Sort(keys[1..]));
      assert forall k :: k in keys <==> k == keys[0] || k in keys[1..];
    }
  }

  /** A strictly sorted list is determined by its members, so every correct sort gives this one. */
  lemma {:induction false} SortedIsUnique(a: seq<Text>, b: seq<Text>)
    requires StrictlySorted(a) && StrictlySorted(b)
    requires forall k :: k in a <==> k in b
    ensures a == b
  {
    SomeMember(b);
    if a != [] {
      assert a[0] in a;
      assert b[0] in b;
      SmallestFirst(a, b[0]);
      SmallestFirst(b, a[0]);
      TextLessTotal(a[0], b[0]);
      TailMembers(a);
      TailMembers(b);
      SortedIsUnique(a[1..], b[1..]);
      assert a == [a[0]] + a[1..] && b == [b[0]] + b[1..];
    }
  }

  lemma SomeMember(keys: seq<Text>)
    ensures keys == [] || exists k :: k in keys
  {
    if keys != [] {
      assert keys[0] in keys;
    }
  }

  lemma SmallestFirst(keys: seq<Text>, key: Text)
    requires StrictlySorted(keys) && key in keys
    ensures key == keys[0] || TextLess(keys[0], key)
  {
  }

  lemma TailMembers(keys: seq<Text>)
    requires StrictlySorted(keys) && keys != []
    ensures forall k :: k in keys[1..] <==> k in keys && k != keys[0]
  {
    forall k | k in keys[1..]
      ensures k in keys && k != keys[0]
    {
      var j :| 0 <= j < |keys[1..]| && keys[1..][j] == k;
      assert keys[j + 1] == k && TextLess(keys[0], keys[j + 1]);
      TextLessTotal(keys[0], k);
    }
  }

  // ----- surrogates -----

  predicate IsLead(c: CodeUnit) {
    0xD800 <= c <= 0xDBFF
  }

  predicate IsTrail(c: CodeUnit) {
    0xDC00 <= c <= 0xDFFF
  }

  /** A surrogate pair at the start of a text. */
  predicate StartsWithPair(s: Text) {
    |s| >= 2 && IsLead(s[0]) && IsTrail(s[1])
  }

  /** No surrogate stands alone, so that encoding the text as UTF-8 replaces nothing. */
  predicate WellFormed(t: Text) {
    if t == [] then true
    else if StartsWithPair(t) then WellFormed(t[2..])
    else !IsLead(t[0]) && !IsTrail(t[0]) && WellFormed(t[1..])
  }

  const REPLACEMENT: CodeUnit := 0xFFFD

  /** What encoding as UTF-8 keeps: a surrogate that stands alone is replaced. */
  function Replaced(t: Text): Text {
    if t == [] then []
    else if StartsWithPair(t) then t[..2] + Replaced(t[2..])
    else [if IsLead(t[0]) || IsTrail(t[0]) then REPLACEMENT else t[0]] + Replaced(t[1..])
  }

  lemma {:induction false} ReplacedIff(t: Text)
    ensures |Replaced(t)| == |t|
    ensures Replaced(t) == t <==> WellFormed(t)
  {
    if StartsWithPair(t) {
      ReplacedIff(t[2..]);
      assert t == t[..2] + t[2..];
    } else if t != [] {
      ReplacedIff(t[1..]);
      assert t == [t[0]] + t[1..];
      assert Replaced(t)[1..] == Replaced(t[1..]);
    }
  }

  lemma {:induction false} WellFormedConcat(a: Text, b: Text)
    requires WellFormed(a) && WellFormed(b)
    ensures WellFormed(a + b)
    decreases |a|
  {
    if a == [] {
      assert a + b == b;
    } else {
      var k := if StartsWithPair(a) then 2 else 1;
      WellFormedConcat(a[k..], b);
      assert (a + b)[k..] == a[k..] + b;
    }
  }

  /** Text without any surrogate. */
  lemma {:induction false} PlainIsWellFormed(t: Text)
    requires forall i :: 0 <= i < |t| ==> t[i] < 0xD800
    ensures WellFormed(t)
  {
    if t != [] {
      PlainIsWellFormed(t[1..]);
    }
  }

  /** The position lies between the halves of a surrogate pair. */
  predicate SplitsPair(t: Text, c: nat) {
    0 < c < |t| && IsLead(t[c - 1]) && IsTrail(t[c])
  }

  /** Cutting a well-formed text leaves well-formed parts, unless it splits a pair: then the first
      part is not. */
  lemma {:induction false} WellFormedCut(t: Text, c: nat)
    requires WellFormed(t) && c <= |t|
    ensures WellFormed(t[..c]) <==> !SplitsPair(t, c)
    ensures !SplitsPair(t, c) ==> WellFormed(t[c..])
    decreases |t|
  {
    var k := if StartsWithPair(t) then 2 else 1;
    if c == 0 {
      assert t[0..] == t;
    } else if c >= k {
      WellFormedCut(t[k..], c - k);
      assert t[..c][k..] == t[k..][..c - k];
      assert t[k..][c - k..] == t[c..];
    }
  }
}
