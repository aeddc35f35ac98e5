/** The canonical text is the one that RFC 8785 prescribes in sections 3.2.2 and 3.2.3: each string and
    number in its shortest form, of which there is only one, and members in ascending order. */
module CanonicalForm {
  import opened CanonicalJson
  import opened DecimalText
  import opened JsText
  import opened Wrappers

  // ----- strings -----

  /** Backspace, tab, line feed, form feed, carriage return, quote and backslash have short escapes;
      other controls and lone surrogates have long ones; nothing else is escaped. */
  lemma EscapeLength(c: CodeUnit)
    ensures |QuoteUnit(c)| ==
            if c in {8, 9, 10, 12, 13, 34, 92} then 2 else if c < 0x20 || 0xD800 <= c <= 0xDFFF then 6 else 1
    ensures |QuoteUnit(c)| == 2 ==> QuoteUnit(c)[0] == BACKSLASH && ShortUnescape(QuoteUnit(c)[1]) == Some(c)
    ensures |QuoteUnit(c)| == 1 ==> QuoteUnit(c) == [c]
  {
  }

  /** The short escapes as they are written. */
  lemma ShortEscapes()
    ensures QuoteUnit(8) == Ascii("\\b") && QuoteUnit(9) == Ascii("\\t") && QuoteUnit(10) == Ascii("\\n")
    ensures QuoteUnit(12) == Ascii("\\f") && QuoteUnit(13) == Ascii("\\r")
    ensures QuoteUnit(34) == Ascii("\\\"") && QuoteUnit(92) == Ascii("\\\\")
  {
  }

  /** A long escape is backslash, u and four digits, the letters among them in lower case. */
  lemma LongEscape(c: CodeUnit)
    requires |QuoteUnit(c)| == 6
    ensures var digits := Ascii("0123456789abcdef");
            QuoteUnit(c) ==
            Ascii("\\u") + [digits[c / 0x1000], digits[c / 0x100 % 16], digits[c / 0x10 % 16], digits[c % 16]]
  {
    HexLetter(c / 0x1000);
    HexLetter(c / 0x100 % 16);
    HexLetter(c / 0x10 % 16);
    HexLetter(c % 16);
    assert Ascii("\\u") == [BACKSLASH, LOWER_U];
  }

  lemma HexLetter(d: int)
    requires 0 <= d < 16
    ensures HexDigit(d) == Ascii("0123456789abcdef")[d]
  {
    var letters := "0123456789abcdef";
    assert d < 10 ==> letters[d] as int == 48 + d;
    assert letters[10] == 'a' && letters[11] == 'b' && letters[12] == 'c' && letters[13] == 'd';
    assert letters[14] == 'e' && letters[15] == 'f';
  }

  lemma HexIsUnique(t: Text, c: CodeUnit)
    requires |t| == 4 && HexUnit(t) == Some(c)
    ensures t == [HexDigit(c / 0x1000), HexDigit(c / 0x100 % 16), HexDigit(c / 0x10 % 16), HexDigit(c % 16)]
  {
    var p, q, r, u := HexValue(t[0]).value, HexValue(t[1]).value, HexValue(t[2]).value, HexValue(t[3]).value;
    assert c == p * 0x1000 + q * 0x100 + r * 0x10 + u;
    HexPlaces(p, q, r, u);
    assert forall k :: 0 <= k < 4 ==> t[k] == HexDigit(HexValue(t[k]).value);
  }

  lemma HexPlaces(p: int, q: int, r: int, u: int)
    requires 0 <= p < 16 && 0 <= q < 16 && 0 <= r < 16 && 0 <= u < 16
    ensures var c := p * 0x1000 + q * 0x100 + r * 0x10 + u;
            c / 0x1000 == p && c / 0x100 % 16 == q && c / 0x10 % 16 == r && c % 16 == u
  {
    var c2 := p * 16 + q;
    var c1 := c2 * 16 + r;
    LastPlace(c1, u);
    LastPlace(c2, r);
    LastPlace(p, q);
    var c := c1 * 16 + u;
    assert c / 0x100 == c / 16 / 16 && c / 0x1000 == c / 16 / 16 / 16;
  }

  lemma LastPlace(x: int, d: int)
    requires 0 <= d < 16
    ensures (x * 16 + d) / 16 == x && (x * 16 + d) % 16 == d
  {
  }

  lemma {:induction false} PlainHeads(t: Text, k: nat)
    requires WellFormed(t) && k <= |t| && forall i :: 0 <= i < k ==> t[i] < 0xD800
    ensures WellFormed(t[k..])
    decreases k
  {
    if k > 0 {
      PlainHeads(t[1..], k - 1);
      assert t[1..][k - 1..] == t[k..];
    }
  }

  /** What a reader makes of the head of a text, and what is left to read. */
  lemma QuoteFirst(s: Text)
    requires s != []
    ensures StartsWithPair(s) ==> QuoteBody(s) == s[..2] + QuoteBody(s[2..])
    ensures !StartsWithPair(s) ==> QuoteBody(s) == QuoteUnit(s[0]) + QuoteBody(s[1..])
  {
  }

  ghost predicate Shortest(s: Text, t: Text) {
    |QuoteBody(s)| + 1 <= |t| && (|t| == |QuoteBody(s)| + 1 ==> t == QuoteBody(s) + [QUOTE])
  }

  lemma ShortHead(s: Text, t: Text, k: nat)
    requires s != [] && !StartsWithPair(s) && k <= |t| && Shortest(s[1..], t[k..])
    requires |QuoteUnit(s[0])| <= k && (|QuoteUnit(s[0])| == k ==> QuoteUnit(s[0]) == t[..k])
    ensures Shortest(s, t)
  {
    QuoteFirst(s);
    hide QuoteBody, QuoteUnit;
    if |t| == |QuoteBody(s)| + 1 {
      assert t == t[..k] + t[k..];
    }
  }

  lemma PairHead(s: Text, t: Text)
    requires StartsWithPair(s) && |t| >= 2 && t[..2] == s[..2] && Shortest(s[2..], t[2..])
    ensures Shortest(s, t)
  {
    QuoteFirst(s);
    hide QuoteBody;
    if |t| == |QuoteBody(s)| + 1 {
      assert t == t[..2] + t[2..];
    }
  }

  /** A pair that is escaped half by half is longer than it need be. */
  lemma EscapedHalf(s: Text, t: Text)
    requires StartsWithPair(s) && |t| >= 6 && Shortest(s[1..], t[6..])
    ensures Shortest(s, t)
  {
    QuoteFirst(s);
    QuoteFirst(s[1..]);
    EscapeLength(s[1]);
    assert s[1..][1..] == s[2..];
  }

  lemma Unprepend(p: Text, r: Option<Read<Text>>, s: Text)
    requires Prepend(p, r) == Some(Read(s, []))
    ensures |p| <= |s| && s[..|p|] == p && r == Some(Read(s[|p|..], []))
  {
    assert (p + r.value.value)[|p|..] == r.value.value;
  }

  /** The reader's two cases behind a backslash. */
  lemma ReadsEscape(t: Text)
    requires t != [] && t[0] == BACKSLASH && ReadString(t).Some?
    ensures |t| >= 2
    ensures if ShortUnescape(t[1]).Some? then
              ReadString(t) == Prepend([ShortUnescape(t[1]).value], ReadString(t[2..]))
            else
              && t[1] == LOWER_U && |t| >= 6 && HexUnit(t[2..6]).Some?
              && ReadString(t) == Prepend([HexUnit(t[2..6]).value], ReadString(t[6..]))
  {
    hide ShortUnescape, HexUnit;
  }

  lemma ShortUnit(letter: CodeUnit)
    requires ShortUnescape(letter).Some?
    ensures letter < 0xD800 && !IsLead(ShortUnescape(letter).value)
    ensures QuoteUnit(ShortUnescape(letter).value) == [BACKSLASH, letter]
  {
  }

  lemma ShortEscapeFirst(s: Text, t: Text)
    requires WellFormed(t) && ReadString(t) == Some(Read(s, []))
    requires t != [] && t[0] == BACKSLASH && |t| >= 2 && ShortUnescape(t[1]).Some?
    ensures s != [] && !StartsWithPair(s) && ReadString(t[2..]) == Some(Read(s[1..], [])) && WellFormed(t[2..])
    ensures |QuoteUnit(s[0])| == 2 && QuoteUnit(s[0]) == t[..2]
  {
    hide ReadString, QuoteUnit, ShortUnescape, WellFormed;
    ReadsEscape(t);
    Unprepend([ShortUnescape(t[1]).value], ReadString(t[2..]), s);
    assert s[..1][0] == s[0];
    ShortUnit(t[1]);
    PlainHeads(t, 2);
  }

  /** A long escape is written in just one way, and no shorter escape is longer. */
  lemma LongUnit(digits: Text)
    requires |digits| == 4 && HexUnit(digits).Some?
    ensures forall i :: 0 <= i < 4 ==> digits[i] < 0xD800
    ensures var q := QuoteUnit(HexUnit(digits).value);
            |q| <= 6 && (|q| == 6 ==> q == [BACKSLASH, LOWER_U] + digits)
  {
    HexDigitsArePlain(digits);
    var c := HexUnit(digits).value;
    HexIsUnique(digits, c);
    hide HexUnit, HexDigit;
    EscapeLength(c);
  }

  lemma LongEscapeFirst(s: Text, t: Text)
    requires WellFormed(t) && ReadString(t) == Some(Read(s, []))
    requires t != [] && t[0] == BACKSLASH && !(|t| >= 2 && ShortUnescape(t[1]).Some?)
    ensures |t| >= 6 && s != [] && ReadString(t[6..]) == Some(Read(s[1..], [])) && WellFormed(t[6..])
    ensures |QuoteUnit(s[0])| <= 6 && (|QuoteUnit(s[0])| == 6 ==> QuoteUnit(s[0]) == t[..6])
  {
    hide ReadString, QuoteUnit, ShortUnescape, HexUnit, WellFormed;
    ReadsEscape(t);
    Unprepend([HexUnit(t[2..6]).value], ReadString(t[6..]), s);
    assert s[..1][0] == s[0];
    LongUnit(t[2..6]);
    assert forall i :: 2 <= i < 6 ==> t[i] == t[2..6][i - 2];
    PlainHeads(t, 6);
    assert t[..6] == [t[0], t[1]] + t[2..6];
  }

  lemma HexDigitsArePlain(t: Text)
    requires |t| == 4 && HexUnit(t).Some?
    ensures forall i :: 0 <= i < 4 ==> t[i] < 0xD800
  {
    assert forall i :: 0 <= i < 4 ==> HexValue(t[i]).Some?;
  }

  lemma RawPairFirst(s: Text, t: Text)
    requires WellFormed(t) && ReadString(t) == Some(Read(s, [])) && StartsWithPair(t)
    ensures StartsWithPair(s) && t[..2] == s[..2] && ReadString(t[2..]) == Some(Read(s[2..], [])) && WellFormed(t[2..])
  {
    Unprepend([t[0]], ReadString(t[1..]), s);
    assert t[1..][1..] == t[2..];
    Unprepend([t[1]], ReadString(t[2..]), s[1..]);
    assert s[1..][1..] == s[2..];
  }

  lemma RawUnitFirst(s: Text, t: Text)
    requires WellFormed(t) && ReadString(t) == Some(Read(s, [])) && t != [] && !StartsWithPair(t)
    requires t[0] != QUOTE && t[0] != BACKSLASH
    ensures s != [] && !StartsWithPair(s) && ReadString(t[1..]) == Some(Read(s[1..], [])) && WellFormed(t[1..])
    ensures |QuoteUnit(s[0])| == 1 && QuoteUnit(s[0]) == t[..1]
  {
    Unprepend([t[0]], ReadString(t[1..]), s);
    EscapeLength(s[0]);
  }

  /** Of all texts without lone surrogates that read as the string, none is shorter than its quoted
      form, and no other is as short. Texts stand behind their opening quote. */
  lemma {:induction false} QuoteIsShortest(s: Text, t: Text)
    requires WellFormed(t) && ReadString(t) == Some(Read(s, []))
    ensures Shortest(s, t)
    decreases |t|
  {
    hide QuoteUnit, WellFormed, HexUnit, Shortest;
    if t[0] == QUOTE {
      ClosedAtOnce(s, t);
    } else if t[0] == BACKSLASH && |t| >= 2 && ShortUnescape(t[1]).Some? {
      ShortEscapeFirst(s, t);
      QuoteIsShortest(s[1..], t[2..]);
      ShortHead(s, t, 2);
    } else if t[0] == BACKSLASH {
      LongEscapeFirst(s, t);
      QuoteIsShortest(s[1..], t[6..]);
      if StartsWithPair(s) {
        EscapedHalf(s, t);
      } else {
        ShortHead(s, t, 6);
      }
    } else if StartsWithPair(t) {
      RawPairFirst(s, t);
      QuoteIsShortest(s[2..], t[2..]);
      PairHead(s, t);
    } else {
      RawUnitFirst(s, t);
      QuoteIsShortest(s[1..], t[1..]);
      ShortHead(s, t, 1);
    }
  }

  lemma ClosedAtOnce(s: Text, t: Text)
    requires t != [] && t[0] == QUOTE && ReadString(t) == Some(Read(s, []))
    ensures Shortest(s, t)
  {
    assert t == [QUOTE] + t[1..];
  }

  // ----- numbers -----

  lemma {:induction false} DigitsAreShortest(ds: Text)
    requires ds != [] && AllDigits(ds)
    ensures var own := Digits(DigitsValue(ds));
            |own| <= |ds| && (|own| == |ds| ==> own == ds)
  {
    var n := |ds| - 1;
    assert ds == ds[..n] + [ds[n]];
    if n == 0 {
      assert ds[..0] == [];
    } else {
      DigitsAreShortest(ds[..n]);
    }
  }

  /** One digit as it is written, and the minus of a negative number. */
  lemma DecimalSign(n: int)
    ensures 0 <= n < 10 ==> Decimal(n) == [48 + n]
    ensures n < 0 ==> Decimal(n) == Ascii("-") + Decimal(-n)
  {
    assert Ascii("-")[0] == 45;
    assert Ascii("-") == [MINUS];
  }

  /** Of all texts that read as the number none is shorter than its decimal form, and no other is as
      short: no leading zero, no minus in front of zero. */
  lemma DecimalIsShortest(n: int, t: Text)
    requires ReadNumber(t) == Some(Read(n, []))
    ensures |Decimal(n)| <= |t| && (|t| == |Decimal(n)| ==> t == Decimal(n))
  {
    hide Digits, DigitsValue, DigitRun;
    if t[0] == MINUS {
      var ds := t[1..];
      WholeRun(ds);
      DigitsAreShortest(ds);
      assert t == [MINUS] + ds;
      if n == 0 {
        DigitsRead(0);
        assert Digits(0) == [ZERO] by { ZeroDigits(); }
      }
    } else {
      WholeRun(t);
      DigitsAreShortest(t);
    }
  }

  lemma ZeroDigits()
    ensures Digits(0) == [ZERO]
  {
  }

  lemma WholeRun(ds: Text)
    requires ds[DigitRun(ds)..] == []
    ensures AllDigits(ds) && ds[..DigitRun(ds)] == ds
  {
    DigitRunFacts(ds);
  }

  // ----- literals, arrays and objects -----

  /** The literals as they are written. */
  lemma LiteralTexts()
    ensures Stringify(Null) == Some(Ascii("null"))
    ensures Stringify(Bool(true)) == Some(Ascii("true")) && Stringify(Bool(false)) == Some(Ascii("false"))
  {
    var texts := [Ascii("null"), Ascii("true"), Ascii("false")];
    assert texts[0][0] == 110 && texts[0][1] == 117 && texts[0][2] == 108 && texts[0][3] == 108;
    assert texts[1][0] == 116 && texts[1][1] == 114 && texts[1][2] == 117 && texts[1][3] == 101;
    assert texts[2][0] == 102 && texts[2][1] == 97 && texts[2][2] == 108 && texts[2][3] == 115 && texts[2][4] == 101;
    assert texts[0] == NULL_TEXT && texts[1] == TRUE_TEXT && texts[2] == FALSE_TEXT;
  }

  /** The items in their order, `null` for one that is undefined, with a comma between and no space. */
  lemma ArrayText(items: seq<Value>)
    requires Stringify(Arr(items)).Some?
    ensures exists parts ::
              && |parts| == |items|
              && (forall i :: 0 <= i < |items| ==>
                    Some(parts[i]) == if items[i].Undefined? then Some(Ascii("null")) else Stringify(items[i]))
              && Stringify(Arr(items)) == Some(Ascii("[") + Join(parts, Ascii(",")) + Ascii("]"))
  {
    ItemTexts(items);
    LiteralTexts();
    Brackets();
  }

  lemma {:induction false} ItemTexts(items: seq<Value>)
    requires StringifyItems(items).Some?
    ensures var parts := StringifyItems(items).value;
            forall i :: 0 <= i < |items| ==>
              Some(parts[i]) == if items[i].Undefined? then Some(NULL_TEXT) else Stringify(items[i])
  {
    if items != [] {
      ItemTexts(items[1..]);
    }
  }

  /** `part` is the text of a defined property of that name. */
  ghost predicate IsMember(props: seq<Prop>, key: Text, part: Text) {
    exists p :: p in props && p.key == key && !p.value.Undefined? && Stringify(p.value).Some?
      && part == Quote(key) + Ascii(":") + Stringify(p.value).value
  }

  lemma OneMember(props: seq<Prop>, key: Text)
    requires UniqueKeys(props) && HasKey(props, key) && key in DefinedKeys(props)
    requires Stringify(Lookup(props, key).value).Some?
    ensures IsMember(props, key, Quote(key) + [COLON] + Stringify(Lookup(props, key).value).value)
  {
    hide Quote, Stringify, UniqueKeys, DefinedKeys;
    DefinedLookup(props);
    assert Ascii(":") == [COLON];
    assert Lookup(props, key) in props;
  }

  lemma {:induction false} MemberTexts(props: seq<Prop>, keys: seq<Text>)
    requires UniqueKeys(props)
    requires forall k :: k in keys ==> HasKey(props, k) && k in DefinedKeys(props)
    requires StringifyMembers(Obj(props), keys).Some?
    ensures var parts := StringifyMembers(Obj(props), keys).value;
            forall i :: 0 <= i < |keys| ==> IsMember(props, keys[i], parts[i])
  {
    hide Quote, Stringify, UniqueKeys, DefinedKeys, IsMember, Lookup, HasKey;
    if keys != [] {
      assert keys[0] in keys;
      assert forall k :: k in keys[1..] ==> k in keys;
      MemberTexts(props, keys[1..]);
      OneMember(props, keys[0]);
    }
  }

  /** The names of the defined properties. */
  ghost predicate AreNames(props: seq<Prop>, keys: seq<Text>) {
    forall k :: k in keys <==> exists p :: p in props && p.key == k && !p.value.Undefined?
  }

  lemma DefinedAreNames(props: seq<Prop>)
    requires UniqueKeys(props)
    ensures AreNames(props, DefinedKeys(props))
  {
    DefinedLookup(props);
    forall k | k in DefinedKeys(props)
      ensures exists p :: p in props && p.key == k && !p.value.Undefined?
    {
      assert Lookup(props, k) in props;
    }
  }

  /** The defined members in ascending order of their names, each once, with a comma between, a colon
      behind the name and no space. */
  lemma ObjectText(props: seq<Prop>)
    requires UniqueKeys(props) && Stringify(Obj(props)).Some?
    ensures exists keys, parts ::
              && StrictlySorted(keys) && AreNames(props, keys) && |parts| == |keys|
              && (forall i :: 0 <= i < |keys| ==> IsMember(props, keys[i], parts[i]))
              && Stringify(Obj(props)) == Some(Ascii("{") + Join(parts, Ascii(",")) + Ascii("}"))
  {
    hide IsMember, UniqueKeys, Join, Sort, DefinedKeys, StringifyMembers;
    var keys := Sort(DefinedKeys(props));
    SortMembers(DefinedKeys(props));
    SortedKeys(props);
    DefinedAreNames(props);
    var parts := StringifyMembers(Obj(props), keys).value;
    MemberTexts(props, keys);
    Brackets();
    assert Stringify(Obj(props)) == Some(Ascii("{") + Join(parts, Ascii(",")) + Ascii("}"));
  }

  lemma Brackets()
    ensures Ascii("[") == [OPEN_BRACKET] && Ascii("]") == [CLOSE_BRACKET]
    ensures Ascii("{") == [OPEN_BRACE] && Ascii("}") == [CLOSE_BRACE] && Ascii(",") == [COMMA]
  {
  }
}
