/** Canonical JSON: the printer whose output is signed, and a reader that proves it unambiguous.
    The output format is the subset of RFC 8785 described in its sections 3.2.2 (primitives) and
    3.2.3 (property order). */
module CanonicalJson {
  import opened DecimalText
  import opened JsText
  import opened Wrappers

  // ----- values -----

  /** Integers that a double represents exactly. */
  type SafeInt = n: int | -0x1F_FFFF_FFFF_FFFF <= n <= 0x1F_FFFF_FFFF_FFFF

  /** JavaScript values as the printer tells them apart. NotFinite is NaN or an infinity, Unsupported
      is a bigint, a symbol or a function. */
  datatype Value =
    | Undefined
    | Null
    | Bool(b: bool)
    | Num(n: SafeInt)
    | NotFinite
    | Str(s: Text)
    | Arr(items: seq<Value>)
    | Obj(props: seq<Prop>)
    | Unsupported

  /** An own property; an object lists them in insertion order. */
  datatype Prop = Prop(key: Text, value: Value)

  /** What a value means once it is printed: properties without order, no undefined left. */
  datatype Norm =
    | NNull
    | NBool(b: bool)
    | NNum(n: int)
    | NStr(s: Text)
    | NArr(items: seq<Norm>)
    | NObj(members: map<Text, Norm>)

  // ----- punctuation -----

  const BACKSPACE: CodeUnit := 8
  const FF: CodeUnit := 12
  const QUOTE: CodeUnit := 34
  const COLON: CodeUnit := 58
  const OPEN_BRACKET: CodeUnit := 91
  const CLOSE_BRACKET: CodeUnit := 93
  const LOWER_A: CodeUnit := 97
  const LOWER_B: CodeUnit := 98
  const LOWER_F: CodeUnit := 102
  const LOWER_R: CodeUnit := 114
  const LOWER_T: CodeUnit := 116
  const LOWER_U: CodeUnit := 117
  const OPEN_BRACE: CodeUnit := 123
  const CLOSE_BRACE: CodeUnit := 125

  const NULL_TEXT: Text := [110, 117, 108, 108]
  const TRUE_TEXT: Text := [116, 114, 117, 101]
  const FALSE_TEXT: Text := [102, 97, 108, 115, 101]

  // ----- strings: JSON.stringify on one string -----

  /** The letter of the two-unit escapes, if the unit has one. */
  function ShortEscape(c: CodeUnit): Option<CodeUnit> {
    if c == BACKSPACE then Some(LOWER_B)
    else if c == TAB then Some(LOWER_T)
    else if c == LF then Some(LOWER_N)
    else if c == FF then Some(LOWER_F)
    else if c == CR then Some(LOWER_R)
    else if c == QUOTE then Some(QUOTE)
    else if c == BACKSLASH then Some(BACKSLASH)
    else None
  }

  function HexDigit(d: int): CodeUnit
    requires 0 <= d < 16
  {
    if d < 10 then ZERO + d else LOWER_A + (d - 10)
  }

  /** A unit on its own: short escape, numeric escape for other controls and for a surrogate
      without a partner, or the unit itself. */
  function QuoteUnit(c: CodeUnit): Text {
    if ShortEscape(c).Some? then [BACKSLASH, ShortEscape(c).value]
    else if c < 0x20 || IsLead(c) || IsTrail(c) then
      [BACKSLASH, LOWER_U, HexDigit(c / 0x1000), HexDigit(c / 0x100 % 16), HexDigit(c / 0x10 % 16), HexDigit(c % 16)]
    else [c]
  }

  /** How many units are quoted together: a surrogate pair, or one. */
  function HeadLength(s: Text): nat {
    if StartsWithPair(s) then 2 else 1
  }

  function QuoteHead(s: Text): Text
    requires s != []
  {
    if StartsWithPair(s) then s[..2] else QuoteUnit(s[0])
  }

  function QuoteBody(s: Text): Text {
    if s == [] then [] else QuoteHead(s) + QuoteBody(s[HeadLength(s)..])
  }

  /** `JSON.stringify(s)` */
  function Quote(s: Text): Text {
    [QUOTE] + QuoteBody(s) + [QUOTE]
  }

  // ----- numbers: JSON.stringify on a safe integer -----

  function Decimal(n: int): Text {
    if n < 0 then [MINUS] + Digits(-n) else Digits(n)
  }

  // ----- the printer -----

  ghost predicate HasKey(props: seq<Prop>, key: Text) {
    exists i :: 0 <= i < |props| && props[i].key == key
  }

  /** `obj[k]` for a key of the object */
  function Lookup(props: seq<Prop>, key: Text): (p: Prop)
    requires HasKey(props, key)
    ensures p in props && p.key == key
  {
    if props[0].key == key then props[0] else Lookup(props[1..], key)
  }

  /** `Object.keys(obj).filter((k) => obj[k] !== undefined)` */
  function DefinedKeys(props: seq<Prop>): (keys: seq<Text>)
    ensures forall k :: k in keys ==> HasKey(props, k)
  {
    if props == [] then []
    else
      var rest := DefinedKeys(props[1..]);
      assert forall i :: 0 <= i < |props[1..]| ==> props[1..][i] == props[i + 1];
      if props[0].value.Undefined? then rest else [props[0].key] + rest
  }

  /** None stands for the TypeError of a value that has no canonical form. */
  function Stringify(v: Value): Option<Text>
    decreases v, 0
  {
    match v
    case Null => Some(NULL_TEXT)
    case Bool(b) => Some(if b then TRUE_TEXT else FALSE_TEXT)
    case Num(n) => Some(Decimal(n))
    case Str(s) => Some(Quote(s))
    case Arr(items) =>
      (match StringifyItems(items)
       case None => None
       case Some(parts) => Some([OPEN_BRACKET] + Join(parts, [COMMA]) + [CLOSE_BRACKET]))
    case Obj(props) =>
      SortMembers(DefinedKeys(props));
      (match StringifyMembers(v, Sort(DefinedKeys(props)))
       case None => None
       case Some(parts) => Some([OPEN_BRACE] + Join(parts, [COMMA]) + [CLOSE_BRACE]))
    case _ => None
  }

  function StringifyItems(items: seq<Value>): (r: Option<seq<Text>>)
    ensures r.Some? ==> |r.value| == |items|
    decreases items, 0
  {
    if items == [] then Some([])
    else
      var head := if items[0].Undefined? then Some(NULL_TEXT) else Stringify(items[0]);
      var rest := StringifyItems(items[1..]);
      if head.None? || rest.None? then None else Some([head.value] + rest.value)
  }

  function StringifyMembers(v: Value, keys: seq<Text>): (r: Option<seq<Text>>)
    requires v.Obj?
    requires forall k :: k in keys ==> HasKey(v.props, k)
    ensures r.Some? ==> |r.value| == |keys|
    decreases v, 0, |keys|
  {
    if keys == [] then Some([])
    else
      var head := Stringify(Lookup(v.props, keys[0]).value);
      var rest := StringifyMembers(v, keys[1..]);
      if head.None? || rest.None? then None
      else Some([Quote(keys[0]) + [COLON] + head.value] + rest.value)
  }

  function Canonicalize(v: Value): Option<Text> {
    if v.Undefined? then None else Stringify(v)
  }

  lemma {:induction false} SortMembers(keys: seq<Text>)
    ensures forall k :: k in Sort(keys) <==> k in keys
  {
    if keys != [] {
      SortMembers(keys[1..]);
      InsertMembers(keys[0], Sort(keys[1..]));
      assert forall k :: k in keys <==> k == keys[0] || k in keys[1..];
    }
  }

  // ----- the meaning of a value -----

  ghost predicate UniqueKeys(props: seq<Prop>) {
    forall i, j :: 0 <= i < j < |props| ==> props[i].key != props[j].key
  }

  /** An object has at most one property of a name, at every depth. */
  ghost predicate IsValue(v: Value) {
    match v
    case Arr(items) => forall i :: 0 <= i < |items| ==> IsValue(items[i])
    case Obj(props) =>
      && UniqueKeys(props)
      && (forall i :: 0 <= i < |props| ==> IsValue(props[i].value))
    case _ => true
  }

  /** Nothing in the value makes the printer throw. */
  ghost predicate Printable(v: Value) {
    match v
    case Undefined => false
    case NotFinite => false
    case Unsupported => false
    case Arr(items) => forall i :: 0 <= i < |items| ==> items[i].Undefined? || Printable(items[i])
    case Obj(props) => forall i :: 0 <= i < |props| ==> props[i].value.Undefined? || Printable(props[i].value)
    case _ => true
  }

  /** Undefined properties dropped, undefined items made null, properties as a map. */
  ghost function Normalize(v: Value): Norm {
    match v
    case Bool(b) => NBool(b)
    case Num(n) => NNum(n)
    case Str(s) => NStr(s)
    case Arr(items) => NArr(seq(|items|, i requires 0 <= i < |items| => Normalize(items[i])))
    case Obj(props) =>
      NObj(map k | k in DefinedKeys(props) :: Normalize(Lookup(props, k).value))
    case _ => NNull
  }

  // ----- a reader of canonical text -----

  /** What was read, and the text that follows it. */
  datatype Read<+T> = Read(value: T, rest: Text)

  predicate StartsWith(t: Text, literal: Text) {
    |literal| <= |t| && t[..|literal|] == literal
  }

  /** The unit a two-unit escape stands for. */
  function ShortUnescape(letter: CodeUnit): Option<CodeUnit> {
    if letter == LOWER_B then Some(BACKSPACE)
    else if letter == LOWER_T then Some(TAB)
    else if letter == LOWER_N then Some(LF)
    else if letter == LOWER_F then Some(FF)
    else if letter == LOWER_R then Some(CR)
    else if letter == QUOTE || letter == BACKSLASH then Some(letter)
    else None
  }

  function HexValue(c: CodeUnit): (r: Option<int>)
    ensures r.Some? ==> 0 <= r.value < 16
  {
    if ZERO <= c < ZERO + 10 then Some(c - ZERO)
    else if LOWER_A <= c < LOWER_A + 6 then Some(c - LOWER_A + 10)
    else None
  }

  /** Four hexadecimal digits. */
  function HexUnit(t: Text): Option<CodeUnit>
    requires |t| == 4
  {
    var a :- HexValue(t[0]);
    var b :- HexValue(t[1]);
    var c :- HexValue(t[2]);
    var d :- HexValue(t[3]);
    Some(a * 0x1000 + b * 0x100 + c * 0x10 + d)
  }

  function Prepend(s: Text, r: Option<Read<Text>>): Option<Read<Text>> {
    match r
    case None => None
    case Some(Read(value, rest)) => Some(Read(s + value, rest))
  }

  /** A string behind its opening quote. */
  function ReadString(t: Text): (r: Option<Read<Text>>)
    ensures r.Some? ==> |r.value.rest| < |t|
  {
    if t == [] then None
    else if t[0] == QUOTE then Some(Read([], t[1..]))
    else if t[0] == BACKSLASH then
      if |t| < 2 then None
      else if ShortUnescape(t[1]).Some? then
        Prepend([ShortUnescape(t[1]).value], ReadString(t[2..]))
      else if t[1] == LOWER_U && |t| >= 6 && HexUnit(t[2..6]).Some? then
        Prepend([HexUnit(t[2..6]).value], ReadString(t[6..]))
      else None
    else if t[0] < 0x20 then None
    else Prepend([t[0]], ReadString(t[1..]))
  }

  function ReadNumber(t: Text): (r: Option<Read<int>>)
    ensures r.Some? ==> |r.value.rest| < |t|
  {
    if t != [] && t[0] == MINUS then
      var n := DigitRun(t[1..]);
      if n == 0 then None else Some(Read(0 - DigitsValue(t[1..][..n]) as int, t[1..][n..]))
    else
      var n := DigitRun(t);
      if n == 0 then None else Some(Read(DigitsValue(t[..n]), t[n..]))
  }

  function ReadValue(t: Text): (r: Option<Read<Norm>>)
    ensures r.Some? ==> |r.value.rest| < |t|
    decreases |t|, 0
  {
    if t == [] then None
    else if t[0] == QUOTE then
      var r :- ReadString(t[1..]);
      Some(Read(NStr(r.value), r.rest))
    else if t[0] == OPEN_BRACKET then
      if |t| >= 2 && t[1] == CLOSE_BRACKET then Some(Read(NArr([]), t[2..]))
      else
        var r :- ReadItems(t[1..]);
        Some(Read(NArr(r.value), r.rest))
    else if t[0] == OPEN_BRACE then
      if |t| >= 2 && t[1] == CLOSE_BRACE then Some(Read(NObj(map[]), t[2..]))
      else
        var r :- ReadMembers(t[1..]);
        Some(Read(NObj(r.value), r.rest))
    else if t[0] == MINUS || IsDigit(t[0]) then
      var r :- ReadNumber(t);
      Some(Read(NNum(r.value), r.rest))
    else
      ReadLiteral(t)
  }

  function ReadLiteral(t: Text): (r: Option<Read<Norm>>)
    ensures r.Some? ==> |r.value.rest| < |t|
  {
    if StartsWith(t, NULL_TEXT) then Some(Read(NNull, t[4..]))
    else if StartsWith(t, TRUE_TEXT) then Some(Read(NBool(true), t[4..]))
    else if StartsWith(t, FALSE_TEXT) then Some(Read(NBool(false), t[5..]))
    else None
  }

  /** One item or more, up to the closing bracket. */
  function ReadItems(t: Text): (r: Option<Read<seq<Norm>>>)
    ensures r.Some? ==> |r.value.rest| < |t|
    decreases |t|, 1
  {
    var head :- ReadValue(t);
    if head.rest == [] then None
    else if head.rest[0] == CLOSE_BRACKET then Some(Read([head.value], head.rest[1..]))
    else if head.rest[0] == COMMA then
      var tail :- ReadItems(head.rest[1..]);
      Some(Read([head.value] + tail.value, tail.rest))
    else None
  }

  /** One member or more, up to the closing brace; of two members with one name the last counts. */
  function ReadMembers(t: Text): (r: Option<Read<map<Text, Norm>>>)
    ensures r.Some? ==> |r.value.rest| < |t|
    decreases |t|, 1
  {
    if t == [] || t[0] != QUOTE then None
    else
      var key :- ReadString(t[1..]);
      if key.rest == [] || key.rest[0] != COLON then None
      else
        var head :- ReadValue(key.rest[1..]);
        if head.rest == [] then None
        else if head.rest[0] == CLOSE_BRACE then Some(Read(map[key.value := head.value], head.rest[1..]))
        else if head.rest[0] == COMMA then
          var tail :- ReadMembers(head.rest[1..]);
          Some(Read(map[key.value := head.value] + tail.value, tail.rest))
        else None
  }

  /** A whole text. */
  function Parse(t: Text): Option<Norm> {
    match ReadValue(t)
    case None => None
    case Some(Read(value, rest)) => if rest == [] then Some(value) else None
  }

  // ----- reading back a string -----

  lemma ReadShortEscape(c: CodeUnit, q: Text, t: Text)
    requires ShortEscape(c).Some? && q == QuoteUnit(c) + t
    ensures ReadString(q) == Prepend([c], ReadString(t))
  {
    assert q[2..] == t;
  }

  lemma ReadHexEscape(c: CodeUnit, q: Text, t: Text)
    requires ShortEscape(c).None? && (c < 0x20 || IsLead(c) || IsTrail(c)) && q == QuoteUnit(c) + t
    ensures ReadString(q) == Prepend([c], ReadString(t))
  {
    HexRoundTrip(c);
    hide HexDigit, HexUnit;
    assert q[2..6] == QuoteUnit(c)[2..];
    assert q[6..] == t;
  }

  lemma ReadUnit(c: CodeUnit, t: Text)
    ensures ReadString(QuoteUnit(c) + t) == Prepend([c], ReadString(t))
  {
    var q := QuoteUnit(c) + t;
    if ShortEscape(c).Some? {
      ReadShortEscape(c, q, t);
    } else if c < 0x20 || IsLead(c) || IsTrail(c) {
      ReadHexEscape(c, q, t);
    } else {
      assert q[1..] == t;
    }
  }

  lemma HexRoundTrip(c: CodeUnit)
    ensures HexUnit([HexDigit(c / 0x1000), HexDigit(c / 0x100 % 16), HexDigit(c / 0x10 % 16), HexDigit(c % 16)]) == Some(c)
  {
    var c1 := c / 16;
    var c2 := c1 / 16;
    assert c / 0x100 == c2 && c / 0x1000 == c2 / 16;
  }

  lemma PrependTwice(a: Text, b: Text, r: Option<Read<Text>>)
    ensures Prepend(a, Prepend(b, r)) == Prepend(a + b, r)
  {
    if r.Some? {
      assert a + (b + r.value.value) == (a + b) + r.value.value;
    }
  }

  lemma ReadHead(s: Text, t: Text)
    requires s != []
    ensures ReadString(QuoteHead(s) + t) == Prepend(s[..HeadLength(s)], ReadString(t))
  {
    if StartsWithPair(s) {
      var pair := s[..2];
      assert (pair + t)[1..][1..] == t;
      assert ReadString((pair + t)[1..]) == Prepend([pair[1]], ReadString(t));
      PrependTwice([pair[0]], [pair[1]], ReadString(t));
      assert [pair[0]] + [pair[1]] == pair;
    } else {
      ReadUnit(s[0], t);
      assert s[..1] == [s[0]];
    }
  }

  lemma ConcatAssoc(a: Text, b: Text, c: Text)
    ensures (a + b) + c == a + (b + c)
  {
  }

  lemma {:induction false} ReadQuoteBody(s: Text, t: Text)
    ensures ReadString(QuoteBody(s) + t) == Prepend(s, ReadString(t))
    decreases |s|
  {
    if s == [] {
      assert QuoteBody(s) + t == t;
      PrependNothing(ReadString(t));
    } else {
      var k := HeadLength(s);
      var body := QuoteBody(s[k..]);
      ConcatAssoc(QuoteHead(s), body, t);
      ReadHead(s, body + t);
      ReadQuoteBody(s[k..], t);
      PrependTwice(s[..k], s[k..], ReadString(t));
      assert s == s[..k] + s[k..];
    }
  }

  lemma PrependNothing(r: Option<Read<Text>>)
    ensures Prepend([], r) == r
  {
    if r.Some? {
      assert [] + r.value.value == r.value.value;
    }
  }

  /** Every string is read back from its quoted form, whatever follows. */
  lemma ReadQuoted(s: Text, rest: Text)
    ensures var t := Quote(s) + rest;
            t[0] == QUOTE && ReadString(t[1..]) == Some(Read(s, rest))
  {
    var t := Quote(s) + rest;
    assert t[1..] == QuoteBody(s) + ([QUOTE] + rest);
    ReadQuoteBody(s, [QUOTE] + rest);
    assert ([QUOTE] + rest)[1..] == rest;
    assert s + [] == s;
  }

  // ----- reading back a number -----

  lemma ReadDigits(m: nat, rest: Text)
    requires !StartsWithDigit(rest)
    ensures DigitRun(Digits(m) + rest) == |Digits(m)| > 0
    ensures (Digits(m) + rest)[..|Digits(m)|] == Digits(m) && (Digits(m) + rest)[|Digits(m)|..] == rest
    ensures DigitsValue(Digits(m)) == m && Digits(m)[0] != MINUS
  {
    hide Digits, DigitsValue, DigitRun;
    DigitsRead(m);
    DigitRunOf(Digits(m), rest);
  }

  lemma ReadNegative(m: nat, rest: Text)
    requires !StartsWithDigit(rest)
    ensures ReadNumber([MINUS] + (Digits(m) + rest)) == Some(Read(-(m as int), rest))
  {
    hide Digits, DigitsValue, DigitRun;
    var ds := Digits(m);
    ReadDigits(m, rest);
    var t := [MINUS] + (ds + rest);
    assert t[1..] == ds + rest;
  }

  lemma ReadDecimal(n: int, rest: Text)
    requires !StartsWithDigit(rest)
    ensures ReadNumber(Decimal(n) + rest) == Some(Read(n, rest))
  {
    hide Digits, DigitsValue, DigitRun, ReadNumber;
    if n < 0 {
      ReadNegative(-n, rest);
      assert Decimal(n) + rest == [MINUS] + (Digits(-n) + rest);
    } else {
      ReadPositive(n, rest);
    }
  }

  lemma ReadPositive(m: nat, rest: Text)
    requires !StartsWithDigit(rest)
    ensures ReadNumber(Digits(m) + rest) == Some(Read(m, rest))
  {
    hide Digits, DigitsValue, DigitRun;
    ReadDigits(m, rest);
  }

  // ----- reading back a value -----

  lemma LiteralRead(literal: Text, rest: Text)
    ensures literal == NULL_TEXT ==> ReadLiteral(literal + rest) == Some(Read(NNull, rest))
    ensures literal == TRUE_TEXT ==> ReadLiteral(literal + rest) == Some(Read(NBool(true), rest))
    ensures literal == FALSE_TEXT ==> ReadLiteral(literal + rest) == Some(Read(NBool(false), rest))
  {
    var t := literal + rest;
    assert t[..|literal|] == literal && t[|literal|..] == rest;
    if |t| >= 4 {
      assert t[..4][0] == t[0];
    }
  }

  /** The canonical text of v, whatever follows, is read as the meaning of v. After a number the
      next unit must not be a digit; after anything else every text will do. */
  lemma {:induction false} ReadStringified(v: Value, text: Text, rest: Text)
    requires IsValue(v) && Stringify(v) == Some(text) && !StartsWithDigit(rest)
    ensures ReadValue(text + rest) == Some(Read(Normalize(v), rest))
    ensures text != [] && text[0] != CLOSE_BRACKET && text[0] != CLOSE_BRACE
    decreases v, 3
  {
    match v
    case Null =>
      LiteralRead(text, rest);
    case Bool(b) =>
      LiteralRead(text, rest);
    case Num(n) =>
      ReadDecimal(n, rest);
      DecimalStart(n);
    case Str(s) =>
      ReadQuoted(s, rest);
    case Arr(items) =>
      ReadArray(v, text, rest);
    case Obj(props) =>
      ReadObject(v, text, rest);
  }

  lemma ReadArray(v: Value, text: Text, rest: Text)
    requires v.Arr? && IsValue(v) && Stringify(v) == Some(text)
    ensures ReadValue(text + rest) == Some(Read(Normalize(v), rest))
    decreases v, 2
  {
    var parts := StringifyItems(v.items).value;
    var inner := Join(parts, [COMMA]) + ([CLOSE_BRACKET] + rest);
    Wrapped(OPEN_BRACKET, Join(parts, [COMMA]), CLOSE_BRACKET, rest);
    assert Normalize(v) == NArr(NormItems(v.items));
    if v.items == [] {
      assert Normalize(v) == NArr([]);
    } else {
      ReadJoinedItems(v.items, parts, rest);
    }
  }

  lemma Wrapped(open: CodeUnit, inner: Text, close: CodeUnit, rest: Text)
    ensures var t := [open] + inner + [close] + rest;
            && t[0] == open && t[1..] == inner + ([close] + rest)
            && (inner == [] ==> |t| >= 2 && t[1] == close && t[2..] == rest)
            && (inner != [] ==> |t| >= 2 && t[1] == inner[0])
  {
  }

  lemma DecimalStart(n: int)
    ensures Decimal(n) != [] && (Decimal(n)[0] == MINUS || IsDigit(Decimal(n)[0]))
  {
    DigitsRead(if n < 0 then -n else n);
  }

  ghost function NormItems(items: seq<Value>): seq<Norm> {
    seq(|items|, i requires 0 <= i < |items| => Normalize(items[i]))
  }

  lemma JoinStep(part: Text, parts: seq<Text>, close: CodeUnit, rest: Text)
    ensures Join([part] + parts, [COMMA]) + ([close] + rest) ==
            part + (if parts == [] then [close] + rest else [COMMA] + (Join(parts, [COMMA]) + ([close] + rest)))
  {
    var all := [part] + parts;
    assert all[1..] == parts;
    if parts != [] {
      assert Join(all, [COMMA]) == part + [COMMA] + Join(parts, [COMMA]);
    }
  }

  lemma NormItemsStep(items: seq<Value>)
    requires items != []
    ensures NormItems(items) ==
            if |items| == 1 then [Normalize(items[0])] else [Normalize(items[0])] + NormItems(items[1..])
  {
  }

  lemma ReadItem(item: Value, part: Text, after: Text)
    requires IsValue(item) && !StartsWithDigit(after)
    requires if item.Undefined? then part == NULL_TEXT else Stringify(item) == Some(part)
    ensures ReadValue(part + after) == Some(Read(Normalize(item), after))
    ensures part != [] && part[0] != CLOSE_BRACKET
    decreases item, 4
  {
    if item.Undefined? {
      LiteralRead(part, after);
    } else {
      ReadStringified(item, part, after);
    }
  }

  lemma {:induction false} ReadJoinedItems(items: seq<Value>, parts: seq<Text>, rest: Text)
    requires items != [] && forall i :: 0 <= i < |items| ==> IsValue(items[i])
    requires StringifyItems(items) == Some(parts)
    ensures ReadItems(Join(parts, [COMMA]) + ([CLOSE_BRACKET] + rest)) == Some(Read(NormItems(items), rest))
    ensures Join(parts, [COMMA]) != [] && Join(parts, [COMMA])[0] != CLOSE_BRACKET
    decreases items, 2
  {
    var others := Join(parts[1..], [COMMA]) + ([CLOSE_BRACKET] + rest);
    var after := if |items| == 1 then [CLOSE_BRACKET] + rest else [COMMA] + others;
    assert parts == [parts[0]] + parts[1..];
    JoinStep(parts[0], parts[1..], CLOSE_BRACKET, rest);
    ReadItem(items[0], parts[0], after);
    NormItemsStep(items);
    if |items| == 1 {
    } else {
      ReadJoinedItems(items[1..], parts[1..], rest);
    }
  }

  /** The meaning of some of an object's properties. */
  ghost function NormMembers(props: seq<Prop>, keys: seq<Text>): map<Text, Norm>
    requires forall k :: k in keys ==> HasKey(props, k)
  {
    map k | k in keys :: Normalize(Lookup(props, k).value)
  }

  lemma ReadKey(key: Text, value: Text, after: Text)
    ensures var t := Quote(key) + [COLON] + value + after;
            && t[0] == QUOTE
            && ReadString(t[1..]) == Some(Read(key, [COLON] + (value + after)))
  {
    ReadQuoted(key, [COLON] + (value + after));
    assert Quote(key) + [COLON] + value + after == Quote(key) + ([COLON] + (value + after));
  }

  lemma NormMembersStep(props: seq<Prop>, keys: seq<Text>)
    requires keys != [] && Distinct(keys)
    requires forall k :: k in keys ==> HasKey(props, k)
    ensures forall k :: k in keys[1..] ==> k in keys
    ensures var first := map[keys[0] := Normalize(Lookup(props, keys[0]).value)];
            NormMembers(props, keys) ==
            if |keys| == 1 then first else first + NormMembers(props, keys[1..])
  {
    assert forall k :: k in keys <==> k == keys[0] || k in keys[1..];
    assert keys[0] !in keys[1..];
  }

  lemma OneMoreMember(t: Text, key: Text, x: Text, head: Norm, others: Text, tail: map<Text, Norm>, rest: Text)
    requires t != [] && t[0] == QUOTE && ReadString(t[1..]) == Some(Read(key, [COLON] + x))
    requires ReadValue(x) == Some(Read(head, [COMMA] + others))
    requires ReadMembers(others) == Some(Read(tail, rest))
    ensures ReadMembers(t) == Some(Read(map[key := head] + tail, rest))
  {
    assert ([COLON] + x)[1..] == x && ([COMMA] + others)[1..] == others;
  }

  lemma {:induction false} ReadJoinedMembers(v: Value, keys: seq<Text>, parts: seq<Text>, rest: Text)
    requires v.Obj? && IsValue(v) && keys != [] && Distinct(keys)
    requires forall k :: k in keys ==> HasKey(v.props, k)
    requires StringifyMembers(v, keys) == Some(parts)
    ensures ReadMembers(Join(parts, [COMMA]) + ([CLOSE_BRACE] + rest)) == Some(Read(NormMembers(v.props, keys), rest))
    ensures Join(parts, [COMMA]) != [] && Join(parts, [COMMA])[0] == QUOTE
    decreases v, 1, |keys|
  {
    var value := Lookup(v.props, keys[0]).value;
    var text := Stringify(value).value;
    var others := Join(parts[1..], [COMMA]) + ([CLOSE_BRACE] + rest);
    var after := if |keys| == 1 then [CLOSE_BRACE] + rest else [COMMA] + others;
    NormMembersStep(v.props, keys);
    assert parts == [parts[0]] + parts[1..];
    JoinStep(parts[0], parts[1..], CLOSE_BRACE, rest);
    ReadKey(keys[0], text, after);
    ReadStringified(value, text, after);
    if |keys| == 1 {
    } else {
      ReadJoinedMembers(v, keys[1..], parts[1..], rest);
      OneMoreMember(parts[0] + after, keys[0], text + after, Normalize(value), others,
                    NormMembers(v.props, keys[1..]), rest);
    }
  }

  lemma {:induction false} DefinedKeysDistinct(props: seq<Prop>)
    requires UniqueKeys(props)
    ensures Distinct(DefinedKeys(props))
  {
    if props != [] {
      var rest := DefinedKeys(props[1..]);
      DefinedKeysDistinct(props[1..]);
      forall i | 0 <= i < |rest|
        ensures rest[i] != props[0].key
      {
        assert rest[i] in rest;
        var j :| 0 <= j < |props[1..]| && props[1..][j].key == rest[i];
        assert props[1..][j] == props[j + 1];
      }
    }
  }

  lemma SortedKeys(props: seq<Prop>)
    requires UniqueKeys(props)
    ensures var keys := Sort(DefinedKeys(props));
            && StrictlySorted(keys) && Distinct(keys)
            && (forall k :: k in keys <==> k in DefinedKeys(props))
  {
    var defined := DefinedKeys(props);
    var keys := Sort(defined);
    DefinedKeysDistinct(props);
    SortIsSorted(defined);
    forall i, j | 0 <= i < j < |keys|
      ensures keys[i] != keys[j]
    {
      TextLessTotal(keys[i], keys[j]);
    }
  }

  lemma ReadObject(v: Value, text: Text, rest: Text)
    requires v.Obj? && IsValue(v) && Stringify(v) == Some(text)
    ensures ReadValue(text + rest) == Some(Read(Normalize(v), rest))
    decreases v, 2
  {
    var keys := Sort(DefinedKeys(v.props));
    SortedKeys(v.props);
    var parts := StringifyMembers(v, keys).value;
    Wrapped(OPEN_BRACE, Join(parts, [COMMA]), CLOSE_BRACE, rest);
    assert Normalize(v) == NObj(NormMembers(v.props, keys));
    if keys == [] {
      assert Normalize(v).members == map[];
    } else {
      ReadJoinedMembers(v, keys, parts, rest);
    }
  }

  /** The reader takes a canonical text back to the normal form of the value. */
  lemma ParseCanonical(v: Value)
    requires IsValue(v) && Canonicalize(v).Some?
    ensures Parse(Canonicalize(v).value) == Some(Normalize(v))
  {
    var text := Canonicalize(v).value;
    ReadStringified(v, text, []);
    assert text + [] == text;
  }

  // ----- which values have a canonical text -----

  /** The defined keys are those of the properties that are not undefined, and looking one up
      gives that property. */
  lemma {:induction false} DefinedLookup(props: seq<Prop>)
    requires UniqueKeys(props)
    ensures forall k :: k in DefinedKeys(props) ==> !Lookup(props, k).value.Undefined?
    ensures forall p :: p in props && !p.value.Undefined? ==>
              p.key in DefinedKeys(props) && Lookup(props, p.key) == p
  {
    if props != [] {
      var tail := props[1..];
      assert forall i :: 0 <= i < |tail| ==> tail[i] == props[i + 1];
      DefinedLookup(tail);
      forall k | k in DefinedKeys(tail)
        ensures k != props[0].key && Lookup(props, k) == Lookup(tail, k)
      {
        var j :| 0 <= j < |tail| && tail[j].key == k;
      }
    }
  }

  /** The printer throws exactly on the values that are not printable. */
  lemma {:induction false} StringifyTotal(v: Value)
    requires IsValue(v)
    ensures Stringify(v).Some? <==> Printable(v)
    decreases v, 1
  {
    match v
    case Arr(items) =>
      ItemsTotal(items);
    case Obj(props) =>
      var keys := Sort(DefinedKeys(props));
      SortedKeys(props);
      DefinedLookup(props);
      MembersTotal(v, keys);
      if forall k :: k in keys ==> Printable(Lookup(props, k).value) {
        forall i | 0 <= i < |props|
          ensures props[i].value.Undefined? || Printable(props[i].value)
        {
          assert props[i] in props;
          assert props[i].value.Undefined? || props[i].key in keys;
        }
      } else {
        var k :| k in keys && !Printable(Lookup(props, k).value);
        var i :| 0 <= i < |props| && props[i] == Lookup(props, k);
        assert !Printable(props[i].value);
      }
    case _ =>
  }

  lemma {:induction false} ItemsTotal(items: seq<Value>)
    requires forall i :: 0 <= i < |items| ==> IsValue(items[i])
    ensures StringifyItems(items).Some? <==>
            forall i :: 0 <= i < |items| ==> items[i].Undefined? || Printable(items[i])
    decreases items, 0
  {
    if items != [] {
      StringifyTotal(items[0]);
      ItemsTotal(items[1..]);
      assert forall i :: 0 < i < |items| ==> items[i] == items[1..][i - 1];
    }
  }

  lemma {:induction false} MembersTotal(v: Value, keys: seq<Text>)
    requires v.Obj? && IsValue(v)
    requires forall k :: k in keys ==> HasKey(v.props, k)
    ensures StringifyMembers(v, keys).Some? <==> forall k :: k in keys ==> Printable(Lookup(v.props, k).value)
    decreases v, 0, |keys|
  {
    if keys != [] {
      StringifyTotal(Lookup(v.props, keys[0]).value);
      MembersTotal(v, keys[1..]);
      assert forall k :: k in keys <==> k == keys[0] || k in keys[1..];
    }
  }

  // ----- values with one meaning have one text -----

  lemma {:induction false} SameMeaningSameText(a: Value, b: Value)
    requires IsValue(a) && IsValue(b) && Printable(a) && Printable(b)
    requires Normalize(a) == Normalize(b)
    ensures Stringify(a) == Stringify(b)
    decreases a, 1
  {
    match a
    case Arr(items) =>
      assert Normalize(a) == NArr(NormItems(items)) && Normalize(b) == NArr(NormItems(b.items));
      SameItems(items, b.items);
    case Obj(props) =>
      SameObjects(a, b);
    case _ =>
  }

  lemma {:induction false} SameItems(a: seq<Value>, b: seq<Value>)
    requires forall i :: 0 <= i < |a| ==> IsValue(a[i]) && (a[i].Undefined? || Printable(a[i]))
    requires forall i :: 0 <= i < |b| ==> IsValue(b[i]) && (b[i].Undefined? || Printable(b[i]))
    requires NormItems(a) == NormItems(b)
    ensures StringifyItems(a) == StringifyItems(b)
    decreases a, 0
  {
    assert |a| == |NormItems(a)| == |b|;
    if a != [] {
      assert Normalize(a[0]) == NormItems(a)[0] == Normalize(b[0]);
      if !a[0].Undefined? && !b[0].Undefined? {
        SameMeaningSameText(a[0], b[0]);
      }
      NormItemsStep(a);
      NormItemsStep(b);
      assert |a| > 1 ==> NormItems(a[1..]) == NormItems(a)[1..];
      assert |b| > 1 ==> NormItems(b[1..]) == NormItems(b)[1..];
      if |a| > 1 {
        SameItems(a[1..], b[1..]);
      } else {
        assert a[1..] == b[1..];
      }
    }
  }

  lemma SameObjects(a: Value, b: Value)
    requires a.Obj? && IsValue(a) && IsValue(b) && Printable(a) && Printable(b)
    requires Normalize(a) == Normalize(b)
    ensures Stringify(a) == Stringify(b)
    decreases a, 0
  {
    var m := Normalize(a).members;
    var keysA, keysB := Sort(DefinedKeys(a.props)), Sort(DefinedKeys(b.props));
    SortedKeys(a.props);
    SortedKeys(b.props);
    forall k
      ensures k in keysA <==> k in keysB
    {
      assert k in m <==> k in DefinedKeys(a.props);
      assert k in m <==> k in DefinedKeys(b.props);
    }
    SortedIsUnique(keysA, keysB);
    DefinedLookup(a.props);
    DefinedLookup(b.props);
    forall k | k in keysA
      ensures HasKey(a.props, k) && HasKey(b.props, k)
      ensures Normalize(Lookup(a.props, k).value) == Normalize(Lookup(b.props, k).value)
    {
      assert m[k] == Normalize(Lookup(a.props, k).value);
      assert Normalize(b).members[k] == Normalize(Lookup(b.props, k).value);
    }
    SameMembers(a, b, keysA);
  }

  lemma {:induction false} SameMembers(a: Value, b: Value, keys: seq<Text>)
    requires a.Obj? && b.Obj? && IsValue(a) && IsValue(b) && Printable(a) && Printable(b)
    requires forall k :: k in keys ==>
               && HasKey(a.props, k) && !Lookup(a.props, k).value.Undefined?
               && HasKey(b.props, k) && !Lookup(b.props, k).value.Undefined?
               && Normalize(Lookup(a.props, k).value) == Normalize(Lookup(b.props, k).value)
    ensures StringifyMembers(a, keys) == StringifyMembers(b, keys)
    decreases a, 0, |keys|
  {
    if keys != [] {
      SameMeaningSameText(Lookup(a.props, keys[0]).value, Lookup(b.props, keys[0]).value);
      SameMembers(a, b, keys[1..]);
    }
  }

  /** Two values print the same exactly when they mean the same, whatever the order of the
      properties at any depth. */
  lemma CanonicalIffSameMeaning(a: Value, b: Value)
    requires IsValue(a) && IsValue(b) && Printable(a) && Printable(b)
    ensures Canonicalize(a).Some? && Canonicalize(b).Some?
    ensures Canonicalize(a) == Canonicalize(b) <==> Normalize(a) == Normalize(b)
  {
    StringifyTotal(a);
    StringifyTotal(b);
    ParseCanonical(a);
    ParseCanonical(b);
    if Normalize(a) == Normalize(b) {
      SameMeaningSameText(a, b);
    }
  }

  // ----- the text can be encoded -----

  lemma {:induction false} QuoteWellFormed(s: Text)
    ensures WellFormed(QuoteBody(s))
    decreases |s|
  {
    if s != [] {
      var k := HeadLength(s);
      QuoteWellFormed(s[k..]);
      var head := QuoteHead(s);
      if StartsWithPair(s) {
        assert head[2..] == [];
      } else {
        assert |head| == 1 ==> head[1..] == [];
        if |head| > 1 {
          PlainIsWellFormed(head);
        }
      }
      WellFormedConcat(head, QuoteBody(s[k..]));
    }
  }

  lemma {:induction false} JoinWellFormed(parts: seq<Text>)
    requires forall i :: 0 <= i < |parts| ==> WellFormed(parts[i])
    ensures WellFormed(Join(parts, [COMMA]))
  {
    if |parts| > 1 {
      JoinWellFormed(parts[1..]);
      PlainIsWellFormed([COMMA]);
      WellFormedConcat(parts[0], [COMMA]);
      WellFormedConcat(parts[0] + [COMMA], Join(parts[1..], [COMMA]));
    }
  }

  lemma WrapWellFormed(open: CodeUnit, t: Text, close: CodeUnit)
    requires WellFormed(t) && open < 0xD800 && close < 0xD800
    ensures WellFormed([open] + t + [close])
  {
    PlainIsWellFormed([open]);
    PlainIsWellFormed([close]);
    WellFormedConcat([open], t);
    WellFormedConcat([open] + t, [close]);
  }

  /** What the printer returns is always well-formed, even for strings that are not. */
  lemma {:induction false} StringifyWellFormed(v: Value)
    requires Stringify(v).Some?
    ensures WellFormed(Stringify(v).value)
    decreases v, 1
  {
    match v
    case Num(n) =>
      DigitsRead(if n < 0 then -n else n);
      var text := Decimal(n);
      forall i | 0 <= i < |text|
        ensures text[i] < 0xD800
      {
        assert text[i] == MINUS || IsDigit(text[i]);
      }
      PlainIsWellFormed(text);
    case Str(s) =>
      QuoteWellFormed(s);
      WrapWellFormed(QUOTE, QuoteBody(s), QUOTE);
    case Arr(items) =>
      ItemsWellFormed(items);
      JoinWellFormed(StringifyItems(items).value);
      WrapWellFormed(OPEN_BRACKET, Join(StringifyItems(items).value, [COMMA]), CLOSE_BRACKET);
    case Obj(props) =>
      SortMembers(DefinedKeys(props));
      var keys := Sort(DefinedKeys(props));
      MembersWellFormed(v, keys);
      JoinWellFormed(StringifyMembers(v, keys).value);
      WrapWellFormed(OPEN_BRACE, Join(StringifyMembers(v, keys).value, [COMMA]), CLOSE_BRACE);
    case Null =>
      PlainIsWellFormed(NULL_TEXT);
    case Bool(b) =>
      PlainIsWellFormed(if b then TRUE_TEXT else FALSE_TEXT);
    case _ =>
  }

  lemma {:induction false} ItemsWellFormed(items: seq<Value>)
    requires StringifyItems(items).Some?
    ensures forall i :: 0 <= i < |items| ==> WellFormed(StringifyItems(items).value[i])
    decreases items, 0
  {
    if items != [] {
      if items[0].Undefined? {
        PlainIsWellFormed(NULL_TEXT);
      } else {
        StringifyWellFormed(items[0]);
      }
      ItemsWellFormed(items[1..]);
    }
  }

  lemma {:induction false} MembersWellFormed(v: Value, keys: seq<Text>)
    requires v.Obj? && forall k :: k in keys ==> HasKey(v.props, k)
    requires StringifyMembers(v, keys).Some?
    ensures forall i :: 0 <= i < |keys| ==> WellFormed(StringifyMembers(v, keys).value[i])
    decreases v, 0, |keys|
  {
    if keys != [] {
      var value := Lookup(v.props, keys[0]).value;
      StringifyWellFormed(value);
      QuoteWellFormed(keys[0]);
      WrapWellFormed(QUOTE, QuoteBody(keys[0]), QUOTE);
      PlainIsWellFormed([COLON]);
      WellFormedConcat(Quote(keys[0]), [COLON]);
      WellFormedConcat(Quote(keys[0]) + [COLON], Stringify(value).value);
      MembersWellFormed(v, keys[1..]);
    }
  }
}
