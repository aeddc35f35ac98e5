/** Two-layer signed envelopes: the author signs the payload, the sending instance signs the rest.
    Signatures are symbolic: a signature value names its signer and the bytes signed, so verifying
    one under a key means comparing it with that key's signature of the expected bytes. */
module EnvelopeSigning {
  import opened JsText
  import opened CanonicalJson
  import opened Wrappers

  type Key = nat
  type Bytes = seq<int>

  datatype Signature = Signature(signer: Key, message: Bytes)

  /** Encodings the protocol relies on, and the list of event types it declares. */
  datatype Codec = Codec(
    utf8: Text -> Bytes,
    toBase64: Signature -> Text,
    fromBase64: Text -> Option<Signature>,
    toIso: int -> Text,
    fromIso: Text -> Option<int>,
    eventTypes: set<Text>)

  /** A time that `toISOString` can write at all. */
  predicate IsDate(t: int) {
    -8_640_000_000_000_000 <= t <= 8_640_000_000_000_000
  }

  /** A time in the years 0 to 9999. Other years take six digits and a sign, and the wire schema
      knows no such texts. */
  predicate HasPlainYear(t: int) {
    -62_167_219_200_000 <= t <= 253_402_300_799_999
  }

  /** What is assumed of them: UTF-8 loses nothing on well-formed text, base64 can be undone, and a
      written time is read back in plain years and refused in others. Several texts may decode to
      one signature. */
  ghost predicate Sound(c: Codec) {
    && (forall a, b :: WellFormed(a) && WellFormed(b) && c.utf8(a) == c.utf8(b) ==> a == b)
    && (forall s :: c.toBase64(s) != [] && c.fromBase64(c.toBase64(s)) == Some(s))
    && (forall t :: IsDate(t) ==> c.fromIso(c.toIso(t)) == if HasPlainYear(t) then Some(t) else None)
  }

  const CLOCK_SKEW_MS: int := 60_000
  const DEFAULT_LIFETIME_S: int := 300

  const PROTOCOL_VERSION: Text := Ascii("ir20/1")

  // ----- envelopes as objects -----

  datatype Envelope = Envelope(
    version: Text,
    eventType: Text,
    nonce: Text,
    notBefore: Text,
    notAfter: Text,
    fromInstance: Text,
    toInstance: Text,
    payload: Value,
    userSignature: Text,
    signature: Text)

  /** The object literal that the instance signs. */
  function Unsigned(e: Envelope): Value {
    Obj(UnsignedProps(e))
  }

  function UnsignedProps(e: Envelope): seq<Prop> {
    [Prop(Ascii("version"), Str(e.version)),
     Prop(Ascii("eventType"), Str(e.eventType)),
     Prop(Ascii("nonce"), Str(e.nonce)),
     Prop(Ascii("notBefore"), Str(e.notBefore)),
     Prop(Ascii("notAfter"), Str(e.notAfter)),
     Prop(Ascii("fromInstance"), Str(e.fromInstance)),
     Prop(Ascii("toInstance"), Str(e.toInstance)),
     Prop(Ascii("payload"), e.payload),
     Prop(Ascii("userSignature"), Str(e.userSignature))]
  }

  /** `{ ...unsigned, signature }` */
  function Signed(e: Envelope): Value {
    Obj(UnsignedProps(e) + [Prop(Ascii("signature"), Str(e.signature))])
  }

  // ----- building -----

  datatype BuildInput = BuildInput(
    eventType: Text,
    fromInstance: Text,
    toInstance: Text,
    payload: Value,
    lifetimeSeconds: Option<int>,
    notBefore: Option<int>,
    signUser: Option<Key>,
    preservedUserSignature: Option<Text>,
    signInstance: Key)

  function StartOf(input: BuildInput, now: int): int {
    if input.notBefore.Some? then input.notBefore.value else now
  }

  function EndOf(input: BuildInput, now: int): int {
    StartOf(input, now) + (if input.lifetimeSeconds.Some? then input.lifetimeSeconds.value else DEFAULT_LIFETIME_S) * 1000
  }

  /** The signature of a value under a key, over the bytes of its canonical text. */
  function SignValue(c: Codec, key: Key, v: Value): Option<Signature> {
    var text :- Canonicalize(v);
    Some(Signature(key, c.utf8(text)))
  }

  /** Layer 1: sign now, or reuse a signature made elsewhere. */
  function UserLayer(c: Codec, input: BuildInput): Option<Text> {
    if input.signUser.Some? == input.preservedUserSignature.Some? then None
    else if input.preservedUserSignature.Some? then input.preservedUserSignature
    else
      var signature :- SignValue(c, input.signUser.value, input.payload);
      Some(c.toBase64(signature))
  }

  /** The envelope before the instance signs it. */
  function Draft(c: Codec, input: BuildInput, now: int, nonce: Text, userSignature: Text): Envelope {
    Envelope(PROTOCOL_VERSION, input.eventType, nonce, c.toIso(StartOf(input, now)), c.toIso(EndOf(input, now)),
             input.fromInstance, input.toInstance, input.payload, userSignature, [])
  }

  /** Both ends of the window can be written. */
  predicate HasDates(input: BuildInput, now: int) {
    IsDate(StartOf(input, now)) && IsDate(EndOf(input, now))
  }

  /** None stands for the errors thrown: not exactly one source of the user signature, a payload
      without a canonical form, or a time that is no date. `now` is the clock and `nonce` the
      identifier drawn. */
  function Build(c: Codec, input: BuildInput, now: int, nonce: Text): Option<Envelope> {
    var userSignature :- UserLayer(c, input);
    if !HasDates(input, now) then None
    else
      var draft := Draft(c, input, now, nonce, userSignature);
      var signature :- SignValue(c, input.signInstance, Unsigned(draft));
      Some(draft.(signature := c.toBase64(signature)))
  }

  // ----- verifying -----

  datatype Failure = EnvelopeInvalid | Expired | UserSigFailure | InstanceSigFailure

  datatype Result = Verified(envelope: Envelope) | Rejected(kind: Failure) | Throws

  /** `obj[key]` */
  function Field(v: Value, key: Text): Value
    requires v.Obj?
  {
    FieldOf(v.props, key)
  }

  function FieldOf(props: seq<Prop>, key: Text): Value {
    if props == [] then Undefined
    else if props[0].key == key then props[0].value
    else FieldOf(props[1..], key)
  }

  predicate NonceLetter(c: CodeUnit) {
    'A' as int <= c <= 'Z' as int || 'a' as int <= c <= 'z' as int || '0' as int <= c <= '9' as int
    || c == '_' as int || c == '-' as int
  }

  predicate ValidNonce(nonce: Text) {
    20 <= |nonce| <= 64 && forall i :: 0 <= i < |nonce| ==> NonceLetter(nonce[i])
  }

  predicate ValidHost(host: Text) {
    1 <= |host| <= 253
  }

  type Schema = Value -> Option<Value>

  /** The wire schema: every field present, a string and of the right form, the payload as the
      payload schema returns it. Other properties are dropped. */
  function ParseWire(c: Codec, wire: Value, schema: Schema): Option<Envelope> {
    if !wire.Obj? then None
    else
      var version := Field(wire, Ascii("version"));
      var eventType := Field(wire, Ascii("eventType"));
      var nonce := Field(wire, Ascii("nonce"));
      var notBefore := Field(wire, Ascii("notBefore"));
      var notAfter := Field(wire, Ascii("notAfter"));
      var fromInstance := Field(wire, Ascii("fromInstance"));
      var toInstance := Field(wire, Ascii("toInstance"));
      var userSignature := Field(wire, Ascii("userSignature"));
      var signature := Field(wire, Ascii("signature"));
      var payload :- schema(Field(wire, Ascii("payload")));
      if && version == Str(PROTOCOL_VERSION)
         && eventType.Str? && eventType.s in c.eventTypes
         && nonce.Str? && ValidNonce(nonce.s)
         && notBefore.Str? && c.fromIso(notBefore.s).Some?
         && notAfter.Str? && c.fromIso(notAfter.s).Some?
         && fromInstance.Str? && ValidHost(fromInstance.s)
         && toInstance.Str? && ValidHost(toInstance.s)
         && userSignature.Str? && userSignature.s != []
         && signature.Str? && signature.s != []
      then
        Some(Envelope(PROTOCOL_VERSION, eventType.s, nonce.s, notBefore.s, notAfter.s, fromInstance.s, toInstance.s,
                      payload, userSignature.s, signature.s))
      else None
  }

  /** Throws stands for the TypeError of a payload that has no canonical form. */
  function Verify(c: Codec, wire: Value, peerKey: Key, authorKey: Key, schema: Schema, now: int): Result {
    match ParseWire(c, wire, schema)
    case None => Rejected(EnvelopeInvalid)
    case Some(env) => VerifyParsed(c, env, peerKey, authorKey, now)
  }

  function VerifyParsed(c: Codec, env: Envelope, peerKey: Key, authorKey: Key, now: int): Result {
    var nb, na := c.fromIso(env.notBefore), c.fromIso(env.notAfter);
    if nb.None? || na.None? || na.value <= nb.value then Rejected(EnvelopeInvalid)
    else if now + CLOCK_SKEW_MS < nb.value then Rejected(Expired)
    else if now - CLOCK_SKEW_MS > na.value then Rejected(Expired)
    else
      match SignValue(c, authorKey, env.payload)
      case None => Throws
      case Some(userSignature) =>
        if c.fromBase64(env.userSignature) != Some(userSignature) then Rejected(UserSigFailure)
        else
          match SignValue(c, peerKey, Unsigned(env))
          case None => Throws
          case Some(signature) =>
            if c.fromBase64(env.signature) != Some(signature) then Rejected(InstanceSigFailure)
            else Verified(env)
  }

  // ----- what is accepted of any object whatever -----

  /** The object has just these fields, each of the form that is asked for, with times that can be read
      and come one after the other. */
  ghost predicate OnWire(c: Codec, wire: Value, schema: Schema, e: Envelope) {
    && wire.Obj?
    && Field(wire, Ascii("version")) == Str(e.version) && e.version == Ascii("ir20/1")
    && Field(wire, Ascii("eventType")) == Str(e.eventType) && e.eventType in c.eventTypes
    && Field(wire, Ascii("nonce")) == Str(e.nonce) && 20 <= |e.nonce| <= 64
    && (forall i :: 0 <= i < |e.nonce| ==>
          var l := e.nonce[i]; 48 <= l <= 57 || 65 <= l <= 90 || 97 <= l <= 122 || l == 45 || l == 95)
    && Field(wire, Ascii("fromInstance")) == Str(e.fromInstance) && 1 <= |e.fromInstance| <= 253
    && Field(wire, Ascii("toInstance")) == Str(e.toInstance) && 1 <= |e.toInstance| <= 253
    && Field(wire, Ascii("userSignature")) == Str(e.userSignature) && e.userSignature != []
    && Field(wire, Ascii("signature")) == Str(e.signature) && e.signature != []
    && schema(Field(wire, Ascii("payload"))) == Some(e.payload)
    && Field(wire, Ascii("notBefore")) == Str(e.notBefore) && c.fromIso(e.notBefore).Some?
    && Field(wire, Ascii("notAfter")) == Str(e.notAfter) && c.fromIso(e.notAfter).Some?
    && c.fromIso(e.notBefore).value < c.fromIso(e.notAfter).value
  }

  /** With a minute of grace at both ends. */
  predicate InTime(c: Codec, e: Envelope, now: int)
    requires c.fromIso(e.notBefore).Some? && c.fromIso(e.notAfter).Some?
  {
    c.fromIso(e.notBefore).value - 60_000 <= now <= c.fromIso(e.notAfter).value + 60_000
  }

  predicate SignedBy(c: Codec, key: Key, v: Value, signature: Text) {
    SignValue(c, key, v).Some? && c.fromBase64(signature) == SignValue(c, key, v)
  }

  /** An object is accepted as an envelope exactly if it has the form, is in time, and is signed by the
      author and by the peer. */
  lemma VerifiedIff(c: Codec, wire: Value, peerKey: Key, authorKey: Key, schema: Schema, now: int, e: Envelope)
    ensures Verify(c, wire, peerKey, authorKey, schema, now) == Verified(e) <==>
            && OnWire(c, wire, schema, e) && InTime(c, e, now)
            && SignedBy(c, authorKey, e.payload, e.userSignature) && SignedBy(c, peerKey, Unsigned(e), e.signature)
  {
    hide SignValue, Field, Unsigned;
    ParsedIff(c, wire, schema, e);
    if ParseWire(c, wire, schema).Some? {
      ParsedIff(c, wire, schema, ParseWire(c, wire, schema).value);
    }
  }

  /** What is refused for one of its layers was in time; and the peer's layer is looked at only when the
      author's is right, so that a peer that changed its key is told from a forged message. */
  lemma RefusedIff(c: Codec, wire: Value, peerKey: Key, authorKey: Key, schema: Schema, now: int, e: Envelope)
    requires OnWire(c, wire, schema, e)
    ensures var r := Verify(c, wire, peerKey, authorKey, schema, now);
            && (r == Rejected(Expired) <==> !InTime(c, e, now))
            && (r == Rejected(UserSigFailure) <==>
                  && InTime(c, e, now) && SignValue(c, authorKey, e.payload).Some?
                  && !SignedBy(c, authorKey, e.payload, e.userSignature))
            && (r == Rejected(InstanceSigFailure) <==>
                  && InTime(c, e, now) && SignedBy(c, authorKey, e.payload, e.userSignature)
                  && SignValue(c, peerKey, Unsigned(e)).Some? && !SignedBy(c, peerKey, Unsigned(e), e.signature))
            && r != Rejected(EnvelopeInvalid)
  {
    hide SignValue, Field, Unsigned;
    ParsedIff(c, wire, schema, e);
  }

  lemma ParsedIff(c: Codec, wire: Value, schema: Schema, e: Envelope)
    ensures ParseWire(c, wire, schema) == Some(e) && c.fromIso(e.notBefore).value < c.fromIso(e.notAfter).value <==>
            OnWire(c, wire, schema, e)
  {
    hide Field;
  }

  // ----- what the normal form of an object says about its fields -----

  lemma {:induction false} FieldIsLookup(props: seq<Prop>, key: Text)
    requires UniqueKeys(props)
    ensures key in DefinedKeys(props) <==> !FieldOf(props, key).Undefined?
    ensures HasKey(props, key) ==> FieldOf(props, key) == Lookup(props, key).value
    ensures !HasKey(props, key) ==> FieldOf(props, key).Undefined?
  {
    if props != [] {
      var tail := props[1..];
      assert forall i :: 0 <= i < |tail| ==> tail[i] == props[i + 1];
      FieldIsLookup(tail, key);
      if HasKey(tail, key) {
        var i :| 0 <= i < |tail| && tail[i].key == key;
        assert props[i + 1].key == key;
      }
    }
  }

  /** A member of the normal form is the normal form of the field. */
  lemma FieldMeaning(props: seq<Prop>, key: Text)
    requires UniqueKeys(props)
    ensures var m := Normalize(Obj(props)).members;
            && (key in m <==> !FieldOf(props, key).Undefined?)
            && (key in m ==> m[key] == Normalize(FieldOf(props, key)))
  {
    FieldIsLookup(props, key);
  }

  lemma SameMeaningSameField(a: seq<Prop>, b: seq<Prop>, key: Text)
    requires UniqueKeys(a) && UniqueKeys(b) && Normalize(Obj(a)) == Normalize(Obj(b))
    ensures FieldOf(a, key).Undefined? == FieldOf(b, key).Undefined?
    ensures Normalize(FieldOf(a, key)) == Normalize(FieldOf(b, key))
    ensures FieldOf(a, key).Str? ==> FieldOf(b, key) == FieldOf(a, key)
  {
    FieldMeaning(a, key);
    FieldMeaning(b, key);
    var va, vb := FieldOf(a, key), FieldOf(b, key);
    assert va.Undefined? == vb.Undefined? && Normalize(va) == Normalize(vb);
    OnlyStringsMeanStrings(va, vb);
  }

  lemma OnlyStringsMeanStrings(a: Value, b: Value)
    requires Normalize(a) == Normalize(b)
    ensures a.Str? ==> b == a
  {
  }

  lemma SameFieldsSameMeaning(a: seq<Prop>, b: seq<Prop>)
    requires UniqueKeys(a) && UniqueKeys(b)
    requires forall key :: && FieldOf(a, key).Undefined? == FieldOf(b, key).Undefined?
                           && Normalize(FieldOf(a, key)) == Normalize(FieldOf(b, key))
    ensures Normalize(Obj(a)) == Normalize(Obj(b))
  {
    var ma, mb := Normalize(Obj(a)).members, Normalize(Obj(b)).members;
    forall key
      ensures key in ma <==> key in mb
      ensures key in ma ==> ma[key] == mb[key]
    {
      FieldMeaning(a, key);
      FieldMeaning(b, key);
    }
    assert ma == mb;
  }

  lemma {:induction false} FieldAt(props: seq<Prop>, i: nat)
    requires UniqueKeys(props) && i < |props|
    ensures FieldOf(props, props[i].key) == props[i].value
  {
    if i > 0 {
      assert props[1..][i - 1] == props[i];
      FieldAt(props[1..], i - 1);
    }
  }

  // ----- the fields of an envelope -----

  lemma FieldNamesDiffer(e: Envelope)
    ensures UniqueKeys(Signed(e).props) && UniqueKeys(UnsignedProps(e))
  {
    var props := Signed(e).props;
    assert |props[0].key| == 7 && props[0].key[0] == 'v' as int;
    assert |props[1].key| == 9 && props[1].key[0] == 'e' as int;
    assert |props[2].key| == 5;
    assert |props[3].key| == 9 && props[3].key[0] == 'n' as int;
    assert |props[4].key| == 8;
    assert |props[5].key| == 12;
    assert |props[6].key| == 10;
    assert |props[7].key| == 7 && props[7].key[0] == 'p' as int;
    assert |props[8].key| == 13;
    assert |props[9].key| == 9 && props[9].key[0] == 's' as int;
  }

  /** The properties of a signed envelope, position by position. */
  ghost predicate IsSigned(own: seq<Prop>, e: Envelope) {
    && |own| == 10
    && own[0] == Prop(Ascii("version"), Str(e.version))
    && own[1] == Prop(Ascii("eventType"), Str(e.eventType))
    && own[2] == Prop(Ascii("nonce"), Str(e.nonce))
    && own[3] == Prop(Ascii("notBefore"), Str(e.notBefore))
    && own[4] == Prop(Ascii("notAfter"), Str(e.notAfter))
    && own[5] == Prop(Ascii("fromInstance"), Str(e.fromInstance))
    && own[6] == Prop(Ascii("toInstance"), Str(e.toInstance))
    && own[7] == Prop(Ascii("payload"), e.payload)
    && own[8] == Prop(Ascii("userSignature"), Str(e.userSignature))
    && own[9] == Prop(Ascii("signature"), Str(e.signature))
  }

  /** The fields of an object that carries an envelope. */
  ghost predicate Carries(props: seq<Prop>, e: Envelope) {
    && FieldOf(props, Ascii("version")) == Str(e.version)
    && FieldOf(props, Ascii("eventType")) == Str(e.eventType)
    && FieldOf(props, Ascii("nonce")) == Str(e.nonce)
    && FieldOf(props, Ascii("notBefore")) == Str(e.notBefore)
    && FieldOf(props, Ascii("notAfter")) == Str(e.notAfter)
    && FieldOf(props, Ascii("fromInstance")) == Str(e.fromInstance)
    && FieldOf(props, Ascii("toInstance")) == Str(e.toInstance)
    && FieldOf(props, Ascii("userSignature")) == Str(e.userSignature)
    && FieldOf(props, Ascii("signature")) == Str(e.signature)
    && FieldOf(props, Ascii("payload")).Undefined? == e.payload.Undefined?
    && Normalize(FieldOf(props, Ascii("payload"))) == Normalize(e.payload)
  }

  /** Whatever has the meaning of an envelope carries it. */
  lemma MeaningCarries(own: seq<Prop>, e: Envelope, props: seq<Prop>)
    requires IsSigned(own, e) && UniqueKeys(own) && UniqueKeys(props)
    requires Normalize(Obj(props)) == Normalize(Obj(own))
    ensures Carries(props, e)
  {
    forall i: nat | i < |own|
      ensures own[i].value.Str? ==> FieldOf(props, own[i].key) == own[i].value
      ensures FieldOf(props, own[i].key).Undefined? == own[i].value.Undefined?
      ensures Normalize(FieldOf(props, own[i].key)) == Normalize(own[i].value)
    {
      FieldAt(own, i);
      SameMeaningSameField(own, props, own[i].key);
    }
  }

  lemma SignedIsSigned(e: Envelope)
    ensures IsSigned(Signed(e).props, e) && UniqueKeys(Signed(e).props)
    ensures UniqueKeys(UnsignedProps(e)) && Signed(e).props[..9] == UnsignedProps(e)
  {
    FieldNamesDiffer(e);
  }

  lemma UnsignedIsValue(e: Envelope)
    requires IsValue(e.payload)
    ensures IsValue(Unsigned(e))
    ensures Printable(e.payload) ==> Printable(Unsigned(e))
  {
    FieldNamesDiffer(e);
  }

  /** Exchanging one field for another of the same meaning does not change the meaning. */
  lemma OneFieldMeaning(a: seq<Prop>, b: seq<Prop>, i: nat)
    requires UniqueKeys(a) && UniqueKeys(b) && i < |a| == |b|
    requires forall j :: 0 <= j < |a| ==> a[j].key == b[j].key && (j != i ==> a[j] == b[j])
    requires a[i].value.Undefined? == b[i].value.Undefined? && Normalize(a[i].value) == Normalize(b[i].value)
    ensures Normalize(Obj(a)) == Normalize(Obj(b))
  {
    forall key
      ensures FieldOf(a, key).Undefined? == FieldOf(b, key).Undefined?
      ensures Normalize(FieldOf(a, key)) == Normalize(FieldOf(b, key))
    {
      FieldIsLookup(a, key);
      FieldIsLookup(b, key);
      if j :| 0 <= j < |a| && a[j].key == key {
        FieldAt(a, j);
        FieldAt(b, j);
      } else {
        assert !HasKey(a, key) && !HasKey(b, key);
      }
    }
    SameFieldsSameMeaning(a, b);
  }

  lemma PayloadMeaning(e: Envelope, payload: Value)
    requires e.payload.Undefined? == payload.Undefined? && Normalize(payload) == Normalize(e.payload)
    ensures Normalize(Unsigned(e.(payload := payload))) == Normalize(Unsigned(e))
  {
    FieldNamesDiffer(e);
    FieldNamesDiffer(e.(payload := payload));
    OneFieldMeaning(UnsignedProps(e.(payload := payload)), UnsignedProps(e), 7);
  }

  // ----- a built envelope at the receiver -----

  /** The object a receiver parses from the JSON of a sent envelope: same meaning, nothing more. */
  ghost predicate Received(wire: Value, e: Envelope) {
    wire.Obj? && IsValue(wire) && Printable(wire) && Normalize(wire) == Normalize(Signed(e))
  }

  ghost predicate WellFormedInput(c: Codec, input: BuildInput, nonce: Text) {
    && input.eventType in c.eventTypes
    && ValidNonce(nonce)
    && ValidHost(input.fromInstance)
    && ValidHost(input.toInstance)
    && IsValue(input.payload) && Printable(input.payload)
    && (input.lifetimeSeconds.Some? ==> input.lifetimeSeconds.value > 0)
    && (input.preservedUserSignature.Some? ==> input.preservedUserSignature.value != [])
  }

  /** Building succeeds exactly when there is one source of the user signature and both ends of the
      window are dates. */
  lemma BuildSucceeds(c: Codec, input: BuildInput, now: int, nonce: Text)
    requires WellFormedInput(c, input, nonce)
    ensures Build(c, input, now, nonce).Some? <==>
            input.signUser.Some? != input.preservedUserSignature.Some? && HasDates(input, now)
  {
    StringifyTotal(input.payload);
    if input.signUser.Some? != input.preservedUserSignature.Some? {
      var draft := Draft(c, input, now, nonce, UserLayer(c, input).value);
      UnsignedIsValue(draft);
      StringifyTotal(Unsigned(draft));
    }
  }

  lemma ReceivedPayload(e: Envelope, wire: Value)
    requires Received(wire, e) && IsValue(e.payload) && Printable(e.payload)
    ensures Carries(wire.props, e)
    ensures var payload := Field(wire, Ascii("payload"));
            && IsValue(payload) && Printable(payload)
            && Canonicalize(payload) == Canonicalize(e.payload) && Canonicalize(payload).Some?
  {
    SignedIsSigned(e);
    MeaningCarries(Signed(e).props, e, wire.props);
    FieldIsLookup(wire.props, Ascii("payload"));
    CanonicalIffSameMeaning(Field(wire, Ascii("payload")), e.payload);
  }

  predicate HasReadableTimes(c: Codec, e: Envelope) {
    c.fromIso(e.notBefore).Some? && c.fromIso(e.notAfter).Some?
  }

  /** The wire schema accepts the fields, the times aside. */
  ghost predicate WellFormedFields(c: Codec, e: Envelope) {
    && e.version == PROTOCOL_VERSION
    && e.eventType in c.eventTypes
    && ValidNonce(e.nonce)
    && ValidHost(e.fromInstance)
    && ValidHost(e.toInstance)
    && e.userSignature != []
    && e.signature != []
  }

  lemma CarriedParses(c: Codec, e: Envelope, wire: Value, schema: Schema)
    requires wire.Obj? && Carries(wire.props, e) && WellFormedFields(c, e)
    requires KeepsPayload(schema, wire)
    ensures ParseWire(c, wire, schema) ==
            if HasReadableTimes(c, e) then Some(e.(payload := Field(wire, Ascii("payload")))) else None
  {
  }

  function ReadTime(t: int): Option<int> {
    if HasPlainYear(t) then Some(t) else None
  }

  lemma BuiltFields(c: Codec, input: BuildInput, now: int, nonce: Text)
    requires Sound(c) && WellFormedInput(c, input, nonce) && Build(c, input, now, nonce).Some?
    ensures var e := Build(c, input, now, nonce).value;
            && WellFormedFields(c, e)
            && e.payload == input.payload
            && c.fromIso(e.notBefore) == ReadTime(StartOf(input, now))
            && c.fromIso(e.notAfter) == ReadTime(EndOf(input, now))
            && c.fromBase64(e.signature) == SignValue(c, input.signInstance, Unsigned(e))
            && Some(e.userSignature) == UserLayer(c, input)
  {
    assert forall e: Envelope, signature :: Unsigned(e.(signature := signature)) == Unsigned(e);
  }

  /** The receiver's payload schema accepts the payload as it is. */
  predicate KeepsPayload(schema: Schema, wire: Value) {
    wire.Obj? && schema(Field(wire, Ascii("payload"))) == Some(Field(wire, Ascii("payload")))
  }

  predicate InWindow(input: BuildInput, builtAt: int, now: int) {
    StartOf(input, builtAt) - CLOCK_SKEW_MS <= now <= EndOf(input, builtAt) + CLOCK_SKEW_MS
  }

  predicate HasPlainYears(input: BuildInput, builtAt: int) {
    HasPlainYear(StartOf(input, builtAt)) && HasPlainYear(EndOf(input, builtAt))
  }

  /** The verdict that is due on a built envelope: it depends on the time window, then on the author's
      key, then on the sending instance's key, and on nothing else. */
  function DueVerdict(c: Codec, input: BuildInput, builtAt: int, e: Envelope, payload: Value, peerKey: Key,
                      authorKey: Key, now: int): Result
  {
    if !HasPlainYears(input, builtAt) then Rejected(EnvelopeInvalid)
    else if !InWindow(input, builtAt, now) then Rejected(Expired)
    else if c.fromBase64(e.userSignature) != SignValue(c, authorKey, input.payload) then Rejected(UserSigFailure)
    else if input.signInstance != peerKey then Rejected(InstanceSigFailure)
    else Verified(e.(payload := payload))
  }

  /** A built envelope at any receiver that parses its JSON and whose payload schema does not alter
      the payload. */
  lemma BuiltVerdict(c: Codec, input: BuildInput, builtAt: int, nonce: Text, e: Envelope, wire: Value, schema: Schema,
                     peerKey: Key, authorKey: Key, now: int)
    requires Sound(c) && WellFormedInput(c, input, nonce) && Build(c, input, builtAt, nonce) == Some(e)
    requires Received(wire, e) && KeepsPayload(schema, wire)
    ensures Verify(c, wire, peerKey, authorKey, schema, now) ==
            DueVerdict(c, input, builtAt, e, Field(wire, Ascii("payload")), peerKey, authorKey, now)
  {
    hide Build, Received, Carries, Stringify, Normalize, Unsigned, IsValue, Printable, Canonicalize, WellFormedFields,
      ParseWire, Field;
    var payload := Field(wire, Ascii("payload"));
    BuiltFields(c, input, builtAt, nonce);
    ReceivedPayload(e, wire);
    CarriedParses(c, e, wire, schema);
    SameUnsigned(e, payload);
  }

  lemma SameUnsigned(e: Envelope, payload: Value)
    requires IsValue(e.payload) && Printable(e.payload) && IsValue(payload) && Printable(payload)
    requires Canonicalize(payload) == Canonicalize(e.payload)
    ensures Canonicalize(Unsigned(e.(payload := payload))) == Canonicalize(Unsigned(e))
    ensures Canonicalize(Unsigned(e)).Some?
  {
    CanonicalIffSameMeaning(payload, e.payload);
    PayloadMeaning(e, payload);
    UnsignedIsValue(e);
    UnsignedIsValue(e.(payload := payload));
    CanonicalIffSameMeaning(Unsigned(e.(payload := payload)), Unsigned(e));
  }

  /** Under the matching keys a freshly signed envelope verifies exactly within its window, widened by
      the clock skew on both sides, if that window lies in plain years. */
  lemma FreshEnvelopeVerifies(c: Codec, input: BuildInput, builtAt: int, nonce: Text, e: Envelope, wire: Value,
                              schema: Schema, now: int)
    requires Sound(c) && WellFormedInput(c, input, nonce) && Build(c, input, builtAt, nonce) == Some(e)
    requires input.signUser.Some? && input.preservedUserSignature.None?
    requires Received(wire, e) && KeepsPayload(schema, wire)
    ensures Verify(c, wire, input.signInstance, input.signUser.value, schema, now).Verified? <==>
            HasPlainYears(input, builtAt) && InWindow(input, builtAt, now)
  {
    BuiltVerdict(c, input, builtAt, nonce, e, wire, schema, input.signInstance, input.signUser.value, now);
    BuiltFields(c, input, builtAt, nonce);
  }

  /** An envelope is addressed, named and dated as its builder was asked. */
  lemma BuiltAsAsked(c: Codec, input: BuildInput, now: int, nonce: Text)
    requires Build(c, input, now, nonce).Some?
    ensures var e := Build(c, input, now, nonce).value;
            var start := if input.notBefore.Some? then input.notBefore.value else now;
            var seconds := if input.lifetimeSeconds.Some? then input.lifetimeSeconds.value else 300;
            && e.version == Ascii("ir20/1") && e.eventType == input.eventType && e.nonce == nonce
            && e.fromInstance == input.fromInstance && e.toInstance == input.toInstance
            && e.notBefore == c.toIso(start) && e.notAfter == c.toIso(start + seconds * 1000)
            && e.payload == input.payload
  {
    hide Canonicalize, Unsigned;
  }

  /** And so is what the receiver gets out of it, if it accepts it. */
  lemma AcceptedAsAsked(c: Codec, input: BuildInput, builtAt: int, nonce: Text, e: Envelope, wire: Value,
                        schema: Schema, peerKey: Key, authorKey: Key, now: int)
    requires Sound(c) && WellFormedInput(c, input, nonce) && Build(c, input, builtAt, nonce) == Some(e)
    requires Received(wire, e) && KeepsPayload(schema, wire)
    ensures var r := Verify(c, wire, peerKey, authorKey, schema, now);
            r.Verified? ==>
              && r.envelope.eventType == input.eventType && r.envelope.nonce == nonce
              && r.envelope.fromInstance == input.fromInstance && r.envelope.toInstance == input.toInstance
              && Canonicalize(r.envelope.payload) == Canonicalize(input.payload)
  {
    hide Build, Received, Verify, Canonicalize, Field;
    BuiltVerdict(c, input, builtAt, nonce, e, wire, schema, peerKey, authorKey, now);
    BuiltAsAsked(c, input, builtAt, nonce);
    ReceivedPayload(e, wire);
  }

  // ----- what a signature binds -----

  lemma SamePropsMeaning(a: seq<Prop>, b: seq<Prop>, i: nat)
    requires UniqueKeys(a) && UniqueKeys(b) && i < |a| == |b| && a[i].key == b[i].key
    requires Normalize(Obj(a)) == Normalize(Obj(b))
    ensures Normalize(a[i].value) == Normalize(b[i].value)
    ensures a[i].value.Str? ==> b[i].value == a[i].value
  {
    FieldAt(a, i);
    FieldAt(b, i);
    SameMeaningSameField(a, b, a[i].key);
  }

  lemma UnsignedMeaning(e1: Envelope, e2: Envelope)
    requires Normalize(Unsigned(e1)) == Normalize(Unsigned(e2))
    ensures e2 == e1.(payload := e2.payload, signature := e2.signature)
    ensures Normalize(e1.payload) == Normalize(e2.payload)
  {
    var a, b := UnsignedProps(e1), UnsignedProps(e2);
    FieldNamesDiffer(e1);
    FieldNamesDiffer(e2);
    forall i: nat | i < |a|
      ensures Normalize(a[i].value) == Normalize(b[i].value)
      ensures a[i].value.Str? ==> b[i].value == a[i].value
    {
      SamePropsMeaning(a, b, i);
    }
    SameStrings(a, b, e1, e2);
    assert a[7].value == e1.payload && b[7].value == e2.payload;
  }

  lemma SameStrings(a: seq<Prop>, b: seq<Prop>, e1: Envelope, e2: Envelope)
    requires a == UnsignedProps(e1) && b == UnsignedProps(e2)
    requires forall i: nat :: i < |a| ==> a[i].value.Str? ==> b[i].value == a[i].value
    ensures e2 == e1.(payload := e2.payload, signature := e2.signature)
  {
    assert a[0].value == Str(e1.version) && a[1].value == Str(e1.eventType) && a[2].value == Str(e1.nonce);
    assert a[3].value == Str(e1.notBefore) && a[4].value == Str(e1.notAfter);
    assert a[5].value == Str(e1.fromInstance) && a[6].value == Str(e1.toInstance);
    assert a[8].value == Str(e1.userSignature);
  }

  /** The payload schema returns values that objects can have. */
  ghost predicate ReturnsValues(schema: Schema) {
    forall v :: schema(v).Some? ==> IsValue(schema(v).value)
  }

  lemma VerifiedSignature(c: Codec, wire: Value, peerKey: Key, authorKey: Key, schema: Schema, now: int)
    requires ReturnsValues(schema) && Verify(c, wire, peerKey, authorKey, schema, now).Verified?
    ensures var e := Verify(c, wire, peerKey, authorKey, schema, now).envelope;
            && IsValue(Unsigned(e)) && Printable(Unsigned(e))
            && Canonicalize(Unsigned(e)).Some?
            && c.fromBase64(e.signature) == SignValue(c, peerKey, Unsigned(e))
  {
    var e := Verify(c, wire, peerKey, authorKey, schema, now).envelope;
    assert IsValue(e.payload);
    StringifyTotal(e.payload);
    UnsignedIsValue(e);
  }

  /** Two accepted envelopes with one instance signature agree on every other field, the payload
      up to the order of its properties; neither the receivers nor the keys need be the same. */
  lemma SameSignatureSameEnvelope(c: Codec, wire1: Value, peer1: Key, author1: Key, schema1: Schema, now1: int,
                                  wire2: Value, peer2: Key, author2: Key, schema2: Schema, now2: int)
    requires Sound(c) && ReturnsValues(schema1) && ReturnsValues(schema2)
    requires Verify(c, wire1, peer1, author1, schema1, now1).Verified?
    requires Verify(c, wire2, peer2, author2, schema2, now2).Verified?
    requires Verify(c, wire1, peer1, author1, schema1, now1).envelope.signature ==
             Verify(c, wire2, peer2, author2, schema2, now2).envelope.signature
    ensures var e1 := Verify(c, wire1, peer1, author1, schema1, now1).envelope;
            var e2 := Verify(c, wire2, peer2, author2, schema2, now2).envelope;
            && peer1 == peer2
            && e2 == e1.(payload := e2.payload)
            && Normalize(e1.payload) == Normalize(e2.payload)
  {
    var e1 := Verify(c, wire1, peer1, author1, schema1, now1).envelope;
    var e2 := Verify(c, wire2, peer2, author2, schema2, now2).envelope;
    VerifiedSignature(c, wire1, peer1, author1, schema1, now1);
    VerifiedSignature(c, wire2, peer2, author2, schema2, now2);
    var u1, u2 := Unsigned(e1), Unsigned(e2);
    StringifyWellFormed(u1);
    StringifyWellFormed(u2);
    assert Canonicalize(u1) == Canonicalize(u2);
    CanonicalIffSameMeaning(u1, u2);
    UnsignedMeaning(e1, e2);
  }

  // ----- the outbox: which signatures a job gets -----

  datatype Job = Job(eventType: Text, payload: Value, preservedUserSignature: Option<Text>, singleLayer: bool)

  /** The instance that sends, the peer, the instance key, the author's key where one is held, the
      clock and the identifier drawn. */
  datatype Sender = Sender(selfHost: Text, peerHost: Text, instanceKey: Key, userKey: Key, now: int, nonce: Text)

  datatype Outgoing = TwoLayer(envelope: Envelope) | SingleLayer(body: Value)

  function InputFor(job: Job, sender: Sender): BuildInput {
    BuildInput(job.eventType, sender.selfHost, sender.peerHost, job.payload, None, None,
               if job.preservedUserSignature.Some? then None else Some(sender.userKey),
               job.preservedUserSignature, sender.instanceKey)
  }

  /** The signed object without a user layer. */
  function SingleProps(e: Envelope): seq<Prop> {
    UnsignedProps(e)[..8]
  }

  function BuildSingleLayer(c: Codec, job: Job, sender: Sender): Option<Value> {
    if !HasDates(InputFor(job, sender), sender.now) then None
    else
      var props := SingleProps(Draft(c, InputFor(job, sender), sender.now, sender.nonce, []));
      var signature :- SignValue(c, sender.instanceKey, Obj(props));
      Some(Obj(props + [Prop(Ascii("signature"), Str(c.toBase64(signature)))]))
  }

  /** The envelope of a job; None stands for the errors thrown. */
  function DispatchEnvelope(c: Codec, job: Job, sender: Sender): Option<Outgoing> {
    if job.singleLayer && job.preservedUserSignature.Some? then None
    else if job.singleLayer then
      var body :- BuildSingleLayer(c, job, sender);
      Some(SingleLayer(body))
    else
      var e :- Build(c, InputFor(job, sender), sender.now, sender.nonce);
      Some(TwoLayer(e))
  }

  /** An envelope is sent unless the job asks for a single layer and a user signature at once, or the
      window cannot be written; and it has one layer exactly if the job asks for that. */
  lemma DispatchSucceeds(c: Codec, job: Job, sender: Sender)
    requires IsValue(job.payload) && Printable(job.payload)
    ensures DispatchEnvelope(c, job, sender).Some? <==>
            !(job.singleLayer && job.preservedUserSignature.Some?)
            && -8_640_000_000_000_000 <= sender.now && sender.now + 300_000 <= 8_640_000_000_000_000
    ensures DispatchEnvelope(c, job, sender).Some? ==>
              (DispatchEnvelope(c, job, sender).value.SingleLayer? <==> job.singleLayer)
  {
    hide Canonicalize, IsValue, Printable, Unsigned, UnsignedProps, Build, BuildSingleLayer;
    if job.singleLayer {
      SingleLayerSucceeds(c, job, sender);
    } else {
      TwoLayerSucceeds(c, job, sender);
    }
  }

  lemma TwoLayerSucceeds(c: Codec, job: Job, sender: Sender)
    requires IsValue(job.payload) && Printable(job.payload)
    ensures Build(c, InputFor(job, sender), sender.now, sender.nonce).Some? <==>
            IsDate(sender.now) && IsDate(sender.now + 300_000)
  {
    var input := InputFor(job, sender);
    StringifyTotal(input.payload);
    var draft := Draft(c, input, sender.now, sender.nonce, UserLayer(c, input).value);
    UnsignedIsValue(draft);
    StringifyTotal(Unsigned(draft));
  }

  lemma SingleLayerSucceeds(c: Codec, job: Job, sender: Sender)
    requires IsValue(job.payload) && Printable(job.payload)
    ensures BuildSingleLayer(c, job, sender).Some? <==> IsDate(sender.now) && IsDate(sender.now + 300_000)
  {
    hide UnsignedProps, Stringify;
    var draft := Draft(c, InputFor(job, sender), sender.now, sender.nonce, []);
    UnsignedIsValue(draft);
    NineProps(draft);
    PrefixIsValue(UnsignedProps(draft), 8);
    StringifyTotal(Obj(SingleProps(draft)));
  }

  lemma NineProps(e: Envelope)
    ensures |UnsignedProps(e)| == 9
  {
  }

  lemma PrefixIsValue(props: seq<Prop>, n: nat)
    requires n <= |props| && IsValue(Obj(props)) && Printable(Obj(props))
    ensures IsValue(Obj(props[..n])) && Printable(Obj(props[..n]))
  {
  }

  /** The fields that both kinds of envelope have, as the sender's hosts and the job have them. */
  ghost predicate Addressed(props: seq<Prop>, job: Job, sender: Sender) {
    && FieldOf(props, Ascii("fromInstance")) == Str(sender.selfHost)
    && FieldOf(props, Ascii("toInstance")) == Str(sender.peerHost)
    && FieldOf(props, Ascii("eventType")) == Str(job.eventType)
    && FieldOf(props, Ascii("nonce")) == Str(sender.nonce)
    && FieldOf(props, Ascii("payload")) == job.payload
  }

  /** What goes out is from this instance to the peer. Its user layer is the preserved signature or the
      author's own, and the sending instance has signed all the rest of it. */
  lemma DispatchedAsAsked(c: Codec, job: Job, sender: Sender)
    requires Sound(c) && DispatchEnvelope(c, job, sender).Some?
    ensures match DispatchEnvelope(c, job, sender).value
            case TwoLayer(e) =>
              && Addressed(Signed(e).props, job, sender)
              && (if job.preservedUserSignature.Some? then job.preservedUserSignature == Some(e.userSignature)
                  else c.fromBase64(e.userSignature) == SignValue(c, sender.userKey, job.payload))
              && c.fromBase64(e.signature) == SignValue(c, sender.instanceKey, Unsigned(e))
            case SingleLayer(body) =>
              && body.Obj? && Addressed(body.props, job, sender) && |body.props| == 9
              && var signature := FieldOf(body.props, Ascii("signature"));
                 signature.Str? && c.fromBase64(signature.s) == SignValue(c, sender.instanceKey, Obj(body.props[..8]))
  {
    hide Canonicalize;
    if job.singleLayer {
      SingleLayerAsAsked(c, job, sender);
    } else {
      TwoLayerAsAsked(c, job, sender);
    }
  }

  lemma TwoLayerAsAsked(c: Codec, job: Job, sender: Sender)
    requires Sound(c) && Build(c, InputFor(job, sender), sender.now, sender.nonce).Some?
    ensures var e := Build(c, InputFor(job, sender), sender.now, sender.nonce).value;
            && Addressed(Signed(e).props, job, sender)
            && (if job.preservedUserSignature.Some? then job.preservedUserSignature == Some(e.userSignature)
                else c.fromBase64(e.userSignature) == SignValue(c, sender.userKey, job.payload))
            && c.fromBase64(e.signature) == SignValue(c, sender.instanceKey, Unsigned(e))
  {
    hide Canonicalize, UnsignedProps, Signed, Addressed;
    var e := Build(c, InputFor(job, sender), sender.now, sender.nonce).value;
    SignatureAside(Draft(c, InputFor(job, sender), sender.now, sender.nonce, e.userSignature), e.signature);
    BuiltAsAsked(c, InputFor(job, sender), sender.now, sender.nonce);
    SignedIsAddressed(e, job, sender);
  }

  lemma SignatureAside(e: Envelope, signature: Text)
    ensures Unsigned(e.(signature := signature)) == Unsigned(e)
  {
  }

  lemma SignedIsAddressed(e: Envelope, job: Job, sender: Sender)
    requires e.fromInstance == sender.selfHost && e.toInstance == sender.peerHost
    requires e.eventType == job.eventType && e.nonce == sender.nonce && e.payload == job.payload
    ensures Addressed(Signed(e).props, job, sender)
  {
    hide FieldOf, UniqueKeys;
    SignedIsSigned(e);
    NamedFields(Signed(e).props, Signed(e).props, e);
  }

  /** The first eight properties of an envelope, by their names. */
  lemma NamedFields(props: seq<Prop>, own: seq<Prop>, e: Envelope)
    requires IsSigned(own, e) && UniqueKeys(props) && |props| >= 8 && props[..8] == own[..8]
    ensures FieldOf(props, Ascii("fromInstance")) == Str(e.fromInstance)
    ensures FieldOf(props, Ascii("toInstance")) == Str(e.toInstance)
    ensures FieldOf(props, Ascii("eventType")) == Str(e.eventType)
    ensures FieldOf(props, Ascii("nonce")) == Str(e.nonce)
    ensures FieldOf(props, Ascii("payload")) == e.payload
  {
    hide FieldOf, UniqueKeys;
    NamedField(props, own, 1);
    NamedField(props, own, 2);
    NamedField(props, own, 5);
    NamedField(props, own, 6);
    NamedField(props, own, 7);
  }

  lemma NamedField(props: seq<Prop>, own: seq<Prop>, i: nat)
    requires UniqueKeys(props) && |props| >= 8 && |own| >= 8 && props[..8] == own[..8] && i < 8
    ensures FieldOf(props, own[i].key) == own[i].value
  {
    assert props[i] == props[..8][i] == own[..8][i];
    FieldAt(props, i);
  }

  lemma SingleLayerAsAsked(c: Codec, job: Job, sender: Sender)
    requires Sound(c) && BuildSingleLayer(c, job, sender).Some?
    ensures var body := BuildSingleLayer(c, job, sender).value;
            && body.Obj? && Addressed(body.props, job, sender) && |body.props| == 9
            && var signature := FieldOf(body.props, Ascii("signature"));
               signature.Str? && c.fromBase64(signature.s) == SignValue(c, sender.instanceKey, Obj(body.props[..8]))
  {
    hide Canonicalize;
    var draft := Draft(c, InputFor(job, sender), sender.now, sender.nonce, []);
    var props := BuildSingleLayer(c, job, sender).value.props;
    assert props[..8] == SingleProps(draft);
    SingleHasNoUserSignature(draft, props);
    SignedIsSigned(draft);
    assert Signed(draft).props[..9][..8] == Signed(draft).props[..8];
    NamedFields(props, Signed(draft).props, draft);
    FieldAt(props, 8);
  }

  /** A single-layer envelope is never taken for a two-layer one. */
  lemma SingleLayerIsRejected(c: Codec, job: Job, sender: Sender, wire: Value, schema: Schema, peerKey: Key,
                              authorKey: Key, now: int)
    requires job.singleLayer && DispatchEnvelope(c, job, sender).Some?
    requires IsValue(wire) && Normalize(wire) == Normalize(DispatchEnvelope(c, job, sender).value.body)
    ensures Verify(c, wire, peerKey, authorKey, schema, now) == Rejected(EnvelopeInvalid)
  {
    var draft := Draft(c, InputFor(job, sender), sender.now, sender.nonce, []);
    var body := DispatchEnvelope(c, job, sender).value.body;
    FieldNamesDiffer(draft);
    SingleHasNoUserSignature(draft, body.props);
    if wire.Obj? {
      FieldMeaning(body.props, Ascii("userSignature"));
      FieldMeaning(wire.props, Ascii("userSignature"));
    }
  }

  lemma SingleHasNoUserSignature(e: Envelope, props: seq<Prop>)
    requires |props| == 9 && props[..8] == SingleProps(e) && props[8].key == Ascii("signature")
    ensures UniqueKeys(props)
    ensures FieldOf(props, Ascii("userSignature")).Undefined?
  {
    var all := Signed(e).props;
    FieldNamesDiffer(e);
    forall i | 0 <= i < 9
      ensures props[i].key == all[if i < 8 then i else 9].key
    {
      assert i < 8 ==> props[i] == props[..8][i];
    }
    assert all[8].key == Ascii("userSignature");
    assert UniqueKeys(props);
    assert !HasKey(props, Ascii("userSignature"));
    FieldIsLookup(props, Ascii("userSignature"));
  }

  // ----- relays -----

  /** One hop: an instance that received `e` sends it on, with the payload as it parsed it and the
      user signature as it found it. */
  ghost predicate Relays(c: Codec, e: Envelope, payload: Value, sender: Sender, e': Envelope) {
    && IsValue(payload) && Printable(payload) && Normalize(payload) == Normalize(e.payload)
    && DispatchEnvelope(c, Job(e.eventType, payload, Some(e.userSignature), false), sender) == Some(TwoLayer(e'))
  }

  /** A chain of envelopes, each relayed from the one before. */
  ghost predicate RelayChain(c: Codec, chain: seq<Envelope>, payloads: seq<Value>, senders: seq<Sender>) {
    && |chain| == |payloads| + 1 == |senders| + 1
    && IsValue(chain[0].payload) && Printable(chain[0].payload)
    && forall k :: 0 <= k < |payloads| ==> Relays(c, chain[k], payloads[k], senders[k], chain[k + 1])
  }

  /** Along a chain of any length the user signature stays and the payload keeps its meaning. */
  lemma {:induction false} RelayKeepsUserLayer(c: Codec, chain: seq<Envelope>, payloads: seq<Value>, senders: seq<Sender>,
                                               k: nat)
    requires RelayChain(c, chain, payloads, senders) && k < |chain|
    ensures chain[k].userSignature == chain[0].userSignature
    ensures chain[k].eventType == chain[0].eventType
    ensures IsValue(chain[k].payload) && Printable(chain[k].payload)
    ensures Normalize(chain[k].payload) == Normalize(chain[0].payload)
    ensures Canonicalize(chain[k].payload) == Canonicalize(chain[0].payload)
  {
    if k > 0 {
      RelayKeepsUserLayer(c, chain, payloads, senders, k - 1);
      assert Relays(c, chain[k - 1], payloads[k - 1], senders[k - 1], chain[k]);
    }
    CanonicalIffSameMeaning(chain[k].payload, chain[0].payload);
  }

  /** So the last peer accepts the author's signature if the first one did: within the window of
      the last hop, the last envelope verifies under the last relay's key and the author's key. */
  lemma RelayedVerifies(c: Codec, chain: seq<Envelope>, payloads: seq<Value>, senders: seq<Sender>, author: Key,
                        wire: Value, schema: Schema, now: int)
    requires Sound(c) && RelayChain(c, chain, payloads, senders) && |senders| >= 1
    requires c.fromBase64(chain[0].userSignature) == SignValue(c, author, chain[0].payload)
    requires var last := senders[|senders| - 1];
             && chain[0].eventType in c.eventTypes && chain[0].userSignature != []
             && ValidNonce(last.nonce) && ValidHost(last.selfHost) && ValidHost(last.peerHost)
    requires Received(wire, chain[|chain| - 1])
    requires KeepsPayload(schema, wire)
    ensures var last := senders[|senders| - 1];
            Verify(c, wire, last.instanceKey, author, schema, now).Verified? <==>
            && -62_167_219_200_000 <= last.now && last.now + 300_000 <= 253_402_300_799_999
            && last.now - 60_000 <= now <= last.now + 360_000
  {
    var n := |senders| - 1;
    var before := chain[n];
    RelayKeepsUserLayer(c, chain, payloads, senders, n);
    assert Relays(c, before, payloads[n], senders[n], chain[n + 1]);
    var job := Job(before.eventType, payloads[n], Some(before.userSignature), false);
    var input := InputFor(job, senders[n]);
    BuiltVerdict(c, input, senders[n].now, senders[n].nonce, chain[n + 1], wire, schema, senders[n].instanceKey, author, now);
    BuiltFields(c, input, senders[n].now, senders[n].nonce);
    CanonicalIffSameMeaning(payloads[n], before.payload);
  }
}
