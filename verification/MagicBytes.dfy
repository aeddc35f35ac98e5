/** The magic-byte check on the head of an upload. */
module MagicBytes {
  import opened Wrappers

  datatype Signature = Signature(bytes: seq<Byte>, offset: nat)

  const RIFF: Signature := Signature([0x52, 0x49, 0x46, 0x46], 0)
  const FTYP: Signature := Signature([0x66, 0x74, 0x79, 0x70], 4)
  const EBML: Signature := Signature([0x1a, 0x45, 0xdf, 0xa3], 0)
  const WEBP: Signature := Signature([0x57, 0x45, 0x42, 0x50], 8)
  const WAVE: Signature := Signature([0x57, 0x41, 0x56, 0x45], 8)

  /** For a declared type the lists of signatures one of which must match as a whole. */
  function Candidates(mime: string): Option<seq<seq<Signature>>> {
    if mime == "image/jpeg" then Some([[Signature([0xff, 0xd8, 0xff], 0)]])
    else if mime == "image/png" then Some([[Signature([0x89, 0x50, 0x4e, 0x47, 0x0d, 0x0a, 0x1a, 0x0a], 0)]])
    else if mime == "image/webp" then Some([[RIFF, WEBP]])
    else if mime == "image/gif" then Some([[Signature([0x47, 0x49, 0x46, 0x38], 0)]])
    else if mime == "image/avif" then
      Some([[FTYP, Signature([0x61, 0x76, 0x69, 0x66], 8)], [FTYP, Signature([0x61, 0x76, 0x69, 0x73], 8)]])
    else if mime == "video/mp4" || mime == "video/quicktime" || mime == "audio/mp4" then Some([[FTYP]])
    else if mime == "video/webm" || mime == "audio/webm" then Some([[EBML]])
    else if mime == "audio/mpeg" then Some([[Signature([0x49, 0x44, 0x33], 0)]])
    else if mime == "audio/ogg" then Some([[Signature([0x4f, 0x67, 0x67, 0x53], 0)]])
    else if mime == "audio/aac" then Some([[Signature([0xff, 0xf1], 0)], [Signature([0xff, 0xf9], 0)]])
    else if mime == "audio/wav" || mime == "audio/x-wav" then Some([[RIFF, WAVE]])
    else if mime == "audio/flac" then Some([[Signature([0x66, 0x4c, 0x61, 0x43], 0)]])
    else None
  }

  predicate IsMedia(mime: string) {
    "image/" <= mime || "video/" <= mime || "audio/" <= mime
  }

  /** The bytes stand at their offset. */
  predicate StandsIn(data: seq<Byte>, s: Signature) {
    s.offset + |s.bytes| <= |data| && data[s.offset..s.offset + |s.bytes|] == s.bytes
  }

  ghost predicate AllStandIn(data: seq<Byte>, signatures: seq<Signature>) {
    forall k :: 0 <= k < |signatures| ==> StandsIn(data, signatures[k])
  }

  /** The content is what its declared type says, as far as the table knows. */
  ghost predicate MagicHolds(data: seq<Byte>, mime: string) {
    match Candidates(mime)
    case None => !IsMedia(mime)
    case Some(candidates) => exists k :: 0 <= k < |candidates| && AllStandIn(data, candidates[k])
  }

  method SignatureMatches(data: seq<Byte>, s: Signature) returns (matches: bool)
    ensures matches <==> StandsIn(data, s)
  {
    if |data| < s.offset + |s.bytes| {
      return false;
    }
    for i := 0 to |s.bytes|
      invariant forall k :: 0 <= k < i ==> data[s.offset + k] == s.bytes[k]
    {
      if data[s.offset + i] != s.bytes[i] {
        assert data[s.offset..s.offset + |s.bytes|][i] != s.bytes[i];
        return false;
      }
    }
    forall k | 0 <= k < |s.bytes|
      ensures data[s.offset..s.offset + |s.bytes|][k] == s.bytes[k]
    {
    }
    return true;
  }

  method CheckMagic(data: seq<Byte>, mime: string) returns (ok: bool)
    ensures ok <==> MagicHolds(data, mime)
  {
    hide Candidates;
    var candidates := Candidates(mime);
    if candidates.None? {
      return !IsMedia(mime);
    }
    for j := 0 to |candidates.value|
      invariant forall k :: 0 <= k < j ==> !AllStandIn(data, candidates.value[k])
    {
      var signatures := candidates.value[j];
      var all := true;
      for k := 0 to |signatures|
        invariant all <==> AllStandIn(data, signatures[..k])
      {
        var matches := SignatureMatches(data, signatures[k]);
        assert forall i :: 0 <= i < k ==> signatures[..k + 1][i] == signatures[..k][i];
        assert signatures[..k + 1][k] == signatures[k];
        all := all && matches;
      }
      assert signatures[..|signatures|] == signatures;
      if all {
        return true;
      }
    }
    return false;
  }

  // ----- the head is enough -----

  const HEAD_BYTES: nat := 64

  function Head(data: seq<Byte>): seq<Byte> {
    if |data| <= HEAD_BYTES then data else data[..HEAD_BYTES]
  }

  lemma StandsInHead(data: seq<Byte>, s: Signature)
    requires s.offset + |s.bytes| <= HEAD_BYTES
    ensures StandsIn(Head(data), s) <==> StandsIn(data, s)
  {
    if |data| > HEAD_BYTES {
      assert Head(data)[s.offset..s.offset + |s.bytes|] == data[s.offset..s.offset + |s.bytes|];
    }
  }

  predicate Short(signatures: seq<Signature>) {
    forall k :: 0 <= k < |signatures| ==> signatures[k].offset + |signatures[k].bytes| <= HEAD_BYTES
  }

  lemma TableIsShort(mime: string)
    ensures var c := Candidates(mime);
            c.Some? ==> forall k :: 0 <= k < |c.value| ==> Short(c.value[k])
  {
  }

  /** Looking at the first 64 bytes decides as looking at the whole content would. */
  lemma HeadIsEnough(data: seq<Byte>, mime: string)
    ensures MagicHolds(Head(data), mime) <==> MagicHolds(data, mime)
  {
    hide Candidates;
    TableIsShort(mime);
    var c := Candidates(mime);
    if c.Some? {
      forall k | 0 <= k < |c.value|
        ensures AllStandIn(Head(data), c.value[k]) <==> AllStandIn(data, c.value[k])
      {
        forall i | 0 <= i < |c.value[k]|
          ensures StandsIn(Head(data), c.value[k][i]) <==> StandsIn(data, c.value[k][i])
        {
          StandsInHead(data, c.value[k][i]);
        }
      }
    }
  }

  // ----- the formats that the table knows -----

  datatype Format = Jpeg | Png | Webp | Gif | Avif | IsoMedia | Matroska | Id3 | Ogg | Adts | Wave | Flac

  function FormatOf(mime: string): Option<Format> {
    match mime
    case "image/jpeg" => Some(Jpeg)
    case "image/png" => Some(Png)
    case "image/webp" => Some(Webp)
    case "image/gif" => Some(Gif)
    case "image/avif" => Some(Avif)
    case "video/mp4" => Some(IsoMedia)
    case "video/quicktime" => Some(IsoMedia)
    case "audio/mp4" => Some(IsoMedia)
    case "video/webm" => Some(Matroska)
    case "audio/webm" => Some(Matroska)
    case "audio/mpeg" => Some(Id3)
    case "audio/ogg" => Some(Ogg)
    case "audio/aac" => Some(Adts)
    case "audio/wav" => Some(Wave)
    case "audio/x-wav" => Some(Wave)
    case "audio/flac" => Some(Flac)
    case _ => None
  }

  /** The text stands there in ASCII. */
  predicate Spells(data: seq<Byte>, at: nat, text: string) {
    at + |text| <= |data| && forall i :: 0 <= i < |text| ==> data[at + i] == text[i] as int
  }

  /** How the standards of the formats say that content begins. */
  predicate Begins(data: seq<Byte>, format: Format) {
    match format
    case Jpeg => [0xff, 0xd8, 0xff] <= data
    case Png => [0x89] <= data && Spells(data, 1, "PNG\r\n") && |data| >= 8 && data[6] == 0x1a && data[7] == 0x0a
    case Webp => Spells(data, 0, "RIFF") && Spells(data, 8, "WEBP")
    case Gif => Spells(data, 0, "GIF8")
    case Avif => Spells(data, 4, "ftypavif") || Spells(data, 4, "ftypavis")
    case IsoMedia => Spells(data, 4, "ftyp")
    case Matroska => [0x1a, 0x45, 0xdf, 0xa3] <= data
    case Id3 => Spells(data, 0, "ID3")
    case Ogg => Spells(data, 0, "OggS")
    case Adts => [0xff, 0xf1] <= data || [0xff, 0xf9] <= data
    case Wave => Spells(data, 0, "RIFF") && Spells(data, 8, "WAVE")
    case Flac => Spells(data, 0, "fLaC")
  }

  lemma SpellsIff(data: seq<Byte>, s: Signature, text: string)
    requires |s.bytes| == |text| && forall i :: 0 <= i < |text| ==> s.bytes[i] == text[i] as int
    ensures StandsIn(data, s) <==> Spells(data, s.offset, text)
  {
    if s.offset + |text| <= |data| {
      var part := data[s.offset..s.offset + |text|];
      assert forall i :: 0 <= i < |text| ==> part[i] == data[s.offset + i];
      if Spells(data, s.offset, text) {
        assert part == s.bytes;
      }
    }
  }

  lemma AtStart(data: seq<Byte>, s: Signature)
    requires s.offset == 0
    ensures StandsIn(data, s) <==> s.bytes <= data
  {
  }

  lemma OneSignature(data: seq<Byte>, s: Signature)
    ensures AllStandIn(data, [s]) <==> StandsIn(data, s)
  {
    assert [s][0] == s;
  }

  lemma TwoSignatures(data: seq<Byte>, s: Signature, r: Signature)
    ensures AllStandIn(data, [s, r]) <==> StandsIn(data, s) && StandsIn(data, r)
  {
    assert [s, r][0] == s && [s, r][1] == r;
  }

  /** One list of signatures, or two. */
  lemma HoldsFor(data: seq<Byte>, mime: string, a: seq<Signature>, b: seq<Signature>)
    requires (Candidates(mime) == Some([a]) && a == b) || Candidates(mime) == Some([a, b])
    ensures MagicHolds(data, mime) <==> AllStandIn(data, a) || AllStandIn(data, b)
  {
    var c := Candidates(mime).value;
    assert c[0] == a && c[|c| - 1] == b;
  }

  lemma HoldsForOne(data: seq<Byte>, mime: string, s: Signature)
    requires Candidates(mime) == Some([[s]])
    ensures MagicHolds(data, mime) <==> StandsIn(data, s)
  {
    hide Candidates, MagicHolds, StandsIn;
    HoldsFor(data, mime, [s], [s]);
    OneSignature(data, s);
  }

  const JPEG: Signature := Signature([0xff, 0xd8, 0xff], 0)
  const PNG: Signature := Signature([0x89, 0x50, 0x4e, 0x47, 0x0d, 0x0a, 0x1a, 0x0a], 0)
  const ADTS: Signature := Signature([0xff, 0xf1], 0)
  const ADTS_CRC: Signature := Signature([0xff, 0xf9], 0)

  lemma PngBegins(data: seq<Byte>)
    ensures StandsIn(data, PNG) <==> Begins(data, Png)
  {
    if |data| >= 8 {
      var part := data[0..8];
      assert forall i :: 0 <= i < 8 ==> part[i] == data[i];
      var text := "PNG\r\n";
      assert text[0] as int == 0x50 && text[1] as int == 0x4e && text[2] as int == 0x47;
      assert text[3] as int == 0x0d && text[4] as int == 0x0a;
      if Begins(data, Png) {
        assert data[1 + 0] == 0x50 && data[1 + 1] == 0x4e && data[1 + 2] == 0x47 && data[1 + 3] == 0x0d && data[1 + 4] == 0x0a;
        assert part == PNG.bytes;
      }
    }
  }

  lemma AvifBegins(data: seq<Byte>, brand: string, s: Signature)
    requires s.offset == 8 && |brand| == 4 == |s.bytes| && forall i :: 0 <= i < 4 ==> s.bytes[i] == brand[i] as int
    ensures AllStandIn(data, [FTYP, s]) <==> Spells(data, 4, "ftyp" + brand)
  {
    TwoSignatures(data, FTYP, s);
    SpellsIff(data, FTYP, "ftyp");
    SpellsIff(data, s, brand);
    SpellsBoth(data, 4, "ftyp", brand);
  }

  lemma SpellsBoth(data: seq<Byte>, at: nat, a: string, b: string)
    ensures Spells(data, at, a + b) <==> Spells(data, at, a) && Spells(data, at + |a|, b)
  {
    var text := a + b;
    if Spells(data, at, text) {
      forall i | 0 <= i < |a|
        ensures data[at + i] == a[i] as int
      {
        assert text[i] == a[i];
      }
      forall i | 0 <= i < |b|
        ensures data[at + |a| + i] == b[i] as int
      {
        assert text[|a| + i] == b[i] && data[at + (|a| + i)] == text[|a| + i] as int;
      }
    }
    if Spells(data, at, a) && Spells(data, at + |a|, b) {
      forall i | 0 <= i < |text|
        ensures data[at + i] == text[i] as int
      {
        assert i >= |a| ==> data[at + |a| + (i - |a|)] == b[i - |a|] as int;
      }
    }
  }

  lemma RiffBegins(data: seq<Byte>)
    ensures AllStandIn(data, [RIFF, WEBP]) <==> Begins(data, Webp)
    ensures AllStandIn(data, [RIFF, WAVE]) <==> Begins(data, Wave)
  {
    TwoSignatures(data, RIFF, WEBP);
    TwoSignatures(data, RIFF, WAVE);
    SpellsIff(data, RIFF, "RIFF");
    SpellsIff(data, WEBP, "WEBP");
    SpellsIff(data, WAVE, "WAVE");
  }

  lemma PictureIff(data: seq<Byte>, mime: string)
    requires FormatOf(mime).Some? && FormatOf(mime).value in {Jpeg, Png, Webp, Gif, Avif}
    ensures MagicHolds(data, mime) <==> Begins(data, FormatOf(mime).value)
  {
    hide MagicHolds, Spells, StandsIn, AllStandIn;
    match FormatOf(mime).value
    case Jpeg =>
      HoldsForOne(data, mime, JPEG);
      AtStart(data, JPEG);
    case Png =>
      HoldsForOne(data, mime, PNG);
      PngBegins(data);
    case Webp =>
      HoldsFor(data, mime, [RIFF, WEBP], [RIFF, WEBP]);
      RiffBegins(data);
    case Gif =>
      HoldsForOne(data, mime, Signature([0x47, 0x49, 0x46, 0x38], 0));
      SpellsIff(data, Signature([0x47, 0x49, 0x46, 0x38], 0), "GIF8");
    case Avif =>
      var avif, avis := Signature([0x61, 0x76, 0x69, 0x66], 8), Signature([0x61, 0x76, 0x69, 0x73], 8);
      HoldsFor(data, mime, [FTYP, avif], [FTYP, avis]);
      AvifBegins(data, "avif", avif);
      AvifBegins(data, "avis", avis);
      assert "ftyp" + "avif" == "ftypavif" && "ftyp" + "avis" == "ftypavis";
  }

  lemma SoundIff(data: seq<Byte>, mime: string)
    requires FormatOf(mime).Some? && FormatOf(mime).value !in {Jpeg, Png, Webp, Gif, Avif}
    ensures MagicHolds(data, mime) <==> Begins(data, FormatOf(mime).value)
  {
    hide MagicHolds, Spells, StandsIn, AllStandIn;
    match FormatOf(mime).value
    case IsoMedia =>
      HoldsForOne(data, mime, FTYP);
      SpellsIff(data, FTYP, "ftyp");
    case Matroska =>
      HoldsForOne(data, mime, EBML);
      AtStart(data, EBML);
    case Id3 =>
      HoldsForOne(data, mime, Signature([0x49, 0x44, 0x33], 0));
      SpellsIff(data, Signature([0x49, 0x44, 0x33], 0), "ID3");
    case Ogg =>
      HoldsForOne(data, mime, Signature([0x4f, 0x67, 0x67, 0x53], 0));
      SpellsIff(data, Signature([0x4f, 0x67, 0x67, 0x53], 0), "OggS");
    case Adts =>
      HoldsFor(data, mime, [ADTS], [ADTS_CRC]);
      OneSignature(data, ADTS);
      OneSignature(data, ADTS_CRC);
      AtStart(data, ADTS);
      AtStart(data, ADTS_CRC);
    case Wave =>
      HoldsFor(data, mime, [RIFF, WAVE], [RIFF, WAVE]);
      RiffBegins(data);
    case Flac =>
      HoldsForOne(data, mime, Signature([0x66, 0x4c, 0x61, 0x43], 0));
      SpellsIff(data, Signature([0x66, 0x4c, 0x61, 0x43], 0), "fLaC");
    case _ =>
  }

  /** Content passes as a type that is in the table exactly if it begins as that format does; as any
      other type exactly if that is no picture, video or sound. */
  lemma PassesIff(data: seq<Byte>, mime: string)
    ensures MagicHolds(data, mime) <==>
            match FormatOf(mime)
            case Some(format) => Begins(data, format)
            case None => !("image/" <= mime || "video/" <= mime || "audio/" <= mime)
  {
    hide Spells, StandsIn, Begins;
    if FormatOf(mime).Some? {
      hide MagicHolds, Candidates;
      if FormatOf(mime).value in {Jpeg, Png, Webp, Gif, Avif} {
        PictureIff(data, mime);
      } else {
        SoundIff(data, mime);
      }
    }
  }

  /** No content passes as two of the formats, but for those with the `ftyp` box, whose tag comes
      behind the tags of others. */
  lemma TellsApart(data: seq<Byte>, f: Format, g: Format)
    requires Begins(data, f) && Begins(data, g)
    requires f !in {Avif, IsoMedia} && g !in {Avif, IsoMedia}
    ensures f == g
  {
    hide Begins;
    Starts(data, f);
    Starts(data, g);
  }

  function FirstByte(f: Format): int {
    match f
    case Jpeg => 0xff
    case Png => 0x89
    case Webp => 0x52
    case Gif => 0x47
    case Matroska => 0x1a
    case Id3 => 0x49
    case Ogg => 0x4f
    case Adts => 0xff
    case Wave => 0x52
    case Flac => 0x66
    case _ => 0
  }

  lemma Starts(data: seq<Byte>, f: Format)
    requires Begins(data, f) && f !in {Avif, IsoMedia}
    ensures |data| >= 2 && data[0] == FirstByte(f)
    ensures f.Jpeg? ==> data[1] == 0xd8
    ensures f.Adts? ==> data[1] in {0xf1, 0xf9}
    ensures f.Webp? ==> |data| >= 12 && data[9] == 0x45
    ensures f.Wave? ==> |data| >= 12 && data[9] == 0x41
  {
    hide Spells;
    match f
    case Webp =>
      SpelledAt(data, 0, "RIFF", 0);
      SpelledAt(data, 8, "WEBP", 1);
    case Wave =>
      SpelledAt(data, 0, "RIFF", 0);
      SpelledAt(data, 8, "WAVE", 1);
    case Gif => SpelledAt(data, 0, "GIF8", 0);
    case Id3 => SpelledAt(data, 0, "ID3", 0);
    case Ogg => SpelledAt(data, 0, "OggS", 0);
    case Flac => SpelledAt(data, 0, "fLaC", 0);
    case _ =>
  }

  lemma SpelledAt(data: seq<Byte>, at: nat, text: string, i: nat)
    requires Spells(data, at, text) && i < |text|
    ensures at + |text| <= |data| && data[at + i] == text[i] as int
  {
  }

  /** A picture that passes as a film. */
  lemma GifAndFilm()
    ensures var data: seq<Byte> := [0x47, 0x49, 0x46, 0x38, 0x66, 0x74, 0x79, 0x70];
            MagicHolds(data, "image/gif") && MagicHolds(data, "video/mp4")
  {
    var data: seq<Byte> := [0x47, 0x49, 0x46, 0x38, 0x66, 0x74, 0x79, 0x70];
    PassesIff(data, "image/gif");
    PassesIff(data, "video/mp4");
  }
}
