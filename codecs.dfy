/**
 * The three field codecs of `read_exif_metadata`. Each turns the raw value of
 * one tag into an optional typed value and at most one diagnostic; none of them
 * can fail. Only the first element of a multi-valued field is consulted.
 */
module FieldCodecs {
  import opened Integers
  import opened Wrappers
  import opened Orientations
  import opened Exif
  import opened Diagnostics
  import Utf8

  /** `CAPTURE_TIME_FORMAT`: the pattern DateTimeOriginal text is parsed with. */
  const CaptureTimeFormat: string := "%Y:%m:%d %H:%M:%S"

  /**
   * The orientation codec. Absent tag or empty SHORT list: nothing, silently.
   * Not SHORT: nothing, with a wrong-type diagnostic. First code outside 1..8:
   * nothing, with an invalid-value diagnostic. Otherwise the orientation whose
   * code is the first one.
   */
  function DecodeOrientation(fields: TagMap): (r: (Option<Orientation>, seq<Diag>))
    ensures match Get(fields, OrientationTag)
      case None => r == (None, [])
      case Some(Short(codes)) =>
        if codes == [] then r == (None, [])
        else if 1 <= codes[0] <= 8 then r.0.Some? && AsU16(r.0.value) == codes[0] && r.1 == []
        else r == (None, [InvalidValue(OrientationTag, codes[0])])
      case Some(_) => r == (None, [WrongType(OrientationTag)])
  {
    if OrientationTag in fields then
      match fields[OrientationTag]
      case Short(codes) =>
        if |codes| > 0 then
          match TryFromU16(codes[0])
          case Ok(o) => (Some(o), [])
          case Err(_) => (None, [InvalidValue(OrientationTag, codes[0])])
        else (None, [])
      case _ => (None, [WrongType(OrientationTag)])
    else (None, [])
  }

  /**
   * The text codec, used for Model and for BodySerialNumber. Absent tag or
   * empty ASCII list: nothing, silently. Not ASCII: nothing, with a wrong-type
   * diagnostic. First item not UTF-8: nothing, with an encoding diagnostic.
   * Otherwise the text whose UTF-8 encoding is exactly the first item.
   */
  function DecodeText(fields: TagMap, tag: Tag): (r: (Option<string>, seq<Diag>))
    ensures match Get(fields, tag)
      case None => r == (None, [])
      case Some(Ascii(texts)) =>
        if texts == [] then r == (None, [])
        else if Utf8.IsValid(texts[0]) then r.0.Some? && Utf8.Encode(r.0.value) == texts[0] && r.1 == []
        else r == (None, [BadUtf8(tag)])
      case Some(_) => r == (None, [WrongType(tag)])
  {
    if tag in fields then
      match fields[tag]
      case Ascii(texts) =>
        if |texts| > 0 then
          match Utf8.Decode(texts[0])
          case Some(text) => (Some(text), [])
          case None => (None, [BadUtf8(tag)])
        else (None, [])
      case _ => (None, [WrongType(tag)])
    else (None, [])
  }

  /**
   * The capture-time codec on DateTimeOriginal. It is the text codec on that tag
   * followed by the parser with `CaptureTimeFormat`: a capture time exists exactly
   * when the text does and parses, and text that does not parse adds a format
   * diagnostic to whatever the text codec reported.
   */
  function DecodeCaptureTime(fields: TagMap, parse: DateTimeParser): (r: (Option<NaiveDateTime>, seq<Diag>))
    ensures var (text, diags) := DecodeText(fields, DateTimeOriginalTag);
      match text
      case None => r == (None, diags)
      case Some(s) =>
        r.0 == parse(s, CaptureTimeFormat)
        && r.1 == diags + (if r.0.None? then [BadFormat(DateTimeOriginalTag, s)] else [])
  {
    if DateTimeOriginalTag in fields then
      match fields[DateTimeOriginalTag]
      case Ascii(texts) =>
        if |texts| > 0 then
          match Utf8.Decode(texts[0])
          case Some(text) =>
            (match parse(text, CaptureTimeFormat)
             case Some(t) => (Some(t), [])
             case None => (None, [BadFormat(DateTimeOriginalTag, text)]))
          case None => (None, [BadUtf8(DateTimeOriginalTag)])
        else (None, [])
      case _ => (None, [WrongType(DateTimeOriginalTag)])
    else (None, [])
  }

  /** Codes after the first never change what the orientation codec yields. */
  lemma OrientationReadsFirstCodeOnly(fields: TagMap, first: u16, more: seq<u16>)
    ensures DecodeOrientation(fields[OrientationTag := Short([first] + more)])
         == DecodeOrientation(fields[OrientationTag := Short([first])])
  {
  }

  /** Items after the first never change what the text codecs yield. */
  lemma TextReadsFirstItemOnly(fields: TagMap, tag: Tag, first: seq<u8>, more: seq<seq<u8>>, parse: DateTimeParser)
    ensures DecodeText(fields[tag := Ascii([first] + more)], tag)
         == DecodeText(fields[tag := Ascii([first])], tag)
    ensures DecodeCaptureTime(fields[DateTimeOriginalTag := Ascii([first] + more)], parse)
         == DecodeCaptureTime(fields[DateTimeOriginalTag := Ascii([first])], parse)
  {
  }

  /**
   * Each codec sees only its own tag: two lookups that agree on that tag give
   * the same result, whatever the other fields hold.
   */
  lemma CodecsReadOnlyTheirTag(f: TagMap, g: TagMap, tag: Tag, parse: DateTimeParser)
    requires Get(f, tag) == Get(g, tag)
    ensures tag == OrientationTag ==> DecodeOrientation(f) == DecodeOrientation(g)
    ensures tag == DateTimeOriginalTag ==> DecodeCaptureTime(f, parse) == DecodeCaptureTime(g, parse)
    ensures DecodeText(f, tag) == DecodeText(g, tag)
  {
  }

  /**
   * The text a codec yields is determined by the stored bytes: any text whose
   * encoding is the first ASCII item is the one the codec returns.
   */
  lemma DecodedTextIsUnique(fields: TagMap, tag: Tag, s: string)
    requires tag in fields && fields[tag].Ascii? && |fields[tag].texts| > 0
    requires Utf8.Encode(s) == fields[tag].texts[0]
    ensures DecodeText(fields, tag) == (Some(s), [])
  {
    Utf8.DecodeEncode(s);
  }
}
