/**
 * What the EXIF reader hands back once a container is open: a lookup from tag
 * to a typed raw value, for the primary image. The byte layout of the
 * container is not modelled.
 */
module Exif {
  import opened Integers
  import opened Wrappers

  /** A tag, by its number in Exif 2.3 (CIPA DC-008). */
  datatype Tag = Tag(number: u16)

  /** Orientation, section 4.6.4 of Exif 2.3. */
  const OrientationTag: Tag := Tag(0x0112)
  /** Model, section 4.6.4 of Exif 2.3. */
  const ModelTag: Tag := Tag(0x0110)
  /** DateTimeOriginal, section 4.6.5 of Exif 2.3. */
  const DateTimeOriginalTag: Tag := Tag(0x9003)
  /** BodySerialNumber, section 4.6.5 of Exif 2.3. */
  const BodySerialNumberTag: Tag := Tag(0xA431)

  /**
   * A raw field value: SHORT values, ASCII values (one byte string per
   * NUL-terminated item), or any other value type.
   */
  datatype RawValue =
    | Short(codes: seq<u16>)
    | Ascii(texts: seq<seq<u8>>)
    | Other

  /** `Exif::get_field(tag, In::PRIMARY)` over every tag the container holds. */
  type TagMap = map<Tag, RawValue>

  function Get(fields: TagMap, tag: Tag): Option<RawValue> {
    if tag in fields then Some(fields[tag]) else None
  }

  /** A date and time without a time zone (chrono's `NaiveDateTime`). */
  datatype NaiveDateTime = NaiveDateTime(year: int, month: nat, day: nat, hour: nat, minute: nat, second: nat, nanosecond: nat)

  /**
   * `NaiveDateTime::parse_from_str(text, format)`: a partial parser whose
   * internals belong to chrono, so the model takes it as a parameter.
   */
  type DateTimeParser = (string, string) -> Option<NaiveDateTime>
}
