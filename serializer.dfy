/**
 * The JSON form of a metadata record, at the level of keys and values: one
 * flat object, `filename` and `size` always present, every absent optional
 * field left out (never written as null), orientation written as its code.
 * Text layout, escaping and key order are not modelled.
 */
module Serializer {
  import opened Integers
  import opened Wrappers
  import opened Orientations
  import opened Exif
  import opened Metadata

  /**
   * A JSON value. The two time kinds stand for the strings chrono writes for a
   * `DateTime<Utc>` (RFC 3339) and for a `NaiveDateTime`, kept as the values
   * they render.
   */
  datatype Json =
    | JNull
    | JBool(b: bool)
    | JNumber(n: int)
    | JString(s: string)
    | JTimestamp(instant: UtcTime)
    | JDateTime(local: NaiveDateTime)

  /** The keys of the flattened record, file part then image part. */
  datatype Field =
    | Filename
    | Size
    | CreatedTime
    | ModifiedTime
    | OrientationField
    | CaptureTime
    | CameraModel
    | CameraSerial

  /** The key serde writes for a field: the Rust field's name. */
  function Key(f: Field): string {
    match f
    case Filename => "filename"
    case Size => "size"
    case CreatedTime => "created_time"
    case ModifiedTime => "modified_time"
    case OrientationField => "orientation"
    case CaptureTime => "capture_time"
    case CameraModel => "camera_model"
    case CameraSerial => "camera_serial"
  }

  /** Distinct fields are written under distinct keys, so an object over `Field` is a JSON object. */
  lemma KeyInjective(f: Field, g: Field)
    ensures Key(f) == Key(g) <==> f == g
  {
  }

  /** A JSON object, by the record key each of its keys names. */
  type JsonObject = map<Field, Json>

  const AllFields: set<Field> :=
    {Filename, Size, CreatedTime, ModifiedTime, OrientationField, CaptureTime, CameraModel, CameraSerial}

  /**
   * What a field of the record writes, if anything: the two file fields always,
   * each optional field only when present (`skip_serializing_if =
   * "Option::is_none"`), and an orientation as its code.
   */
  function Value(m: MetadataOfInterest, f: Field): (v: Option<Json>)
    ensures v != Some(JNull)
  {
    match f
    case Filename => Some(JString(m.file.filename))
    case Size => Some(JNumber(m.file.size))
    case CreatedTime => if m.file.createdTime.Some? then Some(JTimestamp(m.file.createdTime.value)) else None
    case ModifiedTime => if m.file.modifiedTime.Some? then Some(JTimestamp(m.file.modifiedTime.value)) else None
    case OrientationField => if m.image.orientation.Some? then Some(JNumber(AsU16(m.image.orientation.value))) else None
    case CaptureTime => if m.image.captureTime.Some? then Some(JDateTime(m.image.captureTime.value)) else None
    case CameraModel => if m.image.cameraModel.Some? then Some(JString(m.image.cameraModel.value)) else None
    case CameraSerial => if m.image.cameraSerial.Some? then Some(JString(m.image.cameraSerial.value)) else None
  }

  /** No key of `obj` holds null. */
  predicate NoNulls(obj: JsonObject) {
    forall k :: k in obj ==> obj[k] != JNull
  }

  /**
   * Serialization of `MetadataOfInterest`: the two required fields are always
   * written, each optional field is written exactly when present, the
   * orientation as its code, and nothing is ever null.
   */
  function Serialize(m: MetadataOfInterest): (obj: JsonObject)
    ensures NoNulls(obj)
    ensures Filename in obj && obj[Filename] == JString(m.file.filename)
    ensures Size in obj && obj[Size] == JNumber(m.file.size)
    ensures (CreatedTime in obj <==> m.file.createdTime.Some?)
      && (m.file.createdTime.Some? ==> obj[CreatedTime] == JTimestamp(m.file.createdTime.value))
    ensures (ModifiedTime in obj <==> m.file.modifiedTime.Some?)
      && (m.file.modifiedTime.Some? ==> obj[ModifiedTime] == JTimestamp(m.file.modifiedTime.value))
    ensures (OrientationField in obj <==> m.image.orientation.Some?)
      && (m.image.orientation.Some? ==> obj[OrientationField] == JNumber(AsU16(m.image.orientation.value)))
    ensures (CaptureTime in obj <==> m.image.captureTime.Some?)
      && (m.image.captureTime.Some? ==> obj[CaptureTime] == JDateTime(m.image.captureTime.value))
    ensures (CameraModel in obj <==> m.image.cameraModel.Some?)
      && (m.image.cameraModel.Some? ==> obj[CameraModel] == JString(m.image.cameraModel.value))
    ensures (CameraSerial in obj <==> m.image.cameraSerial.Some?)
      && (m.image.cameraSerial.Some? ==> obj[CameraSerial] == JString(m.image.cameraSerial.value))
  {
    map f | f in AllFields && Value(m, f).Some? :: Value(m, f).value
  }

  datatype SchemaError = MissingField(key: Field) | InvalidType(key: Field) | InvalidValue(key: Field)

  /**
   * How a JSON value is read back as an orientation: by its code through
   * `TryFrom<u16>`, or, as the derived `Deserialize` of the enum does, by the
   * name of the variant.
   */
  datatype OrientationReading = ByCode | ByVariantName

  /** The name serde's derived `Deserialize` expects for each variant. */
  function VariantName(o: Orientation): string {
    match o
    case Normal => "Normal"
    case Mirrored => "Mirrored"
    case UpsideDown => "UpsideDown"
    case UpsideDownMirrored => "UpsideDownMirrored"
    case QuarterRotationCCWMirrored => "QuarterRotationCCWMirrored"
    case QuarterRotationCCW => "QuarterRotationCCW"
    case QuarterRotationCWMirrored => "QuarterRotationCWMirrored"
    case QuarterRotationCW => "QuarterRotationCW"
  }

  /** The derived reader: a name is accepted exactly when it names a variant. */
  function FromVariantName(name: string): (r: Option<Orientation>)
    ensures r.Some? ==> VariantName(r.value) == name
    ensures r.None? ==> forall o :: VariantName(o) != name
  {
    if name == "Normal" then Some(Normal)
    else if name == "Mirrored" then Some(Mirrored)
    else if name == "UpsideDown" then Some(UpsideDown)
    else if name == "UpsideDownMirrored" then Some(UpsideDownMirrored)
    else if name == "QuarterRotationCCWMirrored" then Some(QuarterRotationCCWMirrored)
    else if name == "QuarterRotationCCW" then Some(QuarterRotationCCW)
    else if name == "QuarterRotationCWMirrored" then Some(QuarterRotationCWMirrored)
    else if name == "QuarterRotationCW" then Some(QuarterRotationCW)
    else None
  }

  /** Every variant's own name reads back as that variant. */
  lemma FromVariantNameOfVariantName(o: Orientation)
    ensures FromVariantName(VariantName(o)) == Some(o)
  {
  }

  /** A required key's value. */
  function Required(obj: JsonObject, key: Field): Result<Json, SchemaError> {
    if key in obj then Ok(obj[key]) else Err(MissingField(key))
  }

  /** An optional key's value: a missing key and a null both read as absent. */
  function Optional(obj: JsonObject, key: Field): Option<Json> {
    if key in obj && obj[key] != JNull then Some(obj[key]) else None
  }

  function ReadFilename(obj: JsonObject): Result<string, SchemaError> {
    var v :- Required(obj, Filename);
    if v.JString? then Ok(v.s) else Err(InvalidType(Filename))
  }

  function ReadSize(obj: JsonObject): Result<u64, SchemaError> {
    var v :- Required(obj, Size);
    if !v.JNumber? then Err(InvalidType(Size))
    else if 0 <= v.n < 0x1_0000_0000_0000_0000 then Ok(v.n)
    else Err(InvalidValue(Size))
  }

  function ReadTimestamp(obj: JsonObject, key: Field): Result<Option<UtcTime>, SchemaError> {
    match Optional(obj, key)
    case None => Ok(None)
    case Some(v) => if v.JTimestamp? then Ok(Some(v.instant)) else Err(InvalidType(key))
  }

  function ReadDateTime(obj: JsonObject, key: Field): Result<Option<NaiveDateTime>, SchemaError> {
    match Optional(obj, key)
    case None => Ok(None)
    case Some(v) => if v.JDateTime? then Ok(Some(v.local)) else Err(InvalidType(key))
  }

  function ReadText(obj: JsonObject, key: Field): Result<Option<string>, SchemaError> {
    match Optional(obj, key)
    case None => Ok(None)
    case Some(v) => if v.JString? then Ok(Some(v.s)) else Err(InvalidType(key))
  }

  function ReadOrientation(obj: JsonObject, reading: OrientationReading): Result<Option<Orientation>, SchemaError> {
    match Optional(obj, OrientationField)
    case None => Ok(None)
    case Some(v) =>
      match reading
      case ByCode =>
        if !v.JNumber? then Err(InvalidType(OrientationField))
        else if !(0 <= v.n < 0x1_0000) then Err(InvalidValue(OrientationField))
        else
          (match TryFromU16(v.n)
           case Ok(o) => Ok(Some(o))
           case Err(_) => Err(InvalidValue(OrientationField)))
      case ByVariantName =>
        if !v.JString? then Err(InvalidType(OrientationField))
        else
          (match FromVariantName(v.s)
           case Some(o) => Ok(Some(o))
           case None => Err(InvalidValue(OrientationField)))
  }

  /**
   * Deserialization of a flat object into `MetadataOfInterest`: `filename` is
   * required, and an optional field is present exactly when its key holds a
   * value other than null.
   */
  function DecodeRecord(obj: JsonObject, reading: OrientationReading): (r: Result<MetadataOfInterest, SchemaError>)
    ensures Filename !in obj ==> r == Err(MissingField(Filename))
    ensures r.Ok? ==> forall f :: f in AllFields ==> (Value(r.value, f).Some? <==> f in obj && obj[f] != JNull)
  {
    var filename :- ReadFilename(obj);
    var size :- ReadSize(obj);
    var createdTime :- ReadTimestamp(obj, CreatedTime);
    var modifiedTime :- ReadTimestamp(obj, ModifiedTime);
    var orientation :- ReadOrientation(obj, reading);
    var captureTime :- ReadDateTime(obj, CaptureTime);
    var cameraModel :- ReadText(obj, CameraModel);
    var cameraSerial :- ReadText(obj, CameraSerial);
    Ok(MetadataOfInterest(
      FileMetadata(filename, size, createdTime, modifiedTime),
      ImageMetadata(orientation, captureTime, cameraModel, cameraSerial)))
  }

  /** `read_json_metadata` after the file is read: orientation read back through `TryFrom<u16>`. */
  function Deserialize(obj: JsonObject): (r: Result<MetadataOfInterest, SchemaError>)
    ensures r.Ok? ==> Serialize(r.value) == Canonical(obj)
  {
    var r := DecodeRecord(obj, ByCode);
    if r.Ok? then SerializeDeserialize(obj, r.value); r else r
  }

  /** `obj` without its null entries. */
  function Canonical(obj: JsonObject): (c: JsonObject)
    ensures c.Keys <= obj.Keys && NoNulls(c)
    ensures forall k :: k in c <==> k in obj && obj[k] != JNull
    ensures forall k :: k in c ==> c[k] == obj[k]
  {
    map k | k in obj && obj[k] != JNull :: obj[k]
  }

  /** Reading back a written record gives the same record. */
  lemma DeserializeSerialize(m: MetadataOfInterest)
    ensures Deserialize(Serialize(m)) == Ok(m)
  {
    if m.image.orientation.Some? {
      TryFromAsU16(m.image.orientation.value);
    }
  }

  /**
   * Whatever object deserializes to a record, writing that record back gives
   * the object with its nulls dropped: the written form is canonical.
   */
  lemma SerializeDeserialize(obj: JsonObject, m: MetadataOfInterest)
    requires DecodeRecord(obj, ByCode) == Ok(m)
    ensures Serialize(m) == Canonical(obj)
  {
    var s, c := Serialize(m), Canonical(obj);
    assert ReadFilename(obj) == Ok(m.file.filename);
    assert ReadSize(obj) == Ok(m.file.size);
    assert ReadTimestamp(obj, CreatedTime) == Ok(m.file.createdTime);
    assert ReadTimestamp(obj, ModifiedTime) == Ok(m.file.modifiedTime);
    assert ReadOrientation(obj, ByCode) == Ok(m.image.orientation);
    assert ReadDateTime(obj, CaptureTime) == Ok(m.image.captureTime);
    assert ReadText(obj, CameraModel) == Ok(m.image.cameraModel);
    assert ReadText(obj, CameraSerial) == Ok(m.image.cameraSerial);
    forall k: Field
      ensures (k in s <==> k in c) && (k in s ==> s[k] == c[k])
    {
      match k
      case Filename =>
      case Size =>
      case CreatedTime =>
      case ModifiedTime =>
      case OrientationField =>
      case CaptureTime =>
      case CameraModel =>
      case CameraSerial =>
    }
    assert s.Keys == c.Keys;
  }

  /**
   * The derived `Deserialize` of `Orientation` reads a variant name, while the
   * hand-written `Serialize` writes the code: a record with an orientation,
   * once written, cannot be read back that way.
   */
  lemma DerivedDeserializeRejectsWrittenOrientation(m: MetadataOfInterest)
    requires m.image.orientation.Some?
    ensures DecodeRecord(Serialize(m), ByVariantName) == Err(InvalidType(OrientationField))
  {
  }
}
