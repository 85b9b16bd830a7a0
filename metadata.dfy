/**
 * The metadata record and how one file's record is assembled: file attributes
 * first, then the EXIF container, then the four field codecs. Only the first
 * two steps can fail, and a failure is about the whole file.
 */
module Metadata {
  import opened Integers
  import opened Wrappers
  import opened Orientations
  import opened Exif
  import opened Diagnostics
  import opened FieldCodecs
  import opened Paths

  /** An instant in UTC (chrono's `DateTime<Utc>`), kept as an opaque value. */
  datatype UtcTime = UtcTime(seconds: int, nanos: nat)

  /** `FileMetadataOfInterest` */
  datatype FileMetadata = FileMetadata(
    filename: string,
    size: u64,
    createdTime: Option<UtcTime>,
    modifiedTime: Option<UtcTime>)

  /** `ImageMetadataOfInterest`: four independent optional fields. */
  datatype ImageMetadata = ImageMetadata(
    orientation: Option<Orientation>,
    captureTime: Option<NaiveDateTime>,
    cameraModel: Option<string>,
    cameraSerial: Option<string>)

  /** `MetadataOfInterest`: both parts, flattened into one object when serialized. */
  datatype MetadataOfInterest = MetadataOfInterest(file: FileMetadata, image: ImageMetadata)

  /** An operating-system error, by its code. */
  datatype IoError = IoError(code: int)

  /**
   * What `fs::metadata` reports of a path. A time is None when the platform
   * does not report it (`created()` / `modified()` return an error).
   */
  datatype FsMetadata = FsMetadata(isFile: bool, len: u64, created: Option<UtcTime>, modified: Option<UtcTime>)

  /** Why the EXIF reader could not hand back a tag lookup. */
  datatype ContainerError = OpenFailed(io: IoError) | InvalidFormat | NotSupported | NoExif

  /** Whole-file failures. */
  datatype ReadError = Io(io: IoError) | NotAFile(path: Path) | Container(cause: ContainerError)

  /** What the file system and the EXIF reader report for one path. */
  datatype Source = Source(stat: Result<FsMetadata, IoError>, exif: Result<TagMap, ContainerError>)

  /**
   * `read_file_metadata`: fails when `fs::metadata` fails or the path is not a
   * regular file; otherwise the final path component, the length, and each time
   * the platform reports, with a warning for each time it does not.
   */
  function ReadFileMetadata(path: Path, stat: Result<FsMetadata, IoError>): (r: (Result<FileMetadata, ReadError>, seq<Diag>))
    ensures stat.Err? ==> r == (Err(Io(stat.error)), [])
    ensures stat.Ok? && !stat.value.isFile ==> r == (Err(NotAFile(path)), [])
    ensures stat.Ok? && stat.value.isFile ==>
      && r.0.Ok?
      && r.0.value.filename == FileName(path)
      && r.0.value.size == stat.value.len
      && r.0.value.createdTime == stat.value.created
      && r.0.value.modifiedTime == stat.value.modified
      && r.1 == (if stat.value.created.None? then [TimeUnsupported(Created)] else [])
              + (if stat.value.modified.None? then [TimeUnsupported(Modified)] else [])
  {
    match stat
    case Err(e) => (Err(Io(e)), [])
    case Ok(m) =>
      if !m.isFile then (Err(NotAFile(path)), [])
      else
        var createdWarning := if m.created.Some? then [] else [TimeUnsupported(Created)];
        var modifiedWarning := if m.modified.Some? then [] else [TimeUnsupported(Modified)];
        (Ok(FileMetadata(FileName(path), m.len, m.created, m.modified)), createdWarning + modifiedWarning)
  }

  /**
   * `read_exif_metadata`: fails only when the container cannot be opened;
   * otherwise each field is what its codec yields, and the diagnostics are the
   * codecs' own, in field order.
   */
  function ReadExifMetadata(exif: Result<TagMap, ContainerError>, parse: DateTimeParser): (r: (Result<ImageMetadata, ReadError>, seq<Diag>))
    ensures exif.Err? ==> r == (Err(Container(exif.error)), [])
    ensures exif.Ok? ==>
      && r.0.Ok?
      && r.0.value.orientation == DecodeOrientation(exif.value).0
      && r.0.value.captureTime == DecodeCaptureTime(exif.value, parse).0
      && r.0.value.cameraModel == DecodeText(exif.value, ModelTag).0
      && r.0.value.cameraSerial == DecodeText(exif.value, BodySerialNumberTag).0
      && r.1 == DecodeOrientation(exif.value).1 + DecodeCaptureTime(exif.value, parse).1
             + DecodeText(exif.value, ModelTag).1 + DecodeText(exif.value, BodySerialNumberTag).1
  {
    match exif
    case Err(e) => (Err(Container(e)), [])
    case Ok(fields) =>
      var (orientation, d1) := DecodeOrientation(fields);
      var (captureTime, d2) := DecodeCaptureTime(fields, parse);
      var (cameraModel, d3) := DecodeText(fields, ModelTag);
      var (cameraSerial, d4) := DecodeText(fields, BodySerialNumberTag);
      (Ok(ImageMetadata(orientation, captureTime, cameraModel, cameraSerial)), d1 + d2 + d3 + d4)
  }

  /**
   * `read_metadata_of_interest`: the record of one file. It fails exactly when
   * `fs::metadata` fails, the path is not a regular file, or the container
   * cannot be opened, and then with that cause; the container is not consulted
   * once the file step failed. No field of the container can make it fail.
   */
  function ReadMetadataOfInterest(path: Path, source: Source, parse: DateTimeParser): (r: (Result<MetadataOfInterest, ReadError>, seq<Diag>))
    ensures r.0.Err? <==> source.stat.Err? || !source.stat.value.isFile || source.exif.Err?
    ensures source.stat.Err? ==> r == (Err(Io(source.stat.error)), [])
    ensures source.stat.Ok? && !source.stat.value.isFile ==> r == (Err(NotAFile(path)), [])
    ensures source.stat.Ok? && source.stat.value.isFile && source.exif.Err? ==> r.0 == Err(Container(source.exif.error))
    ensures source.stat.Ok? && source.stat.value.isFile ==>
      r.1 == ReadFileMetadata(path, source.stat).1 + ReadExifMetadata(source.exif, parse).1
    ensures r.0.Ok? ==>
      && r.0.value.file.filename == FileName(path)
      && r.0.value.file.size == source.stat.value.len
      && r.0.value.file.createdTime == source.stat.value.created
      && r.0.value.file.modifiedTime == source.stat.value.modified
      && r.0.value.image == ImageMetadata(
           DecodeOrientation(source.exif.value).0,
           DecodeCaptureTime(source.exif.value, parse).0,
           DecodeText(source.exif.value, ModelTag).0,
           DecodeText(source.exif.value, BodySerialNumberTag).0)
  {
    var (file, fileDiags) := ReadFileMetadata(path, source.stat);
    match file
    case Err(e) => (Err(e), fileDiags)
    case Ok(fileMetadata) =>
      var (image, imageDiags) := ReadExifMetadata(source.exif, parse);
      match image
      case Err(e) => (Err(e), fileDiags + imageDiags)
      case Ok(imageMetadata) => (Ok(MetadataOfInterest(fileMetadata, imageMetadata)), fileDiags + imageDiags)
  }

  /**
   * A field that is missing, mistyped, out of range or badly encoded costs only
   * that field: the record is still read, and every other field is what it
   * would have been had the faulty tag been absent.
   */
  lemma FieldFaultIsolated(path: Path, m: FsMetadata, fields: TagMap, tag: Tag, raw: RawValue, parse: DateTimeParser)
    requires m.isFile
    ensures var withTag := ReadMetadataOfInterest(path, Source(Ok(m), Ok(fields[tag := raw])), parse).0;
            var without := ReadMetadataOfInterest(path, Source(Ok(m), Ok(fields - {tag})), parse).0;
      && withTag.Ok? && without.Ok?
      && withTag.value.file == without.value.file
      && (tag != OrientationTag ==> withTag.value.image.orientation == without.value.image.orientation)
      && (tag != DateTimeOriginalTag ==> withTag.value.image.captureTime == without.value.image.captureTime)
      && (tag != ModelTag ==> withTag.value.image.cameraModel == without.value.image.cameraModel)
      && (tag != BodySerialNumberTag ==> withTag.value.image.cameraSerial == without.value.image.cameraSerial)
  {
    var f, g := fields[tag := raw], fields - {tag};
    forall t | t != tag
      ensures Get(f, t) == Get(g, t)
      ensures DecodeText(f, t) == DecodeText(g, t)
    {
      CodecsReadOnlyTheirTag(f, g, t, parse);
    }
    if tag != OrientationTag {
      CodecsReadOnlyTheirTag(f, g, OrientationTag, parse);
    }
    if tag != DateTimeOriginalTag {
      CodecsReadOnlyTheirTag(f, g, DateTimeOriginalTag, parse);
    }
  }
}
