# rusimeta, modelled in Dafny

rusimeta reads a few metadata fields from image files and writes them, one
JSON "sidecar" per image, next to the image. Each record holds:

- the file name, size, and creation and modification times;
- from the EXIF block: Orientation (tag 0x0112), DateTimeOriginal (0x9003),
  Model (0x0110) and BodySerialNumber (0xA431).

This project models the logic of `src/lib.rs`, one module per concern:

| file | module | what it models |
|---|---|---|
| `wrappers.dfy`, `integers.dfy` | `Wrappers`, `Integers` | `Option`, `Result` and the `u8`/`u16`/`u64` ranges |
| `utf8.dfy` | `Utf8` | `str::from_utf8`: UTF-8 validation and decoding as in section 4 of RFC 3629, with its encoder |
| `orientation.dfy` | `Orientations` | the `Orientation` enum, `orientation_as_u16` and `TryFrom<u16>` |
| `exif.dfy` | `Exif` | the tag lookup the EXIF reader hands back, as a map from tag to raw value |
| `diagnostics.dfy` | `Diagnostics` | the warnings printed while reading a record, as tags |
| `codecs.dfy` | `FieldCodecs` | the three field codecs inside `read_exif_metadata` |
| `paths.dfy` | `Paths` | `file_name`, `parent`, `file_stem`, `join` and the sidecar path beside an image |
| `metadata.dfy` | `Metadata` | the record types, `read_file_metadata`, `read_exif_metadata`, `read_metadata_of_interest` |
| `serializer.dfy` | `Serializer` | the serde shape of the record as a flat key/value object, and reading it back |
| `config.dfy` | `Cli` | `Config::new` and `Config::from_strings` |
| `batch.dfy` | `Batch` | `run` and `write_json_metadata` over a directory tree with a ghost log of writes |

Inputs that come from the operating system are parameters of the model:

- what `fs::metadata` reports for a path;
- whether the EXIF container opens, and its tag lookup when it does;
- whether `fs::write` succeeds for a target;
- chrono's `NaiveDateTime::parse_from_str`, passed as an abstract partial parser.

A record fails to be read only when the file step fails or the container cannot
be opened. A faulty field costs only that field. `run` writes one sidecar per
readable path and skips every failure.

## Model

| member | source | states |
|---|---|---|
| `Orientations.AsU16` | src/lib.rs:44-55 | every orientation's code lies in 1..8 |
| `Orientations.TryFromU16` | src/lib.rs:66-82 | fails exactly when the code is outside 1..8; on success the orientation's code is the input |
| `Orientations.TryFromAsU16` | src/lib.rs:44-82 | `try_from(orientation_as_u16(o)) == Ok(o)` for every variant |
| `Orientations.AsU16Injective` | src/lib.rs:44-55 | distinct orientations have distinct codes |
| `Orientations.AsU16Onto` | src/lib.rs:30-40 | every code in 1..8 is the code of some orientation |
| `Utf8.EncodeChar` | src/lib.rs:256 | one scalar value encodes to one to four bytes |
| `Utf8.Encode` | src/lib.rs:256 | a text of n scalars encodes to between n and 4n bytes |
| `Utf8.DecodeChar` | src/lib.rs:256 | a decoded scalar consumes 1 to 4 bytes, and those bytes are exactly its encoding (overlongs, surrogates and values above U+10FFFF are rejected) |
| `Utf8.Decode` | src/lib.rs:256 | whatever decodes re-encodes to exactly the input bytes |
| `Utf8.DecodeEncode` | src/lib.rs:256 | every text's encoding decodes back to the text |
| `Utf8.DecodeCharOfEncoding` | src/lib.rs:256 | decoding the encoding of one scalar, followed by anything, yields that scalar and its width |
| `FieldCodecs.DecodeOrientation` | src/lib.rs:231-250 | absent or empty SHORT list: None silently; not SHORT: None with a wrong-type diagnostic; first code outside 1..8: None with an invalid-value diagnostic; otherwise the orientation whose code is the first code |
| `FieldCodecs.DecodeText` | src/lib.rs:278-318 | absent or empty ASCII list: None silently; not ASCII: None with a wrong-type diagnostic; first item not UTF-8: None with an encoding diagnostic; otherwise the text whose UTF-8 encoding is the first item |
| `FieldCodecs.DecodeCaptureTime` | src/lib.rs:252-276 | the capture time is the first DateTimeOriginal item, decoded like the text codec and parsed with `CAPTURE_TIME_FORMAT` (`%Y:%m:%d %H:%M:%S`, line 17); unparsable text adds a format diagnostic |
| `FieldCodecs.OrientationReadsFirstCodeOnly` | src/lib.rs:234 | codes after the first never change the orientation codec's result |
| `FieldCodecs.TextReadsFirstItemOnly` | src/lib.rs:252-318 | items after the first never change the text or capture-time codec's result |
| `FieldCodecs.CodecsReadOnlyTheirTag` | src/lib.rs:231-318 | each codec depends only on the value of its own tag |
| `FieldCodecs.DecodedTextIsUnique` | src/lib.rs:282-283 | a text whose encoding is the stored first item is exactly what the text codec returns, with no diagnostic |
| `Paths.LastIndexOf` | src/lib.rs:115-116 | the result is an occurrence of the character with none after it, and None means the character does not occur |
| `Paths.FileName` | src/lib.rs:193 | the final component holds no `/`, is a suffix of the path, and is preceded by `/` when shorter than the path |
| `Paths.Parent` | src/lib.rs:116 | empty exactly when the path has no `/`; otherwise the prefix before the last `/`, or `/` when that `/` is the first character and the only one |
| `Paths.FileStem` | src/lib.rs:115 | a prefix of the name; the name itself exactly when it is empty or has no `.` after its first character; otherwise the part before the last `.`; a non-empty name has a non-empty stem |
| `Paths.LastIndexOfAppend` | src/lib.rs:115-116 | appending text free of a character keeps that character's last index |
| `Paths.Join` | src/lib.rs:120 | the joined path ends with the name; after a non-empty directory it starts with that directory, and a `/` comes right before the name |
| `Paths.SidecarPath` | src/lib.rs:115-120 | the image's directory joined with its stem plus `.json`; what that means for the name, stem and directory of the result is stated by `Paths.SidecarBesideImage` |
| `Paths.JoinFileName` | src/lib.rs:119-120 | the file name of `dir.join(name)` is `name`, and its parent is `dir` when `dir` is in directory form |
| `Paths.StemOfJsonName` | src/lib.rs:119 | the stem of `stem + ".json"` is `stem` |
| `Paths.SidecarBesideImage` | src/lib.rs:115-120 | the sidecar's file name is the image's stem plus `.json`, it has the image's stem, and it lies in the image's directory |
| `Metadata.ReadFileMetadata` | src/lib.rs:171-198 | fails with the I/O error or with not-a-file; otherwise the final component, the length and both reported times; the only diagnostics are the created-time warning, when that time is not reported, followed by the modified-time warning, when that one is not |
| `Metadata.ReadExifMetadata` | src/lib.rs:228-326 | fails only when the container cannot be opened; otherwise each field is its codec's result and the diagnostics are the codecs' own, in field order |
| `Metadata.ReadMetadataOfInterest` | src/lib.rs:328-336 | fails exactly when `fs::metadata` fails, the path is not a regular file, or the container cannot be opened, with that cause; on success the file name, size, times and all four image fields are as read; for a regular file the diagnostics are the file step's followed by the EXIF step's |
| `Metadata.FieldFaultIsolated` | src/lib.rs:228-326 | whatever one tag holds, the record is still read, and every other field is what it would be with that tag absent |
| `Serializer.Value` | src/lib.rs:19-104 | no field is ever written as null |
| `Serializer.Key` | src/lib.rs:19-104 | the key serde writes for each field, the Rust field's name; `Serializer.KeyInjective` shows no two fields share one |
| `Serializer.KeyInjective` | src/lib.rs:19-104 | distinct record fields are written under distinct keys (the Rust field names, such as `created_time`), so the object over fields stands for the JSON object |
| `Serializer.Serialize` | src/lib.rs:19-104 | `filename` and `size` always written; each optional field written exactly when present, with its value; orientation written as its code; no nulls |
| `Serializer.VariantName` | src/lib.rs:30-40 | the name serde's derived `Deserialize` expects for each variant, its Rust identifier; `Serializer.FromVariantNameOfVariantName` reads each one back as its variant |
| `Serializer.FromVariantName` | src/lib.rs:31 | a name is accepted exactly when it is the name of a variant, and it yields that variant |
| `Serializer.FromVariantNameOfVariantName` | src/lib.rs:30-40 | every variant's name reads back as that variant |
| `Serializer.DecodeRecord` | src/lib.rs:19-104 | a missing `filename` fails with a missing-field error; on success each field is present in the record exactly when its key holds a value other than null, as serde reads a missing key and a null `Option` alike |
| `Serializer.Deserialize` | src/lib.rs:144-152 | `read_json_metadata` on the parsed object, with orientation read through `TryFrom<u16>`: whatever it reads, written back, gives the object without its nulls |
| `Serializer.Canonical` | src/lib.rs:144-152 | a key is kept exactly when the object holds a non-null value for it, and it keeps that value |
| `Serializer.DeserializeSerialize` | tests/integration_tests.rs:151-174 | reading back a written record yields the same record |
| `Serializer.SerializeDeserialize` | src/lib.rs:84-152 | any object that reads as a record is, up to nulls, exactly what writing that record produces |
| `Serializer.DerivedDeserializeRejectsWrittenOrientation` | src/lib.rs:30-64 | reading orientation by variant name, as the derived `Deserialize` does, rejects every written record that has an orientation |
| `Cli.NewConfig` | src/lib.rs:339-358 | an error exactly when there is no argument after the program name; help exactly when the first argument is `-h` or `--help`, with no paths; otherwise all arguments after the program name, in order |
| `Cli.FromStrings` | src/lib.rs:360-365 | the paths are the strings in order, and help is never requested |
| `Cli.NewConfigIsFromStrings` | src/lib.rs:339-365 | without a leading help flag, `new` agrees with `from_strings` on the arguments after the program name |
| `Batch.SidecarStore.constructor` | src/lib.rs:136-142 | starts from the given files and unwritable targets with an empty log |
| `Batch.SidecarStore.WriteJson` | src/lib.rs:136-142 | succeeds exactly when the target is writable; then the target holds the object and the write is logged; otherwise nothing changes |
| `Batch.WritesForReadsBack` | src/lib.rs:112-131 | a path writes exactly when it is a readable regular file and its sidecar is writable; the object written reads back as the path's record |
| `Batch.WriteIsSidecarOf` | src/lib.rs:114-121 | a write made for a path comes from a readable path, targets that path's sidecar, and holds its record |
| `Batch.Run` | src/lib.rs:111-134 | always returns success; the log gains exactly the batch's writes in path order, and the files are the old files with those writes applied |
| `Batch.RecordOf` | src/lib.rs:113 | `read_metadata_of_interest` on the world: succeeds exactly when the path is a regular file whose container opens, and the record's file name is the path's final component |
| `Batch.WriteOf` | src/lib.rs:114-124 | at most one write, made exactly when the record was read and its sidecar is writable; it targets the sidecar and reads back as the record |
| `Batch.WritesFor` | src/lib.rs:113-124 | processing one path writes at most once |
| `Batch.ProcessPath` | src/lib.rs:113-130 | one turn of `run`'s loop: the batch's writes so far grow by what the turn writes, which the log gains and the files take in |
| `Batch.HandleRecord` | src/lib.rs:114-130 | for a read record, writes its serialized form to the sidecar, or nothing if the write fails; for a failed read, writes nothing |
| `Batch.Writes` | src/lib.rs:112 | a batch writes at most once per path |
| `Batch.ConcatLength` | src/lib.rs:112 | when each path writes at most once, the batch writes at most once per path |
| `Batch.WritesStep` | src/lib.rs:112 | the batch over one more path writes what that path writes after the rest |
| `Batch.WritesSnoc` | src/lib.rs:112 | appending a path appends what it writes |
| `Batch.ConcatAppend` | src/lib.rs:112 | processing two lists in turn writes what each writes, in order |
| `Batch.ConcatContains` | src/lib.rs:112 | whatever one path writes is among the batch's writes |
| `Batch.ConcatOrigin` | src/lib.rs:112 | every write of the batch comes from one of its paths |
| `Batch.Apply` | src/lib.rs:137-141 | successive `fs::write` calls: a write never removes a file; `Batch.ApplySnoc`, `Batch.ApplyFrame` and `Batch.ApplyKeeps` state what each target holds |
| `Batch.ApplySnoc` | src/lib.rs:137-141 | the last write to a target decides what it holds, and the other files are as before it |
| `Batch.ApplyAppend` | src/lib.rs:137-141 | applying two runs of writes in turn equals applying them together |
| `Batch.WritesAppend` | src/lib.rs:112-131 | the batch over two lists writes what the first writes, then what the second writes |
| `Batch.UnreadablePathWritesNothing` | tests/integration_tests.rs:245-277 | an unreadable path writes nothing and does not change what later paths write |
| `Batch.ReadablePathIsWritten` | tests/integration_tests.rs:179-205 | every readable path with a writable sidecar has a write among the batch's writes that targets its sidecar and holds its record, whatever else the batch holds |
| `Batch.SidecarHoldsLastRecord` | tests/integration_tests.rs:196-203 | after the batch, the sidecar of a readable path with a writable sidecar exists and reads back as that path's record, provided no later path is a different path with the same sidecar |
| `Batch.OnlySidecarsChange` | src/lib.rs:112-131 | a file that is the sidecar of no path of the batch is left as it was, present or absent |
| `Batch.LastWriteWins` | src/lib.rs:112-131 | a path's write decides its target's final content when every different later path writes elsewhere |
| `Batch.ConcatAt` | src/lib.rs:112 | the batch writes what comes before a path, then that path's writes, then what comes after |
| `Batch.ConcatAgrees` | src/lib.rs:112 | when every path puts only one content at a target, so does the whole batch |
| `Batch.ApplyFrame` | src/lib.rs:136-142 | a target that no write names keeps what it held, or stays absent |
| `Batch.ApplyKeeps` | src/lib.rs:136-142 | a target still holds its content after writes that put only that content there |
| `Batch.StepTargets` | src/lib.rs:115-121 | whatever processing a path writes goes to that path's sidecar |
| `Batch.EveryWriteIsASidecar` | src/lib.rs:113-121 | every write is the sidecar of a readable path of the batch, holding that path's record |
| `Batch.RepeatChangesNothing` | src/lib.rs:112-131 | processing a path again, when every different path in between writes elsewhere, leaves the files as they were |
| `Batch.DuplicatePathRewritesSameSidecar` | tests/integration_tests.rs:208-242 | naming a path again, when no path in between is a different path with the same sidecar, leaves the files as naming it once (as for the repeated relative path of the test) |

## Left out

- File-system and OS calls (`fs::metadata`, `File::open`, `fs::write`, `fs::read`) become inputs: a map from path to what they report, and a set of targets whose write fails.
- EXIF/TIFF container parsing belongs to the `exif` crate. Only its result is modelled: the container opens or fails with a cause, and a tag lookup in the primary image directory. The thumbnail directory is never consulted.
- chrono's `parse_from_str` is an abstract partial parser, because its accepted language is wider than a fixed pattern. The conversion of `SystemTime` to `DateTime<Utc>` and the text rendering of times are not modelled. Times are opaque values, and in the JSON object they are typed leaves.
- JSON text is not modelled: pretty-printing, escaping, key order, and the UTF-8 check of `read_json_metadata` on the file bytes. The object is a map over the record's eight keys. Keys outside the record, and which error serde reports first when several apply, are not modelled either.
- `Serializer.Deserialize`: reads the orientation back through `TryFrom<u16>`. The derived `Deserialize` in the source does not do this (see Findings); the as-written behaviour is `DecodeRecord(obj, ByVariantName)`.
- Paths are compared as strings. Different strings that name one file (a relative and an absolute path, a link) are different sources and different sidecar targets in the model, so the test's absolute path to an image already named relatively is not related to it. The duplicate-path lemmas cover repetitions of the same string only.
- Paths are strings split at the last `/` and the last `.`. Double or trailing slashes, `.` and `..` components, and the root are not modelled. A sidecar path that names one of the input images is not modelled either.
- `to_str()` on the stem and parent cannot fail, because every path comes from a `String`. The two `expect` calls in `run` are not modelled: a path that reads as a regular file always has a file name and a parent.
- Diagnostics are tags, not the printed wording. The error printed for a failed path is not modelled.
- The ghost log of the directory tree records successful writes only. Console output and its order are not modelled.
- `src/main.rs` is not part of this model: it prints help and maps the result of `run` to an exit code.
- The tests expect `created_time` and `modified_time` to be None. `read_file_metadata` fills them whenever the platform reports them, and the model follows the code.

## Findings

| source | as written | input that shows it | evidently intended | confidence | as-written member | corrected member |
|---|---|---|---|---|---|---|
| src/lib.rs:30-64 | `Orientation` derives `Deserialize`, which reads a variant name such as `"Normal"`, while its hand-written `Serialize` writes the integer code | any record whose orientation is present, e.g. the test image with orientation 6 (tests/integration_tests.rs:110-124): the sidecar holds `"orientation": 6`, and reading it back fails with an invalid-type error | reading back a written sidecar yields the record that was written, as the tests assert | not executed | `Serializer.DerivedDeserializeRejectsWrittenOrientation` | `Serializer.DeserializeSerialize` |
