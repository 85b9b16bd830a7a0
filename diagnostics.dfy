/**
 * The messages the pipeline prints without failing, as tags. Their wording is
 * not modelled; a diagnostic never turns into an error.
 */
module Diagnostics {
  import opened Integers
  import opened Exif

  datatype TimeField = Created | Modified

  datatype Diag =
    | WrongType(tag: Tag)                    // the field's value has an unexpected type
    | InvalidValue(tag: Tag, code: u16)      // an orientation code outside 1..8
    | BadUtf8(tag: Tag)                      // the text is not valid UTF-8
    | BadFormat(tag: Tag, text: string)      // the text does not parse as a capture time
    | TimeUnsupported(field: TimeField)      // the platform does not report this file time
}
