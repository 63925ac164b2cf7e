/** The codes of the three error classes. */
module FramingErrors {
  datatype Error =
    | UnknownFormat
    | InvalidUuid
    | InvalidOffset
    | InvalidChunkLength
    | UnknownVersion
    | InvalidEnvelopeLength
    | InvalidInnerFormat
}
