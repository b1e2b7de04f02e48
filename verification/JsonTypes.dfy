/** Bytes, event kinds, error codes and configuration of the JSON parser (ctcpsvr/json.h). */
module JsonTypes {
  type Byte = b: int | 0 <= b < 256
  type Bytes = seq<Byte>

  /** `json_type`: what an event reports. */
  datatype Kind =
    | NoKind
    | ArrayBegin | ObjectBegin | ArrayEnd | ObjectEnd
    | IntKind | FloatKind | StringKind | KeyKind
    | TrueKind | FalseKind | NullKind
    | BStringKind

  /** One call of the event callback. Events without a buffer carry no data. */
  datatype Event = Event(kind: Kind, data: Bytes)

  /** `json_error`, with `Success` for the return value 0. */
  datatype Error =
    | Success
    | BadChar
    | PopEmpty | PopUnexpectedMode
    | NestingLimit | DataLimit
    | CommentNotAllowed
    | UnexpectedChar
    | MissingLowSurrogate | UnexpectedLowSurrogate
    | CommaOutOfStructure
    | BadUtf8

  /** `json_config` without the allocators; zero means "no limit". */
  datatype Config = Config(
    bufferInitialSize: nat,
    maxNesting: nat,
    maxData: nat,
    allowC: bool,
    allowYaml: bool)
  {
    predicate Unlimited() {
      maxNesting == 0 && maxData == 0
    }

    function WithoutLimits(): Config {
      this.(maxNesting := 0, maxData := 0)
    }

    function WithLimitsOf(other: Config): Config {
      this.(maxNesting := other.maxNesting, maxData := other.maxData)
    }

    /** No limit of this configuration is tighter than the other's. */
    predicate NoTighterThan(other: Config) {
      && (maxNesting == 0 || 0 < other.maxNesting <= maxNesting)
      && (maxData == 0 || 0 < other.maxData <= maxData)
    }
  }

  datatype Mode = ArrayMode | ObjectMode

  // The bytes the parser and the printer name.
  const TAB: Byte := 9
  const LF: Byte := 10
  const CR: Byte := 13
  const SPACE: Byte := 32
  const QUOTE: Byte := 34
  const HASH: Byte := 35
  const STAR: Byte := 42
  const PLUS: Byte := 43
  const COMMA: Byte := 44
  const MINUS: Byte := 45
  const DOT: Byte := 46
  const SLASH: Byte := 47
  const ZERO: Byte := 48
  const NINE: Byte := 57
  const COLON: Byte := 58
  const LSQRB: Byte := 91
  const BACKSLASH: Byte := 92
  const RSQRB: Byte := 93
  const LOWER_U: Byte := 117
  const LCURB: Byte := 123
  const RCURB: Byte := 125

  const TRUE_TEXT: Bytes := [116, 114, 117, 101]
  const FALSE_TEXT: Bytes := [102, 97, 108, 115, 101]
  const NULL_TEXT: Bytes := [110, 117, 108, 108]

  // "0123456789abcdef" and "0123456789ABCDEF".
  const LOWER_DIGITS: Bytes := [48, 49, 50, 51, 52, 53, 54, 55, 56, 57, 97, 98, 99, 100, 101, 102]
  const UPPER_DIGITS: Bytes := [48, 49, 50, 51, 52, 53, 54, 55, 56, 57, 65, 66, 67, 68, 69, 70]
}
