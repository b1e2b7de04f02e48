/**
  The grammar of the bytes: strings (section 7 of RFC 8259), numbers (section 6), words, white space
  and comments, and documents made of them, each with its text and its meaning.
 */
module JsonText {
  import opened JsonTypes
  import opened JsonTables
  import opened JsonMachine
  import opened JsonSyntax
  import opened JsonUnicode

  // Raw bytes, as loosely as the two UTF-8 tables check them.

  /** A lead byte and the continuation bytes it announces. */
  predicate IsMulti(b: Bytes) {
    && b != [] && 0 < Utf8Header(b[0]) < 255
    && |b| == 1 + Utf8Header(b[0])
    && forall i :: 1 <= i < |b| ==> IsContinuation(b[i])
  }

  /** The ranges: a lead byte says how many of the bytes 80 to BF (hexadecimal) follow, up to five of them. */
  lemma MultiMeans(b: Bytes)
    ensures IsMulti(b) <==>
      && 2 <= |b| <= 6 && (forall i :: 1 <= i < |b| ==> 0x80 <= b[i] <= 0xBF)
      && (|b| == 2 ==> 0xC0 <= b[0] <= 0xDF) && (|b| == 3 ==> 0xE0 <= b[0] <= 0xEF) && (|b| == 4 ==> 0xF0 <= b[0] <= 0xF7)
      && (|b| == 5 ==> 0xF8 <= b[0] <= 0xFB) && (|b| == 6 ==> 0xFC <= b[0] <= 0xFD)
  {}

  /** ASCII bytes and whole multi-byte sequences. */
  predicate IsLooseUtf8(b: Bytes)
    decreases |b|
  {
    b == []
    || (b[0] < 0x80 && IsLooseUtf8(b[1..]))
    || (var n := 1 + Utf8Header(b[0]); n <= |b| && IsMulti(b[..n]) && IsLooseUtf8(b[n..]))
  }

  // Strings.

  datatype StrPiece =
    | Plain(ch: Byte)                    // an ASCII byte standing for itself
    | Multi(bytes: Bytes)                // the bytes of a longer character
    | Escaped(letter: Byte)              // a backslash and a letter
    | Unit(digits: Bytes)                // \uXXXX outside the surrogates
    | Pair(high: Bytes, low: Bytes)      // \uXXXX\uXXXX

  predicate IsPlain(ch: Byte) {
    SPACE <= ch < 0x80 && ch != QUOTE && ch != BACKSLASH
  }

  predicate IsEscapeByte(ch: Byte) {
    ch == QUOTE || ch == BACKSLASH || ch == SLASH || ch == 98 || ch == 102 || ch == 110 || ch == 114 || ch == 116
  }

  /** What the letter of an escape stands for: the list in section 7 of RFC 8259. */
  function EscapeMeaning(letter: Byte): Byte
    requires IsEscapeByte(letter)
  {
    match letter
    case 34 => 34   // \"  quotation mark
    case 92 => 92   // \\  reverse solidus
    case 47 => 47   // \/  solidus
    case 98 => 8    // \b  backspace
    case 102 => 12  // \f  form feed
    case 110 => 10  // \n  line feed
    case 114 => 13  // \r  carriage return
    case _ => 9     // \t  tab
  }

  lemma UnescapeIs(letter: Byte)
    requires IsEscapeByte(letter)
    ensures Unescape(letter) == EscapeMeaning(letter)
  {}

  predicate IsFourHex(b: Bytes) {
    |b| == 4 && forall i :: 0 <= i < 4 ==> IsHexByte(b[i])
  }

  /** `ch` is the digit of value `k`, in either case. */
  predicate IsDigitOf(ch: Byte, k: nat) {
    k < 16 && (ch == LOWER_DIGITS[k] || ch == UPPER_DIGITS[k])
  }

  /** A digit is worth its place in the list of digits, and nothing else is a digit. */
  lemma HexIs(ch: Byte, k: nat)
    ensures IsHexByte(ch) && Hex(ch) == k <==> IsDigitOf(ch, k)
  {}

  /** Four digits are read as a number in base sixteen. */
  lemma FourHexIs(d: Bytes, a: nat, b: nat, c: nat, e: nat)
    requires |d| == 4 && IsDigitOf(d[0], a) && IsDigitOf(d[1], b) && IsDigitOf(d[2], c) && IsDigitOf(d[3], e)
    ensures IsFourHex(d) && FourHex(d) == ((a * 16 + b) * 16 + c) * 16 + e
  {
    hide IsDigitOf, Hex, IsHexByte;
    HexIs(d[0], a);
    HexIs(d[1], b);
    HexIs(d[2], c);
    HexIs(d[3], e);
  }

  predicate IsStrPiece(p: StrPiece) {
    match p
    case Plain(ch) => IsPlain(ch)
    case Multi(b) => IsMulti(b)
    case Escaped(letter) => IsEscapeByte(letter)
    case Unit(d) => IsFourHex(d) && IsScalarValue(FourHex(d))
    case Pair(h, l) => IsFourHex(h) && IsFourHex(l) && IsHighSurrogate(FourHex(h)) && IsLowSurrogate(FourHex(l))
  }

  function PieceText(p: StrPiece): Bytes {
    match p
    case Plain(ch) => [ch]
    case Multi(b) => b
    case Escaped(letter) => [BACKSLASH, letter]
    case Unit(d) => [BACKSLASH, LOWER_U] + d
    case Pair(h, l) => [BACKSLASH, LOWER_U] + h + [BACKSLASH, LOWER_U] + l
  }

  /** The bytes a piece stands for. */
  function PieceData(p: StrPiece): Bytes
    requires IsStrPiece(p)
  {
    match p
    case Plain(ch) => [ch]
    case Multi(b) => b
    case Escaped(letter) => [EscapeMeaning(letter)]
    case Unit(d) => Utf8(FourHex(d))
    case Pair(h, l) => Utf8(PairValue(FourHex(h), FourHex(l)))
  }

  predicate IsString(ps: seq<StrPiece>) {
    forall i :: 0 <= i < |ps| ==> IsStrPiece(ps[i])
  }

  function StringText(ps: seq<StrPiece>): Bytes {
    if ps == [] then [] else PieceText(ps[0]) + StringText(ps[1..])
  }

  function StringData(ps: seq<StrPiece>): Bytes
    requires IsString(ps)
  {
    if ps == [] then [] else PieceData(ps[0]) + StringData(ps[1..])
  }

  // Numbers.

  datatype Exponent = NoExponent | Exponent(mark: Byte, sign: Bytes, digits: Bytes)
  datatype Number = Number(negative: bool, whole: Bytes, fraction: Bytes, exponent: Exponent)

  predicate AreDigits(b: Bytes) {
    forall i :: 0 <= i < |b| ==> ZERO <= b[i] <= NINE
  }

  /** Section 6 of RFC 8259, except that a bare zero takes no exponent. */
  predicate IsNumber(n: Number) {
    && n.whole != [] && AreDigits(n.whole) && AreDigits(n.fraction)
    && (n.whole[0] == ZERO ==> |n.whole| == 1)
    && (n.exponent.Exponent? ==>
      && (n.exponent.mark == 69 || n.exponent.mark == 101)
      && (n.exponent.sign == [] || n.exponent.sign == [PLUS] || n.exponent.sign == [MINUS])
      && n.exponent.digits != [] && AreDigits(n.exponent.digits)
      && (n.whole[0] == ZERO ==> n.fraction != []))
  }

  function FractionText(b: Bytes): Bytes {
    if b == [] then [] else [DOT] + b
  }

  function ExponentText(e: Exponent): Bytes {
    if e.NoExponent? then [] else [e.mark] + e.sign + e.digits
  }

  function NumberText(n: Number): Bytes {
    (if n.negative then [MINUS] else []) + n.whole + FractionText(n.fraction) + ExponentText(n.exponent)
  }

  function NumberKind(n: Number): Kind {
    if n.fraction == [] && n.exponent.NoExponent? then IntKind else FloatKind
  }

  // Lexemes.

  datatype Lexeme =
    | Punct(sym: Symbol)
    | Quoted(pieces: seq<StrPiece>)
    | Numeral(n: Number)
    | Word(kind: Kind)

  predicate IsPunct(sym: Symbol) {
    !sym.TextSym? && !sym.ScalarSym?
  }

  function PunctByte(sym: Symbol): Byte {
    match sym
    case LBrace => LCURB
    case RBrace => RCURB
    case LBracket => LSQRB
    case RBracket => RSQRB
    case CommaSym => COMMA
    case _ => COLON
  }

  function WordText(kind: Kind): Bytes {
    if kind == TrueKind then TRUE_TEXT else if kind == FalseKind then FALSE_TEXT else NULL_TEXT
  }

  predicate IsLexeme(l: Lexeme) {
    match l
    case Punct(sym) => IsPunct(sym)
    case Quoted(ps) => IsString(ps)
    case Numeral(n) => IsNumber(n)
    case Word(kind) => IsWordKind(kind)
  }

  function LexemeText(l: Lexeme): Bytes {
    match l
    case Punct(sym) => [PunctByte(sym)]
    case Quoted(ps) => [QUOTE] + StringText(ps) + [QUOTE]
    case Numeral(n) => NumberText(n)
    case Word(kind) => WordText(kind)
  }

  /** The symbol a lexeme is, decoded. */
  function LexemeSymbol(l: Lexeme): Symbol
    requires IsLexeme(l)
  {
    match l
    case Punct(sym) => sym
    case Quoted(ps) => TextSym(StringData(ps))
    case Numeral(n) => ScalarSym(NumberKind(n), NumberText(n))
    case Word(kind) => ScalarSym(kind, [])
  }

  // What may stand between lexemes.

  datatype Filler =
    | Blank(ch: Byte)
    | CComment(body: Bytes)
    | YamlComment(body: Bytes)

  predicate IsBlank(ch: Byte) {
    ch == SPACE || ch == TAB || ch == LF || ch == CR
  }

  /** No control characters other than white space, and loose UTF-8, as everywhere in a text. */
  predicate IsCommentBody(b: Bytes) {
    IsLooseUtf8(b) && forall i :: 0 <= i < |b| ==> b[i] >= SPACE || IsBlank(b[i])
  }

  predicate IsFiller(cfg: Config, f: Filler) {
    match f
    case Blank(ch) => IsBlank(ch)
    case CComment(b) =>
      cfg.allowC && IsCommentBody(b) && forall i :: 0 <= i < |b| - 1 ==> !(b[i] == STAR && b[i + 1] == SLASH)
    case YamlComment(b) =>
      cfg.allowYaml && IsCommentBody(b) && LF !in b
  }

  function FillerText(f: Filler): Bytes {
    match f
    case Blank(ch) => [ch]
    case CComment(b) => [SLASH, STAR] + b + [STAR, SLASH]
    case YamlComment(b) => [HASH] + b + [LF]
  }

  predicate AreFillers(cfg: Config, fs: seq<Filler>) {
    forall i :: 0 <= i < |fs| ==> IsFiller(cfg, fs[i])
  }

  function FillersText(fs: seq<Filler>): Bytes {
    if fs == [] then [] else FillerText(fs[0]) + FillersText(fs[1..])
  }

  // Documents.

  /** A lexeme with what stands before it. */
  datatype Piece = Piece(pre: seq<Filler>, lexeme: Lexeme)

  predicate IsPiece(cfg: Config, p: Piece) {
    AreFillers(cfg, p.pre) && IsLexeme(p.lexeme)
  }

  predicate ArePieces(cfg: Config, ps: seq<Piece>) {
    forall i :: 0 <= i < |ps| ==> IsPiece(cfg, ps[i])
  }

  predicate AreLexemes(ps: seq<Piece>) {
    forall i :: 0 <= i < |ps| ==> IsLexeme(ps[i].lexeme)
  }

  function PiecesText(ps: seq<Piece>): Bytes {
    if ps == [] then [] else FillersText(ps[0].pre) + LexemeText(ps[0].lexeme) + PiecesText(ps[1..])
  }

  function PiecesSymbols(ps: seq<Piece>): seq<Symbol>
    requires AreLexemes(ps)
  {
    if ps == [] then [] else [LexemeSymbol(ps[0].lexeme)] + PiecesSymbols(ps[1..])
  }

  predicate HasExponent(l: Lexeme) {
    l.Numeral? && l.n.exponent.Exponent?
  }

  /** A comment may not follow an exponent at once: row X3 of the table has no entry for it. */
  predicate MayFollow(afterExponent: bool, pre: seq<Filler>) {
    afterExponent && pre != [] ==> pre[0].Blank?
  }

  predicate Separated(afterExponent: bool, ps: seq<Piece>)
    decreases |ps|
  {
    ps == [] || (MayFollow(afterExponent, ps[0].pre) && Separated(HasExponent(ps[0].lexeme), ps[1..]))
  }

  datatype Document = Document(pieces: seq<Piece>, trail: seq<Filler>)

  /** `d` spells the array or object `v`. */
  predicate Spells(cfg: Config, d: Document, v: Json) {
    && ArePieces(cfg, d.pieces) && AreLexemes(d.pieces)
    && AreFillers(cfg, d.trail)
    && Separated(false, d.pieces)
    && IsJson(v) && !v.Leaf?
    && PiecesSymbols(d.pieces) == Symbols(v)
  }

  function Text(d: Document): Bytes {
    PiecesText(d.pieces) + FillersText(d.trail)
  }

  /** The text is accepted: read to the end without error, back at depth 0 and outside comments. */
  predicate Accepts(cfg: Config, s: Bytes) {
    var r := Run(cfg, START, s);
    r.err == Success && r.m.state == OK && r.m.stack == []
  }
}
