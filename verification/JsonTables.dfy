/** The character classes and the transition, buffer and UTF-8 tables of ctcpsvr/json.cpp, as total functions. */
module JsonTables {
  import opened JsonTypes

  datatype Class =
    | Space | NewLine | White
    | LCurb | RCurb | LSqrb | RSqrb
    | Colon | Comma | Quote | Backs | Slash | Plus | Minus | Dot | Zero | Digit
    | LowA | LowB | LowC | LowD | LowE | LowF | LowL | LowN | LowR | LowS | LowT | LowU
    | CapABCDF | CapE
    | Other | Star | Hash
    | ErrorClass

  datatype State =
    | GO | OK | OB | KY | CO | VA | AR            // start, ok, object, key, colon, value, array
    | ST | E0 | U1 | U2 | U3 | U4                 // string, escape, unicode digits
    | M0 | Z0 | I0 | R1 | R2 | X1 | X2 | X3       // numbers
    | T1 | T2 | T3 | F1 | F2 | F3 | F4 | N1 | N2 | N3
    | C1 | C2 | C3 | Y1                           // comments
    | D1 | D2                                     // between the two halves of a surrogate pair

  datatype Action =
    | KeySeparator | CommaSeparator
    | BeginArray | EndArray | BeginObject | EndObject
    | BeginCComment | BeginYamlComment | EndComment
    | FalseWord | TrueWord | NullWord
    | FloatByExponent | FloatByDot
    | EndString
    | IntByMinus | IntByZero | IntByDigit
    | UnicodeRead

  /** One cell of the transition table. */
  datatype Next = Reject | Goto(state: State) | Do(action: Action)

  /** `character_class`; bytes from 128 up are classified by the UTF-8 tables alone. */
  function CharClass(ch: Byte): Class {
    if ch == 9 || ch == 13 then White
    else if ch == 10 then NewLine
    else if ch < 32 then ErrorClass
    else if ch == 32 then Space
    else if ch == 34 then Quote
    else if ch == 35 then Hash
    else if ch == 42 then Star
    else if ch == 43 then Plus
    else if ch == 44 then Comma
    else if ch == 45 then Minus
    else if ch == 46 then Dot
    else if ch == 47 then Slash
    else if ch == 48 then Zero
    else if 49 <= ch <= 57 then Digit
    else if ch == 58 then Colon
    else if ch == 69 then CapE
    else if 65 <= ch <= 70 then CapABCDF
    else if ch == 91 then LSqrb
    else if ch == 92 then Backs
    else if ch == 93 then RSqrb
    else if ch == 97 then LowA
    else if ch == 98 then LowB
    else if ch == 99 then LowC
    else if ch == 100 then LowD
    else if ch == 101 then LowE
    else if ch == 102 then LowF
    else if ch == 108 then LowL
    else if ch == 110 then LowN
    else if ch == 114 then LowR
    else if ch == 115 then LowS
    else if ch == 116 then LowT
    else if ch == 117 then LowU
    else if ch == 123 then LCurb
    else if ch == 125 then RCurb
    else Other
  }

  predicate IsWhite(c: Class) {
    c == Space || c == NewLine || c == White
  }

  predicate IsHex(c: Class) {
    c == Zero || c == Digit
    || c == LowA || c == LowB || c == LowC || c == LowD || c == LowE || c == LowF
    || c == CapABCDF || c == CapE
  }

  predicate IsDigit(c: Class) {
    c == Zero || c == Digit
  }

  predicate IsExponentMark(c: Class) {
    c == LowE || c == CapE
  }

  predicate IsEscapeLetter(c: Class) {
    c == Quote || c == Backs || c == Slash || c == LowB || c == LowF || c == LowN || c == LowR || c == LowT
  }

  /** The part of a row shared by the states from which a comment may start. */
  function CommentStart(c: Class): Next {
    if c == Slash then Do(BeginCComment)
    else if c == Hash then Do(BeginYamlComment)
    else Reject
  }

  /** The part of a row shared by the states in which a value is complete, comments aside. */
  function ValueEnd(c: Class): Next {
    if IsWhite(c) then Goto(OK)
    else if c == RCurb then Do(EndObject)
    else if c == RSqrb then Do(EndArray)
    else if c == Comma then Do(CommaSeparator)
    else Reject
  }

  function ValueEndOrComment(c: Class): Next {
    if ValueEnd(c) != Reject then ValueEnd(c) else CommentStart(c)
  }

  function ValueStart(c: Class): Next {
    match c
    case LCurb => Do(BeginObject)
    case LSqrb => Do(BeginArray)
    case Quote => Goto(ST)
    case Minus => Do(IntByMinus)
    case Zero => Do(IntByZero)
    case Digit => Do(IntByDigit)
    case LowF => Goto(F1)
    case LowN => Goto(N1)
    case LowT => Goto(T1)
    case _ => CommentStart(c)
  }

  function Only(c: Class, expected: Class, next: Next): Next {
    if c == expected then next else Reject
  }

  // The rows of `state_transition_table`, in its five blocks.

  function StructureRow(s: State, c: Class): Next {
    match s
    case GO =>
      if IsWhite(c) then Goto(GO)
      else if c == LCurb then Do(BeginObject)
      else if c == LSqrb then Do(BeginArray)
      else CommentStart(c)
    case OK => ValueEndOrComment(c)
    case OB =>
      if IsWhite(c) then Goto(OB)
      else if c == RCurb then Do(EndObject)
      else if c == Quote then Goto(ST)
      else CommentStart(c)
    case KY =>
      if IsWhite(c) then Goto(KY)
      else if c == Quote then Goto(ST)
      else CommentStart(c)
    case CO =>
      if IsWhite(c) then Goto(CO)
      else if c == Colon then Do(KeySeparator)
      else CommentStart(c)
    case VA =>
      if IsWhite(c) then Goto(VA) else ValueStart(c)
    case AR =>
      if IsWhite(c) then Goto(AR)
      else if c == RSqrb then Do(EndArray)
      else ValueStart(c)
    case _ => Reject
  }

  function StringRow(s: State, c: Class): Next {
    match s
    case ST =>
      if c == NewLine || c == White then Reject
      else if c == Quote then Do(EndString)
      else if c == Backs then Goto(E0)
      else Goto(ST)
    case E0 =>
      if c == LowU then Goto(U1) else if IsEscapeLetter(c) then Goto(ST) else Reject
    case U1 => if IsHex(c) then Goto(U2) else Reject
    case U2 => if IsHex(c) then Goto(U3) else Reject
    case U3 => if IsHex(c) then Goto(U4) else Reject
    case U4 => if IsHex(c) then Do(UnicodeRead) else Reject
    case D1 => Only(c, Backs, Goto(D2))
    case D2 => Only(c, LowU, Goto(U1))
    case _ => Reject
  }

  function NumberRow(s: State, c: Class): Next {
    match s
    case M0 =>
      if c == Zero then Goto(Z0) else if c == Digit then Goto(I0) else Reject
    case Z0 =>
      if c == Dot then Do(FloatByDot) else ValueEndOrComment(c)
    case I0 =>
      if c == Dot then Do(FloatByDot)
      else if IsDigit(c) then Goto(I0)
      else if IsExponentMark(c) then Do(FloatByExponent)
      else ValueEndOrComment(c)
    case R1 => if IsDigit(c) then Goto(R2) else Reject
    case R2 =>
      if IsDigit(c) then Goto(R2)
      else if IsExponentMark(c) then Goto(X1)
      else ValueEndOrComment(c)
    case X1 =>
      if c == Plus || c == Minus then Goto(X2) else if IsDigit(c) then Goto(X3) else Reject
    case X2 => if IsDigit(c) then Goto(X3) else Reject
    case X3 => if IsDigit(c) then Goto(X3) else ValueEnd(c)
    case _ => Reject
  }

  function WordRow(s: State, c: Class): Next {
    match s
    case T1 => Only(c, LowR, Goto(T2))
    case T2 => Only(c, LowU, Goto(T3))
    case T3 => Only(c, LowE, Do(TrueWord))
    case F1 => Only(c, LowA, Goto(F2))
    case F2 => Only(c, LowL, Goto(F3))
    case F3 => Only(c, LowS, Goto(F4))
    case F4 => Only(c, LowE, Do(FalseWord))
    case N1 => Only(c, LowU, Goto(N2))
    case N2 => Only(c, LowL, Goto(N3))
    case N3 => Only(c, LowL, Do(NullWord))
    case _ => Reject
  }

  function CommentRow(s: State, c: Class): Next {
    match s
    case C1 => Only(c, Star, Goto(C2))
    case C2 => if c == Star then Goto(C3) else Goto(C2)
    case C3 => if c == Slash then Do(EndComment) else if c == Star then Goto(C3) else Goto(C2)
    case Y1 => if c == NewLine then Do(EndComment) else Goto(Y1)
    case _ => Reject
  }

  /** States numbered up to `STATE__A`; a comment returns to one of these or to `OK`. */
  predicate IsStructural(s: State) {
    s == GO || s == OK || s == OB || s == KY || s == CO || s == VA || s == AR
  }

  predicate IsStringState(s: State) {
    s == ST || s == E0 || s == U1 || s == U2 || s == U3 || s == U4 || s == D1 || s == D2
  }

  predicate IsNumberState(s: State) {
    s == M0 || s == Z0 || s == I0 || s == R1 || s == R2 || s == X1 || s == X2 || s == X3
  }

  predicate IsCommentState(s: State) {
    s == C1 || s == C2 || s == C3 || s == Y1
  }

  /** `state_transition_table[s][c]`. */
  function Transition(s: State, c: Class): Next
    requires c != ErrorClass
  {
    if IsStructural(s) then StructureRow(s, c)
    else if IsStringState(s) then StringRow(s, c)
    else if IsNumberState(s) then NumberRow(s, c)
    else if IsCommentState(s) then CommentRow(s, c)
    else WordRow(s, c)
  }

  datatype Policy = Ignore | Append | Escape

  /** `buffer_policy_table[s][c]`. */
  function BufferPolicy(s: State, c: Class): Policy
    requires c != ErrorClass
  {
    match s
    case VA | AR => if c == Minus || IsDigit(c) then Append else Ignore
    case ST => if c == NewLine || c == White || c == Quote || c == Backs then Ignore else Append
    case E0 => if IsEscapeLetter(c) then Escape else Ignore
    case U1 | U2 | U3 | U4 => if IsHex(c) then Append else Ignore
    case M0 | R1 | X2 | X3 => if IsDigit(c) then Append else Ignore
    case Z0 => if c == Dot then Append else Ignore
    case I0 => if c == Dot || IsDigit(c) || IsExponentMark(c) then Append else Ignore
    case R2 => if IsDigit(c) || IsExponentMark(c) then Append else Ignore
    case X1 => if c == Plus || c == Minus || IsDigit(c) then Append else Ignore
    case _ => Ignore
  }

  /** `utf8_header_table`: how many continuation bytes follow a lead byte, 255 for none possible. */
  function Utf8Header(ch: Byte): (n: nat)
  {
    if ch < 0x80 then 0
    else if ch < 0xC0 then 255
    else if ch < 0xE0 then 1
    else if ch < 0xF0 then 2
    else if ch < 0xF8 then 3
    else if ch < 0xFC then 4
    else if ch < 0xFE then 5
    else 255
  }

  /** `utf8_continuation_table`. */
  predicate IsContinuation(ch: Byte) {
    0x80 <= ch < 0xC0
  }

  /** `hextable` on the bytes the unicode states let through. */
  predicate IsHexByte(ch: Byte) {
    48 <= ch <= 57 || 65 <= ch <= 70 || 97 <= ch <= 102
  }

  function Hex(ch: Byte): (v: nat)
    requires IsHexByte(ch)
    ensures v < 16
  {
    if ch <= 57 then ch - 48 else if ch <= 70 then ch - 55 else ch - 87
  }
}
