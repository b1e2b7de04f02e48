/** Which error a failing call returns, and at which byte: what each code of the parser says about the text. */
module JsonErrors {
  import opened JsonTypes
  import opened JsonTables
  import opened JsonMachine
  import opened JsonSyntax
  import opened JsonUnicode
  import opened JsonText
  import opened JsonReads
  import opened JsonReadsStrings
  import opened JsonCompleteness
  import opened JsonInvariant
  import opened JsonLimits
  import opened JsonTheorems
  import opened JsonDone

  // The states that matter.

  /** A value has just been read, or a number that may end here. */
  predicate AfterValue(s: State) {
    s == OK || s == Z0 || s == I0 || s == R2 || s == X3
  }

  predicate TakesComment(s: State) {
    s == GO || s == OK || s == OB || s == KY || s == CO || s == VA || s == AR || s == Z0 || s == I0 || s == R2
  }

  /** `ch` is a bracket that may close something here. */
  predicate Closes(s: State, ch: Byte) {
    (ch == 93 && (AfterValue(s) || s == AR)) || (ch == 125 && (AfterValue(s) || s == OB))
  }

  /** `ch` is a bracket that may open something here. */
  predicate Opens(s: State, ch: Byte) {
    (ch == 91 || ch == 123) && (s == GO || s == VA || s == AR)
  }

  // Where the table has the actions that can fail.

  /** The cells that hold an action, for one action at a time. */
  predicate ActionCell(s: State, c: Class, next: Next) {
    && (next == Do(EndArray) <==> c == RSqrb && (AfterValue(s) || s == AR))
    && (next == Do(EndObject) <==> c == RCurb && (AfterValue(s) || s == OB))
    && (next == Do(CommaSeparator) <==> c == Comma && AfterValue(s))
    && (next == Do(BeginArray) <==> c == LSqrb && (s == GO || s == VA || s == AR))
    && (next == Do(BeginObject) <==> c == LCurb && (s == GO || s == VA || s == AR))
    && (next == Do(BeginCComment) <==> c == Slash && TakesComment(s))
    && (next == Do(BeginYamlComment) <==> c == Hash && TakesComment(s))
    && (next == Do(UnicodeRead) <==> s == U4 && IsHex(c))
  }

  /** None of these actions. */
  predicate CannotFail(next: Next) {
    && next != Do(EndArray) && next != Do(EndObject) && next != Do(CommaSeparator) && next != Do(BeginArray)
    && next != Do(BeginObject) && next != Do(BeginCComment) && next != Do(BeginYamlComment) && next != Do(UnicodeRead)
  }

  /** None of the classes that act in this state. */
  predicate DoesNotAct(s: State, c: Class) {
    && (AfterValue(s) || s == AR ==> c != RSqrb) && (AfterValue(s) || s == OB ==> c != RCurb) && (AfterValue(s) ==> c != Comma)
    && (s == GO || s == VA || s == AR ==> c != LSqrb && c != LCurb) && (TakesComment(s) ==> c != Slash && c != Hash)
    && (s == U4 ==> !IsHex(c))
  }

  lemma PlainCell(s: State, c: Class, next: Next)
    requires CannotFail(next) && DoesNotAct(s, c)
    ensures ActionCell(s, c, next)
  {
    hide AfterValue, TakesComment, IsHex;
  }

  /** What the shared parts of the rows hold of these. */
  lemma SharedCells(c: Class)
    ensures var next := ValueEnd(c);
      if c == RSqrb then next == Do(EndArray) else if c == RCurb then next == Do(EndObject)
      else if c == Comma then next == Do(CommaSeparator) else CannotFail(next)
    ensures CommentStart(c) == if c == Slash then Do(BeginCComment) else if c == Hash then Do(BeginYamlComment) else Reject
    ensures var next := ValueStart(c);
      if c == LSqrb then next == Do(BeginArray) else if c == LCurb then next == Do(BeginObject)
      else if c == Slash then next == Do(BeginCComment) else if c == Hash then next == Do(BeginYamlComment)
      else CannotFail(next)
  {
    SharedEnd(c);
    SharedStart(c);
    hide ValueEnd, ValueStart, CannotFail;
  }

  lemma SharedEnd(c: Class)
    ensures var next := ValueEnd(c);
      if c == RSqrb then next == Do(EndArray) else if c == RCurb then next == Do(EndObject)
      else if c == Comma then next == Do(CommaSeparator) else CannotFail(next)
  {}

  lemma SharedStart(c: Class)
    ensures var next := ValueStart(c);
      if c == LSqrb then next == Do(BeginArray) else if c == LCurb then next == Do(BeginObject)
      else if c == Slash then next == Do(BeginCComment) else if c == Hash then next == Do(BeginYamlComment)
      else CannotFail(next)
  {
    ValueStartCells(c);
  }

  /** Where a value has been read: what ends it, or a comment. */
  lemma EndCell(s: State, c: Class)
    requires AfterValue(s)
    ensures ActionCell(s, c, if s == X3 then ValueEnd(c) else ValueEndOrComment(c))
  {
    SharedCells(c);
    EndRejects(c);
    EndStates(s);
    hide ValueEnd, ValueStart, CommentStart, AfterValue, TakesComment, IsHex;
  }

  lemma EndRejects(c: Class)
    ensures c == Slash || c == Hash ==> ValueEnd(c) == Reject
  {}

  lemma EndStates(s: State)
    requires AfterValue(s)
    ensures (TakesComment(s) <==> s != X3) && s != GO && s != VA && s != AR && s != OB && s != U4
  {}

  lemma StructureCells(s: State, c: Class)
    requires IsStructural(s)
    ensures ActionCell(s, c, StructureRow(s, c))
  {
    hide ActionCell;
    if s == OK {
      EndCell(s, c);
    } else if s == GO || s == VA || s == AR {
      BeginCell(s, c);
    } else {
      KeyCell(s, c);
    }
  }

  lemma BeginCell(s: State, c: Class)
    requires s == GO || s == VA || s == AR
    ensures ActionCell(s, c, StructureRow(s, c))
  {
    SharedCells(c);
    hide ValueStart, CommentStart;
  }

  lemma KeyCell(s: State, c: Class)
    requires s == OB || s == KY || s == CO
    ensures ActionCell(s, c, StructureRow(s, c))
  {
    hide ActionCell, StructureRow;
    if s == OB { ObjectCell(c); } else { CommentOnlyCell(s, c); }
  }

  lemma ObjectCell(c: Class)
    ensures ActionCell(OB, c, StructureRow(OB, c))
  {}

  lemma CommentOnlyCell(s: State, c: Class)
    requires s == KY || s == CO
    ensures ActionCell(s, c, StructureRow(s, c))
  {
    CommentOnly(s, c);
    hide StructureRow, IsHex;
  }

  lemma CommentOnly(s: State, c: Class)
    requires s == KY || s == CO
    ensures !AfterValue(s) && TakesComment(s)
    ensures if c == Slash then StructureRow(s, c) == Do(BeginCComment) else if c == Hash then StructureRow(s, c) == Do(BeginYamlComment)
      else CannotFail(StructureRow(s, c))
  {}

  lemma StringCells(s: State, c: Class)
    requires IsStringState(s)
    ensures ActionCell(s, c, StringRow(s, c))
  {
    TextStates(s);
    hide StringRow, AfterValue, TakesComment, ActionCell, CannotFail, IsHex, IsStringState, IsCommentState, DoesNotAct;
    if s == U4 && IsHex(c) {
      LastDigitCell(s, c);
    } else {
      StringPlain(s, c);
      QuietState(s, c);
      PlainCell(s, c, StringRow(s, c));
    }
  }

  lemma QuietState(s: State, c: Class)
    requires !AfterValue(s) && !TakesComment(s) && s != GO && s != VA && s != AR && s != OB && !(s == U4 && IsHex(c))
    ensures DoesNotAct(s, c)
  {
    hide AfterValue, TakesComment, IsHex;
  }

  lemma LastDigitCell(s: State, c: Class)
    requires s == U4 && IsHex(c)
    ensures ActionCell(s, c, StringRow(s, c))
  {}

  lemma StringPlain(s: State, c: Class)
    requires !(s == U4 && IsHex(c))
    ensures CannotFail(StringRow(s, c))
  {
    hide IsHex, IsEscapeLetter;
  }

  lemma TextStates(s: State)
    requires IsStringState(s) || IsCommentState(s)
    ensures !AfterValue(s) && !TakesComment(s) && s != GO && s != VA && s != AR && s != OB && (IsCommentState(s) ==> s != U4)
  {}

  lemma NumberCells(s: State, c: Class)
    requires IsNumberState(s)
    ensures ActionCell(s, c, NumberRow(s, c))
  {
    NumberStates(s);
    NumberRowIs(s, c);
    hide NumberRow, AfterValue, TakesComment, ActionCell, ValueEnd, ValueEndOrComment, IsNumberState;
    if AfterValue(s) && EndsHere(s, c) { EndCell(s, c); } else { PlainCell(s, c, NumberRow(s, c)); }
  }

  lemma NumberStates(s: State)
    requires IsNumberState(s)
    ensures (TakesComment(s) ==> AfterValue(s)) && s != GO && s != VA && s != AR && s != OB && s != U4
  {}

  /** The byte does not go on with the number. */
  predicate EndsHere(s: State, c: Class) {
    !IsDigit(c) && c != Dot && c != LowE && c != CapE
  }

  lemma NumberRowIs(s: State, c: Class)
    requires IsNumberState(s)
    ensures AfterValue(s) && EndsHere(s, c) ==> NumberRow(s, c) == if s == X3 then ValueEnd(c) else ValueEndOrComment(c)
    ensures !(AfterValue(s) && EndsHere(s, c)) ==> CannotFail(NumberRow(s, c)) && DoesNotAct(s, c)
  {
    hide NumberRow, ValueEnd, ValueEndOrComment, CannotFail, DoesNotAct, AfterValue, EndsHere, IsNumberState;
    if AfterValue(s) {
      if EndsHere(s, c) { NumberEnding(s, c); } else { NumberGoing(s, c); }
    } else {
      NumberBegun(s, c);
    }
  }

  lemma NumberEnding(s: State, c: Class)
    requires IsNumberState(s) && AfterValue(s) && EndsHere(s, c)
    ensures NumberRow(s, c) == if s == X3 then ValueEnd(c) else ValueEndOrComment(c)
  {
    hide ValueEnd, ValueEndOrComment;
  }

  lemma NumberGoing(s: State, c: Class)
    requires IsNumberState(s) && AfterValue(s) && !EndsHere(s, c)
    ensures CannotFail(NumberRow(s, c)) && DoesNotAct(s, c)
  {
    GoingStates(s);
    GoingClasses(s, c);
    GoingCell(s, c);
    hide NumberRow, AfterValue, TakesComment, IsHex, IsNumberState, EndsHere, CannotFail;
  }

  lemma GoingClasses(s: State, c: Class)
    requires !EndsHere(s, c)
    ensures c != RSqrb && c != RCurb && c != Comma && c != Slash && c != Hash
  {}

  lemma GoingCell(s: State, c: Class)
    requires IsNumberState(s) && AfterValue(s) && !EndsHere(s, c)
    ensures CannotFail(NumberRow(s, c))
  {
    GoingClasses(s, c);
    SharedEnd(c);
    SharedSigns(s, c);
    hide ValueEnd, CommentStart, IsNumberState, AfterValue;
  }

  lemma SharedSigns(s: State, c: Class)
    requires IsNumberState(s) && AfterValue(s)
    ensures s == Z0 || s == I0 || s == R2 || s == X3
    ensures c != Slash && c != Hash ==> CommentStart(c) == Reject
  {}

  lemma GoingStates(s: State)
    requires IsNumberState(s)
    ensures s != GO && s != VA && s != AR && s != OB && s != U4
  {}

  lemma NumberBegun(s: State, c: Class)
    requires IsNumberState(s) && !AfterValue(s)
    ensures CannotFail(NumberRow(s, c)) && DoesNotAct(s, c)
  {
    GoingStates(s);
    assert s == M0 || s == R1 || s == X1 || s == X2;
    assert !TakesComment(s);
    hide AfterValue, TakesComment, IsHex, IsNumberState;
  }

  lemma CommentCells(s: State, c: Class)
    requires IsCommentState(s)
    ensures ActionCell(s, c, CommentRow(s, c))
  {
    TextStates(s);
    CommentPlain(s, c);
    hide CommentRow, AfterValue, TakesComment, ActionCell, CannotFail, DoesNotAct, IsCommentState, IsStringState;
    QuietState(s, c);
    PlainCell(s, c, CommentRow(s, c));
  }

  lemma CommentPlain(s: State, c: Class)
    ensures CannotFail(CommentRow(s, c))
  {}

  lemma WordCells(s: State, c: Class)
    requires IsWordState(s)
    ensures ActionCell(s, c, WordRow(s, c))
  {
    WordStates(s);
    WordPlain(s, c);
    hide WordRow, AfterValue, TakesComment, ActionCell, CannotFail, DoesNotAct, IsWordState;
    QuietState(s, c);
    PlainCell(s, c, WordRow(s, c));
  }

  lemma WordStates(s: State)
    requires IsWordState(s)
    ensures !AfterValue(s) && !TakesComment(s) && s != GO && s != VA && s != AR && s != OB && s != U4
  {}

  lemma WordPlain(s: State, c: Class)
    ensures CannotFail(WordRow(s, c))
  {}

  lemma ActionCells(s: State, c: Class)
    requires c != ErrorClass
    ensures ActionCell(s, c, Transition(s, c))
  {
    hide StructureRow, StringRow, NumberRow, CommentRow, WordRow, ActionCell;
    StateGroups(s);
    hide IsWordState;
    if IsStructural(s) {
      StructureCells(s, c);
    } else if IsStringState(s) {
      StringCells(s, c);
    } else if IsNumberState(s) {
      NumberCells(s, c);
    } else if IsCommentState(s) {
      CommentCells(s, c);
    } else {
      WordCells(s, c);
    }
  }

  // One byte.

  /** The bytes of the classes that act, and no others. */
  lemma ActingBytes(ch: Byte)
    ensures var c := CharClass(ch);
      && (c == RSqrb <==> ch == 93) && (c == RCurb <==> ch == 125) && (c == LSqrb <==> ch == 91) && (c == LCurb <==> ch == 123)
      && (c == Comma <==> ch == 44) && (c == Slash <==> ch == 47) && (c == Hash <==> ch == 35)
      && (c == ErrorClass <==> ch < 32 && ch != 9 && ch != 10 && ch != 13)
  {}

  /** What the last four digits of an escape say, once `ch` is one of them. */
  function LastUnit(buf: Bytes, ch: Byte): nat {
    if |buf| >= 3 && IsFourHex(buf[|buf| - 3..] + [ch]) then FourHex(buf[|buf| - 3..] + [ch]) else 0
  }

  /** The error of a cell; `u` is what the last four digits say. */
  function CellError(cfg: Config, m: Machine, next: Next, u: nat): Error {
    if next == Do(EndArray) then CloseError(m.stack, ArrayMode)
    else if next == Do(EndObject) then CloseError(m.stack, ObjectMode)
    else if next == Do(BeginArray) || next == Do(BeginObject) then
      if cfg.maxNesting > 0 && |m.stack| >= cfg.maxNesting then NestingLimit else Success
    else if next == Do(CommaSeparator) then
      if m.stack == [] then CommaOutOfStructure else Success
    else if next == Do(BeginCComment) then
      if cfg.allowC then Success else CommentNotAllowed
    else if next == Do(BeginYamlComment) then
      if cfg.allowYaml then Success else CommentNotAllowed
    else if next == Do(UnicodeRead) then UnitError(m.multi, u)
    else Success
  }

  function CloseError(stack: seq<Mode>, mode: Mode): Error {
    if stack == [] then PopEmpty else if stack[|stack| - 1] == mode then Success else PopUnexpectedMode
  }

  lemma ActionError(cfg: Config, m: Machine, a: Action)
    requires a == UnicodeRead ==> HexTail(m.buf, 4)
    ensures DoAction(cfg, m, a).err == CellError(cfg, m, Do(a), if a == UnicodeRead then FourHex(m.buf[|m.buf| - 4..]) else 0)
  {
    if a == UnicodeRead {
      UnitErrors(m);
    } else if a == EndArray || a == EndObject || a == CommaSeparator {
      EndErrors(cfg, m, a);
    } else {
      OtherErrors(cfg, m, a);
    }
    hide DoAction, FourHex, HexTail, CloseError, UnitError;
  }

  lemma UnitErrors(m: Machine)
    requires HexTail(m.buf, 4)
    ensures ActUnicode(m).err == UnitError(m.multi, FourHex(m.buf[|m.buf| - 4..]))
  {
    hide FourHex, EncodeUnit, EncodePair, HexTail;
  }

  lemma EndErrors(cfg: Config, m: Machine, a: Action)
    requires a == EndArray || a == EndObject || a == CommaSeparator
    ensures DoAction(cfg, m, a).err == CellError(cfg, m, Do(a), 0)
  {
    assert DoBuffer(m).stack == m.stack;
    hide DoBuffer;
  }

  lemma OtherErrors(cfg: Config, m: Machine, a: Action)
    requires a != UnicodeRead && a != EndArray && a != EndObject && a != CommaSeparator
    ensures DoAction(cfg, m, a).err == CellError(cfg, m, Do(a), 0)
  {
    hide DoBuffer, ActUnicode, ActEndString, ActEndComment;
  }

  /** What is wrong with a UTF-16 unit, after the high surrogate `multi` or, if that is 0, by itself. */
  function UnitError(multi: nat, u: nat): Error {
    if multi != 0 && !(0xDC00 <= u < 0xE000) then MissingLowSurrogate
    else if multi == 0 && 0xDC00 <= u < 0xE000 then UnexpectedLowSurrogate
    else Success
  }

  /** The byte cannot be what it is due to be: the next of a longer character, or the first of one. */
  predicate BreaksCharacter(left: nat, ch: Byte) {
    if left > 0 then !(0x80 <= ch < 0xC0) else 0x80 <= ch < 0xC0 || ch >= 0xFE
  }

  predicate IsControl(left: nat, ch: Byte) {
    left == 0 && ch < 32 && ch != 9 && ch != 10 && ch != 13
  }

  /** The class a byte that passes these is looked up under. */
  function ClassUnder(left: nat, ch: Byte): Class {
    if left > 0 || ch >= 0x80 then Other else CharClass(ch)
  }

  /** The table has no entry for the byte. */
  predicate IsUnexpected(m: Machine, ch: Byte)
    requires ClassUnder(m.left, ch) != ErrorClass
  {
    Transition(m.state, ClassUnder(m.left, ch)) == Reject
  }

  /** The byte is kept, and there is no room for it and the terminator. */
  predicate IsTooMuch(cfg: Config, m: Machine, ch: Byte)
    requires ClassUnder(m.left, ch) != ErrorClass
  {
    BufferPolicy(m.state, ClassUnder(m.left, ch)) != Ignore && cfg.maxData > 0 && |m.buf| + 1 >= cfg.maxData
  }

  /** The reason for which a byte is refused, in the order in which they are looked for, or `Success`. */
  function Reason(cfg: Config, m: Machine, ch: Byte): Error
    requires Safe(m)
  {
    if BreaksCharacter(m.left, ch) then BadUtf8
    else if IsControl(m.left, ch) then BadChar
    else if m.left == 0 && Closes(m.state, ch) then CloseError(m.stack, if ch == 93 then ArrayMode else ObjectMode)
    else if m.left == 0 && Opens(m.state, ch) then
      if cfg.maxNesting > 0 && |m.stack| >= cfg.maxNesting then NestingLimit else Success
    else if m.left == 0 && ch == 44 && AfterValue(m.state) then
      if m.stack == [] then CommaOutOfStructure else Success
    else if m.left == 0 && (ch == 47 || ch == 35) && TakesComment(m.state) then
      if (if ch == 47 then cfg.allowC else cfg.allowYaml) then Success else CommentNotAllowed
    else if IsUnexpected(m, ch) then UnexpectedChar
    else if IsTooMuch(cfg, m, ch) then DataLimit
    else if m.state == U4 && IsHexByte(ch) then UnitError(m.multi, LastUnit(m.buf, ch))
    else Success
  }

  lemma AdvanceError(cfg: Config, m: Machine, ch: Byte, c: Class)
    requires c != ErrorClass && Safe(m) && (IsHex(c) ==> IsHexByte(ch))
    ensures var next := Transition(m.state, c); var o := Store(cfg, m, ch, BufferPolicy(m.state, c));
      && (next == Do(UnicodeRead) && o.err == Success ==> HexTail(o.m.buf, 4))
      && Advance(cfg, m, ch, c).err ==
        (if next == Reject then UnexpectedChar else if o.err != Success then o.err
         else if next.Do? then DoAction(cfg, o.m, next.action).err else Success)
  {
    hide Transition, BufferPolicy, DoAction, HexTail, Store;
    StoreKeepsDigits(cfg, m, ch, c);
  }

  lemma StoreError(cfg: Config, m: Machine, ch: Byte, p: Policy)
    ensures var o := Store(cfg, m, ch, p);
      && o.err == (if p != Ignore && cfg.maxData > 0 && |m.buf| + 1 >= cfg.maxData then DataLimit else Success)
      && o.m.stack == m.stack && o.m.multi == m.multi && (o.err == Success && p == Append ==> o.m.buf == m.buf + [ch])
  {
    hide Unescape;
  }

  lemma FirstCheck(cfg: Config, m: Machine, ch: Byte)
    requires Safe(m)
    ensures BreaksCharacter(m.left, ch) ==> Step(cfg, m, ch).err == BadUtf8
    ensures !BreaksCharacter(m.left, ch) && IsControl(m.left, ch) ==> Step(cfg, m, ch).err == BadChar
  {
    ActingBytes(ch);
    hide CharClass, Advance;
  }

  lemma ReadsOn(cfg: Config, m: Machine, ch: Byte)
    requires Safe(m) && !BreaksCharacter(m.left, ch) && !IsControl(m.left, ch)
    ensures var m' := m.(left := if m.left > 0 then m.left - 1 else Utf8Header(ch)); var c := ClassUnder(m.left, ch);
      && c != ErrorClass && (IsHex(c) ==> IsHexByte(ch)) && Safe(m')
      && Step(cfg, m, ch) == Advance(cfg, m', ch, c)
  {
    ActingBytes(ch);
    HexClass(ch);
    hide CharClass, Advance, IsHexByte;
  }

  /** Where which bytes act. */
  predicate ByteCell(left: nat, s: State, ch: Byte, next: Next) {
    && (next == Do(EndArray) <==> left == 0 && ch == 93 && Closes(s, ch))
    && (next == Do(EndObject) <==> left == 0 && ch == 125 && Closes(s, ch))
    && (next == Do(CommaSeparator) <==> left == 0 && ch == 44 && AfterValue(s))
    && (next == Do(BeginArray) <==> left == 0 && ch == 91 && Opens(s, ch))
    && (next == Do(BeginObject) <==> left == 0 && ch == 123 && Opens(s, ch))
    && (next == Do(BeginCComment) <==> left == 0 && ch == 47 && TakesComment(s))
    && (next == Do(BeginYamlComment) <==> left == 0 && ch == 35 && TakesComment(s))
    && (next == Do(UnicodeRead) <==> left == 0 && s == U4 && IsHexByte(ch))
  }

  lemma ByteCells(left: nat, s: State, ch: Byte)
    requires !BreaksCharacter(left, ch) && !IsControl(left, ch)
    ensures ClassUnder(left, ch) != ErrorClass
    ensures ByteCell(left, s, ch, Transition(s, ClassUnder(left, ch)))
  {
    var c := ClassUnder(left, ch);
    ActingUnder(left, ch);
    hide ClassUnder, Transition, BreaksCharacter, IsControl, ActionCell, ByteCell;
    assert c != ErrorClass by { NoError(left, ch, c); }
    hide ActsAs;
    ActionCells(s, c);
    CellOfByte(left, s, ch, c, Transition(s, c));
  }

  /** The classes that act are those of these bytes, when they begin a character. */
  predicate ActsAs(left: nat, ch: Byte, c: Class) {
    && c != ErrorClass && (IsHex(c) <==> left == 0 && IsHexByte(ch))
    && (c == RSqrb <==> left == 0 && ch == 93) && (c == RCurb <==> left == 0 && ch == 125)
    && (c == LSqrb <==> left == 0 && ch == 91) && (c == LCurb <==> left == 0 && ch == 123)
    && (c == Comma <==> left == 0 && ch == 44) && (c == Slash <==> left == 0 && ch == 47) && (c == Hash <==> left == 0 && ch == 35)
  }

  lemma NoError(left: nat, ch: Byte, c: Class)
    requires ActsAs(left, ch, c)
    ensures c != ErrorClass
  {}

  lemma CellOfByte(left: nat, s: State, ch: Byte, c: Class, next: Next)
    requires ActsAs(left, ch, c) && ActionCell(s, c, next)
    ensures ByteCell(left, s, ch, next)
  {
    hide IsHex, IsHexByte, AfterValue, TakesComment;
  }

  lemma ActingUnder(left: nat, ch: Byte)
    requires !BreaksCharacter(left, ch) && !IsControl(left, ch)
    ensures ActsAs(left, ch, ClassUnder(left, ch))
  {
    HexUnder(left, ch);
    ActingBytes(ch);
    hide CharClass, IsHex, IsHexByte;
  }

  lemma HexUnder(left: nat, ch: Byte)
    requires !BreaksCharacter(left, ch)
    ensures IsHex(ClassUnder(left, ch)) <==> left == 0 && IsHexByte(ch)
  {
    HexClass(ch);
    hide CharClass;
  }

  /** The reason, from what the cell holds. */
  lemma CellReason(cfg: Config, m: Machine, ch: Byte)
    requires Safe(m) && !BreaksCharacter(m.left, ch) && !IsControl(m.left, ch)
    ensures ClassUnder(m.left, ch) != ErrorClass
    ensures var next := Transition(m.state, ClassUnder(m.left, ch));
      Reason(cfg, m, ch) ==
        if next == Reject then UnexpectedChar
        else if IsTooMuch(cfg, m, ch) then DataLimit
        else CellError(cfg, m, next, LastUnit(m.buf, ch))
  {
    ByteCells(m.left, m.state, ch);
    QuietCells(cfg, m, ch);
    if m.left > 0 { NoHexInCharacter(m.left, ch); }
    hide ClassUnder, Transition, BufferPolicy, LastUnit, HexTail, IsHexByte, CloseError, UnitError;
    hide AfterValue, TakesComment, BreaksCharacter, IsControl, IsTooMuch;
  }

  lemma NoHexInCharacter(left: nat, ch: Byte)
    requires !BreaksCharacter(left, ch) && left > 0
    ensures !IsHexByte(ch)
  {}

  /** What acts is not kept, apart from the last digit of an escape. */
  lemma QuietCells(cfg: Config, m: Machine, ch: Byte)
    requires ClassUnder(m.left, ch) != ErrorClass
    ensures var next := Transition(m.state, ClassUnder(m.left, ch));
      !CannotFail(next) && next != Do(UnicodeRead) ==> !IsTooMuch(cfg, m, ch)
  {
    StoringCells(m.state, ClassUnder(m.left, ch));
    hide Transition, BufferPolicy, ClassUnder;
  }

  lemma ReadReason(cfg: Config, m: Machine, ch: Byte)
    requires Safe(m) && !BreaksCharacter(m.left, ch) && !IsControl(m.left, ch)
    ensures Step(cfg, m, ch).err == Reason(cfg, m, ch)
  {
    ReadsOn(cfg, m, ch);
    var c := ClassUnder(m.left, ch);
    var m' := m.(left := if m.left > 0 then m.left - 1 else Utf8Header(ch));
    hide Advance, Step, Utf8Header, Safe, ClassUnder, BreaksCharacter, IsControl, Reason, CellError;
    AdvanceReason(cfg, m', ch, c);
    CellReason(cfg, m, ch);
    hide Transition, BufferPolicy;
    SameError(cfg, m, m', Transition(m.state, c), LastUnit(m.buf, ch), LastUnit(m.buf, ch));
  }

  lemma SameError(cfg: Config, m: Machine, m': Machine, next: Next, u: nat, u': nat)
    requires m'.stack == m.stack && m'.multi == m.multi && (next == Do(UnicodeRead) ==> u == u')
    ensures CellError(cfg, m', next, u') == CellError(cfg, m, next, u)
  {
    hide CloseError, UnitError;
  }

  lemma PlainError(cfg: Config, m: Machine, next: Next, u: nat)
    requires next.Goto?
    ensures CellError(cfg, m, next, u) == Success
  {}

  lemma AdvanceReason(cfg: Config, m: Machine, ch: Byte, c: Class)
    requires c != ErrorClass && Safe(m) && (IsHex(c) ==> IsHexByte(ch))
    ensures var next, p := Transition(m.state, c), BufferPolicy(m.state, c);
      Advance(cfg, m, ch, c).err ==
        if next == Reject then UnexpectedChar
        else if p != Ignore && cfg.maxData > 0 && |m.buf| + 1 >= cfg.maxData then DataLimit
        else CellError(cfg, m, next, LastUnit(m.buf, ch))
  {
    AdvanceError(cfg, m, ch, c);
    var next, p := Transition(m.state, c), BufferPolicy(m.state, c);
    StoreError(cfg, m, ch, p);
    if next == Do(UnicodeRead) { FourthDigit(m, ch, c); }
    hide Transition, BufferPolicy, Advance, Safe, IsHex, IsHexByte, FourHex, CellError, LastUnit;
    var o := Store(cfg, m, ch, p);
    hide Store;
    if o.err == Success {
      if next.Do? {
        ActionError(cfg, o.m, next.action);
        SameError(cfg, m, o.m, next, LastUnit(m.buf, ch), if next == Do(UnicodeRead) then FourHex(o.m.buf[|o.m.buf| - 4..]) else 0);
      } else if next.Goto? {
        PlainError(cfg, m, next, LastUnit(m.buf, ch));
      }
    }
    hide DoAction;
  }

  lemma FourthDigit(m: Machine, ch: Byte, c: Class)
    requires c != ErrorClass && Safe(m) && (IsHex(c) ==> IsHexByte(ch)) && Transition(m.state, c) == Do(UnicodeRead)
    ensures BufferPolicy(m.state, c) == Append
    ensures var b := m.buf + [ch]; |b| >= 4 && IsFourHex(b[|b| - 4..]) && FourHex(b[|b| - 4..]) == LastUnit(m.buf, ch)
  {
    HexDigitsAreAppended(m.state, c);
    FourthDigitCells(m.state, c);
    hide Transition, BufferPolicy, IsHex, IsHexByte, FourHex;
    assert |m.buf| >= 3;
    var b := m.buf + [ch];
    assert b[|b| - 4..] == m.buf[|m.buf| - 3..] + [ch];
  }

  lemma HexClass(ch: Byte)
    ensures IsHex(CharClass(ch)) <==> IsHexByte(ch)
  {}

  /** Every byte is refused for its reason, and only for that. */
  lemma WhyAByteFails(cfg: Config, m: Machine, ch: Byte)
    requires Safe(m)
    ensures Step(cfg, m, ch).err == Reason(cfg, m, ch)
  {
    FirstCheck(cfg, m, ch);
    hide Step, Advance, Safe;
    if !BreaksCharacter(m.left, ch) && !IsControl(m.left, ch) { ReadReason(cfg, m, ch); }
  }

  // Texts.

  /** A text is read up to the first byte that is refused, and fails for the reason that byte is refused for. */
  lemma {:induction false} WhyATextFails(cfg: Config, m: Machine, s: Bytes)
    requires Safe(m)
    ensures var r := Run(cfg, m, s);
      r.err != Success ==>
        var before := Run(cfg, m, s[..r.processed]);
        before.err == Success && r.err == Reason(cfg, before.m, s[r.processed])
    decreases |s|
  {
    hide Step, Reason, Safe;
    if s != [] {
      WhyAByteFails(cfg, m, s[0]);
      var o := Step(cfg, m, s[0]);
      if o.err == Success {
        var r := Run(cfg, o.m, s[1..]);
        WhyATextFails(cfg, o.m, s[1..]);
        if r.err != Success { assert s[..r.processed + 1][1..] == s[1..][..r.processed]; }
      } else {
        assert s[..0] == [];
      }
    }
  }

  lemma FailsBehind(cfg: Config, m: Machine, a: Bytes, m': Machine, s: Bytes)
    requires Steps(cfg, m, a, m') && a < s && Safe(m') && Reason(cfg, m', s[|a|]) != Success
    ensures Run(cfg, m, s).err == Reason(cfg, m', s[|a|]) && Run(cfg, m, s).processed == |a|
  {
    hide Step, Reason, Safe;
    WhyAByteFails(cfg, m', s[|a|]);
    RunAppend(cfg, m, a, s[|a|..]);
    assert s == a + s[|a|..];
  }

  lemma AfterDocument(cfg: Config, s: Bytes, k: nat)
    requires k < |s| && Accepts(cfg, s[..k])
    ensures Steps(cfg, START, s[..k], Run(cfg, START, s[..k]).m)
    ensures var m := Run(cfg, START, s[..k]).m; Safe(m) && m.state == OK && m.stack == [] && m.left == 0
  {
    hide Run;
    StepsOfRun(cfg, s[..k]);
    AtDepthZero(cfg, s[..k]);
  }

  /** Where there is nothing to close or to go on with, everything has been read. */
  lemma NothingOpen(cfg: Config, s: Bytes)
    requires Run(cfg, START, s).err == Success
    requires var m := Run(cfg, START, s).m; m.stack == [] && (AfterValue(m.state) || m.state == AR || m.state == OB)
    ensures Accepts(cfg, s)
  {
    hide Run;
    ActingStates(Run(cfg, START, s).m.state);
    AtDepthZero(cfg, s);
  }

  lemma ActingStates(s: State)
    ensures AfterValue(s) || s == AR || s == OB ==> !IsCommentState(s) && s != GO
  {}

  /** A bracket finds nothing to close exactly where it follows a whole document. */
  lemma BracketAfterDocument(cfg: Config, s: Bytes)
    ensures Run(cfg, START, s).err == PopEmpty <==> exists k :: 0 <= k < |s| && Accepts(cfg, s[..k]) && (s[k] == 93 || s[k] == 125)
  {
    hide Run, Step, Accepts;
    if Run(cfg, START, s).err == PopEmpty {
      WhyATextFails(cfg, START, s);
      var k := Run(cfg, START, s).processed;
      OnlyCloses(cfg, Run(cfg, START, s[..k]).m, s[k]);
      NothingOpen(cfg, s[..k]);
    }
    if k :| 0 <= k < |s| && Accepts(cfg, s[..k]) && (s[k] == 93 || s[k] == 125) {
      AfterDocument(cfg, s, k);
      FailsBehind(cfg, START, s[..k], Run(cfg, START, s[..k]).m, s);
    }
  }

  lemma OnlyCloses(cfg: Config, m: Machine, ch: Byte)
    requires Safe(m)
    ensures Reason(cfg, m, ch) == PopEmpty ==> m.stack == [] && Closes(m.state, ch)
    ensures Reason(cfg, m, ch) == CommaOutOfStructure ==> m.stack == [] && ch == 44 && AfterValue(m.state)
  {
    hide IsUnexpected, IsTooMuch, FourHex, Safe;
  }

  /** And so does a comma find nothing to go on with. */
  lemma CommaAfterDocument(cfg: Config, s: Bytes)
    ensures Run(cfg, START, s).err == CommaOutOfStructure <==> exists k :: 0 <= k < |s| && Accepts(cfg, s[..k]) && s[k] == 44
  {
    hide Run, Step, Accepts;
    if Run(cfg, START, s).err == CommaOutOfStructure {
      WhyATextFails(cfg, START, s);
      var k := Run(cfg, START, s).processed;
      OnlyCloses(cfg, Run(cfg, START, s[..k]).m, s[k]);
      NothingOpen(cfg, s[..k]);
    }
    if k :| 0 <= k < |s| && Accepts(cfg, s[..k]) && s[k] == 44 {
      AfterDocument(cfg, s, k);
      FailsBehind(cfg, START, s[..k], Run(cfg, START, s[..k]).m, s);
    }
  }

  // The wrong bracket.

  /** A bracket is read as one, or as part of something that goes on. */
  predicate BracketCell(c: Class, next: Next) {
    && (next.Goto? ==> next.state != OK)
    && (next.Do? ==> next == Do(if c == RSqrb then EndArray else EndObject))
  }

  lemma BracketCells(s: State, c: Class)
    requires c == RSqrb || c == RCurb
    ensures BracketCell(c, Transition(s, c))
  {
    hide StructureRow, StringRow, NumberRow, CommentRow, WordRow, BracketCell;
    BracketInStructure(s, c);
    BracketElsewhere(s, c);
  }

  lemma BracketInStructure(s: State, c: Class)
    requires c == RSqrb || c == RCurb
    ensures BracketCell(c, StructureRow(s, c))
  {}

  lemma BracketElsewhere(s: State, c: Class)
    requires c == RSqrb || c == RCurb
    ensures BracketCell(c, StringRow(s, c)) && BracketCell(c, CommentRow(s, c)) && BracketCell(c, NumberRow(s, c)) && BracketCell(c, WordRow(s, c))
  {
    BracketInText(s, c);
    BracketInScalar(s, c);
    hide BracketCell, StringRow, CommentRow, NumberRow, WordRow;
  }

  lemma BracketInText(s: State, c: Class)
    requires c == RSqrb || c == RCurb
    ensures BracketCell(c, StringRow(s, c)) && BracketCell(c, CommentRow(s, c))
  {}

  lemma BracketInScalar(s: State, c: Class)
    requires c == RSqrb || c == RCurb
    ensures BracketCell(c, NumberRow(s, c)) && BracketCell(c, WordRow(s, c))
  {}

  lemma BracketClosed(cfg: Config, m: Machine, ch: Byte)
    requires Safe(m) && (ch == 93 || ch == 125) && m.left == 0
    requires Step(cfg, m, ch).err == Success && Step(cfg, m, ch).m.state == OK
    ensures Closes(m.state, ch) && m.stack != [] && m.stack[|m.stack| - 1] == if ch == 93 then ArrayMode else ObjectMode
  {
    ActingBytes(ch);
    var c := CharClass(ch);
    BracketCells(m.state, c);
    ActionCells(m.state, c);
    WhyAByteFails(cfg, m, ch);
    if !Closes(m.state, ch) { BracketMovesOn(cfg, m, ch); }
    hide Step, Transition, CharClass, IsUnexpected, IsTooMuch, FourHex, Safe;
  }

  lemma BracketMovesOn(cfg: Config, m: Machine, ch: Byte)
    requires Safe(m) && (ch == 93 || ch == 125) && m.left == 0 && Step(cfg, m, ch).err == Success
    requires CharClass(ch) != ErrorClass && Transition(m.state, CharClass(ch)).Goto?
    ensures Step(cfg, m, ch).m.state == Transition(m.state, CharClass(ch)).state
  {
    hide CharClass, Transition, BufferPolicy, HexTail, Store;
    var p := BufferPolicy(m.state, CharClass(ch));
    StoreFields(cfg, m, ch, p);
  }

  lemma OtherBracket(cfg: Config, m: Machine, ch: Byte)
    requires Safe(m) && (ch == 93 || ch == 125) && m.left == 0 && Closes(m.state, ch)
    requires m.stack != [] && m.stack[|m.stack| - 1] == if ch == 93 then ArrayMode else ObjectMode
    ensures Reason(cfg, m, if ch == 93 then 125 else 93) == if m.state == AR || m.state == OB then UnexpectedChar else PopUnexpectedMode
  {
    EmptyCells();
    hide Transition, FourHex, Safe, CharClass, BufferPolicy;
  }

  lemma EmptyCells()
    ensures CharClass(93) == RSqrb && CharClass(125) == RCurb
    ensures Transition(AR, RCurb) == Reject && Transition(OB, RSqrb) == Reject
  {}

  /**
    The last bracket of a text exchanged for the other kind: it is of the wrong kind for what is open, or, when
    nothing is between the brackets, it cannot stand there.
   */
  lemma WrongBracket(cfg: Config, s: Bytes, ch: Byte)
    requires (ch == 93 || ch == 125) && Accepts(cfg, s + [ch])
    ensures var r := Run(cfg, START, s + [if ch == 93 then 125 else 93]); var at := Run(cfg, START, s).m.state;
      r.processed == |s| && r.err == if at == AR || at == OB then UnexpectedChar else PopUnexpectedMode
  {
    var other: Byte := if ch == 93 then 125 else 93;
    hide Run, Step, Reason, Closes, Safe;
    var m := SnocRun(cfg, s, ch);
    assert m.left == 0 by { WhyAByteFails(cfg, m, ch); NoContinuation(cfg, m, ch); }
    BracketClosed(cfg, m, ch);
    OtherBracket(cfg, m, ch);
    StepsOfRun(cfg, s);
    assert (s + [other])[|s|] == other;
    FailsBehind(cfg, START, s, m, s + [other]);
  }

  lemma NoContinuation(cfg: Config, m: Machine, ch: Byte)
    requires Safe(m) && ch < 0x80 && Reason(cfg, m, ch) == Success
    ensures m.left == 0
  {
    hide IsUnexpected, IsTooMuch, FourHex, Safe;
  }

  // Surrogates.

  /** A low surrogate by itself is refused at its last digit. */
  lemma LoneLowSurrogate(cfg: Config, m: Machine, d: Bytes)
    requires cfg.Unlimited() && InString(m) && IsFourHex(d) && 0xDC00 <= FourHex(d) < 0xE000
    ensures var r := Run(cfg, m, [92, 117] + d); r.err == UnexpectedLowSurrogate && r.processed == 5
  {
    hide Step, Steps, FourHex, EncodeUnit, EncodePair, InString;
    LastDigitFails(cfg, m, m, [], d) by { ReadNothingInString(cfg, m); }
    assert [] + [92, 117] + d == [92, 117] + d;
  }

  /** So is an escape behind a high surrogate that is no low one. */
  lemma BrokenPair(cfg: Config, m: Machine, h: Bytes, d: Bytes)
    requires cfg.Unlimited() && InString(m) && IsFourHex(h) && IsFourHex(d)
    requires 0xD800 <= FourHex(h) < 0xDC00 && !(0xDC00 <= FourHex(d) < 0xE000)
    ensures var r := Run(cfg, m, [92, 117] + h + [92, 117] + d); r.err == MissingLowSurrogate && r.processed == 11
  {
    hide Step, Steps, FourHex, EncodeUnit, EncodePair;
    var m1 := m.(multi := FourHex(h), state := D1);
    ReadBackslashU(cfg, m);
    ReadFourDigits(cfg, m.(state := U1), h);
    StepsTrans(cfg, m, [BACKSLASH, LOWER_U], m.(state := U1), h, m1);
    LastDigitFails(cfg, m, m1, [92, 117] + h, d);
  }

  lemma ReadNothingInString(cfg: Config, m: Machine)
    requires InString(m)
    ensures Steps(cfg, m, [], m) && m.left == 0 && m.state == ST && m.multi == 0
  {}

  lemma LastDigitFails(cfg: Config, m: Machine, m1: Machine, a: Bytes, d: Bytes)
    requires cfg.Unlimited() && Steps(cfg, m, a, m1) && Safe(m1) && m1.left == 0 && (m1.state == ST || m1.state == D1) && IsFourHex(d)
    requires AfterUnit(m1.(state := U1), FourHex(d)).err != Success
    ensures var r := Run(cfg, m, a + [92, 117] + d);
      r.err == AfterUnit(m1.(state := U1), FourHex(d)).err && r.processed == |a| + 5
  {
    hide Step, Steps, FourHex, AfterUnit, Safe;
    var m2 := m1.(state := U1);
    var m3 := Stored(m2, d[..3], U4, m2.kind);
    ReadBackslashU(cfg, m1);
    ReadThreeDigits(cfg, m2, d);
    StepFourthDigit(cfg, m2, d);
    StepsTrans(cfg, m, a, m1, [BACKSLASH, LOWER_U], m2);
    StepsTrans(cfg, m, a + [BACKSLASH, LOWER_U], m2, d[..3], m3);
    WhyAByteFails(cfg, m3, d[3]);
    hide Reason;
    var all := a + [92, 117] + d;
    assert all[..|a| + 5] == a + [BACKSLASH, LOWER_U] + d[..3] && all[|a| + 5] == d[3];
    assert a + [BACKSLASH, LOWER_U] + d[..3] < all;
    FailsBehind(cfg, m, a + [BACKSLASH, LOWER_U] + d[..3], m3, all);
  }
}
