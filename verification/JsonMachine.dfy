/**
  The parser of ctcpsvr/json.cpp as a function on values: what one byte does (`Step`) and what a
  text does (`Run`). The class in JsonParser.dfy, which works in place on its arrays, is proved
  against these functions.
 */
module JsonMachine {
  import opened JsonTypes
  import opened JsonTables

  /**
    The fields of `json_parser`. `stack` and `buf` are the used parts of the two arrays, and
    `events` is the list of the callback's arguments so far.
   */
  datatype Machine = Machine(
    state: State,
    save: State,
    expectingKey: bool,
    left: nat,
    multi: nat,
    kind: Kind,
    stack: seq<Mode>,
    buf: Bytes,
    events: seq<Event>)

  /** What a function of the parser leaves behind and returns. */
  datatype Outcome = Outcome(m: Machine, err: Error)

  const START: Machine := Machine(GO, GO, false, 0, 0, NoKind, [], [], [])

  /** The buffer ends in as many hexadecimal digits as the unicode states rely on. */
  predicate Safe(m: Machine) {
    HexTail(m.buf, HexNeed(m.state))
  }

  function HexNeed(s: State): nat {
    match s case U2 => 1 case U3 => 2 case U4 => 3 case _ => 0
  }

  /** The cells through which a unicode escape is read. */
  predicate ReadsHexDigit(next: Next) {
    (next.Goto? && HexNeed(next.state) > 0) || next == Do(UnicodeRead)
  }

  /** Into a unicode state, and into its action, the table leads only with a digit it appends. */
  lemma HexDigitsAreAppended(s: State, c: Class)
    requires c != ErrorClass && ReadsHexDigit(Transition(s, c))
    ensures IsHex(c) && BufferPolicy(s, c) == Append
    ensures HexNeed(s) + 1 == if Transition(s, c).Goto? then HexNeed(Transition(s, c).state) else 4
  {
    NoDigitInStructure(s, c);
    NoDigitInNumber(s, c);
    NoDigitInWord(s, c);
    NoDigitInComment(s, c);
    OnlyUnicodeRowsReadDigits(s, c);
    hide StructureRow, NumberRow, WordRow, CommentRow;
  }

  lemma NoDigitInShared(c: Class)
    ensures !ReadsHexDigit(CommentStart(c)) && !ReadsHexDigit(ValueEnd(c)) && !ReadsHexDigit(ValueStart(c))
  {}

  lemma NoDigitInStructure(s: State, c: Class)
    ensures !ReadsHexDigit(StructureRow(s, c))
  {
    NoDigitInShared(c);
    hide CommentStart, ValueEnd, ValueStart, IsWhite;
  }

  lemma NumberGoesOn(s: State, c: Class)
    ensures var next := NumberRow(s, c);
      (next.Goto? ==> IsNumberState(next.state) || next.state == OK) && next != Do(UnicodeRead)
  {
    SharedLeavesNumber(c);
    hide CommentStart, ValueEnd, ValueEndOrComment, IsDigit, IsExponentMark;
  }

  predicate LeavesNumber(next: Next) {
    (next.Goto? ==> next.state == OK) && next != Do(UnicodeRead)
  }

  lemma SharedLeavesNumber(c: Class)
    ensures LeavesNumber(ValueEnd(c)) && LeavesNumber(ValueEndOrComment(c))
  {}

  lemma NoDigitInNumber(s: State, c: Class)
    ensures !ReadsHexDigit(NumberRow(s, c))
  {
    NumberGoesOn(s, c);
    hide NumberRow;
  }

  lemma NoDigitInWord(s: State, c: Class)
    ensures !ReadsHexDigit(WordRow(s, c))
  {}

  lemma NoDigitInComment(s: State, c: Class)
    ensures !ReadsHexDigit(CommentRow(s, c))
  {}

  lemma OnlyUnicodeRowsReadDigits(s: State, c: Class)
    ensures ReadsHexDigit(StringRow(s, c)) ==> IsHex(c) && (s == U1 || s == U2 || s == U3 || s == U4)
  {
    OtherStringRows(s, c);
    hide IsEscapeLetter;
  }

  lemma OtherStringRows(s: State, c: Class)
    ensures s == ST || s == E0 || s == D1 || s == D2 ==> !ReadsHexDigit(StringRow(s, c))
  {}

  predicate HexTail(buf: Bytes, n: nat) {
    n <= |buf| && forall i :: |buf| - n <= i < |buf| ==> IsHexByte(buf[i])
  }

  function StatePush(cfg: Config, m: Machine, mode: Mode): Outcome {
    if cfg.maxNesting > 0 && |m.stack| >= cfg.maxNesting
    then Outcome(m, NestingLimit)
    else Outcome(m.(stack := m.stack + [mode]), Success)
  }

  function StatePop(m: Machine, mode: Mode): Outcome {
    if m.stack == [] then Outcome(m, PopEmpty)
    else
      var m' := m.(stack := m.stack[..|m.stack| - 1]);
      Outcome(m', if m.stack[|m.stack| - 1] != mode then PopUnexpectedMode else Success)
  }

  function BufferPush(cfg: Config, m: Machine, ch: Byte): Outcome {
    if cfg.maxData > 0 && |m.buf| + 1 >= cfg.maxData
    then Outcome(m, DataLimit)
    else Outcome(m.(buf := m.buf + [ch]), Success)
  }

  /** `buffer_push_escape`: the byte an escape letter stands for. */
  function Unescape(ch: Byte): Byte {
    if ch == 98 then 8 else if ch == 102 then 12 else if ch == 110 then 10
    else if ch == 114 then 13 else if ch == 116 then 9
    else if ch == 34 || ch == 47 || ch == 92 then ch
    else 0
  }

  function Emit(m: Machine, kind: Kind, data: Bytes): Machine {
    m.(events := m.events + [Event(kind, data)])
  }

  /** `do_buffer` reports these types, which are set when the value starts, once it is over. */
  predicate IsPending(kind: Kind) {
    kind in {KeyKind, StringKind, FloatKind, IntKind, NullKind, TrueKind, FalseKind}
  }

  function DoBuffer(m: Machine): Machine {
    (if IsPending(m.kind) then Emit(m, m.kind, m.buf) else m).(buf := [])
  }

  predicate IsHighSurrogate(u: nat) { 0xD800 <= u < 0xDC00 }

  predicate IsLowSurrogate(u: nat) { 0xDC00 <= u < 0xE000 }

  function FourHex(b: Bytes): (u: nat)
    requires |b| == 4 && forall i :: 0 <= i < 4 ==> IsHexByte(b[i])
    ensures u < 0x10000
  {
    Hex(b[0]) * 0x1000 + Hex(b[1]) * 0x100 + Hex(b[2]) * 0x10 + Hex(b[3])
  }

  /** The bytes `decode_unicode_char` writes for one UTF-16 unit that is not a surrogate. */
  function EncodeUnit(u: nat): Bytes
    requires u < 0x10000
  {
    if u < 0x80 then [u]
    else if u < 0x800 then [u / 0x40 + 0xC0, u % 0x40 + 0x80]
    else [u / 0x1000 + 0xE0, u / 0x40 % 0x40 + 0x80, u % 0x40 + 0x80]
  }

  /** The bytes `decode_unicode_char` writes for a surrogate pair. */
  function EncodePair(high: nat, low: nat): Bytes {
    var u := 0x10000 + high % 0x400 * 0x400 + low % 0x400;
    [u / 0x40000 + 0xF0, u / 0x1000 % 0x40 + 0x80, u / 0x40 % 0x40 + 0x80, u % 0x40 + 0x80]
  }

  function DecodeUnicode(m: Machine): Outcome
    requires HexTail(m.buf, 4)
  {
    var start := |m.buf| - 4;
    var u := FourHex(m.buf[start..]);
    var m' := m.(buf := m.buf[..start]);
    if m.multi != 0 then
      if !IsLowSurrogate(u) then Outcome(m', MissingLowSurrogate)
      else Outcome(m'.(buf := m'.buf + EncodePair(m.multi, u), multi := 0), Success)
    else if IsLowSurrogate(u) then Outcome(m', UnexpectedLowSurrogate)
    else if IsHighSurrogate(u) then Outcome(m'.(multi := u), Success)
    else Outcome(m'.(buf := m'.buf + EncodeUnit(u)), Success)
  }

  // The actions, in the order of `actions_map`, before `do_action` sets the state and the type.

  function ActComma(m: Machine): Outcome {
    if m.stack == [] then Outcome(m, CommaOutOfStructure)
    else if m.stack[|m.stack| - 1] == ObjectMode then Outcome(m.(expectingKey := true, state := KY), Success)
    else Outcome(m.(state := VA), Success)
  }

  function ActBegin(cfg: Config, m: Machine, mode: Mode): Outcome {
    var o := StatePush(cfg, Emit(m, if mode == ObjectMode then ObjectBegin else ArrayBegin, []), mode);
    if o.err == Success && mode == ObjectMode then Outcome(o.m.(expectingKey := true), Success) else o
  }

  function ActEnd(m: Machine, mode: Mode): Outcome {
    var o := StatePop(m, mode);
    if o.err != Success then o
    else if mode == ObjectMode then Outcome(Emit(o.m, ObjectEnd, []).(expectingKey := false), Success)
    else Outcome(Emit(o.m, ArrayEnd, []), Success)
  }

  function ActComment(m: Machine, allowed: bool): Outcome {
    if allowed then Outcome(m.(save := m.state), Success) else Outcome(m, CommentNotAllowed)
  }

  function ActEndComment(m: Machine): Machine {
    m.(state := if IsStructural(m.save) then m.save else OK)
  }

  function ActEndString(m: Machine): Machine {
    Emit(m, if m.expectingKey then KeyKind else StringKind, m.buf)
      .(buf := [], state := if m.expectingKey then CO else OK, expectingKey := false)
  }

  function ActUnicode(m: Machine): Outcome
    requires HexTail(m.buf, 4)
  {
    var o := DecodeUnicode(m);
    if o.err != Success then o else Outcome(o.m.(state := if o.m.multi != 0 then D1 else ST), Success)
  }

  /** The end of `do_action`: on success the action's state and type are stored. */
  function Finish(o: Outcome, state: State, kind: Kind): Outcome {
    if o.err != Success then o else Outcome(o.m.(state := state, kind := kind), Success)
  }

  function DoAction(cfg: Config, m: Machine, a: Action): (o: Outcome)
    requires a == UnicodeRead ==> HexTail(m.buf, 4)
    ensures o.err == Success ==> Safe(o.m)
  {
    match a
    case KeySeparator => Finish(Outcome(m, Success), VA, NoKind)
    case CommaSeparator => var o := ActComma(DoBuffer(m)); Finish(o, o.m.state, NoKind)
    case BeginArray => Finish(ActBegin(cfg, m, ArrayMode), AR, NoKind)
    case EndArray => Finish(ActEnd(DoBuffer(m), ArrayMode), OK, NoKind)
    case BeginObject => Finish(ActBegin(cfg, m, ObjectMode), OB, NoKind)
    case EndObject => Finish(ActEnd(DoBuffer(m), ObjectMode), OK, NoKind)
    case BeginCComment => Finish(ActComment(DoBuffer(m), cfg.allowC), C1, NoKind)
    case BeginYamlComment => Finish(ActComment(DoBuffer(m), cfg.allowYaml), Y1, NoKind)
    case EndComment => var m' := ActEndComment(m); Finish(Outcome(m', Success), m'.state, NoKind)
    case FalseWord => Finish(Outcome(m, Success), OK, FalseKind)
    case TrueWord => Finish(Outcome(m, Success), OK, TrueKind)
    case NullWord => Finish(Outcome(m, Success), OK, NullKind)
    case FloatByExponent => Finish(Outcome(m, Success), X1, FloatKind)
    case FloatByDot => Finish(Outcome(m, Success), R1, FloatKind)
    case EndString => var m' := ActEndString(m); Finish(Outcome(m', Success), m'.state, NoKind)
    case IntByMinus => Finish(Outcome(m, Success), M0, IntKind)
    case IntByZero => Finish(Outcome(m, Success), Z0, IntKind)
    case IntByDigit => Finish(Outcome(m, Success), I0, IntKind)
    case UnicodeRead => var o := ActUnicode(m); Finish(o, o.m.state, NoKind)
  }

  function Store(cfg: Config, m: Machine, ch: Byte, p: Policy): Outcome {
    match p
    case Ignore => Outcome(m, Success)
    case Append => BufferPush(cfg, m, ch)
    case Escape => BufferPush(cfg, m, Unescape(ch))
  }

  /** After the byte is stored, the buffer is as the next state or action needs it. */
  lemma StoreKeepsDigits(cfg: Config, m: Machine, ch: Byte, c: Class)
    requires c != ErrorClass && Safe(m) && (IsHex(c) ==> IsHexByte(ch))
    ensures var next := Transition(m.state, c); var o := Store(cfg, m, ch, BufferPolicy(m.state, c));
      o.err == Success ==>
        (next.Goto? ==> HexTail(o.m.buf, HexNeed(next.state))) &&
        (next == Do(UnicodeRead) ==> HexTail(o.m.buf, 4))
  {
    var next := Transition(m.state, c);
    if ReadsHexDigit(next) { HexDigitsAreAppended(m.state, c); }
    hide Transition, BufferPolicy, IsHex, IsHexByte;
  }

  /** The part of the loop of `json_parser_string` after the byte has been given its class. */
  function Advance(cfg: Config, m: Machine, ch: Byte, c: Class): (o: Outcome)
    requires c != ErrorClass && Safe(m)
    requires IsHex(c) ==> IsHexByte(ch)
    ensures o.err == Success ==> Safe(o.m)
  {
    var next := Transition(m.state, c);
    hide Transition, BufferPolicy, DoAction, HexTail, Store;
    StoreKeepsDigits(cfg, m, ch, c);
    if next == Reject then Outcome(m, UnexpectedChar)
    else
      var o := Store(cfg, m, ch, BufferPolicy(m.state, c));
      if o.err != Success then o else MoveOn(cfg, o.m, next)
  }

  /** The end of the loop: take the action of the cell, or its state. */
  function MoveOn(cfg: Config, m: Machine, next: Next): (o: Outcome)
    requires next != Reject && (next == Do(UnicodeRead) ==> HexTail(m.buf, 4))
    requires next.Goto? ==> HexTail(m.buf, HexNeed(next.state))
    ensures o.err == Success ==> Safe(o.m)
  {
    if next.Do? then DoAction(cfg, m, next.action) else Outcome(m.(state := next.state), Success)
  }

  /** One turn of the loop of `json_parser_string`. */
  function Step(cfg: Config, m: Machine, ch: Byte): (o: Outcome)
    requires Safe(m)
    ensures o.err == Success ==> Safe(o.m)
  {
    if m.left > 0 then
      if !IsContinuation(ch) then Outcome(m, BadUtf8)
      else Advance(cfg, m.(left := m.left - 1), ch, Other)
    else
      var m' := m.(left := Utf8Header(ch));
      if m'.left == 255 then Outcome(m', BadUtf8)
      else
        var c := if m'.left > 0 then Other else CharClass(ch);
        if c == ErrorClass then Outcome(m', BadChar) else Advance(cfg, m', ch, c)
  }

  /** What `json_parser_string` leaves behind, returns, and stores in `*processed`. */
  datatype Result = Result(m: Machine, err: Error, processed: nat)

  function Run(cfg: Config, m: Machine, s: Bytes): (r: Result)
    requires Safe(m)
    ensures r.err == Success ==> Safe(r.m) && r.processed == |s|
    ensures r.err != Success ==> r.processed < |s|
    decreases |s|
  {
    hide *;
    if s == [] then Result(m, Success, 0)
    else
      var o := Step(cfg, m, s[0]);
      if o.err != Success then Result(o.m, o.err, 0)
      else
        var r := Run(cfg, o.m, s[1..]);
        r.(processed := r.processed + 1)
  }

  /** `json_parser_is_done`. */
  predicate IsDone(m: Machine) {
    m.stack == [] && m.state != GO
  }

  /** `m` consumes all of `s` without error and becomes `m'`. */
  ghost predicate Steps(cfg: Config, m: Machine, s: Bytes, m': Machine) {
    Safe(m) && Run(cfg, m, s) == Result(m', Success, |s|)
  }

  /** Calling the parser on the two parts of a text, unless the first fails, is calling it on the text. */
  lemma {:induction false} RunAppend(cfg: Config, m: Machine, a: Bytes, b: Bytes)
    requires Safe(m)
    ensures var r := Run(cfg, m, a);
      Run(cfg, m, a + b) ==
      if r.err != Success then r
      else Run(cfg, r.m, b).(processed := |a| + Run(cfg, r.m, b).processed)
    decreases |a|
  {
    hide Step, Safe;
    if a == [] {
      assert a + b == b;
    } else {
      assert (a + b)[1..] == a[1..] + b;
      var o := Step(cfg, m, a[0]);
      if o.err == Success {
        RunAppend(cfg, o.m, a[1..], b);
      }
    }
  }

  lemma StepsTrans(cfg: Config, m: Machine, a: Bytes, m': Machine, b: Bytes, m'': Machine)
    requires Steps(cfg, m, a, m') && Steps(cfg, m', b, m'')
    ensures Steps(cfg, m, a + b, m'')
  {
    RunAppend(cfg, m, a, b);
  }

  lemma StepsCons(cfg: Config, m: Machine, ch: Byte, m': Machine, s: Bytes, m'': Machine)
    requires Safe(m) && Step(cfg, m, ch) == Outcome(m', Success) && Steps(cfg, m', s, m'')
    ensures Steps(cfg, m, [ch] + s, m'')
  {
    assert ([ch] + s)[1..] == s;
  }

  // Limits only make a parser fail: where it does not, it does as one without limits.

  lemma StoreWithoutLimits(cfg: Config, m: Machine, ch: Byte, p: Policy)
    requires Store(cfg, m, ch, p).err == Success
    ensures Store(cfg.WithoutLimits(), m, ch, p) == Store(cfg, m, ch, p)
  {}

  lemma ActionWithoutLimits(cfg: Config, m: Machine, a: Action)
    requires (a == UnicodeRead ==> HexTail(m.buf, 4)) && DoAction(cfg, m, a).err == Success
    ensures DoAction(cfg.WithoutLimits(), m, a) == DoAction(cfg, m, a)
  {
    hide ActUnicode, DoBuffer, HexTail, ActEndString, ActEndComment, ActEnd, ActComma;
  }

  lemma AdvanceWithoutLimits(cfg: Config, m: Machine, ch: Byte, c: Class)
    requires c != ErrorClass && Safe(m) && (IsHex(c) ==> IsHexByte(ch)) && Advance(cfg, m, ch, c).err == Success
    ensures Advance(cfg.WithoutLimits(), m, ch, c) == Advance(cfg, m, ch, c)
  {
    hide Transition, BufferPolicy, DoAction, Store, HexTail;
    StoreKeepsDigits(cfg, m, ch, c);
    StoreWithoutLimits(cfg, m, ch, BufferPolicy(m.state, c));
    var next := Transition(m.state, c);
    if next.Do? { ActionWithoutLimits(cfg, Store(cfg, m, ch, BufferPolicy(m.state, c)).m, next.action); }
  }

  lemma StepWithoutLimits(cfg: Config, m: Machine, ch: Byte)
    requires Safe(m) && Step(cfg, m, ch).err == Success
    ensures Step(cfg.WithoutLimits(), m, ch) == Step(cfg, m, ch)
  {
    hide Advance;
    var m' := m.(left := if m.left > 0 then m.left - 1 else Utf8Header(ch));
    AdvanceWithoutLimits(cfg, m', ch, if m.left > 0 || m'.left > 0 then Other else CharClass(ch));
  }

  lemma {:induction false} RunWithoutLimits(cfg: Config, m: Machine, s: Bytes)
    requires Safe(m) && Run(cfg, m, s).err == Success
    ensures Run(cfg.WithoutLimits(), m, s) == Run(cfg, m, s)
    decreases |s|
  {
    hide Step, Safe;
    if s != [] {
      StepWithoutLimits(cfg, m, s[0]);
      RunWithoutLimits(cfg, Step(cfg, m, s[0]).m, s[1..]);
    }
  }
}
