/**
  The parser object of ctcpsvr/json.cpp, working in place on its stack and buffer arrays. Every
  method is proved against the function of the same name in JsonMachine.dfy; the methods also show
  that no index ever leaves the arrays, whatever the limits.
 */
module JsonParser {
  import opened JsonTypes
  import opened JsonTables
  import opened JsonMachine

  const DEFAULT_STACK_SIZE := 256
  const DEFAULT_BUFFER_SIZE := 4096

  /** The entries of `actions_map` without a function to call. */
  predicate IsPlain(a: Action) {
    a in {KeySeparator, FalseWord, TrueWord, NullWord, FloatByExponent, FloatByDot, IntByMinus, IntByZero, IntByDigit}
  }

  /** The entries of `actions_map` with `dobuffer` set. */
  predicate ReportsFirst(a: Action) {
    a in {CommaSeparator, EndArray, EndObject, BeginCComment, BeginYamlComment}
  }

  class Parser {
    const config: Config
    var state: State
    var saveState: State
    var expectingKey: bool
    var utf8Left: nat
    var unicodeMulti: nat
    var kind: Kind
    var stack: array<Mode>
    var stackOffset: nat
    var buffer: array<Byte>
    var bufferOffset: nat
    var events: seq<Event>  // the callback's arguments

    /** Offsets stay inside the arrays, a byte is free for the terminator, and limited arrays do not outgrow their limit. */
    ghost predicate Valid()
      reads this, stack, buffer
    {
      && stackOffset <= stack.Length && stack.Length > 0
      && (config.maxNesting > 0 ==> stack.Length == config.maxNesting)
      && bufferOffset < buffer.Length
      && (config.maxData > 0 ==> buffer.Length <= config.maxData)
    }

    /** The value this object stands for. */
    ghost function Abs(): Machine
      reads this, stack, buffer
      requires Valid()
    {
      Machine(state, saveState, expectingKey, utf8Left, unicodeMulti, kind,
              stack[..stackOffset], buffer[..bufferOffset], events)
    }

    constructor (cfg: Config)
      ensures config == cfg && Valid() && Abs() == START
      ensures fresh(stack) && fresh(buffer)
    {
      config := cfg;
      state, saveState, expectingKey, utf8Left, unicodeMulti, kind := GO, GO, false, 0, 0, NoKind;
      var stackSize := if cfg.maxNesting > 0 then cfg.maxNesting else DEFAULT_STACK_SIZE;
      stack, stackOffset := new Mode[stackSize], 0;
      var bufferSize := if cfg.bufferInitialSize > 0 then cfg.bufferInitialSize else DEFAULT_BUFFER_SIZE;
      if cfg.maxData > 0 && bufferSize > cfg.maxData {
        bufferSize := cfg.maxData;
      }
      buffer, bufferOffset := new Byte[bufferSize], 0;
      events := [];
    }

    method StateGrow() returns (err: Error)
      requires Valid() && stackOffset == stack.Length
      modifies this`stack
      ensures Valid() && Abs() == old(Abs())
      ensures stack == old(stack) || fresh(stack)
      ensures err == if config.maxNesting > 0 then NestingLimit else Success
      ensures err == Success ==> stackOffset < stack.Length
    {
      if config.maxNesting != 0 {
        return NestingLimit;
      }
      var bigger := new Mode[stack.Length * 2];
      forall i | 0 <= i < stack.Length { bigger[i] := stack[i]; }
      stack := bigger;
      err := Success;
    }

    method StatePush(mode: Mode) returns (err: Error)
      requires Valid()
      modifies this, stack
      ensures Valid() && Outcome(Abs(), err) == JsonMachine.StatePush(config, old(Abs()), mode)
      ensures (stack == old(stack) || fresh(stack)) && buffer == old(buffer)
    {
      if stackOffset >= stack.Length {
        err := StateGrow();
        if err != Success { return; }
      }
      stack[stackOffset] := mode;
      stackOffset := stackOffset + 1;
      err := Success;
    }

    method StatePop(mode: Mode) returns (err: Error)
      requires Valid()
      modifies this`stackOffset
      ensures Valid() && Outcome(Abs(), err) == JsonMachine.StatePop(old(Abs()), mode)
    {
      if stackOffset == 0 { return PopEmpty; }
      stackOffset := stackOffset - 1;
      return if stack[stackOffset] != mode then PopUnexpectedMode else Success;
    }

    method BufferGrow() returns (err: Error)
      requires Valid() && bufferOffset + 1 == buffer.Length
      modifies this`buffer
      ensures Valid() && Abs() == old(Abs())
      ensures buffer == old(buffer) || fresh(buffer)
      ensures err == if config.maxData > 0 && bufferOffset + 1 >= config.maxData then DataLimit else Success
      ensures err == Success ==> bufferOffset + 1 < buffer.Length
    {
      var max := config.maxData;
      if max > 0 && buffer.Length == max {
        return DataLimit;
      }
      var newSize := buffer.Length * 2;
      if max > 0 && newSize > max {
        newSize := max;
      }
      var bigger := new Byte[newSize];
      forall i | 0 <= i < buffer.Length { bigger[i] := buffer[i]; }
      buffer := bigger;
      err := Success;
    }

    method BufferPush(ch: Byte) returns (err: Error)
      requires Valid()
      modifies this, buffer
      ensures Valid() && Outcome(Abs(), err) == JsonMachine.BufferPush(config, old(Abs()), ch)
      ensures (buffer == old(buffer) || fresh(buffer)) && stack == old(stack)
    {
      if bufferOffset + 1 >= buffer.Length {
        err := BufferGrow();
        if err != Success { return; }
      }
      buffer[bufferOffset] := ch;
      bufferOffset := bufferOffset + 1;
      err := Success;
    }

    /** The terminator is written just past the data, inside the buffer. */
    method DoCallbackWithBuf(k: Kind)
      requires Valid()
      modifies this`events, buffer
      ensures Valid() && Abs() == Emit(old(Abs()), k, old(Abs()).buf)
    {
      buffer[bufferOffset] := 0;
      events := events + [Event(k, buffer[..bufferOffset])];
    }

    method DoCallback(k: Kind)
      requires Valid()
      modifies this`events
      ensures Valid() && Abs() == Emit(old(Abs()), k, [])
    {
      events := events + [Event(k, [])];
    }

    method DoBuffer()
      requires Valid()
      modifies this`events, this`bufferOffset, buffer
      ensures Valid() && Abs() == JsonMachine.DoBuffer(old(Abs()))
    {
      if IsPending(kind) {
        DoCallbackWithBuf(kind);
      }
      bufferOffset := 0;
    }

    /** Overwrites the four digits with the character; never more bytes than digits. */
    method DecodeUnicodeChar() returns (err: Error)
      requires Valid() && HexTail(Abs().buf, 4)
      modifies this`bufferOffset, this`unicodeMulti, buffer
      ensures Valid() && Outcome(Abs(), err) == DecodeUnicode(old(Abs()))
      ensures bufferOffset <= old(bufferOffset)
      ensures buffer[old(bufferOffset)..] == old(buffer[bufferOffset..])
    {
      var offset := bufferOffset;
      var u := FourHex(buffer[offset - 4..offset]);
      assert buffer[..offset][offset - 4..] == buffer[offset - 4..offset];
      assert buffer[..offset][..offset - 4] == buffer[..offset - 4];
      hide FourHex, HexTail;
      bufferOffset := offset - 4;
      if unicodeMulti == 0 && u < 0x80 {
        WriteUnit(u);
        return Success;
      }
      if unicodeMulti != 0 {
        if !IsLowSurrogate(u) { return MissingLowSurrogate; }
        WritePair(u);
        unicodeMulti := 0;
        return Success;
      }
      if IsLowSurrogate(u) { return UnexpectedLowSurrogate; }
      if IsHighSurrogate(u) {
        unicodeMulti := u;
        return Success;
      }
      WriteUnit(u);
      err := Success;
    }

    method WriteUnit(u: nat)
      requires Valid() && bufferOffset + 4 < buffer.Length && u < 0x10000
      modifies this`bufferOffset, buffer
      ensures bufferOffset <= old(bufferOffset) + 4
      ensures buffer[..bufferOffset] == old(buffer[..bufferOffset]) + EncodeUnit(u)
      ensures buffer[old(bufferOffset) + 4..] == old(buffer[bufferOffset + 4..])
    {
      if u < 0x80 {
        buffer[bufferOffset] := u;
        bufferOffset := bufferOffset + 1;
      } else if u < 0x800 {
        buffer[bufferOffset] := u / 0x40 + 0xC0;
        buffer[bufferOffset + 1] := u % 0x40 + 0x80;
        bufferOffset := bufferOffset + 2;
      } else {
        buffer[bufferOffset] := u / 0x1000 + 0xE0;
        buffer[bufferOffset + 1] := u / 0x40 % 0x40 + 0x80;
        buffer[bufferOffset + 2] := u % 0x40 + 0x80;
        bufferOffset := bufferOffset + 3;
      }
    }

    method WritePair(low: nat)
      requires Valid() && bufferOffset + 4 < buffer.Length
      modifies this`bufferOffset, buffer
      ensures bufferOffset == old(bufferOffset) + 4
      ensures buffer[..bufferOffset] == old(buffer[..bufferOffset]) + EncodePair(unicodeMulti, low)
      ensures buffer[old(bufferOffset) + 4..] == old(buffer[bufferOffset + 4..])
    {
      var u := 0x10000 + unicodeMulti % 0x400 * 0x400 + low % 0x400;
      buffer[bufferOffset] := u / 0x40000 + 0xF0;
      buffer[bufferOffset + 1] := u / 0x1000 % 0x40 + 0x80;
      buffer[bufferOffset + 2] := u / 0x40 % 0x40 + 0x80;
      buffer[bufferOffset + 3] := u % 0x40 + 0x80;
      bufferOffset := bufferOffset + 4;
    }

    method BufferPushEscape(ch: Byte) returns (err: Error)
      requires Valid()
      modifies this, buffer
      ensures Valid() && Outcome(Abs(), err) == JsonMachine.BufferPush(config, old(Abs()), Unescape(ch))
      ensures (buffer == old(buffer) || fresh(buffer)) && stack == old(stack)
    {
      err := BufferPush(Unescape(ch));
    }

    method ActComma() returns (err: Error)
      requires Valid()
      modifies this`expectingKey, this`state
      ensures Valid() && Outcome(Abs(), err) == JsonMachine.ActComma(old(Abs()))
    {
      if stackOffset == 0 { return CommaOutOfStructure; }
      if stack[stackOffset - 1] == ObjectMode {
        expectingKey := true;
        state := KY;
      } else {
        state := VA;
      }
      err := Success;
    }

    method ActBegin(mode: Mode) returns (err: Error)
      requires Valid()
      modifies this, stack
      ensures Valid() && Outcome(Abs(), err) == JsonMachine.ActBegin(config, old(Abs()), mode)
      ensures (stack == old(stack) || fresh(stack)) && buffer == old(buffer)
    {
      DoCallback(if mode == ObjectMode then ObjectBegin else ArrayBegin);
      err := StatePush(mode);
      if err == Success && mode == ObjectMode {
        expectingKey := true;
      }
    }

    method ActEnd(mode: Mode) returns (err: Error)
      requires Valid()
      modifies this`stackOffset, this`events, this`expectingKey
      ensures Valid() && Outcome(Abs(), err) == JsonMachine.ActEnd(old(Abs()), mode)
    {
      err := StatePop(mode);
      if err != Success { return; }
      DoCallback(if mode == ObjectMode then ObjectEnd else ArrayEnd);
      if mode == ObjectMode {
        expectingKey := false;
      }
    }

    method ActComment(allowed: bool) returns (err: Error)
      requires Valid()
      modifies this`saveState
      ensures Valid() && Outcome(Abs(), err) == JsonMachine.ActComment(old(Abs()), allowed)
    {
      if !allowed { return CommentNotAllowed; }
      saveState := state;
      err := Success;
    }

    method ActEndComment()
      requires Valid()
      modifies this`state
      ensures Valid() && Abs() == JsonMachine.ActEndComment(old(Abs()))
    {
      state := if IsStructural(saveState) then saveState else OK;
    }

    method ActEndString()
      requires Valid()
      modifies this`events, this`bufferOffset, this`state, this`expectingKey, buffer
      ensures Valid() && Abs() == JsonMachine.ActEndString(old(Abs()))
    {
      DoCallbackWithBuf(if expectingKey then KeyKind else StringKind);
      bufferOffset := 0;
      state := if expectingKey then CO else OK;
      expectingKey := false;
    }

    method ActUnicode() returns (err: Error)
      requires Valid() && HexTail(Abs().buf, 4)
      modifies this, buffer
      ensures Valid() && Outcome(Abs(), err) == JsonMachine.ActUnicode(old(Abs()))
      ensures buffer == old(buffer) && stack == old(stack)
    {
      err := DecodeUnicodeChar();
      if err != Success { return; }
      state := if unicodeMulti != 0 then D1 else ST;
    }

    /** The actions that call nothing: `do_action` only stores their state and type. */
    method DoPlainAction(a: Action) returns (err: Error)
      requires Valid() && IsPlain(a)
      modifies this`state, this`kind
      ensures Valid() && Outcome(Abs(), err) == JsonMachine.DoAction(config, old(Abs()), a)
    {
      if a == KeySeparator { state, kind := VA, NoKind; }
      else if a == FalseWord { state, kind := OK, FalseKind; }
      else if a == TrueWord { state, kind := OK, TrueKind; }
      else if a == NullWord { state, kind := OK, NullKind; }
      else if a == FloatByExponent { state, kind := X1, FloatKind; }
      else if a == FloatByDot { state, kind := R1, FloatKind; }
      else if a == IntByMinus { state, kind := M0, IntKind; }
      else if a == IntByZero { state, kind := Z0, IntKind; }
      else { state, kind := I0, IntKind; }
      err := Success;
    }

    /** The actions that first report a pending value (`dobuffer`). */
    method DoReportingAction(a: Action) returns (err: Error)
      requires Valid() && ReportsFirst(a)
      modifies this, buffer
      ensures Valid() && Outcome(Abs(), err) == JsonMachine.DoAction(config, old(Abs()), a)
      ensures stack == old(stack) && buffer == old(buffer)
    {
      if a == EndArray || a == EndObject {
        hide JsonMachine.DoAction;
        err := DoEndingAction(a);
        return;
      }
      hide JsonMachine.DoBuffer, JsonMachine.ActComma, JsonMachine.ActEnd, JsonMachine.ActComment;
      DoBuffer();
      if a == CommaSeparator {
        err := ActComma();
      } else if a == BeginCComment {
        err := ActComment(config.allowC);
        if err == Success { state := C1; }
      } else {
        err := ActComment(config.allowYaml);
        if err == Success { state := Y1; }
      }
      if err == Success { kind := NoKind; }
    }

    method DoEndingAction(a: Action) returns (err: Error)
      requires Valid() && (a == EndArray || a == EndObject)
      modifies this, buffer
      ensures Valid() && Outcome(Abs(), err) == JsonMachine.DoAction(config, old(Abs()), a)
      ensures stack == old(stack) && buffer == old(buffer)
    {
      hide JsonMachine.DoBuffer, JsonMachine.ActEnd;
      DoBuffer();
      err := ActEnd(if a == EndArray then ArrayMode else ObjectMode);
      if err == Success {
        state := OK;
        kind := NoKind;
      }
    }

    method DoAction(a: Action) returns (err: Error)
      requires Valid() && (a == UnicodeRead ==> HexTail(Abs().buf, 4))
      modifies this, stack, buffer
      ensures Valid() && Outcome(Abs(), err) == JsonMachine.DoAction(config, old(Abs()), a)
      ensures (stack == old(stack) || fresh(stack)) && (buffer == old(buffer) || fresh(buffer))
    {
      if IsPlain(a) {
        hide JsonMachine.DoAction;
        err := DoPlainAction(a);
      } else if ReportsFirst(a) {
        hide JsonMachine.DoAction;
        err := DoReportingAction(a);
      } else {
        err := DoCallingAction(a);
      }
    }

    /** The remaining actions. */
    method DoCallingAction(a: Action) returns (err: Error)
      requires Valid() && !IsPlain(a) && !ReportsFirst(a) && (a == UnicodeRead ==> HexTail(Abs().buf, 4))
      modifies this, stack, buffer
      ensures Valid() && Outcome(Abs(), err) == JsonMachine.DoAction(config, old(Abs()), a)
      ensures (stack == old(stack) || fresh(stack)) && (buffer == old(buffer) || fresh(buffer))
    {
      hide JsonMachine.ActBegin, JsonMachine.ActEndComment, JsonMachine.ActEndString, JsonMachine.ActUnicode;
      err := Success;
      if a == BeginArray {
        err := ActBegin(ArrayMode);
        if err == Success { state := AR; }
      } else if a == BeginObject {
        err := ActBegin(ObjectMode);
        if err == Success { state := OB; }
      } else if a == EndComment {
        ActEndComment();
      } else if a == EndString {
        ActEndString();
      } else {
        err := ActUnicode();
      }
      if err == Success { kind := NoKind; }
    }

    method Store(ch: Byte, p: Policy) returns (err: Error)
      requires Valid()
      modifies this, buffer
      ensures Valid() && Outcome(Abs(), err) == JsonMachine.Store(config, old(Abs()), ch, p)
      ensures (buffer == old(buffer) || fresh(buffer)) && stack == old(stack)
    {
      match p {
        case Ignore => err := Success;
        case Append => err := BufferPush(ch);
        case Escape => err := BufferPushEscape(ch);
      }
    }

    /** One turn of the loop below. */
    method Feed(ch: Byte) returns (err: Error)
      requires Valid() && Safe(Abs())
      modifies this, stack, buffer
      ensures Valid() && Outcome(Abs(), err) == Step(config, old(Abs()), ch)
      ensures (stack == old(stack) || fresh(stack)) && (buffer == old(buffer) || fresh(buffer))
    {
      hide JsonMachine.Advance;
      var c: Class;
      if utf8Left > 0 {
        if !IsContinuation(ch) { return BadUtf8; }
        c := Other;
        utf8Left := utf8Left - 1;
      } else {
        utf8Left := Utf8Header(ch);
        if utf8Left == 255 { return BadUtf8; }
        c := if utf8Left > 0 then Other else CharClass(ch);
        if c == ErrorClass { return BadChar; }
      }
      err := Dispatch(ch, c);
    }

    method Dispatch(ch: Byte, c: Class) returns (err: Error)
      requires Valid() && Safe(Abs()) && c != ErrorClass && (IsHex(c) ==> IsHexByte(ch))
      modifies this, stack, buffer
      ensures Valid() && Outcome(Abs(), err) == Advance(config, old(Abs()), ch, c)
      ensures (stack == old(stack) || fresh(stack)) && (buffer == old(buffer) || fresh(buffer))
    {
      hide Transition, BufferPolicy, HexTail, HexNeed, IsHex, IsHexByte, JsonMachine.DoAction, JsonMachine.Store;
      StoreKeepsDigits(config, Abs(), ch, c);
      var next := Transition(state, c);
      var policy := BufferPolicy(state, c);
      if next == Reject { return UnexpectedChar; }
      err := Store(ch, policy);
      if err != Success { return; }
      hide MoveOn;
      err := Move(next);
    }

    method Move(next: Next) returns (err: Error)
      requires Valid() && next != Reject && (next == Do(UnicodeRead) ==> HexTail(Abs().buf, 4))
      requires next.Goto? ==> HexTail(Abs().buf, HexNeed(next.state))
      modifies this, stack, buffer
      ensures Valid() && Outcome(Abs(), err) == MoveOn(config, old(Abs()), next)
      ensures (stack == old(stack) || fresh(stack)) && (buffer == old(buffer) || fresh(buffer))
    {
      hide HexTail, JsonMachine.DoAction;
      if next.Do? {
        err := DoAction(next.action);
      } else {
        state := next.state;
        err := Success;
      }
    }

    /** `json_parser_string`: consumes bytes until the first error and says how many it consumed. */
    method ParserString(s: Bytes) returns (err: Error, processed: nat)
      requires Valid() && Safe(Abs())
      modifies this, stack, buffer
      ensures Valid() && Result(Abs(), err, processed) == Run(config, old(Abs()), s)
      ensures (stack == old(stack) || fresh(stack)) && (buffer == old(buffer) || fresh(buffer))
    {
      hide Step, Safe;
      ghost var start := Abs();
      err := Success;
      processed := 0;
      while processed < |s|
        invariant processed <= |s| && Valid() && Safe(Abs()) && err == Success
        invariant (stack == old(stack) || fresh(stack)) && (buffer == old(buffer) || fresh(buffer))
        invariant var r := Run(config, Abs(), s[processed..]);
          Run(config, start, s) == r.(processed := processed + r.processed)
      {
        assert s[processed..][1..] == s[processed + 1..];
        err := Feed(s[processed]);
        if err != Success { return; }
        processed := processed + 1;
      }
    }

    /** `json_parser_char`. */
    method ParserChar(ch: Byte) returns (err: Error)
      requires Valid() && Safe(Abs())
      modifies this, stack, buffer
      ensures Valid() && Outcome(Abs(), err) == Step(config, old(Abs()), ch)
      ensures (stack == old(stack) || fresh(stack)) && (buffer == old(buffer) || fresh(buffer))
    {
      hide Step, Safe;
      ghost var start := Abs();
      var processed;
      err, processed := ParserString([ch]);
      ghost var o := Step(config, start, ch);
      assert o.err == Success ==> Run(config, o.m, [ch][1..]) == Result(o.m, Success, 0);
    }

    method IsDone() returns (done: bool)
      requires Valid()
      ensures done == JsonMachine.IsDone(Abs())
    {
      done := stackOffset == 0 && state != GO;
    }
  }
}
