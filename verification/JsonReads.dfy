/**
  Completeness, bottom up: from a place between two lexemes the parser reads every filler, every
  lexeme and every document of the grammar, and reports exactly what they stand for.
 */
module JsonReads {
  import opened Options
  import opened JsonTypes
  import opened JsonTables
  import opened JsonMachine
  import opened JsonSyntax
  import opened JsonUnicode
  import opened JsonText

  /** States in which a number may be complete. */
  predicate EndsNumber(s: State) {
    s == Z0 || s == I0 || s == R2 || s == X3
  }

  /** The parser is between two lexemes; a number or word may still wait to be reported. */
  predicate Settled(m: Machine) {
    && m.left == 0 && m.multi == 0
    && m.expectingKey == (m.state == OB || m.state == KY)
    && (m.stack == [] ==> m.kind == NoKind && (m.state == GO || m.state == OK))
    && if EndsNumber(m.state) then m.kind == IntKind || m.kind == FloatKind
       else
         && IsStructural(m.state)
         && ((m.state == OK && IsScalarKind(m.kind)) || (m.kind == NoKind && m.buf == []))
         && (IsWordKind(m.kind) ==> m.buf == [])
  }

  /** The place of the automaton the parser stands for. */
  function PlaceOf(m: Machine): Place {
    Place(if EndsNumber(m.state) then OK else m.state, m.stack,
          if IsScalarKind(m.kind) then m.events + [Event(m.kind, m.buf)] else m.events)
  }

  // One byte.

  lemma ReadByte(cfg: Config, m: Machine, ch: Byte, m': Machine)
    requires Safe(m) && Step(cfg, m, ch) == Outcome(m', Success)
    ensures Steps(cfg, m, [ch], m')
  {
    hide Step, Safe;
    assert [ch][1..] == [];
    assert Run(cfg, m', []) == Result(m', Success, 0);
  }

  lemma ReadNothing(cfg: Config, m: Machine)
    requires Safe(m)
    ensures Steps(cfg, m, [], m)
  {}

  /** A byte the table lets through without storing it. */
  lemma IsHexOfClass(ch: Byte)
    ensures IsHex(CharClass(ch)) ==> IsHexByte(ch)
  {}

  lemma StepIgnoring(cfg: Config, m: Machine, ch: Byte)
    requires Safe(m) && m.left == 0 && ch < 0x80 && CharClass(ch) != ErrorClass
    requires BufferPolicy(m.state, CharClass(ch)) == Ignore && Transition(m.state, CharClass(ch)) != Do(UnicodeRead)
    ensures Step(cfg, m, ch) ==
      match Transition(m.state, CharClass(ch))
      case Reject => Outcome(m, UnexpectedChar)
      case Goto(t) => Outcome(m.(state := t), Success)
      case Do(a) => DoAction(cfg, m, a)
  {
    hide CharClass, Transition, BufferPolicy, DoAction, Safe;
    StoreKeepsDigits(cfg, m, ch, CharClass(ch)) by { IsHexOfClass(ch); }
  }

  /** A byte the table stores. */
  lemma StepAppending(cfg: Config, m: Machine, ch: Byte)
    requires cfg.Unlimited() && Safe(m) && m.left == 0 && ch < 0x80 && CharClass(ch) != ErrorClass
    requires BufferPolicy(m.state, CharClass(ch)) == Append && Transition(m.state, CharClass(ch)) != Reject
    ensures Transition(m.state, CharClass(ch)) == Do(UnicodeRead) ==> HexTail(m.buf + [ch], 4)
    ensures Step(cfg, m, ch) ==
      match Transition(m.state, CharClass(ch))
      case Reject => Outcome(m, UnexpectedChar)
      case Goto(t) => Outcome(m.(buf := m.buf + [ch], state := t), Success)
      case Do(a) => DoAction(cfg, m.(buf := m.buf + [ch]), a)
  {
    hide CharClass, Transition, BufferPolicy, DoAction, Safe, HexTail;
    StoreKeepsDigits(cfg, m, ch, CharClass(ch)) by { IsHexOfClass(ch); }
  }

  lemma SettledIsSafe(m: Machine)
    requires Settled(m)
    ensures Safe(m)
  {}

  lemma ReadBlank(cfg: Config, m: Machine, ch: Byte) returns (m': Machine)
    requires Settled(m) && IsBlank(ch)
    ensures Safe(m) && Step(cfg, m, ch) == Outcome(m', Success)
    ensures Settled(m') && PlaceOf(m') == PlaceOf(m) && m'.state == PlaceOf(m).at
  {
    SettledIsSafe(m);
    m' := m.(state := PlaceOf(m).at);
    StepIgnoring(cfg, m, ch);
    hide Step;
  }

  lemma OpeningCell(s: State, mode: Mode)
    requires s == GO || ExpectsValue(s)
    ensures var c := if mode == ObjectMode then LCurb else LSqrb;
      && Transition(s, c) == Do(if mode == ObjectMode then BeginObject else BeginArray)
      && BufferPolicy(s, c) == Ignore
  {}

  lemma ReadOpen(cfg: Config, m: Machine, mode: Mode) returns (m': Machine)
    requires cfg.Unlimited() && Settled(m) && Open(PlaceOf(m), mode).Some?
    ensures Safe(m) && Step(cfg, m, if mode == ObjectMode then LCURB else LSQRB) == Outcome(m', Success)
    ensures Settled(m') && Open(PlaceOf(m), mode) == Some(PlaceOf(m')) && IsStructural(m'.state)
  {
    hide Transition, BufferPolicy;
    SettledIsSafe(m);
    OpeningCell(m.state, mode);
    var ch := if mode == ObjectMode then LCURB else LSQRB;
    StepIgnoring(cfg, m, ch);
    m' := Step(cfg, m, ch).m;
    hide Step;
  }

  lemma ClosingCell(s: State, mode: Mode)
    requires EndsNumber(s) || s == OK || s == (if mode == ObjectMode then OB else AR)
    ensures var c := if mode == ObjectMode then RCurb else RSqrb;
      && Transition(s, c) == Do(if mode == ObjectMode then EndObject else EndArray)
      && BufferPolicy(s, c) == Ignore
  {
    hide StructureRow, NumberRow, StringRow, CommentRow, WordRow;
    var c := if mode == ObjectMode then RCurb else RSqrb;
    if EndsNumber(s) { ClosingNumber(s, c); } else { ClosingStructure(s, mode); }
  }

  lemma ClosingClass(mode: Mode)
    ensures CharClass(if mode == ObjectMode then RCURB else RSQRB) == if mode == ObjectMode then RCurb else RSqrb
  {}

  lemma ClosingNumber(s: State, c: Class)
    requires EndsNumber(s) && (c == RCurb || c == RSqrb || c == Comma)
    ensures NumberRow(s, c) == ValueEnd(c) != Reject
  {}

  lemma ClosingStructure(s: State, mode: Mode)
    requires s == OK || s == (if mode == ObjectMode then OB else AR)
    ensures var c := if mode == ObjectMode then RCurb else RSqrb;
      StructureRow(s, c) == Do(if mode == ObjectMode then EndObject else EndArray)
  {}

  /** What `do_buffer` does where a value is over, or there was none. */
  lemma BufferSettles(m: Machine)
    requires Settled(m)
    ensures var m' := DoBuffer(m);
      && m' == m.(buf := [], events := m'.events)
      && m'.events == PlaceOf(m).events
  {}

  lemma CloseStates(m: Machine, mode: Mode, empty: State)
    requires Settled(m) && Close(PlaceOf(m), mode, empty).Some? && empty == if mode == ObjectMode then OB else AR
    ensures (EndsNumber(m.state) || m.state == OK || m.state == empty) && m.left == 0
  {}

  /** What the end of a structure leaves. */
  lemma ClosedSettles(m: Machine, mode: Mode, empty: State)
    requires Settled(m) && Close(PlaceOf(m), mode, empty).Some? && empty == if mode == ObjectMode then OB else AR
    ensures var o := Finish(ActEnd(DoBuffer(m), mode), OK, NoKind); var m' := o.m;
      && o.err == Success && Settled(m') && Close(PlaceOf(m), mode, empty) == Some(PlaceOf(m')) && IsStructural(m'.state)
  {
    BufferSettles(m);
    hide DoBuffer;
  }

  lemma ReadClose(cfg: Config, m: Machine, mode: Mode, empty: State) returns (m': Machine)
    requires Settled(m) && Close(PlaceOf(m), mode, empty).Some?
    requires empty == if mode == ObjectMode then OB else AR
    ensures Safe(m) && Step(cfg, m, if mode == ObjectMode then RCURB else RSQRB) == Outcome(m', Success)
    ensures Settled(m') && Close(PlaceOf(m), mode, empty) == Some(PlaceOf(m')) && IsStructural(m'.state)
  {
    hide Transition, BufferPolicy, Step, DoBuffer, ActEnd, Safe, CharClass, Settled, PlaceOf, Close, HexTail, EndsNumber, IsStructural;
    SettledIsSafe(m);
    var ch := if mode == ObjectMode then RCURB else RSQRB;
    ClosingClass(mode);
    CloseStates(m, mode, empty);
    ClosingCell(m.state, mode);
    StepIgnoring(cfg, m, ch);
    m' := Step(cfg, m, ch).m;
    ClosedSettles(m, mode, empty);
  }

  lemma CommaGoes(s: State)
    requires EndsNumber(s) || s == OK
    ensures CharClass(COMMA) == Comma
    ensures Transition(s, Comma) == Do(CommaSeparator) && BufferPolicy(s, Comma) == Ignore
  {
    hide NumberRow, StringRow, CommentRow, WordRow;
    if EndsNumber(s) { ClosingNumber(s, Comma); }
  }

  lemma CommaStates(m: Machine)
    requires Settled(m) && Read(PlaceOf(m), CommaSym).Some?
    ensures (EndsNumber(m.state) || m.state == OK) && m.left == 0
  {}

  /** What a comma leaves. */
  lemma CommaSettles(m: Machine)
    requires Settled(m) && Read(PlaceOf(m), CommaSym).Some?
    ensures var o := ActComma(DoBuffer(m)); var m' := Finish(o, o.m.state, NoKind).m;
      && o.err == Success && Settled(m') && Read(PlaceOf(m), CommaSym) == Some(PlaceOf(m')) && IsStructural(m'.state)
  {
    BufferSettles(m);
    hide DoBuffer;
  }

  lemma ReadComma(cfg: Config, m: Machine) returns (m': Machine)
    requires Settled(m) && Read(PlaceOf(m), CommaSym).Some?
    ensures Safe(m) && Step(cfg, m, COMMA) == Outcome(m', Success)
    ensures Settled(m') && Read(PlaceOf(m), CommaSym) == Some(PlaceOf(m')) && IsStructural(m'.state)
  {
    hide Transition, BufferPolicy, Step, DoBuffer, ActComma, Safe, CharClass, Settled, PlaceOf, Read, HexTail, EndsNumber, IsStructural;
    SettledIsSafe(m);
    CommaStates(m);
    CommaGoes(m.state);
    StepIgnoring(cfg, m, COMMA);
    m' := Step(cfg, m, COMMA).m;
    CommaSettles(m);
  }

  lemma ReadColon(cfg: Config, m: Machine) returns (m': Machine)
    requires Settled(m) && Read(PlaceOf(m), ColonSym).Some?
    ensures Safe(m) && Step(cfg, m, COLON) == Outcome(m', Success)
    ensures Settled(m') && Read(PlaceOf(m), ColonSym) == Some(PlaceOf(m')) && IsStructural(m'.state)
  {
    SettledIsSafe(m);
    StepIgnoring(cfg, m, COLON);
    m' := Step(cfg, m, COLON).m;
    hide Step;
  }

  lemma ReadPunct(cfg: Config, m: Machine, sym: Symbol) returns (m': Machine)
    requires cfg.Unlimited() && Settled(m) && IsPunct(sym) && Read(PlaceOf(m), sym).Some?
    ensures Steps(cfg, m, [PunctByte(sym)], m')
    ensures Settled(m') && Read(PlaceOf(m), sym) == Some(PlaceOf(m')) && IsStructural(m'.state)
  {
    hide Step, Safe, Settled, Open, Close, PlaceOf;
    if sym == LBrace {
      m' := ReadOpen(cfg, m, ObjectMode);
    } else if sym == LBracket {
      m' := ReadOpen(cfg, m, ArrayMode);
    } else if sym == RBrace {
      m' := ReadClose(cfg, m, ObjectMode, OB);
    } else if sym == RBracket {
      m' := ReadClose(cfg, m, ArrayMode, AR);
    } else if sym == CommaSym {
      m' := ReadComma(cfg, m);
    } else {
      m' := ReadColon(cfg, m);
    }
    ReadByte(cfg, m, PunctByte(sym), m');
  }

  // Numbers. The bytes of a number are stored; it is reported later, by what follows it.

  /** `m` with `b` stored, in state `s`, reading a value of kind `k`. */
  function Stored(m: Machine, b: Bytes, s: State, k: Kind): Machine {
    m.(buf := m.buf + b, state := s, kind := k)
  }

  /** Storing in two stretches is storing in one. */
  lemma StoredTrans(cfg: Config, m: Machine, a: Bytes, s: State, k: Kind, b: Bytes, t: State, j: Kind)
    requires Steps(cfg, m, a, Stored(m, a, s, k))
    requires Steps(cfg, Stored(m, a, s, k), b, Stored(Stored(m, a, s, k), b, t, j))
    ensures Steps(cfg, m, a + b, Stored(m, a + b, t, j))
  {
    hide Steps;
    assert m.buf + (a + b) == m.buf + a + b;
    StepsTrans(cfg, m, a, Stored(m, a, s, k), b, Stored(m, a + b, t, j));
  }

  predicate IsDigitByte(ch: Byte) {
    ZERO <= ch <= NINE
  }

  lemma ReadDigit(cfg: Config, m: Machine, ch: Byte)
    requires cfg.Unlimited() && Safe(m) && m.left == 0 && IsDigitByte(ch)
    requires m.state == I0 || EndsStage(m.state)
    ensures Step(cfg, m, ch) == Outcome(Stored(m, [ch], StageState(m.state), m.kind), Success)
  {
    StepAppending(cfg, m, ch);
    hide Step;
  }

  /** States in which the digits after a point or an exponent are read, and the state they lead to. */
  predicate EndsStage(s: State) {
    s == R1 || s == R2 || s == X1 || s == X2 || s == X3
  }

  function StageState(s: State): State {
    match s case R1 | R2 => R2 case X1 | X2 | X3 => X3 case _ => s
  }

  lemma {:induction false} ReadDigits(cfg: Config, m: Machine, b: Bytes)
    requires cfg.Unlimited() && Safe(m) && m.left == 0 && b != [] && AreDigits(b)
    requires m.state == I0 || EndsStage(m.state)
    ensures Steps(cfg, m, b, Stored(m, b, StageState(m.state), m.kind))
    decreases |b|
  {
    hide Step, Steps;
    var t := StageState(m.state);
    ReadDigit(cfg, m, b[0]);
    ReadByte(cfg, m, b[0], Stored(m, [b[0]], t, m.kind));
    if |b| == 1 {
      assert b == [b[0]];
    } else {
      ReadDigits(cfg, Stored(m, [b[0]], t, m.kind), b[1..]);
      StoredTrans(cfg, m, [b[0]], t, m.kind, b[1..], t, m.kind);
      assert b == [b[0]] + b[1..];
    }
  }

  /** Where the integral part of a number leaves the parser. */
  function WholeState(n: Number): State
    requires n.whole != []
  {
    if n.whole[0] == ZERO then Z0 else I0
  }

  lemma ReadFirstDigit(cfg: Config, m: Machine, ch: Byte)
    requires cfg.Unlimited() && Safe(m) && m.left == 0 && IsDigitByte(ch)
    requires ExpectsValue(m.state) || (m.state == M0 && m.kind == IntKind)
    ensures Step(cfg, m, ch) == Outcome(Stored(m, [ch], if ch == ZERO then Z0 else I0, IntKind), Success)
  {
    StepAppending(cfg, m, ch);
    hide Step;
  }

  lemma ReadMinus(cfg: Config, m: Machine)
    requires cfg.Unlimited() && Safe(m) && m.left == 0 && ExpectsValue(m.state)
    ensures Step(cfg, m, MINUS) == Outcome(Stored(m, [MINUS], M0, IntKind), Success)
  {
    StepAppending(cfg, m, MINUS);
    hide Step;
  }

  lemma ReadUnsigned(cfg: Config, m: Machine, n: Number)
    requires cfg.Unlimited() && Safe(m) && m.left == 0 && IsNumber(n)
    requires ExpectsValue(m.state) || (m.state == M0 && m.kind == IntKind)
    ensures Steps(cfg, m, n.whole, Stored(m, n.whole, WholeState(n), IntKind))
  {
    hide Step, Steps;
    var first, t := [n.whole[0]], WholeState(n);
    ReadFirstDigit(cfg, m, n.whole[0]);
    ReadByte(cfg, m, n.whole[0], Stored(m, first, t, IntKind));
    if |n.whole| == 1 {
      assert n.whole == first;
    } else {
      ReadDigits(cfg, Stored(m, first, t, IntKind), n.whole[1..]);
      StoredTrans(cfg, m, first, t, IntKind, n.whole[1..], t, IntKind);
      assert n.whole == first + n.whole[1..];
    }
  }

  function SignText(n: Number): Bytes {
    if n.negative then [MINUS] else []
  }

  lemma ReadWhole(cfg: Config, m: Machine, n: Number)
    requires cfg.Unlimited() && Safe(m) && m.left == 0 && IsNumber(n) && ExpectsValue(m.state)
    ensures Steps(cfg, m, SignText(n) + n.whole, Stored(m, SignText(n) + n.whole, WholeState(n), IntKind))
  {
    hide Step, Steps;
    if n.negative {
      ReadMinus(cfg, m);
      ReadByte(cfg, m, MINUS, Stored(m, [MINUS], M0, IntKind));
      ReadUnsigned(cfg, Stored(m, [MINUS], M0, IntKind), n);
      StoredTrans(cfg, m, [MINUS], M0, IntKind, n.whole, WholeState(n), IntKind);
    } else {
      ReadUnsigned(cfg, m, n);
      assert SignText(n) + n.whole == n.whole;
    }
  }

  lemma ReadDot(cfg: Config, m: Machine)
    requires cfg.Unlimited() && Safe(m) && m.left == 0 && (m.state == Z0 || m.state == I0)
    ensures Step(cfg, m, DOT) == Outcome(Stored(m, [DOT], R1, FloatKind), Success)
  {
    StepAppending(cfg, m, DOT);
    hide Step;
  }

  lemma ReadFraction(cfg: Config, m: Machine, b: Bytes)
    requires cfg.Unlimited() && Safe(m) && m.left == 0 && (m.state == Z0 || m.state == I0)
    requires b != [] && AreDigits(b)
    ensures Steps(cfg, m, FractionText(b), Stored(m, FractionText(b), R2, FloatKind))
  {
    hide Step, Steps;
    ReadDot(cfg, m);
    ReadByte(cfg, m, DOT, Stored(m, [DOT], R1, FloatKind));
    ReadDigits(cfg, Stored(m, [DOT], R1, FloatKind), b);
    StoredTrans(cfg, m, [DOT], R1, FloatKind, b, R2, FloatKind);
  }

  lemma ReadMark(cfg: Config, m: Machine, ch: Byte)
    requires cfg.Unlimited() && Safe(m) && m.left == 0 && (ch == 69 || ch == 101)
    requires m.state == I0 || (m.state == R2 && m.kind == FloatKind)
    ensures Step(cfg, m, ch) == Outcome(Stored(m, [ch], X1, FloatKind), Success)
  {
    StepAppending(cfg, m, ch);
    hide Step;
  }

  lemma ReadExponentSign(cfg: Config, m: Machine, ch: Byte)
    requires cfg.Unlimited() && Safe(m) && m.left == 0 && (ch == PLUS || ch == MINUS) && m.state == X1
    ensures Step(cfg, m, ch) == Outcome(Stored(m, [ch], X2, m.kind), Success)
  {
    StepAppending(cfg, m, ch);
    hide Step;
  }

  lemma ReadSignedDigits(cfg: Config, m: Machine, sign: Bytes, b: Bytes)
    requires cfg.Unlimited() && Safe(m) && m.left == 0 && m.state == X1 && b != [] && AreDigits(b)
    requires sign == [] || sign == [PLUS] || sign == [MINUS]
    ensures Steps(cfg, m, sign + b, Stored(m, sign + b, X3, m.kind))
  {
    hide Step, Steps;
    if sign == [] {
      ReadDigits(cfg, m, b);
      assert sign + b == b;
    } else {
      ReadExponentSign(cfg, m, sign[0]);
      ReadByte(cfg, m, sign[0], Stored(m, [sign[0]], X2, m.kind));
      ReadDigits(cfg, Stored(m, [sign[0]], X2, m.kind), b);
      StoredTrans(cfg, m, [sign[0]], X2, m.kind, b, X3, m.kind);
      assert sign == [sign[0]];
    }
  }

  lemma ReadExponent(cfg: Config, m: Machine, n: Number)
    requires cfg.Unlimited() && Safe(m) && m.left == 0 && IsNumber(n) && n.exponent.Exponent?
    requires m.state == I0 || (m.state == R2 && m.kind == FloatKind)
    ensures Steps(cfg, m, ExponentText(n.exponent), Stored(m, ExponentText(n.exponent), X3, FloatKind))
  {
    hide Step, Steps;
    var e := n.exponent;
    ReadMark(cfg, m, e.mark);
    ReadByte(cfg, m, e.mark, Stored(m, [e.mark], X1, FloatKind));
    ReadSignedDigits(cfg, Stored(m, [e.mark], X1, FloatKind), e.sign, e.digits);
    StoredTrans(cfg, m, [e.mark], X1, FloatKind, e.sign + e.digits, X3, FloatKind);
    assert ExponentText(e) == [e.mark] + (e.sign + e.digits);
  }

  function MantissaText(n: Number): Bytes {
    SignText(n) + n.whole + FractionText(n.fraction)
  }

  lemma ReadMantissa(cfg: Config, m: Machine, n: Number)
    requires cfg.Unlimited() && Safe(m) && m.left == 0 && IsNumber(n) && ExpectsValue(m.state)
    ensures Steps(cfg, m, MantissaText(n), Mantissa(m, n))
  {
    hide Step, Steps;
    ReadWhole(cfg, m, n);
    var w := SignText(n) + n.whole;
    if n.fraction == [] {
      assert MantissaText(n) == w;
    } else {
      ReadFraction(cfg, Stored(m, w, WholeState(n), IntKind), n.fraction);
      StoredTrans(cfg, m, w, WholeState(n), IntKind, FractionText(n.fraction), R2, FloatKind);
    }
  }

  /** Where sign, integral part and fraction leave the parser. */
  function Mantissa(m: Machine, n: Number): Machine
    requires n.whole != []
  {
    if n.fraction == [] then Stored(m, MantissaText(n), WholeState(n), IntKind)
    else Stored(m, MantissaText(n), R2, FloatKind)
  }

  lemma ReadNumber(cfg: Config, m: Machine, n: Number) returns (m': Machine)
    requires cfg.Unlimited() && Safe(m) && m.left == 0 && IsNumber(n) && ExpectsValue(m.state)
    ensures Steps(cfg, m, NumberText(n), m') && EndsNumber(m'.state)
    ensures m' == Stored(m, NumberText(n), m'.state, NumberKind(n))
    ensures m'.state == X3 <==> n.exponent.Exponent?
  {
    hide Step, Steps;
    ReadMantissa(cfg, m, n);
    var m1 := Mantissa(m, n);
    assert NumberText(n) == MantissaText(n) + ExponentText(n.exponent);
    if n.exponent.NoExponent? {
      assert NumberText(n) == MantissaText(n);
      m' := m1;
    } else {
      ReadExponent(cfg, m1, n);
      StoredTrans(cfg, m, MantissaText(n), m1.state, m1.kind, ExponentText(n.exponent), X3, FloatKind);
      m' := Stored(m, NumberText(n), X3, FloatKind);
    }
  }
}
