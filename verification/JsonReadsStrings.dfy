/** Completeness, continued: strings with their escapes and multi-byte characters. */
module JsonReadsStrings {
  import opened Options
  import opened JsonTypes
  import opened JsonTables
  import opened JsonMachine
  import opened JsonSyntax
  import opened JsonUnicode
  import opened JsonText
  import opened JsonReads

  /** Inside a string, between two of its pieces. */
  predicate InString(m: Machine) {
    m.state == ST && m.left == 0 && m.multi == 0 && m.kind == NoKind
  }

  // Bytes that stand for themselves.

  lemma ReadPlain(cfg: Config, m: Machine, ch: Byte)
    requires cfg.Unlimited() && InString(m) && IsPlain(ch)
    ensures Safe(m) && Step(cfg, m, ch) == Outcome(Stored(m, [ch], ST, NoKind), Success)
  {
    StepAppending(cfg, m, ch);
    hide Step;
  }

  lemma ReadLead(cfg: Config, m: Machine, ch: Byte)
    requires cfg.Unlimited() && InString(m) && 0 < Utf8Header(ch) < 255
    ensures Safe(m) && Step(cfg, m, ch) == Outcome(Stored(m.(left := Utf8Header(ch)), [ch], ST, NoKind), Success)
  {
    hide CharClass;
  }

  lemma ReadContinuation(cfg: Config, m: Machine, ch: Byte)
    requires cfg.Unlimited() && m.state == ST && m.kind == NoKind && m.left > 0 && IsContinuation(ch)
    ensures Safe(m) && Step(cfg, m, ch) == Outcome(Stored(m.(left := m.left - 1), [ch], ST, NoKind), Success)
  {
    hide CharClass;
  }

  lemma {:induction false} ReadContinuations(cfg: Config, m: Machine, b: Bytes)
    requires cfg.Unlimited() && m.state == ST && m.kind == NoKind && m.left == |b|
    requires forall i :: 0 <= i < |b| ==> IsContinuation(b[i])
    ensures Steps(cfg, m, b, Stored(m.(left := 0), b, ST, NoKind))
    decreases |b|
  {
    hide Step, Steps;
    if b == [] {
      assert m.buf + b == m.buf;
      ReadNothing(cfg, m);
    } else {
      ReadContinuation(cfg, m, b[0]);
      var m' := Stored(m.(left := m.left - 1), [b[0]], ST, NoKind);
      ReadContinuations(cfg, m', b[1..]);
      assert b == [b[0]] + b[1..];
      assert m.buf + b == m'.buf + b[1..];
      StepsCons(cfg, m, b[0], m', b[1..], Stored(m.(left := 0), b, ST, NoKind));
    }
  }

  lemma ReadMulti(cfg: Config, m: Machine, b: Bytes)
    requires cfg.Unlimited() && InString(m) && IsMulti(b)
    ensures Steps(cfg, m, b, Stored(m, b, ST, NoKind))
  {
    hide Step, Steps, HexNeed, CharClass;
    ReadLead(cfg, m, b[0]);
    hide Safe;
    var m' := Stored(m.(left := Utf8Header(b[0])), [b[0]], ST, NoKind);
    ReadContinuations(cfg, m', b[1..]);
    hide IsContinuation, Utf8Header, IsMulti;
    assert b == [b[0]] + b[1..];
    assert m.buf + b == m'.buf + b[1..];
    StepsCons(cfg, m, b[0], m', b[1..], Stored(m, b, ST, NoKind));
  }

  // Escapes.

  lemma ReadBackslash(cfg: Config, m: Machine)
    requires Safe(m) && m.left == 0 && (m.state == ST || m.state == D1)
    ensures Step(cfg, m, BACKSLASH) == Outcome(m.(state := if m.state == ST then E0 else D2), Success)
  {
    StepIgnoring(cfg, m, BACKSLASH);
    hide Step;
  }

  lemma LetterUCell(s: State)
    requires s == E0 || s == D2
    ensures CharClass(LOWER_U) != ErrorClass && Utf8Header(LOWER_U) == 0
    ensures Transition(s, CharClass(LOWER_U)) == Goto(U1) && BufferPolicy(s, CharClass(LOWER_U)) == Ignore
  {}

  lemma ReadLetterU(cfg: Config, m: Machine)
    requires Safe(m) && m.left == 0 && (m.state == E0 || m.state == D2)
    ensures Step(cfg, m, LOWER_U) == Outcome(m.(state := U1), Success)
  {
    LetterUCell(m.state);
    hide Transition, BufferPolicy, CharClass, Utf8Header;
    StepIgnoring(cfg, m, LOWER_U);
    hide Step;
  }

  lemma ReadBackslashU(cfg: Config, m: Machine)
    requires Safe(m) && m.left == 0 && (m.state == ST || m.state == D1)
    ensures Steps(cfg, m, [BACKSLASH, LOWER_U], m.(state := U1))
  {
    hide Step, Steps;
    var m' := m.(state := if m.state == ST then E0 else D2);
    ReadBackslash(cfg, m);
    ReadLetterU(cfg, m');
    ReadByte(cfg, m', LOWER_U, m.(state := U1));
    StepsCons(cfg, m, BACKSLASH, m', [LOWER_U], m.(state := U1));
    assert [BACKSLASH] + [LOWER_U] == [BACKSLASH, LOWER_U];
  }

  lemma ReadEscapeLetter(cfg: Config, m: Machine, ch: Byte)
    requires cfg.Unlimited() && Safe(m) && m.left == 0 && m.state == E0 && IsEscapeByte(ch)
    ensures Step(cfg, m, ch) == Outcome(Stored(m, [EscapeMeaning(ch)], ST, m.kind), Success)
  {
    UnescapeIs(ch);
    EscapeCell(ch);
    IsHexOfClass(ch);
    StoreKeepsDigits(cfg, m, ch, CharClass(ch)) by { hide Transition, BufferPolicy, CharClass; }
    hide Transition, BufferPolicy, CharClass, Unescape, EscapeMeaning, Safe, HexTail;
  }

  lemma EscapeCell(ch: Byte)
    requires IsEscapeByte(ch)
    ensures ch < 0x80 && CharClass(ch) != ErrorClass
    ensures Transition(E0, CharClass(ch)) == Goto(ST) && BufferPolicy(E0, CharClass(ch)) == Escape
  {
    assert IsEscapeLetter(CharClass(ch));
    hide CharClass, StructureRow, NumberRow, CommentRow, WordRow;
  }

  lemma ReadEscape(cfg: Config, m: Machine, letter: Byte)
    requires cfg.Unlimited() && InString(m) && IsEscapeByte(letter)
    ensures Steps(cfg, m, [BACKSLASH, letter], Stored(m, [EscapeMeaning(letter)], ST, NoKind))
  {
    hide Step, Steps, EscapeMeaning;
    ReadBackslash(cfg, m);
    ReadEscapeLetter(cfg, m.(state := E0), letter);
    var m' := Stored(m, [EscapeMeaning(letter)], ST, NoKind);
    ReadByte(cfg, m.(state := E0), letter, m');
    StepsCons(cfg, m, BACKSLASH, m.(state := E0), [letter], m');
    assert [BACKSLASH] + [letter] == [BACKSLASH, letter];
  }

  /** The eight escapes of section 7 of RFC 8259, byte by byte. */
  lemma EightEscapes(cfg: Config, m: Machine)
    requires cfg.Unlimited() && InString(m)
    ensures Steps(cfg, m, [92, 34], Stored(m, [34], ST, NoKind)) && Steps(cfg, m, [92, 92], Stored(m, [92], ST, NoKind))
    ensures Steps(cfg, m, [92, 47], Stored(m, [47], ST, NoKind)) && Steps(cfg, m, [92, 98], Stored(m, [8], ST, NoKind))
    ensures Steps(cfg, m, [92, 102], Stored(m, [12], ST, NoKind)) && Steps(cfg, m, [92, 110], Stored(m, [10], ST, NoKind))
    ensures Steps(cfg, m, [92, 114], Stored(m, [13], ST, NoKind)) && Steps(cfg, m, [92, 116], Stored(m, [9], ST, NoKind))
  {
    hide Steps, Step, InString;
    ReadEscape(cfg, m, 34);
    ReadEscape(cfg, m, 92);
    ReadEscape(cfg, m, 47);
    ReadEscape(cfg, m, 98);
    ReadEscape(cfg, m, 102);
    ReadEscape(cfg, m, 110);
    ReadEscape(cfg, m, 114);
    ReadEscape(cfg, m, 116);
  }

  function NextDigit(s: State): State {
    match s case U1 => U2 case U2 => U3 case _ => U4
  }

  lemma ReadHexDigit(cfg: Config, m: Machine, ch: Byte)
    requires cfg.Unlimited() && Safe(m) && m.left == 0 && IsHexByte(ch)
    requires m.state == U1 || m.state == U2 || m.state == U3
    ensures Step(cfg, m, ch) == Outcome(Stored(m, [ch], NextDigit(m.state), m.kind), Success)
    ensures Safe(Stored(m, [ch], NextDigit(m.state), m.kind))
  {
    StepAppending(cfg, m, ch);
    hide Step;
  }

  lemma ReadThreeDigits(cfg: Config, m: Machine, d: Bytes)
    requires cfg.Unlimited() && m.left == 0 && IsFourHex(d) && m.state == U1
    ensures Steps(cfg, m, d[..3], Stored(m, d[..3], U4, m.kind))
  {
    hide Step, Steps;
    assert Safe(m);
    ReadHexDigit(cfg, m, d[0]);
    var m1 := Stored(m, [d[0]], U2, m.kind);
    ReadHexDigit(cfg, m1, d[1]);
    var m2 := Stored(m1, [d[1]], U3, m.kind);
    ReadHexDigit(cfg, m2, d[2]);
    var m3 := Stored(m2, [d[2]], U4, m.kind);
    hide Safe;
    assert m3 == Stored(m, d[..3], U4, m.kind);
    ReadByte(cfg, m2, d[2], m3);
    StepsCons(cfg, m1, d[1], m2, [d[2]], m3);
    StepsCons(cfg, m, d[0], m1, [d[1]] + [d[2]], m3);
    assert d[..3] == [d[0]] + ([d[1]] + [d[2]]);
  }

  /** What the last digit of an escape does, when the four digits say `u` and `m` had read none of them. */
  function AfterUnit(m: Machine, u: nat): Outcome
    requires u < 0x10000
  {
    if m.multi != 0 then
      if !IsLowSurrogate(u) then Outcome(m.(state := U4), MissingLowSurrogate)
      else Outcome(Stored(m, EncodePair(m.multi, u), ST, NoKind).(multi := 0), Success)
    else if IsLowSurrogate(u) then Outcome(m.(state := U4), UnexpectedLowSurrogate)
    else if IsHighSurrogate(u) then Outcome(m.(multi := u, state := D1, kind := NoKind), Success)
    else Outcome(Stored(m, EncodeUnit(u), ST, NoKind), Success)
  }

  lemma StepFourthDigit(cfg: Config, m: Machine, d: Bytes)
    requires cfg.Unlimited() && m.left == 0 && IsFourHex(d) && m.state == U1
    ensures var m3 := Stored(m, d[..3], U4, m.kind);
      Safe(m3) && Step(cfg, m3, d[3]) == AfterUnit(m, FourHex(d))
  {
    var m3 := Stored(m, d[..3], U4, m.kind);
    assert HexTail(m3.buf, 3);
    FourthDigitCell(d[3]);
    hide Step, Transition, BufferPolicy, CharClass, FourHex, HexTail, EncodeUnit, EncodePair;
    StepAppending(cfg, m3, d[3]);
    var b := m3.buf + [d[3]];
    assert b[|b| - 4..] == d && b[..|b| - 4] == m.buf;
    DecodedUnit(m, m3.(buf := b), d);
  }

  lemma FourthDigitCell(ch: Byte)
    requires IsHexByte(ch)
    ensures ch < 0x80 && CharClass(ch) != ErrorClass
    ensures Transition(U4, CharClass(ch)) == Do(UnicodeRead) && BufferPolicy(U4, CharClass(ch)) == Append
  {
    assert IsHex(CharClass(ch));
    hide CharClass, StructureRow, NumberRow, CommentRow, WordRow, IsHex;
  }

  lemma DecodedUnit(m: Machine, m4: Machine, d: Bytes)
    requires m.left == 0 && IsFourHex(d) && m.state == U1 && HexTail(m4.buf, 4)
    requires m4 == m.(buf := m4.buf, state := U4) && m4.buf[|m4.buf| - 4..] == d && m4.buf[..|m4.buf| - 4] == m.buf
    ensures Finish(ActUnicode(m4), ActUnicode(m4).m.state, NoKind) == AfterUnit(m, FourHex(d))
  {
    hide FourHex, HexTail, EncodeUnit, EncodePair;
  }

  lemma ReadUnit(cfg: Config, m: Machine, d: Bytes)
    requires cfg.Unlimited() && InString(m) && IsFourHex(d) && IsScalarValue(FourHex(d))
    ensures Steps(cfg, m, [BACKSLASH, LOWER_U] + d, Stored(m, Utf8(FourHex(d)), ST, NoKind))
  {
    ReadBackslashU(cfg, m);
    ReadFourDigits(cfg, m.(state := U1), d);
    EncodeUnitIsUtf8(FourHex(d));
    hide Step, Steps, FourHex, EncodeUnit, Utf8;
    StepsTrans(cfg, m, [BACKSLASH, LOWER_U], m.(state := U1), d, Stored(m, Utf8(FourHex(d)), ST, NoKind));
  }

  lemma ReadFourDigits(cfg: Config, m: Machine, d: Bytes)
    requires cfg.Unlimited() && m.left == 0 && IsFourHex(d) && m.state == U1
    requires AfterUnit(m, FourHex(d)).err == Success
    ensures Steps(cfg, m, d, AfterUnit(m, FourHex(d)).m)
  {
    hide Step, Steps, AfterUnit, FourHex;
    var m3 := Stored(m, d[..3], U4, m.kind);
    ReadThreeDigits(cfg, m, d);
    StepFourthDigit(cfg, m, d);
    ReadByte(cfg, m3, d[3], AfterUnit(m, FourHex(d)).m);
    StepsTrans(cfg, m, d[..3], m3, [d[3]], AfterUnit(m, FourHex(d)).m);
    assert d == d[..3] + [d[3]];
  }

  lemma ReadPair(cfg: Config, m: Machine, h: Bytes, l: Bytes)
    requires cfg.Unlimited() && InString(m) && IsFourHex(h) && IsFourHex(l)
    requires IsHighSurrogate(FourHex(h)) && IsLowSurrogate(FourHex(l))
    ensures Steps(cfg, m, PieceText(Pair(h, l)), Stored(m, PieceData(Pair(h, l)), ST, NoKind))
  {
    hide Step, Steps, FourHex, EncodePair, PieceData;
    var u, v := FourHex(h), FourHex(l);
    PairData(h, l);
    var m1 := m.(state := U1);
    var m2 := m.(multi := u, state := D1);
    var m3 := m.(multi := u, state := U1);
    var m4 := Stored(m, EncodePair(u, v), ST, NoKind);
    ReadBackslashU(cfg, m);
    ReadFourDigits(cfg, m1, h);
    ReadBackslashU(cfg, m2);
    ReadFourDigits(cfg, m3, l);
    hide AfterUnit, Stored, Safe;
    var bu := [BACKSLASH, LOWER_U];
    StepsTrans(cfg, m2, bu, m3, l, m4);
    StepsTrans(cfg, m1, h, m2, bu + l, m4);
    StepsTrans(cfg, m, bu, m1, h + (bu + l), m4);
    assert PieceText(Pair(h, l)) == bu + (h + (bu + l));
  }

  lemma PairData(h: Bytes, l: Bytes)
    requires IsFourHex(h) && IsFourHex(l) && IsHighSurrogate(FourHex(h)) && IsLowSurrogate(FourHex(l))
    ensures PieceData(Pair(h, l)) == EncodePair(FourHex(h), FourHex(l))
  {
    PairValueUtf16(FourHex(h), FourHex(l));
    hide FourHex;
    EncodePairIsUtf8(PairValue(FourHex(h), FourHex(l)));
    hide EncodePair, Utf8, PairValue;
  }

  // Whole strings.

  lemma ReadPiece(cfg: Config, m: Machine, p: StrPiece)
    requires cfg.Unlimited() && InString(m) && IsStrPiece(p)
    ensures Steps(cfg, m, PieceText(p), Stored(m, PieceData(p), ST, NoKind))
  {
    hide Step, Steps;
    match p
    case Plain(ch) =>
      ReadPlain(cfg, m, ch);
      ReadByte(cfg, m, ch, Stored(m, [ch], ST, NoKind));
    case Multi(b) => ReadMulti(cfg, m, b);
    case Escaped(letter) => ReadEscape(cfg, m, letter);
    case Unit(d) => ReadUnit(cfg, m, d);
    case Pair(h, l) => ReadPair(cfg, m, h, l);
  }

  lemma {:induction false} ReadStringBody(cfg: Config, m: Machine, ps: seq<StrPiece>)
    requires cfg.Unlimited() && InString(m) && IsString(ps)
    ensures Steps(cfg, m, StringText(ps), Stored(m, StringData(ps), ST, NoKind))
    decreases |ps|
  {
    hide Step, Steps, PieceData, PieceText;
    if ps == [] {
      assert m.buf + [] == m.buf;
      ReadNothing(cfg, m);
    } else {
      ReadPiece(cfg, m, ps[0]);
      var m' := Stored(m, PieceData(ps[0]), ST, NoKind);
      ReadStringBody(cfg, m', ps[1..]);
      assert m.buf + StringData(ps) == m'.buf + StringData(ps[1..]);
      StepsTrans(cfg, m, PieceText(ps[0]), m', StringText(ps[1..]), Stored(m, StringData(ps), ST, NoKind));
    }
  }

  lemma ReadOpeningQuote(cfg: Config, m: Machine)
    requires Settled(m) && (m.state == OB || m.state == KY || ExpectsValue(m.state))
    ensures Safe(m) && Step(cfg, m, QUOTE) == Outcome(m.(state := ST), Success) && InString(m.(state := ST))
  {
    SettledIsSafe(m);
    StepIgnoring(cfg, m, QUOTE);
    hide Step;
  }

  lemma ReadClosingQuote(cfg: Config, m: Machine)
    requires InString(m)
    ensures Safe(m) && Step(cfg, m, QUOTE) == Outcome(ActEndString(m), Success)
  {
    StepIgnoring(cfg, m, QUOTE);
    hide Step;
  }

  /** Where a string with this data leaves the parser. */
  function AfterString(m: Machine, data: Bytes): Machine {
    ActEndString(Stored(m, data, ST, NoKind))
  }

  lemma ReadString(cfg: Config, m: Machine, ps: seq<StrPiece>) returns (m': Machine)
    requires cfg.Unlimited() && Settled(m) && IsString(ps)
    requires m.state == OB || m.state == KY || ExpectsValue(m.state)
    ensures Steps(cfg, m, LexemeText(Quoted(ps)), m') && m' == AfterString(m, StringData(ps))
  {
    hide Step, Steps, ActEndString;
    var m1 := m.(state := ST);
    var m2 := Stored(m, StringData(ps), ST, NoKind);
    m' := ActEndString(m2);
    ReadOpeningQuote(cfg, m);
    ReadStringBody(cfg, m1, ps);
    ReadClosingQuote(cfg, m2);
    ReadByte(cfg, m2, QUOTE, m');
    StepsTrans(cfg, m1, StringText(ps), m2, [QUOTE], m');
    StepsCons(cfg, m, QUOTE, m1, StringText(ps) + [QUOTE], m');
    assert LexemeText(Quoted(ps)) == [QUOTE] + (StringText(ps) + [QUOTE]);
  }

  lemma StringSettles(m: Machine, data: Bytes)
    requires Settled(m) && (m.state == OB || m.state == KY || ExpectsValue(m.state))
    ensures Settled(AfterString(m, data))
    ensures Read(PlaceOf(m), TextSym(data)) == Some(PlaceOf(AfterString(m, data)))
    ensures IsStructural(AfterString(m, data).state)
  {
    assert m.buf + data == data;
  }
}
