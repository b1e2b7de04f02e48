/**
  Soundness: whatever the parser accepts is a document of the grammar. The lemmas walk down the
  text the way a recursive-descent parser would, and return the parts they find.
 */
module JsonSoundness {
  import opened JsonTypes
  import opened JsonTables
  import opened JsonMachine
  import opened JsonSyntax
  import opened JsonUnicode
  import opened JsonText
  import opened JsonReads
  import opened JsonReadsStrings
  import opened JsonCompleteness

  /** From `m` the text `s` is read to the end of a document. */
  predicate Finishing(cfg: Config, m: Machine, s: Bytes) {
    && Safe(m) && Run(cfg, m, s).err == Success
    && Run(cfg, m, s).m.state == OK && Run(cfg, m, s).m.stack == []
  }

  /** The class of a byte read outside a multi-byte character. */
  function ClassOf(ch: Byte): Class {
    if ch < 0x80 then CharClass(ch) else Other
  }

  // One byte back.

  lemma FirstStep(cfg: Config, m: Machine, s: Bytes) returns (m': Machine)
    requires Finishing(cfg, m, s) && s != []
    ensures Step(cfg, m, s[0]) == Outcome(m', Success) && Finishing(cfg, m', s[1..])
    ensures s == [s[0]] + s[1..]
  {
    hide Step, Safe;
    m' := Step(cfg, m, s[0]).m;
    assert Run(cfg, m, s).err == Success;
    assert Step(cfg, m, s[0]).err == Success;
    assert Run(cfg, m, s).m == Run(cfg, m', s[1..]).m;
  }

  lemma NotDone(cfg: Config, m: Machine, s: Bytes)
    requires Finishing(cfg, m, s) && (m.state != OK || m.stack != [])
    ensures s != []
  {
    hide Safe;
  }

  lemma After(cfg: Config, m: Machine, a: Bytes, m': Machine, s: Bytes)
    requires Finishing(cfg, m, a + s) && Steps(cfg, m, a, m')
    ensures Finishing(cfg, m', s)
  {
    RunAppend(cfg, m, a, s);
    hide Run, Safe;
  }

  /** A byte that is read has a class, and the table has an entry for it. */
  lemma ReadMeans(cfg: Config, m: Machine, ch: Byte)
    requires Safe(m) && m.left == 0 && Step(cfg, m, ch).err == Success
    ensures Utf8Header(ch) < 255 && ClassOf(ch) != ErrorClass
    ensures Transition(m.state, ClassOf(ch)) != Reject
  {
    hide Transition, BufferPolicy, CharClass, DoAction, Store, Safe;
  }

  // Strings.

  lemma HexDigitRead(cfg: Config, m: Machine, ch: Byte)
    requires Safe(m) && m.left == 0 && (m.state == U1 || m.state == U2 || m.state == U3 || m.state == U4)
    requires Step(cfg, m, ch).err == Success
    ensures IsHexByte(ch)
  {
    ReadMeans(cfg, m, ch);
    hide Step;
    assert IsHex(ClassOf(ch)) by { hide CharClass, BufferPolicy; }
    hide Transition, BufferPolicy, CharClass;
    HexClass(ch);
  }

  lemma HexClass(ch: Byte)
    requires IsHex(ClassOf(ch))
    ensures IsHexByte(ch)
  {}

  lemma FindFourHex(cfg: Config, m: Machine, s: Bytes)
    requires cfg.Unlimited() && m.left == 0 && m.state == U1 && Finishing(cfg, m, s)
    ensures |s| >= 4 && IsFourHex(s[..4])
    ensures AfterUnit(m, FourHex(s[..4])).err == Success
    ensures Finishing(cfg, AfterUnit(m, FourHex(s[..4])).m, s[4..])
  {
    hide Step, Finishing, FourHex, AfterUnit;
    FindThreeHex(cfg, m, s);
    var m3 := Stored(m, s[..3], U4, m.kind);
    NotDone(cfg, m3, s[3..]);
    var m4 := FirstStep(cfg, m3, s[3..]);
    HexDigitRead(cfg, m3, s[3]);
    StepFourthDigit(cfg, m, s[..4]);
    assert s[..4][..3] == s[..3] && s[3..][1..] == s[4..];
  }

  lemma FindThreeHex(cfg: Config, m: Machine, s: Bytes)
    requires cfg.Unlimited() && m.left == 0 && m.state == U1 && Finishing(cfg, m, s)
    ensures |s| >= 4 && forall i :: 0 <= i < 3 ==> IsHexByte(s[i])
    ensures Safe(Stored(m, s[..3], U4, m.kind))
    ensures Finishing(cfg, Stored(m, s[..3], U4, m.kind), s[3..])
  {
    hide Step, Finishing;
    NotDone(cfg, m, s);
    var m1 := FirstStep(cfg, m, s);
    HexDigitRead(cfg, m, s[0]);
    ReadHexDigit(cfg, m, s[0]);
    NotDone(cfg, m1, s[1..]);
    var m2 := FirstStep(cfg, m1, s[1..]);
    HexDigitRead(cfg, m1, s[1]);
    ReadHexDigit(cfg, m1, s[1]);
    NotDone(cfg, m2, s[2..]);
    assert s[1..][1..] == s[2..];
    var m3 := FirstStep(cfg, m2, s[2..]);
    HexDigitRead(cfg, m2, s[2]);
    ReadHexDigit(cfg, m2, s[2]);
    assert s[2..][1..] == s[3..];
    assert m3 == Stored(m, s[..3], U4, m.kind);
    NotDone(cfg, m3, s[3..]);
  }

  lemma EscapeLetterRead(cfg: Config, m: Machine, ch: Byte)
    requires Safe(m) && m.left == 0 && m.state == E0 && Step(cfg, m, ch).err == Success
    ensures ch == LOWER_U || IsEscapeByte(ch)
  {
    ReadMeans(cfg, m, ch);
    hide Step;
    assert ClassOf(ch) == LowU || IsEscapeLetter(ClassOf(ch)) by { hide CharClass, BufferPolicy; }
    hide Transition, BufferPolicy;
  }

  lemma PairBytesRead(cfg: Config, m: Machine, ch: Byte)
    requires Safe(m) && m.left == 0 && (m.state == D1 || m.state == D2) && Step(cfg, m, ch).err == Success
    ensures ch == if m.state == D1 then BACKSLASH else LOWER_U
  {
    hide Step, Transition, CharClass;
    ReadMeans(cfg, m, ch);
    PairCell(m.state, ch);
  }

  lemma PairCell(s: State, ch: Byte)
    requires (s == D1 || s == D2) && ClassOf(ch) != ErrorClass && Transition(s, ClassOf(ch)) != Reject
    ensures ch == if s == D1 then BACKSLASH else LOWER_U
  {
    PairClasses(ch);
    hide ClassOf, StructureRow, NumberRow, CommentRow, WordRow;
  }

  lemma PairClasses(ch: Byte)
    ensures ClassOf(ch) == Backs ==> ch == BACKSLASH
    ensures ClassOf(ch) == LowU ==> ch == LOWER_U
  {}

  lemma FindEscape(cfg: Config, m: Machine, s: Bytes) returns (p: StrPiece)
    requires cfg.Unlimited() && InString(m) && Finishing(cfg, m, s) && s != [] && s[0] == BACKSLASH
    ensures IsStrPiece(p) && PieceText(p) <= s
  {
    hide Step, Finishing, FourHex;
    ReadBackslash(cfg, m);
    var m1 := FirstStep(cfg, m, s);
    NotDone(cfg, m1, s[1..]);
    var m2 := FirstStep(cfg, m1, s[1..]);
    EscapeLetterRead(cfg, m1, s[1]);
    if s[1] != LOWER_U {
      p := Escaped(s[1]);
    } else {
      ReadLetterU(cfg, m1);
      assert s[1..][1..] == s[2..];
      p := FindUnit(cfg, m2, s[2..]);
      assert s == [BACKSLASH, LOWER_U] + s[2..];
    }
  }

  /** The escape whose digits begin `s`. */
  lemma FindUnit(cfg: Config, m: Machine, s: Bytes) returns (p: StrPiece)
    requires cfg.Unlimited() && m.state == U1 && InString(m.(state := ST)) && Finishing(cfg, m, s)
    ensures IsStrPiece(p) && PieceText(p) <= [BACKSLASH, LOWER_U] + s
  {
    hide Step, Finishing, FourHex;
    FindFourHex(cfg, m, s);
    var u := FourHex(s[..4]);
    if IsHighSurrogate(u) {
      var l := FindLow(cfg, m.(multi := u, state := D1), s[4..]);
      p := Pair(s[..4], l);
      assert s == s[..4] + s[4..];
    } else {
      p := Unit(s[..4]);
    }
  }

  lemma FindLow(cfg: Config, m: Machine, s: Bytes) returns (l: Bytes)
    requires cfg.Unlimited() && m.state == D1 && m.left == 0 && m.multi != 0 && Finishing(cfg, m, s)
    ensures IsFourHex(l) && IsLowSurrogate(FourHex(l)) && [BACKSLASH, LOWER_U] + l <= s
  {
    hide Step, Finishing, FourHex;
    NotDone(cfg, m, s);
    var m1 := FirstStep(cfg, m, s);
    PairBytesRead(cfg, m, s[0]);
    ReadBackslash(cfg, m);
    NotDone(cfg, m1, s[1..]);
    var m2 := FirstStep(cfg, m1, s[1..]);
    PairBytesRead(cfg, m1, s[1]);
    ReadLetterU(cfg, m1);
    assert s[1..][1..] == s[2..];
    FindFourHex(cfg, m2, s[2..]);
    l := s[2..][..4];
    assert s == [BACKSLASH, LOWER_U] + s[2..];
  }

  lemma ContinuationRead(cfg: Config, m: Machine, ch: Byte)
    requires Safe(m) && m.left > 0 && Step(cfg, m, ch).err == Success
    ensures IsContinuation(ch)
  {
    hide Advance;
  }

  lemma {:induction false} FindContinuations(cfg: Config, m: Machine, s: Bytes)
    requires cfg.Unlimited() && m.state == ST && m.kind == NoKind && Finishing(cfg, m, s)
    ensures m.left <= |s| && forall i :: 0 <= i < m.left ==> IsContinuation(s[i])
    decreases m.left
  {
    hide Step, Finishing;
    if m.left > 0 {
      NotDone(cfg, m, s);
      var m' := FirstStep(cfg, m, s);
      ContinuationRead(cfg, m, s[0]);
      ReadContinuation(cfg, m, s[0]);
      FindContinuations(cfg, m', s[1..]);
      forall i | 0 <= i < m.left ensures IsContinuation(s[i]) {
        if i > 0 { assert s[i] == s[1..][i - 1]; }
      }
    }
  }

  lemma PlainRead(cfg: Config, m: Machine, ch: Byte)
    requires InString(m) && Safe(m) && Step(cfg, m, ch).err == Success && ch != QUOTE && ch != BACKSLASH
    ensures if ch < 0x80 then IsPlain(ch) else 0 < Utf8Header(ch) < 255
  {
    ReadMeans(cfg, m, ch);
    hide Step;
  }

  lemma FindPiece(cfg: Config, m: Machine, s: Bytes) returns (p: StrPiece)
    requires cfg.Unlimited() && InString(m) && Finishing(cfg, m, s) && s != [] && s[0] != QUOTE
    ensures IsStrPiece(p) && PieceText(p) <= s
  {
    hide Step, Finishing;
    if s[0] == BACKSLASH {
      p := FindEscape(cfg, m, s);
    } else {
      var m1 := FirstStep(cfg, m, s);
      PlainRead(cfg, m, s[0]);
      if s[0] < 0x80 {
        p := Plain(s[0]);
      } else {
        ReadLead(cfg, m, s[0]);
        FindContinuations(cfg, m1, s[1..]);
        var n := 1 + Utf8Header(s[0]);
        p := Multi(s[..n]);
        assert forall i :: 1 <= i < n ==> s[i] == s[1..][i - 1];
      }
    }
  }

  lemma ClosingQuote(s: Bytes)
    requires s != [] && s[0] == QUOTE
    ensures s == StringText([]) + [QUOTE] + s[1..]
  {
    assert s == [QUOTE] + s[1..];
  }

  lemma OnePieceMore(p: StrPiece, ps: seq<StrPiece>)
    requires IsStrPiece(p) && IsString(ps)
    ensures IsString([p] + ps) && StringText([p] + ps) == PieceText(p) + StringText(ps)
  {
    assert ([p] + ps)[1..] == ps;
  }

  lemma Assoc(a: Bytes, b: Bytes, c: Bytes, d: Bytes)
    ensures a + (b + c + d) == a + b + c + d
  {}

  lemma {:induction false} FindString(cfg: Config, m: Machine, s: Bytes) returns (ps: seq<StrPiece>, rest: Bytes)
    requires cfg.Unlimited() && InString(m) && Finishing(cfg, m, s)
    ensures IsString(ps) && s == StringText(ps) + [QUOTE] + rest
    decreases |s|
  {
    hide Step, Finishing, Steps, HexTail, StringText;
    NotDone(cfg, m, s);
    if s[0] == QUOTE {
      ps, rest := [], s[1..];
      ClosingQuote(s);
    } else {
      var p := FindPiece(cfg, m, s);
      var n := |PieceText(p)|;
      ReadPiece(cfg, m, p);
      hide PieceData, PieceText, IsStrPiece, IsString, Safe;
      assert s == PieceText(p) + s[n..];
      After(cfg, m, PieceText(p), Stored(m, PieceData(p), ST, NoKind), s[n..]);
      assert n > 0 by { PieceNotEmpty(p); }
      var ps';
      ps', rest := FindString(cfg, Stored(m, PieceData(p), ST, NoKind), s[n..]);
      ps := [p] + ps';
      OnePieceMore(p, ps');
      hide StringText, Stored, InString, IsString, IsStrPiece;
      Assoc(PieceText(p), StringText(ps'), [QUOTE], rest);
    }
  }

  lemma PieceNotEmpty(p: StrPiece)
    requires IsStrPiece(p)
    ensures PieceText(p) != []
  {}

  // Numbers.

  lemma DigitRead(cfg: Config, m: Machine, ch: Byte)
    requires Safe(m) && m.left == 0 && Step(cfg, m, ch).err == Success
    requires m.state == R1 || m.state == X2 || m.state == M0 || m.state == X1
    ensures IsDigitByte(ch) || (m.state == X1 && (ch == PLUS || ch == MINUS))
  {
    ReadMeans(cfg, m, ch);
    hide Step;
    assert IsDigit(ClassOf(ch)) || (m.state == X1 && (ClassOf(ch) == Plus || ClassOf(ch) == Minus)) by { hide CharClass, BufferPolicy; }
    hide Transition, BufferPolicy;
  }

  /** All the digits at the start of `s`, and what follows them. */
  lemma {:induction false} FindDigits(s: Bytes) returns (b: Bytes, rest: Bytes)
    ensures s == b + rest && AreDigits(b) && (rest != [] ==> !IsDigitByte(rest[0]))
    ensures s != [] && IsDigitByte(s[0]) ==> b != [] && b[0] == s[0]
    decreases |s|
  {
    if s == [] || !IsDigitByte(s[0]) {
      b, rest := [], s;
    } else {
      b, rest := FindDigits(s[1..]);
      b := [s[0]] + b;
    }
  }

  /** The bytes that may follow a number. */
  predicate IsDelimiter(ch: Byte) {
    IsBlank(ch) || ch == SLASH || ch == HASH || ch == COMMA || ch == RCURB || ch == RSQRB
  }

  lemma DelimiterRead(cfg: Config, m: Machine, ch: Byte)
    requires Safe(m) && m.left == 0 && EndsNumber(m.state) && Step(cfg, m, ch).err == Success
    requires m.state != Z0 ==> !IsDigitByte(ch)
    requires m.state == Z0 || m.state == I0 ==> ch != DOT
    requires m.state == I0 || m.state == R2 ==> ch != 69 && ch != 101
    ensures IsDelimiter(ch)
  {
    ReadMeans(cfg, m, ch);
    hide Step;
    DelimiterClass(m.state, ch);
  }

  lemma DelimiterClass(s: State, ch: Byte)
    requires EndsNumber(s) && ClassOf(ch) != ErrorClass && Transition(s, ClassOf(ch)) != Reject
    requires s != Z0 ==> !IsDigitByte(ch)
    requires s == Z0 || s == I0 ==> ch != DOT
    requires s == I0 || s == R2 ==> ch != 69 && ch != 101
    ensures IsDelimiter(ch)
  {
    hide ClassOf, Transition;
    SharedRows(s, ClassOf(ch));
    DelimiterBytes(ch);
  }

  lemma DelimiterBytes(ch: Byte)
    ensures var c := ClassOf(ch);
      && (ValueEndOrComment(c) != Reject ==> IsDelimiter(ch)) && (IsDigit(c) ==> IsDigitByte(ch))
      && (c == Dot ==> ch == DOT) && (IsExponentMark(c) ==> ch == 69 || ch == 101)
  {}

  lemma SharedRows(s: State, c: Class)
    requires EndsNumber(s) && c != ErrorClass && Transition(s, c) != Reject
    ensures ValueEndOrComment(c) != Reject
      || (s != Z0 && IsDigit(c)) || ((s == Z0 || s == I0) && c == Dot) || ((s == I0 || s == R2) && IsExponentMark(c))
  {
    hide ValueEnd, CommentStart, StructureRow, StringRow, WordRow, CommentRow;
  }

  /** What remains after the number is over, or a delimiter follows. */
  predicate Delimited(m: Machine, s: Bytes) {
    EndsNumber(m.state) && s != [] ==> IsDelimiter(s[0])
  }

  lemma FindFraction(cfg: Config, m: Machine, s: Bytes) returns (b: Bytes, rest: Bytes)
    requires cfg.Unlimited() && m.left == 0 && (m.state == Z0 || m.state == I0) && Finishing(cfg, m, s)
    ensures s == FractionText(b) + rest && AreDigits(b)
    ensures rest != [] && if b == [] then rest == s && rest[0] != DOT else !IsDigitByte(rest[0])
  {
    hide Step, Finishing, Steps;
    NotDone(cfg, m, s);
    if s[0] != DOT {
      b, rest := [], s;
    } else {
      ReadDot(cfg, m);
      var m1 := FirstStep(cfg, m, s);
      hide Safe;
      b, rest := FindFractionDigits(cfg, m1, s[1..]);
      assert s == [DOT] + s[1..];
      hide Stored;
      assert [DOT] + (b + rest) == [DOT] + b + rest;
    }
  }

  lemma FindFractionDigits(cfg: Config, m: Machine, s: Bytes) returns (b: Bytes, rest: Bytes)
    requires cfg.Unlimited() && m.left == 0 && m.state == R1 && m.kind == FloatKind && Finishing(cfg, m, s)
    ensures s == b + rest && b != [] && AreDigits(b) && rest != [] && !IsDigitByte(rest[0])
  {
    hide Step, Finishing, Steps;
    NotDone(cfg, m, s);
    var m1 := FirstStep(cfg, m, s);
    DigitRead(cfg, m, s[0]);
    b, rest := FindDigits(s);
    ReadDigits(cfg, m, b);
    After(cfg, m, b, Stored(m, b, R2, FloatKind), rest);
    NotDone(cfg, Stored(m, b, R2, FloatKind), rest);
  }

  lemma FindExponent(cfg: Config, m: Machine, s: Bytes) returns (e: Exponent, rest: Bytes)
    requires cfg.Unlimited() && Safe(m) && m.left == 0 && Finishing(cfg, m, s)
    requires m.state == I0 || (m.state == R2 && m.kind == FloatKind)
    requires s != [] && (s[0] == 69 || s[0] == 101)
    ensures s == ExponentText(e) + rest && (rest != [] ==> !IsDigitByte(rest[0]))
    ensures e.Exponent? && e.mark == s[0] && e.digits != [] && AreDigits(e.digits)
    ensures e.sign == [] || e.sign == [PLUS] || e.sign == [MINUS]
  {
    hide Step, Finishing;
    ReadMark(cfg, m, s[0]);
    var m1 := FirstStep(cfg, m, s);
    var sign, digits;
    sign, digits, rest := FindSignedDigits(cfg, m1, s[1..]);
    e := Exponent(s[0], sign, digits);
    assert s == [s[0]] + (sign + digits + rest);
  }

  lemma FindSignedDigits(cfg: Config, m: Machine, s: Bytes) returns (sign: Bytes, digits: Bytes, rest: Bytes)
    requires cfg.Unlimited() && Safe(m) && m.left == 0 && m.state == X1 && Finishing(cfg, m, s)
    ensures s == sign + digits + rest && (rest != [] ==> !IsDigitByte(rest[0]))
    ensures sign == [] || sign == [PLUS] || sign == [MINUS]
    ensures digits != [] && AreDigits(digits)
  {
    hide Step, Finishing;
    NotDone(cfg, m, s);
    var m1 := FirstStep(cfg, m, s);
    DigitRead(cfg, m, s[0]);
    if IsDigitByte(s[0]) {
      sign := [];
      digits, rest := FindDigits(s);
    } else {
      sign := [s[0]];
      ReadExponentSign(cfg, m, s[0]);
      NotDone(cfg, m1, s[1..]);
      var m2 := FirstStep(cfg, m1, s[1..]);
      DigitRead(cfg, m1, s[1..][0]);
      digits, rest := FindDigits(s[1..]);
    }
  }

  lemma FindWhole(cfg: Config, m: Machine, s: Bytes) returns (negative: bool, whole: Bytes, rest: Bytes)
    requires cfg.Unlimited() && Safe(m) && m.left == 0 && ExpectsValue(m.state) && Finishing(cfg, m, s)
    requires s != [] && (s[0] == MINUS || IsDigitByte(s[0]))
    ensures s == (if negative then [MINUS] else []) + whole + rest
    ensures whole != [] && AreDigits(whole) && (whole[0] == ZERO ==> |whole| == 1)
    ensures whole[0] != ZERO && rest != [] ==> !IsDigitByte(rest[0])
  {
    hide Step, Finishing;
    negative := s[0] == MINUS;
    if negative {
      ReadMinus(cfg, m);
      var m1 := FirstStep(cfg, m, s);
      NotDone(cfg, m1, s[1..]);
      var m2 := FirstStep(cfg, m1, s[1..]);
      DigitRead(cfg, m1, s[1]);
    }
    var t := if negative then s[1..] else s;
    if t[0] == ZERO {
      whole, rest := [ZERO], t[1..];
    } else {
      whole, rest := FindDigits(t);
    }
  }

  lemma FindMantissa(cfg: Config, m: Machine, s: Bytes) returns (n: Number, rest: Bytes)
    requires cfg.Unlimited() && Safe(m) && m.left == 0 && ExpectsValue(m.state) && Finishing(cfg, m, s)
    requires s != [] && (s[0] == MINUS || IsDigitByte(s[0]))
    ensures IsNumber(n) && n.exponent.NoExponent? && s == MantissaText(n) + rest && rest != []
    ensures if n.fraction == [] then rest[0] != DOT else !IsDigitByte(rest[0])
    ensures n.fraction == [] && n.whole[0] != ZERO ==> !IsDigitByte(rest[0])
  {
    hide Step, Finishing, Steps, FractionText, MantissaText, Safe;
    var negative, whole, s1 := FindWhole(cfg, m, s);
    var n0 := Number(negative, whole, [], NoExponent);
    var w := SignText(n0) + whole;
    ReadWhole(cfg, m, n0);
    var m1 := Stored(m, w, WholeState(n0), IntKind);
    assert s == w + s1 && m1.left == 0 && (m1.state == Z0 || m1.state == I0);
    After(cfg, m, w, m1, s1);
    var fraction;
    fraction, rest := FindFraction(cfg, m1, s1);
    n := n0.(fraction := fraction);
    hide Stored, WholeState;
    MantissaJoins(n0, fraction, s1, rest);
    assert n.fraction == [] ==> rest == s1;
  }

  lemma MantissaJoins(n0: Number, fraction: Bytes, s1: Bytes, rest: Bytes)
    requires n0.fraction == [] && s1 == FractionText(fraction) + rest
    ensures SignText(n0) + n0.whole + s1 == MantissaText(n0.(fraction := fraction)) + rest
  {
    assert MantissaText(n0.(fraction := fraction)) == SignText(n0) + n0.whole + FractionText(fraction);
    hide FractionText, SignText, MantissaText;
  }

  lemma FindNumber(cfg: Config, m: Machine, s: Bytes) returns (n: Number, rest: Bytes)
    requires cfg.Unlimited() && Safe(m) && m.left == 0 && ExpectsValue(m.state) && Finishing(cfg, m, s)
    requires s != [] && (s[0] == MINUS || IsDigitByte(s[0]))
    ensures IsNumber(n) && s == NumberText(n) + rest
    ensures rest != [] ==> IsDelimiter(rest[0])
  {
    hide Step, Finishing, Steps, NumberText;
    var n0, s2 := FindMantissa(cfg, m, s);
    var m2 := Mantissa(m, n0);
    ReadMantissa(cfg, m, n0);
    hide MantissaText;
    After(cfg, m, MantissaText(n0), m2, s2);
    var m3 := FirstStep(cfg, m2, s2);
    if s2[0] != 69 && s2[0] != 101 {
      n, rest := n0, s2;
      NumberParts(n);
      assert MantissaText(n) + [] == MantissaText(n);
      DelimiterRead(cfg, m2, s2[0]);
    } else {
      MarkNotAfterZero(cfg, m2, s2[0]);
      var e;
      e, rest := FindExponent(cfg, m2, s2);
      n := WithExponent(n0, e, s2, rest);
      DelimitedAfterExponent(cfg, m, n, rest);
    }
  }

  lemma WithExponent(n0: Number, e: Exponent, s2: Bytes, rest: Bytes) returns (n: Number)
    requires IsNumber(n0) && n0.exponent.NoExponent? && s2 == ExponentText(e) + rest
    requires e.Exponent? && (e.mark == 69 || e.mark == 101) && e.digits != [] && AreDigits(e.digits)
    requires e.sign == [] || e.sign == [PLUS] || e.sign == [MINUS]
    requires n0.whole[0] == ZERO ==> n0.fraction != []
    ensures n.exponent.Exponent? && IsNumber(n) && NumberText(n) + rest == MantissaText(n0) + s2
  {
    n := n0.(exponent := e);
    NumberParts(n);
    SameMantissa(n0, e);
    hide MantissaText, NumberText, ExponentText, AreDigits;
    assert MantissaText(n) + (ExponentText(e) + rest) == MantissaText(n) + ExponentText(e) + rest;
  }

  lemma NumberParts(n: Number)
    ensures NumberText(n) == MantissaText(n) + ExponentText(n.exponent)
  {}

  lemma SameMantissa(n: Number, e: Exponent)
    ensures MantissaText(n.(exponent := e)) == MantissaText(n)
  {}

  lemma MarkNotAfterZero(cfg: Config, m: Machine, ch: Byte)
    requires Safe(m) && m.left == 0 && (ch == 69 || ch == 101) && Step(cfg, m, ch).err == Success
    ensures m.state != Z0
  {
    hide Step, Transition, CharClass;
    ReadMeans(cfg, m, ch);
    ZeroMarkCell(ch);
  }

  lemma ZeroMarkCell(ch: Byte)
    requires ch == 69 || ch == 101
    ensures Transition(Z0, ClassOf(ch)) == Reject
  {}

  lemma DelimitedAfterExponent(cfg: Config, m: Machine, n: Number, rest: Bytes)
    requires cfg.Unlimited() && Safe(m) && m.left == 0 && ExpectsValue(m.state)
    requires IsNumber(n) && n.exponent.Exponent? && Finishing(cfg, m, NumberText(n) + rest)
    requires rest != [] ==> !IsDigitByte(rest[0])
    ensures rest != [] ==> IsDelimiter(rest[0])
  {
    hide Step, Finishing, Steps;
    if rest != [] {
      var m1 := ReadNumber(cfg, m, n);
      After(cfg, m, NumberText(n), m1, rest);
      var m2 := FirstStep(cfg, m1, rest);
      DelimiterRead(cfg, m1, rest[0]);
    }
  }

  // Words.

  lemma WordByteRead(cfg: Config, m: Machine, ch: Byte)
    requires Safe(m) && m.left == 0 && IsWordState(m.state) && Step(cfg, m, ch).err == Success
    ensures ch < 0x80 && Passes(m.state, ch, WordRow(m.state, CharClass(ch))) && WordRow(m.state, CharClass(ch)) != Reject
  {
    ReadMeans(cfg, m, ch);
    hide Step;
    if ch < 0x80 { WordCell(m.state, ch); }
    hide BufferPolicy, CharClass;
  }

  /** The byte and the next cell of a word. */
  function WordNext(s: State): (Byte, Next) {
    match s
    case T1 => (114, Goto(T2)) case T2 => (117, Goto(T3)) case T3 => (101, Do(TrueWord))
    case F1 => (97, Goto(F2)) case F2 => (108, Goto(F3)) case F3 => (115, Goto(F4)) case F4 => (101, Do(FalseWord))
    case N1 => (117, Goto(N2)) case N2 => (108, Goto(N3)) case _ => (108, Do(NullWord))
  }

  lemma WordNextOnly(s: State, ch: Byte)
    requires IsWordState(s) && WordRow(s, CharClass(ch)) != Reject
    ensures ch == WordNext(s).0 && WordRow(s, CharClass(ch)) == WordNext(s).1
  {}

  lemma FindWordByte(cfg: Config, m: Machine, s: Bytes) returns (m': Machine)
    requires Safe(m) && m.left == 0 && IsWordState(m.state) && Finishing(cfg, m, s)
    ensures s != [] && s[0] == WordNext(m.state).0 && Finishing(cfg, m', s[1..])
    ensures WordNext(m.state).1.Goto? ==> m' == m.(state := WordNext(m.state).1.state)
  {
    hide Step, Finishing;
    NotDone(cfg, m, s);
    m' := FirstStep(cfg, m, s);
    WordByteRead(cfg, m, s[0]);
    WordNextOnly(m.state, s[0]);
    hide Passes, WordRow, CharClass;
    Pass(cfg, m, s[0], WordNext(m.state).1);
  }

  lemma FindWordRest(cfg: Config, m: Machine, s: Bytes)
    requires Safe(m) && m.left == 0 && (m.state == T1 || m.state == N1 || m.state == F2) && Finishing(cfg, m, s)
    ensures (if m.state == T1 then [114, 117, 101] else if m.state == N1 then [117, 108, 108] else [108, 115, 101]) <= s
  {
    hide Step, Finishing;
    var m1 := FindWordByte(cfg, m, s);
    var m2 := FindWordByte(cfg, m1, s[1..]);
    var m3 := FindWordByte(cfg, m2, s[1..][1..]);
    hide Safe;
    ThreeBytes(s, WordNext(m.state).0, WordNext(m1.state).0, WordNext(m2.state).0);
  }

  lemma ThreeBytes(s: Bytes, a: Byte, b: Byte, c: Byte)
    requires |s| >= 3 && s[0] == a && s[1..][0] == b && s[1..][1..][0] == c
    ensures [a, b, c] <= s
  {}

  lemma FindWord(cfg: Config, m: Machine, s: Bytes) returns (k: Kind)
    requires Safe(m) && m.left == 0 && ExpectsValue(m.state) && Finishing(cfg, m, s)
    requires s != [] && (s[0] == 116 || s[0] == 102 || s[0] == 110)
    ensures IsWordKind(k) && WordText(k) <= s
  {
    hide Step, Finishing, Passes;
    WordStartCells(m.state);
    var m1 := FirstStep(cfg, m, s);
    if s[0] == 116 {
      k := TrueKind;
      Pass(cfg, m, 116, Goto(T1));
      FindWordRest(cfg, m1, s[1..]);
    } else if s[0] == 110 {
      k := NullKind;
      Pass(cfg, m, 110, Goto(N1));
      FindWordRest(cfg, m1, s[1..]);
    } else {
      k := FalseKind;
      Pass(cfg, m, 102, Goto(F1));
      var m2 := FindWordByte(cfg, m1, s[1..]);
      FindWordRest(cfg, m2, s[1..][1..]);
    }
  }
}
