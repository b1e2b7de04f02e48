/** Completeness, concluded: comments, words, lexemes and whole documents. */
module JsonCompleteness {
  import opened Options
  import opened JsonTypes
  import opened JsonTables
  import opened JsonMachine
  import opened JsonSyntax
  import opened JsonUnicode
  import opened JsonText
  import opened JsonReads
  import opened JsonReadsStrings

  // Comments.

  /** Inside the body of a comment, between two characters. */
  predicate InComment(m: Machine) {
    (m.state == C2 || m.state == C3 || m.state == Y1) && m.left == 0 && m.multi == 0 && m.kind == NoKind
  }

  /** The state a byte of the body that does not end the comment leads to. */
  function BodyState(s: State, ch: Byte): State {
    if s == Y1 then Y1 else if ch == STAR then C3 else C2
  }

  predicate EndsComment(s: State, ch: Byte) {
    (s == C3 && ch == SLASH) || (s == Y1 && ch == LF)
  }

  lemma BodyByteClass(ch: Byte)
    requires ch < 0x80 && (ch >= SPACE || IsBlank(ch))
    ensures CharClass(ch) != ErrorClass
    ensures (CharClass(ch) == Star <==> ch == STAR) && (CharClass(ch) == Slash <==> ch == SLASH) && (CharClass(ch) == NewLine <==> ch == LF)
  {}

  lemma BodyByteCell(s: State, c: Class)
    requires (s == C2 || s == C3 || s == Y1) && c != ErrorClass && !(s == C3 && c == Slash) && !(s == Y1 && c == NewLine)
    ensures BufferPolicy(s, c) == Ignore
    ensures Transition(s, c) == Goto(if s == Y1 then Y1 else if c == Star then C3 else C2)
  {
    hide StructureRow, StringRow, NumberRow, WordRow;
  }

  lemma ReadBodyByte(cfg: Config, m: Machine, ch: Byte)
    requires InComment(m) && ch < 0x80 && (ch >= SPACE || IsBlank(ch)) && !EndsComment(m.state, ch)
    ensures Safe(m) && Step(cfg, m, ch) == Outcome(m.(state := BodyState(m.state, ch)), Success)
  {
    hide CharClass, Transition, BufferPolicy, Step;
    BodyByteClass(ch);
    BodyByteCell(m.state, CharClass(ch));
    StepIgnoring(cfg, m, ch);
  }

  lemma ReadBodyLead(cfg: Config, m: Machine, ch: Byte)
    requires InComment(m) && 0 < Utf8Header(ch) < 255
    ensures Safe(m) &&
      Step(cfg, m, ch) == Outcome(m.(left := Utf8Header(ch), state := BodyState(m.state, ch)), Success)
  {
    hide CharClass, Transition, BufferPolicy;
    BodyByteCell(m.state, Other);
    assert ch != STAR;
  }

  lemma ReadBodyContinuation(cfg: Config, m: Machine, ch: Byte)
    requires InComment(m.(left := 0)) && m.left > 0 && m.state != C3 && IsContinuation(ch)
    ensures Safe(m) && Step(cfg, m, ch) == Outcome(m.(left := m.left - 1), Success)
  {
    hide CharClass, Transition, BufferPolicy;
    BodyByteCell(m.state, Other);
  }

  lemma {:induction false} ReadBodyContinuations(cfg: Config, m: Machine, b: Bytes)
    requires InComment(m.(left := 0)) && m.left == |b| && m.state != C3
    requires forall i :: 0 <= i < |b| ==> IsContinuation(b[i])
    ensures Steps(cfg, m, b, m.(left := 0))
    decreases |b|
  {
    hide Step, Steps;
    if b == [] {
      ReadNothing(cfg, m);
    } else {
      ReadBodyContinuation(cfg, m, b[0]);
      ReadBodyContinuations(cfg, m.(left := m.left - 1), b[1..]);
      StepsCons(cfg, m, b[0], m.(left := m.left - 1), b[1..], m.(left := 0));
      assert b == [b[0]] + b[1..];
    }
  }

  lemma ReadBodyMulti(cfg: Config, m: Machine, b: Bytes)
    requires InComment(m) && IsMulti(b)
    ensures Steps(cfg, m, b, m.(state := BodyState(m.state, b[0])))
  {
    hide Step, Steps;
    var m' := m.(left := Utf8Header(b[0]), state := BodyState(m.state, b[0]));
    ReadBodyLead(cfg, m, b[0]);
    ReadBodyContinuations(cfg, m', b[1..]);
    StepsCons(cfg, m, b[0], m', b[1..], m'.(left := 0));
    assert b == [b[0]] + b[1..];
  }

  /** Where the end of a comment leaves the parser. */
  function AfterComment(m: Machine): Machine {
    ActEndComment(m).(kind := NoKind)
  }

  lemma EndIgnoresState(m: Machine, s: State)
    ensures AfterComment(m.(state := s)) == AfterComment(m)
  {}

  lemma CommentEndCell(s: State, ch: Byte)
    requires EndsComment(s, ch)
    ensures ch < 0x80 && CharClass(ch) != ErrorClass
    ensures Transition(s, CharClass(ch)) == Do(EndComment) && BufferPolicy(s, CharClass(ch)) == Ignore
  {}

  lemma ReadCommentEnd(cfg: Config, m: Machine, ch: Byte)
    requires InComment(m) && EndsComment(m.state, ch)
    ensures Safe(m) && Step(cfg, m, ch) == Outcome(AfterComment(m), Success)
  {
    hide Transition, BufferPolicy, CharClass, EndsComment, Step, IsStructural, IsCommentBody;
    CommentEndCell(m.state, ch);
    assert Safe(m);
    hide HexTail, HexNeed, Safe;
    StepIgnoring(cfg, m, ch);
  }

  /** The bytes that close the comment `s` is in. */
  function Closing(s: State): Bytes {
    if s == Y1 then [LF] else [STAR, SLASH]
  }

  /** No byte of `b` ends a comment read from state `s`. */
  predicate StaysOpen(s: State, b: Bytes) {
    if s == Y1 then LF !in b
    else
      && (s == C3 && b != [] ==> b[0] != SLASH)
      && forall i :: 0 <= i < |b| - 1 ==> !(b[i] == STAR && b[i + 1] == SLASH)
  }

  lemma ReadClosing(cfg: Config, m: Machine)
    requires InComment(m)
    ensures Steps(cfg, m, Closing(m.state), AfterComment(m))
  {
    hide Step, Steps;
    if m.state == Y1 {
      ReadCommentEnd(cfg, m, LF);
      ReadByte(cfg, m, LF, AfterComment(m));
    } else {
      var m' := m.(state := C3);
      ReadBodyByte(cfg, m, STAR);
      ReadCommentEnd(cfg, m', SLASH);
      ReadByte(cfg, m', SLASH, AfterComment(m));
      StepsCons(cfg, m, STAR, m', [SLASH], AfterComment(m));
      assert [STAR] + [SLASH] == [STAR, SLASH];
    }
  }

  lemma SameClosing(s: State, ch: Byte)
    ensures Closing(BodyState(s, ch)) == Closing(s)
  {}

  /** The first character of a body, and the rest. */
  lemma BodySplits(s: State, b: Bytes, n: nat)
    requires b != [] && IsCommentBody(b) && StaysOpen(s, b) && (s == C2 || s == C3 || s == Y1)
    requires n == if b[0] < 0x80 then 1 else 1 + Utf8Header(b[0])
    ensures n <= |b| && b == b[..n] + b[n..] && IsCommentBody(b[n..]) && StaysOpen(BodyState(s, b[0]), b[n..])
    ensures if b[0] < 0x80 then (b[0] >= SPACE || IsBlank(b[0])) && !EndsComment(s, b[0]) && b[..n] == [b[0]] else IsMulti(b[..n])
  {
    BodyRest(b, n);
    OpenRest(s, b, n);
    hide IsCommentBody, StaysOpen, IsMulti;
  }

  lemma BodyRest(b: Bytes, n: nat)
    requires b != [] && IsCommentBody(b) && n == if b[0] < 0x80 then 1 else 1 + Utf8Header(b[0])
    ensures n <= |b| && IsCommentBody(b[n..]) && (b[0] >= 0x80 ==> IsMulti(b[..n])) && (b[0] >= SPACE || IsBlank(b[0]))
  {
    assert forall i :: 0 <= i < |b| - n ==> b[n..][i] == b[n + i];
  }

  lemma OpenRest(s: State, b: Bytes, n: nat)
    requires b != [] && 0 < n <= |b| && StaysOpen(s, b) && (s == C2 || s == C3 || s == Y1) && (b[0] < 0x80 ==> n == 1)
    ensures StaysOpen(BodyState(s, b[0]), b[n..]) && !EndsComment(s, b[0])
  {
    assert forall i :: 0 <= i < |b| - n ==> b[n..][i] == b[n + i];
    if b[0] == STAR && |b| > 1 { assert b[1] != SLASH || s == Y1; }
  }

  lemma {:induction false} ReadBody(cfg: Config, m: Machine, b: Bytes)
    requires InComment(m) && IsCommentBody(b) && StaysOpen(m.state, b)
    ensures Steps(cfg, m, b + Closing(m.state), AfterComment(m))
    decreases |b|
  {
    hide Step, Steps, AfterComment, IsCommentBody, StaysOpen, Closing, IsMulti, EndsComment;
    if b == [] {
      assert b + Closing(m.state) == Closing(m.state);
      ReadClosing(cfg, m);
    } else {
      var n := if b[0] < 0x80 then 1 else 1 + Utf8Header(b[0]);
      var m' := m.(state := BodyState(m.state, b[0]));
      BodySplits(m.state, b, n);
      if b[0] < 0x80 {
        ReadBodyByte(cfg, m, b[0]);
        ReadByte(cfg, m, b[0], m');
      } else {
        ReadBodyMulti(cfg, m, b[..n]);
      }
      ReadBody(cfg, m', b[n..]);
      EndIgnoresState(m, m'.state);
      SameClosing(m.state, b[0]);
      hide InComment, BodyState, Safe;
      StepsTrans(cfg, m, b[..n], m', b[n..] + Closing(m.state), AfterComment(m));
      assert b + Closing(m.state) == b[..n] + (b[n..] + Closing(m.state));
    }
  }

  /** Just inside a comment begun where `m` was, pending value reported. */
  function EnterComment(m: Machine, s: State): Machine {
    DoBuffer(m).(save := m.state, state := s, kind := NoKind)
  }

  lemma ReadCommentStart(cfg: Config, m: Machine, yaml: bool)
    requires Settled(m) && m.state != X3 && (if yaml then cfg.allowYaml else cfg.allowC)
    ensures Safe(m) &&
      Step(cfg, m, if yaml then HASH else SLASH) == Outcome(EnterComment(m, if yaml then Y1 else C1), Success)
  {
    hide CharClass, Transition, BufferPolicy;
    SettledIsSafe(m);
    CommentCell(m.state, yaml);
    StepIgnoring(cfg, m, if yaml then HASH else SLASH);
    hide Step;
  }

  lemma CommentCell(s: State, yaml: bool)
    requires IsStructural(s) || (EndsNumber(s) && s != X3)
    ensures var ch := if yaml then HASH else SLASH;
      && CharClass(ch) != ErrorClass && BufferPolicy(s, CharClass(ch)) == Ignore
      && Transition(s, CharClass(ch)) == Do(if yaml then BeginYamlComment else BeginCComment)
  {
    assert CharClass(HASH) == Hash && CharClass(SLASH) == Slash;
    hide CharClass, StructureRow, NumberRow, StringRow, CommentRow, WordRow;
    var c := if yaml then Hash else Slash;
    if IsStructural(s) { CommentFromStructure(s, c); } else { CommentFromNumber(s, c); }
  }

  lemma CommentFromStructure(s: State, c: Class)
    requires IsStructural(s) && (c == Slash || c == Hash)
    ensures StructureRow(s, c) == CommentStart(c)
  {}

  lemma CommentFromNumber(s: State, c: Class)
    requires (s == Z0 || s == I0 || s == R2) && (c == Slash || c == Hash)
    ensures NumberRow(s, c) == CommentStart(c)
  {}

  lemma ReadSecondStar(cfg: Config, m: Machine)
    requires Safe(m) && m.left == 0 && m.state == C1
    ensures Step(cfg, m, STAR) == Outcome(m.(state := C2), Success)
  {
    StepIgnoring(cfg, m, STAR);
    hide Step;
  }

  /** After a comment the parser is where it was, with nothing pending. */
  lemma CommentSettles(m: Machine, s: State)
    requires Settled(m) && m.state != X3
    ensures var m' := AfterComment(EnterComment(m, s));
      Settled(m') && PlaceOf(m') == PlaceOf(m) && m'.state == PlaceOf(m).at && m'.kind == NoKind
  {}

  lemma EnterCommentFields(m: Machine)
    requires Settled(m)
    ensures InComment(EnterComment(m, C2)) && InComment(EnterComment(m, Y1)) && Safe(EnterComment(m, C1))
    ensures EnterComment(m, C1).state == C1 && EnterComment(m, C1).left == 0
    ensures EnterComment(m, C2) == EnterComment(m, C1).(state := C2) && EnterComment(m, Y1).state == Y1
  {}

  lemma ReadCComment(cfg: Config, m: Machine, b: Bytes)
    requires Settled(m) && IsFiller(cfg, CComment(b)) && m.state != X3
    ensures Steps(cfg, m, FillerText(CComment(b)), AfterComment(EnterComment(m, C2)))
  {
    hide Step, Steps, AfterComment, EnterComment, IsCommentBody, Settled;
    var m1, m2 := EnterComment(m, C1), EnterComment(m, C2);
    var m' := AfterComment(m2);
    EnterCommentFields(m);
    ReadCommentStart(cfg, m, false);
    ReadSecondStar(cfg, m1);
    ReadBody(cfg, m2, b);
    hide InComment, Safe;
    StepsCons(cfg, m1, STAR, m2, b + [STAR, SLASH], m');
    StepsCons(cfg, m, SLASH, m1, [STAR] + (b + [STAR, SLASH]), m');
    assert FillerText(CComment(b)) == [SLASH] + ([STAR] + (b + [STAR, SLASH]));
  }

  lemma ReadYamlComment(cfg: Config, m: Machine, b: Bytes)
    requires Settled(m) && IsFiller(cfg, YamlComment(b)) && m.state != X3
    ensures Steps(cfg, m, FillerText(YamlComment(b)), AfterComment(EnterComment(m, Y1)))
  {
    hide Step, Steps, AfterComment, EnterComment, IsCommentBody, Settled;
    var m1 := EnterComment(m, Y1);
    var m' := AfterComment(m1);
    EnterCommentFields(m);
    ReadCommentStart(cfg, m, true);
    ReadBody(cfg, m1, b);
    hide InComment, Safe;
    StepsCons(cfg, m, HASH, m1, b + [LF], m');
    assert FillerText(YamlComment(b)) == [HASH] + (b + [LF]);
  }

  lemma ReadFiller(cfg: Config, m: Machine, f: Filler) returns (m': Machine)
    requires Settled(m) && IsFiller(cfg, f) && (m.state == X3 ==> f.Blank?)
    ensures Steps(cfg, m, FillerText(f), m')
    ensures Settled(m') && PlaceOf(m') == PlaceOf(m) && m'.state == PlaceOf(m).at
  {
    hide Step, Steps, AfterComment, EnterComment, PlaceOf, Settled, IsCommentBody;
    match f
    case Blank(ch) =>
      m' := ReadBlank(cfg, m, ch);
      ReadByte(cfg, m, ch, m');
    case CComment(b) =>
      m' := AfterComment(EnterComment(m, C2));
      ReadCComment(cfg, m, b);
      CommentSettles(m, C2);
    case YamlComment(b) =>
      m' := AfterComment(EnterComment(m, Y1));
      ReadYamlComment(cfg, m, b);
      CommentSettles(m, Y1);
  }

  lemma {:induction false} ReadFillers(cfg: Config, m: Machine, fs: seq<Filler>) returns (m': Machine)
    requires Settled(m) && AreFillers(cfg, fs) && MayFollow(m.state == X3, fs)
    ensures Steps(cfg, m, FillersText(fs), m')
    ensures Settled(m') && PlaceOf(m') == PlaceOf(m) && (m'.state == m.state || m'.state == PlaceOf(m).at)
    decreases |fs|
  {
    hide Step, Steps, Settled, FillerText, IsFiller;
    if fs == [] {
      SettledIsSafe(m);
      ReadNothing(cfg, m);
      m' := m;
    } else {
      var m1 := ReadFiller(cfg, m, fs[0]);
      m' := ReadFillers(cfg, m1, fs[1..]);
      StepsTrans(cfg, m, FillerText(fs[0]), m1, FillersText(fs[1..]), m');
    }
  }

  // Words.

  /** The cell is one a word passes through without storing anything. */
  predicate Passes(s: State, ch: Byte, next: Next) {
    && ch < 0x80 && CharClass(ch) != ErrorClass
    && Transition(s, CharClass(ch)) == next && BufferPolicy(s, CharClass(ch)) == Ignore
  }

  predicate IsWordState(s: State) {
    s == T1 || s == T2 || s == T3 || s == F1 || s == F2 || s == F3 || s == F4 || s == N1 || s == N2 || s == N3
  }

  lemma WordCell(s: State, ch: Byte)
    requires IsWordState(s) && ch < 0x80 && CharClass(ch) != ErrorClass
    ensures Passes(s, ch, WordRow(s, CharClass(ch)))
  {
    hide CharClass, WordRow, StructureRow, StringRow, NumberRow, CommentRow, IsHex, IsDigit, IsEscapeLetter;
    InNoOtherGroup(s);
    hide IsStructural, IsStringState, IsNumberState, IsCommentState;
  }

  lemma InNoOtherGroup(s: State)
    requires IsWordState(s)
    ensures !IsStructural(s) && !IsStringState(s) && !IsNumberState(s) && !IsCommentState(s)
  {}

  /** The classes of the letters of the three words. */
  lemma Letters()
    ensures CharClass(97) == LowA && CharClass(101) == LowE && CharClass(102) == LowF && CharClass(108) == LowL
    ensures CharClass(110) == LowN && CharClass(114) == LowR && CharClass(115) == LowS && CharClass(116) == LowT && CharClass(117) == LowU
  {}

  lemma TrueCells()
    ensures Passes(T1, 114, Goto(T2)) && Passes(T2, 117, Goto(T3)) && Passes(T3, 101, Do(TrueWord))
  {
    hide Passes, CharClass;
    Letters();
    WordCell(T1, 114);
    WordCell(T2, 117);
    WordCell(T3, 101);
  }

  lemma FalseCells()
    ensures Passes(F1, 97, Goto(F2)) && Passes(F2, 108, Goto(F3)) && Passes(F3, 115, Goto(F4)) && Passes(F4, 101, Do(FalseWord))
  {
    hide Passes, CharClass;
    Letters();
    WordCell(F1, 97);
    WordCell(F2, 108);
    WordCell(F3, 115);
    WordCell(F4, 101);
  }

  lemma NullCells()
    ensures Passes(N1, 117, Goto(N2)) && Passes(N2, 108, Goto(N3)) && Passes(N3, 108, Do(NullWord))
  {
    hide Passes, CharClass;
    Letters();
    WordCell(N1, 117);
    WordCell(N2, 108);
    WordCell(N3, 108);
  }

  lemma WordStartCells(s: State)
    requires ExpectsValue(s)
    ensures Passes(s, 116, Goto(T1)) && Passes(s, 102, Goto(F1)) && Passes(s, 110, Goto(N1))
  {
    hide CharClass, StructureRow, StringRow, NumberRow, CommentRow, WordRow, BufferPolicy;
    Letters();
    WordStartRow(s);
  }

  lemma WordStartRow(s: State)
    requires ExpectsValue(s)
    ensures StructureRow(s, LowT) == Goto(T1) && StructureRow(s, LowF) == Goto(F1) && StructureRow(s, LowN) == Goto(N1)
    ensures BufferPolicy(s, LowT) == Ignore && BufferPolicy(s, LowF) == Ignore && BufferPolicy(s, LowN) == Ignore
  {}

  lemma Pass(cfg: Config, m: Machine, ch: Byte, next: Next)
    requires Safe(m) && m.left == 0 && Passes(m.state, ch, next)
    requires next.Goto? || next == Do(TrueWord) || next == Do(FalseWord) || next == Do(NullWord)
    ensures Step(cfg, m, ch) == if next.Goto? then Outcome(m.(state := next.state), Success) else DoAction(cfg, m, next.action)
  {
    StepIgnoring(cfg, m, ch);
    hide Step, CharClass, Transition, BufferPolicy;
  }

  lemma ReadTrue(cfg: Config, m: Machine)
    requires Safe(m) && m.left == 0 && ExpectsValue(m.state)
    ensures Steps(cfg, m, TRUE_TEXT, m.(state := OK, kind := TrueKind))
  {
    hide Step, Steps, Passes;
    TrueCells();
    WordStartCells(m.state);
    var m1, m2, m3, m' := m.(state := T1), m.(state := T2), m.(state := T3), m.(state := OK, kind := TrueKind);
    Pass(cfg, m, 116, Goto(T1));
    Pass(cfg, m1, 114, Goto(T2));
    Pass(cfg, m2, 117, Goto(T3));
    Pass(cfg, m3, 101, Do(TrueWord));
    ReadThree(cfg, m1, 114, m2, 117, m3, 101, m');
    StepsCons(cfg, m, 116, m1, [114, 117, 101], m');
    assert TRUE_TEXT == [116] + [114, 117, 101];
  }

  lemma ReadNull(cfg: Config, m: Machine)
    requires Safe(m) && m.left == 0 && ExpectsValue(m.state)
    ensures Steps(cfg, m, NULL_TEXT, m.(state := OK, kind := NullKind))
  {
    hide Step, Steps, Passes;
    NullCells();
    WordStartCells(m.state);
    var m1, m2, m3, m' := m.(state := N1), m.(state := N2), m.(state := N3), m.(state := OK, kind := NullKind);
    Pass(cfg, m, 110, Goto(N1));
    Pass(cfg, m1, 117, Goto(N2));
    Pass(cfg, m2, 108, Goto(N3));
    Pass(cfg, m3, 108, Do(NullWord));
    ReadThree(cfg, m1, 117, m2, 108, m3, 108, m');
    StepsCons(cfg, m, 110, m1, [117, 108, 108], m');
    assert NULL_TEXT == [110] + [117, 108, 108];
  }

  lemma ReadFalse(cfg: Config, m: Machine)
    requires Safe(m) && m.left == 0 && ExpectsValue(m.state)
    ensures Steps(cfg, m, FALSE_TEXT, m.(state := OK, kind := FalseKind))
  {
    hide Step, Steps, Passes;
    FalseCells();
    WordStartCells(m.state);
    var m1, m2, m3, m4 := m.(state := F1), m.(state := F2), m.(state := F3), m.(state := F4);
    var m' := m.(state := OK, kind := FalseKind);
    Pass(cfg, m, 102, Goto(F1));
    Pass(cfg, m1, 97, Goto(F2));
    Pass(cfg, m2, 108, Goto(F3));
    Pass(cfg, m3, 115, Goto(F4));
    Pass(cfg, m4, 101, Do(FalseWord));
    ReadThree(cfg, m2, 108, m3, 115, m4, 101, m');
    StepsCons(cfg, m1, 97, m2, [108, 115, 101], m');
    StepsCons(cfg, m, 102, m1, [97] + [108, 115, 101], m');
    assert FALSE_TEXT == [102] + ([97] + [108, 115, 101]);
  }

  lemma ReadThree(cfg: Config, m: Machine, a: Byte, m1: Machine, b: Byte, m2: Machine, c: Byte, m': Machine)
    requires Safe(m) && Safe(m1) && Safe(m2)
    requires Step(cfg, m, a) == Outcome(m1, Success)
    requires Step(cfg, m1, b) == Outcome(m2, Success)
    requires Step(cfg, m2, c) == Outcome(m', Success)
    ensures Steps(cfg, m, [a, b, c], m')
  {
    hide Step, Steps, Safe;
    ReadByte(cfg, m2, c, m');
    StepsCons(cfg, m1, b, m2, [c], m');
    StepsCons(cfg, m, a, m1, [b] + [c], m');
    assert [a, b, c] == [a] + ([b] + [c]);
  }

  lemma ReadWord(cfg: Config, m: Machine, k: Kind)
    requires Safe(m) && m.left == 0 && ExpectsValue(m.state) && IsWordKind(k)
    ensures Steps(cfg, m, WordText(k), m.(state := OK, kind := k))
  {
    hide Steps;
    if k == TrueKind {
      ReadTrue(cfg, m);
    } else if k == FalseKind {
      ReadFalse(cfg, m);
    } else {
      ReadNull(cfg, m);
    }
  }

  // Lexemes and documents.

  lemma ReadLexeme(cfg: Config, m: Machine, l: Lexeme) returns (m': Machine)
    requires cfg.Unlimited() && Settled(m) && IsLexeme(l) && Read(PlaceOf(m), LexemeSymbol(l)).Some?
    ensures Steps(cfg, m, LexemeText(l), m')
    ensures Settled(m') && Read(PlaceOf(m), LexemeSymbol(l)) == Some(PlaceOf(m'))
    ensures (m'.state == X3 <==> HasExponent(l)) && (EndsNumber(m'.state) ==> l.Numeral?)
  {
    hide Step, Steps;
    SettledIsSafe(m);
    match l
    case Punct(sym) =>
      m' := ReadPunct(cfg, m, sym);
    case Quoted(ps) =>
      m' := ReadString(cfg, m, ps);
      StringSettles(m, StringData(ps));
    case Numeral(n) =>
      m' := ReadNumber(cfg, m, n);
      ScalarSettles(m, m', NumberText(n));
    case Word(k) =>
      m' := m.(state := OK, kind := k);
      ReadWord(cfg, m, k);
      ScalarSettles(m, m', []);
  }

  lemma ScalarSettles(m: Machine, m': Machine, data: Bytes)
    requires Settled(m) && ExpectsValue(m.state)
    requires m' == Stored(m, data, m'.state, m'.kind)
    requires if data == [] then IsWordKind(m'.kind) && m'.state == OK
             else (m'.kind == IntKind || m'.kind == FloatKind) && EndsNumber(m'.state)
    ensures Settled(m') && Read(PlaceOf(m), ScalarSym(m'.kind, data)) == Some(PlaceOf(m'))
  {
    assert m.buf + data == data;
  }

  lemma {:induction false} ReadPieces(cfg: Config, m: Machine, ps: seq<Piece>) returns (m': Machine)
    requires cfg.Unlimited() && Settled(m) && ArePieces(cfg, ps) && AreLexemes(ps)
    requires Separated(m.state == X3, ps) && ReadAll(PlaceOf(m), PiecesSymbols(ps)).Some?
    ensures Steps(cfg, m, PiecesText(ps), m')
    ensures Settled(m') && ReadAll(PlaceOf(m), PiecesSymbols(ps)) == Some(PlaceOf(m'))
    decreases |ps|
  {
    hide Step, Steps, Settled, PlaceOf, Read, LexemeText, FillersText, LexemeSymbol, IsLexeme, AreFillers, MayFollow;
    if ps == [] {
      SettledIsSafe(m);
      ReadNothing(cfg, m);
      m' := m;
    } else {
      var m1 := ReadFillers(cfg, m, ps[0].pre);
      var m2 := ReadLexeme(cfg, m1, ps[0].lexeme);
      m' := ReadPieces(cfg, m2, ps[1..]);
      StepsTrans(cfg, m, FillersText(ps[0].pre), m1, LexemeText(ps[0].lexeme), m2);
      StepsTrans(cfg, m, FillersText(ps[0].pre) + LexemeText(ps[0].lexeme), m2, PiecesText(ps[1..]), m');
    }
  }

  /** Every document is accepted, and what is reported is exactly its tree, in order. */
  lemma DocumentsAreAccepted(cfg: Config, d: Document, v: Json)
    requires cfg.Unlimited() && Spells(cfg, d, v)
    ensures Accepts(cfg, Text(d)) && Settled(Run(cfg, START, Text(d)).m)
    ensures Run(cfg, START, Text(d)).m.events == Linearise(v)
  {
    SymbolsOfDocuments(Symbols(v));
    hide Steps, Symbols, Linearise, PiecesSymbols, IsJson, AreFillers, ArePieces, AreLexemes, Separated;
    assert PlaceOf(START) == FIRST;
    var m := ReadPieces(cfg, START, d.pieces);
    var m' := ReadFillers(cfg, m, d.trail);
    StepsTrans(cfg, START, PiecesText(d.pieces), m, FillersText(d.trail), m');
    AcceptedSteps(cfg, Text(d), m');
  }

  lemma AcceptedSteps(cfg: Config, s: Bytes, m: Machine)
    requires Steps(cfg, START, s, m) && m.state == OK && m.stack == []
    ensures Accepts(cfg, s) && Run(cfg, START, s).m == m
  {
    hide Run;
  }
}
