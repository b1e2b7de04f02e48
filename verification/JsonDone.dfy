/**
  What return value 0 and `json_parser_is_done` together mean: a document has been read, or the text ends inside
  a comment, after a document or before one.
 */
module JsonDone {
  import opened Options
  import opened JsonTypes
  import opened JsonTables
  import opened JsonMachine
  import opened JsonSyntax
  import opened JsonText
  import opened JsonReads
  import opened JsonCompleteness
  import opened JsonSoundness
  import opened JsonGrammar
  import opened JsonDom
  import opened JsonInvariant
  import opened JsonLimits

  // Comments that have not been closed.

  /** How many continuation bytes are still due after the body of a comment, if its bytes are all allowed. */
  function LeftAfter(left: nat, b: Bytes): Option<nat>
    decreases |b|
  {
    if b == [] then Some(left)
    else if left > 0 then if IsContinuation(b[0]) then LeftAfter(left - 1, b[1..]) else None
    else if b[0] < 0x80 then if b[0] >= SPACE || IsBlank(b[0]) then LeftAfter(0, b[1..]) else None
    else if Utf8Header(b[0]) < 255 then LeftAfter(Utf8Header(b[0]), b[1..])
    else None
  }

  lemma {:induction false} LeftAppend(left: nat, a: Bytes, b: Bytes)
    ensures LeftAfter(left, a + b) == if LeftAfter(left, a).None? then None else LeftAfter(LeftAfter(left, a).value, b)
    decreases |a|
  {
    hide IsContinuation, Utf8Header, IsBlank;
    if a == [] {
      assert a + b == b;
    } else {
      assert (a + b)[1..] == a[1..] + b;
      if left > 0 { LeftAppend(left - 1, a[1..], b); }
      else if a[0] < 0x80 { LeftAppend(0, a[1..], b); }
      else { LeftAppend(Utf8Header(a[0]), a[1..], b); }
    }
  }

  lemma {:induction false} LeftContinuations(left: nat, b: Bytes)
    requires left <= |b|
    ensures LeftAfter(left, b) ==
      if forall i :: 0 <= i < left ==> IsContinuation(b[i]) then LeftAfter(0, b[left..]) else None
    decreases left
  {
    hide Utf8Header, IsBlank;
    if left > 0 {
      LeftContinuations(left - 1, b[1..]);
      assert b[1..][left - 1..] == b[left..];
      assert forall i :: 0 < i < left ==> b[i] == b[1..][i - 1];
      assert forall i :: 0 <= i < left - 1 ==> b[1..][i] == b[i + 1];
    }
  }

  lemma {:induction false} TooFewLeft(left: nat, b: Bytes)
    requires left > |b|
    ensures LeftAfter(left, b) != Some(0)
    decreases |b|
  {
    if b != [] && IsContinuation(b[0]) { TooFewLeft(left - 1, b[1..]); }
  }

  /** With nothing due at the end, the bytes are those of a body that can be closed. */
  lemma {:induction false} BodyIsWhole(b: Bytes)
    ensures LeftAfter(0, b) == Some(0) <==> IsCommentBody(b)
    decreases |b|
  {
    if b == [] {
    } else if b[0] < 0x80 {
      BodyIsWhole(b[1..]);
      OneMoreByte(b);
    } else {
      BodyOfCharacter(b);
    }
  }

  lemma OneMoreByte(b: Bytes)
    requires b != [] && b[0] < 0x80
    ensures IsCommentBody(b) <==> (b[0] >= SPACE || IsBlank(b[0])) && IsCommentBody(b[1..])
  {
    assert !IsMulti(b[..1]) by { assert b[..1][0] == b[0]; }
    assert forall i :: 0 < i < |b| ==> b[i] == b[1..][i - 1];
    assert forall i :: 0 <= i < |b| - 1 ==> b[1..][i] == b[i + 1];
  }

  lemma {:induction false} BodyOfCharacter(b: Bytes)
    requires b != [] && b[0] >= 0x80
    ensures LeftAfter(0, b) == Some(0) <==> IsCommentBody(b)
    decreases |b|, 0
  {
    var n := 1 + Utf8Header(b[0]);
    if n == 256 {
    } else if n > |b| {
      TooFewLeft(n - 1, b[1..]);
    } else {
      LeftContinuations(n - 1, b[1..]);
      assert b[1..][n - 1..] == b[n..];
      BodyIsWhole(b[n..]);
      CharacterBytes(b, n);
    }
  }

  lemma CharacterBytes(b: Bytes, n: nat)
    requires b != [] && b[0] >= 0x80 && n == 1 + Utf8Header(b[0]) && n <= |b| && n < 256
    ensures IsMulti(b[..n]) <==> forall i :: 0 <= i < n - 1 ==> IsContinuation(b[1..][i])
    ensures IsCommentBody(b) <==> IsMulti(b[..n]) && IsCommentBody(b[n..])
  {
    assert forall i :: 1 <= i < n ==> b[..n][i] == b[1..][i - 1];
    assert forall i :: 0 <= i < n - 1 ==> b[1..][i] == b[..n][i + 1];
    assert forall i :: n <= i < |b| ==> b[i] == b[n..][i - n];
    assert forall i :: 0 <= i < |b| - n ==> b[n..][i] == b[i + n];
    assert IsMulti(b[..n]) ==> forall i :: 0 <= i < n ==> b[i] == b[..n][i] && b[i] >= 0x80;
  }

  /** The body of a comment so far: nothing in it closes the comment, its bytes are allowed. */
  predicate IsOpenBody(s: State, b: Bytes) {
    StaysOpen(s, b) && LeftAfter(0, b).Some?
  }

  /** An allowed comment that has been begun and not closed, if only its first byte. */
  predicate IsUnfinished(cfg: Config, u: Bytes) {
    || (cfg.allowC && u == [SLASH])
    || (cfg.allowC && |u| >= 2 && u[..2] == [SLASH, STAR] && IsOpenBody(C2, u[2..]))
    || (cfg.allowYaml && |u| >= 1 && u[0] == HASH && IsOpenBody(Y1, u[1..]))
  }

  // They are read, and what is read inside a comment is one.

  /** The state behind an open body. */
  function BodyEnd(s: State, b: Bytes): State {
    if b == [] then s else BodyState(s, b[|b| - 1])
  }

  lemma {:induction false} DueAfterLead(b: Bytes)
    requires LeftAfter(0, b).Some? && LeftAfter(0, b).value > 0
    ensures b != [] && b[|b| - 1] >= 0x80
  {
    var n := |b| - 1;
    assert b != [];
    assert b == b[..n] + [b[n]];
    LeftAppend(0, b[..n], [b[n]]);
    OneLeft(LeftAfter(0, b[..n]).value, b[n]);
  }

  lemma OneLeft(left: nat, ch: Byte)
    ensures LeftAfter(left, [ch]) ==
      if left > 0 then if IsContinuation(ch) then Some(left - 1) else None
      else if ch < 0x80 then if ch >= SPACE || IsBlank(ch) then Some(0) else None
      else if Utf8Header(ch) < 255 then Some(Utf8Header(ch)) else None
  {
    assert [ch][1..] == [];
  }

  lemma OpenSnoc(s: State, b: Bytes, ch: Byte)
    requires s == C2 || s == Y1
    ensures StaysOpen(s, b + [ch]) <==> StaysOpen(s, b) && !EndsComment(BodyEnd(s, b), ch)
  {
    var c := b + [ch];
    assert forall i :: 0 <= i < |b| ==> c[i] == b[i];
    if s == Y1 {
      assert LF in c <==> LF in b || ch == LF;
    } else if b != [] {
      assert c[|b| - 1] == b[|b| - 1] && c[|b|] == ch;
    }
  }

  lemma LeftSnoc(b: Bytes, ch: Byte)
    ensures LeftAfter(0, b + [ch]) ==
      if LeftAfter(0, b).None? then None else LeftAfter(LeftAfter(0, b).value, [ch])
  {
    LeftAppend(0, b, [ch]);
  }

  /** The machine inside a comment begun by `m`, behind an open body. */
  function Behind(m: Machine, b: Bytes): Machine
    requires LeftAfter(0, b).Some?
  {
    m.(left := LeftAfter(0, b).value, state := BodyEnd(m.state, b))
  }

  lemma EndSnoc(s: State, b: Bytes, ch: Byte)
    requires s == C2 || s == Y1
    ensures BodyEnd(s, b + [ch]) == BodyState(s, ch) == BodyState(BodyEnd(s, b), ch)
    ensures BodyEnd(s, b) == C2 || BodyEnd(s, b) == C3 || BodyEnd(s, b) == Y1
  {}

  /** One byte more of the body of a comment. */
  lemma BodyStep(cfg: Config, m: Machine, b: Bytes, ch: Byte)
    requires InComment(m) && m.state != C3 && IsOpenBody(m.state, b) && IsOpenBody(m.state, b + [ch])
    ensures Safe(Behind(m, b)) && Step(cfg, Behind(m, b), ch) == Outcome(Behind(m, b + [ch]), Success)
  {
    hide Step, LeftAfter, IsContinuation, Utf8Header, StaysOpen, BodyState;
    var m' := Behind(m, b);
    LeftSnoc(b, ch);
    OneLeft(m'.left, ch);
    OpenSnoc(m.state, b, ch);
    EndSnoc(m.state, b, ch);
    if m'.left > 0 {
      DueAfterLead(b);
      LongKeeps(m.state, b, ch);
      ReadBodyContinuation(cfg, m', ch);
    } else if ch < 0x80 {
      ReadBodyByte(cfg, m', ch);
    } else {
      assert Utf8Header(ch) > 0 by { LeadIsLong(ch); }
      ReadBodyLead(cfg, m', ch);
    }
  }

  lemma LeadIsLong(ch: Byte)
    requires ch >= 0x80
    ensures Utf8Header(ch) > 0
  {}

  lemma LongKeeps(s: State, b: Bytes, ch: Byte)
    requires (s == C2 || s == Y1) && b != [] && b[|b| - 1] >= 0x80 && IsContinuation(ch)
    ensures BodyEnd(s, b) != C3 && BodyEnd(s, b + [ch]) == BodyEnd(s, b)
  {}

  lemma {:induction false} BodyRuns(cfg: Config, m: Machine, b: Bytes)
    requires InComment(m) && m.state != C3 && IsOpenBody(m.state, b)
    ensures Steps(cfg, m, b, Behind(m, b))
    decreases |b|
  {
    hide Step, Steps, LeftAfter, StaysOpen, BodyEnd;
    if b == [] {
      assert Behind(m, b) == m by { NoBody(m); }
      assert Safe(m);
      ReadNothing(cfg, m);
    } else {
      var n := |b| - 1;
      var c, ch := b[..n], b[n];
      assert b == c + [ch];
      LeftSnoc(c, ch);
      OpenSnoc(m.state, c, ch);
      BodyRuns(cfg, m, c);
      BodyStep(cfg, m, c, ch);
      hide Safe, InComment, Behind;
      ReadByte(cfg, Behind(m, c), ch, Behind(m, b));
      StepsTrans(cfg, m, c, Behind(m, c), [ch], Behind(m, b));
    }
  }

  lemma NoBody(m: Machine)
    requires m.left == 0
    ensures LeftAfter(0, []).Some? && Behind(m, []) == m
  {}

  /** A byte read inside a comment that does not close it goes on with its body. */
  lemma BodyGoesOn(cfg: Config, m: Machine, b: Bytes, ch: Byte)
    requires InComment(m) && m.state != C3 && IsOpenBody(m.state, b) && Safe(Behind(m, b))
    requires Step(cfg, Behind(m, b), ch).err == Success && IsCommentState(Step(cfg, Behind(m, b), ch).m.state)
    ensures IsOpenBody(m.state, b + [ch])
  {
    hide Step, LeftAfter, StaysOpen, BodyState, Utf8Header, IsContinuation;
    var m' := Behind(m, b);
    LeftSnoc(b, ch);
    OneLeft(m'.left, ch);
    OpenSnoc(m.state, b, ch);
    EndSnoc(m.state, b, ch);
    hide BodyEnd, EndsComment;
    if m'.left > 0 {
      ContinuationRead(cfg, m', ch);
      assert !EndsComment(m'.state, ch) by { ContinuationEndsNothing(m'.state, ch); }
    } else {
      assert InComment(m');
      BodyByteRead(cfg, m', ch);
      if EndsComment(m'.state, ch) {
        ReadCommentEnd(cfg, m', ch);
        AfterIsOutside(m');
      }
    }
  }

  lemma ContinuationEndsNothing(s: State, ch: Byte)
    requires IsContinuation(ch)
    ensures !EndsComment(s, ch)
  {}

  lemma AfterIsOutside(m: Machine)
    ensures !IsCommentState(AfterComment(m).state)
  {}

  // Where the comment begins.

  lemma EnterAction(cfg: Config, m: Machine, a: Action)
    requires (a == UnicodeRead ==> HexTail(m.buf, 4)) && DoAction(cfg, m, a).err == Success
    requires !IsCommentState(m.state) && IsCommentState(DoAction(cfg, m, a).m.state)
    ensures var m' := DoAction(cfg, m, a).m;
      && ((a == BeginCComment && cfg.allowC && m'.state == C1) || (a == BeginYamlComment && cfg.allowYaml && m'.state == Y1))
      && m'.stack == m.stack && m'.left == m.left
  {
    if a == UnicodeRead { UnicodeStates(m); }
    hide HexTail, ActUnicode;
  }

  lemma UnicodeStates(m: Machine)
    requires HexTail(m.buf, 4)
    ensures ActUnicode(m).err == Success ==> ActUnicode(m).m.state == D1 || ActUnicode(m).m.state == ST
  {
    hide FourHex, EncodeUnit, EncodePair;
  }

  lemma CommentSigns(s: State, c: Class)
    requires c != ErrorClass
    ensures Transition(s, c) == Do(BeginCComment) ==> c == Slash
    ensures Transition(s, c) == Do(BeginYamlComment) ==> c == Hash
  {
    hide StructureRow, StringRow, NumberRow, CommentRow, WordRow;
    SharedSigns(c);
    SignsInStructure(s, c);
    SignsInNumber(s, c);
    NoSignsInString(s, c);
    NoSignsInComment(s, c);
    NoSignsInWord(s, c);
  }

  predicate SignsOnly(next: Next, c: Class) {
    (next == Do(BeginCComment) ==> c == Slash) && (next == Do(BeginYamlComment) ==> c == Hash)
  }

  lemma SharedSigns(c: Class)
    ensures SignsOnly(CommentStart(c), c) && SignsOnly(ValueEnd(c), c) && SignsOnly(ValueStart(c), c)
  {}

  lemma SignsInStructure(s: State, c: Class)
    ensures SignsOnly(StructureRow(s, c), c)
  {
    SharedSigns(c);
    hide CommentStart, ValueEnd, ValueStart, IsWhite;
  }

  lemma SignsInNumber(s: State, c: Class)
    ensures SignsOnly(NumberRow(s, c), c)
  {
    SharedSigns(c);
    assert SignsOnly(ValueEndOrComment(c), c);
    hide CommentStart, ValueEnd, ValueEndOrComment, IsDigit, IsExponentMark;
  }

  lemma NoSignsInString(s: State, c: Class)
    ensures SignsOnly(StringRow(s, c), c)
  {}

  lemma NoSignsInComment(s: State, c: Class)
    ensures SignsOnly(CommentRow(s, c), c)
  {}

  lemma NoSignsInWord(s: State, c: Class)
    ensures SignsOnly(WordRow(s, c), c)
  {}

  lemma EnterAdvance(cfg: Config, m: Machine, ch: Byte, c: Class)
    requires Safe(m) && c != ErrorClass && (IsHex(c) ==> IsHexByte(ch)) && Advance(cfg, m, ch, c).err == Success
    requires !IsCommentState(m.state) && IsCommentState(Advance(cfg, m, ch, c).m.state)
    ensures var m' := Advance(cfg, m, ch, c).m;
      && ((c == Slash && cfg.allowC && m'.state == C1) || (c == Hash && cfg.allowYaml && m'.state == Y1))
      && m'.stack == m.stack && m'.left == m.left
  {
    hide Transition, BufferPolicy, DoAction, Store, HexTail;
    StoreKeepsDigits(cfg, m, ch, c);
    StoreFields(cfg, m, ch, BufferPolicy(m.state, c));
    TableSummary(m.state, c);
    CommentSigns(m.state, c);
    var next := Transition(m.state, c);
    if next.Do? {
      EnterAction(cfg, Store(cfg, m, ch, BufferPolicy(m.state, c)).m, next.action);
    } else if next.Goto? {
      NoWayIn(m.state, next.state);
    }
  }

  lemma NoWayIn(s: State, t: State)
    requires MovesTo(s, t) && !IsCommentState(s)
    ensures !IsCommentState(t)
  {
    if IsCommentState(t) { OnlyComment(t); }
    hide IsStructural, IsStringState, IsNumberState, IsWordState, EndsNumber, ExpectsValue;
  }

  /** A comment is entered with its sign, outside multi-byte characters, and leaves the stack alone. */
  lemma EnterStep(cfg: Config, m: Machine, ch: Byte)
    requires Safe(m) && Step(cfg, m, ch).err == Success && !IsCommentState(m.state) && IsCommentState(Step(cfg, m, ch).m.state)
    ensures var m' := Step(cfg, m, ch).m;
      && ((ch == SLASH && cfg.allowC && m'.state == C1) || (ch == HASH && cfg.allowYaml && m'.state == Y1))
      && m'.stack == m.stack && m'.left == 0
  {
    hide Advance;
    var m' := m.(left := if m.left > 0 then m.left - 1 else Utf8Header(ch));
    var c := if m.left > 0 || m'.left > 0 then Other else CharClass(ch);
    EnterAdvance(cfg, m', ch, c);
    SignBytes(ch);
  }

  lemma SignBytes(ch: Byte)
    ensures CharClass(ch) == Slash ==> ch == SLASH
    ensures CharClass(ch) == Hash ==> ch == HASH
  {}

  /** Where an unfinished comment leaves the machine. */
  predicate IsInside(m: Machine, u: Bytes) {
    if u == [SLASH] then m.state == C1 && m.left == 0
    else if u != [] && u[0] == HASH then LeftAfter(0, u[1..]) == Some(m.left) && m.state == Y1
    else |u| >= 2 && LeftAfter(0, u[2..]) == Some(m.left) && m.state == BodyEnd(C2, u[2..])
  }

  lemma InsideGoesOn(cfg: Config, m: Machine, u: Bytes, ch: Byte)
    requires Tidy(m) && KindFits(m) && IsCommentState(m.state) && IsUnfinished(cfg, u) && IsInside(m, u)
    requires Step(cfg, m, ch).err == Success && IsCommentState(Step(cfg, m, ch).m.state)
    ensures IsUnfinished(cfg, u + [ch]) && IsInside(Step(cfg, m, ch).m, u + [ch]) && Step(cfg, m, ch).m.stack == m.stack
  {
    hide Tidy, KindFits, Step, IsCommentState, LeftAfter, BodyEnd, Safe, StaysOpen;
    CommentIsPlain(m);
    UnfinishedKind(cfg, u);
    if u == [SLASH] {
      StarRead(cfg, m, ch);
      ReadSecondStar(cfg, m);
      hide IsUnfinished, IsInside;
      StarInside(cfg, m.(state := C2), ch);
    } else if u[0] == HASH {
      YamlEnd(u[1..]);
      BodyInside(cfg, m, Y1, u[1..], ch);
      hide IsUnfinished, IsInside;
      YamlInside(cfg, Step(cfg, m, ch).m, u, ch);
    } else {
      BodyInside(cfg, m, C2, u[2..], ch);
      hide IsUnfinished, IsInside;
      CInside(cfg, Step(cfg, m, ch).m, u, ch);
    }
  }

  lemma YamlEnd(b: Bytes)
    ensures BodyEnd(Y1, b) == Y1
  {}

  lemma UnfinishedKind(cfg: Config, u: Bytes)
    requires IsUnfinished(cfg, u)
    ensures u != []
    ensures u != [SLASH] && u[0] != HASH ==> cfg.allowC && |u| >= 2 && u[..2] == [SLASH, STAR] && IsOpenBody(C2, u[2..])
    ensures u == [SLASH] ==> cfg.allowC
    ensures u[0] == HASH ==> cfg.allowYaml && IsOpenBody(Y1, u[1..])
  {
    assert |u| >= 2 && u[..2] == [SLASH, STAR] ==> u[0] == u[..2][0];
  }

  lemma YamlInside(cfg: Config, m: Machine, u: Bytes, ch: Byte)
    requires cfg.allowYaml && u != [] && u[0] == HASH && IsOpenBody(Y1, u[1..] + [ch])
    requires LeftAfter(0, u[1..] + [ch]) == Some(m.left) && m.state == BodyEnd(Y1, u[1..] + [ch])
    ensures IsUnfinished(cfg, u + [ch]) && IsInside(m, u + [ch])
  {
    hide LeftAfter, StaysOpen;
    assert (u + [ch])[1..] == u[1..] + [ch];
  }

  lemma CInside(cfg: Config, m: Machine, u: Bytes, ch: Byte)
    requires cfg.allowC && |u| >= 2 && u[..2] == [SLASH, STAR] && IsOpenBody(C2, u[2..] + [ch])
    requires LeftAfter(0, u[2..] + [ch]) == Some(m.left) && m.state == BodyEnd(C2, u[2..] + [ch])
    ensures IsUnfinished(cfg, u + [ch]) && IsInside(m, u + [ch])
  {
    hide LeftAfter, StaysOpen, BodyEnd;
    assert (u + [ch])[2..] == u[2..] + [ch] && (u + [ch])[..2] == u[..2];
  }

  lemma StarInside(cfg: Config, m: Machine, ch: Byte)
    requires cfg.allowC && ch == STAR && m.state == C2 && m.left == 0
    ensures IsUnfinished(cfg, [SLASH] + [ch]) && IsInside(m, [SLASH] + [ch])
  {
    assert ([SLASH] + [ch])[2..] == [] && ([SLASH] + [ch])[..2] == [SLASH, STAR];
  }

  lemma CommentIsPlain(m: Machine)
    requires Tidy(m) && KindFits(m) && IsCommentState(m.state)
    ensures m.multi == 0 && m.kind == NoKind && Safe(m)
  {
    hide HexTail;
  }

  lemma BodyInside(cfg: Config, m: Machine, s: State, b: Bytes, ch: Byte)
    requires Safe(m) && m.multi == 0 && m.kind == NoKind && (s == C2 || s == Y1) && IsOpenBody(s, b)
    requires LeftAfter(0, b) == Some(m.left) && m.state == BodyEnd(s, b)
    requires Step(cfg, m, ch).err == Success && IsCommentState(Step(cfg, m, ch).m.state)
    ensures IsOpenBody(s, b + [ch]) && LeftAfter(0, b + [ch]) == Some(Step(cfg, m, ch).m.left)
    ensures Step(cfg, m, ch).m.state == BodyEnd(s, b + [ch]) && Step(cfg, m, ch).m.stack == m.stack
  {
    hide Step, LeftAfter, StaysOpen, BodyEnd;
    var start := m.(left := 0, state := s);
    assert Behind(start, b) == m;
    BodyGoesOn(cfg, start, b, ch);
    BodyStep(cfg, start, b, ch);
  }

  /** A text that ends inside a comment, cut where that comment begins. */
  lemma {:induction false} FindCommentStart(cfg: Config, s: Bytes) returns (a: Bytes, u: Bytes)
    requires Run(cfg, START, s).err == Success && IsCommentState(Run(cfg, START, s).m.state)
    ensures s == a + u && IsUnfinished(cfg, u) && IsInside(Run(cfg, START, s).m, u)
    ensures Run(cfg, START, a).err == Success && !IsCommentState(Run(cfg, START, a).m.state)
    ensures Run(cfg, START, a).m.stack == Run(cfg, START, s).m.stack
    decreases |s|
  {
    hide Run, Step, Tidy, Builds, IsUnfinished, IsInside;
    assert s != [] by { StartIsOutside(cfg); }
    var n := |s| - 1;
    var s', ch := s[..n], s[n];
    assert s == s' + [ch];
    var m' := SnocRun(cfg, s', ch);
    if IsCommentState(m'.state) {
      var u';
      a, u' := FindCommentStart(cfg, s');
      u := u' + [ch];
      RunsAreStructured(cfg, s');
      assert KindFits(m') by { StructuredKind(m'); }
      InsideGoesOn(cfg, m', u', ch);
      assert s == a + u;
    } else {
      a, u := s', [ch];
      EnterStep(cfg, m', ch);
      FirstOfComment(cfg, Step(cfg, m', ch).m, ch);
    }
  }

  lemma StartIsOutside(cfg: Config)
    ensures Run(cfg, START, []).m == START
  {}

  lemma StructuredKind(m: Machine)
    requires Structured(m)
    ensures KindFits(m)
  {
    var p :| Builds(m, p);
    hide FeedAll, IsPartial, Fits, Position, KindFits;
  }

  lemma SnocRun(cfg: Config, s: Bytes, ch: Byte) returns (m: Machine)
    requires Run(cfg, START, s + [ch]).err == Success
    ensures Run(cfg, START, s).err == Success && Run(cfg, START, s).m == m && Safe(m)
    ensures Step(cfg, m, ch) == Outcome(Run(cfg, START, s + [ch]).m, Success)
  {
    RunAppend(cfg, START, s, [ch]);
    hide Step, Safe;
    m := Run(cfg, START, s).m;
    assert [ch][1..] == [];
    assert Run(cfg, m, [ch]).err == Success;
    assert Step(cfg, m, ch).err == Success;
    assert Run(cfg, Step(cfg, m, ch).m, []).m == Step(cfg, m, ch).m;
  }

  lemma FirstOfComment(cfg: Config, m: Machine, ch: Byte)
    requires (ch == SLASH && cfg.allowC && m.state == C1) || (ch == HASH && cfg.allowYaml && m.state == Y1)
    requires m.left == 0
    ensures IsUnfinished(cfg, [ch]) && IsInside(m, [ch])
  {
    assert [ch][1..] == [];
  }

  // The end of a text.

  lemma NoFramesDone(m: Machine, p: Partial)
    requires Builds(m, p) && m.stack == []
    ensures Base(p) == [] && (Position(m) == GO || Position(m) == OK)
    ensures IsStructural(m.state) || IsCommentState(m.state)
  {
    assert |Modes(Base(p))| == |Base(p)|;
    hide FeedAll;
  }

  /** At depth 0 and outside comments the parser is at the start or at the end of a document. */
  lemma AtDepthZero(cfg: Config, s: Bytes)
    requires Run(cfg, START, s).err == Success
    requires Run(cfg, START, s).m.stack == [] && !IsCommentState(Run(cfg, START, s).m.state)
    ensures var m := Run(cfg, START, s).m;
      && (m.state == OK || m.state == GO) && m.left == 0 && Safe(m) && m.kind == NoKind
      && (m.state == GO ==> m.events == [])
  {
    hide Run;
    RunsAreStructured(cfg, s);
    var m := Run(cfg, START, s).m;
    var p :| Builds(m, p);
    NoFramesDone(m, p);
    hide IsPartial;
    assert m.state == GO || m.state == OK;
    if m.state == GO {
      assert p == Before;
      FeedAllEvents(Before, m.events);
      hide FeedAll;
      assert Events(Before) + m.events == m.events;
    }
    hide FeedAll, HexTail;
  }

  /** Nothing but white space and comments. */
  ghost predicate IsFillers(cfg: Config, a: Bytes) {
    exists fs :: AreFillers(cfg, fs) && FillersText(fs) == a
  }

  /** A pair of brackets can be read at the start. */
  lemma ReadBrackets(cfg: Config, m: Machine) returns (m1: Machine, m2: Machine)
    requires Safe(m) && m.left == 0 && m.state == GO && m.stack == []
    ensures Steps(cfg, m, [LSQRB], m1) && Steps(cfg, m1, [RSQRB], m2)
    ensures m1.events != [] && m2.state == OK && m2.stack == []
  {
    m1 := m.(state := AR, kind := NoKind, stack := [ArrayMode], events := m.events + [Event(ArrayBegin, [])]);
    m2 := m1.(state := OK, stack := [], buf := [], events := m1.events + [Event(ArrayEnd, [])]);
    hide Transition, BufferPolicy, Step, Steps, Safe, CharClass;
    OpenBracket(cfg, m);
    CloseBracket(cfg, m1);
    ReadByte(cfg, m, LSQRB, m1);
    ReadByte(cfg, m1, RSQRB, m2);
  }

  lemma OpenBracket(cfg: Config, m: Machine)
    requires Safe(m) && m.left == 0 && m.state == GO && m.stack == []
    ensures var m1 := m.(state := AR, kind := NoKind, stack := [ArrayMode], events := m.events + [Event(ArrayBegin, [])]);
      Safe(m1) && Step(cfg, m, LSQRB) == Outcome(m1, Success)
  {
    BracketCells();
    hide Transition, BufferPolicy, CharClass;
    StepIgnoring(cfg, m, LSQRB);
    hide Step;
  }

  lemma CloseBracket(cfg: Config, m: Machine)
    requires Safe(m) && m.left == 0 && m.state == AR && m.stack == [ArrayMode] && m.kind == NoKind
    ensures Step(cfg, m, RSQRB) == Outcome(m.(state := OK, stack := [], buf := [], events := m.events + [Event(ArrayEnd, [])]), Success)
  {
    BracketCells();
    hide Transition, BufferPolicy, CharClass;
    StepIgnoring(cfg, m, RSQRB);
    hide Step;
  }

  lemma BracketCells()
    ensures CharClass(LSQRB) == LSqrb && CharClass(RSQRB) == RSqrb
    ensures Transition(GO, LSqrb) == Do(BeginArray) && BufferPolicy(GO, LSqrb) == Ignore
    ensures Transition(AR, RSqrb) == Do(EndArray) && BufferPolicy(AR, RSqrb) == Ignore
  {}

  lemma StepsOfRun(cfg: Config, s: Bytes)
    requires Run(cfg, START, s).err == Success
    ensures Steps(cfg, START, s, Run(cfg, START, s).m)
  {
    hide Run;
  }

  lemma FillersSayNothing(cfg: Config, fs: seq<Filler>) returns (m: Machine)
    requires AreFillers(cfg, fs)
    ensures Steps(cfg, START, FillersText(fs), m) && Settled(m) && m.stack == [] && m.events == [] && m.state == GO
  {
    hide FillersText, IsFiller, Steps;
    m := ReadFillers(cfg, START, fs);
  }

  /** The first token of a document opens its outermost structure. */
  lemma FirstOpening(cfg: Config, d: Document, v: Json) returns (mode: Mode, rest: Bytes)
    requires Spells(cfg, d, v)
    ensures d.pieces != [] && AreFillers(cfg, d.pieces[0].pre)
    ensures Text(d) == FillersText(d.pieces[0].pre) + [if mode == ObjectMode then LCURB else LSQRB] + rest
  {
    hide ItemSymbols, MemberSymbols, FillersText, StringText, NumberText, StringData, IsNumber, NumberKind, Separated, IsString, IsJson;
    assert Symbols(v) != [] && (Symbols(v)[0] == LBracket || Symbols(v)[0] == LBrace);
    assert d.pieces != [];
    var p := d.pieces[0];
    assert IsPiece(cfg, p) && IsLexeme(p.lexeme) && LexemeSymbol(p.lexeme) == Symbols(v)[0];
    mode := if Symbols(v)[0] == LBrace then ObjectMode else ArrayMode;
    assert p.lexeme == Punct(Symbols(v)[0]);
    rest := PiecesText(d.pieces[1..]) + FillersText(d.trail);
  }

  lemma OpeningSays(cfg: Config, fs: seq<Filler>, mode: Mode, rest: Bytes)
    requires AreFillers(cfg, fs)
    requires Run(cfg, START, FillersText(fs) + [if mode == ObjectMode then LCURB else LSQRB] + rest).err == Success
    ensures Run(cfg, START, FillersText(fs) + [if mode == ObjectMode then LCURB else LSQRB] + rest).m.events != []
  {
    hide Run, Step, Steps, FillersText, IsFiller;
    var free := cfg.WithoutLimits();
    var b := if mode == ObjectMode then LCURB else LSQRB;
    var s := FillersText(fs) + [b] + rest;
    SameFillers(cfg, free, fs);
    var m := FillersSayNothing(free, fs);
    var m' := ReadOpen(free, m, mode);
    OpenedSays(m, mode, m');
    hide Settled, PlaceOf;
    ReadByte(free, m, b, m');
    StepsTrans(free, START, FillersText(fs), m, [b], m');
    RunWithoutLimits(cfg, START, s);
    PrefixSays(free, FillersText(fs) + [b], m', rest);
  }

  lemma OpenedSays(m: Machine, mode: Mode, m': Machine)
    requires Settled(m') && Open(PlaceOf(m), mode) == Some(PlaceOf(m')) && IsStructural(m'.state)
    ensures m'.events != []
  {}

  lemma PrefixSays(cfg: Config, s: Bytes, m: Machine, rest: Bytes)
    requires Steps(cfg, START, s, m) && m.events != [] && Run(cfg, START, s + rest).err == Success
    ensures Run(cfg, START, s + rest).m.events != []
  {
    RunAppend(cfg, START, s, rest);
    hide Run;
    EventsGrow(cfg, m, rest);
  }

  /** What is read back to the start is white space and comments: the fillers before the brackets that could follow. */
  lemma StartIsFillers(cfg: Config, a: Bytes)
    requires Run(cfg, START, a).err == Success && Run(cfg, START, a).m.state == GO && Run(cfg, START, a).m.stack == []
    ensures IsFillers(cfg, a)
  {
    hide Run, Step, Steps, Text, IsJson, Symbols, Linearise, Spells, FillersText, AreFillers, IsFillers;
    AtDepthZero(cfg, a);
    StepsOfRun(cfg, a);
    var m := Run(cfg, START, a).m;
    var m1, m2 := ReadBrackets(cfg, m);
    StepsTrans(cfg, START, a, m, [LSQRB], m1);
    StepsTrans(cfg, START, a + [LSQRB], m1, [RSQRB], m2);
    AcceptedSteps(cfg, a + [LSQRB] + [RSQRB], m2);
    var d, v := FindDocument(cfg, a + [LSQRB] + [RSQRB]);
    var mode, rest := FirstOpening(cfg, d, v);
    FirstFillers(cfg, a, m, m1, d.pieces[0].pre, mode, rest);
  }

  lemma FirstFillers(cfg: Config, a: Bytes, m: Machine, m1: Machine, fs: seq<Filler>, mode: Mode, rest: Bytes)
    requires Steps(cfg, START, a, m) && m.events == [] && Steps(cfg, START, a + [LSQRB], m1) && m1.events != []
    requires AreFillers(cfg, fs)
    requires a + [LSQRB] + [RSQRB] == FillersText(fs) + [if mode == ObjectMode then LCURB else LSQRB] + rest
    ensures IsFillers(cfg, a)
  {
    hide Run, FillersText, IsFiller;
    var f, b := FillersText(fs), if mode == ObjectMode then LCURB else LSQRB;
    var s := a + [LSQRB] + [RSQRB];
    if |f| < |a| {
      assert a[..|f| + 1] == s[..|f| + 1] == f + [b];
      assert a == f + [b] + a[|f| + 1..];
      OpeningSays(cfg, fs, mode, a[|f| + 1..]);
    } else if |f| > |a| {
      assert f[..|a| + 1] == s[..|a| + 1] == a + [LSQRB];
      assert f == (a + [LSQRB]) + f[|a| + 1..];
      var m' := FillersSayNothing(cfg, fs);
      PrefixSays(cfg, a + [LSQRB], m1, f[|a| + 1..]);
    } else {
      assert f == s[..|f|] == a;
    }
  }

  /** The text ends inside a comment that follows a document, or that nothing but white space and comments precedes. */
  ghost predicate EndsInComment(cfg: Config, s: Bytes) {
    exists a, u :: s == a + u && IsUnfinished(cfg, u) && (IsFillers(cfg, a) || Accepts(cfg, a))
  }

  lemma UnfinishedRuns(cfg: Config, m: Machine, u: Bytes) returns (m': Machine)
    requires Settled(m) && m.state != X3 && IsUnfinished(cfg, u)
    ensures Steps(cfg, m, u, m') && IsCommentState(m'.state) && m'.stack == m.stack && m'.events == PlaceOf(m).events
  {
    EnterCommentFields(m);
    EnteredFields(m);
    if u[0] == HASH {
      m' := UnfinishedYaml(cfg, m, u);
    } else if u == [SLASH] {
      m' := EnterComment(m, C1);
      hide Step, Settled, EnterComment;
      ReadCommentStart(cfg, m, false);
      ReadByte(cfg, m, SLASH, m');
    } else {
      m' := UnfinishedC(cfg, m, u);
    }
  }

  lemma UnfinishedYaml(cfg: Config, m: Machine, u: Bytes) returns (m': Machine)
    requires Settled(m) && m.state != X3 && cfg.allowYaml && u != [] && u[0] == HASH && IsOpenBody(Y1, u[1..])
    ensures Steps(cfg, m, u, m') && IsCommentState(m'.state)
    ensures m'.stack == EnterComment(m, Y1).stack && m'.events == EnterComment(m, Y1).events
  {
    hide Step, Steps, Settled, EnterComment, LeftAfter, StaysOpen, InComment, Safe, BodyEnd, IsCommentState;
    var y1 := EnterComment(m, Y1);
    EnterCommentFields(m);
    ReadCommentStart(cfg, m, true);
    m' := Behind(y1, u[1..]);
    BodyRuns(cfg, y1, u[1..]);
    StepsCons(cfg, m, HASH, y1, u[1..], m');
    assert u == [HASH] + u[1..];
    BehindIsInside(y1, u[1..]);
  }

  lemma UnfinishedC(cfg: Config, m: Machine, u: Bytes) returns (m': Machine)
    requires Settled(m) && m.state != X3 && cfg.allowC && |u| >= 2 && u[..2] == [SLASH, STAR] && IsOpenBody(C2, u[2..])
    ensures Steps(cfg, m, u, m') && IsCommentState(m'.state)
    ensures m'.stack == EnterComment(m, C2).stack && m'.events == EnterComment(m, C2).events
  {
    hide Step, Steps, Settled, EnterComment, LeftAfter, StaysOpen, InComment, Safe, BodyEnd, IsCommentState;
    var c1, c2 := EnterComment(m, C1), EnterComment(m, C2);
    EnterCommentFields(m);
    assert c2.state == C2;
    ReadCommentStart(cfg, m, false);
    ReadSecondStar(cfg, c1);
    m' := Behind(c2, u[2..]);
    BodyRuns(cfg, c2, u[2..]);
    StepsCons(cfg, c1, STAR, c2, u[2..], m');
    StepsCons(cfg, m, SLASH, c1, [STAR] + u[2..], m');
    assert u == u[..2] + u[2..] && u == [SLASH] + ([STAR] + u[2..]);
    BehindIsInside(c2, u[2..]);
  }

  lemma EnteredFields(m: Machine)
    requires Settled(m)
    ensures forall s :: EnterComment(m, s).stack == m.stack && EnterComment(m, s).events == PlaceOf(m).events && EnterComment(m, s).state == s
  {}

  lemma BehindIsInside(m: Machine, b: Bytes)
    requires LeftAfter(0, b).Some? && (m.state == C2 || m.state == Y1)
    ensures IsCommentState(Behind(m, b).state)
  {}

  lemma CommentFollows(cfg: Config, s: Bytes)
    requires EndsInComment(cfg, s)
    ensures Run(cfg, START, s).err == Success && Run(cfg, START, s).m.stack == [] && IsCommentState(Run(cfg, START, s).m.state)
  {
    hide Run, IsUnfinished;
    var a, u :| s == a + u && IsUnfinished(cfg, u) && (IsFillers(cfg, a) || Accepts(cfg, a));
    var m;
    if IsFillers(cfg, a) {
      var fs :| AreFillers(cfg, fs) && FillersText(fs) == a;
      m := FillersSayNothing(cfg, fs);
    } else {
      var d, v := FindDocument(cfg, a);
      m := Run(cfg, START, a).m;
    }
    var m' := UnfinishedRuns(cfg, m, u);
    StepsTrans(cfg, START, a, m, u, m');
  }

  /**
    Return value 0 together with `json_parser_is_done` says, whatever the configuration, that the text is a
    document, or that it ends inside a comment after one, or after nothing.
   */
  lemma DoneMeansDocumentOrComment(cfg: Config, s: Bytes)
    ensures (Run(cfg, START, s).err == Success && IsDone(Run(cfg, START, s).m)) <==>
      Accepts(cfg, s) || EndsInComment(cfg, s)
    ensures !(Accepts(cfg, s) && EndsInComment(cfg, s))
  {
    hide Run, IsUnfinished;
    if EndsInComment(cfg, s) { CommentFollows(cfg, s); }
    hide EndsInComment;
    var r := Run(cfg, START, s);
    if r.err == Success && IsDone(r.m) {
      if IsCommentState(r.m.state) {
        CommentEnds(cfg, s);
      } else {
        AtDepthZero(cfg, s);
      }
    }
  }

  lemma CommentEnds(cfg: Config, s: Bytes)
    requires Run(cfg, START, s).err == Success && Run(cfg, START, s).m.stack == [] && IsCommentState(Run(cfg, START, s).m.state)
    ensures EndsInComment(cfg, s)
  {
    hide Run, IsUnfinished, IsFillers;
    var a, u := FindCommentStart(cfg, s);
    AtDepthZero(cfg, a);
    if Run(cfg, START, a).m.state == GO { StartIsFillers(cfg, a); }
    assert s == a + u && IsUnfinished(cfg, u) && (IsFillers(cfg, a) || Accepts(cfg, a));
  }

  /** With comments off the two say together that the text is a document. */
  lemma DoneMeansDocument(cfg: Config, s: Bytes)
    requires !cfg.allowC && !cfg.allowYaml
    ensures (Run(cfg, START, s).err == Success && IsDone(Run(cfg, START, s).m)) <==>
      exists d: Document, v: Json :: Spells(cfg, d, v) && Text(d) == s && FitsLimits(cfg, d, v)
  {
    hide Run, Accepts, FitsLimits, Text;
    DoneMeansDocumentOrComment(cfg, s);
    AcceptsDocumentsThatFit(cfg, s);
  }

  /** Where a comment of either kind is allowed they can be true of a text that holds nothing at all. */
  lemma DoneInsideComment(cfg: Config) returns (s: Bytes)
    requires cfg.allowC || cfg.allowYaml
    ensures s == if cfg.allowYaml then [HASH] else [SLASH]
    ensures var r := Run(cfg, START, s);
      r.err == Success && IsDone(r.m) && r.m.events == [] && !Accepts(cfg, s)
  {
    hide Run;
    s := if cfg.allowYaml then [HASH] else [SLASH];
    assert IsUnfinished(cfg, s) by { assert [HASH][1..] == []; }
    var m := UnfinishedRuns(cfg, START, s);
  }

  /** So comments off is exactly what it takes for the two to be the end of a document. */
  lemma DoneIsExact(cfg: Config)
    ensures (forall s: Bytes :: Run(cfg, START, s).err == Success && IsDone(Run(cfg, START, s).m) ==> Accepts(cfg, s)) <==>
      !cfg.allowC && !cfg.allowYaml
  {
    hide Run;
    if cfg.allowC || cfg.allowYaml {
      var s := DoneInsideComment(cfg);
    } else {
      forall s: Bytes | Run(cfg, START, s).err == Success && IsDone(Run(cfg, START, s).m)
        ensures Accepts(cfg, s)
      {
        DoneMeansDocumentOrComment(cfg, s);
      }
    }
  }
}
