/** What every error-free run keeps, whatever the configuration. */
module JsonInvariant {
  import opened Options
  import opened JsonTypes
  import opened JsonTables
  import opened JsonMachine
  import opened JsonSyntax
  import opened JsonText
  import opened JsonReads
  import opened JsonCompleteness
  import opened JsonDom

  // What the state says about the tree under construction.

  /** The structural state behind the current one; a value being read or still to be reported counts as awaited. */
  function Position(m: Machine): State {
    if m.state == OK && IsScalarKind(m.kind) then VA
    else if IsStructural(m.state) then m.state
    else if IsCommentState(m.state) then ActEndComment(m).state
    else if IsStringState(m.state) && m.expectingKey then KY
    else VA
  }

  predicate Fits(at: State, p: Partial) {
    match at
    case GO => p.Before?
    case OK => p.Done? || (p.Inside? && p.frames != [] && AwaitsKeyOrEnd(p, ModeOf(Top(p))))
    case OB | KY => AwaitsKeyOrEnd(p, ObjectMode)
    case CO => AwaitsValue(p) && Top(p).OpenObj?
    case VA => AwaitsValue(p)
    case AR => AwaitsValue(p) && Top(p).OpenArr?
    case _ => false
  }

  function Modes(frames: seq<Frame>): seq<Mode> {
    seq(|frames|, i requires 0 <= i < |frames| => ModeOf(frames[i]))
  }

  predicate KindFits(m: Machine) {
    if IsNumberState(m.state) then m.kind == IntKind || m.kind == FloatKind
    else m.kind == NoKind || (m.state == OK && IsScalarKind(m.kind))
  }

  /** The events so far are those of `p`, whose open containers are the stack and which awaits what the state says. */
  predicate Builds(m: Machine, p: Partial) {
    && IsPartial(p) && FeedAll(Before, m.events) == Some(p)
    && Modes(Base(p)) == m.stack
    && Fits(Position(m), p)
    && m.expectingKey == (Position(m) == OB || Position(m) == KY)
    && KindFits(m)
  }

  ghost predicate Structured(m: Machine) {
    exists p :: Builds(m, p)
  }

  /** Multi-byte characters occur in strings and comments only, and half a surrogate pair between its escapes only. */
  predicate Tidy(m: Machine) {
    && Safe(m)
    && (m.left > 0 ==> m.state == ST || m.state == C2 || m.state == Y1)
    && (m.state == D1 || m.state == D2 ==> m.multi != 0)
    && (m.multi != 0 ==>
      IsHighSurrogate(m.multi) && IsStringState(m.state) && m.state != ST && m.state != E0)
  }

  predicate Within(cfg: Config, m: Machine) {
    && (cfg.maxNesting > 0 ==> |m.stack| <= cfg.maxNesting)
    && (cfg.maxData > 0 ==>
      && |m.buf| < cfg.maxData
      && forall i :: 0 <= i < |m.events| ==> |m.events[i].data| < cfg.maxData)
  }

  // The table, summarised.

  /** The states an action may start from. */
  predicate ActsFrom(a: Action, s: State) {
    match a
    case KeySeparator => s == CO
    case CommaSeparator => s == OK || EndsNumber(s)
    case BeginArray | BeginObject => s == GO || ExpectsValue(s)
    case EndArray => s == OK || EndsNumber(s) || s == AR
    case EndObject => s == OK || EndsNumber(s) || s == OB
    case BeginCComment | BeginYamlComment => IsStructural(s) || EndsNumber(s)
    case EndComment => IsCommentState(s)
    case FalseWord | TrueWord | NullWord => IsWordState(s)
    case FloatByExponent | FloatByDot => s == Z0 || s == I0
    case EndString => s == ST
    case IntByMinus | IntByZero | IntByDigit => ExpectsValue(s)
    case UnicodeRead => s == U4
  }

  predicate MovesTo(s: State, t: State) {
    || s == t
    || (IsStringState(s) && IsStringState(t)) || (IsNumberState(s) && IsNumberState(t))
    || (IsWordState(s) && IsWordState(t)) || (IsCommentState(s) && IsCommentState(t))
    || (EndsNumber(s) && t == OK)
    || (ExpectsValue(s) && (t == ST || IsWordState(t)))
    || ((s == OB || s == KY) && t == ST)
  }

  predicate Summary(s: State, next: Next) {
    match next
    case Reject => true
    case Goto(t) => MovesTo(s, t)
    case Do(a) => ActsFrom(a, s)
  }

  lemma SharedSummary(s: State, c: Class)
    ensures IsStructural(s) || EndsNumber(s) ==> Summary(s, CommentStart(c))
    ensures s == OK || EndsNumber(s) ==> Summary(s, ValueEnd(c))
    ensures ExpectsValue(s) ==> Summary(s, ValueStart(c))
  {
    hide Summary;
    CommentStartSummary(s, c);
    ValueEndSummary(s, c);
    ValueStartSummary(s, c);
  }

  lemma CommentStartSummary(s: State, c: Class)
    ensures IsStructural(s) || EndsNumber(s) ==> Summary(s, CommentStart(c))
  {
    hide IsStructural, EndsNumber, MovesTo;
  }

  lemma ValueEndSummary(s: State, c: Class)
    ensures s == OK || EndsNumber(s) ==> Summary(s, ValueEnd(c))
  {}

  lemma ValueStartSummary(s: State, c: Class)
    ensures ExpectsValue(s) ==> Summary(s, ValueStart(c))
  {
    ValueStartCells(c);
    hide ValueStart;
    if ExpectsValue(s) { assert IsStructural(s); }
  }

  lemma ValueStartCells(c: Class)
    ensures var next := ValueStart(c);
      match next
      case Reject => true
      case Goto(t) => t == ST || IsWordState(t)
      case Do(a) => a in {BeginArray, BeginObject, IntByMinus, IntByZero, IntByDigit, BeginCComment, BeginYamlComment}
  {}

  lemma StructureSummary(s: State, c: Class)
    requires IsStructural(s)
    ensures Summary(s, StructureRow(s, c))
  {
    SharedSummary(s, c);
    hide CommentStart, ValueEnd, ValueStart, IsWhite;
  }

  lemma StringSummary(s: State, c: Class)
    requires IsStringState(s)
    ensures Summary(s, StringRow(s, c))
  {}

  lemma NumberSummary(s: State, c: Class)
    requires IsNumberState(s)
    ensures Summary(s, NumberRow(s, c))
  {
    SharedSummary(s, c);
    hide CommentStart, ValueEnd;
  }

  lemma CommentSummary(s: State, c: Class)
    requires IsCommentState(s)
    ensures Summary(s, CommentRow(s, c))
  {}

  lemma WordGoesOn(s: State, c: Class)
    ensures var next := WordRow(s, c);
      next == Reject || (next.Goto? && IsWordState(next.state)) || next in {Do(TrueWord), Do(FalseWord), Do(NullWord)}
  {}

  lemma WordSummary(s: State, c: Class)
    requires IsWordState(s)
    ensures Summary(s, WordRow(s, c))
  {
    WordGoesOn(s, c);
    hide WordRow, IsWordState, IsStringState, IsNumberState, IsCommentState, EndsNumber, ExpectsValue, IsStructural;
  }

  lemma StateGroups(s: State)
    ensures IsStructural(s) || IsStringState(s) || IsNumberState(s) || IsCommentState(s) || IsWordState(s)
  {}

  /** No state is in two groups. */
  lemma GroupsAreDisjoint(s: State)
    ensures IsStructural(s) ==> !IsStringState(s) && !IsNumberState(s) && !IsCommentState(s) && !IsWordState(s)
    ensures IsStringState(s) ==> !IsNumberState(s) && !IsCommentState(s) && !IsWordState(s)
    ensures IsNumberState(s) ==> !IsCommentState(s) && !IsWordState(s)
    ensures IsCommentState(s) ==> !IsWordState(s)
    ensures EndsNumber(s) ==> IsNumberState(s)
    ensures ExpectsValue(s) || s == OB || s == KY || s == OK ==> IsStructural(s)
  {
    if IsStringState(s) { OnlyString(s); }
    else if IsNumberState(s) { OnlyNumber(s); }
    else if IsCommentState(s) { OnlyComment(s); }
    else if IsWordState(s) { OnlyWord(s); }
    hide IsStructural, IsStringState, IsNumberState, IsCommentState, IsWordState;
  }

  lemma OnlyString(s: State)
    requires IsStringState(s)
    ensures !IsStructural(s) && !IsNumberState(s) && !IsCommentState(s) && !IsWordState(s) && !EndsNumber(s)
    ensures !ExpectsValue(s) && s != OB && s != KY && s != OK
  {
    match s
    case ST => case E0 => case U1 => case U2 => case U3 => case U4 => case D1 => case D2 => case _ =>
  }

  lemma OnlyNumber(s: State)
    requires IsNumberState(s)
    ensures !IsStructural(s) && !IsCommentState(s) && !IsWordState(s)
    ensures !ExpectsValue(s) && s != OB && s != KY && s != OK
  {}

  lemma OnlyComment(s: State)
    requires IsCommentState(s)
    ensures !IsStructural(s) && !IsWordState(s) && !EndsNumber(s)
    ensures !ExpectsValue(s) && s != OB && s != KY && s != OK
  {}

  lemma OnlyWord(s: State)
    requires IsWordState(s)
    ensures !IsStructural(s) && !EndsNumber(s)
    ensures !ExpectsValue(s) && s != OB && s != KY && s != OK
  {}

  lemma TableSummary(s: State, c: Class)
    requires c != ErrorClass
    ensures Summary(s, Transition(s, c))
  {
    hide StructureRow, StringRow, NumberRow, CommentRow, WordRow, Summary;
    StateGroups(s);
    if IsStructural(s) { StructureSummary(s, c); }
    else if IsStringState(s) { StringSummary(s, c); }
    else if IsNumberState(s) { NumberSummary(s, c); }
    else if IsCommentState(s) { CommentSummary(s, c); }
    else { WordSummary(s, c); }
  }

  // One action.

  lemma Reported(m: Machine, p: Partial, e: Event)
    requires IsPartial(p) && FeedAll(Before, m.events) == Some(p) && Feed(p, e).Some?
    ensures IsPartial(Feed(p, e).value)
    ensures FeedAll(Before, m.events + [e]) == Some(Feed(p, e).value)
  {
    FeedAppend(Before, m.events, [e]);
    FeedCons(p, e, []);
    FeedNothing(Feed(p, e).value);
    assert [e] + [] == [e];
  }

  /** The tree after a pending value is reported. */
  function Reporting(m: Machine, p: Partial): Partial
    requires Builds(m, p)
  {
    if IsScalarKind(m.kind) then Complete(p.frames, Leaf(m.kind, m.buf)) else p
  }

  lemma CompleteFits(frames: seq<Frame>, v: Json)
    requires frames != [] ==> TakesValue(frames[|frames| - 1])
    ensures Fits(OK, Complete(frames, v))
    ensures Modes(Base(Complete(frames, v))) == Modes(frames)
  {}

  /** What is left of the state once a pending value is reported. */
  predicate Reports(m: Machine, m': Machine, q: Partial) {
    && IsPartial(q) && FeedAll(Before, m'.events) == Some(q) && Modes(Base(q)) == m'.stack
    && Fits(if IsScalarKind(m.kind) then OK else Position(m), q)
  }

  lemma PendingPosition(m: Machine)
    requires KindFits(m) && IsScalarKind(m.kind)
    ensures Position(m) == VA
  {}

  /** `do_buffer` reports the value that was awaited, if there is one. */
  lemma BufferReports(m: Machine, p: Partial)
    requires Builds(m, p)
    ensures Reports(m, DoBuffer(m), Reporting(m, p))
  {
    hide FeedAll, Modes;
    if IsScalarKind(m.kind) {
      assert Position(m) == VA by { PendingPosition(m); }
      hide Position, KindFits, Base;
      CompleteFits(p.frames, Leaf(m.kind, m.buf));
      Reported(m, p, Event(m.kind, m.buf));
    }
  }

  lemma CommaBuilds(m: Machine, p: Partial) returns (q: Partial)
    requires Builds(m, p) && ActsFrom(CommaSeparator, m.state) && ActComma(DoBuffer(m)).err == Success
    ensures Builds(ActComma(DoBuffer(m)).m.(kind := NoKind), q)
  {
    BufferReports(m, p);
    q := Reporting(m, p);
    hide FeedAll, Reporting, DoBuffer, Complete;
    BufferFields(m);
    assert q.Inside? && m.stack[|m.stack| - 1] == ModeOf(Top(q));
    hide Modes, Base, ActsFrom;
  }

  lemma BufferFields(m: Machine)
    ensures var m' := DoBuffer(m);
      && m'.stack == m.stack && m'.state == m.state && m'.kind == m.kind && m'.save == m.save
      && m'.expectingKey == m.expectingKey && m'.left == m.left && m'.multi == m.multi && m'.buf == []
  {}

  lemma BeginBuilds(cfg: Config, m: Machine, p: Partial, mode: Mode) returns (q: Partial)
    requires Builds(m, p) && (m.state == GO || ExpectsValue(m.state)) && ActBegin(cfg, m, mode).err == Success
    ensures Builds(ActBegin(cfg, m, mode).m.(state := if mode == ObjectMode then OB else AR, kind := NoKind), q)
  {
    hide FeedAll, Feed, Modes;
    q := Opened(p, mode);
    assert p.Before? || AwaitsValue(p) by { hide KindFits; }
    FeedOpening(p, mode);
    Reported(m, p, Event(Opening(mode), []));
    OpenedModes(p, mode);
    hide IsPartial, Base;
  }

  lemma OpenedModes(p: Partial, mode: Mode)
    ensures Modes(Base(Opened(p, mode))) == Modes(Base(p)) + [mode]
    ensures Opened(p, mode).Inside? && AwaitsKeyOrEnd(Opened(p, mode), mode)
    ensures mode == ArrayMode ==> AwaitsValue(Opened(p, mode)) && Top(Opened(p, mode)).OpenArr?
  {}

  lemma FeedEnding(p: Partial, mode: Mode)
    requires IsPartial(p) && AwaitsKeyOrEnd(p, mode)
    ensures Under(p) != [] ==> TakesValue(Under(p)[|Under(p)| - 1])
    ensures Feed(p, Event(Ending(mode), [])) == Some(Complete(Under(p), Closed(Top(p))))
    ensures Modes(Under(p)) == Modes(p.frames)[..|p.frames| - 1]
  {}

  /** Where a container may end: after a value, or with none. */
  lemma EndPosition(m: Machine, mode: Mode)
    requires KindFits(m) && ActsFrom(if mode == ObjectMode then EndObject else EndArray, m.state)
    requires m.expectingKey == (Position(m) == OB || Position(m) == KY)
    ensures var at := if IsScalarKind(m.kind) then OK else Position(m);
      at == OK || at == if mode == ObjectMode then OB else AR
    ensures mode == ArrayMode ==> !m.expectingKey
  {}

  lemma EndBuilds(m: Machine, p: Partial, mode: Mode) returns (q: Partial)
    requires Builds(m, p) && ActsFrom(if mode == ObjectMode then EndObject else EndArray, m.state)
    requires ActEnd(DoBuffer(m), mode).err == Success
    ensures Builds(ActEnd(DoBuffer(m), mode).m.(state := OK, kind := NoKind), q)
  {
    hide FeedAll, Reporting, DoBuffer, Feed, Complete;
    BufferReports(m, p);
    var r := Reporting(m, p);
    BufferFields(m);
    EndPosition(m, mode);
    hide Position, KindFits, IsStructural, IsCommentState, IsStringState, IsNumberState, EndsNumber;
    assert AwaitsKeyOrEnd(r, mode) by {
      assert r.Inside? && m.stack[|m.stack| - 1] == ModeOf(Top(r)) == mode;
    }
    FeedEnding(r, mode);
    hide Modes;
    q := Complete(Under(r), Closed(Top(r)));
    Reported(DoBuffer(m), r, Event(Ending(mode), []));
    CompleteFits(Under(r), Closed(Top(r)));
    hide Closed, Under, Top, IsPartial, Fits, AwaitsKeyOrEnd, Builds, ActsFrom;
    AtRest(ActEnd(DoBuffer(m), mode).m.(state := OK, kind := NoKind), q);
  }

  lemma AtRest(m: Machine, p: Partial)
    requires m.state == OK && m.kind == NoKind && !m.expectingKey
    requires IsPartial(p) && FeedAll(Before, m.events) == Some(p) && Modes(Base(p)) == m.stack && Fits(OK, p)
    ensures Builds(m, p)
  {
    hide FeedAll, Modes, IsPartial, Fits;
  }

  lemma CommentBuilds(m: Machine, p: Partial, s: State) returns (q: Partial)
    requires Builds(m, p) && (IsStructural(m.state) || EndsNumber(m.state)) && (s == C1 || s == Y1)
    ensures Builds(DoBuffer(m).(save := m.state, state := s, kind := NoKind), q)
  {
    hide FeedAll, Reporting, DoBuffer, Complete, IsPartial, Modes;
    BufferReports(m, p);
    q := Reporting(m, p);
    BufferFields(m);
  }

  lemma StringBuilds(m: Machine, p: Partial) returns (q: Partial)
    requires Builds(m, p) && m.state == ST
    ensures Builds(ActEndString(m).(kind := NoKind), q)
  {
    hide FeedAll;
    var e := Event(if m.expectingKey then KeyKind else StringKind, m.buf);
    if m.expectingKey {
      q := Inside(Under(p) + [OpenObj(Top(p).members, Some(m.buf))]);
      assert Feed(p, e) == Some(q);
      hide Feed;
      Reported(m, p, e);
      assert Modes(q.frames) == Modes(p.frames);
    } else {
      q := Complete(p.frames, Leaf(StringKind, m.buf));
      assert Feed(p, e) == Some(q);
      hide Feed;
      Reported(m, p, e);
      CompleteFits(p.frames, Leaf(StringKind, m.buf));
      hide Complete, Modes;
    }
  }

  // Every action, every byte, every text.

  lemma PlainBuilds(cfg: Config, m: Machine, p: Partial, a: Action)
    requires Builds(m, p) && ActsFrom(a, m.state)
    requires a in {KeySeparator, FalseWord, TrueWord, NullWord, FloatByExponent, FloatByDot, IntByMinus, IntByZero, IntByDigit}
    ensures Builds(DoAction(cfg, m, a).m, p)
  {
    var m' := DoAction(cfg, m, a).m;
    PlainPosition(cfg, m, a);
    hide FeedAll, Modes, IsPartial, Base, Top, AwaitsKeyOrEnd, Position, KindFits, ActsFrom;
    assert m' == m.(state := m'.state, kind := m'.kind);
    hide DoAction;
  }

  /** These only move on with the value that was awaited, or from the colon to it. */
  lemma PlainPosition(cfg: Config, m: Machine, a: Action)
    requires KindFits(m) && ActsFrom(a, m.state)
    requires m.expectingKey == (Position(m) == OB || Position(m) == KY)
    requires a in {KeySeparator, FalseWord, TrueWord, NullWord, FloatByExponent, FloatByDot, IntByMinus, IntByZero, IntByDigit}
    ensures var m' := DoAction(cfg, m, a).m; var at := Position(m);
      && (Position(m') == at || (Position(m') == VA && (at == CO || at == AR)))
      && Position(m') != OB && Position(m') != KY && !m.expectingKey && KindFits(m')
  {
    GroupsAreDisjoint(m.state);
    hide IsStringState, IsCommentState, IsWordState, ActEndComment;
    GroupsAreDisjoint(DoAction(cfg, m, a).m.state);
  }

  lemma EndCommentBuilds(cfg: Config, m: Machine, p: Partial)
    requires Builds(m, p) && IsCommentState(m.state)
    ensures Builds(DoAction(cfg, m, EndComment).m, p)
  {
    hide FeedAll, Modes, IsPartial, Base, Top, AwaitsKeyOrEnd;
  }

  lemma UnicodeBuilds(m: Machine, p: Partial)
    requires Builds(m, p) && m.state == U4 && HexTail(m.buf, 4) && ActUnicode(m).err == Success
    ensures Builds(ActUnicode(m).m.(kind := NoKind), p)
  {
    hide FeedAll, Modes, IsPartial, EncodeUnit, EncodePair;
  }

  lemma ActionBuilds(cfg: Config, m: Machine, p: Partial, a: Action) returns (q: Partial)
    requires Builds(m, p) && ActsFrom(a, m.state) && (a == UnicodeRead ==> HexTail(m.buf, 4))
    requires DoAction(cfg, m, a).err == Success
    ensures Builds(DoAction(cfg, m, a).m, q)
  {
    hide Builds, ActComma, ActBegin, ActEnd, DoBuffer, ActEndString, ActUnicode, ActsFrom, ActEndComment;
    if a == CommaSeparator {
      q := CommaBuilds(m, p);
    } else if a == BeginArray || a == BeginObject {
      assert m.state == GO || ExpectsValue(m.state) by { ActsFromBegin(a, m.state); }
      q := BeginBuilds(cfg, m, p, if a == BeginObject then ObjectMode else ArrayMode);
    } else if a == EndArray || a == EndObject {
      q := EndBuilds(m, p, if a == EndObject then ObjectMode else ArrayMode);
    } else if a == BeginCComment || a == BeginYamlComment {
      assert IsStructural(m.state) || EndsNumber(m.state) by { ActsFromBegin(a, m.state); }
      q := CommentBuilds(m, p, if a == BeginCComment then C1 else Y1);
      BufferFields(m);
    } else if a == EndString {
      assert m.state == ST by { ActsFromBegin(a, m.state); }
      q := StringBuilds(m, p);
    } else if a == UnicodeRead {
      assert m.state == U4 by { ActsFromBegin(a, m.state); }
      q := p;
      UnicodeBuilds(m, p);
    } else if a == EndComment {
      q := p;
      assert IsCommentState(m.state) by { ActsFromBegin(a, m.state); }
      EndCommentBuilds(cfg, m, p);
    } else {
      q := p;
      PlainBuilds(cfg, m, p, a);
    }
  }

  lemma ActsFromBegin(a: Action, s: State)
    requires ActsFrom(a, s)
    ensures a == BeginArray || a == BeginObject ==> s == GO || ExpectsValue(s)
    ensures a == BeginCComment || a == BeginYamlComment ==> IsStructural(s) || EndsNumber(s)
    ensures a == EndString ==> s == ST
    ensures a == EndComment ==> IsCommentState(s)
    ensures a == UnicodeRead ==> s == U4
  {}

  lemma MoveBuilds(m: Machine, p: Partial, t: State)
    requires Builds(m, p) && MovesTo(m.state, t)
    ensures Builds(m.(state := t), p)
  {
    hide FeedAll, Modes, IsPartial, Position, MovesTo;
    assert IsNumberState(m.state) ==> IsScalarKind(m.kind);
    hide KindFits;
    PositionMoves(m, t);
    KindMoves(m, t);
  }

  lemma KindMoves(m: Machine, t: State)
    requires KindFits(m) && MovesTo(m.state, t)
    ensures KindFits(m.(state := t))
  {}

  lemma PositionMoves(m: Machine, t: State)
    requires MovesTo(m.state, t) && m.expectingKey == (Position(m) == OB || Position(m) == KY)
    requires IsNumberState(m.state) ==> IsScalarKind(m.kind)
    ensures var at := Position(m.(state := t));
      at == Position(m) || (at == VA && Position(m) == AR) || (at == KY && Position(m) == OB)
  {
    if m.state != t {
      if IsStructural(m.state) { FromStructure(m, t); } else { FromElsewhere(m, t); }
    }
  }

  lemma FromStructure(m: Machine, t: State)
    requires MovesTo(m.state, t) && m.state != t && IsStructural(m.state)
    requires m.expectingKey == (Position(m) == OB || Position(m) == KY)
    ensures ExpectsValue(m.state) || m.state == OB || m.state == KY
    ensures Position(m.(state := t)) == if ExpectsValue(m.state) then VA else KY
  {
    GroupsAreDisjoint(m.state);
    GroupsAreDisjoint(t);
    hide IsNumberState, IsWordState, IsCommentState, EndsNumber, IsScalarKind;
  }

  lemma FromElsewhere(m: Machine, t: State)
    requires MovesTo(m.state, t) && m.state != t && !IsStructural(m.state)
    requires IsNumberState(m.state) ==> IsScalarKind(m.kind)
    ensures Position(m.(state := t)) == Position(m)
  {
    hide IsStringState, IsNumberState, IsWordState, IsCommentState, IsStructural, EndsNumber, ExpectsValue, IsScalarKind;
    GroupsAreDisjoint(m.state);
    GroupsAreDisjoint(t);
  }

  lemma StoreBuilds(cfg: Config, m: Machine, p: Partial, ch: Byte, policy: Policy)
    requires Builds(m, p)
    ensures Builds(Store(cfg, m, ch, policy).m, p)
    ensures Store(cfg, m, ch, policy).m.state == m.state
  {
    hide FeedAll, Modes, IsPartial, Fits;
  }

  lemma AdvanceBuilds(cfg: Config, m: Machine, p: Partial, ch: Byte, c: Class) returns (q: Partial)
    requires Builds(m, p) && c != ErrorClass && Safe(m) && (IsHex(c) ==> IsHexByte(ch))
    requires Advance(cfg, m, ch, c).err == Success
    ensures Builds(Advance(cfg, m, ch, c).m, q)
  {
    hide Builds, Transition, BufferPolicy, DoAction, Store, HexTail, MovesTo, ActsFrom;
    var next := Transition(m.state, c);
    var policy := BufferPolicy(m.state, c);
    TableSummary(m.state, c);
    StoreKeepsDigits(cfg, m, ch, c);
    StoreBuilds(cfg, m, p, ch, policy);
    var m' := Store(cfg, m, ch, policy).m;
    if next.Do? {
      q := ActionBuilds(cfg, m', p, next.action);
    } else {
      q := p;
      MoveBuilds(m', p, next.state);
    }
  }

  lemma LeftBuilds(m: Machine, p: Partial, n: nat)
    requires Builds(m, p)
    ensures Builds(m.(left := n), p)
  {
    hide FeedAll, Modes, IsPartial, Fits;
  }

  lemma StepBuilds(cfg: Config, m: Machine, p: Partial, ch: Byte) returns (q: Partial)
    requires Builds(m, p) && Safe(m) && Step(cfg, m, ch).err == Success
    ensures Builds(Step(cfg, m, ch).m, q)
  {
    hide Builds, Advance;
    var m' := m.(left := if m.left > 0 then m.left - 1 else Utf8Header(ch));
    LeftBuilds(m, p, m'.left);
    q := AdvanceBuilds(cfg, m', p, ch, if m.left > 0 || m'.left > 0 then Other else CharClass(ch));
  }

  // Strings, comments and the halves of surrogate pairs.

  predicate BetweenHalves(s: State) {
    IsStringState(s) && s != ST && s != E0
  }

  lemma OtherCells(s: State)
    ensures Transition(s, Other) in {Reject, Goto(ST), Goto(C2), Goto(Y1)}
  {
    OtherInStructure(s);
    OtherElsewhere(s);
    hide StructureRow, StringRow, NumberRow, CommentRow, WordRow, IsStructural, IsStringState, IsNumberState, IsCommentState;
  }

  lemma OtherInStructure(s: State)
    ensures StructureRow(s, Other) == Reject && NumberRow(s, Other) == Reject && WordRow(s, Other) == Reject
  {}

  lemma OtherElsewhere(s: State)
    ensures StringRow(s, Other) in {Reject, Goto(ST)} && CommentRow(s, Other) in {Reject, Goto(C2), Goto(Y1)}
  {}

  /** Once in the middle of an escape, there is no way out but its end. */
  lemma EscapeCells(s: State, c: Class)
    requires IsStringState(s)
    ensures var next := StringRow(s, c);
      && (next.Goto? && BetweenHalves(s) ==> BetweenHalves(next.state))
      && (next.Goto? && (next.state == D1 || next.state == D2) ==> s == D1)
      && (next.Do? && BetweenHalves(s) ==> next == Do(UnicodeRead))
      && (next == Do(UnicodeRead) ==> s == U4)
  {}

  lemma MoveTidy(m: Machine, c: Class, t: State, buf: Bytes)
    requires Tidy(m.(left := 0)) && c != ErrorClass && Transition(m.state, c) == Goto(t)
    requires HexTail(buf, HexNeed(t)) && (m.left > 0 ==> c == Other)
    ensures Tidy(m.(buf := buf, state := t))
  {
    hide StringRow, HexTail, StructureRow, NumberRow, CommentRow, WordRow;
    if m.left > 0 { OtherCells(m.state); }
    TableSummary(m.state, c);
    if IsStringState(m.state) { EscapeCells(m.state, c); }
  }

  lemma ActionTidy(cfg: Config, m: Machine, c: Class, a: Action)
    requires m.left == 0 && (a == UnicodeRead ==> HexTail(m.buf, 4))
    requires m.multi != 0 ==> IsHighSurrogate(m.multi) && BetweenHalves(m.state)
    requires c != ErrorClass && Transition(m.state, c) == Do(a) && DoAction(cfg, m, a).err == Success
    ensures Tidy(DoAction(cfg, m, a).m)
  {
    if a == UnicodeRead {
      hide Tidy, ActUnicode, Transition, HexTail;
      UnicodeTidy(m);
    } else {
      NoHalfActs(m.state, c, a);
      PlainActionTidy(cfg, m, a);
    }
  }

  /** In the middle of an escape nothing but its last digit acts. */
  lemma NoHalfActs(s: State, c: Class, a: Action)
    requires c != ErrorClass && Transition(s, c) == Do(a) && a != UnicodeRead
    ensures !BetweenHalves(s)
  {
    hide StringRow, StructureRow, NumberRow, CommentRow, WordRow;
    if IsStringState(s) { EscapeCells(s, c); }
  }

  lemma PlainActionTidy(cfg: Config, m: Machine, a: Action)
    requires m.left == 0 && m.multi == 0 && a != UnicodeRead && DoAction(cfg, m, a).err == Success
    ensures Tidy(DoAction(cfg, m, a).m)
  {
    PlainActionStates(cfg, m, a);
    assert Safe(DoAction(cfg, m, a).m);
    hide DoAction, Safe;
  }

  lemma PlainActionStates(cfg: Config, m: Machine, a: Action)
    requires a != UnicodeRead && DoAction(cfg, m, a).err == Success
    ensures var m' := DoAction(cfg, m, a).m; m'.left == m.left && m'.multi == m.multi && !IsStringState(m'.state)
  {
    hide ActUnicode;
    ActionStates(m);
    hide ActEndString, ActEndComment, DoBuffer;
  }

  lemma ActionStates(m: Machine)
    ensures var e, c, b := ActEndString(m), ActEndComment(m), DoBuffer(m);
      && e.left == c.left == b.left == m.left && e.multi == c.multi == b.multi == m.multi && b.stack == m.stack && b.state == m.state
      && !IsStringState(e.state) && !IsStringState(c.state)
  {}

  lemma UnicodeTidy(m: Machine)
    requires m.left == 0 && HexTail(m.buf, 4) && ActUnicode(m).err == Success
    ensures Tidy(ActUnicode(m).m.(kind := NoKind))
  {
    hide FourHex, EncodeUnit, EncodePair;
    assert HexTail(ActUnicode(m).m.buf, 0);
    hide HexTail;
  }

  lemma AdvanceTidy(cfg: Config, m: Machine, ch: Byte, c: Class)
    requires Tidy(m.(left := 0)) && c != ErrorClass && (IsHex(c) ==> IsHexByte(ch)) && (m.left > 0 ==> c == Other)
    requires Advance(cfg, m, ch, c).err == Success
    ensures Tidy(Advance(cfg, m, ch, c).m)
  {
    hide Transition, BufferPolicy, DoAction, HexTail;
    StoreKeepsDigits(cfg, m, ch, c);
    var next := Transition(m.state, c);
    var m' := Store(cfg, m, ch, BufferPolicy(m.state, c)).m;
    if next.Do? {
      if m.left > 0 { OtherCells(m.state); }
      hide Store;
      StoreFields(cfg, m, ch, BufferPolicy(m.state, c));
      ActionTidy(cfg, m', c, next.action);
    } else {
      MoveTidy(m, c, next.state, m'.buf);
    }
  }

  lemma StoreFields(cfg: Config, m: Machine, ch: Byte, policy: Policy)
    ensures var m' := Store(cfg, m, ch, policy).m; m' == m.(buf := m'.buf)
  {}

  lemma StepTidy(cfg: Config, m: Machine, ch: Byte)
    requires Tidy(m) && Step(cfg, m, ch).err == Success
    ensures Tidy(Step(cfg, m, ch).m)
  {
    hide Advance, HexTail;
    var m' := m.(left := if m.left > 0 then m.left - 1 else Utf8Header(ch));
    AdvanceTidy(cfg, m', ch, if m.left > 0 || m'.left > 0 then Other else CharClass(ch));
  }

  // Limits.

  lemma BufferWithin(cfg: Config, m: Machine)
    requires Within(cfg, m)
    ensures Within(cfg, DoBuffer(m))
  {}

  lemma ActionWithin(cfg: Config, m: Machine, a: Action)
    requires Within(cfg, m) && (a == UnicodeRead ==> HexTail(m.buf, 4))
    ensures Within(cfg, DoAction(cfg, m, a).m)
  {
    BufferWithin(cfg, m);
    if a == UnicodeRead {
      UnicodeWithin(cfg, m);
      hide ActUnicode, Within;
    } else if a == EndString {
      hide ActUnicode, DoBuffer;
    } else {
      hide DoBuffer, ActUnicode, ActEndString;
    }
  }

  lemma UnicodeWithin(cfg: Config, m: Machine)
    requires Within(cfg, m) && HexTail(m.buf, 4)
    ensures var o := ActUnicode(m); Within(cfg, Finish(o, o.m.state, NoKind).m)
  {
    hide FourHex;
  }

  lemma StoreWithin(cfg: Config, m: Machine, ch: Byte, policy: Policy)
    requires Within(cfg, m)
    ensures Within(cfg, Store(cfg, m, ch, policy).m)
  {}

  lemma AdvanceWithin(cfg: Config, m: Machine, ch: Byte, c: Class)
    requires Safe(m) && c != ErrorClass && (IsHex(c) ==> IsHexByte(ch)) && Within(cfg, m)
    ensures Within(cfg, Advance(cfg, m, ch, c).m)
  {
    hide Transition, BufferPolicy, DoAction, HexTail, Store;
    StoreKeepsDigits(cfg, m, ch, c);
    var next := Transition(m.state, c);
    var o := Store(cfg, m, ch, BufferPolicy(m.state, c));
    StoreWithin(cfg, m, ch, BufferPolicy(m.state, c));
    if next.Do? && o.err == Success {
      ActionWithin(cfg, o.m, next.action);
    }
  }

  lemma StepWithin(cfg: Config, m: Machine, ch: Byte)
    requires Safe(m) && Within(cfg, m)
    ensures Within(cfg, Step(cfg, m, ch).m)
  {
    hide Advance;
    var m' := m.(left := if m.left > 0 then m.left - 1 else Utf8Header(ch));
    var c := if m.left > 0 || m'.left > 0 then Other else CharClass(ch);
    if c != ErrorClass { AdvanceWithin(cfg, m', ch, c); }
  }

  // Whole runs.

  lemma {:induction false} RunBuilds(cfg: Config, m: Machine, p: Partial, s: Bytes) returns (q: Partial)
    requires Builds(m, p) && Tidy(m) && Run(cfg, m, s).err == Success
    ensures Builds(Run(cfg, m, s).m, q) && Tidy(Run(cfg, m, s).m)
    decreases |s|
  {
    hide Step, Builds, HexTail;
    if s == [] {
      q := p;
    } else {
      q := StepBuilds(cfg, m, p, s[0]);
      StepTidy(cfg, m, s[0]);
      q := RunBuilds(cfg, Step(cfg, m, s[0]).m, q, s[1..]);
    }
  }

  lemma {:induction false} RunWithin(cfg: Config, m: Machine, s: Bytes)
    requires Safe(m) && Within(cfg, m)
    ensures Within(cfg, Run(cfg, m, s).m)
    decreases |s|
  {
    hide Step, Within;
    if s != [] {
      StepWithin(cfg, m, s[0]);
      var o := Step(cfg, m, s[0]);
      if o.err == Success { RunWithin(cfg, o.m, s[1..]); }
    }
  }

  /**
    After any text read without error, whatever the configuration: the events are those of a tree
    under construction whose open containers are the stack and which awaits what the state says;
    multi-byte characters and surrogate halves are where they may be.
   */
  lemma RunsAreStructured(cfg: Config, s: Bytes)
    requires Run(cfg, START, s).err == Success
    ensures Structured(Run(cfg, START, s).m) && Tidy(Run(cfg, START, s).m)
  {
    hide Step, Run;
    assert Builds(START, Before) by { FeedNothing(Before); }
    var q := RunBuilds(cfg, START, Before, s);
  }

  /** With limits, no run, even one that fails, nests deeper or reports a longer token than they allow. */
  lemma RunsKeepLimits(cfg: Config, s: Bytes)
    ensures var m := Run(cfg, START, s).m;
      && (cfg.maxNesting > 0 ==> |m.stack| <= cfg.maxNesting)
      && (cfg.maxData > 0 ==> forall i :: 0 <= i < |m.events| ==> |m.events[i].data| <= cfg.maxData - 1)
  {
    hide Run;
    RunWithin(cfg, START, s);
  }
}
