/**
  What the two limits cut off: a text is accepted with limits exactly when it is accepted without them and
  no prefix nests too deep or stores too much; as a document, when it is not too deep and its tokens fit.
 */
module JsonLimits {
  import opened Options
  import opened JsonTypes
  import opened JsonTables
  import opened JsonMachine
  import opened JsonSyntax
  import opened JsonUnicode
  import opened JsonText
  import opened JsonReads
  import opened JsonReadsStrings
  import opened JsonCompleteness
  import opened JsonGrammar
  import opened JsonDom
  import opened JsonInvariant

  /** The stack and the buffer are within the limits. */
  predicate Room(cfg: Config, m: Machine) {
    && (cfg.maxNesting > 0 ==> |m.stack| <= cfg.maxNesting)
    && (cfg.maxData > 0 ==> |m.buf| < cfg.maxData)
  }

  /** The fourth digit of a unicode escape is stored before the four are replaced. */
  predicate RoomForNext(cfg: Config, m: Machine) {
    cfg.maxData > 0 && m.state == U4 ==> |m.buf| + 1 < cfg.maxData
  }

  // One byte.

  lemma StoreWithLimits(cfg: Config, m: Machine, ch: Byte, p: Policy)
    requires Room(cfg, m)
    ensures var free := Store(cfg.WithoutLimits(), m, ch, p); var o := Store(cfg, m, ch, p);
      && free.err == Success && (o.err == Success <==> Room(cfg, free.m)) && (o.err == Success ==> o == free)
      && (p == Ignore ==> free.m == m)
      && (p != Ignore ==> |free.m.buf| == |m.buf| + 1 && free.m == m.(buf := free.m.buf))
  {}

  lemma UnicodeKeepsRoom(m: Machine)
    requires HexTail(m.buf, 4)
    ensures |ActUnicode(m).m.buf| <= |m.buf| && ActUnicode(m).m.stack == m.stack
  {
    hide FourHex;
  }

  /** An action fails because of a limit only when it would open too many structures. */
  lemma ActionWithLimits(cfg: Config, m: Machine, a: Action)
    requires Room(cfg, m) && (a == UnicodeRead ==> HexTail(m.buf, 4))
    ensures var free := DoAction(cfg.WithoutLimits(), m, a);
      DoAction(cfg, m, a).err == Success <==> free.err == Success && Room(cfg, free.m)
  {
    if a == UnicodeRead { UnicodeKeepsRoom(m); }
    hide HexTail, ActUnicode;
  }

  /** The actions of the cells that store a byte. */
  predicate IsStoringAction(a: Action) {
    a in {FloatByExponent, FloatByDot, IntByMinus, IntByZero, IntByDigit, UnicodeRead}
  }

  lemma StoringInStructure(s: State, c: Class)
    requires c != ErrorClass && IsStructural(s) && BufferPolicy(s, c) != Ignore && StructureRow(s, c).Do?
    ensures IsStoringAction(StructureRow(s, c).action)
  {
    assert s == VA || s == AR;
    assert c == Minus || c == Zero || c == Digit;
  }

  lemma StoringInNumber(s: State, c: Class)
    requires c != ErrorClass && IsNumberState(s) && BufferPolicy(s, c) != Ignore && NumberRow(s, c).Do?
    ensures IsStoringAction(NumberRow(s, c).action)
  {
    assert IsDigit(c) || c == Dot || c == Plus || c == Minus || IsExponentMark(c);
  }

  lemma StoringInString(s: State, c: Class)
    requires c != ErrorClass && IsStringState(s)
    ensures StringRow(s, c).Do? && BufferPolicy(s, c) != Ignore ==> StringRow(s, c) == Do(UnicodeRead)
    ensures s == U4 && StringRow(s, c) != Reject ==> BufferPolicy(s, c) != Ignore
  {}

  lemma IgnoringGroups(s: State, c: Class)
    requires c != ErrorClass && (IsCommentState(s) || IsWordState(s))
    ensures BufferPolicy(s, c) == Ignore
  {}

  lemma StoringCells(s: State, c: Class)
    requires c != ErrorClass
    ensures BufferPolicy(s, c) != Ignore && Transition(s, c).Do? ==> IsStoringAction(Transition(s, c).action)
  {
    hide StructureRow, StringRow, NumberRow, CommentRow, WordRow, BufferPolicy;
    StateGroups(s);
    hide IsWordState;
    if IsStructural(s) {
      if BufferPolicy(s, c) != Ignore && StructureRow(s, c).Do? { StoringInStructure(s, c); }
    } else if IsStringState(s) {
      StoringInString(s, c);
    } else if IsNumberState(s) {
      if BufferPolicy(s, c) != Ignore && NumberRow(s, c).Do? { StoringInNumber(s, c); }
    } else {
      IgnoringGroups(s, c);
    }
  }

  lemma FourthDigitCells(s: State, c: Class)
    requires c != ErrorClass
    ensures s == U4 && Transition(s, c) != Reject ==> BufferPolicy(s, c) != Ignore
    ensures Transition(s, c) == Do(UnicodeRead) ==> s == U4
  {
    hide StructureRow, StringRow, NumberRow, CommentRow, WordRow, BufferPolicy;
    if s == U4 { StoringInString(s, c); }
    if Transition(s, c) == Do(UnicodeRead) { HexDigitsAreAppended(s, c); }
  }

  lemma StoringActionKeeps(cfg: Config, m: Machine, a: Action)
    requires IsStoringAction(a) && a != UnicodeRead
    ensures DoAction(cfg, m, a).err == Success && DoAction(cfg, m, a).m.buf == m.buf && DoAction(cfg, m, a).m.stack == m.stack
  {}

  lemma AdvanceWithLimits(cfg: Config, m: Machine, ch: Byte, c: Class)
    requires Safe(m) && c != ErrorClass && (IsHex(c) ==> IsHexByte(ch)) && Room(cfg, m)
    ensures var free := Advance(cfg.WithoutLimits(), m, ch, c);
      Advance(cfg, m, ch, c).err == Success <==> free.err == Success && RoomForNext(cfg, m) && Room(cfg, free.m)
  {
    hide Transition, BufferPolicy, DoAction, Store, HexTail;
    StoreKeepsDigits(cfg, m, ch, c);
    StoreKeepsDigits(cfg.WithoutLimits(), m, ch, c);
    StoringCells(m.state, c);
    FourthDigitCells(m.state, c);
    var policy := BufferPolicy(m.state, c);
    StoreWithLimits(cfg, m, ch, policy);
    if Transition(m.state, c) != Reject {
      MoveWithLimits(cfg, m, Store(cfg.WithoutLimits(), m, ch, policy).m, Transition(m.state, c), policy);
    }
  }

  /** The end of the loop, for a machine `m1` that has stored the byte whether there was room for it or not. */
  lemma MoveWithLimits(cfg: Config, m: Machine, m1: Machine, next: Next, policy: Policy)
    requires Room(cfg, m) && next != Reject && (next == Do(UnicodeRead) ==> HexTail(m1.buf, 4))
    requires next.Goto? ==> HexTail(m1.buf, HexNeed(next.state))
    requires if policy == Ignore then m1 == m else |m1.buf| == |m.buf| + 1 && m1 == m.(buf := m1.buf)
    requires policy != Ignore && next.Do? ==> IsStoringAction(next.action)
    requires (m.state == U4 ==> policy != Ignore) && (next == Do(UnicodeRead) ==> m.state == U4)
    ensures var free := MoveOn(cfg.WithoutLimits(), m1, next);
      (Room(cfg, m1) && MoveOn(cfg, m1, next).err == Success) <==> free.err == Success && RoomForNext(cfg, m) && Room(cfg, free.m)
  {
    hide DoAction, HexTail;
    if next.Do? {
      if Room(cfg, m1) {
        ActionWithLimits(cfg, m1, next.action);
      } else if next.action != UnicodeRead {
        StoringActionKeeps(cfg.WithoutLimits(), m1, next.action);
      }
    }
  }

  lemma StepWithLimits(cfg: Config, m: Machine, ch: Byte)
    requires Safe(m) && Room(cfg, m)
    ensures var free := Step(cfg.WithoutLimits(), m, ch);
      Step(cfg, m, ch).err == Success <==> free.err == Success && RoomForNext(cfg, m) && Room(cfg, free.m)
  {
    hide Advance;
    var m' := m.(left := if m.left > 0 then m.left - 1 else Utf8Header(ch));
    var c := if m.left > 0 || m'.left > 0 then Other else CharClass(ch);
    if c != ErrorClass { AdvanceWithLimits(cfg, m', ch, c); }
  }

  // Every text.

  /** Read without limits, no prefix of the text goes beyond those of `cfg`. */
  predicate StaysWithin(cfg: Config, m: Machine, s: Bytes)
    requires Safe(m)
    decreases |s|
  {
    Room(cfg, m) &&
    (s == [] || (RoomForNext(cfg, m) &&
      var o := Step(cfg.WithoutLimits(), m, s[0]);
      o.err == Success && StaysWithin(cfg, o.m, s[1..])))
  }

  lemma {:induction false} RunWithLimits(cfg: Config, m: Machine, s: Bytes)
    requires Safe(m) && Room(cfg, m)
    ensures Run(cfg, m, s).err == Success <==> StaysWithin(cfg, m, s)
    ensures Run(cfg, m, s).err == Success ==> Run(cfg, m, s) == Run(cfg.WithoutLimits(), m, s) && Room(cfg, Run(cfg, m, s).m)
    decreases |s|
  {
    hide Step, Safe, Room, RoomForNext;
    if s != [] {
      StepWithLimits(cfg, m, s[0]);
      var o := Step(cfg, m, s[0]);
      if o.err == Success {
        StepWithoutLimits(cfg, m, s[0]);
        RunWithLimits(cfg, o.m, s[1..]);
      }
    }
  }

  /** What a parser without limits has open and stored after `i` bytes. */
  predicate PrefixFits(cfg: Config, m: Machine, s: Bytes, i: nat)
    requires Safe(m) && i <= |s|
  {
    var p := Run(cfg.WithoutLimits(), m, s[..i]).m;
    Room(cfg, p) && (i < |s| ==> RoomForNext(cfg, p))
  }

  lemma PrefixOfRest(cfg: Config, m: Machine, s: Bytes, i: nat)
    requires Safe(m) && s != [] && i < |s| && Step(cfg.WithoutLimits(), m, s[0]).err == Success
    ensures PrefixFits(cfg, m, s, i + 1) <==> PrefixFits(cfg, Step(cfg.WithoutLimits(), m, s[0]).m, s[1..], i)
  {
    hide Step, Safe;
    assert s[..i + 1][0] == s[0] && s[..i + 1][1..] == s[1..][..i];
  }

  lemma {:induction false} StaysWithinPrefixes(cfg: Config, m: Machine, s: Bytes)
    requires Safe(m)
    ensures StaysWithin(cfg, m, s) <==>
      Run(cfg.WithoutLimits(), m, s).err == Success && forall i :: 0 <= i <= |s| ==> PrefixFits(cfg, m, s, i)
    decreases |s|
  {
    hide Step, Safe, Room, RoomForNext;
    assert s[..0] == [];
    assert PrefixFits(cfg, m, s, 0) <==> Room(cfg, m) && (s != [] ==> RoomForNext(cfg, m));
    if s != [] && Step(cfg.WithoutLimits(), m, s[0]).err == Success {
      var m' := Step(cfg.WithoutLimits(), m, s[0]).m;
      StaysWithinPrefixes(cfg, m', s[1..]);
      forall i | 0 <= i < |s| ensures PrefixFits(cfg, m, s, i + 1) <==> PrefixFits(cfg, m', s[1..], i) {
        PrefixOfRest(cfg, m, s, i);
      }
      hide PrefixFits;
      AllPrefixes(cfg, m, s, m');
    }
  }

  lemma AllPrefixes(cfg: Config, m: Machine, s: Bytes, m': Machine)
    requires Safe(m) && Safe(m') && s != []
    requires forall i :: 0 <= i < |s| ==> (PrefixFits(cfg, m, s, i + 1) <==> PrefixFits(cfg, m', s[1..], i))
    ensures (forall i :: 0 <= i <= |s| ==> PrefixFits(cfg, m, s, i)) <==>
      PrefixFits(cfg, m, s, 0) && forall i :: 0 <= i <= |s[1..]| ==> PrefixFits(cfg, m', s[1..], i)
  {
    hide PrefixFits, Safe;
    if PrefixFits(cfg, m, s, 0) && forall i :: 0 <= i <= |s[1..]| ==> PrefixFits(cfg, m', s[1..], i) {
      forall i | 0 <= i <= |s| ensures PrefixFits(cfg, m, s, i) {
        if i > 0 { assert PrefixFits(cfg, m, s, (i - 1) + 1) <==> PrefixFits(cfg, m', s[1..], i - 1); }
      }
    }
    if forall i :: 0 <= i <= |s| ==> PrefixFits(cfg, m, s, i) {
      forall i | 0 <= i <= |s[1..]| ensures PrefixFits(cfg, m', s[1..], i) {
        assert PrefixFits(cfg, m, s, i + 1);
      }
    }
  }

  /**
    The language with limits: a text is read exactly when it is read without limits and after no prefix more
    is open than `maxNesting` or as much stored as `maxData`. It then has the same result.
   */
  lemma LimitsCutOff(cfg: Config, s: Bytes)
    ensures Run(cfg, START, s).err == Success <==>
      Run(cfg.WithoutLimits(), START, s).err == Success && forall i :: 0 <= i <= |s| ==> PrefixFits(cfg, START, s, i)
    ensures Accepts(cfg, s) <==>
      Accepts(cfg.WithoutLimits(), s) && forall i :: 0 <= i <= |s| ==> PrefixFits(cfg, START, s, i)
    ensures Run(cfg, START, s).err == Success ==> Run(cfg, START, s) == Run(cfg.WithoutLimits(), START, s)
  {
    hide Run, Step, StaysWithin;
    RunWithLimits(cfg, START, s);
    StaysWithinPrefixes(cfg, START, s);
  }

  // One token.

  lemma QuietAction(cfg: Config, m: Machine, a: Action)
    requires (a == UnicodeRead ==> HexTail(m.buf, 4)) && DoAction(cfg, m, a).err == Success
    ensures var m' := DoAction(cfg, m, a).m;
      && m.events <= m'.events && |m'.buf| <= |m.buf|
      && (m'.events == m.events ==> |m'.stack| <= |m.stack|)
  {
    if a == UnicodeRead { UnicodeEvents(m); UnicodeKeepsRoom(m); }
    hide HexTail, ActUnicode;
  }

  lemma UnicodeEvents(m: Machine)
    requires HexTail(m.buf, 4)
    ensures ActUnicode(m).m.events == m.events
  {
    hide FourHex, EncodeUnit, EncodePair;
  }

  lemma QuietAdvance(cfg: Config, m: Machine, ch: Byte, c: Class)
    requires Safe(m) && c != ErrorClass && (IsHex(c) ==> IsHexByte(ch)) && Advance(cfg, m, ch, c).err == Success
    ensures var m' := Advance(cfg, m, ch, c).m;
      && m.events <= m'.events && |m'.buf| <= |m.buf| + 1
      && (m'.events == m.events ==> |m'.stack| <= |m.stack|)
  {
    hide Transition, BufferPolicy, DoAction, HexTail;
    StoreKeepsDigits(cfg, m, ch, c);
    var next := Transition(m.state, c);
    var m1 := Store(cfg, m, ch, BufferPolicy(m.state, c)).m;
    assert |m1.buf| <= |m.buf| + 1 && m1.stack == m.stack && m1.events == m.events;
    hide Store;
    if next.Do? { QuietAction(cfg, m1, next.action); }
  }

  /** A byte stores at most one byte, and opens nothing without reporting it. */
  lemma QuietStep(cfg: Config, m: Machine, ch: Byte)
    requires Safe(m) && Step(cfg, m, ch).err == Success
    ensures var m' := Step(cfg, m, ch).m;
      && m.events <= m'.events && |m'.buf| <= |m.buf| + 1
      && (m'.events == m.events ==> |m'.stack| <= |m.stack|)
  {
    hide Advance;
    var m' := m.(left := if m.left > 0 then m.left - 1 else Utf8Header(ch));
    QuietAdvance(cfg, m', ch, if m.left > 0 || m'.left > 0 then Other else CharClass(ch));
  }

  lemma {:induction false} EventsGrow(cfg: Config, m: Machine, s: Bytes)
    requires Safe(m) && Run(cfg, m, s).err == Success
    ensures m.events <= Run(cfg, m, s).m.events
    decreases |s|
  {
    hide Step, Safe;
    if s != [] {
      QuietStep(cfg, m, s[0]);
      EventsGrow(cfg, Step(cfg, m, s[0]).m, s[1..]);
    }
  }

  /** Bytes that report nothing are read whenever there is room to store all of them. */
  lemma {:induction false} ShortRunFits(cfg: Config, m: Machine, s: Bytes)
    requires Safe(m) && Room(cfg, m) && (cfg.maxData > 0 ==> |m.buf| + |s| < cfg.maxData)
    requires Run(cfg.WithoutLimits(), m, s).err == Success && Run(cfg.WithoutLimits(), m, s).m.events == m.events
    ensures Run(cfg, m, s) == Run(cfg.WithoutLimits(), m, s)
    decreases |s|
  {
    hide Step, Safe;
    if s != [] {
      var free := cfg.WithoutLimits();
      var m' := Step(free, m, s[0]).m;
      QuietStep(free, m, s[0]);
      EventsGrow(free, m', s[1..]);
      assert m'.events == m.events;
      StepWithLimits(cfg, m, s[0]);
      StepWithoutLimits(cfg, m, s[0]);
      ShortRunFits(cfg, m', s[1..]);
    }
  }

  /** How many bytes a piece of a string needs at once: a unicode escape all four of its digits. */
  function PieceNeed(p: StrPiece): nat {
    match p
    case Plain(_) => 1
    case Multi(b) => |b|
    case Escaped(_) => 1
    case Unit(_) => 4
    case Pair(_, _) => 4
  }

  /** The string fits when `before` bytes of it have been stored. */
  predicate StringFits(cfg: Config, before: nat, ps: seq<StrPiece>)
    requires IsString(ps)
    decreases |ps|
  {
    cfg.maxData == 0 || ps == [] ||
    (before + PieceNeed(ps[0]) < cfg.maxData && StringFits(cfg, before + |PieceData(ps[0])|, ps[1..]))
  }

  /** The two parts of a text are read when each is, from where it begins. */
  lemma RunBoth(cfg: Config, m: Machine, a: Bytes, m': Machine, b: Bytes)
    requires Safe(m) && Room(cfg, m) && Steps(cfg.WithoutLimits(), m, a, m')
    ensures Run(cfg, m, a + b).err == Success <==> Run(cfg, m, a).err == Success && Run(cfg, m', b).err == Success
    ensures Run(cfg, m, a).err == Success ==> Steps(cfg, m, a, m') && Room(cfg, m')
  {
    RunAppend(cfg, m, a, b);
    hide Room, Safe, StaysWithin, Run;
    RunWithLimits(cfg, m, a);
  }

  lemma FourDigitsFit(cfg: Config, m: Machine, d: Bytes)
    requires Room(cfg, m) && m.left == 0 && IsFourHex(d) && m.state == U1 && AfterUnit(m, FourHex(d)).err == Success
    requires cfg.maxData > 0 ==> |m.buf| + 4 < cfg.maxData
    ensures Steps(cfg, m, d, AfterUnit(m, FourHex(d)).m)
  {
    hide FourHex, AfterUnit, Run;
    ReadFourDigits(cfg.WithoutLimits(), m, d);
    assert AfterUnit(m, FourHex(d)).m.events == m.events by { AfterUnitEvents(m, FourHex(d)); }
    ShortRunFits(cfg, m, d);
  }

  lemma AfterUnitEvents(m: Machine, u: nat)
    requires u < 0x10000
    ensures AfterUnit(m, u).m.events == m.events && AfterUnit(m, u).m.stack == m.stack
  {}

  /** The last of the digits needs room beside the other three. */
  lemma FourDigitsNeedRoom(cfg: Config, m: Machine, d: Bytes)
    requires Room(cfg, m) && m.left == 0 && IsFourHex(d) && m.state == U1 && Run(cfg, m, d).err == Success
    ensures cfg.maxData > 0 ==> |m.buf| + 4 < cfg.maxData
  {
    hide Run, Step, FourHex, Room, AfterUnit;
    var m3 := Stored(m, d[..3], U4, m.kind);
    ReadThreeDigits(cfg.WithoutLimits(), m, d);
    assert d == d[..3] + [d[3]];
    RunBoth(cfg, m, d[..3], m3, [d[3]]);
    OneByteNeedsRoom(cfg, m3, [d[3]]);
  }

  lemma OneByteNeedsRoom(cfg: Config, m: Machine, s: Bytes)
    requires Safe(m) && Room(cfg, m) && s != [] && Run(cfg, m, s).err == Success
    ensures RoomForNext(cfg, m)
  {
    hide Step, Safe;
    StepWithLimits(cfg, m, s[0]);
  }

  lemma EscapeWithLimits(cfg: Config, m: Machine, d: Bytes)
    requires Room(cfg, m) && m.left == 0 && (m.state == ST || m.state == D1) && IsFourHex(d)
    requires AfterUnit(m.(state := U1), FourHex(d)).err == Success
    ensures Run(cfg, m, [BACKSLASH, LOWER_U] + d).err == Success <==> (cfg.maxData > 0 ==> |m.buf| + 4 < cfg.maxData)
    ensures Steps(cfg.WithoutLimits(), m, [BACKSLASH, LOWER_U] + d, AfterUnit(m.(state := U1), FourHex(d)).m)
  {
    hide Run, Step, FourHex, AfterUnit;
    var m1 := m.(state := U1);
    var bu := [BACKSLASH, LOWER_U];
    assert Safe(m) && Room(cfg, m1);
    hide Safe, Room;
    ReadBackslashU(cfg, m);
    ReadBackslashU(cfg.WithoutLimits(), m);
    ReadFourDigits(cfg.WithoutLimits(), m1, d);
    StepsTrans(cfg.WithoutLimits(), m, bu, m1, d, AfterUnit(m1, FourHex(d)).m);
    RunBoth(cfg, m, bu, m1, d);
    if cfg.maxData > 0 ==> |m.buf| + 4 < cfg.maxData { FourDigitsFit(cfg, m1, d); }
    if Run(cfg, m1, d).err == Success { FourDigitsNeedRoom(cfg, m1, d); }
  }

  lemma UnitWithLimits(cfg: Config, m: Machine, d: Bytes)
    requires Room(cfg, m) && InString(m) && IsStrPiece(Unit(d))
    ensures Run(cfg, m, PieceText(Unit(d))).err == Success <==> (cfg.maxData > 0 ==> |m.buf| + 4 < cfg.maxData)
  {
    hide Run, FourHex, EncodeUnit;
    EscapeWithLimits(cfg, m, d);
  }

  lemma PairWithLimits(cfg: Config, m: Machine, h: Bytes, l: Bytes)
    requires Room(cfg, m) && InString(m) && IsStrPiece(Pair(h, l))
    ensures Run(cfg, m, PieceText(Pair(h, l))).err == Success <==> (cfg.maxData > 0 ==> |m.buf| + 4 < cfg.maxData)
  {
    hide Run, FourHex, EncodePair;
    var u := FourHex(h);
    var m2 := m.(multi := u, state := D1);
    var bu := [BACKSLASH, LOWER_U];
    EscapeWithLimits(cfg, m, h);
    assert AfterUnit(m.(state := U1), u).m == m2;
    assert AfterUnit(m2.(state := U1), FourHex(l)).err == Success;
    assert Room(cfg, m2) && Safe(m);
    hide AfterUnit, Room, Safe;
    EscapeWithLimits(cfg, m2, l);
    RunBoth(cfg, m, bu + h, m2, bu + l);
    assert PieceText(Pair(h, l)) == (bu + h) + (bu + l);
  }

  lemma PieceWithLimits(cfg: Config, m: Machine, p: StrPiece)
    requires Room(cfg, m) && InString(m) && IsStrPiece(p)
    ensures Run(cfg, m, PieceText(p)).err == Success <==> (cfg.maxData > 0 ==> |m.buf| + PieceNeed(p) < cfg.maxData)
  {
    hide Run, Step, FourHex, Utf8;
    match p
    case Unit(d) => UnitWithLimits(cfg, m, d);
    case Pair(h, l) => PairWithLimits(cfg, m, h, l);
    case Plain(_) => StoringPieceWithLimits(cfg, m, p);
    case Multi(_) => StoringPieceWithLimits(cfg, m, p);
    case Escaped(letter) => EscapedWithLimits(cfg, m, letter);
  }

  lemma StoringPieceWithLimits(cfg: Config, m: Machine, p: StrPiece)
    requires Room(cfg, m) && InString(m) && IsStrPiece(p) && (p.Plain? || p.Multi?)
    ensures Run(cfg, m, PieceText(p)).err == Success <==> (cfg.maxData > 0 ==> |m.buf| + PieceNeed(p) < cfg.maxData)
  {
    hide Run, StaysWithin;
    assert Safe(m);
    hide Safe;
    ReadPiece(cfg.WithoutLimits(), m, p);
    RunWithLimits(cfg, m, PieceText(p));
    assert PieceData(p) == PieceText(p) && |PieceText(p)| == PieceNeed(p);
    hide PieceText, PieceData, PieceNeed;
    if cfg.maxData > 0 ==> |m.buf| + PieceNeed(p) < cfg.maxData { ShortRunFits(cfg, m, PieceText(p)); }
  }

  lemma EscapedWithLimits(cfg: Config, m: Machine, letter: Byte)
    requires Room(cfg, m) && InString(m) && IsEscapeByte(letter)
    ensures Run(cfg, m, [BACKSLASH, letter]).err == Success <==> (cfg.maxData > 0 ==> |m.buf| + 1 < cfg.maxData)
  {
    hide Run, Step, EscapeMeaning, StaysWithin;
    var free := cfg.WithoutLimits();
    var e := m.(state := E0);
    var m' := Stored(m, [EscapeMeaning(letter)], ST, NoKind);
    assert Safe(m) && Safe(e);
    hide Safe;
    ReadBackslash(cfg, m);
    ReadByte(cfg, m, BACKSLASH, e);
    ReadBackslash(free, m);
    ReadByte(free, m, BACKSLASH, e);
    ReadEscapeLetter(free, e, letter);
    ReadByte(free, e, letter, m');
    RunBoth(cfg, m, [BACKSLASH], e, [letter]);
    assert [BACKSLASH, letter] == [BACKSLASH] + [letter];
    RunWithLimits(cfg, e, [letter]);
    if cfg.maxData > 0 ==> |m.buf| + 1 < cfg.maxData { ShortRunFits(cfg, e, [letter]); }
  }

  lemma {:induction false} StringWithLimits(cfg: Config, m: Machine, ps: seq<StrPiece>)
    requires Room(cfg, m) && InString(m) && IsString(ps)
    ensures Run(cfg, m, StringText(ps)).err == Success <==> StringFits(cfg, |m.buf|, ps)
    decreases |ps|
  {
    hide Run, Step, PieceText, PieceData, PieceNeed, IsStrPiece, StringText, Room, InString;
    InStringIsSafe(m);
    if ps == [] {
      ReadNothing(cfg, m);
      assert StringText(ps) == [] by { TextOfPieces(ps); }
    } else {
      var m' := Stored(m, PieceData(ps[0]), ST, NoKind);
      ReadPiece(cfg.WithoutLimits(), m, ps[0]);
      PieceWithLimits(cfg, m, ps[0]);
      TextOfPieces(ps);
      RunBoth(cfg, m, PieceText(ps[0]), m', StringText(ps[1..]));
      if Run(cfg, m, PieceText(ps[0])).err == Success {
        StoredInString(m, PieceData(ps[0]));
        StringWithLimits(cfg, m', ps[1..]);
      }
    }
  }

  lemma InStringIsSafe(m: Machine)
    requires InString(m)
    ensures Safe(m)
  {}

  lemma TextOfPieces(ps: seq<StrPiece>)
    ensures StringText(ps) == if ps == [] then [] else PieceText(ps[0]) + StringText(ps[1..])
  {}

  lemma StoredInString(m: Machine, b: Bytes)
    requires InString(m)
    ensures InString(Stored(m, b, ST, NoKind)) && |Stored(m, b, ST, NoKind).buf| == |m.buf| + |b|
  {}

  /** The tokens the buffer has to hold. */
  predicate LexemeFits(cfg: Config, l: Lexeme)
    requires IsLexeme(l)
  {
    match l
    case Punct(_) => true
    case Quoted(ps) => StringFits(cfg, 0, ps)
    case Numeral(n) => cfg.maxData > 0 ==> |NumberText(n)| < cfg.maxData
    case Word(_) => true
  }

  lemma QuotedWithLimits(cfg: Config, m: Machine, ps: seq<StrPiece>)
    requires Room(cfg, m) && Settled(m) && IsString(ps) && (m.state == OB || m.state == KY || ExpectsValue(m.state))
    ensures Run(cfg, m, LexemeText(Quoted(ps))).err == Success <==> StringFits(cfg, 0, ps)
  {
    hide Run, Step, ActEndString, StringFits, StringText;
    var free := cfg.WithoutLimits();
    var m1 := m.(state := ST);
    var m2 := Stored(m, StringData(ps), ST, NoKind);
    assert m.buf == [] && InString(m1) && InString(m2) && Room(cfg, m1) && Safe(m) && Safe(m1);
    hide Settled, InString, Safe, Room;
    ReadOpeningQuote(cfg, m);
    ReadByte(cfg, m, QUOTE, m1);
    ReadOpeningQuote(free, m);
    ReadByte(free, m, QUOTE, m1);
    StringWithLimits(cfg, m1, ps);
    ReadStringBody(free, m1, ps);
    ReadClosingQuote(cfg, m2);
    ReadByte(cfg, m2, QUOTE, ActEndString(m2));
    RunBoth(cfg, m1, StringText(ps), m2, [QUOTE]);
    RunBoth(cfg, m, [QUOTE], m1, StringText(ps) + [QUOTE]);
    assert LexemeText(Quoted(ps)) == [QUOTE] + (StringText(ps) + [QUOTE]);
  }

  lemma NumeralWithLimits(cfg: Config, m: Machine, n: Number)
    requires Room(cfg, m) && Settled(m) && IsNumber(n) && ExpectsValue(m.state)
    ensures Run(cfg, m, NumberText(n)).err == Success <==> LexemeFits(cfg, Numeral(n))
  {
    hide Run, IsNumber, NumberText, StaysWithin;
    assert m.buf == [] && Safe(m) && m.left == 0;
    hide Settled, Safe;
    var m' := ReadNumber(cfg.WithoutLimits(), m, n);
    RunWithLimits(cfg, m, NumberText(n));
    assert m'.buf == NumberText(n);
    if LexemeFits(cfg, Numeral(n)) { ShortRunFits(cfg, m, NumberText(n)); }
  }

  predicate IsOpening(sym: Symbol) { sym == LBrace || sym == LBracket }

  lemma OpeningWithLimits(cfg: Config, m: Machine, mode: Mode)
    requires Room(cfg, m) && Settled(m) && Open(PlaceOf(m), mode).Some?
    ensures Run(cfg, m, [if mode == ObjectMode then LCURB else LSQRB]).err == Success <==>
      (cfg.maxNesting > 0 ==> |m.stack| + 1 <= cfg.maxNesting)
  {
    hide Run, Step;
    var ch := if mode == ObjectMode then LCURB else LSQRB;
    var m' := ReadOpen(cfg.WithoutLimits(), m, mode);
    assert m'.buf == [] && |m'.stack| == |m.stack| + 1 && m.state != U4;
    hide Settled, PlaceOf, Safe;
    StepWithLimits(cfg, m, ch);
    OneByteRun(cfg, m, ch);
  }

  lemma OneByteRun(cfg: Config, m: Machine, ch: Byte)
    requires Safe(m)
    ensures Run(cfg, m, [ch]).err == Step(cfg, m, ch).err
  {
    hide Step, Safe;
    assert [ch][1..] == [];
  }

  lemma PunctWithLimits(cfg: Config, m: Machine, sym: Symbol)
    requires Room(cfg, m) && Settled(m) && IsPunct(sym) && Read(PlaceOf(m), sym).Some?
    ensures Run(cfg, m, [PunctByte(sym)]).err == Success <==>
      (IsOpening(sym) && cfg.maxNesting > 0 ==> |m.stack| + 1 <= cfg.maxNesting)
  {
    SettledIsSafe(m);
    hide Run, Step, Safe, Settled, Open, Close, PlaceOf;
    if sym == LBrace {
      OpeningWithLimits(cfg, m, ObjectMode);
    } else if sym == LBracket {
      OpeningWithLimits(cfg, m, ArrayMode);
    } else {
      OneByteRun(cfg, m, PunctByte(sym));
      var m';
      if sym == RBrace {
        m' := ReadClose(cfg, m, ObjectMode, OB);
      } else if sym == RBracket {
        m' := ReadClose(cfg, m, ArrayMode, AR);
      } else if sym == CommaSym {
        m' := ReadComma(cfg, m);
      } else {
        m' := ReadColon(cfg, m);
      }
    }
  }

  lemma LexemeWithLimits(cfg: Config, m: Machine, l: Lexeme)
    requires Room(cfg, m) && Settled(m) && IsLexeme(l) && Read(PlaceOf(m), LexemeSymbol(l)).Some?
    ensures Run(cfg, m, LexemeText(l)).err == Success <==>
      LexemeFits(cfg, l) && (IsOpening(LexemeSymbol(l)) && cfg.maxNesting > 0 ==> |m.stack| + 1 <= cfg.maxNesting)
  {
    hide Run, StringFits, StringData, IsNumber, NumberText, Open, Close;
    SettledIsSafe(m);
    hide Safe;
    match l
    case Punct(sym) => PunctWithLimits(cfg, m, sym);
    case Quoted(ps) => QuotedWithLimits(cfg, m, ps);
    case Numeral(n) => NumeralWithLimits(cfg, m, n);
    case Word(k) => ReadWord(cfg, m, k);
  }

  // Nesting.

  function Turn(sym: Symbol): int {
    if IsOpening(sym) then 1 else if sym == RBrace || sym == RBracket then -1 else 0
  }

  /** The most structures ever open while `syms` are read, when `n` are open before. */
  function MaxOpen(n: int, syms: seq<Symbol>): (r: int)
    ensures r >= n
    decreases |syms|
  {
    if syms == [] then n
    else
      var rest := MaxOpen(n + Turn(syms[0]), syms[1..]);
      if rest < n then n else rest
  }

  function Higher(a: int, b: int): int {
    if a < b then b else a
  }

  lemma MaxOpenCons(n: int, sym: Symbol, rest: seq<Symbol>)
    ensures MaxOpen(n, [sym] + rest) == Higher(n, MaxOpen(n + Turn(sym), rest))
  {
    assert ([sym] + rest)[1..] == rest;
  }

  /** Reading a whole value opens as many structures as the value is deep. */
  lemma {:induction false} DeepestOfValue(n: int, v: Json, rest: seq<Symbol>)
    requires IsJson(v)
    ensures MaxOpen(n, Symbols(v) + rest) == Higher(n + Depth(v), MaxOpen(n, rest))
    decreases v, 1
  {
    match v
    case Leaf(kind, data) => MaxOpenCons(n, LeafSymbol(kind, data), rest);
    case Arr(items) => DeepestOfArray(n, items, rest);
    case Obj(members) => DeepestOfObject(n, members, rest);
  }

  lemma {:induction false} DeepestOfArray(n: int, items: seq<Json>, rest: seq<Symbol>)
    requires forall i :: 0 <= i < |items| ==> IsJson(items[i])
    ensures MaxOpen(n, Symbols(Arr(items)) + rest) == Higher(n + Depth(Arr(items)), MaxOpen(n, rest))
    decreases items, 3
  {
    hide MaxOpen, ItemSymbols, ItemsDepth, IsJson;
    Bracketed(LBracket, ItemSymbols(items), RBracket, rest);
    MaxOpenCons(n, LBracket, ItemSymbols(items) + ([RBracket] + rest));
    DeepestOfItems(n + 1, items, [RBracket] + rest);
    MaxOpenCons(n + 1, RBracket, rest);
  }

  lemma {:induction false} DeepestOfObject(n: int, members: seq<Member>, rest: seq<Symbol>)
    requires forall i :: 0 <= i < |members| ==> IsJson(members[i].value)
    ensures MaxOpen(n, Symbols(Obj(members)) + rest) == Higher(n + Depth(Obj(members)), MaxOpen(n, rest))
    decreases members, 3
  {
    hide MaxOpen, MemberSymbols, MembersDepth, IsJson;
    Bracketed(LBrace, MemberSymbols(members), RBrace, rest);
    MaxOpenCons(n, LBrace, MemberSymbols(members) + ([RBrace] + rest));
    DeepestOfMembers(n + 1, members, [RBrace] + rest);
    MaxOpenCons(n + 1, RBrace, rest);
  }

  lemma {:induction false} DeepestOfItems(n: int, items: seq<Json>, rest: seq<Symbol>)
    requires forall i :: 0 <= i < |items| ==> IsJson(items[i])
    ensures MaxOpen(n, ItemSymbols(items) + rest) == Higher(n + ItemsDepth(items), MaxOpen(n, rest))
    decreases items, 0
  {
    hide MaxOpen, Symbols, Depth, IsJson;
    if items == [] {
      assert ItemSymbols(items) + rest == rest;
    } else if |items| == 1 {
      DeepestOfValue(n, items[0], rest);
      OneItem(items);
      assert ItemsDepth(items[1..]) == 0;
    } else {
      var more := ItemSymbols(items[1..]) + rest;
      MoreItems(items, rest);
      DeepestOfValue(n, items[0], [CommaSym] + more);
      MaxOpenCons(n, CommaSym, more);
      DeepestOfItems(n, items[1..], rest);
    }
  }

  lemma {:induction false} DeepestOfMembers(n: int, members: seq<Member>, rest: seq<Symbol>)
    requires forall i :: 0 <= i < |members| ==> IsJson(members[i].value)
    ensures MaxOpen(n, MemberSymbols(members) + rest) == Higher(n + MembersDepth(members), MaxOpen(n, rest))
    decreases members, 0
  {
    hide MaxOpen, PairSymbols, Depth, IsJson;
    if members == [] {
      assert MemberSymbols(members) + rest == rest;
    } else if |members| == 1 {
      DeepestOfPair(n, members[0], rest);
      OneMember(members);
      assert MembersDepth(members[1..]) == 0;
    } else {
      var more := MemberSymbols(members[1..]) + rest;
      MoreMembers(members, rest);
      DeepestOfPair(n, members[0], [CommaSym] + more);
      MaxOpenCons(n, CommaSym, more);
      DeepestOfMembers(n, members[1..], rest);
    }
  }

  lemma {:induction false} DeepestOfPair(n: int, m: Member, rest: seq<Symbol>)
    requires IsJson(m.value)
    ensures MaxOpen(n, PairSymbols(m) + rest) == Higher(n + Depth(m.value), MaxOpen(n, rest))
    decreases m, 2
  {
    hide MaxOpen, Symbols, Depth, IsJson;
    assert PairSymbols(m) + rest == [TextSym(m.key)] + ([ColonSym] + (Symbols(m.value) + rest));
    MaxOpenCons(n, TextSym(m.key), [ColonSym] + (Symbols(m.value) + rest));
    MaxOpenCons(n, ColonSym, Symbols(m.value) + rest);
    DeepestOfValue(n, m.value, rest);
  }

  // Documents.

  predicate TokensFit(cfg: Config, ps: seq<Piece>)
    requires AreLexemes(ps)
  {
    forall i :: 0 <= i < |ps| ==> LexemeFits(cfg, ps[i].lexeme)
  }

  /** The document is not deeper than the nesting limit, and each of its tokens fits the data limit. */
  predicate FitsLimits(cfg: Config, d: Document, v: Json)
    requires AreLexemes(d.pieces)
  {
    TokensFit(cfg, d.pieces) && (cfg.maxNesting > 0 ==> Depth(v) <= cfg.maxNesting)
  }

  lemma TokensFitCons(cfg: Config, ps: seq<Piece>)
    requires AreLexemes(ps) && ps != []
    ensures TokensFit(cfg, ps) <==> LexemeFits(cfg, ps[0].lexeme) && TokensFit(cfg, ps[1..])
  {
    hide LexemeFits;
    if LexemeFits(cfg, ps[0].lexeme) && TokensFit(cfg, ps[1..]) {
      forall i | 0 <= i < |ps| ensures LexemeFits(cfg, ps[i].lexeme) {
        if i > 0 { assert ps[i] == ps[1..][i - 1]; }
      }
    }
    if TokensFit(cfg, ps) {
      assert forall i :: 0 <= i < |ps| - 1 ==> ps[1..][i] == ps[i + 1];
    }
  }

  lemma ReadTurns(p: Place, sym: Symbol)
    requires Read(p, sym).Some?
    ensures |Read(p, sym).value.stack| == |p.stack| + Turn(sym)
  {}

  lemma FirstPieceWithLimits(cfg: Config, m: Machine, p: Piece, rest: Bytes) returns (m': Machine)
    requires Room(cfg, m) && Settled(m) && IsPiece(cfg, p) && MayFollow(m.state == X3, p.pre)
    requires Read(PlaceOf(m), LexemeSymbol(p.lexeme)).Some?
    ensures Settled(m') && Safe(m) && Safe(m') && Read(PlaceOf(m), LexemeSymbol(p.lexeme)) == Some(PlaceOf(m'))
    ensures (m'.state == X3 <==> HasExponent(p.lexeme)) && |m'.stack| == |m.stack| + Turn(LexemeSymbol(p.lexeme))
    ensures var fits := LexemeFits(cfg, p.lexeme) && (cfg.maxNesting > 0 ==> |m'.stack| <= cfg.maxNesting);
      && (Run(cfg, m, FillersText(p.pre) + LexemeText(p.lexeme) + rest).err == Success <==>
        fits && Run(cfg, m', rest).err == Success)
      && (fits && Run(cfg, m', rest).err == Success ==> Room(cfg, m'))
      && (fits ==> Room(cfg, m'))
  {
    hide Run, Step, LexemeText, FillersText, LexemeFits, Read, Settled, Safe, LexemeSymbol, StaysWithin, IsLexeme, MayFollow, AreFillers;
    SettledIsSafe(m);
    var free := cfg.WithoutLimits();
    var l := p.lexeme;
    var m1 := ReadFillers(cfg, m, p.pre);
    RunWithoutLimits(cfg, m, FillersText(p.pre));
    RunWithLimits(cfg, m, FillersText(p.pre));
    m' := ReadLexeme(free, m1, l);
    SettledIsSafe(m1);
    SettledIsSafe(m');
    LexemeWithLimits(cfg, m1, l);
    RunBoth(cfg, m1, LexemeText(l), m', rest);
    RunBoth(cfg, m, FillersText(p.pre), m1, LexemeText(l) + rest);
    assert FillersText(p.pre) + LexemeText(l) + rest == FillersText(p.pre) + (LexemeText(l) + rest);
    ReadTurns(PlaceOf(m), LexemeSymbol(l));
    assert PlaceOf(m).stack == m.stack && PlaceOf(m').stack == m'.stack && PlaceOf(m1).stack == m1.stack;
    assert Turn(LexemeSymbol(l)) <= 1 && (Turn(LexemeSymbol(l)) == 1 <==> IsOpening(LexemeSymbol(l)));
  }

  /** What a list of pieces says of its first piece and of the rest. */
  lemma UnfoldPieces(cfg: Config, after: bool, p: Place, ps: seq<Piece>)
    requires ps != [] && ArePieces(cfg, ps) && AreLexemes(ps) && Separated(after, ps) && ReadAll(p, PiecesSymbols(ps)).Some?
    ensures var l, rest := ps[0].lexeme, ps[1..];
      && IsPiece(cfg, ps[0]) && MayFollow(after, ps[0].pre) && ArePieces(cfg, rest) && AreLexemes(rest) && IsLexeme(l)
      && Separated(HasExponent(l), rest)
      && PiecesText(ps) == FillersText(ps[0].pre) + LexemeText(l) + PiecesText(rest)
      && PiecesSymbols(ps) == [LexemeSymbol(l)] + PiecesSymbols(rest)
      && Read(p, LexemeSymbol(l)).Some? && ReadAll(Read(p, LexemeSymbol(l)).value, PiecesSymbols(rest)).Some?
  {
    hide IsPiece, IsLexeme, LexemeText, FillersText, LexemeSymbol, Read, MayFollow;
    assert IsPiece(cfg, ps[0]);
    ReadCons(p, LexemeSymbol(ps[0].lexeme), PiecesSymbols(ps[1..]));
  }

  /** With limits, the rest of a document is read exactly when its tokens fit and it opens no more than allowed. */
  lemma {:induction false} PiecesWithLimits(cfg: Config, m: Machine, ps: seq<Piece>)
    requires Room(cfg, m) && Settled(m) && ArePieces(cfg, ps) && AreLexemes(ps)
    requires Separated(m.state == X3, ps) && ReadAll(PlaceOf(m), PiecesSymbols(ps)).Some?
    ensures Safe(m)
    ensures Run(cfg, m, PiecesText(ps)).err == Success <==>
      TokensFit(cfg, ps) && (cfg.maxNesting > 0 ==> MaxOpen(|m.stack|, PiecesSymbols(ps)) <= cfg.maxNesting)
    decreases |ps|
  {
    SettledIsSafe(m);
    RoomOnStack(cfg, m);
    if ps == [] {
      ReadNothing(cfg, m);
    } else {
      MorePiecesWithLimits(cfg, m, ps);
    }
  }

  lemma {:induction false} MorePiecesWithLimits(cfg: Config, m: Machine, ps: seq<Piece>)
    requires Room(cfg, m) && Settled(m) && ArePieces(cfg, ps) && AreLexemes(ps) && ps != []
    requires Separated(m.state == X3, ps) && ReadAll(PlaceOf(m), PiecesSymbols(ps)).Some?
    ensures Safe(m)
    ensures Run(cfg, m, PiecesText(ps)).err == Success <==>
      TokensFit(cfg, ps) && (cfg.maxNesting > 0 ==> MaxOpen(|m.stack|, PiecesSymbols(ps)) <= cfg.maxNesting)
    decreases |ps|, 0
  {
    hide Run, Settled, PlaceOf, Read, ReadAll, LexemeText, FillersText, PiecesText, LexemeSymbol, PiecesSymbols, IsPiece, IsLexeme, AreLexemes, ArePieces, Separated, MayFollow, LexemeFits, Safe, TokensFit, Turn, Room, MaxOpen, HasExponent;
    var rest := ps[1..];
    UnfoldPieces(cfg, m.state == X3, PlaceOf(m), ps);
    var m' := FirstPieceWithLimits(cfg, m, ps[0], PiecesText(rest));
    TokensFitCons(cfg, ps);
    MaxOpenCons(|m.stack|, LexemeSymbol(ps[0].lexeme), PiecesSymbols(rest));
    RoomOnStack(cfg, m);
    if LexemeFits(cfg, ps[0].lexeme) && (cfg.maxNesting > 0 ==> |m'.stack| <= cfg.maxNesting) {
      PiecesWithLimits(cfg, m', rest);
    }
  }

  lemma RoomOnStack(cfg: Config, m: Machine)
    requires Room(cfg, m)
    ensures cfg.maxNesting > 0 ==> |m.stack| <= cfg.maxNesting
  {}

  /** With limits, a document is accepted exactly when it fits them, and with its own events. */
  lemma DocumentsWithLimits(cfg: Config, d: Document, v: Json)
    requires Spells(cfg, d, v)
    ensures Accepts(cfg, Text(d)) <==> FitsLimits(cfg, d, v)
    ensures Accepts(cfg, Text(d)) ==> Run(cfg, START, Text(d)).m.events == Linearise(v)
  {
    SymbolsOfDocuments(Symbols(v));
    hide Run, Steps, Symbols, Linearise, PiecesSymbols, IsJson, AreFillers, ArePieces, AreLexemes, Separated, TokensFit, Depth;
    assert PlaceOf(START) == FIRST;
    var free := cfg.WithoutLimits();
    SameGrammar(cfg, free, d, v);
    DocumentsAreAccepted(free, d, v);
    PiecesWithLimits(cfg, START, d.pieces);
    DepthIsMaxOpen(v);
    TrailWithLimits(cfg, d, v);
    if Accepts(cfg, Text(d)) { RunWithoutLimits(cfg, START, Text(d)); }
    if Run(cfg, START, Text(d)).err == Success { RunWithoutLimits(cfg, START, Text(d)); }
  }

  lemma DepthIsMaxOpen(v: Json)
    requires IsJson(v)
    ensures MaxOpen(0, Symbols(v)) == Depth(v)
  {
    DeepestOfValue(0, v, []);
    hide Symbols, Depth;
    assert Symbols(v) + [] == Symbols(v);
  }

  lemma TrailWithLimits(cfg: Config, d: Document, v: Json)
    requires Spells(cfg, d, v) && Finishes(FIRST, PiecesSymbols(d.pieces))
    ensures Run(cfg, START, Text(d)).err == Success <==> Run(cfg, START, PiecesText(d.pieces)).err == Success
  {
    hide Run, Step, Symbols, PiecesSymbols, IsJson, AreFillers, ArePieces, AreLexemes, Separated, PiecesText, FillersText, IsLexeme;
    var free := cfg.WithoutLimits();
    SameGrammar(cfg, free, d, v);
    assert PlaceOf(START) == FIRST;
    var m := ReadPieces(free, START, d.pieces);
    var m' := ReadFillers(cfg, m, d.trail);
    RunBoth(cfg, START, PiecesText(d.pieces), m, FillersText(d.trail));
  }

  /** The parser with any limits accepts exactly the documents of the grammar that fit them. */
  lemma AcceptsDocumentsThatFit(cfg: Config, s: Bytes)
    ensures Accepts(cfg, s) <==> exists d: Document, v: Json :: Spells(cfg, d, v) && Text(d) == s && FitsLimits(cfg, d, v)
  {
    hide Run, FitsLimits, Accepts, Text, AreLexemes, ArePieces, AreFillers, Separated, PiecesSymbols, Symbols, IsJson;
    if Accepts(cfg, s) {
      var d, v := FindDocument(cfg, s);
      DocumentsWithLimits(cfg, d, v);
    }
    forall d: Document, v: Json | Spells(cfg, d, v) && Text(d) == s && FitsLimits(cfg, d, v)
      ensures Accepts(cfg, s)
    {
      DocumentsWithLimits(cfg, d, v);
    }
  }

  lemma {:induction false} LooserString(cfg: Config, cfg': Config, before: nat, ps: seq<StrPiece>)
    requires IsString(ps) && StringFits(cfg, before, ps) && cfg'.NoTighterThan(cfg)
    ensures StringFits(cfg', before, ps)
    decreases |ps|
  {
    hide PieceData, PieceNeed, IsStrPiece;
    if ps != [] && cfg'.maxData > 0 { LooserString(cfg, cfg', before + |PieceData(ps[0])|, ps[1..]); }
  }

  lemma LooserLexeme(cfg: Config, cfg': Config, l: Lexeme)
    requires IsLexeme(l) && LexemeFits(cfg, l) && cfg'.NoTighterThan(cfg)
    ensures LexemeFits(cfg', l)
  {
    hide StringFits, NumberText;
    if l.Quoted? { LooserString(cfg, cfg', 0, l.pieces); }
  }

  lemma LooserLimits(cfg: Config, cfg': Config, d: Document, v: Json)
    requires AreLexemes(d.pieces) && FitsLimits(cfg, d, v) && cfg'.NoTighterThan(cfg)
    ensures FitsLimits(cfg', d, v)
  {
    hide LexemeFits, IsLexeme, Depth;
    forall i | 0 <= i < |d.pieces| ensures LexemeFits(cfg', d.pieces[i].lexeme) {
      assert LexemeFits(cfg, d.pieces[i].lexeme);
      LooserLexeme(cfg, cfg', d.pieces[i].lexeme);
    }
  }

  // Only the numbers matter, and only the tokens.

  lemma SameTokens(cfg: Config, cfg': Config, ps: seq<Piece>, ps': seq<Piece>)
    requires AreLexemes(ps) && AreLexemes(ps') && |ps'| == |ps| && forall i :: 0 <= i < |ps| ==> ps'[i].lexeme == ps[i].lexeme
    requires cfg.maxData == cfg'.maxData
    ensures TokensFit(cfg', ps') <==> TokensFit(cfg, ps)
  {
    hide LexemeFits, IsLexeme;
    forall i | 0 <= i < |ps| ensures LexemeFits(cfg', ps'[i].lexeme) <==> LexemeFits(cfg, ps[i].lexeme) {
      SameLexemeFits(cfg, cfg', ps[i].lexeme);
    }
  }

  lemma SameLexemeFits(cfg: Config, cfg': Config, l: Lexeme)
    requires IsLexeme(l) && cfg.maxData == cfg'.maxData
    ensures LexemeFits(cfg', l) <==> LexemeFits(cfg, l)
  {
    hide StringFits, NumberText;
    if l.Quoted? { SameStringFits(cfg, cfg', 0, l.pieces); }
  }

  lemma {:induction false} SameStringFits(cfg: Config, cfg': Config, before: nat, ps: seq<StrPiece>)
    requires IsString(ps) && cfg.maxData == cfg'.maxData
    ensures StringFits(cfg', before, ps) <==> StringFits(cfg, before, ps)
    decreases |ps|
  {
    hide PieceData, PieceNeed, IsStrPiece;
    if ps != [] { SameStringFits(cfg, cfg', before + |PieceData(ps[0])|, ps[1..]); }
  }
}
