/** Soundness, concluded, and the main theorems about the language of the parser. */
module JsonGrammar {
  import opened JsonTypes
  import opened JsonTables
  import opened JsonMachine
  import opened JsonSyntax
  import opened JsonText
  import opened JsonReads
  import opened JsonReadsStrings
  import opened JsonCompleteness
  import opened JsonSoundness

  // Comments.

  lemma BodyByteRead(cfg: Config, m: Machine, ch: Byte)
    requires InComment(m) && Safe(m) && Step(cfg, m, ch).err == Success
    ensures if ch < 0x80 then ch >= SPACE || IsBlank(ch) else 0 < Utf8Header(ch) < 255
  {
    ReadMeans(cfg, m, ch);
    hide Step, Transition;
  }

  lemma {:induction false} FindBodyContinuations(cfg: Config, m: Machine, s: Bytes)
    requires InComment(m.(left := 0)) && m.state != C3 && Finishing(cfg, m, s)
    ensures m.left <= |s| && forall i :: 0 <= i < m.left ==> IsContinuation(s[i])
    decreases m.left
  {
    hide Step, Finishing;
    if m.left > 0 {
      NotDone(cfg, m, s);
      var m' := FirstStep(cfg, m, s);
      ContinuationRead(cfg, m, s[0]);
      ReadBodyContinuation(cfg, m, s[0]);
      FindBodyContinuations(cfg, m', s[1..]);
      forall i | 0 <= i < m.left ensures IsContinuation(s[i]) {
        if i > 0 { assert s[i] == s[1..][i - 1]; }
      }
    }
  }

  /** The next character of a comment. */
  lemma FindBodyCharacter(cfg: Config, m: Machine, s: Bytes) returns (c: Bytes)
    requires InComment(m) && Finishing(cfg, m, s) && s != [] && !EndsComment(m.state, s[0])
    ensures c != [] && c <= s && Steps(cfg, m, c, m.(state := BodyState(m.state, c[0])))
    ensures (|c| == 1 && c[0] < 0x80 && (c[0] >= SPACE || IsBlank(c[0]))) || IsMulti(c)
  {
    hide Step, Finishing, Steps;
    var m1 := FirstStep(cfg, m, s);
    BodyByteRead(cfg, m, s[0]);
    if s[0] < 0x80 {
      c := [s[0]];
      ReadBodyByte(cfg, m, s[0]);
      ReadByte(cfg, m, s[0], m1);
    } else {
      ReadBodyLead(cfg, m, s[0]);
      FindBodyContinuations(cfg, m1, s[1..]);
      c := s[..1 + Utf8Header(s[0])];
      assert forall i :: 1 <= i < |c| ==> c[i] == s[1..][i - 1];
      ReadBodyMulti(cfg, m, c);
    }
  }

  lemma ExtendBody(s: State, c: Bytes, b: Bytes)
    requires c != [] && ((|c| == 1 && c[0] < 0x80 && (c[0] >= SPACE || IsBlank(c[0]))) || IsMulti(c))
    requires !EndsComment(s, c[0]) && (s == C2 || s == C3 || s == Y1)
    requires IsCommentBody(b) && StaysOpen(BodyState(s, c[0]), b)
    ensures IsCommentBody(c + b) && StaysOpen(s, c + b)
  {
    var d := c + b;
    assert d[..|c|] == c && d[|c|..] == b;
  }

  lemma {:induction false} FindBody(cfg: Config, m: Machine, s: Bytes) returns (b: Bytes, rest: Bytes)
    requires InComment(m) && Finishing(cfg, m, s) && (s != [] && m.state == C3 ==> s[0] != SLASH)
    ensures s == b + Closing(m.state) + rest && IsCommentBody(b) && StaysOpen(m.state, b)
    decreases |s|
  {
    hide Step, Finishing, Steps;
    NotDone(cfg, m, s);
    if m.state == Y1 && s[0] == LF {
      b, rest := [], s[1..];
    } else {
      var c := FindBodyCharacter(cfg, m, s);
      var m' := m.(state := BodyState(m.state, c[0]));
      var s' := s[|c|..];
      assert s == c + s';
      After(cfg, m, c, m', s');
      NotDone(cfg, m', s');
      if m'.state == C3 && s'[0] == SLASH {
        b, rest := [], s'[1..];
        assert c == [STAR];
      } else {
        b, rest := FindBody(cfg, m', s');
        ExtendBody(m.state, c, b);
        Assoc(c, b, Closing(m.state), rest);
        b := c + b;
      }
    }
  }

  lemma CommentRead(cfg: Config, m: Machine, yaml: bool)
    requires Settled(m) && Safe(m) && Step(cfg, m, if yaml then HASH else SLASH).err == Success
    ensures m.state != X3 && (if yaml then cfg.allowYaml else cfg.allowC)
  {
    hide Step, CharClass, Transition, BufferPolicy;
    assert m.state != X3 by {
      ReadMeans(cfg, m, if yaml then HASH else SLASH);
      NoCommentAfterExponent();
    }
    CommentCell(m.state, yaml);
    StepIgnoring(cfg, m, if yaml then HASH else SLASH);
  }

  lemma NoCommentAfterExponent()
    ensures Transition(X3, ClassOf(HASH)) == Reject && Transition(X3, ClassOf(SLASH)) == Reject
  {
    assert ClassOf(HASH) == Hash && ClassOf(SLASH) == Slash;
    assert NumberRow(X3, Hash) == Reject && NumberRow(X3, Slash) == Reject;
    hide ClassOf, NumberRow, StructureRow, StringRow, CommentRow, WordRow;
  }

  lemma StarRead(cfg: Config, m: Machine, ch: Byte)
    requires Safe(m) && m.left == 0 && m.state == C1 && Step(cfg, m, ch).err == Success
    ensures ch == STAR
  {
    hide Step, ClassOf, Transition;
    ReadMeans(cfg, m, ch);
    OnlyStar(ClassOf(ch));
    StarClass(ch);
  }

  lemma OnlyStar(c: Class)
    requires c != ErrorClass && Transition(C1, c) != Reject
    ensures c == Star
  {
    hide StructureRow, StringRow, NumberRow, WordRow;
  }

  lemma StarClass(ch: Byte)
    requires ClassOf(ch) == Star
    ensures ch == STAR
  {}

  lemma FindComment(cfg: Config, m: Machine, s: Bytes) returns (f: Filler, rest: Bytes)
    requires Settled(m) && Finishing(cfg, m, s) && s != [] && (s[0] == SLASH || s[0] == HASH)
    ensures IsFiller(cfg, f) && s == FillerText(f) + rest && !f.Blank? && m.state != X3
  {
    hide Step, Finishing, Steps, EnterComment, IsCommentBody, StaysOpen, Settled;
    SettledIsSafe(m);
    hide Safe;
    EnterCommentFields(m);
    var yaml := s[0] == HASH;
    var m1 := FirstStep(cfg, m, s);
    CommentRead(cfg, m, yaml);
    ReadCommentStart(cfg, m, yaml);
    if yaml {
      f, rest := FindYamlComment(cfg, m1, s);
    } else {
      f, rest := FindCComment(cfg, m1, EnterComment(m, C2), s);
    }
  }

  lemma FindYamlComment(cfg: Config, m: Machine, s: Bytes) returns (f: Filler, rest: Bytes)
    requires InComment(m) && m.state == Y1 && s != [] && s[0] == HASH && cfg.allowYaml && Finishing(cfg, m, s[1..])
    ensures IsFiller(cfg, f) && s == FillerText(f) + rest && !f.Blank?
  {
    hide Finishing, IsCommentBody;
    var b;
    b, rest := FindBody(cfg, m, s[1..]);
    f := YamlComment(b);
    assert s == [HASH] + s[1..];
    Assoc([HASH], b, [LF], rest);
  }

  lemma FindCComment(cfg: Config, m: Machine, m2: Machine, s: Bytes) returns (f: Filler, rest: Bytes)
    requires Safe(m) && m.left == 0 && m.state == C1 && m2 == m.(state := C2) && InComment(m2)
    requires s != [] && s[0] == SLASH && cfg.allowC && Finishing(cfg, m, s[1..])
    ensures IsFiller(cfg, f) && s == FillerText(f) + rest && !f.Blank?
  {
    hide Step, Finishing, IsCommentBody, StaysOpen;
    NotDone(cfg, m, s[1..]);
    var m' := FirstStep(cfg, m, s[1..]);
    StarRead(cfg, m, s[1..][0]);
    ReadSecondStar(cfg, m);
    hide Safe, InComment;
    var b;
    b, rest := FindBody(cfg, m2, s[1..][1..]);
    f := CComment(b);
    CCommentFound(cfg, s, b, rest);
  }

  lemma CCommentFound(cfg: Config, s: Bytes, b: Bytes, rest: Bytes)
    requires |s| >= 2 && s[0] == SLASH && s[1..][0] == STAR && s[1..][1..] == b + Closing(C2) + rest
    requires cfg.allowC && IsCommentBody(b) && StaysOpen(C2, b)
    ensures IsFiller(cfg, CComment(b)) && s == FillerText(CComment(b)) + rest
  {
    hide IsCommentBody;
    assert s == [SLASH, STAR] + s[1..][1..];
    Assoc([SLASH, STAR], b, [STAR, SLASH], rest);
  }

  // Lexemes.

  /** The punctuation a byte stands for. */
  function PunctOf(ch: Byte): Symbol {
    if ch == LCURB then LBrace else if ch == RCURB then RBrace
    else if ch == LSQRB then LBracket else if ch == RSQRB then RBracket
    else if ch == COMMA then CommaSym else ColonSym
  }

  predicate IsPunctByte(ch: Byte) {
    ch == LCURB || ch == RCURB || ch == LSQRB || ch == RSQRB || ch == COMMA || ch == COLON
  }

  lemma OpenRead(cfg: Config, m: Machine, mode: Mode)
    requires Settled(m) && Safe(m) && Step(cfg, m, if mode == ObjectMode then LCURB else LSQRB).err == Success
    ensures Open(PlaceOf(m), mode).Some?
  {
    hide Transition, BufferPolicy, Step;
    ReadMeans(cfg, m, if mode == ObjectMode then LCURB else LSQRB);
    OpeningState(m.state, mode);
  }

  lemma OpeningState(s: State, mode: Mode)
    requires IsStructural(s) || EndsNumber(s)
    requires Transition(s, ClassOf(if mode == ObjectMode then LCURB else LSQRB)) != Reject
    ensures s == GO || ExpectsValue(s)
  {
    hide ClassOf, StructureRow, NumberRow, StringRow, CommentRow, WordRow, ExpectsValue;
    OpeningClasses();
    OpeningRows(s, if mode == ObjectMode then LCurb else LSqrb);
  }

  lemma OpeningClasses()
    ensures ClassOf(LCURB) == LCurb && ClassOf(LSQRB) == LSqrb
  {}

  lemma OpeningRows(s: State, c: Class)
    requires c == LCurb || c == LSqrb
    ensures EndsNumber(s) ==> NumberRow(s, c) == Reject
    ensures IsStructural(s) && StructureRow(s, c) != Reject ==> s == GO || ExpectsValue(s)
  {}

  lemma CloseRead(cfg: Config, m: Machine, mode: Mode)
    requires Settled(m) && Safe(m) && Step(cfg, m, if mode == ObjectMode then RCURB else RSQRB).err == Success
    ensures Close(PlaceOf(m), mode, if mode == ObjectMode then OB else AR).Some?
  {
    hide Transition, BufferPolicy, Step, CharClass, Safe, DoBuffer, ActEnd, HexTail;
    var ch := if mode == ObjectMode then RCURB else RSQRB;
    ClosingClass(mode);
    ReadMeans(cfg, m, ch);
    assert IsStructural(m.state) || EndsNumber(m.state);
    ClosingState(m.state, mode);
    ClosingCell(m.state, mode);
    StepIgnoring(cfg, m, ch);
    hide EndsNumber, IsStructural;
    ClosedStack(m, mode);
  }

  /** A structure is only ended where one of its kind is the innermost. */
  lemma ClosedStack(m: Machine, mode: Mode)
    requires Finish(ActEnd(DoBuffer(m), mode), OK, NoKind).err == Success
    ensures m.stack != [] && m.stack[|m.stack| - 1] == mode
  {}

  lemma ClosingState(s: State, mode: Mode)
    requires IsStructural(s) || EndsNumber(s)
    requires Transition(s, ClassOf(if mode == ObjectMode then RCURB else RSQRB)) != Reject
    ensures EndsNumber(s) || s == OK || s == (if mode == ObjectMode then OB else AR)
  {
    hide CharClass, StructureRow, NumberRow, StringRow, CommentRow, WordRow;
    ClosingClass(mode);
    if IsStructural(s) { OnlyClosing(s, mode); }
  }

  lemma OnlyClosing(s: State, mode: Mode)
    requires IsStructural(s) && StructureRow(s, if mode == ObjectMode then RCurb else RSqrb) != Reject
    ensures s == OK || s == (if mode == ObjectMode then OB else AR)
  {}

  lemma CommaRead(cfg: Config, m: Machine)
    requires Settled(m) && Safe(m) && Step(cfg, m, COMMA).err == Success
    ensures Read(PlaceOf(m), CommaSym).Some?
  {
    ReadMeans(cfg, m, COMMA);
    CommaCell(m.state);
    hide Transition, BufferPolicy;
    StepIgnoring(cfg, m, COMMA);
    hide Step;
  }

  lemma CommaCell(s: State)
    requires (IsStructural(s) || EndsNumber(s)) && Transition(s, ClassOf(COMMA)) != Reject
    ensures s == OK || EndsNumber(s)
    ensures BufferPolicy(s, CharClass(COMMA)) == Ignore && Transition(s, CharClass(COMMA)) == Do(CommaSeparator)
  {
    hide Transition, BufferPolicy, CharClass;
    CommaClass();
    OnlyCommaStates(s);
    CommaGoes(s);
  }

  lemma CommaClass()
    ensures CharClass(COMMA) == Comma
  {}

  lemma OnlyCommaStates(s: State)
    requires (IsStructural(s) || EndsNumber(s)) && Transition(s, Comma) != Reject
    ensures s == OK || EndsNumber(s)
  {
    hide NumberRow, StringRow, CommentRow, WordRow;
  }

  lemma ColonRead(cfg: Config, m: Machine)
    requires Settled(m) && Safe(m) && Step(cfg, m, COLON).err == Success
    ensures Read(PlaceOf(m), ColonSym).Some?
  {
    hide Transition, BufferPolicy, Step;
    ReadMeans(cfg, m, COLON);
    ColonState(m.state);
  }

  lemma ColonState(s: State)
    requires (IsStructural(s) || EndsNumber(s)) && Transition(s, ClassOf(COLON)) != Reject
    ensures s == CO
  {
    hide CharClass, StructureRow, NumberRow, StringRow, CommentRow, WordRow;
    ColonClass();
    OnlyColon(s);
  }

  lemma ColonClass()
    ensures CharClass(COLON) == Colon
  {}

  lemma OnlyColon(s: State)
    ensures EndsNumber(s) ==> NumberRow(s, Colon) == Reject
    ensures IsStructural(s) && StructureRow(s, Colon) != Reject ==> s == CO
  {}

  lemma PunctRead(cfg: Config, m: Machine, ch: Byte)
    requires Settled(m) && Safe(m) && IsPunctByte(ch) && Step(cfg, m, ch).err == Success
    ensures IsPunct(PunctOf(ch)) && PunctByte(PunctOf(ch)) == ch && Read(PlaceOf(m), PunctOf(ch)).Some?
  {
    hide Step, Settled, Safe, PlaceOf, Open, Close;
    if ch == LCURB { OpenRead(cfg, m, ObjectMode); }
    else if ch == LSQRB { OpenRead(cfg, m, ArrayMode); }
    else if ch == RCURB { CloseRead(cfg, m, ObjectMode); }
    else if ch == RSQRB { CloseRead(cfg, m, ArrayMode); }
    else if ch == COMMA { CommaRead(cfg, m); }
    else { ColonRead(cfg, m); }
  }

  predicate StartsScalar(ch: Byte) {
    ch == MINUS || IsDigitByte(ch) || ch == 116 || ch == 102 || ch == 110
  }

  /** After a number that is over, and elsewhere, a lexeme starts with a byte that tells which. */
  lemma LexemeStart(cfg: Config, m: Machine, ch: Byte)
    requires Settled(m) && Safe(m) && Step(cfg, m, ch).err == Success
    requires EndsNumber(m.state) ==> IsDelimiter(ch)
    requires !IsBlank(ch) && ch != SLASH && ch != HASH && !IsPunctByte(ch)
    ensures if ch == QUOTE then m.state == OB || m.state == KY || ExpectsValue(m.state)
            else StartsScalar(ch) && ExpectsValue(m.state)
  {
    ReadMeans(cfg, m, ch);
    hide Step;
    if IsStructural(m.state) {
      StructureStart(m.state, ch);
    }
  }

  lemma StructureStart(s: State, ch: Byte)
    requires IsStructural(s) && ClassOf(ch) != ErrorClass && StructureRow(s, ClassOf(ch)) != Reject
    requires !IsBlank(ch) && ch != SLASH && ch != HASH && !IsPunctByte(ch)
    ensures if ch == QUOTE then s == OB || s == KY || ExpectsValue(s) else StartsScalar(ch) && ExpectsValue(s)
  {
    var c := ClassOf(ch);
    assert !IsWhite(c) && c != Slash && c != Hash && c != LCurb && c != RCurb && c != LSqrb && c != RSqrb && c != Comma && c != Colon;
    assert c == Quote ==> ch == QUOTE;
    assert c == Minus || c == Zero || c == Digit || c == LowF || c == LowN || c == LowT ==> StartsScalar(ch);
    hide CharClass, ClassOf;
  }

  lemma FindLexeme(cfg: Config, m: Machine, s: Bytes) returns (l: Lexeme, rest: Bytes)
    requires cfg.Unlimited() && Settled(m) && Finishing(cfg, m, s) && Delimited(m, s)
    requires s != [] && !IsBlank(s[0]) && s[0] != SLASH && s[0] != HASH
    ensures IsLexeme(l) && s == LexemeText(l) + rest && Read(PlaceOf(m), LexemeSymbol(l)).Some?
    ensures l.Numeral? && rest != [] ==> IsDelimiter(rest[0])
  {
    hide Step, Finishing, Settled;
    SettledIsSafe(m);
    var m1 := FirstStep(cfg, m, s);
    SettledFields(m);
    if IsPunctByte(s[0]) {
      PunctRead(cfg, m, s[0]);
      l, rest := Punct(PunctOf(s[0])), s[1..];
    } else {
      LexemeStart(cfg, m, s[0]);
      if s[0] == QUOTE { l, rest := FindQuoted(cfg, m, s); } else { l, rest := FindScalar(cfg, m, s); }
    }
  }

  lemma FindQuoted(cfg: Config, m: Machine, s: Bytes) returns (l: Lexeme, rest: Bytes)
    requires cfg.Unlimited() && Settled(m) && Finishing(cfg, m, s) && s != [] && s[0] == QUOTE
    requires m.state == OB || m.state == KY || ExpectsValue(m.state)
    ensures l.Quoted? && IsLexeme(l) && s == LexemeText(l) + rest && Read(PlaceOf(m), LexemeSymbol(l)).Some?
  {
    hide Step, Finishing, StringText, StringData, IsStrPiece;
    SettledFields(m);
    var m1 := FirstStep(cfg, m, s);
    ReadOpeningQuote(cfg, m);
    hide Settled, PlaceOf;
    var ps;
    ps, rest := FindString(cfg, m1, s[1..]);
    l := Quoted(ps);
    assert s == [QUOTE] + StringText(ps) + [QUOTE] + rest;
  }

  lemma FindScalar(cfg: Config, m: Machine, s: Bytes) returns (l: Lexeme, rest: Bytes)
    requires cfg.Unlimited() && Settled(m) && Finishing(cfg, m, s) && s != [] && StartsScalar(s[0]) && ExpectsValue(m.state)
    ensures IsLexeme(l) && s == LexemeText(l) + rest && Read(PlaceOf(m), LexemeSymbol(l)).Some?
    ensures l.Numeral? && rest != [] ==> IsDelimiter(rest[0])
  {
    hide Step, Finishing, NumberText, IsNumber, IsDelimiter;
    SettledIsSafe(m);
    SettledFields(m);
    hide Settled, PlaceOf, Safe;
    if s[0] == MINUS || IsDigitByte(s[0]) {
      var n;
      n, rest := FindNumber(cfg, m, s);
      l := Numeral(n);
    } else {
      var k := FindWord(cfg, m, s);
      l, rest := Word(k), s[|WordText(k)|..];
    }
  }

  lemma SettledFields(m: Machine)
    requires Settled(m)
    ensures m.left == 0 && m.multi == 0
    ensures ExpectsValue(m.state) ==> PlaceOf(m).at == m.state
    ensures m.state == OB || m.state == KY ==> PlaceOf(m).at == m.state
  {}

  // Documents.

  /** A filler more before the rest of a document. */
  function Before(f: Filler, d: Document): Document {
    if d.pieces == [] then d.(trail := [f] + d.trail)
    else d.(pieces := [Piece([f] + d.pieces[0].pre, d.pieces[0].lexeme)] + d.pieces[1..])
  }

  /** The rest of a document, after a number with an exponent or not. */
  predicate IsRest(cfg: Config, afterExponent: bool, d: Document) {
    && ArePieces(cfg, d.pieces) && AreLexemes(d.pieces) && AreFillers(cfg, d.trail)
    && Separated(afterExponent, d.pieces)
  }

  lemma BeforeRest(cfg: Config, e: bool, f: Filler, d: Document)
    requires IsFiller(cfg, f) && IsRest(cfg, false, d) && (e ==> f.Blank?)
    ensures IsRest(cfg, e, Before(f, d)) && Text(Before(f, d)) == FillerText(f) + Text(d)
    ensures AreLexemes(Before(f, d).pieces) && PiecesSymbols(Before(f, d).pieces) == PiecesSymbols(d.pieces)
  {
    hide FillerText, IsFiller, LexemeText, IsLexeme;
    var b := Before(f, d);
    if d.pieces == [] {
      assert b.trail[1..] == d.trail;
    } else {
      assert b.pieces[0].pre[1..] == d.pieces[0].pre && b.pieces[1..] == d.pieces[1..];
      assert FillersText(b.pieces[0].pre) == FillerText(f) + FillersText(d.pieces[0].pre);
    }
  }

  lemma NextPiece(cfg: Config, l: Lexeme, d: Document) returns (b: Document)
    requires IsLexeme(l) && IsRest(cfg, HasExponent(l), d)
    ensures IsRest(cfg, false, b) && IsRest(cfg, true, b) && Text(b) == LexemeText(l) + Text(d)
    ensures AreLexemes(b.pieces) && PiecesSymbols(b.pieces) == [LexemeSymbol(l)] + PiecesSymbols(d.pieces)
  {
    hide LexemeText, IsLexeme, LexemeSymbol, IsFiller;
    b := d.(pieces := [Piece([], l)] + d.pieces);
    assert b.pieces[1..] == d.pieces;
  }

  lemma {:induction false} FindRest(cfg: Config, m: Machine, s: Bytes) returns (d: Document)
    requires cfg.Unlimited() && Settled(m) && Finishing(cfg, m, s) && Delimited(m, s)
    ensures IsRest(cfg, m.state == X3, d) && Text(d) == s
    ensures AreLexemes(d.pieces) && Finishes(PlaceOf(m), PiecesSymbols(d.pieces))
    decreases |s|
  {
    hide Step, Finishing, Steps, Settled, PlaceOf, FillerText, LexemeText, LexemeSymbol, IsFiller, IsLexeme, IsRest, Text, Before;
    if s == [] {
      d := Document([], []);
      EndOfText(cfg, m);
    } else if IsBlank(s[0]) || s[0] == SLASH || s[0] == HASH {
      var f, rest := FindFiller(cfg, m, s);
      var m' := ReadFiller(cfg, m, f);
      After(cfg, m, FillerText(f), m', rest);
      FillerNotEmpty(f);
      FillerEndsNumber(m, m');
      var d' := FindRest(cfg, m', rest);
      d := Before(f, d');
      BeforeRest(cfg, m.state == X3, f, d');
    } else {
      var l, rest := FindLexeme(cfg, m, s);
      var m' := ReadLexeme(cfg, m, l);
      After(cfg, m, LexemeText(l), m', rest);
      LexemeNotEmpty(l);
      var d' := FindRest(cfg, m', rest);
      d := NextPiece(cfg, l, d');
      ReadCons(PlaceOf(m), LexemeSymbol(l), PiecesSymbols(d'.pieces));
    }
  }

  lemma EndOfText(cfg: Config, m: Machine)
    requires Settled(m) && Finishing(cfg, m, [])
    ensures IsEnd(PlaceOf(m)) && IsRest(cfg, m.state == X3, Document([], [])) && Text(Document([], [])) == []
  {
    hide Step;
  }

  lemma FindFiller(cfg: Config, m: Machine, s: Bytes) returns (f: Filler, rest: Bytes)
    requires Settled(m) && Finishing(cfg, m, s) && s != [] && (IsBlank(s[0]) || s[0] == SLASH || s[0] == HASH)
    ensures IsFiller(cfg, f) && s == FillerText(f) + rest && (m.state == X3 ==> f.Blank?)
  {
    hide Step, Finishing;
    if IsBlank(s[0]) {
      f, rest := Blank(s[0]), s[1..];
    } else {
      f, rest := FindComment(cfg, m, s);
    }
  }

  lemma FillerNotEmpty(f: Filler)
    ensures FillerText(f) != []
  {}

  lemma LexemeNotEmpty(l: Lexeme)
    requires IsLexeme(l)
    ensures LexemeText(l) != []
  {}

  lemma FillerEndsNumber(m: Machine, m': Machine)
    requires Settled(m) && m'.state == PlaceOf(m).at
    ensures !EndsNumber(m'.state) && m'.state != X3
  {}

  // The main theorems.

  /**
    The parser accepts exactly the documents of the grammar: white space and the allowed comments
    around the lexemes of one array or object.
   */
  lemma AcceptsDocuments(cfg: Config, s: Bytes)
    requires cfg.Unlimited()
    ensures Accepts(cfg, s) <==> exists d: Document, v: Json :: Spells(cfg, d, v) && Text(d) == s
  {
    if Accepts(cfg, s) {
      var d, v := FindDocument(cfg, s);
    }
    forall d: Document, v: Json | Spells(cfg, d, v) && Text(d) == s
      ensures Accepts(cfg, s)
    {
      DocumentsAreAccepted(cfg, d, v);
    }
  }

  /** The grammar depends on the configuration only in the comments it allows. */
  lemma SameGrammar(cfg: Config, cfg': Config, d: Document, v: Json)
    requires Spells(cfg, d, v) && cfg'.allowC == cfg.allowC && cfg'.allowYaml == cfg.allowYaml
    ensures Spells(cfg', d, v)
  {
    hide IsLexeme, AreLexemes, PiecesSymbols, Separated, IsJson, Symbols;
    SameFillers(cfg, cfg', d.trail);
    forall i | 0 <= i < |d.pieces| ensures IsPiece(cfg', d.pieces[i]) {
      assert IsPiece(cfg, d.pieces[i]);
      SameFillers(cfg, cfg', d.pieces[i].pre);
    }
  }

  lemma SameFillers(cfg: Config, cfg': Config, fs: seq<Filler>)
    requires AreFillers(cfg, fs) && cfg'.allowC == cfg.allowC && cfg'.allowYaml == cfg.allowYaml
    ensures AreFillers(cfg', fs)
  {
    forall i | 0 <= i < |fs| ensures IsFiller(cfg', fs[i]) {
      assert IsFiller(cfg, fs[i]);
    }
  }

  /** An accepted text with its parse, and the events as those of the tree, whatever the limits. */
  lemma FindDocument(cfg: Config, s: Bytes) returns (d: Document, v: Json)
    requires Accepts(cfg, s)
    ensures Spells(cfg, d, v) && Text(d) == s
    ensures Run(cfg, START, s).m.events == Linearise(v)
    ensures Settled(Run(cfg, START, s).m)
  {
    hide Run;
    var free := cfg.WithoutLimits();
    RunWithoutLimits(cfg, START, s);
    d, v := FindDocumentFreely(free, s);
    SameGrammar(free, cfg, d, v);
  }

  lemma FindDocumentFreely(cfg: Config, s: Bytes) returns (d: Document, v: Json)
    requires cfg.Unlimited() && Accepts(cfg, s)
    ensures Spells(cfg, d, v) && Text(d) == s
    ensures Run(cfg, START, s).m.events == Linearise(v)
    ensures Settled(Run(cfg, START, s).m)
  {
    d := FindRest(cfg, START, s);
    assert PlaceOf(START) == FIRST;
    SymbolsOfDocuments(PiecesSymbols(d.pieces));
    v :| IsJson(v) && !v.Leaf? && Symbols(v) == PiecesSymbols(d.pieces);
    DocumentsAreAccepted(cfg, d, v);
  }
}
