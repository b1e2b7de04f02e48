/**
  The format of a configuration file, said by its characters alone: how a text divides into lines, how a line
  divides into fields, where a comment begins. What `_cfg_parse` makes of a text is exactly this.
 */
module CfgFormat {
  import opened Options
  import opened CfgEntries
  import opened CfgText

  // Characters.

  const LINE_BREAKS := "\n\r\U{001A}"
  const BLANKS := "\U{000C}\t "
  const SPACES := "\U{000C}\t \n\r\U{000B}"
  const COMMENT_SIGNS := ";#"
  const QUOTES := "\'\""

  lemma Characters(c: char)
    ensures IsEol(c) <==> c in LINE_BREAKS
    ensures IsWhite(c) <==> c in BLANKS
    ensures IsSpace(c) <==> c in SPACES
    ensures IsMagic(c) <==> c in COMMENT_SIGNS
    ensures IsQuote(c) <==> c in QUOTES
  {}

  ghost predicate AllIn(s: string, cs: string) { forall i :: 0 <= i < |s| ==> s[i] in cs }

  ghost predicate NoneIn(s: string, cs: string) { forall i :: 0 <= i < |s| ==> s[i] !in cs }

  // Fields.

  /** `r` is what is left of `s` without leading blanks. */
  ghost predicate LeftTrimmed(s: string, r: string) {
    && |r| <= |s| && s[|s| - |r|..] == r
    && AllIn(s[..|s| - |r|], BLANKS) && (r != [] ==> r[0] !in BLANKS)
  }

  /** `r` is what is left of `s` without trailing characters of `cs`. */
  ghost predicate RightTrimmed(s: string, r: string, cs: string) {
    && |r| <= |s| && s[..|r|] == r
    && AllIn(s[|r|..], cs) && (r != [] ==> r[|r| - 1] !in cs)
  }

  /** `k` is where `c` first stands in `s`. */
  ghost predicate FirstAt(s: string, c: char, k: nat) {
    k < |s| && s[k] == c && c !in s[..k]
  }

  // Quotes and comments.

  /** A character that is no quote, or a stretch between two quotes of a kind with no third one of that kind inside. */
  ghost predicate IsPiece(p: string) {
    if |p| == 1 then p[0] !in QUOTES
    else |p| >= 2 && p[0] in QUOTES && p[|p| - 1] == p[0] && p[0] !in p[1..|p| - 1]
  }

  function Joined(ps: seq<string>): string {
    if ps == [] then [] else ps[0] + Joined(ps[1..])
  }

  ghost predicate Divides(v: string, ps: seq<string>) {
    Joined(ps) == v && forall i :: 0 <= i < |ps| ==> IsPiece(ps[i])
  }

  /** Every quote that is opened is closed. */
  ghost predicate IsBalanced(v: string) { exists ps :: Divides(v, ps) }

  /** A comment sign, first or after a blank, with no quote open before it. */
  ghost predicate BeginsComment(v: string, k: nat) {
    k < |v| && v[k] in COMMENT_SIGNS && (k == 0 || v[k - 1] in BLANKS) && IsBalanced(v[..k])
  }

  /** `k` is where the first comment of `v` begins, or the length. */
  ghost predicate CommentBegins(v: string, k: nat) {
    && k <= |v| && (k < |v| ==> BeginsComment(v, k))
    && forall j :: 0 <= j < k ==> !BeginsComment(v, j)
  }

  // Lines.

  /** What is left of a line of a section behind its `]`: a comment, or something that is ignored. */
  function Remark(t: string): Option<string> {
    if t != [] && t[0] in COMMENT_SIGNS then Some(t[1..]) else None
  }

  /** `[name]`, with blanks before the name and spaces behind it, and whatever follows. */
  ghost predicate SpellsSection(l: string, e: Entry) {
    exists s, k, name, t :: IsSection(l, s, k, name, t) && e == Entry(Some(name), None, None, Remark(t))
  }

  ghost predicate IsSection(l: string, s: string, k: nat, name: string, t: string) {
    && l != [] && LeftTrimmed(l[1..], s) && FirstAt(s, ']', k)
    && RightTrimmed(s[..k], name, SPACES) && name != [] && LeftTrimmed(s[k + 1..], t)
  }

  /** A value up to its comment, trimmed only if there is one. */
  ghost predicate SpellsValue(v: string, id: Option<string>, e: Entry) {
    exists k :: CommentBegins(v, k) && IsValue(v, k, id, e)
  }

  ghost predicate IsValue(v: string, k: nat, id: Option<string>, e: Entry)
  {
    && e.section == None && e.id == id && e.value.Some? && k <= |v|
    && if k == |v| then e.value.value == v && e.comment == None
       else RightTrimmed(v[..k], e.value.value, SPACES) && e.comment == Some(v[k + 1..])
  }

  /** `id=value`, with blanks around the `=`. */
  ghost predicate SpellsDefinition(l: string, e: Entry) {
    exists k, id, v :: IsDefinition(l, k, id, v) && SpellsValue(v, Some(id), e)
  }

  ghost predicate IsDefinition(l: string, k: nat, id: string, v: string) {
    FirstAt(l, '=', k) && RightTrimmed(l[..k], id, SPACES) && LeftTrimmed(l[k + 1..], v)
  }

  /** What is without its indentation `l` spells `e`. An indented line that is nothing else goes on with a value. */
  ghost predicate SpellsTrimmed(l: string, indented: bool, e: Entry) {
    if l != [] && l[0] == '[' then SpellsSection(l, e)
    else if l != [] && l[0] == ';' then e == Entry(None, None, None, Some(l[1..]))
    else if indented then SpellsValue(l, None, e)
    else SpellsDefinition(l, e)
  }

  ghost predicate Spells(line: string, e: Entry) {
    exists l :: LeftTrimmed(line, l) && SpellsTrimmed(l, l != line, e)
  }

  // Texts.

  /** A line with the line breaks before it. */
  datatype Line = Line(breaks: string, body: string)

  function TextOf(ls: seq<Line>, tail: string): string {
    if ls == [] then tail else ls[0].breaks + ls[0].body + TextOf(ls[1..], tail)
  }

  ghost predicate IsLine(l: Line) {
    AllIn(l.breaks, LINE_BREAKS) && l.body != [] && NoneIn(l.body, LINE_BREAKS)
  }

  /** Lines without line breaks in them, and at least one line break between two of them. */
  ghost predicate AreLines(ls: seq<Line>, tail: string) {
    && (forall i :: 0 <= i < |ls| ==> IsLine(ls[i]) && (i > 0 ==> ls[i].breaks != []))
    && AllIn(tail, LINE_BREAKS)
  }

  /** What a line adds; it is trimmed if it is ended. */
  ghost predicate Gives(body: string, ended: bool, es: seq<Entry>) {
    exists line :: (if ended then RightTrimmed(body, line, BLANKS) else line == body) && Adds(line, es)
  }

  ghost predicate Adds(line: string, es: seq<Entry>) {
    if |es| == 1 then Spells(line, es[0]) else es == [] && forall e :: !Spells(line, e)
  }

  /** The lines give the entries, one after the other. All lines but the last are ended; that one if something follows. */
  ghost predicate AllGive(ls: seq<Line>, tail: string, es: seq<Entry>) {
    if ls == [] then es == []
    else exists n: nat :: n <= |es| && Gives(ls[0].body, |ls| > 1 || tail != [], es[..n]) && AllGive(ls[1..], tail, es[n..])
  }

  ghost predicate TextSpells(text: string, es: seq<Entry>) {
    exists ls, tail :: TextOf(ls, tail) == text && AreLines(ls, tail) && AllGive(ls, tail, es)
  }

  // Fields are what the parser's loops make of them.

  lemma {:induction false} SkipWhiteIs(s: string, r: string)
    ensures LeftTrimmed(s, r) <==> r == SkipWhite(s)
    decreases |s|
  {
    if s != [] {
      Characters(s[0]);
      if IsWhite(s[0]) {
        SkipWhiteIs(s[1..], r);
        LeftTrimmedCons(s, r);
      }
    }
  }

  lemma LeftTrimmedCons(s: string, r: string)
    requires s != [] && s[0] in BLANKS
    ensures LeftTrimmed(s, r) <==> LeftTrimmed(s[1..], r)
  {
    if |r| < |s| {
      assert s[|s| - |r|..] == s[1..][|s| - 1 - |r|..];
      assert s[..|s| - |r|] == [s[0]] + s[1..][..|s| - 1 - |r|];
    } else if |r| == |s| {
      assert s[0..] == s;
    }
  }

  lemma {:induction false} RTrimIs(s: string, r: string)
    ensures RightTrimmed(s, r, SPACES) <==> r == RTrim(s)
    decreases |s|
  {
    if s != [] {
      Characters(s[|s| - 1]);
      if IsSpace(s[|s| - 1]) {
        RTrimIs(s[..|s| - 1], r);
        RightTrimmedSnoc(s, r, SPACES);
      }
    }
  }

  lemma {:induction false} TrimWhiteIs(s: string, r: string)
    ensures RightTrimmed(s, r, BLANKS) <==> r == TrimWhite(s)
    decreases |s|
  {
    if s != [] {
      Characters(s[|s| - 1]);
      if IsWhite(s[|s| - 1]) {
        TrimWhiteIs(s[..|s| - 1], r);
        RightTrimmedSnoc(s, r, BLANKS);
      }
    }
  }

  lemma RightTrimmedSnoc(s: string, r: string, cs: string)
    requires s != [] && s[|s| - 1] in cs
    ensures RightTrimmed(s, r, cs) <==> RightTrimmed(s[..|s| - 1], r, cs)
  {
    var n := |s| - 1;
    if |r| <= n {
      assert s[..|r|] == s[..n][..|r|];
      assert s[|r|..] == s[..n][|r|..] + [s[n]];
    } else if |r| == |s| {
      assert s[..|s|] == s;
    }
  }

  lemma {:induction false} IndexOfIs(s: string, c: char, k: nat)
    ensures FirstAt(s, c, k) <==> k == IndexOf(s, c) < |s|
  {
    IndexOfFacts(s, c);
    var n := IndexOf(s, c);
    if k < n && k < |s| { assert s[k] == s[..n][k]; }
    if n < k && k <= |s| { assert s[n] == s[..k][n]; }
  }

  // Quotes.

  lemma {:induction false} OpenUntil(body: string, q: char)
    requires q !in body
    ensures Open(body, Some(q)) == Some(q)
    decreases |body|
  {
    if body != [] {
      assert body[0] in body;
      OpenUntil(body[1..], q);
    }
  }

  lemma PieceCloses(p: string)
    requires IsPiece(p)
    ensures Open(p, None) == None
  {
    Characters(p[0]);
    if |p| > 1 {
      var q, body := p[0], p[1..|p| - 1];
      assert p == [q] + (body + [q]);
      assert p[1..] == body + [q];
      OpenUntil(body, q);
      OpenAppend(body, [q], Some(q));
      assert Open([q], Some(q)) == Open([], None);
    } else {
      assert Open(p, None) == Open(p[1..], None);
    }
  }

  lemma {:induction false} PiecesClose(ps: seq<string>)
    requires forall i :: 0 <= i < |ps| ==> IsPiece(ps[i])
    ensures Open(Joined(ps), None) == None
  {
    if ps != [] {
      PieceCloses(ps[0]);
      PiecesClose(ps[1..]);
      OpenAppend(ps[0], Joined(ps[1..]), None);
    }
  }

  /** Up to where the quote is closed for the first time. */
  lemma QuotedPiece(v: string)
    requires v != [] && v[0] in QUOTES && Open(v, None) == None
    ensures var k := IndexOf(v[1..], v[0]);
      k + 2 <= |v| && IsPiece(v[..k + 2]) && Open(v[k + 2..], None) == None
  {
    Characters(v[0]);
    var q := v[0];
    var k := IndexOf(v[1..], q);
    IndexOfFacts(v[1..], q);
    if k == |v| - 1 {
      assert v[1..][..k] == v[1..];
      OpenUntil(v[1..], q);
    } else {
      var p := v[..k + 2];
      assert p[1..|p| - 1] == v[1..][..k];
      PieceCloses(p);
      assert v == p + v[k + 2..];
      OpenAppend(p, v[k + 2..], None);
    }
  }

  lemma {:induction false} ClosedDivides(v: string) returns (ps: seq<string>)
    requires Open(v, None) == None
    ensures Divides(v, ps)
    decreases |v|
  {
    ps := [];
    if v != [] {
      Characters(v[0]);
      var n := if v[0] in QUOTES then IndexOf(v[1..], v[0]) + 2 else 1;
      if v[0] in QUOTES { QuotedPiece(v); }
      var rest := ClosedDivides(v[n..]);
      ps := [v[..n]] + rest;
      assert v == v[..n] + v[n..];
    }
  }

  lemma BalancedIsClosed(v: string)
    ensures IsBalanced(v) <==> Open(v, None) == None
  {
    if IsBalanced(v) {
      var ps :| Divides(v, ps);
      PiecesClose(ps);
    }
    if Open(v, None) == None {
      var ps := ClosedDivides(v);
    }
  }

  /** What the scan of a value looks for at `k`. */
  ghost predicate IsSign(v: string, open: Option<char>, afterWhite: bool, k: nat) {
    k < |v| && IsMagic(v[k]) && (if k == 0 then afterWhite else IsWhite(v[k - 1])) && Open(v[..k], open) == None
  }

  lemma {:induction false} CommentAtIsFirst(v: string, open: Option<char>, afterWhite: bool, j: nat)
    ensures var k := CommentAt(v, open, afterWhite);
      (j < k ==> !IsSign(v, open, afterWhite, j)) && (j == k < |v| ==> IsSign(v, open, afterWhite, j))
    decreases |v|
  {
    if v != [] && CommentAt(v, open, afterWhite) > 0 && 0 < j <= |v| {
      CommentAtIsFirst(v[1..], Quoting(open, v[0]), IsWhite(v[0]), j - 1);
      assert v[..j][1..] == v[1..][..j - 1];
    }
  }

  lemma SignBeginsComment(v: string, k: nat)
    ensures IsSign(v, None, true, k) <==> BeginsComment(v, k)
  {
    if k < |v| {
      Characters(v[k]);
      if k > 0 { Characters(v[k - 1]); }
      BalancedIsClosed(v[..k]);
    }
  }

  /** The scan finds a comment exactly where the first one begins. */
  lemma CommentAtIs(v: string, k: nat)
    ensures CommentBegins(v, k) <==> k == CommentAt(v, None, true)
  {
    hide BeginsComment, IsSign;
    var n := CommentAt(v, None, true);
    forall j: nat | j <= n
      ensures (j < n ==> !BeginsComment(v, j)) && (j == n < |v| ==> BeginsComment(v, j))
    {
      CommentAtIsFirst(v, None, true, j);
      SignBeginsComment(v, j);
    }
    if k < n { assert !BeginsComment(v, k); }
    if n < k <= |v| { assert BeginsComment(v, n); }
  }

  // Lines.

  lemma SectionParts(l: string, s: string, k: nat, name: string, t: string)
    ensures IsSection(l, s, k, name, t) <==>
      && l != [] && s == SkipWhite(l[1..]) && k == IndexOf(s, ']') < |s|
      && name == RTrim(s[..k]) != [] && t == SkipWhite(s[k + 1..])
  {
    hide LeftTrimmed, RightTrimmed, SkipWhite, RTrim, IndexOf;
    if l != [] { SkipWhiteIs(l[1..], s); }
    IndexOfIs(s, ']', k);
    if k < |s| {
      RTrimIs(s[..k], name);
      SkipWhiteIs(s[k + 1..], t);
    }
  }

  lemma SectionIs(l: string, e: Entry)
    requires l != []
    ensures SpellsSection(l, e) <==> ParseSection(SkipWhite(l[1..])) == Some(e)
  {
    hide IsSection, SkipWhite, RTrim, IndexOf, Remark, CommentOf;
    var s := SkipWhite(l[1..]);
    var k := IndexOf(s, ']');
    if k < |s| {
      SectionParts(l, s, k, RTrim(s[..k]), SkipWhite(s[k + 1..]));
      RemarkIs(SkipWhite(s[k + 1..]));
    }
    if SpellsSection(l, e) {
      var s', k', name, t :| IsSection(l, s', k', name, t) && e == Entry(Some(name), None, None, Remark(t));
      SectionParts(l, s', k', name, t);
    }
  }

  lemma RemarkIs(t: string)
    ensures Remark(t) == CommentOf(t)
  {
    if t != [] { Characters(t[0]); }
  }

  lemma ValueIs(v: string, id: Option<string>, e: Entry)
    ensures SpellsValue(v, id, e) <==> e == ParseValue(id, v)
  {
    hide RightTrimmed, CommentBegins, CommentAt, RTrim;
    var k := CommentAt(v, None, true);
    CommentAtIs(v, k);
    if e.value.Some? { RTrimIs(v[..k], e.value.value); }
    RTrimIs(v[..k], RTrim(v[..k]));
    if SpellsValue(v, id, e) {
      var k' :| CommentBegins(v, k') && IsValue(v, k', id, e);
      CommentAtIs(v, k');
    }
    if e == ParseValue(id, v) { assert IsValue(v, k, id, e); }
  }

  lemma DefinitionParts(l: string, k: nat, id: string, v: string)
    ensures IsDefinition(l, k, id, v) <==> k == IndexOf(l, '=') < |l| && id == RTrim(l[..k]) && v == SkipWhite(l[k + 1..])
  {
    hide LeftTrimmed, RightTrimmed, SkipWhite, RTrim, IndexOf;
    IndexOfIs(l, '=', k);
    if k < |l| {
      RTrimIs(l[..k], id);
      SkipWhiteIs(l[k + 1..], v);
    }
  }

  lemma DefinitionIs(l: string, e: Entry)
    ensures var k := IndexOf(l, '=');
      SpellsDefinition(l, e) <==> k < |l| && e == ParseValue(Some(RTrim(l[..k])), SkipWhite(l[k + 1..]))
  {
    hide IsDefinition, SkipWhite, RTrim, IndexOf, SpellsValue, ParseValue;
    var k := IndexOf(l, '=');
    if k < |l| {
      DefinitionParts(l, k, RTrim(l[..k]), SkipWhite(l[k + 1..]));
      ValueIs(SkipWhite(l[k + 1..]), Some(RTrim(l[..k])), e);
    }
    if SpellsDefinition(l, e) {
      var k', id, v :| IsDefinition(l, k', id, v) && SpellsValue(v, Some(id), e);
      DefinitionParts(l, k', id, v);
    }
  }

  lemma IndentedIs(line: string)
    requires line != []
    ensures SkipWhite(line) != line <==> IsWhite(line[0])
  {
    SkipWhiteFacts(line);
  }

  lemma SpelledTrimmed(line: string, e: Entry)
    ensures var l := SkipWhite(line); Spells(line, e) <==> SpellsTrimmed(l, l != line, e)
  {
    hide LeftTrimmed, SpellsTrimmed, SkipWhite;
    SkipWhiteIs(line, SkipWhite(line));
    if Spells(line, e) {
      var l :| LeftTrimmed(line, l) && SpellsTrimmed(l, l != line, e);
      SkipWhiteIs(line, l);
    }
  }

  /** A line gives exactly the entry it spells, and nothing if it spells none. */
  lemma ParseLineIs(line: string, e: Entry)
    requires line != []
    ensures Spells(line, e) <==> ParseLine(line) == Some(e)
  {
    hide Spells, SkipWhite, SpellsSection, SpellsValue, SpellsDefinition, ParseSection, ParseValue, IndexOf, IsWhite, RTrim;
    var l := SkipWhite(line);
    SpelledTrimmed(line, e);
    IndentedIs(line);
    if l != [] && l[0] == '[' {
      SectionIs(l, e);
    } else if l != [] && l[0] == ';' {
    } else if l != line {
      ValueIs(l, None, e);
    } else {
      DefinitionIs(l, e);
    }
  }

  lemma NothingSpells(e: Entry)
    ensures !Spells([], e)
  {
    DefinitionIs([], e);
    forall l | LeftTrimmed([], l) ensures l == [] {}
  }

  /** What is read from one line, trimmed or not. */
  function ReadLine(body: string, ended: bool): seq<Entry> {
    var line := if ended then TrimWhite(body) else body;
    if line == [] then [] else Listed(ParseLine(line))
  }

  lemma GivesIs(body: string, ended: bool, es: seq<Entry>)
    ensures Gives(body, ended, es) <==> es == ReadLine(body, ended)
  {
    hide RightTrimmed, TrimWhite, Adds, ParseLine;
    var line := if ended then TrimWhite(body) else body;
    TrimWhiteIs(body, TrimWhite(body));
    AddsIs(line, es);
    if Gives(body, ended, es) {
      var line' :| (if ended then RightTrimmed(body, line', BLANKS) else line' == body) && Adds(line', es);
      TrimWhiteIs(body, line');
    }
  }

  lemma AddsIs(line: string, es: seq<Entry>)
    ensures Adds(line, es) <==> es == if line == [] then [] else Listed(ParseLine(line))
  {
    hide Spells, ParseLine;
    forall e ensures Spells(line, e) <==> line != [] && ParseLine(line) == Some(e) {
      if line == [] { NothingSpells(e); } else { ParseLineIs(line, e); }
    }
    if line != [] && ParseLine(line).Some? { assert Spells(line, ParseLine(line).value); }
  }

  // Texts.

  lemma {:induction false} OnlyBreaks(text: string)
    requires AllIn(text, LINE_BREAKS)
    ensures SkipEol(text) == []
  {
    if text != [] {
      Characters(text[0]);
      OnlyBreaks(text[1..]);
    }
  }

  lemma {:induction false} BreaksAreSkipped(breaks: string, rest: string)
    requires AllIn(breaks, LINE_BREAKS) && (rest != [] ==> rest[0] !in LINE_BREAKS)
    ensures SkipEol(breaks + rest) == rest
  {
    if breaks == [] {
      assert breaks + rest == rest;
      if rest != [] { Characters(rest[0]); }
    } else {
      Characters(breaks[0]);
      assert (breaks + rest)[1..] == breaks[1..] + rest;
      BreaksAreSkipped(breaks[1..], rest);
    }
  }

  lemma NoBreaks(s: string)
    ensures NoneIn(s, LINE_BREAKS) <==> NoEol(s)
  {
    forall i | 0 <= i < |s| ensures IsEol(s[i]) <==> s[i] in LINE_BREAKS { Characters(s[i]); }
  }

  /** After a line break it does not matter whether the one that ended the line is still there. */
  lemma BreakIsSkipped(text: string)
    requires text != [] && text[0] in LINE_BREAKS
    ensures ParseText(text) == ParseText(text[1..])
  {
    Characters(text[0]);
    assert SkipEol(text) == SkipEol(text[1..]);
    if text[1..] == [] {
      assert NextLine(text) == ([], []);
      assert ParseText([]) == [];
    } else {
      assert NextLine(text) == NextLine(text[1..]);
    }
  }

  lemma NextLineIs(l: Line, rest: string)
    requires IsLine(l) && (rest != [] ==> rest[0] in LINE_BREAKS)
    ensures NextLine(l.breaks + l.body + rest) == if rest == [] then (l.body, []) else (TrimWhite(l.body), rest[1..])
  {
    hide TrimWhite, SkipEol, UpToEol;
    var t := l.body + rest;
    assert l.breaks + l.body + rest == l.breaks + t;
    assert SkipEol(l.breaks + t) == t by { BreaksAreSkipped(l.breaks, t); }
    assert NoEol(l.body) by { NoBreaks(l.body); }
    hide NoneIn, AllIn, NoEol;
    if rest == [] {
      assert t == l.body;
      WholeLine(t);
    } else {
      Characters(rest[0]);
      UpToEolAppend(l.body, rest);
      assert t[|l.body| + 1..] == rest[1..];
    }
  }

  lemma WholeLine(t: string)
    requires NoEol(t)
    ensures UpToEol(t) == t
  {
    UpToEolFacts(t);
  }

  lemma LineIs(l: Line, rest: string)
    requires IsLine(l) && (rest != [] ==> rest[0] in LINE_BREAKS)
    ensures ParseText(l.breaks + l.body + rest) == ReadLine(l.body, rest != []) + ParseText(rest)
  {
    hide NextLine, TrimWhite, NoneIn, AllIn;
    NextLineIs(l, rest);
    assert l.breaks + l.body + rest != [];
    if rest == [] {
      assert ParseText([]) == [];
    } else {
      BreakIsSkipped(rest);
      hide ParseLine;
    }
  }

  lemma TextBegins(ls: seq<Line>, tail: string)
    requires AreLines(ls, tail) && (ls != [] ==> ls[0].breaks != [])
    ensures TextOf(ls, tail) != [] ==> TextOf(ls, tail)[0] in LINE_BREAKS
    ensures TextOf(ls, tail) != [] <==> |ls| > 0 || tail != []
  {}

  lemma LinesBehind(ls: seq<Line>, tail: string)
    requires ls != [] && AreLines(ls, tail)
    ensures AreLines(ls[1..], tail) && (|ls| > 1 ==> ls[1..][0].breaks != [])
  {}

  /** What is read from divided text, line by line. */
  function ReadLines(ls: seq<Line>, tail: string): seq<Entry> {
    if ls == [] then [] else ReadLine(ls[0].body, |ls| > 1 || tail != []) + ReadLines(ls[1..], tail)
  }

  lemma {:induction false} LinesAre(ls: seq<Line>, tail: string)
    requires AreLines(ls, tail)
    ensures ParseText(TextOf(ls, tail)) == ReadLines(ls, tail)
  {
    if ls == [] {
      OnlyBreaks(tail);
      assert ParseText([]) == [];
      if tail != [] { assert NextLine(tail) == ([], []); }
    } else {
      LinesBehind(ls, tail);
      TextBegins(ls[1..], tail);
      LinesAre(ls[1..], tail);
      LineIs(ls[0], TextOf(ls[1..], tail));
    }
  }

  lemma {:induction false} AllGiveIs(ls: seq<Line>, tail: string, es: seq<Entry>)
    ensures AllGive(ls, tail, es) <==> es == ReadLines(ls, tail)
  {
    hide Gives, ReadLine;
    if ls != [] {
      var first := ReadLine(ls[0].body, |ls| > 1 || tail != []);
      if AllGive(ls, tail, es) {
        var n: nat :| n <= |es| && Gives(ls[0].body, |ls| > 1 || tail != [], es[..n]) && AllGive(ls[1..], tail, es[n..]);
        GivesIs(ls[0].body, |ls| > 1 || tail != [], es[..n]);
        AllGiveIs(ls[1..], tail, es[n..]);
        assert es == es[..n] + es[n..];
      }
      if es == ReadLines(ls, tail) {
        assert es[..|first|] == first && es[|first|..] == ReadLines(ls[1..], tail);
        GivesIs(ls[0].body, |ls| > 1 || tail != [], first);
        AllGiveIs(ls[1..], tail, es[|first|..]);
      }
    }
  }

  lemma {:induction false} DivideText(text: string) returns (ls: seq<Line>, tail: string)
    ensures TextOf(ls, tail) == text && AreLines(ls, tail)
    decreases |text|
  {
    hide SkipEol, UpToEol, TextOf, AreLines, IsLine, AllIn, NoneIn;
    var breaks := LeadingBreaks(text);
    var t := SkipEol(text);
    if t == [] {
      ls, tail := [], breaks;
      NoLines(breaks);
      assert breaks + [] == breaks;
    } else {
      var body, c, rest := FirstLine(t, breaks);
      if c == [] {
        ls, tail := [], [];
        NoLines([]);
      } else {
        ls, tail := DivideText(rest);
        ls, tail := BreakBefore(c, ls, tail);
      }
      assert text == breaks + body + TextOf(ls, tail);
      ls := LineBefore(Line(breaks, body), ls, tail);
    }
  }

  lemma NoLines(tail: string)
    requires AllIn(tail, LINE_BREAKS)
    ensures TextOf([], tail) == tail && AreLines([], tail)
  {}

  lemma FirstLine(t: string, breaks: string) returns (body: string, c: string, rest: string)
    requires t != [] && t[0] !in LINE_BREAKS && AllIn(breaks, LINE_BREAKS)
    ensures IsLine(Line(breaks, body)) && t == body + (c + rest) && |rest| < |t|
    ensures if c == [] then rest == [] else |c| == 1 && c[0] in LINE_BREAKS
  {
    body := UpToEol(t);
    UpToEolFacts(t);
    NoBreaks(body);
    Characters(t[0]);
    if |body| == |t| {
      c, rest := [], [];
    } else {
      Characters(t[|body|]);
      c, rest := [t[|body|]], t[|body| + 1..];
    }
  }

  lemma LeadingBreaks(text: string) returns (breaks: string)
    ensures AllIn(breaks, LINE_BREAKS) && text == breaks + SkipEol(text)
    ensures SkipEol(text) != [] ==> SkipEol(text)[0] !in LINE_BREAKS
  {
    breaks := text[..|text| - |SkipEol(text)|];
    SkipEolFacts(text);
    SkippedBreaks(text);
    if SkipEol(text) != [] { Characters(SkipEol(text)[0]); }
  }

  lemma {:induction false} SkippedBreaks(text: string)
    ensures AllIn(text[..|text| - |SkipEol(text)|], LINE_BREAKS)
    decreases |text|
  {
    if text != [] && IsEol(text[0]) {
      Characters(text[0]);
      SkippedBreaks(text[1..]);
      assert text[..|text| - |SkipEol(text)|] == [text[0]] + text[1..][..|text| - 1 - |SkipEol(text[1..])|];
    }
  }

  lemma BreakBefore(c: string, ls: seq<Line>, tail: string) returns (ls': seq<Line>, tail': string)
    requires |c| == 1 && c[0] in LINE_BREAKS && AreLines(ls, tail)
    ensures AreLines(ls', tail') && TextOf(ls', tail') == c + TextOf(ls, tail) && (ls' != [] ==> ls'[0].breaks != [])
  {
    if ls == [] {
      ls', tail' := [], c + tail;
    } else {
      ls', tail' := ls[0 := Line(c + ls[0].breaks, ls[0].body)], tail;
      assert ls'[1..] == ls[1..];
    }
  }

  lemma LineBefore(l: Line, ls: seq<Line>, tail: string) returns (ls': seq<Line>)
    requires AreLines(ls, tail) && (ls != [] ==> ls[0].breaks != []) && IsLine(l)
    ensures AreLines(ls', tail) && TextOf(ls', tail) == l.breaks + l.body + TextOf(ls, tail)
  {
    ls' := [l] + ls;
    assert ls'[1..] == ls;
  }

  /** Every text spells some entries, these are the only ones it spells, and they are what the parser stores. */
  lemma ParseTextIs(text: string, es: seq<Entry>)
    ensures TextSpells(text, es) <==> es == ParseText(text)
  {
    hide AllGive, AreLines, TextOf, ParseText;
    if TextSpells(text, es) {
      var ls, tail :| TextOf(ls, tail) == text && AreLines(ls, tail) && AllGive(ls, tail, es);
      LinesAre(ls, tail);
      AllGiveIs(ls, tail, es);
    }
    if es == ParseText(text) {
      var ls, tail := DivideText(text);
      LinesAre(ls, tail);
      AllGiveIs(ls, tail, es);
    }
  }

  /** A value in quotes is taken as it stands, whatever comment signs and quotes of the other kind it holds. */
  lemma QuotedValueIsWhole(id: string, q: char, body: string)
    requires PlainId(id) && q in QUOTES && q !in body
    ensures ParseLine(id + "=" + [q] + body + [q]) == Some(KeyEntry(id, [q] + body + [q]))
  {
    Characters(q);
    var v := [q] + body + [q];
    QuotedHasNoComment(q, body, false);
    assert id + "=" + [q] + body + [q] == id + "=" + v;
    SplitDefinition(id, v);
    hide ParseLine;
    assert SkipWhite(v) == v;
  }

  lemma {:induction false} NoCommentInQuotes(body: string, q: char, afterWhite: bool)
    requires q !in body
    ensures CommentAt(body, Some(q), afterWhite) == |body|
  {
    if body != [] {
      assert body[0] in body;
      NoCommentInQuotes(body[1..], q, IsWhite(body[0]));
    }
  }

  lemma QuotedHasNoComment(q: char, body: string, afterWhite: bool)
    requires q in QUOTES && q !in body
    ensures CommentAt([q] + body + [q], None, afterWhite) == |body| + 2
  {
    Characters(q);
    var v := [q] + body + [q];
    assert v[1..] == body + [q];
    NoCommentInQuotes(body, q, IsWhite(q));
    CommentAtAppend(body, Some(q), IsWhite(q), [q]);
    OpenUntil(body, q);
    assert forall w: bool :: CommentAt([q], Some(q), w) == 1 + CommentAt([q][1..], None, false);
  }

  // Printing.

  /** Nothing but comments and empty entries from `i` up to a section. */
  ghost predicate LeadsToSection(es: seq<Entry>, i: nat) {
    exists m: nat :: i <= m < |es| && es[m].section.Some? && forall j :: i <= j < m ==> es[j].section.None? && es[j].id.None? && es[j].value.None?
  }

  /** A comment that sticks to the section below: an empty one, or one that begins with a blank or another sign. */
  ghost predicate SticksBelow(es: seq<Entry>, i: nat) {
    && i < |es| && es[i].section.None? && es[i].value.None? && es[i].comment.Some?
    && (es[i].comment.value == "" || es[i].comment.value[0] in BLANKS || es[i].comment.value[0] in COMMENT_SIGNS)
    && LeadsToSection(es, i + 1)
  }

  /** Before `i` there is a section, and no comment yet that sticks to the next one. */
  ghost predicate InSection(es: seq<Entry>, i: nat) {
    exists p: nat :: p < i && p < |es| && es[p].section.Some? && forall j :: p < j < i ==> !SticksBelow(es, j)
  }

  /** Where a blank line is printed: before the first of the comments above a section, or before the section without any. */
  ghost predicate BlankBefore(es: seq<Entry>, i: nat) {
    i < |es| && (es[i].section.Some? || SticksBelow(es, i)) && InSection(es, i)
  }

  /** What the file holds from entry `i` on. */
  ghost function Printed(es: seq<Entry>, i: nat): string
    requires i <= |es|
    decreases |es| - i
  {
    if i == |es| then "" else (if BlankBefore(es, i) then "\n" else "") + LineOf(es[i]) + "\n" + Printed(es, i + 1)
  }

  lemma {:induction false} SectionAheadIs(es: seq<Entry>, i: nat)
    requires i <= |es|
    ensures SectionAhead(es[i..]) <==> LeadsToSection(es, i)
    decreases |es| - i
  {
    if i < |es| {
      SectionAheadIs(es, i + 1);
      assert es[i..][1..] == es[i + 1..];
      LeadsOn(es, i);
    }
  }

  lemma LeadsOn(es: seq<Entry>, i: nat)
    requires i < |es|
    ensures LeadsToSection(es, i) <==> es[i].section.Some? || (es[i].id.None? && es[i].value.None? && LeadsToSection(es, i + 1))
  {
    if LeadsToSection(es, i) && es[i].section.None? {
      var m: nat :| i <= m < |es| && es[m].section.Some? && forall j :: i <= j < m ==> es[j].section.None? && es[j].id.None? && es[j].value.None?;
      assert i + 1 <= m;
    }
  }

  lemma GapIs(es: seq<Entry>, i: nat)
    requires i < |es|
    ensures GapBefore(es[i..], InSection(es, i)) <==> BlankBefore(es, i)
  {
    hide InSection, LeadsToSection, SectionAhead;
    assert es[i..][1..] == es[i + 1..];
    SectionAheadIs(es, i + 1);
    if es[i].comment.Some? && es[i].comment.value != "" { Characters(es[i].comment.value[0]); }
  }

  lemma SkipIs(es: seq<Entry>, i: nat)
    requires i < |es|
    ensures SkipAfter(es[i..], InSection(es, i)) <==> InSection(es, i + 1)
  {
    GapIs(es, i);
    hide GapBefore, SticksBelow;
    if es[i].section.None? {
      if InSection(es, i + 1) {
        var p: nat :| p < i + 1 && p < |es| && es[p].section.Some? && forall j :: p < j < i + 1 ==> !SticksBelow(es, j);
        assert p < i && !SticksBelow(es, i);
      }
    } else {
      assert es[i].section.Some?;
    }
  }

  lemma {:induction false} TextIsPrinted(es: seq<Entry>, i: nat)
    requires i <= |es|
    ensures Text(es[i..], InSection(es, i)) == Printed(es, i)
    decreases |es| - i
  {
    if i < |es| {
      GapIs(es, i);
      SkipIs(es, i);
      TextIsPrinted(es, i + 1);
      hide InSection, GapBefore, SkipAfter, BlankBefore, LineOf;
      assert es[i..][1..] == es[i + 1..];
      TextCons(es[i..], InSection(es, i));
    }
  }

  /** The printed file is its lines, with a blank one where the entries around it ask for one. */
  lemma TextIs(es: seq<Entry>)
    ensures Text(es, false) == Printed(es, 0)
  {
    assert es[0..] == es && !InSection(es, 0);
    TextIsPrinted(es, 0);
  }

  /** The lines: a section, a definition, a continuation, each with or without a comment, or a comment alone. */
  lemma LinesPrinted(s: string, id: string, v: string, c: string)
    ensures LineOf(Entry(Some(s), None, None, None)) == "[" + s + "]"
    ensures LineOf(Entry(Some(s), None, None, Some(c))) == "[" + s + "]" + "\t;" + c
    ensures LineOf(Entry(None, Some(id), Some(v), None)) == id + "=" + v
    ensures LineOf(Entry(None, Some(id), Some(v), Some(c))) == id + "=" + v + "\t;" + c
    ensures LineOf(Entry(None, None, Some(v), None)) == v
    ensures LineOf(Entry(None, None, Some(v), Some(c))) == v + "\t;" + c
    ensures LineOf(Entry(None, None, None, Some(c))) == ";" + c
  {
    assert "[" + s + "]" + "" == "[" + s + "]" && id + "=" + v + "" == id + "=" + v && v + "" == v;
    assert "[" + s + "]" + ("\t;" + c) == "[" + s + "]" + "\t;" + c;
    assert id + "=" + v + ("\t;" + c) == id + "=" + v + "\t;" + c;
    assert v + ("\t;" + c) == v + "\t;" + c;
  }
}
