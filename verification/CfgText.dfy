/** The text of a configuration file: what `_cfg_parse` makes of it and what `_cfg_output` prints. */
module CfgText {
  import opened Options
  import opened CfgEntries

  predicate IsEol(c: char) { c == '\n' || c == '\r' || c == '\U{001A}' }

  /** C's `isspace`. */
  predicate IsSpace(c: char) { IsWhite(c) || c == '\n' || c == '\r' || c == '\U{000B}' }

  // Pieces of lines.

  function SkipEol(s: string): (r: string)
    ensures |r| <= |s|
  {
    if s != [] && IsEol(s[0]) then SkipEol(s[1..]) else s
  }

  function SkipWhite(s: string): (r: string)
    ensures |r| <= |s|
  {
    if s != [] && IsWhite(s[0]) then SkipWhite(s[1..]) else s
  }

  /** What `_cfg_getline` leaves of a line. */
  function TrimWhite(s: string): (r: string)
    ensures |r| <= |s|
  {
    if s != [] && IsWhite(s[|s| - 1]) then TrimWhite(s[..|s| - 1]) else s
  }

  function RTrim(s: string): (r: string)
    ensures |r| <= |s|
  {
    if s != [] && IsSpace(s[|s| - 1]) then RTrim(s[..|s| - 1]) else s
  }

  /** `strchr`, or the length when it finds nothing. */
  function IndexOf(s: string, c: char): (k: nat)
    ensures k <= |s|
  {
    if s == [] || s[0] == c then 0 else 1 + IndexOf(s[1..], c)
  }

  function UpToEol(s: string): (r: string)
    ensures |r| <= |s|
  {
    if s == [] || IsEol(s[0]) then [] else [s[0]] + UpToEol(s[1..])
  }

  predicate NoEol(s: string) { forall i :: 0 <= i < |s| ==> !IsEol(s[i]) }

  // Reading.

  /** `_cfg_getline`: the next line and what follows. The very last line is trimmed only if it is ended. */
  function NextLine(text: string): (r: (string, string))
    ensures text != [] ==> |r.1| < |text|
  {
    var t := SkipEol(text);
    var line := UpToEol(t);
    if |line| == |t| then (line, []) else (TrimWhite(line), t[|line| + 1..])
  }

  /** Whether a quote is open after a character. */
  function Quoting(open: Option<char>, c: char): Option<char> {
    if open.Some? then (if c == open.value then None else open)
    else if IsQuote(c) then Some(c)
    else None
  }

  /** Where a comment begins in a value: at a `;` or `#` after white space, outside quotes; or the length. */
  function CommentAt(v: string, open: Option<char>, afterWhite: bool): (k: nat)
    ensures k <= |v|
  {
    if v == [] then 0
    else if open.None? && IsMagic(v[0]) && afterWhite then 0
    else 1 + CommentAt(v[1..], Quoting(open, v[0]), IsWhite(v[0]))
  }

  function CommentOf(s: string): Option<string> {
    if s != [] && IsMagic(s[0]) then Some(s[1..]) else None
  }

  function ParseSection(s: string): Option<Entry> {
    var k := IndexOf(s, ']');
    if k == |s| || RTrim(s[..k]) == [] then None
    else Some(Entry(Some(RTrim(s[..k])), None, None, CommentOf(SkipWhite(s[k + 1..]))))
  }

  /** A value starts after white space, or after the `=`, which is cut off by then and counts as white. */
  function ParseValue(id: Option<string>, v: string): Entry {
    var k := CommentAt(v, None, true);
    if k == |v| then Entry(None, id, Some(v), None)
    else Entry(None, id, Some(RTrim(v[..k])), Some(v[k + 1..]))
  }

  /** One line, as the body of the loop in `_cfg_parse` takes it; a line it makes nothing of is dropped. */
  function ParseLine(line: string): Option<Entry>
    requires line != []
  {
    var l := SkipWhite(line);
    if l != [] && l[0] == '[' then ParseSection(SkipWhite(l[1..]))
    else if l != [] && l[0] == ';' then Some(Entry(None, None, None, Some(l[1..])))
    else if IsWhite(line[0]) then Some(ParseValue(None, l))
    else
      var k := IndexOf(l, '=');
      if k == |l| then None
      else Some(ParseValue(Some(RTrim(l[..k])), SkipWhite(l[k + 1..])))
  }

  function Listed(e: Option<Entry>): seq<Entry> {
    if e.Some? then [e.value] else []
  }

  /** The entries that `_cfg_parse` stores. */
  function ParseText(text: string): seq<Entry>
    decreases |text|
  {
    if text == [] then []
    else
      var (line, rest) := NextLine(text);
      (if line == [] then [] else Listed(ParseLine(line))) + ParseText(rest)
  }

  // Printing.

  function CommentText(comment: Option<string>): string {
    if comment.Some? then "\t;" + comment.value else ""
  }

  /** What `_cfg_output` prints of one entry. */
  function LineOf(e: Entry): string {
    if e.section.Some? then "[" + e.section.value + "]" + CommentText(e.comment)
    else if e.id.Some? && e.value.Some? then e.id.value + "=" + e.value.value + CommentText(e.comment)
    else if e.value.Some? then e.value.value + CommentText(e.comment)
    else if e.comment.Some? then ";" + e.comment.value
    else ""
  }

  /** Whether a section comes before any other id or value. */
  predicate SectionAhead(es: seq<Entry>) {
    es != [] && (es[0].section.Some? || (es[0].id.None? && es[0].value.None? && SectionAhead(es[1..])))
  }

  /** Whether a blank line goes before the entry: before a section, or before the comments that stick to it. */
  predicate GapBefore(es: seq<Entry>, skip: bool)
    requires es != []
  {
    var e := es[0];
    skip && if e.section.Some? then true else
      e.value.None? && e.comment.Some? && StartsBlock(e.comment.value) && SectionAhead(es[1..])
  }

  /** `_cfg_output` from some entry on; `skip` says that a section was printed since the last gap for comments. */
  function Text(es: seq<Entry>, skip: bool): string
    decreases |es|
  {
    if es == [] then []
    else
      (if GapBefore(es, skip) then "\n" else "") + LineOf(es[0]) + "\n" + Text(es[1..], SkipAfter(es, skip))
  }

  predicate SkipAfter(es: seq<Entry>, skip: bool)
    requires es != []
  {
    es[0].section.Some? || (skip && !GapBefore(es, skip))
  }

  // What can be printed and read back.

  /** No comment begins in the value, and no quote is left open where one is to follow. */
  predicate PlainValue(v: string, commented: bool) {
    && CommentAt(v, None, true) == |v|
    && (v != [] ==> !IsWhite(v[0]))
    && (v != [] && commented ==> !IsSpace(v[|v| - 1]))
    && (v != [] && !commented ==> !IsWhite(v[|v| - 1]))
    && (commented ==> Open(v, None).None?)
  }

  function Open(v: string, open: Option<char>): Option<char> {
    if v == [] then open else Open(v[1..], Quoting(open, v[0]))
  }

  predicate PlainSection(s: string) {
    s != [] && !IsWhite(s[0]) && !IsSpace(s[|s| - 1]) && ']' !in s && NoEol(s)
  }

  predicate PlainId(id: string) {
    && '=' !in id && NoEol(id)
    && (id != [] ==> !IsWhite(id[0]) && id[0] != '[' && id[0] != ';' && !IsSpace(id[|id| - 1]))
  }

  predicate PlainComment(c: string) {
    NoEol(c) && (c != [] ==> !IsWhite(c[|c| - 1]))
  }

  /** The entries that survive printing and parsing: a section, a definition or a comment, in trimmed fields. */
  predicate Normal(e: Entry) {
    && (e.comment.Some? ==> PlainComment(e.comment.value))
    && if e.section.Some? then PlainSection(e.section.value) && e.id.None? && e.value.None?
       else if e.value.Some? then
         && e.id.Some? && PlainId(e.id.value)
         && NoEol(e.value.value) && PlainValue(e.value.value, e.comment.Some?)
       else e.id.None? && e.comment.Some?
  }

  // About the pieces.

  lemma {:induction false} SkipWhiteFacts(s: string)
    ensures var r := SkipWhite(s);
      r == s[|s| - |r|..] && (r != [] ==> !IsWhite(r[0])) && (|r| < |s| <==> s != [] && IsWhite(s[0]))
    decreases |s|
  {
    if s != [] && IsWhite(s[0]) { SkipWhiteFacts(s[1..]); }
  }

  lemma {:induction false} TrimWhiteFacts(s: string)
    ensures var r := TrimWhite(s); r == s[..|r|] && (r != [] ==> !IsWhite(r[|r| - 1]))
    decreases |s|
  {
    if s != [] && IsWhite(s[|s| - 1]) { TrimWhiteFacts(s[..|s| - 1]); }
  }

  lemma {:induction false} RTrimFacts(s: string)
    ensures var r := RTrim(s);
      && r == s[..|r|] && (r != [] ==> !IsSpace(r[|r| - 1]))
      && forall i :: |r| <= i < |s| ==> IsSpace(s[i])
    decreases |s|
  {
    if s != [] && IsSpace(s[|s| - 1]) { RTrimFacts(s[..|s| - 1]); }
  }

  lemma {:induction false} IndexOfFacts(s: string, c: char)
    ensures var k := IndexOf(s, c); k <= |s| && (k < |s| ==> s[k] == c) && c !in s[..k]
    decreases |s|
  {
    if s != [] && s[0] != c { IndexOfFacts(s[1..], c); }
  }

  lemma {:induction false} IndexOfAfter(a: string, c: char, b: string)
    requires c !in a
    ensures IndexOf(a + [c] + b, c) == |a|
    decreases |a|
  {
    if a != [] {
      assert (a + [c] + b)[1..] == a[1..] + [c] + b;
      assert (a + [c] + b)[0] == a[0] && a[0] in a;
      IndexOfAfter(a[1..], c, b);
    }
  }

  lemma {:induction false} UpToEolFacts(s: string)
    ensures var r := UpToEol(s); r == s[..|r|] && NoEol(r) && (|r| < |s| ==> IsEol(s[|r|]))
    decreases |s|
  {
    if s != [] && !IsEol(s[0]) { UpToEolFacts(s[1..]); }
  }

  lemma {:induction false} UpToEolAppend(a: string, b: string)
    requires NoEol(a) && b != [] && IsEol(b[0])
    ensures UpToEol(a + b) == a
    decreases |a|
  {
    if a == [] {
      assert a + b == b;
    } else {
      assert (a + b)[0] == a[0] && (a + b)[1..] == a[1..] + b;
      UpToEolAppend(a[1..], b);
    }
  }

  lemma {:induction false} SkipEolFacts(s: string)
    ensures var r := SkipEol(s); r == s[|s| - |r|..] && (r != [] ==> !IsEol(r[0]))
    decreases |s|
  {
    if s != [] && IsEol(s[0]) { SkipEolFacts(s[1..]); }
  }

  /** Scanning a value that has no comment goes on in what follows it. */
  lemma {:induction false} CommentAtAppend(v: string, open: Option<char>, afterWhite: bool, w: string)
    requires CommentAt(v, open, afterWhite) == |v|
    ensures CommentAt(v + w, open, afterWhite) ==
      |v| + CommentAt(w, Open(v, open), if v == [] then afterWhite else IsWhite(v[|v| - 1]))
    decreases |v|
  {
    if v == [] {
      assert v + w == w;
    } else {
      assert (v + w)[0] == v[0] && (v + w)[1..] == v[1..] + w;
      CommentAtAppend(v[1..], Quoting(open, v[0]), IsWhite(v[0]), w);
    }
  }

  /** Up to where a comment begins there is none, and no quote is open there. */
  lemma {:induction false} CommentAtFacts(v: string, open: Option<char>, afterWhite: bool, j: nat)
    requires j <= CommentAt(v, open, afterWhite)
    ensures var k := CommentAt(v, open, afterWhite);
      && CommentAt(v[..j], open, afterWhite) == j
      && (k < |v| ==> IsMagic(v[k]) && Open(v[..k], open).None?)
    decreases |v|
  {
    var k := CommentAt(v, open, afterWhite);
    if k > 0 {
      var open', white := Quoting(open, v[0]), IsWhite(v[0]);
      CommentAtFacts(v[1..], open', white, if j == 0 then 0 else j - 1);
      if j > 0 { assert v[..j][1..] == v[1..][..j - 1]; }
      assert v[..k][1..] == v[1..][..k - 1];
    }
  }

  lemma {:induction false} OpenAppend(v: string, w: string, open: Option<char>)
    ensures Open(v + w, open) == Open(w, Open(v, open))
    decreases |v|
  {
    if v == [] {
      assert v + w == w;
    } else {
      assert (v + w)[0] == v[0] && (v + w)[1..] == v[1..] + w;
      OpenAppend(v[1..], w, Quoting(open, v[0]));
    }
  }

  /** Space changes nothing about quotes. */
  lemma {:induction false} OpenSpaces(w: string, open: Option<char>)
    requires (forall i :: 0 <= i < |w| ==> IsSpace(w[i])) && (open.Some? ==> IsQuote(open.value))
    ensures Open(w, open) == open
    decreases |w|
  {
    if w != [] { OpenSpaces(w[1..], open); }
  }

  lemma {:induction false} OpenIsQuote(v: string, open: Option<char>)
    requires open.Some? ==> IsQuote(open.value)
    ensures Open(v, open).Some? ==> IsQuote(Open(v, open).value)
    decreases |v|
  {
    if v != [] { OpenIsQuote(v[1..], Quoting(open, v[0])); }
  }

  // A normal entry is read back from its line.

  lemma ParseCommented(id: string, v: string, c: string)
    requires PlainValue(v, true)
    ensures ParseValue(Some(id), SkipWhite(v + "\t;" + c)) == Entry(None, Some(id), Some(v), Some(c))
  {
    var rest := "\t;" + c;
    var all := v + "\t;" + c;
    assert all == v + rest;
    assert rest[1..] == ";" + c && (";" + c)[1..] == c;
    if v == [] {
      assert all == rest;
      assert SkipWhite(rest) == SkipWhite(rest[1..]) == ";" + c;
      assert RTrim((";" + c)[..0]) == "";
    } else {
      assert all[0] == v[0];
      CommentFollows(v, c);
      assert all[..|v| + 1] == v + "\t";
      assert (v + "\t")[..|v|] == v;
      assert RTrim(v + "\t") == v;
      assert all[|v| + 2..] == c;
    }
  }

  lemma CommentFollows(v: string, c: string)
    requires PlainValue(v, true) && v != []
    ensures CommentAt(v + ("\t;" + c), None, true) == |v| + 1
  {
    var rest := "\t;" + c;
    TabComment(rest, IsWhite(v[|v| - 1]));
    hide CommentAt;
    CommentAtAppend(v, None, true, rest);
  }

  lemma TabComment(s: string, afterWhite: bool)
    requires |s| >= 2 && s[0] == '\t' && s[1] == ';'
    ensures CommentAt(s, None, afterWhite) == 1
  {
    assert s[1..][0] == ';';
    assert CommentAt(s[1..], None, true) == 0;
  }

  lemma SectionLine(e: Entry)
    requires Normal(e) && e.section.Some?
    ensures ParseLine(LineOf(e)) == Some(e)
  {
    var s := e.section.value;
    var c := CommentText(e.comment);
    var line := "[" + s + "]" + c;
    assert line[1..] == s + "]" + c;
    assert SkipWhite(line) == line;
    IndexOfAfter(s, ']', c);
    assert (s + "]" + c)[..|s|] == s && (s + "]" + c)[|s| + 1..] == c;
    if e.comment.Some? {
      assert c[1..] == ";" + e.comment.value;
      assert SkipWhite(c) == c[1..];
    }
  }

  lemma DefinitionLine(e: Entry)
    requires Normal(e) && e.value.Some?
    ensures ParseLine(LineOf(e)) == Some(e)
  {
    var id, v := e.id.value, e.value.value;
    var tail := v + CommentText(e.comment);
    assert LineOf(e) == id + "=" + tail;
    hide CommentAt, Open, CommentText;
    SplitDefinition(id, tail);
    if e.comment.Some? {
      assert tail == v + "\t;" + e.comment.value by { CommentTextSome(v, e.comment.value); }
      ParseCommented(id, v, e.comment.value);
    } else {
      assert tail == v by { assert CommentText(None) == "" by { CommentTextNone(); } }
      ParseUncommented(id, v);
    }
  }

  lemma CommentTextNone()
    ensures CommentText(None) == ""
  {}

  lemma CommentTextSome(v: string, c: string)
    ensures v + CommentText(Some(c)) == v + "\t;" + c
  {}

  lemma ParseUncommented(id: string, v: string)
    requires PlainValue(v, false)
    ensures SkipWhite(v) == v && ParseValue(Some(id), v) == Entry(None, Some(id), Some(v), None)
  {}

  lemma SplitDefinition(id: string, tail: string)
    requires PlainId(id)
    ensures ParseLine(id + "=" + tail) == Some(ParseValue(Some(id), SkipWhite(tail)))
  {
    var line := id + "=" + tail;
    assert line[0] == if id == [] then '=' else id[0];
    assert SkipWhite(line) == line;
    IndexOfAfter(id, '=', tail);
    assert line[..|id|] == id && line[|id| + 1..] == tail;
    assert RTrim(id) == id;
  }

  lemma CommentShape(c: Option<string>)
    requires c.Some? ==> PlainComment(c.value)
    ensures var t := CommentText(c); NoEol(t) && (t != [] ==> !IsWhite(t[|t| - 1]))
  {
    if c.Some? {
      var t := "\t;" + c.value;
      assert c.value == [] ==> t == "\t;";
      assert c.value != [] ==> t[|t| - 1] == c.value[|c.value| - 1];
    }
  }

  lemma LineShape(e: Entry)
    requires Normal(e)
    ensures var line := LineOf(e); line != [] && NoEol(line) && !IsWhite(line[|line| - 1])
  {
    hide CommentAt, Open;
    var t := CommentText(e.comment);
    CommentShape(e.comment);
    assert e.comment.Some? ==> t != [];
    if e.section.Some? {
      Shape("[" + e.section.value + "]", t);
    } else if e.value.Some? {
      var v := e.value.value;
      Shape(e.id.value + "=" + v, t) by {
        var a := e.id.value + "=" + v;
        assert v != [] ==> a[|a| - 1] == v[|v| - 1];
      }
    } else {
      Shape(";", e.comment.value);
    }
  }

  lemma Shape(a: string, t: string)
    requires a != [] && NoEol(a) && NoEol(t)
    requires t != [] ==> !IsWhite(t[|t| - 1])
    requires t == [] ==> !IsWhite(a[|a| - 1])
    ensures var line := a + t; line != [] && NoEol(line) && !IsWhite(line[|line| - 1])
  {}

  lemma NormalLine(e: Entry)
    requires Normal(e)
    ensures LineOf(e) != [] && ParseLine(LineOf(e)) == Some(e)
  {
    if e.section.Some? {
      SectionLine(e);
    } else if e.value.Some? {
      DefinitionLine(e);
    } else {
      var line := ";" + e.comment.value;
      assert line[1..] == e.comment.value;
      assert SkipWhite(line) == line;
    }
  }

  // From lines to files.

  lemma {:induction false} LineEnds(line: string, rest: string)
    requires line != [] && NoEol(line)
    ensures NextLine(line + "\n" + rest) == (TrimWhite(line), rest)
  {
    var text := line + "\n" + rest;
    assert text[0] == line[0];
    assert text == line + ("\n" + rest);
    UpToEolAppend(line, "\n" + rest);
    assert text[|line| + 1..] == rest;
  }

  /** A blank line makes no entry. */
  lemma BlankLine(rest: string)
    ensures ParseText("\n" + rest) == ParseText(rest)
  {
    assert ("\n" + rest)[1..] == rest;
    if rest == [] {
      assert "\n" + rest == "\n";
      assert NextLine("\n") == ([], []);
    } else {
      assert NextLine("\n" + rest) == NextLine(rest);
    }
  }

  /** What reading the printed entry gives, whatever is in it, as long as it stays on its line. */
  function Reread(e: Entry): seq<Entry> {
    var line := TrimWhite(LineOf(e));
    if line == [] then [] else Listed(ParseLine(line))
  }

  lemma ReadFirst(e: Entry, gap: bool, rest: string)
    requires NoEol(LineOf(e))
    ensures ParseText((if gap then "\n" else "") + LineOf(e) + "\n" + rest) == Reread(e) + ParseText(rest)
  {
    var text := LineOf(e) + "\n" + rest;
    if LineOf(e) == [] {
      assert text == "\n" + rest;
      BlankLine(rest);
    } else {
      LineEnds(LineOf(e), rest);
    }
    if gap {
      BlankLine(text);
      assert "\n" + LineOf(e) + "\n" + rest == "\n" + text;
    } else {
      assert "" + LineOf(e) + "\n" + rest == text;
    }
  }

  lemma NormalRereads(e: Entry)
    requires Normal(e)
    ensures NoEol(LineOf(e)) && Reread(e) == [e]
  {
    LineShape(e);
    NormalLine(e);
  }

  lemma TextCons(es: seq<Entry>, skip: bool)
    requires es != []
    ensures Text(es, skip) ==
      (if GapBefore(es, skip) then "\n" else "") + LineOf(es[0]) + "\n" + Text(es[1..], SkipAfter(es, skip))
  {}

  /** Printed normal entries are read back, all of them and nothing else. */
  lemma {:induction false} NormalRoundTrip(es: seq<Entry>, skip: bool)
    requires forall i :: 0 <= i < |es| ==> Normal(es[i])
    ensures ParseText(Text(es, skip)) == es
    decreases |es|
  {
    if es != [] {
      TextCons(es, skip);
      hide Normal, LineOf, Reread, ParseText, GapBefore, NoEol, Text, SkipAfter;
      var skip' := SkipAfter(es, skip);
      NormalRereads(es[0]);
      NormalRoundTrip(es[1..], skip');
      ReadFirst(es[0], GapBefore(es, skip), Text(es[1..], skip'));
      assert es == [es[0]] + es[1..];
    } else {
      assert ParseText([]) == [];
    }
  }

  // What is read is normal, apart from continuation lines.

  predicate IsContinuation(e: Entry) { e.value.Some? && e.id.None? }

  predicate Trimmed(s: string) { NoEol(s) && (s != [] ==> !IsWhite(s[|s| - 1])) }

  lemma TrimmedSuffix(s: string, k: nat)
    requires Trimmed(s) && k <= |s|
    ensures Trimmed(s[k..])
  {}

  lemma ParsedSection(s: string)
    requires Trimmed(s) && (s != [] ==> !IsWhite(s[0])) && ParseSection(s).Some?
    ensures Normal(ParseSection(s).value)
  {
    hide RTrim, SkipWhite, IndexOf, Trimmed, IsWhite, IsSpace, IsMagic, PlainSection, PlainComment;
    var k := IndexOf(s, ']');
    assert k < |s| && RTrim(s[..k]) != [];
    IndexOfFacts(s, ']');
    ParsedName(s, k);
    TrimmedSuffix(s, k + 1);
    ParsedRemark(s[k + 1..]);
  }

  lemma ParsedName(s: string, k: nat)
    requires Trimmed(s) && k < |s| && !IsWhite(s[0]) && ']' !in s[..k] && RTrim(s[..k]) != []
    ensures PlainSection(RTrim(s[..k]))
  {
    RTrimFacts(s[..k]);
  }

  lemma ParsedRemark(s: string)
    requires Trimmed(s)
    ensures var c := CommentOf(SkipWhite(s)); c.Some? ==> PlainComment(c.value)
  {
    var t := SkipWhite(s);
    SkipWhiteFacts(s);
    TrimmedSuffix(s, |s| - |t|);
    if t != [] { TrimmedSuffix(t, 1); }
  }

  /** What is cut off a value before a comment leaves a plain value. */
  lemma CutValue(v: string)
    requires v != [] ==> !IsWhite(v[0])
    requires CommentAt(v, None, true) < |v|
    ensures PlainValue(RTrim(v[..CommentAt(v, None, true)]), true)
  {
    hide CommentAt, RTrim, Open, IsSpace, IsWhite;
    var k := CommentAt(v, None, true);
    var w := RTrim(v[..k]);
    RTrimFacts(v[..k]);
    assert w == v[..|w|];
    CommentAtFacts(v, None, true, |w|);
    assert Open(w, None) == None by { OpenTrimmed(v[..k]); }
    assert w != [] ==> !IsWhite(w[|w| - 1]) by { WhiteIsSpace(w); }
  }

  lemma OpenTrimmed(v: string)
    requires Open(v, None) == None
    ensures Open(RTrim(v), None) == None
  {
    hide Open;
    var w := RTrim(v);
    RTrimFacts(v);
    var spaces := v[|w|..];
    assert v == w + spaces;
    OpenAppend(w, spaces, None);
    OpenIsQuote(w, None);
    OpenSpaces(spaces, Open(w, None));
  }

  lemma WhiteIsSpace(w: string)
    ensures w != [] && IsWhite(w[|w| - 1]) ==> IsSpace(w[|w| - 1])
  {}

  lemma ParsedValue(id: string, v: string)
    requires PlainId(id) && Trimmed(v) && (v != [] ==> !IsWhite(v[0]))
    ensures Normal(ParseValue(Some(id), v))
  {
    var k := CommentAt(v, None, true);
    if k < |v| {
      CutValue(v);
      RTrimFacts(v[..k]);
      TrimmedSuffix(v, k + 1);
    }
  }

  lemma ParsedDefinition(line: string)
    requires Trimmed(line) && line != [] && !IsWhite(line[0]) && line[0] != '[' && line[0] != ';' && ParseLine(line).Some?
    ensures Normal(ParseLine(line).value)
  {
    assert SkipWhite(line) == line;
    var k := IndexOf(line, '=');
    IndexOfFacts(line, '=');
    var id := RTrim(line[..k]);
    RTrimFacts(line[..k]);
    assert id != [] ==> id[0] == line[0];
    var tail := line[k + 1..];
    var v := SkipWhite(tail);
    SkipWhiteFacts(tail);
    TrimmedSuffix(line, k + 1);
    TrimmedSuffix(tail, |tail| - |v|);
    ParsedValue(id, v);
  }

  /** Whatever was in the line: an entry read from it, unless it continues another, prints and reads back. */
  lemma ParsedIsNormal(line: string)
    requires Trimmed(line) && line != [] && ParseLine(line).Some? && !IsContinuation(ParseLine(line).value)
    ensures Normal(ParseLine(line).value)
  {
    var l := SkipWhite(line);
    SkipWhiteFacts(line);
    TrimmedSuffix(line, |line| - |l|);
    if l != [] && l[0] == '[' {
      var s := SkipWhite(l[1..]);
      SkipWhiteFacts(l[1..]);
      TrimmedSuffix(l, 1);
      TrimmedSuffix(l[1..], |l| - 1 - |s|);
      ParsedSection(s);
    } else if l != [] && l[0] == ';' {
      TrimmedSuffix(l, 1);
    } else if !IsWhite(line[0]) {
      ParsedDefinition(line);
    }
  }

  /** A continuation is read only from an indented line, and without the indentation. */
  lemma ParsedContinuation(line: string)
    requires line != [] && ParseLine(line).Some? && IsContinuation(ParseLine(line).value)
    ensures IsWhite(line[0]) && (SkipWhite(line) == [] || SkipWhite(line)[0] != ';')
    ensures var v := ParseLine(line).value.value.value; v == [] || !IsWhite(v[0])
  {
    var l := SkipWhite(line);
    SkipWhiteFacts(line);
    RTrimFacts(l[..CommentAt(l, None, true)]);
  }

  /** It is printed without indentation; with nothing to print it is a comment or nothing. */
  lemma ContinuationLine(e: Entry)
    requires e.section.None? && IsContinuation(e)
    ensures var t, v := TrimWhite(LineOf(e)), e.value.value;
      && (t != [] && v != [] ==> t[0] == v[0])
      && (t != [] && v == [] ==> SkipWhite(t) != [] && SkipWhite(t)[0] == ';')
  {
    var line := LineOf(e);
    var t := TrimWhite(line);
    TrimWhiteFacts(line);
    if e.value.value == [] && e.comment.Some? {
      var c := e.comment.value;
      assert line == ['\t'] + [';'] + c;
      TrimKeeps(['\t'], ';', c);
      assert t[0] == '\t' && t[1] == ';';
      assert t[1..][0] == ';';
      assert SkipWhite(t) == SkipWhite(t[1..]) == t[1..];
    }
  }

  lemma {:induction false} TrimKeeps(a: string, c: char, b: string)
    requires !IsWhite(c)
    ensures |TrimWhite(a + [c] + b)| > |a|
    decreases |b|
  {
    var s := a + [c] + b;
    if b == [] {
      assert s[|s| - 1] == c;
    } else {
      assert s[..|s| - 1] == a + [c] + b[..|b| - 1];
      TrimKeeps(a, c, b[..|b| - 1]);
    }
  }

  lemma ContinuationChanges(e: Entry)
    requires e.section.None? && IsContinuation(e)
    ensures Reread(e) != [e]
  {
    var t := TrimWhite(LineOf(e));
    ContinuationLine(e);
    hide LineOf, TrimWhite, SkipWhite;
    if t != [] && ParseLine(t) == Some(e) {
      hide ParseLine;
      ParsedContinuation(t);
    }
  }

  // Nothing that is read contains the end of a line.

  predicate OnOneLine(e: Entry) {
    && (e.section.Some? ==> NoEol(e.section.value)) && (e.id.Some? ==> NoEol(e.id.value))
    && (e.value.Some? ==> NoEol(e.value.value)) && (e.comment.Some? ==> NoEol(e.comment.value))
  }

  lemma NoEolSlice(s: string, i: nat, j: nat)
    requires NoEol(s) && i <= j <= |s|
    ensures NoEol(s[i..j])
  {}

  lemma ValueOnOneLine(id: Option<string>, v: string)
    requires NoEol(v) && (id.Some? ==> NoEol(id.value))
    ensures OnOneLine(ParseValue(id, v))
  {
    RTrimFacts(v[..CommentAt(v, None, true)]);
  }

  lemma SectionOnOneLine(s: string)
    requires NoEol(s) && ParseSection(s).Some?
    ensures OnOneLine(ParseSection(s).value)
  {
    var k := IndexOf(s, ']');
    RTrimFacts(s[..k]);
    SkipWhiteFacts(s[k + 1..]);
  }

  lemma SkipWhiteNoEol(s: string)
    requires NoEol(s)
    ensures NoEol(SkipWhite(s))
  {
    SkipWhiteFacts(s);
  }

  lemma ParsedLineIsOnOneLine(line: string)
    requires NoEol(line) && line != [] && ParseLine(line).Some?
    ensures OnOneLine(ParseLine(line).value)
  {
    hide NoEol, OnOneLine, ParseSection, ParseValue, RTrim, SkipWhite, IndexOf;
    var l := SkipWhite(line);
    SkipWhiteNoEol(line);
    if l != [] && l[0] == '[' {
      NoEolSlice(l, 1, |l|);
      SkipWhiteNoEol(l[1..]);
      SectionOnOneLine(SkipWhite(l[1..]));
    } else if l != [] && l[0] == ';' {
      NoEolSlice(l, 1, |l|);
      assert OnOneLine(Entry(None, None, None, Some(l[1..]))) by { OnOneLineComment(l[1..]); }
    } else if IsWhite(line[0]) {
      ValueOnOneLine(None, l);
    } else {
      var k := IndexOf(l, '=');
      if k < |l| {
        NoEolSlice(l, 0, k);
        NoEolSlice(l, k + 1, |l|);
        SkipWhiteNoEol(l[k + 1..]);
        var v := SkipWhite(l[k + 1..]);
        RTrimNoEol(l[..k]);
        ValueOnOneLine(Some(RTrim(l[..k])), v);
      }
    }
  }

  lemma RTrimNoEol(s: string)
    requires NoEol(s)
    ensures NoEol(RTrim(s))
  {
    RTrimFacts(s);
  }

  lemma OnOneLineComment(c: string)
    requires NoEol(c)
    ensures OnOneLine(Entry(None, None, None, Some(c)))
  {}

  lemma NextLineNoEol(text: string)
    ensures NoEol(NextLine(text).0)
  {
    var t := SkipEol(text);
    UpToEolFacts(t);
    TrimWhiteFacts(UpToEol(t));
  }

  lemma {:induction false} ParsedOnOneLine(text: string)
    ensures forall i :: 0 <= i < |ParseText(text)| ==> OnOneLine(ParseText(text)[i])
    decreases |text|
  {
    if text != [] {
      var (line, rest) := NextLine(text);
      NextLineNoEol(text);
      if line != [] && ParseLine(line).Some? { ParsedLineIsOnOneLine(line); }
      ParsedOnOneLine(rest);
    }
  }

  lemma OnOneLinePrints(e: Entry)
    requires OnOneLine(e)
    ensures NoEol(LineOf(e))
  {}

  // The round trip, and exactly when it holds.

  lemma RereadIsNormal(e: Entry)
    requires OnOneLine(e) && Reread(e) == [e]
    ensures Normal(e)
  {
    var line := LineOf(e);
    var t := TrimWhite(line);
    OnOneLinePrints(e);
    TrimWhiteFacts(line);
    if IsContinuation(e) {
      ParsedHasSectionOrValue(t);
      ContinuationChanges(e);
    } else {
      ParsedIsNormal(t);
    }
  }

  lemma ParsedHasSectionOrValue(line: string)
    requires line != [] && ParseLine(line).Some?
    ensures var e := ParseLine(line).value; e.section.Some? ==> e.value.None?
  {}

  /** Printing and reading entries gives at most one for each, and the same ones only if each is read back by itself. */
  lemma {:induction false} RereadEach(es: seq<Entry>, skip: bool)
    requires forall i :: 0 <= i < |es| ==> OnOneLine(es[i])
    ensures |ParseText(Text(es, skip))| <= |es|
    ensures ParseText(Text(es, skip)) == es ==> forall i :: 0 <= i < |es| ==> Normal(es[i])
    decreases |es|
  {
    if es == [] {
      assert ParseText([]) == [];
    } else {
      TextCons(es, skip);
      hide Normal, LineOf, Reread, ParseText, OnOneLine, GapBefore, NoEol, Text, SkipAfter;
      var skip' := SkipAfter(es, skip);
      OnOneLinePrints(es[0]);
      ReadFirst(es[0], GapBefore(es, skip), Text(es[1..], skip'));
      RereadEach(es[1..], skip');
      assert |Reread(es[0])| <= 1 by { AtMostOne(es[0]); }
      var rest := ParseText(Text(es[1..], skip'));
      if Reread(es[0]) + rest == es {
        assert |Reread(es[0])| == 1;
        assert Reread(es[0]) == [es[0]] && rest == es[1..];
        RereadIsNormal(es[0]);
      }
    }
  }

  lemma AtMostOne(e: Entry)
    ensures |Reread(e)| <= 1
  {}

  /** A printed file reads back as the entries it was printed from exactly if all of them are normal. */
  lemma RoundTrip(es: seq<Entry>)
    ensures ParseText(Text(es, false)) == es <==> forall i :: 0 <= i < |es| ==> Normal(es[i])
  {
    if forall i :: 0 <= i < |es| ==> Normal(es[i]) {
      NormalRoundTrip(es, false);
    }
    if ParseText(Text(es, false)) == es {
      ParsedOnOneLine(Text(es, false));
      RereadEach(es, false);
    }
  }

  /** A value that begins like a comment, a colour such as `#fff`, is read back as the comment of an empty one. */
  lemma MagicValueIsLost(id: string, value: string)
    requires PlainId(id) && value != [] && IsMagic(value[0])
    ensures ParseLine(LineOf(KeyEntry(id, value))) == Some(Entry(None, Some(id), Some(""), Some(value[1..])))
  {
    SplitDefinition(id, value);
    assert LineOf(KeyEntry(id, value)) == id + "=" + value by { assert id + "=" + value + "" == id + "=" + value; }
    assert value[..0] == "";
    hide ParseLine, LineOf;
  }

  // Reading a file, printing it and reading it again.

  lemma {:induction false} ParsedAreNormal(text: string)
    requires text != [] ==> !IsWhite(text[|text| - 1])
    requires forall i :: 0 <= i < |ParseText(text)| ==> !IsContinuation(ParseText(text)[i])
    ensures forall i :: 0 <= i < |ParseText(text)| ==> Normal(ParseText(text)[i])
    decreases |text|
  {
    if text != [] {
      var (line, rest) := NextLine(text);
      LineIsTrimmed(text);
      var first := if line == [] then [] else Listed(ParseLine(line));
      assert ParseText(text) == first + ParseText(rest);
      forall i | 0 <= i < |ParseText(rest)| ensures !IsContinuation(ParseText(rest)[i]) {
        assert ParseText(rest)[i] == ParseText(text)[|first| + i];
      }
      if first != [] {
        assert first[0] == ParseText(text)[0];
        ParsedIsNormal(line);
      }
      ParsedAreNormal(rest);
    }
  }

  lemma LineIsTrimmed(text: string)
    requires text != [] && !IsWhite(text[|text| - 1])
    ensures var (line, rest) := NextLine(text); Trimmed(line) && (rest != [] ==> !IsWhite(rest[|rest| - 1]))
  {
    var t := SkipEol(text);
    SkipEolFacts(text);
    UpToEolFacts(t);
    TrimWhiteFacts(UpToEol(t));
  }

  /**
    A file without continuation lines, and not ending in white space, keeps its entries when it is read,
    printed and read again, whatever else it looks like.
   */
  lemma ReprintKeepsEntries(text: string)
    requires text != [] ==> !IsWhite(text[|text| - 1])
    requires forall i :: 0 <= i < |ParseText(text)| ==> !IsContinuation(ParseText(text)[i])
    ensures ParseText(Text(ParseText(text), false)) == ParseText(text)
  {
    ParsedAreNormal(text);
    RoundTrip(ParseText(text));
  }
}
