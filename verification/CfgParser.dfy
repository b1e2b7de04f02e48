/** `_cfg_parse` and `_cfg_output` of ctcpsvr/cfgfile.cpp as they work: the one cuts the file image up in place. */
module CfgParser {
  import opened Options
  import opened CfgEntries
  import opened CfgText
  import F = CfgFormat

  const NUL := '\0'

  /** C's `strchr` finds the terminator too, so the macro takes a NUL for white space. */
  predicate IsWhiteOrNul(c: char) { IsWhite(c) || c == NUL }

  /** The C string that starts at `p`. */
  function StringAt(s: seq<char>, p: nat): string
    decreases |s| - p
  {
    if p >= |s| || s[p] == NUL then [] else [s[p]] + StringAt(s, p + 1)
  }

  lemma {:induction false} StringAtIs(s: seq<char>, p: nat, n: nat)
    requires p + n < |s| && s[p + n] == NUL && forall i :: p <= i < p + n ==> s[i] != NUL
    ensures StringAt(s, p) == s[p..p + n]
    decreases n
  {
    if n > 0 { StringAtIs(s, p + 1, n - 1); }
  }

  /** An entry as it is stored: its fields point into the image. */
  datatype Pointers = Pointers(section: Option<nat>, id: Option<nat>, value: Option<nat>, comment: Option<nat>)

  predicate FieldIs(s: seq<char>, p: Option<nat>, field: Option<string>, from: nat, to: nat) {
    p.Some? == field.Some? && (p.Some? ==>
      && from <= p.value && p.value + |field.value| <= to < |s|
      && s[p.value..p.value + |field.value|] == field.value && NUL !in field.value
      && s[p.value + |field.value|] == NUL)
  }

  /** The pointers give the entry, within `from..to` of the image. */
  predicate Gives(s: seq<char>, p: Pointers, e: Entry, from: nat, to: nat) {
    && FieldIs(s, p.section, e.section, from, to) && FieldIs(s, p.id, e.id, from, to)
    && FieldIs(s, p.value, e.value, from, to) && FieldIs(s, p.comment, e.comment, from, to)
  }

  lemma FieldIsString(s: seq<char>, p: Option<nat>, field: Option<string>, from: nat, to: nat)
    requires FieldIs(s, p, field, from, to) && p.Some?
    ensures field == Some(StringAt(s, p.value))
  {
    var f := field.value;
    forall i | p.value <= i < p.value + |f| ensures s[i] != NUL {
      assert s[i] == s[p.value..p.value + |f|][i - p.value] && f[i - p.value] in f;
    }
    StringAtIs(s, p.value, |f|);
  }

  /** What a field that points into the image reads as. */
  function FieldText(s: seq<char>, p: Option<nat>): Option<string> {
    if p.Some? then Some(StringAt(s, p.value)) else None
  }

  /** A stored entry as the C strings its fields point to. */
  function EntryAt(s: seq<char>, p: Pointers): Entry {
    Entry(FieldText(s, p.section), FieldText(s, p.id), FieldText(s, p.value), FieldText(s, p.comment))
  }

  function EntriesAt(s: seq<char>, ps: seq<Pointers>): seq<Entry> {
    if ps == [] then [] else EntriesAt(s, ps[..|ps| - 1]) + [EntryAt(s, ps[|ps| - 1])]
  }

  lemma GivenEntry(s: seq<char>, p: Pointers, e: Entry, to: nat)
    requires Gives(s, p, e, 0, to)
    ensures EntryAt(s, p) == e
  {
    hide StringAt;
    if p.section.Some? { FieldIsString(s, p.section, e.section, 0, to); }
    if p.id.Some? { FieldIsString(s, p.id, e.id, 0, to); }
    if p.value.Some? { FieldIsString(s, p.value, e.value, 0, to); }
    if p.comment.Some? { FieldIsString(s, p.comment, e.comment, 0, to); }
  }

  lemma {:induction false} GivenEntries(s: seq<char>, ps: seq<Pointers>, es: seq<Entry>, to: nat)
    requires AllGiven(s, ps, es, to)
    ensures EntriesAt(s, ps) == es
    decreases |ps|
  {
    hide Gives, EntryAt;
    if ps != [] {
      var n := |ps| - 1;
      GivenEntry(s, ps[n], es[n], to);
      GivenEntries(s, ps[..n], es[..n], to);
      assert es == es[..n] + [es[n]];
    }
  }

  lemma FieldAt(s: seq<char>, p: nat, n: nat, from: nat, to: nat)
    requires from <= p && p + n <= to < |s| && s[p + n] == NUL && forall i :: p <= i < p + n ==> s[i] != NUL
    ensures FieldIs(s, Some(p), Some(s[p..p + n]), from, to)
  {}

  /** A field stays what it is while its stretch of the image is left alone, and as the bounds widen. */
  lemma FieldKept(s: seq<char>, s': seq<char>, p: Option<nat>, field: Option<string>, from: nat, to: nat, from': nat, to': nat)
    requires FieldIs(s, p, field, from, to) && from' <= from && to <= to' < |s'| && to < |s|
    requires forall i :: from <= i <= to ==> s'[i] == s[i]
    ensures FieldIs(s', p, field, from', to')
  {
    if p.Some? {
      var a, n := p.value, |field.value|;
      assert s'[a..a + n] == s[a..a + n];
    }
  }

  class Image {
    const chars: array<char>
    const size: nat

    /** The image ends with the NUL after what was read. */
    ghost predicate Valid()
      reads this, chars
    {
      chars.Length == size + 1 && chars[size] == NUL
    }

    /** From `p` up to the NUL at `end` there is no other. */
    ghost predicate Stretch(p: nat, end: nat)
      reads this, chars
    {
      Valid() && p <= end <= size && chars[end] == NUL && forall i :: p <= i < end ==> chars[i] != NUL
    }

    method SkipWhiteFrom(p: nat, ghost end: nat) returns (q: nat)
      requires Stretch(p, end)
      ensures p <= q <= end && chars[q..end] == SkipWhite(chars[p..end]) && (q > p ==> IsWhite(chars[q - 1]))
    {
      q := p;
      while chars[q] != NUL && IsWhite(chars[q])
        invariant p <= q <= end && SkipWhite(chars[q..end]) == SkipWhite(chars[p..end]) && (q > p ==> IsWhite(chars[q - 1]))
        decreases end - q
      {
        assert chars[q..end][1..] == chars[q + 1..end];
        q := q + 1;
      }
    }

    /** `strchr`; the end when it finds nothing. */
    method Find(p: nat, ghost end: nat, c: char) returns (k: nat)
      requires Stretch(p, end) && c != NUL
      ensures p <= k <= end && k == p + IndexOf(chars[p..end], c)
    {
      k := p;
      while chars[k] != NUL && chars[k] != c
        invariant p <= k <= end && p + IndexOf(chars[p..end], c) == k + IndexOf(chars[k..end], c)
        decreases end - k
      {
        assert chars[k..end][1..] == chars[k + 1..end];
        k := k + 1;
      }
    }

    /** Where `strlen` stops. */
    method EndOf(p: nat, ghost end: nat) returns (k: nat)
      requires Stretch(p, end)
      ensures k == end
    {
      k := p;
      while chars[k] != NUL
        invariant p <= k <= end
        decreases end - k
      {
        k := k + 1;
      }
    }

    /** `rtrim`, which does not touch an empty string. */
    method RTrimAt(p: nat, ghost end: nat) returns (some: bool)
      requires Stretch(p, end)
      modifies chars
      ensures var r := RTrim(old(chars[p..end]));
        && chars[..] == old(chars[..])[p + |r| := NUL] && (some <==> r != []) && p + |r| <= end
        && r == old(chars[p..p + |r|])
    {
      RTrimFacts(chars[p..end]);
      if chars[p] == NUL {
        return false;
      }
      var length := EndOf(p, end);
      var last: int := length - 1;
      while last >= p && IsSpace(chars[last])
        invariant p - 1 <= last < end && RTrim(chars[p..last + 1]) == RTrim(chars[p..end])
      {
        assert chars[p..last + 1][..last - p] == chars[p..last];
        last := last - 1;
      }
      chars[last + 1] := NUL;
      some := last >= p;
    }

    // The loops of `_cfg_getline`.

    method SkipEolFrom(p: nat) returns (q: nat)
      requires Stretch(p, size)
      ensures p <= q <= size && chars[q..size] == SkipEol(chars[p..size])
    {
      q := p;
      while chars[q] != NUL && IsEol(chars[q])
        invariant p <= q <= size && SkipEol(chars[q..size]) == SkipEol(chars[p..size])
        decreases size - q
      {
        assert chars[q..size][1..] == chars[q + 1..size];
        q := q + 1;
      }
    }

    method FindEol(p: nat) returns (q: nat)
      requires Stretch(p, size)
      ensures p <= q <= size && q - p == |UpToEol(chars[p..size])|
    {
      q := p;
      while chars[q] != NUL && !IsEol(chars[q])
        invariant p <= q <= size && q - p + |UpToEol(chars[q..size])| == |UpToEol(chars[p..size])|
        decreases size - q
      {
        assert chars[q..size][1..] == chars[q + 1..size];
        q := q + 1;
      }
    }

    /** Trims the line that begins at `line` and has just been ended at `eol`, and nothing before it. */
    method TrimLine(line: nat, eol: nat) returns (ghost end: nat)
      requires Stretch(line, eol)
      modifies chars
      ensures line <= end <= eol && chars[line..end] == TrimWhite(old(chars[line..eol]))
      ensures chars[..] == old(chars[..])[end := NUL]
    {
      ghost var whole := chars[line..eol];
      var cp: int := eol;
      while cp >= line && IsWhiteOrNul(chars[cp])
        invariant line - 1 <= cp <= eol && chars[..] == old(chars[..])
        invariant cp < eol ==> TrimWhite(chars[line..cp + 1]) == TrimWhite(whole)
      {
        assert cp < eol ==> chars[line..cp + 1][..cp - line] == chars[line..cp];
        cp := cp - 1;
      }
      end := cp + 1;
      assert chars[line..end] == TrimWhite(whole);
      chars[cp + 1] := NUL;
    }

    /** Ends a line where its end-of-line character is. */
    method EndLine(line: nat, eol: nat) returns (ghost end: nat)
      requires Stretch(line, size) && line <= eol < size
      modifies chars
      ensures Stretch(line, end) && end <= eol && Stretch(eol + 1, size)
      ensures chars[..line] == old(chars[..line]) && chars[eol + 1..size] == old(chars[eol + 1..size])
      ensures chars[line..end] == TrimWhite(old(chars[line..eol]))
    {
      hide TrimWhite;
      ghost var text := chars[line..eol];
      chars[eol] := NUL;
      assert chars[line..eol] == text;
      end := TrimLine(line, eol);
    }

    /** `_cfg_getline`: ends the next line, trims it unless it is the very last, and goes on behind it. */
    method GetLine(from: nat) returns (next: nat, line: nat, ghost end: nat, some: bool)
      requires Stretch(from, size) && from < size
      modifies chars
      ensures Stretch(line, end) && from <= line && (end < next || next == size)
      ensures from < next <= size && Stretch(next, size)
      ensures chars[..from] == old(chars[..from])
      ensures NextLine(old(chars[from..size])) == (chars[line..end], chars[next..size])
      ensures some <==> line < end
    {
      hide TrimWhite, UpToEol, SkipEol, NextLine;
      line := SkipEolFrom(from);
      var eol := FindEol(line);
      ghost var t, before := chars[line..size], chars[..];
      NextLineIs(chars[from..size], t, eol - line);
      assert t[..eol - line] == chars[line..eol];
      if chars[eol] != NUL {
        next := eol + 1;
        assert t[eol - line + 1..] == chars[next..size];
        end := EndLine(line, eol);
        Within(before, chars[..], from, line);
      } else {
        next, end := eol, eol;
        assert chars[next..size] == [];
      }
      some := chars[line] != NUL;
    }

    // The parts of a line.

    /** Ends the string at `p` where the character at `k` is, and trims it. */
    method CutAt(p: nat, k: nat, ghost end: nat) returns (some: bool)
      requires Stretch(p, end) && p <= k < end
      modifies chars
      ensures chars[..p] == old(chars[..p]) && chars[k + 1..] == old(chars[k + 1..]) && chars[k] == NUL
      ensures Stretch(k + 1, end)
      ensures var r := RTrim(old(chars[p..end])[..k - p]);
        FieldIs(chars[..], Some(p), Some(r), p, k) && (some <==> r != [])
    {
      ghost var text := chars[p..end];
      chars[k] := NUL;
      assert chars[p..k] == text[..k - p];
      some := RTrimAt(p, k);
      FieldAt(chars[..], p, |RTrim(text[..k - p])|, p, k);
    }

    /** What is left of the line behind a comment sign. */
    method CommentFrom(q: nat, ghost end: nat) returns (comment: Option<nat>)
      requires Stretch(q, end)
      ensures FieldIs(chars[..], comment, CommentOf(chars[q..end]), q, end)
    {
      comment := None;
      if IsMagic(chars[q]) {
        comment := Some(q + 1);
        FieldAt(chars[..], q + 1, end - q - 1, q, end);
        assert chars[q + 1..end] == chars[q..end][1..];
      }
    }

    method ParseSectionAt(s: nat, ghost end: nat) returns (p: Option<Pointers>)
      requires Stretch(s, end)
      modifies chars
      ensures chars[..s] == old(chars[..s]) && chars[end..] == old(chars[end..])
      ensures p.Some? <==> ParseSection(old(chars[s..end])).Some?
      ensures p.Some? ==> Gives(chars[..], p.value, ParseSection(old(chars[s..end])).value, s, end)
    {
      hide RTrim, IndexOf, SkipWhite, CommentOf, FieldIs, Gives;
      ghost var text := chars[s..end];
      var k := Find(s, end, ']');
      if chars[k] == NUL {
        return None;
      }
      var some := CutAt(s, k, end);
      assert chars[end..] == old(chars[end..]) by { assert chars[end..] == chars[k + 1..][end - k - 1..]; }
      if !some {
        return None;
      }
      assert chars[k + 1..end] == text[k - s + 1..] by { assert chars[k + 1..end] == chars[k + 1..][..end - k - 1]; }
      var q := SkipWhiteFrom(k + 1, end);
      var comment := CommentFrom(q, end);
      SectionGiven(chars[..], s, k, q, end, text, comment);
      p := Some(Pointers(Some(s), None, None, comment));
    }

    /** The scan for a comment. The first character counts as after white space: `lp[-1]` is, or is a NUL by now. */
    method FindComment(v: nat, ghost end: nat) returns (k: nat)
      requires Stretch(v, end) && v > 0 && IsWhiteOrNul(chars[v - 1])
      ensures k == v + CommentAt(chars[v..end], None, true)
      ensures v <= k && F.CommentBegins(chars[v..end], k - v)
    {
      F.CommentAtIs(chars[v..end], CommentAt(chars[v..end], None, true));
      k := v;
      var inString := None;
      while chars[k] != NUL && !(inString.None? && IsMagic(chars[k]) && IsWhiteOrNul(chars[k - 1]))
        invariant v <= k <= end
        invariant v + CommentAt(chars[v..end], None, true) == k + CommentAt(chars[k..end], inString, IsWhiteOrNul(chars[k - 1]))
        decreases end - k
      {
        assert chars[k..end][1..] == chars[k + 1..end];
        inString := Quoting(inString, chars[k]);
        k := k + 1;
      }
    }

    method ParseValueAt(v: nat, ghost end: nat) returns (comment: Option<nat>)
      requires Stretch(v, end) && v > 0 && IsWhiteOrNul(chars[v - 1])
      modifies chars
      ensures chars[..v] == old(chars[..v]) && chars[end..] == old(chars[end..])
      ensures var e := ParseValue(None, old(chars[v..end]));
        FieldIs(chars[..], Some(v), e.value, v, end) && FieldIs(chars[..], comment, e.comment, v, end)
    {
      ghost var text := chars[v..end];
      var k := FindComment(v, end);
      hide RTrim, CommentAt;
      if chars[k] == NUL {
        FieldAt(chars[..], v, end - v, v, end);
        return None;
      }
      var _ := CutAt(v, k, end);
      assert chars[end..] == old(chars[end..]) by { assert chars[end..] == chars[k + 1..][end - k - 1..]; }
      assert chars[k + 1..end] == text[k - v + 1..] by { assert chars[k + 1..end] == chars[k + 1..][..end - k - 1]; }
      ValueGiven(chars[..], v, k, end, text);
      hide FieldIs;
      comment := Some(k + 1);
    }

    /** What follows the `=`, which is cut off at `k`. */
    method ParseTail(k: nat, ghost end: nat) returns (v: nat, comment: Option<nat>)
      requires k < end && Stretch(k + 1, end) && chars[k] == NUL
      modifies chars
      ensures chars[..k + 1] == old(chars[..k + 1]) && chars[end..] == old(chars[end..])
      ensures var e := ParseValue(None, SkipWhite(old(chars[k + 1..end])));
        FieldIs(chars[..], Some(v), e.value, k + 1, end) && FieldIs(chars[..], comment, e.comment, k + 1, end)
    {
      hide RTrim, CommentAt, SkipWhite, ParseValue, FieldIs;
      v := SkipWhiteFrom(k + 1, end);
      ghost var e := ParseValue(None, chars[v..end]);
      ghost var before := chars[..];
      comment := ParseValueAt(v, end);
      assert chars[..k + 1] == chars[..v][..k + 1] && before[..k + 1] == before[..v][..k + 1];
      FieldKept(chars[..], chars[..], Some(v), e.value, v, end, k + 1, end);
      FieldKept(chars[..], chars[..], comment, e.comment, v, end, k + 1, end);
    }

    method ParseDefinitionAt(l: nat, ghost end: nat) returns (p: Option<Pointers>)
      requires Stretch(l, end)
      modifies chars
      ensures chars[..l] == old(chars[..l]) && chars[end..] == old(chars[end..])
      ensures var text := old(chars[l..end]); var k := IndexOf(text, '=');
        && (p.Some? <==> k < |text|)
        && (p.Some? ==> Gives(chars[..], p.value, ParseValue(Some(RTrim(text[..k])), SkipWhite(text[k + 1..])), l, end))
    {
      hide RTrim, CommentAt, IndexOf, SkipWhite, FieldIs, ParseValue, Gives;
      ghost var text := chars[l..end];
      var k := Find(l, end, '=');
      if chars[k] == NUL {
        return None;
      }
      var _ := CutAt(l, k, end);
      ghost var id, tail := RTrim(text[..k - l]), SkipWhite(text[k - l + 1..]);
      assert chars[end..] == old(chars[end..]) by { assert chars[end..] == chars[k + 1..][end - k - 1..]; }
      assert chars[k + 1..end] == text[k - l + 1..] by { assert chars[k + 1..end] == chars[k + 1..][..end - k - 1]; }
      ghost var before := chars[..];
      var v, comment := ParseTail(k, end);
      assert chars[..l] == chars[..k + 1][..l] && before[..l] == before[..k + 1][..l];
      DefinitionGiven(before, chars[..], l, k, end, id, tail, v, comment);
      p := Some(Pointers(None, Some(l), Some(v), comment));
    }

    /** The body of the loop in `_cfg_parse`, once there is a line. */
    method ParseLineAt(line: nat, ghost end: nat) returns (p: Option<Pointers>)
      requires Stretch(line, end) && line < end
      modifies chars
      ensures chars[..line] == old(chars[..line]) && chars[end..] == old(chars[end..])
      ensures p.Some? <==> ParseLine(old(chars[line..end])).Some?
      ensures p.Some? ==> Gives(chars[..], p.value, ParseLine(old(chars[line..end])).value, line, end)
    {
      hide ParseSection, ParseValue, SkipWhite, Gives, FieldIs, RTrim, IndexOf;
      ghost var text := chars[line..end];
      ghost var before := chars[..];
      assert text[0] == chars[line];
      var isContinue := IsWhite(chars[line]);
      var l := line;
      SkipWhiteFacts(text);
      if isContinue {
        l := SkipWhiteFrom(line, end);
      }
      assert chars[l..end] == SkipWhite(text);
      assert l < end ==> chars[l..end][0] == chars[l];
      if chars[l] == '[' {
        assert chars[l + 1..end] == chars[l..end][1..];
        var s := SkipWhiteFrom(l + 1, end);
        p := ParseSectionAt(s, end);
        Within(before, chars[..], line, s);
        if p.Some? { GivesKept(chars[..], chars[..], p.value, ParseSection(SkipWhite(SkipWhite(text)[1..])).value, s, end, line, end); }
      } else if chars[l] == ';' {
        p := Some(Pointers(None, None, None, Some(l + 1)));
        assert chars[l + 1..end] == chars[l..end][1..];
        CommentGiven(chars[..], l, end);
        GivesKept(chars[..], chars[..], p.value, Entry(None, None, None, Some(SkipWhite(text)[1..])), l, end, line, end);
      } else if isContinue {
        var comment := ParseValueAt(l, end);
        Within(before, chars[..], line, l);
        ContinuationGiven(chars[..], l, end, SkipWhite(text), comment);
        p := Some(Pointers(None, None, Some(l), comment));
        GivesKept(chars[..], chars[..], p.value, ParseValue(None, SkipWhite(text)), l, end, line, end);
      } else {
        p := ParseDefinitionAt(l, end);
      }
    }

    /** One turn of that loop: whatever line it comes to, it goes on behind it. */
    method ParseNext(from: nat) returns (next: nat, p: Option<Pointers>, ghost to: nat)
      requires Stretch(from, size) && from < size
      modifies chars
      ensures from < next <= size && Stretch(next, size) && (to < next || next == size) && to <= size
      ensures chars[..from] == old(chars[..from])
      ensures var (line, rest) := NextLine(old(chars[from..size]));
        && chars[next..size] == rest
        && (p.Some? <==> line != [] && ParseLine(line).Some?)
        && (p.Some? ==> Gives(chars[..], p.value, ParseLine(line).value, from, to))
    {
      hide NextLine, ParseLine, Gives;
      var line, some;
      next, line, to, some := GetLine(from);
      p := None;
      if some {
        ghost var text, before := chars[line..to], chars[..];
        p := ParseLineAt(line, to);
        Within(before, chars[..], from, line);
        assert chars[next..] == chars[to..][next - to..] && before[next..] == before[to..][next - to..];
        assert chars[next..size] == chars[next..][..size - next] && before[next..size] == before[next..][..size - next];
        if p.Some? { GivesKept(chars[..], chars[..], p.value, ParseLine(text).value, line, to, from, to); }
      }
    }

    /**
      `_cfg_parse`: from an image without a NUL in it, the stored pointers are, in the image as it is left, C strings
      that spell the entries of the text as it was, each within the image.
     */
    method Parse() returns (stored: seq<Pointers>)
      requires Stretch(0, size)
      modifies chars
      ensures Valid() && AllGiven(chars[..], stored, ParseText(old(chars[..size])), size)
      ensures EntriesAt(chars[..], stored) == ParseText(old(chars[..size]))
      ensures F.TextSpells(old(chars[..size]), EntriesAt(chars[..], stored))
    {
      hide NextLine, ParseLine, Gives, ParseText;
      F.ParseTextIs(chars[..size], ParseText(chars[..size]));
      stored := [];
      ghost var text, done, limit: nat := chars[..size], [], 0;
      var imgPtr := 0;
      assert chars[0..size] == text;
      while imgPtr < size
        invariant imgPtr <= size && Stretch(imgPtr, size)
        invariant limit <= size && (if imgPtr == 0 then stored == [] && limit == 0 else limit < imgPtr || imgPtr == size)
        invariant done + ParseText(chars[imgPtr..size]) == ParseText(text)
        invariant AllGiven(chars[..], stored, done, limit)
        decreases size - imgPtr
      {
        ghost var before, here := chars[..], chars[imgPtr..size];
        var next, p;
        ghost var to;
        next, p, to := ParseNext(imgPtr);
        ghost var limit' := if to > limit then to else limit;
        AllGivenKept(before, chars[..], stored, done, limit, imgPtr, limit');
        ParseTextStep(done, here);
        if p.Some? {
          ghost var e := ParseLine(NextLine(here).0).value;
          GivesKept(chars[..], chars[..], p.value, e, imgPtr, to, 0, limit');
          AllGivenMore(chars[..], stored, done, limit', p.value, e);
          done := done + [e];
          stored := stored + [p.value];
        }
        imgPtr, limit := next, limit';
      }
      AllGivenKept(chars[..], chars[..], stored, done, limit, size + 1, size);
      assert ParseText(chars[imgPtr..size]) == [] by { assert chars[imgPtr..size] == []; ParseTextOfNothing(); }
      assert done + [] == done;
      GivenEntries(chars[..], stored, done, size);
    }
  }

  lemma NextLineIs(text: string, t: string, n: nat)
    requires t == SkipEol(text) && n == |UpToEol(t)|
    ensures NextLine(text) == if n == |t| then (t[..n], []) else (TrimWhite(t[..n]), t[n + 1..])
  {
    UpToEolFacts(t);
  }

  lemma ParseTextOfNothing()
    ensures ParseText([]) == []
  {}

  lemma ParseTextStep(done: seq<Entry>, text: string)
    requires text != []
    ensures var (line, rest) := NextLine(text);
      done + ParseText(text) ==
        (if line != [] && ParseLine(line).Some? then done + [ParseLine(line).value] else done) + ParseText(rest)
  {
    var (line, rest) := NextLine(text);
    hide NextLine, ParseLine;
    var first := if line == [] then [] else Listed(ParseLine(line));
    assert ParseText(text) == first + ParseText(rest);
    hide ParseText;
    assert done + (first + ParseText(rest)) == (done + first) + ParseText(rest);
    assert done + [] == done;
  }

  lemma AllGivenKept(s: seq<char>, s': seq<char>, ps: seq<Pointers>, es: seq<Entry>, to: nat, from: nat, to': nat)
    requires AllGiven(s, ps, es, to) && from <= |s| == |s'| && s'[..from] == s[..from]
    requires (to < from || ps == []) && to <= to' < |s'|
    ensures AllGiven(s', ps, es, to')
  {
    hide Gives;
    forall i | 0 <= i < |ps| ensures Gives(s', ps[i], es[i], 0, to') {
      assert forall j :: 0 <= j < from ==> s'[..from][j] == s[..from][j];
      GivesKept(s, s', ps[i], es[i], 0, to, 0, to');
    }
  }

  lemma AllGivenMore(s: seq<char>, ps: seq<Pointers>, es: seq<Entry>, to: nat, p: Pointers, e: Entry)
    requires AllGiven(s, ps, es, to) && Gives(s, p, e, 0, to)
    ensures AllGiven(s, ps + [p], es + [e], to)
  {
    hide Gives;
  }

  /** The entries that the pointers give, all of them within the image up to `to`. */
  predicate AllGiven(s: seq<char>, ps: seq<Pointers>, es: seq<Entry>, to: nat) {
    |ps| == |es| && to < |s| && forall i :: 0 <= i < |ps| ==> Gives(s, ps[i], es[i], 0, to)
  }

  lemma Within(before: seq<char>, s: seq<char>, line: nat, l: nat)
    requires line <= l <= |s| == |before| && before[..l] == s[..l]
    ensures before[..line] == s[..line]
  {
    assert before[..line] == before[..l][..line] && s[..line] == s[..l][..line];
  }

  lemma GivesKept(s: seq<char>, s': seq<char>, p: Pointers, e: Entry, from: nat, to: nat, from': nat, to': nat)
    requires Gives(s, p, e, from, to) && from' <= from && to <= to' < |s'| && to < |s|
    requires forall i :: from <= i <= to ==> s'[i] == s[i]
    ensures Gives(s', p, e, from', to')
  {
    hide FieldIs;
    FieldKept(s, s', p.section, e.section, from, to, from', to');
    FieldKept(s, s', p.id, e.id, from, to, from', to');
    FieldKept(s, s', p.value, e.value, from, to, from', to');
    FieldKept(s, s', p.comment, e.comment, from, to, from', to');
  }

  lemma CommentGiven(s: seq<char>, l: nat, end: nat)
    requires l < end < |s| && s[end] == NUL && forall i :: l <= i < end ==> s[i] != NUL
    ensures Gives(s, Pointers(None, None, None, Some(l + 1)), Entry(None, None, None, Some(s[l + 1..end])), l, end)
  {
    FieldAt(s, l + 1, end - l - 1, l, end);
  }

  lemma ValueGiven(s: seq<char>, v: nat, k: nat, end: nat, text: string)
    requires v <= k < end < |s| && k - v == CommentAt(text, None, true) < |text|
    requires FieldIs(s, Some(v), Some(RTrim(text[..k - v])), v, k)
    requires s[k + 1..end] == text[k - v + 1..] && s[end] == NUL && forall i :: k < i < end ==> s[i] != NUL
    ensures var e := ParseValue(None, text); FieldIs(s, Some(v), e.value, v, end) && FieldIs(s, Some(k + 1), e.comment, v, end)
  {
    hide CommentAt, RTrim;
    FieldAt(s, k + 1, end - k - 1, v, end);
    FieldKept(s, s, Some(v), Some(RTrim(text[..k - v])), v, k, v, end);
  }

  lemma ContinuationGiven(s: seq<char>, l: nat, end: nat, text: string, comment: Option<nat>)
    requires var e := ParseValue(None, text); FieldIs(s, Some(l), e.value, l, end) && FieldIs(s, comment, e.comment, l, end)
    ensures Gives(s, Pointers(None, None, Some(l), comment), ParseValue(None, text), l, end)
  {}

  lemma SectionGiven(s: seq<char>, p: nat, k: nat, q: nat, end: nat, text: string, comment: Option<nat>)
    requires p <= k < q <= end < |s| && k == p + IndexOf(text, ']') < p + |text| && RTrim(text[..k - p]) != []
    requires s[q..end] == SkipWhite(text[k - p + 1..])
    requires FieldIs(s, Some(p), Some(RTrim(text[..k - p])), p, k) && FieldIs(s, comment, CommentOf(s[q..end]), q, end)
    ensures Gives(s, Pointers(Some(p), None, None, comment), ParseSection(text).value, p, end)
  {
    hide RTrim, IndexOf, SkipWhite, CommentOf, FieldIs;
    FieldKept(s, s, Some(p), Some(RTrim(text[..k - p])), p, k, p, end);
    FieldKept(s, s, comment, CommentOf(s[q..end]), q, end, p, end);
    NoField(s, p, end);
  }

  lemma DefinitionGiven(before: seq<char>, s: seq<char>, l: nat, k: nat, end: nat, id: string, tail: string, v: nat, comment: Option<nat>)
    requires l <= k < end < |s| == |before| && before[..k + 1] == s[..k + 1]
    requires FieldIs(before, Some(l), Some(id), l, k)
    requires var e := ParseValue(None, tail); FieldIs(s, Some(v), e.value, k + 1, end) && FieldIs(s, comment, e.comment, k + 1, end)
    ensures Gives(s, Pointers(None, Some(l), Some(v), comment), ParseValue(Some(id), tail), l, end)
  {
    forall i | l <= i <= k ensures s[i] == before[i] {
      assert s[..k + 1][i] == before[..k + 1][i];
    }
    FieldKept(before, s, Some(l), Some(id), l, k, l, end);
    var e := ParseValue(None, tail);
    FieldKept(s, s, Some(v), e.value, k + 1, end, l, end);
    FieldKept(s, s, comment, e.comment, k + 1, end, l, end);
    hide FieldIs, CommentAt, RTrim;
    assert FieldIs(s, None, None, l, end) by { NoField(s, l, end); }
  }

  lemma NoField(s: seq<char>, from: nat, to: nat)
    ensures FieldIs(s, None, None, from, to)
  {}

  // Printing.

  /** The scan ahead of a comment for the section it may stick to. */
  method LooksAhead(entries: array<Entry>, from: nat, numEntries: nat) returns (found: bool)
    requires from <= numEntries <= entries.Length
    ensures found <==> SectionAhead(entries[from..numEntries])
  {
    var j := from;
    while j < numEntries
      invariant from <= j <= numEntries
      invariant SectionAhead(entries[from..numEntries]) <==> SectionAhead(entries[j..numEntries])
    {
      assert entries[j..numEntries][1..] == entries[j + 1..numEntries];
      if entries[j].section.Some? {
        return true;
      }
      if entries[j].id.Some? || entries[j].value.Some? {
        return false;
      }
      j := j + 1;
    }
    found := false;
  }

  /** `_cfg_output`. It also works out the longest key of each section, and makes no use of it. */
  method Output(entries: array<Entry>, numEntries: nat) returns (out: string)
    requires numEntries <= entries.Length
    ensures out == Text(entries[..numEntries], false)
    ensures out == F.Printed(entries[..numEntries], 0)
  {
    F.TextIs(entries[..numEntries]);
    out := "";
    var i, skip := 0, false;
    assert entries[0..numEntries] == entries[..numEntries];
    while i < numEntries
      invariant i <= numEntries
      invariant out + Text(entries[i..numEntries], skip) == Text(entries[..numEntries], false)
    {
      hide LineOf, CommentText;
      var e := entries[i];
      ghost var left, before := entries[i..numEntries], out;
      assert left[1..] == entries[i + 1..numEntries];
      TextCons(left, skip);
      var gap := false;
      var after := skip;
      if e.section.Some? {
        gap := skip;
        after := true;
      } else if e.value.None? && e.comment.Some? {
        if skip && StartsBlock(e.comment.value) {
          gap := LooksAhead(entries, i + 1, numEntries);
          if gap {
            after := false;
          }
        }
      }
      assert gap == GapBefore(left, skip) && after == SkipAfter(left, skip);
      if gap {
        out := out + "\n";
      }
      out := out + LineOf(e) + "\n";
      PrintedSoFar(before, if gap then "\n" else "", LineOf(e), Text(left[1..], after));
      i, skip := i + 1, after;
    }
    assert entries[i..numEntries] == [];
  }

  lemma PrintedSoFar(a: string, gap: string, line: string, rest: string)
    ensures a + (gap + line + "\n" + rest) == a + gap + line + "\n" + rest
    ensures gap == "" ==> a + gap == a
  {}
}
