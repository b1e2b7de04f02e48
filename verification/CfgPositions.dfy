/** What lookups find and what deletions take out, said by the positions of the entries and their characters alone. */
module CfgPositions {
  import opened Options
  import opened CfgEntries
  import opened CfgFormat

  // Ids.

  /** `s` is `name` behind any quotes, up to the next quote or the end. */
  ghost predicate SpellsId(s: string, name: string) {
    name != [] && NoneIn(name, QUOTES) && exists q, rest :: IsSpelling(s, q, name, rest)
  }

  ghost predicate IsSpelling(s: string, q: string, name: string, rest: string) {
    s == q + name + rest && AllIn(q, QUOTES) && (rest != [] ==> rest[0] in QUOTES)
  }

  lemma {:induction false} QuotesAreSkipped(q: string, t: string)
    requires AllIn(q, QUOTES) && (t != [] ==> t[0] !in QUOTES)
    ensures SkipQuotes(q + t) == t
  {
    if q == [] {
      assert q + t == t;
      if t != [] { Characters(t[0]); }
    } else {
      Characters(q[0]);
      assert (q + t)[1..] == q[1..] + t;
      QuotesAreSkipped(q[1..], t);
    }
  }

  lemma {:induction false} UpToNextQuote(name: string, rest: string)
    requires NoneIn(name, QUOTES) && (rest != [] ==> rest[0] in QUOTES)
    ensures UpToQuote(name + rest) == name
  {
    if name == [] {
      assert name + rest == rest;
      if rest != [] { Characters(rest[0]); }
    } else {
      Characters(name[0]);
      assert (name + rest)[1..] == name[1..] + rest;
      UpToNextQuote(name[1..], rest);
    }
  }

  /** Quotes around a name do not change what it is. */
  lemma QuotedName(q: string, name: string, rest: string)
    requires name != [] && NoneIn(name, QUOTES) && AllIn(q, QUOTES) && (rest != [] ==> rest[0] in QUOTES)
    ensures Unquoted(q + name + rest) == Some(name)
  {
    assert q + name + rest == q + (name + rest);
    QuotesAreSkipped(q, name + rest);
    UpToNextQuote(name, rest);
  }

  lemma {:induction false} SkippedQuotes(s: string)
    ensures |SkipQuotes(s)| <= |s| && AllIn(s[..|s| - |SkipQuotes(s)|], QUOTES)
    decreases |s|
  {
    if s != [] && IsQuote(s[0]) {
      Characters(s[0]);
      SkipQuotesIsSuffix(s);
      SkipQuotesIsSuffix(s[1..]);
      SkippedQuotes(s[1..]);
      assert s[..|s| - |SkipQuotes(s)|] == [s[0]] + s[1..][..|s| - 1 - |SkipQuotes(s[1..])|];
    } else {
      assert s[..0] == [];
    }
  }

  lemma {:induction false} QuoteBehind(s: string)
    ensures |UpToQuote(s)| <= |s| && (|UpToQuote(s)| < |s| ==> s[|UpToQuote(s)|] in QUOTES) && NoneIn(UpToQuote(s), QUOTES)
  {
    if s != [] {
      Characters(s[0]);
      QuoteBehind(s[1..]);
    }
  }

  /** An id is looked up by the one name it spells. */
  lemma UnquotedIs(s: string, name: string)
    ensures Unquoted(s) == Some(name) <==> SpellsId(s, name)
  {
    hide Unquoted, IsSpelling;
    if SpellsId(s, name) {
      var q, rest :| IsSpelling(s, q, name, rest);
      SpellingIs(s, q, name, rest);
    }
    if Unquoted(s) == Some(name) { var q, rest := SpellingOf(s, name); }
  }

  lemma SpellingIs(s: string, q: string, name: string, rest: string)
    requires name != [] && NoneIn(name, QUOTES) && IsSpelling(s, q, name, rest)
    ensures Unquoted(s) == Some(name)
  {
    QuotedName(q, name, rest);
  }

  lemma SpellingOf(s: string, name: string) returns (q: string, rest: string)
    requires Unquoted(s) == Some(name)
    ensures name != [] && NoneIn(name, QUOTES) && IsSpelling(s, q, name, rest)
  {
    hide SkipQuotes, UpToQuote, AllIn, NoneIn;
    var t := SkipQuotes(s);
    SkipQuotesIsSuffix(s);
    SkippedQuotes(s);
    QuoteBehind(t);
    UpToQuoteIsPrefix(t);
    q, rest := s[..|s| - |t|], t[|name|..];
    assert t == name + rest;
    assert s == q + t == q + name + rest;
    assert name != [] by { NotEmpty(t); }
  }

  lemma NotEmpty(t: string)
    requires t != [] && !IsQuote(t[0])
    ensures UpToQuote(t) != []
  {}

  /** Only an id of nothing but quotes has no name. */
  lemma UnquotedIsNone(s: string)
    ensures Unquoted(s) == None <==> AllIn(s, QUOTES)
  {
    SkipQuotesIsSuffix(s);
    SkippedQuotes(s);
    if AllIn(s, QUOTES) {
      assert s == s + [];
      QuotesAreSkipped(s, []);
    }
  }

  // Lookups.

  /** `s` is the first section of the name. */
  ghost predicate IsFirstSection(es: seq<Entry>, section: string, s: nat) {
    s < |es| && es[s].section == Some(section) && forall i :: 0 <= i < s ==> es[i].section != Some(section)
  }

  ghost predicate Defines(e: Entry, id: string) {
    e.section.None? && e.value.Some? && e.id.Some? && SpellsId(e.id.value, id)
  }

  /** `k` is the first definition of `id`, however it is quoted, between section `s` and the next. */
  ghost predicate IsFirstDefinition(es: seq<Entry>, s: nat, id: string, k: nat) {
    && s < k < |es| && Defines(es[k], id)
    && forall i :: s < i < k ==> es[i].section.None? && !Defines(es[i], id)
  }

  lemma ReadsIs(e: Entry, id: string)
    ensures Reads(e, id) <==> Defines(e, id)
  {
    if e.id.Some? { UnquotedIs(e.id.value, id); }
  }

  lemma {:induction false} InsideIs(es: seq<Entry>, from: nat, section: string, id: string, k: nat)
    requires from <= k <= |es| && forall i :: from <= i < k ==> es[i].section.None? && !Defines(es[i], id)
    ensures Steps(Inside, es[from..], section, id) == Steps(Inside, es[k..], section, id)
    decreases k - from
  {
    if from < k {
      hide Reads, Defines;
      ReadsIs(es[from], id);
      assert es[from..][1..] == es[from + 1..];
      InsideIs(es, from + 1, section, id, k);
    }
  }

  lemma EntersSection(es: seq<Entry>, section: string, id: string, s: nat)
    requires IsFirstSection(es, section, s)
    ensures Lookup(es, section, id) == Answer(Steps(Inside, es[s + 1..], section, id))
  {
    assert es == es[..s] + ([es[s]] + es[s + 1..]);
    StepsAppend(Looking, es[..s], [es[s]] + es[s + 1..], section, id);
    StillLooking(es[..s], section, id);
    StepsCons(Looking, es[s], es[s + 1..], section, id);
  }

  lemma StepsFrom(st: Search, es: seq<Entry>, k: nat, section: string, id: string)
    requires k < |es|
    ensures Steps(st, es[k..], section, id) == Steps(Step(st, es[k], section, id), es[k + 1..], section, id)
  {
    assert es[k..][1..] == es[k + 1..];
  }

  /** A lookup finds the first definition of the id in the first section of that name. */
  lemma DefinitionIsFound(es: seq<Entry>, section: string, id: string, s: nat, k: nat)
    requires IsFirstSection(es, section, s) && IsFirstDefinition(es, s, id, k)
    ensures Lookup(es, section, id) == es[k].value
  {
    hide IsFirstSection, Reads, Defines, Steps, Lookup;
    EntersSection(es, section, id, s);
    InsideIs(es, s + 1, section, id, k);
    StepsFrom(Inside, es, k, section, id);
    ReadsIs(es[k], id);
    assert es[k].section.None? && es[k].value.Some? by { DefinesHas(es[k], id); }
    FoundStays(es[k].value.value, es[k + 1..], section, id);
  }

  lemma DefinesHas(e: Entry, id: string)
    requires Defines(e, id)
    ensures e.section.None? && e.value.Some?
  {}

  /** The first definition from `from` on, the next section, or the end. */
  lemma {:induction false} SearchSection(es: seq<Entry>, from: nat, id: string) returns (k: nat)
    requires from <= |es|
    ensures from <= k <= |es| && (k < |es| ==> es[k].section.Some? || Defines(es[k], id))
    ensures forall i :: from <= i < k ==> es[i].section.None? && !Defines(es[i], id)
    decreases |es| - from
  {
    k := from;
    if from < |es| && es[from].section.None? && !Defines(es[from], id) { k := SearchSection(es, from + 1, id); }
  }

  /** A lookup that finds something finds it there, and one that finds nothing has nowhere to find it. */
  lemma LookupIs(es: seq<Entry>, section: string, id: string)
    ensures Lookup(es, section, id).Some? <==> exists s: nat, k: nat :: IsFirstSection(es, section, s) && IsFirstDefinition(es, s, id, k)
    ensures forall s: nat, k: nat :: IsFirstSection(es, section, s) && IsFirstDefinition(es, s, id, k) ==> Lookup(es, section, id) == es[k].value
  {
    hide Lookup, Defines;
    forall s: nat, k: nat | IsFirstSection(es, section, s) && IsFirstDefinition(es, s, id, k)
      ensures Lookup(es, section, id) == es[k].value && es[k].value.Some?
    {
      DefinesHas(es[k], id);
      DefinitionIsFound(es, section, id, s, k);
    }
    var s := SectionFrom(es, 0, section);
    if s == |es| {
      NoSectionNoLookup(es, section, id);
    } else {
      assert IsFirstSection(es, section, s);
      var k := SearchSection(es, s + 1, id);
      if k < |es| && es[k].section.None? {
        assert IsFirstDefinition(es, s, id, k);
      } else {
        NothingDefined(es, section, id, s, k);
      }
    }
  }

  lemma NothingDefined(es: seq<Entry>, section: string, id: string, s: nat, k: nat)
    requires IsFirstSection(es, section, s) && s < k <= |es| && (k < |es| ==> es[k].section.Some?)
    requires forall i :: s < i < k ==> es[i].section.None? && !Defines(es[i], id)
    ensures Lookup(es, section, id) == None
  {
    hide Lookup, Steps, Defines, IsFirstSection;
    EntersSection(es, section, id, s);
    InsideIs(es, s + 1, section, id, k);
    InsideEnds(es, k, section, id);
  }

  /** A key is found by its name in whatever quotes the file has it, if nothing before it in the section has that name. */
  lemma QuotedKeyIsFound(es: seq<Entry>, section: string, s: nat, k: nat, q: string, name: string, rest: string, value: string)
    requires IsFirstSection(es, section, s) && s < k < |es| && es[k] == KeyEntry(q + name + rest, value)
    requires name != [] && NoneIn(name, QUOTES) && AllIn(q, QUOTES) && (rest != [] ==> rest[0] in QUOTES)
    requires forall i :: s < i < k ==> es[i].section.None? && !Defines(es[i], name)
    ensures Lookup(es, section, name) == Some(value)
  {
    hide Lookup, Defines, IsFirstSection;
    QuotedName(q, name, rest);
    UnquotedIs(q + name + rest, name);
    assert Defines(es[k], name) by { IsDefinedByName(q + name + rest, name, value); }
    DefinitionIsFound(es, section, name, s, k);
  }

  lemma IsDefinedByName(s: string, name: string, value: string)
    requires SpellsId(s, name)
    ensures Defines(KeyEntry(s, value), name)
  {}

  // Deletions.

  /** A line of its own with a comment that is empty or begins with a blank or a comment sign. */
  ghost predicate IsAttached(e: Entry) {
    && e.section.None? && e.id.None? && e.value.None? && e.comment.Some?
    && (e.comment.value == "" || e.comment.value[0] in BLANKS || e.comment.value[0] in COMMENT_SIGNS)
  }

  lemma IsAttachedIs(e: Entry)
    ensures IsAttached(e) <==> IsBlockComment(e)
  {
    if e.comment.Some? && e.comment.value != "" { Characters(e.comment.value[0]); }
  }

  /** `j` is where the comments attached to entry `k` begin. */
  ghost predicate AttachedFrom(es: seq<Entry>, j: nat, k: nat) {
    j <= k <= |es| && (forall i :: j <= i < k ==> IsAttached(es[i])) && (j > 0 ==> !IsAttached(es[j - 1]))
  }

  lemma RunStartIs(es: seq<Entry>, j: nat, k: nat)
    requires k <= |es|
    ensures AttachedFrom(es, j, k) <==> j == RunStart(es, k)
  {
    hide IsAttached, IsBlockComment;
    forall i: nat | i < |es| ensures IsAttached(es[i]) <==> IsBlockComment(es[i]) { IsAttachedIs(es[i]); }
  }

  /** `k` is the first entry of section `s` with this very id, quotes and all. */
  ghost predicate IsFirstSpelled(es: seq<Entry>, s: nat, id: string, k: nat) {
    && s < k < |es| && es[k].section.None? && es[k].id == Some(id)
    && forall i :: s < i < k ==> es[i].section.None? && es[i].id != Some(id)
  }

  /** `to` is `es` without the first entry spelled like the id and the comments attached to it, if there is one. */
  ghost predicate TakesOutKey(es: seq<Entry>, to: seq<Entry>, section: string, id: string) {
    || (exists s: nat, j: nat, k: nat :: IsKeyStretch(es, section, id, s, j, k) && to == es[..j] + es[k + 1..])
    || (to == es && forall s: nat, k: nat :: IsFirstSection(es, section, s) ==> !IsFirstSpelled(es, s, id, k))
  }

  /** Entries `j` to `k` go with a key: it is the last of them, the others are attached to it, and no other entry is. */
  ghost predicate IsKeyStretch(es: seq<Entry>, section: string, id: string, s: nat, j: nat, k: nat) {
    IsFirstSection(es, section, s) && IsFirstSpelled(es, s, id, k) && s < j && AttachedFrom(es, j, k)
  }

  lemma KeyStretchIs(es: seq<Entry>, section: string, id: string, s: nat, j: nat, k: nat)
    ensures IsKeyStretch(es, section, id, s, j, k) <==>
      && s == SectionFrom(es, 0, section) < |es| && k == KeyFrom(es, s + 1, id) < |es|
      && es[k].section.None? && j == RunStart(es, k)
  {
    hide IsAttached, RunStart, IsBlockComment;
    if k < |es| { RunStartIs(es, j, k); }
    if s < |es| && es[s].section.Some? { HeadingIsNotAttached(es[s]); }
  }

  lemma HeadingIsNotAttached(e: Entry)
    requires e.section.Some?
    ensures !IsAttached(e) && !IsBlockComment(e)
  {}

  /** A deletion takes out just that stretch; every other entry keeps its place. */
  lemma DeletedIs(es: seq<Entry>, to: seq<Entry>, section: string, id: string)
    ensures TakesOutKey(es, to, section, id) <==> to == Deleted(es, section, id)
  {
    hide IsKeyStretch, AttachedFrom, RunStart;
    forall s: nat, j: nat, k: nat | IsKeyStretch(es, section, id, s, j, k)
      ensures k < |es| && j <= k && Deleted(es, section, id) == es[..j] + es[k + 1..]
    {
      KeyStretchIs(es, section, id, s, j, k);
    }
    var s := SectionFrom(es, 0, section);
    if s < |es| {
      assert IsFirstSection(es, section, s);
      var k := KeyFrom(es, s + 1, id);
      if k < |es| && es[k].section.None? {
        assert IsFirstSpelled(es, s, id, k);
        KeyStretchIs(es, section, id, s, RunStart(es, k), k);
      }
    }
  }

  /** `end` is the next section after `s`, or the end. */
  ghost predicate IsNextSection(es: seq<Entry>, s: nat, end: nat) {
    s < end <= |es| && (end < |es| ==> es[end].section.Some?) && forall i :: s < i < end ==> es[i].section.None?
  }

  /** Entries `a` up to `b` go with a section: its own comments and all of it but the comments of the next one. */
  ghost predicate IsSectionStretch(es: seq<Entry>, section: string, s: nat, a: nat, end: nat, b: nat) {
    IsFirstSection(es, section, s) && AttachedFrom(es, a, s) && IsNextSection(es, s, end) && s < b && AttachedFrom(es, b, end)
  }

  ghost predicate TakesOutSection(es: seq<Entry>, to: seq<Entry>, section: string) {
    || (exists s: nat, a: nat, end: nat, b: nat :: IsSectionStretch(es, section, s, a, end, b) && to == es[..a] + es[b..])
    || (to == es && forall s: nat :: !IsFirstSection(es, section, s))
  }

  lemma SectionStretchIs(es: seq<Entry>, section: string, s: nat, a: nat, end: nat, b: nat)
    ensures IsSectionStretch(es, section, s, a, end, b) <==>
      && s == SectionFrom(es, 0, section) < |es| && end == NextSection(es, s + 1)
      && a == RunStart(es, s) && b == RunStart(es, end)
  {
    hide IsAttached, RunStart, IsBlockComment;
    if s < |es| { RunStartIs(es, a, s); }
    if end <= |es| { RunStartIs(es, b, end); }
    if s < |es| && es[s].section.Some? { HeadingIsNotAttached(es[s]); }
  }

  /** Deleting a section takes out just its stretch; every other entry keeps its place. */
  lemma SectionDeletedIs(es: seq<Entry>, to: seq<Entry>, section: string)
    ensures TakesOutSection(es, to, section) <==> to == SectionDeleted(es, section)
  {
    hide IsSectionStretch, AttachedFrom, RunStart, IsNextSection;
    forall s: nat, a: nat, end: nat, b: nat | IsSectionStretch(es, section, s, a, end, b)
      ensures a <= |es| && b <= |es| && SectionDeleted(es, section) == es[..a] + es[b..]
    {
      SectionStretchIs(es, section, s, a, end, b);
    }
    var s := SectionFrom(es, 0, section);
    if s < |es| {
      assert IsFirstSection(es, section, s);
      var end := NextSection(es, s + 1);
      SectionStretchIs(es, section, s, RunStart(es, s), end, RunStart(es, end));
    }
  }
}
