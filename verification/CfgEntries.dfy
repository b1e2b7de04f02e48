/** What ctcpsvr/cfgfile.cpp keeps of a configuration file: its entries in order, and what looking one up means. */
module CfgEntries {
  import opened Options

  /** `TCFGENTRY`: each field may be NULL. */
  datatype Entry = Entry(
    section: Option<string>,
    id: Option<string>,
    value: Option<string>,
    comment: Option<string>)

  function SectionEntry(section: string): Entry { Entry(Some(section), None, None, None) }

  function KeyEntry(id: string, value: string): Entry { Entry(None, Some(id), Some(value), None) }

  // Quotes around an id are not part of it.

  predicate IsQuote(c: char) { c == '\'' || c == '\"' }

  function SkipQuotes(s: string): string {
    if s != [] && IsQuote(s[0]) then SkipQuotes(s[1..]) else s
  }

  function UpToQuote(s: string): string {
    if s == [] || IsQuote(s[0]) then [] else [s[0]] + UpToQuote(s[1..])
  }

  /** `remove_quotes`: without leading quotes, and up to the next one; NULL when nothing is left. */
  function Unquoted(s: string): Option<string> {
    var t := SkipQuotes(s);
    if t == [] then None else Some(UpToQuote(t))
  }

  ghost predicate QuoteFree(s: string) {
    s != [] && forall i :: 0 <= i < |s| ==> !IsQuote(s[i])
  }

  /** An id is what it is looked up by exactly when it is not empty and has no quotes. */
  lemma UnquotedIsSame(s: string)
    ensures Unquoted(s) == Some(s) <==> QuoteFree(s)
  {
    UpToQuoteIsPrefix(SkipQuotes(s));
    SkipQuotesIsSuffix(s);
    assert QuoteFree(s) ==> SkipQuotes(s) == s;
  }

  lemma {:induction false} UpToQuoteIsPrefix(s: string)
    ensures |UpToQuote(s)| <= |s| && UpToQuote(s) == s[..|UpToQuote(s)|]
    ensures UpToQuote(s) == s <==> forall i :: 0 <= i < |s| ==> !IsQuote(s[i])
    ensures forall i :: 0 <= i < |UpToQuote(s)| ==> !IsQuote(UpToQuote(s)[i])
    decreases |s|
  {
    if s != [] && !IsQuote(s[0]) {
      UpToQuoteIsPrefix(s[1..]);
      assert s == [s[0]] + s[1..];
    }
  }

  lemma {:induction false} SkipQuotesIsSuffix(s: string)
    ensures |SkipQuotes(s)| <= |s| && SkipQuotes(s) == s[|s| - |SkipQuotes(s)|..]
    ensures SkipQuotes(s) == [] || !IsQuote(SkipQuotes(s)[0])
    decreases |s|
  {
    if s != [] && IsQuote(s[0]) { SkipQuotesIsSuffix(s[1..]); }
  }

  // Lookups.

  /** The entry is what a lookup of `id` within its section stops at. */
  predicate Reads(e: Entry, id: string) {
    e.section.None? && e.value.Some? && e.id.Some? && Unquoted(e.id.value) == Some(id)
  }

  /** Where a lookup stands: before the section, in it, past it, or done. */
  datatype Search = Looking | Inside | Past | Found(value: string)

  function Step(st: Search, e: Entry, section: string, id: string): Search {
    match st
    case Looking => if e.section == Some(section) then Inside else Looking
    case Inside => if e.section.Some? then Past else if Reads(e, id) then Found(e.value.value) else Inside
    case _ => st
  }

  function Steps(st: Search, es: seq<Entry>, section: string, id: string): Search
    decreases |es|
  {
    if es == [] then st else Steps(Step(st, es[0], section, id), es[1..], section, id)
  }

  function Answer(st: Search): Option<string> {
    if st.Found? then Some(st.value) else None
  }

  /** What `cfg_find` finds: the first definition of `id` in the first section of that name. */
  function Lookup(es: seq<Entry>, section: string, id: string): Option<string> {
    Answer(Steps(Looking, es, section, id))
  }

  predicate HasSection(es: seq<Entry>, section: string) {
    exists i :: 0 <= i < |es| && es[i].section == Some(section)
  }

  lemma {:induction false} StepsAppend(st: Search, a: seq<Entry>, b: seq<Entry>, section: string, id: string)
    ensures Steps(st, a + b, section, id) == Steps(Steps(st, a, section, id), b, section, id)
    decreases |a|
  {
    if a == [] {
      assert a + b == b;
    } else {
      assert (a + b)[1..] == a[1..] + b;
      StepsAppend(Step(st, a[0], section, id), a[1..], b, section, id);
    }
  }

  lemma StepsCons(st: Search, e: Entry, es: seq<Entry>, section: string, id: string)
    ensures Steps(st, [e] + es, section, id) == Steps(Step(st, e, section, id), es, section, id)
  {
    assert ([e] + es)[1..] == es;
  }

  // Writing.

  /** `cfg_write` of a value once the section is found: update, or add before the next section or at the end. */
  function WrittenIn(es: seq<Entry>, id: string, value: string): seq<Entry>
    decreases |es|
  {
    if es == [] || es[0].section.Some? then [KeyEntry(id, value)] + es
    else if es[0].id == Some(id) then [es[0].(value := Some(value))] + es[1..]
    else [es[0]] + WrittenIn(es[1..], id, value)
  }

  function Written(es: seq<Entry>, section: string, id: string, value: string): seq<Entry>
    decreases |es|
  {
    if es == [] then [SectionEntry(section), KeyEntry(id, value)]
    else if es[0].section == Some(section) then [es[0]] + WrittenIn(es[1..], id, value)
    else [es[0]] + Written(es[1..], section, id, value)
  }

  /** Some earlier entry of the section is looked up like `id` without being spelled like it. */
  predicate ShadowedIn(es: seq<Entry>, id: string)
    decreases |es|
  {
    es != [] && es[0].section.None? && es[0].id != Some(id) && (Reads(es[0], id) || ShadowedIn(es[1..], id))
  }

  predicate Shadowed(es: seq<Entry>, section: string, id: string)
    decreases |es|
  {
    es != [] && if es[0].section == Some(section) then ShadowedIn(es[1..], id) else Shadowed(es[1..], section, id)
  }

  lemma {:induction false} WrittenInIsFound(es: seq<Entry>, section: string, id: string, value: string)
    requires QuoteFree(id)
    ensures Steps(Inside, WrittenIn(es, id, value), section, id) ==
      if ShadowedIn(es, id) then Steps(Inside, es, section, id) else Found(value)
    decreases |es|
  {
    UnquotedIsSame(id);
    if es == [] || es[0].section.Some? {
      StepsCons(Inside, KeyEntry(id, value), es, section, id);
      FoundStays(value, es, section, id);
    } else if es[0].id == Some(id) {
      StepsCons(Inside, es[0].(value := Some(value)), es[1..], section, id);
      FoundStays(value, es[1..], section, id);
    } else {
      StepsCons(Inside, es[0], WrittenIn(es[1..], id, value), section, id);
      if Reads(es[0], id) {
        FoundStays(es[0].value.value, WrittenIn(es[1..], id, value), section, id);
        FoundStays(es[0].value.value, es[1..], section, id);
      } else {
        WrittenInIsFound(es[1..], section, id, value);
      }
    }
  }

  lemma {:induction false} FoundStays(value: string, es: seq<Entry>, section: string, id: string)
    ensures Steps(Found(value), es, section, id) == Found(value)
    decreases |es|
  {
    if es != [] { FoundStays(value, es[1..], section, id); }
  }

  lemma {:induction false} PastStays(es: seq<Entry>, section: string, id: string)
    ensures Steps(Past, es, section, id) == Past
    decreases |es|
  {
    if es != [] { PastStays(es[1..], section, id); }
  }

  lemma {:induction false} WrittenIsFound(es: seq<Entry>, section: string, id: string, value: string)
    requires QuoteFree(id)
    ensures Steps(Looking, Written(es, section, id, value), section, id) ==
      if Shadowed(es, section, id) then Steps(Looking, es, section, id) else Found(value)
    decreases |es|
  {
    if es == [] {
      UnquotedIsSame(id);
      assert [SectionEntry(section), KeyEntry(id, value)] == [SectionEntry(section)] + WrittenIn([], id, value);
      StepsCons(Looking, SectionEntry(section), WrittenIn([], id, value), section, id);
      WrittenInIsFound([], section, id, value);
    } else if es[0].section == Some(section) {
      StepsCons(Looking, es[0], WrittenIn(es[1..], id, value), section, id);
      WrittenInIsFound(es[1..], section, id, value);
    } else {
      StepsCons(Looking, es[0], Written(es[1..], section, id, value), section, id);
      WrittenIsFound(es[1..], section, id, value);
    }
  }

  /** No lookup stops at anything for an id with quotes in it, or for the empty one. */
  lemma {:induction false} OddIdsAreNeverFound(st: Search, es: seq<Entry>, section: string, id: string)
    requires !QuoteFree(id) && !st.Found?
    ensures !Steps(st, es, section, id).Found?
    decreases |es|
  {
    if es != [] {
      if es[0].id.Some? { UnquotedIsQuoteFree(es[0].id.value); }
      OddIdsAreNeverFound(Step(st, es[0], section, id), es[1..], section, id);
    }
  }

  lemma UnquotedIsQuoteFree(s: string)
    ensures Unquoted(s).Some? ==> QuoteFree(Unquoted(s).value)
  {
    SkipQuotesIsSuffix(s);
    UpToQuoteIsPrefix(SkipQuotes(s));
  }

  /**
    Writing and finding: exactly when a written value is what a lookup then returns. The id must be one that
    can be looked up at all, and no earlier entry of the section may be looked up like it, unless that one
    has the same value already. Without quotes in the file both are given (see `PlainIdsAreNotShadowed`).
   */
  lemma WriteThenFind(es: seq<Entry>, section: string, id: string, value: string)
    ensures Lookup(Written(es, section, id, value), section, id) == Some(value) <==>
      QuoteFree(id) && (Shadowed(es, section, id) ==> Lookup(es, section, id) == Some(value))
  {
    if QuoteFree(id) {
      WrittenIsFound(es, section, id, value);
    } else {
      OddIdsAreNeverFound(Looking, Written(es, section, id, value), section, id);
    }
  }

  ghost predicate PlainIds(es: seq<Entry>) {
    forall i :: 0 <= i < |es| && es[i].id.Some? ==> QuoteFree(es[i].id.value)
  }

  lemma {:induction false} PlainIdsAreNotShadowedIn(es: seq<Entry>, id: string)
    requires PlainIds(es)
    ensures !ShadowedIn(es, id)
    decreases |es|
  {
    if es != [] {
      if es[0].id.Some? {
        assert QuoteFree(es[0].id.value);
        UnquotedIsSame(es[0].id.value);
      }
      PlainIdsAreNotShadowedIn(es[1..], id);
    }
  }

  lemma {:induction false} PlainIdsAreNotShadowed(es: seq<Entry>, section: string, id: string)
    requires PlainIds(es)
    ensures !Shadowed(es, section, id)
    decreases |es|
  {
    if es != [] {
      PlainIdsAreNotShadowedIn(es[1..], id);
      PlainIdsAreNotShadowed(es[1..], section, id);
    }
  }

  lemma {:induction false} WrittenInKeepsPlainIds(es: seq<Entry>, id: string, value: string)
    requires PlainIds(es) && QuoteFree(id)
    ensures PlainIds(WrittenIn(es, id, value))
    decreases |es|
  {
    if es != [] && es[0].section.None? && es[0].id != Some(id) { WrittenInKeepsPlainIds(es[1..], id, value); }
  }

  lemma {:induction false} WrittenKeepsPlainIds(es: seq<Entry>, section: string, id: string, value: string)
    requires PlainIds(es) && QuoteFree(id)
    ensures PlainIds(Written(es, section, id, value))
    decreases |es|
  {
    if es != [] {
      WrittenInKeepsPlainIds(es[1..], id, value);
      WrittenKeepsPlainIds(es[1..], section, id, value);
    }
  }

  /** The store is a map where ids are plain: a write sets its own pair, keeps every other, and keeps ids plain. */
  lemma WriteIsMapUpdate(es: seq<Entry>, section: string, id: string, value: string, section': string, id': string)
    requires PlainIds(es) && QuoteFree(id)
    ensures PlainIds(Written(es, section, id, value))
    ensures Lookup(Written(es, section, id, value), section', id') ==
      if section' == section && id' == id then Some(value) else Lookup(es, section', id')
  {
    WrittenKeepsPlainIds(es, section, id, value);
    PlainIdsAreNotShadowed(es, section, id);
    WriteThenFind(es, section, id, value);
    UnquotedIsSame(id);
    if section' != section || id' != id {
      WriteKeepsOthers(es, section, id, value, section', id');
    }
  }

  // Everything else stays.

  lemma {:induction false} WrittenInKeepsOthers(st: Search, es: seq<Entry>, id: string, value: string, section': string, id': string)
    requires st == Inside ==> Unquoted(id) != Some(id')
    ensures Steps(st, WrittenIn(es, id, value), section', id') == Steps(st, es, section', id')
    decreases |es|
  {
    if es == [] || es[0].section.Some? {
      StepsCons(st, KeyEntry(id, value), es, section', id');
    } else if es[0].id == Some(id) {
      StepsCons(st, es[0].(value := Some(value)), es[1..], section', id');
    } else {
      StepsCons(st, es[0], WrittenIn(es[1..], id, value), section', id');
      WrittenInKeepsOthers(Step(st, es[0], section', id'), es[1..], id, value, section', id');
    }
  }

  lemma {:induction false} WrittenKeepsOthers(st: Search, es: seq<Entry>, section: string, id: string, value: string,
                                              section': string, id': string)
    requires section' != section || Unquoted(id) != Some(id')
    requires section' == section ==> st != Inside
    ensures Answer(Steps(st, Written(es, section, id, value), section', id')) == Answer(Steps(st, es, section', id'))
    decreases |es|
  {
    if es == [] {
      var new2 := [KeyEntry(id, value)];
      assert [SectionEntry(section), KeyEntry(id, value)] == [SectionEntry(section)] + new2;
      StepsCons(st, SectionEntry(section), new2, section', id');
      var st' := Step(st, SectionEntry(section), section', id');
      assert new2 == new2 + [];
      StepsCons(st', KeyEntry(id, value), [], section', id');
    } else if es[0].section == Some(section) {
      StepsCons(st, es[0], WrittenIn(es[1..], id, value), section', id');
      WrittenInKeepsOthers(Step(st, es[0], section', id'), es[1..], id, value, section', id');
    } else {
      StepsCons(st, es[0], Written(es[1..], section, id, value), section', id');
      WrittenKeepsOthers(Step(st, es[0], section', id'), es[1..], section, id, value, section', id');
    }
  }

  /** Whatever quotes there are: only the lookup that the written id spells can change. */
  lemma WriteKeepsOthers(es: seq<Entry>, section: string, id: string, value: string, section': string, id': string)
    requires section' != section || Unquoted(id) != Some(id')
    ensures Lookup(Written(es, section, id, value), section', id') == Lookup(es, section', id')
  {
    WrittenKeepsOthers(Looking, es, section, id, value, section', id');
  }

  // Deleting.

  predicate IsWhite(c: char) { c == '\U{000C}' || c == '\t' || c == ' ' }

  predicate IsMagic(c: char) { c == ';' || c == '#' }

  /** A comment that is not a definition commented out. C's `strchr` also finds the end of an empty one. */
  predicate StartsBlock(comment: string) {
    comment == [] || IsWhite(comment[0]) || IsMagic(comment[0])
  }

  /** A comment of its own line that sticks to what follows it. */
  predicate IsBlockComment(e: Entry) {
    e.comment.Some? && e.section.None? && e.id.None? && e.value.None? && StartsBlock(e.comment.value)
  }

  /** Where the run of such comments before entry `k` begins. */
  function RunStart(es: seq<Entry>, k: nat): (j: nat)
    requires k <= |es|
    ensures j <= k && (forall i :: j <= i < k ==> IsBlockComment(es[i])) && (j > 0 ==> !IsBlockComment(es[j - 1]))
  {
    if k > 0 && IsBlockComment(es[k - 1]) then RunStart(es, k - 1) else k
  }

  /** The first entry from `from` on that names the section, or the end. */
  function SectionFrom(es: seq<Entry>, from: nat, section: string): (k: nat)
    requires from <= |es|
    ensures from <= k <= |es| && (k < |es| ==> es[k].section == Some(section))
    ensures forall i :: from <= i < k ==> es[i].section != Some(section)
    decreases |es| - from
  {
    if from == |es| || es[from].section == Some(section) then from else SectionFrom(es, from + 1, section)
  }

  /** The first entry from `from` on that is spelled `id` or starts a section, or the end. */
  function KeyFrom(es: seq<Entry>, from: nat, id: string): (k: nat)
    requires from <= |es|
    ensures from <= k <= |es| && (k < |es| ==> es[k].section.Some? || es[k].id == Some(id))
    ensures forall i :: from <= i < k ==> es[i].section.None? && es[i].id != Some(id)
    decreases |es| - from
  {
    if from == |es| || es[from].section.Some? || es[from].id == Some(id) then from else KeyFrom(es, from + 1, id)
  }

  function NextSection(es: seq<Entry>, from: nat): (k: nat)
    requires from <= |es|
    ensures from <= k <= |es| && (k < |es| ==> es[k].section.Some?)
    ensures forall i :: from <= i < k ==> es[i].section.None?
    decreases |es| - from
  {
    if from == |es| || es[from].section.Some? then from else NextSection(es, from + 1)
  }

  function Without(es: seq<Entry>, from: nat, to: nat): seq<Entry>
    requires from <= to <= |es|
  {
    es[..from] + es[to..]
  }

  /** `cfg_write` without a value: the first entry spelled `id` goes, and the comments attached to it. */
  function Deleted(es: seq<Entry>, section: string, id: string): seq<Entry> {
    var s := SectionFrom(es, 0, section);
    if s == |es| then es
    else
      var k := KeyFrom(es, s + 1, id);
      if k == |es| || es[k].section.Some? then es else Without(es, RunStart(es, k), k + 1)
  }

  /** `cfg_write` without an id: the section goes with the comments above it, but not those above the next. */
  function SectionDeleted(es: seq<Entry>, section: string): seq<Entry> {
    var s := SectionFrom(es, 0, section);
    if s == |es| then es else Without(es, RunStart(es, s), RunStart(es, NextSection(es, s + 1)))
  }

  // Lookups go past what they do not stop at.

  lemma {:induction false} CommentsAreSkipped(st: Search, es: seq<Entry>, section: string, id: string)
    requires forall i :: 0 <= i < |es| ==> IsBlockComment(es[i])
    ensures Steps(st, es, section, id) == st
    decreases |es|
  {
    if es != [] { CommentsAreSkipped(st, es[1..], section, id); }
  }

  lemma {:induction false} StillLooking(es: seq<Entry>, section: string, id: string)
    requires forall i :: 0 <= i < |es| ==> es[i].section != Some(section)
    ensures Steps(Looking, es, section, id) == Looking
    decreases |es|
  {
    if es != [] { StillLooking(es[1..], section, id); }
  }

  /** A stretch that names no section changes a lookup only from inside the section. */
  lemma {:induction false} BodyIsSkipped(st: Search, es: seq<Entry>, section: string, id: string)
    requires forall i :: 0 <= i < |es| ==> es[i].section.None?
    requires st != Inside
    ensures Steps(st, es, section, id) == st
    decreases |es|
  {
    if es != [] { BodyIsSkipped(st, es[1..], section, id); }
  }

  lemma ThreeParts(st: Search, a: seq<Entry>, b: seq<Entry>, c: seq<Entry>, section: string, id: string)
    ensures Steps(st, a + b + c, section, id) == Steps(Steps(Steps(st, a, section, id), b, section, id), c, section, id)
  {
    StepsAppend(st, a + b, c, section, id);
    StepsAppend(st, a, b, section, id);
  }

  /** Taking out a stretch that a lookup would go through unchanged does not change the lookup. */
  lemma WithoutInert(es: seq<Entry>, from: nat, to: nat, section: string, id: string)
    requires from <= to <= |es|
    requires var st := Steps(Looking, es[..from], section, id); Steps(st, es[from..to], section, id) == st
    ensures Lookup(Without(es, from, to), section, id) == Lookup(es, section, id)
  {
    assert es == es[..from] + es[from..to] + es[to..];
    ThreeParts(Looking, es[..from], es[from..to], es[to..], section, id);
    StepsAppend(Looking, es[..from], es[to..], section, id);
  }

  lemma DeletedStretch(st: Search, es: seq<Entry>, j: nat, k: nat, section: string, id: string)
    requires j <= k < |es| && (forall i :: j <= i < k ==> IsBlockComment(es[i]))
    ensures Steps(st, es[j..k + 1], section, id) == Step(st, es[k], section, id)
  {
    assert es[j..k + 1] == es[j..k] + [es[k]];
    StepsAppend(st, es[j..k], [es[k]], section, id);
    CommentsAreSkipped(st, es[j..k], section, id);
  }

  /** The stretch that goes with a key, for a lookup of something else. */
  lemma CutKey(es: seq<Entry>, s: nat, j: nat, k: nat, section: string, section': string, id': string)
    requires s < j <= k < |es| && es[s].section == Some(section) && (forall i :: s < i <= k ==> es[i].section.None?)
    requires forall i :: j <= i < k ==> IsBlockComment(es[i])
    requires section' == section ==> !Reads(es[k], id')
    ensures Lookup(Without(es, j, k + 1), section', id') == Lookup(es, section', id')
  {
    var st := Steps(Looking, es[..j], section', id');
    DeletedStretch(st, es, j, k, section', id');
    InsideMeansFirst(es, s, j, section, section', id');
    assert Step(st, es[k], section', id') == st;
    hide Steps, Step, Lookup, Without;
    WithoutInert(es, j, k + 1, section', id');
  }

  /** Deleting a key keeps every lookup but the one the deleted id spells. */
  lemma DeleteKeepsOthers(es: seq<Entry>, section: string, id: string, section': string, id': string)
    requires section' != section || Unquoted(id) != Some(id')
    ensures Lookup(Deleted(es, section, id), section', id') == Lookup(es, section', id')
  {
    hide Lookup, Without, SectionFrom, KeyFrom, RunStart;
    var s := SectionFrom(es, 0, section);
    if s < |es| {
      var k := KeyFrom(es, s + 1, id);
      if k < |es| && es[k].section.None? {
        assert !IsBlockComment(es[s]);
        CutKey(es, s, RunStart(es, k), k, section, section', id');
      }
    }
  }

  /** Between a section's heading and the next, a lookup is inside only if it looks for that section. */
  lemma InsideMeansFirst(es: seq<Entry>, s: nat, j: nat, section: string, section': string, id: string)
    requires s < j <= |es| && es[s].section == Some(section)
    requires forall i :: s < i < j ==> es[i].section.None?
    ensures section' != section ==> Steps(Looking, es[..j], section', id) != Inside
  {
    if section' != section {
      assert es[..j] == es[..s] + [es[s]] + es[s + 1..j];
      ThreeParts(Looking, es[..s], [es[s]], es[s + 1..j], section', id);
      var st := Steps(Looking, es[..s], section', id);
      BodyIsSkipped(Step(st, es[s], section', id), es[s + 1..j], section', id);
    }
  }

  lemma {:induction false} ShadowedFrom(es: seq<Entry>, from: nat, section: string, id: string)
    requires from <= |es|
    ensures var s := SectionFrom(es, from, section);
      Shadowed(es[from..], section, id) <==> s < |es| && ShadowedIn(es[s + 1..], id)
    decreases |es| - from
  {
    if from < |es| && es[from].section != Some(section) {
      assert es[from..][1..] == es[from + 1..];
      ShadowedFrom(es, from + 1, section, id);
    } else if from < |es| {
      assert es[from..][1..] == es[from + 1..];
    }
  }

  /** Up to the entry spelled `id` an unshadowed lookup goes through the section. */
  lemma {:induction false} UnshadowedStaysInside(es: seq<Entry>, from: nat, section: string, id: string)
    requires from <= |es| && !ShadowedIn(es[from..], id)
    ensures var k := KeyFrom(es, from, id); Steps(Inside, es[from..k], section, id) == Inside
    decreases |es| - from
  {
    var k := KeyFrom(es, from, id);
    if from < k {
      assert es[from..][1..] == es[from + 1..];
      assert es[from..k][1..] == es[from + 1..k];
      UnshadowedStaysInside(es, from + 1, section, id);
    }
  }

  /** The entry a write updates and a delete removes, if there is one. */
  function Definition(es: seq<Entry>, section: string, id: string): (k: Option<nat>)
    ensures k.Some? ==> k.value < |es| && es[k.value].section.None? && es[k.value].id == Some(id)
  {
    var s := SectionFrom(es, 0, section);
    if s == |es| then None
    else
      var k := KeyFrom(es, s + 1, id);
      if k == |es| || es[k].section.Some? then None else Some(k)
  }

  /** An unshadowed lookup stands inside the section, or before it if there is none, when it comes to the definition. */
  lemma LookupUpToDefinition(es: seq<Entry>, section: string, id: string)
    requires !Shadowed(es, section, id)
    ensures var s := SectionFrom(es, 0, section);
      && Steps(Looking, es[..s], section, id) == Looking
      && (s < |es| ==> Steps(Looking, es[..KeyFrom(es, s + 1, id)], section, id) == Inside)
  {
    hide Shadowed, SectionFrom, KeyFrom, ShadowedIn, Steps, Reads;
    var s := SectionFrom(es, 0, section);
    StillLooking(es[..s], section, id);
    if s < |es| {
      assert es[0..] == es;
      ShadowedFrom(es, 0, section, id);
      UnshadowedStaysInside(es, s + 1, section, id);
      EnterSection(es, s, KeyFrom(es, s + 1, id), section, id);
    }
  }

  lemma EnterSection(es: seq<Entry>, s: nat, k: nat, section: string, id: string)
    requires s < k <= |es| && es[s].section == Some(section)
    requires Steps(Looking, es[..s], section, id) == Looking
    ensures Steps(Looking, es[..k], section, id) == Steps(Inside, es[s + 1..k], section, id)
  {
    assert es[..k] == es[..s] + [es[s]] + es[s + 1..k];
    ThreeParts(Looking, es[..s], [es[s]], es[s + 1..k], section, id);
  }

  /** What a lookup makes of `es` without the stretch, from where it stands before it. */
  lemma LookupWithout(es: seq<Entry>, from: nat, to: nat, st: Search, section: string, id: string)
    requires from <= to <= |es| && Steps(Looking, es[..from], section, id) == st
    ensures Lookup(Without(es, from, to), section, id) == Answer(Steps(st, es[to..], section, id))
    ensures Lookup(es, section, id) == Answer(Steps(Steps(st, es[from..to], section, id), es[to..], section, id))
  {
    assert es == es[..from] + es[from..to] + es[to..];
    ThreeParts(Looking, es[..from], es[from..to], es[to..], section, id);
    StepsAppend(Looking, es[..from], es[to..], section, id);
  }

  lemma CommentsBefore(es: seq<Entry>, j: nat, k: nat, section: string, id: string)
    requires j <= k <= |es| && forall i :: j <= i < k ==> IsBlockComment(es[i])
    ensures Steps(Looking, es[..k], section, id) == Steps(Looking, es[..j], section, id)
  {
    assert es[..k] == es[..j] + es[j..k];
    StepsAppend(Looking, es[..j], es[j..k], section, id);
    CommentsAreSkipped(Steps(Looking, es[..j], section, id), es[j..k], section, id);
  }

  lemma CommentsAfter(st: Search, es: seq<Entry>, b: nat, end: nat, section: string, id: string)
    requires b <= end <= |es| && forall i :: b <= i < end ==> IsBlockComment(es[i])
    ensures Steps(st, es[b..], section, id) == Steps(st, es[end..], section, id)
  {
    assert es[b..] == es[b..end] + es[end..];
    StepsAppend(st, es[b..end], es[end..], section, id);
    CommentsAreSkipped(st, es[b..end], section, id);
  }

  /** A heading, or the end, finishes a lookup inside a section. */
  lemma InsideEnds(es: seq<Entry>, k: nat, section: string, id: string)
    requires k <= |es| && (k < |es| ==> es[k].section.Some?)
    ensures !Steps(Inside, es[k..], section, id).Found?
  {
    if k < |es| {
      assert es[k..] == [es[k]] + es[k + 1..];
      StepsCons(Inside, es[k], es[k + 1..], section, id);
      PastStays(es[k + 1..], section, id);
    }
  }

  /** A lookup that is shadowed has found something else by the time it comes to the entry spelled `id`. */
  lemma {:induction false} ShadowedFinds(es: seq<Entry>, from: nat, section: string, id: string)
    requires from <= |es| && ShadowedIn(es[from..], id)
    ensures var k := KeyFrom(es, from, id); Steps(Inside, es[from..k], section, id).Found?
    decreases |es| - from
  {
    var k := KeyFrom(es, from, id);
    assert from < k;
    assert es[from..][1..] == es[from + 1..];
    assert es[from..k][1..] == es[from + 1..k];
    if Reads(es[from], id) {
      FoundStays(es[from].value.value, es[from + 1..k], section, id);
    } else {
      ShadowedFinds(es, from + 1, section, id);
    }
  }

  lemma ShadowedLookup(es: seq<Entry>, section: string, id: string)
    requires Shadowed(es, section, id)
    ensures var s := SectionFrom(es, 0, section);
      && s < |es| && KeyFrom(es, s + 1, id) <= |es|
      && Steps(Looking, es[..KeyFrom(es, s + 1, id)], section, id).Found?
  {
    hide Shadowed, SectionFrom, KeyFrom, ShadowedIn, Steps, Reads;
    var s := SectionFrom(es, 0, section);
    StillLooking(es[..s], section, id);
    assert es[0..] == es;
    ShadowedFrom(es, 0, section, id);
    ShadowedFinds(es, s + 1, section, id);
    EnterSection(es, s, KeyFrom(es, s + 1, id), section, id);
  }

  lemma CutBehindFound(es: seq<Entry>, j: nat, k: nat, section: string, id: string)
    requires j <= k < |es| && (forall i :: j <= i < k ==> IsBlockComment(es[i]))
    requires Steps(Looking, es[..k], section, id).Found?
    ensures Lookup(Without(es, j, k + 1), section, id) == Lookup(es, section, id) == Answer(Steps(Looking, es[..k], section, id))
  {
    hide Steps, Step, Lookup;
    var st := Steps(Looking, es[..k], section, id);
    CommentsBefore(es, j, k, section, id);
    LookupWithout(es, j, k + 1, st, section, id);
    FoundStays(st.value, es[j..k + 1], section, id);
    FoundStays(st.value, es[k + 1..], section, id);
  }

  /**
    What a deletion exposes: a later definition of the key in the same section, if there is one.
    If another spelling comes first in the section, it goes on being found.
   */
  lemma DeleteExposesLater(es: seq<Entry>, section: string, id: string)
    ensures var k := Definition(es, section, id);
      Lookup(Deleted(es, section, id), section, id) ==
        if Shadowed(es, section, id) then Lookup(es, section, id)
        else if k.None? then None
        else Answer(Steps(Inside, es[k.value + 1..], section, id))
    ensures Shadowed(es, section, id) && Definition(es, section, id).Some? ==> Lookup(es, section, id).Some?
  {
    hide Shadowed, Steps, Lookup, Deleted, Definition;
    if Shadowed(es, section, id) {
      DeleteBehindFound(es, section, id);
    } else {
      DeleteUnshadowed(es, section, id);
    }
  }

  lemma DeleteBehindFound(es: seq<Entry>, section: string, id: string)
    requires Shadowed(es, section, id)
    ensures Lookup(Deleted(es, section, id), section, id) == Lookup(es, section, id)
    ensures Definition(es, section, id).Some? ==> Lookup(es, section, id).Some?
  {
    hide Steps, Step, Shadowed, Lookup, RunStart, Without;
    ShadowedLookup(es, section, id);
    var k := KeyFrom(es, SectionFrom(es, 0, section) + 1, id);
    if k < |es| && es[k].section.None? { CutBehindFound(es, RunStart(es, k), k, section, id); }
  }

  lemma DeleteUnshadowed(es: seq<Entry>, section: string, id: string)
    requires !Shadowed(es, section, id)
    ensures var k := Definition(es, section, id);
      Lookup(Deleted(es, section, id), section, id) ==
        if k.None? then None else Answer(Steps(Inside, es[k.value + 1..], section, id))
  {
    hide Steps, Step, Shadowed, Lookup, RunStart;
    LookupUpToDefinition(es, section, id);
    var s := SectionFrom(es, 0, section);
    if s == |es| {
      NoSectionNoLookup(es, section, id);
    } else {
      var k := KeyFrom(es, s + 1, id);
      if k < |es| && es[k].section.None? {
        LookupWithoutKey(es, RunStart(es, k), k, section, id);
      } else {
        InsideEndsLookup(es, k, section, id);
      }
    }
  }

  lemma NoSectionNoLookup(es: seq<Entry>, section: string, id: string)
    requires SectionFrom(es, 0, section) == |es|
    ensures Lookup(es, section, id) == None
  {
    StillLooking(es, section, id);
  }

  lemma LookupWithoutKey(es: seq<Entry>, j: nat, k: nat, section: string, id: string)
    requires j <= k < |es| && (forall i :: j <= i < k ==> IsBlockComment(es[i]))
    requires Steps(Looking, es[..k], section, id) == Inside
    ensures Lookup(Without(es, j, k + 1), section, id) == Answer(Steps(Inside, es[k + 1..], section, id))
  {
    hide Steps, Step, Lookup;
    CommentsBefore(es, j, k, section, id);
    LookupWithout(es, j, k + 1, Inside, section, id);
  }

  lemma InsideEndsLookup(es: seq<Entry>, k: nat, section: string, id: string)
    requires k <= |es| && (k < |es| ==> es[k].section.Some?) && Steps(Looking, es[..k], section, id) == Inside
    ensures Lookup(es, section, id) == None
  {
    assert es == es[..k] + es[k..];
    StepsAppend(Looking, es[..k], es[k..], section, id);
    InsideEnds(es, k, section, id);
  }

  /** After a section is deleted, a lookup in it finds only what a later section of the same name defines. */
  lemma SectionDeleteExposesLater(es: seq<Entry>, section: string, id: string)
    requires HasSection(es, section)
    ensures var end := NextSection(es, SectionFrom(es, 0, section) + 1);
      Lookup(SectionDeleted(es, section), section, id) == Lookup(es[end..], section, id)
  {
    var s := SectionFrom(es, 0, section);
    var end := NextSection(es, s + 1);
    var a, b := RunStart(es, s), RunStart(es, end);
    assert !IsBlockComment(es[s]);
    StillLooking(es[..a], section, id);
    hide Steps, Step, SectionFrom, NextSection, RunStart;
    LookupWithout(es, a, b, Looking, section, id);
    CommentsAfter(Looking, es, b, end, section, id);
  }

  /** The stretch that goes with a section, for a lookup in another one. */
  lemma CutSection(st: Search, es: seq<Entry>, a: nat, s: nat, b: nat, section: string, section': string, id: string)
    requires a <= s < b <= |es| && es[s].section == Some(section) && section' != section
    requires (forall i :: a <= i < s ==> IsBlockComment(es[i])) && (forall i :: s < i < b ==> es[i].section.None?)
    ensures Steps(st, es[a..b], section', id) == if st == Inside then Past else st
  {
    assert es[a..b] == es[a..s] + [es[s]] + es[s + 1..b];
    ThreeParts(st, es[a..s], [es[s]], es[s + 1..b], section', id);
    CommentsAreSkipped(st, es[a..s], section', id);
    BodyIsSkipped(Step(st, es[s], section', id), es[s + 1..b], section', id);
  }

  lemma CutSectionLookup(es: seq<Entry>, a: nat, s: nat, b: nat, end: nat, section: string, section': string, id: string)
    requires a <= s < b <= end <= |es| && es[s].section == Some(section) && section' != section
    requires (forall i :: a <= i < s ==> IsBlockComment(es[i])) && (forall i :: s < i < end ==> es[i].section.None?)
    requires (forall i :: b <= i < end ==> IsBlockComment(es[i])) && (end < |es| ==> es[end].section.Some?)
    ensures Lookup(Without(es, a, b), section', id) == Lookup(es, section', id)
  {
    hide Steps, Step, Lookup, Without;
    var st := Steps(Looking, es[..a], section', id);
    LookupWithout(es, a, b, st, section', id);
    CutSection(st, es, a, s, b, section, section', id);
    if st == Inside {
      PastStays(es[b..], section', id);
      CommentsAfter(Inside, es, b, end, section', id);
      InsideEnds(es, end, section', id);
    }
  }

  lemma SectionDeleteKeepsOthers(es: seq<Entry>, section: string, section': string, id: string)
    requires section' != section
    ensures Lookup(SectionDeleted(es, section), section', id) == Lookup(es, section', id)
  {
    hide Lookup, Without, SectionFrom, NextSection, RunStart;
    var s := SectionFrom(es, 0, section);
    if s < |es| {
      var end := NextSection(es, s + 1);
      assert !IsBlockComment(es[s]);
      CutSectionLookup(es, RunStart(es, s), s, RunStart(es, end), end, section, section', id);
    }
  }
}
