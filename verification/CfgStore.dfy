/** The configuration store of ctcpsvr/cfgfile.cpp: an array of entries that is grown and shifted in place. */
module CfgStore {
  import opened Options
  import opened CfgEntries
  import opened CfgPositions

  /** How many entries the first allocation makes room for: 4096 bytes' worth. */
  const FIRST_ENTRIES := 4096 / 40

  /** `CFG_TYPE`: what the cursor last stopped at. */
  datatype Stop = NoStop | AtSection | AtDefinition | AtContinuation

  /** The cursor passes over entries that carry neither a section nor a value. */
  predicate IsVisible(e: Entry) { e.section.Some? || e.value.Some? }

  function NextVisible(es: seq<Entry>, from: nat): (k: nat)
    ensures from <= k && (from <= |es| ==> k <= |es|) && (k < |es| ==> IsVisible(es[k]))
    ensures forall i :: from <= i < k && i < |es| ==> !IsVisible(es[i])
    decreases |es| - from
  {
    if from >= |es| || IsVisible(es[from]) then from else NextVisible(es, from + 1)
  }

  function StopAt(e: Entry): Stop {
    if e.section.Some? then AtSection else if e.value.None? then NoStop
    else if e.id.Some? then AtDefinition else AtContinuation
  }

  /** A write that has to make room between two entries. */
  predicate Inserts(es: seq<Entry>, section: string, id: string) {
    var s := SectionFrom(es, 0, section);
    s < |es| && var k := KeyFrom(es, s + 1, id); k < |es| && es[k].section.Some?
  }

  /** `cfg_write`, by what it is called with. */
  function Changed(es: seq<Entry>, section: string, id: Option<string>, value: Option<string>): seq<Entry> {
    if id.None? then SectionDeleted(es, section)
    else if value.None? then Deleted(es, section, id.value)
    else Written(es, section, id.value, value.value)
  }

  /** Where and how a write changes the entries. */
  lemma {:induction false} WrittenInAt(es: seq<Entry>, from: nat, id: string, value: string)
    requires from <= |es|
    ensures var k := KeyFrom(es, from, id);
      es[..from] + WrittenIn(es[from..], id, value) ==
        if k < |es| && es[k].section.None? then es[k := es[k].(value := Some(value))]
        else es[..k] + [KeyEntry(id, value)] + es[k..]
    decreases |es| - from
  {
    if from < |es| {
      assert es[from..][1..] == es[from + 1..];
      if es[from].section.None? && es[from].id != Some(id) {
        WrittenInAt(es, from + 1, id, value);
        OnePast(es, from, WrittenIn(es[from + 1..], id, value));
        hide WrittenIn, KeyEntry;
      }
    }
  }

  lemma OnePast(es: seq<Entry>, from: nat, rest: seq<Entry>)
    requires from < |es|
    ensures es[..from] + ([es[from]] + rest) == es[..from + 1] + rest
  {}

  lemma {:induction false} WrittenAt(es: seq<Entry>, from: nat, section: string, id: string, value: string)
    requires from <= |es|
    ensures var s := SectionFrom(es, from, section);
      es[..from] + Written(es[from..], section, id, value) ==
        if s == |es| then es + [SectionEntry(section), KeyEntry(id, value)]
        else es[..s + 1] + WrittenIn(es[s + 1..], id, value)
    decreases |es| - from
  {
    if from < |es| && es[from].section != Some(section) {
      WrittenAt(es, from + 1, section, id, value);
      assert es[from..][1..] == es[from + 1..];
      assert es[..from + 1] == es[..from] + [es[from]];
    } else if from < |es| {
      assert es[from..][1..] == es[from + 1..];
      assert es[..from + 1] == es[..from] + [es[from]];
    }
  }

  lemma WrittenPlace(es: seq<Entry>, section: string, id: string, value: string)
    ensures var s := SectionFrom(es, 0, section);
      Written(es, section, id, value) ==
        if s == |es| then es + [SectionEntry(section), KeyEntry(id, value)]
        else
          var k := KeyFrom(es, s + 1, id);
          if k < |es| && es[k].section.None? then es[k := es[k].(value := Some(value))]
          else es[..k] + [KeyEntry(id, value)] + es[k..]
  {
    assert es[..0] + Written(es, section, id, value) == Written(es, section, id, value) && es[0..] == es;
    WrittenAt(es, 0, section, id, value);
    var s := SectionFrom(es, 0, section);
    if s < |es| { WrittenInAt(es, s + 1, id, value); }
  }

  /** The last section named before `k`, or what was named before them all. */
  ghost function LastNamed(es: seq<Entry>, k: nat, before: Option<string>): Option<string>
    requires k <= |es|
  {
    if k == 0 then before else if es[k - 1].section.Some? then es[k - 1].section else LastNamed(es, k - 1, before)
  }

  lemma {:induction false} SameNamed(es: seq<Entry>, from: nat, k: nat, before: Option<string>)
    requires from <= k <= |es| && forall i :: from <= i < k ==> es[i].section.None?
    ensures LastNamed(es, k, before) == LastNamed(es, from, before)
  {
    if from < k { SameNamed(es, from, k - 1, before); }
  }

  /** What a write without effect leaves alone. */
  ghost predicate Changes(es: seq<Entry>, section: string, id: Option<string>, value: Option<string>) {
    if id.None? then exists s: nat :: IsFirstSection(es, section, s)
    else if value.None? then exists s: nat, k: nat :: IsFirstSection(es, section, s) && IsFirstSpelled(es, s, id.value, k)
    else true
  }

  lemma HasSectionIs(es: seq<Entry>, section: string)
    ensures HasSection(es, section) <==> exists s: nat :: IsFirstSection(es, section, s)
  {
    if HasSection(es, section) { assert IsFirstSection(es, section, SectionFrom(es, 0, section)); }
  }

  lemma DefinitionIs(es: seq<Entry>, section: string, id: string)
    ensures Definition(es, section, id).Some? <==> exists s: nat, k: nat :: IsFirstSection(es, section, s) && IsFirstSpelled(es, s, id, k)
  {
    var s := SectionFrom(es, 0, section);
    if s < |es| {
      assert IsFirstSection(es, section, s);
      var k := KeyFrom(es, s + 1, id);
      if k < |es| && es[k].section.None? { assert IsFirstSpelled(es, s, id, k); }
    }
  }

  // What a search knows of the entries it has passed.

  /** Between section `s` and `k` there is neither a section nor a definition of `id`. */
  ghost predicate PassedBy(es: seq<Entry>, s: nat, k: nat, id: string) {
    k <= |es| && forall i :: s < i < k ==> es[i].section.None? && !Defines(es[i], id)
  }

  lemma InvisibleArePassed(es: seq<Entry>, s: nat, from: nat, k: nat, id: string, before: Option<string>)
    requires from <= |es| && k == NextVisible(es, from)
    ensures PassedBy(es, s, from, id) ==> PassedBy(es, s, k, id)
    ensures LastNamed(es, k, before) == LastNamed(es, from, before)
  {
    hide SpellsId;
    SameNamed(es, from, k, before);
  }

  lemma PassedOne(es: seq<Entry>, s: nat, k: nat, id: string, before: Option<string>)
    requires k < |es|
    ensures PassedBy(es, s, k, id) && es[k].section.None? && !Defines(es[k], id) ==> PassedBy(es, s, k + 1, id)
    ensures LastNamed(es, k + 1, before) == if es[k].section.Some? then es[k].section else LastNamed(es, k, before)
  {
    hide SpellsId;
  }

  lemma SearchedInVain(es: seq<Entry>, section: string, id: string, s: nat, at: nat)
    requires IsFirstSection(es, section, s) && s < at && PassedBy(es, s, at, id) && (at < |es| ==> es[at].section.Some?)
    ensures Lookup(es, section, id) == None && HasSection(es, section) && IsNextSection(es, s, at)
  {
    hide Lookup, Defines;
    NothingDefined(es, section, id, s, at);
  }

  lemma NoSuchSection(es: seq<Entry>, section: string, id: string)
    requires forall i :: 0 <= i < |es| ==> es[i].section != Some(section)
    ensures Lookup(es, section, id) == None && !HasSection(es, section)
  {
    NoSectionNoLookup(es, section, id);
  }

  lemma FoundFirst(es: seq<Entry>, section: string, id: string, s: nat, at: nat)
    requires IsFirstSection(es, section, s) && s < at < |es| && PassedBy(es, s, at, id) && Defines(es[at], id)
    ensures IsFirstDefinition(es, s, id, at) && Lookup(es, section, id) == es[at].value && es[at].value.Some?
  {
    hide Lookup, SpellsId;
    DefinitionIsFound(es, section, id, s, at);
  }

  lemma JustEntered(es: seq<Entry>, section: string, s: nat, id: string)
    requires s < |es| && es[s].section == Some(section) && forall i :: 0 <= i < s ==> es[i].section != Some(section)
    ensures IsFirstSection(es, section, s) && PassedBy(es, s, s + 1, id)
  {}

  /** `memmove` of entries. */
  method Memmove(a: array<Entry>, to: nat, from: nat, count: nat)
    requires to + count <= a.Length && from + count <= a.Length
    modifies a
    ensures a[..] == old(a[..to]) + old(a[from..from + count]) + old(a[to + count..])
  {
    forall i | 0 <= i < count {
      a[to + i] := a[from + i];
    }
  }

  class Config {
    var entries: array<Entry>  // maxEntries is its length
    var numEntries: nat
    var valid: bool
    var dirty: bool
    var eof: bool
    var stop: Stop
    var cursor: nat
    var section: Option<string>
    var id: Option<string>
    var value: Option<string>

    ghost predicate Valid()
      reads this
    {
      numEntries <= entries.Length
    }

    ghost function Entries(): seq<Entry>
      requires Valid()
      reads this, entries
    {
      entries[..numEntries]
    }

    constructor ()
      ensures Valid() && Entries() == [] && fresh(entries) && !valid && !dirty
      ensures !eof && stop == NoStop && cursor == 0 && section == None && id == None && value == None
    {
      entries := new Entry[0];
      numEntries, valid, dirty, eof, stop, cursor := 0, false, false, false, NoStop, 0;
      section, id, value := None, None, None;
    }

    /** `_cfg_poolalloc`: room for `count` more entries, in a larger array if need be. */
    method PoolAlloc(count: nat) returns (at: nat)
      requires Valid()
      modifies this`entries, this`numEntries
      ensures Valid() && numEntries == old(numEntries) + count && at == old(numEntries)
      ensures entries[..at] == old(Entries())
      ensures if old(numEntries) + count <= old(entries).Length then entries == old(entries)
        else fresh(entries) && entries.Length == count + (if old(entries).Length == 0 then 102 else old(entries).Length + old(entries).Length / 2)
    {
      if numEntries + count > entries.Length {
        var newMax := if entries.Length != 0 then count + entries.Length + entries.Length / 2 else count + FIRST_ENTRIES;
        var newBase := new Entry[newMax];
        forall i | 0 <= i < numEntries {
          newBase[i] := entries[i];
        }
        entries := newBase;
      }
      at := numEntries;
      numEntries := numEntries + count;
    }

    /** `cfg_storeentry`. A dynamic entry with a comment is given a copy of its value as the comment. */
    method StoreEntry(section: Option<string>, id: Option<string>, value: Option<string>, comment: Option<string>, dynamic: bool)
      requires Valid() && (dynamic && comment.Some? ==> value.Some?)
      modifies this`entries, this`numEntries, entries
      ensures Valid() && (fresh(entries) || entries == old(entries))
      ensures Entries() == old(Entries()) + [Entry(section, id, value, if dynamic && comment.Some? then value else comment)]
    {
      var data := PoolAlloc(1);
      entries[data] := Entry(section, id, value, if dynamic && comment.Some? then value else comment);
    }

    method Rewind() returns (ret: int)
      modifies this`eof, this`stop, this`cursor
      ensures if valid then ret == 0 && cursor == 0 && !eof && stop == NoStop
        else ret == -1 && eof == old(eof) && stop == old(stop) && cursor == old(cursor)
    {
      if !valid {
        return -1;
      }
      eof, stop, cursor := false, NoStop, 0;
      ret := 0;
    }

    /** `cfg_nextentry`. */
    method NextEntry() returns (ret: int)
      requires Valid()
      modifies this`eof, this`stop, this`cursor, this`section, this`id, this`value
      ensures ret == 0 || ret == -1
      ensures var k := NextVisible(Entries(), old(cursor));
        ret == 0 <==> valid && !old(eof) && k < |Entries()|
      ensures ret == 0 ==>
        var k := NextVisible(Entries(), old(cursor)); var e := Entries()[k];
        && cursor == k + 1 && !eof && stop == StopAt(e)
        && section == (if e.section.Some? then e.section else old(section))
        && value == (if e.section.Some? then None else e.value)
        && id == (if e.section.Some? then None else e.id)
      ensures ret == -1 ==> section == old(section)
      ensures ret == -1 && valid && !old(eof) ==>
        && eof && stop == NoStop && id == None && value == None
        && cursor == (if old(cursor) <= numEntries then numEntries else old(cursor))
      ensures !valid || old(eof) ==>
        eof == old(eof) && stop == old(stop) && cursor == old(cursor) && id == old(id) && value == old(value)
    {
      if !valid || eof {
        return -1;
      }
      stop := NoStop;
      id, value := None, None;
      ghost var from := cursor;
      while true
        invariant !eof && stop == NoStop && id == None && value == None && section == old(section)
        invariant from <= cursor && NextVisible(Entries(), from) == NextVisible(Entries(), cursor)
        invariant cursor <= numEntries || cursor == from
        decreases numEntries - cursor
      {
        if cursor >= numEntries {
          eof := true;
          return -1;
        }
        var e := entries[cursor];
        cursor := cursor + 1;
        if e.section.Some? {
          section := e.section;
          stop := AtSection;
          return 0;
        }
        if e.value.Some? {
          value := e.value;
          if e.id.Some? {
            id := e.id;
            stop := AtDefinition;
          } else {
            stop := AtContinuation;
          }
          return 0;
        }
      }
    }

    /** Where the cursor stands after everything was passed, or after a section that a search ends at. */
    ghost predicate AtEnd(named: Option<string>)
      reads this
    {
      eof && stop == NoStop && cursor == numEntries && section == named && id == None && value == None
    }

    ghost predicate AtSectionEntry(k: nat, named: Option<string>)
      reads this
    {
      !eof && stop == AtSection && cursor == k + 1 && section == named && id == None && value == None
    }

    /**
      `cfg_find`, for a section: the first definition of `id` in the first section of that name. It stays there.
      Without one it stays at the section after it, or at the end.
     */
    method Find(section: string, id: string) returns (ret: int, ghost s: nat, ghost at: nat)
      requires Valid()
      modifies this`eof, this`stop, this`cursor, this`section, this`id, this`value
      ensures ret == 0 || ret == -1
      ensures ret == 0 <==> valid && Lookup(Entries(), section, id).Some?
      ensures ret == 0 ==>
        && value == Lookup(Entries(), section, id)
        && IsFirstSection(Entries(), section, s) && IsFirstDefinition(Entries(), s, id, at)
        && cursor == at + 1 && !eof && stop == AtDefinition && this.section == Some(section)
        && this.id == Entries()[at].id && value == Entries()[at].value
      ensures ret == -1 && valid && !HasSection(Entries(), section) ==> AtEnd(LastNamed(Entries(), numEntries, old(this.section)))
      ensures ret == -1 && valid && HasSection(Entries(), section) ==>
        && IsFirstSection(Entries(), section, s) && IsNextSection(Entries(), s, at)
        && (if at == numEntries then AtEnd(Some(section)) else AtSectionEntry(at, Entries()[at].section))
      ensures !valid ==>
        && eof == old(eof) && stop == old(stop) && cursor == old(cursor)
        && this.section == old(this.section) && this.id == old(this.id) && value == old(value)
    {
      s, at := 0, 0;
      ret := Rewind();
      if ret != 0 {
        return;
      }
      var atSection := false;
      ghost var es, before := Entries(), this.section;
      assert LastNamed(es, 0, before) == before;
      hide IsFirstSection, IsNextSection, IsFirstDefinition, PassedBy, Lookup, LastNamed, HasSection, Unquoted, NextVisible, Defines;
      while true
        invariant Entries() == es && cursor <= |es| && !eof && this.section == (if atSection then Some(section) else LastNamed(es, cursor, before))
        invariant if atSection then IsFirstSection(es, section, s) && s < cursor && PassedBy(es, s, cursor, id)
          else forall i :: 0 <= i < cursor ==> es[i].section != Some(section)
        decreases |es| - cursor
      {
        ghost var from, k := cursor, NextVisible(es, cursor);
        InvisibleArePassed(es, s, from, k, id, before);
        ret := NextEntry();
        if ret != 0 {
          if atSection {
            at := |es|;
            SearchedInVain(es, section, id, s, at);
          } else {
            NoSuchSection(es, section, id);
          }
          return;
        }
        PassedOne(es, s, k, id, before);
        if atSection {
          if stop == AtSection {
            at := k;
            SearchedInVain(es, section, id, s, at);
            ret := -1;
            return;
          } else if stop == AtDefinition {
            var plain := Unquoted(this.id.value);
            ReadsIs(es[k], id);
            if plain.Some? && plain.value == id {
              at := k;
              FoundFirst(es, section, id, s, at);
              return;
            }
          }
        } else if stop == AtSection && this.section == Some(section) {
          atSection := true;
          s := k;
          JustEntered(es, section, s, id);
        }
      }
    }

    /** `cfg_find` without an id. */
    method FindSection(section: string) returns (ret: int, ghost s: nat)
      requires Valid()
      modifies this`eof, this`stop, this`cursor, this`section, this`id, this`value
      ensures ret == 0 || ret == -1
      ensures ret == 0 <==> valid && HasSection(Entries(), section)
      ensures ret == 0 ==> IsFirstSection(Entries(), section, s) && AtSectionEntry(s, Some(section))
      ensures ret == -1 && valid ==> AtEnd(LastNamed(Entries(), numEntries, old(this.section)))
      ensures !valid ==>
        && eof == old(eof) && stop == old(stop) && cursor == old(cursor)
        && this.section == old(this.section) && this.id == old(this.id) && value == old(value)
    {
      s := 0;
      ret := Rewind();
      if ret != 0 {
        return;
      }
      ghost var es, before := Entries(), this.section;
      while true
        invariant Entries() == es && cursor <= |es| && !eof && this.section == LastNamed(es, cursor, before)
        invariant forall i :: 0 <= i < cursor ==> es[i].section != Some(section)
        decreases |es| - cursor
      {
        hide LastNamed;
        ghost var from, k := cursor, NextVisible(es, cursor);
        InvisibleArePassed(es, 0, from, k, "", before);
        ret := NextEntry();
        if ret != 0 {
          return;
        }
        PassedOne(es, 0, k, "", before);
        if stop == AtSection && this.section == Some(section) {
          s := k;
          return;
        }
      }
    }

    // The loops of `cfg_write`.

    method SeekSection(section: string) returns (k: nat)
      requires Valid()
      ensures k == SectionFrom(Entries(), 0, section)
    {
      k := 0;
      while k < numEntries && entries[k].section != Some(section)
        invariant k <= numEntries && SectionFrom(Entries(), 0, section) == SectionFrom(Entries(), k, section)
      {
        k := k + 1;
      }
    }

    method SeekKey(from: nat, id: string) returns (k: nat)
      requires Valid() && from <= numEntries
      ensures k == KeyFrom(Entries(), from, id)
    {
      k := from;
      while k < numEntries && entries[k].section.None? && entries[k].id != Some(id)
        invariant from <= k <= numEntries && KeyFrom(Entries(), from, id) == KeyFrom(Entries(), k, id)
      {
        k := k + 1;
      }
    }

    method SeekNextSection(from: nat) returns (k: nat)
      requires Valid() && from <= numEntries
      ensures k == NextSection(Entries(), from)
    {
      k := from;
      while k < numEntries && entries[k].section.None?
        invariant from <= k <= numEntries && NextSection(Entries(), from) == NextSection(Entries(), k)
      {
        k := k + 1;
      }
    }

    /** Moves up while there are comments; something that is not one must come before. */
    method SkipCommentsUp(k: nat) returns (j: nat)
      requires Valid() && k <= numEntries && RunStart(Entries(), k) > 0
      ensures j == RunStart(Entries(), k)
    {
      j := k;
      while IsBlockComment(entries[j - 1])
        invariant 0 < j <= k && RunStart(Entries(), k) == RunStart(Entries(), j)
        decreases j
      {
        j := j - 1;
      }
    }

    /** Deletes everything from `from` up to `to`. */
    method Remove(from: nat, to: nat)
      requires Valid() && from <= to <= numEntries
      modifies this`numEntries, this`dirty, entries
      ensures Valid() && Entries() == Without(old(Entries()), from, to) && dirty
    {
      Memmove(entries, from, to, numEntries - to);
      numEntries := numEntries - (to - from);
      dirty := true;
    }

    /**
      Inserts a definition before entry `k`. The block that moves is one entry longer than what is behind `k`,
      so there must be room for two more entries; with less the code writes past the array.
     */
    method InsertBefore(k: nat, id: string, value: string)
      requires Valid() && k < numEntries && numEntries + 2 <= entries.Length
      modifies this`entries, this`numEntries, this`dirty, entries
      ensures Valid() && dirty && entries == old(entries)
      ensures Entries() == old(Entries()[..k]) + [KeyEntry(id, value)] + old(Entries()[k..])
    {
      var _ := PoolAlloc(1);
      Memmove(entries, k + 1, k, numEntries - k);
      entries[k] := KeyEntry(id, value);
      dirty := true;
    }

    method AddDefinition(section: string, id: string, value: string)
      requires Valid() && (Inserts(Entries(), section, id) ==> numEntries + 2 <= entries.Length)
      modifies this`entries, this`numEntries, this`dirty, entries
      ensures Valid() && Entries() == Written(old(Entries()), section, id, value) && dirty
    {
      hide Written, SectionFrom, KeyFrom;
      WrittenPlace(Entries(), section, id, value);
      var s := SeekSection(section);
      if s == numEntries {
        StoreEntry(Some(section), None, None, None, true);
        StoreEntry(None, Some(id), Some(value), None, true);
        dirty := true;
        return;
      }
      var k := SeekKey(s + 1, id);
      if k == numEntries {
        StoreEntry(None, Some(id), Some(value), None, true);
        dirty := true;
      } else if entries[k].section.Some? {
        InsertBefore(k, id, value);
      } else {
        Update(k, value);
      }
    }

    method Update(k: nat, value: string)
      requires Valid() && k < numEntries
      modifies this`dirty, entries
      ensures Valid() && dirty && Entries() == old(Entries())[k := old(Entries())[k].(value := Some(value))]
    {
      dirty := true;
      entries[k] := entries[k].(value := Some(value));
    }

    method DeleteDefinition(section: string, id: string)
      requires Valid()
      modifies this`entries, this`numEntries, this`dirty, entries
      ensures Valid() && Entries() == Deleted(old(Entries()), section, id)
      ensures TakesOutKey(old(Entries()), Entries(), section, id)
      ensures dirty <==> old(dirty) || Definition(old(Entries()), section, id).Some?
    {
      DeletedIs(Entries(), Deleted(Entries(), section, id), section, id);
      hide TakesOutKey, Without, SectionFrom, KeyFrom, RunStart, IsBlockComment;
      var s := SeekSection(section);
      if s == numEntries {
        return;
      }
      var k := SeekKey(s + 1, id);
      if k == numEntries || entries[k].section.Some? {
        return;
      }
      HeadingIsNotAttached(Entries()[s]);
      var j := SkipCommentsUp(k);
      Remove(j, k + 1);
    }

    /** Before the section there must be an entry other than a comment, or the code looks before the array. */
    method DeleteSection(section: string)
      requires Valid()
      requires HasSection(Entries(), section) ==> RunStart(Entries(), SectionFrom(Entries(), 0, section)) > 0
      modifies this`entries, this`numEntries, this`dirty, entries
      ensures Valid() && Entries() == SectionDeleted(old(Entries()), section)
      ensures TakesOutSection(old(Entries()), Entries(), section)
      ensures dirty <==> old(dirty) || HasSection(old(Entries()), section)
    {
      SectionDeletedIs(Entries(), SectionDeleted(Entries(), section), section);
      hide TakesOutSection, Without, SectionFrom, NextSection, RunStart, IsBlockComment;
      var s := SeekSection(section);
      if s == numEntries {
        return;
      }
      var end := SeekNextSection(s + 1);
      HeadingIsNotAttached(Entries()[s]);
      var to := SkipCommentsUp(end);
      var from := SkipCommentsUp(s);
      Remove(from, to);
    }

    /** `cfg_write`, for a section. */
    method Write(section: string, id: Option<string>, value: Option<string>) returns (ret: int)
      requires Valid()
      requires id.Some? && value.Some? && Inserts(Entries(), section, id.value) ==> numEntries + 2 <= entries.Length
      requires id.None? && HasSection(Entries(), section) ==> RunStart(Entries(), SectionFrom(Entries(), 0, section)) > 0
      modifies this`entries, this`numEntries, this`dirty, entries
      ensures Valid() && ret == (if valid then 0 else -1)
      ensures Entries() == if valid then Changed(old(Entries()), section, id, value) else old(Entries())
      ensures dirty <==> old(dirty) || (valid && Changes(old(Entries()), section, id, value))
    {
      HasSectionIs(Entries(), section);
      if id.Some? { DefinitionIs(Entries(), section, id.value); }
      hide IsFirstSection, IsFirstSpelled, HasSection, TakesOutKey, TakesOutSection;
      if !valid {
        return -1;
      }
      if id.None? {
        DeleteSection(section);
      } else if value.None? {
        DeleteDefinition(section, id.value);
      } else {
        AddDefinition(section, id.value, value.value);
      }
      ret := 0;
    }
  }
}
