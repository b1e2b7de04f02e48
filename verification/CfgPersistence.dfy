/** The configuration store and its file together: what is written is what the next program to read the file finds. */
module CfgPersistence {
  import opened Options
  import opened CfgEntries
  import opened CfgText

  ghost predicate AllNormal(es: seq<Entry>) { forall i :: 0 <= i < |es| ==> Normal(es[i]) }

  /** What can be written and saved, even where a comment follows it. */
  ghost predicate Savable(section: string, id: string, value: string) {
    PlainSection(section) && PlainId(id) && QuoteFree(id) && NoEol(value) && PlainValue(value, true)
  }

  lemma {:induction false} WrittenInIsNormal(es: seq<Entry>, section: string, id: string, value: string)
    requires AllNormal(es) && Savable(section, id, value)
    ensures AllNormal(WrittenIn(es, id, value))
    decreases |es|
  {
    if es != [] {
      assert Normal(es[0]);
      if es[0].section.None? && es[0].id != Some(id) {
        assert AllNormal(es[1..]);
        hide Normal;
        WrittenInIsNormal(es[1..], section, id, value);
      }
    }
  }

  lemma {:induction false} WrittenIsNormal(es: seq<Entry>, section: string, id: string, value: string)
    requires AllNormal(es) && Savable(section, id, value)
    ensures AllNormal(Written(es, section, id, value))
    decreases |es|
  {
    if es != [] {
      assert AllNormal(es[1..]);
      hide Normal;
      WrittenInIsNormal(es[1..], section, id, value);
      WrittenIsNormal(es[1..], section, id, value);
    }
  }

  /** Writing, saving and reading back is updating a map; and the file stays one that this holds for. */
  lemma SavedValueIsFound(es: seq<Entry>, section: string, id: string, value: string, section': string, id': string)
    requires AllNormal(es) && PlainIds(es) && Savable(section, id, value)
    ensures var read := ParseText(Text(Written(es, section, id, value), false));
      && AllNormal(read) && PlainIds(read)
      && Lookup(read, section', id') == if section' == section && id' == id then Some(value) else Lookup(es, section', id')
  {
    hide Normal, Lookup, Written, ParseText, Text, PlainIds, PlainId, PlainSection, PlainValue;
    WrittenIsNormal(es, section, id, value);
    RoundTrip(Written(es, section, id, value));
    WriteIsMapUpdate(es, section, id, value, section', id');
  }

  // Many writes.

  datatype Assignment = Assignment(section: string, id: string, value: string)

  function AllWritten(es: seq<Entry>, ws: seq<Assignment>): seq<Entry>
    decreases |ws|
  {
    if ws == [] then es else
      var w := ws[|ws| - 1];
      Written(AllWritten(es, ws[..|ws| - 1]), w.section, w.id, w.value)
  }

  /** The same writes to a map. */
  function Assigned(m: map<(string, string), string>, ws: seq<Assignment>): map<(string, string), string>
    decreases |ws|
  {
    if ws == [] then m else
      var w := ws[|ws| - 1];
      Assigned(m, ws[..|ws| - 1])[(w.section, w.id) := w.value]
  }

  ghost predicate IsMap(es: seq<Entry>, m: map<(string, string), string>) {
    forall section, id :: Lookup(es, section, id) == if (section, id) in m then Some(m[(section, id)]) else None
  }

  /** Any sequence of writes does to the store what it does to a map. */
  lemma {:induction false} WritesAreMapUpdates(es: seq<Entry>, m: map<(string, string), string>, ws: seq<Assignment>)
    requires IsMap(es, m) && PlainIds(es) && forall i :: 0 <= i < |ws| ==> QuoteFree(ws[i].id)
    ensures IsMap(AllWritten(es, ws), Assigned(m, ws)) && PlainIds(AllWritten(es, ws))
    decreases |ws|
  {
    if ws != [] {
      var init, w := ws[..|ws| - 1], ws[|ws| - 1];
      WritesAreMapUpdates(es, m, init);
      var before := AllWritten(es, init);
      forall section, id
        ensures Lookup(AllWritten(es, ws), section, id) ==
          if (section, id) in Assigned(m, ws) then Some(Assigned(m, ws)[(section, id)]) else None
      {
        hide Lookup, Written, PlainIds;
        WriteIsMapUpdate(before, w.section, w.id, w.value, section, id);
      }
      WriteIsMapUpdate(before, w.section, w.id, w.value, w.section, w.id);
    }
  }
}
