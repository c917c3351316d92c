/**
 * Writing a section out as text and reading it back. A section written as a
 * `[name]` header followed by one `option=value` line per entry reads back,
 * from any starting map, as that section holding those entries, each found
 * under any spelling of its names that lower-cases the same.
 */
module RoundTrip {
  import opened Text
  import opened Wrappers
  import opened Conf
  import opened Reader

  /** An option and its value, as one `option=value` line writes them. */
  type Entry = (string, string)

  function HeaderLine(name: string): string {
    "[" + name + "]\n"
  }

  function OptionLine(e: Entry): string {
    e.0 + "=" + e.1 + "\n"
  }

  function OptionLines(entries: seq<Entry>): (r: seq<string>)
    ensures |r| == |entries|
    ensures forall k :: 0 <= k < |r| ==> r[k] == OptionLine(entries[k])
    decreases |entries|
  {
    if entries == [] then [] else [OptionLine(entries[0])] + OptionLines(entries[1..])
  }

  /** The lines of a written section. */
  function SectionLines(name: string, entries: seq<Entry>): seq<string> {
    [HeaderLine(name)] + OptionLines(entries)
  }

  predicate NoNewline(s: string) {
    forall k :: 0 <= k < |s| ==> s[k] != '\n'
  }

  /** A section name that reads back as written: not empty, no surrounding
      white space, no newline. */
  predicate WritableName(name: string) {
    name != [] && !IsSpace(name[0]) && !IsSpace(name[|name| - 1]) && NoNewline(name)
  }

  /** An entry that reads back as written: the option is not empty, holds no
      separator, has no surrounding white space and does not look like a
      comment or a header; the value has no surrounding white space and holds
      no comment marker; neither holds a newline. */
  ghost predicate WritableEntry(e: Entry) {
    && e.0 != [] && !IsSkipped(e.0) && e.0[0] != '['
    && !IsSpace(e.0[0]) && !IsSpace(e.0[|e.0| - 1])
    && (forall k :: 0 <= k < |e.0| ==> e.0[k] !in Separators)
    && (e.1 == [] || (!IsSpace(e.1[0]) && !IsSpace(e.1[|e.1| - 1])))
    && (forall p :: !MarkerAt(e.1, p))
    && NoNewline(e.0) && NoNewline(e.1)
  }

  /** No two entries name the same option once names are lower-cased. */
  predicate DistinctOptions(entries: seq<Entry>) {
    forall j, k :: 0 <= j < k < |entries| ==> ToLower(entries[j].0) != ToLower(entries[k].0)
  }

  /** The map after AddOption(section, option, value) for each entry in turn. */
  function WithEntries(d: Data, section: string, entries: seq<Entry>): (r: Data)
    ensures d.Keys <= r.Keys
    decreases |entries|
  {
    if entries == [] then d
    else WithEntries(WithOption(d, section, entries[0].0, entries[0].1), section, entries[1..])
  }

  /** Option lines written into a named section add their entries in order. */
  lemma {:induction false} ReadEntries(d: Data, cur: Cursor, entries: seq<Entry>)
    requires cur.section != ""
    requires forall k :: 0 <= k < |entries| ==> WritableEntry(entries[k])
    ensures var p := ParseAll(d, cur, OptionLines(entries));
      && p.err == None && p.data == WithEntries(d, cur.section, entries)
      && p.cursor == if entries == [] then cur else Cursor(cur.section, entries[|entries| - 1].0)
    decreases |entries|
  {
    if entries != [] {
      var e := entries[0];
      OptionLineOf(d, cur, e.0, e.1);
      var lines := OptionLines(entries);
      assert lines[0] == e.0 + "=" + e.1 + "\n";
      assert lines[1..] == OptionLines(entries[1..]);
      var d1, c1 := WithOption(d, cur.section, e.0, e.1), Cursor(cur.section, e.0);
      assert ParseLine(d, cur, lines[0]) == Next(d1, c1);
      assert ParseAll(d, cur, lines) == ParseAll(d1, c1, lines[1..]);
      ReadEntries(d1, c1, entries[1..]);
      if |entries| > 1 {
        assert entries[1..][|entries| - 2] == entries[|entries| - 1];
      }
    }
  }

  /** A written section, header and entries, reads back as that section with its entries. */
  lemma ReadSection(d: Data, cur: Cursor, name: string, entries: seq<Entry>)
    requires WritableName(name)
    requires forall k :: 0 <= k < |entries| ==> WritableEntry(entries[k])
    ensures var p := ParseAll(d, cur, SectionLines(name, entries));
      && p.err == None && p.data == WithEntries(WithSection(d, name), name, entries)
      && p.cursor == if entries == [] then Cursor(name, "") else Cursor(name, entries[|entries| - 1].0)
  {
    var lines := SectionLines(name, entries);
    HeaderLineOf(d, cur, name);
    assert lines[1..] == OptionLines(entries);
    ReadEntries(WithSection(d, name), Cursor(name, ""), entries);
  }

  /** Entries other than the option leave its stored value alone. */
  lemma {:induction false} WithEntriesKeeps(d: Data, section: string, entries: seq<Entry>, o: string)
    requires ToLower(section) in d && o in d[ToLower(section)]
    requires forall k :: 0 <= k < |entries| ==> ToLower(entries[k].0) != o
    ensures var r, s := WithEntries(d, section, entries), ToLower(section);
      s in r && o in r[s] && r[s][o] == d[s][o]
    decreases |entries|
  {
    if entries != [] {
      var d1 := WithOption(d, section, entries[0].0, entries[0].1);
      WithEntriesKeeps(d1, section, entries[1..], o);
    }
  }

  /** With distinct option names, every entry's value is stored under its option. */
  lemma {:induction false} WithEntriesLookup(d: Data, section: string, entries: seq<Entry>, k: int)
    requires DistinctOptions(entries)
    requires 0 <= k < |entries|
    ensures var r, s, o := WithEntries(d, section, entries), ToLower(section), ToLower(entries[k].0);
      s in r && o in r[s] && r[s][o] == entries[k].1
    decreases |entries|
  {
    var d1 := WithOption(d, section, entries[0].0, entries[0].1);
    if k == 0 {
      WithEntriesKeeps(d1, section, entries[1..], ToLower(entries[0].0));
    } else {
      WithEntriesLookup(d1, section, entries[1..], k - 1);
    }
  }

  /** The text of a written section splits back into its lines. */
  lemma SectionTextLines(name: string, entries: seq<Entry>)
    requires NoNewline(name)
    requires forall k :: 0 <= k < |entries| ==> NoNewline(entries[k].0) && NoNewline(entries[k].1)
    ensures Lines(Join(SectionLines(name, entries))) == SectionLines(name, entries)
  {
    var ls := SectionLines(name, entries);
    forall k | 0 <= k < |ls| ensures IsLine(ls[k]) {
      if k == 0 {
        assert ls[0] == "[" + name + "]" + "\n";
      } else {
        var e := entries[k - 1];
        assert ls[k] == e.0 + "=" + e.1 + "\n";
      }
    }
    LinesOfJoin(ls, []);
    assert Join(ls) + [] == Join(ls);
  }

  /** Reading the text of a written section into any configuration succeeds,
      and each entry is then found under its option in that section, whatever
      the case of the names used to look it up. */
  lemma ReadBack(d: Data, name: string, entries: seq<Entry>, k: int, section: string, option: string)
    requires WritableName(name)
    requires forall j :: 0 <= j < |entries| ==> WritableEntry(entries[j])
    requires DistinctOptions(entries)
    requires 0 <= k < |entries|
    requires ToLower(section) == ToLower(name) && ToLower(option) == ToLower(entries[k].0)
    ensures var p := ParseAll(d, Start, Lines(Join(SectionLines(name, entries))));
      p.err == None && RawString(p.data, section, option) == Success(entries[k].1)
  {
    SectionTextLines(name, entries);
    ReadSection(d, Start, name, entries);
    WithEntriesLookup(WithSection(d, name), name, entries, k);
  }

  /** A value written over two lines, `option=first` then a line `more`,
      reads back as `first`, a newline, and `more`. */
  lemma ReadMultiLine(d: Data, name: string, e: Entry, more: string, section: string, option: string)
    requires WritableName(name) && WritableEntry(e)
    requires more != [] && !IsSkipped(more) && more[0] != '['
    requires !IsSpace(more[0]) && !IsSpace(more[|more| - 1])
    requires forall k :: 0 <= k < |more| ==> more[k] !in Separators
    requires forall p :: !MarkerAt(more, p)
    requires ToLower(section) == ToLower(name) && ToLower(option) == ToLower(e.0)
    ensures var p := ParseAll(d, Start, SectionLines(name, [e]) + [more + "\n"]);
      p.err == None && RawString(p.data, section, option) == Success(e.1 + "\n" + more)
  {
    var lines := SectionLines(name, [e]);
    ReadSection(d, Start, name, [e]);
    var d2 := WithEntries(WithSection(d, name), name, [e]);
    assert d2 == WithOption(WithSection(d, name), name, e.0, e.1);
    var c2 := Cursor(name, e.0);
    ParseAllAppend(d, Start, lines, [more + "\n"]);
    ContinuationLineOf(d2, c2, more);
    assert RawString(d2, name, e.0) == Success(e.1);
    var d3 := WithOption(d2, name, e.0, e.1 + "\n" + more);
    assert [more + "\n"][1..] == [];
    assert ParseAll(d2, c2, [more + "\n"]) == Parsed(d3, c2, None);
  }
}
