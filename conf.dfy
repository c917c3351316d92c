/**
 * The in-memory configuration: a map from section names to maps from option
 * names to values, the four operations that change it, the comment and
 * separator scanners the parser uses, and the error values with their
 * messages.
 */
module Conf {
  import opened Text
  import opened Wrappers

  // Error reasons, numbered in declaration order as Go's `iota` numbers them.
  const SectionNotFound: int := 0
  const OptionNotFound: int := 1
  const MaxDepthReached: int := 2
  const BlankSection: int := 3
  const CouldNotParse: int := 4

  /** The reserved section, present from construction on, never removed. */
  const DefaultSection: string := "default"

  /** Maximum depth of variable unfolding, reported by MaxDepthReached. */
  const DepthValues: nat := 200

  /** Sections to options to values. */
  type Data = map<string, map<string, string>>

  // ---------------------------------------------------------------------
  // Errors

  /** Decimal rendering of a natural number, as `%d` prints it. */
  function Decimal(n: nat): (r: string)
    ensures |r| > 0
    ensures forall k :: 0 <= k < |r| ==> '0' <= r[k] <= '9'
  {
    if n < 10 then [('0' as int + n) as char] else Decimal(n / 10) + [('0' as int + n % 10) as char]
  }

  /** The depth limit prints as `200`. */
  lemma DecimalDepthValues()
    ensures Decimal(DepthValues) == "200"
  {
  }

  /** An error of the lookup functions. */
  datatype GetError = GetError(reason: int, valueType: string, value: string, section: string, option: string)
  {
    /** The message for each lookup reason; any other reason gives the fallback. */
    function String(): (msg: string)
      ensures msg == "invalid get error" <==>
        reason != SectionNotFound && reason != OptionNotFound && reason != CouldNotParse && reason != MaxDepthReached
      ensures reason == SectionNotFound ==> |section| + 9 <= |msg| && msg[..9] == "section '" && msg[9..9 + |section|] == section
      ensures reason == CouldNotParse ==> |valueType| + 16 <= |msg| && msg[..16] == "could not parse " && msg[16..16 + |valueType|] == valueType
    {
      if reason == SectionNotFound then
        "section '" + section + "' not found"
      else if reason == OptionNotFound then
        "option '" + option + "' not found in section '" + section + "'"
      else if reason == CouldNotParse then
        "could not parse " + valueType + " value '" + value + "'"
      else if reason == MaxDepthReached then
        "possible cycle while unfolding variables: max depth of " + Decimal(DepthValues) + " reached"
      else
        "invalid get error"
    }
  }

  /** An error of the parser, carrying the offending (trimmed) line. */
  datatype ReadError = ReadError(reason: int, line: string)
  {
    /** The message for each parse reason; any other reason gives the fallback. */
    function String(): (msg: string)
      ensures msg == "invalid read error" <==> reason != BlankSection && reason != CouldNotParse
      ensures reason == CouldNotParse ==> |line| <= |msg| && msg[|msg| - |line|..] == line
    {
      if reason == BlankSection then
        "empty section name not allowed"
      else if reason == CouldNotParse then
        "could not parse line: " + line
      else
        "invalid read error"
    }
  }

  // ---------------------------------------------------------------------
  // The data map and the operations on it, as functions of the old map

  /** The map a fresh configuration starts from: only the default section, empty. */
  function NewData(): (d: Data)
    ensures d.Keys == {DefaultSection} && d[DefaultSection] == map[]
  {
    map[DefaultSection := map[]]
  }

  /** Every section name and every option name is stored lower-cased. */
  ghost predicate KeysLower(d: Data) {
    forall s :: s in d ==> IsLower(s) && forall o :: o in d[s] ==> IsLower(o)
  }

  /** The map after AddSection(section). */
  function WithSection(d: Data, section: string): (r: Data)
    ensures ToLower(section) in r
    ensures r.Keys == d.Keys + {ToLower(section)}
    ensures forall s :: s in d ==> r[s] == d[s]
    ensures ToLower(section) !in d ==> r[ToLower(section)] == map[]
  {
    var s := ToLower(section);
    if s in d then d else d[s := map[]]
  }

  /** The map after RemoveSection(section). */
  function WithoutSection(d: Data, section: string): (r: Data)
    ensures ToLower(section) !in d || ToLower(section) == DefaultSection ==> r == d
    ensures ToLower(section) in d && ToLower(section) != DefaultSection ==> r.Keys == d.Keys - {ToLower(section)}
    ensures forall s :: s in r ==> s in d && r[s] == d[s]
  {
    var s := ToLower(section);
    if s !in d || s == DefaultSection then d else d - {s}
  }

  /** The map after AddOption(section, option, value). */
  function WithOption(d: Data, section: string, option: string, value: string): (r: Data)
    ensures var s, o := ToLower(section), ToLower(option);
      && s in r && o in r[s] && r[s][o] == value
      && r.Keys == d.Keys + {s}
      && r[s].Keys == (if s in d then d[s].Keys else {}) + {o}
      && (s in d ==> forall p :: p in d[s] && p != o ==> r[s][p] == d[s][p])
    ensures forall t :: t in d && t != ToLower(section) ==> r[t] == d[t]
  {
    var d1 := WithSection(d, section);
    var s, o := ToLower(section), ToLower(option);
    d1[s := d1[s][o := value]]
  }

  /** The map after RemoveOption(section, option). */
  function WithoutOption(d: Data, section: string, option: string): (r: Data)
    ensures ToLower(section) !in d ==> r == d
    ensures var s, o := ToLower(section), ToLower(option);
      s in d ==> && r.Keys == d.Keys
                 && r[s].Keys == d[s].Keys - {o}
                 && forall p :: p in r[s] ==> r[s][p] == d[s][p]
    ensures forall t :: t in d && t != ToLower(section) ==> r[t] == d[t]
  {
    var s, o := ToLower(section), ToLower(option);
    if s !in d then d else d[s := d[s] - {o}]
  }

  /** Raw lookup of an option: the stored value, or which of the two names is missing.
      (The accessor that does this lives in a file this model does not cover.) */
  function RawString(d: Data, section: string, option: string): (r: Result<string, GetError>)
    ensures var s, o := ToLower(section), ToLower(option);
      && (r.Success? <==> s in d && o in d[s])
      && (r.Success? ==> r.value == d[s][o])
      && (r.Failure? ==> r.error.reason == (if s in d then OptionNotFound else SectionNotFound))
  {
    var s, o := ToLower(section), ToLower(option);
    if s !in d then Failure(GetError(SectionNotFound, "", "", s, o))
    else if o !in d[s] then Failure(GetError(OptionNotFound, "", "", s, o))
    else Success(d[s][o])
  }

  // ---------------------------------------------------------------------
  // Any sequence of the four operations keeps the map's invariants

  /** One call of a mutating operation on a configuration. */
  datatype Op =
    | AddSectionOp(section: string)
    | RemoveSectionOp(section: string)
    | AddOptionOp(section: string, option: string, value: string)
    | RemoveOptionOp(section: string, option: string)

  function Apply(d: Data, op: Op): Data {
    match op
    case AddSectionOp(s) => WithSection(d, s)
    case RemoveSectionOp(s) => WithoutSection(d, s)
    case AddOptionOp(s, o, v) => WithOption(d, s, o, v)
    case RemoveOptionOp(s, o) => WithoutOption(d, s, o)
  }

  function ApplyAll(d: Data, ops: seq<Op>): Data
    decreases |ops|
  {
    if ops == [] then d else ApplyAll(Apply(d, ops[0]), ops[1..])
  }

  /** Adding a section keeps the default section and the lower-cased keys. */
  lemma WithSectionKeepsInvariants(d: Data, section: string)
    requires DefaultSection in d && KeysLower(d)
    ensures var r := WithSection(d, section); DefaultSection in r && KeysLower(r)
  {
    ToLowerIdempotent(section);
  }

  /** Adding an option keeps the default section and the lower-cased keys. */
  lemma WithOptionKeepsInvariants(d: Data, section: string, option: string, value: string)
    requires DefaultSection in d && KeysLower(d)
    ensures var r := WithOption(d, section, option, value); DefaultSection in r && KeysLower(r)
  {
    ToLowerIdempotent(section);
    ToLowerIdempotent(option);
  }

  /** One operation keeps the default section and the lower-cased keys. */
  lemma ApplyKeepsInvariants(d: Data, op: Op)
    requires DefaultSection in d && KeysLower(d)
    ensures DefaultSection in Apply(d, op) && KeysLower(Apply(d, op))
  {
    match op
    case AddSectionOp(s) => WithSectionKeepsInvariants(d, s);
    case RemoveSectionOp(s) =>
    case AddOptionOp(s, o, v) => WithOptionKeepsInvariants(d, s, o, v);
    case RemoveOptionOp(s, o) =>
  }

  /** The default section survives any sequence of operations, and every
      key stays lower-cased. */
  lemma {:induction false} ApplyAllKeepsInvariants(d: Data, ops: seq<Op>)
    requires DefaultSection in d && KeysLower(d)
    ensures DefaultSection in ApplyAll(d, ops) && KeysLower(ApplyAll(d, ops))
    decreases |ops|
  {
    if ops != [] {
      ApplyKeepsInvariants(d, ops[0]);
      ApplyAllKeepsInvariants(Apply(d, ops[0]), ops[1..]);
    }
  }

  /** Whatever a client does with a new configuration, `default` is still there. */
  lemma DefaultSurvives(ops: seq<Op>)
    ensures DefaultSection in ApplyAll(NewData(), ops)
    ensures KeysLower(ApplyAll(NewData(), ops))
  {
    assert IsLower(DefaultSection);
    ApplyAllKeepsInvariants(NewData(), ops);
  }

  // ---------------------------------------------------------------------
  // The configuration object

  class ConfigFile {
    /** Maps sections to options to values. */
    var data: Data

    /** NewConfigFile: an empty map, then the default section. */
    constructor ()
      ensures data == NewData()
    {
      data := map[];
      new;
      var _ := AddSection(DefaultSection);
      assert ToLower(DefaultSection) == DefaultSection;
    }

    /** Inserts an empty section unless the lower-cased name is already there. */
    method AddSection(section: string) returns (inserted: bool)
      modifies this
      ensures inserted <==> ToLower(section) !in old(data)
      ensures data == WithSection(old(data), section)
    {
      var s := ToLower(section);
      if s in data {
        return false;
      }
      data := data[s := map[]];
      return true;
    }

    /** Deletes a section and each of its options, except the default section. */
    method RemoveSection(section: string) returns (removed: bool)
      modifies this
      ensures removed <==> ToLower(section) in old(data) && ToLower(section) != DefaultSection
      ensures data == WithoutSection(old(data), section)
    {
      var s := ToLower(section);
      if s !in data {
        return false;
      }
      if s == DefaultSection {
        return false;  // the default section cannot be removed
      }
      var rest := data[s].Keys;
      while rest != {}
        invariant s in data && data == old(data)[s := data[s]]
        invariant data[s].Keys == rest
        decreases rest
      {
        var o :| o in rest;
        data := data[s := data[s] - {o}];
        rest := rest - {o};
      }
      data := data - {s};
      return true;
    }

    /** Sets an option, creating its section first if need be; reports a fresh insertion. */
    method AddOption(section: string, option: string, value: string) returns (added: bool)
      modifies this
      ensures added <==> ToLower(section) !in old(data) || ToLower(option) !in old(data)[ToLower(section)]
      ensures data == WithOption(old(data), section, option, value)
    {
      var _ := AddSection(section);  // make sure the section exists
      var s, o := ToLower(section), ToLower(option);
      var ok := o in data[s];
      data := data[s := data[s][o := value]];
      return !ok;
    }

    /** Deletes an option; reports whether it was there. */
    method RemoveOption(section: string, option: string) returns (removed: bool)
      modifies this
      ensures removed <==> ToLower(section) in old(data) && ToLower(option) in old(data)[ToLower(section)]
      ensures data == WithoutOption(old(data), section, option)
    {
      var s, o := ToLower(section), ToLower(option);
      if s !in data {
        return false;
      }
      var ok := o in data[s];
      data := data[s := data[s] - {o}];
      return ok;
    }

    /** The stored value of an option, looked up under the lower-cased names. */
    function GetRawString(section: string, option: string): (r: Result<string, GetError>)
      reads this
      ensures r.Success? <==> ToLower(section) in data && ToLower(option) in data[ToLower(section)]
      ensures r.Success? ==> r.value == data[ToLower(section)][ToLower(option)]
    {
      RawString(data, section, option)
    }
  }

  // ---------------------------------------------------------------------
  // Comment stripping

  /** The four comment markers: `;` or `#` preceded by a space or a tab. */
  const CommentMarkers: seq<string> := [" ;", "\t;", " #", "\t#"]

  /** A comment marker starts at position `p` of `s`. */
  predicate MarkerAt(s: string, p: int) {
    0 <= p && p + 1 < |s| && (s[p] == ' ' || s[p] == '\t') && (s[p + 1] == ';' || s[p + 1] == '#')
  }

  /** An occurrence of any one of the four markers is a marker position, and back. */
  lemma MarkerOccurrence(s: string, p: int)
    ensures MarkerAt(s, p) <==> exists k :: 0 <= k < |CommentMarkers| && OccursAt(s, CommentMarkers[k], p)
  {
    if MarkerAt(s, p) {
      var k := if s[p] == ' ' then (if s[p + 1] == ';' then 0 else 2) else (if s[p + 1] == ';' then 1 else 3);
      assert s[p..p + 2] == [s[p], s[p + 1]];
      assert OccursAt(s, CommentMarkers[k], p);
    }
    if exists k :: 0 <= k < |CommentMarkers| && OccursAt(s, CommentMarkers[k], p) {
      var k :| 0 <= k < |CommentMarkers| && OccursAt(s, CommentMarkers[k], p);
      assert s[p] == s[p..p + 2][0] && s[p + 1] == s[p..p + 2][1];
    }
  }

  /** The first marker position at or after `p`, or |l| when there is none. */
  function CommentStart(l: string, p: nat): (c: nat)
    requires p <= |l|
    ensures p <= c <= |l|
    ensures c < |l| ==> MarkerAt(l, c)
    ensures forall q :: p <= q < c ==> !MarkerAt(l, q)
    decreases |l| - p
  {
    if p + 1 >= |l| then |l|
    else if MarkerAt(l, p) then p
    else CommentStart(l, p + 1)
  }

  /** The text of `l` before its first comment marker: a prefix of `l` that
      holds no marker, and is either all of `l` or stops just before one. */
  function Uncommented(l: string): (r: string)
    ensures r <= l
    ensures forall p :: !MarkerAt(r, p)
    ensures |r| == |l| || MarkerAt(l, |r|)
  {
    var c := CommentStart(l, 0);
    var r := l[..c];
    assert forall p :: MarkerAt(r, p) ==> MarkerAt(l, p);
    r
  }

  /** Those three properties determine the stripped text: no other prefix has them. */
  lemma UncommentedUnique(l: string, r: string)
    requires r <= l
    requires forall p :: !MarkerAt(r, p)
    requires |r| == |l| || MarkerAt(l, |r|)
    ensures r == Uncommented(l)
  {
    var u := Uncommented(l);
    // a prefix of l has the markers of l that lie wholly inside it
    assert forall q :: 0 <= q < |r| - 1 ==> (MarkerAt(l, q) <==> MarkerAt(r, q));
    assert forall q :: 0 <= q < |u| - 1 ==> (MarkerAt(l, q) <==> MarkerAt(u, q));
    // two markers never overlap: the second character of one cannot start another
    assert forall q :: !(MarkerAt(l, q) && MarkerAt(l, q + 1));
  }

  /** Stripping comments twice is stripping them once. */
  lemma UncommentedIdempotent(l: string)
    ensures Uncommented(Uncommented(l)) == Uncommented(l)
  {
    var r := Uncommented(l);
    UncommentedUnique(r, r);
  }

  /** A line without a marker is left as it is. */
  lemma UncommentedNoMarker(l: string)
    requires forall p :: !MarkerAt(l, p)
    ensures Uncommented(l) == l
  {
    UncommentedUnique(l, l);
  }

  /** stripComments: truncates the line at the first occurrence of each marker in turn. */
  method StripComments(l: string) returns (r: string)
    ensures r == Uncommented(l)
    ensures forall k, p :: 0 <= k < |CommentMarkers| ==> !OccursAt(r, CommentMarkers[k], p)
  {
    r := l;
    var markers := CommentMarkers;
    for k := 0 to |markers|
      invariant r <= l
      invariant forall j, p :: 0 <= j < k ==> !OccursAt(r, markers[j], p)
      invariant |r| == |l| || MarkerAt(l, |r|)
    {
      var i := Index(r, markers[k]);
      if i != -1 {
        var t := r[..i];
        forall j, p | 0 <= j <= k ensures !OccursAt(t, markers[j], p) {
          if 0 <= p && p + |markers[j]| <= |t| {
            // inside the prefix, t and r hold the same text, and r has no
            // occurrence there: none of an earlier marker, none of this one before i
            assert t[p..p + |markers[j]|] == r[p..p + |markers[j]|];
            assert !OccursAt(r, markers[j], p);
          }
        }
        MarkerOccurrence(r, i);
        assert MarkerAt(l, i) by {
          assert r[i] == l[i] && r[i + 1] == l[i + 1];
        }
        r := t;
      }
    }
    forall p ensures !MarkerAt(r, p) {
      MarkerOccurrence(r, p);
    }
    UncommentedUnique(l, r);
  }

  // ---------------------------------------------------------------------
  // Separator search

  /** The first position of `s` holding a character of `delim`, or -1 when there is none. */
  function FirstIndexOf(s: string, delim: seq<char>): (i: int)
    ensures -1 <= i < |s|
    ensures i == -1 <==> forall k :: 0 <= k < |s| ==> s[k] !in delim
    ensures 0 <= i ==> s[i] in delim && forall k :: 0 <= k < i ==> s[k] !in delim
  {
    if s == [] then -1
    else if s[0] in delim then 0
    else
      var j := FirstIndexOf(s[1..], delim);
      if j == -1 then -1 else j + 1
  }

  /** firstIndex: scans `s` left to right, trying every delimiter at each position. */
  method FirstIndex(s: string, delim: seq<char>) returns (i: int)
    ensures i == FirstIndexOf(s, delim)
    ensures i == -1 <==> forall k :: 0 <= k < |s| ==> s[k] !in delim
    ensures 0 <= i ==> s[i] in delim && forall k :: 0 <= k < i ==> s[k] !in delim
  {
    for n := 0 to |s|
      invariant forall k :: 0 <= k < n ==> s[k] !in delim
    {
      for j := 0 to |delim|
        invariant forall m :: 0 <= m < j ==> s[n] != delim[m]
      {
        if s[n] == delim[j] {
          return n;
        }
      }
    }
    return -1;
  }
}
