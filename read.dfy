/**
 * The line-oriented parser. `Read` works through the input one complete line
 * at a time, keeping the current section and the current option (the one a
 * continuation line extends), and fills a configuration through AddSection
 * and AddOption. `ParseLine` and `ParseAll` state what it does as functions
 * of the old map.
 */
module Reader {
  import opened Text
  import opened Wrappers
  import opened Conf

  // ---------------------------------------------------------------------
  // Splitting the input into lines

  /** A complete line as `ReadString('\n')` returns it: ends in its only newline. */
  predicate IsLine(l: string) {
    |l| > 0 && l[|l| - 1] == '\n' && forall k :: 0 <= k < |l| - 1 ==> l[k] != '\n'
  }

  /** The concatenation of a sequence of lines. */
  function Join(ls: seq<string>): string
    decreases |ls|
  {
    if ls == [] then [] else ls[0] + Join(ls[1..])
  }

  /** The complete lines of the input, in order, each with its newline; a
      final fragment without a newline is not a line (the reader stops at EOF). */
  function Lines(s: string): (r: seq<string>)
    ensures forall k :: 0 <= k < |r| ==> IsLine(r[k])
    decreases |s|
  {
    var i := Index(s, "\n");
    if i == -1 then []
    else
      assert s[i..i + 1] == "\n";
      assert forall k :: 0 <= k < i ==> s[k] != '\n' by {
        forall k | 0 <= k < i ensures s[k] != '\n' {
          assert s[k..k + 1] == [s[k]];
          assert !OccursAt(s, "\n", k);
        }
      }
      [s[..i + 1]] + Lines(s[i + 1..])
  }

  /** The lines cover the input up to a final fragment that holds no newline. */
  lemma {:induction false} LinesCover(s: string)
    ensures Join(Lines(s)) <= s
    ensures forall k :: |Join(Lines(s))| <= k < |s| ==> s[k] != '\n'
    decreases |s|
  {
    var i := Index(s, "\n");
    if i == -1 {
      forall k | 0 <= k < |s| ensures s[k] != '\n' {
        assert s[k..k + 1] == [s[k]];
        assert !OccursAt(s, "\n", k);
      }
    } else {
      var t := s[i + 1..];
      LinesCover(t);
      assert Lines(s) == [s[..i + 1]] + Lines(t);
      assert Lines(s)[1..] == Lines(t);
      assert Join(Lines(s)) == s[..i + 1] + Join(Lines(t));
      assert s == s[..i + 1] + t;
    }
  }

  /** Splitting complete lines followed by a fragment gives back exactly those lines. */
  lemma {:induction false} LinesOfJoin(ls: seq<string>, fragment: string)
    requires forall k :: 0 <= k < |ls| ==> IsLine(ls[k])
    requires forall k :: 0 <= k < |fragment| ==> fragment[k] != '\n'
    ensures Lines(Join(ls) + fragment) == ls
    decreases |ls|
  {
    var s := Join(ls) + fragment;
    if ls == [] {
      assert s == fragment;
      forall q | 0 <= q < |s| ensures !OccursAt(s, "\n", q) {
        assert s[q..q + 1] == [s[q]];
      }
    } else {
      var l, t := ls[0], Join(ls[1..]) + fragment;
      assert s == l + t;
      var n := |l| - 1;
      assert OccursAt(s, "\n", n) by {
        assert s[n..n + 1] == [l[n]];
      }
      forall q | 0 <= q < n ensures !OccursAt(s, "\n", q) {
        assert s[q..q + 1] == [l[q]];
      }
      assert Index(s, "\n") == n;
      assert s[..n + 1] == l && s[n + 1..] == t;
      LinesOfJoin(ls[1..], fragment);
    }
  }

  // ---------------------------------------------------------------------
  // One line

  /** The parser's position: the current section and the option that a
      continuation line would extend ("" when there is none). */
  datatype Cursor = Cursor(section: string, option: string)

  /** The state before the first line: section "default", no option. */
  const Start: Cursor := Cursor("default", "")

  /** What one line does: go on with a new map and cursor, or stop with an error. */
  datatype Step = Next(data: Data, cursor: Cursor) | Stop(err: ReadError)

  /** The two characters that separate an option from its value. */
  const Separators: seq<char> := ['=', ':']

  /** A trimmed line that the parser skips as blank or as a comment. */
  predicate IsSkipped(l: string): (b: bool)
    ensures b ==> l == [] || l[0] == '#' || l[0] == ';' || l[0] == 'r' || l[0] == 'R'
  {
    // "rem" in any case starts with 'r' or 'R'
    assert |l| >= 3 ==> ToLower(l[..3])[0] == LowerChar(l[0]);
    |l| == 0 || l[0] == '#' || l[0] == ';' || (|l| >= 3 && ToLower(l[..3]) == "rem")
  }

  /** A line is not skipped when its first character cannot start a comment. */
  lemma NotSkipped(l: string)
    requires |l| > 0 && l[0] != '#' && l[0] != ';' && l[0] != 'r' && l[0] != 'R'
    ensures !IsSkipped(l)
  {
    if |l| >= 3 {
      assert ToLower(l[..3])[0] == LowerChar(l[0]) != 'r';
    }
  }

  /** A trimmed line that opens a section. */
  predicate IsHeader(l: string): (b: bool)
    ensures b ==> |l| >= 2
  {
    |l| > 0 && l[0] == '[' && l[|l| - 1] == ']'
  }

  /** The section name a header line names: the trimmed text between the brackets. */
  function HeaderName(l: string): (name: string)
    requires IsHeader(l)
    ensures |name| <= |l| - 2
    ensures name == [] || (!IsSpace(name[0]) && !IsSpace(name[|name| - 1]))
  {
    TrimSpace(l[1..|l| - 1])
  }

  /** The effect of one raw line, cases tried in the order the parser tries them. */
  function ParseLine(d: Data, cur: Cursor, raw: string): (r: Step)
    ensures r.Stop? ==> r.err.line == TrimSpace(raw)
    ensures r.Stop? ==> r.err.reason == (if cur.section == "" then BlankSection else CouldNotParse)
    ensures r.Next? ==> d.Keys <= r.data.Keys
  {
    var l := TrimSpace(raw);
    if IsSkipped(l) then Next(d, cur)
    else if IsHeader(l) then
      var s := HeaderName(l);
      Next(WithSection(d, s), Cursor(s, ""))
    else if cur.section == "" then Stop(ReadError(BlankSection, l))
    else
      var i := FirstIndexOf(l, Separators);
      if i > 0 then
        var o := TrimSpace(l[..i]);
        Next(WithOption(d, cur.section, o, TrimSpace(Uncommented(l[i + 1..]))), Cursor(cur.section, o))
      else if cur.section != "" && cur.option != "" then
        var prev := match RawString(d, cur.section, cur.option)
                    case Success(v) => v
                    case Failure(_) => "";
        Next(WithOption(d, cur.section, cur.option, prev + "\n" + TrimSpace(Uncommented(l))), cur)
      else Stop(ReadError(CouldNotParse, l))
  }

  /** Blank and comment lines change nothing, not even the cursor; a line
      such as `remote=1` is such a comment too. */
  lemma LineSkipped(d: Data, cur: Cursor, raw: string)
    requires IsSkipped(TrimSpace(raw))
    ensures ParseLine(d, cur, raw) == Next(d, cur)
  {
  }

  /** A header makes its section current, creating it if need be, and forgets the option. */
  lemma LineHeader(d: Data, cur: Cursor, raw: string)
    requires var l := TrimSpace(raw); !IsSkipped(l) && IsHeader(l)
    ensures var s := HeaderName(TrimSpace(raw));
      ParseLine(d, cur, raw) == Next(WithSection(d, s), Cursor(s, ""))
  {
  }

  /** Any other line after an empty header is a blank-section error. */
  lemma LineBlankSection(d: Data, cur: Cursor, raw: string)
    requires var l := TrimSpace(raw); !IsSkipped(l) && !IsHeader(l)
    requires cur.section == ""
    ensures ParseLine(d, cur, raw) == Stop(ReadError(BlankSection, TrimSpace(raw)))
  {
  }

  /** A separator after the first character splits the line into an option and
      its value, stored in the current section; the option becomes current. */
  lemma LineOption(d: Data, cur: Cursor, raw: string)
    requires var l := TrimSpace(raw); !IsSkipped(l) && !IsHeader(l)
    requires cur.section != ""
    requires FirstIndexOf(TrimSpace(raw), Separators) > 0
    ensures var l := TrimSpace(raw);
      var i := FirstIndexOf(l, Separators);
      var o := TrimSpace(l[..i]);
      ParseLine(d, cur, raw) == Next(WithOption(d, cur.section, o, TrimSpace(Uncommented(l[i + 1..]))), Cursor(cur.section, o))
  {
  }

  /** Without such a separator, a line extends the current option's value. */
  lemma LineContinuation(d: Data, cur: Cursor, raw: string)
    requires var l := TrimSpace(raw); !IsSkipped(l) && !IsHeader(l)
    requires cur.section != "" && cur.option != ""
    requires FirstIndexOf(TrimSpace(raw), Separators) <= 0
    ensures var prev := match RawString(d, cur.section, cur.option) case Success(v) => v case Failure(_) => "";
      ParseLine(d, cur, raw) == Next(WithOption(d, cur.section, cur.option, prev + "\n" + TrimSpace(Uncommented(TrimSpace(raw)))), cur)
  {
  }

  /** ... and with no current option it is a could-not-parse error. */
  lemma LineCouldNotParse(d: Data, cur: Cursor, raw: string)
    requires var l := TrimSpace(raw); !IsSkipped(l) && !IsHeader(l)
    requires cur.section != "" && cur.option == ""
    requires FirstIndexOf(TrimSpace(raw), Separators) <= 0
    ensures ParseLine(d, cur, raw) == Stop(ReadError(CouldNotParse, TrimSpace(raw)))
  {
  }

  /** A section name without surrounding white space, written as `[name]`,
      reads back as a header for that section. */
  lemma HeaderLineOf(d: Data, cur: Cursor, name: string)
    requires name == [] || (!IsSpace(name[0]) && !IsSpace(name[|name| - 1]))
    ensures ParseLine(d, cur, "[" + name + "]\n") == Next(WithSection(d, name), Cursor(name, ""))
  {
    var l := "[" + name + "]";
    assert "[" + name + "]\n" == l + "\n";
    TrimSpaceOfLine(l);
    NotSkipped(l);
    assert l[1..|l| - 1] == name;
    TrimSpaceOfTrimmed(name);
    LineHeader(d, cur, l + "\n");
  }

  /** A written option line, read with its newline, trims back to its text. */
  lemma OptionLineTrim(option: string, value: string)
    requires option != [] && !IsSpace(option[0])
    requires value == [] || !IsSpace(value[|value| - 1])
    ensures var l := option + "=" + value; TrimSpace(l + "\n") == l
  {
    var l := option + "=" + value;
    assert l[0] == option[0];
    assert l[|l| - 1] == if value == [] then '=' else value[|value| - 1];
    TrimSpaceOfLine(l);
  }

  /** A written option line is neither a comment nor a header when its option is neither. */
  lemma OptionLineKind(option: string, value: string)
    requires !IsSkipped(option) && option[0] != '['
    requires forall k :: 0 <= k < |option| ==> option[k] !in Separators
    ensures var l := option + "=" + value; !IsSkipped(l) && !IsHeader(l)
  {
    var l := option + "=" + value;
    var n := |option|;
    assert l[0] == option[0] && l[n] == '=';
    if |l| >= 3 {
      if n >= 3 {
        assert l[..3] == option[..3];
      } else {
        assert ToLower(l[..3])[n] == LowerChar(l[n]) == '=';
      }
    }
  }

  /** The first separator of a written option line is the one after the option. */
  lemma OptionLineSeparator(option: string, value: string)
    requires forall k :: 0 <= k < |option| ==> option[k] !in Separators
    ensures var l := option + "=" + value;
      && FirstIndexOf(l, Separators) == |option|
      && l[..|option|] == option && l[|option| + 1..] == value
  {
    var l := option + "=" + value;
    var n := |option|;
    assert l[n] == '=' && l[n] in Separators;
    assert forall k :: 0 <= k < n ==> l[k] == option[k];
  }

  /** The text of a written option line, under the conditions of OptionLineOf:
      it is its own trimming, is neither a comment nor a header, and its
      first separator is the one after the name. */
  lemma OptionLineText(option: string, value: string)
    requires !IsSkipped(option) && option[0] != '['
    requires !IsSpace(option[0]) && !IsSpace(option[|option| - 1])
    requires forall k :: 0 <= k < |option| ==> option[k] !in Separators
    requires value == [] || (!IsSpace(value[0]) && !IsSpace(value[|value| - 1]))
    ensures var l := option + "=" + value;
      && TrimSpace(l + "\n") == l && !IsSkipped(l) && !IsHeader(l)
      && FirstIndexOf(l, Separators) == |option|
      && l[..|option|] == option && l[|option| + 1..] == value
  {
    OptionLineTrim(option, value);
    OptionLineKind(option, value);
    OptionLineSeparator(option, value);
  }

  /** An option written as `option=value` reads back as that option and value
      in the current section, provided the name holds no separator and does
      not look like a comment or a header, and the value holds no comment
      marker; neither may have surrounding white space. */
  lemma OptionLineOf(d: Data, cur: Cursor, option: string, value: string)
    requires cur.section != ""
    requires !IsSkipped(option) && option[0] != '['
    requires !IsSpace(option[0]) && !IsSpace(option[|option| - 1])
    requires forall k :: 0 <= k < |option| ==> option[k] !in Separators
    requires value == [] || (!IsSpace(value[0]) && !IsSpace(value[|value| - 1]))
    requires forall p :: !MarkerAt(value, p)
    ensures ParseLine(d, cur, option + "=" + value + "\n") ==
      Next(WithOption(d, cur.section, option, value), Cursor(cur.section, option))
  {
    var l := option + "=" + value;
    assert option + "=" + value + "\n" == l + "\n";
    OptionLineText(option, value);
    TrimSpaceOfTrimmed(option);
    UncommentedNoMarker(value);
    TrimSpaceOfTrimmed(value);
    LineOption(d, cur, l + "\n");
  }

  /** An option whose name begins with `rem` in any case, written as
      `option=value`, is taken for a comment: the line changes nothing, so
      such an option cannot be read back. */
  lemma RemOptionSkipped(d: Data, cur: Cursor, option: string, value: string)
    requires |option| >= 3 && ToLower(option[..3]) == "rem"
    requires !IsSpace(option[0])
    requires value == [] || !IsSpace(value[|value| - 1])
    ensures ParseLine(d, cur, option + "=" + value + "\n") == Next(d, cur)
  {
    var l := option + "=" + value;
    assert option + "=" + value + "\n" == l + "\n";
    assert l[0] == option[0] && l[..3] == option[..3];
    assert l[|l| - 1] == if value == [] then '=' else value[|value| - 1];
    TrimSpaceOfLine(l);
    LineSkipped(d, cur, l + "\n");
  }

  /** A line holding no separator and no comment marker, written after an
      option, extends that option's value by a newline and the line's text;
      the cursor stays where it was. */
  lemma ContinuationLineOf(d: Data, cur: Cursor, text: string)
    requires cur.section != "" && cur.option != ""
    requires text != [] && !IsSkipped(text) && text[0] != '['
    requires !IsSpace(text[0]) && !IsSpace(text[|text| - 1])
    requires forall k :: 0 <= k < |text| ==> text[k] !in Separators
    requires forall p :: !MarkerAt(text, p)
    ensures var prev := match RawString(d, cur.section, cur.option) case Success(v) => v case Failure(_) => "";
      ParseLine(d, cur, text + "\n") == Next(WithOption(d, cur.section, cur.option, prev + "\n" + text), cur)
  {
    TrimSpaceOfLine(text);
    UncommentedNoMarker(text);
    TrimSpaceOfTrimmed(text);
    LineContinuation(d, cur, text + "\n");
  }

  // ---------------------------------------------------------------------
  // A sequence of lines

  /** The map, the cursor and the error (if any) after a sequence of lines. */
  datatype Parsed = Parsed(data: Data, cursor: Cursor, err: Option<ReadError>)

  /** All lines in order; the first error stops the parse, keeping what the
      earlier lines did. */
  function ParseAll(d: Data, cur: Cursor, lines: seq<string>): (p: Parsed)
    ensures d.Keys <= p.data.Keys
    ensures p.err.Some? ==> p.err.value.reason == BlankSection || p.err.value.reason == CouldNotParse
    decreases |lines|
  {
    if lines == [] then Parsed(d, cur, None)
    else
      match ParseLine(d, cur, lines[0])
      case Stop(e) => Parsed(d, cur, Some(e))
      case Next(d', cur') => ParseAll(d', cur', lines[1..])
  }

  /** Parsing `a + b` is parsing `a`, then, unless `a` failed, parsing `b`
      from where `a` left off: the first error ends the parse and the map keeps
      what the lines before it did. */
  lemma {:induction false} ParseAllAppend(d: Data, cur: Cursor, a: seq<string>, b: seq<string>)
    ensures var p := ParseAll(d, cur, a);
      ParseAll(d, cur, a + b) == if p.err.Some? then p else ParseAll(p.data, p.cursor, b)
    decreases |a|
  {
    if a == [] {
      assert a + b == b;
    } else {
      assert (a + b)[0] == a[0] && (a + b)[1..] == a[1..] + b;
      match ParseLine(d, cur, a[0])
      case Stop(e) =>
      case Next(d', cur') => ParseAllAppend(d', cur', a[1..], b);
    }
  }

  /** One line keeps the default section and the lower-casing of every key. */
  lemma ParseLineKeepsInvariants(d: Data, cur: Cursor, raw: string)
    requires DefaultSection in d && KeysLower(d)
    ensures var r := ParseLine(d, cur, raw);
      r.Next? ==> DefaultSection in r.data && KeysLower(r.data)
  {
    var l := TrimSpace(raw);
    if IsSkipped(l) {
      LineSkipped(d, cur, raw);
    } else if IsHeader(l) {
      LineHeader(d, cur, raw);
      WithSectionKeepsInvariants(d, HeaderName(l));
    } else if cur.section == "" {
      LineBlankSection(d, cur, raw);
    } else {
      var i := FirstIndexOf(l, Separators);
      if i > 0 {
        OptionLineKeepsInvariants(d, cur, raw);
      } else if cur.option != "" {
        LineContinuation(d, cur, raw);
        var prev := match RawString(d, cur.section, cur.option) case Success(v) => v case Failure(_) => "";
        WithOptionKeepsInvariants(d, cur.section, cur.option, prev + "\n" + TrimSpace(Uncommented(l)));
      } else {
        LineCouldNotParse(d, cur, raw);
      }
    }
  }

  /** An option line keeps the default section and the lower-casing of every key. */
  lemma OptionLineKeepsInvariants(d: Data, cur: Cursor, raw: string)
    requires DefaultSection in d && KeysLower(d)
    requires var l := TrimSpace(raw); !IsSkipped(l) && !IsHeader(l)
    requires cur.section != ""
    requires FirstIndexOf(TrimSpace(raw), Separators) > 0
    ensures var r := ParseLine(d, cur, raw); DefaultSection in r.data && KeysLower(r.data)
  {
    var l := TrimSpace(raw);
    var i := FirstIndexOf(l, Separators);
    var o, v := TrimSpace(l[..i]), TrimSpace(Uncommented(l[i + 1..]));
    LineOption(d, cur, raw);
    WithOptionKeepsInvariants(d, cur.section, o, v);
  }

  /** A whole parse keeps the default section and the lower-casing of every key. */
  lemma {:induction false} ParseAllKeepsInvariants(d: Data, cur: Cursor, lines: seq<string>)
    requires DefaultSection in d && KeysLower(d)
    ensures var p := ParseAll(d, cur, lines); DefaultSection in p.data && KeysLower(p.data)
    decreases |lines|
  {
    if lines != [] {
      ParseLineKeepsInvariants(d, cur, lines[0]);
      match ParseLine(d, cur, lines[0])
      case Stop(e) =>
      case Next(d', cur') => ParseAllKeepsInvariants(d', cur', lines[1..]);
    }
  }

  /** One line keeps the cursor's option stored under the cursor's section. */
  lemma ParseLineConsistent(d: Data, cur: Cursor, raw: string)
    requires Consistent(d, cur)
    ensures var r := ParseLine(d, cur, raw); r.Next? ==> Consistent(r.data, r.cursor)
  {
    var l := TrimSpace(raw);
    if IsSkipped(l) {
      LineSkipped(d, cur, raw);
    } else if IsHeader(l) {
      LineHeader(d, cur, raw);
    } else if cur.section == "" {
      LineBlankSection(d, cur, raw);
    } else if FirstIndexOf(l, Separators) > 0 {
      LineOption(d, cur, raw);
    } else if cur.option != "" {
      LineContinuation(d, cur, raw);
    } else {
      LineCouldNotParse(d, cur, raw);
    }
  }

  /** After a header or an option line the continuation lookup of the next
      line finds the value it extends. */
  lemma {:induction false} ParseAllConsistent(d: Data, cur: Cursor, lines: seq<string>)
    requires Consistent(d, cur)
    ensures var p := ParseAll(d, cur, lines); Consistent(p.data, p.cursor)
    decreases |lines|
  {
    if lines != [] {
      ParseLineConsistent(d, cur, lines[0]);
      match ParseLine(d, cur, lines[0])
      case Stop(e) =>
      case Next(d', cur') => ParseAllConsistent(d', cur', lines[1..]);
    }
  }

  /** Input made only of blank and comment lines changes nothing. */
  lemma {:induction false} ParseAllSkipped(d: Data, cur: Cursor, lines: seq<string>)
    requires forall k :: 0 <= k < |lines| ==> IsSkipped(TrimSpace(lines[k]))
    ensures ParseAll(d, cur, lines) == Parsed(d, cur, None)
    decreases |lines|
  {
    if lines != [] {
      LineSkipped(d, cur, lines[0]);
      ParseAllSkipped(d, cur, lines[1..]);
    }
  }

  /** Reading into a new configuration always leaves `default` in place and
      every key lower-cased, whether or not the parse succeeds. */
  lemma ReadFromNewKeepsDefault(input: string)
    ensures var p := ParseAll(NewData(), Start, Lines(input));
      DefaultSection in p.data && KeysLower(p.data)
  {
    assert IsLower(DefaultSection);
    ParseAllKeepsInvariants(NewData(), Start, Lines(input));
  }

  /** Read: parses the complete lines of `input` into `c`; on the first bad
      line it stops and returns the error, keeping what the earlier lines did. */
  method Read(c: ConfigFile, input: string) returns (err: Option<ReadError>)
    modifies c
    ensures var p := ParseAll(old(c.data), Start, Lines(input)); c.data == p.data && err == p.err
    ensures DefaultSection in old(c.data) ==> DefaultSection in c.data
  {
    var lines := Lines(input);
    var section, option := "default", "";
    var n := 0;
    while n < |lines|
      invariant 0 <= n <= |lines|
      invariant ParseAll(c.data, Cursor(section, option), lines[n..]) == ParseAll(old(c.data), Start, lines)
      invariant Consistent(c.data, Cursor(section, option))
      invariant DefaultSection in old(c.data) ==> DefaultSection in c.data
    {
      assert lines[n..][0] == lines[n] && lines[n..][1..] == lines[n + 1..];
      var e;
      section, option, e := ReadLine(c, section, option, lines[n]);
      if e.Some? {
        return e;
      }
      n := n + 1;
    }
    return None;
  }

  /** The body of Read's loop: classifies one line and applies it to `c`,
      returning the new section and option, or the error that ends the parse. */
  method ReadLine(c: ConfigFile, section: string, option: string, raw: string)
    returns (section': string, option': string, err: Option<ReadError>)
    modifies c
    ensures ParseLine(old(c.data), Cursor(section, option), raw) ==
      if err.Some? then Stop(err.value) else Next(c.data, Cursor(section', option'))
    ensures err.Some? ==> c.data == old(c.data)
    ensures Consistent(old(c.data), Cursor(section, option)) ==> Consistent(c.data, Cursor(section', option'))
  {
    section', option', err := section, option, None;
    var l := TrimSpace(raw);
    ghost var d, cur := c.data, Cursor(section, option);
    if IsSkipped(l) {
      // empty line, or a comment starting with '#', ';' or "rem"
      LineSkipped(d, cur, raw);
    } else if IsHeader(l) {
      option' := "";  // reset multi-line value
      section' := TrimSpace(l[1..|l| - 1]);
      var _ := c.AddSection(section');
      assert HeaderName(l) == section';
      assert c.data == WithSection(d, HeaderName(l));
      LineHeader(d, cur, raw);
      assert ParseLine(d, cur, raw) == Next(c.data, Cursor(section', option'));
    } else if section == "" {
      err := Some(ReadError(BlankSection, l));
      LineBlankSection(d, cur, raw);
      assert ParseLine(d, cur, raw) == Stop(err.value);
    } else {
      var i := FirstIndex(l, Separators);
      if i > 0 {
        LineOption(d, cur, raw);
        option' := TrimSpace(l[..i]);
        var value := StripComments(l[i + 1..]);
        var _ := c.AddOption(section, option', TrimSpace(value));
        assert i == FirstIndexOf(l, Separators) && value == Uncommented(l[i + 1..]);
        assert c.data == WithOption(d, section, option', TrimSpace(Uncommented(l[i + 1..])));
        assert ParseLine(d, cur, raw) == Next(c.data, Cursor(section', option'));
      } else if section != "" && option != "" {
        LineContinuation(d, cur, raw);
        var prev := match c.GetRawString(section, option)
                    case Success(v) => v
                    case Failure(_) => "";
        var value := StripComments(l);
        var _ := c.AddOption(section, option, prev + "\n" + TrimSpace(value));
        assert prev == match RawString(d, section, option) case Success(v) => v case Failure(_) => "";
        assert c.data == WithOption(d, section, option, prev + "\n" + TrimSpace(Uncommented(l)));
        assert ParseLine(d, cur, raw) == Next(c.data, Cursor(section', option'));
      } else {
        err := Some(ReadError(CouldNotParse, l));
        LineCouldNotParse(d, cur, raw);
        assert ParseLine(d, cur, raw) == Stop(err.value);
      }
    }
  }

  /** The cursor's option, when there is one, is stored in the map under the
      cursor's section: the continuation lookup always finds it. */
  ghost predicate Consistent(d: Data, cur: Cursor) {
    cur.option != "" ==> ToLower(cur.section) in d && ToLower(cur.option) in d[ToLower(cur.section)]
  }
}
