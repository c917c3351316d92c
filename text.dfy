/**
 * The string primitives the configuration code draws from Go's `strings`
 * package: lower-casing, trimming of surrounding white space and substring
 * search. Strings are modelled as sequences of characters, one character per
 * byte of the Go string, and only the ASCII part of `strings.ToLower` and
 * `strings.TrimSpace` is modelled.
 */
module Text {

  /** White space as `strings.TrimSpace` sees it, restricted to ASCII:
      space, tab, line feed, vertical tab, form feed and carriage return. */
  predicate IsSpace(c: char): (b: bool)
    ensures b ==> c as int <= 0x20 && !IsUpper(c)
  {
    c == ' ' || c == '\t' || c == '\n' || c == '\r' || c as int == 0x0B || c as int == 0x0C
  }

  predicate IsUpper(c: char) {
    'A' <= c <= 'Z'
  }

  /** ASCII lower-casing of one character. */
  function LowerChar(c: char): char {
    if IsUpper(c) then (c as int - 'A' as int + 'a' as int) as char else c
  }

  /** ASCII lower-casing of a string, character by character: same length,
      no upper-case letter left, every other character kept. */
  function ToLower(s: string): (r: string)
    ensures |r| == |s|
    ensures forall i :: 0 <= i < |s| ==> !IsUpper(r[i])
    ensures forall i :: 0 <= i < |s| && !IsUpper(s[i]) ==> r[i] == s[i]
  {
    seq(|s|, i requires 0 <= i < |s| => LowerChar(s[i]))
  }

  /** A string that lower-casing leaves alone, such as every stored key. */
  predicate IsLower(s: string) {
    ToLower(s) == s
  }

  /** Lower-casing twice is lower-casing once. */
  lemma ToLowerIdempotent(s: string)
    ensures ToLower(ToLower(s)) == ToLower(s)
    ensures IsLower(ToLower(s))
  {
    var t := ToLower(s);
    assert forall i :: 0 <= i < |t| ==> LowerChar(t[i]) == t[i];
  }

  /** A string is its own lower-casing exactly when it has no upper-case letter. */
  lemma IsLowerIff(s: string)
    ensures IsLower(s) <==> forall i :: 0 <= i < |s| ==> !IsUpper(s[i])
  {
    if IsLower(s) {
      forall i | 0 <= i < |s| ensures !IsUpper(s[i]) {
        assert ToLower(s)[i] == s[i];
      }
    }
  }

  /** `strings.TrimLeft` of white space: drops the leading white space. */
  function TrimLeft(s: string): (r: string)
    ensures |r| <= |s| && r == s[|s| - |r|..]
    ensures forall k :: 0 <= k < |s| - |r| ==> IsSpace(s[k])
    ensures r == [] || !IsSpace(r[0])
  {
    if s != [] && IsSpace(s[0]) then TrimLeft(s[1..]) else s
  }

  /** `strings.TrimRight` of white space: drops the trailing white space. */
  function TrimRight(s: string): (r: string)
    ensures |r| <= |s| && r == s[..|r|]
    ensures forall k :: |r| <= k < |s| ==> IsSpace(s[k])
    ensures r == [] || !IsSpace(r[|r| - 1])
  {
    if s != [] && IsSpace(s[|s| - 1]) then TrimRight(s[..|s| - 1]) else s
  }

  /** `strings.TrimSpace`: drops leading and trailing white space. */
  function TrimSpace(s: string): (r: string)
    ensures |r| <= |s|
    ensures r == [] || (!IsSpace(r[0]) && !IsSpace(r[|r| - 1]))
    ensures r == [] <==> forall k :: 0 <= k < |s| ==> IsSpace(s[k])
  {
    var t := TrimLeft(s);
    var r := TrimRight(t);
    // an empty right trim leaves only white space, yet t cannot start with it
    assert r == [] ==> t == [];
    r
  }

  /** A string with no surrounding white space is its own trimming. */
  lemma TrimSpaceOfTrimmed(s: string)
    requires s == [] || (!IsSpace(s[0]) && !IsSpace(s[|s| - 1]))
    ensures TrimSpace(s) == s
  {
  }

  /** Leading white space is exactly what TrimLeft drops. */
  lemma {:induction false} TrimLeftPadded(pre: string, s: string)
    requires forall k :: 0 <= k < |pre| ==> IsSpace(pre[k])
    requires s == [] || !IsSpace(s[0])
    ensures TrimLeft(pre + s) == s
    decreases |pre|
  {
    if pre == [] {
      assert pre + s == s;
    } else {
      assert (pre + s)[1..] == pre[1..] + s;
      TrimLeftPadded(pre[1..], s);
    }
  }

  /** Trailing white space is exactly what TrimRight drops. */
  lemma {:induction false} TrimRightPadded(s: string, post: string)
    requires forall k :: 0 <= k < |post| ==> IsSpace(post[k])
    requires s == [] || !IsSpace(s[|s| - 1])
    ensures TrimRight(s + post) == s
    decreases |post|
  {
    if post == [] {
      assert s + post == s;
    } else {
      var t := s + post;
      assert t[..|t| - 1] == s + post[..|post| - 1];
      TrimRightPadded(s, post[..|post| - 1]);
    }
  }

  /** Text without surrounding white space, padded with white space on both
      sides, trims back to itself. */
  lemma TrimSpacePadded(pre: string, s: string, post: string)
    requires forall k :: 0 <= k < |pre| ==> IsSpace(pre[k])
    requires forall k :: 0 <= k < |post| ==> IsSpace(post[k])
    requires s == [] || (!IsSpace(s[0]) && !IsSpace(s[|s| - 1]))
    ensures TrimSpace(pre + s + post) == s
  {
    if s == [] {
      assert pre + s + post == [] + (pre + post);
      TrimLeftPadded(pre + post, []);
    } else {
      assert pre + s + post == pre + (s + post);
      assert (s + post)[0] == s[0];
      TrimLeftPadded(pre, s + post);
      TrimRightPadded(s, post);
    }
  }

  /** A complete line whose text has no surrounding white space trims to that text. */
  lemma TrimSpaceOfLine(s: string)
    requires s == [] || (!IsSpace(s[0]) && !IsSpace(s[|s| - 1]))
    ensures TrimSpace(s + "\n") == s
  {
    assert s + "\n" == [] + s + "\n";
    TrimSpacePadded([], s, "\n");
  }

  /** Trimming twice is trimming once. */
  lemma TrimSpaceIdempotent(s: string)
    ensures TrimSpace(TrimSpace(s)) == TrimSpace(s)
  {
    var t := TrimSpace(s);
    TrimSpaceOfTrimmed(t);
  }

  /** `sub` occurs in `s` starting at position `p`. */
  predicate OccursAt(s: string, sub: string, p: int) {
    0 <= p && p + |sub| <= |s| && s[p..p + |sub|] == sub
  }

  /** `strings.Index` searching from position `p`. */
  function IndexFrom(s: string, sub: string, p: nat): (r: int)
    requires p <= |s|
    ensures r == -1 || (p <= r && OccursAt(s, sub, r))
    ensures r == -1 ==> forall q :: p <= q ==> !OccursAt(s, sub, q)
    ensures r != -1 ==> forall q :: p <= q < r ==> !OccursAt(s, sub, q)
    decreases |s| - p
  {
    if OccursAt(s, sub, p) then p
    else if p == |s| then -1
    else IndexFrom(s, sub, p + 1)
  }

  /** `strings.Index`: the first position at which `sub` occurs in `s`, or -1. */
  function Index(s: string, sub: string): (r: int)
    ensures r == -1 <==> forall q :: !OccursAt(s, sub, q)
    ensures r != -1 ==> OccursAt(s, sub, r) && forall q :: q < r ==> !OccursAt(s, sub, q)
  {
    IndexFrom(s, sub, 0)
  }
}
