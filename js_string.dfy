/**
 * The JavaScript string built-ins that the modelled code relies on:
 * `trim`, `split(' ')`, `Array.prototype.join`, `charAt(0)`, ASCII
 * `toUpperCase` and `charCodeAt(0)`. A string is a sequence of Unicode
 * scalar values.
 */
module JsString {
  import opened Wrappers

  /** JavaScript truthiness of a `string | null | undefined` value: present and not empty. */
  predicate Truthy(s: Option<string>) {
    s.Some? && s.value != ""
  }

  /** The characters `String.prototype.trim` removes (WhiteSpace and LineTerminator of ECMA-262). */
  predicate IsWhitespace(c: char) {
    || c == '\t' || c == '\n' || c == '\U{B}' || c == '\U{C}' || c == '\r' || c == ' '
    || c == '\U{A0}' || c == '\U{1680}' || ('\U{2000}' <= c <= '\U{200A}')
    || c == '\U{2028}' || c == '\U{2029}' || c == '\U{202F}' || c == '\U{205F}'
    || c == '\U{3000}' || c == '\U{FEFF}'
  }

  /** Removes leading whitespace: the result is a suffix of `s`, everything cut off is whitespace. */
  function TrimStart(s: string): (r: string)
    ensures |r| <= |s| && r == s[|s| - |r|..]
    ensures forall i :: 0 <= i < |s| - |r| ==> IsWhitespace(s[i])
    ensures r == [] || !IsWhitespace(r[0])
  {
    if s != [] && IsWhitespace(s[0]) then TrimStart(s[1..]) else s
  }

  /** Removes trailing whitespace: the result is a prefix of `s`, everything cut off is whitespace. */
  function TrimEnd(s: string): (r: string)
    ensures |r| <= |s| && r == s[..|r|]
    ensures forall i :: |r| <= i < |s| ==> IsWhitespace(s[i])
    ensures r == [] || !IsWhitespace(r[|r| - 1])
  {
    if s != [] && IsWhitespace(s[|s| - 1]) then TrimEnd(s[..|s| - 1]) else s
  }

  /** `s.trim()` */
  function Trim(s: string): string {
    TrimEnd(TrimStart(s))
  }

  /** A string made only of whitespace trims to the empty string. */
  lemma TrimWhitespaceOnly(s: string)
    requires forall i :: 0 <= i < |s| ==> IsWhitespace(s[i])
    ensures Trim(s) == ""
  {
  }

  /** A string with no whitespace at either end is left alone by `trim`. */
  lemma TrimUnpadded(s: string)
    requires s != [] ==> !IsWhitespace(s[0]) && !IsWhitespace(s[|s| - 1])
    ensures Trim(s) == s
  {
  }

  /** `s.split(' ')`: the pieces between single spaces; an empty string gives `[""]`. */
  function Split(s: string): (parts: seq<string>)
    ensures |parts| >= 1
    ensures forall i :: 0 <= i < |parts| ==> ' ' !in parts[i]
  {
    if s == [] then [""]
    else if s[0] == ' ' then [""] + Split(s[1..])
    else
      var rest := Split(s[1..]);
      [[s[0]] + rest[0]] + rest[1..]
  }

  /** `parts.join(sep)` */
  function Join(parts: seq<string>, sep: string): string {
    if |parts| == 0 then ""
    else if |parts| == 1 then parts[0]
    else parts[0] + sep + Join(parts[1..], sep)
  }

  /** Joining the pieces of `split(' ')` with single spaces gives back the original string. */
  lemma {:induction false} JoinSplit(s: string)
    ensures Join(Split(s), " ") == s
  {
    if s == [] {
    } else if s[0] == ' ' {
      JoinSplit(s[1..]);
      assert s == " " + s[1..];
    } else {
      var rest := Split(s[1..]);
      JoinSplit(s[1..]);
      if |rest| == 1 {
        assert s == [s[0]] + rest[0];
      } else {
        assert Join(rest, " ") == rest[0] + " " + Join(rest[1..], " ");
        assert ([[s[0]] + rest[0]] + rest[1..])[1..] == rest[1..];
        assert s == [s[0]] + s[1..];
      }
    }
  }

  /** A space-free prefix becomes the beginning of the first piece. */
  lemma {:induction false} SplitPrefix(p: string, rest: string)
    requires ' ' !in p
    ensures Split(p + rest) == [p + Split(rest)[0]] + Split(rest)[1..]
  {
    if p != [] {
      var q := p + rest;
      assert q[0] == p[0] && q[0] != ' ';
      assert q[1..] == p[1..] + rest;
      SplitPrefix(p[1..], rest);
      var r := Split(q[1..]);
      assert r == [p[1..] + Split(rest)[0]] + Split(rest)[1..];
      assert r[0] == p[1..] + Split(rest)[0] && r[1..] == Split(rest)[1..];
      assert Split(q) == [[q[0]] + r[0]] + r[1..];
      assert [p[0]] + (p[1..] + Split(rest)[0]) == p + Split(rest)[0];
    } else {
      assert p + rest == rest;
      assert p + Split(rest)[0] == Split(rest)[0];
    }
  }

  /** Splitting space-free pieces joined with single spaces gives back the pieces. */
  lemma {:induction false} SplitJoin(parts: seq<string>)
    requires |parts| >= 1
    requires forall i :: 0 <= i < |parts| ==> ' ' !in parts[i]
    ensures Split(Join(parts, " ")) == parts
  {
    if |parts| == 1 {
      SplitPrefix(parts[0], "");
      assert parts[0] + "" == parts[0];
    } else {
      var tail := Join(parts[1..], " ");
      SplitJoin(parts[1..]);
      SplitPrefix(parts[0], " " + tail);
      assert (" " + tail)[1..] == tail;
      assert Split(" " + tail) == [""] + Split(tail);
      assert Split(" " + tail)[0] == "" && Split(" " + tail)[1..] == Split(tail);
      assert parts[0] + "" == parts[0];
      assert Join(parts, " ") == parts[0] + " " + tail;
      assert parts == [parts[0]] + parts[1..];
      assert parts[0] + " " + tail == parts[0] + (" " + tail);
    }
  }

  /** `s.charAt(0)`: the first character, or the empty string. */
  function FirstChar(s: string): (r: string)
    ensures |r| <= 1
    ensures r == [] <==> s == []
    ensures r != [] ==> r[0] == s[0]
  {
    if s == [] then "" else [s[0]]
  }

  /** `toUpperCase` on one character, restricted to ASCII letters. */
  function UpperChar(c: char): (u: char)
    ensures !('a' <= u <= 'z')
    ensures 'a' <= c <= 'z' ==> u as int == c as int - 32
    ensures !('a' <= c <= 'z') ==> u == c
  {
    if 'a' <= c <= 'z' then (c as int - 32) as char else c
  }

  /** `s.toUpperCase()` on ASCII letters, character by character. */
  function Upper(s: string): (r: string)
    ensures |r| == |s|
    ensures forall i :: 0 <= i < |s| ==> r[i] == UpperChar(s[i])
  {
    seq(|s|, i requires 0 <= i < |s| => UpperChar(s[i]))
  }

  /**
   * `s.charCodeAt(0)`: the first UTF-16 code unit, or `None` for NaN on an
   * empty string. A character outside the Basic Multilingual Plane starts
   * with its high surrogate.
   */
  function FirstCodeUnit(s: string): (r: Option<nat>)
    ensures r.None? <==> s == []
    ensures r.Some? ==> r.value < 0x1_0000
    ensures r.Some? && (s[0] as int) < 0x1_0000 ==> r.value == s[0] as int
    ensures r.Some? && (s[0] as int) >= 0x1_0000 ==> 0xD800 <= r.value < 0xDC00
    ensures r.Some? && (s[0] as int) >= 0x1_0000 ==>
      (r.value - 0xD800) * 0x400 + 0x1_0000 <= s[0] as int < (r.value - 0xD800 + 1) * 0x400 + 0x1_0000
  {
    if s == [] then None
    else if (s[0] as int) < 0x1_0000 then Some(s[0] as int)
    else Some(0xD800 + (s[0] as int - 0x1_0000) / 0x400)
  }
}
