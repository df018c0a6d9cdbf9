/** Option type shared by every module of the model. */
module Wrappers {

  datatype Option<+T> = None | Some(value: T) {

    /** The wrapped value, or `default` when there is none (the `??` operator). */
    function GetOr(default: T): T {
      match this
      case Some(v) => v
      case None => default
    }
  }
}

/**
 * String helpers used by several source files: the two whitespace
 * definitions (Go's `strings.TrimSpace` and JavaScript's `trim`),
 * trimming, ASCII lower-casing, prefix tests and `split` on one character.
 */
module Text {

  /** Go `unicode.IsSpace`, the set `strings.TrimSpace` removes. */
  predicate IsGoSpace(c: char) {
    c == ' ' || c == '\t' || c == '\n' || c == '\r' || c == '\U{000B}' || c == '\U{000C}'
    || c == '\U{0085}' || c == '\U{00A0}' || c == '\U{1680}'
    || ('\U{2000}' <= c <= '\U{200A}')
    || c == '\U{2028}' || c == '\U{2029}' || c == '\U{202F}' || c == '\U{205F}' || c == '\U{3000}'
  }

  /** ECMAScript WhiteSpace and LineTerminator, the set `String.prototype.trim` removes. */
  predicate IsJsSpace(c: char) {
    c == ' ' || c == '\t' || c == '\n' || c == '\r' || c == '\U{000B}' || c == '\U{000C}'
    || c == '\U{00A0}' || c == '\U{1680}'
    || ('\U{2000}' <= c <= '\U{200A}')
    || c == '\U{2028}' || c == '\U{2029}' || c == '\U{202F}' || c == '\U{205F}' || c == '\U{3000}'
    || c == '\U{FEFF}'
  }

  /** True when every character of `s` is a space in the sense of `space`. */
  predicate AllSpace(s: string, space: char -> bool) {
    forall i :: 0 <= i < |s| ==> space(s[i])
  }

  /** The index of the first non-space character of `s` at or after `i`
      (or `|s|`). */
  function SkipSpaces(s: string, space: char -> bool, i: nat): (j: nat)
    requires i <= |s|
    ensures i <= j <= |s|
    ensures forall k :: i <= k < j ==> space(s[k])
    ensures j == |s| || !space(s[j])
    decreases |s| - i
  {
    if i < |s| && space(s[i]) then SkipSpaces(s, space, i + 1) else i
  }

  /** The index just past the last non-space character of `s[lo..hi]` (or `lo`). */
  function SkipSpacesBack(s: string, space: char -> bool, lo: nat, hi: nat): (j: nat)
    requires lo <= hi <= |s|
    ensures lo <= j <= hi
    ensures forall k :: j <= k < hi ==> space(s[k])
    ensures j == lo || !space(s[j - 1])
    decreases hi
  {
    if lo < hi && space(s[hi - 1]) then SkipSpacesBack(s, space, lo, hi - 1) else hi
  }

  /** Removes leading and trailing spaces: the result is the slice of `s`
      between the first and the last non-space character, and it is empty
      exactly when `s` is all space. */
  function Trim(s: string, space: char -> bool): (r: string)
    ensures SkipSpaces(s, space, 0) + |r| <= |s|
    ensures r == [] || (!space(r[0]) && !space(r[|r| - 1]))
    ensures r == s[SkipSpaces(s, space, 0)..SkipSpaces(s, space, 0) + |r|]
    ensures forall k :: 0 <= k < SkipSpaces(s, space, 0) ==> space(s[k])
    ensures forall k :: SkipSpaces(s, space, 0) + |r| <= k < |s| ==> space(s[k])
    ensures r == [] <==> AllSpace(s, space)
  {
    var a := SkipSpaces(s, space, 0);
    var b := SkipSpacesBack(s, space, a, |s|);
    assert a < b ==> s[a..b][0] == s[a];
    s[a..b]
  }

  /** Go `strings.TrimSpace`. */
  function GoTrim(s: string): string {
    Trim(s, IsGoSpace)
  }

  /** JavaScript `s.trim()`. */
  function JsTrim(s: string): string {
    Trim(s, IsJsSpace)
  }

  /** Lower-cases ASCII letters and leaves every other character alone. */
  function LowerChar(c: char): (d: char)
    ensures 'A' <= c <= 'Z' ==> 'a' <= d <= 'z'
    ensures 'A' <= c <= 'Z' ==> d as int - 'a' as int == c as int - 'A' as int
    ensures !('A' <= c <= 'Z') ==> d == c
  {
    if 'A' <= c <= 'Z' then (c as int - 'A' as int + 'a' as int) as char else c
  }

  function ToLower(s: string): (r: string)
    ensures |r| == |s|
    ensures forall i :: 0 <= i < |s| ==> r[i] == LowerChar(s[i])
  {
    seq(|s|, i requires 0 <= i < |s| => LowerChar(s[i]))
  }

  /** The UTF-16 code units of a string, as `charCodeAt` sees them:
      characters above U+FFFF become a surrogate pair. */
  function Utf16(s: string): (units: seq<int>)
    ensures forall k :: 0 <= k < |units| ==> 0 <= units[k] < 0x1_0000
    ensures |units| >= |s|
  {
    if s == [] then []
    else
      var c := s[0] as int;
      var head := if c < 0x1_0000 then [c]
                  else [0xD800 + (c - 0x1_0000) / 0x400, 0xDC00 + (c - 0x1_0000) % 0x400];
      head + Utf16(s[1..])
  }

  /** Strings made of characters below U+10000 have one code unit per character. */
  lemma {:induction false} Utf16OfBmp(s: string)
    requires forall k :: 0 <= k < |s| ==> (s[k] as int) < 0x1_0000
    ensures Utf16(s) == seq(|s|, k requires 0 <= k < |s| => s[k] as int)
  {
    if s != [] {
      Utf16OfBmp(s[1..]);
    }
  }

  /** A string with no space at either end is its own trim. */
  lemma TrimOfUnpadded(s: string, space: char -> bool)
    requires s != [] && !space(s[0]) && !space(s[|s| - 1])
    ensures Trim(s, space) == s
  {
    assert SkipSpaces(s, space, 0) == 0;
  }

  /** `s.startsWith(p)` / `strings.HasPrefix(s, p)`. */
  predicate StartsWith(s: string, p: string) {
    |p| <= |s| && s[..|p|] == p
  }

  /** JavaScript `s.split(sep)` for a one-character separator: never empty,
      and `""` gives `[""]`. */
  function Split(s: string, sep: char): (parts: seq<string>)
    ensures |parts| >= 1
    ensures forall k :: 0 <= k < |parts| ==> sep !in parts[k]
  {
    if |s| == 0 then [""]
    else
      var rest := Split(s[1..], sep);
      if s[0] == sep then [""] + rest
      else [[s[0]] + rest[0]] + rest[1..]
  }

  /** Joining the parts back with the separator gives the original string. */
  function Join(parts: seq<string>, sep: char): string
    requires |parts| >= 1
  {
    if |parts| == 1 then parts[0] else parts[0] + [sep] + Join(parts[1..], sep)
  }

  lemma {:induction false} SplitJoin(s: string, sep: char)
    ensures Join(Split(s, sep), sep) == s
  {
    if |s| > 0 {
      SplitJoin(s[1..], sep);
      var rest := Split(s[1..], sep);
      if s[0] != sep {
        if |rest| == 1 {
          assert Split(s, sep) == [[s[0]] + rest[0]];
        } else {
          assert Split(s, sep)[1..] == rest[1..];
        }
      } else {
        assert Split(s, sep)[1..] == rest;
      }
    }
  }
}
