/**
 * String helpers standing in for the Rust standard-library calls the core
 * uses: `str::split`, `str::lines`, `str::contains`, `to_lowercase`,
 * integer formatting and `encode_utf16`.
 */
module Text {
  import opened Wrappers

  /** Index of the first occurrence of `c` in `s`. */
  function IndexOf(s: string, c: char): (i: nat)
    requires c in s
    ensures i < |s| && s[i] == c && c !in s[..i]
  {
    if s[0] == c then 0 else 1 + IndexOf(s[1..], c)
  }

  /** `s.split(sep)`: the pieces between separators, always at least one. */
  function Split(s: string, sep: char): (parts: seq<string>)
    ensures |parts| >= 1
    ensures forall k :: 0 <= k < |parts| ==> sep !in parts[k]
    decreases |s|
  {
    if sep !in s then [s]
    else
      var i := IndexOf(s, sep);
      [s[..i]] + Split(s[i + 1..], sep)
  }

  /** The inverse of `Split`: the pieces glued back with the separator. */
  function Join(parts: seq<string>, sep: char): string
    requires |parts| >= 1
  {
    if |parts| == 1 then parts[0] else parts[0] + [sep] + Join(parts[1..], sep)
  }

  lemma {:induction false} JoinSplit(s: string, sep: char)
    ensures Join(Split(s, sep), sep) == s
    decreases |s|
  {
    if sep in s {
      var i := IndexOf(s, sep);
      var parts, rest := Split(s, sep), Split(s[i + 1..], sep);
      assert parts == [s[..i]] + rest;
      assert |parts| > 1 && parts[0] == s[..i] && parts[1..] == rest;
      JoinSplit(s[i + 1..], sep);
      assert Join(parts, sep) == s[..i] + [sep] + s[i + 1..];
      assert s == s[..i] + [sep] + s[i + 1..];
    }
  }

  lemma {:induction false} SplitJoin(parts: seq<string>, sep: char)
    requires |parts| >= 1
    requires forall k :: 0 <= k < |parts| ==> sep !in parts[k]
    ensures Split(Join(parts, sep), sep) == parts
  {
    if |parts| > 1 {
      var s, rest := Join(parts, sep), Join(parts[1..], sep);
      assert s == parts[0] + [sep] + rest;
      SplitAtFirst(parts[0], rest, sep);
      SplitJoin(parts[1..], sep);
      assert parts == [parts[0]] + parts[1..];
    }
  }

  /** Splitting at a first separator that follows `a`. */
  lemma SplitAtFirst(a: string, b: string, sep: char)
    requires sep !in a
    ensures Split(a + [sep] + b, sep) == [a] + Split(b, sep)
  {
    var s := a + [sep] + b;
    assert s[..|a|] == a && s[|a|] == sep && s[|a| + 1..] == b;
    FirstIndex(s, sep, |a|);
  }

  /** The first occurrence is the position that holds `c` with none before it. */
  lemma FirstIndex(s: string, c: char, i: nat)
    requires i < |s| && s[i] == c && c !in s[..i]
    ensures IndexOf(s, c) == i
  {
    var j := IndexOf(s, c);
    forall k | 0 <= k < i
      ensures s[k] != c
    {
      assert s[..i][k] == s[k];
    }
    forall k | 0 <= k < j
      ensures s[k] != c
    {
      assert s[..j][k] == s[k];
    }
  }

  /** Joining a first piece onto the rest. */
  lemma JoinCons(x: string, rest: seq<string>, sep: char)
    requires |rest| >= 1
    ensures Join([x] + rest, sep) == x + [sep] + Join(rest, sep)
  {
    assert ([x] + rest)[1..] == rest;
  }

  /** Drop one trailing carriage return. */
  function StripCr(line: string): string
  {
    if line != [] && line[|line| - 1] == '\r' then line[..|line| - 1] else line
  }

  /** The lines of the pieces of a `Split` on newline: every piece followed by
      a newline loses a trailing carriage return; a final empty piece (text
      ending in a newline, or empty text) is not a line. */
  function LinesOfPieces(pieces: seq<string>): (lines: seq<string>)
    requires |pieces| >= 1
    ensures |lines| <= |pieces|
  {
    if |pieces| == 1 then (if pieces[0] == "" then [] else [pieces[0]])
    else [StripCr(pieces[0])] + LinesOfPieces(pieces[1..])
  }

  /** `str::lines`: split on `\n`, strip `\r` before a `\n`, no final empty line. */
  function Lines(s: string): seq<string>
  {
    LinesOfPieces(Split(s, '\n'))
  }

  function LowerChar(c: char): char
  {
    if 'A' <= c <= 'Z' then (c as int + 32) as char else c
  }

  /** `to_lowercase`, for the ASCII letters only: every other character,
      including the non-ASCII capitals Unicode case mapping would lower,
      is kept as it is. */
  function Lower(s: string): (r: string)
    ensures |r| == |s|
    ensures forall k :: 0 <= k < |s| ==> r[k] == LowerChar(s[k])
  {
    if s == [] then [] else [LowerChar(s[0])] + Lower(s[1..])
  }

  /** The case-insensitive substring test of the name searches: the
      lower-cased name contains the lower-cased query. */
  predicate NameMatches(name: string, query: string)
  {
    Contains(Lower(name), Lower(query))
  }

  /** `iter().find(|x| NameMatches(name(x), query))` as an index: the first
      item whose name matches, or the length when none does. */
  function IndexOfMatch<T>(xs: seq<T>, name: T -> string, query: string): (k: nat)
    ensures k <= |xs|
    ensures forall j :: 0 <= j < k ==> !NameMatches(name(xs[j]), query)
    ensures k < |xs| ==> NameMatches(name(xs[k]), query)
  {
    if xs == [] then 0
    else if NameMatches(name(xs[0]), query) then 0
    else 1 + IndexOfMatch(xs[1..], name, query)
  }

  /** `needle` occurs in `haystack` starting at index `i`. */
  predicate OccursAt(haystack: string, needle: string, i: int)
  {
    0 <= i && i + |needle| <= |haystack| && haystack[i..i + |needle|] == needle
  }

  /** `haystack.contains(needle)`. */
  function Contains(haystack: string, needle: string): (b: bool)
    ensures b <==> exists i :: OccursAt(haystack, needle, i)
  {
    if needle <= haystack then
      assert OccursAt(haystack, needle, 0);
      true
    else if haystack == [] then false
    else
      var b := Contains(haystack[1..], needle);
      assert b ==> exists i :: OccursAt(haystack, needle, i) by {
        if b {
          var j :| OccursAt(haystack[1..], needle, j);
          assert haystack[j + 1..j + 1 + |needle|] == haystack[1..][j..j + |needle|];
          assert OccursAt(haystack, needle, j + 1);
        }
      }
      assert (exists i :: OccursAt(haystack, needle, i)) ==> b by {
        if exists i :: OccursAt(haystack, needle, i) {
          var i :| OccursAt(haystack, needle, i);
          assert i != 0;
          assert haystack[1..][i - 1..i - 1 + |needle|] == haystack[i..i + |needle|];
          assert OccursAt(haystack[1..], needle, i - 1);
        }
      }
      b
  }

  function Digit(d: nat): char
    requires d < 10
  {
    "0123456789"[d]
  }

  /** Decimal rendering of a counter, as `format!("{}", n)` prints it. */
  function NatToString(n: nat): (s: string)
    ensures |s| >= 1
    ensures forall k :: 0 <= k < |s| ==> '0' <= s[k] <= '9'
  {
    if n < 10 then [Digit(n)] else NatToString(n / 10) + [Digit(n % 10)]
  }

  /** A UTF-16 code unit. */
  type Unit16 = x: int | 0 <= x < 0x1_0000

  function EncodeChar(c: char): (units: seq<Unit16>)
    ensures 1 <= |units| <= 2
  {
    var n := c as int;
    if n < 0x1_0000 then [n]
    else [0xD800 + (n - 0x1_0000) / 0x400, 0xDC00 + (n - 0x1_0000) % 0x400]
  }

  /** `s.encode_utf16()`: one unit per character of the basic plane, a
      surrogate pair for every other character. */
  function EncodeUtf16(s: string): seq<Unit16>
  {
    if s == [] then [] else EncodeChar(s[0]) + EncodeUtf16(s[1..])
  }

  predicate IsHighSurrogate(u: Unit16) { 0xD800 <= u < 0xDC00 }
  predicate IsLowSurrogate(u: Unit16) { 0xDC00 <= u < 0xE000 }

  /** The reference decoder: None on an unpaired surrogate. */
  function DecodeUtf16(units: seq<Unit16>): Option<string>
    decreases |units|
  {
    if units == [] then Some("")
    else if IsHighSurrogate(units[0]) then
      if |units| >= 2 && IsLowSurrogate(units[1]) then
        var n := 0x1_0000 + (units[0] as int - 0xD800) * 0x400 + (units[1] as int - 0xDC00);
        match DecodeUtf16(units[2..])
        case Some(rest) => Some([n as char] + rest)
        case None => None
      else None
    else if IsLowSurrogate(units[0]) then None
    else
      match DecodeUtf16(units[1..])
      case Some(rest) => Some([units[0] as char] + rest)
      case None => None
  }

  lemma {:induction false} DecodeEncode(s: string)
    ensures DecodeUtf16(EncodeUtf16(s)) == Some(s)
  {
    if s != [] {
      var units := EncodeUtf16(s);
      var head := EncodeChar(s[0]);
      assert units == head + EncodeUtf16(s[1..]);
      DecodeEncode(s[1..]);
      assert [s[0]] + s[1..] == s;
      var n := s[0] as int;
      if n < 0x1_0000 {
        assert units[0] == n && units[1..] == EncodeUtf16(s[1..]);
        assert !IsHighSurrogate(units[0]) && !IsLowSurrogate(units[0]);
        assert units[0] as char == s[0];
        assert DecodeUtf16(units) == Some([s[0]] + s[1..]);
      } else {
        var hi := 0xD800 + (n - 0x1_0000) / 0x400;
        var lo := 0xDC00 + (n - 0x1_0000) % 0x400;
        assert units[0] == hi && units[1] == lo;
        assert units[2..] == EncodeUtf16(s[1..]);
        assert 0x1_0000 + (hi - 0xD800) * 0x400 + (lo - 0xDC00) == n;
        assert DecodeUtf16(units) == Some([s[0]] + s[1..]);
      }
    }
  }

  /** A string without NUL characters encodes to units none of which is zero. */
  lemma {:induction false} EncodeHasNoZero(s: string)
    requires '\0' !in s
    ensures 0 !in EncodeUtf16(s)
  {
    if s != [] {
      EncodeHasNoZero(s[1..]);
      assert EncodeUtf16(s) == EncodeChar(s[0]) + EncodeUtf16(s[1..]);
    }
  }
}
