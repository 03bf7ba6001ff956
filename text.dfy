/**
 * String primitives used by both halves of the catalog. Case mapping is
 * restricted to ASCII letters (see README, "Left out").
 */
module Text {

  function LowerChar(c: char): char
  {
    if 'A' <= c <= 'Z' then (c as int + 32) as char else c
  }

  function UpperChar(c: char): char
  {
    if 'a' <= c <= 'z' then (c as int - 32) as char else c
  }

  /** `toLowerCase()` (JavaScript and Java, ASCII letters only). */
  function ToLower(s: string): (r: string)
    ensures |r| == |s|
    ensures forall i :: 0 <= i < |s| ==> r[i] == LowerChar(s[i])
  {
    seq(|s|, i requires 0 <= i < |s| => LowerChar(s[i]))
  }

  /** `toUpperCase()` (JavaScript and Java, ASCII letters only). */
  function ToUpper(s: string): (r: string)
    ensures |r| == |s|
    ensures forall i :: 0 <= i < |s| ==> r[i] == UpperChar(s[i])
  {
    seq(|s|, i requires 0 <= i < |s| => UpperChar(s[i]))
  }

  lemma ToLowerIdempotent(s: string)
    ensures ToLower(ToLower(s)) == ToLower(s)
  {
  }

  lemma ToUpperIdempotent(s: string)
    ensures ToUpper(ToUpper(s)) == ToUpper(s)
  {
  }

  /** `s.includes(sub)` / `s.contains(sub)`: `sub` occurs in `s` at some position. */
  predicate Includes(s: string, sub: string)
  {
    exists i :: 0 <= i <= |s| - |sub| && OccursAt(s, sub, i)
  }

  predicate OccursAt(s: string, sub: string, i: int)
    requires 0 <= i <= |s| - |sub|
  {
    s[i..i + |sub|] == sub
  }

  /** First index of `c` in `s`. */
  function IndexOf(s: string, c: char): (r: int)
    ensures -1 <= r < |s|
    ensures r == -1 <==> c !in s
    ensures r >= 0 ==> s[r] == c && c !in s[..r]
  {
    if s == [] then -1
    else if s[0] == c then 0
    else
      var k := IndexOf(s[1..], c);
      assert s[1..][..(if k < 0 then 0 else k)] == s[1..(if k < 0 then 1 else k + 1)];
      if k < 0 then -1 else k + 1
  }

  /** `lastIndexOf(c)` in Java and JavaScript: the last index of `c`, or -1. */
  function LastIndexOf(s: string, c: char): (r: int)
    ensures -1 <= r < |s|
    ensures r == -1 <==> c !in s
    ensures r >= 0 ==> s[r] == c && c !in s[r + 1..]
  {
    if s == [] then -1
    else if s[|s| - 1] == c then |s| - 1
    else
      assert s == s[..|s| - 1] + [s[|s| - 1]];
      LastIndexOf(s[..|s| - 1], c)
  }

  /** `s.replace(/a/g, b)` for single characters. */
  function ReplaceChar(s: string, a: char, b: char): (r: string)
    ensures |r| == |s|
    ensures forall i :: 0 <= i < |s| ==> r[i] == if s[i] == a then b else s[i]
  {
    seq(|s|, i requires 0 <= i < |s| => if s[i] == a then b else s[i])
  }

  /** Every occurrence of `c` removed (Java `replace("x", "")` for one character). */
  function RemoveChar(s: string, c: char): (r: string)
    ensures c !in r
    ensures |r| <= |s|
    ensures c !in s ==> r == s
    ensures forall x :: x in r ==> x in s
  {
    if s == [] then []
    else if s[0] == c then RemoveChar(s[1..], c)
    else
      assert s == [s[0]] + s[1..];
      [s[0]] + RemoveChar(s[1..], c)
  }

  /** Removing a character from a concatenation removes it from each half. */
  lemma {:induction false} RemoveCharAppend(a: string, b: string, c: char)
    ensures RemoveChar(a + b, c) == RemoveChar(a, c) + RemoveChar(b, c)
    decreases |a|
  {
    if a != [] {
      assert (a + b)[0] == a[0];
      assert (a + b)[1..] == a[1..] + b;
      RemoveCharAppend(a[1..], b, c);
      if a[0] != c {
        assert RemoveChar(a + b, c) == [a[0]] + RemoveChar(a[1..] + b, c);
        assert RemoveChar(a, c) == [a[0]] + RemoveChar(a[1..], c);
      }
    } else {
      assert a + b == b;
    }
  }

  /**
   * JavaScript `s.split(c)` for a one-character separator: the pieces between
   * separators, empty pieces included.
   */
  function SplitOn(s: string, c: char): (r: seq<string>)
    ensures |r| >= 1
    ensures forall i :: 0 <= i < |r| ==> c !in r[i]
    decreases |s|
  {
    var k := IndexOf(s, c);
    if k < 0 then [s] else [s[..k]] + SplitOn(s[k + 1..], c)
  }

  /** A character absent from the input is absent from every piece. */
  lemma {:induction false} SplitOnExcludes(s: string, c: char, x: char)
    requires x !in s
    ensures forall i :: 0 <= i < |SplitOn(s, c)| ==> x !in SplitOn(s, c)[i]
    decreases |s|
  {
    var k := IndexOf(s, c);
    if k >= 0 {
      assert forall j :: 0 <= j < k ==> s[..k][j] == s[j];
      var rest := s[k + 1..];
      assert forall j :: 0 <= j < |rest| ==> rest[j] == s[k + 1 + j];
      SplitOnExcludes(s[k + 1..], c, x);
    }
  }

  /** `parts.join(sep)`. */
  function Join(parts: seq<string>, sep: string): string
  {
    if |parts| == 0 then ""
    else if |parts| == 1 then parts[0]
    else parts[0] + sep + Join(parts[1..], sep)
  }

  /** Splitting and joining again reproduces the input. */
  lemma {:induction false} JoinSplitOn(s: string, c: char)
    ensures Join(SplitOn(s, c), [c]) == s
    decreases |s|
  {
    var k := IndexOf(s, c);
    if k >= 0 {
      var rest := SplitOn(s[k + 1..], c);
      JoinSplitOn(s[k + 1..], c);
      JoinCons(s[..k], rest, [c]);
      assert s == s[..k] + [c] + s[k + 1..];
    }
  }

  lemma JoinCons(a: string, rest: seq<string>, sep: string)
    requires |rest| >= 1
    ensures Join([a] + rest, sep) == a + sep + Join(rest, sep)
  {
    assert ([a] + rest)[1..] == rest;
  }

  /** The first `c` of `a + [c] + b` is the one after `a` when `a` holds none. */
  lemma IndexOfAfter(a: string, b: string, c: char)
    requires c !in a
    ensures IndexOf(a + [c] + b, c) == |a|
  {
    var s := a + [c] + b;
    var k := IndexOf(s, c);
    assert s[|a|] == c;
    assert s[..|a|] == a;
  }

  /** Splitting a string that starts with a piece free of `c`, then `c`, yields that piece first. */
  lemma SplitOnCons(a: string, rest: string, c: char)
    requires c !in a
    ensures SplitOn(a + [c] + rest, c) == [a] + SplitOn(rest, c)
  {
    var s := a + [c] + rest;
    IndexOfAfter(a, rest, c);
    assert s[..|a|] == a;
    assert s[|a| + 1..] == rest;
  }

  /** Joining with a separator that occurs in no part and splitting again gives the parts back. */
  lemma {:induction false} SplitOnJoin(parts: seq<string>, c: char)
    requires |parts| >= 1
    requires forall i :: 0 <= i < |parts| ==> c !in parts[i]
    ensures SplitOn(Join(parts, [c]), c) == parts
    decreases |parts|
  {
    if |parts| > 1 {
      var rest := Join(parts[1..], [c]);
      assert Join(parts, [c]) == parts[0] + [c] + rest;
      SplitOnCons(parts[0], rest, c);
      SplitOnJoin(parts[1..], c);
      assert parts == [parts[0]] + parts[1..];
    }
  }

  /** Joining parts of the same lengths with separators of the same length gives strings of the same length. */
  lemma {:induction false} JoinSameLength(a: seq<string>, b: seq<string>, sepA: string, sepB: string)
    requires |a| == |b| && |sepA| == |sepB|
    requires forall i :: 0 <= i < |a| ==> |a[i]| == |b[i]|
    ensures |Join(a, sepA)| == |Join(b, sepB)|
    decreases |a|
  {
    if |a| > 1 {
      JoinSameLength(a[1..], b[1..], sepA, sepB);
    }
  }

  /** A character in no part and not the separator is not in the joined string. */
  lemma {:induction false} NotInJoin(parts: seq<string>, sep: string, c: char)
    requires c !in sep
    requires forall i :: 0 <= i < |parts| ==> c !in parts[i]
    ensures c !in Join(parts, sep)
    decreases |parts|
  {
    if |parts| > 1 {
      NotInJoin(parts[1..], sep, c);
    }
  }
}

/** JavaScript-specific string semantics. */
module JsText {

  /** The characters JavaScript's `trim()` and the regular expression `\s` treat as white space. */
  predicate IsWhitespace(c: char)
  {
    c == '\t' || c == '\n' || c == '\U{000B}' || c == '\U{000C}' || c == '\r' || c == ' '
    || c == '\U{00A0}' || c == '\U{1680}' || ('\U{2000}' <= c <= '\U{200A}')
    || c == '\U{2028}' || c == '\U{2029}' || c == '\U{202F}' || c == '\U{205F}'
    || c == '\U{3000}' || c == '\U{FEFF}'
  }

  function TrimStart(s: string): (r: string)
    ensures |r| <= |s| && r == s[|s| - |r|..]
    ensures r == [] || !IsWhitespace(r[0])
    ensures forall i :: 0 <= i < |s| - |r| ==> IsWhitespace(s[i])
  {
    if s != [] && IsWhitespace(s[0]) then
      var r := TrimStart(s[1..]);
      assert s[1..][|s| - 1 - |r|..] == s[|s| - |r|..];
      assert forall i :: 0 <= i < |s| - |r| ==> IsWhitespace(s[i]) by {
        forall i | 1 <= i < |s| - |r| ensures IsWhitespace(s[i]) {
          assert s[i] == s[1..][i - 1];
        }
      }
      r
    else s
  }

  function TrimEnd(s: string): (r: string)
    ensures |r| <= |s| && r == s[..|r|]
    ensures r == [] || !IsWhitespace(r[|r| - 1])
    ensures forall i :: |r| <= i < |s| ==> IsWhitespace(s[i])
  {
    if s != [] && IsWhitespace(s[|s| - 1]) then
      var r := TrimEnd(s[..|s| - 1]);
      assert s[..|s| - 1][..|r|] == s[..|r|];
      assert forall i :: |r| <= i < |s| ==> IsWhitespace(s[i]) by {
        forall i | |r| <= i < |s| - 1 ensures IsWhitespace(s[i]) {
          assert s[i] == s[..|s| - 1][i];
        }
      }
      r
    else s
  }

  /** `s.trim()`. */
  function Trim(s: string): string
  {
    TrimEnd(TrimStart(s))
  }

  /** A string trims to "" exactly when it consists of white space only. */
  lemma TrimEmptyIffBlank(s: string)
    ensures Trim(s) == "" <==> forall i :: 0 <= i < |s| ==> IsWhitespace(s[i])
  {
  }

  /** `s.length`: UTF-16 code units, two for a character outside the Basic Multilingual Plane. */
  function Utf16Length(s: string): (n: nat)
    ensures |s| <= n <= 2 * |s|
  {
    if s == [] then 0
    else (if s[0] as int >= 0x1_0000 then 2 else 1) + Utf16Length(s[1..])
  }
}

/** Java-specific string semantics. */
module JavaText {
  import Text

  /** `String.trim()`: strips every character up to U+0020 from both ends. */
  function Trim(s: string): (r: string)
    ensures |r| <= |s|
    ensures r == [] || (r[0] > ' ' && r[|r| - 1] > ' ')
  {
    if s != [] && s[0] <= ' ' then Trim(s[1..])
    else if s != [] && s[|s| - 1] <= ' ' then Trim(s[..|s| - 1])
    else s
  }

  /** A string with no character up to U+0020 at either end is its own trim. */
  lemma TrimKeeps(s: string)
    requires s == [] || (s[0] > ' ' && s[|s| - 1] > ' ')
    ensures Trim(s) == s
  {
  }

  /** `Character.isWhitespace`. */
  predicate IsWhitespace(c: char)
  {
    ('\t' <= c <= '\r') || ('\U{001C}' <= c <= '\U{001F}') || c == ' '
    || c == '\U{1680}' || ('\U{2000}' <= c <= '\U{2006}') || ('\U{2008}' <= c <= '\U{200A}')
    || c == '\U{2028}' || c == '\U{2029}' || c == '\U{205F}' || c == '\U{3000}'
  }

  /** `String.isBlank()`. */
  predicate IsBlank(s: string)
  {
    forall i :: 0 <= i < |s| ==> IsWhitespace(s[i])
  }

  /** The regular-expression class `\s` (ASCII white space, Java's default). */
  predicate IsRegexSpace(c: char)
  {
    c == ' ' || c == '\t' || c == '\n' || c == '\U{000B}' || c == '\U{000C}' || c == '\r'
  }

  function DropTrailingEmpty(parts: seq<string>): (r: seq<string>)
    ensures |r| <= |parts| && r == parts[..|r|]
    ensures r == [] || r[|r| - 1] != ""
    ensures forall i :: |r| <= i < |parts| ==> parts[i] == ""
  {
    if parts != [] && parts[|parts| - 1] == "" then DropTrailingEmpty(parts[..|parts| - 1])
    else parts
  }

  /**
   * `s.split(String.valueOf(c))`: the pieces between separators with the
   * trailing empty ones removed; an input without the separator is its own
   * single piece.
   */
  function Split(s: string, c: char): seq<string>
  {
    if c !in s then [s] else DropTrailingEmpty(Text.SplitOn(s, c))
  }

  function StripRegexSpace(s: string): (r: string)
    ensures |r| <= |s| && r == s[|s| - |r|..]
    ensures r == [] || !IsRegexSpace(r[0])
  {
    if s != [] && IsRegexSpace(s[0]) then StripRegexSpace(s[1..]) else s
  }

  /**
   * `s.split(",\\s*")`: every comma together with the white space after it
   * separates two pieces; trailing empty pieces are removed.
   */
  function SplitCommaSpace(s: string): seq<string>
  {
    if ',' !in s then [s]
    else
      var pieces := Text.SplitOn(s, ',');
      DropTrailingEmpty([pieces[0]] + StripEach(pieces[1..]))
  }

  /** The white space after each separating comma removed from the following piece. */
  function StripEach(pieces: seq<string>): (r: seq<string>)
    ensures |r| == |pieces|
    ensures forall i :: 0 <= i < |pieces| ==> r[i] == StripRegexSpace(pieces[i])
  {
    seq(|pieces|, i requires 0 <= i < |pieces| => StripRegexSpace(pieces[i]))
  }

  /** The pieces of `split(",\\s*")` contain no comma, and no character the input lacks. */
  lemma SplitCommaSpaceExcludes(s: string, x: char)
    requires x !in s
    ensures forall i :: 0 <= i < |SplitCommaSpace(s)| ==> ',' !in SplitCommaSpace(s)[i] && x !in SplitCommaSpace(s)[i]
  {
    if ',' in s {
      var pieces := Text.SplitOn(s, ',');
      Text.SplitOnExcludes(s, ',', x);
      var tail := pieces[1..];
      var stripped := StripEach(tail);
      forall i | 0 <= i < |tail| ensures ',' !in stripped[i] && x !in stripped[i] {
        StripKeepsAbsent(tail[i], ',');
        StripKeepsAbsent(tail[i], x);
      }
      var u := [pieces[0]] + stripped;
      assert forall i :: 0 <= i < |u| ==> ',' !in u[i] && x !in u[i];
      var r := DropTrailingEmpty(u);
      assert forall i :: 0 <= i < |r| ==> r[i] == u[i];
    }
  }

  /** Stripping leading white space adds no character. */
  lemma StripKeepsAbsent(t: string, x: char)
    requires x !in t
    ensures x !in StripRegexSpace(t)
  {
    var r := StripRegexSpace(t);
    assert forall j :: 0 <= j < |r| ==> r[j] == t[|t| - |r| + j];
  }

  /**
   * Joining non-empty pieces free of commas and of leading white space with
   * `,` and splitting on `,\\s*` gives the pieces back.
   */
  lemma SplitCommaSpaceJoin(parts: seq<string>)
    requires |parts| >= 1
    requires forall i :: 0 <= i < |parts| ==> parts[i] != "" && ',' !in parts[i] && !IsRegexSpace(parts[i][0])
    ensures SplitCommaSpace(Text.Join(parts, ",")) == parts
  {
    var s := Text.Join(parts, ",");
    Text.SplitOnJoin(parts, ',');
    if ',' in s {
      var tail := parts[1..];
      forall i | 0 <= i < |tail| ensures StripRegexSpace(tail[i]) == tail[i] {
        assert tail[i] == parts[i + 1];
      }
      assert StripEach(tail) == tail;
      assert [parts[0]] + tail == parts;
    } else {
      assert Text.SplitOn(s, ',') == [s];
    }
  }

  // ----- hashing with 32-bit wrap-around -----

  const TWO_32: int := 0x1_0000_0000
  const TWO_31: int := 0x8000_0000

  /** The signed 32-bit value of an unsigned one. */
  function ToInt32(u: int): (r: int)
    requires 0 <= u < TWO_32
    ensures -TWO_31 <= r < TWO_31
    ensures (r - u) % TWO_32 == 0
  {
    if u >= TWO_31 then u - TWO_32 else u
  }

  /** The UTF-16 code units of a string, surrogate pairs for supplementary characters. */
  function Utf16Units(s: string): seq<int>
  {
    if s == [] then []
    else
      var c := s[0] as int;
      (if c < 0x1_0000 then [c]
       else [0xD800 + (c - 0x1_0000) / 0x400, 0xDC00 + (c - 0x1_0000) % 0x400])
      + Utf16Units(s[1..])
  }

  /** `h = 31 * h + unit` over the units, modulo 2^32. */
  function HashUnits(units: seq<int>): (h: int)
    ensures 0 <= h < TWO_32
  {
    if units == [] then 0
    else (31 * HashUnits(units[..|units| - 1]) + units[|units| - 1]) % TWO_32
  }

  /** `String.hashCode()`. */
  function StringHash(s: string): (h: int)
    ensures -TWO_31 <= h < TWO_31
  {
    ToInt32(HashUnits(Utf16Units(s)))
  }

  /** A Java `long`. */
  type Long = v: int | -0x8000_0000_0000_0000 <= v < 0x8000_0000_0000_0000

  /** `Long.hashCode(v)`: `(int) (v ^ (v >>> 32))`. */
  function LongHash(v: Long): (h: int)
    ensures -TWO_31 <= h < TWO_31
  {
    var bits := (if v < 0 then v + 0x1_0000_0000_0000_0000 else v) as bv64;
    var mixed := bits ^ (bits >> 32);
    ToInt32((mixed as int) % TWO_32)
  }

  /** `Objects.hash(a, b)` given the element hashes (0 for null). */
  function Hash2(ha: int, hb: int): (h: int)
    ensures -TWO_31 <= h < TWO_31
  {
    ToInt32((31 * (31 * 1 + ha) + hb) % TWO_32)
  }
}
