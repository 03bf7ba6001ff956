/**
 * The three value-equality address keys: `utils.Inet`, `utils.InetAddress`
 * and `repository.adapter.InetAddress`. Each wraps one immutable address
 * string, compares and hashes by it, and turns it into a resolved address
 * after cutting off a `/prefix` suffix. The three classes are the same code
 * under different names, so the model is one key value tagged with its class.
 */
module InetKeys {
  import opened Wrappers
  import Text
  import JavaText

  /** The class a key object belongs to; `equals` never relates two different ones. */
  datatype KeyClass = UtilsInet | UtilsInetAddress | AdapterInetAddress

  /** A key object: its class and its final `address` field. */
  datatype Key = Key(cls: KeyClass, address: Option<string>)

  /** The argument of `equals(Object o)`: null, a key of some class, or an object of an unrelated class. */
  datatype Other = Null | AKey(key: Key) | Foreign

  /**
   * `equals`: `this == o` answers true at once; null or another class
   * answers false; otherwise the addresses are compared null-safely.
   */
  function Equals(self: Key, o: Other, identical: bool): (r: bool)
    requires identical ==> o == AKey(self)
    ensures r <==> o.AKey? && o.key.cls == self.cls && o.key.address == self.address
  {
    if identical then true
    else if o.Null? || o.Foreign? || o.key.cls != self.cls then false
    else match self.address
      case Some(a) => o.key.address.Some? && a == o.key.address.value
      case None => o.key.address.None?
  }

  /** `hashCode`: 0 for a null address, the string's hash otherwise. */
  function Hash(self: Key): (r: int)
    ensures self.address.None? ==> r == 0
    ensures -JavaText.TWO_31 <= r < JavaText.TWO_31
  {
    match self.address
    case None => 0
    case Some(a) => JavaText.StringHash(a)
  }

  /** Two keys of one class with null addresses are equal. */
  lemma NullAddressesEqual(c: KeyClass)
    ensures Equals(Key(c, None), AKey(Key(c, None)), false)
  {
  }

  /** `equals` is reflexive, symmetric and transitive, and never holds for null or a foreign object. */
  lemma EqualsIsEquivalence(a: Key, b: Key, c: Key)
    ensures Equals(a, AKey(a), false)
    ensures Equals(a, AKey(b), false) ==> Equals(b, AKey(a), false)
    ensures Equals(a, AKey(b), false) && Equals(b, AKey(c), false) ==> Equals(a, AKey(c), false)
    ensures !Equals(a, Null, false) && !Equals(a, Foreign, false)
  {
  }

  /** Equal keys have equal hash codes. */
  lemma HashConsistentWithEquals(a: Key, b: Key)
    requires Equals(a, AKey(b), false)
    ensures Hash(a) == Hash(b)
  {
  }

  // ----- host stripping: `address.replaceAll("\\/.*$", "")` -----

  /** The characters that end a line for `.` and `$` (Java's default, not UNIX_LINES). */
  predicate IsLineTerminator(c: char)
  {
    c == '\n' || c == '\r' || c == '\U{0085}' || c == '\U{2028}' || c == '\U{2029}'
  }

  /**
   * Where `$` (without MULTILINE) can match in `s`: at the end, before one
   * final line terminator (but not between `\r` and `\n`), or before a final
   * `\r\n`.
   */
  predicate DollarAt(s: string, j: int)
    requires 0 <= j <= |s|
  {
    j == |s|
    || (j == |s| - 2 && s[j] == '\r' && s[j + 1] == '\n')
    || (j == |s| - 1 && IsLineTerminator(s[j]) && !(s[j] == '\n' && j > 0 && s[j - 1] == '\r'))
  }

  /** The pattern `\/.*$` matches `s[p..j]`: a slash, then no line terminator up to a `$` position. */
  predicate MatchesAt(s: string, p: int, j: int)
    requires 0 <= p < j <= |s|
  {
    s[p] == '/' && (forall k :: p < k < j ==> !IsLineTerminator(s[k])) && DollarAt(s, j)
  }

  /** The length of `s` without its final line terminator (`\r\n` counting as one). */
  function ContentEnd(s: string): (b: nat)
    ensures b <= |s|
    ensures DollarAt(s, b)
    ensures forall k :: b <= k < |s| ==> IsLineTerminator(s[k])
    ensures forall j :: 0 <= j <= |s| && DollarAt(s, j) ==> j == b || j == |s|
  {
    if |s| >= 2 && s[|s| - 2] == '\r' && s[|s| - 1] == '\n' then |s| - 2
    else if |s| >= 1 && IsLineTerminator(s[|s| - 1]) then |s| - 1
    else |s|
  }

  /** The index just after the last line terminator of `s`, or 0 when it has none. */
  function LineStart(s: string): (t: nat)
    ensures t <= |s|
    ensures forall k :: t <= k < |s| ==> !IsLineTerminator(s[k])
    ensures t > 0 ==> IsLineTerminator(s[t - 1])
  {
    if s == [] then 0
    else if IsLineTerminator(s[|s| - 1]) then |s|
    else LineStart(s[..|s| - 1])
  }

  /**
   * The host handed to resolution: from the first slash of the last line
   * (final terminator excluded) to that terminator, everything is removed.
   */
  function StripHost(s: string): (r: string)
    ensures |r| <= |s|
    ensures '/' !in s ==> r == s
  {
    var b := ContentEnd(s);
    var t := LineStart(s[..b]);
    var k := Text.IndexOf(s[t..b], '/');
    if k < 0 then s else s[..t + k] + s[b..]
  }

  /** Exactly the slashes on the last line of `s` start a match, and every match ends at `ContentEnd(s)`. */
  lemma MatchCharacterization(s: string, p: int, j: int)
    requires 0 <= p < j <= |s|
    ensures MatchesAt(s, p, j) <==>
      var b := ContentEnd(s);
      j == b && LineStart(s[..b]) <= p && s[p] == '/'
  {
    var b := ContentEnd(s);
    var t := LineStart(s[..b]);
    LastLineFacts(s);
    if b < |s| {
      assert IsLineTerminator(s[|s| - 1]);
    }
  }

  /** What `ContentEnd` and `LineStart` say, restated on `s` itself. */
  lemma LastLineFacts(s: string)
    ensures var b := ContentEnd(s);
      var t := LineStart(s[..b]);
      && t <= b
      && (t > 0 ==> IsLineTerminator(s[t - 1]))
      && forall k :: t <= k < b ==> !IsLineTerminator(s[k])
  {
    var b := ContentEnd(s);
    var t := LineStart(s[..b]);
    if t > 0 {
      assert s[..b][t - 1] == s[t - 1];
    }
    forall k | t <= k < b ensures !IsLineTerminator(s[k]) {
      assert s[..b][k] == s[k];
    }
  }

  /** The characters of the last line, seen on `s` itself. */
  lemma SlashFacts(s: string)
    ensures var b := ContentEnd(s);
      var t := LineStart(s[..b]);
      var k := Text.IndexOf(s[t..b], '/');
      && (k < 0 ==> forall i :: t <= i < b ==> s[i] != '/')
      && (k >= 0 ==> t + k < b && s[t + k] == '/' && forall i :: t <= i < t + k ==> s[i] != '/')
  {
    var b := ContentEnd(s);
    var t := LineStart(s[..b]);
    var k := Text.IndexOf(s[t..b], '/');
    forall i | t <= i < b ensures s[t..b][i - t] == s[i] {
    }
    if k >= 0 {
      forall i | t <= i < t + k ensures s[i] != '/' {
        assert s[t..b][..k][i - t] == s[i];
      }
    }
  }

  /** No match is possible when the last line holds no slash. */
  lemma NoSlashNoMatch(s: string)
    requires var b := ContentEnd(s); Text.IndexOf(s[LineStart(s[..b])..b], '/') < 0
    ensures forall p, j :: 0 <= p < j <= |s| ==> !MatchesAt(s, p, j)
  {
    SlashFacts(s);
    forall p, j | 0 <= p < j <= |s| ensures !MatchesAt(s, p, j) {
      MatchCharacterization(s, p, j);
    }
  }

  /** The first slash on the last line starts the leftmost-longest match, which ends at `ContentEnd(s)`. */
  lemma FirstSlashMatches(s: string, p: int, b: int)
    requires b == ContentEnd(s)
    requires var t := LineStart(s[..b]); var k := Text.IndexOf(s[t..b], '/'); k >= 0 && p == t + k
    ensures 0 <= p < b <= |s| && LeftmostLongest(s, p, b)
  {
    SlashFacts(s);
    MatchCharacterization(s, p, b);
    forall p', j | 0 <= p' < p && p' < j <= |s| ensures !MatchesAt(s, p', j) {
      MatchCharacterization(s, p', j);
    }
    forall j | b < j <= |s| ensures !MatchesAt(s, p, j) {
      MatchCharacterization(s, p, j);
    }
    forall p', j | b <= p' < j <= |s| ensures !MatchesAt(s, p', j) {
      MatchCharacterization(s, p', j);
    }
  }

  /**
   * `replaceAll` with this pattern performs at most one replacement: when
   * `StripHost` cuts `s[p..j]`, that is the leftmost match and the longest
   * one starting there, and no match starts after it; when it cuts nothing,
   * the pattern matches nowhere.
   */
  lemma {:induction false} StripHostIsRegexReplacement(s: string)
    ensures ((forall p, j :: 0 <= p < j <= |s| ==> !MatchesAt(s, p, j)) && StripHost(s) == s)
      || exists p, j :: 0 <= p < j <= |s| && LeftmostLongest(s, p, j) && StripHost(s) == s[..p] + s[j..]
  {
    var b := ContentEnd(s);
    var t := LineStart(s[..b]);
    var k := Text.IndexOf(s[t..b], '/');
    if k < 0 {
      NoSlashNoMatch(s);
      assert StripHost(s) == s;
    } else {
      SlashCut(s);
    }
  }

  /** With a slash on the last line, the cut is the leftmost-longest match. */
  lemma {:induction false} SlashCut(s: string)
    requires var b := ContentEnd(s); Text.IndexOf(s[LineStart(s[..b])..b], '/') >= 0
    ensures exists p, j :: 0 <= p < j <= |s| && LeftmostLongest(s, p, j) && StripHost(s) == s[..p] + s[j..]
  {
    var b := ContentEnd(s);
    var t := LineStart(s[..b]);
    var k := Text.IndexOf(s[t..b], '/');
    var p := t + k;
    FirstSlashMatches(s, p, b);
    assert StripHost(s) == s[..p] + s[b..];
  }

  /**
   * `s[p..j]` is the match `replaceAll` replaces: the leftmost one, the
   * longest from there, and the last, since no match starts at or after `j`.
   */
  predicate LeftmostLongest(s: string, p: int, j: int)
    requires 0 <= p < j <= |s|
  {
    && MatchesAt(s, p, j)
    && (forall p', j' :: 0 <= p' < p && p' < j' <= |s| ==> !MatchesAt(s, p', j'))
    && (forall j' :: j < j' <= |s| ==> !MatchesAt(s, p, j'))
    && (forall p', j' :: j <= p' < j' <= |s| ==> !MatchesAt(s, p', j'))
  }

  /** On a single line, everything from the first slash on is removed. */
  lemma StripHostSingleLine(s: string)
    requires forall k :: 0 <= k < |s| ==> !IsLineTerminator(s[k])
    ensures var k := Text.IndexOf(s, '/');
      StripHost(s) == if k < 0 then s else s[..k]
  {
    assert ContentEnd(s) == |s|;
    assert s[..|s|] == s;
    assert LineStart(s) == 0;
    assert s[0..|s|] == s;
  }

  /** An address without a slash is passed to resolution unchanged. */
  lemma StripHostNoSlash(s: string)
    requires '/' !in s
    ensures StripHost(s) == s
  {
    SlashFacts(s);
  }

  /** A failure of `toInetAddress`. */
  datatype ResolveError = NullAddress | IllegalState(host: string)

  /**
   * `toInetAddress`: resolution of the stripped host. `resolve` stands for
   * `Inet4Address.getByName`, with `None` for an UnknownHostException, which
   * is rethrown as IllegalStateException; a null address throws before any
   * resolution.
   */
  function ToInetAddress<Ip>(self: Key, resolve: string -> Option<Ip>): (r: Result<Ip, ResolveError>)
    ensures self.address.None? <==> r == Err(NullAddress)
    ensures self.address.Some? ==>
      var host := StripHost(self.address.value);
      match resolve(host)
      case Some(ip) => r == Ok(ip)
      case None => r == Err(IllegalState(host))
  {
    match self.address
    case None => Err(NullAddress)
    case Some(a) =>
      var host := StripHost(a);
      match resolve(host)
      case Some(ip) => Ok(ip)
      case None => Err(IllegalState(host))
  }

  /** The three classes behave identically apart from `equals` separating them. */
  lemma ClassesAgree(c1: KeyClass, c2: KeyClass, a: Option<string>, resolve: string -> Option<int>)
    ensures Hash(Key(c1, a)) == Hash(Key(c2, a))
    ensures ToInetAddress(Key(c1, a), resolve) == ToInetAddress(Key(c2, a), resolve)
    ensures Equals(Key(c1, a), AKey(Key(c2, a)), false) <==> c1 == c2
  {
  }
}
