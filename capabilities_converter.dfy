/**
 * `CapabilitiesArrayConverter`: stores an array of capability types as a
 * PostgreSQL array literal (`{READ,CREATE}`, the unquoted form of section
 * 8.15.2 "Array Value Input" of the PostgreSQL documentation) and reads it
 * back.
 */
module CapabilitiesConverter {
  import opened Wrappers
  import Text
  import JavaText
  import opened Entities

  /** The enum names of the elements, in order. */
  function Names(caps: seq<CapabilitiesType>): (r: seq<string>)
    ensures |r| == |caps|
    ensures forall i :: 0 <= i < |caps| ==> r[i] == CapabilityName(caps[i])
  {
    seq(|caps|, i requires 0 <= i < |caps| => CapabilityName(caps[i]))
  }

  /** The column text of an array: null for a null or empty array, `{` names joined by `,` `}` otherwise. */
  function DatabaseColumn(attribute: Option<seq<CapabilitiesType>>): (r: Option<string>)
    ensures r.None? <==> attribute.None? || attribute.value == []
  {
    if attribute.None? || attribute.value == [] then None
    else Some("{" + Text.Join(Names(attribute.value), ",") + "}")
  }

  /** The text between one pair of surrounding braces, or the text itself when it lacks either brace. */
  function StripBraces(data: string): (r: string)
    ensures |data| >= 2 && data[0] == '{' && data[|data| - 1] == '}' ==> r == data[1..|data| - 1]
    ensures !(|data| >= 1 && data[0] == '{' && data[|data| - 1] == '}') ==> r == data
  {
    if |data| >= 1 && data[0] == '{' && data[|data| - 1] == '}' then data[1..|data| - 1] else data
  }

  /** `CapabilitiesType.valueOf(part.trim())`: `None` is the IllegalArgumentException. */
  function Lookup(part: string): Option<CapabilitiesType>
  {
    CapabilityValueOf(JavaText.Trim(part))
  }

  /**
   * Each part looked up in turn; the first part that names no constant is
   * the error. Defined on the last part, the way the conversion loop extends
   * its result by one element at a time.
   */
  function ParseParts(parts: seq<string>): (r: Result<seq<CapabilitiesType>, string>)
    ensures r.Ok? ==> |r.value| == |parts|
    ensures r.Err? ==> CapabilityValueOf(r.error).None?
  {
    if parts == [] then Ok([])
    else
      match ParseParts(parts[..|parts| - 1])
      case Err(e) => Err(e)
      case Ok(prefix) =>
        match Lookup(parts[|parts| - 1])
        case None => Err(JavaText.Trim(parts[|parts| - 1]))
        case Some(c) => Ok(prefix + [c])
  }

  /** A successful parse has one element per part, each the constant the trimmed part names. */
  lemma {:induction false} ParsePartsOk(parts: seq<string>)
    requires ParseParts(parts).Ok?
    ensures |ParseParts(parts).value| == |parts|
    ensures forall i :: 0 <= i < |parts| ==> CapabilityName(ParseParts(parts).value[i]) == JavaText.Trim(parts[i])
  {
    if parts != [] {
      var front := parts[..|parts| - 1];
      ParsePartsOk(front);
      var prefix := ParseParts(front).value;
      var last := JavaText.Trim(parts[|parts| - 1]);
      var c := CapabilityValueOf(last).value;
      assert CapabilityName(c) == last;
      var v := ParseParts(parts).value;
      assert v == prefix + [c];
      forall i | 0 <= i < |parts| ensures CapabilityName(v[i]) == JavaText.Trim(parts[i]) {
        if i < |front| {
          assert parts[i] == front[i] && v[i] == prefix[i];
        }
      }
    }
  }

  /** Once a prefix fails, the whole list fails with the same part. */
  lemma {:induction false} ParsePartsPrefixErr(parts: seq<string>, n: nat)
    requires n <= |parts| && ParseParts(parts[..n]).Err?
    ensures ParseParts(parts) == ParseParts(parts[..n])
    decreases |parts| - n
  {
    if n < |parts| {
      var m := |parts| - 1;
      assert parts[..m][..n] == parts[..n];
      ParsePartsPrefixErr(parts[..m], n);
      assert parts[..|parts|] == parts;
    } else {
      assert parts[..n] == parts;
    }
  }

  /** Parsing fails exactly when some part names no constant, and then with the first such part. */
  lemma {:induction false} ParsePartsError(parts: seq<string>)
    ensures ParseParts(parts).Err? <==> exists i :: 0 <= i < |parts| && Lookup(parts[i]).None?
    ensures ParseParts(parts).Err? ==>
      exists i :: (0 <= i < |parts| && ParseParts(parts).error == JavaText.Trim(parts[i])
                   && Lookup(parts[i]).None? && forall j :: 0 <= j < i ==> Lookup(parts[j]).Some?)
  {
    if parts != [] {
      var m := |parts| - 1;
      var front := parts[..m];
      ParsePartsError(front);
      assert forall i :: 0 <= i < m ==> parts[i] == front[i];
      if ParseParts(front).Err? {
        var i :| (0 <= i < |front| && ParseParts(front).error == JavaText.Trim(front[i])
                  && Lookup(front[i]).None? && forall j :: 0 <= j < i ==> Lookup(front[j]).Some?);
        assert ParseParts(parts).error == JavaText.Trim(parts[i]);
      } else if Lookup(parts[m]).None? {
        assert forall j :: 0 <= j < m ==> Lookup(parts[j]).Some?;
      } else {
        forall i | 0 <= i < |parts| ensures Lookup(parts[i]).Some? {
          if i < m {
            assert parts[i] == front[i];
          }
        }
      }
    }
  }

  /**
   * The array read from a column: empty for null or "", otherwise the
   * trimmed text with its braces stripped, split on `,` (trailing empty
   * parts dropped) and each part looked up by name.
   */
  function EntityAttribute(dbData: Option<string>): (r: Result<seq<CapabilitiesType>, string>)
    ensures dbData.None? || dbData.value == "" ==> r == Ok([])
    ensures dbData.Some? && StripBraces(JavaText.Trim(dbData.value)) == "" ==> r == Ok([])
    ensures r.Err? ==> CapabilityValueOf(r.error).None?
  {
    if dbData.None? || dbData.value == "" then Ok([])
    else
      var data := StripBraces(JavaText.Trim(dbData.value));
      if data == "" then Ok([]) else ParseParts(JavaText.Split(data, ','))
  }

  /** `convertToDatabaseColumn`: the literal is built in a `StringBuilder`, one element at a time. */
  method ConvertToDatabaseColumn(attribute: Option<array<CapabilitiesType>>) returns (r: Option<string>)
    ensures r == DatabaseColumn(if attribute.None? then None else Some(attribute.value[..]))
  {
    if attribute.None? || attribute.value.Length == 0 {
      return None;
    }
    var a := attribute.value;
    var sb := "{";
    for i := 0 to a.Length
      invariant sb == "{" + Text.Join(Names(a[..i]), ",")
    {
      if i > 0 {
        sb := sb + ",";
      }
      JoinSnoc(Names(a[..i]), CapabilityName(a[i]), ",");
      assert Names(a[..i + 1]) == Names(a[..i]) + [CapabilityName(a[i])];
      sb := sb + CapabilityName(a[i]);
    }
    assert a[..a.Length] == a[..];
    r := Some(sb + "}");
  }

  /** Appending one part to a join. */
  lemma {:induction false} JoinSnoc(parts: seq<string>, x: string, sep: string)
    ensures Text.Join(parts + [x], sep) == if parts == [] then x else Text.Join(parts, sep) + sep + x
    decreases |parts|
  {
    if |parts| > 1 {
      assert (parts + [x])[1..] == parts[1..] + [x];
      JoinSnoc(parts[1..], x, sep);
    } else if |parts| == 1 {
      assert (parts + [x])[1..] == [x];
    }
  }

  /**
   * `convertToEntityAttribute`: the result array is filled by index; the
   * first unknown name ends the conversion with an error.
   */
  method ConvertToEntityAttribute(dbData: Option<string>) returns (r: Result<array<CapabilitiesType>, string>)
    ensures EntityAttribute(dbData).Ok? <==> r.Ok?
    ensures r.Ok? ==> fresh(r.value) && r.value[..] == EntityAttribute(dbData).value
    ensures r.Err? ==> r.error == EntityAttribute(dbData).error
  {
    if dbData.None? || dbData.value == "" {
      var empty := new CapabilitiesType[0];
      return Ok(empty);
    }
    var data := JavaText.Trim(dbData.value);
    ghost var trimmed := data;
    if |data| >= 1 && data[0] == '{' && data[|data| - 1] == '}' {
      data := data[1..|data| - 1];
    }
    assert data == StripBraces(trimmed);
    if data == "" {
      var empty := new CapabilitiesType[0];
      return Ok(empty);
    }
    assert EntityAttribute(dbData) == ParseParts(JavaText.Split(data, ','));
    r := ParseAll(JavaText.Split(data, ','));
  }

  /** The loop of `convertToEntityAttribute`: fills the result array by index, stopping at the first unknown name. */
  method ParseAll(parts: seq<string>) returns (r: Result<array<CapabilitiesType>, string>)
    ensures ParseParts(parts).Ok? <==> r.Ok?
    ensures r.Ok? ==> fresh(r.value) && r.value[..] == ParseParts(parts).value
    ensures r.Err? ==> r.error == ParseParts(parts).error
  {
    var result := new CapabilitiesType[|parts|](_ => READ);
    for i := 0 to |parts|
      invariant ParseParts(parts[..i]).Ok?
      invariant result[..i] == ParseParts(parts[..i]).value
    {
      var v := Lookup(parts[i]);
      assert parts[..i + 1][..i] == parts[..i];
      if v.None? {
        ParsePartsPrefixErr(parts, i + 1);
        return Err(JavaText.Trim(parts[i]));
      }
      result[i] := v.value;
    }
    assert parts[..|parts|] == parts;
    r := Ok(result);
  }

  // ----- properties -----

  /** A null or empty column reads as an empty array, and so does `{}`. */
  lemma EmptyColumns(s: string)
    requires s == "{}"
    ensures EntityAttribute(None) == Ok([]) && EntityAttribute(Some("")) == Ok([])
    ensures EntityAttribute(Some(s)) == Ok([])
  {
    JavaText.TrimKeeps(s);
  }

  /**
   * The column `{p1,...,pn}` of parts free of commas whose last part is not
   * empty is split back into exactly those parts.
   */
  lemma ColumnParts(parts: seq<string>)
    requires |parts| >= 1 && parts[|parts| - 1] != ""
    requires forall i :: 0 <= i < |parts| ==> ',' !in parts[i]
    ensures var data := StripBraces(JavaText.Trim("{" + Text.Join(parts, ",") + "}"));
      data != "" && JavaText.Split(data, ',') == parts
  {
    var joined := Text.Join(parts, ",");
    var column := "{" + joined + "}";
    JavaText.TrimKeeps(column);
    assert column[1..|column| - 1] == joined;
    Text.SplitOnJoin(parts, ',');
    if ',' !in joined {
      assert Text.SplitOn(joined, ',') == [joined];
    }
    assert joined != "" by {
      Text.JoinSplitOn(joined, ',');
    }
  }

  /** The names of an array look up the same array. */
  lemma {:induction false} ParsePartsNames(caps: seq<CapabilitiesType>)
    ensures ParseParts(Names(caps)) == Ok(caps)
  {
    if caps != [] {
      var m := |caps| - 1;
      CapabilityNameRoundTrip(caps[m]);
      JavaText.TrimKeeps(CapabilityName(caps[m]));
      assert Names(caps)[..m] == Names(caps[..m]);
      ParsePartsNames(caps[..m]);
      assert caps == caps[..m] + [caps[m]];
    }
  }

  /** Every name is a non-empty word without commas. */
  lemma NamesAreWords(caps: seq<CapabilitiesType>)
    ensures forall i :: 0 <= i < |caps| ==> Names(caps)[i] != "" && ',' !in Names(caps)[i]
  {
    forall i | 0 <= i < |caps| ensures Names(caps)[i] != "" && ',' !in Names(caps)[i] {
      CapabilityNameRoundTrip(caps[i]);
    }
  }

  /** Writing a non-empty array and reading the column back gives the same array. */
  lemma RoundTrip(caps: seq<CapabilitiesType>)
    requires caps != []
    ensures DatabaseColumn(Some(caps)).Some?
    ensures EntityAttribute(DatabaseColumn(Some(caps))) == Ok(caps)
  {
    NamesAreWords(caps);
    ColumnParts(Names(caps));
    ParsePartsNames(caps);
  }

  /** A null or empty array is written as null, which reads back as an empty array. */
  lemma RoundTripEmpty(attribute: Option<seq<CapabilitiesType>>)
    requires attribute.None? || attribute.value == []
    ensures EntityAttribute(DatabaseColumn(attribute)) == Ok([])
  {
  }

  /**
   * A column whose valid names are followed by a word that names no
   * constant fails with that word (as in `{READ,WRITE}`).
   */
  lemma UnknownNameRejected(caps: seq<CapabilitiesType>, word: string)
    requires word != "" && ',' !in word && word[0] > ' ' && word[|word| - 1] > ' '
    requires word !in CAPABILITY_NAMES
    ensures EntityAttribute(Some("{" + Text.Join(Names(caps) + [word], ",") + "}")) == Err(word)
  {
    var parts := Names(caps) + [word];
    NamesAreWords(caps);
    assert forall i :: 0 <= i < |caps| ==> parts[i] == Names(caps)[i];
    ColumnParts(parts);
    assert parts[..|parts| - 1] == Names(caps);
    ParsePartsNames(caps);
    JavaText.TrimKeeps(word);
  }
}
