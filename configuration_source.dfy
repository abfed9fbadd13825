/**
 * The repository configuration source built over one unit's properties
 * (PropertiesRepositoryConfigurationSource): the property keys it defines,
 * the parsing of the base-package list, attribute lookup and its fixed answers.
 */
module RepositoryConfiguration {
  import opened Wrappers
  import opened JavaStrings
  import opened PropertyMaps

  const DRIVER_CLASS_NAME: string := "datasource.driver_class"
  const URL: string := "datasource.url"
  const USERNAME: string := "datasource.username"
  const PASSWORD: string := "datasource.password"
  const BASE_PACKAGES: string := "repository.base_packages"

  /** Spring Data's `QueryLookupStrategy.Key`. */
  datatype QueryLookupKey = Create | UseDeclaredQuery | CreateIfNotFound

  // ---------------------------------------------------------------------------
  // Base packages

  /**
   * The segments that are not blank (whose trimmed form is non-empty), in
   * their order and exactly as split (untrimmed).
   */
  function KeepNonBlank(segments: seq<string>): (kept: seq<string>)
  {
    if |segments| == 0 then []
    else
      var n := |segments| - 1;
      KeepNonBlank(segments[..n]) + (if !IsBlank(segments[n]) then [segments[n]] else [])
  }

  /** A segment is kept exactly when it is not blank; none is invented. */
  lemma {:induction false} KeepNonBlankMembers(segments: seq<string>)
    ensures |KeepNonBlank(segments)| <= |segments|
    ensures forall x :: x in KeepNonBlank(segments) <==> x in segments && !IsBlank(x)
  {
    if |segments| > 0 {
      var n := |segments| - 1;
      KeepNonBlankMembers(segments[..n]);
      assert segments == segments[..n] + [segments[n]];
    }
  }

  /**
   * Each segment is kept as often as it occurs when it is not blank, and not
   * at all when it is: duplicates are neither merged nor invented.
   */
  lemma {:induction false} KeepNonBlankCounts(segments: seq<string>)
    ensures forall x :: multiset(KeepNonBlank(segments))[x] == if IsBlank(x) then 0 else multiset(segments)[x]
  {
    if |segments| > 0 {
      var n := |segments| - 1;
      KeepNonBlankCounts(segments[..n]);
      assert segments == segments[..n] + [segments[n]];
    }
  }

  /** `sub` is `s` with some elements left out and the rest kept in order. */
  predicate IsSubsequence(sub: seq<string>, s: seq<string>)
    decreases |s|
  {
    if |sub| == 0 then true
    else if |s| == 0 then false
    else if sub[|sub| - 1] == s[|s| - 1] then IsSubsequence(sub[..|sub| - 1], s[..|s| - 1])
    else IsSubsequence(sub, s[..|s| - 1])
  }

  lemma {:induction false} KeepNonBlankIsSubsequence(segments: seq<string>)
    ensures IsSubsequence(KeepNonBlank(segments), segments)
  {
    if |segments| > 0 {
      var n := |segments| - 1;
      KeepNonBlankIsSubsequence(segments[..n]);
      KeepNonBlankMembers(segments[..n]);
      var front := KeepNonBlank(segments[..n]);
      if !IsBlank(segments[n]) {
        var kept := KeepNonBlank(segments);
        assert kept[..|kept| - 1] == front;
      } else {
        assert KeepNonBlank(segments) == front;
        if front != [] {
          assert front[|front| - 1] in front;
          assert front[|front| - 1] != segments[n];
        }
      }
    }
  }

  /** Empty strings at the end of a segment list never reach the result. */
  lemma {:induction false} KeepNonBlankIgnoresTrailingEmpty(parts: seq<string>)
    ensures KeepNonBlank(DropTrailingEmpty(parts)) == KeepNonBlank(parts)
  {
    if |parts| > 0 && parts[|parts| - 1] == "" {
      KeepNonBlankIgnoresTrailingEmpty(parts[..|parts| - 1]);
    }
  }

  /**
   * What `getBasePackages` answers for a properties map: nothing when the key
   * is absent, otherwise the non-blank segments of the trimmed value split on
   * commas.
   */
  function BasePackages(properties: map<string, string>): (packages: seq<string>)
    ensures BASE_PACKAGES !in properties ==> packages == []
  {
    if BASE_PACKAGES in properties then KeepNonBlank(Split(Trim(properties[BASE_PACKAGES]), ','))
    else []
  }

  /** Every package is non-blank and free of commas; an absent key gives none. */
  lemma BasePackagesWellFormed(properties: map<string, string>)
    ensures BASE_PACKAGES !in properties ==> BasePackages(properties) == []
    ensures forall i :: 0 <= i < |BasePackages(properties)| ==>
      Trim(BasePackages(properties)[i]) != [] && ',' !in BasePackages(properties)[i]
  {
    var packages := BasePackages(properties);
    if BASE_PACKAGES in properties {
      var segments := Split(Trim(properties[BASE_PACKAGES]), ',');
      KeepNonBlankMembers(segments);
      SplitSegments(Trim(properties[BASE_PACKAGES]), ',');
      forall i | 0 <= i < |packages| ensures Trim(packages[i]) != [] && ',' !in packages[i] {
        assert packages[i] in packages;
        TrimShape(packages[i]);
        assert packages[i] in segments;
        var k :| 0 <= k < |segments| && segments[k] == packages[i];
      }
    }
  }

  /**
   * The packages are, in order, the segments of the trimmed value whose trim
   * is non-empty; dropping trailing empty segments (as `split` does) changes
   * nothing, so there are at most one more than the commas.
   */
  lemma BasePackagesFromSegments(properties: map<string, string>)
    requires BASE_PACKAGES in properties
    ensures var value := properties[BASE_PACKAGES];
      var packages := BasePackages(properties);
      && IsSubsequence(packages, Split(Trim(value), ','))
      && packages == KeepNonBlank(SplitAll(Trim(value), ','))
      && |packages| <= Count(Trim(value), ',') + 1
  {
    var trimmed := Trim(properties[BASE_PACKAGES]);
    KeepNonBlankIsSubsequence(Split(trimmed, ','));
    KeepNonBlankMembers(Split(trimmed, ','));
    SplitSegments(trimmed, ',');
    if ',' !in trimmed {
      SplitAllWithoutSeparator(trimmed, ',');
    } else {
      KeepNonBlankIgnoresTrailingEmpty(SplitAll(trimmed, ','));
    }
  }

  /**
   * The segments are kept as split: `"a, b ,, c"` gives `"a"`, `" b "` and
   * `" c"`, with their spaces.
   */
  lemma BasePackagesKeepSpaces()
    ensures BasePackages(map[BASE_PACKAGES := "a, b ,, c"]) == ["a", " b ", " c"]
  {
    var s := "a, b ,, c";
    var parts := ["a", " b ", "", " c"];
    assert Trim(s) == s by {
      assert TrimStart(s) == s;
      assert TrimEnd(s) == s;
    }
    assert Split(s, ',') == parts by {
      ExampleSegments();
      assert s[1] == ',';
    }
    ExampleKept();
  }

  lemma ExampleKept()
    ensures KeepNonBlank(["a", " b ", "", " c"]) == ["a", " b ", " c"]
  {
    ExampleTrims();
    var s1: seq<string> := ["a"];
    var s2 := s1 + [" b "];
    var s3 := s2 + [""];
    assert KeepNonBlank(s1) == ["a"] by {
      KeepNonBlankAppend([], "a", [], ["a"]);
      assert s1 == [] + ["a"];
    }
    assert KeepNonBlank(s2) == ["a", " b "] by {
      KeepNonBlankAppend(s1, " b ", ["a"], ["a", " b "]);
    }
    assert KeepNonBlank(s3) == ["a", " b "] by {
      KeepNonBlankAppend(s2, "", ["a", " b "], ["a", " b "]);
    }
    assert KeepNonBlank(s3 + [" c"]) == ["a", " b ", " c"] by {
      KeepNonBlankAppend(s3, " c", ["a", " b "], ["a", " b ", " c"]);
    }
    assert s3 + [" c"] == ["a", " b ", "", " c"];
  }

  lemma ExampleTrims()
    ensures !IsBlank("a") && !IsBlank(" b ") && IsBlank("") && !IsBlank(" c")
  {
    assert !IsTrimmable("a"[0]);
    assert !IsTrimmable(" b "[1]);
    assert !IsTrimmable(" c"[1]);
  }

  lemma KeepNonBlankAppend(front: seq<string>, last: string, frontKept: seq<string>, kept: seq<string>)
    requires KeepNonBlank(front) == frontKept
    requires kept == frontKept + (if !IsBlank(last) then [last] else [])
    ensures KeepNonBlank(front + [last]) == kept
  {
    assert (front + [last])[..|front|] == front;
  }

  lemma ExampleSegments()
    ensures SplitAll("a, b ,, c", ',') == ["a", " b ", "", " c"]
  {
    ExampleTailSegments();
    assert ['b'] + " " == "b ";
    assert [['b'] + " "] + [" ", "", " c"][1..] == ["b ", "", " c"];
    SplitAllPrepend('b', " ,, c", [" ", "", " c"], ["b ", "", " c"]);
    assert [' '] + "b " == " b ";
    assert [[' '] + "b "] + ["b ", "", " c"][1..] == [" b ", "", " c"];
    SplitAllPrepend(' ', "b ,, c", ["b ", "", " c"], [" b ", "", " c"]);
    SplitAllPrepend(',', " b ,, c", [" b ", "", " c"], ["", " b ", "", " c"]);
    assert ['a'] + "" == "a";
    assert [['a'] + ""] + ["", " b ", "", " c"][1..] == ["a", " b ", "", " c"];
    SplitAllPrepend('a', ", b ,, c", ["", " b ", "", " c"], ["a", " b ", "", " c"]);
  }

  /** The segments of `" ,, c"`. */
  lemma ExampleTailSegments()
    ensures SplitAll(" ,, c", ',') == [" ", "", " c"]
  {
    assert ['c'] + "" == "c";
    assert [['c'] + ""] + [""][1..] == ["c"];
    SplitAllPrepend('c', "", [""], ["c"]);
    assert [' '] + "c" == " c";
    assert [[' '] + "c"] + ["c"][1..] == [" c"];
    SplitAllPrepend(' ', "c", ["c"], [" c"]);
    SplitAllPrepend(',', " c", [" c"], ["", " c"]);
    SplitAllPrepend(',', ", c", ["", " c"], ["", "", " c"]);
    assert [' '] + "" == " ";
    assert [[' '] + ""] + ["", "", " c"][1..] == [" ", "", " c"];
    SplitAllPrepend(' ', ",, c", ["", "", " c"], [" ", "", " c"]);
  }

  lemma SplitAllPrepend(c: char, rest: string, restParts: seq<string>, parts: seq<string>)
    requires |rest| == 0 ==> restParts == [""]
    requires |rest| > 0 ==> SplitAll(rest, ',') == restParts
    requires |restParts| > 0
    requires parts == if c == ',' then [""] + restParts else [[c] + restParts[0]] + restParts[1..]
    ensures SplitAll([c] + rest, ',') == parts
  {
    assert ([c] + rest)[1..] == rest;
  }

  // ---------------------------------------------------------------------------
  // The configuration source

  class PropertiesRepositoryConfigurationSource {
    /** The very map object handed in; puts made on it later are seen here. */
    const properties: PropertyMap

    constructor (properties: PropertyMap)
      ensures this.properties == properties
      ensures GetSource() == properties && GetProperties() == properties
    {
      this.properties := properties;
    }

    function GetSource(): PropertyMap {
      properties
    }

    function GetProperties(): PropertyMap {
      properties
    }

    /** `getBasePackages`: walks the comma-separated segments and keeps the non-blank ones. */
    method GetBasePackages() returns (basePackages: seq<string>)
      ensures basePackages == BasePackages(properties.entries)
      ensures properties.Get(BASE_PACKAGES) == None ==> basePackages == []
    {
      basePackages := [];
      var str := properties.Get(BASE_PACKAGES);
      if str.Some? {
        var segments := Split(Trim(str.value), ',');
        for i := 0 to |segments|
          invariant basePackages == KeepNonBlank(segments[..i])
        {
          var o := segments[i];
          var packageName := Trim(o);
          ghost var before := basePackages;
          TrimShape(o);
          if packageName != [] {
            basePackages := basePackages + [o];
          }
          assert basePackages == KeepNonBlank(segments[..i + 1]) by {
            assert segments[..i + 1] == segments[..i] + [o];
            KeepNonBlankAppend(segments[..i], o, before, basePackages);
          }
        }
        assert segments[..|segments|] == segments;
      }

    }

    function GetQueryLookupStrategyKey(): Option<QueryLookupKey> {
      Some(CreateIfNotFound)
    }

    function GetRepositoryImplementationPostfix(): Option<string> {
      Some("Impl")
    }

    function GetNamedQueryLocation(): Option<string> {
      Some("")
    }

    function GetRepositoryBaseClassName(): Option<string> {
      None
    }

    function GetRepositoryFactoryBeanClassName(): Option<string> {
      None
    }

    /** `getAttribute`: a present key gives its value, an absent one nothing. */
    function GetAttribute(name: string): (r: Option<string>)
      reads properties
      ensures r.Some? <==> name in properties.entries
      ensures r.Some? ==> r.value == properties.entries[name]
    {
      properties.Get(name)
    }

    predicate UsesExplicitFilters() {
      false
    }
  }

  /** The fixed answers of a source, whatever its properties. */
  lemma FixedAnswers(source: PropertiesRepositoryConfigurationSource)
    ensures source.GetQueryLookupStrategyKey() == Some(CreateIfNotFound)
    ensures source.GetRepositoryImplementationPostfix() == Some("Impl")
    ensures source.GetNamedQueryLocation() == Some("")
    ensures source.GetRepositoryBaseClassName() == None
    ensures source.GetRepositoryFactoryBeanClassName() == None
    ensures !source.UsesExplicitFilters()
  {
  }
}
