/**
 * The few operations of Java's `String` that the configuration code relies on:
 * `toLowerCase` (restricted to ASCII), `trim` and `split` on a one-character
 * separator.
 */
module JavaStrings {

  predicate IsAsciiUpper(c: char) {
    'A' <= c <= 'Z'
  }

  function LowerChar(c: char): (d: char)
    ensures !IsAsciiUpper(d)
  {
    if IsAsciiUpper(c) then (c as int + 32) as char else c
  }

  predicate NoAsciiUpper(s: string) {
    forall i :: 0 <= i < |s| ==> !IsAsciiUpper(s[i])
  }

  /** `String.toLowerCase`, for ASCII letters only. */
  function ToLowerAscii(s: string): (r: string)
    ensures |r| == |s|
    ensures forall i :: 0 <= i < |s| ==> r[i] == LowerChar(s[i])
    ensures NoAsciiUpper(r)
  {
    seq(|s|, i requires 0 <= i < |s| => LowerChar(s[i]))
  }

  /** Lower-casing a string that has no upper-case letter leaves it as it is. */
  lemma LowerOfLower(s: string)
    requires NoAsciiUpper(s)
    ensures ToLowerAscii(s) == s
  {
  }

  // ---------------------------------------------------------------------------
  // trim

  /** `String.trim` removes every character at or below U+0020 from both ends. */
  predicate IsTrimmable(c: char) {
    c <= ' '
  }

  predicate IsBlank(s: string) {
    forall i :: 0 <= i < |s| ==> IsTrimmable(s[i])
  }

  function TrimStart(s: string): string
    decreases |s|
  {
    if |s| > 0 && IsTrimmable(s[0]) then TrimStart(s[1..]) else s
  }

  function TrimEnd(s: string): string
    decreases |s|
  {
    if |s| > 0 && IsTrimmable(s[|s| - 1]) then TrimEnd(s[..|s| - 1]) else s
  }

  /** `String.trim`. */
  function Trim(s: string): string
  {
    TrimEnd(TrimStart(s))
  }

  /** TrimStart drops a blank prefix and stops at the first non-trimmable character. */
  lemma {:induction false} TrimStartDropsBlankPrefix(s: string)
    ensures var r := TrimStart(s);
      && |r| <= |s| && r == s[|s| - |r|..]
      && IsBlank(s[..|s| - |r|])
      && (r == [] || !IsTrimmable(r[0]))
    decreases |s|
  {
    if |s| > 0 && IsTrimmable(s[0]) {
      TrimStartDropsBlankPrefix(s[1..]);
      var r := TrimStart(s[1..]);
      assert s[1..][..|s| - 1 - |r|] == s[1..|s| - |r|];
    }
  }

  /** TrimEnd drops a blank suffix and stops at the last non-trimmable character. */
  lemma {:induction false} TrimEndDropsBlankSuffix(s: string)
    ensures var r := TrimEnd(s);
      && |r| <= |s| && r == s[..|r|]
      && IsBlank(s[|r|..])
      && (r == [] || !IsTrimmable(r[|r| - 1]))
    decreases |s|
  {
    if |s| > 0 && IsTrimmable(s[|s| - 1]) {
      TrimEndDropsBlankSuffix(s[..|s| - 1]);
      var r := TrimEnd(s[..|s| - 1]);
      assert s[..|s| - 1][|r|..] == s[|r|..|s| - 1];
      assert s[|r|..] == s[|r|..|s| - 1] + [s[|s| - 1]];
    }
  }

  /**
   * Trimming leaves a string that neither starts nor ends with a trimmable
   * character, and leaves nothing exactly when the input is blank.
   */
  lemma TrimShape(s: string)
    ensures |Trim(s)| <= |s|
    ensures Trim(s) == [] <==> IsBlank(s)
    ensures Trim(s) == [] || (!IsTrimmable(Trim(s)[0]) && !IsTrimmable(Trim(s)[|Trim(s)| - 1]))
  {
    var t := TrimStart(s);
    var r := TrimEnd(t);
    TrimStartDropsBlankPrefix(s);
    TrimEndDropsBlankSuffix(t);
    assert IsBlank(s) ==> t == [];
    assert r == [] ==> IsBlank(s) by {
      if r == [] {
        assert s == s[..|s| - |t|] + t;
        assert t == t[0..];
      }
    }
    assert r != [] ==> r[0] == t[0];
  }

  // ---------------------------------------------------------------------------
  // split

  function Count(s: string, c: char): nat
  {
    if |s| == 0 then 0 else (if s[0] == c then 1 else 0) + Count(s[1..], c)
  }

  /** The segments of `s` between occurrences of `sep`, empty ones included. */
  function SplitAll(s: string, sep: char): (parts: seq<string>)
    ensures |parts| > 0
    decreases |s|
  {
    if |s| == 0 then [""]
    else
      var rest := SplitAll(s[1..], sep);
      if s[0] == sep then [""] + rest
      else [[s[0]] + rest[0]] + rest[1..]
  }

  /** There is one more segment than there are separators. */
  lemma {:induction false} SplitAllCount(s: string, sep: char)
    ensures |SplitAll(s, sep)| == Count(s, sep) + 1
    decreases |s|
  {
    if |s| > 0 {
      SplitAllCount(s[1..], sep);
    }
  }

  /** No segment contains the separator. */
  lemma {:induction false} SplitAllSegments(s: string, sep: char)
    ensures forall i :: 0 <= i < |SplitAll(s, sep)| ==> sep !in SplitAll(s, sep)[i]
    decreases |s|
  {
    if |s| > 0 {
      var rest := SplitAll(s[1..], sep);
      SplitAllSegments(s[1..], sep);
      if s[0] != sep {
        var parts := SplitAll(s, sep);
        assert parts[0] == [s[0]] + rest[0];
        forall i | 1 <= i < |parts| ensures sep !in parts[i] {
          assert parts[i] == rest[i];
        }
      }
    }
  }

  /** Glues segments back together with `sep` between neighbours. */
  function Join(parts: seq<string>, sep: char): string
    requires |parts| > 0
  {
    if |parts| == 1 then parts[0] else parts[0] + [sep] + Join(parts[1..], sep)
  }

  /** Splitting loses nothing: joining the segments gives the input back. */
  lemma {:induction false} JoinSplitAll(s: string, sep: char)
    ensures Join(SplitAll(s, sep), sep) == s
    decreases |s|
  {
    if |s| > 0 {
      var rest := SplitAll(s[1..], sep);
      JoinSplitAll(s[1..], sep);
      if s[0] != sep {
        var parts := SplitAll(s, sep);
        assert parts[1..] == rest[1..];
        if |rest| > 1 {
          assert Join(rest, sep) == rest[0] + [sep] + Join(rest[1..], sep);
        }
        assert s == [s[0]] + s[1..];
      }
    }
  }

  /** Without a separator in it, a string is its own only segment. */
  lemma {:induction false} SplitAllWithoutSeparator(s: string, sep: char)
    requires sep !in s
    ensures SplitAll(s, sep) == [s]
    decreases |s|
  {
    if |s| > 0 {
      SplitAllWithoutSeparator(s[1..], sep);
      assert s == [s[0]] + s[1..];
    }
  }

  /** Drops the empty strings at the end of `parts`, as `String.split` does. */
  function DropTrailingEmpty(parts: seq<string>): (r: seq<string>)
    ensures |r| <= |parts|
  {
    if |parts| > 0 && parts[|parts| - 1] == "" then DropTrailingEmpty(parts[..|parts| - 1])
    else parts
  }

  /**
   * What is kept is a prefix, everything dropped is empty, and the last
   * segment kept is not.
   */
  lemma {:induction false} DropTrailingEmptyShape(parts: seq<string>)
    ensures var r := DropTrailingEmpty(parts);
      && r == parts[..|r|]
      && (forall i :: |r| <= i < |parts| ==> parts[i] == "")
      && (r == [] || r[|r| - 1] != "")
  {
    if |parts| > 0 && parts[|parts| - 1] == "" {
      var front := parts[..|parts| - 1];
      DropTrailingEmptyShape(front);
      var r := DropTrailingEmpty(front);
      assert front[..|r|] == parts[..|r|];
    }
  }

  /**
   * `String.split` with a one-character pattern and no limit: a string without
   * the separator comes back whole (so `""` gives `[""]`); otherwise the
   * segments, minus the empty ones at the end.
   */
  function Split(s: string, sep: char): (parts: seq<string>)
  {
    if sep !in s then [s] else DropTrailingEmpty(SplitAll(s, sep))
  }

  /** At most one segment more than separators, and none holds the separator. */
  lemma SplitSegments(s: string, sep: char)
    ensures |Split(s, sep)| <= Count(s, sep) + 1
    ensures forall i :: 0 <= i < |Split(s, sep)| ==> sep !in Split(s, sep)[i]
  {
    if sep in s {
      SplitAllCount(s, sep);
      SplitAllSegments(s, sep);
      DropTrailingEmptyShape(SplitAll(s, sep));
      var parts := SplitAll(s, sep);
      var r := DropTrailingEmpty(parts);
      forall i | 0 <= i < |r| ensures sep !in r[i] {
        assert r[i] == parts[i];
      }
    }
  }
}
