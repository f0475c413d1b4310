/**
  * The string operations of the Java runtime and of Apache Commons Lang that the
  * crawler relies on: `String.split` with a one-character pattern, `String.split`
  * with the pattern "\\s+", and `StringUtils.join`.
  *
  * Java's split first cuts the string at every match (keeping empty pieces), then
  * drops the empty pieces at the end; when the pattern does not occur at all the
  * result is the whole string as a single piece. Both steps are modelled separately
  * so that the lemmas can talk about each of them.
  */
module Text {

  /** The pieces of `s` between the occurrences of `sep`, empty pieces included. */
  function Fields(s: string, sep: char): (r: seq<string>)
    ensures |r| == multiset(s)[sep] + 1
    ensures forall i :: 0 <= i < |r| ==> sep !in r[i]
  {
    if s == [] then [""]
    else
      var rest := Fields(s[1..], sep);
      assert s == [s[0]] + s[1..];
      if s[0] == sep then [""] + rest
      else [[s[0]] + rest[0]] + rest[1..]
  }

  /** `StringUtils.join(parts, sep)`: the parts with one `sep` between neighbours. */
  function Join(parts: seq<string>, sep: char): string
  {
    if |parts| == 0 then ""
    else if |parts| == 1 then parts[0]
    else parts[0] + [sep] + Join(parts[1..], sep)
  }

  /** Cutting a string that starts with a separator-free prefix glues that prefix to the first piece. */
  lemma {:induction false} FieldsOfPrefix(p: string, t: string, sep: char)
    requires sep !in p
    ensures Fields(p + t, sep) == [p + Fields(t, sep)[0]] + Fields(t, sep)[1..]
  {
    if p == [] {
      assert p + t == t;
      var f := Fields(t, sep);
      assert p + f[0] == f[0];
      assert f == [f[0]] + f[1..];
    } else {
      assert (p + t)[1..] == p[1..] + t;
      FieldsOfPrefix(p[1..], t, sep);
      assert [p[0]] + (p[1..] + Fields(t, sep)[0]) == p + Fields(t, sep)[0];
    }
  }

  /** Joining separator-free parts and cutting the result again gives the parts back. */
  lemma {:induction false} FieldsOfJoin(parts: seq<string>, sep: char)
    requires |parts| >= 1
    requires forall i :: 0 <= i < |parts| ==> sep !in parts[i]
    ensures Fields(Join(parts, sep), sep) == parts
  {
    if |parts| == 1 {
      FieldsOfPrefix(parts[0], "", sep);
      assert Fields("", sep) == [""];
      assert parts[0] + "" == parts[0];
    } else {
      var rest := Join(parts[1..], sep);
      FieldsOfJoin(parts[1..], sep);
      FieldsOfPrefix(parts[0], [sep] + rest, sep);
      assert ([sep] + rest)[1..] == rest;
      assert Fields([sep] + rest, sep) == [""] + Fields(rest, sep);
      assert parts[0] + "" == parts[0];
      assert parts[0] + [sep] + rest == parts[0] + ([sep] + rest);
      assert parts == [parts[0]] + parts[1..];
    }
  }

  /** Cutting a string and joining the pieces with the same separator gives the string back. */
  lemma {:induction false} JoinOfFields(s: string, sep: char)
    ensures Join(Fields(s, sep), sep) == s
  {
    if s != [] {
      var rest := Fields(s[1..], sep);
      JoinOfFields(s[1..], sep);
      assert s == [s[0]] + s[1..];
      if s[0] == sep {
        JoinAfterEmpty(rest, sep);
      } else {
        JoinGlue(s[0], rest, sep);
      }
    }
  }

  /** Joining a first part in front of at least one more part puts one separator after it. */
  lemma JoinCons(w: string, rest: seq<string>, sep: char)
    requires |rest| >= 1
    ensures Join([w] + rest, sep) == w + [sep] + Join(rest, sep)
  {
    assert ([w] + rest)[1..] == rest;
  }

  /** `JoinCons` for an empty first part: the join starts with the separator. */
  lemma JoinAfterEmpty(rest: seq<string>, sep: char)
    requires |rest| >= 1
    ensures Join([""] + rest, sep) == [sep] + Join(rest, sep)
  {
    JoinCons("", rest, sep);
    assert "" + [sep] == [sep];
  }

  lemma JoinGlue(c: char, rest: seq<string>, sep: char)
    requires |rest| >= 1
    ensures Join([[c] + rest[0]] + rest[1..], sep) == [c] + Join(rest, sep)
  {
    var r := [[c] + rest[0]] + rest[1..];
    assert r[1..] == rest[1..];
    if |rest| > 1 {
      assert Join(rest, sep) == rest[0] + [sep] + Join(rest[1..], sep);
    }
  }

  /** A character that is neither the separator nor in any part does not occur in the join. */
  lemma {:induction false} JoinAvoids(parts: seq<string>, sep: char, c: char)
    requires c != sep
    requires forall i :: 0 <= i < |parts| ==> c !in parts[i]
    ensures c !in Join(parts, sep)
  {
    if |parts| > 1 {
      JoinAvoids(parts[1..], sep, c);
    }
  }

  /** The longest prefix of `parts` that does not end in an empty string. */
  function DropTrailingEmpty(parts: seq<string>): (r: seq<string>)
    ensures r <= parts
    ensures r == [] || r[|r| - 1] != ""
    ensures forall i :: |r| <= i < |parts| ==> parts[i] == ""
  {
    if parts == [] || parts[|parts| - 1] != "" then parts
    else DropTrailingEmpty(parts[..|parts| - 1])
  }

  /** `s.split(p)` where the pattern `p` matches exactly the one character `sep`. */
  function JavaSplit(s: string, sep: char): (r: seq<string>)
    ensures forall i :: 0 <= i < |r| ==> sep !in r[i]
  {
    if sep !in s then [s] else DropTrailingEmpty(Fields(s, sep))
  }

  /** Splitting a join of two or more separator-free parts gives the parts less their empty tail. */
  lemma JavaSplitOfJoin(parts: seq<string>, sep: char)
    requires |parts| >= 2
    requires forall i :: 0 <= i < |parts| ==> sep !in parts[i]
    ensures JavaSplit(Join(parts, sep), sep) == DropTrailingEmpty(parts)
  {
    FieldsOfJoin(parts, sep);
    assert sep in Join(parts, sep) by {
      assert Join(parts, sep) == parts[0] + [sep] + Join(parts[1..], sep);
      assert Join(parts, sep)[|parts[0]|] == sep;
    }
  }

  /** Joining with one more part at the end appends the separator and that part. */
  lemma {:induction false} JoinSnoc(parts: seq<string>, x: string, sep: char)
    requires |parts| >= 1
    ensures Join(parts + [x], sep) == Join(parts, sep) + [sep] + x
    decreases |parts|
  {
    if |parts| > 1 {
      assert (parts + [x])[1..] == parts[1..] + [x];
      JoinSnoc(parts[1..], x, sep);
    }
  }

  /** Dropping trailing empty parts only shortens the join by a run of separators at its end. */
  lemma {:induction false} JoinDropTrailingEmpty(parts: seq<string>, sep: char)
    ensures var kept := Join(DropTrailingEmpty(parts), sep);
      var whole := Join(parts, sep);
      kept <= whole && forall i :: |kept| <= i < |whole| ==> whole[i] == sep
    decreases |parts|
  {
    if parts != [] && parts[|parts| - 1] == "" {
      var init := parts[..|parts| - 1];
      assert parts == init + [""];
      JoinDropTrailingEmpty(init, sep);
      if init != [] {
        JoinSnoc(init, "", sep);
        assert Join(parts, sep) == Join(init, sep) + [sep];
      }
    }
  }

  /** Java's split loses nothing but separators at the end of the string: joining its pieces
      gives a prefix of the string, and only separators follow that prefix. */
  lemma JavaSplitLosesOnlyTrailingSeparators(s: string, sep: char)
    ensures var kept := Join(JavaSplit(s, sep), sep);
      kept <= s && forall i :: |kept| <= i < |s| ==> s[i] == sep
  {
    if sep in s {
      JoinOfFields(s, sep);
      JoinDropTrailingEmpty(Fields(s, sep), sep);
    }
  }

  /** The regular-expression class `\s` of java.util.regex: [ \t\n\x0B\f\r]. */
  predicate IsRegexSpace(c: char)
  {
    c == ' ' || c == '\t' || c == '\n' || c == '\U{000B}' || c == '\U{000C}' || c == '\r'
  }

  /** `s` without its leading run of `\s` characters. */
  function TrimLeadingSpace(s: string): (r: string)
    ensures |r| <= |s| && r == s[|s| - |r|..]
    ensures r == [] || !IsRegexSpace(r[0])
    ensures forall i :: 0 <= i < |s| - |r| ==> IsRegexSpace(s[i])
  {
    if s != [] && IsRegexSpace(s[0]) then TrimLeadingSpace(s[1..]) else s
  }

  /** The pieces of `s` between maximal runs of `\s` characters, empty pieces included. */
  function SpaceRuns(s: string): (r: seq<string>)
    ensures |r| >= 1
    ensures forall i, j :: 0 <= i < |r| && 0 <= j < |r[i]| ==> !IsRegexSpace(r[i][j]) && r[i][j] in s
    decreases |s|
  {
    if s == [] then [""]
    else if IsRegexSpace(s[0]) then
      var t := TrimLeadingSpace(s[1..]);
      assert forall c :: c in t ==> c in s;
      [""] + SpaceRuns(t)
    else
      var rest := SpaceRuns(s[1..]);
      [[s[0]] + rest[0]] + rest[1..]
  }

  /** `s.split("\\s+")`. */
  function SplitOnSpaceRuns(s: string): (r: seq<string>)
    ensures forall i, j :: 0 <= i < |r| && 0 <= j < |r[i]| ==> !IsRegexSpace(r[i][j]) && r[i][j] in s
  {
    if forall i :: 0 <= i < |s| ==> !IsRegexSpace(s[i]) then [s]
    else DropTrailingEmpty(SpaceRuns(s))
  }

  /** `w` holds no `\s` character. */
  predicate SpaceFree(w: string)
  {
    forall j :: 0 <= j < |w| ==> !IsRegexSpace(w[j])
  }

  /** A string that starts with a `\s`-free prefix has that prefix glued to its first run. */
  lemma {:induction false} SpaceRunsOfPrefix(p: string, t: string)
    requires SpaceFree(p)
    ensures SpaceRuns(p + t) == [p + SpaceRuns(t)[0]] + SpaceRuns(t)[1..]
    decreases |p|
  {
    if p == [] {
      assert p + t == t;
      assert p + SpaceRuns(t)[0] == SpaceRuns(t)[0];
      assert SpaceRuns(t) == [SpaceRuns(t)[0]] + SpaceRuns(t)[1..];
    } else {
      assert (p + t)[1..] == p[1..] + t;
      SpaceRunsOfPrefix(p[1..], t);
      assert [p[0]] + (p[1..] + SpaceRuns(t)[0]) == p + SpaceRuns(t)[0];
    }
  }

  /** A `\s` character in front of a string that does not start with `\s` opens an empty run. */
  lemma SpaceRunsAfterSeparator(sep: char, rest: string)
    requires IsRegexSpace(sep)
    requires rest == [] || !IsRegexSpace(rest[0])
    ensures SpaceRuns([sep] + rest) == [""] + SpaceRuns(rest)
  {
    assert ([sep] + rest)[1..] == rest;
    assert TrimLeadingSpace(rest) == rest;
  }

  /** A join whose first part is non-empty starts with that part's first character. */
  lemma JoinStartsWithFirstPart(parts: seq<string>, sep: char)
    requires |parts| >= 1 && parts[0] != ""
    ensures Join(parts, sep) != [] && Join(parts, sep)[0] == parts[0][0]
  {
    if |parts| > 1 {
      JoinCons(parts[0], parts[1..], sep);
      assert parts == [parts[0]] + parts[1..];
    }
  }

  /** Words free of `\s`, joined by one `\s` character, come back as the same words from
      `SpaceRuns`, provided no word but the first and the last is empty (two separators in
      a row would form one run). */
  lemma {:induction false} SpaceRunsOfJoin(parts: seq<string>, sep: char)
    requires IsRegexSpace(sep)
    requires |parts| >= 1
    requires forall i :: 0 <= i < |parts| ==> SpaceFree(parts[i])
    requires forall i :: 0 < i < |parts| - 1 ==> parts[i] != ""
    ensures SpaceRuns(Join(parts, sep)) == parts
    decreases |parts|
  {
    if |parts| == 1 {
      SpaceRunsOfPrefix(parts[0], "");
      assert parts[0] + "" == parts[0];
    } else {
      SpaceRunsOfJoin(parts[1..], sep);
      SpaceRunsOfJoinStep(parts[0], parts[1..], sep);
      assert parts == [parts[0]] + parts[1..];
    }
  }

  /** The step of `SpaceRunsOfJoin`: one more word in front of a join whose runs are known. */
  lemma SpaceRunsOfJoinStep(first: string, tail: seq<string>, sep: char)
    requires IsRegexSpace(sep) && SpaceFree(first) && |tail| >= 1
    requires SpaceFree(tail[0]) && (tail[0] != "" || |tail| == 1)
    requires SpaceRuns(Join(tail, sep)) == tail
    ensures SpaceRuns(Join([first] + tail, sep)) == [first] + tail
  {
    var rest := Join(tail, sep);
    var spaced := [sep] + rest;
    assert SpaceRuns(spaced) == [""] + tail by {
      if tail[0] != "" {
        JoinStartsWithFirstPart(tail, sep);
      }
      SpaceRunsAfterSeparator(sep, rest);
    }
    assert Join([first] + tail, sep) == first + spaced by {
      JoinCons(first, tail, sep);
    }
    SpaceRunsOfPrefix(first, spaced);
    assert first + "" == first;
  }

  /** `split("\\s+")` of such a join of two or more words gives the words less the empty
      ones at the end. */
  lemma SplitOnSpaceRunsOfJoin(parts: seq<string>, sep: char)
    requires IsRegexSpace(sep)
    requires |parts| >= 2
    requires forall i :: 0 <= i < |parts| ==> SpaceFree(parts[i])
    requires forall i :: 0 < i < |parts| - 1 ==> parts[i] != ""
    ensures SplitOnSpaceRuns(Join(parts, sep)) == DropTrailingEmpty(parts)
  {
    SpaceRunsOfJoin(parts, sep);
    JoinCons(parts[0], parts[1..], sep);
    assert parts == [parts[0]] + parts[1..];
    assert Join(parts, sep)[|parts[0]|] == sep;
  }

  /** Reference definition: `s` with every maximal run of `\s` characters replaced by one
      space. */
  function CollapseSpaces(s: string): (r: string)
    ensures forall i :: 0 <= i < |r| ==> r[i] == ' ' || (!IsRegexSpace(r[i]) && r[i] in s)
    ensures s != [] && !IsRegexSpace(s[0]) ==> r != [] && r[0] == s[0]
    ensures forall i :: 0 <= i < |r| - 1 ==> !(r[i] == ' ' && r[i + 1] == ' ')
    decreases |s|
  {
    if s == [] then []
    else if IsRegexSpace(s[0]) then
      var t := TrimLeadingSpace(s[1..]);
      assert forall c :: c in t ==> c in s;
      " " + CollapseSpaces(t)
    else
      assert forall c :: c in s[1..] ==> c in s;
      [s[0]] + CollapseSpaces(s[1..])
  }

  /** The runs of `s`, joined by single spaces, are `s` with its `\s` runs collapsed. */
  lemma {:induction false} JoinOfSpaceRuns(s: string)
    ensures Join(SpaceRuns(s), ' ') == CollapseSpaces(s)
    decreases |s|
  {
    if s != [] {
      if IsRegexSpace(s[0]) {
        var t := TrimLeadingSpace(s[1..]);
        JoinOfSpaceRuns(t);
        JoinAfterEmpty(SpaceRuns(t), ' ');
      } else {
        JoinOfSpaceRuns(s[1..]);
        JoinGlue(s[0], SpaceRuns(s[1..]), ' ');
      }
    }
  }

  /** What `split("\\s+")` keeps: its pieces joined by single spaces are the text with every
      `\s` run collapsed to one space, less at most the space at its end. */
  lemma SplitOnSpaceRunsKeepsWords(s: string)
    ensures var kept := Join(SplitOnSpaceRuns(s), ' ');
      var collapsed := CollapseSpaces(s);
      kept <= collapsed && forall i :: |kept| <= i < |collapsed| ==> collapsed[i] == ' '
  {
    JoinOfSpaceRuns(s);
    if forall i :: 0 <= i < |s| ==> !IsRegexSpace(s[i]) {
      SpaceRunsOfJoin([s], ' ');
    } else {
      JoinDropTrailingEmpty(SpaceRuns(s), ' ');
    }
  }

  /** A non-empty string made of `\s` characters only splits into no pieces at all. */
  lemma AllSpaceSplitsToNothing(s: string)
    requires s != []
    requires forall i :: 0 <= i < |s| ==> IsRegexSpace(s[i])
    ensures SplitOnSpaceRuns(s) == []
  {
    var t := TrimLeadingSpace(s[1..]);
    assert t == [];
    assert SpaceRuns(s) == ["", ""];
    assert DropTrailingEmpty([""]) == [];
  }
}
