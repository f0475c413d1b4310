/**
  * The crawler task run inside every container: it reads a tab-separated file line
  * by line, copies the header line, and for every data line whose URL column is set
  * fetches the page, ranks the words of its text by frequency and writes the line
  * again with the ten most frequent words in the keywords column.
  *
  * The page fetch (HTTP, HTML parsing, script removal) is the oracle `fetch`: it
  * maps a URL to the text of the page body, or to None when the request fails.
  * Reading and writing the files is replaced by a sequence of input lines and a
  * sequence of output lines.
  */
module Crawler {
  import opened Wrappers
  import Text

  const TOP_KEYWORDS_AMOUNT: nat := 10
  const COLUMN_AMOUNT: nat := 6
  const URL_INDEX: nat := 5
  const KEYWORDS_INDEX: nat := 1
  const TAB: char := '\t'
  const COMMA: char := ','

  // ---------------------------------------------------------------------------
  // Columns

  /** `splitLineIntoColumnValues`: `line.split("\\t")`. */
  function SplitLineIntoColumnValues(line: string): seq<string>
  {
    Text.JavaSplit(line, TAB)
  }

  /** A line built from six tab-free columns, the last one non-empty, splits back into them. */
  lemma SixColumnsSplitBack(columns: seq<string>)
    requires |columns| == COLUMN_AMOUNT
    requires forall i :: 0 <= i < |columns| ==> TAB !in columns[i]
    requires columns[COLUMN_AMOUNT - 1] != ""
    ensures SplitLineIntoColumnValues(Text.Join(columns, TAB)) == columns
  {
    Text.JavaSplitOfJoin(columns, TAB);
  }

  /** Splitting a line into columns loses only the tabs at its end: the columns joined by
      tabs are a prefix of the line, and only tabs follow that prefix. */
  lemma ColumnsRejoinToLine(line: string)
    ensures forall i :: 0 <= i < |SplitLineIntoColumnValues(line)| ==> TAB !in SplitLineIntoColumnValues(line)[i]
    ensures var kept := Text.Join(SplitLineIntoColumnValues(line), TAB);
      kept <= line && forall i :: |kept| <= i < |line| ==> line[i] == TAB
  {
    Text.JavaSplitLosesOnlyTrailingSeparators(line, TAB);
  }

  /** Java drops trailing empty strings, so six columns whose last one is empty do not parse. */
  lemma EmptyLastColumnIsSkipped(columns: seq<string>, fetch: string -> Option<string>)
    requires |columns| == COLUMN_AMOUNT
    requires forall i :: 0 <= i < |columns| ==> TAB !in columns[i]
    requires columns[COLUMN_AMOUNT - 1] == ""
    ensures |SplitLineIntoColumnValues(Text.Join(columns, TAB))| < COLUMN_AMOUNT
    ensures !Accepted(Text.Join(columns, TAB), fetch)
  {
    Text.JavaSplitOfJoin(columns, TAB);
  }

  /** `Character.isWhitespace` of Java 7 and 8 (Unicode 6): the Unicode space separators
      other than the no-break spaces, among them U+180E, the line and paragraph separators,
      and U+0009..U+000D, U+001C..U+001F. */
  predicate IsJavaWhitespace(c: char)
  {
    || c == ' '
    || ('\t' <= c <= '\r')
    || ('\U{001C}' <= c <= '\U{001F}')
    || c == '\U{1680}' || c == '\U{180E}'
    || ('\U{2000}' <= c <= '\U{2006}')
    || ('\U{2008}' <= c <= '\U{200A}')
    || c == '\U{2028}' || c == '\U{2029}' || c == '\U{205F}' || c == '\U{3000}'
  }

  /** `StringUtils.isBlank`: empty or whitespace only. */
  predicate IsBlank(s: string)
  {
    forall i :: 0 <= i < |s| ==> IsJavaWhitespace(s[i])
  }

  // ---------------------------------------------------------------------------
  // Keywords of a page

  predicate IsAsciiLetter(c: char)
  {
    'a' <= c <= 'z' || 'A' <= c <= 'Z'
  }

  /** `replaceAll("[^a-zA-Z]", " ")`. */
  function ReplaceNonLetters(text: string): string
  {
    seq(|text|, i requires 0 <= i < |text| => if IsAsciiLetter(text[i]) then text[i] else ' ')
  }

  /** `toLowerCase()`, restricted to the ASCII letters, the only letters left at this point. */
  function LowerCase(text: string): string
  {
    seq(|text|, i requires 0 <= i < |text| =>
      if 'A' <= text[i] <= 'Z' then (text[i] as int - 'A' as int + 'a' as int) as char else text[i])
  }

  /** `replaceAll("\\s[a-z]\\s", " ")`: matches are found left to right and do not overlap,
      so the space that closes one match cannot open the next one. */
  function RemoveSingleLetters(text: string): (r: string)
    ensures forall i :: 0 <= i < |r| ==> r[i] == ' ' || r[i] in text
  {
    if |text| >= 3 && Text.IsRegexSpace(text[0]) && 'a' <= text[1] <= 'z' && Text.IsRegexSpace(text[2]) then
      assert forall c :: c in text[3..] ==> c in text;
      " " + RemoveSingleLetters(text[3..])
    else if text == [] then []
    else
      assert forall c :: c in text[1..] ==> c in text;
      [text[0]] + RemoveSingleLetters(text[1..])
  }

  /** A character that is not `\s` at the start of the text is never part of a match, so it
      starts the result. */
  lemma LeadingNonSpaceSurvives(text: string)
    requires text != [] && !Text.IsRegexSpace(text[0])
    ensures RemoveSingleLetters(text) != [] && RemoveSingleLetters(text)[0] == text[0]
  {
  }

  /** A character that is not `\s` at the end of the text is never part of a match either,
      since every match ends in `\s`: it ends the result. */
  lemma {:induction false} TrailingNonSpaceSurvives(text: string)
    requires text != [] && !Text.IsRegexSpace(text[|text| - 1])
    ensures var r := RemoveSingleLetters(text);
      r != [] && r[|r| - 1] == text[|text| - 1]
    decreases |text|
  {
    if |text| >= 3 && Text.IsRegexSpace(text[0]) && 'a' <= text[1] <= 'z' && Text.IsRegexSpace(text[2]) {
      assert text[3..] != [];
      TrailingNonSpaceSurvives(text[3..]);
    } else if |text| > 1 {
      TrailingNonSpaceSurvives(text[1..]);
    }
  }

  /** The clean-up expression before the final split: only spaces and lower-case letters remain. */
  function CleanText(text: string): (r: string)
    ensures forall i :: 0 <= i < |r| ==> r[i] == ' ' || 'a' <= r[i] <= 'z'
  {
    var lower := LowerCase(ReplaceNonLetters(text));
    assert forall c :: c in lower ==> c == ' ' || 'a' <= c <= 'z';
    RemoveSingleLetters(lower)
  }

  /** `getKeywordsFromPage`, with the page text supplied by the fetch oracle. */
  function KeywordsFromPage(page: Option<string>): (keywords: seq<string>)
    ensures page.None? ==> keywords == []
    ensures forall i, j :: 0 <= i < |keywords| && 0 <= j < |keywords[i]| ==> 'a' <= keywords[i][j] <= 'z'
  {
    match page
    case None => []
    case Some(text) =>
      var cleaned := CleanText(text);
      var words := Text.SplitOnSpaceRuns(cleaned);
      assert forall i, j :: 0 <= i < |words| && 0 <= j < |words[i]| ==> words[i][j] in cleaned;
      words
  }

  /** The keywords are the words of the cleaned text, in order: joined by single spaces they
      give the cleaned text with its whitespace runs collapsed, less at most a final space. */
  lemma KeywordsAreWordsOfCleanText(text: string)
    ensures var kept := Text.Join(KeywordsFromPage(Some(text)), ' ');
      var collapsed := Text.CollapseSpaces(CleanText(text));
      kept <= collapsed && forall i :: |kept| <= i < |collapsed| ==> collapsed[i] == ' '
  {
    Text.SplitOnSpaceRunsKeepsWords(CleanText(text));
  }

  /** A page whose text is non-empty but holds no ASCII letter yields no keyword at all,
      while an empty page text yields the one empty keyword. */
  lemma PagesWithoutLetters(text: string)
    requires forall i :: 0 <= i < |text| ==> !IsAsciiLetter(text[i])
    ensures text != [] ==> KeywordsFromPage(Some(text)) == []
    ensures text == [] ==> KeywordsFromPage(Some(text)) == [""]
  {
    var lower := LowerCase(ReplaceNonLetters(text));
    assert forall i :: 0 <= i < |lower| ==> lower[i] == ' ';
    if text != [] {
      SpacesOnlyStaySpaces(lower);
      Text.AllSpaceSplitsToNothing(CleanText(text));
    }
  }

  lemma {:induction false} SpacesOnlyStaySpaces(s: string)
    requires forall i :: 0 <= i < |s| ==> s[i] == ' '
    ensures |RemoveSingleLetters(s)| == |s|
    ensures forall i :: 0 <= i < |s| ==> RemoveSingleLetters(s)[i] == ' '
  {
    if s != [] {
      SpacesOnlyStaySpaces(s[1..]);
    }
  }

  /** One-letter words at either end of the text survive the clean-up. */
  lemma EdgeSingleLettersSurvive()
    ensures KeywordsFromPage(Some("a b c")) == ["a", "c"]
  {
    assert CleanText("a b c") == "a c" by {
      assert ReplaceNonLetters("a b c") == "a b c";
      assert LowerCase("a b c") == "a b c";
      KeepsEdgeLetters();
    }
    SplitsAroundSpace();
  }

  lemma KeepsEdgeLetters()
    ensures RemoveSingleLetters("a b c") == "a c"
  {
    assert RemoveSingleLetters("c") == "c";
    assert RemoveSingleLetters(" b c") == " c";
  }

  lemma SplitsAroundSpace()
    ensures Text.SplitOnSpaceRuns("a c") == ["a", "c"]
  {
    assert "a c"[1..] == " c" && " c"[1..] == "c" && "c"[1..] == "";
    assert Text.SpaceRuns("") == [""];
    assert !Text.IsRegexSpace('c') && ['c'] + "" == "c";
    assert Text.SpaceRuns("c") == [['c'] + Text.SpaceRuns("")[0]] + Text.SpaceRuns("")[1..];
    assert Text.SpaceRuns("c") == ["c"];
    assert Text.TrimLeadingSpace("c") == "c";
    assert Text.SpaceRuns(" c") == ["", "c"];
    assert !Text.IsRegexSpace('a') && ['a'] + "" == "a";
    assert Text.SpaceRuns("a c") == [['a'] + Text.SpaceRuns(" c")[0]] + Text.SpaceRuns(" c")[1..];
    assert Text.SpaceRuns("a c") == ["a", "c"];
    assert Text.SplitOnSpaceRuns("a c") == ["a", "c"];
  }

  /** A one-letter word right after a removed one-letter word survives the clean-up, and a
      leading space gives an empty first keyword. */
  lemma SingleLetterAfterRemovedOneSurvives()
    ensures KeywordsFromPage(Some(" x y z ")) == ["", "y"]
  {
    assert CleanText(" x y z ") == " y " by {
      assert ReplaceNonLetters(" x y z ") == " x y z ";
      assert LowerCase(" x y z ") == " x y z ";
      SkipsSecondLetter();
    }
    SplitsAroundY();
  }

  lemma SkipsSecondLetter()
    ensures RemoveSingleLetters(" x y z ") == " y "
  {
    assert " x y z "[3..] == "y z ";
    assert "y z "[1..] == " z ";
    assert " z "[3..] == "";
    assert RemoveSingleLetters(" z ") == " ";
    assert RemoveSingleLetters("y z ") == "y ";
  }

  lemma SplitsAroundY()
    ensures Text.SplitOnSpaceRuns(" y ") == ["", "y"]
  {
    assert " y "[1..] == "y " && "y "[1..] == " " && " "[1..] == "";
    assert Text.TrimLeadingSpace("") == "";
    assert Text.SpaceRuns("") == [""];
    assert Text.SpaceRuns(" ") == ["", ""];
    assert Text.TrimLeadingSpace("y ") == "y ";
    assert !Text.IsRegexSpace('y') && ['y'] + "" == "y";
    assert Text.SpaceRuns("y ") == [['y'] + Text.SpaceRuns(" ")[0]] + Text.SpaceRuns(" ")[1..];
    assert Text.SpaceRuns("y ") == ["y", ""];
    assert Text.SpaceRuns(" y ") == ["", "y", ""];
    assert Text.DropTrailingEmpty(["", "y", ""]) == ["", "y"];
  }

  // ---------------------------------------------------------------------------
  // Ranking keywords by frequency

  /** One entry of the keyword-to-count map. */
  datatype Entry = Entry(key: string, count: nat)

  function Keys(entries: seq<Entry>): seq<string>
  {
    seq(|entries|, i requires 0 <= i < |entries| => entries[i].key)
  }

  predicate DistinctKeys(entries: seq<Entry>)
  {
    forall i, j :: 0 <= i < j < |entries| ==> entries[i].key != entries[j].key
  }

  predicate SortedByCount(entries: seq<Entry>)
  {
    forall i, j :: 0 <= i < j < |entries| ==> entries[i].count >= entries[j].count
  }

  /** Every entry pairs a keyword with its number of occurrences in `keywords`. */
  predicate CountsOf(keywords: seq<string>, entries: seq<Entry>)
  {
    forall i :: 0 <= i < |entries| ==>
      entries[i].key in keywords && entries[i].count == multiset(keywords)[entries[i].key]
  }

  /** Each distinct keyword exactly once, with its count, most frequent first. */
  predicate IsFrequencyRanking(keywords: seq<string>, entries: seq<Entry>)
  {
    && CountsOf(keywords, entries)
    && (forall w :: w in keywords ==> w in Keys(entries))
    && DistinctKeys(entries)
    && SortedByCount(entries)
  }

  /** `sortKeywordsByFequency`. The entries leave the hash map in an order the source does
      not fix (chosen here by `:|`), and the stable sort keeps that order among equal counts. */
  method SortKeywordsByFrequency(keywords: seq<string>) returns (entries: seq<Entry>)
    ensures IsFrequencyRanking(keywords, entries)
  {
    var keywordsSet := set w | w in keywords;
    var keywordToCount: map<string, nat> := map[];
    var rest := keywordsSet;
    while rest != {}
      invariant rest <= keywordsSet
      invariant keywordToCount.Keys == keywordsSet - rest
      invariant forall w :: w in keywordToCount ==> keywordToCount[w] == multiset(keywords)[w]
      decreases rest
    {
      var keyword :| keyword in rest;
      keywordToCount := keywordToCount[keyword := multiset(keywords)[keyword]];
      rest := rest - {keyword};
    }

    var entryList: seq<Entry> := [];
    var pending := keywordToCount.Keys;
    while pending != {}
      invariant pending <= keywordToCount.Keys
      invariant forall i :: 0 <= i < |entryList| ==>
        entryList[i].key in keywordToCount && entryList[i].key !in pending &&
        entryList[i].count == keywordToCount[entryList[i].key]
      invariant forall w :: w in keywordToCount && w !in pending ==> w in Keys(entryList)
      invariant DistinctKeys(entryList)
      decreases pending
    {
      var key :| key in pending;
      assert Keys(entryList + [Entry(key, keywordToCount[key])]) == Keys(entryList) + [key];
      entryList := entryList + [Entry(key, keywordToCount[key])];
      pending := pending - {key};
    }

    var a := new Entry[|entryList|](i requires 0 <= i < |entryList| => entryList[i]);
    assert a[..] == entryList;
    SortByCountDescending(a);
    entries := a[..];
    RankingOfPermutation(keywords, entryList, entries);
  }

  /** `Collections.sort` with the comparator "larger count first", done in place. */
  method SortByCountDescending(a: array<Entry>)
    modifies a
    ensures SortedByCount(a[..])
    ensures multiset(a[..]) == multiset(old(a[..]))
  {
    var i := 0;
    while i < a.Length
      invariant 0 <= i <= a.Length
      invariant forall p, q :: 0 <= p < q < i ==> a[p].count >= a[q].count
      invariant multiset(a[..]) == multiset(old(a[..]))
    {
      var j := i;
      while j > 0 && a[j - 1].count < a[j].count
        invariant 0 <= j <= i
        invariant forall p, q :: 0 <= p < q <= i && p != j && q != j ==> a[p].count >= a[q].count
        invariant forall q :: j < q <= i ==> a[j].count > a[q].count
        invariant multiset(a[..]) == multiset(old(a[..]))
      {
        SwapWithPrevious(a, j);
        j := j - 1;
      }
      i := i + 1;
    }
  }

  method SwapWithPrevious(a: array<Entry>, j: nat)
    requires 0 < j < a.Length
    modifies a
    ensures a[j - 1] == old(a[j]) && a[j] == old(a[j - 1])
    ensures forall k :: 0 <= k < a.Length && k != j - 1 && k != j ==> a[k] == old(a[k])
    ensures multiset(a[..]) == multiset(old(a[..]))
  {
    a[j - 1], a[j] := a[j], a[j - 1];
  }

  lemma {:induction false} DistinctEntriesOccurOnce(s: seq<Entry>)
    requires forall i, j :: 0 <= i < j < |s| ==> s[i] != s[j]
    ensures forall e :: multiset(s)[e] <= 1
  {
    if s != [] {
      DistinctEntriesOccurOnce(s[1..]);
      assert s == [s[0]] + s[1..];
      assert s[0] !in s[1..];
    }
  }

  lemma RepeatedEntryOccursTwice(s: seq<Entry>, i: nat, j: nat)
    requires i < j < |s| && s[i] == s[j]
    ensures multiset(s)[s[i]] >= 2
  {
    assert s == s[..j] + [s[j]] + s[j + 1..];
    assert s[i] in s[..j];
  }

  /** A reordering of a ranking's entries that is sorted by count is a ranking too. */
  lemma RankingOfPermutation(keywords: seq<string>, xs: seq<Entry>, ys: seq<Entry>)
    requires CountsOf(keywords, xs) && DistinctKeys(xs)
    requires forall w :: w in keywords ==> w in Keys(xs)
    requires multiset(xs) == multiset(ys)
    requires SortedByCount(ys)
    ensures IsFrequencyRanking(keywords, ys)
  {
    forall i | 0 <= i < |ys|
      ensures ys[i].key in keywords && ys[i].count == multiset(keywords)[ys[i].key]
    {
      assert ys[i] in multiset(ys);
      var p :| 0 <= p < |xs| && xs[p] == ys[i];
    }
    forall w | w in keywords ensures w in Keys(ys) {
      var p :| 0 <= p < |xs| && Keys(xs)[p] == w;
      assert xs[p] in multiset(xs);
      var i :| 0 <= i < |ys| && ys[i] == xs[p];
      assert Keys(ys)[i] == w;
    }
    DistinctEntriesOccurOnce(xs);
    forall i, j | 0 <= i < j < |ys| ensures ys[i].key != ys[j].key {
      if ys[i].key == ys[j].key {
        assert ys[i] == ys[j];
        RepeatedEntryOccursTwice(ys, i, j);
        assert false;
      }
    }
  }

  // ---------------------------------------------------------------------------
  // The top keywords

  function Min(a: nat, b: nat): nat
  {
    if a <= b then a else b
  }

  /** What the keywords column must hold for a page with these keywords: at most ten
      distinct keywords of the page, most frequent first, none left out that is more
      frequent than one taken, and all of them when fewer than ten were taken. */
  ghost predicate IsTopKeywordList(keywords: seq<string>, top: seq<string>)
  {
    && |top| <= TOP_KEYWORDS_AMOUNT
    && (forall i, j :: 0 <= i < j < |top| ==> top[i] != top[j])
    && (forall i :: 0 <= i < |top| ==> top[i] in keywords)
    && (|top| < TOP_KEYWORDS_AMOUNT ==> forall w :: w in keywords ==> w in top)
    && (forall i, j :: 0 <= i < j < |top| ==> multiset(keywords)[top[i]] >= multiset(keywords)[top[j]])
    && (forall i, w :: 0 <= i < |top| && w in keywords && w !in top ==>
          multiset(keywords)[w] <= multiset(keywords)[top[i]])
  }

  /** The loop over the ranking that fills a `LinkedHashSet` with at most ten keys. */
  method SelectTopKeywords(entries: seq<Entry>) returns (top: seq<string>)
    ensures |top| <= TOP_KEYWORDS_AMOUNT
    ensures forall i, j :: 0 <= i < j < |top| ==> top[i] != top[j]
    ensures forall w :: w in top <==> w in Keys(entries)[..Min(|entries|, TOP_KEYWORDS_AMOUNT)]
    ensures DistinctKeys(entries) ==> top == Keys(entries)[..Min(|entries|, TOP_KEYWORDS_AMOUNT)]
  {
    top := [];
    var i := 0;
    while i < |entries| && i < TOP_KEYWORDS_AMOUNT
      invariant 0 <= i <= Min(|entries|, TOP_KEYWORDS_AMOUNT)
      invariant |top| <= i
      invariant forall p, q :: 0 <= p < q < |top| ==> top[p] != top[q]
      invariant forall w :: w in top <==> w in Keys(entries)[..i]
      invariant DistinctKeys(entries) ==> top == Keys(entries)[..i]
    {
      var key := entries[i].key;
      assert Keys(entries)[..i + 1] == Keys(entries)[..i] + [key];
      if key !in top {
        top := top + [key];
      }
      i := i + 1;
    }
  }

  /** The first ten keys of a ranking are a top keyword list. */
  lemma TopOfRanking(keywords: seq<string>, entries: seq<Entry>)
    requires IsFrequencyRanking(keywords, entries)
    ensures IsTopKeywordList(keywords, Keys(entries)[..Min(|entries|, TOP_KEYWORDS_AMOUNT)])
  {
    var n := Min(|entries|, TOP_KEYWORDS_AMOUNT);
    var top := Keys(entries)[..n];
    assert forall i :: 0 <= i < n ==> top[i] == entries[i].key;
    assert forall i :: 0 <= i < n ==> top[i] in keywords;
    assert forall i, j :: 0 <= i < j < n ==> top[i] != top[j];
    assert forall i, j :: 0 <= i < j < n ==>
      multiset(keywords)[top[i]] >= multiset(keywords)[top[j]];
    if n < TOP_KEYWORDS_AMOUNT {
      assert top == Keys(entries);
    }
    forall i, w | 0 <= i < n && w in keywords && w !in top
      ensures multiset(keywords)[w] <= multiset(keywords)[top[i]]
    {
      OutsideTopRanksLower(keywords, entries, n, i, w);
    }
  }

  lemma OutsideTopRanksLower(keywords: seq<string>, entries: seq<Entry>, n: nat, i: nat, w: string)
    requires IsFrequencyRanking(keywords, entries)
    requires i < n <= |entries|
    requires w in keywords && w !in Keys(entries)[..n]
    ensures multiset(keywords)[w] <= multiset(keywords)[entries[i].key]
  {
    var p :| 0 <= p < |entries| && Keys(entries)[p] == w;
    assert entries[i].count >= entries[p].count;
  }

  // ---------------------------------------------------------------------------
  // Lines

  /** The checks a data line must pass before it is written: six columns, a URL that is
      not blank, and a page that yields at least one keyword. */
  predicate Accepted(line: string, fetch: string -> Option<string>)
  {
    var columns := SplitLineIntoColumnValues(line);
    && |columns| == COLUMN_AMOUNT
    && !IsBlank(columns[URL_INDEX])
    && KeywordsFromPage(fetch(columns[URL_INDEX])) != []
  }

  /** `out` is the line written for an accepted `line`: its columns joined by tabs, the
      keywords column replaced by a top keyword list of the page joined by commas. */
  ghost predicate IsRewrite(line: string, fetch: string -> Option<string>, out: string)
  {
    && Accepted(line, fetch)
    && var columns := SplitLineIntoColumnValues(line);
       var keywords := KeywordsFromPage(fetch(columns[URL_INDEX]));
       exists top :: IsTopKeywordList(keywords, top)
         && out == Text.Join(columns[KEYWORDS_INDEX := Text.Join(top, COMMA)], TAB)
  }

  /** The body of the `readLine` loop for a data line: the line to write, or None when
      the line is skipped. */
  method RewriteLine(line: string, fetch: string -> Option<string>) returns (out: Option<string>)
    ensures out.Some? <==> Accepted(line, fetch)
    ensures out.Some? ==> IsRewrite(line, fetch, out.value)
  {
    var columnValues := SplitLineIntoColumnValues(line);
    if |columnValues| != COLUMN_AMOUNT {
      return None;
    }
    var pageURL := columnValues[URL_INDEX];
    if IsBlank(pageURL) {
      return None;
    }
    var keywordsList := KeywordsFromPage(fetch(pageURL));
    if keywordsList == [] {
      return None;
    }
    var entryList := SortKeywordsByFrequency(keywordsList);
    var topKeywordsSet := SelectTopKeywords(entryList);
    TopOfRanking(keywordsList, entryList);
    var columns := new string[COLUMN_AMOUNT](i requires 0 <= i < COLUMN_AMOUNT => columnValues[i]);
    columns[KEYWORDS_INDEX] := Text.Join(topKeywordsSet, COMMA);
    assert columns[..] == columnValues[KEYWORDS_INDEX := Text.Join(topKeywordsSet, COMMA)];
    out := Some(Text.Join(columns[..], TAB));
  }

  /** The data lines `lines` produce exactly the output lines `outs`: one rewrite per
      accepted line, nothing for a skipped one, in input order. */
  ghost predicate RewrittenLines(lines: seq<string>, fetch: string -> Option<string>, outs: seq<string>)
    decreases |lines|
  {
    if lines == [] then outs == []
    else
      var last := lines[|lines| - 1];
      if Accepted(last, fetch) then
        && outs != []
        && IsRewrite(last, fetch, outs[|outs| - 1])
        && RewrittenLines(lines[..|lines| - 1], fetch, outs[..|outs| - 1])
      else RewrittenLines(lines[..|lines| - 1], fetch, outs)
  }

  lemma RewrittenLinesExtend(lines: seq<string>, fetch: string -> Option<string>, outs: seq<string>,
                             line: string, out: Option<string>)
    requires RewrittenLines(lines, fetch, outs)
    requires out.Some? <==> Accepted(line, fetch)
    requires out.Some? ==> IsRewrite(line, fetch, out.value)
    ensures RewrittenLines(lines + [line], fetch, outs + (if out.Some? then [out.value] else []))
  {
    var lines' := lines + [line];
    assert lines'[..|lines'| - 1] == lines;
    if out.Some? {
      var outs' := outs + [out.value];
      assert outs'[..|outs'| - 1] == outs;
    } else {
      assert outs + [] == outs;
    }
  }

  /** `run`: the header line is copied, every data line is rewritten or skipped. */
  method Run(lines: seq<string>, fetch: string -> Option<string>) returns (output: seq<string>)
    ensures lines == [] <==> output == []
    ensures lines != [] ==> output[0] == lines[0] && RewrittenLines(lines[1..], fetch, output[1..])
  {
    output := [];
    ghost var dataLines: seq<string> := [];
    ghost var written: seq<string> := [];
    var linesRead := 0;
    while linesRead < |lines|
      invariant 0 <= linesRead <= |lines|
      invariant linesRead == 0 ==> output == [] && dataLines == [] && written == []
      invariant linesRead > 0 ==> output == [lines[0]] + written && dataLines == lines[1..linesRead]
      invariant RewrittenLines(dataLines, fetch, written)
    {
      var line := lines[linesRead];
      if linesRead == 0 {
        output := output + [line];
        assert lines[1..1] == [];
      } else {
        var rewritten := RewriteLine(line, fetch);
        RewrittenLinesExtend(dataLines, fetch, written, line, rewritten);
        var extra := if rewritten.Some? then [rewritten.value] else [];
        output := output + extra;
        dataLines := dataLines + [line];
        written := written + extra;
        assert lines[1..linesRead + 1] == lines[1..linesRead] + [line];
      }
      linesRead := linesRead + 1;
    }
    if lines != [] {
      assert lines[1..linesRead] == lines[1..];
      assert output[1..] == written;
    }
  }

  /** A written line splits on tabs into the six columns of its input line, except that
      the keywords column holds comma-separated keywords forming a top keyword list. */
  lemma RewriteKeepsOtherColumns(line: string, fetch: string -> Option<string>, out: string)
    requires IsRewrite(line, fetch, out)
    ensures var columns := SplitLineIntoColumnValues(line);
            var written := Text.Fields(out, TAB);
            && |written| == COLUMN_AMOUNT
            && (forall i :: 0 <= i < COLUMN_AMOUNT && i != KEYWORDS_INDEX ==> written[i] == columns[i])
            && IsTopKeywordList(KeywordsFromPage(fetch(columns[URL_INDEX])), Text.Fields(written[KEYWORDS_INDEX], COMMA))
  {
    var columns := SplitLineIntoColumnValues(line);
    var keywords := KeywordsFromPage(fetch(columns[URL_INDEX]));
    var top :| IsTopKeywordList(keywords, top)
      && out == Text.Join(columns[KEYWORDS_INDEX := Text.Join(top, COMMA)], TAB);
    if |top| < TOP_KEYWORDS_AMOUNT {
      assert keywords[0] in top;
    }
    forall i | 0 <= i < |top| ensures COMMA !in top[i] && TAB !in top[i] {
      var k :| 0 <= k < |keywords| && keywords[k] == top[i];
      assert forall j :: 0 <= j < |top[i]| ==> 'a' <= top[i][j] <= 'z';
    }
    Text.FieldsOfJoin(top, COMMA);
    var keywordsColumn := Text.Join(top, COMMA);
    Text.JoinAvoids(top, COMMA, TAB);
    Text.FieldsOfJoin(columns[KEYWORDS_INDEX := keywordsColumn], TAB);
  }

  /** How many of `lines` pass the checks. */
  function AcceptedCount(lines: seq<string>, fetch: string -> Option<string>): nat
  {
    if lines == [] then 0
    else AcceptedCount(lines[..|lines| - 1], fetch) + (if Accepted(lines[|lines| - 1], fetch) then 1 else 0)
  }

  /** One output line per accepted data line, so never more output lines than data lines. */
  lemma {:induction false} RewrittenLinesCount(lines: seq<string>, fetch: string -> Option<string>, outs: seq<string>)
    requires RewrittenLines(lines, fetch, outs)
    ensures |outs| == AcceptedCount(lines, fetch) <= |lines|
    decreases |lines|
  {
    if lines != [] {
      var last := lines[|lines| - 1];
      if Accepted(last, fetch) {
        RewrittenLinesCount(lines[..|lines| - 1], fetch, outs[..|outs| - 1]);
      } else {
        RewrittenLinesCount(lines[..|lines| - 1], fetch, outs);
      }
    }
  }
}
