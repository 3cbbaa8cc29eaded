/** Searching page records and asking a question of every page (qa_search.py).

    The similarity scorer (`fuzz.partial_ratio`), the regular-expression
    engine (`re.search` with `re.IGNORECASE`) and the answer generator are
    outside this model: they are parameters. */
module QaSearch {
  import opened Text
  import opened Records
  import opened DocumentProcessing

  /** The one-element result returned when no record matched. */
  const NoResults := "No results found."
  /** A fuzzy hit needs a similarity score strictly above this. */
  const FuzzyThreshold := 75
  const DefaultSearchType := "exact"
  /** The generation budget of the question-answering path. */
  const QaMaxNewTokens: nat := 1000

  /** The two matchers the search delegates to: a 0..100 similarity score, and
      whether a case-insensitive regular expression is found in a text. */
  datatype Matchers = Matchers(partialRatio: (string, string) -> int, reSearch: (string, string) -> bool)

  predicate IsSearchType(t: string)
  {
    t == "exact" || t == "fuzzy" || t == "case-insensitive" || t == "wildcard" || t == "regex"
  }

  /** `f"Page {page_number}: {page_text}"`: the whole page text, not a snippet. */
  function Format(e: Entry): string
  {
    "Page " + PageOf(e) + ": " + TextOf(e)
  }

  // ----- wildcard translation -----

  /** `search_query.replace("*", ".*").replace("?", ".")` */
  function WildcardToRegex(q: string): string
  {
    Replace(Replace(q, '*', ".*"), '?', ".")
  }

  /** What a single query character stands for in the regular expression. */
  function WildcardChar(c: char): string
  {
    if c == '*' then ".*" else if c == '?' then "." else [c]
  }

  /** The translation character by character: the reference for `WildcardToRegex`. */
  function TranslateWildcard(q: string): string
  {
    if q == [] then [] else WildcardChar(q[0]) + TranslateWildcard(q[1..])
  }

  /** The two successive replacements are the character-by-character translation:
      the first one introduces no `?` for the second to rewrite. */
  lemma {:induction false} WildcardToRegexCharwise(q: string)
    ensures WildcardToRegex(q) == TranslateWildcard(q)
    decreases |q|
  {
    if q != [] {
      var c := q[0];
      var first := if c == '*' then ".*" else [c];
      assert Replace(q, '*', ".*") == first + Replace(q[1..], '*', ".*");
      ReplaceAppend(first, Replace(q[1..], '*', ".*"), '?', ".");
      if c == '*' {
        assert Replace(first, '?', ".") == "." + Replace("*", '?', ".");
        assert Replace("*", '?', ".") == "*" + Replace([], '?', ".");
      } else {
        assert Replace(first, '?', ".") == (if c == '?' then "." else [c]) + Replace([], '?', ".");
      }
      WildcardToRegexCharwise(q[1..]);
    }
  }

  /** The translated pattern holds no `?` and is one character longer per `*`. */
  lemma {:induction false} TranslateWildcardShape(q: string)
    ensures '?' !in TranslateWildcard(q)
    ensures |TranslateWildcard(q)| == |q| + Count(q, '*')
    decreases |q|
  {
    if q != [] {
      TranslateWildcardShape(q[1..]);
    }
  }

  /** A query without `*` and `?` is its own pattern. */
  lemma {:induction false} TranslateWildcardIdentity(q: string)
    requires '*' !in q && '?' !in q
    ensures TranslateWildcard(q) == q
    decreases |q|
  {
    if q != [] {
      assert q[0] in q;
      assert forall c :: c in q[1..] ==> c in q;
      TranslateWildcardIdentity(q[1..]);
      assert q == [q[0]] + q[1..];
    }
  }

  /** The translation works piecewise: the pattern of a concatenation is the
      concatenation of the patterns. */
  lemma {:induction false} TranslateWildcardAppend(a: string, b: string)
    ensures TranslateWildcard(a + b) == TranslateWildcard(a) + TranslateWildcard(b)
    decreases |a|
  {
    if a == [] {
      assert a + b == b;
    } else {
      assert (a + b)[0] == a[0];
      assert (a + b)[1..] == a[1..] + b;
      TranslateWildcardAppend(a[1..], b);
    }
  }

  // ----- the per-record match and the search result -----

  /** The if/elif chain of `basic_ocr_search` for one record. */
  predicate IsHit(e: Entry, query: string, searchType: string, m: Matchers)
  {
    var pageText := TextOf(e);
    if searchType == "exact" && Contains(Lower(query), Lower(pageText)) then true
    else if searchType == "fuzzy" then m.partialRatio(Lower(query), Lower(pageText)) > FuzzyThreshold
    else if searchType == "case-insensitive" && Contains(Lower(query), Lower(pageText)) then true
    else if searchType == "wildcard" then m.reSearch(WildcardToRegex(query), pageText)
    else if searchType == "regex" then m.reSearch(query, pageText)
    else false
  }

  /** The formatted matching records, in record order. */
  function Matches(records: seq<Entry>, query: string, searchType: string, m: Matchers): seq<string>
  {
    if records == [] then []
    else (if IsHit(records[0], query, searchType, m) then [Format(records[0])] else [])
         + Matches(records[1..], query, searchType, m)
  }

  /** What `basic_ocr_search` returns. */
  function Search(records: seq<Entry>, query: string, searchType: string, m: Matchers): (r: seq<string>)
    ensures |r| >= 1
  {
    var found := Matches(records, query, searchType, m);
    if found == [] then [NoResults] else found
  }

  /** Searching a concatenation searches each part, in order. */
  lemma {:induction false} MatchesAppend(a: seq<Entry>, b: seq<Entry>, query: string, searchType: string, m: Matchers)
    ensures Matches(a + b, query, searchType, m) == Matches(a, query, searchType, m) + Matches(b, query, searchType, m)
    decreases |a|
  {
    if a == [] {
      assert a + b == b;
    } else {
      assert (a + b)[0] == a[0];
      assert (a + b)[1..] == a[1..] + b;
      MatchesAppend(a[1..], b, query, searchType, m);
    }
  }

  /** At most one result per record; every result is a matching record's full
      text; every matching record has its result. */
  lemma {:induction false} MatchesContents(records: seq<Entry>, query: string, searchType: string, m: Matchers)
    ensures var found := Matches(records, query, searchType, m);
      && |found| <= |records|
      && (forall x :: x in found ==>
            exists i :: 0 <= i < |records| && IsHit(records[i], query, searchType, m) && x == Format(records[i]))
      && (forall i :: 0 <= i < |records| && IsHit(records[i], query, searchType, m) ==>
            Format(records[i]) in found)
    decreases |records|
  {
    if records != [] {
      var rest := records[1..];
      MatchesContents(rest, query, searchType, m);
      var found := Matches(records, query, searchType, m);
      forall x | x in found
        ensures exists i :: 0 <= i < |records| && IsHit(records[i], query, searchType, m) && x == Format(records[i])
      {
        if x !in Matches(rest, query, searchType, m) {
          assert x == Format(records[0]) && IsHit(records[0], query, searchType, m);
        } else {
          var j :| 0 <= j < |rest| && IsHit(rest[j], query, searchType, m) && x == Format(rest[j]);
          assert records[j + 1] == rest[j];
        }
      }
      forall i | 0 <= i < |records| && IsHit(records[i], query, searchType, m)
        ensures Format(records[i]) in found
      {
        if i > 0 {
          assert rest[i - 1] == records[i];
        }
      }
    }
  }

  /** The list of results is empty exactly when no record matches. */
  lemma MatchesEmptyIff(records: seq<Entry>, query: string, searchType: string, m: Matchers)
    ensures Matches(records, query, searchType, m) == [] <==>
            forall i :: 0 <= i < |records| ==> !IsHit(records[i], query, searchType, m)
  {
    MatchesContents(records, query, searchType, m);
    var found := Matches(records, query, searchType, m);
    if found != [] {
      assert found[0] in found;
    }
  }

  /** The sentinel is returned exactly when no record matches: no record's
      result can be mistaken for it. */
  lemma SearchSentinelIff(records: seq<Entry>, query: string, searchType: string, m: Matchers)
    ensures Search(records, query, searchType, m) == [NoResults] <==>
            forall i :: 0 <= i < |records| ==> !IsHit(records[i], query, searchType, m)
  {
    MatchesEmptyIff(records, query, searchType, m);
    MatchesContents(records, query, searchType, m);
    var found := Matches(records, query, searchType, m);
    if found != [] {
      assert found[0] in found;
      var i :| 0 <= i < |records| && IsHit(records[i], query, searchType, m) && found[0] == Format(records[i]);
      assert Format(records[i])[0] == 'P' != NoResults[0];
    }
  }

  /** A search type that is none of the five matches nothing. */
  lemma UnknownSearchTypeFindsNothing(records: seq<Entry>, query: string, searchType: string, m: Matchers)
    requires !IsSearchType(searchType)
    ensures Search(records, query, searchType, m) == [NoResults]
  {
    SearchSentinelIff(records, query, searchType, m);
  }

  /** `exact` and `case-insensitive` use the same test, so they return the same list. */
  lemma {:induction false} ExactIsCaseInsensitive(records: seq<Entry>, query: string, m: Matchers)
    ensures Matches(records, query, "exact", m) == Matches(records, query, "case-insensitive", m)
    ensures Search(records, query, "exact", m) == Search(records, query, "case-insensitive", m)
    decreases |records|
  {
    if records != [] {
      ExactIsCaseInsensitive(records[1..], query, m);
    }
  }

  /** An empty query matches every record in `exact` and `case-insensitive` mode. */
  lemma {:induction false} EmptyQueryMatchesAll(records: seq<Entry>, searchType: string, m: Matchers)
    requires searchType == "exact" || searchType == "case-insensitive"
    ensures var found := Matches(records, "", searchType, m);
      |found| == |records| && forall i :: 0 <= i < |records| ==> found[i] == Format(records[i])
    decreases |records|
  {
    if records != [] {
      ContainsEmpty(Lower(""), Lower(TextOf(records[0])));
      EmptyQueryMatchesAll(records[1..], searchType, m);
      var found := Matches(records, "", searchType, m);
      forall i | 0 <= i < |records| ensures found[i] == Format(records[i]) {
        if i > 0 {
          assert found[i] == Matches(records[1..], "", searchType, m)[i - 1];
        }
      }
    }
  }

  /** A record without text matches only the empty query in `exact` and
      `case-insensitive` mode. */
  lemma MissingTextMatchesOnlyEmptyQuery(page: Option<string>, query: string, searchType: string, m: Matchers)
    requires searchType == "exact" || searchType == "case-insensitive"
    ensures IsHit(Entry(page, None), query, searchType, m) <==> query == ""
  {
    assert Lower("") == "";
    ContainsEmpty(Lower(query), "");
    assert |Lower(query)| == |query|;
  }

  /** A fuzzy hit is a score strictly above 75 on the lower-cased query and text. */
  lemma FuzzyHit(e: Entry, query: string, m: Matchers)
    ensures IsHit(e, query, "fuzzy", m) <==> m.partialRatio(Lower(query), Lower(TextOf(e))) > 75
  {
  }

  /** A wildcard search is a regex search for the translated query. */
  lemma WildcardIsRegex(e: Entry, query: string, m: Matchers)
    ensures IsHit(e, query, "wildcard", m) <==> IsHit(e, TranslateWildcard(query), "regex", m)
  {
    WildcardToRegexCharwise(query);
  }

  /** `key*rd` in wildcard mode is `key.*rd` in regex mode. */
  lemma WildcardExample(e: Entry, m: Matchers)
    ensures TranslateWildcard("key*rd") == "key.*rd"
    ensures IsHit(e, "key*rd", "wildcard", m) <==> IsHit(e, "key.*rd", "regex", m)
  {
    WildcardIsRegex(e, "key*rd", m);
  }

  /** The three page texts of the basic-search test. Each is written as a
      concatenation of short literals, which keeps the verifier fast on the
      `'k' !in` facts below. */
  const TestPage1 := "This is a test " + "document. It contains " + "important information."
  const TestPage2 := "Second page with some more " + "information. Here is a keyword."
  const TestPage3 := "Final page with " + "the conclusion."

  /** A text holding no `k` in either case has no match for `keyword`. */
  lemma KeywordAbsent(page: Option<string>, text: string, m: Matchers)
    requires 'k' !in text && 'K' !in text
    ensures Matches([Entry(page, Some(text))], "keyword", "exact", m) == []
  {
    var e := Entry(page, Some(text));
    LowerMembership(text, 'k');
    assert "keyword"[0] == 'k';
    assert Lower("keyword") == "keyword";
    FirstCharAbsent("keyword", Lower(text));
    assert !IsHit(e, "keyword", "exact", m);
    assert [e][1..] == [];
  }

  /** The first test page holds no `k` or `K`. */
  lemma NoKInTestPage1()
    ensures 'k' !in TestPage1 && 'K' !in TestPage1
  {
  }

  /** The third test page holds no `k` or `K`. */
  lemma NoKInTestPage3()
    ensures 'k' !in TestPage3 && 'K' !in TestPage3
  {
  }

  /** The second test page matches `keyword`, at offset 50. */
  lemma KeywordPresent(page: Option<string>, m: Matchers)
    ensures Matches([Entry(page, Some(TestPage2))], "keyword", "exact", m) == [Format(Entry(page, Some(TestPage2)))]
  {
    var e := Entry(page, Some(TestPage2));
    assert Lower("keyword") == "keyword";
    assert Lower(TestPage2)[50..57] == "keyword";
    assert OccursAt("keyword", Lower(TestPage2), 50);
    assert IsHit(e, "keyword", "exact", m);
    assert [e][1..] == [];
  }

  /** Three records of which only the middle one matches give its result alone. */
  lemma OnlyMiddleMatches(e1: Entry, e2: Entry, e3: Entry, query: string, searchType: string, m: Matchers)
    requires Matches([e1], query, searchType, m) == [] && Matches([e3], query, searchType, m) == []
    requires Matches([e2], query, searchType, m) == [Format(e2)]
    ensures Search([e1, e2, e3], query, searchType, m) == [Format(e2)]
  {
    assert [e1, e2, e3] == [e1] + ([e2] + [e3]);
    MatchesAppend([e2], [e3], query, searchType, m);
    MatchesAppend([e1], [e2] + [e3], query, searchType, m);
  }

  /** The basic search over the three test pages: only the second holds the keyword. */
  lemma KeywordScenario(p1: string, p2: string, p3: string, m: Matchers)
    ensures Search([Entry(Some(p1), Some(TestPage1)), Entry(Some(p2), Some(TestPage2)),
                    Entry(Some(p3), Some(TestPage3))], "keyword", DefaultSearchType, m)
            == ["Page " + p2 + ": " + TestPage2]
  {
    NoKInTestPage1();
    NoKInTestPage3();
    KeywordAbsent(Some(p1), TestPage1, m);
    KeywordPresent(Some(p2), m);
    KeywordAbsent(Some(p3), TestPage3, m);
    OnlyMiddleMatches(Entry(Some(p1), Some(TestPage1)), Entry(Some(p2), Some(TestPage2)),
                      Entry(Some(p3), Some(TestPage3)), "keyword", "exact", m);
  }

  /** `basic_ocr_search`: one formatted result per matching record, appended in
      record order, or the sentinel when there is none. */
  method BasicOcrSearch(extractedTexts: seq<Entry>, searchQuery: string, m: Matchers,
                        searchType: string := "exact")
    returns (results: seq<string>)
    ensures results == Search(extractedTexts, searchQuery, searchType, m)
  {
    results := [];
    var i := 0;
    while i < |extractedTexts|
      invariant 0 <= i <= |extractedTexts|
      invariant results == Matches(extractedTexts[..i], searchQuery, searchType, m)
    {
      var entry := extractedTexts[i];
      var pageText := entry.text.GetOr("");
      var pageNumber := entry.page.GetOr("");
      var before := results;
      if searchType == "exact" && Contains(Lower(searchQuery), Lower(pageText)) {
        results := results + ["Page " + pageNumber + ": " + pageText];
      } else if searchType == "fuzzy" {
        if m.partialRatio(Lower(searchQuery), Lower(pageText)) > FuzzyThreshold {
          results := results + ["Page " + pageNumber + ": " + pageText];
        }
      } else if searchType == "case-insensitive" && Contains(Lower(searchQuery), Lower(pageText)) {
        results := results + ["Page " + pageNumber + ": " + pageText];
      } else if searchType == "wildcard" {
        var wildcardPattern := WildcardToRegex(searchQuery);
        if m.reSearch(wildcardPattern, pageText) {
          results := results + ["Page " + pageNumber + ": " + pageText];
        }
      } else if searchType == "regex" {
        if m.reSearch(searchQuery, pageText) {
          results := results + ["Page " + pageNumber + ": " + pageText];
        }
      }
      assert results == before + Matches([entry], searchQuery, searchType, m);
      assert extractedTexts[..i + 1] == extractedTexts[..i] + [entry];
      MatchesAppend(extractedTexts[..i], [entry], searchQuery, searchType, m);
      i := i + 1;
    }
    assert extractedTexts[..i] == extractedTexts;
    if results == [] {
      results := [NoResults];
    }
  }

  /** `advanced_qa_search`: the file-type dispatch, then one answer per page
      image, in order. There is no model guard: an absent processor is called,
      and fails, only once there is a page to ask about. */
  method AdvancedQaSearch(documentPath: string, textQuery: string, modelLoaded: bool, docs: Documents,
                          generate: (string, string, nat) -> string, maxPages: nat := 5)
    returns (r: Result<seq<Entry>>)
    ensures var pages := PageImages(documentPath, docs, OutputFolder, maxPages);
      r.Ok? <==> pages.Some? && (pages.value == [] || modelLoaded)
    ensures var pages := PageImages(documentPath, docs, OutputFolder, maxPages);
      r.Err? ==> r.error == (if pages.None? then UnsupportedFileType else ModelNotCallable)
    ensures var pages := PageImages(documentPath, docs, OutputFolder, maxPages);
      r.Ok? ==> (pages.Some? && |r.value| == |pages.value|
        && forall i :: 0 <= i < |r.value| ==>
             r.value[i] == Entry(Some(pages.value[i]), Some(generate(pages.value[i], textQuery, QaMaxNewTokens))))
  {
    var pages := MaterializePages(documentPath, docs, maxPages);
    if pages.None? {
      return Err(UnsupportedFileType);
    }
    var imageFiles := pages.value;
    var extractedTexts: seq<Entry> := [];
    var i := 0;
    while i < |imageFiles|
      invariant 0 <= i <= |imageFiles|
      invariant i > 0 ==> modelLoaded
      invariant |extractedTexts| == i
      invariant forall k :: 0 <= k < i ==>
        extractedTexts[k] == Entry(Some(imageFiles[k]), Some(generate(imageFiles[k], textQuery, QaMaxNewTokens)))
    {
      var imageFile := imageFiles[i];
      if !modelLoaded {
        return Err(ModelNotCallable);
      }
      var outputText := generate(imageFile, textQuery, QaMaxNewTokens);
      extractedTexts := extractedTexts + [Entry(Some(imageFile), Some(outputText))];
      i := i + 1;
    }
    r := Ok(extractedTexts);
  }

  // ----- the search as the source executes it -----

  /** One record as the source executes it: `re` is never imported, so the
      wildcard and regex branches raise NameError as soon as they are reached. */
  function StepAsWritten(e: Entry, query: string, searchType: string, m: Matchers): Result<bool>
  {
    var pageText := TextOf(e);
    if searchType == "exact" && Contains(Lower(query), Lower(pageText)) then Ok(true)
    else if searchType == "fuzzy" then Ok(m.partialRatio(Lower(query), Lower(pageText)) > FuzzyThreshold)
    else if searchType == "case-insensitive" && Contains(Lower(query), Lower(pageText)) then Ok(true)
    else if searchType == "wildcard" then Err(NameError)
    else if searchType == "regex" then Err(NameError)
    else Ok(false)
  }

  function MatchesAsWritten(records: seq<Entry>, query: string, searchType: string, m: Matchers): Result<seq<string>>
  {
    if records == [] then Ok([])
    else match StepAsWritten(records[0], query, searchType, m)
      case Err(err) => Err(err)
      case Ok(hit) =>
        match MatchesAsWritten(records[1..], query, searchType, m)
        case Err(err) => Err(err)
        case Ok(found) => Ok((if hit then [Format(records[0])] else []) + found)
  }

  /** `basic_ocr_search` as the source executes it. */
  function SearchAsWritten(records: seq<Entry>, query: string, searchType: string, m: Matchers): Result<seq<string>>
  {
    match MatchesAsWritten(records, query, searchType, m)
    case Err(err) => Err(err)
    case Ok(found) => Ok(if found == [] then [NoResults] else found)
  }

  /** As written, a wildcard or regex search over at least one record raises NameError. */
  lemma AsWrittenWildcardRaises(records: seq<Entry>, query: string, searchType: string, m: Matchers)
    requires searchType == "wildcard" || searchType == "regex"
    requires records != []
    ensures SearchAsWritten(records, query, searchType, m) == Err(NameError)
  {
  }

  /** As written, every other search returns what the intended search returns. */
  lemma {:induction false} AsWrittenAgreesOtherwise(records: seq<Entry>, query: string, searchType: string, m: Matchers)
    requires (searchType != "wildcard" && searchType != "regex") || records == []
    ensures MatchesAsWritten(records, query, searchType, m) == Ok(Matches(records, query, searchType, m))
    ensures SearchAsWritten(records, query, searchType, m) == Ok(Search(records, query, searchType, m))
    decreases |records|
  {
    if records != [] {
      AsWrittenAgreesOtherwise(records[1..], query, searchType, m);
    }
  }
}
