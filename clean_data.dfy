/** backend/utils/clean_data.py: text normalisation, the date fallback chain,
    title-based deduplication, keyword extraction and the trending/important
    classification of one article against the whole list. */
module CleanData {
  import opened Types
  import opened Strings
  import opened Filters

  // ---------------------------------------------------------------------------
  // clean_text
  // ---------------------------------------------------------------------------

  /** The index of the first '>' at or after `i`, or `|s|` when there is none. */
  function FirstGt(s: string, i: nat): (j: nat)
    requires i <= |s|
    ensures i <= j <= |s|
    ensures j < |s| ==> s[j] == '>'
    ensures forall k :: i <= k < j ==> s[k] != '>'
    decreases |s| - i
  {
    if i == |s| || s[i] == '>' then i else FirstGt(s, i + 1)
  }

  /** The length of the match of `<[^>]+>` at the start of `s`, 0 when it does not match there. */
  function TagAt(s: string): (n: nat)
    ensures n <= |s|
    ensures n > 0 ==> n >= 3 && s[0] == '<' && s[n - 1] == '>'
  {
    if |s| >= 2 && s[0] == '<' && s[1] != '>' then
      var j := FirstGt(s, 1);
      if j < |s| then j + 1 else 0
    else 0
  }

  /** `re.sub(r'<[^>]+>', '', s)`: scanning left to right, every match is deleted. */
  function StripTags(s: string): string
    decreases |s|
  {
    if s == [] then []
    else
      var n := TagAt(s);
      if n > 0 then StripTags(s[n..]) else [s[0]] + StripTags(s[1..])
  }

  /** `re.sub(r'\s+', ' ', s)`: every maximal run of whitespace becomes one space. */
  function CollapseSpaces(s: string): string
    decreases |s|
  {
    if s == [] then []
    else if IsSpace(s[0]) then [' '] + CollapseSpaces(TrimStart(s))
    else [s[0]] + CollapseSpaces(s[1..])
  }

  /** `clean_text`: tags removed, whitespace runs collapsed, ends stripped. */
  function CleanText(text: string): string {
    if text == "" then "" else Strip(CollapseSpaces(StripTags(text)))
  }

  /** No substring matches `<[^>]+>`: a '<' is followed at once by '>' or by no '>' at all. */
  ghost predicate TagFree(s: string) {
    forall i :: 0 <= i < |s| - 1 && s[i] == '<' && '>' in s[i + 1..] ==> s[i + 1] == '>'
  }

  /** Every whitespace character is a plain space and no two of them are adjacent. */
  ghost predicate SingleSpaced(s: string) {
    && (forall i :: 0 <= i < |s| && IsSpace(s[i]) ==> s[i] == ' ')
    && (forall i :: 0 <= i < |s| - 1 && IsSpace(s[i]) ==> !IsSpace(s[i + 1]))
  }

  /** What `clean_text` promises of its result. */
  ghost predicate CleanForm(s: string) {
    && (s == [] || (!IsSpace(s[0]) && !IsSpace(s[|s| - 1])))
    && SingleSpaced(s)
    && TagFree(s)
  }

  lemma TagFreeCons(c: char, t: string)
    requires TagFree(t)
    requires c == '<' && '>' in t ==> t[0] == '>'
    ensures TagFree([c] + t)
  {
    var s := [c] + t;
    forall i | 0 <= i < |s| - 1 && s[i] == '<' && '>' in s[i + 1..]
      ensures s[i + 1] == '>'
    {
      if i > 0 {
        assert s[i + 1..] == t[i..];
      } else {
        assert s[1..] == t;
      }
    }
  }

  lemma TagFreeSlice(s: string, a: nat, b: nat)
    requires a <= b <= |s| && TagFree(s)
    ensures TagFree(s[a..b])
  {
    var r := s[a..b];
    forall i | 0 <= i < |r| - 1 && r[i] == '<' && '>' in r[i + 1..]
      ensures r[i + 1] == '>'
    {
      var k :| i + 1 <= k < |r| && r[k] == '>';
      assert s[a + k] == '>';
      assert '>' in s[a + i + 1..];
    }
  }

  lemma SingleSpacedSlice(s: string, a: nat, b: nat)
    requires a <= b <= |s| && SingleSpaced(s)
    ensures SingleSpaced(s[a..b])
  {
    var r := s[a..b];
    forall i | 0 <= i < |r| - 1 && IsSpace(r[i]) ensures !IsSpace(r[i + 1]) {
      assert r[i] == s[a + i] && r[i + 1] == s[a + i + 1];
    }
  }

  lemma {:induction false} StripTagsChars(s: string)
    ensures forall c :: c in StripTags(s) ==> c in s
    decreases |s|
  {
    if s != [] {
      var n := TagAt(s);
      if n > 0 {
        StripTagsChars(s[n..]);
      } else {
        StripTagsChars(s[1..]);
      }
    }
  }

  lemma {:induction false} StripTagsTagFree(s: string)
    ensures TagFree(StripTags(s))
    decreases |s|
  {
    if s != [] {
      var n := TagAt(s);
      if n > 0 {
        StripTagsTagFree(s[n..]);
      } else {
        var rest := StripTags(s[1..]);
        StripTagsTagFree(s[1..]);
        if s[0] == '<' && '>' in rest {
          StripTagsChars(s[1..]);
          assert '>' in s[1..];
          assert |s| >= 2;
          var j := FirstGt(s, 1);
          assert j < |s| by {
            var k :| 0 <= k < |s[1..]| && s[1..][k] == '>';
            assert s[k + 1] == '>';
          }
          assert s[1] == '>';
          assert TagAt(s[1..]) == 0;
        }
        TagFreeCons(s[0], rest);
      }
    }
  }

  lemma {:induction false} CollapseSpacesChars(s: string)
    ensures forall c :: c in CollapseSpaces(s) && c != ' ' ==> c in s
    decreases |s|
  {
    if s != [] {
      if IsSpace(s[0]) {
        var t := TrimStart(s);
        CollapseSpacesChars(t);
        forall c | c in t ensures c in s {
          var k :| 0 <= k < |t| && t[k] == c;
          assert s[|s| - |t| + k] == c;
        }
      } else {
        CollapseSpacesChars(s[1..]);
      }
    }
  }

  lemma SingleSpacedCons(c: char, t: string)
    requires SingleSpaced(t)
    requires IsSpace(c) ==> c == ' ' && (t == [] || !IsSpace(t[0]))
    ensures SingleSpaced([c] + t)
  {
    var s := [c] + t;
    forall i | 0 <= i < |s| - 1 && IsSpace(s[i]) ensures !IsSpace(s[i + 1]) {
      if i > 0 {
        assert s[i] == t[i - 1] && s[i + 1] == t[i];
      }
    }
  }

  lemma {:induction false} CollapseSpacesHead(s: string)
    ensures s != [] && !IsSpace(s[0]) ==> CollapseSpaces(s) != [] && CollapseSpaces(s)[0] == s[0]
    ensures s == [] <==> CollapseSpaces(s) == []
  {
  }

  lemma {:induction false} CollapseSpacesSingleSpaced(s: string)
    ensures SingleSpaced(CollapseSpaces(s))
    decreases |s|
  {
    if s != [] {
      if IsSpace(s[0]) {
        var t := TrimStart(s);
        CollapseSpacesSingleSpaced(t);
        CollapseSpacesHead(t);
        SingleSpacedCons(' ', CollapseSpaces(t));
      } else {
        CollapseSpacesSingleSpaced(s[1..]);
        SingleSpacedCons(s[0], CollapseSpaces(s[1..]));
      }
    }
  }

  lemma {:induction false} CollapseSpacesTagFree(s: string)
    requires TagFree(s)
    ensures TagFree(CollapseSpaces(s))
    decreases |s|
  {
    if s != [] {
      if IsSpace(s[0]) {
        var t := TrimStart(s);
        TagFreeSlice(s, |s| - |t|, |s|);
        CollapseSpacesTagFree(t);
        TagFreeCons(' ', CollapseSpaces(t));
      } else {
        var rest := CollapseSpaces(s[1..]);
        TagFreeSlice(s, 1, |s|);
        CollapseSpacesTagFree(s[1..]);
        if s[0] == '<' && '>' in rest {
          CollapseSpacesChars(s[1..]);
          assert '>' in s[1..];
          assert s[1] == '>';
          CollapseSpacesHead(s[1..]);
        }
        TagFreeCons(s[0], rest);
      }
    }
  }

  /** `clean_text` returns "" for empty input; otherwise no tag survives, no whitespace
      is left at either end and every run of whitespace has become one space. */
  lemma CleanTextForm(text: string)
    ensures text == "" ==> CleanText(text) == ""
    ensures CleanForm(CleanText(text))
  {
    if text != "" {
      StripTagsTagFree(text);
      CollapseSpacesSingleSpaced(StripTags(text));
      CollapseSpacesTagFree(StripTags(text));
      StripKeepsForm(CollapseSpaces(StripTags(text)));
    }
  }

  /** Stripping the ends of a tag-free, single-spaced string yields the clean form. */
  lemma StripKeepsForm(u: string)
    requires TagFree(u) && SingleSpaced(u)
    ensures CleanForm(Strip(u))
  {
    var k := LeadingSpaces(u);
    var r := Strip(u);
    assert r == u[k..k + |r|];
    TagFreeSlice(u, k, k + |r|);
    SingleSpacedSlice(u, k, k + |r|);
    assert r == [] || (!IsSpace(r[0]) && !IsSpace(r[|r| - 1]));
  }

  lemma {:induction false} StripTagsFixesTagFree(s: string)
    requires TagFree(s)
    ensures StripTags(s) == s
    decreases |s|
  {
    if s != [] {
      if |s| >= 2 && s[0] == '<' && s[1] != '>' {
        assert '>' !in s[1..];
        forall k | 1 <= k < |s| ensures s[k] != '>' {
          assert s[1..][k - 1] == s[k];
        }
      }
      assert TagAt(s) == 0;
      TagFreeSlice(s, 1, |s|);
      StripTagsFixesTagFree(s[1..]);
    }
  }

  lemma {:induction false} CollapseSpacesFixesSingleSpaced(s: string)
    requires SingleSpaced(s)
    ensures CollapseSpaces(s) == s
    decreases |s|
  {
    if s != [] {
      SingleSpacedSlice(s, 1, |s|);
      CollapseSpacesFixesSingleSpaced(s[1..]);
      if IsSpace(s[0]) {
        assert TrimStart(s) == s[1..] by {
          assert s[1..] == [] || !IsSpace(s[1]);
        }
      }
    }
  }

  /** Cleaning an already cleaned text changes nothing. */
  lemma CleanTextIdempotent(text: string)
    ensures CleanText(CleanText(text)) == CleanText(text)
  {
    var r := CleanText(text);
    CleanTextForm(text);
    if r != "" {
      StripTagsFixesTagFree(r);
      CollapseSpacesFixesSingleSpaced(r);
      assert TrimStart(r) == r;
      assert TrimEnd(r) == r;
    }
  }

  // ---------------------------------------------------------------------------
  // parse_date
  // ---------------------------------------------------------------------------

  /** The `strptime` formats, in the order they are tried. */
  const DateFormats: seq<string> := [
    "%a, %d %b %Y %H:%M:%S %z",
    "%a, %d %b %Y %H:%M:%S %Z",
    "%Y-%m-%dT%H:%M:%S%z",
    "%Y-%m-%dT%H:%M:%S",
    "%Y-%m-%d %H:%M:%S",
    "%Y-%m-%d"
  ]

  /** `datetime.now()`: a naive local reading. */
  function Now(rt: Runtime): DateTime {
    Naive(rt.clock.local)
  }

  /** The result of the first format under which `strptime` accepts `s`. */
  function FirstFormat(s: string, formats: seq<string>, rt: Runtime): Option<DateTime> {
    if formats == [] then None
    else if rt.strptime(s, formats[0]).Some? then rt.strptime(s, formats[0])
    else FirstFormat(s, formats[1..], rt)
  }

  /** What `parse_date` returns for a string; it never raises. */
  function ParsedDate(s: string, rt: Runtime): DateTime {
    if s == "" then Now(rt)
    else if 'T' in s && rt.parseLenient(s).Some? then rt.parseLenient(s).value
    else
      match FirstFormat(s, DateFormats, rt)
      case Some(d) => d
      case None => rt.parseLenient(s).GetOr(Now(rt))
  }

  /** `parse_date`: the lenient parser first for strings with a 'T', then each
      format in turn, then the lenient parser again, then "now". */
  method ParseDate(dateStr: string, rt: Runtime) returns (d: DateTime)
    ensures d == ParsedDate(dateStr, rt)
  {
    if dateStr == "" {
      return Now(rt);
    }
    if 'T' in dateStr {
      var iso := rt.parseLenient(dateStr);
      if iso.Some? {
        return iso.value;
      }
    }
    var formats := DateFormats;
    for i := 0 to |formats|
      invariant FirstFormat(dateStr, formats, rt) == FirstFormat(dateStr, formats[i..], rt)
    {
      assert formats[i..][1..] == formats[i + 1..];
      var parsed := rt.strptime(dateStr, formats[i]);
      if parsed.Some? {
        return parsed.value;
      }
    }
    var fallback := rt.parseLenient(dateStr);
    if fallback.Some? {
      return fallback.value;
    }
    return Now(rt);
  }

  /** The format loop returns the result of the earliest format that succeeds, and nothing when all fail. */
  lemma {:induction false} FirstFormatIsFirstSuccess(s: string, formats: seq<string>, rt: Runtime)
    ensures FirstFormat(s, formats, rt).None? <==>
            forall k :: 0 <= k < |formats| ==> rt.strptime(s, formats[k]).None?
    ensures forall k :: 0 <= k < |formats| && rt.strptime(s, formats[k]).Some? &&
                        (forall j :: 0 <= j < k ==> rt.strptime(s, formats[j]).None?) ==>
                        FirstFormat(s, formats, rt) == rt.strptime(s, formats[k])
  {
    if formats != [] {
      FirstFormatIsFirstSuccess(s, formats[1..], rt);
      assert forall k :: 1 <= k < |formats| ==> formats[1..][k - 1] == formats[k];
    }
  }

  /** The adapters' "parse when non-empty, else now" rule for `published_at`. */
  function PublishedIso(raw: string, rt: Runtime): string {
    if raw != "" then rt.isoformat(ParsedDate(raw, rt)) else rt.isoformat(Now(rt))
  }

  /** The adapters' `published_at`: the raw value parsed and re-serialised when truthy, else the current time. */
  method PublishedAt(raw: Option<string>, rt: Runtime) returns (iso: string)
    ensures iso == PublishedIso(raw.GetOr(""), rt)
  {
    if raw.Some? && raw.value != "" {
      var d := ParseDate(raw.value, rt);
      iso := rt.isoformat(d);
    } else {
      iso := rt.isoformat(Now(rt));
    }
  }

  /** The adapters' emptiness test is redundant: `parse_date("")` is already "now". */
  lemma PublishedIsoIsParseDate(raw: string, rt: Runtime)
    ensures PublishedIso(raw, rt) == rt.isoformat(ParsedDate(raw, rt))
  {
  }

  // ---------------------------------------------------------------------------
  // deduplicate_articles
  // ---------------------------------------------------------------------------

  /** `re.sub(r'[^\w\s]', '', s)`: only word and whitespace characters are kept. */
  function RemoveNonWord(s: string, isWord: char -> bool): string {
    if s == [] then []
    else (if isWord(s[0]) || IsSpace(s[0]) then [s[0]] else []) + RemoveNonWord(s[1..], isWord)
  }

  /** The deduplicator's normalised title: lower-cased, stripped, then punctuation removed. */
  function NormalizeTitle(title: string, isWord: char -> bool): string {
    RemoveNonWord(Strip(Lower(title)), isWord)
  }

  /** Two normalised titles collide when one contains the other and both are longer than 20 characters. */
  predicate Related(a: string, b: string) {
    (Contains(b, a) || Contains(a, b)) && |a| > 20 && |b| > 20
  }

  predicate DuplicateOf(t: string, seen: set<string>) {
    exists s :: s in seen && Related(t, s)
  }

  /** The titles the deduplicator has recorded after keeping `kept`. */
  function Titles(kept: seq<ArticleRecord>, isWord: char -> bool): set<string> {
    set a | a in kept :: NormalizeTitle(a.title, isWord)
  }

  function DedupFrom(xs: seq<ArticleRecord>, seen: set<string>, isWord: char -> bool): seq<ArticleRecord>
    decreases |xs|
  {
    if xs == [] then []
    else
      var t := NormalizeTitle(xs[0].title, isWord);
      if DuplicateOf(t, seen) then DedupFrom(xs[1..], seen, isWord)
      else [xs[0]] + DedupFrom(xs[1..], seen + {t}, isWord)
  }

  /** The articles `deduplicate_articles` keeps, in input order. */
  function Deduplicate(xs: seq<ArticleRecord>, isWord: char -> bool): seq<ArticleRecord> {
    DedupFrom(xs, {}, isWord)
  }

  /** The inner loop of `deduplicate_articles`: scan the recorded titles until one collides. */
  method IsDuplicate(titleNormalized: string, seenTitles: set<string>) returns (isDuplicate: bool)
    ensures isDuplicate == DuplicateOf(titleNormalized, seenTitles)
  {
    isDuplicate := false;
    var unchecked := seenTitles;
    while unchecked != {} && !isDuplicate
      invariant unchecked <= seenTitles
      invariant isDuplicate ==> DuplicateOf(titleNormalized, seenTitles)
      invariant !isDuplicate ==> forall s :: s in seenTitles - unchecked ==> !Related(titleNormalized, s)
      decreases |unchecked|
    {
      var seenTitle :| seenTitle in unchecked;
      if Contains(seenTitle, titleNormalized) || Contains(titleNormalized, seenTitle) {
        if |titleNormalized| > 20 && |seenTitle| > 20 {
          isDuplicate := true;
        }
      }
      unchecked := unchecked - {seenTitle};
    }
  }

  /** `deduplicate_articles`: a set of seen titles and a list of kept articles, grown in one pass. */
  method DeduplicateArticles(articles: seq<ArticleRecord>, isWord: char -> bool) returns (unique: seq<ArticleRecord>)
    ensures unique == Deduplicate(articles, isWord)
  {
    var seenTitles: set<string> := {};
    unique := [];
    assert articles[0..] == articles;
    for i := 0 to |articles|
      invariant Deduplicate(articles, isWord) == unique + DedupFrom(articles[i..], seenTitles, isWord)
    {
      var article := articles[i];
      var titleNormalized := NormalizeTitle(article.title, isWord);
      var isDuplicate := IsDuplicate(titleNormalized, seenTitles);
      DedupFromAt(articles, i, seenTitles, isWord);
      if !isDuplicate {
        var rest := DedupFrom(articles[i + 1..], seenTitles + {titleNormalized}, isWord);
        assert unique + ([article] + rest) == (unique + [article]) + rest;
        seenTitles := seenTitles + {titleNormalized};
        unique := unique + [article];
      }
    }
    assert articles[|articles|..] == [];
  }

  /** One step of the scan, from position `i`. */
  lemma DedupFromAt(xs: seq<ArticleRecord>, i: nat, seen: set<string>, isWord: char -> bool)
    requires i < |xs|
    ensures var t := NormalizeTitle(xs[i].title, isWord);
            DedupFrom(xs[i..], seen, isWord) ==
            if DuplicateOf(t, seen) then DedupFrom(xs[i + 1..], seen, isWord)
            else [xs[i]] + DedupFrom(xs[i + 1..], seen + {t}, isWord)
  {
    assert xs[i..][0] == xs[i] && xs[i..][1..] == xs[i + 1..];
  }

  /** A title collides with a recorded title exactly when it collides with the title of a kept article. */
  lemma DuplicateOfTitles(t: string, kept: seq<ArticleRecord>, isWord: char -> bool)
    ensures DuplicateOf(t, Titles(kept, isWord)) <==>
            exists y :: y in kept && Related(t, NormalizeTitle(y.title, isWord))
  {
    if DuplicateOf(t, Titles(kept, isWord)) {
      var s :| s in Titles(kept, isWord) && Related(t, s);
      var y :| y in kept && NormalizeTitle(y.title, isWord) == s;
    }
    if exists y :: y in kept && Related(t, NormalizeTitle(y.title, isWord)) {
      var y :| y in kept && Related(t, NormalizeTitle(y.title, isWord));
      assert NormalizeTitle(y.title, isWord) in Titles(kept, isWord);
    }
  }

  lemma TitlesCons(a: ArticleRecord, rest: seq<ArticleRecord>, isWord: char -> bool)
    ensures Titles([a] + rest, isWord) == {NormalizeTitle(a.title, isWord)} + Titles(rest, isWord)
  {
  }

  /** Appending one article to the input either appends it to the output or drops
      it, and it is dropped exactly when it collides with a title recorded so far. */
  lemma {:induction false} DedupFromSnoc(xs: seq<ArticleRecord>, x: ArticleRecord, seen: set<string>, isWord: char -> bool)
    ensures DedupFrom(xs + [x], seen, isWord) ==
            DedupFrom(xs, seen, isWord) +
            (if DuplicateOf(NormalizeTitle(x.title, isWord), seen + Titles(DedupFrom(xs, seen, isWord), isWord))
             then [] else [x])
    decreases |xs|
  {
    if xs == [] {
      assert [x][1..] == [];
    } else {
      assert (xs + [x])[0] == xs[0] && (xs + [x])[1..] == xs[1..] + [x];
      var t := NormalizeTitle(xs[0].title, isWord);
      if DuplicateOf(t, seen) {
        DedupFromSnoc(xs[1..], x, seen, isWord);
      } else {
        DedupFromSnoc(xs[1..], x, seen + {t}, isWord);
        TitlesCons(xs[0], DedupFrom(xs[1..], seen + {t}, isWord), isWord);
      }
    }
  }

  /** Online view of `deduplicate_articles`: article `i` is kept exactly when its normalised
      title collides with no article kept among the first `i`. */
  lemma DedupStep(xs: seq<ArticleRecord>, i: nat, isWord: char -> bool)
    requires i < |xs|
    ensures var before := Deduplicate(xs[..i], isWord);
            Deduplicate(xs[..i + 1], isWord) ==
            if exists y :: y in before && Related(NormalizeTitle(xs[i].title, isWord), NormalizeTitle(y.title, isWord))
            then before else before + [xs[i]]
  {
    assert xs[..i + 1] == xs[..i] + [xs[i]];
    DedupFromSnoc(xs[..i], xs[i], {}, isWord);
    var before := Deduplicate(xs[..i], isWord);
    assert {} + Titles(before, isWord) == Titles(before, isWord);
    DuplicateOfTitles(NormalizeTitle(xs[i].title, isWord), before, isWord);
  }

  lemma {:induction false} DedupFromSubsequence(xs: seq<ArticleRecord>, seen: set<string>, isWord: char -> bool)
    ensures SubsequenceOf(DedupFrom(xs, seen, isWord), xs)
    decreases |xs|
  {
    if xs != [] {
      var t := NormalizeTitle(xs[0].title, isWord);
      if DuplicateOf(t, seen) {
        DedupFromSubsequence(xs[1..], seen, isWord);
      } else {
        DedupFromSubsequence(xs[1..], seen + {t}, isWord);
        var r := DedupFrom(xs, seen, isWord);
        assert r[0] == xs[0] && r[1..] == DedupFrom(xs[1..], seen + {t}, isWord);
      }
    }
  }

  /** The kept articles are a subsequence of the input, in input order. */
  lemma DedupSubsequence(xs: seq<ArticleRecord>, isWord: char -> bool)
    ensures SubsequenceOf(Deduplicate(xs, isWord), xs)
  {
    DedupFromSubsequence(xs, {}, isWord);
  }

  /** The first article is always kept, and stays first. */
  lemma DedupKeepsFirst(xs: seq<ArticleRecord>, isWord: char -> bool)
    requires xs != []
    ensures Deduplicate(xs, isWord) != [] && Deduplicate(xs, isWord)[0] == xs[0]
  {
  }

  lemma {:induction false} DedupFromKeepsShort(xs: seq<ArticleRecord>, seen: set<string>, isWord: char -> bool, x: ArticleRecord)
    requires x in xs && |NormalizeTitle(x.title, isWord)| <= 20
    ensures x in DedupFrom(xs, seen, isWord)
    decreases |xs|
  {
    var t := NormalizeTitle(xs[0].title, isWord);
    if x != xs[0] {
      if DuplicateOf(t, seen) {
        DedupFromKeepsShort(xs[1..], seen, isWord, x);
      } else {
        DedupFromKeepsShort(xs[1..], seen + {t}, isWord, x);
      }
    }
  }

  /** An article whose normalised title has at most 20 characters is never dropped. */
  lemma DedupKeepsShortTitles(xs: seq<ArticleRecord>, isWord: char -> bool)
    ensures forall x :: x in xs && |NormalizeTitle(x.title, isWord)| <= 20 ==> x in Deduplicate(xs, isWord)
  {
    forall x | x in xs && |NormalizeTitle(x.title, isWord)| <= 20 ensures x in Deduplicate(xs, isWord) {
      DedupFromKeepsShort(xs, {}, isWord, x);
    }
  }

  lemma {:induction false} DedupFromAvoidsSeen(xs: seq<ArticleRecord>, seen: set<string>, isWord: char -> bool)
    ensures forall y :: y in DedupFrom(xs, seen, isWord) ==> !DuplicateOf(NormalizeTitle(y.title, isWord), seen)
    decreases |xs|
  {
    if xs != [] {
      var t := NormalizeTitle(xs[0].title, isWord);
      if DuplicateOf(t, seen) {
        DedupFromAvoidsSeen(xs[1..], seen, isWord);
      } else {
        DedupFromAvoidsSeen(xs[1..], seen + {t}, isWord);
        forall y | y in DedupFrom(xs[1..], seen + {t}, isWord)
          ensures !DuplicateOf(NormalizeTitle(y.title, isWord), seen)
        {
          assert !DuplicateOf(NormalizeTitle(y.title, isWord), seen + {t});
        }
      }
    }
  }

  lemma NotDuplicateUnrelated(u: string, t: string, seen: set<string>)
    requires !DuplicateOf(u, seen) && t in seen
    ensures !Related(u, t)
  {
  }

  /** The normalised titles of `ys`, in order. */
  function Keys(ys: seq<ArticleRecord>, isWord: char -> bool): (ks: seq<string>)
    ensures |ks| == |ys|
  {
    seq(|ys|, i requires 0 <= i < |ys| => NormalizeTitle(ys[i].title, isWord))
  }

  /** No later key collides with an earlier one. */
  ghost predicate KeysUnrelated(ks: seq<string>) {
    forall i, j :: 0 <= i < j < |ks| ==> !Related(ks[j], ks[i])
  }

  /** No later article's normalised title collides with an earlier one's. */
  ghost predicate PairwiseUnrelated(ys: seq<ArticleRecord>, isWord: char -> bool) {
    KeysUnrelated(Keys(ys, isWord))
  }

  lemma KeysUnrelatedCons(k: string, ks: seq<string>)
    requires KeysUnrelated(ks)
    requires forall z :: z in ks ==> !Related(z, k)
    ensures KeysUnrelated([k] + ks)
  {
    var all := [k] + ks;
    forall i, j | 0 <= i < j < |all| ensures !Related(all[j], all[i]) {
      assert all[j] == ks[j - 1];
      if i > 0 {
        assert all[i] == ks[i - 1];
      }
    }
  }

  lemma KeysCons(y: ArticleRecord, rest: seq<ArticleRecord>, isWord: char -> bool)
    ensures Keys([y] + rest, isWord) == [NormalizeTitle(y.title, isWord)] + Keys(rest, isWord)
  {
  }

  lemma KeysMembers(rest: seq<ArticleRecord>, isWord: char -> bool)
    ensures forall z :: z in Keys(rest, isWord) ==> exists r :: r in rest && z == NormalizeTitle(r.title, isWord)
  {
    forall z | z in Keys(rest, isWord) ensures exists r :: r in rest && z == NormalizeTitle(r.title, isWord) {
      var m :| 0 <= m < |rest| && Keys(rest, isWord)[m] == z;
      assert rest[m] in rest;
    }
  }

  lemma PairwiseUnrelatedCons(y: ArticleRecord, rest: seq<ArticleRecord>, isWord: char -> bool)
    requires PairwiseUnrelated(rest, isWord)
    requires forall z :: z in rest ==> !Related(NormalizeTitle(z.title, isWord), NormalizeTitle(y.title, isWord))
    ensures PairwiseUnrelated([y] + rest, isWord)
  {
    KeysMembers(rest, isWord);
    KeysUnrelatedCons(NormalizeTitle(y.title, isWord), Keys(rest, isWord));
    KeysCons(y, rest, isWord);
  }

  lemma {:induction false} DedupFromUnrelated(xs: seq<ArticleRecord>, seen: set<string>, isWord: char -> bool)
    ensures PairwiseUnrelated(DedupFrom(xs, seen, isWord), isWord)
    decreases |xs|
  {
    if xs != [] {
      var t := NormalizeTitle(xs[0].title, isWord);
      if DuplicateOf(t, seen) {
        DedupFromUnrelated(xs[1..], seen, isWord);
      } else {
        var rest := DedupFrom(xs[1..], seen + {t}, isWord);
        DedupFromUnrelated(xs[1..], seen + {t}, isWord);
        DedupFromAvoidsSeen(xs[1..], seen + {t}, isWord);
        forall z | z in rest ensures !Related(NormalizeTitle(z.title, isWord), t) {
          NotDuplicateUnrelated(NormalizeTitle(z.title, isWord), t, seen + {t});
        }
        PairwiseUnrelatedCons(xs[0], rest, isWord);
      }
    }
  }

  /** No two kept articles have normalised titles where one contains the other and both exceed 20 characters. */
  lemma DedupSurvivorsUnrelated(xs: seq<ArticleRecord>, isWord: char -> bool)
    ensures PairwiseUnrelated(Deduplicate(xs, isWord), isWord)
  {
    DedupFromUnrelated(xs, {}, isWord);
  }

  lemma {:induction false} DedupFromIdempotent(xs: seq<ArticleRecord>, seen: set<string>, isWord: char -> bool)
    ensures DedupFrom(DedupFrom(xs, seen, isWord), seen, isWord) == DedupFrom(xs, seen, isWord)
    decreases |xs|
  {
    if xs != [] {
      var t := NormalizeTitle(xs[0].title, isWord);
      if DuplicateOf(t, seen) {
        DedupFromIdempotent(xs[1..], seen, isWord);
      } else {
        DedupFromIdempotent(xs[1..], seen + {t}, isWord);
        var ys := DedupFrom(xs, seen, isWord);
        assert ys[0] == xs[0] && ys[1..] == DedupFrom(xs[1..], seen + {t}, isWord);
      }
    }
  }

  /** Deduplicating a deduplicated list changes nothing. */
  lemma DedupIdempotent(xs: seq<ArticleRecord>, isWord: char -> bool)
    ensures Deduplicate(Deduplicate(xs, isWord), isWord) == Deduplicate(xs, isWord)
  {
    DedupFromIdempotent(xs, {}, isWord);
  }

  // ---------------------------------------------------------------------------
  // extract_keywords
  // ---------------------------------------------------------------------------

  const ImportantTerms: seq<string> := [
    "agi", "artificial general intelligence", "gpt", "llm", "model release",
    "breakthrough", "announcement", "research", "ai bill", "safety",
    "openai", "deepmind", "anthropic", "claude", "gemini", "chatgpt"
  ]

  /** The terms of `terms`, in order, that occur in `text`. */
  function TermsIn(terms: seq<string>, text: string): seq<string> {
    if terms == [] then []
    else TermsIn(terms[..|terms| - 1], text) +
         (if Contains(text, terms[|terms| - 1]) then [terms[|terms| - 1]] else [])
  }

  function KeywordsOf(text: string): seq<string> {
    if text == "" then [] else TermsIn(ImportantTerms, Lower(text))
  }

  /** `extract_keywords`: the loop that appends every listed term found in the lower-cased text. */
  method ExtractKeywords(text: string) returns (keywords: seq<string>)
    ensures keywords == KeywordsOf(text)
  {
    if text == "" {
      return [];
    }
    var textLower := Lower(text);
    keywords := [];
    for i := 0 to |ImportantTerms|
      invariant keywords == TermsIn(ImportantTerms[..i], textLower)
    {
      assert ImportantTerms[..i + 1][..i] == ImportantTerms[..i];
      if Contains(textLower, ImportantTerms[i]) {
        keywords := keywords + [ImportantTerms[i]];
      }
    }
    assert ImportantTerms[..|ImportantTerms|] == ImportantTerms;
  }

  lemma {:induction false} TermsInMembers(terms: seq<string>, text: string)
    ensures forall k :: k in TermsIn(terms, text) <==> k in terms && Contains(text, k)
  {
    if terms != [] {
      var front := terms[..|terms| - 1];
      TermsInMembers(front, text);
      assert terms == front + [terms[|terms| - 1]];
    }
  }

  /** A term is extracted exactly when it is one of the listed terms and occurs in the lower-cased text. */
  lemma KeywordsOfMembers(text: string)
    ensures forall k :: k in KeywordsOf(text) <==> k in ImportantTerms && Contains(Lower(text), k)
  {
    TermsInMembers(ImportantTerms, Lower(text));
    if text == "" {
      forall k | k in ImportantTerms ensures !Contains(Lower(text), k) {
        if Contains(Lower(text), k) {
          ContainsLength(Lower(text), k);
        }
      }
    }
  }

  // ---------------------------------------------------------------------------
  // categorize_article
  // ---------------------------------------------------------------------------

  const ViralKeywords: seq<string> := [
    "breaking", "exclusive", "major", "huge", "revolutionary", "new", "latest", "update", "announcement"
  ]

  const ImportantKeywords: seq<string> := [
    "model release", "agi", "breakthrough", "announcement",
    "research", "ai bill", "safety", "gpt-", "claude", "gemini"
  ]

  const MajorLabs: seq<string> := ["openai", "deepmind", "anthropic", "google research"]

  /** `hours_ago <= 24`, in seconds. */
  const TrendingWindow: int := 24 * 3600

  /** Python's `any(kw in text for kw in keywords)`. */
  predicate AnyIn(keywords: seq<string>, text: string) {
    exists k :: k in keywords && Contains(text, k)
  }

  /** Seconds since `d`: against the UTC clock for aware values, against local wall-clock time for naive ones. */
  function AgeSeconds(d: DateTime, clock: Clock): int {
    match d
    case Aware(t) => clock.utc - t
    case Naive(w) => clock.local - w
  }

  /** The classifier's title key: lower-cased and punctuation removed, not stripped. */
  function TitleKey(title: string, isWord: char -> bool): string {
    RemoveNonWord(Lower(title), isWord)
  }

  /** `sum(1 for a in all_articles if <a's title key> == key)`. */
  function SameTitleCount(all: seq<ArticleRecord>, key: string, isWord: char -> bool): nat {
    if all == [] then 0
    else SameTitleCount(all[..|all| - 1], key, isWord) +
         (if TitleKey(all[|all| - 1].title, isWord) == key then 1 else 0)
  }

  datatype Categories = Categories(trending: bool, important: bool)

  /** `categorize_article(article, all_articles)`. */
  function Categorize(article: ArticleRecord, all: seq<ArticleRecord>, rt: Runtime): Categories {
    var title := Lower(article.title);
    var content := title + " " + Lower(article.description);
    var recent := AgeSeconds(ParsedDate(article.publishedAt, rt), rt.clock) <= TrendingWindow;
    var repeated := SameTitleCount(all, TitleKey(article.title, rt.isWordChar), rt.isWordChar) > 1;
    var viral := AnyIn(ViralKeywords, content);
    var important := AnyIn(ImportantKeywords, content) || AnyIn(MajorLabs, Lower(PyStr(article.source)));
    Categories(recent || repeated || viral, important)
  }

  lemma {:induction false} SameTitleCountPositive(all: seq<ArticleRecord>, key: string, isWord: char -> bool)
    ensures SameTitleCount(all, key, isWord) > 0 <==>
            exists j :: 0 <= j < |all| && TitleKey(all[j].title, isWord) == key
  {
    if all != [] {
      var front := all[..|all| - 1];
      SameTitleCountPositive(front, key, isWord);
      if exists j :: 0 <= j < |front| && TitleKey(front[j].title, isWord) == key {
        var j :| 0 <= j < |front| && TitleKey(front[j].title, isWord) == key;
        assert all[j] == front[j];
      }
      if exists j :: 0 <= j < |all| - 1 && TitleKey(all[j].title, isWord) == key {
        var j :| 0 <= j < |all| - 1 && TitleKey(all[j].title, isWord) == key;
        assert front[j] == all[j];
      }
    }
  }

  /** Given that article `i` matches `key`, the count exceeds one exactly when another index matches too. */
  lemma {:induction false} SameTitleCountRepeated(all: seq<ArticleRecord>, i: nat, key: string, isWord: char -> bool)
    requires i < |all| && TitleKey(all[i].title, isWord) == key
    ensures SameTitleCount(all, key, isWord) > 1 <==>
            exists j :: 0 <= j < |all| && j != i && TitleKey(all[j].title, isWord) == key
  {
    var front := all[..|all| - 1];
    var last := |all| - 1;
    if i == last {
      SameTitleCountPositive(front, key, isWord);
      if exists j :: 0 <= j < |front| && TitleKey(front[j].title, isWord) == key {
        var j :| 0 <= j < |front| && TitleKey(front[j].title, isWord) == key;
        assert all[j] == front[j];
      }
      if exists j :: 0 <= j < |all| && j != i && TitleKey(all[j].title, isWord) == key {
        var j :| 0 <= j < |all| && j != i && TitleKey(all[j].title, isWord) == key;
        assert front[j] == all[j];
      }
    } else {
      assert front[i] == all[i];
      SameTitleCountRepeated(front, i, key, isWord);
      if exists j :: 0 <= j < |front| && j != i && TitleKey(front[j].title, isWord) == key {
        var j :| 0 <= j < |front| && j != i && TitleKey(front[j].title, isWord) == key;
        assert all[j] == front[j];
      }
      if exists j :: 0 <= j < |all| - 1 && j != i && TitleKey(all[j].title, isWord) == key {
        var j :| 0 <= j < |all| - 1 && j != i && TitleKey(all[j].title, isWord) == key;
        assert front[j] == all[j];
      }
      SameTitleCountPositive(front, key, isWord);
    }
  }

  /** Article `i` of the list is trending exactly when it is at most 24 hours old (or future-dated),
      another article of the list has the same title key, or a viral keyword occurs in "title description". */
  lemma CategorizeTrendingIff(all: seq<ArticleRecord>, i: nat, rt: Runtime)
    requires i < |all|
    ensures var a := all[i];
            Categorize(a, all, rt).trending <==>
              || AgeSeconds(ParsedDate(a.publishedAt, rt), rt.clock) <= TrendingWindow
              || (exists j :: 0 <= j < |all| && j != i &&
                    TitleKey(all[j].title, rt.isWordChar) == TitleKey(a.title, rt.isWordChar))
              || AnyIn(ViralKeywords, Lower(a.title) + " " + Lower(a.description))
  {
    SameTitleCountRepeated(all, i, TitleKey(all[i].title, rt.isWordChar), rt.isWordChar);
  }

  /** Whether an article is important does not depend on the list it is classified against. */
  lemma CategorizeImportantIgnoresList(a: ArticleRecord, xs: seq<ArticleRecord>, ys: seq<ArticleRecord>, rt: Runtime)
    ensures Categorize(a, xs, rt).important == Categorize(a, ys, rt).important
  {
  }

  lemma {:induction false} SameTitleCountAppend(xs: seq<ArticleRecord>, ys: seq<ArticleRecord>, key: string, isWord: char -> bool)
    ensures SameTitleCount(xs + ys, key, isWord) == SameTitleCount(xs, key, isWord) + SameTitleCount(ys, key, isWord)
    decreases |ys|
  {
    if ys == [] {
      assert xs + ys == xs;
    } else {
      assert (xs + ys)[..|xs + ys| - 1] == xs + ys[..|ys| - 1];
      SameTitleCountAppend(xs, ys[..|ys| - 1], key, isWord);
    }
  }

  /** Classifying against a longer list can only add the trending flag, never remove it. */
  lemma CategorizeTrendingMonotone(a: ArticleRecord, xs: seq<ArticleRecord>, ys: seq<ArticleRecord>, rt: Runtime)
    requires Categorize(a, xs, rt).trending
    ensures Categorize(a, xs + ys, rt).trending
  {
    SameTitleCountAppend(xs, ys, TitleKey(a.title, rt.isWordChar), rt.isWordChar);
  }
}
