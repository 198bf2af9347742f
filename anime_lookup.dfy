/**
 * `anime_lookup.py`: the title index built from the AniDB title dump
 * (`parse_anime_titles`), the priority search over it (`search_anime`), and
 * the payloads and counters of `inject_to_knowledge_base`.
 *
 * The XML is taken as already parsed: a sequence of `<anime>` elements, each
 * with its `aid` attribute and its `<title>` children.
 */
module AnimeLookup {
  import opened Wrappers
  import opened PyStr
  import opened Seqs
  import opened Dicts
  import opened Facts

  /** A `<title>` element: its text (absent for `<title/>`), and its `type` and `xml:lang` attributes if present. */
  datatype TitleElem = TitleElem(text: Option<string>, titleType: Option<string>, lang: Option<string>)

  /** An `<anime>` element: its `aid` attribute (absent or empty: `None`) and its titles in document order. */
  datatype AnimeElem = AnimeElem(aid: Option<int>, titles: seq<TitleElem>)

  /** One entry of `titles_list`. */
  datatype TitleEntry = TitleEntry(text: string, titleType: string, lang: string)

  /** The record stored in `anime_data` for one aid. */
  datatype AnimeRecord = AnimeRecord(aid: int, mainTitle: Option<string>, titles: seq<TitleEntry>, anidbUrl: string)

  /** The three dictionaries of `lookup`. */
  datatype Lookup = Lookup(
    abbreviations: Dict<string, int>,
    titles: Dict<string, int>,
    animeData: Dict<int, AnimeRecord>)

  /** `f"https://anidb.net/?aid={aid}"` */
  function AnidbUrl(aid: int): string {
    "https://anidb.net/?aid=" + IntToStr(aid)
  }

  /** `title_elem.get('type', 'unknown')` */
  function TypeOf(t: TitleElem): string {
    if t.titleType.Some? then t.titleType.value else "unknown"
  }

  /** `title_elem.get('{...}lang', 'unknown')` */
  function LangOf(t: TitleElem): string {
    if t.lang.Some? then t.lang.value else "unknown"
  }

  /** `if not title_text: continue`: a title without text, or with empty text, is skipped. */
  predicate IsKept(t: TitleElem) {
    t.text.Some? && t.text.value != ""
  }

  function EntryOf(t: TitleElem): TitleEntry
    requires IsKept(t)
  {
    TitleEntry(t.text.value, TypeOf(t), LangOf(t))
  }

  /** The state the inner loop updates: the two title maps, `titles_list` and `main_title`. */
  datatype TitleScan = TitleScan(
    titles: Dict<string, int>,
    abbreviations: Dict<string, int>,
    entries: seq<TitleEntry>,
    mainTitle: Option<string>)

  /** One turn of `for title_elem in anime_elem.findall('title')` for the anime `aid`. */
  function ScanTitle(s: TitleScan, aid: int, t: TitleElem): TitleScan {
    if !IsKept(t) then s
    else
      var entry := EntryOf(t);
      var key := Lower(entry.text);
      TitleScan(
        Put(s.titles, key, aid),
        if entry.titleType == "short" then Put(s.abbreviations, key, aid) else s.abbreviations,
        s.entries + [entry],
        if entry.titleType == "main" || s.mainTitle.None? then Some(entry.text) else s.mainTitle)
  }

  /** The inner loop over the titles `ts`, from the state `s`. */
  function ScanTitles(s: TitleScan, aid: int, ts: seq<TitleElem>): TitleScan {
    if ts == [] then s else ScanTitle(ScanTitles(s, aid, ts[..|ts| - 1]), aid, ts[|ts| - 1])
  }

  /** One turn of `for anime_elem in root.findall('anime')`. */
  function AddAnime(lk: Lookup, e: AnimeElem): Lookup {
    match e.aid
    case None => lk
    case Some(aid) =>
      var s := ScanTitles(TitleScan(lk.titles, lk.abbreviations, [], None), aid, e.titles);
      Lookup(s.abbreviations, s.titles,
             Put(lk.animeData, aid, AnimeRecord(aid, s.mainTitle, s.entries, AnidbUrl(aid))))
  }

  function EmptyLookup(): Lookup {
    Lookup(Empty(), Empty(), Empty())
  }

  /** The lookup built from the anime elements `elems`, in document order. */
  function BuildIndex(elems: seq<AnimeElem>): Lookup {
    if elems == [] then EmptyLookup() else AddAnime(BuildIndex(elems[..|elems| - 1]), elems[|elems| - 1])
  }

  /**
   * `parse_anime_titles`: a missing file gives the empty (falsy) result;
   * otherwise the elements are indexed one by one.
   */
  method ParseAnimeTitles(file: Option<seq<AnimeElem>>) returns (r: Option<Lookup>)
    ensures file.None? ==> r.None?
    ensures file.Some? ==> r == Some(BuildIndex(file.value))
  {
    if file.None? {
      return None;
    }
    var elems := file.value;
    var abbreviations: Dict<string, int> := Empty();
    var titles: Dict<string, int> := Empty();
    var animeData: Dict<int, AnimeRecord> := Empty();
    var i := 0;
    while i < |elems|
      invariant 0 <= i <= |elems|
      invariant Lookup(abbreviations, titles, animeData) == BuildIndex(elems[..i])
    {
      var e := elems[i];
      TakeStep(elems, i);
      if e.aid.None? {
        i := i + 1;
        continue;
      }
      var aid := e.aid.value;
      var titlesList: seq<TitleEntry> := [];
      var mainTitle: Option<string> := None;
      ghost var start := TitleScan(titles, abbreviations, [], None);
      var j := 0;
      while j < |e.titles|
        invariant 0 <= j <= |e.titles|
        invariant TitleScan(titles, abbreviations, titlesList, mainTitle) == ScanTitles(start, aid, e.titles[..j])
      {
        var t := e.titles[j];
        TakeStep(e.titles, j);
        if t.text.None? || t.text.value == "" {
          j := j + 1;
          continue;
        }
        var text := t.text.value;
        var titleType := TypeOf(t);
        var lang := LangOf(t);
        titlesList := titlesList + [TitleEntry(text, titleType, lang)];
        if titleType == "main" || mainTitle.None? {
          mainTitle := Some(text);
        }
        titles := Put(titles, Lower(text), aid);
        if titleType == "short" {
          abbreviations := Put(abbreviations, Lower(text), aid);
        }
        j := j + 1;
      }
      TakeAll(e.titles);
      animeData := Put(animeData, aid, AnimeRecord(aid, mainTitle, titlesList, AnidbUrl(aid)));
      i := i + 1;
    }
    TakeAll(elems);
    return Some(Lookup(abbreviations, titles, animeData));
  }

  // ---------------------------------------------------------------------
  // What one anime's titles contribute

  /** `titles_list` as it should come out: the titles with text, in document order. */
  function KeptEntries(ts: seq<TitleElem>): (r: seq<TitleEntry>)
    ensures |r| <= |ts|
  {
    if ts == [] then []
    else KeptEntries(ts[..|ts| - 1]) + (if IsKept(ts[|ts| - 1]) then [EntryOf(ts[|ts| - 1])] else [])
  }

  /** The text of the last entry of type `main`, if any. */
  function LastMain(entries: seq<TitleEntry>): Option<string> {
    if entries == [] then None
    else if entries[|entries| - 1].titleType == "main" then Some(entries[|entries| - 1].text)
    else LastMain(entries[..|entries| - 1])
  }

  /**
   * The main title as documented: the last title of type `main`; without one,
   * the first title; without titles, none.
   */
  function MainTitleRule(entries: seq<TitleEntry>): Option<string> {
    if LastMain(entries).Some? then LastMain(entries)
    else if entries == [] then None
    else Some(entries[0].text)
  }

  /** Appending a title changes the last `main` only when the new title is one. */
  lemma LastMainSnoc(entries: seq<TitleEntry>, e: TitleEntry)
    ensures LastMain(entries + [e]) == if e.titleType == "main" then Some(e.text) else LastMain(entries)
  {
    assert (entries + [e])[..|entries|] == entries;
  }

  lemma MainTitleRuleStep(entries: seq<TitleEntry>, e: TitleEntry)
    ensures MainTitleRule(entries + [e]) ==
              if e.titleType == "main" || entries == [] then Some(e.text) else MainTitleRule(entries)
  {
    LastMainSnoc(entries, e);
    assert (entries + [e])[0] == if entries == [] then e else entries[0];
  }

  /**
   * The inner loop, from an empty `titles_list` and no `main_title`, collects
   * exactly the titles with text, in order, and ends with the main title the
   * rule describes.
   */
  lemma {:induction false} ScanEntriesAndMainTitle(s: TitleScan, aid: int, ts: seq<TitleElem>)
    requires s.entries == [] && s.mainTitle == None
    ensures ScanTitles(s, aid, ts).entries == KeptEntries(ts)
    ensures ScanTitles(s, aid, ts).mainTitle == MainTitleRule(KeptEntries(ts))
    ensures ScanTitles(s, aid, ts).mainTitle.None? <==> KeptEntries(ts) == []
  {
    if ts != [] {
      var init := ts[..|ts| - 1];
      var t := ts[|ts| - 1];
      ScanEntriesAndMainTitle(s, aid, init);
      var before := ScanTitles(s, aid, init);
      if IsKept(t) {
        MainTitleRuleStep(KeptEntries(init), EntryOf(t));
      } else {
        AppendEmpty(KeptEntries(init));
      }
    }
  }

  /** Some title of `ts` with text lowers to `k` (and is of type `short`, when `shortOnly`). */
  ghost predicate HasKey(ts: seq<TitleElem>, k: string, shortOnly: bool) {
    exists j | 0 <= j < |ts| :: IsKept(ts[j]) && Lower(ts[j].text.value) == k && (shortOnly ==> TypeOf(ts[j]) == "short")
  }

  predicate IsKeyOf(t: TitleElem, k: string, shortOnly: bool) {
    IsKept(t) && Lower(t.text.value) == k && (shortOnly ==> TypeOf(t) == "short")
  }

  lemma HasKeyStep(ts: seq<TitleElem>, k: string, shortOnly: bool)
    requires ts != []
    ensures HasKey(ts, k, shortOnly) <==>
              HasKey(ts[..|ts| - 1], k, shortOnly) || IsKeyOf(ts[|ts| - 1], k, shortOnly)
  {
    var init := ts[..|ts| - 1];
    if HasKey(ts, k, shortOnly) {
      var j :| 0 <= j < |ts| && IsKeyOf(ts[j], k, shortOnly);
      if j < |init| {
        assert init[j] == ts[j];
      }
    }
    if HasKey(init, k, shortOnly) {
      var j :| 0 <= j < |init| && IsKeyOf(init[j], k, shortOnly);
      assert ts[j] == init[j];
    }
  }

  /**
   * The inner loop's effect on the title maps: the keys it adds are the
   * lowered texts of the kept titles (the short ones, for `abbreviations`),
   * each now mapping to `aid`; every other key keeps its value.
   */
  lemma {:induction false} ScanKeys(s: TitleScan, aid: int, ts: seq<TitleElem>, k: string)
    ensures k in ScanTitles(s, aid, ts).titles.values <==> k in s.titles.values || HasKey(ts, k, false)
    ensures HasKey(ts, k, false) ==> ScanTitles(s, aid, ts).titles.values[k] == aid
    ensures !HasKey(ts, k, false) && k in s.titles.values ==>
              ScanTitles(s, aid, ts).titles.values[k] == s.titles.values[k]
    ensures k in ScanTitles(s, aid, ts).abbreviations.values <==> k in s.abbreviations.values || HasKey(ts, k, true)
    ensures HasKey(ts, k, true) ==> ScanTitles(s, aid, ts).abbreviations.values[k] == aid
    ensures !HasKey(ts, k, true) && k in s.abbreviations.values ==>
              ScanTitles(s, aid, ts).abbreviations.values[k] == s.abbreviations.values[k]
  {
    if ts != [] {
      ScanKeys(s, aid, ts[..|ts| - 1], k);
      HasKeyStep(ts, k, false);
      HasKeyStep(ts, k, true);
    }
  }

  // ---------------------------------------------------------------------
  // The index as a whole

  /**
   * What `search_anime` relies on: every abbreviation is also a title, every
   * aid the title maps hold has a record, each record sits under its own
   * aid with its AniDB link, and title keys are lower-case.
   */
  predicate WellFormed(lk: Lookup) {
    Valid(lk.abbreviations) && Valid(lk.titles) && Valid(lk.animeData) &&
    (forall k | k in lk.abbreviations.values :: k in lk.titles.values) &&
    (forall k | k in lk.titles.values :: lk.titles.values[k] in lk.animeData.values && IsLower(k)) &&
    (forall k | k in lk.abbreviations.values :: lk.abbreviations.values[k] in lk.animeData.values) &&
    (forall aid | aid in lk.animeData.values ::
       lk.animeData.values[aid].aid == aid && lk.animeData.values[aid].anidbUrl == AnidbUrl(aid))
  }

  /** The title maps part-way through an anime: aids are recorded ones or the current one. */
  predicate ScanValid(s: TitleScan, aid: int, data: Dict<int, AnimeRecord>) {
    Valid(s.titles) && Valid(s.abbreviations) &&
    (forall k | k in s.abbreviations.values :: k in s.titles.values) &&
    (forall k | k in s.titles.values :: (s.titles.values[k] == aid || s.titles.values[k] in data.values) && IsLower(k)) &&
    (forall k | k in s.abbreviations.values :: s.abbreviations.values[k] == aid || s.abbreviations.values[k] in data.values)
  }

  lemma ScanTitleValid(s: TitleScan, aid: int, t: TitleElem, data: Dict<int, AnimeRecord>)
    requires ScanValid(s, aid, data)
    ensures ScanValid(ScanTitle(s, aid, t), aid, data)
  {
  }

  lemma {:induction false} ScanTitlesValid(s: TitleScan, aid: int, ts: seq<TitleElem>, data: Dict<int, AnimeRecord>)
    requires ScanValid(s, aid, data)
    ensures ScanValid(ScanTitles(s, aid, ts), aid, data)
  {
    if ts != [] {
      ScanTitlesValid(s, aid, ts[..|ts| - 1], data);
      ScanTitleValid(ScanTitles(s, aid, ts[..|ts| - 1]), aid, ts[|ts| - 1], data);
    }
  }

  lemma AddAnimeWellFormed(lk: Lookup, e: AnimeElem)
    requires WellFormed(lk)
    ensures WellFormed(AddAnime(lk, e))
  {
    if e.aid.Some? {
      var aid := e.aid.value;
      var start := TitleScan(lk.titles, lk.abbreviations, [], None);
      ScanTitlesValid(start, aid, e.titles, lk.animeData);
    }
  }

  /** The lookup `parse_anime_titles` builds is well formed, so the searches over it never miss a record. */
  lemma {:induction false} BuildIndexWellFormed(elems: seq<AnimeElem>)
    ensures WellFormed(BuildIndex(elems))
  {
    if elems != [] {
      BuildIndexWellFormed(elems[..|elems| - 1]);
      AddAnimeWellFormed(BuildIndex(elems[..|elems| - 1]), elems[|elems| - 1]);
    }
  }

  /**
   * Reference reading of the title maps: the aid of the last anime element
   * (with an aid) having a title that lowers to `k` (a short one, when
   * `shortOnly`).
   */
  ghost function LastAidWith(elems: seq<AnimeElem>, k: string, shortOnly: bool): Option<int> {
    if elems == [] then None
    else
      var e := elems[|elems| - 1];
      if e.aid.Some? && HasKey(e.titles, k, shortOnly) then e.aid
      else LastAidWith(elems[..|elems| - 1], k, shortOnly)
  }

  /**
   * `titles` and `abbreviations` hold exactly the lowered texts of the kept
   * titles (the short ones, for `abbreviations`) of the anime that have an
   * aid, each mapped to the aid of the last anime carrying it: a later anime
   * overwrites an earlier one.
   */
  lemma {:induction false} TitleMapsOfIndex(elems: seq<AnimeElem>, k: string)
    ensures k in BuildIndex(elems).titles.values <==> LastAidWith(elems, k, false).Some?
    ensures LastAidWith(elems, k, false).Some? ==>
              BuildIndex(elems).titles.values[k] == LastAidWith(elems, k, false).value
    ensures k in BuildIndex(elems).abbreviations.values <==> LastAidWith(elems, k, true).Some?
    ensures LastAidWith(elems, k, true).Some? ==>
              BuildIndex(elems).abbreviations.values[k] == LastAidWith(elems, k, true).value
  {
    if elems != [] {
      var init := elems[..|elems| - 1];
      var e := elems[|elems| - 1];
      TitleMapsOfIndex(init, k);
      if e.aid.Some? {
        var lk := BuildIndex(init);
        ScanKeys(TitleScan(lk.titles, lk.abbreviations, [], None), e.aid.value, e.titles, k);
      }
    }
  }

  /** The last anime element with the aid `aid`, if any. */
  function LastWithAid(elems: seq<AnimeElem>, aid: int): Option<AnimeElem> {
    if elems == [] then None
    else if elems[|elems| - 1].aid == Some(aid) then Some(elems[|elems| - 1])
    else LastWithAid(elems[..|elems| - 1], aid)
  }

  /** The record an anime element gets. */
  function RecordOf(aid: int, e: AnimeElem): AnimeRecord {
    AnimeRecord(aid, MainTitleRule(KeptEntries(e.titles)), KeptEntries(e.titles), AnidbUrl(aid))
  }

  /**
   * `anime_data` has a record for exactly the aids that occur, built from
   * the last element with that aid: its kept titles in order, the main title
   * the rule gives, and the AniDB link of the aid.
   */
  lemma {:induction false} RecordsOfIndex(elems: seq<AnimeElem>, aid: int)
    ensures aid in BuildIndex(elems).animeData.values <==> LastWithAid(elems, aid).Some?
    ensures LastWithAid(elems, aid).Some? ==>
              BuildIndex(elems).animeData.values[aid] == RecordOf(aid, LastWithAid(elems, aid).value)
  {
    if elems != [] {
      var init := elems[..|elems| - 1];
      var e := elems[|elems| - 1];
      RecordsOfIndex(init, aid);
      if e.aid == Some(aid) {
        var lk := BuildIndex(init);
        ScanEntriesAndMainTitle(TitleScan(lk.titles, lk.abbreviations, [], None), aid, e.titles);
      }
    }
  }

  /** The anime elements that have an aid, in order. */
  function WithAid(elems: seq<AnimeElem>): (r: seq<AnimeElem>)
    ensures |r| <= |elems|
    ensures forall i :: 0 <= i < |r| ==> r[i].aid.Some?
  {
    if elems == [] then []
    else
      var rest := WithAid(elems[..|elems| - 1]);
      if elems[|elems| - 1].aid.Some? then rest + [elems[|elems| - 1]] else rest
  }

  /** Elements without an aid contribute nothing: indexing only the others gives the same lookup. */
  lemma {:induction false} AidlessSkipped(elems: seq<AnimeElem>)
    ensures BuildIndex(elems) == BuildIndex(WithAid(elems))
  {
    if elems != [] {
      var init := elems[..|elems| - 1];
      var e := elems[|elems| - 1];
      AidlessSkipped(init);
      if e.aid.Some? {
        var kept := WithAid(init) + [e];
        assert kept[..|kept| - 1] == WithAid(init) && kept[|kept| - 1] == e;
      }
    }
  }

  /** Different aids get different AniDB links. */
  lemma AnidbUrlInjective(a: int, b: int)
    requires AnidbUrl(a) == AnidbUrl(b)
    ensures a == b
  {
    var prefix := "https://anidb.net/?aid=";
    assert AnidbUrl(a)[|prefix|..] == IntToStr(a);
    assert AnidbUrl(b)[|prefix|..] == IntToStr(b);
    IntToStrInjective(a, b);
  }

  // ---------------------------------------------------------------------
  // search_anime

  /** One result: `(aid, main_title, anidb_url)`. */
  datatype Hit = Hit(aid: int, mainTitle: Option<string>, anidbUrl: string)

  /** The result tuple for the record of `aid`. */
  function HitOf(lk: Lookup, aid: int): Hit
    requires aid in lk.animeData.values
  {
    Hit(aid, lk.animeData.values[aid].mainTitle, lk.animeData.values[aid].anidbUrl)
  }

  /** `query_lower in abbr or abbr in query_lower` */
  predicate AbbrevMatches(q: string, abbr: string) {
    Contains(abbr, q) || Contains(q, abbr)
  }

  /** `query_lower in title` */
  predicate TitleMatches(q: string, title: string) {
    Contains(title, q)
  }

  predicate AllIn<V>(ks: seq<string>, m: map<string, V>) {
    forall i :: 0 <= i < |ks| ==> ks[i] in m
  }

  /** The loop over `lookup['abbreviations'].items()`, for the keys `ks` in order. */
  function AbbrevPhase(lk: Lookup, q: string, ks: seq<string>): seq<Hit>
    requires WellFormed(lk) && AllIn(ks, lk.abbreviations.values)
  {
    if ks == [] then []
    else
      var r := AbbrevPhase(lk, q, ks[..|ks| - 1]);
      var abbr := ks[|ks| - 1];
      if AbbrevMatches(q, abbr) then r + [HitOf(lk, lk.abbreviations.values[abbr])] else r
  }

  /**
   * The loop over `lookup['titles'].items()`, for the keys `ks` in order,
   * appending to `start`. A title is passed over when the tuple
   * `(aid, title, anidb_url)` is already among the results: the key itself
   * stands where the results hold a main title.
   */
  function TitlePhase(lk: Lookup, q: string, ks: seq<string>, start: seq<Hit>): seq<Hit>
    requires WellFormed(lk) && AllIn(ks, lk.titles.values)
  {
    if ks == [] then start
    else
      var r := TitlePhase(lk, q, ks[..|ks| - 1], start);
      var title := ks[|ks| - 1];
      var aid := lk.titles.values[title];
      if TitleMatches(q, title) && Hit(aid, Some(title), lk.animeData.values[aid].anidbUrl) !in r
      then r + [HitOf(lk, aid)]
      else r
  }

  /** `results[:10]` */
  function Take10(r: seq<Hit>): (t: seq<Hit>)
    ensures |t| <= 10 && |t| <= |r| && t == r[..|t|]
    ensures |r| <= 10 ==> t == r
  {
    if |r| <= 10 then r else r[..10]
  }

  /** `search_anime`: exact abbreviation, else exact title, else the two substring loops, top 10. */
  function Search(lk: Lookup, query: string): (r: seq<Hit>)
    requires WellFormed(lk)
    ensures |r| <= 10
  {
    var q := Lower(query);
    if q in lk.abbreviations.values then [HitOf(lk, lk.abbreviations.values[q])]
    else if q in lk.titles.values then [HitOf(lk, lk.titles.values[q])]
    else Take10(TitlePhase(lk, q, lk.titles.keys, AbbrevPhase(lk, q, lk.abbreviations.keys)))
  }

  /** `search_anime`, loop by loop. */
  method SearchAnime(lk: Lookup, query: string) returns (results: seq<Hit>)
    requires WellFormed(lk)
    ensures results == Search(lk, query)
  {
    var q := Lower(query);
    if q in lk.abbreviations.values {
      var aid := lk.abbreviations.values[q];
      var anime := lk.animeData.values[aid];
      return [Hit(aid, anime.mainTitle, anime.anidbUrl)];
    }
    if q in lk.titles.values {
      var aid := lk.titles.values[q];
      var anime := lk.animeData.values[aid];
      return [Hit(aid, anime.mainTitle, anime.anidbUrl)];
    }
    results := PartialAbbrevMatches(lk, q);
    results := PartialTitleMatches(lk, q, results);
    results := if |results| <= 10 then results else results[..10];
  }

  /** The first substring loop: abbreviations containing the query, or contained in it. */
  method PartialAbbrevMatches(lk: Lookup, q: string) returns (results: seq<Hit>)
    requires WellFormed(lk)
    ensures results == AbbrevPhase(lk, q, lk.abbreviations.keys)
  {
    results := [];
    var abbrs := lk.abbreviations.keys;
    var i := 0;
    while i < |abbrs|
      invariant 0 <= i <= |abbrs|
      invariant results == AbbrevPhase(lk, q, abbrs[..i])
    {
      TakeStep(abbrs, i);
      var abbr := abbrs[i];
      var aid := lk.abbreviations.values[abbr];
      if Contains(abbr, q) || Contains(q, abbr) {
        var anime := lk.animeData.values[aid];
        results := results + [Hit(aid, anime.mainTitle, anime.anidbUrl)];
      }
      i := i + 1;
    }
    TakeAll(abbrs);
  }

  /** The second substring loop: titles containing the query, appended to `start`. */
  method PartialTitleMatches(lk: Lookup, q: string, start: seq<Hit>) returns (results: seq<Hit>)
    requires WellFormed(lk)
    ensures results == TitlePhase(lk, q, lk.titles.keys, start)
  {
    results := start;
    var titles := lk.titles.keys;
    var j := 0;
    while j < |titles|
      invariant 0 <= j <= |titles|
      invariant results == TitlePhase(lk, q, titles[..j], start)
    {
      TakeStep(titles, j);
      var title := titles[j];
      var aid := lk.titles.values[title];
      if Contains(title, q) && Hit(aid, Some(title), lk.animeData.values[aid].anidbUrl) !in results {
        var anime := lk.animeData.values[aid];
        results := results + [Hit(aid, anime.mainTitle, anime.anidbUrl)];
      }
      j := j + 1;
    }
    TakeAll(titles);
  }

  // ---------------------------------------------------------------------
  // What the search returns

  /** Every result is the tuple of the record it names. */
  predicate AllHitsOf(lk: Lookup, r: seq<Hit>) {
    forall i :: 0 <= i < |r| ==> r[i].aid in lk.animeData.values && r[i] == HitOf(lk, r[i].aid)
  }

  /** `h` is the tuple of an abbreviation among `ks` that matches `q`. */
  ghost predicate AbbrevHitFrom(lk: Lookup, q: string, ks: seq<string>, h: Hit) {
    exists i | 0 <= i < |ks| :: IsHitOf(lk, lk.abbreviations.values, ks[i], h) && AbbrevMatches(q, ks[i])
  }

  /** `h` is the tuple of the record that key `k` of `m` names. */
  predicate IsHitOf(lk: Lookup, m: map<string, int>, k: string, h: Hit) {
    k in m && m[k] in lk.animeData.values && h == HitOf(lk, m[k])
  }

  /** `h` is the tuple of a title among `ks` that contains `q`. */
  ghost predicate TitleHitFrom(lk: Lookup, q: string, ks: seq<string>, h: Hit) {
    exists i | 0 <= i < |ks| :: IsHitOf(lk, lk.titles.values, ks[i], h) && TitleMatches(q, ks[i])
  }

  lemma AllHitsOfAppend(lk: Lookup, r: seq<Hit>, aid: int)
    requires AllHitsOf(lk, r) && aid in lk.animeData.values
    ensures AllHitsOf(lk, r + [HitOf(lk, aid)])
  {
  }

  lemma InAppend(r: seq<Hit>, x: Hit, h: Hit)
    ensures h in r + [x] <==> h in r || h == x
  {
  }

  lemma AbbrevPrefix(lk: Lookup, ks: seq<string>)
    requires WellFormed(lk) && AllIn(ks, lk.abbreviations.values) && ks != []
    ensures AllIn(ks[..|ks| - 1], lk.abbreviations.values)
  {
    var init := ks[..|ks| - 1];
    forall i | 0 <= i < |init| ensures init[i] in lk.abbreviations.values {
      assert init[i] == ks[i];
    }
  }

  /** The abbreviation loop lists only tuples of records. */
  lemma {:induction false} AbbrevPhaseAllHits(lk: Lookup, q: string, ks: seq<string>)
    requires WellFormed(lk) && AllIn(ks, lk.abbreviations.values)
    ensures AllHitsOf(lk, AbbrevPhase(lk, q, ks))
  {
    if ks != [] {
      AbbrevPrefix(lk, ks);
      AbbrevPhaseAllHits(lk, q, ks[..|ks| - 1]);
      var abbr := ks[|ks| - 1];
      if AbbrevMatches(q, abbr) {
        AllHitsOfAppend(lk, AbbrevPhase(lk, q, ks[..|ks| - 1]), lk.abbreviations.values[abbr]);
      }
    }
  }

  lemma AbbrevHitFromStep(lk: Lookup, q: string, ks: seq<string>, h: Hit)
    requires ks != []
    ensures AbbrevHitFrom(lk, q, ks, h) <==>
              AbbrevHitFrom(lk, q, ks[..|ks| - 1], h) ||
              (IsHitOf(lk, lk.abbreviations.values, ks[|ks| - 1], h) && AbbrevMatches(q, ks[|ks| - 1]))
  {
    var init := ks[..|ks| - 1];
    if AbbrevHitFrom(lk, q, init, h) {
      var i :| 0 <= i < |init| && IsHitOf(lk, lk.abbreviations.values, init[i], h) && AbbrevMatches(q, init[i]);
      assert ks[i] == init[i];
    }
    if AbbrevHitFrom(lk, q, ks, h) {
      var i :| 0 <= i < |ks| && IsHitOf(lk, lk.abbreviations.values, ks[i], h) && AbbrevMatches(q, ks[i]);
      if i < |init| {
        assert init[i] == ks[i];
      }
    }
  }

  lemma TitleHitFromStep(lk: Lookup, q: string, ks: seq<string>, h: Hit)
    requires ks != []
    ensures TitleHitFrom(lk, q, ks, h) <==>
              TitleHitFrom(lk, q, ks[..|ks| - 1], h) ||
              (IsHitOf(lk, lk.titles.values, ks[|ks| - 1], h) && TitleMatches(q, ks[|ks| - 1]))
  {
    var init := ks[..|ks| - 1];
    if TitleHitFrom(lk, q, init, h) {
      var i :| 0 <= i < |init| && IsHitOf(lk, lk.titles.values, init[i], h) && TitleMatches(q, init[i]);
      assert ks[i] == init[i];
    }
    if TitleHitFrom(lk, q, ks, h) {
      var i :| 0 <= i < |ks| && IsHitOf(lk, lk.titles.values, ks[i], h) && TitleMatches(q, ks[i]);
      if i < |init| {
        assert init[i] == ks[i];
      }
    }
  }

  /**
   * The abbreviation loop lists exactly the tuples of the matching
   * abbreviations, in key order.
   */
  lemma {:induction false} AbbrevPhaseHits(lk: Lookup, q: string, ks: seq<string>, h: Hit)
    requires WellFormed(lk) && AllIn(ks, lk.abbreviations.values)
    ensures h in AbbrevPhase(lk, q, ks) <==> AbbrevHitFrom(lk, q, ks, h)
  {
    if ks != [] {
      var init := ks[..|ks| - 1];
      AbbrevPrefix(lk, ks);
      AbbrevPhaseHits(lk, q, init, h);
      AbbrevHitFromStep(lk, q, ks, h);
      var r := AbbrevPhase(lk, q, init);
      var abbr := ks[|ks| - 1];
      var x := HitOf(lk, lk.abbreviations.values[abbr]);
      InAppend(r, x, h);
      assert IsHitOf(lk, lk.abbreviations.values, abbr, h) <==> h == x;
      assert AbbrevPhase(lk, q, ks) == if AbbrevMatches(q, abbr) then r + [x] else r;
    }
  }

  /** The title loop keeps what came before it in front. */
  lemma {:induction false} TitlePhaseExtends(lk: Lookup, q: string, ks: seq<string>, start: seq<Hit>)
    requires WellFormed(lk) && AllIn(ks, lk.titles.values)
    ensures |start| <= |TitlePhase(lk, q, ks, start)|
    ensures TitlePhase(lk, q, ks, start)[..|start|] == start
  {
    if ks != [] {
      var init := ks[..|ks| - 1];
      assert AllIn(init, lk.titles.values) by {
        forall i | 0 <= i < |init| ensures init[i] in lk.titles.values {
          assert init[i] == ks[i];
        }
      }
      TitlePhaseExtends(lk, q, init, start);
    }
  }

  lemma TitlePrefix(lk: Lookup, ks: seq<string>)
    requires AllIn(ks, lk.titles.values) && ks != []
    ensures AllIn(ks[..|ks| - 1], lk.titles.values)
  {
    var init := ks[..|ks| - 1];
    forall i | 0 <= i < |init| ensures init[i] in lk.titles.values {
      assert init[i] == ks[i];
    }
  }

  /** The title loop lists only tuples of records. */
  lemma {:induction false} TitlePhaseAllHits(lk: Lookup, q: string, ks: seq<string>, start: seq<Hit>)
    requires WellFormed(lk) && AllIn(ks, lk.titles.values) && AllHitsOf(lk, start)
    ensures AllHitsOf(lk, TitlePhase(lk, q, ks, start))
  {
    if ks != [] {
      TitlePrefix(lk, ks);
      TitlePhaseAllHits(lk, q, ks[..|ks| - 1], start);
      var r := TitlePhase(lk, q, ks[..|ks| - 1], start);
      var aid := lk.titles.values[ks[|ks| - 1]];
      if TitlePhase(lk, q, ks, start) != r {
        AllHitsOfAppend(lk, r, aid);
      }
    }
  }

  /**
   * After the title loop, a tuple is among the results exactly when it was
   * there before or is the tuple of a title containing the query: a title
   * passed over by the duplicate check already has its tuple listed.
   */
  lemma {:induction false} TitlePhaseHits(lk: Lookup, q: string, ks: seq<string>, start: seq<Hit>, h: Hit)
    requires WellFormed(lk) && AllIn(ks, lk.titles.values) && AllHitsOf(lk, start)
    ensures h in TitlePhase(lk, q, ks, start) <==> h in start || TitleHitFrom(lk, q, ks, h)
  {
    if ks != [] {
      var init := ks[..|ks| - 1];
      TitlePrefix(lk, ks);
      TitlePhaseHits(lk, q, init, start, h);
      TitleHitFromStep(lk, q, ks, h);
      TitlePhaseAllHits(lk, q, init, start);
      var r := TitlePhase(lk, q, init, start);
      var title := ks[|ks| - 1];
      var aid := lk.titles.values[title];
      var x := HitOf(lk, aid);
      assert IsHitOf(lk, lk.titles.values, title, h) <==> h == x;
      var probe := Hit(aid, Some(title), lk.animeData.values[aid].anidbUrl);
      if TitleMatches(q, title) && probe in r {
        var i :| 0 <= i < |r| && r[i] == probe;
        assert r[i] == HitOf(lk, r[i].aid);
        assert probe == x;
      } else if TitleMatches(q, title) {
        InAppend(r, x, h);
      }
    }
  }

  /** The keys of a valid dict all have values. */
  lemma KeysAllIn<V>(d: Dict<string, V>)
    requires Valid(d)
    ensures AllIn(d.keys, d.values)
  {
    forall i | 0 <= i < |d.keys| ensures d.keys[i] in d.values {
      assert d.keys[i] in d.keys;
    }
  }

  /** The query is lower-cased first, so its case does not matter. */
  lemma SearchCaseInsensitive(lk: Lookup, query: string)
    requires WellFormed(lk)
    ensures Search(lk, query) == Search(lk, Lower(query))
  {
    LowerIdempotent(query);
  }

  /** The tuple a built index answers for `aid`: from the last element with that aid. */
  function IndexHit(elems: seq<AnimeElem>, aid: int): Hit
    requires LastWithAid(elems, aid).Some?
  {
    Hit(aid, RecordOf(aid, LastWithAid(elems, aid).value).mainTitle, AnidbUrl(aid))
  }

  /**
   * A query equal, up to case, to a short title answers that anime alone
   * (the last one carrying the short title), whatever else matches.
   */
  lemma SearchExactAbbreviation(elems: seq<AnimeElem>, query: string, aid: int)
    requires LastAidWith(elems, Lower(query), true) == Some(aid)
    ensures WellFormed(BuildIndex(elems)) && LastWithAid(elems, aid).Some?
    ensures Search(BuildIndex(elems), query) == [IndexHit(elems, aid)]
  {
    BuildIndexWellFormed(elems);
    TitleMapsOfIndex(elems, Lower(query));
    RecordsOfIndex(elems, aid);
  }

  /**
   * Otherwise, a query equal, up to case, to any title answers that anime
   * alone (the last one carrying the title).
   */
  lemma SearchExactTitle(elems: seq<AnimeElem>, query: string, aid: int)
    requires LastAidWith(elems, Lower(query), true) == None
    requires LastAidWith(elems, Lower(query), false) == Some(aid)
    ensures WellFormed(BuildIndex(elems)) && LastWithAid(elems, aid).Some?
    ensures Search(BuildIndex(elems), query) == [IndexHit(elems, aid)]
  {
    BuildIndexWellFormed(elems);
    TitleMapsOfIndex(elems, Lower(query));
    RecordsOfIndex(elems, aid);
  }

  /**
   * Without an exact match, every result is the tuple of an abbreviation
   * matching the query (either way round) or of a title containing it; and
   * when fewer than ten came back, every such tuple is among them.
   */
  lemma SearchSubstring(lk: Lookup, query: string, h: Hit)
    requires WellFormed(lk)
    requires Lower(query) !in lk.abbreviations.values && Lower(query) !in lk.titles.values
    ensures h in Search(lk, query) ==>
              AbbrevHitFrom(lk, Lower(query), lk.abbreviations.keys, h) ||
              TitleHitFrom(lk, Lower(query), lk.titles.keys, h)
    ensures |Search(lk, query)| < 10 &&
            (AbbrevHitFrom(lk, Lower(query), lk.abbreviations.keys, h) ||
             TitleHitFrom(lk, Lower(query), lk.titles.keys, h)) ==>
              h in Search(lk, query)
  {
    var q := Lower(query);
    KeysAllIn(lk.abbreviations);
    KeysAllIn(lk.titles);
    var a := AbbrevPhase(lk, q, lk.abbreviations.keys);
    AbbrevPhaseAllHits(lk, q, lk.abbreviations.keys);
    AbbrevPhaseHits(lk, q, lk.abbreviations.keys, h);
    TitlePhaseHits(lk, q, lk.titles.keys, a, h);
    var all := TitlePhase(lk, q, lk.titles.keys, a);
    assert Search(lk, query) == Take10(all);
    if h in Take10(all) {
      var i :| 0 <= i < |Take10(all)| && Take10(all)[i] == h;
      assert all[i] == h;
    }
  }

  /**
   * Without an exact match, the abbreviation hits come first, in key order:
   * the results start with the abbreviation loop's list, as much of it as
   * fits in ten.
   */
  lemma SearchAbbreviationsFirst(lk: Lookup, query: string)
    requires WellFormed(lk)
    requires Lower(query) !in lk.abbreviations.values && Lower(query) !in lk.titles.values
    ensures AllIn(lk.abbreviations.keys, lk.abbreviations.values)
    ensures var a := AbbrevPhase(lk, Lower(query), lk.abbreviations.keys);
            var n := if |a| < 10 then |a| else 10;
            n <= |Search(lk, query)| && Search(lk, query)[..n] == a[..n]
  {
    var q := Lower(query);
    KeysAllIn(lk.abbreviations);
    KeysAllIn(lk.titles);
    var a := AbbrevPhase(lk, q, lk.abbreviations.keys);
    TitlePhaseExtends(lk, q, lk.titles.keys, a);
    var all := TitlePhase(lk, q, lk.titles.keys, a);
    var n := if |a| < 10 then |a| else 10;
    assert Search(lk, query) == Take10(all);
    forall i | 0 <= i < n ensures Take10(all)[i] == a[i] {
      assert all[..|a|][i] == all[i];
    }
  }

  /**
   * The tuples of the matching titles, one per title in key order, with no
   * duplicate check.
   */
  function TitleHits(lk: Lookup, q: string, ks: seq<string>): seq<Hit>
    requires WellFormed(lk) && AllIn(ks, lk.titles.values)
  {
    if ks == [] then []
    else
      TitlePrefix(lk, ks);
      var r := TitleHits(lk, q, ks[..|ks| - 1]);
      var title := ks[|ks| - 1];
      if TitleMatches(q, title) then r + [HitOf(lk, lk.titles.values[title])] else r
  }

  /**
   * The duplicate check compares the (lower-cased) title key with the main
   * title a result holds, so it can only pass over a title that is its
   * anime's main title exactly. When no matching title is, the title loop
   * appends one tuple per matching title, duplicates included.
   */
  lemma {:induction false} TitlePhaseNoSuppression(lk: Lookup, q: string, ks: seq<string>, start: seq<Hit>)
    requires WellFormed(lk) && AllIn(ks, lk.titles.values) && AllHitsOf(lk, start)
    requires forall i :: 0 <= i < |ks| && TitleMatches(q, ks[i]) ==>
               lk.animeData.values[lk.titles.values[ks[i]]].mainTitle != Some(ks[i])
    ensures TitlePhase(lk, q, ks, start) == start + TitleHits(lk, q, ks)
  {
    if ks == [] {
      AppendEmpty(start);
    } else {
      var init := ks[..|ks| - 1];
      TitlePrefix(lk, ks);
      assert forall i :: 0 <= i < |init| ==> init[i] == ks[i];
      TitlePhaseNoSuppression(lk, q, init, start);
      TitlePhaseAllHits(lk, q, init, start);
      var r := TitlePhase(lk, q, init, start);
      var title := ks[|ks| - 1];
      var aid := lk.titles.values[title];
      if TitleMatches(q, title) {
        var probe := Hit(aid, Some(title), lk.animeData.values[aid].anidbUrl);
        assert probe !in r by {
          forall i | 0 <= i < |r| ensures r[i] != probe {
            assert r[i] == HitOf(lk, r[i].aid);
          }
        }
        AppendAssoc(start, TitleHits(lk, q, init), [HitOf(lk, aid)]);
      }
    }
  }
}
