# Fact ingestion scripts: domain exclusion, list parsing and the AniDB title index

This project models, in Dafny, the deterministic logic of three Python
scripts that feed facts to an n8n "TeachHanna" webhook:

- `docs/scrapers/manual_fact_to_n8n.py`. It loads the excluded-domains
  file, takes the host of an entered URL and applies the exclusion rule,
  parses the comma-separated tags and related entities, fills in the
  payload defaults and stops on `quit`. The prompt loop is modelled as a
  run over the sequence of answers that `input()` returns; each is
  stripped as the script does.
- `docs/scrapers/scrape_to_n8n.py`. It loads the excluded-domains file,
  reads the batch settings (tags, related entities, `"web"`, 0.8), then
  walks the URL list in order. Each URL's `urlparse(url).netloc.lower()`
  is either skipped as excluded or fetched. A netloc with unbalanced
  brackets raises `ValueError` out of the call.
- `docs/scrapers/anime_lookup.py`:
  - `parse_anime_titles` builds three ordered dictionaries from the parsed
    `<anime>` elements:
    - lower-cased title to aid;
    - lower-cased short title to aid;
    - aid to record.
  - `search_anime` tries an exact abbreviation match, then an exact title
    match, then the two substring loops, and keeps the first 10 results.
  - `inject_to_knowledge_base` builds one payload per record and counts the
    webhook answers.

Python dictionaries iterate in insertion order. Here they are
`Dicts.Dict`: a map plus its key order. Re-assigning a key keeps its place.
`str.lower`, `strip`, `split`, `join`, `in` and `endswith` are modelled in
`PyStr`. The XML file, the JSON file and the webhook answers are
parameters: already-parsed values, a map of paths to contents, and a
sequence of responses.

The duplicate check of the title loop (`anime_lookup.py` line 176) is
modelled as written. It looks for the tuple `(aid, title, url)`, where
`title` is the lower-cased key, among results that hold
`(aid, main_title, url)`. So it only suppresses a title that equals its
anime's main title exactly. `AnimeLookup.TitlePhaseNoSuppression` states
the consequence: otherwise, the same anime is listed once per matching
title.

Two consequences of the code as written are part of the model:

- In `scrape_to_n8n.py`, the netloc is computed at line 68, outside the
  loop's `try`. A URL whose netloc raises therefore ends the whole batch.
- In `manual_fact_to_n8n.py`, nothing checks the fact text except the
  `quit` test at line 72, so a blank text is sent like any other.

## Model

| member | source | states |
|---|---|---|
| Exclusion.Normalize | docs/scrapers/manual_fact_to_n8n.py:49 | a stored domain is stripped, lower-case and no longer than the raw value |
| Exclusion.NormalizeIsTrimmedLower | docs/scrapers/manual_fact_to_n8n.py:49 | the stored domain is a slice of the raw value with only whitespace cut from both ends, lower-cased (`.strip().lower()`) |
| Exclusion.NormalizeEmptyIffBlank | docs/scrapers/manual_fact_to_n8n.py:49 | the stored domain is empty iff the raw value is all whitespace |
| Exclusion.CollectDomains | docs/scrapers/manual_fact_to_n8n.py:49 | the set comprehension raises iff some entry raises (a non-string `domain`; a string or list entry in which `'domain' in` holds; a number, boolean or null); otherwise all its members are normalized |
| Exclusion.CollectDomainsMembers | docs/scrapers/manual_fact_to_n8n.py:49 | when the comprehension completes, `d` is in the set iff some entry contributes exactly `d` |
| Exclusion.ExclusionsFromJson | docs/scrapers/manual_fact_to_n8n.py:47-52 | any exception inside the `try` gives the empty set; the result is always normalized |
| Exclusion.ReadExclusions | docs/scrapers/manual_fact_to_n8n.py:46-52 | an `open` failure propagates (it is outside the `try`); unparseable JSON gives the empty set; parsed JSON gives the comprehension's set over its data |
| Exclusion.ExclusionsOfRecords | docs/scrapers/manual_fact_to_n8n.py:49 | for a list of `{"domain": str}` records, the set is exactly the stripped, lower-cased domains of the records that have one |
| Exclusion.ReadExclusionsOfRecords | docs/scrapers/manual_fact_to_n8n.py:46-52 | reading a file that parsed to a list of `{"domain": str}` records gives exactly their stripped, lower-cased domains, both directions |
| Exclusion.OneBadEntryEmptiesTheSet | docs/scrapers/manual_fact_to_n8n.py:47-52 | one malformed entry loses the whole file: the set is empty |
| Exclusion.ExcludedIffLabelSuffix | docs/scrapers/manual_fact_to_n8n.py:67 | a host is excluded iff the whole host, or the part after one of its dots, is an entry (both directions) |
| Exclusion.SubdomainExcluded | docs/scrapers/manual_fact_to_n8n.py:67 | `prefix.entry` is excluded by `entry` |
| Exclusion.PartialLabelNotExcluded | docs/scrapers/manual_fact_to_n8n.py:67 | `prefix + entry` with no dot before the entry is not excluded by `{entry}` |
| Exclusion.PortedHostNotExcluded | docs/scrapers/scrape_to_n8n.py:69 | `entry:port` is not excluded by `{entry}` |
| Exclusion.EmptyExcludesNothing | docs/scrapers/manual_fact_to_n8n.py:62 | the empty set excludes no host |
| Exclusion.ExclusionMonotone | docs/scrapers/manual_fact_to_n8n.py:67 | adding entries never un-excludes a host |
| Exclusion.ExampleDotCom | docs/scrapers/manual_fact_to_n8n.py:67 | `sub.example.com` and `example.com` are excluded by `example.com`; `notexample.com` is not |
| ManualFact.LoadExcludedDomains | docs/scrapers/manual_fact_to_n8n.py:42-52 | no path, an empty path or a missing file gives the empty set; it raises iff an existing file cannot be opened; a readable, parsed file gives the comprehension's set over its data; the domains are normalized |
| ManualFact.SchemeSeparatorSlashes | docs/scrapers/manual_fact_to_n8n.py:66 | a URL containing "://" has at least two slashes, so `split('/')[2]` exists |
| ManualFact.HostOf | docs/scrapers/manual_fact_to_n8n.py:66 | with "://" the host holds no slash; without it the host is the lower-cased URL; the host is never longer than the URL |
| ManualFact.HostOfAbsoluteUrl | docs/scrapers/manual_fact_to_n8n.py:66 | for `scheme://host` followed by nothing or a path, the host is the authority, lower-cased |
| ManualFact.QuitInAnyCase | docs/scrapers/manual_fact_to_n8n.py:72 | `text.lower() == 'quit'` iff the text is four letters q, u, i, t in any case |
| ManualFact.MakePayload | docs/scrapers/manual_fact_to_n8n.py:75-97 | the text is kept; url and title are None iff blank and kept as answered otherwise; a blank source type becomes "manual" and a non-blank one is kept; a blank confidence gives 1.0 and a non-blank one is kept as its raw text (float parsing left out); sourceUser is None; tags and related entities are the parsed lists of their own answers |
| ManualFact.Step | docs/scrapers/manual_fact_to_n8n.py:63-105 | a round that goes on reads at least one and at most the remaining answers |
| ManualFact.AskRound | docs/scrapers/manual_fact_to_n8n.py:64-97 | one pass of the loop body reads its prompts in order and decides exactly what `Step` does |
| ManualFact.ManualFactEntryAndSend | docs/scrapers/manual_fact_to_n8n.py:54-105 | an `open` failure of the loader ends the call; otherwise the loop's events and end are those of `Session` on the loaded set |
| ManualFact.StepKept | docs/scrapers/manual_fact_to_n8n.py:64-97 | a skipped round names an excluded host; a sent payload has a non-excluded URL or none, a non-empty title or none, non-"quit" text, a non-empty source type, no user and list-item tags |
| ManualFact.SessionRoundsKept | docs/scrapers/manual_fact_to_n8n.py:63-105 | every round of the whole loop keeps those guarantees |
| ManualFact.NoExclusionsNoSkips | docs/scrapers/manual_fact_to_n8n.py:62-69 | with no exclusions, every round sends |
| ManualFact.QuitEndsSession | docs/scrapers/manual_fact_to_n8n.py:70-74 | "quit" as the fact text (any case), after a non-excluded URL, ends the loop with nothing sent, whatever follows |
| ManualFact.ExcludedUrlSkipsRound | docs/scrapers/manual_fact_to_n8n.py:65-69 | an excluded URL is skipped after its one answer, and the next answer starts the next round |
| Facts.KeepItems | docs/scrapers/manual_fact_to_n8n.py:76 | the kept pieces are non-blank and stripped, and no more than the pieces |
| Facts.KeepItemsCommaFree | docs/scrapers/manual_fact_to_n8n.py:76 | comma-free pieces give comma-free items |
| Facts.ParseList | docs/scrapers/manual_fact_to_n8n.py:76 | the items are stripped, non-empty and comma-free, at most one more than the commas |
| Facts.KeepItemsConcat | docs/scrapers/manual_fact_to_n8n.py:76 | filtering distributes over concatenation, so order is kept |
| Facts.GuardRedundant | docs/scrapers/manual_fact_to_n8n.py:76 | the `if tags else []` guard gives what the comprehension alone gives |
| Facts.ParseListAround | docs/scrapers/manual_fact_to_n8n.py:84 | parsing around a comma parses each side and concatenates, in input order |
| Facts.ParseSingle | docs/scrapers/manual_fact_to_n8n.py:84 | a comma-free answer gives its stripped self, or nothing when blank |
| Facts.ParseListJoin | docs/scrapers/manual_fact_to_n8n.py:84 | joining list items with "," or ", " and parsing gives the items back |
| Facts.Optional | docs/scrapers/manual_fact_to_n8n.py:89-90 | `x if x else None` is None iff the answer is blank, else the answer |
| ScrapeBatch.LoadExcludedDomains | docs/scrapers/scrape_to_n8n.py:36-46 | a path that does not exist gives the empty set; it raises iff an existing file cannot be opened; bad JSON gives the empty set; parsed JSON gives the comprehension's set over its data |
| ScrapeBatch.BatchExclusions | docs/scrapers/scrape_to_n8n.py:58 | no path or an empty path gives the empty set without touching the file system; a given path that parsed gives the comprehension's set over its data |
| ScrapeBatch.Netloc | docs/scrapers/scrape_to_n8n.py:68 | a returned netloc has balanced brackets (otherwise `urlsplit` raises) |
| ScrapeBatch.ScrapeHost | docs/scrapers/scrape_to_n8n.py:68 | it raises iff the netloc raises; otherwise the host is the netloc, lower-cased |
| ScrapeBatch.ScrapeHostOfAbsoluteUrl | docs/scrapers/scrape_to_n8n.py:68 | for `scheme://authority` followed by a delimiter or nothing, the host is the whole authority lower-cased, or a raise when its brackets are unbalanced |
| ScrapeBatch.NetlocOfAbsoluteUrl | docs/scrapers/scrape_to_n8n.py:68 | for `scheme://authority` followed by a delimiter or nothing, the netloc is the whole authority (port and userinfo kept), or raises when its brackets are unbalanced |
| ScrapeBatch.Settings | docs/scrapers/scrape_to_n8n.py:59-64 | tags and entities are list items, empty for blank answers; source type "web", confidence 0.8 |
| ScrapeBatch.VisitUrl | docs/scrapers/scrape_to_n8n.py:67-71 | one turn of the loop: a raising netloc ends the loop, otherwise the URL is skipped or fetched and the loop goes on |
| ScrapeBatch.ScrapeAndSend | docs/scrapers/scrape_to_n8n.py:49-79 | an `open` failure ends the call; otherwise the settings are parsed and the loop runs as `Batch` over the loaded set |
| ScrapeBatch.RunBatch | docs/scrapers/scrape_to_n8n.py:67-79 | the `for url in urls` loop computes exactly `Batch` |
| ScrapeBatch.VisitAllShape | docs/scrapers/scrape_to_n8n.py:67-71 | for any hosts: the k-th visit is of the k-th URL, and the loop stops early exactly at a raising netloc |
| ScrapeBatch.BatchVisitsEachUrl | docs/scrapers/scrape_to_n8n.py:67-74 | the k-th visit skips the k-th URL iff its host is excluded, else fetches it; the loop ends early iff, and where, a netloc raises |
| ScrapeBatch.FetchedAreKeptUrls | docs/scrapers/scrape_to_n8n.py:67-74 | when every netloc parses, the URLs fetched are the input filtered by "not excluded", in order |
| ScrapeBatch.NothingExcludedKeepsAll | docs/scrapers/scrape_to_n8n.py:69 | the filter with no exclusions keeps every URL |
| ScrapeBatch.NoPathFetchesAll | docs/scrapers/scrape_to_n8n.py:58 | without a path the set is empty and every URL is fetched, in order |
| ScrapeBatch.NoExclusionsNoSkips | docs/scrapers/scrape_to_n8n.py:67-71 | with no exclusions no visit is a skip |
| ScrapeBatch.PortDefeatsExclusion | docs/scrapers/scrape_to_n8n.py:68-69 | the host of `scheme://domain:port/path` is `domain:port`, which `{domain}` does not exclude |
| Dicts.Put | docs/scrapers/anime_lookup.py:128 | assignment replaces the value; a new key is appended to the iteration order and an existing one keeps its place; validity is kept |
| AnimeLookup.ParseAnimeTitles | docs/scrapers/anime_lookup.py:75-146 | a missing file gives the empty result; otherwise the nested loops build exactly `BuildIndex` of the elements |
| AnimeLookup.KeptEntries | docs/scrapers/anime_lookup.py:114-121 | the kept titles are no more than the titles |
| AnimeLookup.MainTitleRuleStep | docs/scrapers/anime_lookup.py:124-125 | adding a title updates the documented rule exactly as the `if` updates `main_title` |
| AnimeLookup.ScanEntriesAndMainTitle | docs/scrapers/anime_lookup.py:106-125 | the inner loop collects exactly the titles with text, in order; `main_title` is the last `main`, else the first title, and None iff no title has text |
| AnimeLookup.ScanKeys | docs/scrapers/anime_lookup.py:127-132 | the keys added are the lowered texts of the kept titles (short ones for abbreviations), mapped to the aid; other keys keep their values |
| AnimeLookup.BuildIndexWellFormed | docs/scrapers/anime_lookup.py:100-140 | the built index keeps abbreviation keys within title keys; every aid in either map has a record; each record sits under its own aid with its AniDB link; title keys are lower-case |
| AnimeLookup.TitleMapsOfIndex | docs/scrapers/anime_lookup.py:100-132 | a key is in `titles` (or `abbreviations`) iff some element with an aid has a kept title (a short one) lowering to it, and it maps to the last such element's aid |
| AnimeLookup.RecordsOfIndex | docs/scrapers/anime_lookup.py:134-140 | an aid has a record iff some element carries it, and the record comes from the last such element: kept titles, main-title rule, AniDB link |
| AnimeLookup.AidlessSkipped | docs/scrapers/anime_lookup.py:101-103 | elements without an aid change nothing: indexing only the others gives the same lookup |
| AnimeLookup.AnidbUrlInjective | docs/scrapers/anime_lookup.py:139 | different aids get different `https://anidb.net/?aid=` links |
| AnimeLookup.Take10 | docs/scrapers/anime_lookup.py:180 | `results[:10]` is a prefix of at most 10, the whole list when it is no longer |
| AnimeLookup.Search | docs/scrapers/anime_lookup.py:148-180 | at most 10 results |
| AnimeLookup.SearchAnime | docs/scrapers/anime_lookup.py:148-180 | the early returns and loops compute exactly `Search` |
| AnimeLookup.PartialAbbrevMatches | docs/scrapers/anime_lookup.py:168-172 | the abbreviation loop computes the abbreviation phase over the keys in order |
| AnimeLookup.PartialTitleMatches | docs/scrapers/anime_lookup.py:174-178 | the title loop, with its duplicate check, computes the title phase over the keys in order |
| AnimeLookup.AbbrevPhaseAllHits | docs/scrapers/anime_lookup.py:168-172 | every abbreviation result is the tuple of a record |
| AnimeLookup.AbbrevPhaseHits | docs/scrapers/anime_lookup.py:168-172 | a tuple is listed iff it belongs to an abbreviation that contains the query or is contained in it |
| AnimeLookup.TitlePhaseExtends | docs/scrapers/anime_lookup.py:174-178 | the title loop only appends, so the earlier results stay in front |
| AnimeLookup.TitlePhaseAllHits | docs/scrapers/anime_lookup.py:174-178 | every title result is the tuple of a record |
| AnimeLookup.TitlePhaseHits | docs/scrapers/anime_lookup.py:174-178 | after the loop, a tuple is listed iff it was before or belongs to a title containing the query |
| AnimeLookup.TitlePhaseNoSuppression | docs/scrapers/anime_lookup.py:176 | when no matching title equals its anime's main title, the loop appends one tuple per matching title, duplicates included |
| AnimeLookup.SearchCaseInsensitive | docs/scrapers/anime_lookup.py:153 | searching for a query and for its lower-case form gives the same results |
| AnimeLookup.SearchExactAbbreviation | docs/scrapers/anime_lookup.py:156-160 | a query equal (up to case) to a short title gives exactly the tuple of the last anime with that short title |
| AnimeLookup.SearchExactTitle | docs/scrapers/anime_lookup.py:162-166 | otherwise, a query equal (up to case) to a title gives exactly the tuple of the last anime with that title |
| AnimeLookup.SearchSubstring | docs/scrapers/anime_lookup.py:168-180 | without an exact match every result is a matching abbreviation's or title's tuple, and with fewer than 10 results every such tuple is listed |
| AnimeLookup.SearchAbbreviationsFirst | docs/scrapers/anime_lookup.py:168-180 | without an exact match the results start with the abbreviation hits in key order, as many as fit in 10 |
| AnimeInject.CountSuccesses | docs/scrapers/anime_lookup.py:210-219 | the success count is at most the number of posts |
| AnimeInject.InjectToKnowledgeBase | docs/scrapers/anime_lookup.py:182-221 | one payload per record, in `anime_data` order; the success count counts the 200/201 answers; success plus error counts equal the number of records |
| AnimeInject.AllSucceeded | docs/scrapers/anime_lookup.py:210-219 | every post counts as a success iff every answer was 200 or 201 |
| AnimeInject.NoneSucceeded | docs/scrapers/anime_lookup.py:210-219 | no post counts as a success iff no answer was 200 or 201 |
| AnimeInject.CountSuccessesAppend | docs/scrapers/anime_lookup.py:210-219 | the counts of two runs of posts add up |
| AnimeInject.PayloadTextLists | docs/scrapers/anime_lookup.py:195-199 | the text is the main title (or "None"), " - ", then the title texts joined by ", ", which parse back to the texts when they are list items |
| AnimeInject.PayloadOfIndex | docs/scrapers/anime_lookup.py:195-208 | an indexed record's payload links to its aid on AniDB, is titled by the main-title rule, relates the first five kept titles, and carries "anidb_metadata", 0.95, no user and the three tags |

## Left out

- HTTP is left out: the webhook POSTs, `requests.get` of the scraper and the Shoko functions `check_shoko_health` and `search_shoko`. A POST in `inject_to_knowledge_base` is its answer, given as a parameter.
- The manual script's POST is not modelled beyond the payload it receives, since its failures are caught either way.
- Library parsing is left out: the anime elements and the JSON exclusions file arrive already parsed. ElementTree and `json.load` are not part of this model, and neither is BeautifulSoup text and title extraction.
- `int(aid)` raising on a non-numeric aid is not modelled. An aid is given as `Option<int>`, where None stands for a missing or empty attribute.
- The `id` field (`uuid.uuid4()`) and the `timestamp` field (`datetime.utcnow()`) are not part of the payload: they are random and clock values.
- `float(confidence)` with its 1.0 fallback is not modelled: a non-blank answer is carried as its text.
- `input()`, `print` and the interactive menu of `anime_lookup.py`'s `main` are left out. The prompt answers are a sequence of lines, and running out of lines stands for `input()` raising.
- Lines 80-95 of `scrape_to_n8n.py` (the fact list and the send loop) are left out. They use `facts` and `payload`, which are never defined, and line 84 would raise NameError. A fetch is recorded as the URL it was made for.
- PyStr.Lower is ASCII only, where Python's `str.lower` maps all of Unicode.
- ScrapeBatch.Netloc leaves out two `urlsplit` checks: the NFKC check on netlocs with non-ASCII characters, and IPv6 address validation inside brackets. It keeps the bracket-balance `ValueError`.
- AnimeLookup.Search requires a well-formed index, which `parse_anime_titles` always builds. So the KeyError a hand-made lookup could raise is not modelled.
- AnimeLookup.ParseAnimeTitles returns None for a missing file, where Python returns `{}`. `main` then stops, so the model does not call `search_anime` on it.
- The progress print every 500 records in `inject_to_knowledge_base` is left out, since it only prints.
