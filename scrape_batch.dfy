/**
 * `scrape_to_n8n.py`: its exclusions loader, the batch settings asked for
 * once before the loop, and the `for url in urls` loop that skips URLs whose
 * netloc is excluded and fetches the others.
 *
 * The host compared is `urlparse(url).netloc.lower()`, so this module models
 * the part of `urllib.parse.urlsplit` that finds the netloc (the authority of
 * section 3.2 of RFC 3986, port and userinfo included) and its one
 * `ValueError` that escapes before the loop's `try`. What happens to a URL once
 * it is fetched (the request, the HTML parsing, the broken accumulation after
 * it) is not modelled: a fetch is recorded as the URL it was made for.
 */
module ScrapeBatch {
  import opened Wrappers
  import opened PyStr
  import opened Exclusion
  import opened Facts
  import opened Seqs

  /**
   * `load_excluded_domains_json` of this script, for the non-empty path its
   * caller passes: a path that does not exist gives the empty set.
   */
  function LoadExcludedDomains(fs: FileSystem, path: string): (r: Outcome<set<string>>)
    ensures !PathExists(fs, path) ==> r == Returned({})
    ensures r.Raised? <==> PathExists(fs, path) && fs[path] == Unopenable
    ensures PathExists(fs, path) && fs[path] == Readable(None) ==> r == Returned({})
    ensures PathExists(fs, path) && fs[path].Readable? && fs[path].parsed.Some? ==>
              r == Returned(ExclusionsFromJson(fs[path].parsed.value))
    ensures r.Returned? ==> AllNormalized(r.value)
  {
    if !PathExists(fs, path) then Returned({}) else ReadExclusions(fs, path)
  }

  /** The caller's `load_excluded_domains_json(path) if path else set()`. */
  function BatchExclusions(path: Option<string>, fs: FileSystem): (r: Outcome<set<string>>)
    ensures path == None || path == Some("") ==> r == Returned({})
    ensures r.Raised? <==> path.Some? && PathExists(fs, path.value) && fs[path.value] == Unopenable
    ensures path.Some? && PathExists(fs, path.value) && fs[path.value].Readable? && fs[path.value].parsed.Some? ==>
              r == Returned(ExclusionsFromJson(fs[path.value].parsed.value))
  {
    if path == None || path.value == "" then Returned({}) else LoadExcludedDomains(fs, path.value)
  }

  /** The C0 controls and the space, which `urlsplit` strips from the front of a URL. */
  predicate IsControlOrSpace(c: char) {
    c <= ' '
  }

  /** Tab, carriage return and line feed, which `urlsplit` deletes wherever they occur. */
  predicate IsUnsafeUrlChar(c: char) {
    c == '\t' || c == '\r' || c == '\n'
  }

  /** `url.lstrip(_WHATWG_C0_CONTROL_OR_SPACE)`. */
  function StripLeadingControls(url: string): (r: string)
    ensures |r| <= |url|
    ensures r == [] || !IsControlOrSpace(r[0])
  {
    if url != [] && IsControlOrSpace(url[0]) then StripLeadingControls(url[1..]) else url
  }

  /** `url.replace(b, "")` for each of tab, carriage return and line feed. */
  function RemoveUnsafe(url: string): (r: string)
    ensures |r| <= |url|
    ensures IsSafeUrlText(r)
  {
    if url == [] then []
    else if IsUnsafeUrlChar(url[0]) then RemoveUnsafe(url[1..])
    else [url[0]] + RemoveUnsafe(url[1..])
  }

  /** `s.find(c)`: the first index of `c`, or -1. */
  function Find(s: string, c: char): (i: int)
    ensures -1 <= i < |s|
    ensures i == -1 <==> c !in s
    ensures i >= 0 ==> s[i] == c && c !in s[..i]
  {
    if s == [] then -1
    else if s[0] == c then 0
    else
      var j := Find(s[1..], c);
      if j == -1 then -1
      else
        assert s[..j + 1] == [s[0]] + s[1..][..j];
        j + 1
  }

  predicate IsAsciiLetter(c: char) {
    'a' <= c <= 'z' || 'A' <= c <= 'Z'
  }

  /** `scheme_chars`: letters, digits, `+`, `-` and `.`. */
  predicate IsSchemeChar(c: char) {
    IsAsciiLetter(c) || IsDigit(c) || c == '+' || c == '-' || c == '.'
  }

  /** The text before the first colon is a scheme: it starts with a letter and uses scheme characters only. */
  predicate IsScheme(s: string) {
    s != [] && IsAsciiLetter(s[0]) && forall k :: 0 <= k < |s| ==> IsSchemeChar(s[k])
  }

  /** What follows the scheme and its colon, or the whole URL when there is no scheme. */
  function AfterScheme(url: string): string {
    var i := Find(url, ':');
    if i > 0 && IsScheme(url[..i]) then url[i + 1..] else url
  }

  predicate IsAuthorityDelimiter(c: char) {
    c == '/' || c == '?' || c == '#'
  }

  /** `_splitnetloc`: the first `/`, `?` or `#` at or after `k`, or the end of the string. */
  function AuthorityEnd(s: string, k: nat): (e: nat)
    requires k <= |s|
    ensures k <= e <= |s|
    ensures forall j :: k <= j < e ==> !IsAuthorityDelimiter(s[j])
    ensures e < |s| ==> IsAuthorityDelimiter(s[e])
    decreases |s| - k
  {
    if k == |s| || IsAuthorityDelimiter(s[k]) then k else AuthorityEnd(s, k + 1)
  }

  /**
   * `urlsplit(url).netloc`: the text between a leading `//` (after the
   * scheme, if any) and the next `/`, `?` or `#`; empty when there is no
   * `//`. A netloc with a `[` but no `]`, or the reverse, raises ValueError.
   */
  function Netloc(url: string): (r: Outcome<string>)
    ensures r.Returned? ==> ('[' in r.value <==> ']' in r.value)
  {
    var rest := AfterScheme(RemoveUnsafe(StripLeadingControls(url)));
    if |rest| >= 2 && rest[..2] == "//" then
      var netloc := rest[2..AuthorityEnd(rest, 2)];
      if ('[' in netloc) != (']' in netloc) then Raised else Returned(netloc)
    else Returned("")
  }

  /** `urlparse(url).netloc.lower()`. */
  function ScrapeHost(url: string): (r: Outcome<string>)
    ensures r.Raised? <==> Netloc(url).Raised?
    ensures r.Returned? ==> IsLower(r.value) && |r.value| == |Netloc(url).value|
    ensures r.Returned? ==> r.value == Lower(Netloc(url).value)
  {
    match Netloc(url)
    case Raised => Raised
    case Returned(netloc) => Returned(Lower(netloc))
  }

  lemma {:induction false} RemoveUnsafeOfSafe(s: string)
    requires IsSafeUrlText(s)
    ensures RemoveUnsafe(s) == s
  {
    if s != [] {
      RemoveUnsafeOfSafe(s[1..]);
      FirstAndRest(s);
    }
  }

  lemma FindAfterPrefix(a: string, c: char, b: string)
    requires c !in a
    ensures Find(a + [c] + b, c) == |a|
  {
    var s := a + [c] + b;
    assert s[|a|] == c;
    assert s[..|a|] == a;
  }

  /** A scheme and its colon are removed from the front of the URL. */
  lemma AfterSchemeOf(scheme: string, after: string)
    requires IsScheme(scheme)
    ensures AfterScheme(scheme + [':'] + after) == after
  {
    var url := scheme + [':'] + after;
    assert ':' !in scheme by {
      forall k | 0 <= k < |scheme| ensures scheme[k] != ':' {
        assert IsSchemeChar(scheme[k]);
      }
    }
    FindAfterPrefix(scheme, ':', after);
    assert url[..|scheme|] == scheme;
    assert url[|scheme| + 1..] == after;
  }

  lemma {:induction false} AuthorityEndOfHost(s: string, k: nat, n: nat)
    requires k + n <= |s|
    requires forall j :: k <= j < k + n ==> !IsAuthorityDelimiter(s[j])
    requires k + n == |s| || IsAuthorityDelimiter(s[k + n])
    ensures AuthorityEnd(s, k) == k + n
    decreases n
  {
    if n > 0 {
      AuthorityEndOfHost(s, k + 1, n - 1);
    }
  }

  /** No tab, carriage return or line feed anywhere in `s`. */
  predicate IsSafeUrlText(s: string) {
    forall k :: 0 <= k < |s| ==> !IsUnsafeUrlChar(s[k])
  }

  lemma SafeConcat(a: string, b: string)
    requires IsSafeUrlText(a) && IsSafeUrlText(b)
    ensures IsSafeUrlText(a + b)
  {
    forall k | 0 <= k < |a + b| ensures !IsUnsafeUrlChar((a + b)[k]) {
      if k >= |a| {
        assert (a + b)[k] == b[k - |a|];
      }
    }
  }

  lemma SchemeIsSafe(scheme: string)
    requires IsScheme(scheme)
    ensures IsSafeUrlText(scheme)
  {
    forall k | 0 <= k < |scheme| ensures !IsUnsafeUrlChar(scheme[k]) {
      assert IsSchemeChar(scheme[k]);
    }
  }

  lemma SeparatorIsSafe()
    ensures IsSafeUrlText("://")
  {
    var sep := "://";
    forall k | 0 <= k < |sep| ensures !IsUnsafeUrlChar(sep[k]) {
      assert sep[k] == ':' || sep[k] == '/';
    }
  }

  lemma StripLeadingOfVisible(s: string)
    requires s != [] && !IsControlOrSpace(s[0])
    ensures StripLeadingControls(s) == s
  {
  }

  /** An absolute URL of safe characters is left as it is by the clean-up before the split. */
  lemma CleanAbsoluteUrl(scheme: string, authority: string, rest: string)
    requires IsScheme(scheme)
    requires IsSafeUrlText(authority) && IsSafeUrlText(rest)
    ensures RemoveUnsafe(StripLeadingControls(scheme + "://" + authority + rest)) == scheme + "://" + authority + rest
  {
    var url := scheme + "://" + authority + rest;
    assert url[0] == scheme[0];
    StripLeadingOfVisible(url);
    SchemeIsSafe(scheme);
    SeparatorIsSafe();
    SafeConcat(scheme, "://");
    SafeConcat(scheme + "://", authority);
    SafeConcat(scheme + "://" + authority, rest);
    RemoveUnsafeOfSafe(url);
  }

  /** After `//`, the authority runs up to the delimiter that starts `rest`. */
  lemma AuthorityAfterSlashes(authority: string, rest: string)
    requires forall k :: 0 <= k < |authority| ==> !IsAuthorityDelimiter(authority[k])
    requires rest == "" || IsAuthorityDelimiter(rest[0])
    ensures |"//" + authority + rest| >= 2 + |authority|
    ensures AuthorityEnd("//" + authority + rest, 2) == 2 + |authority|
    ensures ("//" + authority + rest)[..2] == "//"
    ensures ("//" + authority + rest)[2..2 + |authority|] == authority
  {
    var after := "//" + authority + rest;
    forall j | 2 <= j < 2 + |authority| ensures !IsAuthorityDelimiter(after[j]) {
      assert after[j] == authority[j - 2];
    }
    if rest != "" {
      assert after[2 + |authority|] == rest[0];
    }
    AuthorityEndOfHost(after, 2, |authority|);
    assert after[..2] == "//";
    assert after[2..2 + |authority|] == authority;
  }

  /**
   * For `scheme://authority` followed by nothing or by a path, query or
   * fragment, the netloc is the whole authority (port and userinfo
   * included), unless its brackets are unbalanced.
   */
  lemma NetlocOfAbsoluteUrl(scheme: string, authority: string, rest: string)
    requires IsScheme(scheme)
    requires forall k :: 0 <= k < |authority| ==> !IsAuthorityDelimiter(authority[k])
    requires rest == "" || IsAuthorityDelimiter(rest[0])
    requires IsSafeUrlText(authority) && IsSafeUrlText(rest)
    ensures Netloc(scheme + "://" + authority + rest) ==
              if ('[' in authority) != (']' in authority) then Raised else Returned(authority)
  {
    var url := scheme + "://" + authority + rest;
    var after := "//" + authority + rest;
    CleanAbsoluteUrl(scheme, authority, rest);
    assert url == scheme + [':'] + after;
    AfterSchemeOf(scheme, after);
    AuthorityAfterSlashes(authority, rest);
  }

  /**
   * The host compared for `scheme://authority` followed by nothing or by a
   * path, query or fragment: the whole authority (port and userinfo
   * included), lower-cased, or a raise when its brackets do not pair up.
   */
  lemma ScrapeHostOfAbsoluteUrl(scheme: string, authority: string, rest: string)
    requires IsScheme(scheme)
    requires forall k :: 0 <= k < |authority| ==> !IsAuthorityDelimiter(authority[k])
    requires rest == "" || IsAuthorityDelimiter(rest[0])
    requires IsSafeUrlText(authority) && IsSafeUrlText(rest)
    ensures ScrapeHost(scheme + "://" + authority + rest) ==
              if ('[' in authority) != (']' in authority) then Raised else Returned(Lower(authority))
  {
    NetlocOfAbsoluteUrl(scheme, authority, rest);
  }

  /** What the loop does with one URL whose host it found. */
  datatype Visit =
    | Skipped(host: string)  // "Skipping excluded domain", then `continue`
    | Fetched(url: string)   // the `try` block: `requests.get(url, ...)` and what follows

  /** The URLs visited in order, and whether the loop ended on a URL whose netloc raised. */
  datatype BatchRun = BatchRun(visits: seq<Visit>, invalidUrl: bool)

  function VisitOf(excluded: set<string>, url: string, host: string): Visit {
    if IsExcluded(host, excluded) then Skipped(host) else Fetched(url)
  }

  /** The host the loop computes for each URL, in list order. */
  function UrlHosts(urls: seq<string>): (hosts: seq<Outcome<string>>)
    ensures |hosts| == |urls|
  {
    seq(|urls|, k requires 0 <= k < |urls| => ScrapeHost(urls[k]))
  }

  /**
   * The `for url in urls` loop, given the host of each URL: each URL in turn
   * is skipped or fetched, until one whose netloc raises.
   */
  function VisitAll(excluded: set<string>, urls: seq<string>, hosts: seq<Outcome<string>>): BatchRun
    requires |hosts| == |urls|
  {
    if urls == [] then BatchRun([], false)
    else
      match hosts[0]
      case Raised => BatchRun([], true)
      case Returned(h) =>
        var rest := VisitAll(excluded, urls[1..], hosts[1..]);
        BatchRun([VisitOf(excluded, urls[0], h)] + rest.visits, rest.invalidUrl)
  }

  /** The loop over `urls`. */
  function Batch(excluded: set<string>, urls: seq<string>): BatchRun {
    VisitAll(excluded, urls, UrlHosts(urls))
  }

  /** One turn of the loop, at the `i`th URL, when its host is found. */
  lemma BatchStep(excluded: set<string>, urls: seq<string>, hosts: seq<Outcome<string>>, i: nat, h: string)
    requires |hosts| == |urls| && i < |urls| && hosts[i] == Returned(h)
    ensures VisitAll(excluded, urls[i..], hosts[i..]).visits ==
              [VisitOf(excluded, urls[i], h)] + VisitAll(excluded, urls[i + 1..], hosts[i + 1..]).visits
    ensures VisitAll(excluded, urls[i..], hosts[i..]).invalidUrl ==
              VisitAll(excluded, urls[i + 1..], hosts[i + 1..]).invalidUrl
  {
    assert urls[i..][0] == urls[i] && hosts[i..][0] == hosts[i];
    DropDrop(urls, i, 1);
    DropDrop(hosts, i, 1);
  }

  /** The loop ends at the `i`th URL when its netloc raises. */
  lemma BatchStopsAt(excluded: set<string>, urls: seq<string>, hosts: seq<Outcome<string>>, i: nat)
    requires |hosts| == |urls| && i < |urls| && hosts[i].Raised?
    ensures VisitAll(excluded, urls[i..], hosts[i..]) == BatchRun([], true)
  {
    assert hosts[i..][0] == hosts[i];
  }

  /** The batch-wide settings: both comma lists, and the fixed source type and confidence. */
  datatype BatchSettings = BatchSettings(
    tags: seq<string>,
    relatedEntities: seq<string>,
    sourceType: string,
    confidence: Confidence)

  /** The two answers before the loop, each stripped and parsed; `source_type` and `confidence` are fixed. */
  function Settings(tagsAnswer: string, relatedAnswer: string): (s: BatchSettings)
    ensures AllListItems(s.tags) && AllListItems(s.relatedEntities)
    ensures s.sourceType == "web" && s.confidence == Hundredths(80)
    ensures Strip(tagsAnswer) == "" ==> s.tags == []
    ensures Strip(relatedAnswer) == "" ==> s.relatedEntities == []
  {
    BatchSettings(ParseList(Strip(tagsAnswer)), ParseList(Strip(relatedAnswer)), "web", Hundredths(80))
  }

  /**
   * The body of the loop for the `i`th URL: its host, and what is done with
   * it unless the netloc raised.
   */
  method VisitUrl(excluded: set<string>, urls: seq<string>, ghost hosts: seq<Outcome<string>>, i: nat)
    returns (host: Outcome<string>, visit: Visit)
    requires hosts == UrlHosts(urls) && i < |urls|
    ensures host.Raised? ==> VisitAll(excluded, urls[i..], hosts[i..]) == BatchRun([], true)
    ensures host.Returned? ==>
              VisitAll(excluded, urls[i..], hosts[i..]).visits ==
                [visit] + VisitAll(excluded, urls[i + 1..], hosts[i + 1..]).visits
    ensures host.Returned? ==>
              VisitAll(excluded, urls[i..], hosts[i..]).invalidUrl ==
                VisitAll(excluded, urls[i + 1..], hosts[i + 1..]).invalidUrl
  {
    host := ScrapeHost(urls[i]);
    assert host == hosts[i];
    if host.Raised? {
      BatchStopsAt(excluded, urls, hosts, i);
      return host, Fetched(urls[i]);
    }
    if IsExcluded(host.value, excluded) {
      visit := Skipped(host.value);
    } else {
      visit := Fetched(urls[i]);
    }
    BatchStep(excluded, urls, hosts, i, host.value);
  }

  datatype ScrapeRun = ScrapeRun(settings: BatchSettings, run: BatchRun)

  /**
   * `scrape_and_send_to_n8n` up to the end of its loop: the exclusions are
   * loaded (an `open` failure ends the call there), the batch settings are
   * read, then each URL is skipped or fetched in list order.
   */
  method ScrapeAndSend(urls: seq<string>, path: Option<string>, fs: FileSystem,
                       tagsAnswer: string, relatedAnswer: string)
    returns (r: Outcome<ScrapeRun>)
    ensures BatchExclusions(path, fs).Raised? ==> r == Raised
    ensures BatchExclusions(path, fs).Returned? ==>
              r == Returned(ScrapeRun(Settings(tagsAnswer, relatedAnswer),
                                      Batch(BatchExclusions(path, fs).value, urls)))
  {
    var loaded := if path.Some? && path.value != "" then LoadExcludedDomains(fs, path.value) else Returned({});
    if loaded.Raised? {
      return Raised;
    }
    var excluded := loaded.value;
    var tags := Strip(tagsAnswer);
    var tagList := if tags != "" then KeepItems(Split(tags, ',')) else [];
    var related := Strip(relatedAnswer);
    var relatedList := if related != "" then KeepItems(Split(related, ',')) else [];
    var settings := BatchSettings(tagList, relatedList, "web", Hundredths(80));

    var run := RunBatch(excluded, urls);
    return Returned(ScrapeRun(settings, run));
  }

  /** The `for url in urls` loop itself. */
  method RunBatch(excluded: set<string>, urls: seq<string>) returns (run: BatchRun)
    ensures run == Batch(excluded, urls)
  {
    ghost var hosts := UrlHosts(urls);
    ghost var whole := Batch(excluded, urls);
    var visits: seq<Visit> := [];
    var i := 0;
    DropNone(urls);
    DropNone(hosts);
    PrependEmpty(whole.visits);
    while i < |urls|
      invariant 0 <= i <= |urls|
      invariant whole.visits == visits + VisitAll(excluded, urls[i..], hosts[i..]).visits
      invariant whole.invalidUrl == VisitAll(excluded, urls[i..], hosts[i..]).invalidUrl
    {
      var host, visit := VisitUrl(excluded, urls, hosts, i);
      if host.Raised? {
        AppendEmpty(visits);
        return BatchRun(visits, true);
      }
      AppendAssoc(visits, [visit], VisitAll(excluded, urls[i + 1..], hosts[i + 1..]).visits);
      visits := visits + [visit];
      i := i + 1;
    }
    assert urls[i..] == [];
    AppendEmpty(visits);
    return BatchRun(visits, false);
  }

  /**
   * What the loop does, URL by URL, for any hosts: the `k`th visit belongs to
   * the `k`th URL, and the loop stops early exactly at a netloc that raised.
   */
  lemma {:induction false} VisitAllShape(excluded: set<string>, urls: seq<string>, hosts: seq<Outcome<string>>)
    requires |hosts| == |urls|
    ensures |VisitAll(excluded, urls, hosts).visits| <= |urls|
    ensures forall k :: 0 <= k < |VisitAll(excluded, urls, hosts).visits| ==>
              hosts[k].Returned? && VisitAll(excluded, urls, hosts).visits[k] == VisitOf(excluded, urls[k], hosts[k].value)
    ensures VisitAll(excluded, urls, hosts).invalidUrl <==> |VisitAll(excluded, urls, hosts).visits| < |urls|
    ensures VisitAll(excluded, urls, hosts).invalidUrl ==> hosts[|VisitAll(excluded, urls, hosts).visits|].Raised?
  {
    if urls != [] && hosts[0].Returned? {
      var rest := VisitAll(excluded, urls[1..], hosts[1..]);
      VisitAllShape(excluded, urls[1..], hosts[1..]);
      var r := VisitAll(excluded, urls, hosts);
      assert r.visits == [VisitOf(excluded, urls[0], hosts[0].value)] + rest.visits;
      forall k | 1 <= k < |r.visits|
        ensures hosts[k].Returned? && r.visits[k] == VisitOf(excluded, urls[k], hosts[k].value)
      {
        assert r.visits[k] == rest.visits[k - 1];
        assert hosts[1..][k - 1] == hosts[k] && urls[1..][k - 1] == urls[k];
      }
      if r.invalidUrl {
        assert hosts[1..][|rest.visits|] == hosts[|r.visits|];
      }
    }
  }

  /**
   * The loop over `urls`: the `k`th visit skips the `k`th URL when its host is
   * excluded and fetches it otherwise; the loop ends early (with the error
   * raised out of the call) exactly when a URL's netloc raises, at the first
   * such URL.
   */
  lemma BatchVisitsEachUrl(excluded: set<string>, urls: seq<string>)
    ensures |Batch(excluded, urls).visits| <= |urls|
    ensures forall k :: 0 <= k < |Batch(excluded, urls).visits| ==>
              ScrapeHost(urls[k]).Returned? &&
              Batch(excluded, urls).visits[k] ==
                (if IsExcluded(ScrapeHost(urls[k]).value, excluded) then Skipped(ScrapeHost(urls[k]).value) else Fetched(urls[k]))
    ensures Batch(excluded, urls).invalidUrl <==> |Batch(excluded, urls).visits| < |urls|
    ensures Batch(excluded, urls).invalidUrl ==> ScrapeHost(urls[|Batch(excluded, urls).visits|]).Raised?
  {
    var hosts := UrlHosts(urls);
    VisitAllShape(excluded, urls, hosts);
    forall k | 0 <= k < |urls| ensures hosts[k] == ScrapeHost(urls[k]) {
    }
  }

  /** The URLs of the fetch visits, in order. */
  function FetchedUrls(visits: seq<Visit>): (r: seq<string>)
    ensures |r| <= |visits|
  {
    if visits == [] then []
    else if visits[0].Fetched? then [visits[0].url] + FetchedUrls(visits[1..])
    else FetchedUrls(visits[1..])
  }

  /** The URLs whose hosts are not excluded, in order: a reference filter for the loop. */
  function KeptUrls(excluded: set<string>, urls: seq<string>): (r: seq<string>)
    requires forall k :: 0 <= k < |urls| ==> ScrapeHost(urls[k]).Returned?
    ensures |r| <= |urls|
  {
    if urls == [] then []
    else
      var rest := KeptUrls(excluded, urls[1..]);
      if IsExcluded(ScrapeHost(urls[0]).value, excluded) then rest else [urls[0]] + rest
  }

  lemma {:induction false} FetchedOfVisitAll(excluded: set<string>, urls: seq<string>, hosts: seq<Outcome<string>>)
    requires |hosts| == |urls|
    requires forall k :: 0 <= k < |urls| ==> hosts[k] == ScrapeHost(urls[k]) && hosts[k].Returned?
    ensures !VisitAll(excluded, urls, hosts).invalidUrl
    ensures FetchedUrls(VisitAll(excluded, urls, hosts).visits) == KeptUrls(excluded, urls)
  {
    if urls != [] {
      var tailUrls, tailHosts := urls[1..], hosts[1..];
      forall k | 0 <= k < |tailUrls| ensures tailHosts[k] == ScrapeHost(tailUrls[k]) && tailHosts[k].Returned? {
        assert tailHosts[k] == hosts[k + 1] && tailUrls[k] == urls[k + 1];
      }
      FetchedOfVisitAll(excluded, tailUrls, tailHosts);
      var rest := VisitAll(excluded, tailUrls, tailHosts);
      var v := VisitOf(excluded, urls[0], hosts[0].value);
      var visits := [v] + rest.visits;
      assert visits[1..] == rest.visits;
      assert FetchedUrls(visits) == (if v.Fetched? then [urls[0]] + FetchedUrls(rest.visits) else FetchedUrls(rest.visits));
    }
  }

  /**
   * When every URL has a netloc, the loop runs to the end and fetches exactly
   * the URLs whose hosts are not excluded, in their input order.
   */
  lemma FetchedAreKeptUrls(excluded: set<string>, urls: seq<string>)
    requires forall k :: 0 <= k < |urls| ==> ScrapeHost(urls[k]).Returned?
    ensures !Batch(excluded, urls).invalidUrl
    ensures FetchedUrls(Batch(excluded, urls).visits) == KeptUrls(excluded, urls)
  {
    FetchedOfVisitAll(excluded, urls, UrlHosts(urls));
  }

  /** With no exclusions, every URL is kept. */
  lemma {:induction false} NothingExcludedKeepsAll(urls: seq<string>)
    requires forall k :: 0 <= k < |urls| ==> ScrapeHost(urls[k]).Returned?
    ensures KeptUrls({}, urls) == urls
  {
    if urls != [] {
      assert forall k :: 0 <= k < |urls[1..]| ==> ScrapeHost(urls[1..][k]).Returned? by {
        forall k | 0 <= k < |urls[1..]| ensures ScrapeHost(urls[1..][k]).Returned? {
          assert urls[1..][k] == urls[k + 1];
        }
      }
      NothingExcludedKeepsAll(urls[1..]);
      EmptyExcludesNothing(ScrapeHost(urls[0]).value);
      FirstAndRest(urls);
    }
  }

  /**
   * Without an exclusions path (`None` or ""), nothing is skipped: when every
   * URL has a netloc, every URL is fetched, in order.
   */
  lemma NoPathFetchesAll(fs: FileSystem, path: Option<string>, urls: seq<string>)
    requires path == None || path == Some("")
    requires forall k :: 0 <= k < |urls| ==> ScrapeHost(urls[k]).Returned?
    ensures BatchExclusions(path, fs) == Returned({})
    ensures !Batch({}, urls).invalidUrl
    ensures FetchedUrls(Batch({}, urls).visits) == urls
  {
    FetchedAreKeptUrls({}, urls);
    NothingExcludedKeepsAll(urls);
  }

  /** A URL whose netloc is found is never skipped under an empty exclusions set. */
  lemma NoExclusionsNoSkips(urls: seq<string>)
    ensures forall k :: 0 <= k < |Batch({}, urls).visits| ==> Batch({}, urls).visits[k].Fetched?
  {
    BatchVisitsEachUrl({}, urls);
    forall k | 0 <= k < |Batch({}, urls).visits| ensures Batch({}, urls).visits[k].Fetched? {
      EmptyExcludesNothing(ScrapeHost(urls[k]).value);
    }
  }

  /** A character of a lower-case domain name: a letter, a digit, a dot or a hyphen. */
  predicate IsDomainChar(c: char) {
    'a' <= c <= 'z' || IsDigit(c) || c == '.' || c == '-'
  }

  /** `domain:port` is an authority with balanced (absent) brackets, lower-case already. */
  lemma PortedAuthority(domain: string, port: string)
    requires forall k :: 0 <= k < |domain| ==> IsDomainChar(domain[k])
    requires forall k :: 0 <= k < |port| ==> IsDigit(port[k])
    ensures forall k :: 0 <= k < |domain + ":" + port| ==>
              !IsAuthorityDelimiter((domain + ":" + port)[k]) && !IsUnsafeUrlChar((domain + ":" + port)[k]) &&
              (domain + ":" + port)[k] != '[' && (domain + ":" + port)[k] != ']'
    ensures IsSafeUrlText(domain + ":" + port) && IsLower(domain + ":" + port)
    ensures ':' !in domain
  {
    var authority := domain + ":" + port;
    forall k | 0 <= k < |authority|
      ensures IsDomainChar(authority[k]) || authority[k] == ':'
    {
      if k < |domain| {
        assert authority[k] == domain[k];
      } else if k > |domain| {
        assert authority[k] == port[k - |domain| - 1];
      }
    }
    assert ':' !in domain by {
      forall k | 0 <= k < |domain| ensures domain[k] != ':' {
        assert IsDomainChar(domain[k]);
      }
    }
  }

  /**
   * A URL whose netloc carries a port (`https://example.com:8080/x`) is not
   * skipped by the entry for its domain (`example.com`): the netloc keeps the
   * port, and the comparison is made on it.
   */
  lemma PortDefeatsExclusion(scheme: string, domain: string, port: string, path: string)
    requires IsScheme(scheme)
    requires forall k :: 0 <= k < |domain| ==> IsDomainChar(domain[k])
    requires forall k :: 0 <= k < |port| ==> IsDigit(port[k])
    requires path == "" || path[0] == '/'
    requires IsSafeUrlText(path)
    ensures ScrapeHost(scheme + "://" + domain + ":" + port + path) == Returned(domain + ":" + port)
    ensures !IsExcluded(domain + ":" + port, {domain})
  {
    var authority := domain + ":" + port;
    PortedAuthority(domain, port);
    assert ScrapeHost(scheme + "://" + authority + path) == Returned(authority) by {
      assert '[' !in authority && ']' !in authority;
      ScrapeHostOfAbsoluteUrl(scheme, authority, path);
      LowerOfLower(authority);
    }
    PortedUrlShape(scheme, domain, port, path);
    PortedHostNotExcluded(domain, port);
  }

  lemma PortedUrlShape(scheme: string, domain: string, port: string, path: string)
    ensures scheme + "://" + domain + ":" + port + path == scheme + "://" + (domain + ":" + port) + path
  {
    AppendAssoc(scheme + "://" + domain, ":", port);
    AppendAssoc(scheme + "://", domain, ":" + port);
    AppendAssoc(scheme + "://", domain + ":", port);
  }
}
