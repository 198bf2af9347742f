/**
 * `manual_fact_to_n8n.py`: its exclusions loader, and the decisions taken in
 * each round of the `while True` prompt loop of `manual_fact_entry_and_send`.
 *
 * The loop is driven by the operator's answers, given here as the sequence of
 * lines that successive `input()` calls return (each is `.strip()`ped by the
 * script); running out of lines is `input()` raising EOFError, which nothing
 * catches. The webhook POST is not modelled beyond the payload it is handed:
 * its failures are caught and the loop goes on either way.
 */
module ManualFact {
  import opened Wrappers
  import opened PyStr
  import opened Exclusion
  import opened Facts
  import opened Seqs

  /**
   * `load_excluded_domains_json` of this script: no path, an empty path or a
   * path that does not exist gives the empty set; an existing path is read.
   */
  function LoadExcludedDomains(path: Option<string>, fs: FileSystem): (r: Outcome<set<string>>)
    ensures path == None || path == Some("") ==> r == Returned({})
    ensures path.Some? && !PathExists(fs, path.value) ==> r == Returned({})
    ensures r.Raised? <==> path.Some? && PathExists(fs, path.value) && fs[path.value] == Unopenable
    ensures path.Some? && PathExists(fs, path.value) && fs[path.value].Readable? && fs[path.value].parsed.Some? ==>
              r == Returned(ExclusionsFromJson(fs[path.value].parsed.value))
    ensures r.Returned? ==> AllNormalized(r.value)
  {
    if path == None || path.value == "" || !PathExists(fs, path.value) then Returned({})
    else ReadExclusions(fs, path.value)
  }

  lemma {:induction false} CountOfSuffix(s: string, c: char, i: nat)
    requires i <= |s|
    ensures Count(s, c) >= Count(s[i..], c)
  {
    if i > 0 {
      CountOfSuffix(s[1..], c, i - 1);
      assert s[1..][i - 1..] == s[i..];
    }
  }

  lemma CountStep(s: string, c: char, j: nat)
    requires j < |s|
    ensures Count(s[j..], c) == (if s[j] == c then 1 else 0) + Count(s[j + 1..], c)
  {
    assert s[j..][0] == s[j];
    assert s[j..][1..] == s[j + 1..];
  }

  /** A URL containing "://" has at least two slashes, so `split('/')` has a third piece. */
  lemma SchemeSeparatorSlashes(url: string)
    requires Contains(url, "://")
    ensures Count(url, '/') >= 2
  {
    ContainsIffOccurs(url, "://");
    var i :| 0 <= i <= |url| - 3 && OccursAt(url, "://", i);
    var sep := url[i..i + 3];
    assert sep == "://";
    assert url[i + 1] == sep[1] == '/' && url[i + 2] == sep[2] == '/';
    CountOfSuffix(url, '/', i + 1);
    CountStep(url, '/', i + 1);
    CountStep(url, '/', i + 2);
  }

  lemma LowerKeepsAbsentSlash(s: string)
    requires '/' !in s
    ensures '/' !in Lower(s)
  {
    forall k | 0 <= k < |s| ensures Lower(s)[k] != '/' {
      assert s[k] != '/';
    }
  }

  /**
   * The host the script checks: with "://" in the URL, the third
   * `/`-separated piece, lower-cased (it always exists and holds no slash);
   * otherwise the whole URL, lower-cased.
   */
  function HostOf(url: string): (host: string)
    ensures Contains(url, "://") ==> '/' !in host
    ensures !Contains(url, "://") ==> host == Lower(url)
    ensures |host| <= |url|
  {
    if Contains(url, "://") then
      SchemeSeparatorSlashes(url);
      var piece := Split(url, '/')[2];
      LowerKeepsAbsentSlash(piece);
      JoinSplit(url, '/');
      PieceNoLongerThanJoin(Split(url, '/'), 2);
      Lower(piece)
    else Lower(url)
  }

  lemma {:induction false} PieceNoLongerThanJoin(parts: seq<string>, i: nat)
    requires i < |parts|
    ensures |parts[i]| <= |Join(parts, "/")|
  {
    if i > 0 {
      PieceNoLongerThanJoin(parts[1..], i - 1);
    }
  }

  /** The first piece of a split is everything before the first separator. */
  lemma SplitFirstPiece(x: string, rest: string, sep: char)
    requires sep !in x
    requires rest == "" || rest[0] == sep
    ensures Split(x + rest, sep)[0] == x
  {
    SplitWithoutSeparator(x, sep);
    if rest == "" {
      assert x + rest == x;
    } else {
      assert x + rest == x + [sep] + rest[1..];
      SplitAround(x, rest[1..], sep);
    }
  }

  /** Two separators in a row after a separator-free prefix give that prefix and an empty piece. */
  lemma SplitAfterDoubleSeparator(a: string, rest: string, sep: char)
    requires sep !in a
    ensures Split(a + [sep, sep] + rest, sep) == [a, ""] + Split(rest, sep)
  {
    assert a + [sep, sep] + rest == a + [sep] + ([] + [sep] + rest);
    SplitAround(a, [] + [sep] + rest, sep);
    SplitAround([], rest, sep);
    SplitWithoutSeparator(a, sep);
  }

  /**
   * For an absolute URL `scheme://host` followed by nothing or by a path,
   * the host found is the authority, lower-cased.
   */
  lemma HostOfAbsoluteUrl(scheme: string, host: string, path: string)
    requires '/' !in scheme && '/' !in host
    requires path == "" || path[0] == '/'
    ensures HostOf(scheme + "://" + host + path) == Lower(host)
  {
    var url := scheme + "://" + host + path;
    assert Contains(url, "://") by {
      assert OccursAt(url, "://", |scheme|);
      ContainsAt(url, "://", |scheme|);
    }
    assert Split(url, '/')[2] == host by {
      var a := scheme + ":";
      assert url == a + ['/', '/'] + (host + path);
      SplitAfterDoubleSeparator(a, host + path, '/');
      SplitFirstPiece(host, path, '/');
    }
  }

  /** The answer "quit" in any letter case: exactly four letters, each q, u, i, t of either case. */
  lemma QuitInAnyCase(text: string)
    ensures Lower(text) == "quit" <==>
      |text| == 4 && text[0] in "qQ" && text[1] in "uU" && text[2] in "iI" && text[3] in "tT"
  {
    if |text| == 4 {
      assert Lower(text) == [LowerChar(text[0]), LowerChar(text[1]), LowerChar(text[2]), LowerChar(text[3])];
    }
  }

  /** What one round of the loop does. */
  datatype Event =
    | Skipped(host: string)        // "Skipping excluded domain", then `continue`
    | Sent(payload: FactPayload)   // the payload handed to `requests.post`

  /** How the loop ends: the `break` on "quit", or `input()` raising at the end of the answers. */
  datatype SessionEnd = Quit | InputExhausted

  datatype StepResult =
    | Next(event: Event, consumed: nat)
    | Stop(end: SessionEnd)

  /** The payload built from the seven stripped answers of a round, with the script's defaults. */
  function MakePayload(url: string, title: string, text: string, tags: string,
                       sourceType: string, confidence: string, related: string): (p: FactPayload)
    ensures p.text == text
    ensures p.url == None <==> url == ""
    ensures url != "" ==> p.url == Some(url)
    ensures p.title == None <==> title == ""
    ensures title != "" ==> p.title == Some(title)
    ensures p.sourceType != "" && (sourceType == "" ==> p.sourceType == "manual")
    ensures sourceType != "" ==> p.sourceType == sourceType
    ensures confidence == "" ==> p.confidence == Hundredths(100)
    ensures confidence != "" ==> p.confidence == FromAnswer(confidence)
    ensures p.sourceUser == None
    ensures AllListItems(p.tags) && AllListItems(p.relatedEntities)
    ensures p.tags == ParseList(tags) && p.relatedEntities == ParseList(related)
  {
    FactPayload(
      text := text,
      url := Optional(url),
      title := Optional(title),
      sourceType := if sourceType == "" then "manual" else sourceType,
      confidence := if confidence == "" then Hundredths(100) else FromAnswer(confidence),
      sourceUser := None,
      tags := ParseList(tags),
      relatedEntities := ParseList(related))
  }

  /** The URL answer names a host the exclusions cover, so the round is skipped. */
  predicate SkipsUrl(excluded: set<string>, answer: string) {
    Strip(answer) != "" && IsExcluded(HostOf(Strip(answer)), excluded)
  }

  /**
   * One round, reading from the front of the remaining answers. An excluded
   * URL ends the round after one answer; "quit" as the fact text ends the
   * loop after three; otherwise the round reads seven answers and sends.
   */
  function Step(excluded: set<string>, answers: seq<string>): (s: StepResult)
    ensures s.Next? ==> 1 <= s.consumed <= |answers|
  {
    if |answers| < 1 then Stop(InputExhausted)
    else
      var url := Strip(answers[0]);
      if SkipsUrl(excluded, answers[0]) then Next(Skipped(HostOf(url)), 1)
      else if |answers| < 3 then Stop(InputExhausted)
      else
        var title := Strip(answers[1]);
        var text := Strip(answers[2]);
        if Lower(text) == "quit" then Stop(Quit)
        else if |answers| < 7 then Stop(InputExhausted)
        else
          var p := MakePayload(url, title, text, Strip(answers[3]), Strip(answers[4]),
                               Strip(answers[5]), Strip(answers[6]));
          Next(Sent(p), 7)
  }

  datatype SessionResult = SessionResult(events: seq<Event>, end: SessionEnd)

  /** The whole loop: the rounds in order until one stops it. */
  function Session(excluded: set<string>, answers: seq<string>): (r: SessionResult)
    decreases |answers|, 1
  {
    SessionAfter(excluded, answers, Step(excluded, answers))
  }

  /** The loop once the round at the front of `answers` has decided `step`. */
  function SessionAfter(excluded: set<string>, answers: seq<string>, step: StepResult): (r: SessionResult)
    requires step.Next? ==> 1 <= step.consumed <= |answers|
    decreases |answers|, 0
  {
    match step
    case Stop(end) => SessionResult([], end)
    case Next(event, n) =>
      var rest := Session(excluded, answers[n..]);
      SessionResult([event] + rest.events, rest.end)
  }

  lemma SessionAfterStep(excluded: set<string>, answers: seq<string>)
    requires Step(excluded, answers).Next?
    ensures Session(excluded, answers).events ==
              [Step(excluded, answers).event] + Session(excluded, answers[Step(excluded, answers).consumed..]).events
    ensures Session(excluded, answers).end == Session(excluded, answers[Step(excluded, answers).consumed..]).end
  {
  }

  /**
   * One pass of the `while True` body, for the round whose first answer is
   * `answers[pos]`: the prompts it reads, in the script's order, and what it
   * decides.
   */
  method AskRound(excluded: set<string>, answers: seq<string>, pos: nat) returns (step: StepResult)
    requires pos <= |answers|
    ensures step == Step(excluded, answers[pos..])
  {
    ghost var rest := answers[pos..];
    if pos == |answers| {
      return Stop(InputExhausted);
    }
    assert rest[0] == answers[pos];
    var url := Strip(answers[pos]);
    if url != "" {
      var host := HostOf(url);
      if IsExcluded(host, excluded) {
        return Next(Skipped(host), 1);
      }
    }
    if pos + 3 > |answers| {
      return Stop(InputExhausted);
    }
    assert rest[1] == answers[pos + 1] && rest[2] == answers[pos + 2];
    var title := Strip(answers[pos + 1]);
    var text := Strip(answers[pos + 2]);
    if Lower(text) == "quit" {
      return Stop(Quit);
    }
    if pos + 7 > |answers| {
      return Stop(InputExhausted);
    }
    assert rest[3] == answers[pos + 3] && rest[4] == answers[pos + 4];
    assert rest[5] == answers[pos + 5] && rest[6] == answers[pos + 6];
    var payload := MakePayload(url, title, text, Strip(answers[pos + 3]), Strip(answers[pos + 4]),
                               Strip(answers[pos + 5]), Strip(answers[pos + 6]));
    return Next(Sent(payload), 7);
  }

  /**
   * `manual_fact_entry_and_send`: the exclusions are loaded once before the
   * first prompt (an `open` failure ends the call there), then the rounds run.
   */
  method ManualFactEntryAndSend(path: Option<string>, fs: FileSystem, answers: seq<string>)
    returns (r: Outcome<SessionResult>)
    ensures LoadExcludedDomains(path, fs).Raised? ==> r == Raised
    ensures LoadExcludedDomains(path, fs).Returned? ==>
              r == Returned(Session(LoadExcludedDomains(path, fs).value, answers))
  {
    var loaded := if path.Some? && path.value != "" then LoadExcludedDomains(path, fs) else Returned({});
    assert loaded == LoadExcludedDomains(path, fs);
    if loaded.Raised? {
      return Raised;
    }
    var excluded := loaded.value;
    ghost var whole := Session(excluded, answers);
    var events: seq<Event> := [];
    var pos := 0;
    DropNone(answers);
    PrependEmpty(whole.events);
    while true
      invariant 0 <= pos <= |answers|
      invariant whole.events == events + Session(excluded, answers[pos..]).events
      invariant whole.end == Session(excluded, answers[pos..]).end
      decreases |answers| - pos
    {
      var step := AskRound(excluded, answers, pos);
      if step.Stop? {
        AppendEmpty(events);
        return Returned(SessionResult(events, step.end));
      }
      SessionAfterStep(excluded, answers[pos..]);
      DropDrop(answers, pos, step.consumed);
      AppendAssoc(events, [step.event], Session(excluded, answers[pos + step.consumed..]).events);
      events := events + [step.event];
      pos := pos + step.consumed;
    }
  }

  /** What every round promises: skips are of excluded hosts, sends carry non-excluded URLs and the defaults. */
  ghost predicate RoundKept(excluded: set<string>, event: Event) {
    match event
    case Skipped(host) => IsExcluded(host, excluded)
    case Sent(p) =>
      && (p.url.Some? ==> p.url.value != "" && !IsExcluded(HostOf(p.url.value), excluded))
      && p.title != Some("")
      && Lower(p.text) != "quit"
      && p.sourceType != ""
      && p.sourceUser == None
      && AllListItems(p.tags) && AllListItems(p.relatedEntities)
  }

  lemma StepKept(excluded: set<string>, answers: seq<string>)
    requires Step(excluded, answers).Next?
    ensures RoundKept(excluded, Step(excluded, answers).event)
  {
    var url := Strip(answers[0]);
    if !(url != "" && IsExcluded(HostOf(url), excluded)) {
      var p := Step(excluded, answers).event.payload;
      assert p.url == Optional(url);
    }
  }

  lemma {:induction false} SessionRoundsKept(excluded: set<string>, answers: seq<string>)
    ensures forall i :: 0 <= i < |Session(excluded, answers).events| ==>
              RoundKept(excluded, Session(excluded, answers).events[i])
    decreases |answers|
  {
    var step := Step(excluded, answers);
    if step.Next? {
      var later := answers[step.consumed..];
      SessionRoundsKept(excluded, later);
      StepKept(excluded, answers);
      SessionAfterStep(excluded, answers);
      var events := Session(excluded, answers).events;
      assert events == [step.event] + Session(excluded, later).events;
      forall i | 0 <= i < |events| ensures RoundKept(excluded, events[i]) {
        if i > 0 {
          assert events[i] == Session(excluded, later).events[i - 1];
        }
      }
    }
  }

  /** With no exclusions nothing is ever skipped. */
  lemma {:induction false} NoExclusionsNoSkips(answers: seq<string>)
    ensures forall i :: 0 <= i < |Session({}, answers).events| ==> Session({}, answers).events[i].Sent?
    decreases |answers|
  {
    SessionRoundsKept({}, answers);
    forall i | 0 <= i < |Session({}, answers).events|
      ensures Session({}, answers).events[i].Sent?
    {
      var e := Session({}, answers).events[i];
      if e.Skipped? {
        EmptyExcludesNothing(e.host);
      }
    }
  }

  /**
   * "quit" as the fact text, in any case, ends the loop with nothing sent,
   * whatever answers would have followed.
   */
  lemma QuitEndsSession(excluded: set<string>, url: string, title: string, text: string, later: seq<string>)
    requires Strip(url) == "" || !IsExcluded(HostOf(Strip(url)), excluded)
    requires Lower(Strip(text)) == "quit"
    ensures Session(excluded, [url, title, text] + later) == SessionResult([], Quit)
  {
    var answers := [url, title, text] + later;
    assert answers[0] == url && answers[2] == text;
  }

  /** An excluded URL is skipped after its one answer: the next answer starts the next round. */
  lemma ExcludedUrlSkipsRound(excluded: set<string>, url: string, later: seq<string>)
    requires Strip(url) != "" && IsExcluded(HostOf(Strip(url)), excluded)
    ensures Session(excluded, [url] + later).events ==
              [Skipped(HostOf(Strip(url)))] + Session(excluded, later).events
  {
    assert ([url] + later)[1..] == later;
  }
}
