/**
 * `inject_to_knowledge_base`: one fact payload per anime record, posted in
 * the order the records were indexed, with successes and errors counted.
 * The webhook's answers are a parameter: the `i`th post gets `responses[i]`.
 */
module AnimeInject {
  import opened Wrappers
  import opened PyStr
  import opened Seqs
  import opened Dicts
  import opened Facts
  import opened AnimeLookup

  /** What one post came back with: a status code, or an exception from the request. */
  datatype Response = Status(code: int) | RequestFailed

  /** `response.status_code in [200, 201]`; a failed request is an error too. */
  predicate IsSuccess(r: Response) {
    r.Status? && (r.code == 200 || r.code == 201)
  }

  /** The `success_count` after posting with the answers `rs`. */
  function CountSuccesses(rs: seq<Response>): (n: nat)
    ensures n <= |rs|
  {
    if rs == [] then 0
    else CountSuccesses(rs[..|rs| - 1]) + (if IsSuccess(rs[|rs| - 1]) then 1 else 0)
  }

  /** `[t['text'] for t in anime_data['titles']]` */
  function TitleTexts(entries: seq<TitleEntry>): (r: seq<string>)
    ensures |r| == |entries|
    ensures forall i :: 0 <= i < |r| ==> r[i] == entries[i].text
  {
    seq(|entries|, i requires 0 <= i < |entries| => entries[i].text)
  }

  /** How an f-string renders the main title: `None` when there is none. */
  function MainTitleText(m: Option<string>): string {
    if m.Some? then m.value else "None"
  }

  /** The payload for one anime record (without its uuid and timestamp). */
  function AnimePayload(rec: AnimeRecord): FactPayload {
    var texts := TitleTexts(rec.titles);
    FactPayload(
      MainTitleText(rec.mainTitle) + " - " + Join(texts, ", "),
      Some(rec.anidbUrl),
      rec.mainTitle,
      "anidb_metadata",
      Hundredths(95),
      None,
      ["anime", "anidb", "metadata"],
      if |texts| <= 5 then texts else texts[..5])
  }

  predicate AllRecorded(data: Dict<int, AnimeRecord>, ks: seq<int>) {
    forall i :: 0 <= i < |ks| ==> ks[i] in data.values
  }

  /** The payloads for the records of the aids `ks`, in that order. */
  function Payloads(data: Dict<int, AnimeRecord>, ks: seq<int>): (r: seq<FactPayload>)
    requires AllRecorded(data, ks)
    ensures |r| == |ks|
    ensures forall i :: 0 <= i < |ks| ==> r[i] == AnimePayload(data.values[ks[i]])
  {
    seq(|ks|, i requires 0 <= i < |ks| => AnimePayload(data.values[ks[i]]))
  }

  lemma RecordedKeys(data: Dict<int, AnimeRecord>)
    requires Valid(data)
    ensures AllRecorded(data, data.keys)
  {
    forall i | 0 <= i < |data.keys| ensures data.keys[i] in data.values {
      assert data.keys[i] in data.keys;
    }
  }

  /**
   * The loop of `inject_to_knowledge_base`: every record's payload is sent,
   * in `anime_data` order; only a 200 or 201 answer is a success, anything
   * else (other codes, failed requests) an error, so the two counts add up
   * to the number of records.
   */
  method InjectToKnowledgeBase(lk: Lookup, responses: seq<Response>)
    returns (sent: seq<FactPayload>, successCount: nat, errorCount: nat)
    requires Valid(lk.animeData) && |responses| == |lk.animeData.keys|
    ensures AllRecorded(lk.animeData, lk.animeData.keys)
    ensures sent == Payloads(lk.animeData, lk.animeData.keys)
    ensures successCount == CountSuccesses(responses)
    ensures successCount + errorCount == |lk.animeData.keys|
  {
    RecordedKeys(lk.animeData);
    var aids := lk.animeData.keys;
    sent, successCount, errorCount := [], 0, 0;
    var i := 0;
    while i < |aids|
      invariant 0 <= i <= |aids|
      invariant AllRecorded(lk.animeData, aids[..i])
      invariant sent == Payloads(lk.animeData, aids[..i])
      invariant successCount == CountSuccesses(responses[..i])
      invariant successCount + errorCount == i
    {
      TakeStep(aids, i);
      TakeStep(responses, i);
      var anime := lk.animeData.values[aids[i]];
      sent := sent + [AnimePayload(anime)];
      match responses[i] {
        case Status(code) =>
          if code == 200 || code == 201 {
            successCount := successCount + 1;
          } else {
            errorCount := errorCount + 1;
          }
        case RequestFailed =>
          errorCount := errorCount + 1;
      }
      i := i + 1;
    }
    TakeAll(aids);
    TakeAll(responses);
  }

  /** Every post succeeded exactly when every answer was 200 or 201. */
  lemma {:induction false} AllSucceeded(rs: seq<Response>)
    ensures CountSuccesses(rs) == |rs| <==> forall i :: 0 <= i < |rs| ==> IsSuccess(rs[i])
  {
    if rs != [] {
      var init := rs[..|rs| - 1];
      AllSucceeded(init);
      assert forall i :: 0 <= i < |init| ==> init[i] == rs[i];
    }
  }

  /** No post succeeded exactly when no answer was 200 or 201. */
  lemma {:induction false} NoneSucceeded(rs: seq<Response>)
    ensures CountSuccesses(rs) == 0 <==> forall i :: 0 <= i < |rs| ==> !IsSuccess(rs[i])
  {
    if rs != [] {
      var init := rs[..|rs| - 1];
      NoneSucceeded(init);
      assert forall i :: 0 <= i < |init| ==> init[i] == rs[i];
    }
  }

  /** Counting over two runs of posts adds up. */
  lemma {:induction false} CountSuccessesAppend(a: seq<Response>, b: seq<Response>)
    ensures CountSuccesses(a + b) == CountSuccesses(a) + CountSuccesses(b)
    decreases |b|
  {
    if b == [] {
      AppendEmpty(a);
    } else {
      var b0 := b[..|b| - 1];
      CountSuccessesAppend(a, b0);
      assert (a + b)[..|a + b| - 1] == a + b0;
      assert (a + b)[|a + b| - 1] == b[|b| - 1];
    }
  }

  /**
   * Round trip for the payload text: after the main title and " -", the
   * rest is the title texts joined by ", ", and parsing it as a
   * comma-separated list gives the texts back when none is blank, padded
   * or holds a comma.
   */
  lemma PayloadTextLists(rec: AnimeRecord)
    requires AllListItems(TitleTexts(rec.titles))
    ensures var head := MainTitleText(rec.mainTitle) + " -";
            |head| <= |AnimePayload(rec).text| &&
            AnimePayload(rec).text[..|head|] == head &&
            ParseList(AnimePayload(rec).text[|head|..]) == TitleTexts(rec.titles)
  {
    var head := MainTitleText(rec.mainTitle) + " -";
    var tail := " " + Join(TitleTexts(rec.titles), ", ");
    var text := AnimePayload(rec).text;
    assert "," + " " == ", ";
    assert MainTitleText(rec.mainTitle) + " - " == head + " ";
    AppendAssoc(head, " ", Join(TitleTexts(rec.titles), ", "));
    assert text == head + tail;
    assert text[|head|..] == tail;
    ParseListJoin(TitleTexts(rec.titles), " ");
  }

  /**
   * For a built index, the payload of an aid's record: it links to that aid
   * on AniDB, is titled with the main title of the last element with that
   * aid, relates the first five of that element's kept titles, and carries
   * the fixed source type, confidence 0.95, no user and the three tags.
   */
  lemma PayloadOfIndex(elems: seq<AnimeElem>, aid: int)
    requires LastWithAid(elems, aid).Some?
    ensures aid in BuildIndex(elems).animeData.values
    ensures var p := AnimePayload(BuildIndex(elems).animeData.values[aid]);
            var kept := KeptEntries(LastWithAid(elems, aid).value.titles);
            p.url == Some("https://anidb.net/?aid=" + IntToStr(aid)) &&
            p.title == MainTitleRule(kept) &&
            |p.relatedEntities| == (if |kept| < 5 then |kept| else 5) &&
            (forall i :: 0 <= i < |p.relatedEntities| ==> p.relatedEntities[i] == kept[i].text) &&
            p.sourceType == "anidb_metadata" && p.confidence == Hundredths(95) && p.sourceUser == None &&
            p.tags == ["anime", "anidb", "metadata"]
  {
    RecordsOfIndex(elems, aid);
  }
}
