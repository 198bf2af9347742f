/**
 * The fact payload both n8n scripts post, and the comma-separated list
 * parsing they use for tags and related entities:
 * `[t.strip() for t in line.split(",") if t.strip()] if line else []`.
 */
module Facts {
  import opened Wrappers
  import opened PyStr
  import opened Seqs

  /** A list item as the comprehension keeps it: non-empty, stripped, comma-free. */
  predicate IsListItem(t: string) {
    t != "" && IsStripped(t) && ',' !in t
  }

  predicate AllListItems(items: seq<string>) {
    forall i :: 0 <= i < |items| ==> IsListItem(items[i])
  }

  predicate AllNonBlankStripped(items: seq<string>) {
    forall i :: 0 <= i < |items| ==> items[i] != "" && IsStripped(items[i])
  }

  /** `[t.strip() for t in pieces if t.strip()]`: the non-blank pieces, stripped, in order. */
  function KeepItems(pieces: seq<string>): (items: seq<string>)
    ensures |items| <= |pieces|
    ensures AllNonBlankStripped(items)
  {
    if pieces == [] then []
    else
      var t := Strip(pieces[0]);
      var rest := KeepItems(pieces[1..]);
      if t == "" then rest
      else
        PrependItem(t, rest);
        [t] + rest
  }

  lemma PrependItem(t: string, items: seq<string>)
    requires t != "" && IsStripped(t) && AllNonBlankStripped(items)
    ensures AllNonBlankStripped([t] + items)
  {
  }

  /** Pieces without commas give items without commas. */
  lemma {:induction false} KeepItemsCommaFree(pieces: seq<string>)
    requires forall i :: 0 <= i < |pieces| ==> ',' !in pieces[i]
    ensures AllListItems(KeepItems(pieces))
  {
    if pieces != [] {
      KeepItemsCommaFree(pieces[1..]);
      var t := Strip(pieces[0]);
      if t != "" {
        StripKeepsAbsence(pieces[0], ',');
        PrependListItem(t, KeepItems(pieces[1..]));
      }
    }
  }

  lemma PrependListItem(t: string, items: seq<string>)
    requires IsListItem(t) && AllListItems(items)
    ensures AllListItems([t] + items)
  {
  }

  /** A comma-separated answer (already stripped by the caller) as a list of items. */
  function ParseList(line: string): (items: seq<string>)
    ensures AllListItems(items)
    ensures |items| <= Count(line, ',') + 1
  {
    if line == "" then []
    else
      KeepItemsCommaFree(Split(line, ','));
      KeepItems(Split(line, ','))
  }

  lemma {:induction false} KeepItemsConcat(a: seq<string>, b: seq<string>)
    ensures KeepItems(a + b) == KeepItems(a) + KeepItems(b)
  {
    if a != [] {
      assert (a + b)[1..] == a[1..] + b;
      assert (a + b)[0] == a[0];
      KeepItemsConcat(a[1..], b);
      var t := Strip(a[0]);
      if t != "" {
        AppendAssoc([t], KeepItems(a[1..]), KeepItems(b));
      }
    } else {
      assert a + b == b;
    }
  }

  /** The `if line else []` guard changes nothing: an empty answer splits into one blank piece. */
  lemma GuardRedundant(line: string)
    ensures ParseList(line) == KeepItems(Split(line, ','))
  {
    if line == "" {
      assert Split(line, ',') == [""];
      assert Strip("") == "";
      assert KeepItems([""]) == KeepItems([]);
    }
  }

  /** Items keep input order: parsing around a comma parses each side and concatenates. */
  lemma ParseListAround(a: string, b: string)
    ensures ParseList(a + "," + b) == ParseList(a) + ParseList(b)
  {
    assert a + "," + b == a + [','] + b;
    SplitAround(a, b, ',');
    KeepItemsConcat(Split(a, ','), Split(b, ','));
    GuardRedundant(a + "," + b);
    GuardRedundant(a);
    GuardRedundant(b);
  }

  /** A single item without commas parses to itself once stripped, or to nothing if blank. */
  lemma ParseSingle(piece: string)
    requires ',' !in piece
    ensures ParseList(piece) == if Strip(piece) == "" then [] else [Strip(piece)]
  {
    if piece != "" {
      SplitWithoutSeparator(piece, ',');
    }
  }

  /** One well-formed item, possibly after the space of a ", " separator, parses to itself. */
  lemma ParsePaddedItem(pad: string, x: string)
    requires pad == "" || pad == " "
    requires IsListItem(x)
    ensures ParseList(pad + x) == [x]
  {
    assert ',' !in pad + x;
    ParseSingle(pad + x);
    if pad == "" {
      assert pad + x == x;
      StripOfStripped(x);
    } else {
      StripAfterSpace(x);
    }
  }

  /** Where the separator of a join falls once the leading pad is moved into it. */
  lemma JoinShape(pad: string, x: string, tail: string)
    ensures pad + (x + ("," + pad) + tail) == (pad + x) + "," + (pad + tail)
  {
  }

  /**
   * Round trip: joining well-formed items with "," or with ", " and parsing
   * the result gives the items back.
   */
  lemma {:induction false} ParseListJoin(items: seq<string>, pad: string)
    requires pad == "" || pad == " "
    requires AllListItems(items)
    ensures ParseList(pad + Join(items, "," + pad)) == items
  {
    if items == [] {
      ParseSingle(pad);
    } else if |items| == 1 {
      ParsePaddedItem(pad, items[0]);
    } else {
      var x, rest := items[0], items[1..];
      var tail := Join(rest, "," + pad);
      JoinShape(pad, x, tail);
      ParseListAround(pad + x, pad + tail);
      ParsePaddedItem(pad, x);
      assert AllListItems(rest);
      ParseListJoin(rest, pad);
      FirstAndRest(items);
    }
  }

  /** `x if x else None`: a blank answer is sent as null. */
  function Optional(answer: string): (r: Option<string>)
    ensures r == None <==> answer == ""
    ensures r.Some? ==> r.value == answer
  {
    if answer == "" then None else Some(answer)
  }

  /**
   * The confidence a payload carries: a literal of the script (in hundredths,
   * so 0.95 is `Hundredths(95)`), or whatever `float(...)` makes of an answer.
   */
  datatype Confidence = Hundredths(n: nat) | FromAnswer(raw: string)

  /**
   * The JSON object posted to the webhook, field for field, without `id`
   * (a fresh uuid4) and `timestamp` (the clock).
   */
  datatype FactPayload = FactPayload(
    text: string,
    url: Option<string>,
    title: Option<string>,
    sourceType: string,
    confidence: Confidence,
    sourceUser: Option<string>,
    tags: seq<string>,
    relatedEntities: seq<string>)
}
