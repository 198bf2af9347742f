/**
 * The domain-exclusion logic that `manual_fact_to_n8n.py` and
 * `scrape_to_n8n.py` share: turning a parsed exclusions file into a set of
 * domains, and deciding whether a host is excluded by that set.
 *
 * Both scripts define their own `load_excluded_domains_json`; they differ only
 * in how they treat a missing path, so each script's module keeps that guard
 * and this module holds what they have in common: the `set(...)` comprehension
 * over the file's entries, the `try`/`except` around it, and the `any(...)`
 * predicate used inside the per-URL loops.
 */
module Exclusion {
  import opened Wrappers
  import opened PyStr

  /** A value as `json.load` returns it (numbers carry no payload: only their kind matters here). */
  datatype Json =
    | JNull
    | JBool(b: bool)
    | JNumber
    | JStr(s: string)
    | JArr(items: seq<Json>)
    | JObj(fields: map<string, Json>)

  /** What opening the exclusions path gives: `open` fails, or the text is read and parsed (or not). */
  datatype FileState =
    | Unopenable               // `open(...)` raises (a directory, no permission, ...)
    | Readable(parsed: Option<Json>)  // `json.load` returned a value, or raised (None)

  /** The files that `os.path.exists` reports; `exists("")` is always false. */
  type FileSystem = map<string, FileState>

  predicate PathExists(fs: FileSystem, path: string) {
    path != "" && path in fs
  }

  /** An entry of the exclusions set as the comprehension stores it: stripped, then lower-cased. */
  function Normalize(domain: string): (r: string)
    ensures IsStripped(r) && IsLower(r)
    ensures |r| <= |domain|
  {
    LowerKeepsStripped(Strip(domain));
    Lower(Strip(domain))
  }

  /**
   * What `Normalize` keeps: the raw value with its leading and trailing
   * whitespace cut off, lower-cased.
   */
  lemma NormalizeIsTrimmedLower(domain: string)
    ensures exists i :: 0 <= i && i + |Normalize(domain)| <= |domain| &&
              Normalize(domain) == Lower(domain[i..i + |Normalize(domain)|]) &&
              IsBlank(domain[..i]) && IsBlank(domain[i + |Normalize(domain)|..])
  {
    var r := Strip(domain);
    StripIsTrim(domain);
    var i :| IsTrimOf(r, domain, i);
    assert IsBlank(domain[..i]) by {
      forall k | 0 <= k < i ensures IsSpace(domain[..i][k]) {
        assert domain[..i][k] == domain[k];
      }
    }
    var tail := domain[i + |r|..];
    assert IsBlank(tail) by {
      forall k | 0 <= k < |tail| ensures IsSpace(tail[k]) {
        assert tail[k] == domain[i + |r| + k];
      }
    }
  }

  /** A stored domain is empty exactly when the raw value is all whitespace. */
  lemma NormalizeEmptyIffBlank(domain: string)
    ensures Normalize(domain) == "" <==> IsBlank(domain)
  {
    StripEmptyIffBlank(domain);
  }

  predicate IsNormalized(domain: string) {
    IsStripped(domain) && IsLower(domain)
  }

  /**
   * One step of `set(entry['domain'].strip().lower() for entry in data if 'domain' in entry)`:
   * the entry's contribution, nothing (the `if` filters it out), or an exception.
   */
  function EntryDomain(entry: Json): Outcome<Option<string>> {
    match entry
    case JObj(fields) =>
      if "domain" !in fields then Returned(None)
      else if fields["domain"].JStr? then Returned(Some(Normalize(fields["domain"].s)))
      else Raised  // `.strip()` on a value that is not a string
    case JStr(s) =>
      // `'domain' in s` is a substring test; when it holds, `s['domain']` raises
      if Contains(s, "domain") then Raised else Returned(None)
    case JArr(items) =>
      // `'domain' in items` is membership; when it holds, `items['domain']` raises
      if JStr("domain") in items then Raised else Returned(None)
    case _ =>
      Raised  // `'domain' in` a number, a boolean or None raises TypeError
  }

  /** Some entry of the array contributes `d` to the set. */
  predicate HasDomainEntry(entries: seq<Json>, d: string) {
    exists i | 0 <= i < |entries| :: EntryDomain(entries[i]) == Returned(Some(d))
  }

  predicate AllNormalized(domains: set<string>) {
    forall d :: d in domains ==> IsNormalized(d)
  }

  /**
   * The comprehension over a JSON array: it raises iff some entry raises, and
   * otherwise holds normalized domains (exactly which: `CollectDomainsMembers`).
   */
  function CollectDomains(entries: seq<Json>): (r: Outcome<set<string>>)
    ensures r.Returned? <==> forall i :: 0 <= i < |entries| ==> EntryDomain(entries[i]).Returned?
    ensures r.Returned? ==> AllNormalized(r.value)
  {
    if entries == [] then Returned({})
    else
      var rest := CollectDomains(entries[1..]);
      match EntryDomain(entries[0])
      case Raised => Raised
      case Returned(d) =>
        if rest.Raised? then Raised
        else Returned(rest.value + (if d.Some? then {d.value} else {}))
  }

  /** When the comprehension completes, its set holds exactly the domains the entries contribute. */
  lemma {:induction false} CollectDomainsMembers(entries: seq<Json>, d: string)
    requires CollectDomains(entries).Returned?
    ensures d in CollectDomains(entries).value <==> HasDomainEntry(entries, d)
  {
    if entries != [] {
      var rest := entries[1..];
      CollectDomainsMembers(rest, d);
      if HasDomainEntry(rest, d) {
        var j :| 0 <= j < |rest| && EntryDomain(rest[j]) == Returned(Some(d));
        assert entries[j + 1] == rest[j];
      }
      if HasDomainEntry(entries, d) {
        var j :| 0 <= j < |entries| && EntryDomain(entries[j]) == Returned(Some(d));
        if j > 0 {
          assert rest[j - 1] == entries[j];
        }
      }
    }
  }

  /**
   * The comprehension over whatever `json.load` returned. Iterating a dict
   * yields its keys and iterating a string its characters, so both give an
   * empty set unless a key contains "domain" (then indexing it raises);
   * iterating a number, a boolean or None raises.
   */
  function DomainsOf(data: Json): Outcome<set<string>> {
    match data
    case JArr(items) => CollectDomains(items)
    case JObj(fields) => if exists k | k in fields :: Contains(k, "domain") then Raised else Returned({})
    case JStr(_) => Returned({})
    case _ => Raised
  }

  /** The `try`/`except` around the comprehension: any exception gives the empty set. */
  function ExclusionsFromJson(data: Json): (r: set<string>)
    ensures DomainsOf(data).Raised? ==> r == {}
    ensures AllNormalized(r)
  {
    match DomainsOf(data)
    case Returned(s) => s
    case Raised => {}
  }

  /**
   * Reading an existing exclusions path: `open` sits outside the `try`, so its
   * failure propagates to the caller; a parse failure gives the empty set.
   */
  function ReadExclusions(fs: FileSystem, path: string): (r: Outcome<set<string>>)
    requires PathExists(fs, path)
    ensures r.Raised? <==> fs[path] == Unopenable
    ensures fs[path] == Readable(None) ==> r == Returned({})
    ensures fs[path].Readable? && fs[path].parsed.Some? ==>
              r == Returned(ExclusionsFromJson(fs[path].parsed.value))
  {
    match fs[path]
    case Unopenable => Raised
    case Readable(None) => Returned({})
    case Readable(Some(data)) => Returned(ExclusionsFromJson(data))
  }

  /** A well-formed record of the exclusions file: an object whose `domain`, if present, is a string. */
  predicate IsDomainRecord(entry: Json) {
    entry.JObj? && ("domain" in entry.fields ==> entry.fields["domain"].JStr?)
  }

  /** The normalized `domain` of a well-formed record, if it has one. */
  function RecordDomain(entry: Json): Option<string>
    requires IsDomainRecord(entry)
  {
    if "domain" in entry.fields then Some(Normalize(entry.fields["domain"].s)) else None
  }

  /**
   * For a file that is a list of well-formed records, the set holds exactly
   * the stripped, lower-cased domains of the records that have one; records
   * without a `domain` key contribute nothing.
   */
  lemma ExclusionsOfRecords(entries: seq<Json>)
    requires forall i :: 0 <= i < |entries| ==> IsDomainRecord(entries[i])
    ensures forall d :: d in ExclusionsFromJson(JArr(entries)) <==>
      exists i :: 0 <= i < |entries| && RecordDomain(entries[i]) == Some(d)
  {
    forall i | 0 <= i < |entries|
      ensures EntryDomain(entries[i]) == Returned(RecordDomain(entries[i]))
    {
    }
    var r := CollectDomains(entries);
    assert ExclusionsFromJson(JArr(entries)) == r.value;
    forall d
      ensures d in r.value <==> exists i :: 0 <= i < |entries| && RecordDomain(entries[i]) == Some(d)
    {
      CollectDomainsMembers(entries, d);
    }
  }

  /**
   * Reading a file that parsed to a list of well-formed records gives
   * exactly the stripped, lower-cased domains of those records.
   */
  lemma ReadExclusionsOfRecords(fs: FileSystem, path: string, entries: seq<Json>)
    requires PathExists(fs, path) && fs[path] == Readable(Some(JArr(entries)))
    requires forall i :: 0 <= i < |entries| ==> IsDomainRecord(entries[i])
    ensures ReadExclusions(fs, path).Returned?
    ensures forall d :: d in ReadExclusions(fs, path).value <==>
      exists i :: 0 <= i < |entries| && RecordDomain(entries[i]) == Some(d)
  {
    ExclusionsOfRecords(entries);
  }

  /** A single malformed entry (here: a bare number) loses the whole file. */
  lemma OneBadEntryEmptiesTheSet(entries: seq<Json>, i: nat)
    requires i < |entries| && entries[i] == JNumber
    ensures ExclusionsFromJson(JArr(entries)) == {}
  {
    assert !EntryDomain(entries[i]).Returned?;
  }

  /**
   * The `any(domain == ex or domain.endswith('.' + ex) for ex in excluded_domains)`
   * predicate: the host is an entry, or a subdomain of one.
   */
  predicate IsExcluded(host: string, excluded: set<string>) {
    exists ex | ex in excluded :: host == ex || EndsWith(host, "." + ex)
  }

  /** Cutting the first `k` characters of `host` falls at a label boundary. */
  predicate LabelBoundary(host: string, k: int) {
    0 <= k <= |host| && (k == 0 || host[k - 1] == '.')
  }

  /**
   * Reference reading of the exclusion rule: some whole-label suffix of the
   * host (the host itself, or what follows one of its dots) is an entry.
   */
  ghost predicate HasExcludedLabelSuffix(host: string, excluded: set<string>) {
    exists k :: LabelBoundary(host, k) && host[k..] in excluded
  }

  lemma ExcludedIffLabelSuffix(host: string, excluded: set<string>)
    ensures IsExcluded(host, excluded) <==> HasExcludedLabelSuffix(host, excluded)
  {
    if IsExcluded(host, excluded) {
      var ex :| ex in excluded && (host == ex || EndsWith(host, "." + ex));
      ExcludedByEntry(host, ex, excluded);
    }
    if HasExcludedLabelSuffix(host, excluded) {
      var k :| LabelBoundary(host, k) && host[k..] in excluded;
      SuffixExcluded(host, k, excluded);
    }
  }

  lemma ExcludedByEntry(host: string, ex: string, excluded: set<string>)
    requires ex in excluded && (host == ex || EndsWith(host, "." + ex))
    ensures HasExcludedLabelSuffix(host, excluded)
  {
    if host == ex {
      assert LabelBoundary(host, 0) && host[0..] == ex;
    } else {
      var k := |host| - |ex|;
      assert host[k - 1..] == "." + ex;
      assert host[k - 1] == '.' && host[k..] == ex;
      assert LabelBoundary(host, k);
    }
  }

  lemma SuffixExcluded(host: string, k: int, excluded: set<string>)
    requires LabelBoundary(host, k) && host[k..] in excluded
    ensures IsExcluded(host, excluded)
  {
    var ex := host[k..];
    if k == 0 {
      assert host == ex;
    } else {
      assert host[k - 1..] == "." + ex;
      assert EndsWith(host, "." + ex);
    }
  }

  /** `sub.example.com` is excluded by `example.com`: a dot-separated prefix does not matter. */
  lemma SubdomainExcluded(prefix: string, entry: string, excluded: set<string>)
    requires entry in excluded
    ensures IsExcluded(prefix + "." + entry, excluded)
  {
    var host := prefix + "." + entry;
    assert host[|host| - |"." + entry|..] == "." + entry;
  }

  /**
   * `notexample.com` is not excluded by `example.com` alone: a host that
   * extends the entry without a dot in between matches neither way.
   */
  lemma PartialLabelNotExcluded(prefix: string, entry: string)
    requires prefix != [] && prefix[|prefix| - 1] != '.'
    ensures !IsExcluded(prefix + entry, {entry})
  {
    var host := prefix + entry;
    var k := |prefix| - 1;
    assert host[k] != '.';
    assert host[k..][0] == host[k] && k == |host| - |"." + entry|;
  }

  /**
   * A host that still carries a port (`example.com:8080`) is not excluded by
   * its bare domain: neither equality nor a dotted suffix can match across
   * the colon.
   */
  lemma PortedHostNotExcluded(entry: string, port: string)
    requires ':' !in entry
    requires forall k :: 0 <= k < |port| ==> IsDigit(port[k])
    ensures !IsExcluded(entry + ":" + port, {entry})
  {
    var host := entry + ":" + port;
    var suffix := "." + entry;
    assert host != entry by {
      assert |host| > |entry|;
    }
    // The character of `host` under the suffix's first character, or under the
    // colon, differs from the suffix's.
    var start := |host| - |suffix|;
    if |port| <= |entry| {
      var j := |entry| - |port|;
      assert host[start + j] == ':';
      assert suffix[j] != ':' by {
        if j > 0 {
          assert suffix[j] == entry[j - 1];
        }
      }
      assert host[start..][j] != suffix[j];
    } else {
      assert IsDigit(host[start]) by {
        assert host[start] == port[start - |entry| - 1];
      }
      assert host[start..][0] != suffix[0];
    }
  }

  /** An empty exclusions set excludes no host. */
  lemma EmptyExcludesNothing(host: string)
    ensures !IsExcluded(host, {})
  {
  }

  /** Adding entries never un-excludes a host. */
  lemma ExclusionMonotone(host: string, fewer: set<string>, more: set<string>)
    requires fewer <= more && IsExcluded(host, fewer)
    ensures IsExcluded(host, more)
  {
  }

  /** The three hosts of the rule's usual illustration, against the entry `example.com`. */
  lemma ExampleDotCom()
    ensures IsExcluded("sub.example.com", {"example.com"})
    ensures IsExcluded("example.com", {"example.com"})
    ensures !IsExcluded("notexample.com", {"example.com"})
  {
    SubdomainExcluded("sub", "example.com", {"example.com"});
    assert "sub.example.com" == "sub" + "." + "example.com";
    PartialLabelNotExcluded("not", "example.com");
    assert "notexample.com" == "not" + "example.com";
  }
}
