/** extract_google_results.py: turning the result containers of saved
    search pages into candidate records, and merging the records of all
    pages with one record per link. The parsed page is given as its
    containers (what the CSS selectors find in each); SHA-256 is the
    function parameter `sha256`, from the hashed text to its hex digest. */
module ResultExtraction {
  import opened Text
  import opened Wrappers
  import opened Slicing
  import opened OrderedDict
  import opened Candidates

  // ---------------------------------------------------------------------
  // generate_hash

  const HASH_LENGTH := 16

  /** The text that is hashed. */
  function HashInput(name: string, url: string, description: string): string {
    name + "|" + url + "|" + description
  }

  /** `generate_hash`: the first 16 hex characters of the digest. */
  function GenerateHash(name: string, url: string, description: string, sha256: string -> string): (r: string)
    ensures |r| <= HASH_LENGTH
    ensures |sha256(HashInput(name, url, description))| >= HASH_LENGTH ==> |r| == HASH_LENGTH
  {
    SliceTo(sha256(HashInput(name, url, description)), HASH_LENGTH)
  }

  /** The hash depends on the three fields only through the joined text:
      fields that join to the same text get the same hash, whatever the
      digest. */
  lemma {:induction false} HashOnlyOfJoinedText(n1: string, u1: string, d1: string, n2: string, u2: string, d2: string,
                             sha256: string -> string)
    requires HashInput(n1, u1, d1) == HashInput(n2, u2, d2)
    ensures GenerateHash(n1, u1, d1, sha256) == GenerateHash(n2, u2, d2, sha256)
  {
  }

  /** The separator can occur inside a field, so distinct records collide:
      ("a|b", "c", "d") and ("a", "b|c", "d") join to the same text. */
  lemma {:induction false} SeparatorCollision(sha256: string -> string)
    ensures HashInput("a|b", "c", "d") == HashInput("a", "b|c", "d")
    ensures GenerateHash("a|b", "c", "d", sha256) == GenerateHash("a", "b|c", "d", sha256)
  {
    assert HashInput("a|b", "c", "d") == "a|b|c|d";
    assert HashInput("a", "b|c", "d") == "a|b|c|d";
  }

  // ---------------------------------------------------------------------
  // extract_results_from_html

  /** The first anchor of a container: its `href`, if it has one, and its
      stripped text. */
  datatype Anchor = Anchor(href: Option<string>, text: string)

  /** One `div.tF2Cxc` container: the stripped text of its first `h3`, if
      any; its first anchor, if any; the text of its snippet element (the
      first `div.IsZvec`, else the first `span.aCOpRe`), if any; and its
      whole text, joined by spaces and stripped. */
  datatype Container = Container(title: Option<string>, anchor: Option<Anchor>, snippet: Option<string>,
                                 fullText: string)

  /** A container yields a record when it has a title and an anchor with a
      link. */
  predicate Yields(c: Container) {
    c.title.Some? && c.anchor.Some? && c.anchor.value.href.Some?
  }

  const MAX_FALLBACK_LENGTH := 300
  const ELLIPSIS := "..."

  /** The description when no snippet element exists: the container's text
      with every occurrence of the title removed and stripped, then with
      every occurrence of the link text removed and stripped when the link
      text is not empty. */
  function FallbackText(fullText: string, title: string, linkText: string): string {
    var d := Strip(ReplaceAll(fullText, title, ""));
    if linkText != [] then Strip(ReplaceAll(d, linkText, "")) else d
  }

  /** A fallback longer than 300 characters is cut to 300 and marked. */
  function Shorten(d: string): (r: string)
    ensures |d| <= MAX_FALLBACK_LENGTH ==> r == d
    ensures |d| > MAX_FALLBACK_LENGTH ==> r == d[..MAX_FALLBACK_LENGTH] + ELLIPSIS && |r| == 303
  {
    if |d| > MAX_FALLBACK_LENGTH then d[..MAX_FALLBACK_LENGTH] + ELLIPSIS else d
  }

  function Description(c: Container): string
    requires Yields(c)
  {
    if c.snippet.Some? then c.snippet.value
    else Shorten(FallbackText(c.fullText, c.title.value, c.anchor.value.text))
  }

  /** The record a yielding container becomes; its hash is computed from the
      final description. */
  function Record(c: Container, sha256: string -> string): Candidate
    requires Yields(c)
  {
    var title := c.title.value;
    var url := c.anchor.value.href.value;
    var description := Description(c);
    Candidate(GenerateHash(title, url, description, sha256), title, url, description, None)
  }

  /** The records of a page, in container order. */
  function Extracted(containers: seq<Container>, sha256: string -> string): (r: seq<Candidate>)
    ensures |r| <= |containers|
  {
    if containers == [] then []
    else
      var c := containers[|containers| - 1];
      Extracted(containers[..|containers| - 1], sha256) + (if Yields(c) then [Record(c, sha256)] else [])
  }

  /** `extract_results_from_html` over the containers of one page. */
  method ExtractResultsFromHtml(containers: seq<Container>, sha256: string -> string) returns (results: seq<Candidate>)
    ensures results == Extracted(containers, sha256)
  {
    results := [];
    for i := 0 to |containers|
      invariant results == Extracted(containers[..i], sha256)
    {
      var g := containers[i];
      assert containers[..i + 1][..i] == containers[..i];
      if g.title.None? {
        continue;
      }
      if g.anchor.None? || g.anchor.value.href.None? {
        continue;
      }
      var title := g.title.value;
      var url := g.anchor.value.href.value;
      var description := "";
      if g.snippet.Some? {
        description := g.snippet.value;
      } else {
        description := Strip(ReplaceAll(g.fullText, title, ""));
        var linkText := g.anchor.value.text;
        if linkText != [] {
          description := Strip(ReplaceAll(description, linkText, ""));
        }
        if |description| > MAX_FALLBACK_LENGTH {
          description := description[..MAX_FALLBACK_LENGTH] + ELLIPSIS;
        }
      }
      var entryHash := GenerateHash(title, url, description, sha256);
      results := results + [Candidate(entryHash, title, url, description, None)];
    }
    assert containers[..|containers|] == containers;
  }

  /** Every record comes from a container with a title and a link, in that
      container's fields, and is hashed from its own name, link and
      description. */
  lemma {:induction false} ExtractedSound(containers: seq<Container>, sha256: string -> string, i: nat)
    returns (k: nat)
    requires i < |Extracted(containers, sha256)|
    ensures k < |containers| && Yields(containers[k])
    ensures Extracted(containers, sha256)[i] == Record(containers[k], sha256)
  {
    var init := containers[..|containers| - 1];
    if i < |Extracted(init, sha256)| {
      k := ExtractedSound(init, sha256, i);
    } else {
      k := |containers| - 1;
    }
  }

  /** Every container with a title and a link gives a record; containers
      lacking either give none. */
  lemma {:induction false} ExtractedCount(containers: seq<Container>, sha256: string -> string)
    ensures |Extracted(containers, sha256)| == |set k: nat | k < |containers| && Yields(containers[k])|
  {
    if containers != [] {
      var n := |containers|;
      var init := containers[..n - 1];
      ExtractedCount(init, sha256);
      YieldingStep(containers);
      assert (set k: nat | k < n - 1 && Yields(init[k])) == (set k: nat | k < n - 1 && Yields(containers[k]));
    }
  }

  lemma {:induction false} YieldingStep(containers: seq<Container>)
    requires containers != []
    ensures |set k: nat | k < |containers| && Yields(containers[k])|
            == |set k: nat | k < |containers| - 1 && Yields(containers[k])|
               + (if Yields(containers[|containers| - 1]) then 1 else 0)
  {
    var n := |containers|;
    var init := containers[..n - 1];
    var before := set k: nat | k < n - 1 && Yields(containers[k]);
    if Yields(containers[n - 1]) {
      assert (set k: nat | k < n && Yields(containers[k])) == before + {n - 1};
    } else {
      assert (set k: nat | k < n && Yields(containers[k])) == before;
    }
  }

  /** A snippet is used as it is, however long. */
  lemma {:induction false} SnippetUntruncated(c: Container)
    requires Yields(c) && c.snippet.Some?
    ensures Description(c) == c.snippet.value
  {
  }

  /** A fallback description is at most 303 characters long. */
  lemma {:induction false} FallbackBound(c: Container)
    requires Yields(c) && c.snippet.None?
    ensures |Description(c)| <= MAX_FALLBACK_LENGTH + |ELLIPSIS|
  {
  }

  /** When neither the title nor the link text occurs in the container's
      text, the fallback is that text, stripped and shortened. */
  lemma {:induction false} FallbackUntouched(fullText: string, title: string, linkText: string)
    requires title != [] && !Contains(fullText, title)
    requires linkText != [] ==> !Contains(Strip(fullText), linkText)
    ensures FallbackText(fullText, title, linkText) == Strip(fullText)
  {
    ReplaceAllAbsent(fullText, title, "");
    if linkText != [] {
      ReplaceAllAbsent(Strip(fullText), linkText, "");
      StripIdempotent(fullText);
    }
  }

  /** An empty title removes nothing. */
  lemma {:induction false} EmptyTitleRemovesNothing(fullText: string)
    ensures FallbackText(fullText, "", "") == Strip(fullText)
  {
    ReplaceEmptyByEmpty(fullText);
  }

  // ---------------------------------------------------------------------
  // extract_all_results

  function UrlOf(c: Candidate): string { c.url }

  /** The records of all pages, page after page. */
  function AllExtracted(pages: seq<seq<Container>>, sha256: string -> string): seq<Candidate> {
    if pages == [] then [] else AllExtracted(pages[..|pages| - 1], sha256) + Extracted(pages[|pages| - 1], sha256)
  }

  /** `list({r['url']: r for r in all_results}.values())`. */
  function UniqueByUrl(records: seq<Candidate>): seq<Candidate> {
    Values(FromList(records, UrlOf))
  }

  /** `extract_all_results`: `pages` are the containers of each page the
      recursive `.html` glob yields, in order. Returns the merged records; the
      output file is not modelled. */
  method ExtractAllResults(pages: seq<seq<Container>>, sha256: string -> string) returns (unique: seq<Candidate>)
    ensures unique == UniqueByUrl(AllExtracted(pages, sha256))
  {
    var allResults: seq<Candidate> := [];
    for p := 0 to |pages|
      invariant allResults == AllExtracted(pages[..p], sha256)
    {
      var extracted := ExtractResultsFromHtml(pages[p], sha256);
      assert pages[..p + 1][..p] == pages[..p];
      allResults := allResults + extracted;
    }
    assert pages[..|pages|] == pages;
    unique := UniqueByUrl(allResults);
  }

  /** The record kept at position `i` is the one stored under the `i`-th
      link in insertion order. */
  lemma {:induction false} UniqueUrlAt(records: seq<Candidate>, i: nat)
    requires i < |UniqueByUrl(records)|
    ensures UniqueByUrl(records)[i].url == FromList(records, UrlOf).keys[i]
    ensures HasKey(records, UrlOf, UniqueByUrl(records)[i].url)
    ensures UniqueByUrl(records)[i] == records[LastIndex(records, UrlOf, UniqueByUrl(records)[i].url)]
  {
    var d := FromList(records, UrlOf);
    FromListEntries(records, UrlOf);
    assert d.keys[i] in d.entries;
  }

  /** After the merge no two records share a link. */
  lemma {:induction false} UniqueUrlsDistinct(records: seq<Candidate>, i: nat, j: nat)
    requires i < j < |UniqueByUrl(records)|
    ensures UniqueByUrl(records)[i].url != UniqueByUrl(records)[j].url
  {
    UniqueUrlAt(records, i);
    UniqueUrlAt(records, j);
  }

  /** Every link of the input survives the merge. */
  lemma {:induction false} UniqueUrlsComplete(records: seq<Candidate>, x: Candidate) returns (i: nat)
    requires x in records
    ensures i < |UniqueByUrl(records)| && UniqueByUrl(records)[i].url == x.url
  {
    var d := FromList(records, UrlOf);
    FromListEntries(records, UrlOf);
    var k :| 0 <= k < |records| && records[k] == x;
    assert UrlOf(records[k]) == x.url;
    assert x.url in d.entries;
    i :| 0 <= i < |d.keys| && d.keys[i] == x.url;
    UniqueUrlAt(records, i);
  }

  /** The merged records come in the order in which their links first
      appear. */
  lemma {:induction false} UniqueUrlsOrder(records: seq<Candidate>, i: nat, j: nat)
    requires i < j < |UniqueByUrl(records)|
    ensures HasKey(records, UrlOf, UniqueByUrl(records)[i].url) && HasKey(records, UrlOf, UniqueByUrl(records)[j].url)
            && FirstIndex(records, UrlOf, UniqueByUrl(records)[i].url)
               < FirstIndex(records, UrlOf, UniqueByUrl(records)[j].url)
  {
    UniqueUrlAt(records, i);
    UniqueUrlAt(records, j);
    FromListOrder(records, UrlOf);
  }
}
