/** The glue of main.py that decides something: the rating threshold that
    makes a result a ready candidate, the merge of analysis results into the
    hash-indexed candidate table, the choice of queries, the names under
    which search pages are copied into the run folder, and the early exit
    and download route of a run. Reading and writing JSON, the scraper, the
    downloads and the notifier are collaborators: their results are inputs. */
module Pipeline {
  import opened Text
  import opened Wrappers
  import opened OrderedDict
  import opened Paths
  import opened Candidates
  import opened Filtering

  // ---------------------------------------------------------------------
  // save_ready_candidates

  const DEFAULT_THRESHOLD := 5

  /** `ratings.get(hash, 0)`. */
  function Rating(ratings: map<string, int>, h: string): int {
    if h in ratings then ratings[h] else 0
  }

  predicate IsReady(c: Candidate, ratings: map<string, int>, threshold: int) {
    Rating(ratings, c.hash) >= threshold
  }

  function ReadyTest(ratings: map<string, int>, threshold: int): Candidate -> bool {
    c => IsReady(c, ratings, threshold)
  }

  /** The candidates kept by `save_ready_candidates`. */
  function ReadyCandidates(combined: seq<Candidate>, ratings: map<string, int>, threshold: int): seq<Candidate> {
    Filter(combined, ReadyTest(ratings, threshold))
  }

  /** A candidate is kept exactly when it is one of the results and its
      rating, 0 for an unrated hash, reaches the threshold; the kept ones
      keep their order, as filtering a concatenation filters each part. */
  lemma {:induction false} ReadyMembers(combined: seq<Candidate>, ratings: map<string, int>, threshold: int, c: Candidate)
    ensures c in ReadyCandidates(combined, ratings, threshold) <==> c in combined && Rating(ratings, c.hash) >= threshold
    ensures forall a, b :: a + b == combined ==>
              ReadyCandidates(combined, ratings, threshold)
              == ReadyCandidates(a, ratings, threshold) + ReadyCandidates(b, ratings, threshold)
  {
    FilterMembers(combined, ReadyTest(ratings, threshold), c);
    forall a, b | a + b == combined
      ensures ReadyCandidates(combined, ratings, threshold)
              == ReadyCandidates(a, ratings, threshold) + ReadyCandidates(b, ratings, threshold)
    {
      FilterAppend(a, b, ReadyTest(ratings, threshold));
    }
  }

  // ---------------------------------------------------------------------
  // analyze_all_txts

  /** What analysing one text file came to: it raised, or it returned a
      result (possibly `None` or empty). */
  datatype FileAnalysis = Raised | Returned(result: Option<string>)

  /** The analysis of text file number `k`; files beyond the sequence raise. */
  function AnalysisOf(analyses: seq<FileAnalysis>, k: nat): FileAnalysis {
    if k < |analyses| then analyses[k] else Raised
  }

  /** A notification sent: the result and the candidate's link. */
  datatype Notice = Notice(result: string, url: string)

  type Table = Dict<string, Candidate>

  function HashOf(c: Candidate): string { c.hash }

  /** `{item["hash"]: item for item in candidates}`. */
  function CandidateTable(candidates: seq<Candidate>): (t: Table)
    ensures Valid(t)
  {
    FromList(candidates, HashOf)
  }

  /** The hash each text file names: the stem of its file name. */
  function StemsOf(files: seq<string>): (r: seq<string>)
    ensures |r| == |files|
  {
    if files == [] then [] else StemsOf(files[..|files| - 1]) + [Stem(files[|files| - 1])]
  }

  lemma {:induction false} StemsOfIndex(files: seq<string>, i: nat)
    requires i < |files|
    ensures StemsOf(files)[i] == Stem(files[i])
  {
    if i < |files| - 1 {
      StemsOfIndex(files[..|files| - 1], i);
    }
  }

  /** The text file naming hash `h` has a candidate in `t` and its
      analysis returned a truthy result: only then is the entry updated and
      a notice sent. */
  predicate Sends(t: Table, h: string, a: FileAnalysis) {
    h in t.entries && a.Returned? && IsTruthy(a.result)
  }

  /** The table once the text file naming `h`, analysed to `a`, is handled:
      the candidate `h` takes the returned result. */
  function Applied(p: Table, h: string, a: FileAnalysis): (r: Table)
    ensures Valid(p) ==> Valid(r)
    ensures r.keys == p.keys
    ensures Sends(p, h, a) ==> r.entries == p.entries[h := p.entries[h].(result := a.result)]
    ensures !Sends(p, h, a) ==> r == p
  {
    if Sends(p, h, a) then Put(p, h, p.entries[h].(result := a.result)) else p
  }

  /** The table after the text files naming the first `k` of `hashes`. */
  function TableAfter(t: Table, hashes: seq<string>, analyses: seq<FileAnalysis>, k: nat): (r: Table)
    requires k <= |hashes|
  {
    if k == 0 then t else Applied(TableAfter(t, hashes, analyses, k - 1), hashes[k - 1], AnalysisOf(analyses, k - 1))
  }

  /** Handling text files only updates candidates already in the table:
      the keys, their order and validity are kept. */
  lemma {:induction false} TableAfterKeeps(t: Table, hashes: seq<string>, analyses: seq<FileAnalysis>, k: nat)
    requires k <= |hashes|
    ensures Valid(t) ==> Valid(TableAfter(t, hashes, analyses, k))
    ensures TableAfter(t, hashes, analyses, k).keys == t.keys
    ensures forall x :: x in TableAfter(t, hashes, analyses, k).entries <==> x in t.entries
  {
    if k > 0 {
      TableAfterKeeps(t, hashes, analyses, k - 1);
    }
  }

  /** The notices sent for the first `k` text files. */
  function Notices(t: Table, hashes: seq<string>, analyses: seq<FileAnalysis>, k: nat): seq<Notice>
    requires k <= |hashes|
  {
    if k == 0 then []
    else
      var p := TableAfter(t, hashes, analyses, k - 1);
      var a := AnalysisOf(analyses, k - 1);
      Notices(t, hashes, analyses, k - 1)
      + (if Sends(p, hashes[k - 1], a) then [Notice(a.result.value, p.entries[hashes[k - 1]].url)] else [])
  }

  /** `analyze_all_txts`: `txtFiles` are the names the `*.txt` glob yields,
      in order, and `analyses` what analysing each of them comes to. Returns
      the list written back to `ready_candidates.json` and the notices
      sent. */
  method AnalyzeAllTxts(candidates: seq<Candidate>, txtFiles: seq<string>, analyses: seq<FileAnalysis>)
    returns (written: seq<Candidate>, notices: seq<Notice>)
    ensures Valid(TableAfter(CandidateTable(candidates), StemsOf(txtFiles), analyses, |txtFiles|))
    ensures written == Values(TableAfter(CandidateTable(candidates), StemsOf(txtFiles), analyses, |txtFiles|))
    ensures notices == Notices(CandidateTable(candidates), StemsOf(txtFiles), analyses, |txtFiles|)
  {
    var table := CandidateTable(candidates);
    table, notices := ApplyAll(table, txtFiles, analyses);
    TableAfterKeeps(CandidateTable(candidates), StemsOf(txtFiles), analyses, |txtFiles|);
    written := Values(table);
  }

  /** The loop over the text files, from the table `t0` read. */
  method ApplyAll(t0: Table, txtFiles: seq<string>, analyses: seq<FileAnalysis>) returns (table: Table, notices: seq<Notice>)
    ensures table == TableAfter(t0, StemsOf(txtFiles), analyses, |txtFiles|)
    ensures notices == Notices(t0, StemsOf(txtFiles), analyses, |txtFiles|)
  {
    ghost var hashes := StemsOf(txtFiles);
    table, notices := t0, [];
    for k := 0 to |txtFiles|
      invariant table == TableAfter(t0, hashes, analyses, k)
      invariant notices == Notices(t0, hashes, analyses, k)
    {
      var hashName := Stem(txtFiles[k]);
      StemsOfIndex(txtFiles, k);
      var sent;
      table, sent := ApplyAnalysis(table, hashName, AnalysisOf(analyses, k));
      notices := notices + sent;
      AfterOneMore(t0, hashes, analyses, k);
    }
  }

  /** The table and the notices after one more text file. */
  lemma {:induction false} AfterOneMore(t: Table, hashes: seq<string>, analyses: seq<FileAnalysis>, k: nat)
    requires k < |hashes|
    ensures var p := TableAfter(t, hashes, analyses, k);
      var a := AnalysisOf(analyses, k);
      && TableAfter(t, hashes, analyses, k + 1) == Applied(p, hashes[k], a)
      && (Sends(p, hashes[k], a) ==>
            Notices(t, hashes, analyses, k + 1)
            == Notices(t, hashes, analyses, k) + [Notice(a.result.value, p.entries[hashes[k]].url)])
      && (!Sends(p, hashes[k], a) ==> Notices(t, hashes, analyses, k + 1) == Notices(t, hashes, analyses, k))
  {
  }

  /** One pass of the loop over the text files: the candidate `hashName`,
      if the table has it, takes the returned result, and one notice with
      that result and the candidate's link is sent. */
  method ApplyAnalysis(table: Table, hashName: string, outcome: FileAnalysis) returns (next: Table, sent: seq<Notice>)
    ensures next == Applied(table, hashName, outcome)
    ensures Sends(table, hashName, outcome) ==> sent == [Notice(outcome.result.value, table.entries[hashName].url)]
    ensures !Sends(table, hashName, outcome) ==> sent == []
  {
    next, sent := table, [];
    if hashName !in table.entries {
      return;
    }
    var entry := table.entries[hashName];
    if outcome.Returned? && IsTruthy(outcome.result) {
      next := Put(table, hashName, entry.(result := outcome.result));
      sent := [Notice(outcome.result.value, entry.url)];
    }
  }

  /** Text file `j` updates its candidate and sends a notice: the hash it
      names is in the table and its analysis returned a truthy result. */
  predicate SendsAt(t: Table, hashes: seq<string>, analyses: seq<FileAnalysis>, j: nat)
    requires j < |hashes|
  {
    Sends(t, hashes[j], AnalysisOf(analyses, j))
  }

  /** A candidate no file updated is written back unchanged; a file naming
      no candidate, or whose analysis raised or returned nothing, changes
      nothing. */
  lemma {:induction false} EntryUntouched(t: Table, hashes: seq<string>, analyses: seq<FileAnalysis>, k: nat, h: string)
    requires k <= |hashes| && h in t.entries
    requires forall j :: 0 <= j < k && hashes[j] == h ==> !SendsAt(t, hashes, analyses, j)
    ensures h in TableAfter(t, hashes, analyses, k).entries
    ensures TableAfter(t, hashes, analyses, k).entries[h] == t.entries[h]
  {
    TableAfterKeeps(t, hashes, analyses, k);
    if k > 0 {
      EntryUntouched(t, hashes, analyses, k - 1, h);
      StepKeeps(t, hashes, analyses, k, h);
    }
  }

  /** A candidate takes the result of the last file that updated it; all
      its other fields are as read. */
  lemma {:induction false} EntryLastResult(t: Table, hashes: seq<string>, analyses: seq<FileAnalysis>, k: nat, j: nat)
    requires j < k <= |hashes|
    requires SendsAt(t, hashes, analyses, j)
    requires forall l :: j < l < k && hashes[l] == hashes[j] ==> !SendsAt(t, hashes, analyses, l)
    ensures hashes[j] in TableAfter(t, hashes, analyses, k).entries
    ensures TableAfter(t, hashes, analyses, k).entries[hashes[j]]
            == t.entries[hashes[j]].(result := AnalysisOf(analyses, j).result)
  {
    var h := hashes[j];
    TableAfterKeeps(t, hashes, analyses, k);
    if j < k - 1 {
      EntryLastResult(t, hashes, analyses, k - 1, j);
      StepKeeps(t, hashes, analyses, k, h);
    } else {
      OnlyResultChanges(t, hashes, analyses, j, h);
    }
  }

  /** A file that does not send for `h` leaves the entry of `h` as it was. */
  lemma {:induction false} StepKeeps(t: Table, hashes: seq<string>, analyses: seq<FileAnalysis>, k: nat, h: string)
    requires 0 < k <= |hashes| && h in t.entries
    requires hashes[k - 1] == h ==> !SendsAt(t, hashes, analyses, k - 1)
    ensures h in TableAfter(t, hashes, analyses, k - 1).entries && h in TableAfter(t, hashes, analyses, k).entries
    ensures TableAfter(t, hashes, analyses, k).entries[h] == TableAfter(t, hashes, analyses, k - 1).entries[h]
  {
    TableAfterKeeps(t, hashes, analyses, k - 1);
  }

  /** Only the result field of an entry is ever replaced: its hash, title,
      link and description stay the ones read. */
  lemma {:induction false} OnlyResultChanges(t: Table, hashes: seq<string>, analyses: seq<FileAnalysis>, k: nat, h: string)
    requires k <= |hashes| && h in t.entries
    ensures h in TableAfter(t, hashes, analyses, k).entries
    ensures TableAfter(t, hashes, analyses, k).entries[h].(result := t.entries[h].result) == t.entries[h]
  {
    TableAfterKeeps(t, hashes, analyses, k);
    if k > 0 {
      OnlyResultChanges(t, hashes, analyses, k - 1, h);
    }
  }

  /** Every notice is due to one file: it carries that file's result and the
      link of the candidate the file names. */
  lemma {:induction false} NoticeSource(t: Table, hashes: seq<string>, analyses: seq<FileAnalysis>, k: nat, i: nat)
    returns (j: nat)
    requires k <= |hashes| && i < |Notices(t, hashes, analyses, k)|
    ensures j < k && SendsAt(t, hashes, analyses, j)
    ensures Notices(t, hashes, analyses, k)[i] == Notice(AnalysisOf(analyses, j).result.value, t.entries[hashes[j]].url)
  {
    var n := Notices(t, hashes, analyses, k - 1);
    if i < |n| {
      j := NoticeSource(t, hashes, analyses, k - 1, i);
    } else {
      j := k - 1;
      TableAfterKeeps(t, hashes, analyses, k - 1);
      OnlyResultChanges(t, hashes, analyses, k - 1, hashes[j]);
    }
  }

  /** The positions among the first `k` text files of those that update
      their candidate. */
  function SendingFiles(t: Table, hashes: seq<string>, analyses: seq<FileAnalysis>, k: nat): set<nat>
    requires k <= |hashes|
  {
    if k == 0 then {}
    else SendingFiles(t, hashes, analyses, k - 1) + (if SendsAt(t, hashes, analyses, k - 1) then {k - 1} else {})
  }

  lemma {:induction false} SendingFilesMembers(t: Table, hashes: seq<string>, analyses: seq<FileAnalysis>, k: nat, j: nat)
    requires k <= |hashes|
    ensures j in SendingFiles(t, hashes, analyses, k) <==> j < k && SendsAt(t, hashes, analyses, j)
  {
    if k > 0 {
      SendingFilesMembers(t, hashes, analyses, k - 1, j);
    }
  }

  /** One notice per file that updated its candidate, and no other. */
  lemma {:induction false} NoticesCount(t: Table, hashes: seq<string>, analyses: seq<FileAnalysis>, k: nat)
    requires k <= |hashes|
    ensures |Notices(t, hashes, analyses, k)| == |SendingFiles(t, hashes, analyses, k)|
  {
    if k > 0 {
      NoticesCount(t, hashes, analyses, k - 1);
      NoticesStep(t, hashes, analyses, k);
      SendingFilesCard(t, hashes, analyses, k);
    }
  }

  lemma {:induction false} SendingFilesCard(t: Table, hashes: seq<string>, analyses: seq<FileAnalysis>, k: nat)
    requires 0 < k <= |hashes|
    ensures |SendingFiles(t, hashes, analyses, k)|
            == |SendingFiles(t, hashes, analyses, k - 1)| + (if SendsAt(t, hashes, analyses, k - 1) then 1 else 0)
  {
    SendingFilesMembers(t, hashes, analyses, k - 1, k - 1);
  }

  lemma {:induction false} NoticesStep(t: Table, hashes: seq<string>, analyses: seq<FileAnalysis>, k: nat)
    requires 0 < k <= |hashes|
    ensures |Notices(t, hashes, analyses, k)|
            == |Notices(t, hashes, analyses, k - 1)| + (if SendsAt(t, hashes, analyses, k - 1) then 1 else 0)
  {
    TableAfterKeeps(t, hashes, analyses, k - 1);
  }

  // ---------------------------------------------------------------------
  // async_main

  const DEFAULT_QUERY := "site:*.com filetype:pdf investment memo"

  /** The queries of a run: the configured list when it is non-empty,
      otherwise the single configured query, or the built-in one when none
      is configured. */
  function QueriesToRun(queries: Option<seq<string>>, query: Option<string>): (r: seq<string>)
    ensures queries.Some? && queries.value != [] ==> r == queries.value
    ensures !(queries.Some? && queries.value != []) ==> |r| == 1
    ensures !(queries.Some? && queries.value != []) && query.None? ==> r == [DEFAULT_QUERY]
    ensures !(queries.Some? && queries.value != []) && query.Some? ==> r == [query.value]
  {
    if queries.Some? && queries.value != [] then queries.value
    else [if query.Some? then query.value else DEFAULT_QUERY]
  }

  /** An entry of a per-query folder. */
  datatype FolderEntry = FolderEntry(name: string, isFile: bool)

  /** The names of the regular files of one folder, in glob order. */
  function RegularFiles(folder: seq<FolderEntry>): seq<string> {
    if folder == [] then []
    else
      var e := folder[|folder| - 1];
      RegularFiles(folder[..|folder| - 1]) + (if e.isFile then [e.name] else [])
  }

  /** The names of the files copied from all folders, folder by folder. */
  function CopiedFiles(folders: seq<seq<FolderEntry>>): seq<string> {
    if folders == [] then [] else CopiedFiles(folders[..|folders| - 1]) + RegularFiles(folders[|folders| - 1])
  }

  /** The name a file is copied under: its stem, an underscore, the random
      number drawn and its suffix. */
  function UniqueName(name: string, n: nat): string {
    Stem(name) + "_" + NatToString(n) + Suffix(name)
  }

  /** The copies of `names`, copy `i` numbered by draw `i`. */
  function CopyNames(names: seq<string>, draw: nat -> nat): (r: seq<string>)
    ensures |r| == |names|
  {
    if names == [] then [] else CopyNames(names[..|names| - 1], draw) + [UniqueName(names[|names| - 1], draw(|names| - 1))]
  }

  lemma {:induction false} CopyNamesIndex(names: seq<string>, draw: nat -> nat, i: nat)
    requires i < |names|
    ensures CopyNames(names, draw)[i] == UniqueName(names[i], draw(i))
  {
    if i < |names| - 1 {
      CopyNamesIndex(names[..|names| - 1], draw, i);
    }
  }

  lemma {:induction false} CopyNamesSnoc(names: seq<string>, x: string, draw: nat -> nat)
    ensures CopyNames(names + [x], draw) == CopyNames(names, draw) + [UniqueName(x, draw(|names|))]
  {
    assert (names + [x])[..|names|] == names;
  }

  lemma {:induction false} AppendAssoc<T>(a: seq<T>, b: seq<T>, c: seq<T>)
    ensures (a + b) + c == a + (b + c)
  {
  }

  /** The inner copy loop, over one folder: `done` are the names copied
      before it, whose copies are `copied`. */
  method CopyFolder(folder: seq<FolderEntry>, draw: nat -> nat, ghost done: seq<string>, copied: seq<string>)
    returns (more: seq<string>)
    requires copied == CopyNames(done, draw)
    ensures more == CopyNames(done + RegularFiles(folder), draw)
  {
    more := copied;
    assert done + RegularFiles(folder[..0]) == done;
    for j := 0 to |folder|
      invariant more == CopyNames(done + RegularFiles(folder[..j]), draw)
    {
      ghost var before := done + RegularFiles(folder[..j]);
      assert folder[..j + 1][..j] == folder[..j];
      if folder[j].isFile {
        var n := draw(|more|);
        AppendAssoc(done, RegularFiles(folder[..j]), [folder[j].name]);
        CopyNamesSnoc(before, folder[j].name, draw);
        more := more + [UniqueName(folder[j].name, n)];
      } else {
        assert done + RegularFiles(folder[..j + 1]) == before;
      }
    }
    assert folder[..|folder|] == folder;
  }

  /** The copy loop of `async_main`: every regular file of every per-query
      folder is copied under a fresh name; `draw(i)` is the number
      `random.randint(0, 9999)` yields for copy `i`. Returns the copied
      names, in order. */
  method CombineQueryFolders(folders: seq<seq<FolderEntry>>, draw: nat -> nat) returns (copied: seq<string>)
    requires forall i :: draw(i) <= 9999
    ensures |copied| == |CopiedFiles(folders)|
    ensures forall i :: 0 <= i < |copied| ==> copied[i] == UniqueName(CopiedFiles(folders)[i], draw(i))
  {
    copied := [];
    for f := 0 to |folders|
      invariant copied == CopyNames(CopiedFiles(folders[..f]), draw)
    {
      assert folders[..f + 1][..f] == folders[..f];
      copied := CopyFolder(folders[f], draw, CopiedFiles(folders[..f]), copied);
    }
    assert folders[..|folders|] == folders;
    forall i | 0 <= i < |copied| ensures copied[i] == UniqueName(CopiedFiles(folders)[i], draw(i)) {
      CopyNamesIndex(CopiedFiles(folders), draw, i);
    }
  }

  /** A copied name keeps the original's suffix, so the copy of a page is
      still an `.html` file, and its stem is the original stem with the
      number appended. */
  lemma {:induction false} UniqueNameKeepsSuffix(name: string, n: nat)
    requires HasSuffix(name)
    ensures Suffix(UniqueName(name, n)) == Suffix(name)
    ensures Stem(UniqueName(name, n)) == Stem(name) + "_" + NatToString(n)
  {
    StemSuffixSplit(name);
    var head := Stem(name) + "_" + NatToString(n);
    LastDotOfSuffix(head, Suffix(name));
    assert UniqueName(name, n) == head + Suffix(name);
  }

  /** The download route of a run: pdf downloads when `download_type` is
      absent or "pdf", page downloads for any other value. */
  datatype Route = PdfRoute | PageRoute

  /** What a run does once the search pages are copied. */
  datatype RunPlan = NoNewFiles | Process(route: Route)

  function DownloadRoute(downloadType: Option<string>): (r: Route)
    ensures r == PdfRoute <==> downloadType.None? || downloadType.value == "pdf"
  {
    if downloadType.Some? && downloadType.value != "pdf" then PageRoute else PdfRoute
  }

  /** A run with no copied page returns before extraction and rating. */
  function PlanAfterCombine(copied: seq<string>, downloadType: Option<string>): (r: RunPlan)
    ensures r == NoNewFiles <==> copied == []
    ensures r.Process? ==> r.route == DownloadRoute(downloadType)
  {
    if copied == [] then NoNewFiles else Process(DownloadRoute(downloadType))
  }
}
