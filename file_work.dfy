/** file_work.py: downloading the ready candidates' links as pages or
    PDFs, and converting the downloads to text. The HTTP client, the file
    system and the text extractors are collaborators: a response is given
    as an `Attempt`, the folder listing as a list of names, and extraction
    as a function from a name to its text. */
module FileWork {
  import opened Text
  import opened Wrappers
  import opened Paths
  import opened Retry
  import opened Filtering
  import opened Candidates
  import opened Downloads

  const PDF_EXTENSION := ".pdf"
  const HTML_EXTENSION := ".html"
  const DOWNLOADS_FOLDER := "downloads"
  const TXT_FOLDER := "txt"

  /** `path if path.endswith(ext) else path + ext`. */
  function WithExtension(path: string, ext: string): (r: string)
    ensures EndsWith(r, ext)
    ensures EndsWith(path, ext) ==> r == path
  {
    if EndsWith(path, ext) then path else path + ext
  }

  /** The file is saved as a PDF: always when only PDFs are wanted, and
      otherwise when the (lower-cased) content type mentions "pdf" or the
      link ends with ".pdf". */
  predicate SavedAsPdf(url: string, contentType: string, onlyPdf: bool) {
    onlyPdf || Contains(Lower(contentType), "pdf") || EndsWith(Lower(url), PDF_EXTENSION)
  }

  /** `download_file` for one attempt. */
  function DownloadFile(url: string, savePath: string, onlyPdf: bool, a: Attempt): DownloadOutcome {
    if a.NoResponse? || a.status != 200 then Raised
    else
      var contentType := Lower(a.contentType);
      if onlyPdf then
        if !Contains(contentType, "pdf") then Skipped else Written(WithExtension(savePath, PDF_EXTENSION))
      else if Contains(contentType, "pdf") || EndsWith(Lower(url), PDF_EXTENSION) then
        Written(WithExtension(savePath, PDF_EXTENSION))
      else Written(WithExtension(savePath, HTML_EXTENSION))
  }

  /** A download raises exactly when there is no response or its status is
      not 200; it returns without writing exactly when only PDFs are wanted
      and a 200 response's content type does not mention "pdf"; otherwise
      the content is written under the save path with the chosen extension,
      appended only when the save path lacks it. */
  lemma {:induction false} DownloadFileSpec(url: string, savePath: string, onlyPdf: bool, a: Attempt)
    ensures DownloadFile(url, savePath, onlyPdf, a).Raised? <==> a.NoResponse? || a.status != 200
    ensures DownloadFile(url, savePath, onlyPdf, a).Skipped?
            <==> a.Response? && a.status == 200 && onlyPdf && !Contains(Lower(a.contentType), "pdf")
    ensures DownloadFile(url, savePath, onlyPdf, a).Written? ==>
              DownloadFile(url, savePath, onlyPdf, a).path
              == WithExtension(savePath, if SavedAsPdf(url, a.contentType, onlyPdf) then PDF_EXTENSION else HTML_EXTENSION)
  {
  }

  /** A page link saved as `<hash>.html` whose response is a PDF is written
      to `<hash>.html.pdf`, whose stem is `<hash>.html`, not the hash. */
  lemma {:induction false} PdfBehindPageLink(h: string, url: string)
    requires h != [] && forall j :: 0 <= j < |h| ==> h[j] != '.'
    requires !EndsWith(Lower(url), PDF_EXTENSION)
    ensures DownloadFile(url, h + HTML_EXTENSION, false, Response(200, "application/pdf"))
            == Written(h + HTML_EXTENSION + PDF_EXTENSION)
    ensures Stem(h + HTML_EXTENSION + PDF_EXTENSION) == h + HTML_EXTENSION
  {
    var ct := Lower("application/pdf");
    assert ct[12..15] == "pdf";
    assert OccursAt(ct, "pdf", 12);
    assert !EndsWith(h + HTML_EXTENSION, PDF_EXTENSION) by {
      var p := h + HTML_EXTENSION;
      assert p[|p| - 1] == 'l';
    }
    var name := h + HTML_EXTENSION + PDF_EXTENSION;
    LastDotOfSuffix(h + HTML_EXTENSION, PDF_EXTENSION);
    assert LastDot(name) == |h| + 5;
  }

  /** `download_with_retries`: `attempts(k)` is what attempt `k` gets.
      Returns the number of attempts made and the outcome of the last one;
      the wrapper itself never raises. */
  method DownloadWithRetries(url: string, savePath: string, onlyPdf: bool, attempts: nat -> Attempt)
    returns (tried: nat, last: DownloadOutcome)
    ensures 1 <= tried <= RETRY_ATTEMPTS
    ensures forall j :: 0 <= j < tried - 1 ==> DownloadFile(url, savePath, onlyPdf, attempts(j)).Raised?
    ensures tried < RETRY_ATTEMPTS ==> !last.Raised?
    ensures last == DownloadFile(url, savePath, onlyPdf, attempts(tried - 1))
  {
    var attempt := (k: nat) => DownloadFile(url, savePath, onlyPdf, attempts(k));
    tried, last := WithRetries(attempt, DidRaise);
    AttemptsMadeSpec(attempt, DidRaise, tried);
  }

  /** A download that skips a non-PDF response ends the retries as a
      success would. */
  lemma {:induction false} SkipEndsRetries(url: string, savePath: string, onlyPdf: bool, attempts: nat -> Attempt)
    requires DownloadFile(url, savePath, onlyPdf, attempts(0)).Skipped?
    ensures AttemptsMade((k: nat) => DownloadFile(url, savePath, onlyPdf, attempts(k)), DidRaise) == 1
  {
    AttemptsMadeSpec((k: nat) => DownloadFile(url, savePath, onlyPdf, attempts(k)), DidRaise, 1);
  }

  // ---------------------------------------------------------------------
  // download_files_from_ready_candidates

  /** `c.get("url", "").strip()` is not empty. */
  function HasLink(): Candidate -> bool {
    (c: Candidate) => Strip(c.url) != []
  }

  /** The extension a candidate's file is saved under. */
  function LinkExtension(url: string): string {
    if EndsWith(Lower(url), PDF_EXTENSION) then PDF_EXTENSION else HTML_EXTENSION
  }

  function TaskFor(c: Candidate, folder: string): Task {
    Task(c.url, JoinPath(folder, c.hash + LinkExtension(c.url)))
  }

  /** The tasks started for `cs`, one per candidate, in order. */
  function TasksFor(cs: seq<Candidate>, folder: string): (r: seq<Task>)
    ensures |r| == |cs|
  {
    if cs == [] then [] else TasksFor(cs[..|cs| - 1], folder) + [TaskFor(cs[|cs| - 1], folder)]
  }

  function FileDownloadRun(candidates: seq<Candidate>, latestFolder: string): DownloadRun {
    var fileCandidates := Filter(candidates, HasLink());
    if fileCandidates == [] then NoCandidates
    else Started(JoinPath(latestFolder, DOWNLOADS_FOLDER), TasksFor(fileCandidates, JoinPath(latestFolder, DOWNLOADS_FOLDER)))
  }

  /** The task loop: one task per candidate, saving under `folder`. */
  method MakeTasks(fileCandidates: seq<Candidate>, folder: string) returns (tasks: seq<Task>)
    ensures tasks == TasksFor(fileCandidates, folder)
  {
    tasks := [];
    for i := 0 to |fileCandidates|
      invariant tasks == TasksFor(fileCandidates[..i], folder)
    {
      var entry := fileCandidates[i];
      var ext := LinkExtension(entry.url);
      var savePath := JoinPath(folder, entry.hash + ext);
      assert fileCandidates[..i + 1][..i] == fileCandidates[..i];
      tasks := tasks + [Task(entry.url, savePath)];
    }
    assert fileCandidates[..|fileCandidates|] == fileCandidates;
  }

  /** `download_files_from_ready_candidates` up to the start of the tasks;
      `latestFolder` is the folder of the candidates file. */
  method DownloadFilesFromReadyCandidates(candidates: seq<Candidate>, latestFolder: string) returns (run: DownloadRun)
    ensures run == FileDownloadRun(candidates, latestFolder)
  {
    var fileCandidates := Filter(candidates, HasLink());
    if fileCandidates == [] {
      return NoCandidates;
    }
    var downloadFolder := JoinPath(latestFolder, DOWNLOADS_FOLDER);
    var tasks := MakeTasks(fileCandidates, downloadFolder);
    run := Started(downloadFolder, tasks);
  }

  lemma {:induction false} TasksForIndex(cs: seq<Candidate>, folder: string, i: nat)
    requires i < |cs|
    ensures TasksFor(cs, folder)[i] == TaskFor(cs[i], folder)
  {
    if i < |cs| - 1 {
      TasksForIndex(cs[..|cs| - 1], folder, i);
    }
  }

  /** No task is started when no candidate has a non-blank link; otherwise
      there is one task per such candidate, in order, saving under
      `downloads/<hash>.pdf` when the link ends with ".pdf" and
      `downloads/<hash>.html` otherwise. */
  lemma {:induction false} FileDownloadRunSpec(candidates: seq<Candidate>, latestFolder: string, i: nat)
    ensures FileDownloadRun(candidates, latestFolder).NoCandidates?
            <==> forall k :: 0 <= k < |candidates| ==> Strip(candidates[k].url) == []
    ensures FileDownloadRun(candidates, latestFolder).Started? && i < |FileDownloadRun(candidates, latestFolder).tasks| ==>
              var c := Filter(candidates, HasLink())[i];
              c in candidates && Strip(c.url) != []
              && FileDownloadRun(candidates, latestFolder).tasks[i]
                 == Task(c.url, JoinPath(JoinPath(latestFolder, DOWNLOADS_FOLDER), c.hash + LinkExtension(c.url)))
  {
    FilterEmptyIff(candidates, HasLink());
    var run := FileDownloadRun(candidates, latestFolder);
    if run.Started? && i < |run.tasks| {
      FilterKeeps(candidates, HasLink(), i);
      TasksForIndex(Filter(candidates, HasLink()), JoinPath(latestFolder, DOWNLOADS_FOLDER), i);
    }
  }

  // ---------------------------------------------------------------------
  // convert_files_to_text

  /** The glob of the downloads folder: `*.pdf` when only PDFs are wanted,
      `*.*` otherwise. */
  function DownloadGlob(onlyPdf: bool): string -> bool {
    if onlyPdf then (name: string) => MatchesExtension(name, PDF_EXTENSION) else (name: string) => MatchesAnyDotted(name)
  }

  /** A file is read as a PDF when its suffix, lower-cased, is ".pdf", and
      as HTML otherwise; `extract(name, asPdf)` is the text obtained, `None`
      when extraction or writing raises. */
  function FileConverter(extract: (string, bool) -> Option<string>): string -> Option<string> {
    (name: string) => extract(name, Lower(Suffix(name)) == PDF_EXTENSION)
  }

  function FileConversionRun(names: seq<string>, onlyPdf: bool, baseFolder: string,
                             extract: (string, bool) -> Option<string>): ConversionRun {
    var files := Filter(names, DownloadGlob(onlyPdf));
    if files == [] then NothingToConvert
    else Converted(Conversions(files, JoinPath(baseFolder, TXT_FOLDER), FileConverter(extract)))
  }

  /** `convert_files_to_text`: `names` lists the downloads folder. */
  method ConvertFilesToText(names: seq<string>, onlyPdf: bool, baseFolder: string,
                            extract: (string, bool) -> Option<string>)
    returns (run: ConversionRun)
    ensures run == FileConversionRun(names, onlyPdf, baseFolder, extract)
  {
    var txtFolder := JoinPath(baseFolder, TXT_FOLDER);
    var files := Filter(names, DownloadGlob(onlyPdf));
    if files == [] {
      return NothingToConvert;
    }
    var writes := ConvertEach(files, txtFolder, FileConverter(extract));
    run := Converted(writes);
  }

  /** Each write of a conversion is `txt/<stem>.txt` for a listed file the
      glob matches, holding that file's text, read as a PDF exactly when its
      lower-cased suffix is ".pdf"; with only PDFs wanted, every such file ends with
      ".pdf". */
  lemma {:induction false} FileConversionSpec(names: seq<string>, onlyPdf: bool, baseFolder: string,
                           extract: (string, bool) -> Option<string>, i: nat)
    requires FileConversionRun(names, onlyPdf, baseFolder, extract).Converted?
    requires i < |FileConversionRun(names, onlyPdf, baseFolder, extract).writes|
    ensures exists name :: name in names && DownloadGlob(onlyPdf)(name)
              && (onlyPdf ==> EndsWith(name, PDF_EXTENSION))
              && extract(name, Lower(Suffix(name)) == PDF_EXTENSION).Some?
              && FileConversionRun(names, onlyPdf, baseFolder, extract).writes[i]
                 == TxtWrite(TxtPath(JoinPath(baseFolder, TXT_FOLDER), name), extract(name, Lower(Suffix(name)) == PDF_EXTENSION).value)
  {
    var files := Filter(names, DownloadGlob(onlyPdf));
    var k := ConversionSource(files, JoinPath(baseFolder, TXT_FOLDER), FileConverter(extract), i);
    FilterKeeps(names, DownloadGlob(onlyPdf), k);
    var name := files[k];
    assert name in names && DownloadGlob(onlyPdf)(name);
  }

  /** Every listed file the glob matches and that converts is written to
      `txt/<stem>.txt` with its text, whatever failed before it. */
  lemma {:induction false} FileConversionComplete(names: seq<string>, onlyPdf: bool, baseFolder: string,
                               extract: (string, bool) -> Option<string>, k: nat)
    requires k < |names| && DownloadGlob(onlyPdf)(names[k])
    requires extract(names[k], Lower(Suffix(names[k])) == PDF_EXTENSION).Some?
    ensures FileConversionRun(names, onlyPdf, baseFolder, extract).Converted?
    ensures TxtWrite(TxtPath(JoinPath(baseFolder, TXT_FOLDER), names[k]),
                     extract(names[k], Lower(Suffix(names[k])) == PDF_EXTENSION).value)
            in FileConversionRun(names, onlyPdf, baseFolder, extract).writes
  {
    var files := Filter(names, DownloadGlob(onlyPdf));
    FilterMembers(names, DownloadGlob(onlyPdf), names[k]);
    assert names[k] in files;
    var j :| 0 <= j < |files| && files[j] == names[k];
    var i := ConversionComplete(files, JoinPath(baseFolder, TXT_FOLDER), FileConverter(extract), j);
  }
}
