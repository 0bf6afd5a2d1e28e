/** pdf_work.py: downloading the ready candidates whose links are PDFs,
    and converting the downloaded PDFs to text. Responses, the folder
    listing and the PDF text extractor are inputs as in file_work.py. */
module PdfWork {
  import opened Text
  import opened Wrappers
  import opened Paths
  import opened Retry
  import opened Filtering
  import opened Candidates
  import opened Downloads

  const PDF_EXTENSION := ".pdf"
  const PDF_FOLDER := "pdf"
  const TXT_FOLDER := "txt"
  const PDF_CONTENT_TYPE := "application/pdf"

  /** A response is saved only when its status is 200 and its content type
      contains "application/pdf". The content type is aiohttp's
      `content_type`, the media type already lower-cased. */
  predicate Accepted(a: Attempt) {
    a.Response? && a.status == 200 && Contains(a.contentType, PDF_CONTENT_TYPE)
  }

  /** `download_pdf` for one attempt: the content is written to the save
      path as it is, or the call raises. */
  function DownloadPdf(savePath: string, a: Attempt): (o: DownloadOutcome)
    ensures o == Written(savePath) <==> Accepted(a)
    ensures o == Raised <==> !Accepted(a)
  {
    if a.Response? && a.status == 200 && Contains(a.contentType, PDF_CONTENT_TYPE) then Written(savePath) else Raised
  }

  /** The substring test itself is case-sensitive: a value
      "Application/PDF" would be refused. aiohttp never reports one in that
      spelling, because it lower-cases the media type first. */
  lemma {:induction false} ContentTypeCaseSensitive(savePath: string)
    ensures DownloadPdf(savePath, Response(200, "Application/PDF")) == Raised
  {
    var ct := "Application/PDF";
    forall i | 0 <= i <= |ct| - |PDF_CONTENT_TYPE| ensures !OccursAt(ct, PDF_CONTENT_TYPE, i) {
      assert i == 0;
      assert ct[0] != PDF_CONTENT_TYPE[0];
    }
  }

  /** `download_with_retries`: at most three attempts, ending at the first
      accepted response; when all three are refused it gives up without
      raising. */
  method DownloadWithRetries(savePath: string, attempts: nat -> Attempt) returns (tried: nat, last: DownloadOutcome)
    ensures 1 <= tried <= RETRY_ATTEMPTS
    ensures forall j :: 0 <= j < tried - 1 ==> !Accepted(attempts(j))
    ensures tried < RETRY_ATTEMPTS ==> Accepted(attempts(tried - 1))
    ensures last == DownloadPdf(savePath, attempts(tried - 1))
  {
    var attempt := (k: nat) => DownloadPdf(savePath, attempts(k));
    tried, last := WithRetries(attempt, DidRaise);
    AttemptsMadeSpec(attempt, DidRaise, tried);
  }

  // ---------------------------------------------------------------------
  // download_pdfs_from_ready_candidates

  /** `c.get("url", "").strip().lower().endswith(".pdf")`. */
  function IsPdfLink(): Candidate -> bool {
    (c: Candidate) => EndsWith(Lower(Strip(c.url)), PDF_EXTENSION)
  }

  function PdfTaskFor(c: Candidate, folder: string): Task {
    Task(c.url, JoinPath(folder, c.hash + PDF_EXTENSION))
  }

  function PdfTasksFor(cs: seq<Candidate>, folder: string): (r: seq<Task>)
    ensures |r| == |cs|
  {
    if cs == [] then [] else PdfTasksFor(cs[..|cs| - 1], folder) + [PdfTaskFor(cs[|cs| - 1], folder)]
  }

  function PdfDownloadRun(candidates: seq<Candidate>, latestFolder: string): DownloadRun {
    var pdfCandidates := Filter(candidates, IsPdfLink());
    if pdfCandidates == [] then NoCandidates
    else Started(JoinPath(latestFolder, PDF_FOLDER), PdfTasksFor(pdfCandidates, JoinPath(latestFolder, PDF_FOLDER)))
  }

  /** The task loop: one task per PDF candidate, saving `<hash>.pdf` under
      `folder`; the link is used as written, unstripped. */
  method MakePdfTasks(pdfCandidates: seq<Candidate>, folder: string) returns (tasks: seq<Task>)
    ensures tasks == PdfTasksFor(pdfCandidates, folder)
  {
    tasks := [];
    for i := 0 to |pdfCandidates|
      invariant tasks == PdfTasksFor(pdfCandidates[..i], folder)
    {
      var entry := pdfCandidates[i];
      var savePath := JoinPath(folder, entry.hash + PDF_EXTENSION);
      assert pdfCandidates[..i + 1][..i] == pdfCandidates[..i];
      tasks := tasks + [Task(entry.url, savePath)];
    }
    assert pdfCandidates[..|pdfCandidates|] == pdfCandidates;
  }

  /** `download_pdfs_from_ready_candidates` up to the start of the tasks. */
  method DownloadPdfsFromReadyCandidates(candidates: seq<Candidate>, latestFolder: string) returns (run: DownloadRun)
    ensures run == PdfDownloadRun(candidates, latestFolder)
  {
    var pdfCandidates := Filter(candidates, IsPdfLink());
    if pdfCandidates == [] {
      return NoCandidates;
    }
    var pdfFolder := JoinPath(latestFolder, PDF_FOLDER);
    var tasks := MakePdfTasks(pdfCandidates, pdfFolder);
    run := Started(pdfFolder, tasks);
  }

  lemma {:induction false} PdfTasksForIndex(cs: seq<Candidate>, folder: string, i: nat)
    requires i < |cs|
    ensures PdfTasksFor(cs, folder)[i] == PdfTaskFor(cs[i], folder)
  {
    if i < |cs| - 1 {
      PdfTasksForIndex(cs[..|cs| - 1], folder, i);
    }
  }

  /** Nothing is started, not even the folder, when no link ends with
      ".pdf"; otherwise one task per such candidate, in order, saving to
      `pdf/<hash>.pdf`. */
  lemma {:induction false} PdfDownloadRunSpec(candidates: seq<Candidate>, latestFolder: string, i: nat)
    ensures PdfDownloadRun(candidates, latestFolder).NoCandidates?
            <==> forall k :: 0 <= k < |candidates| ==> !EndsWith(Lower(Strip(candidates[k].url)), PDF_EXTENSION)
    ensures PdfDownloadRun(candidates, latestFolder).Started? && i < |PdfDownloadRun(candidates, latestFolder).tasks| ==>
              var c := Filter(candidates, IsPdfLink())[i];
              c in candidates && EndsWith(Lower(Strip(c.url)), PDF_EXTENSION)
              && PdfDownloadRun(candidates, latestFolder).tasks[i]
                 == Task(c.url, JoinPath(JoinPath(latestFolder, PDF_FOLDER), c.hash + PDF_EXTENSION))
  {
    FilterEmptyIff(candidates, IsPdfLink());
    var run := PdfDownloadRun(candidates, latestFolder);
    if run.Started? && i < |run.tasks| {
      FilterKeeps(candidates, IsPdfLink(), i);
      PdfTasksForIndex(Filter(candidates, IsPdfLink()), JoinPath(latestFolder, PDF_FOLDER), i);
    }
  }

  // ---------------------------------------------------------------------
  // convert_pdfs_to_text

  function PdfGlob(): string -> bool {
    (name: string) => MatchesExtension(name, PDF_EXTENSION)
  }

  function PdfConversionRun(names: seq<string>, baseFolder: string, extract: string -> Option<string>): ConversionRun {
    var pdfFiles := Filter(names, PdfGlob());
    if pdfFiles == [] then NothingToConvert else Converted(Conversions(pdfFiles, JoinPath(baseFolder, TXT_FOLDER), extract))
  }

  /** `convert_pdfs_to_text`: `names` lists the pdf folder and
      `extract(name)` is the text of a file, `None` when extraction or
      writing raises. */
  method ConvertPdfsToText(names: seq<string>, baseFolder: string, extract: string -> Option<string>)
    returns (run: ConversionRun)
    ensures run == PdfConversionRun(names, baseFolder, extract)
  {
    var txtFolder := JoinPath(baseFolder, TXT_FOLDER);
    var pdfFiles := Filter(names, PdfGlob());
    if pdfFiles == [] {
      return NothingToConvert;
    }
    var writes := ConvertEach(pdfFiles, txtFolder, extract);
    run := Converted(writes);
  }

  /** Every PDF file that converts gets `txt/<stem>.txt`, whatever failed
      before it, and every write is of such a file. */
  lemma {:induction false} PdfConversionSpec(names: seq<string>, baseFolder: string, extract: string -> Option<string>, k: nat)
    requires k < |names| && EndsWith(names[k], PDF_EXTENSION) && extract(names[k]).Some?
    ensures PdfConversionRun(names, baseFolder, extract).Converted?
    ensures TxtWrite(TxtPath(JoinPath(baseFolder, TXT_FOLDER), names[k]), extract(names[k]).value)
            in PdfConversionRun(names, baseFolder, extract).writes
  {
    var pdfFiles := Filter(names, PdfGlob());
    FilterMembers(names, PdfGlob(), names[k]);
    assert names[k] in pdfFiles;
    var j :| 0 <= j < |pdfFiles| && pdfFiles[j] == names[k];
    var i := ConversionComplete(pdfFiles, JoinPath(baseFolder, TXT_FOLDER), extract, j);
  }

  /** Every write of a PDF conversion is `txt/<stem>.txt` for a listed
      ".pdf" file that converts, holding its text. */
  lemma {:induction false} PdfConversionSound(names: seq<string>, baseFolder: string, extract: string -> Option<string>, i: nat)
    requires PdfConversionRun(names, baseFolder, extract).Converted?
    requires i < |PdfConversionRun(names, baseFolder, extract).writes|
    ensures exists name :: name in names && EndsWith(name, PDF_EXTENSION) && extract(name).Some?
              && PdfConversionRun(names, baseFolder, extract).writes[i]
                 == TxtWrite(TxtPath(JoinPath(baseFolder, TXT_FOLDER), name), extract(name).value)
  {
    var pdfFiles := Filter(names, PdfGlob());
    var k := ConversionSource(pdfFiles, JoinPath(baseFolder, TXT_FOLDER), extract, i);
    FilterKeeps(names, PdfGlob(), k);
    var name := pdfFiles[k];
    assert name in names && EndsWith(name, PDF_EXTENSION);
  }
}
