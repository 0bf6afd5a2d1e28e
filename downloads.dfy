/** What the two downloaders (file_work.py and pdf_work.py) share: the
    outcome of one HTTP attempt and of one download, the download tasks a
    run starts, and the per-file conversion loop that writes one text file
    per downloaded file, going on after a file that fails. */
module Downloads {
  import opened Wrappers
  import opened Paths

  /** One HTTP attempt: a response with its status and content type (the
      media type as aiohttp reports it, lower-cased), or an error before
      any response (timeout, connection failure). */
  datatype Attempt = Response(status: int, contentType: string) | NoResponse

  /** How one download call ends: the content written to `path`, a return
      without writing anything, or an exception. */
  datatype DownloadOutcome = Written(path: string) | Skipped | Raised

  function DidRaise(o: DownloadOutcome): bool { o.Raised? }

  /** A download task: the link and the path it is saved under. */
  datatype Task = Task(url: string, savePath: string)

  /** A download run: it returns at once when no candidate qualifies;
      otherwise it creates `folder` and starts one task per candidate. */
  datatype DownloadRun = NoCandidates | Started(folder: string, tasks: seq<Task>)

  /** One text file written by a conversion. */
  datatype TxtWrite = TxtWrite(path: string, text: string)

  /** A conversion run: it returns at once when the glob finds nothing.
      Otherwise it writes text files. */
  datatype ConversionRun = NothingToConvert | Converted(writes: seq<TxtWrite>)

  const TXT_EXTENSION := ".txt"

  /** The text file for `name`: `<txtFolder>/<stem>.txt`. */
  function TxtPath(txtFolder: string, name: string): string {
    JoinPath(txtFolder, Stem(name) + TXT_EXTENSION)
  }

  /** The writes of the conversion loop over `files`; `convert(name)` is the
      extracted text, `None` when extraction or writing raises. */
  function Conversions(files: seq<string>, txtFolder: string, convert: string -> Option<string>): seq<TxtWrite> {
    if files == [] then []
    else
      var name := files[|files| - 1];
      Conversions(files[..|files| - 1], txtFolder, convert)
      + (if convert(name).Some? then [TxtWrite(TxtPath(txtFolder, name), convert(name).value)] else [])
  }

  /** The conversion loop: each file in turn, an exception on one file
      being logged and the loop going on. */
  method ConvertEach(files: seq<string>, txtFolder: string, convert: string -> Option<string>)
    returns (writes: seq<TxtWrite>)
    ensures writes == Conversions(files, txtFolder, convert)
  {
    writes := [];
    for i := 0 to |files|
      invariant writes == Conversions(files[..i], txtFolder, convert)
    {
      assert files[..i + 1][..i] == files[..i];
      var text := convert(files[i]);
      if text.Some? {
        writes := writes + [TxtWrite(TxtPath(txtFolder, files[i]), text.value)];
      }
    }
    assert files[..|files|] == files;
  }

  /** Every write is the text of one file, under that file's text path. */
  lemma {:induction false} ConversionSource(files: seq<string>, txtFolder: string, convert: string -> Option<string>, i: nat)
    returns (k: nat)
    requires i < |Conversions(files, txtFolder, convert)|
    ensures k < |files| && convert(files[k]).Some?
    ensures Conversions(files, txtFolder, convert)[i] == TxtWrite(TxtPath(txtFolder, files[k]), convert(files[k]).value)
  {
    var init := files[..|files| - 1];
    if i < |Conversions(init, txtFolder, convert)| {
      k := ConversionSource(init, txtFolder, convert, i);
    } else {
      k := |files| - 1;
    }
  }

  /** Every file that converts is written, whatever happened to the files
      before it. */
  lemma {:induction false} ConversionComplete(files: seq<string>, txtFolder: string, convert: string -> Option<string>, k: nat)
    returns (i: nat)
    requires k < |files| && convert(files[k]).Some?
    ensures i < |Conversions(files, txtFolder, convert)|
    ensures Conversions(files, txtFolder, convert)[i] == TxtWrite(TxtPath(txtFolder, files[k]), convert(files[k]).value)
  {
    var init := files[..|files| - 1];
    if k < |files| - 1 {
      assert init[k] == files[k];
      i := ConversionComplete(init, txtFolder, convert, k);
    } else {
      i := |Conversions(init, txtFolder, convert)|;
    }
  }
}
