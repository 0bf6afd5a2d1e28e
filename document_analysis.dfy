/** The document analysis of ai_api_final.py: a document small enough in
    tokens goes to the model in one prompt; a larger one is cut into token
    chunks, at most five of which are summarised one call each, and the
    summaries go to the model in a final prompt. The tokenizer is the pair
    of function parameters `encode`/`decode`; the model calls are answered
    in order from `replies`. */
module DocumentAnalysis {
  import opened Text
  import opened Wrappers
  import opened Oracle
  import opened Fences
  import opened Slicing

  const MAX_INPUT_TOKENS := 25000
  const CHUNK_TOKENS := 10000
  const MAX_CHUNKS := 5

  type Token = int

  /** The first `k` chunks of `tokens`, each decoded back to text. */
  function DecodedChunks(tokens: seq<Token>, size: nat, decode: seq<Token> -> string, k: nat): (r: seq<string>)
    requires size > 0 && k <= NumChunks(|tokens|, size)
    ensures |r| == k
  {
    if k == 0 then [] else DecodedChunks(tokens, size, decode, k - 1) + [decode(Chunk(tokens, size, k - 1))]
  }

  /** What `chunk_text` returns for a text whose tokens are `tokens`. */
  function ChunkTexts(tokens: seq<Token>, size: nat, decode: seq<Token> -> string): seq<string>
    requires size > 0
  {
    SliceTo(DecodedChunks(tokens, size, decode, NumChunks(|tokens|, size)), MAX_CHUNKS)
  }

  lemma {:induction false} DecodedChunksIndex(tokens: seq<Token>, size: nat, decode: seq<Token> -> string, k: nat, j: nat)
    requires size > 0 && j < k <= NumChunks(|tokens|, size)
    ensures DecodedChunks(tokens, size, decode, k)[j] == decode(Chunk(tokens, size, j))
  {
    if j < k - 1 {
      DecodedChunksIndex(tokens, size, decode, k - 1, j);
    }
  }

  /** `chunk_text` yields one text per chunk, at most five, and the `k`-th
      is the decoded `k`-th slice of `size` tokens. */
  lemma {:induction false} ChunkTextsShape(tokens: seq<Token>, size: nat, decode: seq<Token> -> string)
    requires size > 0
    ensures |ChunkTexts(tokens, size, decode)| == Min(MAX_CHUNKS, NumChunks(|tokens|, size))
    ensures forall k :: 0 <= k < |ChunkTexts(tokens, size, decode)| ==>
              k < NumChunks(|tokens|, size) && ChunkTexts(tokens, size, decode)[k] == decode(Chunk(tokens, size, k))
  {
    var n := NumChunks(|tokens|, size);
    var all := DecodedChunks(tokens, size, decode, n);
    forall k | 0 <= k < |ChunkTexts(tokens, size, decode)|
      ensures k < n && ChunkTexts(tokens, size, decode)[k] == decode(Chunk(tokens, size, k))
    {
      DecodedChunksIndex(tokens, size, decode, n, k);
    }
  }

  /** The chunks summarised hold exactly the first `5 * size` tokens (all
      of them when there are fewer): the rest of a long document is never
      read. */
  lemma {:induction false} ChunkTextsCover(tokens: seq<Token>, size: nat)
    requires size > 0
    ensures var m := Min(MAX_CHUNKS, NumChunks(|tokens|, size));
      Concat(Chunks(tokens, size)[..m]) == tokens[..Min(MAX_CHUNKS * size, |tokens|)]
  {
    var n := NumChunks(|tokens|, size);
    var m := Min(MAX_CHUNKS, n);
    ConcatFirstChunks(tokens, size, m);
    if m == n {
      ChunkIndexIff(|tokens|, size, n);
      MulMono(n, MAX_CHUNKS, size);
    }
  }

  /** `chunk_text`: the loop over `range(0, len(tokens), size)`, then the
      first five texts. */
  method ChunkText(text: string, encode: string -> seq<Token>, decode: seq<Token> -> string, size: nat)
    returns (chunks: seq<string>)
    requires size > 0
    ensures chunks == ChunkTexts(encode(text), size, decode)
  {
    var tokens := encode(text);
    var all: seq<string> := [];
    var i := 0;
    ghost var k: nat := 0;
    while i < |tokens|
      invariant k <= NumChunks(|tokens|, size) && i == k * size
      invariant all == DecodedChunks(tokens, size, decode, k)
      decreases |tokens| - i
    {
      ChunkIndexIff(|tokens|, size, k);
      var chunkTokens := tokens[i..Min(i + size, |tokens|)];
      all := all + [decode(chunkTokens)];
      assert (k + 1) * size == i + size;
      i := i + size;
      k := k + 1;
    }
    ChunkIndexIff(|tokens|, size, k);
    chunks := SliceTo(all, MAX_CHUNKS);
  }

  const PLACEHOLDER := "{{current_date}}"
  const DOCUMENT_INTRO := "\n\nHere is the document:\n\n"
  const SUMMARY_INTRO := "\n\nHere is the combined summary:\n\n"

  /** The request for part `i` of `n`. */
  function ChunkPrompt(i: nat, n: nat, chunk: string): string {
    "Summarize this document chunk (part " + NatToString(i) + "/" + NatToString(n)
    + ") with a focus on private investment opportunities:\n\n" + chunk
  }

  /** What stands in for the summary of part `i` when its call fails. */
  function ChunkFailure(i: nat): string {
    "\U{274C} Error summarizing chunk " + NatToString(i)
  }

  function Summary(reply: Outcome, i: nat): string {
    match reply
    case Ok(t) => CleanResponseText(t)
    case Fail => ChunkFailure(i)
  }

  /** The summaries of the first `m` parts, part `k + 1` answered by call `k`. */
  function Summaries(replies: seq<Outcome>, m: nat): (r: seq<string>)
    ensures |r| == m
  {
    if m == 0 then [] else Summaries(replies, m - 1) + [Summary(Answer(replies, m - 1), m)]
  }

  /** The requests for the first `m` parts. */
  function ChunkPrompts(chunks: seq<string>, m: nat): (r: seq<string>)
    requires m <= |chunks|
    ensures |r| == m
  {
    if m == 0 then [] else ChunkPrompts(chunks, m - 1) + [ChunkPrompt(m, |chunks|, chunks[m - 1])]
  }

  /** What an analysis returns and the user prompts it sent, in order. */
  datatype Analysis = Analysis(result: Option<string>, prompts: seq<string>)

  function Verdict(reply: Outcome): Option<string> {
    match reply
    case Ok(t) => Some(CleanResponseText(t))
    case Fail => None
  }

  /** The analysis proceeds only with an API key, a prompt template and a
      readable document. */
  predicate Proceeds(apiKey: Option<string>, template: Option<string>, document: Option<string>) {
    IsTruthy(apiKey) && IsTruthy(template) && document.Some?
  }

  function FilledTemplate(template: string, currentDate: string): string {
    ReplaceAll(template, PLACEHOLDER, currentDate)
  }

  /** `analyze_txt_file`. `document` is the page text of the file, `None`
      when it cannot be read; `currentDate` is the date as `YYYY-MM-DD`. */
  function Analyze(apiKey: Option<string>, template: Option<string>, document: Option<string>,
                   encode: string -> seq<Token>, decode: seq<Token> -> string,
                   currentDate: string, replies: seq<Outcome>): Analysis
  {
    if !Proceeds(apiKey, template, document) then Analysis(None, [])
    else
      var text := Strip(document.value);
      var filled := FilledTemplate(template.value, currentDate);
      if |encode(text)| <= MAX_INPUT_TOKENS then
        Analysis(Verdict(Answer(replies, 0)), [filled + DOCUMENT_INTRO + text])
      else
        var chunks := ChunkTexts(encode(text), CHUNK_TOKENS, decode);
        var n := |chunks|;
        var final := filled + SUMMARY_INTRO + Join(Summaries(replies, n), "\n\n");
        Analysis(Verdict(Answer(replies, n)), ChunkPrompts(chunks, n) + [final])
  }

  method AnalyzeTxtFile(apiKey: Option<string>, template: Option<string>, document: Option<string>,
                        encode: string -> seq<Token>, decode: seq<Token> -> string,
                        currentDate: string, replies: seq<Outcome>)
    returns (a: Analysis)
    ensures a == Analyze(apiKey, template, document, encode, decode, currentDate, replies)
  {
    if !IsTruthy(apiKey) {
      return Analysis(None, []);
    }
    if !IsTruthy(template) {
      return Analysis(None, []);
    }
    if document.None? {
      return Analysis(None, []);
    }
    var text := Strip(document.value);
    var tokens := encode(text);
    var filled := ReplaceAll(template.value, PLACEHOLDER, currentDate);
    if |tokens| <= MAX_INPUT_TOKENS {
      var fullPrompt := filled + DOCUMENT_INTRO + text;
      return Analysis(Verdict(Answer(replies, 0)), [fullPrompt]);
    }
    var chunks := ChunkText(text, encode, decode, CHUNK_TOKENS);
    var summaries: seq<string> := [];
    var prompts: seq<string> := [];
    var i := 0;
    while i < |chunks|
      invariant 0 <= i <= |chunks|
      invariant summaries == Summaries(replies, i)
      invariant prompts == ChunkPrompts(chunks, i)
    {
      var summaryPrompt := ChunkPrompt(i + 1, |chunks|, chunks[i]);
      prompts := prompts + [summaryPrompt];
      match Answer(replies, i) {
        case Ok(t) => summaries := summaries + [CleanResponseText(t)];
        case Fail => summaries := summaries + [ChunkFailure(i + 1)];
      }
      i := i + 1;
    }
    var combined := Join(summaries, "\n\n");
    var finalPrompt := filled + SUMMARY_INTRO + combined;
    a := Analysis(Verdict(Answer(replies, |chunks|)), prompts + [finalPrompt]);
  }

  // ---------------------------------------------------------------------
  // Properties of the analysis

  /** Without an API key, a template or a readable document nothing is sent
      and nothing is returned. */
  lemma {:induction false} AnalyzeNeedsKeyTemplateDocument(apiKey: Option<string>, template: Option<string>, document: Option<string>,
                                        encode: string -> seq<Token>, decode: seq<Token> -> string,
                                        currentDate: string, replies: seq<Outcome>)
    ensures var a := Analyze(apiKey, template, document, encode, decode, currentDate, replies);
      a.prompts == [] <==> !Proceeds(apiKey, template, document)
    ensures !Proceeds(apiKey, template, document) ==>
      Analyze(apiKey, template, document, encode, decode, currentDate, replies).result.None?
  {
  }

  /** A document of at most 25000 tokens is sent whole, after the filled
      template, in a single call whose cleaned answer is the result. */
  lemma {:induction false} AnalyzeSmallDocument(apiKey: Option<string>, template: Option<string>, document: Option<string>,
                             encode: string -> seq<Token>, decode: seq<Token> -> string,
                             currentDate: string, replies: seq<Outcome>)
    requires Proceeds(apiKey, template, document)
    requires |encode(Strip(document.value))| <= MAX_INPUT_TOKENS
    ensures var a := Analyze(apiKey, template, document, encode, decode, currentDate, replies);
      a.prompts == [FilledTemplate(template.value, currentDate) + DOCUMENT_INTRO + Strip(document.value)]
      && a.result == Verdict(Answer(replies, 0))
      && (a.result.Some? <==> Answer(replies, 0).Ok?)
  {
  }

  /** A larger document costs one call per chunk, at most five, and one
      final call: between four and six calls. Call `k` asks for part `k + 1`
      of the chunks; the final call sends the filled template, the summary
      header and the summaries joined by blank lines. The result is the
      cleaned answer of the final call and exists exactly when that call
      succeeds, whatever became of the chunk calls. */
  lemma {:induction false} AnalyzeLargeDocument(apiKey: Option<string>, template: Option<string>, document: Option<string>,
                             encode: string -> seq<Token>, decode: seq<Token> -> string,
                             currentDate: string, replies: seq<Outcome>)
    requires Proceeds(apiKey, template, document)
    requires |encode(Strip(document.value))| > MAX_INPUT_TOKENS
    ensures var a := Analyze(apiKey, template, document, encode, decode, currentDate, replies);
      var tokens := encode(Strip(document.value));
      |a.prompts| == Min(MAX_CHUNKS, NumChunks(|tokens|, CHUNK_TOKENS)) + 1
      && 4 <= |a.prompts| <= 6
      && (a.result.Some? <==> Answer(replies, |a.prompts| - 1).Ok?)
      && StartsWith(a.prompts[|a.prompts| - 1], FilledTemplate(template.value, currentDate) + SUMMARY_INTRO)
    ensures var a := Analyze(apiKey, template, document, encode, decode, currentDate, replies);
      var chunks := ChunkTexts(encode(Strip(document.value)), CHUNK_TOKENS, decode);
      var n := |chunks|;
      |a.prompts| == n + 1
      && a.prompts[..n] == ChunkPrompts(chunks, n)
      && a.prompts[n] == FilledTemplate(template.value, currentDate) + SUMMARY_INTRO + Join(Summaries(replies, n), "\n\n")
      && a.result == Verdict(Answer(replies, n))
  {
    var tokens := encode(Strip(document.value));
    ChunkTextsShape(tokens, CHUNK_TOKENS, decode);
    ChunkIndexIff(|tokens|, CHUNK_TOKENS, 2);
    var a := Analyze(apiKey, template, document, encode, decode, currentDate, replies);
    var filled := FilledTemplate(template.value, currentDate);
    var last := a.prompts[|a.prompts| - 1];
    assert last[..|filled + SUMMARY_INTRO|] == filled + SUMMARY_INTRO;
    var chunks := ChunkTexts(tokens, CHUNK_TOKENS, decode);
    assert a.prompts == ChunkPrompts(chunks, |chunks|) + [last];
  }

  /** The number of calls does not depend on what the model answers: a
      failed chunk call is replaced by a placeholder summary and the run goes
      on. (The final prompt does depend on the answers, through the
      summaries it carries.) */
  lemma {:induction false} AnalyzeCallsIndependentOfReplies(apiKey: Option<string>, template: Option<string>, document: Option<string>,
                                         encode: string -> seq<Token>, decode: seq<Token> -> string,
                                         currentDate: string, replies: seq<Outcome>, others: seq<Outcome>)
    ensures |Analyze(apiKey, template, document, encode, decode, currentDate, replies).prompts|
         == |Analyze(apiKey, template, document, encode, decode, currentDate, others).prompts|
  {
  }

  /** Part `k + 1` of `n` is summarised by the answer of call `k`, or by the
      placeholder when that call fails. */
  lemma {:induction false} SummariesIndex(replies: seq<Outcome>, m: nat, k: nat)
    requires k < m
    ensures Summaries(replies, m)[k] == Summary(Answer(replies, k), k + 1)
  {
    SummariesGrow(replies, k + 1, m, k);
    var prev := Summaries(replies, k);
    assert Summaries(replies, k + 1) == prev + [Summary(Answer(replies, k), k + 1)];
  }

  /** Later parts do not change the summaries of earlier ones. */
  lemma {:induction false} SummariesGrow(replies: seq<Outcome>, j: nat, m: nat, k: nat)
    requires k < j <= m
    ensures Summaries(replies, m)[k] == Summaries(replies, j)[k]
  {
    if j != m {
      SummariesGrow(replies, j, m - 1, k);
      SummariesDrop(replies, m);
      assert Summaries(replies, m)[..m - 1][k] == Summaries(replies, m)[k];
    }
  }

  lemma {:induction false} SummariesDrop(replies: seq<Outcome>, n: nat)
    requires 0 < n
    ensures Summaries(replies, n)[..n - 1] == Summaries(replies, n - 1)
  {
    var prev := Summaries(replies, n - 1);
    assert Summaries(replies, n) == prev + [Summary(Answer(replies, n - 1), n)];
  }

  /** A date made of digits and dashes replaces the placeholder wherever it
      occurs: none is left in the filled template. */
  lemma {:induction false} FilledTemplateHasNoPlaceholder(template: string, currentDate: string)
    requires currentDate != []
    requires forall i :: 0 <= i < |currentDate| ==> currentDate[i] == '-' || '0' <= currentDate[i] <= '9'
    ensures !Contains(FilledTemplate(template, currentDate), PLACEHOLDER)
  {
    ReplaceAllRemovesEvery(template, PLACEHOLDER, currentDate);
  }

  /** A 30000-token document is summarised in three parts: three chunk
      calls and a final one, whose cleaned answer is the result. */
  lemma {:induction false} ThirtyThousandTokens(apiKey: Option<string>, template: Option<string>, document: Option<string>,
                             encode: string -> seq<Token>, decode: seq<Token> -> string,
                             currentDate: string, replies: seq<Outcome>)
    requires Proceeds(apiKey, template, document)
    requires |encode(Strip(document.value))| == 30000
    ensures |Analyze(apiKey, template, document, encode, decode, currentDate, replies).prompts| == 4
    ensures Analyze(apiKey, template, document, encode, decode, currentDate, replies).result == Verdict(Answer(replies, 3))
  {
    AnalyzeLargeDocument(apiKey, template, document, encode, decode, currentDate, replies);
    ThreeChunks();
  }

  lemma {:induction false} ThreeChunks()
    ensures NumChunks(30000, CHUNK_TOKENS) == 3
  {
  }

  /** Call `k` asks for part `k + 1` of all the chunks, with chunk `k`. */
  lemma {:induction false} ChunkPromptsIndex(chunks: seq<string>, m: nat, k: nat)
    requires k < m <= |chunks|
    ensures ChunkPrompts(chunks, m)[k] == ChunkPrompt(k + 1, |chunks|, chunks[k])
  {
    ChunkPromptsGrow(chunks, k + 1, m, k);
    var prev := ChunkPrompts(chunks, k);
    assert ChunkPrompts(chunks, k + 1) == prev + [ChunkPrompt(k + 1, |chunks|, chunks[k])];
  }

  /** Later parts do not change the requests for earlier ones. */
  lemma {:induction false} ChunkPromptsGrow(chunks: seq<string>, j: nat, m: nat, k: nat)
    requires k < j <= m <= |chunks|
    ensures ChunkPrompts(chunks, m)[k] == ChunkPrompts(chunks, j)[k]
  {
    if j != m {
      ChunkPromptsGrow(chunks, j, m - 1, k);
      ChunkPromptsDrop(chunks, m);
      assert ChunkPrompts(chunks, m)[..m - 1][k] == ChunkPrompts(chunks, m)[k];
    }
  }

  lemma {:induction false} ChunkPromptsDrop(chunks: seq<string>, n: nat)
    requires 0 < n <= |chunks|
    ensures ChunkPrompts(chunks, n)[..n - 1] == ChunkPrompts(chunks, n - 1)
  {
    var prev := ChunkPrompts(chunks, n - 1);
    assert ChunkPrompts(chunks, n) == prev + [ChunkPrompt(n, |chunks|, chunks[n - 1])];
  }
}
