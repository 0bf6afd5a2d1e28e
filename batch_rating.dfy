/** The investment-relevance rating of ai_api.py: the candidates are sent
    in consecutive batches, one model call each, and the per-batch maps
    from hash to rating are merged into one. The model calls are answered
    in order from `replies`; `json.loads` is the function parameter
    `parse`, which yields `None` when the text is not a JSON object of
    ratings. */
module BatchRating {
  import opened Text
  import opened Wrappers
  import opened Oracle
  import opened Fences
  import opened Slicing
  import opened Candidates

  const ITEMS_HEADER := "\n\nItems:\n"
  const DEFAULT_BATCH_SIZE := 10

  /** The lines describing one candidate. */
  function ItemBlock(c: Candidate): string {
    "\nHash: " + c.hash + "\nTitle: " + c.name + "\nDescription: " + c.description + "\nURL: " + c.url + "\n"
  }

  /** The concatenation of `f` over `xs`, in order. */
  function Joined<T>(xs: seq<T>, f: T -> string): string {
    if xs == [] then [] else Joined(xs[..|xs| - 1], f) + f(xs[|xs| - 1])
  }

  /** The prompt for one batch: the configured base prompt, the header, then
      one block per candidate. */
  function BatchPrompt(base: string, entries: seq<Candidate>): string {
    base + ITEMS_HEADER + Joined(entries, ItemBlock)
  }

  lemma {:induction false} JoinedAppend<T>(a: seq<T>, b: seq<T>, f: T -> string)
    ensures Joined(a + b, f) == Joined(a, f) + Joined(b, f)
    decreases |b|
  {
    if b == [] {
      assert a + b == a;
    } else {
      JoinedAppend(a, b[..|b| - 1], f);
      assert (a + b)[..|a + b| - 1] == a + b[..|b| - 1];
    }
  }

  lemma {:induction false} JoinedAround<T>(xs: seq<T>, k: nat, f: T -> string)
    requires k < |xs|
    ensures Joined(xs, f) == Joined(xs[..k], f) + f(xs[k]) + Joined(xs[k + 1..], f)
  {
    assert xs == xs[..k] + [xs[k]] + xs[k + 1..];
    JoinedAppend(xs[..k] + [xs[k]], xs[k + 1..], f);
    JoinedAppend(xs[..k], [xs[k]], f);
    assert Joined([xs[k]], f) == f(xs[k]) by {
      assert [xs[k]][..0] == [];
    }
  }

  /** The prompt lists the candidates in order: it is the header followed
      by the first candidates' blocks, then the block of candidate `k`, then
      the rest. */
  lemma {:induction false} BatchPromptLists(base: string, entries: seq<Candidate>, k: nat)
    requires k < |entries|
    ensures BatchPrompt(base, entries)
            == base + ITEMS_HEADER + Joined(entries[..k], ItemBlock) + ItemBlock(entries[k])
               + Joined(entries[k + 1..], ItemBlock)
  {
    JoinedAround(entries, k, ItemBlock);
  }

  /** `format_prompt`: the base prompt, the header, then a block appended
      for each candidate. */
  method FormatPrompt(base: string, entries: seq<Candidate>) returns (prompt: string)
    ensures prompt == BatchPrompt(base, entries)
  {
    prompt := base + ITEMS_HEADER;
    var k := 0;
    while k < |entries|
      invariant 0 <= k <= |entries|
      invariant prompt == base + ITEMS_HEADER + Joined(entries[..k], ItemBlock)
    {
      assert entries[..k + 1][..k] == entries[..k];
      prompt := prompt + ItemBlock(entries[k]);
      k := k + 1;
    }
    assert entries[..k] == entries;
  }

  /** The ratings one reply contributes: those of the JSON object it holds
      once cleaned, nothing when the call failed or does not parse. */
  function ReplyRatings(reply: Outcome, parse: string -> Option<map<string, int>>): map<string, int> {
    if reply.Ok? && parse(CleanJsonResponse(reply.text)).Some? then parse(CleanJsonResponse(reply.text)).value
    else map[]
  }

  /** The maps `rated(0)`, ..., `rated(k - 1)` merged as `dict.update`
      merges them: a later map's value for a key replaces an earlier one. */
  function Merged(rated: nat -> map<string, int>, k: nat): map<string, int> {
    if k == 0 then map[] else Merged(rated, k - 1) + rated(k - 1)
  }

  /** The ratings batch `j` contributes. */
  function BatchRatings(replies: seq<Outcome>, parse: string -> Option<map<string, int>>): nat -> map<string, int> {
    (j: nat) => ReplyRatings(Answer(replies, j), parse)
  }

  /** The ratings after the first `k` batches. */
  function RatingsAfter(replies: seq<Outcome>, parse: string -> Option<map<string, int>>, k: nat): map<string, int> {
    Merged(BatchRatings(replies, parse), k)
  }

  lemma {:induction false} RatingsAfterStep(replies: seq<Outcome>, parse: string -> Option<map<string, int>>, k: nat)
    ensures RatingsAfter(replies, parse, k + 1) == RatingsAfter(replies, parse, k) + ReplyRatings(Answer(replies, k), parse)
  {
  }

  /** The prompts of the first `k` batches. */
  function BatchPrompts(base: string, entries: seq<Candidate>, size: nat, k: nat): (r: seq<string>)
    requires size > 0 && k <= NumChunks(|entries|, size)
    ensures |r| == k
  {
    if k == 0 then [] else BatchPrompts(base, entries, size, k - 1) + [BatchPrompt(base, Chunk(entries, size, k - 1))]
  }

  /** A rating run either raises for want of an API key or returns the
      merged ratings; `prompts` are the prompts sent, in order. */
  datatype RatingRun = MissingApiKey | Rated(ratings: map<string, int>, prompts: seq<string>)

  function Rate(entries: seq<Candidate>, size: nat, apiKey: Option<string>, base: string,
                replies: seq<Outcome>, parse: string -> Option<map<string, int>>): RatingRun
    requires size > 0
  {
    if !IsTruthy(apiKey) then MissingApiKey
    else
      var n := NumChunks(|entries|, size);
      Rated(RatingsAfter(replies, parse, n), BatchPrompts(base, entries, size, n))
  }

  /** One pass of the batch loop: the batch's prompt, and the ratings with
      the reply's object merged in when the call succeeded and its cleaned
      text parses. */
  method RateBatch(base: string, batch: seq<Candidate>, reply: Outcome, parse: string -> Option<map<string, int>>,
                   results: map<string, int>)
    returns (prompt: string, merged: map<string, int>)
    ensures prompt == BatchPrompt(base, batch)
    ensures merged == results + ReplyRatings(reply, parse)
    ensures reply.Fail? ==> merged == results
  {
    prompt := FormatPrompt(base, batch);
    merged := results;
    if reply.Ok? {
      var parsed := parse(CleanJsonResponse(reply.text));
      if parsed.Some? {
        merged := results + parsed.value;
      }
    }
  }

  /** `rate_entries_with_gpt`. `base` is the configured base prompt (empty
      when it is not configured). */
  method RateEntriesWithGpt(entries: seq<Candidate>, size: nat, apiKey: Option<string>, base: string,
                            replies: seq<Outcome>, parse: string -> Option<map<string, int>>)
    returns (run: RatingRun)
    requires size > 0
    ensures run == Rate(entries, size, apiKey, base, replies, parse)
  {
    if !IsTruthy(apiKey) {
      return MissingApiKey;
    }
    var results: map<string, int> := map[];
    var prompts: seq<string> := [];
    var i := 0;
    var k: nat := 0;
    while i < |entries|
      invariant k <= NumChunks(|entries|, size) && i == k * size
      invariant results == RatingsAfter(replies, parse, k)
      invariant prompts == BatchPrompts(base, entries, size, k)
      decreases |entries| - i
    {
      ChunkIndexIff(|entries|, size, k);
      var batch := entries[i..Min(i + size, |entries|)];
      assert batch == Chunk(entries, size, k);
      var prompt;
      prompt, results := RateBatch(base, batch, Answer(replies, k), parse, results);
      prompts := prompts + [prompt];
      RatingsAfterStep(replies, parse, k);
      NextChunkStart(k, size);
      i := i + size;
      k := k + 1;
    }
    ChunkIndexIff(|entries|, size, k);
    run := Rated(results, prompts);
  }

  lemma {:induction false} NextChunkStart(k: nat, size: nat)
    ensures (k + 1) * size == k * size + size
  {
  }

  // ---------------------------------------------------------------------
  // Properties of a rating run

  lemma {:induction false} MergedKeeps(rated: nat -> map<string, int>, k: nat, j: nat, h: string)
    requires j < k && h in rated(j)
    ensures h in Merged(rated, k)
  {
    if j < k - 1 {
      MergedKeeps(rated, k - 1, j, h);
    }
  }

  lemma {:induction false} MergedSource(rated: nat -> map<string, int>, k: nat, h: string) returns (j: nat)
    requires h in Merged(rated, k)
    ensures j < k && h in rated(j)
  {
    if h in rated(k - 1) {
      j := k - 1;
    } else {
      j := MergedSource(rated, k - 1, h);
    }
  }

  lemma {:induction false} MergedLastWins(rated: nat -> map<string, int>, k: nat, j: nat, h: string)
    requires j < k && h in rated(j)
    requires forall l :: j < l < k ==> h !in rated(l)
    ensures h in Merged(rated, k) && Merged(rated, k)[h] == rated(j)[h]
  {
    if j < k - 1 {
      MergedLastWins(rated, k - 1, j, h);
    }
  }

  /** A hash some batch's reply rated is rated in the end: a later failed
      or unparsable batch removes nothing. */
  lemma {:induction false} RatingsAfterKeeps(replies: seq<Outcome>, parse: string -> Option<map<string, int>>,
                          k: nat, j: nat, h: string)
    requires j < k && h in ReplyRatings(Answer(replies, j), parse)
    ensures h in RatingsAfter(replies, parse, k)
  {
    MergedKeeps(BatchRatings(replies, parse), k, j, h);
  }

  /** Every rated hash comes from a batch whose reply was a JSON object
      rating it: a failed or unparsable batch adds nothing. */
  lemma {:induction false} RatingsAfterSource(replies: seq<Outcome>, parse: string -> Option<map<string, int>>,
                           k: nat, h: string)
    returns (j: nat)
    requires h in RatingsAfter(replies, parse, k)
    ensures j < k && h in ReplyRatings(Answer(replies, j), parse)
  {
    j := MergedSource(BatchRatings(replies, parse), k, h);
  }

  /** The rating kept for a hash is the one of the last batch that rated it. */
  lemma {:induction false} RatingsAfterLastWins(replies: seq<Outcome>, parse: string -> Option<map<string, int>>,
                             k: nat, j: nat, h: string)
    requires j < k && h in ReplyRatings(Answer(replies, j), parse)
    requires forall l :: j < l < k ==> h !in ReplyRatings(Answer(replies, l), parse)
    ensures h in RatingsAfter(replies, parse, k)
    ensures RatingsAfter(replies, parse, k)[h] == ReplyRatings(Answer(replies, j), parse)[h]
  {
    MergedLastWins(BatchRatings(replies, parse), k, j, h);
  }

  /** Without an API key the run raises before any call; otherwise there is
      one call per batch of `size` consecutive candidates, in order, and no
      call at all for an empty list. */
  lemma {:induction false} RateCalls(entries: seq<Candidate>, size: nat, apiKey: Option<string>, base: string,
                  replies: seq<Outcome>, parse: string -> Option<map<string, int>>)
    requires size > 0
    ensures Rate(entries, size, apiKey, base, replies, parse).MissingApiKey? <==> !IsTruthy(apiKey)
    ensures IsTruthy(apiKey) ==>
      var run := Rate(entries, size, apiKey, base, replies, parse);
      |run.prompts| == NumChunks(|entries|, size)
      && (entries == [] ==> run.ratings == map[] && run.prompts == [])
      && forall k :: 0 <= k < |run.prompts| ==> run.prompts[k] == BatchPrompt(base, Chunk(entries, size, k))
  {
    if IsTruthy(apiKey) {
      var n := NumChunks(|entries|, size);
      if entries == [] {
        ChunkIndexIff(0, size, 0);
        assert n == 0;
      }
      forall k | 0 <= k < n
        ensures BatchPrompts(base, entries, size, n)[k] == BatchPrompt(base, Chunk(entries, size, k))
      {
        BatchPromptsIndex(base, entries, size, n, k);
      }
    }
  }

  lemma {:induction false} BatchPromptsIndex(base: string, entries: seq<Candidate>, size: nat, m: nat, k: nat)
    requires size > 0 && k < m <= NumChunks(|entries|, size)
    ensures BatchPrompts(base, entries, size, m)[k] == BatchPrompt(base, Chunk(entries, size, k))
  {
    if k < m - 1 {
      BatchPromptsIndex(base, entries, size, m - 1, k);
    }
  }

  /** 25 candidates rated in batches of 10 cost three calls, listing the
      candidates 0-9, 10-19 and 20-24. */
  lemma {:induction false} TwentyFiveCandidates(entries: seq<Candidate>, apiKey: Option<string>, base: string,
                             replies: seq<Outcome>, parse: string -> Option<map<string, int>>)
    requires |entries| == 25 && IsTruthy(apiKey)
    ensures var run := Rate(entries, DEFAULT_BATCH_SIZE, apiKey, base, replies, parse);
      run.Rated? && |run.prompts| == 3
      && run.prompts[0] == BatchPrompt(base, entries[..10])
      && run.prompts[1] == BatchPrompt(base, entries[10..20])
      && run.prompts[2] == BatchPrompt(base, entries[20..])
  {
    RateCalls(entries, DEFAULT_BATCH_SIZE, apiKey, base, replies, parse);
    assert NumChunks(|entries|, DEFAULT_BATCH_SIZE) == 3;
    assert Chunk(entries, DEFAULT_BATCH_SIZE, 0) == entries[..10];
    assert Chunk(entries, DEFAULT_BATCH_SIZE, 1) == entries[10..20];
    assert Chunk(entries, DEFAULT_BATCH_SIZE, 2) == entries[20..];
  }
}
