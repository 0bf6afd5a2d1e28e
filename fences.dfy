/** Removal of the Markdown code fence a language model may wrap around its
    reply. `CleanResponseText` is the cleaner of duplicate_checker.py and
    ai_api_final.py (the two files hold the same function);
    `CleanJsonResponse` is the stricter cleaner of ai_api.py. Each regular
    expression becomes one function that states what its substitution
    removes. */
module Fences {
  import opened Text

  const FENCE := "```"

  /** Four characters that match `json` under `re.IGNORECASE`. Python's
      case-insensitive matching also lets U+017F (long s) match `s`. */
  predicate IsJsonTag(t: string) {
    |t| == 4
    && (t[0] == 'j' || t[0] == 'J')
    && (t[1] == 's' || t[1] == 'S' || t[1] == '\U{017F}')
    && (t[2] == 'o' || t[2] == 'O')
    && (t[3] == 'n' || t[3] == 'N')
  }

  predicate StartsWithJsonTag(s: string) {
    |s| >= 4 && IsJsonTag(s[..4])
  }

  /** `re.sub(r'^\s*```(?:json)?\s*', '', t, flags=re.IGNORECASE)`: the
      pattern is anchored at the start, so at most one match is removed: the
      leading whitespace, a fence, an optional `json` tag and the whitespace
      after them. */
  function DropLeadingFence(t: string): string {
    var u := LStrip(t);
    if StartsWith(u, FENCE) then LStrip(DropJsonTag(u[3..])) else t
  }

  /** The optional `(?:json)?` group: greedy, so taken whenever present. */
  function DropJsonTag(v: string): string {
    if StartsWithJsonTag(v) then v[4..] else v
  }

  lemma {:induction false} DropJsonTagOf(tag: string, w: string)
    requires IsJsonTag(tag)
    ensures DropJsonTag(tag + w) == w
  {
    assert (tag + w)[..4] == tag;
  }

  /** `re.sub(r'\s*```\s*$', '', t)`: the fence must be the last non-space
      text; the match starts at the whitespace run before it and runs to
      the end. */
  function DropTrailingFence(t: string): string {
    var u := RStrip(t);
    if EndsWith(u, FENCE) then RStrip(u[..|u| - 3]) else t
  }

  /** `clean_response_text`. */
  function CleanResponseText(text: string): string {
    Strip(DropTrailingFence(DropLeadingFence(text)))
  }

  /** Leading whitespace followed by text that does not start with
      whitespace: `lstrip` removes exactly the whitespace. */
  lemma {:induction false} LStripSpacesThen(a: string, b: string)
    requires AllSpace(a) && (b == [] || !IsSpace(b[0]))
    ensures LStrip(a + b) == b
  {
    LStripAppend(a, b);
    LStripOfStripped(b);
  }

  /** Text that does not end with whitespace followed by trailing
      whitespace: `rstrip` removes exactly the whitespace. */
  lemma {:induction false} RStripThenSpaces(a: string, b: string)
    requires (a == [] || !IsSpace(a[|a| - 1])) && AllSpace(b)
    ensures RStrip(a + b) == a
  {
    RStripAppend(a, b);
    RStripOfStripped(a);
  }

  /** `lstrip` of text followed by a fence: the fence survives. */
  lemma {:induction false} LStripBeforeFence(inner: string, rest: string)
    requires StartsWith(rest, FENCE)
    ensures LStrip(inner + rest) == LStrip(inner) + rest
  {
    LStripAppend(inner, rest);
    LStripOfStripped(rest);
  }

  /** The opening substitution of `clean_response_text` on a fenced reply
      removes the whitespace, the fence and the tag, when there is one. */
  lemma {:induction false} DropLeadingOfFenced(lead: string, tag: string, w: string)
    requires AllSpace(lead)
    requires tag == [] || IsJsonTag(tag)
    requires tag == [] ==> !StartsWithJsonTag(w)
    ensures DropLeadingFence(lead + (FENCE + (tag + w))) == LStrip(w)
  {
    var rest := FENCE + (tag + w);
    LStripSpacesThen(lead, rest);
    assert rest[3..] == tag + w;
    if tag != [] {
      DropJsonTagOf(tag, w);
    } else {
      assert tag + w == w;
    }
  }

  /** The closing substitution of `clean_response_text` removes a final
      fence together with the whitespace around it. */
  lemma {:induction false} DropTrailingOfFenced(x: string, trail: string)
    requires AllSpace(trail)
    ensures DropTrailingFence(x + (FENCE + trail)) == RStrip(x)
  {
    RStripThenSpaces(FENCE, trail);
    RStripAppend(x, FENCE + trail);
    assert !AllSpace(FENCE + trail) by { assert !IsSpace((FENCE + trail)[0]); }
    assert (x + FENCE)[..|x + FENCE| - 3] == x;
  }

  /** A reply wrapped in one fence, with or without a `json` tag, comes back
      as its inner text, stripped. Without a tag, the text after the fence
      must not start with `json`, which the pattern would take for the tag. */
  lemma {:induction false} CleanResponseUnwraps(lead: string, tag: string, inner: string, trail: string)
    requires AllSpace(lead) && AllSpace(trail)
    requires tag == [] || IsJsonTag(tag)
    requires tag == [] ==> !StartsWithJsonTag(inner + (FENCE + trail))
    ensures CleanResponseText(lead + (FENCE + (tag + (inner + (FENCE + trail))))) == Strip(inner)
  {
    var w := inner + (FENCE + trail);
    DropLeadingOfFenced(lead, tag, w);
    LStripBeforeFence(inner, FENCE + trail);
    DropTrailingOfFenced(LStrip(inner), trail);
    assert RStrip(LStrip(inner)) == Strip(inner);
    StripIdempotent(inner);
  }

  /** A reply with no fence at either end comes back just stripped. */
  lemma {:induction false} CleanResponseUnfenced(t: string)
    requires !StartsWith(LStrip(t), FENCE) && !EndsWith(RStrip(t), FENCE)
    ensures CleanResponseText(t) == Strip(t)
  {
  }

  /** `re.sub(r"^```json\s*", "", t, flags=re.IGNORECASE)`: only at index 0. */
  function DropJsonFence(t: string): string {
    if StartsWith(t, FENCE) && StartsWithJsonTag(t[3..]) then LStrip(t[7..]) else t
  }

  /** `re.sub(r"^```\s*", "", t)`. */
  function DropOpeningFence(t: string): string {
    if StartsWith(t, FENCE) then LStrip(t[3..]) else t
  }

  /** `re.sub(r"\s*```$", "", t)`: `$` matches at the end and also just
      before a final newline; in the second case that newline stays. */
  function DropClosingFence(t: string): string {
    if EndsWith(t, FENCE) then RStrip(t[..|t| - 3])
    else if EndsWith(t, FENCE + "\n") then RStrip(t[..|t| - 4]) + "\n"
    else t
  }

  /** `clean_json_response`. */
  function CleanJsonResponse(text: string): string {
    Strip(DropClosingFence(DropOpeningFence(DropJsonFence(text))))
  }

  /** The closing substitution of `clean_json_response` on text ending in
      a fence. */
  lemma {:induction false} DropClosingAtEnd(x: string)
    ensures DropClosingFence(x + FENCE) == RStrip(x)
  {
    var t := x + FENCE;
    assert t[|t| - 3..] == FENCE;
    assert t[..|t| - 3] == x;
  }

  /** The same when one newline follows the fence: `$` matches before it,
      so the newline stays. */
  lemma {:induction false} DropClosingBeforeNewline(x: string)
    ensures DropClosingFence(x + (FENCE + "\n")) == RStrip(x) + "\n"
  {
    var t := x + (FENCE + "\n");
    assert t[|t| - 1] == '\n';
    assert t[|t| - 4..] == FENCE + "\n";
    assert t[..|t| - 4] == x;
  }

  /** Followed by the final `strip`, the closing substitution loses nothing
      but the fence and the whitespace around it. */
  lemma {:induction false} DropClosingOfFenced(x: string, trail: string)
    requires trail == [] || trail == "\n"
    ensures Strip(DropClosingFence(x + (FENCE + trail))) == Strip(x)
  {
    if trail == [] {
      DropClosingOfFencedAtEnd(x);
    } else {
      DropClosingOfFencedNewline(x);
    }
  }

  lemma {:induction false} DropClosingOfFencedAtEnd(x: string)
    ensures Strip(DropClosingFence(x + FENCE)) == Strip(x)
  {
    StripOfRStrip(x);
    DropClosingAtEnd(x);
  }

  lemma {:induction false} DropClosingOfFencedNewline(x: string)
    ensures Strip(DropClosingFence(x + (FENCE + "\n"))) == Strip(x)
  {
    NewlineAllSpace();
    StripAppendSpaces(RStrip(x), "\n");
    StripOfRStrip(x);
    DropClosingBeforeNewline(x);
  }

  /** The first substitution of `clean_json_response` removes a leading
      fence tagged `json` with the whitespace after it, and nothing else. */
  lemma {:induction false} DropJsonFenceOf(tag: string, w: string)
    requires tag == [] || IsJsonTag(tag)
    requires tag == [] ==> !StartsWithJsonTag(w)
    ensures DropJsonFence(FENCE + (tag + w)) == if tag == [] then FENCE + w else LStrip(w)
  {
    var t := FENCE + (tag + w);
    assert t[..3] == FENCE && t[3..] == tag + w;
    if tag == [] {
      assert tag + w == w;
    } else {
      assert (tag + w)[..4] == tag;
      assert t[7..] == w;
    }
  }

  /** The second substitution removes a leading fence and the whitespace
      after it. */
  lemma {:induction false} DropOpeningFenceOf(w: string)
    ensures DropOpeningFence(FENCE + w) == LStrip(w)
  {
    assert (FENCE + w)[..3] == FENCE && (FENCE + w)[3..] == w;
  }

  /** Text that does not start with a backtick has no opening fence. */
  lemma {:induction false} DropOpeningFenceKeeps(x: string)
    requires !StartsWith(x, "`")
    ensures DropOpeningFence(x) == x
  {
    if |x| >= 3 {
      assert x[..3][0] == x[0];
      assert x[..1] == [x[0]];
    }
  }

  /** After a tagged fence, the JSON cleaner goes on with the text after the
      tag, left-stripped. */
  lemma {:induction false} CleanJsonTagged(tag: string, w: string)
    requires IsJsonTag(tag)
    ensures CleanJsonResponse(FENCE + (tag + w))
            == Strip(DropClosingFence(DropOpeningFence(LStrip(w))))
  {
    DropJsonFenceOf(tag, w);
  }

  /** Without a tag, it goes on with the text after the fence. */
  lemma {:induction false} CleanJsonUntagged(w: string)
    requires !StartsWithJsonTag(w)
    ensures CleanJsonResponse(FENCE + w) == Strip(DropClosingFence(LStrip(w)))
  {
    DropJsonFenceOf([], w);
    assert [] + w == w;
    DropOpeningFenceOf(w);
  }

  /** What is left after the tag: the stripped inner text and the closing
      fence. */
  lemma {:induction false} CleanJsonAfterTag(l: string, trail: string)
    requires !StartsWith(l, "`") && (l == [] || !IsSpace(l[0]))
    requires trail == [] || trail == "\n"
    ensures Strip(DropClosingFence(DropOpeningFence(l + (FENCE + trail)))) == Strip(l)
  {
    if l == [] {
      assert l + (FENCE + trail) == FENCE + trail;
      DropOpeningFenceOf(trail);
      LStripOfSpaces(trail);
    } else {
      assert (l + (FENCE + trail))[..1] == l[..1];
      DropOpeningFenceKeeps(l + (FENCE + trail));
      DropClosingOfFenced(l, trail);
    }
  }

  lemma {:induction false} LStripOfSpaces(trail: string)
    requires trail == [] || trail == "\n"
    ensures LStrip(trail) == []
  {
    if trail != [] {
      assert IsSpace(trail[0]) && trail[1..] == [];
    }
  }

  /** A reply that starts exactly with a fence (optionally tagged `json`)
      and ends with a fence, optionally followed by one newline, comes back
      as its inner text, stripped. Without a tag, the text after the fence
      must not start with `json`; after a tag, the inner text must not
      start (past its whitespace) with a backtick, which the second
      substitution would take for a second fence. */
  lemma {:induction false} CleanJsonUnwraps(tag: string, inner: string, trail: string)
    requires tag == [] || IsJsonTag(tag)
    requires tag == [] ==> !StartsWithJsonTag(inner + (FENCE + trail))
    requires tag != [] ==> !StartsWith(LStrip(inner), "`")
    requires trail == [] || trail == "\n"
    ensures CleanJsonResponse(FENCE + (tag + (inner + (FENCE + trail)))) == Strip(inner)
  {
    var w := inner + (FENCE + trail);
    LStripBeforeFence(inner, FENCE + trail);
    StripOfLStrip(inner);
    if tag == [] {
      assert tag + w == w;
      CleanJsonUntagged(w);
      DropClosingOfFenced(LStrip(inner), trail);
    } else {
      CleanJsonTagged(tag, w);
      CleanJsonAfterTag(LStrip(inner), trail);
    }
  }

  /** Unlike `CleanResponseText`, the JSON cleaner tolerates no whitespace
      before the opening fence: the fence then survives cleaning. */
  lemma {:induction false} CleanJsonKeepsIndentedFence(lead: string, body: string)
    requires lead != [] && AllSpace(lead)
    ensures StartsWith(CleanJsonResponse(lead + (FENCE + body) + FENCE), FENCE)
  {
    var t := lead + (FENCE + body);
    assert !StartsWith(t + FENCE, "`") by {
      assert (t + FENCE)[..1] == [lead[0]];
    }
    DropJsonFenceKeeps(t + FENCE);
    DropOpeningFenceKeeps(t + FENCE);
    DropClosingAtEnd(t);
    LStripBeforeFence(lead, FENCE + body);
    assert LStrip(lead) == [];
    StripOfRStrip(t);
    var e := FENCE + body;
    assert LStrip(t) == e;
    assert Strip(t) == RStrip(e);
    RStripAppend(FENCE, body);
    RStripOfStripped(FENCE);
  }

  /** Text that does not start with a backtick has no tagged fence. */
  lemma {:induction false} DropJsonFenceKeeps(x: string)
    requires !StartsWith(x, "`")
    ensures DropJsonFence(x) == x
  {
    if |x| >= 3 {
      assert x[..3][0] == x[0];
      assert x[..1] == [x[0]];
    }
  }
}
