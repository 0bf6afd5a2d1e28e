/** Python's string operations as the pipeline uses them: whitespace as
    `str.isspace` defines it, `strip`/`lstrip`/`rstrip`, `startswith`,
    `endswith`, the `in` test, `replace`, `join` and `str(n)` for a
    non-negative integer. Strings are sequences of Unicode scalar values,
    which is what a Python `str` indexes. */
module Text {

  /** The characters for which Python's `str.isspace()` holds. In a `re`
      pattern applied to a `str`, `\s` matches exactly these too. */
  predicate IsSpace(c: char) {
    c == ' ' || ('\t' <= c <= '\r') || ('\U{1C}' <= c <= '\U{1F}')
    || c == '\U{85}' || c == '\U{A0}' || c == '\U{1680}'
    || ('\U{2000}' <= c <= '\U{200A}') || c == '\U{2028}' || c == '\U{2029}'
    || c == '\U{202F}' || c == '\U{205F}' || c == '\U{3000}'
  }

  predicate AllSpace(s: string) {
    forall i :: 0 <= i < |s| ==> IsSpace(s[i])
  }

  lemma {:induction false} NewlineAllSpace()
    ensures AllSpace("\n")
  {
    assert "\n"[0] == '\n';
  }

  /** `s.lstrip()`: the suffix of `s` left after its leading whitespace. */
  function LStrip(s: string): (r: string)
    ensures |r| <= |s| && r == s[|s| - |r|..]
    ensures forall i :: 0 <= i < |s| - |r| ==> IsSpace(s[i])
    ensures r == [] || !IsSpace(r[0])
  {
    if |s| > 0 && IsSpace(s[0]) then LStrip(s[1..]) else s
  }

  /** `s.rstrip()`: the prefix of `s` left after its trailing whitespace. */
  function RStrip(s: string): (r: string)
    ensures |r| <= |s| && r == s[..|r|]
    ensures forall i :: |r| <= i < |s| ==> IsSpace(s[i])
    ensures r == [] || !IsSpace(r[|r| - 1])
  {
    if |s| > 0 && IsSpace(s[|s| - 1]) then RStrip(s[..|s| - 1]) else s
  }

  /** `s.strip()`. */
  function Strip(s: string): (r: string)
    ensures r == [] || (!IsSpace(r[0]) && !IsSpace(r[|r| - 1]))
  {
    RStrip(LStrip(s))
  }

  /** `s.strip()` is empty exactly when `s` is all whitespace. */
  lemma {:induction false} StripEmptyIff(s: string)
    ensures Strip(s) == [] <==> AllSpace(s)
  {
    var l := LStrip(s);
    if l == [] {
      assert AllSpace(s) by {
        forall i | 0 <= i < |s| ensures IsSpace(s[i]) { }
      }
    } else {
      assert !AllSpace(s) by { assert s[|s| - |l|] == l[0]; }
      assert RStrip(l) != [] by { assert !IsSpace(l[0]); }
    }
  }

  lemma {:induction false} LStripAppend(a: string, b: string)
    ensures LStrip(a + b) == if AllSpace(a) then LStrip(b) else LStrip(a) + b
    decreases |a|
  {
    if a == [] {
      assert a + b == b;
    } else if IsSpace(a[0]) {
      assert (a + b)[1..] == a[1..] + b;
      LStripAppend(a[1..], b);
      if AllSpace(a[1..]) {
        assert AllSpace(a) by {
          forall i | 0 <= i < |a| ensures IsSpace(a[i]) {
            if i > 0 { assert a[i] == a[1..][i - 1]; }
          }
        }
      } else {
        assert !AllSpace(a) by {
          var i :| 0 <= i < |a[1..]| && !IsSpace(a[1..][i]);
          assert a[i + 1] == a[1..][i];
        }
      }
    } else {
      assert (a + b)[0] == a[0];
    }
  }

  lemma {:induction false} RStripAppend(a: string, b: string)
    ensures RStrip(a + b) == if AllSpace(b) then RStrip(a) else a + RStrip(b)
    decreases |b|
  {
    if b == [] {
      assert a + b == a;
    } else if IsSpace(b[|b| - 1]) {
      var b' := b[..|b| - 1];
      assert (a + b)[..|a + b| - 1] == a + b';
      RStripAppend(a, b');
      if AllSpace(b') {
        assert AllSpace(b) by {
          forall i | 0 <= i < |b| ensures IsSpace(b[i]) {
            if i < |b| - 1 { assert b[i] == b'[i]; }
          }
        }
      } else {
        assert !AllSpace(b) by {
          var i :| 0 <= i < |b'| && !IsSpace(b'[i]);
          assert b[i] == b'[i];
        }
      }
    } else {
      assert (a + b)[|a + b| - 1] == b[|b| - 1];
    }
  }

  lemma {:induction false} LStripOfStripped(s: string)
    requires s == [] || !IsSpace(s[0])
    ensures LStrip(s) == s
  {
  }

  lemma {:induction false} RStripOfStripped(s: string)
    requires s == [] || !IsSpace(s[|s| - 1])
    ensures RStrip(s) == s
  {
  }

  /** `strip` is idempotent. */
  lemma {:induction false} StripIdempotent(s: string)
    ensures Strip(Strip(s)) == Strip(s)
  {
    var r := Strip(s);
    LStripOfStripped(r);
    RStripOfStripped(r);
  }

  /** Strip(l) where `l` has already lost its leading whitespace. */
  lemma {:induction false} StripOfLStripped(l: string)
    requires l == [] || !IsSpace(l[0])
    ensures Strip(l) == RStrip(l)
  {
    LStripOfStripped(l);
  }

  /** Stripping ignores whitespace appended at the end. */
  lemma {:induction false} StripAppendSpaces(a: string, b: string)
    requires AllSpace(b)
    ensures Strip(a + b) == Strip(a)
  {
    LStripAppend(a, b);
    if AllSpace(a) {
      StripEmptyIff(a);
    } else {
      RStripAppend(LStrip(a), b);
    }
  }

  /** Stripping an already right-stripped string is stripping it. */
  lemma {:induction false} StripOfRStrip(s: string)
    ensures Strip(RStrip(s)) == Strip(s)
  {
    var r := RStrip(s);
    assert s == r + s[|r|..];
    StripAppendSpaces(r, s[|r|..]);
  }

  /** Stripping an already left-stripped string is stripping it. */
  lemma {:induction false} StripOfLStrip(s: string)
    ensures Strip(LStrip(s)) == Strip(s)
  {
    LStripOfStripped(LStrip(s));
  }

  predicate StartsWith(s: string, p: string) {
    |p| <= |s| && s[..|p|] == p
  }

  predicate EndsWith(s: string, p: string) {
    |p| <= |s| && s[|s| - |p|..] == p
  }

  /** `p` occurs in `s` starting at index `i`. */
  predicate OccursAt(s: string, p: string, i: int) {
    0 <= i && i + |p| <= |s| && s[i..i + |p|] == p
  }

  /** Python's `p in s` for strings. */
  predicate Contains(s: string, p: string) {
    exists i :: 0 <= i <= |s| && OccursAt(s, p, i)
  }

  /** Lower-casing of the ASCII letters; every other character is kept.
      Python's `str.lower` does more: the Kelvin sign becomes 'k', and a
      capital I with a dot becomes two characters, so it need not keep the
      length. The model only ever tests a lower-cased string against "yes",
      ".pdf" or "pdf", and no character lower-cases in Python to a string
      holding 'y', 'e', 's', 'p', 'd', 'f' or '.' unless it is that
      character or its ASCII capital, so these tests agree with Python's. */
  function LowerChar(c: char): char {
    if 'A' <= c <= 'Z' then (c as int + 32) as char else c
  }

  function Lower(s: string): (r: string)
    ensures |r| == |s|
    ensures forall i :: 0 <= i < |s| ==> r[i] == LowerChar(s[i])
  {
    seq(|s|, i requires 0 <= i < |s| => LowerChar(s[i]))
  }

  /** `s.replace(pat, rep)`: a left-to-right scan replacing each
      non-overlapping occurrence of `pat`. An empty `pat` puts `rep`
      around every character, as Python does. */
  function ReplaceAll(s: string, pat: string, rep: string): string
    decreases |s|
  {
    if pat == [] then Interleave(s, rep)
    else if StartsWith(s, pat) then rep + ReplaceAll(s[|pat|..], pat, rep)
    else if s == [] then []
    else [s[0]] + ReplaceAll(s[1..], pat, rep)
  }

  function Interleave(s: string, rep: string): string {
    if s == [] then rep else rep + [s[0]] + Interleave(s[1..], rep)
  }

  /** Replacing the empty string by the empty string changes nothing. */
  lemma {:induction false} ReplaceEmptyByEmpty(s: string)
    ensures ReplaceAll(s, [], []) == s
  {
    InterleaveEmpty(s);
  }

  lemma {:induction false} InterleaveEmpty(s: string)
    ensures Interleave(s, []) == s
  {
    if s != [] {
      InterleaveEmpty(s[1..]);
      assert [] + [s[0]] + s[1..] == s;
    }
  }

  /** `replace` leaves a string without an occurrence of `pat` unchanged. */
  lemma {:induction false} ReplaceAllAbsent(s: string, pat: string, rep: string)
    requires pat != [] && !Contains(s, pat)
    ensures ReplaceAll(s, pat, rep) == s
    decreases |s|
  {
    if StartsWith(s, pat) {
      assert OccursAt(s, pat, 0);
    } else if s != [] {
      assert !Contains(s[1..], pat) by {
        if i :| 0 <= i <= |s[1..]| && OccursAt(s[1..], pat, i) {
          assert s[i + 1..i + 1 + |pat|] == s[1..][i..i + |pat|];
          assert OccursAt(s, pat, i + 1);
        }
      }
      ReplaceAllAbsent(s[1..], pat, rep);
      assert [s[0]] + s[1..] == s;
    }
  }

  /** No character of `a` occurs in `b`. */
  predicate Disjoint(a: string, b: string) {
    forall i, j :: 0 <= i < |a| && 0 <= j < |b| ==> a[i] != b[j]
  }

  /** Some character of `rep` is among the first `m` characters of `r`. */
  predicate ProducesFrom(r: string, rep: string, m: nat)
    requires m <= |r|
  {
    exists j, k :: 0 <= j < m && 0 <= k < |rep| && r[j] == rep[k]
  }

  /** Until the scan first produces a character of `rep`, its output copies
      its input. */
  lemma {:induction false} ReplaceAllCopiesPrefix(t: string, pat: string, rep: string, m: nat)
    requires pat != [] && rep != []
    requires m <= |ReplaceAll(t, pat, rep)|
    ensures ProducesFrom(ReplaceAll(t, pat, rep), rep, m)
            || (m <= |t| && ReplaceAll(t, pat, rep)[..m] == t[..m])
    decreases |t|
  {
    var r := ReplaceAll(t, pat, rep);
    if m == 0 {
    } else if StartsWith(t, pat) {
      assert r[0] == rep[0];
    } else if t == [] {
    } else {
      var r' := ReplaceAll(t[1..], pat, rep);
      assert r == [t[0]] + r';
      ReplaceAllCopiesPrefix(t[1..], pat, rep, m - 1);
      if ProducesFrom(r', rep, m - 1) {
        var j, k :| 0 <= j < m - 1 && 0 <= k < |rep| && r'[j] == rep[k];
        assert r[j + 1] == rep[k];
      } else {
        assert r[..m] == [t[0]] + r'[..m - 1];
        assert t[..m] == [t[0]] + t[1..][..m - 1];
      }
    }
  }

  /** An occurrence of `pat` at the very start of the output of the scan
      over a string that does not start with `pat` is impossible when `rep`
      is non-empty and shares no character with `pat`. */
  lemma {:induction false} NoOccurrenceAtFront(s: string, pat: string, rep: string)
    requires pat != [] && rep != [] && Disjoint(pat, rep)
    requires s != [] && !StartsWith(s, pat)
    ensures !OccursAt(ReplaceAll(s, pat, rep), pat, 0)
  {
    var r := ReplaceAll(s, pat, rep);
    var r' := ReplaceAll(s[1..], pat, rep);
    assert r == [s[0]] + r';
    if |pat| <= |r| {
      var m := |pat| - 1;
      ReplaceAllCopiesPrefix(s[1..], pat, rep, m);
      if ProducesFrom(r', rep, m) {
        var j, k :| 0 <= j < m && 0 <= k < |rep| && r'[j] == rep[k];
        assert r[..|pat|][j + 1] == rep[k] != pat[j + 1];
      } else {
        assert s[..|pat|] == [s[0]] + s[1..][..m];
        assert r[..|pat|] == [s[0]] + r'[..m];
      }
    }
  }

  /** When `rep` is non-empty and shares no character with `pat`, no
      occurrence of `pat` survives `replace`. */
  lemma {:induction false} ReplaceAllRemovesEvery(s: string, pat: string, rep: string)
    requires pat != [] && rep != [] && Disjoint(pat, rep)
    ensures !Contains(ReplaceAll(s, pat, rep), pat)
    decreases |s|
  {
    var r := ReplaceAll(s, pat, rep);
    if StartsWith(s, pat) {
      var r' := ReplaceAll(s[|pat|..], pat, rep);
      ReplaceAllRemovesEvery(s[|pat|..], pat, rep);
      assert r == rep + r';
      forall i | 0 <= i <= |r| ensures !OccursAt(r, pat, i) {
        if i < |rep| && i + |pat| <= |r| {
          assert r[i..i + |pat|][0] == rep[i];
        } else if i + |pat| <= |r| {
          assert r'[i - |rep|..i - |rep| + |pat|] == r[i..i + |pat|];
          assert !OccursAt(r', pat, i - |rep|);
        }
      }
    } else if s != [] {
      var r' := ReplaceAll(s[1..], pat, rep);
      ReplaceAllRemovesEvery(s[1..], pat, rep);
      assert r == [s[0]] + r';
      forall i | 0 <= i <= |r| ensures !OccursAt(r, pat, i) {
        if i == 0 {
          NoOccurrenceAtFront(s, pat, rep);
        } else if i + |pat| <= |r| {
          assert r'[i - 1..i - 1 + |pat|] == r[i..i + |pat|];
          assert !OccursAt(r', pat, i - 1);
        }
      }
    }
  }

  /** `sep.join(xs)`. */
  function Join(xs: seq<string>, sep: string): string {
    if xs == [] then []
    else if |xs| == 1 then xs[0]
    else xs[0] + sep + Join(xs[1..], sep)
  }

  function DigitChar(d: nat): char
    requires d < 10
  {
    "0123456789"[d]
  }

  /** `str(n)` for a non-negative integer. */
  function NatToString(n: nat): (r: string)
    ensures 1 <= |r|
    ensures forall i :: 0 <= i < |r| ==> '0' <= r[i] <= '9'
  {
    if n < 10 then [DigitChar(n)] else NatToString(n / 10) + [DigitChar(n % 10)]
  }
}
