/** The parts of `pathlib` the pipeline relies on, for a bare file name:
    `suffix`, `stem`, and the name patterns it globs with. */
module Paths {
  import opened Text

  /** `name.rfind('.')`, or `-1` when the name has no dot. */
  function LastDot(name: string): (i: int)
    ensures -1 <= i < |name|
    ensures i >= 0 ==> name[i] == '.'
    ensures forall j :: i < j < |name| ==> name[j] != '.'
  {
    if name == [] then -1
    else if name[|name| - 1] == '.' then |name| - 1
    else LastDot(name[..|name| - 1])
  }

  /** pathlib takes the text from the last dot as the suffix when that dot
      is neither the first nor the last character of the name. */
  predicate HasSuffix(name: string) {
    0 < LastDot(name) < |name| - 1
  }

  function Suffix(name: string): string {
    if HasSuffix(name) then name[LastDot(name)..] else []
  }

  function Stem(name: string): string {
    if HasSuffix(name) then name[..LastDot(name)] else name
  }

  /** The stem and the suffix split the name; the suffix is empty or is a
      dot followed by at least one character and no further dot; a
      non-empty name has a non-empty stem. */
  lemma {:induction false} StemSuffixSplit(name: string)
    ensures Stem(name) + Suffix(name) == name
    ensures Suffix(name) == [] || (|Suffix(name)| >= 2 && Suffix(name)[0] == '.'
              && forall j :: 1 <= j < |Suffix(name)| ==> Suffix(name)[j] != '.')
    ensures name != [] ==> Stem(name) != []
  {
    if HasSuffix(name) {
      var i := LastDot(name);
      assert name[..i] + name[i..] == name;
      forall j | 1 <= j < |Suffix(name)| ensures Suffix(name)[j] != '.' {
        assert Suffix(name)[j] == name[i + j];
      }
    }
  }

  /** `rfind` finds the dot that opens a trailing dot-and-characters part. */
  lemma {:induction false} LastDotOfSuffix(s: string, suf: string)
    requires |suf| >= 1 && suf[0] == '.' && forall j :: 1 <= j < |suf| ==> suf[j] != '.'
    ensures LastDot(s + suf) == |s|
    decreases |suf|
  {
    if |suf| > 1 {
      var shorter := suf[..|suf| - 1];
      assert (s + suf)[..|s + suf| - 1] == s + shorter;
      LastDotOfSuffix(s, shorter);
    }
  }

  /** A name with no dot is its own stem. */
  lemma {:induction false} StemWithoutDot(name: string)
    requires forall j :: 0 <= j < |name| ==> name[j] != '.'
    ensures Stem(name) == name && Suffix(name) == []
  {
  }

  /** `glob("*" + ext)` for an extension without wildcards: the name ends
      with `ext` (the `*` may match the empty string). */
  predicate MatchesExtension(name: string, ext: string) {
    EndsWith(name, ext)
  }

  /** `glob("*.*")`: the name contains a dot somewhere. */
  predicate MatchesAnyDotted(name: string) {
    Contains(name, ".")
  }

  /** `os.path.join(dir, name)` for two parts on a POSIX system: an
      absolute `name` replaces `dir`; otherwise a separator is put between
      them unless `dir` is empty or already ends with one. */
  function JoinPath(dir: string, name: string): (r: string)
    ensures StartsWith(name, "/") ==> r == name
    ensures !StartsWith(name, "/") ==> EndsWith(r, name)
  {
    if StartsWith(name, "/") then name
    else if dir == [] || EndsWith(dir, "/") then dir + name
    else dir + "/" + name
  }
}
