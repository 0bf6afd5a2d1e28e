/** The recency window and the duplicate decision of duplicate_checker.py.
    The filesystem is given as a list of run folders, each with its
    modification time (in integer seconds) and the parsed content of its
    `ready_candidates.json`; the clock is the parameter `now`. */
module DuplicateChecker {
  import opened Text
  import opened Wrappers
  import opened Oracle
  import opened Fences
  import opened Slicing

  /** The `"result"` field of a stored candidate: absent or falsy (`None`,
      `0`, `false`, an empty list, ...), a string, or a truthy value that
      is not a string (on which `.strip()` raises). */
  datatype StoredResult = NoResult | ResultText(text: string) | NotText

  /** One element of the stored list: a JSON object, or anything else (on
      which `.get` raises). `hash` is the `"hash"` field when it is a
      string. */
  datatype StoredItem = NotARecord | Record(hash: Option<string>, result: StoredResult)

  /** `ready_candidates.json` of one folder: absent, failing to open or to
      parse, or parsed into a list. */
  datatype CandidatesFile = Missing | Unreadable | Parsed(items: seq<StoredItem>)

  /** A directory entry of the base folder. `mtime` is `None` when `stat`
      fails. */
  datatype RunFolder = RunFolder(isDir: bool, mtime: Option<int>, file: CandidatesFile)

  /** A collected result with the modification time of its folder. */
  datatype Entry = Entry(mtime: int, text: string)

  /** A result text worth comparing against: not blank and not the "X"
      placeholder once stripped. */
  predicate Substantive(s: string) {
    Strip(s) != [] && Strip(s) != "X"
  }

  /** The candidate is skipped because its hash is the excluded one. */
  predicate Excluded(item: StoredItem, exclude: Option<string>)
    requires item.Record?
  {
    IsTruthy(exclude) && item.hash == exclude
  }

  /** An item that makes the loop over a folder's candidates raise. */
  predicate Aborts(item: StoredItem, exclude: Option<string>) {
    item.NotARecord? || (!Excluded(item, exclude) && item.result.NotText?)
  }

  /** The texts the loop over one folder's candidates appends, in order,
      when it keeps the string results that satisfy `keep` (the source keeps
      the `Substantive` ones). An item on which the loop raises ends the
      folder, but what was appended before stays. */
  function ItemTexts(items: seq<StoredItem>, exclude: Option<string>, keep: string -> bool): seq<string> {
    if items == [] then []
    else if Aborts(items[0], exclude) then []
    else Contributed(items[0], exclude, keep) + ItemTexts(items[1..], exclude, keep)
  }

  /** What one record on which the loop does not raise appends. */
  function Contributed(item: StoredItem, exclude: Option<string>, keep: string -> bool): seq<string>
    requires item.Record?
  {
    if !Excluded(item, exclude) && item.result.ResultText? && keep(item.result.text) then [item.result.text] else []
  }

  function Stamp(mtime: int, texts: seq<string>): (r: seq<Entry>)
    ensures |r| == |texts|
  {
    if texts == [] then [] else [Entry(mtime, texts[0])] + Stamp(mtime, texts[1..])
  }

  lemma {:induction false} StampMembers(mtime: int, texts: seq<string>)
    ensures forall e :: e in Stamp(mtime, texts) ==> e.mtime == mtime && e.text in texts
  {
    if texts != [] {
      StampMembers(mtime, texts[1..]);
    }
  }

  /** The folder is scanned: a directory whose time can be read and is not
      before the cutoff. */
  predicate Scanned(f: RunFolder, cutoff: int) {
    f.isDir && f.mtime.Some? && f.mtime.value >= cutoff
  }

  /** The entries one folder contributes. */
  function FolderEntries(f: RunFolder, cutoff: int, exclude: Option<string>): seq<Entry> {
    if Scanned(f, cutoff) && f.file.Parsed? then Stamp(f.mtime.value, ItemTexts(f.file.items, exclude, Substantive))
    else []
  }

  /** The entries of all folders, in directory order. */
  function CollectEntries(folders: seq<RunFolder>, cutoff: int, exclude: Option<string>): seq<Entry> {
    if folders == [] then []
    else FolderEntries(folders[0], cutoff, exclude) + CollectEntries(folders[1..], cutoff, exclude)
  }

  /** Insertion into a list sorted by descending time, before the first
      entry that is not newer: `x`, which came first, stays ahead of entries
      with the same time. */
  function Insert(x: Entry, s: seq<Entry>): seq<Entry> {
    if s == [] then [x]
    else if s[0].mtime <= x.mtime then [x] + s
    else [s[0]] + Insert(x, s[1..])
  }

  /** `entries.sort(reverse=True, key=lambda x: x[0])`: Python's sort is
      stable, also when reversed. */
  function SortByMtimeDesc(xs: seq<Entry>): seq<Entry> {
    if xs == [] then [] else Insert(xs[0], SortByMtimeDesc(xs[1..]))
  }

  predicate SortedDesc(s: seq<Entry>) {
    forall i, j :: 0 <= i < j < |s| ==> s[i].mtime >= s[j].mtime
  }

  /** The entries of `s` with time `m`, in order. */
  function WithMtime(s: seq<Entry>, m: int): seq<Entry> {
    if s == [] then [] else (if s[0].mtime == m then [s[0]] else []) + WithMtime(s[1..], m)
  }

  function Texts(s: seq<Entry>): (r: seq<string>)
    ensures |r| == |s|
    ensures forall i :: 0 <= i < |r| ==> r[i] == s[i].text
  {
    if s == [] then [] else [s[0].text] + Texts(s[1..])
  }

  /** The oldest folder time still scanned: `hoursBack` hours before
      `now`, an hour being 3600 seconds. */
  function Cutoff(now: int, hoursBack: int): int {
    now - hoursBack * 3600
  }

  /** `get_recent_results`. */
  function RecentResults(baseExists: bool, folders: seq<RunFolder>, exclude: Option<string>,
                         now: int, hoursBack: int, limit: int): seq<string>
  {
    if !baseExists then []
    else
      var cutoff := Cutoff(now, hoursBack);
      Texts(SliceTo(SortByMtimeDesc(CollectEntries(folders, cutoff, exclude)), limit))
  }

  // ---------------------------------------------------------------------
  // Properties of the recency window

  lemma {:induction false} InsertPermutes(x: Entry, s: seq<Entry>)
    ensures multiset(Insert(x, s)) == multiset{x} + multiset(s)
  {
    if s != [] && s[0].mtime > x.mtime {
      InsertPermutes(x, s[1..]);
      assert s == [s[0]] + s[1..];
    }
  }

  /** Inserting an entry no newer than `b` into entries no newer than `b`
      gives entries no newer than `b`. */
  lemma {:induction false} InsertBounded(x: Entry, s: seq<Entry>, b: int)
    requires x.mtime <= b && forall i :: 0 <= i < |s| ==> s[i].mtime <= b
    ensures forall i :: 0 <= i < |Insert(x, s)| ==> Insert(x, s)[i].mtime <= b
  {
    if s != [] && s[0].mtime > x.mtime {
      InsertBounded(x, s[1..], b);
    }
  }

  lemma {:induction false} InsertSorted(x: Entry, s: seq<Entry>)
    requires SortedDesc(s)
    ensures SortedDesc(Insert(x, s))
  {
    if s != [] && s[0].mtime > x.mtime {
      InsertSorted(x, s[1..]);
      InsertBounded(x, s[1..], s[0].mtime);
    }
  }

  /** The sort orders by descending time and is a permutation. */
  lemma {:induction false} SortSorted(xs: seq<Entry>)
    ensures SortedDesc(SortByMtimeDesc(xs))
    ensures multiset(SortByMtimeDesc(xs)) == multiset(xs)
  {
    if xs != [] {
      SortSorted(xs[1..]);
      InsertSorted(xs[0], SortByMtimeDesc(xs[1..]));
      InsertPermutes(xs[0], SortByMtimeDesc(xs[1..]));
      assert xs == [xs[0]] + xs[1..];
    }
  }

  /** Every entry `Insert` passes over is newer than `x`, so `x` comes
      before the entries that have its time. */
  lemma {:induction false} InsertWithMtime(x: Entry, s: seq<Entry>, m: int)
    ensures WithMtime(Insert(x, s), m) == (if x.mtime == m then [x] else []) + WithMtime(s, m)
  {
    if s == [] {
    } else if s[0].mtime <= x.mtime {
      WithMtimeCons(x, s, m);
    } else {
      var rest := Insert(x, s[1..]);
      InsertWithMtime(x, s[1..], m);
      WithMtimeCons(s[0], rest, m);
      WithMtimeCons(s[0], s[1..], m);
      assert s == [s[0]] + s[1..];
      if x.mtime == m {
        assert s[0].mtime != m;
      }
    }
  }

  lemma {:induction false} WithMtimeCons(e: Entry, t: seq<Entry>, m: int)
    ensures WithMtime([e] + t, m) == (if e.mtime == m then [e] else []) + WithMtime(t, m)
  {
    assert ([e] + t)[0] == e && ([e] + t)[1..] == t;
  }

  /** The sort is stable: the entries with any one time keep their order,
      so in particular the entries of one folder stay in file order. */
  lemma {:induction false} SortStable(xs: seq<Entry>, m: int)
    ensures WithMtime(SortByMtimeDesc(xs), m) == WithMtime(xs, m)
  {
    if xs != [] {
      SortStable(xs[1..], m);
      InsertWithMtime(xs[0], SortByMtimeDesc(xs[1..]), m);
    }
  }

  /** At most `limit` results, newest folders first. */
  lemma {:induction false} RecentResultsShape(baseExists: bool, folders: seq<RunFolder>, exclude: Option<string>,
                           now: int, hoursBack: int, limit: int)
    ensures limit >= 0 ==> |RecentResults(baseExists, folders, exclude, now, hoursBack, limit)| <= limit
    ensures baseExists ==>
      var s := SliceTo(SortByMtimeDesc(CollectEntries(folders, Cutoff(now, hoursBack), exclude)), limit);
      SortedDesc(s) && RecentResults(baseExists, folders, exclude, now, hoursBack, limit) == Texts(s)
  {
    if baseExists {
      var all := SortByMtimeDesc(CollectEntries(folders, Cutoff(now, hoursBack), exclude));
      SortSorted(CollectEntries(folders, Cutoff(now, hoursBack), exclude));
      var s := SliceTo(all, limit);
      assert forall i :: 0 <= i < |s| ==> s[i] == all[i];
    }
  }

  /** Where a collected entry comes from: a record of a scanned folder whose
      hash is not excluded and whose result is a substantive string, kept
      as it was stored (unstripped), with the folder's time. */
  predicate FromRecord(f: RunFolder, e: Entry, cutoff: int, exclude: Option<string>) {
    Scanned(f, cutoff) && f.file.Parsed? && f.mtime.value == e.mtime
    && exists j :: 0 <= j < |f.file.items| && f.file.items[j].Record?
                   && !Excluded(f.file.items[j], exclude)
                   && f.file.items[j].result == ResultText(e.text)
  }

  lemma {:induction false} ItemTextsSound(items: seq<StoredItem>, exclude: Option<string>, keep: string -> bool)
    ensures forall t :: t in ItemTexts(items, exclude, keep) ==>
              keep(t)
              && exists j :: 0 <= j < |items| && items[j].Record? && !Excluded(items[j], exclude)
                             && items[j].result == ResultText(t)
  {
    if items != [] && !Aborts(items[0], exclude) {
      ItemTextsSound(items[1..], exclude, keep);
      forall t | t in ItemTexts(items[1..], exclude, keep)
        ensures exists j :: 0 <= j < |items| && items[j].Record? && !Excluded(items[j], exclude)
                            && items[j].result == ResultText(t)
      {
        var j :| 0 <= j < |items[1..]| && items[1..][j].Record? && !Excluded(items[1..][j], exclude)
                 && items[1..][j].result == ResultText(t);
        assert items[j + 1] == items[1..][j];
      }
    }
  }

  lemma {:induction false} FolderEntriesSound(f: RunFolder, cutoff: int, exclude: Option<string>)
    ensures forall e :: e in FolderEntries(f, cutoff, exclude) ==>
              Substantive(e.text) && FromRecord(f, e, cutoff, exclude)
  {
    if Scanned(f, cutoff) && f.file.Parsed? {
      ItemTextsSound(f.file.items, exclude, Substantive);
      var ts := ItemTexts(f.file.items, exclude, Substantive);
      forall e | e in FolderEntries(f, cutoff, exclude)
        ensures Substantive(e.text) && FromRecord(f, e, cutoff, exclude)
      {
        StampMembers(f.mtime.value, ts);
      }
    }
  }

  /** Every collected entry comes from a scanned folder's record. */
  lemma {:induction false} CollectEntriesSound(folders: seq<RunFolder>, cutoff: int, exclude: Option<string>, e: Entry)
    requires e in CollectEntries(folders, cutoff, exclude)
    ensures Substantive(e.text)
    ensures exists i :: 0 <= i < |folders| && FromRecord(folders[i], e, cutoff, exclude)
  {
    FolderEntriesSound(folders[0], cutoff, exclude);
    if e !in FolderEntries(folders[0], cutoff, exclude) {
      CollectEntriesSound(folders[1..], cutoff, exclude, e);
      var i :| 0 <= i < |folders[1..]| && FromRecord(folders[1..][i], e, cutoff, exclude);
      assert folders[i + 1] == folders[1..][i];
    }
  }

  /** What the sort and the cut keep are texts of the entries collected. */
  lemma {:induction false} SelectedFromEntries(xs: seq<Entry>, limit: int, t: string)
    requires t in Texts(SliceTo(SortByMtimeDesc(xs), limit))
    ensures exists e :: e in xs && e.text == t
  {
    var sorted := SortByMtimeDesc(xs);
    var s := SliceTo(sorted, limit);
    SortSorted(xs);
    var k :| 0 <= k < |Texts(s)| && Texts(s)[k] == t;
    assert s[k] == sorted[k];
    assert sorted[k] in multiset(sorted);
  }

  /** `t` is the result of a record of the scanned folder `f` whose hash
      is not the excluded one. */
  predicate StoredIn(f: RunFolder, t: string, cutoff: int, exclude: Option<string>) {
    Scanned(f, cutoff) && f.file.Parsed?
    && exists j :: 0 <= j < |f.file.items| && f.file.items[j].Record?
                   && !Excluded(f.file.items[j], exclude)
                   && f.file.items[j].result == ResultText(t)
  }

  /** Every recent result is a substantive text stored by a record of a
      folder modified at or after the cutoff, whose hash is not the
      excluded one. */
  lemma {:induction false} RecentResultsSound(baseExists: bool, folders: seq<RunFolder>, exclude: Option<string>,
                           now: int, hoursBack: int, limit: int, t: string)
    returns (i: nat)
    requires t in RecentResults(baseExists, folders, exclude, now, hoursBack, limit)
    ensures Substantive(t)
    ensures i < |folders| && StoredIn(folders[i], t, Cutoff(now, hoursBack), exclude)
  {
    var cutoff := Cutoff(now, hoursBack);
    var all := CollectEntries(folders, cutoff, exclude);
    SelectedFromEntries(all, limit, t);
    var e :| e in all && e.text == t;
    CollectEntriesSound(folders, cutoff, exclude, e);
    i :| 0 <= i < |folders| && FromRecord(folders[i], e, cutoff, exclude);
    FromRecordStored(folders[i], e, cutoff, exclude);
  }

  lemma {:induction false} FromRecordStored(f: RunFolder, e: Entry, cutoff: int, exclude: Option<string>)
    requires FromRecord(f, e, cutoff, exclude)
    ensures StoredIn(f, e.text, cutoff, exclude)
  {
  }

  /** The first item on which the loop raises cuts the folder off there:
      what came before it still counts, nothing after it does. */
  lemma {:induction false} ItemTextsStopAtAbort(items: seq<StoredItem>, exclude: Option<string>, keep: string -> bool, p: nat)
    requires p < |items| && Aborts(items[p], exclude)
    ensures ItemTexts(items, exclude, keep) == ItemTexts(items[..p], exclude, keep)
  {
    if p > 0 && !Aborts(items[0], exclude) {
      ItemTextsStopAtAbort(items[1..], exclude, keep, p - 1);
      assert items[..p][1..] == items[1..][..p - 1];
    }
  }

  /** A record excluded by hash contributes nothing, whatever its result. */
  lemma {:induction false} ExcludedContributesNothing(item: StoredItem, rest: seq<StoredItem>, exclude: Option<string>, keep: string -> bool)
    requires item.Record? && Excluded(item, exclude)
    ensures ItemTexts([item] + rest, exclude, keep) == ItemTexts(rest, exclude, keep)
  {
    assert ([item] + rest)[1..] == rest;
  }

  /** A folder that is not a directory, has no readable time, is older than
      the cutoff, or has no readable candidate file contributes nothing. */
  lemma {:induction false} SkippedFolder(f: RunFolder, rest: seq<RunFolder>, cutoff: int, exclude: Option<string>)
    requires !f.isDir || f.mtime.None? || (f.mtime.Some? && f.mtime.value < cutoff)
             || f.file.Missing? || f.file.Unreadable?
    ensures CollectEntries([f] + rest, cutoff, exclude) == CollectEntries(rest, cutoff, exclude)
  {
    assert ([f] + rest)[1..] == rest;
  }

  // ---------------------------------------------------------------------
  // The scan as the source writes it

  /** The loop over the candidates of one scanned folder: the texts it
      appends, up to the first item on which it raises. */
  method FolderTexts(items: seq<StoredItem>, exclude: Option<string>, keep: string -> bool)
    returns (found: seq<string>)
    ensures found == ItemTexts(items, exclude, keep)
  {
    found := [];
    var j := 0;
    assert items[j..] == items;
    while j < |items|
      invariant 0 <= j <= |items|
      invariant found + ItemTexts(items[j..], exclude, keep) == ItemTexts(items, exclude, keep)
    {
      var item := items[j];
      ItemTextsAt(items, exclude, keep, j);
      ghost var before := found;
      if item.NotARecord? {
        break;
      }
      if IsTruthy(exclude) && item.hash == exclude {
        assert ItemTexts(items[j..], exclude, keep) == ItemTexts(items[j + 1..], exclude, keep);
        j := j + 1;
        continue;
      }
      if item.result.NotText? {
        break;
      }
      if item.result.ResultText? && keep(item.result.text) {
        found := found + [item.result.text];
      }
      assert found == before + Contributed(item, exclude, keep);
      AppendAssoc(before, Contributed(item, exclude, keep), ItemTexts(items[j + 1..], exclude, keep));
      j := j + 1;
    }
    assert j == |items| ==> items[j..] == [];
  }

  lemma {:induction false} ItemTextsAt(items: seq<StoredItem>, exclude: Option<string>, keep: string -> bool, j: nat)
    requires j < |items|
    ensures Aborts(items[j], exclude) ==> ItemTexts(items[j..], exclude, keep) == []
    ensures !Aborts(items[j], exclude) ==>
              ItemTexts(items[j..], exclude, keep)
              == Contributed(items[j], exclude, keep) + ItemTexts(items[j + 1..], exclude, keep)
  {
    assert items[j..][0] == items[j];
    assert items[j..][1..] == items[j + 1..];
  }

  /** The loop over the run folders: the entries of every scanned folder,
      in directory order. */
  method ScanFolders(folders: seq<RunFolder>, cutoff: int, exclude: Option<string>) returns (entries: seq<Entry>)
    ensures entries == CollectEntries(folders, cutoff, exclude)
  {
    entries := [];
    var i := 0;
    while i < |folders|
      invariant 0 <= i <= |folders|
      invariant entries + CollectEntries(folders[i..], cutoff, exclude) == CollectEntries(folders, cutoff, exclude)
    {
      CollectEntriesStep(folders, i, cutoff, exclude);
      var found := ScanFolder(folders[i], cutoff, exclude);
      AppendAssoc(entries, found, CollectEntries(folders[i + 1..], cutoff, exclude));
      entries := entries + found;
      i := i + 1;
    }
    assert folders[i..] == [];
  }

  /** One pass of the scan: a folder modified since the cutoff and whose
      results file parses contributes its texts, stamped with its time. */
  method ScanFolder(f: RunFolder, cutoff: int, exclude: Option<string>) returns (found: seq<Entry>)
    ensures found == FolderEntries(f, cutoff, exclude)
  {
    found := [];
    if f.isDir && f.mtime.Some? && f.mtime.value >= cutoff && f.file.Parsed? {
      var texts := FolderTexts(f.file.items, exclude, Substantive);
      found := Stamp(f.mtime.value, texts);
    }
  }

  /** `get_recent_results`: the scan, then the newest entries first, cut to
      `limit`. */
  method GetRecentResults(baseExists: bool, folders: seq<RunFolder>, exclude: Option<string>,
                          now: int, hoursBack: int, limit: int) returns (results: seq<string>)
    ensures results == RecentResults(baseExists, folders, exclude, now, hoursBack, limit)
  {
    if !baseExists {
      return [];
    }
    var entries := ScanFolders(folders, Cutoff(now, hoursBack), exclude);
    results := Texts(SliceTo(SortByMtimeDesc(entries), limit));
  }

  lemma {:induction false} CollectEntriesStep(folders: seq<RunFolder>, i: nat, cutoff: int, exclude: Option<string>)
    requires i < |folders|
    ensures CollectEntries(folders[i..], cutoff, exclude)
            == FolderEntries(folders[i], cutoff, exclude) + CollectEntries(folders[i + 1..], cutoff, exclude)
  {
    assert folders[i..][1..] == folders[i + 1..];
  }

  lemma {:induction false} AppendAssoc<T>(a: seq<T>, b: seq<T>, c: seq<T>)
    ensures (a + b) + c == a + (b + c)
  {
  }

  lemma {:induction false} StampAppend(m: int, a: seq<string>, b: seq<string>)
    ensures Stamp(m, a + b) == Stamp(m, a) + Stamp(m, b)
  {
    if a != [] {
      StampAppend(m, a[1..], b);
      assert (a + b)[1..] == a[1..] + b;
    } else {
      assert a + b == b;
    }
  }

  // ---------------------------------------------------------------------
  // The character budget

  const MAX_OLD_TEXTS_LENGTH := 15000

  function TotalLength(texts: seq<string>): nat {
    if texts == [] then 0 else TotalLength(texts[..|texts| - 1]) + |texts[|texts| - 1]|
  }

  /** The loop over `reversed(old_texts)`: it takes texts from the end of the
      list while they still fit in `budget` and stops at the first that does
      not. Since the list is newest first, these are the oldest texts. */
  function TakeFromBack(texts: seq<string>, budget: int): seq<string> {
    if texts == [] then []
    else if |texts[|texts| - 1]| > budget then []
    else TakeFromBack(texts[..|texts| - 1], budget - |texts[|texts| - 1]|) + [texts[|texts| - 1]]
  }

  /** The list actually sent: unchanged when its total length is within
      the budget, otherwise what the loop takes. */
  function Budgeted(texts: seq<string>): seq<string> {
    if TotalLength(texts) > MAX_OLD_TEXTS_LENGTH then TakeFromBack(texts, MAX_OLD_TEXTS_LENGTH) else texts
  }

  lemma {:induction false} TotalLengthAppend(a: seq<string>, b: seq<string>)
    ensures TotalLength(a + b) == TotalLength(a) + TotalLength(b)
    decreases |b|
  {
    if b == [] {
      assert a + b == a;
    } else {
      TotalLengthAppend(a, b[..|b| - 1]);
      assert (a + b)[..|a + b| - 1] == a + b[..|b| - 1];
    }
  }

  lemma {:induction false} TotalLengthOne(x: string)
    ensures TotalLength([x]) == |x|
  {
    assert [x][..0] == [];
  }

  /** What the loop takes is a tail of the list, in the list's order. */
  lemma {:induction false} TakeFromBackTail(texts: seq<string>, budget: int)
    ensures |TakeFromBack(texts, budget)| <= |texts|
    ensures TakeFromBack(texts, budget) == texts[|texts| - |TakeFromBack(texts, budget)|..]
  {
    if texts != [] && |texts[|texts| - 1]| <= budget {
      var init := texts[..|texts| - 1];
      TakeFromBackTail(init, budget - |texts[|texts| - 1]|);
      assert texts == init + [texts[|texts| - 1]];
    }
  }

  lemma {:induction false} TakeFromBackFits(texts: seq<string>, budget: int)
    requires budget >= 0
    ensures TotalLength(TakeFromBack(texts, budget)) <= budget
  {
    if texts != [] && |texts[|texts| - 1]| <= budget {
      var init := texts[..|texts| - 1];
      var last := texts[|texts| - 1];
      TakeFromBackFits(init, budget - |last|);
      TotalLengthAppend(TakeFromBack(init, budget - |last|), [last]);
      TotalLengthOne(last);
    }
  }

  /** Taking one more text from the end would exceed the budget. */
  lemma {:induction false} TakeFromBackMaximal(texts: seq<string>, budget: int)
    requires |TakeFromBack(texts, budget)| < |texts|
    ensures TotalLength(texts[|texts| - |TakeFromBack(texts, budget)| - 1..]) > budget
  {
    var init := texts[..|texts| - 1];
    var last := texts[|texts| - 1];
    assert texts == init + [last];
    TotalLengthOne(last);
    if |last| > budget {
      assert texts[|texts| - 1..] == [last];
    } else {
      var r0 := TakeFromBack(init, budget - |last|);
      TakeFromBackMaximal(init, budget - |last|);
      var t := init[|init| - |r0| - 1..];
      assert texts[|texts| - |r0| - 2..] == t + [last];
      TotalLengthAppend(t, [last]);
    }
  }

  /** The texts sent never exceed the budget in total, and when they had to
      be cut they are a tail of the newest-first list: the oldest ones. */
  lemma {:induction false} BudgetedFits(texts: seq<string>)
    ensures TotalLength(Budgeted(texts)) <= MAX_OLD_TEXTS_LENGTH
    ensures |Budgeted(texts)| <= |texts| && Budgeted(texts) == texts[|texts| - |Budgeted(texts)|..]
  {
    TakeFromBackTail(texts, MAX_OLD_TEXTS_LENGTH);
    TakeFromBackFits(texts, MAX_OLD_TEXTS_LENGTH);
  }

  /** When the texts had to be cut, what is kept cannot grow: the next
      newer text would not fit beside them. */
  lemma {:induction false} BudgetedMaximal(texts: seq<string>)
    requires TotalLength(texts) > MAX_OLD_TEXTS_LENGTH
    ensures |Budgeted(texts)| < |texts|
    ensures TotalLength(texts[|texts| - |Budgeted(texts)| - 1..]) > MAX_OLD_TEXTS_LENGTH
  {
    TakeFromBackTail(texts, MAX_OLD_TEXTS_LENGTH);
    TakeFromBackFits(texts, MAX_OLD_TEXTS_LENGTH);
    TakeFromBackMaximal(texts, MAX_OLD_TEXTS_LENGTH);
  }

  function Reversed<T>(s: seq<T>): (r: seq<T>)
    ensures |r| == |s|
    ensures forall i :: 0 <= i < |s| ==> r[i] == s[|s| - 1 - i]
  {
    seq(|s|, i requires 0 <= i < |s| => s[|s| - 1 - i])
  }

  lemma {:induction false} ReversedSnoc<T>(x: T, s: seq<T>)
    ensures Reversed([x] + s) == Reversed(s) + [x]
  {
  }

  /** The first loop of the truncation: the total length of the texts. */
  method SumLengths(texts: seq<string>) returns (total: nat)
    ensures total == TotalLength(texts)
  {
    total := 0;
    var k := 0;
    while k < |texts|
      invariant 0 <= k <= |texts|
      invariant total == TotalLength(texts[..k])
    {
      assert texts[..k + 1][..k] == texts[..k];
      total := total + |texts[k]|;
      k := k + 1;
    }
    assert texts[..k] == texts;
  }

  /** One pass of the second loop: either the next text from the end does
      not fit and the loop stops there, or it is taken. */
  lemma {:induction false} TakeFromBackStep(texts: seq<string>, m: nat, current: int)
    requires m < |texts|
    ensures var prefix := texts[..|texts| - m];
      |texts[|texts| - 1 - m]| > MAX_OLD_TEXTS_LENGTH - current ==> TakeFromBack(prefix, MAX_OLD_TEXTS_LENGTH - current) == []
    ensures var prefix := texts[..|texts| - m];
      |texts[|texts| - 1 - m]| <= MAX_OLD_TEXTS_LENGTH - current ==>
        TakeFromBack(prefix, MAX_OLD_TEXTS_LENGTH - current)
        == TakeFromBack(texts[..|texts| - m - 1], MAX_OLD_TEXTS_LENGTH - current - |texts[|texts| - 1 - m]|)
           + [texts[|texts| - 1 - m]]
  {
    var prefix := texts[..|texts| - m];
    assert prefix[|prefix| - 1] == texts[|texts| - 1 - m];
    assert prefix[..|prefix| - 1] == texts[..|texts| - m - 1];
  }

  /** Taking the text `m` places from the end keeps the second loop's
      invariants. */
  lemma {:induction false} KeepOldestStep(oldTexts: seq<string>, m: nat, current: int)
    requires m < |oldTexts| && current + |oldTexts[|oldTexts| - 1 - m]| <= MAX_OLD_TEXTS_LENGTH
    requires current == TotalLength(oldTexts[|oldTexts| - m..])
    requires TakeFromBack(oldTexts, MAX_OLD_TEXTS_LENGTH)
             == TakeFromBack(oldTexts[..|oldTexts| - m], MAX_OLD_TEXTS_LENGTH - current) + oldTexts[|oldTexts| - m..]
    ensures var n := |oldTexts|; var text := oldTexts[n - 1 - m];
      && Reversed(oldTexts[n - m - 1..]) == Reversed(oldTexts[n - m..]) + [text]
      && current + |text| == TotalLength(oldTexts[n - m - 1..])
      && TakeFromBack(oldTexts, MAX_OLD_TEXTS_LENGTH)
         == TakeFromBack(oldTexts[..n - m - 1], MAX_OLD_TEXTS_LENGTH - (current + |text|)) + oldTexts[n - m - 1..]
  {
    var n := |oldTexts|;
    var text := oldTexts[n - 1 - m];
    TakeFromBackStep(oldTexts, m, current);
    assert oldTexts[n - m - 1..] == [text] + oldTexts[n - m..];
    TotalLengthAppend([text], oldTexts[n - m..]);
    TotalLengthOne(text);
    ReversedSnoc(text, oldTexts[n - m..]);
    AppendAssoc(TakeFromBack(oldTexts[..n - m - 1], MAX_OLD_TEXTS_LENGTH - current - |text|), [text], oldTexts[n - m..]);
  }

  /** The second loop of the truncation: it walks the texts from the end,
      appending to a fresh list while they fit, and the list is reversed
      back. */
  method KeepOldest(oldTexts: seq<string>) returns (kept: seq<string>)
    ensures kept == TakeFromBack(oldTexts, MAX_OLD_TEXTS_LENGTH)
  {
    var n := |oldTexts|;
    var truncated: seq<string> := [];
    var current := 0;
    var m := 0;
    assert oldTexts[..n] == oldTexts && oldTexts[n..] == [];
    while m < n
      invariant 0 <= m <= n
      invariant truncated == Reversed(oldTexts[n - m..])
      invariant current == TotalLength(oldTexts[n - m..])
      invariant TakeFromBack(oldTexts, MAX_OLD_TEXTS_LENGTH)
                == TakeFromBack(oldTexts[..n - m], MAX_OLD_TEXTS_LENGTH - current) + oldTexts[n - m..]
    {
      var text := oldTexts[n - 1 - m];
      TakeFromBackStep(oldTexts, m, current);
      if current + |text| > MAX_OLD_TEXTS_LENGTH {
        break;
      }
      KeepOldestStep(oldTexts, m, current);
      truncated := truncated + [text];
      current := current + |text|;
      m := m + 1;
    }
    assert m == n ==> oldTexts[..n - m] == [];
    kept := Reversed(truncated);
    assert kept == oldTexts[n - m..];
  }

  /** The truncation as written: the total first, and the list cut only
      when the total is over the budget. */
  method TruncateOldTexts(oldTexts: seq<string>) returns (kept: seq<string>)
    ensures kept == Budgeted(oldTexts)
  {
    var total := SumLengths(oldTexts);
    if total <= MAX_OLD_TEXTS_LENGTH {
      return oldTexts;
    }
    kept := KeepOldest(oldTexts);
  }

  // ---------------------------------------------------------------------
  // The verdict

  /** `clean_response_text(raw).strip().lower().startswith("yes")`. */
  predicate SaysYes(raw: string) {
    StartsWith(Lower(Strip(CleanResponseText(raw))), "yes")
  }

  /** A lower-cased text starts with "yes" exactly when its first three
      characters spell it in either case. */
  lemma {:induction false} LowerStartsWithYes(c: string)
    ensures StartsWith(Lower(c), "yes") <==>
      |c| >= 3 && (c[0] == 'y' || c[0] == 'Y') && (c[1] == 'e' || c[1] == 'E') && (c[2] == 's' || c[2] == 'S')
  {
    var l := Lower(c);
    if |c| >= 3 {
      assert l[..3] == [LowerChar(c[0]), LowerChar(c[1]), LowerChar(c[2])];
    }
  }

  /** The verdict looks at the first three characters of the cleaned reply
      only, in either case. */
  lemma {:induction false} SaysYesIff(raw: string)
    ensures var c := CleanResponseText(raw);
      SaysYes(raw) <==> |c| >= 3 && (c[0] == 'y' || c[0] == 'Y') && (c[1] == 'e' || c[1] == 'E')
                                 && (c[2] == 's' || c[2] == 'S')
  {
    StripIdempotent(DropTrailingFence(DropLeadingFence(raw)));
    LowerStartsWithYes(CleanResponseText(raw));
  }

  // The prompt of the duplicate check, paragraph by paragraph.
  const PROMPT_ROLE := "\nYou are a financial analyst reviewing summaries of investment opportunities for potential duplication.\n\n"
  const PROMPT_INPUTS := "You are given a **NEW investment summary** and a list of **OLD investment summaries** from the past 48 hours.\n\n"
  const PROMPT_CRITERION := "Determine if the new summary is **semantically duplicative** of any previous ones — meaning it describes essentially the same investment opportunity, company, deal structure, terms, or parties.\n\n"
  const PROMPT_WORDING := "Summaries may differ in wording or formatting, but if they describe the same investment opportunity or closely related deals, they are considered duplicates.\n\n"
  const PROMPT_ANSWER := "Reply ONLY with one word:\n- \"YES\" if it's a duplicate\n- \"NO\" if it's materially different or substantively unique\n\n"
  const PROMPT_NEW := "NEW SUMMARY:\n"
  const PROMPT_HEAD := PROMPT_ROLE + PROMPT_INPUTS + PROMPT_CRITERION + PROMPT_WORDING + PROMPT_ANSWER + PROMPT_NEW

  /** The user message of the duplicate check. */
  function DuplicatePrompt(newText: string, oldTexts: seq<string>): string {
    PROMPT_HEAD + newText + "\n\nOLD SUMMARIES:\n" + Join(oldTexts, "\n\n---\n\n") + "\n"
  }

  const RECENT_HOURS := 48
  const RECENT_LIMIT := 50

  /** The decision is worth a model call: a substantive new text, some
      recent results to compare with, and an API key. */
  predicate CallsModel(newText: string, recent: seq<string>, apiKey: Option<string>) {
    newText != [] && Strip(newText) != "X" && recent != [] && IsTruthy(apiKey)
  }

  /** `is_duplicate`. The configuration's API key is `apiKey`; `reply` is
      the outcome of the one model call. Returns the verdict and the prompt
      sent, if any. */
  method IsDuplicate(newText: string, newHash: Option<string>, baseExists: bool, folders: seq<RunFolder>,
                     now: int, apiKey: Option<string>, reply: Outcome)
    returns (duplicate: bool, sent: Option<string>)
    ensures var recent := RecentResults(baseExists, folders, newHash, now, RECENT_HOURS, RECENT_LIMIT);
      (sent.Some? <==> CallsModel(newText, recent, apiKey))
      && (sent.Some? ==> sent.value == DuplicatePrompt(newText, Budgeted(recent)))
      && (duplicate <==> sent.Some? && reply.Ok? && SaysYes(reply.text))
  {
    if newText == [] || Strip(newText) == "X" {
      return false, None;
    }
    var oldTexts := GetRecentResults(baseExists, folders, newHash, now, RECENT_HOURS, RECENT_LIMIT);
    if oldTexts == [] {
      return false, None;
    }
    oldTexts := TruncateOldTexts(oldTexts);
    var prompt := DuplicatePrompt(newText, oldTexts);
    if !IsTruthy(apiKey) {
      return false, None;
    }
    sent := Some(prompt);
    match reply {
      case Fail => duplicate := false;
      case Ok(raw) => duplicate := SaysYes(raw);
    }
  }
}
