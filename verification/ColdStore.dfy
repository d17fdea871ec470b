/**
 One symbol's cold directory: spilling a ring into a fresh file, and querying a time window back.
 A file is its list of candles; the Arrow/Parquet encoding itself is not modelled.
 */
module ColdStore {
  import opened Candles
  import opened ColdNames

  datatype File = Readable(candles: seq<Candle>) | Unreadable

  /** A symbol directory: file name to file. */
  type Dir = map<string, File>

  /** The cold directory of a symbol; one that does not exist reads as empty. */
  function DirOf(cold: map<string, Dir>, sym: string): Dir {
    if EscapeSymbol(sym) in cold then cold[EscapeSymbol(sym)] else map[]
  }

  /** Every file of `a` is, unchanged, in `b`. */
  ghost predicate SubDir(a: Dir, b: Dir) {
    forall name :: name in a ==> name in b && b[name] == a[name]
  }

  // ----- specification -----

  /** `start` and `end` are the least and greatest timestamps of `candles`. */
  ghost predicate IsTsSpan(candles: seq<Candle>, start: int, end: int) {
    && (forall i :: 0 <= i < |candles| ==> start <= candles[i].ts <= end)
    && HasTs(candles, start) && HasTs(candles, end)
  }

  /** The `k`-th name the collision loop tries. */
  function ProbeName(start: I64, end: I64, k: nat): string {
    if k == 0 then PlainName(start, end) else SuffixedName(start, end, k)
  }

  ghost predicate TakenBelow(dir: Dir, start: I64, end: I64, n: nat) {
    forall k: nat :: k < n ==> ProbeName(start, end, k) in dir
  }

  /** The name the collision loop stops at: the plain one if free, else the first free suffix. */
  ghost predicate FirstFreeName(dir: Dir, start: I64, end: I64, name: string) {
    name !in dir && exists n: nat :: name == ProbeName(start, end, n) && TakenBelow(dir, start, end, n)
  }

  /** `dir2` is `dir` with `candles` spilled into it. */
  ghost predicate Spilled(dir: Dir, candles: seq<Candle>, dir2: Dir) {
    exists name: string, start: I64, end: I64 ::
      SpilledAs(dir, candles, dir2, name, start, end)
  }

  ghost predicate SpilledAs(dir: Dir, candles: seq<Candle>, dir2: Dir, name: string, start: I64, end: I64) {
    IsTsSpan(candles, start, end) && FirstFreeName(dir, start, end, name) && dir2 == dir[name := Readable(candles)]
  }

  /** `dir2` is `dir` after a spill of `candles` that failed with its file already created: a file without a footer. */
  ghost predicate Littered(dir: Dir, candles: seq<Candle>, dir2: Dir) {
    exists name: string, start: I64, end: I64 :: LitteredAs(dir, candles, dir2, name, start, end)
  }

  ghost predicate LitteredAs(dir: Dir, candles: seq<Candle>, dir2: Dir, name: string, start: I64, end: I64) {
    IsTsSpan(candles, start, end) && FirstFreeName(dir, start, end, name) && dir2 == dir[name := Unreadable]
  }

  /** What a spill that failed with its file already created can leave: a file without a footer, or all of it. */
  ghost predicate LeftBehind(dir: Dir, candles: seq<Candle>, dir2: Dir) {
    Littered(dir, candles, dir2) || Spilled(dir, candles, dir2)
  }

  /** Whether a query of [from, to] skips the file by its name alone. */
  predicate Pruned(name: string, from: int, to: int) {
    match ParseTsRange(name)
    case None => false
    case Some(r) => r.1 < from || r.0 > to
  }

  predicate IsParquet(name: string) { Extension(name) == Some("parquet") }

  /** The range in a file's name, when it has one, covers what the file holds. */
  ghost predicate HonestFile(name: string, file: File) {
    file.Readable? ==>
      match ParseTsRange(name)
      case None => true
      case Some(r) => forall i :: 0 <= i < |file.candles| ==> r.0 <= file.candles[i].ts <= r.1
  }

  /** The files whose name advertises a range that does not cover their contents. */
  ghost function Misnamed(dir: Dir): set<string> {
    set name | name in dir && !HonestFile(name, dir[name])
  }

  ghost predicate HonestDir(dir: Dir) { Misnamed(dir) == {} }

  lemma HonestDirFile(dir: Dir, name: string)
    requires HonestDir(dir) && name in dir
    ensures HonestFile(name, dir[name])
  {
    assert name !in Misnamed(dir);
  }

  lemma HonestDirGrows(dir: Dir, name: string, file: File)
    requires HonestDir(dir) && HonestFile(name, file)
    ensures HonestDir(dir[name := file])
  {
    var dir2 := dir[name := file];
    forall f | f in dir2
      ensures f !in Misnamed(dir2)
    {
      if f != name { HonestDirFile(dir, f); }
    }
  }

  /** Candle `c` is in some readable cold file of the directory. */
  ghost predicate StoredIn(dir: Dir, c: Candle) {
    exists name :: HoldsCandle(dir, name, c)
  }

  ghost predicate HoldsCandle(dir: Dir, name: string, c: Candle) {
    name in dir && IsParquet(name) && dir[name].Readable? && c in dir[name].candles
  }

  /** The readable cold files that hold exactly `candles`. */
  ghost function FilesHolding(dir: Dir, candles: seq<Candle>): set<string> {
    set name | name in dir && IsParquet(name) && dir[name] == Readable(candles)
  }

  ghost predicate HasFile(dir: Dir, candles: seq<Candle>) { FilesHolding(dir, candles) != {} }

  lemma FileIn(dir: Dir, candles: seq<Candle>) returns (name: string)
    requires HasFile(dir, candles)
    ensures name in dir && IsParquet(name) && dir[name] == Readable(candles)
  {
    name :| name in FilesHolding(dir, candles);
  }

  /**
   What a cold query promises about its answer, whatever order the directory lists its files in
   and whichever of several equal-timestamp candles the unstable sort puts first.
   */
  ghost predicate IsColdAnswer(dir: Dir, from: int, to: int, out: seq<Candle>) {
    && StrictlyByTs(out)
    && (forall i :: 0 <= i < |out| ==> InWindow(out[i], from, to) && StoredIn(dir, out[i]))
    && (forall c :: StoredIn(dir, c) && InWindow(c, from, to) ==> HasTs(out, c.ts))
  }

  // ----- spilling -----

  lemma ProbeNameParts(start: I64, end: I64, n: nat)
    ensures IsParquet(ProbeName(start, end, n))
    ensures ParseTsRange(ProbeName(start, end, n)) == if n < U32_COUNT then Some((start, end)) else None
  {
    PlainNameRoundTrip(start, end);
    SuffixedNameRoundTrip(start, end, n);
  }

  /** A spill adds one fresh cold file, honestly named, and changes no other. */
  lemma SpillAddsOneFile(dir: Dir, candles: seq<Candle>, dir2: Dir) returns (name: string)
    requires Spilled(dir, candles, dir2)
    ensures name !in dir && IsParquet(name) && dir2 == dir[name := Readable(candles)]
    ensures HonestFile(name, Readable(candles))
  {
    var start: I64, end: I64;
    name, start, end :| SpilledAs(dir, candles, dir2, name, start, end);
    var n: nat :| name == ProbeName(start, end, n) && TakenBelow(dir, start, end, n);
    ProbeNameParts(start, end, n);
  }

  lemma StoredAfterAdding(dir: Dir, name: string, candles: seq<Candle>, c: Candle)
    requires name !in dir && IsParquet(name)
    ensures StoredIn(dir[name := Readable(candles)], c) <==> StoredIn(dir, c) || c in candles
  {
    var dir2 := dir[name := Readable(candles)];
    if StoredIn(dir2, c) {
      var f :| HoldsCandle(dir2, f, c);
      assert f != name ==> HoldsCandle(dir, f, c);
    }
    if StoredIn(dir, c) {
      var f :| HoldsCandle(dir, f, c);
      assert HoldsCandle(dir2, f, c);
    }
    if c in candles {
      assert HoldsCandle(dir2, name, c);
    }
  }

  /**
   A spill replaces no existing file, keeps every candle already stored, adds exactly its own
   candles and leaves every file name honest about its contents.
   */
  lemma SpillOnlyAdds(dir: Dir, candles: seq<Candle>, dir2: Dir)
    requires Spilled(dir, candles, dir2)
    ensures SubDir(dir, dir2)
    ensures HasFile(dir2, candles)
    ensures HonestDir(dir) ==> HonestDir(dir2)
    ensures forall c :: StoredIn(dir2, c) <==> StoredIn(dir, c) || c in candles
  {
    var name := SpillAddsOneFile(dir, candles, dir2);
    assert name in FilesHolding(dir2, candles);
    if HonestDir(dir) { HonestDirGrows(dir, name, Readable(candles)); }
    forall c
      ensures StoredIn(dir2, c) <==> StoredIn(dir, c) || c in candles
    {
      StoredAfterAdding(dir, name, candles, c);
    }
  }

  /** Any run of spills into one directory loses nothing and keeps every name honest. */
  lemma {:induction false} SpillRunKeepsAll(dirs: seq<Dir>, batches: seq<seq<Candle>>)
    requires |dirs| == |batches| + 1
    requires forall i :: 0 <= i < |batches| ==> Spilled(dirs[i], batches[i], dirs[i + 1])
    ensures HonestDir(dirs[0]) ==> HonestDir(dirs[|batches|])
    ensures SubDir(dirs[0], dirs[|batches|])
    ensures forall i, c :: 0 <= i < |batches| && c in batches[i] ==> StoredIn(dirs[|batches|], c)
  {
    if |batches| > 0 {
      var n := |batches| - 1;
      SpillRunKeepsAll(dirs[..n + 1], batches[..n]);
      SpillOnlyAdds(dirs[n], batches[n], dirs[n + 1]);
      forall i, c | 0 <= i < |batches| && c in batches[i]
        ensures StoredIn(dirs[n + 1], c)
      {
        assert i < n ==> batches[..n][i] == batches[i];
      }
    }
  }

  lemma ProbesDiffer(start: I64, end: I64, k: nat, n: nat)
    requires k < n
    ensures ProbeName(start, end, k) != ProbeName(start, end, n)
  {
    if k == 0 {
      SuffixedIsNotPlain(start, end, n);
    } else if ProbeName(start, end, k) == ProbeName(start, end, n) {
      SuffixesDiffer(start, end, k, n);
    }
  }

  /** Each taken probe is a different file, so there are at most as many as files. */
  lemma {:induction false} TakenBound(names: set<string>, start: I64, end: I64, n: nat)
    requires forall k: nat :: k < n ==> ProbeName(start, end, k) in names
    ensures n <= |names|
  {
    if n > 0 {
      var last := ProbeName(start, end, n - 1);
      forall k: nat | k < n - 1
        ensures ProbeName(start, end, k) in names - {last}
      {
        ProbesDiffer(start, end, k, n - 1);
      }
      TakenBound(names - {last}, start, end, n - 1);
    }
  }

  /** The span loop of `spill`. */
  method TsSpan(candles: seq<Candle>) returns (start: I64, end: I64)
    requires candles != []
    ensures IsTsSpan(candles, start, end)
  {
    start, end := candles[0].ts, candles[0].ts;
    for i := 1 to |candles|
      invariant forall k :: 0 <= k < i ==> start <= candles[k].ts <= end
      invariant HasTs(candles, start) && HasTs(candles, end)
    {
      if candles[i].ts < start { start := candles[i].ts; }
      if candles[i].ts > end { end := candles[i].ts; }
    }
  }

  /**
   The collision loop of `spill`. Each probe that fails is a different file, so the loop ends
   and, with fewer than 2^32 - 1 files in the directory, its `u32` counter never overflows.
   */
  method FreeName(dir: Dir, start: I64, end: I64) returns (name: string)
    requires |dir| < U32_COUNT - 1
    ensures FirstFreeName(dir, start, end, name)
    ensures ParseTsRange(name) == Some((start, end))
  {
    name := PlainName(start, end);
    var n: nat := 1;
    while name in dir
      invariant 1 <= n < U32_COUNT && n - 1 <= |dir|
      invariant TakenBelow(dir, start, end, n - 1)
      invariant name == ProbeName(start, end, n - 1)
      decreases |dir| - n
    {
      assert TakenBelow(dir, start, end, n);
      TakenBound(dir.Keys, start, end, n);
      name := SuffixedName(start, end, n);
      n := n + 1;
    }
    ProbeNameParts(start, end, n - 1);
  }

  method Spill(dir: Dir, candles: seq<Candle>) returns (dir2: Dir)
    requires |dir| < U32_COUNT - 1
    ensures candles == [] ==> dir2 == dir
    ensures candles != [] ==> Spilled(dir, candles, dir2)
  {
    if candles == [] { return dir; }
    var start, end := TsSpan(candles);
    var name := FreeName(dir, start, end);
    dir2 := dir[name := Readable(candles)];
    assert SpilledAs(dir, candles, dir2, name, start, end);
  }

  /** A spill that fails once its file is created. */
  method SpillFailing(dir: Dir, candles: seq<Candle>) returns (dir2: Dir)
    requires candles != [] && |dir| < U32_COUNT - 1
    ensures Littered(dir, candles, dir2)
  {
    var start, end := TsSpan(candles);
    var name := FreeName(dir, start, end);
    dir2 := dir[name := Unreadable];
    assert LitteredAs(dir, candles, dir2, name, start, end);
  }

  /** What a failed spill leaves behind hides no file and misstates nothing. */
  lemma LitterHarmsNothing(dir: Dir, candles: seq<Candle>, dir2: Dir)
    requires Littered(dir, candles, dir2)
    ensures SubDir(dir, dir2) && (HonestDir(dir) ==> HonestDir(dir2))
    ensures forall c :: StoredIn(dir2, c) <==> StoredIn(dir, c)
  {
    var name: string, start: I64, end: I64 :| LitteredAs(dir, candles, dir2, name, start, end);
    if HonestDir(dir) { HonestDirGrows(dir, name, Unreadable); }
    forall c
      ensures StoredIn(dir2, c) <==> StoredIn(dir, c)
    {
      if StoredIn(dir2, c) {
        var f :| HoldsCandle(dir2, f, c);
        assert HoldsCandle(dir, f, c);
      }
      if StoredIn(dir, c) {
        var f :| HoldsCandle(dir, f, c);
        assert HoldsCandle(dir2, f, c);
      }
    }
  }

  lemma LeftBehindOnlyAdds(dir: Dir, candles: seq<Candle>, dir2: Dir)
    requires LeftBehind(dir, candles, dir2)
    ensures SubDir(dir, dir2) && (HonestDir(dir) ==> HonestDir(dir2))
    ensures forall c :: StoredIn(dir2, c) ==> StoredIn(dir, c) || c in candles
  {
    if Spilled(dir, candles, dir2) {
      SpillOnlyAdds(dir, candles, dir2);
    } else {
      LitterHarmsNothing(dir, candles, dir2);
    }
  }

  // ----- querying -----

  /** No honest file that holds a candle of the window is pruned by its name. */
  lemma PruningIsSafe(name: string, file: File, from: int, to: int, c: Candle)
    requires HonestFile(name, file) && file.Readable? && c in file.candles && InWindow(c, from, to)
    ensures !Pruned(name, from, to)
  {
    var i :| 0 <= i < |file.candles| && file.candles[i] == c;
  }

  /** A file that `spill` named is skipped exactly when its span misses the window. */
  lemma PruningIsExact(start: I64, end: I64, n: nat, from: int, to: int)
    ensures Pruned(ProbeName(start, end, n), from, to) <==> n < U32_COUNT && (end < from || start > to)
  {
    ProbeNameParts(start, end, n);
  }

  function InsertByTs(s: seq<Candle>, c: Candle): seq<Candle> {
    if s == [] || c.ts < s[0].ts then [c] + s else [s[0]] + InsertByTs(s[1..], c)
  }

  /** One of the orders `sort_unstable_by_key` may produce. */
  function SortByTs(s: seq<Candle>): seq<Candle> {
    if s == [] then [] else InsertByTs(SortByTs(s[1..]), s[0])
  }

  lemma {:induction false} InsertKeepsSorted(s: seq<Candle>, c: Candle)
    requires SortedByTs(s)
    ensures SortedByTs(InsertByTs(s, c))
    ensures forall x :: x in InsertByTs(s, c) <==> x in s || x == c
  {
    if s != [] && c.ts >= s[0].ts {
      InsertKeepsSorted(s[1..], c);
      var r := InsertByTs(s[1..], c);
      assert forall x :: x in s <==> x == s[0] || x in s[1..];
      assert forall i :: 0 < i < |s| ==> s[0].ts <= s[i].ts;
      assert r[0] in r;
      PrependSorted(s[0], r);
    }
  }

  lemma {:induction false} SortSorts(s: seq<Candle>)
    ensures SortedByTs(SortByTs(s))
    ensures forall x :: x in SortByTs(s) <==> x in s
  {
    if s != [] {
      SortSorts(s[1..]);
      InsertKeepsSorted(SortByTs(s[1..]), s[0]);
    }
  }

  /** `out` is the deduplicated form of the first `n` candles of `s`. */
  ghost predicate DedupOf(s: seq<Candle>, n: nat, out: seq<Candle>) {
    && n <= |s| && (out == [] <==> n == 0)
    && (n > 0 ==> out[|out| - 1].ts == s[n - 1].ts)
    && StrictlyByTs(out)
    && (forall k :: 0 <= k < |out| ==> out[k] in s)
    && (forall k :: 0 <= k < n ==> HasTs(out, s[k].ts))
  }

  lemma DedupStep(s: seq<Candle>, n: nat, out: seq<Candle>)
    requires SortedByTs(s) && n < |s| && DedupOf(s, n, out)
    ensures DedupOf(s, n + 1, if out == [] || out[|out| - 1].ts != s[n].ts then out + [s[n]] else out)
  {
    var after := if out == [] || out[|out| - 1].ts != s[n].ts then out + [s[n]] else out;
    assert n > 0 ==> s[n - 1].ts <= s[n].ts;
    if out == [] || out[|out| - 1].ts != s[n].ts {
      AppendStrict(out, s[n]);
      forall k | 0 <= k < |after|
        ensures after[k] in s
      {
        assert k < |out| ==> after[k] == out[k];
      }
    }
    DedupCovers(s, n, out, after);
  }

  lemma AppendStrict(s: seq<Candle>, c: Candle)
    requires StrictlyByTs(s) && (s != [] ==> s[|s| - 1].ts < c.ts)
    ensures StrictlyByTs(s + [c])
  {
    assert forall k :: 0 <= k < |s| - 1 ==> s[k].ts < s[|s| - 1].ts;
  }

  lemma DedupCovers(s: seq<Candle>, n: nat, before: seq<Candle>, after: seq<Candle>)
    requires n < |s| && forall k :: 0 <= k < n ==> HasTs(before, s[k].ts)
    requires before <= after && after != [] && after[|after| - 1].ts == s[n].ts
    ensures forall k :: 0 <= k < n + 1 ==> HasTs(after, s[k].ts)
  {
    forall k | 0 <= k < n + 1
      ensures HasTs(after, s[k].ts)
    {
      if k < n {
        var j :| 0 <= j < |before| && before[j].ts == s[k].ts;
        assert after[j].ts == s[k].ts;
      }
    }
  }

  /** `dedup_by_key`: drop each candle whose predecessor kept has the same timestamp. */
  method DedupByTs(s: seq<Candle>) returns (out: seq<Candle>)
    requires SortedByTs(s)
    ensures DedupOf(s, |s|, out)
  {
    out := [];
    for i := 0 to |s|
      invariant DedupOf(s, i, out)
    {
      DedupStep(s, i, out);
      if out == [] || out[|out| - 1].ts != s[i].ts {
        out := out + [s[i]];
      }
    }
  }

  /** The files a query of [from, to] opens. */
  ghost function Opened(dir: Dir, from: int, to: int): Dir {
    map name | name in dir && !Pruned(name, from, to) :: dir[name]
  }

  /** In a directory whose names state their ranges truthfully, pruning hides no candle of the window. */
  lemma HonestHidesNothing(dir: Dir, from: int, to: int, c: Candle)
    requires HonestDir(dir) && InWindow(c, from, to)
    ensures StoredIn(Opened(dir, from, to), c) <==> StoredIn(dir, c)
  {
    if StoredIn(dir, c) {
      var name :| HoldsCandle(dir, name, c);
      HonestDirFile(dir, name);
      PruningIsSafe(name, dir[name], from, to, c);
      assert HoldsCandle(Opened(dir, from, to), name, c);
    }
    if StoredIn(Opened(dir, from, to), c) {
      var name :| HoldsCandle(Opened(dir, from, to), name, c);
      assert HoldsCandle(dir, name, c);
    }
  }

  lemma HonestAnswer(dir: Dir, from: int, to: int, out: seq<Candle>)
    requires HonestDir(dir) && IsColdAnswer(Opened(dir, from, to), from, to, out)
    ensures IsColdAnswer(dir, from, to, out)
  {
    forall c | InWindow(c, from, to)
      ensures StoredIn(Opened(dir, from, to), c) <==> StoredIn(dir, c)
    {
      HonestHidesNothing(dir, from, to, c);
    }
  }

  /** One of the first `n` files listed holds `c`. */
  ghost predicate HeldBelow(dir: Dir, listing: seq<string>, n: nat, c: Candle)
    requires n <= |listing|
  {
    exists k :: 0 <= k < n && HoldsCandle(dir, listing[k], c)
  }

  lemma HeldByAll(dir: Dir, listing: seq<string>, c: Candle)
    requires forall name :: name in dir ==> name in listing
    ensures HeldBelow(dir, listing, |listing|, c) <==> StoredIn(dir, c)
  {
    if StoredIn(dir, c) {
      var name :| HoldsCandle(dir, name, c);
      var k :| 0 <= k < |listing| && listing[k] == name;
    }
  }

  lemma HeldByOneMore(dir: Dir, listing: seq<string>, n: nat, c: Candle)
    requires n < |listing|
    ensures HeldBelow(dir, listing, n + 1, c) <==> HeldBelow(dir, listing, n, c) || HoldsCandle(dir, listing[n], c)
  {
  }

  /** The candles of the window in the first `n` files listed. */
  ghost predicate Collected(dir: Dir, listing: seq<string>, n: nat, from: int, to: int, out: seq<Candle>)
    requires n <= |listing|
  {
    forall c :: c in out <==> HeldBelow(Opened(dir, from, to), listing, n, c) && InWindow(c, from, to)
  }

  lemma CollectStep(dir: Dir, listing: seq<string>, n: nat, from: I64, to: I64, before: seq<Candle>, after: seq<Candle>)
    requires n < |listing| && listing[n] in dir && Collected(dir, listing, n, from, to, before)
    requires var name := listing[n];
             after == (if IsParquet(name) && !Pruned(name, from, to) && dir[name].Readable?
                       then before + Filter(dir[name].candles, from, to) else before)
    ensures Collected(dir, listing, n + 1, from, to, after)
  {
    forall c
      ensures c in after <==> HeldBelow(Opened(dir, from, to), listing, n + 1, c) && InWindow(c, from, to)
    {
      HeldByOneMore(Opened(dir, from, to), listing, n, c);
      if dir[listing[n]].Readable? { FilterMember(dir[listing[n]].candles, from, to, c); }
    }
  }

  /** The file loop: every listed file that is not pruned contributes its candles of the window. */
  method CollectWindow(dir: Dir, listing: seq<string>, from: I64, to: I64) returns (out: seq<Candle>)
    requires forall name :: name in listing <==> name in dir
    ensures forall c :: c in out <==> StoredIn(Opened(dir, from, to), c) && InWindow(c, from, to)
  {
    out := [];
    for i := 0 to |listing|
      invariant Collected(dir, listing, i, from, to, out)
    {
      var name := listing[i];
      ghost var before := out;
      if IsParquet(name) && !Pruned(name, from, to) && dir[name].Readable? {
        out := out + Filter(dir[name].candles, from, to);
      }
      CollectStep(dir, listing, i, from, to, before, out);
    }
    forall c ensures HeldBelow(Opened(dir, from, to), listing, |listing|, c) <==> StoredIn(Opened(dir, from, to), c) {
      HeldByAll(Opened(dir, from, to), listing, c);
    }
  }

  /**
   `query_cold` over a directory listed in any order; a missing directory is the empty one. The
   answer is that of the files it opens, which in an honest directory is that of all files.
   */
  method QueryCold(dir: Dir, listing: seq<string>, from: I64, to: I64) returns (out: seq<Candle>)
    requires forall name :: name in listing <==> name in dir
    ensures IsColdAnswer(Opened(dir, from, to), from, to, out)
    ensures HonestDir(dir) ==> IsColdAnswer(dir, from, to, out)
  {
    var collected := CollectWindow(dir, listing, from, to);
    SortSorts(collected);
    var sorted := SortByTs(collected);
    out := DedupByTs(sorted);
    forall c | StoredIn(Opened(dir, from, to), c) && InWindow(c, from, to)
      ensures HasTs(out, c.ts)
    {
      assert c in sorted;
      var k :| 0 <= k < |sorted| && sorted[k] == c;
    }
    if HonestDir(dir) { HonestAnswer(dir, from, to, out); }
  }
}
