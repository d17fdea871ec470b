/**
 The candle store used by one thread at a time: its tick-and-minimum-scan eviction is exact LRU,
 and a failed spill leaves map, rings and flags as they were.
 */
module SerialStore {
  import opened Candles
  import opened RingBuffers
  import opened ColdNames
  import opened ColdStore
  import opened HotColdMerge
  import opened Lru

  /** A mapped symbol: its ring contents, the tick of its last append and its eviction flag. */
  datatype HotEntry = HotEntry(ring: seq<Candle>, lastAccess: nat, removed: bool)

  datatype AppendResult =
    | Accepted
    | InvalidCandle(symbol: string)
    | EvictionSpillFailed(evicted: string, candlesLost: nat)

  /** What a failed spill leaves behind: it failed before, while or after writing its file. */
  datatype Leftover = NoFile | HalfWritten | Whole

  /** How a spill would end. */
  datatype Disk = Works | Fails(left: Leftover)

  type Hot = map<string, HotEntry>

  // ----- the LRU invariant -----

  // The invariants of this module that speak of every mapped symbol, directory or pair of positions say that
  // the set of those at fault is empty. A caller then carries one equation and calls the lemma beside it for the
  // one symbol it needs, where a universal quantifier would be instantiated at every term of its proof.

  ghost function LateSymbols(hot: Hot, tick: nat): set<string> {
    set k | k in hot && hot[k].lastAccess >= tick
  }

  /** The map holds exactly `top`, most recent first by access tick, all ticks in the past. */
  ghost predicate RanksBy(hot: Hot, top: seq<string>, tick: nat) {
    hot.Keys == Elems(top) && LateSymbols(hot, tick) == {} && FallsAlong(hot, top)
  }

  /** The `bound` most recently used symbols, if they are not what the map holds and ranks by. */
  ghost function LruFaults(hot: Hot, uses: seq<string>, tick: nat, bound: nat): set<seq<string>> {
    set top | top in {Take(Recency(uses), bound)} && !RanksBy(hot, top, tick)
  }

  /** The map holds exactly the `bound` most recently used symbols. */
  ghost predicate LruOk(hot: Hot, uses: seq<string>, tick: nat, bound: nat) {
    LruFaults(hot, uses, tick, bound) == {}
  }

  lemma LruMeans(hot: Hot, uses: seq<string>, tick: nat, bound: nat)
    ensures LruOk(hot, uses, tick, bound) <==> RanksBy(hot, Take(Recency(uses), bound), tick)
  {
    var top := Take(Recency(uses), bound);
    assert !RanksBy(hot, top, tick) ==> top in LruFaults(hot, uses, tick, bound);
  }

  lemma TopIsDistinct(uses: seq<string>, bound: nat)
    ensures Distinct(Take(Recency(uses), bound))
    ensures |Elems(Take(Recency(uses), bound))| == |Take(Recency(uses), bound)|
  {
    RecencyElems(uses);
    DistinctCount(Take(Recency(uses), bound));
  }

  /** Positions of a list that are out of order by access tick. */
  ghost function Inversions(hot: Hot, s: seq<string>): set<(nat, nat)> {
    set i: nat, j: nat | i < j < |s| && !TickAbove(hot, s[i], s[j]) :: (i, j)
  }

  ghost predicate TickAbove(hot: Hot, x: string, y: string) {
    x in hot && y in hot && hot[x].lastAccess > hot[y].lastAccess
  }

  /** Strictly falling access ticks along a list. */
  ghost predicate FallsAlong(hot: Hot, s: seq<string>) {
    Inversions(hot, s) == {}
  }

  lemma FallsAt(hot: Hot, s: seq<string>, i: nat, j: nat)
    requires FallsAlong(hot, s) && i < j < |s|
    ensures TickAbove(hot, s[i], s[j])
  {
    assert (i, j) !in Inversions(hot, s);
  }

  lemma FallsIf(hot: Hot, s: seq<string>)
    requires forall i, j :: 0 <= i < j < |s| ==> TickAbove(hot, s[i], s[j])
    ensures FallsAlong(hot, s)
  {
  }

  lemma PrependFalls(hot: Hot, x: string, rest: seq<string>)
    requires FallsAlong(hot, rest) && forall k :: k in rest ==> TickAbove(hot, x, k)
    ensures FallsAlong(hot, [x] + rest)
  {
    var s := [x] + rest;
    forall i, j | 0 <= i < j < |s|
      ensures TickAbove(hot, s[i], s[j])
    {
      assert s[j] == rest[j - 1] && rest[j - 1] in rest;
      if i > 0 { FallsAt(hot, rest, i - 1, j - 1); }
    }
    FallsIf(hot, s);
  }

  lemma TailFalls(hot: Hot, s: seq<string>)
    requires FallsAlong(hot, s) && s != []
    ensures FallsAlong(hot, s[1..])
    ensures forall k :: k in s[1..] ==> TickAbove(hot, s[0], k)
  {
    var tail := s[1..];
    forall i, j | 0 <= i < j < |tail|
      ensures TickAbove(hot, tail[i], tail[j])
    {
      FallsAt(hot, s, i + 1, j + 1);
    }
    FallsIf(hot, tail);
    forall k | k in tail
      ensures TickAbove(hot, s[0], k)
    {
      var i :| 0 <= i < |tail| && tail[i] == k;
      FallsAt(hot, s, 0, i + 1);
    }
  }

  lemma WithoutIsPart(s: seq<string>, x: string, k: string)
    requires k in Without(s, x)
    ensures k in s
  {
    WithoutElems(s, x);
    assert k in Elems(Without(s, x));
  }

  lemma {:induction false} WithoutFalls(hot: Hot, s: seq<string>, x: string)
    requires FallsAlong(hot, s)
    ensures FallsAlong(hot, Without(s, x))
  {
    if s != [] {
      TailFalls(hot, s);
      WithoutFalls(hot, s[1..], x);
      if s[0] == x {
        assert Without(s, x) == Without(s[1..], x);
      } else {
        forall k | k in Without(s[1..], x) ensures k in s[1..] { WithoutIsPart(s[1..], x, k); }
        PrependFalls(hot, s[0], Without(s[1..], x));
      }
    }
  }

  /** Touching `x` at the current tick puts it in front of a list it is not in. */
  lemma TouchFalls(hot: Hot, hot2: Hot, rest: seq<string>, x: string, tick: nat)
    requires FallsAlong(hot, rest) && x !in rest
    requires forall k :: k in rest ==> k in hot && k in hot2 && hot2[k].lastAccess == hot[k].lastAccess < tick
    requires x in hot2 && hot2[x].lastAccess == tick
    ensures FallsAlong(hot2, [x] + rest)
  {
    forall i, j | 0 <= i < j < |rest|
      ensures TickAbove(hot2, rest[i], rest[j])
    {
      FallsAt(hot, rest, i, j);
      assert rest[i] in rest && rest[j] in rest;
    }
    FallsIf(hot2, rest);
    PrependFalls(hot2, x, rest);
  }

  lemma HitRanks(hot: Hot, hot2: Hot, top: seq<string>, tick: nat, x: string)
    requires RanksBy(hot, top, tick) && x in hot && Distinct(top)
    requires hot2.Keys == hot.Keys && hot2[x].lastAccess == tick
    requires forall k :: k in hot && k != x ==> hot2[k].lastAccess == hot[k].lastAccess
    ensures RanksBy(hot2, [x] + Without(top, x), tick + 1)
  {
    var rest := Without(top, x);
    WithoutElems(top, x);
    assert forall k :: k in top ==> k in Elems(top);
    WithoutFalls(hot, top, x);
    assert forall k :: k in rest ==> k in Elems(rest);
    TouchFalls(hot, hot2, rest, x, tick);
    assert Elems([x] + rest) == {x} + Elems(rest);
  }

  lemma HitKeepsLru(hot: Hot, hot2: Hot, uses: seq<string>, tick: nat, bound: nat, x: string)
    requires LruOk(hot, uses, tick, bound) && x in hot
    requires hot2.Keys == hot.Keys && hot2[x].lastAccess == tick
    requires forall k :: k in hot && k != x ==> hot2[k].lastAccess == hot[k].lastAccess
    ensures LruOk(hot2, uses + [x], tick + 1, bound)
  {
    LruMeans(hot, uses, tick, bound);
    LruMeans(hot2, uses + [x], tick + 1, bound);
    var top := Take(Recency(uses), bound);
    assert x in Elems(top);
    UseHit(uses, x, bound);
    TopIsDistinct(uses, bound);
    HitRanks(hot, hot2, top, tick, x);
  }

  /** The entry with the least access tick is the least recently used symbol. */
  lemma LeastIsLast(hot: Hot, uses: seq<string>, tick: nat, bound: nat, k: string)
    requires LruOk(hot, uses, tick, bound) && k in hot
    requires forall j :: j in hot ==> hot[k].lastAccess <= hot[j].lastAccess
    ensures var top := Take(Recency(uses), bound); top != [] && top[|top| - 1] == k
  {
    LruMeans(hot, uses, tick, bound);
    var top := Take(Recency(uses), bound);
    assert k in Elems(top);
    var i :| 0 <= i < |top| && top[i] == k;
    assert top[|top| - 1] in Elems(top);
    if i < |top| - 1 { FallsAt(hot, top, i, |top| - 1); }
  }

  lemma MissRanks(hot: Hot, hot2: Hot, rest: seq<string>, gone: seq<string>, tick: nat, x: string)
    requires RanksBy(hot, rest + gone, tick) && x !in hot && Distinct(rest + gone)
    requires hot2.Keys == hot.Keys - Elems(gone) + {x} && hot2[x].lastAccess == tick
    requires forall k :: k in hot && k !in gone ==> hot2[k].lastAccess == hot[k].lastAccess
    ensures RanksBy(hot2, [x] + rest, tick + 1)
  {
    var top := rest + gone;
    assert Elems(top) == Elems(rest) + Elems(gone);
    forall k | k in rest
      ensures k in hot && k !in gone
    {
      assert k in Elems(top);
      var i :| 0 <= i < |rest| && rest[i] == k;
      assert top[i] == k;
      assert forall j :: 0 <= j < |gone| ==> top[|rest| + j] == gone[j];
    }
    forall i, j | 0 <= i < j < |rest|
      ensures TickAbove(hot, rest[i], rest[j])
    {
      FallsAt(hot, top, i, j);
      assert rest[i] == top[i] && rest[j] == top[j];
    }
    FallsIf(hot, rest);
    TouchFalls(hot, hot2, rest, x, tick);
    assert Elems([x] + rest) == {x} + Elems(rest);
    assert Elems(rest) == hot.Keys - Elems(gone);
  }

  lemma RoomRanks(hot: Hot, hot2: Hot, top: seq<string>, tick: nat, x: string)
    requires RanksBy(hot, top, tick) && x !in hot && Distinct(top)
    requires hot2.Keys == hot.Keys + {x} && hot2[x].lastAccess == tick
    requires forall k :: k in hot ==> hot2[k].lastAccess == hot[k].lastAccess
    ensures RanksBy(hot2, [x] + top, tick + 1)
  {
    assert top + [] == top && Elems([]) == {};
    assert hot2.Keys == hot.Keys - {} + {x};
    MissRanks(hot, hot2, top, [], tick, x);
  }

  /** A map with room holds every symbol there is. */
  lemma RoomMeansAll(hot: Hot, uses: seq<string>, tick: nat, bound: nat)
    requires LruOk(hot, uses, tick, bound) && |hot| < bound
    ensures Take(Recency(uses), bound - 1) == Take(Recency(uses), bound)
  {
    LruMeans(hot, uses, tick, bound);
    TopIsDistinct(uses, bound);
    assert |Take(Recency(uses), bound)| == |hot.Keys|;
  }

  /** Inserting a symbol that was not mapped, into a map with room. */
  lemma MissWithRoomKeepsLru(hot: Hot, hot2: Hot, uses: seq<string>, tick: nat, bound: nat, x: string)
    requires LruOk(hot, uses, tick, bound) && x !in hot && |hot| < bound
    requires hot2.Keys == hot.Keys + {x} && hot2[x].lastAccess == tick
    requires forall k :: k in hot ==> hot2[k].lastAccess == hot[k].lastAccess
    ensures LruOk(hot2, uses + [x], tick + 1, bound)
  {
    LruMeans(hot, uses, tick, bound);
    LruMeans(hot2, uses + [x], tick + 1, bound);
    var top := Take(Recency(uses), bound);
    TopIsDistinct(uses, bound);
    RoomRanks(hot, hot2, top, tick, x);
    RoomMeansAll(hot, uses, tick, bound);
    assert x !in Elems(top);
    UseMiss(uses, x, bound);
  }

  /** Inserting a symbol that was not mapped, in the place of the least recently used one. */
  lemma MissWithEvictionKeepsLru(hot: Hot, hot2: Hot, uses: seq<string>, tick: nat, bound: nat, x: string, k: string)
    requires LruOk(hot, uses, tick, bound) && x !in hot && |hot| == bound && k in hot
    requires forall j :: j in hot ==> hot[k].lastAccess <= hot[j].lastAccess
    requires hot2.Keys == hot.Keys - {k} + {x} && hot2[x].lastAccess == tick
    requires forall j :: j in hot && j != k ==> hot2[j].lastAccess == hot[j].lastAccess
    ensures LruOk(hot2, uses + [x], tick + 1, bound)
  {
    LruMeans(hot, uses, tick, bound);
    LruMeans(hot2, uses + [x], tick + 1, bound);
    var top := Take(Recency(uses), bound);
    var rest := FullTop(hot, uses, tick, bound, k);
    assert RanksBy(hot2, [x] + rest, tick + 1) by {
      assert Elems([k]) == {k};
      MissRanks(hot, hot2, rest, [k], tick, x);
    }
    assert x !in Elems(top);
    UseMiss(uses, x, bound);
  }

  /** A full map is the `bound` most recent symbols, the one with the least tick last. */
  lemma FullTop(hot: Hot, uses: seq<string>, tick: nat, bound: nat, k: string) returns (rest: seq<string>)
    requires LruOk(hot, uses, tick, bound) && |hot| == bound && k in hot
    requires forall j :: j in hot ==> hot[k].lastAccess <= hot[j].lastAccess
    ensures bound > 0 && rest == Take(Recency(uses), bound - 1)
    ensures rest + [k] == Take(Recency(uses), bound) && Distinct(rest + [k])
  {
    LruMeans(hot, uses, tick, bound);
    var top := Take(Recency(uses), bound);
    TopIsDistinct(uses, bound);
    assert |top| == |hot.Keys|;
    LeastIsLast(hot, uses, tick, bound, k);
    rest := top[..bound - 1];
  }

  // ----- one append, on values -----

  predicate RingOk(x: HotEntry, cap: nat) { !x.removed && 0 < |x.ring| <= cap }

  ghost function BadRings(hot: Hot, cap: nat): set<string> {
    set k | k in hot && !RingOk(hot[k], cap)
  }

  /** No mapped ring is flagged, empty or too long. */
  ghost predicate RingsOk(hot: Hot, cap: nat) { BadRings(hot, cap) == {} }

  lemma RingIsOk(hot: Hot, cap: nat, k: string)
    requires RingsOk(hot, cap) && k in hot
    ensures RingOk(hot[k], cap)
  {
    assert k !in BadRings(hot, cap);
  }

  lemma RingsStayOk(hot: Hot, hot2: Hot, cap: nat, symbol: string)
    requires RingsOk(hot, cap) && symbol in hot2 && RingOk(hot2[symbol], cap)
    requires forall k :: k in hot2 && k != symbol ==> k in hot && hot2[k] == hot[k]
    ensures RingsOk(hot2, cap)
  {
    forall k | k in hot2 ensures k !in BadRings(hot2, cap) { if k != symbol { RingIsOk(hot, cap, k); } }
  }

  ghost function MisnamedDirs(cold: map<string, Dir>): set<string> {
    set d | d in cold && !HonestDir(cold[d])
  }

  /** Every file of every directory is named truthfully. */
  ghost predicate AllHonest(cold: map<string, Dir>) { MisnamedDirs(cold) == {} }

  lemma DirIsHonest(cold: map<string, Dir>, symbol: string)
    requires AllHonest(cold)
    ensures HonestDir(DirOf(cold, symbol))
  {
    assert Misnamed(map[]) == {};
    assert EscapeSymbol(symbol) !in MisnamedDirs(cold);
  }

  lemma DirsStayHonest(cold: map<string, Dir>, d: string, dir: Dir)
    requires AllHonest(cold) && HonestDir(dir)
    ensures AllHonest(cold[d := dir])
  {
    var cold2 := cold[d := dir];
    forall x | x in cold2 ensures x !in MisnamedDirs(cold2) { if x != d { assert x !in MisnamedDirs(cold); } }
  }

  ghost function CrowdedDirs(cold: map<string, Dir>): set<string> {
    set d | d in cold && |cold[d]| >= U32_COUNT - 1
  }

  /** Every directory holds fewer files than there are collision suffixes. */
  ghost predicate NamesLeft(cold: map<string, Dir>) { CrowdedDirs(cold) == {} }

  lemma DirHasNames(cold: map<string, Dir>, symbol: string)
    requires NamesLeft(cold)
    ensures |DirOf(cold, symbol)| < U32_COUNT - 1
  {
    assert EscapeSymbol(symbol) !in CrowdedDirs(cold);
  }

  /** An accepted append puts its candle in its ring and leaves every other ring that stays alone. */
  ghost predicate Appended(hot: Hot, symbol: string, c: Candle, cap: nat, hot2: Hot) {
    && symbol in hot2
    && hot2[symbol].ring == PushWindow(if symbol in hot then hot[symbol].ring else [], c, cap)
    && (forall k :: k in hot2 && k != symbol ==> k in hot && hot2[k] == hot[k])
  }

  /** Cold directories lose nothing, and hold every ring that left the map. */
  ghost predicate Archives(hot: Hot, hot2: Hot, cold: map<string, Dir>, cold2: map<string, Dir>, dataDir: bool) {
    && (forall d :: d in cold ==> d in cold2 && SubDir(cold[d], cold2[d]))
    && (forall k :: k in hot && k !in hot2 && dataDir ==> HasFile(DirOf(cold2, k), hot[k].ring))
  }

  /** Files changed only by spilling the victim's ring, once. */
  ghost predicate SpilledOut(victim: Option<string>, hot: Hot, cold: map<string, Dir>, cold2: map<string, Dir>,
                             dataDir: bool) {
    if victim.None? || !dataDir then cold2 == cold
    else
      var k, d := victim.value, EscapeSymbol(victim.value);
      k in hot && d in cold2 && Spilled(DirOf(cold, k), hot[k].ring, cold2[d]) && cold2 == cold[d := cold2[d]]
  }

  /** Files changed at most by the leftover of a failed spill of the ring of `k`, under a name that was free. */
  ghost predicate FailedOn(disk: Disk, k: string, hot: Hot, cold: map<string, Dir>, cold2: map<string, Dir>) {
    && disk.Fails? && k in hot
    && if disk.left.NoFile? then cold2 == cold
       else
         var d := EscapeSymbol(k);
         && d in cold2 && cold2 == cold[d := cold2[d]]
         && (if disk.left.Whole? then Spilled(DirOf(cold, k), hot[k].ring, cold2[d])
             else Littered(DirOf(cold, k), hot[k].ring, cold2[d]))
  }

  /** The mapped symbols change by the victim and the symbol appended to. */
  ghost predicate KeysMoved(victim: Option<string>, hot: Hot, symbol: string, hot2: Hot) {
    hot2.Keys == hot.Keys - (if victim.Some? then {victim.value} else {}) + {symbol}
  }

  /** The symbol named has the least access tick, and the number is the length of its ring. */
  ghost predicate NamesVictim(hot: Hot, k: string, n: nat) {
    k in hot && n == |hot[k].ring| && forall j :: j in hot ==> hot[k].lastAccess <= hot[j].lastAccess
  }

  function One(b: bool): nat { if b then 1 else 0 }

  lemma HitAppends(hot: Hot, t: nat, cap: nat, symbol: string, c: Candle)
    requires cap > 0 && RingsOk(hot, cap) && symbol in hot
    ensures var hot2 := hot[symbol := HotEntry(PushWindow(hot[symbol].ring, c, cap), t, false)];
            RingsOk(hot2, cap) && Appended(hot, symbol, c, cap, hot2)
  {
    var hot2 := hot[symbol := HotEntry(PushWindow(hot[symbol].ring, c, cap), t, false)];
    RingIsOk(hot, cap, symbol);
    PushWindowLength(hot[symbol].ring, c, cap);
    RingsStayOk(hot, hot2, cap, symbol);
  }

  /** There is room for one more symbol: there was before, or the least recently used one left. */
  ghost predicate RoomMade(hot: Hot, bound: nat, victim: Option<string>, hot2: Hot) {
    match victim
    case None => hot2 == hot && |hot| < bound
    case Some(k) =>
      && k in hot && |hot| == bound && hot2 == hot - {k}
      && forall j :: j in hot ==> hot[k].lastAccess <= hot[j].lastAccess
  }

  lemma InsertKeepsLru(hot: Hot, victim: Option<string>, hot2: Hot, uses: seq<string>, t: nat, bound: nat,
                       symbol: string, x: HotEntry)
    requires LruOk(hot, uses, t, bound) && symbol !in hot && RoomMade(hot, bound, victim, hot2) && x.lastAccess == t
    ensures LruOk(hot2[symbol := x], uses + [symbol], t + 1, bound)
  {
    var hot3 := hot2[symbol := x];
    if victim.Some? {
      assert hot3.Keys == hot.Keys - {victim.value} + {symbol};
      MissWithEvictionKeepsLru(hot, hot3, uses, t, bound, symbol, victim.value);
    } else {
      assert hot3.Keys == hot.Keys + {symbol};
      MissWithRoomKeepsLru(hot, hot3, uses, t, bound, symbol);
    }
  }

  lemma RoomKeys(hot: Hot, bound: nat, victim: Option<string>, hot2: Hot, symbol: string, x: HotEntry)
    requires RoomMade(hot, bound, victim, hot2)
    ensures KeysMoved(victim, hot, symbol, hot2[symbol := x])
  {
    assert hot2[symbol := x].Keys == hot2.Keys + {symbol};
  }

  /** What inserting a new symbol after making room for it does to the map. */
  lemma InsertAppends(hot: Hot, victim: Option<string>, hot2: Hot, cold: map<string, Dir>, cold2: map<string, Dir>,
                      dataDir: bool, x: HotEntry, bound: nat, cap: nat, symbol: string, c: Candle)
    requires cap > 0 && RingsOk(hot, cap) && symbol !in hot && RoomMade(hot, bound, victim, hot2)
    requires Archives(hot, hot2, cold, cold2, dataDir)
    requires x.ring == PushWindow([], c, cap) && !x.removed
    ensures var hot3 := hot2[symbol := x];
            RingsOk(hot3, cap) && Appended(hot, symbol, c, cap, hot3) && Archives(hot, hot3, cold, cold2, dataDir)
  {
    PushWindowLength([], c, cap);
    RingsStayOk(hot, hot2[symbol := x], cap, symbol);
  }

  /** All that inserting a new symbol does, on values. */
  lemma InsertsNew(hot: Hot, victim: Option<string>, hot2: Hot, cold: map<string, Dir>, cold2: map<string, Dir>,
                   dataDir: bool, uses: seq<string>, x: HotEntry, bound: nat, cap: nat, symbol: string, c: Candle)
    requires cap > 0 && RingsOk(hot, cap) && symbol !in hot && RoomMade(hot, bound, victim, hot2)
    requires Archives(hot, hot2, cold, cold2, dataDir) && LruOk(hot, uses, x.lastAccess, bound)
    requires x.ring == PushWindow([], c, cap) && !x.removed
    ensures var hot3 := hot2[symbol := x];
            && LruOk(hot3, uses + [symbol], x.lastAccess + 1, bound) && RingsOk(hot3, cap)
            && Appended(hot, symbol, c, cap, hot3) && Archives(hot, hot3, cold, cold2, dataDir)
            && KeysMoved(victim, hot, symbol, hot3)
  {
    RoomKeys(hot, bound, victim, hot2, symbol, x);
    InsertKeepsLru(hot, victim, hot2, uses, x.lastAccess, bound, symbol, x);
    InsertAppends(hot, victim, hot2, cold, cold2, dataDir, x, bound, cap, symbol, c);
  }

  /** A flag set and cleared again, or set and removed with its entry, leaves no trace. */
  lemma FlagLeavesNoTrace(hot: Hot, key: string)
    requires key in hot && !hot[key].removed
    ensures var flagged := hot[key := hot[key].(removed := true)];
            flagged - {key} == hot - {key} && flagged[key := flagged[key].(removed := false)] == hot
  {
    var flagged := hot[key := hot[key].(removed := true)];
    assert flagged[key].(removed := false) == hot[key];
  }

  lemma LruLater(hot: Hot, uses: seq<string>, tick: nat, bound: nat)
    requires LruOk(hot, uses, tick, bound)
    ensures LruOk(hot, uses, tick + 1, bound)
  {
    LruMeans(hot, uses, tick, bound);
    LruMeans(hot, uses, tick + 1, bound);
  }

  lemma HotSize(hot: Hot, uses: seq<string>, tick: nat, bound: nat)
    requires LruOk(hot, uses, tick, bound)
    ensures |hot| <= bound
  {
    LruMeans(hot, uses, tick, bound);
    TopIsDistinct(uses, bound);
    assert |hot| == |hot.Keys|;
  }

  lemma SpillGrowsCold(cold: map<string, Dir>, key: string, ring: seq<Candle>, dir: Dir)
    requires Spilled(DirOf(cold, key), ring, dir) && AllHonest(cold)
    ensures var cold2 := cold[EscapeSymbol(key) := dir];
            && AllHonest(cold2) && HasFile(DirOf(cold2, key), ring)
            && forall d :: d in cold ==> d in cold2 && SubDir(cold[d], cold2[d])
  {
    DirIsHonest(cold, key);
    SpillOnlyAdds(DirOf(cold, key), ring, dir);
    DirsStayHonest(cold, EscapeSymbol(key), dir);
  }

  lemma SpillArchives(hot: Hot, key: string, cold: map<string, Dir>, dir: Dir)
    requires key in hot && Spilled(DirOf(cold, key), hot[key].ring, dir) && AllHonest(cold)
    ensures var cold2 := cold[EscapeSymbol(key) := dir];
            && AllHonest(cold2) && Archives(hot, hot - {key}, cold, cold2, true)
            && SpilledOut(Some(key), hot, cold, cold2, true)
  {
    SpillGrowsCold(cold, key, hot[key].ring, dir);
  }

  lemma NothingSpilled(hot: Hot, key: string, cold: map<string, Dir>)
    ensures Archives(hot, hot - {key}, cold, cold, false) && SpilledOut(Some(key), hot, cold, cold, false)
  {
  }

  lemma LeftoverKeepsHonest(cold: map<string, Dir>, key: string, ring: seq<Candle>, dir: Dir)
    requires LeftBehind(DirOf(cold, key), ring, dir) && AllHonest(cold)
    ensures AllHonest(cold[EscapeSymbol(key) := dir])
  {
    DirIsHonest(cold, key);
    LeftBehindOnlyAdds(DirOf(cold, key), ring, dir);
    DirsStayHonest(cold, EscapeSymbol(key), dir);
  }

  /** The timestamps of a cold answer are the stored ones of the window. */
  lemma ColdAnswerTs(dir: Dir, from: int, to: int, out: seq<Candle>, ts: int)
    requires IsColdAnswer(dir, from, to, out)
    ensures HasTs(out, ts) <==> StoredTs(dir, from, to, ts)
  {
    if HasTs(out, ts) {
      var i :| 0 <= i < |out| && out[i].ts == ts;
      assert StoredIn(dir, out[i]) && InWindow(out[i], from, to);
    }
  }

  ghost predicate StoredTs(dir: Dir, from: int, to: int, ts: int) {
    exists x :: StoredIn(dir, x) && InWindow(x, from, to) && x.ts == ts
  }

  /** What the last step of `range` returns, as a set of timestamps. */
  lemma RangeTs(ring: seq<Candle>, dir: Dir, from: int, to: int, hotPart: seq<Candle>, coldPart: seq<Candle>)
    requires SortedByTs(ring) && hotPart == RangeBlock(ring, from, to) && IsColdAnswer(dir, from, to, coldPart)
    ensures IsAnswer(Combine(coldPart, hotPart), coldPart, hotPart)
    ensures forall ts :: HasTs(Combine(coldPart, hotPart), ts) <==>
              HasTs(Filter(ring, from, to), ts) || StoredTs(dir, from, to, ts)
  {
    RangeBlockIsFilter(ring, from, to);
    BlockIsSorted(ring, from, to);
    CombineIsFaithful(coldPart, hotPart);
    forall ts
      ensures HasTs(coldPart, ts) <==> StoredTs(dir, from, to, ts)
    {
      ColdAnswerTs(dir, from, to, coldPart, ts);
    }
  }

  // ----- the store -----

  class CandleStore {
    const maxSymbols: nat
    const ringCapacity: nat
    const dataDir: bool
    var hot: Hot
    var cold: map<string, Dir>
    var version: nat
    var tick: nat
    var evictions: nat
    var spillErrors: nat
    var invalidCandles: nat
    ghost var uses: seq<string>   // symbols of the accepted appends, in order

    /** How many symbols stay hot; a limit of zero still admits the one being appended to. */
    ghost function Bound(): nat { if maxSymbols == 0 then 1 else maxSymbols }

    ghost predicate Valid()
      reads this
    {
      ringCapacity > 0 && LruOk(hot, uses, tick, Bound()) && RingsOk(hot, ringCapacity) && AllHonest(cold)
    }

    constructor (maxSymbols: nat, ringCapacity: nat, dataDir: bool)
      requires ringCapacity > 0
      ensures Valid() && hot == map[] && cold == map[] && uses == [] && version == 0
      ensures this.maxSymbols == maxSymbols && this.ringCapacity == ringCapacity && this.dataDir == dataDir
    {
      this.maxSymbols, this.ringCapacity, this.dataDir := maxSymbols, ringCapacity, dataDir;
      hot, cold, version, tick, evictions, spillErrors, invalidCandles, uses := map[], map[], 0, 0, 0, 0, 0, [];
      LruMeans(map[], [], 0, if maxSymbols == 0 then 1 else maxSymbols);
    }

    /** The minimum scan over `last_access`. */
    method LeastRecent() returns (k: string)
      requires hot != map[]
      ensures k in hot && forall j :: j in hot ==> hot[k].lastAccess <= hot[j].lastAccess
    {
      var todo := hot.Keys;
      k :| k in todo;
      todo := todo - {k};
      while todo != {}
        invariant k in hot && todo <= hot.Keys
        invariant forall j :: j in hot && j !in todo ==> hot[k].lastAccess <= hot[j].lastAccess
        decreases todo
      {
        var j :| j in todo;
        if hot[j].lastAccess < hot[k].lastAccess { k := j; }
        todo := todo - {j};
      }
    }

    /**
     Strict append; `disk` is how a spill would end. The result, the new rings, the LRU order and what
     happened to an evicted ring are all determined by the state before.
     */
    method TryAppend(symbol: string, c: Candle, disk: Disk) returns (r: AppendResult, ghost victim: Option<string>)
      requires Valid()
      requires NamesLeft(cold)
      modifies this
      ensures Valid()
      ensures r.InvalidCandle? <==> !c.IsValid()
      ensures r.EvictionSpillFailed? <==>
                && c.IsValid() && symbol !in old(hot) && old(hot) != map[] && |old(hot)| >= maxSymbols
                && dataDir && disk.Fails?
      // an error changes no key, ring, flag or published count, and no file but for a failed spill's leftover
      ensures !r.Accepted? ==> hot == old(hot) && uses == old(uses) && version == old(version)
      ensures r.InvalidCandle? ==> cold == old(cold)
      ensures r.EvictionSpillFailed? ==> FailedOn(disk, r.evicted, hot, old(cold), cold)
      ensures r.Accepted? ==> Appended(old(hot), symbol, c, ringCapacity, hot)
      ensures r.Accepted? ==> Archives(old(hot), hot, old(cold), cold, dataDir)
      ensures r.Accepted? ==> uses == old(uses) + [symbol] && version == old(version) + 1
      ensures r.Accepted? ==> SpilledOut(victim, old(hot), old(cold), cold, dataDir)
      ensures r.Accepted? ==> KeysMoved(victim, old(hot), symbol, hot)
      ensures r.EvictionSpillFailed? ==> NamesVictim(hot, r.evicted, r.candlesLost)
      ensures tick == old(tick) + One(c.IsValid()) && invalidCandles == old(invalidCandles) + One(!c.IsValid())
      ensures evictions == old(evictions) + One(victim.Some?) &&
              spillErrors == old(spillErrors) + One(r.EvictionSpillFailed?)
    {
      victim := None;
      if !c.IsValid() {
        invalidCandles := invalidCandles + 1;
        return InvalidCandle(symbol), None;
      }
      if symbol in hot {
        PushAndPublish(symbol, c);
        return Accepted, None;
      }
      r, victim := TryInsertNew(symbol, c, disk);
    }

    /** The append to a mapped symbol: touch, push, publish. */
    method PushAndPublish(symbol: string, c: Candle)
      requires Valid() && symbol in hot
      modifies this`hot, this`tick, this`uses, this`version
      ensures Valid() && Appended(old(hot), symbol, c, ringCapacity, hot) && hot.Keys == old(hot).Keys
      ensures tick == old(tick) + 1 && uses == old(uses) + [symbol] && version == old(version) + 1
    {
      var x := hot[symbol];
      RingIsOk(hot, ringCapacity, symbol);
      var hot2 := hot[symbol := HotEntry(PushWindow(x.ring, c, ringCapacity), tick, x.removed)];
      HitKeepsLru(hot, hot2, uses, tick, Bound(), symbol);
      HitAppends(hot, tick, ringCapacity, symbol, c);
      hot := hot2;
      tick := tick + 1;
      uses := uses + [symbol];
      version := version + 1;
    }

    /** `try_insert_new` for a symbol that is not mapped; it uses up one tick even when it fails. */
    method TryInsertNew(symbol: string, c: Candle, disk: Disk) returns (r: AppendResult, ghost victim: Option<string>)
      requires Valid() && symbol !in hot
      requires NamesLeft(cold)
      modifies this
      ensures Valid()
      ensures r.Accepted? || r.EvictionSpillFailed?
      ensures r.EvictionSpillFailed? <==> old(hot) != map[] && |old(hot)| >= maxSymbols && dataDir && disk.Fails?
      ensures !r.Accepted? ==> hot == old(hot) && uses == old(uses) && version == old(version)
      ensures r.EvictionSpillFailed? ==> FailedOn(disk, r.evicted, hot, old(cold), cold)
      ensures r.Accepted? ==> Appended(old(hot), symbol, c, ringCapacity, hot)
      ensures r.Accepted? ==> Archives(old(hot), hot, old(cold), cold, dataDir)
      ensures r.Accepted? ==> uses == old(uses) + [symbol] && version == old(version) + 1
      ensures r.Accepted? ==> SpilledOut(victim, old(hot), old(cold), cold, dataDir)
      ensures r.Accepted? ==> KeysMoved(victim, old(hot), symbol, hot)
      ensures r.EvictionSpillFailed? ==> NamesVictim(hot, r.evicted, r.candlesLost)
      ensures tick == old(tick) + 1 && invalidCandles == old(invalidCandles)
      ensures evictions == old(evictions) + One(victim.Some?) &&
              spillErrors == old(spillErrors) + One(r.EvictionSpillFailed?)
    {
      ghost var hot0, cold0 := hot, cold;
      var t := tick;
      var entry := HotEntry(PushWindow([], c, ringCapacity), t, false);
      var room, chosen := MakeRoom(disk);
      tick := tick + 1;
      if room {
        victim := chosen;
        MapNew(symbol, c, entry, hot0, cold0, victim);
        r := Accepted;
      } else {
        victim := None;
        LruLater(hot, uses, t, Bound());
        r := EvictionSpillFailed(chosen.value, |hot[chosen.value].ring|);
      }
    }

    /** The insertion part of `try_insert_new`, after room was made in the map `hot0`. */
    method MapNew(symbol: string, c: Candle, entry: HotEntry, ghost hot0: Hot, ghost cold0: map<string, Dir>,
                  ghost victim: Option<string>)
      requires ringCapacity > 0 && symbol !in hot0 && RoomMade(hot0, Bound(), victim, hot) && AllHonest(cold)
      requires tick > 0 && entry == HotEntry(PushWindow([], c, ringCapacity), tick - 1, false)
      requires LruOk(hot0, uses, tick - 1, Bound()) && RingsOk(hot0, ringCapacity) &&
               Archives(hot0, hot, cold0, cold, dataDir)
      modifies this`hot, this`uses, this`version
      ensures Valid()
      ensures Appended(hot0, symbol, c, ringCapacity, hot)
      ensures Archives(hot0, hot, cold0, cold, dataDir) && KeysMoved(victim, hot0, symbol, hot)
      ensures uses == old(uses) + [symbol] && version == old(version) + 1
    {
      InsertsNew(hot0, victim, hot, cold0, cold, dataDir, uses, entry, Bound(), ringCapacity, symbol, c);
      hot := hot[symbol := entry];
      uses := uses + [symbol];
      version := version + 1;
    }

    /** The eviction part of `try_insert_new`. */
    method MakeRoom(disk: Disk) returns (room: bool, victim: Option<string>)
      requires Valid()
      requires NamesLeft(cold)
      modifies this`hot, this`cold, this`evictions, this`spillErrors
      ensures room <==> !(old(hot) != map[] && |old(hot)| >= maxSymbols && dataDir && disk.Fails?)
      ensures !room ==> hot == old(hot) && victim.Some? && FailedOn(disk, victim.value, hot, old(cold), cold)
      ensures !room ==> victim.value in hot && NamesVictim(hot, victim.value, |hot[victim.value].ring|)
      ensures room ==> RoomMade(old(hot), Bound(), victim, hot) && Archives(old(hot), hot, old(cold), cold, dataDir)
      ensures room ==> SpilledOut(victim, old(hot), old(cold), cold, dataDir)
      ensures evictions == old(evictions) + One(room && victim.Some?) && spillErrors == old(spillErrors) + One(!room)
      ensures AllHonest(cold)
    {
      HotSize(hot, uses, tick, Bound());
      if |hot| >= maxSymbols && hot != map[] {
        var key := LeastRecent();
        RingIsOk(hot, ringCapacity, key);
        room := EvictEntry(key, disk);
        victim := Some(key);
      } else {
        room, victim := true, None;
      }
    }

    /** Flag, snapshot, spill and remove one entry; a failed spill clears the flag again. */
    method EvictEntry(key: string, disk: Disk) returns (evicted: bool)
      requires key in hot && !hot[key].removed && hot[key].ring != []
      requires AllHonest(cold) && NamesLeft(cold)
      modifies this`hot, this`cold, this`evictions, this`spillErrors
      ensures evicted <==> disk.Works? || !dataDir
      ensures !evicted ==> hot == old(hot) && FailedOn(disk, key, hot, old(cold), cold)
      ensures evicted ==> hot == old(hot) - {key} && Archives(old(hot), hot, old(cold), cold, dataDir)
      ensures evicted ==> SpilledOut(Some(key), old(hot), old(cold), cold, dataDir)
      ensures evictions == old(evictions) + One(evicted) && spillErrors == old(spillErrors) + One(!evicted)
      ensures AllHonest(cold)
    {
      FlagLeavesNoTrace(hot, key);
      hot := hot[key := hot[key].(removed := true)];
      var snapshot := hot[key].ring;
      if snapshot != [] && dataDir {
        if disk.Fails? {
          if !disk.left.NoFile? { LeaveFile(key, snapshot, disk.left.Whole?); }
          hot := hot[key := hot[key].(removed := false)];
          spillErrors := spillErrors + 1;
          return false;
        }
        DirHasNames(cold, key);
        var dir := Spill(DirOf(cold, key), snapshot);
        SpillArchives(old(hot), key, cold, dir);
        cold := cold[EscapeSymbol(key) := dir];
      } else {
        NothingSpilled(old(hot), key, cold);
      }
      evictions := evictions + 1;
      hot := hot - {key};
      return true;
    }

    /** A spill fails after it created its file. */
    method LeaveFile(key: string, snapshot: seq<Candle>, whole: bool)
      requires snapshot != [] && AllHonest(cold) && NamesLeft(cold)
      modifies this`cold
      ensures EscapeSymbol(key) in cold && cold == old(cold)[EscapeSymbol(key) := cold[EscapeSymbol(key)]]
      ensures AllHonest(cold)
      ensures if whole then Spilled(DirOf(old(cold), key), snapshot, cold[EscapeSymbol(key)])
              else Littered(DirOf(old(cold), key), snapshot, cold[EscapeSymbol(key)])
    {
      DirHasNames(cold, key);
      var left;
      if whole { left := Spill(DirOf(cold, key), snapshot); } else { left := SpillFailing(DirOf(cold, key), snapshot); }
      LeftoverKeepsHonest(cold, key, snapshot, left);
      cold := cold[EscapeSymbol(key) := left];
    }

    /** The ring contents of a symbol; a symbol that is not mapped reads as empty. */
    ghost function RingOf(symbol: string): seq<Candle>
      reads this
    {
      if symbol in hot then hot[symbol].ring else []
    }

    /** `range`; `listing` is the order in which the directory happens to list its files. */
    method Range(symbol: string, from: I64, to: I64, listing: seq<string>)
      returns (out: seq<Candle>, ghost coldPart: seq<Candle>)
      requires Valid()
      requires forall name :: name in listing <==> name in DirOf(cold, symbol)
      ensures dataDir ==> IsColdAnswer(DirOf(cold, symbol), from, to, coldPart)
      ensures !dataDir ==> coldPart == []
      // one part alone is the answer, and a hot candle is never lost, whatever the order of the ring
      ensures coldPart == [] ==> out == RangeBlock(RingOf(symbol), from, to)
      ensures RangeBlock(RingOf(symbol), from, to) == [] ==> out == coldPart
      ensures multiset(RangeBlock(RingOf(symbol), from, to)) <= multiset(out)
      ensures out == Combine(coldPart, RangeBlock(RingOf(symbol), from, to))
      // in order, the answer is determined candle for candle
      ensures SortedByTs(RingOf(symbol)) ==> IsAnswer(out, coldPart, Filter(RingOf(symbol), from, to))
      ensures SortedByTs(RingOf(symbol)) ==>
                forall ts :: HasTs(out, ts) <==>
                  HasTs(Filter(RingOf(symbol), from, to), ts) ||
                  (dataDir && StoredTs(DirOf(cold, symbol), from, to, ts))
    {
      ghost var ring := RingOf(symbol);
      var hotPart := if symbol in hot then RangeBlock(hot[symbol].ring, from, to) else [];
      if SortedByTs(ring) {
        RangeBlockIsFilter(ring, from, to);
        BlockIsSorted(ring, from, to);
        CombineIsFaithful([], hotPart);
      }
      if !dataDir { return hotPart, []; }
      DirIsHonest(cold, symbol);
      var found := QueryCold(DirOf(cold, symbol), listing, from, to);
      coldPart := found;
      if SortedByTs(ring) { RangeTs(ring, DirOf(cold, symbol), from, to, hotPart, found); }
      MergeKeepsHot(found, hotPart);
      if found == [] { return hotPart, coldPart; }
      if hotPart == [] { return found, coldPart; }
      out := MergeByTs(found, hotPart);
    }
  }

  // ----- the symbol limit -----

  /** The limit holds if and only if it is positive or nothing was ever accepted. */
  lemma LimitHoldsIff(hot: Hot, uses: seq<string>, tick: nat, maxSymbols: nat)
    requires LruOk(hot, uses, tick, if maxSymbols == 0 then 1 else maxSymbols)
    ensures |hot| <= maxSymbols <==> maxSymbols > 0 || uses == []
  {
    var bound := if maxSymbols == 0 then 1 else maxSymbols;
    LruMeans(hot, uses, tick, bound);
    HotSize(hot, uses, tick, bound);
    RecencyElems(uses);
    if uses != [] {
      assert Recency(uses) != [];
      assert Take(Recency(uses), bound)[0] in hot.Keys;
    }
  }

  /** A store that may hold no symbol holds the one appended to. */
  method ZeroLimitAdmitsOne(symbol: string, c: Candle) returns (store: CandleStore)
    requires c.IsValid()
    ensures fresh(store) && store.Valid() && store.maxSymbols == 0 && store.hot.Keys == {symbol}
  {
    store := new CandleStore(0, 1, true);
    var r; ghost var victim;
    assert CrowdedDirs(map[]) == {};
    r, victim := store.TryAppend(symbol, c, Works);
  }
}
