/** What sharing a cold directory does: a query for one symbol answers with a candle pushed for another. */
module SharedDirectory {
  import opened Candles
  import opened RingBuffers
  import opened ColdNames
  import opened ColdStore
  import opened HotColdMerge
  import opened SerialStore

  /** Some order of listing a directory. */
  method List(dir: Dir) returns (listing: seq<string>)
    ensures forall name :: name in listing <==> name in dir
  {
    listing := [];
    var todo := dir.Keys;
    while todo != {}
      invariant todo <= dir.Keys
      invariant forall name :: name in listing <==> name in dir && name !in todo
      decreases todo
    {
      var name :| name in todo;
      listing := listing + [name];
      todo := todo - {name};
    }
  }

  /** One candle spilled into an empty directory is the whole answer at its timestamp. */
  lemma OnlyCandleAnswers(c: Candle, dir: Dir, out: seq<Candle>)
    requires Spilled(map[], [c], dir) && IsColdAnswer(dir, c.ts, c.ts, out)
    ensures out == [c]
  {
    SpillOnlyAdds(map[], [c], dir);
    assert forall x :: !StoredIn(map[], x);
    assert c in [c];
    assert StoredIn(dir, c) && HasTs(out, c.ts);
    forall i | 0 <= i < |out| ensures out[i] == c { assert StoredIn(dir, out[i]); }
    assert |out| > 1 ==> out[0].ts < out[1].ts;
  }

  /** A second symbol in a store with room for one evicts the first. */
  lemma OneStays(hot: Hot, hot2: Hot, victim: Option<string>, first: string, second: string)
    requires first != second && hot.Keys == {first} && KeysMoved(victim, hot, second, hot2) && |hot2| <= 1
    ensures victim == Some(first)
  {
    if victim != Some(first) {
      assert {first, second} <= hot2.Keys;
      TwoKeys(hot2.Keys, first, second);
    }
  }

  lemma TwoKeys(keys: set<string>, a: string, b: string)
    requires a in keys && b in keys && a != b
    ensures |keys| >= 2
  {
    assert |keys - {a}| == |keys| - 1;
    assert b in keys - {a};
  }

  /** Append to one symbol, then to another that evicts it. */
  method EvictByAppending(first: string, second: string, c: Candle, d: Candle) returns (store: CandleStore)
    requires c.IsValid() && d.IsValid() && first != second
    ensures fresh(store) && store.Valid() && store.dataDir && store.hot.Keys == {second}
    ensures store.uses == [first, second]
    ensures Spilled(map[], [c], DirOf(store.cold, first))
  {
    store := new CandleStore(1, 1, true);
    var r; ghost var none, victim;
    assert CrowdedDirs(map[]) == {};
    r, none := store.TryAppend(first, c, Works);
    assert none.None? && store.hot.Keys == {first} && store.cold == map[];
    ghost var hot := store.hot;
    assert hot[first].ring == [c];
    r, victim := store.TryAppend(second, d, Works);
    HotSize(store.hot, store.uses, store.tick, 1);
    OneStays(hot, store.hot, victim, first, second);
  }

  /**
   For every two symbols that escape alike: after appends to one of them and to a third symbol, a query for
   the other, which was never appended to, answers with the first one's candle, however the cold query
   lists its files and breaks its ties.
   */
  method WrongSymbolAnswered(asked: string, pushed: string, other: string, c: Candle, d: Candle)
    returns (store: CandleStore, out: seq<Candle>)
    requires c.IsValid() && d.IsValid()
    requires asked != pushed && EscapeSymbol(asked) == EscapeSymbol(pushed) && other != pushed && other != asked
    ensures fresh(store) && store.Valid() && store.dataDir && store.uses == [pushed, other] && asked !in store.uses
    ensures DirOf(store.cold, asked) == DirOf(store.cold, pushed)
    ensures forall cold :: IsColdAnswer(DirOf(store.cold, asked), c.ts, c.ts, cold) ==>
              Combine(cold, RangeBlock(store.RingOf(asked), c.ts, c.ts)) == [c]
    ensures out == [c]
  {
    store := EvictByAppending(pushed, other, c, d);
    var dir := DirOf(store.cold, asked);
    assert store.RingOf(asked) == [];
    forall cold | IsColdAnswer(dir, c.ts, c.ts, cold) ensures cold == [c] { OnlyCandleAnswers(c, dir, cold); }
    var listing := List(dir);
    ghost var coldPart;
    out, coldPart := store.Range(asked, c.ts, c.ts, listing);
  }
}
