/**
 The hot/cold merge of a range query: a two-index loop over two timestamp-ordered lists that
 prefers the hot candle where both sides carry the same timestamp.
 */
module HotColdMerge {
  import opened Candles

  /** What the loop has still to produce from the two remaining suffixes. */
  function Merge(cold: seq<Candle>, hot: seq<Candle>): seq<Candle> {
    if cold == [] then hot
    else if hot == [] then cold
    else if cold[0].ts < hot[0].ts then [cold[0]] + Merge(cold[1..], hot)
    else if cold[0].ts > hot[0].ts then [hot[0]] + Merge(cold, hot[1..])
    else [hot[0]] + Merge(cold[1..], hot[1..])
  }

  method MergeByTs(a: seq<Candle>, b: seq<Candle>) returns (out: seq<Candle>)
    ensures out == Merge(a, b)
  {
    out := [];
    var ai: nat, bi: nat := 0, 0;
    while ai < |a| && bi < |b|
      invariant ai <= |a| && bi <= |b|
      invariant out + Merge(a[ai..], b[bi..]) == Merge(a, b)
      decreases |a| - ai + |b| - bi
    {
      MergeStep(out, a, b, ai, bi);
      if a[ai].ts < b[bi].ts {
        out := out + [a[ai]];
        ai := ai + 1;
      } else if a[ai].ts > b[bi].ts {
        out := out + [b[bi]];
        bi := bi + 1;
      } else {
        out := out + [b[bi]];
        ai, bi := ai + 1, bi + 1;
      }
    }
    MergeLeftovers(out, a[ai..], b[bi..]);
    out := out + a[ai..] + b[bi..];
  }

  /** One loop iteration: the candle emitted plus the rest is what was still to be produced. */
  lemma MergeStep(out: seq<Candle>, a: seq<Candle>, b: seq<Candle>, ai: nat, bi: nat)
    requires ai < |a| && bi < |b|
    ensures out + Merge(a[ai..], b[bi..]) ==
            if a[ai].ts < b[bi].ts then (out + [a[ai]]) + Merge(a[ai + 1..], b[bi..])
            else if a[ai].ts > b[bi].ts then (out + [b[bi]]) + Merge(a[ai..], b[bi + 1..])
            else (out + [b[bi]]) + Merge(a[ai + 1..], b[bi + 1..])
  {
    assert a[ai..][1..] == a[ai + 1..] && b[bi..][1..] == b[bi + 1..];
    if a[ai].ts < b[bi].ts {
      ConcatAssociates(out, [a[ai]], Merge(a[ai + 1..], b[bi..]));
    } else if a[ai].ts > b[bi].ts {
      ConcatAssociates(out, [b[bi]], Merge(a[ai..], b[bi + 1..]));
    } else {
      ConcatAssociates(out, [b[bi]], Merge(a[ai + 1..], b[bi + 1..]));
    }
  }

  lemma MergeLeftovers(out: seq<Candle>, a: seq<Candle>, b: seq<Candle>)
    requires a == [] || b == []
    ensures out + a + b == out + Merge(a, b)
  {
    ConcatAssociates(out, a, b);
    assert a + b == Merge(a, b);
  }

  /** The reference for the merged contents: all of hot, and cold where hot has no such timestamp. */
  ghost predicate MergedMember(cold: seq<Candle>, hot: seq<Candle>, c: Candle) {
    c in hot || (c in cold && !HasTs(hot, c.ts))
  }

  /** The first merged timestamp is the smaller of the two first timestamps. */
  lemma MergeHead(cold: seq<Candle>, hot: seq<Candle>)
    ensures Merge(cold, hot) == [] <==> cold == [] && hot == []
    ensures Merge(cold, hot) != [] ==>
              (cold != [] && Merge(cold, hot)[0].ts == cold[0].ts) || (hot != [] && Merge(cold, hot)[0].ts == hot[0].ts)
  {
  }

  /** Merging two ordered lists gives an ordered list. */
  lemma {:induction false} MergeIsSorted(cold: seq<Candle>, hot: seq<Candle>)
    requires SortedByTs(cold) && SortedByTs(hot)
    ensures SortedByTs(Merge(cold, hot))
    decreases |cold| + |hot|
  {
    if cold != [] && hot != [] {
      TailSorted(cold);
      TailSorted(hot);
      if cold[0].ts < hot[0].ts {
        MergeIsSorted(cold[1..], hot);
        MergeHead(cold[1..], hot);
        PrependSorted(cold[0], Merge(cold[1..], hot));
      } else if cold[0].ts > hot[0].ts {
        MergeIsSorted(cold, hot[1..]);
        MergeHead(cold, hot[1..]);
        PrependSorted(hot[0], Merge(cold, hot[1..]));
      } else {
        MergeIsSorted(cold[1..], hot[1..]);
        MergeHead(cold[1..], hot[1..]);
        PrependSorted(hot[0], Merge(cold[1..], hot[1..]));
      }
    }
  }

  lemma HasTsSplits(s: seq<Candle>, ts: int)
    requires s != []
    ensures HasTs(s, ts) <==> s[0].ts == ts || HasTs(s[1..], ts)
  {
    if HasTs(s, ts) {
      var i :| 0 <= i < |s| && s[i].ts == ts;
      assert i > 0 ==> s[1..][i - 1].ts == ts;
    }
    if HasTs(s[1..], ts) {
      var i :| 0 <= i < |s[1..]| && s[1..][i].ts == ts;
      assert s[i + 1].ts == ts;
    }
  }

  lemma AboveHead(s: seq<Candle>, ts: int)
    requires s != [] && SortedByTs(s) && ts < s[0].ts
    ensures !HasTs(s, ts)
  {
  }

  lemma StrictTailAbove(s: seq<Candle>, c: Candle)
    requires s != [] && StrictlyByTs(s) && c in s[1..]
    ensures c.ts > s[0].ts
  {
    var i :| 0 <= i < |s[1..]| && s[1..][i] == c;
    assert s[i + 1] == c;
  }

  /**
   With a duplicate-free cold list, the merge holds every hot candle (hot duplicates included)
   and exactly those cold candles whose timestamp the hot list does not carry.
   */
  lemma {:induction false} MergeMembers(cold: seq<Candle>, hot: seq<Candle>, c: Candle)
    requires StrictlyByTs(cold) && SortedByTs(hot)
    ensures c in Merge(cold, hot) <==> MergedMember(cold, hot, c)
    decreases |cold| + |hot|
  {
    if cold == [] || hot == [] {
      assert !HasTs([], c.ts);
    } else {
      TailSorted(cold);
      TailSorted(hot);
      HasTsSplits(hot, c.ts);
      assert c in cold <==> c == cold[0] || c in cold[1..];
      assert c in hot <==> c == hot[0] || c in hot[1..];
      if cold[0].ts < hot[0].ts {
        MergeMembers(cold[1..], hot, c);
        AboveHead(hot, cold[0].ts);
      } else if cold[0].ts > hot[0].ts {
        MergeMembers(cold, hot[1..], c);
        if c in cold && c != cold[0] { StrictTailAbove(cold, c); }
      } else {
        MergeMembers(cold[1..], hot[1..], c);
        if c in cold[1..] { StrictTailAbove(cold, c); }
      }
    }
  }

  /** The list `range` returns: one side alone when the other is empty, else the merge. */
  function Combine(cold: seq<Candle>, hot: seq<Candle>): (out: seq<Candle>) {
    if cold == [] then hot else if hot == [] then cold else Merge(cold, hot)
  }

  // ----- the answer, candle for candle -----

  ghost function TsOf(s: seq<Candle>): set<int> { set c | c in s :: c.ts as int }

  /** The candles of `s` at timestamps of `on`, in order and as often as they occur. */
  function OnTs(s: seq<Candle>, on: set<int>): seq<Candle> {
    if s == [] then [] else (if s[0].ts in on then [s[0]] else []) + OnTs(s[1..], on)
  }

  /** The candles of `s` at all other timestamps. */
  function OffTs(s: seq<Candle>, on: set<int>): seq<Candle> {
    if s == [] then [] else (if s[0].ts in on then [] else [s[0]]) + OffTs(s[1..], on)
  }

  /**
   The answer to a query: in order, at the hot timestamps exactly the hot candles, in their order and as often
   as they occur, and at the other timestamps exactly the cold ones.
   */
  ghost predicate IsAnswer(out: seq<Candle>, cold: seq<Candle>, hot: seq<Candle>) {
    SortedByTs(out) && OnTs(out, TsOf(hot)) == hot && OffTs(out, TsOf(hot)) == OffTs(cold, TsOf(hot))
  }

  lemma {:induction false} AllOn(s: seq<Candle>, on: set<int>)
    requires forall c :: c in s ==> c.ts in on
    ensures OnTs(s, on) == s && OffTs(s, on) == []
  {
    if s != [] {
      assert s[0] in s;
      AllOn(s[1..], on);
    }
  }

  lemma {:induction false} NoneOn(s: seq<Candle>, on: set<int>)
    requires forall c :: c in s ==> c.ts !in on
    ensures OnTs(s, on) == [] && OffTs(s, on) == s
  {
    if s != [] {
      assert s[0] in s;
      NoneOn(s[1..], on);
    }
  }

  lemma {:induction false} PartsOfMultiset(s: seq<Candle>, on: set<int>)
    ensures multiset(s) == multiset(OnTs(s, on)) + multiset(OffTs(s, on))
  {
    if s != [] {
      PartsOfMultiset(s[1..], on);
      assert s == [s[0]] + s[1..];
    }
  }

  /** Which cold candles of `cold` are still matched by a candle of `hot`. */
  ghost predicate Matched(cold: seq<Candle>, hot: seq<Candle>, on: set<int>) {
    && (forall c :: c in hot ==> c.ts in on)
    && (forall c :: c in cold && c.ts in on ==> HasTs(hot, c.ts))
  }

  lemma MatchedTail(cold: seq<Candle>, hot: seq<Candle>, on: set<int>)
    requires Matched(cold, hot, on) && StrictlyByTs(cold) && SortedByTs(hot) && cold != [] && hot != []
    ensures cold[0].ts < hot[0].ts ==> cold[0].ts !in on && Matched(cold[1..], hot, on)
    ensures cold[0].ts > hot[0].ts ==> Matched(cold, hot[1..], on)
    ensures cold[0].ts == hot[0].ts ==> Matched(cold[1..], hot[1..], on)
    ensures hot[0].ts in on
  {
    assert hot[0] in hot && cold[0] in cold;
    assert cold[0].ts in on ==> HasTs(hot, cold[0].ts);
    if cold[0].ts >= hot[0].ts {
      var rest := if cold[0].ts > hot[0].ts then cold else cold[1..];
      forall c | c in rest && c.ts in on
        ensures HasTs(hot[1..], c.ts)
      {
        RestIsAbove(cold, hot[0].ts, c);
        HasTsSplits(hot, c.ts);
      }
    }
  }

  /** Past a timestamp that is at most the first one, everything but an equal first candle lies above it. */
  lemma RestIsAbove(cold: seq<Candle>, ts: int, c: Candle)
    requires StrictlyByTs(cold) && cold != [] && cold[0].ts >= ts
    requires c in (if cold[0].ts > ts then cold else cold[1..])
    ensures c.ts > ts && c in cold
  {
    var k :| 0 <= k < |cold| && cold[k] == c && (cold[0].ts > ts || k > 0);
  }

  /** Split at the timestamps of `on`, the answer so far is all of `hot` and the cold candles elsewhere. */
  ghost predicate Parts(out: seq<Candle>, cold: seq<Candle>, hot: seq<Candle>, on: set<int>) {
    OnTs(out, on) == hot && OffTs(out, on) == OffTs(cold, on)
  }

  lemma ColdStep(c: Candle, out: seq<Candle>, cold: seq<Candle>, hot: seq<Candle>, on: set<int>)
    requires Parts(out, cold, hot, on) && c.ts !in on
    ensures Parts([c] + out, [c] + cold, hot, on)
  {
    assert ([c] + out)[1..] == out && ([c] + cold)[1..] == cold;
  }

  lemma HotStep(c: Candle, out: seq<Candle>, cold: seq<Candle>, hot: seq<Candle>, on: set<int>)
    requires Parts(out, cold, hot, on) && c.ts in on
    ensures Parts([c] + out, cold, [c] + hot, on)
  {
    assert ([c] + out)[1..] == out;
  }

  lemma DroppedStep(c: Candle, out: seq<Candle>, cold: seq<Candle>, hot: seq<Candle>, on: set<int>)
    requires Parts(out, cold, hot, on) && c.ts in on
    ensures Parts(out, [c] + cold, hot, on)
  {
    assert ([c] + cold)[1..] == cold;
  }

  lemma ColdFirst(cold: seq<Candle>, hot: seq<Candle>, on: set<int>)
    requires cold != [] && hot != [] && cold[0].ts < hot[0].ts && cold[0].ts !in on
    requires Parts(Merge(cold[1..], hot), cold[1..], hot, on)
    ensures Parts(Merge(cold, hot), cold, hot, on)
  {
    assert cold == [cold[0]] + cold[1..];
    ColdStep(cold[0], Merge(cold[1..], hot), cold[1..], hot, on);
  }

  lemma HotFirst(cold: seq<Candle>, hot: seq<Candle>, on: set<int>)
    requires cold != [] && hot != [] && cold[0].ts > hot[0].ts && hot[0].ts in on
    requires Parts(Merge(cold, hot[1..]), cold, hot[1..], on)
    ensures Parts(Merge(cold, hot), cold, hot, on)
  {
    assert hot == [hot[0]] + hot[1..];
    HotStep(hot[0], Merge(cold, hot[1..]), cold, hot[1..], on);
  }

  lemma BothFirst(cold: seq<Candle>, hot: seq<Candle>, on: set<int>)
    requires cold != [] && hot != [] && cold[0].ts == hot[0].ts && hot[0].ts in on
    requires Parts(Merge(cold[1..], hot[1..]), cold[1..], hot[1..], on)
    ensures Parts(Merge(cold, hot), cold, hot, on)
  {
    assert cold == [cold[0]] + cold[1..] && hot == [hot[0]] + hot[1..];
    HotStep(hot[0], Merge(cold[1..], hot[1..]), cold[1..], hot[1..], on);
    DroppedStep(cold[0], [hot[0]] + Merge(cold[1..], hot[1..]), cold[1..], hot, on);
  }

  lemma {:induction false} MergeParts(cold: seq<Candle>, hot: seq<Candle>, on: set<int>)
    requires StrictlyByTs(cold) && SortedByTs(hot) && Matched(cold, hot, on)
    ensures Parts(Merge(cold, hot), cold, hot, on)
    decreases |cold| + |hot|
  {
    if cold == [] {
      AllOn(hot, on);
    } else if hot == [] {
      NoneOn(cold, on);
    } else {
      TailSorted(cold);
      TailSorted(hot);
      MatchedTail(cold, hot, on);
      if cold[0].ts < hot[0].ts {
        MergeParts(cold[1..], hot, on);
        ColdFirst(cold, hot, on);
      } else if cold[0].ts > hot[0].ts {
        MergeParts(cold, hot[1..], on);
        HotFirst(cold, hot, on);
      } else {
        MergeParts(cold[1..], hot[1..], on);
        BothFirst(cold, hot, on);
      }
    }
  }

  /** For any lists at all, a merge keeps every hot candle, and drops at most as many candles as are cold. */
  lemma {:induction false} MergeKeepsHot(cold: seq<Candle>, hot: seq<Candle>)
    ensures multiset(hot) <= multiset(Merge(cold, hot)) <= multiset(cold) + multiset(hot)
    decreases |cold| + |hot|
  {
    if cold != [] && hot != [] {
      assert cold == [cold[0]] + cold[1..] && hot == [hot[0]] + hot[1..];
      if cold[0].ts < hot[0].ts {
        MergeKeepsHot(cold[1..], hot);
      } else if cold[0].ts > hot[0].ts {
        MergeKeepsHot(cold, hot[1..]);
      } else {
        MergeKeepsHot(cold[1..], hot[1..]);
      }
    }
  }

  lemma {:induction false} PartIsPart(s: seq<Candle>, on: set<int>)
    ensures forall c :: c in OnTs(s, on) ==> c in s && c.ts in on
    ensures forall c :: c in OffTs(s, on) ==> c in s && c.ts !in on
  {
    if s != [] { PartIsPart(s[1..], on); }
  }

  /** In an ordered list, the first candle of either part is not before the first of the list. */
  lemma FirstIsLeast(s: seq<Candle>, on: set<int>)
    requires SortedByTs(s) && s != []
    ensures OnTs(s, on) != [] ==> s[0].ts <= OnTs(s, on)[0].ts && OnTs(s, on)[0].ts in on
    ensures OffTs(s, on) != [] ==> s[0].ts <= OffTs(s, on)[0].ts && OffTs(s, on)[0].ts !in on
    ensures if s[0].ts in on then OnTs(s, on) != [] && OnTs(s, on)[0] == s[0]
            else OffTs(s, on) != [] && OffTs(s, on)[0] == s[0]
  {
    PartIsPart(s, on);
    if OnTs(s, on) != [] {
      var k :| 0 <= k < |s| && s[k] == OnTs(s, on)[0];
    }
    if OffTs(s, on) != [] {
      var k :| 0 <= k < |s| && s[k] == OffTs(s, on)[0];
    }
  }

  lemma {:induction false} PartsLength(s: seq<Candle>, on: set<int>)
    ensures |s| == |OnTs(s, on)| + |OffTs(s, on)|
  {
    if s != [] { PartsLength(s[1..], on); }
  }

  ghost predicate SameParts(a: seq<Candle>, b: seq<Candle>, on: set<int>) {
    OnTs(a, on) == OnTs(b, on) && OffTs(a, on) == OffTs(b, on)
  }

  lemma SameFirst(a: seq<Candle>, b: seq<Candle>, on: set<int>)
    requires SortedByTs(a) && SortedByTs(b) && SameParts(a, b, on) && a != [] && b != []
    ensures a[0] == b[0]
  {
    FirstIsLeast(a, on);
    FirstIsLeast(b, on);
  }

  lemma {:induction false} PartsDetermine(a: seq<Candle>, b: seq<Candle>, on: set<int>)
    requires SortedByTs(a) && SortedByTs(b) && SameParts(a, b, on)
    ensures a == b
  {
    PartsLength(a, on);
    PartsLength(b, on);
    if a != [] {
      SameFirst(a, b, on);
      TailSorted(a);
      TailSorted(b);
      TailParts(a, b, on);
      PartsDetermine(a[1..], b[1..], on);
      assert a == [a[0]] + a[1..] && b == [b[0]] + b[1..];
    }
  }

  lemma TailParts(a: seq<Candle>, b: seq<Candle>, on: set<int>)
    requires a != [] && b != [] && a[0] == b[0] && SameParts(a, b, on)
    ensures SameParts(a[1..], b[1..], on)
  {
    if a[0].ts in on {
      assert OnTs(a[1..], on) == OnTs(a, on)[1..] && OnTs(b[1..], on) == OnTs(b, on)[1..];
      assert OffTs(a, on) == OffTs(a[1..], on) && OffTs(b, on) == OffTs(b[1..], on);
    } else {
      assert OffTs(a[1..], on) == OffTs(a, on)[1..] && OffTs(b[1..], on) == OffTs(b, on)[1..];
      assert OnTs(a, on) == OnTs(a[1..], on) && OnTs(b, on) == OnTs(b[1..], on);
    }
  }

  /** There is only one answer to given cold and hot parts. */
  lemma AnswerIsUnique(a: seq<Candle>, b: seq<Candle>, cold: seq<Candle>, hot: seq<Candle>)
    requires IsAnswer(a, cold, hot) && IsAnswer(b, cold, hot)
    ensures a == b
  {
    PartsDetermine(a, b, TsOf(hot));
  }

  /** The multiset of an answer: all of hot, and the cold candles at timestamps hot does not have. */
  lemma AnswerMultiset(out: seq<Candle>, cold: seq<Candle>, hot: seq<Candle>)
    requires IsAnswer(out, cold, hot)
    ensures multiset(out) == multiset(hot) + multiset(OffTs(cold, TsOf(hot)))
  {
    PartsOfMultiset(out, TsOf(hot));
  }

  /** One side alone when the other is empty, whatever their order. */
  lemma CombineAlone(cold: seq<Candle>, hot: seq<Candle>)
    ensures Combine([], hot) == hot && Combine(cold, []) == cold
  {
  }

  lemma CombineIsAnswer(cold: seq<Candle>, hot: seq<Candle>)
    requires StrictlyByTs(cold) && SortedByTs(hot)
    ensures IsAnswer(Combine(cold, hot), cold, hot)
    ensures multiset(Combine(cold, hot)) == multiset(hot) + multiset(OffTs(cold, TsOf(hot)))
  {
    assert Combine(cold, hot) == Merge(cold, hot);
    MergeIsSorted(cold, hot);
    forall c | c in cold && c.ts in TsOf(hot)
      ensures HasTs(hot, c.ts)
    {
      var x :| x in hot && x.ts == c.ts;
      var k :| 0 <= k < |hot| && hot[k] == x;
    }
    MergeParts(cold, hot, TsOf(hot));
    AnswerMultiset(Combine(cold, hot), cold, hot);
  }

  /**
   `range`'s last step gives the one answer there is: it keeps every hot candle as it is, and a cold candle
   exactly where the hot read carries no such timestamp.
   */
  lemma CombineIsFaithful(cold: seq<Candle>, hot: seq<Candle>)
    requires StrictlyByTs(cold) && SortedByTs(hot)
    ensures IsAnswer(Combine(cold, hot), cold, hot)
    ensures forall c :: c in Combine(cold, hot) <==> MergedMember(cold, hot, c)
    ensures forall ts :: HasTs(Combine(cold, hot), ts) <==> HasTs(cold, ts) || HasTs(hot, ts)
  {
    var out := Combine(cold, hot);
    assert out == Merge(cold, hot);
    CombineIsAnswer(cold, hot);
    forall c
      ensures c in out <==> MergedMember(cold, hot, c)
    {
      MergeMembers(cold, hot, c);
    }
    forall ts
      ensures HasTs(out, ts) <==> HasTs(cold, ts) || HasTs(hot, ts)
    {
      CombineTs(cold, hot, out, ts);
    }
  }

  lemma CombineTs(cold: seq<Candle>, hot: seq<Candle>, out: seq<Candle>, ts: int)
    requires forall c :: c in out <==> MergedMember(cold, hot, c)
    ensures HasTs(out, ts) <==> HasTs(cold, ts) || HasTs(hot, ts)
  {
    if HasTs(out, ts) {
      var i :| 0 <= i < |out| && out[i].ts == ts;
      assert out[i] in out && MergedMember(cold, hot, out[i]);
      if out[i] in hot {
        var j :| 0 <= j < |hot| && hot[j] == out[i];
      } else {
        var j :| 0 <= j < |cold| && cold[j] == out[i];
      }
    }
    if HasTs(hot, ts) {
      var j :| 0 <= j < |hot| && hot[j].ts == ts;
      assert MergedMember(cold, hot, hot[j]) && hot[j] in out;
      var i :| 0 <= i < |out| && out[i] == hot[j];
    } else if HasTs(cold, ts) {
      var j :| 0 <= j < |cold| && cold[j].ts == ts;
      assert MergedMember(cold, hot, cold[j]) && cold[j] in out;
      var i :| 0 <= i < |out| && out[i] == cold[j];
    }
  }

  /** Whatever the order of its parts, a merge makes nothing up. */
  lemma {:induction false} MergeInventsNothing(cold: seq<Candle>, hot: seq<Candle>, c: Candle)
    requires c in Merge(cold, hot)
    ensures c in cold || c in hot
    decreases |cold| + |hot|
  {
    if cold != [] && hot != [] && c != cold[0] && c != hot[0] {
      if cold[0].ts < hot[0].ts {
        MergeInventsNothing(cold[1..], hot, c);
      } else if cold[0].ts > hot[0].ts {
        MergeInventsNothing(cold, hot[1..], c);
      } else {
        MergeInventsNothing(cold[1..], hot[1..], c);
      }
    }
  }
}
