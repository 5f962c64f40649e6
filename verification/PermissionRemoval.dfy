/**
 CameraMetadata::removePermissionEntries (camera/CameraMetadata.cpp): the arithmetic of the
 keys entry.  Tags are unsigned, but the removed ones are collected and sorted as signed
 numbers, and then subtracted from the unsigned keys.
 */
module PermissionRemoval {
  import opened Arithmetic

  type Tag = t: nat | t < WORD

  function ToSigned(t: Tag): int {
    if t < SIGN then t else t - WORD
  }

  function ToTag(i: int): (t: Tag)
    requires Int32(i)
    ensures ToSigned(t) == i
  {
    if i < 0 then i + WORD else i
  }

  // ----- std::sort -----

  /** The order in which the code sorts: signed for the removed tags, unsigned for the keys. */
  predicate Before(signed: bool, a: Tag, b: Tag) {
    if signed then ToSigned(a) <= ToSigned(b) else a <= b
  }

  predicate Sorted(signed: bool, ts: seq<Tag>) {
    forall i, j :: 0 <= i < j < |ts| ==> Before(signed, ts[i], ts[j])
  }

  /** `t` comes no later than anything in `ts`. */
  predicate First(signed: bool, t: Tag, ts: seq<Tag>) {
    forall i :: 0 <= i < |ts| ==> Before(signed, t, ts[i])
  }

  lemma SortedCons(signed: bool, t: Tag, ts: seq<Tag>)
    requires Sorted(signed, ts) && First(signed, t, ts)
    ensures Sorted(signed, [t] + ts)
  {
    var r := [t] + ts;
    forall i, j | 0 <= i < j < |r| ensures Before(signed, r[i], r[j]) {
      assert r[j] == ts[j - 1];
      assert i > 0 ==> r[i] == ts[i - 1];
    }
  }

  lemma FirstOfSorted(signed: bool, t: Tag, ts: seq<Tag>)
    requires Sorted(signed, ts) && ts != [] && Before(signed, t, ts[0])
    ensures First(signed, t, ts)
  {
    forall i | 0 <= i < |ts| ensures Before(signed, t, ts[i]) {
      assert i > 0 ==> Before(signed, ts[0], ts[i]);
    }
  }

  lemma SortedTail(signed: bool, ts: seq<Tag>)
    requires Sorted(signed, ts) && ts != []
    ensures Sorted(signed, ts[1..]) && First(signed, ts[0], ts[1..])
  {
    var r := ts[1..];
    forall i, j | 0 <= i < j < |r| ensures Before(signed, r[i], r[j]) {
      assert Before(signed, ts[i + 1], ts[j + 1]);
    }
    forall i | 0 <= i < |r| ensures Before(signed, ts[0], r[i]) {
      assert Before(signed, ts[0], ts[i + 1]);
    }
  }

  function Insert(signed: bool, t: Tag, ts: seq<Tag>): seq<Tag> {
    if ts == [] || Before(signed, t, ts[0]) then [t] + ts else [ts[0]] + Insert(signed, t, ts[1..])
  }

  function Sort(signed: bool, ts: seq<Tag>): seq<Tag> {
    if ts == [] then [] else Insert(signed, ts[0], Sort(signed, ts[1..]))
  }

  lemma CountCons(t: Tag, ts: seq<Tag>, x: Tag)
    ensures multiset([t] + ts)[x] == (if x == t then 1 else 0) + multiset(ts)[x]
  {
  }

  lemma {:induction false} InsertCounts(signed: bool, t: Tag, ts: seq<Tag>, x: Tag)
    ensures multiset(Insert(signed, t, ts))[x] == (if x == t then 1 else 0) + multiset(ts)[x]
  {
    if ts == [] || Before(signed, t, ts[0]) {
      CountCons(t, ts, x);
    } else {
      InsertCounts(signed, t, ts[1..], x);
      CountHead(ts, x);
      CountCons(ts[0], Insert(signed, t, ts[1..]), x);
    }
  }

  lemma {:induction false} SortCounts(signed: bool, ts: seq<Tag>, x: Tag)
    ensures multiset(Sort(signed, ts))[x] == multiset(ts)[x]
  {
    if ts != [] {
      SortCounts(signed, ts[1..], x);
      InsertCounts(signed, ts[0], Sort(signed, ts[1..]), x);
      CountHead(ts, x);
    }
  }

  lemma {:induction false} InsertFirst(signed: bool, t: Tag, ts: seq<Tag>, low: Tag)
    requires First(signed, low, ts) && Before(signed, low, t)
    ensures First(signed, low, Insert(signed, t, ts))
  {
    if ts != [] && !Before(signed, t, ts[0]) {
      assert forall i :: 0 <= i < |ts[1..]| ==> ts[1..][i] == ts[i + 1];
      InsertFirst(signed, t, ts[1..], low);
    }
  }

  lemma {:induction false} InsertSorted(signed: bool, t: Tag, ts: seq<Tag>)
    requires Sorted(signed, ts)
    ensures Sorted(signed, Insert(signed, t, ts))
  {
    if ts == [] {
    } else if Before(signed, t, ts[0]) {
      FirstOfSorted(signed, t, ts);
      SortedCons(signed, t, ts);
    } else {
      SortedTail(signed, ts);
      InsertSorted(signed, t, ts[1..]);
      InsertFirst(signed, t, ts[1..], ts[0]);
      SortedCons(signed, ts[0], Insert(signed, t, ts[1..]));
    }
  }

  lemma {:induction false} SortSorted(signed: bool, ts: seq<Tag>)
    ensures Sorted(signed, Sort(signed, ts))
  {
    if ts != [] {
      SortSorted(signed, ts[1..]);
      InsertSorted(signed, ts[0], Sort(signed, ts[1..]));
    }
  }

  // ----- std::set_difference -----

  /** The merge of std::set_difference, comparing as unsigned numbers. */
  function Difference(keys: seq<Tag>, removed: seq<Tag>): seq<Tag>
    decreases |keys| + |removed|
  {
    if keys == [] || removed == [] then keys
    else if keys[0] < removed[0] then [keys[0]] + Difference(keys[1..], removed)
    else if removed[0] < keys[0] then Difference(keys, removed[1..])
    else Difference(keys[1..], removed[1..])
  }

  lemma {:induction false} DifferenceFirst(keys: seq<Tag>, removed: seq<Tag>, low: Tag)
    requires First(false, low, keys)
    ensures First(false, low, Difference(keys, removed))
    decreases |keys| + |removed|
  {
    if keys != [] && removed != [] {
      assert Before(false, low, keys[0]);
      assert forall i :: 0 <= i < |keys[1..]| ==> keys[1..][i] == keys[i + 1];
      if keys[0] < removed[0] {
        DifferenceFirst(keys[1..], removed, low);
      } else if removed[0] < keys[0] {
        DifferenceFirst(keys, removed[1..], low);
      } else {
        DifferenceFirst(keys[1..], removed[1..], low);
      }
    }
  }

  lemma {:induction false} DifferenceSorted(keys: seq<Tag>, removed: seq<Tag>)
    requires Sorted(false, keys)
    ensures Sorted(false, Difference(keys, removed))
    decreases |keys| + |removed|
  {
    if keys != [] && removed != [] {
      SortedTail(false, keys);
      if keys[0] < removed[0] {
        DifferenceSorted(keys[1..], removed);
        DifferenceFirst(keys[1..], removed, keys[0]);
        SortedCons(false, keys[0], Difference(keys[1..], removed));
      } else if removed[0] < keys[0] {
        DifferenceSorted(keys, removed[1..]);
      } else {
        DifferenceSorted(keys[1..], removed[1..]);
      }
    }
  }

  function Minus(a: nat, b: nat): nat {
    if a <= b then 0 else a - b
  }

  lemma CountHead(ts: seq<Tag>, x: Tag)
    requires ts != []
    ensures multiset(ts)[x] == (if x == ts[0] then 1 else 0) + multiset(ts[1..])[x]
  {
    assert ts == [ts[0]] + ts[1..];
  }

  lemma CountBelow(ts: seq<Tag>, x: Tag)
    requires Sorted(false, ts) && ts != [] && x < ts[0]
    ensures multiset(ts)[x] == 0
  {
    forall i | 0 <= i < |ts| ensures ts[i] != x {
      assert i > 0 ==> Before(false, ts[0], ts[i]);
    }
  }

  /** On sorted inputs the merge computes the multiset difference. */
  lemma {:induction false} DifferenceCounts(keys: seq<Tag>, removed: seq<Tag>, x: Tag)
    requires Sorted(false, keys) && Sorted(false, removed)
    ensures multiset(Difference(keys, removed))[x] == Minus(multiset(keys)[x], multiset(removed)[x])
    decreases |keys| + |removed|
  {
    if keys == [] || removed == [] {
    } else if keys[0] < removed[0] {
      SortedTail(false, keys);
      DifferenceCounts(keys[1..], removed, x);
      CountHead(keys, x);
      CountCons(keys[0], Difference(keys[1..], removed), x);
      CountBelow(removed, keys[0]);
    } else if removed[0] < keys[0] {
      SortedTail(false, removed);
      DifferenceCounts(keys, removed[1..], x);
      CountHead(removed, x);
      CountBelow(keys, removed[0]);
    } else {
      SortedTail(false, keys);
      SortedTail(false, removed);
      DifferenceCounts(keys[1..], removed[1..], x);
      CountHead(keys, x);
      CountHead(removed, x);
    }
  }

  // ----- Removed tags in signed order -----

  predicate AllHigh(ts: seq<Tag>) {
    forall i :: 0 <= i < |ts| ==> ts[i] >= SIGN
  }

  predicate AllLow(ts: seq<Tag>) {
    forall i :: 0 <= i < |ts| ==> ts[i] < SIGN
  }

  /** Tags at or above the vendor boundary are negative as signed numbers and come first. */
  function High(ts: seq<Tag>): (r: seq<Tag>)
    ensures AllHigh(r)
  {
    if ts == [] then [] else if ts[0] >= SIGN then [ts[0]] + High(ts[1..]) else High(ts[1..])
  }

  function Low(ts: seq<Tag>): (r: seq<Tag>)
    ensures AllLow(r)
  {
    if ts == [] then [] else if ts[0] < SIGN then [ts[0]] + Low(ts[1..]) else Low(ts[1..])
  }

  lemma {:induction false} HighLowCounts(ts: seq<Tag>, x: Tag)
    ensures multiset(High(ts))[x] == (if x >= SIGN then multiset(ts)[x] else 0)
    ensures multiset(Low(ts))[x] == (if x < SIGN then multiset(ts)[x] else 0)
  {
    if ts != [] {
      CountHead(ts, x);
      HighLowCounts(ts[1..], x);
      CountCons(ts[0], High(ts[1..]), x);
      CountCons(ts[0], Low(ts[1..]), x);
    }
  }

  lemma {:induction false} NoneHigh(ts: seq<Tag>)
    requires AllLow(ts)
    ensures High(ts) == [] && Low(ts) == ts
  {
    if ts != [] {
      assert ts == [ts[0]] + ts[1..];
      NoneHigh(ts[1..]);
    }
  }

  lemma {:induction false} PartsFirst(ts: seq<Tag>, t: Tag)
    requires First(true, t, ts)
    ensures t >= SIGN ==> First(false, t, High(ts))
    ensures t < SIGN ==> AllLow(ts) && First(false, t, Low(ts))
  {
    if ts != [] {
      assert Before(true, t, ts[0]);
      assert forall i :: 0 <= i < |ts[1..]| ==> ts[1..][i] == ts[i + 1];
      PartsFirst(ts[1..], t);
      assert ts == [ts[0]] + ts[1..];
    }
  }

  /** In signed order the high tags come first, and each part is sorted as unsigned too. */
  lemma {:induction false} SignedOrder(ts: seq<Tag>)
    requires Sorted(true, ts)
    ensures ts == High(ts) + Low(ts)
    ensures Sorted(false, High(ts)) && Sorted(false, Low(ts))
  {
    if ts != [] {
      var t, rest := ts[0], ts[1..];
      assert ts == [t] + rest;
      SortedTail(true, ts);
      SignedOrder(rest);
      PartsFirst(rest, t);
      if t >= SIGN {
        SortedCons(false, t, High(rest));
        assert [t] + (High(rest) + Low(rest)) == ([t] + High(rest)) + Low(rest);
      } else {
        NoneHigh(rest);
        SortedCons(false, t, Low(rest));
      }
    }
  }

  /** High keys are left alone by low tags. */
  lemma {:induction false} DifferenceAbove(keys: seq<Tag>, removed: seq<Tag>)
    requires AllHigh(keys) && AllLow(removed)
    ensures Difference(keys, removed) == keys
    decreases |removed|
  {
    if keys != [] && removed != [] {
      DifferenceAbove(keys, removed[1..]);
    }
  }

  /** Once the merge is past a high tag, the low ones behind it have no effect. */
  lemma {:induction false} LowTagsIgnored(keys: seq<Tag>, high: seq<Tag>, low: seq<Tag>)
    requires Sorted(false, keys) && high != [] && AllHigh(high) && AllLow(low)
    ensures Difference(keys, high + low) == Difference(keys, high)
    decreases |keys| + |high|
  {
    if keys != [] {
      var all := high + low;
      assert all[0] == high[0] && all[1..] == high[1..] + low;
      SortedTail(false, keys);
      if keys[0] < high[0] {
        LowTagsIgnored(keys[1..], high, low);
      } else {
        var rest := if high[0] < keys[0] then keys else keys[1..];
        if |high| > 1 {
          LowTagsIgnored(rest, high[1..], low);
        } else {
          assert high[1..] + low == low;
          AboveHigh(keys);
          DifferenceAbove(rest, low);
        }
      }
    }
  }

  lemma AboveHigh(keys: seq<Tag>)
    requires Sorted(false, keys) && keys != [] && keys[0] >= SIGN
    ensures AllHigh(keys)
  {
    forall i | 0 <= i < |keys| ensures keys[i] >= SIGN {
      assert i > 0 ==> Before(false, keys[0], keys[i]);
    }
  }

  // ----- The new keys -----

  /** What the code computes from the keys entry and the removed tags. */
  function NewKeys(keys: seq<Tag>, removed: seq<Tag>): seq<Tag> {
    Difference(Sort(false, keys), Sort(true, removed))
  }

  /** The tags the subtraction really takes away. */
  function Effective(removed: seq<Tag>): seq<Tag> {
    if High(removed) == [] then removed else High(removed)
  }

  /** The keys entry always becomes sorted, and loses the high removed tags if there are any,
      otherwise the low ones. */
  lemma NewKeysAre(keys: seq<Tag>, removed: seq<Tag>, x: Tag)
    ensures Sorted(false, NewKeys(keys, removed))
    ensures multiset(NewKeys(keys, removed))[x]
         == Minus(multiset(keys)[x], multiset(Effective(removed))[x])
  {
    var ks, rs := Sort(false, keys), Sort(true, removed);
    SortSorted(false, keys);
    SortSorted(true, removed);
    SortCounts(false, keys, x);
    SortCounts(true, removed, x);
    SignedOrder(rs);
    DifferenceSorted(ks, rs);
    HighLowCounts(rs, x);
    HighLowCounts(removed, x);
    SortHigh(removed);
    if High(rs) == [] {
      assert rs == Low(rs);
      DifferenceCounts(ks, rs, x);
    } else {
      LowTagsIgnored(ks, High(rs), Low(rs));
      DifferenceCounts(ks, High(rs), x);
    }
  }

  lemma HighNonempty(a: seq<Tag>, b: seq<Tag>)
    requires High(a) != [] && forall x: Tag :: multiset(a)[x] == multiset(b)[x]
    ensures High(b) != []
  {
    var x := High(a)[0];
    HighLowCounts(a, x);
    HighLowCounts(b, x);
    assert multiset(High(a))[x] > 0;
  }

  /** Sorting does not change whether there is a high tag. */
  lemma SortHigh(ts: seq<Tag>)
    ensures High(Sort(true, ts)) == [] <==> High(ts) == []
  {
    forall x: Tag ensures multiset(Sort(true, ts))[x] == multiset(ts)[x] {
      SortCounts(true, ts, x);
    }
    if High(Sort(true, ts)) != [] {
      HighNonempty(Sort(true, ts), ts);
    }
    if High(ts) != [] {
      HighNonempty(ts, Sort(true, ts));
    }
  }

  /** The entry for `x` is right: as often as in the keys, less the removals. */
  predicate RightFor(keys: seq<Tag>, removed: seq<Tag>, x: Tag) {
    multiset(NewKeys(keys, removed))[x] == Minus(multiset(keys)[x], multiset(removed)[x])
  }

  lemma RightForExactly(keys: seq<Tag>, removed: seq<Tag>, x: Tag)
    ensures RightFor(keys, removed, x)
       <==> High(removed) == [] || multiset(Low(removed))[x] == 0 || multiset(keys)[x] == 0
  {
    NewKeysAre(keys, removed, x);
    HighLowCounts(removed, x);
  }

  /** The keys become the sorted difference of keys and removed tags exactly if no high tag was
      removed or no low one that was removed is among the keys. */
  lemma KeysRightExactly(keys: seq<Tag>, removed: seq<Tag>)
    ensures (forall x: Tag :: RightFor(keys, removed, x))
       <==> (High(removed) == []
             || forall x: Tag :: multiset(Low(removed))[x] == 0 || multiset(keys)[x] == 0)
  {
    forall x: Tag
      ensures RightFor(keys, removed, x)
         <==> High(removed) == [] || multiset(Low(removed))[x] == 0 || multiset(keys)[x] == 0
    {
      RightForExactly(keys, removed, x);
    }
  }

  /** A vendor tag and a built-in tag are removed; the built-in one stays in the keys. */
  lemma KeysWrongExample()
    ensures !RightFor([5, SIGN], [5, SIGN], 5)
  {
    var ts: seq<Tag> := [5, SIGN];
    assert ts[1..] == [SIGN];
    assert High([SIGN]) == [SIGN];
    assert multiset(Low(ts))[5] == 1 by {
      HighLowCounts(ts, 5);
    }
    RightForExactly(ts, ts, 5);
  }

  // ----- The code -----

  /** The call of std::set_difference, with its two moving iterators. */
  method SetDifference(keys: seq<Tag>, removed: seq<Tag>) returns (r: seq<Tag>)
    ensures r == Difference(keys, removed)
  {
    r := [];
    var i, j := 0, 0;
    while i < |keys| && j < |removed|
      invariant 0 <= i <= |keys| && 0 <= j <= |removed|
      invariant Difference(keys, removed) == r + Difference(keys[i..], removed[j..])
      decreases |keys| - i + |removed| - j
    {
      assert keys[i..][1..] == keys[i + 1..] && removed[j..][1..] == removed[j + 1..];
      if keys[i] < removed[j] {
        r := r + [keys[i]];
        i := i + 1;
      } else if removed[j] < keys[i] {
        j := j + 1;
      } else {
        i, j := i + 1, j + 1;
      }
    }
    r := r + keys[i..];
  }
}
