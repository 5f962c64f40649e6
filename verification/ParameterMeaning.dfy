/**
 What the parameter maps of camera/CameraParameters.cpp and camera/CameraParameters2.cpp hold: the
 value last given to every key, and exactly the entries of a text.
 */
module ParameterMeaning {
  import opened Arithmetic
  import opened ParameterMaps
  import opened StringOrder
  import opened Wrappers
  import Numerals

  // ----- Texts -----

  /** A text for a list of entries: without a '=' if there are none; otherwise the entries, perhaps
      with a ';' and something without a '=' behind them. */
  predicate TextOf(s: string, m: Store) {
    if m == [] then Lacks(s, '=')
    else s == Flatten(m) || (Flatten(m) + ";" <= s && Lacks(s[|Flatten(m)| + 1..], '='))
  }

  lemma {:induction false} ParseBehind(m: Store, junk: string)
    requires StoreOk(m) && m != [] && Lacks(junk, '=')
    ensures Parse(Flatten(m) + ";" + junk) == m
  {
    IndexNone(junk, '=');
    if |m| == 1 {
      ParseFirst(m[0], junk);
      assert [m[0]] + [] == m;
    } else {
      var rest := Flatten(m[1..]) + ";" + junk;
      assert Flatten(m) + ";" + junk == Text(m[0]) + ";" + rest;
      ParseFirst(m[0], rest);
      ParseBehind(m[1..], junk);
      assert m == [m[0]] + m[1..];
    }
  }

  lemma TextIsParsed(s: string, m: Store)
    requires StoreOk(m) && TextOf(s, m)
    ensures Parse(s) == m
  {
    if m == [] {
      IndexNone(s, '=');
    } else if s == Flatten(m) {
      ParseFlatten(m);
    } else {
      var junk := s[|Flatten(m)| + 1..];
      assert s == Flatten(m) + ";" + junk;
      ParseBehind(m, junk);
    }
  }

  /** The pieces of a text that has a '=' in it. */
  lemma SplitAt(s: string, c: char)
    requires Index(s, c) < |s|
    ensures s == s[..Index(s, c)] + [c] + s[Index(s, c) + 1..]
  {
  }

  lemma TextAnd(key: string, value: string, rest: string)
    ensures key + "=" + (value + ";" + rest) == Text(Entry(key, value)) + ";" + rest
  {
  }

  lemma FirstPieces(s: string)
    requires Index(s, '=') < |s|
    ensures var a := Values(s);
            (if Index(a, ';') < |a| then s == Text(FirstEntry(s)) + ";" + a[Index(a, ';') + 1..]
             else s == Text(FirstEntry(s)))
  {
    var key, a := s[..Index(s, '=')], Values(s);
    var e := Index(a, ';');
    SplitAt(s, '=');
    assert s == key + "=" + a;
    if e < |a| {
      SplitAt(a, ';');
      assert a == a[..e] + ";" + a[e + 1..];
      TextAnd(key, a[..e], a[e + 1..]);
    } else {
      assert a[..e] == a;
    }
  }

  lemma OneMoreText(e: Entry, rest: string, m: Store)
    requires TextOf(rest, m)
    ensures TextOf(Text(e) + ";" + rest, [e] + m)
  {
    var s, all := Text(e) + ";" + rest, [e] + m;
    assert all[1..] == m;
    if m == [] {
      assert Flatten(all) == Text(e) && s[|Text(e)| + 1..] == rest;
    } else {
      assert Flatten(all) == Text(e) + ";" + Flatten(m);
      if rest != Flatten(m) {
        assert s[|Flatten(all)| + 1..] == rest[|Flatten(m)| + 1..];
        assert rest[..|Flatten(m)| + 1] == Flatten(m) + ";";
        assert s[..|Flatten(all)| + 1] == Flatten(all) + ";";
      }
    }
  }

  lemma {:induction false} ParsedText(s: string)
    ensures TextOf(s, Parse(s))
    decreases |s|
  {
    if Index(s, '=') < |s| {
      var a, e := Values(s), FirstEntry(s);
      FirstPieces(s);
      if Index(a, ';') < |a| {
        var rest := a[Index(a, ';') + 1..];
        ParsedText(rest);
        OneMoreText(e, rest, Parse(rest));
        assert Parse(s) == [e] + Parse(rest);
      } else {
        assert Parse(s) == [e] && Flatten([e]) == Text(e);
      }
    }
  }

  /** For every C string: these entries are found in it exactly if it is a text for them, with keys
      that lack '=' and values that lack ';'. */
  lemma ParseExactly(s: string, m: Store)
    requires Lacks(s, 0 as char)
    ensures Parse(s) == m <==> StoreOk(m) && TextOf(s, m)
  {
    ParseOk(s);
    ParsedText(s);
    if StoreOk(m) && TextOf(s, m) {
      TextIsParsed(s, m);
    }
  }

  // ----- What was said last -----

  /** A key or value with a separator in it. */
  predicate Refused(key: string, value: string) {
    '=' in Seen(key) || ';' in Seen(key) || '=' in Seen(value) || ';' in Seen(value)
  }

  /** The value of the last entry for a key. */
  function LastIn(es: Store, k: string): Option<string> {
    if es == [] then None
    else if es[|es| - 1].key == k then Some(es[|es| - 1].value)
    else LastIn(es[..|es| - 1], k)
  }

  /** What the calls say about a key, the last one first: a set that is not refused gives it a value,
      a removal takes it away, and a text decides about every key. */
  function Said(ops: seq<Op>, k: string): Option<string> {
    if ops == [] then None
    else
      var before := Said(ops[..|ops| - 1], k);
      match ops[|ops| - 1]
      case Set(key, value) => if !Refused(key, value) && Seen(key) == k then Some(Seen(value)) else before
      case Remove(key) => if Seen(key) == k then None else before
      case Unflatten(text) => LastIn(Parse(Seen(text)), k)
  }

  lemma RefusedIs(key: string, value: string)
    ensures Refused(key, value) <==> !Settable(Seen(key), Seen(value))
  {
  }

  lemma {:induction false} GetNone(m: Store, k: string)
    requires forall i :: 0 <= i < |m| ==> m[i].key != k
    ensures Get(m, k) == None
  {
    if m != [] {
      GetNone(m[1..], k);
    }
  }

  /** Where keys are different, removing one takes away its value and nothing else. */
  lemma {:induction false} GetDelete(m: Store, key: string, k: string)
    requires DistinctKeys(m)
    ensures Get(Delete(m, key), k) == if k == key then None else Get(m, k)
  {
    if m != [] {
      if m[0].key == key {
        GetNone(m[1..], key);
      } else {
        GetDelete(m[1..], key, k);
      }
    }
  }

  lemma SortedKeysDiffer(m: Store)
    requires KeysAscend(m)
    ensures DistinctKeys(m)
  {
    forall i, j | 0 <= i < j < |m| ensures m[i].key != m[j].key {
      LessIrreflexive(m[i].key);
    }
  }

  lemma {:induction false} LastInFirst(e: Entry, es: Store, k: string)
    ensures LastIn([e] + es, k)
         == if LastIn(es, k).Some? then LastIn(es, k) else if e.key == k then Some(e.value) else None
  {
    var all := [e] + es;
    if es == [] {
      assert all == [e] && all[..0] == [];
    } else {
      assert all[..|all| - 1] == [e] + es[..|es| - 1];
      LastInFirst(e, es[..|es| - 1], k);
    }
  }

  lemma {:induction false} GetPutAll(m: Store, es: Store, k: string)
    ensures Get(PutAll(m, es), k) == if LastIn(es, k).Some? then LastIn(es, k) else Get(m, k)
    decreases |es|
  {
    if es != [] {
      GetPutAll(Put(m, es[0]), es[1..], k);
      GetPut(m, es[0], k);
      LastInFirst(es[0], es[1..], k);
      assert es == [es[0]] + es[1..];
    }
  }

  lemma {:induction false} RunLast(m: Store, ops: seq<Op>)
    requires ops != []
    ensures Run(m, ops) == Do(Run(m, ops[..|ops| - 1]), ops[|ops| - 1])
    decreases |ops|
  {
    if |ops| == 1 {
      assert ops[1..] == [] && ops[..0] == [];
    } else {
      RunLast(Do(m, ops[0]), ops[1..]);
      assert ops[1..][..|ops| - 2] == ops[..|ops| - 1][1..];
    }
  }

  /** For every run of set, remove and unflatten with any strings, the sorted map holds for every key
      what was said last about it. */
  lemma {:induction false} HoldsWhatWasSaid(ops: seq<Op>, k: string)
    ensures Get(Run([], ops), k) == Said(ops, k)
  {
    if ops != [] {
      var front, op := ops[..|ops| - 1], ops[|ops| - 1];
      var m := Run([], front);
      HoldsWhatWasSaid(front, k);
      RunLast([], ops);
      match op
      case Set(key, value) =>
        RefusedIs(key, value);
        GetPut(m, Entry(Seen(key), Seen(value)), k);
      case Remove(key) =>
        RunSound([], front);
        SortedKeysDiffer(m);
        GetDelete(m, Seen(key), k);
      case Unflatten(text) =>
        GetPutAll([], Parse(Seen(text)), k);
    }
  }

  lemma {:induction false} GetAppended(m: Store, e: Entry, k: string)
    ensures Get(m + [e], k) == if Get(m, k).Some? then Get(m, k) else if e.key == k then Some(e.value) else None
  {
    if m == [] {
      assert m + [e] == [e];
    } else {
      assert (m + [e])[1..] == m[1..] + [e];
      GetAppended(m[1..], e, k);
    }
  }

  lemma {:induction false} GetDistinct(m: Store, k: string)
    requires DistinctKeys(m)
    ensures Get(m, k) == LastIn(m, k)
  {
    if m != [] {
      GetDistinct(m[1..], k);
      LastInFirst(m[0], m[1..], k);
      assert m == [m[0]] + m[1..];
      if m[0].key == k {
        GetNone(m[1..], k);
      }
    }
  }

  /** The same for the map in setting order, if no text has a key twice. */
  lemma {:induction false} OrderedHoldsWhatWasSaid(ops: seq<Op>, k: string)
    requires DistinctTexts(ops)
    ensures Get(Run2(ops), k) == Said(ops, k)
  {
    if ops != [] {
      var front, op := ops[..|ops| - 1], ops[|ops| - 1];
      var m := Run2(front);
      assert forall i :: 0 <= i < |front| ==> front[i] == ops[i];
      OrderedHoldsWhatWasSaid(front, k);
      Run2Distinct(front);
      match op
      case Set(key, value) =>
        RefusedIs(key, value);
        GetDelete(m, Seen(key), k);
        GetAppended(Delete(m, Seen(key)), Entry(Seen(key), Seen(value)), k);
      case Remove(key) =>
        GetDelete(m, Seen(key), k);
      case Unflatten(text) =>
        GetDistinct(Parse(Seen(text)), k);
    }
  }

  /** getInt without a value, or with an empty one, is minus one; a value is read in the base it is
      written in. */
  lemma GetIntValues(m: Store, key: string)
    ensures Get(m, key).None? || Get(m, key) == Some("") ==> GetInt(m, key) == -1
    ensures Get(m, key) == Some("0x1F") ==> GetInt(m, key) == 31
    ensures Get(m, key) == Some("017") ==> GetInt(m, key) == 15
  {
    ReadHex();
    ReadOctal();
  }

  lemma ReadHex()
    ensures Numerals.Strtol("0x1F", true).0 == 31
  {
    var s := "0x1F";
    assert s[2..] == "1F" && "1F"[1..] == "F" && "F"[1..] == "";
    assert Numerals.Scan(16, 1, "F") == Numerals.Scan(16, 31, "");
  }

  lemma ReadOctal()
    ensures Numerals.Strtol("017", true).0 == 15
  {
    var s := "017";
    assert s[1..] == "17" && "17"[1..] == "7" && "7"[1..] == "";
    assert Numerals.Scan(8, 1, "7") == Numerals.Scan(8, 15, "");
  }
}
