/**
 camera/CameraParameters.cpp and camera/CameraParameters2.cpp: string parameters in a map that
 is written out as "key=value;key=value" and read back.  The first keeps its keys sorted, the
 second keeps them in the order in which they were set.
 */
module ParameterMaps {
  import opened Arithmetic
  import opened Wrappers
  import Numerals
  import opened StringOrder

  datatype Entry = Entry(key: string, value: string)

  type Store = seq<Entry>

  // ----- C strings -----

  /** strchr: the index of a character, the length if it is not there. */
  function Index(s: string, c: char): (i: nat)
    ensures i <= |s|
    ensures i < |s| ==> s[i] == c
    ensures forall k :: 0 <= k < i ==> s[k] != c
  {
    IndexFrom(s, c, 0)
  }

  function IndexFrom(s: string, c: char, from: nat): (i: nat)
    requires from <= |s|
    ensures from <= i <= |s|
    ensures i < |s| ==> s[i] == c
    ensures forall k :: from <= k < i ==> s[k] != c
    decreases |s| - from
  {
    if from == |s| || s[from] == c then from else IndexFrom(s, c, from + 1)
  }

  predicate Lacks(s: string, c: char) {
    forall k :: 0 <= k < |s| ==> s[k] != c
  }

  /** What a C string function sees of a string: it ends at the first zero character. */
  function Seen(s: string): string {
    s[..Index(s, 0 as char)]
  }

  lemma IndexAppend(a: string, c: char, b: string)
    requires Lacks(a, c)
    ensures Index(a + [c] + b, c) == |a|
  {
    var s := a + [c] + b;
    assert s[|a|] == c;
    assert forall k :: 0 <= k < |a| ==> s[k] == a[k];
  }

  lemma IndexNone(a: string, c: char)
    requires Lacks(a, c)
    ensures Index(a, c) == |a|
  {
  }

  // ----- The text form -----

  function Text(e: Entry): string {
    e.key + "=" + e.value
  }

  function Flatten(m: Store): string {
    if m == [] then "" else if |m| == 1 then Text(m[0]) else Text(m[0]) + ";" + Flatten(m[1..])
  }

  /** What is behind the first '='. */
  function Values(s: string): (a: string)
    requires Index(s, '=') < |s|
    ensures |a| < |s|
  {
    s[Index(s, '=') + 1..]
  }

  /** The first key and value of a string with a '=' in it; the value ends at a ';'. */
  function FirstEntry(s: string): Entry
    requires Index(s, '=') < |s|
  {
    Entry(s[..Index(s, '=')], Values(s)[..Index(Values(s), ';')])
  }

  /** The key and value pairs unflatten finds in a string, in order. */
  function Parse(s: string): Store
    decreases |s|
  {
    if Index(s, '=') == |s| then []
    else
      var a := Values(s);
      var e := Index(a, ';');
      if e == |a| then [FirstEntry(s)] else [FirstEntry(s)] + Parse(a[e + 1..])
  }

  /** No entry can be mistaken for another when written out. */
  predicate EntryOk(e: Entry) {
    Lacks(e.key, '=') && Lacks(e.value, ';') && Lacks(e.key, 0 as char) && Lacks(e.value, 0 as char)
  }

  predicate StoreOk(m: Store) {
    forall i :: 0 <= i < |m| ==> EntryOk(m[i])
  }

  /** The key of a text ends at its '='. */
  lemma TextKey(e: Entry, rest: string)
    requires EntryOk(e)
    ensures var s := e.key + "=" + rest;
            Index(s, '=') == |e.key| && s[..|e.key|] == e.key && Values(s) == rest
  {
    IndexAppend(e.key, '=', rest);
  }

  lemma ParseOnly(e: Entry)
    requires EntryOk(e)
    ensures Parse(Text(e)) == [e]
  {
    TextKey(e, e.value);
    IndexNone(e.value, ';');
    assert e.value[..|e.value|] == e.value;
  }

  lemma ParseFirst(e: Entry, rest: string)
    requires EntryOk(e)
    ensures Parse(Text(e) + ";" + rest) == [e] + Parse(rest)
  {
    var a := e.value + ";" + rest;
    var s := e.key + "=" + a;
    TextBehind(e, rest);
    TextKey(e, a);
    IndexAppend(e.value, ';', rest);
    ParseUnfold(s);
  }

  lemma TextBehind(e: Entry, rest: string)
    ensures var a := e.value + ";" + rest;
            && Text(e) + ";" + rest == e.key + "=" + a
            && a[..|e.value|] == e.value && a[|e.value| + 1..] == rest
  {
  }

  /** Parsing undoes flattening. */
  lemma {:induction false} ParseFlatten(m: Store)
    requires StoreOk(m)
    ensures Parse(Flatten(m)) == m
  {
    if |m| == 1 {
      ParseOnly(m[0]);
    } else if |m| > 1 {
      ParseFirst(m[0], Flatten(m[1..]));
      ParseFlatten(m[1..]);
      assert m == [m[0]] + m[1..];
    }
  }

  lemma {:induction false} FlattenHasNoZero(m: Store)
    requires StoreOk(m)
    ensures Lacks(Flatten(m), 0 as char)
  {
    if m != [] {
      assert EntryOk(m[0]);
      FlattenHasNoZero(m[1..]);
    }
  }

  lemma BehindLacks(s: string)
    requires Lacks(s, 0 as char) && Index(s, '=') < |s| && Index(Values(s), ';') < |Values(s)|
    ensures Lacks(Values(s)[Index(Values(s), ';') + 1..], 0 as char)
  {
    var a := Values(s);
    SliceLacks(s, Index(s, '=') + 1, |s|);
    SliceLacks(a, Index(a, ';') + 1, |a|);
  }

  /** Whatever the string, what is parsed can be written out again. */
  lemma {:induction false} ParseOk(s: string)
    requires Lacks(s, 0 as char)
    ensures StoreOk(Parse(s))
    decreases |s|
  {
    if Index(s, '=') < |s| {
      FirstEntryOk(s);
      ParseUnfold(s);
      var a := Values(s);
      var e := Index(a, ';');
      if e < |a| {
        BehindLacks(s);
        ParseOk(a[e + 1..]);
        StoreCons(FirstEntry(s), Parse(a[e + 1..]));
      } else {
        StoreCons(FirstEntry(s), []);
      }
    }
  }

  lemma ParseUnfold(s: string)
    requires Index(s, '=') < |s|
    ensures var a := Values(s);
            var e := Index(a, ';');
            Parse(s) == [FirstEntry(s)] + if e == |a| then [] else Parse(a[e + 1..])
  {
  }

  lemma FirstEntryOk(s: string)
    requires Lacks(s, 0 as char) && Index(s, '=') < |s|
    ensures EntryOk(FirstEntry(s))
  {
    var b, a := Index(s, '='), Values(s);
    SliceLacks(s, 0, b);
    SliceLacks(s, b + 1, |s|);
    SliceLacks(a, 0, Index(a, ';'));
  }

  lemma SliceLacks(s: string, i: nat, j: nat)
    requires i <= j <= |s| && Lacks(s, 0 as char)
    ensures Lacks(s[i..j], 0 as char)
    ensures j == |s| ==> Lacks(s[i..], 0 as char)
    ensures i == 0 ==> Lacks(s[..j], 0 as char)
  {
  }

  lemma StoreCons(e: Entry, m: Store)
    requires EntryOk(e) && StoreOk(m)
    ensures StoreOk([e] + m)
  {
  }

  // ----- The sorted map -----

  predicate KeysAscend(m: Store) {
    forall i, j :: 0 <= i < j < |m| ==> Less(m[i].key, m[j].key)
  }

  /** KeyedVector::add and replaceValueFor. */
  function Put(m: Store, e: Entry): Store {
    if m == [] then [e]
    else if m[0].key == e.key then [e] + m[1..]
    else if Less(e.key, m[0].key) then [e] + m
    else [m[0]] + Put(m[1..], e)
  }

  function PutAll(m: Store, es: Store): Store
    decreases |es|
  {
    if es == [] then m else PutAll(Put(m, es[0]), es[1..])
  }

  function Delete(m: Store, key: string): Store {
    if m == [] then [] else if m[0].key == key then m[1..] else [m[0]] + Delete(m[1..], key)
  }

  function Get(m: Store, key: string): Option<string> {
    if m == [] then None else if m[0].key == key then Some(m[0].value) else Get(m[1..], key)
  }

  predicate KeyBeforeAll(key: string, m: Store) {
    forall i :: 0 <= i < |m| ==> Less(key, m[i].key)
  }

  lemma KeysAscendTail(m: Store)
    requires KeysAscend(m) && m != []
    ensures KeysAscend(m[1..]) && KeyBeforeAll(m[0].key, m[1..])
  {
    var r := m[1..];
    forall i, j | 0 <= i < j < |r| ensures Less(r[i].key, r[j].key) {
      assert Less(m[i + 1].key, m[j + 1].key);
    }
    forall i | 0 <= i < |r| ensures Less(m[0].key, r[i].key) {
      assert Less(m[0].key, m[i + 1].key);
    }
  }

  lemma KeysAscendCons(e: Entry, m: Store)
    requires KeysAscend(m) && KeyBeforeAll(e.key, m)
    ensures KeysAscend([e] + m)
  {
    var r := [e] + m;
    forall i, j | 0 <= i < j < |r| ensures Less(r[i].key, r[j].key) {
      assert r[j] == m[j - 1];
      assert i > 0 ==> r[i] == m[i - 1];
    }
  }

  lemma {:induction false} PutBefore(m: Store, e: Entry, key: string)
    requires KeyBeforeAll(key, m) && Less(key, e.key)
    ensures KeyBeforeAll(key, Put(m, e))
  {
    if m != [] && m[0].key != e.key && !Less(e.key, m[0].key) {
      assert forall i :: 0 <= i < |m[1..]| ==> m[1..][i] == m[i + 1];
      PutBefore(m[1..], e, key);
    }
  }

  lemma {:induction false} PutAscends(m: Store, e: Entry)
    requires KeysAscend(m)
    ensures KeysAscend(Put(m, e))
  {
    if m != [] {
      KeysAscendTail(m);
      if m[0].key == e.key {
        KeysAscendCons(e, m[1..]);
      } else if Less(e.key, m[0].key) {
        forall i | 0 <= i < |m| ensures Less(e.key, m[i].key) {
          if i > 0 {
            LessTransitive(e.key, m[0].key, m[i].key);
          }
        }
        KeysAscendCons(e, m);
      } else {
        LessTotal(e.key, m[0].key);
        PutAscends(m[1..], e);
        PutBefore(m[1..], e, m[0].key);
        KeysAscendCons(m[0], Put(m[1..], e));
      }
    }
  }

  lemma {:induction false} DeleteBefore(m: Store, k: string, key: string)
    requires KeyBeforeAll(key, m)
    ensures KeyBeforeAll(key, Delete(m, k))
  {
    if m != [] {
      assert forall i :: 0 <= i < |m[1..]| ==> m[1..][i] == m[i + 1];
      DeleteBefore(m[1..], k, key);
    }
  }

  lemma {:induction false} DeleteAscends(m: Store, key: string)
    requires KeysAscend(m)
    ensures KeysAscend(Delete(m, key))
  {
    if m != [] {
      KeysAscendTail(m);
      DeleteAscends(m[1..], key);
      DeleteBefore(m[1..], key, m[0].key);
      KeysAscendCons(m[0], Delete(m[1..], key));
    }
  }

  lemma {:induction false} PutLast(m: Store, e: Entry)
    requires forall i :: 0 <= i < |m| ==> Less(m[i].key, e.key)
    ensures Put(m, e) == m + [e]
  {
    if m != [] {
      LessIrreflexive(e.key);
      if Less(e.key, m[0].key) {
        LessTransitive(e.key, m[0].key, e.key);
      }
      assert m == [m[0]] + m[1..];
      PutLast(m[1..], e);
    }
  }

  /** Putting in sorted entries one after the other just lists them. */
  lemma {:induction false} PutAllSorted(m: Store, es: Store)
    requires KeysAscend(m + es)
    ensures PutAll(m, es) == m + es
    decreases |es|
  {
    if es == [] {
      assert m + es == m;
    } else {
      forall i | 0 <= i < |m| ensures Less(m[i].key, es[0].key) {
        assert (m + es)[i] == m[i] && (m + es)[|m|] == es[0];
      }
      PutLast(m, es[0]);
      assert (m + [es[0]]) + es[1..] == m + es;
      PutAllSorted(m + [es[0]], es[1..]);
    }
  }

  lemma {:induction false} PutOk(m: Store, e: Entry)
    requires StoreOk(m) && EntryOk(e)
    ensures StoreOk(Put(m, e))
  {
    if m != [] {
      PutOk(m[1..], e);
    }
  }

  lemma {:induction false} PutAllOk(m: Store, es: Store)
    requires StoreOk(m) && StoreOk(es) && KeysAscend(m)
    ensures StoreOk(PutAll(m, es)) && KeysAscend(PutAll(m, es))
    decreases |es|
  {
    if es != [] {
      PutOk(m, es[0]);
      PutAscends(m, es[0]);
      PutAllOk(Put(m, es[0]), es[1..]);
    }
  }

  lemma {:induction false} DeleteOk(m: Store, key: string)
    requires StoreOk(m)
    ensures StoreOk(Delete(m, key))
  {
    if m != [] {
      DeleteOk(m[1..], key);
    }
  }

  /** The sorted map is a map. */
  lemma {:induction false} GetPut(m: Store, e: Entry, key: string)
    ensures Get(Put(m, e), key) == if key == e.key then Some(e.value) else Get(m, key)
  {
    if m != [] {
      GetPut(m[1..], e, key);
    }
  }

  // ----- Runs -----

  datatype Op = Set(key: string, value: string) | Remove(key: string) | Unflatten(text: string)

  /** set refuses keys and values with a separator in them. */
  predicate Settable(key: string, value: string) {
    Lacks(key, '=') && Lacks(key, ';') && Lacks(value, '=') && Lacks(value, ';')
  }

  function Do(m: Store, op: Op): Store {
    match op
    case Set(key, value) =>
      if Settable(Seen(key), Seen(value)) then Put(m, Entry(Seen(key), Seen(value))) else m
    case Remove(key) => Delete(m, Seen(key))
    case Unflatten(text) => PutAll([], Parse(Seen(text)))
  }

  function Run(m: Store, ops: seq<Op>): Store
    decreases |ops|
  {
    if ops == [] then m else Run(Do(m, ops[0]), ops[1..])
  }

  lemma SeenHasNoZero(s: string)
    ensures Lacks(Seen(s), 0 as char)
  {
  }

  lemma SeenAll(s: string)
    requires Lacks(s, 0 as char)
    ensures Seen(s) == s
  {
    IndexNone(s, 0 as char);
  }

  predicate Sound(m: Store) {
    StoreOk(m) && KeysAscend(m)
  }

  lemma DoSound(m: Store, op: Op)
    requires Sound(m)
    ensures Sound(Do(m, op))
  {
    match op
    case Set(key, value) =>
      SeenHasNoZero(key);
      SeenHasNoZero(value);
      if Settable(Seen(key), Seen(value)) {
        PutOk(m, Entry(Seen(key), Seen(value)));
        PutAscends(m, Entry(Seen(key), Seen(value)));
      }
    case Remove(key) =>
      DeleteOk(m, Seen(key));
      DeleteAscends(m, Seen(key));
    case Unflatten(text) =>
      SeenHasNoZero(text);
      ParseOk(Seen(text));
      PutAllOk([], Parse(Seen(text)));
  }

  lemma {:induction false} RunSound(m: Store, ops: seq<Op>)
    requires Sound(m)
    ensures Sound(Run(m, ops))
    decreases |ops|
  {
    if ops != [] {
      DoSound(m, ops[0]);
      RunSound(Do(m, ops[0]), ops[1..]);
    }
  }

  /** For every map reachable by any mix of calls with arbitrary strings, unflatten after flatten
      is the identity. */
  lemma UnflattenFlatten(ops: seq<Op>)
    ensures Do(Run([], ops), Unflatten(Flatten(Run([], ops)))) == Run([], ops)
  {
    var m := Run([], ops);
    RunSound([], ops);
    FlattenHasNoZero(m);
    SeenAll(Flatten(m));
    ParseFlatten(m);
    assert [] + m == m;
    PutAllSorted([], m);
  }

  /** A number that was set is what getInt returns, whatever was in the map. */
  lemma SetGetInt(m: Store, key: string, i: int)
    requires Int32(i) && Lacks(key, 0 as char) && Lacks(key, '=') && Lacks(key, ';')
    ensures GetInt(Do(m, Set(key, Numerals.Print(i))), key) == i
  {
    var v := Numerals.Print(i);
    Numerals.PrintPlain(i);
    PrintHasNoZero(i);
    SeenAll(key);
    SeenAll(v);
    assert Settable(key, v);
    GetPut(m, Entry(key, v), key);
    Numerals.StrtolPrint(i, "", true);
    assert v + "" == v;
  }

  /** getInt: minus one if there is no value, which an empty one counts as. */
  function GetInt(m: Store, key: string): int {
    var v := Get(m, key);
    if v.None? || v.value == [] then -1 else ToInt32(Numerals.Strtol(v.value, true).0)
  }

  lemma PrintHasNoZero(i: int)
    ensures Lacks(Numerals.Print(i), 0 as char)
  {
    var n := if i < 0 then -i else i;
    Numerals.DigitsValue(n);
    var d := Numerals.Digits(n);
    forall k | 0 <= k < |d| ensures d[k] != 0 as char {
      assert Numerals.IsDigit(10, d[k]);
    }
  }

  /** A pair that was set is what the size and range getters return. */
  lemma SetGetPair(m: Store, key: string, w: int, h: int, delim: char)
    requires Int32(w) && Int32(h) && Lacks(key, 0 as char) && Lacks(key, '=') && Lacks(key, ';')
    requires delim == 'x' || delim == ','
    ensures var m' := Do(m, Set(key, Numerals.PrintPair(w, h, delim)));
            && Get(m', key).Some?
            && Numerals.ParsePair(Get(m', key).value, delim) == Some(Numerals.Pair(w, h, ""))
  {
    var v := Numerals.PrintPair(w, h, delim);
    Numerals.PrintPlain(w);
    Numerals.PrintPlain(h);
    PrintHasNoZero(w);
    PrintHasNoZero(h);
    SeenAll(key);
    SeenAll(v);
    assert Settable(key, v);
    GetPut(m, Entry(key, v), key);
    Numerals.PairRoundTrip(w, h, delim, "");
    assert v + "" == v;
  }

  // ----- The map in the order of setting -----

  /** Index of a key, the number of entries if it is not there. */
  function KeyIndex(m: Store, key: string): (i: nat)
    ensures i <= |m|
    ensures i < |m| ==> m[i].key == key
    ensures forall k :: 0 <= k < i ==> m[k].key != key
  {
    if m == [] || m[0].key == key then 0 else 1 + KeyIndex(m[1..], key)
  }

  /** One call on a CameraParameters2: a value that is set moves to the end, and unflatten lists
      whatever it finds. */
  function Do2(m: Store, op: Op): Store {
    match op
    case Set(key, value) =>
      if Settable(Seen(key), Seen(value)) then Delete(m, Seen(key)) + [Entry(Seen(key), Seen(value))] else m
    case Remove(key) => Delete(m, Seen(key))
    case Unflatten(text) => Parse(Seen(text))
  }

  function Run2(ops: seq<Op>): Store {
    if ops == [] then [] else Do2(Run2(ops[..|ops| - 1]), ops[|ops| - 1])
  }

  lemma {:induction false} Run2Ok(ops: seq<Op>)
    ensures StoreOk(Run2(ops))
  {
    if ops != [] {
      var front, op := ops[..|ops| - 1], ops[|ops| - 1];
      Run2Ok(front);
      match op
      case Set(key, value) =>
        SeenHasNoZero(key);
        SeenHasNoZero(value);
        DeleteOk(Run2(front), Seen(key));
      case Remove(key) => DeleteOk(Run2(front), Seen(key));
      case Unflatten(text) =>
        SeenHasNoZero(text);
        ParseOk(Seen(text));
    }
  }

  /** For every reachable map in setting order, unflatten after flatten is the identity; so the
      order that compareSetOrder reports survives too. */
  lemma UnflattenFlatten2(ops: seq<Op>)
    ensures Do2(Run2(ops), Unflatten(Flatten(Run2(ops)))) == Run2(ops)
  {
    var m := Run2(ops);
    Run2Ok(ops);
    FlattenHasNoZero(m);
    SeenAll(Flatten(m));
    ParseFlatten(m);
  }

  /** compareSetOrder: None if a key was not set. */
  function CompareSetOrder(m: Store, key1: string, key2: string): Option<int> {
    var i, j := KeyIndex(m, key1), KeyIndex(m, key2);
    if i == |m| || j == |m| then None else Some(if i == j then 0 else if i < j then -1 else 1)
  }

  /** Where a key got its value: the number of the call, and the place in its text if that was an
      unflatten. */
  datatype Place = Place(call: nat, item: nat)

  predicate Earlier(a: Place, b: Place) {
    a.call < b.call || (a.call == b.call && a.item < b.item)
  }

  /** The last place at which a key was set, if it was not removed since. */
  function LastSet(ops: seq<Op>, key: string): (r: Option<Place>)
    ensures r.Some? ==> r.value.call < |ops|
  {
    if ops == [] then None
    else
      var last := |ops| - 1;
      match ops[last]
      case Set(k, value) =>
        if Settable(Seen(k), Seen(value)) && Seen(k) == key then Some(Place(last, 0)) else LastSet(ops[..last], key)
      case Remove(k) => if Seen(k) == key then None else LastSet(ops[..last], key)
      case Unflatten(text) =>
        var m := Parse(Seen(text));
        if KeyIndex(m, key) < |m| then Some(Place(last, KeyIndex(m, key))) else None
  }

  /** No text that is unflattened has a key twice. */
  predicate DistinctTexts(ops: seq<Op>) {
    forall i :: 0 <= i < |ops| && ops[i].Unflatten? ==> DistinctKeys(Parse(Seen(ops[i].text)))
  }

  predicate DistinctKeys(m: Store) {
    forall i, j :: 0 <= i < j < |m| ==> m[i].key != m[j].key
  }

  lemma {:induction false} DeletedKey(m: Store, key: string)
    requires DistinctKeys(m)
    ensures DistinctKeys(Delete(m, key)) && KeyIndex(Delete(m, key), key) == |Delete(m, key)|
    ensures forall e :: e in Delete(m, key) ==> e in m
  {
    if m != [] {
      DeletedKey(m[1..], key);
      if m[0].key == key {
        Absent(m[1..], key);
      } else {
        forall i | 0 <= i < |Delete(m[1..], key)| ensures Delete(m[1..], key)[i].key != m[0].key {
          assert Delete(m[1..], key)[i] in m[1..];
        }
      }
    }
  }

  lemma {:induction false} Absent(m: Store, key: string)
    requires forall i :: 0 <= i < |m| ==> m[i].key != key
    ensures KeyIndex(m, key) == |m|
  {
    if m != [] {
      Absent(m[1..], key);
    }
  }

  /** Deleting one key leaves the others in place relative to each other. */
  lemma {:induction false} DeleteKeepsOrder(m: Store, key: string, x: string, y: string)
    requires x != key && y != key
    ensures var d := Delete(m, key);
            && (KeyIndex(d, x) == |d| <==> KeyIndex(m, x) == |m|)
            && (KeyIndex(d, x) < |d| && KeyIndex(d, y) < |d| ==>
                  (KeyIndex(d, x) < KeyIndex(d, y) <==> KeyIndex(m, x) < KeyIndex(m, y)))
  {
    if m != [] {
      DeleteKeepsOrder(m[1..], key, x, y);
      DeletePresence(m[1..], key, y);
    }
  }

  lemma {:induction false} DeletePresence(m: Store, key: string, x: string)
    requires x != key
    ensures KeyIndex(Delete(m, key), x) == |Delete(m, key)| <==> KeyIndex(m, x) == |m|
  {
    if m != [] {
      DeletePresence(m[1..], key, x);
    }
  }

  lemma {:induction false} IndexOfAppended(m: Store, e: Entry, x: string)
    ensures KeyIndex(m + [e], x)
         == if KeyIndex(m, x) < |m| then KeyIndex(m, x) else if x == e.key then |m| else |m| + 1
  {
    if m == [] {
      assert m + [e] == [e];
    } else {
      assert (m + [e])[1..] == m[1..] + [e];
      IndexOfAppended(m[1..], e, x);
    }
  }

  lemma {:induction false} Run2Distinct(ops: seq<Op>)
    requires DistinctTexts(ops)
    ensures DistinctKeys(Run2(ops))
  {
    if ops != [] {
      var front, op := ops[..|ops| - 1], ops[|ops| - 1];
      assert forall i :: 0 <= i < |front| ==> front[i] == ops[i];
      Run2Distinct(front);
      if !op.Unflatten? {
        DeletedKey(Run2(front), Seen(op.key));
      }
    }
  }

  /** The order of two keys in the map is the order in which they were set. */
  ghost predicate OrderOk(m: Store, ops: seq<Op>, x: string, y: string) {
    && (KeyIndex(m, x) < |m| <==> LastSet(ops, x).Some?)
    && (KeyIndex(m, y) < |m| <==> LastSet(ops, y).Some?)
    && (LastSet(ops, x).Some? && LastSet(ops, y).Some? ==>
          (KeyIndex(m, x) < KeyIndex(m, y) <==> Earlier(LastSet(ops, x).value, LastSet(ops, y).value)))
  }

  lemma RemoveKeepsOrder(m: Store, ops: seq<Op>, op: Op, x: string, y: string)
    requires OrderOk(m, ops, x, y) && op.Remove? && DistinctKeys(m)
    ensures OrderOk(Do2(m, op), ops + [op], x, y)
  {
    assert (ops + [op])[..|ops|] == ops;
    var key := Seen(op.key);
    DeletedKey(m, key);
    if x != key {
      DeletePresence(m, key, x);
    }
    if y != key {
      DeletePresence(m, key, y);
    }
    if x != key && y != key {
      DeleteKeepsOrder(m, key, x, y);
    }
  }

  /** A key that is set comes last; the others keep their places relative to each other. */
  lemma SetSelf(m: Store, e: Entry)
    requires DistinctKeys(m)
    ensures KeyIndex(Delete(m, e.key) + [e], e.key) == |Delete(m, e.key)|
  {
    DeletedKey(m, e.key);
    IndexOfAppended(Delete(m, e.key), e, e.key);
  }

  lemma SetOther(m: Store, e: Entry, x: string)
    requires x != e.key
    ensures var d := Delete(m, e.key);
            && (KeyIndex(d + [e], x) < |d + [e]| <==> KeyIndex(m, x) < |m|)
            && (KeyIndex(m, x) < |m| ==> KeyIndex(d + [e], x) == KeyIndex(d, x) < |d|)
  {
    DeletePresence(m, e.key, x);
    IndexOfAppended(Delete(m, e.key), e, x);
  }

  lemma SetOrder(m: Store, e: Entry, x: string, y: string)
    requires DistinctKeys(m) && KeyIndex(m, x) < |m| && KeyIndex(m, y) < |m| && x != e.key && y != e.key
    ensures var r := Delete(m, e.key) + [e];
            KeyIndex(r, x) < KeyIndex(r, y) <==> KeyIndex(m, x) < KeyIndex(m, y)
  {
    SetOther(m, e, x);
    SetOther(m, e, y);
    DeleteKeepsOrder(m, e.key, x, y);
  }

  lemma LastSetAfterSet(ops: seq<Op>, op: Op, x: string)
    requires op.Set?
    ensures LastSet(ops + [op], x)
         == if Settable(Seen(op.key), Seen(op.value)) && Seen(op.key) == x then Some(Place(|ops|, 0))
            else LastSet(ops, x)
  {
    assert (ops + [op])[..|ops|] == ops;
  }

  lemma SetKeepsOrder(m: Store, ops: seq<Op>, op: Op, x: string, y: string)
    requires OrderOk(m, ops, x, y) && op.Set? && DistinctKeys(m)
    ensures OrderOk(Do2(m, op), ops + [op], x, y)
  {
    LastSetAfterSet(ops, op, x);
    LastSetAfterSet(ops, op, y);
    if Settable(Seen(op.key), Seen(op.value)) {
      var e := Entry(Seen(op.key), Seen(op.value));
      SetSelf(m, e);
      if x != e.key {
        SetOther(m, e, x);
      }
      if y != e.key {
        SetOther(m, e, y);
      }
      if x != e.key && y != e.key && KeyIndex(m, x) < |m| && KeyIndex(m, y) < |m| {
        SetOrder(m, e, x, y);
      }
    }
  }

  lemma UnflattenSetsOrder(m: Store, ops: seq<Op>, op: Op, x: string, y: string)
    requires op.Unflatten?
    ensures OrderOk(Do2(m, op), ops + [op], x, y)
  {
  }

  lemma {:induction false} OrderKept(ops: seq<Op>, x: string, y: string)
    requires DistinctTexts(ops)
    ensures OrderOk(Run2(ops), ops, x, y)
  {
    if ops != [] {
      var front, op := ops[..|ops| - 1], ops[|ops| - 1];
      assert forall i :: 0 <= i < |front| ==> front[i] == ops[i];
      OrderKept(front, x, y);
      Run2Distinct(front);
      assert front + [op] == ops;
      match op
      case Set(_, _) => SetKeepsOrder(Run2(front), front, op, x, y);
      case Remove(_) => RemoveKeepsOrder(Run2(front), front, op, x, y);
      case Unflatten(_) => UnflattenSetsOrder(Run2(front), front, op, x, y);
    }
  }

  /** For every run whose texts have no key twice, compareSetOrder answers exactly when both keys
      are set, and says which of them was set later. */
  lemma ComparesSetOrder(ops: seq<Op>, key1: string, key2: string)
    requires DistinctTexts(ops)
    ensures var r, i, j := CompareSetOrder(Run2(ops), key1, key2), LastSet(ops, key1), LastSet(ops, key2);
            && (r.Some? <==> i.Some? && j.Some?)
            && (r.Some? ==> r.value == if i == j then 0 else if Earlier(i.value, j.value) then -1 else 1)
  {
    OrderKept(ops, key1, key2);
    OrderKept(ops, key2, key1);
    SameKeySameSet(ops, key1, key2);
  }

  lemma {:induction false} SameKeySameSet(ops: seq<Op>, x: string, y: string)
    ensures LastSet(ops, x).Some? && LastSet(ops, x) == LastSet(ops, y) ==> x == y
  {
    if ops != [] {
      SameKeySameSet(ops[..|ops| - 1], x, y);
    }
  }

  /** How often a key is in the list. */
  function Occurrences(m: Store, key: string): nat {
    if m == [] then 0 else (if m[0].key == key then 1 else 0) + Occurrences(m[1..], key)
  }

  lemma {:induction false} OccursExactly(m: Store, key: string)
    ensures Occurrences(m, key) > 0 <==> KeyIndex(m, key) < |m|
  {
    if m != [] {
      OccursExactly(m[1..], key);
    }
  }

  lemma {:induction false} DeleteOccurrence(m: Store, key: string)
    ensures Occurrences(Delete(m, key), key) == if Occurrences(m, key) == 0 then 0 else Occurrences(m, key) - 1
  {
    if m != [] {
      DeleteOccurrence(m[1..], key);
    }
  }

  /** A text may have a key twice.  Then setting the key takes away one entry only: the key is the
      latest afterwards exactly if it was there at most once. */
  lemma SetIsLatestExactly(m: Store, key: string, value: string)
    requires Settable(Seen(key), Seen(value))
    ensures var r := Do2(m, Set(key, value));
            KeyIndex(r, Seen(key)) == |r| - 1 <==> Occurrences(m, Seen(key)) <= 1
  {
    var k := Seen(key);
    var d := Delete(m, k);
    DeleteOccurrence(m, k);
    OccursExactly(d, k);
    IndexOfAppended(d, Entry(k, Seen(value)), k);
  }

  /** The same goes for removing: the key is gone exactly if it was there at most once. */
  lemma RemoveIsGoneExactly(m: Store, key: string)
    ensures var r := Do2(m, Remove(key));
            KeyIndex(r, Seen(key)) == |r| <==> Occurrences(m, Seen(key)) <= 1
  {
    DeleteOccurrence(m, Seen(key));
    OccursExactly(Delete(m, Seen(key)), Seen(key));
  }

  lemma AfterUnflatten(m: Store, op: Op)
    requires StoreOk(m)
    ensures Run2([Unflatten(Flatten(m)), op]) == Do2(m, op)
  {
    FlattenHasNoZero(m);
    SeenAll(Flatten(m));
    ParseFlatten(m);
    var ops := [Unflatten(Flatten(m)), op];
    var front := ops[..1];
    assert front == [ops[0]] && front[..0] == [];
    assert Run2(front) == Do2(Run2([]), ops[0]) == m;
  }

  /** A key that was unflattened twice and set last of all is reported as set first. */
  lemma SetOrderExample(x: string, y: string, v: string)
    requires Settable(x, v) && Settable(y, v) && x != y
    requires Lacks(x, 0 as char) && Lacks(y, 0 as char) && Lacks(v, 0 as char)
    ensures var text := Flatten([Entry(x, v), Entry(x, v), Entry(y, v)]);
            CompareSetOrder(Run2([Unflatten(text), Set(x, v)]), x, y) == Some(-1)
  {
    var m := [Entry(x, v), Entry(x, v), Entry(y, v)];
    AfterUnflatten(m, Set(x, v));
    SeenAll(x);
    SeenAll(v);
    assert Delete(m, x) == m[1..];
    FirstTwo(m[1..] + [Entry(x, v)], x, y);
  }

  lemma FirstTwo(m: Store, x: string, y: string)
    requires |m| >= 2 && m[0].key == x && m[1].key == y && x != y
    ensures CompareSetOrder(m, x, y) == Some(-1)
  {
    assert m[1..][0].key == y;
  }

  // ----- The code -----

  /** The object: `ordered` tells CameraParameters2 from CameraParameters. */
  class Parameters {
    var entries: Store
    const ordered: bool

    constructor (ordered: bool)
      ensures entries == [] && this.ordered == ordered
    {
      entries := [];
      this.ordered := ordered;
    }

    method FlattenAll() returns (text: string)
      ensures text == Flatten(entries)
    {
      text := "";
      var i := 0;
      while i < |entries|
        invariant 0 <= i <= |entries|
        invariant Flatten(entries) == text + Flatten(entries[i..])
      {
        assert entries[i..][0] == entries[i] && entries[i..][1..] == entries[i + 1..];
        text := text + (entries[i].key + "=" + entries[i].value);
        if i != |entries| - 1 {
          text := text + ";";
        }
        i := i + 1;
      }
    }

    /** The add of the map: in place of an equal key, or at the end. */
    method Add(e: Entry)
      modifies this`entries
      ensures entries == if ordered then old(entries) + [e] else Put(old(entries), e)
    {
      if ordered {
        entries := entries + [e];
      } else {
        entries := Put(entries, e);
      }
    }

    ghost function Added(m: Store, es: Store): Store {
      if ordered then m + es else PutAll(m, es)
    }

    lemma AddedFirst(m: Store, e: Entry, rest: Store)
      ensures Added(m, [e] + rest) == Added(if ordered then m + [e] else Put(m, e), rest)
    {
      assert ([e] + rest)[1..] == rest;
      assert m + ([e] + rest) == (m + [e]) + rest;
    }

    lemma AddedNothing(m: Store)
      ensures Added(m, []) == m
    {
      assert m + [] == m;
    }

    lemma AddedToNothing(m: Store, text: string)
      ensures Added([], Parse(Seen(text)))
           == if ordered then Do2(m, Unflatten(text)) else Do(m, Unflatten(text))
    {
      assert [] + Parse(Seen(text)) == Parse(Seen(text));
    }

    method UnflattenFrom(params: string)
      modifies this`entries
      ensures entries == if ordered then Do2(old(entries), Unflatten(params)) else Do(old(entries), Unflatten(params))
    {
      AddedToNothing(entries, params);
      AddParsed(Seen(params));
    }

    /** The loop of unflatten, on the C string it sees. */
    method AddParsed(text: string)
      modifies this`entries
      ensures entries == Added([], Parse(text))
    {
      var a := text;
      entries := [];
      while Index(a, '=') < |a|
        invariant Added(entries, Parse(a)) == Added([], Parse(text))
        decreases |a|
      {
        var e := FirstEntry(a);
        var value := Values(a);
        var b := Index(value, ';');
        if b == |value| {
          AddedFirst(entries, e, []);
          assert [e] + [] == [e];
          Add(e);
          AddedNothing(entries);
          return;
        }
        AddedFirst(entries, e, Parse(value[b + 1..]));
        Add(e);
        a := value[b + 1..];
      }
      AddedNothing(entries);
    }

    method RemoveValue(key: string)
      modifies this`entries
      ensures entries == if ordered then Do2(old(entries), Remove(key)) else Do(old(entries), Remove(key))
    {
      entries := Delete(entries, Seen(key));
    }

    method SetValue(key: string, value: string)
      modifies this`entries
      ensures entries == if ordered then Do2(old(entries), Set(key, value)) else Do(old(entries), Set(key, value))
    {
      var k, v := Seen(key), Seen(value);
      if Index(k, '=') < |k| || Index(k, ';') < |k| {
        return;
      }
      if Index(v, '=') < |v| || Index(v, ';') < |v| {
        return;
      }
      if ordered {
        entries := Delete(entries, k);
      }
      Add(Entry(k, v));
    }
  }
}
