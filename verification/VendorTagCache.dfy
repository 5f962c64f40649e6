/**
 The cache of vendor tag descriptors (camera/VendorTagDescriptor.cpp), whose map is walked in no
 particular order.
 */
module VendorTagCache {
  import opened VendorTags
  import opened VendorTagWire

  type Cache = map<nat, Descriptor>

  predicate ReadsBack(d: Descriptor, rest: seq<Token>)
    requires Writable(d)
  {
    var r := Read(Write(d) + rest);
    r.status == OK && r.rest == rest && r.desc == d
  }

  predicate Writable(d: Descriptor) {
    Covers(d, d.tags) && d.tagCount >= 0
  }

  /** A descriptor that survives a parcel, whatever follows it there. */
  ghost predicate Survives(d: Descriptor) {
    Writable(d) && forall rest :: ReadsBack(d, rest)
  }

  /** Such as every descriptor built from well-formed ops. */
  lemma BuiltSurvives(ops: Ops)
    requires OpsOk(ops, ops.tags) && |ops.tags| < BOUNDARY
    requires DistinctTags(ops.tags) && NonEmptyNames(ops) && DistinctLabels(ops, ops.tags)
    ensures Survives(Build(ops))
  {
    RoundTrip(ops, []);
    forall rest ensures ReadsBack(Build(ops), rest) {
      RoundTrip(ops, rest);
    }
  }

  predicate CacheOk(c: Cache, order: seq<nat>) {
    forall i :: 0 <= i < |order| ==> order[i] in c && Writable(c[order[i]])
  }

  /** writeToParcel of the cache, which walks its map in some order. */
  function WriteEntries(c: Cache, order: seq<nat>): seq<Token>
    requires CacheOk(c, order)
  {
    if order == [] then []
    else [L(order[0])] + Write(c[order[0]]) + WriteEntries(c, order[1..])
  }

  function WriteCache(c: Cache, order: seq<nat>): seq<Token>
    requires CacheOk(c, order)
  {
    [I(|order|)] + WriteEntries(c, order)
  }

  datatype CacheReader = CacheReader(status: Status, rest: seq<Token>, cache: Cache)

  /** One iteration of readFromParcel of the cache; an id that is there already is refused. */
  function ReadEntry(r: CacheReader): CacheReader {
    if r.rest == [] || !r.rest[0].L? then r.(status := NotEnoughData)
    else
      var id := r.rest[0].id;
      var d := Read(r.rest[1..]);
      if d.status != OK then r.(status := d.status, rest := d.rest)
      else if id in r.cache then r.(status := BadValue, rest := d.rest)
      else CacheReader(OK, d.rest, r.cache[id := d.desc])
  }

  function ReadEntries(r: CacheReader, n: nat): CacheReader
    decreases n
  {
    if n == 0 || r.status != OK then r else ReadEntries(ReadEntry(r), n - 1)
  }

  function ReadCache(p: seq<Token>): CacheReader {
    var r0 := CacheReader(OK, p, map[]);
    if p == [] || !p[0].I? then r0.(status := NotEnoughData)
    else if p[0].value >= BOUNDARY then r0.(status := BadValue)
    else ReadEntries(r0.(rest := p[1..]), p[0].value)
  }

  predicate DistinctIds(ids: seq<nat>) {
    forall i, j :: 0 <= i < j < |ids| ==> ids[i] != ids[j]
  }

  function Pick(c: Cache, order: seq<nat>): Cache {
    map id | id in order && id in c :: c[id]
  }

  lemma PickFirst(c: Cache, done: Cache, order: seq<nat>)
    requires order != [] && order[0] in c && order[0] !in order[1..]
    ensures done[order[0] := c[order[0]]] + Pick(c, order[1..]) == done + Pick(c, order)
  {
    assert forall id :: id in order <==> id == order[0] || id in order[1..];
  }

  lemma ReadEntryBack(id: nat, d: Descriptor, q: seq<Token>, done: Cache, n: nat)
    requires Survives(d) && id !in done && n > 0
    ensures ReadEntries(CacheReader(OK, [L(id)] + Write(d) + q, done), n)
         == ReadEntries(CacheReader(OK, q, done[id := d]), n - 1)
  {
    var p := [L(id)] + Write(d) + q;
    assert p[1..] == Write(d) + q;
    assert ReadsBack(d, q);
  }

  ghost predicate AllSurvive(c: Cache, order: seq<nat>) {
    forall i :: 0 <= i < |order| ==> order[i] in c && Survives(c[order[i]])
  }

  predicate NoneIn(order: seq<nat>, done: Cache) {
    forall i :: 0 <= i < |order| ==> order[i] !in done
  }

  lemma TailOk(c: Cache, done: Cache, order: seq<nat>)
    requires order != [] && DistinctIds(order) && AllSurvive(c, order) && NoneIn(order, done)
    ensures DistinctIds(order[1..]) && AllSurvive(c, order[1..]) && CacheOk(c, order[1..])
    ensures NoneIn(order[1..], done[order[0] := c[order[0]]])
    ensures order[0] !in order[1..]
  {
    var rest := order[1..];
    forall i | 0 <= i < |rest|
      ensures rest[i] in c && Survives(c[rest[i]]) && rest[i] !in done && rest[i] != order[0]
    {
      assert rest[i] == order[i + 1];
    }
  }

  lemma FirstEntryBack(c: Cache, done: Cache, order: seq<nat>, rest: seq<Token>)
    requires CacheOk(c, order) && order != [] && order[0] !in done && Survives(c[order[0]])
    requires CacheOk(c, order[1..])
    ensures ReadEntries(CacheReader(OK, WriteEntries(c, order) + rest, done), |order|)
         == ReadEntries(CacheReader(OK, WriteEntries(c, order[1..]) + rest, done[order[0] := c[order[0]]]),
                        |order[1..]|)
  {
    var id, d, q := order[0], c[order[0]], WriteEntries(c, order[1..]);
    assert ([L(id)] + Write(d) + q) + rest == [L(id)] + Write(d) + (q + rest);
    ReadEntryBack(id, d, q + rest, done, |order|);
  }

  lemma {:induction false} ReadEntriesBack(c: Cache, done: Cache, order: seq<nat>, rest: seq<Token>)
    requires CacheOk(c, order) && DistinctIds(order) && AllSurvive(c, order) && NoneIn(order, done)
    ensures ReadEntries(CacheReader(OK, WriteEntries(c, order) + rest, done), |order|)
         == CacheReader(OK, rest, done + Pick(c, order))
    decreases |order|
  {
    if order == [] {
      assert WriteEntries(c, order) + rest == rest;
    } else {
      TailOk(c, done, order);
      FirstEntryBack(c, done, order, rest);
      ReadEntriesBack(c, done[order[0] := c[order[0]]], order[1..], rest);
      PickFirst(c, done, order);
    }
  }

  /** A cache of descriptors that survive a parcel survives one too, whatever order its map is
      walked in. */
  lemma CacheRoundTrip(c: Cache, order: seq<nat>)
    requires CacheOk(c, order) && DistinctIds(order) && |order| < BOUNDARY
    requires AllSurvive(c, order)
    requires forall id :: id in c ==> id in order
    ensures ReadCache(WriteCache(c, order)) == CacheReader(OK, [], c)
  {
    var q := WriteEntries(c, order);
    ReadCacheUnfold(|order|, q);
    assert q + [] == q;
    ReadEntriesBack(c, map[], order, []);
    PickAll(c, order);
  }

  /** A reading that succeeds goes on behind an id that is new. */
  /** A reading that succeeds goes on behind an id that is new. */
  lemma NewId(r: CacheReader)
    requires ReadEntry(r).status == OK
    ensures |ReadEntry(r).cache| == |r.cache| + 1
  {
  }

  lemma {:induction false} ReadIds(r: CacheReader, n: nat)
    requires r.status == OK && ReadEntries(r, n).status == OK
    ensures |ReadEntries(r, n).cache| == |r.cache| + n
    decreases n
  {
    if n > 0 {
      ReadIds(ReadEntry(r), n - 1);
      NewId(r);
    }
  }

  /** Whatever the parcel: a cache that is read has as many entries as were announced, so an id that
      comes twice is refused. */
  lemma ReadsAllIds(p: seq<Token>)
    requires ReadCache(p).status == OK
    ensures p != [] && p[0].I? && p[0].value < BOUNDARY && |ReadCache(p).cache| == p[0].value
  {
    ReadIds(CacheReader(OK, p[1..], map[]), p[0].value);
  }

  /** An entry that cannot be read ends the reading with its own status. */
  lemma BadEntryEnds(id: nat, q: seq<Token>, n: nat)
    requires n > 0 && Read(q).status != OK
    ensures ReadEntries(CacheReader(OK, [L(id)] + q, map[]), n).status == Read(q).status
  {
    var r := CacheReader(OK, [L(id)] + q, map[]);
    assert r.rest[1..] == q;
    assert ReadEntries(ReadEntry(r), n - 1) == ReadEntry(r);
  }

  lemma PickAll(c: Cache, order: seq<nat>)
    requires forall id :: id in c ==> id in order
    ensures map[] + Pick(c, order) == c
  {
  }

  lemma ReadCacheUnfold(n: nat, q: seq<Token>)
    requires n < BOUNDARY
    ensures ReadCache([I(n)] + q) == ReadEntries(CacheReader(OK, q, map[]), n)
  {
    assert ([I(n)] + q)[1..] == q;
  }
}
