/**
 CameraMetadata::getTagFromName (camera/CameraMetadata.cpp): a full tag name is taken apart
 into a section, one separating character and the name of a tag in that section.
 */
module TagNames {
  import opened Wrappers
  import opened VendorTags

  datatype Status = Found(tag: Tag) | NameNotFound | BadName

  /** The tables of built-in tags: section names, the range of tags of each section, and the
      tag names. */
  datatype Platform = Platform(sections: seq<string>, first: seq<Tag>, limit: seq<Tag>, tagName: Tag -> string)

  predicate PlatformOk(b: Platform) {
    && |b.sections| == |b.first| == |b.limit|
    && forall k :: 0 <= k < |b.first| ==> b.first[k] <= b.limit[k]
  }

  predicate StartsWith(name: string, section: string) {
    |section| <= |name| && name[..|section|] == section
  }

  /** Built-in sections come first, then those of the vendor. */
  function Sections(b: Platform, v: Option<Descriptor>): seq<string> {
    b.sections + if v.Some? then v.value.sections else []
  }

  /** The longest section that starts the name, the first one of them. */
  predicate IsBest(ss: seq<string>, name: string, k: nat) {
    && k < |ss| && StartsWith(name, ss[k])
    && forall j :: 0 <= j < |ss| && StartsWith(name, ss[j]) ==>
         |ss[j]| <= |ss[k]| && (j < k ==> |ss[j]| < |ss[k]|)
  }

  lemma BestIsUnique(ss: seq<string>, name: string, j: nat, k: nat)
    requires IsBest(ss, name, j) && IsBest(ss, name, k)
    ensures j == k
  {
  }

  function Best(ss: seq<string>, name: string): (r: Option<nat>)
    ensures r.Some? ==> r.value < |ss|
  {
    if ss == [] then None
    else
      var last := |ss| - 1;
      var b := Best(ss[..last], name);
      if StartsWith(name, ss[last]) && (b.None? || |ss[b.value]| < |ss[last]|) then Some(last) else b
  }

  lemma {:induction false} BestIsBest(ss: seq<string>, name: string)
    ensures Best(ss, name).Some? ==> IsBest(ss, name, Best(ss, name).value)
    ensures Best(ss, name).None? ==> forall j :: 0 <= j < |ss| ==> !StartsWith(name, ss[j])
  {
    if ss != [] {
      var last := |ss| - 1;
      BestIsBest(ss[..last], name);
      assert forall j :: 0 <= j < last ==> ss[..last][j] == ss[j];
    }
  }

  /** The first tag of a range with a name. */
  function FirstNamed(b: Platform, name: string, from: Tag, limit: Tag): (r: Option<Tag>)
    ensures r.Some? ==> from <= r.value < limit && b.tagName(r.value) == name
    ensures r.Some? ==> forall t :: from <= t < r.value ==> b.tagName(t) != name
    ensures r.None? ==> forall t :: from <= t < limit ==> b.tagName(t) != name
    decreases limit - from
  {
    if from >= limit then None
    else if b.tagName(from) == name then Some(from)
    else FirstNamed(b, name, from + 1, limit)
  }

  function InSection(b: Platform, v: Option<Descriptor>, k: nat, name: string): Option<Tag>
    requires PlatformOk(b) && k < |Sections(b, v)|
  {
    if k < |b.sections| then FirstNamed(b, name, b.first[k], b.limit[k])
    else Lookup(v.value.reverse, Sections(b, v)[k], name)
  }

  function Resolve(b: Platform, v: Option<Descriptor>, name: string): (r: Status)
    requires PlatformOk(b)
  {
    var ss := Sections(b, v);
    var k := Best(ss, name);
    if k.None? then NameNotFound
    else
      var n := |ss[k.value]|;
      if n + 1 >= |name| then BadName
      else
        var t := InSection(b, v, k.value, name[n + 1..]);
        if t.None? then NameNotFound else Found(t.value)
  }

  // ----- Main results -----

  /** The name is `section`, one character, `rest`. */
  predicate Decomposes(name: string, section: string, rest: string) {
    |name| == |section| + 1 + |rest| && StartsWith(name, section) && name[|section| + 1..] == rest
  }

  /** The table of vendor tags, if the vendor has ops. */
  function Vendor(ops: Option<Ops>): Option<Descriptor> {
    if ops.None? then None else Some(Build(ops.value))
  }

  /** Tag `t` belongs to section `k`, and `rest` is its own name. */
  predicate IsTag(b: Platform, ops: Option<Ops>, k: nat, rest: string, t: Tag)
    requires PlatformOk(b) && k < |Sections(b, Vendor(ops))|
  {
    if k < |b.sections| then b.first[k] <= t < b.limit[k] && b.tagName(t) == rest
    else
      t in ops.value.tags && SectionOf(ops.value, t) == Sections(b, Vendor(ops))[k]
      && NameOf(ops.value, t) == rest
  }

  /** An answer means that the name is the best section, one character and the tag's own name,
      which is not empty; the tag is in that section. */
  lemma FoundDecomposes(b: Platform, ops: Option<Ops>, name: string)
    requires PlatformOk(b) && Resolve(b, Vendor(ops), name).Found?
    ensures var ss, t := Sections(b, Vendor(ops)), Resolve(b, Vendor(ops), name).tag;
            exists k: nat, rest ::
              IsBest(ss, name, k) && Decomposes(name, ss[k], rest) && rest != [] && IsTag(b, ops, k, rest, t)
  {
    var ss, t := Sections(b, Vendor(ops)), Resolve(b, Vendor(ops), name).tag;
    BestIsBest(ss, name);
    var k := Best(ss, name).value;
    var rest := name[|ss[k]| + 1..];
    assert Decomposes(name, ss[k], rest) && IsBest(ss, name, k);
    assert IsTag(b, ops, k, rest, t) by {
      if k >= |b.sections| {
        LookupSound(ops.value, ss[k], rest);
        BuiltGetters(ops.value, t);
      }
    }
  }

  /** A name that is a best section, one character and a rest has no answer exactly if no tag of
      that section is called like the rest. */
  lemma MissedExactly(b: Platform, ops: Option<Ops>, name: string, k: nat, rest: string)
    requires PlatformOk(b) && IsBest(Sections(b, Vendor(ops)), name, k)
    requires Decomposes(name, Sections(b, Vendor(ops))[k], rest) && rest != []
    ensures Resolve(b, Vendor(ops), name) == NameNotFound <==> forall t :: !IsTag(b, ops, k, rest, t)
  {
    var ss := Sections(b, Vendor(ops));
    BestIsBest(ss, name);
    assert StartsWith(name, ss[k]);
    BestIsUnique(ss, name, k, Best(ss, name).value);
    if k >= |b.sections| {
      LookupSound(ops.value, ss[k], rest);
      forall t
        ensures IsTag(b, ops, k, rest, t)
           <==> GetSectionName(Build(ops.value), t) == Some(ss[k]) && GetTagName(Build(ops.value), t) == Some(rest)
      {
        BuiltGetters(ops.value, t);
      }
    }
    var found := InSection(b, Vendor(ops), k, rest);
    if found.Some? {
      assert IsTag(b, ops, k, rest, found.value);
    }
  }

  /** No section starts the name exactly if the search for one fails; a best section with nothing
      behind it is an error of its own. */
  lemma RefusedExactly(b: Platform, v: Option<Descriptor>, name: string)
    requires PlatformOk(b)
    ensures Resolve(b, v, name) == BadName
       <==> exists k: nat :: IsBest(Sections(b, v), name, k) && |Sections(b, v)[k]| + 1 >= |name|
    ensures (forall j :: 0 <= j < |Sections(b, v)| ==> !StartsWith(name, Sections(b, v)[j])) ==>
              Resolve(b, v, name) == NameNotFound
  {
    var ss := Sections(b, v);
    BestIsBest(ss, name);
    if exists k: nat :: IsBest(ss, name, k) && |ss[k]| + 1 >= |name| {
      var k: nat :| IsBest(ss, name, k) && |ss[k]| + 1 >= |name|;
      assert StartsWith(name, ss[k]);
      BestIsUnique(ss, name, k, Best(ss, name).value);
    }
  }

  function FullName(ops: Ops, t: Tag, separator: char): string {
    SectionOf(ops, t) + [separator] + NameOf(ops, t)
  }

  /** The full name of a vendor tag leads to the tag if its name is not empty, no longer section
      starts the full name, no built-in section has the same name, and labels are distinct. */
  lemma FullNameResolves(b: Platform, ops: Ops, t: Tag, separator: char)
    requires PlatformOk(b) && t in ops.tags && NameOf(ops, t) != []
    requires DistinctLabels(ops, ops.tags)
    requires SectionOf(ops, t) !in b.sections
    requires forall s :: s in Sections(b, Some(Build(ops))) && StartsWith(FullName(ops, t, separator), s) ==>
               |s| <= |SectionOf(ops, t)|
    ensures Resolve(b, Some(Build(ops)), FullName(ops, t, separator)) == Found(t)
  {
    var v, name, s := Some(Build(ops)), FullName(ops, t, separator), SectionOf(ops, t);
    BestOfFullName(b, ops, t, separator);
    assert name[|s| + 1..] == NameOf(ops, t);
    LookupInverseExactly(ops);
    assert FoundByLabel(ops, t);
  }

  lemma BestOfFullName(b: Platform, ops: Ops, t: Tag, separator: char)
    requires t in ops.tags && SectionOf(ops, t) !in b.sections
    requires forall s :: s in Sections(b, Some(Build(ops))) && StartsWith(FullName(ops, t, separator), s) ==>
               |s| <= |SectionOf(ops, t)|
    ensures var k := Best(Sections(b, Some(Build(ops))), FullName(ops, t, separator));
            k.Some? && k.value >= |b.sections| && Sections(b, Some(Build(ops)))[k.value] == SectionOf(ops, t)
  {
    var name, s, ss := FullName(ops, t, separator), SectionOf(ops, t), Sections(b, Some(Build(ops)));
    var i := SectionIndex(b, ops, t);
    assert name[..|s|] == s;
    BestIsBest(ss, name);
    assert StartsWith(name, ss[i]);
    SamePrefix(ss, name, i, Best(ss, name).value);
  }

  lemma SectionIndex(b: Platform, ops: Ops, t: Tag) returns (i: nat)
    requires t in ops.tags
    ensures |b.sections| <= i < |Sections(b, Some(Build(ops)))|
    ensures Sections(b, Some(Build(ops)))[i] == SectionOf(ops, t)
  {
    BuiltGetters(ops, t);
    i := |b.sections| + Build(ops).sectionOf[t];
  }

  lemma SamePrefix(ss: seq<string>, name: string, i: nat, k: nat)
    requires IsBest(ss, name, k) && i < |ss| && StartsWith(name, ss[i])
    requires forall s :: s in ss && StartsWith(name, s) ==> |s| <= |ss[i]|
    ensures ss[k] == ss[i]
  {
    assert ss[k] in ss;
    assert |ss[k]| == |ss[i]|;
  }

  // ----- The code -----

  /** The loop that keeps the longest section so far. */
  method FindSection(ss: seq<string>, name: string) returns (section: Option<nat>)
    ensures section == Best(ss, name)
  {
    section := None;
    var i := 0;
    while i < |ss|
      invariant 0 <= i <= |ss|
      invariant section == Best(ss[..i], name)
    {
      assert ss[..i + 1][..i] == ss[..i];
      if StartsWith(name, ss[i]) {
        if section.None? || |ss[section.value]| < |ss[i]| {
          section := Some(i);
        }
      }
      i := i + 1;
    }
    assert ss[..i] == ss;
  }

  /** The loop over the built-in tags of a section. */
  method FindBuiltIn(b: Platform, name: string, from: Tag, limit: Tag) returns (r: Option<Tag>)
    requires from <= limit
    ensures r == FirstNamed(b, name, from, limit)
  {
    var candidate := from;
    while candidate < limit
      invariant from <= candidate <= limit
      invariant FirstNamed(b, name, from, limit) == FirstNamed(b, name, candidate, limit)
    {
      if b.tagName(candidate) == name {
        return Some(candidate);
      }
      candidate := candidate + 1;
    }
    return None;
  }

  method GetTagFromName(name: string, b: Platform, v: Option<Descriptor>) returns (r: Status)
    requires PlatformOk(b)
    ensures r == Resolve(b, v, name)
  {
    var ss := Sections(b, v);
    var section := FindSection(ss, name);
    if section.None? {
      return NameNotFound;
    }
    var k := section.value;
    if |ss[k]| + 1 >= |name| {
      return BadName;
    }
    var rest := name[|ss[k]| + 1..];
    var t: Option<Tag>;
    if k < |b.sections| {
      t := FindBuiltIn(b, rest, b.first[k], b.limit[k]);
    } else {
      t := Lookup(v.value.reverse, ss[k], rest);
    }
    return if t.None? then NameNotFound else Found(t.value);
  }
}
