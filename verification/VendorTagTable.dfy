/**
 The VendorTagDescriptor object of camera/VendorTagDescriptor.cpp: loops fill its tables from
 the vendor's ops or from a parcel, in place.
 */
module VendorTagTable {
  import opened Wrappers
  import opened VendorTags
  import opened VendorTagWire

  class Table {
    var tagCount: int
    var tags: seq<Tag>
    var names: map<Tag, string>
    var kinds: map<Tag, int>
    var sectionOf: map<Tag, nat>
    var sections: seq<string>
    var reverse: map<string, map<string, Tag>>

    ghost function View(): Descriptor
      reads this
    {
      Descriptor(tagCount, tags, names, kinds, sectionOf, sections, reverse)
    }

    constructor ()
      ensures View() == NONE
    {
      tagCount, tags, names, kinds, sectionOf := 0, [], map[], map[], map[];
      sections, reverse := [], map[];
    }

    /** createDescriptorFromOps on a new object. */
    method FillFromOps(ops: Ops) returns (status: Status)
      requires View() == NONE
      modifies this
      ensures status == if OpsOk(ops, ops.tags) then OK else BadValue
      ensures status == OK ==> View() == Build(ops)
    {
      tagCount := |ops.tags|;
      status := ReadOps(ops);
      if status != OK {
        return;
      }
      IndexOps(ops);
    }

    /** The second loop of createDescriptorFromOps. */
    method IndexOps(ops: Ops)
      requires sectionOf == map[] && reverse == map[]
      modifies this`sectionOf, this`reverse
      ensures sectionOf == SectionMap(ops, ops.tags, sections)
      ensures reverse == Reverse(ops, ops.tags)
    {
      var i := 0;
      while i < |ops.tags|
        invariant 0 <= i <= |ops.tags|
        invariant sectionOf == SectionMap(ops, ops.tags[..i], sections)
        invariant reverse == Reverse(ops, ops.tags[..i])
      {
        var t := ops.tags[i];
        TablesNext(ops, ops.tags, i, sections);
        sectionOf := sectionOf[t := IndexOf(sections, SectionOf(ops, t))];
        reverse := AddReverse(reverse, SectionOf(ops, t), NameOf(ops, t), t);
        i := i + 1;
      }
      assert ops.tags[..i] == ops.tags;
    }

    /** The first loop of createDescriptorFromOps. */
    method ReadOps(ops: Ops) returns (status: Status)
      requires tags == [] && names == map[] && kinds == map[] && sections == []
      modifies this`tags, this`names, this`kinds, this`sections
      ensures status == if OpsOk(ops, ops.tags) then OK else BadValue
      ensures status == OK ==>
                && tags == AllTags(ops.tags)
                && names == NameMap(ops, ops.tags)
                && kinds == KindMap(ops, ops.tags)
                && sections == AllSections(ops, ops.tags)
    {
      var i := 0;
      while i < |ops.tags|
        invariant 0 <= i <= |ops.tags|
        invariant OpsOk(ops, ops.tags[..i])
        invariant tags == AllTags(ops.tags[..i])
        invariant names == NameMap(ops, ops.tags[..i])
        invariant kinds == KindMap(ops, ops.tags[..i])
        invariant sections == AllSections(ops, ops.tags[..i])
      {
        var t := ops.tags[i];
        TablesNext(ops, ops.tags, i, sections);
        if t < BOUNDARY || ops.name(t).None? || ops.section(t).None?
           || ops.kind(t) < 0 || ops.kind(t) >= NUM_TYPES {
          assert !TagOk(ops, ops.tags[i]);
          return BadValue;
        }
        OpsOkNext(ops, ops.tags, i);
        tags := AddTag(tags, t);
        names := names[t := NameOf(ops, t)];
        sections := AddSection(sections, SectionOf(ops, t));
        kinds := kinds[t := ops.kind(t)];
        i := i + 1;
      }
      assert ops.tags[..i] == ops.tags;
      return OK;
    }

    method WriteToParcel() returns (p: seq<Token>)
      requires Covers(View(), tags) && tagCount >= 0
      ensures p == Write(View())
    {
      var ts := TokensOfTags();
      p := [I(tagCount)] + ts;
      if |sections| > 0 {
        var ss := TokensOfSections();
        p := p + ([I(|sections|)] + ss);
      } else {
        assert p + [] == p;
      }
    }

    method TokensOfTags() returns (p: seq<Token>)
      requires Covers(View(), tags)
      ensures p == WriteTags(View(), tags)
    {
      p := [];
      var i := 0;
      while i < |tags|
        invariant 0 <= i <= |tags|
        invariant WriteTags(View(), tags) == p + WriteTags(View(), tags[i..])
      {
        assert tags[i..][1..] == tags[i + 1..];
        p := p + [I(tags[i]), I(kinds[tags[i]]), S(names[tags[i]]), I(sectionOf[tags[i]])];
        i := i + 1;
      }
    }

    method TokensOfSections() returns (p: seq<Token>)
      ensures p == WriteSections(sections)
    {
      p := [];
      var i := 0;
      while i < |sections|
        invariant 0 <= i <= |sections|
        invariant WriteSections(sections) == p + WriteSections(sections[i..])
      {
        assert sections[i..][1..] == sections[i + 1..];
        p := p + [S(sections[i])];
        i := i + 1;
      }
    }

    method LookupTag(name: string, section: string) returns (tag: Option<Tag>)
      ensures tag == Lookup(reverse, section, name)
    {
      if section !in reverse {
        return None;
      }
      if name !in reverse[section] {
        return None;
      }
      return Some(reverse[section][name]);
    }
  }

  /** The loop over the tags of readFromParcel. */
  method ReadTagLoop(start: Reader, n: nat) returns (r: Reader)
    requires start.status == OK
    ensures r == ReadTags(start, n)
  {
    r := start;
    var i := 0;
    while i < n && r.status == OK
      invariant 0 <= i <= n
      invariant ReadTags(r, n - i) == ReadTags(start, n)
    {
      var p, d := r.rest, r.desc;
      if |p| < 1 || !p[0].I? {
        return r.(status := NotEnoughData);
      }
      if p[0].value < BOUNDARY {
        return r.(status := BadValue);
      }
      if |p| < 2 || !p[1].I? {
        return r.(status := NotEnoughData);
      }
      if p[1].value >= NUM_TYPES {
        return r.(status := BadValue);
      }
      if |p| < 3 || !p[2].S? || p[2].text == [] || |p| < 4 || !p[3].I? {
        return r.(status := NotEnoughData);
      }
      r := Reader(OK, p[4..],
                  d.(tags := AddTag(d.tags, p[0].value), names := d.names[p[0].value := p[2].text],
                     kinds := d.kinds[p[0].value := p[1].value],
                     sectionOf := d.sectionOf[p[0].value := p[3].value]),
                  if r.most >= p[3].value then r.most else p[3].value);
      i := i + 1;
    }
  }

  /** readFromParcel into a new object: what the tables hold afterwards, and where reading
      stopped. */
  method ReadFromParcel(p: seq<Token>) returns (r: Reader)
    ensures r == Read(p)
  {
    r := Reader(OK, p, NONE, 0);
    if p == [] || !p[0].I? {
      return r.(status := NotEnoughData);
    }
    if p[0].value >= BOUNDARY {
      return r.(status := BadValue);
    }
    var n := p[0].value;
    r := ReadTagLoop(Reader(OK, p[1..], NONE.(tagCount := n), 0), n);
    if r.status != OK || n == 0 {
      return;
    }
    if r.rest == [] || !r.rest[0].I? {
      return r.(status := NotEnoughData);
    }
    if r.rest[0].value < Needed(r.most) {
      return r.(status := BadValue);
    }
    if r.rest[0].value == 0 {
      return r.(status := Fatal);
    }
    r := ReadSectionLoop(r.(rest := r.rest[1..]), r.rest[0].value);
    if r.status != OK {
      return;
    }
    var rev := IndexLoop(r.desc, TagsRead(p[1..], n));
    r := if rev.None? then r.(status := OutOfRange) else r.(desc := r.desc.(reverse := rev.value));
  }

  /** The loop over the section names. */
  method ReadSectionLoop(start: Reader, n: nat) returns (r: Reader)
    requires start.status == OK
    ensures r == ReadSections(start, n)
  {
    r := start;
    var i := 0;
    while i < n
      invariant 0 <= i <= n && r.status == OK
      invariant ReadSections(r, n - i) == ReadSections(start, n)
    {
      if r.rest == [] || !r.rest[0].S? || r.rest[0].text == [] {
        return r.(status := NotEnoughData);
      }
      r := r.(rest := r.rest[1..], desc := r.desc.(sections := AddSection(r.desc.sections, r.rest[0].text)));
      i := i + 1;
    }
  }

  /** The loop that sets up the reverse mapping; None if a section number leads out of the list. */
  method IndexLoop(d: Descriptor, ts: seq<Tag>) returns (r: Option<map<string, map<string, Tag>>>)
    ensures r == if InRange(d, ts) then Some(Reindex(d, ts)) else None
  {
    var rev: map<string, map<string, Tag>> := map[];
    for i := 0 to |ts|
      invariant rev == Reindex(d, ts[..i]) && InRange(d, ts[..i])
    {
      var section := GetSectionName(d, ts[i]);
      if section.None? {
        return None;
      }
      assert ts[..i + 1][..i] == ts[..i];
      rev := AddReverse(rev, section.value, GetTagName(d, ts[i]).GetOr(""), ts[i]);
    }
    assert ts[..|ts|] == ts;
    return Some(rev);
  }
}
