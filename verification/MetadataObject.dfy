/**
 The CameraMetadata object of camera/CameraMetadata.cpp: its methods work on the buffer in
 place, and refuse to while it is locked.
 */
module MetadataObject {
  import opened Arithmetic
  import opened Wrappers
  import opened CameraMetadata
  import PR = PermissionRemoval

  // ----- Bulk removal -----

  /** The loop over the tags to remove: the metadata left, and the tags that were there. */
  function RemoveAll(m: Meta, tags: seq<PR.Tag>): (r: (Meta, seq<PR.Tag>))
    decreases |tags|
  {
    if tags == [] then (m, [])
    else if tags[0] in Contents(Entries(m)) then
      var (m1, rest) := RemoveAll(Erase(m, tags[0]), tags[1..]);
      (m1, [tags[0]] + rest)
    else RemoveAll(m, tags[1..])
  }

  predicate Int32s(data: seq<int>) {
    forall i :: 0 <= i < |data| ==> Int32(data[i])
  }

  function ToTags(data: seq<int>): (ts: seq<PR.Tag>)
    requires Int32s(data)
    ensures |ts| == |data|
  {
    seq(|data|, i requires 0 <= i < |data| => PR.ToTag(data[i]))
  }

  function ToSigned(ts: seq<PR.Tag>): (data: seq<int>)
    ensures |data| == |ts| && Int32s(data)
  {
    seq(|ts|, i requires 0 <= i < |ts| => PR.ToSigned(ts[i]))
  }

  /** The keys entry holds 32-bit numbers. */
  predicate KeysOk(m: Meta, keys: Tag) {
    keys in Contents(Entries(m)) ==> Int32s(Contents(Entries(m))[keys])
  }

  /** The second half: the keys entry loses the removed tags, and the list of them is sorted. */
  function UpdatedKeys(m: Meta, removed: seq<PR.Tag>, keys: Tag): (r: (Meta, seq<PR.Tag>))
    requires KeysOk(m, keys)
  {
    if keys !in Contents(Entries(m)) then (m, removed)
    else
      var was := ToTags(Contents(Entries(m))[keys]);
      (Update(m, keys, TypeInt32, ToSigned(PR.NewKeys(was, removed))).0, PR.Sort(true, removed))
  }

  /** removePermissionEntries on an unlocked object: the metadata left and the list of removed
      tags, which had `prior` in it before. */
  function RemovePermission(m: Meta, tags: seq<PR.Tag>, prior: seq<PR.Tag>, keys: Tag): (r: (Meta, seq<PR.Tag>))
    requires KeysOk(RemoveAll(m, tags).0, keys)
  {
    UpdatedKeys(RemoveAll(m, tags).0, prior + RemoveAll(m, tags).1, keys)
  }

  lemma {:induction false} RemoveAllMapLike(m: Meta, tags: seq<PR.Tag>, types: map<Tag, Type>)
    requires MapLike(m, types)
    ensures MapLike(RemoveAll(m, tags).0, types)
    decreases |tags|
  {
    if tags != [] {
      EraseIsMapRemoval(m, tags[0], types);
      RemoveAllMapLike(Erase(m, tags[0]), tags[1..], types);
      RemoveAllMapLike(m, tags[1..], types);
    }
  }

  /** After the loop none of the tags is left and nothing else changed. */
  lemma {:induction false} RemoveAllAt(m: Meta, tags: seq<PR.Tag>, types: map<Tag, Type>, t: Tag)
    requires MapLike(m, types)
    ensures var c, c' := Contents(Entries(m)), Contents(Entries(RemoveAll(m, tags).0));
            (t in c' <==> t in c && t !in tags) && (t in c' ==> c'[t] == c[t])
    decreases |tags|
  {
    if tags != [] {
      assert t in tags <==> t == tags[0] || t in tags[1..];
      if tags[0] in Contents(Entries(m)) {
        EraseIsMapRemoval(m, tags[0], types);
        RemoveAllAt(Erase(m, tags[0]), tags[1..], types, t);
      } else {
        RemoveAllAt(m, tags[1..], types, t);
      }
    }
  }

  /** Exactly the tags that were there are reported, each once. */
  lemma {:induction false} RemoveAllReports(m: Meta, tags: seq<PR.Tag>, types: map<Tag, Type>, x: PR.Tag)
    requires MapLike(m, types)
    ensures multiset(RemoveAll(m, tags).1)[x]
         == if x in tags && x in Contents(Entries(m)) then 1 else 0
    decreases |tags|
  {
    if tags != [] {
      if tags[0] in Contents(Entries(m)) {
        var m1 := Erase(m, tags[0]);
        EraseIsMapRemoval(m, tags[0], types);
        RemoveAllReports(m1, tags[1..], types, x);
        PR.CountCons(tags[0], RemoveAll(m1, tags[1..]).1, x);
      } else {
        RemoveAllReports(m, tags[1..], types, x);
      }
    }
  }

  lemma UpdatedKeysAre(m: Meta, removed: seq<PR.Tag>, keys: Tag, types: map<Tag, Type>)
    requires MapLike(m, types) && KeysOk(m, keys) && keys in types && types[keys] == TypeInt32
    ensures var (r, sorted) := UpdatedKeys(m, removed, keys);
            var c, c' := Contents(Entries(m)), Contents(Entries(r));
            && MapLike(r, types)
            && (forall t: Tag :: (t in c' <==> t in c) && (t in c && t != keys ==> c'[t] == c[t]))
            && (keys in c' ==> Int32s(c'[keys]) && ToTags(c'[keys]) == PR.NewKeys(ToTags(c[keys]), removed))
  {
    if keys in Contents(Entries(m)) {
      var after := PR.NewKeys(ToTags(Contents(Entries(m))[keys]), removed);
      UpdateIsMapUpdate(m, keys, ToSigned(after), types);
      SignedRoundTrip(after);
    }
  }

  lemma SortedReport(m: Meta, removed: seq<PR.Tag>, keys: Tag, x: PR.Tag)
    requires KeysOk(m, keys)
    ensures multiset(UpdatedKeys(m, removed, keys).1)[x] == multiset(removed)[x]
  {
    PR.SortCounts(true, removed, x);
  }

  /** After removePermissionEntries none of the tags remains, every other entry but the keys is
      untouched, and the keys entry is there as before and holds, sorted, what `NewKeys` says. */
  lemma PermissionRemoved(m: Meta, tags: seq<PR.Tag>, prior: seq<PR.Tag>, keys: Tag, types: map<Tag, Type>, t: Tag)
    requires MapLike(m, types) && KeysOk(m, keys) && keys in types && types[keys] == TypeInt32
    ensures KeysOk(RemoveAll(m, tags).0, keys)
    ensures var (r, _) := RemovePermission(m, tags, prior, keys);
            var c, c' := Contents(Entries(m)), Contents(Entries(r));
            && MapLike(r, types)
            && (t in c' <==> t in c && t !in tags)
            && (t in c' && t != keys ==> c'[t] == c[t])
            && (keys in c' ==> keys in c && Int32s(c'[keys]) && Int32s(c[keys])
                               && ToTags(c'[keys]) == PR.NewKeys(ToTags(c[keys]), prior + RemoveAll(m, tags).1))
  {
    RemoveAllMapLike(m, tags, types);
    RemoveAllAt(m, tags, types, t);
    RemoveAllAt(m, tags, types, keys);
    UpdatedKeysAre(RemoveAll(m, tags).0, prior + RemoveAll(m, tags).1, keys, types);
  }

  /** Besides what was in the list before, exactly the tags that were there are reported. */
  lemma PermissionReported(m: Meta, tags: seq<PR.Tag>, prior: seq<PR.Tag>, keys: Tag, types: map<Tag, Type>, x: PR.Tag)
    requires MapLike(m, types) && KeysOk(RemoveAll(m, tags).0, keys)
    ensures multiset(RemovePermission(m, tags, prior, keys).1)[x]
         == multiset(prior)[x] + if x in tags && x in Contents(Entries(m)) then 1 else 0
  {
    RemoveAllReports(m, tags, types, x);
    SortedReport(RemoveAll(m, tags).0, prior + RemoveAll(m, tags).1, keys, x);
  }

  /** The first list is what is left of the second one when some of it is crossed out. */
  predicate InOrder(some: seq<PR.Tag>, all: seq<PR.Tag>) {
    some == [] || (all != [] && ((some[0] == all[0] && InOrder(some[1..], all[1..])) || InOrder(some, all[1..])))
  }

  lemma {:induction false} RemovedInOrder(m: Meta, tags: seq<PR.Tag>)
    ensures InOrder(RemoveAll(m, tags).1, tags)
    decreases |tags|
  {
    if tags != [] {
      if tags[0] in Contents(Entries(m)) {
        RemovedInOrder(Erase(m, tags[0]), tags[1..]);
        var rest := RemoveAll(Erase(m, tags[0]), tags[1..]).1;
        assert ([tags[0]] + rest)[1..] == rest;
      } else {
        RemovedInOrder(m, tags[1..]);
      }
    }
  }

  /** The report: what was in the list before, and then the tags that were there, in the order in
      which they were listed; if there is a keys entry, all of it is sorted as signed numbers. */
  lemma ReportOrder(m: Meta, tags: seq<PR.Tag>, prior: seq<PR.Tag>, keys: Tag, types: map<Tag, Type>)
    requires MapLike(m, types) && KeysOk(RemoveAll(m, tags).0, keys)
    ensures var (r, report) := RemovePermission(m, tags, prior, keys);
            if keys in Contents(Entries(m)) && keys !in tags then PR.Sorted(true, report)
            else prior <= report && InOrder(report[|prior|..], tags)
  {
    RemoveAllAt(m, tags, types, keys);
    RemovedInOrder(m, tags);
    PR.SortSorted(true, prior + RemoveAll(m, tags).1);
    assert (prior + RemoveAll(m, tags).1)[|prior|..] == RemoveAll(m, tags).1;
  }

  lemma SignedRoundTrip(ts: seq<PR.Tag>)
    ensures ToTags(ToSigned(ts)) == ts
  {
    forall i | 0 <= i < |ts| ensures ToTags(ToSigned(ts))[i] == ts[i] {
      assert PR.ToTag(PR.ToSigned(ts[i])) == ts[i];
    }
  }

  lemma TagRoundTrip(data: seq<int>)
    requires Int32s(data)
    ensures ToSigned(ToTags(data)) == data
  {
  }

  lemma SignedAppend(prior: seq<int>, ts: seq<PR.Tag>)
    requires Int32s(prior)
    ensures Int32s(prior + ToSigned(ts))
    ensures ToTags(prior + ToSigned(ts)) == ToTags(prior) + ts
  {
    SignedRoundTrip(ts);
    assert ToTags(prior + ToSigned(ts)) == ToTags(prior) + ToTags(ToSigned(ts));
  }

  // ----- The object -----

  class Metadata {
    var buffer: Option<Buffer>
    var locked: bool
    ghost var growth: Growth
    const types: map<Tag, Type>

    ghost function View(): Meta
      reads this
    {
      Meta(buffer, growth)
    }

    constructor (types: map<Tag, Type>)
      ensures View() == EMPTY && !locked && this.types == types
    {
      buffer, locked, growth := None, false, EMPTY.growth;
      this.types := types;
    }

    method ResizeIfNeeded(extraEntries: nat, extraData: nat)
      modifies this`buffer, this`growth
      ensures View() == Resize(old(View()), extraEntries, extraData)
    {
      growth := Resize(View(), extraEntries, extraData).growth;
      if buffer.None? {
        buffer := Some(Buffer([], extraEntries * 2, extraData * 2));
        return;
      }
      var b := buffer.value;
      var entries := |b.entries| + extraEntries;
      entries := if entries > b.entryCap then entries * 2 else b.entryCap;
      var data := DataCount(b.entries) + extraData;
      data := if data > b.dataCap then data * 2 else b.dataCap;
      if entries > b.entryCap || data > b.dataCap {
        buffer := Some(Buffer(b.entries, entries, data));
      }
    }

    /** updateImpl; `inside` says that the data lies in this very buffer. */
    method UpdateImpl(tag: Tag, data: seq<int>, inside: bool) returns (status: Status)
      modifies this`buffer, this`growth
      ensures locked ==> status == InvalidOperation
      ensures !locked && tag !in types ==> status == BadValue
      ensures !locked && tag in types && inside ==> status == InvalidOperation
      ensures locked || tag !in types || inside ==> View() == old(View())
      ensures !locked && tag in types && !inside ==>
                (View(), status) == Update(old(View()), tag, types[tag], data)
    {
      if locked {
        return InvalidOperation;
      }
      if tag !in types {
        return BadValue;
      }
      if inside {
        return InvalidOperation;
      }
      var kind := types[tag];
      ResizeIfNeeded(1, DataSize(kind, |data|));
      var b := buffer.value;
      var i := Find(b.entries, tag);
      var b' := if i == |b.entries| then AddEntry(b, Entry(tag, kind, data)) else UpdateEntry(b, i, data);
      if b'.None? {
        return NoMemory;
      }
      buffer := b';
      return OK;
    }

    /** The public update functions: checkType, then updateImpl. */
    method UpdateAs(kind: Type, tag: Tag, data: seq<int>) returns (status: Status)
      modifies this`buffer, this`growth
      ensures locked ==> status == InvalidOperation && View() == old(View())
      ensures !locked ==> (View(), status) == Do(old(View()), OpUpdate(tag, kind, data), types)
    {
      if locked || tag !in types || types[tag] != kind {
        return InvalidOperation;
      }
      status := UpdateImpl(tag, data, false);
    }

    method Exists(tag: Tag) returns (found: bool)
      ensures found <==> tag in Contents(Entries(View()))
    {
      ContentsAt(Entries(View()), tag);
      found := buffer.Some? && Find(buffer.value.entries, tag) < |buffer.value.entries|;
    }

    method EraseTag(tag: Tag) returns (status: Status)
      modifies this`buffer
      ensures locked ==> status == InvalidOperation && View() == old(View())
      ensures !locked ==> status == OK && View() == Erase(old(View()), tag)
    {
      if locked {
        return InvalidOperation;
      }
      if buffer.None? {
        return OK;
      }
      var i := Find(buffer.value.entries, tag);
      if i < |buffer.value.entries| {
        buffer := Some(DeleteEntry(buffer.value, i));
      }
      return OK;
    }

    method AppendEntries(other: seq<Entry>) returns (status: Status)
      modifies this`buffer, this`growth
      ensures locked ==> status == InvalidOperation && View() == old(View())
      ensures !locked ==> (View(), status) == Append(old(View()), other)
    {
      if locked {
        return InvalidOperation;
      }
      ResizeIfNeeded(|other|, DataCount(other));
      var b' := AppendAll(buffer.value, other);
      if b'.None? {
        return NoMemory;
      }
      buffer := b';
      return OK;
    }

    /** The loop that erases the tags and notes the ones that were there. */
    method EraseTags(tags: seq<PR.Tag>, prior: seq<int>) returns (status: Status, removed: seq<int>)
      modifies this`buffer
      ensures locked ==> View() == old(View()) && removed == prior
      ensures locked ==> (status == OK <==> RemoveAll(old(View()), tags).1 == [])
      ensures !locked ==> status == OK
      ensures !locked ==> View() == RemoveAll(old(View()), tags).0
      ensures !locked ==> removed == prior + ToSigned(RemoveAll(old(View()), tags).1)
    {
      status, removed := OK, prior;
      var k := 0;
      ghost var done: seq<PR.Tag> := [];
      while k < |tags|
        invariant 0 <= k <= |tags| && status == OK
        invariant RemoveAll(old(View()), tags).0 == RemoveAll(View(), tags[k..]).0
        invariant RemoveAll(old(View()), tags).1 == done + RemoveAll(View(), tags[k..]).1
        invariant removed == prior + ToSigned(done)
        invariant locked ==> done == [] && View() == old(View())
      {
        assert tags[k..][0] == tags[k] && tags[k..][1..] == tags[k + 1..];
        var found := Exists(tags[k]);
        if found {
          status := EraseTag(tags[k]);
          if status != OK {
            return;
          }
          removed := removed + [PR.ToSigned(tags[k])];
          done := done + [tags[k]];
        }
        k := k + 1;
      }
    }

    /** While the object is locked, a tag that would have to go makes the call fail, and nothing
        changes in any case. */
    method RemovePermissionEntries(vendorTags: seq<PR.Tag>, permissionTags: seq<PR.Tag>,
                                   prior: seq<int>, keys: Tag)
      returns (status: Status, removed: seq<int>)
      requires Int32s(prior) && MapLike(View(), types) && KeysOk(View(), keys)
      requires keys in types && types[keys] == TypeInt32
      modifies this`buffer, this`growth
      ensures locked ==> View() == old(View())
      ensures locked ==> (status == OK <==> RemoveAll(old(View()), vendorTags + permissionTags).1 == [])
      ensures !locked ==> status == OK
      ensures KeysOk(RemoveAll(old(View()), vendorTags + permissionTags).0, keys)
      ensures !locked ==>
                var r := RemovePermission(old(View()), vendorTags + permissionTags, ToTags(prior), keys);
                View() == r.0 && removed == ToSigned(r.1)
    {
      var tags := vendorTags + permissionTags;
      PermissionRemoved(View(), tags, ToTags(prior), keys, types, keys);
      RemoveAllMapLike(View(), tags, types);
      ghost var now := RemoveAll(View(), tags).1;
      status, removed := EraseTags(tags, prior);
      if status != OK {
        return;
      }
      if !locked {
        SignedAppend(prior, now);
      }
      removed := UpdateKeys(keys, removed);
    }

    /** The second half of removePermissionEntries. */
    method UpdateKeys(keys: Tag, removed: seq<int>) returns (sorted: seq<int>)
      requires Int32s(removed) && KeysOk(View(), keys)
      requires keys in types && types[keys] == TypeInt32
      modifies this`buffer, this`growth
      ensures locked ==> View() == old(View())
      ensures !locked ==> var r := UpdatedKeys(old(View()), ToTags(removed), keys);
                          View() == r.0 && sorted == ToSigned(r.1)
    {
      var found := Exists(keys);
      if !found {
        TagRoundTrip(removed);
        return removed;
      }
      var rs := PR.Sort(true, ToTags(removed));
      var current := CurrentKeys(keys);
      var newKeys := PR.SetDifference(PR.Sort(false, current), rs);
      var ignored := UpdateAs(TypeInt32, keys, ToSigned(newKeys));
      return ToSigned(rs);
    }

    /** find on a locked object yields an empty entry. */
    method CurrentKeys(keys: Tag) returns (current: seq<PR.Tag>)
      requires keys in Contents(Entries(View())) && KeysOk(View(), keys)
      ensures current == if locked then [] else ToTags(Contents(Entries(View()))[keys])
    {
      ContentsAt(Entries(View()), keys);
      if locked {
        return [];
      }
      return ToTags(buffer.value.entries[Find(buffer.value.entries, keys)].data);
    }
  }
}
