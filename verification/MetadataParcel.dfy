/**
 The static readFromParcel and writeToParcel of camera/CameraMetadata.cpp.  The metadata is
 written at an aligned address inside a blob whose own address is only known while writing,
 and is different for the reader.
 */
module MetadataParcel {
  import opened Arithmetic
  import opened Wrappers

  datatype Status = OK | BadValue | NotEnoughData

  /** What was put into a parcel, in order. */
  datatype Item = Int32(value: int) | Blob(bytes: seq<Byte>)

  /** static_cast<size_t> of an int32_t, for a size_t of 64 bits. */
  function ToSize(i: int): nat
    requires -SIGN <= i < SIGN
  {
    if i < 0 then i + WORD * WORD else i
  }

  /** ALIGN_TO, for an alignment that is a power of two. */
  function AlignTo(address: nat, alignment: nat): (r: nat)
    requires alignment > 0
  {
    (address + (alignment - 1)) / alignment * alignment
  }

  function Padding(base: nat, alignment: nat): int
    requires alignment > 0
  {
    AlignTo(base, alignment) - base
  }

  /** The aligned address is the next multiple: less than one alignment further. */
  lemma AlignNext(base: nat, alignment: nat)
    requires alignment > 0
    ensures 0 <= Padding(base, alignment) < alignment
    ensures AlignTo(base, alignment) % alignment == 0
  {
    var x := base + (alignment - 1);
    var q, r := x / alignment, x % alignment;
    assert x == q * alignment + r && 0 <= r < alignment;
    assert AlignTo(base, alignment) == q * alignment;
    MultipleMod(q, alignment);
  }

  // ----- Writing -----

  /** The blob: `garbage` is what its memory held before, `metadata` is copied to the aligned
      address. */
  function Layout(metadata: seq<Byte>, garbage: seq<Byte>, offset: nat): seq<Byte>
    requires offset + |metadata| <= |garbage|
  {
    garbage[..offset] + metadata + garbage[offset + |metadata|..]
  }

  /** writeToParcel: `base` is the address the parcel gave the blob. */
  function Write(metadata: Option<seq<Byte>>, alignment: nat, base: nat, garbage: seq<Byte>): (p: seq<Item>)
    requires alignment > 0
    requires metadata.Some? ==> |garbage| == |metadata.value| + alignment
  {
    if metadata.None? then [Int32(0)]
    else
      var offset := Padding(base, alignment);
      AlignNext(base, alignment);
      [Int32(ToInt32(|metadata.value| + alignment)),
       Blob(Layout(metadata.value, garbage, offset)),
       Int32(ToInt32(offset))]
  }

  // ----- Reading -----

  datatype Outcome = Outcome(status: Status, metadata: Option<seq<Byte>>)

  /** readFromParcel, up to the library's check of the copied structure. */
  function Read(p: seq<Item>, alignment: nat): (r: Outcome)
    ensures r.metadata.Some? ==> r.status == OK
  {
    if |p| == 0 || !p[0].Int32? || !(-SIGN <= p[0].value < SIGN) then Outcome(NotEnoughData, None)
    else
      var blobSize := ToSize(p[0].value);
      if blobSize == 0 then Outcome(OK, None)
      else if blobSize <= alignment then Outcome(BadValue, None)
      else if |p| < 2 || !p[1].Blob? || |p[1].bytes| != blobSize then Outcome(NotEnoughData, None)
      else if |p| < 3 || !p[2].Int32? || !(-SIGN <= p[2].value < SIGN) then Outcome(NotEnoughData, None)
      else
        var offset := ToSize(p[2].value);
        if offset >= alignment then Outcome(BadValue, None)
        else
          // the copy starts at the offset, wherever the reader's blob is
          Outcome(OK, Some(p[1].bytes[offset..offset + (blobSize - alignment)]))
  }

  /** The payload lies inside the blob and is found again at its offset. */
  lemma LayoutSlice(metadata: seq<Byte>, garbage: seq<Byte>, offset: nat)
    requires offset + |metadata| <= |garbage|
    ensures |Layout(metadata, garbage, offset)| == |garbage|
    ensures Layout(metadata, garbage, offset)[offset..offset + |metadata|] == metadata
  {
  }

  /** A size_t that is cut to an int32_t and widened again is the same exactly if its upper 33 bits
      are all equal. */
  lemma SizeRoundTrip(n: nat)
    requires n < WORD * WORD
    ensures -SIGN <= ToInt32(n) < SIGN
    ensures ToSize(ToInt32(n)) == n <==> SizeSurvives(n)
  {
    var q, m := n / WORD, n % WORD;
    assert n == q * WORD + m && q < WORD;
    if m >= SIGN && n >= WORD * WORD - SIGN {
      assert q == WORD - 1;
    }
  }

  predicate SizeSurvives(n: nat) {
    n < SIGN || n >= WORD * WORD - SIGN
  }

  /** For every address of the writer's blob and every size_t, what is read back is what was
      written, exactly if the metadata is not empty and the size survives as an int32_t. */
  lemma RoundTripExactly(metadata: seq<Byte>, alignment: nat, base: nat, garbage: seq<Byte>)
    requires 0 < alignment < SIGN
    requires |garbage| == |metadata| + alignment && |garbage| < WORD * WORD
    ensures Read(Write(Some(metadata), alignment, base, garbage), alignment) == Outcome(OK, Some(metadata))
       <==> 0 < |metadata| && SizeSurvives(|metadata| + alignment)
  {
    var offset := Padding(base, alignment);
    AlignNext(base, alignment);
    LayoutSlice(metadata, garbage, offset);
    SizeRoundTrip(|garbage|);
    SizeRoundTrip(offset);
  }

  /** What a parcel holds: the size of the blob, the blob, and an offset that makes the address of
      the metadata aligned.  The metadata is in the blob at that offset, and the rest of the blob is
      as it was. */
  lemma WritesAligned(metadata: seq<Byte>, alignment: nat, base: nat, garbage: seq<Byte>)
    requires 0 < alignment < SIGN && |garbage| == |metadata| + alignment
    ensures var p := Write(Some(metadata), alignment, base, garbage);
            && |p| == 3 && p[0] == Int32(ToInt32(|metadata| + alignment)) && p[1].Blob? && p[2].Int32?
            && 0 <= p[2].value < alignment && (base + p[2].value) % alignment == 0
            && var blob, o, n := p[1].bytes, p[2].value, |metadata|;
               && |blob| == |garbage| && blob[o..o + n] == metadata
               && blob[..o] == garbage[..o] && blob[o + n..] == garbage[o + n..]
  {
    var offset := Padding(base, alignment);
    AlignNext(base, alignment);
    LayoutSlice(metadata, garbage, offset);
    SmallOffset(offset);
  }

  lemma SmallOffset(offset: nat)
    requires offset < SIGN
    ensures ToInt32(offset) == offset
  {
  }

  /** A parcel with metadata in it: a blob longer than the alignment, announced with its size, and an
      offset below the alignment. */
  predicate Holds(p: seq<Item>, alignment: nat, metadata: seq<Byte>) {
    && |p| >= 3 && p[0].Int32? && p[1].Blob? && p[2].Int32?
    && alignment < |p[1].bytes| && InInt32(p[0].value) && ToSize(p[0].value) == |p[1].bytes|
    && 0 <= p[2].value < alignment && p[2].value < SIGN
    && metadata == p[1].bytes[p[2].value..p[2].value + |p[1].bytes| - alignment]
  }

  predicate InInt32(i: int) {
    -SIGN <= i < SIGN
  }

  /** Whatever the parcel: metadata is read exactly if the parcel holds it, and none exactly if its
      size is zero; a size up to the alignment, and an offset that is not below it, are bad values;
      everything else is too little data. */
  lemma ReadExactly(p: seq<Item>, alignment: nat, metadata: seq<Byte>)
    requires 0 < alignment < SIGN
    ensures var r := Read(p, alignment);
            && (r == Outcome(OK, Some(metadata)) <==> Holds(p, alignment, metadata))
            && (r == Outcome(OK, None) <==> |p| >= 1 && p[0] == Int32(0))
            && (r.status == BadValue <==> BadSize(p, alignment) || BadOffset(p, alignment))
            && (r.status != OK ==> r.metadata == None)
  {
  }

  predicate BadSize(p: seq<Item>, alignment: nat) {
    |p| >= 1 && p[0].Int32? && 0 < p[0].value <= alignment && p[0].value < SIGN
  }

  /** A negative offset is a large number without a sign. */
  predicate BadOffset(p: seq<Item>, alignment: nat) {
    && |p| >= 3 && p[0].Int32? && p[1].Blob? && p[2].Int32? && InInt32(p[0].value) && InInt32(p[2].value)
    && alignment < |p[1].bytes| && ToSize(p[0].value) == |p[1].bytes|
    && !(0 <= p[2].value < alignment)
  }

  lemma NullRoundTrip(alignment: nat, base: nat)
    requires alignment > 0
    ensures Read(Write(None, alignment, base, []), alignment) == Outcome(OK, None)
  {
  }
}
