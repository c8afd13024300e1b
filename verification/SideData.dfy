/** Packet side data packed behind the payload, and taken apart again (av_helpers.c). */
module SideData {
  import opened Basics
  import opened Numbers

  type byte = x: int | 0 <= x < 256 witness 0

  const EINVAL := -22
  const ERANGE := -34
  const AV_PKT_DATA_NB := 32
  const AV_INPUT_BUFFER_PADDING_SIZE := 64

  /** The bytes of the 64-bit marker 0x8c4d9d108e25e9fe, most significant first. */
  const MARKER: seq<byte> := [0x8c, 0x4d, 0x9d, 0x10, 0x8e, 0x25, 0xe9, 0xfe]

  /** One side data element; its type is an enumeration value. */
  datatype Element = Element(data: seq<byte>, kind: nat)

  /** A 32-bit number as four bytes, most significant first. */
  function BigEndian(n: nat): (b: seq<byte>)
    requires n <= 0xffff_ffff
    ensures |b| == 4
  {
    var high := n / 256;
    var higher := high / 256;
    [higher / 256, higher % 256, high % 256, n % 256]
  }

  /** The number four bytes stand for. */
  function Value(b: seq<byte>): (n: nat)
    requires |b| == 4
    ensures n <= 0xffff_ffff
  {
    var b0: int, b1: int, b2: int, b3: int := b[0], b[1], b[2], b[3];
    ((b0 * 256 + b1) * 256 + b2) * 256 + b3
  }

  lemma ValueOfBytes(n: nat)
    requires n <= 0xffff_ffff
    ensures Value(BigEndian(n)) == n
  {
    var high := n / 256;
    var higher := high / 256;
    assert n == high * 256 + n % 256 && high == higher * 256 + high % 256;
    assert higher == higher / 256 * 256 + higher % 256;
  }

  lemma LastDigit(high: nat, d: byte)
    ensures (high * 256 + d) / 256 == high && (high * 256 + d) % 256 == d
  {
  }

  lemma BytesOfValue(b: seq<byte>)
    requires |b| == 4
    ensures BigEndian(Value(b)) == b
  {
    var b0: int, b1: int := b[0], b[1];
    LastDigit((b0 * 256 + b1) * 256 + b[2], b[3]);
    LastDigit(b0 * 256 + b1, b[2]);
    LastDigit(b0, b[1]);
  }

  predicate HighBit(b: int) { b / 128 % 2 == 1 }

  /** The type byte: `kind | 128` for the element written first, else `kind`, cut to a byte. */
  function TypeByte(kind: nat, last: bool): byte {
    (if last && !HighBit(kind) then kind + 128 else kind) % 256
  }

  /** An element as it is packed: data, length, type. */
  function Chunk(e: Element, last: bool): seq<byte>
    requires |e.data| <= 0xffff_ffff
  {
    e.data + BigEndian(|e.data|) + [TypeByte(e.kind, last)]
  }

  predicate Sized(es: seq<Element>) {
    forall i :: 0 <= i < |es| ==> |es[i].data| <= INT_MAX - 5
  }

  /** All chunks, the first element's chunk at the end. */
  function Trailer(es: seq<Element>): seq<byte>
    requires Sized(es)
  {
    if es == [] then [] else Trailer(es[1..]) + Chunk(es[0], |es| == 1)
  }

  /** What the end of a byte string says: an element, where it starts, and whether it is the last. */
  datatype Reading = Reading(start: nat, element: Element, last: bool)

  function LastChunk(b: seq<byte>): (r: Maybe<Reading>)
    ensures r.Just? ==> r.value.start + |r.value.element.data| + 5 == |b|
  {
    if |b| < 5 then Nothing
    else
      var p := |b| - 5;
      var size := Value(b[p..p+4]);
      if size > INT_MAX - 5 || p < size then Nothing
      else Just(Reading(p - size, Element(b[p-size..p], b[p+4] % 128), HighBit(b[p+4])))
  }

  datatype Split = Split(payload: seq<byte>, elements: seq<Element>)

  /** Reads chunks from the end of `b` up to the one with the high bit. */
  function Parse(b: seq<byte>): Maybe<Split>
    decreases |b|
  {
    match LastChunk(b)
    case Nothing => Nothing
    case Just(r) =>
      if r.last then Just(Split(b[..r.start], [r.element]))
      else Behind(r.element, Parse(b[..r.start]))
  }

  function Behind(e: Element, r: Maybe<Split>): Maybe<Split> {
    match r
    case Nothing => Nothing
    case Just(s) => Just(Split(s.payload, [e] + s.elements))
  }

  predicate Small(es: seq<Element>) { forall i :: 0 <= i < |es| ==> es[i].kind < 128 }

  lemma ChunkIsRead(rest: seq<byte>, e: Element, last: bool)
    requires |e.data| <= INT_MAX - 5 && e.kind < 128
    ensures LastChunk(rest + Chunk(e, last)) == Just(Reading(|rest|, e, last))
  {
    hide BigEndian, Value;
    var b := rest + Chunk(e, last);
    var p := |b| - 5;
    assert b[p..p+4] == BigEndian(|e.data|);
    ValueOfBytes(|e.data|);
    assert b[p-|e.data|..p] == e.data;
    assert b[p+4] == TypeByte(e.kind, last);
  }

  lemma ReadIsChunk(b: seq<byte>)
    requires LastChunk(b).Just?
    ensures var r := LastChunk(b).value;
      (|r.element.data| <= INT_MAX - 5 && r.element.kind < 128
      && b == b[..r.start] + Chunk(r.element, r.last))
  {
    hide BigEndian, Value;
    var p := |b| - 5;
    var r := LastChunk(b).value;
    BytesOfValue(b[p..p+4]);
    assert b[p..p+4] == BigEndian(|r.element.data|);
    assert b[p+4] == TypeByte(r.element.kind, r.last);
    assert b == b[..r.start] + b[r.start..p] + b[p..p+4] + [b[p+4]];
  }

  /** Packed elements are read back, whatever the payload. */
  lemma {:induction false} ParseTrailer(payload: seq<byte>, es: seq<Element>)
    requires es != [] && Sized(es) && Small(es)
    ensures Parse(payload + Trailer(es)) == Just(Split(payload, es))
  {
    hide Chunk, LastChunk;
    var rest := payload + Trailer(es[1..]);
    var last := |es| == 1;
    assert payload + Trailer(es) == rest + Chunk(es[0], last);
    ChunkIsRead(rest, es[0], last);
    assert (rest + Chunk(es[0], last))[..|rest|] == rest;
    if last {
      assert es == [es[0]] && rest == payload;
    } else {
      ParseTrailer(payload, es[1..]);
      assert es == [es[0]] + es[1..];
    }
  }

  /** What packing would have written for `s`. */
  predicate Packs(s: Split, b: seq<byte>) {
    s.elements != [] && Sized(s.elements) && Small(s.elements) && b == s.payload + Trailer(s.elements)
  }

  /** Whatever is read is what packing would have written. */
  lemma {:induction false} TrailerParse(b: seq<byte>)
    requires Parse(b).Just?
    ensures Packs(Parse(b).value, b)
    decreases |b|
  {
    hide Chunk, LastChunk;
    var r := LastChunk(b).value;
    ReadIsChunk(b);
    if r.last {
      assert Trailer([r.element]) == Chunk(r.element, true);
    } else {
      TrailerParse(b[..r.start]);
      var s := Parse(b[..r.start]).value;
      var es := [r.element] + s.elements;
      assert es[1..] == s.elements;
      assert Trailer(es) == Trailer(s.elements) + Chunk(r.element, false);
    }
  }

  /** A packet's bytes once its side data is merged into them. */
  function Merged(payload: seq<byte>, es: seq<Element>): seq<byte>
    requires Sized(es)
  {
    payload + Trailer(es) + MARKER
  }

  predicate Marked(b: seq<byte>) { |b| > 12 && b[|b| - 8..] == MARKER }

  /** What splitting finds in a packet's bytes, however many elements that are. */
  function Found(b: seq<byte>): Maybe<Split> {
    if Marked(b) then Parse(b[..|b| - 8]) else Nothing
  }

  /** What splitting accepts. */
  function SplitOf(b: seq<byte>): Maybe<Split> {
    var f := Found(b);
    if f.Just? && |f.value.elements| > AV_PKT_DATA_NB then Nothing else f
  }

  /**
   * Splitting undoes merging for every payload, exactly when there are no more elements than
   * there are side data types and no type needs the high bit.
   */
  lemma SplitUndoesMerge(payload: seq<byte>, es: seq<Element>)
    requires es != [] && Sized(es)
    ensures SplitOf(Merged(payload, es)) == Just(Split(payload, es)) <==> Small(es) && |es| <= AV_PKT_DATA_NB
  {
    hide Parse;
    var b := Merged(payload, es);
    assert b[..|b| - 8] == payload + Trailer(es) && b[|b| - 8..] == MARKER;
    assert |Trailer(es)| >= 5;
    if Small(es) {
      ParseTrailer(payload, es);
    } else if Parse(payload + Trailer(es)).Just? {
      TrailerParse(payload + Trailer(es));
    }
  }

  /** Merging undoes splitting: the bytes come back unchanged. */
  lemma MergeUndoesSplit(b: seq<byte>)
    requires SplitOf(b).Just?
    ensures var s := SplitOf(b).value; (Packs(s, b[..|b| - 8]) && Merged(s.payload, s.elements) == b)
  {
    hide Parse, Trailer;
    TrailerParse(b[..|b| - 8]);
    assert b == b[..|b| - 8] + MARKER;
  }

  /** The room the chunks take. */
  function Room(es: seq<Element>): nat {
    if es == [] then 0 else |es[0].data| + 5 + Room(es[1..])
  }

  lemma {:induction false} RoomIsEnough(es: seq<Element>)
    requires Room(es) <= INT_MAX
    ensures Sized(es) && |Trailer(es)| == Room(es)
  {
    if es != [] {
      RoomIsEnough(es[1..]);
      assert Sized(es) by {
        forall i | 0 <= i < |es| ensures |es[i].data| <= INT_MAX - 5 {
          assert i > 0 ==> es[i] == es[1..][i - 1];
        }
      }
    }
  }

  function Prefixed(front: seq<Element>, r: Maybe<Split>): Maybe<Split> {
    match r
    case Nothing => Nothing
    case Just(s) => Just(Split(s.payload, front + s.elements))
  }

  lemma PrefixedByNothing(r: Maybe<Split>)
    ensures Prefixed([], r) == r
  {
    if r.Just? {
      assert [] + r.value.elements == r.value.elements;
    }
  }

  lemma PrefixedTwice(front: seq<Element>, e: Element, r: Maybe<Split>)
    ensures Prefixed(front, Behind(e, r)) == Prefixed(front + [e], r)
  {
    if r.Just? {
      assert front + ([e] + r.value.elements) == front + [e] + r.value.elements;
    }
  }

  /** Is there a chunk whose length bytes are at `p`? */
  predicate Reads(body: seq<byte>, p: nat)
    requires p + 5 <= |body|
  {
    Value(body[p..p + 4]) <= INT_MAX - 5 && Value(body[p..p + 4]) <= p
  }

  /** One turn of a reading loop. */
  lemma ReadStep(body: seq<byte>, p: nat, front: seq<Element>)
    requires p + 5 <= |body|
    ensures !Reads(body, p) ==> Parse(body[..p + 5]) == Nothing
    ensures Reads(body, p) && HighBit(body[p + 4]) ==>
      (Prefixed(front, Parse(body[..p + 5]))
      == Just(Split(body[..p - Value(body[p..p + 4])], front + [Taken(body, p)])))
    ensures Reads(body, p) && !HighBit(body[p + 4]) ==>
      (Prefixed(front, Parse(body[..p + 5]))
      == Prefixed(front + [Taken(body, p)], Parse(body[..p - Value(body[p..p + 4])])))
    ensures Reads(body, p) && !HighBit(body[p + 4]) ==>
      (Parse(body[..p + 5]).Just? ==> Parse(body[..p - Value(body[p..p + 4])]).Just?)
    ensures Reads(body, p) && !HighBit(body[p + 4]) && p < Value(body[p..p + 4]) + 5 ==>
      Parse(body[..p + 5]) == Nothing
  {
    hide Value, HighBit;
    var b := body[..p + 5];
    assert b[p..p + 4] == body[p..p + 4];
    if Reads(body, p) {
      var n := Value(body[p..p + 4]);
      assert b[p - n..p] == body[p - n..p] && b[..p - n] == body[..p - n];
      if !HighBit(body[p + 4]) {
        PrefixedTwice(front, Taken(body, p), Parse(body[..p - n]));
      }
    }
  }

  /** The element whose length bytes are at `p`. */
  function Taken(body: seq<byte>, p: nat): Element
    requires p + 5 <= |body| && Value(body[p..p + 4]) <= p
  {
    Element(body[p - Value(body[p..p + 4])..p], body[p + 4] % 128)
  }

  /** Copies `src` to where `p` points and moves `p` behind it. */
  method Put(buf: array<byte>, p: nat, src: seq<byte>) returns (q: nat)
    requires p + |src| <= buf.Length
    modifies buf
    ensures q == p + |src| && buf[..q] == old(buf[..p]) + src
  {
    forall i | 0 <= i < |src| {
      buf[p + i] := src[i];
    }
    q := p + |src|;
    assert buf[..p] == old(buf[..p]);
    assert buf[p..q] == src;
    assert buf[..q] == buf[..p] + buf[p..q];
  }

  method WriteChunk(buf: array<byte>, p: nat, e: Element, last: bool) returns (q: nat)
    requires |e.data| <= INT_MAX - 5 && p + |Chunk(e, last)| <= buf.Length
    modifies buf
    ensures q == p + |Chunk(e, last)| && buf[..q] == old(buf[..p]) + Chunk(e, last)
  {
    hide BigEndian, TypeByte;
    q := Put(buf, p, e.data);
    q := Put(buf, q, BigEndian(|e.data|));
    q := Put(buf, q, [TypeByte(e.kind, last)]);
    assert buf[..q] == old(buf[..p]) + Chunk(e, last);
  }

  lemma SameSlice(whole: seq<byte>, k: nat, lo: nat, hi: nat)
    requires lo <= hi <= k <= |whole|
    ensures whole[..k][lo..hi] == whole[lo..hi]
  {
  }

  lemma NoTrailer()
    ensures Trailer([]) == []
  {
  }

  /** A packet: `size` bytes of payload in a buffer, and side data elements. */
  class Packet {
    var data: array<byte>
    var size: nat
    var sideData: seq<Element>

    constructor (data: array<byte>, size: nat, sideData: seq<Element>)
      requires size <= data.Length
      ensures Valid() && this.data == data && Payload() == data[..size] && this.sideData == sideData
    {
      this.data, this.size, this.sideData := data, size, sideData;
    }

    ghost predicate Valid()
      reads this
    {
      size <= data.Length
    }

    ghost function Payload(): seq<byte>
      requires Valid()
      reads this, data
    {
      data[..size]
    }

    /** Moves the side data behind the payload, in a new buffer. */
    method MergeSideData() returns (r: int)
      requires Valid()
      modifies this
      ensures Valid()
      ensures sideData == [] || r == EINVAL
      ensures r == 0 <==> old(sideData) == []
      ensures r == EINVAL <==>
        (old(sideData) != [] && old(size) + Room(old(sideData)) + 8 + AV_INPUT_BUFFER_PADDING_SIZE > INT_MAX)
      ensures r != 1 ==> unchanged(this)
      ensures r == 1 ==> Sized(old(sideData)) && Payload() == Merged(old(Payload()), old(sideData))
      ensures r == 1 ==> sideData == [] && fresh(data) && data[size..] == seq(AV_INPUT_BUFFER_PADDING_SIZE, _ => 0)
      ensures r in {0, 1, EINVAL}
    {
      if sideData == [] {
        return 0;
      }
      var total := size + 8 + AV_INPUT_BUFFER_PADDING_SIZE;
      var n := |sideData|;
      for i := 0 to n
        invariant total + Room(sideData[i..]) == size + 8 + AV_INPUT_BUFFER_PADDING_SIZE + Room(sideData)
      {
        total := total + |sideData[i].data| + 5;
        assert sideData[i..][1..] == sideData[i + 1..];
      }
      if total > INT_MAX {
        return EINVAL;
      }
      RoomIsEnough(sideData);
      var buf := new byte[total];
      WriteMerged(buf);
      data, size, sideData, r := buf, total - AV_INPUT_BUFFER_PADDING_SIZE, [], 1;
    }

    /** Fills the new buffer: payload, chunks from the last element to the first, marker, zeros. */
    method WriteMerged(buf: array<byte>)
      requires Valid() && buf != data && Sized(sideData)
      requires buf.Length == size + |Trailer(sideData)| + 8 + AV_INPUT_BUFFER_PADDING_SIZE
      modifies buf
      ensures buf[..buf.Length - AV_INPUT_BUFFER_PADDING_SIZE] == Merged(Payload(), sideData)
      ensures buf[buf.Length - AV_INPUT_BUFFER_PADDING_SIZE..] == seq(AV_INPUT_BUFFER_PADDING_SIZE, _ => 0)
    {
      hide Trailer;
      var p := Put(buf, 0, data[..size]);
      p := WriteChunks(buf, p);
      ghost var chunks := buf[..p];
      p := Put(buf, p, MARKER);
      assert buf[..p] == chunks + MARKER == Merged(Payload(), sideData);
      p := Put(buf, p, seq(AV_INPUT_BUFFER_PADDING_SIZE, _ => 0));
      assert buf[..p] == buf[..];
    }

    method WriteChunks(buf: array<byte>, start: nat) returns (p: nat)
      requires buf != data && Sized(sideData) && start + |Trailer(sideData)| <= buf.Length
      modifies buf
      ensures p == start + |Trailer(sideData)|
      ensures buf[..p] == old(buf[..start]) + Trailer(sideData)
    {
      hide Trailer, Chunk;
      var n := |sideData|;
      p := start;
      NoTrailer();
      assert sideData[n..] == [];
      for i := n downto 0
        invariant p == start + |Trailer(sideData[i..])| <= buf.Length
        invariant buf[..p] == old(buf[..start]) + Trailer(sideData[i..])
      {
        TrailerGrows(sideData, i);
        ghost var before := buf[..p];
        p := WriteChunk(buf, p, sideData[i], i == n - 1);
        assert buf[..p] == old(buf[..start]) + (Trailer(sideData[i + 1..]) + Chunk(sideData[i], i == n - 1));
      }
      assert sideData[0..] == sideData;
    }

    /** Takes the side data out of the bytes again. */
    method SplitSideData() returns (r: int)
      requires Valid()
      modifies this`size, this`sideData
      ensures Valid()
      ensures r == 1 <==> old(sideData) == [] && SplitOf(old(Payload())).Just?
      ensures r == 1 ==> SplitOf(old(Payload())) == Just(Split(Payload(), sideData))
      ensures r == ERANGE <==> old(sideData) == [] && Found(old(Payload())).Just? && SplitOf(old(Payload())) == Nothing
      ensures r != 1 ==> unchanged(this)
      ensures r in {0, 1, ERANGE}
    {
      if sideData != [] || size <= 12 || data[size - 8..size] != MARKER {
        return 0;
      }
      ghost var body := data[..size - 8];
      assert body == Payload()[..size - 8] && Payload()[size - 8..] == data[size - 8..size];
      var ok, i := CountChunks();
      if !ok {
        return 0;
      }
      if i > AV_PKT_DATA_NB {
        return ERANGE;
      }
      TakeChunks();
      r := 1;
    }

    /** The validating pass: how many chunks there are. */
    method CountChunks() returns (ok: bool, i: nat)
      requires Valid() && size > 12
      ensures ok <==> Parse(data[..size - 8]).Just?
      ensures ok ==> i == |Parse(data[..size - 8]).value.elements|
    {
      hide Value, HighBit, Parse;
      ghost var body := data[..size - 8];
      var p := size - 8 - 5;
      i := 1;
      ghost var front: seq<Element> := [];
      assert body[..p + 5] == body;
      PrefixedByNothing(Parse(body));
      while true
        invariant 0 <= p <= size - 8 - 5 && |front| == i - 1
        invariant Parse(body) == Prefixed(front, Parse(body[..p + 5]))
        decreases p
      {
        ReadStep(body, p, front);
        assert body[p..p + 4] == data[p..p + 4] && body[p + 4] == data[p + 4];
        var size := Value(data[p..p + 4]);
        if size > INT_MAX - 5 || p < size {
          return false, 0;
        }
        if HighBit(data[p + 4]) {
          return true, i;
        }
        if p < size + 5 {
          return false, 0;
        }
        front := front + [Taken(body, p)];
        p := p - (size + 5);
        i := i + 1;
      }
    }

    /** The copying pass: every read is in bounds because the first pass succeeded. */
    method TakeChunks()
      requires Valid() && size > 12 && Parse(data[..size - 8]).Just?
      modifies this`size, this`sideData
      ensures Valid() && Parse(old(data[..size - 8])) == Just(Split(Payload(), sideData))
    {
      hide Value, HighBit, Parse;
      ghost var body := data[..size - 8];
      var p := size - 8 - 5;
      sideData := [];
      assert body[..p + 5] == body;
      PrefixedByNothing(Parse(body));
      while true
        invariant body == data[..][..|body|]
        invariant 0 <= p && size == p + 5 + 8 && size <= old(size)
        invariant Parse(body[..p + 5]).Just? && Parse(body) == Prefixed(sideData, Parse(body[..p + 5]))
        decreases p
      {
        ReadStep(body, p, sideData);
        assert body[p..p + 4] == data[p..p + 4] && body[p + 4] == data[p + 4];
        var length := Value(data[p..p + 4]);
        SameSlice(data[..], |body|, p - length, p);
        SameSlice(data[..], |body|, 0, p - length);
        assert data[p - length..p] == body[p - length..p] && data[..p - length] == body[..p - length];
        sideData := sideData + [Element(data[p - length..p], data[p + 4] % 128)];
        size := size - (length + 5);
        if HighBit(data[p + 4]) {
          break;
        }
        p := p - (length + 5);
      }
      size := size - 8;
    }
  }

  lemma TrailerGrows(es: seq<Element>, i: nat)
    requires i < |es| && Sized(es)
    ensures Trailer(es[i..]) == Trailer(es[i + 1..]) + Chunk(es[i], i == |es| - 1)
    ensures |Trailer(es[i..])| <= |Trailer(es)|
  {
    assert es[i..][1..] == es[i + 1..];
    TrailerShrinks(es, i);
  }

  lemma {:induction false} TrailerShrinks(es: seq<Element>, i: nat)
    requires i < |es| && Sized(es)
    ensures |Trailer(es[i..])| <= |Trailer(es)|
  {
    if i > 0 {
      TrailerShrinks(es[1..], i - 1);
      assert es[1..][i - 1..] == es[i..];
    } else {
      assert es[0..] == es;
    }
  }

  /** The layout, byte by byte, for two small elements: the last one first, and marked as the first written. */
  lemma TwoElementBytes(payload: seq<byte>, d: seq<byte>, e: seq<byte>, k: byte, m: byte)
    requires |d| < 256 && |e| < 256 && k < 128 && m < 128
    ensures Merged(payload, [Element(d, k), Element(e, m)]) ==
      payload + e + [0, 0, 0, |e|, m + 0x80] + d + [0, 0, 0, |d|, k]
      + [0x8c, 0x4d, 0x9d, 0x10, 0x8e, 0x25, 0xe9, 0xfe]
  {
    var es := [Element(d, k), Element(e, m)];
    SmallChunk(es[0], false);
    SmallChunk(es[1], true);
    hide Chunk;
    assert es[1..] == [Element(e, m)] && es[1..][1..] == [] && Trailer([]) == [];
    assert Trailer(es[1..]) == Chunk(es[1], true);
    assert Trailer(es) == Chunk(es[1], true) + Chunk(es[0], false);
  }

  lemma SmallChunk(e: Element, last: bool)
    requires |e.data| < 256 && e.kind < 128
    ensures Chunk(e, last) == e.data + [0, 0, 0, |e.data|, e.kind + if last then 0x80 else 0]
  {
    assert BigEndian(|e.data|) == [0, 0, 0, |e.data|];
  }
}
