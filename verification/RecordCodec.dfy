/**
 Records as bytes: a sequence of blocks, each a property id, a size of one or of four bytes, and the value.
 */
module RecordCodec {
  import opened Common

  type Byte = b: int | 0 <= b < 256 witness 0

  type Bytes = seq<Byte>

  // Numbers, lowest byte first.

  function LittleEndian(n: nat, width: nat): (bs: Bytes)
    ensures |bs| == width
  {
    if width == 0 then [] else [n % 256] + LittleEndian(n / 256, width - 1)
  }

  function Number(bs: Bytes): nat {
    if bs == [] then 0 else bs[0] + 256 * Number(bs[1..])
  }

  function Power(width: nat): nat {
    if width == 0 then 1 else 256 * Power(width - 1)
  }

  lemma {:induction false} NumberRoundTrip(n: nat, width: nat)
    requires n < Power(width)
    ensures Number(LittleEndian(n, width)) == n
  {
    if width > 0 {
      assert n / 256 < Power(width - 1);
      NumberRoundTrip(n / 256, width - 1);
      assert LittleEndian(n, width)[1..] == LittleEndian(n / 256, width - 1);
    }
  }

  lemma Powers()
    ensures Power(2) == 0x1_0000 && Power(4) == 0x1_0000_0000
  {
    assert Power(1) == 256 && Power(2) == 0x1_0000 && Power(3) == 0x100_0000;
  }

  // Blocks.

  const ID_LIMIT: nat := 0x1_0000
  const SIZE_LIMIT: nat := 0x8000_0000
  const LARGE: nat := 128

  datatype Property = Property(id: nat, value: Bytes)

  ghost predicate Encodable(p: Property) {
    p.id < ID_LIMIT && |p.value| < SIZE_LIMIT
  }

  /** The size, shifted by one bit; the lowest bit says whether it takes four bytes. */
  function Header(size: nat): Bytes {
    if size < LARGE then [size * 2] else LittleEndian(size * 2 + 1, 4)
  }

  function Block(p: Property): Bytes {
    LittleEndian(p.id, 2) + Header(|p.value|) + p.value
  }

  function Blocks(ps: seq<Property>): Bytes {
    if ps == [] then [] else Block(ps[0]) + Blocks(ps[1..])
  }

  /** `getRawDataSize`. */
  function RawDataSize(size: nat): nat {
    2 + size + if size >= LARGE then 4 else 1
  }

  lemma RawDataSizeIsExact(p: Property)
    ensures |Block(p)| == RawDataSize(|p.value|)
  {
  }

  // The buffer.

  class Blob {
    const value: array<Byte>
    var size: nat

    ghost predicate Valid()
      reads this
    {
      size <= value.Length
    }

    function Contents(): Bytes
      requires Valid()
      reads this, value
    {
      value[..size]
    }

    constructor (capacity: nat)
      ensures Valid() && Contents() == [] && value.Length == capacity && fresh(value)
    {
      value := new Byte[capacity];
      size := 0;
    }

    /** Copies the data to the end of what is there; the caller must have made room. */
    method Append(data: Bytes)
      requires Valid() && size + |data| <= value.Length
      modifies this, value
      ensures Valid() && Contents() == old(Contents()) + data
    {
      for i := 0 to |data|
        invariant size == old(size) && value[..size] == old(value[..size])
        invariant forall k :: 0 <= k < i ==> value[size + k] == data[k]
      {
        value[size + i] := data[i];
      }
      size := size + |data|;
    }
  }

  // Encoding.

  /** The bytes that all properties take together. */
  method DataSize(ps: seq<Property>) returns (size: nat)
    ensures size == |Blocks(ps)|
  {
    size := 0;
    var i := 0;
    while i < |ps|
      invariant 0 <= i <= |ps| && size + |Blocks(ps[i..])| == |Blocks(ps)|
    {
      RawDataSizeIsExact(ps[i]);
      assert ps[i..][1..] == ps[i + 1..];
      size := size + RawDataSize(|ps[i].value|);
      i := i + 1;
    }
  }

  /** A record without properties is one byte, of any value, that no decoder reads as a block. */
  function Encoding(ps: seq<Property>, filler: Byte): Bytes {
    if ps == [] then [filler] else Blocks(ps)
  }

  method AppendBlock(blob: Blob, p: Property)
    requires Encodable(p) && blob.Valid() && blob.size + |Block(p)| <= blob.value.Length
    modifies blob, blob.value
    ensures blob.Valid() && blob.Contents() == old(blob.Contents()) + Block(p)
  {
    ghost var before := blob.Contents();
    blob.Append(LittleEndian(p.id, 2));
    blob.Append(Header(|p.value|));
    blob.Append(p.value);
    Joined(before, LittleEndian(p.id, 2), Header(|p.value|), p.value);
  }

  lemma Joined(a: Bytes, b: Bytes, c: Bytes, d: Bytes)
    ensures a + b + c + d == a + (b + c + d)
  {
  }

  lemma NextBlock(done: Bytes, ps: seq<Property>, i: nat)
    requires i < |ps| && done + Blocks(ps[i..]) == Blocks(ps)
    ensures done + Block(ps[i]) + Blocks(ps[i + 1..]) == Blocks(ps)
    ensures |done| + |Block(ps[i])| <= |Blocks(ps)|
  {
    assert ps[i..][1..] == ps[i + 1..];
    assert done + (Block(ps[i]) + Blocks(ps[i + 1..])) == done + Block(ps[i]) + Blocks(ps[i + 1..]);
  }

  lemma NoBlocks(ps: seq<Property>)
    ensures |Blocks(ps)| == 0 <==> ps == []
  {
    if ps != [] {
      RawDataSizeIsExact(ps[0]);
    }
  }

  /** Writes every block; the buffer, made to the computed size, is filled exactly. */
  method Encode(ps: seq<Property>, filler: Byte) returns (blob: Blob)
    requires forall i :: 0 <= i < |ps| ==> Encodable(ps[i])
    ensures fresh(blob) && blob.Valid() && blob.Contents() == Encoding(ps, filler) && blob.size == blob.value.Length
  {
    var size := DataSize(ps);
    NoBlocks(ps);
    if size == 0 {
      blob := new Blob(1);
      blob.Append([filler]);
      return;
    }
    blob := new Blob(size);
    var i := 0;
    while i < |ps|
      invariant 0 <= i <= |ps| && fresh(blob) && fresh(blob.value) && blob.Valid() && blob.value.Length == size
      invariant blob.Contents() + Blocks(ps[i..]) == Blocks(ps)
    {
      NextBlock(blob.Contents(), ps, i);
      AppendBlock(blob, ps[i]);
      i := i + 1;
    }
    assert ps[|ps|..] == [];
  }

  // Decoding.

  datatype Decoded<N> = Record(values: map<N, Bytes>) | Unknown | OutOfRange

  /** The size field at the front of `bs`: the size it holds and how many bytes it takes. */
  function SizeField(bs: Bytes): Option<(nat, nat)> {
    if bs == [] then None
    else if bs[0] % 2 == 1 then if |bs| < 4 then None else Some((Number(bs[..4]) / 2, 4))
    else Some((bs[0] / 2, 1))
  }

  /** What the blocks hold of the properties that still have a name; later blocks win. */
  function DecodeBlocks<N>(bs: Bytes, names: map<nat, N>): Decoded<N>
    decreases |bs|
  {
    if bs == [] then Record(map[])
    else if |bs| < 2 || SizeField(bs[2..]).None? then OutOfRange
    else
      var (size, width) := SizeField(bs[2..]).value;
      var id, from := Number(bs[..2]), 2 + width;
      if id !in names then if from + size > |bs| then Record(map[]) else DecodeBlocks(bs[from + size..], names)
      else if from + size > |bs| then OutOfRange
      else
        match DecodeBlocks(bs[from + size..], names)
        case Record(rest) => Record(map[names[id] := bs[from..from + size]] + rest)
        case Unknown => Unknown
        case OutOfRange => OutOfRange
  }

  /** Too short for a block: no properties. Nothing at all: an error. */
  function DecodeAll<N>(bs: Bytes, names: map<nat, N>): Decoded<N> {
    if bs == [] then Unknown else if |bs| < 4 then Record(map[]) else DecodeBlocks(bs, names)
  }

  /** Reads `n` bytes at `offset`; `None` where the code's own check fails. */
  function Retrieve(bs: Bytes, offset: nat, n: nat): Option<Bytes> {
    if offset + n <= |bs| then Some(bs[offset..offset + n]) else None
  }

  /** What one round of the loop does: stop with a result, or go on with more values at a later offset. */
  datatype Round<N> = Stop(result: Decoded<N>) | Next(values: map<N, Bytes>, offset: nat)

  function ReadBlock<N>(bs: Bytes, offset: nat, names: map<nat, N>, values: map<N, Bytes>): Round<N>
    requires offset <= |bs|
  {
    var id := Retrieve(bs, offset, 2);
    if id.None? then Stop(OutOfRange)
    else
      var field := SizeField(bs[offset + 2..]);
      if field.None? then Stop(OutOfRange)
      else
        var (size, width) := field.value;
        var from := offset + 2 + width;
        if Number(id.value) in names then
          var data := Retrieve(bs, from, size);
          if data.None? then Stop(OutOfRange) else Next(values[names[Number(id.value)] := data.value], from + size)
        else if from + size > |bs| then Stop(Record(values))
        else Next(values, from + size)
  }

  lemma SliceOfRest(bs: Bytes, offset: nat, from: nat, to: nat)
    requires offset <= |bs| && from <= to <= |bs| - offset
    ensures bs[offset..][from..to] == bs[offset + from..offset + to] && bs[offset..][to..] == bs[offset + to..]
  {
  }

  /** What one round does, told from the bytes at the offset. */
  lemma ReadBlockIs<N>(bs: Bytes, offset: nat, names: map<nat, N>, values: map<N, Bytes>, rest: Bytes, size: nat,
                       width: nat)
    requires offset < |bs| && rest == bs[offset..] && |rest| >= 2 && SizeField(rest[2..]) == Some((size, width))
    ensures var id, from := Number(rest[..2]), 2 + width;
            ReadBlock(bs, offset, names, values) ==
              if from + size > |rest| then Stop(if id in names then OutOfRange else Record(values))
              else Next(if id in names then values[names[id] := rest[from..from + size]] else values,
                        offset + (from + size))
  {
    SliceOfRest(bs, offset, 0, 2);
    if 2 + width + size <= |rest| {
      SliceOfRest(bs, offset, 2 + width, 2 + width + size);
    }
  }

  /** A round does with the buffer at an offset what decoding does with the rest of the bytes. */
  lemma ReadBlockMeans<N>(bs: Bytes, offset: nat, names: map<nat, N>, values: map<N, Bytes>)
    requires offset < |bs|
    ensures var round := ReadBlock(bs, offset, names, values);
            var whole := WithRest(values, DecodeBlocks(bs[offset..], names));
            if round.Stop? then round.result == whole
            else offset < round.offset <= |bs|
                 && WithRest(round.values, DecodeBlocks(bs[round.offset..], names)) == whole
  {
    var rest := bs[offset..];
    if |rest| >= 2 {
      SliceOfRest(bs, offset, 0, 2);
      var field := SizeField(rest[2..]);
      if field.Some? {
        var (size, width) := field.value;
        ReadBlockIs(bs, offset, names, values, rest, size, width);
        if 2 + width + size <= |rest| {
          SliceOfRest(bs, offset, 2 + width, 2 + width + size);
          if Number(rest[..2]) in names {
            KnownBlock(rest, names, size, width, values);
          }
        }
      }
    }
  }

  /** The loop: offsets move through the buffer and a map is filled. */
  method Decode<N>(bs: Bytes, names: map<nat, N>) returns (result: Decoded<N>)
    ensures result == DecodeAll(bs, names)
  {
    if |bs| == 0 {
      return Unknown;
    }
    if |bs| < 4 {
      return Record(map[]);
    }
    var offset, values: map<N, Bytes> := 0, map[];
    while offset < |bs|
      invariant 0 <= offset <= |bs|
      invariant WithRest(values, DecodeBlocks(bs[offset..], names)) == DecodeBlocks(bs, names)
      decreases |bs| - offset
    {
      ReadBlockMeans(bs, offset, names, values);
      match ReadBlock(bs, offset, names, values)
      case Stop(stopped) => return stopped;
      case Next(more, next) => values, offset := more, next;
    }
    return Record(values);
  }

  /** What has been decoded, completed by what is still to come. */
  function WithRest<N>(values: map<N, Bytes>, rest: Decoded<N>): Decoded<N> {
    match rest
    case Record(more) => Record(values + more)
    case Unknown => Unknown
    case OutOfRange => OutOfRange
  }

  /** A block of a known property adds its value to what precedes it. */
  lemma KnownBlock<N>(bs: Bytes, names: map<nat, N>, size: nat, width: nat, values: map<N, Bytes>)
    requires |bs| >= 2 && SizeField(bs[2..]) == Some((size, width)) && Number(bs[..2]) in names
    requires 2 + width + size <= |bs|
    ensures var from := 2 + width;
            WithRest(values, DecodeBlocks(bs, names)) ==
            WithRest(values[names[Number(bs[..2])] := bs[from..from + size]], DecodeBlocks(bs[from + size..], names))
  {
    var from, name := 2 + width, names[Number(bs[..2])];
    match DecodeBlocks(bs[from + size..], names)
    case Record(more) =>
      assert values + (map[name := bs[from..from + size]] + more) == values[name := bs[from..from + size]] + more;
    case _ =>
  }

  // A block is decoded to what it was made of.

  lemma HeaderDecodes(size: nat, rest: Bytes)
    requires size < SIZE_LIMIT
    ensures SizeField(Header(size) + rest) == Some((size, |Header(size)|))
  {
    var bs := Header(size) + rest;
    if size >= LARGE {
      Powers();
      NumberRoundTrip(size * 2 + 1, 4);
      assert bs[..4] == LittleEndian(size * 2 + 1, 4);
      assert bs[0] == (size * 2 + 1) % 256;
    }
  }

  lemma BlockParts(p: Property, rest: Bytes)
    requires Encodable(p)
    ensures var bs, from := Block(p) + rest, 2 + |Header(|p.value|)|;
            && |bs| >= from + |p.value| && bs[..2] == LittleEndian(p.id, 2)
            && bs[2..] == Header(|p.value|) + (p.value + rest)
            && bs[from..from + |p.value|] == p.value && bs[from + |p.value|..] == rest
  {
  }

  lemma BlockDecodes<N>(p: Property, rest: Bytes, names: map<nat, N>)
    requires Encodable(p)
    ensures DecodeBlocks(Block(p) + rest, names) ==
              if p.id in names then WithRest(map[names[p.id] := p.value], DecodeBlocks(rest, names))
              else DecodeBlocks(rest, names)
  {
    BlockParts(p, rest);
    HeaderDecodes(|p.value|, p.value + rest);
    Powers();
    NumberRoundTrip(p.id, 2);
  }

  // Records.

  type Values<N> = map<N, Bytes>

  /** What `get` returns: a property that is not set is empty. */
  function Get<N>(values: Values<N>, name: N): Bytes {
    if name in values then values[name] else []
  }

  /** The properties of a record, in the order given, under the ids of the schema. */
  function PropertiesOf<N(!new)>(order: seq<N>, ids: map<N, nat>, values: Values<N>): (ps: seq<Property>)
    requires forall n :: n in order ==> n in ids && n in values
    ensures |ps| == |order| && forall i :: 0 <= i < |ps| ==> ps[i] == Property(ids[order[i]], values[order[i]])
  {
    if order == [] then []
    else [Property(ids[order[0]], values[order[0]])] + PropertiesOf(order[1..], ids, values)
  }

  /** A schema to decode with: any part of the one used to encode. */
  ghost predicate Agree<N(!new)>(ids: map<N, nat>, names: map<nat, N>) {
    forall n :: n in ids && ids[n] in names ==> names[ids[n]] == n
  }

  ghost predicate Distinct<N>(order: seq<N>) {
    forall i, j :: 0 <= i < j < |order| ==> order[i] != order[j]
  }

  /** What is left of a record under a schema. */
  ghost function Restricted<N(!new)>(order: seq<N>, ids: map<N, nat>, values: Values<N>, names: map<nat, N>): Values<N>
    requires forall n :: n in order ==> n in ids && n in values
  {
    map n | n in order && ids[n] in names :: values[n]
  }

  ghost predicate EncodableRecord<N(!new)>(order: seq<N>, ids: map<N, nat>, values: Values<N>) {
    && (forall n :: n in order ==> n in ids && n in values && ids[n] < ID_LIMIT && |values[n]| < SIZE_LIMIT)
    && Distinct(order)
  }

  lemma RestrictedStep<N(!new)>(order: seq<N>, ids: map<N, nat>, values: Values<N>, names: map<nat, N>)
    requires order != [] && EncodableRecord(order, ids, values)
    ensures EncodableRecord(order[1..], ids, values)
    ensures Restricted(order, ids, values, names) ==
              (if ids[order[0]] in names then map[order[0] := values[order[0]]] else map[])
              + Restricted(order[1..], ids, values, names)
  {
    var first, rest := order[0], order[1..];
    assert order == [first] + rest;
    forall n ensures n in order <==> n == first || n in rest {
    }
    assert first !in rest;
  }

  lemma BlocksStep<N(!new)>(order: seq<N>, ids: map<N, nat>, values: Values<N>)
    requires order != [] && forall n :: n in order ==> n in ids && n in values
    ensures Blocks(PropertiesOf(order, ids, values)) ==
              Block(Property(ids[order[0]], values[order[0]])) + Blocks(PropertiesOf(order[1..], ids, values))
  {
    var ps := PropertiesOf(order, ids, values);
    assert ps[1..] == PropertiesOf(order[1..], ids, values);
  }

  /** The value at the front joins what the rest decodes to. */
  lemma RestrictedJoins<N(!new)>(order: seq<N>, ids: map<N, nat>, values: Values<N>, names: map<nat, N>,
                                 rest: Decoded<N>)
    requires order != [] && EncodableRecord(order, ids, values) && Agree(ids, names)
    requires EncodableRecord(order[1..], ids, values) && rest == Record(Restricted(order[1..], ids, values, names))
    ensures Record(Restricted(order, ids, values, names)) ==
              if ids[order[0]] in names then WithRest(map[names[ids[order[0]]] := values[order[0]]], rest) else rest
  {
    RestrictedStep(order, ids, values, names);
    assert map[] + Restricted(order[1..], ids, values, names) == Restricted(order[1..], ids, values, names);
  }

  lemma {:induction false} BlocksRoundTrip<N(!new)>(order: seq<N>, ids: map<N, nat>, values: Values<N>,
                                                    names: map<nat, N>)
    requires EncodableRecord(order, ids, values) && Agree(ids, names)
    ensures DecodeBlocks(Blocks(PropertiesOf(order, ids, values)), names)
            == Record(Restricted(order, ids, values, names))
  {
    if order == [] {
      assert Restricted(order, ids, values, names) == map[];
    } else {
      RestrictedStep(order, ids, values, names);
      BlocksRoundTrip(order[1..], ids, values, names);
      var rest := Blocks(PropertiesOf(order[1..], ids, values));
      BlocksStep(order, ids, values);
      BlockDecodes(Property(ids[order[0]], values[order[0]]), rest, names);
      RestrictedJoins(order, ids, values, names, DecodeBlocks(rest, names));
    }
  }

  lemma {:induction false} BlocksHold(ps: seq<Property>, i: nat)
    requires i < |ps|
    ensures |Blocks(ps)| >= RawDataSize(|ps[i].value|)
  {
    RawDataSizeIsExact(ps[0]);
    if i > 0 {
      BlocksHold(ps[1..], i - 1);
    }
  }

  /** Fewer than four bytes are at most one property, and that one is empty. */
  lemma ShortRecord<N(!new)>(order: seq<N>, ids: map<N, nat>, values: Values<N>, n: N)
    requires EncodableRecord(order, ids, values) && |Blocks(PropertiesOf(order, ids, values))| < 4 && n in order
    ensures values[n] == []
  {
    var i :| 0 <= i < |order| && order[i] == n;
    BlocksHold(PropertiesOf(order, ids, values), i);
  }

  /**
   Whatever is encoded comes back: for every property that the decoding schema still has, the same bytes; for every
   other, nothing; for any sizes, empty or either side of the switch from one to four bytes.
   */
  lemma RecordRoundTrip<N(!new)>(order: seq<N>, ids: map<N, nat>, values: Values<N>, names: map<nat, N>,
                        filler: Byte, n: N)
    requires EncodableRecord(order, ids, values) && Agree(ids, names)
    ensures var result := DecodeAll(Encoding(PropertiesOf(order, ids, values), filler), names);
            result.Record? && Get(result.values, n) == if n in order && ids[n] in names then values[n] else []
  {
    var ps := PropertiesOf(order, ids, values);
    BlocksRoundTrip(order, ids, values, names);
    NoBlocks(ps);
    if n in order && |Blocks(ps)| < 4 {
      ShortRecord(order, ids, values, n);
    }
  }

  // Choosing what to encode.

  /** Names that begin with '@' are kept by the database itself; only the two versions are stored with the record. */
  predicate Stored(name: string) {
    name == [] || name[0] != '@' || name == "@version" || name == "@txnVersion"
  }

  datatype ParseResult = Parsed(blob: Blob) | NoSuchProperty

  /** Encodes a record under a schema; a property that the schema does not have is an error. */
  method ParseRecord(values: Values<string>, ids: map<string, nat>, filler: Byte)
    returns (result: ParseResult, ghost order: seq<string>)
    requires forall n :: n in ids ==> ids[n] < ID_LIMIT
    requires forall n :: n in values ==> |values[n]| < SIZE_LIMIT
    ensures result.NoSuchProperty? <==> exists n :: n in values && n !in ids
    ensures result.Parsed? ==>
              && Taken(order, ids, values)
              && result.blob.Valid() && result.blob.size == result.blob.value.Length
              && result.blob.Contents() == Encoding(PropertiesOf(order, ids, values), filler)
  {
    order := [];
    var names := [];
    var todo := values.Keys;
    while todo != {}
      invariant todo <= values.Keys && Distinct(names)
      invariant forall n :: n in names ==> n in values && n in ids && n !in todo
      invariant forall n :: n in values && n !in todo ==> n in ids && (Stored(n) <==> n in names)
      decreases |todo|
    {
      var n :| n in todo;
      if n !in ids {
        return NoSuchProperty, [];
      }
      if Stored(n) {
        names := names + [n];
      }
      todo := todo - {n};
    }
    var blob := Encode(PropertiesOf(names, ids, values), filler);
    return Parsed(blob), names;
  }

  /** The order in which `ParseRecord` takes the properties of a record. */
  ghost predicate Taken(order: seq<string>, ids: map<string, nat>, values: Values<string>) {
    EncodableRecord(order, ids, values) && forall n :: n in order <==> n in values && Stored(n)
  }

  /** What is under `n` is still there after encoding and decoding; a property that was not set is empty. */
  ghost predicate ReadsBack(order: seq<string>, ids: map<string, nat>, values: Values<string>, names: map<nat, string>,
                            filler: Byte, n: string)
    requires Taken(order, ids, values)
  {
    var result := DecodeAll(Encoding(PropertiesOf(order, ids, values), filler), names);
    result.Record? && Get(result.values, n) == Get(values, n)
  }

  /**
   What `ParseRecord` wrote is read back under the same name, as long as the schema has the name: the user's properties
   and the two versions. Anything else the database keeps under a name that begins with '@' reads as empty.
   */
  lemma ParsedReadsBack(order: seq<string>, ids: map<string, nat>, values: Values<string>, names: map<nat, string>,
                        filler: Byte, n: string)
    requires Taken(order, ids, values) && Agree(ids, names)
    requires forall k :: k in ids ==> ids[k] in names
    requires forall k :: k in values ==> k in ids
    ensures ReadsBack(order, ids, values, names, filler, "@version")
    ensures ReadsBack(order, ids, values, names, filler, "@txnVersion")
    ensures n == [] || n[0] != '@' ==> ReadsBack(order, ids, values, names, filler, n)
    ensures n != [] && n[0] == '@' && n != "@version" && n != "@txnVersion" ==>
              (ReadsBack(order, ids, values, names, filler, n) <==> Get(values, n) == [])
  {
    RecordRoundTrip(order, ids, values, names, filler, "@version");
    RecordRoundTrip(order, ids, values, names, filler, "@txnVersion");
    RecordRoundTrip(order, ids, values, names, filler, n);
  }
}
