/**
 * The GeoIP context's conversion of a MaxMind DB entry-data list into Tenzir
 * values (libtenzir/builtins/contexts/geoip.cpp).
 *
 * libmaxminddb hands out an entry as a flat linked list of tagged nodes in
 * which a map or an array node declares how many children follow it. Here
 * that list is a sequence and a pointer into it is an index; the index
 * |nodes| plays the null pointer that ends the list.
 *
 * Each decoder exists twice: as a specification function (`DecodeList`,
 * `DecodeRecord`, with one function per loop) and as the method that runs
 * the source's loops over a cursor, proved to compute exactly that function.
 */
module MmdbDecoder {
  import opened Wrappers
  import opened Values

  const TwoTo64: nat := 0x1_0000_0000_0000_0000

  type uint16 = x: nat | x < 0x1_0000
  type uint32 = x: nat | x < 0x1_0000_0000
  type uint64 = x: nat | x < 0x1_0000_0000_0000_0000
  type uint128 = x: nat | x < 0x1_0000_0000_0000_0000_0000_0000_0000_0000
  type int32 = x: int | -0x8000_0000 <= x < 0x8000_0000

  /** libmaxminddb status codes as far as the model distinguishes them;
      `OtherError` stands for the library's remaining codes (I/O, memory,
      corrupt tree, metadata, address-family errors). */
  datatype Status = Success | InvalidData | InvalidNodeNumber | FileOpenError | OtherError(code: nat)

  /** One node of an entry-data list. `OtherType` stands for every tag the
      decoders do not handle (pointer, container, end marker, unknown). */
  datatype EntryData =
    | MapHeader(size: nat)
    | ArrayHeader(size: nat)
    | Utf8String(text: string)
    | Bytes(bytes: seq<nat>)
    | DoubleValue(double: FloatingPoint)
    | FloatValue(float: FloatingPoint)
    | Uint16(u16: uint16)
    | Uint32(u32: uint32)
    | Boolean(b: bool)
    | Uint64(u64: uint64)
    | Uint128(u128: uint128)
    | Int32(i32: int32)
    | OtherType(tag: nat)

  /** The result of narrowing: the 64-bit value and whether the warning about
      lost high bits is emitted. */
  datatype Narrowed = Narrowed(low: uint64, lossy: bool)

  /** `cast_128_bit_unsigned_to_64_bit`: keeps the low 64 bits and warns
      exactly when the high 64 bits are not all zero. */
  function CastTo64(v: uint128): (r: Narrowed)
    ensures (v - r.low) % TwoTo64 == 0
    ensures r.lossy <==> v >= TwoTo64
    ensures !r.lossy ==> r.low == v
  {
    var high := v / TwoTo64;
    var low := v % TwoTo64;
    Narrowed(low, high != 0)
  }

  /** The tags both decoders turn into one scalar value. */
  predicate IsScalar(e: EntryData)
  {
    !e.MapHeader? && !e.ArrayHeader? && !e.OtherType?
  }

  /** The value a scalar node decodes to: strings, byte strings, floating
      point, booleans and signed integers keep their kind, and every unsigned
      width becomes a 64-bit unsigned value. */
  function ScalarValue(e: EntryData): (d: Data)
    requires IsScalar(e)
    ensures e.Utf8String? <==> d.Str?
    ensures e.Bytes? <==> d.Blob?
    ensures (e.DoubleValue? || e.FloatValue?) <==> d.Real?
    ensures e.Boolean? <==> d.Bool?
    ensures e.Int32? <==> d.Int?
    ensures (e.Uint16? || e.Uint32? || e.Uint64? || e.Uint128?) <==> d.UInt?
    ensures d.UInt? ==> d.u < TwoTo64
  {
    match e
    case Utf8String(t) => Str(t)
    case Bytes(b) => Blob(b)
    case DoubleValue(d) => Real(d)
    case FloatValue(f) => Real(f)
    case Uint16(u) => UInt(u)
    case Uint32(u) => UInt(u)
    case Boolean(b) => Bool(b)
    case Uint64(u) => UInt(u)
    case Uint128(u) => UInt(CastTo64(u).low)
    case Int32(i) => Int(i)
  }

  /** What the list decoder leaves behind: the output list, the cursor it
      returns and the status it wrote. */
  datatype ListOut = ListOut(list: seq<Data>, next: nat, status: Status)

  /** The same for the record decoder. */
  datatype RecordOut = RecordOut(record: seq<Field>, next: nat, status: Status)

  /** The fusion step of the record decoder's map branch (`r[key] = ...`
      after decoding one pair's value into the fresh sub-record `sub`). */
  function Fuse(r: seq<Field>, k: string, sub: seq<Field>): seq<Field>
  {
    if |sub| == 1 then Assign(r, k, sub[0].value)
    else if sub != [] then Assign(r, k, Record(sub))
    else r
  }

  /** Fusing keeps the key order; a non-empty sub-record under a new key
      appends that key. */
  lemma FuseKeys(r: seq<Field>, k: string, sub: seq<Field>)
    ensures Keys(Fuse(r, k, sub)) == if sub == [] || k in Keys(r) then Keys(r) else Keys(r) + [k]
  {
    if sub != [] {
      AssignKeys(r, k, if |sub| == 1 then sub[0].value else Record(sub));
    }
  }

  /** A sub-record with one field gives its value to key `k`, an empty one
      leaves `k` as it was (absent in a fresh record), any other is stored
      whole under `k`; no other key changes. */
  lemma FuseBinds(r: seq<Field>, k: string, sub: seq<Field>)
    ensures Get(Fuse(r, k, sub), k) == if |sub| == 1 then Some(sub[0].value)
                                       else if sub == [] then Get(r, k)
                                       else Some(Record(sub))
    ensures forall k' :: k' != k ==> Get(Fuse(r, k, sub), k') == Get(r, k')
  {
    if sub != [] {
      var v := if |sub| == 1 then sub[0].value else Record(sub);
      AssignBinds(r, k, v);
      forall k' | k' != k
        ensures Get(Fuse(r, k, sub), k') == Get(r, k')
      {
        AssignKeepsOthers(r, k, v, k');
      }
    }
  }

  /** `entry_data_list_to_list`: decodes the node at `i` and appends exactly
      one value to `l`, or fails leaving `l` as it was. */
  function DecodeList(nodes: seq<EntryData>, i: nat, l: seq<Data>): (r: ListOut)
    requires i < |nodes|
    ensures i <= r.next <= |nodes|
    ensures r.status == Success || r.status == InvalidData
    ensures r.status == Success ==> i < r.next && |r.list| == |l| + 1 && r.list[..|l|] == l
    ensures r.status != Success ==> r.list == l
    decreases |nodes| - i, 0
  {
    match nodes[i]
    case MapHeader(size) =>
      var m := ListMapLoop(nodes, i + 1, size, []);
      if m.status != Success then ListOut(l, m.next, m.status)
      else ListOut(l + [Record(m.record)], m.next, Success)
    case ArrayHeader(size) =>
      var a := ArrayLoop(nodes, i + 1, size, []);
      if a.status != Success then ListOut(l, a.next, a.status)
      else ListOut(l + [List(a.list)], a.next, Success)
    case OtherType(_) => ListOut(l, i, InvalidData)
    case _ => ListOut(l + [ScalarValue(nodes[i])], i + 1, Success)
  }

  /** The element loop of both decoders' array branches: up to `size`
      elements, each decoded by the list decoder into `l`; stops quietly
      when the list ends. */
  function ArrayLoop(nodes: seq<EntryData>, j: nat, size: nat, l: seq<Data>): (r: ListOut)
    requires j <= |nodes|
    ensures j <= r.next <= |nodes|
    ensures r.status == Success || r.status == InvalidData
    decreases |nodes| - j, 1
  {
    if size == 0 || j == |nodes| then ListOut(l, j, Success)
    else
      var d := DecodeList(nodes, j, l);
      if d.status != Success then d
      else ArrayLoop(nodes, d.next, size - 1, d.list)
  }

  /** The pair loop of the list decoder's map branch. Every value is handed
      to the record decoder together with ONE shared record `acc`, so a
      map-valued field is merged into `acc` and its own key is lost. */
  function ListMapLoop(nodes: seq<EntryData>, j: nat, size: nat, acc: seq<Field>): (r: RecordOut)
    requires j <= |nodes|
    ensures j <= r.next <= |nodes|
    ensures r.status == Success || r.status == InvalidData
    decreases |nodes| - j, 1
  {
    if size == 0 || j == |nodes| then RecordOut(acc, j, Success)
    else if !nodes[j].Utf8String? then RecordOut(acc, j, InvalidData)
    else if j + 1 == |nodes| then RecordOut(acc, j + 1, Success)
    else
      var v := DecodeRecord(nodes, j + 1, acc, nodes[j].text);
      if v.status != Success then v
      else ListMapLoop(nodes, v.next, size - 1, v.record)
  }

  /** `entry_data_list_to_record`: decodes the node at `i` into `r`. A scalar
      or an array is bound to `key`; a map's pairs are fused into `r` itself
      and `key` is not used. A 128-bit value does not advance the cursor. */
  function DecodeRecord(nodes: seq<EntryData>, i: nat, r: seq<Field>, key: string): (res: RecordOut)
    requires i < |nodes|
    ensures i <= res.next <= |nodes|
    ensures res.status == Success || res.status == InvalidData
    ensures res.status == Success && res.next == i ==> nodes[i].Uint128?
    decreases |nodes| - i, 0
  {
    match nodes[i]
    case MapHeader(size) => RecordMapLoop(nodes, i + 1, size, r)
    case ArrayHeader(size) =>
      var a := ArrayLoop(nodes, i + 1, size, []);
      if a.status != Success then RecordOut(r, a.next, a.status)
      else RecordOut(Assign(r, key, List(a.list)), a.next, Success)
    case OtherType(_) => RecordOut(r, i, InvalidData)
    case Uint128(_) => RecordOut(Assign(r, key, ScalarValue(nodes[i])), i, Success)
    case _ => RecordOut(Assign(r, key, ScalarValue(nodes[i])), i + 1, Success)
  }

  /** The pair loop of the record decoder's map branch: each value is
      decoded into a fresh sub-record under its key and then fused into `r`. */
  function RecordMapLoop(nodes: seq<EntryData>, j: nat, size: nat, r: seq<Field>): (res: RecordOut)
    requires j <= |nodes|
    ensures j <= res.next <= |nodes|
    ensures res.status == Success || res.status == InvalidData
    decreases |nodes| - j, 1
  {
    if size == 0 || j == |nodes| then RecordOut(r, j, Success)
    else if !nodes[j].Utf8String? then RecordOut(r, j, InvalidData)
    else if j + 1 == |nodes| then RecordOut(r, j + 1, Success)
    else
      var k := nodes[j].text;
      var v := DecodeRecord(nodes, j + 1, [], k);
      if v.status != Success then RecordOut(r, v.next, v.status)
      else RecordMapLoop(nodes, v.next, size - 1, Fuse(r, k, v.record))
  }

  /** The list decoder as the source runs it. */
  method EntryDataListToList(nodes: seq<EntryData>, i: nat, l: seq<Data>)
    returns (l': seq<Data>, next: nat, status: Status)
    requires i < |nodes|
    ensures ListOut(l', next, status) == DecodeList(nodes, i, l)
    decreases |nodes| - i, 0
  {
    match nodes[i]
    case MapHeader(size) =>
      var subR;
      subR, next, status := DecodeSharedPairs(nodes, i + 1, size, []);
      if status != Success {
        return l, next, status;
      }
      l' := l + [Record(subR)];
    case ArrayHeader(size) =>
      var subL;
      subL, next, status := DecodeElements(nodes, i + 1, size, []);
      if status != Success {
        return l, next, status;
      }
      l' := l + [List(subL)];
    case OtherType(_) =>
      l', next, status := l, i, InvalidData;
    case _ =>
      l', next, status := l + [ScalarValue(nodes[i])], i + 1, Success;
  }

  /** The record decoder as the source runs it. */
  method EntryDataListToRecord(nodes: seq<EntryData>, i: nat, r: seq<Field>, key: string)
    returns (r': seq<Field>, next: nat, status: Status)
    requires i < |nodes|
    ensures RecordOut(r', next, status) == DecodeRecord(nodes, i, r, key)
    decreases |nodes| - i, 0
  {
    match nodes[i]
    case MapHeader(size) =>
      r', next, status := DecodeFusedPairs(nodes, i + 1, size, r);
    case ArrayHeader(size) =>
      var l;
      l, next, status := DecodeElements(nodes, i + 1, size, []);
      if status != Success {
        return r, next, status;
      }
      r' := Assign(r, key, List(l));
    case OtherType(_) =>
      r', next, status := r, i, InvalidData;
    case Uint128(_) =>
      r', next, status := Assign(r, key, ScalarValue(nodes[i])), i, Success;
    case _ =>
      r', next, status := Assign(r, key, ScalarValue(nodes[i])), i + 1, Success;
  }

  /** The element loop of an array branch, starting at the first element. */
  method DecodeElements(nodes: seq<EntryData>, j: nat, declared: nat, l: seq<Data>)
    returns (l': seq<Data>, next: nat, status: Status)
    requires j <= |nodes|
    ensures ListOut(l', next, status) == ArrayLoop(nodes, j, declared, l)
    decreases |nodes| - j, 1
  {
    var size := declared;
    l', next, status := l, j, Success;
    while size > 0 && next < |nodes|
      invariant j <= next <= |nodes|
      invariant ArrayLoop(nodes, next, size, l') == ArrayLoop(nodes, j, declared, l)
      decreases size
    {
      l', next, status := EntryDataListToList(nodes, next, l');
      if status != Success {
        return;
      }
      size := size - 1;
    }
    status := Success;
  }

  /** The pair loop of the list decoder's map branch, starting at the first key. */
  method DecodeSharedPairs(nodes: seq<EntryData>, j: nat, declared: nat, acc: seq<Field>)
    returns (acc': seq<Field>, next: nat, status: Status)
    requires j <= |nodes|
    ensures RecordOut(acc', next, status) == ListMapLoop(nodes, j, declared, acc)
    decreases |nodes| - j, 1
  {
    var size := declared;
    acc', next := acc, j;
    while size > 0 && next < |nodes|
      invariant j <= next <= |nodes|
      invariant ListMapLoop(nodes, next, size, acc') == ListMapLoop(nodes, j, declared, acc)
      decreases size
    {
      if !nodes[next].Utf8String? {
        return acc', next, InvalidData;
      }
      var key := nodes[next].text;
      next := next + 1;
      if next == |nodes| {
        break;
      }
      acc', next, status := EntryDataListToRecord(nodes, next, acc', key);
      if status != Success {
        return;
      }
      size := size - 1;
    }
    status := Success;
  }

  /** The pair loop of the record decoder's map branch, starting at the first key. */
  method DecodeFusedPairs(nodes: seq<EntryData>, j: nat, declared: nat, r: seq<Field>)
    returns (r': seq<Field>, next: nat, status: Status)
    requires j <= |nodes|
    ensures RecordOut(r', next, status) == RecordMapLoop(nodes, j, declared, r)
    decreases |nodes| - j, 1
  {
    var size := declared;
    r', next := r, j;
    while size > 0 && next < |nodes|
      invariant j <= next <= |nodes|
      invariant RecordMapLoop(nodes, next, size, r') == RecordMapLoop(nodes, j, declared, r)
      decreases size
    {
      if !nodes[next].Utf8String? {
        return r', next, InvalidData;
      }
      var subKey := nodes[next].text;
      next := next + 1;
      if next == |nodes| {
        break;
      }
      var subR;
      subR, next, status := EntryDataListToRecord(nodes, next, [], subKey);
      if status != Success {
        return;
      }
      r' := Fuse(r', subKey, subR);
      size := size - 1;
    }
    status := Success;
  }
}
