/**
 * What the two decoders make of whole entries: the round trips the lookup
 * and dump paths rely on, and the cases where the decoded value differs
 * from the stored one.
 */
module MmdbCases {
  import opened Values
  import opened MmdbDecoder
  import opened MmdbEncoding

  /** The lookup path (`apply`) decodes an entry with the record decoder
      into an empty record; an entry whose sub-maps have at least two
      entries each comes back unchanged. */
  lemma LookupRoundTrip(d: Data)
    requires Nested(d)
    ensures DecodeRecord(Encode(d), 0, [], "") == RecordOut(d.fields, |Encode(d)|, Success)
  {
    AtEnd([], Encode(d));
    assert [] + Encode(d) == Encode(d);
    DecodeNested(d, Encode(d), 0, [], "");
    AssignAllFresh([], d.fields);
    assert [] + d.fields == d.fields;
  }

  /** The dump path decodes an entry with the list decoder; an entry
      without sub-maps comes back as the single row it holds. */
  lemma DumpRoundTrip(d: Data)
    requires Flat(d)
    ensures DecodeList(Encode(d), 0, []) == ListOut([d], |Encode(d)|, Success)
  {
    AtEnd([], Encode(d));
    assert [] + Encode(d) == Encode(d);
    DecodeListOfFlat(d, Encode(d), 0, []);
  }

  /** A sub-map with a single entry is replaced by that entry's value:
      `{k: {k2: v}}` is looked up as `{k: v}`. */
  lemma SingleEntrySubMapCollapses(k: string, k2: string, v: Data)
    requires FlatField(v)
    ensures DecodeRecord(Encode(Record([Field(k, Record([Field(k2, v)]))])), 0, [], "")
         == RecordOut([Field(k, v)], 4 + |Encode(v)|, Success)
  {
    var inner := Record([Field(k2, v)]);
    var nodes := Encode(Record([Field(k, inner)]));
    EncodeNonEmpty(v);
    assert EncodeFields([Field(k2, v)]) == [Utf8String(k2)] + Encode(v) + EncodeFields([]);
    assert Encode(inner) == [MapHeader(1), Utf8String(k2)] + Encode(v);
    assert EncodeFields([Field(k, inner)]) == [Utf8String(k)] + Encode(inner) + EncodeFields([]);
    assert nodes == [MapHeader(1), Utf8String(k), MapHeader(1), Utf8String(k2)] + Encode(v);
    AtEnd([MapHeader(1), Utf8String(k), MapHeader(1), Utf8String(k2)], Encode(v));
    DecodeFlatField(v, nodes, 4, [], k2);
    assert Assign([], k2, v) == [Field(k2, v)];
    assert Fuse([], k2, [Field(k2, v)]) == [Field(k2, v)];
    assert RecordMapLoop(nodes, 3, 1, []) == RecordMapLoop(nodes, |nodes|, 0, [Field(k2, v)]);
    assert DecodeRecord(nodes, 2, [], k) == RecordOut([Field(k2, v)], |nodes|, Success);
    assert Fuse([], k, [Field(k2, v)]) == [Field(k, v)];
    assert RecordMapLoop(nodes, 1, 1, []) == RecordMapLoop(nodes, |nodes|, 0, [Field(k, v)]);
  }

  /** An empty sub-map leaves no trace: `{k: {}}` is looked up as `{}`. */
  lemma EmptySubMapVanishes(k: string)
    ensures DecodeRecord(Encode(Record([Field(k, Record([]))])), 0, [], "")
         == RecordOut([], 3, Success)
  {
    var nodes := [MapHeader(1), Utf8String(k), MapHeader(0)];
    assert Encode(Record([])) == [MapHeader(0)];
    assert EncodeFields([Field(k, Record([]))]) == [Utf8String(k), MapHeader(0)];
    assert Encode(Record([Field(k, Record([]))])) == nodes;
    assert DecodeRecord(nodes, 2, [], k) == RecordOut([], 3, Success);
  }

  /** The list decoder decodes every pair of a map into one shared record,
      so the dump row of `{k: g}` is `g` itself: the key `k` is lost. */
  lemma DumpLosesSubMapKey(k: string, g: seq<Field>)
    requires Flat(Record(g))
    ensures DecodeList(Encode(Record([Field(k, Record(g))])), 0, [])
         == ListOut([Record(g)], 3 + |EncodeFields(g)|, Success)
  {
    var nodes := SubMapNodes(k, Record(g));
    FlatFieldsAreNested(g);
    var sub := SubMapDecodes(k, g, nodes);
    assert ListMapLoop(nodes, 1, 1, []) == ListMapLoop(nodes, |nodes|, 0, g);
  }

  /** The nodes of a one-entry map `{k: v}`. */
  lemma SubMapNodes(k: string, v: Data) returns (nodes: seq<EntryData>)
    ensures nodes == Encode(Record([Field(k, v)]))
    ensures nodes == [MapHeader(1), Utf8String(k)] + Encode(v)
    ensures At(nodes, 2, Encode(v))
  {
    nodes := Encode(Record([Field(k, v)]));
    assert EncodeFields([Field(k, v)]) == [Utf8String(k)] + Encode(v) + EncodeFields([]);
    AtEnd([MapHeader(1), Utf8String(k)], Encode(v));
  }

  /** The sub-map of `{k: g}` decoded into an empty record is `g`. */
  lemma SubMapDecodes(k: string, g: seq<Field>, nodes: seq<EntryData>) returns (sub: seq<Field>)
    requires Nested(Record(g))
    requires nodes == [MapHeader(1), Utf8String(k)] + Encode(Record(g))
    requires At(nodes, 2, Encode(Record(g)))
    ensures sub == g
    ensures DecodeRecord(nodes, 2, [], k) == RecordOut(g, |nodes|, Success)
  {
    DecodeNested(Record(g), nodes, 2, [], k);
    AssignAllFresh([], g);
    assert [] + g == g;
    sub := g;
  }


  /** The record decoder does not advance past a 128-bit integer, so the
      node holding it is read again as the next key: a two-entry map whose
      first value is 128 bits wide fails to decode. */
  lemma Uint128StallsCursor(k1: string, v: uint128, k2: string, s: string)
    ensures DecodeRecord([MapHeader(2), Utf8String(k1), Uint128(v), Utf8String(k2), Utf8String(s)], 0, [], "")
         == RecordOut([Field(k1, UInt(CastTo64(v).low))], 2, InvalidData)
  {
    var nodes := [MapHeader(2), Utf8String(k1), Uint128(v), Utf8String(k2), Utf8String(s)];
    var first := [Field(k1, UInt(CastTo64(v).low))];
    assert DecodeRecord(nodes, 2, [], k1) == RecordOut(first, 2, Success);
    assert Fuse([], k1, first) == first;
    assert RecordMapLoop(nodes, 2, 1, first) == RecordOut(first, 2, InvalidData);
  }

  /** As the last entry of a map the same 128-bit integer decodes, narrowed,
      and the cursor is left on it. */
  lemma Uint128LastEntryDecodes(k: string, v: uint128)
    ensures DecodeRecord([MapHeader(1), Utf8String(k), Uint128(v)], 0, [], "")
         == RecordOut([Field(k, UInt(CastTo64(v).low))], 2, Success)
  {
    var nodes := [MapHeader(1), Utf8String(k), Uint128(v)];
    var first := [Field(k, UInt(CastTo64(v).low))];
    assert DecodeRecord(nodes, 2, [], k) == RecordOut(first, 2, Success);
    assert Fuse([], k, first) == first;
    assert RecordMapLoop(nodes, 2, 0, first) == RecordOut(first, 2, Success);
    assert DecodeRecord(nodes, 0, [], "") == RecordMapLoop(nodes, 1, 1, []);
  }

  /** At any pair of either map loop, a key that is not a string ends the
      loop with invalid data at that node; the record built so far (the
      shared record, or the one earlier pairs were fused into) is returned
      as it was at that pair. */
  lemma NonStringKeyRejected(nodes: seq<EntryData>, j: nat, size: nat, acc: seq<Field>, r: seq<Field>)
    requires size > 0 && j < |nodes| && !nodes[j].Utf8String?
    ensures ListMapLoop(nodes, j, size, acc) == RecordOut(acc, j, InvalidData)
    ensures RecordMapLoop(nodes, j, size, r) == RecordOut(r, j, InvalidData)
  {
  }

  /** A map whose first key is not a string fails both decoders, which
      report that key node and leave their output as it was. */
  lemma NonStringFirstKeyRejected(nodes: seq<EntryData>, i: nat, l: seq<Data>, r: seq<Field>, key: string)
    requires i + 1 < |nodes| && nodes[i].MapHeader? && nodes[i].size > 0
    requires !nodes[i + 1].Utf8String?
    ensures DecodeList(nodes, i, l) == ListOut(l, i + 1, InvalidData)
    ensures DecodeRecord(nodes, i, r, key) == RecordOut(r, i + 1, InvalidData)
  {
    NonStringKeyRejected(nodes, i + 1, nodes[i].size, [], r);
  }

  /** A node of a type the decoders do not know fails both, at that node. */
  lemma UnknownTypeRejected(nodes: seq<EntryData>, i: nat, l: seq<Data>, r: seq<Field>, key: string)
    requires i < |nodes| && nodes[i].OtherType?
    ensures DecodeList(nodes, i, l) == ListOut(l, i, InvalidData)
    ensures DecodeRecord(nodes, i, r, key) == RecordOut(r, i, InvalidData)
  {
  }

  /** All three loops stop quietly, with success and the output built so
      far, when the declared count is used up or the list has ended. */
  lemma LoopsStopQuietly(nodes: seq<EntryData>, j: nat, size: nat, l: seq<Data>, acc: seq<Field>, r: seq<Field>)
    requires j <= |nodes| && (size == 0 || j == |nodes|)
    ensures ArrayLoop(nodes, j, size, l) == ListOut(l, j, Success)
    ensures ListMapLoop(nodes, j, size, acc) == RecordOut(acc, j, Success)
    ensures RecordMapLoop(nodes, j, size, r) == RecordOut(r, j, Success)
  {
  }

  /** An example: an array whose declared size exceeds the nodes left is
      cut short without an error. */
  lemma ShortArrayIsNotAnError(s: string)
    ensures DecodeList([ArrayHeader(3), Utf8String(s)], 0, []) == ListOut([List([Str(s)])], 2, Success)
  {
    var nodes := [ArrayHeader(3), Utf8String(s)];
    assert DecodeList(nodes, 1, []) == ListOut([Str(s)], 2, Success);
    assert ArrayLoop(nodes, 2, 2, [Str(s)]) == ListOut([Str(s)], 2, Success);
  }
}
