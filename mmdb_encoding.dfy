/**
 * Properties of the entry-data decoders, stated against an encoder that
 * writes a value the way a MaxMind DB entry-data list lays it out: a map
 * or array node declaring its child count, followed by the children.
 */
module MmdbEncoding {
  import opened Wrappers
  import opened Values
  import opened MmdbDecoder

  function Encode(d: Data): seq<EntryData>
    decreases d
  {
    match d
    case Null => []
    case Bool(b) => [Boolean(b)]
    case Int(i) => if -0x8000_0000 <= i < 0x8000_0000 then [Int32(i)] else []
    case UInt(u) => if u < TwoTo64 then [Uint64(u)] else []
    case Real(x) => [DoubleValue(x)]
    case Str(s) => [Utf8String(s)]
    case Blob(b) => [Bytes(b)]
    case List(items) => [ArrayHeader(|items|)] + EncodeItems(items)
    case Record(fields) => [MapHeader(|fields|)] + EncodeFields(fields)
  }

  function EncodeItems(items: seq<Data>): seq<EntryData>
    decreases items
  {
    if items == [] then [] else Encode(items[0]) + EncodeItems(items[1..])
  }

  function EncodeFields(fields: seq<Field>): seq<EntryData>
    decreases fields
  {
    if fields == [] then []
    else [Utf8String(fields[0].key)] + Encode(fields[0].value) + EncodeFields(fields[1..])
  }

  /** A scalar the database can hold. */
  predicate Scalar(d: Data)
  {
    || d.Bool? || d.Real? || d.Str? || d.Blob?
    || (d.Int? && -0x8000_0000 <= d.i < 0x8000_0000)
    || (d.UInt? && d.u < TwoTo64)
  }

  /** Values whose records hold no records: lists nest freely, a record's
      fields are scalars or lists. */
  predicate Flat(d: Data)
    decreases d, 1
  {
    || Scalar(d)
    || (d.List? && FlatItems(d.items))
    || (d.Record? && UniqueKeys(d.fields) && FlatFields(d.fields))
  }

  predicate FlatItems(items: seq<Data>)
    decreases items
  {
    items == [] || (Flat(items[0]) && FlatItems(items[1..]))
  }

  predicate FlatFields(fields: seq<Field>)
    decreases fields
  {
    fields == [] || (FlatField(fields[0].value) && FlatFields(fields[1..]))
  }

  /** A record field that the record decoder binds to its own key. */
  predicate FlatField(v: Data)
    decreases v, 2
  {
    !v.Record? && Flat(v)
  }

  /** Records whose nested records have at least two fields each. */
  predicate Nested(d: Data)
    decreases d, 1
  {
    d.Record? && UniqueKeys(d.fields) && NestedFields(d.fields)
  }

  predicate NestedFields(fields: seq<Field>)
    decreases fields
  {
    fields == [] || (NestedField(fields[0].value) && NestedFields(fields[1..]))
  }

  predicate NestedField(v: Data)
    decreases v, 2
  {
    FlatField(v) || (Nested(v) && |v.fields| >= 2)
  }

  lemma {:induction false} FlatFieldsAreNested(fields: seq<Field>)
    requires FlatFields(fields)
    ensures NestedFields(fields)
  {
    if fields != [] {
      FlatFieldsAreNested(fields[1..]);
    }
  }

  /** Every field of `fs` assigned into `r` in turn. */
  function AssignAll(r: seq<Field>, fs: seq<Field>): seq<Field>
    decreases |fs|
  {
    if fs == [] then r else AssignAll(Assign(r, fs[0].key, fs[0].value), fs[1..])
  }

  lemma {:induction false} KeysAt(r: seq<Field>, i: nat)
    requires i < |r|
    ensures Keys(r)[i] == r[i].key
  {
    if i > 0 {
      KeysAt(r[1..], i - 1);
    }
  }

  lemma {:induction false} KeysAppend(r: seq<Field>, f: Field)
    ensures Keys(r + [f]) == Keys(r) + [f.key]
  {
    if r != [] {
      assert (r + [f])[1..] == r[1..] + [f];
      KeysAppend(r[1..], f);
    }
  }

  lemma {:induction false} AssignFresh(r: seq<Field>, k: string, v: Data)
    requires k !in Keys(r)
    ensures Assign(r, k, v) == r + [Field(k, v)]
  {
    if r != [] {
      AssignFresh(r[1..], k, v);
    }
  }

  /** Assigning fields with distinct, new keys appends them in order. */
  lemma {:induction false} AssignAllFresh(r: seq<Field>, fs: seq<Field>)
    requires UniqueKeys(fs)
    requires forall i :: 0 <= i < |fs| ==> fs[i].key !in Keys(r)
    ensures AssignAll(r, fs) == r + fs
    decreases |fs|
  {
    if fs != [] {
      FreshTail(r, fs);
      AssignAllFresh(r + [fs[0]], fs[1..]);
      AssignAllCons(r, fs);
      AssignFresh(r, fs[0].key, fs[0].value);
      AppendCons(r, fs);
    }
  }

  lemma AssignAllCons(r: seq<Field>, fs: seq<Field>)
    requires fs != []
    ensures AssignAll(r, fs) == AssignAll(Assign(r, fs[0].key, fs[0].value), fs[1..])
  {
  }

  lemma AppendCons<T>(r: seq<T>, s: seq<T>)
    requires s != []
    ensures (r + [s[0]]) + s[1..] == r + s
  {
    assert [s[0]] + s[1..] == s;
  }

  lemma FreshTail(r: seq<Field>, fs: seq<Field>)
    requires UniqueKeys(fs) && fs != []
    requires forall i :: 0 <= i < |fs| ==> fs[i].key !in Keys(r)
    ensures UniqueKeys(fs[1..])
    ensures forall i :: 0 <= i < |fs| - 1 ==> fs[1..][i].key !in Keys(r + [fs[0]])
  {
    KeysAppend(r, fs[0]);
    forall i | 0 <= i < |fs| - 1
      ensures fs[1..][i].key !in Keys(r + [fs[0]])
    {
      KeysAt(fs[1..], i);
      assert fs[1..][i].key in Keys(fs[1..]);
      assert fs[1..][i] == fs[i + 1];
    }
  }

  lemma {:induction false} EncodeNonEmpty(d: Data)
    requires Flat(d) || Nested(d)
    ensures |Encode(d)| > 0
  {
  }

  /** The run `run` of nodes sits at position `j` of `nodes`. */
  predicate At(nodes: seq<EntryData>, j: nat, run: seq<EntryData>)
  {
    j + |run| <= |nodes| && RunAt(nodes, j, run)
  }

  predicate RunAt(nodes: seq<EntryData>, j: nat, run: seq<EntryData>)
    decreases run
  {
    run == [] || (j < |nodes| && nodes[j] == run[0] && RunAt(nodes, j + 1, run[1..]))
  }

  lemma {:induction false} RunAtSplit(nodes: seq<EntryData>, j: nat, a: seq<EntryData>, b: seq<EntryData>)
    requires RunAt(nodes, j, a + b)
    ensures RunAt(nodes, j, a) && RunAt(nodes, j + |a|, b)
    decreases a
  {
    if a == [] {
      assert a + b == b;
    } else {
      assert (a + b)[1..] == a[1..] + b;
      RunAtSplit(nodes, j + 1, a[1..], b);
    }
  }

  lemma AtSplit(nodes: seq<EntryData>, j: nat, a: seq<EntryData>, b: seq<EntryData>)
    requires At(nodes, j, a + b)
    ensures At(nodes, j, a) && At(nodes, j + |a|, b)
  {
    RunAtSplit(nodes, j, a, b);
  }

  /** A sequence holds its own suffixes. */
  lemma {:induction false} RunAtSuffix(nodes: seq<EntryData>, j: nat)
    requires j <= |nodes|
    ensures RunAt(nodes, j, nodes[j..])
    decreases |nodes| - j
  {
    if j < |nodes| {
      assert nodes[j..][1..] == nodes[j + 1..];
      RunAtSuffix(nodes, j + 1);
    }
  }

  lemma AtEnd(a: seq<EntryData>, b: seq<EntryData>)
    ensures At(a + b, |a|, b)
  {
    RunAtSuffix(a + b, |a|);
    assert (a + b)[|a|..] == b;
  }

  lemma AtPair(nodes: seq<EntryData>, j: nat, f: Field)
    requires At(nodes, j, [Utf8String(f.key)] + Encode(f.value))
    ensures j + 1 < |nodes| || Encode(f.value) == []
    ensures j < |nodes| && nodes[j] == Utf8String(f.key)
    ensures At(nodes, j + 1, Encode(f.value))
  {
    AtSplit(nodes, j, [Utf8String(f.key)], Encode(f.value));
  }

  /** The list decoder reads back the value the encoder wrote, whatever
      surrounds it, and stops right behind it. */
  lemma {:induction false} DecodeListOfFlat(d: Data, nodes: seq<EntryData>, i: nat, l: seq<Data>)
    requires Flat(d) && At(nodes, i, Encode(d))
    ensures i < |nodes|
    ensures DecodeList(nodes, i, l) == ListOut(l + [d], i + |Encode(d)|, Success)
    decreases d, 2
  {
    if d.List? {
      DecodeListOfList(d.items, nodes, i, l);
    } else if d.Record? {
      DecodeListOfRecord(d.fields, nodes, i, l);
    } else {
      ScalarNode(d);
      assert nodes[i] == Encode(d)[0];
    }
  }

  lemma {:induction false} DecodeListOfList(items: seq<Data>, nodes: seq<EntryData>, i: nat, l: seq<Data>)
    requires FlatItems(items)
    requires At(nodes, i, Encode(List(items)))
    ensures i < |nodes|
    ensures DecodeList(nodes, i, l) == ListOut(l + [List(items)], i + |Encode(List(items))|, Success)
    decreases List(items), 1
  {
    AtSplit(nodes, i, [ArrayHeader(|items|)], EncodeItems(items));
    DecodeItems(items, nodes, i + 1, []);
    assert [] + items == items;
  }

  lemma {:induction false} DecodeListOfRecord(fields: seq<Field>, nodes: seq<EntryData>, i: nat, l: seq<Data>)
    requires Flat(Record(fields))
    requires At(nodes, i, Encode(Record(fields)))
    ensures i < |nodes|
    ensures DecodeList(nodes, i, l) == ListOut(l + [Record(fields)], i + |Encode(Record(fields))|, Success)
    decreases Record(fields), 1
  {
    AtSplit(nodes, i, [MapHeader(|fields|)], EncodeFields(fields));
    DecodeSharedFields(fields, nodes, i + 1, []);
    AssignAllFresh([], fields);
    assert [] + fields == fields;
  }

  lemma {:induction false} DecodeItems(items: seq<Data>, nodes: seq<EntryData>, j: nat, l: seq<Data>)
    requires FlatItems(items)
    requires At(nodes, j, EncodeItems(items))
    ensures ArrayLoop(nodes, j, |items|, l) == ListOut(l + items, j + |EncodeItems(items)|, Success)
    decreases items, 3
  {
    if items != [] {
      var n := ItemStep(items, nodes, j, l);
      DecodeItems(items[1..], nodes, n, l + [items[0]]);
      AppendCons(l, items);
    }
  }

  /** One turn of the array loop over an encoded element. */
  lemma ItemStep(items: seq<Data>, nodes: seq<EntryData>, j: nat, l: seq<Data>) returns (n: nat)
    requires items != [] && FlatItems(items)
    requires At(nodes, j, EncodeItems(items))
    ensures At(nodes, n, EncodeItems(items[1..]))
    ensures j + |EncodeItems(items)| == n + |EncodeItems(items[1..])|
    ensures ArrayLoop(nodes, j, |items|, l) == ArrayLoop(nodes, n, |items| - 1, l + [items[0]])
    decreases items, 2
  {
    var e := Encode(items[0]);
    AtSplit(nodes, j, e, EncodeItems(items[1..]));
    DecodeListOfFlat(items[0], nodes, j, l);
    n := j + |e|;
    ArrayLoopStep(nodes, j, |items|, l, l + [items[0]], n);
  }

  /** A scalar is written as one node that decodes back to it. */
  lemma ScalarNode(d: Data)
    requires Scalar(d)
    ensures |Encode(d)| == 1
    ensures IsScalar(Encode(d)[0]) && !Encode(d)[0].Uint128?
    ensures ScalarValue(Encode(d)[0]) == d
  {
  }

  /** The record decoder binds a flat non-record value to its key. */
  lemma {:induction false} DecodeFlatField(d: Data, nodes: seq<EntryData>, i: nat, r: seq<Field>, key: string)
    requires FlatField(d) && At(nodes, i, Encode(d))
    ensures i < |nodes|
    ensures DecodeRecord(nodes, i, r, key) == RecordOut(Assign(r, key, d), i + |Encode(d)|, Success)
    decreases d, 3
  {
    if d.List? {
      DecodeListField(d.items, nodes, i, r, key);
    } else {
      ScalarNode(d);
      assert nodes[i] == Encode(d)[0];
    }
  }

  lemma {:induction false} DecodeListField(items: seq<Data>, nodes: seq<EntryData>, i: nat, r: seq<Field>, key: string)
    requires FlatItems(items) && At(nodes, i, Encode(List(items)))
    ensures i < |nodes|
    ensures DecodeRecord(nodes, i, r, key)
         == RecordOut(Assign(r, key, List(items)), i + |Encode(List(items))|, Success)
    decreases List(items), 2
  {
    AtSplit(nodes, i, [ArrayHeader(|items|)], EncodeItems(items));
    DecodeItems(items, nodes, i + 1, []);
    assert [] + items == items;
  }

  /** The list decoder's pair loop assigns every pair into the shared record. */
  lemma {:induction false} DecodeSharedFields(fields: seq<Field>, nodes: seq<EntryData>, j: nat, acc: seq<Field>)
    requires FlatFields(fields)
    requires At(nodes, j, EncodeFields(fields))
    ensures ListMapLoop(nodes, j, |fields|, acc)
         == RecordOut(AssignAll(acc, fields), j + |EncodeFields(fields)|, Success)
    decreases fields, 3
  {
    if fields != [] {
      var f := fields[0];
      var n := PairStep(fields, nodes, j);
      SharedPair(f, nodes, j, acc, |fields|, n);
      var acc' := Assign(acc, f.key, f.value);
      AssignAllCons(acc, fields);
      DecodeSharedFields(fields[1..], nodes, n, acc');
    }
  }

  /** The first pair of an encoded field list and where the rest begins. */
  lemma PairStep(fields: seq<Field>, nodes: seq<EntryData>, j: nat) returns (n: nat)
    requires fields != [] && At(nodes, j, EncodeFields(fields))
    ensures n == j + 1 + |Encode(fields[0].value)|
    ensures At(nodes, j, [Utf8String(fields[0].key)] + Encode(fields[0].value))
    ensures At(nodes, n, EncodeFields(fields[1..]))
    ensures j + |EncodeFields(fields)| == n + |EncodeFields(fields[1..])|
  {
    var pair := [Utf8String(fields[0].key)] + Encode(fields[0].value);
    assert EncodeFields(fields) == pair + EncodeFields(fields[1..]);
    AtSplit(nodes, j, pair, EncodeFields(fields[1..]));
    n := j + 1 + |Encode(fields[0].value)|;
  }

  /** One turn of the list decoder's pair loop over an encoded pair that
      ends at `n`. */
  lemma SharedPair(f: Field, nodes: seq<EntryData>, j: nat, acc: seq<Field>, size: nat, n: nat)
    requires FlatField(f.value) && size > 0
    requires At(nodes, j, [Utf8String(f.key)] + Encode(f.value))
    requires n == j + 1 + |Encode(f.value)|
    ensures n <= |nodes|
    ensures ListMapLoop(nodes, j, size, acc) == ListMapLoop(nodes, n, size - 1, Assign(acc, f.key, f.value))
    decreases f.value, 5
  {
    SharedValue(f, nodes, j, acc);
    ListMapLoopStep(nodes, j, size, acc, f.key, Assign(acc, f.key, f.value), n);
  }


  /** The record decoder reads back a record whose nested records have at
      least two fields: every field lands under its own key in `r`. */
  lemma {:induction false} DecodeNested(d: Data, nodes: seq<EntryData>, i: nat, r: seq<Field>, key: string)
    requires Nested(d) && At(nodes, i, Encode(d))
    ensures i < |nodes|
    ensures DecodeRecord(nodes, i, r, key)
         == RecordOut(AssignAll(r, d.fields), i + |Encode(d)|, Success)
    decreases d, 2
  {
    AtSplit(nodes, i, [MapHeader(|d.fields|)], EncodeFields(d.fields));
    DecodeFusedFields(d.fields, nodes, i + 1, r);
  }

  lemma {:induction false} DecodeFusedFields(fields: seq<Field>, nodes: seq<EntryData>, j: nat, r: seq<Field>)
    requires NestedFields(fields)
    requires At(nodes, j, EncodeFields(fields))
    ensures RecordMapLoop(nodes, j, |fields|, r)
         == RecordOut(AssignAll(r, fields), j + |EncodeFields(fields)|, Success)
    decreases fields, 3
  {
    if fields != [] {
      var f := fields[0];
      var n := PairStep(fields, nodes, j);
      FusedPair(f, nodes, j, r, |fields|, n);
      var r' := Assign(r, f.key, f.value);
      AssignAllCons(r, fields);
      DecodeFusedFields(fields[1..], nodes, n, r');
    }
  }

  /** One turn of the record decoder's pair loop over an encoded pair that
      ends at `n`. */
  lemma FusedPair(f: Field, nodes: seq<EntryData>, j: nat, r: seq<Field>, size: nat, n: nat)
    requires NestedField(f.value) && size > 0
    requires At(nodes, j, [Utf8String(f.key)] + Encode(f.value))
    requires n == j + 1 + |Encode(f.value)|
    ensures n <= |nodes|
    ensures RecordMapLoop(nodes, j, size, r) == RecordMapLoop(nodes, n, size - 1, Assign(r, f.key, f.value))
    decreases f.value, 5
  {
    var sub := FusedValue(f, nodes, j, r);
    RecordMapLoopStep(nodes, j, size, r, f.key, sub, n);
  }


  /** The value of an encoded pair decoded into the shared record. */
  lemma SharedValue(f: Field, nodes: seq<EntryData>, j: nat, acc: seq<Field>)
    requires FlatField(f.value)
    requires At(nodes, j, [Utf8String(f.key)] + Encode(f.value))
    ensures j + 1 < |nodes| && nodes[j] == Utf8String(f.key)
    ensures DecodeRecord(nodes, j + 1, acc, f.key)
         == RecordOut(Assign(acc, f.key, f.value), j + 1 + |Encode(f.value)|, Success)
    decreases f.value, 4
  {
    AtPair(nodes, j, f);
    EncodeNonEmpty(f.value);
    DecodeFlatField(f.value, nodes, j + 1, acc, f.key);
  }

  /** The value of an encoded pair decoded into a fresh sub-record: a
      nested record comes back whole, any other value under the pair's key. */
  lemma FusedValue(f: Field, nodes: seq<EntryData>, j: nat, r: seq<Field>) returns (sub: seq<Field>)
    requires NestedField(f.value)
    requires At(nodes, j, [Utf8String(f.key)] + Encode(f.value))
    ensures j + 1 < |nodes| && nodes[j] == Utf8String(f.key)
    ensures DecodeRecord(nodes, j + 1, [], f.key) == RecordOut(sub, j + 1 + |Encode(f.value)|, Success)
    ensures Fuse(r, f.key, sub) == Assign(r, f.key, f.value)
    decreases f.value, 4
  {
    AtPair(nodes, j, f);
    EncodeNonEmpty(f.value);
    if f.value.Record? {
      DecodeNested(f.value, nodes, j + 1, [], f.key);
      AssignAllFresh([], f.value.fields);
      assert [] + f.value.fields == f.value.fields;
      sub := f.value.fields;
    } else {
      DecodeFlatField(f.value, nodes, j + 1, [], f.key);
      sub := [Field(f.key, f.value)];
    }
  }

  /** One turn of the record decoder's pair loop, given what the value decodes to. */
  lemma RecordMapLoopStep(nodes: seq<EntryData>, j: nat, size: nat, r: seq<Field>, k: string, sub: seq<Field>, n: nat)
    requires size > 0 && j + 1 < |nodes| && nodes[j] == Utf8String(k)
    requires DecodeRecord(nodes, j + 1, [], k) == RecordOut(sub, n, Success)
    ensures RecordMapLoop(nodes, j, size, r) == RecordMapLoop(nodes, n, size - 1, Fuse(r, k, sub))
  {
  }

  /** One turn of the list decoder's pair loop, given what the value decodes to. */
  lemma ListMapLoopStep(nodes: seq<EntryData>, j: nat, size: nat, acc: seq<Field>, k: string, acc': seq<Field>, n: nat)
    requires size > 0 && j + 1 < |nodes| && nodes[j] == Utf8String(k)
    requires DecodeRecord(nodes, j + 1, acc, k) == RecordOut(acc', n, Success)
    ensures ListMapLoop(nodes, j, size, acc) == ListMapLoop(nodes, n, size - 1, acc')
  {
  }

  /** One turn of the array loop, given what the element decodes to. */
  lemma ArrayLoopStep(nodes: seq<EntryData>, j: nat, size: nat, l: seq<Data>, l': seq<Data>, n: nat)
    requires size > 0 && j < |nodes|
    requires DecodeList(nodes, j, l) == ListOut(l', n, Success)
    ensures ArrayLoop(nodes, j, size, l) == ArrayLoop(nodes, n, size - 1, l')
  {
  }
}
