/**
 * The lookup-table context (libtenzir/builtins/contexts/lookup_table.cpp): a
 * hash map from key to value that events are enriched against, updated from
 * table slices and saved as a list of `{key, value}` records.
 *
 * The hash map's iteration order is unspecified; every operation that walks
 * the map returns the order it walked in, and its contract says only that
 * the order lists every key exactly once.
 */
module LookupTable {
  import opened Wrappers
  import opened Values
  import opened Batches
  import opened Contexts

  /** `order` lists every member of `keys` exactly once. */
  ghost predicate Enumerates(order: seq<Data>, keys: set<Data>)
  {
    && (forall i, j :: 0 <= i < j < |order| ==> order[i] != order[j])
    && (forall k :: k in order <==> k in keys)
  }

  /** An enumeration is as long as the set it enumerates. */
  lemma {:induction false} EnumerationSize(order: seq<Data>, keys: set<Data>)
    requires Enumerates(order, keys)
    ensures |order| == |keys|
  {
    if order == [] {
      assert keys == {};
    } else {
      var n := |order| - 1;
      var front := order[..n];
      forall k
        ensures k in front <==> k in keys - {order[n]}
      {
        if k in front {
          var i :| 0 <= i < n && front[i] == k;
          assert order[i] == k;
        }
        if k in keys - {order[n]} {
          assert k in order;
          var i :| 0 <= i < |order| && order[i] == k;
          assert i < n && front[i] == k;
        }
      }
      EnumerationSize(front, keys - {order[n]});
    }
  }

  /** The row the dump emits for one entry. */
  function EntryRow(k: Data, v: Data): Data
  {
    Record([Field("key", k), Field("value", v)])
  }

  /** The dump rows for the keys of `order`, in that order. */
  function Rows(m: map<Data, Data>, order: seq<Data>): (rows: seq<Data>)
    requires forall k :: k in order ==> k in m
    ensures |rows| == |order|
    ensures forall i :: 0 <= i < |order| ==> rows[i] == EntryRow(order[i], m[order[i]])
  {
    if order == [] then [] else Rows(m, order[..|order| - 1]) + [EntryRow(order[|order| - 1], m[order[|order| - 1]])]
  }

  /** One more key walked adds its row at the end. */
  lemma RowsSnoc(m: map<Data, Data>, order: seq<Data>, i: nat)
    requires i < |order| && forall k :: k in order ==> k in m
    ensures Rows(m, order[..i + 1]) == Rows(m, order[..i]) + [EntryRow(order[i], m[order[i]])]
  {
    assert order[..i + 1][..i] == order[..i];
  }

  /** `insert_or_assign` of each row under its key, in row order. */
  function Inserted(m: map<Data, Data>, keys: seq<Data>, rows: seq<Data>): map<Data, Data>
    requires |keys| == |rows|
  {
    if keys == [] then m
    else
      var n := |keys| - 1;
      Inserted(m, keys[..n], rows[..n])[keys[n] := rows[n]]
  }

  /** The stored keys afterwards are the old ones and the rows' keys. */
  lemma {:induction false} InsertedKeys(m: map<Data, Data>, keys: seq<Data>, rows: seq<Data>)
    requires |keys| == |rows|
    ensures Inserted(m, keys, rows).Keys == m.Keys + (set k | k in keys)
  {
    if keys != [] {
      var n := |keys| - 1;
      InsertedKeys(m, keys[..n], rows[..n]);
      assert keys == keys[..n] + [keys[n]];
      assert (set k | k in keys) == (set k | k in keys[..n]) + {keys[n]};
    }
  }

  /** One more row inserted. */
  lemma InsertedSnoc(m: map<Data, Data>, keys: seq<Data>, rows: seq<Data>, i: nat)
    requires |keys| == |rows| && i < |keys|
    ensures Inserted(m, keys[..i + 1], rows[..i + 1]) == Inserted(m, keys[..i], rows[..i])[keys[i] := rows[i]]
  {
    assert keys[..i + 1][..i] == keys[..i];
    assert rows[..i + 1][..i] == rows[..i];
  }

  /** The last row with a given key is the one stored. */
  lemma {:induction false} InsertedLastWins(m: map<Data, Data>, keys: seq<Data>, rows: seq<Data>, i: nat)
    requires |keys| == |rows| && i < |keys|
    requires forall j :: i < j < |keys| ==> keys[j] != keys[i]
    ensures keys[i] in Inserted(m, keys, rows) && Inserted(m, keys, rows)[keys[i]] == rows[i]
  {
    var n := |keys| - 1;
    if i < n {
      InsertedLastWins(m, keys[..n], rows[..n], i);
    }
  }

  /** A key no row carries keeps its entry, or its absence. */
  lemma {:induction false} InsertedKeepsOthers(m: map<Data, Data>, keys: seq<Data>, rows: seq<Data>, k: Data)
    requires |keys| == |rows| && k !in keys
    ensures k in Inserted(m, keys, rows) <==> k in m
    ensures k in m ==> Inserted(m, keys, rows)[k] == m[k]
  {
    if keys != [] {
      var n := |keys| - 1;
      assert k != keys[n];
      assert k !in keys[..n];
      InsertedKeepsOthers(m, keys[..n], rows[..n], k);
    }
  }

  /** The `clear` parameter's effect on the table, applied before anything
      else `update` does. */
  function ClearStep(m: map<Data, Data>, params: ParameterMap, parseBool: string -> Option<bool>): (r: Result<map<Data, Data>, Error>)
    ensures "clear" !in params ==> r == Ok(m)
    ensures "clear" in params && (params["clear"].None? || params["clear"].value == "") ==> r == Ok(map[])
    ensures Param(params, "clear").Some? && Param(params, "clear").value != "" ==>
              var parsed := parseBool(Param(params, "clear").value);
              && (parsed.None? <==> r == Err(InvalidArgument))
              && (parsed == Some(true) ==> r == Ok(map[]))
              && (parsed == Some(false) ==> r == Ok(m))
  {
    if "clear" !in params then Ok(m)
    else
      match params["clear"]
      case None => Ok(map[])
      case Some(text) =>
        if text == "" then Ok(map[])
        else
          match parseBool(text)
          case None => Err(InvalidArgument)
          case Some(b) => if b then Ok(map[]) else Ok(m)
  }

  /** What `update` returns: its `show` and, when rows were stored, the
      query over their keys. */
  datatype UpdateResult = UpdateResult(info: Data, query: Option<Query>)

  /** The two query functions the context hands out: the one `update`
      returns, over the keys of its rows, and the one `make_query`
      returns, over every stored key. */
  datatype Query = UpdateQuery(keys: seq<Data>) | TableQuery(keys: seq<Data>)

  /** Running a query with the `field` parameter. Only the query from
      `make_query` checks that the parameter is there. */
  function RunQuery(q: Query, params: ParameterMap): (r: Result<Expression, Error>)
    requires q.UpdateQuery? ==> Param(params, "field").Some?
    ensures r.Err? <==> q.TableQuery? && Param(params, "field").None?
    ensures r.Err? ==> r.error == InvalidArgument
    ensures r.Ok? ==> r.value == InList(Param(params, "field").value, q.keys)
  {
    match Param(params, "field")
    case None => Err(InvalidArgument)
    case Some(column) => Ok(InList(column, q.keys))
  }

  /** A table slice: its rows as records, and for a key field name the
      values of the column it resolves to, if it resolves. */
  datatype Slice = Slice(rows: seq<Data>, column: string -> Option<seq<Data>>)

  /** A value as `unpack` sees it: it unpacks to a value or fails. */
  datatype Packed = Packed(value: Data) | Corrupt

  datatype PackedField = PackedField(name: string, data: Packed)

  /** One element of the saved list: a record with its fields (which may be
      missing), or a value of another type. */
  datatype PackedEntry = PackedRecord(fields: Option<seq<PackedField>>) | PackedOther

  /** The saved buffer: unreadable, not a list, or a list whose values may
      be missing. */
  datatype SavedTable = Unreadable | NotAList | SavedList(values: Option<seq<PackedEntry>>)

  /** The entry `save` writes for one key and value. */
  function Pack(k: Data, v: Data): PackedEntry
  {
    PackedRecord(Some([PackedField("key", Packed(k)), PackedField("value", Packed(v))]))
  }

  /** The saved entries for the keys of `order`, in that order. */
  function Packs(m: map<Data, Data>, order: seq<Data>): (r: seq<PackedEntry>)
    requires forall k :: k in order ==> k in m
    ensures |r| == |order|
    ensures forall i :: 0 <= i < |order| ==> r[i] == Pack(order[i], m[order[i]])
  {
    if order == [] then [] else Packs(m, order[..|order| - 1]) + [Pack(order[|order| - 1], m[order[|order| - 1]])]
  }

  /** One saved entry read back: a record of exactly two fields whose
      values unpack, read by position as key and value. */
  function LoadEntry(e: PackedEntry): (r: Result<(Data, Data), Error>)
    ensures r.Ok? <==> e.PackedRecord? && e.fields.Some? && |e.fields.value| == 2
                       && !e.fields.value[0].data.Corrupt? && !e.fields.value[1].data.Corrupt?
    ensures r.Ok? ==> r.value == (e.fields.value[0].data.value, e.fields.value[1].data.value)
    ensures r.Err? ==> r.error == SerializationError
  {
    match e
    case PackedOther => Err(SerializationError)
    case PackedRecord(None) => Err(SerializationError)
    case PackedRecord(Some(fs)) =>
      if |fs| != 2 then Err(SerializationError)
      else if fs[0].data.Corrupt? then Err(SerializationError)
      else if fs[1].data.Corrupt? then Err(SerializationError)
      else Ok((fs[0].data.value, fs[1].data.value))
  }

  /** The loader's loop: `emplace` of each entry, so the first occurrence of
      a key wins. */
  function LoadEntries(values: seq<PackedEntry>, acc: map<Data, Data>): (r: Result<map<Data, Data>, Error>)
    ensures r.Err? ==> r.error == SerializationError
    decreases |values|
  {
    if values == [] then Ok(acc)
    else
      match LoadEntry(values[0])
      case Err(e) => Err(e)
      case Ok(kv) => LoadEntries(values[1..], if kv.0 in acc then acc else acc[kv.0 := kv.1])
  }

  /** `v1_loader::load` up to building the context. */
  function LoadTable(saved: SavedTable): (r: Result<map<Data, Data>, Error>)
    ensures r.Err? ==> r.error == SerializationError
  {
    match saved
    case Unreadable => Err(SerializationError)
    case NotAList => Err(SerializationError)
    case SavedList(None) => Err(SerializationError)
    case SavedList(Some(values)) => LoadEntries(values, map[])
  }

  /** Loading succeeds exactly when every saved entry reads back. */
  lemma {:induction false} LoadAllOrNothing(values: seq<PackedEntry>, acc: map<Data, Data>)
    ensures LoadEntries(values, acc).Ok? <==> forall i :: 0 <= i < |values| ==> LoadEntry(values[i]).Ok?
  {
    if values != [] {
      if LoadEntry(values[0]).Ok? {
        var kv := LoadEntry(values[0]).value;
        LoadAllOrNothing(values[1..], if kv.0 in acc then acc else acc[kv.0 := kv.1]);
        forall i | 1 <= i < |values|
          ensures LoadEntry(values[i]) == LoadEntry(values[1..][i - 1])
        {
        }
      }
    }
  }

  /** An entry already loaded is never replaced by a later one. */
  lemma {:induction false} LoadKeepsFirst(values: seq<PackedEntry>, acc: map<Data, Data>, k: Data)
    requires k in acc && LoadEntries(values, acc).Ok?
    ensures k in LoadEntries(values, acc).value && LoadEntries(values, acc).value[k] == acc[k]
  {
    if values != [] {
      var kv := LoadEntry(values[0]).value;
      LoadKeepsFirst(values[1..], if kv.0 in acc then acc else acc[kv.0 := kv.1], k);
    }
  }

  /** Of two saved entries with the same key, the first one is loaded;
      field names play no part, only positions. */
  lemma DuplicateKeyKeepsFirst(k: Data, v1: Data, v2: Data, a: string, b: string)
    ensures LoadTable(SavedList(Some([
              PackedRecord(Some([PackedField(a, Packed(k)), PackedField(b, Packed(v1))])),
              PackedRecord(Some([PackedField(b, Packed(k)), PackedField(a, Packed(v2))]))])))
            == Ok(map[k := v1])
  {
    var e1 := PackedRecord(Some([PackedField(a, Packed(k)), PackedField(b, Packed(v1))]));
    var e2 := PackedRecord(Some([PackedField(b, Packed(k)), PackedField(a, Packed(v2))]));
    assert [e1, e2][1..] == [e2];
    assert LoadEntries([e2], map[k := v1]) == LoadEntries([], map[k := v1]);
  }

  /** Reading back saved entries adds exactly their keys, each with the
      value it had, to what was loaded before. */
  lemma {:induction false} LoadPacks(m: map<Data, Data>, order: seq<Data>, acc: map<Data, Data>)
    requires forall k :: k in order ==> k in m
    ensures LoadEntries(Packs(m, order), acc).Ok?
    ensures forall k :: k in LoadEntries(Packs(m, order), acc).value <==> k in acc || k in order
    ensures forall k :: k in LoadEntries(Packs(m, order), acc).value ==>
              LoadEntries(Packs(m, order), acc).value[k] == if k in acc then acc[k] else m[k]
  {
    if order != [] {
      var k0 := order[0];
      var next := if k0 in acc then acc else acc[k0 := m[k0]];
      LoadFirstPack(m, order, acc);
      LoadPacks(m, order[1..], next);
      assert forall k :: k in order <==> k == k0 || k in order[1..];
    }
  }

  /** Reading back the first saved entry `emplace`s its key and value. */
  lemma LoadFirstPack(m: map<Data, Data>, order: seq<Data>, acc: map<Data, Data>)
    requires order != [] && forall k :: k in order ==> k in m
    ensures forall k :: k in order[1..] ==> k in m
    ensures LoadEntries(Packs(m, order), acc)
         == LoadEntries(Packs(m, order[1..]), if order[0] in acc then acc else acc[order[0] := m[order[0]]])
  {
    var ps := Packs(m, order);
    assert ps[0] == Pack(order[0], m[order[0]]);
    assert forall k :: k in order[1..] ==> k in order;
    assert ps[1..] == Packs(m, order[1..]) by {
      forall i | 0 <= i < |order| - 1
        ensures ps[1..][i] == Packs(m, order[1..])[i]
      {
        assert order[1..][i] == order[i + 1];
      }
    }
  }

  /** Loading what `save` wrote restores the table exactly. */
  lemma SaveLoadRoundTrip(m: map<Data, Data>, order: seq<Data>)
    requires Enumerates(order, m.Keys)
    ensures LoadTable(SavedList(Some(Packs(m, order)))) == Ok(m)
  {
    LoadPacks(m, order, map[]);
    var r := LoadEntries(Packs(m, order), map[]).value;
    assert r.Keys == m.Keys;
    forall k | k in r
      ensures r[k] == m[k]
    {
    }
    assert r == m;
  }

  /** Keys of a single data kind, as `snapshot` requires. */
  ghost predicate Homogeneous(m: map<Data, Data>)
  {
    forall a, b :: a in m && b in m ==> Kind(a) == Kind(b)
  }

  /** The lookup-table context: its entries. */
  class Table {
    var entries: map<Data, Data>

    /** `make_context`: an empty table. */
    constructor ()
      ensures entries == map[]
    {
      entries := map[];
    }

    /** The loader's constructor: the given entries. */
    constructor FromEntries(m: map<Data, Data>)
      ensures entries == m
    {
      entries := m;
    }

    /** The hash map's iteration: every key once, in some order. */
    method Order() returns (order: seq<Data>)
      ensures Enumerates(order, entries.Keys)
    {
      order := [];
      var remaining := entries.Keys;
      while remaining != {}
        invariant forall k :: k in entries.Keys <==> k in remaining || k in order
        invariant forall k :: k in remaining ==> k !in order
        invariant forall i, j :: 0 <= i < j < |order| ==> order[i] != order[j]
        decreases |remaining|
      {
        var k :| k in remaining;
        order := order + [k];
        remaining := remaining - {k};
      }
    }

    /** `apply`: one output per input, in order, the stored value or null. */
    method Apply(values: seq<Data>) returns (out: seq<Data>)
      ensures |out| == |values|
      ensures forall i :: 0 <= i < |values| ==>
                (values[i] in entries ==> out[i] == entries[values[i]])
                && (values[i] !in entries ==> out[i] == Null)
    {
      out := [];
      for i := 0 to |values|
        invariant |out| == i
        invariant forall j :: 0 <= j < i ==>
                    (values[j] in entries ==> out[j] == entries[values[j]])
                    && (values[j] !in entries ==> out[j] == Null)
      {
        if values[i] in entries {
          out := out + [entries[values[i]]];
        } else {
          out := out + [Null];
        }
      }
    }

    /** `snapshot`: `field in [keys]` over every key, unless two keys have
        different data kinds. */
    method Snapshot(params: ParameterMap) returns (r: Result<Expression, Error>, order: seq<Data>)
      requires Param(params, "field").Some?
      ensures Enumerates(order, entries.Keys)
      ensures r.Err? <==> !Homogeneous(entries)
      ensures r.Err? ==> r.error == Unimplemented
      ensures r.Ok? ==> r.value == InList(Param(params, "field").value, order)
    {
      var column := params["field"].value;
      order := Order();
      var keys: seq<Data> := [];
      for i := 0 to |order|
        invariant keys == order[..i]
        invariant forall j :: 0 <= j < i ==> Kind(order[j]) == Kind(order[0])
      {
        keys := keys + [order[i]];
        if Kind(order[i]) != Kind(order[0]) {
          assert order[0] in entries && order[i] in entries;
          return Err(Unimplemented), order;
        }
      }
      assert keys == order;
      forall a, b | a in entries && b in entries
        ensures Kind(a) == Kind(b)
      {
        assert a in order && b in order;
      }
      return Ok(InList(column, keys)), order;
    }

    /** `show`: the number of entries. */
    function Show(): (r: Data)
      reads this
      ensures r.Record? && |r.fields| == 1 && Get(r.fields, "num_entries") == Some(UInt(|entries|))
    {
      Record([Field("num_entries", UInt(|entries|))])
    }

    /** `dump`: one `{key, value}` row per entry, cut into batches of
        `limit` rows, then the final batch. */
    method Dump(limit: nat) returns (batches: seq<seq<Data>>, order: seq<Data>)
      requires limit > 0
      ensures Enumerates(order, entries.Keys)
      ensures DumpShape(batches, limit)
      ensures Concat(batches) == Rows(entries, order)
    {
      order := Order();
      var builder: seq<Data> := [];
      batches := [];
      for i := 0 to |order|
        invariant FullBatches(batches, limit) && |builder| < limit
        invariant Concat(batches) + builder == Rows(entries, order[..i])
      {
        RowsSnoc(entries, order, i);
        batches, builder := Push(batches, builder, EntryRow(order[i], entries[order[i]]), limit);
      }
      assert order[..|order|] == order;
      Finish(batches, builder, limit);
      batches := batches + [builder];
    }

    /** `update`: the clear step, then each row stored under its key with
        insert-or-assign. */
    method Update(slice: Slice, params: ParameterMap, parseBool: string -> Option<bool>)
      returns (r: Result<UpdateResult, Error>)
      requires |slice.rows| != 0
      requires Param(params, "key").Some? && slice.column(Param(params, "key").value).Some? ==>
                 |slice.column(Param(params, "key").value).value| == |slice.rows|
      modifies this
      ensures ClearStep(old(entries), params, parseBool).Err? ==> r == Err(InvalidArgument) && entries == old(entries)
      ensures ClearStep(old(entries), params, parseBool).Ok? ==>
                var cleared := ClearStep(old(entries), params, parseBool).value;
                var key := Param(params, "key");
                if key.None? then r == Err(InvalidArgument) && entries == cleared
                else if slice.column(key.value).None? then r == Ok(UpdateResult(Record([]), None)) && entries == cleared
                else
                  var keys := slice.column(key.value).value;
                  && entries == Inserted(cleared, keys, slice.rows)
                  && r == Ok(UpdateResult(Show(), Some(UpdateQuery(keys))))
    {
      if "clear" in params {
        var clear := params["clear"];
        if clear.None? || clear.value == "" {
          entries := map[];
        } else {
          var parsed := parseBool(clear.value);
          if parsed.None? {
            return Err(InvalidArgument);
          }
          if parsed.value {
            entries := map[];
          }
        }
      }
      if "key" !in params {
        return Err(InvalidArgument);
      }
      var keyField := params["key"];
      if keyField.None? {
        return Err(InvalidArgument);
      }
      var column := slice.column(keyField.value);
      if column.None? {
        return Ok(UpdateResult(Record([]), None));
      }
      var keys := column.value;
      var keyList: seq<Data> := [];
      ghost var cleared := entries;
      for i := 0 to |keys|
        invariant entries == Inserted(cleared, keys[..i], slice.rows[..i])
        invariant keyList == keys[..i]
      {
        InsertedSnoc(cleared, keys, slice.rows, i);
        entries := entries[keys[i] := slice.rows[i]];
        keyList := keyList + [keys[i]];
      }
      assert keys[..|keys|] == keys;
      assert slice.rows[..|keys|] == slice.rows;
      return Ok(UpdateResult(Show(), Some(UpdateQuery(keyList))));
    }

    /** `make_query`: a query over every stored key. */
    method MakeQuery() returns (q: Query)
      ensures q.TableQuery? && Enumerates(q.keys, entries.Keys)
    {
      var order := Order();
      var keys: seq<Data> := [];
      for i := 0 to |order|
        invariant keys == order[..i]
      {
        keys := keys + [order[i]];
      }
      assert keys == order;
      return TableQuery(keys);
    }

    /** `reset`: the table is emptied. */
    method Reset(params: ParameterMap) returns (r: Result<Data, Error>)
      modifies this
      ensures entries == map[]
      ensures r == Ok(Record([Field("num_entries", UInt(0))]))
    {
      entries := map[];
      return Ok(Show());
    }

    /** `save`: version 1, one `{key, value}` record per entry. */
    method Save() returns (r: SaveResult<SavedTable>, order: seq<Data>)
      ensures Enumerates(order, entries.Keys)
      ensures r == SaveResult(SavedList(Some(Packs(entries, order))), 1)
    {
      order := Order();
      var values: seq<PackedEntry> := [];
      for i := 0 to |order|
        invariant values == Packs(entries, order[..i])
      {
        assert order[..i + 1][..i] == order[..i];
        values := values + [Pack(order[i], entries[order[i]])];
      }
      assert order[..|order|] == order;
      return SaveResult(SavedList(Some(values)), 1), order;
    }
  }

  /** `v1_loader::load`: the table the saved entries describe. */
  method Load(saved: SavedTable) returns (r: Result<Table, Error>)
    ensures r.Err? <==> LoadTable(saved).Err?
    ensures r.Err? ==> r.error == SerializationError
    ensures r.Ok? ==> fresh(r.value) && r.value.entries == LoadTable(saved).value
  {
    if saved.Unreadable? || saved.NotAList? || saved.values.None? {
      return Err(SerializationError);
    }
    var values := saved.values.value;
    var entries: map<Data, Data> := map[];
    for i := 0 to |values|
      invariant LoadTable(saved) == LoadEntries(values[i..], entries)
    {
      var e := values[i];
      if e.PackedOther? || e.fields.None? || |e.fields.value| != 2
         || e.fields.value[0].data.Corrupt? || e.fields.value[1].data.Corrupt? {
        return Err(SerializationError);
      }
      var key := e.fields.value[0].data.value;
      var value := e.fields.value[1].data.value;
      assert values[i..][1..] == values[i + 1..];
      if key !in entries {
        entries := entries[key := value];
      }
    }
    var t := new Table.FromEntries(entries);
    return Ok(t);
  }

  /** Saving a table and loading what was saved gives a table with the
      same entries. */
  method SaveThenLoad(t: Table) returns (t2: Table)
    ensures fresh(t2) && t2.entries == t.entries
  {
    var saved, order := t.Save();
    SaveLoadRoundTrip(t.entries, order);
    var r := Load(saved.data);
    t2 := r.value;
  }
}
