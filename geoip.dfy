/**
 * The GeoIP context (libtenzir/builtins/contexts/geoip.cpp): an enrichment
 * context that holds the path of a MaxMind DB file and a handle on it, looks
 * addresses up in it, dumps it, and saves and restores itself as the path.
 *
 * libmaxminddb is given data: opening a path yields a database or a failure
 * status (the file system is a function from path to that outcome), and an
 * open database is the trie and records `TrieDump` walks plus a function
 * from address string to what `MMDB_lookup_string` and
 * `MMDB_get_entry_data_list` report for it.
 */
module GeoIp {
  import opened Wrappers
  import opened Values
  import opened MmdbDecoder
  import opened TrieDump
  import opened Batches
  import opened Contexts
  import MmdbEncoding
  import MmdbCases

  /** The parameter and `show` key holding the database path. */
  const PathKey: string := "db-path"

  /** What looking up one address reports: the resolver error (0 when the
      address parses), the lookup status, whether an entry was found, and
      reading that entry's entry-data list. */
  datatype LookupResult = LookupResult(gaiError: int, status: Status, found: bool, entry: EntryRead)

  /** An open MaxMind database. */
  datatype Mmdb = Mmdb(contents: Database, lookup: string -> LookupResult)

  /** What `MMDB_open` of a path gives. */
  datatype OpenResult = Opened(db: Mmdb) | OpenFailed(failure: Failure)

  /** The `MMDB_s` the context holds (`mmdb_`): none yet, one that a failed
      open left unusable, or an open database. */
  datatype Handle = NoHandle | Unopened | Open(db: Mmdb)

  /** The calls into the library that change the handle, in order. */
  datatype HandleCall = Close | OpenPath(path: string)

  /** The handle after `MMDB_open` returned `o`. */
  function Opening(o: OpenResult): (h: Handle)
    ensures h != NoHandle
    ensures h.Open? <==> o.Opened?
    ensures o.Opened? ==> h.db == o.db
  {
    match o
    case Opened(db) => Open(db)
    case OpenFailed(_) => Unopened
  }

  /** The serialized context (`GeoIPData`): the url field may be missing. */
  datatype GeoIpData = GeoIpData(url: Option<string>)

  /** Rendered values of a string series keep their quotes, so each holds
      at least the two characters that are stripped. */
  predicate Quoted(texts: seq<string>, isString: bool)
  {
    isString ==> forall i :: 0 <= i < |texts| ==> |texts[i]| >= 2
  }

  /** The address looked up for one rendered input value: a string value
      loses its first and last character (its quotes). */
  function Address(text: string, isString: bool): (a: string)
    requires isString ==> |text| >= 2
    ensures isString ==> |a| + 2 == |text| && forall i :: 0 <= i < |a| ==> a[i] == text[i + 1]
    ensures !isString ==> a == text
  {
    if isString then text[1..|text| - 1] else text
  }

  /** One iteration of `apply`: the enrichment of one input value. */
  function LookupOne(db: Mmdb, text: string, isString: bool): (r: Result<Option<Data>, Error>)
    requires isString ==> |text| >= 2
    ensures r.Err? ==> r.error == LookupError(Address(text, isString))
    ensures r == Ok(None) <==> (var res := db.lookup(Address(text, isString));
                                res.gaiError == 0 && res.status == Success && !res.found)
    ensures r.Err? <==> (var res := db.lookup(Address(text, isString));
                         || res.gaiError != 0 || res.status != Success
                         || (res.found && (res.entry.ReadFailed?
                                           || DecodeRecord(res.entry.nodes, 0, [], "").status != Success)))
    ensures r.Ok? && r.value.Some? ==> (var res := db.lookup(Address(text, isString));
                                        && res.found && res.entry.Read?
                                        && r.value.value == Record(DecodeRecord(res.entry.nodes, 0, [], "").record))
  {
    var a := Address(text, isString);
    var res := db.lookup(a);
    if res.gaiError != 0 then Err(LookupError(a))
    else if res.status != Success then Err(LookupError(a))
    else if !res.found then Ok(None)
    else
      match res.entry
      case ReadFailed(_) => Err(LookupError(a))
      case Read(nodes) =>
        var d := DecodeRecord(nodes, 0, [], "");
        if d.status != Success then Err(LookupError(a)) else Ok(Some(Record(d.record)))
  }

  /** `apply` over a whole series: one output per input, in order, unless
      some lookup fails, in which case the first failure is the result. */
  function ApplyAll(db: Mmdb, texts: seq<string>, isString: bool): (r: Result<seq<Option<Data>>, Error>)
    requires Quoted(texts, isString)
    ensures r.Ok? ==> |r.value| == |texts|
  {
    if texts == [] then Ok([])
    else
      match LookupOne(db, texts[0], isString)
      case Err(e) => Err(e)
      case Ok(o) =>
        match ApplyAll(db, texts[1..], isString)
        case Err(e) => Err(e)
        case Ok(rest) => Ok([o] + rest)
  }

  /** A successful `apply` has one output per input, in order, each the
      enrichment of that input. */
  lemma {:induction false} ApplyOutputs(db: Mmdb, texts: seq<string>, isString: bool)
    requires Quoted(texts, isString) && ApplyAll(db, texts, isString).Ok?
    ensures |ApplyAll(db, texts, isString).value| == |texts|
    ensures forall i :: 0 <= i < |texts| ==>
              LookupOne(db, texts[i], isString) == Ok(ApplyAll(db, texts, isString).value[i])
  {
    if texts != [] {
      ApplyOutputs(db, texts[1..], isString);
      var rest := ApplyAll(db, texts[1..], isString).value;
      assert ApplyAll(db, texts, isString).value == [LookupOne(db, texts[0], isString).value] + rest;
      forall i | 1 <= i < |texts|
        ensures LookupOne(db, texts[i], isString) == Ok(ApplyAll(db, texts, isString).value[i])
      {
        assert texts[1..][i - 1] == texts[i];
      }
    }
  }

  /** Conversely, when every input enriches, `apply` succeeds with exactly
      those outputs. */
  lemma {:induction false} ApplyAllOk(db: Mmdb, texts: seq<string>, isString: bool, out: seq<Option<Data>>)
    requires Quoted(texts, isString) && |out| == |texts|
    requires forall i :: 0 <= i < |texts| ==> LookupOne(db, texts[i], isString) == Ok(out[i])
    ensures ApplyAll(db, texts, isString) == Ok(out)
  {
    if texts != [] {
      forall i | 0 <= i < |texts| - 1
        ensures LookupOne(db, texts[1..][i], isString) == Ok(out[1..][i])
      {
        assert texts[1..][i] == texts[i + 1];
      }
      ApplyAllOk(db, texts[1..], isString, out[1..]);
      assert out == [out[0]] + out[1..];
    }
  }

  /** The first input whose enrichment fails decides the error of the
      whole call. */
  lemma {:induction false} ApplyAllStops(db: Mmdb, texts: seq<string>, isString: bool, i: nat)
    requires Quoted(texts, isString) && i < |texts|
    requires forall j :: 0 <= j < i ==> LookupOne(db, texts[j], isString).Ok?
    requires LookupOne(db, texts[i], isString).Err?
    ensures ApplyAll(db, texts, isString) == Err(LookupOne(db, texts[i], isString).error)
  {
    if i > 0 {
      assert texts[1..][i - 1] == texts[i];
      forall j | 0 <= j < i - 1
        ensures LookupOne(db, texts[1..][j], isString).Ok?
      {
        assert texts[1..][j] == texts[j + 1];
      }
      ApplyAllStops(db, texts[1..], isString, i - 1);
    }
  }

  /** A found address whose entry holds an encoded record enriches to that
      record, nesting and all. */
  lemma FoundRecordReturned(db: Mmdb, text: string, isString: bool, d: Data)
    requires isString ==> |text| >= 2
    requires MmdbEncoding.Nested(d)
    requires var res := db.lookup(Address(text, isString));
             res.gaiError == 0 && res.status == Success && res.found
             && res.entry.Read? && res.entry.nodes == MmdbEncoding.Encode(d)
    ensures LookupOne(db, text, isString) == Ok(Some(d))
  {
    MmdbCases.LookupRoundTrip(d);
  }

  /** `v1_loader::load` up to building the context: the parameters it hands
      to the constructor, or why the payload is rejected (`None` is a buffer
      that holds no `GeoIPData`). */
  function LoadParams(blob: Option<GeoIpData>): (r: Result<ParameterMap, Error>)
    ensures r.Err? <==> blob.None? || blob.value.url.None?
    ensures r.Err? ==> r.error == SerializationError
    ensures r.Ok? ==> r.value == map[PathKey := Some(blob.value.url.value)]
  {
    match blob
    case None => Err(SerializationError)
    case Some(data) =>
      match data.url
      case None => Err(SerializationError)
      case Some(path) => Ok(map[PathKey := Some(path)])
  }

  /** The GeoIP context: the database path, the handle, and the library
      calls made on the handle so far. The file system it opens paths on is
      fixed at construction. */
  class GeoIpContext {
    const fs: string -> OpenResult
    var dbPath: string
    var handle: Handle
    var calls: seq<HandleCall>

    /** Construction from parameters runs `reset` and drops its result, so
        a path that does not open still yields a context. */
    constructor (params: ParameterMap, fs: string -> OpenResult)
      ensures this.fs == fs
      ensures dbPath == (if Param(params, PathKey).Some? then Param(params, PathKey).value else "")
      ensures handle == Opening(fs(dbPath))
      ensures calls == [OpenPath(dbPath)]
    {
      this.fs := fs;
      dbPath := "";
      handle := NoHandle;
      calls := [];
      new;
      var _ := Reset(params);
    }

    /** `show`: the path, under `db-path`. */
    function Show(): (r: Data)
      reads this
      ensures r.Record? && |r.fields| == 1 && Get(r.fields, PathKey) == Some(Str(dbPath))
    {
      Record([Field(PathKey, Str(dbPath))])
    }

    /** `reset`: a present, non-null `db-path` replaces the path; a handle
        held from before is closed, then the path is opened. */
    method Reset(params: ParameterMap) returns (r: Result<Data, Error>)
      modifies this
      ensures dbPath == (if Param(params, PathKey).Some? then Param(params, PathKey).value else old(dbPath))
      ensures calls == old(calls) + (if old(handle) != NoHandle then [Close] else []) + [OpenPath(dbPath)]
      ensures handle == Opening(fs(dbPath))
      ensures r.Err? <==> fs(dbPath).OpenFailed?
      ensures r.Err? ==> r.error == FilesystemError(dbPath)
      ensures r.Ok? ==> r.value == Show()
    {
      if PathKey in params && params[PathKey].Some? {
        dbPath := params[PathKey].value;
      }
      if handle != NoHandle {
        calls := calls + [Close];
      }
      var o := fs(dbPath);
      calls := calls + [OpenPath(dbPath)];
      handle := Opening(o);
      if o.OpenFailed? {
        return Err(FilesystemError(dbPath));
      }
      return Ok(Show());
    }

    /** `save`: format version 1, holding only the path. */
    function Save(): (r: SaveResult<GeoIpData>)
      reads this
      ensures r.version == 1 && r.data.url == Some(dbPath)
    {
      SaveResult(GeoIpData(Some(dbPath)), 1)
    }

    /** `apply`: each input is looked up in turn; the first failure fails
        the whole call. */
    method Apply(texts: seq<string>, isString: bool) returns (r: Result<seq<Option<Data>>, Error>)
      requires handle.Open? && Quoted(texts, isString)
      ensures r == ApplyAll(handle.db, texts, isString)
    {
      var db := handle.db;
      var out: seq<Option<Data>> := [];
      for i := 0 to |texts|
        invariant |out| == i
        invariant forall j :: 0 <= j < i ==> LookupOne(db, texts[j], isString) == Ok(out[j])
      {
        var one := Enrich(db, texts[i], isString);
        if one.Err? {
          ApplyAllStops(db, texts, isString, i);
          return Err(one.error);
        }
        out := out + [one.value];
      }
      ApplyAllOk(db, texts, isString, out);
      return Ok(out);
    }

    /** The body of `apply`'s loop for one value: the lookup, reading the
        entry's data list and decoding it with the record decoder. */
    static method Enrich(db: Mmdb, text: string, isString: bool) returns (r: Result<Option<Data>, Error>)
      requires isString ==> |text| >= 2
      ensures r == LookupOne(db, text, isString)
    {
      var address := Address(text, isString);
      var res := db.lookup(address);
      if res.gaiError != 0 || res.status != Success {
        return Err(LookupError(address));
      }
      if !res.found {
        return Ok(None);
      }
      match res.entry {
        case ReadFailed(_) =>
          return Err(LookupError(address));
        case Read(nodes) =>
          var output, _, status := EntryDataListToRecord(nodes, 0, [], "");
          if status != Success {
            return Err(LookupError(address));
          }
          return Ok(Some(Record(output)));
      }
    }

    /** `dump` on an open handle: the trie walk's batches, then the final
        batch; a failed walk is only logged. */
    method Dump(limit: nat) returns (batches: seq<seq<Data>>, status: Status, logged: bool)
      requires handle.Open? && limit > 0
      ensures DumpShape(batches, limit)
      ensures Concat(batches) == DumpWalk(handle.db.contents).rows
      ensures status == DumpWalk(handle.db.contents).status
      ensures logged <==> status != Success
    {
      batches, status := TrieDump.Dump(handle.db.contents, limit);
      logged := status != Success;
    }
  }

  /** `update`: events cannot be added to a GeoIP context. */
  function Update(params: ParameterMap): (r: Result<Data, Error>)
    ensures r == Err(Unimplemented)
  {
    Err(Unimplemented)
  }

  /** `snapshot`: not supported. */
  function Snapshot(params: ParameterMap): (r: Result<Expression, Error>)
    ensures r == Err(Unimplemented)
  {
    Err(Unimplemented)
  }

  /** `v1_loader::load`: a context built from the saved path. Whether the
      path opens plays no part in whether loading succeeds. */
  method Load(blob: Option<GeoIpData>, fs: string -> OpenResult) returns (r: Result<GeoIpContext, Error>)
    ensures r.Err? <==> LoadParams(blob).Err?
    ensures r.Err? ==> r.error == SerializationError
    ensures r.Ok? ==> fresh(r.value) && r.value.fs == fs && r.value.dbPath == blob.value.url.value
                      && r.value.handle == Opening(fs(r.value.dbPath))
  {
    var params := LoadParams(blob);
    if params.Err? {
      return Err(params.error);
    }
    assert Param(params.value, PathKey) == Some(blob.value.url.value);
    var c := new GeoIpContext(params.value, fs);
    return Ok(c);
  }

  /** Saving a context and loading what was saved gives a context that
      shows the same. */
  method SaveThenLoad(c: GeoIpContext) returns (c2: GeoIpContext)
    ensures fresh(c2) && c2.Show() == c.Show() && c2.fs == c.fs
  {
    var saved := c.Save();
    var r := Load(Some(saved.data), c.fs);
    c2 := r.value;
  }
}
