# Tenzir enrichment contexts, modelled in Dafny

This project models four pieces of Tenzir's `libtenzir` and proves properties of them.

- **The GeoIP context** (`libtenzir/builtins/contexts/geoip.cpp`). It holds the path of a MaxMind DB file and a handle on it.
  - It decodes the library's flat entry-data lists into Tenzir values with two mutually recursive decoders: the list decoder and the record decoder.
  - It enriches addresses with the record decoder (`apply`).
  - It dumps the database by a depth-first walk of its search trie, cut into batches.
  - It saves and restores itself as its path.
- **The lookup-table context** (`libtenzir/builtins/contexts/lookup_table.cpp`). It is a key-to-value table that is updated from table slices, enriches values, snapshots, dumps, and saves and restores itself.
- **The socket-type parser** (`libtenzir/include/tenzir/concept/parseable/detail/posix.hpp`). It is a choice of the keywords `datagram`, `stream` and `fd`.
- **The client's connection timeout** (`node_connection_timeout` in `libtenzir/src/node_control.cpp`).

## Modules

| file | module | what it holds |
|---|---|---|
| `wrappers.dfy` | `Wrappers` | `Option` and `Result` |
| `values.dfy` | `Values` | Tenzir's `data`; a record is an insertion-ordered field list with overwrite-in-place assignment |
| `batches.dfy` | `Batches` | the batching discipline both dumps share |
| `contexts.dfy` | `Contexts` | parameter maps, error codes, saved payloads, query expressions |
| `mmdb_decoder.dfy` | `MmdbDecoder` | entry-data nodes and 128-bit narrowing; the two decoders as specification functions, and as imperative methods proved equal to them |
| `mmdb_encoding.dfy` | `MmdbEncoding` | an encoder writing values as entry-data lists, and round-trip lemmas for both decoders |
| `mmdb_cases.dfy` | `MmdbCases` | the decoders' particular behaviours, as lemmas over concrete lists |
| `trie_dump.dfy` | `TrieDump` | the trie walk as a function, its invariant, and `dump_recurse` as a class over the shared dump state |
| `geoip.dfy` | `GeoIp` | the GeoIP context class |
| `lookup_table.dfy` | `LookupTable` | the lookup-table context class |
| `socket_type.dfy` | `SocketTypeParser` | the keyword parser |
| `node_control.dfy` | `NodeControl` | the timeout rule |

An entry-data list is a `seq<EntryData>` walked by an index cursor. The index `|nodes|` plays the role of the null pointer that ends the list. Each decoder returns the value it built, the next cursor and the status.

The search trie is a finite map from node number to the node's two children. Each child is a record number with its record type. Reading a data record's entry-data list is a function from record number to a list or a failure status.

Opening a path, looking up an address, and the boolean parser used for `clear` are functions passed in as parameters. Hash-map iteration order is unspecified, so the lookup-table operations that iterate return the order they used. Their contracts say only that this order lists every key exactly once.

## Model

| member | source | states |
|---|---|---|
| Values.AssignBinds | libtenzir/builtins/contexts/geoip.cpp:207-213 | after `r[k] = v` the record binds `k` to `v` |
| Values.AssignKeepsOthers | libtenzir/builtins/contexts/geoip.cpp:207-213 | `r[k] = v` leaves every other key's binding as it was |
| Values.AssignKeys | libtenzir/builtins/contexts/geoip.cpp:207-213 | assigning to a present key keeps the key order; assigning to a new key appends it |
| Values.Assign | libtenzir/builtins/contexts/geoip.cpp:207-213 | a record's `r[k] = v`: it defines the assignment whose effect `AssignBinds`, `AssignKeepsOthers` and `AssignKeys` state |
| MmdbDecoder.CastTo64 | libtenzir/builtins/contexts/geoip.cpp:47-57 | the result equals the input modulo 2^64, which makes it the low 64 bits; the loss warning is emitted exactly when the input is at least 2^64; a value below 2^64 is returned unchanged |
| MmdbDecoder.ScalarValue | libtenzir/builtins/contexts/geoip.cpp:127-172 | the node-to-value mapping of both decoders: strings, byte strings, floating point, booleans and 32-bit signed integers keep their kind; each unsigned width, the narrowed 128-bit one included, becomes an unsigned value below 2^64 |
| MmdbDecoder.FuseBinds | libtenzir/builtins/contexts/geoip.cpp:207-213 | a decoded sub-map under `k`: with one entry, `k` gets that entry's value; when empty, `k` is left as it was; otherwise `k` gets the whole sub-record. Other keys are untouched |
| MmdbDecoder.Fuse | libtenzir/builtins/contexts/geoip.cpp:207-213 | the record decoder's `r[key] = ...` after a pair: it defines the step whose bindings `FuseBinds` states |
| MmdbDecoder.FuseKeys | libtenzir/builtins/contexts/geoip.cpp:207-213 | fusing keeps the record's key order; a non-empty sub-record under a new key appends that key, and an empty one adds nothing |
| MmdbDecoder.DecodeList | libtenzir/builtins/contexts/geoip.cpp:86-181 | the cursor stays within the list; the status is success or invalid data; on success the cursor has advanced and exactly one value is appended; on failure the list is unchanged |
| MmdbDecoder.DecodeRecord | libtenzir/builtins/contexts/geoip.cpp:183-284 | the cursor stays within the list; the status is success or invalid data; a success that leaves the cursor in place happens only on a 128-bit integer |
| MmdbDecoder.ArrayLoop | libtenzir/builtins/contexts/geoip.cpp:113-126 | the element loop keeps the cursor within the list and reports success or invalid data |
| MmdbDecoder.ListMapLoop | libtenzir/builtins/contexts/geoip.cpp:90-112 | the list decoder's pair loop keeps the cursor within the list and reports success or invalid data |
| MmdbDecoder.RecordMapLoop | libtenzir/builtins/contexts/geoip.cpp:188-216 | the record decoder's pair loop keeps the cursor within the list and reports success or invalid data |
| MmdbDecoder.EntryDataListToList | libtenzir/builtins/contexts/geoip.cpp:86-181 | the imperative list decoder returns exactly what `DecodeList` specifies |
| MmdbDecoder.EntryDataListToRecord | libtenzir/builtins/contexts/geoip.cpp:183-284 | the imperative record decoder returns exactly what `DecodeRecord` specifies |
| MmdbDecoder.DecodeElements | libtenzir/builtins/contexts/geoip.cpp:116-123 | the array loop, as a `while` loop, equals `ArrayLoop` |
| MmdbDecoder.DecodeSharedPairs | libtenzir/builtins/contexts/geoip.cpp:93-109 | the list decoder's map loop, which decodes into one shared record, equals `ListMapLoop` |
| MmdbDecoder.DecodeFusedPairs | libtenzir/builtins/contexts/geoip.cpp:191-215 | the record decoder's map loop, which decodes a fresh sub-record per pair, equals `RecordMapLoop` |
| MmdbEncoding.DecodeListOfFlat | libtenzir/builtins/contexts/geoip.cpp:86-181 | decoding the encoding of a value without sub-maps appends that value and consumes exactly its nodes |
| MmdbEncoding.DecodeListOfList | libtenzir/builtins/contexts/geoip.cpp:113-126 | an encoded array decodes to its list |
| MmdbEncoding.DecodeListOfRecord | libtenzir/builtins/contexts/geoip.cpp:90-112 | an encoded map without sub-maps decodes to its record |
| MmdbEncoding.DecodeItems | libtenzir/builtins/contexts/geoip.cpp:116-123 | the element loop over encoded items appends the items in order |
| MmdbEncoding.DecodeFlatField | libtenzir/builtins/contexts/geoip.cpp:183-284 | the record decoder assigns a non-map value to its key |
| MmdbEncoding.DecodeListField | libtenzir/builtins/contexts/geoip.cpp:217-230 | an array under a key is assigned to that key as a list |
| MmdbEncoding.DecodeSharedFields | libtenzir/builtins/contexts/geoip.cpp:93-109 | the list decoder's map loop assigns each field in turn to the one shared record |
| MmdbEncoding.DecodeNested | libtenzir/builtins/contexts/geoip.cpp:188-216 | an encoded map whose sub-maps have at least two entries is assigned field by field, keeping the nesting |
| MmdbEncoding.DecodeFusedFields | libtenzir/builtins/contexts/geoip.cpp:191-215 | the record decoder's map loop assigns each field, with a sub-map decoded into its own record |
| MmdbCases.LookupRoundTrip | libtenzir/builtins/contexts/geoip.cpp:328-331 | a record whose sub-maps have at least two entries, encoded and decoded as `apply` decodes it, comes back unchanged |
| MmdbCases.DumpRoundTrip | libtenzir/builtins/contexts/geoip.cpp:398-399 | a value without sub-maps, decoded as the dump decodes it, comes back as a single row |
| MmdbCases.SingleEntrySubMapCollapses | libtenzir/builtins/contexts/geoip.cpp:207-210 | `{k: {k2: v}}` decodes to `{k: v}` |
| MmdbCases.EmptySubMapVanishes | libtenzir/builtins/contexts/geoip.cpp:211-213 | `{k: {}}` decodes to `{}` |
| MmdbCases.DumpLosesSubMapKey | libtenzir/builtins/contexts/geoip.cpp:92-110 | in a dump row, `{k: g}` becomes `g`: the sub-map's key is lost |
| MmdbCases.Uint128StallsCursor | libtenzir/builtins/contexts/geoip.cpp:270-273 | the record decoder does not advance past a 128-bit value, so in a two-entry map that node is read again as a key and decoding fails |
| MmdbCases.Uint128LastEntryDecodes | libtenzir/builtins/contexts/geoip.cpp:270-273 | as the last map entry, a 128-bit value decodes, narrowed, with the cursor left on it |
| MmdbCases.NonStringKeyRejected | libtenzir/builtins/contexts/geoip.cpp:93-98 | at any pair of either map loop, whatever the pairs before it did, a key that is not a string ends the loop with invalid data at that key node; the record built so far is returned as it was at that pair: the shared record in the list decoder, and in the record decoder the record that the earlier pairs were fused into |
| MmdbCases.NonStringFirstKeyRejected | libtenzir/builtins/contexts/geoip.cpp:93-98 | the case of the first key: both decoders fail at the key node, with their output unchanged |
| MmdbCases.UnknownTypeRejected | libtenzir/builtins/contexts/geoip.cpp:174-177 | an unknown node type fails both decoders with invalid data, at that node |
| MmdbCases.LoopsStopQuietly | libtenzir/builtins/contexts/geoip.cpp:93-94 | all three loops (array elements, and the pairs of both map branches) stop with success and the output built so far when the declared count is used up or the list has ended, for any position, count and accumulator |
| MmdbCases.ShortArrayIsNotAnError | libtenzir/builtins/contexts/geoip.cpp:116-118 | an example: an array declaring three elements over a list holding one decodes to that one element, with success |
| TrieDump.EntryRows | libtenzir/builtins/contexts/geoip.cpp:386-409 | a data record contributes at most one row |
| TrieDump.WalkFrom | libtenzir/builtins/contexts/geoip.cpp:350-417 | the walk only ever adds to the visited set |
| TrieDump.WalkExtends | libtenzir/builtins/contexts/geoip.cpp:350-417 | every walk extends its start state: records are emitted at most once, each emitted record was newly visited and adds exactly its one row, and rows appear in emission order |
| TrieDump.DumpAccounts | libtenzir/builtins/contexts/geoip.cpp:419-428 | across a whole dump no data record is emitted twice, each emitted record adds exactly one row, and the rows are exactly those of the emitted records, in order |
| TrieDump.DumpWalk | libtenzir/builtins/contexts/geoip.cpp:419-423 | the dump's walk starts at search node 0 and always enters it; without that node it reports an invalid node number and no rows |
| TrieDump.DumpComplete | libtenzir/builtins/contexts/geoip.cpp:350-417 | when each record number is reached with one record type only, the walk enters every record reachable from search node 0, and emits every reachable data record whose entry decodes to a row |
| TrieDump.DumpSound | libtenzir/builtins/contexts/geoip.cpp:386-411 | every record the dump emits is a data record reachable from search node 0 |
| TrieDump.DumpEmitsExactly | libtenzir/builtins/contexts/geoip.cpp:419-428 | when each record number is reached with one record type only, the dump emits a record exactly when it is a reachable data record whose entry decodes to a row |
| TrieDump.SharedRecordDumpedOnce | libtenzir/builtins/contexts/geoip.cpp:352-355 | a data record reached from both children of the root adds its row once |
| TrieDump.LeftRowsFirst | libtenzir/builtins/contexts/geoip.cpp:364-379 | the left child's rows come before the right child's |
| TrieDump.LeftFailureOverwritten | libtenzir/builtins/contexts/geoip.cpp:359-360 | a failure in the left subtree does not stop the walk; the right subtree's later success overwrites the status |
| TrieDump.RightFailureReported | libtenzir/builtins/contexts/geoip.cpp:412-414 | an invalid record walked last leaves the invalid-data status and keeps the rows gathered before it |
| TrieDump.DumpState.DumpRecurse | libtenzir/builtins/contexts/geoip.cpp:350-417 | the imperative walk over the shared dump state produces the state `WalkFrom` specifies, with every yielded batch full |
| TrieDump.DumpState.VisitSearchNode | libtenzir/builtins/contexts/geoip.cpp:357-381 | a search node not in the trie sets the invalid-node-number status; otherwise the status is reset to success and the left subtree is walked, then the right |
| TrieDump.DumpState.VisitData | libtenzir/builtins/contexts/geoip.cpp:386-411 | a data record whose list cannot be read or decoded sets that status and adds nothing; otherwise its row is added |
| TrieDump.DumpState.AddRows | libtenzir/builtins/contexts/geoip.cpp:403-409 | the rows are appended in order, every yielded batch holds exactly the limit, and the open batch stays below it |
| TrieDump.DumpState.AddRow | libtenzir/builtins/contexts/geoip.cpp:404-408 | one row is appended, and the batch is yielded when it reaches the limit |
| TrieDump.Dump | libtenzir/builtins/contexts/geoip.cpp:419-428 | the batches are full except the last, which may be empty; together they hold exactly the walk's rows; the status is the walk's |
| Batches.BatchCount | libtenzir/builtins/contexts/geoip.cpp:403-409 | a finished dump holds `limit` rows per batch except the last |
| Batches.Push | libtenzir/builtins/contexts/lookup_table.cpp:101-108 | adding a row keeps every yielded batch full and the open batch below the limit, and appends exactly that row |
| Batches.Finish | libtenzir/builtins/contexts/lookup_table.cpp:110-112 | the final batch, possibly empty, completes the dump's shape and loses no row |
| GeoIp.LookupOne | libtenzir/builtins/contexts/geoip.cpp:290-340 | one input's result. It fails exactly when the resolver reports an error, the lookup status is not success, or an entry was found whose entry-data list cannot be read or does not decode. Any failure is a lookup error for the unquoted address. The result is null exactly when the lookup succeeds without finding an entry. Otherwise it is the record that the record decoder builds from the found entry |
| GeoIp.Address | libtenzir/builtins/contexts/geoip.cpp:294-298 | a string input loses its first and last character; other inputs are looked up as rendered |
| GeoIp.ApplyOutputs | libtenzir/builtins/contexts/geoip.cpp:287-343 | a successful `apply` has exactly one output per input, in order, each that input's result |
| GeoIp.ApplyAll | libtenzir/builtins/contexts/geoip.cpp:287-343 | `apply` over a whole series: on success there is one output per input |
| GeoIp.ApplyAllOk | libtenzir/builtins/contexts/geoip.cpp:287-343 | when every input has a result, `apply` succeeds with exactly those results |
| GeoIp.ApplyAllStops | libtenzir/builtins/contexts/geoip.cpp:287-343 | the first input whose lookup or decode fails makes the whole call fail with its error |
| GeoIp.FoundRecordReturned | libtenzir/builtins/contexts/geoip.cpp:314-336 | a found entry holding an encoded record whose sub-maps have at least two entries enriches to that record |
| GeoIp.LoadParams | libtenzir/builtins/contexts/geoip.cpp:496-510 | the loader fails with a serialization error exactly when the buffer or its url is missing; otherwise it passes the url as `db-path` |
| GeoIp.GeoIpContext.constructor | libtenzir/builtins/contexts/geoip.cpp:72-74 | construction runs `reset` and ignores its result: the path comes from the parameters, and a path that fails to open still gives a context |
| GeoIp.GeoIpContext.Show | libtenzir/builtins/contexts/geoip.cpp:346-348 | `show` is `{db-path: path}` |
| GeoIp.GeoIpContext.Reset | libtenzir/builtins/contexts/geoip.cpp:446-464 | the path is kept unless `db-path` is present and non-null; a held handle is closed before the path is opened; a failed open returns a filesystem error naming the path; success returns `show` |
| GeoIp.GeoIpContext.Save | libtenzir/builtins/contexts/geoip.cpp:471-479 | `save` writes version 1 holding only the path |
| GeoIp.GeoIpContext.Apply | libtenzir/builtins/contexts/geoip.cpp:287-343 | the imperative `apply` returns exactly what `ApplyAll` specifies |
| GeoIp.GeoIpContext.Enrich | libtenzir/builtins/contexts/geoip.cpp:290-340 | one loop iteration of `apply`, including the record decoder, returns exactly `LookupOne` |
| GeoIp.GeoIpContext.Dump | libtenzir/builtins/contexts/geoip.cpp:419-433 | the dump's batches and status are those of the trie walk; a failed status is logged |
| GeoIp.Update | libtenzir/builtins/contexts/geoip.cpp:436-440 | `update` always fails as unimplemented |
| GeoIp.Snapshot | libtenzir/builtins/contexts/geoip.cpp:466-469 | `snapshot` always fails as unimplemented |
| GeoIp.Load | libtenzir/builtins/contexts/geoip.cpp:492-511 | `load` fails with a serialization error exactly when the payload is unusable; otherwise the new context has the saved path, whether or not the path opens |
| GeoIp.SaveThenLoad | libtenzir/builtins/contexts/geoip.cpp:471-511 | loading what `save` wrote gives a context whose `show` equals the original's |
| LookupTable.EnumerationSize | libtenzir/builtins/contexts/lookup_table.cpp:72-84 | an iteration that lists every key once has as many elements as the table |
| LookupTable.Rows | libtenzir/builtins/contexts/lookup_table.cpp:101-104 | the dump emits one `{key, value}` row per key walked, in walk order |
| LookupTable.InsertedLastWins | libtenzir/builtins/contexts/lookup_table.cpp:157-165 | of several rows with the same key, the last one is stored |
| LookupTable.Inserted | libtenzir/builtins/contexts/lookup_table.cpp:157-165 | `insert_or_assign` of each row under its key, in row order; it defines the table whose contents `InsertedKeys`, `InsertedLastWins` and `InsertedKeepsOthers` state |
| LookupTable.InsertedKeys | libtenzir/builtins/contexts/lookup_table.cpp:157-165 | after the loop the table holds exactly its old keys and the keys of the rows |
| LookupTable.InsertedKeepsOthers | libtenzir/builtins/contexts/lookup_table.cpp:157-165 | a key that no row carries keeps its entry, or its absence |
| LookupTable.ClearStep | libtenzir/builtins/contexts/lookup_table.cpp:119-134 | `clear` absent: the table is kept; present without a value or empty: emptied; parses as true: emptied; parses as false: kept; does not parse: invalid argument |
| LookupTable.RunQuery | libtenzir/builtins/contexts/lookup_table.cpp:167-203 | a query gives `field in [keys]`; only the query from `make_query` reports a missing `field` as an invalid argument |
| LookupTable.Packs | libtenzir/builtins/contexts/lookup_table.cpp:217-233 | `save` writes one two-field record per key walked, in walk order |
| LookupTable.LoadEntry | libtenzir/builtins/contexts/lookup_table.cpp:276-308 | an element reads back exactly when it is a record with exactly two fields whose values both unpack; the key is the first field's value and the value the second's, whatever their names; any other element is a serialization error |
| LookupTable.LoadEntries | libtenzir/builtins/contexts/lookup_table.cpp:275-310 | every failure of the loader's loop is a serialization error |
| LookupTable.LoadTable | libtenzir/builtins/contexts/lookup_table.cpp:251-314 | every failure to load is a serialization error |
| LookupTable.LoadAllOrNothing | libtenzir/builtins/contexts/lookup_table.cpp:275-310 | loading succeeds exactly when every saved element reads back |
| LookupTable.LoadKeepsFirst | libtenzir/builtins/contexts/lookup_table.cpp:309 | an entry already loaded is never replaced by a later one |
| LookupTable.DuplicateKeyKeepsFirst | libtenzir/builtins/contexts/lookup_table.cpp:291-309 | of two saved entries with the same key, the first is kept; field names play no part, only positions |
| LookupTable.LoadPacks | libtenzir/builtins/contexts/lookup_table.cpp:275-310 | reading back saved entries adds exactly their keys, each with its saved value |
| LookupTable.SaveLoadRoundTrip | libtenzir/builtins/contexts/lookup_table.cpp:211-314 | loading what `save` wrote gives back exactly the table's entries |
| LookupTable.Table.Order | libtenzir/builtins/contexts/lookup_table.cpp:72 | iterating the hash map visits every key exactly once |
| LookupTable.Table.constructor | libtenzir/builtins/contexts/lookup_table.cpp:43 | a new context holds no entries |
| LookupTable.Table.FromEntries | libtenzir/builtins/contexts/lookup_table.cpp:45-46 | the loader's context holds exactly the given entries |
| LookupTable.Table.Apply | libtenzir/builtins/contexts/lookup_table.cpp:54-64 | one output per input, in order: the stored value when the key is present, otherwise null |
| LookupTable.Table.Snapshot | libtenzir/builtins/contexts/lookup_table.cpp:66-92 | fails as unimplemented exactly when two keys have different data kinds; otherwise returns `field in [every key]` |
| LookupTable.Table.Show | libtenzir/builtins/contexts/lookup_table.cpp:95-97 | `show` is a record with the single field `num_entries`, the current number of entries |
| LookupTable.Table.Dump | libtenzir/builtins/contexts/lookup_table.cpp:99-113 | every key is dumped once as a `{key, value}` row; batches are full except the last, which may be empty |
| LookupTable.Table.Update | libtenzir/builtins/contexts/lookup_table.cpp:116-180 | clear handling first (an unparseable `clear` fails before the table is touched); then a missing or null `key` is an invalid argument; an unresolved key column returns an empty record and stores nothing; otherwise every row is stored under its key, and the returned query holds one key per row, in row order |
| LookupTable.Table.MakeQuery | libtenzir/builtins/contexts/lookup_table.cpp:182-204 | the query lists every stored key exactly once |
| LookupTable.Table.Reset | libtenzir/builtins/contexts/lookup_table.cpp:206-209 | the table is emptied and `{num_entries: 0}` is returned |
| LookupTable.Table.Save | libtenzir/builtins/contexts/lookup_table.cpp:211-240 | `save` writes version 1, with one `{key, value}` record per entry |
| LookupTable.Load | libtenzir/builtins/contexts/lookup_table.cpp:251-314 | the imperative loader succeeds exactly when `LoadTable` does, and then holds its entries |
| LookupTable.SaveThenLoad | libtenzir/builtins/contexts/lookup_table.cpp:211-314 | a saved and reloaded table has the same entries |
| SocketTypeParser.Alternative | libtenzir/include/tenzir/concept/parseable/detail/posix.hpp:28-30 | a keyword literal matches exactly when the input begins with it, yields its socket type, and consumes just the keyword |
| SocketTypeParser.Choice | libtenzir/include/tenzir/concept/parseable/detail/posix.hpp:27-31 | the `|` combinator over the literals, tried in order: a success yields one of the offered types and consumes exactly its keyword; `ChoiceFindsKeyword` and `ChoiceFailsWithoutKeyword` state which result it gives |
| SocketTypeParser.Parse | libtenzir/include/tenzir/concept/parseable/detail/posix.hpp:24-33 | `socket_type_parser::parse` succeeds exactly when the input begins with one of the keywords, and then consumes just that keyword; `KeywordParses`, `NoKeywordFails` and `OrderIrrelevant` state its result |
| SocketTypeParser.AllKeywordsOffered | libtenzir/include/tenzir/concept/parseable/detail/posix.hpp:27-31 | the choice of all three keywords succeeds exactly when one of them begins the input |
| SocketTypeParser.PrefixFree | libtenzir/include/tenzir/concept/parseable/detail/posix.hpp:28-30 | no keyword is a prefix of another |
| SocketTypeParser.AtMostOneMatches | libtenzir/include/tenzir/concept/parseable/detail/posix.hpp:27-31 | at most one keyword begins any input |
| SocketTypeParser.ChoiceFindsKeyword | libtenzir/include/tenzir/concept/parseable/detail/posix.hpp:27-33 | a choice offering the keyword that begins the input parses it, and one not offering it fails, whatever the other alternatives and their order |
| SocketTypeParser.ChoiceFailsWithoutKeyword | libtenzir/include/tenzir/concept/parseable/detail/posix.hpp:27-33 | input beginning with no keyword fails any choice |
| SocketTypeParser.KeywordParses | libtenzir/include/tenzir/concept/parseable/detail/posix.hpp:28-30 | `datagram`, `stream` and `fd` parse to their socket types, leaving the rest of the input |
| SocketTypeParser.NoKeywordFails | libtenzir/include/tenzir/concept/parseable/detail/posix.hpp:27-33 | input beginning with none of the keywords does not parse |
| SocketTypeParser.OrderIrrelevant | libtenzir/include/tenzir/concept/parseable/detail/posix.hpp:27-31 | any order of the three alternatives parses every input the same way |
| NodeControl.NodeConnectionTimeout | libtenzir/src/node_control.cpp:23-35 | a read error gives the default; a configured zero gives the infinite timeout; any other value is returned unchanged |
| NodeControl.ErrorSkipsZeroRule | libtenzir/src/node_control.cpp:26-33 | the error path returns the default as is, so a zero default stays zero, while a configured zero becomes infinite |

## Left out

- The libmaxminddb calls are not modelled as code. Opening a file, reading a search node, looking up an address, reading an entry-data list, closing, and freeing lists are given data or function parameters. The scope guards that free lists have no effect on what is modelled.
- A map's key node is followed by a value node that the decoders read without a null check (geoip.cpp:103-105, 201-203). When the list ends right after a key, the source dereferences a null pointer. The model instead stops the map quietly, as the loop header does when the list runs out.
- Floating-point payloads are carried as opaque tokens. The `float` and `double` branches keep the payload without interpreting it.
- The dump is a coroutine generator in the source. The model returns the sequence of batches. Between batches, the checks of `status` at geoip.cpp:367 and 375 are not modelled: a batch is yielded only right after a successful decode, so those checks always see success and never stop the walk.
- `dump_batch_size_limit` and the default connection timeout are defined outside the modelled sources, so they are parameters (`limit`, `default`).
- `series_builder`, Arrow and flatbuffers are left out. Series are sequences of values. The saved GeoIP payload is an optional url. The saved table is a list of packed entries, and `unpack` either returns the packed value or fails.
- `fmt::to_string` of an input value is left out: `apply` receives the rendered strings. A string series renders each value with quotes, so those strings have at least two characters.
- GeoIp.GeoIpContext.Apply: requires an open handle. The source dereferences `mmdb_` without checking it, so a lookup through a handle whose open failed is not modelled.
- TrieDump.DumpComplete and TrieDump.DumpEmitsExactly: require that a record number is reached with one record type only (`KindsAgree`). The walk's visited set holds numbers without their types, so in a trie that reused a number for a search node and a data record, whichever is reached second would be skipped. The MaxMind DB format numbers search nodes, the empty record and data records in separate ranges, so a well-formed file meets the requirement.
- GeoIp.GeoIpContext.Dump: requires an open handle, following `TENZIR_ASSERT(mmdb_)`; a dump through a handle whose open failed is not modelled.
- The message text of errors and warnings is left out. Errors keep their code and, for lookup and filesystem errors, the address or path. Logging is a boolean (`logged` on the GeoIP dump, `lossy` on narrowing).
- LookupTable.Table.Update: requires at least one row, following `TENZIR_ASSERT(slice.rows() != 0)`. It also requires a resolved key column to have one value per row, following the assertions at lookup_table.cpp:158 and 166.
- LookupTable.Table.Snapshot and LookupTable.RunQuery (for the query `update` returns): require a `field` parameter, because the source dereferences it unchecked.
- Tenzir's `data` has more alternatives than the model: duration, time, IP address, subnet, enumeration, map and pattern. A key's data kind is the index of its alternative among the ones modelled.
- The GeoIP context's `make_query` returns an empty query function. Its default constructor and its unused `r_` field carry no behaviour.
- Plugin registration, loader version registration, and the socket-type parser's registry entry are type-level wiring with no behaviour. The registered parser is `SocketTypeParser.Parse`.
- `spawn_at_node`, the operator control plane interface and the Zeek format test are not part of this model.
- MmdbDecoder.CastTo64: models the branch for builds where `mmdb_uint128_t` is an integer type (geoip.cpp:47-57). The `MMDB_UINT128_IS_BYTE_ARRAY` branch (geoip.cpp:34-46) copies the first eight bytes of the array as the low half. Whether those are the low 64 bits depends on the array's byte order, which is not part of this model.
- Integer node types: `Uint16`, `Uint32` and `Uint64` are bounded by their widths. An `Int32` becomes an `Int`. A `Uint128` is narrowed by `CastTo64`.
