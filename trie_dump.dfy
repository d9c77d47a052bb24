/**
 * The GeoIP context's dump (libtenzir/builtins/contexts/geoip.cpp): a
 * depth-first walk of a MaxMind DB search trie that decodes every data
 * record it reaches into one row and cuts the rows into batches.
 *
 * The database is given data: the search nodes as a finite map from node
 * number to the node's two children, and the data records as a function from
 * record number to what reading its entry-data list returns.
 */
module TrieDump {
  import opened Values
  import opened MmdbDecoder
  import opened Batches

  /** The record types a search-node child can have. */
  datatype RecordKind = SearchKind | EmptyKind | DataKind | InvalidKind

  datatype Child = Child(number: nat, kind: RecordKind)

  datatype SearchNode = SearchNode(left: Child, right: Child)

  /** A status other than success. */
  type Failure = s: Status | s != Success witness InvalidData

  /** An entry-data list as the library hands it out: never empty. */
  type NodeList = s: seq<EntryData> | |s| > 0 witness [OtherType(0)]

  /** The outcome of reading a data record's entry-data list. */
  datatype EntryRead = Read(nodes: NodeList) | ReadFailed(failure: Failure)

  datatype Database = Database(trie: map<nat, SearchNode>, entry: nat -> EntryRead)

  /** The state a dump threads through the walk (`current_dump`), with the
      rows not yet cut into batches and the data records whose row was added,
      in order. */
  datatype Walk = Walk(visited: set<nat>, status: Status, rows: seq<Data>, emitted: seq<nat>)

  /** The row a data record contributes: its entry decoded by the list
      decoder into an empty list, if reading and decoding succeed. */
  function EntryRows(db: Database, num: nat): (rows: seq<Data>)
    ensures |rows| <= 1
  {
    match db.entry(num)
    case ReadFailed(_) => []
    case Read(nodes) =>
      var d := DecodeList(nodes, 0, []);
      if d.status == Success then d.list else []
  }

  /** `dump_recurse` on the record `num` of type `kind`. */
  function WalkFrom(db: Database, num: nat, kind: RecordKind, w: Walk): (r: Walk)
    ensures w.visited <= r.visited
    decreases |db.trie.Keys - w.visited|
  {
    if num in w.visited then w
    else
      var w1 := w.(visited := w.visited + {num});
      match kind
      case SearchKind =>
        if num !in db.trie then w1.(status := InvalidNodeNumber)
        else
          var node := db.trie[num];
          Shrinks(db.trie.Keys, w.visited, w1.visited, num);
          var w2 := WalkFrom(db, node.left.number, node.left.kind, w1.(status := Success));
          Shrinks(db.trie.Keys, w.visited, w2.visited, num);
          WalkFrom(db, node.right.number, node.right.kind, w2)
      case EmptyKind => w1
      case DataKind =>
        (match db.entry(num)
         case ReadFailed(s) => w1.(status := s)
         case Read(nodes) =>
           var d := DecodeList(nodes, 0, []);
           if d.status != Success then w1.(status := d.status)
           else w1.(status := Success, rows := w1.rows + d.list, emitted := w1.emitted + [num]))
      case InvalidKind => w1.(status := InvalidData)
  }

  /** Visiting an unvisited node of the trie leaves fewer unvisited ones. */
  lemma Shrinks(keys: set<nat>, before: set<nat>, after: set<nat>, num: nat)
    requires num in keys && num !in before && before + {num} <= after
    ensures |keys - after| < |keys - before|
  {
    assert keys - after <= (keys - before) - {num};
    SubsetCard(keys - after, (keys - before) - {num});
  }

  lemma {:induction false} SubsetCard(a: set<nat>, b: set<nat>)
    requires a <= b
    ensures |a| <= |b|
    decreases b
  {
    if a != {} {
      var x :| x in a;
      SubsetCard(a - {x}, b - {x});
    }
  }

  /** The whole dump as `dump` starts it: from search node 0, with nothing
      visited and a successful status. */
  function DumpWalk(db: Database): (w: Walk)
    ensures 0 in w.visited
    ensures 0 !in db.trie ==> w.status == InvalidNodeNumber && w.rows == []
  {
    WalkFrom(db, 0, SearchKind, Walk({}, Success, [], []))
  }

  /** No record number occurs twice. */
  predicate NoDups(s: seq<nat>)
  {
    forall i, j :: 0 <= i < j < |s| ==> s[i] != s[j]
  }

  /** The rows of the records `es`, in order. */
  function RowsOf(db: Database, es: seq<nat>): seq<Data>
  {
    if es == [] then [] else RowsOf(db, es[..|es| - 1]) + EntryRows(db, es[|es| - 1])
  }

  lemma {:induction false} RowsOfAppend(db: Database, a: seq<nat>, b: seq<nat>)
    ensures RowsOf(db, a + b) == RowsOf(db, a) + RowsOf(db, b)
    decreases |b|
  {
    if b != [] {
      var b', e := b[..|b| - 1], b[|b| - 1];
      assert (a + b)[..|a + b| - 1] == a + b' && (a + b)[|a + b| - 1] == e;
      RowsOfAppend(db, a, b');
      Associative(RowsOf(db, a), RowsOf(db, b'), EntryRows(db, e));
    } else {
      assert a + b == a;
    }
  }

  lemma Associative<T>(x: seq<T>, y: seq<T>, z: seq<T>)
    ensures (x + y) + z == x + (y + z)
  {
  }

  /** Every emitted record was visited, and none was emitted twice. */
  predicate Consistent(w: Walk)
  {
    NoDups(w.emitted) && forall i :: 0 <= i < |w.emitted| ==> w.emitted[i] in w.visited
  }

  /** `b` continues `a`: nothing is unvisited, the emitted records grow by
      distinct records that were new, each adding exactly one row, and the
      rows grow by exactly those records' rows. */
  predicate Extends(db: Database, a: Walk, b: Walk)
  {
    && a.visited <= b.visited
    && Grows(a.emitted, b.emitted)
    && NewRecords(db, a, b)
    && b.rows == a.rows + RowsOf(db, b.emitted[|a.emitted|..])
  }

  predicate Grows(x: seq<nat>, y: seq<nat>)
  {
    |x| <= |y| && y[..|x|] == x
  }

  predicate NewRecords(db: Database, a: Walk, b: Walk)
    requires Grows(a.emitted, b.emitted)
  {
    && (forall i :: |a.emitted| <= i < |b.emitted| ==>
          b.emitted[i] in b.visited && b.emitted[i] !in a.visited && |EntryRows(db, b.emitted[i])| == 1)
    && (forall i, j :: |a.emitted| <= i < j < |b.emitted| ==> b.emitted[i] != b.emitted[j])
  }

  lemma SliceJoin(x: seq<nat>, y: seq<nat>, z: seq<nat>)
    requires Grows(x, y) && Grows(y, z)
    ensures Grows(x, z)
    ensures z[|x|..] == y[|x|..] + z[|y|..]
    ensures forall i :: |x| <= i < |y| ==> z[i] == y[i]
  {
    assert z[..|x|] == z[..|y|][..|x|];
    assert z[|x|..|y|] == y[|x|..];
    assert z[|x|..] == z[|x|..|y|] + z[|y|..];
  }

  lemma ExtendsRefl(db: Database, a: Walk, b: Walk)
    requires a.visited <= b.visited && a.emitted == b.emitted && a.rows == b.rows
    ensures Extends(db, a, b)
  {
    assert b.emitted[|a.emitted|..] == [];
  }

  lemma ExtendsTrans(db: Database, a: Walk, b: Walk, c: Walk)
    requires Extends(db, a, b) && Extends(db, b, c)
    ensures Extends(db, a, c)
  {
    SliceJoin(a.emitted, b.emitted, c.emitted);
    RowsTrans(db, a.rows, b.rows, c.rows, a.emitted, b.emitted, c.emitted);
    NewRecordsTrans(db, a, b, c);
  }

  lemma RowsTrans(db: Database, ra: seq<Data>, rb: seq<Data>, rc: seq<Data>, x: seq<nat>, y: seq<nat>, z: seq<nat>)
    requires Grows(x, y) && Grows(y, z)
    requires rb == ra + RowsOf(db, y[|x|..]) && rc == rb + RowsOf(db, z[|y|..])
    ensures rc == ra + RowsOf(db, z[|x|..])
  {
    var p, q := y[|x|..], z[|y|..];
    SliceJoin(x, y, z);
    assert z[|x|..] == p + q;
    RowsOfAppend(db, p, q);
    Associative(ra, RowsOf(db, p), RowsOf(db, q));
  }

  lemma NewRecordsTrans(db: Database, a: Walk, b: Walk, c: Walk)
    requires a.visited <= b.visited <= c.visited
    requires Grows(a.emitted, b.emitted) && Grows(b.emitted, c.emitted) && Grows(a.emitted, c.emitted)
    requires forall i :: |a.emitted| <= i < |b.emitted| ==> c.emitted[i] == b.emitted[i]
    requires NewRecords(db, a, b) && NewRecords(db, b, c)
    ensures NewRecords(db, a, c)
  {
    var na, nb := |a.emitted|, |b.emitted|;
    forall i | na <= i < |c.emitted|
      ensures c.emitted[i] in c.visited && c.emitted[i] !in a.visited && |EntryRows(db, c.emitted[i])| == 1
    {
      if i < nb {
        assert c.emitted[i] == b.emitted[i];
      }
    }
    forall i, j | na <= i < j < |c.emitted|
      ensures c.emitted[i] != c.emitted[j]
    {
      if j < nb {
        assert c.emitted[i] == b.emitted[i] && c.emitted[j] == b.emitted[j];
      } else if i < nb {
        assert c.emitted[i] == b.emitted[i] && b.emitted[i] in b.visited;
        assert c.emitted[j] !in b.visited;
      }
    }
  }

  lemma ExtendsKeepsConsistent(db: Database, a: Walk, b: Walk)
    requires Consistent(a) && Extends(db, a, b)
    ensures Consistent(b)
  {
    var n := |a.emitted|;
    forall i, j | 0 <= i < j < |b.emitted|
      ensures b.emitted[i] != b.emitted[j]
    {
      if j < n {
        assert b.emitted[i] == a.emitted[i] && b.emitted[j] == a.emitted[j];
      } else if i < n {
        assert b.emitted[i] == a.emitted[i] && a.emitted[i] in a.visited;
        assert b.emitted[j] !in a.visited;
      }
    }
    forall i | 0 <= i < |b.emitted|
      ensures b.emitted[i] in b.visited
    {
      if i < n {
        assert b.emitted[i] == a.emitted[i];
      }
    }
  }

  /** A walk only adds: what `dump_recurse` leaves behind extends what it
      was given. */
  lemma {:induction false} WalkExtends(db: Database, num: nat, kind: RecordKind, w: Walk)
    ensures Extends(db, w, WalkFrom(db, num, kind, w))
    decreases |db.trie.Keys - w.visited|
  {
    var r := WalkFrom(db, num, kind, w);
    if num in w.visited {
      ExtendsRefl(db, w, r);
    } else {
      var w1 := w.(visited := w.visited + {num});
      match kind
      case SearchKind =>
        if num !in db.trie {
          ExtendsRefl(db, w, r);
        } else {
          var node := db.trie[num];
          var w1' := w1.(status := Success);
          ExtendsRefl(db, w, w1');
          Shrinks(db.trie.Keys, w.visited, w1'.visited, num);
          WalkExtends(db, node.left.number, node.left.kind, w1');
          var w2 := WalkFrom(db, node.left.number, node.left.kind, w1');
          ExtendsTrans(db, w, w1', w2);
          Shrinks(db.trie.Keys, w.visited, w2.visited, num);
          WalkExtends(db, node.right.number, node.right.kind, w2);
          ExtendsTrans(db, w, w2, r);
        }
      case EmptyKind =>
        ExtendsRefl(db, w, r);
      case DataKind =>
        DataExtends(db, num, w);
      case InvalidKind =>
        ExtendsRefl(db, w, r);
    }
  }

  lemma DataExtends(db: Database, num: nat, w: Walk)
    requires num !in w.visited
    ensures Extends(db, w, WalkFrom(db, num, DataKind, w))
  {
    var r := WalkFrom(db, num, DataKind, w);
    if r.emitted == w.emitted {
      ExtendsRefl(db, w, r);
    } else {
      var nodes := db.entry(num).nodes;
      var d := DecodeList(nodes, 0, []);
      assert r.emitted == w.emitted + [num] && r.rows == w.rows + d.list;
      assert r.emitted[|w.emitted|..] == [num];
      assert RowsOf(db, [num]) == EntryRows(db, num) by {
        assert [num][..0] == [];
      }
    }
  }

  /** Over a whole dump: no data record is emitted twice, each emitted
      record adds exactly one row, and the rows are those records' rows in
      the order the walk reached them. */
  lemma DumpAccounts(db: Database)
    ensures NoDups(DumpWalk(db).emitted)
    ensures DumpWalk(db).rows == RowsOf(db, DumpWalk(db).emitted)
    ensures forall e :: e in DumpWalk(db).emitted ==> |EntryRows(db, e)| == 1
  {
    var w := Walk({}, Success, [], []);
    WalkExtends(db, 0, SearchKind, w);
    ExtendsKeepsConsistent(db, w, DumpWalk(db));
    assert DumpWalk(db).emitted[0..] == DumpWalk(db).emitted;
    forall e | e in DumpWalk(db).emitted
      ensures |EntryRows(db, e)| == 1
    {
      var i :| 0 <= i < |DumpWalk(db).emitted| && DumpWalk(db).emitted[i] == e;
    }
  }

  /** The record the dump starts from: search node 0. */
  const Start := Child(0, SearchKind)

  /** `c` is one of the two children of the search node `parent`. */
  predicate ChildOf(db: Database, parent: Child, c: Child)
  {
    && parent.kind == SearchKind
    && parent.number in db.trie
    && (c == db.trie[parent.number].left || c == db.trie[parent.number].right)
  }

  /** `p` leads from search node 0 down the trie, each record a child of
      the one before it. */
  predicate Path(db: Database, p: seq<Child>)
    decreases |p|
  {
    if |p| <= 1 then p == [Start]
    else Path(db, p[..|p| - 1]) && ChildOf(db, p[|p| - 2], p[|p| - 1])
  }

  /** Some path from search node 0 ends at `c`. */
  ghost predicate Reachable(db: Database, c: Child)
  {
    exists p :: |p| > 0 && Path(db, p) && p[|p| - 1] == c
  }

  /** A record number is reached with one record type only, as the
      database format guarantees by numbering search nodes, the empty
      record and data records in separate ranges. */
  ghost predicate KindsAgree(db: Database)
  {
    forall c, c' :: Reachable(db, c) && Reachable(db, c') && c.number == c'.number ==> c.kind == c'.kind
  }

  lemma StartReachable(db: Database)
    ensures Reachable(db, Start)
  {
    assert Path(db, [Start]);
  }

  lemma ChildReachable(db: Database, parent: Child, c: Child)
    requires Reachable(db, parent) && ChildOf(db, parent, c)
    ensures Reachable(db, c)
  {
    var p :| |p| > 0 && Path(db, p) && p[|p| - 1] == parent;
    var q := p + [c];
    assert q[..|q| - 1] == p;
    assert Path(db, q);
  }

  /** Every reachable search node that was entered and is no longer on the
      walk's stack (`open`) has both children entered. */
  ghost predicate Closed(db: Database, visited: set<nat>, open: set<nat>)
  {
    forall c :: Reachable(db, c) && c.kind == SearchKind && c.number in db.trie
                && c.number in visited && c.number !in open ==>
                  db.trie[c.number].left.number in visited && db.trie[c.number].right.number in visited
  }

  /** Every reachable data record that was entered and has a row was
      emitted. */
  ghost predicate DataDone(db: Database, w: Walk)
  {
    forall n :: Reachable(db, Child(n, DataKind)) && n in w.visited && |EntryRows(db, n)| == 1 ==> n in w.emitted
  }

  /** A data record entered for the first time is emitted exactly when it
      has a row. */
  lemma DataEmitted(db: Database, num: nat, w: Walk)
    requires num !in w.visited
    ensures var r := WalkFrom(db, num, DataKind, w);
            r.visited == w.visited + {num} && (forall e :: e in w.emitted ==> e in r.emitted)
            && (num in r.emitted <==> num in w.emitted || |EntryRows(db, num)| == 1)
            && (forall e :: e in r.emitted ==> e in w.emitted || e == num)
  {
    match db.entry(num)
    case ReadFailed(_) =>
    case Read(nodes) =>
      var d := DecodeList(nodes, 0, []);
      if d.status == Success {
        assert |d.list| == 1;
      }
  }

  /** Entering a record keeps `Closed` and `DataDone` and leaves its number
      visited: what a search node starts, its walk finishes. */
  lemma {:induction false} WalkCovers(db: Database, num: nat, kind: RecordKind, w: Walk, open: set<nat>)
    requires KindsAgree(db) && Reachable(db, Child(num, kind))
    requires open <= w.visited && Closed(db, w.visited, open) && DataDone(db, w)
    ensures var r := WalkFrom(db, num, kind, w);
            num in r.visited && Closed(db, r.visited, open) && DataDone(db, r)
    decreases |db.trie.Keys - w.visited|
  {
    if num in w.visited {
      return;
    }
    var r := WalkFrom(db, num, kind, w);
    var w1 := w.(visited := w.visited + {num});
    if kind == SearchKind && num in db.trie {
      var node := db.trie[num];
      var w1' := w1.(status := Success);
      var open' := open + {num};
      ChildReachable(db, Child(num, kind), node.left);
      ChildReachable(db, Child(num, kind), node.right);
      OpenedClosed(db, num, w, w1'.visited, open);
      Shrinks(db.trie.Keys, w.visited, w1'.visited, num);
      WalkCovers(db, node.left.number, node.left.kind, w1', open');
      var w2 := WalkFrom(db, node.left.number, node.left.kind, w1');
      Shrinks(db.trie.Keys, w.visited, w2.visited, num);
      WalkCovers(db, node.right.number, node.right.kind, w2, open');
      assert r == WalkFrom(db, node.right.number, node.right.kind, w2);
      SearchClosed(db, num, r.visited, open);
    } else {
      LeafClosed(db, num, kind, w, r, open);
    }
  }

  /** Entering a search node: it goes on the stack, so `Closed` holds with it. */
  lemma OpenedClosed(db: Database, num: nat, w: Walk, visited: set<nat>, open: set<nat>)
    requires KindsAgree(db) && Reachable(db, Child(num, SearchKind))
    requires Closed(db, w.visited, open) && DataDone(db, w) && visited == w.visited + {num}
    ensures Closed(db, visited, open + {num})
    ensures DataDone(db, w.(visited := visited, status := Success))
  {
    forall c | Reachable(db, c) && c.number == num
      ensures c.kind == SearchKind
    {
    }
  }

  /** Leaving a search node whose children are both entered. */
  lemma SearchClosed(db: Database, num: nat, visited: set<nat>, open: set<nat>)
    requires KindsAgree(db) && Reachable(db, Child(num, SearchKind)) && num in db.trie
    requires Closed(db, visited, open + {num})
    requires db.trie[num].left.number in visited && db.trie[num].right.number in visited
    ensures Closed(db, visited, open)
  {
    forall c | Reachable(db, c) && c.kind == SearchKind && c.number in db.trie && c.number in visited && c.number !in open
      ensures db.trie[c.number].left.number in visited && db.trie[c.number].right.number in visited
    {
      if c.number == num {
        assert c == Child(num, SearchKind);
      }
    }
  }

  /** Entering a record that has no children to walk. */
  lemma LeafClosed(db: Database, num: nat, kind: RecordKind, w: Walk, r: Walk, open: set<nat>)
    requires KindsAgree(db) && Reachable(db, Child(num, kind)) && num !in w.visited
    requires kind == SearchKind ==> num !in db.trie
    requires r == WalkFrom(db, num, kind, w)
    requires Closed(db, w.visited, open) && DataDone(db, w)
    ensures num in r.visited && Closed(db, r.visited, open) && DataDone(db, r)
  {
    if kind == DataKind {
      DataEmitted(db, num, w);
    }
    assert r.visited == w.visited + {num};
    forall c | Reachable(db, c) && c.number == num
      ensures c.kind == kind
    {
    }
    forall n | Reachable(db, Child(n, DataKind)) && n in r.visited && |EntryRows(db, n)| == 1
      ensures n in r.emitted
    {
      if n == num {
        assert Child(n, DataKind).kind == kind;
      } else if kind != DataKind {
        assert r.emitted == w.emitted;
      }
    }
  }

  /** Along a path of a closed walk, every record is entered. */
  lemma {:induction false} PathVisited(db: Database, p: seq<Child>, visited: set<nat>)
    requires |p| > 0 && Path(db, p)
    requires 0 in visited && Closed(db, visited, {})
    ensures p[|p| - 1].number in visited
    decreases |p|
  {
    if |p| > 1 {
      var q := p[..|p| - 1];
      PathVisited(db, q, visited);
      assert Reachable(db, p[|p| - 2]) by {
        assert q[|q| - 1] == p[|p| - 2];
      }
    }
  }

  /** Every record reachable from search node 0 is entered by the dump, and
      every reachable data record with a row is emitted. */
  lemma DumpComplete(db: Database)
    requires KindsAgree(db)
    ensures forall c :: Reachable(db, c) ==> c.number in DumpWalk(db).visited
    ensures forall n :: Reachable(db, Child(n, DataKind)) && |EntryRows(db, n)| == 1 ==> n in DumpWalk(db).emitted
  {
    StartReachable(db);
    var r := DumpWalk(db);
    WalkCovers(db, 0, SearchKind, Walk({}, Success, [], []), {});
    forall c | Reachable(db, c)
      ensures c.number in r.visited
    {
      var p :| |p| > 0 && Path(db, p) && p[|p| - 1] == c;
      PathVisited(db, p, r.visited);
    }
  }

  /** Every record the walk emits is a data record reached through the trie. */
  ghost predicate EmittedReachable(db: Database, w: Walk)
  {
    forall i :: 0 <= i < |w.emitted| ==> Reachable(db, Child(w.emitted[i], DataKind))
  }

  lemma {:induction false} WalkSound(db: Database, num: nat, kind: RecordKind, w: Walk)
    requires Reachable(db, Child(num, kind)) && EmittedReachable(db, w)
    ensures EmittedReachable(db, WalkFrom(db, num, kind, w))
    decreases |db.trie.Keys - w.visited|
  {
    if num !in w.visited {
      if kind == SearchKind && num in db.trie {
        var node := db.trie[num];
        var w1 := w.(visited := w.visited + {num}, status := Success);
        ChildReachable(db, Child(num, kind), node.left);
        ChildReachable(db, Child(num, kind), node.right);
        Shrinks(db.trie.Keys, w.visited, w1.visited, num);
        WalkSound(db, node.left.number, node.left.kind, w1);
        var w2 := WalkFrom(db, node.left.number, node.left.kind, w1);
        Shrinks(db.trie.Keys, w.visited, w2.visited, num);
        WalkSound(db, node.right.number, node.right.kind, w2);
      } else {
        LeafSound(db, num, kind, w);
      }
    }
  }

  lemma LeafSound(db: Database, num: nat, kind: RecordKind, w: Walk)
    requires Reachable(db, Child(num, kind)) && EmittedReachable(db, w) && num !in w.visited
    requires kind == SearchKind ==> num !in db.trie
    ensures EmittedReachable(db, WalkFrom(db, num, kind, w))
  {
    var r := WalkFrom(db, num, kind, w);
    if kind == DataKind {
      DataEmitted(db, num, w);
      assert r.emitted == w.emitted || r.emitted == w.emitted + [num];
    } else {
      assert r.emitted == w.emitted;
    }
  }

  /** Every record the dump emits is a data record reachable from search
      node 0. */
  lemma DumpSound(db: Database)
    ensures forall e :: e in DumpWalk(db).emitted ==> Reachable(db, Child(e, DataKind))
  {
    StartReachable(db);
    WalkSound(db, 0, SearchKind, Walk({}, Success, [], []));
    forall e | e in DumpWalk(db).emitted
      ensures Reachable(db, Child(e, DataKind))
    {
      var i :| 0 <= i < |DumpWalk(db).emitted| && DumpWalk(db).emitted[i] == e;
    }
  }

  /** The records a dump emits are exactly the reachable data records that
      have a row; with `DumpAccounts`, its rows are exactly their rows,
      each once. */
  lemma DumpEmitsExactly(db: Database)
    requires KindsAgree(db)
    ensures forall n :: n in DumpWalk(db).emitted <==> Reachable(db, Child(n, DataKind)) && |EntryRows(db, n)| == 1
  {
    DumpComplete(db);
    DumpSound(db);
    DumpAccounts(db);
  }

  /** A trie whose root points at two records. */
  function Root(left: Child, right: Child): map<nat, SearchNode>
  {
    map[0 := SearchNode(left, right)]
  }

  /** The walk's first step: search node 0 is marked visited and read. */
  lemma RootEntered(db: Database) returns (w1: Walk)
    requires 0 in db.trie
    ensures w1 == Walk({0}, Success, [], [])
    ensures DumpWalk(db)
         == WalkFrom(db, db.trie[0].right.number, db.trie[0].right.kind,
                     WalkFrom(db, db.trie[0].left.number, db.trie[0].left.kind, w1))
  {
    w1 := Walk({0}, Success, [], []);
    assert Walk({}, Success, [], []).(visited := {} + {0}).(status := Success) == w1;
  }

  /** A data record reached twice adds its row once. */
  lemma SharedRecordDumpedOnce(db: Database, e: nat, row: Data)
    requires db.trie == Root(Child(e, DataKind), Child(e, DataKind)) && e != 0
    requires EntryRows(db, e) == [row]
    ensures DumpWalk(db).rows == [row] && DumpWalk(db).status == Success
  {
    var w1 := RootEntered(db);
    var w2 := WalkFrom(db, e, DataKind, w1);
    assert w2 == Walk({0, e}, Success, [row], [e]);
    assert DumpWalk(db) == WalkFrom(db, e, DataKind, w2);
  }

  /** The left child is walked before the right one. */
  lemma LeftRowsFirst(db: Database, a: nat, b: nat, ra: Data, rb: Data)
    requires db.trie == Root(Child(a, DataKind), Child(b, DataKind))
    requires a != 0 && b != 0 && a != b
    requires EntryRows(db, a) == [ra] && EntryRows(db, b) == [rb]
    ensures DumpWalk(db).rows == [ra, rb] && DumpWalk(db).status == Success
  {
    var w1 := RootEntered(db);
    var w2 := WalkFrom(db, a, DataKind, w1);
    assert w2 == Walk({0, a}, Success, [ra], [a]);
    assert DumpWalk(db) == WalkFrom(db, b, DataKind, w2);
    assert WalkFrom(db, b, DataKind, w2) == Walk({0, a, b}, Success, [ra, rb], [a, b]);
  }

  /** A failure in the left subtree does not stop the walk: the right child
      is still dumped, and its success overwrites the earlier status. */
  lemma LeftFailureOverwritten(db: Database, bad: nat, e: nat, row: Data)
    requires db.trie == Root(Child(bad, InvalidKind), Child(e, DataKind))
    requires bad != 0 && e != 0 && bad != e
    requires EntryRows(db, e) == [row]
    ensures DumpWalk(db).rows == [row] && DumpWalk(db).status == Success
  {
    var w1 := RootEntered(db);
    var w2 := WalkFrom(db, bad, InvalidKind, w1);
    assert w2 == Walk({0, bad}, InvalidData, [], []);
    assert DumpWalk(db) == WalkFrom(db, e, DataKind, w2);
    assert WalkFrom(db, e, DataKind, w2) == Walk({0, bad, e}, Success, [row], [e]);
  }

  /** A failure in the last record walked is the one the dump reports. */
  lemma RightFailureReported(db: Database, e: nat, bad: nat, row: Data)
    requires db.trie == Root(Child(e, DataKind), Child(bad, InvalidKind))
    requires bad != 0 && e != 0 && bad != e
    requires EntryRows(db, e) == [row]
    ensures DumpWalk(db).rows == [row] && DumpWalk(db).status == InvalidData
  {
    var w1 := RootEntered(db);
    var w2 := WalkFrom(db, e, DataKind, w1);
    assert w2 == Walk({0, e}, Success, [row], [e]);
    assert DumpWalk(db) == WalkFrom(db, bad, InvalidKind, w2);
    assert WalkFrom(db, bad, InvalidKind, w2) == Walk({0, e, bad}, InvalidData, [row], [e]);
  }

  /** Without search node 0 the dump reads nothing and reports the bad
      node number. */
  lemma MissingRoot(db: Database)
    requires 0 !in db.trie
    ensures DumpWalk(db) == Walk({0}, InvalidNodeNumber, [], [])
  {
  }

  /** `current_dump`: the visited set, the status, the rows of the open
      batch (`builder`) and the batches yielded so far, in order. */
  class DumpState {
    var visited: set<nat>
    var status: Status
    var builder: seq<Data>
    var batches: seq<seq<Data>>
    ghost var emitted: seq<nat>

    /** Every yielded batch is full and the open one is not. */
    ghost predicate Valid(limit: nat)
      reads this
    {
      FullBatches(batches, limit) && |builder| < limit
    }

    /** The state as a walk: all rows, yielded or not, in order. */
    ghost function State(): Walk
      reads this
    {
      Walk(visited, status, Concat(batches) + builder, emitted)
    }

    constructor ()
      ensures visited == {} && status == Success && builder == [] && batches == [] && emitted == []
    {
      visited, status, builder, batches := {}, Success, [], [];
      emitted := [];
    }

    /** `dump_recurse`: each record number is entered at most once; a
        search node walks its left child and then its right child. */
    method DumpRecurse(db: Database, num: nat, kind: RecordKind, limit: nat)
      requires limit > 0 && Valid(limit)
      modifies this
      ensures Valid(limit)
      ensures State() == WalkFrom(db, num, kind, old(State()))
      decreases |db.trie.Keys - visited|, 1
    {
      if num in visited {
        return;
      }
      visited := visited + {num};
      match kind {
        case SearchKind =>
          VisitSearchNode(db, num, limit);
        case EmptyKind =>
        case DataKind =>
          VisitData(db, num, limit);
        case InvalidKind =>
          status := InvalidData;
      }
    }

    /** A search node just marked visited: `MMDB_read_node`, then both children. */
    method VisitSearchNode(db: Database, num: nat, limit: nat)
      requires limit > 0 && Valid(limit) && num in visited
      modifies this
      ensures Valid(limit)
      ensures State() == (if num !in db.trie then old(State()).(status := InvalidNodeNumber)
                          else
                            var node := db.trie[num];
                            var w2 := WalkFrom(db, node.left.number, node.left.kind, old(State()).(status := Success));
                            WalkFrom(db, node.right.number, node.right.kind, w2))
      decreases |db.trie.Keys - (visited - {num})|, 0
    {
      if num !in db.trie {
        status := InvalidNodeNumber;
        return;
      }
      status := Success;
      var node := db.trie[num];
      ghost var before := visited - {num};
      Shrinks(db.trie.Keys, before, visited, num);
      DumpRecurse(db, node.left.number, node.left.kind, limit);
      Shrinks(db.trie.Keys, before, visited, num);
      DumpRecurse(db, node.right.number, node.right.kind, limit);
    }

    /** A data record just marked visited: its row, if it decodes, goes to
        the open batch. */
    method VisitData(db: Database, num: nat, limit: nat)
      requires limit > 0 && Valid(limit)
      modifies this
      ensures Valid(limit)
      ensures State() == (match db.entry(num)
                          case ReadFailed(s) => old(State()).(status := s)
                          case Read(nodes) =>
                            var d := DecodeList(nodes, 0, []);
                            if d.status != Success then old(State()).(status := d.status)
                            else old(State()).(status := Success, rows := old(State()).rows + d.list,
                                               emitted := old(State()).emitted + [num]))
    {
      match db.entry(num) {
        case ReadFailed(s) =>
          status := s;
        case Read(nodes) =>
          var output, _, st := EntryDataListToList(nodes, 0, []);
          status := st;
          if st == Success {
            emitted := emitted + [num];
            AddRows(output, limit);
          }
      }
    }

    /** Adds rows to the open batch, yielding it whenever it reaches the limit. */
    method AddRows(rows: seq<Data>, limit: nat)
      requires limit > 0 && Valid(limit)
      modifies this
      ensures Valid(limit)
      ensures Concat(batches) + builder == old(Concat(batches) + builder) + rows
      ensures visited == old(visited) && status == old(status) && emitted == old(emitted)
    {
      ghost var start := Concat(batches) + builder;
      for i := 0 to |rows|
        invariant Valid(limit)
        invariant Concat(batches) + builder == start + rows[..i]
        invariant visited == old(visited) && status == old(status) && emitted == old(emitted)
      {
        AddRow(rows[i], limit);
        assert rows[..i + 1] == rows[..i] + [rows[i]];
      }
      assert rows[..|rows|] == rows;
    }

    /** `builder.data(x)`, and the batch is yielded once it holds `limit` rows. */
    method AddRow(x: Data, limit: nat)
      requires limit > 0 && Valid(limit)
      modifies this
      ensures Valid(limit)
      ensures Concat(batches) + builder == old(Concat(batches) + builder) + [x]
      ensures visited == old(visited) && status == old(status) && emitted == old(emitted)
    {
      batches, builder := Push(batches, builder, x, limit);
    }
  }

  /** `dump`: the walk from search node 0, then the final batch, which is
      yielded even when empty. */
  method Dump(db: Database, limit: nat) returns (batches: seq<seq<Data>>, status: Status)
    requires limit > 0
    ensures DumpShape(batches, limit)
    ensures Concat(batches) == DumpWalk(db).rows
    ensures status == DumpWalk(db).status
  {
    var st := new DumpState();
    assert st.State() == Walk({}, Success, [], []);
    st.DumpRecurse(db, 0, SearchKind, limit);
    Finish(st.batches, st.builder, limit);
    batches := st.batches + [st.builder];
    status := st.status;
  }
}
