/**
 * The generic value model (Tenzir's `data`): null, booleans, 64-bit integers,
 * floating point (carried as an opaque token), strings, blobs, lists and
 * records. A record is an insertion-ordered map from field name to value:
 * assigning to a present key overwrites it in place, assigning to a new key
 * appends it.
 */
module Values {
  import opened Wrappers

  /** A floating-point payload. Its bits are carried, never interpreted. */
  datatype FloatingPoint = FloatingPoint(bits: nat)

  datatype Data =
    | Null
    | Bool(b: bool)
    | Int(i: int)
    | UInt(u: nat)
    | Real(r: FloatingPoint)
    | Str(s: string)
    | Blob(bytes: seq<nat>)
    | List(items: seq<Data>)
    | Record(fields: seq<Field>)

  datatype Field = Field(key: string, value: Data)

  /** The alternative index of the value's variant (`data::get_data().index()`). */
  function Kind(d: Data): nat
  {
    match d
    case Null => 0
    case Bool(_) => 1
    case Int(_) => 2
    case UInt(_) => 3
    case Real(_) => 4
    case Str(_) => 5
    case Blob(_) => 6
    case List(_) => 7
    case Record(_) => 8
  }

  /** The record's keys, in order. */
  function Keys(r: seq<Field>): (ks: seq<string>)
    ensures |ks| == |r|
  {
    if r == [] then [] else [r[0].key] + Keys(r[1..])
  }

  /** No two fields of the record share a key. */
  predicate UniqueKeys(r: seq<Field>)
  {
    r == [] || (r[0].key !in Keys(r[1..]) && UniqueKeys(r[1..]))
  }

  /** The value bound to `k`, if any (the first field with that key). */
  function Get(r: seq<Field>, k: string): Option<Data>
  {
    if r == [] then None
    else if r[0].key == k then Some(r[0].value)
    else Get(r[1..], k)
  }

  /** `r[k] = v` on an insertion-ordered record: an existing field with key
      `k` is overwritten in place, otherwise the field goes to the end. */
  function Assign(r: seq<Field>, k: string, v: Data): seq<Field>
  {
    if r == [] then [Field(k, v)]
    else if r[0].key == k then [Field(k, v)] + r[1..]
    else [r[0]] + Assign(r[1..], k, v)
  }

  /** After `r[k] = v`, the key is bound to `v`. */
  lemma {:induction false} AssignBinds(r: seq<Field>, k: string, v: Data)
    ensures Get(Assign(r, k, v), k) == Some(v)
  {
    if r != [] && r[0].key != k {
      AssignBinds(r[1..], k, v);
    }
  }

  /** After `r[k] = v`, every other key keeps its value. */
  lemma {:induction false} AssignKeepsOthers(r: seq<Field>, k: string, v: Data, k': string)
    requires k' != k
    ensures Get(Assign(r, k, v), k') == Get(r, k')
  {
    if r != [] && r[0].key != k {
      AssignKeepsOthers(r[1..], k, v, k');
    }
  }

  /** `r[k] = v` keeps the key order and appends a new key at the end. */
  lemma {:induction false} AssignKeys(r: seq<Field>, k: string, v: Data)
    ensures Keys(Assign(r, k, v)) == if k in Keys(r) then Keys(r) else Keys(r) + [k]
  {
    if r != [] {
      assert Keys(r) == [r[0].key] + Keys(r[1..]);
      if r[0].key != k {
        AssignKeys(r[1..], k, v);
        assert Keys([r[0]] + Assign(r[1..], k, v)) == [r[0].key] + Keys(Assign(r[1..], k, v));
      }
    }
  }
}
