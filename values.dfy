/** Values, property maps, insertion-ordered dictionaries and errors shared by the model. */
module Values {

  /** A value as the driver passes it: Python None, a str, an int or a bool. */
  datatype Value = Null | Str(s: string) | Int(i: int) | Bool(b: bool)

  /** Python truthiness of a value (`if self._tenant_id:`). */
  predicate Truthy(v: Value) {
    match v
    case Null => false
    case Str(s) => s != ""
    case Int(i) => i != 0
    case Bool(b) => b
  }

  datatype Option<+T> = None | Some(value: T)

  /** The range of the 64-bit integers the driver can send. */
  const MinInt64 := -0x8000_0000_0000_0000
  const MaxInt64 := 0x7fff_ffff_ffff_ffff

  /** The driver can pack `v`: every value but an integer beyond 64 bits. */
  predicate Fits(v: Value) {
    v.Int? ==> MinInt64 <= v.i <= MaxInt64
  }

  /** What can go wrong; each constructor names the place that raises. */
  datatype Error =
    | SyntaxError            // the engine rejects the query text (an empty WHERE or SET list)
    | NullMergeKey           // MERGE on a null property value
    | NegativeLimit          // LIMIT with a negative count
    | TypeMismatch           // a map bound where a property value is expected, or the reverse
    | MissingParameter       // the query text names a parameter that was not passed
    | NoRecord               // `result.single()` found no row, so `[0]` raised
    | MissingKind(kind: string)  // `getattr(changeset, kind)` found no such attribute
    | DriverFailure          // the driver or the server raised (commit, rollback, connection)
    | ReloadFailure          // the metacontext reload after the commit raised
    | ArgumentClash          // a keyword named `self`, `query` or `parameters` collides with a call's own arguments
    | IntegerOverflow        // the driver cannot pack an integer outside the signed 64-bit range
    | ResultConsumed         // a result is iterated after the session that produced it was closed

  datatype Result<+T> = Ok(value: T) | Err(error: Error)

  datatype Outcome = Pass | Fail(error: Error)

  /** A property map as the store keeps it. */
  type Props = map<string, Value>

  /** Every value of a property map can be packed. */
  predicate PropsFit(p: Props) {
    forall k :: k in p ==> Fits(p[k])
  }

  /** The store never keeps a null property. */
  predicate NoNulls(p: Props) {
    forall k :: k in p ==> p[k] != Null
  }

  /** What `CREATE (n $p)` and `SET n = $p` store: every non-null entry of `p`. */
  function Stored(p: Props): (r: Props)
    ensures NoNulls(r)
    ensures forall k :: k in r <==> k in p && p[k] != Null
    ensures forall k :: k in r ==> r[k] == p[k]
  {
    map k | k in p && p[k] != Null :: p[k]
  }

  /** What `SET n += $p` leaves: non-null entries of `p` overwrite, null entries remove. */
  function MergeProps(cur: Props, p: Props): (r: Props)
    ensures forall k :: k in r <==> if k in p then p[k] != Null else k in cur
    ensures forall k :: k in r ==> r[k] == if k in p then p[k] else cur[k]
  {
    map k | k in cur.Keys + p.Keys && (if k in p then p[k] != Null else true)
      :: if k in p then p[k] else cur[k]
  }

  /** One `key: value` item of a Python dict, in insertion order. */
  type Entry = (string, Value)

  /** A Python dict never holds a key twice. */
  predicate DistinctKeys(d: seq<Entry>) {
    forall i, j :: 0 <= i < j < |d| ==> d[i].0 != d[j].0
  }

  /** Every value of a dict can be packed. */
  predicate DictFits(d: seq<Entry>) {
    forall i :: 0 <= i < |d| ==> Fits(d[i].1)
  }

  /** The keys of a dict. */
  function KeySet(d: seq<Entry>): set<string> {
    set i | 0 <= i < |d| :: d[i].0
  }

  /** The value the dict holds for `k`: that of the last item written with key `k`. */
  function Lookup(d: seq<Entry>, k: string): Option<Value>
  {
    if d == [] then None
    else if d[|d| - 1].0 == k then Some(d[|d| - 1].1)
    else Lookup(d[..|d| - 1], k)
  }

  /** The dict as a map (`dict(d)`). */
  function ToMap(d: seq<Entry>): map<string, Value>
  {
    if d == [] then map[] else ToMap(d[..|d| - 1])[d[|d| - 1].0 := d[|d| - 1].1]
  }

  /** `ToMap` holds exactly the dict's keys, each with the value `Lookup` finds. */
  lemma {:induction false} ToMapLookup(d: seq<Entry>, k: string)
    ensures k in ToMap(d) <==> k in KeySet(d)
    ensures k in ToMap(d) <==> Lookup(d, k).Some?
    ensures k in ToMap(d) ==> ToMap(d)[k] == Lookup(d, k).value
  {
    if d != [] {
      var p := d[..|d| - 1];
      ToMapLookup(p, k);
      assert KeySet(d) == KeySet(p) + {d[|d| - 1].0} by {
        forall x | x in KeySet(d) ensures x in KeySet(p) + {d[|d| - 1].0} {
          var i :| 0 <= i < |d| && d[i].0 == x;
          if i < |d| - 1 { assert p[i] == d[i]; }
        }
        forall x | x in KeySet(p) ensures x in KeySet(d) {
          var i :| 0 <= i < |p| && p[i].0 == x;
          assert d[i] == p[i];
        }
      }
    }
  }

  /** In a dict with distinct keys, the value for the key of item `i` is that item's value. */
  lemma {:induction false} LookupDistinct(d: seq<Entry>, i: nat)
    requires DistinctKeys(d)
    requires i < |d|
    ensures Lookup(d, d[i].0) == Some(d[i].1)
  {
    if i < |d| - 1 {
      var p := d[..|d| - 1];
      assert p[i] == d[i];
      LookupDistinct(p, i);
    }
  }
}
