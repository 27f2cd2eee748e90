/**
 * Python runtime values as they appear in this core: field defaults, the values that
 * instantiators build, and the choices of `Literal` types.
 */
module Values {
  import opened Wrappers
  import opened Text

  /** The container a variable-length sequence annotation builds (`container_type(out)`). */
  datatype Container = ListC | TupleC | SetC | FrozenSetC | DequeC {
    /** `isinstance(x, collections.abc.Sequence)` for a value of this container. */
    predicate IsSequence() { ListC? || TupleC? || DequeC? }
    predicate IsSet() { SetC? || FrozenSetC? }
  }

  newtype Byte = x: int | 0 <= x < 256

  datatype PyValue =
    | PyNone
    | PyBool(b: bool)
    | PyStr(s: string)
    | PyEnum(enumName: string, member: string)
    /** Any other scalar (int, float, Path ...), carried by its `str()`. */
    | PyOther(text: string)
    /** A `bytes` object: a sequence of ints in 0..255. */
    | PyBytes(data: seq<Byte>)
    | PyCollection(kind: Container, items: seq<PyValue>)
    /** A `dict`: entries in insertion order, keys pairwise distinct. */
    | PyDict(entries: seq<Entry>)

  datatype Entry = Entry(key: PyValue, val: PyValue)

  /** The value stored under `k`, as `d.get(k)`. */
  function Lookup(entries: seq<Entry>, k: PyValue): Option<PyValue>
  {
    if entries == [] then None
    else if entries[0].key == k then Some(entries[0].val)
    else Lookup(entries[1..], k)
  }

  ghost predicate DistinctKeys(entries: seq<Entry>)
  {
    forall i, j :: 0 <= i < j < |entries| ==> entries[i].key != entries[j].key
  }

  /** `d[k] = v`: an existing key keeps its position and takes the new value. */
  function DictPut(entries: seq<Entry>, k: PyValue, v: PyValue): seq<Entry>
  {
    if entries == [] then [Entry(k, v)]
    else if entries[0].key == k then [Entry(k, v)] + entries[1..]
    else [entries[0]] + DictPut(entries[1..], k, v)
  }

  lemma {:induction false} DictPutLookup(entries: seq<Entry>, k: PyValue, v: PyValue, q: PyValue)
    ensures Lookup(DictPut(entries, k, v), q) == if q == k then Some(v) else Lookup(entries, q)
  {
    if entries != [] && entries[0].key != k {
      DictPutLookup(entries[1..], k, v, q);
      assert DictPut(entries, k, v)[1..] == DictPut(entries[1..], k, v);
    }
  }

  /** Every entry after `d[k] = v` has the key `k` or was already in the dict. */
  lemma {:induction false} DictPutFrom(entries: seq<Entry>, k: PyValue, v: PyValue)
    ensures forall e :: e in DictPut(entries, k, v) ==> e.key == k || e in entries
  {
    if entries != [] {
      assert forall e :: e in entries[1..] ==> e in entries;
      if entries[0].key != k {
        DictPutFrom(entries[1..], k, v);
        assert DictPut(entries, k, v) == [entries[0]] + DictPut(entries[1..], k, v);
      }
    }
  }

  /** `d[k] = v` keeps the keys distinct. */
  lemma {:induction false} DictPutDistinct(entries: seq<Entry>, k: PyValue, v: PyValue)
    requires DistinctKeys(entries)
    ensures DistinctKeys(DictPut(entries, k, v))
  {
    if entries != [] {
      var r := DictPut(entries, k, v);
      if entries[0].key == k {
        forall i, j | 0 <= i < j < |r| ensures r[i].key != r[j].key {
          if i > 0 { assert r[i] == entries[i]; }
          assert r[j] == entries[j];
        }
      } else {
        var rest := DictPut(entries[1..], k, v);
        DictPutDistinct(entries[1..], k, v);
        DictPutFrom(entries[1..], k, v);
        assert r == [entries[0]] + rest;
        forall e | e in rest ensures e.key != entries[0].key {
          if e.key != k {
            var i :| 0 <= i < |entries[1..]| && entries[1..][i] == e;
            assert entries[i + 1] == e;
          }
        }
        forall i, j | 0 <= i < j < |r| ensures r[i].key != r[j].key {
          if i > 0 { assert r[i] == rest[i - 1] && r[j] == rest[j - 1]; }
          else { assert r[j] == rest[j - 1] && r[j] in rest; }
        }
      }
    }
  }

  /** `set(items)` keeps one copy of each element (its last occurrence); Python's iteration order is not modelled. */
  function Dedup(items: seq<PyValue>): (r: seq<PyValue>)
    ensures forall x :: x in r <==> x in items
    ensures forall i, j :: 0 <= i < j < |r| ==> r[i] != r[j]
  {
    if items == [] then []
    else if items[0] in items[1..] then Dedup(items[1..])
    else [items[0]] + Dedup(items[1..])
  }

  /** `container_type(out)`. */
  function MakeContainer(kind: Container, items: seq<PyValue>): PyValue
  {
    PyCollection(kind, if kind.IsSet() then Dedup(items) else items)
  }

  /** `str(x)`. */
  function Str(x: PyValue): string
    decreases x, 1
  {
    match x
    case PyNone => "None"
    case PyBool(b) => if b then "True" else "False"
    case PyStr(s) => s
    case PyEnum(c, m) => c + "." + m
    case PyOther(t) => t
    case PyBytes(d) => "b'" + seq(|d|, i requires 0 <= i < |d| => d[i] as int as char) + "'"
    case PyCollection(kind, items) =>
      var inner := Join(", ", seq(|items|, i requires 0 <= i < |items| => Repr(items[i])));
      (match kind
       case ListC => "[" + inner + "]"
       case TupleC => "(" + inner + (if |items| == 1 then "," else "") + ")"
       case SetC => if items == [] then "set()" else "{" + inner + "}"
       case FrozenSetC => "frozenset(" + (if items == [] then "" else "{" + inner + "}") + ")"
       case DequeC => "deque([" + inner + "])")
    case PyDict(entries) =>
      "{" + Join(", ", seq(|entries|, i requires 0 <= i < |entries| => EntryRepr(x, i))) + "}"
  }

  function EntryRepr(d: PyValue, i: nat): string
    requires d.PyDict? && i < |d.entries|
    decreases d, 0
  {
    Repr(d.entries[i].key) + ": " + Repr(d.entries[i].val)
  }

  /** `repr(x)`: strings are quoted (escapes are not modelled). */
  function Repr(x: PyValue): string
    decreases x, 2
  {
    match x
    case PyStr(s) => "'" + s + "'"
    case PyEnum(c, m) => "<" + c + "." + m + ">"
    case _ => Str(x)
  }

  /** `hasattr(x, "__iter__")`. */
  predicate IsIterable(x: PyValue)
  {
    x.PyStr? || x.PyBytes? || x.PyCollection? || x.PyDict?
  }

  /** The elements `iter(x)` yields: characters of a string, the ints of a bytes object, items, or dict keys. */
  function Iterate(x: PyValue): seq<PyValue>
  {
    match x
    case PyStr(s) => seq(|s|, i requires 0 <= i < |s| => PyStr([s[i]]))
    case PyBytes(d) => seq(|d|, i requires 0 <= i < |d| => PyOther(NatText(d[i] as nat)))
    case PyCollection(_, items) => items
    case PyDict(entries) => seq(|entries|, i requires 0 <= i < |entries| => entries[i].key)
    case _ => []
  }
}
