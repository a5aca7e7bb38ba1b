/** The data a record holds: the scalars, dicts and collections that a parsed YAML
    definition contains, plus references to records of the store (a Python `C`
    object held as a value). Dicts keep insertion order, as Python's do. */
module Values {
  import opened Wrappers

  datatype Kind = ListK | TupleK | SetK

  datatype Value =
    | Str(s: string)
    | Int(i: int)
    | Bool(b: bool)
    | NoneV
    /** The falsy `junk` sentinel of event.py:21-29. */
    | Junk
    | Dict(entries: seq<(string, Value)>)
    | Coll(kind: Kind, elems: seq<Value>)
    /** A record of the store, by its id. */
    | Ref(id: nat)

  /** A dict's entries in insertion order. */
  type Entries = seq<(string, Value)>

  function Keys(d: Entries): set<string>
  {
    if d == [] then {} else {d[0].0} + Keys(d[1..])
  }

  /** A Python dict never holds a key twice. */
  predicate DistinctKeys(d: Entries)
  {
    d == [] || (d[0].0 !in Keys(d[1..]) && DistinctKeys(d[1..]))
  }

  lemma {:induction false} KeysAt(d: Entries, k: string)
    ensures k in Keys(d) <==> exists i :: 0 <= i < |d| && d[i].0 == k
  {
    if d != [] {
      KeysAt(d[1..], k);
      if k in Keys(d[1..]) {
        var i :| 0 <= i < |d[1..]| && d[1..][i].0 == k;
        assert d[i + 1].0 == k;
      }
      if exists i :: 0 <= i < |d| && d[i].0 == k {
        var i :| 0 <= i < |d| && d[i].0 == k;
        if i > 0 {
          assert d[1..][i - 1].0 == k;
        }
      }
    }
  }

  /** Distinct keys: no two entries share a key. */
  lemma {:induction false} DistinctAt(d: Entries, i: nat, j: nat)
    requires DistinctKeys(d) && i < j < |d|
    ensures d[i].0 != d[j].0
  {
    if i == 0 {
      KeysAt(d[1..], d[j].0);
      assert d[1..][j - 1] == d[j];
    } else {
      DistinctAt(d[1..], i - 1, j - 1);
    }
  }

  /** `d.get(k)`: the value of the first entry with key `k`. */
  function Find(d: Entries, k: string): (r: Option<Value>)
    ensures r.None? <==> k !in Keys(d)
    ensures r.Some? ==> (k, r.value) in d
  {
    if d == [] then None
    else if d[0].0 == k then Some(d[0].1)
    else Find(d[1..], k)
  }

  /** In a dict with distinct keys, an entry is what looking its key up finds. */
  lemma {:induction false} FindEntry(d: Entries, i: nat)
    requires DistinctKeys(d) && i < |d|
    ensures Find(d, d[i].0) == Some(d[i].1)
  {
    if i > 0 {
      FindEntry(d[1..], i - 1);
      KeysAt(d[1..], d[i].0);
      assert d[1..][i - 1] == d[i];
    }
  }

  /** `d[k] = v`: overwrite the value in place when `k` is present, else append. */
  function SetKey(d: Entries, k: string, v: Value): (r: Entries)
    ensures Find(r, k) == Some(v)
    ensures forall k' :: k' != k ==> Find(r, k') == Find(d, k')
    ensures Keys(r) == Keys(d) + {k}
  {
    if d == [] then [(k, v)]
    else if d[0].0 == k then
      assert ([(k, v)] + d[1..])[1..] == d[1..];
      [(k, v)] + d[1..]
    else
      var t := SetKey(d[1..], k, v);
      assert ([d[0]] + t)[1..] == t;
      [d[0]] + t
  }

  /** Setting a key keeps the keys distinct and the entries in place: an existing
      key keeps its position, a new one goes last. */
  lemma {:induction false} SetKeyShape(d: Entries, k: string, v: Value)
    ensures DistinctKeys(d) ==> DistinctKeys(SetKey(d, k, v))
    ensures k in Keys(d) ==> |SetKey(d, k, v)| == |d|
    ensures k !in Keys(d) ==> SetKey(d, k, v) == d + [(k, v)]
  {
    if d != [] {
      var r := SetKey(d, k, v);
      if d[0].0 == k {
        assert r[1..] == d[1..];
      } else {
        SetKeyShape(d[1..], k, v);
        var t := SetKey(d[1..], k, v);
        assert r == [d[0]] + t && r[1..] == t;
        if k !in Keys(d) {
          assert [d[0]] + (d[1..] + [(k, v)]) == d + [(k, v)];
        }
      }
    }
  }

  /** `d |= e`: every entry of `e` set in turn, later entries winning. */
  function SetAll(d: Entries, e: Entries): (r: Entries)
    ensures Keys(r) == Keys(d) + Keys(e)
    ensures DistinctKeys(e) ==> forall k :: Find(r, k) == if k in Keys(e) then Find(e, k) else Find(d, k)
    decreases |e|
  {
    if e == [] then d
    else SetAll(SetKey(d, e[0].0, e[0].1), e[1..])
  }

  lemma {:induction false} SetAllDistinct(d: Entries, e: Entries)
    requires DistinctKeys(d)
    ensures DistinctKeys(SetAll(d, e))
    decreases |e|
  {
    if e != [] {
      SetKeyShape(d, e[0].0, e[0].1);
      SetAllDistinct(SetKey(d, e[0].0, e[0].1), e[1..]);
    }
  }

  lemma {:induction false} FindAppend(a: Entries, b: Entries, k: string)
    ensures Keys(a + b) == Keys(a) + Keys(b)
    ensures Find(a + b, k) == if k in Keys(a) then Find(a, k) else Find(b, k)
  {
    if a == [] {
      assert a + b == b;
    } else {
      FindAppend(a[1..], b, k);
      assert (a + b)[1..] == a[1..] + b;
    }
  }

  lemma {:induction false} DistinctSnoc(a: Entries, p: (string, Value))
    requires DistinctKeys(a) && p.0 !in Keys(a)
    ensures DistinctKeys(a + [p])
  {
    if a != [] {
      DistinctSnoc(a[1..], p);
      assert (a + [p])[1..] == a[1..] + [p];
      FindAppend(a[1..], [p], p.0);
    }
  }

  /** A dict whose first entry is `p`. */
  lemma {:induction false} ConsEntries(p: (string, Value), d: Entries)
    ensures Keys([p] + d) == {p.0} + Keys(d)
    ensures DistinctKeys([p] + d) <==> p.0 !in Keys(d) && DistinctKeys(d)
    ensures forall k :: Find([p] + d, k) == if k == p.0 then Some(p.1) else Find(d, k)
  {
    assert ([p] + d)[1..] == d;
  }

  /** `d.pop(k)` once its value has been read: the dict without key `k`. */
  function RemoveKey(d: Entries, k: string): (r: Entries)
    ensures Keys(r) == Keys(d) - {k}
    ensures forall k' :: k' != k ==> Find(r, k') == Find(d, k')
    ensures forall i :: 0 <= i < |r| ==> r[i] in d
  {
    if d == [] then []
    else if d[0].0 == k then RemoveKey(d[1..], k)
    else
      var t := RemoveKey(d[1..], k);
      assert ([d[0]] + t)[1..] == t;
      [d[0]] + t
  }

  lemma {:induction false} RemoveKeyDistinct(d: Entries, k: string)
    requires DistinctKeys(d)
    ensures DistinctKeys(RemoveKey(d, k))
  {
    if d != [] {
      RemoveKeyDistinct(d[1..], k);
      if d[0].0 != k {
        assert ([d[0]] + RemoveKey(d[1..], k))[1..] == RemoveKey(d[1..], k);
      }
    }
  }

  /** No entry of `d` has the value `w`. */
  predicate Lacks(d: Entries, w: Value)
  {
    forall i :: 0 <= i < |d| ==> d[i].1 != w
  }

  lemma {:induction false} SetKeyLacks(d: Entries, k: string, v: Value, w: Value)
    requires Lacks(d, w) && v != w
    ensures Lacks(SetKey(d, k, v), w)
  {
    if d != [] && d[0].0 != k {
      SetKeyLacks(d[1..], k, v, w);
      var t := SetKey(d[1..], k, v);
      assert forall i :: 1 <= i < |t| + 1 ==> ([d[0]] + t)[i] == t[i - 1];
    }
  }

  lemma {:induction false} SetAllLacks(d: Entries, e: Entries, w: Value)
    requires Lacks(d, w) && Lacks(e, w)
    ensures Lacks(SetAll(d, e), w)
    decreases |e|
  {
    if e != [] {
      SetKeyLacks(d, e[0].0, e[0].1, w);
      SetAllLacks(SetKey(d, e[0].0, e[0].1), e[1..], w);
    }
  }

  /** The position of the first entry with key `k`. */
  function KeyIndex(d: Entries, k: string): (q: nat)
    requires k in Keys(d)
    ensures q < |d| && d[q].0 == k && forall j :: 0 <= j < q ==> d[j].0 != k
  {
    if d[0].0 == k then 0
    else
      var t := KeyIndex(d[1..], k);
      assert forall j :: 1 <= j <= t ==> d[j] == d[1..][j - 1];
      1 + t
  }

  /** `d[k]` is the value of the first entry with key `k`. */
  lemma {:induction false} FindIndex(d: Entries, k: string)
    requires k in Keys(d)
    ensures Find(d, k) == Some(d[KeyIndex(d, k)].1)
  {
    if d[0].0 != k {
      FindIndex(d[1..], k);
      assert d[1..][KeyIndex(d[1..], k)] == d[KeyIndex(d, k)];
    }
  }

  lemma {:induction false} RemoveKeyLacks(d: Entries, k: string, w: Value)
    requires Lacks(d, w)
    ensures Lacks(RemoveKey(d, k), w)
  {
    var r := RemoveKey(d, k);
    forall i | 0 <= i < |r| ensures r[i].1 != w {
      assert r[i] in d;
    }
  }

  /** A dict without record references lacks every reference. */
  lemma {:induction false} NoRefsLacks(es: Entries, w: Value)
    requires NoRefs(Dict(es)) && w.Ref?
    ensures Lacks(es, w)
  {
    forall i | 0 <= i < |es| ensures es[i].1 != w {
      assert NoRefs(es[i].1);
    }
  }

  /** Python's truth value: `junk`, `None`, `False`, `0`, `''` and empty
      containers are false; a record is always true. */
  predicate Truthy(v: Value)
  {
    match v
    case Str(s) => s != []
    case Int(i) => i != 0
    case Bool(b) => b
    case NoneV => false
    case Junk => false
    case Dict(es) => es != []
    case Coll(_, xs) => xs != []
    case Ref(_) => true
  }

  /** Data as a YAML loader produces it: no record references anywhere. */
  predicate NoRefs(v: Value)
  {
    match v
    case Ref(_) => false
    case Dict(es) => forall i :: 0 <= i < |es| ==> (assert es[i] in v.entries; NoRefs(es[i].1))
    case Coll(_, xs) => forall i :: 0 <= i < |xs| ==> NoRefs(xs[i])
    case _ => true
  }

  /** What `dump` produces: no records, no tuples or sets, only lists, dicts and scalars. */
  predicate Plain(v: Value)
  {
    match v
    case Ref(_) => false
    case Dict(es) => forall i :: 0 <= i < |es| ==> (assert es[i] in v.entries; Plain(es[i].1))
    case Coll(k, xs) => k == ListK && forall i :: 0 <= i < |xs| ==> Plain(xs[i])
    case _ => true
  }
}
