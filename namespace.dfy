/** The layered namespace `C` of c3.py:56-117. Each record has a local dict and an
    ordered list of base records; a key is looked up along the record's C3
    linearization and the first local hit wins. Records live in a store keyed by
    id (the object identity of the source); a value may refer to a record. */
module Namespace {
  import opened Wrappers
  import opened Values
  import C3

  /** One `C` object: its local dict `__C_d__` and its base list `__C_b__`. */
  datatype Rec = Rec(fields: Entries, bases: seq<nat>)

  type Recs = map<nat, Rec>

  /** The base graph of the store, as `mro` hands it to `c3` (c3.py:62). */
  function Graph(recs: Recs): C3.Graph
  {
    map n | n in recs :: recs[n].bases
  }

  lemma {:induction false} GraphBases(recs: Recs)
    ensures forall n :: C3.Bases(Graph(recs), n) == if n in recs then recs[n].bases else []
  {
  }

  /** The local dict of a record; a record missing from the store has none. */
  function Local(recs: Recs, n: nat): Entries
  {
    if n in recs then recs[n].fields else []
  }

  /** `self.mro()` (c3.py:61-62). */
  function Mro(recs: Recs, ghost rank: map<nat, nat>, x: nat): (r: Result<seq<nat>>)
    requires C3.Ranked(Graph(recs), rank)
    ensures r.Ok? ==> |r.value| > 0 && r.value[0] == x && C3.NoDup(r.value)
    ensures r.Err? ==> r == Err(NoLegalMro)
  {
    C3.Linearize(Graph(recs), rank, x)
  }

  // ------------------------------------------------------------------ lookup

  /** The `__getitem__` walk (c3.py:73-76) along a resolution order `m`: the value in
      the first record whose local dict has `k`, or `KeyError(k)`. */
  function LookupIn(recs: Recs, m: seq<nat>, k: string): (r: Result<Value>)
    ensures r.Err? <==> forall i :: 0 <= i < |m| ==> k !in Keys(Local(recs, m[i]))
    ensures r.Err? ==> r == Err(KeyError(k))
  {
    if m == [] then Err(KeyError(k))
    else
      match Find(Local(recs, m[0]), k)
      case Some(v) => Ok(v)
      case None =>
        assert forall i :: 0 < i < |m| ==> m[i] == m[1..][i - 1];
        LookupIn(recs, m[1..], k)
  }

  /** The walk from position `i` looks at `m[i]` and then goes on from `i + 1`. */
  lemma {:induction false} LookupInStep(recs: Recs, m: seq<nat>, i: nat, k: string)
    requires i < |m|
    ensures LookupIn(recs, m[i..], k) ==
      match Find(Local(recs, m[i]), k) case Some(v) => Ok(v) case None => LookupIn(recs, m[i + 1..], k)
  {
    assert m[i..][0] == m[i] && m[i..][1..] == m[i + 1..];
  }

  /** A hit comes from the first record along `m` that has the key. */
  lemma {:induction false} LookupInFirst(recs: Recs, m: seq<nat>, k: string)
    requires LookupIn(recs, m, k).Ok?
    ensures exists i :: 0 <= i < |m| && Find(Local(recs, m[i]), k) == Some(LookupIn(recs, m, k).value) &&
                        forall j :: 0 <= j < i ==> k !in Keys(Local(recs, m[j]))
  {
    var v := LookupIn(recs, m, k).value;
    if Find(Local(recs, m[0]), k).None? {
      assert LookupIn(recs, m[1..], k) == Ok(v);
      LookupInFirst(recs, m[1..], k);
      var i :| 0 <= i < |m[1..]| && Find(Local(recs, m[1..][i]), k) == Some(v)
        && forall j :: 0 <= j < i ==> k !in Keys(Local(recs, m[1..][j]));
      FirstShift(recs, m, k, i, v);
    } else {
      assert Find(Local(recs, m[0]), k) == Some(v);
    }
  }

  lemma {:induction false} FirstShift(recs: Recs, m: seq<nat>, k: string, i: nat, v: Value)
    requires m != [] && Find(Local(recs, m[0]), k).None? && i < |m[1..]|
    requires Find(Local(recs, m[1..][i]), k) == Some(v) && forall j :: 0 <= j < i ==> k !in Keys(Local(recs, m[1..][j]))
    ensures Find(Local(recs, m[i + 1]), k) == Some(v) && forall j :: 0 <= j < i + 1 ==> k !in Keys(Local(recs, m[j]))
  {
    assert m[i + 1] == m[1..][i];
    forall j | 0 <= j < i + 1 ensures k !in Keys(Local(recs, m[j])) {
      if j > 0 {
        assert m[j] == m[1..][j - 1];
      }
    }
  }

  /** `self[key]` (c3.py:72-76): the first local hit along the record's resolution
      order; a failing resolution order propagates `NoLegalMro`. */
  function Lookup(recs: Recs, ghost rank: map<nat, nat>, x: nat, k: string): (r: Result<Value>)
    requires C3.Ranked(Graph(recs), rank)
    ensures Mro(recs, rank, x).Err? ==> r == Err(NoLegalMro)
    ensures Mro(recs, rank, x).Ok? && k in Keys(Local(recs, x)) ==> r == Ok(Find(Local(recs, x), k).value)
    ensures r.Err? ==> r == Err(NoLegalMro) || r == Err(KeyError(k))
  {
    match Mro(recs, rank, x)
    case Err(e) => Err(e)
    case Ok(m) => LookupIn(recs, m, k)
  }

  // ------------------------------------------------------------------- items

  /** The local dicts along `m`, one after the other. */
  function Concat(recs: Recs, m: seq<nat>): Entries
  {
    if m == [] then [] else Local(recs, m[0]) + Concat(recs, m[1..])
  }

  lemma {:induction false} ConcatSnoc(recs: Recs, m: seq<nat>, i: nat)
    requires i < |m|
    ensures Concat(recs, m[..i + 1]) == Concat(recs, m[..i]) + Local(recs, m[i])
  {
    if i == 0 {
      assert m[..1] == [m[0]] && m[..1][1..] == [];
    } else {
      ConcatSnoc(recs, m[1..], i - 1);
      assert m[..i + 1][1..] == m[1..][..i] && m[..i][1..] == m[1..][..i - 1];
      assert m[1..][i - 1] == m[i];
    }
  }

  /** The entries of `s` whose key has not occurred earlier in `s`, in order: what
      the `keys` set of c3.py:102-107 lets through. */
  function Unshadowed(s: Entries): (r: Entries)
    ensures Keys(r) == Keys(s) && DistinctKeys(r)
    ensures forall k :: Find(r, k) == Find(s, k)
  {
    if s == [] then []
    else
      var t := s[..|s| - 1];
      var p := s[|s| - 1];
      var u := Unshadowed(t);
      assert s == t + [p];
      forall k ensures Keys(s) == Keys(t) + {p.0} && Find(s, k) == if k in Keys(t) then Find(t, k) else Find([p], k) {
        FindAppend(t, [p], k);
      }
      if p.0 in Keys(u) then u
      else
        DistinctSnoc(u, p);
        forall k ensures Find(u + [p], k) == if k in Keys(u) then Find(u, k) else Find([p], k) {
          FindAppend(u, [p], k);
        }
        u + [p]
  }

  lemma {:induction false} UnshadowedSnoc(s: Entries, p: (string, Value))
    ensures Unshadowed(s + [p]) == if p.0 in Keys(Unshadowed(s)) then Unshadowed(s) else Unshadowed(s) + [p]
    ensures Keys(Unshadowed(s) + [p]) == Keys(Unshadowed(s)) + {p.0}
  {
    var t := s + [p];
    assert t[..|t| - 1] == s && t[|t| - 1] == p;
    FindAppend(Unshadowed(s), [p], p.0);
  }

  /** What `items()` yields along `m` (c3.py:101-107). */
  function ItemsAlong(recs: Recs, m: seq<nat>): Entries
  {
    Unshadowed(Concat(recs, m))
  }

  /** `self.items()`: the items along the record's resolution order. */
  function ItemsOf(recs: Recs, ghost rank: map<nat, nat>, x: nat): (r: Result<Entries>)
    requires C3.Ranked(Graph(recs), rank)
    ensures r.Ok? <==> Mro(recs, rank, x).Ok?
    ensures r.Err? ==> r == Err(NoLegalMro)
    ensures r.Ok? ==> DistinctKeys(r.value) && Keys(r.value) == Keys(Concat(recs, Mro(recs, rank, x).value))
  {
    match Mro(recs, rank, x)
    case Err(e) => Err(e)
    case Ok(m) => Ok(ItemsAlong(recs, m))
  }

  /** The walk of `__getitem__` finds what the first entry of the concatenated local
      dicts with that key holds. */
  lemma {:induction false} LookupConcat(recs: Recs, m: seq<nat>, k: string)
    ensures LookupIn(recs, m, k) == if k in Keys(Concat(recs, m)) then Ok(Find(Concat(recs, m), k).value) else Err(KeyError(k))
  {
    if m != [] {
      LookupConcat(recs, m[1..], k);
      FindAppend(Local(recs, m[0]), Concat(recs, m[1..]), k);
    }
  }

  /** `items()` yields each key at most once, every yielded pair agrees with
      `self[k]`, and every key that `self[k]` finds is yielded. */
  lemma {:induction false} ItemsAgree(recs: Recs, rank: map<nat, nat>, x: nat)
    requires C3.Ranked(Graph(recs), rank) && ItemsOf(recs, rank, x).Ok?
    ensures DistinctKeys(ItemsOf(recs, rank, x).value)
    ensures forall i :: 0 <= i < |ItemsOf(recs, rank, x).value| ==>
      Lookup(recs, rank, x, ItemsOf(recs, rank, x).value[i].0) == Ok(ItemsOf(recs, rank, x).value[i].1)
    ensures forall k :: Lookup(recs, rank, x, k).Ok? <==> k in Keys(ItemsOf(recs, rank, x).value)
  {
    var m := Mro(recs, rank, x).value;
    var its := ItemsAlong(recs, m);
    forall i | 0 <= i < |its| ensures Lookup(recs, rank, x, its[i].0) == Ok(its[i].1) {
      FindEntry(its, i);
      LookupConcat(recs, m, its[i].0);
    }
    forall k ensures Lookup(recs, rank, x, k).Ok? <==> k in Keys(its) {
      LookupConcat(recs, m, k);
    }
  }

  // -------------------------------------------------------------------- dump

  lemma {:induction false} Shrinks(keys: set<nat>, visiting: set<nat>, n: nat)
    requires n in keys && n !in visiting
    ensures |keys - (visiting + {n})| < |keys - visiting|
  {
    var a := keys - (visiting + {n});
    assert keys - visiting == a + {n} && n !in a;
  }

  /** `dump` (c3.py:112-117): a record becomes the dict of its items and a dict the
      dict of its entries, each value dumped; a list, tuple or set becomes a list of
      the dumped elements; anything else is returned as is. A record met again
      while it is being dumped would recurse without end in the source; here that
      is `RecursionLimit`. */
  function Dump(recs: Recs, ghost rank: map<nat, nat>, v: Value, visiting: set<nat>): (r: Result<Value>)
    requires C3.Ranked(Graph(recs), rank)
    ensures r.Ok? ==> Plain(r.value)
    ensures r.Ok? && v.Coll? ==> r.value.Coll? && r.value.kind == ListK && |r.value.elems| == |v.elems|
    ensures r.Ok? && v.Dict? ==> r.value.Dict? && SameKeys(r.value.entries, v.entries)
    ensures r.Ok? && v.Ref? && v.id in recs ==>
      ItemsOf(recs, rank, v.id).Ok? && r.value.Dict? && SameKeys(r.value.entries, ItemsOf(recs, rank, v.id).value)
    ensures !v.Ref? && !v.Dict? && !v.Coll? ==> r == Ok(v)
    decreases |recs.Keys - visiting|, v
  {
    match v
    case Ref(n) =>
      if n !in recs then Ok(Dict([]))
      else if n in visiting then Err(RecursionLimit)
      else
        (match Mro(recs, rank, n)
         case Err(e) => Err(e)
         case Ok(m) =>
           var its := ItemsAlong(recs, m);
           Shrinks(recs.Keys, visiting, n);
           match DumpEntries(recs, rank, Dict(its), its, visiting + {n})
           case Err(e) => Err(e)
           case Ok(es) => Ok(Dict(es)))
    case Dict(es) =>
      (match DumpEntries(recs, rank, v, es, visiting)
       case Err(e) => Err(e)
       case Ok(es') => Ok(Dict(es')))
    case Coll(_, xs) =>
      (match DumpAll(recs, rank, v, xs, visiting)
       case Err(e) => Err(e)
       case Ok(xs') => Ok(Coll(ListK, xs')))
    case _ => Ok(v)
  }

  /** The two entry lists have the same keys in the same order. */
  predicate SameKeys(a: Entries, b: Entries)
  {
    |a| == |b| && forall i :: 0 <= i < |a| ==> a[i].0 == b[i].0
  }

  /** `{k: dump(v) for k, v in ...}` over entries `es` drawn from `parent`. */
  function DumpEntries(recs: Recs, ghost rank: map<nat, nat>, ghost parent: Value, es: Entries, visiting: set<nat>): (r: Result<Entries>)
    requires C3.Ranked(Graph(recs), rank)
    requires parent.Dict? && forall i :: 0 <= i < |es| ==> es[i] in parent.entries
    ensures r.Ok? ==> SameKeys(r.value, es) && forall i :: 0 <= i < |es| ==> Plain(r.value[i].1)
    decreases |recs.Keys - visiting|, parent, |es|
  {
    if es == [] then Ok([])
    else
      assert es[0] in parent.entries;
      match Dump(recs, rank, es[0].1, visiting)
      case Err(e) => Err(e)
      case Ok(w) =>
        assert forall i :: 0 <= i < |es[1..]| ==> es[1..][i] == es[i + 1];
        match DumpEntries(recs, rank, parent, es[1..], visiting)
        case Err(e) => Err(e)
        case Ok(rest) =>
          assert forall i :: 0 < i < |es| ==> ([(es[0].0, w)] + rest)[i] == rest[i - 1];
          Ok([(es[0].0, w)] + rest)
  }

  /** `[dump(x) for x in ...]` over elements `xs` drawn from `parent`. */
  function DumpAll(recs: Recs, ghost rank: map<nat, nat>, ghost parent: Value, xs: seq<Value>, visiting: set<nat>): (r: Result<seq<Value>>)
    requires C3.Ranked(Graph(recs), rank)
    requires parent.Coll? && forall i :: 0 <= i < |xs| ==> xs[i] in parent.elems
    ensures r.Ok? ==> |r.value| == |xs| && forall i :: 0 <= i < |xs| ==> Plain(r.value[i])
    decreases |recs.Keys - visiting|, parent, |xs|
  {
    if xs == [] then Ok([])
    else
      match Dump(recs, rank, xs[0], visiting)
      case Err(e) => Err(e)
      case Ok(w) =>
        assert forall i :: 0 <= i < |xs[1..]| ==> xs[1..][i] == xs[i + 1];
        match DumpAll(recs, rank, parent, xs[1..], visiting)
        case Err(e) => Err(e)
        case Ok(rest) =>
          assert forall i :: 0 < i < |xs| ==> ([w] + rest)[i] == rest[i - 1];
          Ok([w] + rest)
  }

  /** `dump` leaves plain data unchanged. */
  lemma {:induction false} DumpPlain(recs: Recs, rank: map<nat, nat>, v: Value, visiting: set<nat>)
    requires C3.Ranked(Graph(recs), rank) && Plain(v)
    ensures Dump(recs, rank, v, visiting) == Ok(v)
    decreases v
  {
    match v
    case Dict(es) => DumpEntriesPlain(recs, rank, v, es, visiting);
    case Coll(_, xs) => DumpAllPlain(recs, rank, v, xs, visiting);
    case _ =>
  }

  lemma {:induction false} DumpEntriesPlain(recs: Recs, rank: map<nat, nat>, parent: Value, es: Entries, visiting: set<nat>)
    requires C3.Ranked(Graph(recs), rank)
    requires parent.Dict? && forall i :: 0 <= i < |es| ==> es[i] in parent.entries && Plain(es[i].1)
    ensures DumpEntries(recs, rank, parent, es, visiting) == Ok(es)
    decreases parent, |es|
  {
    if es != [] {
      assert es[0] in parent.entries;
      DumpPlain(recs, rank, es[0].1, visiting);
      assert forall i :: 0 <= i < |es[1..]| ==> es[1..][i] == es[i + 1];
      DumpEntriesPlain(recs, rank, parent, es[1..], visiting);
      assert [(es[0].0, es[0].1)] + es[1..] == es;
    }
  }

  lemma {:induction false} DumpAllPlain(recs: Recs, rank: map<nat, nat>, parent: Value, xs: seq<Value>, visiting: set<nat>)
    requires C3.Ranked(Graph(recs), rank)
    requires parent.Coll? && forall i :: 0 <= i < |xs| ==> xs[i] in parent.elems && Plain(xs[i])
    ensures DumpAll(recs, rank, parent, xs, visiting) == Ok(xs)
    decreases parent, |xs|
  {
    if xs != [] {
      DumpPlain(recs, rank, xs[0], visiting);
      assert forall i :: 0 <= i < |xs[1..]| ==> xs[1..][i] == xs[i + 1];
      DumpAllPlain(recs, rank, parent, xs[1..], visiting);
      assert [xs[0]] + xs[1..] == xs;
    }
  }

  /** Each entry that `DumpEntries` yields is the entry's key with its value dumped. */
  lemma {:induction false} DumpEntriesAt(recs: Recs, rank: map<nat, nat>, parent: Value, es: Entries, visiting: set<nat>, i: nat)
    requires C3.Ranked(Graph(recs), rank)
    requires parent.Dict? && forall j :: 0 <= j < |es| ==> es[j] in parent.entries
    requires DumpEntries(recs, rank, parent, es, visiting).Ok? && i < |es|
    ensures Dump(recs, rank, es[i].1, visiting).Ok?
    ensures DumpEntries(recs, rank, parent, es, visiting).value[i] == (es[i].0, Dump(recs, rank, es[i].1, visiting).value)
    decreases i
  {
    if i > 0 {
      assert forall j :: 0 <= j < |es[1..]| ==> es[1..][j] == es[j + 1];
      DumpEntriesAt(recs, rank, parent, es[1..], visiting, i - 1);
    }
  }

  /** A key's first entry in the dumped dict is the dump of its first entry's value. */
  lemma {:induction false} DumpEntriesFind(recs: Recs, rank: map<nat, nat>, parent: Value, es: Entries, visiting: set<nat>, k: string)
    requires C3.Ranked(Graph(recs), rank)
    requires parent.Dict? && forall j :: 0 <= j < |es| ==> es[j] in parent.entries
    requires DumpEntries(recs, rank, parent, es, visiting).Ok?
    ensures k in Keys(DumpEntries(recs, rank, parent, es, visiting).value) <==> k in Keys(es)
    ensures k in Keys(es) ==>
      Dump(recs, rank, Find(es, k).value, visiting).Ok? &&
      Find(DumpEntries(recs, rank, parent, es, visiting).value, k) == Some(Dump(recs, rank, Find(es, k).value, visiting).value)
    decreases |es|
  {
    if es != [] {
      var r := DumpEntries(recs, rank, parent, es, visiting).value;
      DumpEntriesAt(recs, rank, parent, es, visiting, 0);
      assert forall j :: 0 <= j < |es[1..]| ==> es[1..][j] == es[j + 1];
      DumpEntriesFind(recs, rank, parent, es[1..], visiting, k);
      assert r[1..] == DumpEntries(recs, rank, parent, es[1..], visiting).value;
    }
  }

  /** `dump` of a dict (c3.py:113-114): every entry keeps its key and gets its value
      dumped, and looking a key up in the result gives the dump of its value. */
  lemma {:induction false} DumpDict(recs: Recs, rank: map<nat, nat>, es: Entries, visiting: set<nat>, k: string)
    requires C3.Ranked(Graph(recs), rank) && Dump(recs, rank, Dict(es), visiting).Ok?
    ensures forall i :: 0 <= i < |es| ==>
      Dump(recs, rank, es[i].1, visiting).Ok? &&
      Dump(recs, rank, Dict(es), visiting).value.entries[i] == (es[i].0, Dump(recs, rank, es[i].1, visiting).value)
    ensures k in Keys(Dump(recs, rank, Dict(es), visiting).value.entries) <==> k in Keys(es)
    ensures k in Keys(es) ==>
      Dump(recs, rank, Find(es, k).value, visiting).Ok? &&
      Find(Dump(recs, rank, Dict(es), visiting).value.entries, k) == Some(Dump(recs, rank, Find(es, k).value, visiting).value)
  {
    var v := Dict(es);
    forall i | 0 <= i < |es| ensures Dump(recs, rank, es[i].1, visiting).Ok? &&
      DumpEntries(recs, rank, v, es, visiting).value[i] == (es[i].0, Dump(recs, rank, es[i].1, visiting).value) {
      DumpEntriesAt(recs, rank, v, es, visiting, i);
    }
    DumpEntriesFind(recs, rank, v, es, visiting, k);
  }

  /** `dump` of a record (c3.py:113-114): the result holds exactly the keys that
      `self[k]` finds, each mapped to the dump of the value found, with the record
      itself on the path being dumped. */
  lemma {:induction false} DumpRecord(recs: Recs, rank: map<nat, nat>, x: nat, visiting: set<nat>, k: string)
    requires C3.Ranked(Graph(recs), rank) && x in recs && Dump(recs, rank, Ref(x), visiting).Ok?
    ensures k in Keys(Dump(recs, rank, Ref(x), visiting).value.entries) <==> Lookup(recs, rank, x, k).Ok?
    ensures Lookup(recs, rank, x, k).Ok? ==>
      Dump(recs, rank, Lookup(recs, rank, x, k).value, visiting + {x}).Ok? &&
      Find(Dump(recs, rank, Ref(x), visiting).value.entries, k) == Some(Dump(recs, rank, Lookup(recs, rank, x, k).value, visiting + {x}).value)
  {
    var m := Mro(recs, rank, x).value;
    var its := ItemsAlong(recs, m);
    assert ItemsOf(recs, rank, x) == Ok(its);
    DumpEntriesFind(recs, rank, Dict(its), its, visiting + {x}, k);
    ItemsAgree(recs, rank, x);
    if k in Keys(its) {
      KeysAt(its, k);
      var i :| 0 <= i < |its| && its[i].0 == k;
      FindEntry(its, i);
    }
  }

  /** `dump` of a list, tuple or set (c3.py:115-116): a list of the elements, each dumped. */
  lemma {:induction false} DumpColl(recs: Recs, rank: map<nat, nat>, kind: Kind, xs: seq<Value>, visiting: set<nat>)
    requires C3.Ranked(Graph(recs), rank) && Dump(recs, rank, Coll(kind, xs), visiting).Ok?
    ensures forall i :: 0 <= i < |xs| ==>
      Dump(recs, rank, xs[i], visiting).Ok? &&
      Dump(recs, rank, Coll(kind, xs), visiting).value.elems[i] == Dump(recs, rank, xs[i], visiting).value
  {
    forall i | 0 <= i < |xs| ensures Dump(recs, rank, xs[i], visiting).Ok? &&
      DumpAll(recs, rank, Coll(kind, xs), xs, visiting).value[i] == Dump(recs, rank, xs[i], visiting).value {
      DumpAllAt(recs, rank, Coll(kind, xs), xs, visiting, i);
    }
  }

  lemma {:induction false} DumpAllAt(recs: Recs, rank: map<nat, nat>, parent: Value, xs: seq<Value>, visiting: set<nat>, i: nat)
    requires C3.Ranked(Graph(recs), rank)
    requires parent.Coll? && forall j :: 0 <= j < |xs| ==> xs[j] in parent.elems
    requires DumpAll(recs, rank, parent, xs, visiting).Ok? && i < |xs|
    ensures Dump(recs, rank, xs[i], visiting).Ok?
    ensures DumpAll(recs, rank, parent, xs, visiting).value[i] == Dump(recs, rank, xs[i], visiting).value
    decreases i
  {
    if i > 0 {
      assert forall j :: 0 <= j < |xs[1..]| ==> xs[1..][j] == xs[j + 1];
      DumpAllAt(recs, rank, parent, xs[1..], visiting, i - 1);
    }
  }

  /** `dump` is idempotent: dumping its output again, against any store, changes nothing. */
  lemma {:induction false} DumpIdempotent(recs: Recs, rank: map<nat, nat>, v: Value, visiting: set<nat>,
                       recs': Recs, rank': map<nat, nat>, visiting': set<nat>)
    requires C3.Ranked(Graph(recs), rank) && C3.Ranked(Graph(recs'), rank')
    requires Dump(recs, rank, v, visiting).Ok?
    ensures Dump(recs', rank', Dump(recs, rank, v, visiting).value, visiting') == Dump(recs, rank, v, visiting)
  {
    DumpPlain(recs', rank', Dump(recs, rank, v, visiting).value, visiting');
  }

  // ------------------------------------------------------------------ frames

  /** The walk only reads, at each record along `m`, whether and how `k` is set. */
  lemma {:induction false} LookupInFrame(recs: Recs, recs': Recs, m: seq<nat>, k: string)
    requires forall j :: 0 <= j < |m| ==> Find(Local(recs, m[j]), k) == Find(Local(recs', m[j]), k)
    ensures LookupIn(recs, m, k) == LookupIn(recs', m, k)
  {
    if m != [] {
      assert forall j :: 0 < j < |m| ==> m[j] == m[1..][j - 1];
      LookupInFrame(recs, recs', m[1..], k);
    }
  }

  lemma {:induction false} ConcatFrame(recs: Recs, recs': Recs, m: seq<nat>)
    requires forall j :: 0 <= j < |m| ==> Local(recs, m[j]) == Local(recs', m[j])
    ensures Concat(recs, m) == Concat(recs', m)
  {
    if m != [] {
      assert forall j :: 0 < j < |m| ==> m[j] == m[1..][j - 1];
      ConcatFrame(recs, recs', m[1..]);
    }
  }

  /** A set of records that holds its members' bases. */
  ghost predicate BaseClosed(recs: Recs, s: set<nat>)
  {
    forall y, i :: y in s && y in recs && 0 <= i < |recs[y].bases| ==> recs[y].bases[i] in s
  }

  /** Two stores that agree on a base-closed set of records give those records the
      same resolution order, the same lookups and the same items. */
  lemma {:induction false} Frame(recs: Recs, rank: map<nat, nat>, recs': Recs, rank': map<nat, nat>, s: set<nat>, x: nat)
    requires C3.Ranked(Graph(recs), rank) && C3.Ranked(Graph(recs'), rank')
    requires x in s && s <= recs.Keys && BaseClosed(recs, s)
    requires forall y :: y in s ==> y in recs' && recs'[y] == recs[y]
    ensures Mro(recs', rank', x) == Mro(recs, rank, x)
    ensures forall k :: Lookup(recs', rank', x, k) == Lookup(recs, rank, x, k)
    ensures ItemsOf(recs', rank', x) == ItemsOf(recs, rank, x)
  {
    var g, g' := Graph(recs), Graph(recs');
    GraphBases(recs);
    GraphBases(recs');
    assert forall y, i :: y in s && 0 <= i < |C3.Bases(g, y)| ==> C3.Bases(g, y)[i] in s;
    C3.LinearizeAgree(g, rank, g', rank', s, x);
    if Mro(recs, rank, x).Ok? {
      var m := Mro(recs, rank, x).value;
      C3.LinearizeClosed(g, rank, s, x);
      forall k ensures LookupIn(recs', m, k) == LookupIn(recs, m, k) {
        LookupInFrame(recs, recs', m, k);
      }
      ConcatFrame(recs, recs', m);
    }
  }

  /** Writing `k` into one record's local dict: that record then finds the new
      value (its own dict comes first in its resolution order), no resolution order
      changes, and no lookup of another key changes anywhere. */
  lemma {:induction false} SetLocal(recs: Recs, rank: map<nat, nat>, x: nat, k: string, v: Value, recs': Recs)
    requires C3.Ranked(Graph(recs), rank) && x in recs
    requires recs' == recs[x := Rec(SetKey(recs[x].fields, k, v), recs[x].bases)]
    ensures Graph(recs') == Graph(recs)
    ensures forall y :: Mro(recs', rank, y) == Mro(recs, rank, y)
    ensures Mro(recs, rank, x).Ok? ==> Lookup(recs', rank, x, k) == Ok(v)
    ensures forall y, k' :: k' != k ==> Lookup(recs', rank, y, k') == Lookup(recs, rank, y, k')
  {
    assert Graph(recs') == Graph(recs);
    forall y, k' | k' != k ensures Lookup(recs', rank, y, k') == Lookup(recs, rank, y, k') {
      if Mro(recs, rank, y).Ok? {
        LookupInFrame(recs, recs', Mro(recs, rank, y).value, k');
      }
    }
  }

  /** Adding a record changes nothing that an existing record resolves to. */
  lemma {:induction false} NewFrame(recs: Recs, rank: map<nat, nat>, recs': Recs, rank': map<nat, nat>)
    requires C3.Ranked(Graph(recs), rank) && C3.Ranked(Graph(recs'), rank')
    requires BaseClosed(recs, recs.Keys) && forall z :: z in recs ==> z in recs' && recs'[z] == recs[z]
    ensures forall z :: z in recs ==> Mro(recs', rank', z) == Mro(recs, rank, z)
    ensures forall z, k :: z in recs ==> Lookup(recs', rank', z, k) == Lookup(recs, rank, z, k)
  {
    forall z | z in recs ensures Mro(recs', rank', z) == Mro(recs, rank, z)
      && forall k :: Lookup(recs', rank', z, k) == Lookup(recs, rank, z, k) {
      Frame(recs, rank, recs', rank', recs.Keys, z);
    }
  }

  /** Giving record `x`, which is no record's base, another base changes nothing
      that any other record resolves to. */
  lemma {:induction false} AppendFrame(recs: Recs, rank: map<nat, nat>, recs': Recs, rank': map<nat, nat>, x: nat)
    requires C3.Ranked(Graph(recs), rank) && C3.Ranked(Graph(recs'), rank')
    requires BaseClosed(recs, recs.Keys) && forall z :: z in recs ==> x !in recs[z].bases
    requires recs'.Keys == recs.Keys && forall z :: z in recs && z != x ==> recs'[z] == recs[z]
    ensures forall z :: z in recs && z != x ==> Mro(recs', rank', z) == Mro(recs, rank, z)
    ensures forall z, k :: z in recs && z != x ==> Lookup(recs', rank', z, k) == Lookup(recs, rank, z, k)
  {
    var s := recs.Keys - {x};
    assert BaseClosed(recs, s);
    forall z | z in recs && z != x ensures Mro(recs', rank', z) == Mro(recs, rank, z)
      && forall k :: Lookup(recs', rank', z, k) == Lookup(recs, rank, z, k) {
      Frame(recs, rank, recs', rank', s, z);
    }
  }

  /** The lookup along `a + b` is the lookup along `a`, and failing that along `b`. */
  lemma {:induction false} LookupInAppend(recs: Recs, a: seq<nat>, b: seq<nat>, k: string)
    ensures LookupIn(recs, a + b, k) == if LookupIn(recs, a, k).Ok? then LookupIn(recs, a, k) else LookupIn(recs, b, k)
  {
    if a == [] {
      assert a + b == b;
    } else {
      LookupInAppend(recs, a[1..], b, k);
      assert (a + b)[0] == a[0] && (a + b)[1..] == a[1..] + b;
    }
  }

  /** A record with the single base `b` (a segment over the built-in events) finds
      a key in its own dict first, and otherwise wherever `b` finds it. */
  lemma {:induction false} LookupOverOne(recs: Recs, rank: map<nat, nat>, y: nat, b: nat, k: string)
    requires C3.Ranked(Graph(recs), rank) && y in recs && recs[y].bases == [b]
    ensures Mro(recs, rank, b).Err? ==> Lookup(recs, rank, y, k) == Err(NoLegalMro)
    ensures Mro(recs, rank, b).Ok? && k in Keys(Local(recs, y)) ==> Lookup(recs, rank, y, k) == Ok(Find(Local(recs, y), k).value)
    ensures Mro(recs, rank, b).Ok? && k !in Keys(Local(recs, y)) ==> Lookup(recs, rank, y, k) == Lookup(recs, rank, b, k)
  {
    GraphBases(recs);
    C3.LinearizeSingle(Graph(recs), rank, y, b);
    if Mro(recs, rank, b).Ok? {
      var m := [y] + Mro(recs, rank, b).value;
      assert m[0] == y && m[1..] == Mro(recs, rank, b).value;
    }
  }

  /** A record with an empty dict whose bases all have the single base `b` (the
      file record over its segments) finds a key in the first of its bases that
      has it, and otherwise wherever `b` finds it. */
  lemma {:induction false} LookupOverFan(recs: Recs, rank: map<nat, nat>, x: nat, b: nat, k: string)
    requires C3.Ranked(Graph(recs), rank) && x in recs && recs[x].fields == []
    requires recs[x].bases != [] && C3.NoDup(recs[x].bases)
    requires forall i :: 0 <= i < |recs[x].bases| ==> recs[x].bases[i] in recs && recs[recs[x].bases[i]].bases == [b]
    requires Mro(recs, rank, b).Ok?
    ensures Lookup(recs, rank, x, k) ==
      if LookupIn(recs, recs[x].bases, k).Ok? then LookupIn(recs, recs[x].bases, k) else Lookup(recs, rank, b, k)
  {
    var bs := recs[x].bases;
    var mb := Mro(recs, rank, b).value;
    LookupFanHead(recs, rank, x, b, k);
    LookupVia(recs, rank, b, mb, k);
    LookupInAppend(recs, bs, mb, k);
  }

  lemma {:induction false} LookupFanHead(recs: Recs, rank: map<nat, nat>, x: nat, b: nat, k: string)
    requires C3.Ranked(Graph(recs), rank) && x in recs && recs[x].fields == []
    requires recs[x].bases != [] && C3.NoDup(recs[x].bases)
    requires forall i :: 0 <= i < |recs[x].bases| ==> recs[x].bases[i] in recs && recs[recs[x].bases[i]].bases == [b]
    requires Mro(recs, rank, b).Ok?
    ensures Lookup(recs, rank, x, k) == LookupIn(recs, recs[x].bases + Mro(recs, rank, b).value, k)
  {
    var bs, mb := recs[x].bases, Mro(recs, rank, b).value;
    MroFan(recs, rank, x, b);
    LookupVia(recs, rank, x, [x] + bs + mb, k);
    LookupInCons(recs, x, bs, mb, k);
  }

  lemma {:induction false} LookupVia(recs: Recs, rank: map<nat, nat>, x: nat, m: seq<nat>, k: string)
    requires C3.Ranked(Graph(recs), rank) && Mro(recs, rank, x) == Ok(m)
    ensures Lookup(recs, rank, x, k) == LookupIn(recs, m, k)
  {
  }

  lemma {:induction false} LookupInCons(recs: Recs, x: nat, a: seq<nat>, b: seq<nat>, k: string)
    requires Local(recs, x) == []
    ensures LookupIn(recs, [x] + a + b, k) == LookupIn(recs, a + b, k)
  {
    assert ([x] + a + b)[0] == x && ([x] + a + b)[1..] == a + b;
  }

  lemma {:induction false} MroFan(recs: Recs, rank: map<nat, nat>, x: nat, b: nat)
    requires C3.Ranked(Graph(recs), rank) && x in recs
    requires recs[x].bases != [] && C3.NoDup(recs[x].bases)
    requires forall i :: 0 <= i < |recs[x].bases| ==> recs[x].bases[i] in recs && recs[recs[x].bases[i]].bases == [b]
    requires Mro(recs, rank, b).Ok?
    ensures Mro(recs, rank, x) == Ok([x] + recs[x].bases + Mro(recs, rank, b).value)
  {
    GraphBases(recs);
    C3.LinearizeFan(Graph(recs), rank, x, b, Mro(recs, rank, b).value);
  }

  /** No record has `a` as a base or holds a reference to it. */
  ghost predicate Unreferenced(recs: Recs, a: nat)
  {
    forall z :: z in recs ==> a !in recs[z].bases && Lacks(recs[z].fields, Ref(a))
  }

  /** Every reference a local dict holds names a record of the store: a Python
      object can only refer to objects that exist. */
  ghost predicate RefsClosed(recs: Recs)
  {
    forall z, i :: z in recs && 0 <= i < |recs[z].fields| && recs[z].fields[i].1.Ref? ==> recs[z].fields[i].1.id in recs
  }

  /** A new record with no bases and an empty dict is referred to by nobody. */
  lemma {:induction false} FreshUnreferenced(recs: Recs, n: nat)
    requires RefsClosed(recs) && BaseClosed(recs, recs.Keys) && n !in recs
    ensures Unreferenced(recs[n := Rec([], [])], n)
  {
    var recs' := recs[n := Rec([], [])];
    forall z | z in recs' ensures n !in recs'[z].bases && Lacks(recs'[z].fields, Ref(n)) {
      if z != n {
        forall i | 0 <= i < |recs[z].bases| ensures recs[z].bases[i] != n {
          assert recs[z].bases[i] in recs;
        }
        forall i | 0 <= i < |recs[z].fields| ensures recs[z].fields[i].1 != Ref(n) {
          if recs[z].fields[i].1.Ref? {
            assert recs[z].fields[i].1.id in recs;
          }
        }
      }
    }
  }

  /** Giving the unreferenced `x` another base `y` keeps it unreferenced. */
  lemma {:induction false} UnreferencedAppend(recs: Recs, x: nat, y: nat)
    requires Unreferenced(recs, x) && x in recs && y != x
    ensures Unreferenced(recs[x := Rec(recs[x].fields, recs[x].bases + [y])], x)
  {
    assert x !in recs[x].bases + [y];
  }

  /** What a lookup finds is a value some record holds, so never a reference to an
      unreferenced record. */
  lemma {:induction false} LookupUnreferenced(recs: Recs, rank: map<nat, nat>, x: nat, k: string, a: nat)
    requires C3.Ranked(Graph(recs), rank) && Unreferenced(recs, a) && Lookup(recs, rank, x, k).Ok?
    ensures Lookup(recs, rank, x, k).value != Ref(a)
  {
    var m := Mro(recs, rank, x).value;
    LookupInFirst(recs, m, k);
    var i :| 0 <= i < |m| && Find(Local(recs, m[i]), k) == Some(LookupIn(recs, m, k).value);
    var v := LookupIn(recs, m, k).value;
    assert (k, v) in Local(recs, m[i]);
  }

  /** An upper bound of the ranks of `b`. */
  ghost function MaxRank(rank: map<nat, nat>, b: seq<nat>): (r: nat)
    requires forall i :: 0 <= i < |b| ==> b[i] in rank
    ensures forall i :: 0 <= i < |b| ==> rank[b[i]] <= r
  {
    if b == [] then 0
    else
      var t := MaxRank(rank, b[1..]);
      assert forall i :: 0 < i < |b| ==> b[i] == b[1..][i - 1];
      if rank[b[0]] < t then t else rank[b[0]]
  }

  /** A new record above its bases keeps the graph acyclic. */
  lemma {:induction false} RankedNew(recs: Recs, rank: map<nat, nat>, n: nat, d: Entries, b: seq<nat>)
    requires C3.Ranked(Graph(recs), rank) && BaseClosed(recs, recs.Keys)
    requires n !in recs && forall i :: 0 <= i < |b| ==> b[i] in recs
    ensures forall i :: 0 <= i < |b| ==> b[i] in rank
    ensures C3.Ranked(Graph(recs[n := Rec(d, b)]), rank[n := 1 + MaxRank(rank, b)])
  {
    assert forall i :: 0 <= i < |b| ==> b[i] in Graph(recs);
    var recs', rank' := recs[n := Rec(d, b)], rank[n := 1 + MaxRank(rank, b)];
    forall y | y in recs' ensures y in rank' && forall i :: 0 <= i < |recs'[y].bases| ==> recs'[y].bases[i] in rank' && rank'[recs'[y].bases[i]] < rank'[y] {
      if y != n {
        assert y in Graph(recs) && recs'[y] == recs[y];
        assert forall i :: 0 <= i < |recs[y].bases| ==> recs[y].bases[i] in recs;
      }
    }
  }

  /** So does a new last base `y` of a record `x` that is no record's base. */
  lemma {:induction false} RankedAppend(recs: Recs, rank: map<nat, nat>, x: nat, y: nat)
    requires C3.Ranked(Graph(recs), rank) && x in recs && y in recs && x != y
    requires forall z :: z in recs ==> x !in recs[z].bases
    ensures x in rank && y in rank
    ensures C3.Ranked(Graph(recs[x := Rec(recs[x].fields, recs[x].bases + [y])]),
                      rank[x := if rank[x] < rank[y] + 1 then rank[y] + 1 else rank[x]])
  {
    assert x in Graph(recs) && y in Graph(recs);
    var recs' := recs[x := Rec(recs[x].fields, recs[x].bases + [y])];
    var rank' := rank[x := if rank[x] < rank[y] + 1 then rank[y] + 1 else rank[x]];
    forall z | z in recs' ensures z in rank' && forall i :: 0 <= i < |recs'[z].bases| ==> recs'[z].bases[i] in rank' && rank'[recs'[z].bases[i]] < rank'[z] {
      assert z in Graph(recs);
      if z != x {
        assert forall i :: 0 <= i < |recs[z].bases| ==> recs[z].bases[i] != x;
      }
    }
  }

  /** The records reachable from `n` through bases, `n` itself included. */
  function Ancestors(recs: Recs, ghost rank: map<nat, nat>, n: nat): (r: set<nat>)
    requires C3.Ranked(Graph(recs), rank)
    ensures n in r
    decreases C3.Height(Graph(recs), rank, n), 1
  {
    if n in recs then {n} + AncestorsFrom(recs, rank, n, 0) else {n}
  }

  /** The records reachable from the bases of `n` from the `i`-th on. */
  function AncestorsFrom(recs: Recs, ghost rank: map<nat, nat>, n: nat, i: nat): set<nat>
    requires C3.Ranked(Graph(recs), rank) && n in recs && i <= |recs[n].bases|
    decreases C3.Height(Graph(recs), rank, n), 0, |recs[n].bases| - i
  {
    if i == |recs[n].bases| then {}
    else
      GraphBases(recs);
      C3.BaseHeight(Graph(recs), rank, n, i);
      Ancestors(recs, rank, recs[n].bases[i]) + AncestorsFrom(recs, rank, n, i + 1)
  }

  /** Whatever a base reaches, its record reaches too. */
  lemma {:induction false} AncestorsBase(recs: Recs, rank: map<nat, nat>, n: nat, i: nat)
    requires C3.Ranked(Graph(recs), rank) && n in recs && i < |recs[n].bases|
    ensures Ancestors(recs, rank, recs[n].bases[i]) <= Ancestors(recs, rank, n)
  {
    AncestorsFromHas(recs, rank, n, 0, i);
  }

  lemma {:induction false} AncestorsFromHas(recs: Recs, rank: map<nat, nat>, n: nat, j: nat, i: nat)
    requires C3.Ranked(Graph(recs), rank) && n in recs && j <= i < |recs[n].bases|
    ensures Ancestors(recs, rank, recs[n].bases[i]) <= AncestorsFrom(recs, rank, n, j)
    decreases i - j
  {
    if j < i {
      AncestorsFromHas(recs, rank, n, j + 1, i);
    }
  }

  /** The ranks after `x` gets the bases `bs`: everything that reaches `x` moves up
      above the highest of the new bases. */
  ghost function Rebased(recs: Recs, rank: map<nat, nat>, x: nat, bs: seq<nat>): map<nat, nat>
    requires C3.Ranked(Graph(recs), rank) && forall i :: 0 <= i < |bs| ==> bs[i] in recs
  {
    assert forall i :: 0 <= i < |bs| ==> bs[i] in Graph(recs);
    var d := 1 + MaxRank(rank, bs);
    map n | n in rank :: if x in Ancestors(recs, rank, n) then rank[n] + d else rank[n]
  }

  /** New bases for `x` none of which reaches `x` keep the graph acyclic. */
  lemma {:induction false} RankedRebase(recs: Recs, rank: map<nat, nat>, x: nat, bs: seq<nat>)
    requires C3.Ranked(Graph(recs), rank) && x in recs
    requires forall i :: 0 <= i < |bs| ==> bs[i] in recs && x !in Ancestors(recs, rank, bs[i])
    ensures C3.Ranked(Graph(recs[x := Rec(recs[x].fields, bs)]), Rebased(recs, rank, x, bs))
  {
    assert forall i :: 0 <= i < |bs| ==> bs[i] in Graph(recs);
    var d := 1 + MaxRank(rank, bs);
    var recs', rank' := recs[x := Rec(recs[x].fields, bs)], Rebased(recs, rank, x, bs);
    forall z | z in recs' ensures z in rank' && forall i :: 0 <= i < |recs'[z].bases| ==> recs'[z].bases[i] in rank' && rank'[recs'[z].bases[i]] < rank'[z] {
      assert z in Graph(recs);
      forall i | 0 <= i < |recs'[z].bases| ensures recs'[z].bases[i] in rank' && rank'[recs'[z].bases[i]] < rank'[z] {
        var m := recs'[z].bases[i];
        if z == x {
          assert m == bs[i] && rank'[m] == rank[m] < d;
        } else {
          assert recs'[z] == recs[z] && Graph(recs)[z] == recs[z].bases;
          AncestorsBase(recs, rank, z, i);
        }
      }
    }
  }

  // ------------------------------------------------------------------- store

  /** One more entry `f[j]` passes exactly when its key has not been seen. */
  lemma {:induction false} UnseenStep(before: Entries, f: Entries, j: nat, out: Entries, keys: set<string>)
    requires j < |f| && out == Unshadowed(before + f[..j]) && keys == Keys(out)
    ensures f[j].0 in keys ==> out == Unshadowed(before + f[..j + 1])
    ensures f[j].0 !in keys ==> out + [f[j]] == Unshadowed(before + f[..j + 1]) && keys + {f[j].0} == Keys(out + [f[j]])
  {
    assert f[..j + 1] == f[..j] + [f[j]];
    assert before + f[..j + 1] == (before + f[..j]) + [f[j]];
    UnshadowedSnoc(before + f[..j], f[j]);
  }

  /** The inner loop of `items()` (c3.py:104-107): pass on each entry of one local
      dict whose key has not been seen, and mark it seen. */
  method AddUnseen(ghost before: Entries, f: Entries, out: Entries, keys: set<string>)
    returns (out': Entries, keys': set<string>)
    requires out == Unshadowed(before) && keys == Keys(out)
    ensures out' == Unshadowed(before + f) && keys' == Keys(out')
  {
    out', keys' := out, keys;
    assert before + f[..0] == before;
    var j := 0;
    while j < |f|
      invariant 0 <= j <= |f|
      invariant out' == Unshadowed(before + f[..j]) && keys' == Keys(out')
    {
      var (k, v) := f[j];
      UnseenStep(before, f, j, out', keys');
      if k !in keys' {
        keys' := keys' + {k};
        out' := out' + [(k, v)];
      }
      j := j + 1;
    }
    assert f[..|f|] == f;
  }

  /** All `C` objects, by id, with the ids handed out so far. `rank` witnesses that
      the base graph is acyclic, which is what makes `mro` terminate. */
  class Store {
    var recs: Recs
    var next: nat
    ghost var rank: map<nat, nat>

    ghost predicate Valid()
      reads this
    {
      (forall n :: n in recs ==> n < next)
      && BaseClosed(recs, recs.Keys)
      && (forall n :: n in recs ==> DistinctKeys(recs[n].fields))
      && C3.Ranked(Graph(recs), rank)
    }

    constructor ()
      ensures Valid() && recs == map[]
    {
      recs := map[];
      next := 0;
      rank := map[];
    }

    /** `C(d, b)` (c3.py:68-70): a new record with local dict `d` and bases `b`
        (`NewFrame` says what stays the same). */
    method New(d: Entries, b: seq<nat>) returns (n: nat)
      requires Valid() && DistinctKeys(d) && forall i :: 0 <= i < |b| ==> b[i] in recs
      modifies this
      ensures Valid() && n !in old(recs) && recs == old(recs)[n := Rec(d, b)]
    {
      n := next;
      RankedNew(recs, rank, n, d, b);
      rank := rank[n := 1 + MaxRank(rank, b)];
      recs := recs[n := Rec(d, b)];
      next := next + 1;
    }

    /** `self[key] = val` (c3.py:80-81): only this record's local dict changes. */
    method SetItem(x: nat, k: string, v: Value)
      requires Valid() && x in recs
      modifies this
      ensures Valid() && rank == old(rank) && next == old(next)
      ensures recs == old(recs)[x := Rec(SetKey(old(recs)[x].fields, k, v), old(recs)[x].bases)]
      ensures Mro(recs, rank, x).Ok? ==> Lookup(recs, rank, x, k) == Ok(v)
      ensures forall y :: Mro(recs, rank, y) == Mro(old(recs), old(rank), y)
      ensures forall y, k' :: k' != k ==> Lookup(recs, rank, y, k') == Lookup(old(recs), old(rank), y, k')
    {
      ghost var recs0 := recs;
      SetKeyShape(recs[x].fields, k, v);
      recs := recs[x := Rec(SetKey(recs[x].fields, k, v), recs[x].bases)];
      SetLocal(recs0, rank, x, k, v, recs);
    }

    /** `x.__C_d__ |= e` (event.py:268): every entry of `e` set in `x`'s local dict
        in turn; the bases stay as they are. */
    method Update(x: nat, e: Entries)
      requires Valid() && x in recs
      modifies this
      ensures Valid() && rank == old(rank) && next == old(next)
      ensures recs == old(recs)[x := Rec(SetAll(old(recs)[x].fields, e), old(recs)[x].bases)]
    {
      ghost var recs0 := recs;
      SetAllDistinct(recs[x].fields, e);
      recs := recs[x := Rec(SetAll(recs[x].fields, e), recs[x].bases)];
      assert Graph(recs) == Graph(recs0);
    }

    /** `res.__C_b__.append(seg)` (event.py:280) on a record `x` that is no record's
        base: `y` becomes its last base (`AppendFrame` says what stays the same). */
    method AppendBase(x: nat, y: nat)
      requires Valid() && x in recs && y in recs && x != y
      requires forall z :: z in recs ==> x !in recs[z].bases
      modifies this
      ensures Valid() && next == old(next)
      ensures recs == old(recs)[x := Rec(old(recs)[x].fields, old(recs)[x].bases + [y])]
    {
      RankedAppend(recs, rank, x, y);
      rank := rank[x := if rank[x] < rank[y] + 1 then rank[y] + 1 else rank[x]];
      recs := recs[x := Rec(recs[x].fields, recs[x].bases + [y])];
    }

    /** `x.__C_d__ = d` (c3.py:69): the record's local dict becomes `d`. */
    method SetDict(x: nat, d: Entries)
      requires Valid() && x in recs && DistinctKeys(d)
      modifies this
      ensures Valid() && rank == old(rank) && next == old(next)
      ensures recs == old(recs)[x := Rec(d, old(recs)[x].bases)]
    {
      ghost var recs0 := recs;
      recs := recs[x := Rec(d, recs[x].bases)];
      assert Graph(recs) == Graph(recs0);
    }

    /** `x.__C_b__ = bs` (c3.py:70) with bases none of which reaches `x` back. */
    method SetBases(x: nat, bs: seq<nat>)
      requires Valid() && x in recs
      requires forall i :: 0 <= i < |bs| ==> bs[i] in recs && x !in Ancestors(recs, rank, bs[i])
      modifies this
      ensures Valid() && next == old(next)
      ensures recs == old(recs)[x := Rec(old(recs)[x].fields, bs)]
    {
      RankedRebase(recs, rank, x, bs);
      rank := Rebased(recs, rank, x, bs);
      recs := recs[x := Rec(recs[x].fields, bs)];
    }

    /** `self[key]` (c3.py:72-76): walk the resolution order and return the first
        local hit. */
    method GetItem(x: nat, k: string) returns (r: Result<Value>)
      requires Valid()
      ensures r == Lookup(recs, rank, x, k)
    {
      var mro := Mro(recs, rank, x);
      if mro.Err? {
        return Err(mro.error);
      }
      r := Walk(mro.value, k);
    }

    /** The loop of `__getitem__` (c3.py:73-76) along the resolution order `m`. */
    method Walk(m: seq<nat>, k: string) returns (r: Result<Value>)
      ensures r == LookupIn(recs, m, k)
    {
      var i := 0;
      while i < |m|
        invariant 0 <= i <= |m|
        invariant LookupIn(recs, m[i..], k) == LookupIn(recs, m, k)
      {
        LookupInStep(recs, m, i, k);
        var found := Find(Local(recs, m[i]), k);
        if found.Some? {
          return Ok(found.value);
        }
        i := i + 1;
      }
      assert m[i..] == [];
      return Err(KeyError(k));
    }

    /** `key in self` (c3.py:83-89): true exactly when the lookup succeeds, whatever
        the value found. */
    method Contains(x: nat, k: string) returns (r: Result<bool>)
      requires Valid()
      ensures r.Ok? <==> Mro(recs, rank, x).Ok?
      ensures r.Ok? ==> (r.value <==> Lookup(recs, rank, x, k).Ok?)
      ensures r.Err? ==> r == Err(NoLegalMro)
    {
      var l := GetItem(x, k);
      match l
      case Ok(_) => r := Ok(true);
      case Err(e) => r := if e.KeyError? then Ok(false) else Err(e);
    }

    /** `self.get(key, default)` (c3.py:95-99): the lookup, with `default` in place
        of a `KeyError`. */
    method Get(x: nat, k: string, default: Value) returns (r: Result<Value>)
      requires Valid()
      ensures Lookup(recs, rank, x, k).Ok? ==> r == Lookup(recs, rank, x, k)
      ensures Lookup(recs, rank, x, k) == Err(KeyError(k)) ==> r == Ok(default)
      ensures Mro(recs, rank, x).Err? ==> r == Err(NoLegalMro)
    {
      var l := GetItem(x, k);
      match l
      case Ok(_) => r := l;
      case Err(e) => r := if e.KeyError? then Ok(default) else Err(e);
    }

    /** `self.items()` (c3.py:101-107): walk the resolution order and each local dict
        in turn, passing on each key the first time it is seen. */
    method Items(x: nat) returns (r: Result<Entries>)
      requires Valid()
      ensures r == ItemsOf(recs, rank, x)
    {
      var mro := Mro(recs, rank, x);
      if mro.Err? {
        return Err(mro.error);
      }
      var m := mro.value;
      var keys: set<string> := {};
      var out: Entries := [];
      var i := 0;
      while i < |m|
        invariant 0 <= i <= |m|
        invariant out == Unshadowed(Concat(recs, m[..i])) && keys == Keys(out)
      {
        ghost var before := Concat(recs, m[..i]);
        out, keys := AddUnseen(before, Local(recs, m[i]), out, keys);
        ConcatSnoc(recs, m, i);
        i := i + 1;
      }
      assert m[..|m|] == m;
      return Ok(out);
    }
  }
}
