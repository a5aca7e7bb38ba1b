/** The event loader of event.py: attribute access on namespaces, the table column
    defaults, date formatting, and the loading of a YAML file's segments into a
    chain of records whose resolution order makes earlier segments shadow later
    ones and all of them shadow the built-in events. */
module Event {
  import opened Wrappers
  import opened Values
  import opened Text
  import opened Grades
  import opened Namespace
  import C3

  // ---------------------------------------------------------------- attributes

  /** `attr.startswith('__') and attr.endswith('__')`; the two may overlap. */
  predicate IsDunder(attr: string)
  {
    |attr| >= 2 && attr[..2] == "__" && attr[|attr| - 2..] == "__"
  }

  /** `NS.__getattr__` (event.py:34-38): the lookup, with the falsy `junk` in place
      of a missing key. */
  method GetAttr(st: Store, x: nat, attr: string) returns (r: Result<Value>)
    requires st.Valid()
    ensures Lookup(st.recs, st.rank, x, attr).Ok? ==> r == Lookup(st.recs, st.rank, x, attr)
    ensures Lookup(st.recs, st.rank, x, attr) == Err(KeyError(attr)) ==> r == Ok(Junk) && !Truthy(r.value)
    ensures Mro(st.recs, st.rank, x).Err? ==> r == Err(NoLegalMro)
  {
    r := st.Get(x, attr, Junk);
  }

  /** The ids of a list of records, when every element is a record of the store. */
  function RecordIds(recs: Recs, xs: seq<Value>): (r: Option<seq<nat>>)
    ensures r.Some? <==> forall i :: 0 <= i < |xs| ==> xs[i].Ref? && xs[i].id in recs
    ensures r.Some? ==> |r.value| == |xs| && forall i :: 0 <= i < |xs| ==> xs[i] == Ref(r.value[i])
  {
    if xs == [] then Some([])
    else if xs[0].Ref? && xs[0].id in recs then
      assert forall i :: 0 < i < |xs| ==> xs[i] == xs[1..][i - 1];
      match RecordIds(recs, xs[1..])
      case None => None
      case Some(t) =>
        assert forall i :: 0 < i < |xs| ==> ([xs[0].id] + t)[i] == t[i - 1];
        Some([xs[0].id] + t)
    else None
  }

  /** A value that `x.__C_b__` can be given here: a list of records none of which
      reaches `x` back through bases. */
  predicate Rebasable(recs: Recs, ghost rank: map<nat, nat>, x: nat, v: Value)
    requires C3.Ranked(Graph(recs), rank)
  {
    v.Coll? && v.kind == ListK && RecordIds(recs, v.elems).Some? &&
    forall i :: 0 <= i < |v.elems| ==> x !in Ancestors(recs, rank, RecordIds(recs, v.elems).value[i])
  }

  /** `NS.__setattr__` (event.py:40-43): a dunder name goes to the Python object
      itself, where `__C_d__` and `__C_b__` are the record's slots (c3.py:57-59), so
      those two replace its local dict or its bases and any other dunder name leaves
      the namespace alone; every other name is `self[attr] = val`. `ok` is false,
      and nothing changes, for a slot value the store cannot hold: a `__C_d__` that
      is not a dict, or a `__C_b__` that is not a list of records or would make the
      base graph cyclic. */
  method SetAttr(st: Store, x: nat, attr: string, v: Value) returns (ok: bool)
    requires st.Valid() && x in st.recs
    modifies st
    ensures st.Valid()
    ensures !ok ==> st.recs == old(st.recs)
    ensures attr == "__C_d__" ==> (ok <==> v.Dict? && DistinctKeys(v.entries))
    ensures attr == "__C_d__" && ok ==> st.recs == old(st.recs)[x := Rec(v.entries, old(st.recs)[x].bases)]
    ensures attr == "__C_b__" ==> (ok <==> Rebasable(old(st.recs), old(st.rank), x, v))
    ensures attr == "__C_b__" && ok ==>
      st.recs == old(st.recs)[x := Rec(old(st.recs)[x].fields, RecordIds(old(st.recs), v.elems).value)]
    ensures IsDunder(attr) && attr != "__C_d__" && attr != "__C_b__" ==> ok && st.recs == old(st.recs)
    ensures !IsDunder(attr) ==> ok && st.recs == old(st.recs)[x := Rec(SetKey(old(st.recs)[x].fields, attr, v), old(st.recs)[x].bases)]
    ensures !IsDunder(attr) && Mro(st.recs, st.rank, x).Ok? ==> Lookup(st.recs, st.rank, x, attr) == Ok(v)
  {
    if attr == "__C_d__" {
      if v.Dict? && DistinctKeys(v.entries) {
        st.SetDict(x, v.entries);
        return true;
      }
      return false;
    }
    if attr == "__C_b__" {
      if Rebasable(st.recs, st.rank, x, v) {
        st.SetBases(x, RecordIds(st.recs, v.elems).value);
        return true;
      }
      return false;
    }
    if IsDunder(attr) {
      return true;
    }
    st.SetItem(x, attr, v);
    return true;
  }

  // ---------------------------------------------------------------- dates

  /** `str(v)` for the scalars a parsed definition holds; `None` for containers,
      whose text the model does not render. */
  function StrOf(v: Value): Option<string>
  {
    match v
    case Str(s) => Some(s)
    case Int(i) => Some(IntStr(i))
    case Bool(b) => Some(if b then "True" else "False")
    case NoneV => Some("None")
    case Junk => Some("<N/A>")
    case _ => None
  }

  /** `format_date` (event.py:209-216): a mapping with `start` and `end` becomes
      "start - end", a string stays as it is, and anything else is its `repr`
      (rendered here only for scalars, where it coincides with `str`). */
  function FormatDate(d: Value): (r: Option<string>)
    ensures d.Str? ==> r == Some(d.s)
    ensures d.Dict? && "start" in Keys(d.entries) && "end" in Keys(d.entries) ==>
      r == match (StrOf(Find(d.entries, "start").value), StrOf(Find(d.entries, "end").value))
           case (Some(a), Some(b)) => Some(a + " - " + b)
           case _ => None
  {
    match d
    case Dict(es) =>
      if "start" in Keys(es) && "end" in Keys(es) then
        match (StrOf(Find(es, "start").value), StrOf(Find(es, "end").value))
        case (Some(a), Some(b)) => Some(a + " - " + b)
        case _ => None
      else None
    case Str(s) => Some(s)
    case Coll(_, _) => None
    case Ref(_) => None
    case _ => StrOf(d)
  }

  /** A mapping pattern ignores extra keys: further entries after `start` and `end`
      do not change the text. */
  lemma {:induction false} FormatDateExtra(a: string, b: string, extra: Entries)
    ensures FormatDate(Dict([("start", Str(a)), ("end", Str(b))] + extra)) == Some(a + " - " + b)
  {
    var es := [("start", Str(a)), ("end", Str(b))];
    FindAppend(es, extra, "start");
    FindAppend(es, extra, "end");
  }

  // ---------------------------------------------------------------- table columns

  /** A declared column: its id and title, then `'sortable': False` when it is not
      sortable, then `'html': True` when it holds markup, in that order. */
  function Column(id: string, title: string, sortable: bool, html: bool): Entries
  {
    [("id", Str(id))] + ([("title", Str(title))] + ColumnTail(sortable, html))
  }

  /** The columns of the event table as declared (event.py:62-108): id, title,
      sortable, html. */
  const ColumnSpecs: seq<(string, string, bool, bool)> :=
    [ ("id", "ID", true, false),
      ("name", "Название", true, false),
      ("stage", "Этап", true, false),
      ("url", "Ссылка", false, true),
      ("grades", "Классы", false, false),
      ("diff", "Сложность", true, false),
      ("date", "Дата", true, false),
      ("rating", "Уровень РСОШ", true, false),
      ("format", "Формат", true, false),
      ("solutions_url", "Ссылка на решения", false, true) ]

  function DeclaredColumns(): (r: seq<Entries>)
    ensures |r| == |ColumnSpecs|
    ensures forall i :: 0 <= i < |r| ==> r[i] == Column(ColumnSpecs[i].0, ColumnSpecs[i].1, ColumnSpecs[i].2, ColumnSpecs[i].3)
  {
    seq(|ColumnSpecs|, i requires 0 <= i < |ColumnSpecs| =>
      Column(ColumnSpecs[i].0, ColumnSpecs[i].1, ColumnSpecs[i].2, ColumnSpecs[i].3))
  }

  const ColumnDefaults: Entries := [("sortable", Bool(true)), ("visible", Bool(true))]

  /** `{'sortable': True, 'visible': True} | c` for every declared column
      (event.py:109-116). */
  function TableColumns(): (r: seq<Entries>)
    ensures |r| == |DeclaredColumns()|
    ensures forall i :: 0 <= i < |r| ==> Keys(r[i]) == Keys(ColumnDefaults) + Keys(DeclaredColumns()[i])
  {
    var cs := DeclaredColumns();
    seq(|cs|, i requires 0 <= i < |cs| => SetAll(ColumnDefaults, cs[i]))
  }

  /** The optional flags that follow a column's id and title. */
  function ColumnTail(sortable: bool, html: bool): Entries
  {
    (if sortable then [] else [("sortable", Bool(false))])
      + (if html then [("html", Bool(true))] else [])
  }

  lemma {:induction false} ColumnTailKeys(sortable: bool, html: bool)
    ensures var t := ColumnTail(sortable, html);
      && DistinctKeys(t) && "id" !in Keys(t) && "title" !in Keys(t) && "visible" !in Keys(t)
      && Find(t, "sortable") == (if sortable then None else Some(Bool(false)))
      && Find(t, "html") == (if html then Some(Bool(true)) else None)
  {
    var t := ColumnTail(sortable, html);
    if !sortable && html {
      assert t == [("sortable", Bool(false)), ("html", Bool(true))];
      assert t[1..] == [("html", Bool(true))];
      assert |"sortable"| != |"html"|;
      assert Keys(t[1..]) == {"html"};
      assert DistinctKeys(t);
      assert Find(t, "html") == Some(Bool(true));
    } else if sortable && html {
      assert t == [("html", Bool(true))];
    } else if !sortable {
      assert t == [("sortable", Bool(false))];
    } else {
      assert t == [];
    }
  }

  lemma {:induction false} ColumnKeys(id: string, title: string, sortable: bool, html: bool)
    ensures DistinctKeys(Column(id, title, sortable, html))
    ensures "visible" !in Keys(Column(id, title, sortable, html))
    ensures Find(Column(id, title, sortable, html), "id") == Some(Str(id))
    ensures Find(Column(id, title, sortable, html), "title") == Some(Str(title))
    ensures Find(Column(id, title, sortable, html), "sortable") == (if sortable then None else Some(Bool(false)))
    ensures Find(Column(id, title, sortable, html), "html") == (if html then Some(Bool(true)) else None)
  {
    assert Column(id, title, sortable, html) == [("id", Str(id))] + ([("title", Str(title))] + ColumnTail(sortable, html));
    var t := ColumnTail(sortable, html);
    ColumnTailKeys(sortable, html);
    assert |"title"| == 5 && |"sortable"| == 8 && |"html"| == 4 && |"id"| == 2 && |"visible"| == 7;
    ConsEntries(("title", Str(title)), t);
    ConsEntries(("id", Str(id)), [("title", Str(title))] + t);
  }

  lemma {:induction false} DefaultsKeys()
    ensures Find(ColumnDefaults, "sortable") == Some(Bool(true))
    ensures Find(ColumnDefaults, "visible") == Some(Bool(true))
  {
    assert |"sortable"| != |"visible"|;
    ConsEntries(ColumnDefaults[0], ColumnDefaults[1..]);
    assert ColumnDefaults == [ColumnDefaults[0]] + ColumnDefaults[1..];
  }

  /** Every column is visible and keeps its declared id and title; it is sortable
      unless it says otherwise. */
  lemma {:induction false} ColumnFlags(i: nat)
    requires i < |TableColumns()|
    ensures Find(TableColumns()[i], "visible") == Some(Bool(true))
    ensures Find(TableColumns()[i], "sortable") == Some(Bool(ColumnSpecs[i].2))
    ensures Find(TableColumns()[i], "id") == Some(Str(ColumnSpecs[i].0))
    ensures Find(TableColumns()[i], "title") == Some(Str(ColumnSpecs[i].1))
    ensures Find(TableColumns()[i], "html") == (if ColumnSpecs[i].3 then Some(Bool(true)) else None)
  {
    var (id, title, sortable, html) := ColumnSpecs[i];
    var c := Column(id, title, sortable, html);
    assert TableColumns()[i] == SetAll(ColumnDefaults, c);
    ColumnKeys(id, title, sortable, html);
    DefaultsKeys();
  }

  /** Only the url, grades and solutions columns are not sortable. */
  lemma {:induction false} UnsortableColumns(i: nat)
    requires i < |ColumnSpecs|
    ensures !ColumnSpecs[i].2 <==> ColumnSpecs[i].0 in {"url", "grades", "solutions_url"}
  {
  }

  /** Only the url and solutions columns hold markup (`'html': True`; no other
      column has an `html` key, by `ColumnFlags`). */
  lemma {:induction false} HtmlColumns(i: nat)
    requires i < |ColumnSpecs|
    ensures ColumnSpecs[i].3 <==> ColumnSpecs[i].0 in {"url", "solutions_url"}
  {
  }

  // ---------------------------------------------------------------- definitions

  /** `id.startswith('$')`: an abstract event, defined only to be inherited from. */
  predicate IsAbstract(id: string)
  {
    |id| > 0 && id[0] == '$'
  }

  /** The check of event.py:257-260 on a list of base ids. An element that is not a
      string has no `startswith`, and that failure comes first (`BadBaseSpec`);
      otherwise every id must be abstract (`NonAbstractBase`). */
  function AbstractIds(xs: seq<Value>): (r: Result<seq<string>>)
    ensures r.Ok? <==> forall i :: 0 <= i < |xs| ==> xs[i].Str? && IsAbstract(xs[i].s)
    ensures r.Ok? ==> |r.value| == |xs| && forall i :: 0 <= i < |xs| ==> r.value[i] == xs[i].s
    ensures r.Err? && (forall i :: 0 <= i < |xs| ==> xs[i].Str?) ==> r == Err(NonAbstractBase)
    ensures r.Err? && (exists i :: 0 <= i < |xs| && !xs[i].Str?) ==> r == Err(BadBaseSpec)
  {
    if xs == [] then Ok([])
    else
      var t := AbstractIds(xs[1..]);
      assert forall i :: 1 <= i < |xs| ==> xs[i] == xs[1..][i - 1];
      if !xs[0].Str? || t == Err(BadBaseSpec) then Err(BadBaseSpec)
      else if !IsAbstract(xs[0].s) || t.Err? then Err(NonAbstractBase)
      else
        assert forall i :: 1 <= i < |xs| ==> ([xs[0].s] + t.value)[i] == t.value[i - 1];
        Ok([xs[0].s] + t.value)
  }

  function Strs(ws: seq<string>): (r: seq<Value>)
    ensures |r| == |ws| && forall i :: 0 <= i < |ws| ==> r[i] == Str(ws[i])
  {
    if ws == [] then [] else [Str(ws[0])] + Strs(ws[1..])
  }

  /** `defi.pop('$', None)` read as base ids (event.py:248-256): a string is split on
      whitespace, a list is taken as it is, a missing or null entry means no bases,
      and any other value is an error. */
  function BaseIds(spec: Option<Value>): (r: Result<seq<string>>)
    ensures spec == None || spec == Some(NoneV) ==> r == Ok([])
    ensures spec.Some? && spec.value != NoneV && !spec.value.Str? && !(spec.value.Coll? && spec.value.kind == ListK) ==>
      r == Err(BadBaseSpec)
    ensures r.Err? ==> r == Err(BadBaseSpec) || r == Err(NonAbstractBase)
  {
    match spec
    case None => Ok([])
    case Some(NoneV) => Ok([])
    case Some(Str(s)) => AbstractIds(Strs(Words(s)))
    case Some(Coll(ListK, xs)) => AbstractIds(xs)
    case Some(_) => Err(BadBaseSpec)
  }

  /** A string of bases is its words, and each word must be abstract. */
  lemma {:induction false} BaseIdsText(s: string)
    ensures BaseIds(Some(Str(s))).Ok? <==> forall i :: 0 <= i < |Words(s)| ==> IsAbstract(Words(s)[i])
    ensures BaseIds(Some(Str(s))).Ok? ==> BaseIds(Some(Str(s))).value == Words(s)
    ensures BaseIds(Some(Str(s))).Err? ==> BaseIds(Some(Str(s))) == Err(NonAbstractBase)
  {
    assert BaseIds(Some(Str(s))) == AbstractIds(Strs(Words(s)));
    AbstractStrs(Words(s));
  }

  lemma {:induction false} AbstractStrs(ws: seq<string>)
    ensures AbstractIds(Strs(ws)).Ok? <==> forall i :: 0 <= i < |ws| ==> IsAbstract(ws[i])
    ensures AbstractIds(Strs(ws)).Ok? ==> AbstractIds(Strs(ws)).value == ws
    ensures AbstractIds(Strs(ws)).Err? ==> AbstractIds(Strs(ws)) == Err(NonAbstractBase)
  {
    var xs := Strs(ws);
    assert forall i :: 0 <= i < |xs| ==> xs[i].Str? && xs[i].s == ws[i];
  }

  /** The two spellings of a base list agree: `$: "$a $b"` and `$: ["$a", "$b"]`. */
  lemma {:induction false} BaseIdsSpellings(ids: seq<string>)
    requires forall i :: 0 <= i < |ids| ==> IsAbstract(ids[i]) && forall j :: 0 <= j < |ids[i]| ==> !IsSpace(ids[i][j])
    ensures BaseIds(Some(Str(Join(ids, ' ')))) == Ok(ids)
    ensures BaseIds(Some(Coll(ListK, Strs(ids)))) == Ok(ids)
  {
    WordsJoin(ids);
    AbstractStrs(ids);
  }

  /** `parse_grades(v)` (event.py:189-198) on a parsed value: `str(v)`, then the
      text. The text of a container, a boolean or `None` never parses, so those are
      errors here directly. */
  function GradesOf(v: Value): (r: Result<set<int>>)
    ensures r.Err? ==> r == Err(BadGrades)
    ensures v.Str? ==> r == ParseGrades(v.s)
  {
    match StrOf(v)
    case Some(s) => if v.Str? || v.Int? then ParseGrades(s) else Err(BadGrades)
    case None => Err(BadGrades)
  }

  /** `dump_grades` text reads back as the set it was written from. */
  lemma {:induction false} GradesOfText(g: set<int>)
    requires g != {} && forall x :: x in g ==> x >= 0
    ensures GradesOf(Str(GradesText(g))) == Ok(g)
  {
    GradesRoundTrip(g);
  }

  /** A bare number `grades: 9` is the single grade 9. */
  lemma {:induction false} GradesOfNat(n: nat)
    ensures GradesOf(Int(n)) == Ok({n})
  {
    var s := NatStr(n);
    assert ',' !in s && '-' !in s by {
      assert forall i :: 0 <= i < |s| ==> IsDigit(s[i]);
    }
    assert Split(s, ',') == [s];
    ParseNatStr(n);
    assert ParseItem(s) == Ok({n});
    assert ParseItems([s]) == Ok({n}) by {
      assert [s][0] == s && [s][1..] == [];
      assert ParseItems([]) == Ok({});
      assert {n} + {} == {n};
    }
  }

  /** A negative number is not a grade: its `-` makes it a range with an empty
      lower end. */
  lemma {:induction false} GradesOfNegative(i: int)
    requires i < 0
    ensures GradesOf(Int(i)).Err?
  {
    var d := NatStr(-i);
    var s := IntStr(i);
    assert s == "-" + d;
    assert ',' !in s by {
      assert forall j :: 0 <= j < |d| ==> IsDigit(d[j]);
      assert forall j :: 1 <= j < |s| ==> s[j] == d[j - 1];
    }
    assert Split(s, ',') == [s];
    assert '-' in s by {
      assert s[0] == '-';
    }
    SplitPrefix("", '-', d);
    assert "" + ['-'] + d == s;
    assert ParseNat("").None?;
    assert !ParseItem(s).Ok?;
  }

  function Ints(xs: seq<int>): (r: seq<Value>)
    ensures |r| == |xs| && forall i :: 0 <= i < |xs| ==> r[i] == Int(xs[i])
  {
    if xs == [] then [] else [Int(xs[0])] + Ints(xs[1..])
  }

  /** The parsed `grades` as stored: a set, whose elements the model keeps in
      increasing order. */
  function GradesValue(g: set<int>): Value
  {
    Coll(SetK, Ints(SortedSeq(g)))
  }

  /** Lines 265-268 of event.py on a dict `f`: the parsed `grades` of what is left
      of the definition, when it has them, then the rest of it. */
  function AddRest(f: Entries, rest: Entries): (r: Result<Entries>)
    ensures r.Ok? <==> ("grades" in Keys(rest) ==> GradesOf(Find(rest, "grades").value).Ok?)
    ensures r.Err? ==> r == Err(BadGrades)
  {
    if "grades" in Keys(rest) then
      match GradesOf(Find(rest, "grades").value)
      case Err(e) => Err(e)
      case Ok(g) => Ok(SetAll(SetKey(f, "grades", GradesValue(g)), RemoveKey(rest, "grades")))
    else Ok(SetAll(f, rest))
  }

  /** The local dict of a loaded event (event.py:262-268): `id` first, then the
      parsed `grades` when the definition has them, then the rest of the
      definition, with `$` and `grades` already popped from it. */
  function EventFields(id: string, defi: Entries): (r: Result<Entries>)
    ensures r.Ok? <==> ("grades" in Keys(defi) ==> GradesOf(Find(defi, "grades").value).Ok?)
    ensures r.Err? ==> r == Err(BadGrades)
  {
    assert |"$"| != |"grades"|;
    AddRest([("id", Str(id))], RemoveKey(defi, "$"))
  }

  /** What a loaded event holds under each key: the parsed grades, else the
      definition's own entry, else the id; never the `$` entry. */
  lemma {:induction false} EventFieldsFind(id: string, defi: Entries, k: string)
    requires DistinctKeys(defi) && EventFields(id, defi).Ok?
    ensures Find(EventFields(id, defi).value, k) ==
      if k == "$" then None
      else if k == "grades" && "grades" in Keys(defi) then Some(GradesValue(GradesOf(Find(defi, "grades").value).value))
      else if k in Keys(defi) then Find(defi, k)
      else if k == "id" then Some(Str(id))
      else None
  {
    assert |"$"| == 1 && |"grades"| == 6 && |"id"| == 2;
    var rest := RemoveKey(defi, "$");
    RemoveKeyDistinct(defi, "$");
    var base: Entries := [("id", Str(id))];
    ConsEntries(("id", Str(id)), []);
    assert base == [("id", Str(id))] + [];
    if "grades" in Keys(rest) {
      var rest2 := RemoveKey(rest, "grades");
      RemoveKeyDistinct(rest, "grades");
    }
  }

  // ---------------------------------------------------------------- loading

  /** A lookup that found a record of the store. */
  predicate FoundRecord(recs: Recs, l: Result<Value>)
  {
    l.Ok? && l.value.Ref? && l.value.id in recs
  }

  /** `events[id]` for each id of `ids`, in the segment `seg`. */
  function Lookups(recs: Recs, ghost rank: map<nat, nat>, seg: nat, ids: seq<string>): (r: seq<Result<Value>>)
    requires C3.Ranked(Graph(recs), rank)
    ensures |r| == |ids| && forall j :: 0 <= j < |ids| ==> r[j] == Lookup(recs, rank, seg, ids[j])
  {
    seq(|ids|, j requires 0 <= j < |ids| => Lookup(recs, rank, seg, ids[j]))
  }

  /** The records the lookups `ls` found, in order; the first failing lookup is the
      error, and what a lookup finds must be a record. */
  function Found(recs: Recs, ls: seq<Result<Value>>): (r: Result<seq<nat>>)
    ensures r.Ok? <==> forall j :: 0 <= j < |ls| ==> FoundRecord(recs, ls[j])
    ensures r.Ok? ==> |r.value| == |ls| && forall j :: 0 <= j < |ls| ==> ls[j] == Ok(Ref(r.value[j]))
  {
    if ls == [] then Ok([])
    else
      var t := Found(recs, ls[1..]);
      assert forall j :: 1 <= j < |ls| ==> ls[j] == ls[1..][j - 1];
      if ls[0].Err? then Err(ls[0].error)
      else if !FoundRecord(recs, ls[0]) then Err(NotARecord)
      else if t.Err? then t
      else
        assert forall j :: 1 <= j < |ls| ==> ([ls[0].value.id] + t.value)[j] == t.value[j - 1];
        Ok([ls[0].value.id] + t.value)
  }

  /** `[events[id] for id in base_ids]` (event.py:261): each id looked up in the
      segment in turn; the first failing lookup is the error, and what a lookup
      finds must be a record. */
  function Resolve(recs: Recs, ghost rank: map<nat, nat>, seg: nat, ids: seq<string>): (r: Result<seq<nat>>)
    requires C3.Ranked(Graph(recs), rank)
    ensures r.Ok? <==> forall j :: 0 <= j < |ids| ==> FoundRecord(recs, Lookup(recs, rank, seg, ids[j]))
    ensures r.Ok? ==> |r.value| == |ids| && forall j :: 0 <= j < |ids| ==> Lookup(recs, rank, seg, ids[j]) == Ok(Ref(r.value[j]))
  {
    Found(recs, Lookups(recs, rank, seg, ids))
  }

  /** The ids found for `ns` followed by the outcome for the remaining ids. */
  function Prepend(ns: seq<nat>, r: Result<seq<nat>>): Result<seq<nat>>
  {
    match r
    case Ok(t) => Ok(ns + t)
    case Err(e) => Err(e)
  }

  /** One step of `Resolve` from position `i` on, after the ids `ns` before it. */
  lemma {:induction false} ResolveStep(recs: Recs, rank: map<nat, nat>, seg: nat, ids: seq<string>, i: nat, ns: seq<nat>)
    requires C3.Ranked(Graph(recs), rank) && i < |ids|
    ensures Lookup(recs, rank, seg, ids[i]).Err? ==>
      Prepend(ns, Resolve(recs, rank, seg, ids[i..])) == Err(Lookup(recs, rank, seg, ids[i]).error)
    ensures Lookup(recs, rank, seg, ids[i]).Ok? && !FoundRecord(recs, Lookup(recs, rank, seg, ids[i])) ==>
      Prepend(ns, Resolve(recs, rank, seg, ids[i..])) == Err(NotARecord)
    ensures FoundRecord(recs, Lookup(recs, rank, seg, ids[i])) ==>
      Prepend(ns, Resolve(recs, rank, seg, ids[i..]))
      == Prepend(ns + [Lookup(recs, rank, seg, ids[i]).value.id], Resolve(recs, rank, seg, ids[i + 1..]))
  {
    var ls := Lookups(recs, rank, seg, ids[i..]);
    assert ls[0] == Lookup(recs, rank, seg, ids[i]) by {
      assert ids[i..][0] == ids[i];
    }
    assert ls[1..] == Lookups(recs, rank, seg, ids[i + 1..]) by {
      assert forall j :: i + 1 <= j < |ids| ==> ids[i..][j - i] == ids[j] && ids[i + 1..][j - i - 1] == ids[j];
    }
    var t := Resolve(recs, rank, seg, ids[i + 1..]);
    var l := Lookup(recs, rank, seg, ids[i]);
    if l.Err? {
    } else if !FoundRecord(recs, l) {
    } else if t.Ok? {
      assert ns + ([l.value.id] + t.value) == ns + [l.value.id] + t.value;
    }
  }

  /** The list comprehension of event.py:261 as the loop it is. */
  method ResolveBases(st: Store, seg: nat, ids: seq<string>) returns (r: Result<seq<nat>>)
    requires st.Valid()
    ensures r == Resolve(st.recs, st.rank, seg, ids)
  {
    var ns: seq<nat> := [];
    assert ids[0..] == ids;
    var r0 := Resolve(st.recs, st.rank, seg, ids);
    if r0.Ok? {
      assert ns + r0.value == r0.value;
    }
    for i := 0 to |ids|
      invariant Resolve(st.recs, st.rank, seg, ids) == Prepend(ns, Resolve(st.recs, st.rank, seg, ids[i..]))
    {
      ResolveStep(st.recs, st.rank, seg, ids, i, ns);
      var v := st.GetItem(seg, ids[i]);
      if v.Err? {
        return Err(v.error);
      }
      if !(v.value.Ref? && v.value.id in st.recs) {
        return Err(NotARecord);
      }
      ns := ns + [v.value.id];
    }
    assert ids[|ids|..] == [] && ns + [] == ns;
    return Ok(ns);
  }

  /** Replacing one record's dict by one without references to `avoid`, or adding
      a record whose bases and dict do not refer to it, keeps `avoid` unreferenced. */
  lemma {:induction false} UnreferencedPut(recs: Recs, e: nat, x: Rec, avoid: nat)
    requires Unreferenced(recs, avoid) && avoid !in x.bases && Lacks(x.fields, Ref(avoid))
    ensures Unreferenced(recs[e := x], avoid)
  {
  }

  lemma {:induction false} PutTwice(recs: Recs, e: nat, x: Rec, y: Rec)
    ensures recs[e := x][e := y] == recs[e := y]
  {
  }

  /** Lines 265-268 of event.py on the new event `e`: set its parsed grades, then
      the rest of the definition. */
  method FillRest(st: Store, e: nat, rest: Entries, ghost avoid: nat) returns (ok: bool)
    requires st.Valid() && e in st.recs
    requires Unreferenced(st.recs, avoid) && Lacks(rest, Ref(avoid))
    modifies st
    ensures st.Valid() && Unreferenced(st.recs, avoid)
    ensures e in st.recs && st.recs == old(st.recs)[e := Rec(st.recs[e].fields, old(st.recs)[e].bases)]
    ensures ok <==> AddRest(old(st.recs)[e].fields, rest).Ok?
    ensures ok ==> st.recs[e].fields == AddRest(old(st.recs)[e].fields, rest).value
  {
    if "grades" in Keys(rest) {
      var g := GradesOf(Find(rest, "grades").value);
      if g.Err? {
        return false;
      }
      ghost var f := SetAll(SetKey(st.recs[e].fields, "grades", GradesValue(g.value)), RemoveKey(rest, "grades"));
      assert AddRest(st.recs[e].fields, rest) == Ok(f);
      SetKeyLacks(st.recs[e].fields, "grades", GradesValue(g.value), Ref(avoid));
      st.SetItem(e, "grades", GradesValue(g.value));
      UnreferencedPut(old(st.recs), e, st.recs[e], avoid);
      RemoveKeyLacks(rest, "grades", Ref(avoid));
      SetAllLacks(st.recs[e].fields, RemoveKey(rest, "grades"), Ref(avoid));
      ghost var recs1 := st.recs;
      st.Update(e, RemoveKey(rest, "grades"));
      UnreferencedPut(recs1, e, st.recs[e], avoid);
      PutTwice(old(st.recs), e, recs1[e], st.recs[e]);
    } else {
      assert AddRest(st.recs[e].fields, rest) == Ok(SetAll(st.recs[e].fields, rest));
      SetAllLacks(st.recs[e].fields, rest, Ref(avoid));
      st.Update(e, rest);
      UnreferencedPut(old(st.recs), e, st.recs[e], avoid);
    }
    return true;
  }

  /** Lines 263-268 of event.py on the new event `e`: set its id, then its parsed
      grades, then the rest of the definition. */
  method FillEvent(st: Store, e: nat, id: string, defi: Entries, ghost avoid: nat) returns (ok: bool)
    requires st.Valid() && e in st.recs && st.recs[e].fields == []
    requires Unreferenced(st.recs, avoid) && Lacks(defi, Ref(avoid))
    modifies st
    ensures st.Valid() && Unreferenced(st.recs, avoid)
    ensures e in st.recs && st.recs == old(st.recs)[e := Rec(st.recs[e].fields, old(st.recs)[e].bases)]
    ensures ok <==> EventFields(id, defi).Ok?
    ensures ok ==> st.recs[e].fields == EventFields(id, defi).value
  {
    st.SetItem(e, "id", Str(id));
    assert st.recs[e].fields == [("id", Str(id))];
    UnreferencedPut(old(st.recs), e, st.recs[e], avoid);
    RemoveKeyLacks(defi, "$", Ref(avoid));
    ghost var recs1 := st.recs;
    ok := FillRest(st, e, RemoveKey(defi, "$"), avoid);
    PutTwice(old(st.recs), e, recs1[e], st.recs[e]);
  }

  /** The store `recs'` is `recs` with the new event `e` made from the definition
      `defi` of `id` in the segment `seg`. */
  ghost predicate EventMade(recs: Recs, rank: map<nat, nat>, recs': Recs, seg: nat, id: string, defi: Value, e: nat)
    requires C3.Ranked(Graph(recs), rank)
  {
    defi.Dict? && BaseIds(Find(defi.entries, "$")).Ok? && EventFields(id, defi.entries).Ok? && e !in recs
    && var res := Resolve(recs, rank, seg, BaseIds(Find(defi.entries, "$")).value);
       res.Ok? && recs' == recs[e := Rec(EventFields(id, defi.entries).value, res.value)]
  }

  /** One iteration of the loop of `_load_segment` (event.py:246-268), up to the
      store into the segment: the `$` entry gives the base ids, which must all be
      abstract and are looked up in the segment `seg`; the new event holds its id,
      its parsed grades and the rest of its definition. No existing record
      changes, and a record nobody refers to (`avoid`) stays so. */
  method LoadEvent(st: Store, seg: nat, id: string, defi: Value, ghost avoid: nat) returns (r: Result<nat>)
    requires st.Valid() && Unreferenced(st.recs, avoid) && NoRefs(defi)
    modifies st
    ensures st.Valid() && Unreferenced(st.recs, avoid)
    ensures forall z :: z in old(st.recs) ==> z in st.recs && st.recs[z] == old(st.recs)[z]
    ensures !defi.Dict? ==> r == Err(NotADict)
    ensures defi.Dict? && BaseIds(Find(defi.entries, "$")).Err? ==> r == Err(BaseIds(Find(defi.entries, "$")).error)
    ensures defi.Dict? && BaseIds(Find(defi.entries, "$")).Ok? ==>
      var res := Resolve(old(st.recs), old(st.rank), seg, BaseIds(Find(defi.entries, "$")).value);
      (res.Err? ==> r == Err(res.error))
      && (res.Ok? && EventFields(id, defi.entries).Err? ==> r == Err(BadGrades))
      && (res.Ok? && EventFields(id, defi.entries).Ok? ==>
            r.Ok? && r.value !in old(st.recs) && st.recs == old(st.recs)[r.value := Rec(EventFields(id, defi.entries).value, res.value)])
    ensures r.Ok? ==> EventMade(old(st.recs), old(st.rank), st.recs, seg, id, defi, r.value)
  {
    if !defi.Dict? {
      return Err(NotADict);
    }
    var ids := BaseIds(Find(defi.entries, "$"));
    if ids.Err? {
      return Err(ids.error);
    }
    var ns := ResolveBases(st, seg, ids.value);
    if ns.Err? {
      return Err(ns.error);
    }
    forall j | 0 <= j < |ns.value| ensures ns.value[j] in st.recs && ns.value[j] != avoid {
      LookupUnreferenced(st.recs, st.rank, seg, ids.value[j], avoid);
    }
    NoRefsLacks(defi.entries, Ref(avoid));
    var e := st.New([], ns.value);
    UnreferencedPut(old(st.recs), e, st.recs[e], avoid);
    ghost var recs1 := st.recs;
    var ok := FillEvent(st, e, id, defi.entries, avoid);
    PutTwice(old(st.recs), e, recs1[e], st.recs[e]);
    if !ok {
      return Err(BadGrades);
    }
    return Ok(e);
  }

  /** The local dict of a segment after its first `|es|` events were stored:
      each id maps to its event (event.py:269). */
  function SegEntries(es: Entries, evs: seq<nat>): (r: Entries)
    requires |evs| == |es|
    ensures |r| == |es| && forall p :: 0 <= p < |es| ==> r[p] == (es[p].0, Ref(evs[p]))
  {
    if es == [] then [] else [(es[0].0, Ref(evs[0]))] + SegEntries(es[1..], evs[1..])
  }

  /** The segment's dict has the definitions' ids as keys, and under each the
      event of its first definition. */
  lemma {:induction false} SegEntriesFind(es: Entries, evs: seq<nat>, k: string)
    requires |evs| == |es|
    ensures k in Keys(SegEntries(es, evs)) <==> k in Keys(es)
    ensures k in Keys(es) ==> Find(SegEntries(es, evs), k) == Some(Ref(evs[KeyIndex(es, k)]))
  {
    if es != [] {
      SegEntriesFind(es[1..], evs[1..], k);
      var d := SegEntries(es, evs);
      assert d[0] == (es[0].0, Ref(evs[0])) && d[1..] == SegEntries(es[1..], evs[1..]);
      if es[0].0 != k && k in Keys(es) {
        assert evs[KeyIndex(es, k)] == evs[1..][KeyIndex(es[1..], k)];
      }
    }
  }

  /** Storing the next event appends it to the segment's dict. */
  lemma {:induction false} SegEntriesSnoc(es: Entries, evs: seq<nat>, e: nat)
    requires DistinctKeys(es) && |evs| < |es|
    ensures SetKey(SegEntries(es[..|evs|], evs), es[|evs|].0, Ref(e)) == SegEntries(es[..|evs| + 1], evs + [e])
  {
    var d := SegEntries(es[..|evs|], evs);
    NextKeyFresh(es, |evs|);
    SegEntriesFind(es[..|evs|], evs, es[|evs|].0);
    SetKeyShape(d, es[|evs|].0, Ref(e));
    SegEntriesAppend(es, evs, |evs|, e);
  }

  lemma {:induction false} SegEntriesAppend(es: Entries, evs: seq<nat>, i: nat, e: nat)
    requires i < |es| && |evs| == i
    ensures SegEntries(es[..i + 1], evs + [e]) == SegEntries(es[..i], evs) + [(es[i].0, Ref(e))]
  {
    var r, d := SegEntries(es[..i + 1], evs + [e]), SegEntries(es[..i], evs);
    forall p | 0 <= p < i ensures r[p] == d[p] {
      assert es[..i + 1][p] == es[..i][p] && (evs + [e])[p] == evs[p];
    }
  }

  /** A dict's next key is not among the keys before it. */
  lemma {:induction false} NextKeyFresh(es: Entries, i: nat)
    requires DistinctKeys(es) && i < |es|
    ensures es[i].0 !in Keys(es[..i])
  {
    KeysAt(es[..i], es[i].0);
    if es[i].0 in Keys(es[..i]) {
      var j :| 0 <= j < i && es[..i][j].0 == es[i].0;
      DistinctAt(es, j, i);
    }
  }

  /** `events[k]` in a segment over `blt` that holds the events `evs` of the
      definitions `es`: an event of the segment first, else whatever `blt` finds;
      nothing when `blt` has no resolution order. */
  ghost function SegLookup(recs0: Recs, rank0: map<nat, nat>, blt: nat, es: Entries, evs: seq<nat>, k: string): Result<Value>
    requires C3.Ranked(Graph(recs0), rank0) && |evs| == |es|
  {
    if Mro(recs0, rank0, blt).Err? then Err(NoLegalMro)
    else if k in Keys(es) then Ok(Ref(evs[KeyIndex(es, k)]))
    else Lookup(recs0, rank0, blt, k)
  }

  /** A store that keeps the records of `recs0` and holds the segment `seg`
      looks keys up in it as `SegLookup` says. */
  lemma {:induction false} SegLookupAgrees(recs: Recs, rank: map<nat, nat>, recs0: Recs, rank0: map<nat, nat>,
                        blt: nat, seg: nat, es: Entries, evs: seq<nat>, k: string)
    requires C3.Ranked(Graph(recs), rank) && C3.Ranked(Graph(recs0), rank0)
    requires BaseClosed(recs0, recs0.Keys) && forall z :: z in recs0 ==> z in recs && recs[z] == recs0[z]
    requires blt in recs0 && seg in recs && |evs| == |es| && recs[seg] == Rec(SegEntries(es, evs), [blt])
    ensures Lookup(recs, rank, seg, k) == SegLookup(recs0, rank0, blt, es, evs, k)
  {
    LookupOverOne(recs, rank, seg, blt, k);
    NewFrame(recs0, rank0, recs, rank);
    SegEntriesFind(es, evs, k);
  }

  /** The `p`-th definition of a segment became the event `evs[p]`: a dict whose
      base spec names abstract ids, each found as `SegLookup` says with only the
      events before it in the segment, and whose own dict is `EventFields`. */
  ghost predicate EventLoaded(recs: Recs, recs0: Recs, rank0: map<nat, nat>, blt: nat, es: Entries, evs: seq<nat>, p: nat)
    requires C3.Ranked(Graph(recs0), rank0) && p < |es| && p < |evs|
  {
    var defi := es[p].1;
    defi.Dict? && BaseIds(Find(defi.entries, "$")).Ok? && EventFields(es[p].0, defi.entries).Ok? && evs[p] in recs
    && var ids := BaseIds(Find(defi.entries, "$")).value;
       var x := recs[evs[p]];
       x.fields == EventFields(es[p].0, defi.entries).value && |x.bases| == |ids|
       && forall j :: 0 <= j < |ids| ==> SegLookup(recs0, rank0, blt, es[..p], evs[..p], ids[j]) == Ok(Ref(x.bases[j]))
  }

  /** An event stays loaded while its record and the events before it stay as
      they are. */
  lemma {:induction false} EventLoadedFrame(recs: Recs, recs': Recs, recs0: Recs, rank0: map<nat, nat>, blt: nat,
                         es: Entries, evs: seq<nat>, evs': seq<nat>, p: nat)
    requires C3.Ranked(Graph(recs0), rank0) && p < |es| && p < |evs| && p < |evs'|
    requires EventLoaded(recs, recs0, rank0, blt, es, evs, p)
    requires evs'[..p] == evs[..p] && evs'[p] == evs[p]
    requires evs[p] in recs' && recs'[evs[p]] == recs[evs[p]]
    ensures EventLoaded(recs', recs0, rank0, blt, es, evs', p)
  {
  }

  /** What `LoadEvent` promises for the next definition is `EventLoaded`. */
  lemma {:induction false} NewEventLoaded(recs: Recs, rank: map<nat, nat>, recs': Recs, recs0: Recs, rank0: map<nat, nat>,
                       blt: nat, seg: nat, es: Entries, evs: seq<nat>, e: nat, bases: seq<nat>)
    requires C3.Ranked(Graph(recs), rank) && C3.Ranked(Graph(recs0), rank0)
    requires BaseClosed(recs0, recs0.Keys) && forall z :: z in recs0 ==> z in recs && recs[z] == recs0[z]
    requires blt in recs0 && seg in recs && |evs| < |es| && recs[seg] == Rec(SegEntries(es[..|evs|], evs), [blt])
    requires var defi := es[|evs|].1;
      defi.Dict? && BaseIds(Find(defi.entries, "$")).Ok? && EventFields(es[|evs|].0, defi.entries).Ok?
      && Resolve(recs, rank, seg, BaseIds(Find(defi.entries, "$")).value) == Ok(bases)
      && e in recs' && recs'[e] == Rec(EventFields(es[|evs|].0, defi.entries).value, bases)
    ensures EventLoaded(recs', recs0, rank0, blt, es, evs + [e], |evs|)
  {
    var i := |evs|;
    var ids := BaseIds(Find(es[i].1.entries, "$")).value;
    assert (evs + [e])[..i] == evs && (evs + [e])[i] == e;
    forall j | 0 <= j < |ids| ensures SegLookup(recs0, rank0, blt, es[..i], evs, ids[j]) == Ok(Ref(bases[j])) {
      SegLookupAgrees(recs, rank, recs0, rank0, blt, seg, es[..i], evs, ids[j]);
    }
  }

  /** The events `evs` are distinct records of `recs`, new since `recs0`, other
      than the segment `seg`. */
  ghost predicate FreshEvents(recs: Recs, recs0: Recs, seg: nat, evs: seq<nat>)
  {
    (forall p :: 0 <= p < |evs| ==> evs[p] in recs && evs[p] !in recs0 && evs[p] != seg)
    && forall p, q :: 0 <= p < q < |evs| ==> evs[p] != evs[q]
  }

  /** The first `|evs|` definitions `es` of a segment were loaded into the fresh
      segment `seg` over `blt`, as the fresh, distinct events `evs`. */
  ghost predicate SegmentLoaded(recs: Recs, recs0: Recs, rank0: map<nat, nat>, blt: nat, seg: nat, es: Entries, evs: seq<nat>)
    requires C3.Ranked(Graph(recs0), rank0)
  {
    seg in recs && seg !in recs0 && |evs| <= |es| && recs[seg] == Rec(SegEntries(es[..|evs|], evs), [blt])
    && FreshEvents(recs, recs0, seg, evs)
    && forall p :: 0 <= p < |evs| ==> EventLoaded(recs, recs0, rank0, blt, es, evs, p)
  }

  lemma {:induction false} FreshEventsStep(recs: Recs, recs': Recs, recs0: Recs, seg: nat, evs: seq<nat>, e: nat)
    requires FreshEvents(recs, recs0, seg, evs) && seg in recs && e !in recs && recs0.Keys <= recs.Keys
    requires recs.Keys + {e} <= recs'.Keys
    ensures FreshEvents(recs', recs0, seg, evs + [e])
  {
    assert forall p :: 0 <= p < |evs| ==> (evs + [e])[p] == evs[p];
  }

  lemma {:induction false} AllLoadedStep(recs: Recs, recs': Recs, recs0: Recs, rank0: map<nat, nat>, blt: nat,
                      es: Entries, evs: seq<nat>, e: nat)
    requires C3.Ranked(Graph(recs0), rank0) && |evs| < |es|
    requires forall p :: 0 <= p < |evs| ==> EventLoaded(recs, recs0, rank0, blt, es, evs, p)
    requires forall p :: 0 <= p < |evs| ==> evs[p] in recs && evs[p] in recs' && recs'[evs[p]] == recs[evs[p]]
    requires EventLoaded(recs', recs0, rank0, blt, es, evs + [e], |evs|)
    ensures forall p :: 0 <= p < |evs| + 1 ==> EventLoaded(recs', recs0, rank0, blt, es, evs + [e], p)
  {
    var evs' := evs + [e];
    forall p | 0 <= p < |evs| ensures EventLoaded(recs', recs0, rank0, blt, es, evs', p) {
      assert evs'[..p] == evs[..p] && evs'[p] == evs[p];
      EventLoadedFrame(recs, recs', recs0, rank0, blt, es, evs, evs', p);
    }
  }

  /** Loading one more event and storing it under its id in the segment extends
      what was loaded by it, and leaves the records of `recs0` alone. */
  lemma {:induction false} SegmentStep(recs: Recs, rank: map<nat, nat>, recsM: Recs, recs': Recs, recs0: Recs, rank0: map<nat, nat>,
                    blt: nat, seg: nat, es: Entries, evs: seq<nat>, e: nat)
    requires C3.Ranked(Graph(recs), rank) && C3.Ranked(Graph(recs0), rank0) && DistinctKeys(es)
    requires BaseClosed(recs0, recs0.Keys) && forall z :: z in recs0 ==> z in recs && recs[z] == recs0[z]
    requires blt in recs0 && SegmentLoaded(recs, recs0, rank0, blt, seg, es, evs) && |evs| < |es|
    requires EventMade(recs, rank, recsM, seg, es[|evs|].0, es[|evs|].1, e)
    requires seg in recsM && recs' == recsM[seg := Rec(SetKey(recsM[seg].fields, es[|evs|].0, Ref(e)), recsM[seg].bases)]
    ensures SegmentLoaded(recs', recs0, rank0, blt, seg, es, evs + [e])
    ensures forall z :: z in recs0 ==> z in recs' && recs'[z] == recs0[z]
  {
    var x := recsM[e];
    KeepOthers(recs, recs', seg, evs, e, x, recs'[seg]);
    NewEventLoaded(recs, rank, recs', recs0, rank0, blt, seg, es, evs, e, x.bases);
    SegmentExtend(recs, recs', recs0, rank0, blt, seg, es, evs, e);
  }

  /** The second half of `SegmentStep`: once the new event is loaded, the
      segment's loaded prefix grows by it. */
  lemma {:induction false} SegmentExtend(recs: Recs, recs': Recs, recs0: Recs, rank0: map<nat, nat>,
                      blt: nat, seg: nat, es: Entries, evs: seq<nat>, e: nat)
    requires C3.Ranked(Graph(recs0), rank0) && DistinctKeys(es) && |evs| < |es|
    requires SegmentLoaded(recs, recs0, rank0, blt, seg, es, evs) && e !in recs && recs0.Keys <= recs.Keys && recs.Keys + {e} <= recs'.Keys
    requires forall z :: z in recs && z != seg ==> z in recs' && recs'[z] == recs[z]
    requires recs'[seg] == Rec(SetKey(recs[seg].fields, es[|evs|].0, Ref(e)), [blt])
    requires EventLoaded(recs', recs0, rank0, blt, es, evs + [e], |evs|)
    ensures SegmentLoaded(recs', recs0, rank0, blt, seg, es, evs + [e])
  {
    assert recs[seg] == Rec(SegEntries(es[..|evs|], evs), [blt]);
    SegEntriesSnoc(es, evs, e);
    assert forall p :: 0 <= p < |evs| ==> evs[p] in recs && evs[p] in recs' && recs'[evs[p]] == recs[evs[p]];
    AllLoadedStep(recs, recs', recs0, rank0, blt, es, evs, e);
    FreshEventsStep(recs, recs', recs0, seg, evs, e);
  }

  /** Adding the event `e` and rewriting the segment `seg` leaves every other
      record alone. */
  lemma {:induction false} KeepOthers(recs: Recs, recs': Recs, seg: nat, evs: seq<nat>, e: nat, x: Rec, s: Rec)
    requires seg in recs && e !in recs && forall p :: 0 <= p < |evs| ==> evs[p] in recs && evs[p] != seg
    requires recs' == recs[e := x][seg := s]
    ensures e in recs' && recs'[e] == x && recs.Keys + {e} <= recs'.Keys
    ensures forall p :: 0 <= p < |evs| ==> evs[p] in recs' && recs'[evs[p]] == recs[evs[p]]
    ensures forall z :: z in recs && z != seg ==> z in recs' && recs'[z] == recs[z]
  {
  }

  /** The definitions of a parsed YAML document: none for an empty one. */
  function Definitions(data: Value): Entries
  {
    if data.Dict? then data.entries else []
  }

  /** `_load_segment` (event.py:234-271) on the parsed document `data`: a new
      segment over `blt` that stores each definition's event under its id, in
      order, so that later definitions can name earlier ones as bases. */
  method LoadSegment(st: Store, data: Value, blt: nat, ghost avoid: nat) returns (r: Result<nat>, ghost evs: seq<nat>)
    requires st.Valid() && blt in st.recs && avoid in st.recs && blt != avoid && Unreferenced(st.recs, avoid)
    requires NoRefs(data) && (data.Dict? ==> DistinctKeys(data.entries))
    modifies st
    ensures st.Valid() && Unreferenced(st.recs, avoid)
    ensures forall z :: z in old(st.recs) ==> z in st.recs && st.recs[z] == old(st.recs)[z]
    ensures !data.Dict? && !data.NoneV? ==> r == Err(NotADict)
    ensures r.Ok? ==> |evs| == |Definitions(data)| && SegmentLoaded(st.recs, old(st.recs), old(st.rank), blt, r.value, Definitions(data), evs)
  {
    ghost var recs0, rank0 := st.recs, st.rank;
    evs := [];
    var seg := st.New([], [blt]);
    UnreferencedPut(recs0, seg, st.recs[seg], avoid);
    if !data.Dict? {
      if data.NoneV? {
        assert SegEntries([], []) == [];
        return Ok(seg), evs;
      }
      return Err(NotADict), evs;
    }
    var es := data.entries;
    assert es[..0] == [] && SegEntries([], []) == [];
    r, evs := LoadEntries(st, seg, blt, es, avoid, recs0, rank0);
    assert es[..|es|] == es;
  }

  /** The loop of `_load_segment` (event.py:246-269) over the definitions `es`,
      into the fresh segment `seg`; it stops at the first definition that fails. */
  method LoadEntries(st: Store, seg: nat, blt: nat, es: Entries, ghost avoid: nat,
                     ghost recs0: Recs, ghost rank0: map<nat, nat>) returns (r: Result<nat>, ghost evs: seq<nat>)
    requires st.Valid() && Unreferenced(st.recs, avoid) && C3.Ranked(Graph(recs0), rank0)
    requires BaseClosed(recs0, recs0.Keys) && blt in recs0 && avoid in recs0 && blt != avoid
    requires forall z :: z in recs0 ==> z in st.recs && st.recs[z] == recs0[z]
    requires NoRefs(Dict(es)) && DistinctKeys(es) && SegmentLoaded(st.recs, recs0, rank0, blt, seg, es, [])
    modifies st
    ensures st.Valid() && Unreferenced(st.recs, avoid)
    ensures forall z :: z in recs0 ==> z in st.recs && st.recs[z] == recs0[z]
    ensures r.Ok? ==> r.value == seg && |evs| == |es| && SegmentLoaded(st.recs, recs0, rank0, blt, seg, es, evs)
  {
    evs := [];
    for i := 0 to |es|
      invariant st.Valid() && Unreferenced(st.recs, avoid)
      invariant forall z :: z in recs0 ==> z in st.recs && st.recs[z] == recs0[z]
      invariant |evs| == i && SegmentLoaded(st.recs, recs0, rank0, blt, seg, es, evs)
    {
      var res := LoadNext(st, seg, blt, es, i, evs, avoid, recs0, rank0);
      if res.Err? {
        return Err(res.error), evs;
      }
      evs := evs + [res.value];
    }
    return Ok(seg), evs;
  }

  /** One iteration of the loop of `_load_segment` (event.py:246-269): load the
      next definition as an event and store it under its id in the segment. */
  method LoadNext(st: Store, seg: nat, blt: nat, es: Entries, i: nat, ghost evs: seq<nat>, ghost avoid: nat,
                  ghost recs0: Recs, ghost rank0: map<nat, nat>) returns (r: Result<nat>)
    requires st.Valid() && Unreferenced(st.recs, avoid) && C3.Ranked(Graph(recs0), rank0)
    requires BaseClosed(recs0, recs0.Keys) && blt in recs0 && avoid in recs0 && blt != avoid
    requires forall z :: z in recs0 ==> z in st.recs && st.recs[z] == recs0[z]
    requires NoRefs(Dict(es)) && DistinctKeys(es)
    requires i == |evs| < |es| && SegmentLoaded(st.recs, recs0, rank0, blt, seg, es, evs)
    modifies st
    ensures st.Valid() && Unreferenced(st.recs, avoid)
    ensures forall z :: z in recs0 ==> z in st.recs && st.recs[z] == recs0[z]
    ensures r.Ok? ==> SegmentLoaded(st.recs, recs0, rank0, blt, seg, es, evs + [r.value])
  {
    ghost var recsB, rankB := st.recs, st.rank;
    assert es[i] in es;
    r := LoadEvent(st, seg, es[i].0, es[i].1, avoid);
    if r.Err? {
      return;
    }
    var e := r.value;
    ghost var recsM := st.recs;
    SetKeyLacks(st.recs[seg].fields, es[i].0, Ref(e), Ref(avoid));
    st.SetItem(seg, es[i].0, Ref(e));
    UnreferencedPut(recsM, seg, st.recs[seg], avoid);
    SegmentStep(recsB, rankB, recsM, st.recs, recs0, rank0, blt, seg, es, evs, e);
  }

  /** A segment finds the events it loaded by their ids, and every other key
      wherever `blt` finds it. */
  lemma {:induction false} SegmentLookup(recs: Recs, rank: map<nat, nat>, recs0: Recs, rank0: map<nat, nat>,
                      blt: nat, seg: nat, es: Entries, evs: seq<nat>, k: string)
    requires C3.Ranked(Graph(recs), rank) && C3.Ranked(Graph(recs0), rank0)
    requires BaseClosed(recs0, recs0.Keys) && forall z :: z in recs0 ==> z in recs && recs[z] == recs0[z]
    requires blt in recs0 && |evs| == |es| && SegmentLoaded(recs, recs0, rank0, blt, seg, es, evs)
    ensures Lookup(recs, rank, seg, k) == SegLookup(recs0, rank0, blt, es, evs, k)
  {
    assert es[..|es|] == es;
    SegLookupAgrees(recs, rank, recs0, rank0, blt, seg, es, evs, k);
  }

  // ---------------------------------------------------------------- files

  /** A loaded segment stays loaded while its record and its events stay as they
      are, whatever happens to the record `x`. */
  lemma {:induction false} SegmentFrame(recs: Recs, recs': Recs, recs0: Recs, rank0: map<nat, nat>,
                     blt: nat, seg: nat, es: Entries, evs: seq<nat>, x: nat)
    requires C3.Ranked(Graph(recs0), rank0) && SegmentLoaded(recs, recs0, rank0, blt, seg, es, evs)
    requires seg != x && forall p :: 0 <= p < |evs| ==> evs[p] != x
    requires forall z :: z in recs && z != x ==> z in recs' && recs'[z] == recs[z]
    ensures SegmentLoaded(recs', recs0, rank0, blt, seg, es, evs)
  {
    forall p | 0 <= p < |evs| ensures EventLoaded(recs', recs0, rank0, blt, es, evs, p) {
      EventLoadedFrame(recs, recs', recs0, rank0, blt, es, evs, evs, p);
    }
  }

  /** What a segment was loaded after (`recsA`) can be narrowed to any part of
      it (`recsB`) that holds the built-ins: the built-ins resolve the same. */
  lemma {:induction false} SegmentRebase(recs: Recs, recsA: Recs, rankA: map<nat, nat>, recsB: Recs, rankB: map<nat, nat>,
                      blt: nat, seg: nat, es: Entries, evs: seq<nat>)
    requires C3.Ranked(Graph(recsA), rankA) && C3.Ranked(Graph(recsB), rankB)
    requires BaseClosed(recsB, recsB.Keys) && blt in recsB && forall z :: z in recsB ==> z in recsA && recsA[z] == recsB[z]
    requires SegmentLoaded(recs, recsA, rankA, blt, seg, es, evs)
    ensures SegmentLoaded(recs, recsB, rankB, blt, seg, es, evs)
  {
    NewFrame(recsB, rankB, recsA, rankA);
    assert Mro(recsA, rankA, blt) == Mro(recsB, rankB, blt);
    assert forall k :: Lookup(recsA, rankA, blt, k) == Lookup(recsB, rankB, blt, k);
    forall p | 0 <= p < |evs| ensures EventLoaded(recs, recsB, rankB, blt, es, evs, p) {
      EventRebase(recs, recsA, rankA, recsB, rankB, blt, es, evs, p);
    }
    assert FreshEvents(recs, recsB, seg, evs);
  }

  lemma {:induction false} EventRebase(recs: Recs, recsA: Recs, rankA: map<nat, nat>, recsB: Recs, rankB: map<nat, nat>,
                    blt: nat, es: Entries, evs: seq<nat>, p: nat)
    requires C3.Ranked(Graph(recsA), rankA) && C3.Ranked(Graph(recsB), rankB) && p < |es| && p < |evs|
    requires Mro(recsA, rankA, blt) == Mro(recsB, rankB, blt)
    requires forall k :: Lookup(recsA, rankA, blt, k) == Lookup(recsB, rankB, blt, k)
    requires EventLoaded(recs, recsA, rankA, blt, es, evs, p)
    ensures EventLoaded(recs, recsB, rankB, blt, es, evs, p)
  {
    SegLookupRebase(recsA, rankA, recsB, rankB, blt, es[..p], evs[..p]);
  }

  lemma {:induction false} SegLookupRebase(recsA: Recs, rankA: map<nat, nat>, recsB: Recs, rankB: map<nat, nat>,
                        blt: nat, es: Entries, evs: seq<nat>)
    requires C3.Ranked(Graph(recsA), rankA) && C3.Ranked(Graph(recsB), rankB) && |evs| == |es|
    requires Mro(recsA, rankA, blt) == Mro(recsB, rankB, blt)
    requires forall k :: Lookup(recsA, rankA, blt, k) == Lookup(recsB, rankB, blt, k)
    ensures forall k :: SegLookup(recsA, rankA, blt, es, evs, k) == SegLookup(recsB, rankB, blt, es, evs, k)
  {
  }

  /** The first `|segs|` parts of a file were loaded, over `blt`, as the distinct
      segments `segs` with the events `evss`; `res` has exactly those segments as
      its bases and an empty dict. */
  ghost predicate FileLoaded(recs: Recs, recs0: Recs, rank0: map<nat, nat>, blt: nat, res: nat,
                             parts: seq<Value>, segs: seq<nat>, evss: seq<seq<nat>>)
    requires C3.Ranked(Graph(recs0), rank0)
  {
    |segs| == |evss| <= |parts| && res in recs && recs[res] == Rec([], segs)
    && (forall j :: 0 <= j < |segs| ==>
          segs[j] != res && |evss[j]| == |Definitions(parts[j])| && (forall p :: 0 <= p < |evss[j]| ==> evss[j][p] != res)
          && SegmentLoaded(recs, recs0, rank0, blt, segs[j], Definitions(parts[j]), evss[j]))
    && forall j, j' :: 0 <= j < j' < |segs| ==> segs[j] != segs[j']
  }

  /** The event the first segment among `parts` that defines `k` made for it. */
  ghost function SegsLookup(parts: seq<Value>, evss: seq<seq<nat>>, k: string): (r: Option<Value>)
    requires |evss| == |parts| && forall j :: 0 <= j < |parts| ==> |evss[j]| == |Definitions(parts[j])|
    ensures r.None? <==> forall j :: 0 <= j < |parts| ==> k !in Keys(Definitions(parts[j]))
  {
    if parts == [] then None
    else
      assert forall j :: 1 <= j < |parts| ==> parts[1..][j - 1] == parts[j] && evss[1..][j - 1] == evss[j];
      if k in Keys(Definitions(parts[0])) then Some(Ref(evss[0][KeyIndex(Definitions(parts[0]), k)]))
      else SegsLookup(parts[1..], evss[1..], k)
  }

  /** `res[k]` for the record `_load_file` returns: the event of the first segment
      that defines `k`, else what the built-ins hold. */
  ghost function FileLookup(recs0: Recs, rank0: map<nat, nat>, blt: nat, parts: seq<Value>, evss: seq<seq<nat>>, k: string): Result<Value>
    requires C3.Ranked(Graph(recs0), rank0)
    requires |evss| == |parts| && forall j :: 0 <= j < |parts| ==> |evss[j]| == |Definitions(parts[j])|
  {
    match SegsLookup(parts, evss, k)
    case Some(v) => Ok(v)
    case None => Lookup(recs0, rank0, blt, k)
  }

  /** Walking the segments finds what `SegsLookup` says. */
  lemma {:induction false} LookupInSegs(recs: Recs, parts: seq<Value>, segs: seq<nat>, evss: seq<seq<nat>>, k: string)
    requires |segs| == |parts| && |evss| == |parts|
    requires forall j :: 0 <= j < |parts| ==>
      |evss[j]| == |Definitions(parts[j])| && segs[j] in recs && recs[segs[j]].fields == SegEntries(Definitions(parts[j]), evss[j])
    ensures LookupIn(recs, segs, k) == match SegsLookup(parts, evss, k) case Some(v) => Ok(v) case None => Err(KeyError(k))
  {
    if parts != [] {
      SegEntriesFind(Definitions(parts[0]), evss[0], k);
      assert forall j :: 1 <= j < |parts| ==> parts[1..][j - 1] == parts[j] && evss[1..][j - 1] == evss[j] && segs[1..][j - 1] == segs[j];
      LookupInSegs(recs, parts[1..], segs[1..], evss[1..], k);
    }
  }

  /** A file's record finds each key in its first segment that defines it, else
      in the built-ins. */
  lemma {:induction false} FileLookupHolds(recs: Recs, rank: map<nat, nat>, recs0: Recs, rank0: map<nat, nat>, blt: nat, res: nat,
                        parts: seq<Value>, segs: seq<nat>, evss: seq<seq<nat>>, k: string)
    requires C3.Ranked(Graph(recs), rank) && C3.Ranked(Graph(recs0), rank0)
    requires BaseClosed(recs0, recs0.Keys) && blt in recs0 && forall z :: z in recs0 ==> z in recs && recs[z] == recs0[z]
    requires FileLoaded(recs, recs0, rank0, blt, res, parts, segs, evss) && |segs| == |parts| > 0
    requires Mro(recs0, rank0, blt).Ok?
    ensures Lookup(recs, rank, res, k) == FileLookup(recs0, rank0, blt, parts, evss, k)
  {
    NewFrame(recs0, rank0, recs, rank);
    forall j | 0 <= j < |parts| ensures segs[j] in recs && recs[segs[j]].bases == [blt]
      && recs[segs[j]].fields == SegEntries(Definitions(parts[j]), evss[j]) {
      assert Definitions(parts[j])[..|evss[j]|] == Definitions(parts[j]);
    }
    LookupOverFan(recs, rank, res, blt, k);
    LookupInSegs(recs, parts, segs, evss, k);
  }

  /** Loading one more part as the segment `seg` (from `recsI` to `recsL`) and
      appending it to `res`'s bases (to `recs'`) extends what the file loaded. */
  lemma {:induction false} FileStep(recsI: Recs, rankI: map<nat, nat>, recsL: Recs, recs': Recs, recs0: Recs, rank0: map<nat, nat>,
                 blt: nat, res: nat, parts: seq<Value>, segs: seq<nat>, evss: seq<seq<nat>>, seg: nat, evs: seq<nat>)
    requires C3.Ranked(Graph(recsI), rankI) && C3.Ranked(Graph(recs0), rank0)
    requires BaseClosed(recs0, recs0.Keys) && blt in recs0 && forall z :: z in recs0 ==> z in recsI && recsI[z] == recs0[z]
    requires FileLoaded(recsI, recs0, rank0, blt, res, parts, segs, evss) && |segs| < |parts|
    requires forall z :: z in recsI ==> z in recsL && recsL[z] == recsI[z]
    requires |evs| == |Definitions(parts[|segs|])| && SegmentLoaded(recsL, recsI, rankI, blt, seg, Definitions(parts[|segs|]), evs)
    requires recs' == recsL[res := Rec(recsL[res].fields, recsL[res].bases + [seg])]
    ensures FileLoaded(recs', recs0, rank0, blt, res, parts, segs + [seg], evss + [evs])
  {
    var i := |segs|;
    NewSegmentInFile(recsI, rankI, recsL, recs', recs0, rank0, blt, res, seg, Definitions(parts[i]), evs);
    OldSegmentsInFile(recsI, recs', recs0, rank0, blt, res, parts, segs, evss);
    var segs', evss' := segs + [seg], evss + [evs];
    forall j | 0 <= j < i + 1
      ensures segs'[j] != res && |evss'[j]| == |Definitions(parts[j])| && (forall p :: 0 <= p < |evss'[j]| ==> evss'[j][p] != res)
        && SegmentLoaded(recs', recs0, rank0, blt, segs'[j], Definitions(parts[j]), evss'[j]) {
      if j < i {
        assert segs'[j] == segs[j] && evss'[j] == evss[j];
      } else {
        assert segs'[j] == seg && evss'[j] == evs;
      }
    }
    forall j, j' | 0 <= j < j' < i + 1 ensures segs'[j] != segs'[j'] {
      assert segs'[j] == segs[j];
      if j' < i {
        assert segs'[j'] == segs[j'];
      } else {
        assert segs'[j'] == seg;
      }
    }
    assert recs'[res] == Rec([], segs');
  }

  lemma {:induction false} NewSegmentInFile(recsI: Recs, rankI: map<nat, nat>, recsL: Recs, recs': Recs, recs0: Recs, rank0: map<nat, nat>,
                         blt: nat, res: nat, seg: nat, es: Entries, evs: seq<nat>)
    requires C3.Ranked(Graph(recsI), rankI) && C3.Ranked(Graph(recs0), rank0)
    requires BaseClosed(recs0, recs0.Keys) && blt in recs0 && forall z :: z in recs0 ==> z in recsI && recsI[z] == recs0[z]
    requires res in recsI && |evs| == |es| && SegmentLoaded(recsL, recsI, rankI, blt, seg, es, evs)
    requires forall z :: z in recsL && z != res ==> z in recs' && recs'[z] == recsL[z]
    ensures seg in recsL && seg !in recsI && seg != res && forall p :: 0 <= p < |evs| ==> evs[p] != res
    ensures SegmentLoaded(recs', recs0, rank0, blt, seg, es, evs)
  {
    SegmentRebase(recsL, recsI, rankI, recs0, rank0, blt, seg, es, evs);
    SegmentFrame(recsL, recs', recs0, rank0, blt, seg, es, evs, res);
  }

  lemma {:induction false} OldSegmentsInFile(recsI: Recs, recs': Recs, recs0: Recs, rank0: map<nat, nat>,
                          blt: nat, res: nat, parts: seq<Value>, segs: seq<nat>, evss: seq<seq<nat>>)
    requires C3.Ranked(Graph(recs0), rank0) && FileLoaded(recsI, recs0, rank0, blt, res, parts, segs, evss)
    requires forall z :: z in recsI && z != res ==> z in recs' && recs'[z] == recsI[z]
    ensures forall j :: 0 <= j < |segs| ==>
      segs[j] in recsI && SegmentLoaded(recs', recs0, rank0, blt, segs[j], Definitions(parts[j]), evss[j])
  {
    forall j | 0 <= j < |segs|
      ensures segs[j] in recsI && SegmentLoaded(recs', recs0, rank0, blt, segs[j], Definitions(parts[j]), evss[j]) {
      SegmentFrame(recsI, recs', recs0, rank0, blt, segs[j], Definitions(parts[j]), evss[j], res);
    }
  }

  /** `_load_file` (event.py:274-281) on a file whose text splits into the parsed
      segments `parts`: a new record whose bases are the segments, each loaded
      over `blt`, in order; the first segment that fails is the error. */
  method LoadFile(st: Store, parts: seq<Value>, blt: nat) returns (r: Result<nat>, ghost segs: seq<nat>, ghost evss: seq<seq<nat>>)
    requires st.Valid() && blt in st.recs && RefsClosed(st.recs)
    requires forall i :: 0 <= i < |parts| ==> NoRefs(parts[i]) && (parts[i].Dict? ==> DistinctKeys(parts[i].entries))
    modifies st
    ensures st.Valid()
    ensures forall z :: z in old(st.recs) ==> z in st.recs && st.recs[z] == old(st.recs)[z]
    ensures (exists i :: 0 <= i < |parts| && !parts[i].Dict? && !parts[i].NoneV?) ==> r.Err?
    ensures r.Ok? ==> r.value !in old(st.recs) && |segs| == |parts| && FileLoaded(st.recs, old(st.recs), old(st.rank), blt, r.value, parts, segs, evss)
    ensures r.Ok? && |parts| > 0 && Mro(old(st.recs), old(st.rank), blt).Ok? ==>
      forall k :: Lookup(st.recs, st.rank, r.value, k) == FileLookup(old(st.recs), old(st.rank), blt, parts, evss, k)
  {
    ghost var recs0, rank0 := st.recs, st.rank;
    var res := st.New([], []);
    FreshUnreferenced(recs0, res);
    r, segs, evss := LoadParts(st, parts, blt, res, recs0, rank0);
    if r.Ok? && |parts| > 0 && Mro(recs0, rank0, blt).Ok? {
      FileLookupAll(st.recs, st.rank, recs0, rank0, blt, res, parts, segs, evss);
    }
  }

  lemma {:induction false} FileLookupAll(recs: Recs, rank: map<nat, nat>, recs0: Recs, rank0: map<nat, nat>, blt: nat, res: nat,
                      parts: seq<Value>, segs: seq<nat>, evss: seq<seq<nat>>)
    requires C3.Ranked(Graph(recs), rank) && C3.Ranked(Graph(recs0), rank0)
    requires BaseClosed(recs0, recs0.Keys) && blt in recs0 && forall z :: z in recs0 ==> z in recs && recs[z] == recs0[z]
    requires FileLoaded(recs, recs0, rank0, blt, res, parts, segs, evss) && |segs| == |parts| > 0
    requires Mro(recs0, rank0, blt).Ok?
    ensures forall k :: Lookup(recs, rank, res, k) == FileLookup(recs0, rank0, blt, parts, evss, k)
  {
    forall k ensures Lookup(recs, rank, res, k) == FileLookup(recs0, rank0, blt, parts, evss, k) {
      FileLookupHolds(recs, rank, recs0, rank0, blt, res, parts, segs, evss, k);
    }
  }

  /** The loop of `_load_file` (event.py:279-280) over the parts, into the fresh
      record `res`; it stops at the first part that fails. */
  method LoadParts(st: Store, parts: seq<Value>, blt: nat, res: nat, ghost recs0: Recs, ghost rank0: map<nat, nat>)
    returns (r: Result<nat>, ghost segs: seq<nat>, ghost evss: seq<seq<nat>>)
    requires forall i :: 0 <= i < |parts| ==> NoRefs(parts[i]) && (parts[i].Dict? ==> DistinctKeys(parts[i].entries))
    requires st.Valid() && Unreferenced(st.recs, res) && res != blt && blt in recs0 && res !in recs0
    requires C3.Ranked(Graph(recs0), rank0) && BaseClosed(recs0, recs0.Keys)
    requires forall z :: z in recs0 ==> z in st.recs && st.recs[z] == recs0[z]
    requires res in st.recs && st.recs[res] == Rec([], [])
    modifies st
    ensures st.Valid()
    ensures forall z :: z in recs0 ==> z in st.recs && st.recs[z] == recs0[z]
    ensures (exists i :: 0 <= i < |parts| && !parts[i].Dict? && !parts[i].NoneV?) ==> r.Err?
    ensures r.Ok? ==> r.value == res && |segs| == |parts| && FileLoaded(st.recs, recs0, rank0, blt, res, parts, segs, evss)
  {
    segs, evss := [], [];
    for i := 0 to |parts|
      invariant st.Valid() && Unreferenced(st.recs, res) && |segs| == i
      invariant forall z :: z in recs0 ==> z in st.recs && st.recs[z] == recs0[z]
      invariant FileLoaded(st.recs, recs0, rank0, blt, res, parts, segs, evss)
      invariant forall j :: 0 <= j < i ==> parts[j].Dict? || parts[j].NoneV?
    {
      r, segs, evss := LoadPart(st, parts, i, blt, res, segs, evss, recs0, rank0);
      if r.Err? {
        return;
      }
    }
    r := Ok(res);
  }

  /** One iteration of the loop of `_load_file` (event.py:279-280): load the part
      `parts[i]` as a segment and append it to `res`'s bases. */
  method LoadPart(st: Store, parts: seq<Value>, i: nat, blt: nat, res: nat, ghost segs: seq<nat>, ghost evss: seq<seq<nat>>,
                  ghost recs0: Recs, ghost rank0: map<nat, nat>) returns (r: Result<nat>, ghost segs': seq<nat>, ghost evss': seq<seq<nat>>)
    requires i == |segs| < |parts| && NoRefs(parts[i]) && (parts[i].Dict? ==> DistinctKeys(parts[i].entries))
    requires st.Valid() && Unreferenced(st.recs, res) && res != blt && blt in recs0 && res !in recs0
    requires C3.Ranked(Graph(recs0), rank0) && BaseClosed(recs0, recs0.Keys)
    requires forall z :: z in recs0 ==> z in st.recs && st.recs[z] == recs0[z]
    requires FileLoaded(st.recs, recs0, rank0, blt, res, parts, segs, evss)
    modifies st
    ensures st.Valid() && Unreferenced(st.recs, res)
    ensures forall z :: z in recs0 ==> z in st.recs && st.recs[z] == recs0[z]
    ensures !parts[i].Dict? && !parts[i].NoneV? ==> r.Err?
    ensures r.Ok? ==> r.value == res && |segs'| == i + 1 && FileLoaded(st.recs, recs0, rank0, blt, res, parts, segs', evss')
  {
    ghost var recsI, rankI := st.recs, st.rank;
    segs', evss' := segs, evss;
    var l;
    ghost var evs;
    l, evs := LoadSegment(st, parts[i], blt, res);
    if l.Err? {
      return Err(l.error), segs', evss';
    }
    var seg := l.value;
    ghost var recsL := st.recs;
    assert seg !in recsI && res in recsI;
    UnreferencedAppend(st.recs, res, seg);
    st.AppendBase(res, seg);
    FileStep(recsI, rankI, recsL, st.recs, recs0, rank0, blt, res, parts, segs, evss, seg, evs);
    return Ok(res), segs + [seg], evss + [evs];
  }
}
