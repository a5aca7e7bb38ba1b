/** The grade lists of event.py: `parse_grades` reads text such as "5,7-9" into a set
    of integers, `collapse_numbers_into_ranges` groups a set into maximal runs of
    consecutive numbers, and `dump_grades` writes those runs back as text. */
module Grades {
  import opened Wrappers
  import opened Text

  /** `set(range(a, b + 1))`; empty when `a > b`. */
  function Span(a: int, b: int): (r: set<int>)
    ensures forall x :: x in r <==> a <= x <= b
    decreases b - a
  {
    if a > b then {} else {a} + Span(a + 1, b)
  }

  lemma {:induction false} SpanSnoc(a: int, b: int)
    ensures a <= b + 1 ==> Span(a, b + 1) == Span(a, b) + {b + 1}
  {
    if a <= b + 1 {
      var c := b + 1;
      assert forall y :: y in Span(a, c) <==> y in Span(a, b) + {c};
    }
  }

  /** `parse_item`: one comma-separated item, a number or a range `a-b`. */
  function ParseItem(s: string): (r: Result<set<int>>)
    ensures r.Err? ==> r == Err(BadGrades)
    ensures '-' !in s ==> (r.Ok? <==> ParseNat(s).Some?) && (r.Ok? ==> r.value == {ParseNat(s).value})
    ensures '-' in s ==> (r.Ok? <==> |Split(s, '-')| == 2 && ParseNat(Split(s, '-')[0]).Some? && ParseNat(Split(s, '-')[1]).Some?)
  {
    if '-' !in s then
      match ParseNat(s)
      case Some(n) => Ok({n})
      case None => Err(BadGrades)
    else
      var parts := Split(s, '-');
      if |parts| != 2 then Err(BadGrades)
      else
        match (ParseNat(parts[0]), ParseNat(parts[1]))
        case (Some(a), Some(b)) => Ok(Span(a, b))
        case _ => Err(BadGrades)
  }

  /** A range item `a-b` (event.py:195-196) reads as every integer from `a` to `b`,
      both included, and as no number at all when `a > b`. */
  lemma {:induction false} ParseItemRange(s: string)
    requires '-' in s && ParseItem(s).Ok?
    ensures var lo, hi := ParseNat(Split(s, '-')[0]).value, ParseNat(Split(s, '-')[1]).value;
      forall x :: x in ParseItem(s).value <==> lo <= x <= hi
  {
  }

  /** A leading zero is read as `int()` reads it: `int("07") == 7`. */
  lemma {:induction false} ParseItemLeadingZero()
    ensures ParseItem("07-9") == Ok({7, 8, 9})
  {
    OneDigit('9');
    ZeroDigit('7');
    assert "07" == ['0', '7'] && "9" == ['9'];
    ParseRange("07", "9", 7, 9);
    assert "07" + "-" + "9" == "07-9";
    assert ParseItem("07-9") == Ok(Span(7, 9));
    assert Span(7, 9) == {7, 8, 9} by {
      assert forall x :: x in Span(7, 9) <==> x in {7, 8, 9};
    }
  }

  /** The same for the upper end: `"5-05"` is the single number 5. */
  lemma {:induction false} ParseItemLeadingZeroEnd()
    ensures ParseItem("5-05") == Ok({5})
  {
    OneDigit('5');
    ZeroDigit('5');
    assert "05" == ['0', '5'] && "5" == ['5'];
    ParseRange("5", "05", 5, 5);
    assert Span(5, 5) == {5};
  }

  /** A range whose ends are reversed is valid and holds no number. */
  lemma {:induction false} ParseItemReversed()
    ensures ParseItem("9-7") == Ok({})
  {
    OneDigit('9');
    OneDigit('7');
    ParseRange("9", "7", 9, 7);
  }

  lemma {:induction false} OneDigit(d: char)
    requires IsDigit(d)
    ensures ParseNat([d]) == Some(DigitOf(d))
  {
    assert [d][..0] == [] && [d][0] == d;
    assert DigitsValue([d]) == 10 * DigitsValue([]) + DigitOf(d);
  }

  lemma {:induction false} ZeroDigit(d: char)
    requires IsDigit(d)
    ensures ParseNat(['0', d]) == Some(DigitOf(d))
  {
    assert ['0', d][..1] == ['0'] && ['0'][..0] == [] && ['0'][0] == '0' && ['0', d][1] == d;
    assert DigitsValue(['0']) == 10 * DigitsValue([]) + DigitOf('0') == 0;
    assert DigitsValue(['0', d]) == 10 * DigitsValue(['0']) + DigitOf(d);
  }

  /** An item `p-q` whose ends read as `a` and `b` is the span from `a` to `b`. */
  lemma {:induction false} ParseRange(p: string, q: string, a: nat, b: nat)
    requires '-' !in p && '-' !in q && ParseNat(p) == Some(a) && ParseNat(q) == Some(b)
    ensures ParseItem(p + "-" + q) == Ok(Span(a, b))
  {
    assert p + "-" + q == p + ['-'] + q;
    assert (p + "-" + q)[|p|] == '-';
    SplitPrefix(p, '-', q);
  }

  /** The union of the items' sets; the first item that does not parse is the error. */
  function ParseItems(items: seq<string>): (r: Result<set<int>>)
    ensures r.Ok? <==> forall i :: 0 <= i < |items| ==> ParseItem(items[i]).Ok?
    ensures r.Err? ==> r == Err(BadGrades)
    ensures r.Ok? ==> forall x :: x in r.value <==> exists i :: 0 <= i < |items| && x in ParseItem(items[i]).value
  {
    if items == [] then Ok({})
    else
      match ParseItem(items[0])
      case Err(e) => Err(e)
      case Ok(a) =>
        match ParseItems(items[1..])
        case Err(e) =>
          assert !ParseItem(items[1..][0]).Ok? || exists i :: 0 <= i < |items[1..]| && !ParseItem(items[1..][i]).Ok?;
          Err(e)
        case Ok(b) =>
          assert forall x :: x in b ==> exists i :: 0 <= i < |items| && x in ParseItem(items[i]).value by {
            forall x | x in b ensures exists i :: 0 <= i < |items| && x in ParseItem(items[i]).value {
              var i :| 0 <= i < |items[1..]| && x in ParseItem(items[1..][i]).value;
              assert items[1..][i] == items[i + 1];
            }
          }
          assert forall i :: 1 <= i < |items| ==> items[i] == items[1..][i - 1];
          Ok(a + b)
  }

  /** `parse_grades` on text (the `str(s)` conversion is the caller's). */
  function ParseGrades(s: string): (r: Result<set<int>>)
    ensures r.Err? ==> r == Err(BadGrades)
    ensures s == [] ==> r.Err?
  {
    ParseItems(Split(s, ','))
  }

  /** The elements of a sequence. */
  function Elems(xs: seq<int>): set<int>
  {
    set i | 0 <= i < |xs| :: xs[i]
  }

  predicate Increasing(xs: seq<int>)
  {
    forall i, j :: 0 <= i < j < |xs| ==> xs[i] < xs[j]
  }

  /** The least element of a non-empty set. */
  function Min(s: set<int>): (m: int)
    requires s != {}
    ensures m in s && forall y :: y in s ==> m <= y
  {
    MinExists(s);
    var m :| m in s && forall y :: y in s ==> m <= y; m
  }

  lemma {:induction false} MinExists(s: set<int>)
    requires s != {}
    ensures exists m :: m in s && forall y :: y in s ==> m <= y
    decreases |s|
  {
    if forall y: int :: y !in s {
      assert false;
    }
    var x: int :| x in s;
    if s == {x} {
      assert forall y :: y in s ==> x <= y;
    } else {
      MinExists(s - {x});
      var m :| m in s - {x} && forall y :: y in s - {x} ==> m <= y;
      MinStep(s, x, m);
    }
  }

  /** The smaller of `x` and the least element of the rest is the least element. */
  lemma {:induction false} MinStep(s: set<int>, x: int, m: int)
    requires x in s && m in s - {x} && forall y :: y in s - {x} ==> m <= y
    ensures exists w :: w in s && forall y :: y in s ==> w <= y
  {
    var w := if x < m then x else m;
    forall y | y in s ensures w <= y {
      if y != x {
        assert y in s - {x};
      }
    }
    assert w in s;
  }

  /** `sorted(nums)`: the elements of a set in increasing order. */
  function SortedSeq(s: set<int>): (r: seq<int>)
    ensures Increasing(r) && Elems(r) == s
    decreases |s|
  {
    if s == {} then []
    else
      var m := Min(s);
      var t := SortedSeq(s - {m});
      ConsSorted(m, t);
      [m] + t
  }

  lemma {:induction false} ConsSorted(m: int, t: seq<int>)
    requires Increasing(t) && forall y :: y in Elems(t) ==> m < y
    ensures Increasing([m] + t) && Elems([m] + t) == {m} + Elems(t)
  {
    var r := [m] + t;
    assert r[0] == m;
    assert forall i :: 1 <= i < |r| ==> r[i] == t[i - 1];
    assert forall i :: 0 <= i < |t| ==> t[i] in Elems(t);
    forall x | x in Elems(r) ensures x in {m} + Elems(t) {
      var i :| 0 <= i < |r| && r[i] == x;
      if i > 0 { assert t[i - 1] == x; }
    }
    forall x | x in Elems(t) ensures x in Elems(r) {
      var i :| 0 <= i < |t| && t[i] == x;
      assert r[i + 1] == x;
    }
  }

  /** The maximal runs of consecutive numbers of `xs`, as (first, last) pairs: each
      number either extends the last run or starts a new one. */
  function Runs(xs: seq<int>): (r: seq<(int, int)>)
    ensures |r| <= |xs|
    ensures forall k :: 0 <= k < |r| ==> r[k].0 <= r[k].1
    ensures r != [] ==> r[0].0 == xs[0]
  {
    if xs == [] then []
    else
      var p := Runs(xs[..|xs| - 1]);
      var x := xs[|xs| - 1];
      if p != [] && x == p[|p| - 1].1 + 1 then p[..|p| - 1] + [(p[|p| - 1].0, x)]
      else p + [(x, x)]
  }

  /** How the source yields a run: `[a, b]`, or `[a]` when it has one number. */
  function RunList(run: (int, int)): seq<int>
  {
    if run.0 != run.1 then [run.0, run.1] else [run.0]
  }

  function RunLists(runs: seq<(int, int)>): (r: seq<seq<int>>)
    ensures |r| == |runs| && forall k :: 0 <= k < |r| ==> r[k] == RunList(runs[k])
  {
    seq(|runs|, k requires 0 <= k < |runs| => RunList(runs[k]))
  }

  /** The numbers a list of runs stands for. */
  function Cover(runs: seq<(int, int)>): set<int>
  {
    if runs == [] then {} else Span(runs[0].0, runs[0].1) + Cover(runs[1..])
  }

  lemma {:induction false} CoverSnoc(runs: seq<(int, int)>, r: (int, int))
    ensures Cover(runs + [r]) == Cover(runs) + Span(r.0, r.1)
  {
    if runs == [] {
      assert (runs + [r])[1..] == [];
    } else {
      assert (runs + [r])[1..] == runs[1..] + [r];
      CoverSnoc(runs[1..], r);
    }
  }

  /** Each run `a <= b`, and a gap of at least one missing number between runs. */
  predicate Separated(runs: seq<(int, int)>)
  {
    && (forall k :: 0 <= k < |runs| ==> runs[k].0 <= runs[k].1)
    && (forall k :: 0 <= k < |runs| - 1 ==> runs[k].1 + 1 < runs[k + 1].0)
  }

  lemma {:induction false} SeparatedExtend(q: seq<(int, int)>, run: (int, int))
    requires Separated(q + [run])
    ensures Separated(q + [(run.0, run.1 + 1)])
  {
    var p, p' := q + [run], q + [(run.0, run.1 + 1)];
    assert forall k :: 0 <= k < |q| ==> p'[k] == p[k];
    assert p[|q|] == run && p'[|q|] == (run.0, run.1 + 1);
    forall k | 0 <= k < |p'| - 1 ensures p'[k].1 + 1 < p'[k + 1].0 {
      assert p[k].1 + 1 < p[k + 1].0;
    }
  }

  lemma {:induction false} SeparatedAppend(p: seq<(int, int)>, x: int)
    requires Separated(p) && (p != [] ==> p[|p| - 1].1 + 1 < x)
    ensures Separated(p + [(x, x)])
  {
    var p' := p + [(x, x)];
    assert forall k :: 0 <= k < |p| ==> p'[k] == p[k];
  }

  /** There is a run exactly when there is a number, and the last run ends at the
      last number. */
  lemma {:induction false} RunsLast(xs: seq<int>)
    ensures Runs(xs) == [] <==> xs == []
    ensures Runs(xs) != [] ==> Runs(xs)[|Runs(xs)| - 1].1 == xs[|xs| - 1]
  {
  }

  /** The runs of an increasing sequence: each `a <= b`, separated by gaps of at
      least one missing number. */
  lemma {:induction false} RunsShape(xs: seq<int>)
    requires Increasing(xs)
    ensures Separated(Runs(xs))
  {
    if xs != [] {
      var init := xs[..|xs| - 1];
      var x := xs[|xs| - 1];
      assert Increasing(init);
      RunsShape(init);
      var p := Runs(init);
      if p != [] {
        assert p[|p| - 1].1 < x by {
          RunsLast(init);
          assert init[|init| - 1] == xs[|xs| - 2];
        }
      }
      if p != [] && x == p[|p| - 1].1 + 1 {
        var q := p[..|p| - 1];
        assert p == q + [p[|p| - 1]];
        SeparatedExtend(q, p[|p| - 1]);
      } else {
        SeparatedAppend(p, x);
      }
    }
  }

  lemma {:induction false} ElemsSnoc(xs: seq<int>, x: int)
    ensures Elems(xs + [x]) == Elems(xs) + {x}
  {
    var ys := xs + [x];
    assert ys[|xs|] == x;
    forall y | y in Elems(ys) ensures y in Elems(xs) + {x} {
      var i :| 0 <= i < |ys| && ys[i] == y;
      if i < |xs| { assert xs[i] == y; }
    }
    forall y | y in Elems(xs) ensures y in Elems(ys) {
      var i :| 0 <= i < |xs| && xs[i] == y;
      assert ys[i] == y;
    }
  }

  /** The runs of a sequence stand for exactly its numbers. */
  lemma {:induction false} RunsCover(xs: seq<int>)
    requires Increasing(xs)
    ensures Cover(Runs(xs)) == Elems(xs)
  {
    if xs != [] {
      var init := xs[..|xs| - 1];
      var x := xs[|xs| - 1];
      assert xs == init + [x];
      ElemsSnoc(init, x);
      assert Increasing(init);
      RunsCover(init);
      RunsSnocCover(init, x);
    }
  }

  /** One more number extends the last run or starts a new one. */
  lemma {:induction false} RunsSnocCover(init: seq<int>, x: int)
    requires Increasing(init)
    ensures Cover(Runs(init + [x])) == Cover(Runs(init)) + {x}
  {
    var xs := init + [x];
    assert xs[..|xs| - 1] == init && xs[|xs| - 1] == x;
    var p := Runs(init);
    if p != [] && x == p[|p| - 1].1 + 1 {
      var a := p[|p| - 1].0;
      var q := p[..|p| - 1];
      assert a <= x - 1;
      assert p == q + [(a, x - 1)];
      CoverExtend(q, a, x - 1);
    } else {
      CoverNew(p, x);
    }
  }

  lemma {:induction false} CoverExtend(q: seq<(int, int)>, a: int, b: int)
    requires a <= b
    ensures Cover(q + [(a, b + 1)]) == Cover(q + [(a, b)]) + {b + 1}
  {
    CoverSnoc(q, (a, b));
    CoverSnoc(q, (a, b + 1));
    SpanSnoc(a, b);
  }

  lemma {:induction false} CoverNew(p: seq<(int, int)>, x: int)
    ensures Cover(p + [(x, x)]) == Cover(p) + {x}
  {
    CoverSnoc(p, (x, x));
    SpanSnoc(x, x - 1);
    assert Span(x, x - 1) == {};
  }

  /** `'-'.join(map(str, rng))` for one run. */
  function RunText(run: (int, int)): string
  {
    var l := RunList(run);
    if |l| == 1 then IntStr(l[0]) else IntStr(l[0]) + "-" + IntStr(l[1])
  }

  function RunTexts(runs: seq<(int, int)>): (r: seq<string>)
    ensures |r| == |runs| && forall k :: 0 <= k < |r| ==> r[k] == RunText(runs[k])
  {
    seq(|runs|, k requires 0 <= k < |runs| => RunText(runs[k]))
  }

  /** The text `dump_grades` produces for a set. */
  function GradesText(s: set<int>): (r: string)
    ensures r == [] <==> s == {}
  {
    var ts := RunTexts(Runs(SortedSeq(s)));
    RunsLast(SortedSeq(s));
    assert ts != [] ==> |Join(ts, ',')| >= |ts[0]| > 0;
    Join(ts, ',')
  }

  /** A run of natural numbers written out parses back to its numbers. */
  lemma {:induction false} ParseRunText(run: (int, int))
    requires 0 <= run.0 <= run.1
    ensures ',' !in RunText(run)
    ensures ParseItem(RunText(run)) == Ok(Span(run.0, run.1))
  {
    var (a, b) := run;
    ParseNatStr(a);
    ParseNatStr(b);
    var sa, sb := NatStr(a), NatStr(b);
    assert '-' !in sa && ',' !in sa && '-' !in sb && ',' !in sb;
    if a == b {
      SpanSnoc(a, a - 1);
      assert Span(a, a - 1) == {};
      assert Span(a, b) == {a};
      assert RunText(run) == sa;
      assert ParseNat(sa) == Some(a);
    } else {
      var text := sa + ['-'] + sb;
      assert RunText(run) == text;
      assert text[|sa|] == '-';
      SplitPrefix(sa, '-', sb);
      assert Split(text, '-') == [sa, sb];
    }
  }

  lemma {:induction false} ParseRunTexts(runs: seq<(int, int)>)
    requires forall k :: 0 <= k < |runs| ==> 0 <= runs[k].0 <= runs[k].1
    ensures forall k :: 0 <= k < |runs| ==> ',' !in RunTexts(runs)[k]
    ensures ParseItems(RunTexts(runs)) == Ok(Cover(runs))
  {
    var ts := RunTexts(runs);
    forall k | 0 <= k < |runs| ensures ',' !in ts[k] && ParseItem(ts[k]) == Ok(Span(runs[k].0, runs[k].1)) {
      ParseRunText(runs[k]);
    }
    if runs != [] {
      ParseRunTexts(runs[1..]);
      assert RunTexts(runs[1..]) == ts[1..];
    }
  }

  /** `parse_grades(dump_grades(s)) == s` for every non-empty set of natural numbers. */
  lemma {:induction false} GradesRoundTrip(s: set<int>)
    requires s != {} && forall x :: x in s ==> x >= 0
    ensures ParseGrades(GradesText(s)) == Ok(s)
  {
    var xs := SortedSeq(s);
    RunsShape(xs);
    RunsCover(xs);
    RunsLast(xs);
    var runs := Runs(xs);
    forall k | 0 <= k < |runs| ensures 0 <= runs[k].0 {
      assert runs[k].0 in Span(runs[k].0, runs[k].1);
      CoverIn(runs, k);
    }
    ParseRunTexts(runs);
    SplitJoin(RunTexts(runs), ',');
  }

  lemma {:induction false} CoverIn(runs: seq<(int, int)>, k: nat)
    requires k < |runs|
    ensures Span(runs[k].0, runs[k].1) <= Cover(runs)
  {
    if k > 0 {
      CoverIn(runs[1..], k - 1);
    }
  }

  /** One more number: it extends the last run or starts a new one. */
  lemma {:induction false} RunsStep(xs: seq<int>, i: nat, closed: seq<(int, int)>, run: (int, int))
    requires i < |xs| && closed + [run] == Runs(xs[..i])
    ensures xs[i] == run.1 + 1 ==> Runs(xs[..i + 1]) == closed + [(run.0, xs[i])]
    ensures xs[i] != run.1 + 1 ==> Runs(xs[..i + 1]) == (closed + [run]) + [(xs[i], xs[i])]
  {
    var ys := xs[..i + 1];
    assert ys[..|ys| - 1] == xs[..i] && ys[|ys| - 1] == xs[i];
    var p := closed + [run];
    assert p[..|p| - 1] == closed && p[|p| - 1] == run;
    assert Runs(ys) == if xs[i] == run.1 + 1 then closed + [(run.0, xs[i])] else p + [(xs[i], xs[i])];
  }

  lemma {:induction false} RunsFirst(xs: seq<int>)
    requires xs != []
    ensures Runs(xs[..1]) == [(xs[0], xs[0])]
  {
    assert xs[..1][..0] == [];
  }

  lemma {:induction false} RunListsSnoc(runs: seq<(int, int)>, run: (int, int))
    ensures RunLists(runs + [run]) == RunLists(runs) + [RunList(run)]
  {
  }

  /** `collapse_numbers_into_ranges`: one pass over the sorted numbers followed by
      a sentinel (`None` here, Python's `...`), which equals no successor and so
      closes the open run. */
  method Collapse(nums: set<int>) returns (r: seq<seq<int>>)
    ensures r == RunLists(Runs(SortedSeq(nums)))
  {
    r := CollapseSorted(SortedSeq(nums));
  }

  /** The loop of `collapse_numbers_into_ranges` over `sorted(nums)`, given as `xs`;
      step `|xs|` reads the sentinel. */
  method CollapseSorted(xs: seq<int>) returns (r: seq<seq<int>>)
    ensures r == RunLists(Runs(xs))
  {
    r := [];
    var rng: seq<Option<int>> := [];
    ghost var closed: seq<(int, int)> := [];
    for i := 0 to |xs| + 1
      invariant (i == 0) == (rng == []) && (i == 0 ==> closed == [])
      invariant 0 < i <= |xs| ==> |rng| == 2 && rng[0].Some? && rng[1].Some?
      invariant 0 < i <= |xs| ==> closed + [(rng[0].value, rng[1].value)] == Runs(xs[..i])
      invariant i == |xs| + 1 ==> closed == Runs(xs)
      invariant r == RunLists(closed)
    {
      var x := if i < |xs| then Some(xs[i]) else None;
      if rng == [] {
        rng := [x, x];
        if i < |xs| {
          RunsFirst(xs);
        } else {
          assert xs[..i] == xs == [];
        }
        continue;
      }
      var run := (rng[0].value, rng[1].value);
      if i < |xs| {
        RunsStep(xs, i, closed, run);
      } else {
        assert xs[..i] == xs;
      }
      if x.Some? && x.value == rng[1].value + 1 {
        rng := [rng[0], x];
      } else {
        RunListsSnoc(closed, run);
        r := r + [RunList(run)];
        closed := closed + [run];
        rng := [x, x];
      }
    }
  }

  /** `map(str, l)`. */
  function IntStrs(l: seq<int>): (r: seq<string>)
    ensures |r| == |l| && forall j :: 0 <= j < |l| ==> r[j] == IntStr(l[j])
  {
    seq(|l|, j requires 0 <= j < |l| => IntStr(l[j]))
  }

  /** `'-'.join(map(str, l))`. */
  function Dashed(l: seq<int>): string
  {
    Join(IntStrs(l), '-')
  }

  lemma {:induction false} DashedRun(run: (int, int))
    ensures Dashed(RunList(run)) == RunText(run)
  {
    var l := RunList(run);
    var strs := IntStrs(l);
    if |l| == 2 {
      assert strs[1..] == [IntStr(l[1])];
      assert Join(strs[1..], '-') == IntStr(l[1]);
      assert Join(strs, '-') == IntStr(l[0]) + ['-'] + IntStr(l[1]);
    } else {
      assert strs == [IntStr(l[0])];
    }
  }

  /** `dump_grades`: the runs joined with ',' and each run's numbers with '-'. */
  method DumpGrades(s: set<int>) returns (text: string)
    ensures text == GradesText(s)
    ensures s != {} && (forall x :: x in s ==> x >= 0) ==> ParseGrades(text) == Ok(s)
  {
    var rs := Collapse(s);
    var parts := seq(|rs|, k requires 0 <= k < |rs| => Dashed(rs[k]));
    text := Join(parts, ',');
    ghost var runs := Runs(SortedSeq(s));
    forall k | 0 <= k < |rs| ensures parts[k] == RunTexts(runs)[k] {
      DashedRun(runs[k]);
    }
    assert parts == RunTexts(runs);
    if s != {} && (forall x :: x in s ==> x >= 0) {
      GradesRoundTrip(s);
    }
  }
}
