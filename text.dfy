/** The string operations of Python that the loader relies on: `str.split(sep)`,
    `sep.join(...)`, `str.split()` on whitespace, `str()` of an integer and `int()`
    of a string of decimal digits. */
module Text {
  import opened Wrappers

  /** `sep.join(parts)`. */
  function Join(parts: seq<string>, sep: char): string
  {
    if parts == [] then ""
    else if |parts| == 1 then parts[0]
    else parts[0] + [sep] + Join(parts[1..], sep)
  }

  /** `s.split(sep)` for a one-character separator: the pieces between the
      separators, at least one. */
  function Split(s: string, sep: char): (r: seq<string>)
    ensures |r| > 0
    ensures sep !in s ==> r == [s]
  {
    if s == [] then [""]
    else
      var t := Split(s[1..], sep);
      if s[0] == sep then [""] + t
      else
        assert sep !in s ==> [s[0]] + s[1..] == s;
        [[s[0]] + t[0]] + t[1..]
  }

  /** The pieces join back to `s`. */
  lemma {:induction false} SplitFacts(s: string, sep: char)
    ensures Join(Split(s, sep), sep) == s
    ensures forall i :: 0 <= i < |Split(s, sep)| ==> sep !in Split(s, sep)[i]
  {
    SplitJoinBack(s, sep);
    SplitNoSep(s, sep);
  }

  lemma {:induction false} SplitJoinBack(s: string, sep: char)
    ensures Join(Split(s, sep), sep) == s
  {
    if s != [] {
      SplitJoinBack(s[1..], sep);
      var t := Split(s[1..], sep);
      var r := Split(s, sep);
      if s[0] == sep {
        assert r == [""] + t && r[1..] == t;
      } else {
        JoinPrepend(s[0], t, sep);
        assert [s[0]] + s[1..] == s;
      }
    }
  }

  /** Prepending a character to the first piece prepends it to the joined string. */
  lemma {:induction false} JoinPrepend(c: char, t: seq<string>, sep: char)
    requires |t| > 0
    ensures Join([[c] + t[0]] + t[1..], sep) == [c] + Join(t, sep)
  {
    var r := [[c] + t[0]] + t[1..];
    assert r[0] == [c] + t[0] && r[1..] == t[1..];
    if |t| > 1 {
      var u := Join(t[1..], sep);
      assert Join(t, sep) == t[0] + [sep] + u;
      assert Join(r, sep) == ([c] + t[0]) + [sep] + u;
      AppendAssoc([c] + t[0], [sep], u);
      AppendAssoc(t[0], [sep], u);
      AppendAssoc([c], t[0], [sep] + u);
    }
  }

  lemma {:induction false} SplitNoSep(s: string, sep: char)
    ensures forall i :: 0 <= i < |Split(s, sep)| ==> sep !in Split(s, sep)[i]
  {
    if s != [] {
      SplitNoSep(s[1..], sep);
      var t := Split(s[1..], sep);
      var r := Split(s, sep);
      if s[0] == sep {
        assert r == [""] + t && r[1..] == t;
      } else {
        assert r == [[s[0]] + t[0]] + t[1..];
        assert forall i :: 1 <= i < |r| ==> r[i] == t[i];
      }
    }
  }

  /** `s.split(sep)` undoes `sep.join(parts)` when no part contains `sep`. */
  lemma {:induction false} SplitJoin(parts: seq<string>, sep: char)
    requires |parts| > 0 && forall i :: 0 <= i < |parts| ==> sep !in parts[i]
    ensures Split(Join(parts, sep), sep) == parts
  {
    if |parts| > 1 {
      SplitJoin(parts[1..], sep);
      SplitPrefix(parts[0], sep, Join(parts[1..], sep));
      assert parts == [parts[0]] + parts[1..];
    }
  }

  /** Splitting `p + [sep] + s` where `p` has no separator. */
  lemma {:induction false} SplitPrefix(p: string, sep: char, s: string)
    requires sep !in p
    ensures Split(p + [sep] + s, sep) == [p] + Split(s, sep)
  {
    var w := p + [sep] + s;
    if p == [] {
      assert w[1..] == s;
    } else {
      assert w[0] == p[0] && w[0] != sep;
      assert w[1..] == p[1..] + [sep] + s;
      var t := Split(w[1..], sep);
      SplitPrefix(p[1..], sep, s);
      assert t == [p[1..]] + Split(s, sep);
      assert t[0] == p[1..] && t[1..] == Split(s, sep);
      assert [p[0]] + p[1..] == p;
    }
  }

  /** The characters `str.split()` treats as whitespace, those for which
      `str.isspace()` holds: the ASCII controls U+0009 to U+000D and U+001C to
      U+001F, the space, and the Unicode separators and spaces. */
  const Whitespace: set<char> :=
    {'\U{09}', '\U{0A}', '\U{0B}', '\U{0C}', '\U{0D}', '\U{1C}', '\U{1D}', '\U{1E}', '\U{1F}', ' ',
     '\U{85}', '\U{A0}', '\U{1680}', '\U{2000}', '\U{2001}', '\U{2002}', '\U{2003}', '\U{2004}',
     '\U{2005}', '\U{2006}', '\U{2007}', '\U{2008}', '\U{2009}', '\U{200A}', '\U{2028}', '\U{2029}',
     '\U{202F}', '\U{205F}', '\U{3000}'}

  predicate IsSpace(c: char)
  {
    c in Whitespace
  }

  /** The non-whitespace characters of `s`, in order. */
  function NonSpace(s: string): string
  {
    if s == [] then [] else (if IsSpace(s[0]) then [] else [s[0]]) + NonSpace(s[1..])
  }

  function Flatten(ws: seq<string>): string
  {
    if ws == [] then [] else ws[0] + Flatten(ws[1..])
  }

  /** `s.split()`: the maximal runs of non-whitespace characters. */
  function Words(s: string): (r: seq<string>)
    ensures forall i :: 0 <= i < |r| ==> r[i] != [] && forall j :: 0 <= j < |r[i]| ==> !IsSpace(r[i][j])
    ensures Flatten(r) == NonSpace(s)
    ensures s != [] && !IsSpace(s[0]) ==> r != [] && r[0][0] == s[0]
    decreases |s|
  {
    if s == [] then []
    else
      var t := Words(s[1..]);
      if IsSpace(s[0]) then t
      else if s[1..] == [] || IsSpace(s[1]) then
        assert ([[s[0]]] + t)[1..] == t;
        [[s[0]]] + t
      else
        var r := [[s[0]] + t[0]] + t[1..];
        assert r[1..] == t[1..] && t == [t[0]] + t[1..];
        assert forall j :: 1 <= j < |r[0]| ==> r[0][j] == t[0][j - 1];
        assert Flatten(t) == t[0] + Flatten(t[1..]);
        AppendAssoc([s[0]], t[0], Flatten(t[1..]));
        r
  }

  lemma {:induction false} AppendAssoc(a: string, b: string, c: string)
    ensures (a + b) + c == a + (b + c)
  {
  }

  /** A word followed by whitespace (or nothing) is split off as it is. */
  lemma {:induction false} WordsPrefix(w: string, s: string)
    requires IsWord(w)
    requires s == [] || IsSpace(s[0])
    ensures Words(w + s) == [w] + Words(s)
    decreases |w|
  {
    var ws := w + s;
    assert ws[0] == w[0] && ws[1..] == w[1..] + s;
    if |w| > 1 {
      WordsPrefix(w[1..], s);
      assert ws[1] == w[1];
      var t := Words(ws[1..]);
      assert t[0] == w[1..] && t[1..] == Words(s);
      assert [w[0]] + w[1..] == w;
    } else {
      assert ws[1..] == s && w == [w[0]];
      assert s != [] ==> ws[1] == s[0];
    }
  }

  /** A word of `str.split()`: non-empty and without whitespace. */
  predicate IsWord(w: string)
  {
    w != [] && forall j :: 0 <= j < |w| ==> !IsSpace(w[j])
  }

  /** `' '.join(ws).split() == ws` for non-empty words without whitespace. */
  lemma {:induction false} WordsJoin(ws: seq<string>)
    requires forall i :: 0 <= i < |ws| ==> IsWord(ws[i])
    ensures Words(Join(ws, ' ')) == ws
  {
    if |ws| == 1 {
      WordsPrefix(ws[0], []);
      assert ws[0] + [] == ws[0];
    } else if |ws| > 1 {
      WordsJoin(ws[1..]);
      WordsJoinStep(ws);
    }
  }

  lemma {:induction false} WordsJoinStep(ws: seq<string>)
    requires |ws| > 1 && IsWord(ws[0]) && Words(Join(ws[1..], ' ')) == ws[1..]
    ensures Words(Join(ws, ' ')) == ws
  {
    var rest := Join(ws[1..], ' ');
    var t := [' '] + rest;
    assert Join(ws, ' ') == ws[0] + t by {
      AppendAssoc(ws[0], [' '], rest);
    }
    assert Words(ws[0] + t) == [ws[0]] + ws[1..] by {
      WordsPrefix(ws[0], t);
      WordsSkip(rest);
    }
    assert [ws[0]] + ws[1..] == ws;
  }

  /** A leading space is skipped. */
  lemma {:induction false} WordsSkip(s: string)
    ensures Words([' '] + s) == Words(s)
  {
    var t := [' '] + s;
    assert t[0] == ' ' && t[1..] == s;
  }

  predicate IsDigit(c: char)
  {
    '0' <= c <= '9'
  }

  function DigitChar(d: nat): (c: char)
    requires d < 10
    ensures IsDigit(c) && c as int - '0' as int == d
  {
    ('0' as int + d) as char
  }

  /** `str(n)` for a natural number: its decimal digits, without leading zeros. */
  function NatStr(n: nat): (r: string)
    ensures |r| > 0 && forall i :: 0 <= i < |r| ==> IsDigit(r[i])
    ensures n > 0 ==> r[0] != '0'
    decreases n
  {
    if n < 10 then [DigitChar(n)] else NatStr(n / 10) + [DigitChar(n % 10)]
  }

  /** `str(i)` for an integer. */
  function IntStr(i: int): (r: string)
    ensures i >= 0 ==> r == NatStr(i)
    ensures i < 0 ==> r == "-" + NatStr(-i)
  {
    if i >= 0 then NatStr(i) else "-" + NatStr(-i)
  }

  function DigitOf(c: char): nat
    requires IsDigit(c)
  {
    c as int - '0' as int
  }

  /** The number a string of decimal digits denotes (leading zeros allowed). */
  function DigitsValue(s: string): nat
    requires forall i :: 0 <= i < |s| ==> IsDigit(s[i])
  {
    if s == [] then 0 else 10 * DigitsValue(s[..|s| - 1]) + DigitOf(s[|s| - 1])
  }

  /** `int(s)` restricted to strings of decimal digits; anything else fails. */
  function ParseNat(s: string): (r: Option<nat>)
    ensures r.Some? <==> s != [] && forall i :: 0 <= i < |s| ==> IsDigit(s[i])
  {
    if s != [] && forall i :: 0 <= i < |s| ==> IsDigit(s[i]) then Some(DigitsValue(s)) else None
  }

  /** `int(str(n)) == n`. */
  lemma {:induction false} ParseNatStr(n: nat)
    ensures ParseNat(NatStr(n)) == Some(n)
    decreases n
  {
    DigitsNatStr(n);
  }

  lemma {:induction false} DigitsNatStr(n: nat)
    ensures DigitsValue(NatStr(n)) == n
    decreases n
  {
    var s := NatStr(n);
    if n < 10 {
      assert s[..0] == [];
    } else {
      DigitsNatStr(n / 10);
      assert s[..|s| - 1] == NatStr(n / 10);
      assert DigitOf(s[|s| - 1]) == n % 10;
    }
  }
}
