/**
 * The language catalogue built once per run from the translator library's table of
 * language names and codes: `lang_map` (display name to code, names capitalised) and
 * `language_names` (the display names in sorted order). The library's table itself is an
 * input: a sequence of (name, code) pairs in the dictionary's iteration order.
 */
module Catalogue {

  /** The pseudo-language offered first in the source selector; it has no code. */
  const AutoDetect := "Auto Detect"

  type Table = seq<(string, string)>

  predicate IsAsciiUpper(c: char) { 'A' <= c <= 'Z' }

  predicate IsAsciiLower(c: char) { 'a' <= c <= 'z' }

  function ToUpper(c: char): (u: char)
    ensures IsAsciiLower(c) ==> IsAsciiUpper(u)
    ensures !IsAsciiLower(c) ==> u == c
  {
    if IsAsciiLower(c) then (c as int - 32) as char else c
  }

  function ToLower(c: char): (l: char)
    ensures !IsAsciiUpper(l)
    ensures !IsAsciiUpper(c) ==> l == c
  {
    if IsAsciiUpper(c) then (c as int + 32) as char else c
  }

  /** `str.capitalize()` on ASCII letters: first character upper-cased, the rest lower-cased. */
  function Capitalize(name: string): (r: string)
    ensures |r| == |name|
    ensures r != [] ==> r[0] == ToUpper(name[0])
    ensures forall i :: 0 < i < |r| ==> !IsAsciiUpper(r[i]) && r[i] == ToLower(name[i])
  {
    if name == [] then [] else [ToUpper(name[0])] + seq(|name| - 1, i requires 0 <= i < |name| - 1 => ToLower(name[i + 1]))
  }

  /** No capitalised name is "Auto Detect": its upper-case 'D' stands after the first character. */
  lemma CapitalizedIsNeverAutoDetect(name: string)
    ensures Capitalize(name) != AutoDetect
  {
    if |name| == |AutoDetect| {
      assert Capitalize(name)[5] != AutoDetect[5];
    }
  }

  /** The capitalised names of the table, in table order (duplicates kept). */
  function Names(table: Table): (r: seq<string>)
    ensures |r| == |table|
    ensures forall i :: 0 <= i < |table| ==> r[i] == Capitalize(table[i].0)
  {
    if table == [] then [] else Names(table[..|table| - 1]) + [Capitalize(table[|table| - 1].0)]
  }

  /** `lang_map`: the dictionary comprehension over the table. Its keys are exactly the
      capitalised names, and each value is a code the table gives for that name. */
  function LangMap(table: Table): (m: map<string, string>)
    ensures forall k :: k in m <==> k in Names(table)
    ensures forall k :: k in m ==> exists i :: 0 <= i < |table| && Capitalize(table[i].0) == k && table[i].1 == m[k]
  {
    if table == [] then map[]
    else
      var init := table[..|table| - 1];
      var last := table[|table| - 1];
      var m := LangMap(init)[Capitalize(last.0) := last.1];
      assert forall i :: 0 <= i < |init| ==> init[i] == table[i];
      assert Names(table) == Names(init) + [Capitalize(last.0)];
      m
  }

  /** When two table names capitalise alike, the later entry's code wins, as in a
      dictionary comprehension. */
  lemma {:induction false} LangMapLastWins(table: Table, i: nat)
    requires i < |table|
    requires forall j :: i < j < |table| ==> Capitalize(table[j].0) != Capitalize(table[i].0)
    ensures Capitalize(table[i].0) in LangMap(table)
    ensures LangMap(table)[Capitalize(table[i].0)] == table[i].1
  {
    var init := table[..|table| - 1];
    if i < |table| - 1 {
      assert init[i] == table[i];
      forall j | i < j < |init| ensures Capitalize(init[j].0) != Capitalize(init[i].0) {
        assert init[j] == table[j];
      }
      LangMapLastWins(init, i);
    }
  }

  /** "Auto Detect" is never a key of `lang_map`, whatever the table holds. */
  lemma AutoDetectIsNotALanguage(table: Table)
    ensures AutoDetect !in LangMap(table)
  {
    if AutoDetect in LangMap(table) {
      var i :| 0 <= i < |table| && Names(table)[i] == AutoDetect;
      CapitalizedIsNeverAutoDetect(table[i].0);
    }
  }

  /** When the table has no "auto" code, `lang_map` maps no name to "auto". */
  lemma CodesComeFromTable(table: Table, code: string)
    requires forall i :: 0 <= i < |table| ==> table[i].1 != code
    ensures code !in LangMap(table).Values
  {
  }

  predicate Distinct(xs: seq<string>) {
    forall i, j :: 0 <= i < j < |xs| ==> xs[i] != xs[j]
  }

  /** The keys of `lang_map` in dictionary order as a sequence, each once. The body lists each
      capitalised name where it first occurs; the contract states only that every key is listed
      once, which is all that sorting needs. */
  function KeyOrder(table: Table): (r: seq<string>)
    ensures Distinct(r)
    ensures forall k :: k in r <==> k in LangMap(table)
  {
    if table == [] then []
    else
      var init := table[..|table| - 1];
      var prev := KeyOrder(init);
      var k := Capitalize(table[|table| - 1].0);
      assert Names(table) == Names(init) + [k];
      if k in prev then prev else prev + [k]
  }

  /** Python's ordering of strings: lexicographic by code point, a proper prefix first. */
  predicate LexLess(a: string, b: string) {
    if a == [] then b != []
    else if b == [] then false
    else if a[0] != b[0] then a[0] < b[0]
    else LexLess(a[1..], b[1..])
  }

  lemma {:induction false} LexLessIrreflexive(a: string)
    ensures !LexLess(a, a)
  {
    if a != [] {
      LexLessIrreflexive(a[1..]);
    }
  }

  lemma {:induction false} LexLessTotal(a: string, b: string)
    requires a != b
    ensures LexLess(a, b) || LexLess(b, a)
  {
    if a != [] && b != [] && a[0] == b[0] {
      assert a == [a[0]] + a[1..] && b == [b[0]] + b[1..];
      LexLessTotal(a[1..], b[1..]);
    }
  }

  lemma {:induction false} LexLessTransitive(a: string, b: string, c: string)
    requires LexLess(a, b) && LexLess(b, c)
    ensures LexLess(a, c)
  {
    if a != [] && a[0] == b[0] && b[0] == c[0] {
      LexLessTransitive(a[1..], b[1..], c[1..]);
    }
  }

  predicate StrictlySorted(xs: seq<string>) {
    forall i, j :: 0 <= i < j < |xs| ==> LexLess(xs[i], xs[j])
  }

  /** Places `x` into the sorted `xs`. */
  function Insert(x: string, xs: seq<string>): (r: seq<string>)
    requires StrictlySorted(xs) && x !in xs
    ensures StrictlySorted(r)
    ensures |r| == |xs| + 1
    ensures forall y :: y in r <==> y == x || y in xs
  {
    if xs == [] then [x]
    else if LexLess(x, xs[0]) then
      assert forall j :: 0 < j < |xs| ==> LexLess(x, xs[j]) by {
        forall j | 0 < j < |xs| ensures LexLess(x, xs[j]) {
          LexLessTransitive(x, xs[0], xs[j]);
        }
      }
      [x] + xs
    else
      LexLessTotal(x, xs[0]);
      var rest := Insert(x, xs[1..]);
      assert forall y :: y in rest ==> LexLess(xs[0], y);
      [xs[0]] + rest
  }

  /** `sorted(...)` on distinct names: strictly increasing, same elements. */
  function SortNames(xs: seq<string>): (r: seq<string>)
    requires Distinct(xs)
    ensures StrictlySorted(r)
    ensures |r| == |xs|
    ensures forall y :: y in r <==> y in xs
  {
    if xs == [] then []
    else
      assert xs[0] !in xs[1..] by {
        forall j | 1 <= j < |xs| ensures xs[j] != xs[0] { }
      }
      Insert(xs[0], SortNames(xs[1..]))
  }

  /** `language_names`: the keys of `lang_map` in sorted order, each once. */
  function LanguageNames(table: Table): (r: seq<string>)
    ensures StrictlySorted(r) && Distinct(r)
    ensures forall n :: n in r <==> n in LangMap(table)
  {
    var r := SortNames(KeyOrder(table));
    assert Distinct(r) by {
      forall i, j | 0 <= i < j < |r| ensures r[i] != r[j] {
        if r[i] == r[j] {
          LexLessIrreflexive(r[i]);
        }
      }
    }
    r
  }

  /** The options of the source selector: "Auto Detect" first, then every language. */
  function SourceOptions(names: seq<string>): (r: seq<string>)
    ensures forall n :: n in r <==> n == AutoDetect || n in names
  {
    [AutoDetect] + names
  }
}
