/**
 * The test-case generator: a table of named snippets of the language, a
 * classifier that derives the expected outcome from a snippet's name, and
 * three emitters reading the table in insertion order -- a fixture-file
 * writer, a printer for the Rust test module and a printer for the
 * criterion bench module.
 *
 * Printed output is a sequence of `print` arguments (each one line of
 * output, possibly holding embedded newlines); the fixture directory is a
 * `FileSystem` object whose files are a map from path to contents. The
 * slug function of the python-slugify package (called with separator "_")
 * is a parameter.
 */
module Codegen {

  // The long constants below keep their first characters as a literal of
  // their own: the verifier reads the characters of a short literal
  // directly, which the proofs about line kinds rely on.

  const FILE_GENERATION_COMMENT: string :=
    "// " + "This file is auto-generated. Please do not edit it manually."

  /** One entry of the table: the case's name and its source text. */
  datatype Case = Case(name: string, source: string)

  /** `slugify(key, separator="_")`, an external function. */
  type Slugify = string -> string

  /** The names of the shipped table, in insertion order. */
  const TABLE_NAMES: seq<string> := [
    "i64 Variable declaration",
    "i64 Variable declaration and assignment",
    "i64 Variable re-assignment",
    "i64 Variable re-assignment failure",
    "f64 Variable declaration",
    "f64 Variable declaration and assignment",
    "f64 Variable re-assignment",
    "f64 Variable re-assignment failure",
    "Array<i64> Variable declaration",
    "Array<i64> Variable declaration empty",
    "Array<i64> Variable declaration and assignment",
    "Array<i64> Variable re-assignment",
    "Array<i64> Variable re-assignment failure",
    "Struct declaration",
    "Struct declaration failure",
    "Struct declaration with fields",
    "Struct with fields instatiation",
    "Struct with fields instatiation and field assignment",
    "Struct with field access failure",
    "Struct with impl",
    "Struct with method call failure"
  ]

  // ---------------------------------------------------------------------
  // The classifier

  const FAILURE_SUFFIX: string := "failure"

  /** `key.endswith("failure")`: the case is expected to fail. */
  predicate ShouldFail(name: string)
  {
    |FAILURE_SUFFIX| <= |name| && name[|name| - |FAILURE_SUFFIX|..] == FAILURE_SUFFIX
  }

  /** A case is expected to fail exactly when its name is some text followed by "failure". */
  lemma ShouldFailIff(name: string)
    ensures ShouldFail(name) <==> exists p: string :: p + FAILURE_SUFFIX == name
  {
    if ShouldFail(name) {
      var p := name[..|name| - |FAILURE_SUFFIX|];
      assert p + FAILURE_SUFFIX == name;
    } else {
      forall p: string
        ensures p + FAILURE_SUFFIX != name
      {
        var n := p + FAILURE_SUFFIX;
        assert n[|n| - |FAILURE_SUFFIX|..] == FAILURE_SUFFIX;
      }
    }
  }

  /** The suffix is matched exactly and case-sensitively. */
  lemma SuffixIsCaseSensitive(p: string)
    ensures ShouldFail(p + "failure")
    ensures !ShouldFail(p + "Failure")
    ensures !ShouldFail(p + "failures")
    ensures !ShouldFail(p + "failure ")
  {
    var n := p + "failure";
    assert n[|n| - 7..] == "failure";
    var m := p + "Failure";
    assert m[|m| - 7] == 'F';
    var q := p + "failures";
    assert q[|q| - 1] == 's';
    var r := p + "failure ";
    assert r[|r| - 1] == ' ';
  }

  /** In the shipped table, exactly the six entries named "... failure" are expected to fail. */
  lemma TableClassification()
    ensures |TABLE_NAMES| == 21
    ensures forall i :: 0 <= i < |TABLE_NAMES| ==>
      (ShouldFail(TABLE_NAMES[i]) <==> i in {3, 7, 12, 14, 18, 20})
  {
  }

  // ---------------------------------------------------------------------
  // Helpers over printed lines

  predicate IsTestAttribute(line: string) { line == "#[test]" }

  predicate IsFnLine(line: string) { |line| >= 3 && line[0] == 'f' && line[1] == 'n' && line[2] == ' ' }

  // ---------------------------------------------------------------------
  // The test module

  const TESTS_PRELUDE: string :=
    "\n" + "        #[cfg(test)]\n        mod tests {\n        extern crate lang;\n        use self::lang::lang::Lang;\n        "

  const PRINT_ERROR_LINE: string :=
    "if " + "let Err(ref error) = result { println!(\"{}\", error); }"

  /** The six lines printed for one table entry. */
  function TestUnit(slug: string, c: Case): seq<string>
  {
    [ "#[test]",
      "fn " + slug + "() {",
      "let mut lang = Lang::new(Some(\"" + c.source + "\"));",
      "let result = lang.run();",
      PRINT_ERROR_LINE,
      "assert_eq!(result.is_ok(), " + (if ShouldFail(c.name) then "false" else "true") + ") }" ]
  }

  /** The units of `cases`, in table order. */
  function TestUnits(cases: seq<Case>, slugify: Slugify): seq<string>
  {
    if |cases| == 0 then []
    else TestUnits(cases[..|cases| - 1], slugify)
         + TestUnit(slugify(cases[|cases| - 1].name), cases[|cases| - 1])
  }

  /** Everything `print_tests` prints. */
  function TestModule(cases: seq<Case>, slugify: Slugify): seq<string>
  {
    [FILE_GENERATION_COMMENT, TESTS_PRELUDE] + TestUnits(cases, slugify) + ["}"]
  }

  /** `print_tests`: one unit per entry, printed in a loop. */
  method PrintTests(cases: seq<Case>, slugify: Slugify) returns (out: seq<string>)
    ensures out == TestModule(cases, slugify)
  {
    out := [FILE_GENERATION_COMMENT, TESTS_PRELUDE];
    var i := 0;
    while i < |cases|
      invariant 0 <= i <= |cases|
      invariant out == [FILE_GENERATION_COMMENT, TESTS_PRELUDE] + TestUnits(cases[..i], slugify)
    {
      var c := cases[i];
      var shouldFail := ShouldFail(c.name);
      out := out + ["#[test]"];
      out := out + ["fn " + slugify(c.name) + "() {"];
      out := out + ["let mut lang = Lang::new(Some(\"" + c.source + "\"));"];
      out := out + ["let result = lang.run();"];
      out := out + [PRINT_ERROR_LINE];
      out := out + ["assert_eq!(result.is_ok(), " + (if shouldFail then "false" else "true") + ") }"];
      assert cases[..i + 1][..i] == cases[..i];
      i := i + 1;
    }
    assert cases[..i] == cases;
    out := out + ["}"];
  }

  lemma {:induction false} TestUnitsLength(cases: seq<Case>, slugify: Slugify)
    ensures |TestUnits(cases, slugify)| == 6 * |cases|
  {
    if |cases| > 0 {
      TestUnitsLength(cases[..|cases| - 1], slugify);
    }
  }

  /** Lines 6i..6i+5 of the printed units are the unit of entry i. */
  lemma {:induction false} TestUnitsAt(cases: seq<Case>, slugify: Slugify, i: nat)
    requires i < |cases|
    ensures |TestUnits(cases, slugify)| == 6 * |cases|
    ensures TestUnits(cases, slugify)[6 * i..6 * i + 6] == TestUnit(slugify(cases[i].name), cases[i])
  {
    var n := |cases|;
    var init := cases[..n - 1];
    TestUnitsLength(cases, slugify);
    TestUnitsLength(init, slugify);
    if i < n - 1 {
      TestUnitsAt(init, slugify, i);
      assert init[i] == cases[i];
    }
  }

  /**
   * The test module starts with the generation comment and ends with "}";
   * entry i becomes the test fn named by its slug at lines 2+6i.., which
   * prints the error before asserting, and asserts `false` exactly for
   * expected failures.
   */
  lemma TestModuleShape(cases: seq<Case>, slugify: Slugify)
    ensures var out := TestModule(cases, slugify);
      |out| == 6 * |cases| + 3 && out[0] == FILE_GENERATION_COMMENT && out[|out| - 1] == "}"
    ensures var out := TestModule(cases, slugify);
      forall i :: 0 <= i < |cases| ==>
        out[2 + 6 * i] == "#[test]"
        && out[3 + 6 * i] == "fn " + slugify(cases[i].name) + "() {"
        && out[4 + 6 * i] == "let mut lang = Lang::new(Some(\"" + cases[i].source + "\"));"
        && out[6 + 6 * i] == PRINT_ERROR_LINE
        && (out[7 + 6 * i] == "assert_eq!(result.is_ok(), false) }" <==> ShouldFail(cases[i].name))
        && (out[7 + 6 * i] == "assert_eq!(result.is_ok(), true) }" <==> !ShouldFail(cases[i].name))
  {
    TestUnitsLength(cases, slugify);
    var out := TestModule(cases, slugify);
    var f := "assert_eq!(result.is_ok(), false) }";
    var t := "assert_eq!(result.is_ok(), true) }";
    assert f != t by { assert |f| != |t|; }
    forall i | 0 <= i < |cases|
      ensures out[2 + 6 * i] == "#[test]"
      ensures out[3 + 6 * i] == "fn " + slugify(cases[i].name) + "() {"
      ensures out[4 + 6 * i] == "let mut lang = Lang::new(Some(\"" + cases[i].source + "\"));"
      ensures out[6 + 6 * i] == PRINT_ERROR_LINE
      ensures out[7 + 6 * i] == (if ShouldFail(cases[i].name) then f else t)
    {
      TestModuleUnitAt(cases, slugify, i);
      TestUnitVerdict(slugify(cases[i].name), cases[i]);
    }
  }

  /** Lines 2+6i..2+6i+5 of the test module are the unit of entry i. */
  lemma TestModuleUnitAt(cases: seq<Case>, slugify: Slugify, i: nat)
    requires i < |cases|
    ensures |TestModule(cases, slugify)| == 6 * |cases| + 3
    ensures var out := TestModule(cases, slugify); var u := TestUnit(slugify(cases[i].name), cases[i]);
      out[2 + 6 * i] == u[0] && out[3 + 6 * i] == u[1] && out[4 + 6 * i] == u[2] &&
      out[6 + 6 * i] == u[4] && out[7 + 6 * i] == u[5]
  {
    TestUnitsAt(cases, slugify, i);
    var out := TestModule(cases, slugify);
    var units := TestUnits(cases, slugify);
    assert out[2..|out| - 1] == units;
    assert out[2 + 6 * i..8 + 6 * i] == units[6 * i..6 * i + 6];
  }

  /** The last line of a unit asserts `false` for an expected failure and `true` otherwise. */
  lemma TestUnitVerdict(slug: string, c: Case)
    ensures TestUnit(slug, c)[5] == if ShouldFail(c.name) then "assert_eq!(result.is_ok(), false) }"
      else "assert_eq!(result.is_ok(), true) }"
  {
  }

  /** Which of the six lines of a unit is the attribute and which the fn header. */
  lemma TestUnitLineKinds(slug: string, c: Case, k: nat)
    requires k < 6
    ensures IsTestAttribute(TestUnit(slug, c)[k]) <==> k == 0
    ensures IsFnLine(TestUnit(slug, c)[k]) <==> k == 1
  {
    var u := TestUnit(slug, c);
    assert u[0][0] == '#' && u[1][0] == 'f' && u[2][0] == 'l' && u[3][0] == 'l' && u[4][0] == 'i' && u[5][0] == 'a';
    assert u[1][1] == 'n' && u[1][2] == ' ';
  }

  /**
   * The test module holds one `#[test]` line and one `fn` line per table
   * entry and no others: line j is the attribute exactly when it opens a
   * unit, and a fn header exactly when it follows one.
   */
  lemma OneTestPerCase(cases: seq<Case>, slugify: Slugify)
    ensures var out := TestModule(cases, slugify);
      forall j :: 0 <= j < |out| ==>
        (IsTestAttribute(out[j]) <==> 2 <= j < |out| - 1 && (j - 2) % 6 == 0)
        && (IsFnLine(out[j]) <==> 2 <= j < |out| - 1 && (j - 2) % 6 == 1)
  {
    TestUnitsLength(cases, slugify);
    var out := TestModule(cases, slugify);
    var units := TestUnits(cases, slugify);
    assert out[2..|out| - 1] == units;
    forall j | 0 <= j < |out|
      ensures IsTestAttribute(out[j]) <==> 2 <= j < |out| - 1 && (j - 2) % 6 == 0
      ensures IsFnLine(out[j]) <==> 2 <= j < |out| - 1 && (j - 2) % 6 == 1
    {
      if j == 0 {
        assert out[j][0] == '/';
      } else if j == 1 {
        assert out[j][0] == '\n';
      } else if j == |out| - 1 {
        assert out[j] == "}";
      } else {
        TestLineKind(cases, slugify, j);
      }
    }
  }

  /** A line inside the test units is the attribute or the fn header by its place in its unit. */
  lemma TestLineKind(cases: seq<Case>, slugify: Slugify, j: nat)
    requires 2 <= j < |TestModule(cases, slugify)| - 1
    ensures IsTestAttribute(TestModule(cases, slugify)[j]) <==> (j - 2) % 6 == 0
    ensures IsFnLine(TestModule(cases, slugify)[j]) <==> (j - 2) % 6 == 1
  {
    TestUnitsLength(cases, slugify);
    var out := TestModule(cases, slugify);
    var units := TestUnits(cases, slugify);
    assert out[2..|out| - 1] == units;
    var i := (j - 2) / 6;
    var k := (j - 2) % 6;
    assert j - 2 == 6 * i + k;
    TestUnitsAt(cases, slugify, i);
    assert out[j] == units[j - 2] == units[6 * i..6 * i + 6][k];
    TestUnitLineKinds(slugify(cases[i].name), cases[i], k);
  }
  // ---------------------------------------------------------------------
  // The bench module

  const BENCH_PRELUDE: string :=
    "\n" + "        #[macro_use]\n        extern crate criterion;\n        extern crate lang;\n\n        use criterion::{black_box, Criterion};\n        use self::lang::lang::Lang;\n        "

  const CRITERION_MAIN_LINE: string := "criterion_main!(lang_benches);"

  /** The four lines printed for one table entry. */
  function BenchUnit(slug: string, c: Case): seq<string>
  {
    [ "fn " + slug + "(c: &mut Criterion) {",
      "c.bench_function(\"" + c.name + "\", |b| {",
      "b.iter(|| Lang::new(black_box(Some(\"" + c.source + "\"))))",
      "});}" ]
  }

  function BenchUnits(cases: seq<Case>, slugify: Slugify): seq<string>
  {
    if |cases| == 0 then []
    else BenchUnits(cases[..|cases| - 1], slugify)
         + BenchUnit(slugify(cases[|cases| - 1].name), cases[|cases| - 1])
  }

  /** The slugs of the entries, in table order. */
  function Slugs(cases: seq<Case>, slugify: Slugify): (r: seq<string>)
    ensures |r| == |cases|
    ensures forall i :: 0 <= i < |cases| ==> r[i] == slugify(cases[i].name)
  {
    if |cases| == 0 then [] else Slugs(cases[..|cases| - 1], slugify) + [slugify(cases[|cases| - 1].name)]
  }

  /** Python's `", ".join(parts)`. */
  function Join(parts: seq<string>): string
  {
    if |parts| == 0 then ""
    else if |parts| == 1 then parts[0]
    else parts[0] + ", " + Join(parts[1..])
  }

  /** Everything `print_lang_benches` prints. */
  function BenchModule(cases: seq<Case>, slugify: Slugify): seq<string>
  {
    [FILE_GENERATION_COMMENT, BENCH_PRELUDE] + BenchUnits(cases, slugify)
    + ["criterion_group!(lang_benches, " + Join(Slugs(cases, slugify)) + ");", CRITERION_MAIN_LINE]
  }

  /** `print_lang_benches`: prints one unit per entry while collecting the slugs. */
  method PrintLangBenches(cases: seq<Case>, slugify: Slugify) returns (out: seq<string>)
    ensures out == BenchModule(cases, slugify)
  {
    out := [FILE_GENERATION_COMMENT, BENCH_PRELUDE];
    var sluggedKeys: seq<string> := [];
    var i := 0;
    while i < |cases|
      invariant 0 <= i <= |cases|
      invariant sluggedKeys == Slugs(cases[..i], slugify)
      invariant out == [FILE_GENERATION_COMMENT, BENCH_PRELUDE] + BenchUnits(cases[..i], slugify)
    {
      var c := cases[i];
      var keySlug := slugify(c.name);
      sluggedKeys := sluggedKeys + [keySlug];
      out := out + ["fn " + keySlug + "(c: &mut Criterion) {"];
      out := out + ["c.bench_function(\"" + c.name + "\", |b| {"];
      out := out + ["b.iter(|| Lang::new(black_box(Some(\"" + c.source + "\"))))"];
      out := out + ["});}"];
      assert cases[..i + 1][..i] == cases[..i];
      i := i + 1;
    }
    assert cases[..i] == cases;
    var criterionString := Join(sluggedKeys);
    out := out + ["criterion_group!(lang_benches, " + criterionString + ");"];
    out := out + [CRITERION_MAIN_LINE];
  }

  lemma {:induction false} BenchUnitsLength(cases: seq<Case>, slugify: Slugify)
    ensures |BenchUnits(cases, slugify)| == 4 * |cases|
  {
    if |cases| > 0 {
      BenchUnitsLength(cases[..|cases| - 1], slugify);
    }
  }

  /** Lines 4i..4i+3 of the printed units are the unit of entry i. */
  lemma {:induction false} BenchUnitsAt(cases: seq<Case>, slugify: Slugify, i: nat)
    requires i < |cases|
    ensures |BenchUnits(cases, slugify)| == 4 * |cases|
    ensures BenchUnits(cases, slugify)[4 * i..4 * i + 4] == BenchUnit(slugify(cases[i].name), cases[i])
  {
    var n := |cases|;
    var init := cases[..n - 1];
    BenchUnitsLength(cases, slugify);
    BenchUnitsLength(init, slugify);
    if i < n - 1 {
      BenchUnitsAt(init, slugify, i);
      assert init[i] == cases[i];
    }
  }

  /**
   * The bench module starts with the generation comment; entry i becomes
   * the bench fn named by its slug, labelled by the raw case name and
   * passing the source verbatim; the module ends with the criterion group
   * over all slugs followed by `criterion_main!`.
   */
  lemma BenchModuleShape(cases: seq<Case>, slugify: Slugify)
    ensures var out := BenchModule(cases, slugify);
      |out| == 4 * |cases| + 4 && out[0] == FILE_GENERATION_COMMENT
      && out[|out| - 2] == "criterion_group!(lang_benches, " + Join(Slugs(cases, slugify)) + ");"
      && out[|out| - 1] == CRITERION_MAIN_LINE
    ensures var out := BenchModule(cases, slugify);
      forall i :: 0 <= i < |cases| ==>
        out[2 + 4 * i] == "fn " + slugify(cases[i].name) + "(c: &mut Criterion) {"
        && out[3 + 4 * i] == "c.bench_function(\"" + cases[i].name + "\", |b| {"
        && out[4 + 4 * i] == "b.iter(|| Lang::new(black_box(Some(\"" + cases[i].source + "\"))))"
  {
    BenchUnitsLength(cases, slugify);
    var out := BenchModule(cases, slugify);
    var units := BenchUnits(cases, slugify);
    assert out[2..|out| - 2] == units;
    forall i | 0 <= i < |cases|
      ensures out[2 + 4 * i] == "fn " + slugify(cases[i].name) + "(c: &mut Criterion) {"
      ensures out[3 + 4 * i] == "c.bench_function(\"" + cases[i].name + "\", |b| {"
      ensures out[4 + 4 * i] == "b.iter(|| Lang::new(black_box(Some(\"" + cases[i].source + "\"))))"
    {
      BenchUnitsAt(cases, slugify, i);
      var u := BenchUnit(slugify(cases[i].name), cases[i]);
      assert out[2 + 4 * i..6 + 4 * i] == units[4 * i..4 * i + 4] == u;
      assert out[2 + 4 * i] == u[0] && out[3 + 4 * i] == u[1] && out[4 + 4 * i] == u[2];
    }
  }

  /** Python's `s.split(", ")`. */
  function Split(s: string): (r: seq<string>)
    ensures |r| >= 1
    decreases |s|
  {
    if |s| == 0 then [""]
    else if |s| >= 2 && s[0] == ',' && s[1] == ' ' then [""] + Split(s[2..])
    else var rest := Split(s[1..]); [[s[0]] + rest[0]] + rest[1..]
  }

  lemma {:induction false} SplitPlain(x: string)
    requires ',' !in x
    ensures Split(x) == [x]
    decreases |x|
  {
    if |x| > 0 {
      SplitPlain(x[1..]);
      assert [x[0]] + x[1..] == x;
    }
  }

  lemma {:induction false} SplitSeparated(x: string, rest: string)
    requires ',' !in x
    ensures Split(x + ", " + rest) == [x] + Split(rest)
    decreases |x|
  {
    var s := x + ", " + rest;
    if |x| == 0 {
      assert s[2..] == rest;
    } else {
      assert s[1..] == x[1..] + ", " + rest;
      SplitSeparated(x[1..], rest);
      assert [x[0]] + x[1..] == x;
    }
  }

  /**
   * The group line lists exactly the slugs, in order: splitting the joined
   * text at ", " gives them back when no slug holds a comma (slugs made
   * with separator "_" never do).
   */
  lemma {:induction false} JoinSplitRoundTrip(parts: seq<string>)
    requires |parts| >= 1
    requires forall i :: 0 <= i < |parts| ==> ',' !in parts[i]
    ensures Split(Join(parts)) == parts
    decreases |parts|
  {
    if |parts| == 1 {
      SplitPlain(parts[0]);
    } else {
      JoinSplitRoundTrip(parts[1..]);
      SplitSeparated(parts[0], Join(parts[1..]));
    }
  }

  /** The bench module holds one `fn` line per table entry, opening each unit, and no others. */
  lemma OneBenchPerCase(cases: seq<Case>, slugify: Slugify)
    ensures var out := BenchModule(cases, slugify);
      forall j :: 0 <= j < |out| ==> (IsFnLine(out[j]) <==> 2 <= j < |out| - 2 && (j - 2) % 4 == 0)
  {
    BenchUnitsLength(cases, slugify);
    var out := BenchModule(cases, slugify);
    var units := BenchUnits(cases, slugify);
    assert out[2..|out| - 2] == units;
    forall j | 0 <= j < |out|
      ensures IsFnLine(out[j]) <==> 2 <= j < |out| - 2 && (j - 2) % 4 == 0
    {
      if j == 0 {
        assert out[j][0] == '/';
      } else if j == 1 {
        assert out[j][0] == '\n';
      } else if j >= |out| - 2 {
        assert out[j][0] == 'c';
      } else {
        BenchLineKind(cases, slugify, j);
      }
    }
  }

  /** A line inside the bench units is a fn header exactly when it starts a unit. */
  lemma BenchLineKind(cases: seq<Case>, slugify: Slugify, j: nat)
    requires 2 <= j < |BenchModule(cases, slugify)| - 2
    ensures IsFnLine(BenchModule(cases, slugify)[j]) <==> (j - 2) % 4 == 0
  {
    BenchUnitsLength(cases, slugify);
    var out := BenchModule(cases, slugify);
    var units := BenchUnits(cases, slugify);
    assert out[2..|out| - 2] == units;
    var i := (j - 2) / 4;
    var k := (j - 2) % 4;
    assert j - 2 == 4 * i + k;
    BenchUnitsAt(cases, slugify, i);
    assert out[j] == units[j - 2] == units[4 * i..4 * i + 4][k];
    BenchUnitLineKinds(slugify(cases[i].name), cases[i], k);
  }

  /** Only the first of the four lines of a bench unit is a fn header. */
  lemma BenchUnitLineKinds(slug: string, c: Case, k: nat)
    requires k < 4
    ensures IsFnLine(BenchUnit(slug, c)[k]) <==> k == 0
  {
    var u := BenchUnit(slug, c);
    assert u[0][0] == 'f' && u[0][1] == 'n' && u[0][2] == ' ';
    assert u[1][0] == 'c' && u[2][0] == 'b' && u[3][0] == '}';
  }
  // ---------------------------------------------------------------------
  // The fixture files

  /** The directory tree the fixture writer sees: directories and file contents by path. */
  class FileSystem {
    var dirs: set<string>
    var files: map<string, string>

    constructor (dirs: set<string>, files: map<string, string>)
      ensures this.dirs == dirs && this.files == files
    {
      this.dirs := dirs;
      this.files := files;
    }
  }

  /** `output_dir / (slug + ".lang")`, for a directory given without a trailing separator. */
  function FixturePath(dir: string, slug: string): string
  {
    dir + "/" + slug + ".lang"
  }

  function FixtureContents(c: Case): string
  {
    FILE_GENERATION_COMMENT + "\n" + c.source
  }

  /** The files after writing `cases` in order: a later write to the same path replaces the earlier one. */
  function WriteAll(files: map<string, string>, dir: string, cases: seq<Case>, slugify: Slugify): map<string, string>
  {
    if |cases| == 0 then files
    else WriteAll(files, dir, cases[..|cases| - 1], slugify)
         [FixturePath(dir, slugify(cases[|cases| - 1].name)) := FixtureContents(cases[|cases| - 1])]
  }

  /** The progress lines printed for the writes. */
  function WroteLog(dir: string, cases: seq<Case>, slugify: Slugify): seq<string>
  {
    if |cases| == 0 then []
    else WroteLog(dir, cases[..|cases| - 1], slugify)
         + ["Wrote file '" + FixturePath(dir, slugify(cases[|cases| - 1].name)) + "'"]
  }

  /**
   * `generate_files`: creates `dir` only when it is missing, then writes
   * one file per entry; returns what it prints.
   */
  method GenerateFiles(fs: FileSystem, dir: string, cases: seq<Case>, slugify: Slugify) returns (log: seq<string>)
    modifies fs
    ensures fs.dirs == old(fs.dirs) + {dir}
    ensures fs.files == WriteAll(old(fs.files), dir, cases, slugify)
    ensures log == (if dir in old(fs.dirs) then [] else ["Creating directory '" + dir + "'"])
                   + WroteLog(dir, cases, slugify)
  {
    log := [];
    if dir !in fs.dirs {
      log := log + ["Creating directory '" + dir + "'"];
      fs.dirs := fs.dirs + {dir};
    }
    var start := log;
    var i := 0;
    while i < |cases|
      invariant 0 <= i <= |cases|
      invariant fs.dirs == old(fs.dirs) + {dir}
      invariant fs.files == WriteAll(old(fs.files), dir, cases[..i], slugify)
      invariant log == start + WroteLog(dir, cases[..i], slugify)
    {
      var path := FixturePath(dir, slugify(cases[i].name));
      fs.files := fs.files[path := FILE_GENERATION_COMMENT + "\n" + cases[i].source];
      log := log + ["Wrote file '" + path + "'"];
      assert cases[..i + 1][..i] == cases[..i];
      i := i + 1;
    }
    assert cases[..i] == cases;
  }

  /**
   * After writing, the paths are the old ones plus one `<dir>/<slug>.lang`
   * per entry, and no other file changes.
   */
  lemma {:induction false} WriteAllPaths(files: map<string, string>, dir: string, cases: seq<Case>, slugify: Slugify)
    ensures WriteAll(files, dir, cases, slugify).Keys
      == files.Keys + set i | 0 <= i < |cases| :: FixturePath(dir, slugify(cases[i].name))
    ensures forall path :: (path in files && path !in (set i | 0 <= i < |cases| :: FixturePath(dir, slugify(cases[i].name))))
                           ==> WriteAll(files, dir, cases, slugify)[path] == files[path]
  {
    if |cases| > 0 {
      var init := cases[..|cases| - 1];
      WriteAllPaths(files, dir, init, slugify);
      var s1 := set i | 0 <= i < |init| :: FixturePath(dir, slugify(init[i].name));
      var s := set i | 0 <= i < |cases| :: FixturePath(dir, slugify(cases[i].name));
      var last := FixturePath(dir, slugify(cases[|cases| - 1].name));
      assert s == s1 + {last} by {
        forall p | p in s ensures p in s1 + {last} {
          var i :| 0 <= i < |cases| && p == FixturePath(dir, slugify(cases[i].name));
          if i < |init| { assert init[i] == cases[i]; }
        }
        forall p | p in s1 ensures p in s {
          var i :| 0 <= i < |init| && p == FixturePath(dir, slugify(init[i].name));
          assert init[i] == cases[i];
        }
      }
    }
  }

  /**
   * Each fixture holds the comment, a newline and the source verbatim of
   * the LAST entry with that slug: a later colliding entry overwrites an
   * earlier one.
   */
  lemma {:induction false} WriteAllContents(files: map<string, string>, dir: string, cases: seq<Case>, slugify: Slugify, i: nat)
    requires i < |cases|
    requires forall j :: i < j < |cases| ==> slugify(cases[j].name) != slugify(cases[i].name)
    ensures FixturePath(dir, slugify(cases[i].name)) in WriteAll(files, dir, cases, slugify)
    ensures WriteAll(files, dir, cases, slugify)[FixturePath(dir, slugify(cases[i].name))]
      == FILE_GENERATION_COMMENT + "\n" + cases[i].source
  {
    var n := |cases| - 1;
    if i < n {
      var init := cases[..n];
      assert init[i] == cases[i];
      WriteAllContents(files, dir, init, slugify, i);
      FixturePathInjective(dir, slugify(cases[n].name), slugify(cases[i].name));
    }
  }

  lemma FixturePathInjective(dir: string, a: string, b: string)
    requires a != b
    ensures FixturePath(dir, a) != FixturePath(dir, b)
  {
    var pa := FixturePath(dir, a);
    var pb := FixturePath(dir, b);
    if |a| != |b| {
      assert |pa| != |pb|;
    } else {
      var k :| 0 <= k < |a| && a[k] != b[k];
      assert pa[|dir| + 1 + k] == a[k];
      assert pb[|dir| + 1 + k] == b[k];
    }
  }

  /** With pairwise distinct slugs, the writer adds exactly one new file per entry to a fresh directory. */
  lemma DistinctSlugsOneFileEach(dir: string, cases: seq<Case>, slugify: Slugify)
    requires forall i, j :: 0 <= i < j < |cases| ==> slugify(cases[i].name) != slugify(cases[j].name)
    ensures |WriteAll(map[], dir, cases, slugify).Keys| == |cases|
  {
    WriteAllPaths(map[], dir, cases, slugify);
    var s := set i | 0 <= i < |cases| :: FixturePath(dir, slugify(cases[i].name));
    SetOfDistinctImages(dir, cases, slugify);
    var empty: map<string, string> := map[];
    assert empty.Keys + s == s;
  }

  lemma {:induction false} SetOfDistinctImages(dir: string, cases: seq<Case>, slugify: Slugify)
    requires forall i, j :: 0 <= i < j < |cases| ==> slugify(cases[i].name) != slugify(cases[j].name)
    ensures |set i | 0 <= i < |cases| :: FixturePath(dir, slugify(cases[i].name))| == |cases|
  {
    if |cases| > 0 {
      var init := cases[..|cases| - 1];
      var last := FixturePath(dir, slugify(cases[|cases| - 1].name));
      SetOfDistinctImages(dir, init, slugify);
      var s1 := set i | 0 <= i < |init| :: FixturePath(dir, slugify(init[i].name));
      var s := set i | 0 <= i < |cases| :: FixturePath(dir, slugify(cases[i].name));
      assert last !in s1 by {
        forall i | 0 <= i < |init| ensures FixturePath(dir, slugify(init[i].name)) != last {
          assert init[i] == cases[i];
          FixturePathInjective(dir, slugify(cases[i].name), slugify(cases[|cases| - 1].name));
        }
      }
      assert s == s1 + {last} by {
        forall p | p in s ensures p in s1 + {last} {
          var i :| 0 <= i < |cases| && p == FixturePath(dir, slugify(cases[i].name));
          if i < |init| { assert init[i] == cases[i]; }
        }
        forall p | p in s1 ensures p in s {
          var i :| 0 <= i < |init| && p == FixturePath(dir, slugify(init[i].name));
          assert init[i] == cases[i];
        }
      }
    }
  }
}
