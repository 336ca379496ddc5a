/**
  The decoding results `test_env.py` asserts: the value ladder on single
  values, then a prefixed environment of twelve variables worked variable
  by variable. That environment covers nested paths, a quoted value, an
  upper-case `TRUE` that stays a string, a boolean, an empty value, signed
  integers and decimals, a mixed-case value, a single `_` kept inside a
  key, and an unrelated variable ignored.
 */
module EnvExamples {
  import opened Wrappers
  import opened Values
  import opened Dicts
  import opened Strings
  import opened Env

  // ---------------------------------------------------------------------
  // The value ladder on the values `test_parse_env_var_value` uses
  // ---------------------------------------------------------------------

  /** The coercion ladder on the empty and boolean values the tests use. */
  lemma ParseEnvValueTextCases()
    ensures ParseEnvValue("") == Null
    ensures ParseEnvValue("true") == Bool(true)
    ensures ParseEnvValue("false") == Bool(false)
  {
  }

  /** Single or double quotes are stripped. */
  lemma ParseEnvValueQuotedCases()
    ensures ParseEnvValue("'quoted_string'") == Str("quoted_string")
    ensures ParseEnvValue("\"another_quoted_string\"") == Str("another_quoted_string")
  {
    DoubleQuoted();
  }

  lemma DoubleQuoted()
    ensures ParseEnvValue("\"another_quoted_string\"") == Str("another_quoted_string")
  {
    var inner := "another_quoted_string";
    var q := ['"'] + inner + ['"'];
    assert q[1..|q| - 1] == inner;
    assert q == "\"another_quoted_string\"";
  }

  /** Plain text is kept as it is, case included. */
  lemma ParseEnvValuePlainCases()
    ensures ParseEnvValue("test_string") == Str("test_string")
    ensures ParseEnvValue("MixedCase") == Str("MixedCase")
  {
    assert !IsDigit("test_string"[0]);
    assert !IsDigit("MixedCase"[0]);
    assert !IsFloatLiteral("test_string") by {
      assert !IsDigit("test_string"[..1][0]);
    }
    assert !IsFloatLiteral("MixedCase") by {
      assert !IsDigit("MixedCase"[..1][0]);
    }
  }

  /** The boolean match is case-sensitive: `TRUE` stays a string. */
  lemma ParseEnvValueUpperTrue()
    ensures ParseEnvValue("TRUE") == Str("TRUE")
  {
    assert !IsDigit("TRUE"[0]);
    assert !IsFloatLiteral("TRUE") by {
      assert !IsDigit("TRUE"[..1][0]);
    }
  }

  /** Optionally negative integers. */
  lemma ParseEnvValueIntCases()
    ensures ParseEnvValue("123") == Int(123)
    ensures ParseEnvValue("-45") == Int(-45)
  {
    assert DigitsValue("123") == 123 by {
      assert "123"[..2] == "12";
      assert "12"[..1] == "1";
      assert "1"[..0] == "";
    }
    assert Unsigned("-45") == "45";
    assert DigitsValue("45") == 45 by {
      assert "45"[..1] == "4";
      assert "4"[..0] == "";
    }
  }

  /** Optionally negative decimals, kept as their literal text. */
  lemma ParseEnvValueFloatCases()
    ensures ParseEnvValue("1.23") == Float("1.23")
    ensures ParseEnvValue("-0.5") == Float("-0.5")
  {
    assert IsFloatLiteral("1.23") by {
      assert Unsigned("1.23")[1] == '.';
    }
    assert IsFloatLiteral("-0.5") by {
      assert Unsigned("-0.5") == "0.5";
      assert Unsigned("-0.5")[1] == '.';
    }
  }

  // ---------------------------------------------------------------------
  // The prefixed environment of `test_get_config_from_env`
  // ---------------------------------------------------------------------

  /** A `TEST_APP__X__Y` name decodes to a two-key path. */
  lemma TwoSegments(name: string, upper1: string, upper2: string, seg1: string, seg2: string)
    requires name == "TEST_APP__" + upper1 + "__" + upper2
    requires Lower(upper1) == seg1 && Lower(upper2) == seg2
    requires !HasSep(seg1) && !HasSep(seg2) && seg1 != [] && seg1[|seg1| - 1] != '_'
    ensures VarPath("TEST_APP", name) == Some([seg1, seg2])
  {
    assert name[..10] == "TEST_APP__";
    var rest := upper1 + "__" + upper2;
    assert name[10..] == rest;
    assert Lower(rest) == seg1 + "__" + seg2 by {
      assert Lower(rest)[..|upper1|] == Lower(upper1);
    }
    assert Join([seg1, seg2]) == seg1 + "__" + seg2;
    SplitJoin([seg1, seg2]);
  }

  /** A `TEST_APP__X` name decodes to a one-key path. */
  lemma OneSegment(name: string, upper: string, seg: string)
    requires name == "TEST_APP__" + upper
    requires Lower(upper) == seg && !HasSep(seg)
    ensures VarPath("TEST_APP", name) == Some([seg])
  {
    assert name[..10] == "TEST_APP__";
    assert name[10..] == upper;
    SplitJoin([seg]);
  }

  /** Text starting with a lower-case letter, other than the two booleans, stays text. */
  lemma PlainText(s: string)
    requires s != [] && 'a' <= s[0] <= 'z' && s != "true" && s != "false"
    ensures ParseEnvValue(s) == Str(s)
  {
    assert !IsDigit(s[0]);
  }

  /** The test's environment snapshot, in the order it is enumerated. */
  const FooBar: (string, string) := ("TEST_APP__FOO__BAR", "baz")
  const FooQuoted: (string, string) := ("TEST_APP__FOO__QUOTED", "'quoted'")
  const ABool: (string, string) := ("TEST_APP__A_BOOL", "TRUE")
  const AnotherBool: (string, string) := ("TEST_APP__ANOTHER_BOOL", "false")
  const AnEmptyValue: (string, string) := ("TEST_APP__AN_EMPTY_VALUE", "")
  const AnInt: (string, string) := ("TEST_APP__AN_INT", "123")
  const ANegInt: (string, string) := ("TEST_APP__A_NEG_INT", "-45")
  const AFloat: (string, string) := ("TEST_APP__A_FLOAT", "1.23")
  const ANegFloat: (string, string) := ("TEST_APP__A_NEG_FLOAT", "-0.5")
  const CamelCaseVar: (string, string) := ("TEST_APP__CAMELCASE_VAR", "camelCaseValue")
  const WithUnderscore: (string, string) := ("TEST_APP__WITH_UNDERSCORE__VAR", "with_underscore_value")
  const Unrelated: (string, string) := ("UNRELATED_VAR", "unrelated")

  /** The mapping the test expects. */
  const Expected: Config := map[
    "foo" := Map(map["bar" := Str("baz"), "quoted" := Str("quoted")]),
    "a_bool" := Str("TRUE"),
    "another_bool" := Bool(false),
    "an_empty_value" := Null,
    "an_int" := Int(123),
    "a_neg_int" := Int(-45),
    "a_float" := Float("1.23"),
    "a_neg_float" := Float("-0.5"),
    "camelcase_var" := Str("camelCaseValue"),
    "with_underscore" := Map(map["var" := Str("with_underscore_value")])]

  /** The decoded mapping after each matching variable. */
  const M1: Config := map["foo" := Map(map["bar" := Str("baz")])]
  const M2: Config := map["foo" := Map(map["bar" := Str("baz"), "quoted" := Str("quoted")])]
  const M3: Config := M2["a_bool" := Str("TRUE")]
  const M4: Config := M3["another_bool" := Bool(false)]
  const M5: Config := M4["an_empty_value" := Null]
  const M6: Config := M5["an_int" := Int(123)]
  const M7: Config := M6["a_neg_int" := Int(-45)]
  const M8: Config := M7["a_float" := Float("1.23")]
  const M9: Config := M8["a_neg_float" := Float("-0.5")]
  const M10: Config := M9["camelcase_var" := Str("camelCaseValue")]
  const M11: Config := M10["with_underscore" := Map(map["var" := Str("with_underscore_value")])]

  lemma ExpectedIsLastState()
    ensures M11 == Expected
  {
  }

  /** A path whose first key is not decoded yet adds just that key. */
  lemma MergeFreshKey(m: Config, p: Path, v: Value)
    requires p != [] && p[0] !in m
    ensures Merge(m, Nest(p, v)) == m[p[0] := Nest(p, v)[p[0]]]
  {
    MergeDisjoint(m, Nest(p, v));
    assert m + Nest(p, v) == m[p[0] := Nest(p, v)[p[0]]];
  }

  /** A variable whose name decodes to `p` lays its value at `p` over the decoding of those before it. */
  lemma SnocPath(env: Environ, k: int, p: Path, v: Value, m0: Config, m1: Config)
    requires 0 <= k < |env| && VarPath("TEST_APP", env[k].0) == Some(p) && ParseEnvValue(env[k].1) == v
    requires DecodeVars("TEST_APP", env[..k]) == m0 && Merge(m0, Nest(p, v)) == m1
    ensures DecodeVars("TEST_APP", env[..k + 1]) == m1
  {
    assert env[..k + 1][..k] == env[..k];
  }

  /** A variable without the prefix leaves the decoding as it was. */
  lemma SnocSkip(env: Environ, k: int, m: Config)
    requires 0 <= k < |env| && VarPath("TEST_APP", env[k].0) == None
    requires DecodeVars("TEST_APP", env[..k]) == m
    ensures DecodeVars("TEST_APP", env[..k + 1]) == m
  {
    assert env[..k + 1][..k] == env[..k];
  }

  /*
    The lemmas below take each name and value as a parameter equal to its
    literal rather than as the literal itself: that keeps the verifier from
    evaluating `VarPath` and `ParseEnvValue` on constant text symbol by symbol.
    Each step moves the decoding of the snapshot's first `k` variables to the
    first `k + 1`.
  */

  lemma FooBarPath(name: string)
    requires name == FooBar.0
    ensures VarPath("TEST_APP", name) == Some(["foo", "bar"])
  {
    TwoSegments(name, "FOO", "BAR", "foo", "bar");
  }

  lemma FooBarValue(value: string)
    requires value == FooBar.1
    ensures ParseEnvValue(value) == Str("baz")
  {
    PlainText(value);
  }

  lemma MergesFooBar()
    ensures Merge(Empty, Nest(["foo", "bar"], Str("baz"))) == M1
  {
    MergeEmptyLeft(Nest(["foo", "bar"], Str("baz")));
  }

  lemma Step0(env: Environ)
    requires |env| == 12 && env[0] == FooBar && DecodeVars("TEST_APP", env[..0]) == Empty
    ensures DecodeVars("TEST_APP", env[..1]) == M1
  {
    FooBarPath(env[0].0);
    FooBarValue(env[0].1);
    MergesFooBar();
    SnocPath(env, 0, ["foo", "bar"], Str("baz"), Empty, M1);
  }

  lemma FooQuotedPath(name: string)
    requires name == FooQuoted.0
    ensures VarPath("TEST_APP", name) == Some(["foo", "quoted"])
  {
    TwoSegments(name, "FOO", "QUOTED", "foo", "quoted");
  }

  /** The quotes are stripped. */
  lemma FooQuotedValue(value: string)
    requires value == FooQuoted.1
    ensures ParseEnvValue(value) == Str("quoted")
  {
    assert IsQuoted(value);
    assert value[1..|value| - 1] == "quoted";
  }

  lemma MergesFooQuoted()
    ensures Merge(M1, Nest(["foo", "quoted"], Str("quoted"))) == M2
  {
    var n := Nest(["foo", "quoted"], Str("quoted"));
    assert n == map["foo" := Map(map["quoted" := Str("quoted")])];
    assert Merge(map["bar" := Str("baz")], map["quoted" := Str("quoted")]) == map["bar" := Str("baz"), "quoted" := Str("quoted")];
    assert Merge(M1, n)["foo"] == MergeValue(M1["foo"], n["foo"]);
  }

  lemma Step1(env: Environ)
    requires |env| == 12 && env[1] == FooQuoted && DecodeVars("TEST_APP", env[..1]) == M1
    ensures DecodeVars("TEST_APP", env[..2]) == M2
  {
    FooQuotedPath(env[1].0);
    FooQuotedValue(env[1].1);
    MergesFooQuoted();
    SnocPath(env, 1, ["foo", "quoted"], Str("quoted"), M1, M2);
  }

  lemma ABoolKey()
    ensures Lower("A_BOOL") == "a_bool" && !HasSep("a_bool")
  {
  }

  lemma ABoolPath(name: string)
    requires name == ABool.0
    ensures VarPath("TEST_APP", name) == Some(["a_bool"])
  {
    ABoolKey();
    OneSegment(name, "A_BOOL", "a_bool");
  }

  /** `TRUE` is not a boolean: the match is case-sensitive. */
  lemma ABoolValue(value: string)
    requires value == ABool.1
    ensures ParseEnvValue(value) == Str("TRUE")
  {
    assert !IsDigit(value[0]);
  }

  lemma MergesABool()
    ensures Merge(M2, Nest(["a_bool"], Str("TRUE"))) == M3
  {
    MergeFreshKey(M2, ["a_bool"], Str("TRUE"));
  }

  lemma Step2(env: Environ)
    requires |env| == 12 && env[2] == ABool && DecodeVars("TEST_APP", env[..2]) == M2
    ensures DecodeVars("TEST_APP", env[..3]) == M3
  {
    ABoolPath(env[2].0);
    ABoolValue(env[2].1);
    MergesABool();
    SnocPath(env, 2, ["a_bool"], Str("TRUE"), M2, M3);
  }

  lemma AnotherBoolKey()
    ensures Lower("ANOTHER_BOOL") == "another_bool" && !HasSep("another_bool")
  {
  }

  lemma AnotherBoolPath(name: string)
    requires name == AnotherBool.0
    ensures VarPath("TEST_APP", name) == Some(["another_bool"])
  {
    AnotherBoolKey();
    OneSegment(name, "ANOTHER_BOOL", "another_bool");
  }

  lemma AnotherBoolValue(value: string)
    requires value == AnotherBool.1
    ensures ParseEnvValue(value) == Bool(false)
  {
    ParseEnvValueTextCases();
  }

  lemma MergesAnotherBool()
    ensures Merge(M3, Nest(["another_bool"], Bool(false))) == M4
  {
    MergeFreshKey(M3, ["another_bool"], Bool(false));
  }

  lemma Step3(env: Environ)
    requires |env| == 12 && env[3] == AnotherBool && DecodeVars("TEST_APP", env[..3]) == M3
    ensures DecodeVars("TEST_APP", env[..4]) == M4
  {
    AnotherBoolPath(env[3].0);
    AnotherBoolValue(env[3].1);
    MergesAnotherBool();
    SnocPath(env, 3, ["another_bool"], Bool(false), M3, M4);
  }

  lemma AnEmptyValueKey()
    ensures Lower("AN_EMPTY_VALUE") == "an_empty_value" && !HasSep("an_empty_value")
  {
  }

  lemma AnEmptyValuePath(name: string)
    requires name == AnEmptyValue.0
    ensures VarPath("TEST_APP", name) == Some(["an_empty_value"])
  {
    AnEmptyValueKey();
    OneSegment(name, "AN_EMPTY_VALUE", "an_empty_value");
  }

  /** An empty value decodes to null. */
  lemma AnEmptyValueValue(value: string)
    requires value == AnEmptyValue.1
    ensures ParseEnvValue(value) == Null
  {
    ParseEnvValueTextCases();
  }

  lemma MergesAnEmptyValue()
    ensures Merge(M4, Nest(["an_empty_value"], Null)) == M5
  {
    MergeFreshKey(M4, ["an_empty_value"], Null);
  }

  lemma Step4(env: Environ)
    requires |env| == 12 && env[4] == AnEmptyValue && DecodeVars("TEST_APP", env[..4]) == M4
    ensures DecodeVars("TEST_APP", env[..5]) == M5
  {
    AnEmptyValuePath(env[4].0);
    AnEmptyValueValue(env[4].1);
    MergesAnEmptyValue();
    SnocPath(env, 4, ["an_empty_value"], Null, M4, M5);
  }

  lemma AnIntKey()
    ensures Lower("AN_INT") == "an_int" && !HasSep("an_int")
  {
  }

  lemma AnIntPath(name: string)
    requires name == AnInt.0
    ensures VarPath("TEST_APP", name) == Some(["an_int"])
  {
    AnIntKey();
    OneSegment(name, "AN_INT", "an_int");
  }

  lemma AnIntValue(value: string)
    requires value == AnInt.1
    ensures ParseEnvValue(value) == Int(123)
  {
    ParseEnvValueIntCases();
  }

  lemma MergesAnInt()
    ensures Merge(M5, Nest(["an_int"], Int(123))) == M6
  {
    MergeFreshKey(M5, ["an_int"], Int(123));
  }

  lemma Step5(env: Environ)
    requires |env| == 12 && env[5] == AnInt && DecodeVars("TEST_APP", env[..5]) == M5
    ensures DecodeVars("TEST_APP", env[..6]) == M6
  {
    AnIntPath(env[5].0);
    AnIntValue(env[5].1);
    MergesAnInt();
    SnocPath(env, 5, ["an_int"], Int(123), M5, M6);
  }

  lemma ANegIntKey()
    ensures Lower("A_NEG_INT") == "a_neg_int" && !HasSep("a_neg_int")
  {
  }

  lemma ANegIntPath(name: string)
    requires name == ANegInt.0
    ensures VarPath("TEST_APP", name) == Some(["a_neg_int"])
  {
    ANegIntKey();
    OneSegment(name, "A_NEG_INT", "a_neg_int");
  }

  lemma ANegIntValue(value: string)
    requires value == ANegInt.1
    ensures ParseEnvValue(value) == Int(-45)
  {
    ParseEnvValueIntCases();
  }

  lemma MergesANegInt()
    ensures Merge(M6, Nest(["a_neg_int"], Int(-45))) == M7
  {
    MergeFreshKey(M6, ["a_neg_int"], Int(-45));
  }

  lemma Step6(env: Environ)
    requires |env| == 12 && env[6] == ANegInt && DecodeVars("TEST_APP", env[..6]) == M6
    ensures DecodeVars("TEST_APP", env[..7]) == M7
  {
    ANegIntPath(env[6].0);
    ANegIntValue(env[6].1);
    MergesANegInt();
    SnocPath(env, 6, ["a_neg_int"], Int(-45), M6, M7);
  }

  lemma AFloatKey()
    ensures Lower("A_FLOAT") == "a_float" && !HasSep("a_float")
  {
  }

  lemma AFloatPath(name: string)
    requires name == AFloat.0
    ensures VarPath("TEST_APP", name) == Some(["a_float"])
  {
    AFloatKey();
    OneSegment(name, "A_FLOAT", "a_float");
  }

  lemma AFloatValue(value: string)
    requires value == AFloat.1
    ensures ParseEnvValue(value) == Float("1.23")
  {
    ParseEnvValueFloatCases();
  }

  lemma MergesAFloat()
    ensures Merge(M7, Nest(["a_float"], Float("1.23"))) == M8
  {
    MergeFreshKey(M7, ["a_float"], Float("1.23"));
  }

  lemma Step7(env: Environ)
    requires |env| == 12 && env[7] == AFloat && DecodeVars("TEST_APP", env[..7]) == M7
    ensures DecodeVars("TEST_APP", env[..8]) == M8
  {
    AFloatPath(env[7].0);
    AFloatValue(env[7].1);
    MergesAFloat();
    SnocPath(env, 7, ["a_float"], Float("1.23"), M7, M8);
  }

  lemma ANegFloatKey()
    ensures Lower("A_NEG_FLOAT") == "a_neg_float" && !HasSep("a_neg_float")
  {
  }

  lemma ANegFloatPath(name: string)
    requires name == ANegFloat.0
    ensures VarPath("TEST_APP", name) == Some(["a_neg_float"])
  {
    ANegFloatKey();
    OneSegment(name, "A_NEG_FLOAT", "a_neg_float");
  }

  lemma ANegFloatValue(value: string)
    requires value == ANegFloat.1
    ensures ParseEnvValue(value) == Float("-0.5")
  {
    ParseEnvValueFloatCases();
  }

  lemma MergesANegFloat()
    ensures Merge(M8, Nest(["a_neg_float"], Float("-0.5"))) == M9
  {
    MergeFreshKey(M8, ["a_neg_float"], Float("-0.5"));
  }

  lemma Step8(env: Environ)
    requires |env| == 12 && env[8] == ANegFloat && DecodeVars("TEST_APP", env[..8]) == M8
    ensures DecodeVars("TEST_APP", env[..9]) == M9
  {
    ANegFloatPath(env[8].0);
    ANegFloatValue(env[8].1);
    MergesANegFloat();
    SnocPath(env, 8, ["a_neg_float"], Float("-0.5"), M8, M9);
  }

  lemma CamelCaseVarKey()
    ensures Lower("CAMELCASE_VAR") == "camelcase_var" && !HasSep("camelcase_var")
  {
  }

  lemma CamelCaseVarPath(name: string)
    requires name == CamelCaseVar.0
    ensures VarPath("TEST_APP", name) == Some(["camelcase_var"])
  {
    CamelCaseVarKey();
    OneSegment(name, "CAMELCASE_VAR", "camelcase_var");
  }

  /** The name is lower-cased but the value keeps its case. */
  lemma CamelCaseVarValue(value: string)
    requires value == CamelCaseVar.1
    ensures ParseEnvValue(value) == Str("camelCaseValue")
  {
    PlainText(value);
  }

  lemma MergesCamelCaseVar()
    ensures Merge(M9, Nest(["camelcase_var"], Str("camelCaseValue"))) == M10
  {
    MergeFreshKey(M9, ["camelcase_var"], Str("camelCaseValue"));
  }

  lemma Step9(env: Environ)
    requires |env| == 12 && env[9] == CamelCaseVar && DecodeVars("TEST_APP", env[..9]) == M9
    ensures DecodeVars("TEST_APP", env[..10]) == M10
  {
    CamelCaseVarPath(env[9].0);
    CamelCaseVarValue(env[9].1);
    MergesCamelCaseVar();
    SnocPath(env, 9, ["camelcase_var"], Str("camelCaseValue"), M9, M10);
  }

  lemma WithUnderscoreKey()
    ensures Lower("WITH_UNDERSCORE") == "with_underscore" && !HasSep("with_underscore")
    ensures Lower("VAR") == "var" && !HasSep("var")
  {
  }

  /** A single `_` stays inside a key. */
  lemma WithUnderscorePath(name: string)
    requires name == WithUnderscore.0
    ensures VarPath("TEST_APP", name) == Some(["with_underscore", "var"])
  {
    WithUnderscoreKey();
    assert name == "TEST_APP__" + "WITH_UNDERSCORE" + "__" + "VAR";
    TwoSegments(name, "WITH_UNDERSCORE", "VAR", "with_underscore", "var");
  }

  lemma WithUnderscoreValue(value: string)
    requires value == WithUnderscore.1
    ensures ParseEnvValue(value) == Str("with_underscore_value")
  {
    PlainText(value);
  }

  lemma MergesWithUnderscore()
    ensures Merge(M10, Nest(["with_underscore", "var"], Str("with_underscore_value"))) == M11
  {
    var n := Nest(["with_underscore", "var"], Str("with_underscore_value"));
    assert n["with_underscore"] == Map(map["var" := Str("with_underscore_value")]);
    MergeFreshKey(M10, ["with_underscore", "var"], Str("with_underscore_value"));
  }

  lemma Step10(env: Environ)
    requires |env| == 12 && env[10] == WithUnderscore && DecodeVars("TEST_APP", env[..10]) == M10
    ensures DecodeVars("TEST_APP", env[..11]) == M11
  {
    WithUnderscorePath(env[10].0);
    WithUnderscoreValue(env[10].1);
    MergesWithUnderscore();
    SnocPath(env, 10, ["with_underscore", "var"], Str("with_underscore_value"), M10, M11);
  }

  /** `UNRELATED_VAR` does not carry the prefix. */
  lemma UnrelatedPath(name: string)
    requires name == Unrelated.0
    ensures VarPath("TEST_APP", name) == None
  {
    assert name[0] != 'T';
  }

  lemma Step11(env: Environ)
    requires |env| == 12 && env[11] == Unrelated && DecodeVars("TEST_APP", env[..11]) == M11
    ensures DecodeVars("TEST_APP", env[..12]) == M11
  {
    UnrelatedPath(env[11].0);
    SnocSkip(env, 11, M11);
  }

  lemma DecodeFirstFour(env: Environ)
    requires |env| == 12
    requires env[0] == FooBar && env[1] == FooQuoted && env[2] == ABool && env[3] == AnotherBool
    ensures DecodeVars("TEST_APP", env[..4]) == M4
  {
    assert env[..0] == [];
    Step0(env);
    Step1(env);
    Step2(env);
    Step3(env);
  }

  lemma DecodeSecondFour(env: Environ)
    requires |env| == 12 && DecodeVars("TEST_APP", env[..4]) == M4
    requires env[4] == AnEmptyValue && env[5] == AnInt && env[6] == ANegInt && env[7] == AFloat
    ensures DecodeVars("TEST_APP", env[..8]) == M8
  {
    Step4(env);
    Step5(env);
    Step6(env);
    Step7(env);
  }

  lemma DecodeLastFour(env: Environ)
    requires |env| == 12 && DecodeVars("TEST_APP", env[..8]) == M8
    requires env[8] == ANegFloat && env[9] == CamelCaseVar && env[10] == WithUnderscore && env[11] == Unrelated
    ensures DecodeVars("TEST_APP", env) == M11
  {
    Step8(env);
    Step9(env);
    Step10(env);
    Step11(env);
    assert env[..12] == env;
  }

  /** The whole snapshot decodes to the nested mapping the test expects. */
  lemma DecodeTestEnv(env: Environ)
    requires |env| == 12
    requires env[0] == FooBar && env[1] == FooQuoted && env[2] == ABool && env[3] == AnotherBool
    requires env[4] == AnEmptyValue && env[5] == AnInt && env[6] == ANegInt && env[7] == AFloat
    requires env[8] == ANegFloat && env[9] == CamelCaseVar && env[10] == WithUnderscore && env[11] == Unrelated
    ensures GetConfigFromEnv(Some("TEST_APP"), env) == Expected
  {
    DecodeFirstFour(env);
    DecodeSecondFour(env);
    DecodeLastFour(env);
    ExpectedIsLastState();
  }
}
