/**
  Whole builds with the renderer fixed to return a given document whatever
  its source and context: the nested-override case of `test_main.py`, and
  the layering order of `build_from_files` instantiated on a single key.
 */
module BuilderExamples {
  import opened Wrappers
  import opened Values
  import opened Dicts
  import opened Strings
  import opened Env
  import opened Builder

  /** A renderer that always returns `doc`. */
  ghost predicate RendersAlways(host: Host, doc: Config) {
    forall s, c :: host.render(s, c) == Document(doc)
  }

  /** A single-file build with a constant renderer: the defaults merged with its document, then finalised. */
  lemma {:induction false} OneFileBuild(tpl: ConfigTpl, host: Host, path: string, doc: Config,
                                        overrides: Option<Config>, ctx: Option<Config>)
    requires RendersAlways(host, doc)
    ensures BuildFromFiles(tpl, host, [path], overrides, ctx) ==
      Success(FinalizeCfg(tpl, host, Merge(tpl.defaults, doc), overrides))
  {
    var ds := InitDicts([Some(tpl.defaults), ctx, overrides]);
    assert [path][1..] == [];
    assert FoldFiles(host, ds[0], ds[1], [path]) == Success(Merge(tpl.defaults, doc));
  }

  const Compiled: Config := map["params" := Map(map["user_name" := Str("John"), "greeting" := Str("Hello, John!")])]
  const NestedOverrides: Config :=
    map["params" := Map(map["some_param" := Str("some_param_val1"), "greeting" := Str("Overridden greeting")])]
  const OverriddenResult: Config := map["params" := Map(map[
    "user_name" := Str("John"), "greeting" := Str("Overridden greeting"), "some_param" := Str("some_param_val1")])]

  lemma OverrideMerge()
    ensures Merge(Compiled, NestedOverrides) == OverriddenResult
  {
    var a := Compiled["params"].m;
    var b := NestedOverrides["params"].m;
    MergePointwise(a, b, OverriddenResult["params"].m);
    MergePointwise(Compiled, NestedOverrides, OverriddenResult);
  }

  /** Nested overrides replace only the leaves they name: sibling keys of the rendered file survive. */
  lemma NestedOverrideKeepsSiblings(host: Host)
    requires RendersAlways(host, Compiled)
    ensures BuildFromFiles(NewConfigTpl(None, None), host, ["/test/sample.cfg"], Some(NestedOverrides), None)
         == Success(OverriddenResult)
  {
    var tpl := NewConfigTpl(None, None);
    OneFileBuild(tpl, host, "/test/sample.cfg", Compiled, Some(NestedOverrides), None);
    MergeEmptyLeft(Compiled);
    MergeEmptyRight(Compiled);
    OverrideMerge();
  }

  const Defaults: Config := map["k" := Str("d")]
  const FileDoc: Config := map["k" := Str("f")]

  /** The environment snapshot `APP__K=e` decodes to `{"k": "e"}` under prefix `APP`. */
  lemma EnvK(env: Environ)
    requires |env| == 1 && env[0] == ("APP__K", "e")
    ensures GetConfigFromEnv(Some("APP"), env) == map["k" := Str("e")]
  {
    var name := "APP__K";
    assert name[..5] == "APP__" && name[5..] == "K";
    assert Lower("K") == "k";
    SplitJoin(["k"]);
    assert VarPath("APP", name) == Some(["k"]);
    assert !IsDigit("e"[0]);
    assert ParseEnvValue("e") == Str("e");
    assert env[..|env| - 1] == [];
    assert Nest(["k"], Str("e")) == map["k" := Str("e")];
    MergeEmptyLeft(map["k" := Str("e")]);
    assert DecodeVars("APP", env) == Merge(Empty, Nest(["k"], Str("e")));
  }

  /** The environment layer of a builder with prefix `APP` over the snapshot `APP__K=e`. */
  lemma EnvLayerK(tpl: ConfigTpl, host: Host)
    requires tpl.envVarPrefix == Some("APP")
    requires |host.environ| == 1 && host.environ[0] == ("APP__K", "e")
    ensures EnvLayer(tpl, host) == map["k" := Str("e")]
  {
    EnvK(host.environ);
  }

  /** Layering four single-key mappings leaves the last one. */
  lemma SameKeyLayers(d: string, f: string, e: string, o: string)
    ensures Merge(Merge(map["k" := Str(d)], map["k" := Str(f)]), map["k" := Str(e)]) == map["k" := Str(e)]
    ensures Merge(map["k" := Str(e)], map["k" := Str(o)]) == map["k" := Str(o)]
  {
    var md, mf, me := map["k" := Str(d)], map["k" := Str(f)], map["k" := Str(e)];
    assert Merge(md, mf).Keys == {"k"};
    assert Merge(md, mf)["k"] == MergeValue(Str(d), Str(f));
    assert Merge(md, mf) == mf;
    assert Merge(mf, me)["k"] == MergeValue(Str(f), Str(e));
    var mo := map["k" := Str(o)];
    assert Merge(me, mo).Keys == {"k"};
    assert Merge(me, mo)["k"] == MergeValue(Str(e), Str(o));
  }

  /** The precedence chain end to end: defaults `d`, a file rendering `f`, an
      environment variable `e` and an override `o` for the same key give `o`. */
  lemma OverrideBeatsAll(tpl: ConfigTpl, host: Host)
    requires tpl == NewConfigTpl(Some(Defaults), Some("APP"))
    requires RendersAlways(host, FileDoc)
    requires |host.environ| == 1 && host.environ[0] == ("APP__K", "e")
    ensures BuildFromFiles(tpl, host, ["cfg"], Some(map["k" := Str("o")]), None) == Success(map["k" := Str("o")])
  {
    EnvLayerK(tpl, host);
    OneFileBuild(tpl, host, "cfg", FileDoc, Some(map["k" := Str("o")]), None);
    SameKeyLayers("d", "f", "e", "o");
  }

  /** Without the override, the environment variable wins. */
  lemma EnvBeatsFile(tpl: ConfigTpl, host: Host)
    requires tpl == NewConfigTpl(Some(Defaults), Some("APP"))
    requires RendersAlways(host, FileDoc)
    requires |host.environ| == 1 && host.environ[0] == ("APP__K", "e")
    ensures BuildFromFiles(tpl, host, ["cfg"], None, None) == Success(map["k" := Str("e")])
  {
    EnvLayerK(tpl, host);
    OneFileBuild(tpl, host, "cfg", FileDoc, None, None);
    SameKeyLayers("d", "f", "e", "e");
    MergeEmptyRight(map["k" := Str("e")]);
  }

  /** Without the environment prefix, the file beats the defaults. */
  lemma FileBeatsDefaults(host: Host)
    requires RendersAlways(host, FileDoc)
    ensures BuildFromFiles(NewConfigTpl(Some(Defaults), None), host, ["cfg"], None, None)
         == Success(FileDoc)
  {
    OneFileNoEnv(NewConfigTpl(Some(Defaults), None), host, "cfg", FileDoc);
    MergePointwise(Defaults, FileDoc, FileDoc);
  }

  /** A single-file build with a constant renderer, no environment prefix and no overrides. */
  lemma OneFileNoEnv(tpl: ConfigTpl, host: Host, path: string, doc: Config)
    requires RendersAlways(host, doc) && tpl.envVarPrefix.None?
    ensures BuildFromFiles(tpl, host, [path], None, None) == Success(Merge(tpl.defaults, doc))
  {
    OneFileBuild(tpl, host, path, doc, None, None);
    FinalizeWithNothing(tpl, host, Merge(tpl.defaults, doc));
  }

  /** With no environment prefix and no overrides, finalising changes nothing. */
  lemma FinalizeWithNothing(tpl: ConfigTpl, host: Host, cfg: Config)
    requires tpl.envVarPrefix.None?
    ensures FinalizeCfg(tpl, host, cfg, None) == cfg
  {
    MergeEmptyRight(cfg);
  }
}
