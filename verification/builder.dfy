/**
  The resolution orchestrator (`ConfigTpl` in `main.py`).

  Everything outside the pipeline is a parameter: the template engine plus
  YAML parser is the `render` function of a `Host`, which also supplies path
  resolution, the current directory and the environment snapshot. The
  pipeline itself is then a pure fold with a fixed precedence chain:
  defaults, then the files in the caller's order, then the environment,
  then the overrides.
 */
module Builder {
  import opened Wrappers
  import opened Values
  import opened Dicts
  import opened Env

  /** What a template is read from: a file, or a string plus the directory
      its includes are resolved against. */
  datatype Source = File(path: string) | Text(template: string, workDir: string)

  /** What rendering a template and parsing its output as YAML gives: a failure
      (of either engine), a null document, or a mapping. */
  datatype Rendered = RenderFailure(message: string) | NullDocument | Document(mapping: Config)

  /** The world outside the pipeline. */
  datatype Host = Host(
    render: (Source, Config) -> Rendered,
    realpath: string -> string,
    cwd: string,
    environ: Environ)

  /** A configured builder: its defaults and its environment-variable prefix. */
  datatype ConfigTpl = ConfigTpl(defaults: Config, envVarPrefix: Option<string>)

  /** `ConfigTpl.__init__`: absent defaults become `{}`. */
  function NewConfigTpl(defaults: Option<Config>, envVarPrefix: Option<string>): (t: ConfigTpl)
    ensures defaults.None? ==> t.defaults == Empty
    ensures defaults.Some? ==> t.defaults == defaults.value
    ensures t.envVarPrefix == envVarPrefix
  {
    ConfigTpl(OrEmpty(defaults), envVarPrefix)
  }

  /** `_render_tpl`: a null document is read as `{}`; a failure propagates unchanged. */
  function RenderTpl(r: Rendered): (c: Result<Config>)
    ensures c.Failure? <==> r.RenderFailure?
    ensures c.Failure? ==> c.error == r.message
    ensures r.NullDocument? ==> c == Success(Empty)
    ensures r.Document? ==> c == Success(r.mapping)
  {
    match r
    case RenderFailure(msg) => Failure(msg)
    case NullDocument => Success(Empty)
    case Document(m) => Success(m)
  }

  /**
    The context a file is rendered with, `{**cfg, **ctx}`: a shallow union of
    the top-level keys in which `ctx`'s value replaces `cfg`'s wholesale.
   */
  function RenderContext(cfg: Config, ctx: Config): (r: Config)
    ensures r.Keys == cfg.Keys + ctx.Keys
    ensures forall k :: k in ctx ==> r[k] == ctx[k]
    ensures forall k :: k in cfg && k !in ctx ==> r[k] == cfg[k]
  {
    cfg + ctx
  }

  /** `_render_cfg_from_file` on the resolved path, in the chained context. */
  function RenderFile(host: Host, cfg: Config, ctx: Config, path: string): Result<Config> {
    RenderTpl(host.render(File(host.realpath(path)), RenderContext(cfg, ctx)))
  }

  /** The loop of `build_from_files`: each file is rendered in the context of
      everything merged so far, and its output merged over it. */
  function FoldFiles(host: Host, cfg: Config, ctx: Config, paths: seq<string>): Result<Config>
    decreases |paths|
  {
    if paths == [] then Success(cfg)
    else
      match RenderFile(host, cfg, ctx, paths[0])
      case Failure(e) => Failure(e)
      case Success(piece) => FoldFiles(host, Merge(cfg, piece), ctx, paths[1..])
  }

  /** The mapping decoded from the environment for this builder. */
  function EnvLayer(tpl: ConfigTpl, host: Host): Config {
    GetConfigFromEnv(tpl.envVarPrefix, host.environ)
  }

  /** `_finalize_cfg`: the environment over the configuration, then the overrides over both. */
  function FinalizeCfg(tpl: ConfigTpl, host: Host, cfg: Config, overrides: Option<Config>): (r: Config)
    ensures r == MergeAll([cfg, EnvLayer(tpl, host), OrEmpty(overrides)])
  {
    MergeAllThree(cfg, EnvLayer(tpl, host), OrEmpty(overrides));
    Merge(Merge(cfg, EnvLayer(tpl, host)), OrEmpty(overrides))
  }

  /** `build_from_files`: it merges, in order, the defaults, the pieces of the
      files in the caller's order, the environment and the overrides, and
      fails with the renderer's message exactly when some file fails. */
  function BuildFromFiles(tpl: ConfigTpl, host: Host, paths: seq<string>,
                          overrides: Option<Config>, ctx: Option<Config>): (r: Result<Config>)
    ensures r ==
      match Pieces(host, tpl.defaults, OrEmpty(ctx), paths)
      case Failure(e) => Failure(e)
      case Success(ps) => Success(MergeAll(FileLayers(tpl, host, ps, overrides)))
  {
    var ds := InitDicts([Some(tpl.defaults), ctx, overrides]);
    FoldIsLayered(host, ds[0], ds[1], paths);
    match FoldFiles(host, ds[0], ds[1], paths)
    case Failure(e) => Failure(e)
    case Success(cfg) =>
      FileLayersMerge(tpl, host, Pieces(host, ds[0], ds[1], paths).value, overrides);
      Success(FinalizeCfg(tpl, host, cfg, Some(ds[2])))
  }

  /** `build_from_str`: one render, in the deep merge of defaults and `ctx`,
      from `workDir` or else the current directory; the defaults themselves
      are not merged into the result. */
  function BuildFromStr(tpl: ConfigTpl, host: Host, s: string, workDir: Option<string>,
                        overrides: Option<Config>, ctx: Option<Config>): (r: Result<Config>)
    ensures var wd := match workDir case Some(d) => d case None => host.cwd;
      r == match RenderTpl(host.render(Text(s, wd), Merge(tpl.defaults, OrEmpty(ctx))))
           case Failure(e) => Failure(e)
           case Success(piece) => Success(MergeAll([piece, EnvLayer(tpl, host), OrEmpty(overrides)]))
  {
    var wd := match workDir case Some(d) => d case None => host.cwd;
    var ds := InitDicts([Some(tpl.defaults), ctx, overrides]);
    match RenderTpl(host.render(Text(s, wd), Merge(ds[0], ds[1])))
    case Failure(e) => Failure(e)
    case Success(cfg) => Success(FinalizeCfg(tpl, host, cfg, Some(ds[2])))
  }

  // ---------------------------------------------------------------------
  // The fold as a stack of layers
  // ---------------------------------------------------------------------

  /** The mapping each file renders to along the chain, or the first failure. */
  function Pieces(host: Host, cfg: Config, ctx: Config, paths: seq<string>): (r: Result<seq<Config>>)
    ensures r.Success? ==> |r.value| == |paths|
    decreases |paths|
  {
    if paths == [] then Success([])
    else
      match RenderFile(host, cfg, ctx, paths[0])
      case Failure(e) => Failure(e)
      case Success(piece) =>
        match Pieces(host, Merge(cfg, piece), ctx, paths[1..])
        case Failure(e) => Failure(e)
        case Success(rest) => Success([piece] + rest)
  }

  /** The fold is the rendered pieces merged over the start in order; it fails,
      with the renderer's own message, exactly when some render fails. */
  lemma {:induction false} FoldIsLayered(host: Host, cfg: Config, ctx: Config, paths: seq<string>)
    ensures FoldFiles(host, cfg, ctx, paths) ==
      match Pieces(host, cfg, ctx, paths)
      case Failure(e) => Failure(e)
      case Success(ps) => Success(MergeFrom(cfg, ps))
    decreases |paths|
  {
    if paths != [] {
      match RenderFile(host, cfg, ctx, paths[0])
      case Failure(e) =>
      case Success(piece) =>
        FoldIsLayered(host, Merge(cfg, piece), ctx, paths[1..]);
        match Pieces(host, Merge(cfg, piece), ctx, paths[1..])
        case Failure(e) =>
        case Success(rest) =>
          assert ([piece] + rest)[1..] == rest;
    }
  }

  /**
    Context chaining: file `i` is rendered in the shallow union of `ctx` over
    the start merged with the pieces of files `0..i-1`, so a later file sees
    everything its predecessors produced.
   */
  lemma {:induction false} PiecesChain(host: Host, cfg: Config, ctx: Config, paths: seq<string>, i: nat)
    requires Pieces(host, cfg, ctx, paths).Success? && i < |paths|
    ensures var ps := Pieces(host, cfg, ctx, paths).value;
      RenderFile(host, MergeFrom(cfg, ps[..i]), ctx, paths[i]) == Success(ps[i])
    decreases |paths|
  {
    var ps := Pieces(host, cfg, ctx, paths).value;
    var piece := RenderFile(host, cfg, ctx, paths[0]).value;
    var rest := Pieces(host, Merge(cfg, piece), ctx, paths[1..]).value;
    assert ps == [piece] + rest;
    if i > 0 {
      PiecesChain(host, Merge(cfg, piece), ctx, paths[1..], i - 1);
      assert ps[..i][1..] == rest[..i - 1];
      assert ps[..i][0] == piece;
      assert MergeFrom(cfg, ps[..i]) == MergeFrom(Merge(cfg, piece), rest[..i - 1]);
    }
  }

  /** A failure is final: once a file fails, no later file is rendered and the build fails with that message. */
  lemma {:induction false} FailureIsFinal(host: Host, cfg: Config, ctx: Config, paths: seq<string>, more: seq<string>)
    requires FoldFiles(host, cfg, ctx, paths).Failure?
    ensures FoldFiles(host, cfg, ctx, paths + more) == FoldFiles(host, cfg, ctx, paths)
    decreases |paths|
  {
    assert (paths + more)[0] == paths[0];
    match RenderFile(host, cfg, ctx, paths[0])
    case Failure(e) =>
    case Success(piece) =>
      assert (paths + more)[1..] == paths[1..] + more;
      FailureIsFinal(host, Merge(cfg, piece), ctx, paths[1..], more);
  }

  /** A file whose render is a null document is skipped: the fold goes on as if it were not listed. */
  lemma NullRenderIsSkipped(host: Host, cfg: Config, ctx: Config, path: string, rest: seq<string>)
    requires host.render(File(host.realpath(path)), RenderContext(cfg, ctx)) == NullDocument
    ensures FoldFiles(host, cfg, ctx, [path] + rest) == FoldFiles(host, cfg, ctx, rest)
  {
    MergeEmptyRight(cfg);
    assert ([path] + rest)[1..] == rest;
  }

  /** The layers of a successful file build, lowest precedence first. */
  function FileLayers(tpl: ConfigTpl, host: Host, ps: seq<Config>, overrides: Option<Config>): seq<Config> {
    [tpl.defaults] + ps + [EnvLayer(tpl, host), OrEmpty(overrides)]
  }

  /** The layers of a file build, merged, are the finalisation of the pieces merged over the defaults. */
  lemma FileLayersMerge(tpl: ConfigTpl, host: Host, ps: seq<Config>, overrides: Option<Config>)
    ensures MergeAll(FileLayers(tpl, host, ps, overrides))
         == FinalizeCfg(tpl, host, MergeFrom(tpl.defaults, ps), Some(OrEmpty(overrides)))
  {
    var d, e, o := tpl.defaults, EnvLayer(tpl, host), OrEmpty(overrides);
    assert FileLayers(tpl, host, ps, overrides) == ([d] + ps + [e]) + [o];
    MergeAllSnoc([d] + ps + [e], o);
    MergeAllSnoc([d] + ps, e);
    MergeAllCons(d, ps);
    MergeAllThree(MergeFrom(d, ps), e, o);
  }

  /**
    The precedence chain of a file build, leaf by leaf: the leaf at any path
    is the overrides' leaf there, else the environment's, else the last
    file's to have one, else the defaults', reading past a layer only where
    it says nothing at or above the path.
   */
  lemma BuildFromFilesPrecedence(tpl: ConfigTpl, host: Host, paths: seq<string>,
                                 overrides: Option<Config>, ctx: Option<Config>, p: Path)
    requires Pieces(host, tpl.defaults, OrEmpty(ctx), paths).Success?
    ensures var ps := Pieces(host, tpl.defaults, OrEmpty(ctx), paths).value;
      BuildFromFiles(tpl, host, paths, overrides, ctx).Success? &&
      LeafOf(BuildFromFiles(tpl, host, paths, overrides, ctx).value, p) == LeafAt(FileLayers(tpl, host, ps, overrides), p)
  {
    var ps := Pieces(host, tpl.defaults, OrEmpty(ctx), paths).value;
    MergeAllLeaf(FileLayers(tpl, host, ps, overrides), p);
  }

  /** The finalisation, leaf by leaf: overrides beat the environment, which beats the rendered configuration. */
  lemma FinalizePrecedence(tpl: ConfigTpl, host: Host, cfg: Config, overrides: Option<Config>, p: Path)
    ensures var o, e := OrEmpty(overrides), EnvLayer(tpl, host);
      LeafOf(FinalizeCfg(tpl, host, cfg, overrides), p) ==
        if LeafOf(o, p).Some? then LeafOf(o, p)
        else if !Untouched(o, p) then None
        else if LeafOf(e, p).Some? then LeafOf(e, p)
        else if !Untouched(e, p) then None
        else LeafOf(cfg, p)
  {
    var o, e := OrEmpty(overrides), EnvLayer(tpl, host);
    MergeLeaf(Merge(cfg, e), o, p);
    MergeLeaf(cfg, e, p);
  }

  /** The keys of a file build come from the defaults, the pieces, the
      environment and the overrides, and from nowhere else: `ctx` never
      enters the result by itself. */
  lemma BuildFromFilesKeys(tpl: ConfigTpl, host: Host, paths: seq<string>,
                           overrides: Option<Config>, ctx: Option<Config>, k: string)
    requires Pieces(host, tpl.defaults, OrEmpty(ctx), paths).Success?
    ensures var ps := Pieces(host, tpl.defaults, OrEmpty(ctx), paths).value;
      BuildFromFiles(tpl, host, paths, overrides, ctx).Success? &&
      (k in BuildFromFiles(tpl, host, paths, overrides, ctx).value <==>
        k in tpl.defaults || (exists i :: 0 <= i < |ps| && k in ps[i]) ||
        k in EnvLayer(tpl, host) || k in OrEmpty(overrides))
  {
    var ps := Pieces(host, tpl.defaults, OrEmpty(ctx), paths).value;
    LayerKeys(tpl.defaults, ps, EnvLayer(tpl, host), OrEmpty(overrides), k);
  }

  /** Key membership through the layers of a file build. */
  lemma LayerKeys(d: Config, ps: seq<Config>, e: Config, o: Config, k: string)
    ensures k in MergeAll([d] + ps + [e, o]) <==>
      k in d || (exists i :: 0 <= i < |ps| && k in ps[i]) || k in e || k in o
  {
    var layers := [d] + ps + [e, o];
    MergeAllKeys(layers, k);
    if exists i :: 0 <= i < |ps| && k in ps[i] {
      var i :| 0 <= i < |ps| && k in ps[i];
      assert layers[i + 1] == ps[i];
    }
    if exists j :: 0 <= j < |layers| && k in layers[j] {
      var j :| 0 <= j < |layers| && k in layers[j];
      if 0 < j <= |ps| {
        assert layers[j] == ps[j - 1];
      }
    }
    assert layers[0] == d;
    assert layers[|ps| + 1] == e;
    assert layers[|ps| + 2] == o;
  }

  /** A renderer whose output does not depend on the context it is given. */
  ghost predicate ContextFree(render: (Source, Config) -> Rendered) {
    forall s, c1, c2 :: render(s, c1) == render(s, c2)
  }

  lemma {:induction false} FoldIgnoresCtx(host: Host, cfg: Config, ctx1: Config, ctx2: Config, paths: seq<string>)
    requires ContextFree(host.render)
    ensures FoldFiles(host, cfg, ctx1, paths) == FoldFiles(host, cfg, ctx2, paths)
    decreases |paths|
  {
    if paths != [] {
      var src := File(host.realpath(paths[0]));
      assert host.render(src, RenderContext(cfg, ctx1)) == host.render(src, RenderContext(cfg, ctx2));
      match RenderFile(host, cfg, ctx1, paths[0])
      case Failure(e) =>
      case Success(piece) =>
        FoldIgnoresCtx(host, Merge(cfg, piece), ctx1, ctx2, paths[1..]);
    }
  }

  /** `ctx` reaches the result only through what templates render: with a
      renderer that ignores its context, `ctx` makes no difference at all. */
  lemma BuildFromFilesIgnoresCtx(tpl: ConfigTpl, host: Host, paths: seq<string>,
                                 overrides: Option<Config>, ctx1: Option<Config>, ctx2: Option<Config>)
    requires ContextFree(host.render)
    ensures BuildFromFiles(tpl, host, paths, overrides, ctx1) == BuildFromFiles(tpl, host, paths, overrides, ctx2)
  {
    FoldIgnoresCtx(host, tpl.defaults, OrEmpty(ctx1), OrEmpty(ctx2), paths);
  }

  /** With no paths, nothing from the environment and no overrides, a file build returns exactly the defaults. */
  lemma NoSourcesGiveDefaults(tpl: ConfigTpl, host: Host, ctx: Option<Config>)
    requires EnvLayer(tpl, host) == Empty
    ensures BuildFromFiles(tpl, host, [], None, ctx) == Success(tpl.defaults)
  {
    MergeEmptyRight(tpl.defaults);
  }

  // ---------------------------------------------------------------------
  // Building from a string
  // ---------------------------------------------------------------------

  /** Three layers merged left to right. */
  lemma MergeAllThree(a: Config, b: Config, c: Config)
    ensures MergeAll([a, b, c]) == Merge(Merge(a, b), c)
  {
    assert [a, b, c] == [a, b] + [c];
    assert [a, b] == [a] + [b];
    MergeAllSnoc([a, b], c);
    MergeAllSnoc([a], b);
    MergeAllCons(a, []);
  }

  /**
    The two entry points treat the defaults differently: for a template that
    renders to a null document, with nothing from the environment and no
    overrides, a file build returns the defaults while a string build
    returns `{}`.
   */
  lemma DefaultsOnlyLayerForFiles(tpl: ConfigTpl, host: Host, path: string, s: string, ctx: Option<Config>)
    requires EnvLayer(tpl, host) == Empty
    requires host.render(File(host.realpath(path)), RenderContext(tpl.defaults, OrEmpty(ctx))) == NullDocument
    requires host.render(Text(s, host.cwd), Merge(tpl.defaults, OrEmpty(ctx))) == NullDocument
    ensures BuildFromFiles(tpl, host, [path], None, ctx) == Success(tpl.defaults)
    ensures BuildFromStr(tpl, host, s, None, None, ctx) == Success(Empty)
  {
    NullRenderIsSkipped(host, tpl.defaults, OrEmpty(ctx), path, []);
    assert [path] + [] == [path];
    MergeEmptyRight(tpl.defaults);
    MergeEmptyRight(Empty);
  }

  /** The file context is shallow, the string context deep: an instance where
      both sides hold a nested mapping under the same key and they differ. */
  lemma ContextShallowNotDeep()
    ensures
      var cfg := map["a" := Map(map["x" := Int(1)])];
      var ctx := map["a" := Map(map["y" := Int(2)])];
      RenderContext(cfg, ctx) == ctx && Merge(cfg, ctx) != ctx
  {
    var cfg := map["a" := Map(map["x" := Int(1)])];
    var ctx := map["a" := Map(map["y" := Int(2)])];
    assert "x" in Merge(cfg, ctx)["a"].m;
  }

  /** When no top-level key holds a nested mapping on both sides, the shallow
      and the deep context coincide. */
  lemma ContextShallowAgreesWithDeep(cfg: Config, ctx: Config)
    requires forall k :: k in cfg && k in ctx ==> !(cfg[k].Map? && ctx[k].Map?)
    ensures RenderContext(cfg, ctx) == Merge(cfg, ctx)
  {
  }

  /** The shallow and the deep context coincide exactly when, under every key
      holding a nested mapping on both sides, the deep merge of the two inner
      mappings is already the context's own. */
  lemma ContextsAgreeExactly(cfg: Config, ctx: Config)
    ensures RenderContext(cfg, ctx) == Merge(cfg, ctx) <==>
      forall k :: k in cfg && k in ctx && cfg[k].Map? && ctx[k].Map? ==> Merge(cfg[k].m, ctx[k].m) == ctx[k].m
  {
  }
}
