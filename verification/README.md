# configtpl in Dafny

configtpl builds an application's configuration from layers. A builder
(`ConfigTpl`) holds optional defaults and an optional environment-variable
prefix. `build_from_files` starts from the defaults. It renders each file in
turn as a Jinja template, parses the output as YAML, and deep-merges the
result over everything built so far. It then merges the variables decoded
from the environment, and finally the caller's overrides. `build_from_str`
does the same for a single template string. There, the defaults serve only
as rendering context.

This project models that core as pure functions over an immutable value
type, and proves what the code and its tests promise about it:

- `values.dfy`: the configuration value (`Null`, `Bool`, `Int`, `Float`,
  `Str`, `List`, `Map`) and a path view of nested mappings. `LeafOf` gives
  the scalar or list at a key path. `Untouched` says that a mapping puts
  nothing at or above a path.
- `dicts.dfy`: the deep merge (`dict_deep_merge`), its variadic left fold,
  and `dict_init_dicts_from_list`. It proves the merge's algebra and a
  leaf-by-leaf description of the merge. That description is checked
  against an independent precedence chain (`LeafAt`).
- `strings.dfy`: ASCII lower-casing, splitting on `__` and its inverse
  `Join`, the integer and decimal literal grammar, and a printer for
  integers (decimal literals are kept as written and never printed).
- `env.dfy`: the environment decoder (`_parse_env_var_value`,
  `get_config_from_env`). It covers the value coercion ladder and its
  inverse encoder, name-to-path decoding, and where each variable's value
  lands in the decoded mapping.
- `builder.dfy`: `ConfigTpl`, `build_from_files`, `build_from_str`,
  `_finalize_cfg` and `_render_tpl`. Everything outside the pipeline
  belongs to a `Host` value: the renderer (Jinja plus YAML, as a function
  from source and context to a result), `os.path.realpath`, the current
  directory, and a snapshot of the process environment.
- `dict_examples.dfy`, `env_examples.dfy`, `builder_examples.dfy`: concrete
  cases proved about the model. Most are input/output pairs the
  repository's tests assert. A few (the one-key precedence chain in
  `builder_examples.dfy`) instantiate the documented layering order on one
  key.

The implementation files `src/configtpl/utils/dicts.py` and
`src/configtpl/env.py` are not part of this model's sources. Their behaviour
is modelled from their unit tests (`tests/unit/configtpl/utils/test_dicts.py`,
`tests/unit/configtpl/test_env.py`). A case-insensitive reading of the
boolean rung would contradict those tests: they expect
`TEST_APP__A_BOOL=TRUE` to decode to the string `"TRUE"`
(`test_env.py:28` and `:54`). So `ParseEnvValue` matches only the exact
lower-case words `true` and `false`.

## Model

| member | source | states |
|---|---|---|
| Dicts.Merge | tests/unit/configtpl/utils/test_dicts.py:14-64 | The keys of `merge(a, b)` are exactly those of `a` and `b` together. A key only `a` has keeps `a`'s value, a key only `b` has takes `b`'s value, and a shared key gets the two values merged. |
| Dicts.MergeValue | tests/unit/configtpl/utils/test_dicts.py:34-64 | Under a shared key, unless both values are mappings, the right-hand value wins wholesale: a scalar over a mapping and a mapping over a scalar alike. Two mappings merge recursively: the result is the deep merge of the two inner mappings, so it keeps the keys of both. The result is a mapping exactly when the right-hand value is. |
| Dicts.MergeAll | tests/unit/configtpl/utils/test_dicts.py:9 | Merging no mappings at all gives `{}`. |
| Dicts.InitDicts | tests/unit/configtpl/utils/test_dicts.py:66-83 | `dict_init_dicts_from_list` keeps the number and order of its arguments. A present mapping passes through unchanged and an absent one becomes `{}`. |
| Dicts.MergeEmptyLeft | tests/unit/configtpl/utils/test_dicts.py:11 | `{}` merged under a mapping changes nothing. |
| Dicts.MergeEmptyRight | tests/unit/configtpl/utils/test_dicts.py:12 | `{}` merged over a mapping changes nothing. |
| Dicts.MergeDisjoint | tests/unit/configtpl/utils/test_dicts.py:14-19 | With no key in common, the deep merge is the plain union. |
| Dicts.MergePointwise | tests/unit/configtpl/utils/test_dicts.py:14-64 | The merge is determined by its key set and its per-key rule. A mapping with exactly the keys of both sides, where every key carries the value that rule gives it, is the merge. |
| Dicts.MergeIdempotent | tests/unit/configtpl/utils/test_dicts.py:34-44 | Merging a mapping with itself gives it back, at every depth of the recursion. |
| Dicts.MergeAbsorbs | tests/unit/configtpl/utils/test_dicts.py:34-44 | Laying the same mapping over twice gives the same result as laying it over once. |
| Dicts.MergeNotAssociative | tests/unit/configtpl/utils/test_dicts.py:46-52 | Regrouping three layers can change the result, so the left-to-right fold order is part of the contract. |
| Dicts.MergeLeaf | tests/unit/configtpl/utils/test_dicts.py:21-64 | The leaf of `merge(a, b)` at any path is `b`'s leaf there if it has one. Otherwise it is `a`'s leaf, provided `b` puts nothing at or above the path. If `b` puts a mapping there or a leaf above it, there is no leaf. |
| Dicts.MergeKeepsRightLeaves | tests/unit/configtpl/utils/test_dicts.py:21-25 | Every leaf of the right-hand mapping survives the merge unchanged. |
| Dicts.MergeAllSnoc | tests/unit/configtpl/utils/test_dicts.py:46-52 | The variadic merge is the left fold of the binary one: merging one more mapping merges it last. |
| Dicts.MergeAllCons | tests/unit/configtpl/utils/test_dicts.py:46-52 | The fold that starts from `{}` is the same as the fold that starts from the first mapping. |
| Dicts.MergeAllKeys | tests/unit/configtpl/utils/test_dicts.py:46-52 | A key is in the variadic merge exactly when some operand has it. |
| Dicts.MergeAllLeaf | tests/unit/configtpl/utils/test_dicts.py:46-52 | The fold gives every leaf the value that the precedence chain `LeafAt` resolves: the topmost layer that has a leaf there, looking further down only past layers that say nothing at or above the path. |
| Env.ParseEnvValue | tests/unit/configtpl/test_env.py:9-21 | The coercion ladder only ever produces scalars. |
| Env.ParseEnvValueLadder | tests/unit/configtpl/test_env.py:9-21 | Each kind of result comes from exactly the inputs of its shape. Null comes iff the text is empty. A boolean comes iff the text is exactly `true` or `false`. An integer comes iff the text is an integer literal, with its value. A float comes iff the text is a decimal literal, kept as written. A string comes for quoted text, with the quotes stripped, or for anything else, unchanged. |
| Env.ParseEncode | tests/unit/configtpl/test_env.py:11-20 | Every scalar a variable can carry decodes back from its encoding: `parse(encode(v)) == v`. |
| Env.ParsedEncodable | tests/unit/configtpl/test_env.py:11-21 | Whatever the ladder produces can be written back as a variable. |
| Env.VarPath | tests/unit/configtpl/test_env.py:37 | A variable decodes to a path exactly when its name starts with `{prefix}__`. |
| Env.VarPathShape | tests/unit/configtpl/test_env.py:26-36 | A decoded path joined back with `__` is the lower-cased rest of the name. Its segments have the shape splitting produces, and none holds an upper-case letter. |
| Env.GetConfigFromEnv | tests/unit/configtpl/test_env.py:42-66 | Decoding is opt-in: without a prefix, or with an empty one, the result is `{}`. With a non-empty prefix the result is the decoding of the snapshot under that prefix (`DecodeVars`), which the `Decode*` lemmas below describe. |
| Env.UnrelatedIgnored | tests/unit/configtpl/test_env.py:37 | A variable without `{prefix}__` adds nothing to the decoded mapping. |
| Env.NoMatchDecodesEmpty | tests/unit/configtpl/test_env.py:45-46 | When no variable carries the prefix, the decoded mapping is `{}`. |
| Env.DecodeKeys | tests/unit/configtpl/test_env.py:49-66 | The top-level keys of the decoded mapping are exactly the first path segments of the matching variables. |
| Env.DecodeLands | tests/unit/configtpl/test_env.py:49-66 | A matching variable's decoded value sits at its path. The exception is when a later matching variable's path meets it: the same path, a path above it, or a path below it. |
| Env.DecodeLowerKeys | tests/unit/configtpl/test_env.py:49-66 | Every key of the decoded mapping, at every depth, is free of upper-case letters. |
| Env.DecodeIsLayered | tests/unit/configtpl/test_env.py:49-66 | States the behaviour of `DecodeVars`. The decoded mapping is exactly the deep merge, in snapshot order, of the one-leaf mappings of the matching variables. Nothing else enters it. |
| Env.DecodeLeaf | tests/unit/configtpl/test_env.py:49-66 | The leaf at every path of the decoded mapping is the one the precedence chain `LeafAt` picks over those one-leaf mappings. A later variable beats an earlier one, and a layer is read past only where it says nothing at or above the path, so a later variable that puts a leaf above the path hides the leaves below it. |
| Builder.NewConfigTpl | src/configtpl/main.py:41-44 | Absent defaults become `{}`, present ones are kept, and the prefix is stored as given. |
| Builder.RenderTpl | src/configtpl/main.py:135-141 | A parsed mapping is returned unchanged and a null YAML document reads as `{}`. A renderer or parser failure propagates with its own message, and the result fails only then. |
| Builder.RenderContext | src/configtpl/main.py:80 | `{**cfg, **ctx}` is a shallow union. Its keys are both sides' keys, `ctx`'s value wins a shared key wholesale, and `cfg`'s other values are kept. |
| Builder.FoldIsLayered | src/configtpl/main.py:77-82 | States the behaviour of `FoldFiles`. The file loop gives the pieces the files render to, merged over the start in the caller's order. It fails, with the renderer's message, exactly when some render fails. |
| Builder.PiecesChain | src/configtpl/main.py:78-82 | File `i` is rendered from its resolved path in the context of everything merged from files `0..i-1`, with `ctx` laid over it. |
| Builder.FailureIsFinal | src/configtpl/main.py:78-82 | Once a file fails, adding files after it changes nothing: the build fails with the same message. |
| Builder.NullRenderIsSkipped | src/configtpl/main.py:138-139 | A file whose output is an empty YAML document leaves the configuration as if the file were not listed. |
| Builder.BuildFromFiles | src/configtpl/main.py:58-84 | A file build merges, in order: the defaults, each file's piece in the caller's order, the environment, and the overrides. It fails, with the renderer's message, exactly when some file fails. |
| Builder.BuildFromFilesPrecedence | src/configtpl/main.py:75-84 | Leaf by leaf, a file build resolves the chain overrides > environment > files, last first > defaults. A layer is read past only where it says nothing at or above the path, so a leaf can be hidden by a later layer that puts a leaf above it. |
| Builder.FinalizeCfg | src/configtpl/main.py:127-132 | Finalising lays the environment over the configuration and then the overrides over both: the result is the left fold of those three layers. |
| Builder.FinalizePrecedence | src/configtpl/main.py:127-132 | Leaf by leaf, overrides beat the environment, and the environment beats the rendered configuration. A layer is read past only where it says nothing at or above the path. |
| Builder.BuildFromFilesKeys | src/configtpl/main.py:75-84 | The keys of a file build come from the defaults, the pieces, the environment and the overrides, and from nowhere else. `ctx` never enters the result by itself. |
| Builder.BuildFromFilesIgnoresCtx | src/configtpl/main.py:75-82 | With a renderer that ignores its context, `ctx` makes no difference to the result. |
| Builder.NoSourcesGiveDefaults | src/configtpl/main.py:75-84 | No paths, an empty environment layer and no overrides give exactly the defaults. |
| Builder.BuildFromStr | src/configtpl/main.py:86-109 | A string build renders once, from `work_dir` or else the current directory, in the deep merge of defaults and `ctx`. It then merges only the rendered piece, the environment and the overrides. |
| Builder.DefaultsOnlyLayerForFiles | src/configtpl/main.py:77-109 | For templates that render to an empty document, with nothing from the environment and no overrides, a file build returns the defaults while a string build returns `{}`. |
| Builder.ContextShallowNotDeep | src/configtpl/main.py:80-108 | The file context (shallow union) and the string context (deep merge) can differ when both sides nest a mapping under the same key. It exhibits one such pair. |
| Builder.ContextsAgreeExactly | src/configtpl/main.py:80-108 | The shallow and the deep context coincide exactly when, under every key where both sides nest a mapping, the deep merge of the two inner mappings equals the context's own. |
| Builder.ContextShallowAgreesWithDeep | src/configtpl/main.py:80-108 | Where no top-level key nests a mapping on both sides, the shallow and the deep context coincide. |
| DictExamples.MergeEmptyCases | tests/unit/configtpl/utils/test_dicts.py:7-12 | The four empty-merge assertions of the test. |
| DictExamples.MergeSimpleCases | tests/unit/configtpl/utils/test_dicts.py:14-25 | The flat merges: a disjoint union, and an overlap won by the right. |
| DictExamples.MergeNestedCase | tests/unit/configtpl/utils/test_dicts.py:34-38 | Overlapping nested mappings keep keys from both sides, with the right winning the shared leaf. |
| DictExamples.MergeDeepCase | tests/unit/configtpl/utils/test_dicts.py:40-44 | The merge recurses two levels down. |
| DictExamples.MergeThreeCase | tests/unit/configtpl/utils/test_dicts.py:46-52 | Three mappings merged left to right give the test's expected mapping. |
| DictExamples.MergeTypeChangeCases | tests/unit/configtpl/utils/test_dicts.py:54-64 | A mapping replaced by a scalar and a scalar replaced by a mapping, in both directions. |
| DictExamples.ListsReplacedCase | tests/functional/test_0001_combined_cfg/test.py:34 | A list in a later layer replaces an earlier list wholesale. |
| DictExamples.InitDictsCases | tests/unit/configtpl/utils/test_dicts.py:66-83 | The test's normalisations of absent and present mappings, including zero arguments. |
| EnvExamples.ParseEnvValueTextCases | tests/unit/configtpl/test_env.py:11-16 | `""` decodes to null, and `true`/`false` decode to booleans. |
| EnvExamples.ParseEnvValueQuotedCases | tests/unit/configtpl/test_env.py:13-14 | Single and double quotes are stripped. |
| EnvExamples.ParseEnvValuePlainCases | tests/unit/configtpl/test_env.py:12-21 | `test_string` stays itself. `MixedCase` also stays itself, with its case kept: line 21 checks only that the result is truthy, and the model pins the exact value. |
| EnvExamples.ParseEnvValueUpperTrue | tests/unit/configtpl/test_env.py:28-54 | `TRUE` is not a boolean: it decodes to the string `"TRUE"`. |
| EnvExamples.ParseEnvValueIntCases | tests/unit/configtpl/test_env.py:17-18 | `123` and `-45` decode to integers. |
| EnvExamples.ParseEnvValueFloatCases | tests/unit/configtpl/test_env.py:19-20 | `1.23` and `-0.5` decode to decimals. |
| EnvExamples.DecodeTestEnv | tests/unit/configtpl/test_env.py:23-66 | The test's twelve-variable environment, decoded with prefix `TEST_APP`, gives exactly the expected nested mapping. |
| BuilderExamples.OneFileBuild | src/configtpl/main.py:75-84 | A one-file build is the defaults merged with the file's mapping, then finalised. |
| BuilderExamples.NestedOverrideKeepsSiblings | tests/unit/configtpl/test_main.py:42-58 | Nested overrides replace only the leaves they name. The rendered file's other keys survive. |
| BuilderExamples.OverrideBeatsAll | src/configtpl/main.py:127-132 | Defaults, a file, an environment variable and an override all set the same key, and the override wins. |
| BuilderExamples.EnvBeatsFile | src/configtpl/main.py:131 | Without an override, the environment variable beats both the file and the defaults. |
| BuilderExamples.FileBeatsDefaults | src/configtpl/main.py:77-82 | Without an environment prefix, the file beats the defaults. |

## Left out

- Jinja rendering and YAML parsing are not modelled. They are the `render`
  parameter of `Host`, which returns a failure, a null document or a
  mapping. `JinjaEnvFactory`, the Jinja environment arguments, and the
  `set_global`/`set_filter` pass-throughs (`main.py:36-40`, `46-56`)
  configure that engine only, so they are left out with it.
- A YAML document whose top level is a scalar or a list is not modelled,
  because the renderer is typed to return a mapping.
- `os.path.realpath`, `Path.cwd()` and `os.environ` are `Host` fields. The
  environment is a snapshot in enumeration order, and later variables win
  collisions.
- `deepcopy` (`main.py:77`, `80`) is not modelled. Values are immutable, so
  copying cannot change any result.
- Python exceptions from the renderer become `Failure(message)`. Their
  types are not modelled.
- Floats are kept as their decimal literal text, because Dafny has no
  floating point. Equality of floats is equality of literals.
- ParseEnvValue: the integer grammar is an optional `-` followed by digits.
  The float grammar is an optional `-`, digits, `.`, digits. Quoted means
  at least two characters with a matching `'` or `"` at both ends.
  `src/configtpl/env.py` is not part of this model, so those choices are
  read off the tests. Exponents, `+` signs and whitespace trimming are not
  modelled.
- VarPath: lower-casing is ASCII-only, because Python's Unicode case
  mapping is not modelled.
- `src/config_builder.rs`, `launcher.py`, `tests/functional/run.py`, the
  documentation examples and the older `ConfigBuilder` API
  (`tests/functional/test_0000_simple`) are outside the modelled core.
- The functional test of rendering from a string (`test_0005`) depends on
  Jinja filters, globals and includes, so only its layering is covered, by
  the contract of `BuildFromStr`. The functional test of custom functions
  (`test_0004`) uses the older `ConfigBuilder` API and is outside the
  model.
- `test_main.py` passes a single string where `build_from_files` expects a
  list of paths. Python would iterate that string by character. The model
  takes a sequence of paths and does not reproduce that quirk.
