/** The plugin itself (lib/index.js): the factory `plugin(options)`, which
    normalises the options object in place and fails fast without `output`, and
    the step it returns, which concatenates the selected entries of the file map
    into a fresh record at `output` and stamps the metadata onto it. */
module ConcatPlugin {
  import opened JsValues
  import opened FileMaps
  import opened Concat

  /** How input entries are selected: an explicit ordered list of paths, or a
      glob pattern over the map's keys. */
  datatype FileSpec = ExplicitList(paths: seq<string>) | Glob(pattern: string)

  /** The options as the step reads them once the factory has normalised them. */
  datatype Config = Config(files: FileSpec, output: string, keepConcatenated: bool, metadata: Value)

  const DefaultPattern := "**/*"

  /** The caller's options object, which the factory updates in place. */
  class Options {
    var files: Value
    var output: Value
    var keepConcatenated: Value
    var metadata: Value

    constructor (files: Value, output: Value, keepConcatenated: Value, metadata: Value)
      ensures this.files == files && this.output == output
      ensures this.keepConcatenated == keepConcatenated && this.metadata == metadata
    {
      this.files := files;
      this.output := output;
      this.keepConcatenated := keepConcatenated;
      this.metadata := metadata;
    }
  }

  /** `options.files` after normalisation: a string or an array stays, anything
      else becomes the match-everything pattern. */
  function NormaliseFiles(v: Value): (r: Value)
    ensures r.Text? || r.List?
    ensures v.Text? || v.List? ==> r == v
    ensures !(v.Text? || v.List?) ==> r == Text(DefaultPattern)
  {
    if v.Text? || v.List? then v else Text(DefaultPattern)
  }

  /** `options.keepConcatenated` after normalisation: a boolean stays, anything
      else becomes `false`. */
  function NormaliseKeep(v: Value): (r: Value)
    ensures r.Bool?
    ensures v.Bool? ==> r == v
    ensures !v.Bool? ==> r == Bool(false)
  {
    if v.Bool? then v else Bool(false)
  }

  /** The mode the step picks from a normalised `files` option; an array's
      elements are used as property keys, that is, as their string conversions. */
  function Selection(files: Value): FileSpec
    requires files.Text? || files.List?
  {
    if files.List? then ExplicitList(seq(|files.items|, i requires 0 <= i < |files.items| => ToString(files.items[i])))
    else Glob(files.s)
  }

  /** What `plugin(options)` makes of the options: an error exactly when `output`
      is undefined, whatever the other options and before any file map exists;
      otherwise the normalised options, `output` used as a property key. */
  function Configure(files: Value, output: Value, keepConcatenated: Value, metadata: Value): (r: Result<Config>)
    ensures r.Failure? <==> output.Undefined?
    ensures r.Failure? ==> r.error == MissingOutput
    ensures r.Success? ==>
              && r.value.output == ToString(output)
              && r.value.keepConcatenated == (keepConcatenated == Bool(true))
              && r.value.metadata == metadata
              && (files.Text? ==> r.value.files == Glob(files.s))
              && (files.List? ==>
                    && r.value.files.ExplicitList? && |r.value.files.paths| == |files.items|
                    && forall i :: 0 <= i < |files.items| ==> r.value.files.paths[i] == ToString(files.items[i]))
              && (!files.Text? && !files.List? ==> r.value.files == Glob(DefaultPattern))
  {
    if output.Undefined? then Failure(MissingOutput)
    else Success(Config(Selection(NormaliseFiles(files)), ToString(output),
                        NormaliseKeep(keepConcatenated).b, metadata))
  }

  /** The options object the factory leaves behind configures the same plugin
      again: normalising is idempotent. */
  lemma ConfigureNormalised(files: Value, output: Value, keepConcatenated: Value, metadata: Value)
    ensures Configure(NormaliseFiles(files), output, NormaliseKeep(keepConcatenated), metadata)
         == Configure(files, output, keepConcatenated, metadata)
  {
  }

  /** `plugin(options)`: a missing options object stands for `{}`. `files` is
      normalised before `output` is checked, so on the error path the caller's
      object already holds the normalised `files` but not yet the normalised
      `keepConcatenated`. */
  method Plugin(options: Options?) returns (r: Result<Config>)
    modifies options
    ensures options == null ==> r == Failure(MissingOutput)
    ensures options != null ==>
              r == Configure(old(options.files), old(options.output),
                             old(options.keepConcatenated), old(options.metadata))
    ensures options != null ==>
              && options.files == NormaliseFiles(old(options.files))
              && options.output == old(options.output)
              && options.metadata == old(options.metadata)
              && options.keepConcatenated
                 == if r.Failure? then old(options.keepConcatenated) else NormaliseKeep(old(options.keepConcatenated))
  {
    var opts := options;
    if opts == null {
      opts := new Options(Undefined, Undefined, Undefined, Undefined);
    }
    opts.files := NormaliseFiles(opts.files);
    if opts.output.Undefined? {
      return Failure(MissingOutput);
    }
    opts.keepConcatenated := NormaliseKeep(opts.keepConcatenated);
    r := Success(Config(Selection(opts.files), ToString(opts.output), opts.keepConcatenated.b, opts.metadata));
  }

  // ----- the step ----------------------------------------------------------------

  /** The concatenation phase, in either mode. */
  function Select(spec: FileSpec, s: State, keep: bool, matches: Matcher): Outcome<Result<string>>
    requires WellFormed(s)
  {
    match spec
    case ExplicitList(paths) => ListConcat(paths, s, keep)
    case Glob(pattern) =>
      var g := GlobConcat(pattern, s, keep, matches);
      Outcome(Success(g.result), g.state)
  }

  /** The step the factory returns, on the file map's value: concatenate, then
      store a fresh record holding only `contents` at `output` (replacing any
      record there), then apply the metadata. A thrown error stops it where it
      is, with no rollback. */
  function Step(cfg: Config, s: State, matches: Matcher): Outcome<Status>
    requires WellFormed(s)
  {
    var selected := Select(cfg.files, s, cfg.keepConcatenated, matches);
    if selected.result.Failure? then Outcome(Failed(selected.result.error), selected.state)
    else
      var stored := Store(selected.state, cfg.output, map[ContentsField := Text(selected.result.value)]);
      WithMetadata(cfg.metadata, cfg.output, stored)
  }

  /** The step on the live file map; `matches` is the glob library. */
  method Run(cfg: Config, fm: FileMap, matches: Matcher) returns (status: Status)
    requires fm.Valid()
    modifies fm
    ensures fm.Valid()
    ensures Outcome(status, fm.Snapshot()) == Step(cfg, old(fm.Snapshot()), matches)
  {
    var selected: Result<string>;
    match cfg.files {
      case ExplicitList(paths) =>
        selected := ConcatArr(paths, fm, cfg.keepConcatenated);
      case Glob(pattern) =>
        var concatenated := ConcatObj(pattern, fm, cfg.keepConcatenated, matches);
        selected := Success(concatenated);
    }
    if selected.Failure? {
      return Failed(selected.error);
    }
    fm.Set(cfg.output, map[ContentsField := Text(selected.value)]);
    status := AddMetadata(cfg.metadata, cfg.output, fm);
  }

  // ----- properties of the step ------------------------------------------------------

  /** The keys whose contents the step concatenates, in order. */
  function SelectedKeys(spec: FileSpec, s: State, matches: Matcher): seq<string>
  {
    match spec
    case ExplicitList(paths) => paths
    case Glob(pattern) => Filter(s.order, pattern, matches)
  }

  /** The concatenation phase finds every entry it looks up. */
  predicate Selectable(spec: FileSpec, s: State, keep: bool)
  {
    spec.Glob? || ListConsumable(spec.paths, s.files, keep)
  }

  lemma SelectSucceeds(spec: FileSpec, s: State, keep: bool, matches: Matcher)
    requires WellFormed(s) && Selectable(spec, s, keep)
    ensures AllPresent(SelectedKeys(spec, s, matches), s.files)
    ensures Select(spec, s, keep, matches)
         == Outcome(Success(JoinContents(SelectedKeys(spec, s, matches), s.files)),
                    if keep then s else RemoveKeys(s, Elems(SelectedKeys(spec, s, matches))))
  {
    if spec.ExplicitList? {
      ListConcatSucceeds(spec.paths, s, keep);
    }
  }

  /** When every input is found: the output record holds the inputs' contents
      joined in selection order, stamped with the metadata; without
      `keepConcatenated` exactly the inputs are deleted (the output key comes
      back), with it none is; every other entry keeps its record; and the step
      fails only for a truthy `metadata` that is not an object, after all of
      that has happened. */
  lemma StepSucceeds(cfg: Config, s: State, matches: Matcher)
    requires WellFormed(s) && Selectable(cfg.files, s, cfg.keepConcatenated)
    ensures AllPresent(SelectedKeys(cfg.files, s, matches), s.files)
    ensures var out := Step(cfg, s, matches);
      var inputs := SelectedKeys(cfg.files, s, matches);
      var consumed := if cfg.keepConcatenated then {} else Elems(inputs);
      && WellFormed(out.state)
      && out.state.files.Keys == (s.files.Keys - consumed) + {cfg.output}
      && (forall k :: k in s.files && k !in consumed && k != cfg.output ==> out.state.files[k] == s.files[k])
      && out.state.files[cfg.output]
         == Stamped(cfg.metadata, map[ContentsField := Text(JoinContents(inputs, s.files))])
      && out.result
         == if Truthy(cfg.metadata) && TypeOf(cfg.metadata) != "object" then Failed(MetadataNotObject) else Done
  {
    var inputs := SelectedKeys(cfg.files, s, matches);
    SelectSucceeds(cfg.files, s, cfg.keepConcatenated, matches);
    var selected := Select(cfg.files, s, cfg.keepConcatenated, matches);
    if cfg.keepConcatenated {
      assert selected.state == s;
      assert s.files.Keys - {} == s.files.Keys;
    } else {
      assert selected.state == RemoveKeys(s, Elems(inputs));
      RemoveKeysWellFormed(s, Elems(inputs));
    }
    StoreWellFormed(selected.state, cfg.output, map[ContentsField := Text(JoinContents(inputs, s.files))]);
  }

  /** In list mode, when the path at `j` is the first one not found, the step
      throws an error naming it before the output is written; the paths before
      `j` stay deleted unless `keepConcatenated`. */
  lemma StepListFails(cfg: Config, s: State, matches: Matcher, j: nat)
    requires WellFormed(s) && cfg.files.ExplicitList?
    requires j < |cfg.files.paths|
    requires ListConsumable(cfg.files.paths[..j], s.files, cfg.keepConcatenated)
    requires cfg.files.paths[j] !in s.files || (!cfg.keepConcatenated && cfg.files.paths[j] in cfg.files.paths[..j])
    ensures Step(cfg, s, matches)
         == Outcome(Failed(NotFound(cfg.files.paths[j])),
                    if cfg.keepConcatenated then s else RemoveKeys(s, Elems(cfg.files.paths[..j])))
  {
    ListConcatFailsAt(cfg.files.paths, s, cfg.keepConcatenated, j);
  }

  /** With `keepConcatenated`, a successful step adds exactly one key when the
      output key is new. */
  lemma KeepAddsOneKey(cfg: Config, s: State, matches: Matcher)
    requires WellFormed(s) && cfg.keepConcatenated && Selectable(cfg.files, s, true)
    requires cfg.output !in s.files
    ensures |Step(cfg, s, matches).state.files| == |s.files| + 1
  {
    SelectSucceeds(cfg.files, s, true, matches);
    var selected := Select(cfg.files, s, true, matches);
    var stored := Store(s, cfg.output, map[ContentsField := Text(selected.result.value)]);
    assert stored.files.Keys == s.files.Keys + {cfg.output};
  }

  lemma {:induction false} FilterAll(keys: seq<string>, pattern: string, matches: Matcher)
    requires forall k :: k in keys ==> matches(k, pattern)
    ensures Filter(keys, pattern, matches) == keys
  {
    if keys != [] {
      var n := |keys| - 1;
      assert keys == keys[..n] + [keys[n]];
      FilterAll(keys[..n], pattern, matches);
    }
  }

  /** A pattern every key matches (the default one, say) without
      `keepConcatenated` leaves the output as the only entry, holding the
      contents of every entry in enumeration order. */
  lemma ConcatAllLeavesOnlyOutput(cfg: Config, s: State, matches: Matcher)
    requires WellFormed(s) && cfg.files.Glob? && !cfg.keepConcatenated && !Truthy(cfg.metadata)
    requires forall k :: k in s.files ==> matches(k, cfg.files.pattern)
    ensures AllPresent(s.order, s.files)
    ensures Step(cfg, s, matches).state.files
         == map[cfg.output := map[ContentsField := Text(JoinContents(s.order, s.files))]]
  {
    FilterAll(s.order, cfg.files.pattern, matches);
    StepSucceeds(cfg, s, matches);
    var t := Step(cfg, s, matches).state;
    assert t.files.Keys == {cfg.output};
  }

  /** A pattern no key matches leaves every entry in place and writes an empty
      output. */
  lemma NoMatchConcatenatesNothing(cfg: Config, s: State, matches: Matcher)
    requires WellFormed(s) && cfg.files.Glob?
    requires forall k :: k in s.files ==> !matches(k, cfg.files.pattern)
    ensures Step(cfg, s, matches)
         == WithMetadata(cfg.metadata, cfg.output, Store(s, cfg.output, map[ContentsField := Text("")]))
  {
    var selected := Filter(s.order, cfg.files.pattern, matches);
    assert Elems(selected) == {};
    RemoveNoKeys(s);
  }
}
