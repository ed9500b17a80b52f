/** The orchestration of src/core/pipeline.ts: a `Pipeline` holds a list of
    stages, registered at construction as the configuration asks and
    appended to by `use` and `addCustomProcessor`; `process` tokenizes a
    text and runs the stages over the result one after the other, with no
    error handling of its own. */
module Pipelines {
  import opened Strings
  import opened Results
  import opened Normalization
  import opened Extraction

  /** `config.pipeline`: which stage groups are enabled. */
  datatype PipelineFlags = PipelineFlags(
    enableNormalization: bool, enableCleaning: bool, enableExtraction: bool, enableSegmentation: bool)

  /** `config.extraction`: which detectors run when extraction is enabled. */
  datatype ExtractionFlags = ExtractionFlags(
    extractEmails: bool, extractPhones: bool, extractUrls: bool, extractNumbers: bool)

  /** `config.tokenizer`: the options the tokenizer is built with. */
  datatype TokenizerOptions = TokenizerOptions(lowercase: bool, mergeSymbols: bool)

  /** The configuration, as loaded once by the constructor. */
  datatype Config = Config(pipeline: PipelineFlags, extraction: ExtractionFlags, tokenizer: TokenizerOptions)

  /** A pipeline component: the built-in stages by name, and a custom
      component as the function it computes, `None` when it throws. */
  datatype Stage =
    | NormalizeStage
    | CleanStage
    | ExtractStage
    | ExtractEmailsOnlyStage
    | ExtractPhonesOnlyStage
    | ExtractUrlsOnlyStage
    | ExtractNumbersOnlyStage
    | SegmentStage
    | Custom(run: Snapshot -> Option<Snapshot>)

  /** What the stages rely on and this model does not define: the case
      mapping of `normalize`, the `isNumber` test, the `clean` and `segment`
      stages (`None` when they throw), and where each detector raises. */
  datatype Env = Env(
    lower: string -> string,
    isNumber: string -> bool,
    clean: Snapshot -> Option<Snapshot>,
    segment: Snapshot -> Option<Snapshot>,
    faults: Faults)

  /** One stage applied to a result; `None` when the stage throws. The
      built-in normalisation and extraction stages never throw: the
      extraction components catch their detectors' failures. */
  function ApplyStage(env: Env, stage: Stage, s: Snapshot): Option<Snapshot> {
    match stage
    case NormalizeStage => Some(s.(tokens := Lowered(s.tokens, env.lower)))
    case CleanStage => env.clean(s)
    case ExtractStage => Some(s.(entities := Extracted(s.text, s.entities, env.isNumber, env.faults)))
    case ExtractEmailsOnlyStage => Some(s.(entities := AfterEmails(s.text, s.entities, env.faults.email)))
    case ExtractPhonesOnlyStage => Some(s.(entities := AfterPhones(s.text, s.entities, env.faults.phone)))
    case ExtractUrlsOnlyStage => Some(s.(entities := AfterUrls(s.text, s.entities, env.faults.url)))
    case ExtractNumbersOnlyStage => Some(s.(entities := AfterNumbers(s.text, s.entities, env.isNumber, env.faults.number)))
    case SegmentStage => env.segment(s)
    case Custom(run) => run(s)
  }

  /** The stage semantics of `env` as one function. */
  function StepsOf(env: Env): (Stage, Snapshot) -> Option<Snapshot> {
    (stage, s) => ApplyStage(env, stage, s)
  }

  /** The left-to-right run of `stages` from `s` under the stage semantics
      `step`; `None` as soon as a stage throws. */
  function Run(step: (Stage, Snapshot) -> Option<Snapshot>, stages: seq<Stage>, s: Snapshot): Option<Snapshot>
    decreases |stages|
  {
    if stages == [] then Some(s)
    else
      match step(stages[0], s)
      case None => None
      case Some(t) => Run(step, stages[1..], t)
  }

  /** Running `xs + ys` runs `xs`, then `ys` on its result. */
  lemma {:induction false} RunAppend(step: (Stage, Snapshot) -> Option<Snapshot>, xs: seq<Stage>, ys: seq<Stage>, s: Snapshot)
    ensures Run(step, xs + ys, s) == match Run(step, xs, s) case None => None case Some(t) => Run(step, ys, t)
    decreases |xs|
  {
    if xs == [] {
      assert xs + ys == ys;
    } else {
      assert (xs + ys)[1..] == xs[1..] + ys;
      match step(xs[0], s)
      case None =>
      case Some(t) =>
        RunAppend(step, xs[1..], ys, t);
    }
  }

  /** A stage that throws stops the run: no later stage runs and the whole
      run fails. */
  lemma RunFailureAborts(step: (Stage, Snapshot) -> Option<Snapshot>, stages: seq<Stage>, k: nat, s: Snapshot, t: Snapshot)
    requires k < |stages| && Run(step, stages[..k], s) == Some(t) && step(stages[k], t).None?
    ensures Run(step, stages, s).None?
  {
    RunAppend(step, stages[..k], stages[k..], s);
    assert stages[..k] + stages[k..] == stages;
    assert stages[k..][0] == stages[k];
  }

  /** Running one more stage. */
  lemma RunSnoc(step: (Stage, Snapshot) -> Option<Snapshot>, stages: seq<Stage>, k: nat, s: Snapshot)
    requires k < |stages|
    ensures Run(step, stages[..k + 1], s) ==
              match Run(step, stages[..k], s) case None => None case Some(t) => step(stages[k], t)
  {
    assert stages[..k + 1] == stages[..k] + [stages[k]];
    RunAppend(step, stages[..k], [stages[k]], s);
    assert [stages[k]][1..] == [];
  }

  /** The stages defined in this model: normalisation and the extraction
      components, which never throw. */
  predicate BuiltIn(stage: Stage) {
    !(stage.CleanStage? || stage.SegmentStage? || stage.Custom?)
  }

  /** A built-in stage succeeds, keeps the text and the number of tokens,
      and only appends entities. */
  lemma ApplyBuiltIn(env: Env, stage: Stage, s: Snapshot)
    requires BuiltIn(stage)
    ensures ApplyStage(env, stage, s).Some?
    ensures var t := ApplyStage(env, stage, s).value;
      t.text == s.text && |t.tokens| == |s.tokens| && s.entities <= t.entities
  {
    if stage.ExtractStage? {
      ExtractedInOrder(s.text, s.entities, env.isNumber, env.faults);
    }
  }

  /** A run of built-in stages never throws; it keeps the text and the
      number of tokens, and the entities only accumulate. */
  lemma {:induction false} RunBuiltIns(env: Env, stages: seq<Stage>, s: Snapshot)
    requires forall k :: 0 <= k < |stages| ==> BuiltIn(stages[k])
    ensures Run(StepsOf(env), stages, s).Some?
    ensures var t := Run(StepsOf(env), stages, s).value;
      t.text == s.text && |t.tokens| == |s.tokens| && s.entities <= t.entities
    decreases |stages|
  {
    if stages != [] {
      ApplyBuiltIn(env, stages[0], s);
      var t := ApplyStage(env, stages[0], s).value;
      assert StepsOf(env)(stages[0], s) == Some(t);
      RunBuiltIns(env, stages[1..], t);
    }
  }

  /** `stage` when `enabled`, nothing otherwise: one guarded `use` call. */
  function Guarded(enabled: bool, stage: Stage): (r: seq<Stage>)
    ensures |r| <= 1
  {
    if enabled then [stage] else []
  }

  /** The extraction components the constructor registers when extraction
      is enabled (lines 35-40), in order. */
  function ExtractionStages(x: ExtractionFlags): seq<Stage> {
    Guarded(x.extractEmails, ExtractEmailsOnlyStage) + Guarded(x.extractPhones, ExtractPhonesOnlyStage) +
    Guarded(x.extractUrls, ExtractUrlsOnlyStage) + Guarded(x.extractNumbers, ExtractNumbersOnlyStage)
  }

  /** `stages` when `enabled`, nothing otherwise: a guarded block of `use`
      calls. */
  function Gate(enabled: bool, stages: seq<Stage>): seq<Stage> {
    if enabled then stages else []
  }

  /** The stages the constructor registers (lines 32-42), in order. */
  function InitialStages(config: Config): seq<Stage> {
    var p := config.pipeline;
    Guarded(p.enableNormalization, NormalizeStage) + Guarded(p.enableCleaning, CleanStage) +
    Gate(p.enableExtraction, ExtractionStages(config.extraction)) +
    Guarded(p.enableSegmentation, SegmentStage)
  }

  /** The place of a built-in stage in the constructor's order. */
  function Position(stage: Stage): nat {
    match stage
    case NormalizeStage => 0
    case CleanStage => 1
    case ExtractEmailsOnlyStage => 2
    case ExtractPhonesOnlyStage => 3
    case ExtractUrlsOnlyStage => 4
    case ExtractNumbersOnlyStage => 5
    case SegmentStage => 6
    case ExtractStage => 7
    case Custom(_) => 8
  }

  /** Whether the constructor registers `stage` under `config`: a
      built-in stage when its flags ask for it, an extraction component
      only when extraction is enabled too; never the combined `extract`
      or a custom component. */
  predicate Registered(config: Config, stage: Stage) {
    var p, x := config.pipeline, config.extraction;
    match stage
    case NormalizeStage => p.enableNormalization
    case CleanStage => p.enableCleaning
    case ExtractEmailsOnlyStage => p.enableExtraction && x.extractEmails
    case ExtractPhonesOnlyStage => p.enableExtraction && x.extractPhones
    case ExtractUrlsOnlyStage => p.enableExtraction && x.extractUrls
    case ExtractNumbersOnlyStage => p.enableExtraction && x.extractNumbers
    case SegmentStage => p.enableSegmentation
    case ExtractStage => false
    case Custom(_) => false
  }

  /** A one-stage guard holds its stage exactly when enabled. */
  lemma GuardedIn(enabled: bool, stage: Stage, t: Stage)
    ensures t in Guarded(enabled, stage) <==> enabled && t == stage
  {
  }

  /** The constructor registers exactly the stages its flags ask for. */
  lemma InitialStagesGated(config: Config, stage: Stage)
    ensures stage in InitialStages(config) <==> Registered(config, stage)
  {
    var p, x := config.pipeline, config.extraction;
    var e := Gate(p.enableExtraction, ExtractionStages(x));
    assert stage in InitialStages(config) <==>
      stage in Guarded(p.enableNormalization, NormalizeStage) || stage in Guarded(p.enableCleaning, CleanStage) ||
      stage in e || stage in Guarded(p.enableSegmentation, SegmentStage);
    GuardedIn(p.enableNormalization, NormalizeStage, stage);
    GuardedIn(p.enableCleaning, CleanStage, stage);
    GuardedIn(p.enableSegmentation, SegmentStage, stage);
    ExtractionStagesIn(x, stage);
    assert stage in e <==> p.enableExtraction && stage in ExtractionStages(x);
  }

  /** The extraction block holds a component exactly when its flag is set. */
  lemma ExtractionStagesIn(x: ExtractionFlags, stage: Stage)
    ensures stage in ExtractionStages(x) <==>
      || (stage == ExtractEmailsOnlyStage && x.extractEmails)
      || (stage == ExtractPhonesOnlyStage && x.extractPhones)
      || (stage == ExtractUrlsOnlyStage && x.extractUrls)
      || (stage == ExtractNumbersOnlyStage && x.extractNumbers)
  {
    GuardedIn(x.extractEmails, ExtractEmailsOnlyStage, stage);
    GuardedIn(x.extractPhones, ExtractPhonesOnlyStage, stage);
    GuardedIn(x.extractUrls, ExtractUrlsOnlyStage, stage);
    GuardedIn(x.extractNumbers, ExtractNumbersOnlyStage, stage);
  }

  /** Positions strictly ascend along `stages`. */
  predicate Ascending(stages: seq<Stage>) {
    forall a, b :: 0 <= a < b < |stages| ==> Position(stages[a]) < Position(stages[b])
  }

  /** A one-stage guard is ascending and sits at its stage's position. */
  lemma GuardedAscending(enabled: bool, stage: Stage)
    ensures Ascending(Guarded(enabled, stage)) && Within(Guarded(enabled, stage), Position(stage), Position(stage))
  {
  }

  /** Four ascending blocks over consecutive position ranges ascend
      together. */
  lemma FourBlocksAscending(w: seq<Stage>, x: seq<Stage>, y: seq<Stage>, z: seq<Stage>,
                            lo: nat, p1: nat, p2: nat, p3: nat, hi: nat)
    requires lo <= p1 < p2 < p3 < hi
    requires Ascending(w) && Ascending(x) && Ascending(y) && Ascending(z)
    requires Within(w, lo, p1) && Within(x, p1 + 1, p2) && Within(y, p2 + 1, p3) && Within(z, p3 + 1, hi)
    ensures Ascending(w + x + y + z) && Within(w + x + y + z, lo, hi)
  {
    AscendingAppend(w, x, lo, p1, p2);
    AscendingAppend(w + x, y, lo, p2, p3);
    AscendingAppend(w + x + y, z, lo, p3, hi);
  }

  /** The extraction components come in detector order. */
  lemma ExtractionStagesOrdered(x: ExtractionFlags)
    ensures Ascending(ExtractionStages(x)) && Within(ExtractionStages(x), 2, 5)
  {
    GuardedAscending(x.extractEmails, ExtractEmailsOnlyStage);
    GuardedAscending(x.extractPhones, ExtractPhonesOnlyStage);
    GuardedAscending(x.extractUrls, ExtractUrlsOnlyStage);
    GuardedAscending(x.extractNumbers, ExtractNumbersOnlyStage);
    FourBlocksAscending(Guarded(x.extractEmails, ExtractEmailsOnlyStage), Guarded(x.extractPhones, ExtractPhonesOnlyStage),
                        Guarded(x.extractUrls, ExtractUrlsOnlyStage), Guarded(x.extractNumbers, ExtractNumbersOnlyStage),
                        2, 2, 3, 4, 5);
  }

  /** A gated block keeps the order and range of its stages. */
  lemma GateAscending(enabled: bool, stages: seq<Stage>, lo: nat, hi: nat)
    requires Ascending(stages) && Within(stages, lo, hi)
    ensures Ascending(Gate(enabled, stages)) && Within(Gate(enabled, stages), lo, hi)
  {
  }

  /** The constructor registers its stages in a fixed order: normalisation,
      cleaning, emails, phones, URLs, numbers, segmentation. */
  lemma InitialStagesOrdered(config: Config)
    ensures Ascending(InitialStages(config))
  {
    var p := config.pipeline;
    assert Position(NormalizeStage) == 0 && Position(CleanStage) == 1 && Position(SegmentStage) == 6;
    hide *;
    GuardedAscending(p.enableNormalization, NormalizeStage);
    GuardedAscending(p.enableCleaning, CleanStage);
    GuardedAscending(p.enableSegmentation, SegmentStage);
    ExtractionStagesOrdered(config.extraction);
    GateAscending(p.enableExtraction, ExtractionStages(config.extraction), 2, 5);
    FourBlocksAscending(Guarded(p.enableNormalization, NormalizeStage), Guarded(p.enableCleaning, CleanStage),
                        Gate(p.enableExtraction, ExtractionStages(config.extraction)),
                        Guarded(p.enableSegmentation, SegmentStage), 0, 0, 1, 5, 6);
    InitialStagesAppended(config);
  }

  /** The constructor registers no stage twice. */
  lemma InitialStagesOnce(config: Config)
    ensures forall a, b :: 0 <= a < b < |InitialStages(config)| ==> InitialStages(config)[a] != InitialStages(config)[b]
  {
    InitialStagesOrdered(config);
    AscendingDistinct(InitialStages(config));
  }

  /** An ascending list holds no stage twice. */
  lemma AscendingDistinct(stages: seq<Stage>)
    requires Ascending(stages)
    ensures forall a, b :: 0 <= a < b < |stages| ==> stages[a] != stages[b]
  {
    forall a, b | 0 <= a < b < |stages| ensures stages[a] != stages[b] {
      assert Position(stages[a]) < Position(stages[b]);
    }
  }

  /** Every position along `stages` lies in `lo..hi`. */
  predicate Within(stages: seq<Stage>, lo: nat, hi: nat) {
    forall a :: 0 <= a < |stages| ==> lo <= Position(stages[a]) <= hi
  }

  /** Two ascending lists, all of the first before all of the second,
      ascend together. */
  lemma AscendingAppend(xs: seq<Stage>, ys: seq<Stage>, lo: nat, mid: nat, hi: nat)
    requires lo <= mid < hi
    requires Ascending(xs) && Ascending(ys) && Within(xs, lo, mid) && Within(ys, mid + 1, hi)
    ensures Ascending(xs + ys) && Within(xs + ys, lo, hi)
  {
    forall a, b | 0 <= a < b < |xs + ys|
      ensures Position((xs + ys)[a]) < Position((xs + ys)[b])
    {
      if b < |xs| {
        assert (xs + ys)[a] == xs[a] && (xs + ys)[b] == xs[b];
      } else if a < |xs| {
        assert (xs + ys)[a] == xs[a] && (xs + ys)[b] == ys[b - |xs|];
      } else {
        assert (xs + ys)[a] == ys[a - |xs|] && (xs + ys)[b] == ys[b - |xs|];
      }
    }
    forall a | 0 <= a < |xs + ys| ensures lo <= Position((xs + ys)[a]) <= hi {
      if a < |xs| {
        assert (xs + ys)[a] == xs[a];
      } else {
        assert (xs + ys)[a] == ys[a - |xs|];
      }
    }
  }


  /** The extraction block of `use` calls, appended to `before`. */
  lemma ExtractionStagesAppended(before: seq<Stage>, x: ExtractionFlags)
    ensures before + Guarded(x.extractEmails, ExtractEmailsOnlyStage) + Guarded(x.extractPhones, ExtractPhonesOnlyStage)
              + Guarded(x.extractUrls, ExtractUrlsOnlyStage) + Guarded(x.extractNumbers, ExtractNumbersOnlyStage)
            == before + ExtractionStages(x)
  {
  }

  /** A block run when `enabled` appends its gate. */
  lemma GateAppended(before: seq<Stage>, enabled: bool, stages: seq<Stage>, after: seq<Stage>)
    requires if enabled then after == before + stages else after == before
    ensures after == before + Gate(enabled, stages)
  {
  }

  /** The constructor's `use` calls, one block after the other, append
      `InitialStages` to the empty list. */
  lemma InitialStagesAppended(config: Config)
    ensures var p := config.pipeline;
      var blocks := Guarded(p.enableNormalization, NormalizeStage) + Guarded(p.enableCleaning, CleanStage)
         + Gate(p.enableExtraction, ExtractionStages(config.extraction)) + Guarded(p.enableSegmentation, SegmentStage);
      blocks == InitialStages(config) &&
      [] + Guarded(p.enableNormalization, NormalizeStage) + Guarded(p.enableCleaning, CleanStage)
         + Gate(p.enableExtraction, ExtractionStages(config.extraction)) + Guarded(p.enableSegmentation, SegmentStage)
      == InitialStages(config)
  {
    assert [] + Guarded(config.pipeline.enableNormalization, NormalizeStage) == Guarded(config.pipeline.enableNormalization, NormalizeStage);
  }

  /** The result `process` starts from (lines 51-56). */
  function Initial(text: string, tokenize: string -> seq<Token>): (s: Snapshot)
    ensures s.text == text && s.entities == []
  {
    Snapshot(text, tokenize(text), [])
  }

  /** Runs one stage on the shared result object: the built-in stages work
      on it in place and return it; the abstract ones (`clean`, `segment`,
      custom components) produce a new object, or throw. */
  method RunStage(env: Env, stage: Stage, input: IntentResult) returns (output: Option<IntentResult>)
    modifies input, input.tokens
    ensures output.Some? <==> ApplyStage(env, stage, old(input.View())).Some?
    ensures output.Some? ==> output.value.View() == ApplyStage(env, stage, old(input.View())).value
    ensures output.Some? ==> output.value == input || (fresh(output.value) && fresh(output.value.tokens))
    ensures output.Some? ==> output.value.tokens == input.tokens || fresh(output.value.tokens)
  {
    match stage
    case NormalizeStage =>
      var r := Normalize(input, env.lower);
      output := Some(r);
    case ExtractStage =>
      var r := Extract(input, env.isNumber, env.faults);
      output := Some(r);
    case ExtractEmailsOnlyStage =>
      var r := ExtractEmailsOnly(input, env.faults.email);
      output := Some(r);
    case ExtractPhonesOnlyStage =>
      var r := ExtractPhonesOnly(input, env.faults.phone);
      output := Some(r);
    case ExtractUrlsOnlyStage =>
      var r := ExtractUrlsOnly(input, env.faults.url);
      output := Some(r);
    case ExtractNumbersOnlyStage =>
      var r := ExtractNumbersOnly(input, env.isNumber, env.faults.number);
      output := Some(r);
    case CleanStage =>
      output := Rebuild(env.clean(input.View()));
    case SegmentStage =>
      output := Rebuild(env.segment(input.View()));
    case Custom(run) =>
      output := Rebuild(run(input.View()));
  }

  /** The object an abstract stage returns, built from its value. */
  method Rebuild(s: Option<Snapshot>) returns (output: Option<IntentResult>)
    ensures output.Some? <==> s.Some?
    ensures output.Some? ==> fresh(output.value) && fresh(output.value.tokens) && output.value.View() == s.value
  {
    if s.None? {
      return None;
    }
    var r := new IntentResult(s.value.text, s.value.tokens, s.value.entities);
    return Some(r);
  }

  /** `Pipeline`: the configuration and tokenizer are fixed at
      construction; the component list grows by appends only. */
  class Pipeline {
    const config: Config
    const tokenize: string -> seq<Token>
    var components: seq<Stage>

    /** The constructor (lines 23-43). The configuration loaded from
        `configPath` is given; the tokenizer is the one `tokenizerFor`
        builds from the configuration's tokenizer options. */
    constructor (config: Config, tokenizerFor: TokenizerOptions -> (string -> seq<Token>))
      ensures this.config == config && tokenize == tokenizerFor(config.tokenizer)
      ensures components == InitialStages(config)
    {
      this.config := config;
      tokenize := tokenizerFor(config.tokenizer);
      components := [];
      new;
      hide *;
      var p, x := config.pipeline, config.extraction;
      UseIf(p.enableNormalization, NormalizeStage);
      UseIf(p.enableCleaning, CleanStage);
      ghost var before := components;
      if p.enableExtraction {
        UseIf(x.extractEmails, ExtractEmailsOnlyStage);
        UseIf(x.extractPhones, ExtractPhonesOnlyStage);
        UseIf(x.extractUrls, ExtractUrlsOnlyStage);
        UseIf(x.extractNumbers, ExtractNumbersOnlyStage);
        ExtractionStagesAppended(before, x);
      }
      GateAppended(before, p.enableExtraction, ExtractionStages(x), components);
      UseIf(p.enableSegmentation, SegmentStage);
      InitialStagesAppended(config);
    }

    /** One guarded registration of the constructor: `use(stage)` when
        `enabled`. */
    method UseIf(enabled: bool, stage: Stage)
      modifies this
      ensures components == old(components) + Guarded(enabled, stage)
    {
      if enabled {
        var _ := Use(stage);
      }
    }

    /** `use` (lines 45-48): appends one component and returns the same
        pipeline. */
    method Use(component: Stage) returns (self: Pipeline)
      modifies this
      ensures self == this
      ensures components == old(components) + [component]
    {
      components := components + [component];
      return this;
    }

    /** `addCustomProcessor` (lines 69-72): the same append as `use`. */
    method AddCustomProcessor(component: Stage) returns (self: Pipeline)
      modifies this
      ensures self == this
      ensures components == old(components) + [component]
    {
      components := components + [component];
      return this;
    }

    /** `getConfig` (lines 65-67): the configuration given at construction. */
    function GetConfig(): Config {
      config
    }

    /** `process` (lines 50-63): the stages in order over the tokenized
        text; `None` when a stage throws, which `process` does not catch. */
    method Process(text: string, env: Env) returns (result: Option<IntentResult>)
      ensures result.Some? <==> Run(StepsOf(env), components, Initial(text, tokenize)).Some?
      ensures result.Some? ==> result.value.View() == Run(StepsOf(env), components, Initial(text, tokenize)).value
    {
      var tokens := tokenize(text);
      var current := new IntentResult(text, tokens, []);
      ghost var start := Initial(text, tokenize);
      for k := 0 to |components|
        invariant fresh(current) && fresh(current.tokens)
        invariant Run(StepsOf(env), components[..k], start) == Some(current.View())
      {
        RunSnoc(StepsOf(env), components, k, start);
        ghost var before := current.View();
        var next := RunStage(env, components[k], current);
        if next.None? {
          RunFailureAborts(StepsOf(env), components, k, start, before);
          return None;
        }
        current := next.value;
      }
      assert components[..|components|] == components;
      return Some(current);
    }
  }
}
