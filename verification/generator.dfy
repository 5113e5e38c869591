/** `CollageGenerator`: parameter validation and the order in which
    `generate` validates, builds the builder configuration, the client and the
    builder, and asks the builder to create the collage. */
module Generator {

  import opened Results
  import opened Tiles
  import opened Collage

  const MaxCols: int := 5
  const MaxRows: int := 5

  /** The accepted entity and period names (`ENTITIES`, `PERIODS`). Their
      contents are not part of this model. */
  datatype Options = Options(entities: set<string>, periods: set<string>)

  /** The three `ValueError`s `_validate_parameters` can raise. */
  datatype ValidationError =
    | InvalidEntityName(entity: string)
    | InvalidGrid(cols: int, rows: int)
    | InvalidPeriod(period: string)

  /** What a call is accepted with: a known entity and period and at most
      five columns and rows.  There is no lower bound on either count. */
  predicate Acceptable(opts: Options, entity: string, cols: int, rows: int, period: string)
  {
    entity in opts.entities && cols <= MaxCols && rows <= MaxRows && period in opts.periods
  }

  /** `_validate_parameters`: the entity is checked first, then the grid
      size, then the period; the first failing check raises. */
  function ValidateParameters(opts: Options, entity: string, cols: int, rows: int, period: string)
    : (r: Outcome<ValidationError>)
    ensures r == Pass <==> Acceptable(opts, entity, cols, rows, period)
    ensures r == Fail(InvalidEntityName(entity)) <==> entity !in opts.entities
    ensures r == Fail(InvalidGrid(cols, rows)) <==>
      entity in opts.entities && (cols > MaxCols || rows > MaxRows)
    ensures r == Fail(InvalidPeriod(period)) <==>
      entity in opts.entities && cols <= MaxCols && rows <= MaxRows && period !in opts.periods
  {
    if entity !in opts.entities then Fail(InvalidEntityName(entity))
    else if cols > MaxCols || rows > MaxRows then Fail(InvalidGrid(cols, rows))
    else if period !in opts.periods then Fail(InvalidPeriod(period))
    else Pass
  }

  /** `_get_collage_builder`'s configuration: `show_playcount` is not passed,
      so it keeps its default. */
  function DefaultBuilderConfig(cols: int, rows: int, period: string): (c: BuilderConfig)
    ensures c.showPlaycount
    ensures c.cols == cols && c.rows == rows && c.period == period
  {
    BuilderConfig(cols, rows, period, true)
  }

  /** The side effects of `generate`, in the order they happen. */
  datatype Step =
    | ConfigBuilt(config: BuilderConfig)
    | ClientBuilt
    | BuilderBuilt(kind: BuilderKind)
    | TopItemsRequested(kind: BuilderKind, username: string, limit: int, period: string)

  /** Why `generate` raised before any collage was made. */
  datatype GenerateError = Rejected(invalid: ValidationError) | NoBuilder(unknown: FactoryError)

  /** A run of `generate` up to the request for the top items: the steps
      taken, and the builder that goes on to create the collage or the error
      raised. */
  datatype Run = Run(steps: seq<Step>, outcome: Result<Builder, GenerateError>)

  /** `generate` up to `create`: validation, then configuration, client,
      factory and the top-items request of `cols * rows` items. */
  function Generate(opts: Options, entity: string, username: string, cols: int, rows: int, period: string)
    : (run: Run)
    ensures run.outcome.Failure? && run.outcome.error.Rejected? <==>
      !Acceptable(opts, entity, cols, rows, period)
    ensures run.outcome.Failure? && run.outcome.error.Rejected? ==>
      ValidateParameters(opts, entity, cols, rows, period) == Fail(run.outcome.error.invalid)
    ensures !Acceptable(opts, entity, cols, rows, period) ==> run.steps == []
    ensures run.steps != [] ==> run.steps[0] == ConfigBuilt(DefaultBuilderConfig(cols, rows, period))
    ensures run.outcome.Success? ==>
      && run.outcome.value.config == DefaultBuilderConfig(cols, rows, period)
      && EntityOf(run.outcome.value.kind) == entity
      && run.steps == [ConfigBuilt(run.outcome.value.config), ClientBuilt, BuilderBuilt(run.outcome.value.kind),
                       TopItemsRequested(run.outcome.value.kind, username, cols * rows, period)]
    ensures run.outcome.Failure? && run.outcome.error.NoBuilder? <==>
      Acceptable(opts, entity, cols, rows, period) && entity !in {EntityArtist, EntityAlbum, EntityTrack}
    ensures run.outcome.Failure? && run.outcome.error.NoBuilder? ==>
      run.steps == [ConfigBuilt(DefaultBuilderConfig(cols, rows, period)), ClientBuilt]
  {
    match ValidateParameters(opts, entity, cols, rows, period)
    case Fail(e) => Run([], Failure(Rejected(e)))
    case Pass =>
      var config := DefaultBuilderConfig(cols, rows, period);
      var prefix := [ConfigBuilt(config), ClientBuilt];
      match NewBuilder(entity, config)
      case Failure(e) => Run(prefix, Failure(NoBuilder(e)))
      case Success(b) =>
        Run(prefix + [BuilderBuilt(b.kind), TopItemsRequested(b.kind, username, cols * rows, period)], Success(b))
  }

  /** Validation happens before anything else: a run that takes any step at
      all was validated, and a rejected run takes none. */
  lemma ValidationComesFirst(opts: Options, entity: string, username: string, cols: int, rows: int, period: string)
    ensures var run := Generate(opts, entity, username, cols, rows, period);
      && (run.steps != [] <==> ValidateParameters(opts, entity, cols, rows, period) == Pass)
      && (forall i :: 0 <= i < |run.steps| && run.steps[i].BuilderBuilt? ==>
            exists j :: 0 <= j < i && run.steps[j] == ClientBuilt)
  {
    var run := Generate(opts, entity, username, cols, rows, period);
    if run.steps != [] {
      assert run.steps[1] == ClientBuilt;
    }
  }
}
