/** The table storage-parameter setter
    (pkg/sql/storageparam/tablestorageparam/table_storage_param.go):
    `ALTER TABLE ... SET (key = value)` and `RESET (key)` dispatch on the
    parameter name to a handler that creates, clears or updates the table
    descriptor's row-level TTL record, its auto-stats settings and its
    exclude-data-from-backup flag.

    The pure part below states what each handler does to a snapshot of
    the descriptor; the classes at the end do the same updates in place
    and are proved to agree with it. */
module TableStorageParam {
  import opened Wrappers

  // ---------------------------------------------------------------------
  // Values

  /** A parameter value, already parsed: the model does not parse text, so
      a string that the source would read as a bool, an integer or an
      interval is given here as that bool, integer or interval. Intervals
      and durations are given as their length in nanoseconds. */
  datatype Datum =
    | DBool(b: bool)
    | DInt(i: int)
    | DFloat(f: real)
    | DString(s: string)
    | DInterval(nanos: int)

  /** The serialised TTL expiration expression; empty until
      ttl_expire_after is set. The text of a serialised interval is
      represented by the interval itself. */
  datatype Expr = EmptyExpr | IntervalExpr(nanos: int)

  /** catpb.RowLevelTTL, restricted to the fields this setter touches. */
  datatype RowLevelTTL = RowLevelTTL(
    durationExpr: Expr,
    selectBatchSize: int,
    deleteBatchSize: int,
    rangeConcurrency: int,
    deleteRateLimit: int,
    labelMetrics: bool,
    deletionCron: string,
    pause: bool,
    rowStatsPollInterval: int)

  /** The zero value, &catpb.RowLevelTTL{}. */
  const EmptyTTL := RowLevelTTL(EmptyExpr, 0, 0, 0, 0, false, "", false, 0)

  /** catpb.AutoStatsSettings: three optional (pointer) fields. */
  datatype AutoStatsSettings = AutoStatsSettings(
    enabled: Option<bool>,
    minStaleRows: Option<int>,
    fractionStaleRows: Option<real>)

  const EmptyAutoStats := AutoStatsSettings(None, None, None)

  /** What the setter reads and writes: the descriptor's fields and the
      setter's own setAutomaticColumn flag. */
  datatype State = State(
    ttl: Option<RowLevelTTL>,
    autoStats: Option<AutoStatsSettings>,
    excludeDataFromBackup: bool,
    temporary: bool,
    inboundFKs: nat,
    mutations: nat,
    automaticColumn: bool)

  datatype Error =
    | PendingSchemaChange             // a ttl_ key while mutations are pending
    | InvalidParameter(key: string)   // no handler registered for the key
    | Unimplemented(issue: nat)       // a recognised but unsupported operation
    | BadValue(key: string)           // the value has the wrong type
    | NotAnInterval(key: string)
    | NegativeInterval(key: string)
    | ResetExpireAfterForbidden
    | InvalidSetting(key: string)     // a validator rejected the value
    | TemporaryTable
    | InboundForeignKeys
    | UnableToReset(key: string)
    | ExpireAfterRequired
    | InvalidTTL

  /** The result of a handler: its error, if any, and the new state. */
  datatype Outcome = Outcome(err: Option<Error>, state: State)

  /** The tabledesc and storageparam validators, whose rules are not part of
      this model: each accepts or rejects a value. */
  datatype Validators = Validators(
    fillFactor: Datum -> bool,
    batchSize: int -> bool,
    rangeConcurrency: int -> bool,
    rateLimit: int -> bool,
    cronExpr: string -> bool,
    rowStatsPollInterval: int -> bool,
    rowLevelTTL: Option<RowLevelTTL> -> bool)

  // ---------------------------------------------------------------------
  // Datum readers (boolFromDatum, intFromDatum and the paramparse helpers)

  function BoolFromDatum(key: string, d: Datum): (r: Result<bool, Error>)
    ensures r.Ok? <==> d.DBool?
    ensures r.Ok? ==> r.value == d.b
  {
    if d.DBool? then Ok(d.b) else Err(BadValue(key))
  }

  function IntFromDatum(key: string, d: Datum): (r: Result<int, Error>)
    ensures r.Ok? <==> d.DInt?
    ensures r.Ok? ==> r.value == d.i
  {
    if d.DInt? then Ok(d.i) else Err(BadValue(key))
  }

  function FloatFromDatum(key: string, d: Datum): (r: Result<real, Error>)
    ensures r.Ok? <==> d.DFloat?
    ensures r.Ok? ==> r.value == d.f
  {
    if d.DFloat? then Ok(d.f) else Err(BadValue(key))
  }

  function StringFromDatum(key: string, d: Datum): (r: Result<string, Error>)
    ensures r.Ok? <==> d.DString?
    ensures r.Ok? ==> r.value == d.s
  {
    if d.DString? then Ok(d.s) else Err(BadValue(key))
  }

  function DurationFromDatum(key: string, d: Datum): (r: Result<int, Error>)
    ensures r.Ok? <==> d.DInterval?
    ensures r.Ok? ==> r.value == d.nanos
  {
    if d.DInterval? then Ok(d.nanos) else Err(BadValue(key))
  }

  // ---------------------------------------------------------------------
  // Parameter names and the handler registry

  const KeyFillFactor := "fillfactor"
  const KeyAutovacuumEnabled := "autovacuum_enabled"
  const KeyTtl := "ttl"
  const KeyTtlAutomaticColumn := "ttl_automatic_column"
  const KeyTtlExpireAfter := "ttl_expire_after"
  const KeyTtlSelectBatchSize := "ttl_select_batch_size"
  const KeyTtlDeleteBatchSize := "ttl_delete_batch_size"
  const KeyTtlRangeConcurrency := "ttl_range_concurrency"
  const KeyTtlDeleteRateLimit := "ttl_delete_rate_limit"
  const KeyTtlLabelMetrics := "ttl_label_metrics"
  const KeyTtlJobCron := "ttl_job_cron"
  const KeyTtlPause := "ttl_pause"
  const KeyTtlRowStatsPollInterval := "ttl_row_stats_poll_interval"
  const KeyExcludeDataFromBackup := "exclude_data_from_backup"
  /** The catpb auto-stats table setting names. */
  const KeyAutoStatsEnabled := "sql_stats_automatic_collection_enabled"
  const KeyAutoStatsMinStale := "sql_stats_automatic_collection_min_stale_rows"
  const KeyAutoStatsFractionStale := "sql_stats_automatic_collection_fraction_stale_rows"

  /** The PostgreSQL parameters that are recognised but not implemented. */
  const UnimplementedParams: seq<string> := [
    "toast_tuple_target",
    "parallel_workers",
    "toast.autovacuum_enabled",
    "autovacuum_vacuum_threshold",
    "toast.autovacuum_vacuum_threshold",
    "autovacuum_vacuum_scale_factor",
    "toast.autovacuum_vacuum_scale_factor",
    "autovacuum_analyze_threshold",
    "autovacuum_analyze_scale_factor",
    "autovacuum_vacuum_cost_delay",
    "toast.autovacuum_vacuum_cost_delay",
    "autovacuum_vacuum_cost_limit",
    "autovacuum_freeze_min_age",
    "toast.autovacuum_freeze_min_age",
    "autovacuum_freeze_max_age",
    "toast.autovacuum_freeze_max_age",
    "autovacuum_freeze_table_age",
    "toast.autovacuum_freeze_table_age",
    "autovacuum_multixact_freeze_min_age",
    "toast.autovacuum_multixact_freeze_min_age",
    "autovacuum_multixact_freeze_max_age",
    "toast.autovacuum_multixact_freeze_max_age",
    "autovacuum_multixact_freeze_table_age",
    "toast.autovacuum_multixact_freeze_table_age",
    "log_autovacuum_min_duration",
    "toast.log_autovacuum_min_duration",
    "user_catalog_table"]

  /** The four integer fields of the TTL record that share one handler shape. */
  datatype TtlIntField = SelectBatchSize | DeleteBatchSize | RangeConcurrency | DeleteRateLimit

  /** The tableParam entries: which onSet/onReset pair a key dispatches to. */
  datatype Handler =
    | FillFactor
    | AutovacuumEnabled
    | Ttl
    | TtlAutomaticColumn
    | TtlExpireAfter
    | TtlInt(field: TtlIntField)
    | TtlLabelMetrics
    | TtlJobCron
    | TtlPause
    | TtlRowStatsPollInterval
    | ExcludeDataFromBackup
    | AutoStatsEnabled
    | AutoStatsMinStale
    | AutoStatsFractionStale
    | NotImplemented

  /** The statically declared entries of tableParams. */
  function DeclaredParams(): map<string, Handler> {
    map[
      KeyFillFactor := FillFactor,
      KeyAutovacuumEnabled := AutovacuumEnabled,
      KeyTtl := Ttl,
      KeyTtlAutomaticColumn := TtlAutomaticColumn,
      KeyTtlExpireAfter := TtlExpireAfter,
      KeyTtlSelectBatchSize := TtlInt(SelectBatchSize),
      KeyTtlDeleteBatchSize := TtlInt(DeleteBatchSize),
      KeyTtlRangeConcurrency := TtlInt(RangeConcurrency),
      KeyTtlDeleteRateLimit := TtlInt(DeleteRateLimit),
      KeyTtlLabelMetrics := TtlLabelMetrics,
      KeyTtlJobCron := TtlJobCron,
      KeyTtlPause := TtlPause,
      KeyTtlRowStatsPollInterval := TtlRowStatsPollInterval,
      KeyExcludeDataFromBackup := ExcludeDataFromBackup,
      KeyAutoStatsEnabled := AutoStatsEnabled,
      KeyAutoStatsMinStale := AutoStatsMinStale,
      KeyAutoStatsFractionStale := AutoStatsFractionStale]
  }

  /** tableParams once init has run: the declared entries, with every
      unimplemented parameter registered (over any declared entry of the
      same name) to the NotImplemented handler. */
  function TableParams(): map<string, Handler> {
    DeclaredParams() + map p | p in UnimplementedParams :: NotImplemented
  }

  /** init: registers each name of params, in order, as not implemented. */
  method RegisterUnimplemented(declared: map<string, Handler>, params: seq<string>)
    returns (m: map<string, Handler>)
    ensures m.Keys == declared.Keys + (set p | p in params)
    ensures forall k | k in m :: m[k] == if k in params then NotImplemented else declared[k]
  {
    m := declared;
    var i := 0;
    while i < |params|
      invariant 0 <= i <= |params|
      invariant m.Keys == declared.Keys + (set p | p in params[..i])
      invariant forall k | k in m :: m[k] == if k in params[..i] then NotImplemented else declared[k]
    {
      assert params[..i + 1] == params[..i] + [params[i]];
      m := m[params[i] := NotImplemented];
      i := i + 1;
    }
    assert params[..i] == params;
  }

  /** The package's tableParams map is what init leaves behind. */
  method InitTableParams() returns (m: map<string, Handler>)
    ensures m == TableParams()
  {
    m := RegisterUnimplemented(DeclaredParams(), UnimplementedParams);
  }

  // ---------------------------------------------------------------------
  // The handlers, as functions of the state

  /** strings.HasPrefix(key, "ttl_"): the keys the pending-mutation guard covers. */
  predicate IsTtlSubKey(key: string) {
    |key| >= 4 && key[0] == 't' && key[1] == 't' && key[2] == 'l' && key[3] == '_'
  }

  /** Set and Reset refuse ttl_ keys while the table has pending mutations. */
  predicate Guarded(key: string, s: State) {
    IsTtlSubKey(key) && s.mutations > 0
  }

  function IntField(t: RowLevelTTL, f: TtlIntField): int {
    match f
    case SelectBatchSize => t.selectBatchSize
    case DeleteBatchSize => t.deleteBatchSize
    case RangeConcurrency => t.rangeConcurrency
    case DeleteRateLimit => t.deleteRateLimit
  }

  function WithIntField(t: RowLevelTTL, f: TtlIntField, v: int): (r: RowLevelTTL)
    ensures IntField(r, f) == v
    ensures forall g | g != f :: IntField(r, g) == IntField(t, g)
    ensures r.(selectBatchSize := 0, deleteBatchSize := 0, rangeConcurrency := 0, deleteRateLimit := 0)
         == t.(selectBatchSize := 0, deleteBatchSize := 0, rangeConcurrency := 0, deleteRateLimit := 0)
  {
    match f
    case SelectBatchSize => t.(selectBatchSize := v)
    case DeleteBatchSize => t.(deleteBatchSize := v)
    case RangeConcurrency => t.(rangeConcurrency := v)
    case DeleteRateLimit => t.(deleteRateLimit := v)
  }

  /** The validator each integer TTL field is checked with. */
  function IntValidator(f: TtlIntField, v: Validators): int -> bool {
    match f
    case SelectBatchSize => v.batchSize
    case DeleteBatchSize => v.batchSize
    case RangeConcurrency => v.rangeConcurrency
    case DeleteRateLimit => v.rateLimit
  }

  /** The TTL record, created empty if absent (the handlers' first step). */
  function EnsureTTL(s: State): (r: State)
    ensures r.ttl.Some? && r == s.(ttl := r.ttl)
    ensures s.ttl.Some? ==> r == s
    ensures s.ttl.None? ==> r.ttl == Some(EmptyTTL)
  {
    if s.ttl.None? then s.(ttl := Some(EmptyTTL)) else s
  }

  /** The auto-stats record, created empty if absent. */
  function EnsureAutoStats(s: State): (r: State)
    ensures r.autoStats.Some? && r == s.(autoStats := r.autoStats)
    ensures s.autoStats.Some? ==> r == s
    ensures s.autoStats.None? ==> r.autoStats == Some(EmptyAutoStats)
  {
    if s.autoStats.None? then s.(autoStats := Some(EmptyAutoStats)) else s
  }

  /** settings.NonNegativeInt and settings.NonNegativeFloat. */
  predicate NonNegativeInt(v: int) { v >= 0 }
  predicate NonNegativeFloat(v: real) { v >= 0.0 }

  /** onSet of each handler. */
  function OnSet(h: Handler, key: string, d: Datum, s: State, v: Validators): Outcome {
    match h
    case FillFactor =>
      Outcome(if v.fillFactor(d) then None else Some(InvalidSetting(key)), s)
    case AutovacuumEnabled =>
      var b := BoolFromDatum(key, d);
      Outcome(if b.Err? then Some(b.error) else None, s)
    case Ttl =>
      var b := BoolFromDatum(key, d);
      if b.Err? then Outcome(Some(b.error), s)
      else if b.value then Outcome(None, EnsureTTL(s))
      else Outcome(None, s.(ttl := None))
    case TtlAutomaticColumn =>
      var b := BoolFromDatum(key, d);
      if b.Err? then Outcome(Some(b.error), s)
      else if b.value then Outcome(None, s.(automaticColumn := true))
      else Outcome(if s.ttl.Some? then Some(Unimplemented(76916)) else None, s)
    case TtlExpireAfter =>
      if !d.DInterval? then Outcome(Some(NotAnInterval(key)), s)
      else if d.nanos < 0 then Outcome(Some(NegativeInterval(key)), s)
      else
        var s1 := EnsureTTL(s);
        Outcome(None, s1.(ttl := Some(s1.ttl.value.(durationExpr := IntervalExpr(d.nanos)))))
    case TtlInt(f) =>
      var s1 := EnsureTTL(s);
      var n := IntFromDatum(key, d);
      if n.Err? then Outcome(Some(n.error), s1)
      else if !IntValidator(f, v)(n.value) then Outcome(Some(InvalidSetting(key)), s1)
      else Outcome(None, s1.(ttl := Some(WithIntField(s1.ttl.value, f, n.value))))
    case TtlLabelMetrics =>
      var s1 := EnsureTTL(s);
      var b := BoolFromDatum(key, d);
      if b.Err? then Outcome(Some(b.error), s1)
      else Outcome(None, s1.(ttl := Some(s1.ttl.value.(labelMetrics := b.value))))
    case TtlJobCron =>
      var s1 := EnsureTTL(s);
      var c := StringFromDatum(key, d);
      if c.Err? then Outcome(Some(c.error), s1)
      else if !v.cronExpr(c.value) then Outcome(Some(InvalidSetting(key)), s1)
      else Outcome(None, s1.(ttl := Some(s1.ttl.value.(deletionCron := c.value))))
    case TtlPause =>
      var b := BoolFromDatum(key, d);
      if b.Err? then Outcome(Some(b.error), s)
      else
        var s1 := EnsureTTL(s);
        Outcome(None, s1.(ttl := Some(s1.ttl.value.(pause := b.value))))
    case TtlRowStatsPollInterval =>
      var p := DurationFromDatum(key, d);
      if p.Err? then Outcome(Some(p.error), s)
      else
        var s1 := EnsureTTL(s);
        if !v.rowStatsPollInterval(p.value) then Outcome(Some(InvalidSetting(key)), s1)
        else Outcome(None, s1.(ttl := Some(s1.ttl.value.(rowStatsPollInterval := p.value))))
    case ExcludeDataFromBackup =>
      if s.temporary then Outcome(Some(TemporaryTable), s)
      else if s.inboundFKs != 0 then Outcome(Some(InboundForeignKeys), s)
      else
        var b := BoolFromDatum(key, d);
        if b.Err? then Outcome(Some(b.error), s)
        else Outcome(None, s.(excludeDataFromBackup := b.value))
    case AutoStatsEnabled =>
      var b := BoolFromDatum(key, d);
      if b.Err? then Outcome(Some(b.error), s)
      else
        var s1 := EnsureAutoStats(s);
        Outcome(None, s1.(autoStats := Some(s1.autoStats.value.(enabled := Some(b.value)))))
    case AutoStatsMinStale =>
      var n := IntFromDatum(key, d);
      if n.Err? then Outcome(Some(n.error), s)
      else
        var s1 := EnsureAutoStats(s);
        if !NonNegativeInt(n.value) then Outcome(Some(InvalidSetting(key)), s1)
        else Outcome(None, s1.(autoStats := Some(s1.autoStats.value.(minStaleRows := Some(n.value)))))
    case AutoStatsFractionStale =>
      var x := FloatFromDatum(key, d);
      if x.Err? then Outcome(Some(x.error), s)
      else
        var s1 := EnsureAutoStats(s);
        if !NonNegativeFloat(x.value) then Outcome(Some(InvalidSetting(key)), s1)
        else Outcome(None, s1.(autoStats := Some(s1.autoStats.value.(fractionStaleRows := Some(x.value)))))
    case NotImplemented =>
      Outcome(Some(Unimplemented(43299)), s)
  }

  /** The handlers whose onReset writes through the TTL record without
      checking that it exists. */
  predicate DereferencesTTL(h: Handler) {
    h.TtlLabelMetrics? || h.TtlPause? || h.TtlRowStatsPollInterval?
  }

  /** autoStatsTableSettingResetFunc: clears the field the key names. */
  function AutoStatsReset(key: string, s: State): (r: Outcome)
    ensures s.autoStats.None? ==> r == Outcome(None, s)
    ensures r.state.autoStats.Some? <==> s.autoStats.Some?
    ensures r.err.Some? <==>
      s.autoStats.Some? && key !in {KeyAutoStatsEnabled, KeyAutoStatsMinStale, KeyAutoStatsFractionStale}
    ensures r.err.Some? ==> r.state == s
    ensures r.state == s.(autoStats := r.state.autoStats)
  {
    if s.autoStats.None? then Outcome(None, s)
    else
      var a := s.autoStats.value;
      if key == KeyAutoStatsEnabled then Outcome(None, s.(autoStats := Some(a.(enabled := None))))
      else if key == KeyAutoStatsMinStale then Outcome(None, s.(autoStats := Some(a.(minStaleRows := None))))
      else if key == KeyAutoStatsFractionStale then
        Outcome(None, s.(autoStats := Some(a.(fractionStaleRows := None))))
      else Outcome(Some(UnableToReset(key)), s)
  }

  /** onReset of each handler. */
  function OnReset(h: Handler, key: string, s: State): Outcome
    requires DereferencesTTL(h) ==> s.ttl.Some?
  {
    match h
    case FillFactor => Outcome(None, s)
    case AutovacuumEnabled => Outcome(None, s)
    case Ttl => Outcome(None, s.(ttl := None))
    case TtlAutomaticColumn => Outcome(Some(Unimplemented(76916)), s)
    case TtlExpireAfter => Outcome(Some(ResetExpireAfterForbidden), s)
    case TtlInt(f) =>
      if s.ttl.Some? then Outcome(None, s.(ttl := Some(WithIntField(s.ttl.value, f, 0))))
      else Outcome(None, s)
    case TtlLabelMetrics => Outcome(None, s.(ttl := Some(s.ttl.value.(labelMetrics := false))))
    case TtlJobCron =>
      if s.ttl.Some? then Outcome(None, s.(ttl := Some(s.ttl.value.(deletionCron := ""))))
      else Outcome(None, s)
    case TtlPause => Outcome(None, s.(ttl := Some(s.ttl.value.(pause := false))))
    case TtlRowStatsPollInterval =>
      Outcome(None, s.(ttl := Some(s.ttl.value.(rowStatsPollInterval := 0))))
    case ExcludeDataFromBackup => Outcome(None, s.(excludeDataFromBackup := false))
    case AutoStatsEnabled => AutoStatsReset(key, s)
    case AutoStatsMinStale => AutoStatsReset(key, s)
    case AutoStatsFractionStale => AutoStatsReset(key, s)
    case NotImplemented => Outcome(None, s)
  }

  /** Setter.Set, given the registry params: the guard, then the
      registered handler, else an error. */
  function SetOutcome(params: map<string, Handler>, key: string, d: Datum, s: State, v: Validators): Outcome {
    if Guarded(key, s) then Outcome(Some(PendingSchemaChange), s)
    else if key in params then OnSet(params[key], key, d, s, v)
    else Outcome(Some(InvalidParameter(key)), s)
  }

  /** Reset is defined unless it would reach a handler that writes through
      an absent TTL record. */
  predicate ResetDefined(params: map<string, Handler>, key: string, s: State) {
    !Guarded(key, s) && key in params && DereferencesTTL(params[key]) ==> s.ttl.Some?
  }

  /** Setter.Reset: the guard, then the registered handler, else an error. */
  function ResetOutcome(params: map<string, Handler>, key: string, s: State): Outcome
    requires ResetDefined(params, key, s)
  {
    if Guarded(key, s) then Outcome(Some(PendingSchemaChange), s)
    else if key in params then OnReset(params[key], key, s)
    else Outcome(Some(InvalidParameter(key)), s)
  }

  /** Setter.RunPostChecks: ttl_automatic_column needs an expiration
      expression, and the TTL record must pass its validator. */
  function PostCheck(s: State, v: Validators): (err: Option<Error>)
    ensures err == Some(ExpireAfterRequired) <==>
      s.automaticColumn && (s.ttl.None? || s.ttl.value.durationExpr == EmptyExpr)
    ensures err.None? <==>
      !(s.automaticColumn && (s.ttl.None? || s.ttl.value.durationExpr == EmptyExpr)) && v.rowLevelTTL(s.ttl)
  {
    if s.automaticColumn && (s.ttl.None? || s.ttl.value.durationExpr == EmptyExpr) then
      Some(ExpireAfterRequired)
    else if !v.rowLevelTTL(s.ttl) then Some(InvalidTTL)
    else None
  }

  // ---------------------------------------------------------------------
  // Properties of Set, Reset and RunPostChecks

  /** The key each integer TTL field is set through. */
  function TtlIntKey(f: TtlIntField): string {
    match f
    case SelectBatchSize => KeyTtlSelectBatchSize
    case DeleteBatchSize => KeyTtlDeleteBatchSize
    case RangeConcurrency => KeyTtlRangeConcurrency
    case DeleteRateLimit => KeyTtlDeleteRateLimit
  }

  /** Every unimplemented parameter name has 'o', 'a', 'u' or 's' as its
      second character, and those with 'u' (the autovacuum_ ones) do not
      have 'e' as their twelfth. */
  lemma UnimplementedNameShapes()
    ensures forall k | 0 <= k < |UnimplementedParams| ::
      && |UnimplementedParams[k]| >= 12
      && UnimplementedParams[k][1] in {'o', 'a', 'u', 's'}
      && (UnimplementedParams[k][1] == 'u' ==> UnimplementedParams[k][11] != 'e')
  {
  }

  /** Hence none of the unimplemented parameters is a ttl_ key. */
  lemma UnimplementedParamsAreNotTtlKeys(key: string)
    requires key in UnimplementedParams
    ensures !IsTtlSubKey(key)
  {
    UnimplementedNameShapes();
  }

  /** The pending-mutation guard refuses every ttl_ key and changes nothing;
      the key ttl itself is not covered by it. */
  lemma PendingMutationsBlockTtlKeys(params: map<string, Handler>, key: string, d: Datum, s: State, v: Validators)
    requires IsTtlSubKey(key) && s.mutations > 0
    ensures SetOutcome(params, key, d, s, v) == Outcome(Some(PendingSchemaChange), s)
    ensures ResetDefined(params, key, s) && ResetOutcome(params, key, s) == Outcome(Some(PendingSchemaChange), s)
  {
  }

  /** A key with no handler is refused and changes nothing. */
  lemma UnknownKeysRejected(params: map<string, Handler>, key: string, d: Datum, s: State, v: Validators)
    requires key !in params
    ensures SetOutcome(params, key, d, s, v).state == s
    ensures SetOutcome(params, key, d, s, v).err ==
      Some(if Guarded(key, s) then PendingSchemaChange else InvalidParameter(key))
    ensures ResetDefined(params, key, s) && ResetOutcome(params, key, s) == SetOutcome(params, key, d, s, v)
  {
  }

  /** The parameters registered by init are known: setting one is refused
      as unimplemented and resetting one succeeds; neither changes anything. */
  lemma UnimplementedParamsKnown(key: string, d: Datum, s: State, v: Validators)
    requires key in UnimplementedParams
    ensures key in TableParams() && TableParams()[key] == NotImplemented
    ensures SetOutcome(TableParams(), key, d, s, v) == Outcome(Some(Unimplemented(43299)), s)
    ensures ResetDefined(TableParams(), key, s) && ResetOutcome(TableParams(), key, s) == Outcome(None, s)
  {
    UnimplementedParamsAreNotTtlKeys(key);
  }

  /** A name whose second character no unimplemented name has is not
      one, and neither is autovacuum_enabled. */
  lemma NotUnimplemented(key: string)
    requires (|key| < 2 || key[1] !in {'o', 'a', 'u', 's'}) || key == KeyAutovacuumEnabled
    ensures key !in UnimplementedParams
  {
    UnimplementedNameShapes();
  }

  // The registry, key by key: which handler each parameter name reaches and
  // whether the pending-mutation guard covers it.

  /** Which registered names carry the ttl_ prefix. */
  lemma TtlKeyShapes()
    ensures IsTtlSubKey(KeyTtlAutomaticColumn) && IsTtlSubKey(KeyTtlExpireAfter)
    ensures IsTtlSubKey(KeyTtlSelectBatchSize) && IsTtlSubKey(KeyTtlDeleteBatchSize)
    ensures IsTtlSubKey(KeyTtlRangeConcurrency) && IsTtlSubKey(KeyTtlDeleteRateLimit)
    ensures IsTtlSubKey(KeyTtlLabelMetrics) && IsTtlSubKey(KeyTtlJobCron)
    ensures IsTtlSubKey(KeyTtlPause) && IsTtlSubKey(KeyTtlRowStatsPollInterval)
    ensures !IsTtlSubKey(KeyTtl) && !IsTtlSubKey(KeyExcludeDataFromBackup)
  {
  }

  /** init's names and the declared names are disjoint, so init keeps
      every declared handler. */
  lemma DeclaredSurvivesInit(key: string)
    requires key in DeclaredParams()
    ensures key !in UnimplementedParams
    ensures key in TableParams() && TableParams()[key] == DeclaredParams()[key]
  {
    DeclaredNameShapes(key);
    NotUnimplemented(key);
  }

  /** init adds handlers but overwrites none: the registry agrees with the
      declared table on every declared name. */
  lemma InitKeepsDeclared()
    ensures DeclaredParams().Keys <= TableParams().Keys
    ensures forall key | key in DeclaredParams() :: TableParams()[key] == DeclaredParams()[key]
  {
    forall key | key in DeclaredParams()
      ensures key in TableParams() && TableParams()[key] == DeclaredParams()[key]
    {
      DeclaredSurvivesInit(key);
    }
  }

  /** Every declared name has 't', 'i', 'x' or 'q' as its second character,
      except autovacuum_enabled. */
  lemma DeclaredNameShapes(key: string)
    requires key in DeclaredParams()
    ensures (|key| >= 2 && key[1] in {'t', 'i', 'x', 'q'}) || key == KeyAutovacuumEnabled
  {
  }

  lemma RegisteredTtl()
    ensures KeyTtl in TableParams() && TableParams()[KeyTtl] == Ttl
  {
    assert KeyTtl in DeclaredParams() && DeclaredParams()[KeyTtl] == Ttl;
    DeclaredSurvivesInit(KeyTtl);
  }

  lemma RegisteredTtlAutomaticColumn()
    ensures KeyTtlAutomaticColumn in TableParams()
    ensures TableParams()[KeyTtlAutomaticColumn] == TtlAutomaticColumn
  {
    assert KeyTtlAutomaticColumn in DeclaredParams() && DeclaredParams()[KeyTtlAutomaticColumn] == TtlAutomaticColumn;
    DeclaredSurvivesInit(KeyTtlAutomaticColumn);
  }

  lemma RegisteredTtlExpireAfter()
    ensures KeyTtlExpireAfter in TableParams()
    ensures TableParams()[KeyTtlExpireAfter] == TtlExpireAfter
  {
    assert KeyTtlExpireAfter in DeclaredParams() && DeclaredParams()[KeyTtlExpireAfter] == TtlExpireAfter;
    DeclaredSurvivesInit(KeyTtlExpireAfter);
  }

  lemma RegisteredTtlSelectBatchSize()
    ensures KeyTtlSelectBatchSize in TableParams() && TableParams()[KeyTtlSelectBatchSize] == TtlInt(SelectBatchSize)
  {
    assert KeyTtlSelectBatchSize in DeclaredParams() && DeclaredParams()[KeyTtlSelectBatchSize] == TtlInt(SelectBatchSize);
    DeclaredSurvivesInit(KeyTtlSelectBatchSize);
  }

  lemma RegisteredTtlDeleteBatchSize()
    ensures KeyTtlDeleteBatchSize in TableParams() && TableParams()[KeyTtlDeleteBatchSize] == TtlInt(DeleteBatchSize)
  {
    assert KeyTtlDeleteBatchSize in DeclaredParams() && DeclaredParams()[KeyTtlDeleteBatchSize] == TtlInt(DeleteBatchSize);
    DeclaredSurvivesInit(KeyTtlDeleteBatchSize);
  }

  lemma RegisteredTtlRangeConcurrency()
    ensures KeyTtlRangeConcurrency in TableParams() && TableParams()[KeyTtlRangeConcurrency] == TtlInt(RangeConcurrency)
  {
    assert KeyTtlRangeConcurrency in DeclaredParams() && DeclaredParams()[KeyTtlRangeConcurrency] == TtlInt(RangeConcurrency);
    DeclaredSurvivesInit(KeyTtlRangeConcurrency);
  }

  lemma RegisteredTtlDeleteRateLimit()
    ensures KeyTtlDeleteRateLimit in TableParams() && TableParams()[KeyTtlDeleteRateLimit] == TtlInt(DeleteRateLimit)
  {
    assert KeyTtlDeleteRateLimit in DeclaredParams() && DeclaredParams()[KeyTtlDeleteRateLimit] == TtlInt(DeleteRateLimit);
    DeclaredSurvivesInit(KeyTtlDeleteRateLimit);
  }

  /** Each integer TTL field is reached through its own key. */
  lemma RegisteredTtlInt(f: TtlIntField)
    ensures TtlIntKey(f) in TableParams()
    ensures TableParams()[TtlIntKey(f)] == TtlInt(f)
  {
    match f {
      case SelectBatchSize => RegisteredTtlSelectBatchSize();
      case DeleteBatchSize => RegisteredTtlDeleteBatchSize();
      case RangeConcurrency => RegisteredTtlRangeConcurrency();
      case DeleteRateLimit => RegisteredTtlDeleteRateLimit();
    }
  }

  lemma RegisteredTtlLabelMetrics()
    ensures KeyTtlLabelMetrics in TableParams() && TableParams()[KeyTtlLabelMetrics] == TtlLabelMetrics
  {
    assert KeyTtlLabelMetrics in DeclaredParams() && DeclaredParams()[KeyTtlLabelMetrics] == TtlLabelMetrics;
    DeclaredSurvivesInit(KeyTtlLabelMetrics);
  }

  lemma RegisteredTtlPause()
    ensures KeyTtlPause in TableParams() && TableParams()[KeyTtlPause] == TtlPause
  {
    assert KeyTtlPause in DeclaredParams() && DeclaredParams()[KeyTtlPause] == TtlPause;
    DeclaredSurvivesInit(KeyTtlPause);
  }

  lemma RegisteredTtlRowStatsPollInterval()
    ensures KeyTtlRowStatsPollInterval in TableParams() && TableParams()[KeyTtlRowStatsPollInterval] == TtlRowStatsPollInterval
  {
    assert KeyTtlRowStatsPollInterval in DeclaredParams() && DeclaredParams()[KeyTtlRowStatsPollInterval] == TtlRowStatsPollInterval;
    DeclaredSurvivesInit(KeyTtlRowStatsPollInterval);
  }

  lemma RegisteredTtlJobCron()
    ensures KeyTtlJobCron in TableParams() && TableParams()[KeyTtlJobCron] == TtlJobCron
  {
    assert KeyTtlJobCron in DeclaredParams() && DeclaredParams()[KeyTtlJobCron] == TtlJobCron;
    DeclaredSurvivesInit(KeyTtlJobCron);
  }

  lemma RegisteredExcludeDataFromBackup()
    ensures KeyExcludeDataFromBackup in TableParams()
    ensures TableParams()[KeyExcludeDataFromBackup] == ExcludeDataFromBackup
  {
    assert KeyExcludeDataFromBackup in DeclaredParams() && DeclaredParams()[KeyExcludeDataFromBackup] == ExcludeDataFromBackup;
    DeclaredSurvivesInit(KeyExcludeDataFromBackup);
  }

  lemma RegisteredFillFactor()
    ensures KeyFillFactor in TableParams() && TableParams()[KeyFillFactor] == FillFactor
  {
    assert KeyFillFactor in DeclaredParams() && DeclaredParams()[KeyFillFactor] == FillFactor;
    DeclaredSurvivesInit(KeyFillFactor);
  }

  lemma RegisteredAutovacuumEnabled()
    ensures KeyAutovacuumEnabled in TableParams() && TableParams()[KeyAutovacuumEnabled] == AutovacuumEnabled
  {
    assert KeyAutovacuumEnabled in DeclaredParams() && DeclaredParams()[KeyAutovacuumEnabled] == AutovacuumEnabled;
    DeclaredSurvivesInit(KeyAutovacuumEnabled);
  }

  lemma RegisteredAutoStats()
    ensures KeyAutoStatsEnabled in TableParams() && TableParams()[KeyAutoStatsEnabled] == AutoStatsEnabled
    ensures KeyAutoStatsMinStale in TableParams() && TableParams()[KeyAutoStatsMinStale] == AutoStatsMinStale
    ensures KeyAutoStatsFractionStale in TableParams()
    ensures TableParams()[KeyAutoStatsFractionStale] == AutoStatsFractionStale
  {
    assert KeyAutoStatsEnabled in DeclaredParams() && DeclaredParams()[KeyAutoStatsEnabled] == AutoStatsEnabled;
    DeclaredSurvivesInit(KeyAutoStatsEnabled);
    assert KeyAutoStatsMinStale in DeclaredParams() && DeclaredParams()[KeyAutoStatsMinStale] == AutoStatsMinStale;
    DeclaredSurvivesInit(KeyAutoStatsMinStale);
    assert KeyAutoStatsFractionStale in DeclaredParams() && DeclaredParams()[KeyAutoStatsFractionStale] == AutoStatsFractionStale;
    DeclaredSurvivesInit(KeyAutoStatsFractionStale);
  }

  // What each handler does, for any key registered to it.

  /** SET ttl = true creates an empty TTL record when there is none, and
      SET ttl = false and RESET ttl remove it; a value that is not a bool is
      refused. The key ttl is not a ttl_ key, so pending mutations do not
      block it. */
  lemma TtlToggle(params: map<string, Handler>, key: string, d: Datum, s: State, v: Validators)
    requires key in params && params[key] == Ttl && !IsTtlSubKey(key)
    ensures var o := SetOutcome(params, key, d, s, v);
      && (d == DBool(true) ==>
            o.err.None? && o.state.ttl.Some? && o.state == s.(ttl := o.state.ttl) &&
            o.state.ttl == if s.ttl.Some? then s.ttl else Some(EmptyTTL))
      && (d == DBool(false) ==> o == Outcome(None, s.(ttl := None)))
      && (!d.DBool? ==> o == Outcome(Some(BadValue(key)), s))
    ensures ResetDefined(params, key, s) && ResetOutcome(params, key, s) == Outcome(None, s.(ttl := None))
  {
  }

  /** The integer TTL setters create the TTL record before they read and
      validate the value: a refused value leaves the record created but the
      field as it was; an accepted one sets the field and nothing else.
      RESET zeroes the field when the record exists and otherwise does
      nothing. */
  lemma TtlIntSetCreatesFirst(params: map<string, Handler>, key: string, f: TtlIntField, d: Datum, s: State, v: Validators)
    requires key in params && params[key] == TtlInt(f) && s.mutations == 0
    ensures var o := SetOutcome(params, key, d, s, v);
      var base := if s.ttl.Some? then s.ttl.value else EmptyTTL;
      && o.state == s.(ttl := Some(base)).(ttl := o.state.ttl)
      && o.state.ttl.Some?
      && (o.err.None? <==> d.DInt? && IntValidator(f, v)(d.i))
      && (o.err.None? ==> o.state.ttl == Some(WithIntField(base, f, d.i)))
      && (o.err.Some? ==> o.state.ttl == Some(base))
    ensures ResetDefined(params, key, s)
    ensures ResetOutcome(params, key, s) ==
      Outcome(None, if s.ttl.Some? then s.(ttl := Some(WithIntField(s.ttl.value, f, 0))) else s)
  {
  }

  /** SET ttl_expire_after refuses a value that is not an interval and a
      negative interval, changing nothing; otherwise it creates the TTL
      record if needed and sets its expiration expression, and nothing
      else. RESET ttl_expire_after is always refused. */
  lemma ExpireAfterRules(params: map<string, Handler>, key: string, d: Datum, s: State, v: Validators)
    requires key in params && params[key] == TtlExpireAfter && s.mutations == 0
    ensures var o := SetOutcome(params, key, d, s, v);
      var base := if s.ttl.Some? then s.ttl.value else EmptyTTL;
      && (!d.DInterval? ==> o == Outcome(Some(NotAnInterval(key)), s))
      && (d.DInterval? && d.nanos < 0 ==> o == Outcome(Some(NegativeInterval(key)), s))
      && (d.DInterval? && d.nanos >= 0 ==>
            o == Outcome(None, s.(ttl := Some(base.(durationExpr := IntervalExpr(d.nanos))))))
    ensures ResetDefined(params, key, s)
    ensures ResetOutcome(params, key, s) == Outcome(Some(ResetExpireAfterForbidden), s)
  {
  }

  /** SET ttl_automatic_column = true only records the request, and the
      post check then fails while there is no expiration expression.
      Turning it off is refused while TTL is on, and RESET is always
      refused. */
  lemma AutomaticColumnRules(params: map<string, Handler>, key: string, d: Datum, s: State, v: Validators)
    requires key in params && params[key] == TtlAutomaticColumn && s.mutations == 0
    ensures var o := SetOutcome(params, key, d, s, v);
      && (d == DBool(true) ==> o == Outcome(None, s.(automaticColumn := true)))
      && (d == DBool(true) && (s.ttl.None? || s.ttl.value.durationExpr == EmptyExpr) ==>
            PostCheck(o.state, v) == Some(ExpireAfterRequired))
      && (d == DBool(false) ==> o.state == s && (o.err.None? <==> s.ttl.None?))
    ensures ResetDefined(params, key, s)
    ensures ResetOutcome(params, key, s) == Outcome(Some(Unimplemented(76916)), s)
  {
  }

  /** SET ttl_automatic_column = true followed by a non-negative
      ttl_expire_after satisfies the first post check, leaving only the
      TTL validator to decide. */
  lemma ExpireAfterSatisfiesAutomaticColumn(n: int, s: State, v: Validators)
    requires s.mutations == 0 && n >= 0
    ensures var s1 := SetOutcome(TableParams(), KeyTtlAutomaticColumn, DBool(true), s, v).state;
      var s2 := SetOutcome(TableParams(), KeyTtlExpireAfter, DInterval(n), s1, v).state;
      && s2.automaticColumn
      && PostCheck(s2, v) != Some(ExpireAfterRequired)
      && (PostCheck(s2, v).None? <==> v.rowLevelTTL(s2.ttl))
  {
    RegisteredTtlAutomaticColumn();
    RegisteredTtlExpireAfter();
    var s1 := SetOutcome(TableParams(), KeyTtlAutomaticColumn, DBool(true), s, v).state;
    AutomaticColumnRules(TableParams(), KeyTtlAutomaticColumn, DBool(true), s, v);
    ExpireAfterRules(TableParams(), KeyTtlExpireAfter, DInterval(n), s1, v);
  }

  /** The RESET handlers of ttl_label_metrics, ttl_pause and
      ttl_row_stats_poll_interval clear their field of an existing TTL
      record; the other TTL field setters create the record first. */
  lemma TtlFieldResets(params: map<string, Handler>, key: string, s: State)
    requires key in params && DereferencesTTL(params[key])
    requires s.mutations == 0 && s.ttl.Some?
    ensures ResetDefined(params, key, s)
    ensures var o := ResetOutcome(params, key, s);
      && o.err.None?
      && o.state == s.(ttl := o.state.ttl)
      && o.state.ttl == Some(s.ttl.value.(
           labelMetrics := if params[key] == TtlLabelMetrics then false else s.ttl.value.labelMetrics,
           pause := if params[key] == TtlPause then false else s.ttl.value.pause,
           rowStatsPollInterval :=
             if params[key] == TtlRowStatsPollInterval then 0 else s.ttl.value.rowStatsPollInterval))
  {
  }

  /** exclude_data_from_backup is refused, changing nothing, for a temporary
      table and for a table with inbound foreign keys; otherwise SET stores
      the given bool. RESET clears the flag. */
  lemma ExcludeDataFromBackupRules(params: map<string, Handler>, key: string, d: Datum, s: State, v: Validators)
    requires key in params && params[key] == ExcludeDataFromBackup && !IsTtlSubKey(key)
    ensures var o := SetOutcome(params, key, d, s, v);
      && (s.temporary ==> o == Outcome(Some(TemporaryTable), s))
      && (!s.temporary && s.inboundFKs != 0 ==> o == Outcome(Some(InboundForeignKeys), s))
      && (!s.temporary && s.inboundFKs == 0 && d.DBool? ==>
            o == Outcome(None, s.(excludeDataFromBackup := d.b)))
      && (!d.DBool? ==> o.err.Some? && o.state == s)
    ensures ResetDefined(params, key, s)
    ensures ResetOutcome(params, key, s) == Outcome(None, s.(excludeDataFromBackup := false))
  {
  }

  /** RESET of an auto-stats setting does nothing when the table has no
      auto-stats record, and otherwise clears only the field its key names;
      a key that names none of the three is refused. */
  lemma AutoStatsResetClearsNamedField(params: map<string, Handler>, key: string, s: State)
    requires key in params && !IsTtlSubKey(key)
    requires params[key].AutoStatsEnabled? || params[key].AutoStatsMinStale? || params[key].AutoStatsFractionStale?
    ensures ResetDefined(params, key, s)
    ensures var o := ResetOutcome(params, key, s);
      var named := key in {KeyAutoStatsEnabled, KeyAutoStatsMinStale, KeyAutoStatsFractionStale};
      && (s.autoStats.None? ==> o == Outcome(None, s))
      && (s.autoStats.Some? && !named ==> o == Outcome(Some(UnableToReset(key)), s))
      && (s.autoStats.Some? && named ==>
            var a := s.autoStats.value;
            o == Outcome(None, s.(autoStats := Some(AutoStatsSettings(
              if key == KeyAutoStatsEnabled then None else a.enabled,
              if key == KeyAutoStatsMinStale then None else a.minStaleRows,
              if key == KeyAutoStatsFractionStale then None else a.fractionStaleRows)))))
  {
  }

  /** SET of the auto-stats enabled flag stores the bool, creating the
      record if needed; a value that is not a bool is refused before
      anything is created. */
  lemma AutoStatsEnabledSet(params: map<string, Handler>, key: string, d: Datum, s: State, v: Validators)
    requires key in params && params[key] == AutoStatsEnabled && !IsTtlSubKey(key)
    ensures var o := SetOutcome(params, key, d, s, v);
      var base := if s.autoStats.Some? then s.autoStats.value else EmptyAutoStats;
      && (!d.DBool? ==> o == Outcome(Some(BadValue(key)), s))
      && (d.DBool? ==> o == Outcome(None, s.(autoStats := Some(base.(enabled := Some(d.b))))))
  {
  }

  /** SET of the minimum stale row count reads the integer first, then
      creates the record, then validates: a negative count leaves an empty
      record behind but the field unset. */
  lemma AutoStatsMinStaleSet(params: map<string, Handler>, key: string, d: Datum, s: State, v: Validators)
    requires key in params && params[key] == AutoStatsMinStale && !IsTtlSubKey(key)
    ensures var o := SetOutcome(params, key, d, s, v);
      var base := if s.autoStats.Some? then s.autoStats.value else EmptyAutoStats;
      && (!d.DInt? ==> o == Outcome(Some(BadValue(key)), s))
      && (d.DInt? && d.i < 0 ==> o == Outcome(Some(InvalidSetting(key)), s.(autoStats := Some(base))))
      && (d.DInt? && d.i >= 0 ==> o == Outcome(None, s.(autoStats := Some(base.(minStaleRows := Some(d.i))))))
  {
  }

  /** The same order for the stale row fraction. */
  lemma AutoStatsFractionStaleSet(params: map<string, Handler>, key: string, d: Datum, s: State, v: Validators)
    requires key in params && params[key] == AutoStatsFractionStale && !IsTtlSubKey(key)
    ensures var o := SetOutcome(params, key, d, s, v);
      var base := if s.autoStats.Some? then s.autoStats.value else EmptyAutoStats;
      && (!d.DFloat? ==> o == Outcome(Some(BadValue(key)), s))
      && (d.DFloat? && d.f < 0.0 ==> o == Outcome(Some(InvalidSetting(key)), s.(autoStats := Some(base))))
      && (d.DFloat? && d.f >= 0.0 ==>
            o == Outcome(None, s.(autoStats := Some(base.(fractionStaleRows := Some(d.f))))))
  {
  }

  // Properties of every key at once, handler by handler first.

  /** What FailedSetOnlyCreatesEmptyRecords states, for one handler. */
  predicate OnlyCreatesEmptyRecords(o: Outcome, s: State) {
    && o.state == s.(ttl := o.state.ttl, autoStats := o.state.autoStats)
    && (o.state.ttl != s.ttl ==> s.ttl.None? && o.state.ttl == Some(EmptyTTL))
    && (o.state.autoStats != s.autoStats ==> s.autoStats.None? && o.state.autoStats == Some(EmptyAutoStats))
  }

  /** What SetKeepsTableShape states, for one handler. */
  predicate KeepsTableShape(h: Handler, o: Outcome, d: Datum, s: State) {
    && o.state.temporary == s.temporary
    && o.state.inboundFKs == s.inboundFKs
    && o.state.mutations == s.mutations
    && (s.autoStats.Some? ==> o.state.autoStats.Some?)
    && (o.state.automaticColumn <==> s.automaticColumn || (h == TtlAutomaticColumn && o.err.None? && d == DBool(true)))
  }

  lemma {:induction false} OnSetFailureOnlyCreates(h: Handler, key: string, d: Datum, s: State, v: Validators)
    ensures var o := OnSet(h, key, d, s, v);
      o.err.Some? ==> OnlyCreatesEmptyRecords(o, s)
  {
    match h {
      case TtlInt(f) =>
      case TtlLabelMetrics =>
      case TtlJobCron =>
      case TtlRowStatsPollInterval =>
      case AutoStatsMinStale =>
      case AutoStatsFractionStale =>
      case _ =>
    }
  }

  lemma {:induction false} OnSetKeepsTableShape(h: Handler, key: string, d: Datum, s: State, v: Validators)
    ensures KeepsTableShape(h, OnSet(h, key, d, s, v), d, s)
  {
    match h {
      case TtlInt(f) =>
      case TtlAutomaticColumn =>
      case _ =>
    }
  }

  lemma {:induction false} OnResetIdempotent(h: Handler, key: string, s: State)
    requires DereferencesTTL(h) ==> s.ttl.Some?
    ensures var o := OnReset(h, key, s);
      && (o.state.ttl.Some? ==> s.ttl.Some?)
      && (o.state.autoStats.Some? ==> s.autoStats.Some?)
      && (DereferencesTTL(h) ==> o.state.ttl.Some?)
      && (o.err.None? ==> OnReset(h, key, o.state) == Outcome(None, o.state))
  {
    match h {
      case TtlInt(f) =>
      case AutoStatsEnabled =>
      case AutoStatsMinStale =>
      case AutoStatsFractionStale =>
      case _ =>
    }
  }

  /** A failed SET leaves the table as it was, except that it may have
      created an empty TTL or auto-stats record. */
  lemma FailedSetOnlyCreatesEmptyRecords(params: map<string, Handler>, key: string, d: Datum, s: State, v: Validators)
    ensures var o := SetOutcome(params, key, d, s, v);
      o.err.Some? ==> OnlyCreatesEmptyRecords(o, s)
  {
    if !Guarded(key, s) && key in params {
      OnSetFailureOnlyCreates(params[key], key, d, s, v);
    }
  }

  /** SET never removes an auto-stats record, never changes the table's
      temporary flag, foreign keys or pending mutations, and only
      ttl_automatic_column can raise the automatic-column request. */
  lemma SetKeepsTableShape(params: map<string, Handler>, key: string, d: Datum, s: State, v: Validators)
    ensures var o := SetOutcome(params, key, d, s, v);
      && o.state.temporary == s.temporary
      && o.state.inboundFKs == s.inboundFKs
      && o.state.mutations == s.mutations
      && (s.autoStats.Some? ==> o.state.autoStats.Some?)
      && (o.state.automaticColumn <==>
            s.automaticColumn || (key in params && params[key] == TtlAutomaticColumn && o.err.None? && d == DBool(true)))
  {
    if !Guarded(key, s) && key in params {
      OnSetKeepsTableShape(params[key], key, d, s, v);
    }
  }

  /** RESET never creates a record, and a successful RESET is idempotent. */
  lemma ResetIdempotent(params: map<string, Handler>, key: string, s: State)
    requires ResetDefined(params, key, s)
    ensures var o := ResetOutcome(params, key, s);
      && (o.state.ttl.Some? ==> s.ttl.Some?)
      && (o.state.autoStats.Some? ==> s.autoStats.Some?)
      && ResetDefined(params, key, o.state)
      && (o.err.None? ==> ResetOutcome(params, key, o.state) == Outcome(None, o.state))
  {
    if !Guarded(key, s) && key in params {
      OnResetIdempotent(params[key], key, s);
    }
  }

  // ---------------------------------------------------------------------
  // The descriptor and the setter, updated in place

  /** The parts of tabledesc.Mutable the setter reads and writes. The
      setter only reads whether the table is temporary, its inbound
      foreign keys and its pending mutations, so those are constants. */
  class TableDescriptor {
    var rowLevelTTL: Option<RowLevelTTL>
    var autoStatsSettings: Option<AutoStatsSettings>
    var excludeDataFromBackup: bool
    const temporary: bool
    const inboundFKs: nat
    const mutations: nat

    constructor(ttl: Option<RowLevelTTL>, autoStats: Option<AutoStatsSettings>, exclude: bool,
                temporary: bool, inboundFKs: nat, mutations: nat)
      ensures rowLevelTTL == ttl && autoStatsSettings == autoStats && excludeDataFromBackup == exclude
      ensures this.temporary == temporary && this.inboundFKs == inboundFKs && this.mutations == mutations
    {
      rowLevelTTL := ttl;
      autoStatsSettings := autoStats;
      excludeDataFromBackup := exclude;
      this.temporary := temporary;
      this.inboundFKs := inboundFKs;
      this.mutations := mutations;
    }
  }

  /** Setter: applies storage parameters to one table descriptor and
      remembers whether ttl_automatic_column was set. */
  class Setter {
    const tableDesc: TableDescriptor
    var setAutomaticColumn: bool

    /** NewSetter. */
    constructor(tableDesc: TableDescriptor)
      ensures this.tableDesc == tableDesc
      ensures Snapshot() == State(tableDesc.rowLevelTTL, tableDesc.autoStatsSettings, tableDesc.excludeDataFromBackup,
                               tableDesc.temporary, tableDesc.inboundFKs, tableDesc.mutations, false)
    {
      this.tableDesc := tableDesc;
      setAutomaticColumn := false;
    }

    /** The descriptor's fields and the setter's flag, as a value. */
    function Snapshot(): State
      reads this, tableDesc
    {
      State(tableDesc.rowLevelTTL, tableDesc.autoStatsSettings, tableDesc.excludeDataFromBackup,
            tableDesc.temporary, tableDesc.inboundFKs, tableDesc.mutations, setAutomaticColumn)
    }

    /** RunPostChecks. */
    method RunPostChecks(v: Validators) returns (err: Option<Error>)
      ensures err == PostCheck(Snapshot(), v)
    {
      var ttl := tableDesc.rowLevelTTL;
      if setAutomaticColumn && (ttl.None? || ttl.value.durationExpr == EmptyExpr) {
        return Some(ExpireAfterRequired);
      }
      if !v.rowLevelTTL(ttl) {
        return Some(InvalidTTL);
      }
      return None;
    }

    /** Set: refuses ttl_ keys while mutations are pending, then runs the
        registered handler's onSet. */
    method Set(params: map<string, Handler>, key: string, d: Datum, v: Validators) returns (err: Option<Error>)
      modifies this, tableDesc
      ensures Outcome(err, Snapshot()) == SetOutcome(params, key, d, old(Snapshot()), v)
    {
      if IsTtlSubKey(key) && tableDesc.mutations > 0 {
        return Some(PendingSchemaChange);
      }
      if key !in params {
        return Some(InvalidParameter(key));
      }
      match params[key] {
        case FillFactor =>
          err := if v.fillFactor(d) then None else Some(InvalidSetting(key));
        case AutovacuumEnabled =>
          var b := BoolFromDatum(key, d);
          err := if b.Err? then Some(b.error) else None;
        case Ttl => err := SetTtl(key, d, v);
        case TtlAutomaticColumn => err := SetTtlAutomaticColumn(key, d, v);
        case TtlExpireAfter => err := SetTtlExpireAfter(key, d, v);
        case TtlInt(f) => err := SetTtlInt(f, key, d, v);
        case TtlLabelMetrics => err := SetTtlLabelMetrics(key, d, v);
        case TtlJobCron => err := SetTtlJobCron(key, d, v);
        case TtlPause => err := SetTtlPause(key, d, v);
        case TtlRowStatsPollInterval => err := SetTtlRowStatsPollInterval(key, d, v);
        case ExcludeDataFromBackup => err := SetExcludeDataFromBackup(key, d, v);
        case AutoStatsEnabled => err := SetAutoStatsEnabled(key, d, v);
        case AutoStatsMinStale => err := SetAutoStatsMinStale(key, d, v);
        case AutoStatsFractionStale => err := SetAutoStatsFractionStale(key, d, v);
        case NotImplemented => err := Some(Unimplemented(43299));
      }
    }

    /** Reset: refuses ttl_ keys while mutations are pending, then runs the
        registered handler's onReset. */
    method Reset(params: map<string, Handler>, key: string) returns (err: Option<Error>)
      requires ResetDefined(params, key, Snapshot())
      modifies this, tableDesc
      ensures Outcome(err, Snapshot()) == ResetOutcome(params, key, old(Snapshot()))
    {
      if IsTtlSubKey(key) && tableDesc.mutations > 0 {
        return Some(PendingSchemaChange);
      }
      if key !in params {
        return Some(InvalidParameter(key));
      }
      err := None;
      match params[key] {
        case FillFactor =>
        case AutovacuumEnabled =>
        case Ttl => tableDesc.rowLevelTTL := None;
        case TtlAutomaticColumn => err := Some(Unimplemented(76916));
        case TtlExpireAfter => err := Some(ResetExpireAfterForbidden);
        case TtlInt(f) =>
          if tableDesc.rowLevelTTL.Some? {
            tableDesc.rowLevelTTL := Some(WithIntField(tableDesc.rowLevelTTL.value, f, 0));
          }
        case TtlLabelMetrics =>
          tableDesc.rowLevelTTL := Some(tableDesc.rowLevelTTL.value.(labelMetrics := false));
        case TtlJobCron =>
          if tableDesc.rowLevelTTL.Some? {
            tableDesc.rowLevelTTL := Some(tableDesc.rowLevelTTL.value.(deletionCron := ""));
          }
        case TtlPause =>
          tableDesc.rowLevelTTL := Some(tableDesc.rowLevelTTL.value.(pause := false));
        case TtlRowStatsPollInterval =>
          tableDesc.rowLevelTTL := Some(tableDesc.rowLevelTTL.value.(rowStatsPollInterval := 0));
        case ExcludeDataFromBackup => tableDesc.excludeDataFromBackup := false;
        case AutoStatsEnabled => err := ResetAutoStats(key);
        case AutoStatsMinStale => err := ResetAutoStats(key);
        case AutoStatsFractionStale => err := ResetAutoStats(key);
        case NotImplemented =>
      }
    }

    /** Creates an empty TTL record if the table has none. */
    method EnsureRowLevelTTL()
      modifies tableDesc
      ensures Snapshot() == EnsureTTL(old(Snapshot()))
    {
      if tableDesc.rowLevelTTL.None? {
        tableDesc.rowLevelTTL := Some(EmptyTTL);
      }
    }

    /** Creates an empty auto-stats record if the table has none. */
    method EnsureAutoStatsSettings()
      modifies tableDesc
      ensures Snapshot() == EnsureAutoStats(old(Snapshot()))
    {
      if tableDesc.autoStatsSettings.None? {
        tableDesc.autoStatsSettings := Some(EmptyAutoStats);
      }
    }

    // The onSet handlers, one per registry entry; each does to the
    // descriptor what OnSet says of the state.

    method SetTtl(key: string, d: Datum, v: Validators) returns (err: Option<Error>)
      modifies tableDesc
      ensures Outcome(err, Snapshot()) == OnSet(Ttl, key, d, old(Snapshot()), v)
    {
      var b := BoolFromDatum(key, d);
      if b.Err? {
        return Some(b.error);
      }
      if b.value {
        EnsureRowLevelTTL();
      } else {
        tableDesc.rowLevelTTL := None;
      }
      return None;
    }

    method SetTtlAutomaticColumn(key: string, d: Datum, v: Validators) returns (err: Option<Error>)
      modifies this
      ensures Outcome(err, Snapshot()) == OnSet(TtlAutomaticColumn, key, d, old(Snapshot()), v)
    {
      var b := BoolFromDatum(key, d);
      if b.Err? {
        return Some(b.error);
      }
      if b.value {
        setAutomaticColumn := true;
        return None;
      }
      if tableDesc.rowLevelTTL.Some? {
        return Some(Unimplemented(76916));
      }
      return None;
    }

    method SetTtlExpireAfter(key: string, d: Datum, v: Validators) returns (err: Option<Error>)
      modifies tableDesc
      ensures Outcome(err, Snapshot()) == OnSet(TtlExpireAfter, key, d, old(Snapshot()), v)
    {
      if !d.DInterval? {
        return Some(NotAnInterval(key));
      }
      if d.nanos < 0 {
        return Some(NegativeInterval(key));
      }
      EnsureRowLevelTTL();
      tableDesc.rowLevelTTL := Some(tableDesc.rowLevelTTL.value.(durationExpr := IntervalExpr(d.nanos)));
      return None;
    }

    /** ttl_select_batch_size, ttl_delete_batch_size, ttl_range_concurrency
        and ttl_delete_rate_limit. */
    method SetTtlInt(f: TtlIntField, key: string, d: Datum, v: Validators) returns (err: Option<Error>)
      modifies tableDesc
      ensures Outcome(err, Snapshot()) == OnSet(TtlInt(f), key, d, old(Snapshot()), v)
    {
      EnsureRowLevelTTL();
      var n := IntFromDatum(key, d);
      if n.Err? {
        return Some(n.error);
      }
      if !IntValidator(f, v)(n.value) {
        return Some(InvalidSetting(key));
      }
      tableDesc.rowLevelTTL := Some(WithIntField(tableDesc.rowLevelTTL.value, f, n.value));
      return None;
    }

    method SetTtlLabelMetrics(key: string, d: Datum, v: Validators) returns (err: Option<Error>)
      modifies tableDesc
      ensures Outcome(err, Snapshot()) == OnSet(TtlLabelMetrics, key, d, old(Snapshot()), v)
    {
      EnsureRowLevelTTL();
      var b := BoolFromDatum(key, d);
      if b.Err? {
        return Some(b.error);
      }
      tableDesc.rowLevelTTL := Some(tableDesc.rowLevelTTL.value.(labelMetrics := b.value));
      return None;
    }

    method SetTtlJobCron(key: string, d: Datum, v: Validators) returns (err: Option<Error>)
      modifies tableDesc
      ensures Outcome(err, Snapshot()) == OnSet(TtlJobCron, key, d, old(Snapshot()), v)
    {
      EnsureRowLevelTTL();
      var c := StringFromDatum(key, d);
      if c.Err? {
        return Some(c.error);
      }
      if !v.cronExpr(c.value) {
        return Some(InvalidSetting(key));
      }
      tableDesc.rowLevelTTL := Some(tableDesc.rowLevelTTL.value.(deletionCron := c.value));
      return None;
    }

    method SetTtlPause(key: string, d: Datum, v: Validators) returns (err: Option<Error>)
      modifies tableDesc
      ensures Outcome(err, Snapshot()) == OnSet(TtlPause, key, d, old(Snapshot()), v)
    {
      var b := BoolFromDatum(key, d);
      if b.Err? {
        return Some(b.error);
      }
      EnsureRowLevelTTL();
      tableDesc.rowLevelTTL := Some(tableDesc.rowLevelTTL.value.(pause := b.value));
      return None;
    }

    method SetTtlRowStatsPollInterval(key: string, d: Datum, v: Validators) returns (err: Option<Error>)
      modifies tableDesc
      ensures Outcome(err, Snapshot()) == OnSet(TtlRowStatsPollInterval, key, d, old(Snapshot()), v)
    {
      var p := DurationFromDatum(key, d);
      if p.Err? {
        return Some(p.error);
      }
      EnsureRowLevelTTL();
      if !v.rowStatsPollInterval(p.value) {
        return Some(InvalidSetting(key));
      }
      tableDesc.rowLevelTTL := Some(tableDesc.rowLevelTTL.value.(rowStatsPollInterval := p.value));
      return None;
    }

    method SetExcludeDataFromBackup(key: string, d: Datum, v: Validators) returns (err: Option<Error>)
      modifies tableDesc
      ensures Outcome(err, Snapshot()) == OnSet(ExcludeDataFromBackup, key, d, old(Snapshot()), v)
    {
      if tableDesc.temporary {
        return Some(TemporaryTable);
      }
      if tableDesc.inboundFKs != 0 {
        return Some(InboundForeignKeys);
      }
      var b := BoolFromDatum(key, d);
      if b.Err? {
        return Some(b.error);
      }
      tableDesc.excludeDataFromBackup := b.value;
      return None;
    }

    /** autoStatsEnabledSettingFunc. */
    method SetAutoStatsEnabled(key: string, d: Datum, v: Validators) returns (err: Option<Error>)
      modifies tableDesc
      ensures Outcome(err, Snapshot()) == OnSet(AutoStatsEnabled, key, d, old(Snapshot()), v)
    {
      var b := BoolFromDatum(key, d);
      if b.Err? {
        return Some(b.error);
      }
      EnsureAutoStatsSettings();
      tableDesc.autoStatsSettings := Some(tableDesc.autoStatsSettings.value.(enabled := Some(b.value)));
      return None;
    }

    /** autoStatsMinStaleRowsSettingFunc with the non-negative validator. */
    method SetAutoStatsMinStale(key: string, d: Datum, v: Validators) returns (err: Option<Error>)
      modifies tableDesc
      ensures Outcome(err, Snapshot()) == OnSet(AutoStatsMinStale, key, d, old(Snapshot()), v)
    {
      var n := IntFromDatum(key, d);
      if n.Err? {
        return Some(n.error);
      }
      EnsureAutoStatsSettings();
      if !NonNegativeInt(n.value) {
        return Some(InvalidSetting(key));
      }
      tableDesc.autoStatsSettings := Some(tableDesc.autoStatsSettings.value.(minStaleRows := Some(n.value)));
      return None;
    }

    /** autoStatsFractionStaleRowsSettingFunc with the non-negative validator. */
    method SetAutoStatsFractionStale(key: string, d: Datum, v: Validators) returns (err: Option<Error>)
      modifies tableDesc
      ensures Outcome(err, Snapshot()) == OnSet(AutoStatsFractionStale, key, d, old(Snapshot()), v)
    {
      var x := FloatFromDatum(key, d);
      if x.Err? {
        return Some(x.error);
      }
      EnsureAutoStatsSettings();
      if !NonNegativeFloat(x.value) {
        return Some(InvalidSetting(key));
      }
      tableDesc.autoStatsSettings := Some(tableDesc.autoStatsSettings.value.(fractionStaleRows := Some(x.value)));
      return None;
    }

    /** autoStatsTableSettingResetFunc. */
    method ResetAutoStats(key: string) returns (err: Option<Error>)
      modifies tableDesc
      ensures Outcome(err, Snapshot()) == AutoStatsReset(key, old(Snapshot()))
    {
      if tableDesc.autoStatsSettings.None? {
        return None;
      }
      var a := tableDesc.autoStatsSettings.value;
      if key == KeyAutoStatsEnabled {
        tableDesc.autoStatsSettings := Some(a.(enabled := None));
      } else if key == KeyAutoStatsMinStale {
        tableDesc.autoStatsSettings := Some(a.(minStaleRows := None));
      } else if key == KeyAutoStatsFractionStale {
        tableDesc.autoStatsSettings := Some(a.(fractionStaleRows := None));
      } else {
        return Some(UnableToReset(key));
      }
      return None;
    }
  }
}
