/** The byte formats of store commands and of their results, which the state machine records. */
module StoreCommands {
  import opened Common
  import opened Codec
  import opened Fields
  import opened StoreTypes

  const COMMAND_VERSION: nat := 1
  const RESULT_VERSION: nat := 1
  const MAX_ITEMS: nat := 4096
  const MAX_STRING: nat := 4 * 1024
  const MAX_PAYLOAD: nat := 4 * 1024 * 1024
  const NO_STATE: Byte := 0xFF

  const REGISTER_STORE: Byte := 1
  const UPDATE_STORE_STATE: Byte := 2
  const REMOVE_STORE: Byte := 3
  const CREATE_TASK: Byte := 4
  const POLL_TASKS: Byte := 5
  const REPORT_TASK_RESULT: Byte := 6

  datatype StoreCommand = StoreCommand(
    kind: Byte,
    store: StoreInfo,
    update: StoreUpdate,
    create: TaskRequest,
    report: TaskReport,
    storeId: StoreId,
    maxTasks: nat
  )

  datatype StoreResult = StoreResult(store: StoreInfo, tasks: seq<TaskRecord>, duplicate: bool)

  /** `ValidateStoreBusinessCommand`. */
  predicate Valid(c: StoreCommand) {
    if c.kind == REGISTER_STORE then
      c.store.id != 0 && c.store.address.host != [] && c.store.address.port != 0 && c.store.capacity != 0
      && c.store.used <= c.store.capacity && |c.store.address.host| <= MAX_STRING
    else if c.kind == UPDATE_STORE_STATE then
      c.update.id != 0 && c.update.expected.Some? && c.update.state.Some?
    else if c.kind == REMOVE_STORE then
      c.storeId != 0 && c.update.expected.Some?
    else if c.kind == CREATE_TASK then
      c.create.taskId != [] && |c.create.target| <= MAX_PAYLOAD && |c.create.taskId| <= MAX_STRING
    else if c.kind == POLL_TASKS then
      c.storeId != 0 && c.maxTasks != 0
    else
      c.kind == REPORT_TASK_RESULT
      && c.report.storeId != 0 && c.report.taskId != [] && Terminal(c.report.finalState)
      && |c.report.result| <= MAX_PAYLOAD && |c.report.taskId| <= MAX_STRING
  }

  // ---------------------------------------------------------------- groups of fields

  const STORE_SHAPES := [Num(8), Num(8), Num(8), Num(1), Num(8), Num(2), Blob(MAX_STRING)]

  function StoreValues(s: StoreInfo): seq<Value> {
    [N(s.id), N(s.capacity), N(s.used), N(s.state), N(s.generation), N(s.address.port), D(s.address.host)]
  }

  function StoreFrom(vs: seq<Value>): StoreInfo
    requires |vs| == 7 && vs[0].N? && vs[1].N? && vs[2].N? && vs[3].N? && vs[3].n < 256 && vs[4].N? && vs[5].N? && vs[6].D?
  {
    StoreInfo(vs[0].n, StoreAddress(vs[6].bytes, vs[5].n), vs[1].n, vs[2].n, vs[3].n, vs[4].n, 0)
  }

  /** The ranges of the source's integer fields, and the length limit of the host. */
  predicate StoreFits(s: StoreInfo) {
    && s.id < U64_LIMIT && s.capacity < U64_LIMIT && s.used < U64_LIMIT && s.generation < U64_LIMIT
    && s.address.port < U16_LIMIT && |s.address.host| <= MAX_STRING
  }

  const UPDATE_SHAPES := [Num(8), Num(8), Num(8), Num(8), Num(1)]

  function OrZero(o: Option<nat>): nat {
    if o.Some? then o.value else 0
  }

  function ZeroAsNone(n: nat): Option<nat> {
    if n == 0 then None else Some(n)
  }

  function UpdateValues(u: StoreUpdate): seq<Value> {
    [N(u.id), N(OrZero(u.expected)), N(OrZero(u.capacity)), N(OrZero(u.used)),
     N(if u.state.Some? then u.state.value else NO_STATE)]
  }

  function UpdateFrom(vs: seq<Value>): StoreUpdate
    requires |vs| == 5 && vs[0].N? && vs[1].N? && vs[2].N? && vs[3].N? && vs[4].N? && vs[4].n < 256
  {
    StoreUpdate(vs[0].n, ZeroAsNone(vs[1].n), ZeroAsNone(vs[2].n), ZeroAsNone(vs[3].n),
                if vs[4].n == NO_STATE then None else Some(vs[4].n))
  }

  predicate UpdateFits(u: StoreUpdate) {
    u.id < U64_LIMIT && OrZero(u.expected) < U64_LIMIT && OrZero(u.capacity) < U64_LIMIT && OrZero(u.used) < U64_LIMIT
  }

  const CREATE_SHAPES := [Num(1), Blob(MAX_STRING), Blob(MAX_PAYLOAD)]

  function CreateValues(r: TaskRequest): seq<Value> {
    [N(r.kind), D(r.taskId), D(r.target)]
  }

  function CreateFrom(vs: seq<Value>): TaskRequest
    requires |vs| == 3 && vs[0].N? && vs[0].n < 256 && vs[1].D? && vs[2].D?
  {
    TaskRequest(vs[1].bytes, vs[0].n, vs[2].bytes)
  }

  predicate CreateFits(r: TaskRequest) {
    |r.taskId| <= MAX_STRING && |r.target| <= MAX_PAYLOAD
  }

  const REPORT_SHAPES := [Num(8), Num(1), Num(8), Blob(MAX_STRING), Blob(MAX_PAYLOAD)]

  function ReportValues(r: TaskReport): seq<Value> {
    [N(r.storeId), N(r.finalState), N(OrZero(r.expected)), D(r.taskId), D(r.result)]
  }

  function ReportFrom(vs: seq<Value>): TaskReport
    requires |vs| == 5 && vs[0].N? && vs[1].N? && vs[1].n < 256 && vs[2].N? && vs[3].D? && vs[4].D?
  {
    TaskReport(vs[0].n, vs[3].bytes, vs[1].n, vs[4].bytes, ZeroAsNone(vs[2].n))
  }

  predicate ReportFits(r: TaskReport) {
    && r.storeId < U64_LIMIT && OrZero(r.expected) < U64_LIMIT
    && |r.taskId| <= MAX_STRING && |r.result| <= MAX_PAYLOAD
  }

  const TASK_SHAPES := [Num(1), Num(1), Num(8), Num(8), Num(8), Blob(MAX_STRING), Blob(MAX_PAYLOAD), Blob(MAX_PAYLOAD)]

  function TaskValues(t: TaskRecord): seq<Value> {
    [N(t.kind), N(t.state), N(t.owner), N(t.generation), N(t.sequence), D(t.taskId), D(t.target), D(t.result)]
  }

  function TaskFrom(vs: seq<Value>): TaskRecord
    requires |vs| == 8 && vs[0].N? && vs[0].n < 256 && vs[1].N? && vs[1].n < 256 && vs[2].N? && vs[3].N? && vs[4].N?
    requires vs[5].D? && vs[6].D? && vs[7].D?
  {
    TaskRecord(vs[5].bytes, vs[0].n, vs[1].n, vs[6].bytes, vs[2].n, vs[7].bytes, vs[3].n, vs[4].n)
  }

  predicate TaskFits(t: TaskRecord) {
    && t.owner < U64_LIMIT && t.generation < U64_LIMIT && t.sequence < U64_LIMIT
    && |t.taskId| <= MAX_STRING && |t.target| <= MAX_PAYLOAD && |t.result| <= MAX_PAYLOAD
  }

  const COMMAND_HEAD := [Num(1), Num(1), Num(8), Num(4)]

  function CommandHead(c: StoreCommand): seq<Value> {
    [N(COMMAND_VERSION), N(c.kind), N(c.storeId), N(c.maxTasks)]
  }

  const COMMAND_SHAPES := COMMAND_HEAD + (STORE_SHAPES + (UPDATE_SHAPES + (CREATE_SHAPES + REPORT_SHAPES)))

  function CommandValues(c: StoreCommand): seq<Value> {
    CommandHead(c)
    + (StoreValues(c.store) + (UpdateValues(c.update) + (CreateValues(c.create) + ReportValues(c.report))))
  }

  lemma StoreMatches(s: StoreInfo)
    requires StoreFits(s)
    ensures AllMatch(STORE_SHAPES, StoreValues(s))
  {
    Pow256Values();
  }

  lemma UpdateMatches(u: StoreUpdate)
    requires UpdateFits(u)
    ensures AllMatch(UPDATE_SHAPES, UpdateValues(u))
  {
    Pow256Values();
  }

  lemma CreateMatches(r: TaskRequest)
    requires CreateFits(r)
    ensures AllMatch(CREATE_SHAPES, CreateValues(r))
  {
    Pow256Values();
  }

  lemma ReportMatches(r: TaskReport)
    requires ReportFits(r)
    ensures AllMatch(REPORT_SHAPES, ReportValues(r))
  {
    Pow256Values();
  }

  lemma TaskMatches(t: TaskRecord)
    requires TaskFits(t)
    ensures AllMatch(TASK_SHAPES, TaskValues(t))
  {
    Pow256Values();
  }

  // ---------------------------------------------------------------- commands

  predicate Fits(c: StoreCommand) {
    && c.storeId < U64_LIMIT && c.maxTasks < U32_LIMIT
    && StoreFits(c.store) && UpdateFits(c.update) && CreateFits(c.create) && ReportFits(c.report)
  }

  /** The ranges of the source's integer fields only. */
  ghost predicate InRange(c: StoreCommand) {
    && c.storeId < U64_LIMIT && c.maxTasks < U32_LIMIT
    && StoreFits(c.store.(address := c.store.address.(host := [])))
    && UpdateFits(c.update)
    && ReportFits(c.report.(taskId := [], result := []))
  }

  lemma MatchConcat(ss: seq<Shape>, vs: seq<Value>, ts: seq<Shape>, ws: seq<Value>)
    requires AllMatch(ss, vs) && AllMatch(ts, ws)
    ensures AllMatch(ss + ts, vs + ws)
  {
    hide Matches;
  }

  lemma CommandMatches(c: StoreCommand)
    requires Fits(c)
    ensures AllMatch(COMMAND_SHAPES, CommandValues(c))
  {
    assert AllMatch(COMMAND_HEAD, CommandHead(c)) by { Pow256Values(); }
    StoreMatches(c.store);
    UpdateMatches(c.update);
    CreateMatches(c.create);
    ReportMatches(c.report);
    hide AllMatch;
    MatchConcat(CREATE_SHAPES, CreateValues(c.create), REPORT_SHAPES, ReportValues(c.report));
    MatchConcat(UPDATE_SHAPES, UpdateValues(c.update), CREATE_SHAPES + REPORT_SHAPES,
                CreateValues(c.create) + ReportValues(c.report));
    MatchConcat(STORE_SHAPES, StoreValues(c.store), UPDATE_SHAPES + (CREATE_SHAPES + REPORT_SHAPES),
                UpdateValues(c.update) + (CreateValues(c.create) + ReportValues(c.report)));
    MatchConcat(COMMAND_HEAD, CommandHead(c), STORE_SHAPES + (UPDATE_SHAPES + (CREATE_SHAPES + REPORT_SHAPES)),
                StoreValues(c.store)
                + (UpdateValues(c.update) + (CreateValues(c.create) + ReportValues(c.report))));
  }

  ghost function Encode(c: StoreCommand): Result<Bytes>
    requires InRange(c)
  {
    if !Valid(c) || !Fits(c) then Failure(InvalidArgument)
    else
      CommandMatches(c);
      Success(PutAll(COMMAND_SHAPES, CommandValues(c)))
  }

  lemma TypedParts(vs: seq<Value>)
    requires AllMatch(COMMAND_SHAPES, vs)
    ensures |vs| == 24
    ensures vs[0].N? && vs[1].N? && vs[1].n < 256 && vs[2].N? && vs[3].N?
    ensures AllMatch(STORE_SHAPES, vs[4..11]) && AllMatch(UPDATE_SHAPES, vs[11..16])
    ensures AllMatch(CREATE_SHAPES, vs[16..19]) && AllMatch(REPORT_SHAPES, vs[19..24])
  {
    hide Matches;
    assert COMMAND_SHAPES[4..11] == STORE_SHAPES && COMMAND_SHAPES[11..16] == UPDATE_SHAPES;
    assert COMMAND_SHAPES[16..19] == CREATE_SHAPES && COMMAND_SHAPES[19..24] == REPORT_SHAPES;
    HeadTyped(vs);
  }

  lemma HeadTyped(vs: seq<Value>)
    requires AllMatch(COMMAND_SHAPES, vs)
    ensures |vs| == 24 && vs[0].N? && vs[1].N? && vs[1].n < 256 && vs[2].N? && vs[3].N?
  {
    Pow256Values();
    assert Matches(COMMAND_SHAPES[0], vs[0]) && Matches(COMMAND_SHAPES[1], vs[1]);
    assert Matches(COMMAND_SHAPES[2], vs[2]) && Matches(COMMAND_SHAPES[3], vs[3]);
  }

  lemma StoreTyped(vs: seq<Value>)
    requires AllMatch(STORE_SHAPES, vs)
    ensures |vs| == 7 && vs[0].N? && vs[1].N? && vs[2].N? && vs[3].N? && vs[3].n < 256 && vs[4].N? && vs[5].N? && vs[6].D?
  {
    Pow256Values();
    assert forall k :: 0 <= k < 7 ==> Matches(STORE_SHAPES[k], vs[k]);
  }

  lemma UpdateTyped(vs: seq<Value>)
    requires AllMatch(UPDATE_SHAPES, vs)
    ensures |vs| == 5 && vs[0].N? && vs[1].N? && vs[2].N? && vs[3].N? && vs[4].N? && vs[4].n < 256
  {
    Pow256Values();
    assert forall k :: 0 <= k < 5 ==> Matches(UPDATE_SHAPES[k], vs[k]);
  }

  lemma CreateTyped(vs: seq<Value>)
    requires AllMatch(CREATE_SHAPES, vs)
    ensures |vs| == 3 && vs[0].N? && vs[0].n < 256 && vs[1].D? && vs[2].D?
  {
    Pow256Values();
    assert forall k :: 0 <= k < 3 ==> Matches(CREATE_SHAPES[k], vs[k]);
  }

  lemma ReportTyped(vs: seq<Value>)
    requires AllMatch(REPORT_SHAPES, vs)
    ensures |vs| == 5 && vs[0].N? && vs[1].N? && vs[1].n < 256 && vs[2].N? && vs[3].D? && vs[4].D?
  {
    Pow256Values();
    assert forall k :: 0 <= k < 5 ==> Matches(REPORT_SHAPES[k], vs[k]);
  }

  lemma TaskTyped(vs: seq<Value>)
    requires AllMatch(TASK_SHAPES, vs)
    ensures |vs| == 8 && vs[0].N? && vs[0].n < 256 && vs[1].N? && vs[1].n < 256 && vs[2].N? && vs[3].N? && vs[4].N?
    ensures vs[5].D? && vs[6].D? && vs[7].D?
  {
    Pow256Values();
    assert forall k :: 0 <= k < 8 ==> Matches(TASK_SHAPES[k], vs[k]);
  }

  ghost function CommandFrom(vs: seq<Value>): StoreCommand
    requires AllMatch(COMMAND_SHAPES, vs)
  {
    TypedParts(vs);
    StoreTyped(vs[4..11]);
    UpdateTyped(vs[11..16]);
    CreateTyped(vs[16..19]);
    ReportTyped(vs[19..24]);
    StoreCommand(vs[1].n, StoreFrom(vs[4..11]), UpdateFrom(vs[11..16]), CreateFrom(vs[16..19]), ReportFrom(vs[19..24]),
                 vs[2].n, vs[3].n)
  }

  /** `DecodeStoreBusinessCommand`: whatever is wrong is reported as corruption. */
  ghost function Decode(b: Bytes): Result<StoreCommand> {
    var fields := TakeAll(COMMAND_SHAPES, b);
    if fields.None? || fields.value.1 != [] then Failure(Corruption) else
    PutTakeAll(COMMAND_SHAPES, b);
    var vs := fields.value.0;
    if vs[0] != N(COMMAND_VERSION) then Failure(Corruption) else
    var c := CommandFrom(vs);
    if !Valid(c) then Failure(Corruption) else Success(c)
  }

  lemma StoreFromFits(vs: seq<Value>)
    requires AllMatch(STORE_SHAPES, vs)
    ensures |vs| == 7 && vs[0].N? && vs[1].N? && vs[2].N? && vs[3].N? && vs[3].n < 256 && vs[4].N? && vs[5].N? && vs[6].D?
    ensures StoreFits(StoreFrom(vs))
  {
    StoreTyped(vs);
    Pow256Values();
    assert Matches(STORE_SHAPES[0], vs[0]) && Matches(STORE_SHAPES[1], vs[1]) && Matches(STORE_SHAPES[2], vs[2]);
    assert Matches(STORE_SHAPES[4], vs[4]) && Matches(STORE_SHAPES[5], vs[5]) && Matches(STORE_SHAPES[6], vs[6]);
  }

  lemma UpdateFromFits(vs: seq<Value>)
    requires AllMatch(UPDATE_SHAPES, vs)
    ensures |vs| == 5 && vs[0].N? && vs[1].N? && vs[2].N? && vs[3].N? && vs[4].N? && vs[4].n < 256
    ensures UpdateFits(UpdateFrom(vs))
  {
    UpdateTyped(vs);
    Pow256Values();
    assert Matches(UPDATE_SHAPES[0], vs[0]) && Matches(UPDATE_SHAPES[1], vs[1]);
    assert Matches(UPDATE_SHAPES[2], vs[2]) && Matches(UPDATE_SHAPES[3], vs[3]);
  }

  /** Decoded commands keep to the ranges of the source's integer fields. */
  lemma DecodedInRange(b: Bytes)
    requires Decode(b).Success?
    ensures var c := Decode(b).value; StoreFits(c.store) && UpdateFits(c.update) && c.storeId < U64_LIMIT
  {
    hide TakeAll, PutAll, Valid;
    PutTakeAll(COMMAND_SHAPES, b);
    var vs := TakeAll(COMMAND_SHAPES, b).value.0;
    TypedParts(vs);
    StoreFromFits(vs[4..11]);
    UpdateFromFits(vs[11..16]);
    Pow256Values();
    assert Matches(COMMAND_SHAPES[2], vs[2]);
  }

  /** What decoding makes of a command: zero stands for an absent number, 255 for an absent state. */
  function Normal(c: StoreCommand): StoreCommand {
    var u := c.update;
    c.(store := c.store.(heartbeat := 0),
       update := u.(expected := ZeroAsNone(OrZero(u.expected)), capacity := ZeroAsNone(OrZero(u.capacity)),
                    used := ZeroAsNone(OrZero(u.used)),
                    state := if u.state == Some(NO_STATE) then None else u.state),
       report := c.report.(expected := ZeroAsNone(OrZero(c.report.expected))))
  }

  lemma CommandBack(c: StoreCommand)
    requires Fits(c)
    ensures AllMatch(COMMAND_SHAPES, CommandValues(c)) && CommandFrom(CommandValues(c)) == Normal(c)
  {
    CommandMatches(c);
    hide AllMatch;
    var vs := CommandValues(c);
    assert vs[0..4] == CommandHead(c) && vs[4..11] == StoreValues(c.store) && vs[11..16] == UpdateValues(c.update);
    assert vs[16..19] == CreateValues(c.create) && vs[19..24] == ReportValues(c.report);
    assert vs[1] == vs[0..4][1] && vs[2] == vs[0..4][2] && vs[3] == vs[0..4][3];
  }

  lemma DecodeEncoded(c: StoreCommand)
    requires InRange(c) && Encode(c).Success?
    ensures Decode(Encode(c).value) == if Valid(Normal(c)) then Success(Normal(c)) else Failure(Corruption)
  {
    CommandBack(c);
    hide AllMatch, TakeAll, PutAll, Fits, CommandFrom, Valid;
    var vs := CommandValues(c);
    TakePutAll(COMMAND_SHAPES, vs, []);
    assert PutAll(COMMAND_SHAPES, vs) + [] == PutAll(COMMAND_SHAPES, vs);
    assert vs[0] == CommandHead(c)[0];
  }

  /** A command survives its encoding exactly when no optional field holds the value that means absence. */
  lemma RoundTripIff(c: StoreCommand)
    requires InRange(c) && Encode(c).Success?
    ensures Decode(Encode(c).value) == Success(c) <==>
              && c.store.heartbeat == 0
              && c.update.expected != Some(0) && c.update.capacity != Some(0) && c.update.used != Some(0)
              && c.update.state != Some(NO_STATE) && c.report.expected != Some(0)
  {
    DecodeEncoded(c);
    hide Fits, Decode, PutAll, Encode;
    assert Valid(c) by { EncodedIsValid(c); }
  }

  lemma EncodedIsValid(c: StoreCommand)
    requires InRange(c) && Encode(c).Success?
    ensures Valid(c)
  {
  }

  // ---------------------------------------------------------------- results

  const RESULT_HEAD := [Num(1), Num(1)]

  predicate ResultFits(r: StoreResult) {
    StoreFits(r.store) && |r.tasks| <= MAX_ITEMS && forall t :: t in r.tasks ==> TaskFits(t)
  }

  function TaskRows(tasks: seq<TaskRecord>): (rows: seq<seq<Value>>)
    ensures |rows| == |tasks| && forall i :: 0 <= i < |tasks| ==> rows[i] == TaskValues(tasks[i])
  {
    if tasks == [] then [] else [TaskValues(tasks[0])] + TaskRows(tasks[1..])
  }

  lemma RowsMatch(tasks: seq<TaskRecord>)
    requires forall t :: t in tasks ==> TaskFits(t)
    ensures forall r :: r in TaskRows(tasks) ==> AllMatch(TASK_SHAPES, r)
  {
    hide AllMatch, TaskFits;
    forall i | 0 <= i < |tasks| ensures AllMatch(TASK_SHAPES, TaskRows(tasks)[i])
    {
      TaskMatches(tasks[i]);
    }
  }

  const RESULT_SHAPES := RESULT_HEAD + (STORE_SHAPES + [Num(4)])

  function ResultValues(r: StoreResult): seq<Value> {
    [N(RESULT_VERSION), N(if r.duplicate then 1 else 0)] + (StoreValues(r.store) + [N(|r.tasks|)])
  }

  ghost function ResultBytes(r: StoreResult): Bytes
    requires ResultFits(r)
  {
    HeadMatches(r);
    RowsMatch(r.tasks);
    PutAll(RESULT_SHAPES, ResultValues(r)) + PutMany(TASK_SHAPES, TaskRows(r.tasks))
  }

  /** `EncodeStoreBusinessResult`. */
  ghost function EncodeResult(r: StoreResult): Result<Bytes> {
    if ResultFits(r) then Success(ResultBytes(r)) else Failure(InvalidArgument)
  }

  ghost function TasksFrom(rows: seq<seq<Value>>): (tasks: seq<TaskRecord>)
    requires forall r :: r in rows ==> AllMatch(TASK_SHAPES, r)
    ensures |tasks| == |rows|
  {
    if rows == [] then [] else
      assert rows[0] in rows;
      TaskTyped(rows[0]);
      [TaskFrom(rows[0])] + TasksFrom(rows[1..])
  }

  lemma ResultTyped(vs: seq<Value>)
    requires AllMatch(RESULT_SHAPES, vs)
    ensures |vs| == 10 && vs[0].N? && vs[1].N? && vs[9].N? && AllMatch(STORE_SHAPES, vs[2..9])
  {
    assert Matches(RESULT_SHAPES[0], vs[0]) && Matches(RESULT_SHAPES[1], vs[1]) && Matches(RESULT_SHAPES[9], vs[9]);
    hide Matches;
    assert RESULT_SHAPES[2..9] == STORE_SHAPES;
  }

  /** `DecodeStoreBusinessResult`. */
  ghost function DecodeResult(b: Bytes): Result<StoreResult> {
    var head := TakeAll(RESULT_SHAPES, b);
    if head.None? then Failure(Corruption) else
    PutTakeAll(RESULT_SHAPES, b);
    var vs := head.value.0;
    ResultTyped(vs);
    StoreTyped(vs[2..9]);
    if vs[0].n != RESULT_VERSION || vs[1].n > 1 || vs[9].n > MAX_ITEMS then Failure(Corruption) else
    var rows := TakeMany(TASK_SHAPES, vs[9].n, head.value.1);
    if rows.None? || rows.value.1 != [] then Failure(Corruption) else
    PutTakeMany(TASK_SHAPES, vs[9].n, head.value.1);
    Success(StoreResult(StoreFrom(vs[2..9]), TasksFrom(rows.value.0), vs[1].n == 1))
  }

  lemma {:induction false} TasksBack(tasks: seq<TaskRecord>)
    requires forall t :: t in tasks ==> TaskFits(t)
    ensures forall r :: r in TaskRows(tasks) ==> AllMatch(TASK_SHAPES, r)
    ensures TasksFrom(TaskRows(tasks)) == tasks
  {
    RowsMatch(tasks);
    hide AllMatch, TaskFits;
    if tasks != [] {
      assert tasks == [tasks[0]] + tasks[1..];
      assert TaskRows(tasks)[1..] == TaskRows(tasks[1..]);
      TasksBack(tasks[1..]);
    }
  }

  lemma ResultBack(r: StoreResult)
    requires ResultFits(r)
    ensures AllMatch(RESULT_SHAPES, ResultValues(r))
    ensures var vs := ResultValues(r);
            && |vs| == 10 && vs[0] == N(RESULT_VERSION) && vs[1] == N(if r.duplicate then 1 else 0)
            && vs[9] == N(|r.tasks|) && vs[2..9] == StoreValues(r.store)
  {
    HeadMatches(r);
    hide AllMatch, Matches;
  }

  /** A result decodes to itself, without the heartbeat of its store. */
  lemma ResultRoundTrip(r: StoreResult)
    requires EncodeResult(r).Success?
    ensures DecodeResult(EncodeResult(r).value) == Success(r.(store := r.store.(heartbeat := 0)))
  {
    hide AllMatch, TakeAll, PutAll, TakeMany, PutMany, TaskFits, StoreFits, ResultValues;
    ResultBack(r);
    TasksBack(r.tasks);
    var rows := TaskRows(r.tasks);
    TakePutAll(RESULT_SHAPES, ResultValues(r), PutMany(TASK_SHAPES, rows));
    TakePutMany(TASK_SHAPES, rows, []);
    assert PutMany(TASK_SHAPES, rows) + [] == PutMany(TASK_SHAPES, rows);
  }

  // ---------------------------------------------------------------- the writer and the reader

  method EncodeStoreBusinessCommand(c: StoreCommand) returns (payload: Result<Bytes>)
    requires InRange(c)
    ensures payload == Encode(c)
  {
    if !Valid(c) || !Fits(c) {
      return Failure(InvalidArgument);
    }
    CommandMatches(c);
    hide AllMatch, PutAll, Valid, Fits;
    var encoded := AppendFields([], COMMAND_SHAPES, CommandValues(c));
    assert [] + PutAll(COMMAND_SHAPES, CommandValues(c)) == PutAll(COMMAND_SHAPES, CommandValues(c));
    payload := Success(encoded);
  }

  method DecodeStoreBusinessCommand(payload: Bytes) returns (c: Result<StoreCommand>)
    ensures c == Decode(payload)
  {
    hide TakeAll, PutAll, AllMatch, Valid;
    var decoder := new Decoder(payload);
    var fields := decoder.ReadFields(COMMAND_SHAPES);
    if fields.None? {
      return Failure(Corruption);
    }
    PutTakeAll(COMMAND_SHAPES, payload);
    var vs := fields.value;
    TypedParts(vs);
    if vs[0].n != COMMAND_VERSION {
      return Failure(Corruption);
    }
    StoreTyped(vs[4..11]);
    UpdateTyped(vs[11..16]);
    CreateTyped(vs[16..19]);
    ReportTyped(vs[19..24]);
    var decoded := StoreCommand(vs[1].n, StoreFrom(vs[4..11]), UpdateFrom(vs[11..16]), CreateFrom(vs[16..19]),
                                ReportFrom(vs[19..24]), vs[2].n, vs[3].n);
    var left := decoder.Remaining();
    if left != 0 || !Valid(decoded) {
      return Failure(Corruption);
    }
    c := Success(decoded);
  }

  lemma {:induction false} PutManySnoc(ss: seq<Shape>, rows: seq<seq<Value>>, row: seq<Value>)
    requires (forall r :: r in rows ==> AllMatch(ss, r)) && AllMatch(ss, row)
    ensures forall r :: r in rows + [row] ==> AllMatch(ss, r)
    ensures PutMany(ss, rows + [row]) == PutMany(ss, rows) + PutAll(ss, row)
  {
    hide AllMatch, PutAll;
    if rows == [] {
      assert rows + [row] == [row];
      assert PutMany(ss, [row]) == PutAll(ss, row) + PutMany(ss, []);
    } else {
      assert (rows + [row])[1..] == rows[1..] + [row];
      PutManySnoc(ss, rows[1..], row);
    }
  }

  lemma TaskRowsSnoc(tasks: seq<TaskRecord>, t: TaskRecord)
    ensures TaskRows(tasks + [t]) == TaskRows(tasks) + [TaskValues(t)]
  {
  }

  /** The task loop: appends each record, or stops at the first that is too long. */
  method AppendTasks(data: Bytes, tasks: seq<TaskRecord>) returns (ok: bool, out: Bytes)
    ensures ok <==> forall t :: t in tasks ==> TaskFits(t)
    ensures ok ==> (forall r :: r in TaskRows(tasks) ==> AllMatch(TASK_SHAPES, r))
                   && out == data + PutMany(TASK_SHAPES, TaskRows(tasks))
  {
    hide AllMatch, PutAll, TaskFits, TaskValues;
    out := data;
    for i := 0 to |tasks|
      invariant forall t :: t in tasks[..i] ==> TaskFits(t)
      invariant forall r :: r in TaskRows(tasks[..i]) ==> AllMatch(TASK_SHAPES, r)
      invariant out == data + PutMany(TASK_SHAPES, TaskRows(tasks[..i]))
    {
      assert tasks[..i + 1] == tasks[..i] + [tasks[i]];
      if !TaskFits(tasks[i]) {
        assert tasks[i] in tasks;
        return false, out;
      }
      TaskMatches(tasks[i]);
      TaskRowsSnoc(tasks[..i], tasks[i]);
      PutManySnoc(TASK_SHAPES, TaskRows(tasks[..i]), TaskValues(tasks[i]));
      out := AppendFields(out, TASK_SHAPES, TaskValues(tasks[i]));
    }
    assert tasks[..|tasks|] == tasks;
    ok := true;
  }

  method EncodeStoreBusinessResult(r: StoreResult) returns (payload: Result<Bytes>)
    ensures payload == EncodeResult(r)
  {
    hide AllMatch, PutAll, PutMany, TaskFits, StoreFits;
    if |r.tasks| > MAX_ITEMS || !StoreFits(r.store) {
      return Failure(InvalidArgument);
    }
    HeadMatches(r);
    var encoded := AppendFields([], RESULT_SHAPES, ResultValues(r));
    var ok: bool;
    ok, encoded := AppendTasks(encoded, r.tasks);
    if !ok {
      return Failure(InvalidArgument);
    }
    assert [] + PutAll(RESULT_SHAPES, ResultValues(r)) == PutAll(RESULT_SHAPES, ResultValues(r));
    payload := Success(encoded);
  }

  lemma HeadMatches(r: StoreResult)
    requires StoreFits(r.store) && |r.tasks| <= MAX_ITEMS
    ensures AllMatch(RESULT_SHAPES, ResultValues(r))
  {
    var count := [N(|r.tasks|)];
    assert AllMatch(RESULT_HEAD, [N(RESULT_VERSION), N(if r.duplicate then 1 else 0)]) by { Pow256Values(); }
    assert AllMatch([Num(4)], count) by { Pow256Values(); }
    StoreMatches(r.store);
    hide AllMatch;
    MatchConcat(STORE_SHAPES, StoreValues(r.store), [Num(4)], count);
    MatchConcat(RESULT_HEAD, [N(RESULT_VERSION), N(if r.duplicate then 1 else 0)], STORE_SHAPES + [Num(4)],
                StoreValues(r.store) + count);
  }
}
