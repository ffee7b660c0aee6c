/**
 The snapshot phase as one state machine: the table loop of `snapshot`, the producer and consumer of
 `snapshot_one_table` around a channel of four batches, the 500-row statements of `write_rows`, and
 the list of finished tables in memory and on disk. Failed statements, failed saves and crashes may
 fall anywhere. Fields marked "history" are read by no guard.
 */
module Snapshot {
  import opened Bytes
  import opened Wrappers
  import opened Connector

  const CHANNEL_CAPACITY: nat := 4
  const WRITE_BATCH_SIZE: nat := 500

  datatype Config = Config(tables: seq<TableSchema>, source: seq<seq<Row>>)

  predicate ValidConfig(c: Config) {
    |c.source| == |c.tables|
  }

  /** No two tables share a target table. */
  predicate DistinctTargets(c: Config) {
    forall i, j :: 0 <= i < j < |c.tables| ==> c.tables[i].name != c.tables[j].name
  }

  /** No two tables share a name in the checkpoint. */
  predicate DistinctRecords(c: Config) {
    forall i, j :: 0 <= i < j < |c.tables| ==> c.tables[i].QualifiedName() != c.tables[j].QualifiedName()
  }

  predicate DistinctNames(c: Config) {
    DistinctTargets(c) && DistinctRecords(c)
  }

  /** How a concurrent half of the copy ended. */
  datatype Ending = Working | Succeeded | Failed

  datatype Session =
    | Down
    | Between(finished: seq<string>, pos: nat)
    | Copying(
        finished: seq<string>,
        pos: nat,
        unsent: seq<Row>,
        producer: Ending,
        channel: seq<seq<Row>>,
        current: seq<Row>,      // rows of the received batch not yet written
        consumer: Ending,
        before: seq<Row>,       // the target table when the copy began (history)
        written: seq<Row>)      // rows written by this copy (history)

  datatype State = State(
    target: map<string, seq<Row>>,
    durable: seq<string>,          // finished tables in the checkpoint file
    session: Session,
    clean: bool,                   // the last session began exact and met no failure (history)
    scratch: bool,                 // it began with nothing recorded and an empty target (history)
    completed: bool)               // it reached the end of the table list (history)

  function Rows(target: map<string, seq<Row>>, name: string): seq<Row> {
    if name in target then target[name] else []
  }

  function Flatten(batches: seq<seq<Row>>): seq<Row> {
    if batches == [] then [] else batches[0] + Flatten(batches[1..])
  }

  /** `mark_table_snapshotted`. */
  function Mark(finished: seq<string>, name: string): seq<string> {
    if name in finished then finished else finished + [name]
  }

  /** Every recorded table is an exact copy and every other target table is empty. */
  predicate Exact(c: Config, target: map<string, seq<Row>>, finished: seq<string>)
    requires ValidConfig(c)
  {
    forall t :: 0 <= t < |c.tables| ==>
      Rows(target, c.tables[t].name) == if c.tables[t].QualifiedName() in finished then c.source[t] else []
  }

  predicate Empty(target: map<string, seq<Row>>) {
    forall n :: n in target ==> target[n] == []
  }

  // ----- steps -----

  datatype Step =
    | Start
    | Skip                     // the next table is already recorded
    | Begin                    // its DDL was applied and the copy starts
    | DdlFails
    | SendBatch(n: nat)        // any split of the rows into batches
    | ProducerEnds(ok: bool)
    | Receive
    | WriteChunk
    | WriteFails(took: bool)
    | Drained
    | TableDone(saved: bool)   // recorded in memory, then saved, perhaps in vain
    | TableFails
    | Finish(saved: bool)
    | Crash

  predicate Enabled(c: Config, s: State, step: Step)
    requires ValidConfig(c)
  {
    var u := s.session;
    match step
    case Start => u.Down?
    case Skip => u.Between? && u.pos < |c.tables| && c.tables[u.pos].QualifiedName() in u.finished
    case Begin => u.Between? && u.pos < |c.tables| && c.tables[u.pos].QualifiedName() !in u.finished
    case DdlFails => u.Between? && u.pos < |c.tables| && c.tables[u.pos].QualifiedName() !in u.finished
    case SendBatch(n) =>
      u.Copying? && u.producer.Working? && 0 < n <= |u.unsent| && |u.channel| < CHANNEL_CAPACITY
    case ProducerEnds(ok) => u.Copying? && u.producer.Working? && (ok ==> u.unsent == [])
    case Receive => u.Copying? && u.consumer.Working? && u.current == [] && u.channel != []
    case WriteChunk => u.Copying? && u.consumer.Working? && u.current != [] && u.pos < |c.tables|
    case WriteFails(_) => u.Copying? && u.consumer.Working? && u.current != [] && u.pos < |c.tables|
    case Drained => u.Copying? && u.consumer.Working? && u.current == [] && u.channel == [] && !u.producer.Working?
    case TableDone(_) => u.Copying? && u.pos < |c.tables| && u.producer.Succeeded? && u.consumer.Succeeded?
    case TableFails =>
      u.Copying? && !u.producer.Working? && !u.consumer.Working? && (u.producer.Failed? || u.consumer.Failed?)
    case Finish(_) => u.Between? && u.pos == |c.tables|
    case Crash => !u.Down?
  }

  function ChunkSize(rows: seq<Row>): (n: nat)
    ensures n <= |rows|
  {
    if |rows| < WRITE_BATCH_SIZE then |rows| else WRITE_BATCH_SIZE
  }

  function Insert(c: Config, target: map<string, seq<Row>>, t: nat, rows: seq<Row>): map<string, seq<Row>>
    requires t < |c.tables|
  {
    target[c.tables[t].name := Rows(target, c.tables[t].name) + rows]
  }

  function Do(c: Config, s: State, step: Step): State
    requires ValidConfig(c) && Enabled(c, s, step)
  {
    var u := s.session;
    match step
    case Start =>
      s.(session := Between(s.durable, 0), clean := Exact(c, s.target, s.durable),
         scratch := s.durable == [] && Empty(s.target), completed := false)
    case Skip => s.(session := Between(u.finished, u.pos + 1))
    case Begin =>
      s.(session := Copying(u.finished, u.pos, c.source[u.pos], Working, [], [], Working,
                            Rows(s.target, c.tables[u.pos].name), []))
    case DdlFails => s.(session := Down, clean := false)
    case SendBatch(n) => s.(session := u.(unsent := u.unsent[n..], channel := u.channel + [u.unsent[..n]]))
    case ProducerEnds(ok) => s.(session := u.(producer := if ok then Succeeded else Failed), clean := s.clean && ok)
    case Receive => s.(session := u.(current := u.channel[0], channel := u.channel[1..]))
    case WriteChunk =>
      var k := ChunkSize(u.current);
      s.(target := Insert(c, s.target, u.pos, u.current[..k]),
         session := u.(current := u.current[k..], written := u.written + u.current[..k]))
    case WriteFails(took) =>
      s.(target := if took then Insert(c, s.target, u.pos, u.current[..ChunkSize(u.current)]) else s.target,
         session := u.(consumer := Failed), clean := false)
    case Drained => s.(session := u.(consumer := Succeeded))
    case TableDone(saved) =>
      var finished := Mark(u.finished, c.tables[u.pos].QualifiedName());
      s.(durable := if saved then finished else s.durable, session := Between(finished, u.pos + 1))
    case TableFails => s.(session := Down, clean := false)
    case Finish(saved) => s.(durable := if saved then u.finished else s.durable, session := Down, completed := true)
    case Crash => s.(session := Down, clean := false)
  }

  predicate Initial(c: Config, s: State) {
    s.durable == [] && s.session == Down && !s.completed
  }

  predicate Run(c: Config, s: State, steps: seq<Step>, s': State)
    requires ValidConfig(c)
    decreases |steps|
  {
    if steps == [] then s == s'
    else Enabled(c, s, steps[0]) && Run(c, Do(c, s, steps[0]), steps[1..], s')
  }

  /** Every target table equals its source, row for row. */
  predicate ExactCopy(c: Config, target: map<string, seq<Row>>)
    requires ValidConfig(c)
  {
    forall t :: 0 <= t < |c.tables| ==> Rows(target, c.tables[t].name) == c.source[t]
  }

  // ----- invariant -----

  predicate EndsWith(rows: seq<Row>, tail: seq<Row>) {
    |tail| <= |rows| && rows[|rows| - |tail|..] == tail
  }

  /** Every recorded table ends with all its source rows, in order. */
  predicate Recorded(c: Config, target: map<string, seq<Row>>, finished: seq<string>)
    requires ValidConfig(c)
  {
    forall t :: 0 <= t < |c.tables| && c.tables[t].QualifiedName() in finished ==>
      EndsWith(Rows(target, c.tables[t].name), c.source[t])
  }

  predicate Within(a: seq<string>, b: seq<string>) {
    forall n :: n in a ==> n in b
  }

  /** Tables before `pos` are recorded in memory. */
  predicate Passed(c: Config, finished: seq<string>, pos: nat) {
    forall t :: 0 <= t < pos && t < |c.tables| ==> c.tables[t].QualifiedName() in finished
  }

  /** Nothing is lost or reordered between source and target. */
  predicate Conserved(c: Config, target: map<string, seq<Row>>, u: Session)
    requires ValidConfig(c) && u.Copying? && u.pos < |c.tables|
  {
    && Rows(target, c.tables[u.pos].name) == u.before + u.written
    && u.written + u.current + Flatten(u.channel) + u.unsent == c.source[u.pos]
  }

  /** As `Exact`, except that table `pos` is under way. */
  predicate ExactBut(c: Config, target: map<string, seq<Row>>, finished: seq<string>, pos: nat)
    requires ValidConfig(c)
  {
    forall t :: 0 <= t < |c.tables| && t != pos ==>
      Rows(target, c.tables[t].name) == if c.tables[t].QualifiedName() in finished then c.source[t] else []
  }

  /** What holds of a copy under way, whatever the tables are called. */
  predicate Flow(c: Config, s: State)
    requires ValidConfig(c)
  {
    var u := s.session;
    u.Copying? ==>
      && u.pos < |c.tables|
      && c.tables[u.pos].QualifiedName() !in u.finished
      && |u.channel| <= CHANNEL_CAPACITY
      && (u.producer.Succeeded? ==> u.unsent == [])
      && (u.consumer.Succeeded? ==> u.current == [] && u.channel == [] && !u.producer.Working?)
      && (!u.consumer.Failed? ==> Conserved(c, s.target, u))
  }

  predicate Inv(c: Config, s: State)
    requires ValidConfig(c)
  {
    && Flow(c, s)
    && Recorded(c, s.target, s.durable)
    && match s.session
       case Down => s.completed && s.clean ==> ExactCopy(c, s.target)
       case Between(finished, pos) =>
         && Within(s.durable, finished) && Recorded(c, s.target, finished)
         && pos <= |c.tables| && Passed(c, finished, pos) && !s.completed
         && (s.clean ==> Exact(c, s.target, finished))
       case Copying(finished, pos, _, _, _, _, consumer, before, _) =>
         && Within(s.durable, finished) && Recorded(c, s.target, finished)
         && Passed(c, finished, pos) && !s.completed
         && (s.clean ==> before == [] && !consumer.Failed? && ExactBut(c, s.target, finished, pos))
  }

  // ----- proof -----

  lemma {:induction false} FlattenSnoc(batches: seq<seq<Row>>, b: seq<Row>)
    ensures Flatten(batches + [b]) == Flatten(batches) + b
  {
    if batches == [] {
      assert [b][1..] == [] && batches + [b] == [b];
    } else {
      FlattenSnoc(batches[1..], b);
      assert (batches + [b])[1..] == batches[1..] + [b];
    }
  }

  lemma ChunkConserved(a: seq<Row>, current: seq<Row>, k: nat, b: seq<Row>, d: seq<Row>)
    requires k <= |current|
    ensures a + current[..k] + current[k..] + b + d == a + current + b + d
  {
    assert current == current[..k] + current[k..];
    assert a + current[..k] + current[k..] == a + current;
  }

  lemma InsertAppends(c: Config, target: map<string, seq<Row>>, t: nat, rows: seq<Row>)
    requires t < |c.tables|
    ensures Rows(Insert(c, target, t, rows), c.tables[t].name) == Rows(target, c.tables[t].name) + rows
    ensures forall n :: n != c.tables[t].name ==> Rows(Insert(c, target, t, rows), n) == Rows(target, n)
  {
  }

  lemma WriteChunkFlows(c: Config, s: State)
    requires ValidConfig(c) && Flow(c, s) && Enabled(c, s, WriteChunk)
    ensures Flow(c, Do(c, s, WriteChunk))
  {
    hide Flatten, Insert, Rows;
    var u := s.session;
    var k := ChunkSize(u.current);
    InsertAppends(c, s.target, u.pos, u.current[..k]);
    ChunkConserved(u.written, u.current, k, Flatten(u.channel), u.unsent);
    assert (u.before + u.written) + u.current[..k] == u.before + (u.written + u.current[..k]);
  }

  lemma SendBatchFlows(c: Config, s: State, n: nat)
    requires ValidConfig(c) && Flow(c, s) && Enabled(c, s, SendBatch(n))
    ensures Flow(c, Do(c, s, SendBatch(n)))
  {
    hide Flatten, Rows;
    var u := s.session;
    FlattenSnoc(u.channel, u.unsent[..n]);
    assert u.unsent == u.unsent[..n] + u.unsent[n..];
    assert u.written + u.current + Flatten(u.channel) + u.unsent
        == u.written + u.current + (Flatten(u.channel) + u.unsent[..n]) + u.unsent[n..];
  }

  lemma ReceiveFlows(c: Config, s: State)
    requires ValidConfig(c) && Flow(c, s) && Enabled(c, s, Receive)
    ensures Flow(c, Do(c, s, Receive))
  {
    hide Rows;
    var u := s.session;
    assert u.written + [] + Flatten(u.channel) + u.unsent
        == u.written + u.channel[0] + Flatten(u.channel[1..]) + u.unsent;
  }

  /** Every step conserves the rows, whatever the tables are called. */
  lemma StepFlows(c: Config, s: State, step: Step)
    requires ValidConfig(c) && Flow(c, s) && Enabled(c, s, step)
    ensures Flow(c, Do(c, s, step))
  {
    match step
    case WriteChunk => WriteChunkFlows(c, s);
    case SendBatch(n) => SendBatchFlows(c, s, n);
    case Receive => ReceiveFlows(c, s);
    case Begin => assert [] + [] + Flatten([]) + c.source[s.session.pos] == c.source[s.session.pos];
    case _ =>
  }

  /** A finished copy leaves all source rows at the end of the target table. */
  lemma CopiedInFull(c: Config, s: State, saved: bool)
    requires ValidConfig(c) && Flow(c, s) && Enabled(c, s, TableDone(saved))
    ensures Rows(s.target, c.tables[s.session.pos].name) == s.session.before + c.source[s.session.pos]
  {
    var u := s.session;
    assert u.written + [] + [] + [] == u.written;
  }

  lemma InsertElsewhere(c: Config, target: map<string, seq<Row>>, t: nat, rows: seq<Row>, finished: seq<string>)
    requires ValidConfig(c) && DistinctNames(c) && t < |c.tables| && c.tables[t].QualifiedName() !in finished
    ensures Recorded(c, target, finished) ==> Recorded(c, Insert(c, target, t, rows), finished)
    ensures ExactBut(c, target, finished, t) ==> ExactBut(c, Insert(c, target, t, rows), finished, t)
  {
  }

  /** A statement, whether it took effect or not, disturbs no recorded table. */
  lemma WriteOk(c: Config, s: State, step: Step)
    requires ValidConfig(c) && DistinctNames(c) && Inv(c, s)
    requires Enabled(c, s, step) && (step.WriteChunk? || step.WriteFails?)
    ensures Inv(c, Do(c, s, step))
  {
    StepFlows(c, s, step);
    hide Flow, Recorded, ExactBut, Flatten, Insert, Exact, Rows, Passed;
    NotRecorded(c, s);
    var u := s.session;
    var k := ChunkSize(u.current);
    InsertElsewhere(c, s.target, u.pos, u.current[..k], u.finished);
    InsertElsewhere(c, s.target, u.pos, u.current[..k], s.durable);
  }

  lemma NotRecorded(c: Config, s: State)
    requires ValidConfig(c) && Inv(c, s) && s.session.Copying?
    ensures s.session.pos < |c.tables|
    ensures c.tables[s.session.pos].QualifiedName() !in s.durable
    ensures c.tables[s.session.pos].QualifiedName() !in s.session.finished
  {
    hide Recorded, ExactBut, Exact, Conserved, Passed;
  }

  /** Recording table `pos` adds exactly that table to the recorded ones. */
  lemma MarkedTables(c: Config, finished: seq<string>, pos: nat, t: nat)
    requires DistinctRecords(c) && pos < |c.tables| && t < |c.tables|
    ensures c.tables[t].QualifiedName() in Mark(finished, c.tables[pos].QualifiedName()) <==>
            c.tables[t].QualifiedName() in finished || t == pos
  {
  }

  lemma MarkRecords(c: Config, target: map<string, seq<Row>>, finished: seq<string>, pos: nat, before: seq<Row>)
    requires ValidConfig(c) && DistinctRecords(c) && pos < |c.tables| && Recorded(c, target, finished)
    requires Rows(target, c.tables[pos].name) == before + c.source[pos]
    ensures Recorded(c, target, Mark(finished, c.tables[pos].QualifiedName()))
    ensures before == [] && ExactBut(c, target, finished, pos) ==>
      Exact(c, target, Mark(finished, c.tables[pos].QualifiedName()))
  {
    assert before == [] ==> before + c.source[pos] == c.source[pos];
    hide Mark, Rows;
    forall t | 0 <= t < |c.tables|
      ensures c.tables[t].QualifiedName() in Mark(finished, c.tables[pos].QualifiedName()) <==>
              c.tables[t].QualifiedName() in finished || t == pos
    {
      MarkedTables(c, finished, pos, t);
    }
  }

  lemma TableDoneOk(c: Config, s: State, saved: bool)
    requires ValidConfig(c) && DistinctNames(c) && Inv(c, s) && Enabled(c, s, TableDone(saved))
    ensures Inv(c, Do(c, s, TableDone(saved)))
  {
    hide Recorded, ExactBut, Exact, Flatten, Conserved;
    CopiedInFull(c, s, saved);
    MarkRecords(c, s.target, s.session.finished, s.session.pos, s.session.before);
  }

  lemma StepKeepsInv(c: Config, s: State, step: Step)
    requires ValidConfig(c) && DistinctNames(c) && Inv(c, s) && Enabled(c, s, step)
    ensures Inv(c, Do(c, s, step))
  {
    match step
    case WriteChunk => WriteOk(c, s, step);
    case WriteFails(took) => WriteOk(c, s, step);
    case TableDone(saved) => TableDoneOk(c, s, saved);
    case _ => StepFlows(c, s, step); hide Flow;
  }

  lemma {:induction false} RunKeepsInv(c: Config, s: State, steps: seq<Step>, s': State)
    requires ValidConfig(c) && DistinctNames(c) && Inv(c, s) && Run(c, s, steps, s')
    ensures Inv(c, s')
    decreases |steps|
  {
    hide Inv, Enabled, Do;
    if steps != [] {
      StepKeepsInv(c, s, steps[0]);
      RunKeepsInv(c, Do(c, s, steps[0]), steps[1..], s');
    }
  }

  // ----- main results -----

  /** In every run, each table named in the checkpoint file ends with all its source rows, in order. */
  lemma RecordedTablesAreCopied(c: Config, s0: State, steps: seq<Step>, s: State)
    requires ValidConfig(c) && DistinctNames(c) && Initial(c, s0) && Run(c, s0, steps, s)
    ensures forall t :: 0 <= t < |c.tables| && c.tables[t].QualifiedName() in s.durable ==>
      exists before :: Rows(s.target, c.tables[t].name) == before + c.source[t]
  {
    RunKeepsInv(c, s0, steps, s);
    hide Run;
    forall t | 0 <= t < |c.tables| && c.tables[t].QualifiedName() in s.durable
      ensures exists before :: Rows(s.target, c.tables[t].name) == before + c.source[t]
    {
      var rows := Rows(s.target, c.tables[t].name);
      assert rows == rows[..|rows| - |c.source[t]|] + c.source[t];
    }
  }

  /**
   A completed session that began exact (for one, from an empty target) and met no failure leaves
   every target table equal to its source, row for row, whatever the interleaving and batch sizes.
   */
  lemma CleanSnapshotIsExact(c: Config, s0: State, steps: seq<Step>, s: State)
    requires ValidConfig(c) && DistinctNames(c) && Initial(c, s0) && Run(c, s0, steps, s)
    requires s.completed && s.clean
    ensures ExactCopy(c, s.target)
  {
    RunKeepsInv(c, s0, steps, s);
  }

  /** From an empty target without a checkpoint, a session begins exact, whatever the tables are called. */
  lemma EmptyTargetIsExact(c: Config, target: map<string, seq<Row>>)
    requires ValidConfig(c) && Empty(target)
    ensures Exact(c, target, [])
  {
  }

  /** A recorded table stays recorded, in every run. */
  lemma {:induction false} RecordsStay(c: Config, s: State, steps: seq<Step>, s': State)
    requires ValidConfig(c) && DistinctNames(c) && Inv(c, s) && Run(c, s, steps, s')
    ensures Within(s.durable, s'.durable)
    decreases |steps|
  {
    if steps != [] {
      StepKeepsInv(c, s, steps[0]);
      RecordStays(c, s, steps[0]);
      hide Inv, Enabled, Do;
      RecordsStay(c, Do(c, s, steps[0]), steps[1..], s');
    }
  }

  lemma RecordStays(c: Config, s: State, step: Step)
    requires ValidConfig(c) && Inv(c, s) && Enabled(c, s, step)
    ensures Within(s.durable, Do(c, s, step).durable)
    ensures !step.WriteChunk? && !step.WriteFails? ==> Do(c, s, step).target == s.target
  {
    hide Recorded, ExactBut, Exact, Flow, Passed, ExactCopy;
  }

  // ----- what a step may do -----

  /** The channel holds at most four batches, and a statement has as many of the 500 rows as there are. */
  lemma BoundsHold(c: Config, s: State)
    requires ValidConfig(c) && Flow(c, s) && s.session.Copying?
    ensures |s.session.channel| <= 4
    ensures Enabled(c, s, SendBatch(1)) <==>
      s.session.producer.Working? && s.session.unsent != [] && |s.session.channel| < 4
    ensures Enabled(c, s, WriteChunk) ==>
      var u, name := s.session, c.tables[s.session.pos].name;
      var k := if |u.current| < 500 then |u.current| else 500;
      Rows(Do(c, s, WriteChunk).target, name) == Rows(s.target, name) + u.current[..k]
  {
    hide Conserved;
  }

  /** A copy is over when both halves are: with success if and only if both succeeded, else with failure. */
  lemma CopyEnds(c: Config, s: State, saved: bool)
    requires ValidConfig(c) && Flow(c, s) && s.session.Copying?
    ensures Enabled(c, s, TableDone(saved)) <==> s.session.producer == s.session.consumer == Succeeded
    ensures Enabled(c, s, TableFails) <==>
      s.session.producer != Working && s.session.consumer != Working && !Enabled(c, s, TableDone(saved))
  {
    hide Conserved;
  }

  /** The file holds what was finished after a save that succeeded, and is untouched otherwise. */
  lemma SavesMean(c: Config, s: State, saved: bool)
    requires ValidConfig(c) && Flow(c, s)
    ensures Enabled(c, s, TableDone(saved)) ==>
      var s' := Do(c, s, TableDone(saved));
      && s'.session == Between(s.session.finished + [c.tables[s.session.pos].QualifiedName()], s.session.pos + 1)
      && s'.durable == if saved then s'.session.finished else s.durable
    ensures Enabled(c, s, Finish(saved)) ==>
      Do(c, s, Finish(saved)).durable == if saved then s.session.finished else s.durable
  {
    hide Conserved;
  }

  /** Failures and crashes end the session and lose nothing but what it held in memory. */
  lemma FailuresMean(c: Config, s: State, step: Step)
    requires ValidConfig(c) && Enabled(c, s, step)
    ensures step.Crash? || step.DdlFails? || step.TableFails? ==> Do(c, s, step) == s.(session := Down, clean := false)
    ensures step.WriteFails? ==>
      var u, s' := s.session, Do(c, s, step);
      && s'.durable == s.durable && s'.session == u.(consumer := Failed) && !s'.clean && u.current != []
      && s'.target == if step.took then Insert(c, s.target, u.pos, u.current[..ChunkSize(u.current)]) else s.target
  {
  }
}
