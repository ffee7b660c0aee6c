/**
 Live change replication as one state machine: the source's poll loop, the bounded channel, the
 consumer of the migration engine, and the resume token in memory and on disk. Every interleaving,
 stop, failed statement, failed save, crash and restart is a run of this machine.

 Fields marked "history" are never read by a step's guard; they record what happened so that the
 theorems can speak about it.
 */
module Replication {
  import opened Bytes
  import opened Wrappers
  import opened Connector
  import opened Cdc
  import opened ChangeLog
  import Lsn
  import Target

  const LSN_BYTES: nat := 10
  const CHANNEL_CAPACITY: nat := 64

  /** What a migration is started with; `init` is the source at the first LSN, `start`. */
  datatype Config = Config(tables: seq<TableSchema>, init: seq<Image>, start: nat)

  predicate ValidConfig(c: Config) {
    && |c.init| == |c.tables|
    && (forall t :: 0 <= t < |c.tables| ==> Keyed(c.tables[t]))
    && (forall i, j :: 0 <= i < j < |c.tables| ==> c.tables[i].name != c.tables[j].name)
  }

  /** A message in the channel, with its origin as history. */
  datatype Item =
    | Change(table: nat, index: nat, event: ChangeEvent)
    | Commit(lsn: nat, event: ChangeEvent)

  datatype Producer =
    | Polling(last: nat)
    | Scanning(last: nat, max: nat, next: nat, pending: seq<nat>)
    | Returned

  /** A call of `replicate`. The channel holds `sent[taken..]`. */
  datatype Session =
    | Down
    | Up(
        base: nat,             // LSN resumed from (history)
        producer: Producer,
        sent: seq<Item>,       // everything sent so far (history)
        taken: nat,            // messages received by the consumer
        done: nat,             // messages it acted on successfully (history)
        running: bool,         // the consumer loop has not ended
        token: Option<string>, // the resume token of the checkpoint in memory
        synced: bool           // target matched the source at `base`, and no statement failed since (history)
      )

  datatype State = State(
    log: seq<Entry>,
    clock: nat,                      // the source's current maximum LSN
    target: map<string, seq<Row>>,
    durable: Option<string>,         // the resume token of the checkpoint file
    applied: set<nat>,               // log positions whose event reached the target (history)
    session: Session)

  function TokenOf(lsn: nat): string {
    Lsn.LsnToHex(ToBE(lsn, LSN_BYTES))
  }

  function LsnOf(token: string): Result<nat> {
    match Lsn.HexToLsn(token)
    case Ok(b) => Ok(FromBE(b))
    case Err => Err
  }

  /** The engine's name index: the last table of that name wins. */
  function Lookup(tables: seq<TableSchema>, name: string): Option<nat> {
    if tables == [] then None
    else if tables[|tables| - 1].name == name then Some(|tables| - 1)
    else Lookup(tables[..|tables| - 1], name)
  }

  function Rows(target: map<string, seq<Row>>, name: string): seq<Row> {
    if name in target then target[name] else []
  }

  function ImageAt(c: Config, log: seq<Entry>, t: nat, lsn: nat): Image
    requires ValidConfig(c) && t < |c.tables|
  {
    SourceState(c.tables[t], c.init[t], log, t, c.start, lsn, |log|)
  }

  /** The captured log is in commit order and every change after `start` is well formed. */
  predicate ValidLog(c: Config, log: seq<Entry>, clock: nat)
    requires ValidConfig(c)
  {
    && c.start <= clock < Pow256(LSN_BYTES)
    && Sorted(log)
    && (forall i :: 0 <= i < |log| ==> log[i].lsn <= clock && log[i].table < |c.tables|)
    && (forall i :: 0 <= i < |log| && c.start < log[i].lsn ==> ValidEntry(c, log, i))
  }

  predicate ValidEntry(c: Config, log: seq<Entry>, i: nat)
    requires ValidConfig(c) && i < |log| && log[i].table < |c.tables|
  {
    var t := log[i].table;
    ValidChange(c.tables[t], SourceState(c.tables[t], c.init[t], log, t, c.start, log[i].lsn, i), log[i])
  }

  /** The event the source sends for a log position. */
  function EventOf(c: Config, e: Entry): ChangeEvent
    requires e.table < |c.tables| && Forwarded(e)
  {
    MapCdcOperation(e.cells, c.tables[e.table]).value.value
  }

  /** Every target table equals its source table at `lsn`. */
  predicate InStep(c: Config, log: seq<Entry>, target: map<string, seq<Row>>, lsn: nat)
    requires ValidConfig(c)
  {
    forall t :: 0 <= t < |c.tables| ==>
      Target.Represents(c.tables[t], Rows(target, c.tables[t].name), ImageAt(c, log, t, lsn))
  }

  // ----- steps -----

  datatype Step =
    | Grow(entries: seq<Entry>, clock: nat) // the source commits more changes
    | Start                                 // `replicate` is called
    | Poll                                  // a new maximum LSN is seen
    | Query                                 // the next table's window is read
    | Send
    | SendCommit
    | ProducerEnds
    | TakeCommit
    | Apply
    | ApplyFails(took: bool)                // the statement may or may not have reached the target
    | Stop                                  // `should_stop` after a receive: the message is dropped
    | Drained
    | Finish(saved: bool)                   // `replicate` returns after saving, perhaps in vain
    | Crash

  function ResumeLsn(c: Config, durable: Option<string>): Result<nat> {
    match durable
    case None => Ok(c.start)
    case Some(token) => LsnOf(token)
  }

  predicate HasRoom(u: Session)
    requires u.Up?
  {
    |u.sent| < u.taken + CHANNEL_CAPACITY
  }

  /** The consumer is about to act on the message it receives next. */
  predicate Receives(u: Session) {
    u.Up? && u.running && u.taken < |u.sent|
  }

  predicate Enabled(c: Config, s: State, step: Step)
    requires ValidConfig(c)
  {
    var u := s.session;
    match step
    case Grow(entries, clock) =>
      && s.clock <= clock
      && (forall k :: 0 <= k < |entries| ==> s.clock < entries[k].lsn)
      && ValidLog(c, s.log + entries, clock)
    case Start => u.Down? && ResumeLsn(c, s.durable).Ok?
    case Poll =>
      u.Up? && u.producer.Polling? && Lsn.Less(ToBE(u.producer.last, LSN_BYTES), ToBE(s.clock, LSN_BYTES))
    case Query => u.Up? && u.producer.Scanning? && u.producer.pending == [] && u.producer.next < |c.tables|
    case Send =>
      && u.Up? && u.producer.Scanning? && u.producer.pending != [] && HasRoom(u)
      && u.producer.pending[0] < |s.log|
      && var e := s.log[u.producer.pending[0]];
         e.table < |c.tables| && Forwarded(e)
    case SendCommit =>
      u.Up? && u.producer.Scanning? && u.producer.pending == [] && u.producer.next == |c.tables| && HasRoom(u)
    case ProducerEnds => u.Up?
    case TakeCommit => Receives(u) && u.sent[u.taken].event.CommitLsn?
    case Apply => Receives(u) && !u.sent[u.taken].event.CommitLsn?
    case ApplyFails(_) => Receives(u) && !u.sent[u.taken].event.CommitLsn?
    case Stop => Receives(u)
    case Drained => u.Up? && u.producer.Returned? && u.taken == |u.sent|
    case Finish(_) => u.Up? && u.producer.Returned? && !u.running
    case Crash => u.Up?
  }

  /** What `apply_change` does to the target, through the engine's name index. */
  function Applied(c: Config, target: map<string, seq<Row>>, event: ChangeEvent): map<string, seq<Row>>
    requires !event.CommitLsn?
  {
    match Lookup(c.tables, event.table)
    case None => target
    case Some(t) =>
      if t < |c.tables| then target[c.tables[t].name :=
        Target.ApplyChange(c.tables[t], Rows(target, c.tables[t].name), event)]
      else target
  }

  function Origin(item: Item): set<nat> {
    if item.Change? then {item.index} else {}
  }

  function Do(c: Config, s: State, step: Step): State
    requires ValidConfig(c) && Enabled(c, s, step)
  {
    var u := s.session;
    match step
    case Grow(entries, clock) => s.(log := s.log + entries, clock := clock)
    case Start =>
      var base := ResumeLsn(c, s.durable).value;
      s.(session := Up(base, Polling(base), [], 0, 0, true, s.durable, InStep(c, s.log, s.target, base)))
    case Poll => s.(session := u.(producer := Scanning(u.producer.last, s.clock, 0, [])))
    case Query =>
      var p := u.producer;
      s.(session := u.(producer := p.(next := p.next + 1, pending := Window(s.log, p.next, p.last, p.max, |s.log|))))
    case Send =>
      var i := u.producer.pending[0];
      s.(session := u.(sent := u.sent + [Change(s.log[i].table, i, EventOf(c, s.log[i]))],
                       producer := u.producer.(pending := u.producer.pending[1..])))
    case SendCommit =>
      var max := u.producer.max;
      s.(session := u.(sent := u.sent + [Commit(max, CommitLsn(TokenOf(max)))], producer := Polling(max)))
    case ProducerEnds => s.(session := u.(producer := Returned))
    case TakeCommit =>
      var token := u.sent[u.taken].event.token;
      s.(session := u.(taken := u.taken + 1, done := u.taken + 1,
                       token := if token != "" then Some(token) else u.token))
    case Apply =>
      s.(target := Applied(c, s.target, u.sent[u.taken].event),
         applied := s.applied + Origin(u.sent[u.taken]),
         session := u.(taken := u.taken + 1, done := u.taken + 1))
    case ApplyFails(took) =>
      s.(target := if took then Applied(c, s.target, u.sent[u.taken].event) else s.target,
         applied := if took then s.applied + Origin(u.sent[u.taken]) else s.applied,
         session := u.(taken := u.taken + 1, running := false, synced := false))
    case Stop => s.(session := u.(taken := u.taken + 1, running := false))
    case Drained => s.(session := u.(running := false))
    case Finish(saved) => s.(durable := if saved then u.token else s.durable, session := Down)
    case Crash => s.(session := Down)
  }

  predicate Initial(c: Config, s: State)
    requires ValidConfig(c)
  {
    ValidLog(c, s.log, s.clock) && s.durable == None && s.applied == {} && s.session == Down
  }

  /** `steps` leads from `s` to `s'`. */
  predicate Run(c: Config, s: State, steps: seq<Step>, s': State)
    requires ValidConfig(c)
    decreases |steps|
  {
    if steps == [] then s == s'
    else Enabled(c, s, steps[0]) && Run(c, Do(c, s, steps[0]), steps[1..], s')
  }

  // ----- invariant -----

  /** No forwarded change in `(start, hi]` is missing from the target's history. */
  predicate Covered(c: Config, log: seq<Entry>, applied: set<nat>, hi: nat) {
    forall i :: 0 <= i < |log| && c.start < log[i].lsn <= hi && Forwarded(log[i]) ==> i in applied
  }

  predicate SafeToken(c: Config, log: seq<Entry>, clock: nat, applied: set<nat>, token: Option<string>) {
    token.Some? ==>
      && LsnOf(token.value).Ok?
      && c.start <= LsnOf(token.value).value <= clock
      && Covered(c, log, applied, LsnOf(token.value).value)
  }

  /** Positions sent for table `t`, in order. */
  function SentFor(sent: seq<Item>, t: nat): seq<nat> {
    if sent == [] then []
    else
      var item := sent[|sent| - 1];
      if item.Change? && item.table == t then SentFor(sent[..|sent| - 1], t) + [item.index]
      else SentFor(sent[..|sent| - 1], t)
  }

  predicate ItemOk(c: Config, log: seq<Entry>, clock: nat, base: nat, item: Item) {
    match item
    case Change(t, i, event) =>
      && i < |log| && log[i].table == t < |c.tables| && Forwarded(log[i])
      && c.start < log[i].lsn
      && event == EventOf(c, log[i])
    case Commit(lsn, event) => base <= lsn <= clock && event == CommitLsn(TokenOf(lsn))
  }

  predicate ItemsOk(c: Config, log: seq<Entry>, clock: nat, base: nat, sent: seq<Item>) {
    forall j :: 0 <= j < |sent| ==> ItemOk(c, log, clock, base, sent[j])
  }

  /** Before a commit token, every table's window up to it was sent in full. */
  predicate CommitsComplete(c: Config, log: seq<Entry>, base: nat, sent: seq<Item>) {
    forall j, t :: 0 <= j < |sent| && sent[j].Commit? && 0 <= t < |c.tables| ==>
      SentFor(sent[..j], t) == Window(log, t, base, sent[j].lsn, |log|)
  }

  /** Nothing is sent out of order or twice. */
  predicate SentInOrder(c: Config, log: seq<Entry>, clock: nat, base: nat, sent: seq<Item>) {
    forall t :: 0 <= t < |c.tables| ==> SentFor(sent, t) <= Window(log, t, base, clock, |log|)
  }

  /** What is about to be sent lies above the window before. */
  predicate Ahead(log: seq<Entry>, last: nat, pending: seq<nat>) {
    forall k :: 0 <= k < |pending| ==> pending[k] < |log| && last < log[pending[k]].lsn
  }

  /** The token in memory once `done` was processed, when the session began with `first`. */
  function TokenAfter(first: Option<string>, done: seq<Item>): Option<string> {
    if done == [] then first
    else
      match done[|done| - 1]
      case Commit(lsn, _) => Some(TokenOf(lsn))
      case Change(_, _, _) => TokenAfter(first, done[..|done| - 1])
  }

  /** How far the poll loop has come for each table. */
  predicate ProducerOk(c: Config, log: seq<Entry>, clock: nat, base: nat, sent: seq<Item>, p: Producer) {
    match p
    case Returned => true
    case Polling(last) =>
      && base <= last <= clock
      && forall t :: 0 <= t < |c.tables| ==> SentFor(sent, t) == Window(log, t, base, last, |log|)
    case Scanning(last, max, next, pending) =>
      && base <= last <= max <= clock
      && next <= |c.tables|
      && (next == 0 ==> pending == [])
      && Ahead(log, last, pending)
      && forall t :: 0 <= t < |c.tables| ==>
           if t == next - 1 then SentFor(sent, t) + pending == Window(log, t, base, max, |log|)
           else if t < next then SentFor(sent, t) == Window(log, t, base, max, |log|)
           else SentFor(sent, t) == Window(log, t, base, last, |log|)
  }

  /** The table holds the source at `base` with the changes `w` replayed. */
  predicate TableFollows(c: Config, log: seq<Entry>, target: map<string, seq<Row>>, base: nat, t: nat, w: seq<nat>)
    requires ValidConfig(c) && t < |c.tables|
  {
    && (forall k :: 0 <= k < |w| ==> w[k] < |log|)
    && Target.Represents(c.tables[t], Rows(target, c.tables[t].name),
                         Replay(c.tables[t], ImageAt(c, log, t, base), log, w))
  }

  /** Every target table follows the processed messages. */
  predicate Following(c: Config, log: seq<Entry>, target: map<string, seq<Row>>, base: nat, done: seq<Item>)
    requires ValidConfig(c)
  {
    forall t :: 0 <= t < |c.tables| ==> TableFollows(c, log, target, base, t, SentFor(done, t))
  }

  predicate AllApplied(done: seq<Item>, applied: set<nat>) {
    forall j :: 0 <= j < |done| && done[j].Change? ==> done[j].index in applied
  }

  predicate SessionInv(c: Config, s: State)
    requires ValidConfig(c) && s.session.Up?
  {
    var u := s.session;
    && u.done <= u.taken <= |u.sent| <= u.taken + CHANNEL_CAPACITY
    && (u.running ==> u.done == u.taken)
    && c.start <= u.base <= s.clock
    && Covered(c, s.log, s.applied, u.base)
    && SafeToken(c, s.log, s.clock, s.applied, u.token)
    && u.token == TokenAfter(s.durable, u.sent[..u.done])
    && ItemsOk(c, s.log, s.clock, u.base, u.sent)
    && AllApplied(u.sent[..u.done], s.applied)
    && CommitsComplete(c, s.log, u.base, u.sent)
    && SentInOrder(c, s.log, s.clock, u.base, u.sent)
    && ProducerOk(c, s.log, s.clock, u.base, u.sent, u.producer)
    && (u.synced ==> Following(c, s.log, s.target, u.base, u.sent[..u.done]))
  }

  /** Changes at or before the starting LSN never reach the target. */
  predicate AppliedAfterStart(c: Config, log: seq<Entry>, applied: set<nat>) {
    forall i :: i in applied ==> i < |log| && c.start < log[i].lsn
  }

  predicate Inv(c: Config, s: State)
    requires ValidConfig(c)
  {
    && ValidLog(c, s.log, s.clock)
    && AppliedAfterStart(c, s.log, s.applied)
    && SafeToken(c, s.log, s.clock, s.applied, s.durable)
    && (s.session.Up? ==> SessionInv(c, s))
  }

  // ----- frames -----

  /** The resume token on disk changes only by a save that succeeds, and then to the one in memory. */
  lemma OnlySavesReachDisk(c: Config, s: State, step: Step)
    requires ValidConfig(c) && Enabled(c, s, step)
    ensures Do(c, s, step).durable == if step == Finish(true) then s.session.token else s.durable
  {
  }

  /** The target changes only by a statement of the consumer, and the log only by the source. */
  lemma OnlyStatementsReachTarget(c: Config, s: State, step: Step)
    requires ValidConfig(c) && Enabled(c, s, step)
    ensures !step.Apply? && !step.ApplyFails? ==>
      Do(c, s, step).target == s.target && Do(c, s, step).applied == s.applied
    ensures !step.Grow? ==> Do(c, s, step).log == s.log && Do(c, s, step).clock == s.clock
  {
  }

  /** A statement that failed counts as applied exactly when it reached the target, and ends the consumer. */
  lemma FailedStatementMeans(c: Config, s: State, took: bool)
    requires ValidConfig(c) && Enabled(c, s, ApplyFails(took))
    ensures var u, s' := s.session, Do(c, s, ApplyFails(took));
      && s'.target == (if took then Applied(c, s.target, u.sent[u.taken].event) else s.target)
      && s'.applied == (if took then s.applied + Origin(u.sent[u.taken]) else s.applied)
      && s'.session.Up? && s'.session.token == u.token && s'.session.done == u.done
      && !Receives(s'.session) && !s'.session.synced
  {
  }

  /** After a stop nothing more is received, and the message that came with it is dropped; a crash ends everything. */
  lemma EndingsMean(c: Config, s: State, step: Step)
    requires ValidConfig(c) && Enabled(c, s, step)
    ensures step.Stop? ==>
      var u, s' := s.session, Do(c, s, step);
      && s' == s.(session := s'.session) && s'.session.Up? && !Receives(s'.session)
      && s'.session.taken == u.taken + 1 && s'.session.done == u.done && s'.session.token == u.token
    ensures step.Crash? ==> Do(c, s, step) == s.(session := Down)
  {
  }
}
