/** Replication from one session to the next, and a run in which the theorems have something to say. */
module ReplicationSessions {
  import opened Bytes
  import opened Wrappers
  import opened Connector
  import opened Cdc
  import opened ChangeLog
  import opened Replication
  import opened ReplicationProof
  import Lsn
  import Target

  // ----- a saved commit carries over -----

  lemma GrowKeepsInStep(c: Config, s: State, entries: seq<Entry>, clock: nat, lsn: nat)
    requires ValidConfig(c) && Enabled(c, s, Grow(entries, clock)) && InStep(c, s.log, s.target, lsn)
    requires c.start <= lsn <= s.clock
    ensures InStep(c, s.log + entries, s.target, lsn)
  {
    hide Window, SourceState, Target.Represents, ValidLog, Rows;
    forall t | 0 <= t < |c.tables|
      ensures ImageAt(c, s.log + entries, t, lsn) == ImageAt(c, s.log, t, lsn)
    {
      StableWindow(c, s, entries, t, c.start, lsn);
    }
  }

  /** The source moves on while nothing runs. */
  lemma {:induction false} GrowthKeepsInStep(c: Config, s: State, steps: seq<Step>, s': State, lsn: nat)
    requires ValidConfig(c) && Run(c, s, steps, s') && forall i :: 0 <= i < |steps| ==> steps[i].Grow?
    requires InStep(c, s.log, s.target, lsn) && c.start <= lsn <= s.clock
    ensures InStep(c, s'.log, s'.target, lsn)
    ensures s'.durable == s.durable && s'.session == s.session
    decreases |steps|
  {
    hide InStep, ValidLog;
    if steps != [] {
      GrowKeepsInStep(c, s, steps[0].entries, steps[0].clock, lsn);
      GrowthKeepsInStep(c, Do(c, s, steps[0]), steps[1..], s', lsn);
    }
  }

  /** After a commit the token in memory is that commit's, and reads back as its LSN. */
  lemma TokenOfLastCommit(c: Config, s: State)
    requires ValidConfig(c) && Inv(c, s) && s.session.Up?
    requires 0 < s.session.done <= |s.session.sent| && s.session.sent[s.session.done - 1].Commit?
    ensures var lsn := s.session.sent[s.session.done - 1].lsn;
      c.start <= lsn <= s.clock && s.session.token.Some? && LsnOf(s.session.token.value) == Ok(lsn)
  {
    hide LsnOf, Covered, SafeToken, ItemsOk, AllApplied, CommitsComplete, SentInOrder, ProducerOk, Following,
      ValidEntry,
      AppliedAfterStart, TokenOf;
    var u := s.session;
    CommitBound(c, s, u.done - 1);
    TokenOfLsn(u.sent[u.done - 1].lsn);
    assert u.sent[..u.done][u.done - 1] == u.sent[u.done - 1];
  }

  /**
   From one session to the next: a session in step whose last processed message was a commit, ended with a
   save that succeeded, is followed by one that begins in step, whatever the source did in between. With
   `InStepAtEveryCommit` this carries the target's meaning over any number of such sessions.
   */
  lemma NextSessionBeginsInStep(c: Config, s0: State, steps: seq<Step>, s: State, between: seq<Step>, s': State)
    requires ValidConfig(c) && Initial(c, s0) && Run(c, s0, steps, s)
    requires s.session.Up? && s.session.synced
    requires 0 < s.session.done <= |s.session.sent| && s.session.sent[s.session.done - 1].Commit?
    requires Enabled(c, s, Finish(true))
    requires Run(c, Do(c, s, Finish(true)), between, s') && forall i :: 0 <= i < |between| ==> between[i].Grow?
    ensures Enabled(c, s', Start) && Do(c, s', Start).session.synced
  {
    hide Run, InStep, LsnOf, Inv, Initial;
    var lsn := s.session.sent[s.session.done - 1].lsn;
    InStepAtEveryCommit(c, s0, steps, s);
    Reachable(c, s0, steps, s);
    TokenOfLastCommit(c, s);
    GrowthKeepsInStep(c, Do(c, s, Finish(true)), between, s', lsn);
  }

  // ----- a run -----

  lemma {:induction false} RunThen(c: Config, s: State, steps: seq<Step>, s': State, step: Step)
    requires ValidConfig(c) && Run(c, s, steps, s') && Enabled(c, s', step)
    ensures Run(c, s, steps + [step], Do(c, s', step))
    decreases |steps|
  {
    hide Enabled, Do;
    if steps == [] {
      assert [step][1..] == [] && steps + [step] == [step];
    } else {
      assert (steps + [step])[1..] == steps[1..] + [step];
      RunThen(c, Do(c, s, steps[0]), steps[1..], s', step);
    }
  }

  /** One table, with a change at the starting LSN and a change right after it. */
  datatype Example = Example(t: TableSchema, image: Image, rows: seq<Row>, start: nat, early: Entry, late: Entry)

  ghost predicate ExampleOk(x: Example) {
    && Keyed(x.t) && x.start + 1 < Pow256(LSN_BYTES) && Target.Represents(x.t, x.rows, x.image)
    && x.early.table == x.late.table == 0 && x.early.lsn == x.start && x.late.lsn == x.start + 1
    && Forwarded(x.early) && Forwarded(x.late) && ValidChange(x.t, x.image, x.late)
  }

  function ConfigOf(x: Example): Config {
    Config([x.t], [x.image], x.start)
  }

  function Begin(x: Example): State {
    State([x.early, x.late], x.start + 1, map[x.t.name := x.rows], None, {}, Down)
  }

  lemma ExampleBegins(x: Example)
    requires ExampleOk(x)
    ensures ValidConfig(ConfigOf(x)) && Initial(ConfigOf(x), Begin(x))
    ensures InStep(ConfigOf(x), Begin(x).log, Begin(x).target, x.start)
    ensures Window(Begin(x).log, 0, x.start, x.start + 1, 2) == [1]
  {
    hide KeyOf, Operation, Keyed, Target.Represents, Forwarded, SourceApply, ValidChange;
    var c, log := ConfigOf(x), Begin(x).log;
    assert SourceState(x.t, x.image, log, 0, x.start, x.start, 1) == x.image;
    assert SourceState(x.t, x.image, log, 0, x.start, x.start, 2) == x.image;
    assert SourceState(x.t, x.image, log, 0, x.start, x.start + 1, 1) == x.image;
    assert ValidEntry(c, log, 1);
    assert Window(log, 0, x.start, x.start + 1, 1) == [];
  }

  lemma ExampleIsDown(x: Example)
    ensures ResumeLsn(ConfigOf(x), Begin(x).durable) == Ok(x.start)
  {
  }

  /** The session when its only window was read. */
  lemma ExampleScans(x: Example) returns (steps: seq<Step>, s: State)
    requires ExampleOk(x) && ValidConfig(ConfigOf(x))
    ensures Run(ConfigOf(x), Begin(x), steps, s)
    ensures s == Begin(x).(session :=
      Up(x.start, Scanning(x.start, x.start + 1, 1, [1]), [], 0, 0, true, None, true))
  {
    hide Run, InStep, Window, ValidLog, ValidConfig, LsnOf, Lsn.Less, Keyed, ValidChange, Target.Represents, Forwarded,
      Initial, ToBE;
    var c := ConfigOf(x);
    ExampleBegins(x);
    ExampleIsDown(x);
    PollsNext(x.start);
    steps, s := [], Begin(x);
    assert Run(c, s, [], s) by { Nothing(c, s); }
    RunThen(c, Begin(x), steps, s, Start);
    steps, s := steps + [Start], Do(c, s, Start);
    RunThen(c, Begin(x), steps, s, Poll);
    steps, s := steps + [Poll], Do(c, s, Poll);
    RunThen(c, Begin(x), steps, s, Query);
    steps, s := steps + [Query], Do(c, s, Query);
  }

  /** The same once the window was sent, and its commit. */
  lemma ExampleSends(x: Example) returns (steps: seq<Step>, s: State)
    requires ExampleOk(x) && ValidConfig(ConfigOf(x))
    ensures Run(ConfigOf(x), Begin(x), steps, s)
    ensures s == Begin(x).(session := Up(x.start, Polling(x.start + 1),
      [Change(0, 1, EventOf(ConfigOf(x), x.late)), Commit(x.start + 1, CommitLsn(TokenOf(x.start + 1)))],
      0, 0, true, None, true))
  {
    hide Run, InStep, Window, EventOf, TokenOf, ValidLog, Forwarded, ValidConfig, LsnOf, Lsn.Less, Keyed, ValidChange,
      Target.Represents;
    var c := ConfigOf(x);
    steps, s := ExampleScans(x);
    var change, commit := Change(0, 1, EventOf(c, x.late)), Commit(x.start + 1, CommitLsn(TokenOf(x.start + 1)));
    assert [1][1..] == [] && [] + [change] == [change] && [change] + [commit] == [change, commit];
    RunThen(c, Begin(x), steps, s, Send);
    steps, s := steps + [Send], Do(c, s, Send);
    RunThen(c, Begin(x), steps, s, SendCommit);
    steps, s := steps + [SendCommit], Do(c, s, SendCommit);
  }

  /** The same once both messages were processed. */
  lemma ExampleCommits(x: Example) returns (steps: seq<Step>, s: State)
    requires ExampleOk(x) && ValidConfig(ConfigOf(x))
    ensures Run(ConfigOf(x), Begin(x), steps, s) && s.log == Begin(x).log && s.applied == {1}
    ensures s.session.Up? && s.session.synced && s.session.running && s.session.producer.Polling?
    ensures s.session.done == s.session.taken == |s.session.sent| == 2 && s.session.sent[1].Commit?
    ensures s.session.token == Some(TokenOf(x.start + 1))
  {
    hide Run, EventOf, Applied, TokenOf, LsnOf, ValidLog, ValidConfig, InStep, Lsn.Less, Window;
    var c := ConfigOf(x);
    steps, s := ExampleSends(x);
    TokenOfLsn(x.start + 1);
    EventIsChange(x);
    RunThen(c, Begin(x), steps, s, Apply);
    steps, s := steps + [Apply], Do(c, s, Apply);
    RunThen(c, Begin(x), steps, s, TakeCommit);
    steps, s := steps + [TakeCommit], Do(c, s, TakeCommit);
  }

  /** Such a session ended, and its token saved. */
  lemma ExampleEnds(c: Config, s: State) returns (steps: seq<Step>, s': State)
    requires ValidConfig(c) && s.session.Up? && s.session.running && s.session.taken == |s.session.sent|
    ensures Run(c, s, steps, s') && s' == s.(durable := s.session.token, session := Down)
  {
    hide Run, ValidLog, ValidConfig, InStep, Lsn.Less, Window;
    steps, s' := [], s;
    assert Run(c, s, [], s) by { Nothing(c, s); }
    RunThen(c, s, steps, s', ProducerEnds);
    steps, s' := steps + [ProducerEnds], Do(c, s', ProducerEnds);
    RunThen(c, s, steps, s', Drained);
    steps, s' := steps + [Drained], Do(c, s', Drained);
    RunThen(c, s, steps, s', Finish(true));
    steps, s' := steps + [Finish(true)], Do(c, s', Finish(true));
  }

  lemma PollsNext(n: nat)
    requires n + 1 < Pow256(LSN_BYTES)
    ensures Lsn.Less(ToBE(n, LSN_BYTES), ToBE(n + 1, LSN_BYTES))
  {
    FromBEToBE(n, LSN_BYTES);
    FromBEToBE(n + 1, LSN_BYTES);
    hide ToBE, FromBE, Lsn.Less;
    Lsn.LessIsNumeric(ToBE(n, LSN_BYTES), ToBE(n + 1, LSN_BYTES));
  }

  lemma Nothing(c: Config, s: State)
    requires ValidConfig(c)
    ensures Run(c, s, [], s)
  {
  }

  lemma EventIsChange(x: Example)
    requires ExampleOk(x)
    ensures !EventOf(ConfigOf(x), x.late).CommitLsn?
  {
  }

  /** A run through a state at a commit in step, with a change applied, to a durable token past the start. */
  ghost predicate Missed(x: Example, steps: seq<Step>, s: State, more: seq<Step>, s': State)
    requires ValidConfig(ConfigOf(x))
  {
    && Run(ConfigOf(x), Begin(x), steps, s) && Run(ConfigOf(x), s, more, s')
    && s.session.Up? && s.session.synced && s.session.done == 2 <= |s.session.sent| && s.session.sent[1].Commit?
    && s'.log == Begin(x).log && s'.durable.Some? && LsnOf(s'.durable.value) == Ok(x.start + 1) && s'.applied == {1}
  }

  /**
   The theorems are not empty, and the first LSN is really left out. In every such example there is a run
   that reaches the hypotheses of `InStepAtEveryCommit` with a change applied, and goes on to a durable
   token past the starting LSN, although the forwarded change at the starting LSN, number 0, was not applied.
   */
  lemma FirstChangeIsMissed(x: Example)
    requires ExampleOk(x)
    ensures ValidConfig(ConfigOf(x)) && Initial(ConfigOf(x), Begin(x))
    ensures exists steps, s, more, s' :: Missed(x, steps, s, more, s')
  {
    hide Run, TokenOf, LsnOf, Initial, ValidConfig;
    ExampleBegins(x);
    var steps, s := ExampleCommits(x);
    var more, s' := ExampleEnds(ConfigOf(x), s);
    TokenOfLsn(x.start + 1);
    assert Missed(x, steps, s, more, s');
  }

  /** There are such examples: two inserts into an empty table with one key column. */
  lemma SomeExample(id: seq<byte>)
    ensures var t, cells := TableSchema("s", "t", [Column("id", true)]), [None, None, Some([50]), None, Some(id)];
      ExampleOk(Example(t, map[], [], 0, Entry(0, 0, cells), Entry(0, 1, cells)))
  {
    var two: seq<byte> := [50];
    assert Trim(two) == two && Digits(two) == Ok(2);
    var t := TableSchema("s", "t", [Column("id", true)]);
    assert t.columns[0].isPrimaryKey;
    assert Pow256(LSN_BYTES) > 1;
  }
}
