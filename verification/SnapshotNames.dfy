/**
 What a snapshot leaves when tables share names. The checkpoint knows a table by its dotted name and
 the target by its bare name; neither determines the table. No hypothesis on names is made here
 unless a lemma says so.
 */
module SnapshotNames {
  import opened Wrappers
  import opened Connector
  import opened Snapshot

  // ----- when dotted names collide -----

  /**
   Two tables have one dotted name if and only if they are the same, or the longer schema continues
   the shorter one after a dot and what it adds is where the other table's name begins.
   */
  lemma QualifiedNamesCollide(a: TableSchema, b: TableSchema)
    requires |a.schema| <= |b.schema|
    ensures a.QualifiedName() == b.QualifiedName() <==>
      || (a.schema == b.schema && a.name == b.name)
      || (a.schema + "." <= b.schema && a.name == b.schema[|a.schema| + 1..] + "." + b.name)
  {
    var n, m := |a.schema|, |b.schema|;
    var x, y := a.QualifiedName(), b.QualifiedName();
    assert x[..n] == a.schema && x[n] == '.' && x[n + 1..] == a.name;
    assert y[..m] == b.schema && y[m] == '.' && y[m + 1..] == b.name;
    if a.schema + "." <= b.schema && a.name == b.schema[n + 1..] + "." + b.name {
      assert b.schema == (a.schema + ".") + b.schema[n + 1..];
      assert x == y;
    }
    if x == y && n < m {
      assert a.schema + "." == x[..n + 1] == b.schema[..n + 1];
      assert a.name == y[n + 1..] == b.schema[n + 1..] + "." + b.name;
    }
  }

  // ----- what a session from scratch leaves -----

  /** No table before `t` has its dotted name. */
  predicate First(c: Config, t: nat)
    requires t < |c.tables|
  {
    forall i :: 0 <= i < t ==> c.tables[i].QualifiedName() != c.tables[t].QualifiedName()
  }

  /** The rows that end up under target name `n`, from the tables before `pos`. */
  function Copied(c: Config, pos: nat, n: string): seq<Row>
    requires ValidConfig(c) && pos <= |c.tables|
  {
    if pos == 0 then []
    else if c.tables[pos - 1].name == n && First(c, pos - 1) then Copied(c, pos - 1, n) + c.source[pos - 1]
    else Copied(c, pos - 1, n)
  }

  predicate Named(c: Config, pos: nat, q: string)
    requires pos <= |c.tables|
  {
    exists i :: 0 <= i < pos && c.tables[i].QualifiedName() == q
  }

  /** Exactly the tables before `pos` are recorded in memory. */
  ghost predicate Listed(c: Config, finished: seq<string>, pos: nat)
    requires pos <= |c.tables|
  {
    forall q :: q in finished <==> Named(c, pos, q)
  }

  ghost predicate Holds(c: Config, target: map<string, seq<Row>>, pos: nat)
    requires ValidConfig(c) && pos <= |c.tables|
  {
    forall n :: Rows(target, n) == Copied(c, pos, n)
  }

  ghost predicate HoldsBut(c: Config, target: map<string, seq<Row>>, pos: nat)
    requires ValidConfig(c) && pos < |c.tables|
  {
    forall n :: n != c.tables[pos].name ==> Rows(target, n) == Copied(c, pos, n)
  }

  ghost predicate ScratchInv(c: Config, s: State)
    requires ValidConfig(c)
  {
    && Flow(c, s)
    && (s.clean && s.scratch ==>
          match s.session
          case Down => s.completed ==> Holds(c, s.target, |c.tables|)
          case Between(finished, pos) =>
            pos <= |c.tables| && !s.completed && Listed(c, finished, pos) && Holds(c, s.target, pos)
          case Copying(finished, pos, _, _, _, _, consumer, before, _) =>
            && pos < |c.tables| && !s.completed && Listed(c, finished, pos) && HoldsBut(c, s.target, pos)
            && before == Copied(c, pos, c.tables[pos].name) && !consumer.Failed?)
  }

  lemma NamedNext(c: Config, pos: nat)
    requires pos < |c.tables|
    ensures forall q :: Named(c, pos + 1, q) <==> Named(c, pos, q) || q == c.tables[pos].QualifiedName()
    ensures First(c, pos) <==> !Named(c, pos, c.tables[pos].QualifiedName())
  {
    assert Named(c, pos + 1, c.tables[pos].QualifiedName());
  }

  lemma SkipKeeps(c: Config, s: State)
    requires ValidConfig(c) && ScratchInv(c, s) && Enabled(c, s, Skip)
    ensures ScratchInv(c, Do(c, s, Skip))
  {
    hide First, Named;
    NamedNext(c, s.session.pos);
  }

  lemma BeginKeeps(c: Config, s: State)
    requires ValidConfig(c) && ScratchInv(c, s) && Enabled(c, s, Begin)
    ensures ScratchInv(c, Do(c, s, Begin))
  {
    StepFlows(c, s, Begin);
    hide First, Named, Flow;
  }

  lemma WriteKeeps(c: Config, s: State)
    requires ValidConfig(c) && ScratchInv(c, s) && Enabled(c, s, WriteChunk)
    ensures ScratchInv(c, Do(c, s, WriteChunk))
  {
    StepFlows(c, s, WriteChunk);
    hide First, Named, Flow, Copied, Snapshot.Insert, Rows;
    InsertAppends(c, s.target, s.session.pos, s.session.current[..ChunkSize(s.session.current)]);
  }

  lemma TableDoneKeeps(c: Config, s: State, saved: bool)
    requires ValidConfig(c) && ScratchInv(c, s) && Enabled(c, s, TableDone(saved))
    ensures ScratchInv(c, Do(c, s, TableDone(saved)))
  {
    var u := s.session;
    CopiedInFull(c, s, saved);
    NamedNext(c, u.pos);
    assert c.tables[u.pos].QualifiedName() !in u.finished;
    hide First, Named, Flow, Rows;
  }

  lemma ScratchStep(c: Config, s: State, step: Step)
    requires ValidConfig(c) && ScratchInv(c, s) && Enabled(c, s, step)
    ensures ScratchInv(c, Do(c, s, step))
  {
    match step
    case Start => assert Empty(s.target) ==> Holds(c, s.target, 0);
    case Skip => SkipKeeps(c, s);
    case Begin => BeginKeeps(c, s);
    case WriteChunk => WriteKeeps(c, s);
    case TableDone(saved) => TableDoneKeeps(c, s, saved);
    case _ => StepFlows(c, s, step); hide Flow, Copied, Named, First, Rows;
  }

  lemma {:induction false} ScratchRun(c: Config, s: State, steps: seq<Step>, s': State)
    requires ValidConfig(c) && ScratchInv(c, s) && Run(c, s, steps, s')
    ensures ScratchInv(c, s')
    decreases |steps|
  {
    hide ScratchInv, Enabled, Do;
    if steps != [] {
      ScratchStep(c, s, steps[0]);
      ScratchRun(c, Do(c, s, steps[0]), steps[1..], s');
    }
  }

  /** `s` is the end of a completed session that began from scratch and met no failure. */
  predicate CleanRun(c: Config, s0: State, steps: seq<Step>, s: State)
    requires ValidConfig(c)
  {
    Initial(c, s0) && Run(c, s0, steps, s) && s.session.Down? && s.completed && s.clean && s.scratch
  }

  /**
   Every clean session from scratch leaves under each target name the rows of the tables of that
   name, in order, without those whose dotted name an earlier table has.
   */
  lemma CleanRunLeaves(c: Config, s0: State, steps: seq<Step>, s: State, n: string)
    requires ValidConfig(c) && CleanRun(c, s0, steps, s)
    ensures Rows(s.target, n) == Copied(c, |c.tables|, n)
  {
    hide Run, Copied;
    ScratchRun(c, s0, steps, s);
  }

  // ----- such sessions exist -----

  /** The session is over, met no failure, and every table is recorded on disk. */
  predicate AllRecorded(c: Config, s: State) {
    s.session.Down? && s.completed && s.clean && s.scratch && Passed(c, s.durable, |c.tables|)
  }

  ghost predicate CanComplete(c: Config, s: State)
    requires ValidConfig(c)
  {
    exists steps, s' :: Run(c, s, steps, s') && AllRecorded(c, s')
  }

  lemma OneStep(c: Config, s: State, step: Step)
    requires ValidConfig(c) && Enabled(c, s, step) && CanComplete(c, Do(c, s, step))
    ensures CanComplete(c, s)
  {
    hide Enabled, Do, AllRecorded;
    var steps, s' :| Run(c, Do(c, s, step), steps, s') && AllRecorded(c, s');
    assert ([step] + steps)[1..] == steps;
    assert Run(c, s, [step] + steps, s');
  }

  /** The next step of a session that meets no failure. */
  function NextStep(c: Config, u: Session): Step
    requires u.Between? || u.Copying?
  {
    if u.Between? then
      if u.pos >= |c.tables| then Finish(true)
      else if c.tables[u.pos].QualifiedName() in u.finished then Skip
      else Begin
    else if u.current != [] then WriteChunk
    else if u.channel != [] then Receive
    else if u.producer.Working? then if u.unsent != [] then SendBatch(|u.unsent|) else ProducerEnds(true)
    else if u.consumer.Working? then Drained
    else TableDone(true)
  }

  predicate OnTrack(c: Config, s: State)
    requires ValidConfig(c)
  {
    && Flow(c, s) && s.clean && s.scratch
    && match s.session
       case Down => false
       case Between(finished, pos) => pos <= |c.tables| && Passed(c, finished, pos)
       case Copying(finished, pos, _, producer, _, _, consumer, _, _) =>
         pos < |c.tables| && Passed(c, finished, pos) && !producer.Failed? && !consumer.Failed?
  }

  lemma NextIsEnabled(c: Config, s: State)
    requires ValidConfig(c) && OnTrack(c, s)
    ensures Enabled(c, s, NextStep(c, s.session))
  {
    hide Conserved;
  }

  lemma NextOnTrack(c: Config, s: State)
    requires ValidConfig(c) && OnTrack(c, s) && Enabled(c, s, NextStep(c, s.session))
    ensures !NextStep(c, s.session).Finish? ==> OnTrack(c, Do(c, s, NextStep(c, s.session)))
  {
    StepFlows(c, s, NextStep(c, s.session));
    hide Flow;
  }

  lemma {:induction false} Completes(c: Config, s: State)
    requires ValidConfig(c) && OnTrack(c, s)
    ensures CanComplete(c, s)
    decreases |c.tables| - s.session.pos, s.session.Between?,
      s.session.Copying? && s.session.producer.Working?,
      if s.session.Copying? then |s.session.unsent| else 0,
      if s.session.Copying? then |s.session.channel| else 0,
      if s.session.Copying? then |s.session.current| else 0,
      s.session.Copying? && s.session.consumer.Working?
  {
    hide Flow, CanComplete, Run;
    var step := NextStep(c, s.session);
    NextIsEnabled(c, s);
    NextOnTrack(c, s);
    var s' := Do(c, s, step);
    if step.Finish? {
      Stopped(c, s');
    } else {
      Completes(c, s');
    }
    OneStep(c, s, step);
  }

  lemma Stopped(c: Config, s: State)
    requires ValidConfig(c) && AllRecorded(c, s)
    ensures CanComplete(c, s)
  {
    assert Run(c, s, [], s);
  }

  /** Whatever the tables are called, a migration into an empty target can complete without a failure. */
  lemma CleanRunExists(c: Config, s0: State)
    requires ValidConfig(c) && Initial(c, s0) && Empty(s0.target)
    ensures exists steps, s :: CleanRun(c, s0, steps, s) && AllRecorded(c, s)
  {
    EmptyTargetIsExact(c, s0.target);
    Completes(c, Do(c, s0, Start));
    OneStep(c, s0, Start);
    hide Run;
    var steps, s :| Run(c, s0, steps, s) && AllRecorded(c, s);
    assert CleanRun(c, s0, steps, s);
  }

  // ----- exactly when a snapshot is right -----

  ghost predicate AlwaysExact(c: Config)
    requires ValidConfig(c)
  {
    forall s0, steps, s :: CleanRun(c, s0, steps, s) ==> ExactCopy(c, s.target)
  }

  /** Every table has under its target name exactly its own rows. */
  predicate CopiesAreOwn(c: Config)
    requires ValidConfig(c)
  {
    forall t :: 0 <= t < |c.tables| ==> Copied(c, |c.tables|, c.tables[t].name) == c.source[t]
  }

  lemma ExactWhenOwn(c: Config)
    requires ValidConfig(c)
    ensures AlwaysExact(c) <==> CopiesAreOwn(c)
  {
    hide Copied, Run;
    forall s0, steps, s | CleanRun(c, s0, steps, s)
      ensures ExactCopy(c, s.target) <==> CopiesAreOwn(c)
    {
      forall t | 0 <= t < |c.tables|
        ensures Rows(s.target, c.tables[t].name) == Copied(c, |c.tables|, c.tables[t].name)
      {
        CleanRunLeaves(c, s0, steps, s, c.tables[t].name);
      }
    }
    var s0 := State(map[], [], Down, false, false, false);
    CleanRunExists(c, s0);
  }

  /** Where the other tables of a target name contribute nothing, the name holds one table's rows. */
  lemma {:induction false} CopiedAlone(c: Config, pos: nat, t: nat)
    requires ValidConfig(c) && pos <= |c.tables| && t < |c.tables|
    requires forall i :: 0 <= i < pos && i != t && c.tables[i].name == c.tables[t].name && First(c, i) ==>
      c.source[i] == []
    ensures Copied(c, pos, c.tables[t].name) == if t < pos && First(c, t) then c.source[t] else []
  {
    if pos > 0 {
      CopiedAlone(c, pos - 1, t);
    }
  }

  /** Each first table of a target name adds its rows there. */
  lemma {:induction false} CopiedCounts(c: Config, pos: nat, i: nat, t: nat)
    requires ValidConfig(c) && pos <= |c.tables| && i < t < |c.tables|
    requires c.tables[i].name == c.tables[t].name && First(c, i) && First(c, t)
    ensures |Copied(c, pos, c.tables[t].name)| >=
      (if i < pos then |c.source[i]| else 0) + (if t < pos then |c.source[t]| else 0)
  {
    if pos > 0 {
      CopiedCounts(c, pos - 1, i, t);
    }
  }

  /**
   With distinct target names: every clean session from scratch is exact if and only if no table with
   rows has the dotted name of an earlier one. A table that has one is skipped and left empty.
   */
  lemma ExactUnlessSkipped(c: Config)
    requires ValidConfig(c) && DistinctTargets(c)
    ensures AlwaysExact(c) <==>
      forall i, t :: 0 <= i < t < |c.tables| && c.tables[i].QualifiedName() == c.tables[t].QualifiedName() ==>
        c.source[t] == []
  {
    ExactWhenOwn(c);
    hide AlwaysExact;
    forall t | 0 <= t < |c.tables|
      ensures Copied(c, |c.tables|, c.tables[t].name) == if First(c, t) then c.source[t] else []
    {
      CopiedAlone(c, |c.tables|, t);
    }
  }

  /**
   With distinct dotted names: every clean session from scratch is exact if and only if tables that
   share a target name, in different schemas, are empty. Otherwise their rows end up together.
   */
  lemma ExactUnlessShared(c: Config)
    requires ValidConfig(c) && DistinctRecords(c)
    ensures AlwaysExact(c) <==>
      forall i, t :: 0 <= i < t < |c.tables| && c.tables[i].name == c.tables[t].name ==>
        c.source[i] == [] && c.source[t] == []
  {
    ExactWhenOwn(c);
    hide AlwaysExact;
    if CopiesAreOwn(c) {
      forall i, t | 0 <= i < t < |c.tables| && c.tables[i].name == c.tables[t].name
        ensures c.source[i] == [] && c.source[t] == []
      {
        CopiedCounts(c, |c.tables|, i, t);
        assert Copied(c, |c.tables|, c.tables[i].name) == c.source[i];
      }
    } else {
      var t :| 0 <= t < |c.tables| && Copied(c, |c.tables|, c.tables[t].name) != c.source[t];
      if forall i :: 0 <= i < |c.tables| && i != t && c.tables[i].name == c.tables[t].name ==> c.source[i] == [] {
        CopiedAlone(c, |c.tables|, t);
      }
    }
  }

  /**
   For any two tables with one dotted name and any rows of the second: a migration of both into an
   empty target can complete without a failure with both recorded, and leaves the second table empty.
   */
  lemma SkippedForAnother(a: TableSchema, b: TableSchema, first: seq<Row>, second: seq<Row>)
    requires a.QualifiedName() == b.QualifiedName() && a.name != b.name
    ensures var c := Config([a, b], [first, second]);
      exists s0, steps, s ::
        && CleanRun(c, s0, steps, s) && Empty(s0.target) && b.QualifiedName() in s.durable
        && Rows(s.target, b.name) == []
  {
    var c := Config([a, b], [first, second]);
    var s0 := State(map[], [], Down, false, false, false);
    CleanRunExists(c, s0);
    hide Run;
    var steps, s :| CleanRun(c, s0, steps, s) && AllRecorded(c, s);
    CleanRunLeaves(c, s0, steps, s, b.name);
    assert c.tables[0] == a && c.tables[1] == b;
    assert !First(c, 1);
    CopiedAlone(c, |c.tables|, 1);
    assert c.tables[1].QualifiedName() in s.durable;
  }

  /** The smallest case: schema `s.t`, table `u` hides schema `s`, table `t.u`. */
  lemma SkipExample()
    ensures var a, b := TableSchema("s.t", "u", []), TableSchema("s", "t.u", []);
      a.QualifiedName() == b.QualifiedName() && !AlwaysExact(Config([a, b], [[], [[None]]]))
  {
    var a, b := TableSchema("s.t", "u", []), TableSchema("s", "t.u", []);
    QualifiedNamesCollide(b, a);
    assert "s" + "." == "s." && "s." <= "s.t" && "s.t"[2..] == "t" && "t.u" == "t" + "." + "u";
    var row: Row := [None];
    var c := Config([a, b], [[], [row]]);
    assert c.tables[0] == a && c.tables[1] == b && |a.name| != |b.name|;
    ExactUnlessSkipped(c);
    hide AlwaysExact;
    assert c.source[1] != [];
  }
}
