/**
 The connection pool: each lock section is one atomic step, and a dial happens between two of them.
 Goroutines are not named; any interleaving of their sections is a list of steps.
 */
module Pool {
  import opened Wrappers

  /** A connection is known by a number that is never used again. */
  type Conn = nat

  /** The pool's fields, and the accounting that exists only outside the lock. */
  datatype State = State(
    maxOpen: int,
    idle: seq<Conn>,
    numOpen: int,
    closed: bool,
    broken: set<Conn>,   // connections whose health flag is set
    lent: set<Conn>,     // handed out and not yet released (history)
    dialing: nat,        // Acquire calls now dialing outside the lock (history)
    drained: nat,        // idle connections closed by Close (history)
    known: set<Conn>)   // every connection ever opened (history)

  datatype Outcome = Closed | Cancelled | Got(conn: Conn) | MustDial | MustWait

  /** Pops from the end until a healthy connection turns up. */
  function Drain(idle: seq<Conn>, broken: set<Conn>): (r: (seq<Conn>, Option<Conn>))
    ensures r.0 <= idle
    ensures r.1.Some? ==> |r.0| < |idle| && r.1.value == idle[|r.0|] && r.1.value !in broken
    ensures r.1.None? ==> r.0 == []
    ensures forall i :: |r.0| + (if r.1.Some? then 1 else 0) <= i < |idle| ==> idle[i] in broken
  {
    if idle == [] then ([], None)
    else
      var c := idle[|idle| - 1];
      if c in broken then Drain(idle[..|idle| - 1], broken) else (idle[..|idle| - 1], Some(c))
  }

  lemma DrainStep(idle: seq<Conn>, broken: set<Conn>)
    ensures idle == [] ==> Drain(idle, broken) == ([], None)
    ensures idle != [] ==> var rest, c := idle[..|idle| - 1], idle[|idle| - 1];
      Drain(idle, broken) == if c in broken then Drain(rest, broken) else (rest, Some(c))
  {
  }

  datatype Step =
    | Acquire(cancelled: bool)
    | DialOk(conn: Conn)
    | DialFails
    | Release(conn: Conn)
    | Close
    | Break(conn: Conn)   // an I/O error or a cancelled query sets the flag

  /** The locked part of one pass through Acquire's loop. */
  function AcquireDo(s: State, cancelled: bool): (State, Outcome) {
    if s.closed then (s, Closed)
    else if cancelled then (s, Cancelled)
    else
      var (idle, found) := Drain(s.idle, s.broken);
      if found.Some? then
        (s.(idle := idle, numOpen := s.numOpen - (|s.idle| - |idle| - 1), lent := s.lent + {found.value}),
         Got(found.value))
      else
        var left := s.numOpen - |s.idle|;
        if left < s.maxOpen then (s.(idle := [], numOpen := left + 1, dialing := s.dialing + 1), MustDial)
        else (s.(idle := [], numOpen := left), MustWait)
  }

  lemma AcquireCases(s: State, cancelled: bool)
    ensures s.closed ==> AcquireDo(s, cancelled) == (s, Closed)
    ensures !s.closed && cancelled ==> AcquireDo(s, cancelled) == (s, Cancelled)
    ensures !s.closed && !cancelled ==>
      var (idle, found) := Drain(s.idle, s.broken);
      var left := s.numOpen - |s.idle|;
      AcquireDo(s, cancelled) ==
        if found.Some? then
          (s.(idle := idle, numOpen := left + |idle| + 1, lent := s.lent + {found.value}), Got(found.value))
        else if left < s.maxOpen then (s.(idle := [], numOpen := left + 1, dialing := s.dialing + 1), MustDial)
        else (s.(idle := [], numOpen := left), MustWait)
  {
    hide Drain;
  }

  predicate Enabled(s: State, step: Step) {
    match step
    case Acquire(_) => true
    case DialOk(c) => s.dialing > 0 && c !in s.known
    case DialFails => s.dialing > 0
    case Release(c) => c in s.lent
    case Close => true
    case Break(_) => true
  }

  function Do(s: State, step: Step): State
    requires Enabled(s, step)
  {
    match step
    case Acquire(cancelled) => AcquireDo(s, cancelled).0
    case DialOk(c) => s.(dialing := s.dialing - 1, lent := s.lent + {c}, known := s.known + {c})
    case DialFails => s.(dialing := s.dialing - 1, numOpen := s.numOpen - 1)
    case Release(c) =>
      if s.closed || c in s.broken then s.(numOpen := s.numOpen - 1, lent := s.lent - {c})
      else s.(idle := s.idle + [c], lent := s.lent - {c})
    case Close =>
      if s.closed then s else s.(closed := true, drained := s.drained + |s.idle|, idle := [])
    case Break(c) => s.(broken := s.broken + {c})
  }

  predicate Run(s: State, steps: seq<Step>, s': State)
    decreases |steps|
  {
    if steps == [] then s == s' else Enabled(s, steps[0]) && Run(Do(s, steps[0]), steps[1..], s')
  }

  /** The state NewPool returns: `idle` holds the connections it opened. */
  predicate Initial(s: State) {
    && 1 <= s.maxOpen && |s.idle| <= s.maxOpen && s.numOpen == |s.idle| && !s.closed
    && Distinct(s.idle) && s.known == Elements(s.idle)
    && s.lent == {} && s.dialing == 0 && s.drained == 0
  }

  function Elements(idle: seq<Conn>): set<Conn> {
    set c | c in idle
  }

  predicate Distinct(idle: seq<Conn>) {
    forall i, j :: 0 <= i < j < |idle| ==> idle[i] != idle[j]
  }

  /** Every open connection is counted once, and no connection is in two places. */
  predicate Inv(s: State) {
    && s.numOpen == |s.idle| + |s.lent| + s.dialing + s.drained
    && s.numOpen <= s.maxOpen
    && (s.closed ==> s.idle == [])
    && (!s.closed ==> s.drained == 0)
    && Distinct(s.idle)
    && Elements(s.idle) !! s.lent
    && Elements(s.idle) <= s.known
    && s.lent <= s.known
  }

  lemma AcquireOk(s: State, cancelled: bool)
    requires Inv(s)
    ensures Inv(AcquireDo(s, cancelled).0)
    ensures AcquireDo(s, cancelled).1.Got? ==>
      var c := AcquireDo(s, cancelled).1.conn; c in s.idle && c !in s.lent && c !in s.broken
  {
    var (idle, found) := Drain(s.idle, s.broken);
    assert idle == s.idle[..|idle|];
    if found.Some? {
      assert found.value in s.idle;
      assert found.value !in s.lent;
    }
  }

  lemma StepKeepsInv(s: State, step: Step)
    requires Inv(s) && Enabled(s, step)
    ensures Inv(Do(s, step))
  {
    match step
    case Acquire(cancelled) => AcquireOk(s, cancelled);
    case Release(c) =>
      assert |s.lent - {c}| == |s.lent| - 1;
      assert forall x :: x in Elements(s.idle + [c]) <==> x in Elements(s.idle) || x == c;
    case DialOk(c) =>
      assert c !in s.lent;
    case _ =>
  }

  lemma {:induction false} RunKeepsInv(s: State, steps: seq<Step>, s': State)
    requires Inv(s) && Run(s, steps, s')
    ensures Inv(s')
    decreases |steps|
  {
    if steps != [] {
      StepKeepsInv(s, steps[0]);
      RunKeepsInv(Do(s, steps[0]), steps[1..], s');
    }
  }

  /**
   Over every interleaving: the open count is the idle, lent and dialing connections, plus those
   Close found idle; it stays within bounds; a connection that Acquire hands out has no other
   holder and no health flag; and once a closed pool is quiet, only the drained ones stay counted.
   */
  lemma AccountingHolds(s0: State, steps: seq<Step>, s: State, cancelled: bool)
    requires Initial(s0) && Run(s0, steps, s)
    ensures s.numOpen == |s.idle| + |s.lent| + s.dialing + s.drained && 0 <= s.numOpen <= s.maxOpen
    ensures !s.closed ==> s.drained == 0
    ensures Distinct(s.idle) && forall c :: c in s.idle ==> c !in s.lent
    ensures AcquireDo(s, cancelled).1.Got? ==>
      var c := AcquireDo(s, cancelled).1.conn; c !in s.lent && c !in s.broken
    ensures s.closed && s.lent == {} && s.dialing == 0 ==> s.numOpen == s.drained
  {
    assert Inv(s0);
    RunKeepsInv(s0, steps, s);
    AcquireOk(s, cancelled);
  }

  /** An Acquire that must wait found every slot taken by a lent or dialing connection. */
  lemma WaitsOnlyWhenFull(s: State, cancelled: bool)
    requires Inv(s) && AcquireDo(s, cancelled).1.MustWait?
    ensures s.idle == [] && |s.lent| + s.dialing == s.maxOpen
  {
  }

  /** The pool object. Ghost fields carry the accounting; each method is one lock section. */
  class ConnPool {
    const maxOpen: int
    var idle: seq<Conn>
    var numOpen: int
    var closed: bool
    ghost var lent: set<Conn>
    ghost var dialing: nat
    ghost var drained: nat
    ghost var known: set<Conn>

    ghost function Abs(broken: set<Conn>): State
      reads this
    {
      State(maxOpen, idle, numOpen, closed, broken, lent, dialing, drained, known)
    }

    constructor (limit: int)
      ensures maxOpen == Limit(limit) && idle == [] && Initial(Abs({}))
    {
      maxOpen := Limit(limit);
      idle, numOpen, closed := [], 0, false;
      lent, dialing, drained, known := {}, 0, 0, {};
    }

    method AcquireSection(cancelled: bool, broken: set<Conn>) returns (outcome: Outcome)
      requires Inv(Abs(broken))
      modifies this
      ensures (Abs(broken), outcome) == AcquireDo(old(Abs(broken)), cancelled)
      ensures Inv(Abs(broken))
    {
      hide Inv, AcquireDo, Drain;
      ghost var start := Abs(broken);
      AcquireOk(start, cancelled);
      AcquireCases(start, cancelled);
      if closed { return Closed; }
      if cancelled { return Cancelled; }
      while |idle| > 0
        invariant numOpen == start.numOpen - (|start.idle| - |idle|)
        invariant Drain(idle, broken) == Drain(start.idle, broken)
        invariant Abs(broken) == start.(idle := idle, numOpen := numOpen)
      {
        DrainStep(idle, broken);
        var c := idle[|idle| - 1];
        idle := idle[..|idle| - 1];
        if c in broken {
          numOpen := numOpen - 1;
          continue;
        }
        lent := lent + {c};
        return Got(c);
      }
      DrainStep(idle, broken);
      if numOpen < maxOpen {
        numOpen := numOpen + 1;
        dialing := dialing + 1;
        return MustDial;
      }
      return MustWait;
    }

    /** A finished dial takes no lock: the connection simply becomes lent. */
    ghost method DialSucceeded(c: Conn, broken: set<Conn>)
      requires Inv(Abs(broken)) && dialing > 0 && c !in known
      modifies this
      ensures Abs(broken) == Do(old(Abs(broken)), DialOk(c)) && Inv(Abs(broken))
    {
      StepKeepsInv(Abs(broken), DialOk(c));
      dialing, lent, known := dialing - 1, lent + {c}, known + {c};
    }

    method DialFailed(ghost broken: set<Conn>)
      requires Inv(Abs(broken)) && dialing > 0
      modifies this
      ensures Abs(broken) == Do(old(Abs(broken)), DialFails) && Inv(Abs(broken))
    {
      numOpen := numOpen - 1;
      dialing := dialing - 1;
    }

    method ReleaseSection(c: Conn, broken: set<Conn>)
      requires Inv(Abs(broken)) && c in lent
      modifies this
      ensures Abs(broken) == Do(old(Abs(broken)), Release(c)) && Inv(Abs(broken))
    {
      StepKeepsInv(Abs(broken), Release(c));
      lent := lent - {c};
      if closed || c in broken {
        numOpen := numOpen - 1;
        return;
      }
      idle := idle + [c];
    }

    method CloseSection(ghost broken: set<Conn>)
      requires Inv(Abs(broken))
      modifies this
      ensures Abs(broken) == Do(old(Abs(broken)), Close) && Inv(Abs(broken))
    {
      if closed { return; }
      closed := true;
      drained := drained + |idle|;
      idle := [];
    }
  }

  function Limit(maxOpen: int): int {
    if maxOpen <= 0 then 1 else maxOpen
  }

  function EagerDials(maxOpen: int, minIdle: int): nat {
    var n := if minIdle > Limit(maxOpen) then Limit(maxOpen) else minIdle;
    if n < 0 then 0 else n
  }

  /**
   NewPool. `dials[i]` is what the i-th eager dial returns. Either all succeed and the pool starts
   with exactly those connections idle, or there is no pool and every connection opened is closed.
   */
  method NewPool(limit: int, minIdle: int, dials: seq<Option<Conn>>) returns (pool: ConnPool?, closedConns: seq<Conn>)
    requires |dials| == EagerDials(limit, minIdle)
    requires forall i, j :: 0 <= i < j < |dials| && dials[i].Some? ==> dials[i] != dials[j]
    ensures pool != null <==> forall i :: 0 <= i < |dials| ==> dials[i].Some?
    ensures pool != null ==>
      && fresh(pool) && Initial(pool.Abs({})) && pool.maxOpen == Limit(limit) && closedConns == []
      && |pool.idle| == |dials| && forall i :: 0 <= i < |dials| ==> dials[i] == Some(pool.idle[i])
    ensures pool == null ==>
      && |closedConns| < |dials| && dials[|closedConns|].None?
      && forall i :: 0 <= i < |closedConns| ==> dials[i] == Some(closedConns[i])
  {
    var p := new ConnPool(limit);
    for i := 0 to |dials|
      invariant Initial(p.Abs({})) && p.maxOpen == Limit(limit) && |p.idle| == i
      invariant forall k :: 0 <= k < i ==> dials[k] == Some(p.idle[k])
    {
      if dials[i].None? {
        return null, p.idle;
      }
      var c := dials[i].value;
      assert c !in p.idle;
      assert forall x :: x in Elements(p.idle + [c]) <==> x in Elements(p.idle) || x == c;
      p.idle := p.idle + [c];
      p.numOpen := p.numOpen + 1;
      p.known := p.known + {c};
    }
    return p, [];
  }

  // ----- what each section does for its caller -----

  /** Releasing a healthy connection undoes acquiring it: the next caller gets that connection back. */
  lemma ReleaseThenAcquire(s: State, c: Conn)
    requires Inv(s) && !s.closed && c in s.lent && c !in s.broken
    ensures var s' := Do(s, Release(c));
      s'.numOpen == s.numOpen && c in s'.idle && AcquireDo(s', false) == (s, Got(c))
  {
    var s' := Do(s, Release(c));
    DrainStep(s'.idle, s.broken);
    assert s'.idle[..|s'.idle| - 1] == s.idle;
    assert (s.lent - {c}) + {c} == s.lent;
  }

  /** A broken connection, or one released to a closed pool, is gone and no longer counted. */
  lemma ReleaseDrops(s: State, c: Conn)
    requires Inv(s) && c in s.lent && (s.closed || c in s.broken)
    ensures var s' := Do(s, Release(c));
      s' == s.(numOpen := s.numOpen - 1, lent := s.lent - {c}) && c !in s'.idle
  {
    assert c in s.idle ==> c in Elements(s.idle);
  }

  /** The last healthy idle connection, or none. */
  predicate LastHealthy(s: State, i: nat) {
    && i < |s.idle| && s.idle[i] !in s.broken
    && forall j :: i < j < |s.idle| ==> s.idle[j] in s.broken
  }

  /**
   What Acquire does in an open pool, by the idle list alone: the healthy connection released last is
   handed out and the broken ones above it are dropped; if there is none, all idle ones are dropped and a
   slot is reserved for a dial, if one is free.
   */
  lemma AcquireMeans(s: State)
    requires Inv(s) && !s.closed
    ensures forall i: nat :: LastHealthy(s, i) ==>
      AcquireDo(s, false) == (
        s.(idle := s.idle[..i], numOpen := s.numOpen - (|s.idle| - 1 - i), lent := s.lent + {s.idle[i]}),
        Got(s.idle[i]))
    ensures (forall i :: 0 <= i < |s.idle| ==> s.idle[i] in s.broken) ==>
      var left := |s.lent| + s.dialing;
      AcquireDo(s, false) ==
        if left < s.maxOpen then (s.(idle := [], numOpen := left + 1, dialing := s.dialing + 1), MustDial)
        else (s.(idle := [], numOpen := left), MustWait)
  {
    hide Drain;
    var (idle, found) := Drain(s.idle, s.broken);
    assert idle == s.idle[..|idle|];
    forall i: nat | LastHealthy(s, i)
      ensures found == Some(s.idle[i]) && |idle| == i
    {
    }
    if forall i :: 0 <= i < |s.idle| ==> s.idle[i] in s.broken {
      assert found.None?;
    }
  }

  /** A dial turns the reserved slot into a lent connection, or gives it back. */
  lemma DialSettles(s: State, c: Conn)
    requires Inv(s) && AcquireDo(s, false).1.MustDial? && c !in s.known
    ensures var s' := AcquireDo(s, false).0; var left := |s.lent| + s.dialing;
      && Do(s', DialOk(c)) == s.(idle := [], numOpen := left + 1, lent := s.lent + {c}, known := s.known + {c})
      && Do(s', DialFails) == s.(idle := [], numOpen := left)
  {
    hide Drain;
    var (idle, found) := Drain(s.idle, s.broken);
  }

  /** Close empties the idle list, keeps the count, and does nothing the second time. */
  lemma CloseMeans(s: State)
    requires Inv(s)
    ensures var s' := Do(s, Close);
      s'.closed && s'.idle == [] && s'.numOpen == s.numOpen && s'.lent == s.lent && s'.dialing == s.dialing &&
      Do(s', Close) == s'
  {
  }

  /** A closed pool stays closed in every run, and refuses every Acquire. */
  lemma {:induction false} ClosedForGood(s: State, steps: seq<Step>, s': State, cancelled: bool)
    requires Inv(s) && s.closed && Run(s, steps, s')
    ensures s'.closed && s'.idle == [] && AcquireDo(s', cancelled) == (s', Closed)
    decreases |steps|
  {
    if steps != [] {
      StepKeepsInv(s, steps[0]);
      hide Drain;
      ClosedForGood(Do(s, steps[0]), steps[1..], s', cancelled);
    }
  }

  /** Only a cancelled caller of an open pool is told so, and it changes nothing. */
  lemma CancelledMeans(s: State)
    requires !s.closed
    ensures AcquireDo(s, true) == (s, Cancelled) && !AcquireDo(s, false).1.Cancelled? && !AcquireDo(s, false).1.Closed?
  {
  }

  /** What a configuration gives: at least one connection may be open, and no more dialled at once than may be. */
  lemma ConfigurationMeans(maxOpen: int, minIdle: int)
    ensures Limit(maxOpen) >= 1 && (maxOpen >= 1 ==> Limit(maxOpen) == maxOpen) && (maxOpen < 1 ==> Limit(maxOpen) == 1)
    ensures minIdle <= 0 ==> EagerDials(maxOpen, minIdle) == 0
    ensures 0 <= minIdle <= Limit(maxOpen) ==> EagerDials(maxOpen, minIdle) == minIdle
    ensures minIdle >= Limit(maxOpen) ==> EagerDials(maxOpen, minIdle) == Limit(maxOpen)
  {
  }

  /** A connection that breaks is never handed out again: idle it is dropped by an Acquire, lent by its Release. */
  lemma BrokenNeverReturns(s: State, c: Conn, cancelled: bool)
    requires Inv(s)
    ensures var s' := Do(s, Break(c));
      && s' == s.(broken := s.broken + {c})
      && AcquireDo(s', cancelled).1 != Got(c)
      && (c in s.lent ==> c !in Do(s', Release(c)).idle && c !in Do(s', Release(c)).lent)
  {
    var s' := Do(s, Break(c));
    AcquireOk(s', cancelled);
    if c in s.lent { ReleaseDrops(s', c); }
  }
}
