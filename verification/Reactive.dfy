/**
 The fine-grained reactive core: signals, memos and depth-first propagation.

 A memo's closure is an expression over signals that may branch on what it reads, so the set of
 signals it reads can change from run to run. Signals are numbered in creation order; the effect of
 a memo carries the number of the memo's own signal.
 */
module Reactive {
  import opened Wrappers

  datatype Expr<!T> =
    | Const(v: T)
    | Read(id: nat)
    | Apply(f: (T, T) -> T, left: Expr<T>, right: Expr<T>)
    | If(test: T -> bool, cond: Expr<T>, thn: Expr<T>, els: Expr<T>)

  /** The closure can only name signals that existed when it was written. */
  predicate Scoped<T>(e: Expr<T>, n: nat) {
    match e
    case Const(_) => true
    case Read(id) => id < n
    case Apply(_, left, right) => Scoped(left, n) && Scoped(right, n)
    case If(_, cond, thn, els) => Scoped(cond, n) && Scoped(thn, n) && Scoped(els, n)
  }

  function Value<T>(e: Expr<T>, values: seq<T>): T
    requires Scoped(e, |values|)
  {
    match e
    case Const(v) => v
    case Read(id) => values[id]
    case Apply(f, left, right) => f(Value(left, values), Value(right, values))
    case If(test, cond, thn, els) => if test(Value(cond, values)) then Value(thn, values) else Value(els, values)
  }

  /** The signals one evaluation reads. */
  function Reads<T>(e: Expr<T>, values: seq<T>): set<nat>
    requires Scoped(e, |values|)
  {
    match e
    case Const(_) => {}
    case Read(id) => {id}
    case Apply(_, left, right) => Reads(left, values) + Reads(right, values)
    case If(test, cond, thn, els) =>
      Reads(cond, values) + (if test(Value(cond, values)) then Reads(thn, values) else Reads(els, values))
  }

  /** Signals that were not read do not matter. */
  lemma {:induction false} UnreadDoesNotMatter<T>(e: Expr<T>, values: seq<T>, values': seq<T>)
    requires Scoped(e, |values|) && Scoped(e, |values'|)
    requires forall i :: i in Reads(e, values) && i < |values| && i < |values'| ==> values[i] == values'[i]
    ensures Value(e, values) == Value(e, values') && Reads(e, values) == Reads(e, values')
  {
    match e
    case Const(_) =>
    case Read(id) =>
    case Apply(_, left, right) =>
      UnreadDoesNotMatter(left, values, values');
      UnreadDoesNotMatter(right, values, values');
    case If(test, cond, thn, els) =>
      UnreadDoesNotMatter(cond, values, values');
      if test(Value(cond, values)) {
        UnreadDoesNotMatter(thn, values, values');
      } else {
        UnreadDoesNotMatter(els, values, values');
      }
  }

  lemma {:induction false} ReadsInScope<T>(e: Expr<T>, values: seq<T>, n: nat)
    requires Scoped(e, n) && Scoped(e, |values|)
    ensures forall i :: i in Reads(e, values) ==> i < n
  {
    match e
    case Const(_) =>
    case Read(id) =>
    case Apply(_, left, right) =>
      ReadsInScope(left, values, n);
      ReadsInScope(right, values, n);
    case If(test, cond, thn, els) =>
      ReadsInScope(cond, values, n);
      ReadsInScope(thn, values, n);
      ReadsInScope(els, values, n);
  }

  lemma {:induction false} ScopeWidens<T>(e: Expr<T>, n: nat, m: nat)
    requires Scoped(e, n) && n <= m
    ensures Scoped(e, m)
  {
    match e
    case Const(_) =>
    case Read(id) =>
    case Apply(_, left, right) =>
      ScopeWidens(left, n, m);
      ScopeWidens(right, n, m);
    case If(test, cond, thn, els) =>
      ScopeWidens(cond, n, m);
      ScopeWidens(thn, n, m);
      ScopeWidens(els, n, m);
  }

  /** Subscribers of signal `j` are memos created after it. */
  predicate Later<T>(j: nat, subs: seq<nat>, code: seq<Option<Expr<T>>>) {
    forall k :: k in subs ==> j < k < |code| && code[k].Some?
  }

  /** Nobody is subscribed twice. */
  predicate Once(subs: seq<nat>) {
    forall a, b :: 0 <= a < b < |subs| ==> subs[a] != subs[b]
  }

  /** What the closures and subscriptions look like; `code[k]` is `None` for a plain signal. */
  predicate WellFormed<T>(values: seq<T>, subs: seq<seq<nat>>, code: seq<Option<Expr<T>>>, live: set<nat>) {
    && |subs| == |values| && |code| == |values|
    && (forall k :: 0 <= k < |code| && code[k].Some? ==> Scoped(code[k].value, k) && Scoped(code[k].value, |values|))
    && (forall j :: 0 <= j < |subs| ==> Later(j, subs[j], code) && Once(subs[j]))
    && (forall k :: k in live ==> k < |code| && code[k].Some?)
  }

  /** The memo shows its function of the current values and will hear of any change to what it read. */
  predicate Fresh<T(==)>(values: seq<T>, subs: seq<seq<nat>>, e: Expr<T>, k: nat)
    requires k < |values| && |subs| == |values| && Scoped(e, |values|)
  {
    values[k] == Value(e, values) && forall j :: j in Reads(e, values) && j < |subs| ==> k in subs[j]
  }

  /** Live memos that are not fresh. */
  function Stale<T(==)>(values: seq<T>, subs: seq<seq<nat>>, code: seq<Option<Expr<T>>>, live: set<nat>): set<nat>
    requires WellFormed(values, subs, code, live)
  {
    set k | k in live && !Fresh(values, subs, code[k].value, k)
  }

  /** Overwriting a signal can only disturb its subscribers and itself. */
  lemma WriteDisturbsSubscribers<T>(values: seq<T>, subs: seq<seq<nat>>, code: seq<Option<Expr<T>>>, live: set<nat>,
                                    j: nat, v: T)
    requires WellFormed(values, subs, code, live) && j < |values|
    ensures WellFormed(values[j := v], subs, code, live)
    ensures forall k :: k in Stale(values[j := v], subs, code, live) ==>
      k in Stale(values, subs, code, live) || k in subs[j] || k == j
  {
    forall k | k in live && k !in Stale(values, subs, code, live) && k !in subs[j] && k != j
      ensures Fresh(values[j := v], subs, code[k].value, k)
    {
      UnreadDoesNotMatter(code[k].value, values, values[j := v]);
    }
  }

  /** A memo just computed from signals below it is fresh, whatever happens above it. */
  lemma ComputedIsFresh<T>(values: seq<T>, values': seq<T>, subs: seq<seq<nat>>, subs': seq<seq<nat>>, e: Expr<T>,
                           k: nat)
    requires k < |values| == |values'| == |subs| == |subs'| && Scoped(e, k) && Scoped(e, |values|)
    requires values'[k] == Value(e, values) && forall i :: 0 <= i < k ==> values'[i] == values[i]
    requires forall j :: j in Reads(e, values) && j < |subs| ==> k in subs[j]
    requires forall j :: 0 <= j < |subs| && k in subs[j] ==> k in subs'[j]
    ensures Fresh(values', subs', e, k)
  {
    ReadsInScope(e, values, k);
    UnreadDoesNotMatter(e, values, values');
  }

  /** More subscriptions and the same values leave no more memos stale. */
  predicate SubsGrow(subs: seq<seq<nat>>, subs': seq<seq<nat>>, live: set<nat>) {
    |subs| == |subs'| && forall j, k :: 0 <= j < |subs| && k in live && k in subs[j] ==> k in subs'[j]
  }

  class Core<T(0, ==)> {
    var values: seq<T>
    var subs: seq<seq<nat>>
    var code: seq<Option<Expr<T>>>
    var live: set<nat>    // effects whose handle is still held
    var stack: seq<nat>   // effects now running, innermost last

    ghost predicate Valid()
      reads this
    {
      WellFormed(values, subs, code, live)
    }

    ghost function StaleNow(): set<nat>
      reads this
      requires Valid()
    {
      Stale(values, subs, code, live)
    }

    constructor ()
      ensures Valid() && values == [] && live == {} && stack == []
    {
      values, subs, code, live, stack := [], [], [], {}, [];
    }

    /** Reads a signal and subscribes the innermost running effect to it. */
    method Get(j: nat) returns (v: T)
      requires Valid() && j < |values|
      requires stack != [] ==> var k := stack[|stack| - 1]; j < k < |code| && code[k].Some?
      modifies this`subs
      ensures Valid() && v == values[j]
      ensures SubsGrow(old(subs), subs, live)
      ensures subs == if stack == [] || stack[|stack| - 1] in old(subs)[j] then old(subs)
                      else old(subs)[j := old(subs)[j] + [stack[|stack| - 1]]]
    {
      if stack != [] {
        var k := stack[|stack| - 1];
        if k !in subs[j] {
          subs := subs[j := subs[j] + [k]];
        }
      }
      v := values[j];
    }

    /** Runs a closure. */
    method Evaluate(e: Expr<T>) returns (v: T)
      requires Valid() && Scoped(e, |values|)
      requires stack != [] ==> var k := stack[|stack| - 1]; k < |code| && code[k].Some? && Scoped(e, k)
      modifies this`subs
      ensures Valid() && v == Value(e, values)
      ensures SubsGrow(old(subs), subs, live)
      ensures stack != [] && stack[|stack| - 1] in live ==>
        forall j :: j in Reads(e, values) && j < |subs| ==> stack[|stack| - 1] in subs[j]
      ensures stack == [] ==> subs == old(subs)
      decreases e
    {
      match e
      case Const(c) => v := c;
      case Read(id) => v := Get(id);
      case Apply(f, left, right) =>
        var l := Evaluate(left);
        var r := Evaluate(right);
        v := f(l, r);
      case If(test, cond, thn, els) =>
        var c := Evaluate(cond);
        if test(c) {
          v := Evaluate(thn);
        } else {
          v := Evaluate(els);
        }
    }

    /**
     Overwrites a signal and propagates. Every memo the write disturbed is brought up to date, memos
     that were stale before may stay so, and the written signal itself is fresh if it was just
     computed by its own closure. Signals created earlier keep their values.
     */
    method Set(j: nat, v: T)
      requires Valid() && j < |values|
      requires forall i :: 0 <= i < |stack| ==> stack[i] <= j
      modifies this`values, this`subs, this`stack
      ensures Valid() && |values| == |old(values)| && stack == old(stack)
      ensures values[j] == v && forall i :: 0 <= i < j ==> values[i] == old(values[i])
      ensures SubsGrow(old(subs), subs, live)
      ensures StaleNow() <= old(StaleNow()) + {j}
      ensures j in live && v == Value(code[j].value, old(values))
        && (forall i :: i in Reads(code[j].value, old(values)) && i < |old(subs)| ==> j in old(subs)[i])
        ==> j !in StaleNow()
      ensures (forall k :: k in old(subs)[j] ==> k !in live) ==> values == old(values)[j := v]
      decreases |values| - j, 1
    {
      ghost var before, subsBefore := values, subs;
      WriteDisturbsSubscribers(values, subs, code, live, j, v);
      values := values[j := v];
      Notify(j);
      if j in live && v == Value(code[j].value, before)
        && (forall i :: i in Reads(code[j].value, before) && i < |subsBefore| ==> j in subsBefore[i]) {
        ComputedIsFresh(before, values, subsBefore, subs, code[j].value, j);
      }
    }

    /** Re-runs the live effects subscribed to `j` at this moment, then forgets the dead ones. */
    method Notify(j: nat)
      requires Valid() && j < |values|
      requires forall i :: 0 <= i < |stack| ==> stack[i] <= j
      modifies this`values, this`subs, this`stack
      ensures Valid() && |values| == |old(values)| && stack == old(stack)
      ensures forall i :: 0 <= i <= j ==> values[i] == old(values[i])
      ensures SubsGrow(old(subs), subs, live)
      ensures forall k :: k in StaleNow() ==> k in old(StaleNow()) && k !in old(subs)[j]
      ensures (forall k :: k in old(subs)[j] ==> k !in live) ==> values == old(values)
      decreases |values| - j, 0
    {
      var snapshot := subs[j];
      for i := 0 to |snapshot|
        invariant Valid() && |values| == |old(values)| && stack == old(stack)
        invariant forall i :: 0 <= i <= j ==> values[i] == old(values[i])
        invariant SubsGrow(old(subs), subs, live)
        invariant StaleNow() <= old(StaleNow())
        invariant forall m :: 0 <= m < i ==> snapshot[m] !in StaleNow()
        invariant (forall k :: k in snapshot ==> k !in live) ==> values == old(values)
      {
        if snapshot[i] in live {
          RunEffect(snapshot[i]);
        }
      }
      ghost var kept := subs;
      subs := subs[j := Retain(subs[j], live)];
      RetainKeeps(kept[j], live);
      assert SubsGrow(kept, subs, live);
      GrowthKeepsFresh(values, kept, subs, code, live);
    }

    /** Runs one effect to completion. The guard is the run-time check against re-entering it. */
    method RunEffect(k: nat)
      requires Valid() && k in live
      requires k !in stack && forall i :: 0 <= i < |stack| ==> stack[i] < k
      modifies this`values, this`subs, this`stack
      ensures Valid() && |values| == |old(values)| && stack == old(stack)
      ensures forall i :: 0 <= i < k ==> values[i] == old(values[i])
      ensures SubsGrow(old(subs), subs, live)
      ensures StaleNow() <= old(StaleNow()) - {k}
      decreases |values| - k, 2
    {
      stack := stack + [k];
      ghost var subsBefore := subs;
      var v := Evaluate(code[k].value);
      GrowthKeepsFresh(values, subsBefore, subs, code, live);
      Set(k, v);
      stack := stack[..|stack| - 1];
    }

    /** A new plain signal. */
    method CreateSignal(initial: T) returns (id: nat)
      requires Valid()
      modifies this`values, this`subs, this`code
      ensures Valid() && id == |old(values)| && values == old(values) + [initial]
      ensures StaleNow() == old(StaleNow())
    {
      id := |values|;
      ghost var before, subsBefore, codeBefore := values, subs, code;
      values, subs, code := values + [initial], subs + [[]], code + [None];
      AppendKeeps(before, subsBefore, codeBefore, live, initial, None);
    }

    /**
     A new memo: computed once for its initial value, then once more inside its effect. Created while
     another effect runs, it may read what that effect may read, and the first computation counts as
     that effect's.
     */
    method CreateMemo(e: Expr<T>) returns (id: nat)
      requires Valid() && Scoped(e, |values|) && forall i :: 0 <= i < |stack| ==> stack[i] < |values|
      requires stack != [] ==> var k := stack[|stack| - 1]; code[k].Some? && Scoped(e, k)
      modifies this
      ensures Valid() && stack == old(stack) && id == |old(values)| && |values| == id + 1
      ensures values[..id] == old(values) && live == old(live) + {id} && code == old(code) + [Some(e)]
      ensures StaleNow() <= old(StaleNow())
    {
      id := |values|;
      ghost var subsAtFirst := subs;
      var initial := Evaluate(e);
      GrowthKeepsFresh(values, subsAtFirst, subs, code, live);
      ghost var before, subsBefore, codeBefore := values, subs, code;
      values, subs, code := values + [initial], subs + [[]], code + [Some(e)];
      AppendKeeps(before, subsBefore, codeBefore, live, initial, Some(e));
      ghost var middle := values;
      live := live + {id};
      RunEffect(id);
      assert values[..id] == middle[..id] == before;
    }

    /** Dropping the handle: the effect no longer runs. */
    method DropHandle(k: nat)
      requires Valid()
      modifies this`live
      ensures Valid() && live == old(live) - {k} && StaleNow() == old(StaleNow()) - {k}
    {
      live := live - {k};
    }
  }

  function Retain(subs: seq<nat>, live: set<nat>): seq<nat> {
    if subs == [] then [] else (if subs[0] in live then [subs[0]] else []) + Retain(subs[1..], live)
  }

  lemma {:induction false} RetainKeeps(subs: seq<nat>, live: set<nat>)
    ensures forall k :: k in Retain(subs, live) <==> k in subs && k in live
    ensures Once(subs) ==> Once(Retain(subs, live))
  {
    if subs != [] {
      RetainKeeps(subs[1..], live);
      assert Once(subs) ==> Once(subs[1..]) && subs[0] !in subs[1..];
    }
  }

  lemma GrowthKeepsFresh<T>(values: seq<T>, subs: seq<seq<nat>>, subs': seq<seq<nat>>, code: seq<Option<Expr<T>>>,
                            live: set<nat>)
    requires WellFormed(values, subs, code, live) && WellFormed(values, subs', code, live)
    requires SubsGrow(subs, subs', live)
    ensures Stale(values, subs', code, live) <= Stale(values, subs, code, live)
  {
  }

  lemma AppendKeeps<T>(values: seq<T>, subs: seq<seq<nat>>, code: seq<Option<Expr<T>>>, live: set<nat>, v: T,
                       e: Option<Expr<T>>)
    requires WellFormed(values, subs, code, live) && (e.Some? ==> Scoped(e.value, |values|))
    ensures WellFormed(values + [v], subs + [[]], code + [e], live)
    ensures Stale(values + [v], subs + [[]], code + [e], live) == Stale(values, subs, code, live)
  {
    forall k | 0 <= k < |code + [e]| && (code + [e])[k].Some?
      ensures Scoped((code + [e])[k].value, |values + [v]|)
    {
      ScopeWidens((code + [e])[k].value, |values|, |values| + 1);
    }
    assert WellFormed(values + [v], subs + [[]], code + [e], live);
    forall k | k in live
      ensures Fresh(values + [v], subs + [[]], code[k].value, k) <==> Fresh(values, subs, code[k].value, k)
    {
      assert (code + [e])[k] == code[k];
      UnreadDoesNotMatter(code[k].value, values, values + [v]);
      ReadsInScope(code[k].value, values, k);
    }
  }
}
