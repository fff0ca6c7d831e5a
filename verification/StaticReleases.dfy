/**
 What a release of a process-wide default does to a getter that is under way (source/Api.cpp). An inner getter
 gives its lock back before the outer constructor uses what it returned, so a releaser can come in between.
 */
module StaticReleases {
  import opened Options
  import opened StaticDefaults

  /** The step in which a releaser deletes the object of a kind. */
  predicate Deletes(s: State, step: Step, kind: Kind) {
    && step.Advance?
    && Stack(s, step.t) != []
    && Top(Stack(s, step.t)).kind == kind && Top(Stack(s, step.t)).at.Delete?
  }

  ghost predicate DeletedBetween(states: seq<State>, steps: seq<Step>, r: nat, i: nat, kind: Kind) {
    exists j {:trigger steps[j]} :: r <= j < i && j < |steps| && j < |states| && Deletes(states[j], steps[j], kind)
  }

  /** The step in which a getter of thread `t` returns `o`, to whatever called it. */
  predicate Returns(s: State, step: Step, t: Thread, kind: Kind, o: Obj) {
    && step == Advance(t)
    && Stack(s, t) != []
    && (var f := Top(Stack(s, t)); f.getter && f.kind == kind && f.at == Unlock(Some(o)))
  }

  // ---------- How long an object lives ----------

  lemma DeleteStep(s: State, t: Thread, o: Obj)
    requires Inv(s) && Enabled(s, Advance(t)) && Top(Stack(s, t)).at.Delete? && o in s.objs
    ensures o in Apply(s, Advance(t)).live <==> o in s.live && s.objs[o].kind != Top(Stack(s, t)).kind
  {
    var f := Top(Stack(s, t));
    assert FrameInv(s, f);
    if o in s.live && s.objs[o].kind == f.kind {
      OneLivePerKind(s, o, s.ptr[f.kind]);
    }
  }

  /** An object dies in the first step that deletes one of its kind, and never comes back. */
  lemma LiveStep(s: State, step: Step, o: Obj)
    requires Inv(s) && Enabled(s, step) && o in s.objs
    ensures o in Apply(s, step).objs && Apply(s, step).objs[o] == s.objs[o]
    ensures o in Apply(s, step).live <==> o in s.live && !Deletes(s, step, s.objs[o].kind)
  {
    if step.Advance? {
      ObjectsStay(s, step.t, o);
      if Top(Stack(s, step.t)).at.Delete? {
        DeleteStep(s, step.t, o);
      }
    }
  }

  lemma RunLiveStep(states: seq<State>, steps: seq<Step>, i: nat, o: Obj)
    requires IsRun(states, steps) && i < |steps| && o in states[i].objs
    ensures o in states[i + 1].objs && states[i + 1].objs[o] == states[i].objs[o]
    ensures o in states[i + 1].live <==> o in states[i].live && !Deletes(states[i], steps[i], states[i].objs[o].kind)
  {
    RunInv(states, steps, i);
    LiveStep(states[i], steps[i], o);
  }

  lemma DeletedOneMore(states: seq<State>, steps: seq<Step>, r: nat, i: nat, kind: Kind)
    requires r <= i < |steps| && i < |states|
    ensures DeletedBetween(states, steps, r, i + 1, kind) <==>
      DeletedBetween(states, steps, r, i, kind) || Deletes(states[i], steps[i], kind)
  {
  }

  lemma {:induction false} LivesUntilDeleted(states: seq<State>, steps: seq<Step>, r: nat, i: nat, o: Obj)
    requires IsRun(states, steps) && r <= i < |states| && o in states[r].objs && o in states[r].live
    ensures o in states[i].objs && states[i].objs[o] == states[r].objs[o]
    ensures o in states[i].live <==> !DeletedBetween(states, steps, r, i, states[r].objs[o].kind)
    decreases i
  {
    if r < i {
      LivesUntilDeleted(states, steps, r, i - 1, o);
      RunLiveStep(states, steps, i - 1, o);
      DeletedOneMore(states, steps, r, i - 1, states[r].objs[o].kind);
    }
  }

  // ---------- What a releaser has done when it returns ----------

  /** The `i`-th state has a releaser of `kind` about to give its lock back. */
  ghost predicate Releases(s: State, t: Thread, kind: Kind) {
    && Stack(s, t) != []
    && (var f := Top(Stack(s, t)); !f.getter && f.kind == kind && f.at.Unlock?)
  }

  /**
   A releaser that returns has cleared the static pointer, and no object of its kind is live, whatever objects of
   that kind there were before.
   */
  lemma ReleaserLeavesNothing(states: seq<State>, steps: seq<Step>, i: nat, t: Thread, kind: Kind)
    requires IsRun(states, steps) && i < |states| && Releases(states[i], t, kind)
    ensures kind !in states[i].ptr
    ensures forall o :: o in states[i].objs && states[i].objs[o].kind == kind ==> o !in states[i].live
  {
    RunInv(states, steps, i);
    var s := states[i];
    assert FrameInv(s, Stack(s, t)[|Stack(s, t)| - 1]);
    TopHolds(s, t);
    assert Owns(s, t, kind);
    forall o | o in s.objs && s.objs[o].kind == kind ensures o !in s.live {
      assert o in s.live ==> Placed(s, o);
    }
  }

  // ---------- Whole calls ----------

  /** Steps `k` to `e` are one call on thread `t` from outside, from its start to its return. */
  ghost predicate IsCall(states: seq<State>, steps: seq<Step>, k: nat, e: nat, t: Thread, kind: Kind, getter: bool)
    requires |states| == |steps| + 1
  {
    && k < e < |steps| && steps[k] == (if getter then CallGet(t, kind) else CallRelease(t, kind))
    && (forall i :: k < i <= e ==> Stack(states[i], t) != [])
    && Stack(states[e + 1], t) == []
  }

  /** The outermost call of a thread is of this kind. */
  predicate Outermost(s: State, t: Thread, kind: Kind, getter: bool) {
    Stack(s, t) != [] && Stack(s, t)[0].kind == kind && Stack(s, t)[0].getter == getter
  }

  lemma OutermostStays(s: State, step: Step, t: Thread, kind: Kind, getter: bool)
    requires Enabled(s, step) && Outermost(s, t, kind, getter)
    ensures Outermost(Apply(s, step), t, kind, getter) ||
            (Stack(Apply(s, step), t) == [] && step == Advance(t) && |Stack(s, t)| == 1 && Stack(s, t)[0].at.Unlock?)
  {
  }

  lemma {:induction false} OutermostInCall(states: seq<State>, steps: seq<Step>, k: nat, i: nat, t: Thread, kind: Kind,
                                           getter: bool)
    requires IsRun(states, steps) && k < i < |states|
    requires steps[k] == if getter then CallGet(t, kind) else CallRelease(t, kind)
    requires forall h :: k < h <= i ==> Stack(states[h], t) != []
    ensures Outermost(states[i], t, kind, getter)
    decreases i
  {
    if i == k + 1 {
      assert states[i] == Apply(states[k], steps[k]);
    } else {
      OutermostInCall(states, steps, k, i - 1, t, kind, getter);
      RunOutermostStays(states, steps, i - 1, t, kind, getter);
    }
  }

  lemma RunOutermostStays(states: seq<State>, steps: seq<Step>, i: nat, t: Thread, kind: Kind, getter: bool)
    requires IsRun(states, steps) && i < |steps| && Outermost(states[i], t, kind, getter)
    ensures Outermost(states[i + 1], t, kind, getter) ||
            (Stack(states[i + 1], t) == [] && steps[i] == Advance(t) && |Stack(states[i], t)| == 1 &&
             Stack(states[i], t)[0].at.Unlock?)
  {
    OutermostStays(states[i], steps[i], t, kind, getter);
  }

  /** A call of a releaser that returns has cleared its static pointer and left no object of its kind alive. */
  lemma ReleaseCallClears(states: seq<State>, steps: seq<Step>, k: nat, e: nat, t: Thread, kind: Kind)
    requires IsRun(states, steps) && IsCall(states, steps, k, e, t, kind, false)
    ensures Releases(states[e], t, kind) && kind !in states[e].ptr
    ensures forall o :: o in states[e].objs && states[e].objs[o].kind == kind ==> o !in states[e].live
    ensures forall o :: o in states[k].objs && states[k].objs[o].kind == kind ==> o !in states[e].live
  {
    OutermostInCall(states, steps, k, e, t, kind, false);
    RunOutermostStays(states, steps, e, t, kind, false);
    ReleaserLeavesNothing(states, steps, e, t, kind);
    forall o | o in states[k].objs && states[k].objs[o].kind == kind ensures o !in states[e].live {
      ObjectsLast(states, steps, k, e, o);
    }
  }

  /** A call of a getter returns a live object of its kind. */
  lemma GetCallReturns(states: seq<State>, steps: seq<Step>, k: nat, e: nat, t: Thread, kind: Kind) returns (o: Obj)
    requires IsRun(states, steps) && IsCall(states, steps, k, e, t, kind, true)
    ensures o in states[e].live && o in states[e].objs && states[e].objs[o].kind == kind
    ensures states[e + 1].returned == states[e].returned + {(kind, Some(o))}
  {
    OutermostInCall(states, steps, k, e, t, kind, true);
    RunOutermostStays(states, steps, e, t, kind, true);
    GetterReturnsLiveObject(states, steps, e, t);
    ReturnsAreRecorded(states, steps, e, t);
    o := Top(Stack(states[e], t)).at.result.value;
  }

  lemma {:induction false} DeadForGood(states: seq<State>, steps: seq<Step>, i: nat, j: nat, o: Obj)
    requires IsRun(states, steps) && i <= j < |states| && o in states[i].objs && o !in states[i].live
    ensures o in states[j].objs && o !in states[j].live
    decreases j
  {
    if i < j {
      DeadForGood(states, steps, i, j - 1, o);
      RunLiveStep(states, steps, j - 1, o);
    }
  }

  /** Every object that was there when a releaser of its kind took the lock is gone for good once it returns. */
  lemma ReleasedForGood(states: seq<State>, steps: seq<Step>, i: nat, r: nat, j: nat, t: Thread, kind: Kind, o: Obj)
    requires IsRun(states, steps) && i <= r <= j < |states| && Releases(states[r], t, kind)
    requires o in states[i].objs && states[i].objs[o].kind == kind
    ensures o !in states[j].live
  {
    ObjectsLast(states, steps, i, r, o);
    ReleaserLeavesNothing(states, steps, r, t, kind);
    DeadForGood(states, steps, r, j, o);
  }

  lemma {:induction false} ObjectsLast(states: seq<State>, steps: seq<Step>, i: nat, j: nat, o: Obj)
    requires IsRun(states, steps) && i <= j < |states| && o in states[i].objs
    ensures o in states[j].objs && states[j].objs[o] == states[i].objs[o]
    decreases j
  {
    if i < j {
      ObjectsLast(states, steps, i, j - 1, o);
      RunLiveStep(states, steps, j - 1, o);
    }
  }

  /** Shutting down releases all three kinds; unless something is constructed meanwhile, nothing is left alive. */
  lemma ShutdownLeavesNothing(states: seq<State>, steps: seq<Step>, i: nat, j: nat, t: Thread, r: map<Kind, nat>)
    requires IsRun(states, steps) && i <= j < |states| && states[j].objs == states[i].objs
    requires forall kind :: kind in r && i <= r[kind] <= j && Releases(states[r[kind]], t, kind)
    ensures states[j].live == {}
  {
    RunInv(states, steps, j);
    forall o ensures o !in states[j].live {
      if o in states[j].live {
        assert Placed(states[j], o);
        var kind := states[i].objs[o].kind;
        ReleasedForGood(states, steps, i, r[kind], j, t, kind, o);
      }
    }
  }

  // ---------- Where an argument comes from ----------

  lemma ArgumentStep(s: State, step: Step, t: Thread, f: nat, kind: Kind, o: Obj)
    requires Enabled(s, step) && f < |Stack(Apply(s, step), t)|
    requires Stack(Apply(s, step), t)[f].Arg(kind) == Some(o)
    ensures Returns(s, step, t, kind, o) || (f < |Stack(s, t)| && Stack(s, t)[f].Arg(kind) == Some(o))
  {
  }

  lemma {:induction false} ArgumentWasReturned(states: seq<State>, steps: seq<Step>, i: nat, t: Thread, f: nat,
                                               kind: Kind, o: Obj) returns (r: nat)
    requires IsRun(states, steps) && i < |states| && f < |Stack(states[i], t)|
    requires Stack(states[i], t)[f].Arg(kind) == Some(o)
    ensures r < i && Returns(states[r], steps[r], t, kind, o)
    decreases i
  {
    assert i > 0;
    if Returns(states[i - 1], steps[i - 1], t, kind, o) {
      r := i - 1;
    } else {
      ArgumentStep(states[i - 1], steps[i - 1], t, f, kind, o);
      r := ArgumentWasReturned(states, steps, i - 1, t, f, kind, o);
    }
  }

  // ---------- What a constructor is given ----------

  /**
   A constructor argument was returned by an inner getter, and it is live when the constructor runs exactly if
   no releaser of its kind has deleted an object since then.
   */
  lemma ArgumentLiveIffNotReleased(states: seq<State>, steps: seq<Step>, i: nat, t: Thread, kind: Kind, o: Obj)
    requires IsRun(states, steps) && i < |steps| && steps[i] == Advance(t) && Top(Stack(states[i], t)).at.Build?
    requires Top(Stack(states[i], t)).Arg(kind) == Some(o)
    ensures exists r :: 0 <= r < i && Returns(states[r], steps[r], t, kind, o)
    ensures forall r :: 0 <= r < i && Returns(states[r], steps[r], t, kind, o) ==>
      (o in states[i].live <==> !DeletedBetween(states, steps, r, i, kind))
  {
    var r0 := ArgumentWasReturned(states, steps, i, t, |Stack(states[i], t)| - 1, kind, o);
    forall r | 0 <= r < i && Returns(states[r], steps[r], t, kind, o)
      ensures o in states[i].live <==> !DeletedBetween(states, steps, r, i, kind)
    {
      GetterReturnsLiveObject(states, steps, r, t);
      LivesUntilDeleted(states, steps, r, i, o);
    }
  }

  // ---------- A resolver on a deleted event loop group ----------

  lemma ExtendRun(states: seq<State>, steps: seq<Step>, step: Step) returns (longer: seq<State>, more: seq<Step>)
    requires IsRun(states, steps) && Enabled(states[|steps|], step)
    ensures IsRun(longer, more) && |more| == |steps| + 1 && longer[|more|] == Apply(states[|steps|], step)
  {
    longer, more := states + [Apply(states[|steps|], step)], steps + [step];
  }

  /** Thread 1 runs the getters, thread 2 the releaser; the resolver does not exist yet. */
  ghost predicate Situation(s: State, getters: seq<Frame>, releaser: seq<Frame>, groupLocked: bool,
                            group: Option<Obj>)
  {
    && Stack(s, 1) == getters && Stack(s, 2) == releaser
    && (Group in s.locks <==> groupLocked)
    && Resolver !in s.ptr
    && (Group in s.ptr <==> group.Some?) && (group.Some? ==> s.ptr[Group] == group.value)
  }

  function Waiting(group: Option<Obj>): Frame {
    Frame(Resolver, true, Build, group, None)
  }

  function GroupCall(getter: bool, at: Point): Frame {
    Frame(Group, getter, at, None, None)
  }

  lemma ResolverWaits() returns (states: seq<State>, steps: seq<Step>)
    ensures IsRun(states, steps)
    ensures Situation(states[|steps|], [Waiting(None), GroupCall(true, Lock)], [], false, None)
  {
    states, steps := [State(map[], map[], map[], map[], {}, 0, {}, false)], [];
    states, steps := ExtendRun(states, steps, CallGet(1, Resolver));
    assert Situation(states[|steps|], [Call(Resolver, true)], [], false, None) && Resolver !in states[|steps|].locks;
    states, steps := ExtendRun(states, steps, Advance(1));
    assert Situation(states[|steps|], [Call(Resolver, true).(at := Check)], [], false, None);
    states, steps := ExtendRun(states, steps, Advance(1));
    assert Situation(states[|steps|], [Waiting(None)], [], false, None);
    states, steps := ExtendRun(states, steps, Evaluate(1, Group));
  }

  lemma GroupBuilt() returns (states: seq<State>, steps: seq<Step>, o: Obj)
    ensures IsRun(states, steps)
    ensures Situation(states[|steps|], [Waiting(None), GroupCall(true, Return)], [], true, Some(o))
  {
    states, steps := ResolverWaits();
    states, steps := ExtendRun(states, steps, Advance(1));
    assert Situation(states[|steps|], [Waiting(None), GroupCall(true, Check)], [], true, None);
    states, steps := ExtendRun(states, steps, Advance(1));
    assert Situation(states[|steps|], [Waiting(None), GroupCall(true, Build)], [], true, None);
    o := states[|steps|].next;
    states, steps := ExtendRun(states, steps, Advance(1));
    assert Situation(states[|steps|], [Waiting(None), GroupCall(true, Store(o))], [], true, None);
    states, steps := ExtendRun(states, steps, Advance(1));
  }

  lemma GroupReturned() returns (states: seq<State>, steps: seq<Step>, o: Obj)
    ensures IsRun(states, steps) && Situation(states[|steps|], [Waiting(Some(o))], [], false, Some(o))
  {
    states, steps, o := GroupBuilt();
    states, steps := ExtendRun(states, steps, Advance(1));
    assert Situation(states[|steps|], [Waiting(None), GroupCall(true, Unlock(Some(o)))], [], true, Some(o));
    states, steps := ExtendRun(states, steps, Advance(1));
  }

  lemma ReleaserDeletes() returns (states: seq<State>, steps: seq<Step>, o: Obj)
    ensures IsRun(states, steps)
    ensures Situation(states[|steps|], [Waiting(Some(o))], [GroupCall(false, Delete)], true, Some(o))
  {
    states, steps, o := GroupReturned();
    states, steps := ExtendRun(states, steps, CallRelease(2, Group));
    assert Situation(states[|steps|], [Waiting(Some(o))], [GroupCall(false, Lock)], false, Some(o));
    states, steps := ExtendRun(states, steps, Advance(2));
    assert Situation(states[|steps|], [Waiting(Some(o))], [GroupCall(false, Check)], true, Some(o));
    states, steps := ExtendRun(states, steps, Advance(2));
  }

  /** A run in which the resolver is about to be constructed on an event loop group that is gone. */
  lemma BuildsOnDeletedGroup() returns (states: seq<State>, steps: seq<Step>, o: Obj)
    ensures IsRun(states, steps) && Enabled(states[|steps|], Advance(1))
    ensures Stack(states[|steps|], 1) == [Waiting(Some(o))] && o !in states[|steps|].live
  {
    states, steps, o := ReleaserDeletes();
    states, steps := ExtendRun(states, steps, Advance(2));
    assert Situation(states[|steps|], [Waiting(Some(o))], [GroupCall(false, Clear)], true, Some(o));
  }
}
