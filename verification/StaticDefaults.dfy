/**
 The lazily created process-wide defaults (source/Api.cpp): client bootstrap, host resolver and event
 loop group, each behind a non-recursive mutex of its own. A getter builds a missing object inside its
 lock and calls the getters of what the object is built on, so locks nest. C++ leaves open in which
 order the two arguments of the bootstrap's constructor are evaluated, and so does the model.

 Any number of threads run getters and releasers. Each has a call stack; every step is one access to
 shared state. A run is any interleaving.
 */
module StaticDefaults {
  import opened Options

  type Thread = nat
  type Obj = nat

  datatype Kind = Bootstrap | Resolver | Group {
    /** The order in which the locks nest. */
    function Rank(): nat {
      match this
      case Bootstrap => 0
      case Resolver => 1
      case Group => 2
    }

    /** Whether the constructor of this kind takes an object of kind `arg`. */
    predicate Needs(arg: Kind) {
      match this
      case Bootstrap => arg != Bootstrap
      case Resolver => arg == Group
      case Group => false
    }
  }

  datatype Point =
    | Lock | Check
    | Build | Store(obj: Obj) | Return   // getters
    | Delete | Clear                     // releasers
    | Unlock(result: Option<Obj>)

  /** One activation of a getter or a releaser, with the constructor arguments evaluated so far. */
  datatype Frame = Frame(kind: Kind, getter: bool, at: Point, group: Option<Obj>, resolver: Option<Obj>) {
    predicate Holds() { !at.Lock? }

    function Arg(arg: Kind): Option<Obj> {
      if arg == Group then group else if arg == Resolver then resolver else None
    }

    function WithArg(arg: Kind, value: Option<Obj>): Frame {
      if arg == Group then this.(group := value)
      else if arg == Resolver then this.(resolver := value)
      else this
    }

    predicate Missing(arg: Kind) {
      kind.Needs(arg) && Arg(arg).None?
    }

    predicate Ready() {
      !Missing(Group) && !Missing(Resolver)
    }
  }

  /** What an object was built as, and on. */
  datatype Built = Built(kind: Kind, group: Option<Obj>, resolver: Option<Obj>)

  datatype State = State(
    stacks: map<Thread, seq<Frame>>,       // innermost call last
    locks: map<Kind, Thread>,              // held mutexes
    ptr: map<Kind, Obj>,                   // the static pointers that are not null
    objs: map<Obj, Built>,                 // every object ever constructed
    live: set<Obj>,
    next: Obj,
    returned: set<(Kind, Option<Obj>)>,    // results of outermost getter calls
    releasing: bool)                       // some releaser has been called

  function Stack(s: State, t: Thread): seq<Frame> {
    if t in s.stacks then s.stacks[t] else []
  }

  function Top(stack: seq<Frame>): Frame
    requires stack != []
  {
    stack[|stack| - 1]
  }

  function SetTop(stack: seq<Frame>, f: Frame): seq<Frame>
    requires stack != []
  {
    stack[|stack| - 1 := f]
  }

  /** Return from the innermost call; a getter's caller receives the result as an argument. */
  function Pop(stack: seq<Frame>): seq<Frame>
    requires stack != [] && Top(stack).at.Unlock?
  {
    var rest := stack[..|stack| - 1];
    if rest == [] || !Top(stack).getter then rest
    else SetTop(rest, Top(rest).WithArg(Top(stack).kind, Top(stack).at.result))
  }

  datatype Step =
    | CallGet(t: Thread, kind: Kind)
    | CallRelease(t: Thread, kind: Kind)
    | Evaluate(t: Thread, arg: Kind)
    | Advance(t: Thread)

  function Call(kind: Kind, getter: bool): Frame {
    Frame(kind, getter, Lock, None, None)
  }

  predicate Enabled(s: State, step: Step) {
    match step
    case CallGet(t, kind) => Stack(s, t) == []
    case CallRelease(t, kind) => Stack(s, t) == []
    case Evaluate(t, arg) =>
      Stack(s, t) != [] && Top(Stack(s, t)).getter && Top(Stack(s, t)).at.Build? && Top(Stack(s, t)).Missing(arg)
    case Advance(t) =>
      && Stack(s, t) != []
      && (Top(Stack(s, t)).at.Lock? ==> Top(Stack(s, t)).kind !in s.locks)
      && (Top(Stack(s, t)).at.Build? ==> Top(Stack(s, t)).Ready())
  }

  /** The next program point of the innermost call. */
  function NextPoint(s: State, f: Frame): Point {
    match f.at
    case Lock => Check
    case Check =>
      if f.getter then (if f.kind in s.ptr then Return else Build)
      else if f.kind in s.ptr then Delete else Unlock(None)
    case Build => Store(s.next)
    case Store(_) => Return
    case Return => Unlock(if f.kind in s.ptr then Some(s.ptr[f.kind]) else None)
    case Delete => Clear
    case Clear => Unlock(None)
    case Unlock(_) => f.at
  }

  /** What the innermost call `f` of thread `t` writes. */
  function Effect(s: State, t: Thread, f: Frame): State {
    match f.at
    case Lock => s.(locks := s.locks[f.kind := t])
    case Build =>
      s.(objs := s.objs[s.next := Built(f.kind, f.group, f.resolver)], live := s.live + {s.next}, next := s.next + 1)
    case Store(obj) => s.(ptr := s.ptr[f.kind := obj])
    case Delete => if f.kind in s.ptr then s.(live := s.live - {s.ptr[f.kind]}) else s
    case Clear => s.(ptr := s.ptr - {f.kind})
    case Unlock(result) =>
      s.(locks := s.locks - {f.kind},
         returned := if f.getter && |Stack(s, t)| == 1 then s.returned + {(f.kind, result)} else s.returned)
    case _ => s
  }

  function Apply(s: State, step: Step): State
    requires Enabled(s, step)
  {
    match step
    case CallGet(t, kind) => s.(stacks := s.stacks[t := [Call(kind, true)]])
    case CallRelease(t, kind) => s.(stacks := s.stacks[t := [Call(kind, false)]], releasing := true)
    case Evaluate(t, arg) => s.(stacks := s.stacks[t := Stack(s, t) + [Call(arg, true)]])
    case Advance(t) =>
      var stack := Stack(s, t);
      var f := Top(stack);
      Effect(s, t, f).(stacks := s.stacks[t :=
        if f.at.Unlock? then Pop(stack) else SetTop(stack, f.(at := NextPoint(s, f)))])
  }

  ghost predicate Initial(s: State) {
    s == State(map[], map[], map[], map[], {}, s.next, {}, false)
  }

  ghost predicate IsRun(states: seq<State>, steps: seq<Step>) {
    && |states| == |steps| + 1
    && Initial(states[0])
    && forall i {:trigger steps[i]} :: 0 <= i < |steps| ==>
         Enabled(states[i], steps[i]) && states[i + 1] == Apply(states[i], steps[i])
  }

  // ---------- Call stacks and locks ----------

  /** `f` is a getter that waits, inside its lock, for a getter of a higher rank. */
  predicate WaitsFor(f: Frame, g: Frame) {
    f.getter && g.getter && f.at.Build? && f.kind.Rank() < g.kind.Rank()
  }

  predicate PointFits(f: Frame) {
    && (f.at.Build? || f.at.Store? || f.at.Return? ==> f.getter)
    && (f.at.Delete? || f.at.Clear? ==> !f.getter)
  }

  ghost predicate WellNested(stack: seq<Frame>) {
    && (forall i, j :: 0 <= i < j < |stack| ==> WaitsFor(stack[i], stack[j]))
    && (forall i :: 0 <= i < |stack| ==> PointFits(stack[i]))
  }

  ghost predicate HeldBy(stack: seq<Frame>, kind: Kind) {
    exists i :: 0 <= i < |stack| && stack[i].kind == kind && stack[i].Holds()
  }

  predicate Owns(s: State, t: Thread, kind: Kind) {
    kind in s.locks && s.locks[kind] == t
  }

  ghost predicate LockInv(s: State) {
    && (forall t: Thread :: WellNested(Stack(s, t)))
    && (forall t: Thread, kind :: Owns(s, t, kind) <==> HeldBy(Stack(s, t), kind))
  }

  lemma PushKeeps(stack: seq<Frame>, arg: Kind)
    requires WellNested(stack) && stack != [] && Top(stack).getter && Top(stack).at.Build? && Top(stack).Missing(arg)
    ensures WellNested(stack + [Call(arg, true)])
    ensures forall kind :: HeldBy(stack + [Call(arg, true)], kind) <==> HeldBy(stack, kind)
  {
    var pushed := stack + [Call(arg, true)];
    forall i, j | 0 <= i < j < |pushed| ensures WaitsFor(pushed[i], pushed[j]) {
      if i < |stack| - 1 {
        assert WaitsFor(stack[i], Top(stack));
      }
    }
    forall kind ensures HeldBy(pushed, kind) <==> HeldBy(stack, kind) {
      if HeldBy(stack, kind) {
        var i :| 0 <= i < |stack| && stack[i].kind == kind && stack[i].Holds();
        assert pushed[i] == stack[i];
      }
    }
  }

  /** The innermost call moves on; it holds its own lock from the first step on. */
  lemma SetTopKeeps(stack: seq<Frame>, f: Frame)
    requires WellNested(stack) && stack != [] && PointFits(f) && f.Holds()
    requires f.kind == Top(stack).kind && f.getter == Top(stack).getter
    ensures WellNested(SetTop(stack, f))
    ensures forall kind :: HeldBy(SetTop(stack, f), kind) <==> kind == f.kind || HeldBy(stack, kind)
  {
    var moved := SetTop(stack, f);
    assert moved[|stack| - 1] == f;
    forall kind ensures HeldBy(moved, kind) <==> kind == f.kind || HeldBy(stack, kind) {
      if HeldBy(stack, kind) && kind != f.kind {
        var i :| 0 <= i < |stack| && stack[i].kind == kind && stack[i].Holds();
        assert moved[i] == stack[i];
      }
    }
  }

  lemma PopKeeps(stack: seq<Frame>)
    requires WellNested(stack) && stack != [] && Top(stack).at.Unlock?
    ensures WellNested(Pop(stack))
    ensures forall kind :: HeldBy(Pop(stack), kind) <==> kind != Top(stack).kind && HeldBy(stack, kind)
  {
    var popped := Pop(stack);
    assert forall i :: 0 <= i < |popped| ==>
      popped[i].kind == stack[i].kind && popped[i].at == stack[i].at && popped[i].getter == stack[i].getter;
    forall i, j | 0 <= i < j < |popped| ensures WaitsFor(popped[i], popped[j]) {
      assert WaitsFor(stack[i], stack[j]);
    }
    forall kind ensures HeldBy(popped, kind) <==> kind != Top(stack).kind && HeldBy(stack, kind) {
      if HeldBy(popped, kind) {
        var i :| 0 <= i < |popped| && popped[i].kind == kind && popped[i].Holds();
        assert WaitsFor(stack[i], Top(stack)) && stack[i].Holds();
      } else if HeldBy(stack, kind) && kind != Top(stack).kind {
        var i :| 0 <= i < |stack| && stack[i].kind == kind && stack[i].Holds();
        assert popped[i].kind == kind && popped[i].Holds();
      }
    }
  }

  ghost predicate OnlyMoved(s: State, s': State, t: Thread) {
    forall u: Thread :: u != t ==> Stack(s', u) == Stack(s, u)
  }

  lemma CallKeepsLocks(s: State, step: Step)
    requires LockInv(s) && Enabled(s, step) && !step.Advance?
    ensures LockInv(Apply(s, step))
  {
    var s' := Apply(s, step);
    var t := step.t;
    assert OnlyMoved(s, s', t);
    if step.Evaluate? {
      PushKeeps(Stack(s, t), step.arg);
    } else {
      assert forall kind :: !HeldBy(Stack(s, t), kind) && !HeldBy(Stack(s', t), kind);
    }
  }

  lemma UnlockKeepsLocks(s: State, t: Thread)
    requires LockInv(s) && Enabled(s, Advance(t)) && Top(Stack(s, t)).at.Unlock?
    ensures LockInv(Apply(s, Advance(t)))
  {
    var s' := Apply(s, Advance(t));
    var f := Top(Stack(s, t));
    assert OnlyMoved(s, s', t) && Stack(s', t) == Pop(Stack(s, t));
    PopKeeps(Stack(s, t));
    assert HeldBy(Stack(s, t), f.kind);
    assert s'.locks == s.locks - {f.kind};
    LocksAgree(s, s', t);
  }

  /** What is left to show once every stack but that of `t` is known to be unchanged. */
  lemma LocksAgree(s: State, s': State, t: Thread)
    requires LockInv(s) && OnlyMoved(s, s', t) && WellNested(Stack(s', t))
    requires forall kind :: Owns(s', t, kind) <==> HeldBy(Stack(s', t), kind)
    requires forall u: Thread, kind :: u != t ==> (Owns(s', u, kind) <==> Owns(s, u, kind))
    ensures LockInv(s')
  {
  }

  lemma MoveKeepsLocks(s: State, t: Thread)
    requires LockInv(s) && Enabled(s, Advance(t)) && !Top(Stack(s, t)).at.Unlock?
    ensures LockInv(Apply(s, Advance(t)))
  {
    var s' := Apply(s, Advance(t));
    var f := Top(Stack(s, t));
    assert OnlyMoved(s, s', t);
    SetTopKeeps(Stack(s, t), f.(at := NextPoint(s, f)));
    assert f.Holds() ==> HeldBy(Stack(s, t), f.kind);
    forall u: Thread, kind ensures Owns(s', u, kind) <==> HeldBy(Stack(s', u), kind) {
      assert Owns(s, u, kind) <==> HeldBy(Stack(s, u), kind);
    }
  }

  lemma AdvanceKeepsLocks(s: State, t: Thread)
    requires LockInv(s) && Enabled(s, Advance(t))
    ensures LockInv(Apply(s, Advance(t)))
  {
    if Top(Stack(s, t)).at.Unlock? {
      UnlockKeepsLocks(s, t);
    } else {
      MoveKeepsLocks(s, t);
    }
  }

  // ---------- Objects ----------

  /** What a call knows about the static pointer it guards. */
  ghost predicate FrameInv(s: State, f: Frame) {
    match f.at
    case Build => f.kind !in s.ptr
    case Store(obj) => f.kind !in s.ptr && obj in s.live && obj in s.objs && s.objs[obj].kind == f.kind
    case Return => f.kind in s.ptr && s.ptr[f.kind] in s.live
    case Delete => f.kind in s.ptr && s.ptr[f.kind] in s.live
    case Clear => f.kind in s.ptr && s.ptr[f.kind] !in s.live
    case Unlock(result) =>
      if f.getter then f.kind in s.ptr && result == Some(s.ptr[f.kind]) && s.ptr[f.kind] in s.live
      else f.kind !in s.ptr
    case _ => true
  }

  ghost predicate FramesInv(s: State) {
    forall t: Thread, i :: 0 <= i < |Stack(s, t)| ==> FrameInv(s, Stack(s, t)[i])
  }

  /** The innermost call of the thread that holds the lock of `kind` is at point `at`. */
  ghost predicate HolderAt(s: State, kind: Kind, at: Point) {
    && kind in s.locks
    && Stack(s, s.locks[kind]) != []
    && Top(Stack(s, s.locks[kind])).kind == kind
    && Top(Stack(s, s.locks[kind])).at == at
  }

  /** A live object is the static one of its kind, or is about to become it. */
  ghost predicate Placed(s: State, o: Obj) {
    && o in s.objs
    && (var kind := s.objs[o].kind;
        (kind in s.ptr && s.ptr[kind] == o) || HolderAt(s, kind, Store(o)))
  }

  ghost predicate ObjInv(s: State) {
    && (forall o :: o in s.objs ==> o < s.next)
    && (forall o :: o in s.live ==> Placed(s, o))
    && (forall kind :: kind in s.ptr ==> s.ptr[kind] in s.objs && s.objs[s.ptr[kind]].kind == kind)
    && (forall kind :: kind in s.ptr ==> s.ptr[kind] in s.live || HolderAt(s, kind, Clear))
  }

  ghost predicate Inv(s: State) {
    LockInv(s) && FramesInv(s) && ObjInv(s)
  }

  lemma InitialInv(s: State)
    requires Initial(s)
    ensures Inv(s)
  {
    assert forall t: Thread :: Stack(s, t) == [];
  }

  lemma TopHolds(s: State, t: Thread)
    requires LockInv(s) && Stack(s, t) != [] && Top(Stack(s, t)).Holds()
    ensures Owns(s, t, Top(Stack(s, t)).kind)
  {
    assert HeldBy(Stack(s, t), Top(Stack(s, t)).kind);
  }

  lemma CallKeepsObjects(s: State, step: Step)
    requires Inv(s) && Enabled(s, step) && !step.Advance?
    ensures FramesInv(Apply(s, step)) && ObjInv(Apply(s, step))
  {
    var s' := Apply(s, step);
    var t := step.t;
    assert OnlyMoved(s, s', t);
    forall u: Thread, i | 0 <= i < |Stack(s', u)| ensures FrameInv(s', Stack(s', u)[i]) {
      if u != t || i < |Stack(s, t)| {
        assert FrameInv(s, Stack(s, u)[i]);
      }
    }
    forall kind, at: Point | HolderAt(s, kind, at) && (at.Store? || at.Clear?) ensures HolderAt(s', kind, at) {
      assert s.locks[kind] != t;
    }
  }

  /** A call leaves alone what calls on other kinds know. */
  lemma EffectElsewhere(s: State, t: Thread, f: Frame, g: Frame)
    requires ObjInv(s) && FrameInv(s, f) && FrameInv(s, g) && (g.kind != f.kind || f.at.Lock? || f.at.Unlock?)
    ensures FrameInv(Effect(s, t, f), g)
  {
  }

  /** Two calls that hold the same lock are one call. */
  lemma HoldersAreOne(s: State, t: Thread, i: int, u: Thread, j: int)
    requires LockInv(s) && 0 <= i < |Stack(s, t)| && 0 <= j < |Stack(s, u)|
    requires Stack(s, t)[i].Holds() && Stack(s, u)[j].Holds() && Stack(s, t)[i].kind == Stack(s, u)[j].kind
    ensures t == u && i == j
  {
    var kind := Stack(s, t)[i].kind;
    assert HeldBy(Stack(s, t), kind) && HeldBy(Stack(s, u), kind);
    assert Owns(s, t, kind) && Owns(s, u, kind);
  }

  lemma OtherFrame(s: State, t: Thread, u: Thread, i: int)
    requires Inv(s) && Enabled(s, Advance(t)) && 0 <= i < |Stack(s, u)|
    requires u != t || i < |Stack(s, t)| - 1
    ensures FrameInv(Apply(s, Advance(t)), Stack(s, u)[i])
  {
    var f := Top(Stack(s, t));
    var g := Stack(s, u)[i];
    assert FrameInv(s, f) && FrameInv(s, g);
    if g.at.Lock? {
    } else if f.Holds() && g.kind == f.kind {
      HoldersAreOne(s, t, |Stack(s, t)| - 1, u, i);
    } else {
      EffectElsewhere(s, t, f, g);
    }
  }

  lemma OwnFrame(s: State, t: Thread)
    requires Inv(s) && Enabled(s, Advance(t)) && !Top(Stack(s, t)).at.Unlock?
    ensures FrameInv(Apply(s, Advance(t)), Top(Stack(Apply(s, Advance(t)), t)))
  {
    var f := Top(Stack(s, t));
    assert FrameInv(s, f) && PointFits(f);
    if f.Holds() {
      TopHolds(s, t);
    }
  }

  lemma AdvanceKeepsFrames(s: State, t: Thread)
    requires Inv(s) && Enabled(s, Advance(t))
    ensures FramesInv(Apply(s, Advance(t)))
  {
    var s' := Apply(s, Advance(t));
    assert OnlyMoved(s, s', t);
    forall u: Thread, i | 0 <= i < |Stack(s', u)| ensures FrameInv(s', Stack(s', u)[i]) {
      if u == t && i == |Stack(s, t)| - 1 {
        OwnFrame(s, t);
      } else {
        OtherFrame(s, t, u, i);
      }
    }
  }

  /** The holder of a lock other than that of the innermost call does not move. */
  lemma HolderStays(s: State, t: Thread, kind: Kind, at: Point)
    requires Inv(s) && Enabled(s, Advance(t)) && HolderAt(s, kind, at) && Top(Stack(s, t)).kind != kind
    ensures HolderAt(Apply(s, Advance(t)), kind, at)
  {
    var s' := Apply(s, Advance(t));
    assert OnlyMoved(s, s', t);
    assert s.locks[kind] != t;
  }

  lemma OwnHolder(s: State, t: Thread)
    requires Inv(s) && Enabled(s, Advance(t)) && !Top(Stack(s, t)).at.Unlock?
    ensures HolderAt(Apply(s, Advance(t)), Top(Stack(s, t)).kind, NextPoint(s, Top(Stack(s, t))))
  {
    if Top(Stack(s, t)).Holds() {
      TopHolds(s, t);
    }
  }

  /** The innermost call changes only what belongs to its own kind. */
  lemma ElsewhereUnchanged(s: State, t: Thread, kind: Kind)
    requires ObjInv(s) && Enabled(s, Advance(t)) && kind != Top(Stack(s, t)).kind
    ensures var s' := Apply(s, Advance(t));
      && (kind in s'.ptr <==> kind in s.ptr)
      && (kind in s.ptr ==> s'.ptr[kind] == s.ptr[kind] && (s'.ptr[kind] in s'.live <==> s.ptr[kind] in s.live))
  {
    var f := Top(Stack(s, t));
    if kind in s.ptr && f.kind in s.ptr {
      assert s.objs[s.ptr[kind]].kind == kind && s.objs[s.ptr[f.kind]].kind == f.kind;
      assert s.ptr[kind] != s.ptr[f.kind];
    }
    EffectElsewhereUnchanged(s, t, f, kind);
  }

  lemma EffectElsewhereUnchanged(s: State, t: Thread, f: Frame, kind: Kind)
    requires kind != f.kind
    requires kind in s.ptr ==> s.ptr[kind] < s.next && (f.kind in s.ptr ==> s.ptr[kind] != s.ptr[f.kind])
    ensures kind in Effect(s, t, f).ptr <==> kind in s.ptr
    ensures kind in s.ptr ==> Effect(s, t, f).ptr[kind] == s.ptr[kind]
    ensures kind in s.ptr ==> (s.ptr[kind] in Effect(s, t, f).live <==> s.ptr[kind] in s.live)
  {
    PointersElsewhere(s, t, f, kind);
    if kind in s.ptr {
      LiveElsewhere(s, t, f, s.ptr[kind]);
    }
  }

  lemma PointersElsewhere(s: State, t: Thread, f: Frame, kind: Kind)
    requires kind != f.kind
    ensures kind in Effect(s, t, f).ptr <==> kind in s.ptr
    ensures kind in s.ptr ==> Effect(s, t, f).ptr[kind] == s.ptr[kind]
  {
  }

  lemma LiveElsewhere(s: State, t: Thread, f: Frame, o: Obj)
    requires o < s.next && (f.kind in s.ptr ==> o != s.ptr[f.kind])
    ensures o in Effect(s, t, f).live <==> o in s.live
  {
  }

  lemma ObjectsStay(s: State, t: Thread, o: Obj)
    requires ObjInv(s) && Enabled(s, Advance(t)) && o in s.objs
    ensures o in Apply(s, Advance(t)).objs && Apply(s, Advance(t)).objs[o] == s.objs[o]
  {
  }

  lemma LiveOwnKind(s: State, t: Thread, o: Obj)
    requires Inv(s) && Enabled(s, Advance(t)) && o in Apply(s, Advance(t)).live
    requires o in s.live && o in s.objs && s.objs[o].kind == Top(Stack(s, t)).kind
    ensures Placed(Apply(s, Advance(t)), o)
  {
    assert Placed(s, o) && FrameInv(s, Top(Stack(s, t)));
    if Top(Stack(s, t)).Holds() {
      TopHolds(s, t);
    }
  }

  lemma LivePlaced(s: State, t: Thread, o: Obj)
    requires Inv(s) && Enabled(s, Advance(t)) && o in Apply(s, Advance(t)).live
    ensures Placed(Apply(s, Advance(t)), o)
  {
    if o !in s.live {
      OwnHolder(s, t);
    } else {
      assert Placed(s, o);
      var kind := s.objs[o].kind;
      ObjectsStay(s, t, o);
      if kind == Top(Stack(s, t)).kind {
        LiveOwnKind(s, t, o);
      } else {
        ElsewhereUnchanged(s, t, kind);
        if HolderAt(s, kind, Store(o)) {
          HolderStays(s, t, kind, Store(o));
        }
      }
    }
  }

  lemma OwnPointerPlaced(s: State, t: Thread)
    requires Inv(s) && Enabled(s, Advance(t)) && Top(Stack(s, t)).kind in Apply(s, Advance(t)).ptr
    ensures var s' := Apply(s, Advance(t));
      var kind := Top(Stack(s, t)).kind;
      && s'.ptr[kind] in s'.objs && s'.objs[s'.ptr[kind]].kind == kind
      && (s'.ptr[kind] in s'.live || HolderAt(s', kind, Clear))
  {
    var f := Top(Stack(s, t));
    assert FrameInv(s, f);
    if f.Holds() {
      TopHolds(s, t);
    }
    if f.at.Delete? {
      OwnHolder(s, t);
    }
  }

  lemma PointersPlaced(s: State, t: Thread, kind: Kind)
    requires Inv(s) && Enabled(s, Advance(t)) && kind in Apply(s, Advance(t)).ptr
    ensures var s' := Apply(s, Advance(t));
      && s'.ptr[kind] in s'.objs && s'.objs[s'.ptr[kind]].kind == kind
      && (s'.ptr[kind] in s'.live || HolderAt(s', kind, Clear))
  {
    if kind == Top(Stack(s, t)).kind {
      OwnPointerPlaced(s, t);
    } else {
      ElsewhereUnchanged(s, t, kind);
      ObjectsStay(s, t, s.ptr[kind]);
      if HolderAt(s, kind, Clear) {
        HolderStays(s, t, kind, Clear);
      }
    }
  }

  lemma AdvanceKeepsObjects(s: State, t: Thread)
    requires Inv(s) && Enabled(s, Advance(t))
    ensures ObjInv(Apply(s, Advance(t)))
  {
    var s' := Apply(s, Advance(t));
    forall o | o in s'.live ensures Placed(s', o) {
      LivePlaced(s, t, o);
    }
    forall kind | kind in s'.ptr
      ensures s'.ptr[kind] in s'.objs && s'.objs[s'.ptr[kind]].kind == kind
      ensures s'.ptr[kind] in s'.live || HolderAt(s', kind, Clear)
    {
      PointersPlaced(s, t, kind);
    }
  }

  lemma StepInv(s: State, step: Step)
    requires Inv(s) && Enabled(s, step)
    ensures Inv(Apply(s, step))
  {
    if step.Advance? {
      AdvanceKeepsLocks(s, step.t);
      AdvanceKeepsFrames(s, step.t);
      AdvanceKeepsObjects(s, step.t);
    } else {
      CallKeepsLocks(s, step);
      CallKeepsObjects(s, step);
    }
  }

  lemma {:induction false} RunInv(states: seq<State>, steps: seq<Step>, i: nat)
    requires IsRun(states, steps) && i < |states|
    ensures Inv(states[i])
  {
    if i == 0 {
      InitialInv(states[0]);
    } else {
      RunInv(states, steps, i - 1);
      StepInv(states[i - 1], steps[i - 1]);
    }
  }

  // ---------- What every run keeps ----------

  /**
   Every thread takes the locks in one fixed order and never asks for one it holds: below a call that
   waits for a lock there are only calls on kinds of a lower rank.
   */
  lemma LocksNestInOrder(states: seq<State>, steps: seq<Step>, i: nat, t: Thread, kind: Kind)
    requires IsRun(states, steps) && i < |states|
    requires Stack(states[i], t) != [] && Top(Stack(states[i], t)).at.Lock?
    requires Owns(states[i], t, kind)
    ensures kind.Rank() < Top(Stack(states[i], t)).kind.Rank()
  {
    RunInv(states, steps, i);
    var stack := Stack(states[i], t);
    assert HeldBy(stack, kind);
    var j :| 0 <= j < |stack| && stack[j].kind == kind && stack[j].Holds();
    assert WaitsFor(stack[j], Top(stack));
  }

  ghost predicate Busy(s: State, t: Thread) {
    Stack(s, t) != []
  }

  ghost predicate CanMove(s: State, t: Thread) {
    Enabled(s, Advance(t)) || exists arg :: Enabled(s, Evaluate(t, arg))
  }

  lemma StuckWaits(s: State, t: Thread)
    requires Busy(s, t) && !CanMove(s, t) && LockInv(s)
    ensures Top(Stack(s, t)).at.Lock? && Top(Stack(s, t)).kind in s.locks
  {
    var f := Top(Stack(s, t));
    assert PointFits(f);
    assert f.at.Build? ==> f.Ready() || Enabled(s, Evaluate(t, Group)) || Enabled(s, Evaluate(t, Resolver));
  }

  /** Following a waiting thread to the holder of the lock climbs in rank, and so ends at one that can move. */
  lemma {:induction false} FollowWaiting(s: State, t: Thread) returns (mover: Thread)
    requires LockInv(s) && Busy(s, t)
    ensures Busy(s, mover) && CanMove(s, mover)
    decreases 2 - Top(Stack(s, t)).kind.Rank()
  {
    if CanMove(s, t) {
      mover := t;
    } else {
      StuckWaits(s, t);
      var kind := Top(Stack(s, t)).kind;
      var holder := s.locks[kind];
      var stack := Stack(s, holder);
      assert Owns(s, holder, kind);
      var j :| 0 <= j < |stack| && stack[j].kind == kind && stack[j].Holds();
      if j == |stack| - 1 {
        if !CanMove(s, holder) {
          StuckWaits(s, holder);
        }
        mover := holder;
      } else {
        assert WaitsFor(stack[j], Top(stack));
        mover := FollowWaiting(s, holder);
      }
    }
  }

  /** No reachable state is deadlocked: while some call is unfinished, some unfinished call can move. */
  lemma NoDeadlock(states: seq<State>, steps: seq<Step>, i: nat, t: Thread) returns (mover: Thread)
    requires IsRun(states, steps) && i < |states| && Busy(states[i], t)
    ensures Busy(states[i], mover) && CanMove(states[i], mover)
  {
    RunInv(states, steps, i);
    mover := FollowWaiting(states[i], t);
  }

  lemma OneLivePerKind(s: State, o: Obj, o': Obj)
    requires Inv(s) && o in s.live && o' in s.live
    requires o in s.objs && o' in s.objs && s.objs[o].kind == s.objs[o'].kind
    ensures o == o'
  {
    var kind := s.objs[o].kind;
    assert Placed(s, o) && Placed(s, o');
    if HolderAt(s, kind, Store(o)) {
      assert FrameInv(s, Top(Stack(s, s.locks[kind])));
    }
    if HolderAt(s, kind, Store(o')) {
      assert FrameInv(s, Top(Stack(s, s.locks[kind])));
    }
  }

  /** With or without releases, at most one object of each kind is live at a time. */
  lemma AtMostOneLive(states: seq<State>, steps: seq<Step>, i: nat, o: Obj, o': Obj)
    requires IsRun(states, steps) && i < |states|
    requires o in states[i].live && o' in states[i].live
    ensures o in states[i].objs && o' in states[i].objs
    ensures states[i].objs[o].kind == states[i].objs[o'].kind ==> o == o'
  {
    RunInv(states, steps, i);
    assert Placed(states[i], o) && Placed(states[i], o');
    if states[i].objs[o].kind == states[i].objs[o'].kind {
      OneLivePerKind(states[i], o, o');
    }
  }

  /** A getter returns the static object of its kind, which is live when the lock is given back. */
  lemma GetterReturnsLiveObject(states: seq<State>, steps: seq<Step>, i: nat, t: Thread)
    requires IsRun(states, steps) && i < |states| && Stack(states[i], t) != []
    requires Top(Stack(states[i], t)).getter && Top(Stack(states[i], t)).at.Unlock?
    ensures var f := Top(Stack(states[i], t));
      && f.at.result.Some? && f.at.result.value in states[i].live
      && f.at.result.value in states[i].objs && states[i].objs[f.at.result.value].kind == f.kind
  {
    RunInv(states, steps, i);
    assert FrameInv(states[i], Top(Stack(states[i], t)));
  }

  /** What an outermost getter returns is recorded, and nothing else is. */
  lemma ReturnsAreRecorded(states: seq<State>, steps: seq<Step>, i: nat, t: Thread)
    requires IsRun(states, steps) && i < |steps| && steps[i] == Advance(t) && Top(Stack(states[i], t)).at.Unlock?
    ensures var f := Top(Stack(states[i], t));
      states[i + 1].returned ==
        states[i].returned + if f.getter && |Stack(states[i], t)| == 1 then {(f.kind, f.at.result)} else {}
  {
  }

  // ---------- Lazy initialisation, when nothing is released ----------

  predicate Static(s: State, kind: Kind, value: Option<Obj>) {
    kind in s.ptr && value == Some(s.ptr[kind])
  }

  ghost predicate OnceFrame(s: State, f: Frame) {
    && f.getter
    && (f.group.Some? ==> Static(s, Group, f.group))
    && (f.resolver.Some? ==> Static(s, Resolver, f.resolver))
    && (f.at.Unlock? ==> Static(s, f.kind, f.at.result))
  }

  ghost predicate OnceInv(s: State) {
    && (forall t: Thread, i :: 0 <= i < |Stack(s, t)| ==> OnceFrame(s, Stack(s, t)[i]))
    && (forall o :: o in s.objs ==> o in s.live)
    && (forall o :: o in s.objs ==> BuiltOnStatics(s, s.objs[o]))
    && (forall r :: r in s.returned ==> Static(s, r.0, r.1))
  }

  /** Everything an object needs, it was built on the static one. */
  predicate BuiltOnStatics(s: State, b: Built) {
    && (b.kind.Needs(Group) ==> Static(s, Group, b.group))
    && (b.kind.Needs(Resolver) ==> Static(s, Resolver, b.resolver))
  }

  lemma OnceCall(s: State, step: Step)
    requires Inv(s) && OnceInv(s) && Enabled(s, step) && !step.Advance? && !step.CallRelease?
    ensures OnceInv(Apply(s, step))
  {
    var s' := Apply(s, step);
    assert OnlyMoved(s, s', step.t);
    forall u: Thread, i | 0 <= i < |Stack(s', u)| ensures OnceFrame(s', Stack(s', u)[i]) {
      if u != step.t || i < |Stack(s, step.t)| {
        assert OnceFrame(s, Stack(s, u)[i]);
      }
    }
  }

  lemma StaticStays(s: State, t: Thread, kind: Kind, value: Option<Obj>)
    requires Inv(s) && OnceInv(s) && Enabled(s, Advance(t)) && Static(s, kind, value)
    ensures Static(Apply(s, Advance(t)), kind, value)
  {
    assert OnceFrame(s, Top(Stack(s, t))) && FrameInv(s, Top(Stack(s, t))) && PointFits(Top(Stack(s, t)));
  }

  lemma OnceFrameStays(s: State, t: Thread, f: Frame)
    requires Inv(s) && OnceInv(s) && Enabled(s, Advance(t)) && OnceFrame(s, f)
    ensures OnceFrame(Apply(s, Advance(t)), f)
  {
    if f.group.Some? {
      StaticStays(s, t, Group, f.group);
    }
    if f.resolver.Some? {
      StaticStays(s, t, Resolver, f.resolver);
    }
    if f.at.Unlock? {
      StaticStays(s, t, f.kind, f.at.result);
    }
  }

  lemma OnceFrames(s: State, t: Thread, u: Thread, i: int)
    requires Inv(s) && OnceInv(s) && Enabled(s, Advance(t)) && 0 <= i < |Stack(Apply(s, Advance(t)), u)|
    ensures OnceFrame(Apply(s, Advance(t)), Stack(Apply(s, Advance(t)), u)[i])
  {
    var s' := Apply(s, Advance(t));
    assert OnlyMoved(s, s', t);
    OnceFrameStays(s, t, Stack(s, u)[i]);
    if u == t && i == |Stack(s', t)| - 1 {
      var f := Top(Stack(s, t));
      assert FrameInv(s, f) && PointFits(f);
      OnceFrameStays(s, t, f);
    }
  }

  lemma OnceNewObject(s: State, t: Thread)
    requires Inv(s) && OnceInv(s) && Enabled(s, Advance(t)) && Top(Stack(s, t)).at.Build?
    ensures var s' := Apply(s, Advance(t));
      s.next in s'.objs && s.next in s'.live && BuiltOnStatics(s', s'.objs[s.next])
  {
    assert OnceFrame(s, Top(Stack(s, t)));
  }

  lemma OnceLive(s: State, t: Thread, o: Obj)
    requires Inv(s) && OnceInv(s) && Enabled(s, Advance(t)) && o in s.live
    ensures o in Apply(s, Advance(t)).live
  {
    assert OnceFrame(s, Top(Stack(s, t))) && PointFits(Top(Stack(s, t)));
  }

  lemma OnceObjects(s: State, t: Thread, o: Obj)
    requires Inv(s) && OnceInv(s) && Enabled(s, Advance(t)) && o in Apply(s, Advance(t)).objs
    ensures o in Apply(s, Advance(t)).live && BuiltOnStatics(Apply(s, Advance(t)), Apply(s, Advance(t)).objs[o])
  {
    if o in s.objs {
      OnceLive(s, t, o);
      ObjectsStay(s, t, o);
      var b := s.objs[o];
      if b.kind.Needs(Group) {
        StaticStays(s, t, Group, b.group);
      }
      if b.kind.Needs(Resolver) {
        StaticStays(s, t, Resolver, b.resolver);
      }
    } else {
      OnceNewObject(s, t);
    }
  }

  lemma OnceAdvance(s: State, t: Thread)
    requires Inv(s) && OnceInv(s) && Enabled(s, Advance(t))
    ensures OnceInv(Apply(s, Advance(t)))
  {
    var s' := Apply(s, Advance(t));
    forall u: Thread, i | 0 <= i < |Stack(s', u)| ensures OnceFrame(s', Stack(s', u)[i]) {
      OnceFrames(s, t, u, i);
    }
    forall o | o in s'.objs ensures o in s'.live && BuiltOnStatics(s', s'.objs[o]) {
      OnceObjects(s, t, o);
    }
    forall r | r in s'.returned ensures Static(s', r.0, r.1) {
      var f := Top(Stack(s, t));
      assert OnceFrame(s, f);
      StaticStays(s, t, r.0, r.1);
    }
  }

  lemma ReleasingStays(states: seq<State>, steps: seq<Step>, i: nat)
    requires IsRun(states, steps) && i < |steps| && !states[i + 1].releasing
    ensures !states[i].releasing && !steps[i].CallRelease?
  {
    assert states[i + 1] == Apply(states[i], steps[i]);
  }

  lemma {:induction false} OnceRun(states: seq<State>, steps: seq<Step>, i: nat)
    requires IsRun(states, steps) && i < |states| && !states[i].releasing
    ensures OnceInv(states[i])
  {
    if i == 0 {
      assert forall t: Thread :: Stack(states[0], t) == [];
    } else {
      ReleasingStays(states, steps, i - 1);
      OnceRun(states, steps, i - 1);
      RunInv(states, steps, i - 1);
      if steps[i - 1].Advance? {
        OnceAdvance(states[i - 1], steps[i - 1].t);
      } else {
        OnceCall(states[i - 1], steps[i - 1]);
      }
    }
  }

  /** Without releases, each kind is constructed at most once. */
  lemma ConstructedOnce(states: seq<State>, steps: seq<Step>, i: nat, o: Obj, o': Obj)
    requires IsRun(states, steps) && i < |states| && !states[i].releasing
    requires o in states[i].objs && o' in states[i].objs && states[i].objs[o].kind == states[i].objs[o'].kind
    ensures o == o'
  {
    OnceRun(states, steps, i);
    RunInv(states, steps, i);
    OneLivePerKind(states[i], o, o');
  }

  /** Without releases, every caller of a getter gets the same object, at whatever times they call. */
  lemma CallersShareOneObject(states: seq<State>, steps: seq<Step>, i: nat, kind: Kind, r: Option<Obj>, r': Option<Obj>)
    requires IsRun(states, steps) && i < |states| && !states[i].releasing
    requires (kind, r) in states[i].returned && (kind, r') in states[i].returned
    ensures r.Some? && r == r'
  {
    OnceRun(states, steps, i);
    assert Static(states[i], kind, r) && Static(states[i], kind, r');
  }

  /** Without releases, the bootstrap and the resolver are built on the one event loop group. */
  lemma BuiltOnOneGroup(states: seq<State>, steps: seq<Step>, i: nat, o: Obj, g: Obj)
    requires IsRun(states, steps) && i < |states| && !states[i].releasing
    requires o in states[i].objs && states[i].objs[o].kind != Group
    requires g in states[i].objs && states[i].objs[g].kind == Group
    ensures states[i].objs[o].group == Some(g)
  {
    OnceRun(states, steps, i);
    RunInv(states, steps, i);
    assert BuiltOnStatics(states[i], states[i].objs[o]);
    OneLivePerKind(states[i], states[i].ptr[Group], g);
  }

  /** Without releases, the bootstrap is built on the one host resolver. */
  lemma BuiltOnOneResolver(states: seq<State>, steps: seq<Step>, i: nat, o: Obj, r: Obj)
    requires IsRun(states, steps) && i < |states| && !states[i].releasing
    requires o in states[i].objs && states[i].objs[o].kind == Bootstrap
    requires r in states[i].objs && states[i].objs[r].kind == Resolver
    ensures states[i].objs[o].resolver == Some(r)
  {
    OnceRun(states, steps, i);
    RunInv(states, steps, i);
    assert BuiltOnStatics(states[i], states[i].objs[o]);
    OneLivePerKind(states[i], states[i].ptr[Resolver], r);
  }

  ghost predicate Exists(s: State, kind: Kind) {
    exists o :: o in s.objs && s.objs[o].kind == kind
  }

  /** The atomic step of the specification: create the missing object of a kind on existing objects. */
  ghost predicate CreatesAtomically(s: State, s': State, kind: Kind) {
    && !Exists(s, kind)
    && s.next !in s.objs
    && (exists group, resolver ::
         && s'.objs == s.objs[s.next := Built(kind, group, resolver)]
         && (kind.Needs(Group) ==> group.Some? && group.value in s.objs && s.objs[group.value].kind == Group)
         && (kind.Needs(Resolver) ==>
              resolver.Some? && resolver.value in s.objs && s.objs[resolver.value].kind == Resolver))
  }

  ghost predicate LazyStep(s: State, s': State) {
    s'.objs == s.objs || exists kind :: CreatesAtomically(s, s', kind)
  }

  lemma BuildIsAtomic(s: State, t: Thread)
    requires Inv(s) && OnceInv(s) && Enabled(s, Advance(t)) && Top(Stack(s, t)).at.Build?
    ensures CreatesAtomically(s, Apply(s, Advance(t)), Top(Stack(s, t)).kind)
  {
    var f := Top(Stack(s, t));
    assert OnceFrame(s, f) && FrameInv(s, f);
    TopHolds(s, t);
    assert forall o :: o in s.objs ==> Placed(s, o);
    assert Apply(s, Advance(t)).objs == s.objs[s.next := Built(f.kind, f.group, f.resolver)];
  }

  /** Without releases, every step of the nested getters is an atomic lazy creation or changes no object. */
  lemma RefinesLazyCreation(states: seq<State>, steps: seq<Step>, i: nat)
    requires IsRun(states, steps) && i < |steps| && !states[i].releasing
    ensures LazyStep(states[i], states[i + 1])
  {
    RunInv(states, steps, i);
    OnceRun(states, steps, i);
    if steps[i].Advance? && Top(Stack(states[i], steps[i].t)).at.Build? {
      BuildIsAtomic(states[i], steps[i].t);
    }
  }
}
