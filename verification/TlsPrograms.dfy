/**
 Programs over the TLS option objects (source/io/TlsOptions.cpp). However a program copies, moves, assigns and
 destroys them, the objects behave like plain values, and the native structs behind them are cleaned up once each.
 */
module TlsPrograms {
  import opened Options
  import opened TlsInfo
  import opened TlsOwnership

  // ---------- Option objects as values ----------

  /** What a program can see of an option object, and whether it reports how its native struct is configured. */
  datatype Value = Gone | Value(valid: bool, info: Info, reports: bool)

  const EMPTY := Value(false, DEFAULT_INFO, false)

  predicate Alive(vs: seq<Value>, k: nat) {
    k < |vs| && vs[k].Value?
  }

  /** An operation on context options; objects are numbered in the order of their construction. */
  datatype OptionsCommand =
    | Init(certificate: CertificateSource, ok: bool)
    | MoveConstructOptions(from: nat)
    | MoveAssignOptions(to: nat, from: nat)
    | SetVersion(at: nat, version: TlsVersion)
    | SetCipher(at: nat, cipher: CipherPref)
    | DestroyOptions(at: nat)

  datatype ConnectionCommand =
    | Default
    | FromContext(context: nat)
    | CopyConstruct(from: nat, copied: bool)
    | MoveConstruct(from: nat)
    | CopyAssign(to: nat, from: nat, copied: bool)
    | MoveAssign(to: nat, from: nat)
    | Destroy(at: nat)

  datatype Command =
    | OnOptions(options: OptionsCommand)
    | BuildContext(at: nat, created: bool)
    | OnConnections(connections: ConnectionCommand)

  /** The operations on plain values. An operation on an object that is not there does nothing. */
  function NextOptions(vs: seq<Value>, cmd: OptionsCommand): seq<Value> {
    match cmd
    case Init(certificate, ok) =>
      vs + [if ok then Value(true, DEFAULT_INFO.(certificate := certificate), true) else EMPTY]
    case MoveConstructOptions(from) => if Alive(vs, from) then vs[from := EMPTY] + [vs[from]] else vs
    case MoveAssignOptions(to, from) =>
      if Alive(vs, to) && Alive(vs, from) && to != from then vs[to := vs[from]][from := EMPTY] else vs
    case SetVersion(k, version) =>
      if Alive(vs, k) && vs[k].valid then vs[k := Value(true, vs[k].info.(version := version), true)] else vs
    case SetCipher(k, cipher) =>
      if Alive(vs, k) && vs[k].valid then vs[k := Value(true, vs[k].info.(cipher := cipher), true)] else vs
    case DestroyOptions(k) => if Alive(vs, k) then vs[k := Gone] else vs
  }

  function Copied(v: Value, copied: bool): Value
    requires v.Value?
  {
    Value(v.valid && copied, if v.valid then v.info else DEFAULT_INFO, v.reports && copied)
  }

  function MadeFrom(c: Context): Value {
    if c.native.Some? then Value(true, c.info, c.fromValid) else EMPTY
  }

  function NextConnections(vs: seq<Value>, contexts: seq<Context>, cmd: ConnectionCommand): seq<Value> {
    match cmd
    case Default => vs + [EMPTY]
    case FromContext(c) =>
      if c < |contexts| then vs + [MadeFrom(contexts[c])] else vs
    case CopyConstruct(from, copied) => if Alive(vs, from) then vs + [Copied(vs[from], copied)] else vs
    case MoveConstruct(from) =>
      if Alive(vs, from) then (if vs[from].valid then vs[from := EMPTY] else vs) + [vs[from]] else vs
    case CopyAssign(to, from, copied) =>
      if Alive(vs, to) && Alive(vs, from) && to != from then vs[to := Copied(vs[from], copied)] else vs
    case MoveAssign(to, from) =>
      if Alive(vs, to) && Alive(vs, from) && to != from then
        (if vs[from].valid then vs[to := vs[from]][from := EMPTY] else vs[to := EMPTY])
      else
        vs
    case Destroy(k) => if Alive(vs, k) then vs[k := Gone] else vs
  }

  /** How many native structs an operation initialises. */
  function OptionsMade(cmd: OptionsCommand): nat {
    if cmd.Init? && cmd.ok then 1 else 0
  }

  function ConnectionsMade(vs: seq<Value>, contexts: seq<Context>, cmd: ConnectionCommand): nat {
    match cmd
    case FromContext(c) => if c < |contexts| && contexts[c].native.Some? then 1 else 0
    case CopyConstruct(from, copied) => if Alive(vs, from) && vs[from].valid && copied then 1 else 0
    case CopyAssign(to, from, copied) =>
      if Alive(vs, to) && Alive(vs, from) && to != from && vs[from].valid && copied then 1 else 0
    case _ => 0
  }

  datatype Values = Values(
    options: seq<Value>,
    contexts: seq<Context>,
    connections: seq<Value>,
    optionsMade: nat,
    connectionsMade: nat)

  function NextContexts(v: Values, at: nat, created: bool): seq<Context> {
    if Alive(v.options, at) then
      var o := v.options[at];
      var native := if o.valid then o.info else ZEROED_INFO;
      v.contexts + [Context(if created then Some(native) else None, o.info, o.valid)]
    else
      v.contexts
  }

  function Next(v: Values, cmd: Command): Values {
    match cmd
    case OnOptions(c) =>
      v.(options := NextOptions(v.options, c), optionsMade := v.optionsMade + OptionsMade(c))
    case BuildContext(at, created) => v.(contexts := NextContexts(v, at, created))
    case OnConnections(c) =>
      v.(connections := NextConnections(v.connections, v.contexts, c),
         connectionsMade := v.connectionsMade + ConnectionsMade(v.connections, v.contexts, c))
  }

  function After(script: seq<Command>): Values {
    if script == [] then Values([], [], [], 0, 0) else Next(After(script[..|script| - 1]), script[|script| - 1])
  }

  /** The list names every object that is alive, and names none twice. */
  ghost predicate Listed<T>(list: seq<T>, alive: set<T>) {
    && (forall o :: o in alive ==> o in list)
    && (forall i, j :: 0 <= i < j < |list| ==> list[i] != list[j])
  }

  // ---------- Context options ----------

  class OptionsTable {
    const lib: Ledger
    var list: seq<ContextOptions>      // every object ever constructed
    var alive: set<ContextOptions>     // those not destroyed

    ghost predicate Valid()
      reads this, lib, alive
    {
      && OwnedContexts(lib, alive)
      && Listed(list, alive)
    }

    /** The objects look like the values. */
    ghost predicate Shows(vs: seq<Value>)
      reads this, alive
    {
      && |vs| == |list|
      && (forall k :: 0 <= k < |list| ==>
            vs[k] == if list[k] in alive then Value(list[k].isInit, list[k].info, list[k].isInit) else Gone)
    }

    constructor (lib: Ledger)
      requires lib.Counted() && lib.live == map[]
      ensures this.lib == lib && Valid() && Shows([]) && alive == {}
    {
      this.lib := lib;
      list, alive := [], {};
    }

    method Init(certificate: CertificateSource, ok: bool, ghost vs: seq<Value>)
      requires Valid() && Shows(vs)
      modifies this, lib
      ensures Valid() && Shows(NextOptions(vs, OptionsCommand.Init(certificate, ok)))
      ensures lib.next == old(lib.next) + (if ok then 1 else 0) && fresh(alive - old(alive))
    {
      var o := new ContextOptions.Init(lib, certificate, ok, alive);
      list, alive := list + [o], alive + {o};
    }

    method MoveConstruct(from: nat, ghost vs: seq<Value>)
      requires Valid() && Shows(vs) && Alive(vs, from)
      modifies this, alive
      ensures Valid() && Shows(NextOptions(vs, MoveConstructOptions(from))) && fresh(alive - old(alive))
    {
      var o := new ContextOptions.MovedFrom(list[from], alive);
      list, alive := list + [o], alive + {o};
    }

    method MoveAssign(to: nat, from: nat, ghost vs: seq<Value>)
      requires Valid() && Shows(vs) && Alive(vs, to) && Alive(vs, from)
      modifies lib, alive
      ensures Valid() && Shows(NextOptions(vs, MoveAssignOptions(to, from))) && lib.next == old(lib.next)
    {
      list[to].MoveAssign(list[from], alive);
    }

    method SetVersion(at: nat, version: TlsVersion, ghost vs: seq<Value>)
      requires Valid() && Shows(vs) && Alive(vs, at) && vs[at].valid
      modifies lib, alive
      ensures Valid() && Shows(NextOptions(vs, OptionsCommand.SetVersion(at, version))) && lib.next == old(lib.next)
    {
      list[at].SetMinimumTlsVersion(version, alive);
    }

    method SetCipher(at: nat, cipher: CipherPref, ghost vs: seq<Value>)
      requires Valid() && Shows(vs) && Alive(vs, at) && vs[at].valid
      modifies lib, alive
      ensures Valid() && Shows(NextOptions(vs, OptionsCommand.SetCipher(at, cipher))) && lib.next == old(lib.next)
    {
      list[at].SetTlsCipherPreference(cipher, alive);
    }

    method Destroy(at: nat, ghost vs: seq<Value>)
      requires Valid() && Shows(vs) && Alive(vs, at)
      modifies this, lib
      ensures Valid() && Shows(NextOptions(vs, DestroyOptions(at))) && lib.next == old(lib.next)
      ensures list == old(list) && alive == old(alive) - {list[at]}
    {
      list[at].Destroy(alive);
      alive := alive - {list[at]};
    }

    method Step(cmd: OptionsCommand, ghost vs: seq<Value>)
      requires Valid() && Shows(vs)
      modifies this, lib, alive
      ensures Valid() && Shows(NextOptions(vs, cmd)) && fresh(alive - old(alive))
      ensures lib.next == old(lib.next) + OptionsMade(cmd)
    {
      match cmd
      case Init(certificate, ok) => Init(certificate, ok, vs);
      case MoveConstructOptions(from) =>
        if from < |list| && list[from] in alive {
          MoveConstruct(from, vs);
        }
      case MoveAssignOptions(to, from) =>
        if to < |list| && list[to] in alive && from < |list| && list[from] in alive {
          MoveAssign(to, from, vs);
        }
      case SetVersion(at, version) =>
        if at < |list| && list[at] in alive && list[at].isInit {
          SetVersion(at, version, vs);
        }
      case SetCipher(at, cipher) =>
        if at < |list| && list[at] in alive && list[at].isInit {
          SetCipher(at, cipher, vs);
        }
      case DestroyOptions(at) =>
        if at < |list| && list[at] in alive {
          Destroy(at, vs);
        }
    }

    /** The end of a program destroys whatever is left. */
    method Finish(ghost start: seq<Value>)
      requires Valid() && Shows(start)
      modifies this, lib, alive
      ensures Valid() && alive == {} && lib.next == old(lib.next)
    {
      ghost var vs := start;
      for k := 0 to |list|
        invariant Valid() && Shows(vs) && alive <= old(alive) && list == old(list) && lib.next == old(lib.next)
        invariant forall i :: 0 <= i < k ==> list[i] !in alive
      {
        if list[k] in alive {
          Destroy(k, vs);
          vs := NextOptions(vs, DestroyOptions(k));
        }
      }
    }
  }

  // ---------- Connection options ----------

  function ValueOf(o: ConnectionOptions): Value
    reads o
  {
    Value(o.isInit, o.info, o.isInit && o.fromValid)
  }

  /** The object is valid and reports how the struct it owns is configured. */
  ghost predicate Reports(o: ConnectionOptions)
    reads o, o.lib
  {
    o.isInit && o.struct.Some? && o.struct.value in o.lib.live && o.lib.live[o.struct.value] == o.info
  }

  class ConnectionsTable {
    const lib: Ledger
    var list: seq<ConnectionOptions>      // every object ever constructed
    var alive: set<ConnectionOptions>     // those not destroyed

    ghost predicate Valid(contexts: seq<Context>)
      reads this, lib, alive
    {
      && Owned(lib, alive, contexts)
      && Listed(list, alive)
    }

    /** The objects look like the values. */
    ghost predicate Shows(vs: seq<Value>)
      reads this, alive
    {
      && |vs| == |list|
      && (forall k :: 0 <= k < |list| ==>
            vs[k] == if list[k] in alive then ValueOf(list[k]) else Gone)
    }

    constructor (lib: Ledger)
      requires lib.Counted() && lib.live == map[]
      ensures this.lib == lib && Valid([]) && Shows([]) && alive == {}
    {
      this.lib := lib;
      list, alive := [], {};
    }

    method Default(ghost vs: seq<Value>, ghost contexts: seq<Context>)
      requires Valid(contexts) && Shows(vs)
      modifies this
      ensures Valid(contexts) && Shows(NextConnections(vs, contexts, ConnectionCommand.Default))
      ensures fresh(alive - old(alive))
    {
      var o := new ConnectionOptions(lib, alive, contexts);
      list, alive := list + [o], alive + {o};
    }

    method Append(o: ConnectionOptions, ghost vs: seq<Value>, ghost contexts: seq<Context>)
      requires Listed(list, alive) && Shows(vs) && o !in list && o !in alive && Owned(lib, alive + {o}, contexts)
      modifies this
      ensures Valid(contexts) && Shows(vs + [ValueOf(o)]) && alive == old(alive) + {o}
    {
      list, alive := list + [o], alive + {o};
    }

    method MakeFrom(c: Context, ghost vs: seq<Value>, ghost contexts: seq<Context>) returns (o: ConnectionOptions)
      requires Valid(contexts) && Shows(vs) && c in contexts
      modifies lib
      ensures fresh(o) && Owned(lib, alive + {o}, contexts) && Shows(vs)
      ensures ValueOf(o) == MadeFrom(c)
      ensures lib.next == old(lib.next) + if o.isInit then 1 else 0
    {
      o := NewConnectionOptions(c, lib, alive, contexts);
    }

    method FromContext(context: nat, ghost vs: seq<Value>, contexts: seq<Context>)
      requires Valid(contexts) && Shows(vs) && context < |contexts|
      modifies this, lib
      ensures Valid(contexts) && Shows(NextConnections(vs, contexts, ConnectionCommand.FromContext(context)))
      ensures lib.next == old(lib.next) + ConnectionsMade(vs, contexts, ConnectionCommand.FromContext(context))
      ensures fresh(alive - old(alive))
    {
      var o := MakeFrom(contexts[context], vs, contexts);
      assert NextConnections(vs, contexts, ConnectionCommand.FromContext(context)) == vs + [ValueOf(o)];
      Append(o, vs, contexts);
    }

    method CopyConstruct(from: nat, copied: bool, ghost vs: seq<Value>, ghost contexts: seq<Context>)
      requires Valid(contexts) && Shows(vs) && Alive(vs, from)
      modifies this, lib
      ensures Valid(contexts) && Shows(NextConnections(vs, contexts, ConnectionCommand.CopyConstruct(from, copied)))
      ensures lib.next == old(lib.next) + if vs[from].valid && copied then 1 else 0
      ensures fresh(alive - old(alive))
    {
      var o := new ConnectionOptions.CopyOf(list[from], copied, alive, contexts);
      list, alive := list + [o], alive + {o};
    }

    method MoveConstruct(from: nat, ghost vs: seq<Value>, ghost contexts: seq<Context>)
      requires Valid(contexts) && Shows(vs) && Alive(vs, from)
      modifies this, alive
      ensures Valid(contexts) && Shows(NextConnections(vs, contexts, ConnectionCommand.MoveConstruct(from)))
      ensures fresh(alive - old(alive))
    {
      var o := new ConnectionOptions.MovedFrom(list[from], alive, contexts);
      list, alive := list + [o], alive + {o};
    }

    method CopyAssign(to: nat, from: nat, copied: bool, ghost vs: seq<Value>, ghost contexts: seq<Context>)
      requires Valid(contexts) && Shows(vs) && Alive(vs, to) && Alive(vs, from)
      modifies lib, alive
      ensures Valid(contexts) && Shows(NextConnections(vs, contexts, ConnectionCommand.CopyAssign(to, from, copied)))
      ensures lib.next == old(lib.next) + if to != from && vs[from].valid && copied then 1 else 0
    {
      list[to].CopyAssign(list[from], copied, alive, contexts);
    }

    method MoveAssign(to: nat, from: nat, ghost vs: seq<Value>, ghost contexts: seq<Context>)
      requires Valid(contexts) && Shows(vs) && Alive(vs, to) && Alive(vs, from)
      modifies lib, alive
      ensures Valid(contexts) && Shows(NextConnections(vs, contexts, ConnectionCommand.MoveAssign(to, from)))
      ensures lib.next == old(lib.next)
    {
      list[to].MoveAssign(list[from], alive, contexts);
    }

    method Destroy(at: nat, ghost vs: seq<Value>, ghost contexts: seq<Context>)
      requires Valid(contexts) && Shows(vs) && Alive(vs, at)
      modifies this, lib, alive
      ensures Valid(contexts) && Shows(NextConnections(vs, contexts, ConnectionCommand.Destroy(at)))
      ensures lib.next == old(lib.next) && list == old(list) && alive == old(alive) - {list[at]}
    {
      list[at].Destroy(alive, contexts);
      alive := alive - {list[at]};
    }

    method Step(cmd: ConnectionCommand, ghost vs: seq<Value>, contexts: seq<Context>)
      requires Valid(contexts) && Shows(vs)
      modifies this, lib, alive
      ensures Valid(contexts) && Shows(NextConnections(vs, contexts, cmd)) && fresh(alive - old(alive))
      ensures lib.next == old(lib.next) + ConnectionsMade(vs, contexts, cmd)
    {
      match cmd
      case Default => Default(vs, contexts);
      case FromContext(c) =>
        if c < |contexts| {
          FromContext(c, vs, contexts);
        }
      case CopyConstruct(from, copied) =>
        if from < |list| && list[from] in alive {
          CopyConstruct(from, copied, vs, contexts);
        }
      case MoveConstruct(from) =>
        if from < |list| && list[from] in alive {
          MoveConstruct(from, vs, contexts);
        }
      case CopyAssign(to, from, copied) =>
        if to < |list| && list[to] in alive && from < |list| && list[from] in alive {
          CopyAssign(to, from, copied, vs, contexts);
        }
      case MoveAssign(to, from) =>
        if to < |list| && list[to] in alive && from < |list| && list[from] in alive {
          MoveAssign(to, from, vs, contexts);
        }
      case Destroy(at) =>
        if at < |list| && list[at] in alive {
          Destroy(at, vs, contexts);
        }
    }

    method Finish(ghost start: seq<Value>, ghost contexts: seq<Context>)
      requires Valid(contexts) && Shows(start)
      modifies this, lib, alive
      ensures Valid(contexts) && alive == {} && lib.next == old(lib.next)
    {
      ghost var vs := start;
      for k := 0 to |list|
        invariant Valid(contexts) && Shows(vs) && alive <= old(alive) && list == old(list)
        invariant lib.next == old(lib.next)
        invariant forall i :: 0 <= i < k ==> list[i] !in alive
      {
        if list[k] in alive {
          Destroy(k, vs, contexts);
          vs := NextConnections(vs, contexts, ConnectionCommand.Destroy(k));
        }
      }
    }
  }

  // ---------- Whole programs ----------

  /** The state of a program: both tables, and every context built so far. */
  class World {
    const options: OptionsTable
    const connections: ConnectionsTable
    var contexts: seq<Context>

    ghost predicate Valid()
      reads this, options, options.lib, options.alive, connections, connections.lib, connections.alive
    {
      && options.lib != connections.lib
      && options.Valid() && connections.Valid(contexts)
      && (forall c :: c in contexts ==> c.Sound())
    }

    /** Every object looks like its value, and as many structs were initialised as on the values. */
    ghost predicate Shows(v: Values)
      reads this, options, options.lib, options.alive, connections, connections.lib, connections.alive
    {
      && options.Shows(v.options) && connections.Shows(v.connections) && contexts == v.contexts
      && options.lib.next == v.optionsMade && connections.lib.next == v.connectionsMade
    }

    constructor ()
      ensures Valid() && Shows(After([])) && fresh(options) && fresh(connections)
      ensures fresh(options.lib) && fresh(connections.lib) && options.alive == {} && connections.alive == {}
    {
      var a := new Ledger();
      var b := new Ledger();
      options := new OptionsTable(a);
      connections := new ConnectionsTable(b);
      contexts := [];
    }

    method BuildContext(at: nat, created: bool, ghost v: Values)
      requires Valid() && Shows(v)
      modifies `contexts
      ensures Valid() && Shows(Next(v, Command.BuildContext(at, created)))
    {
      if at < |options.list| && options.list[at] in options.alive {
        var c := NewContext(options.list[at], created, options.alive);
        contexts := contexts + [c];
      }
    }

    /** Any operation on any objects does to the objects what it does to plain values. */
    method Step(cmd: Command, ghost v: Values)
      requires Valid() && Shows(v)
      modifies this, options, options.lib, options.alive, connections, connections.lib, connections.alive
      ensures Valid() && Shows(Next(v, cmd))
      ensures fresh(options.alive - old(options.alive)) && fresh(connections.alive - old(connections.alive))
    {
      match cmd
      case OnOptions(c) => options.Step(c, v.options);
      case BuildContext(at, created) => BuildContext(at, created, v);
      case OnConnections(c) => connections.Step(c, v.connections, contexts);
    }

    method Finish(ghost v: Values)
      requires Valid() && Shows(v)
      modifies options, options.lib, options.alive, connections, connections.lib, connections.alive
      ensures Valid() && options.alive == {} && connections.alive == {}
      ensures options.lib.next == v.optionsMade && connections.lib.next == v.connectionsMade
    {
      connections.Finish(v.connections, contexts);
      options.Finish(v.options);
    }
  }

  /**
   After any program, every object looks as if it were a plain value. It reports how its native struct is
   configured exactly if the value does: if it goes back to a context that was built from valid options.
   */
  method Run(script: seq<Command>) returns (w: World)
    ensures w.Valid() && w.Shows(After(script))
    ensures forall k :: 0 <= k < |w.connections.list| && w.connections.list[k] in w.connections.alive ==>
      (Reports(w.connections.list[k]) <==> After(script).connections[k].reports)
    ensures fresh(w) && fresh(w.options) && fresh(w.options.lib) && fresh(w.options.alive)
    ensures fresh(w.connections) && fresh(w.connections.lib) && fresh(w.connections.alive)
  {
    w := new World();
    for k := 0 to |script|
      invariant w.Valid() && w.Shows(After(script[..k]))
      invariant fresh(w) && fresh(w.options) && fresh(w.options.lib) && fresh(w.options.alive)
      invariant fresh(w.connections) && fresh(w.connections.lib) && fresh(w.connections.alive)
    {
      w.Step(script[k], After(script[..k]));
      assert script[..k + 1][..k] == script[..k];
    }
    assert script[..|script|] == script;
    forall k | 0 <= k < |w.connections.list| && w.connections.list[k] in w.connections.alive
      ensures Reports(w.connections.list[k]) <==> After(script).connections[k].reports
    {
      var o := w.connections.list[k];
      assert After(script).connections[k] == ValueOf(o);
      if o.isInit {
        ReportsConfiguration(o, w.connections.alive, w.contexts);
      }
    }
  }

  /**
   Over any program, once every object is destroyed no struct is live, each one ever initialised was cleaned up
   exactly once, and their numbers are those the program makes on plain values.
   */
  method RunToEnd(script: seq<Command>) returns (w: World)
    ensures w.options.lib.live == map[] && w.connections.lib.live == map[]
    ensures w.options.lib.next == After(script).optionsMade
    ensures w.connections.lib.next == After(script).connectionsMade
    ensures forall id: Id :: w.options.lib.cleaned[id] == if id < w.options.lib.next then 1 else 0
    ensures forall id: Id :: w.connections.lib.cleaned[id] == if id < w.connections.lib.next then 1 else 0
  {
    w := Run(script);
    w.Finish(After(script));
  }
}
