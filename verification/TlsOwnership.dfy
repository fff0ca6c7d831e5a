/**
 Ownership of the native TLS option structs (source/io/TlsOptions.cpp). A C++ object holds a native
 struct by value and remembers in `m_isInit` whether it must clean it up. Copies, moves and assignments
 between any number of objects must leave every native struct with exactly one owner. Beside the struct
 each object keeps what it was configured with, for the metrics.

 A native struct is an identity in a ledger together with the configuration the native library holds
 for it. Whether a native call succeeds is an input.
 */
module TlsOwnership {
  import opened Options
  import opened TlsInfo

  type Id = nat

  /** The configuration the native library reads from a zeroed struct; zero is the first version it knows. */
  const ZEROED_INFO := Info(NoCertificate, SSLv3, 0)

  /** The native structs of one type: which are live and how configured, and how often each was cleaned up. */
  class Ledger {
    var live: map<Id, Info>
    var cleaned: multiset<Id>
    var next: Id

    /** Every struct ever initialised is live or has been cleaned up exactly once. */
    ghost predicate Counted()
      reads this
    {
      && (forall id :: id in live ==> id < next)
      && (forall id: Id :: cleaned[id] == if id < next && id !in live then 1 else 0)
    }

    constructor ()
      ensures Counted() && live == map[] && next == 0
    {
      live, cleaned, next := map[], multiset{}, 0;
    }

    method Initialise(info: Info) returns (id: Id)
      requires Counted()
      modifies this
      ensures Counted() && id == old(next) && next == old(next) + 1 && live == old(live)[id := info]
    {
      id := next;
      live := live[id := info];
      next := next + 1;
    }

    /** Cleaning up asks for a live struct, so a caller that could do it twice does not verify. */
    method CleanUp(id: Id)
      requires Counted() && id in live
      modifies this
      ensures Counted() && next == old(next) && live == old(live) - {id}
    {
      live := live - {id};
      cleaned := cleaned + multiset{id};
    }

    method Configure(id: Id, info: Info)
      requires Counted() && id in live
      modifies this
      ensures Counted() && next == old(next) && live == old(live)[id := info]
    {
      live := live[id := info];
    }
  }

  // ---------- Context options ----------

  class ContextOptions {
    const lib: Ledger
    var isInit: bool          // m_isInit
    var struct: Option<Id>    // m_options; None when zeroed
    var info: Info            // the three m_metrics fields

    ghost predicate Sound()
      reads this, lib
    {
      if isInit then
        struct.Some? && struct.value in lib.live && lib.live[struct.value] == info
      else
        struct.None? && info == DEFAULT_INFO
    }

    /** Any of the `Init` functions: `ok` is whether the native call succeeds. */
    constructor Init(lib: Ledger, certificate: CertificateSource, ok: bool, ghost objs: set<ContextOptions>)
      requires OwnedContexts(lib, objs)
      modifies lib
      ensures fresh(this) && this.lib == lib && OwnedContexts(lib, objs + {this})
      ensures isInit == ok && info == if ok then DEFAULT_INFO.(certificate := certificate) else DEFAULT_INFO
      ensures lib.next == old(lib.next) + if ok then 1 else 0
    {
      this.lib := lib;
      isInit, struct, info := false, None, DEFAULT_INFO;
      new;
      if ok {
        var id := lib.Initialise(DEFAULT_INFO.(certificate := certificate));
        struct := Some(id);
        info := info.(certificate := certificate);
        isInit := true;
      }
    }

    /** The move constructor. */
    constructor MovedFrom(other: ContextOptions, ghost objs: set<ContextOptions>)
      requires OwnedContexts(other.lib, objs) && other in objs
      modifies other
      ensures fresh(this) && this.lib == other.lib && OwnedContexts(lib, objs + {this})
      ensures isInit == old(other.isInit) && struct == old(other.struct) && info == old(other.info)
      ensures !other.isInit && other.info == DEFAULT_INFO
    {
      lib := other.lib;
      struct, info, isInit := other.struct, other.info, other.isInit;
      new;
      other.struct, other.info, other.isInit := None, DEFAULT_INFO, false;
    }

    /**
     The first step of an assignment: clean up the struct the object owns, if any. The source writes the new
     values over the old ones at once; forgetting the old ones here makes no difference to the result.
     */
    method Reset(ghost objs: set<ContextOptions>)
      requires OwnedContexts(lib, objs) && this in objs
      modifies this, lib
      ensures OwnedContexts(lib, objs) && lib.next == old(lib.next)
      ensures !isInit && info == DEFAULT_INFO
    {
      if isInit {
        lib.CleanUp(struct.value);
      }
      isInit, struct, info := false, None, DEFAULT_INFO;
    }

    /** The last step of a move: take over what a valid object owns. */
    method TakeFrom(other: ContextOptions, ghost objs: set<ContextOptions>)
      requires OwnedContexts(lib, objs) && this in objs && other in objs && this != other && !isInit
      modifies this, other
      ensures OwnedContexts(lib, objs)
      ensures isInit == old(other.isInit) && struct == old(other.struct) && info == old(other.info)
      ensures !other.isInit && other.info == DEFAULT_INFO
    {
      struct, info, isInit := other.struct, other.info, other.isInit;
      other.struct, other.info, other.isInit := None, DEFAULT_INFO, false;
    }

    /** Move assignment. */
    method MoveAssign(other: ContextOptions, ghost objs: set<ContextOptions>)
      requires OwnedContexts(lib, objs) && this in objs && other in objs
      modifies this, other, lib
      ensures OwnedContexts(lib, objs) && lib.next == old(lib.next)
      ensures isInit == old(other.isInit) && struct == old(other.struct) && info == old(other.info)
      ensures other != this ==> !other.isInit && other.info == DEFAULT_INFO
    {
      if other != this {
        Reset(objs);
        TakeFrom(other, objs);
      }
    }

    method SetMinimumTlsVersion(version: TlsVersion, ghost objs: set<ContextOptions>)
      requires OwnedContexts(lib, objs) && this in objs && isInit
      modifies this, lib
      ensures OwnedContexts(lib, objs) && lib.next == old(lib.next)
      ensures isInit && struct == old(struct) && info == old(info).(version := version)
    {
      lib.Configure(struct.value, lib.live[struct.value].(version := version));
      info := info.(version := version);
    }

    method SetTlsCipherPreference(cipher: CipherPref, ghost objs: set<ContextOptions>)
      requires OwnedContexts(lib, objs) && this in objs && isInit
      modifies this, lib
      ensures OwnedContexts(lib, objs) && lib.next == old(lib.next)
      ensures isInit && struct == old(struct) && info == old(info).(cipher := cipher)
    {
      lib.Configure(struct.value, lib.live[struct.value].(cipher := cipher));
      info := info.(cipher := cipher);
    }

    /** The destructor. The object may not be used afterwards, so it leaves the set of objects. */
    method Destroy(ghost objs: set<ContextOptions>)
      requires OwnedContexts(lib, objs) && this in objs
      modifies lib
      ensures OwnedContexts(lib, objs - {this}) && lib.next == old(lib.next)
    {
      if isInit {
        lib.CleanUp(struct.value);
      }
    }
  }

  /** The live structs and the valid objects among `objs` correspond one to one. */
  ghost predicate OwnedContexts(lib: Ledger, objs: set<ContextOptions>)
    reads lib, objs
  {
    && lib.Counted()
    && (forall o :: o in objs ==> o.lib == lib && o.Sound())
    && (forall o, o' :: o in objs && o' in objs && o.isInit && o'.isInit && o != o' ==> o.struct != o'.struct)
    && (forall id :: id in lib.live ==> exists o :: o in objs && o.isInit && o.struct == Some(id))
  }

  // ---------- Contexts ----------

  /**
   A context: its native configuration when it could be created (m_ctx), its three metrics fields, and for the
   record whether the options it was built from were valid then.
   */
  datatype Context = Context(native: Option<Info>, info: Info, fromValid: bool)
  {
    /** It reports its native configuration exactly if it was built from valid options. */
    predicate Sound() {
      native.Some? ==> (native.value == info <==> fromValid)
    }
  }

  /**
   The constructor reads the native struct; `created` is whether the native library makes a context of it.
   Options that are not valid, whether `Init` failed or they were moved from, have a zeroed struct.
   */
  method NewContext(options: ContextOptions, created: bool, ghost objs: set<ContextOptions>) returns (c: Context)
    requires OwnedContexts(options.lib, objs) && options in objs
    ensures c.Sound() && c.native.Some? == created && c.info == options.info && c.fromValid == options.isInit
    ensures created ==> (c.native.value == c.info <==> options.isInit)
    ensures created ==> c.native.value == if options.isInit then options.info else ZEROED_INFO
  {
    var native := if options.struct.Some? then options.lib.live[options.struct.value] else ZEROED_INFO;
    c := Context(if created then Some(native) else None, options.info, options.isInit);
  }

  // ---------- Connection options ----------

  class ConnectionOptions {
    const lib: Ledger
    var isInit: bool          // m_isInit
    var struct: Option<Id>    // m_tls_connection_options; None when zeroed
    var info: Info            // the three m_metrics fields
    var fromValid: bool       // for the record: the context was built from valid options

    /** A valid object owns a live struct configured by one of the contexts, and reports what that one reports. */
    ghost predicate Sound(contexts: seq<Context>)
      reads this, lib
    {
      isInit ==>
        && struct.Some? && struct.value in lib.live
        && Context(Some(lib.live[struct.value]), info, fromValid) in contexts
    }

    /** The default constructor. */
    constructor (lib: Ledger, ghost objs: set<ConnectionOptions>, ghost contexts: seq<Context>)
      requires Owned(lib, objs, contexts)
      ensures fresh(this) && this.lib == lib && Owned(lib, objs + {this}, contexts)
      ensures !isInit && info == DEFAULT_INFO
    {
      this.lib := lib;
      isInit, struct, info, fromValid := false, None, DEFAULT_INFO, false;
    }

    /** The constructor on a native context. */
    constructor FromContext(lib: Ledger, c: Context, ghost objs: set<ConnectionOptions>, ghost contexts: seq<Context>)
      requires Owned(lib, objs, contexts) && c in contexts && c.native.Some?
      modifies lib
      ensures fresh(this) && this.lib == lib && Owned(lib, objs + {this}, contexts)
      ensures isInit && info == c.info && fromValid == c.fromValid && struct == Some(old(lib.next))
      ensures lib.next == old(lib.next) + 1 && lib.live == old(lib.live)[old(lib.next) := c.native.value]
    {
      this.lib := lib;
      isInit, struct, info, fromValid := true, None, c.info, c.fromValid;
      new;
      var id := lib.Initialise(c.native.value);
      struct := Some(id);
    }

    /** The copy constructor; `copied` is whether the native copy succeeds. */
    constructor CopyOf(other: ConnectionOptions, copied: bool, ghost objs: set<ConnectionOptions>,
                       ghost contexts: seq<Context>)
      requires Owned(other.lib, objs, contexts) && other in objs
      modifies other.lib
      ensures fresh(this) && this.lib == other.lib && Owned(lib, objs + {this}, contexts)
      ensures isInit == (other.isInit && copied)
      ensures info == if other.isInit then other.info else DEFAULT_INFO
      ensures isInit ==> SameConfiguration(this, other) && fromValid == other.fromValid
      ensures lib.next == old(other.lib.next) + if isInit then 1 else 0
    {
      lib := other.lib;
      isInit, struct, info, fromValid := false, None, DEFAULT_INFO, false;
      new;
      CopyFrom(other, copied, objs + {this}, contexts);
    }

    /** The move constructor. A source that is not valid is left alone. */
    constructor MovedFrom(other: ConnectionOptions, ghost objs: set<ConnectionOptions>, ghost contexts: seq<Context>)
      requires Owned(other.lib, objs, contexts) && other in objs
      modifies other
      ensures fresh(this) && this.lib == other.lib && Owned(lib, objs + {this}, contexts)
      ensures isInit == old(other.isInit) && info == old(other.info)
      ensures isInit ==> struct == old(other.struct) && fromValid == old(other.fromValid)
      ensures !other.isInit && other.info == if isInit then DEFAULT_INFO else old(other.info)
    {
      lib := other.lib;
      isInit, struct, info, fromValid := other.isInit, None, other.info, other.fromValid;
      new;
      if other.isInit {
        struct := other.struct;
        other.struct, other.isInit, other.info := None, false, DEFAULT_INFO;
      }
    }

    /** The first step of an assignment: clean up the struct the object owns, if any, without zeroing it. */
    method Reset(ghost objs: set<ConnectionOptions>, ghost contexts: seq<Context>)
      requires Owned(lib, objs, contexts) && this in objs
      modifies this, lib
      ensures Owned(lib, objs, contexts) && lib.next == old(lib.next)
      ensures !isInit && info == DEFAULT_INFO
    {
      if isInit {
        lib.CleanUp(struct.value);
      }
      isInit, info := false, DEFAULT_INFO;
    }

    /** The last step of a move: take over what a valid object owns. */
    method TakeFrom(other: ConnectionOptions, ghost objs: set<ConnectionOptions>, ghost contexts: seq<Context>)
      requires Owned(lib, objs, contexts) && this in objs && other in objs && this != other && !isInit && other.isInit
      modifies this, other
      ensures Owned(lib, objs, contexts)
      ensures isInit == old(other.isInit) && struct == old(other.struct) && info == old(other.info)
      ensures !other.isInit && other.info == DEFAULT_INFO && fromValid == old(other.fromValid)
    {
      struct, info, isInit, fromValid := other.struct, other.info, other.isInit, other.fromValid;
      other.struct, other.info, other.isInit := None, DEFAULT_INFO, false;
    }

    /** The last step of a copy: `copied` is whether the native copy succeeds. */
    method CopyFrom(other: ConnectionOptions, copied: bool, ghost objs: set<ConnectionOptions>,
                    ghost contexts: seq<Context>)
      requires Owned(lib, objs, contexts) && this in objs && other in objs && this != other
      requires !isInit && info == DEFAULT_INFO
      modifies this, lib
      ensures Owned(lib, objs, contexts)
      ensures isInit == (other.isInit && copied)
      ensures info == if other.isInit then other.info else DEFAULT_INFO
      ensures isInit ==> SameConfiguration(this, other) && fromValid == other.fromValid
      ensures lib.next == old(lib.next) + if isInit then 1 else 0
    {
      if other.isInit {
        info, fromValid := other.info, other.fromValid;
        if copied {
          OwnCopy(other, objs, contexts);
        }
      }
    }

    /** A native copy that succeeds. */
    method OwnCopy(other: ConnectionOptions, ghost objs: set<ConnectionOptions>, ghost contexts: seq<Context>)
      requires Owned(lib, objs, contexts) && this in objs && other in objs && other.isInit
      requires !isInit && info == other.info && fromValid == other.fromValid
      modifies `isInit, `struct, lib
      ensures Owned(lib, objs, contexts) && isInit && SameConfiguration(this, other)
      ensures lib.next == old(lib.next) + 1
    {
      var id := lib.Initialise(lib.live[other.struct.value]);
      isInit, struct := true, Some(id);
    }

    /** Copy assignment. */
    method CopyAssign(other: ConnectionOptions, copied: bool, ghost objs: set<ConnectionOptions>,
                      ghost contexts: seq<Context>)
      requires Owned(lib, objs, contexts) && this in objs && other in objs
      modifies this, lib
      ensures Owned(lib, objs, contexts)
      ensures this == other ==> unchanged(this) && unchanged(lib)
      ensures this != other ==> isInit == (other.isInit && copied)
      ensures this != other ==> info == if other.isInit then other.info else DEFAULT_INFO
      ensures isInit && other.isInit ==> SameConfiguration(this, other) && fromValid == other.fromValid
      ensures lib.next == old(lib.next) + if isInit && this != other then 1 else 0
    {
      if this != other {
        Reset(objs, contexts);
        struct := None;
        CopyFrom(other, copied, objs, contexts);
      }
    }

    /** Move assignment. The native struct of the target is not zeroed when the source is not valid. */
    method MoveAssign(other: ConnectionOptions, ghost objs: set<ConnectionOptions>, ghost contexts: seq<Context>)
      requires Owned(lib, objs, contexts) && this in objs && other in objs
      modifies this, other, lib
      ensures Owned(lib, objs, contexts) && lib.next == old(lib.next)
      ensures this == other ==> unchanged(this) && unchanged(lib)
      ensures this != other ==> isInit == old(other.isInit) && !other.isInit
      ensures this != other && isInit ==> struct == old(other.struct) && info == old(other.info)
      ensures this != other && isInit ==> fromValid == old(other.fromValid)
      ensures this != other && !isInit ==> info == DEFAULT_INFO && other.info == old(other.info)
      ensures this != other && isInit ==> other.info == DEFAULT_INFO
    {
      if this != other {
        Reset(objs, contexts);
        if other.isInit {
          TakeFrom(other, objs, contexts);
        }
      }
    }

    /** The destructor. The object may not be used afterwards, so it leaves the set of objects. */
    method Destroy(ghost objs: set<ConnectionOptions>, ghost contexts: seq<Context>)
      requires Owned(lib, objs, contexts) && this in objs
      modifies this, lib
      ensures Owned(lib, objs - {this}, contexts) && lib.next == old(lib.next)
    {
      if isInit {
        lib.CleanUp(struct.value);
        isInit := false;
      }
    }
  }

  /** Two valid objects own different structs that are configured alike. */
  ghost predicate SameConfiguration(a: ConnectionOptions, b: ConnectionOptions)
    reads a, b, a.lib, b.lib
  {
    && a.struct.Some? && a.struct.value in a.lib.live
    && b.struct.Some? && b.struct.value in b.lib.live
    && a.lib.live[a.struct.value] == b.lib.live[b.struct.value]
    && (a != b ==> a.struct != b.struct)
  }

  /** The live structs and the valid objects among `objs` correspond one to one. */
  ghost predicate Owned(lib: Ledger, objs: set<ConnectionOptions>, contexts: seq<Context>)
    reads lib, objs
  {
    && lib.Counted()
    && (forall o :: o in objs ==> o.lib == lib && o.Sound(contexts))
    && (forall o, o' :: o in objs && o' in objs && o.isInit && o'.isInit && o != o' ==> o.struct != o'.struct)
    && (forall id :: id in lib.live ==> exists o :: o in objs && o.isInit && o.struct == Some(id))
  }

  /** `TlsContext::NewConnectionOptions`: a context that could not be created gives default options. */
  method NewConnectionOptions(c: Context, lib: Ledger, ghost objs: set<ConnectionOptions>, ghost contexts: seq<Context>)
    returns (o: ConnectionOptions)
    requires c in contexts && Owned(lib, objs, contexts)
    modifies lib
    ensures fresh(o) && o.lib == lib && Owned(lib, objs + {o}, contexts)
    ensures o.isInit == c.native.Some? && o.info == (if o.isInit then c.info else DEFAULT_INFO)
    ensures o.isInit ==> o.fromValid == c.fromValid
    ensures lib.next == old(lib.next) + if o.isInit then 1 else 0
    ensures o.isInit ==> o.struct.Some? && o.struct.value in lib.live && lib.live[o.struct.value] == c.native.value
  {
    if c.native.None? {
      o := new ConnectionOptions(lib, objs, contexts);
    } else {
      o := new ConnectionOptions.FromContext(lib, c, objs, contexts);
    }
  }

  /** A valid object reports how the struct it owns is configured, exactly if its context came from valid options. */
  lemma ReportsConfiguration(o: ConnectionOptions, objs: set<ConnectionOptions>, contexts: seq<Context>)
    requires Owned(o.lib, objs, contexts) && o in objs && o.isInit
    requires forall c :: c in contexts ==> c.Sound()
    ensures o.lib.live[o.struct.value] == o.info <==> o.fromValid
  {
    assert Context(Some(o.lib.live[o.struct.value]), o.info, o.fromValid).Sound();
  }

  /** Options that were moved from give a valid object that does not report how its struct is configured. */
  method MovedFromOptionsMisreport(certificate: CertificateSource) returns (o: ConnectionOptions)
    ensures o.isInit && !o.fromValid && o.struct.Some? && o.struct.value in o.lib.live
    ensures o.lib.live[o.struct.value] != o.info
  {
    var contextLib := new Ledger();
    var connectionLib := new Ledger();
    var options := new ContextOptions.Init(contextLib, certificate, true, {});
    var moved := new ContextOptions.MovedFrom(options, {} + {options});
    var c := NewContext(options, true, {} + {options} + {moved});
    o := NewConnectionOptions(c, connectionLib, {}, [c]);
  }
}
