/**
 The in-memory configuration store and the control service as objects, one call at a time.
 Each method is tied to the protocol of ControlPlane.
 */
module ControlService {
  import opened MarketData
  import opened ControlPlane
  import opened Sequences

  class InMemoryTradingControlStore {
    var configuration: Option<Configuration>
    var audit: seq<Configuration>

    ghost function State(): Store
      reads this
    {
      Store(configuration, audit)
    }

    constructor ()
      ensures State() == Store(None, [])
    {
      configuration, audit := None, [];
    }

    method GetOrCreate(default: Configuration) returns (c: Configuration)
      modifies this
      ensures (State(), c) == ControlPlane.GetOrCreate(old(State()), default)
    {
      if configuration.None? {
        configuration := Some(default);
        audit := audit + [default];
      }
      c := configuration.value;
    }

    /** False where the store raises, because nothing is stored yet or the version differs. */
    method Update(c: Configuration, expectedVersion: int) returns (ok: bool)
      modifies this
      ensures ok == CompareAndSet(old(State()), c, expectedVersion).Some?
      ensures State() == if ok then CompareAndSet(old(State()), c, expectedVersion).value else old(State())
    {
      if configuration.None? || configuration.value.version != expectedVersion {
        return false;
      }
      configuration := Some(c);
      audit := audit + [c];
      ok := true;
    }

    method ListAudit(limit: int) returns (r: seq<Configuration>)
      ensures r == Reversed(LastSlice(State().audit, limit))
    {
      r := Reversed(LastSlice(audit, limit));
    }
  }

  /** The newest `limit` entries, newest first, with versions counting down without gaps. */
  lemma AuditListing(s: Store, limit: int)
    requires AuditSound(s) && limit > 0
    ensures var r := Reversed(LastSlice(s.audit, limit));
            && |r| == (if limit <= |s.audit| then limit else |s.audit|)
            && (forall k :: 0 <= k < |r| ==> r[k].version == |s.audit| - k)
            && (r != [] ==> s.current == Some(r[0]))
  {
    ListingAt(s.audit, limit);
  }

  class TradingControlService {
    const store: InMemoryTradingControlStore
    const default: Configuration
    var runtime: Option<Configuration>

    constructor (store: InMemoryTradingControlStore, default: Configuration)
      ensures this.store == store && this.default == default && runtime == None
    {
      this.store, this.default, runtime := store, default, None;
    }

    ghost function View(): System
      reads this, store
    {
      System(store.State(), [Service(Idle, runtime, default)], [])
    }

    /** The runtime coordinator's application of a configuration; `left` is its state when it raises. */
    method ApplyConfiguration(c: Configuration, ok: bool, left: Option<Configuration>)
      modifies this
      ensures runtime == if ok then Some(c) else left
    {
      runtime := if ok then Some(c) else left;
    }

    /** None where the store raises. */
    method UpdateConfiguration(u: Update, o: Outcome) returns (r: Option<Configuration>)
      modifies this, store
      ensures var t := Exec(old(View()), UpdateSteps(u, o));
              store.State() == t.store && runtime == t.services[0].runtime
      ensures r.Some? ==> store.State().current == r && runtime == r
      ensures r.Some? <==>
                Confirmed(old(ControlPlane.GetOrCreate(store.State(), default).1), u) && o.applied && o.fault.NoFault?
    {
      RunUpdateIsExec(View(), u, o);
      var current := store.GetOrCreate(default);
      RefusalIsTrue(current, u);
      var candidate := Candidate(u, current);
      if ValidateTransition(current, candidate, u).Some? {
        return None;
      }
      ApplyConfiguration(candidate, o.applied, o.left);
      if !o.applied {
        return None;
      }
      var committed := false;
      if !o.fault.BeforeCommit? {
        committed := store.Update(candidate, u.expectedVersion);
      }
      if committed && o.fault.NoFault? {
        return Some(candidate);
      }
      ApplyConfiguration(current, o.restored, o.leftAfter);
      r := None;
    }
  }
}
