/** The steps in the life of a uop, each of which keeps what holds of the table of uops. */
module UopSteps {
  import opened Wrappers
  import opened Uops

  /** Uops are issued. */
  function Issued(t: Table, infos: map<nat, Info>, clock: nat): Table {
    t.(info := t.info + infos, issued := t.issued + map u | u in infos :: clock)
  }

  /** A uop without a port is executed when it is issued. */
  function ExecutedAtIssue(t: Table, u: nat, clock: nat): Table {
    t.(executed := t.executed[u := clock])
  }

  /** A uop enters the scheduler. */
  function Bound(t: Table, u: nat, port: string): Table {
    t.(actualPort := t.actualPort[u := port])
  }

  function ReadyFrom(t: Table, u: nat, cycle: nat): Table {
    t.(readyForDispatch := t.readyForDispatch[u := cycle])
  }

  function Dispatched(t: Table, u: nat, clock: nat): Table {
    t.(dispatched := t.dispatched[u := clock])
  }

  function AddressReady(t: Table, e: nat, cycle: int): Table {
    t.(addressReady := t.addressReady[e := cycle])
  }

  function DataReady(t: Table, e: nat, cycle: int): Table {
    t.(dataReady := t.dataReady[e := cycle])
  }

  function Executed(t: Table, u: nat, cycle: int): Table {
    t.(executed := t.executed[u := cycle])
  }

  lemma ExtendsMore<K, V>(m: map<K, V>, k: K, v: V)
    requires k !in m
    ensures Extends(m, m[k := v])
  {}

  lemma ExtendsUnion<K, V>(m: map<K, V>, n: map<K, V>)
    requires m.Keys !! n.Keys
    ensures Extends(m, m + n)
  {}

  lemma SameExtends(t: Table, s: Table)
    ensures s.info == t.info ==> Extends(t.info, s.info)
    ensures s.issued == t.issued ==> Extends(t.issued, s.issued)
    ensures s.actualPort == t.actualPort ==> Extends(t.actualPort, s.actualPort)
    ensures s.readyForDispatch == t.readyForDispatch ==> Extends(t.readyForDispatch, s.readyForDispatch)
    ensures s.dispatched == t.dispatched ==> Extends(t.dispatched, s.dispatched)
    ensures s.executed == t.executed ==> Extends(t.executed, s.executed)
    ensures s.ready == t.ready ==> Extends(t.ready, s.ready)
  {}

  // Each part of what holds of the table looks at a few of its fields only

  lemma KeepsRegistered(t: Table, s: Table)
    requires Registered(t) && s.actualPort == t.actualPort && Extends(t.info, s.info) && Extends(t.issued, s.issued)
    ensures Registered(s)
  {}

  lemma KeepsLinked(t: Table, s: Table)
    requires Linked(t) && s.actualPort == t.actualPort && Extends(t.info, s.info)
    ensures Linked(s)
  {
    forall u | u in s.actualPort
      ensures u in s.info && LinkedUop(s, u)
    {
      assert LinkedUop(t, u);
    }
  }

  lemma KeepsReady(t: Table, s: Table, delay: nat)
    requires ReadyInTime(t, delay) && s.readyForDispatch == t.readyForDispatch && s.ready == t.ready
    requires Extends(t.info, s.info) && Extends(t.issued, s.issued)
    ensures ReadyInTime(s, delay)
  {
    hide AllSettled;
    forall u | u in s.readyForDispatch
      ensures CausalReady(s, delay, u)
    {
      assert CausalReady(t, delay, u);
      SettledLater(t, s, t.info[u].inputs, t.readyForDispatch[u]);
    }
  }

  lemma KeepsDispatched(t: Table, s: Table)
    requires DispatchedInTime(t) && s.dispatched == t.dispatched && Extends(t.readyForDispatch, s.readyForDispatch)
    ensures DispatchedInTime(s)
  {}

  lemma KeepsExecuted(t: Table, s: Table)
    requires ExecutedInTime(t) && s.ready == t.ready && Extends(t.info, s.info)
    requires Extends(t.dispatched, s.dispatched) && Extends(t.executed, s.executed)
    requires forall u :: u in s.dispatched && u in s.executed ==> u in t.dispatched && u in t.executed
    ensures ExecutedInTime(s)
  {
    hide AllSettled;
    forall u | u in s.dispatched && u in s.executed
      ensures CausalExecuted(s, u)
    {
      assert CausalExecuted(t, u);
      SettledLater(t, s, t.info[u].outputs, t.executed[u]);
    }
  }

  lemma KeepsRemembered(t: Table, s: Table)
    requires Remembered(t) && s.ready == t.ready && Extends(t.dispatched, s.dispatched)
    ensures Remembered(s)
  {}

  // The steps

  /** The uops to be issued are new. */
  ghost predicate New(t: Table, infos: map<nat, Info>) {
    infos.Keys !! t.info.Keys && infos.Keys !! t.issued.Keys && infos.Keys !! t.executed.Keys
  }

  lemma IssuedSound(t: Table, delay: nat, infos: map<nat, Info>, clock: nat)
    requires Sound(t, delay) && New(t, infos)
    ensures Sound(Issued(t, infos, clock), delay) && Later(t, Issued(t, infos, clock))
  {
    var s := Issued(t, infos, clock);
    hide Extends, Registered, Linked, ReadyInTime, DispatchedInTime, ExecutedInTime, Remembered;
    ExtendsUnion(t.info, infos);
    ExtendsUnion(t.issued, map u | u in infos :: clock);
    SameExtends(t, s);
    KeepsRegistered(t, s);
    KeepsLinked(t, s);
    KeepsReady(t, s, delay);
    KeepsDispatched(t, s);
    KeepsExecuted(t, s);
    KeepsRemembered(t, s);
  }

  lemma ExecutedAtIssueSound(t: Table, delay: nat, u: nat, clock: nat)
    requires Sound(t, delay) && u !in t.actualPort && u !in t.executed
    ensures Sound(ExecutedAtIssue(t, u, clock), delay) && Later(t, ExecutedAtIssue(t, u, clock))
  {
    var s := ExecutedAtIssue(t, u, clock);
    hide Extends, Registered, Linked, ReadyInTime, DispatchedInTime, ExecutedInTime, Remembered;
    ExtendsMore(t.executed, u, clock);
    SameExtends(t, s);
    KeepsRegistered(t, s);
    KeepsLinked(t, s);
    KeepsReady(t, s, delay);
    KeepsDispatched(t, s);
    KeepsExecuted(t, s);
    KeepsRemembered(t, s);
  }

  lemma BoundSound(t: Table, delay: nat, u: nat, port: string)
    requires Sound(t, delay) && u in t.info && u in t.issued && PortBound(t.info[u])
    requires port in t.info[u].possiblePorts && u !in t.actualPort && u !in t.executed && LinkedUop(t, u)
    ensures Sound(Bound(t, u, port), delay) && Later(t, Bound(t, u, port))
  {
    var s := Bound(t, u, port);
    BoundLinked(t, u, port);
    BoundRegistered(t, u, port);
    hide PortBound, Extends, Registered, Linked, ReadyInTime, DispatchedInTime, ExecutedInTime, Remembered, LinkedUop;
    ExtendsMore(t.actualPort, u, port);
    SameExtends(t, s);
    KeepsReady(t, s, delay);
    KeepsDispatched(t, s);
    KeepsExecuted(t, s);
    KeepsRemembered(t, s);
  }

  lemma BoundRegistered(t: Table, u: nat, port: string)
    requires Registered(t) && u in t.info && u in t.issued && PortBound(t.info[u])
    requires port in t.info[u].possiblePorts
    ensures Registered(Bound(t, u, port))
  {}

  lemma BoundLinked(t: Table, u: nat, port: string)
    requires Linked(t) && u in t.info && u !in t.actualPort && LinkedUop(t, u)
    ensures Linked(Bound(t, u, port))
  {
    var s := Bound(t, u, port);
    forall v | v in s.actualPort
      ensures v in s.info && LinkedUop(s, v)
    {
      assert LinkedUop(t, v);
    }
  }

  lemma ReadyFromSound(t: Table, delay: nat, u: nat, cycle: nat)
    requires Sound(t, delay) && u in t.actualPort && u !in t.readyForDispatch
    requires u in t.info && u in t.issued && t.issued[u] + delay <= cycle && AllSettled(t, t.info[u].inputs, cycle)
    ensures Sound(ReadyFrom(t, u, cycle), delay) && Later(t, ReadyFrom(t, u, cycle))
  {
    var s := ReadyFrom(t, u, cycle);
    hide Extends, Registered, Linked, ReadyInTime, DispatchedInTime, ExecutedInTime, Remembered, AllSettled;
    ExtendsMore(t.readyForDispatch, u, cycle);
    SameExtends(t, s);
    ReadyFromReady(t, delay, u, cycle);
    KeepsRegistered(t, s);
    KeepsLinked(t, s);
    KeepsDispatched(t, s);
    KeepsExecuted(t, s);
    KeepsRemembered(t, s);
  }

  lemma ReadyFromLater(t: Table, s: Table, u: nat, cycle: nat)
    requires Later(t, s) && u !in s.readyForDispatch
    ensures Later(t, ReadyFrom(s, u, cycle))
  {}

  lemma ReadyFromReady(t: Table, delay: nat, u: nat, cycle: nat)
    requires ReadyInTime(t, delay) && u in t.info && u in t.issued && t.issued[u] + delay <= cycle
    requires AllSettled(t, t.info[u].inputs, cycle)
    ensures ReadyInTime(ReadyFrom(t, u, cycle), delay)
  {
    hide AllSettled;
    var s := ReadyFrom(t, u, cycle);
    forall v | v in s.readyForDispatch
      ensures CausalReady(s, delay, v)
    {
      if v != u {
        assert CausalReady(t, delay, v);
      }
      SettledLater(t, s, t.info[v].inputs, s.readyForDispatch[v]);
    }
  }

  lemma DispatchedSound(t: Table, delay: nat, u: nat, clock: nat)
    requires Sound(t, delay) && u in t.readyForDispatch && t.readyForDispatch[u] <= clock
    requires u !in t.dispatched && u !in t.executed
    ensures Sound(Dispatched(t, u, clock), delay) && Later(t, Dispatched(t, u, clock))
  {
    var s := Dispatched(t, u, clock);
    DispatchedDispatched(t, u, clock);
    DispatchedPhased(t, u, clock);
    hide Phased, Extends, Registered, Linked, ReadyInTime, DispatchedInTime, ExecutedInTime, Remembered;
    ExtendsMore(t.dispatched, u, clock);
    SameExtends(t, s);
    KeepsRegistered(t, s);
    KeepsLinked(t, s);
    KeepsReady(t, s, delay);
    KeepsExecuted(t, s);
    KeepsRemembered(t, s);
  }

  lemma DispatchedPhased(t: Table, u: nat, clock: nat)
    requires Phased(t) && u in t.readyForDispatch && u !in t.executed
    ensures Phased(Dispatched(t, u, clock))
  {}

  lemma DispatchedDispatched(t: Table, u: nat, clock: nat)
    requires DispatchedInTime(t) && u in t.readyForDispatch && t.readyForDispatch[u] <= clock
    ensures DispatchedInTime(Dispatched(t, u, clock))
  {}

  /** Only what is known of store buffer entries changes. */
  lemma EntrySound(t: Table, s: Table, delay: nat)
    requires Sound(t, delay) && s == t.(addressReady := s.addressReady, dataReady := s.dataReady)
    requires t.addressReady.Keys <= s.addressReady.Keys && t.dataReady.Keys <= s.dataReady.Keys
    ensures Sound(s, delay) && Later(t, s)
  {
    hide Extends, Registered, Linked, ReadyInTime, DispatchedInTime, ExecutedInTime, Remembered;
    SameExtends(t, s);
    KeepsRegistered(t, s);
    KeepsLinked(t, s);
    KeepsReady(t, s, delay);
    KeepsDispatched(t, s);
    KeepsExecuted(t, s);
    KeepsRemembered(t, s);
  }

  lemma ExecutedSound(t: Table, delay: nat, u: nat, cycle: int)
    requires Sound(t, delay) && u in t.dispatched && u in t.info && u !in t.executed
    requires t.dispatched[u] + 2 <= cycle && AllSettled(t, t.info[u].outputs, cycle)
    ensures Sound(Executed(t, u, cycle), delay) && Later(t, Executed(t, u, cycle))
  {
    var s := Executed(t, u, cycle);
    hide Extends, Registered, Linked, ReadyInTime, DispatchedInTime, ExecutedInTime, Remembered, AllSettled;
    ExtendsMore(t.executed, u, cycle);
    SameExtends(t, s);
    ExecutedExecuted(t, u, cycle);
    KeepsRegistered(t, s);
    KeepsLinked(t, s);
    KeepsReady(t, s, delay);
    KeepsDispatched(t, s);
    KeepsRemembered(t, s);
  }

  lemma ExecutedExecuted(t: Table, u: nat, cycle: int)
    requires ExecutedInTime(t) && u in t.dispatched && u in t.info
    requires t.dispatched[u] + 2 <= cycle && AllSettled(t, t.info[u].outputs, cycle)
    ensures ExecutedInTime(Executed(t, u, cycle))
  {
    hide AllSettled;
    var s := Executed(t, u, cycle);
    forall v | v in s.dispatched && v in s.executed
      ensures CausalExecuted(s, v)
    {
      if v != u {
        assert CausalExecuted(t, v);
      }
      SettledLater(t, s, t.info[v].outputs, s.executed[v]);
    }
  }
}
