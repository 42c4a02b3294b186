/**
 * The worker registry: every consumer process that has sent a heartbeat, keyed
 * by its worker id, with its last heartbeat time, its lifecycle state and the
 * connections it holds open. Time is an integer clock passed in by the caller.
 */
module Workers {
  import opened Connections

  /** A worker's lifecycle: running -> quiet -> terminate, never backward. */
  datatype WorkerState = Running | Quiet | Terminate

  /** Position of a state in the lifecycle order. */
  function Rank(s: WorkerState): nat {
    match s
    case Running => 0
    case Quiet => 1
    case Terminate => 2
  }

  /**
   * The transition table of Signal: from Running any request is taken; from
   * Quiet only Terminate is; Terminate ignores everything.
   */
  function NextState(current: WorkerState, requested: WorkerState): (next: WorkerState)
    ensures Rank(current) <= Rank(next)
    ensures next == current || next == requested
    ensures Rank(current) < Rank(requested) ==> next == requested
    ensures current == Terminate ==> next == Terminate
  {
    match (current, requested)
    case (Running, _) => requested
    case (Quiet, Terminate) => Terminate
    case (Quiet, _) => Quiet
    case (Terminate, _) => Terminate
  }

  /** The state after a worker receives the given signals in order. */
  function AfterSignals(s: WorkerState, signals: seq<WorkerState>): WorkerState
    decreases |signals|
  {
    if signals == [] then s else AfterSignals(NextState(s, signals[0]), signals[1..])
  }

  /** The name the state is reported under; a running worker has none. */
  function StateString(s: WorkerState): (r: string)
    ensures (r == "") == (s == Running)
  {
    match s
    case Quiet => "quiet"
    case Terminate => "terminate"
    case Running => ""
  }

  lemma {:induction false} SignalsNeverMoveBack(s: WorkerState, signals: seq<WorkerState>)
    ensures Rank(s) <= Rank(AfterSignals(s, signals))
    decreases |signals|
  {
    if signals != [] {
      SignalsNeverMoveBack(NextState(s, signals[0]), signals[1..]);
    }
  }

  /** Once a worker is quiet or terminating, no later signal makes it run again. */
  lemma {:induction false} QuietIsPermanent(s: WorkerState, signals: seq<WorkerState>)
    requires s != Running
    ensures AfterSignals(s, signals) != Running
  {
    SignalsNeverMoveBack(s, signals);
  }

  lemma {:induction false} TerminateIsAbsorbing(signals: seq<WorkerState>)
    ensures AfterSignals(Terminate, signals) == Terminate
    decreases |signals|
  {
    if signals != [] {
      TerminateIsAbsorbing(signals[1..]);
    }
  }

  /** A client process, as announced in its HELLO, plus the registry's bookkeeping. */
  class ClientData {
    const hostname: string
    const wid: string
    const pid: int
    const labels: seq<string>
    var startedAt: int
    var lastHeartbeat: int
    var state: WorkerState
    var connections: set<Connection>

    constructor (hostname: string, wid: string, pid: int, labels: seq<string>)
      ensures this.hostname == hostname && this.wid == wid && this.pid == pid && this.labels == labels
      ensures startedAt == 0 && lastHeartbeat == 0 && state == Running && connections == {}
    {
      this.hostname := hostname;
      this.wid := wid;
      this.pid := pid;
      this.labels := labels;
      startedAt := 0;
      lastHeartbeat := 0;
      state := Running;
      connections := {};
    }

    /** A worker is quiet once it has reached Quiet in the lifecycle order. */
    predicate IsQuiet()
      reads this
      ensures IsQuiet() == (Rank(state) >= Rank(Quiet))
    {
      state != Running
    }

    /** Only a client that announced a worker id consumes jobs. */
    predicate IsConsumer()
      ensures IsConsumer() == (|wid| > 0)
    {
      wid != ""
    }

    method Signal(requested: WorkerState)
      modifies this`state
      ensures state == NextState(old(state), requested)
    {
      if state == Running {
        state := requested;
        return;
      }
      if state == Quiet && requested == Terminate {
        state := requested;
        return;
      }
    }
  }

  predicate Distinct<T(==)>(s: seq<T>) {
    forall i, j :: 0 <= i < j < |s| ==> s[i] != s[j]
  }

  function Elements<T>(s: seq<T>): set<T> {
    set x | x in s
  }

  lemma {:induction false} DistinctCardinality<T>(s: seq<T>)
    requires Distinct(s)
    ensures |Elements(s)| == |s|
  {
    if s != [] {
      var init, last := s[..|s| - 1], s[|s| - 1];
      DistinctCardinality(init);
      assert Elements(s) == Elements(init) + {last};
      assert last !in Elements(init);
    }
  }

  lemma DistinctConcat<T>(a: seq<T>, b: seq<T>)
    requires Distinct(a) && Distinct(b)
    requires forall x :: x in a ==> x !in b
    ensures Distinct(a + b)
  {
    forall i, j | 0 <= i < j < |a + b|
      ensures (a + b)[i] != (a + b)[j]
    {
      if j >= |a| && i < |a| {
        assert (a + b)[i] in a && (a + b)[j] in b;
      }
    }
  }

  /** The close requests for one worker's connections: each connection once. */
  method CloseRequests(wid: string, connections: set<Connection>) returns (log: seq<(string, Connection)>)
    ensures forall p :: p in log <==> p.0 == wid && p.1 in connections
    ensures Distinct(log)
  {
    log := [];
    var remaining := connections;
    while remaining != {}
      invariant remaining <= connections
      invariant forall p :: p in log <==> p.0 == wid && p.1 in connections - remaining
      invariant Distinct(log)
      decreases remaining
    {
      var c :| c in remaining;
      log := log + [(wid, c)];
      remaining := remaining - {c};
    }
  }

  /** The registry of live workers (the server's `workers` table). */
  class Registry {
    var heartbeats: map<string, ClientData>

    /** Every record is filed under its own worker id, so distinct ids hold distinct records. */
    ghost predicate Valid()
      reads this
    {
      forall wid :: wid in heartbeats ==> heartbeats[wid].wid == wid
    }

    constructor ()
      ensures Valid() && heartbeats == map[]
    {
      heartbeats := map[];
    }

    /** The workers whose last heartbeat is strictly before the cutoff. */
    ghost function StaleWids(cutoff: int): set<string>
      reads this, heartbeats.Values
    {
      set wid | wid in heartbeats && heartbeats[wid].lastHeartbeat < cutoff
    }

    /** The number of registered workers. */
    function Count(): (n: nat)
      reads this
      ensures n == |heartbeats.Keys|
    {
      |heartbeats|
    }

    /**
     * A heartbeat from a known worker refreshes its record and returns that
     * stored record; one from an unknown worker registers it when it came over
     * a connection, and is refused otherwise.
     */
    method Heartbeat(client: ClientData, cls: Connection?, now: int) returns (entry: ClientData?, ok: bool)
      requires Valid()
      modifies this, if client.wid in heartbeats then {heartbeats[client.wid]} else {client}
      ensures Valid()
      ensures ok == (client.wid in old(heartbeats) || cls != null)
      ensures ok ==> entry != null && heartbeats == old(heartbeats)[client.wid := entry]
      ensures client.wid in old(heartbeats) ==>
        && entry == old(heartbeats[client.wid])
        && entry.lastHeartbeat == now
        && entry.startedAt == old(entry.startedAt)
        && entry.state == old(entry.state)
        && entry.connections == old(entry.connections)
      ensures client.wid !in old(heartbeats) && cls != null ==>
        && entry == client
        && client.startedAt == now && client.lastHeartbeat == now
        && client.state == old(client.state)
        && client.connections == {cls}
        && Count() == old(Count()) + 1
      ensures !ok ==> entry == null && heartbeats == old(heartbeats) && unchanged(client)
    {
      if client.wid in heartbeats {
        entry := heartbeats[client.wid];
        entry.lastHeartbeat := now;
        ok := true;
      } else if cls != null {
        client.startedAt := now;
        client.lastHeartbeat := now;
        client.connections := {};
        heartbeats := heartbeats[client.wid := client];
        entry := client;
        entry.connections := entry.connections + {cls};
        ok := true;
      } else {
        entry := null;
        ok := false;
      }
    }

    /** Detaches one connection from its worker's record; the record itself stays. */
    method RemoveConnection(c: Connection)
      requires Valid()
      modifies if c.clientWid in heartbeats then {heartbeats[c.clientWid]} else {}
      ensures Valid() && heartbeats == old(heartbeats)
      ensures c.clientWid in heartbeats ==>
        && heartbeats[c.clientWid].connections == old(heartbeats[c.clientWid].connections) - {c}
        && heartbeats[c.clientWid].lastHeartbeat == old(heartbeats[c.clientWid].lastHeartbeat)
        && heartbeats[c.clientWid].state == old(heartbeats[c.clientWid].state)
        && heartbeats[c.clientWid].startedAt == old(heartbeats[c.clientWid].startedAt)
    {
      if c.clientWid in heartbeats {
        var cd := heartbeats[c.clientWid];
        cd.connections := cd.connections - {c};
      }
    }

    /**
     * Deletes every worker whose last heartbeat is before the cutoff and
     * reports each (worker, connection) pair of the deleted records to be closed,
     * each exactly once. Returns how many workers were deleted.
     */
    method ReapHeartbeats(cutoff: int) returns (count: nat, closed: seq<(string, Connection)>)
      requires Valid()
      modifies this
      ensures Valid()
      ensures heartbeats == old(heartbeats) - old(StaleWids(cutoff))
      ensures count == |old(StaleWids(cutoff))| == old(Count()) - Count()
      ensures forall p :: p in closed <==> p.0 in old(StaleWids(cutoff)) && p.1 in old(heartbeats)[p.0].connections
      ensures Distinct(closed)
    {
      ghost var before := heartbeats;
      var toDelete := StaleList(cutoff);
      DistinctCardinality(toDelete);
      count := |toDelete|;

      closed := [];
      var i := 0;
      while i < |toDelete|
        invariant 0 <= i <= |toDelete|
        invariant heartbeats == before - Elements(toDelete[..i])
        invariant forall p :: p in closed <==> p.0 in Elements(toDelete[..i]) && p.0 in before && p.1 in before[p.0].connections
        invariant Distinct(closed)
      {
        var wid := toDelete[i];
        assert wid in Elements(toDelete) && wid !in Elements(toDelete[..i]);
        var log := CloseRequests(wid, heartbeats[wid].connections);
        DistinctConcat(closed, log);
        closed := closed + log;
        heartbeats := heartbeats - {wid};
        assert Elements(toDelete[..i + 1]) == Elements(toDelete[..i]) + {wid};
        i := i + 1;
      }
      assert toDelete[..i] == toDelete;
    }

    /** The ids of the stale workers, each once. */
    method StaleList(cutoff: int) returns (toDelete: seq<string>)
      ensures Distinct(toDelete)
      ensures Elements(toDelete) == StaleWids(cutoff)
    {
      toDelete := [];
      var pending := heartbeats.Keys;
      while pending != {}
        invariant pending <= heartbeats.Keys
        invariant forall wid :: wid in toDelete <==> wid in heartbeats && wid !in pending && heartbeats[wid].lastHeartbeat < cutoff
        invariant Distinct(toDelete)
        decreases pending
      {
        var wid :| wid in pending;
        if heartbeats[wid].lastHeartbeat < cutoff {
          toDelete := toDelete + [wid];
        }
        pending := pending - {wid};
      }
    }
  }
}
