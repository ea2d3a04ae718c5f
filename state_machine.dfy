/** The connection lifecycle of `DeviceClient` (azure_iot_device/device_client.py):
    four states and the four transitions of its `transitions.Machine`,
    written out as an explicit table. */
module ConnectionStateMachine {
  import opened Text

  datatype State = Disconnected | Connecting | Connected | Disconnecting

  datatype Trigger = Connect | OnConnect | Disconnect | OnDisconnect

  datatype Edge = Edge(trigger: Trigger, source: State, dest: State)

  const Initial: State := Disconnected

  /** The `transitions` list given to the machine. */
  const Table: seq<Edge> := [
    Edge(Connect, Disconnected, Connecting),
    Edge(OnConnect, Connecting, Connected),
    Edge(Disconnect, Connected, Disconnecting),
    Edge(OnDisconnect, Disconnecting, Disconnected)
  ]

  /** The names the machine reports, as in its `states` list. */
  function StateName(s: State): Str
  {
    match s
    case Disconnected => "disconnected"
    case Connecting => "connecting"
    case Connected => "connected"
    case Disconnecting => "disconnecting"
  }

  /** The destination of the first edge of `edges` that `t` can take from `s`. */
  function Lookup(edges: seq<Edge>, t: Trigger, s: State): (r: Option<State>)
    ensures r.Some? <==> exists i :: 0 <= i < |edges| && edges[i].trigger == t && edges[i].source == s
    ensures r.Some? ==> Edge(t, s, r.value) in edges
  {
    if |edges| == 0 then None
    else if edges[0].trigger == t && edges[0].source == s then Some(edges[0].dest)
    else
      var r := Lookup(edges[1..], t, s);
      assert forall i :: 1 <= i < |edges| ==> edges[i] == edges[1..][i - 1];
      r
  }

  /** Firing trigger `t` in state `s`: the new state, or `None` when the
      machine raises `MachineError` and stays where it is. */
  function Next(s: State, t: Trigger): (r: Option<State>)
    ensures r.Some? ==> Edge(t, s, r.value) in Table
  {
    Lookup(Table, t, s)
  }

  /** A trigger is legal exactly when the table has an edge for it from the
      current state, and it then goes to that edge's destination. */
  lemma NextIff(s: State, t: Trigger, d: State)
    ensures Next(s, t) == Some(d) <==> Edge(t, s, d) in Table
  {
    if Edge(t, s, d) in Table {
      var i :| 0 <= i < |Table| && Table[i] == Edge(t, s, d);
      assert Next(s, t).Some?;
      TableIsDeterministic();
    }
  }

  /** Each trigger labels one edge: from that edge's source it goes to the
      edge's destination, and from every other state it raises. */
  lemma NextOfEdge(s: State, e: Edge)
    requires e in Table
    ensures Next(s, e.trigger) == if s == e.source then Some(e.dest) else None
  {
    if s == e.source {
      NextIff(s, e.trigger, e.dest);
    }
  }

  /** No two edges share a trigger and a source. */
  lemma TableIsDeterministic()
    ensures forall i, j :: 0 <= i < |Table| && 0 <= j < |Table| ==>
              (Table[i].trigger == Table[j].trigger && Table[i].source == Table[j].source ==> i == j)
  {
  }

  /** Reference reading of the table: the states lie on a cycle, disconnected,
      connecting, connected, disconnecting, and the one legal trigger of each
      state moves one step along it. */
  function Index(s: State): nat
  {
    match s
    case Disconnected => 0
    case Connecting => 1
    case Connected => 2
    case Disconnecting => 3
  }

  function CycleTrigger(i: nat): Trigger
  {
    if i % 4 == 0 then Connect else if i % 4 == 1 then OnConnect else if i % 4 == 2 then Disconnect else OnDisconnect
  }

  lemma NextFollowsCycle(s: State, t: Trigger)
    ensures Next(s, t).Some? <==> t == CycleTrigger(Index(s))
    ensures Next(s, t).Some? ==> Index(Next(s, t).value) == (Index(s) + 1) % 4
  {
    match s
    case Disconnected => assert Table[0] == Edge(Connect, Disconnected, Connecting);
    case Connecting => assert Table[1] == Edge(OnConnect, Connecting, Connected);
    case Connected => assert Table[2] == Edge(Disconnect, Connected, Disconnecting);
    case Disconnecting => assert Table[3] == Edge(OnDisconnect, Disconnecting, Disconnected);
  }

  /** The state after a history of triggers from `s`, or `None` once one of
      them is illegal. */
  function Run(s: State, ts: seq<Trigger>): Option<State>
  {
    if |ts| == 0 then Some(s)
    else
      match Run(s, ts[..|ts| - 1])
      case None => None
      case Some(m) => Next(m, ts[|ts| - 1])
  }

  lemma RunAppend(s: State, ts: seq<Trigger>, t: Trigger)
    ensures Run(s, ts + [t]) == match Run(s, ts) case None => None case Some(m) => Next(m, t)
  {
    assert (ts + [t])[..|ts|] == ts;
  }

  lemma ModStep(n: nat)
    ensures CycleTrigger(n % 4) == CycleTrigger(n)
    ensures ((n % 4) + 1) % 4 == (n + 1) % 4
  {
    var q := n / 4;
    assert n == 4 * q + n % 4;
    assert n + 1 == 4 * q + (n % 4 + 1);
  }

  lemma CycleStep(m: State, n: nat, t: Trigger)
    requires Index(m) == n % 4
    ensures Next(m, t).Some? <==> t == CycleTrigger(n)
    ensures Next(m, t).Some? ==> Index(Next(m, t).value) == (n + 1) % 4
  {
    NextFollowsCycle(m, t);
    ModStep(n);
  }

  /** The accepted histories are exactly the prefixes of connect, on_connect,
      disconnect, on_disconnect repeated, and the state reached is the one
      the number of triggers points to on the cycle. */
  lemma {:induction false} RunFollowsCycle(ts: seq<Trigger>)
    ensures Run(Initial, ts).Some? <==> forall i :: 0 <= i < |ts| ==> ts[i] == CycleTrigger(i)
    ensures Run(Initial, ts).Some? ==> Index(Run(Initial, ts).value) == |ts| % 4
  {
    if |ts| > 0 {
      var n := |ts| - 1;
      var front := ts[..n];
      RunFollowsCycle(front);
      assert forall i :: 0 <= i < n ==> front[i] == ts[i];
      var before := Run(Initial, front);
      assert ts == front + [ts[n]];
      RunAppend(Initial, front, ts[n]);
      if before.None? {
        var i :| 0 <= i < n && front[i] != CycleTrigger(i);
        assert ts[i] != CycleTrigger(i);
      } else {
        CycleStep(before.value, n, ts[n]);
      }
    }
  }
}
