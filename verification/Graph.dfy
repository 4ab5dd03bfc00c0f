/** The world graph (crates/aether-core/src/graph.rs): a process graph with stable indices, found by pid
    through a separate index. */
module Graph {
  import opened Results

  datatype ProcessState = Running | Sleeping | Zombie | Stopped

  datatype ProcessNode = ProcessNode(
    pid: nat, ppid: nat, name: string, cpuPercent: real, memBytes: nat, state: ProcessState,
    hp: real, xp: nat, position: (real, real, real))

  datatype Protocol = TCP | UDP | DNS | QUIC | HTTP | HTTPS | Unknown

  datatype ConnectionState = Established | Listen | TimeWait | CloseWait

  datatype NetworkEdge = NetworkEdge(
    sourcePid: nat, destPid: Option<nat>, dest: string, protocol: Protocol, bytesPerSec: nat, state: ConnectionState)

  datatype SystemSnapshot = SystemSnapshot(processes: seq<ProcessNode>, edges: seq<NetworkEdge>)

  // ---------------------------------------------------------------- the plain view

  /** A connection by the pids of its two ends. */
  datatype Link = Link(source: nat, target: nat, edge: NetworkEdge)

  /** The graph without indices: processes by pid, and connections oldest first. */
  datatype Plain = Plain(processes: map<nat, ProcessNode>, links: seq<Link>)
  {
    function Add(node: ProcessNode): Plain {
      Plain(processes[node.pid := node], links)
    }

    function Remove(pid: nat): Plain {
      Plain(processes - {pid}, Avoiding(links, pid))
    }

    /** Replaces a process in place; `f` must keep the pid for the result to make sense. */
    function Update(pid: nat, f: ProcessNode -> ProcessNode): Plain {
      if pid in processes then Plain(processes[pid := f(processes[pid])], links) else this
    }

    function Connect(source: nat, target: nat, edge: NetworkEdge): Plain {
      if source in processes && target in processes then Plain(processes, links + [Link(source, target, edge)])
      else this
    }

    /** What a snapshot leaves: nothing of the state before. */
    function Snapshot(s: SystemSnapshot): Plain {
      var latest := LastWins(s.processes);
      Plain(latest, Resolved(s.edges, latest.Keys))
    }

    /** Processes are filed under their own pid and connections join known processes. */
    predicate Coherent() {
      && (forall pid | pid in processes :: processes[pid].pid == pid)
      && (forall k | 0 <= k < |links| :: links[k].source in processes && links[k].target in processes)
    }
  }

  /** The links that do not touch `pid`, in order. */
  function Avoiding(links: seq<Link>, pid: nat): seq<Link> {
    if links == [] then []
    else
      var l, rest := links[|links| - 1], Avoiding(links[..|links| - 1], pid);
      if l.source != pid && l.target != pid then rest + [l] else rest
  }

  lemma {:induction false} AvoidingExactly(links: seq<Link>, pid: nat, l: Link)
    ensures l in Avoiding(links, pid) <==> l in links && l.source != pid && l.target != pid
    ensures multiset(Avoiding(links, pid))[l] == if l.source != pid && l.target != pid then multiset(links)[l] else 0
  {
    if links != [] {
      AvoidingExactly(links[..|links| - 1], pid, l);
      assert links == links[..|links| - 1] + [links[|links| - 1]];
    }
  }

  /** Removing takes links out where they stand: the rest keep their order. */
  lemma {:induction false} AvoidingConcat(a: seq<Link>, b: seq<Link>, pid: nat)
    ensures Avoiding(a + b, pid) == Avoiding(a, pid) + Avoiding(b, pid)
  {
    if b == [] {
      assert a + b == a;
    } else {
      var n := |b| - 1;
      assert (a + b)[..|a + b| - 1] == a + b[..n];
      AvoidingConcat(a, b[..n], pid);
    }
  }

  /** Processes by pid, the last entry with a pid winning. */
  function LastWins(processes: seq<ProcessNode>): map<nat, ProcessNode> {
    if processes == [] then map[]
    else LastWins(processes[..|processes| - 1])[processes[|processes| - 1].pid := processes[|processes| - 1]]
  }

  /** The edges with a destination and both ends known, in order. */
  function Resolved(edges: seq<NetworkEdge>, known: set<nat>): (r: seq<Link>)
  {
    if edges == [] then []
    else
      var e := edges[|edges| - 1];
      Resolved(edges[..|edges| - 1], known)
      + (if e.destPid.Some? && e.sourcePid in known && e.destPid.value in known
         then [Link(e.sourcePid, e.destPid.value, e)] else [])
  }

  // ---------------------------------------------------------------- the indexed graph

  datatype Edge = Edge(source: nat, target: nat, weight: NetworkEdge)

  type Nodes = map<nat, ProcessNode>
  type Edges = map<nat, Edge>

  ghost predicate Distinct(s: seq<nat>) {
    forall a, b | 0 <= a < b < |s| :: s[a] != s[b]
  }

  lemma Unused(s: set<nat>)
    ensures exists x: nat :: x !in s
  {
    var bound := Bound(s);
    assert bound !in s;
  }

  ghost function Bound(s: set<nat>): (b: nat)
    ensures forall x | x in s :: x < b
  {
    if s == {} then 0
    else
      var x :| x in s;
      var b := Bound(s - {x});
      assert forall y | y in s :: y == x || y in s - {x};
      if x < b then b else x + 1
  }

  /** The index maps pids one to one onto the nodes that carry them. */
  ghost predicate Indexed(nodes: Nodes, pidIndex: map<nat, nat>) {
    && (forall pid | pid in pidIndex :: pidIndex[pid] in nodes && nodes[pidIndex[pid]].pid == pid)
    && (forall idx | idx in nodes :: nodes[idx].pid in pidIndex && pidIndex[nodes[idx].pid] == idx)
  }

  /** Every edge listed is there and joins existing nodes. */
  ghost predicate Live(order: seq<nat>, edges: Edges, nodes: Nodes) {
    forall e | e in order :: e in edges && edges[e].source in nodes && edges[e].target in nodes
  }

  ghost function LinkOf(e: Edge, nodes: Nodes): Link
    requires e.source in nodes && e.target in nodes
  {
    Link(nodes[e.source].pid, nodes[e.target].pid, e.weight)
  }

  ghost function LinksOf(order: seq<nat>, edges: Edges, nodes: Nodes): (r: seq<Link>)
    requires Live(order, edges, nodes)
    ensures |r| == |order| && forall k | 0 <= k < |r| :: order[k] in order && r[k] == LinkOf(edges[order[k]], nodes)
  {
    if order == [] then []
    else
      assert order[|order| - 1] in order && forall e | e in order[..|order| - 1] :: e in order;
      LinksOf(order[..|order| - 1], edges, nodes) + [LinkOf(edges[order[|order| - 1]], nodes)]
  }

  /** Links depend only on the listed edges and the pids of their ends. */
  lemma SameLinks(order: seq<nat>, edges: Edges, nodes: Nodes, edges': Edges, nodes': Nodes)
    requires Live(order, edges, nodes) && Live(order, edges', nodes')
    requires forall e | e in order :: LinkOf(edges[e], nodes) == LinkOf(edges'[e], nodes')
    ensures LinksOf(order, edges, nodes) == LinksOf(order, edges', nodes')
  {
    hide Live, LinkOf;
  }

  /** The listed edges that do not touch the node `idx`. */
  ghost function Untouched(order: seq<nat>, edges: Edges, idx: nat): (r: seq<nat>)
    requires forall e | e in order :: e in edges
    ensures forall e :: e in r <==> e in order && edges[e].source != idx && edges[e].target != idx
    ensures Distinct(order) ==> Distinct(r)
  {
    if order == [] then []
    else
      var e, before := order[|order| - 1], order[..|order| - 1];
      assert order == before + [e];
      var rest := Untouched(before, edges, idx);
      assert Distinct(order) ==> e !in before;
      if edges[e].source != idx && edges[e].target != idx then rest + [e] else rest
  }

  lemma LinksSnoc(before: seq<nat>, e: nat, edges: Edges, nodes: Nodes)
    requires Live(before + [e], edges, nodes)
    ensures Live(before, edges, nodes) && e in edges && edges[e].source in nodes && edges[e].target in nodes
    ensures LinksOf(before + [e], edges, nodes) == LinksOf(before, edges, nodes) + [LinkOf(edges[e], nodes)]
  {
    assert (before + [e])[..|before|] == before && e in before + [e];
    assert forall x | x in before :: x in before + [e];
  }

  lemma AvoidingSnoc(links: seq<Link>, l: Link, pid: nat)
    ensures Avoiding(links + [l], pid)
            == Avoiding(links, pid) + (if l.source != pid && l.target != pid then [l] else [])
  {
    assert (links + [l])[..|links|] == links;
  }

  lemma SamePidSameNode(nodes: Nodes, pidIndex: map<nat, nat>, e: Edge, idx: nat)
    requires Indexed(nodes, pidIndex) && idx in nodes && e.source in nodes && e.target in nodes
    ensures e.source == idx <==> LinkOf(e, nodes).source == nodes[idx].pid
    ensures e.target == idx <==> LinkOf(e, nodes).target == nodes[idx].pid
  {
  }

  /** Leaving out the edges at a node is leaving out the links at its pid. */
  lemma {:induction false} UntouchedAvoids(order: seq<nat>, edges: Edges, nodes: Nodes, pidIndex: map<nat, nat>, idx: nat)
    requires Live(order, edges, nodes) && Indexed(nodes, pidIndex) && idx in nodes
    ensures Live(Untouched(order, edges, idx), edges, nodes)
    ensures LinksOf(Untouched(order, edges, idx), edges, nodes)
            == Avoiding(LinksOf(order, edges, nodes), nodes[idx].pid)
  {
    if order != [] {
      var e, before := order[|order| - 1], order[..|order| - 1];
      assert order == before + [e];
      LinksSnoc(before, e, edges, nodes);
      UntouchedAvoids(before, edges, nodes, pidIndex, idx);
      var rest := Untouched(before, edges, idx);
      assert Live(rest + [e], edges, nodes);
      LinksSnoc(rest, e, edges, nodes);
      hide LinksOf, LinkOf, Avoiding, Indexed;
      AvoidingSnoc(LinksOf(before, edges, nodes), LinkOf(edges[e], nodes), nodes[idx].pid);
      SamePidSameNode(nodes, pidIndex, edges[e], idx);
    }
  }

  /** Edges that do not touch the node `idx`. */
  function Without(edges: Edges, idx: nat): Edges {
    map e | e in edges && edges[e].source != idx && edges[e].target != idx :: edges[e]
  }

  lemma RemovedStaysValid(order: seq<nat>, edges: Edges, nodes: Nodes, pidIndex: map<nat, nat>, pid: nat)
    requires Indexed(nodes, pidIndex) && Live(order, edges, nodes) && pid in pidIndex && Distinct(order)
    requires forall e | e in edges :: e in order
    ensures var idx := pidIndex[pid];
            var rest, edges', nodes' := Untouched(order, edges, idx), Without(edges, idx), nodes - {idx};
            && Indexed(nodes', pidIndex - {pid}) && Live(rest, edges', nodes') && Live(rest, edges, nodes) && Distinct(rest)
            && (forall e | e in edges' :: e in rest)
            && (forall p | p in pidIndex && p != pid :: pidIndex[p] in nodes' && nodes'[pidIndex[p]] == nodes[pidIndex[p]])
            && LinksOf(rest, edges', nodes') == LinksOf(rest, edges, nodes)
  {
    hide Untouched, LinksOf, Distinct;
    var idx := pidIndex[pid];
    var rest := Untouched(order, edges, idx);
    SameLinks(rest, edges, nodes, Without(edges, idx), nodes - {idx});
  }

  /** A new edge between live nodes is one more link, at the end. */
  lemma AddedStaysValid(order: seq<nat>, edges: Edges, nodes: Nodes, e: nat, edge: Edge)
    requires Live(order, edges, nodes) && Distinct(order) && e !in edges && edge.source in nodes && edge.target in nodes
    ensures Live(order + [e], edges[e := edge], nodes) && Distinct(order + [e])
    ensures LinksOf(order + [e], edges[e := edge], nodes) == LinksOf(order, edges, nodes) + [LinkOf(edge, nodes)]
  {
    SameLinks(order, edges, nodes, edges[e := edge], nodes);
    LinksSnoc(order, e, edges[e := edge], nodes);
    hide LinksOf;
  }

  lemma NothingToRemove<V>(m: map<nat, V>, pid: nat)
    requires pid !in m
    ensures m - {pid} == m
  {
  }

  /** The processes left are those of the other pids. */
  lemma RestOfProcesses(nodes: Nodes, pidIndex: map<nat, nat>, nodes': Nodes, pid: nat)
    requires forall p | p in pidIndex :: pidIndex[p] in nodes
    requires forall p | p in pidIndex && p != pid :: pidIndex[p] in nodes' && nodes'[pidIndex[p]] == nodes[pidIndex[p]]
    ensures (map p | p in pidIndex - {pid} :: nodes'[(pidIndex - {pid})[p]])
            == (map p | p in pidIndex :: nodes[pidIndex[p]]) - {pid}
  {
  }

  class WorldGraph {
    var nodes: Nodes
    var edges: Edges
    var pidIndex: map<nat, nat>
    /** Live edges, oldest first. */
    ghost var order: seq<nat>

    ghost predicate Valid()
      reads this
    {
      && Indexed(nodes, pidIndex)
      && Live(order, edges, nodes)
      && Distinct(order)
      && (forall e | e in edges :: e in order)
    }

    ghost function Processes(): map<nat, ProcessNode>
      requires Valid()
      reads this
    {
      map pid | pid in pidIndex :: nodes[pidIndex[pid]]
    }

    ghost function View(): Plain
      requires Valid()
      reads this
    {
      Plain(Processes(), LinksOf(order, edges, nodes))
    }

    constructor ()
      ensures Valid() && View() == Plain(map[], [])
    {
      nodes := map[];
      edges := map[];
      pidIndex := map[];
      order := [];
    }

    method AddProcess(node: ProcessNode) returns (idx: nat)
      requires Valid()
      modifies this
      ensures Valid() && View() == Apply(old(View()), Op.Add(node))
      ensures View().processes == old(View()).processes[node.pid := node] && View().links == old(View()).links
      ensures pidIndex == old(pidIndex)[node.pid := idx]
      ensures node.pid in old(pidIndex) ==> idx == old(pidIndex)[node.pid]
    {
      if node.pid in pidIndex {
        idx := pidIndex[node.pid];
        nodes := nodes[idx := node];
        assert pidIndex == old(pidIndex)[node.pid := idx];
      } else {
        Unused(nodes.Keys);
        idx :| idx !in nodes.Keys;
        nodes := nodes[idx := node];
        pidIndex := pidIndex[node.pid := idx];
      }
      SameLinks(order, edges, old(nodes), edges, nodes);
      assert Processes() == old(Processes())[node.pid := node];
    }

    method RemoveProcess(pid: nat) returns (existed: bool)
      requires Valid()
      modifies this
      ensures Valid() && View() == Apply(old(View()), Op.Remove(pid))
      ensures View().processes == old(View()).processes - {pid} && View().links == Avoiding(old(View()).links, pid)
      ensures existed <==> pid in old(View()).processes
      ensures pidIndex == old(pidIndex) - {pid}
    {
      if pid !in pidIndex {
        AvoidsNothing(LinksOf(order, edges, nodes), pid);
        NothingToRemove(pidIndex, pid);
        NothingToRemove(Processes(), pid);
        return false;
      }
      var idx := pidIndex[pid];
      UntouchedAvoids(order, edges, nodes, pidIndex, idx);
      RemovedStaysValid(order, edges, nodes, pidIndex, pid);
      RestOfProcesses(nodes, pidIndex, nodes - {idx}, pid);
      pidIndex := pidIndex - {pid};
      nodes := nodes - {idx};
      order := Untouched(order, edges, idx);
      edges := Without(edges, idx);
      hide Indexed, Live, Untouched, LinksOf, Without, Distinct;
      return true;
    }

    /** The graph stays valid exactly when `f` keeps the pid of the process it is applied to. */
    method UpdateProcess(pid: nat, f: ProcessNode -> ProcessNode)
      requires Valid()
      modifies this
      ensures Valid() <==> pid in old(View()).processes ==> f(old(View()).processes[pid]).pid == pid
      ensures Valid() ==> View() == Apply(old(View()), Op.Update(pid, f))
      ensures Valid() ==>
                && View().links == old(View()).links
                && View().processes == if pid in old(View()).processes
                                       then old(View()).processes[pid := f(old(View()).processes[pid])]
                                       else old(View()).processes
      ensures nodes == if pid in old(pidIndex)
                       then old(nodes)[old(pidIndex)[pid] := f(old(nodes)[old(pidIndex)[pid]])] else old(nodes)
      ensures pidIndex == old(pidIndex) && edges == old(edges)
    {
      if pid in pidIndex {
        var idx := pidIndex[pid];
        nodes := nodes[idx := f(nodes[idx])];
        if nodes[idx].pid == pid {
          SameLinks(order, edges, old(nodes), edges, nodes);
          assert Processes() == old(Processes())[pid := nodes[idx]];
        }
      }
    }

    method AddConnection(fromPid: nat, toPid: nat, edge: NetworkEdge) returns (added: Option<nat>)
      requires Valid()
      modifies this
      ensures Valid() && View() == Apply(old(View()), Op.Connect(fromPid, toPid, edge))
      ensures View().processes == old(View()).processes
              && View().links == old(View()).links + if added.Some? then [Link(fromPid, toPid, edge)] else []
      ensures added.Some? <==> fromPid in old(View()).processes && toPid in old(View()).processes
      ensures added.Some? ==> edges == old(edges)[added.value := Edge(pidIndex[fromPid], pidIndex[toPid], edge)]
                              && added.value !in old(edges)
      ensures pidIndex == old(pidIndex) && nodes == old(nodes)
    {
      hide Live, LinksOf, Distinct;
      if fromPid !in pidIndex || toPid !in pidIndex {
        return None;
      }
      Unused(edges.Keys);
      var e: nat :| e !in edges.Keys;
      edges := edges[e := Edge(pidIndex[fromPid], pidIndex[toPid], edge)];
      AddedStaysValid(order, old(edges), nodes, e, edges[e]);
      order := order + [e];
      return Some(e);
    }

    method FindByPid(pid: nat) returns (found: Option<ProcessNode>)
      requires Valid()
      ensures found == if pid in View().processes then Some(View().processes[pid]) else None
      ensures found.Some? ==> found.value.pid == pid
    {
      return if pid in pidIndex then Some(nodes[pidIndex[pid]]) else None;
    }

    /** Synchronises with a snapshot: the result depends on nothing but the snapshot, save that processes
        that survive keep their index. */
    method ApplySnapshot(snapshot: SystemSnapshot)
      requires Valid()
      modifies this
      ensures Valid() && View() == Apply(old(View()), Op.Snapshot(snapshot))
      ensures View().processes == LastWins(snapshot.processes)
              && View().links == Resolved(snapshot.edges, LastWins(snapshot.processes).Keys)
      ensures forall pid | pid in old(pidIndex) && pid in pidIndex :: pidIndex[pid] == old(pidIndex)[pid]
    {
      hide *;
      var newPids := CollectByPid(snapshot.processes);
      RemoveStale(newPids);
      UpsertProcesses(snapshot.processes);
      ClearEdges();
      AddEdges(snapshot.edges);
      SnapshotIs(old(View()), snapshot);
      KnownPids();
    }

    lemma SnapshotIs(before: Plain, s: SystemSnapshot)
      ensures Apply(before, Op.Snapshot(s)) == Plain(LastWins(s.processes), Resolved(s.edges, LastWins(s.processes).Keys))
    {
    }

    lemma KnownPids()
      requires Valid()
      ensures View().processes.Keys == pidIndex.Keys
    {
    }

    /** Adds or updates every listed process; nothing else remains when none was stale. */
    method UpsertProcesses(processes: seq<ProcessNode>)
      requires Valid() && pidIndex.Keys <= LastWins(processes).Keys
      modifies this
      ensures Valid() && View().processes == LastWins(processes)
      ensures forall pid | pid in old(pidIndex) :: pid in pidIndex && pidIndex[pid] == old(pidIndex)[pid]
    {
      hide Valid, View, Processes, Indexed, Live, LinksOf, Distinct;
      KnownPids();
      for i := 0 to |processes|
        invariant Valid() && View().processes.Keys == pidIndex.Keys <= LastWins(processes).Keys
        invariant forall pid | pid in LastWins(processes[..i]) ::
                    pid in View().processes && View().processes[pid] == LastWins(processes[..i])[pid]
        invariant forall pid | pid in old(pidIndex) :: pid in pidIndex && pidIndex[pid] == old(pidIndex)[pid]
      {
        var process := processes[i];
        assert processes[..i + 1][..i] == processes[..i];
        LastWinsHas(processes, i);
        if process.pid in pidIndex {
          UpdateProcess(process.pid, _ => process);
        } else {
          var _ := AddProcess(process);
        }
        KnownPids();
      }
      assert processes[..|processes|] == processes;
    }

    method AddEdges(list: seq<NetworkEdge>)
      requires Valid() && View().links == []
      modifies this
      ensures Valid() && View() == Plain(old(View()).processes, Resolved(list, old(View()).processes.Keys))
      ensures pidIndex == old(pidIndex)
    {
      hide Valid, View, Processes, Indexed, Live, LinksOf, Distinct;
      for i := 0 to |list|
        invariant Valid() && View() == Plain(old(View()).processes, Resolved(list[..i], old(View()).processes.Keys))
        invariant pidIndex == old(pidIndex)
      {
        assert list[..i + 1][..i] == list[..i];
        if list[i].destPid.Some? {
          var _ := AddConnection(list[i].sourcePid, list[i].destPid.value, list[i]);
        }
      }
      assert list[..|list|] == list;
    }

    /** Removes the processes a snapshot no longer lists. */
    method RemoveStale(newPids: map<nat, ProcessNode>)
      requires Valid()
      modifies this
      ensures Valid() && pidIndex.Keys == old(pidIndex).Keys * newPids.Keys
      ensures forall pid | pid in pidIndex :: pidIndex[pid] == old(pidIndex)[pid]
    {
      hide *;
      var stale := set pid | pid in pidIndex && pid !in newPids;
      ghost var all := stale;
      while stale != {}
        invariant Valid() && stale <= all && pidIndex == old(pidIndex) - (all - stale)
        decreases |stale|
      {
        var pid :| pid in stale;
        stale := stale - {pid};
        var _ := RemoveProcess(pid);
      }
      assert pidIndex == old(pidIndex) - all;
      assert forall pid | pid in old(pidIndex) :: pid in all <==> pid !in newPids;
    }

    /** Removes every edge, one index at a time. */
    method ClearEdges()
      requires Valid()
      modifies this`edges, this`order
      ensures Valid() && View() == Plain(old(View()).processes, [])
    {
      hide Indexed, LinksOf, Distinct, Omitting;
      var indices := edges.Keys;
      while indices != {}
        invariant Valid() && edges.Keys == indices
        invariant forall e | e in order :: e in indices
        decreases |indices|
      {
        var e :| e in indices;
        indices := indices - {e};
        edges := edges - {e};
        order := Omitting(order, e);
      }
      if order != [] {
        FirstIsListed(order);
      }
    }
  }

  lemma FirstIsListed(order: seq<nat>)
    requires order != []
    ensures order[0] in order
  {
  }

  ghost function Omitting(order: seq<nat>, e: nat): (r: seq<nat>)
    ensures forall x :: x in r <==> x in order && x != e
    ensures Distinct(order) ==> Distinct(r)
  {
    if order == [] then []
    else
      var before, last := order[..|order| - 1], order[|order| - 1];
      assert order == before + [last];
      assert Distinct(order) ==> last !in before;
      if last == e then Omitting(before, e) else Omitting(before, e) + [last]
  }

  /** Collects the processes by pid; a later entry overwrites an earlier one. */
  method CollectByPid(processes: seq<ProcessNode>) returns (r: map<nat, ProcessNode>)
    ensures r == LastWins(processes)
  {
    r := map[];
    for i := 0 to |processes|
      invariant r == LastWins(processes[..i])
    {
      assert processes[..i + 1][..i] == processes[..i];
      r := r[processes[i].pid := processes[i]];
    }
    assert processes[..|processes|] == processes;
  }

  lemma {:induction false} LastWinsHas(processes: seq<ProcessNode>, k: nat)
    requires k < |processes|
    ensures processes[k].pid in LastWins(processes)
  {
    if k < |processes| - 1 {
      LastWinsHas(processes[..|processes| - 1], k);
    }
  }

  lemma {:induction false} AvoidsNothing(links: seq<Link>, pid: nat)
    requires forall k | 0 <= k < |links| :: links[k].source != pid && links[k].target != pid
    ensures Avoiding(links, pid) == links
  {
    if links != [] {
      hide Avoiding;
      var before, l := links[..|links| - 1], links[|links| - 1];
      AvoidsNothing(before, pid);
      assert links == before + [l];
      AvoidingSnoc(before, l, pid);
    }
  }

  // ---------------------------------------------------------------- all runs of the plain view

  datatype Op =
    | Add(node: ProcessNode)
    | Remove(pid: nat)
    | Update(upid: nat, f: ProcessNode -> ProcessNode)
    | Connect(source: nat, target: nat, edge: NetworkEdge)
    | Snapshot(snapshot: SystemSnapshot)

  function Apply(p: Plain, op: Op): Plain {
    match op
    case Add(node) => p.Add(node)
    case Remove(pid) => p.Remove(pid)
    case Update(pid, f) => p.Update(pid, f)
    case Connect(s, t, e) => p.Connect(s, t, e)
    case Snapshot(s) => p.Snapshot(s)
  }

  function After(ops: seq<Op>): Plain {
    if ops == [] then Plain(map[], []) else Apply(After(ops[..|ops| - 1]), ops[|ops| - 1])
  }

  /** Each update, where it happens in the run, keeps the pid. */
  ghost predicate UpdatesKeepPids(ops: seq<Op>) {
    forall k | 0 <= k < |ops| && ops[k].Update? && ops[k].upid in After(ops[..k]).processes ::
      ops[k].f(After(ops[..k]).processes[ops[k].upid]).pid == ops[k].upid
  }

  /** After every run whose updates keep pids, processes are filed under their own pid and every connection
      joins two known processes. */
  lemma {:induction false} EveryRunCoherent(ops: seq<Op>)
    requires UpdatesKeepPids(ops)
    ensures After(ops).Coherent()
  {
    if ops != [] {
      var n := |ops| - 1;
      assert forall k | 0 <= k < n :: ops[..n][..k] == ops[..k];
      EveryRunCoherent(ops[..n]);
      StepCoherent(After(ops[..n]), ops[n]);
    }
  }

  lemma StepCoherent(p: Plain, op: Op)
    requires p.Coherent()
    requires op.Update? && op.upid in p.processes ==> op.f(p.processes[op.upid]).pid == op.upid
    ensures Apply(p, op).Coherent()
  {
    match op
    case Remove(pid) =>
      forall k | 0 <= k < |Avoiding(p.links, pid)|
        ensures Avoiding(p.links, pid)[k].source in p.Remove(pid).processes
                && Avoiding(p.links, pid)[k].target in p.Remove(pid).processes
      {
        AvoidingExactly(p.links, pid, Avoiding(p.links, pid)[k]);
      }
    case Snapshot(s) =>
      OwnPid(s.processes);
      ResolvedEnds(s.edges, LastWins(s.processes).Keys);
    case _ =>
  }

  lemma {:induction false} OwnPid(processes: seq<ProcessNode>)
    ensures forall pid | pid in LastWins(processes) :: LastWins(processes)[pid].pid == pid
  {
    if processes != [] {
      OwnPid(processes[..|processes| - 1]);
    }
  }

  /** A connection that says in its own data which two processes it joins. */
  predicate SelfDescribing(l: Link) {
    l.edge.sourcePid == l.source && l.edge.destPid == Some(l.target)
  }

  lemma {:induction false} ResolvedEnds(edges: seq<NetworkEdge>, known: set<nat>)
    ensures forall k | 0 <= k < |Resolved(edges, known)| ::
              && Resolved(edges, known)[k].source in known && Resolved(edges, known)[k].target in known
              && SelfDescribing(Resolved(edges, known)[k])
  {
    if edges != [] {
      ResolvedEnds(edges[..|edges| - 1], known);
    }
  }

  /** In the collected map, a pid's process is the one at its last position in the list. */
  lemma {:induction false} LastWinsExactly(processes: seq<ProcessNode>, k: nat)
    requires k < |processes| && forall j | k < j < |processes| :: processes[j].pid != processes[k].pid
    ensures processes[k].pid in LastWins(processes) && LastWins(processes)[processes[k].pid] == processes[k]
  {
    if k < |processes| - 1 {
      LastWinsExactly(processes[..|processes| - 1], k);
    }
  }

  /** Exactly the pids listed are known. */
  lemma {:induction false} LastWinsKnows(processes: seq<ProcessNode>, pid: nat)
    ensures pid in LastWins(processes) <==> exists k | 0 <= k < |processes| :: processes[k].pid == pid
  {
    if processes != [] {
      var before := processes[..|processes| - 1];
      LastWinsKnows(before, pid);
      if pid in LastWins(before) {
        var k :| 0 <= k < |before| && before[k].pid == pid;
        assert processes[k].pid == pid;
      }
    }
  }

  /** Exactly the snapshot's edges with a destination and both ends known become links. */
  lemma {:induction false} ResolvedExactly(edges: seq<NetworkEdge>, known: set<nat>, e: NetworkEdge)
    ensures multiset(Resolved(edges, known))[Link(e.sourcePid, (if e.destPid.Some? then e.destPid.value else 0), e)]
            == if e.destPid.Some? && e.sourcePid in known && e.destPid.value in known then multiset(edges)[e] else 0
  {
    if edges != [] {
      var before, last := edges[..|edges| - 1], edges[|edges| - 1];
      assert edges == before + [last];
      ResolvedExactly(before, known, e);
    }
  }

  /** And they do in the order of the list. */
  lemma {:induction false} ResolvedConcat(a: seq<NetworkEdge>, b: seq<NetworkEdge>, known: set<nat>)
    ensures Resolved(a + b, known) == Resolved(a, known) + Resolved(b, known)
  {
    if b == [] {
      assert a + b == a;
    } else {
      var n := |b| - 1;
      assert (a + b)[..|a + b| - 1] == a + b[..n];
      ResolvedConcat(a, b[..n], known);
    }
  }

  /** The data of the links, as a snapshot would list it. */
  function EdgesOf(links: seq<Link>): seq<NetworkEdge> {
    if links == [] then [] else EdgesOf(links[..|links| - 1]) + [links[|links| - 1].edge]
  }

  /** Round trip: a coherent state whose connections describe themselves, listed as a snapshot, comes back
      unchanged. */
  lemma SnapshotRoundTrip(p: Plain, processes: seq<ProcessNode>, before: Plain)
    requires p.Coherent() && (forall k | 0 <= k < |p.links| :: SelfDescribing(p.links[k]))
    requires LastWins(processes) == p.processes
    ensures before.Snapshot(SystemSnapshot(processes, EdgesOf(p.links))) == p
  {
    ResolvesBack(p.links, p.processes.Keys);
  }

  lemma {:induction false} ResolvesBack(links: seq<Link>, known: set<nat>)
    requires forall k | 0 <= k < |links| :: SelfDescribing(links[k]) && links[k].source in known && links[k].target in known
    ensures Resolved(EdgesOf(links), known) == links
  {
    if links != [] {
      var before, last := links[..|links| - 1], links[|links| - 1];
      ResolvesBack(before, known);
      assert (EdgesOf(before) + [last.edge])[..|EdgesOf(before)|] == EdgesOf(before);
      assert links == before + [last];
    }
  }
}
