/** Human approval of agent actions (crates/aether-core/src/arbiter.rs) and the loop that executes what was
    approved (crates/aether-terminal/src/main.rs). Ids and times of submission are parameters. */
module Arbiter {
  import opened Results

  datatype AgentAction =
    | KillProcess(pid: nat)
    | RestartService(name: string)
    | Inspect(pid: nat)
    | CustomScript(command: string)

  datatype PendingAction =
    PendingAction(id: string, action: AgentAction, pid: nat, requestedAt: int, source: string)

  type Resolved = (PendingAction, bool)

  /** The queue's two lists. */
  datatype Queue = Queue(pending: seq<PendingAction>, history: seq<Resolved>)

  function ExtractPid(action: AgentAction): nat {
    match action
    case KillProcess(pid) => pid
    case Inspect(pid) => pid
    case RestartService(_) => 0
    case CustomScript(_) => 0
  }

  /** First entry with the id. */
  function Position(pending: seq<PendingAction>, id: string): (r: Option<nat>)
    ensures r.Some? ==> r.value < |pending| && pending[r.value].id == id
    ensures r.Some? ==> forall i | 0 <= i < r.value :: pending[i].id != id
    ensures r.None? ==> forall i | 0 <= i < |pending| :: pending[i].id != id
  {
    if pending == [] then None
    else
      var before := Position(pending[..|pending| - 1], id);
      if before.Some? then before
      else if pending[|pending| - 1].id == id then Some(|pending| - 1)
      else None
  }

  function RemoveAt<T>(s: seq<T>, i: nat): seq<T>
    requires i < |s|
  {
    s[..i] + s[i + 1..]
  }

  /** Moves the first pending entry with the id to the end of the history. */
  function Resolve(q: Queue, id: string, approved: bool): Queue {
    var at := Position(q.pending, id);
    if at.None? then q
    else Queue(RemoveAt(q.pending, at.value), q.history + [(q.pending[at.value], approved)])
  }

  /** Approved entries of the history, in order. */
  function Approved(history: seq<Resolved>): seq<PendingAction> {
    if history == [] then []
    else
      var rest := Approved(history[..|history| - 1]);
      if history[|history| - 1].1 then rest + [history[|history| - 1].0] else rest
  }

  function Unapproved(history: seq<Resolved>): seq<Resolved> {
    if history == [] then []
    else
      var rest := Unapproved(history[..|history| - 1]);
      if history[|history| - 1].1 then rest else rest + [history[|history| - 1]]
  }

  function Actions(entries: seq<PendingAction>): seq<AgentAction> {
    seq(|entries|, i requires 0 <= i < |entries| => entries[i].action)
  }

  class ArbiterQueue {
    var pending: seq<PendingAction>
    var history: seq<Resolved>

    constructor ()
      ensures State() == Queue([], [])
    {
      pending, history := [], [];
    }

    function State(): Queue
      reads this
    {
      Queue(pending, history)
    }

    method Enqueue(id: string, action: AgentAction, pid: nat, now: int, source: string) returns (r: string)
      modifies this`pending
      ensures r == id && pending == old(pending) + [PendingAction(id, action, pid, now, source)]
    {
      pending := pending + [PendingAction(id, action, pid, now, source)];
      return id;
    }

    method Submit(id: string, now: int, source: string, action: AgentAction)
      modifies this`pending
      ensures |pending| > 0 && State() == Step(Ledger(old(State()), []), Op.Enter(pending[|pending| - 1])).queue
      ensures |pending| == |old(pending)| + 1 && pending[..|old(pending)|] == old(pending)
      ensures var entry := pending[|old(pending)|];
              && entry.id == id && entry.action == action && entry.requestedAt == now && entry.source == source
              && match action
                 case KillProcess(pid) => entry.pid == pid
                 case Inspect(pid) => entry.pid == pid
                 case RestartService(_) => entry.pid == 0
                 case CustomScript(_) => entry.pid == 0
    {
      var _ := Enqueue(id, action, ExtractPid(action), now, source);
    }

    method Find(id: string) returns (r: Option<nat>)
      ensures r == Position(pending, id)
    {
      for i := 0 to |pending|
        invariant Position(pending[..i], id) == None
      {
        assert pending[..i + 1][..i] == pending[..i];
        if pending[i].id == id {
          PositionIs(pending, id, i);
          return Some(i);
        }
      }
      assert pending[..|pending|] == pending;
      return None;
    }

    method Approve(id: string) returns (r: Result<AgentAction, string>)
      modifies this
      ensures State() == Step(Ledger(old(State()), []), Op.Approve(id)).queue
      ensures match Position(old(pending), id)
              case Some(i) =>
                && pending == old(pending)[..i] + old(pending)[i + 1..]
                && history == old(history) + [(old(pending)[i], true)]
              case None => pending == old(pending) && history == old(history)
      ensures r == match Position(old(pending), id)
                   case Some(i) => Ok(old(pending)[i].action)
                   case None => Err("action " + id + " not found in pending queue")
    {
      var idx := Find(id);
      if idx.None? {
        return Err("action " + id + " not found in pending queue");
      }
      var entry := pending[idx.value];
      pending := RemoveAt(pending, idx.value);
      history := history + [(entry, true)];
      return Ok(entry.action);
    }

    method Deny(id: string) returns (r: Result<(), string>)
      modifies this
      ensures State() == Step(Ledger(old(State()), []), Op.Deny(id)).queue
      ensures match Position(old(pending), id)
              case Some(i) =>
                && pending == old(pending)[..i] + old(pending)[i + 1..]
                && history == old(history) + [(old(pending)[i], false)]
              case None => pending == old(pending) && history == old(history)
      ensures r == if Position(old(pending), id).Some? then Ok(())
                   else Err("action " + id + " not found in pending queue")
    {
      var idx := Find(id);
      if idx.None? {
        return Err("action " + id + " not found in pending queue");
      }
      var entry := pending[idx.value];
      pending := RemoveAt(pending, idx.value);
      history := history + [(entry, false)];
      return Ok(());
    }

    method DrainApproved() returns (approved: seq<AgentAction>)
      modifies this`history
      ensures approved == Actions(Approved(old(history)))
      ensures history == Unapproved(old(history))
      ensures var after := Step(Ledger(old(State()), []), Op.Drain); State() == after.queue && approved == Actions(after.drained)
    {
      approved := [];
      var remaining := [];
      for i := 0 to |history|
        invariant history == old(history)
        invariant approved == Actions(Approved(history[..i]))
        invariant remaining == Unapproved(history[..i])
      {
        assert history[..i + 1][..i] == history[..i];
        var (entry, wasApproved) := history[i];
        if wasApproved {
          approved := approved + [entry.action];
        } else {
          remaining := remaining + [(entry, false)];
        }
      }
      assert history[..|history|] == history;
      history := remaining;
    }
  }

  /** A drain takes entries out where they stand: approved ones in their order, and the rest keep theirs. */
  lemma {:induction false} DrainInOrder(a: seq<Resolved>, b: seq<Resolved>)
    ensures Approved(a + b) == Approved(a) + Approved(b)
    ensures Unapproved(a + b) == Unapproved(a) + Unapproved(b)
  {
    if b == [] {
      assert a + b == a;
    } else {
      var n := |b| - 1;
      assert (a + b)[..|a + b| - 1] == a + b[..n];
      DrainInOrder(a, b[..n]);
    }
  }

  lemma PositionIs(pending: seq<PendingAction>, id: string, k: nat)
    requires k < |pending| && pending[k].id == id && forall i | 0 <= i < k :: pending[i].id != id
    ensures Position(pending, id) == Some(k)
  {
  }

  /** The executor: each of its ticks takes what is approved and runs it, in order. */
  class Executor {
    /** Actions run so far. */
    var executed: seq<AgentAction>

    method Tick(queue: ArbiterQueue)
      modifies this, queue`history
      ensures executed == old(executed) + Actions(Approved(old(queue.history)))
      ensures queue.history == Unapproved(old(queue.history))
    {
      var actions := queue.DrainApproved();
      for i := 0 to |actions|
        invariant executed == old(executed) + actions[..i]
        invariant queue.history == Unapproved(old(queue.history))
      {
        executed := executed + [actions[i]];
      }
    }
  }

  // ---------------------------------------------------------------- whole runs

  datatype Op = Enter(entry: PendingAction) | Approve(id: string) | Deny(id: string) | Drain

  /** The queue and every entry drained so far. */
  datatype Ledger = Ledger(queue: Queue, drained: seq<PendingAction>)

  function Step(l: Ledger, op: Op): Ledger {
    match op
    case Enter(e) => Ledger(Queue(l.queue.pending + [e], l.queue.history), l.drained)
    case Approve(id) => Ledger(Resolve(l.queue, id, true), l.drained)
    case Deny(id) => Ledger(Resolve(l.queue, id, false), l.drained)
    case Drain =>
      Ledger(Queue(l.queue.pending, Unapproved(l.queue.history)), l.drained + Approved(l.queue.history))
  }

  function After(ops: seq<Op>): Ledger {
    if ops == [] then Ledger(Queue([], []), []) else Step(After(ops[..|ops| - 1]), ops[|ops| - 1])
  }

  /** No id is handed out twice. */
  ghost predicate FreshIds(ops: seq<Op>) {
    forall i, j | 0 <= i < j < |ops| && ops[i].Enter? && ops[j].Enter? :: ops[i].entry.id != ops[j].entry.id
  }

  datatype Fate = Unknown | Waiting | Accepted | Denied | Executed

  /** What became of an id, told from the operations alone. */
  function FateOf(ops: seq<Op>, id: string): Fate {
    if ops == [] then Unknown
    else
      var before := FateOf(ops[..|ops| - 1], id);
      match ops[|ops| - 1]
      case Enter(e) => if e.id == id then Waiting else before
      case Approve(i) => if i == id && before == Waiting then Accepted else before
      case Deny(i) => if i == id && before == Waiting then Denied else before
      case Drain => if before == Accepted then Executed else before
  }

  ghost predicate Entered(ops: seq<Op>, e: PendingAction) {
    Op.Enter(e) in ops
  }

  function Count(there: bool): nat {
    if there then 1 else 0
  }

  /** Each entry is in exactly the one place its fate tells, and there once. */
  ghost predicate InItsPlace(ops: seq<Op>, l: Ledger, e: PendingAction) {
    && multiset(l.queue.pending)[e] == Count(Entered(ops, e) && FateOf(ops, e.id) == Waiting)
    && multiset(l.queue.history)[(e, true)] == Count(Entered(ops, e) && FateOf(ops, e.id) == Accepted)
    && multiset(l.queue.history)[(e, false)] == Count(Entered(ops, e) && FateOf(ops, e.id) == Denied)
    && multiset(l.drained)[e] == Count(Entered(ops, e) && FateOf(ops, e.id) == Executed)
  }

  lemma {:induction false} FateIsEntered(ops: seq<Op>, id: string)
    requires FreshIds(ops)
    ensures FateOf(ops, id) != Unknown <==> exists e :: Entered(ops, e) && e.id == id
  {
    if ops != [] {
      var before, op := ops[..|ops| - 1], ops[|ops| - 1];
      FateIsEntered(before, id);
      assert ops == before + [op];
      if FateOf(before, id) != Unknown {
        var e :| Entered(before, e) && e.id == id;
        assert Entered(ops, e);
      } else if op.Enter? && op.entry.id == id {
        assert Entered(ops, op.entry);
      }
    }
  }

  lemma EnteredOnce(ops: seq<Op>, a: PendingAction, b: PendingAction)
    requires FreshIds(ops) && Entered(ops, a) && Entered(ops, b) && a.id == b.id
    ensures a == b
  {
    var i :| 0 <= i < |ops| && ops[i] == Op.Enter(a);
    var j :| 0 <= j < |ops| && ops[j] == Op.Enter(b);
    assert i == j;
  }

  lemma FreshPrefix(before: seq<Op>, op: Op)
    requires FreshIds(before + [op])
    ensures FreshIds(before)
    ensures op.Enter? ==> FateOf(before, op.entry.id) == Unknown
  {
    var ops := before + [op];
    assert forall i | 0 <= i < |before| :: ops[i] == before[i];
    if op.Enter? {
      FateIsEntered(before, op.entry.id);
      forall e | Entered(before, e)
        ensures e.id != op.entry.id
      {
        var i :| 0 <= i < |before| && before[i] == Op.Enter(e);
        assert ops[i].Enter? && ops[|before|] == op;
      }
    }
  }

  lemma SnocStep(before: seq<Op>, op: Op, e: PendingAction)
    ensures After(before + [op]) == Step(After(before), op)
    ensures Entered(before + [op], e) <==> Entered(before, e) || op == Op.Enter(e)
  {
    assert (before + [op])[..|before|] == before;
  }

  lemma FateSnoc(before: seq<Op>, op: Op, id: string)
    ensures FateOf(before + [op], id)
            == match op
               case Enter(e) => if e.id == id then Waiting else FateOf(before, id)
               case Approve(i) => if i == id && FateOf(before, id) == Waiting then Accepted else FateOf(before, id)
               case Deny(i) => if i == id && FateOf(before, id) == Waiting then Denied else FateOf(before, id)
               case Drain => if FateOf(before, id) == Accepted then Executed else FateOf(before, id)
  {
    assert (before + [op])[..|before|] == before;
  }

  lemma CountRemoved<T>(s: seq<T>, i: nat)
    requires i < |s|
    ensures multiset(RemoveAt(s, i)) == multiset(s) - multiset{s[i]}
  {
    assert s == s[..i] + [s[i]] + s[i + 1..];
  }

  lemma {:induction false} CountDrained(history: seq<Resolved>, e: PendingAction)
    ensures multiset(Approved(history))[e] == multiset(history)[(e, true)]
    ensures multiset(Unapproved(history))[(e, true)] == 0
    ensures multiset(Unapproved(history))[(e, false)] == multiset(history)[(e, false)]
  {
    if history != [] {
      var before, last := history[..|history| - 1], history[|history| - 1];
      CountDrained(before, e);
      assert history == before + [last];
      CountLast(history, before, last);
      if last.1 {
        assert Unapproved(history) == Unapproved(before);
        CountLast(Approved(history), Approved(before), last.0);
      } else {
        assert Approved(history) == Approved(before);
        CountLast(Unapproved(history), Unapproved(before), last);
      }
    }
  }

  lemma CountLast<T>(s: seq<T>, before: seq<T>, last: T)
    requires s == before + [last]
    ensures multiset(s) == multiset(before) + multiset{last}
  {
  }

  /** An id waits exactly when some pending entry carries it. */
  lemma WaitingIsPending(ops: seq<Op>, id: string)
    requires FreshIds(ops) && forall e :: InItsPlace(ops, After(ops), e)
    ensures FateOf(ops, id) == Waiting <==> Position(After(ops).queue.pending, id).Some?
    ensures forall e | e in After(ops).queue.pending :: Entered(ops, e)
  {
    var pending := After(ops).queue.pending;
    forall e | e in pending
      ensures Entered(ops, e) && FateOf(ops, e.id) == Waiting
    {
      assert InItsPlace(ops, After(ops), e);
      assert multiset(pending)[e] > 0;
    }
    var at := Position(pending, id);
    if at.Some? {
      assert pending[at.value] in pending;
    }
    if FateOf(ops, id) == Waiting {
      FateIsEntered(ops, id);
      var e :| Entered(ops, e) && e.id == id;
      assert InItsPlace(ops, After(ops), e);
      assert e in multiset(pending);
    }
  }

  lemma StepKeepsPlaces(before: seq<Op>, op: Op, e: PendingAction)
    requires FreshIds(before + [op]) && FreshIds(before) && forall x :: InItsPlace(before, After(before), x)
    ensures InItsPlace(before + [op], After(before + [op]), e)
  {
    var l := After(before);
    SnocStep(before, op, e);
    FateSnoc(before, op, e.id);
    FreshPrefix(before, op);
    FateIsEntered(before, e.id);
    assert InItsPlace(before, l, e);
    match op
    case Enter(_) =>
    case Drain => CountDrained(l.queue.history, e);
    case Approve(id) => ResolveKeepsPlaces(before, op, id, true, e);
    case Deny(id) => ResolveKeepsPlaces(before, op, id, false, e);
  }

  /** Resolving moves one copy of the found entry from pending to the history. */
  lemma ResolveMoves(q: Queue, id: string, approved: bool, e: PendingAction)
    ensures var r, at := Resolve(q, id, approved), Position(q.pending, id);
            var moved := at.Some? && q.pending[at.value] == e;
            && multiset(q.pending)[e] == multiset(r.pending)[e] + Count(moved)
            && multiset(r.history)[(e, true)] == multiset(q.history)[(e, true)] + Count(moved && approved)
            && multiset(r.history)[(e, false)] == multiset(q.history)[(e, false)] + Count(moved && !approved)
  {
    var at := Position(q.pending, id);
    if at.Some? {
      CountRemoved(q.pending, at.value);
    }
  }

  lemma ResolveKeepsPlaces(before: seq<Op>, op: Op, id: string, approved: bool, e: PendingAction)
    requires op == if approved then Op.Approve(id) else Op.Deny(id)
    requires FreshIds(before) && forall x :: InItsPlace(before, After(before), x)
    ensures InItsPlace(before + [op], After(before + [op]), e)
  {
    hide FreshIds, FateOf, After, Position, Resolve, Entered;
    var l := After(before);
    SnocStep(before, op, e);
    FateSnoc(before, op, e.id);
    WaitingIsPending(before, id);
    assert InItsPlace(before, l, e);
    ResolveMoves(l.queue, id, approved, e);
    var at := Position(l.queue.pending, id);
    if at.Some? {
      var entry := l.queue.pending[at.value];
      assert entry in l.queue.pending;
      if Entered(before, e) && e.id == id {
        EnteredOnce(before, e, entry);
      }
    }
  }

  /** No action runs without approval and none runs twice: over every run with fresh ids, each entry is once in
      exactly the place its fate tells (pending, approved, denied or drained) and nowhere else. */
  lemma {:induction false} EveryEntryInItsPlace(ops: seq<Op>, e: PendingAction)
    requires FreshIds(ops)
    ensures InItsPlace(ops, After(ops), e)
  {
    if ops != [] {
      var before, op := ops[..|ops| - 1], ops[|ops| - 1];
      assert ops == before + [op];
      FreshPrefix(before, op);
      forall x
        ensures InItsPlace(before, After(before), x)
      {
        EveryEntryInItsPlace(before, x);
      }
      StepKeepsPlaces(before, op, e);
    }
  }

  /** The entry handed in under an id. */
  function EntryOf(ops: seq<Op>, id: string): Option<PendingAction> {
    if ops == [] then None
    else match ops[|ops| - 1]
      case Enter(e) => if e.id == id then Some(e) else EntryOf(ops[..|ops| - 1], id)
      case _ => EntryOf(ops[..|ops| - 1], id)
  }

  /** The entries approved, in order of approval, told from the operations alone. */
  function ApprovalOrder(ops: seq<Op>): seq<PendingAction> {
    if ops == [] then []
    else
      var before := ops[..|ops| - 1];
      var earlier := ApprovalOrder(before);
      match ops[|ops| - 1]
      case Approve(id) =>
        var entry := EntryOf(before, id);
        if FateOf(before, id) == Waiting && entry.Some? then earlier + [entry.value] else earlier
      case _ => earlier
  }

  lemma {:induction false} EntryOfEntered(ops: seq<Op>, e: PendingAction)
    requires FreshIds(ops) && Entered(ops, e)
    ensures EntryOf(ops, e.id) == Some(e)
  {
    var before, op := ops[..|ops| - 1], ops[|ops| - 1];
    assert ops == before + [op];
    FreshPrefix(before, op);
    if op.Enter? && op.entry.id == e.id {
      assert Entered(ops, op.entry);
      EnteredOnce(ops, op.entry, e);
    } else {
      assert Entered(before, e);
      EntryOfEntered(before, e);
    }
  }

  lemma AfterSnoc(before: seq<Op>, op: Op)
    ensures After(before + [op]) == Step(After(before), op)
  {
    assert (before + [op])[..|before|] == before;
  }

  /** What was drained and what is approved and not yet drained. */
  function Accounted(l: Ledger): seq<PendingAction> {
    l.drained + Approved(l.queue.history)
  }

  /** One operation moves entries towards the drain, and only an approval adds one. */
  lemma StepAccounts(before: seq<Op>, op: Op)
    requires FreshIds(before)
    ensures ApprovalOrder(before) == Accounted(After(before)) ==>
              ApprovalOrder(before + [op]) == Accounted(Step(After(before), op))
    ensures op == Drain ==> Step(After(before), op).drained == Accounted(Step(After(before), op))
  {
    hide FreshIds, FateOf, After, EntryOf, Position, Resolve;
    assert (before + [op])[..|before|] == before;
    match op
    case Enter(_) =>
    case Drain => NoneApproved(After(before).queue.history);
    case Approve(id) => ApprovalAppends(before, id);
    case Deny(id) => HistorySnoc(After(before).queue, id, false);
  }

  lemma NothingApproved()
    ensures Accounted(After([])) == ApprovalOrder([]) == []
  {
  }

  /** What was drained so far, followed by what is approved and not yet drained, is what was approved, in order
      of approval. Right after a drain nothing is left to follow. */
  lemma {:induction false} DrainsFollowApprovals(ops: seq<Op>)
    requires FreshIds(ops)
    ensures After(ops).drained + Approved(After(ops).queue.history) == ApprovalOrder(ops)
    ensures ops != [] && ops[|ops| - 1] == Drain ==> After(ops).drained == ApprovalOrder(ops)
  {
    hide Step, Approved, FreshIds, ApprovalOrder, After;
    if ops == [] {
      NothingApproved();
    } else {
      var before, op := ops[..|ops| - 1], ops[|ops| - 1];
      assert ops == before + [op];
      FreshPrefix(before, op);
      DrainsFollowApprovals(before);
      AfterSnoc(before, op);
      StepAccounts(before, op);
    }
  }

  lemma {:induction false} NoneApproved(history: seq<Resolved>)
    ensures Approved(Unapproved(history)) == []
  {
    if history != [] {
      NoneApproved(history[..|history| - 1]);
      var rest, last := Unapproved(history[..|history| - 1]), history[|history| - 1];
      assert (rest + [last])[..|rest|] == rest;
    }
  }

  lemma HistorySnoc(q: Queue, id: string, approved: bool)
    ensures var at := Position(q.pending, id);
            Approved(Resolve(q, id, approved).history)
            == Approved(q.history) + (if approved && at.Some? then [q.pending[at.value]] else [])
  {
    var at := Position(q.pending, id);
    if at.Some? {
      assert (q.history + [(q.pending[at.value], approved)])[..|q.history|] == q.history;
    }
  }

  lemma ApprovalAppends(before: seq<Op>, id: string)
    requires FreshIds(before)
    ensures var l := Step(After(before), Op.Approve(id));
            After(before).drained + Approved(After(before).queue.history) == ApprovalOrder(before) ==>
              l.drained + Approved(l.queue.history) == ApprovalOrder(before + [Op.Approve(id)])
  {
    hide FreshIds, FateOf, After, Position, InItsPlace, Entered, EntryOf;
    var l := After(before);
    assert (before + [Op.Approve(id)])[..|before|] == before;
    forall e
      ensures InItsPlace(before, l, e)
    {
      EveryEntryInItsPlace(before, e);
    }
    WaitingIsPending(before, id);
    HistorySnoc(l.queue, id, true);
    var at := Position(l.queue.pending, id);
    if at.Some? {
      var entry := l.queue.pending[at.value];
      assert entry in l.queue.pending;
      EntryOfEntered(before, entry);
    }
  }

  /** A tick of the executor on the queue of a run extends what it ran by exactly what the drain adds: if it had
      run everything drained before, it now has run everything approved, once each and in order of approval. */
  lemma ExecutedInOrder(ops: seq<Op>, executed: seq<AgentAction>)
    requires FreshIds(ops) && executed == Actions(After(ops).drained)
    ensures executed + Actions(Approved(After(ops).queue.history)) == Actions(ApprovalOrder(ops))
  {
    DrainsFollowApprovals(ops);
    assert Actions(After(ops).drained) + Actions(Approved(After(ops).queue.history)) == Actions(ApprovalOrder(ops));
  }
}
