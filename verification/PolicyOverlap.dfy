/**
  Overlapping transactions on policy versions (packages/algorithm/policy_store.py). Each reads
  what it decides on without a lock, and its later writes name rows by id alone, so another
  transaction may commit in between.
*/
module PolicyOverlap {
  import opened Common
  import opened PolicyModel
  import opened PolicyValidator
  import opened BranchCoverage
  import opened PolicyStore
  import opened PolicyGates

  /** What an operation has read: the row it decides on, and for an activation the active
      versions of the graph to step down. */
  datatype View = View(row: Option<Version>, current: set<VersionId>)

  function RowOf(t: Tables, id: VersionId): Option<Version> {
    if id in t.versions then Some(t.versions[id]) else None
  }

  /** The version an operation decides on; for a list of items, that of the first one. */
  function Subject(op: Operation): Option<VersionId> {
    match op
    case CreateDraft(_, _, _) => None
    case AddNodes(ps) => if ps == [] then None else Some(ps[0].version)
    case AddEdges(ps) => if ps == [] then None else Some(ps[0].version)
    case TransitionStatus(id, _, _) => Some(id)
    case SubmitForApproval(id, _, _, _) => Some(id)
    case Activate(id, _) => Some(id)
    case KillSwitch(id, _, _) => Some(id)
  }

  function Look(t: Tables, op: Operation): View {
    var row := if Subject(op).Some? then RowOf(t, Subject(op).value) else None;
    View(row, if op.Activate? && row.Some? then ActiveOf(t, row.value.graph) - {op.id} else {})
  }

  /** A status update and its log entry, from the status that was read. */
  datatype Move = Move(id: VersionId, from: Status, to: Status, actor: Person)

  function Written(t: Tables, m: Move): Tables
    requires m.id in t.versions
  {
    Tables(t.versions[m.id := t.versions[m.id].(status := m.to)], t.log + [Transition(m.id, m.from, m.to, m.actor)])
  }

  function WriteMove(t: Tables, m: Move): Result {
    if m.id !in t.versions then RolledBack(NoSuchVersion)
    else if !CanTransition(m.from, m.to) then RolledBack(InvalidTransition)
    else if IndexViolated(t, m.id, m.to) then RolledBack(IntegrityViolation)
    else Committed(Written(t, m))
  }

  /** An activation's first move. */
  function StepDown(t: Tables, current: set<VersionId>, actor: Person): Tables {
    if current != {} && Least(current) in t.versions then Written(t, Move(Least(current), Active, Suspended, actor))
    else t
  }

  /** The writes of `op` on the tables as they are by now, decided by what it has read. */
  ghost function Write(t: Tables, op: Operation, view: View): Result {
    match op
    case CreateDraft(_, _, _) => Execute(t, op)
    case AddNodes(ps) =>
      if ps == [] then Committed(t)
      else if view.row == None then RolledBack(NoSuchVersion)
      else if Frozen(view.row.value.status) then RolledBack(ImmutableVersion)
      else Inserted(t, InsertNodes(t.versions, ps))
    case AddEdges(ps) =>
      if ps == [] then Committed(t)
      else if view.row == None then RolledBack(NoSuchVersion)
      else if Frozen(view.row.value.status) then RolledBack(ImmutableVersion)
      else Inserted(t, InsertEdges(t.versions, ps))
    case TransitionStatus(id, to, actor) =>
      if view.row == None then RolledBack(NoSuchVersion)
      else WriteMove(t, Move(id, view.row.value.status, to, actor))
    case SubmitForApproval(id, actor, roles, dossierApproved) =>
      if view.row == None || !GateOpens(view.row.value.nodes, view.row.value.edges, roles, dossierApproved) then
        RolledBack(GraphInvalid)
      else WriteMove(t, Move(id, view.row.value.status, Approved, actor))
    case Activate(id, actor) =>
      if view.row == None then RolledBack(NoSuchVersion)
      else if HasImpact(view.row.value) && actor == view.row.value.createdBy then RolledBack(MakerCheckerViolation)
      else WriteMove(StepDown(t, view.current, actor), Move(id, view.row.value.status, Active, actor))
    case KillSwitch(id, actor, blankReason) =>
      if blankReason then RolledBack(BlankReason)
      else if view.row == None then RolledBack(NoSuchVersion)
      else if view.row.value.status != Active then RolledBack(NotActive)
      else WriteMove(t, Move(id, Active, Suspended, actor))
  }

  datatype Asked = Asked(op: Operation, view: View)

  /** The committed tables, and the transactions under way by request. */
  datatype Database = Database(tables: Tables, asked: map<nat, Asked>)

  datatype Step = Whole(op: Operation) | Start(request: nat, op: Operation) | End(request: nat) | Drop(request: nat)

  function Outcome(t: Tables, r: Result): Tables {
    if r.Committed? then r.tables else t
  }

  ghost function Take(d: Database, s: Step): Database {
    match s
    case Whole(op) => d.(tables := Next(d.tables, op))
    case Start(r, op) => if r in d.asked then d else d.(asked := d.asked[r := Asked(op, Look(d.tables, op))])
    case End(r) =>
      if r !in d.asked then d
      else Database(Outcome(d.tables, Write(d.tables, d.asked[r].op, d.asked[r].view)), d.asked - {r})
    case Drop(r) => d.(asked := d.asked - {r})
  }

  ghost function RunSteps(ss: seq<Step>): Database {
    if ss == [] then Database(EMPTY, map[]) else Take(RunSteps(ss[..|ss| - 1]), ss[|ss| - 1])
  }

  lemma {:induction false} NextStep(ss: seq<Step>, i: nat)
    requires i < |ss|
    ensures RunSteps(ss[..i + 1]) == Take(RunSteps(ss[..i]), ss[i])
  {
    assert ss[..i + 1][..i] == ss[..i];
  }

  // ----- One active version survives -----

  lemma {:induction false} WrittenKeepsOneActive(t: Tables, m: Move)
    requires OneActive(t) && m.id in t.versions && !IndexViolated(t, m.id, m.to)
    ensures OneActive(Written(t, m))
  {
  }

  lemma {:induction false} MoveKeepsOneActive(t: Tables, m: Move)
    requires OneActive(t)
    ensures OneActive(Outcome(t, WriteMove(t, m)))
  {
    hide OneActive, AllowedTransitions;
    if WriteMove(t, m).Committed? { WrittenKeepsOneActive(t, m); }
  }

  lemma {:induction false} GrownKeepsOneActive(t: Tables, us: Versions)
    requires OneActive(t) && Grown(t.versions, us)
    ensures OneActive(t.(versions := us))
  {
  }

  lemma {:induction false} WriteKeepsOneActive(t: Tables, op: Operation, view: View)
    requires OneActive(t)
    ensures OneActive(Outcome(t, Write(t, op, view)))
  {
    hide OneActive, GateOpens, HasImpact, InsertNodes, InsertEdges, WriteMove, IndexViolated, Grown;
    match op
    case CreateDraft(_, _, _) => StepKeepsOneActive(t, op);
    case AddNodes(ps) =>
      if InsertNodes(t.versions, ps).Some? {
        InsertNodesGrow(t.versions, ps);
        GrownKeepsOneActive(t, InsertNodes(t.versions, ps).value);
      }
    case AddEdges(ps) =>
      if InsertEdges(t.versions, ps).Some? {
        InsertEdgesGrow(t.versions, ps);
        GrownKeepsOneActive(t, InsertEdges(t.versions, ps).value);
      }
    case TransitionStatus(id, to, actor) =>
      if view.row.Some? { MoveKeepsOneActive(t, Move(id, view.row.value.status, to, actor)); }
    case SubmitForApproval(id, actor, _, _) =>
      if view.row.Some? { MoveKeepsOneActive(t, Move(id, view.row.value.status, Approved, actor)); }
    case KillSwitch(id, actor, _) => MoveKeepsOneActive(t, Move(id, Active, Suspended, actor));
    case Activate(id, actor) =>
      var u := StepDown(t, view.current, actor);
      assert OneActive(u) by { StepDownKeeps(t, view.current, actor); }
      if view.row.Some? { MoveKeepsOneActive(u, Move(id, view.row.value.status, Active, actor)); }
  }

  lemma {:induction false} StepDownKeeps(t: Tables, current: set<VersionId>, actor: Person)
    requires OneActive(t)
    ensures OneActive(StepDown(t, current, actor))
  {
    hide OneActive;
    if current != {} && Least(current) in t.versions {
      WrittenKeepsOneActive(t, Move(Least(current), Active, Suspended, actor));
    }
  }

  /** However transactions overlap, no graph ever has two active versions: the index sees to it. */
  lemma {:induction false} OverlapKeepsOneActive(ss: seq<Step>)
    ensures OneActive(RunSteps(ss).tables)
  {
    hide OneActive, Next, Write;
    if ss == [] {
      assert OneActive(EMPTY) by { NoneActive(); }
    } else {
      var d, s := RunSteps(ss[..|ss| - 1]), ss[|ss| - 1];
      OverlapKeepsOneActive(ss[..|ss| - 1]);
      if s.Whole? { StepKeepsOneActive(d.tables, s.op); }
      if s.End? && s.request in d.asked {
        WriteKeepsOneActive(d.tables, d.asked[s.request].op, d.asked[s.request].view);
      }
    }
  }

  lemma {:induction false} NoneActive()
    ensures OneActive(EMPTY)
  {
  }

  // ----- Fresh reads make a transaction one operation -----

  lemma {:induction false} MoveIsTransit(t: Tables, id: VersionId, to: Status, actor: Person)
    requires id in t.versions
    ensures WriteMove(t, Move(id, t.versions[id].status, to, actor)) == Transit(t, id, to, actor)
  {
  }

  lemma {:induction false} StepDownIs(t: Tables, id: VersionId, actor: Person)
    requires id in t.versions
    ensures var current := ActiveOf(t, t.versions[id].graph) - {id};
            && StepDown(t, current, actor) == Superseded(t, current, actor)
            && id in StepDown(t, current, actor).versions
            && StepDown(t, current, actor).versions[id] == t.versions[id]
  {
    var current := ActiveOf(t, t.versions[id].graph) - {id};
    if current != {} { assert Least(current) in current; }
  }

  /** Writing on what is still there is the operation itself. */
  lemma {:induction false} WriteOnFresh(t: Tables, op: Operation)
    ensures Write(t, op, Look(t, op)) == Execute(t, op)
  {
    hide GateOpens, HasImpact, InsertNodes, InsertEdges, Transit, WriteMove, Superseded, StepDown;
    match op
    case CreateDraft(_, _, _) =>
    case AddNodes(_) =>
    case AddEdges(_) =>
    case TransitionStatus(id, to, actor) =>
      if id in t.versions { MoveIsTransit(t, id, to, actor); } else { TransitMissing(t, id, to, actor); }
    case SubmitForApproval(id, actor, _, _) =>
      if id in t.versions {
        MoveIsTransit(t, id, Approved, actor);
      } else {
        NothingUnclean(op.roles, op.dossierApproved);
      }
    case KillSwitch(id, actor, _) =>
      if id in t.versions { MoveIsTransit(t, id, Suspended, actor); }
    case Activate(id, actor) =>
      if id in t.versions {
        StepDownIs(t, id, actor);
        MoveIsTransit(StepDown(t, ActiveOf(t, t.versions[id].graph) - {id}, actor), id, Active, actor);
      }
  }

  lemma {:induction false} TransitMissing(t: Tables, id: VersionId, to: Status, actor: Person)
    requires id !in t.versions
    ensures Transit(t, id, to, actor) == RolledBack(NoSuchVersion)
  {
  }

  lemma {:induction false} NothingUnclean(roles: set<Role>, dossierApproved: bool)
    ensures !GateOpens([], [], roles, dossierApproved)
  {
    assert !Accessible([], []);
  }

  /** The step, if it ends a transaction, finds everything that was read as it was. */
  ghost predicate FreshEnd(d: Database, s: Step) {
    s.End? && s.request in d.asked ==> Look(d.tables, d.asked[s.request].op) == d.asked[s.request].view
  }

  /** The operation a step commits, if it commits one. */
  ghost function Commits(d: Database, s: Step): seq<Operation> {
    if s.Whole? then [s.op]
    else if s.End? && s.request in d.asked then [d.asked[s.request].op]
    else []
  }

  /** The operations of a run in the order they were committed. */
  ghost function InCommitOrder(ss: seq<Step>): seq<Operation> {
    if ss == [] then []
    else
      var before := ss[..|ss| - 1];
      InCommitOrder(before) + Commits(RunSteps(before), ss[|ss| - 1])
  }

  lemma {:induction false} FreshStep(d: Database, s: Step)
    requires FreshEnd(d, s)
    ensures Take(d, s).tables == if Commits(d, s) == [] then d.tables else Next(d.tables, Commits(d, s)[0])
  {
    hide Execute, Write, Look;
    if s.End? && s.request in d.asked { WriteOnFresh(d.tables, d.asked[s.request].op); }
  }

  /** A run in which every transaction ends on what it has read is a run of single operations:
      whatever holds of all of those holds of it. */
  lemma {:induction false} SerialWhenFresh(ss: seq<Step>)
    requires forall i: nat :: i < |ss| ==> FreshEnd(RunSteps(ss[..i]), ss[i])
    ensures RunSteps(ss).tables == Run(InCommitOrder(ss))
  {
    hide Next, Look, FreshEnd, Take;
    if ss != [] {
      var n := |ss| - 1;
      var before, s := ss[..n], ss[n];
      assert forall i: nat :: i < n ==> before[..i] == ss[..i];
      SerialWhenFresh(before);
      FreshStep(RunSteps(before), s);
      var committed := Commits(RunSteps(before), s);
      if committed == [] {
        assert InCommitOrder(ss) == InCommitOrder(before);
      } else {
        RunNext(InCommitOrder(before), committed[0]);
        assert committed == [committed[0]];
      }
    }
  }

  // ----- What the log still tells -----

  ghost predicate AllReplay(t: Tables) {
    forall id: VersionId {:trigger LogReplays(t, id)} :: LogReplays(t, id)
  }

  /** The moves a transaction commits, in order. */
  ghost function Moves(t: Tables, op: Operation, view: View): seq<Move> {
    if !Write(t, op, view).Committed? then []
    else
      match op
      case TransitionStatus(id, to, actor) => [Move(id, view.row.value.status, to, actor)]
      case SubmitForApproval(id, actor, _, _) => [Move(id, view.row.value.status, Approved, actor)]
      case KillSwitch(id, actor, _) => [Move(id, Active, Suspended, actor)]
      case Activate(id, actor) =>
        (if view.current != {} && Least(view.current) in t.versions
         then [Move(Least(view.current), Active, Suspended, actor)] else [])
        + [Move(id, view.row.value.status, Active, actor)]
      case _ => []
  }

  /** Each row the step moves still has the status that was read. */
  ghost predicate StillFrom(d: Database, s: Step) {
    s.End? && s.request in d.asked ==>
      forall m :: m in Moves(d.tables, d.asked[s.request].op, d.asked[s.request].view) ==>
        m.id in d.tables.versions && d.tables.versions[m.id].status == m.from
  }

  /** An activation steps others down, never the version it activates. */
  ghost predicate WellAsked(d: Database) {
    forall r :: r in d.asked && d.asked[r].op.Activate? ==> d.asked[r].op.id !in d.asked[r].view.current
  }

  lemma {:induction false} RunsWellAsked(ss: seq<Step>)
    ensures WellAsked(RunSteps(ss))
  {
    if ss != [] {
      RunsWellAsked(ss[..|ss| - 1]);
      assert RunSteps(ss) == Take(RunSteps(ss[..|ss| - 1]), ss[|ss| - 1]);
      hide RunSteps, Next, Write;
    }
  }

  lemma {:induction false} WrittenReplays(t: Tables, m: Move)
    requires AllReplay(t) && m.id in t.versions && CanTransition(m.from, m.to)
    ensures AllReplay(Written(t, m)) <==> t.versions[m.id].status == m.from
    ensures t.versions[m.id].status != m.from ==> !Chained(Written(t, m).log, m.id)
  {
    assert LogReplays(t, m.id);
    if t.versions[m.id].status == m.from {
      hide Chained, AllowedHistory, StatusHistory, AllowedTransitions;
      assert Written(t, m) == Moved(t, m.id, m.to, m.actor);
      forall id: VersionId ensures LogReplays(Written(t, m), id) {
        assert LogReplays(t, id);
        MovedReplays(t, m.id, m.to, m.actor, id);
      }
    } else {
      assert Written(t, m).log[..|t.log|] == t.log;
      assert !LogReplays(Written(t, m), m.id);
    }
  }

  lemma {:induction false} ChainedBefore(log: seq<Transition>, e: Transition, id: VersionId)
    requires Chained(log + [e], id)
    ensures Chained(log, id)
  {
    assert (log + [e])[..|log|] == log;
  }

  lemma {:induction false} MoveReplays(t: Tables, m: Move)
    requires AllReplay(t) && WriteMove(t, m).Committed?
    ensures AllReplay(WriteMove(t, m).tables) <==> t.versions[m.id].status == m.from
  {
    hide AllReplay, AllowedTransitions;
    WrittenReplays(t, m);
  }

  /** Both moves of an activation. */
  lemma {:induction false} TwoMovesReplay(t: Tables, m: Move, n: Move)
    requires AllReplay(t) && m.id in t.versions && m.id != n.id && CanTransition(m.from, m.to)
    requires WriteMove(Written(t, m), n).Committed?
    ensures AllReplay(WriteMove(Written(t, m), n).tables) <==>
              t.versions[m.id].status == m.from && t.versions[n.id].status == n.from
  {
    WrittenReplays(t, m);
    var u := Written(t, m);
    if t.versions[m.id].status == m.from {
      MoveReplays(u, n);
    } else {
      var w := Written(u, n);
      if Chained(w.log, m.id) { ChainedBefore(u.log, Transition(n.id, n.from, n.to, n.actor), m.id); }
      assert !LogReplays(w, m.id);
    }
  }

  lemma {:induction false} ActivationReplays(t: Tables, op: Operation, view: View)
    requires op.Activate? && op.id !in view.current && AllReplay(t) && Write(t, op, view).Committed?
    ensures AllReplay(Write(t, op, view).tables) <==>
              forall m :: m in Moves(t, op, view) ==> m.id in t.versions && t.versions[m.id].status == m.from
  {
    hide AllReplay, HasImpact, GateOpens;
    var n := Move(op.id, view.row.value.status, Active, op.actor);
    if view.current != {} && Least(view.current) in t.versions {
      var m := Move(Least(view.current), Active, Suspended, op.actor);
      assert m.id in view.current;
      CanSuspend();
      TwoMovesReplay(t, m, n);
      assert forall x :: x in Moves(t, op, view) <==> x == m || x == n;
    } else {
      MoveReplays(t, n);
      assert forall x :: x in Moves(t, op, view) <==> x == n;
    }
  }

  lemma {:induction false} WriteReplays(t: Tables, op: Operation, view: View)
    requires AllReplay(t) && (op.Activate? ==> op.id !in view.current)
    ensures AllReplay(Outcome(t, Write(t, op, view))) <==>
              forall m :: m in Moves(t, op, view) ==> m.id in t.versions && t.versions[m.id].status == m.from
  {
    hide AllReplay, GateOpens, HasImpact, WriteMove, InsertNodes, InsertEdges;
    if Write(t, op, view).Committed? {
      match op
      case TransitionStatus(id, to, actor) => MoveReplays(t, Move(id, view.row.value.status, to, actor));
        assert WriteMove(t, Move(id, view.row.value.status, to, actor)).Committed?;
        CommitsInTable(t, Move(id, view.row.value.status, to, actor));
      case SubmitForApproval(id, actor, _, _) =>
        MoveReplays(t, Move(id, view.row.value.status, Approved, actor));
        CommitsInTable(t, Move(id, view.row.value.status, Approved, actor));
      case KillSwitch(id, actor, _) =>
        MoveReplays(t, Move(id, Active, Suspended, actor));
        CommitsInTable(t, Move(id, Active, Suspended, actor));
      case Activate(_, _) => ActivationReplays(t, op, view);
      case CreateDraft(_, _, _) => NoMoveReplays(t, op, view);
      case AddNodes(_) => NoMoveReplays(t, op, view);
      case AddEdges(_) => NoMoveReplays(t, op, view);
    }
  }

  lemma {:induction false} CommitsInTable(t: Tables, m: Move)
    requires WriteMove(t, m).Committed?
    ensures m.id in t.versions
  {
  }

  lemma {:induction false} NoMoveReplays(t: Tables, op: Operation, view: View)
    requires AllReplay(t) && (op.CreateDraft? || AddsContent(op))
    ensures AllReplay(Outcome(t, Write(t, op, view)))
  {
    var u := Outcome(t, Write(t, op, view));
    if op.AddNodes? && InsertNodes(t.versions, op.nodes).Some? { InsertNodesGrow(t.versions, op.nodes); }
    if op.AddEdges? && InsertEdges(t.versions, op.edges).Some? { InsertEdgesGrow(t.versions, op.edges); }
    hide Chained, AllowedHistory, StatusHistory, InsertNodes, InsertEdges;
    forall id: VersionId ensures LogReplays(u, id) {
      assert LogReplays(t, id);
      if op.CreateDraft? { StepReplays(t, op, id); }
    }
  }

  lemma {:induction false} TakeReplays(d: Database, s: Step)
    requires AllReplay(d.tables) && WellAsked(d)
    ensures AllReplay(Take(d, s).tables) <==> StillFrom(d, s)
  {
    hide Write, Moves;
    if s.Whole? {
      hide Next, LogReplays;
      forall id: VersionId ensures LogReplays(Next(d.tables, s.op), id) {
        assert LogReplays(d.tables, id);
        StepReplays(d.tables, s.op, id);
      }
    } else if s.End? && s.request in d.asked {
      hide AllReplay;
      WriteReplays(d.tables, d.asked[s.request].op, d.asked[s.request].view);
    }
  }

  lemma {:induction false} ReplaysUpTo(ss: seq<Step>, k: nat)
    requires k <= |ss| && forall i: nat :: i < k ==> StillFrom(RunSteps(ss[..i]), ss[i])
    ensures AllReplay(RunSteps(ss[..k]).tables)
  {
    hide AllReplay, StillFrom, Take;
    if k == 0 {
      assert ss[..0] == [];
      EmptyReplays();
    } else {
      ReplaysUpTo(ss, k - 1);
      NextStep(ss, k - 1);
      RunsWellAsked(ss[..k - 1]);
      TakeReplays(RunSteps(ss[..k - 1]), ss[k - 1]);
    }
  }

  lemma {:induction false} EmptyReplays()
    ensures AllReplay(EMPTY)
  {
  }

  /** All along a run every version's log replays, entry by entry from the status the last one
      left, to its current status exactly when each update still finds the status it read. */
  lemma {:induction false} LogReplaysIff(ss: seq<Step>)
    ensures (forall k: nat :: k <= |ss| ==> AllReplay(RunSteps(ss[..k]).tables)) <==>
            forall i: nat :: i < |ss| ==> StillFrom(RunSteps(ss[..i]), ss[i])
  {
    hide AllReplay, StillFrom, Take, RunSteps;
    if forall i: nat :: i < |ss| ==> StillFrom(RunSteps(ss[..i]), ss[i]) {
      forall k: nat | k <= |ss| ensures AllReplay(RunSteps(ss[..k]).tables) { ReplaysUpTo(ss, k); }
    }
    if forall k: nat :: k <= |ss| ==> AllReplay(RunSteps(ss[..k]).tables) {
      forall i: nat | i < |ss| ensures StillFrom(RunSteps(ss[..i]), ss[i]) {
        assert AllReplay(RunSteps(ss[..i]).tables) && AllReplay(RunSteps(ss[..i + 1]).tables);
        NextStep(ss, i);
        RunsWellAsked(ss[..i]);
        TakeReplays(RunSteps(ss[..i]), ss[i]);
      }
    }
  }

  /** And then the lifecycle's promises hold under overlap too: a version that was ever active
      went through every review once and in order, and nothing follows a rejection or retirement. */
  lemma {:induction false} HistoriesSurvive(ss: seq<Step>, id: VersionId, k: nat)
    requires forall i: nat :: i < |ss| ==> StillFrom(RunSteps(ss[..i]), ss[i])
    requires k < |StatusHistory(RunSteps(ss).tables.log, id)|
    ensures var s := StatusHistory(RunSteps(ss).tables.log, id);
            && (s[k] == Active ==> |s| >= 6 && s[..6] == LINE)
            && (s[k] == Rejected || s[k] == Retired ==> k == |s| - 1)
  {
    ReplaysUpTo(ss, |ss|);
    assert ss[..|ss|] == ss;
    hide RunSteps, StillFrom;
    var s := StatusHistory(RunSteps(ss).tables.log, id);
    assert LogReplays(RunSteps(ss).tables, id);
    if s[k] == Active { ActiveWasReviewed(s, k); }
    HistoryShape(s, k);
  }

  // ----- What the content guard still keeps -----

  /** The rows themselves take the list. */
  ghost predicate Insertable(t: Tables, op: Operation) {
    && (op.AddNodes? ==> InsertNodes(t.versions, op.nodes).Some?)
    && (op.AddEdges? ==> InsertEdges(t.versions, op.edges).Some?)
  }

  lemma {:induction false} ForOneNames<T>(ps: seq<Placed<T>>, id: VersionId)
    requires ForOne(ps)
    ensures Names(ps, id) <==> ps != [] && ps[0].version == id
  {
  }

  /** Content that is frozen by now changes exactly when a list for its version had its guard
      read while the version could still change. */
  lemma {:induction false} LateContentIff(t: Tables, op: Operation, view: View, id: VersionId)
    requires AddsContent(op) && OneVersion(op)
    requires id in t.versions && Frozen(t.versions[id].status)
    ensures !SameContent(t, Outcome(t, Write(t, op, view)), id) <==>
            Subject(op) == Some(id) && view.row.Some? && !Frozen(view.row.value.status) && Insertable(t, op)
  {
    hide InsertNodes, InsertEdges;
    match op
    case AddNodes(ps) =>
      ForOneNames(ps, id);
      if InsertNodes(t.versions, ps).Some? { InsertNodesHits(t.versions, ps, id); }
    case AddEdges(ps) =>
      ForOneNames(ps, id);
      if InsertEdges(t.versions, ps).Some? { InsertEdgesHits(t.versions, ps, id); }
  }

  // ----- Two requests at once -----

  function Serial(ops: seq<Operation>): seq<Step> {
    seq(|ops|, i requires 0 <= i < |ops| => Whole(ops[i]))
  }

  lemma {:induction false} SerialIs(ops: seq<Operation>)
    ensures RunSteps(Serial(ops)) == Database(Run(ops), map[])
  {
    if ops != [] {
      SerialIs(ops[..|ops| - 1]);
      assert Serial(ops)[..|ops| - 1] == Serial(ops[..|ops| - 1]);
      assert Serial(ops)[|ops| - 1] == Whole(ops[|ops| - 1]);
    }
  }

  lemma {:induction false} StepAfter(ss: seq<Step>, s: Step)
    ensures RunSteps(ss + [s]) == Take(RunSteps(ss), s)
  {
    assert (ss + [s])[..|ss|] == ss;
  }

  lemma {:induction false} EndAfter(ss: seq<Step>, r: nat, asked: Asked)
    requires r in RunSteps(ss).asked && RunSteps(ss).asked[r] == asked
    ensures RunSteps(ss + [End(r)]).tables ==
            Outcome(RunSteps(ss).tables, Write(RunSteps(ss).tables, asked.op, asked.view))
  {
    StepAfter(ss, End(r));
    hide Write, RunSteps;
  }

  /** Two people decide at once: the log says approved, then rejected from risk review, and
      the version the first one approved is rejected. */
  lemma {:induction false} ApprovedAndRejected() returns (ss: seq<Step>)
    ensures RunSteps(ss).tables.log != [] && HasStatus(RunSteps(ss).tables, 0, Rejected)
    ensures !AllReplay(RunSteps(ss).tables)
  {
    var ops := ReviewedRun();
    var v := Version(0, RiskReview, 1, [LONE_NODE], []);
    var yes, no := TransitionStatus(0, Approved, 1), TransitionStatus(0, Rejected, 2);
    var a := Serial(ops) + [Start(0, yes)];
    var b := a + [Start(1, no)];
    var c := b + [End(0)];
    ss := c + [End(1)];
    SerialIs(ops);
    StepAfter(Serial(ops), Start(0, yes));
    StepAfter(a, Start(1, no));
    StepAfter(b, End(0));
    StepAfter(c, End(1));
    hide RunSteps, Run, Serial, AllReplay;
    var t := Run(ops);
    assert t.versions == map[0 := v] && 0 in t.versions;
    var view := View(Some(v), {});
    assert RunSteps(b).asked == map[0 := Asked(yes, view), 1 := Asked(no, view)];
    var u := Written(t, Move(0, RiskReview, Approved, 1));
    assert RunSteps(c).tables == u;
    assert RunSteps(ss).tables == Written(u, Move(0, RiskReview, Rejected, 2));
    SecondDecision(t, u);
  }

  lemma {:induction false} SecondDecision(t: Tables, u: Tables)
    requires 0 in t.versions && u == Written(t, Move(0, RiskReview, Approved, 1))
    ensures !AllReplay(Written(u, Move(0, RiskReview, Rejected, 2)))
  {
    var w := Written(u, Move(0, RiskReview, Rejected, 2));
    assert w.log[..|u.log|] == u.log && u.log[..|t.log|] == t.log;
    assert !LogReplays(w, 0);
  }

  /** An edge whose guard was read while the version could still change. */
  lemma {:induction false} EdgeLands(t: Tables, v: Version, w: Version, e: PolicyEdge)
    requires t.versions == map[0 := w] && !Frozen(v.status)
    ensures Write(t, AddEdges([Placed(0, e)]), View(Some(v), {})) ==
            PolicyStore.Committed(t.(versions := map[0 := w.(edges := w.edges + [e])]))
  {
    var p := Placed(0, e);
    assert 0 in t.versions && [p][..0] == [];
    assert InsertEdges(t.versions, []) == Some(t.versions);
    assert InsertEdges(t.versions, [p]) == InsertEdge(t.versions, p);
    assert t.versions[0 := w.(edges := w.edges + [e])] == map[0 := w.(edges := w.edges + [e])];
  }

  /** The gate approves the reviewed version. */
  lemma {:induction false} ReviewedApproved(ops: seq<Operation>, v: Version, submit: Operation)
    requires v == Version(0, RiskReview, 1, [LONE_NODE], []) && Run(ops).versions == map[0 := v]
    requires submit == SubmitForApproval(0, 2, {}, false)
    ensures Next(Run(ops), submit).versions == map[0 := v.(status := Approved)]
  {
    hide Run, GateOpens;
    LoneNodeClean();
    GateNext(ops, v);
    RunNext(ops, submit);
  }

  /** The gate approves a version while an insert that has read its guard is under way. */
  lemma {:induction false} ApprovedMeanwhile(ops: seq<Operation>, v: Version, add: Operation, submit: Operation)
    requires v == Version(0, RiskReview, 1, [LONE_NODE], []) && Run(ops).versions == map[0 := v]
    requires submit == SubmitForApproval(0, 2, {}, false)
    requires add.AddEdges? && add.edges != [] && add.edges[0].version == 0
    ensures var d := RunSteps(Serial(ops) + [Start(0, add)] + [Whole(submit)]);
            && d.tables.versions == map[0 := v.(status := Approved)]
            && d.asked == map[0 := Asked(add, View(Some(v), {}))]
  {
    SerialIs(ops);
    StepAfter(Serial(ops), Start(0, add));
    StepAfter(Serial(ops) + [Start(0, add)], Whole(submit));
    ReviewedApproved(ops, v, submit);
    hide RunSteps, Run, Serial, Next;
    assert 0 in Run(ops).versions && Look(Run(ops), add) == View(Some(v), {});
  }

  /** Its edge lands, and dangles. */
  lemma {:induction false} LandsUnclean(ss: seq<Step>, v: Version, e: PolicyEdge)
    requires v.nodes == [LONE_NODE] && v.edges == [] && !Frozen(v.status) && e == PolicyEdge(0, 5, None)
    requires RunSteps(ss).tables.versions == map[0 := v.(status := Approved)]
    requires RunSteps(ss).asked == map[0 := Asked(AddEdges([Placed(0, e)]), View(Some(v), {}))]
    ensures var t := RunSteps(ss + [End(0)]).tables; HasStatus(t, 0, Approved) && !CleanVersion(t, 0)
  {
    EndAfter(ss, 0, Asked(AddEdges([Placed(0, e)]), View(Some(v), {})));
    EdgeLands(RunSteps(ss).tables, v, v.(status := Approved), e);
    DanglingUnclean([LONE_NODE], [] + [e], e);
    hide RunSteps, Write, ValidGraph;
  }

  /** An edge whose guard was read before the approval lands after it: the version is approved
      through the gate, was never suspended, and its content is not what the gate saw. */
  lemma {:induction false} LateContent() returns (ss: seq<Step>)
    ensures |ss| > 1 && ss[|ss| - 2] == Whole(SubmitForApproval(0, 2, {}, false)) && ss[|ss| - 1] == End(0)
    ensures HasStatus(RunSteps(ss).tables, 0, Approved) && !CleanVersion(RunSteps(ss).tables, 0)
  {
    var ops := ReviewedRun();
    var v := Version(0, RiskReview, 1, [LONE_NODE], []);
    var e := PolicyEdge(0, 5, None);
    var add, submit := AddEdges([Placed(0, e)]), SubmitForApproval(0, 2, {}, false);
    hide RunSteps, Run, Serial, CleanVersion;
    ApprovedMeanwhile(ops, v, add, submit);
    LandsUnclean(Serial(ops) + [Start(0, add)] + [Whole(submit)], v, e);
    ss := Serial(ops) + [Start(0, add)] + [Whole(submit)] + [End(0)];
  }
}
