/**
  What the gates of packages/algorithm/policy_store.py guarantee over whole runs: validated
  content, two persons for financial impact, and the runs that go around them.
*/
module PolicyGates {
  import opened Common
  import opened Graphs
  import opened PolicyModel
  import opened PolicyValidator
  import opened BranchCoverage
  import opened PolicyStore

  // ----- The validation gate -----

  ghost predicate HasStatus(t: Tables, id: VersionId, s: Status) {
    id in t.versions && t.versions[id].status == s
  }

  ghost predicate CleanVersion(t: Tables, id: VersionId) {
    ValidGraph(NodesOf(t, id), EdgesOf(t, id))
  }

  /** A bare `transition_version_status` of `id`, outside its dedicated function. */
  ghost predicate Bare(op: Operation, id: VersionId, to: Status) {
    op.TransitionStatus? && op.id == id && op.to == to
  }

  ghost predicate PassesGate(t: Tables, op: Operation, id: VersionId) {
    op.SubmitForApproval? && op.id == id && GateOpens(NodesOf(t, id), EdgesOf(t, id), op.roles, op.dossierApproved)
  }

  /** A version becomes approved through the validation gate, or through a bare transition
      that skips it. */
  lemma {:induction false} ApprovalIff(t: Tables, op: Operation, id: VersionId)
    requires id in t.versions && t.versions[id].status != Approved
    ensures HasStatus(Next(t, op), id, Approved) <==>
            HasStatus(t, id, RiskReview) && (PassesGate(t, op, id) || Bare(op, id, Approved))
  {
    hide GateOpens, HasImpact, InsertNodes, InsertEdges;
    if AddsContent(op) {
      ContentGrows(t, op);
    } else if op.Activate? && op.id in t.versions {
      var current := ActiveOf(t, t.versions[op.id].graph) - {op.id};
      if current != {} { assert Least(current) in current; }
    }
  }

  /** One operation moves a version along one allowed edge or not at all, keeps its graph and
      author, and only adding content touches its content. */
  lemma {:induction false} VersionStep(t: Tables, op: Operation, id: VersionId)
    requires id in t.versions
    ensures var u := Next(t, op);
            && id in u.versions
            && u.versions[id].graph == t.versions[id].graph && u.versions[id].createdBy == t.versions[id].createdBy
            && (u.versions[id].status != t.versions[id].status ==>
                CanTransition(t.versions[id].status, u.versions[id].status))
            && NodesOf(t, id) <= NodesOf(u, id) && EdgesOf(t, id) <= EdgesOf(u, id)
            && (!AddsContent(op) ==> NodesOf(t, id) == NodesOf(u, id) && EdgesOf(t, id) == EdgesOf(u, id))
            && (AddsContent(op) ==> u.versions[id].status == t.versions[id].status)
  {
    hide GateOpens, HasImpact, InsertNodes, InsertEdges;
    if AddsContent(op) {
      ContentGrows(t, op);
    } else if op.Activate? && op.id in t.versions {
      var current := ActiveOf(t, t.versions[op.id].graph) - {op.id};
      if current != {} { assert Least(current) in current; }
    }
  }

  /** A version the operation brings into being is an empty draft. */
  lemma {:induction false} Newborn(t: Tables, op: Operation, id: VersionId)
    requires id !in t.versions && id in Next(t, op).versions
    ensures HasStatus(Next(t, op), id, Draft)
    ensures NodesOf(Next(t, op), id) == [] && EdgesOf(Next(t, op), id) == []
  {
    hide GateOpens, HasImpact, InsertNodes, InsertEdges;
    if AddsContent(op) { ContentGrows(t, op); }
  }

  predicate Names<T>(ps: seq<Placed<T>>, id: VersionId) {
    exists i :: 0 <= i < |ps| && ps[i].version == id
  }

  lemma {:induction false} InsertNodesHits(vs: Versions, ps: seq<Placed<Node>>, id: VersionId)
    requires InsertNodes(vs, ps).Some? && id in vs
    ensures var us := InsertNodes(vs, ps).value;
            id in us && us[id].edges == vs[id].edges && (us[id].nodes == vs[id].nodes <==> !Names(ps, id))
  {
    InsertNodesGrow(vs, ps);
    if ps != [] {
      var init := ps[..|ps| - 1];
      InsertNodesHits(vs, init, id);
      InsertNodesGrow(vs, init);
      assert Names(ps, id) <==> Names(init, id) || ps[|ps| - 1].version == id by {
        if Names(init, id) {
          var i :| 0 <= i < |init| && init[i].version == id;
          assert ps[i].version == id;
        }
      }
      assert |InsertNodes(vs, init).value[id].nodes| >= |vs[id].nodes|;
    }
  }

  lemma {:induction false} InsertEdgesHits(vs: Versions, ps: seq<Placed<PolicyEdge>>, id: VersionId)
    requires InsertEdges(vs, ps).Some? && id in vs
    ensures var us := InsertEdges(vs, ps).value;
            id in us && us[id].nodes == vs[id].nodes && (us[id].edges == vs[id].edges <==> !Names(ps, id))
  {
    InsertEdgesGrow(vs, ps);
    if ps != [] {
      var init := ps[..|ps| - 1];
      InsertEdgesHits(vs, init, id);
      InsertEdgesGrow(vs, init);
      assert Names(ps, id) <==> Names(init, id) || ps[|ps| - 1].version == id by {
        if Names(init, id) {
          var i :| 0 <= i < |init| && init[i].version == id;
          assert ps[i].version == id;
        }
      }
      assert |InsertEdges(vs, init).value[id].edges| >= |vs[id].edges|;
    }
  }

  /** The operation's list is accepted and holds an item for `id`. */
  ghost predicate Reaches(t: Tables, op: Operation, id: VersionId) {
    && Execute(t, op).Committed?
    && ((op.AddNodes? && Names(op.nodes, id)) || (op.AddEdges? && Names(op.edges, id)))
  }

  /** The content of an approved or active version changes exactly when an accepted list holds
      an item for it; the guard on the first item lets that happen only in a list that also
      holds items for another version. */
  lemma {:induction false} FrozenContentIff(t: Tables, op: Operation, id: VersionId)
    requires id in t.versions && Frozen(t.versions[id].status)
    ensures !SameContent(t, Next(t, op), id) <==> Reaches(t, op, id)
    ensures Reaches(t, op, id) ==> !OneVersion(op)
  {
    if AddsContent(op) && Execute(t, op).Committed? {
      ContentGrows(t, op);
      if op.AddNodes? && op.nodes != [] {
        InsertNodesHits(t.versions, op.nodes, id);
      } else if op.AddEdges? && op.edges != [] {
        InsertEdgesHits(t.versions, op.edges, id);
      }
    } else {
      VersionStep(t, op, id);
    }
  }

  /** A list whose first item is for a draft puts an edge into an active version. */
  lemma {:induction false} MixedListReaches(t: Tables, e: PolicyEdge)
    requires HasStatus(t, 0, Draft) && HasStatus(t, 1, Active)
    ensures Reaches(t, AddEdges([Placed(0, e), Placed(1, e)]), 1)
  {
    var p, q := Placed(0, e), Placed(1, e);
    assert [p, q][..1] == [p] && [p][..0] == [];
    assert InsertEdges(t.versions, []) == Some(t.versions);
    assert InsertEdges(t.versions, [p]) == InsertEdge(t.versions, p);
    assert InsertEdges(t.versions, [p, q]) == InsertEdge(InsertEdge(t.versions, p).value, q);
    assert [p, q][1].version == 1;
  }

  predicate EverApproved(s: Status) {
    s == Approved || s == Active || s == Suspended || s == Retired
  }

  ghost predicate SameContent(t: Tables, u: Tables, id: VersionId) {
    NodesOf(t, id) == NodesOf(u, id) && EdgesOf(t, id) == EdgesOf(u, id)
  }

  /** Approved, active or suspended. */
  predicate InUse(s: Status) { EverApproved(s) && s != Retired }

  /** Some operation changed the content of `id` while it was approved, active or suspended. */
  ghost predicate GrewInUse(ops: seq<Operation>, id: VersionId) {
    ops != [] &&
    var before := ops[..|ops| - 1];
    || GrewInUse(before, id)
    || (id in Run(before).versions && InUse(Run(before).versions[id].status) && !SameContent(Run(before), Run(ops), id))
  }

  /** ... while it was suspended. */
  ghost predicate GrewSuspended(ops: seq<Operation>, id: VersionId) {
    ops != [] &&
    var before := ops[..|ops| - 1];
    GrewSuspended(before, id) || (HasStatus(Run(before), id, Suspended) && !SameContent(Run(before), Run(ops), id))
  }

  /** Where each list of items is for one version, content in use grows only while suspended. */
  lemma {:induction false} GrowsOnlySuspended(ops: seq<Operation>, id: VersionId)
    requires OneVersionEach(ops)
    ensures GrewInUse(ops, id) <==> GrewSuspended(ops, id)
  {
    if ops != [] {
      var before, op := ops[..|ops| - 1], ops[|ops| - 1];
      assert op in ops && forall o :: o in before ==> o in ops;
      GrowsOnlySuspended(before, id);
      if id in Run(before).versions {
        VersionStep(Run(before), op, id);
        if AddsContent(op) { ContentGrows(Run(before), op); }
      }
      assert Run(ops) == Next(Run(before), op);
      hide Next, OneVersion, Grown, Run;
    }
  }

  /** `id` is never approved by a bare transition. */
  ghost predicate Gated(ops: seq<Operation>, id: VersionId) {
    forall op :: op in ops ==> !Bare(op, id, Approved)
  }

  ghost predicate OneVersionEach(ops: seq<Operation>) {
    forall op :: op in ops ==> OneVersion(op)
  }

  /** The `i`-th operation approved `id` through the gate. */
  ghost predicate GatedAt(ops: seq<Operation>, id: VersionId, i: nat) {
    i < |ops| && HasStatus(Run(ops[..i]), id, RiskReview) && PassesGate(Run(ops[..i]), ops[i], id)
  }

  lemma {:induction false} GatedEarlier(ops: seq<Operation>, id: VersionId, i: nat)
    requires ops != [] && GatedAt(ops[..|ops| - 1], id, i)
    ensures GatedAt(ops, id, i) && ops[..|ops| - 1][..i] == ops[..i]
  {
    assert ops[..|ops| - 1][..i] == ops[..i];
  }

  lemma {:induction false} NeverApprovedNeverGrew(ops: seq<Operation>, id: VersionId)
    requires id in Run(ops).versions ==> !EverApproved(Run(ops).versions[id].status)
    ensures !GrewInUse(ops, id)
  {
    hide AllowedTransitions;
    if ops != [] {
      var before, op := ops[..|ops| - 1], ops[|ops| - 1];
      if id in Run(before).versions {
        VersionStep(Run(before), op, id);
        StaysApproved(Run(before).versions[id].status, Run(ops).versions[id].status);
      }
      NeverApprovedNeverGrew(before, id);
    }
  }

  lemma {:induction false} StaysApproved(a: Status, b: Status)
    requires a == b || CanTransition(a, b)
    ensures EverApproved(a) ==> EverApproved(b)
    ensures !EverApproved(a) && EverApproved(b) ==> b == Approved
    ensures b == Approved || b == Active || b == Suspended ==> a != Retired
  {
  }

  ghost predicate KeptWhole(ops: seq<Operation>, id: VersionId, i: nat)
    requires i <= |ops|
  {
    SameContent(Run(ops[..i]), Run(ops), id) <==> !GrewInUse(ops, id)
  }

  /** Without a bare approval, a version that is or ever was approved went through the gate
      without a finding, and has kept all the content the gate saw. While it is in use, its
      content is what the gate saw exactly unless something was added since. */
  lemma {:induction false} ApprovedThroughGate(ops: seq<Operation>, id: VersionId) returns (i: nat)
    requires Gated(ops, id) && id in Run(ops).versions && EverApproved(Run(ops).versions[id].status)
    ensures GatedAt(ops, id, i) && CleanVersion(Run(ops[..i]), id)
    ensures NodesOf(Run(ops[..i]), id) <= NodesOf(Run(ops), id) && EdgesOf(Run(ops[..i]), id) <= EdgesOf(Run(ops), id)
    ensures InUse(Run(ops).versions[id].status) ==> KeptWhole(ops, id, i)
  {
    hide CleanVersion, AllowedTransitions, Execute, Next, ValidGraph;
    var before, op := ops[..|ops| - 1], ops[|ops| - 1];
    var t := Run(before);
    assert op in ops && forall o :: o in before ==> o in ops;
    assert Run(ops) == Next(t, op);
    if id !in t.versions {
      Newborn(t, op, id);
      assert false;
    } else {
      VersionStep(t, op, id);
      StaysApproved(t.versions[id].status, Run(ops).versions[id].status);
      if EverApproved(t.versions[id].status) {
        i := ApprovedThroughGate(before, id);
        GatedEarlier(ops, id, i);
        if InUse(Run(ops).versions[id].status) {
          KeptStep(ops, id, i);
        }
      } else {
        ApprovalIff(t, op, id);
        NeverApprovedNeverGrew(before, id);
        assert PassesGate(t, op, id);
        assert CleanVersion(t, id) by { GateIsClean(t, op, id); }
        i := |before|;
        assert ops[..i] == before;
      }
    }
  }

  /** What the gate had checked: a valid graph, roles that existed, and an approved dossier where
      a node has financial impact. */
  lemma {:induction false} GatedChecks(ops: seq<Operation>, id: VersionId, i: nat)
    requires GatedAt(ops, id, i)
    ensures CleanVersion(Run(ops[..i]), id) && ops[i].SubmitForApproval?
    ensures forall n :: n in NodesOf(Run(ops[..i]), id) && n.requiredRole.Some? ==>
              n.requiredRole.value in ops[i].roles
    ensures (exists n :: n in NodesOf(Run(ops[..i]), id) && n.financialImpact) ==> ops[i].dossierApproved
  {
    hide ValidGraph, Run;
  }

  lemma {:induction false} GateIsClean(t: Tables, op: Operation, id: VersionId)
    requires PassesGate(t, op, id)
    ensures CleanVersion(t, id)
  {
  }

  lemma {:induction false} KeptStep(ops: seq<Operation>, id: VersionId, i: nat)
    requires ops != [] && i < |ops| - 1
    requires id in Run(ops[..|ops| - 1]).versions && InUse(Run(ops[..|ops| - 1]).versions[id].status)
    requires KeptWhole(ops[..|ops| - 1], id, i) && ops[..|ops| - 1][..i] == ops[..i]
    requires var t, u := Run(ops[..i]), Run(ops[..|ops| - 1]);
             NodesOf(t, id) <= NodesOf(u, id) && EdgesOf(t, id) <= EdgesOf(u, id)
    ensures KeptWhole(ops, id, i)
  {
    hide Execute, Next, Guard;
    VersionStep(Run(ops[..|ops| - 1]), ops[|ops| - 1], id);
  }

  /** Validated content stays validated: an active version that was never approved by a bare
      transition is valid, unless something was added while it was in use. */
  lemma {:induction false} ActiveIsClean(ops: seq<Operation>, id: VersionId)
    requires Gated(ops, id) && HasStatus(Run(ops), id, Active) && !GrewInUse(ops, id)
    ensures CleanVersion(Run(ops), id)
  {
    var i := ApprovedThroughGate(ops, id);
  }

  // ----- Two persons for financial impact -----

  /** Who made the last transition of `id`. */
  function LastActor(log: seq<Transition>, id: VersionId): Option<Person> {
    if log == [] then None
    else
      var e := log[|log| - 1];
      if e.version == id then Some(e.changedBy) else LastActor(log[..|log| - 1], id)
  }

  /** An active version with financial impact that its own author activated. */
  ghost predicate SelfActivated(t: Tables, id: VersionId) {
    HasStatus(t, id, Active) && HasImpact(t.versions[id]) && LastActor(t.log, id) == Some(t.versions[id].createdBy)
  }

  lemma {:induction false} MovedActor(t: Tables, v: VersionId, to: Status, actor: Person, id: VersionId)
    requires v in t.versions
    ensures LastActor(Moved(t, v, to, actor).log, id) == if v == id then Some(actor) else LastActor(t.log, id)
  {
    assert Moved(t, v, to, actor).log[..|t.log|] == t.log;
  }

  lemma {:induction false} ActivationActor(t: Tables, op: Operation, id: VersionId)
    requires op.Activate? && op.id in t.versions && id in t.versions && !SelfActivated(t, id)
    ensures !SelfActivated(Next(t, op), id)
  {
    hide HasImpact, LastActor;
    var current := ActiveOf(t, t.versions[op.id].graph) - {op.id};
    var u := Superseded(t, current, op.actor);
    if current != {} {
      assert Least(current) in current;
      MovedActor(t, Least(current), Suspended, op.actor, id);
    }
    MovedActor(u, op.id, Active, op.actor, id);
    ImpactOfContent(t.versions[id], u.versions[id]);
    if op.id == id && Execute(t, op).Committed? {
      ImpactOfContent(t.versions[id], Next(t, op).versions[id]);
    } else if Execute(t, op).Committed? {
      assert Next(t, op).versions[id] == u.versions[id];
    }
  }

  lemma {:induction false} ImpactOfContent(v: Version, w: Version)
    requires v.nodes == w.nodes
    ensures HasImpact(v) == HasImpact(w)
  {
  }

  /** The operation gives an active version its first node with financial impact. */
  ghost predicate ImpactAdded(t: Tables, op: Operation, id: VersionId) {
    && AddsContent(op) && HasStatus(t, id, Active) && !HasImpact(t.versions[id])
    && id in Next(t, op).versions && HasImpact(Next(t, op).versions[id])
  }

  lemma {:induction false} ContentActor(t: Tables, op: Operation, id: VersionId)
    requires AddsContent(op) && id in t.versions && !SelfActivated(t, id)
    ensures SelfActivated(Next(t, op), id) <==>
            ImpactAdded(t, op, id) && LastActor(t.log, id) == Some(t.versions[id].createdBy)
    ensures OneVersion(op) ==> !ImpactAdded(t, op, id)
  {
    ContentGrows(t, op);
    hide LastActor, HasImpact, Next, Execute, OneVersion;
  }

  /** The author of a version with financial impact comes to have activated it in exactly two
      ways: by a bare transition, which skips the two-person test of `activate_version`, or when
      a list for several versions brings the impact into the version it had activated. */
  lemma {:induction false} SelfActivationIff(t: Tables, op: Operation, id: VersionId)
    requires id in t.versions && !SelfActivated(t, id)
    ensures SelfActivated(Next(t, op), id) <==>
            || (Bare(op, id, Active) && op.actor == t.versions[id].createdBy && HasImpact(t.versions[id])
                && (HasStatus(t, id, Approved) || HasStatus(t, id, Suspended)) && !IndexViolated(t, id, Active))
            || (ImpactAdded(t, op, id) && LastActor(t.log, id) == Some(t.versions[id].createdBy))
    ensures OneVersion(op) ==> !ImpactAdded(t, op, id)
  {
    if AddsContent(op) {
      ContentActor(t, op, id);
    } else if op.Activate? && op.id in t.versions {
      ActivationActor(t, op, id);
    } else {
      hide GateOpens, HasImpact, LastActor, SelfActivated, Moved, AllowedTransitions;
      if op.TransitionStatus? && op.id in t.versions {
        MovedSelf(t, op.id, op.to, op.actor, id);
        ActiveFrom(t.versions[op.id].status);
      } else if op.SubmitForApproval? && op.id in t.versions {
        MovedSelf(t, op.id, Approved, op.actor, id);
      } else if op.KillSwitch? && op.id in t.versions {
        MovedSelf(t, op.id, Suspended, op.actor, id);
      } else if op.CreateDraft? {
        assert !SelfActivated(Next(t, op), id) by { DraftSelf(t, op, id); }
      }
    }
  }

  lemma {:induction false} ActiveFrom(s: Status)
    ensures CanTransition(s, Active) <==> s == Approved || s == Suspended
  {
  }

  lemma {:induction false} DraftSelf(t: Tables, op: Operation, id: VersionId)
    requires op.CreateDraft? && id in t.versions && !SelfActivated(t, id)
    ensures !SelfActivated(Next(t, op), id)
  {
  }

  lemma {:induction false} MovedSelf(t: Tables, v: VersionId, to: Status, actor: Person, id: VersionId)
    requires v in t.versions && id in t.versions && !SelfActivated(t, id)
    ensures SelfActivated(Moved(t, v, to, actor), id) <==>
            v == id && to == Active && HasImpact(t.versions[id]) && actor == t.versions[id].createdBy
  {
    hide HasImpact, LastActor;
    MovedActor(t, v, to, actor, id);
    ImpactOfContent(t.versions[id], t.versions[id].(status := to));
  }

  /** Some operation brought financial impact into `id` while it was active. */
  ghost predicate ImpactGrew(ops: seq<Operation>, id: VersionId) {
    ops != [] && (ImpactGrew(ops[..|ops| - 1], id) || ImpactAdded(Run(ops[..|ops| - 1]), ops[|ops| - 1], id))
  }

  /** Where `id` is activated only through `activate_version`, its author is not the one who
      made it active while it has financial impact, unless the impact came afterwards, which
      takes a list for several versions. */
  lemma {:induction false} TwoPersons(ops: seq<Operation>, id: VersionId)
    requires forall op :: op in ops ==> !Bare(op, id, Active)
    ensures SelfActivated(Run(ops), id) ==> ImpactGrew(ops, id)
    ensures OneVersionEach(ops) ==> !ImpactGrew(ops, id)
  {
    hide SelfActivated, OneVersion, Execute, Next, ImpactAdded;
    if ops == [] {
      assert !SelfActivated(Run([]), id) by { NobodyYet(id); }
    } else {
      var before, op := ops[..|ops| - 1], ops[|ops| - 1];
      assert op in ops && forall o :: o in before ==> o in ops;
      TwoPersons(before, id);
      assert Run(ops) == Next(Run(before), op);
      if id !in Run(before).versions {
        NewbornNotSelfActivated(Run(before), op, id);
        assert !ImpactAdded(Run(before), op, id) by { NoneToAddTo(Run(before), op, id); }
      } else {
        if AddsContent(op) && OneVersion(op) { ImpactNeedsMany(Run(before), op, id); }
        if !SelfActivated(Run(before), id) { SelfActivationIff(Run(before), op, id); }
        if !AddsContent(op) { assert !ImpactAdded(Run(before), op, id) by { NoContentNoImpact(Run(before), op, id); } }
      }
    }
  }

  lemma {:induction false} NoneToAddTo(t: Tables, op: Operation, id: VersionId)
    requires id !in t.versions
    ensures !ImpactAdded(t, op, id)
  {
  }

  lemma {:induction false} NoContentNoImpact(t: Tables, op: Operation, id: VersionId)
    requires !AddsContent(op)
    ensures !ImpactAdded(t, op, id)
  {
  }

  lemma {:induction false} ImpactNeedsMany(t: Tables, op: Operation, id: VersionId)
    requires AddsContent(op) && OneVersion(op)
    ensures !ImpactAdded(t, op, id)
  {
    ContentGrows(t, op);
    hide HasImpact, Next, Execute, OneVersion;
  }

  lemma {:induction false} NobodyYet(id: VersionId)
    ensures !SelfActivated(EMPTY, id)
  {
  }

  lemma {:induction false} NewbornNotSelfActivated(t: Tables, op: Operation, id: VersionId)
    requires id !in t.versions
    ensures !SelfActivated(Next(t, op), id)
  {
    hide Execute, Next, HasImpact, LastActor;
    if id in Next(t, op).versions { Newborn(t, op, id); }
  }

  // ----- Runs that go around the gates -----

  lemma {:induction false} RunNext(ops: seq<Operation>, op: Operation)
    ensures Run(ops + [op]) == Next(Run(ops), op)
  {
    assert (ops + [op])[..|ops|] == ops;
  }

  /** A bare transition of the only version there is. */
  lemma {:induction false} BareNext(ops: seq<Operation>, v: Version, to: Status)
    requires Run(ops).versions == map[0 := v] && CanTransition(v.status, to)
    ensures Run(ops + [TransitionStatus(0, to, 1)]).versions == map[0 := v.(status := to)]
    ensures LastActor(Run(ops + [TransitionStatus(0, to, 1)]).log, 0) == Some(1)
  {
    RunNext(ops, TransitionStatus(0, to, 1));
    hide Run, LastActor;
    assert 0 in Run(ops).versions && !IndexViolated(Run(ops), 0, to);
    MovedActor(Run(ops), 0, to, 1, 0);
  }

  const LONE_NODE: Node := Node(0, Rule, None, None, map[], map[], [], [], false, None)

  /** A draft holding one node. */
  lemma {:induction false} DraftOf(n: Node) returns (ops: seq<Operation>)
    ensures ops == [] + [CreateDraft(0, 0, 1)] + [AddNodes([Placed(0, n)])]
    ensures Run(ops).versions == map[0 := Version(0, Draft, 1, [n], [])]
  {
    var create, add := CreateDraft(0, 0, 1), AddNodes([Placed(0, n)]);
    ops := [] + [create] + [add];
    RunNext([], create);
    RunNext([] + [create], add);
    var t := Run([] + [create]);
    assert t.versions == map[0 := Version(0, Draft, 1, [], [])];
    hide Run;
    var p := Placed(0, n);
    assert [p][..0] == [];
    assert InsertNodes(t.versions, []) == Some(t.versions);
    assert InsertNodes(t.versions, [p]) == InsertNode(t.versions, p);
    assert [] + [n] == [n];
  }

  /** Bare transitions alone lead a version to `active`: never validated, with a dangling
      fallback, activated by the author of its financial impact. */
  lemma {:induction false} UngatedRun() returns (ops: seq<Operation>)
    ensures OneVersionEach(ops) && HasStatus(Run(ops), 0, Active)
    ensures !CleanVersion(Run(ops), 0) && SelfActivated(Run(ops), 0)
  {
    var n := LONE_NODE.(fallback := Some(5), financialImpact := true);
    ops := DraftOf(n);
    var v := Version(0, Draft, 1, [n], []);
    var steps := [Simulation, BusinessReview, RiskReview, Approved, Active];
    hide Run, LastActor, HasImpact;
    assert OneVersionEach(ops);
    for i := 0 to 5
      invariant OneVersionEach(ops)
      invariant Run(ops).versions == map[0 := v.(status := if i == 0 then Draft else steps[i - 1])]
      invariant i > 0 ==> LastActor(Run(ops).log, 0) == Some(1)
    {
      BareNext(ops, v.(status := if i == 0 then Draft else steps[i - 1]), steps[i]);
      ops := ops + [TransitionStatus(0, steps[i], 1)];
    }
    assert n in v.nodes && n.financialImpact;
    assert HasImpact(v.(status := Active)) by { ImpactShown(v.(status := Active), n); }
    assert !ReferencesResolve([n], []);
  }

  lemma {:induction false} ImpactShown(v: Version, n: Node)
    requires n in v.nodes && n.financialImpact
    ensures HasImpact(v)
  {
  }

  lemma {:induction false} LoneNodeStructure()
    ensures CleanStructure([LONE_NODE], [])
  {
    var nodes := [LONE_NODE];
    var g := Shape(nodes, []);
    assert Keys(nodes) == {0} by { assert LONE_NODE in nodes; }
    assert g.Keys == {0} == Incoming(nodes, []).Keys;
    forall x ensures !Unbounded(nodes, g, x) {
      if x in g && ReachPlus(g, x, x) {
        var z :| Edge(g, x, z) && Reach(g, z, x);
        ShapeEdge(nodes, [], x, z);
      }
    }
    hide Shape, Incoming, Unbounded;
    assert |Keys(nodes)| == 1 && Accessible(nodes, []);
    assert CleanEdges([], Keys(nodes)) == [];
  }

  lemma {:induction false} LoneNodeClean()
    ensures ValidGraph([LONE_NODE], []) && GateOpens([LONE_NODE], [], {}, false)
  {
    LoneNodeStructure();
    hide CleanStructure;
    assert forall n :: n in [LONE_NODE] ==> n == LONE_NODE;
  }

  lemma {:induction false} GateNext(ops: seq<Operation>, v: Version)
    requires Run(ops).versions == map[0 := v] && v.status == RiskReview && GateOpens(v.nodes, v.edges, {}, false)
    ensures Run(ops + [SubmitForApproval(0, 2, {}, false)]).versions == map[0 := v.(status := Approved)]
  {
    hide GateOpens;
    RunNext(ops, SubmitForApproval(0, 2, {}, false));
    hide Run;
    assert 0 in Run(ops).versions && NodesOf(Run(ops), 0) == v.nodes && EdgesOf(Run(ops), 0) == v.edges;
    assert CanTransition(RiskReview, Approved);
    hide AllowedTransitions;
  }

  lemma {:induction false} ActivateNext(ops: seq<Operation>, v: Version)
    requires Run(ops).versions == map[0 := v] && (v.status == Approved || v.status == Suspended) && !HasImpact(v)
    ensures Run(ops + [Activate(0, 2)]).versions == map[0 := v.(status := Active)]
  {
    RunNext(ops, Activate(0, 2));
    hide Run, HasImpact;
    var t := Run(ops);
    assert 0 in t.versions && t.versions[0] == v;
    assert ActiveOf(t, v.graph) - {0} == {};
    assert !IndexViolated(t, 0, Active);
  }

  lemma {:induction false} KillNext(ops: seq<Operation>, v: Version)
    requires Run(ops).versions == map[0 := v] && v.status == Active
    ensures Run(ops + [KillSwitch(0, 2, false)]).versions == map[0 := v.(status := Suspended)]
  {
    RunNext(ops, KillSwitch(0, 2, false));
    hide Run;
    assert 0 in Run(ops).versions;
  }

  lemma {:induction false} EdgeNext(ops: seq<Operation>, v: Version, e: PolicyEdge)
    requires Run(ops).versions == map[0 := v] && v.status == Suspended
    ensures Run(ops + [AddEdges([Placed(0, e)])]).versions == map[0 := v.(edges := v.edges + [e])]
  {
    var p := Placed(0, e);
    RunNext(ops, AddEdges([p]));
    hide Run;
    var t := Run(ops);
    assert 0 in t.versions && [p][..0] == [];
    assert InsertEdges(t.versions, []) == Some(t.versions);
    assert InsertEdges(t.versions, [p]) == InsertEdge(t.versions, p);
  }

  lemma {:induction false} ProperNext(ops: seq<Operation>, op: Operation)
    requires Gated(ops, 0) && OneVersionEach(ops) && !Bare(op, 0, Approved) && OneVersion(op)
    ensures Gated(ops + [op], 0) && OneVersionEach(ops + [op])
  {
  }

  /** The lone node, under risk review. */
  lemma {:induction false} ReviewedRun() returns (ops: seq<Operation>)
    ensures Gated(ops, 0) && OneVersionEach(ops)
    ensures Run(ops).versions == map[0 := Version(0, RiskReview, 1, [LONE_NODE], [])]
  {
    ops := DraftOf(LONE_NODE);
    var v := Version(0, Draft, 1, [LONE_NODE], []);
    var steps := [Simulation, BusinessReview, RiskReview];
    assert Gated(ops, 0) && OneVersionEach(ops);
    hide Run, LastActor, Gated, OneVersionEach;
    for i := 0 to 3
      invariant Gated(ops, 0) && OneVersionEach(ops)
      invariant Run(ops).versions == map[0 := v.(status := if i == 0 then Draft else steps[i - 1])]
    {
      BareNext(ops, v.(status := if i == 0 then Draft else steps[i - 1]), steps[i]);
      ProperNext(ops, TransitionStatus(0, steps[i], 1));
      ops := ops + [TransitionStatus(0, steps[i], 1)];
    }
  }

  /** The lone node, approved by the gate, activated and suspended again. */
  lemma {:induction false} SuspendedRun() returns (ops: seq<Operation>)
    ensures Gated(ops, 0) && OneVersionEach(ops)
    ensures Run(ops).versions == map[0 := Version(0, Suspended, 1, [LONE_NODE], [])]
  {
    ops := ReviewedRun();
    var v := Version(0, RiskReview, 1, [LONE_NODE], []);
    NoImpact(v.(status := Approved));
    LoneNodeClean();
    hide Run, GateOpens, ValidGraph, HasImpact, Gated, OneVersionEach;
    GateNext(ops, v);
    ProperNext(ops, SubmitForApproval(0, 2, {}, false));
    ops := ops + [SubmitForApproval(0, 2, {}, false)];
    ActivateNext(ops, v.(status := Approved));
    ProperNext(ops, Activate(0, 2));
    ops := ops + [Activate(0, 2)];
    KillNext(ops, v.(status := Active));
    ProperNext(ops, KillSwitch(0, 2, false));
    ops := ops + [KillSwitch(0, 2, false)];
  }

  /** Content added while suspended is never validated: a version that passed the gate is
      active again with a dangling edge. */
  lemma {:induction false} GrownRun() returns (ops: seq<Operation>)
    ensures Gated(ops, 0) && OneVersionEach(ops) && HasStatus(Run(ops), 0, Active)
    ensures !CleanVersion(Run(ops), 0)
  {
    ops := SuspendedRun();
    var v := Version(0, Suspended, 1, [LONE_NODE], []);
    var e := PolicyEdge(0, 5, None);
    var w := v.(edges := [] + [e]);
    NoImpact(w);
    DanglingUnclean(w.nodes, w.edges, e);
    hide Run, GateOpens, ValidGraph, HasImpact, Gated, OneVersionEach;
    EdgeNext(ops, v, e);
    ProperNext(ops, AddEdges([Placed(0, e)]));
    ops := ops + [AddEdges([Placed(0, e)])];
    ActivateNext(ops, w);
    ProperNext(ops, Activate(0, 2));
    ops := ops + [Activate(0, 2)];
  }

  lemma {:induction false} NoImpact(v: Version)
    requires v.nodes == [LONE_NODE]
    ensures !HasImpact(v)
  {
  }

  lemma {:induction false} DanglingUnclean(nodes: seq<Node>, edges: seq<PolicyEdge>, e: PolicyEdge)
    requires e in edges && e.to !in Keys(nodes)
    ensures !ValidGraph(nodes, edges)
  {
    assert !Resolved(nodes, e);
  }
}
