/**
  The policy version lifecycle (packages/algorithm/policy_lifecycle.py) and the store
  operations that fill versions and move them through it (packages/algorithm/policy_store.py).
*/
module PolicyStore {
  import opened Common
  import opened PolicyModel
  import opened PolicyValidator
  import opened BranchCoverage

  type VersionId = nat
  type GraphId = nat
  type Person = nat

  datatype Status =
    | Draft | Simulation | BusinessReview | RiskReview | Approved | Active | Retired | Rejected | Suspended

  function AllowedTransitions(s: Status): set<Status> {
    match s
    case Draft => {Simulation}
    case Simulation => {BusinessReview, Rejected}
    case BusinessReview => {RiskReview, Rejected}
    case RiskReview => {Approved, Rejected}
    case Approved => {Active}
    case Active => {Retired, Suspended}
    case Suspended => {Active, Retired}
    case Retired => {}
    case Rejected => {}
  }

  predicate CanTransition(from: Status, to: Status) { to in AllowedTransitions(from) }

  datatype Version = Version(
    graph: GraphId, status: Status, createdBy: Person, nodes: seq<Node>, edges: seq<PolicyEdge>
  )

  predicate HasImpact(v: Version) { exists n :: n in v.nodes && n.financialImpact }

  /** A node or an edge, with the version it is inserted for. */
  datatype Placed<T> = Placed(version: VersionId, content: T)

  datatype Transition = Transition(version: VersionId, from: Status, to: Status, changedBy: Person)

  /** The two tables: versions and the append-only transition log. */
  datatype Tables = Tables(versions: map<VersionId, Version>, log: seq<Transition>)

  datatype Error =
    | NoSuchVersion | InvalidTransition | IntegrityViolation | GraphInvalid | MakerCheckerViolation
    | BlankReason | NotActive | ImmutableVersion | DuplicateVersion

  /** The partial unique index: another version of the graph is already active. */
  predicate IndexViolated(t: Tables, id: VersionId, to: Status)
    requires id in t.versions
  {
    && to == Active
    && exists v :: v in t.versions && v != id
                   && t.versions[v].graph == t.versions[id].graph && t.versions[v].status == Active
  }

  function Moved(t: Tables, id: VersionId, to: Status, actor: Person): Tables
    requires id in t.versions
  {
    Tables(t.versions[id := t.versions[id].(status := to)], t.log + [Transition(id, t.versions[id].status, to, actor)])
  }

  datatype Result = Committed(tables: Tables) | RolledBack(error: Error)

  /** `transition_version_status`. */
  function Transit(t: Tables, id: VersionId, to: Status, actor: Person): Result {
    if id !in t.versions then RolledBack(NoSuchVersion)
    else if !CanTransition(t.versions[id].status, to) then RolledBack(InvalidTransition)
    else if IndexViolated(t, id, to) then RolledBack(IntegrityViolation)
    else Committed(Moved(t, id, to, actor))
  }

  /** The active versions of a graph. */
  function ActiveOf(t: Tables, g: GraphId): set<VersionId> {
    set v | v in t.versions && t.versions[v].graph == g && t.versions[v].status == Active
  }

  /** The gate before approval: a valid graph, roles that exist, and an approved dossier where
      some node has financial impact. */
  ghost predicate GateOpens(nodes: seq<Node>, edges: seq<PolicyEdge>, roles: set<Role>, dossierApproved: bool) {
    && ValidGraph(nodes, edges)
    && (forall n :: n in nodes && n.requiredRole.Some? ==> n.requiredRole.value in roles)
    && ((exists n :: n in nodes && n.financialImpact) ==> dossierApproved)
  }

  /** One caller's transaction. For the gate, `roles` are those that exist and
      `dossierApproved` tells of the version's research dossier. */
  datatype Operation =
    | CreateDraft(id: VersionId, graph: GraphId, createdBy: Person)
    | AddNodes(nodes: seq<Placed<Node>>)
    | AddEdges(edges: seq<Placed<PolicyEdge>>)
    | TransitionStatus(id: VersionId, to: Status, actor: Person)
    | SubmitForApproval(id: VersionId, actor: Person, roles: set<Role>, dossierApproved: bool)
    | Activate(id: VersionId, actor: Person)
    | KillSwitch(id: VersionId, actor: Person, blankReason: bool)

  type Versions = map<VersionId, Version>

  /** One row; an unknown version or a key the version already has is refused. */
  function InsertNode(vs: Versions, p: Placed<Node>): Option<Versions> {
    if p.version !in vs || p.content.key in Keys(vs[p.version].nodes) then None
    else Some(vs[p.version := vs[p.version].(nodes := vs[p.version].nodes + [p.content])])
  }

  function InsertNodes(vs: Versions, ps: seq<Placed<Node>>): Option<Versions> {
    if ps == [] then Some(vs)
    else
      match InsertNodes(vs, ps[..|ps| - 1])
      case None => None
      case Some(us) => InsertNode(us, ps[|ps| - 1])
  }

  function InsertEdge(vs: Versions, p: Placed<PolicyEdge>): Option<Versions> {
    if p.version !in vs then None
    else Some(vs[p.version := vs[p.version].(edges := vs[p.version].edges + [p.content])])
  }

  function InsertEdges(vs: Versions, ps: seq<Placed<PolicyEdge>>): Option<Versions> {
    if ps == [] then Some(vs)
    else
      match InsertEdges(vs, ps[..|ps| - 1])
      case None => None
      case Some(us) => InsertEdge(us, ps[|ps| - 1])
  }

  /** Content is immutable. */
  predicate Frozen(s: Status) { s == Approved || s == Active }

  /** The content guard looks at the version of the first item alone. */
  function Guard(t: Tables, id: VersionId): Option<Error> {
    if id !in t.versions then Some(NoSuchVersion)
    else if Frozen(t.versions[id].status) then Some(ImmutableVersion)
    else None
  }

  function Inserted(t: Tables, vs: Option<Versions>): Result {
    match vs
    case None => RolledBack(IntegrityViolation)
    case Some(us) => Committed(t.(versions := us))
  }

  function NodesOf(t: Tables, id: VersionId): seq<Node> {
    if id in t.versions then t.versions[id].nodes else []
  }

  function EdgesOf(t: Tables, id: VersionId): seq<PolicyEdge> {
    if id in t.versions then t.versions[id].edges else []
  }

  /** The last step of `activate_version`, after the current active version has stepped down. */
  function Superseded(t: Tables, current: set<VersionId>, actor: Person): Tables {
    if current == {} then t
    else
      var v := Least(current);
      if v in t.versions then Moved(t, v, Suspended, actor) else t
  }

  /** Two versions of one graph are never active together. */
  ghost predicate OneActive(t: Tables) {
    forall u, v :: u in t.versions && v in t.versions && u != v && t.versions[u].graph == t.versions[v].graph ==>
      !(t.versions[u].status == Active && t.versions[v].status == Active)
  }

  ghost function Execute(t: Tables, op: Operation): Result {
    match op
    case CreateDraft(id, graph, createdBy) =>
      if id in t.versions then RolledBack(DuplicateVersion)
      else Committed(t.(versions := t.versions[id := Version(graph, Draft, createdBy, [], [])]))
    case AddNodes(ps) =>
      if ps == [] then Committed(t)
      else if Guard(t, ps[0].version).Some? then RolledBack(Guard(t, ps[0].version).value)
      else Inserted(t, InsertNodes(t.versions, ps))
    case AddEdges(ps) =>
      if ps == [] then Committed(t)
      else if Guard(t, ps[0].version).Some? then RolledBack(Guard(t, ps[0].version).value)
      else Inserted(t, InsertEdges(t.versions, ps))
    case TransitionStatus(id, to, actor) => Transit(t, id, to, actor)
    case SubmitForApproval(id, actor, roles, dossierApproved) =>
      if !GateOpens(NodesOf(t, id), EdgesOf(t, id), roles, dossierApproved) then RolledBack(GraphInvalid)
      else Transit(t, id, Approved, actor)
    case Activate(id, actor) =>
      if id !in t.versions then RolledBack(NoSuchVersion)
      else if HasImpact(t.versions[id]) && actor == t.versions[id].createdBy then RolledBack(MakerCheckerViolation)
      else Transit(Superseded(t, ActiveOf(t, t.versions[id].graph) - {id}, actor), id, Active, actor)
    case KillSwitch(id, actor, blankReason) =>
      if blankReason then RolledBack(BlankReason)
      else if id !in t.versions then RolledBack(NoSuchVersion)
      else if t.versions[id].status != Active then RolledBack(NotActive)
      else Transit(t, id, Suspended, actor)
  }

  ghost function Next(t: Tables, op: Operation): Tables {
    match Execute(t, op)
    case Committed(u) => u
    case RolledBack(_) => t
  }

  const EMPTY: Tables := Tables(map[], [])

  ghost function Run(ops: seq<Operation>): Tables {
    if ops == [] then EMPTY else Next(Run(ops[..|ops| - 1]), ops[|ops| - 1])
  }

  /** Is some required role missing? */
  method UnknownRole(nodes: seq<Node>, roles: set<Role>) returns (unknown: bool)
    ensures unknown <==> exists n :: n in nodes && n.requiredRole.Some? && n.requiredRole.value !in roles
  {
    var required := set n | n in nodes && n.requiredRole.Some? :: n.requiredRole.value;
    unknown := required - roles != {};
    if n :| n in nodes && n.requiredRole.Some? && n.requiredRole.value !in roles {
      assert n.requiredRole.value in required - roles;
    }
    if r: Role :| r in required - roles {
      var n :| n in nodes && n.requiredRole == Some(r);
    }
  }

  /** The checks of `submit_for_approval` together. */
  method GateFindsIssues(nodes: seq<Node>, edges: seq<PolicyEdge>, roles: set<Role>, dossierApproved: bool)
    returns (found: bool)
    ensures found <==> !GateOpens(nodes, edges, roles, dossierApproved)
    ensures found <==>
              || !ValidGraph(nodes, edges)
              || (exists n :: n in nodes && n.requiredRole.Some? && n.requiredRole.value !in roles)
              || (!dossierApproved && exists n :: n in nodes && n.financialImpact)
  {
    hide ValidGraph, CoverageFindings;
    var structure, coverage := ValidateGraph(nodes, edges);
    var unknown := UnknownRole(nodes, roles);
    var missingDossier := (exists n :: n in nodes && n.financialImpact) && !dossierApproved;
    found := structure != [] || coverage != [] || unknown || missingDossier;
  }

  // ----- The store itself -----

  class Store {
    var tables: Tables

    constructor ()
      ensures tables == EMPTY
    {
      tables := EMPTY;
    }

    /** Updates the status and appends to the log, or raises before writing. */
    method TransitionVersionStatus(id: VersionId, to: Status, actor: Person) returns (error: Option<Error>)
      modifies this
      ensures match Transit(old(tables), id, to, actor)
              case Committed(u) => error == None && tables == u
              case RolledBack(e) => error == Some(e) && tables == old(tables)
    {
      if id !in tables.versions {
        return Some(NoSuchVersion);
      }
      var from := tables.versions[id].status;
      if !CanTransition(from, to) {
        return Some(InvalidTransition);
      }
      if IndexViolated(tables, id, to) {
        return Some(IntegrityViolation);
      }
      var log := tables.log + [Transition(id, from, to, actor)];
      tables := Tables(tables.versions[id := tables.versions[id].(status := to)], log);
      error := None;
    }

    /** Raising may leave the suspension of the current version written; the caller's
        transaction undoes it. */
    method ActivateVersion(id: VersionId, actor: Person) returns (error: Option<Error>)
      requires OneActive(tables)
      modifies this
      ensures match Execute(old(tables), Activate(id, actor))
              case Committed(u) => error == None && tables == u
              case RolledBack(e) => error == Some(e)
    {
      if id !in tables.versions {
        return Some(NoSuchVersion);
      }
      var row := tables.versions[id];
      if HasImpact(row) && actor == row.createdBy {
        return Some(MakerCheckerViolation);
      }
      var current := ActiveOf(tables, row.graph) - {id};
      if current != {} {
        var v := Least(current);
        AtMostOneOther(tables, id);
        var e := TransitionVersionStatus(v, Suspended, actor);
      }
      error := TransitionVersionStatus(id, Active, actor);
    }

    method KillSwitchVersion(id: VersionId, actor: Person, blankReason: bool) returns (error: Option<Error>)
      modifies this
      ensures match Execute(old(tables), KillSwitch(id, actor, blankReason))
              case Committed(u) => error == None && tables == u
              case RolledBack(e) => error == Some(e) && tables == old(tables)
    {
      if blankReason {
        return Some(Error.BlankReason);
      }
      if id !in tables.versions {
        return Some(NoSuchVersion);
      }
      if tables.versions[id].status != Active {
        return Some(NotActive);
      }
      error := TransitionVersionStatus(id, Suspended, actor);
    }

    /** The gate: every check runs, and any finding stops the version. */
    method SubmitVersion(id: VersionId, actor: Person, roles: set<Role>, dossierApproved: bool)
      returns (error: Option<Error>)
      modifies this
      ensures match Execute(old(tables), SubmitForApproval(id, actor, roles, dossierApproved))
              case Committed(u) => error == None && tables == u
              case RolledBack(e) => error == Some(e) && tables == old(tables)
    {
      hide GateOpens;
      var found := GateFindsIssues(NodesOf(tables, id), EdgesOf(tables, id), roles, dossierApproved);
      if found {
        return Some(GraphInvalid);
      }
      error := TransitionVersionStatus(id, Approved, actor);
    }

    /** Raising may leave earlier items written; the caller's transaction undoes them. */
    method AddNodesTo(items: seq<Placed<Node>>) returns (error: Option<Error>)
      modifies this
      ensures match Execute(old(tables), AddNodes(items))
              case Committed(u) => error == None && tables == u
              case RolledBack(e) => error == Some(e)
    {
      if items == [] {
        return None;
      }
      error := Guard(tables, items[0].version);
      if error.Some? {
        return;
      }
      for i := 0 to |items|
        invariant tables.log == old(tables).log
        invariant InsertNodes(old(tables).versions, items[..i]) == Some(tables.versions)
      {
        assert items[..i + 1][..i] == items[..i];
        var inserted := InsertNode(tables.versions, items[i]);
        if inserted == None {
          RefusedStays(old(tables).versions, items, i + 1);
          return Some(IntegrityViolation);
        }
        tables := tables.(versions := inserted.value);
      }
      assert items[..|items|] == items;
    }

    method AddEdgesTo(items: seq<Placed<PolicyEdge>>) returns (error: Option<Error>)
      modifies this
      ensures match Execute(old(tables), AddEdges(items))
              case Committed(u) => error == None && tables == u
              case RolledBack(e) => error == Some(e)
    {
      if items == [] {
        return None;
      }
      error := Guard(tables, items[0].version);
      if error.Some? {
        return;
      }
      for i := 0 to |items|
        invariant tables.log == old(tables).log
        invariant InsertEdges(old(tables).versions, items[..i]) == Some(tables.versions)
      {
        assert items[..i + 1][..i] == items[..i];
        var inserted := InsertEdge(tables.versions, items[i]);
        if inserted == None {
          RefusedEdgeStays(old(tables).versions, items, i + 1);
          return Some(IntegrityViolation);
        }
        tables := tables.(versions := inserted.value);
      }
      assert items[..|items|] == items;
    }

    /** The caller's transaction around `activate_version`. */
    method ActivateInTransaction(id: VersionId, actor: Person) returns (error: Option<Error>)
      requires OneActive(tables)
      modifies this
      ensures tables == Next(old(tables), Activate(id, actor))
      ensures error == None <==> Execute(old(tables), Activate(id, actor)).Committed?
    {
      var before := tables;
      error := ActivateVersion(id, actor);
      if error.Some? {
        tables := before;
      }
    }
  }

  lemma {:induction false} RefusedStays(vs: Versions, ps: seq<Placed<Node>>, i: nat)
    requires i <= |ps| && InsertNodes(vs, ps[..i]) == None
    ensures InsertNodes(vs, ps) == None
    decreases |ps|
  {
    if i < |ps| {
      assert ps[..|ps| - 1][..i] == ps[..i];
      RefusedStays(vs, ps[..|ps| - 1], i);
    } else {
      assert ps[..i] == ps;
    }
  }

  lemma {:induction false} RefusedEdgeStays(vs: Versions, ps: seq<Placed<PolicyEdge>>, i: nat)
    requires i <= |ps| && InsertEdges(vs, ps[..i]) == None
    ensures InsertEdges(vs, ps) == None
    decreases |ps|
  {
    if i < |ps| {
      assert ps[..|ps| - 1][..i] == ps[..i];
      RefusedEdgeStays(vs, ps[..|ps| - 1], i);
    } else {
      assert ps[..i] == ps;
    }
  }

  // ----- Content only grows -----

  /** The same versions with the same graph, status and author, and no content lost. */
  ghost predicate Grown(vs: Versions, us: Versions) {
    && us.Keys == vs.Keys
    && forall v :: v in vs ==>
         && us[v] == vs[v].(nodes := us[v].nodes, edges := us[v].edges)
         && vs[v].nodes <= us[v].nodes && vs[v].edges <= us[v].edges
  }

  /** Only content of the version `id` differs. */
  ghost predicate OnlyIn(vs: Versions, us: Versions, id: VersionId) {
    forall v :: v in vs && v in us && v != id ==> us[v] == vs[v]
  }

  ghost predicate ForOne<T>(ps: seq<Placed<T>>) {
    forall i :: 0 <= i < |ps| ==> ps[i].version == ps[0].version
  }

  lemma {:induction false} InsertNodesGrow(vs: Versions, ps: seq<Placed<Node>>)
    requires InsertNodes(vs, ps).Some?
    ensures Grown(vs, InsertNodes(vs, ps).value)
    ensures ps != [] && ForOne(ps) ==> OnlyIn(vs, InsertNodes(vs, ps).value, ps[0].version)
  {
    if ps != [] {
      InsertNodesGrow(vs, ps[..|ps| - 1]);
      if |ps| > 1 { assert ps[..|ps| - 1][0] == ps[0]; }
    }
  }

  lemma {:induction false} InsertEdgesGrow(vs: Versions, ps: seq<Placed<PolicyEdge>>)
    requires InsertEdges(vs, ps).Some?
    ensures Grown(vs, InsertEdges(vs, ps).value)
    ensures ps != [] && ForOne(ps) ==> OnlyIn(vs, InsertEdges(vs, ps).value, ps[0].version)
  {
    if ps != [] {
      InsertEdgesGrow(vs, ps[..|ps| - 1]);
      if |ps| > 1 { assert ps[..|ps| - 1][0] == ps[0]; }
    }
  }

  ghost predicate AddsContent(op: Operation) { op.AddNodes? || op.AddEdges? }

  /** All items of the list belong to one version. */
  ghost predicate OneVersion(op: Operation) {
    (op.AddNodes? ==> ForOne(op.nodes)) && (op.AddEdges? ==> ForOne(op.edges))
  }

  /** Adding content grows versions and touches neither status nor log; a list for one version
      leaves approved and active versions alone. */
  lemma {:induction false} ContentGrows(t: Tables, op: Operation)
    requires AddsContent(op)
    ensures var u := Next(t, op);
            && u.log == t.log && Grown(t.versions, u.versions)
            && (OneVersion(op) ==>
                  forall v :: v in t.versions && Frozen(t.versions[v].status) ==> u.versions[v] == t.versions[v])
  {
    match op
    case AddNodes(ps) =>
      if InsertNodes(t.versions, ps).Some? { InsertNodesGrow(t.versions, ps); }
    case AddEdges(ps) =>
      if InsertEdges(t.versions, ps).Some? { InsertEdgesGrow(t.versions, ps); }
  }

  // ----- One active version per graph -----

  lemma {:induction false} AtMostOneOther(t: Tables, id: VersionId)
    requires OneActive(t) && id in t.versions
    ensures var current := ActiveOf(t, t.versions[id].graph) - {id};
            current != {} ==> forall v :: v in current ==> v == Least(current)
  {
    var current := ActiveOf(t, t.versions[id].graph) - {id};
    if current != {} {
      forall v | v in current ensures v == Least(current) {
        assert Least(current) in current;
      }
    }
  }

  lemma {:induction false} MovedKeepsOneActive(t: Tables, id: VersionId, to: Status, actor: Person)
    requires OneActive(t) && id in t.versions && !IndexViolated(t, id, to)
    ensures OneActive(Moved(t, id, to, actor))
  {
  }

  /** After the current version stepped down, the index cannot be violated: activation never
      depends on it. */
  lemma {:induction false} SupersededClearsTheWay(t: Tables, id: VersionId, actor: Person)
    requires OneActive(t) && id in t.versions
    ensures var u := Superseded(t, ActiveOf(t, t.versions[id].graph) - {id}, actor);
            && OneActive(u) && id in u.versions && u.versions[id] == t.versions[id]
            && !IndexViolated(u, id, Active)
  {
    var current := ActiveOf(t, t.versions[id].graph) - {id};
    AtMostOneOther(t, id);
    if current != {} {
      assert Least(current) in current;
      MovedKeepsOneActive(t, Least(current), Suspended, actor);
    }
    var u := Superseded(t, current, actor);
    forall v | v in u.versions && v != id && u.versions[v].graph == u.versions[id].graph
      ensures u.versions[v].status != Active
    {
      if v in current { assert v == Least(current); }
    }
  }

  lemma {:induction false} ActivateRaisesOnly(t: Tables, id: VersionId, actor: Person)
    requires OneActive(t) && id in t.versions
    ensures var r := Execute(t, Activate(id, actor));
            var v := t.versions[id];
            r.Committed? <==>
              !(HasImpact(v) && actor == v.createdBy) && (v.status == Approved || v.status == Suspended)
  {
    SupersededClearsTheWay(t, id, actor);
  }

  /** Another version of `id`'s graph, and it is active. */
  ghost predicate OtherActive(t: Tables, w: VersionId, id: VersionId)
    requires id in t.versions
  {
    w in t.versions && w != id && t.versions[w].graph == t.versions[id].graph && t.versions[w].status == Active
  }

  /** An activation that commits makes the version active, suspends the one version of its graph
      that was, if there is another, and touches no other; the log gains just these moves. */
  lemma {:induction false} ActivationDoes(t: Tables, id: VersionId, actor: Person)
    requires OneActive(t) && Execute(t, Activate(id, actor)).Committed?
    ensures id in t.versions
    ensures var u := Next(t, Activate(id, actor));
            && u.versions.Keys == t.versions.Keys && u.versions[id] == t.versions[id].(status := Active)
            && (forall w :: w in t.versions && w != id ==>
                  u.versions[w] ==
                    if OtherActive(t, w, id) then t.versions[w].(status := Suspended) else t.versions[w])
    ensures var u, activated := Next(t, Activate(id, actor)), Transition(id, t.versions[id].status, Active, actor);
            && (forall w :: OtherActive(t, w, id) ==>
                  u.log == t.log + [Transition(w, Active, Suspended, actor), activated])
            && ((forall w :: !OtherActive(t, w, id)) ==> u.log == t.log + [activated])
  {
    var current := ActiveOf(t, t.versions[id].graph) - {id};
    AtMostOneOther(t, id);
    if current != {} {
      var w := Least(current);
      assert w in current && OtherActive(t, w, id);
      var down, up := Transition(w, Active, Suspended, actor), Transition(id, t.versions[id].status, Active, actor);
      assert t.log + [down] + [up] == t.log + [down, up];
    }
    forall w | OtherActive(t, w, id) ensures w in current {}
    hide AllowedTransitions, HasImpact;
  }

  lemma {:induction false} StepKeepsOneActive(t: Tables, op: Operation)
    requires OneActive(t)
    ensures OneActive(Next(t, op))
  {
    hide GateOpens, HasImpact, InsertNodes, InsertEdges;
    if AddsContent(op) {
      ContentGrows(t, op);
    } else if op.Activate? && op.id in t.versions {
      SupersededClearsTheWay(t, op.id, op.actor);
    }
  }

  /** Whatever operations run, no graph ever has two active versions. */
  lemma {:induction false} RunKeepsOneActive(ops: seq<Operation>)
    ensures OneActive(Run(ops))
  {
    if ops != [] {
      RunKeepsOneActive(ops[..|ops| - 1]);
      StepKeepsOneActive(Run(ops[..|ops| - 1]), ops[|ops| - 1]);
    }
  }

  // ----- The log tells the whole history -----

  /** The statuses of a version, from `draft` through its log entries. */
  function StatusHistory(log: seq<Transition>, id: VersionId): (s: seq<Status>)
    ensures s != []
  {
    if log == [] then [Draft]
    else
      var e := log[|log| - 1];
      StatusHistory(log[..|log| - 1], id) + (if e.version == id then [e.to] else [])
  }

  function LatestStatus(s: seq<Status>): Status
    requires s != []
  {
    s[|s| - 1]
  }

  ghost predicate AllowedHistory(s: seq<Status>) {
    && s != [] && s[0] == Draft
    && forall i :: 0 < i < |s| ==> CanTransition(s[i - 1], s[i])
  }

  /** Each entry starts from the status the entry before it left. */
  ghost predicate Chained(log: seq<Transition>, id: VersionId) {
    log == [] ||
    var init, e := log[..|log| - 1], log[|log| - 1];
    Chained(init, id) && (e.version == id ==> e.from == LatestStatus(StatusHistory(init, id)))
  }

  ghost predicate LogReplays(t: Tables, id: VersionId) {
    && Chained(t.log, id)
    && AllowedHistory(StatusHistory(t.log, id))
    && (id in t.versions ==> t.versions[id].status == LatestStatus(StatusHistory(t.log, id)))
    && (id !in t.versions ==> StatusHistory(t.log, id) == [Draft])
  }

  lemma {:induction false} MovedReplays(t: Tables, id: VersionId, to: Status, actor: Person, other: VersionId)
    requires id in t.versions && CanTransition(t.versions[id].status, to) && LogReplays(t, other)
    ensures LogReplays(Moved(t, id, to, actor), other)
  {
    var u := Moved(t, id, to, actor);
    assert u.log[..|t.log|] == t.log;
  }

  lemma {:induction false} StepReplays(t: Tables, op: Operation, id: VersionId)
    requires LogReplays(t, id)
    ensures LogReplays(Next(t, op), id)
  {
    hide StatusHistory, Chained, AllowedHistory, AllowedTransitions, GateOpens, HasImpact, InsertNodes, InsertEdges;
    if AddsContent(op) {
      ContentGrows(t, op);
    } else if op.Activate? && op.id in t.versions {
      var current := ActiveOf(t, t.versions[op.id].graph) - {op.id};
      var u := Superseded(t, current, op.actor);
      if current != {} {
        assert Least(current) in current;
        CanSuspend();
        MovedReplays(t, Least(current), Suspended, op.actor, id);
      }
      if CanTransition(u.versions[op.id].status, Active) {
        MovedReplays(u, op.id, Active, op.actor, id);
      }
    } else if op.TransitionStatus? && op.id in t.versions && CanTransition(t.versions[op.id].status, op.to) {
      MovedReplays(t, op.id, op.to, op.actor, id);
    } else if op.SubmitForApproval? && op.id in t.versions && CanTransition(t.versions[op.id].status, Approved) {
      MovedReplays(t, op.id, Approved, op.actor, id);
    } else if op.KillSwitch? && op.id in t.versions && CanTransition(t.versions[op.id].status, Suspended) {
      MovedReplays(t, op.id, Suspended, op.actor, id);
    } else if op.CreateDraft? && op.id == id {
      assert LatestStatus([Draft]) == Draft;
    }
  }

  lemma {:induction false} CanSuspend()
    ensures CanTransition(Active, Suspended)
  {
  }

  /** Replaying a version's log from `draft` gives its current status, along allowed edges. */
  lemma {:induction false} LogIsHistory(ops: seq<Operation>, id: VersionId)
    ensures LogReplays(Run(ops), id)
  {
    if ops != [] {
      LogIsHistory(ops[..|ops| - 1], id);
      StepReplays(Run(ops[..|ops| - 1]), ops[|ops| - 1], id);
    }
  }

  const LINE: seq<Status> := [Draft, Simulation, BusinessReview, RiskReview, Approved, Active]

  /** The only way through the lifecycle. */
  lemma {:induction false} HistoryShape(s: seq<Status>, i: nat)
    requires AllowedHistory(s) && i < |s|
    ensures i < 6 ==> s[i] == LINE[i] || (s[i] == Rejected && 2 <= i <= 4)
    ensures i >= 5 ==> s[i] == Active || s[i] == Suspended || s[i] == Retired
    ensures s[i] == Rejected || s[i] == Retired ==> i == |s| - 1
    decreases i
  {
    if i > 0 {
      HistoryShape(s, i - 1);
      assert CanTransition(s[i - 1], s[i]);
    }
    if i + 1 < |s| { assert CanTransition(s[i + 1 - 1], s[i + 1]); }
  }

  /** A version that was ever active passed simulation, business review, risk review and
      approval, each exactly once and in this order, and was never rejected. */
  lemma {:induction false} ActiveWasReviewed(s: seq<Status>, k: nat)
    requires AllowedHistory(s) && k < |s| && s[k] == Active
    ensures |s| >= 6 && s[..6] == LINE
    ensures forall i :: 6 <= i < |s| ==> s[i] == Active || s[i] == Suspended || s[i] == Retired
  {
    HistoryShape(s, k);
    forall i: nat | i < |s| ensures i < 6 ==> s[i] == LINE[i]
                        ensures i >= 6 ==> s[i] == Active || s[i] == Suspended || s[i] == Retired {
      HistoryShape(s, i);
    }
  }

  lemma {:induction false} EverActive(ops: seq<Operation>, id: VersionId, k: nat)
    requires k < |StatusHistory(Run(ops).log, id)| && StatusHistory(Run(ops).log, id)[k] == Active
    ensures var s := StatusHistory(Run(ops).log, id);
            && |s| >= 6 && s[..6] == LINE
            && forall i :: 6 <= i < |s| ==> s[i] == Active || s[i] == Suspended || s[i] == Retired
  {
    LogIsHistory(ops, id);
    ActiveWasReviewed(StatusHistory(Run(ops).log, id), k);
  }

  /** Rejected and retired versions stay so: no later entry of the log is theirs. */
  lemma {:induction false} TerminalIsLast(ops: seq<Operation>, id: VersionId, k: nat)
    requires k < |StatusHistory(Run(ops).log, id)|
    requires StatusHistory(Run(ops).log, id)[k] == Rejected || StatusHistory(Run(ops).log, id)[k] == Retired
    ensures k == |StatusHistory(Run(ops).log, id)| - 1
  {
    LogIsHistory(ops, id);
    HistoryShape(StatusHistory(Run(ops).log, id), k);
  }
}
