/** The replicated cluster state: node registry and role assignments, changed only
    by committed proposals, and the loop that applies them. */
module ClusterState {
  import opened Prelude

  type NodeId = nat

  datatype Role = StorageRole | ExecutionRole | InferenceRole | CoordinatorRole | BootstrapRole

  /** `details` stands for the fields the state machine only carries along. */
  datatype Descriptor = Descriptor(nodeId: NodeId, details: Bytes)

  datatype Proposal =
    | RegisterNode(desc: Descriptor)
    | DeregisterNode(nodeId: NodeId)
    | AssignRole(nodeId: NodeId, role: Role)
    | RevokeRole(nodeId: NodeId, role: Role)

  datatype ApplyResult =
    | Applied
    | NodeRegistered(nodeId: NodeId)
    | NodeDeregistered(nodeId: NodeId)
    | RoleAssigned(nodeId: NodeId, role: Role)
    | RoleRevoked(nodeId: NodeId, role: Role)
    | Rejected

  datatype State = State(nodes: map<NodeId, Descriptor>, roleAssignments: map<NodeId, seq<Role>>, lastApplied: nat)

  const DEFAULT := State(map[], map[], 0)

  function RolesIn(assignments: map<NodeId, seq<Role>>, n: NodeId): seq<Role> {
    if n in assignments then assignments[n] else []
  }

  function RolesOf(s: State, n: NodeId): seq<Role> {
    RolesIn(s.roleAssignments, n)
  }

  function RemoveFirst(roles: seq<Role>, r: Role): seq<Role> {
    if roles == [] then [] else if roles[0] == r then roles[1..] else [roles[0]] + RemoveFirst(roles[1..], r)
  }

  /** `after` is `before` without its first occurrence of `r`, the rest in order. */
  ghost predicate RevokedFrom(before: seq<Role>, after: seq<Role>, r: Role) {
    exists k | 0 <= k < |before| :: RevokedAt(before, after, r, k)
  }

  ghost predicate RevokedAt(before: seq<Role>, after: seq<Role>, r: Role, k: nat)
    requires k < |before|
  {
    before[k] == r && r !in before[..k] && after == before[..k] + before[k + 1..]
  }

  lemma RevokedLater(roles: seq<Role>, after: seq<Role>, r: Role, k: nat)
    requires roles != [] && roles[0] != r && k < |roles| - 1 && RevokedAt(roles[1..], after, r, k)
    ensures RevokedAt(roles, [roles[0]] + after, r, k + 1)
  {
    var rest := roles[1..];
    assert roles[..k + 1] == [roles[0]] + rest[..k];
    assert roles[k + 2..] == rest[k + 1..];
  }

  lemma {:induction false} RemoveFirstSplits(roles: seq<Role>, r: Role)
    requires r in roles
    ensures RevokedFrom(roles, RemoveFirst(roles, r), r)
  {
    if roles[0] == r {
      assert RevokedAt(roles, roles[1..], r, 0);
    } else {
      RemoveFirstSplits(roles[1..], r);
      var k :| 0 <= k < |roles[1..]| && RevokedAt(roles[1..], RemoveFirst(roles[1..], r), r, k);
      RevokedLater(roles, RemoveFirst(roles[1..], r), r, k);
    }
  }

  function ApplyProposal(s: State, p: Proposal): State {
    match p
    case RegisterNode(desc) => s.(nodes := s.nodes[desc.nodeId := desc])
    case DeregisterNode(n) => s.(nodes := s.nodes - {n}, roleAssignments := s.roleAssignments - {n})
    case AssignRole(n, r) =>
      if n !in s.nodes then s
      else
        var roles := RolesOf(s, n);
        s.(roleAssignments := s.roleAssignments[n := if r in roles then roles else roles + [r]])
    case RevokeRole(n, r) =>
      if r in RolesOf(s, n) then s.(roleAssignments := s.roleAssignments[n := RemoveFirst(RolesOf(s, n), r)]) else s
  }

  function ApplyAll(s: State, ps: seq<Proposal>): State {
    if ps == [] then s else ApplyProposal(ApplyAll(s, ps[..|ps| - 1]), ps[|ps| - 1])
  }

  // ----- The committed log -----

  datatype LogEntry = LogEntry(index: nat, data: Bytes)

  /** JSON decoding of a proposal; undecodable payloads are skipped. */
  type Decoder = Bytes -> Option<Proposal>

  function ApplyEntry(decode: Decoder, s: State, e: LogEntry): State {
    if e.data == [] then s
    else match decode(e.data)
      case Some(p) => ApplyProposal(s, p).(lastApplied := e.index)
      case None => s
  }

  function ApplyLog(decode: Decoder, s: State, es: seq<LogEntry>): State {
    if es == [] then s else ApplyEntry(decode, ApplyLog(decode, s, es[..|es| - 1]), es[|es| - 1])
  }

  /** The entry carries a proposal. */
  predicate Carries(decode: Decoder, e: LogEntry) {
    e.data != [] && decode(e.data).Some?
  }

  /** The proposals of a log, in order: empty and undecodable entries have none. */
  function Decoded(decode: Decoder, es: seq<LogEntry>): seq<Proposal> {
    if es == [] then []
    else
      var last := es[|es| - 1];
      Decoded(decode, es[..|es| - 1]) + if Carries(decode, last) then [decode(last.data).value] else []
  }

  lemma ProposalIgnoresIndex(s: State, p: Proposal, index: nat)
    ensures ApplyProposal(s.(lastApplied := index), p) == ApplyProposal(s, p).(lastApplied := index)
    ensures ApplyProposal(s, p).lastApplied == s.lastApplied
  {
  }

  lemma ApplyAllSnoc(s: State, ps: seq<Proposal>, p: Proposal)
    ensures ApplyAll(s, ps + [p]) == ApplyProposal(ApplyAll(s, ps), p)
  {
    assert (ps + [p])[..|ps|] == ps;
  }

  /** Applying a log changes registry and roles exactly as applying its proposals one
      after the other does. */
  lemma {:induction false} LogAppliesItsProposals(decode: Decoder, s: State, es: seq<LogEntry>)
    ensures ApplyLog(decode, s, es).(lastApplied := s.lastApplied) == ApplyAll(s, Decoded(decode, es))
    decreases |es|
  {
    if es != [] {
      var init, e := es[..|es| - 1], es[|es| - 1];
      LogAppliesItsProposals(decode, s, init);
      if Carries(decode, e) {
        var p := decode(e.data).value;
        ApplyAllSnoc(s, Decoded(decode, init), p);
        ProposalIgnoresIndex(ApplyLog(decode, s, init), p, s.lastApplied);
      } else {
        assert Decoded(decode, init) + [] == Decoded(decode, init);
      }
    }
  }

  /** Entry `k` is the last that carries a proposal. */
  ghost predicate LastCarrier(decode: Decoder, es: seq<LogEntry>, k: nat) {
    k < |es| && Carries(decode, es[k]) && forall j | k < j < |es| :: !Carries(decode, es[j])
  }

  /** The applied index is that of the last entry that carried a proposal. */
  lemma {:induction false} AppliedIndexIsLastCarrier(decode: Decoder, s: State, es: seq<LogEntry>)
    ensures (forall k | 0 <= k < |es| :: !Carries(decode, es[k])) ==> ApplyLog(decode, s, es).lastApplied == s.lastApplied
    ensures forall k: nat | LastCarrier(decode, es, k) :: ApplyLog(decode, s, es).lastApplied == es[k].index
    decreases |es|
  {
    if es != [] {
      var init, e := es[..|es| - 1], es[|es| - 1];
      AppliedIndexIsLastCarrier(decode, s, init);
      forall k: nat | LastCarrier(decode, es, k)
        ensures ApplyLog(decode, s, es).lastApplied == es[k].index
      {
        if k < |init| {
          assert !Carries(decode, es[|init|]);
          assert forall j | k <= j < |init| :: init[j] == es[j];
          assert LastCarrier(decode, init, k);
        }
      }
      if forall k | 0 <= k < |es| :: !Carries(decode, es[k]) {
        assert !Carries(decode, es[|init|]);
        assert forall k | 0 <= k < |init| :: init[k] == es[k];
      }
    }
  }

  datatype Snapshot = Snapshot(nodes: map<NodeId, Descriptor>, roleAssignments: map<NodeId, seq<Role>>, lastApplied: nat)

  class ClusterMachine {
    const decode: Decoder
    var nodes: map<NodeId, Descriptor>
    var roleAssignments: map<NodeId, seq<Role>>
    var lastApplied: nat

    ghost function View(): State
      reads this
    {
      State(nodes, roleAssignments, lastApplied)
    }

    constructor (decode: Decoder)
      ensures this.decode == decode && View() == DEFAULT
    {
      this.decode := decode;
      nodes, roleAssignments, lastApplied := map[], map[], 0;
    }

    constructor Restore(decode: Decoder, snapshot: Snapshot)
      ensures this.decode == decode
      ensures View() == State(snapshot.nodes, snapshot.roleAssignments, snapshot.lastApplied)
    {
      this.decode := decode;
      nodes, roleAssignments, lastApplied := snapshot.nodes, snapshot.roleAssignments, snapshot.lastApplied;
    }

    method TakeSnapshot() returns (snapshot: Snapshot)
      ensures snapshot == Snapshot(nodes, roleAssignments, lastApplied)
    {
      snapshot := Snapshot(nodes, roleAssignments, lastApplied);
    }

    /** Applies one proposal and says what changed: the result names a change
        exactly when there was one, and a rejection only an unknown node. */
    method Apply(p: Proposal) returns (result: ApplyResult)
      modifies this`nodes, this`roleAssignments
      ensures View() == ApplyProposal(old(View()), p)
      ensures nodes == match p
                       case RegisterNode(desc) => old(nodes)[desc.nodeId := desc]
                       case DeregisterNode(n) => old(nodes) - {n}
                       case _ => old(nodes)
      ensures p.RegisterNode? ==> roleAssignments == old(roleAssignments)
      ensures p.DeregisterNode? ==> roleAssignments == old(roleAssignments) - {p.nodeId}
      ensures p.AssignRole? && result.RoleAssigned? ==>
                roleAssignments == old(roleAssignments)[p.nodeId := RolesIn(old(roleAssignments), p.nodeId) + [p.role]]
      ensures p.RevokeRole? && result.RoleRevoked? ==>
                && p.nodeId in old(roleAssignments) && p.nodeId in roleAssignments
                && roleAssignments == old(roleAssignments)[p.nodeId := roleAssignments[p.nodeId]]
                && RevokedFrom(old(roleAssignments)[p.nodeId], roleAssignments[p.nodeId], p.role)
      ensures result.Rejected? || (p.RevokeRole? && result.Applied?) ==> roleAssignments == old(roleAssignments)
      ensures result.Rejected? <==> p.AssignRole? && p.nodeId !in old(nodes)
      ensures result.NodeRegistered? <==> p.RegisterNode? && p.desc.nodeId !in old(nodes)
      ensures result.RoleAssigned? <==>
              p.AssignRole? && p.role in RolesOf(View(), p.nodeId) && p.role !in RolesOf(old(View()), p.nodeId)
      ensures result.RoleRevoked? <==> p.RevokeRole? && p.role in RolesOf(old(View()), p.nodeId)
      ensures result.NodeDeregistered? <==> p.DeregisterNode?
      ensures result.NodeRegistered? ==> result.nodeId == p.desc.nodeId
      ensures result.NodeDeregistered? || result.RoleAssigned? || result.RoleRevoked? ==> result.nodeId == p.nodeId
      ensures result.RoleAssigned? || result.RoleRevoked? ==> result.role == p.role
    {
      match p {
        case RegisterNode(desc) =>
          var isNew := desc.nodeId !in nodes;
          nodes := nodes[desc.nodeId := desc];
          result := if isNew then NodeRegistered(desc.nodeId) else Applied;
        case DeregisterNode(n) =>
          nodes := nodes - {n};
          roleAssignments := roleAssignments - {n};
          result := NodeDeregistered(n);
        case AssignRole(n, r) =>
          if n !in nodes {
            return Rejected;
          }
          var roles := RolesIn(roleAssignments, n);
          if r in roles {
            roleAssignments := roleAssignments[n := roles];
            return Applied;
          }
          roleAssignments := roleAssignments[n := roles + [r]];
          result := RoleAssigned(n, r);
        case RevokeRole(n, r) =>
          var roles := RolesIn(roleAssignments, n);
          if r !in roles {
            return Applied;
          }
          RemoveFirstSplits(roles, r);
          roleAssignments := roleAssignments[n := RemoveFirst(roles, r)];
          result := RoleRevoked(n, r);
      }
    }

    /** The apply loop: skips empty and undecodable entries. */
    method ApplyCommitted(committed: seq<LogEntry>)
      modifies this
      ensures View() == ApplyLog(decode, old(View()), committed)
      ensures State(nodes, roleAssignments, old(lastApplied)) == ApplyAll(old(View()), Decoded(decode, committed))
    {
      for i := 0 to |committed|
        invariant View() == ApplyLog(decode, old(View()), committed[..i])
      {
        assert committed[..i + 1][..i] == committed[..i];
        var e := committed[i];
        if e.data == [] {
          continue;
        }
        var decoded := decode(e.data);
        if decoded.Some? {
          var _ := Apply(decoded.value);
          lastApplied := e.index;
        }
      }
      assert committed[..|committed|] == committed;
      LogAppliesItsProposals(decode, old(View()), committed);
    }
  }

  // ----- Replicas agree -----

  lemma {:induction false} ApplyLogSplits(decode: Decoder, s: State, a: seq<LogEntry>, b: seq<LogEntry>)
    ensures ApplyLog(decode, s, a + b) == ApplyLog(decode, ApplyLog(decode, s, a), b)
    decreases |b|
  {
    if b == [] {
      assert a + b == a;
    } else {
      var init := b[..|b| - 1];
      assert (a + b)[..|a + b| - 1] == a + init;
      assert (a + b)[|a + b| - 1] == b[|b| - 1];
      ApplyLogSplits(decode, s, a, init);
    }
  }

  /** What a replica goes through: batches from the log, and restarts from a
      snapshot of its own state. */
  datatype Life = Batch(entries: seq<LogEntry>) | Restart

  function SnapshotOf(s: State): Snapshot {
    Snapshot(s.nodes, s.roleAssignments, s.lastApplied)
  }

  function Restored(snapshot: Snapshot): State {
    State(snapshot.nodes, snapshot.roleAssignments, snapshot.lastApplied)
  }

  function Live(decode: Decoder, s: State, lives: seq<Life>): State
    decreases |lives|
  {
    if lives == [] then s
    else match lives[0]
      case Batch(entries) => Live(decode, ApplyLog(decode, s, entries), lives[1..])
      case Restart => Live(decode, Restored(SnapshotOf(s)), lives[1..])
  }

  function Committed(lives: seq<Life>): seq<LogEntry> {
    if lives == [] then []
    else (match lives[0] case Batch(entries) => entries case Restart => []) + Committed(lives[1..])
  }

  /** A replica's state is a function of the log alone: batch boundaries and
      snapshot-restore points leave no trace. */
  lemma {:induction false} LifeIsTheLog(decode: Decoder, s: State, lives: seq<Life>)
    ensures Live(decode, s, lives) == ApplyLog(decode, s, Committed(lives))
    decreases |lives|
  {
    if lives != [] {
      match lives[0]
      case Batch(entries) =>
        LifeIsTheLog(decode, ApplyLog(decode, s, entries), lives[1..]);
        ApplyLogSplits(decode, s, entries, Committed(lives[1..]));
      case Restart =>
        LifeIsTheLog(decode, s, lives[1..]);
        assert Committed(lives) == [] + Committed(lives[1..]) == Committed(lives[1..]);
    }
  }

  lemma ReplicasAgree(decode: Decoder, a: seq<Life>, b: seq<Life>)
    requires Committed(a) == Committed(b)
    ensures Live(decode, DEFAULT, a) == Live(decode, DEFAULT, b)
  {
    LifeIsTheLog(decode, DEFAULT, a);
    LifeIsTheLog(decode, DEFAULT, b);
  }

  // ----- What every reachable state looks like -----

  ghost predicate NoRepeats(roles: seq<Role>) {
    forall r :: multiset(roles)[r] <= 1
  }

  ghost predicate WellFormed(s: State) {
    s.roleAssignments.Keys <= s.nodes.Keys && forall n | n in s.roleAssignments :: NoRepeats(s.roleAssignments[n])
  }

  lemma {:induction false} RemoveFirstFacts(roles: seq<Role>, r: Role)
    ensures multiset(RemoveFirst(roles, r)) == multiset(roles) - multiset{r}
  {
    if roles != [] {
      assert roles == [roles[0]] + roles[1..];
      RemoveFirstFacts(roles[1..], r);
    }
  }

  lemma RemoveFirstMembers(roles: seq<Role>, r: Role, x: Role)
    requires NoRepeats(roles)
    ensures NoRepeats(RemoveFirst(roles, r))
    ensures x in RemoveFirst(roles, r) <==> x in roles && x != r
  {
    RemoveFirstFacts(roles, r);
    assert multiset(roles)[r] <= 1;
    assert x in RemoveFirst(roles, r) <==> x in multiset(RemoveFirst(roles, r));
    assert x in roles <==> x in multiset(roles);
  }

  lemma WellFormedByProposal(s: State, p: Proposal)
    requires WellFormed(s)
    ensures WellFormed(ApplyProposal(s, p))
  {
    if p.RevokeRole? {
      RemoveFirstMembers(RolesOf(s, p.nodeId), p.role, p.role);
    } else if p.AssignRole? {
      SnocMultiset(RolesOf(s, p.nodeId), p.role);
      assert p.role in multiset(RolesOf(s, p.nodeId)) <==> p.role in RolesOf(s, p.nodeId);
    }
  }

  /** Whatever was committed, roles are only held by registered nodes and no node
      holds a role twice. */
  lemma {:induction false} ReachableStatesAreWellFormed(decode: Decoder, es: seq<LogEntry>)
    ensures WellFormed(ApplyLog(decode, DEFAULT, es))
    decreases |es|
  {
    if es != [] {
      var init, e := es[..|es| - 1], es[|es| - 1];
      ReachableStatesAreWellFormed(decode, init);
      if e.data != [] && decode(e.data).Some? {
        WellFormedByProposal(ApplyLog(decode, DEFAULT, init), decode(e.data).value);
      }
    }
  }

  // ----- The state read off the history -----

  /** The latest (de)registration of `n` registered it. */
  ghost predicate Registered(ps: seq<Proposal>, n: NodeId) {
    exists i | 0 <= i < |ps| ::
      ps[i].RegisterNode? && ps[i].desc.nodeId == n && forall j | i < j < |ps| :: ps[j] != DeregisterNode(n)
  }

  /** `r` was assigned to `n` while it was registered, and neither revoked nor was
      the node deregistered since. */
  ghost predicate Holds(ps: seq<Proposal>, n: NodeId, r: Role) {
    exists i | 0 <= i < |ps| :: AssignedForGood(ps, i, n, r)
  }

  ghost predicate AssignedForGood(ps: seq<Proposal>, i: nat, n: NodeId, r: Role)
    requires i < |ps|
  {
    && ps[i] == AssignRole(n, r) && Registered(ps[..i], n)
    && forall j | i < j < |ps| :: ps[j] != RevokeRole(n, r) && ps[j] != DeregisterNode(n)
  }

  lemma RegisteredBefore(ps: seq<Proposal>, n: NodeId)
    requires ps != [] && Registered(ps, n)
    ensures
      var init, p := ps[..|ps| - 1], ps[|ps| - 1];
      (p.RegisterNode? && p.desc.nodeId == n) || (p != DeregisterNode(n) && Registered(init, n))
  {
    var k := |ps| - 1;
    var i :| 0 <= i < |ps| && ps[i].RegisterNode? && ps[i].desc.nodeId == n
             && forall j | i < j < |ps| :: ps[j] != DeregisterNode(n);
    if i < k {
      assert ps[..k][i] == ps[i] && forall j | i < j < k :: ps[..k][j] == ps[j];
    }
  }

  lemma RegisteredAfter(ps: seq<Proposal>, n: NodeId)
    requires ps != []
    requires
      var init, p := ps[..|ps| - 1], ps[|ps| - 1];
      (p.RegisterNode? && p.desc.nodeId == n) || (p != DeregisterNode(n) && Registered(init, n))
    ensures Registered(ps, n)
  {
    var k := |ps| - 1;
    if ps[k].RegisterNode? && ps[k].desc.nodeId == n {
      assert ps[k].RegisterNode?;
    } else {
      var i :| 0 <= i < k && ps[..k][i].RegisterNode? && ps[..k][i].desc.nodeId == n
               && forall j | i < j < k :: ps[..k][j] != DeregisterNode(n);
      assert ps[i] == ps[..k][i] && forall j | i < j < k :: ps[j] == ps[..k][j];
    }
  }

  lemma RegisteredStep(ps: seq<Proposal>, n: NodeId)
    requires ps != []
    ensures
      var init, p := ps[..|ps| - 1], ps[|ps| - 1];
      Registered(ps, n) <==>
        (p.RegisterNode? && p.desc.nodeId == n) || (p != DeregisterNode(n) && Registered(init, n))
  {
    var init, p := ps[..|ps| - 1], ps[|ps| - 1];
    if Registered(ps, n) {
      RegisteredBefore(ps, n);
    }
    if (p.RegisterNode? && p.desc.nodeId == n) || (p != DeregisterNode(n) && Registered(init, n)) {
      RegisteredAfter(ps, n);
    }
  }

  lemma HoldsBefore(ps: seq<Proposal>, n: NodeId, r: Role)
    requires ps != [] && Holds(ps, n, r)
    ensures
      var init, p := ps[..|ps| - 1], ps[|ps| - 1];
      (p == AssignRole(n, r) && Registered(init, n))
      || (p != RevokeRole(n, r) && p != DeregisterNode(n) && Holds(init, n, r))
  {
    var k := |ps| - 1;
    var i :| 0 <= i < |ps| && AssignedForGood(ps, i, n, r);
    if i < k {
      assert ps[..i] == ps[..k][..i] && forall j | i <= j < k :: ps[j] == ps[..k][j];
      assert AssignedForGood(ps[..k], i, n, r);
    }
  }

  lemma HoldsAfter(ps: seq<Proposal>, n: NodeId, r: Role)
    requires ps != []
    requires
      var init, p := ps[..|ps| - 1], ps[|ps| - 1];
      (p == AssignRole(n, r) && Registered(init, n))
      || (p != RevokeRole(n, r) && p != DeregisterNode(n) && Holds(init, n, r))
    ensures Holds(ps, n, r)
  {
    var k := |ps| - 1;
    if ps[k] == AssignRole(n, r) && Registered(ps[..k], n) {
      assert AssignedForGood(ps, k, n, r);
    } else {
      var i :| 0 <= i < k && AssignedForGood(ps[..k], i, n, r);
      assert ps[..i] == ps[..k][..i] && forall j | i <= j < k :: ps[j] == ps[..k][j];
      assert AssignedForGood(ps, i, n, r);
    }
  }

  lemma HoldsStep(ps: seq<Proposal>, n: NodeId, r: Role)
    requires ps != []
    ensures
      var init, p := ps[..|ps| - 1], ps[|ps| - 1];
      Holds(ps, n, r) <==>
        (p == AssignRole(n, r) && Registered(init, n))
        || (p != RevokeRole(n, r) && p != DeregisterNode(n) && Holds(init, n, r))
  {
    var init, p := ps[..|ps| - 1], ps[|ps| - 1];
    if Holds(ps, n, r) {
      HoldsBefore(ps, n, r);
    }
    if (p == AssignRole(n, r) && Registered(init, n))
       || (p != RevokeRole(n, r) && p != DeregisterNode(n) && Holds(init, n, r)) {
      HoldsAfter(ps, n, r);
    }
  }

  /** For every history: a node is in the registry exactly when its latest
      (de)registration registered it, and it holds a role exactly when the role
      was assigned while it was registered and nothing has taken it away since. */
  lemma {:induction false} StateIsItsHistory(ps: seq<Proposal>)
    ensures WellFormed(ApplyAll(DEFAULT, ps))
    ensures forall n :: n in ApplyAll(DEFAULT, ps).nodes <==> Registered(ps, n)
    ensures forall n, r :: r in RolesOf(ApplyAll(DEFAULT, ps), n) <==> Holds(ps, n, r)
    decreases |ps|
  {
    if ps != [] {
      var init, p := ps[..|ps| - 1], ps[|ps| - 1];
      var s, s' := ApplyAll(DEFAULT, init), ApplyAll(DEFAULT, ps);
      StateIsItsHistory(init);
      WellFormedByProposal(s, p);
      forall n
        ensures n in s'.nodes <==> Registered(ps, n)
      {
        RegisteredStep(ps, n);
      }
      forall n, r
        ensures r in RolesOf(s', n) <==> Holds(ps, n, r)
      {
        HoldsStep(ps, n, r);
        RolesAfter(s, p, n, r);
      }
    }
  }

  /** The latest proposal that (de)registers `n` is a registration, with `desc`. */
  ghost predicate RegisteredAs(ps: seq<Proposal>, n: NodeId, desc: Descriptor) {
    exists i | 0 <= i < |ps| :: LastRegistration(ps, i, n, desc)
  }

  ghost predicate LastRegistration(ps: seq<Proposal>, i: nat, n: NodeId, desc: Descriptor)
    requires i < |ps|
  {
    && ps[i] == RegisterNode(desc) && desc.nodeId == n
    && forall j | i < j < |ps| :: ps[j] != DeregisterNode(n) && !(ps[j].RegisterNode? && ps[j].desc.nodeId == n)
  }

  /** Every registered node carries the descriptor of its latest registration. */
  lemma {:induction false} DescriptorIsLatest(ps: seq<Proposal>, n: NodeId)
    requires n in ApplyAll(DEFAULT, ps).nodes
    ensures RegisteredAs(ps, n, ApplyAll(DEFAULT, ps).nodes[n])
    decreases |ps|
  {
    var k := |ps| - 1;
    var p, desc := ps[k], ApplyAll(DEFAULT, ps).nodes[n];
    if p.RegisterNode? && p.desc.nodeId == n {
      assert LastRegistration(ps, k, n, desc);
    } else {
      DescriptorIsLatest(ps[..k], n);
      var i :| 0 <= i < k && LastRegistration(ps[..k], i, n, desc);
      assert forall j | i <= j < k :: ps[j] == ps[..k][j];
      assert LastRegistration(ps, i, n, desc);
    }
  }

  /** One proposal's effect on one (node, role) pair. */
  lemma RolesAfter(s: State, p: Proposal, n: NodeId, r: Role)
    requires WellFormed(s)
    ensures r in RolesOf(ApplyProposal(s, p), n) <==>
            (p == AssignRole(n, r) && n in s.nodes)
            || (p != RevokeRole(n, r) && p != DeregisterNode(n) && r in RolesOf(s, n))
  {
    if p.RevokeRole? && p.nodeId == n {
      RemoveFirstMembers(RolesOf(s, n), p.role, r);
    }
  }

  // ----- The replica's state read off the committed log -----

  /** Whatever batches and restarts a replica went through: a node is registered, with
      its latest descriptor, exactly when the committed proposals say so; it holds
      exactly the roles they left it with; and the applied index is that of the last
      entry that carried a proposal, or 0. */
  lemma CommittedLogIsItsHistory(decode: Decoder, lives: seq<Life>)
    ensures
      var s, es := Live(decode, DEFAULT, lives), Committed(lives);
      var ps := Decoded(decode, es);
      && (forall n :: n in s.nodes <==> Registered(ps, n))
      && (forall n | n in s.nodes :: RegisteredAs(ps, n, s.nodes[n]))
      && (forall n, r :: r in RolesOf(s, n) <==> Holds(ps, n, r))
      && ((forall k | 0 <= k < |es| :: !Carries(decode, es[k])) ==> s.lastApplied == 0)
      && (forall k: nat | LastCarrier(decode, es, k) :: s.lastApplied == es[k].index)
  {
    var es := Committed(lives);
    var s, ps := Live(decode, DEFAULT, lives), Decoded(decode, es);
    LifeIsTheLog(decode, DEFAULT, lives);
    LogAppliesItsProposals(decode, DEFAULT, es);
    AppliedIndexIsLastCarrier(decode, DEFAULT, es);
    assert s.(lastApplied := 0) == ApplyAll(DEFAULT, ps);
    StateIsItsHistory(ps);
    forall n | n in s.nodes
      ensures RegisteredAs(ps, n, s.nodes[n])
    {
      DescriptorIsLatest(ps, n);
    }
    assert forall n :: RolesOf(s, n) == RolesOf(ApplyAll(DEFAULT, ps), n);
  }
}
