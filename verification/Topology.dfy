/** Reconciling role assignments with a desired topology: the proposals that the
    diff produces, in whatever order the hash maps yield them, and what applying
    them does to the replicated state. */
module Topology {
  import opened Prelude
  import opened ClusterState

  /** Selectors that name no node are ignored. */
  datatype NodeAssignment = NodeAssignment(nodeId: Option<NodeId>, roles: seq<Role>)

  type Topology = seq<NodeAssignment>

  /** Some assignment gives role `r` to node `n`. */
  ghost predicate Wants(desired: Topology, n: NodeId, r: Role) {
    exists i | 0 <= i < |desired| :: desired[i].nodeId == Some(n) && r in desired[i].roles
  }

  /** How often a proposal is needed to get from `current` to `desired`: once for
      each missing role, and once for each occurrence of an unwanted one. */
  ghost function Needed(current: map<NodeId, seq<Role>>, desired: Topology, p: Proposal): nat {
    match p
    case AssignRole(n, r) => if Wants(desired, n, r) && r !in RolesIn(current, n) then 1 else 0
    case RevokeRole(n, r) => if Wants(desired, n, r) then 0 else multiset(RolesIn(current, n))[r]
    case _ => 0
  }

  /** `ps` is a diff, in any order. */
  ghost predicate IsDiff(current: map<NodeId, seq<Role>>, desired: Topology, ps: seq<Proposal>) {
    forall p :: multiset(ps)[p] == Needed(current, desired, p)
  }

  // ----- Computing the diff -----

  /** The desired roles per node, without repeats. */
  method DesiredRoles(desired: Topology) returns (roles: map<NodeId, seq<Role>>)
    ensures forall n, r :: r in RolesIn(roles, n) <==> Wants(desired, n, r)
    ensures forall n | n in roles :: NoRepeats(roles[n])
  {
    roles := map[];
    for i := 0 to |desired|
      invariant forall n, r :: r in RolesIn(roles, n) <==> Wants(desired[..i], n, r)
      invariant forall n | n in roles :: NoRepeats(roles[n])
    {
      var a, before := desired[i], roles;
      if a.nodeId.Some? {
        var merged := Merge(RolesIn(roles, a.nodeId.value), a.roles);
        roles := roles[a.nodeId.value := merged];
      }
      forall n: NodeId, r: Role
        ensures r in RolesIn(roles, n) <==> Wants(desired[..i + 1], n, r)
      {
        WantsMore(desired, i, n, r);
        assert r in RolesIn(before, n) <==> Wants(desired[..i], n, r);
        assert a.nodeId != Some(n) ==> RolesIn(roles, n) == RolesIn(before, n);
      }
    }
    assert desired[..|desired|] == desired;
  }

  lemma WantsMore(desired: Topology, i: nat, n: NodeId, r: Role)
    requires i < |desired|
    ensures Wants(desired[..i + 1], n, r) <==>
            Wants(desired[..i], n, r) || (desired[i].nodeId == Some(n) && r in desired[i].roles)
  {
    assert desired[..i + 1] == desired[..i] + [desired[i]];
    if Wants(desired[..i], n, r) {
      var k :| 0 <= k < i && desired[..i][k].nodeId == Some(n) && r in desired[..i][k].roles;
      assert desired[..i + 1][k] == desired[..i][k];
    }
    if desired[i].nodeId == Some(n) && r in desired[i].roles {
      assert desired[..i + 1][i] == desired[i];
    }
  }

  /** Adds the roles that are not there yet. */
  method Merge(entry: seq<Role>, more: seq<Role>) returns (merged: seq<Role>)
    requires NoRepeats(entry)
    ensures NoRepeats(merged)
    ensures forall r :: r in merged <==> r in entry || r in more
  {
    merged := entry;
    for i := 0 to |more|
      invariant NoRepeats(merged)
      invariant forall r :: r in merged <==> r in entry || r in more[..i]
    {
      assert more[..i + 1] == more[..i] + [more[i]];
      if more[i] !in merged {
        SnocMultiset(merged, more[i]);
        assert more[i] !in multiset(merged);
        merged := merged + [more[i]];
      }
    }
    assert more[..|more|] == more;
  }

  /** The assignments that one node lacks. */
  method MissingOf(n: NodeId, roles: seq<Role>, held: seq<Role>) returns (ps: seq<Proposal>)
    requires NoRepeats(roles)
    ensures forall p :: multiset(ps)[p] ==
              if p.AssignRole? && p.nodeId == n && p.role in roles && p.role !in held then 1 else 0
  {
    ps := [];
    for i := 0 to |roles|
      invariant forall p :: multiset(ps)[p] ==
                  if p.AssignRole? && p.nodeId == n && p.role in roles[..i] && p.role !in held then 1 else 0
    {
      assert roles[..i + 1] == roles[..i] + [roles[i]];
      assert roles == roles[..i] + ([roles[i]] + roles[i + 1..]);
      assert multiset(roles)[roles[i]] <= 1;
      assert roles[i] !in multiset(roles[..i]);
      if roles[i] !in held {
        SnocMultiset(ps, AssignRole(n, roles[i]));
        ps := ps + [AssignRole(n, roles[i])];
      }
    }
    assert roles[..|roles|] == roles;
  }

  /** The revocations that one node needs. */
  method ExtraOf(n: NodeId, held: seq<Role>, wanted: seq<Role>) returns (ps: seq<Proposal>)
    ensures forall p :: multiset(ps)[p] ==
              if p.RevokeRole? && p.nodeId == n && p.role !in wanted then multiset(held)[p.role] else 0
  {
    ps := [];
    for i := 0 to |held|
      invariant forall p :: multiset(ps)[p] ==
                  if p.RevokeRole? && p.nodeId == n && p.role !in wanted then multiset(held[..i])[p.role] else 0
    {
      assert held[..i + 1] == held[..i] + [held[i]];
      if held[i] !in wanted {
        SnocMultiset(ps, RevokeRole(n, held[i]));
        ps := ps + [RevokeRole(n, held[i])];
      }
    }
    assert held[..|held|] == held;
  }

  /** The assignments for every node outside `todo`, and nothing else. */
  ghost predicate AssignedBut(current: map<NodeId, seq<Role>>, desired: Topology, ps: seq<Proposal>, todo: set<NodeId>) {
    forall p :: multiset(ps)[p] == if p.AssignRole? && p.nodeId !in todo then Needed(current, desired, p) else 0
  }

  lemma AssignedOneMore(current: map<NodeId, seq<Role>>, desired: Topology, ps: seq<Proposal>, todo: set<NodeId>,
                        n: NodeId, missing: seq<Proposal>)
    requires AssignedBut(current, desired, ps, todo) && n in todo
    requires forall p :: multiset(missing)[p] ==
               if p.AssignRole? && p.nodeId == n && Wants(desired, n, p.role) && p.role !in RolesIn(current, n)
               then 1 else 0
    ensures AssignedBut(current, desired, ps + missing, todo - {n})
  {
    forall p
      ensures multiset(ps + missing)[p] == multiset(ps)[p] + multiset(missing)[p]
    {
    }
  }

  /** The whole diff but for the revocations of the nodes in `todo`. */
  ghost predicate RevokedBut(current: map<NodeId, seq<Role>>, desired: Topology, ps: seq<Proposal>, todo: set<NodeId>) {
    forall p :: multiset(ps)[p] == if p.RevokeRole? && p.nodeId in todo then 0 else Needed(current, desired, p)
  }

  lemma RevokedOneMore(current: map<NodeId, seq<Role>>, desired: Topology, ps: seq<Proposal>, todo: set<NodeId>,
                       n: NodeId, extra: seq<Proposal>)
    requires RevokedBut(current, desired, ps, todo) && n in todo
    requires forall p :: multiset(extra)[p] ==
               if p.RevokeRole? && p.nodeId == n && !Wants(desired, n, p.role)
               then multiset(RolesIn(current, n))[p.role] else 0
    ensures RevokedBut(current, desired, ps + extra, todo - {n})
  {
    forall p
      ensures multiset(ps + extra)[p] == multiset(ps)[p] + multiset(extra)[p]
    {
    }
  }

  /** The diff, built by iterating over both maps in an arbitrary order. */
  method DiffTopology(current: map<NodeId, seq<Role>>, desired: Topology) returns (proposals: seq<Proposal>)
    ensures IsDiff(current, desired, proposals)
  {
    var wanted := DesiredRoles(desired);
    proposals := [];
    var todo := wanted.Keys;
    while todo != {}
      invariant todo <= wanted.Keys
      invariant AssignedBut(current, desired, proposals, todo)
    {
      var n :| n in todo;
      var missing := MissingOf(n, wanted[n], RolesIn(current, n));
      assert RolesIn(wanted, n) == wanted[n];
      AssignedOneMore(current, desired, proposals, todo, n, missing);
      todo := todo - {n};
      proposals := proposals + missing;
    }
    todo := current.Keys;
    while todo != {}
      invariant todo <= current.Keys
      invariant RevokedBut(current, desired, proposals, todo)
    {
      var n :| n in todo;
      var extra := ExtraOf(n, current[n], RolesIn(wanted, n));
      assert RolesIn(current, n) == current[n];
      RevokedOneMore(current, desired, proposals, todo, n, extra);
      todo := todo - {n};
      proposals := proposals + extra;
    }
  }

  // ----- Applying it -----

  /** How often node `n` holds role `r`. */
  function Count(s: State, n: NodeId, r: Role): nat {
    multiset(RolesOf(s, n))[r]
  }

  predicate RoleChange(p: Proposal) {
    p.AssignRole? || p.RevokeRole?
  }

  predicate OnlyRoleChanges(ps: seq<Proposal>) {
    forall p | p in ps :: RoleChange(p)
  }

  lemma HeldIsCounted(s: State, n: NodeId, r: Role)
    ensures r in RolesOf(s, n) <==> Count(s, n, r) > 0
  {
    assert r in RolesOf(s, n) <==> r in multiset(RolesOf(s, n));
  }

  lemma CountAfterAssign(s: State, n: NodeId, r: Role, m: NodeId, x: Role)
    ensures Count(ApplyProposal(s, AssignRole(m, x)), n, r) ==
            if n == m && r == x && n in s.nodes && Count(s, n, r) == 0 then 1 else Count(s, n, r)
  {
    var roles := RolesOf(s, m);
    HeldIsCounted(s, m, x);
    SnocMultiset(roles, x);
  }

  lemma CountAfterRevoke(s: State, n: NodeId, r: Role, m: NodeId, x: Role)
    ensures Count(ApplyProposal(s, RevokeRole(m, x)), n, r) ==
            if n == m && r == x && Count(s, n, r) > 0 then Count(s, n, r) - 1 else Count(s, n, r)
  {
    HeldIsCounted(s, m, x);
    RemoveFirstFacts(RolesOf(s, m), x);
  }

  /** One role change's effect on one (node, role) pair. */
  lemma CountAfter(s: State, p: Proposal, n: NodeId, r: Role)
    requires RoleChange(p)
    ensures ApplyProposal(s, p).nodes == s.nodes
    ensures Count(ApplyProposal(s, p), n, r) ==
            if p == AssignRole(n, r) && n in s.nodes && Count(s, n, r) == 0 then 1
            else if p == RevokeRole(n, r) && Count(s, n, r) > 0 then Count(s, n, r) - 1
            else Count(s, n, r)
  {
    if p.AssignRole? {
      CountAfterAssign(s, n, r, p.nodeId, p.role);
    } else {
      CountAfterRevoke(s, n, r, p.nodeId, p.role);
    }
  }

  function AtLeastZero(i: int): nat {
    if i < 0 then 0 else i
  }

  /** The effect of a whole sequence on one (node, role) pair depends only on how
      many of its proposals are about that pair. */
  lemma {:induction false} CountAfterAll(s: State, ps: seq<Proposal>, n: NodeId, r: Role)
    requires OnlyRoleChanges(ps)
    ensures ApplyAll(s, ps).nodes == s.nodes
    ensures
      var c, assigns, revokes := Count(s, n, r), multiset(ps)[AssignRole(n, r)], multiset(ps)[RevokeRole(n, r)];
      var c' := Count(ApplyAll(s, ps), n, r);
      && c' >= AtLeastZero(c - revokes)
      && (assigns == 0 ==> c' == AtLeastZero(c - revokes))
      && (revokes == 0 && assigns > 0 ==> c' == if n in s.nodes && c == 0 then 1 else c)
    decreases |ps|
  {
    if ps != [] {
      var init, p := ps[..|ps| - 1], ps[|ps| - 1];
      assert ps == init + [p];
      SnocMultiset(init, p);
      CountAfterAll(s, init, n, r);
      CountAfter(ApplyAll(s, init), p, n, r);
    }
  }

  /** Every node holds exactly its desired roles. */
  ghost predicate Reached(s: State, desired: Topology) {
    forall n, r :: r in RolesOf(s, n) <==> Wants(desired, n, r)
  }

  lemma DiffOnlyChangesRoles(current: map<NodeId, seq<Role>>, desired: Topology, ps: seq<Proposal>)
    requires IsDiff(current, desired, ps)
    ensures OnlyRoleChanges(ps)
  {
    forall p | p in ps
      ensures RoleChange(p)
    {
      assert p in multiset(ps);
    }
  }

  /** Where one pair ends up after a diff against any `current` has been applied in
      any order: a wanted role must be held already, or be missing from `current`
      and its node registered; an unwanted one must not be held more often than
      `current` says. */
  lemma PairAfterDiff(s: State, current: map<NodeId, seq<Role>>, desired: Topology, ps: seq<Proposal>, n: NodeId, r: Role)
    requires IsDiff(current, desired, ps)
    ensures Wants(desired, n, r) ==>
              (r in RolesOf(ApplyAll(s, ps), n) <==>
                 r in RolesOf(s, n) || (r !in RolesIn(current, n) && n in s.nodes))
    ensures !Wants(desired, n, r) ==>
              (r !in RolesOf(ApplyAll(s, ps), n) <==> Count(s, n, r) <= multiset(RolesIn(current, n))[r])
  {
    DiffOnlyChangesRoles(current, desired, ps);
    CountAfterAll(s, ps, n, r);
    HeldIsCounted(s, n, r);
    HeldIsCounted(ApplyAll(s, ps), n, r);
    assert multiset(ps)[AssignRole(n, r)] == Needed(current, desired, AssignRole(n, r));
    assert multiset(ps)[RevokeRole(n, r)] == Needed(current, desired, RevokeRole(n, r));
  }

  /** Applying a diff against any `current`, such as the roles that descriptors
      report, gives every node exactly its desired roles if and only if every wanted
      role is held, or missing from `current` with its node registered, and no
      unwanted role is held more often than `current` says. */
  lemma StaleDiffReachesDesiredIff(s: State, current: map<NodeId, seq<Role>>, desired: Topology, ps: seq<Proposal>)
    requires IsDiff(current, desired, ps)
    ensures Reached(ApplyAll(s, ps), desired) <==>
            && (forall n, r | Wants(desired, n, r) && r !in RolesOf(s, n) ::
                  r !in RolesIn(current, n) && n in s.nodes)
            && (forall n, r | !Wants(desired, n, r) :: Count(s, n, r) <= multiset(RolesIn(current, n))[r])
  {
    forall n: NodeId, r: Role
      ensures Wants(desired, n, r) ==>
                (r in RolesOf(ApplyAll(s, ps), n) <==>
                   r in RolesOf(s, n) || (r !in RolesIn(current, n) && n in s.nodes))
      ensures !Wants(desired, n, r) ==>
                (r !in RolesOf(ApplyAll(s, ps), n) <==> Count(s, n, r) <= multiset(RolesIn(current, n))[r])
    {
      PairAfterDiff(s, current, desired, ps, n, r);
    }
  }

  /** Against the replicated assignments themselves, only registration is left: the
      desired roles are reached if and only if every node that lacks a desired role
      is registered. */
  lemma DiffReachesDesiredIff(s: State, desired: Topology, ps: seq<Proposal>)
    requires IsDiff(s.roleAssignments, desired, ps)
    ensures Reached(ApplyAll(s, ps), desired) <==>
            forall n, r | Wants(desired, n, r) && r !in RolesOf(s, n) :: n in s.nodes
  {
    StaleDiffReachesDesiredIff(s, s.roleAssignments, desired, ps);
  }

  /** Once the desired roles are in place there is nothing left to propose. */
  lemma SecondDiffIsEmpty(s: State, desired: Topology, ps: seq<Proposal>)
    requires Reached(s, desired) && IsDiff(s.roleAssignments, desired, ps)
    ensures ps == []
  {
    forall p
      ensures multiset(ps)[p] == 0
    {
      assert multiset(ps)[p] == Needed(s.roleAssignments, desired, p);
      if p.RevokeRole? {
        HeldIsCounted(s, p.nodeId, p.role);
      }
    }
    HeadIsMember(ps);
    assert ps != [] ==> multiset(ps)[ps[0]] == 0;
  }

  /** No sequence of role changes that reaches the desired roles does without any
      of the diff's proposals, so none is shorter. */
  lemma DiffIsMinimal(s: State, desired: Topology, ps: seq<Proposal>, qs: seq<Proposal>)
    requires IsDiff(s.roleAssignments, desired, ps)
    requires OnlyRoleChanges(qs) && Reached(ApplyAll(s, qs), desired)
    ensures multiset(ps) <= multiset(qs) && |ps| <= |qs|
  {
    forall p
      ensures multiset(ps)[p] <= multiset(qs)[p]
    {
      assert multiset(ps)[p] == Needed(s.roleAssignments, desired, p);
      if RoleChange(p) {
        var n, r := p.nodeId, p.role;
        CountAfterAll(s, qs, n, r);
        HeldIsCounted(s, n, r);
        HeldIsCounted(ApplyAll(s, qs), n, r);
      }
    }
    assert multiset(qs) == multiset(ps) + (multiset(qs) - multiset(ps));
    assert |multiset(ps)| == |ps| && |multiset(qs)| == |qs|;
  }

  /** On assignments without repeats the diff has exactly one proposal for each
      (node, role) pair on which current and desired differ, and no other. */
  lemma OneProposalPerDifference(s: State, desired: Topology, ps: seq<Proposal>, n: NodeId, r: Role)
    requires WellFormed(s) && IsDiff(s.roleAssignments, desired, ps)
    ensures multiset(ps)[AssignRole(n, r)] == if Wants(desired, n, r) && r !in RolesOf(s, n) then 1 else 0
    ensures multiset(ps)[RevokeRole(n, r)] == if !Wants(desired, n, r) && r in RolesOf(s, n) then 1 else 0
    ensures OnlyRoleChanges(ps)
  {
    DiffOnlyChangesRoles(s.roleAssignments, desired, ps);
    HeldIsCounted(s, n, r);
    assert NoRepeats(RolesOf(s, n));
    assert multiset(RolesOf(s, n))[r] <= 1;
  }
}
