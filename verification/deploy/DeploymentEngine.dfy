// The engine that updates the two nodes, and its recovery after a failure.
module DeploymentEngine {
  import opened Wrappers
  import opened OptionText
  import opened Containers
  import opened NmState
  import opened Deployment

  // A remote command, and what both nodes looked like when it was issued.
  datatype Record = Record(role: Role, cmd: Command, before: map<Role, Node>)

  class DeploymentEngine {
    const production: bool
    const docker: Docker
    // Whether the network fabric is managed at all.
    const f1: bool
    const worker: Contract
    const head: Contract
    // The remote command that fails, counted from 0, and how far it gets.
    const failAt: nat
    const progress: Progress
    var faulty: bool
    var nodes: map<Role, Node>
    var records: seq<Record>
    // The container of a role that has passed an ownership check last.
    ghost var cleared: map<Role, Container>

    function K(r: Role): Contract {
      if r.Worker? then worker else head
    }

    // Whatever was stopped or removed, by an update or by its recovery, was a container
    // of this deployment.
    ghost predicate Rightful(step: Record) {
      step.cmd.Stop? || step.cmd.Remove? ==> step.role in step.before && OwnedOn(step.before[step.role], step.role)
    }

    ghost predicate OwnedOn(n: Node, r: Role) {
      n.container.Some? && Owned(production, K(r), r, n.container.value)
    }

    ghost predicate Valid()
      reads this`nodes, this`records
    {
      && Full(nodes) && (forall r :: CurrentOwner(K(r), r, K(r).planned) && (f1 ==> K(r).target != ""))
      && forall i :: 0 <= i < |records| ==> Rightful(records[i])
    }

    // A container may be stopped or removed only after a check of this very container.
    ghost predicate Cleared(r: Role)
      reads this`nodes, this`cleared
    {
      r in nodes && nodes[r].container.Some? && r in cleared && SameButRunning(cleared[r], nodes[r].container.value)
    }

    constructor (production: bool, docker: Docker, f1: bool, worker: Contract, head: Contract, failAt: nat,
                 progress: Progress, nodes: map<Role, Node>)
      requires Full(nodes)
      requires CurrentOwner(worker, Worker, worker.planned) && CurrentOwner(head, Head, head.planned)
      requires f1 ==> worker.target != "" && head.target != ""
      ensures Valid() && this.nodes == nodes && faulty && records == []
      ensures this.production == production && this.docker == docker && this.f1 == f1 && this.worker == worker
      ensures this.head == head
      ensures this.failAt == failAt && this.progress == progress
    {
      this.production, this.docker, this.f1, this.worker, this.head := production, docker, f1, worker, head;
      this.failAt, this.progress := failAt, progress;
      this.nodes, faulty, records, cleared := nodes, true, [], map[];
    }

    function AfterCommand(n: Node, cmd: Command, ok: bool, target: string): Node {
      if !ok then AfterFailure(n, cmd, target, progress)
      else if CanSucceed(n, cmd) then Effect(n, cmd, target)
      else n
    }

    // What one remote command does.
    ghost predicate Ran(r: Role, cmd: Command, ok: bool, before: map<Role, Node>, after: map<Role, Node>) {
      && r in before
      && after == before[r := AfterCommand(before[r], cmd, ok, K(r).target)]
      && (ok ==> CanSucceed(before[r], cmd))
    }

    // Runs one command; stopping and removing demand a checked container.
    method Remote(r: Role, cmd: Command) returns (ok: bool)
      requires Valid() && (cmd.Stop? || cmd.Remove? ==> Cleared(r) && OwnedOn(nodes[r], r))
      modifies this`nodes, this`records
      ensures Valid() && Ran(r, cmd, ok, old(nodes), nodes)
      ensures ok <==> CanSucceed(old(nodes)[r], cmd) && !(faulty && |old(records)| == failAt)
      ensures records == old(records) + [Record(r, cmd, old(nodes))]
    {
      ok := CanSucceed(nodes[r], cmd) && !(faulty && |records| == failAt);
      records := records + [Record(r, cmd, nodes)];
      nodes := nodes[r := AfterCommand(nodes[r], cmd, ok, K(r).target)];
    }

    // None of these commands was made to fail.
    predicate Unhurt(from: nat, to: nat)
      reads this`faulty
    {
      !faulty || failAt < from || to <= failAt
    }

    // Refuses a container that is not this deployment's.
    method AssertOwned(r: Role, c: Container) returns (ok: bool)
      requires Valid() && nodes[r].container == Some(c)
      modifies this`cleared
      ensures ok == Owned(production, K(r), r, c) && (ok ==> Cleared(r))
      // This deployment by its labels; in production also the legacy one, and the locked image.
      ensures ok <==>
              && c.name == K(r).planned.name
              && ROLE_KEY in c.labels && c.labels[ROLE_KEY] == (if r.Worker? then "worker" else "head")
              && (|| (DEPLOYMENT_KEY in c.labels && c.labels[DEPLOYMENT_KEY] == K(r).deploymentId)
                  || (production && c.image == K(r).legacyImage
                      && OWNER_KEY in c.labels && c.labels[OWNER_KEY] == LEGACY_OWNER)
                  || (production && c.image == K(r).planned.image
                      && forall key :: key in K(r).lockedLabels ==>
                           key in c.labels && c.labels[key] == K(r).lockedLabels[key]))
    {
      ok := Owned(production, K(r), r, c);
      if ok {
        cleared := cleared[r := c];
      }
    }

    // ---- Where an update may have got to ----

    ghost predicate Between(r: Role, cap: map<Role, Node>)
      reads this`nodes
    {
      && r in nodes && r in cap && cap[r].container.Some?
      && ContainerBetween(K(r), cap[r].container.value, nodes[r].container)
      && NmBetween(cap[r].nm, nodes[r].nm, K(r).target)
      && (!f1 ==> nodes[r].nm == cap[r].nm)
    }

    ghost predicate Underway(cap: map<Role, Node>)
      reads this`nodes
    {
      Full(cap) && Full(nodes) && forall r :: Between(r, cap)
    }

    // The commands an update issues.
    predicate OfUpdate(r: Role, cmd: Command) {
      match cmd
      case Read => true
      case Ensure(uuid) => f1 && uuid != "" && K(r).target != ""
      case Up(name) => f1 && name == K(r).target
      case Down(_) => false
      case Delete(_) => false
      case Stop => true
      case Remove => true
      case Create(made) => made == Some(K(r).planned)
      case Start => true
    }

    // Whatever happens to such a command, the node stays between the two states.
    lemma StaysUnderway(r: Role, cmd: Command, ok: bool, before: map<Role, Node>, cap: map<Role, Node>)
      requires Full(cap) && Full(before) && cap[r].container.Some? && OfUpdate(r, cmd)
      requires ContainerBetween(K(r), cap[r].container.value, before[r].container)
      requires NmBetween(cap[r].nm, before[r].nm, K(r).target) && (!f1 ==> before[r].nm == cap[r].nm)
      requires Ran(r, cmd, ok, before, nodes)
      ensures Between(r, cap)
    {
    }

    method RunUpdateCommand(r: Role, cmd: Command, ghost cap: map<Role, Node>) returns (ok: bool)
      requires Valid() && Underway(cap) && OfUpdate(r, cmd)
      requires (cmd.Stop? || cmd.Remove? ==> Cleared(r) && OwnedOn(nodes[r], r))
      modifies this`nodes, this`records
      ensures Valid() && Underway(cap) && Ran(r, cmd, ok, old(nodes), nodes)
      ensures records == old(records) + [Record(r, cmd, old(nodes))]
      ensures Unhurt(|old(records)|, |records|) ==> (ok <==> CanSucceed(old(nodes)[r], cmd))
    {
      ghost var before := nodes;
      assert Between(r, cap);
      ok := Remote(r, cmd);
      StaysUnderway(r, cmd, ok, before, cap);
      forall q
        ensures Between(q, cap)
      {
        assert q != r ==> old(Between(q, cap));
      }
    }

    method ReadAll(count: nat, ghost cap: map<Role, Node>) returns (ok: bool)
      requires Valid() && Underway(cap)
      modifies this`nodes, this`records
      ensures Valid() && Underway(cap) && nodes == old(nodes) && |old(records)| <= |records|
      ensures Unhurt(|old(records)|, |records|) ==> ok
    {
      for i := 0 to |ORDER|
        invariant Valid() && Underway(cap) && nodes == old(nodes) && |old(records)| <= |records|
      {
        for j := 0 to count
          invariant Valid() && Underway(cap) && nodes == old(nodes) && |old(records)| <= |records|
        {
          ok := RunUpdateCommand(ORDER[i], Read, cap);
          if !ok {
            return false;
          }
        }
      }
      return true;
    }

    // ---- The steps of an update ----

    // Each step says how far it gets when it succeeds, and that it succeeds unless a command
    // was made to fail or the nodes were not as the steps before leave them.

    // The profile of the deployment is there, and the active one.
    predicate OnFabric(r: Role, nm: Nm) {
      K(r).target in nm.profiles && nm.active == Some(K(r).target)
    }

    // Makes sure of the profile, sets the link up and activates the profile, on each node.
    method ApplyFabric(uuid: string, checks: nat, ghost cap: map<Role, Node>) returns (ok: bool)
      requires Valid() && Underway(cap) && uuid != ""
      modifies this`nodes, this`records
      ensures Valid() && Underway(cap) && |old(records)| <= |records|
      ensures forall r :: nodes[r].container == old(nodes)[r].container
      ensures ok && f1 ==> forall r :: OnFabric(r, nodes[r].nm)
      ensures Unhurt(|old(records)|, |records|) ==> ok
    {
      if !f1 {
        return true;
      }
      for i := 0 to |ORDER|
        invariant Valid() && Underway(cap) && |old(records)| <= |records|
        invariant forall r :: nodes[r].container == old(nodes)[r].container
        invariant forall j :: 0 <= j < i ==> OnFabric(ORDER[j], nodes[ORDER[j]].nm)
      {
        ok := ApplyOne(ORDER[i], uuid, cap);
        if !ok {
          return false;
        }
      }
      forall r
        ensures OnFabric(r, nodes[r].nm)
      {
        assert r == ORDER[if r.Worker? then 0 else 1];
      }
      ok := ReadAll(checks, cap);
    }

    method ApplyOne(r: Role, uuid: string, ghost cap: map<Role, Node>) returns (ok: bool)
      requires Valid() && Underway(cap) && uuid != "" && f1
      modifies this`nodes, this`records
      ensures Valid() && Underway(cap) && |old(records)| <= |records|
      ensures nodes == old(nodes)[r := nodes[r]] && nodes[r].container == old(nodes)[r].container
      ensures ok ==> OnFabric(r, nodes[r].nm)
      ensures Unhurt(|old(records)|, |records|) ==> ok
    {
      ok := RunUpdateCommand(r, Ensure(uuid), cap);
      if !ok {
        return false;
      }
      ghost var made := nodes;
      // MTU, address, link and profile settings.
      for j := 0 to 4
        invariant Valid() && Underway(cap) && nodes == made && |old(records)| < |records|
      {
        ok := RunUpdateCommand(r, Read, cap);
        if !ok {
          return false;
        }
      }
      ok := RunUpdateCommand(r, Up(K(r).target), cap);
    }

    // What is to be down is down: nothing runs, or nothing is left at all.
    function Downed(n: Node, removing: bool): Node {
      if n.container.None? || removing then n.(container := None)
      else n.(container := Some(Running(n.container.value, false)))
    }

    // Stops what runs, or removes what is there, on each node, after a check of its owner. When
    // it fails, or finds a container of somebody else, that container is untouched.
    method TakeDown(removing: bool, ghost cap: map<Role, Node>) returns (ok: bool)
      requires Valid() && Underway(cap)
      modifies this`nodes, this`records, this`cleared
      ensures Valid() && Underway(cap) && |old(records)| <= |records|
      ensures ok ==> forall r :: nodes[r] == Downed(old(nodes)[r], removing)
      ensures forall r :: nodes[r] != old(nodes)[r] ==> OwnedOn(old(nodes)[r], r)
      ensures ok ==> forall r :: old(nodes)[r].container.Some? ==> OwnedOn(old(nodes)[r], r)
      ensures Unhurt(|old(records)|, |records|) && (forall r :: Removable(old(nodes)[r], r, removing)) ==> ok
    {
      ok := TakeDownOne(Worker, removing, cap);
      ghost var mid := nodes;
      if ok {
        ok := TakeDownOne(Head, removing, cap);
        assert nodes[Worker] == mid[Worker];
      }
      forall r
        ensures ok ==> nodes[r] == Downed(old(nodes)[r], removing)
        ensures nodes[r] != old(nodes)[r] ==> OwnedOn(old(nodes)[r], r)
        ensures ok && old(nodes)[r].container.Some? ==> OwnedOn(old(nodes)[r], r)
      {
        assert r == Worker || r == Head;
      }
    }

    // A container of the deployment, which runs no more when it is to be removed.
    ghost predicate Removable(n: Node, r: Role, removing: bool) {
      n.container.Some? ==> OwnedOn(n, r) && (removing ==> !n.container.value.running)
    }

    method TakeDownOne(r: Role, removing: bool, ghost cap: map<Role, Node>) returns (ok: bool)
      requires Valid() && Underway(cap)
      modifies this`nodes, this`records, this`cleared
      ensures Valid() && Underway(cap) && |old(records)| <= |records|
      ensures nodes == old(nodes)[r := nodes[r]] && (ok ==> nodes[r] == Downed(old(nodes)[r], removing))
      ensures nodes[r] != old(nodes)[r] || (ok && nodes[r].container.Some?) ==> OwnedOn(old(nodes)[r], r)
      ensures ok && old(nodes)[r].container.Some? ==> OwnedOn(old(nodes)[r], r)
      ensures Unhurt(|old(records)|, |records|) && Removable(old(nodes)[r], r, removing) ==> ok
    {
      var found;
      ok, found := FindOwned(r, cap);
      if ok && found.Some? {
        if removing {
          ok := RunUpdateCommand(r, Remove, cap);
        } else if found.value.running {
          ok := RunUpdateCommand(r, Stop, cap);
        }
      }
    }

    // Inspects the container of a role, and refuses one of somebody else.
    method FindOwned(r: Role, ghost cap: map<Role, Node>) returns (ok: bool, found: Option<Container>)
      requires Valid() && Underway(cap)
      modifies this`nodes, this`records, this`cleared
      ensures Valid() && Underway(cap) && nodes == old(nodes) && found == nodes[r].container
      ensures ok && found.Some? ==> Cleared(r) && OwnedOn(nodes[r], r)
      ensures records == old(records) + [Record(r, Read, old(nodes))]
      ensures Unhurt(|old(records)|, |records|) ==> (ok <==> found.Some? ==> OwnedOn(nodes[r], r))
    {
      ok := RunUpdateCommand(r, Read, cap);
      assert nodes == old(nodes);
      found := nodes[r].container;
      if ok && found.Some? {
        ok := AssertOwned(r, found.value);
      }
    }

    method CreateAll(ghost cap: map<Role, Node>) returns (ok: bool)
      requires Valid() && Underway(cap)
      modifies this`nodes, this`records
      ensures Valid() && Underway(cap) && |old(records)| <= |records|
      ensures ok ==> forall r :: nodes[r] == WithNew(old(nodes)[r], r, false)
      ensures Unhurt(|old(records)|, |records|) && (forall r :: old(nodes)[r].container.None?) ==> ok
    {
      for i := 0 to |ORDER|
        invariant Valid() && Underway(cap) && |old(records)| <= |records|
        invariant forall j :: 0 <= j < i ==> nodes[ORDER[j]] == WithNew(old(nodes)[ORDER[j]], ORDER[j], false)
        invariant forall j :: i <= j < |ORDER| ==> nodes[ORDER[j]] == old(nodes)[ORDER[j]]
      {
        ok := RunUpdateCommand(ORDER[i], Create(Some(K(ORDER[i]).planned)), cap);
        if !ok {
          return false;
        }
      }
      forall r
        ensures nodes[r] == WithNew(old(nodes)[r], r, false)
      {
        assert r == ORDER[if r.Worker? then 0 else 1];
      }
      return true;
    }

    // A node with the container its contract prescribes.
    function WithNew(n: Node, r: Role, running: bool): Node {
      n.(container := Some(Running(K(r).planned, running)))
    }

    // The head is started only while the worker runs.
    ghost predicate InOrder(step: Record) {
      step.cmd.Start? && step.role.Head? ==>
        Worker in step.before && step.before[Worker].container.Some? && step.before[Worker].container.value.running
    }

    method StartAll(ghost cap: map<Role, Node>) returns (ok: bool)
      requires Valid() && Underway(cap)
      modifies this`nodes, this`records, this`cleared
      ensures Valid() && Underway(cap) && (ok ==> forall r :: Upped(old(nodes)[r], nodes[r]))
      ensures |old(records)| <= |records| && forall i :: |old(records)| <= i < |records| ==> InOrder(records[i])
      ensures Unhurt(|old(records)|, |records|) && (forall r :: OwnedOn(old(nodes)[r], r)) ==> ok
    {
      ok := StartOne(Worker, cap);
      ghost var mid := nodes;
      if ok {
        ok := StartOne(Head, cap);
        assert nodes[Worker] == mid[Worker];
      }
      forall r
        ensures ok ==> Upped(old(nodes)[r], nodes[r])
      {
        assert r == Worker || r == Head;
      }
    }

    // The same node, with its container running.
    predicate Upped(was: Node, now: Node) {
      was.container.Some? && now == was.(container := Some(Running(was.container.value, true)))
    }

    method StartOne(r: Role, ghost cap: map<Role, Node>) returns (ok: bool)
      requires Valid() && Underway(cap)
      requires r.Head? ==> nodes[Worker].container.Some? && nodes[Worker].container.value.running
      modifies this`nodes, this`records, this`cleared
      ensures Valid() && Underway(cap) && nodes == old(nodes)[r := nodes[r]]
      ensures ok ==> Upped(old(nodes)[r], nodes[r])
      ensures old(records) <= records && forall i :: |old(records)| <= i < |records| ==> InOrder(records[i])
      ensures Unhurt(|old(records)|, |records|) && OwnedOn(old(nodes)[r], r) ==> ok
    {
      var found;
      ok, found := FindOwned(r, cap);
      if ok && (found.None? || !found.value.running) {
        ok := RunUpdateCommand(r, Start, cap);
      }
    }

    // What an update promises of a role when it succeeds.
    predicate DeployedOn(r: Role, n: Node) {
      && n.container.Some?
      && var c := n.container.value;
         c.running && c.image == K(r).planned.image && c.command == K(r).planned.command
             && c.labels == K(r).planned.labels
    }

    method Verify(attempts: nat, ghost cap: map<Role, Node>) returns (ok: bool)
      requires Valid() && Underway(cap)
      modifies this`nodes, this`records
      ensures Valid() && Underway(cap) && nodes == old(nodes) && |old(records)| <= |records|
      // Every container runs, with image, command and labels of its contract.
      ensures ok ==> forall r ::
                && nodes[r].container.Some? && nodes[r].container.value.running
                && nodes[r].container.value.image == K(r).planned.image
                && nodes[r].container.value.command == K(r).planned.command
                && nodes[r].container.value.labels == K(r).planned.labels
      ensures Unhurt(|old(records)|, |records|) && attempts > 0 && (forall r :: DeployedOn(r, nodes[r])) ==> ok
    {
      for i := 0 to |ORDER|
        invariant Valid() && Underway(cap) && nodes == old(nodes) && |old(records)| <= |records|
        invariant forall j :: 0 <= j < i ==> DeployedOn(ORDER[j], nodes[ORDER[j]])
      {
        ok := RunUpdateCommand(ORDER[i], Read, cap);
        if !ok || !DeployedOn(ORDER[i], nodes[ORDER[i]]) {
          return false;
        }
      }
      forall r
        ensures DeployedOn(r, nodes[r])
      {
        assert r == ORDER[if r.Worker? then 0 else 1];
      }
      // Readiness of the API on the head node.
      for i := 0 to attempts
        invariant Valid() && Underway(cap) && nodes == old(nodes) && |old(records)| <= |records|
        invariant i > 0 ==> !Unhurt(|old(records)|, |records|)
      {
        ok := RunUpdateCommand(Head, Read, cap);
        if ok {
          ok := RunUpdateCommand(Head, Read, cap);
          if ok {
            return true;
          }
        }
      }
      return false;
    }

    // Off with the old containers.
    method ClearAway(ghost cap: map<Role, Node>) returns (ok: bool)
      requires Valid() && Underway(cap)
      modifies this`nodes, this`records, this`cleared
      ensures Valid() && Underway(cap) && |old(records)| <= |records|
      ensures ok ==> forall r :: nodes[r] == old(nodes)[r].(container := None)
      ensures Unhurt(|old(records)|, |records|) && (forall r :: OwnedOn(old(nodes)[r], r)) ==> ok
    {
      ok := TakeDown(false, cap);
      if ok {
        ok := TakeDown(true, cap);
      }
    }

    // Staging, another preflight, and on with the new ones.
    method Launch(checks: nat, attempts: nat, ghost cap: map<Role, Node>) returns (ok: bool)
      requires Valid() && Underway(cap)
      modifies this`nodes, this`records, this`cleared
      ensures Valid() && Underway(cap) && |old(records)| <= |records|
      ensures ok ==> forall r :: nodes[r] == WithNew(old(nodes)[r], r, true)
      ensures Unhurt(|old(records)|, |records|) && attempts > 0 && (forall r :: old(nodes)[r].container.None?) ==> ok
    {
      ok := ReadAll(1 + checks, cap);
      if ok {
        ok := Raise(cap);
      }
      if ok {
        ok := Verify(attempts, cap);
      }
    }

    method Raise(ghost cap: map<Role, Node>) returns (ok: bool)
      requires Valid() && Underway(cap)
      modifies this`nodes, this`records, this`cleared
      ensures Valid() && Underway(cap) && |old(records)| <= |records|
      ensures ok ==> forall r :: nodes[r] == WithNew(old(nodes)[r], r, true)
      ensures Unhurt(|old(records)|, |records|) && (forall r :: old(nodes)[r].container.None?) ==> ok
    {
      ok := CreateAll(cap);
      if ok {
        ok := StartAll(cap);
      }
    }

    method Attempt(uuid: string, checks: nat, attempts: nat, ghost cap: map<Role, Node>) returns (ok: bool)
      requires Valid() && Underway(cap) && uuid != ""
      modifies this`nodes, this`records, this`cleared
      ensures Valid() && Underway(cap) && |old(records)| <= |records|
      ensures ok ==> forall r :: nodes[r].container == Some(Running(K(r).planned, true))
      ensures ok && f1 ==> forall r :: OnFabric(r, nodes[r].nm)
      ensures !f1 ==> forall r :: nodes[r].nm == cap[r].nm
      ensures Unhurt(|old(records)|, |records|) && attempts > 0 && (forall r :: OwnedOn(old(nodes)[r], r)) ==> ok
    {
      ok := ApplyFabric(uuid, checks, cap);
      if ok {
        ok := ReadAll(checks, cap);
      }
      if ok {
        ok := ClearAway(cap);
      }
      if ok {
        ok := Launch(checks, attempts, cap);
      }
      forall r
        ensures !f1 ==> nodes[r].nm == cap[r].nm
      {
        assert Between(r, cap);
      }
    }

    // ---- Recovery ----

    // A command of the recovery, which by assumption fails only if it cannot apply.
    method RunRecoveryCommand(r: Role, cmd: Command) returns (ok: bool)
      requires Valid() && !faulty && (cmd.Stop? || cmd.Remove? ==> Cleared(r) && OwnedOn(nodes[r], r))
      modifies this`nodes, this`records
      ensures Valid() && |old(records)| <= |records| && ok == CanSucceed(old(nodes)[r], cmd)
      ensures nodes == if ok then old(nodes)[r := Effect(old(nodes)[r], cmd, K(r).target)] else old(nodes)
    {
      ok := Remote(r, cmd);
    }

    // Reads the profiles of a node.
    method ReadFabric(r: Role) returns (state: NmState)
      requires Valid() && !faulty && nodes[r].nm.Ok()
      modifies this`nodes, this`records
      ensures Valid() && |old(records)| <= |records| && nodes == old(nodes)
      ensures Describes(state, nodes[r].nm, K(r).target, K(r).interface)
    {
      var _ := RunRecoveryCommand(r, Read);
      assert nodes == old(nodes);
      var read := ReadNmState(nodes[r].nm, K(r).target, K(r).interface);
      state := read.value;
    }

    // What is read back of the network must be possible after an update of this deployment.
    predicate Plausible(was: NmState, now: NmState, target: string, iface: string) {
      && (was.target.Some? ==> now.target.Some? && UuidOf(now.target) == UuidOf(was.target))
      && (was.target.None? && now.target.Some? ==> Bound(now.target.value, iface))
      && (now.active.Some? ==> NameOf(now.active) == Some(target) || NameOf(now.active) == NameOf(was.active))
      && (now.active.Some? && NameOf(now.active) == NameOf(was.active) ==> UuidOf(now.active) == UuidOf(was.active))
    }

    // What the final read-back compares.
    predicate SameFabric(was: NmState, now: NmState) {
      && (was.target.Some? <==> now.target.Some?) && UuidOf(was.target) == UuidOf(now.target)
      && NameOf(was.active) == NameOf(now.active) && UuidOf(was.active) == UuidOf(now.active)
    }

    // The captured network states are those of the captured nodes.
    ghost predicate FabricOf(fabric: map<Role, NmState>, roles: map<Role, Node>) {
      f1 ==> Full(fabric) && Full(roles) && forall r :: Describes(fabric[r], roles[r].nm, K(r).target, K(r).interface)
    }

    // Brings back the captured profile existence and the captured active profile.
    method RestoreFabricState(fabric: map<Role, NmState>, ghost roles: map<Role, Node>) returns (ok: bool)
      requires Valid() && !faulty && Underway(roles) && FabricOf(fabric, roles)
      modifies this`nodes, this`records
      ensures Valid() && |old(records)| <= |records| && ok && forall r :: nodes[r] == old(nodes)[r].(nm := roles[r].nm)
    {
      if !f1 {
        forall r
          ensures nodes[r] == nodes[r].(nm := roles[r].nm)
        {
          assert Between(r, roles);
        }
        return true;
      }
      CapturedOk(roles);
      ok := RestoreF1(fabric, roles);
    }

    method RestoreF1(fabric: map<Role, NmState>, ghost roles: map<Role, Node>) returns (ok: bool)
      requires Valid() && !faulty && Underway(roles) && f1 && FabricOf(fabric, roles) && forall r :: roles[r].nm.Ok()
      modifies this`nodes, this`records
      ensures Valid() && |old(records)| <= |records| && ok && forall r :: nodes[r] == old(nodes)[r].(nm := roles[r].nm)
    {
      var actions;
      ok, actions := PlanActions(fabric, roles);
      if ok {
        ok := RunBoth(actions, roles);
      }
      if ok {
        ok := ReadBackFabric(fabric, roles);
      }
    }

    lemma CapturedOk(roles: map<Role, Node>)
      requires Underway(roles)
      ensures forall r :: roles[r].nm.Ok()
    {
      forall r
        ensures roles[r].nm.Ok()
      {
        assert Between(r, roles);
      }
    }

    method RunBoth(actions: map<Role, seq<Command>>, ghost roles: map<Role, Node>) returns (ok: bool)
      requires Valid() && !faulty && Full(roles) && Planned(Worker, roles, actions) && Planned(Head, roles, actions)
      modifies this`nodes, this`records
      ensures Valid() && |old(records)| <= |records| && ok && forall r :: nodes[r] == old(nodes)[r].(nm := roles[r].nm)
    {
      ok := RunActions(Worker, actions[Worker]);
      if ok {
        ok := RunActions(Head, actions[Head]);
      }
      Restored(roles, old(nodes));
    }

    lemma Restored(roles: map<Role, Node>, before: map<Role, Node>)
      requires Full(nodes) && Full(roles) && Full(before)
      requires nodes[Worker] == before[Worker].(nm := roles[Worker].nm)
      requires nodes[Head] == before[Head].(nm := roles[Head].nm)
      ensures forall r :: nodes[r] == before[r].(nm := roles[r].nm)
    {
      forall r
        ensures nodes[r] == before[r].(nm := roles[r].nm)
      {
        assert r == Worker || r == Head;
      }
    }

    // Compares what is there with what was captured, and lists the commands to issue.
    method PlanActions(fabric: map<Role, NmState>, ghost roles: map<Role, Node>)
      returns (ok: bool, actions: map<Role, seq<Command>>)
      requires Valid() && !faulty && Underway(roles) && f1 && FabricOf(fabric, roles)
      modifies this`nodes, this`records
      ensures Valid() && |old(records)| <= |records| && nodes == old(nodes)
      ensures ok && forall r :: Planned(r, roles, actions)
    {
      actions := map[];
      for i := 0 to |ORDER|
        invariant Valid() && |old(records)| <= |records| && nodes == old(nodes) && Underway(roles)
        invariant forall j :: 0 <= j < i ==> Planned(ORDER[j], roles, actions)
      {
        var r := ORDER[i];
        var planned;
        assert Between(r, roles);
        ok, planned := PlanOne(r, fabric[r], roles);
        if !ok {
          return false, actions;
        }
        actions := actions[r := planned];
      }
      ok := true;
      forall r
        ensures Planned(r, roles, actions)
      {
        assert r == ORDER[if r.Worker? then 0 else 1];
      }
    }

    method PlanOne(r: Role, was: NmState, ghost roles: map<Role, Node>) returns (ok: bool, planned: seq<Command>)
      requires Valid() && !faulty && Full(roles) && nodes[r].nm.Ok() && roles[r].nm.Ok()
      requires Describes(was, roles[r].nm, K(r).target, K(r).interface)
      modifies this`nodes, this`records
      ensures Valid() && |old(records)| <= |records| && nodes == old(nodes)
      // Refuses a target that is gone or another one, and any other active profile.
      ensures ok <==> var (past, now, target) := (roles[r].nm, nodes[r].nm, K(r).target);
        && (target in past.profiles ==> target in now.profiles && now.profiles[target] == past.profiles[target])
        && (now.active.Some? && now.active != Some(target) ==> now.active == past.active)
        && (now.active.Some? && now.active == past.active ==>
              now.profiles[now.active.value] == past.profiles[now.active.value])
      ensures NmBetween(roles[r].nm, nodes[r].nm, K(r).target) ==> ok && Planned(r, roles, map[r := planned])
    {
      var now := ReadFabric(r);
      if !Plausible(was, now, K(r).target, K(r).interface) {
        return false, [];
      }
      planned := RestoreActions(was, now, K(r).target);
      if NmBetween(roles[r].nm, nodes[r].nm, K(r).target) {
        ActionsRestore(nodes[r], roles[r].nm, K(r).target, K(r).interface, was, now);
      }
      return true, planned;
    }

    ghost predicate Planned(r: Role, roles: map<Role, Node>, actions: map<Role, seq<Command>>)
      reads this`nodes
    {
      && r in actions && r in roles && r in nodes
      && (forall i :: 0 <= i < |actions[r]| ==> !actions[r][i].Stop? && !actions[r][i].Remove?)
      && CanRun(nodes[r], actions[r], K(r).target)
      && RunAll(nodes[r], actions[r], K(r).target) == nodes[r].(nm := roles[r].nm)
    }

    method RunActions(r: Role, cmds: seq<Command>) returns (ok: bool)
      requires Valid() && !faulty && forall i :: 0 <= i < |cmds| ==> !cmds[i].Stop? && !cmds[i].Remove?
      modifies this`nodes, this`records
      ensures Valid() && |old(records)| <= |records|
      ensures CanRun(old(nodes)[r], cmds, K(r).target) ==>
                ok && nodes == old(nodes)[r := RunAll(old(nodes)[r], cmds, K(r).target)]
    {
      ghost var n := nodes[r];
      for i := 0 to |cmds|
        invariant Valid() && |old(records)| <= |records|
        invariant CanRun(n, cmds, K(r).target) ==>
                    && CanRun(nodes[r], cmds[i..], K(r).target)
                    && RunAll(nodes[r], cmds[i..], K(r).target) == RunAll(n, cmds, K(r).target)
                    && nodes == old(nodes)[r := nodes[r]]
      {
        assert cmds[i..][0] == cmds[i] && cmds[i..][1..] == cmds[i + 1..];
        ok := RunRecoveryCommand(r, cmds[i]);
        // A connection that is down already need not be taken down.
        if !ok && !cmds[i].Down? {
          return false;
        }
      }
      return true;
    }

    // The network is back when profile and active profile are there, or missing, as captured.
    predicate NmBack(was: Nm, now: Nm, target: string) {
      && (target in was.profiles <==> target in now.profiles)
      && (target in was.profiles && target in now.profiles ==> was.profiles[target] == now.profiles[target])
      && was.active == now.active
      && (was.active.Some? && was.active.value in was.profiles && was.active.value in now.profiles ==>
            was.profiles[was.active.value] == now.profiles[was.active.value])
    }

    method ReadBackOne(r: Role, was: NmState, ghost past: Nm) returns (ok: bool)
      requires Valid() && !faulty && past.Ok() && nodes[r].nm.Ok()
      requires Describes(was, past, K(r).target, K(r).interface)
      modifies this`nodes, this`records
      ensures Valid() && |old(records)| <= |records| && nodes == old(nodes)
      ensures ok <==> var (now, target) := (nodes[r].nm, K(r).target);
        && (target in past.profiles <==> target in now.profiles) && past.active == now.active
        && (target in past.profiles && target in now.profiles ==> past.profiles[target] == now.profiles[target])
        && (past.active.Some? && past.active == now.active ==>
              past.profiles[past.active.value] == now.profiles[past.active.value])
    {
      var now := ReadFabric(r);
      ok := SameFabric(was, now);
    }

    method ReadBackFabric(fabric: map<Role, NmState>, ghost roles: map<Role, Node>) returns (ok: bool)
      requires Valid() && !faulty && f1 && FabricOf(fabric, roles)
      requires forall r :: nodes[r].nm.Ok() && roles[r].nm.Ok()
      modifies this`nodes, this`records
      ensures Valid() && |old(records)| <= |records| && nodes == old(nodes)
      ensures ok <==> forall r :: NmBack(roles[r].nm, nodes[r].nm, K(r).target)
    {
      for i := 0 to |ORDER|
        invariant Valid() && |old(records)| <= |records| && nodes == old(nodes)
        invariant forall j :: 0 <= j < i ==> NmBack(roles[ORDER[j]].nm, nodes[ORDER[j]].nm, K(ORDER[j]).target)
      {
        ok := ReadBackOne(ORDER[i], fabric[ORDER[i]], roles[ORDER[i]].nm);
        if !ok {
          return false;
        }
      }
      forall r
        ensures NmBack(roles[r].nm, nodes[r].nm, K(r).target)
      {
        assert r == ORDER[if r.Worker? then 0 else 1];
      }
      return true;
    }

    // Refuses to remove anything but the captured container or one of this deployment.
    method AssertReplaceable(r: Role, was: Container, c: Container) returns (ok: bool)
      requires Valid() && nodes[r].container == Some(c)
      modifies this`cleared
      ensures ok == Replaceable(K(r), r, was, c) && (ok ==> Cleared(r))
      ensures ok <==>
              && c.name == was.name && (c.image == was.image || c.image == K(r).planned.image)
              && (|| c.labels == was.labels
                  || (DEPLOYMENT_KEY in c.labels && c.labels[DEPLOYMENT_KEY] == K(r).deploymentId
                      && ROLE_KEY in c.labels && c.labels[ROLE_KEY] == (if r.Worker? then "worker" else "head")))
    {
      ok := Replaceable(K(r), r, was, c);
      if ok {
        cleared := cleared[r := c];
      }
    }

    // A captured container passed the ownership check, and was created from its role's contract name.
    ghost predicate Captured(roles: map<Role, Node>) {
      Full(roles) && forall r :: roles[r].container.Some? && Owned(production, K(r), r, roles[r].container.value)
    }

    lemma LeftoverReplaceable(r: Role, was: Container, c: Container)
      requires CurrentOwner(K(r), r, K(r).planned) && Owned(production, K(r), r, was)
      requires ContainerBetween(K(r), was, Some(c))
      ensures Replaceable(K(r), r, was, c) && Owned(production, K(r), r, c)
    {
    }

    // Removes what an update has left, after a check of each container.
    method RemoveRollbackTargets(roles: map<Role, Node>) returns (ok: bool)
      requires Valid() && !faulty && Captured(roles)
      requires forall r :: ContainerBetween(K(r), roles[r].container.value, nodes[r].container)
      modifies this`nodes, this`records, this`cleared
      ensures Valid() && |old(records)| <= |records| && ok && forall r :: nodes[r] == old(nodes)[r].(container := None)
    {
      ok := RemoveTarget(Worker, roles[Worker].container.value);
      ghost var mid := nodes;
      if ok {
        ok := RemoveTarget(Head, roles[Head].container.value);
      }
      BothEmptied(old(nodes), mid, nodes);
    }

    lemma BothEmptied(before: map<Role, Node>, mid: map<Role, Node>, after: map<Role, Node>)
      requires Full(before) && mid == before[Worker := before[Worker].(container := None)]
      requires after == mid[Head := mid[Head].(container := None)]
      ensures forall r :: after[r] == before[r].(container := None)
    {
      forall r: Role
        ensures after[r] == before[r].(container := None)
      {
        assert r == Worker || r == Head;
      }
    }

    method RemoveTarget(r: Role, was: Container) returns (ok: bool)
      requires Valid() && !faulty && Owned(production, K(r), r, was) && ContainerBetween(K(r), was, nodes[r].container)
      modifies this`nodes, this`records, this`cleared
      ensures Valid() && |old(records)| <= |records| && ok
      ensures nodes == old(nodes)[r := old(nodes)[r].(container := None)]
    {
      ok := RunRecoveryCommand(r, Read);
      assert nodes == old(nodes);
      var found := nodes[r].container;
      if found.None? {
        assert nodes[r] == nodes[r].(container := None);
        return true;
      }
      LeftoverReplaceable(r, was, found.value);
      ok := AssertReplaceable(r, was, found.value);
      if ok && found.value.running {
        ok := RunRecoveryCommand(r, Stop);
      }
      if ok {
        ok := RunRecoveryCommand(r, Remove);
      }
    }

    // Whether a captured container is created anew at all.
    ghost predicate Comes(n: Node) {
      n.container.Some? && Recreated(docker, n.container.value).Some?
    }

    // What creating anew does to one node: a container that is refused stays away.
    ghost predicate Remade(ok: bool, was: Node, before: Node, now: Node) {
      && was.container.Some?
      && (ok ==> now == before.(container := Some(BroughtBack(docker, was.container.value))))
      && (!Comes(was) ==> now.container.None?)
    }

    // Creates the captured containers anew and starts those that ran.
    method RecreateAll(roles: map<Role, Node>) returns (ok: bool)
      requires Valid() && !faulty && Captured(roles) && forall r :: nodes[r].container.None?
      modifies this`nodes, this`records
      ensures Valid() && |old(records)| <= |records| && (ok <==> Comes(roles[Worker]) && Comes(roles[Head]))
      ensures Remade(ok, roles[Worker], old(nodes)[Worker], nodes[Worker])
      ensures Remade(ok, roles[Head], old(nodes)[Head], nodes[Head])
    {
      ok := Recreate(Worker, roles[Worker].container.value);
      ghost var mid := nodes;
      assert mid[Head] == old(nodes)[Head];
      if ok {
        ok := Recreate(Head, roles[Head].container.value);
        assert nodes[Worker] == mid[Worker];
      }
    }

    method Recreate(r: Role, was: Container) returns (ok: bool)
      requires Valid() && !faulty && nodes[r].container.None?
      modifies this`nodes, this`records
      ensures Valid() && |old(records)| <= |records|
      ensures (ok <==> Recreated(docker, was).Some?) && nodes == old(nodes)[r := nodes[r]]
      ensures nodes[r] == if ok then old(nodes)[r].(container := Some(BroughtBack(docker, was))) else old(nodes)[r]
    {
      var options := BuildOptions(was);
      if options.None? {
        return false;
      }
      var o := options.value;
      ok := RunRecoveryCommand(r, Create(docker.Created(o)));
      if ok && was.running {
        ok := RunRecoveryCommand(r, Start);
      }
    }

    // Builds the create command part by part, refusing what is malformed.
    method BuildOptions(was: Container) returns (options: Option<CreateOptions>)
      ensures options == RollbackOptions(was)
      ensures options.Some? <==>
              && (forall i :: 0 <= i < |was.host.securityOpts| ==> was.host.securityOpts[i] != "")
              && (forall i :: 0 <= i < |was.host.ulimits| ==>
                    was.host.ulimits[i].name != "" && was.host.ulimits[i].hard.Some?)
              && (forall key :: key in was.labels ==> key != "" && was.labels[key] != "")
              && (forall i :: 0 <= i < |was.environment| ==>
                    was.environment[i] != "" && '\0' !in was.environment[i])
              && (forall i :: 0 <= i < |was.mounts| ==> was.mounts[i].source != "" && was.mounts[i].destination != "")
      ensures options.Some? ==>
                && options.value.name == was.name && options.value.image == was.image
                && options.value.command == was.command && options.value.environment == was.environment
                && options.value.network == (if was.host.network == "" then None else Some(was.host.network))
                && options.value.ipc == (if was.host.ipc == "" then None else Some(was.host.ipc))
                && options.value.shmSize == (if was.host.shmSize == 0 then None else Some(was.host.shmSize))
                && options.value.workingDir == (if was.workingDir == "" then None else Some(was.workingDir))
                && options.value.privileged == was.host.privileged && options.value.readOnly == was.host.readOnly
                && options.value.securityOpts == was.host.securityOpts
                && (options.value.allGpus <==>
                     exists i :: 0 <= i < |was.host.devices| && was.host.devices[i].count == -1)
    {
      for i := 0 to |was.host.securityOpts|
        invariant forall j :: 0 <= j < i ==> was.host.securityOpts[j] != ""
      {
        if was.host.securityOpts[i] == "" {
          return None;
        }
      }
      var allGpus := AsksForGpus(was.host.devices);
      var ulimits := BuildUlimits(was.host.ulimits);
      var labels := BuildLabels(was.labels);
      var mounts := BuildMounts(was.mounts);
      if ulimits.None? || labels.None? || mounts.None? {
        return None;
      }
      for i := 0 to |was.environment|
        invariant forall j :: 0 <= j < i ==> GoodEnv(was.environment[j])
      {
        if !GoodEnv(was.environment[i]) {
          return None;
        }
      }
      return Some(CreateOptions(was.name, Given(was.host.network), Given(was.host.ipc), was.host.privileged,
                                GivenSize(was.host.shmSize), was.host.securityOpts, allGpus, ulimits.value,
                                    was.host.readOnly,
                                labels.value, was.environment, mounts.value, Given(was.workingDir), was.image,
                                    was.command));
    }

    method AsksForGpus(devices: seq<DeviceRequest>) returns (all: bool)
      ensures all == WantsGpus(devices)
    {
      for i := 0 to |devices|
        invariant forall j :: 0 <= j < i ==> devices[j].count != -1
      {
        if devices[i].count == -1 {
          return true;
        }
      }
      return false;
    }

    method BuildUlimits(limits: seq<Ulimit>) returns (texts: Option<seq<string>>)
      ensures texts.Some? <==> forall i :: 0 <= i < |limits| ==> GoodUlimit(limits[i])
      ensures texts.Some? ==> texts.value == UlimitTexts(limits)
      ensures texts.Some? ==> forall i :: 0 <= i < |limits| ==>
                texts.value[i] == limits[i].name + "="
                    + Decimal(if limits[i].soft.Some? then limits[i].soft.value else limits[i].hard.value)
                    + ":" + Decimal(limits[i].hard.value)
    {
      var list := [];
      for i := 0 to |limits|
        invariant |list| == i && forall j :: 0 <= j < i ==> GoodUlimit(limits[j]) && list[j] == UlimitOption(limits[j])
      {
        var soft := if limits[i].soft.Some? then limits[i].soft else limits[i].hard;
        if limits[i].name == "" || limits[i].hard.None? || soft.None? {
          assert !GoodUlimit(limits[i]);
          return None;
        }
        list := list + [limits[i].name + "=" + Decimal(soft.value) + ":" + Decimal(limits[i].hard.value)];
      }
      return Some(list);
    }

    // One text for each label, in the order of the keys.
    method BuildLabels(labels: map<string, string>) returns (texts: Option<seq<string>>)
      ensures texts.Some? <==> GoodLabels(labels)
      ensures texts.Some? ==> texts.value == LabelOptions(labels)
      ensures texts.Some? ==> forall key :: key in labels ==> key + "=" + labels[key] in texts.value
    {
      var list: seq<string> := [];
      var rest := labels.Keys;
      ghost var done: seq<string> := [];
      while rest != {}
        invariant rest <= labels.Keys && done + Sorted(rest) == Sorted(labels.Keys)
        invariant forall key :: key in labels <==> key in rest || key in done
        invariant forall key :: key in done ==> key != "" && labels[key] != ""
        invariant list == LabelTexts(done, labels)
        decreases rest
      {
        var key := FindLeast(rest);
        if key == "" || labels[key] == "" {
          return None;
        }
        MoreLabels(labels, done, key);
        assert done + Sorted(rest) == (done + [key]) + Sorted(rest - {key});
        list := list + [key + "=" + labels[key]];
        done, rest := done + [key], rest - {key};
      }
      assert done + [] == done;
      AllLabels(done, labels);
      return Some(list);
    }

    lemma AllLabels(keys: seq<string>, labels: map<string, string>)
      requires forall k :: k in keys <==> k in labels
      ensures forall k :: k in labels ==> k + "=" + labels[k] in LabelTexts(keys, labels)
    {
      forall k | k in labels
        ensures k + "=" + labels[k] in LabelTexts(keys, labels)
      {
        var i :| 0 <= i < |keys| && keys[i] == k;
        assert LabelTexts(keys, labels)[i] == LabelText(k, labels[k]);
      }
    }

    lemma MoreLabels(labels: map<string, string>, keys: seq<string>, key: string)
      requires (forall k :: k in keys ==> k in labels) && key in labels
      ensures LabelTexts(keys + [key], labels) == LabelTexts(keys, labels) + [LabelText(key, labels[key])]
    {
    }

    method BuildMounts(mounts: seq<Mount>) returns (texts: Option<seq<string>>)
      ensures texts.Some? <==> forall i :: 0 <= i < |mounts| ==> GoodMount(mounts[i])
      ensures texts.Some? ==> texts.value == MountTexts(mounts)
      ensures texts.Some? ==> forall i :: 0 <= i < |mounts| ==>
                texts.value[i] == "type=" + mounts[i].kind + ",src=" + mounts[i].source
                    + ",dst=" + mounts[i].destination + (if mounts[i].writable then "" else ",readonly")
    {
      var list := [];
      for i := 0 to |mounts|
        invariant |list| == i && forall j :: 0 <= j < i ==> GoodMount(mounts[j]) && list[j] == MountText(mounts[j])
      {
        var m := mounts[i];
        if m.source == "" || m.destination == "" {
          assert !GoodMount(m);
          return None;
        }
        var option := "type=" + m.kind + ",src=" + m.source + ",dst=" + m.destination;
        if !m.writable {
          option := option + ",readonly";
        }
        MountTextWhole(m, option);
        list := list + [option];
      }
      return Some(list);
    }

    lemma MountTextWhole(m: Mount, option: string)
      requires var base := "type=" + m.kind + ",src=" + m.source + ",dst=" + m.destination;
        option == if m.writable then base else base + ",readonly"
      ensures option == MountText(m)
    {
      if m.writable {
        assert option + "" == option;
      }
    }

    // Compares each container with the captured one, field by field.
    method VerifyRollback(roles: map<Role, Node>) returns (ok: bool)
      requires Valid() && !faulty && Captured(roles) && forall r :: nodes[r].container.Some?
      modifies this`nodes, this`records
      ensures Valid() && |old(records)| <= |records| && nodes == old(nodes)
      ensures ok <==> forall r :: Matches(nodes[r].container.value, roles[r].container.value)
      // In every part but the order of the mounts.
      ensures ok ==> forall r ::
                && nodes[r].container.value.(mounts := roles[r].container.value.mounts) == roles[r].container.value
                && multiset(nodes[r].container.value.mounts) == multiset(roles[r].container.value.mounts)
    {
      for i := 0 to |ORDER|
        invariant Valid() && |old(records)| <= |records| && nodes == old(nodes)
        invariant forall j :: 0 <= j < i ==> Matches(nodes[ORDER[j]].container.value, roles[ORDER[j]].container.value)
      {
        ok := RunRecoveryCommand(ORDER[i], Read);
        assert nodes == old(nodes);
        if !Matches(nodes[ORDER[i]].container.value, roles[ORDER[i]].container.value) {
          return false;
        }
      }
      forall r
        ensures Matches(nodes[r].container.value, roles[r].container.value)
      {
        assert r == ORDER[if r.Worker? then 0 else 1];
      }
      return true;
    }

    // How a recovery ends: with both nodes as captured exactly when the captured containers
    // can be created anew; a container that is refused is gone.
    ghost predicate Recovery(ok: bool, was: map<Role, Node>, now: map<Role, Node>) {
      && Full(was) && Full(now) && (forall r: Role :: was[r].container.Some?)
      && (ok <==> forall r :: Recreatable(docker, was[r].container.value))
      && (ok ==> now == was)
      && (!ok ==> forall r :: !Comes(was[r]) ==> now[r].container.None?)
    }

    // From wherever an update has got to.
    method Rollback(roles: map<Role, Node>, fabric: map<Role, NmState>) returns (ok: bool)
      requires Valid() && !faulty && Captured(roles) && Underway(roles) && FabricOf(fabric, roles)
      modifies this`nodes, this`records, this`cleared
      ensures Valid() && |old(records)| <= |records| && Recovery(ok, roles, nodes)
    {
      ok := InspectImages();
      if ok {
        ok := RestoreFabricState(fabric, roles);
      }
      forall r
        ensures ContainerBetween(K(r), roles[r].container.value, nodes[r].container)
      {
        assert old(Between(r, roles));
      }
      if ok {
        ok := RemoveRollbackTargets(roles);
      }
      if ok {
        ok := RecreateAndVerify(roles);
      }
    }

    // The captured images must still be there before anything is touched.
    method InspectImages() returns (ok: bool)
      requires Valid() && !faulty
      modifies this`nodes, this`records
      ensures Valid() && |old(records)| <= |records| && ok && nodes == old(nodes)
    {
      ok := true;
      for i := 0 to |ORDER|
        invariant Valid() && |old(records)| <= |records| && ok && nodes == old(nodes)
      {
        ok := RunRecoveryCommand(ORDER[i], Read);
        assert nodes == old(nodes);
      }
    }

    ghost predicate BothRecreatable(was: map<Role, Node>)
      requires Full(was) && was[Worker].container.Some? && was[Head].container.Some?
    {
      Recreatable(docker, was[Worker].container.value) && Recreatable(docker, was[Head].container.value)
    }

    // Whether one node is as captured again.
    lemma BackAgain(ok: bool, was: Node, now: Node)
      requires Remade(ok, was, Node(None, was.nm), now)
      ensures Recreatable(docker, was.container.value) ==> Comes(was)
      ensures ok && Comes(was) ==>
                && (Recreatable(docker, was.container.value) <==>
                     now.container.Some? && Matches(now.container.value, was.container.value))
                && (Recreatable(docker, was.container.value) ==> now == was)
    {
      RecreatableIff(docker, was.container.value);
    }

    method RecreateAndVerify(roles: map<Role, Node>) returns (ok: bool)
      requires Valid() && !faulty && Captured(roles) && forall r :: nodes[r] == Node(None, roles[r].nm)
      modifies this`nodes, this`records
      ensures Valid() && |old(records)| <= |records| && Recovery(ok, roles, nodes)
    {
      ghost var both;
      ok, both := Remake(roles);
      if ok {
        ok := VerifyBoth(roles);
      }
      Ends(ok, both, roles, nodes);
    }

    // Creates both anew; both says whether the pair can come back at all.
    method Remake(roles: map<Role, Node>) returns (ok: bool, ghost both: bool)
      requires Valid() && !faulty && Captured(roles) && forall r :: nodes[r] == Node(None, roles[r].nm)
      modifies this`nodes, this`records
      ensures Valid() && |old(records)| <= |records|
      ensures both <==> BothRecreatable(roles)
      ensures both <==> ok && SameAgain(roles[Worker], nodes[Worker]) && SameAgain(roles[Head], nodes[Head])
      ensures both ==> nodes[Worker] == roles[Worker] && nodes[Head] == roles[Head]
      ensures ok ==> nodes[Worker].container.Some? && nodes[Head].container.Some?
      ensures !Comes(roles[Worker]) ==> nodes[Worker].container.None?
      ensures !Comes(roles[Head]) ==> nodes[Head].container.None?
    {
      ok := RecreateAll(roles);
      ghost var same;
      both, same := BothBack(ok, roles, nodes);
    }

    // After creating both anew: whether the pair can come back at all, and whether it matches.
    lemma BothBack(made: bool, was: map<Role, Node>, now: map<Role, Node>) returns (both: bool, same: bool)
      requires Full(was) && Full(now) && (made <==> Comes(was[Worker]) && Comes(was[Head]))
      requires Remade(made, was[Worker], Node(None, was[Worker].nm), now[Worker])
      requires Remade(made, was[Head], Node(None, was[Head].nm), now[Head])
      ensures both <==> BothRecreatable(was)
      ensures same <==> SameAgain(was[Worker], now[Worker]) && SameAgain(was[Head], now[Head])
      ensures both <==> made && same
      ensures both ==> now[Worker] == was[Worker] && now[Head] == was[Head]
      ensures made ==> now[Worker].container.Some? && now[Head].container.Some?
    {
      both := BothRecreatable(was);
      same := SameAgain(was[Worker], now[Worker]) && SameAgain(was[Head], now[Head]);
      BackAgain(made, was[Worker], now[Worker]);
      BackAgain(made, was[Head], now[Head]);
    }

    predicate SameAgain(was: Node, now: Node) {
      was.container.Some? && now.container.Some? && Matches(now.container.value, was.container.value)
    }

    method VerifyBoth(roles: map<Role, Node>) returns (ok: bool)
      requires Valid() && !faulty && Captured(roles) && nodes[Worker].container.Some? && nodes[Head].container.Some?
      modifies this`nodes, this`records
      ensures Valid() && |old(records)| <= |records| && nodes == old(nodes)
      ensures ok <==> SameAgain(roles[Worker], nodes[Worker]) && SameAgain(roles[Head], nodes[Head])
    {
      forall r
        ensures nodes[r].container.Some?
      {
        assert r == Worker || r == Head;
      }
      ok := VerifyRollback(roles);
      if !ok {
        var r :| !Matches(nodes[r].container.value, roles[r].container.value);
        assert r == Worker || r == Head;
      }
    }

    // From the two nodes to the pair.
    lemma Ends(ok: bool, both: bool, was: map<Role, Node>, now: map<Role, Node>)
      requires Full(was) && Full(now) && was[Worker].container.Some? && was[Head].container.Some? && (ok <==> both)
      requires both <==> BothRecreatable(was)
      requires ok ==> now[Worker] == was[Worker] && now[Head] == was[Head]
      requires !Comes(was[Worker]) ==> now[Worker].container.None?
      requires !Comes(was[Head]) ==> now[Head].container.None?
      ensures Recovery(ok, was, now)
    {
      BothCome(both, was);
      SamePair(ok, was, now);
      RefusedGone(was, now);
    }

    lemma BothCome(both: bool, was: map<Role, Node>)
      requires Full(was) && was[Worker].container.Some? && was[Head].container.Some?
      requires both <==> BothRecreatable(was)
      ensures forall r: Role :: was[r].container.Some?
      ensures both <==> forall r :: Recreatable(docker, was[r].container.value)
    {
      forall r: Role
        ensures was[r].container.Some? && (both ==> Recreatable(docker, was[r].container.value))
      {
        assert r == Worker || r == Head;
      }
    }

    lemma SamePair(ok: bool, was: map<Role, Node>, now: map<Role, Node>)
      requires Full(was) && Full(now) && (ok ==> now[Worker] == was[Worker] && now[Head] == was[Head])
      ensures ok ==> now == was
    {
      forall r: Role | ok
        ensures now[r] == was[r]
      {
        assert r == Worker || r == Head;
      }
      assert now.Keys == was.Keys;
    }

    lemma RefusedGone(was: map<Role, Node>, now: map<Role, Node>)
      requires Full(was) && Full(now)
      requires !Comes(was[Worker]) ==> now[Worker].container.None?
      requires !Comes(was[Head]) ==> now[Head].container.None?
      ensures forall r :: !Comes(was[r]) ==> now[r].container.None?
    {
      forall r | !Comes(was[r])
        ensures now[r].container.None?
      {
        assert r == Worker || r == Head;
      }
    }

    // What the profiles of both nodes are before anything is changed.
    method CaptureFabric() returns (fabric: map<Role, NmState>)
      requires Valid() && forall r :: nodes[r].nm.Ok()
      ensures FabricOf(fabric, nodes)
    {
      fabric := map[];
      if !f1 {
        return;
      }
      var worker := ReadNmState(nodes[Worker].nm, K(Worker).target, K(Worker).interface);
      var head := ReadNmState(nodes[Head].nm, K(Head).target, K(Head).interface);
      fabric := map[Worker := worker.value, Head := head.value];
      forall r: Role
        ensures r in fabric && Describes(fabric[r], nodes[r].nm, K(r).target, K(r).interface)
      {
        assert r == Worker || r == Head;
      }
    }

    // Captures both roles, updates, and goes back on any failure. It succeeds unless a command
    // was made to fail.
    method Update(uuid: string, checks: nat, attempts: nat) returns (ok: bool, recovered: bool)
      requires Valid() && faulty && Captured(nodes) && uuid != "" && forall r :: nodes[r].nm.Ok()
      modifies this
      ensures Valid() && |old(records)| <= |records|
      ensures ok ==> forall r :: nodes[r].container == Some(K(r).planned.(running := true))
      ensures ok && f1 ==> forall r :: K(r).target in nodes[r].nm.profiles && nodes[r].nm.active == Some(K(r).target)
      ensures ok && !f1 ==> forall r :: nodes[r].nm == old(nodes)[r].nm
      ensures !ok ==> Recovery(recovered, old(nodes), nodes)
      ensures attempts > 0 && (failAt < |old(records)| || |records| <= failAt) ==> ok
    {
      var roles := nodes;
      var fabric := CaptureFabric();
      recovered := false;
      ok := Attempt(uuid, checks, attempts, roles);
      if !ok {
        // The guarantee is about recoveries whose own commands succeed.
        faulty := false;
        recovered := Rollback(roles, fabric);
      }
    }

    // A pair an update may start from, and loses when it fails.
    lemma LostPair(was: map<Role, Node>, now: map<Role, Node>, lost: Role, recovered: bool)
      requires Full(was) && forall r :: was[r].container == Some(LostContainer(K(r), r))
      requires Recovery(recovered, was, now)
      ensures Captured(was) && !recovered && now[lost].container.None?
    {
      forall r
        ensures Owned(production, K(r), r, was[r].container.value) && !Comes(was[r])
      {
        OwnedYetLost(production, K(r), r, docker);
      }
      RecreatableIff(docker, was[lost].container.value);
    }
  }
}
