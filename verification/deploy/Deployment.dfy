// Updating a pair of nodes by remote commands, any of which may fail, and going back.
module Deployment {
  import opened Wrappers
  import opened Containers
  import opened NmState

  datatype Role = Worker | Head

  // The worker always comes first.
  const ORDER: seq<Role> := [Worker, Head]

  const OWNER_KEY := "com.dgx-spark.owner"
  const DEPLOYMENT_KEY := "com.dgx-spark.deployment_id"
  const ROLE_KEY := "com.dgx-spark.role"
  const LEGACY_OWNER := "deepseek-v4-flash-dgx-spark"

  function RoleName(r: Role): string {
    match r
    case Worker => "worker"
    case Head => "head"
  }

  datatype Node = Node(container: Option<Container>, nm: Nm)

  predicate Full<T>(roles: map<Role, T>) {
    forall r: Role :: r in roles
  }

  // What a role's deployment prescribes: the container to create, and the profile to bring up.
  datatype Contract = Contract(deploymentId: string, planned: Container, lockedLabels: map<string, string>,
                               legacyImage: string,
                               target: string, interface: string)

  predicate Label(labels: map<string, string>, key: string, value: string) {
    key in labels && labels[key] == value
  }

  predicate CurrentOwner(k: Contract, r: Role, c: Container) {
    Label(c.labels, DEPLOYMENT_KEY, k.deploymentId) && Label(c.labels, ROLE_KEY, RoleName(r))
  }

  predicate LegacyOwner(k: Contract, r: Role, c: Container) {
    Label(c.labels, OWNER_KEY, LEGACY_OWNER) && Label(c.labels, ROLE_KEY, RoleName(r)) && c.image == k.legacyImage
  }

  predicate LockOwner(k: Contract, r: Role, c: Container) {
    Label(c.labels, ROLE_KEY, RoleName(r)) && c.image == k.planned.image && forall key :: key in k.lockedLabels ==>
        Label(c.labels, key, k.lockedLabels[key])
  }

  predicate Owned(production: bool, k: Contract, r: Role, c: Container) {
    && c.name == k.planned.name
    && (CurrentOwner(k, r, c) || (production && (LegacyOwner(k, r, c) || LockOwner(k, r, c))))
  }

  // What a rollback may remove: the captured container, or one of this deployment.
  predicate Replaceable(k: Contract, r: Role, was: Container, c: Container) {
    c.name == was.name && (c.image == was.image || c.image == k.planned.image)
        && (CurrentOwner(k, r, c) || c.labels == was.labels)
  }

  predicate SameButRunning(a: Container, b: Container) {
    Running(a, false) == Running(b, false)
  }

  // ---- Containers that an update takes and its recovery cannot give back ----

  // A container of the deployment itself, with a label without a value and a mount in memory.
  function LostContainer(k: Contract, r: Role): Container {
    Container(k.planned.name, k.planned.image, k.planned.command,
              map[DEPLOYMENT_KEY := k.deploymentId, ROLE_KEY := RoleName(r), "note" := ""], [], "",
              [Mount("tmpfs", "", "/scratch", true)], Host("host", "host", false, 1, false, [], [ALL_GPUS], []), true)
  }

  // It passes the ownership check, so an update begins; and either fault alone makes the
  // recovery refuse it, whatever docker accepts.
  lemma OwnedYetLost(production: bool, k: Contract, r: Role, d: Docker)
    ensures Owned(production, k, r, LostContainer(k, r)) && Recreated(d, LostContainer(k, r)).None?
    ensures Recreated(d, LostContainer(k, r).(mounts := [])).None?
    ensures Recreated(d, LostContainer(k, r).(labels := LostContainer(k, r).labels - {"note"})).None?
  {
    var c := LostContainer(k, r);
    assert "note" in c.labels && c.labels["note"] == "";
    assert !GoodMount(c.mounts[0]);
  }

  // ---- Remote commands ----

  datatype Command =
    | Read
    | Ensure(uuid: string)
    | Up(name: string)
    | Down(name: string)
    | Delete(name: string)
    | Stop
    | Remove
    // None is a container docker refuses to create.
    | Create(made: Option<Container>)
    | Start

  predicate CanSucceed(n: Node, cmd: Command) {
    match cmd
    case Up(name) => name in n.nm.profiles
    case Down(name) => n.nm.active == Some(name)
    case Delete(name) => name in n.nm.profiles
    case Stop => n.container.Some?
    case Remove => n.container.Some? && !n.container.value.running
    case Create(made) => n.container.None? && made.Some?
    case Start => n.container.Some?
    case _ => true
  }

  function Effect(n: Node, cmd: Command, target: string): Node
    requires CanSucceed(n, cmd)
  {
    match cmd
    case Read => n
    case Ensure(uuid) => if target in n.nm.profiles then n
    else n.(nm := n.nm.(profiles := n.nm.profiles[target := uuid]))
    case Up(name) => n.(nm := n.nm.(active := Some(name)))
    case Down(name) => n.(nm := n.nm.(active := None))
    case Delete(name) => n.(nm := Nm(n.nm.profiles - {name}, if n.nm.active == Some(name) then None else n.nm.active))
    case Stop => n.(container := Some(Running(n.container.value, false)))
    case Remove => n.(container := None)
    case Create(made) => n.(container := Some(Running(made.value, false)))
    case Start => n.(container := Some(Running(n.container.value, true)))
  }

  // How far a failing command got; halfway, an activation has dropped the old profile only.
  datatype Progress = NotAtAll | Halfway | Fully

  function AfterFailure(n: Node, cmd: Command, target: string, progress: Progress): Node {
    if !CanSucceed(n, cmd) || progress.NotAtAll? then n
    else if progress.Fully? then Effect(n, cmd, target)
    else if cmd.Up? then n.(nm := n.nm.(active := None))
    else n
  }

  // ---- What an update may leave behind ----

  ghost predicate NmBetween(was: Nm, now: Nm, target: string) {
    && (now.profiles == was.profiles
         || (target !in was.profiles && target in now.profiles
              && now.profiles == was.profiles[target := now.profiles[target]]))
    && (now.active == was.active || now.active == Some(target) || now.active == None)
    && now.Ok() && was.Ok()
  }

  ghost predicate ContainerBetween(k: Contract, was: Container, now: Option<Container>) {
    now.Some? ==> SameButRunning(now.value, was) || SameButRunning(now.value, k.planned)
  }

  // The commands that bring the network back, in the order issued.
  function RestoreActions(was: NmState, now: NmState, target: string): seq<Command> {
    TakeDownActions(was, now, target) + DeleteActions(was, now, target) + BringUpActions(was, now)
  }

  function TakeDownActions(was: NmState, now: NmState, target: string): seq<Command> {
    if now.target.Some? && now.target.value.active && NameOf(now.active) == Some(target)
        && NameOf(was.active) != Some(target)
    then [Down(target)] else []
  }

  function DeleteActions(was: NmState, now: NmState, target: string): seq<Command> {
    if now.target.Some? && was.target.None? then [Delete(target)] else []
  }

  function BringUpActions(was: NmState, now: NmState): seq<Command> {
    if was.active.Some? && NameOf(now.active) != NameOf(was.active) then [Up(was.active.value.name)] else []
  }

  ghost predicate CanRun(n: Node, cmds: seq<Command>, target: string)
    decreases |cmds|
  {
    cmds != [] ==> CanSucceed(n, cmds[0]) && CanRun(Effect(n, cmds[0], target), cmds[1..], target)
  }

  ghost function RunAll(n: Node, cmds: seq<Command>, target: string): Node
    requires CanRun(n, cmds, target)
    decreases |cmds|
  {
    if cmds == [] then n else RunAll(Effect(n, cmds[0], target), cmds[1..], target)
  }

  // The restoring commands all apply, and undo exactly what the update did to the network.
  lemma ActionsRestore(n: Node, was: Nm, target: string, iface: string, wasRead: NmState, nowRead: NmState)
    requires NmBetween(was, n.nm, target)
    requires Describes(wasRead, was, target, iface) && Describes(nowRead, n.nm, target, iface)
    ensures CanRun(n, RestoreActions(wasRead, nowRead, target), target)
    ensures RunAll(n, RestoreActions(wasRead, nowRead, target), target) == n.(nm := was)
  {
    var down := TakeDownActions(wasRead, nowRead, target);
    var delete := DeleteActions(wasRead, nowRead, target);
    var up := BringUpActions(wasRead, nowRead);
    var n1 := if down != [] then Effect(n, Down(target), target) else n;
    var n2 := if delete != [] then Effect(n1, Delete(target), target) else n1;
    var n3 := if up != [] then Effect(n2, up[0], target) else n2;
    if delete != [] {
      assert was.profiles[target := n.nm.profiles[target]] - {target} == was.profiles;
    }
    assert n3 == n.(nm := was);
    RunStep(n2, up, [], target);
    RunStep(n1, delete, up, target);
    RunStep(n, down, delete + up, target);
    assert down + (delete + up) == down + delete + up;
    assert up + [] == up;
  }

  // At most one command, then the rest.
  lemma RunStep(n: Node, first: seq<Command>, rest: seq<Command>, target: string)
    requires |first| <= 1 && (first != [] ==> CanSucceed(n, first[0]))
    requires CanRun(if first == [] then n else Effect(n, first[0], target), rest, target)
    ensures CanRun(n, first + rest, target)
    ensures RunAll(n, first + rest, target) ==
              RunAll(if first == [] then n else Effect(n, first[0], target), rest, target)
  {
    if first == [] {
      assert first + rest == rest;
    } else {
      assert (first + rest)[1..] == rest;
    }
  }
}
