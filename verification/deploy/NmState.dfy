// Reading the NetworkManager profiles of a node.
module NmState {
  import opened Wrappers

  // The network profiles of a node with their UUIDs, and the one active on the fabric interface.
  datatype Nm = Nm(profiles: map<string, string>, active: Option<string>) {
    ghost predicate Ok() {
      && (active.Some? ==> active.value in profiles)
      && forall name :: name in profiles ==> name != "" && profiles[name] != ""
    }
  }

  // One row of the profile listing.
  datatype Profile = Profile(name: string, uuid: string, device: string, active: bool)

  // What is captured: the target profile, and the profile active on the interface.
  datatype NmState = NmState(target: Option<Profile>, active: Option<Profile>)

  predicate OnInterface(p: Profile, iface: string) {
    p.active && p.device == iface
  }

  ghost predicate Unique(rows: seq<Profile>, hit: Profile -> bool) {
    forall i, j :: 0 <= i < j < |rows| && hit(rows[i]) ==> !hit(rows[j])
  }

  // The only row of its kind, if there is one.
  ghost predicate OnlyRow(rows: seq<Profile>, hit: Profile -> bool, found: Option<Profile>) {
    match found
    case None => forall p :: p in rows ==> !hit(p)
    case Some(p) => p in rows && hit(p) && forall q :: q in rows && hit(q) ==> q == p
  }

  // Refuses rows without identity, a second target and a second active profile.
  method ParseNmConnectionState(rows: seq<Profile>, target: string, iface: string) returns (r: Option<NmState>)
    ensures r.Some? <==>
              && (forall p :: p in rows ==> p.name != "" && p.uuid != "")
              && (forall i, j :: 0 <= i < j < |rows| && rows[i].name == target ==> rows[j].name != target)
              && (forall i, j :: 0 <= i < j < |rows| && rows[i].active && rows[i].device == iface ==>
                    !(rows[j].active && rows[j].device == iface))
    ensures r.Some? ==>
              && OnlyRow(rows, (p: Profile) => p.name == target, r.value.target)
              && OnlyRow(rows, (p: Profile) => p.active && p.device == iface, r.value.active)
  {
    for i := 0 to |rows|
      invariant forall k :: 0 <= k < i ==> rows[k].name != "" && rows[k].uuid != ""
    {
      if rows[i].name == "" || rows[i].uuid == "" {
        assert rows[i] in rows;
        return None;
      }
    }
    var ok, found := Select(rows, (p: Profile) => p.name == target);
    if !ok {
      return None;
    }
    var ok', active := Select(rows, (p: Profile) => p.active && p.device == iface);
    if !ok' {
      return None;
    }
    return Some(NmState(found, active));
  }

  method Select(rows: seq<Profile>, hit: Profile -> bool) returns (ok: bool, found: Option<Profile>)
    ensures ok <==> Unique(rows, hit)
    ensures ok ==> OnlyRow(rows, hit, found)
  {
    found := None;
    for i := 0 to |rows|
      invariant Unique(rows[..i], hit) && OnlyRow(rows[..i], hit, found)
    {
      assert rows[..i + 1] == rows[..i] + [rows[i]];
      if hit(rows[i]) {
        if found.Some? {
          var k :| 0 <= k < i && rows[..i][k] == found.value;
          assert hit(rows[k]);
          return false, None;
        }
        found := Some(rows[i]);
      }
    }
    assert rows[..|rows|] == rows;
    return true, found;
  }

  // ---- What is read of a node ----

  // The rows a node prints: one for each profile; at most one is active on the interface, and
  // the target profile is bound to it.
  ghost predicate Lists(rows: seq<Profile>, nm: Nm, target: string, iface: string) {
    && (forall p :: p in rows ==> RowOf(p, nm, iface) && (p.name == target ==> Bound(p, iface)))
    && (forall name :: name in nm.profiles ==> exists p :: p in rows && p.name == name)
    && (forall i, j :: 0 <= i < j < |rows| ==> rows[i].name != rows[j].name)
  }

  predicate RowOf(p: Profile, nm: Nm, iface: string) {
    p.name in nm.profiles && p.uuid == nm.profiles[p.name] && (OnInterface(p, iface) <==> nm.active == Some(p.name))
  }

  predicate Bound(p: Profile, iface: string) {
    p.device == iface || p.device == "--" || p.device == ""
  }

  method ShowConnections(nm: Nm, ghost target: string, iface: string) returns (rows: seq<Profile>)
    ensures Lists(rows, nm, target, iface)
  {
    rows := [];
    var rest := nm.profiles.Keys;
    while rest != {}
      invariant rest <= nm.profiles.Keys
      invariant forall p :: p in rows ==> RowOf(p, nm, iface) && Bound(p, iface) && p.name !in rest
      invariant forall name :: name in nm.profiles && name !in rest ==> exists p :: p in rows && p.name == name
      invariant forall i, j :: 0 <= i < j < |rows| ==> rows[i].name != rows[j].name
      decreases rest
    {
      var name :| name in rest;
      var row := if nm.active == Some(name) then Profile(name, nm.profiles[name], iface, true)
                 else Profile(name, nm.profiles[name], "--", false);
      assert forall i :: 0 <= i < |rows| ==> rows[i] in rows;
      ghost var was := rows;
      rows, rest := rows + [row], rest - {name};
      assert forall p :: p in was ==> p in rows;
      assert row in rows;
    }
  }

  function NameOf(p: Option<Profile>): Option<string> {
    if p.Some? then Some(p.value.name) else None
  }

  function UuidOf(p: Option<Profile>): Option<string> {
    if p.Some? then Some(p.value.uuid) else None
  }

  // The state read says of the target, and of the active profile, what there is.
  ghost predicate Describes(state: NmState, nm: Nm, target: string, iface: string) {
    && NameOf(state.target) == (if target in nm.profiles then Some(target) else None)
    && NameOf(state.active) == nm.active
    && (state.target.Some? ==> UuidOf(state.target) == Some(nm.profiles[target]))
    && (state.active.Some? ==> state.active.value.name in nm.profiles
                               && UuidOf(state.active) == Some(nm.profiles[state.active.value.name]))
    && (nm.active == Some(target) ==> state.target.Some? && state.target.value.active)
    && (state.target.Some? ==> Bound(state.target.value, iface))
  }

  // Reading succeeds for every node whose profiles have names and UUIDs, and describes it.
  method ReadNmState(nm: Nm, target: string, iface: string) returns (state: Option<NmState>)
    requires nm.Ok()
    ensures state.Some? && Describes(state.value, nm, target, iface)
    ensures state.value.target.Some? <==> target in nm.profiles
    ensures target in nm.profiles ==>
              state.value.target.value.name == target && state.value.target.value.uuid == nm.profiles[target]
    ensures state.value.active.Some? <==> nm.active.Some?
    ensures nm.active.Some? ==>
              && state.value.active.value.name == nm.active.value
              && state.value.active.value.uuid == nm.profiles[nm.active.value]
  {
    var rows := ShowConnections(nm, target, iface);
    state := ParseNmConnectionState(rows, target, iface);
    ListedOnce(rows, nm, target, iface);
    Described(rows, nm, target, iface, state.value);
  }

  lemma ListedOnce(rows: seq<Profile>, nm: Nm, target: string, iface: string)
    requires nm.Ok() && Lists(rows, nm, target, iface)
    ensures forall p :: p in rows ==> p.name != "" && p.uuid != ""
    ensures Unique(rows, (p: Profile) => p.name == target)
    ensures Unique(rows, (p: Profile) => p.active && p.device == iface)
  {
    forall i, j | 0 <= i < j < |rows| && OnInterface(rows[i], iface)
      ensures !OnInterface(rows[j], iface)
    {
      assert rows[i] in rows && rows[j] in rows;
    }
  }

  lemma Described(rows: seq<Profile>, nm: Nm, target: string, iface: string, state: NmState)
    requires nm.Ok() && Lists(rows, nm, target, iface)
    requires OnlyRow(rows, (p: Profile) => p.name == target, state.target)
    requires OnlyRow(rows, (p: Profile) => p.active && p.device == iface, state.active)
    ensures Describes(state, nm, target, iface)
  {
    if target in nm.profiles {
      var p :| p in rows && p.name == target;
    }
    if nm.active.Some? {
      var p :| p in rows && p.name == nm.active.value;
      assert OnInterface(p, iface);
    }
  }
}
