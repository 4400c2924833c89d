/** Assignment of virtual ports to controllers by the Linux daemon (src/platform/linux/vdsd.cc): channels
    accepted, connections that fail or drop, ports that vanish, configurations reloaded. */
module VdsdPorts {
  import opened VdsTypes
  import opened VdsConfig

  /** A controller's runtime record. A descriptor or backend is held or not; its contents do not matter. */
  datatype Controller = Controller(
    config: ControllerConfig,
    device: string,
    backend: bool,
    pendingControl: bool,
    pendingInterrupt: bool,
    virtualConnected: bool)

  predicate UsesPort(c: Controller) {
    c.backend || c.pendingControl || c.pendingInterrupt || c.virtualConnected
  }

  function Cleared(c: Controller): Controller {
    Controller(c.config, "", false, false, false, false)
  }

  // ---------------------------------------------------------------------------------------------
  // What must hold between any two events
  // ---------------------------------------------------------------------------------------------

  /** Either connected, or waiting with one of its two channels, or idle. */
  predicate Staged(c: Controller) {
    && (c.backend == c.virtualConnected)
    && !(c.pendingControl && c.pendingInterrupt)
    && (c.backend ==> !c.pendingControl && !c.pendingInterrupt)
  }

  predicate Sound(c: Controller) {
    && Staged(c)
    && (UsesPort(c) ==> c.device != "")
    && (c.device != "" ==> AllowsPath(c.config, c.device))
  }

  /** No two controllers that use a port hold the same device, and a held device is one its
      controller's configuration allows. */
  ghost predicate Assigned(cs: seq<Controller>) {
    && (forall i :: 0 <= i < |cs| ==> Sound(cs[i]))
    && (forall i, j :: 0 <= i < j < |cs| && UsesPort(cs[i]) && UsesPort(cs[j]) ==> cs[i].device != cs[j].device)
    && (forall i, j :: 0 <= i < j < |cs| ==> cs[i].config.address != cs[j].config.address)
  }

  ghost predicate DistinctAddresses(configs: seq<ControllerConfig>) {
    forall i, j :: 0 <= i < j < |configs| ==> configs[i].address != configs[j].address
  }

  // ---------------------------------------------------------------------------------------------
  // Choosing a port
  // ---------------------------------------------------------------------------------------------

  function PresentPorts(ports: seq<string>): seq<nat> {
    if ports == [] then []
    else
      PresentPorts(ports[..|ports| - 1])
      + match PortIndex(ports[|ports| - 1])
        case Some(n) => [n]
        case None => []
  }

  /** The ports of the controllers other than number `self` that use one; `n` of them are looked at. */
  function OccupiedPorts(cs: seq<Controller>, self: nat, n: nat): seq<nat>
    requires n <= |cs|
  {
    if n == 0 then []
    else
      OccupiedPorts(cs, self, n - 1)
      + match PortIndex(cs[n - 1].device)
        case Some(p) => if n - 1 != self && UsesPort(cs[n - 1]) then [p] else []
        case None => []
  }

  lemma {:induction false} PresentHas(ports: seq<string>, p: nat)
    ensures p in PresentPorts(ports) <==> exists i :: 0 <= i < |ports| && PortIndex(ports[i]) == Some(p)
  {
    hide PortIndex;
    if ports != [] {
      var before := ports[..|ports| - 1];
      PresentHas(before, p);
      if p in PresentPorts(before) {
        var i :| 0 <= i < |before| && PortIndex(before[i]) == Some(p);
        assert PortIndex(ports[i]) == Some(p);
      }
      if exists i :: 0 <= i < |ports| && PortIndex(ports[i]) == Some(p) {
        var i :| 0 <= i < |ports| && PortIndex(ports[i]) == Some(p);
        assert i < |before| ==> PortIndex(before[i]) == Some(p);
      }
    }
  }

  lemma {:induction false} OccupiedHas(cs: seq<Controller>, self: nat, n: nat, p: nat)
    requires n <= |cs|
    ensures p in OccupiedPorts(cs, self, n)
       <==> exists i :: 0 <= i < n && i != self && UsesPort(cs[i]) && PortIndex(cs[i].device) == Some(p)
  {
    hide PortIndex, UsesPort;
    if n > 0 {
      OccupiedHas(cs, self, n - 1, p);
      if p in OccupiedPorts(cs, self, n - 1) {
        var i :| 0 <= i < n - 1 && i != self && UsesPort(cs[i]) && PortIndex(cs[i].device) == Some(p);
      }
    }
  }

  method FindPortIndex(ports: seq<string>, path: string) returns (index: Option<nat>)
    ensures index.Some? <==> path in ports
    ensures index.Some? ==> index.value < |ports| && ports[index.value] == path
  {
    for i := 0 to |ports|
      invariant path !in ports[..i]
    {
      if ports[i] == path {
        return Some(i);
      }
    }
    assert ports[..|ports|] == ports;
    index := None;
  }

  method PortUsedByOther(cs: seq<Controller>, self: nat, device: string) returns (used: bool)
    ensures used <==> exists i :: 0 <= i < |cs| && i != self && cs[i].device == device && UsesPort(cs[i])
  {
    for i := 0 to |cs|
      invariant forall j :: 0 <= j < i && j != self ==> !(cs[j].device == device && UsesPort(cs[j]))
    {
      if i != self && cs[i].device == device && UsesPort(cs[i]) {
        return true;
      }
    }
    used := false;
  }

  /** `index` is the port found for controller `self`: present, allowed, no user's; or there is none. */
  ghost predicate AvailableFor(ports: seq<string>, cs: seq<Controller>, self: nat, index: Option<nat>)
    requires self < |cs|
  {
    match index
    case Some(i) =>
      && i < |ports| && AllowsPath(cs[self].config, ports[i])
      && forall j :: 0 <= j < |cs| && j != self && UsesPort(cs[j]) ==> cs[j].device != ports[i]
    case None =>
      forall i :: 0 <= i < |ports| && PortIndex(ports[i]).Some? && PortIndex(ports[i]).value in PortTargets(cs[self].config) ==>
                    PortIndex(ports[i]).value in OccupiedPorts(cs, self, |cs|)
  }

  method AvailablePortIndex(ports: seq<string>, cs: seq<Controller>, self: nat) returns (index: Option<nat>)
    requires self < |cs|
    ensures AvailableFor(ports, cs, self, index)
  {
    hide PortIndex, UsesPort;
    var candidates := CollectPresent(ports);
    var occupied := CollectOccupied(cs, self);
    var selected := SelectPort(cs[self].config, candidates, occupied);
    if selected.None? {
      NoneAvailable(ports, cs, self);
      return None;
    }
    PresentHas(ports, selected.value);
    for i := 0 to |ports|
      invariant forall j :: 0 <= j < i ==> PortIndex(ports[j]) != selected
    {
      var port := PortIndexFromPath(ports[i], false);
      if port == selected {
        ChoiceAllowed(cs[self].config, candidates, occupied, selected.value);
        NotOccupied(cs, self, ports[i], selected.value);
        return Some(i);
      }
    }
    assert false;
  }

  method CollectPresent(ports: seq<string>) returns (present: seq<nat>)
    ensures present == PresentPorts(ports)
  {
    hide PortIndex;
    present := [];
    for i := 0 to |ports|
      invariant present == PresentPorts(ports[..i])
    {
      assert ports[..i + 1][..i] == ports[..i];
      var port := PortIndexFromPath(ports[i], false);
      if port.Some? {
        present := present + [port.value];
      }
    }
    assert ports[..|ports|] == ports;
  }

  method CollectOccupied(cs: seq<Controller>, self: nat) returns (occupied: seq<nat>)
    ensures occupied == OccupiedPorts(cs, self, |cs|)
  {
    hide PortIndex, UsesPort;
    occupied := [];
    for i := 0 to |cs|
      invariant occupied == OccupiedPorts(cs, self, i)
    {
      if i != self && UsesPort(cs[i]) {
        var port := PortIndexFromPath(cs[i].device, false);
        if port.Some? {
          occupied := occupied + [port.value];
        }
      }
    }
  }

  lemma NoneAvailable(ports: seq<string>, cs: seq<Controller>, self: nat)
    requires self < |cs| && FirstChoice(cs[self].config, PresentPorts(ports), OccupiedPorts(cs, self, |cs|), None)
    ensures AvailableFor(ports, cs, self, None)
  {
    hide PortIndex;
    forall i | 0 <= i < |ports| && PortIndex(ports[i]).Some? && PortIndex(ports[i]).value in PortTargets(cs[self].config)
      ensures PortIndex(ports[i]).value in OccupiedPorts(cs, self, |cs|)
    {
      PresentHas(ports, PortIndex(ports[i]).value);
    }
  }

  lemma NotOccupied(cs: seq<Controller>, self: nat, path: string, port: nat)
    requires PortIndex(path) == Some(port) && port !in OccupiedPorts(cs, self, |cs|)
    ensures forall j :: 0 <= j < |cs| && j != self && UsesPort(cs[j]) ==> cs[j].device != path
  {
    hide PortIndex, UsesPort;
    OccupiedHas(cs, self, |cs|, port);
  }

  /** A controller is turned away only if every port its configuration names, and that is present, is
      some other user's. */
  lemma TurnedAwayOnlyWhenFull(ports: seq<string>, cs: seq<Controller>, self: nat, i: nat)
    requires self < |cs| && AvailableFor(ports, cs, self, None) && i < |ports| && AllowsPath(cs[self].config, ports[i])
    ensures exists j :: 0 <= j < |cs| && j != self && UsesPort(cs[j]) && PortIndex(cs[j].device) == PortIndex(ports[i])
  {
    OccupiedHas(cs, self, |cs|, PortIndex(ports[i]).value);
    hide UsesPort;
  }

  // ---------------------------------------------------------------------------------------------
  // The daemon
  // ---------------------------------------------------------------------------------------------

  /** A channel of the controller joined to its device; with both channels it connects, or fails to. */
  function Joined(c: Controller, device: string, controlChannel: bool, connects: bool): Controller {
    var p := c.(device := device, pendingControl := c.pendingControl || controlChannel,
                pendingInterrupt := c.pendingInterrupt || !controlChannel);
    if !(p.pendingControl && p.pendingInterrupt) then p
    else if connects then p.(backend := true, pendingControl := false, pendingInterrupt := false, virtualConnected := true)
    else Cleared(p)
  }

  /** What a channel makes of a record that has no backend: the first is recorded as pending, under its own
      kind; the second completes the pair, which makes a connection or, if that fails, an idle record. */
  ghost predicate JoinedAs(was: Controller, now: Controller, device: string, controlChannel: bool, connects: bool) {
    var second := if controlChannel then was.pendingInterrupt else was.pendingControl;
    && now.config == was.config
    && (!second ==> now.device == device && !now.backend && !now.virtualConnected
                    && now.pendingControl == controlChannel && now.pendingInterrupt == !controlChannel)
    && (second && connects ==> now.device == device && now.backend && now.virtualConnected
                               && !now.pendingControl && !now.pendingInterrupt)
    && (second && !connects ==> IdleRecord(now))
  }

  /** Nothing is held, and no port. */
  ghost predicate IdleRecord(c: Controller) {
    c.device == "" && !c.backend && !c.virtualConnected && !c.pendingControl && !c.pendingInterrupt
  }

  lemma JoinExactly(c: Controller, device: string, controlChannel: bool, connects: bool)
    requires Staged(c) && !c.backend
    ensures JoinedAs(c, Joined(c, device, controlChannel, connects), device, controlChannel, connects)
    ensures IdleRecord(Joined(c, device, controlChannel, connects)) ==> !UsesPort(Joined(c, device, controlChannel, connects))
  {
  }

  /** Whether a controller keeps its port over a reload. */
  predicate Carries(was: Controller, config: ControllerConfig, devices: seq<string>) {
    && UsesPort(was) && was.device in devices
    && was.config.address == config.address && was.config.profile == config.profile
    && AllowsPath(config, was.device)
  }

  function Fresh(config: ControllerConfig): Controller {
    Controller(config, "", false, false, false, false)
  }

  /** One record per configuration: the old one if it may keep its port, else an idle one. */
  ghost predicate Reconciled(olds: seq<Controller>, devices: seq<string>, configs: seq<ControllerConfig>, news: seq<Controller>) {
    && |news| == |configs|
    && (forall k, j :: 0 <= k < |news| && 0 <= j < |olds| && Carries(olds[j], configs[k], devices) ==>
          news[k] == olds[j].(config := configs[k]))
    && (forall k :: 0 <= k < |news| && (forall j :: 0 <= j < |olds| ==> !Carries(olds[j], configs[k], devices)) ==>
          news[k] == Fresh(configs[k]))
  }

  ghost predicate Present(cs: seq<Controller>, ports: seq<string>) {
    forall i :: 0 <= i < |cs| && UsesPort(cs[i]) ==> cs[i].device in ports
  }

  lemma JoinKeepsAssigned(cs: seq<Controller>, i: nat, device: string, controlChannel: bool, connects: bool)
    requires Assigned(cs) && i < |cs| && !cs[i].backend && AllowsPath(cs[i].config, device) && device != ""
    requires forall j :: 0 <= j < |cs| && j != i && UsesPort(cs[j]) ==> cs[j].device != device
    ensures Assigned(cs[i := Joined(cs[i], device, controlChannel, connects)])
  {
    hide AllowsPath;
  }

  lemma ClearKeepsAssigned(cs: seq<Controller>, i: nat)
    requires Assigned(cs) && i < |cs|
    ensures Assigned(cs[i := Cleared(cs[i])])
  {
    hide AllowsPath;
  }

  lemma CarriedIs(olds: seq<Controller>, devices: seq<string>, configs: seq<ControllerConfig>, news: seq<Controller>, k: nat)
    requires Reconciled(olds, devices, configs, news) && k < |news| && UsesPort(news[k])
    ensures exists j :: 0 <= j < |olds| && Carries(olds[j], configs[k], devices) && news[k] == olds[j].(config := configs[k])
  {
    hide Carries;
    assert !UsesPort(Fresh(configs[k]));
    if j :| 0 <= j < |olds| && Carries(olds[j], configs[k], devices) {
    }
  }

  lemma ReconcileKeepsAssigned(olds: seq<Controller>, devices: seq<string>, configs: seq<ControllerConfig>, news: seq<Controller>)
    requires Assigned(olds) && DistinctAddresses(configs) && Reconciled(olds, devices, configs, news)
    ensures Assigned(news) && Present(news, devices)
  {
    hide AllowsPath;
    forall k | 0 <= k < |news|
      ensures Sound(news[k]) && news[k].config == configs[k]
    {
      SuccessorSound(olds, devices, configs, news, k);
    }
    forall k, l | 0 <= k < l < |news| && UsesPort(news[k]) && UsesPort(news[l])
      ensures news[k].device != news[l].device
    {
      CarriedIs(olds, devices, configs, news, k);
      CarriedIs(olds, devices, configs, news, l);
      var i :| 0 <= i < |olds| && Carries(olds[i], configs[k], devices) && news[k] == olds[i].(config := configs[k]);
      var j :| 0 <= j < |olds| && Carries(olds[j], configs[l], devices) && news[l] == olds[j].(config := configs[l]);
      assert i != j;
    }
    forall k | 0 <= k < |news| && UsesPort(news[k])
      ensures news[k].device in devices
    {
      CarriedIs(olds, devices, configs, news, k);
    }
  }

  lemma SuccessorSound(olds: seq<Controller>, devices: seq<string>, configs: seq<ControllerConfig>, news: seq<Controller>, k: nat)
    requires Assigned(olds) && Reconciled(olds, devices, configs, news) && k < |news|
    ensures Sound(news[k]) && news[k].config == configs[k]
  {
    hide AllowsPath;
    if j :| 0 <= j < |olds| && Carries(olds[j], configs[k], devices) {
      assert Sound(olds[j]);
    }
  }

  class VdsDaemon {
    var ports: seq<string>
    var controllers: seq<Controller>

    /** Holds between any two events: ports are held exclusively, by controllers allowed to, and only
        ports that are there; so the code's branches for a vanished port are never taken. */
    ghost predicate Valid()
      reads this
    {
      Assigned(controllers) && Present(controllers, ports)
    }

    constructor ()
      ensures Valid() && ports == [] && controllers == []
    {
      ports, controllers := [], [];
    }

    method ControllerForAddress(address: string) returns (index: Option<nat>)
      ensures match index
              case Some(i) => i < |controllers| && controllers[i].config.address == address
              case None => forall i :: 0 <= i < |controllers| ==> controllers[i].config.address != address
    {
      for i := 0 to |controllers|
        invariant forall j :: 0 <= j < i ==> controllers[j].config.address != address
      {
        if controllers[i].config.address == address {
          return Some(i);
        }
      }
      index := None;
    }

    /** The device for a channel: the one already assigned if it is present and free, else an available one. */
    method DeviceFor(i: nat) returns (device: Option<string>)
      requires Valid() && i < |controllers|
      ensures device.Some? ==>
                && device.value in ports && device.value != "" && AllowsPath(controllers[i].config, device.value)
                && (forall j :: 0 <= j < |controllers| && j != i && UsesPort(controllers[j]) ==> controllers[j].device != device.value)
      ensures UsesPort(controllers[i]) ==> device == Some(controllers[i].device)
      ensures device.None? ==> AvailableFor(ports, controllers, i, None)
    {
      hide AllowsPath, PortIndex;
      var c := controllers[i];
      if c.device != "" {
        var found := FindPortIndex(ports, c.device);
        var used := PortUsedByOther(controllers, i, c.device);
        if found.Some? && !used {
          return Some(c.device);
        }
      }
      assert !UsesPort(c);
      var index := AvailablePortIndex(ports, controllers, i);
      device := None;
      if index.Some? {
        NoEmptyPath(controllers[i].config, ports[index.value]);
        device := Some(ports[index.value]);
      }
    }

    /** A channel comes in. `connects` is what bringing the controller up will answer, if it comes to that. */
    method HandleBtAccept(address: string, controlChannel: bool, connects: bool) returns (index: Option<nat>, device: Option<string>)
      requires Valid()
      modifies this`controllers
      ensures Valid()
      ensures index.None? ==> controllers == old(controllers) && device.None?
      ensures index.None? <==> forall i :: 0 <= i < |old(controllers)| && old(controllers)[i].config.address == address ==> old(controllers)[i].backend
      ensures index.Some? ==>
                && index.value < |old(controllers)| && old(controllers)[index.value].config.address == address
                && controllers == match device
                                  case None => old(controllers)
                                  case Some(d) =>
                                    old(controllers)[index.value := Joined(old(controllers)[index.value], d, controlChannel, connects)]
      ensures index.Some? && device.None? ==> AvailableFor(ports, old(controllers), index.value, None)
      ensures device.Some? ==> device.value in ports
      ensures AcceptStep(ports, old(controllers), controllers, address, controlChannel, connects)
    {
      hide AllowsPath, PortIndex, AvailableFor, Joined, JoinedAs;
      index := ControllerForAddress(address);
      device := None;
      if index.None? {
        return;
      }
      var i := index.value;
      if controllers[i].backend {
        assert forall j :: 0 <= j < |controllers| && j != i ==> controllers[j].config.address != address;
        index := None;
        return;
      }
      device := DeviceFor(i);
      if device.Some? {
        JoinKeepsAssigned(controllers, i, device.value, controlChannel, connects);
        assert Sound(controllers[i]);
        JoinExactly(controllers[i], device.value, controlChannel, connects);
        controllers := controllers[i := Joined(controllers[i], device.value, controlChannel, connects)];
      }
    }

    /** The Bluetooth link of a controller is lost. */
    method DropBtBackend(i: nat)
      requires Valid() && i < |controllers|
      modifies this`controllers
      ensures Valid()
      ensures controllers == if old(controllers)[i].backend then old(controllers)[i := Cleared(old(controllers)[i])] else old(controllers)
      ensures DropStep(old(controllers), controllers, i)
    {
      if controllers[i].backend || controllers[i].virtualConnected {
        assert Sound(controllers[i]);
        ClearKeepsAssigned(controllers, i);
        controllers := controllers[i := Cleared(controllers[i])];
      }
    }

    /** Users of ports that are gone let go of them. */
    method ReleaseGone(devices: seq<string>)
      requires Assigned(controllers)
      modifies this`controllers
      ensures Assigned(controllers) && |controllers| == |old(controllers)|
      ensures forall i :: 0 <= i < |controllers| ==>
                            controllers[i] == if UsesPort(old(controllers)[i]) && old(controllers)[i].device !in devices
                                              then Cleared(old(controllers)[i]) else old(controllers)[i]
    {
      hide AllowsPath;
      for i := 0 to |controllers|
        invariant Assigned(controllers) && |controllers| == |old(controllers)|
        invariant forall j :: i <= j < |controllers| ==> controllers[j] == old(controllers)[j]
        invariant forall j :: 0 <= j < i ==>
                                controllers[j] == if UsesPort(old(controllers)[j]) && old(controllers)[j].device !in devices
                                                  then Cleared(old(controllers)[j]) else old(controllers)[j]
      {
        if UsesPort(controllers[i]) && controllers[i].device !in devices {
          ClearKeepsAssigned(controllers, i);
          controllers := controllers[i := Cleared(controllers[i])];
        }
      }
    }

    /** The old record of a configuration: same address, same profile, not taken yet. */
    method FindOld(config: ControllerConfig, preserved: seq<bool>) returns (index: Option<nat>)
      requires |preserved| == |controllers|
      ensures match index
              case Some(i) =>
                i < |controllers| && !preserved[i] && controllers[i].config.address == config.address
                && controllers[i].config.profile == config.profile
              case None =>
                forall i :: 0 <= i < |controllers| ==>
                              preserved[i] || controllers[i].config.address != config.address || controllers[i].config.profile != config.profile
    {
      for i := 0 to |controllers|
        invariant forall j :: 0 <= j < i ==>
                                preserved[j] || controllers[j].config.address != config.address || controllers[j].config.profile != config.profile
      {
        if !preserved[i] && controllers[i].config.address == config.address && controllers[i].config.profile == config.profile {
          return Some(i);
        }
      }
      index := None;
    }

    /** The record that follows for one configuration, and the old record it follows, if any. */
    method Successor(config: ControllerConfig, preserved: seq<bool>, activeDevices: seq<string>)
      returns (next: Controller, found: Option<nat>)
      requires Assigned(controllers) && |preserved| == |controllers|
      requires forall i :: 0 <= i < |controllers| && preserved[i] ==> controllers[i].config.address != config.address
      requires forall d :: d in activeDevices ==> HeldByPreserved(controllers, preserved, d)
      ensures Follows(controllers, ports, config, next)
      ensures found.Some? ==> found.value < |controllers| && controllers[found.value].config.address == config.address
      ensures UsesPort(next) ==> found.Some? && next == controllers[found.value].(config := config)
    {
      hide AllowsPath;
      next := Fresh(config);
      found := FindOld(config, preserved);
      if found.Some? {
        var i := found.value;
        var present := FindPortIndex(ports, controllers[i].device);
        NotActive(controllers, preserved, activeDevices, i);
        if UsesPort(controllers[i]) && present.Some? && AllowsPath(config, controllers[i].device)
           && controllers[i].device !in activeDevices
        {
          next := controllers[i].(config := config);
        }
      }
    }

    /** The devices and the configuration are read again. `devices` is what the system lists now. */
    method ReconcileControllerConfigs(devices: seq<string>, configs: seq<ControllerConfig>)
      requires Valid() && DistinctAddresses(configs)
      modifies this
      ensures Valid() && ports == devices
      ensures Reconciled(old(controllers), devices, configs, controllers)
      ensures ReloadStep(old(controllers), controllers, devices, configs)
    {
      ghost var olds := controllers;
      ReleaseGone(devices);
      ghost var kept := controllers;
      hide AllowsPath, Assigned, Follows, Reconciled, UsesPort;
      ports := devices;
      var preserved := seq(|controllers|, _ => false);
      var activeDevices: seq<string> := [];
      var next: seq<Controller> := [];
      for n := 0 to |configs|
        invariant controllers == kept && ports == devices && |preserved| == |kept| && |next| == n
        invariant forall i :: 0 <= i < |kept| && preserved[i] ==> ConfiguredBefore(configs, n, kept[i].config.address)
        invariant forall d :: d in activeDevices ==> HeldByPreserved(kept, preserved, d)
        invariant forall k :: 0 <= k < n ==> Follows(kept, devices, configs[k], next[k])
      {
        var following, found := Successor(configs[n], preserved, activeDevices);
        if found.Some? {
          MorePreserved(kept, preserved, found.value);
          preserved := preserved[found.value := true];
          if UsesPort(following) {
            NowHeld(kept, preserved, found.value, configs[n]);
            activeDevices := activeDevices + [following.device];
          }
        }
        next := next + [following];
      }
      controllers := next;
      AllFollow(olds, kept, devices, configs, next);
      ReconcileKeepsAssigned(olds, devices, configs, next);
      ReconciledExactly(olds, devices, configs, next);
    }
  }

  // ---------------------------------------------------------------------------------------------
  // What the events do, and when a controller is connected
  // ---------------------------------------------------------------------------------------------

  /** A channel from `address`: without such a record, or with a backend already, or with no port to be
      had, nothing happens; else one record takes it. */
  ghost predicate AcceptStep(ports: seq<string>, olds: seq<Controller>, news: seq<Controller>, address: string,
                             controlChannel: bool, connects: bool) {
    |news| == |olds|
    && forall i :: 0 <= i < |olds| ==>
                     if olds[i].config.address != address || olds[i].backend then news[i] == olds[i]
                     else
                       || (exists d :: d in ports && JoinedAs(olds[i], news[i], d, controlChannel, connects)
                                       && (olds[i].pendingControl || olds[i].pendingInterrupt ==> d == olds[i].device))
                       || (news[i] == olds[i] && !olds[i].pendingControl && !olds[i].pendingInterrupt)
  }

  /** The link of controller `i` is lost: it is idle. */
  ghost predicate DropStep(olds: seq<Controller>, news: seq<Controller>, i: nat) {
    |news| == |olds|
    && forall j :: 0 <= j < |olds| ==>
                     if j == i && olds[j].backend then news[j].config == olds[j].config && IdleRecord(news[j])
                     else news[j] == olds[j]
  }

  /** The configuration allows the device: it names no ports, or that of the device. */
  ghost predicate MayHave(config: ControllerConfig, device: string) {
    PortIndex(device).Some? && (config.ports == [] || PortIndex(device).value in config.ports)
  }

  /** The record stays in use over a reload, under configuration `config`. */
  ghost predicate StaysInUse(was: Controller, config: ControllerConfig, devices: seq<string>) {
    && (was.backend || was.pendingControl || was.pendingInterrupt)
    && was.device in devices && MayHave(config, was.device)
    && was.config.address == config.address && was.config.profile == config.profile
  }

  /** After a reload there is one record for each configuration: one that stays in use as it was, or an idle one. */
  ghost predicate ReloadStep(olds: seq<Controller>, news: seq<Controller>, devices: seq<string>, configs: seq<ControllerConfig>) {
    |news| == |configs|
    && forall k :: 0 <= k < |configs| ==>
                     && news[k].config == configs[k]
                     && (forall j :: 0 <= j < |olds| && StaysInUse(olds[j], configs[k], devices) ==>
                           news[k] == olds[j].(config := configs[k]))
                     && ((forall j :: 0 <= j < |olds| ==> !StaysInUse(olds[j], configs[k], devices)) ==> IdleRecord(news[k]))
  }

  lemma ReconciledExactly(olds: seq<Controller>, devices: seq<string>, configs: seq<ControllerConfig>, news: seq<Controller>)
    requires Assigned(olds) && Reconciled(olds, devices, configs, news)
    ensures ReloadStep(olds, news, devices, configs)
  {
    hide PortIndex;
    forall k, j | 0 <= k < |configs| && 0 <= j < |olds|
      ensures StaysInUse(olds[j], configs[k], devices) <==> Carries(olds[j], configs[k], devices)
    {
      assert Sound(olds[j]);
    }
    hide StaysInUse, Carries;
    forall k | 0 <= k < |configs| ensures news[k].config == configs[k] {
      if j :| 0 <= j < |olds| && Carries(olds[j], configs[k], devices) {
      }
    }
  }

  datatype Event =
    | Accept(address: string, controlChannel: bool, connects: bool)
    | Drop(i: nat)
    | Reload(devices: seq<string>, configs: seq<ControllerConfig>)

  datatype State = State(ports: seq<string>, controllers: seq<Controller>)

  /** What the daemon may make of an event; the methods above keep to it. */
  ghost predicate Steps(s: State, e: Event, t: State) {
    && Assigned(s.controllers)
    && match e
       case Accept(address, controlChannel, connects) =>
         t.ports == s.ports && AcceptStep(s.ports, s.controllers, t.controllers, address, controlChannel, connects)
       case Drop(i) => t.ports == s.ports && DropStep(s.controllers, t.controllers, i)
       case Reload(devices, configs) =>
         t.ports == devices && DistinctAddresses(configs) && ReloadStep(s.controllers, t.controllers, devices, configs)
  }

  ghost predicate Connected(s: State, address: string) {
    exists i :: 0 <= i < |s.controllers| && s.controllers[i].config.address == address && s.controllers[i].backend
  }

  /** The event completes the pair of channels of `address`, and the connection is made. */
  ghost predicate Connecting(s: State, e: Event, address: string) {
    && e.Accept? && e.address == address && e.connects
    && exists i :: 0 <= i < |s.controllers| && Completes(s.controllers[i], address, e.controlChannel)
  }

  ghost predicate Completes(c: Controller, address: string, controlChannel: bool) {
    c.config.address == address && !c.backend && (if controlChannel then c.pendingInterrupt else c.pendingControl)
  }

  /** The event takes the connection of `address`: its link is lost, or a reload finds the port gone or the
      configuration gone or changed. */
  ghost predicate Taking(s: State, e: Event, address: string) {
    match e
    case Accept(_, _, _) => false
    case Drop(i) => i < |s.controllers| && s.controllers[i].config.address == address
    case Reload(devices, configs) =>
      forall i, k :: 0 <= i < |s.controllers| && 0 <= k < |configs| && s.controllers[i].config.address == address ==>
                       !StaysInUse(s.controllers[i], configs[k], devices)
  }

  lemma AcceptConnects(s: State, e: Event, t: State, address: string)
    requires Steps(s, e, t) && e.Accept?
    ensures Connected(t, address) <==> Connecting(s, e, address) || Connected(s, address)
  {
    hide MayHave, AllowsPath;
    if i :| 0 <= i < |s.controllers| && s.controllers[i].config.address == address && s.controllers[i].backend {
      assert t.controllers[i] == s.controllers[i];
    }
    if Connecting(s, e, address) {
      var i :| 0 <= i < |s.controllers| && Completes(s.controllers[i], address, e.controlChannel);
      assert t.controllers[i].backend && t.controllers[i].config.address == address;
    }
    if i :| 0 <= i < |t.controllers| && t.controllers[i].config.address == address && t.controllers[i].backend {
      if !s.controllers[i].backend {
        assert Completes(s.controllers[i], address, e.controlChannel);
      }
    }
  }

  lemma DropConnects(s: State, e: Event, t: State, address: string)
    requires Steps(s, e, t) && e.Drop?
    ensures Connected(t, address) <==> Connected(s, address) && !Taking(s, e, address)
  {
    hide MayHave, AllowsPath, Sound;
    if Connected(s, address) && !Taking(s, e, address) {
      var i :| 0 <= i < |s.controllers| && s.controllers[i].config.address == address && s.controllers[i].backend;
      assert t.controllers[i] == s.controllers[i];
    }
    if Connected(t, address) {
      var i :| 0 <= i < |t.controllers| && t.controllers[i].config.address == address && t.controllers[i].backend;
      assert t.controllers[i] == s.controllers[i];
      assert e.i < |s.controllers| && e.i != i ==> s.controllers[e.i].config.address != s.controllers[i].config.address;
    }
  }

  lemma ReloadConnects(s: State, e: Event, t: State, address: string)
    requires Steps(s, e, t) && e.Reload?
    ensures Connected(t, address) <==> Connected(s, address) && !Taking(s, e, address)
  {
    hide StaysInUse;
    if Connected(s, address) && !Taking(s, e, address) {
      var i :| 0 <= i < |s.controllers| && s.controllers[i].config.address == address && s.controllers[i].backend;
      var j, k :| 0 <= j < |s.controllers| && 0 <= k < |e.configs| && s.controllers[j].config.address == address
                  && StaysInUse(s.controllers[j], e.configs[k], e.devices);
      assert i == j;
      UseMeans(s.controllers[j], e.configs[k], e.devices);
      assert t.controllers[k] == s.controllers[i].(config := e.configs[k]);
    }
    if Connected(t, address) {
      var k :| 0 <= k < |t.controllers| && t.controllers[k].config.address == address && t.controllers[k].backend;
      assert !IdleRecord(t.controllers[k]);
      var j :| 0 <= j < |s.controllers| && StaysInUse(s.controllers[j], e.configs[k], e.devices);
      UseMeans(s.controllers[j], e.configs[k], e.devices);
      assert t.controllers[k] == s.controllers[j].(config := e.configs[k]);
    }
  }

  lemma UseMeans(was: Controller, config: ControllerConfig, devices: seq<string>)
    requires StaysInUse(was, config, devices)
    ensures was.config.address == config.address
  {
  }

  /** Over any run of events from a state without connections: a controller is connected exactly if at some
      event its pair of channels was completed and the connection made, and no later event took it. */
  lemma {:induction false} ConnectedExactly(states: seq<State>, events: seq<Event>, address: string)
    requires |states| == |events| + 1 && !Connected(states[0], address)
    requires forall k :: 0 <= k < |events| ==> Steps(states[k], events[k], states[k + 1])
    ensures Connected(states[|events|], address)
       <==> exists k :: ConnectedSince(states, events, address, k)
    decreases |events|
  {
    hide Steps, Connected, Connecting, Taking;
    if events != [] {
      var n := |events| - 1;
      var before, past := states[..|states| - 1], events[..n];
      assert forall k :: 0 <= k < n ==> past[k] == events[k];
      ConnectedExactly(before, past, address);
      OneEvent(states[n], events[n], states[n + 1], address);
      forall k: nat | k < n
        ensures ConnectedSince(states, events, address, k) <==>
                ConnectedSince(before, past, address, k) && !Taking(states[n], events[n], address)
      {
      }
      assert ConnectedSince(states, events, address, n) <==> Connecting(states[n], events[n], address);
    }
  }

  ghost predicate ConnectedSince(states: seq<State>, events: seq<Event>, address: string, k: nat)
    requires |states| == |events| + 1
  {
    && k < |events| && Connecting(states[k], events[k], address)
    && forall m :: k < m < |events| ==> !Taking(states[m], events[m], address)
  }

  lemma OneEvent(s: State, e: Event, t: State, address: string)
    requires Steps(s, e, t)
    ensures Connected(t, address) <==> Connecting(s, e, address) || (Connected(s, address) && !Taking(s, e, address))
  {
    hide Steps, Connected;
    match e
    case Accept(_, _, _) => AcceptConnects(s, e, t, address);
    case Drop(_) => DropConnects(s, e, t, address);
    case Reload(_, _) => ReloadConnects(s, e, t, address);
  }

  /** In every state between events: of two controllers that have anything, a channel, a backend or a
      connection, neither has the other's device, and each has a device its configuration allows. */
  lemma PortsAreExclusive(cs: seq<Controller>, i: nat, j: nat)
    requires Assigned(cs) && i < |cs| && j < |cs|
    requires cs[i].backend || cs[i].pendingControl || cs[i].pendingInterrupt || cs[i].virtualConnected
    requires cs[j].backend || cs[j].pendingControl || cs[j].pendingInterrupt || cs[j].virtualConnected
    ensures i != j ==> cs[i].device != cs[j].device
    ensures MayHave(cs[i].config, cs[i].device)
  {
    hide PortIndex;
    assert Sound(cs[i]);
  }

  /** The next record for a configuration, given the records that outlived the vanished ports. */
  ghost predicate Follows(kept: seq<Controller>, devices: seq<string>, config: ControllerConfig, next: Controller) {
    && (forall j :: 0 <= j < |kept| && Carries(kept[j], config, devices) ==> next == kept[j].(config := config))
    && ((forall j :: 0 <= j < |kept| ==> !Carries(kept[j], config, devices)) ==> next == Fresh(config))
  }

  ghost predicate ConfiguredBefore(configs: seq<ControllerConfig>, n: nat, address: string)
    requires n <= |configs|
  {
    exists k :: 0 <= k < n && configs[k].address == address
  }

  ghost predicate HeldByPreserved(cs: seq<Controller>, preserved: seq<bool>, device: string)
    requires |preserved| == |cs|
  {
    exists j :: 0 <= j < |cs| && preserved[j] && UsesPort(cs[j]) && cs[j].device == device
  }

  lemma MorePreserved(cs: seq<Controller>, preserved: seq<bool>, i: nat)
    requires |preserved| == |cs| && i < |cs|
    ensures forall d :: HeldByPreserved(cs, preserved, d) ==> HeldByPreserved(cs, preserved[i := true], d)
  {
    hide UsesPort;
    forall d | HeldByPreserved(cs, preserved, d)
      ensures HeldByPreserved(cs, preserved[i := true], d)
    {
      var j :| 0 <= j < |cs| && preserved[j] && UsesPort(cs[j]) && cs[j].device == d;
      assert preserved[i := true][j];
    }
  }

  lemma NowHeld(cs: seq<Controller>, preserved: seq<bool>, i: nat, config: ControllerConfig)
    requires |preserved| == |cs| && i < |cs| && preserved[i] && UsesPort(cs[i].(config := config))
    ensures HeldByPreserved(cs, preserved, cs[i].device)
  {
  }

  lemma NotActive(cs: seq<Controller>, preserved: seq<bool>, active: seq<string>, i: nat)
    requires Assigned(cs) && |preserved| == |cs| && i < |cs| && !preserved[i]
    requires forall d :: d in active ==> HeldByPreserved(cs, preserved, d)
    ensures UsesPort(cs[i]) ==> cs[i].device !in active
  {
    hide UsesPort;
  }

  lemma AllFollow(olds: seq<Controller>, kept: seq<Controller>, devices: seq<string>, configs: seq<ControllerConfig>, next: seq<Controller>)
    requires |kept| == |olds| && |next| == |configs|
    requires forall i :: 0 <= i < |olds| ==>
                           kept[i] == if UsesPort(olds[i]) && olds[i].device !in devices then Cleared(olds[i]) else olds[i]
    requires forall k :: 0 <= k < |next| ==> Follows(kept, devices, configs[k], next[k])
    ensures Reconciled(olds, devices, configs, next)
  {
    hide AllowsPath;
    forall k, j | 0 <= k < |configs| && 0 <= j < |olds|
      ensures Carries(olds[j], configs[k], devices) <==> Carries(kept[j], configs[k], devices)
      ensures Carries(olds[j], configs[k], devices) ==> kept[j] == olds[j]
    {
    }
    hide Carries;
  }

  lemma NoEmptyPath(config: ControllerConfig, path: string)
    requires AllowsPath(config, path)
    ensures path != ""
  {
    assert PortText("", Prefixes(false)) == None;
  }
}
