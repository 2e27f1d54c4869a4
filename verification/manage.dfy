/**
 * The command-line entry point (manage-p2.py): reads the number of servers,
 * builds the topology and the network map, and runs one of the subcommands
 * `create`, `start [vm]`, `stop [vm]` or `destroy`.
 *
 * The effect of a subcommand is the trace of VM and environment operations
 * it invokes, in order; the operations themselves are modelled in Vm and
 * Network.
 */
module Manage {
  import opened Wrappers
  import opened Strings
  import opened Utils
  import Vm
  import Network

  const MinServers := 2
  const MaxServers := 5
  const DefaultServers := 2

  /**
   * The `number_of_servers` setting: absent means 2; fewer than 2 or more
   * than 5 raises ValueError with the message the script gives.
   */
  function ValidateServerCount(configured: Option<int>): (r: Result<int>)
    ensures r.Ok? <==> configured.None? || MinServers <= configured.value <= MaxServers
    ensures r.Ok? ==> MinServers <= r.value <= MaxServers
    ensures configured.None? ==> r == Ok(DefaultServers)
    ensures configured.Some? && r.Ok? ==> r.value == configured.value
    ensures configured.Some? && configured.value < MinServers ==> r == Err("The number of servers must be at least 2")
    ensures configured.Some? && configured.value > MaxServers ==> r == Err("The maximum number of servers to create is 5")
  {
    var n := if configured.None? then DefaultServers else configured.value;
    if n < MinServers then Err("The number of servers must be at least 2")
    else if n > MaxServers then Err("The maximum number of servers to create is 5")
    else Ok(n)
  }

  /**
   * The bridges of a device: both LANs for `lb`, LAN1 for hosts `c*`, LAN2 for
   * servers `s*`, none otherwise. Each bridge is one of `LAN1`, `LAN2`, listed
   * once and in that order.
   */
  function BridgesFor(device: string): (r: seq<string>)
    ensures "LAN1" in r <==> device == "lb" || StartsWith(device, "c")
    ensures "LAN2" in r <==> device == "lb" || (!StartsWith(device, "c") && StartsWith(device, "s"))
    ensures r <= ["LAN1", "LAN2"] || r == ["LAN2"]
  {
    assert "LAN1"[3] != "LAN2"[3];
    if device == "lb" then ["LAN1", "LAN2"]
    else if StartsWith(device, "c") then ["LAN1"]
    else if StartsWith(device, "s") then ["LAN2"]
    else []
  }

  /** NETWORK_MAP: the bridges of every device, keyed and ordered as the topology. */
  function NetworkMap(devices: Devices): (r: Dict<seq<string>>)
    ensures |r| == |devices| && Keys(r) == Keys(devices)
  {
    if devices == [] then [] else [Entry(devices[0].key, BridgesFor(devices[0].key))] + NetworkMap(devices[1..])
  }

  /** Entry `i` of the network map holds the bridges of device `i`. */
  lemma {:induction false} NetworkMapAt(devices: Devices, i: nat)
    requires i < |devices|
    ensures NetworkMap(devices)[i] == Entry(devices[i].key, BridgesFor(devices[i].key))
  {
    if i > 0 {
      NetworkMapAt(devices[1..], i - 1);
    }
  }

  /** The network map has the keys of the topology, in the same order, and so distinct ones. */
  lemma {:induction false} NetworkMapKeys(devices: Devices)
    ensures Keys(NetworkMap(devices)) == Keys(devices)
    ensures DistinctKeys(devices) ==> DistinctKeys(NetworkMap(devices))
  {
    if devices != [] {
      NetworkMapKeys(devices[1..]);
    }
    var m := NetworkMap(devices);
    if DistinctKeys(devices) {
      forall i, j | 0 <= i < j < |m|
        ensures m[i].key != m[j].key
      {
        NetworkMapAt(devices, i);
        NetworkMapAt(devices, j);
      }
    }
  }

  lemma ServerBridges(i: nat)
    ensures BridgesFor(ServerName(i)) == ["LAN2"]
  {
    ServerNameStart(i);
    assert ServerName(i)[..1] == "s";
    assert !StartsWith(ServerName(i), "c") by {
      assert "c"[0] == 'c';
    }
  }

  /** The first two entries of the generated topology's network map: `lb` on both LANs, `c1` on LAN1. */
  lemma TopologyMapBase(n: int)
    ensures |NetworkMap(Topology(n))| >= 2
    ensures NetworkMap(Topology(n))[0] == Entry("lb", ["LAN1", "LAN2"])
    ensures NetworkMap(Topology(n))[1] == Entry("c1", ["LAN1"])
  {
    var d := Topology(n);
    assert d[0].key == "lb" && d[1].key == "c1";
    NetworkMapAt(d, 0);
    NetworkMapAt(d, 1);
    assert StartsWith("c1", "c");
  }

  /** Server `i` of the generated topology is on LAN2 only. */
  lemma TopologyMapServer(n: int, i: nat)
    requires 1 <= i <= n
    ensures |NetworkMap(Topology(n))| == n + 2
    ensures NetworkMap(Topology(n))[i + 1] == Entry(ServerName(i), ["LAN2"])
  {
    TopologyServerAt(n, i);
    NetworkMapAt(Topology(n), i + 1);
    ServerBridges(i);
  }

  /** For the generated topology: `lb` on both LANs, `c1` on LAN1, every server on LAN2, no device without a bridge. */
  lemma TopologyNetworkMap(n: int)
    ensures var m := NetworkMap(Topology(n));
      && Keys(m) == ["lb", "c1"] + ServerNames(n)
      && m[0] == Entry("lb", ["LAN1", "LAN2"])
      && m[1] == Entry("c1", ["LAN1"])
      && (forall i :: 1 <= i <= n ==> m[i + 1] == Entry(ServerName(i), ["LAN2"]))
      && (forall i :: 0 <= i < |m| ==> m[i].value != [])
  {
    var m := NetworkMap(Topology(n));
    NetworkMapKeys(Topology(n));
    TopologyKeys(n);
    TopologyMapBase(n);
    forall i | 1 <= i <= n
      ensures m[i + 1] == Entry(ServerName(i), ["LAN2"])
    {
      TopologyMapServer(n, i);
    }
    forall i | 0 <= i < |m|
      ensures m[i].value != []
    {
      TopologyMapNonEmpty(n, i);
    }
  }

  /** Every device of the generated topology has at least one bridge. */
  lemma TopologyMapNonEmpty(n: int, i: nat)
    requires i < |NetworkMap(Topology(n))|
    ensures NetworkMap(Topology(n))[i].value != []
  {
    if i < 2 {
      TopologyMapBase(n);
    } else {
      ServersLength(n);
      TopologyMapServer(n, i - 1);
    }
  }

  // ---------------------------------------------------------------------------
  // Traces

  /** The VM and environment operations the subcommands invoke, on the VM they act on. */
  datatype Step =
    | CreateEnvironment
    | CleanEnvironment
    | DefineVm(vm: string)
    | ConfigureVm(vm: string)
    | StartVm(vm: string)
    | ShowConsole(vm: string)
    | CloseConsole(vm: string)
    | StopVm(vm: string)
    | DestroyVm(vm: string)
    | UndefineVm(vm: string)

  /**
   * The parsed command line: the subcommand and its optional VM name, or no
   * subcommand at all (argparse rejects an unknown one before the script acts).
   */
  datatype Subcommand =
    | CreateCmd
    | StartCmd(vmName: Option<string>)
    | StopCmd(vmName: Option<string>)
    | DestroyCmd
    | NoCmd

  /** The per-VM rounds of the subcommands. */
  datatype Phase = Starting | Stopping | Destroying | SettingUp

  /** The steps one VM goes through in each round. */
  function PhaseSteps(phase: Phase, vm: string): (r: seq<Step>)
    ensures |r| == Width(phase)
  {
    match phase
    case Starting => [CloseConsole(vm), StartVm(vm), ShowConsole(vm)]
    case Stopping => [StopVm(vm), CloseConsole(vm)]
    case Destroying => [DestroyVm(vm), UndefineVm(vm), CloseConsole(vm)]
    case SettingUp => [DefineVm(vm), ConfigureVm(vm)]
  }

  function Width(phase: Phase): nat {
    match phase
    case Starting => 3
    case Stopping => 2
    case Destroying => 3
    case SettingUp => 2
  }

  /** The same round for every VM, in device order. */
  function EachVm(names: seq<string>, phase: Phase): seq<Step> {
    if names == [] then [] else PhaseSteps(phase, names[0]) + EachVm(names[1..], phase)
  }

  lemma {:induction false} EachVmConcat(a: seq<string>, b: seq<string>, phase: Phase)
    ensures EachVm(a + b, phase) == EachVm(a, phase) + EachVm(b, phase)
  {
    if a == [] {
      assert a + b == b;
    } else {
      assert (a + b)[1..] == a[1..] + b;
      EachVmConcat(a[1..], b, phase);
    }
  }

  lemma EachVmStep(names: seq<string>, phase: Phase, i: nat)
    requires i < |names|
    ensures names[..i + 1] == names[..i] + [names[i]]
    ensures EachVm(names[..i + 1], phase) == EachVm(names[..i], phase) + PhaseSteps(phase, names[i])
  {
    assert names[..i + 1] == names[..i] + [names[i]];
    EachVmConcat(names[..i], [names[i]], phase);
    assert [names[i]][1..] == [];
  }

  /** The trace splits around the steps of the `k`-th VM. */
  lemma EachVmSplit(names: seq<string>, phase: Phase, k: nat)
    requires k < |names|
    ensures EachVm(names, phase) == EachVm(names[..k], phase) + PhaseSteps(phase, names[k]) + EachVm(names[k + 1..], phase)
  {
    var rest := names[k + 1..];
    var tail := names[k..];
    assert names == names[..k] + tail;
    assert tail[1..] == rest;
    EachVmConcat(names[..k], tail, phase);
    var before, here, after := EachVm(names[..k], phase), PhaseSteps(phase, names[k]), EachVm(rest, phase);
    assert EachVm(tail, phase) == here + after;
    assert before + (here + after) == before + here + after;
  }

  /** Every VM takes the same number of steps. */
  lemma {:induction false} EachVmLength(names: seq<string>, phase: Phase)
    ensures |EachVm(names, phase)| == Width(phase) * |names|
  {
    if names != [] {
      EachVmLength(names[1..], phase);
      assert Width(phase) * |names| == Width(phase) + Width(phase) * |names[1..]|;
    }
  }

  /** `if args.vm_name:` — an empty name counts as no name. */
  predicate NameGiven(vmName: Option<string>) {
    vmName.Some? && vmName.value != ""
  }

  /** `start`: the named VM if it is a device (an unknown name does nothing), every VM when no name is given. */
  function StartTrace(names: seq<string>, vmName: Option<string>): seq<Step> {
    if NameGiven(vmName) then (if vmName.value in names then PhaseSteps(Starting, vmName.value) else [])
    else EachVm(names, Starting)
  }

  /** `stop`: the named VM if it is a device (an unknown name is only logged), every VM when no name is given. */
  function StopTrace(names: seq<string>, vmName: Option<string>): seq<Step> {
    if NameGiven(vmName) then (if vmName.value in names then PhaseSteps(Stopping, vmName.value) else [])
    else EachVm(names, Stopping)
  }

  /** `destroy`: every VM destroyed, undefined and its console closed, then the environment cleaned once. */
  function DestroyTrace(names: seq<string>): seq<Step> {
    EachVm(names, Destroying) + [CleanEnvironment]
  }

  /** Whether configure_vm raises for this VM (see Vm.ConfigureVm). */
  predicate ConfigureRaises(vm: string, haproxyCfg: Option<string>) {
    vm == "lb" && haproxyCfg.None?
  }

  /** The position of the first `v` in `s`. */
  function IndexOf(s: seq<string>, v: string): (r: nat)
    requires v in s
    ensures r < |s| && s[r] == v && v !in s[..r]
  {
    if s[0] == v then 0
    else
      var r := 1 + IndexOf(s[1..], v);
      assert s[..r] == [s[0]] + s[1..][..r - 1];
      r
  }

  /** A position holding `v` with no `v` before it is the first. */
  lemma IndexOfAt(s: seq<string>, v: string, i: nat)
    requires i < |s| && s[i] == v && v !in s[..i]
    ensures IndexOf(s, v) == i
  {
  }

  /**
   * The define/configure rounds of `create`: every VM in device order, up to
   * and including the first whose configure_vm raises, which is `lb` when
   * its haproxy.cfg could not be read (see ConfigureRaises).
   */
  function SetupTrace(names: seq<string>, haproxyCfg: Option<string>): seq<Step> {
    if haproxyCfg.None? && "lb" in names then EachVm(names[..IndexOf(names, "lb") + 1], SettingUp)
    else EachVm(names, SettingUp)
  }

  /** A `start` or `stop` with a known name acts on that VM alone; with an unknown name on none. */
  lemma NamedTraces(names: seq<string>, vm: string)
    requires vm != ""
    ensures vm in names ==> StartTrace(names, Some(vm)) == [CloseConsole(vm), StartVm(vm), ShowConsole(vm)]
    ensures vm in names ==> StopTrace(names, Some(vm)) == [StopVm(vm), CloseConsole(vm)]
    ensures vm !in names ==> StartTrace(names, Some(vm)) == [] && StopTrace(names, Some(vm)) == []
    ensures StartTrace(names, Some("")) == StartTrace(names, None)
    ensures StopTrace(names, Some("")) == StopTrace(names, None)
  {
  }

  /**
   * Without a name, `start` and `stop` go through every VM in device order:
   * the `k`-th VM has its console closed, is started and gets a console, or
   * is stopped and then has its console closed; `destroy` destroys,
   * undefines and closes the console of each VM in order and cleans the
   * environment last.
   */
  lemma AllVmTraces(names: seq<string>, k: nat)
    requires k < |names|
    ensures |StartTrace(names, None)| == 3 * |names|
    ensures StartTrace(names, None)[3 * k .. 3 * k + 3] == [CloseConsole(names[k]), StartVm(names[k]), ShowConsole(names[k])]
    ensures |StopTrace(names, None)| == 2 * |names|
    ensures StopTrace(names, None)[2 * k .. 2 * k + 2] == [StopVm(names[k]), CloseConsole(names[k])]
    ensures |DestroyTrace(names)| == 3 * |names| + 1
    ensures DestroyTrace(names)[3 * k .. 3 * k + 3] == [DestroyVm(names[k]), UndefineVm(names[k]), CloseConsole(names[k])]
    ensures DestroyTrace(names)[3 * |names|] == CleanEnvironment
  {
    assert StartTrace(names, None) == EachVm(names, Starting);
    EachVmAt(names, Starting, 3, k);
    assert StopTrace(names, None) == EachVm(names, Stopping);
    EachVmAt(names, Stopping, 2, k);
    EachVmAt(names, Destroying, 3, k);
    SnocSlice(EachVm(names, Destroying), CleanEnvironment, 3 * k, 3 * k + 3);
  }

  lemma SnocSlice<T>(x: seq<T>, e: T, i: nat, j: nat)
    requires i <= j <= |x|
    ensures (x + [e])[i..j] == x[i..j] && (x + [e])[|x|] == e
  {
  }

  /** The steps of the `k`-th VM sit at its own offset in the trace. */
  lemma EachVmAt(names: seq<string>, phase: Phase, w: nat, k: nat)
    requires k < |names| && w == Width(phase)
    ensures |EachVm(names, phase)| == w * |names|
    ensures EachVm(names, phase)[w * k .. w * k + w] == PhaseSteps(phase, names[k])
  {
    EachVmLength(names, phase);
    EachVmLength(names[..k], phase);
    EachVmSplit(names, phase, k);
    PartSlice(EachVm(names[..k], phase), PhaseSteps(phase, names[k]), EachVm(names[k + 1..], phase));
  }

  lemma PartSlice<T>(a: seq<T>, p: seq<T>, c: seq<T>)
    ensures (a + p + c)[|a|..|a| + |p|] == p
  {
  }

  /**
   * `create` on the generated topology: with the load balancer's haproxy.cfg
   * readable every VM is defined and then configured, in device order;
   * otherwise configuring `lb`, the first device, raises and nothing follows.
   */
  lemma CreateTopologyTrace(n: int, haproxyCfg: Option<string>)
    ensures haproxyCfg.Some? ==> SetupTrace(Keys(Topology(n)), haproxyCfg) == EachVm(Keys(Topology(n)), SettingUp)
    ensures haproxyCfg.None? ==> SetupTrace(Keys(Topology(n)), haproxyCfg) == [DefineVm("lb"), ConfigureVm("lb")]
  {
    var names := Keys(Topology(n));
    TopologyKeys(n);
    if haproxyCfg.None? {
      assert names[..0] == [];
      IndexOfAt(names, "lb", 0);
      assert names[..1] == ["lb"];
      assert EachVm(["lb"], SettingUp) == PhaseSteps(SettingUp, "lb") + EachVm([], SettingUp);
    }
  }

  // ---------------------------------------------------------------------------
  // The subcommands

  /** `start`, over the VMs in device order. */
  method Start(names: seq<string>, vmName: Option<string>) returns (steps: seq<Step>)
    ensures steps == StartTrace(names, vmName)
  {
    if vmName.Some? && vmName.value != "" {
      if vmName.value in names {
        steps := [CloseConsole(vmName.value), StartVm(vmName.value), ShowConsole(vmName.value)];
      } else {
        steps := [];
      }
      return;
    }
    steps := [];
    var i := 0;
    while i < |names|
      invariant 0 <= i <= |names|
      invariant steps == EachVm(names[..i], Starting)
    {
      EachVmStep(names, Starting, i);
      steps := steps + [CloseConsole(names[i]), StartVm(names[i]), ShowConsole(names[i])];
      i := i + 1;
    }
    assert names[..i] == names;
  }

  /** `stop`, over the VMs in device order. */
  method Stop(names: seq<string>, vmName: Option<string>) returns (steps: seq<Step>)
    ensures steps == StopTrace(names, vmName)
  {
    if vmName.Some? && vmName.value != "" {
      if vmName.value in names {
        steps := [StopVm(vmName.value), CloseConsole(vmName.value)];
      } else {
        steps := [];
      }
      return;
    }
    steps := [];
    var i := 0;
    while i < |names|
      invariant 0 <= i <= |names|
      invariant steps == EachVm(names[..i], Stopping)
    {
      EachVmStep(names, Stopping, i);
      steps := steps + [StopVm(names[i]), CloseConsole(names[i])];
      i := i + 1;
    }
    assert names[..i] == names;
  }

  /** `destroy`. */
  method Destroy(names: seq<string>) returns (steps: seq<Step>)
    ensures steps == DestroyTrace(names)
  {
    steps := [];
    var i := 0;
    while i < |names|
      invariant 0 <= i <= |names|
      invariant steps == EachVm(names[..i], Destroying)
    {
      EachVmStep(names, Destroying, i);
      steps := steps + [DestroyVm(names[i]), UndefineVm(names[i]), CloseConsole(names[i])];
      i := i + 1;
    }
    assert names[..i] == names;
    steps := steps + [CleanEnvironment];
  }

  /**
   * `create`: the environment is built, then each VM is defined and
   * configured in device order. An exception out of configure_vm ends the
   * script (`raised`), so later VMs are left alone.
   */
  method Create(devices: Devices, haproxyCfg: Option<string>) returns (steps: seq<Step>, raised: bool)
    ensures steps == [CreateEnvironment] + SetupTrace(Keys(devices), haproxyCfg)
    ensures raised <==> "lb" in Keys(devices) && haproxyCfg.None?
  {
    ghost var names := Keys(devices);
    steps := [CreateEnvironment];
    for i := 0 to |devices|
      invariant haproxyCfg.Some? || "lb" !in names[..i]
      invariant steps == [CreateEnvironment] + EachVm(names[..i], SettingUp)
    {
      var name := devices[i].key;
      KeysAt(devices, i);
      SetupStep(names, haproxyCfg, i);
      steps := steps + [DefineVm(name), ConfigureVm(name)];
      raised := Configure(name, devices[i].value, devices, haproxyCfg);
      if raised {
        SetupTraceRaised(names, haproxyCfg, i);
        return;
      }
    }
    raised := false;
    assert names[..|devices|] == names;
    SetupTraceDone(names, haproxyCfg);
  }

  /** One more VM set up: its two steps follow the earlier ones, and `lb` is still unseen unless it was this one. */
  lemma SetupStep(names: seq<string>, haproxyCfg: Option<string>, i: nat)
    requires i < |names| && (haproxyCfg.Some? || "lb" !in names[..i])
    ensures [CreateEnvironment] + EachVm(names[..i + 1], SettingUp)
         == [CreateEnvironment] + EachVm(names[..i], SettingUp) + [DefineVm(names[i]), ConfigureVm(names[i])]
    ensures !ConfigureRaises(names[i], haproxyCfg) ==> haproxyCfg.Some? || "lb" !in names[..i + 1]
  {
    EachVmStep(names, SettingUp, i);
  }

  /** Without a failing `lb`, every VM is set up. */
  lemma SetupTraceDone(names: seq<string>, haproxyCfg: Option<string>)
    requires haproxyCfg.Some? || "lb" !in names
    ensures SetupTrace(names, haproxyCfg) == EachVm(names, SettingUp)
  {
  }

  /** When the first `lb` is at `i` and its configuration raises, `create` sets up the VMs up to `i` and stops. */
  lemma SetupTraceRaised(names: seq<string>, haproxyCfg: Option<string>, i: nat)
    requires i < |names| && ConfigureRaises(names[i], haproxyCfg) && "lb" !in names[..i]
    ensures "lb" in names
    ensures SetupTrace(names, haproxyCfg) == EachVm(names[..i + 1], SettingUp)
  {
    IndexOfAt(names, "lb", i);
  }

  /** configure_vm on one VM: whether it raised. */
  method Configure(name: string, ifaces: Ifaces, devices: Devices, haproxyCfg: Option<string>) returns (raised: bool)
    ensures raised <==> ConfigureRaises(name, haproxyCfg)
  {
    var cmds;
    cmds, raised := Vm.ConfigureVm(name, ifaces, devices, haproxyCfg);
  }

  /** The outcome of one run of the script. */
  datatype Outcome = Outcome(steps: seq<Step>, error: Option<string>)

  /** The whole script: settings check, topology, then the subcommand. */
  function RunTrace(configured: Option<int>, cmd: Subcommand, haproxyCfg: Option<string>): Outcome {
    match ValidateServerCount(configured)
    case Err(msg) => Outcome([], Some(msg))
    case Ok(n) =>
      var names := Keys(Topology(n));
      match cmd
      case CreateCmd =>
        Outcome([CreateEnvironment] + SetupTrace(names, haproxyCfg),
                if haproxyCfg.None? then Some("TypeError") else None)
      case StartCmd(vmName) => Outcome(StartTrace(names, vmName), None)
      case StopCmd(vmName) => Outcome(StopTrace(names, vmName), None)
      case DestroyCmd => Outcome(DestroyTrace(names), None)
      case NoCmd => Outcome([], None)
  }

  /**
   * The script's main block. `haproxyCfg` is what reading the load
   * balancer's haproxy.cfg gives during `create`.
   */
  method Run(configured: Option<int>, cmd: Subcommand, haproxyCfg: Option<string>) returns (outcome: Outcome)
    ensures outcome == RunTrace(configured, cmd, haproxyCfg)
  {
    var count := ValidateServerCount(configured);
    if count.Err? {
      return Outcome([], Some(count.message));
    }
    var devices := GenerateDevicesIfaces(count.value);
    var names := Keys(devices);
    match cmd {
      case CreateCmd =>
        var steps, raised := Create(devices, haproxyCfg);
        TopologyKeys(count.value);
        assert "lb" in names;
        outcome := Outcome(steps, if raised then Some("TypeError") else None);
      case StartCmd(vmName) =>
        var steps := Start(names, vmName);
        outcome := Outcome(steps, None);
      case StopCmd(vmName) =>
        var steps := Stop(names, vmName);
        outcome := Outcome(steps, None);
      case DestroyCmd =>
        var steps := Destroy(names);
        outcome := Outcome(steps, None);
      case NoCmd =>
        outcome := Outcome([], None);
    }
  }

  /** An invalid server count stops the script before any VM or environment operation. */
  lemma InvalidCountDoesNothing(configured: Option<int>, cmd: Subcommand, haproxyCfg: Option<string>)
    requires configured.Some? && (configured.value < MinServers || configured.value > MaxServers)
    ensures RunTrace(configured, cmd, haproxyCfg).steps == []
    ensures RunTrace(configured, cmd, haproxyCfg).error.Some?
  {
  }

  // ---------------------------------------------------------------------------
  // The descriptors `create` leaves behind

  lemma TopologyNamesPlain(n: int, k: nat)
    requires k < |Topology(n)|
    ensures '.' !in Topology(n)[k].key
  {
    ServersLength(n);
    if k >= 2 {
      var i := k - 1;
      TopologyAt(n, k);
      forall j | 1 <= j < |ServerName(i)|
        ensures ServerName(i)[j] != '.'
      {
        assert ServerName(i)[j] == NatToString(i)[j - 1];
        assert IsDigit(NatToString(i)[j - 1]);
      }
    } else {
      assert Topology(n)[k] == BaseDevices()[k];
    }
  }

  /**
   * After `create`'s environment step on the generated topology, from a base
   * descriptor with a single interface: every device's descriptor carries
   * the device's name, its own disk image by absolute path, and exactly one
   * interface per bridge of its network, in NETWORK_MAP order, each with a
   * virtualport.
   */
  lemma EnvironmentDescriptors(n: int, base: Network.Domain, files: map<string, Network.Domain>,
                               images: set<string>, cwd: string, k: nat)
    requires |base.interfaces| == 1
    requires k < |Topology(n)|
    ensures var d := Topology(n)[k].key;
      var names := Keys(Topology(n));
      var built := Network.ConfiguredFiles(NetworkMap(Topology(n)), Network.CopiedFiles(names, base, files),
                                           images + Network.ImageNames(names), cwd);
      && d + ".xml" in built
      && built[d + ".xml"].name == d
      && built[d + ".xml"].diskSource == Network.AbsPath(cwd, d + ".qcow2")
      && Network.Bridges(built[d + ".xml"].interfaces) == BridgesFor(d)
      && (forall j :: 0 <= j < |built[d + ".xml"].interfaces| ==> built[d + ".xml"].interfaces[j].virtualports != [])
  {
    var devs := Topology(n);
    var d := devs[k].key;
    var names := Keys(devs);
    var m := NetworkMap(devs);
    var newImages := images + Network.ImageNames(names);
    var copied := Network.CopiedFiles(names, base, files);
    var xmlName := d + ".xml";
    KeysAt(devs, k);
    TopologyDistinctKeys(n);
    NetworkMapKeys(devs);
    NetworkMapAt(devs, k);
    Network.CopiedFilesAt(names, base, files, xmlName);
    TopologyNamesPlain(n, k);
    TopologyBridges(n, k);
    Network.ConfiguredFilesAt(m, copied, newImages, cwd, k);
    Network.XmlModifiedFromBase(base, d, m[k].value, newImages, cwd);
  }

  /** Every device of the topology is on at least one bridge. */
  lemma TopologyBridges(n: int, k: nat)
    requires k < |Topology(n)|
    ensures BridgesFor(Topology(n)[k].key) != []
  {
    ServersLength(n);
    if k >= 2 {
      TopologyAt(n, k);
      ServerBridges(k - 1);
    } else {
      assert Topology(n)[k] == BaseDevices()[k];
      assert StartsWith("c1", "c");
    }
  }
}
