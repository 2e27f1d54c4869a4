# A verified model of the p2 virtual-lab provisioning scripts

The scripts build a small virtual network on one host. The network has a load balancer `lb`, a client `c1` and two to five web servers `s1`..`sN`. There are two Open vSwitch bridges: `LAN1` carries 10.1.1.0/24 and `LAN2` carries 10.1.2.0/24. The scripts use libvirt (`virsh`) and the guestfs tools (`virt-edit`, `virt-copy-in`, `virt-cat`).

This project models the parts of the scripts that decide things:

- **Topology** (`utils.dfy`, module `Utils`). This is the device table `generate_devices_ifaces` builds: an insertion-ordered dictionary from device to interface to (address, mask, gateway).
- **VM configuration** (`vm.dfy`, module `Vm`).
  - The HAProxy backend block and its splice into the guest's haproxy.cfg.
  - The `/etc/network/interfaces` text.
  - The command sequence `configure_vm` issues to a guest.
  - The `virsh list` scan that decides whether a VM is running, and the stop and destroy guards built on it.
  - The `ps aux` scan that closes console windows.
- **Libvirt descriptors** (`network.dfy`, module `Network`).
  - The parsed descriptor is a class `Tree` whose fields the four modifiers update in place.
  - `xml_modifier` runs them on one file, `configure_xml_env` runs it over the network map, and `create_environment` prepares the images and copies first.
  - `destroy_files` selects what is removed at clean-up.
- **Entry point** (`manage.dfy`, module `Manage`).
  - The server-count check and the `NETWORK_MAP` derivation.
  - The four subcommands, each modelled as the trace of VM and environment operations it invokes.

Strings (`strings.dfy`) model the few Python `str` operations the scripts use. `wrappers.dfy` holds `Option` and `Result`.

External tools are not modelled; each call becomes a value in a trace (`Vm.Command`, `Manage.Step`). What a tool reads back is an input instead:

- the `virsh list --all` output;
- the `ps aux` output;
- the current haproxy.cfg;
- the directory listing;
- the descriptors and disk images present.

`None` stands for a failed read.

## Model

| member | source | states |
|---|---|---|
| Utils.GenerateDevicesIfaces | src/utils/utils.py:17-64 | builds the topology for `n` servers: `lb` and `c1`, then one server per loop round |
| Utils.TopologyKeys | src/utils/utils.py:27-62 | the device names are `lb`, `c1`, `s1`..`sN` in this order, and only `lb`, `c1` when `n <= 0` |
| Utils.TopologyShape | src/utils/utils.py:27-62 | `lb` has eth0 10.1.1.1 and eth1 10.1.2.1; `c1` has eth0 10.1.1.2 behind gateway 10.1.1.1; server `s_i` has a single eth0, 10.1.2.(10+i) with mask 255.255.255.0 behind gateway 10.1.2.1 |
| Utils.TopologyLookup | src/utils/utils.py:27-62 | looking up `lb`, `c1` or `s_i` gives exactly that device's interfaces |
| Utils.TopologyDistinctKeys | src/utils/utils.py:53-61 | no device name is inserted twice |
| Utils.TopologyAddressesDistinct | src/utils/utils.py:27-62 | all interface addresses in order are 10.1.1.1, 10.1.2.1, 10.1.1.2, then one per server; no two are equal |
| Utils.Put | src/utils/utils.py:55 | dictionary assignment: a new key goes last, an existing key keeps its place, the key maps to the new value and other keys are unaffected |
| Utils.Get | src/classes/vm.py:136-138 | a lookup finds a value exactly when the key is present |
| Vm.BuildHaproxyConfig | src/classes/vm.py:129-162 | the loop that appends one server line per backend server, followed by `strip()`, yields the block `generate_haproxy_config` returns |
| Vm.AppendServerLines | src/classes/vm.py:159-160 | each round appends `    server NAME IP:80 check` and a newline, in order |
| Vm.HaproxyConfigLines | src/classes/vm.py:135-162 | the block is the stats, frontend and backend sections, then one server line per backend server, joined by newlines; it neither starts nor ends with whitespace |
| Vm.BackendServersExactly | src/classes/vm.py:135-139 | a (name, address) pair is balanced exactly when some device whose name starts with `s` has an eth0 with that address |
| Vm.TopologyBackend | src/classes/vm.py:135-139 | for the generated topology the backend is `s1`..`sN` with their eth0 addresses, in order |
| Vm.TopologyHaproxyConfig | src/classes/vm.py:129-162 | for the generated topology the block is the header followed by one line per server, in order |
| Vm.UpdateHaproxyConfig | src/classes/vm.py:164-185 | a read failure gives no content; otherwise the new file is an empty line, the lines of the old content followed by the block, and an empty line |
| Vm.HaproxyFileBlockLines | src/classes/vm.py:179 | when the old file ends in a newline, the new file's lines are an empty line, the old lines, the block's lines unchanged, and an empty line |
| Vm.TopologyHaproxyFile | src/classes/vm.py:164-205 | the haproxy.cfg written to `lb` holds the old lines followed by the header and the server lines of the topology |
| Vm.CopyInterfaces | src/classes/vm.py:39-57 | the loop builds the loopback stanza, one stanza per interface and a final newline |
| Vm.InterfacesFile | src/classes/vm.py:39-57 | the interfaces text is the loopback stanza, the static stanzas and a final empty line, joined by newlines |
| Vm.InterfacesFileLines | src/classes/vm.py:44-57 | the file has 6k+5 lines; it starts with the loopback stanza, has interface `k`'s stanza at lines 3+6k..9+6k (auto, iface inet static, address, netmask, gateway) and ends with two empty lines |
| Vm.ConfigureVm | src/classes/vm.py:207-224 | every VM gets hostname, interfaces and hosts, in that order; `lb` then gets IP forwarding, the new haproxy.cfg and the HAProxy restart; an `s*` VM gets apache2 in rc.local and its index page; an unreadable haproxy.cfg on `lb` raises after IP forwarding |
| Vm.EditHaproxyConf | src/classes/vm.py:187-205 | copies the spliced haproxy.cfg into the guest; when the old file could not be read it raises and copies nothing, since writing `False` to the temporary file fails before `virt-copy-in` runs |
| Vm.IsVmRunning | src/classes/vm.py:293-316 | running exactly when the listing was obtained and its first line that mentions the VM also says "running"; false when no line mentions it or the listing fails |
| Vm.StopVm | src/classes/vm.py:276-290 | a shutdown is issued exactly when the VM is reported running |
| Vm.DestroyVm | src/classes/vm.py:318-332 | a destroy is issued exactly when the VM is reported running |
| Vm.CloseVmConsole | src/classes/vm.py:347-371 | kills, in order, the pid of every `xterm` line running `virsh console NAME`; it stops at a pid that does not parse or at a failed kill, and does nothing when `ps` fails |
| Vm.ConsoleKillsSound | src/classes/vm.py:361-366 | every pid killed is the second field of a console line of this VM |
| Vm.ConsoleKillsComplete | src/classes/vm.py:361-366 | when every pid parses and no kill fails, every console line of the VM has its pid killed |
| Network.Tree.NameModifier | src/classes/network.py:111-116 | the descriptor's name is replaced; nothing else changes |
| Network.Tree.SourceFileModifier | src/classes/network.py:118-123 | the disk source path is replaced; nothing else changes |
| Network.Tree.InterfaceLanModifier | src/classes/network.py:125-135 | the first interface moves to the bridge and gets an openvswitch virtualport only when it has none; with no interface the call raises and the tree is unchanged |
| Network.Tree.DuplicateInterface | src/classes/network.py:137-146 | a copy of the first interface on the new bridge is appended; without an interface nothing changes |
| Network.LanBoundProperties | src/classes/network.py:130-135 | the bound interface is on the bridge, has a virtualport, keeps any it had, and binding again changes nothing |
| Network.XmlModifier | src/classes/network.py:62-91 | the tree edits write exactly what the descriptor specification gives, or nothing when a step raises |
| Network.XmlModifiedProperties | src/classes/network.py:62-91 | something is written exactly when the file parses, `<name>.qcow2` exists, a network is given and there is an interface; the name is the part before the first `.`; the disk is the image's absolute path; the first interface is bound to `networks[0]` with a virtualport; the other original interfaces are kept unchanged; one copy per further network follows in order, so the interface count grows by `len(networks) - 1` |
| Network.XmlModifiedFromBase | src/classes/network.py:62-91 | for a copy of a base descriptor with one interface, something is written: the device's name, its own image by absolute path, one interface per network in order, each with a virtualport |
| Network.ConfigureXmlEnv | src/classes/network.py:93-99 | calls `xml_modifier` on `<device>.xml` once per map entry, in map order, and threads the directory through |
| Network.ConfiguredFilesAt | src/classes/network.py:93-99 | with distinct devices, each device's descriptor ends up as `xml_modifier` makes it from the original, or stays unchanged when nothing is written |
| Network.ConfiguredFilesUntouched | src/classes/network.py:93-99 | a descriptor of no mapped device is left alone |
| Network.CreateQcow2Files | src/classes/network.py:28-43 | adds one `<device>.qcow2` per device |
| Network.CreateXmlFiles | src/classes/network.py:15-26 | each device's descriptor becomes a copy of the base descriptor |
| Network.CopiedFilesAt | src/classes/network.py:15-26 | after the copies, a device's descriptor is the base descriptor and every other file is unchanged |
| Network.CreateEnvironment | src/classes/network.py:183-193 | images, then copies, then `configure_xml_env`, in this order |
| Network.SelectCandidates | src/classes/network.py:50 | the regular files ending in `.xml` or `.qcow2`, in listing order |
| Network.DestroyFiles | src/classes/network.py:45-59 | removes, in listing order, every selected file that is not a base file |
| Network.RemovedExactly | src/classes/network.py:45-59 | a file is removed exactly when it is a regular `.xml` or `.qcow2` file and neither base file, so the base files always survive |
| Manage.ValidateServerCount | manage-p2.py:25-29 | an absent count means 2; a count below 2 or above 5 is rejected with the script's message; otherwise it is kept |
| Manage.BridgesFor | manage-p2.py:43-51 | a device is on LAN1 exactly when it is `lb` or starts with `c`, and on LAN2 exactly when it is `lb` or starts with `s` but not `c`; its bridges are drawn from LAN1, LAN2 once each, in that order |
| Manage.NetworkMap | manage-p2.py:43-51 | one entry per device, with the devices' keys in the same order |
| Manage.NetworkMapAt | manage-p2.py:43-51 | entry `i` of the map is device `i` with its bridges: `lb` on LAN1 and LAN2, `c*` on LAN1, `s*` on LAN2, anything else on no bridge |
| Manage.NetworkMapKeys | manage-p2.py:43-51 | the map has the topology's keys in the same order, so its keys are distinct too |
| Manage.ServerBridges | manage-p2.py:43-51 | every server name `s_i` maps to LAN2 alone |
| Manage.TopologyBridges | manage-p2.py:39-51 | every device of the generated topology is on at least one bridge |
| Manage.TopologyNetworkMap | manage-p2.py:39-51 | for the generated topology: `lb` on both LANs, `c1` on LAN1, every server on LAN2, and every device on at least one bridge |
| Manage.Start | manage-p2.py:111-123 | a known name gets close console, start, show console; an unknown name does nothing; no name or an empty one does that for every VM in order |
| Manage.Stop | manage-p2.py:125-139 | a known name is stopped and then its console closed; an unknown name stops nothing; no name or an empty one does that for every VM in order |
| Manage.Destroy | manage-p2.py:142-152 | every VM is destroyed, undefined and its console closed, in order; then the environment is cleaned once |
| Manage.Create | manage-p2.py:100-109 | the environment is built first; then each VM is defined and configured, in order, until a configure raises, which happens exactly when `lb` is a device and its haproxy.cfg cannot be read |
| Manage.SetupTraceRaised | manage-p2.py:100-109 | when the VM at position `i` is the first `lb` and its configuration raises, `create` has set up exactly the VMs up to and including it |
| Manage.Configure | src/classes/vm.py:207-224 | a VM's configuration raises exactly for `lb` with an unreadable haproxy.cfg |
| Manage.NamedTraces | manage-p2.py:111-139 | a named start or stop acts on that VM alone, or on none when the name is unknown; an empty name acts like no name |
| Manage.AllVmTraces | manage-p2.py:119-152 | without a name, VM `k`'s three start steps, two stop steps or three destroy steps sit at position 3k, 2k or 3k, and destroy ends with the clean-up |
| Manage.CreateTopologyTrace | manage-p2.py:100-109 | on the topology, `create` defines and configures every VM when haproxy.cfg is readable; otherwise it stops after configuring `lb`, the first device |
| Manage.Run | manage-p2.py:17-155 | the count check comes first, and a bad count yields no operation at all; otherwise the subcommand runs on the generated topology, and with no subcommand the script only logs |
| Manage.InvalidCountDoesNothing | manage-p2.py:26-29 | a count out of range stops the script before any VM or environment operation |
| Manage.EnvironmentDescriptors | src/classes/network.py:183-193 | after `create` builds the environment from a base descriptor with one interface, each device's descriptor has the device's name, its own image by absolute path, one interface per bridge of its network in map order, and a virtualport on each |

## Left out

- Running the external tools. `virsh`, `virt-edit`, `virt-copy-in`, `virt-cat`, `qemu-img`, `cp`, `kill`, `ps`, `ovs-vsctl`, `ifconfig`, `ip` and `xterm` become trace values or inputs, and each is taken to succeed unless its result is an input.
- The text of the `sed` expressions passed to `virt-edit` (hosts, sysctl, rc.local). Each edit is one `Vm.Command`.
- The define, start, show-console and undefine calls. They are one subprocess each and have no logic, so they appear only as steps of the `Manage` traces.
- The bridge commands `create_bridges`, `delete_bridges` and `add_interface_to_host`. They are fixed commands with no decision in them.
- XML beyond the domain name, the disk source and the interfaces (their bridge and virtualport types). Every descriptor is assumed to have a `<name>` and a disk `<source>`, and every interface to have a `<source>`. An AttributeError when one of these is missing is not modelled.
- Network.AbsPath: `os.path.abspath` is modelled only for a plain relative file name; normalisation of `.` and `..` is not modelled.
- Network.CreateXmlFiles: a base descriptor that is missing or does not parse is not modelled. The base is a parsed descriptor.
- Network.CreateQcow2Files: a failing `qemu-img` is not modelled; it is not checked by the script.
- Logging, the JSON configuration file and its read errors, and argparse. The settings and the subcommand are inputs.
- Manage.ValidateServerCount: a non-integer `number_of_servers` is not modelled; the count is an `int` or absent.
- `textwrap.dedent`: the dedented templates are written out as lines.
- Vm.IsBackend: the `"ipv4" in data["eth0"]` test is always true here, because every interface record carries its address.
- Vm.CloseVmConsole: `int()` of the pid field is modelled as an optional sign followed by ASCII digits; underscores between digits and non-ASCII digits are not modelled.
- Concurrency and timing, for example a VM changing state between the `virsh list` scan and the `shutdown`, are not modelled.
