/**
 * One virtual machine of the lab (src/classes/vm.py): the guest files written
 * into it (hostname, network interfaces, the HAProxy configuration, the index
 * page), which of those edits a VM gets according to its name, and the checks
 * made on the text printed by `virsh list --all` and `ps aux`.
 *
 * The external tools are not modelled; what the scripts ask of them is recorded
 * as a sequence of commands, and what they print comes in as a parameter.
 */
module Vm {
  import opened Wrappers
  import opened Strings
  import opened Utils

  /** A command handed to an external tool. */
  datatype Command =
    /** virt-copy-in of a file named `fileName` holding `content` into `targetDir` of the guest */
    | CopyIn(domain: string, fileName: string, targetDir: string, content: string)
    /** virt-edit of /etc/hosts: the 127.0.1.1 line names the VM */
    | EditHosts(domain: string)
    /** virt-edit of /etc/sysctl.conf: `net.ipv4.ip_forward=1` is uncommented */
    | EnableIpForward(domain: string)
    /** virt-edit of /etc/rc.local: `systemctl start <service>` runs at boot */
    | StartAtBoot(domain: string, service: string)
    /** virt-edit of /etc/rc.local: `service haproxy restart` runs at boot */
    | RestartHaproxyAtBoot(domain: string)
    /** virsh shutdown */
    | Shutdown(domain: string)
    /** virsh destroy */
    | Destroy(domain: string)
    /** kill -9 */
    | Kill(pid: int)

  // ---------------------------------------------------------------------------
  // The HAProxy block (generate_haproxy_config)

  /** The stats page section. */
  function StatsSection(): seq<string> {
    [ "listen stats",
      "    bind :8001",
      "    stats enable",
      "    stats uri /",
      "    stats hide-version",
      "    stats auth admin:cdps" ]
  }

  /** The frontend section. */
  function FrontendSection(): seq<string> {
    [ "frontend lb",
      "    bind *:80",
      "    mode http",
      "    default_backend webservers" ]
  }

  /** The head of the backend section; the server lines follow it. */
  function BackendSection(): seq<string> {
    [ "backend webservers",
      "    mode http",
      "    balance roundrobin" ]
  }

  /** The fixed part of the block: the three sections separated by empty lines. */
  function HaproxyHeader(): seq<string> {
    StatsSection() + [""] + FrontendSection() + [""] + BackendSection()
  }

  /**
   * The dedented template the block is grown from: an empty line, then the
   * header lines, each ended by a newline.
   */
  function HaproxyTemplate(): string {
    "\n" + Terminated(HaproxyHeader())
  }

  /** The line that puts one server into the backend. */
  function ServerLine(name: string, ip: string): string {
    "    server " + name + " " + ip + ":80 check"
  }

  /** A device HAProxy balances over: its name starts with "s" and it has an eth0 interface. */
  predicate IsBackend(e: Entry<Ifaces>) {
    StartsWith(e.key, "s") && Get(e.value, "eth0").Some?
  }

  /** The servers of the backend, as (name, eth0 address), in device order. */
  function BackendServers(devices: Devices): (r: seq<(string, string)>)
    ensures |r| <= |devices|
  {
    if devices == [] then []
    else
      var e := devices[0];
      var rest := BackendServers(devices[1..]);
      if IsBackend(e) then [(e.key, Get(e.value, "eth0").value.ipv4)] + rest else rest
  }

  function ServerLines(servers: seq<(string, string)>): (r: seq<string>)
    ensures |r| == |servers|
  {
    if servers == [] then []
    else
      var last := servers[|servers| - 1];
      ServerLines(servers[..|servers| - 1]) + [ServerLine(last.0, last.1)]
  }

  /** What the loop appends to the template: each server line followed by a newline. */
  function ServerBlock(servers: seq<(string, string)>): string {
    Terminated(ServerLines(servers))
  }

  /** generate_haproxy_config */
  function GenerateHaproxyConfig(devices: Devices): string {
    Strip(HaproxyTemplate() + ServerBlock(BackendServers(devices)))
  }

  /**
   * generate_haproxy_config, as the script builds it: the dedented template,
   * one server line appended per backend server, then strip().
   */
  method BuildHaproxyConfig(devices: Devices) returns (config: string)
    ensures config == GenerateHaproxyConfig(devices)
  {
    var servers := BackendServers(devices);
    config := AppendServerLines(HaproxyTemplate(), servers);
    config := Strip(config);
  }

  /** The loop of generate_haproxy_config: one server line and a newline per server, in order. */
  method AppendServerLines(template: string, servers: seq<(string, string)>) returns (config: string)
    ensures config == template + ServerBlock(servers)
  {
    config := template;
    var i := 0;
    while i < |servers|
      invariant 0 <= i <= |servers|
      invariant config == template + ServerBlock(servers[..i])
    {
      ServerBlockStep(servers, i);
      config := config + "    server " + servers[i].0 + " " + servers[i].1 + ":80 check\n";
      i := i + 1;
    }
    assert servers[..i] == servers;
  }

  lemma ServerBlockStep(servers: seq<(string, string)>, i: nat)
    requires i < |servers|
    ensures ServerBlock(servers[..i + 1]) == ServerBlock(servers[..i]) + ServerLine(servers[i].0, servers[i].1) + "\n"
  {
    var line := ServerLine(servers[i].0, servers[i].1);
    assert servers[..i + 1][..i] == servers[..i];
    TerminatedConcat(ServerLines(servers[..i]), [line]);
    assert Terminated([line]) == line + "\n" + Terminated([]);
  }

  /**
   * generate_haproxy_config gives the header lines followed by one server line
   * per backend server, joined by newlines; the block neither starts nor ends
   * with whitespace.
   */
  lemma HaproxyConfigLines(devices: Devices)
    ensures var r := GenerateHaproxyConfig(devices);
      r == Join(HaproxyHeader() + ServerLines(BackendServers(devices)))
      && Trimmed(r)
  {
    var servers := BackendServers(devices);
    HaproxyBlock(servers);
    HaproxyBlockEnds(servers);
  }

  lemma HaproxyBlock(servers: seq<(string, string)>)
    ensures Strip(HaproxyTemplate() + ServerBlock(servers)) == Join(HaproxyHeader() + ServerLines(servers))
  {
    HeaderEnds();
    StripGrownBlock(HaproxyHeader(), servers);
  }

  lemma HaproxyBlockEnds(servers: seq<(string, string)>)
    ensures Trimmed(Join(HaproxyHeader() + ServerLines(servers)))
  {
    HeaderEnds();
    JoinEnds(HaproxyHeader(), servers);
  }

  lemma HeaderEnds()
    ensures Framed(HaproxyHeader())
  {
    var h := HaproxyHeader();
    assert |h| == 15;
    assert h[0] == StatsSection()[0] == "listen stats";
    assert h[14] == BackendSection()[2] == "    balance roundrobin";
  }

  lemma ServerLineEnds(name: string, ip: string)
    ensures var l := ServerLine(name, ip); l != [] && l[|l| - 1] == 'k'
  {
    var l := ServerLine(name, ip);
    assert l == "    server " + name + " " + ip + ":80 check";
    assert l[|l| - 1] == "check"[4];
  }

  lemma ServerLineSingleLine(name: string, ip: string)
    requires SingleLine(name) && SingleLine(ip)
    ensures SingleLine(ServerLine(name, ip))
  {
  }

  /** Lines that start and end with a character other than whitespace. */
  predicate Framed(head: seq<string>) {
    head != [] && head[0] != [] && !IsSpace(head[0][0])
    && var l := head[|head| - 1]; l != [] && !IsSpace(l[|l| - 1])
  }

  /** A framed header followed by server lines, once joined, starts and ends outside whitespace. */
  lemma JoinEnds(head: seq<string>, servers: seq<(string, string)>)
    requires Framed(head)
    ensures Trimmed(Join(head + ServerLines(servers)))
  {
    var lines := head + ServerLines(servers);
    assert lines[0] == head[0];
    JoinFirst(lines);
    if servers != [] {
      var s := servers[|servers| - 1];
      assert lines[|lines| - 1] == ServerLine(s.0, s.1);
      ServerLineEnds(s.0, s.1);
    } else {
      assert lines == head;
    }
    JoinLast(lines);
  }

  /**
   * Stripping a template whose first and last lines do not start or end with
   * whitespace, grown by server lines, leaves exactly the lines joined.
   */
  lemma StripGrownBlock(head: seq<string>, servers: seq<(string, string)>)
    requires Framed(head)
    ensures Strip("\n" + Terminated(head) + ServerBlock(servers)) == Join(head + ServerLines(servers))
  {
    var body := Join(head + ServerLines(servers));
    assert head != [];
    GrownBlockText(head, servers);
    JoinEnds(head, servers);
    StripFramed('\n', body, '\n');
  }

  /** The grown template is the joined lines between two newlines. */
  lemma GrownBlockText(head: seq<string>, servers: seq<(string, string)>)
    requires head != []
    ensures "\n" + Terminated(head) + ServerBlock(servers) == ['\n'] + Join(head + ServerLines(servers)) + ['\n']
  {
    var lines := head + ServerLines(servers);
    TerminatedConcat(head, ServerLines(servers));
    TerminatedJoin(lines);
    calc {
      "\n" + Terminated(head) + ServerBlock(servers);
      "\n" + (Terminated(head) + Terminated(ServerLines(servers)));
      "\n" + Terminated(lines);
      "\n" + (Join(lines) + "\n");
      ['\n'] + Join(lines) + ['\n'];
    }
  }

  // ---------------------------------------------------------------------------
  // Which devices end up in the backend

  function BackendEntry(e: Entry<Ifaces>): (string, string)
    requires IsBackend(e)
  {
    (e.key, Get(e.value, "eth0").value.ipv4)
  }

  /** Selecting the backend servers of two device lists one after the other. */
  lemma {:induction false} BackendServersConcat(a: Devices, b: Devices)
    ensures BackendServers(a + b) == BackendServers(a) + BackendServers(b)
  {
    if a == [] {
      assert a + b == b;
    } else {
      assert (a + b)[0] == a[0];
      assert (a + b)[1..] == a[1..] + b;
      BackendServersConcat(a[1..], b);
    }
  }

  /**
   * A pair is a backend server exactly when some device whose name starts
   * with "s" and that has an eth0 gives it its name and eth0 address.
   */
  lemma {:induction false} BackendServersExactly(devices: Devices, p: (string, string))
    ensures p in BackendServers(devices) <==>
      exists i :: 0 <= i < |devices| && IsBackend(devices[i]) && BackendEntry(devices[i]) == p
  {
    if devices != [] {
      BackendServersExactly(devices[1..], p);
      if p in BackendServers(devices[1..]) {
        var i :| 0 <= i < |devices[1..]| && IsBackend(devices[1..][i]) && BackendEntry(devices[1..][i]) == p;
        assert devices[i + 1] == devices[1..][i];
      }
      if exists i :: 0 <= i < |devices| && IsBackend(devices[i]) && BackendEntry(devices[i]) == p {
        var i :| 0 <= i < |devices| && IsBackend(devices[i]) && BackendEntry(devices[i]) == p;
        if i > 0 {
          assert devices[1..][i - 1] == devices[i];
        }
      }
    }
  }

  /** The backend of the generated topology: `s1`..`sN` with their addresses, in order. */
  function TopologyServers(n: int): (r: seq<(string, string)>)
    ensures |r| == if n <= 0 then 0 else n
    decreases n
  {
    if n <= 0 then [] else TopologyServers(n - 1) + [(ServerName(n), ServerAddress(n))]
  }

  /**
   * The generated topology's backend holds exactly `s1`..`sN` with their
   * addresses, in order; neither `lb` nor `c1` is in it.
   */
  lemma {:induction false} TopologyBackend(n: int)
    ensures BackendServers(Topology(n)) == TopologyServers(n)
    decreases n
  {
    if n <= 0 {
      var b := BaseDevices();
      assert b[0].key == "lb" && b[1].key == "c1";
      assert "lb"[0] != "s"[0] && "c1"[0] != "s"[0];
      assert !StartsWith(b[0].key, "s") && !StartsWith(b[1].key, "s");
      assert b[1..][1..] == [];
      assert Topology(n) == b;
    } else {
      TopologyBackend(n - 1);
      var e := Entry(ServerName(n), ServerIfaces(n));
      assert Topology(n) == Topology(n - 1) + [e];
      BackendServersConcat(Topology(n - 1), [e]);
      assert e.value[0].key == "eth0";
      assert IsBackend(e);
      assert BackendServers([e]) == [(ServerName(n), ServerAddress(n))];
    }
  }

  /** The server lines written for the generated topology, `    server s_i 10.1.2.(10+i):80 check` for each server. */
  function TopologyServerLines(n: int): (r: seq<string>)
    ensures |r| == if n <= 0 then 0 else n
    decreases n
  {
    if n <= 0 then [] else TopologyServerLines(n - 1) + [ServerLine(ServerName(n), ServerAddress(n))]
  }

  /** The topology's server lines are those of its backend servers. */
  lemma {:induction false} TopologyServerLinesOf(n: int)
    ensures ServerLines(TopologyServers(n)) == TopologyServerLines(n)
    decreases n
  {
    if n > 0 {
      TopologyServerLinesOf(n - 1);
      var t := TopologyServers(n);
      assert t[..|t| - 1] == TopologyServers(n - 1);
    }
  }

  /** The block generated for the topology: the header, then one line per server `s1`..`sN`. */
  lemma TopologyHaproxyConfig(n: int)
    ensures GenerateHaproxyConfig(Topology(n)) == Join(HaproxyHeader() + TopologyServerLines(n))
  {
    TopologyBackend(n);
    HaproxyConfigLines(Topology(n));
    TopologyServerLinesOf(n);
  }

  lemma StatsSingleLine()
    ensures AllSingleLine(StatsSection())
  {
    var l := StatsSection();
    assert SingleLine(l[0]) && SingleLine(l[1]) && SingleLine(l[2]);
    assert SingleLine(l[3]) && SingleLine(l[4]) && SingleLine(l[5]);
  }

  lemma FrontendSingleLine()
    ensures AllSingleLine(FrontendSection())
  {
    var l := FrontendSection();
    assert SingleLine(l[0]) && SingleLine(l[1]) && SingleLine(l[2]) && SingleLine(l[3]);
  }

  lemma BackendSingleLine()
    ensures AllSingleLine(BackendSection())
  {
    var l := BackendSection();
    assert SingleLine(l[0]) && SingleLine(l[1]) && SingleLine(l[2]);
  }

  lemma HeaderSingleLine()
    ensures AllSingleLine(HaproxyHeader())
  {
    var stats := StatsSection();
    var frontend := FrontendSection();
    StatsSingleLine();
    FrontendSingleLine();
    BackendSingleLine();
    assert AllSingleLine([""]);
    AllSingleLineConcat(stats, [""]);
    AllSingleLineConcat(stats + [""], frontend);
    AllSingleLineConcat(stats + [""] + frontend, [""]);
    AllSingleLineConcat(stats + [""] + frontend + [""], BackendSection());
  }

  lemma DigitsSingleLine(s: string)
    requires AllDigits(s)
    ensures SingleLine(s)
  {
    forall k | 0 <= k < |s|
      ensures s[k] != '\n'
    {
      assert IsDigit(s[k]);
    }
  }

  lemma {:induction false} TopologyServerLinesSingleLine(n: int)
    ensures AllSingleLine(TopologyServerLines(n))
    decreases n
  {
    if n > 0 {
      TopologyServerLinesSingleLine(n - 1);
      var name := ServerName(n);
      var ip := ServerAddress(n);
      DigitsSingleLine(NatToString(n));
      DigitsSingleLine(NatToString(10 + n));
      assert SingleLine(name) && SingleLine(ip);
      ServerLineSingleLine(name, ip);
      assert AllSingleLine([ServerLine(name, ip)]);
      AllSingleLineConcat(TopologyServerLines(n - 1), [ServerLine(name, ip)]);
    }
  }

  // ---------------------------------------------------------------------------
  // The splice of update_haproxy_config

  /**
   * update_haproxy_config: the new haproxy.cfg is a newline, the current
   * content, the block and a newline; nothing (`False`) when the current
   * content could not be read.
   */
  function UpdateHaproxyConfig(current: Option<string>, block: string): (r: Option<string>)
    ensures r.Some? <==> current.Some?
    ensures current.Some? ==> Split(r.value) == [""] + Split(current.value + block) + [""]
  {
    if current.None? then None
    else
      SplitBetweenNewlines(current.value + block);
      Some("\n" + (current.value + block) + "\n")
  }

  /** A text between two newlines reads as an empty line, its lines, and an empty line. */
  lemma SplitBetweenNewlines(m: string)
    ensures Split("\n" + m + "\n") == [""] + Split(m) + [""]
  {
    var tail := m + "\n";
    assert Split("") == [""];
    SplitConcat("", tail);
    assert "" + "\n" + tail == "\n" + m + "\n";
    SplitConcat(m, "");
    assert m + "\n" + "" == tail;
    var lines := Split(m);
    assert [""] + (lines + [""]) == [""] + lines + [""];
  }

  /**
   * When the current haproxy.cfg ends with a newline, the new one is an empty
   * line, the current lines, the lines of the block and a final empty line.
   */
  lemma HaproxyFileLines(current: string, block: string)
    requires EndsWith(current, "\n")
    ensures var kept := current[..|current| - 1];
      Split(UpdateHaproxyConfig(Some(current), block).value) == [""] + Split(kept) + Split(block) + [""]
  {
    var kept := current[..|current| - 1];
    assert current + block == kept + "\n" + block;
    SplitConcat(kept, block);
  }

  /** Splicing a block made of single lines puts exactly those lines between the current ones and a final empty line. */
  lemma HaproxyFileBlockLines(current: string, lines: seq<string>)
    requires EndsWith(current, "\n")
    requires lines != [] && AllSingleLine(lines)
    ensures Split(UpdateHaproxyConfig(Some(current), Join(lines)).value) == [""] + Split(current[..|current| - 1]) + lines + [""]
  {
    HaproxyFileLines(current, Join(lines));
    SplitJoin(lines);
  }

  /** The haproxy.cfg written into `lb` for the generated topology, line by line. */
  lemma TopologyHaproxyFile(n: int, current: string)
    requires EndsWith(current, "\n")
    ensures Split(UpdateHaproxyConfig(Some(current), GenerateHaproxyConfig(Topology(n))).value) ==
      [""] + Split(current[..|current| - 1]) + (HaproxyHeader() + TopologyServerLines(n)) + [""]
  {
    TopologyHaproxyConfig(n);
    HeaderSingleLine();
    TopologyServerLinesSingleLine(n);
    AllSingleLineConcat(HaproxyHeader(), TopologyServerLines(n));
    HaproxyFileBlockLines(current, HaproxyHeader() + TopologyServerLines(n));
  }

  lemma AllSingleLineConcat(a: seq<string>, b: seq<string>)
    requires AllSingleLine(a) && AllSingleLine(b)
    ensures AllSingleLine(a + b)
  {
    forall i | 0 <= i < |a + b|
      ensures SingleLine((a + b)[i])
    {
      if i >= |a| {
        assert (a + b)[i] == b[i - |a|];
      }
    }
  }

  // ---------------------------------------------------------------------------
  // /etc/network/interfaces (copy_interfaces)

  /**
   * The lines of one interface stanza as the dedented template renders them:
   * a blank line, `auto`, `iface ... inet static` and its three settings.
   */
  function StanzaLines(e: Entry<IfaceConfig>): seq<string> {
    [ "", "auto " + e.key, "iface " + e.key + " inet static", "    address " + e.value.ipv4,
      "    netmask " + e.value.mask, "    gateway " + e.value.gateway ]
  }

  /** The stanza of one interface: each of its lines ended by a newline. */
  function Stanza(e: Entry<IfaceConfig>): string {
    Terminated(StanzaLines(e))
  }

  /** The stanzas the loop appends, one per interface in order. */
  function Stanzas(ifaces: Ifaces): string {
    if ifaces == [] then "" else Stanza(ifaces[0]) + Stanzas(ifaces[1..])
  }

  function AllStanzaLines(ifaces: Ifaces): (r: seq<string>)
    ensures |r| == 6 * |ifaces|
  {
    if ifaces == [] then [] else StanzaLines(ifaces[0]) + AllStanzaLines(ifaces[1..])
  }

  /** The loopback stanza every interfaces file starts with. */
  function LoopbackLines(): seq<string> {
    ["", "auto lo", "iface lo inet loopback"]
  }

  /**
   * copy_interfaces: the file is the loopback stanza, one static stanza per
   * interface in order, and a final empty line, joined by newlines.
   */
  function InterfacesFile(ifaces: Ifaces): (r: string)
    ensures r == Join(LoopbackLines() + AllStanzaLines(ifaces) + ["", ""])
  {
    InterfacesFileJoined(ifaces);
    Terminated(LoopbackLines()) + Stanzas(ifaces) + "\n"
  }

  /**
   * copy_interfaces, as the script builds it: the loopback stanza, then one
   * stanza appended per interface, then the final newline.
   */
  method CopyInterfaces(ifaces: Ifaces) returns (content: string)
    ensures content == InterfacesFile(ifaces)
  {
    var loopback := Terminated(LoopbackLines());
    content := loopback;
    assert ifaces[..0] == [];
    for i := 0 to |ifaces|
      invariant content == loopback + Stanzas(ifaces[..i])
    {
      StanzasStep(loopback, ifaces, i);
      content := content + Stanza(ifaces[i]);
    }
    assert ifaces[..|ifaces|] == ifaces;
    content := content + "\n";
  }

  lemma {:induction false} StanzasConcat(a: Ifaces, b: Ifaces)
    ensures Stanzas(a + b) == Stanzas(a) + Stanzas(b)
  {
    if a == [] {
      assert a + b == b;
    } else {
      assert (a + b)[1..] == a[1..] + b;
      StanzasConcat(a[1..], b);
    }
  }

  /** One more round of the loop appends the stanza of interface `i` after whatever came before. */
  lemma StanzasStep(before: string, ifaces: Ifaces, i: nat)
    requires i < |ifaces|
    ensures before + Stanzas(ifaces[..i + 1]) == before + Stanzas(ifaces[..i]) + Stanza(ifaces[i])
  {
    assert ifaces[..i + 1] == ifaces[..i] + [ifaces[i]];
    StanzasConcat(ifaces[..i], [ifaces[i]]);
    assert [ifaces[i]][1..] == [];
  }

  lemma {:induction false} StanzasTerminated(ifaces: Ifaces)
    ensures Stanzas(ifaces) == Terminated(AllStanzaLines(ifaces))
  {
    if ifaces != [] {
      StanzasTerminated(ifaces[1..]);
      TerminatedConcat(StanzaLines(ifaces[0]), AllStanzaLines(ifaces[1..]));
    }
  }

  lemma InterfacesFileJoined(ifaces: Ifaces)
    ensures Terminated(LoopbackLines()) + Stanzas(ifaces) + "\n"
         == Join(LoopbackLines() + AllStanzaLines(ifaces) + ["", ""])
  {
    var head := LoopbackLines() + AllStanzaLines(ifaces);
    StanzasTerminated(ifaces);
    TerminatedConcat(LoopbackLines(), AllStanzaLines(ifaces));
    TerminatedJoin(head);
    JoinConcat(head, ["", ""]);
    assert Join(["", ""]) == "\n";
  }

  lemma {:induction false} AllStanzaLinesAt(ifaces: Ifaces, k: nat)
    requires k < |ifaces|
    ensures AllStanzaLines(ifaces)[6 * k..6 * k + 6] == StanzaLines(ifaces[k])
  {
    if k > 0 {
      AllStanzaLinesAt(ifaces[1..], k - 1);
      assert AllStanzaLines(ifaces)[6 * k..6 * k + 6] == AllStanzaLines(ifaces[1..])[6 * (k - 1)..6 * (k - 1) + 6];
    }
  }

  /** Names and settings that fit on one line each. */
  predicate SingleLineIfaces(ifaces: Ifaces) {
    forall k :: 0 <= k < |ifaces| ==>
      SingleLine(ifaces[k].key) && SingleLine(ifaces[k].value.ipv4)
      && SingleLine(ifaces[k].value.mask) && SingleLine(ifaces[k].value.gateway)
  }

  lemma StanzaLinesSingleLine(e: Entry<IfaceConfig>)
    requires SingleLine(e.key) && SingleLine(e.value.ipv4) && SingleLine(e.value.mask) && SingleLine(e.value.gateway)
    ensures AllSingleLine(StanzaLines(e))
  {
  }

  lemma {:induction false} AllStanzaLinesSingleLine(ifaces: Ifaces)
    requires SingleLineIfaces(ifaces)
    ensures AllSingleLine(AllStanzaLines(ifaces))
  {
    if ifaces != [] {
      StanzaLinesSingleLine(ifaces[0]);
      AllStanzaLinesSingleLine(ifaces[1..]);
    }
  }

  /**
   * Read line by line, the interfaces file has 6 lines per interface after the
   * 3 loopback lines, and lines 3 + 6k .. 8 + 6k are the stanza of interface k,
   * carrying its name, address, netmask and gateway.
   */
  lemma InterfacesFileLines(ifaces: Ifaces)
    requires SingleLineIfaces(ifaces)
    ensures var lines := Split(InterfacesFile(ifaces));
      |lines| == 6 * |ifaces| + 5
      && lines[..3] == LoopbackLines()
      && lines[6 * |ifaces| + 3..] == ["", ""]
      && forall k :: 0 <= k < |ifaces| ==> lines[3 + 6 * k..9 + 6 * k] == StanzaLines(ifaces[k])
  {
    var all := LoopbackLines() + AllStanzaLines(ifaces) + ["", ""];
    InterfacesLinesSingleLine(ifaces);
    SplitJoin(all);
    StanzasAt(ifaces);
  }

  lemma InterfacesLinesSingleLine(ifaces: Ifaces)
    requires SingleLineIfaces(ifaces)
    ensures AllSingleLine(LoopbackLines() + AllStanzaLines(ifaces) + ["", ""])
  {
    AllStanzaLinesSingleLine(ifaces);
    assert AllSingleLine(LoopbackLines());
    AllSingleLineConcat(LoopbackLines(), AllStanzaLines(ifaces));
    AllSingleLineConcat(LoopbackLines() + AllStanzaLines(ifaces), ["", ""]);
  }

  lemma StanzasAt(ifaces: Ifaces)
    ensures var all := LoopbackLines() + AllStanzaLines(ifaces) + ["", ""];
      forall k :: 0 <= k < |ifaces| ==> all[3 + 6 * k..9 + 6 * k] == StanzaLines(ifaces[k])
  {
    var all := LoopbackLines() + AllStanzaLines(ifaces) + ["", ""];
    forall k | 0 <= k < |ifaces|
      ensures all[3 + 6 * k..9 + 6 * k] == StanzaLines(ifaces[k])
    {
      StanzaAt(ifaces, k);
    }
  }

  lemma StanzaAt(ifaces: Ifaces, k: nat)
    requires k < |ifaces|
    ensures (LoopbackLines() + AllStanzaLines(ifaces) + ["", ""])[3 + 6 * k..9 + 6 * k] == StanzaLines(ifaces[k])
  {
    var x, y := LoopbackLines(), AllStanzaLines(ifaces);
    assert |x| == 3;
    AllStanzaLinesAt(ifaces, k);
    MiddleSlice(x, y, ["", ""], 6 * k, 6 * k + 6);
  }

  /** The slice of `x + y + z` that lies inside `y`. */
  lemma MiddleSlice<T>(x: seq<T>, y: seq<T>, z: seq<T>, i: nat, j: nat)
    requires i <= j <= |y|
    ensures (x + y + z)[|x| + i..|x| + j] == y[i..j]
  {
    var c := x + y + z;
    assert |c[|x| + i..|x| + j]| == j - i;
    forall t | 0 <= t < j - i
      ensures c[|x| + i..|x| + j][t] == y[i..j][t]
    {
      assert c[|x| + i + t] == y[i + t];
    }
  }



  // ---------------------------------------------------------------------------
  // configure_vm

  /** The index page a server publishes. */
  function IndexPage(name: string): string {
    "'" + name + "' index page\n"
  }

  /**
   * configure_vm: every VM gets its hostname, its interfaces file and its
   * /etc/hosts entry, in this order. `lb` then gets IP forwarding, the
   * rewritten haproxy.cfg and the HAProxy restart; a VM whose name starts with
   * "s" gets apache2 started at boot and its index page. When the current
   * haproxy.cfg of `lb` cannot be read, `False` reaches the file write, which
   * raises: nothing more is done and the exception leaves configure_vm.
   */
  method ConfigureVm(name: string, ifaces: Ifaces, devices: Devices, haproxyCfg: Option<string>)
    returns (cmds: seq<Command>, raised: bool)
    ensures raised <==> name == "lb" && haproxyCfg.None?
    ensures |cmds| >= 3
    ensures cmds[..3] == [ CopyIn(name, "hostname", "/etc/", name + "\n"),
                           CopyIn(name, "interfaces", "/etc/network/", InterfacesFile(ifaces)),
                           EditHosts(name) ]
    ensures name == "lb" && haproxyCfg.None? ==> cmds[3..] == [EnableIpForward(name)]
    ensures name == "lb" && haproxyCfg.Some? ==>
      cmds[3..] == [ EnableIpForward(name),
                     CopyIn(name, "haproxy.cfg", "/etc/haproxy/",
                            UpdateHaproxyConfig(haproxyCfg, GenerateHaproxyConfig(devices)).value),
                     RestartHaproxyAtBoot(name) ]
    ensures StartsWith(name, "s") ==>
      cmds[3..] == [StartAtBoot(name, "apache2"), CopyIn(name, "index.html", "/var/www/html/", IndexPage(name))]
    ensures name != "lb" && !StartsWith(name, "s") ==> |cmds| == 3
  {
    var interfaces := CopyInterfaces(ifaces);
    var base := [ CopyIn(name, "hostname", "/etc/", name + "\n"),
                  CopyIn(name, "interfaces", "/etc/network/", interfaces),
                  EditHosts(name) ];
    var tail := [];
    raised := false;
    assert "lb"[0] != "s"[0];
    assert !StartsWith("lb", "s");
    if name == "lb" {
      var write, failed := EditHaproxyConf(name, devices, haproxyCfg);
      if failed {
        raised := true;
        cmds := base + [EnableIpForward(name)];
        assert cmds[..3] == base && cmds[3..] == [EnableIpForward(name)];
        return;
      }
      tail := [EnableIpForward(name), write[0], RestartHaproxyAtBoot(name)];
    }
    if StartsWith(name, "s") {
      tail := [StartAtBoot(name, "apache2"), CopyIn(name, "index.html", "/var/www/html/", IndexPage(name))];
    }
    cmds := base + tail;
    assert cmds[..3] == base && cmds[3..] == tail;
  }

  /**
   * edit_haproxy_conf: the new haproxy.cfg is copied into the VM; when the
   * current one could not be read the write of `False` raises instead.
   */
  method EditHaproxyConf(name: string, devices: Devices, current: Option<string>)
    returns (cmds: seq<Command>, raised: bool)
    ensures raised <==> current.None?
    ensures raised ==> cmds == []
    ensures !raised ==>
      cmds == [CopyIn(name, "haproxy.cfg", "/etc/haproxy/", UpdateHaproxyConfig(current, GenerateHaproxyConfig(devices)).value)]
  {
    var block := BuildHaproxyConfig(devices);
    var content := UpdateHaproxyConfig(current, block);
    if content.None? {
      return [], true;
    }
    cmds := [CopyIn(name, "haproxy.cfg", "/etc/haproxy/", content.value)];
    raised := false;
  }

  // ---------------------------------------------------------------------------
  // is_vm_running, stop_vm, destroy_vm

  /**
   * What `virsh list --all` says of `name`: the listing was obtained and the
   * first of its lines that mentions the name also says "running".
   */
  ghost predicate ReportedRunning(name: string, listing: Option<string>) {
    listing.Some? &&
    var lines := SplitLines(listing.value);
    exists i :: 0 <= i < |lines| && Contains(lines[i], name) && Contains(lines[i], "running")
      && forall j :: 0 <= j < i ==> !Contains(lines[j], name)
  }

  /** is_vm_running: scans the listing line by line and answers at the first line naming the VM. */
  method IsVmRunning(name: string, listing: Option<string>) returns (running: bool)
    ensures running <==> ReportedRunning(name, listing)
  {
    if listing.None? {
      return false;
    }
    var lines := SplitLines(listing.value);
    var i := 0;
    while i < |lines|
      invariant 0 <= i <= |lines|
      invariant forall j :: 0 <= j < i ==> !Contains(lines[j], name)
    {
      if Contains(lines[i], name) {
        return Contains(lines[i], "running");
      }
      i := i + 1;
    }
    return false;
  }

  /** stop_vm: `virsh shutdown` only when the VM is reported running; otherwise only a log line. */
  method StopVm(name: string, listing: Option<string>) returns (cmds: seq<Command>)
    ensures cmds == if ReportedRunning(name, listing) then [Shutdown(name)] else []
  {
    var running := IsVmRunning(name, listing);
    cmds := if running then [Shutdown(name)] else [];
  }

  /** destroy_vm: `virsh destroy` only when the VM is reported running; otherwise only a log line. */
  method DestroyVm(name: string, listing: Option<string>) returns (cmds: seq<Command>)
    ensures cmds == if ReportedRunning(name, listing) then [Destroy(name)] else []
  {
    var running := IsVmRunning(name, listing);
    cmds := if running then [Destroy(name)] else [];
  }

  // ---------------------------------------------------------------------------
  // close_vm_console

  /** A `ps aux` line of the xterm that shows the console of `name`. */
  predicate IsConsoleLine(name: string, line: string) {
    Contains(line, "xterm") && Contains(line, "virsh console " + name)
  }

  /** `int(line.split()[1])`: the PID column, or nothing when the line has no second field or it is not a number. */
  function ConsolePid(line: string): Option<int> {
    var fields := Fields(line);
    if |fields| < 2 then None else ParseInt(fields[1])
  }

  /**
   * The kills close_vm_console issues for the lines of `ps aux`: one per
   * console line, in order. The scan ends, through the exception handler
   * around the loop, at a PID that cannot be read or at a kill that fails
   * (a PID in `failing`).
   */
  function ConsoleKills(name: string, lines: seq<string>, failing: set<int>): seq<Command> {
    if lines == [] then []
    else if !IsConsoleLine(name, lines[0]) then ConsoleKills(name, lines[1..], failing)
    else
      match ConsolePid(lines[0])
      case None => []
      case Some(pid) => [Kill(pid)] + (if pid in failing then [] else ConsoleKills(name, lines[1..], failing))
  }

  /** close_vm_console */
  method CloseVmConsole(name: string, ps: Option<string>, failing: set<int>) returns (cmds: seq<Command>)
    ensures cmds == if ps.None? then [] else ConsoleKills(name, SplitLines(ps.value), failing)
  {
    cmds := [];
    if ps.None? {
      return;
    }
    var lines := SplitLines(ps.value);
    for i := 0 to |lines|
      invariant cmds + ConsoleKills(name, lines[i..], failing) == ConsoleKills(name, lines, failing)
    {
      var line := lines[i];
      ConsoleKillsStep(name, lines, failing, i);
      ghost var later := ConsoleKills(name, lines[i + 1..], failing);
      if Contains(line, "xterm") && Contains(line, "virsh console " + name) {
        var fields := Fields(line);
        if |fields| < 2 {
          return;
        }
        var pid := ParseInt(fields[1]);
        if pid.None? {
          return;
        }
        ghost var before := cmds;
        cmds := cmds + [Kill(pid.value)];
        if pid.value in failing {
          return;
        }
        assert cmds + later == before + ([Kill(pid.value)] + later);
      }
    }
    assert lines[|lines|..] == [];
  }

  /** The kills from line `i` on, in terms of line `i` and the kills after it. */
  lemma ConsoleKillsStep(name: string, lines: seq<string>, failing: set<int>, i: nat)
    requires i < |lines|
    ensures ConsoleKills(name, lines[i..], failing) ==
      if !IsConsoleLine(name, lines[i]) then ConsoleKills(name, lines[i + 1..], failing)
      else if ConsolePid(lines[i]).None? then []
      else [Kill(ConsolePid(lines[i]).value)]
           + (if ConsolePid(lines[i]).value in failing then [] else ConsoleKills(name, lines[i + 1..], failing))
  {
    assert lines[i..][0] == lines[i] && lines[i..][1..] == lines[i + 1..];
  }

  /** Every kill targets the PID read from a console line of the VM. */
  lemma {:induction false} ConsoleKillsSound(name: string, lines: seq<string>, failing: set<int>, c: Command)
    requires c in ConsoleKills(name, lines, failing)
    ensures c.Kill? && exists j :: 0 <= j < |lines| && IsConsoleLine(name, lines[j]) && ConsolePid(lines[j]) == Some(c.pid)
  {
    if !IsConsoleLine(name, lines[0]) || (ConsolePid(lines[0]).Some? && c != Kill(ConsolePid(lines[0]).value)) {
      ConsoleKillsSound(name, lines[1..], failing, c);
      var j :| 0 <= j < |lines[1..]| && IsConsoleLine(name, lines[1..][j]) && ConsolePid(lines[1..][j]) == Some(c.pid);
      assert lines[j + 1] == lines[1..][j];
    }
  }

  /**
   * When every console line has a readable PID and no kill fails, each
   * console line's process is killed.
   */
  lemma {:induction false} ConsoleKillsComplete(name: string, lines: seq<string>, failing: set<int>, j: nat)
    requires j < |lines| && IsConsoleLine(name, lines[j])
    requires forall i :: 0 <= i < |lines| && IsConsoleLine(name, lines[i]) ==>
      ConsolePid(lines[i]).Some? && ConsolePid(lines[i]).value !in failing
    ensures Kill(ConsolePid(lines[j]).value) in ConsoleKills(name, lines, failing)
  {
    if j > 0 {
      assert lines[1..][j - 1] == lines[j];
      forall i | 0 <= i < |lines[1..]| && IsConsoleLine(name, lines[1..][i])
        ensures ConsolePid(lines[1..][i]).Some? && ConsolePid(lines[1..][i]).value !in failing
      {
        assert lines[1..][i] == lines[i + 1];
      }
      ConsoleKillsComplete(name, lines[1..], failing, j - 1);
    }
  }
}
