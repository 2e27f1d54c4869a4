/**
 * The lab topology (src/utils/utils.py): the load balancer `lb`, the client
 * `c1` and the servers `s1`..`sN`, each with its interfaces and their IPv4
 * address, netmask and gateway, kept as insertion-ordered dictionaries.
 */
module Utils {
  import opened Wrappers
  import opened Strings

  // ---------------------------------------------------------------------------
  // Insertion-ordered dictionaries (Python dicts)

  /** One key of a dictionary with its value. */
  datatype Entry<V> = Entry(key: string, value: V)

  /** A dictionary: its entries in insertion order. */
  type Dict<V> = seq<Entry<V>>

  /** `d.keys()`, in insertion order. */
  function Keys<V>(d: Dict<V>): (r: seq<string>)
    ensures |r| == |d|
  {
    if d == [] then [] else [d[0].key] + Keys(d[1..])
  }

  lemma {:induction false} KeysAt<V>(d: Dict<V>, i: nat)
    requires i < |d|
    ensures Keys(d)[i] == d[i].key
  {
    if i > 0 {
      KeysAt(d[1..], i - 1);
    }
  }

  lemma {:induction false} KeysConcat<V>(a: Dict<V>, b: Dict<V>)
    ensures Keys(a + b) == Keys(a) + Keys(b)
  {
    if a == [] {
      assert a + b == b;
    } else {
      assert (a + b)[1..] == a[1..] + b;
      KeysConcat(a[1..], b);
    }
  }

  /** A key is present exactly when some entry holds it. */
  lemma {:induction false} KeysContain<V>(d: Dict<V>, k: string)
    ensures k in Keys(d) <==> exists i :: 0 <= i < |d| && d[i].key == k
  {
    if d != [] {
      KeysContain(d[1..], k);
      if k in Keys(d[1..]) {
        var i :| 0 <= i < |d[1..]| && d[1..][i].key == k;
        assert d[i + 1] == d[1..][i];
      }
      if exists i :: 0 <= i < |d| && d[i].key == k {
        var i :| 0 <= i < |d| && d[i].key == k;
        if i > 0 {
          assert d[1..][i - 1] == d[i];
        }
      }
    }
  }

  /** Every key occurs once, as in any Python dict. */
  predicate DistinctKeys<V>(d: Dict<V>) {
    forall i, j :: 0 <= i < j < |d| ==> d[i].key != d[j].key
  }

  /** `d.get(k)`: the value stored under `k`, if any. */
  function Get<V>(d: Dict<V>, k: string): (r: Option<V>)
    ensures r.Some? <==> k in Keys(d)
  {
    if d == [] then None
    else
      assert Keys(d) == [d[0].key] + Keys(d[1..]);
      if d[0].key == k then Some(d[0].value) else Get(d[1..], k)
  }

  /** In a dictionary with distinct keys every entry is found under its key. */
  lemma {:induction false} GetAt<V>(d: Dict<V>, i: nat)
    requires DistinctKeys(d) && i < |d|
    ensures Get(d, d[i].key) == Some(d[i].value)
  {
    if i > 0 {
      GetAt(d[1..], i - 1);
    }
  }

  /**
   * `d[k] = v`: the value of an existing key is replaced where it stands; a new
   * key goes at the end.
   */
  function Put<V>(d: Dict<V>, k: string, v: V): (r: Dict<V>)
    ensures k in Keys(d) ==> Keys(r) == Keys(d)
    ensures k !in Keys(d) ==> r == d + [Entry(k, v)]
    ensures Get(r, k) == Some(v)
    ensures forall k' :: k' != k ==> Get(r, k') == Get(d, k')
  {
    if d == [] then [Entry(k, v)]
    else
      assert Keys(d) == [d[0].key] + Keys(d[1..]);
      if d[0].key == k then
        var r := [Entry(k, v)] + d[1..];
        assert Keys(r) == [k] + Keys(d[1..]);
        r
      else
        var r := [d[0]] + Put(d[1..], k, v);
        assert Keys(r) == [d[0].key] + Keys(Put(d[1..], k, v));
        r
  }

  // ---------------------------------------------------------------------------
  // Devices and their interfaces

  /** The settings of one interface: the `ipv4`, `mask` and `gateway` items. */
  datatype IfaceConfig = IfaceConfig(ipv4: string, mask: string, gateway: string)

  /** Interface name to settings, e.g. `eth0`, `eth1`. */
  type Ifaces = Dict<IfaceConfig>

  /** Device name to interfaces: the shape of `DEVICES_IFACES`. */
  type Devices = Dict<Ifaces>

  const Mask: string := "255.255.255.0"

  /** The load balancer and the client, which every topology starts with. */
  function BaseDevices(): Devices {
    [ Entry("lb", [ Entry("eth0", IfaceConfig("10.1.1.1", Mask, "10.1.1.1")),
                    Entry("eth1", IfaceConfig("10.1.2.1", Mask, "10.1.2.1")) ]),
      Entry("c1", [ Entry("eth0", IfaceConfig("10.1.1.2", Mask, "10.1.1.1")) ]) ]
  }

  function ServerName(i: nat): string {
    "s" + NatToString(i)
  }

  /** Server `i` sits on 10.1.2.0/24 at host number 10 + i. */
  function ServerAddress(i: nat): string {
    "10.1.2." + NatToString(10 + i)
  }

  function ServerIfaces(i: nat): Ifaces {
    [Entry("eth0", IfaceConfig(ServerAddress(i), Mask, "10.1.2.1"))]
  }

  /** The servers `s1`..`sn`; none when `n <= 0`. */
  function Servers(n: int): Devices
    decreases n
  {
    if n <= 0 then [] else Servers(n - 1) + [Entry(ServerName(n), ServerIfaces(n))]
  }

  /** The topology for `n` servers. */
  function Topology(n: int): Devices {
    BaseDevices() + Servers(n)
  }

  /**
   * generate_devices_ifaces: starts from the load balancer and the client and
   * inserts one server per loop round, counting the host number up from 11.
   */
  method GenerateDevicesIfaces(numberOfServers: int) returns (devices: Devices)
    ensures devices == Topology(numberOfServers)
  {
    devices := BaseDevices();
    assert devices == Topology(0);
    var baseIp := 11;
    var i := 1;
    while i <= numberOfServers
      invariant 1 <= i <= (if numberOfServers < 0 then 0 else numberOfServers) + 1
      invariant baseIp == 10 + i
      invariant devices == Topology(i - 1)
    {
      var serverName := "s" + NatToString(i);
      var ifaces := [Entry("eth0", IfaceConfig("10.1.2." + NatToString(baseIp), Mask, "10.1.2.1"))];
      TopologyStep(i);
      devices := Put(devices, serverName, ifaces);
      baseIp := baseIp + 1;
      i := i + 1;
    }
    TopologyEnd(numberOfServers, i - 1);
  }

  lemma TopologyEnd(n: int, m: int)
    requires m == if n < 0 then 0 else n
    ensures Topology(m) == Topology(n)
  {
    assert Servers(n) == Servers(m);
  }

  /** One loop round: inserting server `i` into the topology for `i - 1` servers gives the topology for `i`. */
  lemma TopologyStep(i: nat)
    requires i >= 1
    ensures Put(Topology(i - 1), "s" + NatToString(i),
                [Entry("eth0", IfaceConfig("10.1.2." + NatToString(10 + i), Mask, "10.1.2.1"))]) == Topology(i)
  {
    ServerNameFresh(i);
    assert Topology(i) == Topology(i - 1) + [Entry(ServerName(i), ServerIfaces(i))];
  }

  // ---------------------------------------------------------------------------
  // Properties of the topology

  lemma {:induction false} ServersLength(n: int)
    ensures |Servers(n)| == if n <= 0 then 0 else n
    decreases n
  {
    if n > 0 {
      ServersLength(n - 1);
    }
  }

  /** Entry `k` of the servers is server `k + 1`. */
  lemma {:induction false} ServerAt(n: int, k: nat)
    requires k < n
    ensures |Servers(n)| == n
    ensures Servers(n)[k] == Entry(ServerName(k + 1), ServerIfaces(k + 1))
    decreases n
  {
    ServersLength(n);
    if k < n - 1 {
      ServerAt(n - 1, k);
    }
  }

  /** Device `k` of the topology, past `lb` and `c1`, is server `k - 1`. */
  lemma TopologyAt(n: int, k: nat)
    requires 2 <= k < |Topology(n)|
    ensures 1 <= k - 1 <= n
    ensures Topology(n)[k] == Entry(ServerName(k - 1), ServerIfaces(k - 1))
  {
    ServersLength(n);
    ServerAt(n, k - 2);
    assert Topology(n)[k] == Servers(n)[k - 2];
  }

  /** Server `i` is device `i + 1` of the topology. */
  lemma TopologyServerAt(n: int, i: nat)
    requires 1 <= i <= n
    ensures |Topology(n)| == n + 2
    ensures Topology(n)[i + 1] == Entry(ServerName(i), ServerIfaces(i))
  {
    ServerAt(n, i - 1);
    assert Topology(n)[i + 1] == Servers(n)[i - 1];
  }

  /** Distinct servers have distinct names. */
  lemma ServerNamesDiffer(i: nat, j: nat)
    requires i != j
    ensures ServerName(i) != ServerName(j)
  {
    assert ServerName(i)[1..] == NatToString(i);
    assert ServerName(j)[1..] == NatToString(j);
    NatToStringDiffer(i, j);
  }

  /** No server is called `lb` or `c1`, and no server name starts with `l` or `c`. */
  lemma ServerNameStart(i: nat)
    ensures ServerName(i)[0] == 's'
    ensures ServerName(i) != "lb" && ServerName(i) != "c1"
  {
    assert "lb"[0] == 'l' && "c1"[0] == 'c';
  }

  /** Server `m`'s name is not among those of the servers before it. */
  lemma {:induction false} ServerNameNotEarlier(m: nat, j: int)
    requires j < m
    ensures ServerName(m) !in ServerNames(j)
    decreases j
  {
    if j > 0 {
      ServerNameNotEarlier(m, j - 1);
      ServerNamesDiffer(m, j);
    }
  }

  /** A server's name is not that of any earlier device. */
  lemma ServerNameFresh(i: nat)
    requires i >= 1
    ensures ServerName(i) !in Keys(Topology(i - 1))
  {
    TopologyKeys(i - 1);
    ServerNameStart(i);
    ServerNameNotEarlier(i, i - 1);
  }

  lemma {:induction false} ServerNamesDistinct(n: int)
    ensures Distinct(ServerNames(n))
    decreases n
  {
    if n > 0 {
      ServerNamesDistinct(n - 1);
      ServerNameNotEarlier(n, n - 1);
      DistinctConcat(ServerNames(n - 1), [ServerName(n)]);
    }
  }

  lemma DistinctKeysOf<V>(d: Dict<V>)
    requires Distinct(Keys(d))
    ensures DistinctKeys(d)
  {
    forall i, j | 0 <= i < j < |d|
      ensures d[i].key != d[j].key
    {
      KeysAt(d, i);
      KeysAt(d, j);
    }
  }

  /** Device names are unique. */
  lemma TopologyDistinctKeys(n: int)
    ensures DistinctKeys(Topology(n))
  {
    var servers := ServerNames(n);
    TopologyKeys(n);
    ServerNamesDistinct(n);
    forall i | 0 <= i < |servers|
      ensures servers[i] !in ["lb", "c1"]
    {
      ServerNamesAt(n, i);
      ServerNameStart(i + 1);
    }
    DistinctConcat(["lb", "c1"], servers);
    DistinctKeysOf(Topology(n));
  }

  /**
   * The keys are `lb`, `c1`, `s1`..`sN` in this order, `N` being the number of
   * servers when positive and 0 otherwise; `lb` has eth0 = 10.1.1.1 and
   * eth1 = 10.1.2.1, `c1` has eth0 = 10.1.1.2 behind gateway 10.1.1.1, and
   * server `s_i` has only eth0 = 10.1.2.(10 + i), /24, behind gateway 10.1.2.1.
   */
  lemma TopologyShape(n: int)
    ensures |Topology(n)| == 2 + (if n <= 0 then 0 else n)
    ensures Topology(n)[0] == Entry("lb", [ Entry("eth0", IfaceConfig("10.1.1.1", "255.255.255.0", "10.1.1.1")),
                                            Entry("eth1", IfaceConfig("10.1.2.1", "255.255.255.0", "10.1.2.1")) ])
    ensures Topology(n)[1] == Entry("c1", [ Entry("eth0", IfaceConfig("10.1.1.2", "255.255.255.0", "10.1.1.1")) ])
    ensures forall i :: 1 <= i <= n ==>
      Topology(n)[i + 1] ==
        Entry("s" + NatToString(i), [Entry("eth0", IfaceConfig("10.1.2." + NatToString(10 + i), "255.255.255.0", "10.1.2.1"))])
  {
    ServersLength(n);
    forall i | 1 <= i <= n
      ensures Topology(n)[i + 1] == Entry("s" + NatToString(i), [Entry("eth0", IfaceConfig("10.1.2." + NatToString(10 + i), "255.255.255.0", "10.1.2.1"))])
    {
      TopologyServerAt(n, i);
    }
  }

  /** The names of the servers `s1`..`sn`, in order. */
  function ServerNames(n: int): (r: seq<string>)
    ensures |r| == if n <= 0 then 0 else n
    decreases n
  {
    if n <= 0 then [] else ServerNames(n - 1) + [ServerName(n)]
  }

  lemma {:induction false} ServerNamesAt(n: int, k: nat)
    requires k < n
    ensures ServerNames(n)[k] == ServerName(k + 1)
    decreases n
  {
    if k < n - 1 {
      ServerNamesAt(n - 1, k);
    }
  }

  lemma BaseKeys()
    ensures Keys(BaseDevices()) == ["lb", "c1"]
  {
    var b := BaseDevices();
    assert b[1..][1..] == [];
    assert Keys(b) == [b[0].key] + ([b[1].key] + Keys(b[1..][1..]));
  }

  /** The device names, in order: `lb`, `c1`, then the servers. */
  lemma TopologyKeys(n: int)
    ensures Keys(Topology(n)) == ["lb", "c1"] + ServerNames(n)
  {
    KeysConcat(BaseDevices(), Servers(n));
    BaseKeys();
    ServersKeys(n);
  }

  lemma {:induction false} ServersKeys(n: int)
    ensures Keys(Servers(n)) == ServerNames(n)
    decreases n
  {
    if n > 0 {
      ServersKeys(n - 1);
      KeysSnoc(Servers(n - 1), Entry(ServerName(n), ServerIfaces(n)));
    }
  }

  lemma KeysSnoc<V>(d: Dict<V>, e: Entry<V>)
    ensures Keys(d + [e]) == Keys(d) + [e.key]
  {
    KeysConcat(d, [e]);
    assert Keys([e]) == [e.key];
  }

  /** Looking a device up by name gives the interfaces it was generated with. */
  lemma TopologyLookup(n: int)
    ensures Get(Topology(n), "lb") == Some(BaseDevices()[0].value)
    ensures Get(Topology(n), "c1") == Some(BaseDevices()[1].value)
    ensures forall i :: 1 <= i <= n ==> Get(Topology(n), ServerName(i)) == Some(ServerIfaces(i))
  {
    var d := Topology(n);
    ServersLength(n);
    TopologyDistinctKeys(n);
    GetAt(d, 0);
    GetAt(d, 1);
    forall i | 1 <= i <= n
      ensures Get(d, ServerName(i)) == Some(ServerIfaces(i))
    {
      TopologyServerAt(n, i);
      GetAt(d, i + 1);
    }
  }

  // ---------------------------------------------------------------------------
  // Addresses

  /** Every interface address of the devices, device by device, interface by interface. */
  function Addresses(devices: Devices): seq<string> {
    if devices == [] then [] else IfaceAddresses(devices[0].value) + Addresses(devices[1..])
  }

  function IfaceAddresses(ifaces: Ifaces): (r: seq<string>)
    ensures |r| == |ifaces|
  {
    if ifaces == [] then [] else [ifaces[0].value.ipv4] + IfaceAddresses(ifaces[1..])
  }

  predicate Distinct(s: seq<string>) {
    forall i, j :: 0 <= i < j < |s| ==> s[i] != s[j]
  }

  lemma {:induction false} AddressesConcat(a: Devices, b: Devices)
    ensures Addresses(a + b) == Addresses(a) + Addresses(b)
  {
    if a == [] {
      assert a + b == b;
    } else {
      assert (a + b)[0] == a[0];
      assert (a + b)[1..] == a[1..] + b;
      AddressesConcat(a[1..], b);
    }
  }

  /** The addresses of `s1`..`sn`, in order. */
  function ServerAddressList(n: int): (r: seq<string>)
    ensures |r| == if n <= 0 then 0 else n
    decreases n
  {
    if n <= 0 then [] else ServerAddressList(n - 1) + [ServerAddress(n)]
  }

  lemma {:induction false} ServerAddressListAt(n: int, k: nat)
    requires k < n
    ensures ServerAddressList(n)[k] == ServerAddress(k + 1)
    decreases n
  {
    if k < n - 1 {
      ServerAddressListAt(n - 1, k);
    }
    SnocAt(ServerAddressList(n - 1), ServerAddress(n), k);
  }

  /** An index into a sequence grown by one element. */
  lemma SnocAt<T>(s: seq<T>, x: T, k: nat)
    requires k <= |s|
    ensures (s + [x])[k] == if k < |s| then s[k] else x
  {
  }

  lemma {:induction false} ServerAddresses(n: int)
    ensures Addresses(Servers(n)) == ServerAddressList(n)
    decreases n
  {
    if n > 0 {
      ServerAddresses(n - 1);
      var e := Entry(ServerName(n), ServerIfaces(n));
      assert Servers(n) == Servers(n - 1) + [e];
      AddressesConcat(Servers(n - 1), [e]);
      OneServerAddresses(n);
    }
  }

  lemma OneServerAddresses(n: nat)
    ensures Addresses([Entry(ServerName(n), ServerIfaces(n))]) == [ServerAddress(n)]
  {
    var e := Entry(ServerName(n), ServerIfaces(n));
    assert IfaceAddresses(e.value) == [ServerAddress(n)];
    assert [e][1..] == [];
  }

  /** Distinct servers have distinct addresses. */
  lemma ServerAddressesDiffer(i: nat, j: nat)
    requires i != j
    ensures ServerAddress(i) != ServerAddress(j)
  {
    assert ServerAddress(i)[7..] == NatToString(10 + i);
    assert ServerAddress(j)[7..] == NatToString(10 + j);
    NatToStringDiffer(10 + i, 10 + j);
  }

  lemma BaseAddresses()
    ensures Addresses(BaseDevices()) == ["10.1.1.1", "10.1.2.1", "10.1.1.2"]
  {
    var b := BaseDevices();
    assert b[2..] == [];
    assert Addresses(b) == IfaceAddresses(b[0].value) + (IfaceAddresses(b[1].value) + Addresses(b[2..]));
  }

  lemma BaseAddressesDistinct()
    ensures Distinct(["10.1.1.1", "10.1.2.1", "10.1.1.2"])
  {
    var s := ["10.1.1.1", "10.1.2.1", "10.1.1.2"];
    assert s[0][5] != s[1][5] && s[0][7] != s[2][7] && s[1][5] != s[2][5];
  }

  /** A server address is none of those of `lb` and `c1`. */
  lemma ServerAddressNotBase(i: nat)
    ensures ServerAddress(i) != "10.1.1.1" && ServerAddress(i) != "10.1.2.1" && ServerAddress(i) != "10.1.1.2"
  {
    var s := ServerAddress(i);
    assert |NatToString(10 + i)| >= 2;
    assert |s| >= 9 && s[5] == '2';
  }

  lemma ServerAddressListDistinct(n: int)
    ensures Distinct(ServerAddressList(n))
  {
    var l := ServerAddressList(n);
    forall i, j | 0 <= i < j < |l|
      ensures l[i] != l[j]
    {
      ServerAddressListDiffer(n, i, j);
    }
  }

  lemma ServerAddressListDiffer(n: int, i: nat, j: nat)
    requires i < j < n
    ensures ServerAddressList(n)[i] != ServerAddressList(n)[j]
  {
    ServerAddressListAt(n, i);
    ServerAddressListAt(n, j);
    ServerAddressesDiffer(i + 1, j + 1);
  }

  lemma ServerAddressListNotBase(n: int, i: nat)
    requires i < n
    ensures ServerAddressList(n)[i] !in ["10.1.1.1", "10.1.2.1", "10.1.1.2"]
  {
    ServerAddressListAt(n, i);
    ServerAddressNotBase(i + 1);
  }

  lemma DistinctConcat(a: seq<string>, b: seq<string>)
    requires Distinct(a) && Distinct(b)
    requires forall i :: 0 <= i < |b| ==> b[i] !in a
    ensures Distinct(a + b)
  {
    var c := a + b;
    forall i, j | 0 <= i < j < |c|
      ensures c[i] != c[j]
    {
      if j >= |a| {
        assert c[j] == b[j - |a|];
        if i < |a| {
          assert c[i] in a;
        } else {
          assert c[i] == b[i - |a|];
        }
      }
    }
  }

  /**
   * No two interfaces of the topology share an address: the servers' addresses
   * differ from each other and from those of `lb` and `c1`.
   */
  lemma TopologyAddressesDistinct(n: int)
    ensures Addresses(Topology(n)) == ["10.1.1.1", "10.1.2.1", "10.1.1.2"] + ServerAddressList(n)
    ensures Distinct(Addresses(Topology(n)))
  {
    AddressesConcat(BaseDevices(), Servers(n));
    BaseAddresses();
    ServerAddresses(n);
    ServerAddressListDistinct(n);
    BaseAddressesDistinct();
    var b := ServerAddressList(n);
    forall i | 0 <= i < |b|
      ensures b[i] !in ["10.1.1.1", "10.1.2.1", "10.1.1.2"]
    {
      ServerAddressListNotBase(n, i);
    }
    DistinctConcat(["10.1.1.1", "10.1.2.1", "10.1.1.2"], b);
  }
}
