/**
 * The libvirt side of the lab (src/classes/network.py): each VM gets its own
 * copy of the base domain descriptor, renamed, pointed at its own disk image
 * and given one interface per bridge of its network; at clean-up the
 * generated descriptors and disk images are removed.
 *
 * A descriptor is reduced to the elements the scripts touch: the domain name,
 * the disk source file and the interfaces (their bridge and their
 * virtualport children). The directory is an input: the descriptors it holds,
 * by file name, and the names of the disk images present.
 */
module Network {
  import opened Wrappers
  import opened Strings
  import opened Utils

  /** One `<interface>`: the bridge of its `<source>` and the type of each `<virtualport>` child. */
  datatype Interface = Interface(bridge: string, virtualports: seq<string>)

  /** The parts of a domain descriptor the scripts read or change. */
  datatype Domain = Domain(name: string, diskSource: string, interfaces: seq<Interface>)

  /** The bridges the interfaces of a descriptor are attached to, in document order. */
  function Bridges(ifaces: seq<Interface>): (r: seq<string>)
    ensures |r| == |ifaces|
  {
    if ifaces == [] then [] else [ifaces[0].bridge] + Bridges(ifaces[1..])
  }

  lemma {:induction false} BridgesConcat(a: seq<Interface>, b: seq<Interface>)
    ensures Bridges(a + b) == Bridges(a) + Bridges(b)
  {
    if a == [] {
      assert a + b == b;
    } else {
      assert (a + b)[1..] == a[1..] + b;
      BridgesConcat(a[1..], b);
    }
  }

  /**
   * What interface_lan_modifier makes of an interface: attached to `bridge`,
   * and given an Open vSwitch virtualport when it had none.
   */
  function LanBound(i: Interface, bridge: string): Interface {
    Interface(bridge, if i.virtualports == [] then ["openvswitch"] else i.virtualports)
  }

  /** The interface attached to `bridge` has a virtualport, keeps those it had, and binding it again changes nothing. */
  lemma LanBoundProperties(i: Interface, bridge: string)
    ensures LanBound(i, bridge).bridge == bridge
    ensures LanBound(i, bridge).virtualports != []
    ensures i.virtualports != [] ==> LanBound(i, bridge).virtualports == i.virtualports
    ensures LanBound(LanBound(i, bridge), bridge) == LanBound(i, bridge)
  {
  }

  /** The copies duplicate_interface appends: the template attached to each bridge in turn. */
  function Copies(template: Interface, bridges: seq<string>): (r: seq<Interface>)
    ensures |r| == |bridges|
  {
    if bridges == [] then []
    else Copies(template, bridges[..|bridges| - 1]) + [template.(bridge := bridges[|bridges| - 1])]
  }

  /** Copy `j` is the template attached to bridge `j`. */
  lemma {:induction false} CopiesAt(template: Interface, bridges: seq<string>, j: nat)
    requires j < |bridges|
    ensures Copies(template, bridges)[j] == template.(bridge := bridges[j])
  {
    var n := |bridges|;
    if j < n - 1 {
      CopiesAt(template, bridges[..n - 1], j);
    }
  }

  /** The copies sit on the given bridges, in order. */
  lemma {:induction false} CopiesBridges(template: Interface, bridges: seq<string>)
    ensures Bridges(Copies(template, bridges)) == bridges
  {
    var n := |bridges|;
    if n > 0 {
      var e := template.(bridge := bridges[n - 1]);
      CopiesBridges(template, bridges[..n - 1]);
      BridgesConcat(Copies(template, bridges[..n - 1]), [e]);
      assert Bridges([e]) == [bridges[n - 1]];
      assert bridges == bridges[..n - 1] + [bridges[n - 1]];
    }
  }

  /**
   * The parsed descriptor (an lxml tree), changed in place by the modifiers
   * before it is written back.
   */
  class Tree {
    var name: string
    var diskSource: string
    var interfaces: seq<Interface>

    /** The descriptor the tree currently holds. */
    function Value(): Domain
      reads this
    {
      Domain(name, diskSource, interfaces)
    }

    /** xml_finder: the tree of a descriptor that parsed. */
    constructor (d: Domain)
      ensures Value() == d
    {
      name := d.name;
      diskSource := d.diskSource;
      interfaces := d.interfaces;
    }

    /** name_modifier: the text of `<name>` becomes `newName`. */
    method NameModifier(newName: string)
      modifies this
      ensures Value() == old(Value()).(name := newName)
    {
      name := newName;
    }

    /** source_file_modifier: the `file` attribute of the disk's `<source>` becomes `path`. */
    method SourceFileModifier(path: string)
      modifies this
      ensures Value() == old(Value()).(diskSource := path)
    {
      diskSource := path;
    }

    /**
     * interface_lan_modifier: the first interface is attached to `bridge` and
     * gets a virtualport when it has none. Without an interface the lookup
     * gives None and the call raises (`ok` is false), leaving the tree as it was.
     */
    method InterfaceLanModifier(bridge: string) returns (ok: bool)
      modifies this
      ensures ok <==> old(interfaces) != []
      ensures ok ==> Value() == old(Value()).(interfaces := [LanBound(old(interfaces)[0], bridge)] + old(interfaces)[1..])
      ensures !ok ==> Value() == old(Value())
    {
      if interfaces == [] {
        return false;
      }
      interfaces := [LanBound(interfaces[0], bridge)] + interfaces[1..];
      ok := true;
    }

    /**
     * duplicate_interface: a deep copy of the first interface, attached to
     * `bridge`, is appended to the devices; nothing happens when there is no
     * interface.
     */
    method DuplicateInterface(bridge: string)
      modifies this
      ensures old(interfaces) == [] ==> Value() == old(Value())
      ensures old(interfaces) != [] ==>
        Value() == old(Value()).(interfaces := old(interfaces) + [old(interfaces)[0].(bridge := bridge)])
    {
      if interfaces != [] {
        var copy := interfaces[0].(bridge := bridge);
        interfaces := interfaces + [copy];
      }
    }
  }

  /** `os.path.abspath` of a relative file name with no `.` or `..` part, from the absolute directory `cwd`. */
  function AbsPath(cwd: string, file: string): string {
    if cwd == "/" then "/" + file else cwd + "/" + file
  }

  /** The descriptor xml_modifier writes for `xmlName`, or nothing when one of its steps raises. */
  function XmlModified(doc: Option<Domain>, xmlName: string, networks: seq<string>, images: set<string>, cwd: string): Option<Domain> {
    var newName := BeforeFirst(xmlName, '.');
    var image := newName + ".qcow2";
    if doc.None? || image !in images || networks == [] || doc.value.interfaces == [] then None
    else
      var first := LanBound(doc.value.interfaces[0], networks[0]);
      Some(Domain(newName, AbsPath(cwd, image),
                  [first] + doc.value.interfaces[1..] + Copies(first, networks[1..])))
  }

  /**
   * What is written: a descriptor exactly when the file parsed, the disk image
   * `<name>.qcow2` exists, a network is given and the descriptor has an
   * interface. The written descriptor is named after the part of the file name
   * before its first `.`, its disk is the absolute path of that image, its
   * first interface is on the first network with a virtualport, the other
   * interfaces are kept, and one copy of the first interface follows per
   * further network, in order: the interface count grows by `|networks| - 1`.
   */
  lemma XmlModifiedProperties(doc: Option<Domain>, xmlName: string, networks: seq<string>, images: set<string>, cwd: string)
    ensures var r := XmlModified(doc, xmlName, networks, images, cwd);
      var newName := BeforeFirst(xmlName, '.');
      && (r.Some? <==> doc.Some? && newName + ".qcow2" in images && networks != [] && doc.value.interfaces != [])
      && (r.Some? ==>
            && r.value.name == newName && '.' !in newName && newName <= xmlName
            && (|newName| < |xmlName| ==> xmlName[|newName|] == '.')
            && r.value.diskSource == AbsPath(cwd, newName + ".qcow2")
            && |r.value.interfaces| == |doc.value.interfaces| + |networks| - 1
            && r.value.interfaces[0] == LanBound(doc.value.interfaces[0], networks[0])
            && r.value.interfaces[1..|doc.value.interfaces|] == doc.value.interfaces[1..]
            && Bridges(r.value.interfaces) == networks[..1] + Bridges(doc.value.interfaces[1..]) + networks[1..]
            && r.value.interfaces[0].virtualports != []
            && (forall j :: |doc.value.interfaces| <= j < |r.value.interfaces| ==>
                  r.value.interfaces[j] == r.value.interfaces[0].(bridge := networks[j - |doc.value.interfaces| + 1])))
  {
    var r := XmlModified(doc, xmlName, networks, images, cwd);
    if r.Some? {
      var old_ := doc.value.interfaces;
      var first := LanBound(old_[0], networks[0]);
      assert r.value.interfaces == [first] + old_[1..] + Copies(first, networks[1..]);
      EditedInterfaces(old_, networks);
    }
  }

  /** The interfaces xml_modifier leaves: the first one bound, the others kept, then the copies. */
  lemma EditedInterfaces(old_: seq<Interface>, networks: seq<string>)
    requires old_ != [] && networks != []
    ensures var first := LanBound(old_[0], networks[0]);
      var ifaces := [first] + old_[1..] + Copies(first, networks[1..]);
      && |ifaces| == |old_| + |networks| - 1
      && ifaces[0] == first && first.virtualports != []
      && ifaces[1..|old_|] == old_[1..]
      && Bridges(ifaces) == networks[..1] + Bridges(old_[1..]) + networks[1..]
      && (forall j :: |old_| <= j < |ifaces| ==> ifaces[j] == ifaces[0].(bridge := networks[j - |old_| + 1]))
  {
    var first := LanBound(old_[0], networks[0]);
    var copies := Copies(first, networks[1..]);
    var ifaces := [first] + old_[1..] + copies;
    BridgesConcat([first] + old_[1..], copies);
    BridgesConcat([first], old_[1..]);
    CopiesBridges(first, networks[1..]);
    assert Bridges([first]) == networks[..1];
    assert ifaces[1..|old_|] == old_[1..];
    forall j | |old_| <= j < |ifaces|
      ensures ifaces[j] == ifaces[0].(bridge := networks[j - |old_| + 1])
    {
      assert ifaces[j] == copies[j - |old_|];
      CopiesAt(first, networks[1..], j - |old_|);
    }
  }

  lemma DeviceXmlName(d: string)
    requires '.' !in d
    ensures BeforeFirst(d + ".xml", '.') == d
  {
    assert d + ".xml" == d + ['.'] + "xml";
    BeforeFirstOfSuffixed(d, '.', "xml");
  }

  /**
   * What xml_modifier writes for `<device>.xml` when that file is a copy of a
   * base descriptor with a single interface: the device's name, its own image
   * by absolute path, and one interface per network, in order, each with a
   * virtualport.
   */
  lemma XmlModifiedFromBase(base: Domain, device: string, networks: seq<string>, images: set<string>, cwd: string)
    requires |base.interfaces| == 1 && '.' !in device && device + ".qcow2" in images && networks != []
    ensures var r := XmlModified(Some(base), device + ".xml", networks, images, cwd);
      && r.Some?
      && r.value.name == device
      && r.value.diskSource == AbsPath(cwd, device + ".qcow2")
      && Bridges(r.value.interfaces) == networks
      && (forall j :: 0 <= j < |r.value.interfaces| ==> r.value.interfaces[j].virtualports != [])
  {
    DeviceXmlName(device);
    var first := LanBound(base.interfaces[0], networks[0]);
    var copies := Copies(first, networks[1..]);
    var ifaces := [first] + base.interfaces[1..] + copies;
    assert base.interfaces[1..] == [];
    assert ifaces == [first] + copies;
    BridgesConcat([first], copies);
    CopiesBridges(first, networks[1..]);
    assert networks == [networks[0]] + networks[1..];
    forall j | 0 <= j < |ifaces|
      ensures ifaces[j].virtualports != []
    {
      if j > 0 {
        CopiesAt(first, networks[1..], j - 1);
        assert ifaces[j] == copies[j - 1];
      }
    }
  }

  /** The descriptor of the file `name`, when it is in the directory and parses. */
  function Lookup(files: map<string, Domain>, name: string): Option<Domain> {
    if name in files then Some(files[name]) else None
  }

  /**
   * xml_modifier: parses the descriptor, edits it through the tree and
   * returns what is written back to `xmlName` (nothing when a step raised;
   * the exception is logged and swallowed).
   */
  method XmlModifier(files: map<string, Domain>, xmlName: string, networks: seq<string>, images: set<string>, cwd: string)
    returns (written: Option<Domain>)
    ensures written == XmlModified(Lookup(files, xmlName), xmlName, networks, images, cwd)
  {
    if xmlName !in files {
      return None;
    }
    var tree := new Tree(files[xmlName]);
    var newName := BeforeFirst(xmlName, '.');
    var image := newName + ".qcow2";
    var sourcePath := AbsPath(cwd, image);
    if image !in images {
      return None;
    }
    tree.NameModifier(newName);
    tree.SourceFileModifier(sourcePath);
    if networks == [] {
      return None;
    }
    var ok := tree.InterfaceLanModifier(networks[0]);
    if !ok {
      return None;
    }
    ghost var first := LanBound(files[xmlName].interfaces[0], networks[0]);
    ghost var kept := [first] + files[xmlName].interfaces[1..];
    assert tree.interfaces == kept;
    assert networks[1..1] == [];
    for i := 1 to |networks|
      invariant tree.name == newName && tree.diskSource == sourcePath
      invariant tree.interfaces == kept + Copies(first, networks[1..i])
    {
      CopiesStep(first, kept, networks, i);
      tree.DuplicateInterface(networks[i]);
    }
    assert networks[1..|networks|] == networks[1..];
    written := Some(tree.Value());
  }

  /** One more round of duplicate_interface appends the copy for network `i` after the earlier ones. */
  lemma CopiesStep(first: Interface, kept: seq<Interface>, networks: seq<string>, i: nat)
    requires 1 <= i < |networks| && kept != [] && kept[0] == first
    ensures var ifaces := kept + Copies(first, networks[1..i]);
      ifaces != [] && ifaces[0] == first
      && kept + Copies(first, networks[1..i + 1]) == ifaces + [first.(bridge := networks[i])]
  {
    assert networks[1..i + 1][..i - 1] == networks[1..i];
  }

  /** One round of configure_xml_env: `<device>.xml` is rewritten when xml_modifier writes it. */
  function ApplyXml(files: map<string, Domain>, device: string, networks: seq<string>, images: set<string>, cwd: string): map<string, Domain> {
    var xmlName := device + ".xml";
    match XmlModified(Lookup(files, xmlName), xmlName, networks, images, cwd)
    case None => files
    case Some(d) => files[xmlName := d]
  }

  /** The descriptors after configure_xml_env has handled the entries of the network map in order. */
  function ConfiguredFiles(networkMap: Dict<seq<string>>, files: map<string, Domain>, images: set<string>, cwd: string): map<string, Domain>
    decreases |networkMap|
  {
    if networkMap == [] then files
    else
      var last := networkMap[|networkMap| - 1];
      ApplyXml(ConfiguredFiles(networkMap[..|networkMap| - 1], files, images, cwd), last.key, last.value, images, cwd)
  }

  lemma ConfiguredFilesStep(networkMap: Dict<seq<string>>, files: map<string, Domain>, images: set<string>, cwd: string, i: nat)
    requires i < |networkMap|
    ensures ConfiguredFiles(networkMap[..i + 1], files, images, cwd)
         == ApplyXml(ConfiguredFiles(networkMap[..i], files, images, cwd), networkMap[i].key, networkMap[i].value, images, cwd)
  {
    assert networkMap[..i + 1][..i] == networkMap[..i];
  }

  /** The files configure_xml_env hands to xml_modifier: `<device>.xml` for each entry, in map order. */
  function XmlNames(networkMap: Dict<seq<string>>): (r: seq<string>)
    ensures |r| == |networkMap|
  {
    if networkMap == [] then []
    else XmlNames(networkMap[..|networkMap| - 1]) + [networkMap[|networkMap| - 1].key + ".xml"]
  }

  /** The `i`-th call is for the `i`-th device. */
  lemma {:induction false} XmlNamesAt(networkMap: Dict<seq<string>>, i: nat)
    requires i < |networkMap|
    ensures XmlNames(networkMap)[i] == networkMap[i].key + ".xml"
  {
    var n := |networkMap|;
    if i < n - 1 {
      XmlNamesAt(networkMap[..n - 1], i);
    }
  }

  /** configure_xml_env: xml_modifier once per entry of the network map, in order. */
  method ConfigureXmlEnv(networkMap: Dict<seq<string>>, files: map<string, Domain>, images: set<string>, cwd: string)
    returns (calls: seq<string>, result: map<string, Domain>)
    ensures calls == XmlNames(networkMap)
    ensures result == ConfiguredFiles(networkMap, files, images, cwd)
  {
    calls := [];
    result := files;
    var i := 0;
    while i < |networkMap|
      invariant 0 <= i <= |networkMap|
      invariant calls == XmlNames(networkMap[..i])
      invariant result == ConfiguredFiles(networkMap[..i], files, images, cwd)
    {
      var device := networkMap[i].key;
      var networks := networkMap[i].value;
      var xmlName := device + ".xml";
      var written := XmlModifier(result, xmlName, networks, images, cwd);
      ConfiguredFilesStep(networkMap, files, images, cwd, i);
      if written.Some? {
        result := result[xmlName := written.value];
      }
      calls := calls + [xmlName];
      assert networkMap[..i + 1][..i] == networkMap[..i];
      i := i + 1;
    }
    assert networkMap[..i] == networkMap;
  }

  lemma XmlNameInjective(a: string, b: string)
    requires a + ".xml" == b + ".xml"
    ensures a == b
  {
    assert a == (a + ".xml")[..|a|];
    assert |a| == |b|;
  }

  /**
   * With distinct device names, configure_xml_env gives each device's
   * descriptor exactly what xml_modifier makes of that device's original
   * file and its networks; when nothing is written the file stays as it was.
   */
  lemma {:induction false} ConfiguredFilesAt(networkMap: Dict<seq<string>>, files: map<string, Domain>, images: set<string>, cwd: string, k: nat)
    requires DistinctKeys(networkMap) && k < |networkMap|
    ensures var xmlName := networkMap[k].key + ".xml";
      var r := XmlModified(Lookup(files, xmlName), xmlName, networkMap[k].value, images, cwd);
      Lookup(ConfiguredFiles(networkMap, files, images, cwd), xmlName) == if r.Some? then r else Lookup(files, xmlName)
    decreases |networkMap|
  {
    var n := |networkMap|;
    var init := networkMap[..n - 1];
    var xmlName := networkMap[k].key + ".xml";
    var last := networkMap[n - 1];
    var before := ConfiguredFiles(init, files, images, cwd);
    assert ConfiguredFiles(networkMap, files, images, cwd) == ApplyXml(before, last.key, last.value, images, cwd);
    ApplyXmlLookup(before, last.key, last.value, images, cwd, xmlName);
    if k == n - 1 {
      DistinctKeysLast(networkMap);
      ConfiguredFilesUntouched(init, files, images, cwd, last.key);
    } else {
      DistinctKeysInit(networkMap, k);
      ConfiguredFilesAt(init, files, images, cwd, k);
      if last.key + ".xml" == xmlName {
        XmlNameInjective(last.key, networkMap[k].key);
      }
    }
  }

  /** Dropping the last entry keeps the keys distinct and the earlier entries in place. */
  lemma DistinctKeysInit<V>(d: Dict<V>, k: nat)
    requires DistinctKeys(d) && k < |d| - 1
    ensures DistinctKeys(d[..|d| - 1])
    ensures d[..|d| - 1][k] == d[k] && d[|d| - 1].key != d[k].key
  {
    var init := d[..|d| - 1];
    forall i, j | 0 <= i < j < |init|
      ensures init[i].key != init[j].key
    {
      assert init[i] == d[i] && init[j] == d[j];
    }
  }

  /** With distinct keys the last key occurs nowhere before it. */
  lemma DistinctKeysLast<V>(d: Dict<V>)
    requires DistinctKeys(d) && |d| > 0
    ensures d[|d| - 1].key !in Keys(d[..|d| - 1])
  {
    KeysContain(d[..|d| - 1], d[|d| - 1].key);
  }

  /** One round changes `<device>.xml` alone, and only when xml_modifier writes it. */
  lemma ApplyXmlLookup(files: map<string, Domain>, device: string, networks: seq<string>, images: set<string>, cwd: string, f: string)
    ensures f != device + ".xml" ==> Lookup(ApplyXml(files, device, networks, images, cwd), f) == Lookup(files, f)
    ensures var r := XmlModified(Lookup(files, f), f, networks, images, cwd);
      f == device + ".xml" ==> Lookup(ApplyXml(files, device, networks, images, cwd), f) == if r.Some? then r else Lookup(files, f)
  {
  }

  /** A file no entry of the map names is left as it was. */
  lemma {:induction false} ConfiguredFilesUntouched(networkMap: Dict<seq<string>>, files: map<string, Domain>, images: set<string>, cwd: string, device: string)
    requires device !in Keys(networkMap)
    ensures Lookup(ConfiguredFiles(networkMap, files, images, cwd), device + ".xml") == Lookup(files, device + ".xml")
    decreases |networkMap|
  {
    var n := |networkMap|;
    if n > 0 {
      var init := networkMap[..n - 1];
      var last := networkMap[n - 1];
      assert networkMap == init + [last];
      KeysConcat(init, [last]);
      assert Keys([last]) == [last.key];
      ConfiguredFilesUntouched(init, files, images, cwd, device);
      ApplyXmlLookup(ConfiguredFiles(init, files, images, cwd), last.key, last.value, images, cwd, device + ".xml");
      if last.key + ".xml" == device + ".xml" {
        XmlNameInjective(last.key, device);
      }
    }
  }

  // ---------------------------------------------------------------------------
  // create_environment

  /** The disk image names create_qcow2_files creates, one per device. */
  function ImageNames(devices: seq<string>): set<string> {
    set d | d in devices :: d + ".qcow2"
  }

  /** create_qcow2_files: one overlay image `<device>.qcow2` on the base image per device. */
  method CreateQcow2Files(devices: seq<string>, images: set<string>) returns (result: set<string>)
    ensures result == images + ImageNames(devices)
  {
    result := images;
    var i := 0;
    while i < |devices|
      invariant 0 <= i <= |devices|
      invariant result == images + ImageNames(devices[..i])
    {
      assert devices[..i + 1] == devices[..i] + [devices[i]];
      result := result + {devices[i] + ".qcow2"};
      i := i + 1;
    }
    assert devices[..i] == devices;
  }

  /** The directory after each device got a copy `<device>.xml` of the base descriptor. */
  function CopiedFiles(devices: seq<string>, base: Domain, files: map<string, Domain>): map<string, Domain>
    decreases |devices|
  {
    if devices == [] then files
    else CopiedFiles(devices[..|devices| - 1], base, files)[devices[|devices| - 1] + ".xml" := base]
  }

  /** Every device's descriptor is the base descriptor; every other file is unchanged. */
  lemma {:induction false} CopiedFilesAt(devices: seq<string>, base: Domain, files: map<string, Domain>, f: string)
    ensures Lookup(CopiedFiles(devices, base, files), f) ==
      if exists d :: d in devices && f == d + ".xml" then Some(base) else Lookup(files, f)
    decreases |devices|
  {
    if devices != [] {
      var init := devices[..|devices| - 1];
      var last := devices[|devices| - 1];
      CopiedFilesAt(init, base, files, f);
      assert devices == init + [last];
      if f != last + ".xml" && exists d :: d in devices && f == d + ".xml" {
        var d :| d in devices && f == d + ".xml";
        assert d in init;
      }
    }
  }

  /** create_xml_files: `cp` of the base descriptor to `<device>.xml`, one device at a time. */
  method CreateXmlFiles(devices: seq<string>, base: Domain, files: map<string, Domain>) returns (result: map<string, Domain>)
    ensures result == CopiedFiles(devices, base, files)
  {
    result := files;
    var i := 0;
    while i < |devices|
      invariant 0 <= i <= |devices|
      invariant result == CopiedFiles(devices[..i], base, files)
    {
      assert devices[..i + 1][..i] == devices[..i];
      result := result[devices[i] + ".xml" := base];
      i := i + 1;
    }
    assert devices[..i] == devices;
  }

  /**
   * create_environment: the images and the descriptor copies for every
   * device, then configure_xml_env over the network map (the bridges and the
   * host interface that follow are host plumbing).
   */
  method CreateEnvironment(devices: seq<string>, networkMap: Dict<seq<string>>, base: Domain,
                           files: map<string, Domain>, images: set<string>, cwd: string)
    returns (newFiles: map<string, Domain>, newImages: set<string>)
    ensures newImages == images + ImageNames(devices)
    ensures newFiles == ConfiguredFiles(networkMap, CopiedFiles(devices, base, files), newImages, cwd)
  {
    newImages := CreateQcow2Files(devices, images);
    var copied := CreateXmlFiles(devices, base, files);
    var calls;
    calls, newFiles := ConfigureXmlEnv(networkMap, copied, newImages, cwd);
  }

  // ---------------------------------------------------------------------------
  // destroy_files

  /** An entry of the working directory: its name and whether it is a regular file. */
  datatype DirEntry = DirEntry(name: string, isFile: bool)

  /** A candidate for removal: a regular file whose name ends in `.xml` or `.qcow2`. */
  predicate Generated(e: DirEntry) {
    e.isFile && (EndsWith(e.name, ".xml") || EndsWith(e.name, ".qcow2"))
  }

  /** The names of the candidates, in listing order. */
  function Candidates(listing: seq<DirEntry>): seq<string>
    decreases |listing|
  {
    if listing == [] then []
    else
      var init := Candidates(listing[..|listing| - 1]);
      var last := listing[|listing| - 1];
      if Generated(last) then init + [last.name] else init
  }

  /** The names, in order, that are neither base file. */
  function NotBase(names: seq<string>, xmlBase: string, qcowBase: string): seq<string>
    decreases |names|
  {
    if names == [] then []
    else
      var init := NotBase(names[..|names| - 1], xmlBase, qcowBase);
      var last := names[|names| - 1];
      if last != xmlBase && last != qcowBase then init + [last] else init
  }

  /** The files destroy_files removes, in order. */
  function Removed(listing: seq<DirEntry>, xmlBase: string, qcowBase: string): seq<string> {
    NotBase(Candidates(listing), xmlBase, qcowBase)
  }

  lemma {:induction false} CandidatesExactly(listing: seq<DirEntry>, f: string)
    ensures f in Candidates(listing) <==> exists i :: 0 <= i < |listing| && listing[i].name == f && Generated(listing[i])
    decreases |listing|
  {
    if listing != [] {
      var init := listing[..|listing| - 1];
      CandidatesExactly(init, f);
      if exists i :: 0 <= i < |listing| && listing[i].name == f && Generated(listing[i]) {
        var i :| 0 <= i < |listing| && listing[i].name == f && Generated(listing[i]);
        if i < |listing| - 1 {
          assert init[i] == listing[i];
        }
      }
      if f in Candidates(init) {
        var i :| 0 <= i < |init| && init[i].name == f && Generated(init[i]);
        assert listing[i] == init[i];
      }
    }
  }

  lemma {:induction false} NotBaseExactly(names: seq<string>, xmlBase: string, qcowBase: string, f: string)
    ensures f in NotBase(names, xmlBase, qcowBase) <==> f in names && f != xmlBase && f != qcowBase
    decreases |names|
  {
    if names != [] {
      var init := names[..|names| - 1];
      NotBaseExactly(init, xmlBase, qcowBase, f);
      assert names == init + [names[|names| - 1]];
    }
  }

  /**
   * A file is removed exactly when the listing holds a regular file of that
   * name ending in `.xml` or `.qcow2` and the name is neither base file; in
   * particular the base files are never removed.
   */
  lemma RemovedExactly(listing: seq<DirEntry>, xmlBase: string, qcowBase: string, f: string)
    ensures f in Removed(listing, xmlBase, qcowBase) <==>
      f != xmlBase && f != qcowBase && exists i :: 0 <= i < |listing| && listing[i].name == f && Generated(listing[i])
  {
    NotBaseExactly(Candidates(listing), xmlBase, qcowBase, f);
    CandidatesExactly(listing, f);
  }

  /** The list comprehension of destroy_files. */
  method SelectCandidates(listing: seq<DirEntry>) returns (files: seq<string>)
    ensures files == Candidates(listing)
  {
    files := [];
    var i := 0;
    while i < |listing|
      invariant 0 <= i <= |listing|
      invariant files == Candidates(listing[..i])
    {
      var e := listing[i];
      assert listing[..i + 1][..i] == listing[..i];
      if e.isFile && (EndsWith(e.name, ".xml") || EndsWith(e.name, ".qcow2")) {
        files := files + [e.name];
      }
      i := i + 1;
    }
    assert listing[..i] == listing;
  }

  /**
   * destroy_files: removes, in listing order, every selected file that is not
   * a base file. A failing removal is logged and the loop goes on, so the
   * result is the list of removals attempted.
   */
  method DestroyFiles(listing: seq<DirEntry>, xmlBase: string, qcowBase: string) returns (removed: seq<string>)
    ensures removed == Removed(listing, xmlBase, qcowBase)
  {
    var files := SelectCandidates(listing);
    removed := [];
    var k := 0;
    while k < |files|
      invariant 0 <= k <= |files|
      invariant removed == NotBase(files[..k], xmlBase, qcowBase)
    {
      var file := files[k];
      assert files[..k + 1][..k] == files[..k];
      if file != xmlBase && file != qcowBase {
        removed := removed + [file];
      }
      k := k + 1;
    }
    assert files[..k] == files;
  }
}
