/**
 * The container specification written to `container.json`: a fixed
 * document for the redis workload, with a network namespace and two
 * network interfaces added when the launch was given an address.
 *
 * The document is modelled as the structured value the template describes;
 * a field the template leaves out of an entry is None.
 */
module ContainerJson {
  import opened Wrappers

  /** Device types, stored as the runes 'c' (character) and 'b' (block). */
  const CharDevice := 99
  const BlockDevice := 98
  /** File mode 0666 of the device nodes, as the decimal the document holds. */
  const NodeFileMode := 438

  datatype Device = Device(
    cgroupPermissions: string,
    majorNumber: int,
    minorNumber: Option<int>,
    path: Option<string>,
    fileMode: Option<int>,
    deviceType: int)

  datatype Cgroups = Cgroups(allowedDevices: seq<Device>, name: string, parent: string)

  datatype Mount = Mount(mountType: string, destination: string)

  datatype MountConfig = MountConfig(deviceNodes: seq<Device>, mounts: seq<Mount>)

  datatype NetworkIface = NetworkIface(
    address: string,
    bridge: Option<string>,
    vethPrefix: Option<string>,
    gateway: string,
    mtu: int,
    ifaceType: string)

  datatype ContainerSpec = ContainerSpec(
    capabilities: seq<string>,
    cgroups: Cgroups,
    restrictSys: bool,
    mountConfig: MountConfig,
    environment: seq<string>,
    hostname: string,
    namespaces: map<string, bool>,
    networks: Option<seq<NetworkIface>>,
    tty: bool,
    user: string)

  // ---------------------------------------------------------------------
  // The fixed parts of the document
  // ---------------------------------------------------------------------

  const Capabilities: seq<string> := [
    "CHOWN", "DAC_OVERRIDE", "FOWNER", "MKNOD", "NET_RAW", "SETGID",
    "SETUID", "SETFCAP", "SETPCAP", "NET_BIND_SERVICE", "SYS_CHROOT", "KILL"
  ]

  const AllowedDevices: seq<Device> := [
    Device("m", -1, Some(-1), None, None, CharDevice),
    Device("m", -1, Some(-1), None, None, BlockDevice),
    Device("rwm", 5, Some(1), Some("/dev/console"), None, CharDevice),
    Device("rwm", 4, None, Some("/dev/tty0"), None, CharDevice),
    Device("rwm", 4, Some(1), Some("/dev/tty1"), None, CharDevice),
    Device("rwm", 136, Some(-1), None, None, CharDevice),
    Device("rwm", 5, Some(2), None, None, CharDevice),
    Device("rwm", 10, Some(200), None, None, CharDevice),
    Device("rwm", 1, Some(3), Some("/dev/null"), Some(NodeFileMode), CharDevice),
    Device("rwm", 1, Some(5), Some("/dev/zero"), Some(NodeFileMode), CharDevice),
    Device("rwm", 1, Some(7), Some("/dev/full"), Some(NodeFileMode), CharDevice),
    Device("rwm", 5, None, Some("/dev/tty"), Some(NodeFileMode), CharDevice),
    Device("rwm", 1, Some(9), Some("/dev/urandom"), Some(NodeFileMode), CharDevice),
    Device("rwm", 1, Some(8), Some("/dev/random"), Some(NodeFileMode), CharDevice)
  ]

  const DeviceNodes: seq<Device> := [
    Device("rwm", 1, Some(3), Some("/dev/null"), Some(NodeFileMode), CharDevice),
    Device("rwm", 1, Some(5), Some("/dev/zero"), Some(NodeFileMode), CharDevice),
    Device("rwm", 1, Some(7), Some("/dev/full"), Some(NodeFileMode), CharDevice),
    Device("rwm", 5, None, Some("/dev/tty"), Some(NodeFileMode), CharDevice),
    Device("rwm", 1, Some(9), Some("/dev/urandom"), Some(NodeFileMode), CharDevice),
    Device("rwm", 1, Some(8), Some("/dev/random"), Some(NodeFileMode), CharDevice)
  ]

  const Mounts: seq<Mount> := [Mount("tmpfs", "/tmp")]

  const Environment: seq<string> := ["HOME=/", "PATH=/usr/local/bin", "HOSTNAME=redis", "TERM=xterm"]

  const Hostname := "redis"

  /** The namespaces every container gets. */
  const BaseNamespaces: map<string, bool> :=
    map["NEWIPC" := true, "NEWNS" := true, "NEWPID" := true, "NEWUTS" := true]

  /** The entry added when the container gets its own network. */
  const NetNamespace := "NEWNET"

  /** The first interface: the container's loopback. */
  const Loopback := NetworkIface("127.0.0.1/0", None, None, "localhost", 1500, "loopback")

  /** The second interface: a veth pair on the host bridge, carrying the address as given. */
  function Veth(ipAddr: string): (iface: NetworkIface) {
    NetworkIface(ipAddr, Some("scredis0"), Some("veth"), "10.0.5.1", 1500, "veth")
  }

  // ---------------------------------------------------------------------
  // The builder
  // ---------------------------------------------------------------------

  /**
   * The specification for a launch: an empty address shares the host's
   * network; any other address gets a network namespace and the two
   * interfaces, the address copied into the veth entry without checks.
   */
  function BuildSpec(ipAddr: string): (spec: ContainerSpec)
    ensures NetNamespace in spec.namespaces <==> ipAddr != ""
    ensures spec.networks.Some? <==> ipAddr != ""
    ensures forall ns :: ns in spec.namespaces ==> spec.namespaces[ns]
  {
    var namespaces := if ipAddr != "" then BaseNamespaces[NetNamespace := true] else BaseNamespaces;
    var networks := if ipAddr != "" then Some([Loopback, Veth(ipAddr)]) else None;
    ContainerSpec(
      Capabilities,
      Cgroups(AllowedDevices, "redis", "sc-redis"),
      true,
      MountConfig(DeviceNodes, Mounts),
      Environment,
      Hostname,
      namespaces,
      networks,
      false,
      "root")
  }

  // ---------------------------------------------------------------------
  // Properties of the specification
  // ---------------------------------------------------------------------

  /**
   * With an address there are exactly two interfaces: the loopback, with no
   * bridge and no veth prefix, then a veth on bridge scredis0 whose address
   * is the given one, unvalidated.
   */
  lemma NetworksWithAddress(ipAddr: string)
    requires ipAddr != ""
    ensures BuildSpec(ipAddr).networks.Some?
    ensures var nets := BuildSpec(ipAddr).networks.value;
      && |nets| == 2
      && nets[0].address == "127.0.0.1/0" && nets[0].gateway == "localhost"
      && nets[0].mtu == 1500 && nets[0].ifaceType == "loopback"
      && nets[0].bridge.None? && nets[0].vethPrefix.None?
      && nets[1].address == ipAddr && nets[1].bridge == Some("scredis0")
      && nets[1].vethPrefix == Some("veth") && nets[1].gateway == "10.0.5.1"
      && nets[1].mtu == 1500 && nets[1].ifaceType == "veth"
    ensures BuildSpec(ipAddr).namespaces[NetNamespace]
  {
  }

  /** Without an address the container has no network entries and shares the host's network. */
  lemma NoNetworkWithoutAddress()
    ensures BuildSpec("").networks == None
    ensures BuildSpec("").namespaces.Keys == {"NEWIPC", "NEWNS", "NEWPID", "NEWUTS"}
  {
  }

  /** The IPC, mount, PID and UTS namespaces are always requested. */
  lemma BaseNamespacesAlwaysOn(ipAddr: string)
    ensures forall ns :: ns in BaseNamespaces ==>
              ns in BuildSpec(ipAddr).namespaces && BuildSpec(ipAddr).namespaces[ns]
    ensures BuildSpec(ipAddr).namespaces.Keys - {NetNamespace} == BaseNamespaces.Keys
  {
  }

  /** Everything outside the network parts is the same whatever the address. */
  lemma OnlyNetworkDependsOnAddress(a: string, b: string)
    ensures var x, y := BuildSpec(a), BuildSpec(b);
      && x.capabilities == y.capabilities && x.cgroups == y.cgroups
      && x.restrictSys == y.restrictSys && x.mountConfig == y.mountConfig
      && x.environment == y.environment && x.hostname == y.hostname
      && x.tty == y.tty && x.user == y.user
      && x.namespaces - {NetNamespace} == y.namespaces - {NetNamespace}
  {
  }

  /**
   * The fixed contents: 12 capabilities, 14 allowed devices in cgroup
   * `redis` under `sc-redis`, syscalls restricted, no tty, run as root.
   */
  lemma FixedContents(ipAddr: string)
    ensures var spec := BuildSpec(ipAddr);
      && spec.capabilities == [
           "CHOWN", "DAC_OVERRIDE", "FOWNER", "MKNOD", "NET_RAW", "SETGID",
           "SETUID", "SETFCAP", "SETPCAP", "NET_BIND_SERVICE", "SYS_CHROOT", "KILL"]
      && |spec.capabilities| == 12
      && |spec.cgroups.allowedDevices| == 14
      && spec.cgroups.name == "redis" && spec.cgroups.parent == "sc-redis"
      && spec.restrictSys && !spec.tty && spec.user == "root"
  {
  }

  /**
   * Every device node created inside the container is also allowed by the
   * cgroup, with permissions rwm and mode 0666.
   */
  lemma DeviceNodesAreAllowed(ipAddr: string)
    ensures var spec := BuildSpec(ipAddr);
      forall d :: d in spec.mountConfig.deviceNodes ==>
        && d in spec.cgroups.allowedDevices
        && d.cgroupPermissions == "rwm"
        && d.fileMode == Some(NodeFileMode)
  {
    forall i | 0 <= i < |DeviceNodes|
      ensures DeviceNodes[i] == AllowedDevices[i + 8]
    {
    }
    assert DeviceNodes == AllowedDevices[8..];
  }

  /** The only mount is a tmpfs on /tmp. */
  lemma OnlyTmpMount(ipAddr: string)
    ensures BuildSpec(ipAddr).mountConfig.mounts == [Mount("tmpfs", "/tmp")]
  {
  }

  /** The environment is four fixed entries, and its HOSTNAME agrees with the hostname. */
  lemma EnvironmentMatchesHostname(ipAddr: string)
    ensures var spec := BuildSpec(ipAddr);
      && |spec.environment| == 4
      && spec.environment[0] == "HOME=/" && spec.environment[1] == "PATH=/usr/local/bin"
      && spec.environment[3] == "TERM=xterm"
      && spec.environment[2] == "HOSTNAME=" + spec.hostname
      && spec.hostname == "redis"
  {
  }
}
