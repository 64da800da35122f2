/**
 * Default OCI runtime specs and spec options (pkg/oci/spec.go). A spec starts as the default
 * for the target platform's OS and is then changed by the options in order. The runtime-spec
 * version, the default mounts, the host OS, platform parsing and the context's namespace are
 * parameters.
 */
module OciSpec {
  import opened Errdefs
  import opened Options
  import opened Containers
  import OciTypes

  datatype Root = Root(path: string, readonly: bool)
  datatype User = User(uid: nat, gid: nat)
  datatype Capabilities = Capabilities(bounding: seq<string>, effective: seq<string>, permitted: seq<string>)
  datatype Rlimit = Rlimit(kind: string, hard: nat, soft: nat)
  datatype Process = Process(cwd: string, noNewPrivileges: bool, user: User, capabilities: Option<Capabilities>, rlimits: seq<Rlimit>)
  datatype DeviceCgroup = DeviceCgroup(allow: bool, access: string)
  datatype NamespaceType = PIDNamespace | IPCNamespace | UTSNamespace | MountNamespace | NetworkNamespace | UserNamespace | CgroupNamespace
  datatype Linux = Linux(maskedPaths: seq<string>, readonlyPaths: seq<string>, cgroupsPath: string,
                         devices: seq<DeviceCgroup>, namespaces: seq<NamespaceType>)
  datatype Mount = Mount(destination: string, kind: string, source: string, options: seq<string>)
  /** The Windows section; the model only records whether it is present. */
  datatype WindowsSection = WindowsSection

  /** The parts of specs.Spec the defaults set; a nil pointer is None. */
  datatype Spec = Spec(version: string, root: Option<Root>, process: Option<Process>, linux: Option<Linux>,
                       windows: Option<WindowsSection>, mounts: seq<Mount>)

  const ZeroSpec := Spec("", None, None, None, None, [])

  /** What the defaults take from the build: specs.Version, defaultMounts() and runtime.GOOS. */
  datatype Host = Host(specVersion: string, defaultMounts: seq<Mount>, goos: string)

  const DefaultUnixCaps: seq<string> := [
    "CAP_CHOWN", "CAP_DAC_OVERRIDE", "CAP_FSETID", "CAP_FOWNER", "CAP_MKNOD", "CAP_NET_RAW", "CAP_SETGID",
    "CAP_SETUID", "CAP_SETFCAP", "CAP_SETPCAP", "CAP_NET_BIND_SERVICE", "CAP_SYS_CHROOT", "CAP_KILL", "CAP_AUDIT_WRITE"]

  const DefaultUnixNamespaces: seq<NamespaceType> := [PIDNamespace, IPCNamespace, UTSNamespace, MountNamespace, NetworkNamespace]

  const DefaultMaskedPaths: seq<string> := [
    "/proc/acpi", "/proc/asound", "/proc/kcore", "/proc/keys", "/proc/latency_stats", "/proc/timer_list",
    "/proc/timer_stats", "/proc/sched_debug", "/sys/firmware", "/sys/devices/virtual/powercap", "/proc/scsi"]

  const DefaultReadonlyPaths: seq<string> := ["/proc/bus", "/proc/fs", "/proc/irq", "/proc/sys", "/proc/sysrq-trigger"]

  /** filepath.Join("/", ns, id) for names without slashes or dot segments: empty names are skipped. */
  function CgroupsPath(ns: string, id: string): (r: string)
    ensures ns != "" && id != "" ==> r == "/" + ns + "/" + id
    ensures |r| > 0 && r[0] == '/'
  {
    if ns == "" && id == "" then "/"
    else if ns == "" then "/" + id
    else if id == "" then "/" + ns
    else "/" + ns + "/" + id
  }

  /**
   * populateDefaultUnixSpec: fails when the context has no namespace (`ns` is the result of
   * namespaces.NamespaceRequired); otherwise the spec runs "/" as root in the rootfs
   * directory, with the default capabilities as bounding, effective and permitted set, 1024
   * open files, the default masked and read-only paths, no device access, the cgroup
   * /<namespace>/<id>, the five default namespaces and the default mounts.
   */
  function UnixDefaultSpec(ns: Result<string>, id: string, host: Host): (r: Result<Spec>)
    ensures r.Err? <==> ns.Err?
    ensures r.Err? ==> r.error == ns.error
    ensures r.Ok? ==>
      var s := r.value;
      s.version == host.specVersion && s.root == Some(Root("rootfs", false)) &&
      s.process.Some? && s.process.value.cwd == "/" && s.process.value.noNewPrivileges &&
      s.process.value.user == User(0, 0) &&
      s.process.value.capabilities == Some(Capabilities(DefaultUnixCaps, DefaultUnixCaps, DefaultUnixCaps)) &&
      s.process.value.rlimits == [Rlimit("RLIMIT_NOFILE", 1024, 1024)] &&
      s.linux.Some? && s.linux.value.cgroupsPath == CgroupsPath(ns.value, id) &&
      s.linux.value.devices == [DeviceCgroup(false, "rwm")] &&
      s.linux.value.namespaces == DefaultUnixNamespaces &&
      s.linux.value.maskedPaths == DefaultMaskedPaths && s.linux.value.readonlyPaths == DefaultReadonlyPaths &&
      s.windows.None? && s.mounts == host.defaultMounts
  {
    match ns
    case Err(e) => Err(e)
    case Ok(n) =>
      var process := Process("/", true, User(0, 0), Some(Capabilities(DefaultUnixCaps, DefaultUnixCaps, DefaultUnixCaps)),
                             [Rlimit("RLIMIT_NOFILE", 1024, 1024)]);
      var linux := Linux(DefaultMaskedPaths, DefaultReadonlyPaths, CgroupsPath(n, id), [DeviceCgroup(false, "rwm")],
                         DefaultUnixNamespaces);
      Ok(Spec(host.specVersion, Some(Root("rootfs", false)), Some(process), Some(linux), None, host.defaultMounts))
  }

  /** populateDefaultWindowsSpec: an empty root, a process in C:\ with no capabilities, an empty Windows section, no Linux section and no mounts. */
  function WindowsDefaultSpec(host: Host): (s: Spec)
    ensures s.version == host.specVersion && s.root == Some(Root("", false))
    ensures s.process.Some? && s.process.value.cwd == "C:\\" && !s.process.value.noNewPrivileges &&
            s.process.value.capabilities.None? && s.process.value.rlimits == []
    ensures s.windows == Some(WindowsSection) && s.linux.None? && s.mounts == []
  {
    Spec(host.specVersion, Some(Root("", false)), Some(Process("C:\\", false, User(0, 0), None, [])), None, Some(WindowsSection), [])
  }

  /** populateDefaultDarwinSpec: an empty root and a process in "/" with no capabilities; no Linux or Windows section and no mounts. */
  function DarwinDefaultSpec(host: Host): (s: Spec)
    ensures s.version == host.specVersion && s.root == Some(Root("", false))
    ensures s.process.Some? && s.process.value.cwd == "/" && !s.process.value.noNewPrivileges &&
            s.process.value.capabilities.None? && s.process.value.rlimits == []
    ensures s.linux.None? && s.windows.None? && s.mounts == []
  {
    Spec(host.specVersion, Some(Root("", false)), Some(Process("/", false, User(0, 0), None, [])), None, None, [])
  }

  /**
   * generateDefaultSpecWithPlatform: the platform string is parsed (`parseOS` gives its OS);
   * Windows and Darwin get their defaults and every other OS the Unix default, which on a
   * Windows host also carries an empty Windows section.
   */
  function DefaultSpec(parseOS: string -> Result<string>, platform: string, ns: Result<string>, id: string, host: Host): (r: Result<Spec>)
    ensures parseOS(platform).Err? ==> r == Err(parseOS(platform).error)
    ensures parseOS(platform) == Ok("windows") ==> r == Ok(WindowsDefaultSpec(host))
    ensures parseOS(platform) == Ok("darwin") ==> r == Ok(DarwinDefaultSpec(host))
    ensures parseOS(platform).Ok? && parseOS(platform).value !in {"windows", "darwin"} ==>
      match UnixDefaultSpec(ns, id, host)
      case Err(e) => r == Err(e)
      case Ok(s) => r.Ok? && r.value == (if host.goos == "windows" then s.(windows := Some(WindowsSection)) else s)
  {
    match parseOS(platform)
    case Err(e) => Err(e)
    case Ok(os) =>
      if os == "windows" then Ok(WindowsDefaultSpec(host))
      else if os == "darwin" then Ok(DarwinDefaultSpec(host))
      else match UnixDefaultSpec(ns, id, host)
        case Err(e) => Err(e)
        case Ok(s) => Ok(if host.goos == "windows" then s.(windows := Some(WindowsSection)) else s)
  }

  /** Only the Unix default depends on the namespace: Windows and Darwin specs never fail. */
  lemma OnlyUnixNeedsNamespace(parseOS: string -> Result<string>, platform: string, ns: Result<string>, id: string, host: Host)
    requires parseOS(platform).Ok?
    ensures DefaultSpec(parseOS, platform, ns, id, host).Err? <==> ns.Err? && parseOS(platform).value !in {"windows", "darwin"}
  {
  }

  /** A SpecOpts: changes the spec through its pointer, given the container; it may fail half way. */
  type SpecOpt = (Container, Spec) -> Applied<Spec>

  /** A spec option with the container fixed. */
  function Fix(c: Container, o: SpecOpt): Spec -> Applied<Spec>
  {
    s => o(c, s)
  }

  /** The options with the container fixed. */
  function Bind(c: Container, opts: seq<SpecOpt>): (r: seq<Spec -> Applied<Spec>>)
    ensures |r| == |opts|
    ensures forall i :: 0 <= i < |opts| ==> r[i] == Fix(c, opts[i])
    decreases |opts|
  {
    if opts == [] then [] else [Fix(c, opts[0])] + Bind(c, opts[1..])
  }

  /**
   * ApplyOpts: the options run in order on the spec; the first one that fails ends the run
   * with its error, and the changes made so far stay.
   */
  method ApplyOpts(c: Container, s: Spec, opts: seq<SpecOpt>) returns (r: Spec, err: MaybeError)
    ensures Applied(r, err) == ApplyAll(Bind(c, opts), s)
    ensures var k := FirstFailure(Bind(c, opts), s);
      (k == |opts| ==> err.None?) &&
      (k < |opts| ==> err == opts[k](c, ApplyAll(Bind(c, opts)[..k], s).state).err && err.Some?)
  {
    r, err := RunOpts(Bind(c, opts), s);
    ApplyAllStopsAtFirstError(Bind(c, opts), s);
  }

  /**
   * GenerateSpecWithPlatform: the default spec for the platform, with the options applied.
   * When the default cannot be built there is no spec; when an option fails the partly
   * updated spec is returned with the error.
   */
  method GenerateSpecWithPlatform(parseOS: string -> Result<string>, platform: string, ns: Result<string>, c: Container,
                                  opts: seq<SpecOpt>, host: Host) returns (s: Option<Spec>, err: MaybeError)
    ensures DefaultSpec(parseOS, platform, ns, c.id, host).Err? ==>
      s == None && err == Some(DefaultSpec(parseOS, platform, ns, c.id, host).error)
    ensures DefaultSpec(parseOS, platform, ns, c.id, host).Ok? ==>
      s.Some? && Applied(s.value, err) == ApplyAll(Bind(c, opts), DefaultSpec(parseOS, platform, ns, c.id, host).value)
  {
    var d := DefaultSpec(parseOS, platform, ns, c.id, host);
    if d.Err? {
      return None, Some(d.error);
    }
    var r;
    r, err := ApplyOpts(c, d.value, opts);
    s := Some(r);
  }

  /** The containerd API's types.Descriptor. */
  datatype ProtoDescriptor = ProtoDescriptor(mediaType: string, digest: string, size: int, annotations: map<string, string>)

  /** DescriptorToProto: media type, digest, size and annotations; the other fields are dropped. */
  function DescriptorToProto(d: OciTypes.Descriptor): (p: ProtoDescriptor)
    ensures p.mediaType == d.mediaType && p.digest == d.digest && p.size == d.size && p.annotations == d.annotations
  {
    ProtoDescriptor(d.mediaType, d.digest, d.size, d.annotations)
  }

  /** DescriptorFromProto: the inverse of DescriptorToProto. */
  function DescriptorFromProto(p: ProtoDescriptor): (d: OciTypes.Descriptor)
    ensures DescriptorToProto(d) == p
    ensures d.urls == [] && d.platform.None? && d.artifactType == ""
  {
    OciTypes.Descriptor(p.mediaType, p.digest, p.size, [], p.annotations, None, "")
  }

  /** Through the protobuf form and back, a descriptor keeps its media type, digest, size and annotations. */
  lemma DescriptorRoundTrip(d: OciTypes.Descriptor)
    ensures DescriptorFromProto(DescriptorToProto(d)) == d.(urls := [], platform := None, artifactType := "")
  {
  }
}
