/**
 * The default seccomp profile (contrib/seccomp/seccomp_default.go) as a function of the
 * build architecture (GOARCH), the outcome of the kernel-version check (kernel 4.8 or
 * later) and the spec's bounding capabilities.
 */
module SeccompDefault {
  import opened Errdefs

  datatype Action = ActAllow | ActErrno

  datatype Operator = OpNotEqual | OpEqualTo | OpMaskedEqual

  datatype SeccompArg = SeccompArg(index: nat, value: nat, valueTwo: nat, op: Operator)

  /** specs.LinuxSyscall; a nil ErrnoRet is None. */
  datatype Syscall = Syscall(names: seq<string>, action: Action, args: seq<SeccompArg>, errnoRet: Option<nat>)

  datatype Profile = Profile(defaultAction: Action, architectures: seq<string>, syscalls: seq<Syscall>)

  /** Linux values of the constants from golang.org/x/sys/unix. */
  const AF_VSOCK: nat := 40
  const ENOSYS: nat := 38
  const CLONE_NEWNS: nat := 0x20000
  const CLONE_NEWCGROUP: nat := 0x2000000
  const CLONE_NEWUTS: nat := 0x4000000
  const CLONE_NEWIPC: nat := 0x8000000
  const CLONE_NEWUSER: nat := 0x10000000
  const CLONE_NEWPID: nat := 0x20000000
  const CLONE_NEWNET: nat := 0x40000000
  /** The namespace flags or-ed together; they are distinct single bits, so the sum is the or. */
  const NamespaceFlags: nat := CLONE_NEWNS + CLONE_NEWUTS + CLONE_NEWIPC + CLONE_NEWUSER + CLONE_NEWPID + CLONE_NEWNET + CLONE_NEWCGROUP

  /** The seccomp architectures for a GOARCH; unknown ones get none. */
  function Arches(goarch: string): (r: seq<string>)
    ensures goarch !in {"amd64", "arm64", "mips64", "mips64n32", "mipsel64", "mipsel64n32", "s390x", "riscv64", "loong64"} ==> r == []
  {
    match goarch
    case "amd64" => ["SCMP_ARCH_X86_64", "SCMP_ARCH_X86", "SCMP_ARCH_X32"]
    case "arm64" => ["SCMP_ARCH_ARM", "SCMP_ARCH_AARCH64"]
    case "mips64" => ["SCMP_ARCH_MIPS", "SCMP_ARCH_MIPS64", "SCMP_ARCH_MIPS64N32"]
    case "mips64n32" => ["SCMP_ARCH_MIPS", "SCMP_ARCH_MIPS64", "SCMP_ARCH_MIPS64N32"]
    case "mipsel64" => ["SCMP_ARCH_MIPSEL", "SCMP_ARCH_MIPSEL64", "SCMP_ARCH_MIPSEL64N32"]
    case "mipsel64n32" => ["SCMP_ARCH_MIPSEL", "SCMP_ARCH_MIPSEL64", "SCMP_ARCH_MIPSEL64N32"]
    case "s390x" => ["SCMP_ARCH_S390", "SCMP_ARCH_S390X"]
    case "riscv64" => ["SCMP_ARCH_RISCV64"]
    case "loong64" => ["SCMP_ARCH_LOONGARCH64"]
    case _ => []
  }

  /** The unconditional allow-list, in the order of the source, in parts of twenty names. */
  const AllowedSyscalls: seq<string> :=
    AllowedPart0 + AllowedPart1 + AllowedPart2 + AllowedPart3 + AllowedPart4 + AllowedPart5 +
    AllowedPart6 + AllowedPart7 + AllowedPart8 + AllowedPart9 + AllowedPart10 + AllowedPart11 +
    AllowedPart12 + AllowedPart13 + AllowedPart14 + AllowedPart15 + AllowedPart16 + AllowedPart17 +
    AllowedPart18

  const AllowedPart0: seq<string> := [
    "accept", "accept4", "access", "adjtimex", "alarm",
    "bind", "brk", "cachestat", "capget", "capset",
    "chdir", "chmod", "chown", "chown32", "clock_adjtime",
    "clock_adjtime64", "clock_getres", "clock_getres_time64", "clock_gettime", "clock_gettime64"
  ]

  const AllowedPart1: seq<string> := [
    "clock_nanosleep", "clock_nanosleep_time64", "close", "close_range", "connect",
    "copy_file_range", "creat", "dup", "dup2", "dup3",
    "epoll_create", "epoll_create1", "epoll_ctl", "epoll_ctl_old", "epoll_pwait",
    "epoll_pwait2", "epoll_wait", "epoll_wait_old", "eventfd", "eventfd2"
  ]

  const AllowedPart2: seq<string> := [
    "execve", "execveat", "exit", "exit_group", "faccessat",
    "faccessat2", "fadvise64", "fadvise64_64", "fallocate", "fanotify_mark",
    "fchdir", "fchmod", "fchmodat", "fchmodat2", "fchown",
    "fchown32", "fchownat", "fcntl", "fcntl64", "fdatasync"
  ]

  const AllowedPart3: seq<string> := [
    "fgetxattr", "flistxattr", "flock", "fork", "fremovexattr",
    "fsetxattr", "fstat", "fstat64", "fstatat64", "fstatfs",
    "fstatfs64", "fsync", "ftruncate", "ftruncate64", "futex",
    "futex_requeue", "futex_time64", "futex_wait", "futex_waitv", "futex_wake"
  ]

  const AllowedPart4: seq<string> := [
    "futimesat", "getcpu", "getcwd", "getdents", "getdents64",
    "getegid", "getegid32", "geteuid", "geteuid32", "getgid",
    "getgid32", "getgroups", "getgroups32", "getitimer", "getpeername",
    "getpgid", "getpgrp", "getpid", "getppid", "getpriority"
  ]

  const AllowedPart5: seq<string> := [
    "getrandom", "getresgid", "getresgid32", "getresuid", "getresuid32",
    "getrlimit", "get_robust_list", "getrusage", "getsid", "getsockname",
    "getsockopt", "get_thread_area", "gettid", "gettimeofday", "getuid",
    "getuid32", "getxattr", "getxattrat", "inotify_add_watch", "inotify_init"
  ]

  const AllowedPart6: seq<string> := [
    "inotify_init1", "inotify_rm_watch", "io_cancel", "ioctl", "io_destroy",
    "io_getevents", "io_pgetevents", "io_pgetevents_time64", "ioprio_get", "ioprio_set",
    "io_setup", "io_submit", "ipc", "kill", "landlock_add_rule",
    "landlock_create_ruleset", "landlock_restrict_self", "lchown", "lchown32", "lgetxattr"
  ]

  const AllowedPart7: seq<string> := [
    "link", "linkat", "listen", "listmount", "listxattr",
    "listxattrat", "llistxattr", "_llseek", "lremovexattr", "lseek",
    "lsetxattr", "lsm_get_self_attr", "lsm_list_modules", "lsm_set_self_attr", "lstat",
    "lstat64", "madvise", "membarrier", "memfd_create", "memfd_secret"
  ]

  const AllowedPart8: seq<string> := [
    "mincore", "mkdir", "mkdirat", "mknod", "mknodat",
    "mlock", "mlock2", "mlockall", "map_shadow_stack", "mmap",
    "mmap2", "mprotect", "mq_getsetattr", "mq_notify", "mq_open",
    "mq_timedreceive", "mq_timedreceive_time64", "mq_timedsend", "mq_timedsend_time64", "mq_unlink"
  ]

  const AllowedPart9: seq<string> := [
    "mremap", "mseal", "msgctl", "msgget", "msgrcv",
    "msgsnd", "msync", "munlock", "munlockall", "munmap",
    "name_to_handle_at", "nanosleep", "newfstatat", "_newselect", "open",
    "openat", "openat2", "pause", "pidfd_open", "pidfd_send_signal"
  ]

  const AllowedPart10: seq<string> := [
    "pipe", "pipe2", "pkey_alloc", "pkey_free", "pkey_mprotect",
    "poll", "ppoll", "ppoll_time64", "prctl", "pread64",
    "preadv", "preadv2", "prlimit64", "process_mrelease", "pselect6",
    "pselect6_time64", "pwrite64", "pwritev", "pwritev2", "read"
  ]

  const AllowedPart11: seq<string> := [
    "readahead", "readlink", "readlinkat", "readv", "recv",
    "recvfrom", "recvmmsg", "recvmmsg_time64", "recvmsg", "remap_file_pages",
    "removexattr", "removexattrat", "rename", "renameat", "renameat2",
    "restart_syscall", "rmdir", "rseq", "rt_sigaction", "rt_sigpending"
  ]

  const AllowedPart12: seq<string> := [
    "rt_sigprocmask", "rt_sigqueueinfo", "rt_sigreturn", "rt_sigsuspend", "rt_sigtimedwait",
    "rt_sigtimedwait_time64", "rt_tgsigqueueinfo", "sched_getaffinity", "sched_getattr", "sched_getparam",
    "sched_get_priority_max", "sched_get_priority_min", "sched_getscheduler", "sched_rr_get_interval", "sched_rr_get_interval_time64",
    "sched_setaffinity", "sched_setattr", "sched_setparam", "sched_setscheduler", "sched_yield"
  ]

  const AllowedPart13: seq<string> := [
    "seccomp", "select", "semctl", "semget", "semop",
    "semtimedop", "semtimedop_time64", "send", "sendfile", "sendfile64",
    "sendmmsg", "sendmsg", "sendto", "setfsgid", "setfsgid32",
    "setfsuid", "setfsuid32", "setgid", "setgid32", "setgroups"
  ]

  const AllowedPart14: seq<string> := [
    "setgroups32", "setitimer", "setpgid", "setpriority", "setregid",
    "setregid32", "setresgid", "setresgid32", "setresuid", "setresuid32",
    "setreuid", "setreuid32", "setrlimit", "set_robust_list", "setsid",
    "setsockopt", "set_thread_area", "set_tid_address", "setuid", "setuid32"
  ]

  const AllowedPart15: seq<string> := [
    "setxattr", "setxattrat", "shmat", "shmctl", "shmdt",
    "shmget", "shutdown", "sigaltstack", "signalfd", "signalfd4",
    "sigprocmask", "sigreturn", "socketcall", "socketpair", "splice",
    "stat", "stat64", "statfs", "statfs64", "statmount"
  ]

  const AllowedPart16: seq<string> := [
    "statx", "symlink", "symlinkat", "sync", "sync_file_range",
    "syncfs", "sysinfo", "tee", "tgkill", "time",
    "timer_create", "timer_delete", "timer_getoverrun", "timer_gettime", "timer_gettime64",
    "timer_settime", "timer_settime64", "timerfd_create", "timerfd_gettime", "timerfd_gettime64"
  ]

  const AllowedPart17: seq<string> := [
    "timerfd_settime", "timerfd_settime64", "times", "tkill", "truncate",
    "truncate64", "ugetrlimit", "umask", "uname", "unlink",
    "unlinkat", "uretprobe", "utime", "utimensat", "utimensat_time64",
    "utimes", "vfork", "vmsplice", "wait4", "waitid"
  ]

  const AllowedPart18: seq<string> := [
    "waitpid", "write", "writev"
  ]

  function Allow(names: seq<string>): Syscall
  {
    Syscall(names, ActAllow, [], None)
  }

  function PersonalityRule(value: nat): Syscall
  {
    Syscall(["personality"], ActAllow, [SeccompArg(0, value, 0, OpEqualTo)], None)
  }

  const SocketRule := Syscall(["socket"], ActAllow, [SeccompArg(0, AF_VSOCK, 0, OpNotEqual)], None)

  const PersonalityValues: seq<nat> := [0x0, 0x0008, 0x20000, 0x20008, 0xffffffff]

  /** The rules every profile starts with. */
  const BaseRules: seq<Syscall> := [Allow(AllowedSyscalls), SocketRule,
     PersonalityRule(0x0), PersonalityRule(0x0008), PersonalityRule(0x20000), PersonalityRule(0x20008), PersonalityRule(0xffffffff)]

  /** The rule added when the kernel is 4.8 or later; nothing when it is older or the check fails. */
  function KernelRules(kernelAtLeast48: Result<bool>): (r: seq<Syscall>)
    ensures |r| <= 1 && (r != [] <==> kernelAtLeast48 == Ok(true))
    ensures r != [] ==> "ptrace" in r[0].names && r[0].action == ActAllow && r[0].args == [] && Unrestricted(r[0])
  {
    if kernelAtLeast48 == Ok(true) then [Allow(["process_vm_readv", "process_vm_writev", "ptrace"])] else []
  }

  /** The architecture-specific rules: one unconditional allow rule for each architecture Go names. */
  function ArchRules(goarch: string): (r: seq<Syscall>)
    ensures |r| <= 1
    ensures r != [] <==> goarch in {"ppc64le", "arm", "arm64", "amd64", "386", "s390", "s390x", "riscv64"}
    ensures r != [] ==> r[0].action == ActAllow && r[0].args == [] && r[0].errnoRet == None && Unrestricted(r[0])
  {
    match goarch
    case "ppc64le" => [Allow(["sync_file_range2", "swapcontext"])]
    case "arm" => [Allow(["arm_fadvise64_64", "arm_sync_file_range", "sync_file_range2", "breakpoint", "cacheflush", "set_tls"])]
    case "arm64" => [Allow(["arm_fadvise64_64", "arm_sync_file_range", "sync_file_range2", "breakpoint", "cacheflush", "set_tls"])]
    case "amd64" => [Allow(["arch_prctl", "modify_ldt"])]
    case "386" => [Allow(["modify_ldt"])]
    case "s390" => [Allow(["s390_pci_mmio_read", "s390_pci_mmio_write", "s390_runtime_instr"])]
    case "s390x" => [Allow(["s390_pci_mmio_read", "s390_pci_mmio_write", "s390_runtime_instr"])]
    case "riscv64" => [Allow(["riscv_flush_icache", "riscv_hwprobe"])]
    case _ => []
  }

  const AdminSyscalls: seq<string> := [
    "bpf", "clone", "clone3", "fanotify_init", "fsconfig", "fsmount", "fsopen", "fspick",
    "lookup_dcookie", "mount", "mount_setattr", "move_mount", "open_tree", "perf_event_open",
    "quotactl", "quotactl_fd", "setdomainname", "sethostname", "setns", "syslog", "umount",
    "umount2", "unshare"]

  const ModuleSyscalls: seq<string> := ["delete_module", "init_module", "finit_module"]
  const PtraceSyscalls: seq<string> := ["kcmp", "pidfd_getfd", "process_madvise", "process_vm_readv", "process_vm_writev", "ptrace"]
  const TimeSyscalls: seq<string> := ["settimeofday", "stime", "clock_settime", "clock_settime64"]
  const NiceSyscalls: seq<string> := ["get_mempolicy", "mbind", "set_mempolicy", "set_mempolicy_home_node"]

  /** The rule one bounding capability adds, if any. */
  function CapRule(cap: string): (r: Option<Syscall>)
    ensures r.Some? ==> r.value.action == ActAllow && r.value.args == [] && r.value.errnoRet == None
  {
    match cap
    case "CAP_DAC_READ_SEARCH" => Some(Allow(["open_by_handle_at"]))
    case "CAP_SYS_ADMIN" => Some(Allow(AdminSyscalls))
    case "CAP_SYS_BOOT" => Some(Allow(["reboot"]))
    case "CAP_SYS_CHROOT" => Some(Allow(["chroot"]))
    case "CAP_SYS_MODULE" => Some(Allow(ModuleSyscalls))
    case "CAP_SYS_PACCT" => Some(Allow(["acct"]))
    case "CAP_SYS_PTRACE" => Some(Allow(PtraceSyscalls))
    case "CAP_SYS_RAWIO" => Some(Allow(["iopl", "ioperm"]))
    case "CAP_SYS_TIME" => Some(Allow(TimeSyscalls))
    case "CAP_SYS_TTY_CONFIG" => Some(Allow(["vhangup"]))
    case "CAP_SYS_NICE" => Some(Allow(NiceSyscalls))
    case "CAP_SYSLOG" => Some(Allow(["syslog"]))
    case "CAP_BPF" => Some(Allow(["bpf"]))
    case "CAP_PERFMON" => Some(Allow(["perf_event_open"]))
    case _ => None
  }

  /** The rules of a capability list, in the order of the capabilities. */
  function CapRules(caps: seq<string>): seq<Syscall>
  {
    if |caps| == 0 then []
    else CapRules(caps[..|caps| - 1]) + (match CapRule(caps[|caps| - 1]) case Some(r) => [r] case None => [])
  }

  /**
   * The rules added when CAP_SYS_ADMIN is not among the bounding capabilities: `clone` only
   * with no namespace flag in its flags argument (the second one on s390), and `clone3`,
   * whose flags live in memory seccomp cannot inspect, failing with ENOSYS.
   */
  function NonAdminRules(goarch: string): (r: seq<Syscall>)
    ensures |r| == 2 && Unrestricted(r[0]) && Unrestricted(r[1])
    ensures r[0].names == ["clone"] && r[0].action == ActAllow && |r[0].args| == 1
    ensures r[0].args[0].op == OpMaskedEqual && r[0].args[0].value == NamespaceFlags && r[0].args[0].valueTwo == 0
    ensures r[0].args[0].index == 1 <==> goarch == "s390" || goarch == "s390x"
    ensures r[0].args[0].index <= 1
    ensures r[1].names == ["clone3"] && r[1].action == ActErrno && r[1].errnoRet == Some(ENOSYS)
  {
    var cloneArg := if goarch == "s390" || goarch == "s390x" then 1 else 0;
    [Syscall(["clone"], ActAllow, [SeccompArg(cloneArg, NamespaceFlags, 0, OpMaskedEqual)], None),
     Syscall(["clone3"], ActErrno, [], Some(ENOSYS))]
  }

  const CapSysAdmin := "CAP_SYS_ADMIN"

  predicate HasAdmin(bounding: seq<string>)
  {
    exists k :: 0 <= k < |bounding| && bounding[k] == CapSysAdmin
  }

  /** The syscall rules of the default profile, in order. */
  function ProfileRules(goarch: string, kernelAtLeast48: Result<bool>, bounding: seq<string>): seq<Syscall>
  {
    RulesAfter(BaseRules, goarch, kernelAtLeast48, bounding)
  }

  /** The given base rules followed by the kernel, architecture, capability and clone rules. */
  function RulesAfter(base: seq<Syscall>, goarch: string, kernelAtLeast48: Result<bool>, bounding: seq<string>): seq<Syscall>
  {
    base + KernelRules(kernelAtLeast48) + ArchRules(goarch) + CapRules(bounding) +
    (if HasAdmin(bounding) then [] else NonAdminRules(goarch))
  }

  /** specs.LinuxCapabilities, of which DefaultProfile reads only the bounding set. */
  datatype Capabilities = Capabilities(bounding: seq<string>)

  /** specs.Process as DefaultProfile reads it; a nil Capabilities pointer is None. */
  datatype SpecProcess = SpecProcess(capabilities: Option<Capabilities>)

  /**
   * DefaultProfile: the base rules, then the kernel, architecture and capability rules, and
   * the clone restrictions when CAP_SYS_ADMIN is absent; unmatched syscalls get ActErrno.
   * Reading the bounding set through a nil Process or Capabilities pointer panics.
   */
  method DefaultProfile(goarch: string, kernelAtLeast48: Result<bool>, process: Option<SpecProcess>) returns (r: Result<Profile>)
    ensures r.Err? <==> process.None? || process.value.capabilities.None?
    ensures r.Err? ==> r.error == Panic
    ensures r.Ok? ==>
      var bounding := process.value.capabilities.value.bounding;
      r.value.defaultAction == ActErrno && r.value.architectures == Arches(goarch) &&
      r.value.syscalls == ProfileRules(goarch, kernelAtLeast48, bounding)
  {
    var kernelRules := [];
    if kernelAtLeast48.Ok? {
      if kernelAtLeast48.value {
        kernelRules := [Allow(["process_vm_readv", "process_vm_writev", "ptrace"])];
      }
    }
    if process.None? || process.value.capabilities.None? {
      return Err(Panic);
    }
    var capRules, admin := BoundingCapRules(process.value.capabilities.value.bounding);
    var cloneRules := [];
    if !admin {
      cloneRules := NonAdminRules(goarch);
    }
    r := Ok(Profile(ActErrno, Arches(goarch), BaseRules + kernelRules + ArchRules(goarch) + capRules + cloneRules));
  }

  /** The loop over the bounding capabilities: the rules they add, and whether CAP_SYS_ADMIN is one. */
  method BoundingCapRules(bounding: seq<string>) returns (rules: seq<Syscall>, admin: bool)
    ensures rules == CapRules(bounding) && admin == HasAdmin(bounding)
  {
    rules := [];
    admin := false;
    var i := 0;
    while i < |bounding|
      invariant 0 <= i <= |bounding|
      invariant admin <==> HasAdmin(bounding[..i])
      invariant rules == CapRules(bounding[..i])
    {
      var c := bounding[i];
      CapStep(bounding, i);
      if c == CapSysAdmin {
        admin := true;
      }
      match CapRule(c) {
        case Some(r) => rules := rules + [r];
        case None =>
      }
      i := i + 1;
    }
    assert bounding[..i] == bounding;
  }

  /** One more bounding capability: its rule, if any, is appended, and it may be CAP_SYS_ADMIN. */
  lemma CapStep(bounding: seq<string>, i: nat)
    requires i < |bounding|
    ensures CapRules(bounding[..i + 1])
      == CapRules(bounding[..i]) + (match CapRule(bounding[i]) case Some(r) => [r] case None => [])
    ensures HasAdmin(bounding[..i + 1]) <==> HasAdmin(bounding[..i]) || bounding[i] == CapSysAdmin
  {
    var p := bounding[..i + 1];
    assert p[..i] == bounding[..i] && p[i] == bounding[i];
    if HasAdmin(p) && bounding[i] != CapSysAdmin {
      var k :| 0 <= k < |p| && p[k] == CapSysAdmin;
      assert bounding[..i][k] == CapSysAdmin;
    }
    if HasAdmin(bounding[..i]) {
      var k :| 0 <= k < i && bounding[..i][k] == CapSysAdmin;
      assert p[k] == CapSysAdmin;
    }
  }

  /** Capability rules are appended in the order of the capabilities, without removing duplicates. */
  lemma {:induction false} CapRulesAppend(a: seq<string>, b: seq<string>)
    ensures CapRules(a + b) == CapRules(a) + CapRules(b)
    decreases |b|
  {
    if |b| == 0 {
      assert a + b == a;
    } else {
      var b' := b[..|b| - 1];
      assert (a + b)[..|a + b| - 1] == a + b';
      assert (a + b)[|a + b| - 1] == b[|b| - 1];
      CapRulesAppend(a, b');
    }
  }

  /** No rule outside the base rules names `socket` or `personality`. */
  predicate Unrestricted(r: Syscall)
  {
    "socket" !in r.names && "personality" !in r.names
  }

  lemma AdminSyscallsUnrestricted()
    ensures "socket" !in AdminSyscalls && "personality" !in AdminSyscalls
  {
  }

  lemma SmallCapSyscallsUnrestricted()
    ensures "socket" !in ModuleSyscalls + PtraceSyscalls && "personality" !in ModuleSyscalls + PtraceSyscalls
    ensures "socket" !in TimeSyscalls + NiceSyscalls && "personality" !in TimeSyscalls + NiceSyscalls
  {
  }

  /** No capability rule names `socket` or `personality`. */
  lemma CapRuleUnrestricted(cap: string)
    ensures CapRule(cap).Some? ==> Unrestricted(CapRule(cap).value)
  {
    AdminSyscallsUnrestricted();
    SmallCapSyscallsUnrestricted();
  }

  lemma {:induction false} CapRulesUnrestricted(caps: seq<string>)
    ensures forall k :: 0 <= k < |CapRules(caps)| ==> Unrestricted(CapRules(caps)[k]) && CapRules(caps)[k].action == ActAllow
    decreases |caps|
  {
    if |caps| > 0 {
      CapRulesUnrestricted(caps[..|caps| - 1]);
      CapRuleUnrestricted(caps[|caps| - 1]);
    }
  }

  lemma AllowedPart0Unrestricted()
    ensures "socket" !in AllowedPart0 && "personality" !in AllowedPart0
  {
  }

  lemma AllowedPart1Unrestricted()
    ensures "socket" !in AllowedPart1 && "personality" !in AllowedPart1
  {
  }

  lemma AllowedPart2Unrestricted()
    ensures "socket" !in AllowedPart2 && "personality" !in AllowedPart2
  {
  }

  lemma AllowedPart3Unrestricted()
    ensures "socket" !in AllowedPart3 && "personality" !in AllowedPart3
  {
  }

  lemma AllowedPart4Unrestricted()
    ensures "socket" !in AllowedPart4 && "personality" !in AllowedPart4
  {
  }

  lemma AllowedPart5Unrestricted()
    ensures "socket" !in AllowedPart5 && "personality" !in AllowedPart5
  {
  }

  lemma AllowedPart6Unrestricted()
    ensures "socket" !in AllowedPart6 && "personality" !in AllowedPart6
  {
  }

  lemma AllowedPart7Unrestricted()
    ensures "socket" !in AllowedPart7 && "personality" !in AllowedPart7
  {
  }

  lemma AllowedPart8Unrestricted()
    ensures "socket" !in AllowedPart8 && "personality" !in AllowedPart8
  {
  }

  lemma AllowedPart9Unrestricted()
    ensures "socket" !in AllowedPart9 && "personality" !in AllowedPart9
  {
  }

  lemma AllowedPart10Unrestricted()
    ensures "socket" !in AllowedPart10 && "personality" !in AllowedPart10
  {
  }

  lemma AllowedPart11Unrestricted()
    ensures "socket" !in AllowedPart11 && "personality" !in AllowedPart11
  {
  }

  lemma AllowedPart12Unrestricted()
    ensures "socket" !in AllowedPart12 && "personality" !in AllowedPart12
  {
  }

  lemma AllowedPart13Unrestricted()
    ensures "socket" !in AllowedPart13 && "personality" !in AllowedPart13
  {
  }

  lemma AllowedPart14Unrestricted()
    ensures "socket" !in AllowedPart14 && "personality" !in AllowedPart14
  {
  }

  lemma AllowedPart15Unrestricted()
    ensures "socket" !in AllowedPart15 && "personality" !in AllowedPart15
  {
  }

  lemma AllowedPart16Unrestricted()
    ensures "socket" !in AllowedPart16 && "personality" !in AllowedPart16
  {
  }

  lemma AllowedPart17Unrestricted()
    ensures "socket" !in AllowedPart17 && "personality" !in AllowedPart17
  {
  }

  lemma AllowedPart18Unrestricted()
    ensures "socket" !in AllowedPart18 && "personality" !in AllowedPart18
  {
  }

  /** The allow-list names neither `socket` nor `personality`. */
  lemma AllowListUnrestricted()
    ensures Unrestricted(Allow(AllowedSyscalls))
  {
    AllowedPart0Unrestricted();
    AllowedPart1Unrestricted();
    AllowedPart2Unrestricted();
    AllowedPart3Unrestricted();
    AllowedPart4Unrestricted();
    AllowedPart5Unrestricted();
    AllowedPart6Unrestricted();
    AllowedPart7Unrestricted();
    AllowedPart8Unrestricted();
    AllowedPart9Unrestricted();
    AllowedPart10Unrestricted();
    AllowedPart11Unrestricted();
    AllowedPart12Unrestricted();
    AllowedPart13Unrestricted();
    AllowedPart14Unrestricted();
    AllowedPart15Unrestricted();
    AllowedPart16Unrestricted();
    AllowedPart17Unrestricted();
    AllowedPart18Unrestricted();
    NamesConcat(AllowedPart0, AllowedPart1);
    NamesConcat(AllowedPart0 + AllowedPart1, AllowedPart2);
    NamesConcat(AllowedPart0 + AllowedPart1 + AllowedPart2, AllowedPart3);
    NamesConcat(AllowedPart0 + AllowedPart1 + AllowedPart2 + AllowedPart3, AllowedPart4);
    NamesConcat(AllowedPart0 + AllowedPart1 + AllowedPart2 + AllowedPart3 + AllowedPart4, AllowedPart5);
    NamesConcat(AllowedPart0 + AllowedPart1 + AllowedPart2 + AllowedPart3 + AllowedPart4 + AllowedPart5, AllowedPart6);
    NamesConcat(AllowedPart0 + AllowedPart1 + AllowedPart2 + AllowedPart3 + AllowedPart4 + AllowedPart5 + AllowedPart6, AllowedPart7);
    NamesConcat(AllowedPart0 + AllowedPart1 + AllowedPart2 + AllowedPart3 + AllowedPart4 + AllowedPart5 + AllowedPart6 + AllowedPart7, AllowedPart8);
    NamesConcat(AllowedPart0 + AllowedPart1 + AllowedPart2 + AllowedPart3 + AllowedPart4 + AllowedPart5 + AllowedPart6 + AllowedPart7 + AllowedPart8, AllowedPart9);
    NamesConcat(AllowedPart0 + AllowedPart1 + AllowedPart2 + AllowedPart3 + AllowedPart4 + AllowedPart5 + AllowedPart6 + AllowedPart7 + AllowedPart8 + AllowedPart9, AllowedPart10);
    NamesConcat(AllowedPart0 + AllowedPart1 + AllowedPart2 + AllowedPart3 + AllowedPart4 + AllowedPart5 + AllowedPart6 + AllowedPart7 + AllowedPart8 + AllowedPart9 + AllowedPart10, AllowedPart11);
    NamesConcat(AllowedPart0 + AllowedPart1 + AllowedPart2 + AllowedPart3 + AllowedPart4 + AllowedPart5 + AllowedPart6 + AllowedPart7 + AllowedPart8 + AllowedPart9 + AllowedPart10 + AllowedPart11, AllowedPart12);
    NamesConcat(AllowedPart0 + AllowedPart1 + AllowedPart2 + AllowedPart3 + AllowedPart4 + AllowedPart5 + AllowedPart6 + AllowedPart7 + AllowedPart8 + AllowedPart9 + AllowedPart10 + AllowedPart11 + AllowedPart12, AllowedPart13);
    NamesConcat(AllowedPart0 + AllowedPart1 + AllowedPart2 + AllowedPart3 + AllowedPart4 + AllowedPart5 + AllowedPart6 + AllowedPart7 + AllowedPart8 + AllowedPart9 + AllowedPart10 + AllowedPart11 + AllowedPart12 + AllowedPart13, AllowedPart14);
    NamesConcat(AllowedPart0 + AllowedPart1 + AllowedPart2 + AllowedPart3 + AllowedPart4 + AllowedPart5 + AllowedPart6 + AllowedPart7 + AllowedPart8 + AllowedPart9 + AllowedPart10 + AllowedPart11 + AllowedPart12 + AllowedPart13 + AllowedPart14, AllowedPart15);
    NamesConcat(AllowedPart0 + AllowedPart1 + AllowedPart2 + AllowedPart3 + AllowedPart4 + AllowedPart5 + AllowedPart6 + AllowedPart7 + AllowedPart8 + AllowedPart9 + AllowedPart10 + AllowedPart11 + AllowedPart12 + AllowedPart13 + AllowedPart14 + AllowedPart15, AllowedPart16);
    NamesConcat(AllowedPart0 + AllowedPart1 + AllowedPart2 + AllowedPart3 + AllowedPart4 + AllowedPart5 + AllowedPart6 + AllowedPart7 + AllowedPart8 + AllowedPart9 + AllowedPart10 + AllowedPart11 + AllowedPart12 + AllowedPart13 + AllowedPart14 + AllowedPart15 + AllowedPart16, AllowedPart17);
    NamesConcat(AllowedPart0 + AllowedPart1 + AllowedPart2 + AllowedPart3 + AllowedPart4 + AllowedPart5 + AllowedPart6 + AllowedPart7 + AllowedPart8 + AllowedPart9 + AllowedPart10 + AllowedPart11 + AllowedPart12 + AllowedPart13 + AllowedPart14 + AllowedPart15 + AllowedPart16 + AllowedPart17, AllowedPart18);
  }

  /** The allow-list has 363 names and ends with `waitpid`, `write` and `writev`. */
  lemma AllowListContents()
    ensures |AllowedSyscalls| == 363
    ensures AllowedSyscalls[360..] == ["waitpid", "write", "writev"]
  {
    var front := AllowedPart0 + AllowedPart1 + AllowedPart2 + AllowedPart3 + AllowedPart4 + AllowedPart5 + AllowedPart6 + AllowedPart7 + AllowedPart8 + AllowedPart9 + AllowedPart10 + AllowedPart11 + AllowedPart12 + AllowedPart13 + AllowedPart14 + AllowedPart15 + AllowedPart16 + AllowedPart17;
    assert |front| == 360;
    assert AllowedSyscalls == front + AllowedPart18;
  }

  /** Every default profile allows `write` and `writev` unconditionally, in its first rule. */
  lemma WriteAlwaysAllowed(goarch: string, kernelAtLeast48: Result<bool>, bounding: seq<string>)
    ensures var rules := ProfileRules(goarch, kernelAtLeast48, bounding);
      |rules| > 0 && rules[0].action == ActAllow && rules[0].args == [] &&
      "write" in rules[0].names && "writev" in rules[0].names
  {
    AllowListContents();
    assert AllowedSyscalls[361] == "write" && AllowedSyscalls[362] == "writev";
    assert ProfileRules(goarch, kernelAtLeast48, bounding)[0] == Allow(AllowedSyscalls);
  }

  lemma NamesConcat(a: seq<string>, b: seq<string>)
    requires "socket" !in a && "personality" !in a
    requires "socket" !in b && "personality" !in b
    ensures "socket" !in a + b && "personality" !in a + b
  {
  }

  /** A rule naming `socket` excludes AF_VSOCK; one naming `personality` allows one listed value. */
  predicate Guarded(r: Syscall)
  {
    ("socket" in r.names ==> r.action == ActAllow && r.args == [SeccompArg(0, AF_VSOCK, 0, OpNotEqual)]) &&
    ("personality" in r.names ==>
       r.action == ActAllow && |r.args| == 1 && r.args[0].index == 0 &&
       r.args[0].op == OpEqualTo && r.args[0].value in PersonalityValues)
  }

  predicate AllGuarded(rules: seq<Syscall>)
  {
    forall k :: 0 <= k < |rules| ==> Guarded(rules[k])
  }

  lemma AllGuardedAppend(a: seq<Syscall>, b: seq<Syscall>)
    requires AllGuarded(a) && AllGuarded(b)
    ensures AllGuarded(a + b)
  {
    forall k | 0 <= k < |a + b|
      ensures Guarded((a + b)[k])
    {
      if k < |a| {
        assert (a + b)[k] == a[k];
      } else {
        assert (a + b)[k] == b[k - |a|];
      }
    }
  }

  lemma BaseRulesGuarded()
    ensures AllGuarded(BaseRules)
  {
    AllowListUnrestricted();
    BaseRulesGuardedAfter(Allow(AllowedSyscalls));
  }

  /** The socket and personality rules that follow the allow-list rule are guarded. */
  lemma BaseRulesGuardedAfter(first: Syscall)
    requires Unrestricted(first)
    ensures AllGuarded([first, SocketRule, PersonalityRule(0x0), PersonalityRule(0x0008), PersonalityRule(0x20000),
                        PersonalityRule(0x20008), PersonalityRule(0xffffffff)])
  {
    SocketRuleGuarded();
    PersonalityRulesGuarded();
  }

  lemma SocketRuleGuarded()
    ensures Guarded(SocketRule)
  {
    assert "personality" !in ["socket"];
  }

  lemma PersonalityRulesGuarded()
    ensures forall v :: v in PersonalityValues ==> Guarded(PersonalityRule(v))
  {
    assert "socket" !in ["personality"];
  }

  lemma KernelRulesGuarded(kernelAtLeast48: Result<bool>)
    ensures AllGuarded(KernelRules(kernelAtLeast48))
  {
  }

  lemma ArchRulesGuarded(goarch: string)
    ensures AllGuarded(ArchRules(goarch))
  {
  }

  lemma CapRulesGuarded(bounding: seq<string>)
    ensures AllGuarded(CapRules(bounding))
  {
    CapRulesUnrestricted(bounding);
  }

  lemma NonAdminRulesGuarded(goarch: string)
    ensures AllGuarded(NonAdminRules(goarch))
  {
  }

  /**
   * `socket` is only ever allowed with a first argument other than AF_VSOCK, and
   * `personality` only for the five listed values of its first argument.
   */
  lemma SocketAndPersonalityGuarded(goarch: string, kernelAtLeast48: Result<bool>, bounding: seq<string>)
    ensures AllGuarded(ProfileRules(goarch, kernelAtLeast48, bounding))
  {
    BaseRulesGuarded();
    GuardedAfter(BaseRules, goarch, kernelAtLeast48, bounding);
  }

  /** SocketAndPersonalityGuarded for any guarded base rules. */
  lemma GuardedAfter(base: seq<Syscall>, goarch: string, kernelAtLeast48: Result<bool>, bounding: seq<string>)
    requires AllGuarded(base)
    ensures AllGuarded(RulesAfter(base, goarch, kernelAtLeast48, bounding))
  {
    KernelRulesGuarded(kernelAtLeast48);
    ArchRulesGuarded(goarch);
    CapRulesGuarded(bounding);
    NonAdminRulesGuarded(goarch);
    AllGuardedAppend(base, KernelRules(kernelAtLeast48));
    AllGuardedAppend(base + KernelRules(kernelAtLeast48), ArchRules(goarch));
    AllGuardedAppend(base + KernelRules(kernelAtLeast48) + ArchRules(goarch), CapRules(bounding));
    var rest: seq<Syscall> := if HasAdmin(bounding) then [] else NonAdminRules(goarch);
    AllGuardedAppend(base + KernelRules(kernelAtLeast48) + ArchRules(goarch) + CapRules(bounding), rest);
  }

  /**
   * Without CAP_SYS_ADMIN the profile restricts `clone` (on the second argument on s390 and
   * the first elsewhere) and makes `clone3` fail with ENOSYS; with it, no rule uses ActErrno.
   */
  lemma CloneRulesWithoutAdmin(goarch: string, kernelAtLeast48: Result<bool>, bounding: seq<string>)
    ensures var rules := ProfileRules(goarch, kernelAtLeast48, bounding);
      (exists k :: 0 <= k < |rules| && rules[k].action == ActErrno) <==> "CAP_SYS_ADMIN" !in bounding
    ensures "CAP_SYS_ADMIN" !in bounding ==>
      var rules := ProfileRules(goarch, kernelAtLeast48, bounding);
      rules[|rules| - 1] == Syscall(["clone3"], ActErrno, [], Some(ENOSYS)) &&
      rules[|rules| - 2].names == ["clone"] &&
      rules[|rules| - 2].args == [SeccompArg(if goarch == "s390" || goarch == "s390x" then 1 else 0, NamespaceFlags, 0, OpMaskedEqual)]
  {
    BaseRulesAllow();
    ClonesAfterAllowRules(BaseRules, goarch, kernelAtLeast48, bounding);
  }

  /** CloneRulesWithoutAdmin for any base rules that only allow. */
  lemma ClonesAfterAllowRules(base: seq<Syscall>, goarch: string, kernelAtLeast48: Result<bool>, bounding: seq<string>)
    requires AllAllow(base)
    ensures var rules := RulesAfter(base, goarch, kernelAtLeast48, bounding);
      (exists k :: 0 <= k < |rules| && rules[k].action == ActErrno) <==> "CAP_SYS_ADMIN" !in bounding
    ensures "CAP_SYS_ADMIN" !in bounding ==>
      var rules := RulesAfter(base, goarch, kernelAtLeast48, bounding);
      rules[|rules| - 1] == Syscall(["clone3"], ActErrno, [], Some(ENOSYS)) &&
      rules[|rules| - 2].names == ["clone"] &&
      rules[|rules| - 2].args == [SeccompArg(if goarch == "s390" || goarch == "s390x" then 1 else 0, NamespaceFlags, 0, OpMaskedEqual)]
  {
    CapRulesUnrestricted(bounding);
    var prefix := base + KernelRules(kernelAtLeast48) + ArchRules(goarch) + CapRules(bounding);
    assert AllAllow(KernelRules(kernelAtLeast48)) && AllAllow(ArchRules(goarch));
    AllAllowAppend(base, KernelRules(kernelAtLeast48));
    AllAllowAppend(base + KernelRules(kernelAtLeast48), ArchRules(goarch));
    AllAllowAppend(base + KernelRules(kernelAtLeast48) + ArchRules(goarch), CapRules(bounding));
    assert HasAdmin(bounding) <==> CapSysAdmin in bounding by {
      if CapSysAdmin in bounding {
        var k :| 0 <= k < |bounding| && bounding[k] == CapSysAdmin;
      }
    }
    assert AllAllow(prefix);
    CloneRulesAfter(prefix, goarch, HasAdmin(bounding));
    assert RulesAfter(base, goarch, kernelAtLeast48, bounding) == prefix + (if HasAdmin(bounding) then [] else NonAdminRules(goarch));
  }

  /** Every rule of the list allows its syscalls. */
  predicate AllAllow(rules: seq<Syscall>)
  {
    forall k :: 0 <= k < |rules| ==> rules[k].action == ActAllow
  }

  lemma AllAllowAppend(a: seq<Syscall>, b: seq<Syscall>)
    requires AllAllow(a) && AllAllow(b)
    ensures AllAllow(a + b)
  {
    forall k | 0 <= k < |a + b|
      ensures (a + b)[k].action == ActAllow
    {
      if k < |a| {
        assert (a + b)[k] == a[k];
      } else {
        assert (a + b)[k] == b[k - |a|];
      }
    }
  }

  lemma BaseRulesAllow()
    ensures AllAllow(BaseRules)
  {
  }

  /** After rules that all allow, the clone rules are the only ones that answer with an errno. */
  lemma CloneRulesAfter(prefix: seq<Syscall>, goarch: string, admin: bool)
    requires AllAllow(prefix)
    ensures var rules := prefix + (if admin then [] else NonAdminRules(goarch));
      (exists k :: 0 <= k < |rules| && rules[k].action == ActErrno) <==> !admin
    ensures !admin ==>
      var rules := prefix + NonAdminRules(goarch);
      rules[|rules| - 1] == Syscall(["clone3"], ActErrno, [], Some(ENOSYS)) &&
      rules[|rules| - 2].names == ["clone"] &&
      rules[|rules| - 2].args == [SeccompArg(if goarch == "s390" || goarch == "s390x" then 1 else 0, NamespaceFlags, 0, OpMaskedEqual)]
  {
    var rules := prefix + (if admin then [] else NonAdminRules(goarch));
    if admin {
      assert rules == prefix;
    } else {
      assert rules[|rules| - 1].action == ActErrno;
    }
  }

  /** An older kernel and a failed version check give the same profile. */
  lemma KernelCheckFailureAddsNothing(goarch: string, e: Error, bounding: seq<string>)
    ensures ProfileRules(goarch, Err(e), bounding) == ProfileRules(goarch, Ok(false), bounding)
    ensures |ProfileRules(goarch, Ok(true), bounding)| == |ProfileRules(goarch, Ok(false), bounding)| + 1
  {
  }
}
