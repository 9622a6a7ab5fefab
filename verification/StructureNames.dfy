/**
 The names in each directory of the structure tree (kext/procfs_structure.c, procfs_structure_init),
 in the order they are added, and that no directory has one of them twice.
 */
module StructureNames {
  import opened Numbers

  const NAME_CHARS: nat := 31

  /** A name that is not cut short and cannot be taken for a numbered entry. */
  predicate Usable(s: string) {
    s != "" && !IsDigit(s[0]) && |s| <= NAME_CHARS
  }

  predicate AllDiffer(names: seq<string>) {
    forall i, j :: 0 <= i < j < |names| ==> names[i] != names[j]
  }

  predicate Apart(a: seq<string>, b: seq<string>) {
    forall i, j :: 0 <= i < |a| && 0 <= j < |b| ==> a[i] != b[j]
  }

  predicate AllUsable(names: seq<string>) {
    forall i :: 0 <= i < |names| ==> Usable(names[i])
  }

  /** Names that one directory can have. */
  predicate Good(names: seq<string>) {
    AllDiffer(names) && AllUsable(names)
  }

  lemma GoodJoin(a: seq<string>, b: seq<string>)
    requires Good(a) && Good(b) && Apart(a, b)
    ensures Good(a + b)
  {
  }

  lemma ApartJoin(a: seq<string>, b: seq<string>, c: seq<string>)
    requires Apart(a, c) && Apart(b, c)
    ensures Apart(a + b, c)
  {
  }

  // ----- the root -----

  const DOTS: seq<string> := [".", ".."]

  const FIRST: seq<string> := DOTS + ["byname"]

  const FILES_1: seq<string> :=
    ["loadavg", "kcore", "kmsg", "last_kmsg", "ksyms", "kallsyms", "locks", "meminfo", "misc", "mtab", "mounts", "stat",
     "vmstat", "partitions", "version", "uptime", "swaps", "filesystems"]

  const SYSTEM_1: seq<string> :=
    ["cpuinfo", "curproc", "loadavg", "kcore", "kmsg", "last_kmsg", "ksyms", "kallsyms", "locks", "meminfo", "misc",
     "mtab", "mounts", "stat", "vmstat", "partitions", "version", "uptime", "swaps", "filesystems", "sys"]

  const SYSTEM_2: seq<string> :=
    ["extensions", "modules", "diskstats", "devices", "allocinfo", "vmallocinfo", "apm", "bootconfig", "buddyinfo",
     "pagetypeinfo", "slabinfo", "dma", "ioports", "iomem", "softirqs", "rtc", "execdomains", "fb", "interrupts"]

  const SYSTEM_3: seq<string> :=
    ["irq", "tty", "ide", "video", "isapnp", "scsi", "sysvipc", "fs", "driver", "bus", "cmdline", "self", "net"]

  const PROCESS_ENTRY: seq<string> := ["__Process__"]

  const ROOT_NAMES: seq<string> := FIRST + SYSTEM_1 + SYSTEM_2 + SYSTEM_3 + PROCESS_ENTRY

  lemma FirstGood()
    ensures Good(FIRST) && Good(PROCESS_ENTRY)
  {
    assert FIRST == [".", "..", "byname"];
  }

  lemma System1Differ()
    ensures AllDiffer(SYSTEM_1)
  {
  }

  lemma System1Usable()
    ensures AllUsable(SYSTEM_1)
  {
  }

  /** As they are added: a file, a link, files, and the sysctl tree. */
  lemma System1Parts(names: seq<string>)
    ensures names + ["cpuinfo"] + ["curproc"] + FILES_1 + ["sys"] == names + SYSTEM_1
    ensures |FILES_1| == 18 && AllUsable(FILES_1)
    ensures AllUsable(["cpuinfo"]) && AllUsable(["curproc"]) && AllUsable(["sys"])
  {
    assert SYSTEM_1 == ["cpuinfo"] + ["curproc"] + FILES_1 + ["sys"];
  }

  lemma System2Differ()
    ensures AllDiffer(SYSTEM_2)
  {
  }

  lemma System2Usable()
    ensures AllUsable(SYSTEM_2) && |SYSTEM_2| == 19
  {
  }

  lemma System3Differ()
    ensures AllDiffer(SYSTEM_3)
  {
  }

  lemma System3Usable()
    ensures AllUsable(SYSTEM_3)
  {
  }

  lemma System3Parts(names: seq<string>)
    ensures names + ["irq"] + ["tty"] + ["ide"] + ["video"] + ["isapnp"] + ["scsi"] + ["sysvipc"] + ["fs"]
            + ["driver"] + ["bus"] + ["cmdline"] + ["self"] + ["net"] == names + SYSTEM_3
  {
  }

  lemma Apart12()
    ensures Apart(SYSTEM_1, SYSTEM_2)
  {
  }

  lemma Apart13()
    ensures Apart(SYSTEM_1, SYSTEM_3)
  {
  }

  lemma Apart23()
    ensures Apart(SYSTEM_2, SYSTEM_3)
  {
  }

  lemma ApartFirst()
    ensures Apart(FIRST, SYSTEM_1) && Apart(FIRST, SYSTEM_2) && Apart(FIRST, SYSTEM_3) && Apart(FIRST, PROCESS_ENTRY)
  {
    assert FIRST == [".", "..", "byname"];
  }

  lemma ApartLast()
    ensures Apart(SYSTEM_1, PROCESS_ENTRY) && Apart(SYSTEM_2, PROCESS_ENTRY) && Apart(SYSTEM_3, PROCESS_ENTRY)
  {
  }

  /** The root directory has no name twice. */
  lemma RootNamesGood()
    ensures Good(ROOT_NAMES)
  {
    FirstGood();
    System1Differ();
    System1Usable();
    System2Differ();
    System2Usable();
    System3Differ();
    System3Usable();
    Apart12();
    Apart13();
    Apart23();
    ApartFirst();
    ApartLast();
    FiveJoin(FIRST, SYSTEM_1, SYSTEM_2, SYSTEM_3, PROCESS_ENTRY);
  }

  lemma FiveJoin(a: seq<string>, b: seq<string>, c: seq<string>, d: seq<string>, e: seq<string>)
    requires Good(a) && Good(b) && Good(c) && Good(d) && Good(e)
    requires Apart(a, b) && Apart(a, c) && Apart(a, d) && Apart(a, e)
    requires Apart(b, c) && Apart(b, d) && Apart(b, e) && Apart(c, d) && Apart(c, e) && Apart(d, e)
    ensures Good(a + b + c + d + e)
  {
    GoodJoin(a, b);
    ApartJoin(a, b, c);
    GoodJoin(a + b, c);
    ApartJoin(a, b, d);
    ApartJoin(a + b, c, d);
    GoodJoin(a + b + c, d);
    ApartJoin(a, b, e);
    ApartJoin(a + b, c, e);
    ApartJoin(a + b + c, d, e);
    GoodJoin(a + b + c + d, e);
  }

  // ----- a process -----

  const NUMBERED: seq<string> := DOTS + ["fd"] + ["threads"] + ["task"]

  const PROCESS_1: seq<string> :=
    ["cmdline", "pid", "ppid", "pgid", "sid", "tty", "status", "taskinfo", "note", "clear_refs", "limit", "mem", "map",
     "maps", "smaps", "smaps_rollup", "numa_maps", "pagemap"]

  const LINKS: seq<string> := ["exe", "cwd", "root"]

  const PROCESS_2: seq<string> :=
    ["comm", "cpu", "stat", "statm", "io", "environ", "regs", "fpregs", "auxv", "wchan", "stack"]

  const PROCESS_NAMES: seq<string> := NUMBERED + PROCESS_1 + LINKS + PROCESS_2

  lemma ProcessPartsGood()
    ensures Good(NUMBERED) && Good(LINKS) && Good(PROCESS_2)
  {
    assert NUMBERED == [".", "..", "fd", "threads", "task"];
  }

  lemma Process1Differ()
    ensures AllDiffer(PROCESS_1)
  {
  }

  lemma Process1Usable()
    ensures AllUsable(PROCESS_1)
  {
  }

  lemma ProcessUsable()
    ensures AllUsable(PROCESS_1) && AllUsable(LINKS) && AllUsable(PROCESS_2) && AllUsable([])
    ensures |PROCESS_1| == 18 && |LINKS| == 3 && |PROCESS_2| == 11
  {
    Process1Usable();
    ProcessPartsGood();
  }

  lemma ProcessApart()
    ensures Apart(NUMBERED, PROCESS_1) && Apart(NUMBERED, LINKS) && Apart(NUMBERED, PROCESS_2)
    ensures Apart(LINKS, PROCESS_2)
  {
    assert NUMBERED == [".", "..", "fd", "threads", "task"];
  }

  lemma Process1Apart()
    ensures Apart(PROCESS_1, LINKS) && Apart(PROCESS_1, PROCESS_2)
  {
  }

  /** A process directory has no name twice. */
  lemma ProcessNamesGood()
    ensures Good(PROCESS_NAMES)
  {
    ProcessPartsGood();
    Process1Differ();
    Process1Usable();
    ProcessApart();
    Process1Apart();
    FiveJoin(NUMBERED, PROCESS_1, LINKS, PROCESS_2, []);
    assert NUMBERED + PROCESS_1 + LINKS + PROCESS_2 + [] == PROCESS_NAMES;
  }

  // ----- the small directories -----

  const NET: seq<string> := ["dev", "tcp", "tcp6", "udp", "udp6", "unix", "route", "arp", "netstat", "snmp"]

  const TASK: seq<string> := ["info", "comm", "stat", "status", "sched", "maps"]

  lemma NetGood()
    ensures Good(DOTS + NET) && AllUsable(NET) && |NET| == 10
  {
    assert DOTS + NET == [".", "..", "dev", "tcp", "tcp6", "udp", "udp6", "unix", "route", "arp", "netstat", "snmp"];
  }

  lemma TaskGood()
    ensures Good(DOTS + TASK) && AllUsable(TASK) && |TASK| == 6
  {
    assert DOTS + TASK == [".", "..", "info", "comm", "stat", "status", "sched", "maps"];
  }

  lemma DotsGood()
    ensures Good(DOTS)
  {
  }

  predicate Undotted(s: string) {
    Usable(s) && s[0] != '.'
  }

  lemma SmallGood(names: seq<string>)
    requires AllDiffer(names) && forall i :: 0 <= i < |names| ==> Undotted(names[i])
    ensures Good(DOTS + names)
  {
    assert Apart(DOTS, names);
    DotsGood();
    GoodJoin(DOTS, names);
  }
}
