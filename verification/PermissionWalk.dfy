/** The permission walk: a file tree probed as owner, group and other with switched ids, once as it is
    and once with every file chowned to a test user and back. */
module PermissionWalk {
  import opened Wrappers

  // ------------------------------------------------------------ file access permissions

  datatype Mode = ForReading | ForWriting
  datatype Class = Owner | Group | Other
  datatype Bits = Bits(r: bool, w: bool)
  datatype Inode = Inode(uid: nat, gid: nat, user: Bits, group: Bits, other: Bits)

  // Effective ids and supplementary groups.
  datatype Creds = Creds(euid: nat, egid: nat, groups: set<nat>)

  function Bit(b: Bits, m: Mode): bool { if m.ForReading? then b.r else b.w }

  // Whether section 4.5 of the Base Definitions of POSIX.1-2017 lets the process at the file.
  predicate Permits(i: Inode, c: Creds, m: Mode) {
    if c.euid == 0 then true
    else if c.euid == i.uid then Bit(i.user, m)
    else if c.egid == i.gid || i.gid in c.groups then Bit(i.group, m)
    else Bit(i.other, m)
  }

  // --------------------------------------------------------------------- the kernel

  datatype Answer = Granted | Denied | NoDevice | Busy
  datatype Chowned = Refused | Ignored | Done

  // Any kernel: its answers may depend on how many calls came before. opens answers open, chowns the
  // chown to the test user, restores the chown back.
  datatype Kernel = Kernel(opens: (nat, nat, Inode, Creds, Mode) -> Answer,
                           chowns: (nat, nat) -> Chowned,
                           restores: (nat, nat) -> Chowned)

  // One open call of a walk. inode is what stat showed just before.
  datatype Probe = Probe(call: nat, ino: nat, inode: Inode, cls: Class, mode: Mode, creds: Creds, answer: Answer)

  datatype Walk = Walk(disk: map<nat, Inode>, ids: Creds, calls: nat,
                       pass: nat, fail: nat, skip: nat, probes: seq<Probe>)

  // A pass over the tree: with the files as they are, or chowned to a test user and group.
  datatype Pass = AsIs | As(uid: nat, gid: nat)

  datatype DirentType = DtLnk | DtDir | DtOther
  datatype Entry = Entry(dtype: DirentType, node: Node)
  datatype Node = Missing | Link | File(ino: nat) | Dir(scans: bool, entries: seq<Entry>)

  const UID_NOBODY: nat := 65534
  const GID_NOBODY: nat := 65533

  // A failed stat leaves the zeroed buffer.
  function Stat(disk: map<nat, Inode>, ino: nat): Inode {
    if ino in disk then disk[ino] else Inode(0, 0, Bits(false, false), Bits(false, false), Bits(false, false))
  }

  // ------------------------------------------------------------------ switching ids

  // setegid then seteuid, of a process whose real and saved ids are 0. Either may be refused.
  function SetIds(c: Creds, uid: nat, gid: nat): Creds {
    var g := if c.euid == 0 || gid == 0 then c.(egid := gid) else c;
    if g.euid == 0 || uid == 0 then g.(euid := uid) else g
  }

  function ResetGroups(c: Creds): Creds { if c.euid == 0 then c.(groups := {}) else c }

  // A switch takes effect exactly from root, or to ids that are 0 or already in force. So between two
  // switches to other ids the walk has to come back to root.
  lemma SwitchTakesEffect(c: Creds, uid: nat, gid: nat)
    ensures SetIds(c, uid, gid) == Creds(uid, gid, c.groups)
       <==> c.euid == 0 || ((uid == 0 || uid == c.euid) && (gid == 0 || gid == c.egid))
  {
  }

  // The ids a class is probed with.
  function Wanted(i: Inode, cls: Class): Creds {
    match cls
    case Owner => Creds(i.uid, GID_NOBODY, {})
    case Group => Creds(UID_NOBODY, i.gid, {})
    case Other => Creds(UID_NOBODY, GID_NOBODY, {})
  }

  // The walk's verdict oracle: the mode bit of the probed class, and root may always.
  predicate Expected(i: Inode, cls: Class, m: Mode) {
    match cls
    case Owner => Bit(i.user, m) || i.uid == 0
    case Group => Bit(i.group, m)
    case Other => Bit(i.other, m)
  }

  // ------------------------------------------------------------------------ the walk

  function TestAccess(k: Kernel, w: Walk, ino: nat, st: Inode, cls: Class, m: Mode): Walk {
    var answer := k.opens(w.calls, ino, Stat(w.disk, ino), w.ids, m);
    var n := w.(calls := w.calls + 1, probes := w.probes + [Probe(w.calls, ino, st, cls, m, w.ids, answer)]);
    if answer.NoDevice? || answer.Busy? then n.(skip := n.skip + 1)
    else if Expected(st, cls, m) then n.(pass := n.pass + 1)
    else if answer.Denied? then n.(pass := n.pass + 1)
    else n.(fail := n.fail + 1)
  }

  function TestClass(k: Kernel, w: Walk, ino: nat, st: Inode, cls: Class): Walk {
    var c := Wanted(st, cls);
    var a := w.(ids := SetIds(w.ids, c.euid, c.egid));
    TestAccess(k, TestAccess(k, a, ino, st, cls, ForReading), ino, st, cls, ForWriting)
  }

  function Home(w: Walk): Walk { w.(ids := SetIds(w.ids, 0, 0)) }

  function TestClasses(k: Kernel, w: Walk, ino: nat, st: Inode): Walk {
    var a := TestClass(k, w, ino, st, Owner);
    var b := TestClass(k, Home(a), ino, st, Group);
    Home(TestClass(k, Home(b), ino, st, Other))
  }

  function Chown(w: Walk, ino: nat, answer: Chowned, uid: nat, gid: nat): Walk {
    var n := w.(calls := w.calls + 1);
    if answer.Done? && ino in w.disk then n.(disk := w.disk[ino := w.disk[ino].(uid := uid, gid := gid)]) else n
  }

  function TestAll(k: Kernel, w: Walk, pass: Pass, ino: nat, orig: Inode): Walk {
    var a := Home(w);
    match pass
    case AsIs => TestClasses(k, a, ino, Stat(a.disk, ino))
    case As(uid, gid) =>
      var answer := k.chowns(a.calls, ino);
      var b := Chown(a, ino, answer, uid, gid);
      var st := Stat(b.disk, ino);
      if answer.Refused? then b
      else if st.uid != uid || st.gid != gid then b.(skip := b.skip + 1)
      else
        var c := TestClasses(k, b, ino, st);
        Chown(c, ino, k.restores(c.calls, ino), orig.uid, orig.gid)
  }

  function CheckAccess(k: Kernel, w: Walk, pass: Pass, node: Node): Walk
    decreases node, 0
  {
    var a := w.(ids := ResetGroups(w.ids));
    if !node.Dir? then CheckLeaf(k, a, pass, node)
    else if node.scans then CheckEntries(k, a, pass, node.entries)
    else a
  }

  // One directory entry: the entry type is believed for links and directories, else lstat decides.
  function CheckEntry(k: Kernel, w: Walk, pass: Pass, e: Entry): Walk
    decreases e, 0
  {
    if e.dtype.DtLnk? then w.(skip := w.skip + 1)
    else if e.dtype.DtDir? || e.node.Dir? then CheckAccess(k, w, pass, e.node)
    else CheckLeaf(k, w, pass, e.node)
  }

  // What is not a directory, after its lstat.
  function CheckLeaf(k: Kernel, w: Walk, pass: Pass, n: Node): Walk {
    match n
    case Link => w.(skip := w.skip + 1)
    case File(ino) => TestAll(k, w, pass, ino, Stat(w.disk, ino))
    case _ => w
  }

  function CheckEntries(k: Kernel, w: Walk, pass: Pass, entries: seq<Entry>): Walk
    decreases entries, 1
  {
    if entries == [] then w else CheckEntries(k, CheckEntry(k, w, pass, entries[0]), pass, entries[1..])
  }
}
