/** What every permission walk keeps, and when its verdicts are right. */
module PermissionLaws {
  import opened PermissionWalk

  // ------------------------------------------------------------------- bookkeeping

  // A false verdict: access was given though the mode bit of the probed class denies it, and the class is
  // not that of an owning root.
  predicate Bad(p: Probe) {
    p.answer.Granted? &&
    match p.cls
    case Owner => !Bit(p.inode.user, p.mode) && p.inode.uid != 0
    case Group => !Bit(p.inode.group, p.mode)
    case Other => !Bit(p.inode.other, p.mode)
  }

  lemma BadIsUnexpected(p: Probe)
    ensures Bad(p) <==> p.answer.Granted? && !Expected(p.inode, p.cls, p.mode)
  {
  }
  predicate Skipped(p: Probe) { p.answer.NoDevice? || p.answer.Busy? }

  function CountBad(ps: seq<Probe>): nat {
    if ps == [] then 0 else CountBad(ps[..|ps| - 1]) + if Bad(ps[|ps| - 1]) then 1 else 0
  }

  function CountSkipped(ps: seq<Probe>): nat {
    if ps == [] then 0 else CountSkipped(ps[..|ps| - 1]) + if Skipped(ps[|ps| - 1]) then 1 else 0
  }

  lemma CountOne(ps: seq<Probe>, p: Probe)
    ensures CountBad(ps + [p]) == CountBad(ps) + if Bad(p) then 1 else 0
    ensures CountSkipped(ps + [p]) == CountSkipped(ps) + if Skipped(p) then 1 else 0
  {
    assert (ps + [p])[..|ps + [p]| - 1] == ps;
  }

  lemma {:induction false} NoneBad(ps: seq<Probe>)
    ensures CountBad(ps) == 0 <==> forall i :: 0 <= i < |ps| ==> !Bad(ps[i])
  {
    if ps != [] {
      var front := ps[..|ps| - 1];
      NoneBad(front);
      assert forall i :: 0 <= i < |front| ==> front[i] == ps[i];
    }
  }

  // Kernels whose chown back never fails, and whose chown to the test user always works.
  ghost predicate Restores(k: Kernel) { forall n: nat, ino: nat :: k.restores(n, ino).Done? }
  ghost predicate Chowns(k: Kernel) { forall n: nat, ino: nat :: k.chowns(n, ino).Done? }

  // How a file looks while it is probed.
  function SeenAs(disk: map<nat, Inode>, pass: Pass, ino: nat): Inode {
    match pass
    case AsIs => Stat(disk, ino)
    case As(uid, gid) => Stat(disk, ino).(uid := uid, gid := gid)
  }

  ghost predicate Stable(k: Kernel, pass: Pass) { pass.AsIs? || Restores(k) }

  // The walk a pass makes: which kernel, which files, how they started.
  datatype Setting = Setting(k: Kernel, pass: Pass, disk: map<nat, Inode>, files: set<nat>)

  // What is true of every probe: the kernel answered it, for a file of the tree, under exactly the ids
  // intended and with no supplementary group; and the file looked as the pass intends.
  ghost predicate Recorded(s: Setting, p: Probe) {
    && p.answer == s.k.opens(p.call, p.ino, p.inode, p.creds, p.mode)
    && p.creds == Wanted(p.inode, p.cls)
    && p.ino in s.files
    && (Stable(s.k, s.pass) ==> p.inode == SeenAs(s.disk, s.pass, p.ino))
  }

  // The counters are determined by the probes.
  ghost predicate Tallied(s: Setting, w: Walk) {
    && w.fail == CountBad(w.probes)
    && w.pass + w.fail + CountSkipped(w.probes) == |w.probes|
    && forall i :: 0 <= i < |w.probes| ==> Recorded(s, w.probes[i])
  }

  ghost predicate AtHome(w: Walk) { w.ids == Creds(0, 0, {}) }

  function Total(w: Walk): nat { w.pass + w.fail + w.skip }

  ghost predicate Covers(ps: seq<Probe>, ino: nat, cls: Class) {
    && (exists i :: 0 <= i < |ps| && ps[i].ino == ino && ps[i].cls == cls && ps[i].mode == ForReading)
    && (exists i :: 0 <= i < |ps| && ps[i].ino == ino && ps[i].cls == cls && ps[i].mode == ForWriting)
  }

  ghost predicate CoversFile(ps: seq<Probe>, ino: nat) {
    Covers(ps, ino, Owner) && Covers(ps, ino, Group) && Covers(ps, ino, Other)
  }

  lemma CoversMore(ps: seq<Probe>, qs: seq<Probe>, ino: nat, cls: Class)
    requires ps <= qs && Covers(ps, ino, cls)
    ensures Covers(qs, ino, cls)
  {
    var i :| 0 <= i < |ps| && ps[i].ino == ino && ps[i].cls == cls && ps[i].mode == ForReading;
    assert qs[i] == ps[i];
    var j :| 0 <= j < |ps| && ps[j].ino == ino && ps[j].cls == cls && ps[j].mode == ForWriting;
    assert qs[j] == ps[j];
  }

  lemma CoversFileMore(ps: seq<Probe>, qs: seq<Probe>, ino: nat)
    requires ps <= qs && CoversFile(ps, ino)
    ensures CoversFile(qs, ino)
  {
    CoversMore(ps, qs, ino, Owner);
    CoversMore(ps, qs, ino, Group);
    CoversMore(ps, qs, ino, Other);
  }

  // ------------------------------------------------------------------------- one file

  lemma AccessKeeps(s: Setting, w: Walk, ino: nat, cls: Class, m: Mode)
    requires Tallied(s, w) && ino in s.files
    requires w.ids == Wanted(Stat(w.disk, ino), cls)
    requires Stable(s.k, s.pass) ==> Stat(w.disk, ino) == SeenAs(s.disk, s.pass, ino)
    ensures var n := TestAccess(s.k, w, ino, Stat(w.disk, ino), cls, m);
            && Tallied(s, n) && n.ids == w.ids && n.disk == w.disk && Total(n) == Total(w) + 1
            && |n.probes| == |w.probes| + 1 && w.probes <= n.probes
            && n.probes[|w.probes|].ino == ino && n.probes[|w.probes|].cls == cls && n.probes[|w.probes|].mode == m
  {
    hide Wanted, Expected, Stat, SeenAs, Stable, CountBad, CountSkipped, Bad;
    var n := TestAccess(s.k, w, ino, Stat(w.disk, ino), cls, m);
    BadIsUnexpected(n.probes[|w.probes|]);
    CountOne(w.probes, n.probes[|w.probes|]);
  }

  lemma ClassKeeps(s: Setting, w: Walk, ino: nat, cls: Class)
    requires Tallied(s, w) && ino in s.files && AtHome(w)
    requires Stable(s.k, s.pass) ==> Stat(w.disk, ino) == SeenAs(s.disk, s.pass, ino)
    ensures var n := TestClass(s.k, w, ino, Stat(w.disk, ino), cls);
            && Tallied(s, n) && AtHome(Home(n)) && n.disk == w.disk && Total(n) == Total(w) + 2
            && w.probes <= n.probes && Covers(n.probes, ino, cls)
  {
    hide Stat, SeenAs, Stable, TestAccess, Tallied;
    var st := Stat(w.disk, ino);
    var c := Wanted(st, cls);
    SwitchTakesEffect(w.ids, c.euid, c.egid);
    var a := w.(ids := SetIds(w.ids, c.euid, c.egid));
    assert Tallied(s, a) by { TalliedIds(s, w, a); }
    AccessKeeps(s, a, ino, cls, ForReading);
    var b := TestAccess(s.k, a, ino, st, cls, ForReading);
    AccessKeeps(s, b, ino, cls, ForWriting);
    var n := TestAccess(s.k, b, ino, st, cls, ForWriting);
    SwitchTakesEffect(n.ids, 0, 0);
    assert n.probes[|w.probes|] == b.probes[|w.probes|];
  }

  // The tally does not depend on the ids, the disk, or what is skipped.
  lemma TalliedIds(s: Setting, w: Walk, n: Walk)
    requires Tallied(s, w) && n.probes == w.probes && n.pass == w.pass && n.fail == w.fail
    ensures Tallied(s, n)
  {
  }

  lemma ClassesKeep(s: Setting, w: Walk, ino: nat)
    requires Tallied(s, w) && ino in s.files && AtHome(w)
    requires Stable(s.k, s.pass) ==> Stat(w.disk, ino) == SeenAs(s.disk, s.pass, ino)
    ensures var n := TestClasses(s.k, w, ino, Stat(w.disk, ino));
            && Tallied(s, n) && AtHome(n) && n.disk == w.disk && Total(n) == Total(w) + 6
            && w.probes <= n.probes && CoversFile(n.probes, ino)
  {
    hide Stat, SeenAs, Stable, TestClass, Tallied, Covers, SetIds;
    var st := Stat(w.disk, ino);
    var a := TestClass(s.k, w, ino, st, Owner);
    ClassKeeps(s, w, ino, Owner);
    TalliedIds(s, a, Home(a));
    var b := TestClass(s.k, Home(a), ino, st, Group);
    ClassKeeps(s, Home(a), ino, Group);
    TalliedIds(s, b, Home(b));
    var c := TestClass(s.k, Home(b), ino, st, Other);
    ClassKeeps(s, Home(b), ino, Other);
    TalliedIds(s, c, Home(c));
    CoversMore(a.probes, c.probes, ino, Owner);
    CoversMore(b.probes, c.probes, ino, Group);
  }

  // A pass that probes every file it is given.
  ghost predicate Thorough(s: Setting) {
    s.pass.AsIs? || (Restores(s.k) && Chowns(s.k) && s.files <= s.disk.Keys)
  }

  // What a piece of the walk from w to n keeps.
  ghost predicate Keeps(s: Setting, w: Walk, n: Walk) {
    && Tallied(s, n) && AtHome(n)
    && w.probes <= n.probes
    && (Stable(s.k, s.pass) ==> n.disk == s.disk)
  }

  ghost predicate Ready(s: Setting, w: Walk) {
    && Tallied(s, w) && AtHome(w)
    && (Stable(s.k, s.pass) ==> w.disk == s.disk)
  }

  lemma AsIsKeeps(s: Setting, w: Walk, ino: nat)
    requires Ready(s, w) && ino in s.files && s.pass.AsIs?
    ensures var n := TestAll(s.k, w, s.pass, ino, Stat(w.disk, ino));
            && Keeps(s, w, n) && CoversFile(n.probes, ino) && Total(n) == Total(w) + 6
  {
    hide Stat, Tallied, CoversFile, TestClasses;
    SwitchTakesEffect(w.ids, 0, 0);
    assert Home(w) == w;
    ClassesKeep(s, w, ino);
  }

  lemma ChownedKeeps(s: Setting, w: Walk, ino: nat)
    requires Ready(s, w) && ino in s.files && s.pass.As?
    ensures var n := TestAll(s.k, w, s.pass, ino, Stat(w.disk, ino));
            && Keeps(s, w, n) && (Thorough(s) ==> CoversFile(n.probes, ino))
  {
    hide Tallied, CoversFile, TestClasses;
    SwitchTakesEffect(w.ids, 0, 0);
    assert Home(w) == w;
    var answer := s.k.chowns(w.calls, ino);
    var b := Chown(w, ino, answer, s.pass.uid, s.pass.gid);
    TalliedIds(s, w, b);
    var st := Stat(b.disk, ino);
    if answer.Refused? {
    } else if st.uid != s.pass.uid || st.gid != s.pass.gid {
      TalliedIds(s, w, b.(skip := b.skip + 1));
    } else {
      ClassesKeep(s, b, ino);
      var c := TestClasses(s.k, b, ino, st);
      TalliedIds(s, c, Chown(c, ino, s.k.restores(c.calls, ino), Stat(w.disk, ino).uid, Stat(w.disk, ino).gid));
    }
  }

  // ---------------------------------------------------------------------- the tree

  // The files, and the numbers of files and links, that a walk can reach.
  function Files(n: Node): set<nat>
    decreases n, 0
  {
    match n
    case File(ino) => {ino}
    case Dir(true, entries) => FilesIn(entries)
    case _ => {}
  }

  function FilesIn(es: seq<Entry>): set<nat>
    decreases es, 1
  {
    if es == [] then {} else
      assert es[0].node < es[0];
      Files(es[0].node) + FilesIn(es[1..])
  }

  function Weight(n: Node): nat
    decreases n, 0
  {
    match n
    case File(_) => 6
    case Link => 1
    case Dir(true, entries) => WeightIn(entries)
    case _ => 0
  }

  function WeightIn(es: seq<Entry>): nat
    decreases es, 1
  {
    if es == [] then 0 else
      assert es[0].node < es[0];
      Weight(es[0].node) + WeightIn(es[1..])
  }

  // Only links are listed as links; any other entry type may be wrong or unknown.
  ghost predicate Accurate(n: Node)
    decreases n, 0
  {
    n.Dir? ==> AccurateIn(n.entries)
  }

  ghost predicate AccurateIn(es: seq<Entry>)
    decreases es, 1
  {
    es != [] ==>
      assert es[0].node < es[0];
      (es[0].dtype.DtLnk? ==> es[0].node.Link?) && Accurate(es[0].node) && AccurateIn(es[1..])
  }

  // Every file reached was probed in all six ways, and each counted once.
  ghost predicate Complete(s: Setting, w: Walk, n: Walk, files: set<nat>, weight: nat) {
    && (Thorough(s) ==> forall ino :: ino in files ==> CoversFile(n.probes, ino))
    && (s.pass.AsIs? ==> Total(n) == Total(w) + weight)
  }

  lemma FileKeeps(s: Setting, w: Walk, ino: nat)
    requires Ready(s, w) && ino in s.files
    ensures var n := TestAll(s.k, w, s.pass, ino, Stat(w.disk, ino));
            Keeps(s, w, n) && Complete(s, w, n, {ino}, 6)
  {
    hide TestAll, CoversFile, Ready, Keeps;
    if s.pass.AsIs? { AsIsKeeps(s, w, ino); } else { ChownedKeeps(s, w, ino); }
  }

  lemma CompleteJoin(s: Setting, w: Walk, m: Walk, n: Walk, f: set<nat>, x: nat, g: set<nat>, y: nat)
    requires Complete(s, w, m, f, x) && Complete(s, m, n, g, y) && m.probes <= n.probes
    ensures Complete(s, w, n, f + g, x + y)
  {
    hide CoversFile;
    if Thorough(s) {
      forall ino | ino in f ensures CoversFile(n.probes, ino) { CoversFileMore(m.probes, n.probes, ino); }
    }
  }

  lemma SkipKeeps(s: Setting, w: Walk)
    requires Ready(s, w)
    ensures Keeps(s, w, w.(skip := w.skip + 1)) && Complete(s, w, w.(skip := w.skip + 1), {}, 1)
    ensures Keeps(s, w, w) && Complete(s, w, w, {}, 0)
  {
    hide Tallied;
    TalliedIds(s, w, w.(skip := w.skip + 1));
  }

  lemma LeafKeeps(s: Setting, w: Walk, n: Node)
    requires Ready(s, w) && Files(n) <= s.files && !n.Dir?
    ensures var m := CheckLeaf(s.k, w, s.pass, n);
            Keeps(s, w, m) && Complete(s, w, m, Files(n), Weight(n))
  {
    hide Ready, Keeps, Complete, Stat, TestAll;
    match n
    case File(ino) => FileKeeps(s, w, ino);
    case _ => SkipKeeps(s, w);
  }

  lemma {:induction false} NodeKeeps(s: Setting, w: Walk, node: Node)
    requires Ready(s, w.(ids := Creds(0, 0, {}))) && w.ids.euid == 0 && w.ids.egid == 0
    requires Files(node) <= s.files
    ensures var n := CheckAccess(s.k, w, s.pass, node);
            Keeps(s, w, n) && (Accurate(node) ==> Complete(s, w, n, Files(node), Weight(node)))
    decreases node, 0
  {
    hide Ready, Keeps, Complete, Stat, TestAll, CheckLeaf, CheckEntries;
    var a := w.(ids := Creds(0, 0, {}));
    assert w.(ids := ResetGroups(w.ids)) == a;
    KeepsFrom(s, w, a, CheckAccess(s.k, w, s.pass, node), Files(node), Weight(node));
    if !node.Dir? {
      LeafKeeps(s, a, node);
    } else if node.scans {
      EntriesKeep(s, a, node.entries);
    } else {
      SkipKeeps(s, a);
    }
  }

  // Resetting the groups first makes no difference to what is kept.
  lemma KeepsFrom(s: Setting, w: Walk, a: Walk, n: Walk, files: set<nat>, weight: nat)
    requires a == w.(ids := a.ids)
    ensures Keeps(s, a, n) ==> Keeps(s, w, n)
    ensures Complete(s, a, n, files, weight) ==> Complete(s, w, n, files, weight)
  {
    hide Tallied, CoversFile;
  }

  lemma KeepsReady(s: Setting, w: Walk, n: Walk)
    requires Keeps(s, w, n)
    ensures Ready(s, n) && n.ids == Creds(0, 0, {}) && n.(ids := n.ids) == n
  {
    hide Tallied;
  }

  lemma KeepsJoin(s: Setting, w: Walk, m: Walk, n: Walk)
    requires Keeps(s, w, m) && Keeps(s, m, n)
    ensures Keeps(s, w, n) && m.probes <= n.probes
  {
    hide Tallied;
  }

  lemma EntryKeeps(s: Setting, w: Walk, e: Entry)
    requires Ready(s, w) && Files(e.node) <= s.files
    ensures var n := CheckEntry(s.k, w, s.pass, e);
            && Keeps(s, w, n)
            && ((e.dtype.DtLnk? ==> e.node.Link?) && Accurate(e.node)
                ==> Complete(s, w, n, Files(e.node), Weight(e.node)))
    decreases e, 0
  {
    hide Keeps, Complete, Stat, TestAll, CheckAccess, CheckLeaf, Tallied;
    assert w.(ids := Creds(0, 0, {})) == w;
    if e.dtype.DtLnk? {
      SkipKeeps(s, w);
    } else if e.dtype.DtDir? || e.node.Dir? {
      NodeKeeps(s, w, e.node);
    } else {
      LeafKeeps(s, w, e.node);
    }
  }

  lemma {:induction false} EntriesKeep(s: Setting, w: Walk, es: seq<Entry>)
    requires Ready(s, w) && FilesIn(es) <= s.files
    ensures var n := CheckEntries(s.k, w, s.pass, es);
            Keeps(s, w, n) && (AccurateIn(es) ==> Complete(s, w, n, FilesIn(es), WeightIn(es)))
    decreases es, 1
  {
    hide Ready, Keeps, Complete, CheckEntry, Files, Weight, Accurate;
    if es == [] {
      SkipKeeps(s, w);
    } else {
      var m, n := CheckEntry(s.k, w, s.pass, es[0]), CheckEntries(s.k, w, s.pass, es);
      EntryKeeps(s, w, es[0]);
      KeepsReady(s, w, m);
      EntriesKeep(s, m, es[1..]);
      KeepsJoin(s, w, m, n);
      if AccurateIn(es) {
        CompleteJoin(s, w, m, n, Files(es[0].node), Weight(es[0].node), FilesIn(es[1..]), WeightIn(es[1..]));
      }
    }
  }

  // ------------------------------------------------------------------ the main results

  // A walk about to start: root, nothing counted yet.
  ghost predicate Fresh(w: Walk) {
    w.ids.euid == 0 && w.ids.egid == 0 && w.pass == 0 && w.fail == 0 && w.probes == []
  }

  lemma FreshReady(s: Setting, w: Walk)
    requires Fresh(w) && w.disk == s.disk
    ensures Ready(s, w.(ids := Creds(0, 0, {})))
  {
  }

  // For any kernel, the walk's failures are exactly the probes granted although the mode bits of the
  // probed class deny them; every probe ran under exactly the ids intended; the walk ends as root.
  lemma FailuresAreFalseGrants(s: Setting, w: Walk, node: Node)
    requires Fresh(w) && w.disk == s.disk && Files(node) <= s.files
    ensures var n := CheckAccess(s.k, w, s.pass, node);
            && n.fail == CountBad(n.probes)
            && n.pass + n.fail + CountSkipped(n.probes) == |n.probes|
            && AtHome(n)
            && forall i :: 0 <= i < |n.probes| ==> Recorded(s, n.probes[i])
  {
    hide Recorded, Bad;
    FreshReady(s, w);
    NodeKeeps(s, w, node);
  }

  // After a chown pass every file has its original owner and group, if restoring never fails.
  lemma OwnershipRestored(s: Setting, w: Walk, node: Node)
    requires Fresh(w) && w.disk == s.disk && Files(node) <= s.files
    requires s.pass.As? ==> Restores(s.k)
    ensures CheckAccess(s.k, w, s.pass, node).disk == w.disk
  {
    hide Tallied, CheckAccess;
    FreshReady(s, w);
    NodeKeeps(s, w, node);
  }

  // One file on its own: it is left with another owner exactly when the chown worked, the restoring one
  // did not, and the test user and group are not its own.
  lemma {:induction false} LeftChowned(k: Kernel, w: Walk, uid: nat, gid: nat, ino: nat)
    requires AtHome(w) && ino in w.disk
    ensures var n := TestAll(k, w, As(uid, gid), ino, Stat(w.disk, ino));
            var b := Chown(w, ino, k.chowns(w.calls, ino), uid, gid);
            var c := TestClasses(k, b, ino, Stat(b.disk, ino));
            n.disk != w.disk <==> k.chowns(w.calls, ino).Done? && !k.restores(c.calls, ino).Done?
                                  && (uid != w.disk[ino].uid || gid != w.disk[ino].gid)
  {
    var b := Chown(w, ino, k.chowns(w.calls, ino), uid, gid);
    assert Home(w) == w;
    DiskKept(k, b, ino, Stat(b.disk, ino));
    hide TestClasses;
    assert b.disk == w.disk || b.disk[ino] != w.disk[ino];
  }

  lemma DiskKept(k: Kernel, w: Walk, ino: nat, st: Inode)
    ensures TestClasses(k, w, ino, st).disk == w.disk
  {
    hide TestClass;
    var a := TestClass(k, w, ino, st, Owner);
    var b := TestClass(k, Home(a), ino, st, Group);
    ClassDiskKept(k, w, ino, st, Owner);
    ClassDiskKept(k, Home(a), ino, st, Group);
    ClassDiskKept(k, Home(b), ino, st, Other);
  }

  lemma ClassDiskKept(k: Kernel, w: Walk, ino: nat, st: Inode, cls: Class)
    ensures TestClass(k, w, ino, st, cls).disk == w.disk
  {
    hide SetIds, Wanted, Expected, Stat;
  }

  // In a default pass the counters together grow by 6 for every file and 1 for every link, however
  // reliable the entry types are, as long as only links are listed as links.
  lemma {:induction false} CountersConserved(s: Setting, w: Walk, node: Node)
    requires Fresh(w) && w.disk == s.disk && Files(node) <= s.files
    requires s.pass.AsIs? && Accurate(node)
    ensures Total(CheckAccess(s.k, w, s.pass, node)) == Total(w) + Weight(node)
  {
    hide Tallied, CheckAccess, CoversFile;
    FreshReady(s, w);
    NodeKeeps(s, w, node);
  }

  // ---------------------------------------------------------------- right verdicts

  // Kernels that never give more than the standard allows, and those that give exactly that.
  ghost predicate Compliant(k: Kernel) {
    forall n: nat, ino: nat, i: Inode, c: Creds, m: Mode :: k.opens(n, ino, i, c, m).Granted? ==> Permits(i, c, m)
  }

  ghost predicate Exact(k: Kernel) {
    forall n: nat, ino: nat, i: Inode, c: Creds, m: Mode :: k.opens(n, ino, i, c, m).Granted? <==> Permits(i, c, m)
  }

  // The file lets one of the six probes in although the oracle expects it to be shut out.
  ghost predicate Misjudged(i: Inode) {
    exists cls, m :: Permits(i, Wanted(i, cls), m) && !Expected(i, cls, m)
  }

  // What lstat tells about it: only a file owned by 65534 or grouped 65533 can be misjudged.
  predicate MisjudgedFor(i: Inode, m: Mode) {
    if i.uid == 65534 then Bit(i.user, m) && !(Bit(i.group, m) && Bit(i.other, m))
    else i.gid == 65533 && Bit(i.group, m) && !Bit(i.other, m)
  }

  lemma MisjudgedByMode(i: Inode)
    ensures Misjudged(i) <==> MisjudgedFor(i, ForReading) || MisjudgedFor(i, ForWriting)
    ensures i.uid != 65534 && i.gid != 65533 ==> !Misjudged(i)
  {
    forall m: Mode ensures MisjudgedFor(i, m) <==> exists cls :: Permits(i, Wanted(i, cls), m) && !Expected(i, cls, m) {
      if MisjudgedFor(i, m) {
        var cls := if i.uid == UID_NOBODY && !Bit(i.group, m) then Group else Other;
        assert Permits(i, Wanted(i, cls), m) && !Expected(i, cls, m);
      }
    }
  }

  // Under a compliant kernel no walk ever reports a failure, unless a file is misjudged.
  lemma NoFalseFailures(s: Setting, w: Walk, node: Node)
    requires Fresh(w) && w.disk == s.disk && Files(node) == s.files && Stable(s.k, s.pass) && Compliant(s.k)
    requires forall ino :: ino in Files(node) ==> !Misjudged(SeenAs(s.disk, s.pass, ino))
    ensures CheckAccess(s.k, w, s.pass, node).fail == 0
  {
    hide CheckAccess, CountBad, CountSkipped, Permits, Expected, Wanted, Bad;
    FailuresAreFalseGrants(s, w, node);
    var ps := CheckAccess(s.k, w, s.pass, node).probes;
    forall i | 0 <= i < |ps| ensures !Bad(ps[i]) {
      assert Recorded(s, ps[i]);
      BadIsUnexpected(ps[i]);
    }
    NoneBad(ps);
  }

  // And the condition is exact: under a kernel that grants what the standard allows, a pass that probes
  // every file reports no failure if and only if no file is misjudged.
  lemma {:induction false} FailuresExactlyWhenMisjudged(s: Setting, w: Walk, node: Node)
    requires Fresh(w) && w.disk == s.disk && Files(node) == s.files && Thorough(s) && Accurate(node) && Exact(s.k)
    ensures CheckAccess(s.k, w, s.pass, node).fail == 0
       <==> forall ino :: ino in Files(node) ==> !Misjudged(SeenAs(s.disk, s.pass, ino))
  {
    hide CheckAccess, CountBad, CountSkipped, SeenAs, Misjudged, CoversFile, Recorded, Bad, Exact, Tallied, Stable;
    FailuresAreFalseGrants(s, w, node);
    var n := CheckAccess(s.k, w, s.pass, node);
    NoneBad(n.probes);
    FreshReady(s, w);
    NodeKeeps(s, w, node);
    ExactIsCompliant(s);
    forall ino | ino in Files(node) && Misjudged(SeenAs(s.disk, s.pass, ino))
      ensures n.fail != 0
    {
      MisjudgedShows(s, n.probes, ino);
    }
    if forall ino :: ino in Files(node) ==> !Misjudged(SeenAs(s.disk, s.pass, ino)) {
      NoFalseFailures(s, w, node);
    }
  }

  lemma ExactIsCompliant(s: Setting)
    ensures Exact(s.k) ==> Compliant(s.k)
    ensures Thorough(s) ==> Stable(s.k, s.pass)
  {
    hide Permits;
  }

  // A covered file that is misjudged has a probe that shows it.
  lemma MisjudgedShows(s: Setting, ps: seq<Probe>, ino: nat)
    requires Exact(s.k) && Stable(s.k, s.pass) && CoversFile(ps, ino) && Misjudged(SeenAs(s.disk, s.pass, ino))
    requires forall i :: 0 <= i < |ps| ==> Recorded(s, ps[i])
    ensures exists i :: 0 <= i < |ps| && Bad(ps[i])
  {
    hide Permits, Expected, Wanted, SeenAs, Stable, Bad;
    var seen := SeenAs(s.disk, s.pass, ino);
    var cls, m :| Permits(seen, Wanted(seen, cls), m) && !Expected(seen, cls, m);
    assert Covers(ps, ino, cls);
    var i :| 0 <= i < |ps| && ps[i].ino == ino && ps[i].cls == cls && ps[i].mode == m;
    assert Recorded(s, ps[i]);
    assert ps[i].inode == seen;
    BadIsUnexpected(ps[i]);
    assert Bad(ps[i]);
  }

  // ------------------------------------------------------------------ both passes

  // main: pass and fail start over for the second pass, skip does not.
  function BothPasses(k: Kernel, w: Walk, node: Node, uid: nat, gid: nat): (Walk, Walk) {
    var first := CheckAccess(k, Restart(w), AsIs, node);
    (first, CheckAccess(k, Restart(first), As(uid, gid), node))
  }

  function Restart(w: Walk): Walk { w.(pass := 0, fail := 0, probes := []) }

  lemma BothPassesClean(k: Kernel, w: Walk, node: Node, uid: nat, gid: nat)
    requires w.ids.euid == 0 && w.ids.egid == 0 && Compliant(k) && Restores(k)
    requires uid != 65534 && gid != 65533
    requires forall ino :: ino in Files(node) ==> Stat(w.disk, ino).uid != 65534 && Stat(w.disk, ino).gid != 65533
    ensures BothPasses(k, w, node, uid, gid).0.fail == 0 && BothPasses(k, w, node, uid, gid).1.fail == 0
    ensures BothPasses(k, w, node, uid, gid).1.disk == w.disk
  {
    hide CheckAccess, Stat, Misjudged, Compliant, Restores, Expected;
    var s, t := Setting(k, AsIs, w.disk, Files(node)), Setting(k, As(uid, gid), w.disk, Files(node));
    forall ino: nat | ino in Files(node)
      ensures !Misjudged(SeenAs(w.disk, AsIs, ino)) && !Misjudged(SeenAs(w.disk, As(uid, gid), ino))
    {
      MisjudgedByMode(SeenAs(w.disk, AsIs, ino));
      MisjudgedByMode(SeenAs(w.disk, As(uid, gid), ino));
    }
    var first := CheckAccess(k, Restart(w), AsIs, node);
    NoFalseFailures(s, Restart(w), node);
    OwnershipRestored(s, Restart(w), node);
    FailuresAreFalseGrants(s, Restart(w), node);
    NoFalseFailures(t, Restart(first), node);
    OwnershipRestored(t, Restart(first), node);
  }
}
