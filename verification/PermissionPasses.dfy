/** What the two passes of the permission walk have in common and what tells them apart: the first probes
    every file as it is, the second as owned by the test user and group. */
module PermissionPasses {
  import opened PermissionWalk
  import opened PermissionLaws

  // The file as the second pass is to see it.
  function OwnedBy(i: Inode, uid: nat, gid: nat): Inode { i.(uid := uid, gid := gid) }

  // Probes of files of the tree, each on the file as look shows it, without supplementary groups, with the
  // file's owner, its group, or neither for the probed class and nobody's ids otherwise; answered by the
  // kernel on just that.
  ghost predicate ProbesSee(k: Kernel, node: Node, look: nat -> Inode, probes: seq<Probe>) {
    forall i :: 0 <= i < |probes| ==>
      var p := probes[i];
      && p.ino in Files(node)
      && p.inode == look(p.ino)
      && p.creds.groups == {}
      && p.creds.euid == (if p.cls == Owner then p.inode.uid else 65534)
      && p.creds.egid == (if p.cls == Group then p.inode.gid else 65533)
      && p.answer == k.opens(p.call, p.ino, p.inode, p.creds, p.mode)
  }

  function AsItIs(disk: map<nat, Inode>): nat -> Inode { (ino: nat) => Stat(disk, ino) }
  function AsTestUser(disk: map<nat, Inode>, uid: nat, gid: nat): nat -> Inode {
    (ino: nat) => OwnedBy(Stat(disk, ino), uid, gid)
  }

  lemma RecordedSee(s: Setting, node: Node, look: nat -> Inode, probes: seq<Probe>)
    requires s.files == Files(node) && Stable(s.k, s.pass)
    requires forall ino :: look(ino) == SeenAs(s.disk, s.pass, ino)
    requires forall i :: 0 <= i < |probes| ==> Recorded(s, probes[i])
    ensures ProbesSee(s.k, node, look, probes)
  {
    hide SeenAs, Stable, Files;
    forall i | 0 <= i < |probes| ensures probes[i].ino in Files(node) && probes[i].inode == look(probes[i].ino) {
      assert Recorded(s, probes[i]);
    }
  }

  // The first pass probes the files as they are and changes nothing. If restoring works, the second probes
  // every file as owned by the test user and group, and leaves the disk as it was.
  lemma PassesSee(k: Kernel, w: Walk, node: Node, uid: nat, gid: nat)
    requires w.ids.euid == 0 && w.ids.egid == 0
    ensures var (first, second) := BothPasses(k, w, node, uid, gid);
            && ProbesSee(k, node, AsItIs(w.disk), first.probes) && first.disk == w.disk
            && (Restores(k) ==>
                  ProbesSee(k, node, AsTestUser(w.disk, uid, gid), second.probes) && second.disk == w.disk)
  {
    hide CheckAccess, Recorded, Restores, Files, ProbesSee;
    var s, t := Setting(k, AsIs, w.disk, Files(node)), Setting(k, As(uid, gid), w.disk, Files(node));
    var first := CheckAccess(k, Restart(w), AsIs, node);
    FailuresAreFalseGrants(s, Restart(w), node);
    OwnershipRestored(s, Restart(w), node);
    RecordedSee(s, node, AsItIs(w.disk), first.probes);
    if Restores(k) {
      FailuresAreFalseGrants(t, Restart(first), node);
      OwnershipRestored(t, Restart(first), node);
      RecordedSee(t, node, AsTestUser(w.disk, uid, gid), CheckAccess(k, Restart(first), As(uid, gid), node).probes);
    }
  }

  // Under a kernel that follows the standard, whose chowns work, each pass reports no failure if and only
  // if no file is misjudged as that pass shows it.
  lemma PassesFailExactly(k: Kernel, w: Walk, node: Node, uid: nat, gid: nat)
    requires w.ids.euid == 0 && w.ids.egid == 0 && Exact(k) && Restores(k) && Chowns(k)
    requires Accurate(node) && Files(node) <= w.disk.Keys
    ensures var (first, second) := BothPasses(k, w, node, uid, gid);
            && (first.fail == 0 <==> forall ino :: ino in Files(node) ==> !Misjudged(Stat(w.disk, ino)))
            && (second.fail == 0
                <==> forall ino :: ino in Files(node) ==> !Misjudged(OwnedBy(Stat(w.disk, ino), uid, gid)))
  {
    hide CheckAccess, Restores, Chowns, Files, Exact, Misjudged, Stat, Accurate;
    var s, t := Setting(k, AsIs, w.disk, Files(node)), Setting(k, As(uid, gid), w.disk, Files(node));
    var first := CheckAccess(k, Restart(w), AsIs, node);
    OwnershipRestored(s, Restart(w), node);
    FailuresAreFalseGrants(s, Restart(w), node);
    FailuresExactlyWhenMisjudged(s, Restart(w), node);
    FailuresExactlyWhenMisjudged(t, Restart(first), node);
    assert forall ino :: SeenAs(w.disk, AsIs, ino) == Stat(w.disk, ino);
    assert forall ino :: SeenAs(w.disk, As(uid, gid), ino) == OwnedBy(Stat(w.disk, ino), uid, gid);
  }

  // And each pass probes every file in all six ways.
  lemma PassesCover(k: Kernel, w: Walk, node: Node, uid: nat, gid: nat, ino: nat)
    requires w.ids.euid == 0 && w.ids.egid == 0 && Accurate(node) && ino in Files(node)
    ensures CoversFile(BothPasses(k, w, node, uid, gid).0.probes, ino)
    ensures Restores(k) && Chowns(k) && Files(node) <= w.disk.Keys ==>
              CoversFile(BothPasses(k, w, node, uid, gid).1.probes, ino)
  {
    hide CheckAccess, Restores, Chowns, Files, CoversFile, Accurate;
    var s, t := Setting(k, AsIs, w.disk, Files(node)), Setting(k, As(uid, gid), w.disk, Files(node));
    var first := CheckAccess(k, Restart(w), AsIs, node);
    FreshReady(s, Restart(w));
    NodeKeeps(s, Restart(w), node);
    if Restores(k) && Chowns(k) && Files(node) <= w.disk.Keys {
      FreshReady(t, Restart(first));
      NodeKeeps(t, Restart(first), node);
    }
  }

  // ------------------------------------------------------------ what the second pass counts

  // The six probes of a file, on the counters.
  lemma ClassesCount(k: Kernel, w: Walk, ino: nat, st: Inode)
    ensures var n := TestClasses(k, w, ino, st);
            Total(n) == Total(w) + 6 && |n.probes| == |w.probes| + 6 && n.calls == w.calls + 6 && n.disk == w.disk
  {
    hide TestClass;
    var a := TestClass(k, w, ino, st, Owner);
    var b := TestClass(k, Home(a), ino, st, Group);
    ClassCounts(k, w, ino, st, Owner);
    ClassCounts(k, Home(a), ino, st, Group);
    ClassCounts(k, Home(b), ino, st, Other);
  }

  lemma ClassCounts(k: Kernel, w: Walk, ino: nat, st: Inode, cls: Class)
    ensures var n := TestClass(k, w, ino, st, cls);
            Total(n) == Total(w) + 2 && |n.probes| == |w.probes| + 2 && n.calls == w.calls + 2 && n.disk == w.disk
  {
    hide SetIds, Wanted, Expected, Stat;
  }

  // One file in the second pass: nothing is counted when its chown is refused; it is skipped once when
  // the chown is said to have worked and has not; else it is probed six times and chowned back.
  lemma ChownedFileCounts(k: Kernel, w: Walk, uid: nat, gid: nat, ino: nat, orig: Inode)
    requires ino in w.disk
    ensures var n, answer := TestAll(k, w, As(uid, gid), ino, orig), k.chowns(w.calls, ino);
            var owned := answer.Done? || (w.disk[ino].uid == uid && w.disk[ino].gid == gid);
            && (answer.Refused? ==>
                  n.probes == w.probes && n.calls == w.calls + 1
                  && n.pass == w.pass && n.fail == w.fail && n.skip == w.skip)
            && (!answer.Refused? && !owned ==>
                  n.probes == w.probes && n.calls == w.calls + 1
                  && n.pass == w.pass && n.fail == w.fail && n.skip == w.skip + 1)
            && (!answer.Refused? && owned ==>
                  |n.probes| == |w.probes| + 6 && n.calls == w.calls + 8 && Total(n) == Total(w) + 6)
  {
    hide TestClasses;
    var b := Chown(Home(w), ino, k.chowns(w.calls, ino), uid, gid);
    ClassesCount(k, b, ino, Stat(b.disk, ino));
  }

  // How many files and links a walk can reach.
  function FileCount(n: Node): nat
    decreases n, 0
  {
    match n
    case File(_) => 1
    case Dir(true, entries) => FileCountIn(entries)
    case _ => 0
  }

  function FileCountIn(es: seq<Entry>): nat
    decreases es, 1
  {
    if es == [] then 0 else
      assert es[0].node < es[0];
      FileCount(es[0].node) + FileCountIn(es[1..])
  }

  function LinkCount(n: Node): nat
    decreases n, 0
  {
    match n
    case Link => 1
    case Dir(true, entries) => LinkCountIn(entries)
    case _ => 0
  }

  function LinkCountIn(es: seq<Entry>): nat
    decreases es, 1
  {
    if es == [] then 0 else
      assert es[0].node < es[0];
      LinkCount(es[0].node) + LinkCountIn(es[1..])
  }

  ghost predicate NeverRefuses(k: Kernel) { forall n: nat, ino: nat :: !k.chowns(n, ino).Refused? }

  // From w to n: probed files were probed six times, unmoved ones skipped once, links skipped once, and
  // nothing else was counted; with no chown refused that is every file.
  ghost predicate Shared(k: Kernel, w: Walk, n: Walk, files: nat, links: nat, probed: nat, unmoved: nat) {
    && |n.probes| == |w.probes| + 6 * probed
    && Total(n) == Total(w) + 6 * probed + unmoved + links
    && n.calls == w.calls + 8 * probed + (files - probed)
    && probed + unmoved <= files
    && (NeverRefuses(k) ==> probed + unmoved == files)
  }

  lemma {:induction false} NodeShares(k: Kernel, w: Walk, uid: nat, gid: nat, node: Node)
    returns (probed: nat, unmoved: nat)
    requires Accurate(node)
    ensures Shared(k, w, CheckAccess(k, w, As(uid, gid), node), FileCount(node), LinkCount(node), probed, unmoved)
    decreases node, 0
  {
    hide TestAll, CheckEntries, NeverRefuses;
    var a := w.(ids := ResetGroups(w.ids));
    if node.Dir? && node.scans {
      probed, unmoved := EntriesShare(k, a, uid, gid, node.entries);
    } else {
      probed, unmoved := LeafShares(k, a, uid, gid, node);
    }
  }

  lemma LeafShares(k: Kernel, w: Walk, uid: nat, gid: nat, node: Node) returns (probed: nat, unmoved: nat)
    requires node.Dir? ==> !node.scans
    ensures Shared(k, w, CheckLeaf(k, w, As(uid, gid), node), FileCount(node), LinkCount(node), probed, unmoved)
  {
    hide TestClasses;
    probed, unmoved := 0, 0;
    if node.File? {
      var b := Chown(Home(w), node.ino, k.chowns(w.calls, node.ino), uid, gid);
      ClassesCount(k, b, node.ino, Stat(b.disk, node.ino));
      if !k.chowns(w.calls, node.ino).Refused? {
        var st := Stat(b.disk, node.ino);
        if st.uid == uid && st.gid == gid { probed := 1; } else { unmoved := 1; }
      }
    }
  }

  lemma {:induction false} EntriesShare(k: Kernel, w: Walk, uid: nat, gid: nat, es: seq<Entry>)
    returns (probed: nat, unmoved: nat)
    requires AccurateIn(es)
    ensures Shared(k, w, CheckEntries(k, w, As(uid, gid), es), FileCountIn(es), LinkCountIn(es), probed, unmoved)
    decreases es, 1
  {
    hide TestAll, CheckAccess, CheckLeaf, NeverRefuses, FileCount, LinkCount;
    probed, unmoved := 0, 0;
    if es != [] {
      var e, m := es[0], CheckEntry(k, w, As(uid, gid), es[0]);
      assert e.node < e;
      var p, u := EntryShares(k, w, uid, gid, e);
      var q, v := EntriesShare(k, m, uid, gid, es[1..]);
      probed, unmoved := p + q, u + v;
    }
  }

  lemma EntryShares(k: Kernel, w: Walk, uid: nat, gid: nat, e: Entry) returns (probed: nat, unmoved: nat)
    requires (e.dtype.DtLnk? ==> e.node.Link?) && Accurate(e.node)
    ensures Shared(k, w, CheckEntry(k, w, As(uid, gid), e), FileCount(e.node), LinkCount(e.node), probed, unmoved)
    decreases e, 0
  {
    hide TestAll, CheckAccess, NeverRefuses;
    if e.dtype.DtLnk? {
      probed, unmoved := 0, 0;
    } else if e.dtype.DtDir? || e.node.Dir? {
      probed, unmoved := NodeShares(k, w, uid, gid, e.node);
    } else {
      probed, unmoved := LeafShares(k, w, uid, gid, e.node);
    }
  }

  // What was skipped in the end: the skip counter does not start over, so it has every link twice, every
  // file that the second pass could not own, and the probes of both passes that met no device or a busy one.
  lemma SkipsAddUp(k: Kernel, w: Walk, node: Node, uid: nat, gid: nat) returns (probed: nat, unmoved: nat)
    requires w.ids.euid == 0 && w.ids.egid == 0 && Accurate(node)
    ensures var (first, second) := BothPasses(k, w, node, uid, gid);
            && second.skip == w.skip + 2 * LinkCount(node) + unmoved
                              + CountSkipped(first.probes) + CountSkipped(second.probes)
            && |first.probes| == 6 * FileCount(node) && |second.probes| == 6 * probed
            && (NeverRefuses(k) ==> probed + unmoved == FileCount(node))
  {
    hide CheckAccess, Restores, Files, Accurate, Recorded, CountSkipped, CountBad, FileCount, LinkCount, NeverRefuses;
    var s, t := Setting(k, AsIs, w.disk, Files(node)), Setting(k, As(uid, gid), w.disk, Files(node));
    var first := CheckAccess(k, Restart(w), AsIs, node);
    OwnershipRestored(s, Restart(w), node);
    FailuresAreFalseGrants(s, Restart(w), node);
    CountersConserved(s, Restart(w), node);
    WeightCounts(node);
    FirstProbes(k, Restart(w), node);
    probed, unmoved := NodeShares(k, Restart(first), uid, gid, node);
    FailuresAreFalseGrants(t, Restart(first), node);
  }

  lemma {:induction false} WeightCounts(node: Node)
    ensures Weight(node) == 6 * FileCount(node) + LinkCount(node)
    decreases node, 0
  {
    if node.Dir? && node.scans { WeightCountsIn(node.entries); }
  }

  lemma {:induction false} WeightCountsIn(es: seq<Entry>)
    ensures WeightIn(es) == 6 * FileCountIn(es) + LinkCountIn(es)
    decreases es, 1
  {
    hide Weight, FileCount, LinkCount;
    if es != [] {
      assert es[0].node < es[0];
      WeightCounts(es[0].node);
      WeightCountsIn(es[1..]);
    }
  }

  // The first pass probes each file it reaches six times.
  lemma {:induction false} FirstProbes(k: Kernel, w: Walk, node: Node)
    requires Accurate(node)
    ensures |CheckAccess(k, w, AsIs, node).probes| == |w.probes| + 6 * FileCount(node)
    decreases node, 0
  {
    hide TestClasses, CheckEntries;
    var a := w.(ids := ResetGroups(w.ids));
    if node.Dir? && node.scans {
      FirstProbesIn(k, a, node.entries);
    } else {
      FirstLeafProbes(k, a, node);
    }
  }

  lemma FirstLeafProbes(k: Kernel, w: Walk, node: Node)
    requires node.Dir? ==> !node.scans
    ensures |CheckLeaf(k, w, AsIs, node).probes| == |w.probes| + 6 * FileCount(node)
  {
    hide TestClasses;
    if node.File? { ClassesCount(k, Home(w), node.ino, Stat(w.disk, node.ino)); }
  }

  lemma {:induction false} FirstProbesIn(k: Kernel, w: Walk, es: seq<Entry>)
    requires AccurateIn(es)
    ensures |CheckEntries(k, w, AsIs, es).probes| == |w.probes| + 6 * FileCountIn(es)
    decreases es, 1
  {
    hide TestAll, CheckAccess, CheckLeaf, FileCount;
    if es != [] {
      assert es[0].node < es[0];
      FirstEntryProbes(k, w, es[0]);
      FirstProbesIn(k, CheckEntry(k, w, AsIs, es[0]), es[1..]);
    }
  }

  lemma FirstEntryProbes(k: Kernel, w: Walk, e: Entry)
    requires (e.dtype.DtLnk? ==> e.node.Link?) && Accurate(e.node)
    ensures |CheckEntry(k, w, AsIs, e).probes| == |w.probes| + 6 * FileCount(e.node)
    decreases e, 0
  {
    hide TestAll, CheckAccess;
    if e.dtype.DtLnk? {
    } else if e.dtype.DtDir? || e.node.Dir? {
      FirstProbes(k, w, e.node);
    } else {
      FirstLeafProbes(k, w, e.node);
    }
  }
}
