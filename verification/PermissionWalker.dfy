/** The walk as the program makes it: global counters, effective ids that are switched, ownership that
    is changed and restored. Each method is its function of PermissionWalk. */
module PermissionWalker {
  import opened PermissionWalk
  import opened PermissionLaws
  import opened PermissionPasses

  class Walker {
    const kernel: Kernel
    var test: Pass
    var disk: map<nat, Inode>
    var euid: nat
    var egid: nat
    var groups: set<nat>
    var calls: nat
    var totalpass: nat
    var totalfail: nat
    var totalskip: nat
    var probes: seq<Probe>

    function View(): Walk
      reads this
    {
      Walk(disk, Creds(euid, egid, groups), calls, totalpass, totalfail, totalskip, probes)
    }

    // A process started by root.
    constructor (kernel: Kernel, disk: map<nat, Inode>, groups: set<nat>)
      ensures this.kernel == kernel
      ensures View() == Walk(disk, Creds(0, 0, groups), 0, 0, 0, 0, [])
    {
      this.kernel, this.disk, this.groups := kernel, disk, groups;
      test, euid, egid, calls, totalpass, totalfail, totalskip, probes := AsIs, 0, 0, 0, 0, 0, 0, [];
    }

    // seteuid and setegid are refused to a process that is neither root nor asking for a real or saved id.
    method SetIdsOfProcess(uid: nat, gid: nat)
      modifies `euid, `egid
      ensures View() == old(View()).(ids := SetIds(old(View().ids), uid, gid))
    {
      if euid == 0 || gid == 0 {
        egid := gid;
      }
      if euid == 0 || uid == 0 {
        euid := uid;
      }
    }

    method TestAccessOf(ino: nat, st: Inode, cls: Class, m: Mode, expected: bool)
      requires expected == Expected(st, cls, m)
      modifies `calls, `totalpass, `totalfail, `totalskip, `probes
      ensures View() == TestAccess(kernel, old(View()), ino, st, cls, m)
    {
      var answer := kernel.opens(calls, ino, Stat(disk, ino), Creds(euid, egid, groups), m);
      probes := probes + [Probe(calls, ino, st, cls, m, Creds(euid, egid, groups), answer)];
      calls := calls + 1;
      if answer.NoDevice? {
        totalskip := totalskip + 1;
      } else if answer.Busy? {
        totalskip := totalskip + 1;
      } else if expected {
        totalpass := totalpass + 1;
      } else if !expected && answer.Denied? {
        totalpass := totalpass + 1;
      } else {
        totalfail := totalfail + 1;
      }
    }

    method ChownFile(ino: nat, answer: Chowned, uid: nat, gid: nat)
      modifies `calls, `disk
      ensures View() == Chown(old(View()), ino, answer, uid, gid)
    {
      calls := calls + 1;
      if answer.Done? && ino in disk {
        disk := disk[ino := disk[ino].(uid := uid, gid := gid)];
      }
    }

    method ProbeOwner(ino: nat, st: Inode)
      modifies `euid, `egid, `calls, `totalpass, `totalfail, `totalskip, `probes
      ensures View() == TestClass(kernel, old(View()), ino, st, Owner)
    {
      hide TestAccess, SetIds, Stat;
      SetIdsOfProcess(st.uid, GID_NOBODY);
      TestAccessOf(ino, st, Owner, ForReading, st.user.r || st.uid == 0);
      TestAccessOf(ino, st, Owner, ForWriting, st.user.w || st.uid == 0);
    }

    method ProbeGroup(ino: nat, st: Inode)
      modifies `euid, `egid, `calls, `totalpass, `totalfail, `totalskip, `probes
      ensures View() == TestClass(kernel, old(View()), ino, st, Group)
    {
      hide TestAccess, SetIds, Stat;
      SetIdsOfProcess(UID_NOBODY, st.gid);
      TestAccessOf(ino, st, Group, ForReading, st.group.r);
      TestAccessOf(ino, st, Group, ForWriting, st.group.w);
    }

    method ProbeOther(ino: nat, st: Inode)
      modifies `euid, `egid, `calls, `totalpass, `totalfail, `totalskip, `probes
      ensures View() == TestClass(kernel, old(View()), ino, st, Other)
    {
      hide TestAccess, SetIds, Stat;
      SetIdsOfProcess(UID_NOBODY, GID_NOBODY);
      TestAccessOf(ino, st, Other, ForReading, st.other.r);
      TestAccessOf(ino, st, Other, ForWriting, st.other.w);
    }

    // orig is what lstat showed before.
    method TestAllOf(ino: nat, orig: Inode)
      modifies this
      ensures View() == TestAll(kernel, old(View()), test, ino, orig) && test == old(test)
    {
      hide TestClass, SetIds, Stat;
      SetIdsOfProcess(0, 0);
      if test.As? {
        var answer := kernel.chowns(calls, ino);
        ChownFile(ino, answer, test.uid, test.gid);
        if answer.Refused? {
          return;
        }
      }
      var st := Stat(disk, ino);
      if test.As? && (st.uid != test.uid || st.gid != test.gid) {
        totalskip := totalskip + 1;
        return;
      }
      ProbeOwner(ino, st);
      SetIdsOfProcess(0, 0);
      ProbeGroup(ino, st);
      SetIdsOfProcess(0, 0);
      ProbeOther(ino, st);
      SetIdsOfProcess(0, 0);
      if test.As? {
        ChownFile(ino, kernel.restores(calls, ino), orig.uid, orig.gid);
      }
    }

    method CheckAccessOf(node: Node)
      modifies this
      ensures View() == CheckAccess(kernel, old(View()), test, node) && test == old(test)
      decreases node
    {
      hide TestAll, Stat;
      if euid == 0 {
        groups := {};
      }
      match node
      case Missing => return;
      case Link => totalskip := totalskip + 1;
      case File(ino) => TestAllOf(ino, Stat(disk, ino));
      case Dir(scans, entries) =>
        if !scans {
          return;
        }
        ghost var start := View();
        var i := 0;
        while i < |entries|
          invariant i <= |entries| && test == old(test)
          invariant CheckEntries(kernel, View(), test, entries[i..]) == CheckEntries(kernel, start, test, entries)
        {
          hide CheckEntry;
          assert entries[i..][0] == entries[i] && entries[i..][1..] == entries[i + 1..];
          var e := entries[i];
          assert e.node < node;
          CheckEntryOf(e);
          i := i + 1;
        }
    }

    method CheckEntryOf(e: Entry)
      modifies this
      ensures View() == CheckEntry(kernel, old(View()), test, e) && test == old(test)
      decreases e
    {
      hide TestAll, Stat, CheckAccess;
      if e.dtype.DtLnk? {
        totalskip := totalskip + 1;
        return;
      }
      if e.dtype.DtDir? {
        CheckAccessOf(e.node);
        return;
      }
      match e.node
      case Missing =>
      case Link => totalskip := totalskip + 1;
      case Dir(_, _) => CheckAccessOf(e.node);
      case File(ino) => TestAllOf(ino, Stat(disk, ino));
    }

    // main: first the files as they are, then chowned to the test user and group.
    method RunBoth(node: Node, uid: nat, gid: nat) returns (failedFirst: nat, failedSecond: nat)
      modifies this
      ensures var (first, second) := BothPasses(kernel, old(View()), node, uid, gid);
              failedFirst == first.fail && failedSecond == second.fail && View() == second
      ensures old(euid) == 0 && old(egid) == 0 && Restores(kernel) ==>
                disk == old(disk) && ProbesSee(kernel, node, AsTestUser(old(disk), uid, gid), probes)
    {
      hide CheckAccess, ProbesSee, AsTestUser, Restores;
      if euid == 0 && egid == 0 { PassesSee(kernel, View(), node, uid, gid); }
      totalpass, totalfail, test, probes := 0, 0, AsIs, [];
      CheckAccessOf(node);
      failedFirst := totalfail;
      totalpass, totalfail, test, probes := 0, 0, As(uid, gid), [];
      CheckAccessOf(node);
      failedSecond := totalfail;
    }
  }
}
