/** The lease lock of the control server: one decimal time in a file, overwritten in place. */
module LockFile {
  import opened CStrings
  import opened Text
  import opened ControlMessages
  import opened Wrappers

  const DIGITS := "0123456789"
  const TWO32: nat := 0x1_0000_0000
  const TWO31: nat := 0x8000_0000

  type uint32 = x: int | 0 <= x < TWO32

  // ------------------------------------------------------------- "%ld"

  function Digits(n: nat): (s: string)
    ensures |s| > 0
  {
    if n < 10 then [DIGITS[n]] else Digits(n / 10) + [DIGITS[n % 10]]
  }

  predicate IsDigit(c: char) { '0' <= c <= '9' }

  // The number a run of digits spells.
  function Num(s: string): nat
    requires forall i :: 0 <= i < |s| ==> IsDigit(s[i])
  {
    if s == [] then 0 else
      assert IsDigit(s[|s| - 1]);
      10 * Num(s[..|s| - 1]) + (s[|s| - 1] as int - '0' as int)
  }

  lemma {:induction false} NumOfDigits(n: nat)
    ensures forall i :: 0 <= i < |Digits(n)| ==> IsDigit(Digits(n)[i])
    ensures Num(Digits(n)) == n
  {
    DigitValue(n % 10);
    if n < 10 {
      assert Num([]) == 0 && Digits(n)[..0] == [];
    } else {
      hide DIGITS;
      NumOfDigits(n / 10);
      var front := Digits(n / 10);
      assert Digits(n)[..|front|] == front;
    }
  }

  lemma DigitValue(d: nat)
    requires d < 10
    ensures IsDigit(DIGITS[d]) && DIGITS[d] as int - '0' as int == d
  {
  }

  lemma {:induction false} DigitsGrow(m: nat, n: nat)
    requires m <= n
    ensures |Digits(m)| <= |Digits(n)|
  {
    if n >= 10 && m >= 10 { DigitsGrow(m / 10, n / 10); }
  }

  // fscanf("%ld"): white space skipped, an optional sign, digits.
  datatype Scanned = Value(n: int) | Eof | Mismatch

  function DigitRun(s: string): (n: nat)
    ensures n <= |s| && forall i :: 0 <= i < n ==> IsDigit(s[i])
    ensures n < |s| ==> !IsDigit(s[n])
  {
    if s == [] || !IsDigit(s[0]) then 0 else 1 + DigitRun(s[1..])
  }

  lemma DigitRunIs(s: string, n: nat)
    requires n <= |s| && forall i :: 0 <= i < n ==> IsDigit(s[i])
    requires n < |s| ==> !IsDigit(s[n])
    ensures DigitRun(s) == n
  {
  }

  function Scan(content: string): Scanned {
    var s := content[Spn(content, WHITE)..];
    if s == [] then Eof
    else
      var u := if s[0] == '-' || s[0] == '+' then s[1..] else s;
      var k := DigitRun(u);
      if k == 0 then Mismatch
      else
        var n: int := Num(u[..k]);
        Value(if s[0] == '-' then -n else n)
  }

  // Reading back what was printed, whatever non-digit follows it.
  lemma ScanDigits(n: nat, more: string)
    requires more != "" ==> !IsDigit(more[0])
    ensures Scan(Digits(n) + more) == Value(n)
  {
    hide Digits, Num, Spn, DigitRun;
    NumOfDigits(n);
    var d := Digits(n);
    var s := d + more;
    assert IsDigit(s[0]) by { assert s[0] == d[0]; }
    SpnIs(s, WHITE, 0);
    assert s[0..] == s;
    assert forall i :: 0 <= i < |d| ==> IsDigit(s[i]);
    DigitRunIs(s, |d|);
    assert s[..|d|] == d;
  }

  // White space before a number is skipped, and a sign obeyed.
  lemma ScanSigned(white: string, sign: char, n: nat, more: string)
    requires AllBlank(white)
    requires sign in "+-" && (more != "" ==> !IsDigit(more[0]))
    ensures var v: int := n; Scan(white + [sign] + Digits(n) + more) == Value(if sign == '-' then -v else v)
  {
    hide Digits, Num, Spn, DigitRun;
    NumOfDigits(n);
    var d := Digits(n);
    var s := white + [sign] + d + more;
    BlankIsWhite(white);
    SpnIs(s, WHITE, |white|);
    var t := s[|white|..];
    var u := t[1..];
    assert t[0] == sign && u == d + more;
    assert forall i :: 0 <= i < |d| ==> u[i] == d[i];
    DigitRunIs(u, |d|);
    assert u[..|d|] == d;
  }

  // ------------------------------------------------------------ ctl_lock

  datatype Command = Set(timeout: uint32) | Release | Query | Unknown

  // What the handler's strtok calls make of its parameter. None where C leaves the outcome
  // undefined: a null command, or set without a timeout.
  function ToCommand(param: string): Option<Command> {
    var c := Token(param, ",");
    if !c.found then None
    else if SameNoCase(c.token, "set") then
      var t := Token(c.rest, ",");
      if !t.found then None else Some(Set(Atoi(t.token)))
    else if SameNoCase(c.token, "release") then Some(Release)
    else if SameNoCase(c.token, "query") then Some(Query)
    else Some(Unknown)
  }

  // atoi stored in an unsigned int.
  function Atoi(s: string): uint32 {
    match Scan(s) case Value(n) => n % TWO32 case _ => 0
  }

  // A long narrowed to int, as the reply is.
  function ToInt32(x: int): int { (x + TWO31) % TWO32 - TWO31 }

  // What fprintf after rewind leaves: nothing is truncated.
  function Overwrite(content: string, text: string): string {
    text + if |text| <= |content| then content[|text|..] else ""
  }

  datatype Outcome = Outcome(file: Option<string>, reply: Option<int>)

  // One control message at time now. file is the lock file, if there is one; accessible says whether
  // opening it can succeed at all.
  function Lock(file: Option<string>, accessible: bool, cmd: Command, now: nat): Outcome {
    if !accessible then Outcome(file, None)
    else match cmd
      case Set(timeout) =>
        if file.None? then Outcome(Some(Digits(now + timeout)), Some(0))
        else if Scan(file.value) == Mismatch then Outcome(file, None)
        else
          var lease := Lease(file);
          if lease <= now then Outcome(Some(Overwrite(file.value, Digits(now + timeout))), Some(0))
          else Outcome(file, Some(ToInt32(lease - now)))
      case Release => Outcome(Some(Digits(now)), None)
      case Query =>
        if file.None? || Scan(file.value) == Mismatch then Outcome(file, None)
        else
          var lease := Lease(file);
          Outcome(file, Some(if lease <= now then 0 else ToInt32(lease - now)))
      case Unknown => Outcome(file, None)
  }

  // The time read from the file; zero if there is none.
  function Lease(file: Option<string>): int {
    if file.None? then 0 else match Scan(file.value) case Value(n) => n case _ => 0
  }

  // ---------------------------------------------------- what every step keeps

  // Absent, empty, or exactly one decimal numeral ...
  ghost predicate Canonical(file: Option<string>) {
    file.None? || file.value == "" || (Lease(file) >= 0 && file.value == Digits(Lease(file)))
  }

  // ... and the lease it names is less than 2^32 seconds away.
  ghost predicate Sound(file: Option<string>, now: nat) {
    Canonical(file) && Lease(file) < now + TWO32
  }

  lemma CanonicalDigits(n: nat)
    ensures Canonical(Some(Digits(n))) && Lease(Some(Digits(n))) == n
  {
    ScanDigits(n, "");
    assert Digits(n) + "" == Digits(n);
  }

  lemma CanonicalScans(file: Option<string>)
    requires Canonical(file) && file.Some?
    ensures Scan(file.value) == Value(Lease(file)) || (Scan(file.value) == Eof && file.value == "")
  {
    if file.value != "" { CanonicalDigits(Lease(file)); }
  }

  // Overwriting without truncation replaces the whole numeral, because a lease that may be replaced
  // has no more digits than its successor.
  lemma OverwriteReplaces(file: Option<string>, next: nat)
    requires Canonical(file) && file.Some? && Lease(file) <= next
    ensures Overwrite(file.value, Digits(next)) == Digits(next)
  {
    hide Digits;
    if file.value != "" { DigitsGrow(Lease(file), next); }
    assert Digits(next) + "" == Digits(next);
  }

  // Exactly when it would not: only a shorter numeral leaves old digits behind.
  lemma OverwriteLeavesDigits(previous: nat, next: nat)
    ensures Overwrite(Digits(previous), Digits(next)) == Digits(next) <==> |Digits(previous)| <= |Digits(next)|
  {
    hide Digits;
    var o, n := Digits(previous), Digits(next);
    if |o| <= |n| { assert n + "" == n && |o| == |n| ==> o[|n|..] == ""; }
    else { assert |Overwrite(o, n)| == |o|; }
  }

  // When a set message is granted, and by whom the lease is known.
  ghost predicate Granted(file: Option<string>, accessible: bool, cmd: Command, now: nat) {
    cmd.Set? && accessible && Lease(file) <= now
  }

  // One step, whatever the clock says: the file stays canonical; only a grant and a release move the lease.
  lemma LockStep(file: Option<string>, accessible: bool, cmd: Command, now: nat)
    requires Canonical(file)
    ensures var o := Lock(file, accessible, cmd, now);
            && Canonical(o.file)
            && (Granted(file, accessible, cmd, now) ==>
                  o.file == Some(Digits(now + cmd.timeout)) && Lease(o.file) == now + cmd.timeout)
            && (cmd.Release? && accessible ==> Lease(o.file) == now)
            && (!Granted(file, accessible, cmd, now) && !(cmd.Release? && accessible) ==> o.file == file)
  {
    hide Digits, Scan, Overwrite, ToInt32;
    if accessible && file.Some? { CanonicalScans(file); }
    match cmd
    case Set(timeout) =>
      CanonicalDigits(now + timeout);
      if file.Some? && Lease(file) <= now { OverwriteReplaces(file, now + timeout); }
    case Release => CanonicalDigits(now);
    case _ =>
  }

  // A remaining lease below 2^32 is never narrowed to zero, and below 2^31 it is sent unchanged.
  lemma NarrowedLease(x: int)
    requires 0 < x < TWO32
    ensures ToInt32(x) != 0
    ensures ToInt32(x) == x <==> x < TWO31
  {
  }

  // The wire reply means what clients think: "0" exactly when the lock was granted.
  lemma ReplyZeroIsGrant(file: Option<string>, accessible: bool, timeout: uint32, now: nat)
    requires Sound(file, now)
    ensures Lock(file, accessible, Set(timeout), now).reply == Some(0)
       <==> Granted(file, accessible, Set(timeout), now)
    ensures accessible && !Granted(file, accessible, Set(timeout), now)
        ==> Lock(file, accessible, Set(timeout), now).reply == Some(ToInt32(Lease(file) - now))
  {
    hide Digits, Scan, Overwrite, ToInt32;
    if file.Some? {
      CanonicalScans(file);
      if Lease(file) > now { NarrowedLease(Lease(file) - now); }
    }
  }

  // query answers what set would answer, whenever it answers; it stays silent where there is no file,
  // though set would be granted there.
  lemma QueryForetellsSet(file: Option<string>, accessible: bool, timeout: uint32, now: nat)
    requires Sound(file, now)
    ensures var q, s := Lock(file, accessible, Query, now).reply, Lock(file, accessible, Set(timeout), now).reply;
            q == s <==> !(accessible && file.None?)
  {
    hide Digits, Scan, Overwrite, ToInt32;
  }

  // A client's lock message, as the server parses and tokenises it.
  lemma {:induction false} ClientMessage(t: uint32)
    ensures Requests("lock:set," + Digits(t) + ";") == [Request("lock", Some("set," + Digits(t)))]
    ensures ToCommand("set," + Digits(t)) == Some(Set(t))
  {
    hide Digits, Num, Scan, Token, Spn, Cspn, Parse, Segments;
    NumOfDigits(t);
    var d := Digits(t);
    assert forall i :: 0 <= i < |d| ==> IsDigit(d[i]) && d[i] !in ";,";
    ClientSegment(d);
    ClientCommand(d);
    ScanDigits(t, "");
    assert d + "" == d;
  }

  // And its message to release the lock.
  lemma ReleaseMessage()
    ensures Requests("lock:release;") == [Request("lock", Some("release"))]
    ensures ToCommand("release") == Some(Release)
  {
    hide Token, Spn, Cspn, Requests;
    OneMessage("lock", "release");
    assert "lock" + ":" + "release" + ";" == "lock:release;";
    var w := "release";
    SpnIs(w, ",", 0);
    assert w[0..] == w;
    CspnIs(w, ",", |w|);
    TokenIs(w, ",", 0, |w|);
    assert w[0..|w|] == w;
  }

  lemma OneMessage(cmd: string, p: string)
    requires cmd != "" && ':' !in cmd && ';' !in cmd && ';' !in p && p != ""
    ensures Requests(cmd + ":" + p + ";") == [Request(cmd, Some(p))]
  {
    hide Parse, Segments;
    var seg := cmd + (":" + p);
    FirstSegment(seg, "");
    NoSegment("");
    assert seg + ";" + "" == cmd + ":" + p + ";";
    ParseWritten(0, cmd, Colon(p));
    assert Written(0, cmd, Colon(p)) == seg by {
      assert Colons(0) == "" && "" + cmd + (":" + p) == seg;
    }
    assert [seg] + [] == [seg];
    ParseAllFirst(seg, []);
  }

  lemma ClientSegment(d: string)
    requires d != "" && forall i :: 0 <= i < |d| ==> d[i] !in ";,"
    ensures Requests("lock:set," + d + ";") == [Request("lock", Some("set," + d))]
  {
    hide Requests;
    var p := "set," + d;
    OneMessage("lock", p);
    assert "lock" + ":" + p + ";" == "lock:set," + d + ";";
  }

  lemma ClientCommand(d: string)
    requires d != "" && forall i :: 0 <= i < |d| ==> d[i] !in ";,"
    ensures Token("set," + d, ",") == Cut("set", true, d)
    ensures Token(d, ",") == Cut(d, true, "")
  {
    hide Token, Spn, Cspn;
    var s := "set," + d;
    SpnIs(s, ",", 0);
    assert s[0..] == s;
    CspnIs(s, ",", 3);
    TokenIs(s, ",", 0, 3);
    assert s[0..3] == "set" && s[4..] == d;
    SpnIs(d, ",", 0);
    assert d[0..] == d;
    CspnIs(d, ",", |d|);
    TokenIs(d, ",", 0, |d|);
    assert d[0..|d|] == d;
  }

  // ------------------------------------------------------------ whole runs

  datatype Event = Event(now: nat, accessible: bool, cmd: Command)

  ghost predicate Monotone(start: nat, es: seq<Event>)
    decreases |es|
  {
    es != [] ==> start <= es[0].now && Monotone(es[0].now, es[1..])
  }

  function RunLock(file: Option<string>, es: seq<Event>): Option<string>
    decreases |es|
  {
    if es == [] then file
    else RunLock(Lock(file, es[0].accessible, es[0].cmd, es[0].now).file, es[1..])
  }

  function EndTime(start: nat, es: seq<Event>): nat
    decreases |es|
  {
    if es == [] then start else EndTime(es[0].now, es[1..])
  }

  // Over every run the file stays canonical, even if the clock is set back. While the clock does not
  // go back the lease is also never 2^32 seconds away.
  lemma {:induction false} RunKeepsFile(file: Option<string>, start: nat, es: seq<Event>)
    requires Canonical(file)
    ensures Canonical(RunLock(file, es))
    ensures Sound(file, start) && Monotone(start, es) ==> Sound(RunLock(file, es), EndTime(start, es))
    decreases |es|
  {
    hide Canonical, Lock, Lease;
    if es != [] {
      LockStep(file, es[0].accessible, es[0].cmd, es[0].now);
      RunKeepsFile(Lock(file, es[0].accessible, es[0].cmd, es[0].now).file, es[0].now, es[1..]);
    }
  }

  ghost predicate NoRelease(es: seq<Event>) {
    forall i :: 0 <= i < |es| ==> !(es[i].cmd.Release? && es[i].accessible)
  }

  // Without a release the lease never gets earlier.
  lemma {:induction false} LeaseLasts(file: Option<string>, es: seq<Event>)
    requires Canonical(file) && NoRelease(es)
    ensures Lease(RunLock(file, es)) >= Lease(file)
    decreases |es|
  {
    hide Lease, Canonical, Lock;
    if es != [] {
      var e := es[0];
      LockStep(file, e.accessible, e.cmd, e.now);
      assert NoRelease(es[1..]);
      LeaseLasts(Lock(file, e.accessible, e.cmd, e.now).file, es[1..]);
    }
  }

  lemma {:induction false} RunSplit(file: Option<string>, es: seq<Event>, i: nat)
    requires i <= |es|
    ensures RunLock(file, es) == RunLock(RunLock(file, es[..i]), es[i..])
    decreases i
  {
    if i == 0 {
      assert es[..0] == [] && es[0..] == es;
    } else {
      hide Lock;
      RunSplit(Lock(file, es[0].accessible, es[0].cmd, es[0].now).file, es[1..], i - 1);
      assert es[..i][1..] == es[1..][..i - 1] && es[i..] == es[1..][i - 1..];
    }
  }

  // The file when the i-th message arrives.
  function Before(file: Option<string>, es: seq<Event>, i: nat): Option<string>
    requires i <= |es|
  {
    RunLock(file, es[..i])
  }

  // Between a grant at time t with timeout T and t + T no other set is granted, unless a release came
  // in between; whoever asks, whatever else is sent, and whatever the clock does.
  lemma NoGrantWithinLease(file: Option<string>, es: seq<Event>, i: nat, j: nat)
    requires Canonical(file) && i < j < |es|
    requires Granted(Before(file, es, i), es[i].accessible, es[i].cmd, es[i].now)
    requires Granted(Before(file, es, j), es[j].accessible, es[j].cmd, es[j].now)
    requires NoRelease(es[i + 1..j])
    ensures es[j].now >= es[i].now + es[i].cmd.timeout
  {
    hide Lock, Canonical, Lease;
    var e, f := es[i], Before(file, es, i);
    RunSplit(file, es[..j], i);
    assert es[..j][..i] == es[..i] && es[..j][i..] == es[i..j];
    RunKeepsFile(file, 0, es[..i]);
    assert es[i..j][0] == e && es[i..j][1..] == es[i + 1..j];
    LockStep(f, e.accessible, e.cmd, e.now);
    LeaseLasts(Lock(f, e.accessible, e.cmd, e.now).file, es[i + 1..j]);
  }

  // ---------------------------------------------------------------- the handler

  class LockServer {
    // The file behind LCK_FILE; None when it does not exist.
    var file: Option<string>

    constructor (file: Option<string>)
      ensures this.file == file
    {
      this.file := file;
    }

    // ctl_lock, once its parameter is tokenised. No reply means nothing is sent.
    method CtlLock(accessible: bool, cmd: Command, now: nat) returns (reply: Option<int>)
      modifies this
      ensures Outcome(file, reply) == Lock(old(file), accessible, cmd, now)
    {
      hide Digits, Scan, ToInt32;
      reply := None;
      match cmd
      case Set(timeout) =>
        if !accessible {
          return;
        }
        var lease: int := 0;
        if file.None? {
          // opened for writing, which creates it
          file := Some("");
          lease := now;
        } else {
          match Scan(file.value) {
            case Mismatch => return;
            case Eof =>
            case Value(n) => lease := n;
          }
        }
        if lease <= now {
          file := Some(Overwrite(file.value, Digits(now + timeout)));
          assert Digits(now + timeout) + "" == Digits(now + timeout);
          reply := Some(0);
        } else {
          reply := Some(ToInt32(lease - now));
        }
      case Release =>
        if accessible {
          file := Some(Digits(now));
        }
      case Query =>
        if !accessible || file.None? {
          return;
        }
        var lease: int := 0;
        match Scan(file.value) {
          case Mismatch => return;
          case Eof =>
          case Value(n) => lease := n;
        }
        reply := Some(if lease <= now then 0 else ToInt32(lease - now));
      case Unknown =>
    }
  }
}
