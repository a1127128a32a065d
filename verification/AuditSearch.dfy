/** The ausearch tester: from one audit record it builds up a search command field by field, running it
    after every addition. */
module AuditSearch {
  import opened ControlMessages
  import opened Text
  import opened Wrappers

  datatype Row = Row(field: string, option: string)

  const OPTIONS: seq<Row> := [
    Row("comm", "-c"), Row("exit", "-e"), Row("name", "-f"), Row("cwd", "-f"), Row("path", "-f"),
    Row("saddr", "-f"), Row("gid", "--gid"), Row("egid", "-ge"), Row("hostname", "-hn"), Row("addr", "-hn"),
    Row("saddr", "-hn"), Row("key", "-k"), Row("type", "-m"), Row("node", "-n"), Row("pid", "-p"),
    Row("ppid", "-pp"), Row("obj", "-o"), Row("syscall", "-sc"), Row("tcontext", "-se"),
    Row("scontext", "-se"), Row("subj", "-su"), Row("ses", "--session"), Row("subj", "--subject"),
    Row("scontext", "--subject"), Row("res", "--success"), Row("result", "--success"),
    Row("success", "--success"), Row("tty", "-tm"), Row("terminal", "-tm"), Row("uid", "-ui"),
    Row("euid", "-ue"), Row("auid", "-ul"), Row("loginuid", "-ul"), Row("uuid", "--uuid"),
    Row("vm", "--vm-name"), Row("exe", "-x")]

  // opt_lookup: the option of the first row for the field, whatever its case.
  method OptLookup(f: string) returns (opt: Option<string>)
    ensures opt == Lookup(f)
  {
    var i := 0;
    while i < |OPTIONS|
      invariant 0 <= i <= |OPTIONS| && forall j :: 0 <= j < i ==> !SameNoCase(f, OPTIONS[j].field)
    {
      if SameNoCase(f, OPTIONS[i].field) {
        break;
      }
      i := i + 1;
    }
    LookupIs(f, 0, i);
    opt := if i < |OPTIONS| then Some(OPTIONS[i].option) else None;
  }

  function LookupFrom(f: string, i: nat): Option<string>
    requires i <= |OPTIONS|
    decreases |OPTIONS| - i
  {
    if i == |OPTIONS| then None
    else if SameNoCase(f, OPTIONS[i].field) then Some(OPTIONS[i].option)
    else LookupFrom(f, i + 1)
  }

  function Lookup(f: string): Option<string> { LookupFrom(f, 0) }

  lemma {:induction false} LookupIs(f: string, from: nat, i: nat)
    requires from <= i <= |OPTIONS|
    requires forall j :: from <= j < i ==> !SameNoCase(f, OPTIONS[j].field)
    requires i < |OPTIONS| ==> SameNoCase(f, OPTIONS[i].field)
    ensures LookupFrom(f, from) == if i < |OPTIONS| then Some(OPTIONS[i].option) else None
    decreases i - from
  {
    hide SameNoCase;
    if from < i { LookupIs(f, from + 1, i); }
  }

  // Two names of one length that differ, case aside, at place x.
  predicate DifferAt(s: string, t: string, x: nat) {
    |s| == |t| ==> x < |s| && Lower(s[x]) != Lower(t[x])
  }

  // The rows before row i are for other fields than name: a first or second character tells.
  predicate FirstRowFor(name: string, i: nat) {
    && i < |OPTIONS| && OPTIONS[i].field == name
    && forall j :: 0 <= j < i ==> DifferAt(name, OPTIONS[j].field, 0) || DifferAt(name, OPTIONS[j].field, 1)
  }

  lemma RowOf(f: string, name: string, i: nat)
    requires SameNoCase(f, name) && FirstRowFor(name, i)
    ensures Lookup(f) == Some(OPTIONS[i].option)
  {
    forall j | 0 <= j < i ensures !SameNoCase(f, OPTIONS[j].field) {
      var other := OPTIONS[j].field;
      if |other| == |f| {
        var x := if DifferAt(name, other, 0) then 0 else 1;
        assert DifferAt(name, other, x);
        assert Lower(f[x]) == Lower(name[x]);
      }
    }
    LookupIs(f, 0, i);
  }

  lemma SaddrRow() ensures FirstRowFor("saddr", 5) { }
  lemma SubjRow() ensures FirstRowFor("subj", 20) { }
  lemma ScontextRow() ensures FirstRowFor("scontext", 19) { }
  lemma AuidRow() ensures FirstRowFor("auid", 31) { }
  lemma SesRow() ensures FirstRowFor("ses", 21) { }
  lemma UidRow() ensures FirstRowFor("uid", 29) { }
  lemma KeyNameRow() ensures FirstRowFor("key", 11) { }
  lemma NameRow() ensures FirstRowFor("name", 2) { }

  // Some rows can never be used: the earlier row for the same field hides them. So no socket address is
  // ever searched as a host.
  lemma HiddenRows(f: string)
    ensures SameNoCase(f, "saddr") ==> Lookup(f) == Some("-f")
    ensures SameNoCase(f, "subj") ==> Lookup(f) == Some("-su")
    ensures SameNoCase(f, "scontext") ==> Lookup(f) == Some("-se")
  {
    hide Lookup, FirstRowFor, SameNoCase;
    SaddrRow();
    SubjRow();
    ScontextRow();
    if SameNoCase(f, "saddr") { RowOf(f, "saddr", 5); }
    if SameNoCase(f, "subj") { RowOf(f, "subj", 20); }
    if SameNoCase(f, "scontext") { RowOf(f, "scontext", 19); }
  }

  // ------------------------------------------------------------------ records

  datatype RecordType = SockAddr | UserAvc | Login | UserLogin | UserLogout | OtherType

  // name and value are None for a null pointer; interp is the interpreted value; escaped says whether the
  // field is of the escaped type.
  datatype Field = Field(name: Option<string>, value: Option<string>, interp: string, escaped: bool)

  datatype Record = Record(rtype: RecordType, serial: string, fields: seq<Field>)

  // hn: a host was used. li, ses: the first login id, and the first session, were passed over.
  datatype Flags = Flags(hn: bool, li: bool, ses: bool)

  datatype Choice = Drop | Keep(opt: string, val: string) | Abort

  const QUOTED_MAX: nat := 4095

  function Head(s: string): char { if s == "" then '\0' else s[0] }

  predicate StartsWith(s: string, p: string) { p <= s }

  function FieldName(f: Field): string { if f.name.Some? then f.name.value else "" }

  // Success values are corrected before they are searched.
  function Corrected(opt: string, val: string): string {
    if opt != "--success" then val
    else if Head(val) == 's' || Head(val) == 'y' || Head(val) == '1' then "yes"
    else "no"
  }

  // A unix socket address is searched without its leading type.
  function Address(r: Record, f: Field, val: string): string {
    if FieldName(f) == "saddr" && r.rtype.SockAddr? then
      if StartsWith(f.interp, "local") then f.interp[if |f.interp| < 6 then |f.interp| else 6..] else f.interp
    else val
  }

  // Escaped values not yet quoted are searched by their interpretation, quoted, within the buffer.
  function Quoted(f: Field, val: string): string {
    if f.escaped && Head(val) != '"' then
      var q := "'" + f.interp + "'";
      if |q| > QUOTED_MAX then q[..QUOTED_MAX] else q
    else val
  }

  predicate IsUserLog(t: RecordType) { t.UserLogin? || t.UserLogout? }

  // One turn of the loop of do_record_test, up to the search.
  function Consider(r: Record, g: Flags, f: Field): (Flags, Choice) {
    if f.name.None? || Lookup(f.name.value).None? then (g, Drop)
    else if f.value.None? then (g, Abort)
    else if f.value.value == "?" then (g, Drop)
    else
      var name, opt := f.name.value, Lookup(f.name.value).value;
      var val := Corrected(opt, f.value.value);
      if (name == "key" || opt == "-tm") && Head(val) == '(' then (g, Drop)
      else if opt == "-hn" && g.hn then (g, Drop)
      else
        var h := if opt == "-hn" then g.(hn := true) else g;
        if name == "saddr" && r.rtype.SockAddr? && !StartsWith(f.interp, "local")
           && StartsWith(f.interp, "netlink") then (h, Drop)
        else
          var addr := Address(r, f, val);
          if name == "name" && addr == "(null)" then (h, Drop)
          else if r.rtype.UserAvc? then (h, Drop)
          else if r.rtype.Login? && name == "auid" && !h.li then (h.(li := true), Drop)
          else if r.rtype.Login? && name == "ses" && !h.ses then (h.(ses := true), Drop)
          else if IsUserLog(r.rtype) && name == "uid" && !h.li then (h.(li := true), Drop)
          else (h, Keep(opt, Quoted(f, addr)))
  }

  // ----------------------------------------------------------------- the loop

  datatype Status = Running | Complete | NotFound | NoValue

  datatype Test = Test(cmd: string, flags: Flags, runs: seq<string>, status: Status)

  // The outcome of the n-th search is up to ausearch.
  type Searches = nat -> bool

  function Search(finds: Searches, t: Test): Test {
    Test(t.cmd, t.flags, t.runs + [t.cmd], if finds(|t.runs|) then Running else NotFound)
  }

  function Begin(base: string, r: Record, finds: Searches): Test {
    Search(finds, Test(base + " -a " + r.serial, Flags(false, false, false), [], Running))
  }

  function Addition(opt: string, val: string): string { " " + opt + " " + val }

  function StepField(r: Record, finds: Searches, t: Test, f: Field): Test {
    if !t.status.Running? then t
    else
      var (g, c) := Consider(r, t.flags, f);
      match c
      case Drop => t.(flags := g)
      case Abort => t.(status := NoValue)
      case Keep(opt, val) => Search(finds, t.(flags := g, cmd := t.cmd + Addition(opt, val)))
  }

  function StepFields(r: Record, finds: Searches, t: Test, n: nat): Test
    requires n <= |r.fields|
  {
    if n == 0 then t else StepField(r, finds, StepFields(r, finds, t, n - 1), r.fields[n - 1])
  }

  function TestRecord(base: string, r: Record, finds: Searches): Test {
    var t := StepFields(r, finds, Begin(base, r, finds), |r.fields|);
    if t.status.Running? then t.(status := Complete) else t
  }

  method DoRecordTest(base: string, r: Record, finds: Searches) returns (cmd: string, runs: seq<string>, status: Status)
    ensures var t := TestRecord(base, r, finds); cmd == t.cmd && runs == t.runs && status == t.status
  {
    hide Consider, Lookup;
    var hn, li, ses, first := false, false, false, true;
    cmd, runs, status := base, [], Running;
    var i := 0;
    ghost var start := Begin(base, r, finds);
    while first || i < |r.fields|
      invariant i <= |r.fields| && status.Running?
      invariant first ==> i == 0 && cmd == base && runs == [] && !hn && !li && !ses
      invariant !first ==> Test(cmd, Flags(hn, li, ses), runs, status) == StepFields(r, finds, start, i)
      decreases |r.fields| - i, first
    {
      if first {
        cmd := cmd + " -a " + r.serial;
        runs := runs + [cmd];
        first := false;
        if !finds(0) {
          status := NotFound;
          StoppedTest(r, finds, start, 0);
          return;
        }
      }
      if i == |r.fields| {
        break;
      }
      var (g, c) := Consider(r, Flags(hn, li, ses), r.fields[i]);
      match c {
        case Drop =>
        case Abort =>
          status := NoValue;
          StoppedTest(r, finds, start, i + 1);
          return;
        case Keep(opt, val) =>
          var before := |runs|;
          cmd := cmd + Addition(opt, val);
          runs := runs + [cmd];
          if !finds(before) {
            status := NotFound;
            StoppedTest(r, finds, start, i + 1);
            return;
          }
      }
      hn, li, ses := g.hn, g.li, g.ses;
      i := i + 1;
    }
    status := Complete;
  }

  lemma {:induction false} StoppedTest(r: Record, finds: Searches, t: Test, n: nat)
    requires n <= |r.fields| && !StepFields(r, finds, t, n).status.Running?
    ensures StepFields(r, finds, t, |r.fields|) == StepFields(r, finds, t, n)
    decreases |r.fields| - n
  {
    hide Consider, Lookup;
    if n < |r.fields| { StoppedTest(r, finds, t, n + 1); }
  }

  // --------------------------------------------------------- the declarative selection

  // A searchable field whose value is known.
  predicate Known(f: Field) {
    f.name.Some? && Lookup(f.name.value).Some? && f.value.Some? && f.value.value != "?"
  }

  function OptionOf(f: Field): string {
    if f.name.Some? && Lookup(f.name.value).Some? then Lookup(f.name.value).value else ""
  }

  function ValueOf(f: Field): string { Corrected(OptionOf(f), if f.value.Some? then f.value.value else "") }

  predicate HostField(f: Field) { Known(f) && OptionOf(f) == "-hn" }
  predicate Named(f: Field, name: string) { Known(f) && FieldName(f) == name }

  // Fields that are never searched, wherever they stand.
  predicate Unsearchable(r: Record, f: Field) {
    || ((FieldName(f) == "key" || OptionOf(f) == "-tm") && Head(ValueOf(f)) == '(')
    || (FieldName(f) == "saddr" && r.rtype.SockAddr? && StartsWith(f.interp, "netlink"))
    || (FieldName(f) == "name" && ValueOf(f) == "(null)")
    || r.rtype.UserAvc?
  }

  ghost predicate FirstHost(fs: seq<Field>, i: nat)
    requires i < |fs|
  {
    HostField(fs[i]) && forall j :: 0 <= j < i ==> !HostField(fs[j])
  }

  ghost predicate FirstNamed(fs: seq<Field>, i: nat, name: string)
    requires i < |fs|
  {
    Named(fs[i], name) && forall j :: 0 <= j < i ==> !Named(fs[j], name)
  }

  // Searched are the known, searchable fields; of the host fields only the first; of the login ids and
  // sessions of a login record all but the first, and so of the uids of a user login or logout.
  ghost predicate Selected(r: Record, i: nat)
    requires i < |r.fields|
  {
    && Known(r.fields[i]) && !Unsearchable(r, r.fields[i])
    && (HostField(r.fields[i]) ==> FirstHost(r.fields, i))
    && (r.rtype.Login? ==> !FirstNamed(r.fields, i, "auid") && !FirstNamed(r.fields, i, "ses"))
    && (IsUserLog(r.rtype) ==> !FirstNamed(r.fields, i, "uid"))
  }

  function Shown(r: Record, f: Field): string {
    Addition(OptionOf(f), Quoted(f, Address(r, f, ValueOf(f))))
  }

  // The command for the first n fields, and the commands run to get there.
  ghost function Command(base: string, r: Record, n: nat): string
    requires n <= |r.fields|
  {
    if n == 0 then base + " -a " + r.serial
    else Command(base, r, n - 1) + if Selected(r, n - 1) then Shown(r, r.fields[n - 1]) else ""
  }

  ghost function Commands(base: string, r: Record, n: nat): seq<string>
    requires n <= |r.fields|
  {
    if n == 0 then [Command(base, r, 0)]
    else Commands(base, r, n - 1) + if Selected(r, n - 1) then [Command(base, r, n)] else []
  }

  ghost predicate AnyHost(r: Record, n: nat)
    requires n <= |r.fields|
  {
    exists j :: 0 <= j < n && HostField(r.fields[j])
  }

  ghost predicate AnyNamed(r: Record, n: nat, name: string)
    requires n <= |r.fields|
  {
    exists j :: 0 <= j < n && Named(r.fields[j], name)
  }

  // What the flags remember.
  ghost predicate FlagsMean(r: Record, n: nat, g: Flags)
    requires n <= |r.fields|
  {
    && (g.hn <==> AnyHost(r, n))
    && (g.li <==> (r.rtype.Login? && AnyNamed(r, n, "auid")) || (IsUserLog(r.rtype) && AnyNamed(r, n, "uid")))
    && (g.ses <==> r.rtype.Login? && AnyNamed(r, n, "ses"))
  }

  // A field whose name is searchable has a value; and so have the first n fields.
  predicate HasValue(f: Field) { f.name.Some? && Lookup(f.name.value).Some? ==> f.value.Some? }

  predicate HaveValues(r: Record, n: nat)
    requires n <= |r.fields|
  {
    forall i :: 0 <= i < n ==> HasValue(r.fields[i])
  }

  lemma AnyNext(r: Record, n: nat, name: string)
    requires n < |r.fields|
    ensures AnyHost(r, n + 1) <==> AnyHost(r, n) || HostField(r.fields[n])
    ensures AnyNamed(r, n + 1, name) <==> AnyNamed(r, n, name) || Named(r.fields[n], name)
    ensures FirstHost(r.fields, n) <==> HostField(r.fields[n]) && !AnyHost(r, n)
    ensures FirstNamed(r.fields, n, name) <==> Named(r.fields[n], name) && !AnyNamed(r, n, name)
  {
    hide HostField, Named;
  }

  // The names the flags watch have options of their own.
  lemma WatchedNames(f: string)
    ensures f == "auid" ==> Lookup(f) == Some("-ul")
    ensures f == "ses" ==> Lookup(f) == Some("--session")
    ensures f == "uid" ==> Lookup(f) == Some("-ui")
    ensures f == "key" ==> Lookup(f) == Some("-k")
    ensures f == "saddr" ==> Lookup(f) == Some("-f")
    ensures f == "name" ==> Lookup(f) == Some("-f")
  {
    hide Lookup, FirstRowFor;
    AuidRow();
    SesRow();
    UidRow();
    KeyNameRow();
    SaddrRow();
    NameRow();
    if f == "auid" { RowOf(f, f, 31); }
    else if f == "ses" { RowOf(f, f, 21); }
    else if f == "uid" { RowOf(f, f, 29); }
    else if f == "key" { RowOf(f, f, 11); }
    else if f == "saddr" { RowOf(f, f, 5); }
    else if f == "name" { RowOf(f, f, 2); }
  }

  // An unknown or unsearchable-by-name field changes nothing.
  lemma UnknownDropped(r: Record, n: nat, g: Flags)
    requires n < |r.fields| && FlagsMean(r, n, g) && HasValue(r.fields[n]) && !Known(r.fields[n])
    ensures Consider(r, g, r.fields[n]) == (g, Drop) && FlagsMean(r, n + 1, g) && !Selected(r, n)
  {
    hide Lookup, AnyHost, AnyNamed;
    AnyNext(r, n, "auid");
    AnyNext(r, n, "ses");
    AnyNext(r, n, "uid");
  }

  // The flags after a known field.
  function FlagsAfter(r: Record, g: Flags, f: Field): Flags {
    Flags(g.hn || HostField(f),
          g.li || (r.rtype.Login? && Named(f, "auid")) || (IsUserLog(r.rtype) && Named(f, "uid")),
          g.ses || (r.rtype.Login? && Named(f, "ses")))
  }

  lemma FlagsNext(r: Record, n: nat, g: Flags)
    requires n < |r.fields| && FlagsMean(r, n, g)
    ensures FlagsMean(r, n + 1, FlagsAfter(r, g, r.fields[n]))
  {
    hide AnyHost, AnyNamed, HostField, Named;
    AnyNext(r, n, "auid");
    AnyNext(r, n, "ses");
    AnyNext(r, n, "uid");
  }

  // Whether a field is passed over, in terms of the flags.
  predicate PassedOver(r: Record, g: Flags, f: Field) {
    || Unsearchable(r, f)
    || (HostField(f) && g.hn)
    || (r.rtype.Login? && ((Named(f, "auid") && !g.li) || (Named(f, "ses") && !g.ses)))
    || (IsUserLog(r.rtype) && Named(f, "uid") && !g.li)
  }

  lemma SelectedByFlags(r: Record, n: nat, g: Flags)
    requires n < |r.fields| && FlagsMean(r, n, g) && Known(r.fields[n])
    ensures Selected(r, n) <==> !PassedOver(r, g, r.fields[n])
  {
    hide AnyHost, AnyNamed, HostField, Named, Known, Unsearchable, FirstHost, FirstNamed;
    AnyNext(r, n, "auid");
    AnyNext(r, n, "ses");
    AnyNext(r, n, "uid");
  }

  lemma ConsiderKnown(r: Record, g: Flags, f: Field)
    requires Known(f)
    ensures Consider(r, g, f).1
         == if PassedOver(r, g, f) then Drop else Keep(OptionOf(f), Quoted(f, Address(r, f, ValueOf(f))))
    ensures Consider(r, g, f).0 == FlagsAfter(r, g, f)
  {
    WatchedNames(f.name.value);
    AddressOf(r, f);
    hide Lookup, Corrected, Quoted, Address, StartsWith, Head;
  }

  lemma AddressOf(r: Record, f: Field)
    ensures FieldName(f) != "saddr" ==> Address(r, f, ValueOf(f)) == ValueOf(f)
    ensures !(StartsWith(f.interp, "local") && StartsWith(f.interp, "netlink"))
  {
    hide Lookup, Corrected;
    if StartsWith(f.interp, "local") { assert f.interp[0] == "local"[0]; }
  }

  // One turn of the loop drops or keeps exactly what the selection says.
  lemma ConsiderSelects(r: Record, n: nat, g: Flags)
    requires n < |r.fields| && FlagsMean(r, n, g) && HasValue(r.fields[n])
    ensures FlagsMean(r, n + 1, Consider(r, g, r.fields[n]).0)
    ensures var f := r.fields[n];
            Consider(r, g, f).1
            == if Selected(r, n) then Keep(OptionOf(f), Quoted(f, Address(r, f, ValueOf(f)))) else Drop
  {
    hide Lookup, FlagsMean, HasValue, Known, Consider, Selected, PassedOver, FlagsAfter;
    hide Quoted, Address, ValueOf, OptionOf;
    if Known(r.fields[n]) {
      SelectedByFlags(r, n, g);
      ConsiderKnown(r, g, r.fields[n]);
      FlagsNext(r, n, g);
    } else {
      UnknownDropped(r, n, g);
    }
  }

  // The first n searches find the record.
  ghost predicate Found(finds: Searches, n: nat) { forall k :: 0 <= k < n ==> finds(k) }

  lemma {:induction false} CommandCount(base: string, r: Record, n: nat)
    requires n <= |r.fields|
    ensures |Commands(base, r, n)| > 0
    ensures n > 0 ==> |Commands(base, r, n - 1)| <= |Commands(base, r, n)|
  {
    hide Selected;
    if n > 0 { CommandCount(base, r, n - 1); }
  }

  // As long as values are there and searches succeed, the command built is that of the selected fields.
  lemma {:induction false} FieldsRefine(base: string, r: Record, finds: Searches, n: nat)
    requires n <= |r.fields| && HaveValues(r, n) && Found(finds, |Commands(base, r, n)|)
    ensures var t := StepFields(r, finds, Begin(base, r, finds), n);
            && t.status.Running? && t.cmd == Command(base, r, n) && t.runs == Commands(base, r, n)
            && FlagsMean(r, n, t.flags)
  {
    hide Lookup, Consider, Selected, HasValue, FlagsMean, Quoted, Address, ValueOf, OptionOf;
    if n == 0 {
      NoFlags(r);
      assert [] + [base + " -a " + r.serial] == [base + " -a " + r.serial];
    } else {
      CommandCount(base, r, n - 1);
      CommandCount(base, r, n);
      FieldsRefine(base, r, finds, n - 1);
      var t := StepFields(r, finds, Begin(base, r, finds), n - 1);
      ConsiderSelects(r, n - 1, t.flags);
      assert t.cmd + "" == t.cmd && t.runs + [] == t.runs;
    }
  }

  lemma NoFlags(r: Record)
    ensures FlagsMean(r, 0, Flags(false, false, false))
  {
  }

  // How a test ends, in every case. When no value is missing and every search finds the record, the
  // command is the base, the serial and the selected fields in order, and the commands run are the steps
  // to it.
  lemma RecordRefinesSelection(base: string, r: Record, finds: Searches)
    requires HaveValues(r, |r.fields|) && Found(finds, |Commands(base, r, |r.fields|)|)
    ensures var t := TestRecord(base, r, finds);
            && t.status == Complete
            && t.cmd == Command(base, r, |r.fields|) && t.runs == Commands(base, r, |r.fields|)
  {
    hide StepFields, Begin, FlagsMean, HasValue, Commands, Command;
    FieldsRefine(base, r, finds, |r.fields|);
  }

  // When the first search fails, only that one is made.
  lemma FirstSearchFails(base: string, r: Record, finds: Searches)
    requires !finds(0)
    ensures var t := TestRecord(base, r, finds);
            t.status == NotFound && t.cmd == base + " -a " + r.serial && t.runs == [t.cmd]
  {
    hide Consider, Lookup;
    StoppedTest(r, finds, Begin(base, r, finds), 0);
  }

  // When the search for a selected field is the first to fail, nothing after that field is searched.
  lemma SearchFails(base: string, r: Record, finds: Searches, n: nat)
    requires n < |r.fields| && HaveValues(r, n) && Found(finds, |Commands(base, r, n)|)
    requires Selected(r, n) && !finds(|Commands(base, r, n)|)
    ensures var t := TestRecord(base, r, finds);
            t.status == NotFound && t.cmd == Command(base, r, n + 1) && t.runs == Commands(base, r, n + 1)
  {
    hide Lookup, Consider, FlagsMean, Quoted, Address, ValueOf, OptionOf, Begin;
    FieldsRefine(base, r, finds, n);
    var t := StepFields(r, finds, Begin(base, r, finds), n);
    SelectedHasValue(r, n);
    hide Selected;
    ConsiderSelects(r, n, t.flags);
    StoppedTest(r, finds, Begin(base, r, finds), n + 1);
  }

  lemma SelectedHasValue(r: Record, n: nat)
    requires n < |r.fields| && Selected(r, n)
    ensures HasValue(r.fields[n])
  {
    hide Unsearchable, HostField, FirstHost, FirstNamed, Lookup;
  }

  // When a searchable field is the first to have no value, the program gives up there.
  lemma ValueMissing(base: string, r: Record, finds: Searches, n: nat)
    requires n < |r.fields| && HaveValues(r, n) && Found(finds, |Commands(base, r, n)|)
    requires !HasValue(r.fields[n])
    ensures var t := TestRecord(base, r, finds);
            t.status == NoValue && t.cmd == Command(base, r, n) && t.runs == Commands(base, r, n)
  {
    hide Lookup, FlagsMean, Quoted, Address, Corrected, StartsWith, Head, Begin, Commands, Command;
    FieldsRefine(base, r, finds, n);
    StoppedTest(r, finds, Begin(base, r, finds), n + 1);
  }

  // For any outcome of the searches, and any values missing: every command run extends the one before
  // it, the first carries the serial, and only the last may have found nothing.
  ghost predicate Extending(base: string, r: Record, finds: Searches, t: Test) {
    && t.runs != [] && t.runs[0] == base + " -a " + r.serial && t.runs[|t.runs| - 1] == t.cmd
    && (forall i :: 0 <= i < |t.runs| - 1 ==> t.runs[i] < t.runs[i + 1] && finds(i))
    && (t.status == NotFound <==> !finds(|t.runs| - 1))
  }

  lemma SearchExtends(base: string, r: Record, finds: Searches, t: Test, more: string, g: Flags)
    requires Extending(base, r, finds, t) && t.status.Running? && more != ""
    ensures Extending(base, r, finds, Search(finds, t.(flags := g, cmd := t.cmd + more)))
  {
    var n := Search(finds, t.(flags := g, cmd := t.cmd + more));
    forall i | 0 <= i < |n.runs| - 1 ensures n.runs[i] < n.runs[i + 1] && finds(i) {
      if i < |t.runs| - 1 { assert n.runs[i] == t.runs[i] && n.runs[i + 1] == t.runs[i + 1]; }
    }
  }

  lemma {:induction false} CommandsExtend(base: string, r: Record, finds: Searches, n: nat)
    requires n <= |r.fields|
    ensures Extending(base, r, finds, StepFields(r, finds, Begin(base, r, finds), n))
  {
    hide Consider, Lookup, Extending;
    if n == 0 {
      BeginExtends(base, r, finds);
    } else {
      CommandsExtend(base, r, finds, n - 1);
      var t := StepFields(r, finds, Begin(base, r, finds), n - 1);
      if t.status.Running? {
        var (g, c) := Consider(r, t.flags, r.fields[n - 1]);
        match c {
          case Keep(opt, val) => SearchExtends(base, r, finds, t, Addition(opt, val), g);
          case Drop => SameRuns(base, r, finds, t, t.(flags := g));
          case Abort => SameRuns(base, r, finds, t, t.(status := NoValue));
        }
      }
    }
  }

  lemma BeginExtends(base: string, r: Record, finds: Searches)
    ensures Extending(base, r, finds, Begin(base, r, finds))
  {
  }

  lemma SameRuns(base: string, r: Record, finds: Searches, t: Test, n: Test)
    requires Extending(base, r, finds, t) && n.runs == t.runs && n.cmd == t.cmd
    requires n.status == NotFound <==> t.status == NotFound
    ensures Extending(base, r, finds, n)
  {
  }

  // The commands run form a chain, each a proper prefix of the next.
  lemma RunsExtendEachOther(base: string, r: Record, finds: Searches)
    ensures Extending(base, r, finds, TestRecord(base, r, finds))
  {
    hide StepFields, Begin;
    CommandsExtend(base, r, finds, |r.fields|);
  }

  // The options and values added to the command over the first n fields, whether or not they were found.
  function Added(base: string, r: Record, finds: Searches, n: nat): seq<(string, string)>
    requires n <= |r.fields|
  {
    if n == 0 then []
    else
      var t := StepFields(r, finds, Begin(base, r, finds), n - 1);
      var (_, c) := Consider(r, t.flags, r.fields[n - 1]);
      Added(base, r, finds, n - 1) + if t.status.Running? && c.Keep? then [(c.opt, c.val)] else []
  }

  function Additions(added: seq<(string, string)>): string {
    if added == [] then ""
    else
      var (opt, val) := added[|added| - 1];
      Additions(added[..|added| - 1]) + (" " + opt + " " + val)
  }

  // The command is what was added to it.
  lemma {:induction false} CommandIsAdded(base: string, r: Record, finds: Searches, n: nat)
    requires n <= |r.fields|
    ensures StepFields(r, finds, Begin(base, r, finds), n).cmd
         == base + " -a " + r.serial + Additions(Added(base, r, finds, n))
  {
    hide Consider, Lookup;
    if n == 0 {
      assert base + " -a " + r.serial + "" == base + " -a " + r.serial;
    } else {
      CommandIsAdded(base, r, finds, n - 1);
      var before, now := Added(base, r, finds, n - 1), Added(base, r, finds, n);
      if before == now {
      } else {
        assert now[..|now| - 1] == before;
        Assoc(base + " -a " + r.serial, Additions(before), Addition(now[|now| - 1].0, now[|now| - 1].1));
      }
    }
  }

  lemma HostOnce(r: Record, g: Flags, f: Field)
    ensures var (h, c) := Consider(r, g, f);
            && (g.hn ==> h.hn)
            && (c.Keep? && c.opt == "-hn" ==> !g.hn && h.hn)
  {
    hide Lookup, Corrected, Quoted, Address, StartsWith, Head;
  }

  ghost predicate OneHostIn(added: seq<(string, string)>) {
    forall i, j :: 0 <= i < j < |added| ==> added[i].0 != "-hn" || added[j].0 != "-hn"
  }

  lemma {:induction false} HostsRemembered(base: string, r: Record, finds: Searches, n: nat)
    requires n <= |r.fields|
    ensures var added, t := Added(base, r, finds, n), StepFields(r, finds, Begin(base, r, finds), n);
            && OneHostIn(added)
            && (t.status.Running? ==> forall i :: 0 <= i < |added| && added[i].0 == "-hn" ==> t.flags.hn)
  {
    hide Consider, Lookup, Addition;
    if n > 0 {
      HostsRemembered(base, r, finds, n - 1);
      HostOnce(r, StepFields(r, finds, Begin(base, r, finds), n - 1).flags, r.fields[n - 1]);
    }
  }

  // At most one host is ever added to the command, whatever the searches find and whatever values are
  // missing.
  lemma {:induction false} OneHost(base: string, r: Record, finds: Searches, i: nat, j: nat)
    requires i < j < |Added(base, r, finds, |r.fields|)|
    ensures TestRecord(base, r, finds).cmd
         == base + " -a " + r.serial + Additions(Added(base, r, finds, |r.fields|))
    ensures var added := Added(base, r, finds, |r.fields|); added[i].0 != "-hn" || added[j].0 != "-hn"
  {
    hide Added, Additions, StepFields, Begin;
    CommandIsAdded(base, r, finds, |r.fields|);
    HostsRemembered(base, r, finds, |r.fields|);
  }

  // Ids by record type: of a login record exactly the first known auid and the first known ses are passed
  // over, of a user login or logout exactly the first known uid; of a user AVC all; else none.
  lemma {:induction false} IdFields(r: Record, i: nat, name: string)
    requires i < |r.fields| && (name == "auid" || name == "ses" || name == "uid") && Named(r.fields[i], name)
    ensures Selected(r, i)
       <==> match r.rtype
            case UserAvc => false
            case Login => name == "uid" || exists j :: 0 <= j < i && Named(r.fields[j], name)
            case UserLogin => name != "uid" || exists j :: 0 <= j < i && Named(r.fields[j], name)
            case UserLogout => name != "uid" || exists j :: 0 <= j < i && Named(r.fields[j], name)
            case SockAddr => true
            case OtherType => true
  {
    WatchedNames(r.fields[i].name.value);
    hide Lookup;
  }
}
