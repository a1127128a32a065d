/** What the ausearch tester searches for: the options of each field name, and the value given to them, in
    terms of the record alone. */
module AuditValues {
  import opened ControlMessages
  import opened AuditSearch
  import opened Wrappers

  // ------------------------------------------------------------------- the options

  // Every searchable field name with its option, in alphabetical order.
  const BY_NAME: seq<Row> := [
    Row("addr", "-hn"), Row("auid", "-ul"), Row("comm", "-c"), Row("cwd", "-f"), Row("egid", "-ge"),
    Row("euid", "-ue"), Row("exe", "-x"), Row("exit", "-e"), Row("gid", "--gid"), Row("hostname", "-hn"),
    Row("key", "-k"), Row("loginuid", "-ul"), Row("name", "-f"), Row("node", "-n"), Row("obj", "-o"),
    Row("path", "-f"), Row("pid", "-p"), Row("ppid", "-pp"), Row("res", "--success"),
    Row("result", "--success"), Row("saddr", "-f"), Row("scontext", "-se"), Row("ses", "--session"),
    Row("subj", "-su"), Row("success", "--success"), Row("syscall", "-sc"), Row("tcontext", "-se"),
    Row("terminal", "-tm"), Row("tty", "-tm"), Row("type", "-m"), Row("uid", "-ui"), Row("uuid", "--uuid"),
    Row("vm", "--vm-name")]

  // Where each of them stands in the program's table, and which of them each row is for.
  const PLACES: seq<nat> := [
    9, 31, 0, 3, 7, 30, 35, 1, 6, 8, 11, 32, 2, 13, 16, 4, 14, 15, 24, 25, 5, 19, 21, 20, 26, 17, 18, 28, 27, 12, 29,
    33, 34]
  const NAMES: seq<nat> := [
    2, 7, 12, 3, 15, 20, 8, 4, 9, 0, 20, 10, 29, 13, 16, 17, 14, 25, 26, 21, 23, 22, 23, 21, 18, 19, 24, 28, 27, 30, 5,
    1, 11, 31, 32, 6]

  // Alphabetical order, case aside.
  predicate Less(a: string, b: string) {
    b != "" && (a == "" || Lower(a[0]) < Lower(b[0]) || (Lower(a[0]) == Lower(b[0]) && Less(a[1..], b[1..])))
  }

  lemma {:induction false} LessDiffers(a: string, b: string)
    requires Less(a, b)
    ensures !SameNoCase(a, b)
  {
    if a != "" && Lower(a[0]) == Lower(b[0]) {
      var c, d := a[1..], b[1..];
      LessDiffers(c, d);
      if |c| == |d| {
        var i :| 0 <= i < |c| && Lower(c[i]) != Lower(d[i]);
        assert Lower(a[i + 1]) != Lower(b[i + 1]);
      }
    }
  }

  lemma {:induction false} LessTransitive(a: string, b: string, c: string)
    requires Less(a, b) && Less(b, c)
    ensures Less(a, c)
  {
    if a != "" && Lower(a[0]) == Lower(b[0]) && Lower(b[0]) == Lower(c[0]) { LessTransitive(a[1..], b[1..], c[1..]); }
  }

  lemma Sizes()
    ensures |BY_NAME| == 33 && |PLACES| == 33 && |NAMES| == 36 && |OPTIONS| == 36
  {
  }

  lemma NamePlace(k: nat)
    requires k < 33
    ensures |BY_NAME| == 33 == |PLACES| && |OPTIONS| == 36
    ensures PLACES[k] < 36 && BY_NAME[k] == OPTIONS[PLACES[k]]
  {
  }

  // A name that has several rows stands at the first of them.
  lemma RowName(i: nat)
    requires i < 36
    ensures |NAMES| == 36 == |OPTIONS| && |BY_NAME| == 33 == |PLACES|
    ensures NAMES[i] < 33 && OPTIONS[i].field == BY_NAME[NAMES[i]].field && PLACES[NAMES[i]] <= i
  {
    hide NAMES, OPTIONS, BY_NAME, PLACES;
    RowNameIn(i);
    RowPlace(i);
  }

  lemma RowNameIn(i: nat)
    requires i < 36
    ensures |NAMES| == 36 == |OPTIONS| && |BY_NAME| == 33
    ensures NAMES[i] < 33 && OPTIONS[i].field == BY_NAME[NAMES[i]].field
  {
  }

  lemma RowPlace(i: nat)
    requires i < 36
    ensures |NAMES| == 36 && |PLACES| == 33
    ensures NAMES[i] < 33 && PLACES[NAMES[i]] <= i
  {
  }

  lemma NextName(k: nat)
    requires k < 32 && |BY_NAME| == 33
    ensures Less(BY_NAME[k].field, BY_NAME[k + 1].field)
  {
    hide BY_NAME;
    if k < 8 { FirstNames(k); } else if k < 16 { SecondNames(k); }
    else if k < 24 { ThirdNames(k); } else { LastNames(k); }
  }

  lemma FirstNames(k: nat)
    requires k < 8 && |BY_NAME| == 33
    ensures Less(BY_NAME[k].field, BY_NAME[k + 1].field)
  {
  }

  lemma SecondNames(k: nat)
    requires 8 <= k < 16 && |BY_NAME| == 33
    ensures Less(BY_NAME[k].field, BY_NAME[k + 1].field)
  {
  }

  lemma ThirdNames(k: nat)
    requires 16 <= k < 24 && |BY_NAME| == 33
    ensures Less(BY_NAME[k].field, BY_NAME[k + 1].field)
  {
  }

  lemma LastNames(k: nat)
    requires 24 <= k < 32 && |BY_NAME| == 33
    ensures Less(BY_NAME[k].field, BY_NAME[k + 1].field)
  {
  }

  lemma {:induction false} NamesSorted(j: nat, k: nat)
    requires j < k < |BY_NAME|
    ensures Less(BY_NAME[j].field, BY_NAME[k].field)
  {
    hide BY_NAME, Less;
    assert |BY_NAME| == 33 by { Sizes(); }
    NextName(k - 1);
    if j < k - 1 {
      NamesSorted(j, k - 1);
      LessTransitive(BY_NAME[j].field, BY_NAME[k - 1].field, BY_NAME[k].field);
    }
  }

  // The names are all different, and a field is searched by an option exactly when its name, case aside, is
  // listed with it. Any other field is not searched.
  lemma OptionsByName(f: string, opt: string)
    ensures Lookup(f) == Some(opt)
       <==> exists k :: 0 <= k < |BY_NAME| && SameNoCase(f, BY_NAME[k].field) && opt == BY_NAME[k].option
  {
    hide BY_NAME, PLACES, NAMES, OPTIONS, Less, SameNoCase, LookupFrom;
    Sizes();
    if Lookup(f).Some? {
      var i := FirstRow(f);
      var m := NAMES[i];
      RowName(i);
      NamePlace(m);
      assert PLACES[m] == i && SameNoCase(f, BY_NAME[m].field);
      forall k | 0 <= k < |BY_NAME| && SameNoCase(f, BY_NAME[k].field) ensures k == m { OneName(f, k, m); }
    } else if k :| 0 <= k < |BY_NAME| && SameNoCase(f, BY_NAME[k].field) {
      NamePlace(k);
      NoRow(f, PLACES[k]);
    }
  }

  lemma OneName(f: string, k: nat, m: nat)
    requires k < |BY_NAME| && m < |BY_NAME| && SameNoCase(f, BY_NAME[k].field) && SameNoCase(f, BY_NAME[m].field)
    ensures k == m
  {
    hide BY_NAME, Less;
    assert SameNoCase(BY_NAME[k].field, BY_NAME[m].field) && SameNoCase(BY_NAME[m].field, BY_NAME[k].field);
    if k < m {
      NamesSorted(k, m);
      LessDiffers(BY_NAME[k].field, BY_NAME[m].field);
    } else if m < k {
      NamesSorted(m, k);
      LessDiffers(BY_NAME[m].field, BY_NAME[k].field);
    }
  }

  lemma NoRow(f: string, i: nat)
    requires Lookup(f).None? && i < |OPTIONS|
    ensures !SameNoCase(f, OPTIONS[i].field)
  {
    hide SameNoCase, OPTIONS;
    NoRowFrom(f, 0, i);
  }

  lemma {:induction false} NoRowFrom(f: string, from: nat, i: nat)
    requires from <= i < |OPTIONS| && LookupFrom(f, from).None?
    ensures !SameNoCase(f, OPTIONS[i].field)
    decreases i - from
  {
    hide SameNoCase, OPTIONS;
    if from < i { NoRowFrom(f, from + 1, i); }
  }

  // The row that a lookup stops at.
  lemma FirstRow(f: string) returns (i: nat)
    requires Lookup(f).Some?
    ensures |OPTIONS| == 36 && i < 36 && SameNoCase(f, OPTIONS[i].field) && Lookup(f) == Some(OPTIONS[i].option)
    ensures forall j :: 0 <= j < i ==> !SameNoCase(f, OPTIONS[j].field)
  {
    hide SameNoCase;
    Sizes();
    i := RowFrom(f, 0);
  }

  lemma {:induction false} RowFrom(f: string, from: nat) returns (i: nat)
    requires from <= |OPTIONS| && LookupFrom(f, from).Some?
    ensures from <= i < |OPTIONS| && SameNoCase(f, OPTIONS[i].field) && LookupFrom(f, from) == Some(OPTIONS[i].option)
    ensures forall j :: from <= j < i ==> !SameNoCase(f, OPTIONS[j].field)
    decreases |OPTIONS| - from
  {
    hide SameNoCase, OPTIONS;
    if SameNoCase(f, OPTIONS[from].field) { i := from; } else { i := RowFrom(f, from + 1); }
  }

  // ------------------------------------------------------------------ the values

  // What a field's value becomes: a socket address, when the record is one, is what follows "local" and
  // one more character in its interpretation, or all of that; a result becomes yes when it begins with s,
  // y or 1 and no otherwise; any other value stays.
  ghost predicate Plain(r: Record, f: Field, opt: string, plain: string)
    requires f.value.Some?
  {
    var raw := f.value.value;
    if f.name == Some("saddr") && r.rtype == SockAddr then
      if |f.interp| >= 5 && f.interp[..5] == "local" then
        if |f.interp| == 5 then plain == "" else f.interp == "local" + [f.interp[5]] + plain
      else plain == f.interp
    else if opt == "--success" then
      (plain == "yes" || plain == "no") && (plain == "yes" <==> raw != "" && raw[0] in "sy1")
    else plain == raw
  }

  // The value searched for: that, or for a field of the escaped type that does not begin with a double
  // quote, its interpretation between single quotes, as much as 4095 characters hold.
  ghost predicate SearchedFor(r: Record, f: Field, opt: string, val: string)
    requires f.value.Some?
  {
    exists plain :: Plain(r, f, opt, plain) &&
      if f.escaped && (plain == "" || plain[0] != '"') then
        if |f.interp| <= 4093 then val == "'" + f.interp + "'" else |val| == 4095 && val <= "'" + f.interp + "'"
      else val == plain
  }

  lemma KeptValue(r: Record, g: Flags, f: Field)
    requires Consider(r, g, f).1.Keep?
    ensures var c := Consider(r, g, f).1;
            && f.name.Some? && Lookup(f.name.value) == Some(c.opt)
            && f.value.Some? && f.value.value != "?"
            && SearchedFor(r, f, c.opt, c.val)
  {
    hide Lookup;
    var c := Consider(r, g, f).1;
    hide Consider, SearchedFor;
    KeptAs(r, g, f);
    SaddrOption(f);
    var plain := Address(r, f, Corrected(c.opt, f.value.value));
    PlainValue(r, f, c.opt);
    QuotedValue(r, f, c.opt, plain);
  }

  lemma KeptAs(r: Record, g: Flags, f: Field)
    requires Consider(r, g, f).1.Keep?
    ensures var c := Consider(r, g, f).1;
            && f.name.Some? && Lookup(f.name.value) == Some(c.opt)
            && f.value.Some? && f.value.value != "?"
            && c.val == Quoted(f, Address(r, f, Corrected(c.opt, f.value.value)))
  {
    hide Lookup, Corrected, Quoted, Address, StartsWith, Head;
  }

  lemma SaddrOption(f: Field)
    ensures f.name == Some("saddr") ==> Lookup("saddr") == Some("-f")
  {
    hide Lookup;
    WatchedNames("saddr");
  }

  lemma PlainValue(r: Record, f: Field, opt: string)
    requires f.value.Some? && f.name.Some?
    ensures Plain(r, f, opt, Address(r, f, Corrected(opt, f.value.value)))
  {
    if |f.interp| > 5 && f.interp[..5] == "local" {
      assert f.interp == "local" + [f.interp[5]] + f.interp[6..];
    }
    assert "yes"[0] == 'y' && "no"[0] == 'n';
  }

  lemma QuotedValue(r: Record, f: Field, opt: string, plain: string)
    requires f.value.Some? && Plain(r, f, opt, plain)
    ensures SearchedFor(r, f, opt, Quoted(f, plain))
  {
    hide Plain;
    var q := "'" + f.interp + "'";
    assert |q| == |f.interp| + 2;
  }

  // Whatever the searches find: each option added to the command belongs to a field of the record, is that
  // of its name, and is followed by that field's value as above. So with CommandIsAdded the command is known
  // to the character.
  lemma {:induction false} AddedIsField(base: string, r: Record, finds: Searches, n: nat, k: nat) returns (i: nat)
    requires n <= |r.fields| && k < |Added(base, r, finds, n)|
    ensures i < n && r.fields[i].name.Some? && r.fields[i].value.Some? && r.fields[i].value.value != "?"
    ensures var (opt, val) := Added(base, r, finds, n)[k];
            Lookup(r.fields[i].name.value) == Some(opt) && SearchedFor(r, r.fields[i], opt, val)
  {
    hide Consider, Lookup, SearchedFor;
    var before := Added(base, r, finds, n - 1);
    if k < |before| {
      i := AddedIsField(base, r, finds, n - 1, k);
    } else {
      i := n - 1;
      KeptValue(r, StepFields(r, finds, Begin(base, r, finds), n - 1).flags, r.fields[n - 1]);
    }
  }
}
