/** Writing arch lists, and reading them back. */
module RelevancyText {
  import opened Text
  import opened Relevancy
  import opened RelevancyFile
  import opened Wrappers

  // <neg><arch> or <neg><arch>:<bits>; no bits is "".
  datatype ArchItem = ArchItem(neg: bool, arch: string, bits: string)

  predicate Plain(s: string) {
    forall i :: 0 <= i < |s| ==> s[i] !in ",:#" && !IsBlank(s[i])
  }

  predicate WellFormed(a: ArchItem) {
    a.arch != "" && a.arch[0] != '!' && Plain(a.arch) && Plain(a.bits)
  }

  function ShowSpec(a: ArchItem): string {
    a.arch + if a.bits == "" then "" else ":" + a.bits
  }

  function Show(a: ArchItem): string {
    (if a.neg then "!" else "") + ShowSpec(a)
  }

  function Read(tok: string): ArchItem {
    var (spec, neg) := ParseNeg(tok);
    var i := Find(spec, ':');
    ArchItem(neg, spec[..i], if i < |spec| then spec[i + 1..] else "")
  }

  function ShowAll(items: seq<ArchItem>): seq<string> {
    if items == [] then [] else [Show(items[0])] + ShowAll(items[1..])
  }

  function ReadAll(toks: seq<string>): seq<ArchItem> {
    if toks == [] then [] else [Read(toks[0])] + ReadAll(toks[1..])
  }

  function ShowList(items: seq<ArchItem>): string { Join(ShowAll(items), ',') }

  lemma ShowNeg(a: ArchItem)
    requires WellFormed(a)
    ensures ParseNeg(Show(a)) == (ShowSpec(a), a.neg)
    ensures ShowSpec(a) != ""
  {
    assert Show(a)[0] == if a.neg then '!' else a.arch[0];
    if a.neg { assert Show(a)[1..] == ShowSpec(a); } else { assert Show(a) == ShowSpec(a); }
  }

  lemma ShowColon(a: ArchItem)
    requires WellFormed(a)
    ensures Find(ShowSpec(a), ':') == |a.arch|
    ensures ShowSpec(a)[..|a.arch|] == a.arch
    ensures a.bits != "" ==> ShowSpec(a)[|a.arch| + 1..] == a.bits
  {
    hide Cspn;
    CspnIs(ShowSpec(a), ":", |a.arch|);
  }

  lemma ShowPlain(a: ArchItem)
    requires WellFormed(a)
    ensures forall i :: 0 <= i < |Show(a)| ==> Show(a)[i] !in ",#" && !IsBlank(Show(a)[i])
  {
    var spec := ShowSpec(a);
    forall i | 0 <= i < |spec| ensures spec[i] !in ",#" && !IsBlank(spec[i]) {
      if i > |a.arch| { assert spec[i] == a.bits[i - |a.arch| - 1]; }
    }
  }

  lemma ReadShow(a: ArchItem)
    requires WellFormed(a)
    ensures Read(Show(a)) == a
  {
    hide Find, ParseNeg, Show, ShowSpec;
    ShowNeg(a);
    ShowColon(a);
    ShowLength(a);
  }

  lemma ShowLength(a: ArchItem)
    ensures |ShowSpec(a)| == |a.arch| + if a.bits == "" then 0 else 1 + |a.bits|
  {
  }

  ghost predicate AllWellFormed(items: seq<ArchItem>) {
    forall i :: 0 <= i < |items| ==> WellFormed(items[i])
  }

  lemma {:induction false} ShowAllPlain(items: seq<ArchItem>)
    requires AllWellFormed(items)
    ensures |ShowAll(items)| == |items|
    ensures forall p :: p in ShowAll(items) ==> ',' !in p && '#' !in p
    ensures ReadAll(ShowAll(items)) == items
  {
    hide Show, Read, WellFormed;
    if items != [] {
      ShowAllPlain(items[1..]);
      ShowPlain(items[0]);
      ReadShow(items[0]);
      assert ShowAll(items)[1..] == ShowAll(items[1..]);
    }
  }

  // Printing a well-formed arch list and splitting and reading it again gives the same items.
  lemma ListRoundTrip(items: seq<ArchItem>)
    requires items != [] && AllWellFormed(items)
    ensures Split(ShowList(items), ',') == ShowAll(items)
    ensures ReadAll(Split(ShowList(items), ',')) == items
  {
    hide ShowAll, ReadAll, Split, Join;
    ShowAllPlain(items);
    assert ShowAll(items) != [];
    SplitOfJoin(ShowAll(items), ',');
  }

  // ------------------------------------------------------------ the documented algorithm

  // An item matches by arch and, if it gives any, by bits.
  predicate Matches(h: Host, a: ArchItem) {
    (h.glob(h.arch, a.arch) || a.arch == "all") && (a.bits == "" || a.bits == h.mode)
  }

  // Some item matches, none before it does, and it is not negated.
  ghost predicate Included(h: Host, items: seq<ArchItem>) {
    exists i :: 0 <= i < |items| && Matches(h, items[i]) && !items[i].neg
                && forall j :: 0 <= j < i ==> !Matches(h, items[j])
  }

  lemma IncludedFirst(h: Host, items: seq<ArchItem>)
    requires items != []
    ensures Included(h, items) <==> if Matches(h, items[0]) then !items[0].neg else Included(h, items[1..])
  {
    hide Matches;
    var rest := items[1..];
    if Included(h, items) {
      var i :| 0 <= i < |items| && Matches(h, items[i]) && !items[i].neg
               && forall j :: 0 <= j < i ==> !Matches(h, items[j]);
      if i > 0 { assert Matches(h, rest[i - 1]) && !rest[i - 1].neg; }
    }
    if !Matches(h, items[0]) && Included(h, rest) {
      var i :| 0 <= i < |rest| && Matches(h, rest[i]) && !rest[i].neg
               && forall j :: 0 <= j < i ==> !Matches(h, rest[j]);
      forall j | 0 <= j < i + 1 ensures !Matches(h, items[j]) { if j > 0 { assert !Matches(h, rest[j - 1]); } }
      assert Matches(h, items[i + 1]) && !items[i + 1].neg;
    }
  }

  lemma ShowMatches(h: Host, a: ArchItem)
    requires WellFormed(a)
    ensures ParseArchspec(h, ShowSpec(a)) == if Matches(h, a) then Yes else No
  {
    hide Find, ShowSpec;
    ShowColon(a);
    ShowLength(a);
  }

  lemma {:induction false} ShownListVerdict(h: Host, al: Aliases, depth: nat, items: seq<ArchItem>)
    requires AllWellFormed(items)
    requires forall i :: 0 <= i < |items| ==> ShowSpec(items[i]) !in al
    ensures Eval(h, al, depth, ShowAll(items)) == Match(true) <==> Included(h, items)
    ensures Eval(h, al, depth, ShowAll(items)).Match? || Eval(h, al, depth, ShowAll(items)).NoMatch?
  {
    hide Show, ShowSpec, Included, Matches, ParseArchspec, ParseNeg, WellFormed, Split;
    if items == [] {
      assert !Included(h, items) by { NothingIncluded(h); }
    } else {
      assert ShowAll(items)[0] == Show(items[0]) && ShowAll(items)[1..] == ShowAll(items[1..]);
      ShowNeg(items[0]);
      ShowMatches(h, items[0]);
      IncludedFirst(h, items);
      ShownListVerdict(h, al, depth, items[1..]);
    }
  }

  lemma NothingIncluded(h: Host)
    ensures !Included(h, [])
  {
  }

  // ------------------------------------------------------------ whole lines

  predicate Word(s: string) {
    s != "" && forall i :: 0 <= i < |s| ==> s[i] != '#' && !IsBlank(s[i])
  }

  // Text that a line can hold after its indentation and before its end: no comment, no blank around it.
  predicate Content(s: string) {
    s != "" && !IsBlank(s[0]) && !IsBlank(s[|s| - 1]) && forall i :: 0 <= i < |s| ==> s[i] != '#'
  }

  // What may follow it: blanks, the line feed among them, and perhaps a comment.
  function Ending(end: string, comment: Option<string>): string {
    end + if comment.Some? then "#" + comment.value else ""
  }

  lemma {:induction false} StripRightOf(s: string, end: string)
    requires s != "" && !IsBlank(s[|s| - 1]) && AllBlank(end)
    ensures StripRight(s + end) == s
    decreases |end|
  {
    hide WHITE, IsBlank;
    var t := s + end;
    WhiteIsBlank(t[|t| - 1]);
    if end == "" {
      assert t == s;
    } else {
      assert t[|t| - 1] == end[|end| - 1];
      assert t[..|t| - 1] == s + end[..|end| - 1];
      StripRightOf(s, end[..|end| - 1]);
    }
  }

  lemma StripLeftOf(lead: string, s: string)
    requires AllBlank(lead) && (s != "" ==> !IsBlank(s[0]))
    ensures StripLeft(lead + s) == s
  {
    hide WHITE, IsBlank, Spn;
    BlankIsWhite(lead);
    if s != "" { WhiteIsBlank(s[0]); }
    SpnIs(lead + s, WHITE, |lead|);
    assert (lead + s)[|lead|..] == s;
  }

  // White space is stripped before the comment is cut, so a comment leaves what precedes it, its leading
  // white space gone and its trailing white space kept.
  lemma CommentCut(s: string, comment: string)
    requires forall i :: 0 <= i < |s| ==> s[i] != '#'
    ensures Sanitize(s + "#" + comment) == StripLeft(s)
  {
    hide Spn, Cspn, StripRight, WHITE;
    var c := StripComment(s, comment);
    var k := Spn(s, WHITE);
    var t := s + "#" + c;
    WhiteIsBlank('#');
    SpnIs(t, WHITE, k);
    var u := t[k..];
    assert u == s[k..] + "#" + c;
    CspnIs(u, "#", |s| - k);
    assert u[..|s| - k] == s[k..];
  }

  // Indentation, the line end and a comment are taken off; blanks before a comment stay.
  lemma SanitizeOf(lead: string, s: string, end: string, comment: Option<string>) returns (left: string)
    requires AllBlank(lead) && AllBlank(end) && Content(s)
    ensures AllBlank(left) && Sanitize(lead + s + Ending(end, comment)) == s + left
  {
    hide Cspn, StripRight, StripLeft, IsBlank, Sanitize;
    if comment.Some? {
      var t := lead + s + end;
      assert lead + s + Ending(end, comment) == t + "#" + comment.value;
      forall i | 0 <= i < |t| ensures t[i] != '#' { BlankNoHash(t[i]); }
      CommentCut(t, comment.value);
      assert t == lead + (s + end);
      StripLeftOf(lead, s + end);
      left := end;
    } else {
      assert lead + s + Ending(end, comment) == lead + s + end;
      SanitizePlain(lead, s, end);
      left := "";
      assert s + left == s;
    }
  }

  lemma BlankNoHash(c: char)
    ensures IsBlank(c) ==> c != '#'
  {
  }

  lemma SanitizePlain(lead: string, s: string, end: string)
    requires AllBlank(lead) && AllBlank(end) && Content(s)
    ensures Sanitize(lead + s + end) == s
  {
    hide Cspn, StripRight, StripLeft, IsBlank;
    StripRightOf(lead + s, end);
    StripLeftOf(lead, s);
    CspnIs(s, "#", |s|);
    assert s[..|s|] == s;
  }

  lemma WordSpan(w: string, rest: string)
    requires Word(w) && (rest != "" ==> IsBlank(rest[0]))
    ensures Cspn(w + rest, WHITE) == |w|
    ensures StripLeft(w + rest) == w + rest
  {
    hide Cspn, IsBlank, WHITE, Spn;
    var s := w + rest;
    forall i | 0 <= i < |w| ensures s[i] !in WHITE { WhiteIsBlank(w[i]); }
    if rest != "" { WhiteIsBlank(rest[0]); }
    CspnIs(s, WHITE, |w|);
    SpnIs(s, WHITE, 0);
    assert s[0..] == s;
  }

  // The last column, with blanks after it.
  lemma FieldsLast(w: string, end: string, max: nat)
    requires Word(w) && AllBlank(end) && max > 0
    ensures Fields(w + end, max) == [w]
  {
    hide Cspn, IsBlank, StripLeft;
    WordSpan(w, end);
    assert (w + end)[..|w|] == w && (w + end)[|w|..] == end;
    assert end + "" == end;
    StripLeftOf(end, "");
    assert Fields(end, max - 1) == [];
  }

  // A column and the blanks after it.
  lemma FieldsFirst(w: string, gap: string, rest: string, max: nat)
    requires Word(w) && max > 0 && gap != "" && AllBlank(gap) && rest != "" && !IsBlank(rest[0])
    ensures Fields(w + gap + rest, max) == [w] + Fields(rest, max - 1)
  {
    hide Cspn, IsBlank, StripLeft;
    var s := w + gap + rest;
    assert s == w + (gap + rest);
    WordSpan(w, gap + rest);
    assert s[..|w|] == w && s[|w|..] == gap + rest;
    StripLeftOf(gap, rest);
    assert "" + rest == rest;
    StripLeftOf("", rest);
  }

  // Any text that starts a column is at least one more column, and all of it at most max + 1.
  lemma FieldsRest(rest: string, max: nat)
    requires rest != "" && !IsBlank(rest[0])
    ensures 1 <= |Fields(rest, max)| <= max + 1
  {
    hide StripLeft;
    assert "" + rest == rest;
    StripLeftOf("", rest);
  }

  lemma ContentJoin(w: string, gap: string, rest: string)
    requires Word(w) && AllBlank(gap) && Content(rest)
    ensures Content(w + gap + rest)
  {
    var s := w + gap + rest;
    forall i | 0 <= i < |s| ensures s[i] != '#' {
      if |w| <= i < |w| + |gap| { assert IsBlank(gap[i - |w|]); }
    }
  }

  lemma WordContent(w: string)
    requires Word(w)
    ensures Content(w)
  {
  }

  // A syscall line, and an alias line: indented or not, the columns parted by any blanks, ended by any
  // blanks (so by a line feed, or CR and line feed) and any comment.
  lemma LineRoundTrip(lead: string, name: string, gap: string, list: string, end: string, comment: Option<string>)
    requires AllBlank(lead) && AllBlank(end) && gap != "" && AllBlank(gap) && Word(name) && Word(list)
    ensures name != "alias" ==> ReadLine(lead + (name + gap + list) + Ending(end, comment)) == Syscall(name, list)
  {
    hide Sanitize, Fields, IsBlank, Ending;
    WordContent(list);
    ContentJoin(name, gap, list);
    var left := SanitizeOf(lead, name + gap + list, end, comment);
    assert name + gap + list + left == name + gap + (list + left);
    FieldsFirst(name, gap, list + left, 3);
    FieldsLast(list, left, 2);
  }

  lemma AliasRoundTrip(lead: string, sep: string, name: string, gap: string, list: string, end: string,
                       comment: Option<string>)
    requires AllBlank(lead) && AllBlank(end) && sep != "" && AllBlank(sep) && gap != "" && AllBlank(gap)
    requires Word(name) && Word(list)
    ensures ReadLine(lead + ("alias" + sep + (name + gap + list)) + Ending(end, comment)) == Alias(name, list)
  {
    hide Sanitize, Fields, IsBlank, Ending;
    AliasWord();
    WordContent(list);
    ContentJoin(name, gap, list);
    var two := name + gap + list;
    ContentJoin("alias", sep, two);
    var left := SanitizeOf(lead, "alias" + sep + two, end, comment);
    assert "alias" + sep + two + left == "alias" + sep + (two + left);
    assert two + left == name + gap + (list + left);
    FieldsFirst("alias", sep, two + left, 3);
    FieldsFirst(name, gap, list + left, 2);
    FieldsLast(list, left, 1);
  }

  lemma AliasWord()
    ensures Word("alias")
  {
  }

  // Lines with the wrong number of columns, each with its own failure; a bare syscall has none.
  lemma WrongLines(lead: string, w: string, end: string, comment: Option<string>)
    requires AllBlank(lead) && AllBlank(end) && Word(w)
    ensures ReadLine(lead + w + Ending(end, comment)) == if w == "alias" then Wrong(MissingName) else Bare
  {
    hide Sanitize, Fields, IsBlank, Ending;
    WordContent(w);
    var left := SanitizeOf(lead, w, end, comment);
    FieldsLast(w, left, 3);
  }

  lemma MissingListLine(lead: string, sep: string, name: string, end: string, comment: Option<string>)
    requires AllBlank(lead) && AllBlank(end) && sep != "" && AllBlank(sep) && Word(name)
    ensures ReadLine(lead + ("alias" + sep + name) + Ending(end, comment)) == Wrong(MissingList)
  {
    hide Sanitize, Fields, IsBlank, Ending;
    AliasWord();
    WordContent(name);
    ContentJoin("alias", sep, name);
    var left := SanitizeOf(lead, "alias" + sep + name, end, comment);
    assert "alias" + sep + name + left == "alias" + sep + (name + left);
    FieldsFirst("alias", sep, name + left, 3);
    FieldsLast(name, left, 2);
  }

  // Three columns or more are too many for a syscall, four or more for an alias.
  lemma ManyColumns(lead: string, a: string, g: string, b: string, h: string, rest: string, end: string,
                    comment: Option<string>)
    requires AllBlank(lead) && AllBlank(end) && g != "" && AllBlank(g) && h != "" && AllBlank(h)
    requires Word(a) && Word(b) && Content(rest)
    ensures a != "alias" ==> ReadLine(lead + (a + g + (b + h + rest)) + Ending(end, comment)) == Wrong(SyscallColumns)
  {
    hide Sanitize, Fields, IsBlank, Ending;
    ContentJoin(b, h, rest);
    var two := b + h + rest;
    ContentJoin(a, g, two);
    var left := SanitizeOf(lead, a + g + two, end, comment);
    assert a + g + two + left == a + g + (two + left);
    assert two + left == b + h + (rest + left);
    FieldsFirst(a, g, two + left, 3);
    FieldsFirst(b, h, rest + left, 2);
    FieldsRest(rest + left, 1);
  }

  lemma ManyAliasColumns(lead: string, sep: string, a: string, g: string, b: string, h: string, rest: string,
                         end: string, comment: Option<string>)
    requires AllBlank(lead) && AllBlank(end) && sep != "" && AllBlank(sep)
    requires g != "" && AllBlank(g) && h != "" && AllBlank(h)
    requires Word(a) && Word(b) && Content(rest)
    ensures ReadLine(lead + ("alias" + sep + (a + g + (b + h + rest))) + Ending(end, comment)) == Wrong(AliasColumns)
  {
    hide Sanitize, Fields, IsBlank, Ending;
    AliasWord();
    ContentJoin(b, h, rest);
    var two := b + h + rest;
    ContentJoin(a, g, two);
    var three := a + g + two;
    ContentJoin("alias", sep, three);
    var left := SanitizeOf(lead, "alias" + sep + three, end, comment);
    assert "alias" + sep + three + left == "alias" + sep + (three + left);
    assert three + left == a + g + (two + left);
    assert two + left == b + h + (rest + left);
    FieldsFirst("alias", sep, three + left, 3);
    FieldsFirst(a, g, two + left, 2);
    FieldsFirst(b, h, rest + left, 1);
    FieldsRest(rest + left, 0);
  }

  // A line with nothing but blanks, or a comment after them, says nothing.
  lemma EmptyLine(lead: string, comment: Option<string>)
    requires AllBlank(lead)
    ensures ReadLine(Ending(lead, comment)) == Empty
  {
    hide Spn, Cspn, IsBlank;
    if comment.Some? {
      forall i | 0 <= i < |lead| ensures lead[i] != '#' { BlankNoHash(lead[i]); }
      CommentCut(lead, comment.value);
      assert lead + "#" + comment.value == Ending(lead, comment) by { Assoc(lead, "#", comment.value); }
      assert lead + "" == lead;
      StripLeftOf(lead, "");
    } else {
      assert Ending(lead, comment) == lead;
      StripRightAll(lead);
      assert "" + "" == "";
      StripLeftOf("", "");
    }
  }

  lemma {:induction false} StripRightAll(s: string)
    requires AllBlank(s)
    ensures StripRight(s) == ""
    decreases |s|
  {
    hide IsBlank, WHITE;
    if s != "" {
      WhiteIsBlank(s[|s| - 1]);
      StripRightAll(s[..|s| - 1]);
    }
  }

  lemma {:induction false} StripComment(s: string, comment: string) returns (c: string)
    ensures StripRight(s + "#" + comment) == s + "#" + c
    decreases |comment|
  {
    var t := s + "#" + comment;
    c := comment;
    if comment == "" {
      WhiteIsBlank('#');
      assert t[|t| - 1] == '#';
    } else {
      assert t[|t| - 1] == comment[|comment| - 1];
      if comment[|comment| - 1] in WHITE {
        assert t[..|t| - 1] == s + "#" + comment[..|comment| - 1];
        c := StripComment(s, comment[..|comment| - 1]);
      }
    }
  }

  lemma {:induction false} ShowListWord(items: seq<ArchItem>)
    requires items != [] && AllWellFormed(items)
    ensures Word(ShowList(items))
  {
    hide Show, WellFormed;
    ShowPlain(items[0]);
    ShowNeg(items[0]);
    assert Show(items[0]) != "" by { assert ParseNeg("") == ("", false); }
    if |items| == 1 {
      assert ShowAll(items) == [Show(items[0])];
    } else {
      ShowListWord(items[1..]);
      var all := ShowAll(items);
      assert all[0] == Show(items[0]) && all[1..] == ShowAll(items[1..]);
      JoinWords(Show(items[0]), ShowList(items[1..]));
      ShowAllPlain(items);
      assert ShowList(items) == Show(items[0]) + [','] + ShowList(items[1..]);
    }
  }

  lemma JoinWords(s: string, t: string)
    requires Word(s) && Word(t)
    ensures Word(s + [','] + t)
  {
  }

  // The ends a line can have, and the shortest gaps between columns.
  lemma LineEnds()
    ensures AllBlank("") && AllBlank("\n") && AllBlank("\r\n") && AllBlank(" ") && AllBlank("\t")
    ensures Ending("", None) == ""
  {
  }

  // From a written line to the syscall printed: exactly the documented first-match rule.
  lemma WrittenLineRelevance(h: Host, r: Reading<Aliases>, depth: nat, name: string, gap: string,
                             items: seq<ArchItem>, end: string, comment: Option<string>)
    requires Word(name) && name != "alias" && items != [] && AllWellFormed(items)
    requires gap != "" && AllBlank(gap) && AllBlank(end)
    requires r.error.None? && forall i :: 0 <= i < |items| ==> ShowSpec(items[i]) !in r.table
    ensures Apply(h, depth, r, name + gap + ShowList(items) + Ending(end, comment))
         == r.(line := r.line + 1, out := if Included(h, items) then r.out + [name] else r.out)
  {
    hide ShowList, ShowAll, ShowSpec, ReadLine, Eval, Split, Included, Ending, AllBlank;
    ShowListWord(items);
    LineEnds();
    LineRoundTrip("", name, gap, ShowList(items), end, comment);
    assert "" + (name + gap + ShowList(items)) == name + gap + ShowList(items);
    ListRoundTrip(items);
    ShownListVerdict(h, r.table, depth, items);
  }

  // ------------------------------------------------------ why the order of definitions matters

  lemma OneWord(w: string)
    requires ',' !in w
    ensures Split(w, ',') == [w]
  {
    hide Cspn;
    CspnIs(w, ",", |w|);
  }

  const FORWARD: seq<string> := ["alias a b", "alias b all", "s a"]

  // An alias mentioned before it is defined is an alias when used late, but an arch when expanded early.
  lemma {:induction false} ForwardReferenceDiffers(h: Host, depth: nat)
    requires depth >= 2 && !h.glob(h.arch, "b")
    ensures Process(h, depth, StartReading(map[]), FORWARD).out == ["s"]
    ensures ProcessEarly(h, StartReading(map[]), FORWARD).out == []
  {
    hide Process, ProcessEarly;
    ForwardLines();
    LateProcess(h, depth);
    EarlyProcess(h);
  }

  lemma ForwardLines()
    ensures ReadLine(FORWARD[0]) == Alias("a", "b") && ReadLine(FORWARD[1]) == Alias("b", "all")
    ensures ReadLine(FORWARD[2]) == Syscall("s", "a")
    ensures Split("a", ',') == ["a"] && Split("b", ',') == ["b"] && Split("all", ',') == ["all"]
  {
    hide ReadLine, Split, Ending, AllBlank;
    LineEnds();
    AliasRoundTrip("", " ", "a", " ", "b", "", None);
    AliasRoundTrip("", " ", "b", " ", "all", "", None);
    LineRoundTrip("", "s", " ", "a", "", None);
    assert "" + ("alias" + " " + ("a" + " " + "b")) + "" == FORWARD[0];
    assert "" + ("alias" + " " + ("b" + " " + "all")) + "" == FORWARD[1];
    assert "" + ("s" + " " + "a") + "" == FORWARD[2];
    OneWord("a");
    OneWord("b");
    OneWord("all");
  }

  lemma ThreeLines(h: Host, depth: nat, late: Reading<Aliases>, early: Reading<Expansions>)
    ensures Process(h, depth, late, FORWARD)
         == Apply(h, depth, Apply(h, depth, Apply(h, depth, late, FORWARD[0]), FORWARD[1]), FORWARD[2])
    ensures ProcessEarly(h, early, FORWARD)
         == ApplyEarly(h, ApplyEarly(h, ApplyEarly(h, early, FORWARD[0]), FORWARD[1]), FORWARD[2])
  {
    hide Apply, ApplyEarly;
    var two := FORWARD[1..];
    assert two == [FORWARD[1], FORWARD[2]] && two[1..] == [FORWARD[2]] && [FORWARD[2]][1..] == [];
  }

  lemma LateProcess(h: Host, depth: nat)
    requires depth >= 2
    ensures Process(h, depth, StartReading(map[]), FORWARD).out == ["s"]
  {
    hide Process, ProcessEarly, ReadLine, Split, Eval, FORWARD;
    var al: Aliases := map["a" := "b", "b" := "all"];
    ThreeLines(h, depth, StartReading(map[]), StartReading(map[]));
    ForwardLines();
    LateForward(h, al, depth);
    assert map["a" := "b"]["b" := "all"] == al;
  }

  lemma EarlyProcess(h: Host)
    requires !h.glob(h.arch, "b")
    ensures ProcessEarly(h, StartReading(map[]), FORWARD).out == []
  {
    hide Process, ProcessEarly, ReadLine, Split, Expand, FirstMatch, FORWARD;
    var tab: Expansions := map["a" := [Spec("b", false)], "b" := [Spec("all", false)]];
    ThreeLines(h, 0, StartReading(map[]), StartReading(map[]));
    ForwardLines();
    NoAliasYet();
    EarlyForward(h, tab);
    assert map["a" := [Spec("b", false)]]["b" := [Spec("all", false)]] == tab;
  }

  lemma LateForward(h: Host, al: Aliases, depth: nat)
    requires depth >= 2 && al == map["a" := "b", "b" := "all"]
    ensures Eval(h, al, depth, ["a"]) == Match(true)
  {
    hide Split, Cspn;
    OneWord("b");
    OneWord("all");
    AllMatches(h);
    assert Eval(h, al, depth - 2, ["all"]) == Match(true);
    assert Eval(h, al, depth - 1, ["b"]) == Match(true);
  }

  lemma AllMatches(h: Host)
    ensures ParseArchspec(h, "all") == Yes
    ensures !h.glob(h.arch, "b") ==> ParseArchspec(h, "b") == No
  {
    CspnIs("all", ":", 3);
    CspnIs("b", ":", 1);
    assert "all"[..3] == "all" && "b"[..1] == "b";
  }

  lemma NoAliasYet()
    ensures Expand(map[], ["b"], false) == [Spec("b", false)]
    ensures Expand(map["a" := [Spec("b", false)]], ["all"], false) == [Spec("all", false)]
  {
    assert ["b"][1..] == [] && ["all"][1..] == [];
  }

  lemma EarlyForward(h: Host, tab: Expansions)
    requires !h.glob(h.arch, "b") && "a" in tab && tab["a"] == [Spec("b", false)]
    ensures FirstMatch(h, Expand(tab, ["a"], false)) == NoMatch
  {
    hide ParseArchspec;
    AllMatches(h);
    var items := [Spec("b", false)];
    assert items[1..] == [] && ["a"][1..] == [];
    assert FlipItems(items, false) == items;
    assert Expand(tab, ["a"], false) == items;
  }
}
