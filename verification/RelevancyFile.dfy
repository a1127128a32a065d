/** Reading a whole relevancy file: lines, columns, the alias table, and the syscalls printed. */
module RelevancyFile {
  import opened Text
  import opened Relevancy
  import opened Wrappers

  // ------------------------------------------------------------------- lines

  function StripRight(s: string): string {
    if s != "" && s[|s| - 1] in WHITE then StripRight(s[..|s| - 1]) else s
  }

  function StripLeft(s: string): (r: string)
    ensures r != "" ==> r[0] !in WHITE
  {
    s[Spn(s, WHITE)..]
  }

  // strip(), then everything before the first '#'.
  function Sanitize(line: string): string {
    var s := StripLeft(StripRight(line));
    s[..Cspn(s, "#")]
  }

  // split(None, max): white-space separated, the remainder in one piece after max splits.
  function Fields(s: string, max: nat): (r: seq<string>)
    ensures |r| <= max + 1
    ensures s != "" && s[0] !in WHITE ==> r != []
  {
    var t := StripLeft(s);
    if t == "" then []
    else if max == 0 then [t]
    else
      var e := Cspn(t, WHITE);
      [t[..e]] + Fields(t[e..], max - 1)
  }

  datatype Failure = BadList(v: Verdict) | MissingName | MissingList | AliasColumns | SyscallColumns

  // What a line says. A bare syscall is relevant nowhere; an alias needs a name and a list.
  datatype Line = Empty | Bare | Syscall(name: string, list: string) | Alias(name: string, list: string)
                | Wrong(failure: Failure)

  function ReadLine(line: string): Line {
    var s := Sanitize(line);
    if s == "" then Empty
    else
      var w := Fields(s, 3);
      if w == [] then Empty
      else if w[0] == "alias" then
        if |w| == 1 then Wrong(MissingName)
        else if |w| > 3 then Wrong(AliasColumns)
        else if |w| == 2 then Wrong(MissingList)
        else Alias(w[1], w[2])
      else if |w| == 1 then Bare
      else if |w| > 2 then Wrong(SyscallColumns)
      else Syscall(w[0], w[1])
  }

  // The parser between lines. error is the line and the reason it stopped at.
  datatype Reading<T> = Reading(table: T, line: nat, out: seq<string>, error: Option<(nat, Failure)>)

  // A syscall is printed when its list matches and the match is not negated.
  function Judge<T>(r: Reading<T>, name: string, v: Verdict): Reading<T> {
    match v
    case Match(relevant) => if relevant then r.(out := r.out + [name]) else r
    case NoMatch => r
    case _ => r.(error := Some((r.line, BadList(v))))
  }

  function Apply(h: Host, depth: nat, r: Reading<Aliases>, line: string): Reading<Aliases> {
    if r.error.Some? then r
    else
      var n := r.(line := r.line + 1);
      match ReadLine(line)
      case Alias(name, list) => n.(table := n.table[name := list])
      case Syscall(name, list) => Judge(n, name, Eval(h, n.table, depth, Split(list, ',')))
      case Wrong(f) => n.(error := Some((n.line, f)))
      case _ => n
  }

  function Process(h: Host, depth: nat, r: Reading<Aliases>, lines: seq<string>): Reading<Aliases>
    decreases |lines|
  {
    if lines == [] then r else Process(h, depth, Apply(h, depth, r, lines[0]), lines[1..])
  }

  // Two files in a row are read like one: the second starts from what the first left behind.
  lemma {:induction false} FilesCompose(h: Host, depth: nat, r: Reading<Aliases>, first: seq<string>,
                                        second: seq<string>)
    ensures Process(h, depth, r, first + second) == Process(h, depth, Process(h, depth, r, first), second)
    decreases |first|
  {
    hide Apply;
    if first == [] {
      assert first + second == second;
    } else {
      assert (first + second)[1..] == first[1..] + second;
      FilesCompose(h, depth, Apply(h, depth, r, first[0]), first[1..], second);
    }
  }

  lemma ApplyAppends(h: Host, depth: nat, r: Reading<Aliases>, line: string)
    ensures var s, t := Apply(h, depth, r, line), Apply(h, depth, r.(out := []), line);
            s.out == r.out + t.out && s.(out := []) == t.(out := [])
  {
    hide Eval, ReadLine, Split;
    assert r.out + [] == r.out;
  }

  // What is printed does not depend on what was printed before; it is added to it.
  lemma {:induction false} OutputAppends(h: Host, depth: nat, r: Reading<Aliases>, lines: seq<string>)
    ensures Process(h, depth, r, lines).out == r.out + Process(h, depth, r.(out := []), lines).out
    ensures Process(h, depth, r, lines).table == Process(h, depth, r.(out := []), lines).table
    decreases |lines|
  {
    if lines == [] {
      assert r.out + [] == r.out;
    } else {
      hide Apply;
      var s, t := Apply(h, depth, r, lines[0]), Apply(h, depth, r.(out := []), lines[0]);
      ApplyAppends(h, depth, r, lines[0]);
      OutputAppends(h, depth, s, lines[1..]);
      OutputAppends(h, depth, t, lines[1..]);
      Assoc(r.out, t.out, Process(h, depth, t.(out := []), lines[1..]).out);
    }
  }

  // ------------------------------------------------------- early and late binding

  // A table of aliases already expanded.
  type Expansions = map<string, seq<Item>>

  function FlipItems(items: seq<Item>, flip: bool): (r: seq<Item>)
    ensures |r| == |items|
  {
    if items == [] then []
    else [if items[0].Spec? then Spec(items[0].tok, items[0].neg != flip) else Blank] + FlipItems(items[1..], flip)
  }

  function Expand(tab: Expansions, toks: seq<string>, flip: bool): seq<Item> {
    if toks == [] then []
    else
      var (tok, neg) := ParseNeg(toks[0]);
      (if tok == "" then [Blank]
       else if tok in tab then FlipItems(tab[tok], flip != neg)
       else [Spec(tok, flip != neg)]) + Expand(tab, toks[1..], flip)
  }

  // The same reader, but an alias is expanded when it is defined.
  function ApplyEarly(h: Host, r: Reading<Expansions>, line: string): Reading<Expansions> {
    if r.error.Some? then r
    else
      var n := r.(line := r.line + 1);
      match ReadLine(line)
      case Alias(name, list) => n.(table := n.table[name := Expand(n.table, Split(list, ','), false)])
      case Syscall(name, list) => Judge(n, name, FirstMatch(h, Expand(n.table, Split(list, ','), false)))
      case Wrong(f) => n.(error := Some((n.line, f)))
      case _ => n
  }

  function ProcessEarly(h: Host, r: Reading<Expansions>, lines: seq<string>): Reading<Expansions>
    decreases |lines|
  {
    if lines == [] then r else ProcessEarly(h, ApplyEarly(h, r, lines[0]), lines[1..])
  }

  // Each alias is defined once, and no alias list so far, nor its own, mentions it.
  ghost predicate Unmentioned(al: Aliases, name: string) {
    forall n :: n in al ==> !Mentions(Split(al[n], ','), name)
  }

  ghost predicate Ordered(al: Aliases, lines: seq<string>)
    decreases |lines|
  {
    lines != [] ==>
      match ReadLine(lines[0])
      case Alias(name, list) =>
        name !in al && Unmentioned(al[name := list], name) && Ordered(al[name := list], lines[1..])
      case _ => Ordered(al, lines[1..])
  }

  lemma {:induction false} FlipFlip(items: seq<Item>, f: bool, g: bool)
    ensures FlipItems(FlipItems(items, f), g) == FlipItems(items, f != g)
  {
    if items != [] {
      assert FlipItems(items, f)[1..] == FlipItems(items[1..], f);
      FlipFlip(items[1..], f, g);
    }
  }

  lemma {:induction false} FlipAppend(a: seq<Item>, b: seq<Item>, f: bool)
    ensures FlipItems(a + b, f) == FlipItems(a, f) + FlipItems(b, f)
  {
    if a == [] {
      assert a + b == b;
    } else {
      assert (a + b)[1..] == a[1..] + b;
      FlipAppend(a[1..], b, f);
    }
  }

  lemma FlipOne(i: Item, f: bool)
    ensures FlipItems([i], f) == [if i.Spec? then Spec(i.tok, i.neg != f) else Blank]
  {
    assert [i][1..] == [];
  }

  // Negating a list as a whole negates its expansion.
  lemma {:induction false} FlattenFlips(al: Aliases, depth: nat, toks: seq<string>, flip: bool)
    requires Flatten(al, depth, toks, false).Some?
    ensures Flatten(al, depth, toks, flip) == Some(FlipItems(Flatten(al, depth, toks, false).value, flip))
    decreases depth, |toks|
  {
    hide Split, FlipItems;
    if toks == [] {
      assert FlipItems([], flip) == [];
    } else {
      var (tok, neg) := ParseNeg(toks[0]);
      FlattenFlips(al, depth, toks[1..], flip);
      var rest := Flatten(al, depth, toks[1..], false).value;
      if tok == "" {
        FlipAppend([Blank], rest, flip);
        FlipOne(Blank, flip);
      } else if tok in al {
        var body := Split(al[tok], ',');
        FlipFlattens(al, depth - 1, body, false != neg, false);
        FlattenFlips(al, depth - 1, body, neg);
        FlattenFlips(al, depth - 1, body, flip != neg);
        var inner := Flatten(al, depth - 1, body, false).value;
        FlipFlip(inner, neg, flip);
        assert (neg != flip) == (flip != neg);
        FlipAppend(FlipItems(inner, neg), rest, flip);
      } else {
        FlipAppend([Spec(tok, false != neg)], rest, flip);
        FlipOne(Spec(tok, false != neg), flip);
      }
    }
  }

  // tab holds the expansion of every alias of al, and n nested calls are enough to resolve any of them.
  ghost predicate Agree(al: Aliases, tab: Expansions, n: nat) {
    al.Keys == tab.Keys
    && forall name :: name in al ==> n > 0 && Flatten(al, n - 1, Split(al[name], ','), false) == Some(tab[name])
  }

  lemma {:induction false} ExpandIsFlatten(al: Aliases, tab: Expansions, n: nat, toks: seq<string>, flip: bool)
    requires Agree(al, tab, n)
    ensures Flatten(al, n, toks, flip) == Some(Expand(tab, toks, flip))
  {
    hide Split, FlipItems;
    if toks != [] {
      var (tok, neg) := ParseNeg(toks[0]);
      ExpandIsFlatten(al, tab, n, toks[1..], flip);
      if tok != "" && tok in al {
        FlattenFlips(al, n - 1, Split(al[tok], ','), flip != neg);
      }
    }
  }

  // Defining a name nobody mentions changes no expansion.
  lemma {:induction false} NewAliasKeeps(al: Aliases, name: string, list: string, depth: nat,
                                         toks: seq<string>, flip: bool)
    requires name !in al && Unmentioned(al, name) && !Mentions(toks, name)
    ensures Flatten(al[name := list], depth, toks, flip) == Flatten(al, depth, toks, flip)
    decreases depth, |toks|
  {
    hide Split;
    if toks != [] {
      var (tok, neg) := ParseNeg(toks[0]);
      MentionsTail(toks, name);
      assert tok != name;
      NewAliasKeeps(al, name, list, depth, toks[1..], flip);
      if tok != "" && tok in al && depth > 0 {
        NewAliasKeeps(al, name, list, depth - 1, Split(al[tok], ','), flip != neg);
      }
    }
  }

  lemma DefineAgrees(al: Aliases, tab: Expansions, n: nat, name: string, list: string)
    requires Agree(al, tab, n) && name !in al && Unmentioned(al[name := list], name)
    ensures Agree(al[name := list], tab[name := Expand(tab, Split(list, ','), false)], n + 1)
  {
    hide Split, Flatten, Expand, Mentions;
    var next := al[name := list];
    assert Unmentioned(al, name) by {
      forall m | m in al ensures !Mentions(Split(al[m], ','), name) { assert next[m] == al[m]; }
    }
    assert next[name] == list;
    ExpandIsFlatten(al, tab, n, Split(list, ','), false);
    NewAliasKeeps(al, name, list, n, Split(list, ','), false);
    forall m | m in al ensures Flatten(next, n, Split(next[m], ','), false) == Some(tab[m]) {
      FlattenDeeper(al, n - 1, n, Split(al[m], ','), false);
      NewAliasKeeps(al, name, list, n, Split(al[m], ','), false);
    }
  }

  lemma SameVerdict(h: Host, al: Aliases, tab: Expansions, n: nat, depth: nat, toks: seq<string>)
    requires Agree(al, tab, n) && n <= depth
    ensures Eval(h, al, depth, toks) == FirstMatch(h, Expand(tab, toks, false))
  {
    hide Split, Flatten, Expand, FirstMatch, Eval;
    ExpandIsFlatten(al, tab, n, toks, false);
    FlattenDeeper(al, n, depth, toks, false);
    InliningPreservesMeaning(h, al, depth, toks, false);
  }

  // What an onlooker sees of a reading.
  ghost predicate SameReading(late: Reading<Aliases>, early: Reading<Expansions>) {
    late.line == early.line && late.out == early.out && late.error == early.error
  }

  // The lines that define an alias.
  function AliasLines(lines: seq<string>): nat {
    if lines == [] then 0 else (if ReadLine(lines[0]).Alias? then 1 else 0) + AliasLines(lines[1..])
  }

  // In a file whose aliases are defined once and before any list mentions them, resolving aliases when
  // a list is used prints, and stops at, the same as expanding them when they are defined. The
  // recursion limit only has to allow as many nested calls as there are aliases.
  lemma {:induction false} LateIsEarly(h: Host, depth: nat, late: Reading<Aliases>, early: Reading<Expansions>,
                                       n: nat, lines: seq<string>)
    requires SameReading(late, early) && Agree(late.table, early.table, n)
    requires Ordered(late.table, lines) && n + AliasLines(lines) <= depth
    ensures SameReading(Process(h, depth, late, lines), ProcessEarly(h, early, lines))
    decreases |lines|
  {
    hide Split, Flatten, Expand, FirstMatch, Eval, ReadLine, Agree;
    if lines != [] {
      if late.error.Some? {
        StoppedReading(h, depth, late, early, lines);
      } else {
        var l, e := Apply(h, depth, late, lines[0]), ApplyEarly(h, early, lines[0]);
        match ReadLine(lines[0]) {
          case Alias(name, list) =>
            DefineAgrees(late.table, early.table, n, name, list);
            LateIsEarly(h, depth, l, e, n + 1, lines[1..]);
          case Syscall(name, list) =>
            SameVerdict(h, late.table, early.table, n, depth, Split(list, ','));
            LateIsEarly(h, depth, l, e, n, lines[1..]);
          case _ =>
            LateIsEarly(h, depth, l, e, n, lines[1..]);
        }
      }
    }
  }

  lemma {:induction false} StoppedReading(h: Host, depth: nat, late: Reading<Aliases>,
                                          early: Reading<Expansions>, lines: seq<string>)
    requires late.error.Some? && early.error.Some?
    ensures Process(h, depth, late, lines) == late && ProcessEarly(h, early, lines) == early
    decreases |lines|
  {
    if lines != [] { StoppedReading(h, depth, late, early, lines[1..]); }
  }

  function StartReading<T>(table: T): Reading<T> { Reading(table, 0, [], None) }

  lemma OrderedFileBindsAlike(h: Host, depth: nat, lines: seq<string>)
    requires Ordered(map[], lines) && AliasLines(lines) <= depth
    ensures SameReading(Process(h, depth, StartReading(map[]), lines), ProcessEarly(h, StartReading(map[]), lines))
  {
    LateIsEarly(h, depth, StartReading(map[]), StartReading(map[]), 0, lines);
  }

  // Nor does such a file ever run into the recursion limit.
  lemma OrderedFileNeverTooDeep(h: Host, depth: nat, lines: seq<string>)
    requires Ordered(map[], lines) && AliasLines(lines) <= depth
    ensures var r := Process(h, depth, StartReading(map[]), lines);
            r.error.Some? ==> r.error.value.1 != BadList(TooDeep)
  {
    OrderedFileBindsAlike(h, depth, lines);
    EarlyNeverDeep(h, StartReading(map[]), lines);
  }

  lemma LineNeverWrongDeep(line: string)
    ensures ReadLine(line).Wrong? ==> ReadLine(line).failure != BadList(TooDeep)
  {
    hide Sanitize, Fields;
  }

  lemma {:induction false} EarlyNeverDeep(h: Host, r: Reading<Expansions>, lines: seq<string>)
    requires r.error.Some? ==> r.error.value.1 != BadList(TooDeep)
    ensures var n := ProcessEarly(h, r, lines); n.error.Some? ==> n.error.value.1 != BadList(TooDeep)
    decreases |lines|
  {
    hide ReadLine, Expand, FirstMatch, Split;
    if lines != [] {
      if ReadLine(lines[0]).Syscall? {
        FlatNeverDeep(h, Expand(r.table, Split(ReadLine(lines[0]).list, ','), false));
      }
      LineNeverWrongDeep(lines[0]);
      EarlyNeverDeep(h, ApplyEarly(h, r, lines[0]), lines[1..]);
    }
  }
}
