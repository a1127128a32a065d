/** What a relevancy file means, line by line and token by token, without the parser's state. */
module RelevancyMeaning {
  import opened Text
  import opened Relevancy
  import opened RelevancyFile
  import opened RelevancyText
  import opened Wrappers

  // ----------------------------------------------------------------------- lines

  // The aliases known on line i: those of the lines before, the latest definition of a name counting.
  function Known(lines: seq<string>, i: nat): Aliases
    requires i <= |lines|
  {
    if i == 0 then map[]
    else
      match ReadLine(lines[i - 1])
      case Alias(name, list) => Known(lines, i - 1)[name := list]
      case _ => Known(lines, i - 1)
  }

  // What the list of a syscall line comes to.
  function VerdictOn(h: Host, depth: nat, lines: seq<string>, i: nat): Verdict
    requires i < |lines| && ReadLine(lines[i]).Syscall?
  {
    Eval(h, Known(lines, i), depth, Split(ReadLine(lines[i]).list, ','))
  }

  // Line i is in error: it has wrong columns, or its list has a malformed or empty token, or aliases nested
  // too deep, that is met before any match.
  ghost predicate Faulty(h: Host, depth: nat, lines: seq<string>, i: nat, why: Failure)
    requires i < |lines|
  {
    match ReadLine(lines[i])
    case Wrong(f) => why == f
    case Syscall(name, list) =>
      var v := VerdictOn(h, depth, lines, i);
      why == BadList(v) && (v.Malformed? || v == EmptySpec || v == TooDeep)
    case _ => false
  }

  ghost predicate Sound(h: Host, depth: nat, lines: seq<string>, i: nat)
    requires i < |lines|
  {
    forall why :: !Faulty(h, depth, lines, i, why)
  }

  // The syscalls of the first n lines whose list includes this host, in order.
  function Relevant(h: Host, depth: nat, lines: seq<string>, n: nat): seq<string>
    requires n <= |lines|
  {
    if n == 0 then []
    else
      Relevant(h, depth, lines, n - 1) +
      match ReadLine(lines[n - 1])
      case Syscall(name, list) => if VerdictOn(h, depth, lines, n - 1) == Match(true) then [name] else []
      case _ => []
  }

  lemma {:induction false} ProcessSnoc(h: Host, depth: nat, r: Reading<Aliases>, lines: seq<string>, line: string)
    ensures Process(h, depth, r, lines + [line]) == Apply(h, depth, Process(h, depth, r, lines), line)
    decreases |lines|
  {
    hide Apply;
    if lines == [] {
      assert [] + [line] == [line] && [line][1..] == [];
    } else {
      assert (lines + [line])[1..] == lines[1..] + [line];
      ProcessSnoc(h, depth, Apply(h, depth, r, lines[0]), lines[1..], line);
    }
  }

  // The parser after n lines.
  function After(h: Host, depth: nat, lines: seq<string>, n: nat): Reading<Aliases>
    requires n <= |lines|
  {
    Process(h, depth, StartReading(map[]), lines[..n])
  }

  lemma AfterNext(h: Host, depth: nat, lines: seq<string>, n: nat)
    requires n < |lines|
    ensures After(h, depth, lines, n + 1) == Apply(h, depth, After(h, depth, lines, n), lines[n])
  {
    hide Process, Apply;
    assert lines[..n + 1] == lines[..n] + [lines[n]];
    ProcessSnoc(h, depth, StartReading(map[]), lines[..n], lines[n]);
  }

  // One line, in a file read without error so far.
  lemma LineMeaning(h: Host, depth: nat, lines: seq<string>, n: nat, r: Reading<Aliases>)
    requires n < |lines| && r == Reading(Known(lines, n), n, Relevant(h, depth, lines, n), None)
    ensures var m := Apply(h, depth, r, lines[n]);
            && m.out == Relevant(h, depth, lines, n + 1) && m.line == n + 1
            && (m.error.None? ==> m.table == Known(lines, n + 1) && Sound(h, depth, lines, n))
            && (m.error.Some? ==> m.error.value.0 == n + 1 && Faulty(h, depth, lines, n, m.error.value.1))
  {
    hide ReadLine, Eval, Split;
    assert r.out + [] == r.out;
  }

  // Without an error the whole file was read: every line is sound, the syscalls printed are the relevant
  // ones in order. With an error the parser stands at the first faulty line, reports it with its reason,
  // and has printed the relevant syscalls before it.
  lemma {:induction false} FileMeaning(h: Host, depth: nat, lines: seq<string>, n: nat)
    requires n <= |lines|
    ensures var r := After(h, depth, lines, n);
            && (r.error.None? ==>
                  && r == Reading(Known(lines, n), n, Relevant(h, depth, lines, n), None)
                  && forall i :: 0 <= i < n ==> Sound(h, depth, lines, i))
            && (r.error.Some? ==>
                  var at := r.error.value.0 - 1;
                  && 0 <= at < n && r.line == at + 1
                  && Faulty(h, depth, lines, at, r.error.value.1)
                  && (forall i :: 0 <= i < at ==> Sound(h, depth, lines, i))
                  && r.out == Relevant(h, depth, lines, at))
  {
    hide Apply, ReadLine, Sound, Faulty, Relevant, Known, After;
    if n == 0 {
      NothingRead(h, depth, lines);
    } else {
      FileMeaning(h, depth, lines, n - 1);
      AfterNext(h, depth, lines, n - 1);
      var r := After(h, depth, lines, n - 1);
      if r.error.None? {
        LineMeaning(h, depth, lines, n - 1, r);
        if After(h, depth, lines, n).error.Some? {
          FaultyPrintsNothing(h, depth, lines, n - 1, After(h, depth, lines, n).error.value.1);
        }
      } else {
        ErrorStays(h, depth, r, lines[n - 1]);
      }
    }
  }

  lemma NothingRead(h: Host, depth: nat, lines: seq<string>)
    ensures After(h, depth, lines, 0) == Reading(Known(lines, 0), 0, Relevant(h, depth, lines, 0), None)
  {
  }

  lemma ErrorStays(h: Host, depth: nat, r: Reading<Aliases>, line: string)
    requires r.error.Some?
    ensures Apply(h, depth, r, line) == r
  {
  }

  lemma FaultyPrintsNothing(h: Host, depth: nat, lines: seq<string>, n: nat, why: Failure)
    requires n < |lines| && Faulty(h, depth, lines, n, why)
    ensures Relevant(h, depth, lines, n + 1) == Relevant(h, depth, lines, n)
  {
    hide ReadLine, Eval, Split;
    assert Relevant(h, depth, lines, n) + [] == Relevant(h, depth, lines, n);
  }

  // ---------------------------------------------------------------------- tokens

  // A list means what its first token that decides anything means, and nothing if none does.
  lemma {:induction false} FirstTokenDecides(h: Host, al: Aliases, depth: nat, toks: seq<string>, i: nat)
    requires i <= |toks| && forall j :: 0 <= j < i ==> Eval(h, al, depth, [toks[j]]) == NoMatch
    ensures i == |toks| ==> Eval(h, al, depth, toks) == NoMatch
    ensures i < |toks| && Eval(h, al, depth, [toks[i]]) != NoMatch ==>
              Eval(h, al, depth, toks) == Eval(h, al, depth, [toks[i]])
  {
    hide Eval;
    if toks != [] {
      EvalFirst(h, al, depth, toks);
      if i > 0 {
        var rest := toks[1..];
        forall j | 0 <= j < i - 1 ensures Eval(h, al, depth, [rest[j]]) == NoMatch { assert rest[j] == toks[j + 1]; }
        assert Eval(h, al, depth, [toks[0]]) == NoMatch;
        FirstTokenDecides(h, al, depth, rest, i - 1);
        if i < |toks| { assert rest[i - 1] == toks[i]; }
      }
    } else {
      EvalNothing(h, al, depth);
    }
  }

  lemma EvalNothing(h: Host, al: Aliases, depth: nat)
    ensures Eval(h, al, depth, []) == NoMatch
  {
  }

  lemma EvalFirst(h: Host, al: Aliases, depth: nat, toks: seq<string>)
    requires toks != []
    ensures Eval(h, al, depth, toks)
         == if Eval(h, al, depth, [toks[0]]) == NoMatch then Eval(h, al, depth, toks[1..])
            else Eval(h, al, depth, [toks[0]])
  {
    hide ParseNeg, ParseArchspec, Split;
    assert [toks[0]][1..] == [];
    EvalNothing(h, al, depth);
  }

  // The token of an alias, with or without '!': what the alias stands for, reversed by '!'; one level of
  // nesting is used up.
  lemma AliasToken(h: Host, al: Aliases, depth: nat, name: string)
    requires name in al && name != "" && name[0] != '!'
    ensures Eval(h, al, 0, [name]) == TooDeep && Eval(h, al, 0, ["!" + name]) == TooDeep
    ensures var v := Eval(h, al, depth, Split(al[name], ','));
            && Eval(h, al, depth + 1, [name]) == v
            && (v != Match(true) && v != Match(false) ==> Eval(h, al, depth + 1, ["!" + name]) == v)
            && (v == Match(true) ==> Eval(h, al, depth + 1, ["!" + name]) == Match(false))
            && (v == Match(false) ==> Eval(h, al, depth + 1, ["!" + name]) == Match(true))
  {
    hide ParseArchspec, Split, ParseNeg;
    Negated(name);
    assert [name][1..] == [] && ["!" + name][1..] == [];
    assert Eval(h, al, depth + 1, []) == NoMatch;
  }

  lemma Negated(name: string)
    ensures ParseNeg("!" + name) == (name, true)
    ensures name == "" || name[0] != '!' ==> ParseNeg(name) == (name, false)
  {
    assert ("!" + name)[1..] == name;
  }

  // The token of an architecture: it matches this host by the pattern, or as "all", with its bits if it
  // gives any; '!' makes a match exclude. It decides nothing where it does not match.
  lemma ArchToken(h: Host, al: Aliases, depth: nat, a: ArchItem)
    requires WellFormed(a) && ShowSpec(a) !in al
    ensures Eval(h, al, depth, [Show(a)]) == if Matches(h, a) then Match(!a.neg) else NoMatch
  {
    hide Show, ShowSpec, Matches, ParseArchspec, ParseNeg, WellFormed, Split;
    assert [Show(a)][1..] == [];
    EvalNothing(h, al, depth);
    ShowNeg(a);
    ShowMatches(h, a);
  }

  // A colon with nothing after it is the same as no colon.
  lemma EmptyBits(h: Host, arch: string)
    requires ':' !in arch
    ensures ParseArchspec(h, arch + ":") == ParseArchspec(h, arch)
  {
    hide Cspn;
    assert [':'] == ":";
    SplitWhole(arch, ':');
    SplitFirstPiece(arch, ':', "");
    assert arch + ":" + "" == arch + ":" && (arch + ":")[..|arch|] == arch && arch[..|arch|] == arch;
  }

  // Tokens that end the run: an empty one, a '!' alone, and one with a second colon, which is reported
  // without its '!'.
  lemma BadTokens(h: Host, al: Aliases, depth: nat, arch: string, more: string)
    requires arch != "" && arch[0] != '!' && ':' !in arch && ':' in more
    requires arch + ":" + more !in al
    ensures Eval(h, al, depth, [""]) == EmptySpec && Eval(h, al, depth, ["!"]) == EmptySpec
    ensures Eval(h, al, depth, [arch + ":" + more]) == Malformed(arch + ":" + more)
    ensures Eval(h, al, depth, ["!" + (arch + ":" + more)]) == Malformed(arch + ":" + more)
  {
    hide Cspn, ParseNeg, Split;
    var tok := arch + ":" + more;
    Negated("");
    assert "!" + "" == "!";
    assert tok[0] == arch[0];
    Negated(tok);
    assert [':'] == ":";
    TwoColons(h, arch, more);
    assert [""][1..] == [] && ["!"][1..] == [] && [tok][1..] == [] && ["!" + tok][1..] == [];
  }

  lemma TwoColons(h: Host, arch: string, more: string)
    requires ':' !in arch && ':' in more
    ensures ParseArchspec(h, arch + ":" + more) == Bad
  {
    hide Cspn, Split;
    assert [':'] == ":";
    SplitFirstPiece(arch, ':', more);
    assert (arch + ":" + more)[|arch| + 1..] == more;
  }
}
