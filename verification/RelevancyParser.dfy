/** The parser as it runs: one loop per arch list, one alias table kept between lines. */
module RelevancyParser {
  import opened Text
  import opened Relevancy
  import opened RelevancyFile
  import opened Wrappers

  // depth is what is left of the interpreter's recursion limit.
  method ParseArchlist(h: Host, al: Aliases, depth: nat, toklist: string) returns (v: Verdict)
    ensures v == Eval(h, al, depth, Split(toklist, ','))
    decreases depth
  {
    hide ParseNeg, ParseArchspec, Split;
    var toks := Split(toklist, ',');
    var i := 0;
    while i < |toks|
      invariant i <= |toks| && Eval(h, al, depth, toks[i..]) == Eval(h, al, depth, toks)
    {
      var (tok, neg) := ParseNeg(toks[i]);
      assert toks[i..][0] == toks[i] && toks[i..][1..] == toks[i + 1..];
      if tok == "" {
        return EmptySpec;
      }
      if tok in al {
        if depth == 0 {
          return TooDeep;
        }
        var inner := ParseArchlist(h, al, depth - 1, al[tok]);
        if !inner.NoMatch? {
          return Flip(inner, neg);
        }
      } else {
        match ParseArchspec(h, tok) {
          case Bad => return Malformed(tok);
          case Yes => return Match(!neg);
          case No =>
        }
      }
      i := i + 1;
    }
    return NoMatch;
  }

  class Parser {
    const host: Host
    const depth: nat
    var aliases: Aliases
    var linenr: nat
    var printed: seq<string>
    var error: Option<(nat, Failure)>

    function View(): Reading<Aliases>
      reads this
    {
      Reading(aliases, linenr, printed, error)
    }

    constructor (host: Host, depth: nat)
      ensures this.host == host && this.depth == depth && View() == StartReading(map[])
    {
      this.host, this.depth := host, depth;
      aliases, linenr, printed, error := map[], 0, [], None;
    }

    method ParseLine(line: string)
      requires error.None?
      modifies this
      ensures View() == Apply(host, depth, old(View()), line)
    {
      hide Eval, ReadLine, Split;
      linenr := linenr + 1;
      match ReadLine(line)
      case Empty =>
      case Bare =>
      case Wrong(f) => error := Some((linenr, f));
      case Alias(name, list) => aliases := aliases[name := list];
      case Syscall(name, list) =>
        var v := ParseArchlist(host, aliases, depth, list);
        match v {
          case Match(relevant) =>
            if relevant {
              printed := printed + [name];
            }
          case NoMatch =>
          case _ => error := Some((linenr, BadList(v)));
        }
    }

    method ParseFile(lines: seq<string>)
      modifies this
      ensures View() == Process(host, depth, old(View()), lines)
    {
      hide Apply;
      var i := 0;
      while i < |lines| && error.None?
        invariant i <= |lines|
        invariant Process(host, depth, View(), lines[i..]) == Process(host, depth, old(View()), lines)
      {
        ParseLine(lines[i]);
        i := i + 1;
      }
      if error.Some? {
        StoppedStays(host, depth, View(), lines[i..]);
      }
    }
  }

  lemma {:induction false} StoppedStays(h: Host, depth: nat, r: Reading<Aliases>, lines: seq<string>)
    requires r.error.Some?
    ensures Process(h, depth, r, lines) == r
    decreases |lines|
  {
    if lines != [] { StoppedStays(h, depth, r, lines[1..]); }
  }
}
