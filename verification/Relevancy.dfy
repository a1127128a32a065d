/** The syscall relevancy language: arch lists with negation and nested aliases, first match wins. */
module Relevancy {
  import opened Text
  import opened Wrappers

  // The machine the file is read for. glob(name, pattern) is the shell-pattern matcher.
  datatype Host = Host(arch: string, mode: string, glob: (string, string) -> bool)

  // Alias name to the text of its arch list.
  type Aliases = map<string, string>

  // ---------------------------------------------------------------- parsing

  function ParseNeg(tok: string): (string, bool) {
    if tok != "" && tok[0] == '!' then (tok[1..], true) else (tok, false)
  }

  datatype SpecMatch = Bad | Yes | No

  // An archspec is arch or arch:bits; empty bits count as none.
  function ParseArchspec(h: Host, tok: string): SpecMatch {
    var i := Find(tok, ':');
    var arch := tok[..i];
    var bits := if i < |tok| then tok[i + 1..] else "";
    if ':' in bits then Bad
    else if h.glob(h.arch, arch) || arch == "all" then
      if bits == "" || bits == h.mode then Yes else No
    else No
  }

  // TooDeep: the interpreter's recursion limit was reached.
  datatype Verdict = NoMatch | Match(relevant: bool) | Malformed(tok: string) | EmptySpec | TooDeep

  function Flip(v: Verdict, neg: bool): Verdict {
    if v.Match? then Match(v.relevant != neg) else v
  }

  // parse_archlist on a list already split. depth is how many nested calls are still possible.
  function Eval(h: Host, al: Aliases, depth: nat, toks: seq<string>): Verdict
    decreases depth, |toks|
  {
    if toks == [] then NoMatch
    else
      var (tok, neg) := ParseNeg(toks[0]);
      if tok == "" then EmptySpec
      else if tok in al then
        if depth == 0 then TooDeep
        else
          var v := Eval(h, al, depth - 1, Split(al[tok], ','));
          if v.NoMatch? then Eval(h, al, depth, toks[1..]) else Flip(v, neg)
      else match ParseArchspec(h, tok)
        case Bad => Malformed(tok)
        case Yes => Match(!neg)
        case No => Eval(h, al, depth, toks[1..])
  }

  // ------------------------------------------------------ inlining the aliases

  // A flat arch list: no aliases left.
  datatype Item = Spec(tok: string, neg: bool) | Blank

  function FirstMatch(h: Host, items: seq<Item>): Verdict {
    if items == [] then NoMatch
    else match items[0]
      case Blank => EmptySpec
      case Spec(tok, neg) =>
        match ParseArchspec(h, tok)
        case Bad => Malformed(tok)
        case Yes => Match(!neg)
        case No => FirstMatch(h, items[1..])
  }

  // Splice every alias in, its negation distributed over what it stands for. None if that nests too deep.
  function Flatten(al: Aliases, depth: nat, toks: seq<string>, flip: bool): Option<seq<Item>>
    decreases depth, |toks|
  {
    if toks == [] then Some([])
    else
      var (tok, neg) := ParseNeg(toks[0]);
      var rest := Flatten(al, depth, toks[1..], flip);
      if rest.None? then None
      else if tok == "" then Some([Blank] + rest.value)
      else if tok in al then
        if depth == 0 then None
        else
          var inner := Flatten(al, depth - 1, Split(al[tok], ','), flip != neg);
          if inner.None? then None else Some(inner.value + rest.value)
      else Some([Spec(tok, flip != neg)] + rest.value)
  }

  lemma {:induction false} FirstMatchAppend(h: Host, a: seq<Item>, b: seq<Item>)
    ensures FirstMatch(h, a + b) == if FirstMatch(h, a).NoMatch? then FirstMatch(h, b) else FirstMatch(h, a)
  {
    if a == [] {
      assert a + b == b;
    } else {
      hide ParseArchspec;
      assert (a + b)[1..] == a[1..] + b;
      FirstMatchAppend(h, a[1..], b);
    }
  }

  // Inlining preserves the verdict, and also which malformed token is met first.
  lemma {:induction false} InliningPreservesMeaning(h: Host, al: Aliases, depth: nat, toks: seq<string>, flip: bool)
    requires Flatten(al, depth, toks, flip).Some?
    ensures FirstMatch(h, Flatten(al, depth, toks, flip).value) == Flip(Eval(h, al, depth, toks), flip)
    decreases depth, |toks|
  {
    hide ParseArchspec, Split, FirstMatch;
    if toks == [] {
      FirstMatchStep(h, []);
    } else {
      var (tok, neg) := ParseNeg(toks[0]);
      InliningPreservesMeaning(h, al, depth, toks[1..], flip);
      var rest := Flatten(al, depth, toks[1..], flip).value;
      if tok == "" {
        FirstMatchStep(h, [Blank] + rest);
      } else if tok in al {
        var inner := Flatten(al, depth - 1, Split(al[tok], ','), flip != neg).value;
        InliningPreservesMeaning(h, al, depth - 1, Split(al[tok], ','), flip != neg);
        FirstMatchAppend(h, inner, rest);
      } else {
        FirstMatchStep(h, [Spec(tok, flip != neg)] + rest);
        assert ([Spec(tok, flip != neg)] + rest)[1..] == rest;
      }
    }
  }

  // FirstMatch by its first item.
  lemma FirstMatchStep(h: Host, items: seq<Item>)
    ensures items == [] ==> FirstMatch(h, items) == NoMatch
    ensures items != [] && items[0].Blank? ==> FirstMatch(h, items) == EmptySpec
    ensures items != [] && items[0].Spec? ==>
              FirstMatch(h, items) == match ParseArchspec(h, items[0].tok)
                                      case Bad => Malformed(items[0].tok)
                                      case Yes => Match(!items[0].neg)
                                      case No => FirstMatch(h, items[1..])
  {
    hide ParseArchspec;
  }

  // -------------------------------------------------------------- termination

  // The names a list mentions, negation aside.
  ghost predicate Mentions(toks: seq<string>, name: string) {
    exists i :: 0 <= i < |toks| && ParseNeg(toks[i]).0 == name
  }

  lemma MentionsTail(toks: seq<string>, name: string)
    requires toks != []
    ensures Mentions(toks, name) <==> ParseNeg(toks[0]).0 == name || Mentions(toks[1..], name)
  {
    if i :| 0 <= i < |toks[1..]| && ParseNeg(toks[1..][i]).0 == name {
      assert ParseNeg(toks[i + 1]).0 == name;
    }
    if i :| 0 <= i < |toks| && ParseNeg(toks[i]).0 == name {
      if i > 0 { assert ParseNeg(toks[1..][i - 1]).0 == name; }
    }
  }

  // rank puts every alias above all aliases its own list mentions.
  ghost predicate Ranked(al: Aliases, rank: map<string, nat>) {
    && al.Keys <= rank.Keys
    && forall name, t :: name in al && t in al && t != "" && Mentions(Split(al[name], ','), t) ==> rank[t] < rank[name]
  }

  ghost predicate Below(al: Aliases, rank: map<string, nat>, toks: seq<string>, depth: nat)
    requires al.Keys <= rank.Keys
  {
    forall t :: t in al && t != "" && Mentions(toks, t) ==> rank[t] < depth
  }

  lemma {:induction false} RankedFlattens(al: Aliases, rank: map<string, nat>, depth: nat, toks: seq<string>,
                                          flip: bool)
    requires Ranked(al, rank) && Below(al, rank, toks, depth)
    ensures Flatten(al, depth, toks, flip).Some?
    decreases depth, |toks|
  {
    hide Split;
    if toks != [] {
      var (tok, neg) := ParseNeg(toks[0]);
      forall t | Mentions(toks[1..], t) ensures Mentions(toks, t) { MentionsTail(toks, t); }
      RankedFlattens(al, rank, depth, toks[1..], flip);
      if tok != "" && tok in al {
        assert Mentions(toks, tok);
        assert Below(al, rank, Split(al[tok], ','), depth - 1);
        RankedFlattens(al, rank, depth - 1, Split(al[tok], ','), flip != neg);
      }
    }
  }

  lemma {:induction false} MentionedFlattens(al: Aliases, depth: nat, toks: seq<string>, flip: bool, i: nat)
    requires Flatten(al, depth, toks, flip).Some? && i < |toks|
    requires ParseNeg(toks[i]).0 in al && ParseNeg(toks[i]).0 != ""
    ensures depth > 0 && Flatten(al, depth - 1, Split(al[ParseNeg(toks[i]).0], ','), false).Some?
    decreases i
  {
    hide Split;
    var (tok, neg) := ParseNeg(toks[0]);
    if i > 0 {
      MentionedFlattens(al, depth, toks[1..], flip, i - 1);
    } else {
      FlipFlattens(al, depth - 1, Split(al[tok], ','), flip != neg, false);
    }
  }

  lemma {:induction false} FlipFlattens(al: Aliases, depth: nat, toks: seq<string>, flip: bool, other: bool)
    requires Flatten(al, depth, toks, flip).Some?
    ensures Flatten(al, depth, toks, other).Some?
    decreases depth, |toks|
  {
    hide Split;
    if toks != [] {
      var (tok, neg) := ParseNeg(toks[0]);
      FlipFlattens(al, depth, toks[1..], flip, other);
      if tok != "" && tok in al { FlipFlattens(al, depth - 1, Split(al[tok], ','), flip != neg, other != neg); }
    }
  }

  // Every alias can be expanded within depth.
  ghost predicate Expands(al: Aliases, name: string, depth: nat)
    requires name in al
  {
    Flatten(al, depth, Split(al[name], ','), false).Some?
  }

  ghost predicate AllExpand(al: Aliases, depth: nat) {
    forall name :: name in al ==> Expands(al, name, depth)
  }

  // The least depth at which an alias expands.
  ghost function Height(al: Aliases, name: string, depth: nat): (k: nat)
    requires name in al && Expands(al, name, depth)
    ensures k <= depth && Expands(al, name, k)
    ensures forall j :: 0 <= j < k ==> !Expands(al, name, j)
  {
    if depth > 0 && Expands(al, name, depth - 1) then Height(al, name, depth - 1)
    else
      assert forall j :: 0 <= j < depth ==> !Expands(al, name, j) by {
        forall j | 0 <= j < depth ensures !Expands(al, name, j) {
          if Expands(al, name, j) { FlattenDeeper(al, j, depth - 1, Split(al[name], ','), false); }
        }
      }
      depth
  }

  ghost function Heights(al: Aliases, depth: nat): map<string, nat>
    requires AllExpand(al, depth)
  {
    map name | name in al :: Height(al, name, depth)
  }

  lemma HeightsRank(al: Aliases, depth: nat)
    requires AllExpand(al, depth)
    ensures Ranked(al, Heights(al, depth))
  {
    hide Split, Flatten, Height;
    var rank := Heights(al, depth);
    forall name, t | name in al && t in al && t != "" && Mentions(Split(al[name], ','), t)
      ensures rank[t] < rank[name]
    {
      var toks := Split(al[name], ',');
      var i :| 0 <= i < |toks| && ParseNeg(toks[i]).0 == t;
      MentionedFlattens(al, rank[name], toks, false, i);
      assert Expands(al, t, rank[name] - 1);
    }
  }

  lemma {:induction false} RankBound(rank: map<string, nat>, names: set<string>) returns (m: nat)
    requires names <= rank.Keys
    ensures forall n :: n in names ==> rank[n] <= m
    decreases names
  {
    m := 0;
    if names != {} {
      var n :| n in names;
      m := RankBound(rank, names - {n});
      if m < rank[n] { m := rank[n]; }
    }
  }

  // Some recursion limit suffices for every alias if and only if the table is free of cycles.
  lemma ExpandableIffRanked(al: Aliases)
    ensures (exists depth :: AllExpand(al, depth)) <==> (exists rank :: Ranked(al, rank))
  {
    hide Split, Flatten;
    if depth :| AllExpand(al, depth) {
      HeightsRank(al, depth);
    }
    if rank :| Ranked(al, rank) {
      var m := RankBound(rank, rank.Keys);
      forall name | name in al ensures Expands(al, name, m) {
        RankedFlattens(al, rank, rank[name], Split(al[name], ','), false);
        FlattenDeeper(al, rank[name], m, Split(al[name], ','), false);
      }
      assert AllExpand(al, m);
    }
  }

  // Evaluation with enough depth for the rank never hits the limit.
  lemma {:induction false} RankedEvaluates(h: Host, al: Aliases, rank: map<string, nat>, depth: nat, toks: seq<string>)
    requires Ranked(al, rank) && Below(al, rank, toks, depth)
    ensures !Eval(h, al, depth, toks).TooDeep?
  {
    RankedFlattens(al, rank, depth, toks, false);
    InliningPreservesMeaning(h, al, depth, toks, false);
    FlatNeverDeep(h, Flatten(al, depth, toks, false).value);
  }

  lemma {:induction false} FlatNeverDeep(h: Host, items: seq<Item>)
    ensures !FirstMatch(h, items).TooDeep?
  {
    if items != [] { FlatNeverDeep(h, items[1..]); }
  }

  // More depth changes nothing once a verdict is reached, and nothing in a finished expansion.
  lemma {:induction false} DepthIrrelevant(h: Host, al: Aliases, depth: nat, more: nat, toks: seq<string>)
    requires depth <= more && !Eval(h, al, depth, toks).TooDeep?
    ensures Eval(h, al, more, toks) == Eval(h, al, depth, toks)
    decreases depth, |toks|
  {
    hide ParseArchspec, Split;
    if toks != [] {
      var (tok, neg) := ParseNeg(toks[0]);
      if tok != "" && tok in al {
        DepthIrrelevant(h, al, depth - 1, more - 1, Split(al[tok], ','));
        if Eval(h, al, depth - 1, Split(al[tok], ',')).NoMatch? {
          DepthIrrelevant(h, al, depth, more, toks[1..]);
        }
      } else if tok != "" && ParseArchspec(h, tok).No? {
        DepthIrrelevant(h, al, depth, more, toks[1..]);
      }
    }
  }

  lemma {:induction false} FlattenDeeper(al: Aliases, depth: nat, more: nat, toks: seq<string>, flip: bool)
    requires depth <= more && Flatten(al, depth, toks, flip).Some?
    ensures Flatten(al, more, toks, flip) == Flatten(al, depth, toks, flip)
    decreases depth, |toks|
  {
    hide Split;
    if toks != [] {
      var (tok, neg) := ParseNeg(toks[0]);
      FlattenDeeper(al, depth, more, toks[1..], flip);
      if tok != "" && tok in al {
        FlattenDeeper(al, depth - 1, more - 1, Split(al[tok], ','), flip != neg);
      }
    }
  }

  // An alias that stands for itself alone is never resolved, however deep the recursion may go.
  lemma {:induction false} SelfReferenceLoops(h: Host, al: Aliases, name: string, depth: nat)
    requires name in al && name != "" && name[0] != '!' && ',' !in name && al[name] == name
    ensures Eval(h, al, depth, [name]).TooDeep?
  {
    if depth > 0 {
      CspnIs(name, ",", |name|);
      SelfReferenceLoops(h, al, name, depth - 1);
    }
  }
}
