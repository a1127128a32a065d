/** When the way a stream is cut into chunks cannot matter: exactly when no further request is completed
    after the first NUL before the run ends. */
module FramingCuts {
  import opened CStrings
  import opened Text
  import opened ControlMessages
  import opened Framing

  // What is left of a stream when every NUL too is dropped, but nothing behind it.
  function Kept(s: string): string {
    if s == "" then ""
    else (if s[0] in BAD_CHARS || s[0] == NUL then "" else [s[0]]) + Kept(s[1..])
  }

  lemma {:induction false} KeptAppend(s: string, t: string)
    ensures Kept(s + t) == Kept(s) + Kept(t)
  {
    if s == "" {
      assert s + t == t;
    } else {
      assert (s + t)[1..] == s[1..] + t;
      KeptAppend(s[1..], t);
    }
  }

  lemma {:induction false} KeptIsClean(s: string)
    requires NUL !in s
    ensures Kept(s) == Clean(s)
  {
    if s != "" { KeptIsClean(s[1..]); }
  }

  // ------------------------------------------------------------------ subsequences

  // x is y with some characters left out.
  ghost predicate Sub(x: string, y: string)
    decreases |y|
  {
    x == "" || (y != "" && ((x[0] == y[0] && Sub(x[1..], y[1..])) || Sub(x, y[1..])))
  }

  lemma {:induction false} SubAppend(x: string, y: string, u: string, v: string)
    requires Sub(x, y) && Sub(u, v)
    ensures Sub(x + u, y + v)
    decreases |y|
  {
    if y == "" {
      assert x + u == u && y + v == v;
    } else {
      assert (y + v)[1..] == y[1..] + v;
      if x != "" && x[0] == y[0] && Sub(x[1..], y[1..]) {
        assert (x + u)[1..] == x[1..] + u;
        SubAppend(x[1..], y[1..], u, v);
      } else {
        SubAppend(x, y[1..], u, v);
      }
    }
  }

  lemma {:induction false} SubAll(x: string)
    ensures Sub(x, x)
  {
    if x != "" { SubAll(x[1..]); }
  }

  lemma {:induction false} SubMembers(x: string, y: string, c: char)
    requires Sub(x, y) && c !in y
    ensures c !in x
    decreases |y|
  {
    if x != "" {
      if x[0] == y[0] && Sub(x[1..], y[1..]) { SubMembers(x[1..], y[1..], c); } else { SubMembers(x, y[1..], c); }
    }
  }

  // ------------------------------------------------------------- texts without a request

  // No ';' follows a character other than ':' and ';'.
  predicate Quiet(t: string) {
    t == "" || if t[0] in ":;" then Quiet(t[1..]) else ';' !in t
  }

  lemma {:induction false} QuietWithout(t: string)
    requires ';' !in t
    ensures Quiet(t)
  {
    if t != "" { QuietWithout(t[1..]); }
  }

  lemma {:induction false} QuietSub(u: string, x: string, y: string)
    requires Quiet(u + y) && Sub(x, y)
    ensures Quiet(u + x)
    decreases |u|, |y|
  {
    var s, t := u + y, u + x;
    if ';' !in s {
      SubMembers(x, y, ';');
      QuietWithout(t);
    } else if u != "" {
      assert s[1..] == u[1..] + y && t[1..] == u[1..] + x;
      QuietSub(u[1..], x, y);
    } else if x != "" {
      assert s == y && t == x;
      assert "" + y[1..] == y[1..] && "" + x[1..] == x[1..];
      if x[0] == y[0] && Sub(x[1..], y[1..]) { QuietSub("", x[1..], y[1..]); } else { QuietSub("", x, y[1..]); }
    } else {
      assert t == "";
    }
  }

  lemma {:induction false} QuietSegment(seg: string, rest: string)
    requires ';' !in seg
    ensures Quiet(seg + ";" + rest) <==> seg == Colons(|seg|) && Quiet(rest)
  {
    var t := seg + ";" + rest;
    if seg == "" {
      assert t[1..] == rest && seg == Colons(0);
    } else {
      assert t[1..] == seg[1..] + ";" + rest && ';' in t;
      QuietSegment(seg[1..], rest);
      assert seg == Colons(|seg|) <==> seg[0] == ':' && seg[1..] == Colons(|seg| - 1) by {
        assert Colons(|seg|)[1..] == Colons(|seg| - 1);
        assert [seg[0]] + seg[1..] == seg && [':'] + Colons(|seg| - 1) == Colons(|seg|);
      }
    }
  }

  lemma ColonsAreNoRequest(seg: string)
    ensures ParseOne(seg) == [] <==> seg == Colons(|seg|)
  {
    hide Parse, Cspn, Spn;
    var n, cmd, after := EverySegment(seg);
    if Parse(seg).Some? {
      assert seg[n] == cmd[0];
    }
  }

  // A text carries no request exactly when it is quiet.
  lemma {:induction false} SilentIsQuiet(t: string)
    ensures Requests(t) == [] <==> Quiet(t)
    decreases |t|
  {
    hide Cspn, Segments, ParseOne, ParseAll, Quiet;
    var i := Cspn(t, ";");
    if i == |t| {
      assert forall j :: 0 <= j < |t| ==> t[j] !in ";";
      assert ';' !in t;
      NoSegment(t);
      ParseAllNone();
      QuietWithout(t);
    } else {
      var seg, rest := t[..i], t[i + 1..];
      SilentIsQuiet(rest);
      SplitFirst(t);
      ParseAllFirst(seg, Segments(rest));
      ColonsAreNoRequest(seg);
      AroundIndex(t, i);
      assert [t[i]] == ";";
      QuietSegment(seg, rest);
    }
  }

  // ------------------------------------------------------------------ what a cut lets through

  // The part of a stream before its first NUL, and the rest.
  function Front(s: string): string { s[..Cspn(s, [NUL])] }
  function Back(s: string): string { s[Cspn(s, [NUL])..] }

  lemma FrontOf(c: string, rest: string)
    ensures NUL !in c ==> Front(c + rest) == c + Front(rest) && Back(c + rest) == Back(rest)
    ensures NUL in c ==> Front(c + rest) == Front(c) && Back(c + rest) == Back(c) + rest
  {
    hide Cspn;
    var s := c + rest;
    var k := Cspn(c, [NUL]);
    if k < |c| {
      CspnIs(s, [NUL], k);
      assert s[..k] == c[..k] && s[k..] == c[k..] + rest;
    } else {
      var m := Cspn(rest, [NUL]);
      assert forall i :: 0 <= i < m ==> s[|c| + i] == rest[i];
      CspnIs(s, [NUL], |c| + m);
      assert s[..|c| + m] == c + rest[..m] && s[|c| + m..] == rest[m..];
    }
  }

  lemma SeenIsFront(c: string)
    ensures Seen(c) == Front(c) && Front(c) + Back(c) == c && NUL !in Front(c)
  {
    hide Cspn;
  }

  // A chunk lets through no more than its kept characters.
  lemma {:induction false} SeenSub(chunks: seq<string>)
    ensures Sub(SeenStream(chunks), Kept(Stream(chunks)))
  {
    hide Kept, Clean, Seen, Front, Back, Sub;
    if chunks == [] {
      SubAll(SeenStream(chunks));
      assert Kept("") == "" by { KeptNothing(); }
    } else {
      var c, rest := chunks[0], Stream(chunks[1..]);
      SeenSub(chunks[1..]);
      SeenIsFront(c);
      KeptIsClean(Front(c));
      KeptAppend(Front(c), Back(c));
      KeptAppend(c, rest);
      SubAll(Kept(Front(c)));
      NothingSub(Kept(Back(c)));
      SubAppend(Kept(Front(c)), Kept(Front(c)), "", Kept(Back(c)));
      assert Kept(Front(c)) + "" == Kept(Front(c));
      SubAppend(Kept(Front(c)), Kept(c), SeenStream(chunks[1..]), Kept(rest));
    }
  }

  lemma KeptNothing()
    ensures Kept("") == ""
  {
  }

  lemma NothingSub(y: string)
    ensures Sub("", y)
  {
  }

  // Every cut lets through the cleaned text before the first NUL, then some of the kept rest.
  lemma {:induction false} CutSees(chunks: seq<string>) returns (more: string)
    ensures SeenStream(chunks) == Clean(Front(Stream(chunks))) + more
    ensures Sub(more, Kept(Back(Stream(chunks))))
  {
    hide Kept, Clean, Seen, Front, Back, Sub;
    if chunks == [] {
      more := "";
      NothingSub(Kept(Back("")));
      SeenIsFront("");
      assert Front("") == "";
      CleanNothing();
    } else {
      var c, rest := chunks[0], Stream(chunks[1..]);
      SeenIsFront(c);
      FrontOf(c, rest);
      if NUL in c {
        more := SeenStream(chunks[1..]);
        SeenSub(chunks[1..]);
        KeptAppend(Back(c), rest);
        NothingSub(Kept(Back(c)));
        SubAppend("", Kept(Back(c)), more, Kept(rest));
        assert "" + more == more;
      } else {
        more := CutSees(chunks[1..]);
        assert Front(c) == c by { WholeFront(c); }
        CleanAppend(c, Front(rest));
        Assoc(Clean(c), Clean(Front(rest)), more);
      }
    }
  }

  lemma CleanNothing()
    ensures Clean("") == ""
  {
  }

  lemma WholeFront(c: string)
    requires NUL !in c
    ensures Front(c) == c
  {
    hide Cspn;
    CspnIs(c, [NUL], |c|);
  }

  // One chunk a character lets all of the rest through.
  function Singles(s: string): (r: seq<string>)
    ensures forall c :: c in r ==> c != ""
  {
    if s == "" then [] else [[s[0]]] + Singles(s[1..])
  }

  lemma {:induction false} SinglesSee(s: string)
    ensures Stream(Singles(s)) == s && SeenStream(Singles(s)) == Kept(s)
  {
    if s != "" {
      hide Cspn;
      var r := Singles(s);
      assert r[0] == [s[0]] && r[1..] == Singles(s[1..]);
      SinglesSee(s[1..]);
      assert [s[0]] + s[1..] == s;
      CspnIs([s[0]], [NUL], if s[0] == NUL then 0 else 1);
      assert [s[0]][1..] == "";
    }
  }

  lemma FrontKept(s: string)
    ensures Kept(s) == Clean(Front(s)) + Kept(Back(s))
  {
    hide Kept, Clean, Front, Back;
    SeenIsFront(s);
    KeptAppend(Front(s), Back(s));
    KeptIsClean(Front(s));
  }

  // One chunk for all lets nothing more through.
  lemma WholeSees(s: string)
    ensures Stream([s]) == s && SeenStream([s]) == Clean(Front(s))
  {
    hide Cspn, Clean;
    assert [s][1..] == [] && s + "" == s;
    assert Stream([]) == "" && SeenStream([]) == "";
    assert Clean(Seen(s)) + "" == Clean(Seen(s));
  }

  // ------------------------------------------------------------------ the exact condition

  function HandledOf(inetd: bool, chunks: seq<string>): seq<Request> {
    UpToEnd(inetd, Run(inetd, Start(inetd), Arriving(chunks)).log)
  }

  // Whichever way the stream is cut, the same requests are handled before the run ends.
  ghost predicate AllCutsAgree(inetd: bool, s: string) {
    forall chunks, others ::
      Chunked(chunks) && Chunked(others) && Stream(chunks) == s && Stream(others) == s
      ==> HandledOf(inetd, chunks) == HandledOf(inetd, others)
  }

  // The requests completed after the first NUL, if nothing behind a NUL were lost.
  function AfterNul(s: string): seq<Request> { Requests(Tail(Clean(Front(s))) + Kept(Back(s))) }

  // The run ends before the first NUL, or no request is completed after it.
  ghost predicate NulHarmless(inetd: bool, s: string) {
    !NoneEnds(inetd, Requests(Clean(Front(s)))) || AfterNul(s) == []
  }

  lemma HandledOfCut(inetd: bool, chunks: seq<string>)
    requires Chunked(chunks) && NulHarmless(inetd, Stream(chunks))
    ensures HandledOf(inetd, chunks) == UpToEnd(inetd, Requests(Clean(Front(Stream(chunks)))))
  {
    hide Run, Clean, Front, Kept, Back, Requests, Quiet, Tail, UpToEnd, Sub, Arriving, SeenStream, Stream;
    var s := Stream(chunks);
    ChunkIndependence(inetd, chunks);
    var more := CutSees(chunks);
    var front := Clean(Front(s));
    RequestsAppend(front, more);
    UpToEndAppend(inetd, Requests(front), Requests(Tail(front) + more));
    if NoneEnds(inetd, Requests(front)) {
      SilentIsQuiet(Tail(front) + Kept(Back(s)));
      QuietSub(Tail(front), more, Kept(Back(s)));
      SilentIsQuiet(Tail(front) + more);
      assert Requests(front) + [] == Requests(front);
    }
  }

  // Cuts do not matter if and only if no further request is completed after the first NUL before the
  // run ends; in particular whenever there is no NUL.
  lemma CutsAgreeExactly(inetd: bool, s: string)
    ensures AllCutsAgree(inetd, s) <==> NulHarmless(inetd, s)
  {
    hide HandledOf, Clean, Front, Kept, Back, Requests, Tail, UpToEnd, SeenStream, Stream;
    if NulHarmless(inetd, s) {
      forall chunks | Chunked(chunks) && Stream(chunks) == s
        ensures HandledOf(inetd, chunks) == UpToEnd(inetd, Requests(Clean(Front(s))))
      {
        HandledOfCut(inetd, chunks);
      }
    } else if s != "" {
      CutsDiffer(inetd, s);
    } else {
      EmptyHarmless(inetd);
    }
  }

  lemma EmptyHarmless(inetd: bool)
    ensures NulHarmless(inetd, "")
  {
    hide Requests, Tail;
    assert Front("") == "" && Back("") == "" && Clean("") == "" && Kept("") == "";
    NoSegment("");
    assert "" + "" == "";
    NothingRequested();
  }

  lemma CutsDiffer(inetd: bool, s: string)
    requires s != "" && !NulHarmless(inetd, s)
    ensures Chunked([s]) && Chunked(Singles(s)) && Stream([s]) == s && Stream(Singles(s)) == s
    ensures HandledOf(inetd, [s]) != HandledOf(inetd, Singles(s))
  {
    hide Run, Clean, Front, Kept, Back, Requests, Tail, Arriving, SeenStream, Stream, Singles;
    var front := Clean(Front(s));
    WholeSees(s);
    SinglesSee(s);
    FrontKept(s);
    ChunkIndependence(inetd, [s]);
    ChunkIndependence(inetd, Singles(s));
    RequestsAppend(front, Kept(Back(s)));
    UpToEndAppend(inetd, Requests(front), AfterNul(s));
    UpToEndAppend(inetd, Requests(front), []);
    assert Requests(front) + [] == Requests(front);
  }

  lemma NulFreeHarmless(inetd: bool, s: string)
    requires NUL !in s
    ensures NulHarmless(inetd, s)
  {
    hide Cspn, Clean, Requests, Tail;
    WholeFront(s);
    CspnIs(s, [NUL], |s|);
    assert Back(s) == "" && Kept("") == "";
    JoinOfSegments(Clean(s));
    assert Tail(Clean(s)) + "" == Tail(Clean(s));
    NoRequestIn(Tail(Clean(s)));
  }

  lemma NoRequestIn(t: string)
    requires ';' !in t
    ensures Requests(t) == []
  {
    hide Quiet, Requests;
    QuietWithout(t);
    SilentIsQuiet(t);
  }
}
