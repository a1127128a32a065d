/** The control protocol of the network test server as a language: a byte stream, stripped of
    CR and LF, is a series of requests each ended by ';', and a request is command[:parameter]. */
module ControlMessages {
  import opened CStrings
  import opened Text
  import opened Wrappers

  const BAD_CHARS := "\n\r"

  // The stream without CR and LF.
  function Clean(s: string): (r: string)
    ensures |r| <= |s|
  {
    if s == [] then []
    else if s[0] in BAD_CHARS then Clean(s[1..])
    else [s[0]] + Clean(s[1..])
  }

  lemma {:induction false} CleanAppend(s: string, t: string)
    ensures Clean(s + t) == Clean(s) + Clean(t)
  {
    if s == [] {
      assert s + t == t;
    } else {
      assert (s + t)[1..] == s[1..] + t;
      CleanAppend(s[1..], t);
    }
  }

  lemma {:induction false} CleanKeeps(s: string)
    requires forall i :: 0 <= i < |s| ==> s[i] !in BAD_CHARS
    ensures Clean(s) == s
  {
    if s != [] { CleanKeeps(s[1..]); }
  }

  lemma {:induction false} CleanDrops(s: string)
    requires forall i :: 0 <= i < |s| ==> s[i] in BAD_CHARS
    ensures Clean(s) == []
  {
    if s != [] { CleanDrops(s[1..]); }
  }

  // A character survives exactly when it is neither CR nor LF.
  lemma {:induction false} CleanMembers(s: string, c: char)
    ensures c in Clean(s) <==> c in s && c != '\r' && c != '\n'
  {
    BadChars(c);
    if s != [] { CleanMembers(s[1..], c); }
  }

  lemma BadChars(c: char)
    ensures c in BAD_CHARS <==> c == '\n' || c == '\r'
  {
    var b := BAD_CHARS;
    assert b[0] == '\n' && b[1] == '\r';
  }

  // ------------------------------------------------------------- segments

  // The texts before each ';', in order.
  function Segments(t: string): seq<string> {
    var p := Split(t, ';');
    p[..|p| - 1]
  }

  // The text after the last ';'.
  function Tail(t: string): string {
    var p := Split(t, ';');
    p[|p| - 1]
  }

  lemma SegmentsAndTail(t: string)
    ensures Split(t, ';') == Segments(t) + [Tail(t)]
  {
    hide Split;
  }

  lemma FirstSegment(s: string, rest: string)
    requires ';' !in s
    ensures Cspn(s + ";" + rest, ";") == |s|
    ensures Segments(s + ";" + rest) == [s] + Segments(rest)
    ensures Tail(s + ";" + rest) == Tail(rest)
  {
    hide Split, Cspn;
    assert [';'] == ";";
    SplitFirstPiece(s, ';', rest);
  }

  lemma NoSegment(s: string)
    requires ';' !in s
    ensures Segments(s) == [] && Tail(s) == s
  {
    hide Split;
    SplitWhole(s, ';');
  }

  lemma SplitFirst(t: string)
    requires Cspn(t, ";") < |t|
    ensures var i := Cspn(t, ";");
            Segments(t) == [t[..i]] + Segments(t[i + 1..]) && Tail(t) == Tail(t[i + 1..])
  {
    hide Cspn, Segments, Tail;
    var i := Cspn(t, ";");
    var first, rest := t[..i], t[i + 1..];
    AroundIndex(t, i);
    assert [t[i]] == ";";
    FirstSegment(first, rest);
  }

  // Splitting is the one way of writing a text as ';'-free pieces: segments and a tail joined split into
  // the same again ...
  lemma SegmentsOfJoin(segs: seq<string>, tail: string)
    requires forall s :: s in segs ==> ';' !in s
    requires ';' !in tail
    ensures Segments(Join(segs + [tail], ';')) == segs && Tail(Join(segs + [tail], ';')) == tail
  {
    hide Split, Join;
    SplitOfJoin(segs + [tail], ';');
  }

  // ... and the segments and tail of a text join into it.
  lemma JoinOfSegments(t: string)
    ensures Join(Segments(t) + [Tail(t)], ';') == t
    ensures (forall s :: s in Segments(t) ==> ';' !in s) && ';' !in Tail(t)
  {
    hide Split, Join;
    SegmentsAndTail(t);
    JoinOfSplit(t, ';');
  }

  // Splitting the kept tail plus new data is splitting everything received so far.
  lemma {:induction false} SplitAppend(s: string, t: string)
    ensures Segments(s + t) == Segments(s) + Segments(Tail(s) + t)
    ensures Tail(s + t) == Tail(Tail(s) + t)
    decreases |s|
  {
    hide Cspn, Segments, Tail;
    var i := Cspn(s, ";");
    if i < |s| {
      var first, later := s[..i], s[i + 1..];
      SplitFirst(s);
      SplitAppend(later, t);
      assert s + t == first + ";" + (later + t);
      FirstSegment(first, later + t);
      Assoc([first], Segments(later), Segments(Tail(later) + t));
    } else {
      NoSegment(s);
      assert [] + Segments(s + t) == Segments(s + t);
    }
  }

  // -------------------------------------------------------------- requests

  datatype Request = Request(cmd: string, param: Option<string>)

  // The first two strtok calls on a segment: leading ':' skipped, command up to the next ':',
  // everything after it, if anything, the parameter.
  function Parse(seg: string): (r: Option<Request>)
  {
    var c := Token(seg, ":");
    var p := Token(c.rest, "");
    if !c.found then None
    else Some(Request(c.token, if p.found then Some(p.token) else None))
  }

  // The request of a segment, if it has one.
  function ParseOne(seg: string): seq<Request> {
    match Parse(seg) case None => [] case Some(q) => [q]
  }

  function ParseAll(segs: seq<string>): (r: seq<Request>) {
    if segs == [] then [] else ParseOne(segs[0]) + ParseAll(segs[1..])
  }

  lemma ParseAllFirst(first: string, later: seq<string>)
    ensures ParseAll([first] + later) == ParseOne(first) + ParseAll(later)
  {
    hide ParseOne;
    assert ([first] + later)[1..] == later;
  }

  lemma {:induction false} ParseAllAppend(s: seq<string>, t: seq<string>)
    ensures ParseAll(s + t) == ParseAll(s) + ParseAll(t)
  {
    hide ParseAll, ParseOne;
    if s == [] {
      assert s + t == t;
      assert ParseAll([]) == [] by { ParseAllNone(); }
    } else {
      var first, rest := s[0], s[1..];
      ParseAllAppend(rest, t);
      assert s == [first] + rest && s + t == [first] + (rest + t);
      ParseAllFirst(first, rest);
      ParseAllFirst(first, rest + t);
      Assoc(ParseOne(first), ParseAll(rest), ParseAll(t));
    }
  }

  lemma ParseAllNone()
    ensures ParseAll([]) == []
  {
  }

  // The requests a text carries.
  function Requests(t: string): seq<Request> { ParseAll(Segments(t)) }

  lemma RequestsAppend(s: string, t: string)
    ensures Requests(s + t) == Requests(s) + Requests(Tail(s) + t)
    ensures Tail(s + t) == Tail(Tail(s) + t)
  {
    SplitAppend(s, t);
    ParseAllAppend(Segments(s), Segments(Tail(s) + t));
  }

  // How a client writes a segment: n colons, the command, and what follows the command.
  function Colons(n: nat): (s: string)
    ensures |s| == n && forall i :: 0 <= i < n ==> s[i] == ':'
  {
    seq(n, i => ':')
  }

  datatype After = Nothing | Colon(param: string)

  function Written(n: nat, cmd: string, after: After): string {
    Colons(n) + cmd + match after case Nothing => "" case Colon(p) => ":" + p
  }

  ghost predicate Command(cmd: string) { cmd != [] && ':' !in cmd }

  lemma TokenOfWritten(n: nat, cmd: string, after: After)
    requires Command(cmd)
    ensures Token(Written(n, cmd, after), ":")
         == Cut(cmd, true, match after case Nothing => "" case Colon(p) => p)
  {
    var s := Written(n, cmd, after);
    assert s[n] == cmd[0];
    SpnIs(s, ":", n);
    CspnIs(s[n..], ":", |cmd|);
    assert s[n..n + |cmd|] == cmd;
    if after.Colon? {
      assert s[n + |cmd| + 1..] == after.param;
    }
  }

  lemma TokenOfAll(s: string)
    ensures Token(s, "") == Cut(s, s != [], [])
  {
  }

  // Parsing what was written: an empty parameter is the same as none.
  lemma ParseWritten(n: nat, cmd: string, after: After)
    requires Command(cmd)
    ensures Parse(Written(n, cmd, after))
         == Some(Request(cmd, if after.Colon? && after.param != "" then Some(after.param) else None))
  {
    TokenOfWritten(n, cmd, after);
    TokenOfAll(Token(Written(n, cmd, after), ":").rest);
  }

  // Every segment is either all colons, and ignored, or written as above.
  lemma EverySegment(seg: string) returns (n: nat, cmd: string, after: After)
    ensures if Parse(seg) == None then seg == Colons(|seg|)
            else Command(cmd) && seg == Written(n, cmd, after)
  {
    hide Spn, Cspn;
    n := Spn(seg, ":");
    assert seg[..n] == Colons(n);
    if n == |seg| {
      cmd, after := "", Nothing;
      assert seg == seg[..n];
    } else {
      var t := seg[n..];
      var e := Cspn(t, ":");
      cmd := t[..e];
      if e == |t| {
        after := Nothing;
        assert seg == Colons(n) + cmd + "";
      } else {
        after := Colon(t[e + 1..]);
        assert seg == Colons(n) + cmd + (":" + after.param);
      }
    }
  }

  // ------------------------------------------------------------ strcasecmp

  function Lower(c: char): char {
    if 'A' <= c <= 'Z' then (c as int + 32) as char else c
  }

  predicate SameNoCase(s: string, t: string) {
    |s| == |t| && forall i :: 0 <= i < |s| ==> Lower(s[i]) == Lower(t[i])
  }

  // Two characters are the same, case aside, when they are equal or the two cases of one letter.
  lemma SameLetter(c: char, d: char)
    ensures Lower(c) == Lower(d)
       <==> c == d || ('a' <= c <= 'z' && d as int == c as int - 32) || ('a' <= d <= 'z' && c as int == d as int - 32)
  {
  }
}
