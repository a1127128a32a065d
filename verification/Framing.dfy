/** The message loop of the control server as a state machine: what each pass over the network does
    to the pending text and to the requests handed to the handlers, and what whole runs do. */
module Framing {
  import opened CStrings
  import opened Text
  import opened ControlMessages
  import opened Wrappers

  // What one pass of the outer loop meets on the network: whether accept works, should it be
  // needed, and the outcome of waiting and receiving. No bytes means the peer has closed.
  datatype Net = SelectFails | TimesOut(got: Receipt) | Ready(got: Receipt)
  datatype Receipt = RecvFails | Bytes(data: string)
  datatype Pass = Pass(accepts: bool, net: Net)

  // pending is the text kept in msg_buf, log the requests dispatched so far.
  datatype Server = Server(pending: string, connected: bool, running: bool, status: Option<nat>, log: seq<Request>)

  predicate Stopped(s: Server) { !s.running || s.status.Some? }

  predicate IsExit(q: Request) { SameNoCase(q.cmd, "exit") }
  predicate IsDetach(q: Request) { SameNoCase(q.cmd, "detach") }

  predicate HasExit(qs: seq<Request>) { exists i :: 0 <= i < |qs| && IsExit(qs[i]) }
  predicate HasDetach(qs: seq<Request>) { exists i :: 0 <= i < |qs| && IsDetach(qs[i]) }

  // The C string a receive buffer holds: bytes after a NUL are not seen.
  function Seen(data: string): (s: string)
    ensures NUL !in data ==> s == data
    ensures NUL !in s && |s| <= |data|
  {
    data[..Cspn(data, [NUL])]
  }

  // Every complete request in the text is handled; the text after the last ';' is kept.
  function Handle(s: Server, text: string): Server { After(s, Requests(text), Tail(text)) }

  function After(s: Server, qs: seq<Request>, kept: string): Server {
    Server(kept, s.connected && !HasDetach(qs), s.running && !HasExit(qs), s.status, s.log + qs)
  }

  // Handling the requests one at a time, first to last.
  function HandleOne(s: Server, q: Option<Request>): Server {
    match q
    case None => s
    case Some(r) =>
      s.(connected := s.connected && !IsDetach(r), running := s.running && !IsExit(r), log := s.log + [r])
  }

  lemma HasFirst(q: Request, qs: seq<Request>)
    ensures HasExit([q] + qs) <==> IsExit(q) || HasExit(qs)
    ensures HasDetach([q] + qs) <==> IsDetach(q) || HasDetach(qs)
  {
    var all := [q] + qs;
    assert all[0] == q;
    if HasExit(qs) { var i :| 0 <= i < |qs| && IsExit(qs[i]); assert IsExit(all[i + 1]); }
    if HasDetach(qs) { var i :| 0 <= i < |qs| && IsDetach(qs[i]); assert IsDetach(all[i + 1]); }
  }

  lemma FirstRequest(text: string)
    requires Cspn(text, ";") < |text|
    ensures var i := Cspn(text, ";");
            Tail(text) == Tail(text[i + 1..])
            && Requests(text)
               == ParseOne(text[..i]) + Requests(text[i + 1..])
  {
    hide Cspn, ParseOne, Segments, Tail, ParseAll;
    var i := Cspn(text, ";");
    SplitFirst(text);
    ParseAllFirst(text[..i], Segments(text[i + 1..]));
  }

  lemma AfterFirst(s: Server, q: Request, qs: seq<Request>, kept: string)
    ensures After(s, [q] + qs, kept) == After(HandleOne(s, Some(q)), qs, kept)
  {
    HasFirst(q, qs);
    Assoc(s.log, [q], qs);
  }

  lemma {:induction false} HandleFirst(s: Server, text: string)
    requires Cspn(text, ";") < |text|
    ensures var i := Cspn(text, ";");
            Handle(s, text) == Handle(HandleOne(s, Parse(text[..i])), text[i + 1..])
  {
    hide Cspn, Parse, Requests, Tail, After;
    var i := Cspn(text, ";");
    var q, later := Parse(text[..i]), Requests(text[i + 1..]);
    FirstRequest(text);
    if q.Some? {
      AfterFirst(s, q.value, later, Tail(text));
    } else {
      assert [] + later == later;
    }
  }

  // With no complete request left, handling keeps the text.
  lemma HandleNone(s: Server, text: string)
    requires Cspn(text, ";") == |text|
    ensures Handle(s, text) == s.(pending := text)
  {
    assert s.log + [] == s.log;
  }

  function TakeIn(inetd: bool, s: Server, r: Receipt): Server {
    match r
    case RecvFails => s
    case Bytes(data) =>
      if data != "" then Handle(s, s.pending + Clean(Seen(data)))
      else if inetd then s.(status := Some(0))
      else s.(connected := false)
  }

  // One pass of the outer loop.
  function Step(inetd: bool, s: Server, p: Pass): Server {
    if Stopped(s) then s
    else if !s.connected && inetd then s.(status := Some(0))
    else if !s.connected && !p.accepts then s
    else
      var c := s.(connected := true);
      match p.net
      case SelectFails => c.(status := Some(1))
      case TimesOut(r) => if inetd then c.(status := Some(0)) else TakeIn(inetd, c, r)
      case Ready(r) => TakeIn(inetd, c, r)
  }

  function Run(inetd: bool, s: Server, passes: seq<Pass>): (r: Server)
    decreases |passes|
  {
    if passes == [] then s else Run(inetd, Step(inetd, s, passes[0]), passes[1..])
  }

  lemma {:induction false} StoppedStays(inetd: bool, s: Server, passes: seq<Pass>)
    requires passes == [] || Stopped(s)
    ensures Run(inetd, s, passes) == s
    decreases |passes|
  {
    if passes != [] { StoppedStays(inetd, s, passes[1..]); }
  }

  function Start(inetd: bool): Server { Server("", inetd, true, None, []) }

  // The characters a pass delivers, CR and LF removed.
  function Delivered(inetd: bool, s: Server, p: Pass): string {
    if Stopped(s) || (!s.connected && (inetd || !p.accepts)) then ""
    else match p.net
      case SelectFails => ""
      case TimesOut(RecvFails) => ""
      case TimesOut(Bytes(data)) => if inetd then "" else Clean(Seen(data))
      case Ready(RecvFails) => ""
      case Ready(Bytes(data)) => Clean(Seen(data))
  }

  function Received(inetd: bool, s: Server, passes: seq<Pass>): string
    decreases |passes|
  {
    if passes == [] then ""
    else Delivered(inetd, s, passes[0]) + Received(inetd, Step(inetd, s, passes[0]), passes[1..])
  }

  // From s to n the server took in the text d: it handled every request that d completes, and keeps
  // the text after the last ';'.
  ghost predicate Accounts(s: Server, d: string, n: Server) {
    && n.log == s.log + Requests(s.pending + d)
    && n.pending == Tail(s.pending + d)
    && ';' !in n.pending
  }

  lemma AccountsNothing(s: Server, n: Server)
    requires ';' !in s.pending && n.log == s.log && n.pending == s.pending
    ensures Accounts(s, "", n)
  {
    NoSegment(s.pending);
    assert s.pending + "" == s.pending && s.log + [] == s.log;
  }

  lemma AccountsCompose(s: Server, d: string, m: Server, e: string, n: Server)
    requires Accounts(s, d, m) && Accounts(m, e, n)
    ensures Accounts(s, d + e, n)
  {
    RequestsAppend(s.pending + d, e);
    Assoc(s.pending, d, e);
    Assoc(s.log, Requests(s.pending + d), Requests(m.pending + e));
  }

  lemma StepAccounts(inetd: bool, s: Server, p: Pass)
    requires ';' !in s.pending
    ensures Accounts(s, Delivered(inetd, s, p), Step(inetd, s, p))
  {
    var d, n := Delivered(inetd, s, p), Step(inetd, s, p);
    if d == "" && n.log == s.log && n.pending == s.pending {
      AccountsNothing(s, n);
    } else {
      assert p.net.got.data == "" ==> d == "";
      JoinOfSegments(s.pending + d);
    }
  }

  // Whole runs, whatever the network does: the requests handled are those of the characters received,
  // taken as one text, and what is kept is the text after its last ';'.
  lemma {:induction false} RunAccounts(inetd: bool, s: Server, passes: seq<Pass>)
    requires ';' !in s.pending
    ensures Accounts(s, Received(inetd, s, passes), Run(inetd, s, passes))
    decreases |passes|
  {
    if passes == [] {
      AccountsNothing(s, s);
    } else {
      var n := Step(inetd, s, passes[0]);
      StepAccounts(inetd, s, passes[0]);
      RunAccounts(inetd, n, passes[1..]);
      AccountsCompose(s, Delivered(inetd, s, passes[0]), n, Received(inetd, n, passes[1..]),
                      Run(inetd, n, passes[1..]));
    }
  }

  lemma RunFromStart(inetd: bool, passes: seq<Pass>)
    ensures var t, n := Received(inetd, Start(inetd), passes), Run(inetd, Start(inetd), passes);
            n.log == Requests(t) && n.pending == Tail(t) && ';' !in n.pending
  {
    RunAccounts(inetd, Start(inetd), passes);
    var t := Received(inetd, Start(inetd), passes);
    assert "" + t == t && [] + Requests(t) == Requests(t);
  }

  // --------------------------------------------------- independence of chunks

  // A stream arriving in non-empty pieces, with nothing going wrong.
  function Arriving(chunks: seq<string>): seq<Pass> {
    seq(|chunks|, i requires 0 <= i < |chunks| => Pass(true, Ready(Bytes(chunks[i]))))
  }

  function Stream(chunks: seq<string>): string {
    if chunks == [] then "" else chunks[0] + Stream(chunks[1..])
  }

  ghost predicate Chunked(chunks: seq<string>) { forall c :: c in chunks ==> c != "" }

  // The request that ends a run: exit, or under inetd the loss of the only connection.
  predicate Ends(inetd: bool, q: Request) { IsExit(q) || (inetd && IsDetach(q)) }

  // The requests up to and including the first that ends the run.
  function UpToEnd(inetd: bool, qs: seq<Request>): (r: seq<Request>)
    ensures r <= qs
  {
    if qs == [] then []
    else if Ends(inetd, qs[0]) then [qs[0]]
    else [qs[0]] + UpToEnd(inetd, qs[1..])
  }

  ghost predicate NoneEnds(inetd: bool, qs: seq<Request>) {
    forall i :: 0 <= i < |qs| ==> !Ends(inetd, qs[i])
  }

  lemma {:induction false} UpToEndAppend(inetd: bool, s: seq<Request>, t: seq<Request>)
    ensures UpToEnd(inetd, s + t) == if NoneEnds(inetd, s) then s + UpToEnd(inetd, t) else UpToEnd(inetd, s)
  {
    if s == [] {
      assert s + t == t;
    } else {
      assert (s + t)[1..] == s[1..] + t;
      UpToEndAppend(inetd, s[1..], t);
      if !Ends(inetd, s[0]) {
        assert NoneEnds(inetd, s) <==> NoneEnds(inetd, s[1..]) by {
          if NoneEnds(inetd, s[1..]) {
            forall i | 0 <= i < |s| ensures !Ends(inetd, s[i]) { if i > 0 { assert s[i] == s[1..][i - 1]; } }
          }
        }
      }
    }
  }

  // A server that will go on to another pass; under inetd it still has its connection.
  ghost predicate Live(inetd: bool, s: Server) {
    !Stopped(s) && (inetd ==> s.connected) && ';' !in s.pending
  }

  lemma LiveStep(inetd: bool, s: Server, c: string)
    requires Live(inetd, s) && c != ""
    ensures var n := Step(inetd, s, Pass(true, Ready(Bytes(c))));
            && Accounts(s, Clean(Seen(c)), n)
            && (Live(inetd, n) <==> NoneEnds(inetd, Requests(s.pending + Clean(Seen(c)))))
            && (!Live(inetd, n) ==> Stopped(n) || (inetd && !n.connected))
  {
    var qs := Requests(s.pending + Clean(Seen(c)));
    StepAccounts(inetd, s, Pass(true, Ready(Bytes(c))));
    if HasExit(qs) {
      var i :| 0 <= i < |qs| && IsExit(qs[i]);
      assert Ends(inetd, qs[i]);
    }
    if HasDetach(qs) && inetd {
      var i :| 0 <= i < |qs| && IsDetach(qs[i]);
      assert Ends(inetd, qs[i]);
    }
  }

  // Once the run has ended no request is handled any more.
  lemma {:induction false} EndedStays(inetd: bool, s: Server, passes: seq<Pass>)
    requires Stopped(s) || (inetd && !s.connected)
    ensures Run(inetd, s, passes).log == s.log
    decreases |passes|
  {
    if passes != [] { EndedStays(inetd, Step(inetd, s, passes[0]), passes[1..]); }
  }

  // The cleaned text of chunks read one C string at a time.
  function SeenStream(chunks: seq<string>): string {
    if chunks == [] then "" else Clean(Seen(chunks[0])) + SeenStream(chunks[1..])
  }

  // The log of a run that started in s, up to its end, is that of the text t.
  ghost predicate HandlesUpToEnd(inetd: bool, s: Server, t: string, log: seq<Request>) {
    exists qs :: log == s.log + qs && UpToEnd(inetd, qs) == UpToEnd(inetd, Requests(s.pending + t))
  }

  // First d is taken in, then rest.
  lemma HandlesCompose(inetd: bool, s: Server, d: string, m: Server, rest: string, log: seq<Request>)
    requires Accounts(s, d, m)
    requires if NoneEnds(inetd, Requests(s.pending + d)) then HandlesUpToEnd(inetd, m, rest, log) else log == m.log
    ensures HandlesUpToEnd(inetd, s, d + rest, log)
  {
    var qs, later := Requests(s.pending + d), Requests(m.pending + rest);
    RequestsAppend(s.pending + d, rest);
    Assoc(s.pending, d, rest);
    UpToEndAppend(inetd, qs, later);
    if NoneEnds(inetd, qs) {
      var more :| log == m.log + more && UpToEnd(inetd, more) == UpToEnd(inetd, later);
      UpToEndAppend(inetd, qs, more);
      Assoc(s.log, qs, more);
    }
  }

  lemma {:induction false} ArrivingRun(inetd: bool, s: Server, chunks: seq<string>)
    requires Live(inetd, s) && Chunked(chunks)
    ensures HandlesUpToEnd(inetd, s, SeenStream(chunks), Run(inetd, s, Arriving(chunks)).log)
    decreases |chunks|
  {
    if chunks == [] {
      AccountsNothing(s, s);
    } else {
      assert chunks[0] in chunks;
      assert Arriving(chunks)[1..] == Arriving(chunks[1..]);
      var n := Step(inetd, s, Arriving(chunks)[0]);
      LiveStep(inetd, s, chunks[0]);
      if Live(inetd, n) {
        assert forall c :: c in chunks[1..] ==> c in chunks;
        ArrivingRun(inetd, n, chunks[1..]);
      } else {
        EndedStays(inetd, n, Arriving(chunks[1..]));
      }
      HandlesCompose(inetd, s, Clean(Seen(chunks[0])), n, SeenStream(chunks[1..]), Run(inetd, s, Arriving(chunks)).log);
    }
  }

  lemma {:induction false} SeenStreamClean(chunks: seq<string>)
    ensures SeenStream(chunks) == Clean(Stream(chunks)) <==> NUL !in Stream(chunks)
    ensures NUL !in SeenStream(chunks)
  {
    if chunks != [] {
      var c, rest := chunks[0], chunks[1..];
      SeenStreamClean(rest);
      CleanAppend(c, Stream(rest));
      CleanMembers(Seen(c), NUL);
      if NUL in Stream(chunks) {
        CleanMembers(Stream(chunks), NUL);
      }
    }
  }

  // Up to the request that ends the run, the requests handled do not depend on how the stream was cut:
  // they are those of the whole stream split in one go. This is so exactly for what the server reads
  // of each chunk, and that is the stream itself if and only if the stream has no NUL.
  lemma {:induction false} ChunkIndependence(inetd: bool, chunks: seq<string>)
    requires Chunked(chunks)
    ensures UpToEnd(inetd, Run(inetd, Start(inetd), Arriving(chunks)).log)
         == UpToEnd(inetd, Requests(SeenStream(chunks)))
    ensures SeenStream(chunks) == Clean(Stream(chunks)) <==> NUL !in Stream(chunks)
  {
    ArrivingRun(inetd, Start(inetd), chunks);
    var log := Run(inetd, Start(inetd), Arriving(chunks)).log;
    assert "" + SeenStream(chunks) == SeenStream(chunks);
    var qs :| log == [] + qs && UpToEnd(inetd, qs) == UpToEnd(inetd, Requests(SeenStream(chunks)));
    assert [] + qs == qs;
    SeenStreamClean(chunks);
  }

  // Two ways of cutting one NUL-free stream cannot be told apart before the run ends.
  lemma {:induction false} CutsAgree(inetd: bool, chunks: seq<string>, others: seq<string>)
    requires Chunked(chunks) && Chunked(others)
    requires Stream(chunks) == Stream(others) && NUL !in Stream(chunks)
    ensures UpToEnd(inetd, Run(inetd, Start(inetd), Arriving(chunks)).log)
         == UpToEnd(inetd, Run(inetd, Start(inetd), Arriving(others)).log)
  {
    ChunkIndependence(inetd, chunks);
    ChunkIndependence(inetd, others);
  }

  // With a NUL in the stream the cut does matter: what follows it in its chunk is lost.
  lemma {:induction false} NulMakesCutsMatter()
    ensures var whole, cut := ["a;\0b;"], ["a;\0", "b;"];
            && Stream(whole) == Stream(cut)
            && UpToEnd(false, Run(false, Start(false), Arriving(whole)).log)
            != UpToEnd(false, Run(false, Start(false), Arriving(cut)).log)
  {
    hide Run, Clean, Requests, Cspn, UpToEnd;
    var whole, cut := ["a;\0b;"], ["a;\0", "b;"];
    assert whole[1..] == [] && cut[1..] == ["b;"] && ["b;"][1..] == [];
    assert Stream(whole) == "a;\0b;" + "" && Stream(cut) == "a;\0" + ("b;" + "");
    CspnIs(whole[0], [NUL], 2);
    CspnIs(cut[0], [NUL], 2);
    CspnIs("b;", [NUL], 2);
    assert Seen(whole[0]) == "a;" && Seen(cut[0]) == "a;" && Seen("b;") == "b;";
    CleanKeeps("a;");
    CleanKeeps("b;");
    assert SeenStream(whole) == "a;" + "";
    assert SeenStream(cut) == "a;" + ("b;" + "");
    ChunkIndependence(false, whole);
    ChunkIndependence(false, cut);
    OneLetter('a', "b;");
    OneLetter('b', "");
    OneLetter('a', "");
    NothingRequested();
    var a, b := Request("a", None), Request("b", None);
    assert ['a'] + ";" + "" == "a;" + "" && ['b'] + ";" + "" == "b;" && ['a'] + ";" + "b;" == "a;" + ("b;" + "");
    TwoRequests(a, b);
  }

  lemma TwoRequests(a: Request, b: Request)
    requires a == Request("a", None) && b == Request("b", None)
    ensures UpToEnd(false, [a] + []) == [a]
    ensures UpToEnd(false, [a] + ([b] + [])) == [a, b]
  {
    assert !Ends(false, a) && !Ends(false, b);
    assert ([a] + ([b] + []))[1..] == [b] && [b][1..] == [] && ([a] + [])[1..] == [];
    assert UpToEnd(false, []) == [];
    assert UpToEnd(false, [b]) == [b];
  }

  lemma NothingRequested()
    ensures Requests("") == []
  {
    NoSegment("");
  }

  lemma OneLetter(x: char, rest: string)
    requires x in "ab"
    ensures Requests([x] + ";" + rest) == [Request([x], None)] + Requests(rest)
  {
    hide Cspn, Parse;
    FirstSegment([x], rest);
    ParseWritten(0, [x], Nothing);
    assert Written(0, [x], Nothing) == [x];
    ParseAllFirst([x], Segments(rest));
  }
}
