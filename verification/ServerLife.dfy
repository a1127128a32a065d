/** When the control server stops, with which status, and whom it serves until then: in terms of what the
    network brings in each pass and of the requests handled. */
module ServerLife {
  import opened ControlMessages
  import opened Framing
  import opened Text
  import opened Wrappers

  // The server before pass n of a run, and the requests it has handled by then.
  function At(inetd: bool, passes: seq<Pass>, n: nat): Server
    requires n <= |passes|
  {
    Run(inetd, Start(inetd), passes[..n])
  }

  function LogAt(inetd: bool, passes: seq<Pass>, n: nat): seq<Request>
    requires n <= |passes|
  {
    At(inetd, passes, n).log
  }

  // What pass i may bring: a failing select, no data in time, or the end of the connection.
  predicate SelectFailed(p: Pass) { p.net == SelectFails }
  predicate TimedOut(p: Pass) { p.net.TimesOut? }
  predicate PeerClosed(p: Pass) { p.net == Ready(Bytes("")) || p.net == TimesOut(Bytes("")) }

  // Pass i handled an exit request, or a detach request.
  ghost predicate ExitIn(inetd: bool, passes: seq<Pass>, i: nat)
    requires i < |passes|
  {
    var before, after := LogAt(inetd, passes, i), LogAt(inetd, passes, i + 1);
    exists j :: |before| <= j < |after| && IsExit(after[j])
  }

  ghost predicate DetachIn(inetd: bool, passes: seq<Pass>, i: nat)
    requires i < |passes|
  {
    var before, after := LogAt(inetd, passes, i), LogAt(inetd, passes, i + 1);
    exists j :: |before| <= j < |after| && IsDetach(after[j])
  }

  // The connection ends with pass i.
  ghost predicate LostIn(inetd: bool, passes: seq<Pass>, i: nat)
    requires i < |passes|
  {
    PeerClosed(passes[i]) || DetachIn(inetd, passes, i)
  }

  // There is a connection before pass n: under inetd the one it was started with; a daemon has accepted
  // one. It has not been lost since.
  ghost predicate Linked(inetd: bool, passes: seq<Pass>, n: nat)
    requires n <= |passes|
  {
    if inetd then forall k :: 0 <= k < n ==> !LostIn(inetd, passes, k)
    else exists j :: 0 <= j < n && passes[j].accepts && forall k :: j <= k < n ==> !LostIn(inetd, passes, k)
  }

  // Pass i waits for data: a daemon without a connection accepts one first.
  ghost predicate Waits(inetd: bool, passes: seq<Pass>, i: nat)
    requires i < |passes|
  {
    Linked(inetd, passes, i) || (!inetd && passes[i].accepts)
  }

  // What makes pass i the last: for any server an exit request, or select failing while it waits;
  // under inetd also the peer closing, no data in time, or having no connection left.
  ghost predicate LastPass(inetd: bool, passes: seq<Pass>, i: nat)
    requires i < |passes|
  {
    || ExitIn(inetd, passes, i)
    || (Waits(inetd, passes, i) && SelectFailed(passes[i]))
    || (inetd && (PeerClosed(passes[i]) || TimedOut(passes[i]) || !Waits(inetd, passes, i)))
  }

  // The status returned with pass i.
  ghost function StatusOf(inetd: bool, passes: seq<Pass>, i: nat): Option<nat>
    requires i < |passes|
  {
    if Waits(inetd, passes, i) && SelectFailed(passes[i]) then Some(1)
    else if inetd && (PeerClosed(passes[i]) || TimedOut(passes[i]) || !Waits(inetd, passes, i)) then Some(0)
    else None
  }

  // ------------------------------------------------------------------- one pass

  lemma {:induction false} RunSnoc(inetd: bool, s: Server, passes: seq<Pass>, p: Pass)
    ensures Run(inetd, s, passes + [p]) == Step(inetd, Run(inetd, s, passes), p)
    decreases |passes|
  {
    hide Step;
    if passes == [] {
      assert [] + [p] == [p] && [p][1..] == [];
    } else {
      assert (passes + [p])[1..] == passes[1..] + [p];
      RunSnoc(inetd, Step(inetd, s, passes[0]), passes[1..], p);
    }
  }

  lemma AtNext(inetd: bool, passes: seq<Pass>, n: nat)
    requires n < |passes|
    ensures At(inetd, passes, n + 1) == Step(inetd, At(inetd, passes, n), passes[n])
    ensures ';' !in At(inetd, passes, n).pending
  {
    hide Run, Step;
    assert passes[..n + 1] == passes[..n] + [passes[n]];
    RunSnoc(inetd, Start(inetd), passes[..n], passes[n]);
    RunFromStart(inetd, passes[..n]);
  }

  // The text pass p brings, if the server waits in it.
  function Brought(inetd: bool, p: Pass): string {
    match p.net
    case SelectFails => ""
    case TimesOut(got) => if inetd || got.RecvFails? then "" else Clean(Seen(got.data))
    case Ready(got) => if got.RecvFails? then "" else Clean(Seen(got.data))
  }

  // Handling a text ends no run by itself; exit and detach are what count.
  lemma HandledLife(s: Server, text: string)
    ensures var n := Handle(s, text);
            && s.log <= n.log && n.status == s.status
            && (n.running <==> s.running && forall j :: |s.log| <= j < |n.log| ==> !IsExit(n.log[j]))
            && (n.connected <==> s.connected && forall j :: |s.log| <= j < |n.log| ==> !IsDetach(n.log[j]))
  {
    hide Requests, Tail, IsExit, IsDetach;
    var n, qs := Handle(s, text), Requests(text);
    forall i | 0 <= i < |qs| ensures n.log[|s.log| + i] == qs[i] { }
    forall j | |s.log| <= j < |n.log| ensures n.log[j] == qs[j - |s.log|] { }
  }

  // One pass of a server that has not stopped.
  lemma PassLife(inetd: bool, s: Server, p: Pass)
    requires !Stopped(s)
    ensures var n, waits := Step(inetd, s, p), s.connected || (!inetd && p.accepts);
            && s.log <= n.log
            && (n.running <==> forall j :: |s.log| <= j < |n.log| ==> !IsExit(n.log[j]))
            && (n.status == if waits && SelectFailed(p) then Some(1)
                            else if inetd && (PeerClosed(p) || TimedOut(p) || !waits) then Some(0) else None)
            && (!Stopped(n) ==>
                  (n.connected <==> waits && !PeerClosed(p)
                                    && forall j :: |s.log| <= j < |n.log| ==> !IsDetach(n.log[j])))
            && (!waits ==> n.log == s.log)
  {
    hide Handle, IsExit, IsDetach, Clean, Seen;
    var c := s.(connected := true);
    if !p.net.SelectFails? && p.net.got.Bytes? {
      HandledLife(c, s.pending + Clean(Seen(p.net.got.data)));
    }
  }

  // ------------------------------------------------------------------ whole runs

  lemma LinkedNext(inetd: bool, passes: seq<Pass>, n: nat)
    requires n < |passes|
    ensures Linked(inetd, passes, n + 1) <==> Waits(inetd, passes, n) && !LostIn(inetd, passes, n)
    ensures Linked(inetd, passes, 0) <==> inetd
  {
    hide LostIn;
    if !inetd && Waits(inetd, passes, n) && !LostIn(inetd, passes, n) && !Linked(inetd, passes, n) {
      assert passes[n].accepts && forall k :: n <= k < n + 1 ==> !LostIn(inetd, passes, k);
    }
  }

  // The loop has stopped after n passes if and only if one of them was the last; until then there is a
  // connection exactly when the passes and requests say so.
  lemma {:induction false} Life(inetd: bool, passes: seq<Pass>, n: nat)
    requires n <= |passes|
    ensures Stopped(At(inetd, passes, n)) <==> exists i :: 0 <= i < n && LastPass(inetd, passes, i)
    ensures !Stopped(At(inetd, passes, n)) ==> (At(inetd, passes, n).connected <==> Linked(inetd, passes, n))
  {
    hide Linked, Waits, At, Step, LastPass, Stopped;
    if n == 0 {
      StartLife(inetd, passes);
    } else {
      Life(inetd, passes, n - 1);
      AtNext(inetd, passes, n - 1);
      if Stopped(At(inetd, passes, n - 1)) {
        StoppedPass(inetd, At(inetd, passes, n - 1), passes[n - 1]);
      } else {
        LifeNext(inetd, passes, n - 1);
      }
    }
  }

  lemma StartLife(inetd: bool, passes: seq<Pass>)
    ensures var s := At(inetd, passes, 0); !Stopped(s) && (s.connected <==> Linked(inetd, passes, 0))
  {
  }

  lemma StoppedPass(inetd: bool, s: Server, p: Pass)
    requires Stopped(s)
    ensures Step(inetd, s, p) == s
  {
  }

  // A pass that a live server makes: it ends the run exactly when it is the last, with its status.
  lemma LifeNext(inetd: bool, passes: seq<Pass>, n: nat)
    requires n < |passes| && !Stopped(At(inetd, passes, n))
    requires At(inetd, passes, n).connected <==> Linked(inetd, passes, n)
    ensures var m := At(inetd, passes, n + 1);
            && (Stopped(m) <==> LastPass(inetd, passes, n))
            && m.status == StatusOf(inetd, passes, n)
            && (m.running <==> !ExitIn(inetd, passes, n))
            && (!Stopped(m) ==> (m.connected <==> Linked(inetd, passes, n + 1)))
  {
    hide Linked, At, Step, PeerClosed, TimedOut, SelectFailed, IsExit, IsDetach;
    AtNext(inetd, passes, n);
    PassLife(inetd, At(inetd, passes, n), passes[n]);
    LinkedNext(inetd, passes, n);
    var before, after := LogAt(inetd, passes, n), LogAt(inetd, passes, n + 1);
    assert after == At(inetd, passes, n + 1).log && before == At(inetd, passes, n).log;
    assert ExitIn(inetd, passes, n) <==> exists j :: |before| <= j < |after| && IsExit(after[j]);
    assert DetachIn(inetd, passes, n) <==> exists j :: |before| <= j < |after| && IsDetach(after[j]);
  }

  // The status of a run is that of its last pass: a select that fails while the server waits gives 1, under
  // inetd a lost connection or a silent one 0, and exit alone ends the loop without a status.
  lemma LastPassDecides(inetd: bool, passes: seq<Pass>, n: nat)
    requires n < |passes| && forall i :: 0 <= i < n ==> !LastPass(inetd, passes, i)
    ensures Stopped(At(inetd, passes, n + 1)) <==> LastPass(inetd, passes, n)
    ensures At(inetd, passes, n + 1).status == StatusOf(inetd, passes, n)
    ensures At(inetd, passes, n + 1).running <==> !ExitIn(inetd, passes, n)
  {
    hide LastPass, At, Stopped, StatusOf, Linked;
    Life(inetd, passes, n);
    LifeNext(inetd, passes, n);
  }

  // A request handled was handled in some pass.
  lemma {:induction false} HandledSomewhere(inetd: bool, passes: seq<Pass>, n: nat, j: nat)
    requires n <= |passes| && j < |LogAt(inetd, passes, n)| && IsExit(LogAt(inetd, passes, n)[j])
    ensures exists i :: 0 <= i < n && ExitIn(inetd, passes, i)
  {
    hide At, IsExit;
    if n == 0 {
      NothingLogged(inetd, passes);
    } else {
      LogGrows(inetd, passes, n - 1);
      if j < |LogAt(inetd, passes, n - 1)| {
        HandledSomewhere(inetd, passes, n - 1, j);
      } else {
        assert ExitIn(inetd, passes, n - 1);
      }
    }
  }

  lemma NothingLogged(inetd: bool, passes: seq<Pass>)
    ensures LogAt(inetd, passes, 0) == []
  {
  }

  lemma LogGrows(inetd: bool, passes: seq<Pass>, n: nat)
    requires n < |passes|
    ensures LogAt(inetd, passes, n) <= LogAt(inetd, passes, n + 1)
  {
    hide At, Step, Stopped;
    AtNext(inetd, passes, n);
    if Stopped(At(inetd, passes, n)) {
      StoppedPass(inetd, At(inetd, passes, n), passes[n]);
    } else {
      hide IsExit, IsDetach, PeerClosed, TimedOut, SelectFailed;
      PassLife(inetd, At(inetd, passes, n), passes[n]);
    }
  }

  lemma {:induction false} LogPrefix(inetd: bool, passes: seq<Pass>, i: nat, n: nat)
    requires i <= n <= |passes|
    ensures LogAt(inetd, passes, i) <= LogAt(inetd, passes, n)
    decreases n - i
  {
    hide LogAt;
    if i < n {
      LogGrows(inetd, passes, i);
      LogPrefix(inetd, passes, i + 1, n);
    }
  }

  // A daemon stops if and only if it handled an exit request, or select failed while it waited. Clients
  // that close, detach or stay silent never stop it.
  lemma {:induction false} DaemonStops(passes: seq<Pass>)
    ensures Stopped(Run(false, Start(false), passes))
       <==> HasExit(Run(false, Start(false), passes).log)
            || exists i :: 0 <= i < |passes| && Waits(false, passes, i) && SelectFailed(passes[i])
  {
    hide Waits, SelectFailed, Run, LogAt;
    StopCauses(false, passes);
    assert forall i :: 0 <= i < |passes| ==>
      (OtherCause(false, passes, i) <==> Waits(false, passes, i) && SelectFailed(passes[i]));
  }

  // Started by inetd it stops exactly on those, or when the peer closes, sends nothing in time, or the
  // connection was detached.
  lemma {:induction false} InetdStops(passes: seq<Pass>)
    ensures Stopped(Run(true, Start(true), passes))
       <==> HasExit(Run(true, Start(true), passes).log)
            || exists i :: 0 <= i < |passes| && (SelectFailed(passes[i]) || PeerClosed(passes[i]) || TimedOut(passes[i])
                                                 || !Linked(true, passes, i))
  {
    hide SelectFailed, Run, LogAt, Linked, PeerClosed, TimedOut;
    StopCauses(true, passes);
    assert forall i :: 0 <= i < |passes| ==>
      (OtherCause(true, passes, i)
       <==> SelectFailed(passes[i]) || PeerClosed(passes[i]) || TimedOut(passes[i]) || !Linked(true, passes, i));
  }

  ghost predicate OtherCause(inetd: bool, passes: seq<Pass>, i: nat)
    requires i < |passes|
  {
    || (Waits(inetd, passes, i) && SelectFailed(passes[i]))
    || (inetd && (PeerClosed(passes[i]) || TimedOut(passes[i]) || !Waits(inetd, passes, i)))
  }

  lemma {:induction false} StopCauses(inetd: bool, passes: seq<Pass>)
    ensures Stopped(Run(inetd, Start(inetd), passes))
       <==> HasExit(Run(inetd, Start(inetd), passes).log)
            || exists i :: 0 <= i < |passes| && OtherCause(inetd, passes, i)
  {
    hide Waits, SelectFailed, PeerClosed, TimedOut, Run, Stopped, IsExit;
    var n := |passes|;
    assert passes[..n] == passes;
    Life(inetd, passes, n);
    var log := LogAt(inetd, passes, n);
    if HasExit(log) {
      var j :| 0 <= j < |log| && IsExit(log[j]);
      HandledSomewhere(inetd, passes, n, j);
      var i :| 0 <= i < n && ExitIn(inetd, passes, i);
      assert LastPass(inetd, passes, i);
    }
    if i :| 0 <= i < n && OtherCause(inetd, passes, i) {
      assert LastPass(inetd, passes, i);
    }
    if i :| 0 <= i < n && LastPass(inetd, passes, i) {
      if ExitIn(inetd, passes, i) {
        var j :| |LogAt(inetd, passes, i)| <= j < |LogAt(inetd, passes, i + 1)|
                 && IsExit(LogAt(inetd, passes, i + 1)[j]);
        LogPrefix(inetd, passes, i + 1, n);
        assert IsExit(log[j]);
      } else {
        assert OtherCause(inetd, passes, i);
      }
    }
  }

  // ---------------------------------------------------------------- who is served

  // The text the server reads in the first n passes: that of each pass in which it waited, up to and
  // with the last.
  ghost function Heard(inetd: bool, passes: seq<Pass>, n: nat): string
    requires n <= |passes|
  {
    if n == 0 then ""
    else
      Heard(inetd, passes, n - 1) +
      if Waits(inetd, passes, n - 1) && forall i :: 0 <= i < n - 1 ==> !LastPass(inetd, passes, i)
      then Brought(inetd, passes[n - 1]) else ""
  }

  lemma DeliveredIs(inetd: bool, s: Server, p: Pass)
    ensures Delivered(inetd, s, p)
         == if !Stopped(s) && (s.connected || (!inetd && p.accepts)) then Brought(inetd, p) else ""
  {
    hide Clean, Seen;
  }

  // Every request of every client is handled, whoever closed or detached before: those handled are those
  // of the text of all passes in which the server waited, and the rest of it is kept.
  lemma {:induction false} EveryClientServed(inetd: bool, passes: seq<Pass>, n: nat)
    requires n <= |passes|
    ensures LogAt(inetd, passes, n) == Requests(Heard(inetd, passes, n))
    ensures At(inetd, passes, n).pending == Tail(Heard(inetd, passes, n))
  {
    hide Requests, Tail, At, Step, Stopped, LastPass, Linked, Brought, Delivered;
    if n == 0 {
      StartServed(inetd, passes);
    } else {
      var s, p, t := At(inetd, passes, n - 1), passes[n - 1], Heard(inetd, passes, n - 1);
      EveryClientServed(inetd, passes, n - 1);
      AtNext(inetd, passes, n - 1);
      Life(inetd, passes, n - 1);
      DeliveredIs(inetd, s, p);
      StepAccounts(inetd, s, p);
      RequestsAppend(t, Delivered(inetd, s, p));
    }
  }

  lemma StartServed(inetd: bool, passes: seq<Pass>)
    ensures LogAt(inetd, passes, 0) == Requests("") && At(inetd, passes, 0).pending == Tail("")
  {
    NoSegment("");
  }

  // In particular a daemon that has not stopped serves the next client, though the one before closed.
  lemma NextClientServed(passes: seq<Pass>, i: nat, data: string)
    requires i < |passes| && data != "" && passes[i] == Pass(true, Ready(Bytes(data)))
    requires forall k :: 0 <= k < i ==> !LastPass(false, passes, k)
    ensures LogAt(false, passes, i + 1)
         == LogAt(false, passes, i) + Requests(Tail(Heard(false, passes, i)) + Clean(Seen(data)))
  {
    hide Requests, Tail, At, LastPass, Linked, Clean, Seen;
    var t := Heard(false, passes, i);
    EveryClientServed(false, passes, i);
    EveryClientServed(false, passes, i + 1);
    RequestsAppend(t, Clean(Seen(data)));
  }

  // -------------------------------------------------------------- the two words

  lemma ExitAndDetach(q: Request)
    ensures IsExit(q) <==> |q.cmd| == 4 && q.cmd[0] in "eE" && q.cmd[1] in "xX" && q.cmd[2] in "iI" && q.cmd[3] in "tT"
    ensures IsDetach(q)
       <==> |q.cmd| == 6 && q.cmd[0] in "dD" && q.cmd[1] in "eE" && q.cmd[2] in "tT" && q.cmd[3] in "aA"
                         && q.cmd[4] in "cC" && q.cmd[5] in "hH"
  {
  }
}
