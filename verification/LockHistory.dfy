/** Who holds the lock, told from the history of a run alone. */
module LockHistory {
  import opened LockFile
  import opened LockProtocol
  import opened Wrappers

  // The world before step i.
  function At(w: World, acts: seq<Act>, i: nat): World
    requires i <= |acts|
  {
    RunAll(w, acts[..i])
  }

  // In step i client c asked for a lease, and heard that it was granted.
  ghost predicate GrantedIn(w: World, acts: seq<Act>, c: Client, i: nat)
    requires i < |acts|
  {
    && acts[i].Ask? && acts[i].c == c && acts[i].heard
    && Lock(At(w, acts, i).file, acts[i].accessible, Set(acts[i].timeout), At(w, acts, i).now).reply == Some(0)
  }

  predicate UnlockedIn(acts: seq<Act>, c: Client, i: nat)
    requires i < |acts|
  {
    acts[i].Unlock? && acts[i].c == c
  }

  // The last grant to c before step n was in step i.
  ghost predicate LastGrant(w: World, acts: seq<Act>, c: Client, n: nat, i: nat)
    requires n <= |acts|
  {
    i < n && GrantedIn(w, acts, c, i) && forall j :: i < j < n ==> !GrantedIn(w, acts, c, j)
  }

  // The seconds that have passed before step n.
  function Elapsed(acts: seq<Act>, n: nat): nat
    requires n <= |acts|
  {
    if n == 0 then 0 else Elapsed(acts, n - 1) + match acts[n - 1] case Tick(d) => d case _ => 0
  }

  // The time asked for in step i.
  function TimeoutIn(acts: seq<Act>, i: nat): nat
    requires i < |acts|
  {
    match acts[i] case Ask(_, timeout, _, _) => timeout case _ => 0
  }

  lemma {:induction false} RunSnoc(w: World, acts: seq<Act>, a: Act)
    ensures RunAll(w, acts + [a]) == Next(RunAll(w, acts), a)
    decreases |acts|
  {
    hide Next;
    if acts == [] {
      assert [] + [a] == [a] && [a][1..] == [];
    } else {
      assert (acts + [a])[1..] == acts[1..] + [a];
      RunSnoc(Next(w, acts[0]), acts[1..], a);
    }
  }

  lemma AtNext(w: World, acts: seq<Act>, n: nat)
    requires n < |acts|
    ensures At(w, acts, n + 1) == Next(At(w, acts, n), acts[n])
  {
    hide RunAll, Next;
    assert acts[..n + 1] == acts[..n] + [acts[n]];
    RunSnoc(w, acts[..n], acts[n]);
  }

  // One step, for one client.
  lemma StepPhase(w: World, a: Act, c: Client)
    ensures var n, p := Next(w, a), PhaseOf(w, c);
            PhaseOf(n, c)
            == if a.Ask? && a.c == c && a.heard && Lock(w.file, a.accessible, Set(a.timeout), w.now).reply == Some(0)
               then Flagged(w.now + a.timeout, false)
               else if a.Unlock? && a.c == c && p.Flagged? then Flagged(p.until, true)
               else p
    ensures Next(w, a).now == w.now + match a case Tick(d) => d case _ => 0
  {
    hide Lock;
  }

  // The phase of c before step n is what its last grant and the unlocks since say.
  ghost predicate Told(w: World, acts: seq<Act>, c: Client, n: nat, p: Phase)
    requires n <= |acts|
  {
    && (p.Flagged? <==> exists i :: 0 <= i < n && GrantedIn(w, acts, c, i))
    && forall i :: 0 <= i < n && LastGrant(w, acts, c, n, i) ==>
         p == Flagged(w.now + Elapsed(acts, i) + TimeoutIn(acts, i), GivenBack(acts, c, i, n))
  }

  ghost predicate GivenBack(acts: seq<Act>, c: Client, i: nat, n: nat)
    requires n <= |acts|
  {
    exists j :: i < j < n && UnlockedIn(acts, c, j)
  }

  lemma GivenBackNext(acts: seq<Act>, c: Client, i: nat, n: nat)
    requires n < |acts|
    ensures GivenBack(acts, c, i, n + 1) <==> GivenBack(acts, c, i, n) || (i < n && UnlockedIn(acts, c, n))
  {
    hide UnlockedIn;
  }

  lemma LastGrantNext(w: World, acts: seq<Act>, c: Client, n: nat, i: nat)
    requires n < |acts|
    ensures LastGrant(w, acts, c, n + 1, i)
       <==> if GrantedIn(w, acts, c, n) then i == n else LastGrant(w, acts, c, n, i)
    ensures LastGrant(w, acts, c, n, i) ==> i < n && GrantedIn(w, acts, c, i)
  {
    hide GrantedIn;
  }

  // The next step, after which the phase is q.
  lemma ToldNext(w: World, acts: seq<Act>, c: Client, n: nat, p: Phase, q: Phase)
    requires n < |acts| && Told(w, acts, c, n, p)
    requires q == if GrantedIn(w, acts, c, n) then Flagged(w.now + Elapsed(acts, n) + TimeoutIn(acts, n), false)
                  else if UnlockedIn(acts, c, n) && p.Flagged? then Flagged(p.until, true)
                  else p
    ensures Told(w, acts, c, n + 1, q)
  {
    hide GrantedIn, UnlockedIn, LastGrant, GivenBack, Elapsed;
    AnyGrantNext(w, acts, c, n);
    forall i | 0 <= i < n + 1 && LastGrant(w, acts, c, n + 1, i)
      ensures q == Flagged(w.now + Elapsed(acts, i) + TimeoutIn(acts, i), GivenBack(acts, c, i, n + 1))
    {
      LastGrantNext(w, acts, c, n, i);
      NotGivenBackYet(acts, c, n);
      GivenBackNext(acts, c, i, n);
    }
  }

  lemma AnyGrantNext(w: World, acts: seq<Act>, c: Client, n: nat)
    requires n < |acts|
    ensures (exists i :: 0 <= i < n + 1 && GrantedIn(w, acts, c, i))
       <==> (exists i :: 0 <= i < n && GrantedIn(w, acts, c, i)) || GrantedIn(w, acts, c, n)
  {
    hide GrantedIn;
  }

  lemma NotGivenBackYet(acts: seq<Act>, c: Client, n: nat)
    requires n < |acts|
    ensures !GivenBack(acts, c, n, n)
  {
  }

  // A client's flag is set exactly when some request of its own was granted and it heard so. The lease
  // then runs from the last such grant, for the time asked, and is given back by an unlock after it.
  lemma {:induction false} FlagTellsHistory(w: World, acts: seq<Act>, c: Client, n: nat)
    requires w.phases == map[] && n <= |acts|
    ensures At(w, acts, n).now == w.now + Elapsed(acts, n)
    ensures Told(w, acts, c, n, PhaseOf(At(w, acts, n), c))
  {
    hide At, Next, Lock, PhaseOf, Told;
    if n == 0 {
      NothingYet(w, acts, c);
    } else {
      FlagTellsHistory(w, acts, c, n - 1);
      AtNext(w, acts, n - 1);
      StepPhase(At(w, acts, n - 1), acts[n - 1], c);
      ToldNext(w, acts, c, n - 1, PhaseOf(At(w, acts, n - 1), c), PhaseOf(At(w, acts, n), c));
    }
  }

  lemma NothingYet(w: World, acts: seq<Act>, c: Client)
    requires w.phases == map[]
    ensures At(w, acts, 0) == w && Told(w, acts, c, 0, PhaseOf(w, c))
  {
  }

  // So a client holds the lock exactly when its last grant is less than its timeout ago and it has not
  // unlocked since.
  lemma HoldsByHistory(w: World, acts: seq<Act>, c: Client, n: nat)
    requires w.phases == map[] && n <= |acts|
    ensures Holds(At(w, acts, n), c)
       <==> exists i :: 0 <= i < n && LastGrant(w, acts, c, n, i)
                        && Elapsed(acts, n) < Elapsed(acts, i) + TimeoutIn(acts, i)
                        && forall j :: i < j < n ==> !UnlockedIn(acts, c, j)
  {
    hide At, Elapsed, UnlockedIn, GrantedIn;
    FlagTellsHistory(w, acts, c, n);
    if k :| 0 <= k < n && GrantedIn(w, acts, c, k) {
      var i := LatestGrant(w, acts, c, n, k);
      assert LastGrant(w, acts, c, n, i);
    }
  }

  lemma {:induction false} LatestGrant(w: World, acts: seq<Act>, c: Client, n: nat, k: nat) returns (i: nat)
    requires k < n <= |acts| && GrantedIn(w, acts, c, k)
    ensures LastGrant(w, acts, c, n, i)
    decreases n - k
  {
    hide GrantedIn;
    if j :| k < j < n && GrantedIn(w, acts, c, j) {
      i := LatestGrant(w, acts, c, n, j);
    } else {
      i := k;
    }
  }

  // ------------------------------------------------------------ what the server is sent

  // The message step i sends, if any: only a client whose flag is set sends a release.
  ghost function Sent(w: World, acts: seq<Act>, i: nat): seq<Event>
    requires i < |acts|
  {
    var now := At(w, acts, i).now;
    match acts[i]
    case Tick(_) => []
    case Ask(c, timeout, accessible, heard) => [Event(now, accessible, Set(timeout))]
    case Unlock(c, accessible) =>
      if exists k :: 0 <= k < i && GrantedIn(w, acts, c, k) then [Event(now, accessible, Release)] else []
    case Look(accessible) => [Event(now, accessible, Query)]
  }

  ghost function AllSent(w: World, acts: seq<Act>, n: nat): seq<Event>
    requires n <= |acts|
  {
    if n == 0 then [] else AllSent(w, acts, n - 1) + Sent(w, acts, n - 1)
  }

  lemma {:induction false} LockSnoc(file: Option<string>, es: seq<Event>, e: Event)
    ensures RunLock(file, es + [e]) == Lock(RunLock(file, es), e.accessible, e.cmd, e.now).file
    decreases |es|
  {
    hide Lock;
    if es == [] {
      assert [] + [e] == [e] && [e][1..] == [];
    } else {
      assert (es + [e])[1..] == es[1..] + [e];
      LockSnoc(Lock(file, es[0].accessible, es[0].cmd, es[0].now).file, es[1..], e);
    }
  }

  // The lock file of the clients' world is that of the server on the messages sent. So what holds of every
  // run of the server holds of this one: no grant inside a lease without a release in between.
  lemma {:induction false} WorldIsServerRun(w: World, acts: seq<Act>, n: nat)
    requires w.phases == map[] && n <= |acts|
    ensures At(w, acts, n).file == RunLock(w.file, AllSent(w, acts, n))
  {
    hide At, Lock, GrantedIn, Sent;
    if n == 0 {
      NothingYet(w, acts, 0);
    } else {
      WorldIsServerRun(w, acts, n - 1);
      AtNext(w, acts, n - 1);
      SentStep(w, acts, n - 1);
      var sent := Sent(w, acts, n - 1);
      if sent == [] {
        assert AllSent(w, acts, n - 1) + [] == AllSent(w, acts, n - 1);
      } else {
        assert sent == [sent[0]];
        LockSnoc(w.file, AllSent(w, acts, n - 1), sent[0]);
      }
    }
  }

  lemma SentStep(w: World, acts: seq<Act>, n: nat)
    requires w.phases == map[] && n < |acts|
    ensures var sent, f := Sent(w, acts, n), Next(At(w, acts, n), acts[n]).file;
            && |sent| <= 1
            && f == if sent == [] then At(w, acts, n).file
                    else Lock(At(w, acts, n).file, sent[0].accessible, sent[0].cmd, sent[0].now).file
  {
    hide At, Lock, GrantedIn, LastGrant, Elapsed;
    if acts[n].Unlock? { FlagTellsHistory(w, acts, acts[n].c, n); }
  }
}
