/** Many test clients sharing one control server through its lease lock. */
module LockProtocol {
  import opened LockFile
  import opened Wrappers

  type Client = nat

  // A client's flag is set by a granted lock and never cleared: it can send its release again, as its
  // clean-up does when a signal is followed by the exit. released says whether it has sent one since
  // the grant.
  datatype Phase = Idle | Flagged(until: nat, released: bool)

  datatype World = World(file: Option<string>, now: nat, phases: map<Client, Phase>)

  // One atomic step: time passes, a client tries to lock (its reply may be lost), a client unlocks, or
  // somebody queries.
  datatype Act = Tick(d: nat)
               | Ask(c: Client, timeout: uint32, accessible: bool, heard: bool)
               | Unlock(c: Client, accessible: bool)
               | Look(accessible: bool)

  function PhaseOf(w: World, c: Client): Phase {
    if c in w.phases then w.phases[c] else Idle
  }

  function Next(w: World, a: Act): World {
    match a
    case Tick(d) => w.(now := w.now + d)
    case Ask(c, timeout, accessible, heard) =>
      var o := Lock(w.file, accessible, Set(timeout), w.now);
      World(o.file, w.now,
            if o.reply == Some(0) && heard then w.phases[c := Flagged(w.now + timeout, false)] else w.phases)
    case Unlock(c, accessible) =>
      if PhaseOf(w, c).Idle? then w
      else World(Lock(w.file, accessible, Release, w.now).file, w.now,
                 w.phases[c := Flagged(PhaseOf(w, c).until, true)])
    case Look(accessible) => w.(file := Lock(w.file, accessible, Query, w.now).file)
  }

  function RunAll(w: World, acts: seq<Act>): World
    decreases |acts|
  {
    if acts == [] then w else RunAll(Next(w, acts[0]), acts[1..])
  }

  // A client holds the lock from its grant until it sends a release or its lease ends.
  ghost predicate Holds(w: World, c: Client) {
    PhaseOf(w, c).Flagged? && !PhaseOf(w, c).released && w.now < PhaseOf(w, c).until
  }

  ghost predicate Exclusive(w: World) {
    forall c: Client, d: Client :: Holds(w, c) && Holds(w, d) ==> c == d
  }

  ghost predicate Inv(w: World) {
    && Sound(w.file, w.now)
    && Exclusive(w)
    && forall c: Client :: Holds(w, c) ==> Lease(w.file) == PhaseOf(w, c).until
  }

  // The step sends a release that reaches the file.
  predicate Releases(w: World, a: Act) { a.Unlock? && a.accessible && PhaseOf(w, a.c).Flagged? }

  // A release is harmless when no other client holds the lock at that moment.
  ghost predicate Harmless(w: World, a: Act) {
    Releases(w, a) ==> forall h: Client :: Holds(w, h) ==> h == a.c
  }

  // It is timely when it is the first since the client's grant and comes before the lease ends: all a
  // client can check by itself.
  ghost predicate Timely(w: World, a: Act) {
    Releases(w, a) ==> !PhaseOf(w, a.c).released && w.now < PhaseOf(w, a.c).until
  }

  lemma TimelyIsHarmless(w: World, a: Act)
    requires Inv(w) && Timely(w, a)
    ensures Harmless(w, a)
  {
    if Releases(w, a) { assert Holds(w, a.c); }
  }

  lemma AskKeeps(w: World, c: Client, timeout: uint32, accessible: bool, heard: bool)
    requires Inv(w)
    ensures Inv(Next(w, Ask(c, timeout, accessible, heard)))
  {
    hide Lock, Lease, Canonical;
    LockStep(w.file, accessible, Set(timeout), w.now);
    ReplyZeroIsGrant(w.file, accessible, timeout, w.now);
    var n := Next(w, Ask(c, timeout, accessible, heard));
    forall d: Client | Holds(n, d) ensures Holds(w, d) || (d == c && PhaseOf(n, c) == Flagged(w.now + timeout, false)) {
    }
    if Granted(w.file, accessible, Set(timeout), w.now) {
      forall d: Client ensures !Holds(w, d) { }
    }
  }

  lemma UnlockKeeps(w: World, c: Client, accessible: bool)
    requires Inv(w) && Harmless(w, Unlock(c, accessible))
    ensures Inv(Next(w, Unlock(c, accessible)))
  {
    hide Lock, Lease, Canonical;
    LockStep(w.file, accessible, Release, w.now);
    var n := Next(w, Unlock(c, accessible));
    forall d: Client | Holds(n, d) ensures Holds(w, d) { }
  }

  lemma {:induction false} NextKeeps(w: World, a: Act)
    requires Inv(w) && Harmless(w, a)
    ensures Inv(Next(w, a))
  {
    hide Lock, Lease, Canonical;
    var n := Next(w, a);
    match a
    case Tick(d) =>
      forall c: Client | Holds(n, c) ensures Holds(w, c) { }
    case Ask(c, timeout, accessible, heard) =>
      AskKeeps(w, c, timeout, accessible, heard);
    case Unlock(c, accessible) =>
      UnlockKeeps(w, c, accessible);
    case Look(accessible) =>
      LockStep(w.file, accessible, Query, w.now);
      forall d: Client | Holds(n, d) ensures Holds(w, d) { }
  }

  ghost predicate AllHarmless(w: World, acts: seq<Act>)
    decreases |acts|
  {
    acts != [] ==> Harmless(w, acts[0]) && AllHarmless(Next(w, acts[0]), acts[1..])
  }

  ghost predicate AllTimely(w: World, acts: seq<Act>)
    decreases |acts|
  {
    acts != [] ==> Timely(w, acts[0]) && AllTimely(Next(w, acts[0]), acts[1..])
  }

  // Mutual exclusion over whole runs of any number of clients, as long as releases are harmless ...
  lemma {:induction false} MutualExclusion(w: World, acts: seq<Act>)
    requires Inv(w) && AllHarmless(w, acts)
    ensures Inv(RunAll(w, acts)) && Exclusive(RunAll(w, acts))
    decreases |acts|
  {
    if acts != [] {
      NextKeeps(w, acts[0]);
      MutualExclusion(Next(w, acts[0]), acts[1..]);
    }
  }

  // ... and they are when every client releases once after a grant, before its own lease ends.
  lemma {:induction false} TimelyRunsAreExclusive(w: World, acts: seq<Act>)
    requires Inv(w) && AllTimely(w, acts)
    ensures AllHarmless(w, acts) && Exclusive(RunAll(w, acts))
    decreases |acts|
  {
    if acts != [] {
      TimelyIsHarmless(w, acts[0]);
      NextKeeps(w, acts[0]);
      TimelyRunsAreExclusive(Next(w, acts[0]), acts[1..]);
    }
  }

  // Every run starts here: nobody has asked, and the file is as an earlier run left it.
  lemma StartIsInv(file: Option<string>, now: nat)
    requires Sound(file, now)
    ensures Inv(World(file, now, map[]))
  {
  }

  // ------------------------------------------------------------------ the condition is exact

  // A client that asks when no lease runs, and hears the reply, is granted the lock.
  lemma AskTaken(w: World, c: Client, timeout: uint32)
    requires Sound(w.file, w.now) && Lease(w.file) <= w.now
    ensures var n := Next(w, Ask(c, timeout, true, true));
            n.phases == w.phases[c := Flagged(w.now + timeout, false)] && n.now == w.now
  {
    hide Lock, Lease, Canonical;
    ReplyZeroIsGrant(w.file, true, timeout, w.now);
  }

  // A release by any client whose flag is set, its first or a later one, lets an idle client in at once,
  // and then two clients hold the lock if and only if the release was not harmless.
  lemma ReleaseIsExact(w: World, c: Client, d: Client, timeout: uint32)
    requires Inv(w) && PhaseOf(w, c).Flagged? && PhaseOf(w, d).Idle? && timeout > 0
    ensures var n := Next(Next(w, Unlock(c, true)), Ask(d, timeout, true, true));
            Holds(n, d) && (Exclusive(n) <==> Harmless(w, Unlock(c, true)))
  {
    hide Lock, Lease, Canonical;
    var m := Next(w, Unlock(c, true));
    var n := Next(m, Ask(d, timeout, true, true));
    LockStep(w.file, true, Release, w.now);
    AskTaken(m, d, timeout);
    assert Holds(n, d);
    if Harmless(w, Unlock(c, true)) {
      NextKeeps(w, Unlock(c, true));
      NextKeeps(m, Ask(d, timeout, true, true));
    } else {
      var h: Client :| Holds(w, h) && h != c;
      assert Holds(n, h);
    }
  }

  // There is always a client that has never been granted the lock.
  lemma {:induction false} ClientBound(clients: set<Client>) returns (m: nat)
    ensures forall c :: c in clients ==> c < m
    decreases clients
  {
    m := 0;
    if clients != {} {
      var c :| c in clients;
      m := ClientBound(clients - {c});
      if m <= c { m := c + 1; }
      assert forall d :: d in clients ==> d == c || d in clients - {c};
    }
  }

  // At no point of the run could a client's request, made then and heard, give the lock to two.
  ghost predicate SafeToAsk(w: World, acts: seq<Act>)
    decreases |acts|
  {
    && (forall d: Client :: Exclusive(Next(w, Ask(d, 1, true, true))))
    && (acts != [] ==> SafeToAsk(Next(w, acts[0]), acts[1..]))
  }

  // Over whole runs: all releases are harmless if and only if exclusion survives one more request
  // at every point.
  lemma {:induction false} RunIsExact(w: World, acts: seq<Act>)
    requires Inv(w)
    ensures AllHarmless(w, acts) <==> SafeToAsk(w, acts)
    decreases |acts|
  {
    hide Next, Inv;
    assert forall d: Client :: Exclusive(Next(w, Ask(d, 1, true, true))) by {
      forall d: Client ensures Exclusive(Next(w, Ask(d, 1, true, true))) { AskIsExclusive(w, d); }
    }
    if acts != [] {
      var n := Next(w, acts[0]);
      if Harmless(w, acts[0]) {
        NextKeeps(w, acts[0]);
        RunIsExact(n, acts[1..]);
      } else {
        var d := HarmShows(w, acts[0]);
        assert !Exclusive(Next(n, Ask(d, 1, true, true)));
        assert !SafeToAsk(n, acts[1..]);
      }
    }
  }

  lemma AskIsExclusive(w: World, d: Client)
    requires Inv(w)
    ensures Exclusive(Next(w, Ask(d, 1, true, true)))
  {
    hide Next, Lease, Canonical;
    AskKeeps(w, d, 1, true, true);
  }

  lemma HarmShows(w: World, a: Act) returns (d: Client)
    requires Inv(w) && !Harmless(w, a)
    ensures !Exclusive(Next(Next(w, a), Ask(d, 1, true, true)))
  {
    hide Next, Inv, Holds;
    d := ClientBound(w.phases.Keys);
    assert PhaseOf(w, d).Idle?;
    ReleaseIsExact(w, a.c, d, 1);
  }

  // A late release does break exclusion: 0 outstays its lease of 1, 1 is granted the lock, 0 releases,
  // and 2 is granted it as well.
  lemma {:induction false} LateReleaseBreaksExclusion(now: nat)
    ensures var w := Next(Next(Next(World(None, now, map[]), Ask(0, 1, true, true)), Tick(1)), Ask(1, 9, true, true));
            Inv(w) && !Exclusive(Next(Next(w, Unlock(0, true)), Ask(2, 9, true, true)))
  {
    var w0 := World(None, now, map[]);
    var w1 := Next(w0, Ask(0, 1, true, true));
    var w2 := Next(w1, Tick(1));
    NoFileYet(now);
    assert w2 == w1.(now := w1.now + 1);
    hide Lock, Lease, Canonical, Next;
    AskGranted(w0, 0, 1);
    NextKeeps(w1, Tick(1));
    assert Lease(w1.file) == now + 1 by { assert Holds(w1, 0); }
    AskGranted(w2, 1, 9);
    var w := Next(w2, Ask(1, 9, true, true));
    ReleaseIsExact(w, 0, 2, 9);
  }

  // 0 is granted a lease of 100 and releases it, and 1 is granted the lock.
  function Reused(now: nat): World {
    Next(Next(Next(World(None, now, map[]), Ask(0, 100, true, true)), Unlock(0, true)), Ask(1, 100, true, true))
  }

  lemma ReusedWorld(now: nat)
    ensures var w := Reused(now);
            && Inv(w) && w.now == now
            && PhaseOf(w, 0) == Flagged(now + 100, true)
            && PhaseOf(w, 1) == Flagged(now + 100, false) && PhaseOf(w, 2) == Idle
  {
    var w0 := World(None, now, map[]);
    var w1 := Next(w0, Ask(0, 100, true, true));
    var w2 := Next(w1, Unlock(0, true));
    hide Lock, Lease, Canonical, Next, Inv, Holds;
    NoFileYet(now);
    AskGranted(w0, 0, 100);
    FirstRelease(w1, 0);
    AskGranted(w2, 1, 100);
  }

  lemma NoFileYet(now: nat)
    ensures Inv(World(None, now, map[])) && Lease(None) == 0
  {
  }

  lemma AskGranted(w: World, c: Client, timeout: uint32)
    requires Inv(w) && Lease(w.file) <= w.now && timeout > 0
    ensures var n := Next(w, Ask(c, timeout, true, true));
            && Inv(n) && Holds(n, c) && n.now == w.now
            && n.phases == w.phases[c := Flagged(w.now + timeout, false)]
  {
    hide Lock, Lease, Canonical, Next;
    AskTaken(w, c, timeout);
    AskKeeps(w, c, timeout, true, true);
  }

  // A repeated release breaks exclusion too, though it comes before the client's own lease ends: after
  // the above 0 releases again, and 2 is granted the lock that 1 still holds.
  lemma {:induction false} SecondReleaseBreaksExclusion(now: nat)
    ensures var w := Reused(now);
            && Inv(w)
            && Releases(w, Unlock(0, true)) && w.now < PhaseOf(w, 0).until
            && !Exclusive(Next(Next(w, Unlock(0, true)), Ask(2, 100, true, true)))
  {
    hide Reused, Next, Inv, Exclusive;
    ReusedWorld(now);
    var w := Reused(now);
    assert Holds(w, 1);
    ReleaseIsExact(w, 0, 2, 100);
  }

  // The holder's own release frees the lock and leaves its flag set.
  lemma FirstRelease(w: World, c: Client)
    requires Inv(w) && Holds(w, c)
    ensures var n := Next(w, Unlock(c, true));
            && Inv(n) && Lease(n.file) == n.now == w.now
            && n.phases == w.phases[c := Flagged(PhaseOf(w, c).until, true)]
  {
    hide Lock, Lease, Canonical;
    LockStep(w.file, true, Release, w.now);
    UnlockKeeps(w, c, true);
  }

  // ----------------------------------------------------------------- a client

  // The shell globals of one test run, and its three functions.
  class TestClient {
    const timeout: uint32
    var held: bool

    constructor (timeout: uint32)
      ensures this.timeout == timeout && !held
    {
      this.timeout := timeout;
      held := false;
    }

    // tstsvr_lock: the message it sends is parsed by the server.
    method TryLock(server: LockServer, accessible: bool, now: nat) returns (ok: bool)
      modifies this, server
      ensures var o := Lock(old(server.file), accessible, Set(timeout), now);
              server.file == o.file && ok == (o.reply == Some(0))
      ensures held == (old(held) || ok)
    {
      hide Lock, ToCommand, Digits;
      var param := "set," + Digits(timeout);
      ClientMessage(timeout);
      var reply := server.CtlLock(accessible, ToCommand(param).value, now);
      ok := reply == Some(0);
      if ok {
        held := true;
      }
    }

    // tstsvr_unlock: sends a release at every call once this run has locked; the flag stays set.
    method Unlock(server: LockServer, accessible: bool, now: nat)
      modifies server
      ensures held == old(held)
      ensures server.file == if held then Lock(old(server.file), accessible, Release, now).file else old(server.file)
    {
      hide Lock;
      if held {
        var _ := server.CtlLock(accessible, Release, now);
      }
    }

    // The acquire loop, trying at the given times. Left alone with the server it waits out exactly the
    // lease it found: it is granted the lock at the first attempt that is not before the lease ends.
    method Acquire(server: LockServer, times: seq<nat>) returns (ok: bool)
      requires Sound(server.file, if times == [] then 0 else times[0])
      requires forall i, j :: 0 <= i < j < |times| ==> times[i] <= times[j]
      modifies this, server
      ensures ok <==> exists i :: 0 <= i < |times| && Lease(old(server.file)) <= times[i]
      ensures held == (old(held) || ok)
      ensures !ok ==> server.file == old(server.file)
      ensures ok ==> exists i :: 0 <= i < |times|
                                 && Lease(server.file) == times[i] + timeout
                                 && Lease(old(server.file)) <= times[i]
                                 && forall j :: 0 <= j < i ==> times[j] < Lease(old(server.file))
    {
      hide Lock, Lease, Canonical;
      ok := false;
      var k := 0;
      while k < |times|
        invariant k <= |times| && server.file == old(server.file) && held == old(held)
        invariant forall j :: 0 <= j < k ==> times[j] < Lease(old(server.file))
      {
        LockStep(server.file, true, Set(timeout), times[k]);
        ReplyZeroIsGrant(server.file, true, timeout, times[k]);
        ok := TryLock(server, true, times[k]);
        if ok {
          return;
        }
        k := k + 1;
      }
    }
  }
}
