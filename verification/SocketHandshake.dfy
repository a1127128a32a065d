/** Two processes testing access to a socket file: the parent asks for the file with T, the child binds
    it and answers C, the parent tries to connect and removes it; K ends the child. */
module SocketHandshake {
  import opened PermissionWalk
  import opened Wrappers

  // One trial: the mode and owner given to the socket file, and whether connecting should work.
  datatype Trial = Trial(user: Bits, group: Bits, other: Bits, uid: nat, gid: nat, connectable: bool)

  // The trials, the ids the parent takes on to connect, and the socket file as bind makes it.
  datatype Config = Config(plan: seq<Trial>, uid: nat, gid: nat, groups: set<nat>, born: Inode)

  datatype Parent = SendT | AwaitC | OpenSocket | SetMode | SetOwner | DropGid | DropUid | Connect | RaiseUid | RaiseGid
                  | Unlink | SendK | FinalUnlink | Over
  datatype Child = Waiting | Binding | Listening | Notifying | Closing | Removing | Gone

  // A connect attempt, as the kernel saw it.
  datatype Attempt = Attempt(file: Inode, creds: Creds, connected: bool)

  // clash: bind was called while the file was there. failed: g_rc is set. rc: the result of the parent's
  // last call that stores it. early: the parent left from a trial.
  datatype System = System(parent: Parent, round: nat, child: Child, toChild: seq<char>, toParent: seq<char>,
                           file: Option<Inode>, euid: nat, egid: nat, clash: bool, failed: bool, rc: int, early: bool,
                           attempts: seq<Attempt>)

  // Who runs next. works: the system call of a trial succeeds; connects: what connect returns.
  datatype Choice = ParentRuns(works: bool, connects: bool) | ChildRuns

  function Start(c: Config): System {
    System(if c.plan == [] then SendK else SendT, 0, Waiting, [], [], None, 0, 0, false, false, 0, false, [])
  }

  // The parent's last steps.
  predicate Finishing(p: Parent) { p == SendK || p == FinalUnlink || p == Over }

  // A failing call stores -1 and leaves the test phase.
  function Leave(s: System): System { s.(parent := SendK, early := true, rc := -1) }

  function ParentNext(c: Config, s: System, works: bool, connects: bool): System
    requires s.round < |c.plan| || Finishing(s.parent)
  {
    match s.parent
    case SendT => s.(parent := AwaitC, rc := 0, toChild := s.toChild + ['T'])
    case AwaitC => if s.toParent == [] then s else s.(parent := OpenSocket, rc := 1, toParent := s.toParent[1..])
    case SendK => s.(parent := FinalUnlink, rc := 0, toChild := s.toChild + ['K'])
    case FinalUnlink => s.(parent := Over, file := if works || s.euid == 0 then None else s.file)
    case Over => s
    case _ => TrialNext(c, s, works, connects)
  }

  // The test phase, from the socket call to the unlink.
  function TrialNext(c: Config, s: System, works: bool, connects: bool): System
    requires s.round < |c.plan|
  {
    var t := c.plan[s.round];
    match s.parent
    case OpenSocket => if works then s.(parent := SetMode) else Leave(s)
    case SetMode =>
      if works && s.file.Some? then
        s.(parent := SetOwner, rc := 0, file := Some(s.file.value.(user := t.user, group := t.group, other := t.other)))
      else Leave(s)
    case SetOwner =>
      if works && s.file.Some? then
        s.(parent := DropGid, rc := 0, file := Some(s.file.value.(uid := t.uid, gid := t.gid)))
      else Leave(s)
    case DropGid => if works then s.(parent := DropUid, rc := 0, egid := c.gid) else Leave(s)
    case DropUid => if works then s.(parent := Connect, rc := 0, euid := c.uid) else Leave(s)
    case Connect =>
      var rc := if connects then 0 else -1;
      var n := s.(parent := RaiseUid, rc := rc, failed := s.failed || connects != t.connectable);
      if s.file.None? then n
      else n.(attempts := s.attempts + [Attempt(s.file.value, Creds(s.euid, s.egid, c.groups), connects)])
    case RaiseUid => if works then s.(parent := RaiseGid, rc := 0, euid := 0) else Leave(s)
    case RaiseGid => if works then s.(parent := Unlink, rc := 0, egid := 0) else Leave(s)
    case Unlink =>
      s.(parent := if s.round + 1 < |c.plan| then SendT else SendK, round := s.round + 1, file := None)
    case _ => s
  }

  function ChildNext(c: Config, s: System): System {
    match s.child
    case Waiting =>
      if s.toChild == [] then s
      else s.(child := if s.toChild[0] == 'T' then Binding else Closing, toChild := s.toChild[1..])
    case Binding =>
      s.(child := Listening, clash := s.clash || s.file.Some?,
         file := if s.file.None? then Some(c.born) else s.file)
    case Listening => s.(child := Notifying)
    case Notifying => s.(child := Waiting, toParent := s.toParent + ['C'])
    case Closing => s.(child := Removing)
    case Removing => s.(child := Gone, file := None)
    case Gone => s
  }

  predicate ParentReady(s: System) {
    match s.parent
    case Over => false
    case AwaitC => s.toParent != []
    case _ => true
  }

  predicate ChildReady(s: System) {
    match s.child
    case Gone => false
    case Waiting => s.toChild != []
    case _ => true
  }

  predicate Ready(s: System, ch: Choice) { if ch.ChildRuns? then ChildReady(s) else ParentReady(s) }

  // ---------------------------------------------------------------- what every step keeps

  predicate InTrial(p: Parent) {
    || p == OpenSocket || p == SetMode || p == SetOwner || p == DropGid || p == DropUid
    || p == Connect || p == RaiseUid || p == RaiseGid || p == Unlink
  }

  predicate Quiet(s: System) { s.toChild == [] && s.toParent == [] && s.child == Waiting }

  // Where the child and the queues are while the parent waits for C.
  predicate Answering(s: System) {
    match s.child
    case Waiting =>
      if s.file.None? then s.toChild == ['T'] && s.toParent == []
      else s.toChild == [] && s.toParent == ['C']
    case Binding => s.file.None? && s.toChild == [] && s.toParent == []
    case Listening => s.file.Some? && s.toChild == [] && s.toParent == []
    case Notifying => s.file.Some? && s.toChild == [] && s.toParent == []
    case _ => false
  }

  // After K was sent.
  predicate Ending(s: System) {
    match s.child
    case Waiting => s.toChild == ['K'] && s.toParent == []
    case Closing => s.toChild == [] && s.toParent == []
    case Removing => s.toChild == [] && s.toParent == []
    case Gone => s.toChild == [] && s.toParent == [] && s.file.None?
    case _ => false
  }

  predicate Coordinated(s: System) {
    && !s.clash
    && (s.parent == SendT ==> Quiet(s) && s.file.None?)
    && (s.parent == AwaitC ==> Answering(s))
    && (InTrial(s.parent) ==> Quiet(s) && s.file.Some?)
    && (s.parent == SendK ==> Quiet(s))
    && (s.parent == FinalUnlink || s.parent == Over ==> Ending(s))
  }

  predicate IdsInStep(c: Config, s: System) {
    match s.parent
    case DropUid => s.euid == 0 && s.egid == c.gid
    case Connect => s.euid == c.uid && s.egid == c.gid
    case RaiseUid => s.euid == c.uid && s.egid == c.gid
    case RaiseGid => s.euid == 0 && s.egid == c.gid
    case SendK => s.early || (s.euid == 0 && s.egid == 0)
    case FinalUnlink => s.early || (s.euid == 0 && s.egid == 0)
    case Over => true
    case _ => s.euid == 0 && s.egid == 0
  }

  function TrialFile(t: Trial): Inode { Inode(t.uid, t.gid, t.user, t.group, t.other) }

  predicate FileInStep(c: Config, s: System)
    requires s.round < |c.plan| || Finishing(s.parent)
  {
    (s.parent == SetOwner && s.file.Some? ==>
      var t := c.plan[s.round]; s.file.value == TrialFile(t).(uid := s.file.value.uid, gid := s.file.value.gid))
    && ((s.parent == DropGid || s.parent == DropUid || s.parent == Connect) && s.file.Some? ==>
          s.file.value == TrialFile(c.plan[s.round]))
  }

  // The connect call of the current round is over.
  predicate Tried(p: Parent) { p == RaiseUid || p == RaiseGid || p == Unlink }

  // Attempt i was trial i, on a file with its mode and owner, under exactly the tester's ids; the
  // verdict is bad exactly when some attempt did not go as its trial says.
  predicate Attempted(c: Config, s: System) {
    && |s.attempts| <= |c.plan|
    && (if s.early then s.round <= |s.attempts| <= s.round + 1
        else |s.attempts| == s.round + if Tried(s.parent) then 1 else 0)
    && (forall i :: 0 <= i < |s.attempts| ==>
          s.attempts[i].file == TrialFile(c.plan[i]) && s.attempts[i].creds == Creds(c.uid, c.gid, c.groups))
    && (s.failed <==> exists i :: 0 <= i < |s.attempts| && s.attempts[i].connected != c.plan[i].connectable)
  }

  // Rounds are counted, and an early leave goes straight to the end.
  predicate Counted(c: Config, s: System) {
    && (s.round < |c.plan| || Finishing(s.parent))
    && s.round <= |c.plan|
    && (Finishing(s.parent) && !s.early ==> s.round == |c.plan|)
    && (s.early ==> Finishing(s.parent))
  }

  // Before K is sent rc tells an early leave; afterwards it tells nothing.
  predicate Returned(s: System) {
    && (s.parent == Unlink ==> s.rc == 0)
    && (s.parent == SendK ==> s.rc == if s.early then -1 else 0)
    && (s.parent == FinalUnlink || s.parent == Over ==> s.rc == 0)
  }

  ghost predicate Inv(c: Config, s: System) {
    Returned(s) && Counted(c, s) && Coordinated(s) && IdsInStep(c, s) && FileInStep(c, s) && Attempted(c, s)
  }

  function Next(c: Config, s: System, ch: Choice): System
    requires s.round < |c.plan| || Finishing(s.parent)
  {
    match ch
    case ChildRuns => ChildNext(c, s)
    case ParentRuns(works, connects) => ParentNext(c, s, works, connects)
  }

  lemma StartKeeps(c: Config)
    ensures Inv(c, Start(c))
  {
  }

  lemma ChildCoordinated(c: Config, s: System)
    requires Coordinated(s)
    ensures Coordinated(ChildNext(c, s))
  {
    hide Answering, Ending, ChildNext;
    ChildKeepsParent(c, s);
    if Quiet(s) {
      QuietChild(c, s);
    } else if s.parent == AwaitC {
      AnsweringChild(c, s);
    } else {
      EndingChild(c, s);
    }
  }

  lemma ChildKeepsParent(c: Config, s: System)
    ensures ChildNext(c, s).parent == s.parent
  {
  }

  lemma QuietChild(c: Config, s: System)
    requires Quiet(s)
    ensures ChildNext(c, s) == s
  {
  }

  lemma AnsweringChild(c: Config, s: System)
    requires Answering(s) && !s.clash
    ensures Answering(ChildNext(c, s)) && !ChildNext(c, s).clash
  {
  }

  lemma EndingChild(c: Config, s: System)
    requires Ending(s) && !s.clash
    ensures Ending(ChildNext(c, s)) && !ChildNext(c, s).clash
  {
  }

  lemma ChildKeeps(c: Config, s: System)
    requires Inv(c, s)
    ensures Inv(c, ChildNext(c, s))
  {
    ChildCoordinated(c, s);
    ChildOutside(c, s);
    hide ChildNext, Coordinated, TrialFile;
  }

  // The child touches the file only while the parent waits or ends, and nothing else of the parent's.
  lemma ChildOutside(c: Config, s: System)
    requires Coordinated(s)
    ensures var n := ChildNext(c, s);
            && n == s.(child := n.child, toChild := n.toChild, toParent := n.toParent, file := n.file, clash := n.clash)
            && (InTrial(s.parent) ==> n.file == s.file)
  {
  }

  lemma CountedOutside(c: Config, s: System, works: bool, connects: bool)
    requires Counted(c, s) && !InTrial(s.parent)
    ensures Counted(c, ParentNext(c, s, works, connects))
  {
    hide TrialNext;
  }

  lemma CountedInside(c: Config, s: System, works: bool, connects: bool)
    requires Counted(c, s) && InTrial(s.parent)
    ensures Counted(c, TrialNext(c, s, works, connects))
  {
  }

  lemma ReturnedOutside(c: Config, s: System, works: bool, connects: bool)
    requires Counted(c, s) && Returned(s) && !InTrial(s.parent)
    ensures Returned(ParentNext(c, s, works, connects))
  {
    hide TrialNext;
  }

  lemma ReturnedInside(c: Config, s: System, works: bool, connects: bool)
    requires Counted(c, s) && Returned(s) && InTrial(s.parent)
    ensures Returned(TrialNext(c, s, works, connects))
  {
  }

  lemma CoordinatedOutside(c: Config, s: System, works: bool, connects: bool)
    requires Counted(c, s) && Coordinated(s) && !InTrial(s.parent)
    ensures Coordinated(ParentNext(c, s, works, connects))
  {
    hide TrialNext, Counted, Answering, Ending;
    match s.parent
    case SendT => QuietSends(s, 'T');
    case AwaitC => if s.toParent != [] { AnswerTaken(s); }
    case SendK => QuietSends(s, 'K');
    case _ => EndingKept(s, if works || s.euid == 0 then None else s.file);
  }

  lemma QuietSends(s: System, m: char)
    requires Quiet(s)
    ensures s.file.None? && m == 'T' ==> Answering(s.(parent := AwaitC, rc := 0, toChild := s.toChild + [m]))
    ensures m == 'K' ==> Ending(s.(parent := FinalUnlink, rc := 0, toChild := s.toChild + [m]))
  {
  }

  lemma AnswerTaken(s: System)
    requires Answering(s) && s.toParent != []
    ensures Quiet(s.(parent := OpenSocket, rc := 1, toParent := s.toParent[1..])) && s.file.Some?
  {
  }

  lemma EndingKept(s: System, file: Option<Inode>)
    requires Ending(s) && (file == s.file || file == None)
    ensures Ending(s.(parent := Over, file := file))
  {
  }

  lemma CoordinatedInside(c: Config, s: System, works: bool, connects: bool)
    requires Counted(c, s) && Coordinated(s) && InTrial(s.parent)
    ensures Coordinated(TrialNext(c, s, works, connects))
  {
    hide Answering, Ending;
  }

  lemma IdsOutside(c: Config, s: System, works: bool, connects: bool)
    requires Counted(c, s) && IdsInStep(c, s) && !InTrial(s.parent)
    ensures IdsInStep(c, ParentNext(c, s, works, connects))
  {
    hide TrialNext;
  }

  lemma IdsInside(c: Config, s: System, works: bool, connects: bool)
    requires Counted(c, s) && IdsInStep(c, s) && InTrial(s.parent)
    ensures IdsInStep(c, TrialNext(c, s, works, connects))
  {
  }

  lemma FileOutside(c: Config, s: System, works: bool, connects: bool)
    requires Counted(c, s) && !InTrial(s.parent) && Counted(c, ParentNext(c, s, works, connects))
    ensures FileInStep(c, ParentNext(c, s, works, connects))
  {
    hide TrialNext, Counted;
  }

  lemma FileInside(c: Config, s: System, works: bool, connects: bool)
    requires Counted(c, s) && FileInStep(c, s) && InTrial(s.parent) && Counted(c, TrialNext(c, s, works, connects))
    ensures FileInStep(c, TrialNext(c, s, works, connects))
  {
    hide Counted;
  }

  lemma AttemptedOutside(c: Config, s: System, works: bool, connects: bool)
    requires Counted(c, s) && Attempted(c, s) && s.parent != Connect
    ensures Attempted(c, ParentNext(c, s, works, connects))
  {
    hide TrialFile, ParentNext, Tried;
    OtherStep(c, s, works, connects);
  }

  // No other call records one; the round goes on, ends, or is left early.
  lemma OtherStep(c: Config, s: System, works: bool, connects: bool)
    requires Counted(c, s) && s.parent != Connect
    ensures var n := ParentNext(c, s, works, connects);
            && n.attempts == s.attempts && n.failed == s.failed
            && (!n.early ==> !s.early && n.round + (if Tried(n.parent) then 1 else 0)
                                         == s.round + (if Tried(s.parent) then 1 else 0))
            && (n.early ==> n.round == s.round)
  {
    if InTrial(s.parent) { TrialIsNext(c, s, works, connects); }
  }

  lemma ConnectKeeps(c: Config, s: System, works: bool, connects: bool)
    requires Inv(c, s) && s.parent == Connect
    ensures Attempted(c, ParentNext(c, s, works, connects))
  {
    ConnectStep(c, s, works, connects);
    hide TrialFile, ParentNext, Coordinated, IdsInStep, FileInStep, Returned;
    var n := ParentNext(c, s, works, connects);
    var a := n.attempts[s.round];
    if s.failed {
      var i :| 0 <= i < |s.attempts| && s.attempts[i].connected != c.plan[i].connectable;
      assert n.attempts[i] == s.attempts[i];
    }
  }

  // The connect call records an attempt on the trial's file under the tester's ids.
  lemma ConnectStep(c: Config, s: System, works: bool, connects: bool)
    requires Inv(c, s) && s.parent == Connect
    ensures var n := ParentNext(c, s, works, connects);
            && s.round < |c.plan| && n.parent == RaiseUid && n.round == s.round && n.early == s.early
            && n.failed == (s.failed || connects != c.plan[s.round].connectable)
            && n.attempts == s.attempts + [Attempt(TrialFile(c.plan[s.round]), Creds(c.uid, c.gid, c.groups), connects)]
  {
    hide TrialFile, Attempted;
  }

  lemma {:induction false} NextKeeps(c: Config, s: System, ch: Choice)
    requires Inv(c, s)
    ensures Inv(c, Next(c, s, ch))
  {
    hide Coordinated, IdsInStep, FileInStep, Attempted, ParentNext, TrialNext, ChildNext, InTrial;
    match ch
    case ChildRuns => ChildKeeps(c, s);
    case ParentRuns(works, connects) =>
      if InTrial(s.parent) {
        TrialIsNext(c, s, works, connects);
        ReturnedInside(c, s, works, connects);
        CountedInside(c, s, works, connects);
        FileInside(c, s, works, connects);
        CoordinatedInside(c, s, works, connects);
        IdsInside(c, s, works, connects);
      } else {
        ReturnedOutside(c, s, works, connects);
        CountedOutside(c, s, works, connects);
        FileOutside(c, s, works, connects);
        CoordinatedOutside(c, s, works, connects);
        IdsOutside(c, s, works, connects);
      }
      if s.parent == Connect { ConnectKeeps(c, s, works, connects); } else { AttemptedOutside(c, s, works, connects); }
  }

  lemma TrialIsNext(c: Config, s: System, works: bool, connects: bool)
    requires Counted(c, s) && InTrial(s.parent)
    ensures s.round < |c.plan| && ParentNext(c, s, works, connects) == TrialNext(c, s, works, connects)
  {
    hide TrialNext;
  }

  // ------------------------------------------------------------- runs under any schedule

  // Every state a schedule leads to. A process that is blocked or over stays as it is.
  ghost function RunAll(c: Config, s: System, schedule: seq<Choice>): (n: System)
    requires Inv(c, s)
    ensures Inv(c, n)
    decreases |schedule|
  {
    if schedule == [] then s
    else
      NextKeeps(c, s, schedule[0]);
      RunAll(c, Next(c, s, schedule[0]), schedule[1..])
  }

  // The state a schedule leads to from the start.
  ghost function Reached(c: Config, schedule: seq<Choice>): (n: System)
    ensures Inv(c, n)
  {
    StartKeeps(c);
    RunAll(c, Start(c), schedule)
  }

  // Safety under every interleaving and for any number of trials: bind never finds the file there; while
  // the parent tries, the file exists, the child is blocked in receive and both queues are empty.
  lemma {:induction false} TrialsAreUndisturbed(c: Config, schedule: seq<Choice>)
    ensures var s := Reached(c, schedule);
            && !s.clash
            && (InTrial(s.parent) ==> s.file.Some? && s.child == Waiting && !ChildReady(s)
                                      && s.toChild == [] && s.toParent == [])
  {
    var s := Reached(c, schedule);
    hide Reached, IdsInStep, FileInStep, Attempted;
    assert Inv(c, s);
  }

  // Every connect is tried on a file with the mode and owner of its trial, under the tester's ids.
  lemma {:induction false} TrialsAreAsPlanned(c: Config, schedule: seq<Choice>, i: nat)
    ensures var s := Reached(c, schedule);
            i < |s.attempts| ==> i < |c.plan| && s.attempts[i].file == TrialFile(c.plan[i])
                                 && s.attempts[i].creds == Creds(c.uid, c.gid, c.groups)
  {
    var s := Reached(c, schedule);
    hide Reached, IdsInStep, FileInStep, Coordinated, Counted, TrialFile;
    assert Inv(c, s);
  }

  predicate Final(s: System) {
    s.parent == Over && s.child == Gone && s.toChild == [] && s.toParent == [] && s.file == None
  }

  // No deadlock: a run can only stop with both processes over, both queues empty and the file gone.
  lemma {:induction false} OnlyFinalStops(c: Config, s: System)
    requires Inv(c, s) && !ParentReady(s) && !ChildReady(s)
    ensures Final(s)
  {
    hide IdsInStep, FileInStep, Attempted;
  }

  function ParentLeft(c: Config, s: System): nat
    requires Counted(c, s)
  {
    match s.parent
    case Over => 0
    case FinalUnlink => 1
    case SendK => 2
    case _ => 2 + 11 * (|c.plan| - s.round - 1) + InRound(s.parent)
  }

  function InRound(p: Parent): nat {
    match p
    case SendT => 11
    case AwaitC => 10
    case OpenSocket => 9
    case SetMode => 8
    case SetOwner => 7
    case DropGid => 6
    case DropUid => 5
    case Connect => 4
    case RaiseUid => 3
    case RaiseGid => 2
    case _ => 1
  }

  function ChildLeft(ch: Child): nat {
    match ch
    case Binding => 3
    case Listening => 2
    case Closing => 2
    case Notifying => 1
    case Removing => 1
    case _ => 0
  }

  // The steps left: each message to the child costs it at most four.
  function Measure(c: Config, s: System): nat
    requires Counted(c, s)
  {
    5 * ParentLeft(c, s) + 4 * |s.toChild| + ChildLeft(s.child)
  }

  // A step of a trial stays in its round and comes nearer to its end, or ends the round or all rounds.
  lemma TrialMoves(c: Config, s: System, works: bool, connects: bool)
    requires InTrial(s.parent) && s.round < |c.plan|
    ensures var n := TrialNext(c, s, works, connects);
            && n.child == s.child && n.toChild == s.toChild
            && (n.parent == SendK || (n.round == s.round + 1 && n.parent == SendT && s.parent == Unlink)
                || (n.round == s.round && InTrial(n.parent) && InRound(n.parent) < InRound(s.parent)))
  {
  }

  lemma TrialProgress(c: Config, s: System, works: bool, connects: bool)
    requires Counted(c, s) && InTrial(s.parent) && Counted(c, TrialNext(c, s, works, connects))
    ensures var n := TrialNext(c, s, works, connects);
            ParentLeft(c, n) < ParentLeft(c, s) && n.child == s.child && n.toChild == s.toChild
  {
    assert s.round < |c.plan|;
    hide Counted, TrialNext;
    var n := TrialNext(c, s, works, connects);
    TrialMoves(c, s, works, connects);
    LeftInTrial(c, s);
    if n.parent != SendK && n.parent != SendT { LeftInTrial(c, n); }
  }

  lemma LeftInTrial(c: Config, s: System)
    requires Counted(c, s) && InTrial(s.parent)
    ensures ParentLeft(c, s) == 2 + 11 * (|c.plan| - s.round - 1) + InRound(s.parent) > 2
  {
  }

  lemma ParentProgress(c: Config, s: System, works: bool, connects: bool)
    requires Counted(c, s) && ParentReady(s) && Counted(c, ParentNext(c, s, works, connects))
    ensures var n := ParentNext(c, s, works, connects);
            && ParentLeft(c, n) < ParentLeft(c, s)
            && n.child == s.child && |n.toChild| <= |s.toChild| + 1
  {
    if InTrial(s.parent) {
      TrialIsNext(c, s, works, connects);
      hide ParentNext, Counted;
      TrialProgress(c, s, works, connects);
    } else {
      hide TrialNext;
    }
  }

  lemma InvRound(c: Config, s: System)
    requires Inv(c, s)
    ensures s.round < |c.plan| || Finishing(s.parent)
  {
    hide Coordinated, IdsInStep, FileInStep, Attempted;
  }

  lemma ChildProgress(c: Config, s: System)
    requires Counted(c, s) && ChildReady(s) && Counted(c, ChildNext(c, s))
    ensures Measure(c, ChildNext(c, s)) < Measure(c, s)
  {
  }

  lemma StepMakesProgress(c: Config, s: System, ch: Choice)
    requires Inv(c, s) && Ready(s, ch)
    ensures Inv(c, Next(c, s, ch)) && Measure(c, Next(c, s, ch)) < Measure(c, s)
  {
    NextKeeps(c, s, ch);
    hide Coordinated, IdsInStep, FileInStep, Attempted, ParentNext, ChildNext, Counted, ParentLeft;
    match ch
    case ChildRuns => ChildProgress(c, s);
    case ParentRuns(works, connects) => ParentProgress(c, s, works, connects);
  }

  ghost predicate AllReady(c: Config, s: System, schedule: seq<Choice>)
    requires Inv(c, s)
    decreases |schedule|
  {
    if schedule == [] then true else
      NextKeeps(c, s, schedule[0]);
      Ready(s, schedule[0]) && AllReady(c, Next(c, s, schedule[0]), schedule[1..])
  }

  // Every run ends, whoever is scheduled, and ends well.
  lemma {:induction false} RunsEnd(c: Config, s: System, schedule: seq<Choice>)
    requires Inv(c, s) && AllReady(c, s, schedule)
    ensures |schedule| <= Measure(c, s)
    ensures var n := RunAll(c, s, schedule); !ParentReady(n) && !ChildReady(n) ==> Final(n)
    decreases |schedule|
  {
    if schedule == [] {
      if !ParentReady(s) && !ChildReady(s) { OnlyFinalStops(c, s); }
    } else {
      hide Inv, Next, Measure, Ready;
      StepMakesProgress(c, s, schedule[0]);
      RunsEnd(c, Next(c, s, schedule[0]), schedule[1..]);
    }
  }

  // --------------------------------------------------------------------- the verdict

  // Each trial says what the standard says of connecting, which takes write permission.
  ghost predicate PlanSound(c: Config) {
    forall i :: 0 <= i < |c.plan| ==> TrialSound(c, c.plan[i])
  }

  predicate TrialSound(c: Config, t: Trial) {
    t.connectable == Permits(TrialFile(t), Creds(c.uid, c.gid, c.groups), ForWriting)
  }

  ghost predicate Obeys(s: System) {
    forall i :: 0 <= i < |s.attempts| ==>
      s.attempts[i].connected == Permits(s.attempts[i].file, s.attempts[i].creds, ForWriting)
  }

  // main returns g_rc if it is set, and rc otherwise.
  function ExitStatus(s: System): int { if s.failed then -1 else s.rc }

  // Some connect did not go as its trial says.
  ghost predicate Surprised(c: Config, s: System) {
    exists i :: 0 <= i < |s.attempts| && i < |c.plan| && s.attempts[i].connected != c.plan[i].connectable
  }

  // What is returned for a setup that failed: -1 would be, until K is sent, but the result of sending K
  // replaces it. So at the end of every run, left early or not, the status is nonzero if and only if some
  // connect made before had not gone as its trial says.
  lemma {:induction false} SetupFailureForgotten(c: Config, s: System)
    requires Inv(c, s)
    ensures s.parent == SendK ==> (s.rc == -1 <==> s.early)
    ensures s.parent == Over ==> ExitStatus(s) == if Surprised(c, s) then -1 else 0
  {
    hide Coordinated, IdsInStep, FileInStep, TrialFile;
  }

  // And such a run exists: T, the file bound, C, then the socket call of the first trial fails.
  const EARLY_RUN: seq<Choice> := [
    ParentRuns(true, true), ChildRuns, ChildRuns, ChildRuns, ChildRuns, ParentRuns(true, true),
    ParentRuns(false, true), ParentRuns(true, true), ParentRuns(true, true), ChildRuns, ChildRuns, ChildRuns]

  lemma RunStep(c: Config, s: System, schedule: seq<Choice>, k: nat)
    requires Inv(c, s) && k < |schedule|
    ensures Inv(c, Next(c, s, schedule[k]))
    ensures RunAll(c, s, schedule[k..]) == RunAll(c, Next(c, s, schedule[k]), schedule[k + 1..])
  {
    hide Inv, Next;
    NextKeeps(c, s, schedule[k]);
    var rest := schedule[k..];
    assert rest[0] == schedule[k] && rest[1..] == schedule[k + 1..];
  }

  // Its states, one after the other.
  function EarlyState(c: Config, k: nat): System
    requires k <= 12
  {
    var waits := Start(c).(parent := AwaitC);
    var bound := waits.(file := Some(c.born));
    var left := bound.(early := true, parent := FinalUnlink);
    var over := left.(parent := Over, file := None);
    match k
    case 0 => Start(c)
    case 1 => waits.(toChild := ['T'])
    case 2 => waits.(child := Binding)
    case 3 => bound.(child := Listening)
    case 4 => bound.(child := Notifying)
    case 5 => bound.(toParent := ['C'])
    case 6 => bound.(parent := OpenSocket, rc := 1)
    case 7 => left.(parent := SendK, rc := -1)
    case 8 => left.(toChild := ['K'])
    case 9 => over.(toChild := ['K'])
    case 10 => over.(child := Closing)
    case 11 => over.(child := Removing)
    case _ => over.(child := Gone)
  }

  lemma EarlyStep(c: Config, k: nat)
    requires k < 12 && c.plan != [] && Inv(c, EarlyState(c, k))
    ensures Next(c, EarlyState(c, k), EARLY_RUN[k]) == EarlyState(c, k + 1)
  {
    hide Inv, Counted, TrialNext;
    InvRound(c, EarlyState(c, k));
    if EARLY_RUN[k].ChildRuns? { EarlyChildStep(c, k); } else { EarlyParentStep(c, k); }
  }

  lemma EarlyChildStep(c: Config, k: nat)
    requires c.plan != [] && (k == 1 || k == 2 || k == 3 || k == 4 || k == 9 || k == 10 || k == 11)
    ensures ChildNext(c, EarlyState(c, k)) == EarlyState(c, k + 1)
  {
    assert [] + ['C'] == ['C'] && ['T'][1..] == [] && ['K'][1..] == [];
  }

  lemma EarlyParentStep(c: Config, k: nat)
    requires c.plan != [] && (k == 0 || k == 5 || k == 6 || k == 7 || k == 8)
    ensures ParentNext(c, EarlyState(c, k), k != 6, true) == EarlyState(c, k + 1)
  {
    assert [] + ['T'] == ['T'] && [] + ['K'] == ['K'] && ['C'][1..] == [];
  }

  lemma {:induction false} EarlyReached(c: Config, k: nat)
    requires k <= 12 && c.plan != []
    ensures Inv(c, EarlyState(c, k)) && Reached(c, EARLY_RUN) == RunAll(c, EarlyState(c, k), EARLY_RUN[k..])
  {
    hide Inv, Next, RunAll, EARLY_RUN;
    EarlyLength();
    if k == 0 {
      StartKeeps(c);
    } else {
      EarlyReached(c, k - 1);
      EarlyStep(c, k - 1);
      RunStep(c, EarlyState(c, k - 1), EARLY_RUN, k - 1);
    }
  }

  // The test phase failed at its first call, and the program exits with 0.
  lemma EarlyLeaveExitsZero(c: Config)
    requires c.plan != []
    ensures var s := Reached(c, EARLY_RUN); Final(s) && s.early && s.attempts == [] && ExitStatus(s) == 0
  {
    hide Inv, Reached, RunAll, EARLY_RUN, EarlyState;
    EarlyReached(c, 12);
    EarlyLength();
    RunNothing(c, EarlyState(c, 12));
    EarlyEnd(c);
  }

  lemma EarlyLength()
    ensures |EARLY_RUN| == 12 && EARLY_RUN[0..] == EARLY_RUN && EARLY_RUN[12..] == []
  {
  }

  lemma EarlyEnd(c: Config)
    ensures var s := EarlyState(c, 12); Final(s) && s.early && s.attempts == [] && ExitStatus(s) == 0
  {
  }

  lemma RunNothing(c: Config, s: System)
    requires Inv(c, s)
    ensures RunAll(c, s, []) == s
  {
    hide Inv;
  }

  // Under a kernel that follows the standard a complete run reports failure exactly when the plan
  // misstates the standard; a run left early, exactly when one of the trials before does.
  lemma {:induction false} VerdictIsRight(c: Config, s: System)
    requires Inv(c, s) && s.parent == Over && Obeys(s)
    ensures ExitStatus(s) == 0 <==> forall i :: 0 <= i < |s.attempts| ==> TrialSound(c, c.plan[i])
    ensures !s.early ==> (ExitStatus(s) == 0 <==> PlanSound(c))
  {
    SetupFailureForgotten(c, s);
    hide Coordinated, IdsInStep, FileInStep, Permits;
    forall i | 0 <= i < |s.attempts|
      ensures TrialSound(c, c.plan[i]) <==> s.attempts[i].connected == c.plan[i].connectable
    {
      assert s.attempts[i].file == TrialFile(c.plan[i]);
    }
  }

  // The four modes tried for one class: read, write, both, none.
  function Row(cls: Class, uid: nat, gid: nat): seq<Trial> {
    [OneTrial(cls, Bits(true, false), uid, gid), OneTrial(cls, Bits(false, true), uid, gid),
     OneTrial(cls, Bits(true, true), uid, gid), OneTrial(cls, Bits(false, false), uid, gid)]
  }

  function OneTrial(cls: Class, b: Bits, uid: nat, gid: nat): Trial {
    var no := Bits(false, false);
    Trial(if cls.Owner? then b else no, if cls.Group? then b else no, if cls.Other? then b else no, uid, gid, b.w)
  }

  // The program's own twelve trials, for the test user uid:gid and the ids of nobody.
  function SourcePlan(uid: nat, gid: nat, uidNobody: nat, gidNobody: nat): seq<Trial> {
    Row(Owner, uid, gidNobody) + Row(Group, uidNobody, gid) + Row(Other, uidNobody, gidNobody)
  }

  // One by one: three rows of four. In each the file is readable, writable, both or neither for one class
  // and closed to the others; connecting should work when it is writable.
  lemma SourceTrials(uid: nat, gid: nat, uidNobody: nat, gidNobody: nat, k: nat)
    requires k < 4
    ensures var p, b, no := SourcePlan(uid, gid, uidNobody, gidNobody), Bits(k == 0 || k == 2, k == 1 || k == 2),
                            Bits(false, false);
            && |p| == 12
            && p[k] == Trial(b, no, no, uid, gidNobody, k == 1 || k == 2)
            && p[4 + k] == Trial(no, b, no, uidNobody, gid, k == 1 || k == 2)
            && p[8 + k] == Trial(no, no, b, uidNobody, gidNobody, k == 1 || k == 2)
  {
  }

  ghost predicate RowSound(c: Config, cls: Class, uid: nat, gid: nat) {
    forall b :: TrialSound(c, OneTrial(cls, b, uid, gid))
  }

  lemma RowsSound(c: Config, uidNobody: nat, gidNobody: nat)
    ensures RowSound(c, Owner, c.uid, gidNobody) <==> c.uid != 0
    ensures RowSound(c, Group, uidNobody, c.gid) <==> c.uid != 0 && uidNobody != c.uid
    ensures RowSound(c, Other, uidNobody, gidNobody)
       <==> c.uid != 0 && uidNobody != c.uid && gidNobody != c.gid && gidNobody !in c.groups
  {
    var full, none := Bits(true, true), Bits(false, false);
    assert TrialSound(c, OneTrial(Owner, none, c.uid, gidNobody)) <==> c.uid != 0;
    assert TrialSound(c, OneTrial(Group, none, uidNobody, c.gid)) <==> c.uid != 0;
    assert TrialSound(c, OneTrial(Other, none, uidNobody, gidNobody)) <==> c.uid != 0;
    assert c.uid != 0 ==> (TrialSound(c, OneTrial(Group, full, uidNobody, c.gid)) <==> uidNobody != c.uid);
    assert c.uid != 0 ==> (TrialSound(c, OneTrial(Other, full, uidNobody, gidNobody))
                           <==> uidNobody != c.uid && gidNobody != c.gid && gidNobody !in c.groups);
  }

  lemma RowCovers(c: Config, cls: Class, uid: nat, gid: nat)
    ensures (forall i :: 0 <= i < 4 ==> TrialSound(c, Row(cls, uid, gid)[i])) <==> RowSound(c, cls, uid, gid)
  {
    hide TrialSound, OneTrial;
    var row := Row(cls, uid, gid);
    forall b: Bits ensures exists i :: 0 <= i < 4 && row[i] == OneTrial(cls, b, uid, gid) {
      var i := if b.r then if b.w then 2 else 0 else if b.w then 1 else 3;
      assert row[i] == OneTrial(cls, b, uid, gid);
    }
  }

  // The program's plan is right exactly when the test user is neither root nor nobody, its group is not
  // nobody's, and the process has no supplementary membership in nobody's group.
  lemma SourcePlanSound(c: Config, uidNobody: nat, gidNobody: nat)
    requires c.plan == SourcePlan(c.uid, c.gid, uidNobody, gidNobody)
    ensures PlanSound(c)
       <==> c.uid != 0 && uidNobody != c.uid && gidNobody != c.gid && gidNobody !in c.groups
  {
    RowsSound(c, uidNobody, gidNobody);
    RowCovers(c, Owner, c.uid, gidNobody);
    RowCovers(c, Group, uidNobody, c.gid);
    RowCovers(c, Other, uidNobody, gidNobody);
    var a, b, d := Row(Owner, c.uid, gidNobody), Row(Group, uidNobody, c.gid), Row(Other, uidNobody, gidNobody);
    assert |a| == 4 && |b| == 4 && |d| == 4;
    hide TrialSound, Row, RowSound;
    var p := c.plan;
    assert forall i :: 0 <= i < 12 ==> p[i] == if i < 4 then a[i] else if i < 8 then b[i - 4] else d[i - 8];
    if PlanSound(c) {
      forall i | 0 <= i < 4 ensures TrialSound(c, a[i]) && TrialSound(c, b[i]) && TrialSound(c, d[i]) {
        assert TrialSound(c, p[i]) && TrialSound(c, p[4 + i]) && TrialSound(c, p[8 + i]);
      }
    }
  }

  // ---------------------------------------------------------------- the two processes

  class TestRun {
    const config: Config
    var parent: Parent
    var round: nat
    var child: Child
    var toChild: seq<char>
    var toParent: seq<char>
    var file: Option<Inode>
    var euid: nat
    var egid: nat
    var clash: bool
    var failed: bool
    var rc: int
    var early: bool
    var attempts: seq<Attempt>

    function View(): System
      reads this
    {
      System(parent, round, child, toChild, toParent, file, euid, egid, clash, failed, rc, early, attempts)
    }

    // The queues exist and are empty, the file is unlinked, the child is forked.
    constructor (config: Config)
      ensures this.config == config && View() == Start(config)
    {
      this.config := config;
      parent, round, child := if config.plan == [] then SendK else SendT, 0, Waiting;
      toChild, toParent, file, euid, egid := [], [], None, 0, 0;
      clash, failed, rc, early, attempts := false, false, 0, false, [];
    }

    // One step of the child's receive loop.
    method ChildStep()
      modifies `child, `toChild, `toParent, `file, `clash
      ensures View() == ChildNext(config, old(View()))
    {
      match child
      case Waiting =>
        if toChild != [] {
          child := if toChild[0] == 'T' then Binding else Closing;
          toChild := toChild[1..];
        }
      case Binding =>
        if file.None? {
          file := Some(config.born);
        } else {
          clash := true;
        }
        child := Listening;
      case Listening => child := Notifying;
      case Notifying =>
        toParent := toParent + ['C'];
        child := Waiting;
      case Closing => child := Removing;
      case Removing =>
        file := None;
        child := Gone;
      case Gone =>
    }

    // One system call of the parent's test phase.
    method TrialStep(works: bool, connects: bool)
      requires round < |config.plan| && InTrial(parent)
      modifies `parent, `round, `file, `euid, `egid, `failed, `rc, `early, `attempts
      ensures View() == TrialNext(config, old(View()), works, connects)
    {
      hide TrialNext;
      if parent == Connect {
        TryConnect(works, connects);
      } else if parent == Unlink {
        RemoveFile(works, connects);
      } else if parent == SetMode || parent == SetOwner {
        PrepareFile(works, connects);
      } else {
        PrepareSelf(works, connects);
      }
    }

    method TryConnect(works: bool, connects: bool)
      requires round < |config.plan| && parent == Connect
      modifies `parent, `failed, `rc, `attempts
      ensures View() == TrialNext(config, old(View()), works, connects)
    {
      if file.Some? {
        attempts := attempts + [Attempt(file.value, Creds(euid, egid, config.groups), connects)];
      }
      if connects != config.plan[round].connectable {
        failed := true;
      }
      rc := if connects then 0 else -1;
      parent := RaiseUid;
    }

    method RemoveFile(works: bool, connects: bool)
      requires round < |config.plan| && parent == Unlink
      modifies `parent, `round, `file
      ensures View() == TrialNext(config, old(View()), works, connects)
    {
      file := None;
      round := round + 1;
      parent := if round < |config.plan| then SendT else SendK;
    }

    method PrepareFile(works: bool, connects: bool)
      requires round < |config.plan| && (parent == SetMode || parent == SetOwner)
      modifies `parent, `file, `rc, `early
      ensures View() == TrialNext(config, old(View()), works, connects)
    {
      var t := config.plan[round];
      if !works || file.None? {
        parent, rc, early := SendK, -1, true;
      } else if parent == SetMode {
        file := Some(file.value.(user := t.user, group := t.group, other := t.other));
        parent, rc := SetOwner, 0;
      } else {
        file := Some(file.value.(uid := t.uid, gid := t.gid));
        parent, rc := DropGid, 0;
      }
    }

    method PrepareSelf(works: bool, connects: bool)
      requires round < |config.plan| && InTrial(parent)
      requires parent != Connect && parent != Unlink && parent != SetMode && parent != SetOwner
      modifies `parent, `euid, `egid, `rc, `early
      ensures View() == TrialNext(config, old(View()), works, connects)
    {
      if !works {
        parent, rc, early := SendK, -1, true;
      } else if parent == OpenSocket {
        parent := SetMode;
      } else if parent == DropGid {
        parent, rc, egid := DropUid, 0, config.gid;
      } else if parent == DropUid {
        parent, rc, euid := Connect, 0, config.uid;
      } else if parent == RaiseUid {
        parent, rc, euid := RaiseGid, 0, 0;
      } else {
        parent, rc, egid := Unlink, 0, 0;
      }
    }

    method ParentStep(works: bool, connects: bool)
      requires Counted(config, View())
      modifies `parent, `round, `toChild, `toParent, `file, `euid, `egid, `failed, `rc, `early, `attempts
      ensures View() == ParentNext(config, old(View()), works, connects)
    {
      hide TrialNext, ParentNext;
      if InTrial(parent) {
        TrialIsNext(config, View(), works, connects);
        TrialStep(works, connects);
      } else {
        MessageStep(works, connects);
      }
    }

    // The parent outside its test phase: T and C, and at the end K and the last unlink.
    method MessageStep(works: bool, connects: bool)
      requires Counted(config, View()) && !InTrial(parent)
      modifies `parent, `toChild, `toParent, `file, `rc
      ensures View() == ParentNext(config, old(View()), works, connects)
    {
      hide TrialNext;
      if parent == SendT {
        toChild := toChild + ['T'];
        parent, rc := AwaitC, 0;
      } else if parent == AwaitC {
        if toParent != [] {
          toParent := toParent[1..];
          parent, rc := OpenSocket, 1;
        }
      } else if parent == SendK {
        toChild := toChild + ['K'];
        parent, rc := FinalUnlink, 0;
      } else if parent == FinalUnlink {
        if works || euid == 0 {
          file := None;
        }
        parent := Over;
      }
    }

    // Both processes under an arbitrary scheduler and an arbitrary kernel, until nothing can move.
    method RunToEnd()
      requires Inv(config, View())
      modifies this
      ensures Inv(config, View()) && Final(View())
    {
      hide Coordinated, IdsInStep, FileInStep, Attempted, ParentNext, ChildNext, Counted, Measure, Final;
      while ParentReady(View()) || ChildReady(View())
        invariant Inv(config, View())
        decreases Measure(config, View())
      {
        var works: bool, connects: bool := *, *;
        InvRound(config, View());
        if {
          case ParentReady(View()) =>
            StepMakesProgress(config, View(), ParentRuns(works, connects));
            ParentStep(works, connects);
          case ChildReady(View()) =>
            StepMakesProgress(config, View(), ChildRuns);
            ChildStep();
        }
      }
      OnlyFinalStops(config, View());
    }
  }
}
