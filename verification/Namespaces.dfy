/** The namespace switcher: every handle is opened and queued on a linked list with a dummy head; then
    the list is walked once, switching, closing and freeing, and the command is run. */
module Namespaces {
  import opened Wrappers

  datatype Opt = Handle(letter: char, path: string) | Unknown

  // The kernel's answers, by option: the descriptor or -1, whether there is memory, whether setns works.
  datatype Kernel = Kernel(opens: nat -> int, mallocs: nat -> bool, switches: nat -> bool)

  // Free(0) is the dummy head, Free(i + 1) the node of option i. A failed open shows as fd -1.
  datatype Event = Open(path: string, fd: int) | Setns(fd: int, nstype: int) | Close(fd: int) | Free(node: nat) | Exec

  function NsType(letter: char): int {
    match letter
    case 'm' => 0x0002_0000
    case 'u' => 0x0400_0000
    case 'i' => 0x0800_0000
    case 'n' => 0x4000_0000
    case 'p' => 0x2000_0000
    case 'U' => 0x1000_0000
    case _ => 0
  }

  function TypeOf(o: Opt): int { if o.Handle? then NsType(o.letter) else 0 }
  function PathOf(o: Opt): string { if o.Handle? then o.path else "" }

  // ------------------------------------------------------------------ the trace

  predicate Queued(k: Kernel, opts: seq<Opt>, i: nat)
    requires i < |opts|
  {
    opts[i].Handle? && k.opens(i) != -1 && k.mallocs(i)
  }

  predicate AllQueued(k: Kernel, opts: seq<Opt>) {
    forall i :: 0 <= i < |opts| ==> Queued(k, opts, i)
  }

  function OpenTrace(k: Kernel, opts: seq<Opt>, i: nat): seq<Event>
    requires i <= |opts|
    decreases |opts| - i
  {
    if i == |opts| || opts[i].Unknown? then []
    else [Open(PathOf(opts[i]), k.opens(i))] + if Queued(k, opts, i) then OpenTrace(k, opts, i + 1) else []
  }

  function SwitchTrace(k: Kernel, opts: seq<Opt>, i: nat): seq<Event>
    requires i <= |opts| && AllQueued(k, opts)
    decreases |opts| - i
  {
    if i == |opts| then [Exec]
    else
      var s := Setns(k.opens(i), TypeOf(opts[i]));
      if k.switches(i) then [s, Close(k.opens(i)), Free(i + 1)] + SwitchTrace(k, opts, i + 1) else [s]
  }

  // Everything the program does. command: there is one to run after the options.
  function Trace(k: Kernel, opts: seq<Opt>, command: bool): seq<Event> {
    OpenTrace(k, opts, 0) +
    if AllQueued(k, opts) && command then [Free(0)] + SwitchTrace(k, opts, 0) else []
  }

  // ----------------------------------------------------------- what the trace is

  lemma {:induction false} OpenPlace(k: Kernel, opts: seq<Opt>, i: nat, j: nat)
    requires i <= |opts| && j < |OpenTrace(k, opts, i)|
    ensures i + j < |opts| && opts[i + j].Handle?
    ensures OpenTrace(k, opts, i)[j] == Open(PathOf(opts[i + j]), k.opens(i + j))
    decreases j
  {
    if j > 0 { OpenPlace(k, opts, i + 1, j - 1); }
  }

  lemma {:induction false} OpenLength(k: Kernel, opts: seq<Opt>, i: nat)
    requires i <= |opts| && AllQueued(k, opts)
    ensures |OpenTrace(k, opts, i)| == |opts| - i
    decreases |opts| - i
  {
    if i < |opts| {
      assert Queued(k, opts, i);
      OpenLength(k, opts, i + 1);
    }
  }

  // How many options are switched to before setns fails, if it does.
  function Switched(k: Kernel, opts: seq<Opt>, i: nat): (n: nat)
    requires i <= |opts|
    ensures i <= n <= |opts|
    ensures forall j :: i <= j < n ==> k.switches(j)
    ensures n < |opts| ==> !k.switches(n)
    decreases |opts| - i
  {
    if i == |opts| || !k.switches(i) then i else Switched(k, opts, i + 1)
  }

  // From option i on: three events an option, in option order, up to the failing setns or the command.
  lemma {:induction false} SwitchPlace(k: Kernel, opts: seq<Opt>, i: nat, j: nat)
    requires i <= |opts| && AllQueued(k, opts) && i <= j < Switched(k, opts, i)
    ensures var t, p := SwitchTrace(k, opts, i), 3 * (j - i);
            && p + 2 < |t|
            && t[p] == Setns(k.opens(j), TypeOf(opts[j])) && t[p + 1] == Close(k.opens(j)) && t[p + 2] == Free(j + 1)
    decreases j - i
  {
    hide TypeOf;
    var t, rest := SwitchTrace(k, opts, i), SwitchTrace(k, opts, i + 1);
    if j > i {
      var p := 3 * (j - (i + 1));
      SwitchPlace(k, opts, i + 1, j);
      assert t[p + 3] == rest[p] && t[p + 4] == rest[p + 1] && t[p + 5] == rest[p + 2];
    }
  }

  lemma {:induction false} SwitchEnd(k: Kernel, opts: seq<Opt>, i: nat)
    requires i <= |opts| && AllQueued(k, opts)
    ensures var t, n := SwitchTrace(k, opts, i), Switched(k, opts, i);
            && |t| == 3 * (n - i) + 1
            && t[|t| - 1] == if n == |opts| then Exec else Setns(k.opens(n), TypeOf(opts[n]))
    decreases |opts| - i
  {
    hide TypeOf;
    if i < |opts| && k.switches(i) { SwitchEnd(k, opts, i + 1); }
  }

  lemma {:induction false} NoOpenAmongSwitches(k: Kernel, opts: seq<Opt>, i: nat)
    requires i <= |opts| && AllQueued(k, opts)
    ensures forall e :: e in SwitchTrace(k, opts, i) ==> !e.Open?
    decreases |opts| - i
  {
    hide TypeOf;
    if i < |opts| { NoOpenAmongSwitches(k, opts, i + 1); }
  }

  lemma {:induction false} OnlyOpens(k: Kernel, opts: seq<Opt>, i: nat)
    requires i <= |opts|
    ensures forall e :: e in OpenTrace(k, opts, i) ==> e.Open?
    decreases |opts| - i
  {
    if i < |opts| { OnlyOpens(k, opts, i + 1); }
  }

  // All handles are opened, in option order, before the first switch; nothing is opened after it.
  lemma OpensComeFirst(k: Kernel, opts: seq<Opt>, command: bool, a: nat, b: nat)
    requires a < |Trace(k, opts, command)| && b < |Trace(k, opts, command)|
    requires Trace(k, opts, command)[a].Setns? && Trace(k, opts, command)[b].Open?
    ensures b < a && AllQueued(k, opts) && command
    ensures b < |opts| && Trace(k, opts, command)[b] == Open(PathOf(opts[b]), k.opens(b))
  {
    hide TypeOf, PathOf, OpenTrace, SwitchTrace, AllQueued;
    var t, o := Trace(k, opts, command), OpenTrace(k, opts, 0);
    OnlyOpens(k, opts, 0);
    forall m | 0 <= m < |o| ensures t[m].Open? { assert t[m] in o; }
    assert |t| > |o|;
    var s := SwitchTrace(k, opts, 0);
    NoOpenAmongSwitches(k, opts, 0);
    assert t == o + ([Free(0)] + s);
    forall m | |o| < m < |t| ensures !t[m].Open? { assert t[m] == s[m - |o| - 1]; }
    OpenPlace(k, opts, 0, b);
  }

  // A run that reaches the command has 4n + 2 events for n options: the opens in order, the dummy head's
  // free, for each option in order its setns, close and free, and the command.
  function EventAt(k: Kernel, opts: seq<Opt>, p: nat): Event
    requires p < 4 * |opts| + 2
  {
    var n := |opts|;
    if p < n then Open(PathOf(opts[p]), k.opens(p))
    else if p == n then Free(0)
    else if p == 4 * n + 1 then Exec
    else
      var i := (p - n - 1) / 3;
      match (p - n - 1) % 3
      case 0 => Setns(k.opens(i), TypeOf(opts[i]))
      case 1 => Close(k.opens(i))
      case _ => Free(i + 1)
  }

  lemma CompleteRun(k: Kernel, opts: seq<Opt>, p: nat)
    requires AllQueued(k, opts) && Switched(k, opts, 0) == |opts| && p < 4 * |opts| + 2
    ensures |Trace(k, opts, true)| == 4 * |opts| + 2
    ensures Trace(k, opts, true)[p] == EventAt(k, opts, p)
  {
    hide TypeOf, PathOf, OpenTrace, SwitchTrace, AllQueued;
    var n, o, s := |opts|, OpenTrace(k, opts, 0), SwitchTrace(k, opts, 0);
    OpenLength(k, opts, 0);
    SwitchEnd(k, opts, 0);
    assert Trace(k, opts, true) == o + ([Free(0)] + s);
    if p < n {
      OpenPlace(k, opts, 0, p);
    } else if n < p < 4 * n + 1 {
      var i := (p - n - 1) / 3;
      SwitchPlace(k, opts, 0, i);
      assert Trace(k, opts, true)[p] == s[p - n - 1];
    }
  }

  // So every node, dummy head included, is freed exactly once ...
  lemma FreedOnce(k: Kernel, opts: seq<Opt>, node: nat, p: nat)
    requires AllQueued(k, opts) && Switched(k, opts, 0) == |opts| && p < |Trace(k, opts, true)|
    ensures Trace(k, opts, true)[p] == Free(node) <==> node <= |opts| && p == |opts| + 3 * node
  {
    hide AllQueued, Switched, Trace, TypeOf, PathOf;
    assert p < 4 * |opts| + 2 by { CompleteRun(k, opts, 0); }
    CompleteRun(k, opts, p);
  }

  // ... and every descriptor closed exactly once, right after the setns with its own type, if the kernel
  // hands out different descriptors.
  lemma ClosedOnce(k: Kernel, opts: seq<Opt>, i: nat, p: nat)
    requires AllQueued(k, opts) && Switched(k, opts, 0) == |opts| && p < |Trace(k, opts, true)| && i < |opts|
    requires forall j :: 0 <= j < |opts| && j != i ==> k.opens(j) != k.opens(i)
    ensures Trace(k, opts, true)[p] == Close(k.opens(i)) <==> p == |opts| + 2 + 3 * i
    ensures |opts| + 1 + 3 * i < |Trace(k, opts, true)|
    ensures Trace(k, opts, true)[|opts| + 1 + 3 * i] == Setns(k.opens(i), TypeOf(opts[i]))
  {
    hide AllQueued, Switched, Trace, TypeOf, PathOf;
    CompleteRun(k, opts, |opts| + 1 + 3 * i);
    CompleteRun(k, opts, p);
  }

  // Which kind each letter insists on, in the numbers setns takes: mount, uts, ipc, network, process and
  // user namespaces each have their own bit, and -a takes any kind.
  lemma LettersSwitch(k: Kernel, opts: seq<Opt>, i: nat)
    requires AllQueued(k, opts) && Switched(k, opts, 0) == |opts| && i < |opts| && opts[i].Handle?
    ensures |Trace(k, opts, true)| == 4 * |opts| + 2
    ensures var e, fd := Trace(k, opts, true)[|opts| + 1 + 3 * i], k.opens(i);
            && (opts[i].letter == 'm' ==> e == Setns(fd, 131072))
            && (opts[i].letter == 'u' ==> e == Setns(fd, 67108864))
            && (opts[i].letter == 'i' ==> e == Setns(fd, 134217728))
            && (opts[i].letter == 'U' ==> e == Setns(fd, 268435456))
            && (opts[i].letter == 'p' ==> e == Setns(fd, 536870912))
            && (opts[i].letter == 'n' ==> e == Setns(fd, 1073741824))
            && (opts[i].letter == 'a' ==> e == Setns(fd, 0))
  {
    hide AllQueued, Switched, Trace, PathOf;
    CompleteRun(k, opts, |opts| + 1 + 3 * i);
  }

  // The command is run if and only if there is one and every option is known, its handle could be opened,
  // there was memory for it, and its setns worked.
  lemma CommandRuns(k: Kernel, opts: seq<Opt>, command: bool)
    ensures Exec in Trace(k, opts, command)
       <==> command && forall i :: 0 <= i < |opts| ==>
              opts[i].Handle? && k.opens(i) != -1 && k.mallocs(i) && k.switches(i)
  {
    hide TypeOf, PathOf, OpenTrace, SwitchTrace, AllQueued;
    EveryQueued(k, opts);
    OnlyOpens(k, opts, 0);
    if AllQueued(k, opts) && command {
      var s := SwitchTrace(k, opts, 0);
      SwitchEnd(k, opts, 0);
      ExecIsLast(k, opts, 0);
      assert Trace(k, opts, command) == OpenTrace(k, opts, 0) + ([Free(0)] + s);
      if Switched(k, opts, 0) == |opts| { assert s[|s| - 1] in s; }
    } else {
      assert Trace(k, opts, command) == OpenTrace(k, opts, 0);
    }
  }

  lemma EveryQueued(k: Kernel, opts: seq<Opt>)
    ensures AllQueued(k, opts)
       <==> forall i :: 0 <= i < |opts| ==> opts[i].Handle? && k.opens(i) != -1 && k.mallocs(i)
  {
    if forall i :: 0 <= i < |opts| ==> opts[i].Handle? && k.opens(i) != -1 && k.mallocs(i) {
      forall i | 0 <= i < |opts| ensures Queued(k, opts, i) { }
    }
    if AllQueued(k, opts) {
      forall i | 0 <= i < |opts| ensures opts[i].Handle? && k.opens(i) != -1 && k.mallocs(i) {
        assert Queued(k, opts, i);
      }
    }
  }

  lemma {:induction false} ExecIsLast(k: Kernel, opts: seq<Opt>, i: nat)
    requires i <= |opts| && AllQueued(k, opts)
    ensures Exec in SwitchTrace(k, opts, i) ==> Switched(k, opts, i) == |opts|
    decreases |opts| - i
  {
    hide TypeOf;
    if i < |opts| { ExecIsLast(k, opts, i + 1); }
  }

  // One turn of each loop, on the trace so far.
  lemma OpenStep(k: Kernel, opts: seq<Opt>, i: nat, t: seq<Event>)
    requires i < |opts|
    ensures opts[i].Unknown? ==> t + OpenTrace(k, opts, i) == t
    ensures opts[i].Handle? ==>
              t + OpenTrace(k, opts, i)
              == t + [Open(PathOf(opts[i]), k.opens(i))] + if Queued(k, opts, i) then OpenTrace(k, opts, i + 1) else []
  {
  }

  lemma OpenDone(k: Kernel, opts: seq<Opt>, t: seq<Event>)
    ensures t + OpenTrace(k, opts, |opts|) == t
  {
  }

  lemma SwitchStep(k: Kernel, opts: seq<Opt>, i: nat, t: seq<Event>)
    requires i < |opts| && AllQueued(k, opts)
    ensures var s := Setns(k.opens(i), TypeOf(opts[i]));
            t + SwitchTrace(k, opts, i) ==
              if !k.switches(i) then t + [s]
              else t + [s] + [Close(k.opens(i))] + [Free(i + 1)] + SwitchTrace(k, opts, i + 1)
  {
    hide TypeOf;
    assert [Setns(k.opens(i), TypeOf(opts[i])), Close(k.opens(i)), Free(i + 1)]
        == [Setns(k.opens(i), TypeOf(opts[i]))] + [Close(k.opens(i))] + [Free(i + 1)];
  }

  lemma SwitchDone(k: Kernel, opts: seq<Opt>, t: seq<Event>)
    requires AllQueued(k, opts)
    ensures t + SwitchTrace(k, opts, |opts|) == t + [Exec]
  {
  }

  // ------------------------------------------------------------------- the list

  class NsHolder {
    var fd: int
    var nstype: int
    var next: NsHolder?

    constructor (fd: int, nstype: int)
      ensures this.fd == fd && this.nstype == nstype && next == null
    {
      this.fd, this.nstype, this.next := fd, nstype, null;
    }
  }

  // nodes, in order, are the list: distinct, each linked to the next, the last to none.
  ghost predicate IsList(nodes: seq<NsHolder>)
    reads nodes
  {
    && nodes != []
    && (forall i, j :: 0 <= i < j < |nodes| ==> nodes[i] != nodes[j])
    && (forall i :: 0 <= i < |nodes| - 1 ==> nodes[i].next == nodes[i + 1])
    && nodes[|nodes| - 1].next == null
  }

  // Node i + 1 holds the descriptor and the type of option i, for the first n options.
  ghost predicate HoldsOptions(nodes: seq<NsHolder>, k: Kernel, opts: seq<Opt>, n: nat)
    requires n <= |opts|
    reads nodes
  {
    && |nodes| == n + 1
    && forall i :: 0 <= i < n ==>
         opts[i].Handle? && nodes[i + 1].fd == k.opens(i) && nodes[i + 1].nstype == TypeOf(opts[i])
  }

  class Switcher {
    const kernel: Kernel
    ghost var trace: seq<Event>
    // The nodes freed so far, in order. A freed node is never touched again.
    ghost var freed: seq<NsHolder>

    constructor (kernel: Kernel)
      ensures this.kernel == kernel && trace == [] && freed == []
    {
      this.kernel, trace, freed := kernel, [], [];
    }

    // advance_and_free; place is the node's position in the list.
    method AdvanceAndFree(nsh: NsHolder, ghost place: nat) returns (next: NsHolder?)
      requires nsh !in freed
      modifies this
      ensures next == nsh.next && freed == old(freed) + [nsh] && trace == old(trace) + [Free(place)]
    {
      next := nsh.next;
      freed := freed + [nsh];
      trace := trace + [Free(place)];
    }

    // add_ns for option i: open the handle, walk to the end of the list, append a node.
    method AddNs(head: NsHolder, opts: seq<Opt>, i: nat, ghost nodes: seq<NsHolder>)
      returns (ok: bool, ghost longer: seq<NsHolder>)
      requires i < |opts| && opts[i].Handle?
      requires IsList(nodes) && nodes[0] == head && HoldsOptions(nodes, kernel, opts, i)
      modifies this, nodes
      ensures freed == old(freed) && ok == Queued(kernel, opts, i)
      ensures trace == old(trace) + [Open(PathOf(opts[i]), kernel.opens(i))]
      ensures ok ==> IsList(longer) && longer[0] == head && HoldsOptions(longer, kernel, opts, i + 1)
      ensures ok ==> longer[..|nodes|] == nodes && fresh(longer[|nodes|])
    {
      hide TypeOf;
      longer := nodes;
      var fd := kernel.opens(i);
      trace := trace + [Open(PathOf(opts[i]), fd)];
      if fd == -1 {
        return false, longer;
      }
      var nsh := head;
      ghost var at := 0;
      while nsh.next != null
        invariant at < |nodes| && nsh == nodes[at] && IsList(nodes)
        decreases |nodes| - at
      {
        nsh := nsh.next;
        at := at + 1;
      }
      if !kernel.mallocs(i) {
        return false, longer;
      }
      forall j | 0 <= j < |nodes| - 1 ensures nodes[j].next != null {
        var later: NsHolder := nodes[j + 1];
        assert nodes[j].next == later;
      }
      var newh := new NsHolder(fd, TypeOf(opts[i]));
      nsh.next := newh;
      longer := nodes + [newh];
      assert forall j :: 0 <= j < |nodes| - 1 ==> longer[j].next == longer[j + 1];
      return true, longer;
    }

    // call_setns on the list after its dummy head, which is freed already.
    method CallSetns(first: NsHolder?, opts: seq<Opt>, ghost nodes: seq<NsHolder>) returns (ok: bool)
      requires IsList(nodes) && HoldsOptions(nodes, kernel, opts, |opts|) && AllQueued(kernel, opts)
      requires first == if |nodes| > 1 then nodes[1] else null
      requires freed == [nodes[0]]
      modifies this
      ensures ok <==> Switched(kernel, opts, 0) == |opts|
      ensures trace + (if ok then [Exec] else []) == old(trace) + SwitchTrace(kernel, opts, 0)
      ensures freed == nodes[..Switched(kernel, opts, 0) + 1]
    {
      hide TypeOf, SwitchTrace, AllQueued;
      var nsh := first;
      var i := 0; // which setns call this is
      while nsh != null
        invariant i <= |opts| && nsh == if i < |opts| then nodes[i + 1] else null
        invariant freed == nodes[..i + 1]
        invariant Switched(kernel, opts, 0) == Switched(kernel, opts, i)
        invariant trace + SwitchTrace(kernel, opts, i) == old(trace) + SwitchTrace(kernel, opts, 0)
        decreases |opts| - i
      {
        SwitchStep(kernel, opts, i, trace);
        trace := trace + [Setns(nsh.fd, nsh.nstype)];
        if !kernel.switches(i) {
          return false;
        }
        trace := trace + [Close(nsh.fd)];
        nsh := AdvanceAndFree(nsh, i + 1);
        i := i + 1;
      }
      SwitchDone(kernel, opts, trace);
      ok := true;
    }

    // The option loop of main: a list with a node for every option, unless something fails.
    method QueueAll(head: NsHolder, opts: seq<Opt>) returns (ok: bool, ghost nodes: seq<NsHolder>)
      requires head.next == null
      modifies this, head
      ensures freed == old(freed) && trace == old(trace) + OpenTrace(kernel, opts, 0)
      ensures ok == AllQueued(kernel, opts)
      ensures ok ==> IsList(nodes) && nodes[0] == head && HoldsOptions(nodes, kernel, opts, |opts|)
    {
      hide TypeOf, PathOf, OpenTrace;
      nodes := [head];
      var i := 0;
      while i < |opts|
        invariant i <= |opts| && freed == old(freed)
        invariant IsList(nodes) && nodes[0] == head && HoldsOptions(nodes, kernel, opts, i)
        invariant forall j :: 1 <= j < |nodes| ==> fresh(nodes[j])
        invariant forall j :: 0 <= j < i ==> Queued(kernel, opts, j)
        invariant trace + OpenTrace(kernel, opts, i) == old(trace) + OpenTrace(kernel, opts, 0)
      {
        OpenStep(kernel, opts, i, trace);
        if opts[i].Unknown? {
          assert !Queued(kernel, opts, i);
          return false, nodes;
        }
        var queued, longer := AddNs(head, opts, i, nodes);
        if !queued {
          return false, nodes;
        }
        assert forall j :: 1 <= j < |nodes| ==> longer[j] == nodes[j];
        nodes := longer;
        i := i + 1;
      }
      OpenDone(kernel, opts, trace);
      ok := true;
    }

    // main, on the options getopt yields. The result says whether the command is run.
    method Run(opts: seq<Opt>, command: bool) returns (runs: bool)
      requires trace == [] && freed == []
      modifies this
      ensures trace == Trace(kernel, opts, command)
      ensures runs <==> AllQueued(kernel, opts) && command && Switched(kernel, opts, 0) == |opts|
      ensures forall i, j :: 0 <= i < j < |freed| ==> freed[i] != freed[j]
      ensures |freed| == if AllQueued(kernel, opts) && command then Switched(kernel, opts, 0) + 1 else 0
    {
      hide TypeOf, PathOf, AllQueued, OpenTrace, SwitchTrace;
      var head := new NsHolder(0, 0);
      var ok, nodes := QueueAll(head, opts);
      assert OpenTrace(kernel, opts, 0) + [] == OpenTrace(kernel, opts, 0);
      if !ok || !command {
        return false;
      }
      var first := AdvanceAndFree(head, 0);
      runs := true;
      SwitchDone(kernel, opts, trace);
      assert trace + SwitchTrace(kernel, opts, 0) == Trace(kernel, opts, command) by {
        assert OpenTrace(kernel, opts, 0) + ([Free(0)] + SwitchTrace(kernel, opts, 0))
            == OpenTrace(kernel, opts, 0) + [Free(0)] + SwitchTrace(kernel, opts, 0);
      }
      assert |nodes| > 1 ==> nodes[0].next == nodes[1];
      if first != null {
        runs := CallSetns(first, opts, nodes);
      }
      if runs {
        trace := trace + [Exec];
      }
    }
  }
}
