/** The message loop on its buffers: receive into a zeroed buffer, strip it in place, append it to the
    pending text, cut off and handle every complete request, shift the rest down. */
module ControlServer {
  import opened CStrings
  import opened Text
  import opened ControlMessages
  import opened Framing
  import opened Wrappers

  const CTL_SOCK_BUF_SIZE: nat := 4096

  // The length of the receive buffer at each peek.
  function PeekLength(n: nat): nat { (n + 1) * 4095 }

  // Peek n is the first that leaves room in the buffer; queued(n) bytes wait at that moment, and more
  // may arrive between two peeks.
  ghost predicate FirstWithRoom(queued: nat -> nat, n: nat) {
    queued(n) < PeekLength(n) && forall k: nat :: k < n ==> PeekLength(k) <= queued(k)
  }

  // The peek loop: the buffer grows until a peek leaves room in it.
  method GrowBuffer(queued: nat -> nat, ghost most: nat) returns (len: nat)
    requires forall k :: queued(k) <= most
    ensures exists n :: FirstWithRoom(queued, n) && len == PeekLength(n)
  {
    len := CTL_SOCK_BUF_SIZE - 1;
    var peek: nat := 0;
    while queued(peek) >= len
      invariant len == PeekLength(peek)
      invariant forall k: nat :: k < peek ==> PeekLength(k) <= queued(k)
      decreases most + CTL_SOCK_BUF_SIZE - len
    {
      len := len + CTL_SOCK_BUF_SIZE - 1;
      peek := peek + 1;
    }
    assert FirstWithRoom(queued, peek);
  }

  lemma SeenHeld(b: seq<char>, data: string)
    requires |data| < |b|
    requires forall i :: 0 <= i < |b| ==> b[i] == if i < |data| then data[i] else NUL
    ensures Holds(b, 0, Seen(data))
  {
  }

  // The zeroed buffer with the bytes received at its front, which may fill all but its last byte.
  method Receive(len: nat, data: string) returns (buf: array<char>)
    requires |data| <= len
    ensures fresh(buf) && Holds(buf[..], 0, Seen(data))
  {
    buf := new char[len + 1](i => if 0 <= i < |data| then data[i] else NUL);
    SeenHeld(buf[..], data);
  }

  lemma StripMiddle(a: string, b: string, c: string)
    requires forall i :: 0 <= i < |b| ==> b[i] in BAD_CHARS
    ensures Clean(a + c) == Clean(a + b + c)
  {
    hide Clean;
    CleanDrops(b);
    CleanAppend(a, b);
    CleanAppend(a + b, c);
    CleanAppend(a, c);
    assert Clean(a) + [] == Clean(a);
  }

  // Removing one run of bad characters does not change what is left after removing all.
  lemma StripOnce(s: string, t: nat, g: nat)
    requires t <= g <= |s| && forall i :: t <= i < g ==> s[i] in BAD_CHARS
    ensures Clean(s[..t] + s[g..]) == Clean(s)
  {
    hide Clean;
    var a, b, c := s[..t], s[t..g], s[g..];
    ThreePieces(s, t, g);
    StripMiddle(a, b, c);
  }

  lemma ShiftHolds(b: seq<char>, b': seq<char>, s: string, t: nat, g: nat)
    requires Holds(b, 0, s) && t <= g <= |s| && |b'| == |b|
    requires forall i :: 0 <= i < t ==> b'[i] == b[i]
    requires forall i :: t <= i <= t + (|s| - g) ==> b'[i] == b[g + (i - t)]
    ensures Holds(b', 0, s[..t] + s[g..])
  {
    var r := s[..t] + s[g..];
    forall i | 0 <= i < |r| ensures r[i] != NUL && b'[0 + i] == r[i] {
      if t <= i { assert s[g + (i - t)] != NUL; } else { assert s[i] != NUL; }
    }
  }

  // Cut g - t characters out of the string in a, at t.
  method CutOut(a: array<char>, ghost s: string, size: nat, t: nat, g: nat)
    requires Holds(a[..], 0, s) && size == |s| && t <= g <= size
    modifies a
    ensures Holds(a[..], 0, s[..t] + s[g..])
  {
    ghost var was := a[..];
    MemMove(a, t, g, size - g + 1);
    ShiftHolds(was, a[..], s, t, g);
  }

  // Strip CR and LF in place: the string left is the received one without them, in order.
  method Strip(a: array<char>, ghost s: string)
    requires Holds(a[..], 0, s)
    modifies a
    ensures Holds(a[..], 0, Clean(s))
  {
    var more := true;
    ghost var cur := s;
    while more
      invariant Holds(a[..], 0, cur) && Clean(cur) == Clean(s)
      invariant !more ==> Cspn(cur, BAD_CHARS) == |cur|
      decreases more, |cur|
    {
      var text := ReadString(a, 0, cur);
      var size := Cspn(text, BAD_CHARS);
      var left := |text|;
      if size < left {
        var good := size + Spn(text[size..], BAD_CHARS);
        StripOnce(text, size, good);
        CutOut(a, cur, left, size, good);
        cur := text[..size] + text[good..];
        left := size + (left - good);
      }
      more := size < left;
      if !more { assert cur == text[..size]; CspnIs(cur, BAD_CHARS, size); }
    }
    CleanKeeps(cur);
  }

  // memmove(msg_buf, next, strlen(next) + 1)
  method MoveDown(a: array<char>, from: nat, ghost rest: string)
    requires Holds(a[..], from, rest)
    modifies a
    ensures Holds(a[..], 0, rest)
  {
    var text := ReadString(a, from, rest);
    MemMove(a, 0, from, |text| + 1);
    forall i | 0 <= i < |rest| ensures rest[i] != NUL && a[i] == rest[i] {
      assert rest[i] == old(a[..])[from + i];
    }
  }

  // realloc and strcat: a new buffer holds the old text followed by the received one.
  method Concatenate(msg: array<char>, recv: array<char>, ghost s: string, ghost t: string) returns (r: array<char>)
    requires Holds(msg[..], 0, s) && Holds(recv[..], 0, t)
    ensures fresh(r) && Holds(r[..], 0, s + t)
  {
    var kept := ReadString(msg, 0, s);
    var more := ReadString(recv, 0, t);
    var both := kept + more;
    r := new char[|both| + 1](i => if 0 <= i < |both| then both[i] else NUL);
    assert forall i :: 0 <= i < |both| ==> both[i] == if i < |s| then s[i] else t[i - |s|];
  }

  // What a handler does to its parameter: any number of strtok calls with any delimiters. It writes
  // inside the parameter only.
  method RunHandler(a: array<char>, param: nat, ghost p: string, delims: seq<string>)
    requires Holds(a[..], param, p)
    modifies a
    ensures forall i :: 0 <= i < a.Length && !(param <= i < param + |p|) ==> a[i] == old(a[i])
  {
    var at := param;
    ghost var s := p;
    for n := 0 to |delims|
      invariant param <= at && at + |s| <= param + |p|
      invariant Holds(a[..], at, s)
      invariant forall i :: 0 <= i < a.Length && !(param <= i < param + |p|) ==> a[i] == old(a[i])
    {
      var found, token, save := StrTok(a, at, delims[n], s);
      at := save;
      s := Token(s, delims[n]).rest;
    }
  }

  // The two strtok calls on a segment: the request is Parse of the segment, and where its parameter lies.
  method CutRequest(a: array<char>, ghost seg: string) returns (q: Option<Request>, at: nat, ghost p: string)
    requires Holds(a[..], 0, seg)
    modifies a
    ensures q == Parse(seg)
    ensures at + |p| <= |seg| && Holds(a[..], at, p)
    ensures q.Some? && q.value.param.Some? ==> p == q.value.param.value
    ensures forall i :: |seg| <= i < a.Length ==> a[i] == old(a[i])
  {
    var found, cmd, save := StrTok(a, 0, ":", seg);
    ghost var c := Token(seg, ":");
    ghost var was := a[..];
    var found', param, _ := StrTok(a, save, "", c.rest);
    TokenOfAll(c.rest);
    HoldsFrame(was, a[..], cmd, c.token);
    at, p := param, Token(c.rest, "").token;
    if !found {
      return None, at, p;
    }
    var name := ReadString(a, cmd, c.token);
    if !found' {
      return Some(Request(name, None)), at, p;
    }
    var value := ReadString(a, at, p);
    return Some(Request(name, Some(value))), at, p;
  }

  class ControlServer {
    const inetd: bool
    var msgBuf: array?<char>
    var connected: bool
    var running: bool
    var status: Option<nat>
    var log: seq<Request>
    ghost var text: string

    ghost predicate Valid()
      reads this, msgBuf
    {
      if msgBuf == null then text == "" else Holds(msgBuf[..], 0, text)
    }

    ghost function View(): Server
      reads this
    {
      Server(text, connected, running, status, log)
    }

    constructor (inetd: bool)
      ensures Valid() && View() == Start(inetd) && this.inetd == inetd && msgBuf == null
    {
      this.inetd := inetd;
      msgBuf, connected, running, status, log, text := null, inetd, true, None, [], "";
    }

    // Hand a request to its handler. delims stands for what the handler tokenises its parameter with.
    method Dispatch(a: array<char>, q: Request, at: nat, ghost p: string, delims: seq<string>)
      requires Holds(a[..], at, p)
      requires q.param.Some? ==> p == q.param.value
      modifies a, `connected, `running, `log
      ensures log == old(log) + [q]
      ensures running == (old(running) && !IsExit(q))
      ensures connected == (old(connected) && !(IsDetach(q) && !IsExit(q)))
      ensures forall i :: 0 <= i < a.Length && !(at <= i < at + |p|) ==> a[i] == old(a[i])
    {
      log := log + [q];
      if IsExit(q) {
        running := false;
      } else if IsDetach(q) {
        connected := false;
      } else if q.param.Some? {
        RunHandler(a, at, p, delims);
      }
    }

    // Cut the first segment off the text in a, handle it, and move what follows to the front.
    method DrainOne(a: array<char>, next: nat, ghost t: string)
      requires Holds(a[..], 0, t) && next == Cspn(t, ";") < |t|
      modifies a, `connected, `running, `log
      ensures Holds(a[..], 0, t[next + 1..])
      ensures View() == HandleOne(old(View()), Parse(t[..next]))
    {
      hide Parse, Cspn, Token;
      ghost var rest := t[next + 1..];
      ghost var was := a[..];
      a[next] := NUL;
      HoldsSplit(was, a[..], 0, t, 0, next);
      was := a[..];
      var q, at, p := CutRequest(a, t[..next]);
      HoldsFrame(was, a[..], next + 1, rest);
      if q.Some? {
        was := a[..];
        var delims: seq<string> := *;
        Dispatch(a, q.value, at, p, delims);
        HoldsFrame(was, a[..], next + 1, rest);
      }
      MoveDown(a, next + 1, rest);
    }

    method Drain(a: array<char>, ghost t: string) returns (ghost kept: string)
      requires Holds(a[..], 0, t)
      modifies a, `connected, `running, `log
      ensures Holds(a[..], 0, kept)
      ensures View().(pending := kept) == Handle(old(View()), t)
    {
      hide Parse, Cspn, Handle, HandleOne;
      kept := t;
      var text := ReadString(a, 0, t);
      var next := Cspn(text, ";");
      while next < |text|
        invariant Holds(a[..], 0, kept) && text == kept && next == Cspn(kept, ";")
        invariant Handle(View(), kept) == Handle(old(View()), t)
        decreases |text|
      {
        HandleFirst(View(), kept);
        DrainOne(a, next, kept);
        kept := kept[next + 1..];
        text := ReadString(a, 0, kept);
        next := Cspn(text, ";");
      }
      HandleNone(View(), kept);
    }

    // Receive data, strip it, add it to the pending text and handle every complete request.
    method TakeData(data: string)
      requires Valid() && data != ""
      modifies this, msgBuf
      ensures Valid()
      ensures msgBuf == old(msgBuf) || fresh(msgBuf)
      ensures View() == Handle(old(View()), old(text) + Clean(Seen(data)))
    {
      ghost var all := text + Clean(Seen(data));
      // Receive leaves the same string whatever length was reached: here nothing arrives between peeks.
      var len := GrowBuffer(_ => |data|, |data|);
      var recv := Receive(len, data);
      Strip(recv, Seen(data));
      if msgBuf != null {
        msgBuf := Concatenate(msgBuf, recv, text, Clean(Seen(data)));
      } else {
        msgBuf := recv;
        assert all == Clean(Seen(data));
      }
      assert View() == old(View());
      ghost var kept := Drain(msgBuf, all);
      text := kept;
    }

    // One pass of the outer loop.
    method TakePass(p: Pass)
      requires Valid() && !Stopped(View()) && ';' !in text
      modifies this, msgBuf
      ensures Valid()
      ensures msgBuf == old(msgBuf) || fresh(msgBuf)
      ensures View() == Step(inetd, old(View()), p)
    {
      if !connected {
        if inetd {
          status := Some(0);
          return;
        }
        if !p.accepts {
          return;
        }
        connected := true;
      }
      if p.net.SelectFails? {
        status := Some(1);
        return;
      }
      if p.net.TimesOut? && inetd {
        status := Some(0);
        return;
      }
      match p.net.got
      case RecvFails =>
      case Bytes(data) =>
        if data != "" {
          TakeData(data);
        } else if inetd {
          status := Some(0);
        } else {
          connected := false;
        }
    }

    // The outer loop over everything the network brings.
    method Serve(passes: seq<Pass>)
      requires Valid() && ';' !in text
      modifies this, msgBuf
      ensures Valid()
      ensures msgBuf == old(msgBuf) || fresh(msgBuf)
      ensures View() == Run(inetd, old(View()), passes)
      ensures log == old(log) + Requests(old(text) + Received(inetd, old(View()), passes))
      ensures text == Tail(old(text) + Received(inetd, old(View()), passes)) && ';' !in text
    {
      var i := 0;
      while i < |passes| && running && status.None?
        invariant i <= |passes| && Valid()
        invariant msgBuf == old(msgBuf) || fresh(msgBuf)
        invariant ';' !in text
        invariant Run(inetd, View(), passes[i..]) == Run(inetd, old(View()), passes)
      {
        StepAccounts(inetd, View(), passes[i]);
        TakePass(passes[i]);
        i := i + 1;
      }
      StoppedStays(inetd, View(), passes[i..]);
      RunAccounts(inetd, old(View()), passes);
    }
  }
}
