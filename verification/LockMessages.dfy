/** The lock messages as text: which command a parameter asks for, and what each message does to the file. */
module LockMessages {
  import opened CStrings
  import opened Text
  import opened ControlMessages
  import opened LockFile
  import opened Wrappers

  // --------------------------------------------------------------- strtok and splitting

  function NonEmpty(parts: seq<string>): seq<string> {
    if parts == [] then []
    else (if parts[0] == "" then [] else [parts[0]]) + NonEmpty(parts[1..])
  }

  // The words of a text between the occurrences of c: its pieces, but the empty ones.
  function Words(s: string, c: char): seq<string> { NonEmpty(Split(s, c)) }

  lemma NonEmptyFirst(p: string, parts: seq<string>)
    ensures NonEmpty([p] + parts) == (if p == "" then [] else [p]) + NonEmpty(parts)
  {
    assert ([p] + parts)[1..] == parts;
  }

  lemma WordsStep(s: string, c: char)
    ensures var i := Find(s, c);
            Words(s, c) == if i == |s| then (if s == "" then [] else [s])
                           else (if i == 0 then [] else [s[..i]]) + Words(s[i + 1..], c)
  {
    hide Cspn;
    var i := Find(s, c);
    if i == |s| {
      NonEmptyFirst(s, []);
      assert [s] + [] == [s];
    } else {
      NonEmptyFirst(s[..i], Split(s[i + 1..], c));
    }
  }

  // A strtok call takes the first word, if there is one, and leaves the others.
  lemma {:induction false} TokenIsFirstWord(s: string, c: char)
    ensures var t, w := Token(s, [c]), Words(s, c);
            && (t.found <==> w != [])
            && (t.found ==> w == [t.token] + Words(t.rest, c))
    decreases |s|
  {
    hide Spn, Cspn, Words;
    var k := Spn(s, [c]);
    WordsStep(s, c);
    if s == "" {
    } else if s[0] == c {
      CspnIs(s, [c], 0);
      assert s[..0] == "" && [] + Words(s[1..], c) == Words(s[1..], c);
      TokenIsFirstWord(s[1..], c);
      SkipDelimiter(s, c);
    } else {
      SpnIs(s, [c], 0);
      assert s[0..] == s;
      var i := Cspn(s, [c]);
      assert i > 0;
      if i == |s| {
        assert s[0..i] == s;
        WordsStep("", c);
        assert [s] + [] == [s];
      }
    }
  }

  lemma SkipDelimiter(s: string, c: char)
    requires s != "" && s[0] == c
    ensures Token(s, [c]) == Token(s[1..], [c])
  {
    hide Cspn, Spn;
    var k := Spn(s[1..], [c]);
    SpnIs(s, [c], k + 1);
    assert s[k + 1..] == s[1..][k..];
    if k < |s| - 1 {
      var e := k + Cspn(s[1..][k..], [c]);
      assert s[k + 1..e + 1] == s[1..][k..e];
      if e < |s| - 1 { assert s[e + 2..] == s[1..][e + 1..]; }
    }
  }

  // -------------------------------------------------------------------- the commands

  // What a parameter of comma-separated words asks for: set and a second word, the timeout; release;
  // query; and nothing known otherwise. None where C leaves it undefined.
  lemma CommandByWords(param: string)
    ensures var w := Words(param, ',');
            ToCommand(param)
            == if w == [] then None
               else if SameNoCase(w[0], "set") then
                 (if |w| == 1 then None else Some(Set(Atoi(w[1]))))
               else if SameNoCase(w[0], "release") then Some(Release)
               else if SameNoCase(w[0], "query") then Some(Query)
               else Some(Unknown)
  {
    hide Token, Words, SameNoCase, Atoi;
    assert [','] == ",";
    TokenIsFirstWord(param, ',');
    var c := Token(param, ",");
    if c.found { TokenIsFirstWord(c.rest, ','); }
  }

  // The timeout is the number its word starts with, a negative one taken modulo 2^32; without one it is 0.
  lemma TimeoutOf(n: nat, more: string, c: char, rest: string)
    requires more != "" ==> !IsDigit(more[0])
    requires !IsBlank(c) && !IsDigit(c) && c != '+' && c != '-'
    ensures n < 0x1_0000_0000 ==> Atoi(Digits(n) + more) == n
    ensures 0 < n <= 0x1_0000_0000 ==> Atoi("-" + Digits(n) + more) == 0x1_0000_0000 - n
    ensures Atoi([c] + rest) == 0
  {
    hide Scan, Digits;
    ScanDigits(n, more);
    ScanSigned("", '-', n, more);
    assert "" + ['-'] + Digits(n) + more == "-" + Digits(n) + more;
    NoNumber(c, rest);
  }

  // The three words, letter by letter.
  lemma CommandWords(s: string)
    ensures SameNoCase(s, "set") <==> |s| == 3 && s[0] in "sS" && s[1] in "eE" && s[2] in "tT"
    ensures SameNoCase(s, "query")
       <==> |s| == 5 && s[0] in "qQ" && s[1] in "uU" && s[2] in "eE" && s[3] in "rR" && s[4] in "yY"
    ensures SameNoCase(s, "release")
       <==> |s| == 7 && s[0] in "rR" && s[1] in "eE" && s[2] in "lL" && s[3] in "eE" && s[4] in "aA"
                     && s[5] in "sS" && s[6] in "eE"
  {
  }

  lemma OneWordOf(s: string, c: char)
    requires s != "" && c !in s
    ensures Words(s, c) == [s]
  {
    hide Split;
    SplitWhole(s, c);
    NonEmptyFirst(s, []);
    assert [s] + [] == [s];
  }

  lemma QueryWord()
    ensures ToCommand("query") == Some(Query)
  {
    hide ToCommand, Words;
    OneWordOf("query", ',');
    CommandByWords("query");
    CommandWords("query");
  }

  // ------------------------------------------------------------------ message to effect

  // What a text of one lock message does, as the server reads it.
  ghost predicate Asks(text: string, cmd: Command) {
    exists q :: Requests(text) == [q] && q.cmd == "lock" && q.param.Some? && ToCommand(q.param.value) == Some(cmd)
  }

  // lock:query; leaves the file as it is and tells what the lease says: 0 if it is over, the seconds
  // left if it is not; nothing if there is no file.
  lemma QueryMessage(lease: nat, now: nat)
    ensures Asks("lock:query;", Query)
    ensures forall file, accessible :: Lock(file, accessible, Query, now).file == file
    ensures Lock(None, true, Query, now).reply == None
    ensures lease <= now ==> Lock(Some(Digits(lease)), true, Query, now).reply == Some(0)
    ensures now < lease < now + 0x8000_0000 ==> Lock(Some(Digits(lease)), true, Query, now).reply == Some(lease - now)
  {
    hide Requests, ToCommand, Digits, Scan;
    OneMessage("lock", "query");
    assert "lock" + ":" + "query" + ";" == "lock:query;";
    QueryWord();
    assert Asks("lock:query;", Query);
    CanonicalDigits(lease);
    CanonicalScans(Some(Digits(lease)));
  }

  // lock:release; ends any lease now, whatever the file holds, and is not answered.
  lemma ReleaseMessageEnds(file: Option<string>, now: nat)
    ensures Asks("lock:release;", Release)
    ensures Lock(file, true, Release, now) == Outcome(Some(Digits(now)), None)
  {
    hide Requests, ToCommand, Digits;
    ReleaseMessage();
    assert Asks("lock:release;", Release);
  }

  // lock:set,t; is granted when there is no lease, or an old one, and leases the lock for t seconds; else it
  // changes nothing and tells the seconds left.
  lemma SetMessage(t: uint32, lease: nat, now: nat)
    ensures Asks("lock:set," + Digits(t) + ";", Set(t))
    ensures Lock(None, true, Set(t), now) == Outcome(Some(Digits(now + t)), Some(0))
    ensures lease <= now ==> Lock(Some(Digits(lease)), true, Set(t), now) == Outcome(Some(Digits(now + t)), Some(0))
    ensures now < lease < now + 0x8000_0000 ==>
              Lock(Some(Digits(lease)), true, Set(t), now) == Outcome(Some(Digits(lease)), Some(lease - now))
  {
    hide Requests, ToCommand, Digits, Scan, Overwrite;
    ClientMessage(t);
    assert Asks("lock:set," + Digits(t) + ";", Set(t));
    CanonicalDigits(lease);
    CanonicalScans(Some(Digits(lease)));
    if lease <= now { OverwriteReplaces(Some(Digits(lease)), now + t); }
  }

  // Without access to the file, and for an unknown command, nothing is written and nothing sent.
  lemma NothingDone(file: Option<string>, cmd: Command, now: nat)
    ensures Lock(file, false, cmd, now) == Outcome(file, None)
    ensures Lock(file, true, Unknown, now) == Outcome(file, None)
  {
  }

  // A file that starts with no number is left alone by set and query, which are not answered; only a
  // release makes it usable again. An empty one counts as a lease long over.
  lemma UnreadableFile(c: char, rest: string, t: uint32, now: nat)
    requires !IsBlank(c) && !IsDigit(c) && c != '+' && c != '-'
    ensures var file := Some([c] + rest);
            && Lock(file, true, Set(t), now) == Outcome(file, None)
            && Lock(file, true, Query, now) == Outcome(file, None)
            && Lock(file, true, Release, now).file == Some(Digits(now))
    ensures Lock(Some(""), true, Set(t), now) == Outcome(Some(Digits(now + t)), Some(0))
    ensures Lock(Some(""), true, Query, now) == Outcome(Some(""), Some(0))
  {
    hide Digits, Scan;
    NoNumber(c, rest);
    assert Digits(now + t) + "" == Digits(now + t);
  }

  lemma NoNumber(c: char, rest: string)
    requires !IsBlank(c) && !IsDigit(c) && c != '+' && c != '-'
    ensures Scan([c] + rest) == Mismatch && Scan("") == Eof
  {
    hide Num, Spn, IsBlank, WHITE;
    var s := [c] + rest;
    WhiteIsBlank(c);
    SpnIs(s, WHITE, 0);
    assert s[0..] == s;
    SpnIs("", WHITE, 0);
  }
}
