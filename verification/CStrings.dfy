/** C strings inside a char buffer, and the <string.h> routines the control server uses on them.
    Holds(b, p, s) says that the bytes of b from offset p spell s followed by a NUL. */
module CStrings {
  import opened Text

  const NUL: char := '\0'

  ghost predicate Holds(b: seq<char>, p: nat, s: string) {
    && p + |s| < |b|
    && b[p + |s|] == NUL
    && forall i :: 0 <= i < |s| ==> s[i] != NUL && b[p + i] == s[i]
  }

  lemma NoNulInside(b: seq<char>, p: nat, s: string)
    requires Holds(b, p, s)
    ensures forall j :: p <= j < p + |s| ==> b[j] != NUL
  {
    forall j | p <= j < p + |s| ensures b[j] != NUL {
      assert s[j - p] == b[p + (j - p)];
    }
  }

  lemma HoldsUnique(b: seq<char>, p: nat, s: string, t: string)
    requires Holds(b, p, s) && Holds(b, p, t)
    ensures s == t
  {
    NoNulInside(b, p, s);
    NoNulInside(b, p, t);
  }

  // A string depends only on its own bytes and its terminator.
  lemma HoldsFrame(b: seq<char>, b': seq<char>, p: nat, s: string)
    requires Holds(b, p, s) && |b'| == |b|
    requires forall j :: p <= j <= p + |s| ==> b'[j] == b[j]
    ensures Holds(b', p, s)
  {
  }

  // strlen and the characters themselves: the string that starts at p.
  method ReadString(a: array<char>, p: nat, ghost s: string) returns (r: string)
    requires Holds(a[..], p, s)
    ensures r == s
  {
    var n := p;
    while a[n] != NUL
      invariant p <= n <= p + |s|
      invariant forall i :: p <= i < n ==> a[i] != NUL
      decreases p + |s| - n
    {
      assert n < p + |s| by { assert a[..][p + |s|] == NUL; }
      n := n + 1;
    }
    r := a[p..n];
    assert Holds(a[..], p, r);
    HoldsUnique(a[..], p, r, s);
  }

  // memmove: n bytes from src to dst in the same buffer, overlap allowed.
  method MemMove(a: array<char>, dst: nat, src: nat, n: nat)
    requires dst + n <= a.Length && src + n <= a.Length
    modifies a
    ensures forall i :: 0 <= i < a.Length ==>
              a[i] == if dst <= i < dst + n then old(a[src + (i - dst)]) else old(a[i])
  {
    forall i | 0 <= i < n {
      a[dst + i] := a[src + i];
    }
  }

  // ------------------------------------------------------------------ strtok

  // One strtok call on the string s: the token, if any, and the string left for the next call.
  datatype Cut = Cut(token: string, found: bool, rest: string)

  function Token(s: string, delims: string): (c: Cut)
    ensures c.found <==> c.token != []
    ensures |c.rest| <= |s|
  {
    var k := Spn(s, delims);
    if k == |s| then Cut([], false, [])
    else
      var e := k + Cspn(s[k..], delims);
      Cut(s[k..e], true, if e < |s| then s[e + 1..] else [])
  }

  // Writing a NUL k places into a string splits it there.
  lemma HoldsSplit(b: seq<char>, b': seq<char>, p: nat, s: string, from: nat, k: nat)
    requires Holds(b, p, s) && from <= k < |s| && b' == b[p + k := NUL]
    ensures Holds(b', p + from, s[from..k])
    ensures Holds(b', p + k + 1, s[k + 1..])
  {
  }

  // What strtok leaves in memory: the token at one offset, the rest at another.
  ghost predicate TokenCut(b: seq<char>, start: nat, s: string, c: Cut, found: bool, token: nat, save: nat) {
    && found == c.found
    && start <= token
    && token + |c.token| + (if c.rest == [] then 0 else 1) <= save
    && save + |c.rest| <= start + |s|
    && Holds(b, token, c.token)
    && Holds(b, save, c.rest)
  }

  lemma TokenIs(s: string, delims: string, k: nat, e: nat)
    requires k == Spn(s, delims) < |s| && e == k + Cspn(s[k..], delims)
    ensures Token(s, delims) == Cut(s[k..e], true, if e < |s| then s[e + 1..] else [])
  {
    hide Spn, Cspn;
  }

  // No token: only delimiters, or nothing, are left.
  lemma CutNothing(b: seq<char>, start: nat, s: string, delims: string)
    requires Holds(b, start, s)
    ensures Spn(s, delims) == |s| ==> TokenCut(b, start, s, Token(s, delims), false, start + |s|, start + |s|)
  {
  }

  // The token runs to the end of the string.
  lemma CutToEnd(b: seq<char>, start: nat, s: string, delims: string, k: nat)
    requires Holds(b, start, s) && k == Spn(s, delims)
    ensures k < |s| == k + Cspn(s[k..], delims) ==>
              TokenCut(b, start, s, Token(s, delims), true, start + k, start + |s|)
  {
  }

  // Writing a NUL over the delimiter splits the string there.
  lemma CutAtDelimiter(b: seq<char>, b': seq<char>, start: nat, s: string, delims: string, k: nat, e: nat)
    requires Holds(b, start, s) && k == Spn(s, delims) < |s| && e == k + Cspn(s[k..], delims) < |s|
    requires b' == b[start + e := NUL]
    ensures TokenCut(b', start, s, Token(s, delims), true, start + k, start + e + 1)
  {
    TokenIs(s, delims, k, e);
    HoldsSplit(b, b', start, s, k, e);
    hide Token, Spn, Cspn, Holds;
  }

  method WriteDelimiter(a: array<char>, start: nat, delims: string, ghost s: string, ghost k: nat, e: nat)
    requires Holds(a[..], start, s) && k == Spn(s, delims) < |s| && e == k + Cspn(s[k..], delims) < |s|
    modifies a
    ensures TokenCut(a[..], start, s, Token(s, delims), true, start + k, start + e + 1)
    ensures forall i :: 0 <= i < a.Length && i != start + e ==> a[i] == old(a[i])
  {
    CutAtDelimiter(a[..], a[..][start + e := NUL], start, s, delims, k, e);
    a[start + e] := NUL;
    assert a[..] == old(a[..])[start + e := NUL];
  }

  // strtok: start is the string given, or the position saved by the previous call.
  // A NUL is written over the delimiter that ends the token; nothing outside the string changes.
  method StrTok(a: array<char>, start: nat, delims: string, ghost s: string)
    returns (found: bool, token: nat, save: nat)
    requires Holds(a[..], start, s)
    modifies a
    ensures TokenCut(a[..], start, s, Token(s, delims), found, token, save)
    ensures forall i :: 0 <= i < a.Length && !(start <= i < start + |s|) ==> a[i] == old(a[i])
  {
    hide Token, Spn, Cspn, Holds;
    var text := ReadString(a, start, s);
    var k := Spn(text, delims);
    if k == |text| {
      CutNothing(a[..], start, s, delims);
      return false, start + k, start + k;
    }
    var e := k + Cspn(text[k..], delims);
    if e == |text| {
      CutToEnd(a[..], start, s, delims, k);
      return true, start + k, start + e;
    }
    WriteDelimiter(a, start, delims, s, k, e);
    return true, start + k, start + e + 1;
  }
}
