/** Spans of a string, and splitting and joining at one character. */
module Text {

  const WHITE := " \t\n\U{B}\U{C}\r"

  // The white space of the C locale, character by character.
  predicate IsBlank(c: char) {
    c == ' ' || c == '\t' || c == '\n' || c == '\U{B}' || c == '\U{C}' || c == '\r'
  }

  predicate AllBlank(s: string) { forall i :: 0 <= i < |s| ==> IsBlank(s[i]) }

  lemma WhiteIsBlank(c: char)
    ensures c in WHITE <==> IsBlank(c)
  {
    var w := WHITE;
    assert w[0] == ' ' && w[1] == '\t' && w[2] == '\n' && w[3] == '\U{B}' && w[4] == '\U{C}' && w[5] == '\r';
  }

  lemma BlankIsWhite(s: string)
    ensures AllBlank(s) <==> forall i :: 0 <= i < |s| ==> s[i] in WHITE
  {
    hide WHITE, IsBlank;
    forall i | 0 <= i < |s| ensures s[i] in WHITE <==> IsBlank(s[i]) { WhiteIsBlank(s[i]); }
  }

  // Length of the longest prefix of s made of characters of chars (strspn).
  function Spn(s: string, chars: string): (n: nat)
    ensures n <= |s|
    ensures forall i :: 0 <= i < n ==> s[i] in chars
    ensures n < |s| ==> s[n] !in chars
  {
    if s == [] || s[0] !in chars then 0 else 1 + Spn(s[1..], chars)
  }

  // Length of the longest prefix of s without characters of chars (strcspn).
  function Cspn(s: string, chars: string): (n: nat)
    ensures n <= |s|
    ensures forall i :: 0 <= i < n ==> s[i] !in chars
    ensures n < |s| ==> s[n] in chars
  {
    if s == [] || s[0] in chars then 0 else 1 + Cspn(s[1..], chars)
  }

  // Both lengths are determined by their contracts.
  lemma CspnIs(s: string, chars: string, n: nat)
    requires n <= |s|
    requires forall i :: 0 <= i < n ==> s[i] !in chars
    requires n < |s| ==> s[n] in chars
    ensures Cspn(s, chars) == n
  {
  }

  lemma SpnIs(s: string, chars: string, n: nat)
    requires n <= |s|
    requires forall i :: 0 <= i < n ==> s[i] in chars
    requires n < |s| ==> s[n] !in chars
    ensures Spn(s, chars) == n
  {
  }

  lemma Assoc<T>(a: seq<T>, b: seq<T>, c: seq<T>)
    ensures a + (b + c) == a + b + c
  {
  }

  lemma ThreePieces<T>(s: seq<T>, t: nat, g: nat)
    requires t <= g <= |s|
    ensures s[..t] + s[t..g] + s[g..] == s
  {
    assert s[..t] + s[t..g] == s[..g];
    assert s[..g] + s[g..] == s;
  }

  lemma AroundIndex<T>(s: seq<T>, i: nat)
    requires i < |s|
    ensures s[..i] + [s[i]] + s[i + 1..] == s
  {
  }

  // -------------------------------------------------------------- splitting

  // Position of the first c in s, or its length.
  function Find(s: string, c: char): nat { Cspn(s, [c]) }

  // The pieces of s between the occurrences of c; at least one.
  function Split(s: string, c: char): (r: seq<string>)
    ensures r != []
    decreases |s|
  {
    var i := Find(s, c);
    if i == |s| then [s] else [s[..i]] + Split(s[i + 1..], c)
  }

  function Join(parts: seq<string>, c: char): string {
    if parts == [] then ""
    else if |parts| == 1 then parts[0]
    else parts[0] + [c] + Join(parts[1..], c)
  }

  lemma NotIn(s: string, c: char)
    requires c !in s
    ensures forall i :: 0 <= i < |s| ==> s[i] !in [c]
  {
  }

  lemma SplitWhole(s: string, c: char)
    requires c !in s
    ensures Find(s, c) == |s| && Split(s, c) == [s]
  {
    hide Cspn;
    NotIn(s, c);
    CspnIs(s, [c], |s|);
  }

  lemma SplitFirstPiece(s: string, c: char, rest: string)
    requires c !in s
    ensures Find(s + [c] + rest, c) == |s| && Split(s + [c] + rest, c) == [s] + Split(rest, c)
  {
    hide Cspn;
    var t := s + [c] + rest;
    NotIn(s, c);
    assert forall i :: 0 <= i < |s| ==> t[i] == s[i];
    CspnIs(t, [c], |s|);
    assert t[..|s|] == s && t[|s| + 1..] == rest;
  }

  // Splitting inverts joining parts without the character ...
  lemma {:induction false} SplitOfJoin(parts: seq<string>, c: char)
    requires parts != [] && forall p :: p in parts ==> c !in p
    ensures Split(Join(parts, c), c) == parts
  {
    hide Split;
    assert parts[0] in parts;
    if |parts| == 1 {
      SplitWhole(parts[0], c);
    } else {
      SplitOfJoin(parts[1..], c);
      SplitFirstPiece(parts[0], c, Join(parts[1..], c));
    }
  }

  // ... and joining inverts splitting.
  lemma {:induction false} JoinOfSplit(s: string, c: char)
    ensures Join(Split(s, c), c) == s
    ensures forall p :: p in Split(s, c) ==> c !in p
    decreases |s|
  {
    hide Cspn;
    var i := Find(s, c);
    if i < |s| {
      JoinOfSplit(s[i + 1..], c);
      var r := Split(s[i + 1..], c);
      assert Split(s, c) == [s[..i]] + r && ([s[..i]] + r)[1..] == r;
      assert s == s[..i] + [c] + s[i + 1..];
    }
  }
}
