/** Go's byte-string helpers: trimming, splitting, repeating. */
module Texts {
  import opened Prelude

  const SPACE: byte := 0x20
  const NL: byte := 0x0a
  const CR: byte := 0x0d

  function Repeat(b: byte, n: nat): (r: Bytes)
    ensures |r| == n && forall i | 0 <= i < n :: r[i] == b
  {
    seq(n, _ => b)
  }

  function TrimLeft(s: Bytes, b: byte): Bytes {
    if s != [] && s[0] == b then TrimLeft(s[1..], b) else s
  }

  function TrimRight(s: Bytes, b: byte): Bytes {
    if s != [] && s[|s| - 1] == b then TrimRight(s[..|s| - 1], b) else s
  }

  predicate IsSpace(b: byte) {
    b == 0x20 || b == 0x09 || b == 0x0a || b == 0x0b || b == 0x0c || b == 0x0d
  }

  function TrimSpace(s: Bytes): Bytes {
    if s != [] && IsSpace(s[0]) then TrimSpace(s[1..])
    else if s != [] && IsSpace(s[|s| - 1]) then TrimSpace(s[..|s| - 1])
    else s
  }

  function Split(s: Bytes, sep: byte): (parts: seq<Bytes>)
    ensures parts != []
  {
    if s == [] then [[]]
    else
      var rest := Split(s[1..], sep);
      if s[0] == sep then [[]] + rest else [[s[0]] + rest[0]] + rest[1..]
  }

  function Join(parts: seq<Bytes>, sep: byte): Bytes {
    if parts == [] then [] else if |parts| == 1 then parts[0] else parts[0] + [sep] + Join(parts[1..], sep)
  }

  lemma {:induction false} JoinFromTheEnd(parts: seq<Bytes>, sep: byte)
    requires |parts| > 1
    ensures Join(parts, sep) == Join(parts[..|parts| - 1], sep) + [sep] + parts[|parts| - 1]
  {
    var n := |parts| - 1;
    if n > 1 {
      JoinFromTheEnd(parts[1..], sep);
      assert parts[1..][..n - 1] == parts[..n][1..];
    }
  }

  /** Splitting loses nothing. */
  lemma {:induction false} SplitJoins(s: Bytes, sep: byte)
    ensures Join(Split(s, sep), sep) == s
  {
    if s != [] {
      SplitJoins(s[1..], sep);
      var rest := Split(s[1..], sep);
      if s[0] == sep {
        JoinGrows([], rest, sep);
      } else {
        JoinsFrom(s[0], rest, sep);
      }
    }
  }

  lemma JoinGrows(part: Bytes, parts: seq<Bytes>, sep: byte)
    ensures Join([part] + parts, sep) == if parts == [] then part else part + [sep] + Join(parts, sep)
  {
    assert parts == [] || ([part] + parts)[1..] == parts;
  }

  lemma JoinsFrom(b: byte, parts: seq<Bytes>, sep: byte)
    requires parts != []
    ensures Join([[b] + parts[0]] + parts[1..], sep) == [b] + Join(parts, sep)
  {
    var longer := [[b] + parts[0]] + parts[1..];
    assert longer[1..] == parts[1..];
  }

  /** No part holds the separator. */
  lemma {:induction false} SplitParts(s: Bytes, sep: byte)
    ensures forall part <- Split(s, sep) :: sep !in part
  {
    hide Join;
    if s != [] {
      SplitParts(s[1..], sep);
      var rest := Split(s[1..], sep);
      assert rest[0] in rest && forall part <- rest[1..] :: part in rest;
    }
  }

  /** Parts are made of the text's own bytes. */
  lemma {:induction false} SplitWithin(s: Bytes, sep: byte, i: nat)
    requires i < |Split(s, sep)|
    ensures forall b <- Split(s, sep)[i] :: b in s
  {
    if s != [] {
      var k := if s[0] == sep && i > 0 then i - 1 else i;
      if s[0] != sep || i > 0 { SplitWithin(s[1..], sep, k); }
      assert forall b <- s[1..] :: b in s;
    }
  }

  lemma {:induction false} TrimRightWithin(s: Bytes, b: byte)
    ensures forall c <- TrimRight(s, b) :: c in s
    ensures b !in s ==> TrimRight(s, b) == s
  {
    if s != [] && s[|s| - 1] == b { TrimRightWithin(s[..|s| - 1], b); }
  }

  /** Trimming takes off exactly the run of `b`s at the end. */
  lemma {:induction false} TrimRightShape(s: Bytes, b: byte)
    ensures var n := |TrimRight(s, b)|;
            && n <= |s| && TrimRight(s, b) == s[..n]
            && (n > 0 ==> s[n - 1] != b) && forall i | n <= i < |s| :: s[i] == b
  {
    if s != [] && s[|s| - 1] == b { TrimRightShape(s[..|s| - 1], b); }
  }

  /** What stands in a text from `from` on, with nothing but white space outside it. */
  predicate IsCore(s: Bytes, from: nat, t: Bytes) {
    && from + |t| <= |s| && s[from..from + |t|] == t
    && forall i | 0 <= i < |s| && !(from <= i < from + |t|) :: IsSpace(s[i])
  }

  /** Trimming takes off exactly the white space at both ends. */
  lemma {:induction false} TrimSpaceShape(s: Bytes) returns (from: nat)
    ensures IsCore(s, from, TrimSpace(s))
    ensures var t := TrimSpace(s); t != [] ==> !IsSpace(t[0]) && !IsSpace(t[|t| - 1])
  {
    hide IsSpace;
    if s != [] && IsSpace(s[0]) {
      var n := TrimSpaceShape(s[1..]);
      from := n + 1;
      CoreBehind(s, n, TrimSpace(s[1..]));
    } else if s != [] && IsSpace(s[|s| - 1]) {
      from := TrimSpaceShape(s[..|s| - 1]);
      CoreBefore(s, from, TrimSpace(s[..|s| - 1]));
    } else {
      from := 0;
      assert s[0..0 + |s|] == s;
    }
  }

  lemma CoreBehind(s: Bytes, n: nat, t: Bytes)
    requires s != [] && IsSpace(s[0]) && IsCore(s[1..], n, t)
    ensures IsCore(s, n + 1, t)
  {
    hide IsSpace;
    assert s[1..][n..n + |t|] == s[n + 1..n + 1 + |t|];
    forall i | 1 <= i < |s| && !(n + 1 <= i < n + 1 + |t|) ensures IsSpace(s[i]) {
      assert s[i] == s[1..][i - 1];
    }
  }

  lemma CoreBefore(s: Bytes, from: nat, t: Bytes)
    requires s != [] && IsSpace(s[|s| - 1]) && IsCore(s[..|s| - 1], from, t)
    ensures IsCore(s, from, t)
  {
    hide IsSpace;
    assert s[..|s| - 1][from..from + |t|] == s[from..from + |t|];
    forall i | 0 <= i < |s| - 1 && !(from <= i < from + |t|) ensures IsSpace(s[i]) {
      assert s[i] == s[..|s| - 1][i];
    }
  }
}
