/** Column widths and fixed-width rows of an exported table. */
module PdfColumns {
  import opened Prelude
  import opened Texts

  const DOT: byte := 0x2e
  const WIDEST := 44
  const NARROWEST := 6

  datatype Table = Table(headers: seq<Bytes>, rows: seq<seq<Bytes>>, numeric: seq<bool>)

  function Sum(ws: seq<nat>): nat {
    if ws == [] then 0 else Sum(ws[..|ws| - 1]) + ws[|ws| - 1]
  }

  /** The width of a rendered row: every column and one space between. */
  function LineLen(ws: seq<nat>): nat {
    Sum(ws) + if |ws| > 1 then |ws| - 1 else 0
  }

  method ComputeLineLen(widths: array<nat>) returns (total: nat)
    ensures total == LineLen(widths[..])
  {
    total := 0;
    for i := 0 to widths.Length
      invariant total == Sum(widths[..i])
    {
      total := total + widths[i];
      assert widths[..i + 1][..i] == widths[..i];
    }
    assert widths[..widths.Length] == widths[..];
    if widths.Length > 1 {
      total := total + widths.Length - 1;
    }
  }

  // ---- Fitting ----

  predicate IsMoney(t: Table, c: nat) {
    c < |t.numeric| && t.numeric[c]
  }

  function CellLen(row: seq<Bytes>, c: nat): nat {
    if c < |row| then |row[c]| else 0
  }

  /** The widest text of column c, among its heading and the first n rows. */
  function Natural(t: Table, c: nat, n: nat): (w: nat)
    requires c < |t.headers| && n <= |t.rows|
    ensures |t.headers[c]| <= w && forall r | 0 <= r < n :: CellLen(t.rows[r], c) <= w
    ensures w == |t.headers[c]| || exists r :: 0 <= r < n && CellLen(t.rows[r], c) == w
  {
    if n == 0 then |t.headers[c]|
    else
      var w := Natural(t, c, n - 1);
      if CellLen(t.rows[n - 1], c) > w then CellLen(t.rows[n - 1], c) else w
  }

  function Capped(t: Table, c: nat): nat
    requires c < |t.headers|
  {
    var w := Natural(t, c, |t.rows|);
    if w > 44 then 44 else w
  }

  lemma NaturalGrows(t: Table, r: nat)
    requires r < |t.rows|
    ensures forall c | 0 <= c < |t.headers| ::
              Natural(t, c, r + 1) == if CellLen(t.rows[r], c) > Natural(t, c, r) then CellLen(t.rows[r], c) else Natural(t, c, r)
  {
  }

  lemma NaturalOfHeadings(t: Table)
    ensures forall c | 0 <= c < |t.headers| :: Natural(t, c, 0) == |t.headers[c]|
  {
  }

  /** Widens the columns to the cells of row r. */
  method Widen(t: Table, widths: array<nat>, r: nat)
    requires r < |t.rows| && widths.Length == |t.headers|
    requires forall k | 0 <= k < widths.Length :: widths[k] == Natural(t, k, r)
    modifies widths
    ensures forall k | 0 <= k < widths.Length :: widths[k] == Natural(t, k, r + 1)
  {
    hide Natural;
    var row := t.rows[r];
    NaturalGrows(t, r);
    for c := 0 to |row|
      invariant forall k | 0 <= k < widths.Length :: widths[k] == if k < c then Natural(t, k, r + 1) else Natural(t, k, r)
    {
      if c < widths.Length && |row[c]| > widths[c] {
        widths[c] := |row[c]|;
      }
    }
  }

  /** Cuts every column to the cap. */
  method Cap(t: Table, widths: array<nat>)
    requires widths.Length == |t.headers|
    requires forall k | 0 <= k < widths.Length :: widths[k] == Natural(t, k, |t.rows|)
    modifies widths
    ensures forall k | 0 <= k < widths.Length :: widths[k] == Capped(t, k)
  {
    hide Natural;
    for c := 0 to widths.Length
      invariant forall k | 0 <= k < c :: widths[k] == Capped(t, k)
      invariant forall k | c <= k < widths.Length :: widths[k] == Natural(t, k, |t.rows|)
    {
      if widths[c] > WIDEST {
        widths[c] := WIDEST;
      }
    }
  }

  /** The widths before shrinking. */
  method NaturalWidths(t: Table) returns (widths: array<nat>)
    ensures fresh(widths) && widths.Length == |t.headers|
    ensures forall c | 0 <= c < widths.Length :: widths[c] == Capped(t, c)
  {
    hide Natural, Capped;
    widths := new nat[|t.headers|];
    NaturalOfHeadings(t);
    for c := 0 to widths.Length
      invariant forall k | 0 <= k < c :: widths[k] == |t.headers[k]|
    {
      widths[c] := |t.headers[c]|;
    }
    for r := 0 to |t.rows|
      invariant forall k | 0 <= k < widths.Length :: widths[k] == Natural(t, k, r)
    {
      Widen(t, widths, r);
    }
    Cap(t, widths);
  }

  /** The first of the widest columns that may shrink, or nothing if all such columns are empty. */
  method FindVictim(t: Table, widths: array<nat>) returns (victim: int)
    ensures victim == -1 ==> forall c | 0 <= c < widths.Length && !IsMoney(t, c) :: widths[c] == 0
    ensures victim != -1 ==>
      && 0 <= victim < widths.Length && !IsMoney(t, victim)
      && (forall c | 0 <= c < widths.Length && !IsMoney(t, c) :: widths[c] <= widths[victim])
      && (forall c | 0 <= c < victim && !IsMoney(t, c) :: widths[c] < widths[victim])
  {
    victim := -1;
    var best := 0;
    for c := 0 to widths.Length
      invariant victim == -1 ==> best == 0
      invariant victim != -1 ==> 0 <= victim < c && !IsMoney(t, victim) && best == widths[victim]
      invariant forall k | 0 <= k < c && !IsMoney(t, k) :: widths[k] <= best
      invariant forall k | 0 <= k < victim && !IsMoney(t, k) :: widths[k] < best
    {
      if c < |t.numeric| && t.numeric[c] {
        continue;
      }
      if widths[c] > best {
        best := widths[c];
        victim := c;
      }
    }
  }

  /**
   * Widths for a budget. Money columns keep theirs; the rest give way only while
   * the row is too long, from the widest down, and none below six.
   */
  ghost predicate Fitted(t: Table, budget: int, ws: seq<nat>) {
    && |ws| == |t.headers|
    && (forall c | 0 <= c < |ws| :: ws[c] <= Capped(t, c))
    && (forall c | 0 <= c < |ws| && IsMoney(t, c) :: ws[c] == Capped(t, c))
    // within the budget, or nothing left to give
    && (LineLen(ws) <= budget || forall c | 0 <= c < |ws| && !IsMoney(t, c) :: ws[c] <= 6)
    && Levelled(t, budget, ws)
  }

  /** Each shrunk column ended among the widest, no narrower than six, and nothing shrank past the budget. */
  ghost predicate Levelled(t: Table, budget: int, ws: seq<nat>) {
    forall c | 0 <= c < |ws| && c < |t.headers| && ws[c] < Capped(t, c) ::
      && 6 <= ws[c] && LineLen(ws) >= budget
      && forall d | 0 <= d < |ws| && !IsMoney(t, d) :: ws[d] <= ws[c] + 1
  }

  lemma {:induction false} SumOfUpdate(ws: seq<nat>, c: nat, w: nat)
    requires c < |ws|
    ensures Sum(ws[c := w]) == Sum(ws) - ws[c] + w
  {
    var n := |ws| - 1;
    if c < n {
      SumOfUpdate(ws[..n], c, w);
      assert ws[c := w][..n] == ws[..n][c := w];
    } else {
      assert ws[c := w][..n] == ws[..n];
    }
  }

  lemma {:induction false} SumGrows(ws: seq<nat>, vs: seq<nat>)
    requires |ws| == |vs| && forall c | 0 <= c < |ws| :: ws[c] <= vs[c]
    ensures Sum(ws) <= Sum(vs)
    ensures Sum(ws) == Sum(vs) ==> ws == vs
  {
    var n := |ws| - 1;
    if ws != [] {
      SumGrows(ws[..n], vs[..n]);
      assert ws == ws[..n] + [ws[n]] && vs == vs[..n] + [vs[n]];
    }
  }

  /** A row that fits is not shrunk: every column keeps its longest text, or 44 characters of it. */
  lemma RoomyColumnsKeepTexts(t: Table, budget: int, ws: seq<nat>, r: nat, c: nat)
    requires Fitted(t, budget, ws) && c < |ws| && r < |t.rows|
    requires IsMoney(t, c) || LineLen(seq(|t.headers|, k requires 0 <= k < |t.headers| => Capped(t, k))) <= budget
    requires CellLen(t.rows[r], c) <= 44
    ensures CellLen(t.rows[r], c) <= ws[c]
  {
    var full := seq(|t.headers|, k requires 0 <= k < |t.headers| => Capped(t, k));
    assert CellLen(t.rows[r], c) <= Natural(t, c, |t.rows|);
    SumGrows(ws, full);
  }

  method FitWidths(t: Table, budget: int) returns (widths: array<nat>)
    ensures Fitted(t, budget, widths[..])
  {
    widths := NaturalWidths(t);
    hide LineLen, Levelled, Sum, Capped;
    assert Levelled(t, budget, widths[..]) by { StartsLevelled(t, budget, widths[..]); }
    var len := ComputeLineLen(widths);
    while len > budget
      invariant widths.Length == |t.headers| && len == LineLen(widths[..])
      invariant forall c | 0 <= c < widths.Length :: widths[c] <= Capped(t, c)
      invariant forall c | 0 <= c < widths.Length && IsMoney(t, c) :: widths[c] == Capped(t, c)
      invariant Levelled(t, budget, widths[..])
      decreases Sum(widths[..])
    {
      var victim := FindVictim(t, widths);
      if victim == -1 || widths[victim] <= NARROWEST {
        break;
      }
      ghost var ws := widths[..];
      widths[victim] := widths[victim] - 1;
      assert widths[..] == ws[victim := ws[victim] - 1];
      StillLevelled(t, budget, ws, victim);
      len := ComputeLineLen(widths);
    }
  }

  lemma StartsLevelled(t: Table, budget: int, ws: seq<nat>)
    requires |ws| == |t.headers| && forall c | 0 <= c < |ws| :: ws[c] == Capped(t, c)
    ensures Levelled(t, budget, ws)
  {
  }

  /** Narrowing a widest column by one keeps the columns levelled and brings the end nearer. */
  lemma StillLevelled(t: Table, budget: int, ws: seq<nat>, victim: nat)
    requires |ws| == |t.headers| && victim < |ws| && !IsMoney(t, victim) && ws[victim] > NARROWEST
    requires forall c | 0 <= c < |ws| && IsMoney(t, c) :: ws[c] == Capped(t, c)
    requires forall c | 0 <= c < |ws| && !IsMoney(t, c) :: ws[c] <= ws[victim]
    requires LineLen(ws) > budget && Levelled(t, budget, ws)
    ensures Levelled(t, budget, ws[victim := ws[victim] - 1])
    ensures Sum(ws[victim := ws[victim] - 1]) < Sum(ws)
  {
    hide Capped, Natural, Sum;
    SumOfUpdate(ws, victim, ws[victim] - 1);
  }

  // ---- Rows ----

  function CellFit(s: Bytes, w: nat, right: bool): Bytes {
    var text := if |s| <= w then s else if w <= 2 then s[..w] else s[..w - 2] + [DOT, DOT];
    if right then Repeat(SPACE, w - |text|) + text else text + Repeat(SPACE, w - |text|)
  }

  /**
   * A cell fills its width exactly. A text that fits is whole, against the side
   * it is aligned to; one too long keeps its beginning, and two dots mark the cut
   * where the column has room for them.
   */
  lemma CellFillsWidth(s: Bytes, w: nat, right: bool)
    ensures |CellFit(s, w, right)| == w
    ensures |s| <= w ==>
      var start := if right then w - |s| else 0;
      && CellFit(s, w, right)[start..start + |s|] == s
      && forall i | 0 <= i < w && !(start <= i < start + |s|) :: CellFit(s, w, right)[i] == SPACE
    ensures |s| > w ==>
      if w <= 2 then CellFit(s, w, right) == s[..w]
      else CellFit(s, w, right)[..w - 2] == s[..w - 2] && CellFit(s, w, right)[w - 2..] == [DOT, DOT]
  {
    var fitted := CellFit(s, w, right);
    if |s| > w {
      var text := if w <= 2 then s[..w] else s[..w - 2] + [DOT, DOT];
      assert fitted == text by {
        assert Repeat(SPACE, 0) + text == text && text + Repeat(SPACE, 0) == text;
      }
    }
  }

  /** Where column c begins in a row. */
  function StartOf(ws: seq<nat>, c: nat): nat
    requires c <= |ws|
  {
    Sum(ws[..c]) + c
  }

  lemma {:induction false} JoinedLength(parts: seq<Bytes>, ws: seq<nat>)
    requires |parts| == |ws| && forall k | 0 <= k < |ws| :: |parts[k]| == ws[k]
    ensures |Join(parts, SPACE)| == LineLen(ws)
  {
    if |ws| > 1 {
      JoinFromTheEnd(parts, SPACE);
      JoinedLength(parts[..|ws| - 1], ws[..|ws| - 1]);
    } else if |ws| == 1 {
      assert Sum(ws) == Sum(ws[..0]) + ws[0];
    }
  }

  predicate InPlace(row: Bytes, at: nat, part: Bytes, last: bool) {
    && at + |part| <= |row| && row[at..at + |part|] == part
    && (!last ==> at + |part| < |row| && row[at + |part|] == SPACE)
  }

  lemma StaysInPlace(front: Bytes, at: nat, part: Bytes, last: bool, next: Bytes)
    requires InPlace(front, at, part, last) && (last ==> at + |part| == |front|)
    ensures InPlace(front + [SPACE] + next, at, part, false)
  {
    assert (front + [SPACE] + next)[at..at + |part|] == front[at..at + |part|];
  }

  /** Joined parts stand at their columns' places, a space after each but the last. */
  lemma {:induction false} PartsInPlace(parts: seq<Bytes>, ws: seq<nat>, c: nat)
    requires |parts| == |ws| && forall k | 0 <= k < |ws| :: |parts[k]| == ws[k]
    requires c < |ws|
    ensures InPlace(Join(parts, SPACE), StartOf(ws, c), parts[c], c + 1 == |ws|)
    ensures c + 1 == |ws| ==> StartOf(ws, c) + ws[c] == |Join(parts, SPACE)|
  {
    hide InPlace, Join;
    var n := |ws| - 1;
    JoinedLength(parts, ws);
    if n > 0 { JoinFromTheEnd(parts, SPACE); }
    JoinGrows(parts[c], [], SPACE);
    assert [parts[c]] + [] == [parts[c]];
    if c == n {
      if n > 0 {
        JoinedLength(parts[..n], ws[..n]);
        LastInPlace(Join(parts[..n], SPACE) + [SPACE], parts[n]);
      } else {
        LastInPlace([], parts[0]);
        assert parts == [parts[0]] && [] + parts[0] == parts[0] && ws[..0] == [];
      }
    } else {
      PartsInPlace(parts[..n], ws[..n], c);
      JoinedLength(parts[..n], ws[..n]);
      assert ws[..n][..c] == ws[..c];
      StaysInPlace(Join(parts[..n], SPACE), StartOf(ws, c), parts[c], c + 1 == n, parts[n]);
    }
  }

  lemma LastInPlace(front: Bytes, part: Bytes)
    ensures InPlace(front + part, |front|, part, true)
  {
  }

  function CellOf(cells: seq<Bytes>, c: nat): Bytes {
    if c < |cells| then cells[c] else []
  }

  method FormatRow(cells: seq<Bytes>, widths: seq<nat>, numeric: seq<bool>) returns (row: Bytes)
    ensures |row| == LineLen(widths)
    ensures forall c | 0 <= c < |widths| ::
              InPlace(row, StartOf(widths, c), CellFit(CellOf(cells, c), widths[c], c < |numeric| && numeric[c]), c + 1 == |widths|)
  {
    hide StartOf, LineLen, CellFit, InPlace;
    var parts: seq<Bytes> := [];
    for c := 0 to |widths|
      invariant |parts| == c
      invariant forall k | 0 <= k < c ::
                  && |parts[k]| == widths[k]
                  && parts[k] == CellFit(CellOf(cells, k), widths[k], k < |numeric| && numeric[k])
    {
      var cell := [];
      if c < |cells| {
        cell := cells[c];
      }
      var right := c < |numeric| && numeric[c];
      CellFillsWidth(cell, widths[c], right);
      parts := parts + [CellFit(cell, widths[c], right)];
    }
    row := Join(parts, SPACE);
    JoinedLength(parts, widths);
    forall c | 0 <= c < |widths| ensures InPlace(row, StartOf(widths, c), parts[c], c + 1 == |widths|) {
      PartsInPlace(parts, widths, c);
    }
  }
}
