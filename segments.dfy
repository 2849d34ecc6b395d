/**
 * Depth-aware comma splitting, as the string-segment parsers do it: a
 * character buffer, a nesting counter, and a cut at every comma read while
 * the counter is zero. Brackets go into the buffer; the comma at a cut does
 * not. Which brackets move the counter depends on the caller: braces alone,
 * or braces and square brackets together in one counter. The counter may go
 * negative on a stray closer, and no comma is a cut while it is.
 */
module Segments {
  import opened Text

  /** Which brackets move the one nesting counter. */
  datatype Nesting = Braces | BracesAndBrackets

  predicate Opens(c: char, n: Nesting) {
    c == '{' || (n == BracesAndBrackets && c == '[')
  }

  predicate Closes(c: char, n: Nesting) {
    c == '}' || (n == BracesAndBrackets && c == ']')
  }

  /** The counter after reading `s[..i]`. */
  function DepthAt(s: string, i: nat, n: Nesting): int
    requires i <= |s|
  {
    if i == 0 then 0
    else DepthAt(s, i - 1, n) + (if Opens(s[i - 1], n) then 1 else if Closes(s[i - 1], n) then -1 else 0)
  }

  /** The comma at `i` is read at depth zero, so the text is cut there. */
  predicate CutAt(s: string, i: nat, n: Nesting)
    requires i < |s|
  {
    s[i] == ',' && DepthAt(s, i, n) == 0
  }

  /** The number of cuts in `s[..i]`. */
  function Cuts(s: string, i: nat, n: Nesting): (k: nat)
    requires i <= |s|
    ensures k <= i
  {
    if i == 0 then 0 else Cuts(s, i - 1, n) + (if CutAt(s, i - 1, n) then 1 else 0)
  }

  /**
   * The pieces the loop still emits from position `i`, with `cur` in the
   * buffer and the counter at `depth`: the buffer is emitted at each cut
   * and once more at the end.
   */
  function PiecesFrom(s: string, i: nat, cur: string, depth: int, n: Nesting): (r: seq<string>)
    requires i <= |s|
    ensures |r| >= 1
    ensures forall k :: 0 <= k < |r| ==> |r[k]| <= |cur| + |s| - i
    decreases |s| - i
  {
    if i == |s| then [cur]
    else if Opens(s[i], n) then PiecesFrom(s, i + 1, cur + [s[i]], depth + 1, n)
    else if Closes(s[i], n) then PiecesFrom(s, i + 1, cur + [s[i]], depth - 1, n)
    else if s[i] == ',' && depth == 0 then [cur] + PiecesFrom(s, i + 1, "", depth, n)
    else PiecesFrom(s, i + 1, cur + [s[i]], depth, n)
  }

  /** The counter after reading `c` at depth `depth`. */
  function NextDepth(c: char, depth: int, n: Nesting): int {
    if Opens(c, n) then depth + 1 else if Closes(c, n) then depth - 1 else depth
  }

  /** One character of the scan: a cut emits the buffer and empties it, any other character joins it. */
  lemma PiecesFromStep(s: string, i: nat, cur: string, depth: int, n: Nesting)
    requires i < |s|
    ensures s[i] == ',' && depth == 0 ==> PiecesFrom(s, i, cur, depth, n) == [cur] + PiecesFrom(s, i + 1, "", depth, n)
    ensures !(s[i] == ',' && depth == 0) ==> PiecesFrom(s, i, cur, depth, n) == PiecesFrom(s, i + 1, cur + [s[i]], NextDepth(s[i], depth, n), n)
  {
  }

  /** The raw pieces of `s`: the text between consecutive cuts. */
  function Pieces(s: string, n: Nesting): (r: seq<string>)
    ensures |r| >= 1
    ensures forall k :: 0 <= k < |r| ==> |r[k]| <= |s|
  {
    PiecesFrom(s, 0, "", 0, n)
  }

  /** The pieces are the text between the cuts: joined back with commas they give the text. */
  lemma {:induction false} PiecesFromJoin(s: string, i: nat, cur: string, depth: int, n: Nesting)
    requires i <= |s|
    ensures Join(PiecesFrom(s, i, cur, depth, n), ',') == cur + s[i..]
    decreases |s| - i
  {
    if i == |s| {
      assert cur + s[i..] == cur;
    } else {
      var c := s[i];
      assert s[i..] == [c] + s[i + 1..];
      if Opens(c, n) {
        PiecesFromJoin(s, i + 1, cur + [c], depth + 1, n);
      } else if Closes(c, n) {
        PiecesFromJoin(s, i + 1, cur + [c], depth - 1, n);
      } else if c == ',' && depth == 0 {
        var rest := PiecesFrom(s, i + 1, "", depth, n);
        PiecesFromJoin(s, i + 1, "", depth, n);
        assert ([cur] + rest)[1..] == rest;
        assert Join([cur] + rest, ',') == cur + [','] + Join(rest, ',');
        assert "" + s[i + 1..] == s[i + 1..];
      } else {
        PiecesFromJoin(s, i + 1, cur + [c], depth, n);
      }
      assert cur + [c] + s[i + 1..] == cur + s[i..];
    }
  }

  lemma PiecesJoin(s: string, n: Nesting)
    ensures Join(Pieces(s, n), ',') == s
  {
    PiecesFromJoin(s, 0, "", 0, n);
  }

  /** From position `i` with the counter the prefix leaves, one piece more than the cuts still ahead. */
  lemma {:induction false} PiecesFromCount(s: string, i: nat, cur: string, n: Nesting)
    requires i <= |s|
    ensures |PiecesFrom(s, i, cur, DepthAt(s, i, n), n)| == 1 + Cuts(s, |s|, n) - Cuts(s, i, n)
    decreases |s| - i
  {
    if i < |s| {
      var c, d := s[i], DepthAt(s, i, n);
      assert DepthAt(s, i + 1, n) == d + (if Opens(c, n) then 1 else if Closes(c, n) then -1 else 0);
      assert Cuts(s, i + 1, n) == Cuts(s, i, n) + (if CutAt(s, i, n) then 1 else 0);
      if Opens(c, n) {
        PiecesFromCount(s, i + 1, cur + [c], n);
      } else if Closes(c, n) {
        PiecesFromCount(s, i + 1, cur + [c], n);
      } else if c == ',' && d == 0 {
        PiecesFromCount(s, i + 1, "", n);
      } else {
        PiecesFromCount(s, i + 1, cur + [c], n);
      }
    }
  }

  /** There is exactly one piece more than there are cuts. */
  lemma PiecesCount(s: string, n: Nesting)
    ensures |Pieces(s, n)| == 1 + Cuts(s, |s|, n)
  {
    PiecesFromCount(s, 0, "", n);
  }

  /** Every piece stripped, as the segment loops emit them. */
  function StripAll(ps: seq<string>): (r: seq<string>)
    ensures |r| == |ps|
    ensures forall k :: 0 <= k < |ps| ==> r[k] == Strip(ps[k])
  {
    if ps == [] then [] else [Strip(ps[0])] + StripAll(ps[1..])
  }

  lemma StripAllCons(x: string, ps: seq<string>)
    ensures StripAll([x] + ps) == [Strip(x)] + StripAll(ps)
  {
    assert ([x] + ps)[1..] == ps;
  }

  /** The non-empty members, in order. */
  function NonEmpty(ps: seq<string>): (r: seq<string>)
    ensures |r| <= |ps|
    ensures forall k :: 0 <= k < |r| ==> r[k] != [] && r[k] in ps
  {
    if ps == [] then []
    else
      var rest := NonEmpty(ps[1..]);
      assert forall x :: x in rest ==> x in ps;
      (if ps[0] == [] then [] else [ps[0]]) + rest
  }

  lemma NonEmptyCons(x: string, ps: seq<string>)
    ensures NonEmpty([x] + ps) == (if x == [] then [] else [x]) + NonEmpty(ps)
  {
    assert ([x] + ps)[1..] == ps;
  }

  /** The number of non-empty members. */
  function Filled(ps: seq<string>): nat {
    if ps == [] then 0 else (if ps[0] == [] then 0 else 1) + Filled(ps[1..])
  }

  lemma {:induction false} NonEmptyCount(ps: seq<string>)
    ensures |NonEmpty(ps)| == Filled(ps)
  {
    if ps != [] {
      NonEmptyCount(ps[1..]);
    }
  }
}
