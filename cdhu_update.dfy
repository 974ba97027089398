/**
 * The bulletin upload page (pages/CDHUUpdate.tsx): the text of each PDF page
 * is cut into segments at the service codes, the last price-looking number of
 * each segment is recorded for the segment's code, a "BOLETIM n" marker on the
 * first pages names the version, and the collected prices are stored as the
 * catalog's override record.
 *
 * The three regular expressions the page uses are written out as matchers:
 *   code     `\d{2}\.\d{2}\.\d{3}`
 *   price    `\d{1,3}(?:\.\d{3})*,\d{2}`   (global: every non-overlapping match)
 *   version  `BOLETIM\s*(\d+)` with the `i` flag
 * `\d` is the ASCII digits, as in a JavaScript pattern without the `u` flag.
 */
module CdhuUpdate {
  import opened Types
  import opened JsText
  import Catalog

  // ---------------------------------------------------------------- service codes

  /** The code pattern matches `s` at `i`. */
  predicate CodeAt(s: string, i: int)
  {
    && 0 <= i && i + 9 <= |s|
    && IsDigit(s[i]) && IsDigit(s[i + 1]) && s[i + 2] == '.'
    && IsDigit(s[i + 3]) && IsDigit(s[i + 4]) && s[i + 5] == '.'
    && IsDigit(s[i + 6]) && IsDigit(s[i + 7]) && IsDigit(s[i + 8])
  }

  /** A match is exactly a catalog-shaped code. */
  lemma CodeAtIsCode(s: string, i: nat)
    requires i + 9 <= |s|
    ensures CodeAt(s, i) <==> Catalog.IsCode(s[i..i + 9])
  {
  }

  /** A match inside a slice is a match in the whole text. */
  lemma CodeAtSlice(s: string, a: nat, c: nat, j: nat)
    requires a <= c <= |s|
    ensures CodeAt(s[a..c], j) ==> CodeAt(s, a + j)
  {
  }

  /** Index of the leftmost code match at or after `from`, as `line.match(codeRegex)` finds it. */
  function FirstCodeFrom(s: string, from: nat): (r: Option<nat>)
    ensures r.Some? ==> from <= r.value && CodeAt(s, r.value)
    ensures r.Some? ==> forall j | from <= j < r.value :: !CodeAt(s, j)
    ensures r.None? ==> forall j | from <= j :: !CodeAt(s, j)
    decreases |s| - from
  {
    if from + 9 > |s| then None
    else if CodeAt(s, from) then Some(from)
    else FirstCodeFrom(s, from + 1)
  }

  /** The code a segment is filed under: the text of its first code match. */
  function SegmentCode(line: string): (r: Option<string>)
    ensures r.Some? ==> Catalog.IsCode(r.value)
    ensures r.None? <==> forall j :: !CodeAt(line, j)
  {
    match FirstCodeFrom(line, 0)
    case None => None
    case Some(i) => CodeAtIsCode(line, i); Some(line[i..i + 9])
  }

  /**
   * `text.split(/(?=\d{2}\.\d{2}\.\d{3})/)`, following the splitting loop of
   * `RegExp.prototype[@@split]`: `p` is the start of the current piece and
   * `q` the position tried next. The look-ahead match is empty, so a match
   * at the start of the current piece does not cut it.
   */
  function SplitFrom(s: string, p: nat, q: nat): seq<string>
    requires p < q <= |s|
    decreases |s| - q
  {
    if q == |s| then [s[p..]]
    else if CodeAt(s, q) then [s[p..q]] + SplitFrom(s, q, q + 1)
    else SplitFrom(s, p, q + 1)
  }

  /** The segments of a page text. An empty text gives one empty segment. */
  function SplitAtCodes(s: string): (segs: seq<string>)
    ensures |segs| >= 1
  {
    if |s| == 0 then [s] else SplitAtCodes1(s)
  }

  function SplitAtCodes1(s: string): (segs: seq<string>)
    requires |s| > 0
    ensures |segs| >= 1
  {
    SplitFromLength(s, 0, 1);
    SplitFrom(s, 0, 1)
  }

  lemma {:induction false} SplitFromLength(s: string, p: nat, q: nat)
    requires p < q <= |s|
    ensures |SplitFrom(s, p, q)| >= 1
    decreases |s| - q
  {
    if q < |s| {
      if CodeAt(s, q) { SplitFromLength(s, q, q + 1); } else { SplitFromLength(s, p, q + 1); }
    }
  }

  /** The positions at or after `from` where a code occurs, in increasing order. */
  function CodeCuts(s: string, from: nat): seq<nat>
    decreases |s| - from
  {
    if from >= |s| then []
    else
      var rest := CodeCuts(s, from + 1);
      if CodeAt(s, from) then [from] + rest else rest
  }

  /** The cuts are exactly the code occurrences at or after `from`, in increasing order. */
  lemma {:induction false} CodeCutsSpec(s: string, from: nat)
    ensures forall k | 0 <= k < |CodeCuts(s, from)| :: from <= CodeCuts(s, from)[k] < |s| && CodeAt(s, CodeCuts(s, from)[k])
    ensures forall k, l | 0 <= k < l < |CodeCuts(s, from)| :: CodeCuts(s, from)[k] < CodeCuts(s, from)[l]
    ensures forall q | from <= q && CodeAt(s, q) :: q in CodeCuts(s, from)
    decreases |s| - from
  {
    if from < |s| {
      CodeCutsSpec(s, from + 1);
      var rest := CodeCuts(s, from + 1);
      if CodeAt(s, from) {
        var cuts := [from] + rest;
        assert forall k | 1 <= k < |cuts| :: cuts[k] == rest[k - 1];
      }
    }
  }

  /** The piece boundaries: the start, every code occurrence after the start, the end. */
  function Bounds(s: string): (b: seq<nat>)
    ensures |b| >= 2 && b[0] == 0 && b[|b| - 1] == |s|
    ensures Ordered(b, |s|)
  {
    var cuts := CodeCuts(s, 1);
    CodeCutsSpec(s, 1);
    OrderedFrame(0, cuts, |s|);
    [0] + cuts + [|s|]
  }

  /** A start, increasing cuts after it and an end after them are in order. */
  lemma OrderedFrame(p: nat, cuts: seq<nat>, n: nat)
    requires p <= n
    requires forall k | 0 <= k < |cuts| :: p <= cuts[k] <= n
    requires forall k, l | 0 <= k < l < |cuts| :: cuts[k] < cuts[l]
    ensures Ordered([p] + cuts + [n], n)
  {
    var b := [p] + cuts + [n];
    forall k, l | 0 <= k <= l < |b| ensures b[k] <= b[l] <= n {
      if 0 < k && l < |b| - 1 {
        assert b[k] == cuts[k - 1] && b[l] == cuts[l - 1];
        if k < l { assert cuts[k - 1] < cuts[l - 1]; }
      } else if 0 < l < |b| - 1 {
        assert b[l] == cuts[l - 1];
      } else if 0 < k < |b| - 1 {
        assert b[k] == cuts[k - 1];
      }
    }
  }

  /** Boundaries in order, none past the end of a text of length `n`. */
  predicate Ordered(b: seq<nat>, n: nat)
  {
    forall k, l | 0 <= k <= l < |b| :: b[k] <= b[l] <= n
  }

  /** The text between consecutive boundaries (nothing past a boundary out of order). */
  function Pieces(s: string, b: seq<nat>): seq<string>
  {
    if |b| < 2 || !(b[0] <= b[1] <= |s|) then [] else [s[b[0]..b[1]]] + Pieces(s, b[1..])
  }

  /** Between ordered boundaries, piece `k` runs from boundary `k` to boundary `k + 1`. */
  lemma {:induction false} PiecesIndex(s: string, b: seq<nat>)
    requires Ordered(b, |s|)
    ensures |Pieces(s, b)| == if |b| == 0 then 0 else |b| - 1
    ensures forall k | 0 <= k < |Pieces(s, b)| :: Pieces(s, b)[k] == s[b[k]..b[k + 1]]
  {
    if |b| >= 2 {
      assert b[0] <= b[1] <= |s|;
      var b' := b[1..];
      assert Ordered(b', |s|) by {
        forall k, l | 0 <= k <= l < |b'| ensures b'[k] <= b'[l] <= |s| {
          assert b'[k] == b[k + 1] && b'[l] == b[l + 1];
        }
      }
      PiecesIndex(s, b');
    }
  }

  lemma {:induction false} SplitFromPieces(s: string, p: nat, q: nat)
    requires p < q <= |s|
    ensures SplitFrom(s, p, q) == Pieces(s, [p] + CodeCuts(s, q) + [|s|])
    decreases |s| - q, 1
  {
    if q == |s| {
      var n := |s|;
      assert [p] + CodeCuts(s, q) + [n] == [p, n];
      assert Pieces(s, [p, n]) == [s[p..n]] + Pieces(s, [n]);
      assert s[p..] == s[p..n];
    } else if CodeAt(s, q) {
      SplitFromPiecesAtCode(s, p, q);
    } else {
      SplitFromPieces(s, p, q + 1);
      assert CodeCuts(s, q) == CodeCuts(s, q + 1);
    }
  }

  lemma {:induction false} SplitFromPiecesAtCode(s: string, p: nat, q: nat)
    requires p < q < |s| && CodeAt(s, q)
    ensures SplitFrom(s, p, q) == Pieces(s, [p] + CodeCuts(s, q) + [|s|])
    decreases |s| - q, 0
  {
    var n := |s|;
    var b': seq<nat> := [q] + CodeCuts(s, q + 1) + [n];
    assert SplitFrom(s, p, q) == [s[p..q]] + Pieces(s, b') by {
      SplitFromPieces(s, q, q + 1);
    }
    assert [p] + CodeCuts(s, q) + [n] == [p] + b' by {
      CodeCutsAt(s, q);
    }
    PiecesCons(s, p, b');
  }

  /** The cuts from a code occurrence start with it. */
  lemma CodeCutsAt(s: string, q: nat)
    requires q < |s| && CodeAt(s, q)
    ensures CodeCuts(s, q) == [q] + CodeCuts(s, q + 1)
  {
  }

  /** A boundary in front of the others adds the piece up to the first of them. */
  lemma PiecesCons(s: string, p: nat, b: seq<nat>)
    requires |b| >= 1 && p <= b[0] <= |s|
    ensures Pieces(s, [p] + b) == [s[p..b[0]]] + Pieces(s, b)
  {
    assert ([p] + b)[1..] == b;
  }

  /** Joining pieces gives back the text between the first and last boundary. */
  lemma {:induction false} JoinPieces(s: string, b: seq<nat>)
    requires |b| >= 1 && Ordered(b, |s|)
    ensures Join(Pieces(s, b), "") == s[b[0]..b[|b| - 1]]
  {
    if |b| == 2 {
    } else if |b| > 2 {
      JoinPieces(s, b[1..]);
      assert Pieces(s, b)[1..] == Pieces(s, b[1..]);
      assert s[b[0]..b[|b| - 1]] == s[b[0]..b[1]] + s[b[1]..b[|b| - 1]];
    }
  }

  /**
   * The split is the cut of the text at its boundaries: the segments join
   * back to the text, every segment but the first starts at a code
   * occurrence, and no code occurs strictly inside a segment.
   */
  lemma SplitIsPieces(s: string)
    ensures SplitAtCodes(s) == Pieces(s, Bounds(s))
  {
    if |s| > 0 {
      SplitFromPieces(s, 0, 1);
    }
  }

  /** Segment `k` is the text between boundaries `k` and `k + 1`. */
  lemma SegmentIsSlice(s: string, k: nat)
    requires k < |SplitAtCodes(s)|
    ensures k < |Bounds(s)| - 1
    ensures SplitAtCodes(s)[k] == s[Bounds(s)[k]..Bounds(s)[k + 1]]
  {
    SplitIsPieces(s);
    PiecesIndex(s, Bounds(s));
  }

  lemma SplitShape(s: string)
    ensures SplitAtCodes(s) == Pieces(s, Bounds(s))
    ensures Join(SplitAtCodes(s), "") == s
    ensures forall k | 1 <= k < |Bounds(s)| - 1 :: CodeAt(s, Bounds(s)[k])
    ensures forall k, q | 0 <= k < |Bounds(s)| - 1 && Bounds(s)[k] < q < Bounds(s)[k + 1] :: !CodeAt(s, q)
  {
    var b := Bounds(s);
    SplitIsPieces(s);
    JoinPieces(s, b);
    forall k | 1 <= k < |b| - 1 ensures CodeAt(s, b[k]) {
      BoundIsCut(s, k);
    }
    forall k, q | 0 <= k < |b| - 1 && b[k] < q < b[k + 1] ensures !CodeAt(s, q) {
      NoCodeInside(s, k, q);
    }
  }

  lemma BoundIsCut(s: string, k: nat)
    requires 1 <= k < |Bounds(s)| - 1
    ensures Bounds(s)[k] == CodeCuts(s, 1)[k - 1]
    ensures CodeAt(s, Bounds(s)[k])
  {
    assert Bounds(s) == [0] + CodeCuts(s, 1) + [|s|];
    CodeCutsSpec(s, 1);
  }

  lemma NoCodeInside(s: string, k: nat, q: nat)
    requires k < |Bounds(s)| - 1 && Bounds(s)[k] < q < Bounds(s)[k + 1]
    ensures !CodeAt(s, q)
  {
    var b := Bounds(s);
    var cuts := CodeCuts(s, 1);
    CodeCutsSpec(s, 1);
    assert b == [0] + cuts + [|s|];
    forall m | 0 <= m < |cuts| ensures cuts[m] != q {
      assert cuts[m] == b[m + 1];
      if m + 1 <= k {
        assert b[m + 1] <= b[k];
      } else {
        assert b[k + 1] <= b[m + 1];
      }
    }
    assert q !in cuts;
  }

  /** A segment's code, when it has one, is the code it starts with. */
  lemma SegmentCodeAtStart(s: string, k: nat)
    requires k < |SplitAtCodes(s)|
    ensures var seg := SplitAtCodes(s)[k];
      FirstCodeFrom(seg, 0).Some? ==> FirstCodeFrom(seg, 0).value == 0 && SegmentCode(seg) == Some(seg[..9])
  {
    SegmentIsSlice(s, k);
    var b := Bounds(s);
    var seg := SplitAtCodes(s)[k];
    var first := FirstCodeFrom(seg, 0);
    if first.Some? && first.value > 0 {
      var j := first.value;
      CodeAtSlice(s, b[k], b[k + 1], j);
      NoCodeInside(s, k, b[k] + j);
      assert false;
    }
  }

  /** A code at `a` is a code at the start of any slice from `a` long enough to hold it. */
  lemma CodeAtSliceStart(s: string, a: nat, c: nat)
    requires CodeAt(s, a) && a + 9 <= c <= |s|
    ensures CodeAt(s[a..c], 0)
  {
    var t := s[a..c];
    assert forall j | 0 <= j < 9 :: t[j] == s[a + j];
  }

  /** Every segment after the first that is long enough to hold a code is filed under the code it starts with. */
  lemma LaterSegmentsStartWithCode(s: string, k: nat)
    requires 1 <= k < |SplitAtCodes(s)| && |SplitAtCodes(s)[k]| >= 9
    ensures SegmentCode(SplitAtCodes(s)[k]) == Some(SplitAtCodes(s)[k][..9])
  {
    SegmentIsSlice(s, k);
    BoundIsCut(s, k);
    var seg := SplitAtCodes(s)[k];
    var b := Bounds(s);
    CodeAtSliceStart(s, b[k], b[k + 1]);
    assert CodeAt(seg, 0);
    assert FirstCodeFrom(seg, 0).Some?;
    SegmentCodeAtStart(s, k);
  }

  // ---------------------------------------------------------------- prices

  /** Number of consecutive digits starting at `i`. */
  function DigitRun(s: string, i: nat): (n: nat)
    ensures i + n <= |s| || n == 0
    ensures forall j | i <= j < i + n :: IsDigit(s[j])
    ensures i + n < |s| ==> !IsDigit(s[i + n])
    decreases |s| - i
  {
    if i < |s| && IsDigit(s[i]) then 1 + DigitRun(s, i + 1) else 0
  }

  /** `\d{k}` matches at `i`. */
  predicate DigitsAt(s: string, i: nat, k: nat)
  {
    i + k <= |s| && forall j | i <= j < i + k :: IsDigit(s[j])
  }

  /** `\.\d{3}` matches at `i`. */
  predicate GroupAt(s: string, i: nat)
  {
    i + 4 <= |s| && s[i] == '.' && IsDigit(s[i + 1]) && IsDigit(s[i + 2]) && IsDigit(s[i + 3])
  }

  /** How often the greedy `(?:\.\d{3})*` repeats from `i`. */
  function MaxGroups(s: string, i: nat): (g: nat)
    ensures i + 4 * g <= |s| || g == 0
    decreases |s| - i
  {
    if GroupAt(s, i) then 1 + MaxGroups(s, i + 4) else 0
  }

  /** `,\d{2}` matches at `i`. */
  predicate CentsAt(s: string, i: nat)
  {
    i + 3 <= |s| && s[i] == ',' && IsDigit(s[i + 1]) && IsDigit(s[i + 2])
  }

  /** The repetition backs off: `g`, `g - 1`, ..., 0 groups are tried before `,\d{2}`. */
  function TryGroups(s: string, i: nat, g: nat): (r: Option<nat>)
    ensures r.Some? ==> exists h | 0 <= h <= g :: r.value == i + 4 * h + 3 && CentsAt(s, i + 4 * h)
    decreases g
  {
    if CentsAt(s, i + 4 * g) then Some(i + 4 * g + 3)
    else if g == 0 then None
    else TryGroups(s, i, g - 1)
  }

  /** `\d{1,3}` backs off: 3, then 2, then 1 leading digits are tried. */
  function TryDigits(s: string, p: nat, k: nat): (r: Option<nat>)
    ensures r.Some? ==> p + 4 <= r.value <= |s|
    decreases k
  {
    if k == 0 then None
    else if DigitsAt(s, p, k) then
      var r := TryGroups(s, p + k, MaxGroups(s, p + k));
      if r.Some? then r else TryDigits(s, p, k - 1)
    else TryDigits(s, p, k - 1)
  }

  /** End of the price match that starts exactly at `p`, if the pattern matches there. */
  function PriceMatchAt(s: string, p: nat): (r: Option<nat>)
    ensures r == PriceMatchDirect(s, p)
    ensures r.Some? ==> p + 4 <= r.value <= |s| && PriceChars(s[p..r.value])
  {
    PriceMatchNoBacktracking(s, p);
    DirectMatchChars(s, p);
    TryDigits(s, p, 3)
  }

  /** Text made of digits, `.` and `,` that starts with a digit. */
  predicate PriceChars(t: string)
  {
    |t| > 0 && IsDigit(t[0]) && forall j | 0 <= j < |t| :: IsDigit(t[j]) || t[j] == '.' || t[j] == ','
  }

  lemma DirectMatchChars(s: string, p: nat)
    ensures PriceMatchDirect(s, p).Some? ==> PriceChars(s[p..PriceMatchDirect(s, p).value])
  {
    var r := PriceMatchDirect(s, p);
    if r.Some? {
      var k := if DigitRun(s, p) < 3 then DigitRun(s, p) else 3;
      var i := p + k;
      GroupChars(s, i);
      var t := s[p..r.value];
      forall j | 0 <= j < |t| ensures IsDigit(t[j]) || t[j] == '.' || t[j] == ',' {
        assert t[j] == s[p + j];
      }
    }
  }

  /** The greedy groups consist of digits and dots. */
  lemma {:induction false} GroupChars(s: string, i: nat)
    ensures forall j | i <= j < i + 4 * MaxGroups(s, i) :: IsDigit(s[j]) || s[j] == '.'
    decreases |s| - i
  {
    if GroupAt(s, i) {
      GroupChars(s, i + 4);
    }
  }

  /**
   * The same match read without back-tracking: as many leading digits as
   * there are, up to three, then every group that follows, then the cents.
   */
  function PriceMatchDirect(s: string, p: nat): Option<nat>
  {
    DirectFrom(s, p, if DigitRun(s, p) < 3 then DigitRun(s, p) else 3)
  }

  /** The direct reading after `k` leading digits. */
  function DirectFrom(s: string, p: nat, k: nat): Option<nat>
  {
    if k > 0 then GroupsThenCents(s, p + k) else None
  }

  /** Every group that follows `i`, then the cents. */
  function GroupsThenCents(s: string, i: nat): Option<nat>
  {
    var e := i + 4 * MaxGroups(s, i);
    if CentsAt(s, e) then Some(e + 3) else None
  }

  /** Back-tracking never finds a match the direct reading misses, nor a different one. */
  lemma PriceMatchNoBacktracking(s: string, p: nat)
    ensures TryDigits(s, p, 3) == PriceMatchDirect(s, p)
  {
    TriesUpTo(s, p, 3);
  }

  /**
   * Trying `k`, `k - 1`, ..., 1 leading digits ends where the direct reading
   * of as many digits as there are, up to `k`, ends.
   */
  lemma {:induction false} TriesUpTo(s: string, p: nat, k: nat)
    ensures TryDigits(s, p, k) == DirectFrom(s, p, if DigitRun(s, p) < k then DigitRun(s, p) else k)
    decreases k
  {
    if k > 0 {
      TriesUpTo(s, p, k - 1);
      if DigitRun(s, p) < k {
        NotMoreDigits(s, p, k);
      } else {
        TryWithinRun(s, p, k);
      }
    }
  }

  /** A try of `k` digits inside the run: it decides when it takes the whole run or three digits, and fails otherwise. */
  lemma TryWithinRun(s: string, p: nat, k: nat)
    requires 0 < k <= DigitRun(s, p)
    requires TryDigits(s, p, k - 1) == DirectFrom(s, p, k - 1)
    ensures TryDigits(s, p, k) == DirectFrom(s, p, k)
  {
    TryTakesGroups(s, p, k);
    ShorterDirectFails(s, p, k);
    if k < DigitRun(s, p) {
      DigitBlocksCents(s, p + k);
    }
  }

  /** Where `\d{k}` matches, the try takes the greedy groups and the cents if they follow, and otherwise one digit fewer. */
  lemma TryTakesGroups(s: string, p: nat, k: nat)
    requires 0 < k <= DigitRun(s, p)
    ensures TryDigits(s, p, k) ==
      if GroupsThenCents(s, p + k).Some? then GroupsThenCents(s, p + k) else TryDigits(s, p, k - 1)
  {
    assert DigitsAt(s, p, k);
    AllGroupsTaken(s, p + k);
  }

  /** Inside the run, the direct reading of fewer digits than `k` fails: a digit follows them. */
  lemma ShorterDirectFails(s: string, p: nat, k: nat)
    requires 0 < k <= DigitRun(s, p)
    ensures DirectFrom(s, p, k - 1) == None
  {
    if k > 1 {
      DigitBlocksCents(s, p + k - 1);
    }
  }

  /** A digit where `.` or `,` must be: neither a group nor the cents start there. */
  lemma DigitBlocksCents(s: string, i: nat)
    requires i < |s| && IsDigit(s[i])
    ensures GroupsThenCents(s, i) == None
  {
    assert MaxGroups(s, i) == 0;
  }

  /** Backing off from the greedy group count finds the cents only where the greedy reading does. */
  lemma AllGroupsTaken(s: string, i: nat)
    ensures TryGroups(s, i, MaxGroups(s, i)) == GroupsThenCents(s, i)
  {
    GreedyGroups(s, i, MaxGroups(s, i));
  }

  /** `\d{k}` cannot match where the digit run is shorter than `k`. */
  lemma NotMoreDigits(s: string, p: nat, k: nat)
    requires DigitRun(s, p) < k
    ensures !DigitsAt(s, p, k)
  {
    var run := DigitRun(s, p);
    if p + k <= |s| {
      assert p + run < |s|;
      assert !IsDigit(s[p + run]);
    }
  }

  /** Fewer groups than the greedy count leave a `.` where `,` must be. */
  lemma {:induction false} GreedyGroups(s: string, i: nat, g: nat)
    requires g <= MaxGroups(s, i)
    ensures TryGroups(s, i, g) == if CentsAt(s, i + 4 * g) then Some(i + 4 * g + 3) else None
    decreases g
  {
    if g > 0 && !CentsAt(s, i + 4 * g) {
      GroupsPresent(s, i, g - 1);
      GreedyGroups(s, i, g - 1);
    }
  }

  lemma {:induction false} GroupsPresent(s: string, i: nat, h: nat)
    requires h < MaxGroups(s, i)
    ensures GroupAt(s, i + 4 * h)
    decreases h
  {
    if h > 0 {
      GroupsPresent(s, i + 4, h - 1);
      assert i + 4 + 4 * (h - 1) == i + 4 * h;
    }
  }

  /** `s.matchAll(priceRegex)` from `from`: start and end of each match, left to right, each search resuming where the last match ended. */
  function PriceMatchesFrom(s: string, from: nat): (ms: seq<(nat, nat)>)
    ensures forall k | 0 <= k < |ms| :: from <= ms[k].0 && PriceMatchAt(s, ms[k].0) == Some(ms[k].1)
    ensures forall k | 0 <= k < |ms| - 1 :: ms[k].1 <= ms[k + 1].0
    decreases |s| - from
  {
    if from >= |s| then []
    else match PriceMatchAt(s, from)
      case Some(e) => [(from, e)] + PriceMatchesFrom(s, e)
      case None => PriceMatchesFrom(s, from + 1)
  }

  /** `t.replace(c, r)` with a one-character pattern: only the first occurrence is replaced. */
  function ReplaceFirst(t: string, c: char, r: string): string
  {
    var k := IndexOf(t, c);
    if k == |t| then t else t[..k] + r + t[k + 1..]
  }

  /**
   * `parseFloat` of text that starts with a digit and holds no exponent
   * marker: the longest prefix of the form digits, or digits `.` digits.
   */
  function ParseFloatPrefix(t: string): real
    requires |t| > 0 && IsDigit(t[0])
    requires forall j | 0 <= j < |t| :: t[j] != 'e' && t[j] != 'E'
  {
    var n := DigitRun(t, 0);
    var whole := DigitsValue(t[..n]) as real;
    if n < |t| && t[n] == '.' then
      var f := DigitRun(t, n + 1);
      whole + Fraction(DigitsValue(t[n + 1..n + 1 + f]), f)
    else whole
  }

  /** The value of `f` decimal places whose digits read as `d`: `d` divided by ten `f` times. */
  function Fraction(d: nat, f: nat): real
  {
    if f == 0 then d as real else Fraction(d, f - 1) / 10.0
  }

  /** Two decimal places are hundredths, three are thousandths. */
  lemma FractionPlaces(d: nat, f: nat)
    requires f == 2 || f == 3
    ensures f == 2 ==> Fraction(d, f) == (d as real) / 100.0
    ensures f == 3 ==> Fraction(d, f) == (d as real) / 1000.0
  {
    assert Fraction(d, 1) == (d as real) / 10.0;
    assert Fraction(d, 2) == (d as real) / 100.0;
  }

  /** `parseFloat(m.replace('.', '').replace(',', '.'))` for a matched price text. */
  function ConvertPrice(m: string): real
    requires PriceChars(m)
  {
    var t1 := ReplaceFirst(m, '.', "");
    var t2 := ReplaceFirst(t1, ',', ".");
    ReplaceKeepsHead(m, '.', "");
    ReplaceKeepsHead(t1, ',', ".");
    ParseFloatPrefix(t2)
  }

  /** Replacing a character that is not the first keeps the first digit and adds no letters. */
  lemma ReplaceKeepsHead(t: string, c: char, r: string)
    requires |t| > 0 && IsDigit(t[0]) && !IsDigit(c)
    requires forall j | 0 <= j < |t| :: IsDigit(t[j]) || t[j] == '.' || t[j] == ','
    requires forall j | 0 <= j < |r| :: r[j] == '.'
    ensures var u := ReplaceFirst(t, c, r);
      |u| > 0 && u[0] == t[0] && forall j | 0 <= j < |u| :: IsDigit(u[j]) || u[j] == '.' || u[j] == ','
  {
    var k := IndexOf(t, c);
    if k < |t| {
      var u := t[..k] + r + t[k + 1..];
      forall j | 0 <= j < |u| ensures IsDigit(u[j]) || u[j] == '.' || u[j] == ',' {
        if j < k { assert u[j] == t[j]; }
        else if j < k + |r| { assert u[j] == r[j - k]; }
        else { assert u[j] == t[j - |r| + 1]; }
      }
    }
  }

  /** The numbers of a segment, in order: every price match, converted. */
  function PricesIn(line: string): (prices: seq<real>)
    ensures |prices| == |PriceMatchesFrom(line, 0)|
  {
    var ms := PriceMatchesFrom(line, 0);
    seq(|ms|, k requires 0 <= k < |ms| => ConvertPrice(line[ms[k].0..ms[k].1]))
  }

  // ---------------------------------------------------------------- what the conversion yields

  lemma IndexOfIs(t: string, c: char, k: nat)
    requires k <= |t| && (k < |t| ==> t[k] == c)
    requires forall j | 0 <= j < k :: t[j] != c
    ensures IndexOf(t, c) == k
  {
  }

  /** Replacing the first `c` in text whose first `c` follows `x`. */
  lemma ReplaceSplit(x: string, c: char, y: string, r: string)
    requires forall j | 0 <= j < |x| :: x[j] != c
    ensures ReplaceFirst(x + [c] + y, c, r) == x + r + y
  {
    var t := x + [c] + y;
    assert forall j | 0 <= j < |x| :: t[j] == x[j];
    IndexOfIs(t, c, |x|);
    assert t[..|x|] == x && t[|x| + 1..] == y;
  }

  lemma ReplaceAbsent(x: string, c: char, r: string)
    requires forall j | 0 <= j < |x| :: x[j] != c
    ensures ReplaceFirst(x, c, r) == x
  {
    IndexOfIs(x, c, |x|);
  }

  lemma {:induction false} DigitRunIs(t: string, i: nat, n: nat)
    requires i + n <= |t|
    requires forall j | i <= j < i + n :: IsDigit(t[j])
    requires i + n < |t| ==> !IsDigit(t[i + n])
    ensures DigitRun(t, i) == n
    decreases n
  {
    if n > 0 {
      DigitRunIs(t, i + 1, n - 1);
    }
  }

  /** `parseFloat` of digits, a dot, digits, then anything that is not a digit. */
  lemma ParsePrefixShape(x: string, y: string, rest: string)
    requires |x| > 0 && AllDigits(x) && AllDigits(y)
    requires |rest| > 0 ==> !IsDigit(rest[0])
    requires forall j | 0 <= j < |rest| :: rest[j] != 'e' && rest[j] != 'E'
    ensures |x + "." + y + rest| > 0 && IsDigit((x + "." + y + rest)[0])
    ensures forall j | 0 <= j < |x + "." + y + rest| :: (x + "." + y + rest)[j] != 'e' && (x + "." + y + rest)[j] != 'E'
    ensures ParseFloatPrefix(x + "." + y + rest) == DigitsValue(x) as real + Fraction(DigitsValue(y), |y|)
  {
    var t := x + "." + y + rest;
    ShapeLayout(x, y, rest);
    DigitRunIs(t, 0, |x|);
    DigitRunIs(t, |x| + 1, |y|);
    ParseFloatFraction(t, |x|, |y|);
  }

  /** `parseFloat` of `n` digits, a dot and `f` digits that end the number. */
  lemma ParseFloatFraction(t: string, n: nat, f: nat)
    requires |t| > 0 && IsDigit(t[0])
    requires forall j | 0 <= j < |t| :: t[j] != 'e' && t[j] != 'E'
    requires DigitRun(t, 0) == n && n < |t| && t[n] == '.' && DigitRun(t, n + 1) == f
    ensures ParseFloatPrefix(t) == DigitsValue(t[..n]) as real + Fraction(DigitsValue(t[n + 1..n + 1 + f]), f)
  {
  }

  /** Where the pieces of `x + "." + y + rest` sit. */
  lemma ShapeLayout(x: string, y: string, rest: string)
    requires forall j | 0 <= j < |rest| :: rest[j] != 'e' && rest[j] != 'E'
    requires AllDigits(x) && AllDigits(y)
    ensures var t := x + "." + y + rest;
      && t[..|x|] == x && t[|x|] == '.' && t[|x| + 1..|x| + 1 + |y|] == y
      && (forall j | 0 <= j < |x| :: t[j] == x[j])
      && (forall j | 0 <= j < |y| :: t[|x| + 1 + j] == y[j])
      && (|rest| > 0 ==> t[|x| + 1 + |y|] == rest[0])
      && (forall j | 0 <= j < |t| :: t[j] != 'e' && t[j] != 'E')
  {
    var t := x + "." + y + rest;
    assert forall j | 0 <= j < |x| :: t[j] == x[j];
    assert forall j | 0 <= j < |y| :: t[|x| + 1 + j] == y[j];
    forall j | 0 <= j < |t| ensures t[j] != 'e' && t[j] != 'E' {
      if j >= |x| + 1 + |y| { assert t[j] == rest[j - |x| - 1 - |y|]; }
    }
    assert t[..|x|] == x;
    assert t[|x| + 1..|x| + 1 + |y|] == y;
  }

  /** The conversion is `parseFloat` of the twice-replaced text. */
  lemma ConvertPriceIs(m: string, t: string)
    requires PriceChars(m)
    requires ReplaceFirst(ReplaceFirst(m, '.', ""), ',', ".") == t
    ensures |t| > 0 && IsDigit(t[0]) && (forall j | 0 <= j < |t| :: t[j] != 'e' && t[j] != 'E')
    ensures ConvertPrice(m) == ParseFloatPrefix(t)
  {
    ReplaceKeepsHead(m, '.', "");
    ReplaceKeepsHead(ReplaceFirst(m, '.', ""), ',', ".");
  }

  /** Without thousands groups: `"85,00"` reads as 85.00. */
  lemma ConvertNoGroups(a: string, c: string)
    requires 1 <= |a| <= 3 && AllDigits(a) && |c| == 2 && AllDigits(c)
    ensures PriceChars(a + "," + c)
    ensures ConvertPrice(a + "," + c) == DigitsValue(a) as real + (DigitsValue(c) as real) / 100.0
  {
    NoGroupsText(a, c);
    ParsePrefixShape(a, c, "");
    ConvertPriceIs(a + "," + c, a + "." + c + "");
    FractionPlaces(DigitsValue(c), |c|);
  }

  lemma NoGroupsText(a: string, c: string)
    requires |a| >= 1 && AllDigits(a) && AllDigits(c)
    ensures PriceChars(a + "," + c)
    ensures ReplaceFirst(ReplaceFirst(a + "," + c, '.', ""), ',', ".") == a + "." + c + ""
  {
    var m := a + [','] + c;
    assert a + "," + c == m;
    forall j | 0 <= j < |m| ensures (IsDigit(m[j]) || m[j] == ',') && m[j] != '.' {
      if j < |a| { assert m[j] == a[j]; } else if j > |a| { assert m[j] == c[j - |a| - 1]; }
    }
    ReplaceAbsent(m, '.', "");
    ReplaceSplit(a, ',', c, ".");
    assert a + "." + c == a + "." + c + "";
  }

  /** One thousands group: `"1.234,56"` reads as 1234.56. */
  lemma ConvertOneGroup(a: string, b: string, c: string)
    requires 1 <= |a| <= 3 && AllDigits(a) && |b| == 3 && AllDigits(b) && |c| == 2 && AllDigits(c)
    ensures PriceChars(a + "." + b + "," + c)
    ensures ConvertPrice(a + "." + b + "," + c)
      == (DigitsValue(a) * 1000 + DigitsValue(b)) as real + (DigitsValue(c) as real) / 100.0
  {
    OneGroupText(a, b, c);
    DigitsValueAppend(a, b);
    ParsePrefixShape(a + b, c, "");
    ConvertPriceIs(a + "." + b + "," + c, (a + b) + "." + c + "");
    assert Pow10(|b|) == 1000 by { assert Pow10(3) == 1000; }
    FractionPlaces(DigitsValue(c), |c|);
  }

  lemma OneGroupText(a: string, b: string, c: string)
    requires |a| >= 1 && AllDigits(a) && AllDigits(b) && AllDigits(c)
    ensures PriceChars(a + "." + b + "," + c)
    ensures ReplaceFirst(ReplaceFirst(a + "." + b + "," + c, '.', ""), ',', ".") == (a + b) + "." + c + ""
  {
    var y := b + [','] + c;
    var m := a + ['.'] + y;
    assert a + "." + b + "," + c == m;
    forall j | 0 <= j < |y| ensures IsDigit(y[j]) || y[j] == ',' {
      if j < |b| { assert y[j] == b[j]; } else if j > |b| { assert y[j] == c[j - |b| - 1]; }
    }
    forall j | 0 <= j < |m| ensures IsDigit(m[j]) || m[j] == '.' || m[j] == ',' {
      if j < |a| { assert m[j] == a[j]; } else if j > |a| { assert m[j] == y[j - |a| - 1]; }
    }
    ReplaceSplit(a, '.', y, "");
    var ab := a + b;
    assert forall j | 0 <= j < |ab| :: ab[j] != ',' by {
      forall j | 0 <= j < |ab| ensures ab[j] != ',' {
        if j < |a| { assert ab[j] == a[j]; } else { assert ab[j] == b[j - |a|]; }
      }
    }
    assert a + "" + y == ab + [','] + c;
    ReplaceSplit(ab, ',', c, ".");
    assert ab + "." + c == ab + "." + c + "";
  }

  /**
   * Two or more thousands groups: only the first dot is removed, so the
   * number stops at the second group. `"1.234.567,89"` reads as 1234.567.
   */
  lemma ConvertTruncates(a: string, b1: string, b2: string, rest: string, c: string)
    requires 1 <= |a| <= 3 && AllDigits(a) && |b1| == 3 && AllDigits(b1) && |b2| == 3 && AllDigits(b2)
    requires |c| == 2 && AllDigits(c)
    requires |rest| > 0 ==> rest[0] == '.'
    requires forall j | 0 <= j < |rest| :: IsDigit(rest[j]) || rest[j] == '.'
    ensures PriceChars(a + "." + b1 + "." + b2 + rest + "," + c)
    ensures ConvertPrice(a + "." + b1 + "." + b2 + rest + "," + c)
      == (DigitsValue(a) * 1000 + DigitsValue(b1)) as real + (DigitsValue(b2) as real) / 1000.0
  {
    var tail := rest + "." + c;
    TruncatedText(a, b1, b2, rest, c);
    DigitsValueAppend(a, b1);
    ParsePrefixShape(a + b1, b2, tail);
    ConvertPriceIs(a + "." + b1 + "." + b2 + rest + "," + c, (a + b1) + "." + b2 + tail);
    assert Pow10(|b1|) == 1000 by { assert Pow10(3) == 1000; }
    FractionPlaces(DigitsValue(b2), |b2|);
  }

  lemma TruncatedText(a: string, b1: string, b2: string, rest: string, c: string)
    requires |a| >= 1 && AllDigits(a) && |b1| == 3 && AllDigits(b1) && |b2| == 3 && AllDigits(b2) && AllDigits(c)
    requires |rest| > 0 ==> rest[0] == '.'
    requires forall j | 0 <= j < |rest| :: IsDigit(rest[j]) || rest[j] == '.'
    ensures PriceChars(a + "." + b1 + "." + b2 + rest + "," + c)
    ensures var tail := rest + "." + c;
      && tail[0] == '.' && (forall j | 0 <= j < |tail| :: tail[j] != 'e' && tail[j] != 'E')
      && ReplaceFirst(ReplaceFirst(a + "." + b1 + "." + b2 + rest + "," + c, '.', ""), ',', ".")
         == (a + b1) + "." + b2 + tail
  {
    TruncatedChars(a, b1, b2, rest, c);
    TruncatedReplace(a, b1, b2, rest, c);
    var tail := rest + "." + c;
    assert AllChars(rest + ".", NotExponent) && AllChars(c, NotExponent);
    AllCharsConcat(rest + ".", c, NotExponent);
  }

  lemma TruncatedChars(a: string, b1: string, b2: string, rest: string, c: string)
    requires |a| >= 1 && AllDigits(a) && AllDigits(b1) && AllDigits(b2) && AllDigits(c)
    requires forall j | 0 <= j < |rest| :: IsDigit(rest[j]) || rest[j] == '.'
    ensures PriceChars(a + "." + b1 + "." + b2 + rest + "," + c)
  {
    var y := b1 + "." + b2 + rest + "," + c;
    assert a + "." + b1 + "." + b2 + rest + "," + c == (a + ".") + y;
    DotsAndDigits("", b1, b2, rest);
    assert "" + b1 + "." + b2 + rest + "," == b1 + "." + b2 + rest + ",";
    assert AllChars(c, IsPriceChar);
    AllCharsConcat(b1 + "." + b2 + rest + ",", c, IsPriceChar);
    assert AllChars(a + ".", IsPriceChar);
    AllCharsConcat(a + ".", y, IsPriceChar);
  }

  lemma TruncatedReplace(a: string, b1: string, b2: string, rest: string, c: string)
    requires AllDigits(a) && AllDigits(b1) && AllDigits(b2)
    requires forall j | 0 <= j < |rest| :: IsDigit(rest[j]) || rest[j] == '.'
    ensures ReplaceFirst(ReplaceFirst(a + "." + b1 + "." + b2 + rest + "," + c, '.', ""), ',', ".")
         == (a + b1) + "." + b2 + (rest + "." + c)
  {
    var x := a + b1 + "." + b2 + rest;
    var y := b1 + "." + b2 + rest + "," + c;
    TruncatedRegroup(a, b1, b2, rest, c);
    assert forall j | 0 <= j < |a| :: a[j] != '.';
    ReplaceSplit(a, '.', y, "");
    DotsAndDigits(a, b1, b2, rest);
    ReplaceSplit(x, ',', c, ".");
  }

  /** The same text, grouped as each replacement step reads it. */
  lemma TruncatedRegroup(a: string, b1: string, b2: string, rest: string, c: string)
    ensures a + "." + b1 + "." + b2 + rest + "," + c == a + ['.'] + (b1 + "." + b2 + rest + "," + c)
    ensures a + "" + (b1 + "." + b2 + rest + "," + c) == (a + b1 + "." + b2 + rest) + [','] + c
    ensures (a + b1 + "." + b2 + rest) + "." + c == (a + b1) + "." + b2 + (rest + "." + c)
  {
  }

  predicate AllChars(t: string, ok: char -> bool)
  {
    forall j | 0 <= j < |t| :: ok(t[j])
  }

  predicate IsDigitOrDot(ch: char) { IsDigit(ch) || ch == '.' }
  predicate IsPriceChar(ch: char) { IsDigit(ch) || ch == '.' || ch == ',' }
  predicate NotExponent(ch: char) { ch != 'e' && ch != 'E' }

  lemma AllCharsConcat(u: string, v: string, ok: char -> bool)
    requires AllChars(u, ok) && AllChars(v, ok)
    ensures AllChars(u + v, ok)
  {
    forall j | 0 <= j < |u + v| ensures ok((u + v)[j]) {
      if j < |u| { assert (u + v)[j] == u[j]; } else { assert (u + v)[j] == v[j - |u|]; }
    }
  }

  /** Digits, a dot, digits, then digits and dots: no comma in it. */
  lemma DotsAndDigits(a: string, b1: string, b2: string, rest: string)
    requires AllDigits(a) && AllDigits(b1) && AllDigits(b2)
    requires forall j | 0 <= j < |rest| :: IsDigit(rest[j]) || rest[j] == '.'
    ensures AllChars(a + b1 + "." + b2 + rest, IsDigitOrDot)
    ensures AllChars(a + b1 + "." + b2 + rest + ",", IsPriceChar)
    ensures forall j | 0 <= j < |a + b1 + "." + b2 + rest| :: (a + b1 + "." + b2 + rest)[j] != ','
  {
    assert AllChars(a, IsDigitOrDot) && AllChars(b1, IsDigitOrDot) && AllChars(b2, IsDigitOrDot);
    assert AllChars(rest, IsDigitOrDot) && AllChars(".", IsDigitOrDot);
    AllCharsConcat(a, b1, IsDigitOrDot);
    AllCharsConcat(a + b1, ".", IsDigitOrDot);
    AllCharsConcat(a + b1 + ".", b2, IsDigitOrDot);
    AllCharsConcat(a + b1 + "." + b2, rest, IsDigitOrDot);
    var x := a + b1 + "." + b2 + rest;
    assert AllChars(x, IsPriceChar);
    AllCharsConcat(x, ",", IsPriceChar);
  }

  // ---------------------------------------------------------------- the version marker

  const Marker := "BOLETIM"

  /**
   * The case folding of a pattern with the `i` flag and no `u` flag: a
   * character is compared by its upper case, except that a non-ASCII
   * character never folds onto an ASCII one. For the letters of the marker
   * this is ASCII upper-casing.
   */
  function AsciiUpper(c: char): char
  {
    if 'a' <= c <= 'z' then (c as int - 32) as char else c
  }

  /** `BOLETIM`, in any mix of cases, at `i`. */
  predicate MarkerAt(s: string, i: nat)
  {
    i + |Marker| <= |s| && forall k | 0 <= k < |Marker| :: AsciiUpper(s[i + k]) == Marker[k]
  }

  /** Number of consecutive `\s` characters starting at `i`. */
  function SpaceRun(s: string, i: nat): (n: nat)
    ensures i + n <= |s| || n == 0
    ensures forall j | i <= j < i + n :: IsJsSpace(s[j])
    ensures i + n < |s| ==> !IsJsSpace(s[i + n])
    decreases |s| - i
  {
    if i < |s| && IsJsSpace(s[i]) then 1 + SpaceRun(s, i + 1) else 0
  }

  /**
   * `BOLETIM\s*(\d+)` tried at `i`, giving the captured digits. Both
   * repetitions are greedy, and giving a space back cannot help `\d+`, so
   * the first attempt decides.
   */
  function VersionMatchAt(s: string, i: nat): (r: Option<string>)
    ensures r.Some? ==> |r.value| > 0 && AllDigits(r.value)
  {
    if !MarkerAt(s, i) then None
    else
      var j := i + |Marker| + SpaceRun(s, i + |Marker|);
      var n := DigitRun(s, j);
      if n == 0 then None else Some(s[j..j + n])
  }

  /**
   * The pattern matches at `i` exactly when the marker is followed by some
   * spaces and then a digit.
   */
  lemma VersionMatchIff(s: string, i: nat)
    ensures VersionMatchAt(s, i).Some? <==>
      MarkerAt(s, i) && exists j | i + |Marker| <= j < |s| :: IsDigit(s[j]) && AllSpaces(s, i + |Marker|, j)
  {
    if MarkerAt(s, i) {
      var a := i + |Marker|;
      var e := a + SpaceRun(s, a);
      if exists j | a <= j < |s| :: IsDigit(s[j]) && AllSpaces(s, a, j) {
        var j :| a <= j < |s| && IsDigit(s[j]) && AllSpaces(s, a, j);
        SpacesThenDigit(s, a, j);
      }
      if VersionMatchAt(s, i).Some? {
        assert AllSpaces(s, a, e) && IsDigit(s[e]);
      }
    }
  }

  /** A digit after a run of spaces sits exactly where the greedy space run stops. */
  lemma SpacesThenDigit(s: string, a: nat, j: nat)
    requires a <= j < |s| && IsDigit(s[j]) && AllSpaces(s, a, j)
    ensures j == a + SpaceRun(s, a) && DigitRun(s, j) > 0
  {
    var e := a + SpaceRun(s, a);
    assert !IsJsSpace(s[j]);
    assert e < |s| ==> !IsJsSpace(s[e]);
  }

  /**
   * Whenever the marker is followed by spaces and a maximal run of digits,
   * the capture is that run.
   */
  lemma VersionCapture(s: string, i: nat, j: nat, n: nat)
    requires MarkerAt(s, i) && i + |Marker| <= j && 0 < n && j + n <= |s|
    requires AllSpaces(s, i + |Marker|, j) && AllDigits(s[j..j + n])
    requires j + n < |s| ==> !IsDigit(s[j + n])
    ensures VersionMatchAt(s, i) == Some(s[j..j + n])
  {
    assert IsDigit(s[j..j + n][0]);
    SpacesThenDigit(s, i + |Marker|, j);
    forall k | j <= k < j + n ensures IsDigit(s[k]) {
      assert s[k] == s[j..j + n][k - j];
    }
    DigitRunIs(s, j, n);
  }

  predicate AllSpaces(s: string, a: nat, b: nat)
    requires a <= b <= |s|
  {
    forall k | a <= k < b :: IsJsSpace(s[k])
  }

  /** Index of the leftmost position at or after `from` where the version pattern matches. */
  function FirstVersionFrom(s: string, from: nat): (r: Option<nat>)
    ensures r.Some? ==> from <= r.value && VersionMatchAt(s, r.value).Some?
    ensures r.Some? ==> forall j | from <= j < r.value :: VersionMatchAt(s, j).None?
    ensures r.None? ==> forall j | from <= j :: VersionMatchAt(s, j).None?
    decreases |s| - from
  {
    if from + |Marker| > |s| then None
    else if VersionMatchAt(s, from).Some? then Some(from)
    else FirstVersionFrom(s, from + 1)
  }

  /** `text.match(/BOLETIM\s*(\d+)/i)?.[1]`: the digits of the leftmost match. */
  function VersionIn(text: string): Option<string>
  {
    match FirstVersionFrom(text, 0)
    case None => None
    case Some(i) => VersionMatchAt(text, i)
  }

  /** A version is read exactly when the pattern matches somewhere, and it is the capture of a match. */
  lemma VersionInIs(text: string)
    ensures VersionIn(text).Some? ==> exists i :: VersionMatchAt(text, i) == VersionIn(text)
    ensures VersionIn(text).None? <==> forall i :: VersionMatchAt(text, i).None?
    ensures VersionIn(text).Some? ==> |VersionIn(text).value| > 0 && AllDigits(VersionIn(text).value)
  {
  }

  /** A text that opens with `BOLETIM `, a number and then no further digit is read as that number. */
  lemma BulletinHeader(d: string, rest: string)
    requires |d| > 0 && AllDigits(d)
    requires |rest| > 0 ==> !IsDigit(rest[0])
    ensures VersionIn(Marker + " " + d + rest) == Some(d)
  {
    var t := Marker + " " + d + rest;
    assert forall k | 0 <= k < |Marker| :: t[k] == Marker[k];
    assert MarkerAt(t, 0);
    assert t[|Marker|] == ' ';
    assert t[8..8 + |d|] == d;
    assert |rest| > 0 ==> t[8 + |d|] == rest[0];
    VersionCapture(t, 0, 8, |d|);
  }

  const UnknownVersion := "Desconhecida"

  /** Only the first three pages are searched for the version. */
  const VersionPages := 3

  /**
   * `extractedVersion` after pages whose version matches are `found`, in
   * page order: each of the first three pages that matches overwrites it
   * with `CDHU ` and the number.
   */
  function ExtractedVersion(found: seq<Option<string>>): (v: string)
    ensures v == UnknownVersion || (|v| >= 5 && v[..5] == "CDHU ")
  {
    if |found| == 0 then UnknownVersion
    else
      var last := found[|found| - 1];
      if |found| <= VersionPages && last.Some? then
        assert ("CDHU " + last.value)[..5] == "CDHU ";
        "CDHU " + last.value
      else ExtractedVersion(found[..|found| - 1])
  }

  /** Pages after the third never change the version. */
  lemma {:induction false} LaterPagesIgnored(found: seq<Option<string>>, more: seq<Option<string>>)
    requires |found| >= VersionPages
    ensures ExtractedVersion(found + more) == ExtractedVersion(found)
    decreases |more|
  {
    if |more| > 0 {
      var m := more[..|more| - 1];
      assert (found + more)[..|found + more| - 1] == found + m;
      LaterPagesIgnored(found, m);
    } else {
      assert found + more == found;
    }
  }

  /**
   * The version is unknown exactly when none of the first three pages
   * matches; otherwise it is the number of the last of them that does.
   */
  lemma {:induction false} ExtractedVersionIs(found: seq<Option<string>>)
    ensures ExtractedVersion(found) == UnknownVersion <==>
      forall i | 0 <= i < |found| && i < VersionPages :: found[i].None?
    ensures ExtractedVersion(found) != UnknownVersion ==>
      exists i | 0 <= i < |found| && i < VersionPages ::
        && found[i].Some? && ExtractedVersion(found) == "CDHU " + found[i].value
        && forall k | i < k < |found| && k < VersionPages :: found[k].None?
  {
    if |found| > 0 {
      var n := |found|;
      var init := found[..n - 1];
      ExtractedVersionIs(init);
      assert forall i | 0 <= i < n - 1 :: init[i] == found[i];
      if n <= VersionPages && found[n - 1].Some? {
        assert ("CDHU " + found[n - 1].value)[1] != UnknownVersion[1];
      }
    }
  }

  // ---------------------------------------------------------------- progress

  /**
   * `Math.round((i / numPages) * 100)` after page `i`: the integer nearest
   * to 100·i/n, a half rounding up.
   */
  function Progress(i: nat, n: nat): nat
    requires 0 < n && i <= n
  {
    (200 * i + n) / (2 * n)
  }

  /** The progress is a percentage, and the nearest one to 100·i/n. */
  lemma ProgressBounds(i: nat, n: nat)
    requires 0 < n && i <= n
    ensures var p := Progress(i, n);
      p <= 100 && 2 * n * p <= 200 * i + n < 2 * n * (p + 1)
  {
    var p := Progress(i, n);
    var r := (200 * i + n) % (2 * n);
    assert 200 * i + n == 2 * n * p + r && 0 <= r < 2 * n;
    LessFromMul(2 * n, p, 101);
  }

  /** Dividing both sides of `k·a < k·b` by a positive `k`. */
  lemma {:induction false} LessFromMul(k: nat, a: nat, b: nat)
    requires k > 0 && k * a < k * b
    ensures a < b
    decreases a
  {
    if a > 0 {
      assert k * (a - 1) == k * a - k && k * b == k * (b - 1) + k;
      LessFromMul(k, a - 1, b - 1);
    }
  }

  /** No page done is 0 %, every page done is 100 %. */
  lemma ProgressEnds(n: nat)
    requires 0 < n
    ensures Progress(0, n) == 0 && Progress(n, n) == 100
  {
    ProgressBounds(0, n);
    ProgressBounds(n, n);
    LessFromMul(2 * n, Progress(0, n), 1);
    LessFromMul(2 * n, 100, Progress(n, n) + 1);
  }

  /** Progress never goes back. */
  lemma ProgressMonotone(i: nat, j: nat, n: nat)
    requires 0 < n && i <= j <= n
    ensures Progress(i, n) <= Progress(j, n)
  {
    ProgressBounds(i, n);
    ProgressBounds(j, n);
    LessFromMul(2 * n, Progress(i, n), Progress(j, n) + 1);
  }

  // ---------------------------------------------------------------- collected prices

  /** One `newPrices[code] = price` assignment. */
  datatype PriceRecord = PriceRecord(code: string, price: real)

  /**
   * What one segment assigns: when it holds a code and at least one price,
   * and its last price is positive, that price under the segment's code.
   */
  function SegmentRecord(seg: string): (r: seq<PriceRecord>)
    ensures |r| <= 1
    ensures |r| == 1 ==> Catalog.IsCode(r[0].code) && r[0].price > 0.0
  {
    match SegmentCode(seg)
    case None => []
    case Some(code) =>
      var prices := PricesIn(seg);
      if |prices| > 0 && prices[|prices| - 1] > 0.0 then [PriceRecord(code, prices[|prices| - 1])] else []
  }

  /** The assignments of a page's segments, in order. */
  function SegmentsRecords(segs: seq<string>): (rs: seq<PriceRecord>)
    ensures forall k | 0 <= k < |rs| :: Catalog.IsCode(rs[k].code) && rs[k].price > 0.0
  {
    if |segs| == 0 then []
    else SegmentsRecords(segs[..|segs| - 1]) + SegmentRecord(segs[|segs| - 1])
  }

  function PageRecords(text: string): (rs: seq<PriceRecord>)
    ensures forall k | 0 <= k < |rs| :: Catalog.IsCode(rs[k].code) && rs[k].price > 0.0
  {
    SegmentsRecords(SplitAtCodes(text))
  }

  /** The assignments of all pages, page after page. */
  function TextsRecords(texts: seq<string>): (rs: seq<PriceRecord>)
    ensures forall k | 0 <= k < |rs| :: Catalog.IsCode(rs[k].code) && rs[k].price > 0.0
  {
    if |texts| == 0 then []
    else TextsRecords(texts[..|texts| - 1]) + PageRecords(texts[|texts| - 1])
  }

  /** The record `newPrices` ends up as after the assignments, made in order. */
  function Collect(rs: seq<PriceRecord>): map<string, real>
  {
    if |rs| == 0 then map[]
    else Collect(rs[..|rs| - 1])[rs[|rs| - 1].code := rs[|rs| - 1].price]
  }

  lemma CollectSnoc(rs: seq<PriceRecord>, r: PriceRecord)
    ensures Collect(rs + [r]) == Collect(rs)[r.code := r.price]
  {
    assert (rs + [r])[..|rs|] == rs;
  }

  /** A code has a price exactly when some assignment names it. */
  lemma {:induction false} CollectKeys(rs: seq<PriceRecord>)
    ensures forall c :: c in Collect(rs) <==> exists k | 0 <= k < |rs| :: rs[k].code == c
  {
    if |rs| > 0 {
      var init := rs[..|rs| - 1];
      CollectKeys(init);
      assert forall k | 0 <= k < |init| :: init[k] == rs[k];
    }
  }

  /** The codes the assignments name. */
  function CodesOf(rs: seq<PriceRecord>): set<string>
  {
    set k | 0 <= k < |rs| :: rs[k].code
  }

  /** The `updated` count is the number of distinct codes assigned. */
  lemma CollectCount(rs: seq<PriceRecord>)
    ensures Collect(rs).Keys == CodesOf(rs)
    ensures |Collect(rs)| == |CodesOf(rs)|
  {
    CollectKeys(rs);
    assert Collect(rs).Keys == CodesOf(rs);
    assert |Collect(rs)| == |Collect(rs).Keys|;
  }

  /** The price of a code is that of the last assignment naming it. */
  lemma {:induction false} CollectLastWins(rs: seq<PriceRecord>, k: nat)
    requires k < |rs|
    requires forall l | k < l < |rs| :: rs[l].code != rs[k].code
    ensures rs[k].code in Collect(rs) && Collect(rs)[rs[k].code] == rs[k].price
  {
    if k < |rs| - 1 {
      var init := rs[..|rs| - 1];
      assert forall l | 0 <= l < |init| :: init[l] == rs[l];
      CollectLastWins(init, k);
    }
  }

  /** Every collected price comes from some assignment. */
  lemma {:induction false} CollectValues(rs: seq<PriceRecord>)
    ensures forall c | c in Collect(rs) :: exists k | 0 <= k < |rs| :: rs[k] == PriceRecord(c, Collect(rs)[c])
  {
    if |rs| > 0 {
      var init := rs[..|rs| - 1];
      CollectValues(init);
      assert forall k | 0 <= k < |init| :: init[k] == rs[k];
      var last := rs[|rs| - 1];
      assert rs[|rs| - 1] == PriceRecord(last.code, Collect(rs)[last.code]);
    }
  }

  /** Every price the upload collects is positive and filed under a well-formed code. */
  lemma CollectedPricesWellFormed(texts: seq<string>)
    ensures forall c | c in Collect(TextsRecords(texts)) :: Catalog.IsCode(c) && Collect(TextsRecords(texts))[c] > 0.0
  {
    var rs := TextsRecords(texts);
    CollectValues(rs);
    forall c | c in Collect(rs) ensures Catalog.IsCode(c) && Collect(rs)[c] > 0.0 {
      var k :| 0 <= k < |rs| && rs[k] == PriceRecord(c, Collect(rs)[c]);
    }
  }

  /** A record of a segment after the first is filed under the code the segment starts with. */
  lemma RecordUnderLeadingCode(text: string, k: nat)
    requires 1 <= k < |SplitAtCodes(text)|
    ensures var seg := SplitAtCodes(text)[k];
      |SegmentRecord(seg)| == 1 ==> |seg| >= 9 && SegmentRecord(seg)[0].code == seg[..9]
  {
    var seg := SplitAtCodes(text)[k];
    if |SegmentRecord(seg)| == 1 {
      var code := SegmentCode(seg).value;
      var i := FirstCodeFrom(seg, 0).value;
      assert CodeAt(seg, i);
      LaterSegmentsStartWithCode(text, k);
    }
  }

  // ---------------------------------------------------------------- the page

  /** One page as the PDF reader delivers it: the strings of its text items, or a failure to read it. */
  datatype Page = Page(items: seq<string>) | Unreadable

  /**
   * A chosen file: its MIME type and what the PDF reader makes of it
   * (`None` when the document cannot be opened at all).
   */
  datatype UploadFile = UploadFile(mimeType: string, document: Option<seq<Page>>)

  datatype UploadResult = UploadResult(updated: nat, version: string)

  /** What processing a document comes to: a failure after some pages, or the prices and the version found. */
  datatype Outcome = Failed(pagesDone: nat) | Done(prices: map<string, real>, version: string)

  const PdfType := "application/pdf"
  const NotPdfError := "Por favor, envie um arquivo PDF válido."
  const ReadError := "Erro ao processar o arquivo. Verifique se é um PDF legível (não escaneado)."

  /** The text of a page: its items joined by single spaces. */
  function PageText(page: Page): string
    requires page.Page?
  {
    Join(page.items, " ")
  }

  /** Index of the first page that cannot be read, or the page count. */
  function FirstUnreadable(pages: seq<Page>): (k: nat)
    ensures k <= |pages|
    ensures forall j | 0 <= j < k :: pages[j].Page?
    ensures k < |pages| ==> pages[k].Unreadable?
  {
    if |pages| == 0 || pages[0].Unreadable? then 0 else 1 + FirstUnreadable(pages[1..])
  }

  function Texts(pages: seq<Page>): (texts: seq<string>)
    requires forall j | 0 <= j < |pages| :: pages[j].Page?
    ensures |texts| == |pages|
  {
    seq(|pages|, j requires 0 <= j < |pages| => PageText(pages[j]))
  }

  /** The version match of each page text. */
  function Found(texts: seq<string>): (found: seq<Option<string>>)
    ensures |found| == |texts|
  {
    seq(|texts|, j requires 0 <= j < |texts| => VersionIn(texts[j]))
  }

  /** What `processPDF` comes to for a document. */
  function Extract(doc: Option<seq<Page>>): Outcome
  {
    if doc.None? then Failed(0)
    else
      var pages := doc.value;
      var k := FirstUnreadable(pages);
      if k < |pages| then Failed(k)
      else Done(Collect(TextsRecords(Texts(pages))), ExtractedVersion(Found(Texts(pages))))
  }

  /** The stored version: the one found, or the upload date when none was. */
  function Label(version: string, today: string): (v: string)
    ensures version != "" ==> v != ""
    ensures version != UnknownVersion ==> v == version
    ensures version == UnknownVersion ==> v == "Upload em " + today
    ensures v != UnknownVersion
  {
    if version != UnknownVersion then version
    else
      assert ("Upload em " + today)[0] != UnknownVersion[0];
      "Upload em " + today
  }

  /** The progress bar after `done` pages out of `n`. */
  function ProgressAfter(done: nat, n: nat): nat
  {
    if done == 0 || n < done then 0 else Progress(done, n)
  }

  /**
   * The upload page. `stored` is the update record kept in the browser's
   * local storage, as the catalog reads it back.
   */
  class UpdatePage {
    var isDragging: bool
    var isProcessing: bool
    var progress: nat
    var result: Option<UploadResult>
    var error: Option<string>
    var stored: Catalog.StoredState

    constructor(stored: Catalog.StoredState)
      ensures !isDragging && !isProcessing && progress == 0 && result.None? && error.None?
      ensures this.stored == stored
    {
      isDragging := false;
      isProcessing := false;
      progress := 0;
      result := None;
      error := None;
      this.stored := stored;
    }

    /**
     * The state `processPDF(doc)` leaves behind, from the stored record it
     * found: on success the new record is stored and reported, on failure
     * the record is kept and the error is shown; either way processing is over.
     */
    predicate Processed(doc: Option<seq<Page>>, today: string, before: Catalog.StoredState)
      reads this
    {
      && !isProcessing
      && match Extract(doc)
        case Done(prices, version) =>
          && stored == Catalog.Parsed(Some(Label(version, today)), Some(prices))
          && result == Some(UploadResult(|prices|, Label(version, today)))
          && error.None?
          && progress == ProgressAfter(|doc.value|, |doc.value|)
        case Failed(done) =>
          && stored == before
          && result.None?
          && error == Some(ReadError)
          && progress == (if doc.None? then 0 else ProgressAfter(done, |doc.value|))
    }

    /** `handleDragOver`. */
    method DragOver()
      modifies this
      ensures isDragging
      ensures isProcessing == old(isProcessing) && progress == old(progress) && result == old(result)
      ensures error == old(error) && stored == old(stored)
    {
      isDragging := true;
    }

    /** `handleDragLeave`. */
    method DragLeave()
      modifies this
      ensures !isDragging
      ensures isProcessing == old(isProcessing) && progress == old(progress) && result == old(result)
      ensures error == old(error) && stored == old(stored)
    {
      isDragging := false;
    }

    /** `handleDrop`: only a first file of PDF type is processed. */
    method Drop(files: seq<UploadFile>, today: string)
      modifies this
      ensures !isDragging
      ensures |files| > 0 && files[0].mimeType == PdfType ==> Processed(files[0].document, today, old(stored))
      ensures !(|files| > 0 && files[0].mimeType == PdfType) ==>
        && error == Some(NotPdfError)
        && isProcessing == old(isProcessing) && progress == old(progress) && result == old(result)
        && stored == old(stored)
    {
      isDragging := false;
      if |files| > 0 && files[0].mimeType == PdfType {
        ProcessPDF(files[0].document, today);
      } else {
        error := Some(NotPdfError);
      }
    }

    /** `handleFileChange`: the first chosen file is processed whatever its type. */
    method FileChange(files: seq<UploadFile>, today: string)
      modifies this
      ensures isDragging == old(isDragging)
      ensures |files| > 0 ==> Processed(files[0].document, today, old(stored))
      ensures |files| == 0 ==>
        && isProcessing == old(isProcessing) && progress == old(progress) && result == old(result)
        && error == old(error) && stored == old(stored)
    {
      if |files| > 0 {
        ProcessPDF(files[0].document, today);
      }
    }

    /**
     * `processPDF`: reads the pages in order, tracking the version and the
     * prices found so far, and stores the update record when every page
     * was read. `today` is the date `toLocaleDateString` gives.
     */
    method ProcessPDF(doc: Option<seq<Page>>, today: string)
      modifies this
      ensures isDragging == old(isDragging)
      ensures Processed(doc, today, old(stored))
    {
      isProcessing := true;
      error := None;
      progress := 0;
      result := None;
      if doc.None? {
        error := Some(ReadError);
        isProcessing := false;
        return;
      }
      var pages := doc.value;
      var done, extractedVersion, newPrices := ReadPages(pages);
      if done < |pages| {
        ExtractFails(pages, done);
        error := Some(ReadError);
        isProcessing := false;
        return;
      }
      ExtractDone(pages);
      var version := Label(extractedVersion, today);
      stored := Catalog.Parsed(Some(version), Some(newPrices));
      result := Some(UploadResult(|newPrices|, version));
      isProcessing := false;
    }

    /**
     * The loop over the pages: page after page, until one cannot be read.
     * `done` is the number of pages read; when it is all of them, the
     * version and the prices are those of all the texts.
     */
    method ReadPages(pages: seq<Page>) returns (done: nat, extractedVersion: string, newPrices: map<string, real>)
      requires progress == 0
      modifies this
      ensures done <= |pages|
      ensures forall j | 0 <= j < done :: pages[j].Page?
      ensures done < |pages| ==> pages[done].Unreadable?
      ensures done == |pages| ==>
        && extractedVersion == ExtractedVersion(Found(Texts(pages)))
        && newPrices == Collect(TextsRecords(Texts(pages)))
      ensures progress == ProgressAfter(done, |pages|)
      ensures isDragging == old(isDragging) && isProcessing == old(isProcessing)
      ensures result == old(result) && error == old(error) && stored == old(stored)
    {
      var numPages := |pages|;
      newPrices := map[];
      extractedVersion := UnknownVersion;
      assert pages[..0] == [];
      var i := 1;
      while i <= numPages
        invariant 1 <= i <= numPages + 1
        invariant ReadSoFar(pages, i - 1, extractedVersion, newPrices)
        invariant progress == ProgressAfter(i - 1, numPages)
        invariant isDragging == old(isDragging) && isProcessing == old(isProcessing)
        invariant result == old(result) && error == old(error) && stored == old(stored)
      {
        var page := pages[i - 1];
        if page.Unreadable? {
          break;
        }
        extractedVersion, newPrices := ReadPage(pages, i, extractedVersion, newPrices);
        progress := Progress(i, numPages);
        i := i + 1;
      }
      done := i - 1;
      assert ReadSoFar(pages, done, extractedVersion, newPrices);
      if done == numPages {
        assert pages[..numPages] == pages;
      } else {
        assert pages[done].Unreadable?;
      }
    }
  }

  /**
   * After the first `k` pages: all of them could be read, and the version
   * and the prices are those of their texts.
   */
  ghost predicate ReadSoFar(pages: seq<Page>, k: nat, version: string, prices: map<string, real>)
  {
    && k <= |pages|
    && (forall j | 0 <= j < k :: pages[j].Page?)
    && version == ExtractedVersion(Found(Texts(pages[..k])))
    && prices == Collect(TextsRecords(Texts(pages[..k])))
  }

  /**
   * The work done for page `i` (counting from 1): its items are joined into
   * one text, the version is looked for on the first three pages, then the
   * text's segments are scanned for prices.
   */
  method ReadPage(pages: seq<Page>, i: nat, extractedVersion: string, newPrices: map<string, real>)
    returns (version: string, prices: map<string, real>)
    requires 1 <= i <= |pages| && pages[i - 1].Page?
    requires ReadSoFar(pages, i - 1, extractedVersion, newPrices)
    ensures ReadSoFar(pages, i, version, prices)
  {
    ghost var texts := Texts(pages[..i - 1]);
    var textItems := Join(pages[i - 1].items, " ");
    NextText(pages, i - 1);
    version := LookForVersion(i, textItems, extractedVersion, texts);
    prices := ScanPage(textItems, newPrices, TextsRecords(texts));
    NextPageRecords(texts, textItems);
  }

  /** `if (i <= 3)`: the version match of page `i`, when there is one, replaces the version. */
  method LookForVersion(i: nat, textItems: string, extractedVersion: string, ghost texts: seq<string>)
    returns (version: string)
    requires i == |texts| + 1
    requires extractedVersion == ExtractedVersion(Found(texts))
    ensures version == ExtractedVersion(Found(texts + [textItems]))
  {
    version := extractedVersion;
    if i <= VersionPages {
      var versionMatch := VersionIn(textItems);
      if versionMatch.Some? {
        version := "CDHU " + versionMatch.value;
      }
    }
    NextPageVersion(texts, textItems);
  }

  /**
   * The `forEach` over the segments of one page: each segment with a code
   * and a positive last price sets the price of its code.
   */
  method ScanPage(textItems: string, newPrices: map<string, real>, ghost before: seq<PriceRecord>)
    returns (updated: map<string, real>)
    requires newPrices == Collect(before)
    ensures updated == Collect(before + PageRecords(textItems))
  {
    updated := newPrices;
    var lines := SplitAtCodes(textItems);
    var j := 0;
    assert before + SegmentsRecords(lines[..0]) == before;
    while j < |lines|
      invariant 0 <= j <= |lines|
      invariant updated == Collect(before + SegmentsRecords(lines[..j]))
    {
      NextSegment(before, lines, j);
      updated := ScanSegment(lines[j], updated, before + SegmentsRecords(lines[..j]));
      j := j + 1;
    }
    assert lines[..|lines|] == lines;
  }

  /**
   * The body of the `forEach` for one segment: with a code and a last price
   * above zero, that price is set for the code.
   */
  method ScanSegment(line: string, newPrices: map<string, real>, ghost known: seq<PriceRecord>)
    returns (updated: map<string, real>)
    requires newPrices == Collect(known)
    ensures updated == Collect(known + SegmentRecord(line))
  {
    updated := newPrices;
    var codeMatch := SegmentCode(line);
    if codeMatch.Some? {
      var code := codeMatch.value;
      var prices := PricesIn(line);
      if |prices| > 0 {
        var price := prices[|prices| - 1];
        if price > 0.0 {
          updated := updated[code := price];
          assert SegmentRecord(line) == [PriceRecord(code, price)];
          CollectSnoc(known, PriceRecord(code, price));
          return;
        }
      }
    }
    assert SegmentRecord(line) == [];
    assert known + SegmentRecord(line) == known;
  }

  /** A document whose page `k` is the first it cannot read fails after `k` pages. */
  lemma ExtractFails(pages: seq<Page>, k: nat)
    requires k < |pages| && pages[k].Unreadable?
    requires forall j | 0 <= j < k :: pages[j].Page?
    ensures Extract(Some(pages)) == Failed(k)
  {
  }

  /** A document whose pages can all be read comes to the prices and version of its texts. */
  lemma ExtractDone(pages: seq<Page>)
    requires forall j | 0 <= j < |pages| :: pages[j].Page?
    ensures Extract(Some(pages)) == Done(Collect(TextsRecords(Texts(pages))), ExtractedVersion(Found(Texts(pages))))
  {
  }

  /** The texts of one more readable page. */
  lemma NextText(pages: seq<Page>, k: nat)
    requires k < |pages| && pages[k].Page?
    requires forall j | 0 <= j < k :: pages[j].Page?
    ensures Texts(pages[..k + 1]) == Texts(pages[..k]) + [PageText(pages[k])]
  {
  }

  /** Reading one more page extends the records by that page's. */
  lemma NextPageRecords(texts: seq<string>, text: string)
    ensures TextsRecords(texts + [text]) == TextsRecords(texts) + PageRecords(text)
  {
    assert (texts + [text])[..|texts|] == texts;
  }

  /** Reading one more page sets the version when it is among the first three and matches. */
  lemma NextPageVersion(texts: seq<string>, text: string)
    ensures ExtractedVersion(Found(texts + [text])) ==
      if |texts| < VersionPages && VersionIn(text).Some? then "CDHU " + VersionIn(text).value
      else ExtractedVersion(Found(texts))
  {
    var found := Found(texts + [text]);
    assert found == Found(texts) + [VersionIn(text)];
    assert found[..|texts|] == Found(texts);
  }

  /** One more segment adds its record after those of the earlier segments. */
  lemma NextSegment(before: seq<PriceRecord>, lines: seq<string>, j: nat)
    requires j < |lines|
    ensures before + SegmentsRecords(lines[..j + 1]) == before + SegmentsRecords(lines[..j]) + SegmentRecord(lines[j])
  {
    assert lines[..j + 1][..j] == lines[..j];
  }

  // ---------------------------------------------------------------- what the catalog then shows

  /**
   * After a successful upload the catalog reports the stored version, and
   * a catalog item takes the uploaded price, marked, exactly when its code
   * was collected; every other item is left as it is.
   */
  lemma UploadFeedsCatalog(doc: Option<seq<Page>>, today: string)
    requires Extract(doc).Done?
    ensures var d := Extract(doc);
      var st := Catalog.Parsed(Some(Label(d.version, today)), Some(d.prices));
      && Catalog.GetCatalogVersion(st) == Label(d.version, today)
      && forall i | 0 <= i < |Catalog.StaticCatalog| ::
        var item := Catalog.StaticCatalog[i];
        && (item.code in d.prices ==>
              Catalog.GetCatalog(st)[i] == item.(price := d.prices[item.code], description := item.description + Catalog.UpdatedMarker))
        && (item.code !in d.prices ==> Catalog.GetCatalog(st)[i] == item)
  {
    var d := Extract(doc);
    var pages := doc.value;
    ExtractDone(pages);
    CollectedPricesWellFormed(Texts(pages));
    assert d.version != "";
  }
}
