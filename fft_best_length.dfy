/**
 * Rounding a window length up to a length whose FFT is fast
 * (src/FFTBestLength.cxx).  The routine picks one of three fixed ascending
 * tables of "good" lengths, then returns the first table entry that is at
 * least the window length, or the window length itself when it lies above
 * the whole table.
 */
module FFTBestLength {

  /** Lengths used when parity does not matter (keep_odd_even false). */
  const AnyEdges: seq<nat> :=
    [33, 35, 40, 42, 44, 56, 64, 66, 70, 77, 80, 96, 98]
    + [100, 112, 121, 128, 140, 143, 160, 168, 169, 200, 224, 256, 280]
    + [320, 400, 448, 512, 560, 640, 686, 768, 800, 847, 896, 1024, 1120]
    + [1280, 1331, 1372, 1400, 1536, 1600, 1792, 2048, 2560, 2662, 2744, 3200, 4096]
    + [4116, 4480, 4802, 5120, 5324, 5376, 5544, 5600, 5632, 5929, 6174, 6272, 6292]
    + [6655, 7168, 7840, 8192, 8232, 8960, 9317, 10240, 10648, 11979, 14336, 15972, 16384]

  /**
   * Lengths used for an even window when parity should be kept.  Note that
   * this table holds odd entries too (33, 77, 605, 847, 1331, 9317, 11979),
   * so an even input is not guaranteed an even result.
   */
  const EvenEdges: seq<nat> :=
    [33, 77, 128, 130, 200, 256, 280, 320, 400, 448, 512, 560, 605]
    + [686, 768, 800, 847, 882, 960, 980, 1280, 1331, 1372, 1536, 1600, 1792]
    + [2048, 2560, 2662, 2744, 3200, 4096, 4116, 4480, 4802, 5120, 5324, 5544, 5600]
    + [5632, 6174, 6272, 6468, 7168, 7840, 8192, 8232, 8960, 9317, 10240, 10648, 11979]
    + [14336, 15972, 16000, 16384]

  /** Lengths used for an odd window when parity should be kept. */
  const OddEdges: seq<nat> :=
    [33, 35, 39, 49, 55, 63, 65, 77, 81, 91, 99, 121, 143]
    + [169, 175, 187, 225, 231, 245, 275, 297, 343, 363, 375, 385, 405]
    + [441, 455, 495, 539, 605, 637, 693, 735, 847, 875, 891, 945, 1001]
    + [1089, 1331, 1573, 1859, 1875, 2197, 2299, 2431, 2541, 2625, 2695, 3025, 3267]
    + [3993, 4095, 4125, 4719, 4725, 5005, 5145, 5445, 5929, 6655, 7007, 7623, 7865]
    + [9317, 9801, 11979, 14157, 14175, 15379, 16335]

  /** The table fft_best_length scans for the given input. */
  function Edges(windowLength: nat, keepOddEven: bool): seq<nat>
  {
    if !keepOddEven then AnyEdges
    else if windowLength % 2 == 0 then EvenEdges
    else OddEdges
  }

  ghost predicate StrictlyIncreasing(s: seq<nat>)
  {
    forall i, j :: 0 <= i < j < |s| ==> s[i] < s[j]
  }

  /** The table used without parity keeping is strictly ascending. */
  lemma AnyEdgesAscending()
    ensures forall i :: 0 <= i < |AnyEdges| - 1 ==> AnyEdges[i] < AnyEdges[i + 1]
  {
    AnyEdgesAscendingLow();
    AnyEdgesAscendingHigh();
  }

  lemma AnyEdgesAscendingLow()
    ensures forall i :: 0 <= i < 39 ==> AnyEdges[i] < AnyEdges[i + 1]
  {
  }

  lemma AnyEdgesAscendingHigh()
    ensures forall i :: 39 <= i < |AnyEdges| - 1 ==> AnyEdges[i] < AnyEdges[i + 1]
  {
  }

  /** The table used for even windows is strictly ascending. */
  lemma EvenEdgesAscending()
    ensures forall i :: 0 <= i < |EvenEdges| - 1 ==> EvenEdges[i] < EvenEdges[i + 1]
  {
    EvenEdgesAscendingLow();
    EvenEdgesAscendingHigh();
  }

  lemma EvenEdgesAscendingLow()
    ensures forall i :: 0 <= i < 28 ==> EvenEdges[i] < EvenEdges[i + 1]
  {
  }

  lemma EvenEdgesAscendingHigh()
    ensures forall i :: 28 <= i < |EvenEdges| - 1 ==> EvenEdges[i] < EvenEdges[i + 1]
  {
  }

  /** The table used for odd windows is strictly ascending. */
  lemma OddEdgesAscending()
    ensures forall i :: 0 <= i < |OddEdges| - 1 ==> OddEdges[i] < OddEdges[i + 1]
  {
    OddEdgesAscendingLow();
    OddEdgesAscendingHigh();
  }

  lemma OddEdgesAscendingLow()
    ensures forall i :: 0 <= i < 36 ==> OddEdges[i] < OddEdges[i + 1]
  {
  }

  lemma OddEdgesAscendingHigh()
    ensures forall i :: 36 <= i < |OddEdges| - 1 ==> OddEdges[i] < OddEdges[i + 1]
  {
  }

  /** Every entry of the odd table is odd. */
  lemma OddEdgesAreOdd()
    ensures forall i :: 0 <= i < |OddEdges| ==> OddEdges[i] % 2 == 1
  {
    OddEdgesAreOddLow();
    OddEdgesAreOddHigh();
  }

  lemma OddEdgesAreOddLow()
    ensures forall i :: 0 <= i < 36 ==> OddEdges[i] % 2 == 1
  {
  }

  lemma OddEdgesAreOddHigh()
    ensures forall i :: 36 <= i < |OddEdges| ==> OddEdges[i] % 2 == 1
  {
  }

  /** Adjacent ascending steps give a strictly ascending sequence. */
  lemma {:induction false} AdjacentStepsIncrease(s: seq<nat>, i: nat, j: nat)
    requires forall k :: 0 <= k < |s| - 1 ==> s[k] < s[k + 1]
    requires i < j < |s|
    ensures s[i] < s[j]
    decreases j - i
  {
    if i + 1 < j {
      AdjacentStepsIncrease(s, i, j - 1);
    }
  }

  /** The table chosen for any input is non-empty and strictly ascending. */
  lemma EdgesStrictlyIncreasing(windowLength: nat, keepOddEven: bool)
    ensures |Edges(windowLength, keepOddEven)| > 0
    ensures StrictlyIncreasing(Edges(windowLength, keepOddEven))
  {
    var e := Edges(windowLength, keepOddEven);
    if !keepOddEven {
      AnyEdgesAscending();
    } else if windowLength % 2 == 0 {
      EvenEdgesAscending();
    } else {
      OddEdgesAscending();
    }
    forall i, j | 0 <= i < j < |e|
      ensures e[i] < e[j]
    {
      AdjacentStepsIncrease(e, i, j);
    }
  }

  /**
   * The position at which a front-to-back scan of `edges` first meets an
   * entry at least `w`; |edges| when there is none.
   */
  function FirstIndexAtLeast(edges: seq<nat>, w: nat): (k: nat)
    ensures k <= |edges|
    ensures forall j :: 0 <= j < k ==> edges[j] < w
    ensures k < |edges| ==> edges[k] >= w
  {
    if |edges| == 0 || edges[0] >= w then 0
    else 1 + FirstIndexAtLeast(edges[1..], w)
  }

  /**
   * The final scan of fft_best_length over a given table: when the window
   * length does not exceed the last edge, the first edge at least the
   * window length; otherwise (and, unreachably, when the scan finds
   * nothing) the window length.
   */
  function Scan(edges: seq<nat>, windowLength: nat): (r: nat)
    requires |edges| > 0
    ensures r >= windowLength
  {
    var k := FirstIndexAtLeast(edges, windowLength);
    if windowLength <= edges[|edges| - 1] && k < |edges| then edges[k]
    else windowLength
  }

  /** fft_best_length as a function of its inputs. */
  function BestLength(windowLength: nat, keepOddEven: bool): nat
  {
    var edges := Edges(windowLength, keepOddEven);
    assert |edges| > 0 by { EdgesStrictlyIncreasing(windowLength, keepOddEven); }
    Scan(edges, windowLength)
  }

  /**
   * fft_best_length: fill the table for the input, then scan it from the
   * front and return the first entry at least the window length.
   */
  method FftBestLength(windowLength: nat, keepOddEven: bool) returns (r: nat)
    ensures r == BestLength(windowLength, keepOddEven)
    ensures r >= windowLength
  {
    var edges: seq<nat> := [];
    if !keepOddEven {
      edges := edges + AnyEdges;
    } else if windowLength % 2 == 0 {
      edges := edges + EvenEdges;
    } else {
      edges := edges + OddEdges;
    }
    assert edges == Edges(windowLength, keepOddEven);
    EdgesStrictlyIncreasing(windowLength, keepOddEven);
    r := ScanFrom(edges, windowLength);
  }

  /** The scan itself: an early-returning loop over the table. */
  method ScanFrom(edges: seq<nat>, windowLength: nat) returns (r: nat)
    requires |edges| > 0
    ensures r == Scan(edges, windowLength)
  {
    if windowLength <= edges[|edges| - 1] {
      var i := 0;
      while i < |edges|
        invariant 0 <= i <= |edges|
        invariant forall j :: 0 <= j < i ==> edges[j] < windowLength
      {
        if edges[i] >= windowLength {
          return edges[i];
        }
        i := i + 1;
      }
    }
    return windowLength;
  }

  /** Above the last edge of the table, the window length is returned as is. */
  lemma ScanAboveTable(edges: seq<nat>, windowLength: nat)
    requires |edges| > 0 && windowLength > edges[|edges| - 1]
    ensures Scan(edges, windowLength) == windowLength
  {
  }

  /**
   * Up to the last edge of an ascending table, the scan returns an entry of
   * the table, and the smallest entry that is at least the window length.
   */
  lemma ScanIsSmallestEdge(edges: seq<nat>, windowLength: nat)
    requires |edges| > 0 && StrictlyIncreasing(edges)
    requires windowLength <= edges[|edges| - 1]
    ensures Scan(edges, windowLength) in edges
    ensures forall x :: x in edges && x >= windowLength ==> Scan(edges, windowLength) <= x
  {
    var k := FirstIndexAtLeast(edges, windowLength);
    assert k < |edges|;
    forall x | x in edges && x >= windowLength
      ensures edges[k] <= x
    {
      var j :| 0 <= j < |edges| && edges[j] == x;
      assert k <= j;
    }
  }

  /** Scanning again from a result gives that result back. */
  lemma ScanIdempotent(edges: seq<nat>, windowLength: nat)
    requires |edges| > 0
    ensures Scan(edges, Scan(edges, windowLength)) == Scan(edges, windowLength)
  {
    var r := Scan(edges, windowLength);
    var k := FirstIndexAtLeast(edges, windowLength);
    if windowLength <= edges[|edges| - 1] && k < |edges| {
      assert FirstIndexAtLeast(edges, r) == k;
    }
  }

  /** Over an ascending table the scan is non-decreasing in the window length. */
  lemma ScanMonotone(edges: seq<nat>, w1: nat, w2: nat)
    requires |edges| > 0 && StrictlyIncreasing(edges)
    requires w1 <= w2
    ensures Scan(edges, w1) <= Scan(edges, w2)
  {
    if w2 <= edges[|edges| - 1] {
      ScanIsSmallestEdge(edges, w1);
      ScanIsSmallestEdge(edges, w2);
    }
  }

  /** Over a table of odd entries, an odd window length gives an odd result. */
  lemma ScanKeepsOdd(edges: seq<nat>, windowLength: nat)
    requires |edges| > 0
    requires forall i :: 0 <= i < |edges| ==> edges[i] % 2 == 1
    requires windowLength % 2 == 1
    ensures Scan(edges, windowLength) % 2 == 1
  {
    var k := FirstIndexAtLeast(edges, windowLength);
    if windowLength <= edges[|edges| - 1] && k < |edges| {
      assert Scan(edges, windowLength) == edges[k];
    }
  }

  /** Above the last edge of its table, a window length is returned as is. */
  lemma AboveTableUnchanged(windowLength: nat, keepOddEven: bool)
    requires var e := Edges(windowLength, keepOddEven); |e| > 0 && windowLength > e[|e| - 1]
    ensures BestLength(windowLength, keepOddEven) == windowLength
  {
    ScanAboveTable(Edges(windowLength, keepOddEven), windowLength);
  }

  /**
   * Up to the last edge, the result is an entry of the chosen table and the
   * smallest entry that is at least the window length.
   */
  lemma InTableIsSmallestEdge(windowLength: nat, keepOddEven: bool)
    requires var e := Edges(windowLength, keepOddEven); |e| > 0 && windowLength <= e[|e| - 1]
    ensures BestLength(windowLength, keepOddEven) in Edges(windowLength, keepOddEven)
    ensures forall x :: x in Edges(windowLength, keepOddEven) && x >= windowLength ==>
              BestLength(windowLength, keepOddEven) <= x
  {
    EdgesStrictlyIncreasing(windowLength, keepOddEven);
    ScanIsSmallestEdge(Edges(windowLength, keepOddEven), windowLength);
  }

  /** With keep_odd_even set, an odd window length gives an odd result. */
  lemma OddStaysOdd(windowLength: nat)
    requires windowLength % 2 == 1
    ensures BestLength(windowLength, true) % 2 == 1
  {
    OddEdgesAreOdd();
    ScanKeepsOdd(OddEdges, windowLength);
  }

  /**
   * The parity comment holds for odd inputs only: an even window length of
   * 32 with keep_odd_even set is rounded to 33.
   */
  lemma EvenMayBecomeOdd()
    ensures BestLength(32, true) == 33
  {
    assert FirstIndexAtLeast(EvenEdges, 32) == 0;
  }

  /** Without parity keeping, rounding twice is the same as rounding once. */
  lemma Idempotent(windowLength: nat)
    ensures BestLength(BestLength(windowLength, false), false) == BestLength(windowLength, false)
  {
    ScanIdempotent(AnyEdges, windowLength);
  }

  /** Without parity keeping, a longer window is never given a shorter length. */
  lemma Monotone(w1: nat, w2: nat)
    requires w1 <= w2
    ensures BestLength(w1, false) <= BestLength(w2, false)
  {
    EdgesStrictlyIncreasing(w1, false);
    ScanMonotone(AnyEdges, w1, w2);
  }
}
