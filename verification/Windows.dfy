/** Windows of one width, in the order they were started, and how far each reaches into the next. */
module Windows {

  /** How long windows overlap the ones before them, added up. */
  function Overlap(starts: seq<int>, width: int): nat {
    if |starts| < 2 then 0
    else
      var n := |starts| - 1;
      var free := starts[n - 1] + width;
      Overlap(starts[..n], width) + (if starts[n] < free then free - starts[n] else 0)
  }

  predicate Spaced(starts: seq<int>, width: int) {
    forall i, j :: 0 <= i < j < |starts| ==> starts[i] + width <= starts[j]
  }

  lemma {:induction false} OverlapSpans(starts: seq<int>, width: int)
    requires starts != []
    ensures width * (|starts| - 1) <= starts[|starts| - 1] - starts[0] + Overlap(starts, width)
  {
    var n := |starts| - 1;
    if n > 0 {
      OverlapSpans(starts[..n], width);
      assert width * n == width * (n - 1) + width;
    }
  }

  lemma {:induction false} NoOverlapIsSpaced(starts: seq<int>, width: nat)
    ensures Overlap(starts, width) == 0 <==> Spaced(starts, width)
  {
    if |starts| >= 2 {
      var n := |starts| - 1;
      NoOverlapIsSpaced(starts[..n], width);
      if Overlap(starts, width) == 0 {
        assert starts[n - 1] + width <= starts[n];
        forall i, j | 0 <= i < j < |starts| ensures starts[i] + width <= starts[j] {
          if j < n {
            assert starts[..n][i] + width <= starts[..n][j];
          } else if i < n - 1 {
            assert starts[..n][i] + width <= starts[..n][n - 1];
          }
        }
      } else {
        PrefixIsSpaced(starts, width, n);
      }
    }
  }

  lemma PrefixIsSpaced(starts: seq<int>, width: int, n: nat)
    requires 0 < n < |starts|
    ensures Spaced(starts, width) ==> Spaced(starts[..n], width) && starts[n - 1] + width <= starts[n]
  {}

  lemma Scale(factor: nat, small: int, large: int)
    ensures small <= large ==> factor * small <= factor * large
  {}

  lemma Quotient(width: int, span: int, count: int)
    requires width > 0 && width * count <= span
    ensures count <= span / width
  {
    var q := span / width;
    assert width * (q + 1) == width * q + width;
    Scale(width, q + 1, count);
  }

  /** Windows that start between two moments, counted by the time between and by their overlap. */
  lemma CountFits(starts: seq<int>, width: int, from: int, to: int)
    requires width > 0 && from <= to
    requires forall start :: start in starts ==> from <= start <= to
    ensures |starts| <= 1 + (to - from + Overlap(starts, width)) / width
  {
    if starts != [] {
      OverlapSpans(starts, width);
      assert starts[0] in starts && starts[|starts| - 1] in starts;
      Quotient(width, to - from + Overlap(starts, width), |starts| - 1);
    }
  }

  /** One more window leaves them spaced exactly when it starts after the last one has ended. */
  lemma SpacedOneMore(starts: seq<int>, start: int, width: int)
    requires width > 0
    ensures Spaced(starts + [start], width) <==>
      Spaced(starts, width) && (starts != [] ==> starts[|starts| - 1] + width <= start)
  {
    var n := |starts|;
    var all := starts + [start];
    if Spaced(all, width) {
      forall i, j | 0 <= i < j < n ensures starts[i] + width <= starts[j] {
        assert all[i] + width <= all[j];
      }
      assert n > 0 ==> all[n - 1] + width <= all[n];
    }
  }

  /** Two windows less a moment hold one whole window. */
  lemma OneWhole(width: int)
    requires width >= 2
    ensures (2 * width - 1) / width == 1
  {
    var q := (2 * width - 1) / width;
    if q >= 2 { Scale(width, 2, q); }
  }

  lemma Doubles(n: int, q: int)
    requires q == 1
    ensures n * (1 + q) == 2 * n
  {}
}
