/**
  Looping the background audio track to the length of the video.

  The track is a sequence of samples and the target duration a number of
  samples. A track at least as long as the target is cut to the target;
  a shorter one is repeated a whole number of times (the least number that
  covers the target) and the concatenation is cut to the target.
 */
module AudioLoop {

  /** What looping produces: the trimmed samples, or the division by zero
      that a silent (zero-length) track causes when the ratio is computed. */
  datatype Outcome<T> = Trimmed(samples: seq<T>) | DivisionByZero

  /** The ceiling of d / n: the least number of copies of an n-sample track
      that together hold at least d samples. */
  function CeilDiv(d: nat, n: nat): (loops: nat)
    requires n > 0
    ensures loops * n >= d
    ensures (loops - 1) * n < d
  {
    var q := (d + n - 1) / n;
    var rem := (d + n - 1) % n;
    assert d + n - 1 == q * n + rem;
    assert (q - 1) * n == q * n - n;
    q
  }

  /** k copies of the track, end to end, in the order the loop appends them. */
  function Repeat<T>(track: seq<T>, k: nat): (r: seq<T>)
    ensures |r| == k * |track|
  {
    if k == 0 then [] else Repeat(track, k - 1) + track
  }

  /** Division with remainder has one answer: a remainder in [0, n) that
      completes some multiple of n to x is x % n. */
  lemma ModUnique(x: int, n: int, q: int, r: int)
    requires n > 0 && 0 <= r < n && x == q * n + r
    ensures x % n == r
  {
    var q', r' := x / n, x % n;
    assert x == q' * n + r';
    var dq := q - q';
    assert dq * n == r' - r by {
      assert q * n - q' * n == (q - q') * n;
    }
    assert dq == 0;
  }

  /** Every sample of k concatenated copies is the track's sample at the
      same position modulo the track length. */
  lemma {:induction false} RepeatAt<T>(track: seq<T>, k: nat, i: nat)
    requires |track| > 0 && i < k * |track|
    ensures Repeat(track, k)[i] == track[i % |track|]
  {
    var n := |track|;
    assert k > 0;
    var prev := Repeat(track, k - 1);
    assert |prev| == (k - 1) * n;
    if i < (k - 1) * n {
      RepeatAt(track, k - 1, i);
    } else {
      var j := i - (k - 1) * n;
      ModUnique(i, n, k - 1, j);
      assert Repeat(track, k)[i] == track[j];
    }
  }

  /** Cutting any number of copies that covers d gives the same d samples:
      how many copies were concatenated leaves no trace in the result. */
  lemma {:induction false} CopiesBeyondNeedAreTrimmed<T>(track: seq<T>, k1: nat, k2: nat, d: nat)
    requires |track| > 0 && k1 * |track| >= d && k2 * |track| >= d
    ensures Repeat(track, k1)[..d] == Repeat(track, k2)[..d]
  {
    forall i | 0 <= i < d
      ensures Repeat(track, k1)[i] == Repeat(track, k2)[i]
    {
      RepeatAt(track, k1, i);
      RepeatAt(track, k2, i);
    }
  }

  /** Loops `track` until it holds `d` samples and cuts it to exactly `d`.
      The result is the first d samples of the endless repetition of the
      track; a track already long enough is only cut. */
  method LoopToDuration<T>(track: seq<T>, d: nat) returns (r: Outcome<T>)
    ensures |track| >= d ==> r == Trimmed(track[..d])
    ensures |track| == 0 && d > 0 ==> r == DivisionByZero
    ensures |track| > 0 ==> r.Trimmed? && |r.samples| == d
    ensures |track| > 0 ==> forall i :: 0 <= i < d ==> r.samples[i] == track[i % |track|]
  {
    var n := |track|;
    if n >= d {
      forall i | 0 <= i < d
        ensures i % n == i
      {
        ModUnique(i, n, 0, i);
      }
      return Trimmed(track[..d]);
    }
    if n == 0 {
      // the ratio d / n is a division by zero
      return DivisionByZero;
    }
    var loops := CeilDiv(d, n);
    var clips := seq(loops, _ => track);
    var concatenated := clips[0];
    for c := 1 to loops
      invariant concatenated == Repeat(track, c)
      invariant |concatenated| == c * n
    {
      assert clips[c] == track;
      assert (c + 1) * n == c * n + n;
      concatenated := concatenated + clips[c];
    }
    assert concatenated == Repeat(track, loops);
    forall i | 0 <= i < d
      ensures concatenated[i] == track[i % n]
    {
      RepeatAt(track, loops, i);
    }
    r := Trimmed(concatenated[..d]);
  }
}
