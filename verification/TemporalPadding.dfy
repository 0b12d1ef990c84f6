/** Reflection padding of a frame sequence (`pad_temporal_frames`), with a closed form for the result. */
module TemporalPadding {
  import opened Wrappers
  import opened Blocks

  datatype PadError = EmptyFrames

  /** Height of the zigzag after `turn` steps of a period of `2 * half`. */
  function Fold(half: nat, turn: nat): int { if turn < half then turn + 1 else 2 * half - turn }

  /**
   Source index of padded frame `k` for `n` input frames. After frame 0 the indices run with period
   `2 * (n - 1)`: up from 1 to `n - 1`, then down from `n - 1` to 1.
   */
  function Zigzag(n: nat, k: nat): (i: nat)
    requires n > 0
    ensures i < n
  {
    if n == 1 || k == 0 then 0
    else
      Fold(n - 1, (k - 1) % (2 * (n - 1)))
  }

  /** The input is a prefix. */
  lemma ZigzagPrefix(n: nat, k: nat)
    requires k < n
    ensures Zigzag(n, k) == k
  {
    if k > 0 {
      Decomposition(k - 1, 2 * (n - 1), 0, k - 1);
    }
  }

  lemma FoldIsSmooth(half: nat, turn: nat, next: nat)
    requires turn < 2 * half && next == if turn + 1 < 2 * half then turn + 1 else 0
    ensures -1 <= Fold(half, next) - Fold(half, turn) <= 1
  {
  }

  /** Neighbouring frames come from neighbouring (or equal) source frames. */
  lemma ZigzagIsSmooth(n: nat, k: nat)
    requires n > 0
    ensures -1 <= Zigzag(n, k + 1) - Zigzag(n, k) <= 1
  {
    if n > 1 && k > 0 {
      var p := 2 * (n - 1);
      NextRemainder(k - 1, p);
      assert k - 1 + 1 == k;
      FoldIsSmooth(n - 1, (k - 1) % p, k % p);
    } else if n > 1 {
      ZigzagPrefix(n, 1);
    }
  }

  /** Appending the reversed sequence continues the zigzag whenever the length is one more than a multiple of `n - 1`. */
  lemma MirrorContinues(n: nat, m: nat, length: nat, i: nat)
    requires n > 1 && length == m * (n - 1) + 1 && i < length - 1
    ensures Zigzag(n, length + i) == Zigzag(n, length - 1 - i)
  {
    var period := 2 * (n - 1);
    assert (length + i - 1) + (length - 2 - i) + 1 == m * period;
    ComplementaryRemainders(length + i - 1, length - 2 - i, m, period);
  }

  /** The padded sequence: `frames` itself when it is long enough, otherwise `target` zigzagging frames. */
  function Padded<T>(frames: seq<T>, target: int): seq<T>
    requires frames != [] || target <= 0
  {
    if |frames| >= target then frames
    else
      seq(target, k requires 0 <= k < target => frames[Zigzag(|frames|, k)])
  }

  function Reverse<T>(s: seq<T>): seq<T> {
    seq(|s|, i requires 0 <= i < |s| => s[|s| - 1 - i])
  }

  function Pow2(k: nat): nat { if k == 0 then 1 else 2 * Pow2(k - 1) }

  /** `padded` follows the zigzag over `frames`. */
  ghost predicate Follows<T>(padded: seq<T>, frames: seq<T>)
    requires frames != []
  {
    forall k: nat | k < |padded| :: padded[k] == frames[Zigzag(|frames|, k)]
  }

  /** Length of the padded sequence after `turns` full reflections: the length minus one doubles at each. */
  ghost function Doubled(n: nat, turns: nat): (length: nat)
    requires n > 0
    ensures length >= n && (n == 1 ==> length == 1)
  {
    if turns == 0 then n else 2 * Doubled(n, turns - 1) - 1
  }

  lemma {:induction false} DoubledIsMultiple(n: nat, turns: nat)
    requires n > 0
    ensures Doubled(n, turns) == Pow2(turns) * (n - 1) + 1
  {
    if turns > 0 {
      DoubledIsMultiple(n, turns - 1);
      assert Pow2(turns) * (n - 1) == 2 * (Pow2(turns - 1) * (n - 1));
    }
  }

  lemma ReflectionFollows<T>(padded: seq<T>, frames: seq<T>, turns: nat, padLen: nat)
    requires |frames| > 1 && Follows(padded, frames)
    requires |padded| == Doubled(|frames|, turns) && padLen < |padded|
    ensures Follows(padded + Reverse(padded)[..padLen], frames)
  {
    var next := padded + Reverse(padded)[..padLen];
    DoubledIsMultiple(|frames|, turns);
    forall k: nat | k < |next| ensures next[k] == frames[Zigzag(|frames|, k)] {
      if k >= |padded| {
        MirrorContinues(|frames|, Pow2(turns), |padded|, k - |padded|);
      }
    }
  }

  lemma InputFollows<T>(frames: seq<T>)
    requires frames != []
    ensures Follows(frames, frames)
  {
    forall k: nat | k < |frames| ensures Zigzag(|frames|, k) == k {
      ZigzagPrefix(|frames|, k);
    }
  }

  /** A single frame is repeated. */
  lemma RepetitionFollows<T>(padded: seq<T>, frames: seq<T>, count: nat)
    requires |frames| == 1 && Follows(padded, frames) && padded != []
    ensures Follows(padded + seq(count, _ => padded[|padded| - 1]), frames)
  {
  }

  lemma FollowsIsPadded<T>(padded: seq<T>, frames: seq<T>, target: nat)
    requires frames != [] && |frames| < target && |padded| == target && Follows(padded, frames)
    ensures padded == Padded(frames, target)
  {
  }

  /** `pad_temporal_frames`. `turns` counts the reflections; the last one started below `target`. */
  method PadTemporalFrames<T>(frames: seq<T>, target: int) returns (r: Result<seq<T>, PadError>, ghost turns: nat)
    ensures r.Err? <==> frames == [] && target > 0
    ensures r.Ok? ==> r.value == Padded(frames, target) && |r.value| == Max(|frames|, target)
    ensures r.Ok? && turns > 0 ==> frames != [] && Doubled(|frames|, turns - 1) < target
  {
    turns := 0;
    if |frames| >= target {
      return Ok(frames), 0;
    }
    if |frames| == 0 {
      return Err(EmptyFrames), 0;
    }
    var padded := frames;
    InputFollows(frames);
    while |padded| < target
      invariant |frames| <= |padded| <= target
      invariant Follows(padded, frames)
      invariant |padded| < target ==> |padded| == Doubled(|frames|, turns)
      invariant turns > 0 ==> Doubled(|frames|, turns - 1) < target
    {
      var padLen := Min(|padded| - 1, target - |padded|);
      if padLen <= 0 {
        RepetitionFollows(padded, frames, target - |padded|);
        padded := padded + seq(target - |padded|, _ => padded[|padded| - 1]);
        break;
      }
      ReflectionFollows(padded, frames, turns, padLen);
      padded := padded + Reverse(padded)[..padLen];
      turns := turns + 1;
    }
    FollowsIsPadded(padded, frames, target);
    return Ok(padded), turns;
  }
}
