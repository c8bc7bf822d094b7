/** The bounded position history of a body: a FIFO queue that keeps at most
    `cap` entries, newest last, evicting the oldest when it overflows. */
module Trail {

  import opened Numeric

  /** A trail capacity.  The source only ever uses 60 or 120. */
  type Capacity = c: nat | 0 < c witness 60

  /** Smaller bodies (radius below 5) get the short trail. */
  function CapFor(radius: int): (c: Capacity)
    ensures c == 120 <==> 5 <= radius
    ensures c == 60 <==> radius < 5
  {
    if radius >= 5 then 120 else 60
  }

  /** Append `p`, then drop at most one entry from the front if the trail
      grew past `cap`. */
  function Push<T>(t: seq<T>, p: T, cap: Capacity): (r: seq<T>)
    ensures |t| < cap ==> r == t + [p]
    ensures cap <= |t| ==> r == t[1..] + [p]
  {
    var appended := t + [p];
    if |appended| > cap then appended[1..] else appended
  }

  /** A trail within its cap stays within it, grows by one until it is
      full, and always ends with the entry just pushed. */
  lemma PushBounded<T>(t: seq<T>, p: T, cap: Capacity)
    requires |t| <= cap
    ensures |Push(t, p, cap)| == MinNat(|t| + 1, cap) <= cap
    ensures Push(t, p, cap)[|Push(t, p, cap)| - 1] == p
  {
  }

  /** Reference definition: the newest `cap` entries of a whole history. */
  function Window<T>(history: seq<T>, cap: Capacity): (w: seq<T>)
    ensures |w| == MinNat(|history|, cap)
  {
    if |history| <= cap then history else history[|history| - cap..]
  }

  /** Pushing onto the window of a history gives the window of the
      extended history: the queue never loses an entry it should keep. */
  lemma PushExtendsWindow<T>(history: seq<T>, p: T, cap: Capacity)
    ensures Push(Window(history, cap), p, cap) == Window(history + [p], cap)
  {
    var h := history + [p];
    if |history| >= cap {
      assert Window(history, cap)[1..] + [p] == h[|h| - cap..];
    }
  }

  /** `PushExtendsWindow` for a history made of an initial trail and the
      entries appended since. */
  lemma PushAfterHistory<T>(start: seq<T>, before: seq<T>, after: seq<T>, p: T, cap: Capacity)
    requires after == before + [p]
    ensures Push(Window(start + before, cap), p, cap) == Window(start + after, cap)
  {
    PushExtendsWindow(start + before, p, cap);
    assert start + before + [p] == start + after;
  }

  /** A trail within its capacity is its own window. */
  lemma ShortTrailIsWindow<T>(t: seq<T>, cap: Capacity)
    requires |t| <= cap
    ensures Window(t, cap) == t
  {
  }
}
