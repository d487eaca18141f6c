/** The median of the timestamps of the last eleven blocks, which every new
    block's timestamp must exceed. */
module MedianTime {
  import opened Basics

  const WINDOW: nat := 11

  // ----- sorting and the upper median

  function InsertSorted(x: nat, s: seq<nat>): (r: seq<nat>)
    ensures |r| == |s| + 1
  {
    if s == [] || x <= s[0] then [x] + s else [s[0]] + InsertSorted(x, s[1..])
  }

  function Sort(s: seq<nat>): (r: seq<nat>)
    ensures |r| == |s|
  {
    if s == [] then [] else InsertSorted(s[0], Sort(s[1..]))
  }

  function Median(times: seq<nat>): nat {
    if times == [] then 0 else Sort(times)[|times| / 2]
  }

  predicate Sorted(s: seq<nat>) {
    |s| <= 1 || (s[0] <= s[1] && Sorted(s[1..]))
  }

  /** How many of the timestamps are at or above `m`. */
  function CountAtLeast(s: seq<nat>, m: nat): nat {
    if s == [] then 0 else (if s[0] >= m then 1 else 0) + CountAtLeast(s[1..], m)
  }

  lemma {:induction false} InsertSortedSound(x: nat, s: seq<nat>, m: nat)
    requires Sorted(s)
    ensures var r := InsertSorted(x, s);
            && Sorted(r) && r != [] && r[0] == (if s == [] then x else Min(x, s[0]))
            && CountAtLeast(r, m) == (if x >= m then 1 else 0) + CountAtLeast(s, m)
  {
    if s == [] || x <= s[0] {
      assert ([x] + s)[1..] == s;
    } else {
      InsertSortedSound(x, s[1..], m);
      var r := InsertSorted(x, s[1..]);
      assert ([s[0]] + r)[1..] == r;
    }
  }

  lemma {:induction false} SortSound(s: seq<nat>, m: nat)
    ensures Sorted(Sort(s))
    ensures CountAtLeast(Sort(s), m) == CountAtLeast(s, m)
  {
    if s != [] {
      SortSound(s[1..], m);
      InsertSortedSound(s[0], Sort(s[1..]), m);
    }
  }

  lemma {:induction false} CountOfSorted(s: seq<nat>, k: nat, m: nat)
    requires Sorted(s) && k < |s|
    ensures s[k] >= m <==> CountAtLeast(s, m) >= |s| - k
  {
    CountAtMost(s[1..], m);
    if s[0] >= m {
      CountAll(s, m, k);
    } else if k > 0 {
      CountOfSorted(s[1..], k - 1, m);
    }
  }

  lemma {:induction false} CountAtMost(s: seq<nat>, m: nat)
    ensures CountAtLeast(s, m) <= |s|
  {
    if s != [] {
      CountAtMost(s[1..], m);
    }
  }

  lemma {:induction false} CountAll(s: seq<nat>, m: nat, k: nat)
    requires Sorted(s) && k < |s| && s[0] >= m
    ensures CountAtLeast(s, m) == |s| && s[k] >= m
  {
    if |s| > 1 {
      CountAll(s[1..], m, if k == 0 then 0 else k - 1);
    }
  }

  lemma {:induction false} CountConcat(a: seq<nat>, b: seq<nat>, m: nat)
    ensures CountAtLeast(a + b, m) == CountAtLeast(a, m) + CountAtLeast(b, m)
  {
    if a == [] {
      assert a + b == b;
    } else {
      CountConcat(a[1..], b, m);
      assert (a + b)[1..] == a[1..] + b;
    }
  }

  /** The median without sorting: it reaches `m` exactly when at least half of
      the window (rounded up) does. */
  lemma MedianReaches(s: seq<nat>, m: nat)
    requires s != []
    ensures Median(s) >= m <==> CountAtLeast(s, m) >= |s| - |s| / 2
  {
    SortSound(s, m);
    CountOfSorted(Sort(s), |s| / 2, m);
  }

  function Reverse(s: seq<nat>): (r: seq<nat>)
    ensures |r| == |s|
  {
    if s == [] then [] else Reverse(s[1..]) + [s[0]]
  }

  lemma {:induction false} CountOfReverse(s: seq<nat>, m: nat)
    ensures CountAtLeast(Reverse(s), m) == CountAtLeast(s, m)
  {
    if s != [] {
      CountOfReverse(s[1..], m);
      CountConcat(Reverse(s[1..]), [s[0]], m);
    }
  }

  /** The median is the same whichever end the window is read from. */
  lemma MedianOfReverse(s: seq<nat>)
    ensures Median(Reverse(s)) == Median(s)
  {
    if s != [] {
      var a, b := Median(s), Median(Reverse(s));
      CountOfReverse(s, a);
      CountOfReverse(s, b);
      MedianReaches(s, a);
      MedianReaches(s, b);
      MedianReaches(Reverse(s), a);
      MedianReaches(Reverse(s), b);
    }
  }

  // ----- the sliding window

  /** The last eleven entries, or all of them while there are fewer. */
  function Window(times: seq<nat>): seq<nat> {
    if |times| <= WINDOW then times else times[|times| - WINDOW..]
  }

  /** The timestamp rule for the block at height `i`. */
  predicate ExceedsMedianAt(times: seq<nat>, i: nat)
    requires i < |times|
  {
    times[i] > MedianBefore(times, i)
  }

  /** Every timestamp after the first exceeds the median of the window before it. */
  predicate ExceedsMedians(times: seq<nat>) {
    forall i :: 0 < i < |times| ==> ExceedsMedianAt(times, i)
  }

  lemma MedianStep(times: seq<nat>, next: nat)
    requires times != []
    requires next > Median(Window(times))
    ensures Median(Window(times)) <= Median(Window(times + [next]))
  {
    hide Median;
    var w, w' := Window(times), Window(times + [next]);
    var m := Median(w);
    MedianReaches(w, m);
    MedianReaches(w', m);
    CountConcat(w, [next], m);
    assert CountAtLeast([next], m) == 1;
    if |times| >= WINDOW {
      assert w + [next] == [w[0]] + w';
      CountConcat([w[0]], w', m);
      assert CountAtLeast([w[0]], m) <= 1;
    } else {
      assert w' == w + [next];
    }
  }

  /** The median of the window that ends just below height `i`. */
  function MedianBefore(times: seq<nat>, i: nat): nat
    requires i <= |times|
  {
    Median(Window(times[..i]))
  }

  lemma MedianStepAt(times: seq<nat>, i: nat)
    requires 1 < i <= |times| && ExceedsMedianAt(times, i - 1)
    ensures MedianBefore(times, i - 1) <= MedianBefore(times, i)
  {
    hide Median;
    var before := times[..i - 1];
    MedianStep(before, times[i - 1]);
    assert times[..i] == before + [times[i - 1]];
  }

  /** The median before each block after the first, in chain order. */
  function Medians(times: seq<nat>): seq<nat> {
    seq(|times|, i requires 0 <= i < |times| => MedianBefore(times, i + 1))
  }

  lemma {:induction false} StepwiseMonotone(s: seq<nat>, i: nat, j: nat)
    requires forall k :: 0 < k < |s| ==> s[k - 1] <= s[k]
    requires i <= j < |s|
    ensures s[i] <= s[j]
    decreases j
  {
    if i < j {
      StepwiseMonotone(s, i, j - 1);
    }
  }

  /** If every block passes the timestamp rule, the median time never goes
      back, from the very first block on. */
  lemma MedianNeverDecreases(times: seq<nat>, i: nat, j: nat)
    requires ExceedsMedians(times)
    requires i <= j < |times|
    ensures Medians(times)[i] <= Medians(times)[j]
  {
    hide MedianBefore;
    var s := Medians(times);
    forall k | 0 < k < |s|
      ensures s[k - 1] <= s[k]
    {
      MedianStepAt(times, k + 1);
    }
    StepwiseMonotone(s, i, j);
  }

  // ----- the in-memory deque

  /** `push_back`, then `pop_front` if more than eleven entries are held. */
  function PushTimestamp(deque: seq<nat>, t: nat): seq<nat> {
    var pushed := deque + [t];
    if |pushed| > WINDOW then pushed[1..] else pushed
  }

  /** Pushing onto the window of a chain gives the window of the longer chain. */
  lemma PushKeepsWindow(times: seq<nat>, t: nat)
    ensures PushTimestamp(Window(times), t) == Window(times + [t])
  {
  }

  // ----- the database scan

  /** The timestamps stored for the heights `lo .. hi`, lowest first; a height
      without a stored hash or block is skipped. */
  function StoredTimes(heightKeys: map<nat, Hash>, headers: map<Hash, Header>, lo: nat, hi: nat): seq<nat>
    requires lo <= hi
    decreases hi - lo
  {
    if lo == hi then [] else
      var rest := StoredTimes(heightKeys, headers, lo + 1, hi);
      if lo in heightKeys && heightKeys[lo] in headers
      then [headers[heightKeys[lo]].timestamp] + rest else rest
  }

  /** Reads the window from the given height downwards and takes the median. */
  method ScanMedian(heightKeys: map<nat, Hash>, headers: map<Hash, Header>, height: nat) returns (median: nat)
    ensures median == Median(StoredTimes(heightKeys, headers, Max(0, height - 10), height + 1))
  {
    var lo := Max(0, height - 10);
    var times := [];
    var i := height + 1;
    while i > lo
      invariant lo <= i <= height + 1
      invariant times == Reverse(StoredTimes(heightKeys, headers, i, height + 1))
    {
      i := i - 1;
      if i in heightKeys && heightKeys[i] in headers {
        times := times + [headers[heightKeys[i]].timestamp];
      }
    }
    var sorted := Sort(times);
    median := if |times| == 0 then 0 else sorted[|times| / 2];
    MedianOfReverse(StoredTimes(heightKeys, headers, lo, height + 1));
  }

  /** The stored heights of a range whose timestamps reach `m`. */
  function Reaching(heightKeys: map<nat, Hash>, headers: map<Hash, Header>, lo: nat, hi: nat, m: nat): set<nat> {
    set h | lo <= h < hi && h in heightKeys && heightKeys[h] in headers && headers[heightKeys[h]].timestamp >= m
  }

  lemma {:induction false} StoredTimesCount(heightKeys: map<nat, Hash>, headers: map<Hash, Header>,
                                           lo: nat, hi: nat, m: nat)
    requires lo <= hi
    ensures CountAtLeast(StoredTimes(heightKeys, headers, lo, hi), m) == |Reaching(heightKeys, headers, lo, hi, m)|
    decreases hi - lo
  {
    if lo < hi {
      StoredTimesCount(heightKeys, headers, lo + 1, hi, m);
      var all, rest := Reaching(heightKeys, headers, lo, hi, m), Reaching(heightKeys, headers, lo + 1, hi, m);
      assert all == if lo in all then rest + {lo} else rest;
      if lo in heightKeys && heightKeys[lo] in headers {
        CountConcat([headers[heightKeys[lo]].timestamp], StoredTimes(heightKeys, headers, lo + 1, hi), m);
      }
    } else {
      assert Reaching(heightKeys, headers, lo, hi, m) == {};
    }
  }

  /** Whatever is missing, the median of the scan reaches `m` exactly when at least half
      of the stored heights of the range (rounded up) do. */
  lemma ScanMedianReaches(heightKeys: map<nat, Hash>, headers: map<Hash, Header>, lo: nat, hi: nat, m: nat)
    requires lo <= hi && StoredTimes(heightKeys, headers, lo, hi) != []
    ensures var stored := |Reaching(heightKeys, headers, lo, hi, 0)|;
            Median(StoredTimes(heightKeys, headers, lo, hi)) >= m
            <==> |Reaching(heightKeys, headers, lo, hi, m)| >= stored - stored / 2
  {
    var times := StoredTimes(heightKeys, headers, lo, hi);
    hide StoredTimes, Reaching, Median;
    StoredTimesCount(heightKeys, headers, lo, hi, m);
    StoredTimesCount(heightKeys, headers, lo, hi, 0);
    CountZero(times);
    MedianReaches(times, m);
  }

  lemma {:induction false} CountZero(s: seq<nat>)
    ensures CountAtLeast(s, 0) == |s|
  {
    if s != [] {
      CountZero(s[1..]);
    }
  }

  /** When every height of the chain is stored, the scan sees the window. */
  lemma {:induction false} StoredTimesAreChain(heightKeys: map<nat, Hash>, headers: map<Hash, Header>,
                                              times: seq<nat>, lo: nat, hi: nat)
    requires lo <= hi <= |times|
    requires forall h :: 0 <= h < |times| ==> h in heightKeys && heightKeys[h] in headers
    requires forall h :: 0 <= h < |times| ==> headers[heightKeys[h]].timestamp == times[h]
    ensures StoredTimes(heightKeys, headers, lo, hi) == times[lo..hi]
    decreases hi - lo
  {
    if lo < hi {
      StoredTimesAreChain(heightKeys, headers, times, lo + 1, hi);
    }
  }
}
