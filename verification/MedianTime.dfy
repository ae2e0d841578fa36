/** Median time past over the newest timestamps: `src/blockchain.cpp`, timestamp cache. */
module MedianTime {
  import opened Base
  import opened Ledger

  function Insert(x: Int64, s: seq<Int64>): (r: seq<Int64>)
    ensures |r| == |s| + 1
  {
    if s == [] || x <= s[0] then [x] + s else [s[0]] + Insert(x, s[1..])
  }

  /** `std::sort`. */
  function Sort(s: seq<Int64>): (r: seq<Int64>)
    ensures |r| == |s|
  {
    if s == [] then [] else Insert(s[0], Sort(s[1..]))
  }

  /** The middle entry of the sorted times, the upper one for an even count; 0 without any. */
  function Median(s: seq<Int64>): Int64 {
    if s == [] then 0 else Sort(s)[|s| / 2]
  }

  /** The newest time goes to the front; at most `MEDIAN_TIME_SPAN` are kept. */
  function Push(times: seq<Int64>, t: Int64): seq<Int64> {
    if |times| + 1 > MEDIAN_TIME_SPAN then ([t] + times)[..MEDIAN_TIME_SPAN] else [t] + times
  }

  ghost predicate Sorted(s: seq<Int64>) {
    forall i, j :: 0 <= i < j < |s| ==> s[i] <= s[j]
  }

  function CountAtLeast(s: seq<Int64>, v: int): nat {
    if s == [] then 0 else (if s[0] >= v then 1 else 0) + CountAtLeast(s[1..], v)
  }

  /** What stands at a position after an insertion. */
  lemma {:induction false} InsertAt(x: Int64, s: seq<Int64>, i: nat)
    requires i <= |s|
    ensures Insert(x, s)[i] == x || (i < |s| && Insert(x, s)[i] == s[i]) || (i > 0 && Insert(x, s)[i] == s[i - 1])
  {
    if s != [] && x > s[0] && i > 0 {
      InsertAt(x, s[1..], i - 1);
    }
  }

  lemma {:induction false} InsertSorts(x: Int64, s: seq<Int64>)
    requires Sorted(s)
    ensures Sorted(Insert(x, s))
  {
    if s != [] && x > s[0] {
      var rest := Insert(x, s[1..]);
      InsertSorts(x, s[1..]);
      forall i | 0 <= i < |rest| ensures s[0] <= rest[i] {
        InsertAt(x, s[1..], i);
      }
      SortedCons(s[0], rest);
    }
  }

  lemma {:induction false} SortedCons(x: Int64, s: seq<Int64>)
    requires Sorted(s) && forall i :: 0 <= i < |s| ==> x <= s[i]
    ensures Sorted([x] + s)
  {
  }

  lemma {:induction false} InsertCounts(x: Int64, s: seq<Int64>, v: int)
    ensures CountAtLeast(Insert(x, s), v) == CountAtLeast(s, v) + if x >= v then 1 else 0
  {
    if s == [] || x <= s[0] {
      assert ([x] + s)[1..] == s;
    } else {
      InsertCounts(x, s[1..], v);
      assert ([s[0]] + Insert(x, s[1..]))[1..] == Insert(x, s[1..]);
    }
  }

  lemma {:induction false} SortSorts(s: seq<Int64>, v: int)
    ensures Sorted(Sort(s))
    ensures CountAtLeast(Sort(s), v) == CountAtLeast(s, v)
  {
    if s != [] {
      SortSorts(s[1..], v);
      InsertSorts(s[0], Sort(s[1..]));
      InsertCounts(s[0], Sort(s[1..]), v);
    }
  }

  lemma {:induction false} SortedCount(s: seq<Int64>, v: int, k: nat)
    requires Sorted(s) && k < |s|
    ensures s[k] >= v <==> CountAtLeast(s, v) >= |s| - k
  {
    CountBounds(s[1..], v);
    if k > 0 {
      SortedCount(s[1..], v, k - 1);
    } else if s[0] >= v {
      AllAtLeast(s, v);
    }
  }

  lemma {:induction false} CountBounds(s: seq<Int64>, v: int)
    ensures CountAtLeast(s, v) <= |s|
  {
    if s != [] {
      CountBounds(s[1..], v);
    }
  }

  lemma {:induction false} AllAtLeast(s: seq<Int64>, v: int)
    requires forall i :: 0 <= i < |s| ==> s[i] >= v
    ensures CountAtLeast(s, v) == |s|
  {
    if s != [] {
      AllAtLeast(s[1..], v);
    }
  }

  /** The median is at least `v` exactly when enough of the times are. */
  lemma {:induction false} MedianAtLeast(s: seq<Int64>, v: int)
    requires s != []
    ensures Median(s) >= v <==> CountAtLeast(s, v) >= |s| - |s| / 2
  {
    SortSorts(s, v);
    SortedCount(Sort(s), v, |s| / 2);
  }

  lemma {:induction false} CountTake(s: seq<Int64>, v: int)
    requires s != []
    ensures CountAtLeast(s, v) <= CountAtLeast(s[..|s| - 1], v) + 1
  {
    if |s| > 1 {
      CountTake(s[1..], v);
      assert s[1..][..|s| - 2] == s[..|s| - 1][1..];
    }
  }

  /** A time above the median, pushed onto a growing or a full window, never lowers the median. */
  lemma {:induction false} PushKeepsMedian(times: seq<Int64>, t: Int64)
    requires 0 < |times| <= MEDIAN_TIME_SPAN && t > Median(times)
    ensures Median(Push(times, t)) >= Median(times)
  {
    var v := Median(times);
    MedianAtLeast(times, v);
    var grown := [t] + times;
    assert grown[1..] == times;
    assert CountAtLeast(grown, v) == CountAtLeast(times, v) + 1;
    MedianAtLeast(Push(times, t), v);
    if |times| == MEDIAN_TIME_SPAN {
      CountTake(grown, v);
      assert grown[..|grown| - 1] == grown[..MEDIAN_TIME_SPAN];
    }
  }

  /** A time at or below the median can lower it, so the check before the push is what protects it. */
  lemma {:induction false} MedianCanFall()
    ensures Median(Push([5], 4)) == 5 && Median(Push(Push([5], 4), 3)) == 4
  {
  }
}
