/** Merging the traces of several threads into one, by time. */
module TraceMerge {

  const MAX_TIME: nat := 0xFFFF_FFFF_FFFF_FFFF

  datatype Event = Event(timestamp: nat, format: string, args: seq<nat>)

  // One line of output: an event of a thread.
  datatype Line = Line(thread: nat, event: Event)

  type Trace = seq<Event>

  predicate Ordered(q: Trace) {
    forall j, k :: 0 <= j < k < |q| ==> q[j].timestamp <= q[k].timestamp
  }

  /* The starting time: the latest of the oldest times. */

  function Oldest(q: Trace): nat {
    if q == [] then 0 else q[0].timestamp
  }

  function StartTime(qs: seq<Trace>): (t: nat)
    ensures forall i :: 0 <= i < |qs| ==> Oldest(qs[i]) <= t
    ensures t == 0 || exists i :: 0 <= i < |qs| && Oldest(qs[i]) == t
  {
    if qs == [] then 0
    else
      var n := |qs| - 1;
      var t := StartTime(qs[..n]);
      if Oldest(qs[n]) > t then Oldest(qs[n]) else t
  }

  /* Skipping. */

  function SkipBefore(q: Trace, t: nat): (r: Trace)
    ensures |r| <= |q| && r == q[|q| - |r|..]
  {
    if q != [] && q[0].timestamp < t then SkipBefore(q[1..], t) else q
  }

  // In an ordered trace, what is skipped is earlier than the starting time and what is kept is not.
  lemma {:induction false} SkipIsExact(q: Trace, t: nat, k: nat)
    requires Ordered(q) && k < |q|
    ensures k < |q| - |SkipBefore(q, t)| <==> q[k].timestamp < t
  {
    var rest := q[1..];
    if q[0].timestamp >= t {
      assert SkipBefore(q, t) == q;
      assert q[0].timestamp <= q[k].timestamp;
    } else {
      assert SkipBefore(q, t) == SkipBefore(rest, t);
      hide SkipBefore;
      if k > 0 {
        assert rest[k - 1] == q[k];
        assert forall i :: 0 <= i < |rest| ==> rest[i] == q[i + 1];
        SkipIsExact(rest, t, k - 1);
      }
    }
  }

  /* Choosing the earliest head. */

  // Thread `i` has an event to print, and it is earlier than the largest time there is.
  predicate Eligible(qs: seq<Trace>, i: int) {
    0 <= i < |qs| && qs[i] != [] && qs[i][0].timestamp < MAX_TIME
  }

  // The first thread with the earliest eligible event, none if there is no such event.
  function Earliest(qs: seq<Trace>): (r: int)
    ensures -1 <= r < |qs|
    ensures r >= 0 ==> Eligible(qs, r) && forall i :: Eligible(qs, i) ==> qs[r][0].timestamp <= qs[i][0].timestamp
    ensures r >= 0 ==> forall i :: Eligible(qs, i) && i < r ==> qs[r][0].timestamp < qs[i][0].timestamp
    ensures r == -1 ==> forall i :: !Eligible(qs, i)
  {
    if qs == [] then -1
    else
      var n := |qs| - 1;
      var r := Earliest(qs[..n]);
      assert forall i :: 0 <= i < n ==> Eligible(qs, i) == Eligible(qs[..n], i);
      if Eligible(qs, n) && (r < 0 || qs[n][0].timestamp < qs[r][0].timestamp) then n else r
  }

  function Size(qs: seq<Trace>): nat {
    if qs == [] then 0 else |qs[0]| + Size(qs[1..])
  }

  lemma {:induction false} SizeTail(qs: seq<Trace>, i: nat)
    requires i < |qs| && qs[i] != []
    ensures Size(qs[i := qs[i][1..]]) == Size(qs) - 1
  {
    if i == 0 {
      assert qs[i := qs[i][1..]][1..] == qs[1..];
    } else {
      assert qs[i := qs[i][1..]][1..] == qs[1..][i - 1 := qs[i][1..]];
      SizeTail(qs[1..], i - 1);
    }
  }

  function Merge(qs: seq<Trace>): (out: seq<Line>)
    decreases Size(qs)
  {
    var r := Earliest(qs);
    if r < 0 then []
    else
      SizeTail(qs, r);
      [Line(r, qs[r][0])] + Merge(qs[r := qs[r][1..]])
  }

  /* What the merge prints. */

  // The events of one thread among the lines.
  function OfThread(out: seq<Line>, i: nat): Trace {
    if out == [] then []
    else (if out[0].thread == i then [out[0].event] else []) + OfThread(out[1..], i)
  }

  // A trace up to the first event with the largest time.
  function Printable(q: Trace): Trace {
    if q == [] || q[0].timestamp >= MAX_TIME then [] else [q[0]] + Printable(q[1..])
  }

  // The events of every thread are printed in its order, each once, up to the first one with
  // the largest time there is; that one stops its thread.
  lemma {:induction false} MergeIsComplete(qs: seq<Trace>, i: nat)
    requires i < |qs|
    ensures OfThread(Merge(qs), i) == Printable(qs[i])
    decreases Size(qs)
  {
    var r := Earliest(qs);
    if r >= 0 {
      SizeTail(qs, r);
      MergeIsComplete(qs[r := qs[r][1..]], i);
      assert Merge(qs)[1..] == Merge(qs[r := qs[r][1..]]);
    } else {
      assert !Eligible(qs, i);
    }
  }

  lemma {:induction false} AllPrintable(q: Trace)
    ensures Printable(q) == q <==> forall k :: 0 <= k < |q| ==> q[k].timestamp < MAX_TIME
  {
    if q != [] {
      AllPrintable(q[1..]);
      assert q == [q[0]] + q[1..];
    }
  }

  // An event with the largest time hides a later one of its thread.
  lemma LargestTimeStops()
    ensures Printable([Event(MAX_TIME, "a", []), Event(0, "b", [])]) == []
  {
  }

  lemma {:induction false} PrintablePrefix(q: Trace)
    ensures |Printable(q)| <= |q| && Printable(q) == q[..|Printable(q)|]
  {
    if q != [] && q[0].timestamp < MAX_TIME {
      PrintablePrefix(q[1..]);
      assert q == [q[0]] + q[1..];
    }
  }

  // In an ordered trace, exactly the events before the largest time are printable.
  lemma {:induction false} PrintableIsExact(q: Trace, k: nat)
    requires Ordered(q) && k < |q|
    ensures k < |Printable(q)| <==> q[k].timestamp < MAX_TIME
  {
    if q[0].timestamp >= MAX_TIME {
      assert q[0].timestamp <= q[k].timestamp;
    } else if k > 0 {
      PrintableIsExact(q[1..], k - 1);
    }
  }

  lemma OrderedTail(q: Trace, n: nat)
    requires Ordered(q) && n <= |q|
    ensures Ordered(q[n..])
  {
  }

  // What is printed of an ordered trace from a starting time on, by position.
  lemma PrintedPart(q: Trace, t: nat)
    ensures var kept := SkipBefore(q, t); var cut := |q| - |kept|; var end := cut + |Printable(kept)|;
      end <= |q| && Printable(kept) == q[cut..end]
  {
    hide SkipBefore, Printable;
    PrintablePrefix(SkipBefore(q, t));
  }

  lemma PrintedAt(q: Trace, t: nat, k: nat)
    requires Ordered(q) && k < |q|
    ensures var kept := SkipBefore(q, t); var cut := |q| - |kept|; var end := cut + |Printable(kept)|;
      cut <= k < end <==> t <= q[k].timestamp < MAX_TIME
  {
    hide SkipBefore, Printable, Ordered;
    var kept := SkipBefore(q, t);
    var cut := |q| - |kept|;
    SkipIsExact(q, t, k);
    OrderedTail(q, cut);
    if cut <= k {
      PrintableIsExact(q[cut..], k - cut);
    }
  }

  // Lines name threads there are.
  lemma {:induction false} MergeThreads(qs: seq<Trace>, k: nat)
    requires k < |Merge(qs)|
    ensures Merge(qs)[k].thread < |qs|
    decreases Size(qs)
  {
    var r := Earliest(qs);
    if r >= 0 && k > 0 {
      SizeTail(qs, r);
      MergeThreads(qs[r := qs[r][1..]], k - 1);
    }
  }

  // From ordered traces, the lines come out in order of time.
  lemma {:induction false} MergeIsOrdered(qs: seq<Trace>)
    requires forall i :: 0 <= i < |qs| ==> Ordered(qs[i])
    ensures forall j, k :: 0 <= j < k < |Merge(qs)| ==> Merge(qs)[j].event.timestamp <= Merge(qs)[k].event.timestamp
    decreases Size(qs)
  {
    var r := Earliest(qs);
    if r >= 0 {
      SizeTail(qs, r);
      var rest := qs[r := qs[r][1..]];
      MergeIsOrdered(rest);
      forall k | 0 <= k < |Merge(rest)| ensures qs[r][0].timestamp <= Merge(rest)[k].event.timestamp {
        LaterLines(rest, qs[r][0].timestamp, k);
      }
    }
  }

  // No line is earlier than a time no event is earlier than.
  lemma {:induction false} LaterLines(qs: seq<Trace>, t: nat, k: nat)
    requires k < |Merge(qs)|
    requires forall i, j :: 0 <= i < |qs| && 0 <= j < |qs[i]| ==>
               t <= qs[i][j].timestamp || qs[i][j].timestamp >= MAX_TIME
    ensures t <= Merge(qs)[k].event.timestamp
    decreases Size(qs)
  {
    var r := Earliest(qs);
    if k > 0 {
      SizeTail(qs, r);
      LaterLines(qs[r := qs[r][1..]], t, k - 1);
    }
  }
}
