/** The read pipeline of a RAM segment: stages that close up behind the one that is empty. */
module RamPipeline {
  import opened Options

  // Stage 0 is where reads enter; the last stage is offered to the reader.
  type Pipe<T> = seq<Option<T>>

  // What is in the pipeline, oldest first.
  function Contents<T>(p: Pipe<T>): (c: seq<T>)
    ensures |c| <= |p|
  {
    if p == [] then []
    else
      var n := |p| - 1;
      (if p[n].Some? then [p[n].value] else []) + Contents(p[..n])
  }

  predicate Full<T>(p: Pipe<T>) {
    forall k :: 0 <= k < |p| ==> p[k].Some?
  }

  lemma {:induction false} FullCount<T>(p: Pipe<T>)
    ensures |Contents(p)| == |p| <==> Full(p)
  {
    if p != [] {
      var n := |p| - 1;
      FullCount(p[..n]);
      assert Full(p) <==> p[n].Some? && Full(p[..n]) by {
        assert forall k :: 0 <= k < n ==> p[..n][k] == p[k];
      }
      hide Full;
    }
  }

  // Every stage in front of which another one is empty moves up.
  function CloseUp<T>(p: Pipe<T>): (r: Pipe<T>)
    ensures |r| == |p|
    ensures r != [] && !Full(p) ==> r[0].None?
  {
    if p == [] then []
    else
      var n := |p| - 1;
      if p[n].None? then [None] + p[..n] else CloseUp(p[..n]) + [p[n]]
  }

  // One clock edge without a new read: with `ready`, the offered stage is taken and all move.
  function Slide<T>(p: Pipe<T>, ready: bool): (r: Pipe<T>)
    requires p != []
    ensures |r| == |p|
  {
    if ready then [None] + p[..|p| - 1] else CloseUp(p)
  }

  predicate Offers<T>(p: Pipe<T>)
    requires p != []
  {
    p[|p| - 1].Some?
  }

  // Room for a read at this edge.
  predicate Accepts<T>(p: Pipe<T>, ready: bool) {
    ready || !Full(p)
  }

  function Clock<T>(p: Pipe<T>, ready: bool, read: Option<T>): (r: Pipe<T>)
    requires p != []
    ensures |r| == |p|
  {
    var q := Slide(p, ready);
    if Accepts(p, ready) && read.Some? then q[0 := read] else q
  }

  /* The pipeline is a queue. */

  lemma {:induction false} EntryContents<T>(p: Pipe<T>, x: Option<T>)
    ensures Contents([x] + p) == Contents(p) + Held(x)
  {
    hide Contents;
    var q := [x] + p;
    LastContents(q);
    if p == [] {
      assert q[..0] == [] && q[0] == x;
      NoContents<T>();
    } else {
      var n := |p| - 1;
      EntryContents(p[..n], x);
      assert q[..n + 1] == [x] + p[..n] && q[n + 1] == p[n];
      LastContents(p);
      assert Held(p[n]) + (Contents(p[..n]) + Held(x)) == (Held(p[n]) + Contents(p[..n])) + Held(x);
    }
  }

  lemma NoContents<T>()
    ensures Contents<T>([]) == []
  {
  }

  lemma LastContents<T>(p: Pipe<T>)
    requires p != []
    ensures Contents(p) == Held(p[|p| - 1]) + Contents(p[..|p| - 1])
  {
  }

  lemma {:induction false} CloseUpContents<T>(p: Pipe<T>)
    ensures Contents(CloseUp(p)) == Contents(p)
  {
    if p != [] {
      var n := |p| - 1;
      if p[n].None? {
        EntryContents(p[..n], None);
      } else {
        CloseUpContents(p[..n]);
        assert CloseUp(p)[..n] == CloseUp(p[..n]);
      }
    }
  }

  lemma SlideContents<T>(p: Pipe<T>, ready: bool)
    requires p != []
    ensures Contents(Slide(p, ready)) == if ready && Offers(p) then Contents(p)[1..] else Contents(p)
    ensures Offers(p) ==> Contents(p) != [] && Contents(p)[0] == p[|p| - 1].value
    ensures Accepts(p, ready) ==> Slide(p, ready)[0].None?
  {
    if ready {
      EntryContents(p[..|p| - 1], None);
    } else {
      CloseUpContents(p);
    }
  }

  // A read put into an empty first stage is the youngest word.
  lemma EnterContents<T>(q: Pipe<T>, read: Option<T>)
    requires q != [] && q[0].None?
    ensures Contents(q[0 := read]) == Contents(q) + Held(read)
  {
    var rest := q[1..];
    assert q == [q[0]] + rest && q[0 := read] == [read] + rest;
    hide Contents, Full;
    EntryContents(rest, q[0]);
    EntryContents(rest, read);
    assert Contents(rest) + [] == Contents(rest);
  }

  // A pipeline of any depth hands its words out in the order they were read, drops none, and
  // takes a new one exactly when it says so.
  lemma ClockContents<T>(p: Pipe<T>, ready: bool, read: Option<T>)
    requires p != []
    ensures Contents(Clock(p, ready, read))
         == (if ready && Offers(p) then Contents(p)[1..] else Contents(p))
            + if Accepts(p, ready) then Held(read) else []
    ensures Offers(p) ==> Contents(p) != [] && Contents(p)[0] == p[|p| - 1].value
  {
    hide Contents, Full, Slide;
    SlideContents(p, ready);
    if Accepts(p, ready) && read.Some? {
      EnterContents(Slide(p, ready), read);
    }
  }

  /* Pipelines that are clocked together. */

  predicate InStep<T>(p: Pipe<T>, q: Pipe<T>) {
    |p| == |q| && forall k :: 0 <= k < |p| ==> p[k].Some? == q[k].Some?
  }

  lemma {:induction false} CloseUpInStep<T>(p: Pipe<T>, q: Pipe<T>)
    requires InStep(p, q)
    ensures InStep(CloseUp(p), CloseUp(q)) && |Contents(p)| == |Contents(q)|
  {
    if p != [] {
      CloseUpInStep(p[..|p| - 1], q[..|p| - 1]);
    }
  }

  lemma ClockInStep<T>(p: Pipe<T>, q: Pipe<T>, ready: bool, x: Option<T>, y: Option<T>)
    requires p != [] && InStep(p, q) && x.Some? == y.Some?
    ensures InStep(Clock(p, ready, x), Clock(q, ready, y))
    ensures Accepts(p, ready) == Accepts(q, ready) && Offers(p) == Offers(q) && |Contents(p)| == |Contents(q)|
  {
    hide CloseUp, Contents;
    CloseUpInStep(p, q);
  }
}
