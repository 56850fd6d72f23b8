/** A register queue kept in order of priority by comparing a new entry with all others at once. */
module PriorityQueue {
  import opened Options

  // `serial` is observed, not stored: which of the enqueued entries this is.
  datatype Entry = Entry(dbuff: nat, priority: nat, cycles: nat, active: bool, serial: nat)

  const PRIORITIES: nat := 1024  // 10-bit priorities

  const IDLE := Entry(0, 0, 0, false, 0)

  // Does a new entry go in front of this one?
  predicate Before(e: Entry, than: Entry) {
    !than.active || e.priority < than.priority
  }

  // One output of an entry: with cycles left it stays, one priority up.
  function Pop(e: Entry): Entry {
    if e.cycles < 1 then e.(active := false)
    else e.(cycles := e.cycles - 1, priority := (e.priority + PRIORITIES - 1) % PRIORITIES)
  }

  // The first entry the new one goes in front of; the last of all if there is none.
  function Place(q: seq<Entry>, e: Entry): (k: nat)
    requires q != []
    ensures k < |q|
    ensures forall j :: 0 <= j < k ==> !Before(e, q[j])
    ensures k < |q| - 1 ==> Before(e, q[k])
  {
    if |q| == 1 || Before(e, q[0]) then 0 else 1 + Place(q[1..], e)
  }

  // All registers change at once; the last one is never written by the new entry.
  function Enqueued(q: seq<Entry>, e: Entry): (r: seq<Entry>)
    requires |q| >= 2
    ensures |r| == |q|
  {
    seq(|q|, k requires 0 <= k < |q| =>
      if k == Place(q, e) && k < |q| - 1 then e.(active := true)
      else if k > 0 && Before(e, q[k - 1]) then q[k - 1] else q[k])
  }

  function Popped(q: seq<Entry>): (r: seq<Entry>)
    requires |q| >= 2
    ensures |r| == |q|
  {
    var p := Pop(q[0]);
    if p.active then q[0 := p] else q[1..] + [q[|q| - 1]]
  }

  /* The queue as a list. */

  // The first `n` registers are active and in order, the others idle.
  ghost predicate Ranked(q: seq<Entry>, n: nat) {
    && n <= |q|
    && (forall k :: 0 <= k < |q| ==> (q[k].active <==> k < n))
    && (forall j, k :: 0 <= j < k < n ==> q[j].priority <= q[k].priority)
  }

  // Behind the entries of the same priority.
  function Insert(l: seq<Entry>, e: Entry): seq<Entry> {
    if l == [] || e.priority < l[0].priority then [e] + l else [l[0]] + Insert(l[1..], e)
  }

  // An insertion point between the entries not above the new one and those above it.
  lemma {:induction false} InsertAt(l: seq<Entry>, e: Entry, k: nat)
    requires k <= |l| && (forall j :: 0 <= j < k ==> l[j].priority <= e.priority)
        && (k < |l| ==> e.priority < l[k].priority)
    ensures Insert(l, e) == l[..k] + [e] + l[k..]
  {
    if k > 0 {
      InsertAt(l[1..], e, k - 1);
      assert l == [l[0]] + l[1..];
    }
  }

  // Where the new entry goes, and what moves.
  lemma PlaceInList(q: seq<Entry>, e: Entry, n: nat)
    requires |q| >= 2 && Ranked(q, n)
    ensures var p := Place(q, e);
      && p <= n
      && (forall k :: 0 <= k < p ==> q[k].active && q[k].priority <= e.priority)
      && (p < |q| - 1 ==> forall k :: p <= k < n ==> e.priority < q[k].priority)
  {
    assert n < |q| ==> Before(e, q[n]);
  }

  // There is a register the new entry is written to: one to spare, or one to push out.
  predicate HasPlace(q: seq<Entry>, n: nat, e: Entry)
    requires |q| >= 2 && n <= |q|
  {
    n < |q| - 1 || e.priority < q[|q| - 2].priority
  }

  lemma PlaceExists(q: seq<Entry>, e: Entry, n: nat)
    requires |q| >= 2 && Ranked(q, n)
    ensures HasPlace(q, n, e) <==> Place(q, e) < |q| - 1
  {
    PlaceInList(q, e, n);
    assert n < |q| ==> Before(e, q[n]);
  }

  lemma EnqueuedAt(q: seq<Entry>, e: Entry, n: nat, k: nat)
    requires |q| >= 2 && Ranked(q, n) && k < |q|
    ensures Enqueued(q, e)[k] ==
      var p := Place(q, e);
      if p == |q| - 1 || k < p then q[k] else if k == p then e.(active := true) else q[k - 1]
  {
    PlaceInList(q, e, n);
    var p := Place(q, e);
    if 0 < k {
      assert q[k - 1].active <==> k - 1 < n;
      assert p < |q| - 1 ==> (Before(e, q[k - 1]) <==> p < k);
    }
    hide Place, Ranked;
  }

  // One entry put into the list at a place that keeps the order.
  lemma Spliced(q: seq<Entry>, r: seq<Entry>, x: Entry, n: nat, p: nat)
    requires Ranked(q, n) && p <= n < |q| == |r| && x.active && r[p] == x
    requires forall k :: 0 <= k < p ==> r[k] == q[k]
    requires forall k :: p < k < |q| ==> r[k] == q[k - 1]
    requires (forall k :: 0 <= k < p ==> q[k].priority <= x.priority) && (p < n ==> x.priority < q[p].priority)
    ensures Ranked(r, n + 1) && r[..n + 1] == q[..n][..p] + [x] + q[..n][p..]
  {
    forall k | 0 <= k < |r| ensures r[k].active <==> k < n + 1 {
      assert k > p ==> r[k] == q[k - 1];
    }
    forall j, k | 0 <= j < k <= n ensures r[j].priority <= r[k].priority {
      assert j > p ==> r[j] == q[j - 1];
      assert k > p ==> r[k] == q[k - 1];
    }
    assert r[p + 1..n + 1] == q[..n][p..] by {
      assert forall k :: p < k <= n ==> r[k] == q[k - 1];
    }
    assert r[..p] == q[..n][..p];
  }

  lemma Inserted(q: seq<Entry>, e: Entry, n: nat)
    requires |q| >= 2 && Ranked(q, n) && n < |q| && HasPlace(q, n, e)
    ensures Ranked(Enqueued(q, e), n + 1) && Enqueued(q, e)[..n + 1] == Insert(q[..n], e.(active := true))
  {
    var r, p, x := Enqueued(q, e), Place(q, e), e.(active := true);
    PlaceInList(q, e, n);
    PlaceExists(q, e, n);
    forall k | 0 <= k < |q|
      ensures (k < p ==> r[k] == q[k]) && (k == p ==> r[k] == x) && (k > p ==> r[k] == q[k - 1])
    {
      EnqueuedAt(q, e, n, k);
    }
    hide Enqueued, Place, Before, Insert, HasPlace;
    Spliced(q, r, x, n, p);
    InsertAt(q[..n], x, p);
  }

  // A new entry that has a place in a queue that is not full joins the list behind its equals.
  // In a full queue it pushes the last entry out, and without a place it is itself dropped.
  lemma EnqueueInserts(q: seq<Entry>, e: Entry, n: nat)
    requires |q| >= 2 && Ranked(q, n)
    ensures var r, l := Enqueued(q, e), Insert(q[..n], e.(active := true));
      if !HasPlace(q, n, e) then r == q
      else if n < |q| then Ranked(r, n + 1) && r[..n + 1] == l
      else Ranked(r, n) && |l| == n + 1 && r == l[..n] && l[n] == q[n - 1]
  {
    PlaceExists(q, e, n);
    if !HasPlace(q, n, e) {
      forall k | 0 <= k < |q| ensures Enqueued(q, e)[k] == q[k] {
        EnqueuedAt(q, e, n, k);
      }
    } else if n < |q| {
      Inserted(q, e, n);
    } else {
      PushedOut(q, e);
    }
  }

  lemma PushedOut(q: seq<Entry>, e: Entry)
    requires |q| >= 2 && Ranked(q, |q|) && HasPlace(q, |q|, e)
    ensures var r, l, n := Enqueued(q, e), Insert(q, e.(active := true)), |q|;
      Ranked(r, n) && |l| == n + 1 && r == l[..n] && l[n] == q[n - 1] && q[..n] == q
  {
    var r, p, x, n := Enqueued(q, e), Place(q, e), e.(active := true), |q|;
    PlaceInList(q, e, n);
    PlaceExists(q, e, n);
    forall k | 0 <= k < n
      ensures (k < p ==> r[k] == q[k]) && (k == p ==> r[k] == x) && (k > p ==> r[k] == q[k - 1])
    {
      EnqueuedAt(q, e, n, k);
    }
    InsertAt(q, x, p);
    hide Enqueued, Place, Before, Insert;
    ShiftedList(q, r, x, p);
    ShiftedOrder(q, r, x, p);
  }

  lemma ShiftedList(q: seq<Entry>, r: seq<Entry>, x: Entry, p: nat)
    requires Shifted(q, r, x, p)
    ensures var l := q[..p] + [x] + q[p..]; |l| == |q| + 1 && r == l[..|q|] && l[|q|] == q[|q| - 1]
  {
    assert r[p + 1..] == q[p..|q| - 1];
    assert r[..p] == q[..p];
    assert r == r[..p] + [r[p]] + r[p + 1..];
  }

  // One entry put in at a place, the last one pushed out.
  ghost predicate Shifted(q: seq<Entry>, r: seq<Entry>, x: Entry, p: nat) {
    && p < |q| == |r| && r[p] == x
    && (forall k :: 0 <= k < p ==> r[k] == q[k])
    && (forall k :: p < k < |q| ==> r[k] == q[k - 1])
  }

  lemma ShiftedOrder(q: seq<Entry>, r: seq<Entry>, x: Entry, p: nat)
    requires Shifted(q, r, x, p) && Ranked(q, |q|) && x.active
    requires (forall k :: 0 <= k < p ==> q[k].priority <= x.priority) && x.priority < q[p].priority
    ensures Ranked(r, |r|)
  {
    forall k | 0 <= k < |r| ensures r[k].active {
      assert k > p ==> r[k] == q[k - 1];
    }
    forall j, k | 0 <= j < k < |r| ensures r[j].priority <= r[k].priority {
      assert j > p ==> r[j] == q[j - 1];
      assert k > p ==> r[k] == q[k - 1];
    }
  }

  // The queue holds what it held and the new entry, in order.
  ghost predicate NothingLost(q: seq<Entry>, n: nat, e: Entry)
    requires |q| >= 2 && n <= |q|
  {
    exists m: nat :: Ranked(Enqueued(q, e), m)
      && multiset(Enqueued(q, e)[..m]) == multiset(q[..n]) + multiset{e.(active := true)}
  }

  lemma {:induction false} InsertedAll(l: seq<Entry>, e: Entry)
    ensures multiset(Insert(l, e)) == multiset(l) + multiset{e}
  {
    if l != [] {
      assert l == [l[0]] + l[1..];
      InsertedAll(l[1..], e);
    }
  }

  lemma OneMore(a: seq<Entry>, b: seq<Entry>, x: Entry)
    requires multiset(a) == multiset(b) + multiset{x}
    ensures |a| == |b| + 1
  {
    assert |multiset(a)| == |a| && |multiset(b)| == |b|;
  }

  // An entry is lost, the new one or another, exactly if every register is in use, or all but
  // one with none above the new entry.
  lemma EnqueueLoses(q: seq<Entry>, e: Entry, n: nat)
    requires |q| >= 2 && Ranked(q, n)
    ensures !NothingLost(q, n, e) <==> n == |q| || (n == |q| - 1 && e.priority >= q[n - 1].priority)
  {
    var r, x := Enqueued(q, e), e.(active := true);
    EnqueueInserts(q, e, n);
    InsertedAll(q[..n], x);
    hide Enqueued, Insert;
    if n < |q| && HasPlace(q, n, e) {
      assert multiset(r[..n + 1]) == multiset(q[..n]) + multiset{x};
    } else if m: nat :| Ranked(r, m) && multiset(r[..m]) == multiset(q[..n]) + multiset{x} {
      OneMore(r[..m], q[..n], x);
      RankedOnce(r, n, m);
    }
  }

  // An entry without cycles left leaves; in a full queue the last entry then stays as well as
  // moving up. An entry with cycles left becomes the new head.
  lemma PopTakesHead(q: seq<Entry>, n: nat)
    requires |q| >= 2 && Ranked(q, n) && 0 < n
    ensures var p := Pop(q[0]);
      if p.active then Popped(q)[..n] == [p] + q[1..n]
      else Popped(q)[..n - 1] == q[1..n] && (n == |q| ==> Popped(q)[n - 1] == q[n - 1])
  {
  }

  // It moves one priority up, or from the highest priority to the lowest. The order holds
  // exactly if it was not at the highest, or is alone, or all others are at the lowest.
  lemma PoppedOrder(q: seq<Entry>, n: nat)
    requires |q| >= 2 && Ranked(q, n) && 0 < n && q[0].cycles > 0
    requires forall k :: 0 <= k < n ==> q[k].priority < PRIORITIES
    ensures Popped(q)[0].priority == if q[0].priority == 0 then PRIORITIES - 1 else q[0].priority - 1
    ensures Ranked(Popped(q), n) <==> q[0].priority > 0 || n == 1 || q[1].priority == PRIORITIES - 1
  {
    var r := Popped(q);
    assert r == q[0 := Pop(q[0])];
    if q[0].priority == 0 && n > 1 && q[1].priority < PRIORITIES - 1 {
      assert r[0].priority > r[1].priority;
    }
  }

  // The head is the least of all entries.
  lemma HeadIsLeast(q: seq<Entry>, n: nat, k: nat)
    requires Ranked(q, n) && k < n
    ensures q[0].priority <= q[k].priority
  {
  }

  // When the head leaves, the rest of the list stays, unless every register is in use: then
  // the last entry is repeated.
  lemma LeavingHead(q: seq<Entry>, n: nat)
    requires |q| >= 2 && Ranked(q, n) && 0 < n && q[0].cycles == 0
    ensures Ranked(Popped(q), n - 1) <==> n < |q|
    ensures n == |q| ==> Popped(q) == q[1..] + [q[n - 1]] && Popped(q)[n - 1].active
  {
    if n == |q| {
      assert Popped(q)[n - 1].active;
    }
  }

  /* One input for each loss. */

  // Two registers, both in use: a new entry in front pushes the last one out.
  lemma FullQueueLoses()
    ensures var a, b, e := Entry(0, 5, 0, true, 0), Entry(0, 6, 0, true, 1), Entry(0, 1, 0, true, 2);
      Enqueued([a, b], e) == [e, a]
  {
    var q, e := [Entry(0, 5, 0, true, 0), Entry(0, 6, 0, true, 1)], Entry(0, 1, 0, true, 2);
    assert Place(q, e) == 0;
  }

  // One of two registers in use, by an entry no lower than the new one: the new one is dropped.
  lemma LastRegisterDrops()
    ensures var a, e := Entry(0, 5, 0, true, 0), Entry(0, 7, 0, true, 1); Enqueued([a, IDLE], e) == [a, IDLE]
  {
    var q, e := [Entry(0, 5, 0, true, 0), IDLE], Entry(0, 7, 0, true, 1);
    assert Place(q[1..], e) == 0 && Place(q, e) == 1;
  }

  // The head of two leaves: the other entry is then there twice.
  lemma FullQueueRepeats()
    ensures var a, b := Entry(0, 5, 0, true, 0), Entry(0, 6, 0, true, 1); Popped([a, b]) == [b, b]
  {
  }

  // A head at the highest priority with a cycle left goes to the lowest and out of order.
  lemma WrapLosesOrder()
    ensures var a, b := Entry(0, 0, 1, true, 0), Entry(0, 6, 0, true, 1);
      Popped([a, b])[0].priority == 1023 && !Ranked(Popped([a, b]), 2)
  {
    var q := [Entry(0, 0, 1, true, 0), Entry(0, 6, 0, true, 1)];
    assert Popped(q)[1] == q[1] && Popped(q)[0].priority == 1023;
  }

  /* Whole runs. */

  // The queue, and the one-entry latch behind it.
  datatype State = State(q: seq<Entry>, latch: Option<Entry>)

  datatype Inputs = Inputs(enqueue: Option<Entry>, ready: bool)

  // A new entry has the cycle to itself.
  function Step(s: State, i: Inputs): (t: State)
    requires |s.q| >= 2
    ensures |t.q| == |s.q|
  {
    var kept := if i.ready then None else s.latch;
    if i.enqueue.Some? then State(Enqueued(s.q, i.enqueue.value), kept)
    else if s.q[0].active && (s.latch.None? || i.ready) then State(Popped(s.q), Some(s.q[0]))
    else State(s.q, kept)
  }

  // The entries that came, and those the reader has taken out of the latch.
  datatype Log = Log(entries: seq<Entry>, delivered: seq<Entry>)

  function Note(s: State, log: Log, i: Inputs): Log {
    Log(log.entries + (if i.enqueue.Some? then [i.enqueue.value.(active := true)] else []),
        log.delivered + if i.ready then Held(s.latch) else [])
  }

  // Taken, or waiting to be taken.
  function Outputs(s: State, log: Log): seq<Entry> {
    log.delivered + Held(s.latch)
  }

  // Does the head leave its register, or go on in it?
  predicate PutsOut(s: State, i: Inputs)
    requires |s.q| >= 2
  {
    i.enqueue.None? && s.q[0].active && (s.latch.None? || i.ready)
  }

  // The reader gets the heads that were put out, each once and in order; what waits in the latch
  // stays there until it is taken.
  lemma LatchPassesOn(s: State, log: Log, i: Inputs)
    requires |s.q| >= 2
    ensures var t := Step(s, i);
      && Outputs(t, Note(s, log, i)) == Outputs(s, log) + (if PutsOut(s, i) then [s.q[0]] else [])
      && (s.latch.Some? && !i.ready ==> t.latch == s.latch)
  {
    hide Enqueued, Popped;
  }

  // The callers give no entry more cycles than priority and number the entries; no entry comes
  // when one would be lost, and no head leaves a full queue.
  ghost predicate Proper(s: State, log: Log, i: Inputs) {
    |s.q| >= 2 &&
    if i.enqueue.Some? then
      var e := i.enqueue.value;
      && e.cycles <= e.priority < PRIORITIES && e.serial == |log.entries|
      && (exists n: nat :: n < |s.q| && Ranked(s.q, n) && HasPlace(s.q, n, e))
    else PutsOut(s, i) && s.q[0].cycles == 0 ==> !s.q[|s.q| - 1].active
  }

  // The priorities an entry is to be put out with: p, p - 1, ..., p - c.
  function Owed(e: Entry): (r: seq<int>)
    ensures |r| == e.cycles + 1 && forall k :: 0 <= k <= e.cycles ==> r[k] == e.priority - k
  {
    seq(e.cycles + 1, k => e.priority - k)
  }

  function AllOwed(l: seq<Entry>, serial: nat): seq<int> {
    if l == [] then [] else (if l[0].serial == serial then Owed(l[0]) else []) + AllOwed(l[1..], serial)
  }

  function PutOut(outputs: seq<Entry>, serial: nat): seq<int> {
    if outputs == [] then []
    else
      var last := outputs[|outputs| - 1];
      PutOut(outputs[..|outputs| - 1], serial) + if last.serial == serial then [last.priority] else []
  }

  lemma {:induction false} InsertOwes(l: seq<Entry>, e: Entry, serial: nat)
    requires forall x :: x in l ==> x.serial != e.serial
    ensures AllOwed(Insert(l, e), serial) == if serial == e.serial then Owed(e) else AllOwed(l, serial)
  {
    var r := Insert(l, e);
    if l == [] || e.priority < l[0].priority {
      assert r[1..] == l;
      NoneOwed(l, e.serial);
    } else {
      assert r[0] == l[0] && r[1..] == Insert(l[1..], e);
      InsertOwes(l[1..], e, serial);
    }
  }

  lemma {:induction false} NoneOwed(l: seq<Entry>, serial: nat)
    requires forall x :: x in l ==> x.serial != serial
    ensures AllOwed(l, serial) == []
  {
    if l != [] {
      NoneOwed(l[1..], serial);
    }
  }

  // What an output leaves to be put out.
  lemma PopOwes(e: Entry)
    requires e.cycles <= e.priority < PRIORITIES
    ensures Owed(e) == [e.priority] + if Pop(e).active then Owed(Pop(e)) else []
    requires e.active
  {
  }

  lemma {:induction false} InsertMembers(l: seq<Entry>, e: Entry, x: Entry)
    requires x in Insert(l, e)
    ensures x == e || x in l
  {
    if l != [] && e.priority >= l[0].priority && x != l[0] {
      InsertMembers(l[1..], e, x);
    }
  }

  lemma {:induction false} NonePutOut(outputs: seq<Entry>, serial: nat)
    requires forall x :: x in outputs ==> x.serial != serial
    ensures PutOut(outputs, serial) == []
  {
    if outputs != [] {
      NonePutOut(outputs[..|outputs| - 1], serial);
    }
  }

  lemma RankedOnce(q: seq<Entry>, n: nat, m: nat)
    requires Ranked(q, n) && Ranked(q, m)
    ensures n == m
  {
    assert n < |q| ==> (q[n].active <==> n < m);
    assert m < |q| ==> (q[m].active <==> m < n);
  }

  // Of each entry, what was put out and what its register still owes make up p, p - 1, ..., p - c.
  ghost predicate Serves(outputs: seq<Entry>, l: seq<Entry>, entries: seq<Entry>) {
    && (forall x :: x in outputs || x in l ==> x.serial < |entries|)
    && (forall x :: x in l ==> x.active && x.cycles <= x.priority < PRIORITIES)
    && (forall k :: 0 <= k < |entries| ==> PutOut(outputs, k) + AllOwed(l, k) == Owed(entries[k]))
  }

  lemma InsertServes(outputs: seq<Entry>, l: seq<Entry>, entries: seq<Entry>, e: Entry)
    requires Serves(outputs, l, entries) && e.active && e.cycles <= e.priority < PRIORITIES && e.serial == |entries|
    ensures Serves(outputs, Insert(l, e), entries + [e])
  {
    hide Owed, Insert, PutOut, AllOwed;
    forall x | x in Insert(l, e) ensures x == e || x in l {
      InsertMembers(l, e, x);
    }
    NonePutOut(outputs, e.serial);
    forall k: nat | k <= |entries|
      ensures PutOut(outputs, k) + AllOwed(Insert(l, e), k) == Owed((entries + [e])[k])
    {
      InsertOwes(l, e, k);
      assert [] + Owed(e) == Owed(e);
    }
  }

  lemma PopServes(outputs: seq<Entry>, l: seq<Entry>, entries: seq<Entry>)
    requires l != [] && Serves(outputs, l, entries)
    ensures Serves(outputs + [l[0]], (if Pop(l[0]).active then [Pop(l[0])] else []) + l[1..], entries)
  {
    var h, p, rest := l[0], Pop(l[0]), l[1..];
    var left := (if p.active then [p] else []) + rest;
    assert l == [h] + rest;
    PopOwes(h);
    forall k: nat | k < |entries| ensures PutOut(outputs + [h], k) + AllOwed(left, k) == Owed(entries[k]) {
      assert PutOut(outputs, k) + AllOwed(l, k) == Owed(entries[k]);
      PopOwesAll(outputs, h, rest, k);
    }
    hide Owed, PutOut, AllOwed;
  }

  lemma PopOwesAll(outputs: seq<Entry>, h: Entry, rest: seq<Entry>, k: nat)
    requires h.active && h.cycles <= h.priority < PRIORITIES
    ensures PutOut(outputs + [h], k) + AllOwed((if Pop(h).active then [Pop(h)] else []) + rest, k)
         == PutOut(outputs, k) + AllOwed([h] + rest, k)
  {
    var p := Pop(h);
    PopOwes(h);
    hide Owed;
    assert (outputs + [h])[..|outputs|] == outputs;
    assert AllOwed([h] + rest, k) == (if h.serial == k then Owed(h) else []) + AllOwed(rest, k) by {
      assert ([h] + rest)[1..] == rest;
    }
    if p.active {
      assert ([p] + rest)[1..] == rest;
    } else {
      assert [] + rest == rest;
    }
  }

  ghost predicate Ok(s: State, log: Log, n: nat) {
    && |s.q| >= 2 && Ranked(s.q, n) && Serves(Outputs(s, log), s.q[..n], log.entries)
  }

  lemma HeadIsReady(s: State, log: Log, n: nat)
    requires Ok(s, log, n) && s.q[0].active
    ensures 0 < n && s.q[..n][0] == s.q[0] && s.q[..n][1..] == s.q[1..n]
    ensures s.q[0].cycles <= s.q[0].priority < PRIORITIES
  {
    assert s.q[0] in s.q[..n];
  }

  lemma StepOk(s: State, log: Log, i: Inputs, n: nat) returns (m: nat)
    requires Ok(s, log, n) && Proper(s, log, i)
    ensures Ok(Step(s, i), Note(s, log, i), m)
  {
    hide Serves, Insert, Enqueued, Popped, Outputs;
    LatchPassesOn(s, log, i);
    var out := Outputs(s, log);
    assert out + [] == out && log.entries + [] == log.entries;
    m := n;
    if i.enqueue.Some? {
      var e := i.enqueue.value;
      var k: nat :| k < |s.q| && Ranked(s.q, k) && HasPlace(s.q, k, e);
      RankedOnce(s.q, n, k);
      EnqueueInserts(s.q, e, n);
      InsertServes(out, s.q[..n], log.entries, e.(active := true));
      m := n + 1;
    } else if PutsOut(s, i) {
      HeadIsReady(s, log, n);
      PopServes(out, s.q[..n], log.entries);
      PoppedOk(s, log, n);
      m := if Pop(s.q[0]).active then n else n - 1;
    }
  }

  lemma PoppedOk(s: State, log: Log, n: nat)
    requires Ok(s, log, n) && s.q[0].active && (s.q[0].cycles == 0 ==> !s.q[|s.q| - 1].active)
    ensures var p := Pop(s.q[0]); var m := if p.active then n else n - 1;
      && 0 < n && Ranked(Popped(s.q), m)
      && Popped(s.q)[..m] == (if p.active then [p] else []) + s.q[..n][1..]
  {
    HeadIsReady(s, log, n);
    PopTakesHead(s.q, n);
    if Pop(s.q[0]).active {
      assert forall k :: 0 <= k < n ==> s.q[k] in s.q[..n];
      PoppedOrder(s.q, n);
    } else {
      LeavingHead(s.q, n);
      assert [] + s.q[..n][1..] == s.q[1..n];
    }
  }

  function Initial(size: nat): State {
    State(seq(size, _ => IDLE), None)
  }

  function Run(size: nat, ins: seq<Inputs>): (s: State)
    requires 2 <= size
    ensures |s.q| == size
  {
    if ins == [] then Initial(size) else Step(Run(size, ins[..|ins| - 1]), ins[|ins| - 1])
  }

  function Noted(size: nat, ins: seq<Inputs>): Log
    requires 2 <= size
  {
    if ins == [] then Log([], []) else Note(Run(size, ins[..|ins| - 1]), Noted(size, ins[..|ins| - 1]), ins[|ins| - 1])
  }

  // Over every run, what the reader has taken and what waits in the latch have of each entry (p, c)
  // the priorities p, p - 1, ..., in order, and the registers have the rest up to p - c; the head is
  // the least of what is there.
  lemma {:induction false} RunServes(size: nat, ins: seq<Inputs>) returns (n: nat)
    requires 2 <= size
    requires forall j :: 0 <= j < |ins| ==> Proper(Run(size, ins[..j]), Noted(size, ins[..j]), ins[j])
    ensures Ok(Run(size, ins), Noted(size, ins), n)
    ensures forall k :: 0 <= k < n ==> Run(size, ins).q[0].priority <= Run(size, ins).q[k].priority
  {
    n := 0;
    if ins != [] {
      var last := |ins| - 1;
      assert forall j :: 0 <= j < last ==> ins[..last][..j] == ins[..j];
      var m := RunServes(size, ins[..last]);
      n := StepOk(Run(size, ins[..last]), Noted(size, ins[..last]), ins[last], m);
      hide Step, Note, Proper, Serves;
    }
  }

  /* Left to itself, the queue is emptied. */

  const READ := Inputs(None, true)

  // Outputs the entries still owe.
  function Load(l: seq<Entry>): nat {
    if l == [] then 0 else l[0].cycles + 1 + Load(l[1..])
  }

  function Later(s: State, log: Log, cycles: nat): ((State, Log))
    requires |s.q| >= 2
    decreases cycles
  {
    if cycles == 0 then (s, log) else Later(Step(s, READ), Note(s, log, READ), cycles - 1)
  }

  // With a ready reader and nothing new, one entry is put out in each cycle, and one cycle more
  // delivers the last: of every entry all c + 1 outputs have come, in order.
  lemma {:induction false} Drains(s: State, log: Log, n: nat)
    requires Ok(s, log, n) && n < |s.q|
    ensures var (t, all) := Later(s, log, Load(s.q[..n]) + 1);
      && t.latch == None && Ranked(t.q, 0) && all.entries == log.entries
      && forall k :: 0 <= k < |log.entries| ==> PutOut(all.delivered, k) == Owed(log.entries[k])
    decreases Load(s.q[..n])
  {
    hide Serves, Insert, Enqueued, Popped, Outputs, Owed, PutOut;
    var t, more := Step(s, READ), Note(s, log, READ);
    var m := StepOk(s, log, READ, n);
    assert log.entries + [] == log.entries;
    if n > 0 {
      HeadIsReady(s, log, n);
      PoppedOk(s, log, n);
      RankedOnce(t.q, m, if Pop(s.q[0]).active then n else n - 1);
      PopLoad(s.q[..n]);
      Drains(t, more, m);
    } else {
      assert Later(s, log, 1) == Later(t, more, 0);
      RankedOnce(t.q, m, 0);
      AllDelivered(t, more);
    }
  }

  lemma PopLoad(l: seq<Entry>)
    requires l != [] && l[0].active
    ensures Load((if Pop(l[0]).active then [Pop(l[0])] else []) + l[1..]) == Load(l) - 1
  {
    var p := Pop(l[0]);
    if p.active {
      assert ([p] + l[1..])[1..] == l[1..];
    } else {
      assert [] + l[1..] == l[1..];
    }
  }

  lemma AllDelivered(s: State, log: Log)
    requires Ok(s, log, 0) && s.latch == None
    ensures forall k :: 0 <= k < |log.entries| ==> PutOut(log.delivered, k) == Owed(log.entries[k])
  {
    assert log.delivered + [] == log.delivered;
    forall k: nat | k < |log.entries| ensures PutOut(log.delivered, k) == Owed(log.entries[k]) {
      assert PutOut(Outputs(s, log), k) + AllOwed(s.q[..0], k) == Owed(log.entries[k]);
    }
    hide Owed, PutOut;
  }

  /* The registers, updated in place. */

  class Queue {
    const q: array<Entry>
    var latch: Option<Entry>

    function Now(): State
      reads this, q
    {
      State(q[..], latch)
    }

    constructor (size: nat)
      requires 2 <= size
      ensures Now() == Initial(size) && fresh(q)
    {
      q := new Entry[size](_ => IDLE);
      latch := None;
      new;
      assert q[..] == seq<Entry>(size, _ => IDLE);
    }

    // All comparisons are made with the registers as they were; a register takes the new
    // entry, its neighbour's, or keeps its own.
    method Enqueue(e: Entry)
      requires q.Length >= 2
      modifies q
      ensures q[..] == Enqueued(old(q[..]), e)
    {
      var was := q[..];
      var place := Place(was, e);
      var k := q.Length - 1;
      while k > 0
        invariant 0 <= k < q.Length
        invariant forall j :: 0 <= j <= k ==> q[j] == was[j]
        invariant forall j :: k < j < q.Length ==> q[j] == Enqueued(was, e)[j]
      {
        if k == place && k < q.Length - 1 {
          q[k] := e.(active := true);
        } else if Before(e, was[k - 1]) {
          q[k] := was[k - 1];
        }
        k := k - 1;
      }
      if place == 0 {
        q[0] := e.(active := true);
      }
    }

    method PutOut()
      requires q.Length >= 2
      modifies q, this`latch
      ensures q[..] == Popped(old(q[..])) && latch == Some(old(q[0]))
    {
      latch := Some(q[0]);
      var pop := Pop(q[0]);
      if pop.active {
        q[0] := pop;
      } else {
        ghost var was := q[..];
        for k := 0 to q.Length - 1
          invariant latch == Some(was[0])
          invariant forall j :: 0 <= j < k ==> q[j] == was[j + 1]
          invariant forall j :: k <= j < q.Length ==> q[j] == was[j]
        {
          q[k] := q[k + 1];
        }
      }
    }

    // One clock edge.
    method Clock(i: Inputs)
      requires q.Length >= 2
      modifies this, q
      ensures Now() == Step(old(Now()), i)
    {
      var free := latch.None? || i.ready;
      if i.ready {
        latch := None;
      }
      if i.enqueue.Some? {
        Enqueue(i.enqueue.value);
      } else if q[0].active && free {
        PutOut();
      }
    }
  }
}
