/** A status is given up only after its RAM writes are done: the done counters behind `writesDone`. */
module EngineWrites {
  import opened Options
  import opened TlpSizing
  import opened TlpStream
  import opened Ring
  import opened ReadEngine
  import opened EngineTags
  import opened EngineStatus
  import EngineCredits
  import opened EngineCounts
  import opened EngineOps
  import opened EngineData
  import opened EngineFates
  import opened EngineAccept
  import opened EngineRuns
  import opened EngineProgress
  import EngineRows
  import C = CompletionPath

  const OUTPUT_SLOTS := 32  // at which a done counter stops

  // One RAM segment: its done counter; and, observed, the operations of the writes made to it in
  // their order, and how many of them the RAM has finished.
  datatype Lane = Lane(count: nat, made: seq<nat>, finished: nat)

  // The segments each status under way waits for, oldest first; and the segments.
  datatype Writes = Writes(masks: seq<set<nat>>, lanes: seq<Lane>)

  // In one cycle: the segments the word received is written to, none where it holds no data to
  // write, and those whose RAM reports a write done.
  datatype Pulses = Pulses(mask: set<nat>, done: set<nat>)

  // The counter goes up by a write done, down by a status popped, and stays when both come.
  function Counted(count: nat, done: bool, ack: bool): nat {
    if count < OUTPUT_SLOTS && done && !ack then count + 1
    else if count > 0 && !done && ack then count - 1
    else count
  }

  function LaneNext(l: Lane, done: bool, ack: bool, more: seq<nat>): Lane {
    Lane(Counted(l.count, done, ack), l.made + more, l.finished + Bit(done))
  }

  // Every segment the held status waits for has a write done that is not matched yet.
  predicate HeldDone(w: Writes) {
    w.masks != [] && forall n :: 0 <= n < |w.lanes| && n in w.masks[0] ==> w.lanes[n].count > 0
  }

  // The engine's input says so, and a RAM reports no write done that was not made.
  predicate Reports(b: State, i: Inputs, w: Writes, p: Pulses) {
    && (b.stRead.valid ==> (i.writesDone <==> HeldDone(w)))
    && forall n :: 0 <= n < |w.lanes| && n in p.done ==> w.lanes[n].finished < |w.lanes[n].made|
  }

  // The write side after an edge at which the oldest status is popped or not, and the status of a
  // received word, if any, joins those under way.
  function WritesNext(pops: bool, sent: seq<Status>, w: Writes, p: Pulses): (r: Writes)
    requires pops ==> w.masks != []
    ensures |r.lanes| == |w.lanes|
  {
    var ack := if pops then w.masks[0] else {};
    Writes((if pops then w.masks[1..] else w.masks) + (if sent != [] then [p.mask] else []),
           seq(|w.lanes|, n requires 0 <= n < |w.lanes| =>
             LaneNext(w.lanes[n], n in p.done, n in ack, if sent != [] && n in p.mask then [sent[0].op] else [])))
  }

  /* One segment. */

  // The operations of the statuses that wait for it.
  function Waiting(q: seq<Status>, masks: seq<set<nat>>, n: nat): seq<nat>
    requires |q| == |masks|
  {
    if q == [] then [] else (if n in masks[0] then [q[0].op] else []) + Waiting(q[1..], masks[1..], n)
  }

  lemma {:induction false} WaitingAppend(q: seq<Status>, masks: seq<set<nat>>, st: Status, mask: set<nat>, n: nat)
    requires |q| == |masks|
    ensures Waiting(q + [st], masks + [mask], n) == Waiting(q, masks, n) + if n in mask then [st.op] else []
  {
    if q == [] {
      assert q + [st] == [st] && masks + [mask] == [mask];
    } else {
      assert (q + [st])[1..] == q[1..] + [st] && (masks + [mask])[1..] == masks[1..] + [mask];
      WaitingAppend(q[1..], masks[1..], st, mask, n);
    }
  }

  lemma {:induction false} WaitingBound(q: seq<Status>, masks: seq<set<nat>>, n: nat)
    requires |q| == |masks|
    ensures |Waiting(q, masks, n)| <= |q|
    ensures forall op :: op in Waiting(q, masks, n) ==> exists k :: 0 <= k < |q| && q[k].op == op
  {
    if q != [] {
      WaitingBound(q[1..], masks[1..], n);
      forall op | op in Waiting(q, masks, n) ensures exists k :: 0 <= k < |q| && q[k].op == op {
        if op != q[0].op {
          var k :| 0 <= k < |q[1..]| && q[1..][k].op == op;
          assert q[k + 1].op == op;
        }
      }
    }
  }

  // The writes not matched to a status yet are those of the statuses under way, in their order.
  ghost predicate LaneOk(q: seq<Status>, masks: seq<set<nat>>, n: nat, l: Lane) {
    && |q| == |masks| && l.count <= l.finished <= |l.made|
    && l.made[l.finished - l.count..] == Waiting(q, masks, n)
  }

  // Its counter never stops short: fewer writes are unmatched than statuses are under way.
  lemma CountedExactly(l: Lane, done: bool, ack: bool)
    requires l.count <= l.finished <= |l.made| && |l.made| - (l.finished - l.count) <= OUTPUT_SLOTS
    requires (done ==> l.finished < |l.made|) && (ack ==> l.count > 0)
    ensures Counted(l.count, done, ack) == l.count + Bit(done) - Bit(ack)
  {
  }

  lemma LanePops(q: seq<Status>, masks: seq<set<nat>>, n: nat, l: Lane, done: bool)
    requires LaneOk(q, masks, n, l) && |q| <= OUTPUT_SLOTS && q != [] && (n in masks[0] ==> l.count > 0)
    requires done ==> l.finished < |l.made|
    ensures LaneOk(q[1..], masks[1..], n, LaneNext(l, done, n in masks[0], []))
  {
    WaitingBound(q, masks, n);
    CountedExactly(l, done, n in masks[0]);
    hide Counted;
    var matched := l.finished - l.count;
    assert l.made + [] == l.made;
    if n in masks[0] {
      assert l.made[matched + 1..] == l.made[matched..][1..];
    }
  }

  lemma LaneWaits(q: seq<Status>, masks: seq<set<nat>>, n: nat, l: Lane, done: bool)
    requires LaneOk(q, masks, n, l) && |q| <= OUTPUT_SLOTS && (done ==> l.finished < |l.made|)
    ensures LaneOk(q, masks, n, LaneNext(l, done, false, []))
  {
    WaitingBound(q, masks, n);
    CountedExactly(l, done, false);
    hide Counted, Waiting;
    assert l.made + [] == l.made;
  }

  lemma LaneAdds(q: seq<Status>, masks: seq<set<nat>>, n: nat, l: Lane, st: Status, mask: set<nat>)
    requires LaneOk(q, masks, n, l)
    ensures LaneOk(q + [st], masks + [mask], n, l.(made := l.made + if n in mask then [st.op] else []))
  {
    var more := if n in mask then [st.op] else [];
    WaitingAppend(q, masks, st, mask, n);
    hide Waiting;
    assert (l.made + more)[l.finished - l.count..] == l.made[l.finished - l.count..] + more;
  }

  lemma LaneSteps(q: seq<Status>, masks: seq<set<nat>>, n: nat, l: Lane, pops: bool, done: bool, more: seq<Status>,
                  mask: set<nat>)
    requires LaneOk(q, masks, n, l) && |q| <= OUTPUT_SLOTS && |more| <= 1
    requires pops ==> q != [] && (n in masks[0] ==> l.count > 0)
    requires done ==> l.finished < |l.made|
    ensures var rest, left := if pops then q[1..] else q, if pops then masks[1..] else masks;
      LaneOk(rest + more, left + (if more != [] then [mask] else []), n,
             LaneNext(l, done, pops && n in masks[0], if more != [] && n in mask then [more[0].op] else []))
  {
    var rest, left := if pops then q[1..] else q, if pops then masks[1..] else masks;
    var k := LaneNext(l, done, pops && n in masks[0], []);
    if pops {
      LanePops(q, masks, n, l, done);
    } else {
      LaneWaits(q, masks, n, l, done);
    }
    assert LaneOk(rest, left, n, k);
    hide LaneOk, Counted;
    assert k.made == l.made && k.made + [] == k.made;
    if more != [] {
      assert more == [more[0]];
      LaneAdds(rest, left, n, k, more[0], mask);
    } else {
      assert rest + more == rest && left + [] == left;
    }
  }

  /* All segments. */

  ghost predicate WritesOk(s: State, w: Writes)
    requires Shaped(s)
  {
    |w.masks| == |Queued(s)| && forall n :: 0 <= n < |w.lanes| ==> LaneOk(Queued(s), w.masks, n, w.lanes[n])
  }

  lemma QueuedBound(s: State)
    requires Shaped(s) && Room(s)
    ensures |Queued(s)| <= OUTPUT_SLOTS
  {
    hide Stored;
  }

  lemma ClockWrites(b: State, i: Inputs, w: Writes, p: Pulses)
    requires Shaped(b) && Room(b) && i.Valid(b.cfg) && WritesOk(b, w) && Reports(b, i, w, p)
    ensures Pops(b, i) ==> w.masks != []
    ensures WritesOk(Clock(b, i), WritesNext(Pops(b, i), Sent(Clock(b, i)), w, p))
  {
    hide Stored, Clock, Room, Queued, Sent, LaneOk, LaneNext;
    QueuedNext(b, i);
    QueuedBound(b);
    var q, r, more := Queued(b), Clock(b, i), Sent(Clock(b, i));
    SentOne(r);
    forall n | 0 <= n < |w.lanes| ensures LaneOk(Queued(r), WritesNext(Pops(b, i), more, w, p).masks, n,
                                                 WritesNext(Pops(b, i), more, w, p).lanes[n]) {
      LaneSteps(q, w.masks, n, w.lanes[n], Pops(b, i), n in p.done, more, p.mask);
    }
  }

  lemma SentOne(s: State)
    ensures |Sent(s)| <= 1
  {
  }

  // The write of a popped status is done: the first one of its segment not matched so far.
  lemma PoppedIsDone(b: State, i: Inputs, w: Writes, p: Pulses, n: nat)
    requires Shaped(b) && Room(b) && i.Valid(b.cfg) && WritesOk(b, w) && Reports(b, i, w, p) && Pops(b, i)
    requires n < |w.lanes| && w.masks != [] && n in w.masks[0]
    ensures var l := w.lanes[n]; var matched := l.finished - l.count;
      0 <= matched < l.finished && l.made[matched] == b.stRead.status.op
  {
    hide Stored, Clock, Room, Queued, Sent;
    QueuedNext(b, i);
    var l := w.lanes[n];
    assert LaneOk(Queued(b), w.masks, n, l);
    assert l.made[l.finished - l.count..][0] == b.stRead.status.op;
  }

  /* Every status under way is followed by the end of a read of its operation. */

  ghost predicate EndsBehind(q: seq<Status>, j: nat)
    requires j < |q|
  {
    exists k :: j <= k < |q| && q[k].finish && q[k].op == q[j].op
  }

  ghost predicate Going(s: State, op: nat)
    requires Shaped(s)
  {
    exists t: nat :: t < s.cfg.tags && Outstanding(s, t) && OpOf(s, t) == op
  }

  ghost predicate Trails(s: State)
    requires Shaped(s)
  {
    var q := Queued(s);
    forall j :: 0 <= j < |q| ==> EndsBehind(q, j) || Going(s, q[j].op)
  }

  // A completion of a read that is taken in the cycle after the read has ended, while the table
  // still shows it as outstanding.
  predicate Late(b: State, i: Inputs)
    requires Sized(b)
  {
    && b.cpl.finish && HeaderArrives(b, i) && i.beat.value.header.tag % b.cfg.tags == b.cpl.tag
    && Proper(b.table, i.beat.value)
  }

  lemma TooSoonIsLate(b: State, i: Inputs)
    requires Sized(b) && i.Valid(b.cfg) && TooSoon(b, i)
    ensures Late(b, i)
  {
    hide C.FirstCycle;
  }

  // After a clean end a completer that keeps its word sends none.
  lemma HonestIsNotLate(b: State, i: Inputs, log: seq<Progress>)
    requires DataOk(b, log) && i.Valid(b.cfg) && Honest(b, i, log) && b.stWrite.error == DMA_NONE
    requires HeaderArrives(b, i) && Meaning(b.table, i.beat.value) == Data
    ensures !Late(b, i)
  {
    hide Stored, InPlace, Placed, Continues;
    DataHeader(b, i);
  }

  lemma GoingNext(b: State, i: Inputs, op: nat)
    requires Shaped(b) && TagPlaces(b) && CplTag(b) && i.Valid(b.cfg) && !TooSoon(b, i) && Going(b, op)
    ensures var r := Clock(b, i); Going(r, op) || (r.cpl.finish && r.cpl.op == op)
  {
    hide Stored, TagPlaces, CplTag, TooSoon, Clock, Outstanding, OpOf, ReceivedNext, Reporting, WriteStatus, Ring.Used;
    hide Fires;
    var t: nat :| t < b.cfg.tags && Outstanding(b, t) && OpOf(b, t) == op;
    StatusRegisters(b, i);
    OutstandingNext(b, i, t);
    FiresNotOutstanding(b, i, t);
    if ReceivedNext(b, i).cpl.finish && ReceivedNext(b, i).cpl.tag == t {
      EndIsOutstanding(b, i);
      EndsUnder(b, t);
    }
  }

  // A status that does not end its read is sent for one that goes on.
  lemma SentIsGoing(b: State, i: Inputs)
    requires Shaped(b) && TagPlaces(b) && CplTag(b) && i.Valid(b.cfg) && !Late(b, i)
    requires var r := Clock(b, i); r.stWrite.en && !r.cpl.finish
    ensures Going(Clock(b, i), Clock(b, i).cpl.op)
  {
    hide Stored, TagPlaces, TooSoon, Clock, Outstanding, OpOf, Reporting, WriteStatus, Ring.Used, Ring.Valid;
    hide C.FirstCycle, C.NextCycle, Fires;
    StatusRegisters(b, i);
    var t := ReceivedNext(b, i).cpl.tag;
    assert b.table[t].Active() && !Ending(b, t) && ReceivedNext(b, i).cpl.op == b.table[t].entry.op;
    EndsUnder(b, t);
    OutstandingNext(b, i, t);
    FiresNotOutstanding(b, i, t);
  }

  lemma EndsBehindStays(q: seq<Status>, pops: bool, more: seq<Status>, j: nat)
    requires (pops ==> 0 < j) && j < |q| && EndsBehind(q, j)
    ensures var rest := if pops then q[1..] else q; EndsBehind(rest + more, if pops then j - 1 else j)
  {
    var rest, d := if pops then q[1..] else q, if pops then 1 else 0;
    var k :| j <= k < |q| && q[k].finish && q[k].op == q[j].op;
    assert (rest + more)[k - d] == q[k] && (rest + more)[j - d] == q[j];
  }

  lemma SentStatus(s: State)
    requires Shaped(s) && Formed(s)
    ensures s.stWrite.en ==> Sent(s) == [Status(s.cpl.op, s.cpl.finish, s.stWrite.error)]
    ensures !s.stWrite.en ==> Sent(s) == [] && !s.cpl.finish
  {
  }

  // One status, after the edge.
  lemma TrailStep(b: State, i: Inputs, rest: seq<Status>, j: nat)
    requires Shaped(b) && Room(b) && Formed(b) && TagPlaces(b) && CplTag(b) && i.Valid(b.cfg) && !TooSoon(b, i)
    requires Late(b, i) ==> Going(Clock(b, i), Clock(b, i).cpl.op)
    requires Trails(b) && rest == if Pops(b, i) then Queued(b)[1..] else Queued(b)
    requires j < |rest + Sent(Clock(b, i))|
    ensures var r := Clock(b, i); var z := rest + Sent(r); EndsBehind(z, j) || Going(r, z[j].op)
  {
    hide Stored, TagPlaces, CplTag, TooSoon, Clock, Room, Formed, Queued, Going, Sent, Late, Pops, EndsBehind;
    var q, r := Queued(b), Clock(b, i);
    var z := rest + Sent(r);
    ClockFormed(b, i);
    SentStatus(r);
    QueuedNext(b, i);
    if j < |rest| {
      var was := if Pops(b, i) then j + 1 else j;
      assert q[was] == z[j];
      if EndsBehind(q, was) {
        EndsBehindStays(q, Pops(b, i), Sent(r), was);
      } else {
        GoingNext(b, i, z[j].op);
        if !Going(r, z[j].op) {
          EndIsBehind(rest, Sent(r)[0], j);
        }
      }
    } else if r.cpl.finish {
      EndIsBehind(rest, Sent(r)[0], j);
    } else if !Late(b, i) {
      SentIsGoing(b, i);
    }
  }

  // A late completion that was not refused sends a status that ends no read.
  lemma LateSends(b: State, i: Inputs)
    requires Shaped(b) && i.Valid(b.cfg) && Late(b, i) && !TooSoon(b, i)
    ensures Clock(b, i).stWrite.en && !Clock(b, i).cpl.finish
  {
    hide Stored, Clock, Reporting, WriteStatus, Ring.Used, Ring.Valid, C.FirstCycle;
    StatusRegisters(b, i);
  }

  lemma EndIsBehind(rest: seq<Status>, st: Status, j: nat)
    requires j <= |rest| && st.finish && (rest + [st])[j].op == st.op
    ensures EndsBehind(rest + [st], j)
  {
    assert (rest + [st])[|rest|] == st;
  }

  // An edge keeps it so exactly if no late completion is taken, or another read of its operation
  // is under way.
  lemma ClockTrails(b: State, i: Inputs)
    requires Good(b) && i.Valid(b.cfg) && !TooSoon(b, i) && Trails(b)
    ensures var r := Clock(b, i); Trails(r) <==> (Late(b, i) ==> Going(r, r.cpl.op))
  {
    hide Good, Stored, TagPlaces, CplTag, Clock, Room, Formed, Queued, Going, EndsBehind, Late, Sent, OpsOk, Offered;
    hide EngineCredits.Counted, EngineCredits.Gated, TooSoon;
    GoodParts(b);
    QueuedNext(b, i);
    var r := Clock(b, i);
    var q := Queued(r);
    if Late(b, i) ==> Going(r, r.cpl.op) {
      forall j: nat | j < |q| ensures EndsBehind(q, j) || Going(r, q[j].op) {
        TrailStep(b, i, if Pops(b, i) then Queued(b)[1..] else Queued(b), j);
      }
    } else {
      LateSends(b, i);
      ClockFormed(b, i);
      SentStatus(r);
      LastEndsNothing(q);
    }
  }

  lemma LastEndsNothing(q: seq<Status>)
    requires q != [] && !q[|q| - 1].finish
    ensures !EndsBehind(q, |q| - 1)
  {
  }

  /* At the end of an operation. */

  lemma {:induction false} NoneFinishes(c: seq<Status>, op: nat)
    requires Finishing(c, op) == 0
    ensures forall st :: st in c ==> !(st.finish && st.op == op)
  {
    if c != [] {
      NoneFinishes(c[1..], op);
    }
  }

  // Once no read of the operation is unfinished, no status of it is under way.
  lemma NoneUnderWay(s: State, op: nat, j: nat)
    requires TagPlaces(s) && CplTag(s) && StatusesOk(s) && op < s.cfg.ops && Unfinished(s, op) == 0
    requires Trails(s) && j < |Queued(s)|
    ensures Queued(s)[j].op != op
  {
    hide Stored, TagPlaces, CplTag, Room, Outstanding, OpOf, Finishing, EngineCredits.InFlight, Ring.Contents;
    var q := Queued(s);
    if q[j].op == op {
      if EndsBehind(q, j) {
        var k :| j <= k < |q| && q[k].finish && q[k].op == op;
        NoneFinishes(s.statuses.Contents(), op);
        SentIsUnfinished(s, op);
      } else {
        var t: nat :| t < s.cfg.tags && Outstanding(s, t) && OpOf(s, t) == op;
        NoneOutstanding(s, op, t);
      }
    }
  }

  lemma RaisedIsOver(b: State, i: Inputs, op: nat)
    requires Good(b) && i.Valid(b.cfg) && !TooSoon(b, i) && op < b.cfg.ops
    requires |Clock(b, i).history[op].raised| > |b.history[op].raised|
    ensures Good(Clock(b, i)) && Unfinished(Clock(b, i), op) == 0
  {
    hide Good, Stored, Clock, TooSoon, Unfinished, Accepts, EngineOps.Held, RequestFor, Size;
    var h, r := b.history[op], Clock(b, i).history[op];
    RaisedAtTheEnd(b, i, op);
    StatusPerDescriptor(b, op);
    AcceptsAnother(b, i, op);
    ClockGood(b, i);
    StatusPerDescriptor(Clock(b, i), op);
    GoodParts(b);
    HistoryNext(b, i, op);
  }

  // A write not done yet belongs to a status under way.
  lemma OpenIsUnderWay(q: seq<Status>, masks: seq<set<nat>>, n: nat, l: Lane, k: nat)
    requires LaneOk(q, masks, n, l) && l.finished <= k < |l.made|
    ensures exists j :: 0 <= j < |q| && q[j].op == l.made[k]
  {
    WaitingBound(q, masks, n);
    var matched := l.finished - l.count;
    assert l.made[matched..][k - matched] == l.made[k];
    assert l.made[k] in Waiting(q, masks, n);
  }

  lemma OthersAreDone(s: State, w: Writes, op: nat, n: nat, k: nat)
    requires Shaped(s) && WritesOk(s, w) && forall j :: 0 <= j < |Queued(s)| ==> Queued(s)[j].op != op
    requires n < |w.lanes| && k < |w.lanes[n].made| && w.lanes[n].made[k] == op
    ensures k < w.lanes[n].finished
  {
    hide Stored, Queued;
    assert LaneOk(Queued(s), w.masks, n, w.lanes[n]);
    if w.lanes[n].finished <= k {
      OpenIsUnderWay(Queued(s), w.masks, n, w.lanes[n], k);
    }
  }

  // When the status of a descriptor is raised, all RAM writes made for its operation are done.
  lemma RaisedIsWritten(b: State, i: Inputs, w: Writes, p: Pulses, op: nat, n: nat, k: nat)
    requires Good(b) && i.Valid(b.cfg) && !Late(b, i) && Trails(b) && WritesOk(b, w) && Reports(b, i, w, p)
    requires op < b.cfg.ops && |Clock(b, i).history[op].raised| > |b.history[op].raised|
    requires n < |w.lanes|
    ensures Pops(b, i) ==> w.masks != []
    ensures var l := WritesNext(Pops(b, i), Sent(Clock(b, i)), w, p).lanes[n];
      k < |l.made| && l.made[k] == op ==> k < l.finished
  {
    hide Good, Stored, Clock, TooSoon, Unfinished, Late, Room, Sent, Queued, WritesOk, Reports, Trails, WritesNext;
    hide Pops;
    if TooSoon(b, i) {
      TooSoonIsLate(b, i);
    }
    var r := Clock(b, i);
    GoodParts(b);
    ClockWrites(b, i, w, p);
    ClockTrails(b, i);
    RaisedIsOver(b, i, op);
    GoodParts(r);
    forall j: nat | j < |Queued(r)| ensures Queued(r)[j].op != op {
      NoneUnderWay(r, op, j);
    }
    var v := WritesNext(Pops(b, i), Sent(r), w, p);
    if k < |v.lanes[n].made| && v.lanes[n].made[k] == op {
      OthersAreDone(r, v, op, n, k);
    }
  }

  // Without the RAM's word that the writes of the held status are done, nothing is reported: it
  // stays, no status of a descriptor is raised and no read of one is finished.
  lemma WaitsForWrites(b: State, i: Inputs, op: nat)
    requires Good(b) && i.Valid(b.cfg) && op < b.cfg.ops && !i.writesDone
    ensures var h, r := b.history[op], Clock(b, i).history[op];
      && (b.stRead.valid ==> Clock(b, i).stRead == b.stRead)
      && r.raised == h.raised && (r.codes == h.codes || (r.codes == [] && |r.accepted| > |h.accepted|))
  {
    hide Good, Stored, Clock, TooSoon, Unfinished, Accepts, RequestFor, Size, Ring.Contents, Room;
    GoodParts(b);
    HistoryNext(b, i, op);
    OnlyReportingRaises(b, i, op);
    StatusRegisters(b, i);
    ReportingStatuses(b, i);
    PopEffect(b, i);
  }

  /* Whole runs. */

  datatype Edge = Edge(i: Inputs, p: Pulses)

  // An edge at which `writesDone` comes from the counters, and no completion is late.
  ghost predicate Fits(s: State, w: Writes, e: Edge)
    requires Shaped(s)
  {
    e.i.Valid(s.cfg) && !Late(s, e.i) && Reports(s, e.i, w, e.p) && (Pops(s, e.i) ==> w.masks != [])
  }

  function After(s: State, w: Writes, e: Edge): (r: Writes)
    requires Shaped(s) && e.i.Valid(s.cfg) && (Pops(s, e.i) ==> w.masks != [])
    ensures |r.lanes| == |w.lanes|
  {
    WritesNext(Pops(s, e.i), Sent(Clock(s, e.i)), w, e.p)
  }

  ghost predicate FitsAll(s: State, w: Writes, es: seq<Edge>)
    requires Shaped(s)
    decreases |es|
  {
    es == [] || (Fits(s, w, es[0]) && FitsAll(Clock(s, es[0].i), After(s, w, es[0]), es[1..]))
  }

  ghost function Final(s: State, w: Writes, es: seq<Edge>): (r: (State, Writes))
    requires Shaped(s) && FitsAll(s, w, es)
    ensures Shaped(r.0) && r.0.cfg == s.cfg && |r.1.lanes| == |w.lanes|
    decreases |es|
  {
    hide Shaped, Clock, Reports, Late, After;
    if es == [] then (s, w) else Final(Clock(s, es[0].i), After(s, w, es[0]), es[1..])
  }

  // Everything known of a state such a run reaches.
  ghost predicate Matched(s: State, w: Writes) {
    Good(s) && WritesOk(s, w) && Trails(s)
  }

  lemma EdgeKeeps(s: State, w: Writes, e: Edge)
    requires Matched(s, w) && Fits(s, w, e)
    ensures Matched(Clock(s, e.i), After(s, w, e))
  {
    hide Good, Stored, Clock, TooSoon, Late, Room, Sent, Queued, WritesOk, Reports, Trails, WritesNext, Pops;
    GoodParts(s);
    if TooSoon(s, e.i) {
      TooSoonIsLate(s, e.i);
    }
    ClockWrites(s, e.i, w, e.p);
    ClockTrails(s, e.i);
    ClockGood(s, e.i);
  }

  lemma {:induction false} RunKeepsMatch(s: State, w: Writes, es: seq<Edge>)
    requires Matched(s, w) && FitsAll(s, w, es)
    ensures Matched(Final(s, w, es).0, Final(s, w, es).1)
    decreases |es|
  {
    if es != [] {
      hide Matched, Shaped, Clock, Fits, After;
      EdgeKeeps(s, w, es[0]);
      RunKeepsMatch(Clock(s, es[0].i), After(s, w, es[0]), es[1..]);
    }
  }

  function NoWrites(segments: nat): Writes {
    Writes([], seq(segments, _ => Lane(0, [], 0)))
  }

  lemma ResetMatches(cfg: Config, segments: nat)
    requires cfg.Valid()
    ensures Matched(Reset(cfg), NoWrites(segments))
  {
    ResetGood(cfg);
    GoodParts(Reset(cfg));
    hide Good, Stored, Filled;
    assert Reset(cfg).statuses.Contents() == [];
  }

  // Whenever a run from reset raises the status of a descriptor, all RAM writes made so far for
  // its operation, in every segment, are done.
  lemma EveryRaiseIsWritten(cfg: Config, segments: nat, es: seq<Edge>, e: Edge, op: nat, n: nat, k: nat)
    requires cfg.Valid() && Shaped(Reset(cfg)) && FitsAll(Reset(cfg), NoWrites(segments), es)
    requires var (s, w) := Final(Reset(cfg), NoWrites(segments), es);
      Fits(s, w, e) && op < cfg.ops && |Clock(s, e.i).history[op].raised| > |s.history[op].raised|
    requires n < segments
    ensures var (s, w) := Final(Reset(cfg), NoWrites(segments), es); var l := After(s, w, e).lanes[n];
      k < |l.made| && l.made[k] == op ==> k < l.finished
  {
    ResetMatches(cfg, segments);
    hide Reset, Shaped, Good, WritesOk, Trails, Clock, Reports, Late, WritesNext, Sent;
    RunKeepsMatch(Reset(cfg), NoWrites(segments), es);
    var (s, w) := Final(Reset(cfg), NoWrites(segments), es);
    RaisedIsWritten(s, e.i, w, e.p, op, n, k);
  }
}
