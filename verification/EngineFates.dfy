/** What has become of every request of an operation, until its status is raised. */
module EngineFates {
  import opened Options
  import opened TlpSizing
  import opened TlpStream
  import opened Ring
  import opened ReadEngine
  import opened EngineTags
  import opened EngineCredits
  import opened EngineStatus
  import opened EngineCounts
  import opened EngineOps
  import opened EngineData
  import EngineStream
  import C = CompletionPath

  // Still to be answered, under a tag; or ended, with the data cycles made for it.
  datatype Fate = Open(tag: nat) | Ended(error: nat, done: seq<C.Cycle>)

  // Per operation slot the fates of its requests in the order of issue; per tag the place of
  // its request in that order.
  datatype Ledger = Ledger(fates: seq<seq<Fate>>, index: seq<nat>) {
    predicate For(s: State) {
      |fates| == s.cfg.ops && |index| == s.cfg.tags
    }
  }

  function WithEnd(fates: seq<Fate>, k: nat, end: Fate): (r: seq<Fate>)
    ensures |r| == |fates|
  {
    if k < |fates| then fates[k := end] else fates
  }

  // The read that ends at this edge, if any.
  function AfterEnd(b: State, i: Inputs, log: seq<Progress>, l: Ledger): (f: seq<seq<Fate>>)
    requires Shaped(b) && i.Valid(b.cfg) && |log| == b.cfg.tags && l.For(b)
    ensures |f| == b.cfg.ops
  {
    var x := ReceivedNext(b, i);
    if x.cpl.finish then
      l.fates[x.cpl.op := WithEnd(l.fates[x.cpl.op], l.index[x.cpl.tag],
                                  Ended(x.status.error, Follow(b, i, log)[x.cpl.tag].done))]
    else l.fates
  }

  function Entered(b: State, i: Inputs, log: seq<Progress>, l: Ledger): (r: Ledger)
    requires Shaped(b) && i.Valid(b.cfg) && |log| == b.cfg.tags && l.For(b)
    ensures r.For(b)
  {
    var f, op := AfterEnd(b, i, log, l), b.req.op;
    if Accepts(b, i) then Ledger(f[op := []], l.index)
    else if Fires(b, i) then Ledger(f[op := f[op] + [Open(b.req.tag)]], l.index[b.req.tag := |f[op]|])
    else Ledger(f, l.index)
  }

  /* The invariant. */

  predicate Outstanding(s: State, t: nat)
    requires Sized(s) && t < s.cfg.tags
  {
    (s.table[t].Active() && !Ending(s, t)) || (s.start.en && s.start.tag == t)
  }

  function OpOf(s: State, t: nat): (op: nat)
    requires Shaped(s) && t < s.cfg.tags
    ensures op < s.cfg.ops
  {
    if s.start.en && s.start.tag == t then s.start.entry.op else s.table[t].entry.op
  }

  predicate Bad(st: Status, op: nat) {
    st.finish && st.op == op && st.error != DMA_NONE
  }

  // A status with an error is on its way to the operation's table entry.
  ghost predicate Coming(s: State, op: nat)
    requires Shaped(s)
  {
    || (s.stWrite.finish && s.stWrite.error != DMA_NONE && s.cpl.op == op)
    || (s.stRead.valid && Bad(s.stRead.status, op))
    || exists st :: st in s.statuses.Contents() && Bad(st, op)
  }

  ghost predicate Recorded(codes: seq<nat>) {
    exists c :: c in codes && c != DMA_NONE
  }

  // All the request asked for has been written, each byte once.
  ghost predicate Written(g: C.Geometry, t: ReadTlp, done: seq<C.Cycle>) {
    g.Valid() && Counts(t) && C.Fills(g, done, DataStart(g, t), ByteCount(t)) && C.Writable(g, done)
  }

  ghost predicate TagOk(s: State, log: seq<Progress>, l: Ledger, t: nat)
    requires Shaped(s) && |log| == s.cfg.tags && l.For(s) && t < s.cfg.tags
  {
    Outstanding(s, t) ==>
      var op, k := OpOf(s, t), l.index[t];
      && k < |l.fates[op]| == |s.history[op].requests|
      && l.fates[op][k] == Open(t) && log[t].tlp == s.history[op].requests[k]
  }

  ghost predicate FateOk(s: State, l: Ledger, op: nat, k: nat)
    requires Shaped(s) && l.For(s) && op < s.cfg.ops && k < |l.fates[op]| == |s.history[op].requests|
  {
    match l.fates[op][k]
    case Open(t) => t < s.cfg.tags && Outstanding(s, t) && OpOf(s, t) == op && l.index[t] == k
    case Ended(error, done) =>
      if error == DMA_NONE then Written(s.cfg.geo, s.history[op].requests[k], done)
      else Recorded(s.history[op].codes) || Coming(s, op)
  }

  ghost predicate HasFate(s: State, l: Ledger, op: nat, k: nat) {
    && Shaped(s) && l.For(s) && op < s.cfg.ops && k < |l.fates[op]| == |s.history[op].requests|
    && FateOk(s, l, op, k)
  }

  ghost predicate OpFates(s: State, l: Ledger, op: nat)
    requires Shaped(s) && l.For(s) && op < s.cfg.ops
  {
    && |l.fates[op]| == |s.history[op].requests|
    && forall k :: 0 <= k < |l.fates[op]| ==> FateOk(s, l, op, k)
  }

  ghost predicate FatesOk(s: State, log: seq<Progress>, l: Ledger) {
    && Shaped(s) && |log| == s.cfg.tags && l.For(s)
    && (forall t :: 0 <= t < s.cfg.tags ==> TagOk(s, log, l, t))
    && (forall op :: 0 <= op < s.cfg.ops ==> OpFates(s, l, op))
  }

  /* What one clock edge does to the outstanding tags. */

  // A read ends under a tag that is outstanding.
  lemma EndIsOutstanding(b: State, i: Inputs)
    requires Shaped(b) && CplTag(b) && i.Valid(b.cfg) && !TooSoon(b, i) && ReceivedNext(b, i).cpl.finish
    ensures var x := ReceivedNext(b, i);
      && x.cpl.tag < b.cfg.tags
      && b.table[x.cpl.tag].Active() && !Ending(b, x.cpl.tag) && x.cpl.op == b.table[x.cpl.tag].entry.op
  {
    hide Stored, C.FirstCycle, C.NextCycle;
  }

  lemma TableKeeps(b: State, t: nat)
    requires TagPlaces(b) && CplTag(b) && t < b.cfg.tags
    ensures TableAfter(b)[t].Active() <==> Outstanding(b, t)
    ensures Outstanding(b, t) ==> TableAfter(b)[t].entry.op == OpOf(b, t)
  {
    assert Places(b, t) == 1;
    if b.cpl.finish {
      assert Places(b, b.cpl.tag) == 1;
    }
    hide Stored, Occurs, Ring.Contents;
  }

  // After the edge: those that did not end, and the one a request went out under.
  lemma OutstandingNext(b: State, i: Inputs, t: nat)
    requires TagPlaces(b) && CplTag(b) && i.Valid(b.cfg) && t < b.cfg.tags
    ensures var r, x := Clock(b, i), ReceivedNext(b, i);
      && (Outstanding(r, t) <==>
            (Outstanding(b, t) && !(x.cpl.finish && x.cpl.tag == t)) || (Fires(b, i) && b.req.tag == t))
      && (Outstanding(r, t) ==> OpOf(r, t) == if Fires(b, i) && b.req.tag == t then b.req.op else OpOf(b, t))
  {
    assert Shaped(b);
    hide Stored, TagPlaces, CplTag, Clock, TableAfter, ReceivedNext, Reporting, WriteStatus, Fires, Size, RamAfter;
    hide Ring.Used;
    ClockTable(b, i);
    TableKeeps(b, t);
    StartNext(b, i);
    if Fires(b, i) {
      StartOp(b, i);
    }
    StatusRegisters(b, i);
  }

  lemma StartOp(b: State, i: Inputs)
    requires TagPlaces(b) && CplTag(b) && i.Valid(b.cfg) && Fires(b, i)
    ensures Clock(b, i).start.entry.op == b.req.op
  {
    hide Stored, Reporting, Completing, FetchOp, FetchTag, Compare, ReqNext, Size, RamAfter, TagPlaces, CplTag;
  }

  lemma PoppedHistories(b: State, i: Inputs, op: nat)
    requires Shaped(b) && Formed(b) && op < b.cfg.ops
    ensures var h, r := b.history[op], Reporting(b, i).history[op];
      && r.accepted == h.accepted && r.requests == h.requests
      && r.codes == (if Finishes(b, i) && b.stRead.status.op == op then h.codes + [b.stRead.status.error]
                     else h.codes)
  {
    PopEffect(b, i);
    hide Stored, Reporting, PoppedSlot, Completes, ReportedError;
  }

  lemma IssuedHistories(b: State, s: State, i: Inputs, op: nat)
    requires Alike(b, s) && i.Valid(b.cfg) && s.req == b.req && op < b.cfg.ops
    ensures Issue(b, s, i).history[op].accepted
         == s.history[op].accepted + if Accepts(b, i) && b.req.op == op then [i.desc.value] else []
    ensures var h, r := s.history[op], Issue(b, s, i).history[op];
      if Accepts(b, i) && b.req.op == op then r.requests == [] && r.codes == []
      else
        && r.requests == (if Fires(b, i) && b.req.op == op then
                            h.requests + [RequestFor(b.req.addr, b.req.ramAddr, b.req.zeroLen, Size(b, i))]
                          else h.requests)
        && r.codes == h.codes
  {
    IssueEffect(b, s, i);
    hide Stored, Issue, Size, RequestFor, AcceptedSlot, IssuedSlot;
  }

  lemma ClockHistory(b: State, i: Inputs)
    requires Shaped(b) && i.Valid(b.cfg)
    ensures var s := Reporting(b, i); var t := Completing(b, s, i);
      t.history == s.history && t.req == b.req && Clock(b, i).history == Issue(b, t, i).history
  {
    hide Stored, Reporting, Completing, Issue, FetchOp, FetchTag;
  }

  // What is noted for an operation after the edge.
  lemma HistoryNext(b: State, i: Inputs, op: nat)
    requires Shaped(b) && Formed(b) && i.Valid(b.cfg) && op < b.cfg.ops
    ensures Clock(b, i).history[op].accepted
         == b.history[op].accepted + if Accepts(b, i) && b.req.op == op then [i.desc.value] else []
    ensures var h, r := b.history[op], Clock(b, i).history[op];
      if Accepts(b, i) && b.req.op == op then r.requests == [] && r.codes == []
      else
        && r.requests == (if Fires(b, i) && b.req.op == op then
                            h.requests + [RequestFor(b.req.addr, b.req.ramAddr, b.req.zeroLen, Size(b, i))]
                          else h.requests)
        && r.codes == (if Finishes(b, i) && b.stRead.status.op == op then h.codes + [b.stRead.status.error]
                       else h.codes)
  {
    hide Stored, Reporting, Completing, Issue, Size, RequestFor, Clock, Accepts, Fires, Finishes, Formed;
    PoppedHistories(b, i, op);
    IssuedHistories(b, Completing(b, Reporting(b, i), i), i, op);
    ClockHistory(b, i);
  }

  /* Errors are not forgotten. */

  lemma RecordedAppend(codes: seq<nat>, code: nat)
    ensures Recorded(codes + [code]) <==> Recorded(codes) || code != DMA_NONE
  {
    assert code in codes + [code];
    forall c | c in codes ensures c in codes + [code] {}
  }

  // A status on its way is recorded at the edge or still on its way after it.
  lemma ComingNext(b: State, i: Inputs, op: nat)
    requires StatusesOk(b) && i.Valid(b.cfg) && Coming(b, op)
    ensures Coming(Clock(b, i), op) || (Finishes(b, i) && Bad(b.stRead.status, op))
  {
    var s, r := Reporting(b, i), Clock(b, i);
    hide Stored, Clock, Reporting, WriteStatus, ReceivedNext, Ring.Contents, Ring.Used, Ring.Valid;
    ReportingStatuses(b, i);
    ReportingKeeps(b, i);
    StatusRegisters(b, i);
    WrittenStatuses(b, s);
    var c, d := b.statuses.Contents(), r.statuses.Contents();
    if exists st :: st in c && Bad(st, op) {
      var st :| st in c && Bad(st, op);
      assert st in s.statuses.Contents() || (s.stRead.valid && s.stRead.status == st);
    } else if b.stWrite.finish && b.stWrite.error != DMA_NONE && b.cpl.op == op {
      var st := Status(b.cpl.op, b.stWrite.finish, b.stWrite.error);
      assert st in d && Bad(st, op);
    }
  }

  lemma ErrorStays(b: State, i: Inputs, op: nat)
    requires StatusesOk(b) && i.Valid(b.cfg) && op < b.cfg.ops && !(Accepts(b, i) && b.req.op == op)
    requires Recorded(b.history[op].codes) || Coming(b, op)
    ensures Recorded(Clock(b, i).history[op].codes) || Coming(Clock(b, i), op)
  {
    hide Clock, Stored, Coming, Recorded, Room, RequestFor, Size;
    HistoryNext(b, i, op);
    RecordedAppend(b.history[op].codes, b.stRead.status.error);
    if !Recorded(b.history[op].codes) {
      ComingNext(b, i, op);
    }
  }

  /* One clock edge. */

  // The fates of an operation after the edge, place by place.
  lemma EnteredFates(b: State, i: Inputs, log: seq<Progress>, l: Ledger, op: nat)
    requires Shaped(b) && i.Valid(b.cfg) && |log| == b.cfg.tags && l.For(b) && op < b.cfg.ops
    ensures var x, f, g := ReceivedNext(b, i), l.fates[op], Entered(b, i, log, l).fates[op];
      if Accepts(b, i) && b.req.op == op then g == []
      else
        && |g| == |f| + Bit(Fires(b, i) && b.req.op == op)
        && (forall k :: 0 <= k < |f| ==>
              g[k] == if x.cpl.finish && x.cpl.op == op && l.index[x.cpl.tag] == k then
                        Ended(x.status.error, Follow(b, i, log)[x.cpl.tag].done) else f[k])
        && (Fires(b, i) && b.req.op == op ==> g[|f|] == Open(b.req.tag))
  {
    hide Stored, ReceivedNext, Follow;
  }

  lemma EnteredIndex(b: State, i: Inputs, log: seq<Progress>, l: Ledger, t: nat)
    requires Shaped(b) && i.Valid(b.cfg) && |log| == b.cfg.tags && l.For(b) && t < b.cfg.tags
    ensures !(Fires(b, i) && b.req.tag == t) ==> Entered(b, i, log, l).index[t] == l.index[t]
    ensures Fires(b, i) ==> Entered(b, i, log, l).index[b.req.tag] == |l.fates[b.req.op]|
  {
    hide Stored, ReceivedNext, Follow;
  }

  // The request a tag carries changes only when it goes out under it.
  lemma FollowedTlp(b: State, i: Inputs, log: seq<Progress>, t: nat)
    requires Sized(b) && i.Valid(b.cfg) && |log| == b.cfg.tags && t < b.cfg.tags
    ensures Follow(b, i, log)[t].tlp == if Fires(b, i) && b.req.tag == t
                                        then RequestFor(b.req.addr, b.req.ramAddr, b.req.zeroLen, Size(b, i))
                                        else log[t].tlp
  {
    hide TakesData, DataTag, DataCycle, Size, RequestFor, Fires, ByteCount;
  }

  // A slot that has just accepted a descriptor has no read outstanding.
  lemma {:induction false} NoneActive(op: nat, table: seq<TagSlot>, t: nat)
    requires Total(ReadsOf(op), table) == 0 && t < |table|
    ensures table[t].Active() ==> table[t].entry.op != op
  {
    if t > 0 {
      NoneActive(op, table[1..], t - 1);
    }
  }

  lemma NoneOutstanding(s: State, op: nat, t: nat)
    requires TagPlaces(s) && op < s.cfg.ops && Unfinished(s, op) == 0 && t < s.cfg.tags && Outstanding(s, t)
    ensures OpOf(s, t) != op
  {
    assert Places(s, t) == 1;
    NoneActive(op, s.table, t);
    hide Finishing, Total, Occurs, Ring.Contents;
  }

  lemma SlotIsOk(s: State, op: nat)
    requires OpsOk(s) && op < s.cfg.ops
    ensures OpOk(s, op)
  {
  }

  lemma FreshSlot(s: State, op: nat)
    requires Shaped(s) && op < s.cfg.ops && OpOk(s, op) && Live(s.history[op]) && s.history[op].requests == []
    ensures Unfinished(s, op) == 0
  {
    hide Unfinished;
  }

  // What an edge needs of the state before it.
  ghost predicate Steps(b: State, i: Inputs, log: seq<Progress>, l: Ledger) {
    && TagPlaces(b) && CplTag(b) && StatusesOk(b) && OpsOk(b) && Offered(b) && DataOk(b, log) && FatesOk(b, log, l)
    && i.Valid(b.cfg) && !TooSoon(b, i) && Honest(b, i, log)
  }

  lemma AcceptedIsLive(b: State, i: Inputs)
    requires OpsOk(b) && Offered(b) && TagPlaces(b) && CplTag(b) && StatusesOk(b) && i.Valid(b.cfg) && Accepts(b, i)
    ensures Live(Clock(b, i).history[b.req.op])
  {
    hide Stored, OpsOk, TagPlaces, CplTag, Room, Formed, Clock, Reporting, Completing, Issue, OpOk, Unfinished;
    hide Undisturbed, Live;
    BeforeRequesting(b, i);
    IssuedOp(b, Completing(b, Reporting(b, i), i), i);
    ClockHistory(b, i);
  }

  // After a descriptor is accepted, no read of its operation is outstanding.
  lemma AcceptedIsFresh(b: State, i: Inputs, t: nat)
    requires OpsOk(b) && Offered(b) && TagPlaces(b) && CplTag(b) && StatusesOk(b) && i.Valid(b.cfg)
    requires Accepts(b, i) && t < b.cfg.tags && Outstanding(Clock(b, i), t)
    ensures OpOf(Clock(b, i), t) != b.req.op
  {
    assert Shaped(b);
    hide OpsOk, TagPlaces, CplTag, Room, Formed, Clock, OpOk, Outstanding, Unfinished, Stored, Live, OpOf, Offered;
    hide TooSoon;
    var r, op := Clock(b, i), b.req.op;
    ClockOps(b, i);
    ClockTags(b, i);
    HistoryNext(b, i, op);
    AcceptedIsLive(b, i);
    SlotIsOk(r, op);
    FreshSlot(r, op);
    NoneOutstanding(r, op, t);
  }

  lemma FatesShaped(b: State, log: seq<Progress>, l: Ledger)
    requires FatesOk(b, log, l)
    ensures Shaped(b) && |log| == b.cfg.tags && l.For(b)
  {
  }

  lemma FatesOf(b: State, log: seq<Progress>, l: Ledger, t: nat, op: nat)
    requires FatesOk(b, log, l) && t < b.cfg.tags && op < b.cfg.ops
    ensures Shaped(b) && |log| == b.cfg.tags && l.For(b) && TagOk(b, log, l, t) && OpFates(b, l, op)
  {
  }

  // An ending read is some outstanding tag's.
  lemma EndedPlace(b: State, i: Inputs, log: seq<Progress>, l: Ledger)
    requires Steps(b, i, log, l) && ReceivedNext(b, i).cpl.finish
    ensures var x := ReceivedNext(b, i).cpl;
      && Outstanding(b, x.tag) && x.op == OpOf(b, x.tag)
      && TagOk(b, log, l, x.tag)
  {
    hide Stored, OpsOk, StatusesOk, CplTag, Outstanding, OpOf, Offered, TooSoon, DataOk, Honest, ReceivedNext;
    hide TagOk, OpFates;
    FatesShaped(b, log, l);
    EndIsOutstanding(b, i);
    FatesOf(b, log, l, ReceivedNext(b, i).cpl.tag, b.req.op);
    EndsUnder(b, ReceivedNext(b, i).cpl.tag);
  }

  lemma TagIssued(b: State, i: Inputs, log: seq<Progress>, l: Ledger)
    requires Steps(b, i, log, l) && Fires(b, i)
    ensures TagOk(Clock(b, i), Follow(b, i, log), Entered(b, i, log, l), b.req.tag)
  {
    hide Stored, OpsOk, TagPlaces, CplTag, Room, Clock, Outstanding, OpOf, Offered, Entered, Follow, Ring.Contents;
    hide TooSoon, DataOk, Honest, ReceivedNext, RequestFor, Size, FateOk, FatesOk, Finishes;
    FatesOf(b, log, l, b.req.tag, b.req.op);
    OutstandingNext(b, i, b.req.tag);
    HistoryNext(b, i, b.req.op);
    EnteredFates(b, i, log, l, b.req.op);
    EnteredIndex(b, i, log, l, b.req.tag);
    FollowedTlp(b, i, log, b.req.tag);
  }

  lemma TagCarried(b: State, i: Inputs, log: seq<Progress>, l: Ledger, t: nat)
    requires Steps(b, i, log, l) && t < b.cfg.tags && !(Fires(b, i) && b.req.tag == t)
    ensures TagOk(Clock(b, i), Follow(b, i, log), Entered(b, i, log, l), t)
  {
    hide Stored, OpsOk, TagPlaces, CplTag, Room, Clock, Outstanding, OpOf, Offered, Entered, Follow, Ring.Contents;
    hide TooSoon, DataOk, Honest, ReceivedNext, RequestFor, Size, FateOk, FatesOk, OpFates, Accepts, Fires, Finishes;
    FatesOf(b, log, l, t, OpOf(b, t));
    if Outstanding(Clock(b, i), t) {
      OutstandingNext(b, i, t);
      if Accepts(b, i) {
        AcceptedIsFresh(b, i, t);
      }
      var op := OpOf(b, t);
      HistoryNext(b, i, op);
      EnteredFates(b, i, log, l, op);
      EnteredIndex(b, i, log, l, t);
      FollowedTlp(b, i, log, t);
      if ReceivedNext(b, i).cpl.finish {
        EndedPlace(b, i, log, l);
      }
    }
  }

  // The operation of a tag that is in the table is the one noted there.
  lemma EndsUnder(b: State, t: nat)
    requires TagPlaces(b) && t < b.cfg.tags && b.table[t].Active() && !Ending(b, t)
    ensures Outstanding(b, t) && OpOf(b, t) == b.table[t].entry.op
  {
    assert Places(b, t) == 1;
  }

  /* The fates. */

  // The fate that is sealed at this edge.
  lemma EndedFate(b: State, i: Inputs, log: seq<Progress>, l: Ledger)
    requires Steps(b, i, log, l) && ReceivedNext(b, i).cpl.finish
    ensures var x, r, f := ReceivedNext(b, i), Clock(b, i), Follow(b, i, log);
      && x.cpl.tag < b.cfg.tags
      && (if x.status.error == DMA_NONE then Written(b.cfg.geo, f[x.cpl.tag].tlp, f[x.cpl.tag].done)
          else Coming(r, x.cpl.op))
  {
    hide Stored, OpsOk, TagPlaces, CplTag, Room, Clock, Offered, Follow, Ring.Contents, Reporting, WriteStatus;
    hide TooSoon, Honest, ReceivedNext, FatesOk;
    FatesShaped(b, log, l);
    ClockData(b, i, log);
    StatusRegisters(b, i);
    ReceivedStatus(b, i);
    EndIsOutstanding(b, i);
  }

  lemma FatesStep(b: State, i: Inputs, log: seq<Progress>, l: Ledger, op: nat)
    requires Steps(b, i, log, l) && op < b.cfg.ops
    ensures OpFates(Clock(b, i), Entered(b, i, log, l), op)
  {
    hide Stored, OpsOk, TagPlaces, CplTag, Room, Clock, Outstanding, OpOf, Offered, Entered, Follow, Ring.Contents;
    hide TooSoon, DataOk, Honest, ReceivedNext, RequestFor, Size, FateOk, FatesOk, Finishes;
    FatesOf(b, log, l, b.req.tag, op);
    var r, l2 := Clock(b, i), Entered(b, i, log, l);
    HistoryNext(b, i, op);
    EnteredFates(b, i, log, l, op);
    forall k | 0 <= k < |l2.fates[op]| ensures FateOk(r, l2, op, k) {
      FateStep(b, i, log, l, op, k);
    }
  }

  lemma FateStep(b: State, i: Inputs, log: seq<Progress>, l: Ledger, op: nat, k: nat)
    requires Steps(b, i, log, l) && op < b.cfg.ops && k < |Entered(b, i, log, l).fates[op]|
    ensures HasFate(Clock(b, i), Entered(b, i, log, l), op, k)
  {
    hide Stored, OpsOk, TagPlaces, CplTag, Room, Clock, Outstanding, OpOf, Offered, Entered, Follow, Ring.Contents;
    hide TooSoon, DataOk, Honest, ReceivedNext, RequestFor, Size, FatesOk, Finishes, FateOk;
    FatesOf(b, log, l, b.req.tag, op);
    var x := ReceivedNext(b, i).cpl;
    HistoryNext(b, i, op);
    EnteredFates(b, i, log, l, op);
    if k == |l.fates[op]| {
      FateIssued(b, i, log, l);
    } else if x.finish && x.op == op && x.tag < b.cfg.tags && l.index[x.tag] == k {
      FateEnded(b, i, log, l);
    } else {
      FateCarried(b, i, log, l, op, k);
    }
  }

  lemma FateIssued(b: State, i: Inputs, log: seq<Progress>, l: Ledger)
    requires Steps(b, i, log, l) && Fires(b, i)
    ensures HasFate(Clock(b, i), Entered(b, i, log, l), b.req.op, |l.fates[b.req.op]|)
  {
    hide Stored, OpsOk, TagPlaces, CplTag, Room, Clock, Outstanding, OpOf, Offered, Entered, Follow, Ring.Contents;
    hide TooSoon, DataOk, Honest, ReceivedNext, RequestFor, Size, FatesOk, Finishes;
    var op, t := b.req.op, b.req.tag;
    FatesOf(b, log, l, t, op);
    HistoryNext(b, i, op);
    EnteredFates(b, i, log, l, op);
    EnteredIndex(b, i, log, l, t);
    OutstandingNext(b, i, t);
  }

  lemma FateEnded(b: State, i: Inputs, log: seq<Progress>, l: Ledger)
    requires Steps(b, i, log, l) && ReceivedNext(b, i).cpl.finish
    requires !(Accepts(b, i) && b.req.op == ReceivedNext(b, i).cpl.op)
    ensures var x := ReceivedNext(b, i).cpl;
      x.tag < b.cfg.tags && HasFate(Clock(b, i), Entered(b, i, log, l), x.op, l.index[x.tag])
  {
    hide Stored, OpsOk, TagPlaces, CplTag, Room, Clock, Outstanding, OpOf, Offered, Entered, Follow, Ring.Contents;
    hide TooSoon, DataOk, Honest, ReceivedNext, RequestFor, Size, FatesOk, Finishes, Written, Coming, Recorded, Accepts;
    var x := ReceivedNext(b, i).cpl;
    FatesShaped(b, log, l);
    EndIsOutstanding(b, i);
    EndedPlace(b, i, log, l);
    FatesOf(b, log, l, x.tag, x.op);
    EndedFate(b, i, log, l);
    HistoryNext(b, i, x.op);
    EnteredFates(b, i, log, l, x.op);
    FollowedTlp(b, i, log, x.tag);
    NotHeld(b, x.tag);
  }

  lemma NotHeld(b: State, t: nat)
    requires TagPlaces(b) && t < b.cfg.tags && Outstanding(b, t)
    ensures !(b.req.tagValid && b.req.tag == t)
  {
    assert Places(b, t) == 1;
  }

  lemma FateCarried(b: State, i: Inputs, log: seq<Progress>, l: Ledger, op: nat, k: nat)
    requires Steps(b, i, log, l) && op < b.cfg.ops && k < |l.fates[op]| && !(Accepts(b, i) && b.req.op == op)
    requires var x := ReceivedNext(b, i).cpl; !(x.finish && x.op == op && x.tag < b.cfg.tags && l.index[x.tag] == k)
    ensures HasFate(Clock(b, i), Entered(b, i, log, l), op, k)
  {
    hide Stored, OpsOk, TagPlaces, CplTag, Room, Clock, Outstanding, OpOf, Offered, Entered, Follow, Ring.Contents;
    hide TooSoon, DataOk, Honest, ReceivedNext, RequestFor, Size, FatesOk, Finishes, Written, Coming, Recorded, Accepts;
    FatesOf(b, log, l, b.req.tag, op);
    assert FateOk(b, l, op, k);
    HistoryNext(b, i, op);
    EnteredFates(b, i, log, l, op);
    if ReceivedNext(b, i).cpl.finish {
      EndIsOutstanding(b, i);
      EndedPlace(b, i, log, l);
    }
    match l.fates[op][k] {
      case Open(t) =>
        OutstandingNext(b, i, t);
        EnteredIndex(b, i, log, l, t);
        NotHeld(b, t);
      case Ended(error, _) =>
        if error != DMA_NONE {
          ErrorStays(b, i, op);
        }
    }
  }

  // With honest completions, every request issued for the operation in a slot is either still
  // outstanding under its tag, or has had all it asked for written, or its error is noted or on
  // its way to be noted.
  lemma ClockFates(b: State, i: Inputs, log: seq<Progress>, l: Ledger)
    requires Steps(b, i, log, l)
    ensures FatesOk(Clock(b, i), Follow(b, i, log), Entered(b, i, log, l))
  {
    hide Stored, OpsOk, TagPlaces, CplTag, Room, Clock, Offered, Entered, Follow, Ring.Contents;
    hide TooSoon, DataOk, Honest, ReceivedNext, OpFates, TagOk;
    var r, f, l2 := Clock(b, i), Follow(b, i, log), Entered(b, i, log, l);
    forall t: nat | t < b.cfg.tags ensures TagOk(r, f, l2, t) {
      if Fires(b, i) && b.req.tag == t {
        TagIssued(b, i, log, l);
      } else {
        TagCarried(b, i, log, l, t);
      }
    }
    forall op: nat | op < b.cfg.ops ensures OpFates(r, l2, op) {
      FatesStep(b, i, log, l, op);
    }
  }

  /* At the end of an operation. */

  lemma NoneFinishing(c: seq<Status>, op: nat)
    requires Finishing(c, op) == 0
    ensures forall st :: st in c ==> !Bad(st, op)
  {
  }

  // Once every read of an operation is finished and none of them reported an error, all that
  // every one of its requests asked for has been written.
  lemma SettledFates(s: State, log: seq<Progress>, l: Ledger, op: nat, k: nat)
    requires TagPlaces(s) && StatusesOk(s) && FatesOk(s, log, l) && op < s.cfg.ops && k < |s.history[op].requests|
    requires Unfinished(s, op) == 0 && !Recorded(s.history[op].codes)
    requires !(s.stWrite.finish && s.cpl.op == op)
    ensures k < |l.fates[op]| && l.fates[op][k].Ended? && l.fates[op][k].error == DMA_NONE
    ensures Written(s.cfg.geo, s.history[op].requests[k], l.fates[op][k].done)
  {
    assert OpFates(s, l, op) && FateOk(s, l, op, k);
    NoneFinishing(s.statuses.Contents(), op);
    match l.fates[op][k] {
      case Open(t) =>
        hide FatesOk, OpFates, Unfinished;
        NoneOutstanding(s, op, t);
        assert false;
      case Ended(_, _) =>
    }
  }

  // The read of a status being sent is unfinished.
  lemma SentIsUnfinished(s: State, op: nat)
    requires TagPlaces(s) && CplTag(s) && StatusesOk(s) && op < s.cfg.ops && Unfinished(s, op) == 0
    ensures !(s.stWrite.finish && s.cpl.op == op)
  {
    NoneActive(op, s.table, s.cpl.tag);
    hide Stored, Total, Finishing, Ring.Contents;
  }

  lemma ResetFates(cfg: Config, log: seq<Progress>, l: Ledger)
    requires cfg.Valid() && Shaped(Reset(cfg)) && |log| == cfg.tags && l.For(Reset(cfg))
    requires forall op :: 0 <= op < cfg.ops ==> l.fates[op] == []
    ensures FatesOk(Reset(cfg), log, l)
  {
    hide Stored, Filled;
  }
}
