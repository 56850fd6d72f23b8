/** The reads of an operation that are not finished yet, wherever they are. */
module EngineCounts {
  import opened TlpSizing
  import opened Ring
  import opened ReadEngine
  import opened EngineTags
  import opened EngineCredits
  import opened EngineStatus

  // Statuses that finish a read of the operation.
  function Finishing(c: seq<Status>, op: nat): nat {
    if c == [] then 0 else Bit(c[0].finish && c[0].op == op) + Finishing(c[1..], op)
  }

  lemma {:induction false} FinishingAppend(c: seq<Status>, st: Status, op: nat)
    ensures Finishing(c + [st], op) == Finishing(c, op) + Bit(st.finish && st.op == op)
  {
    if c == [] {
      assert c + [st] == [st];
    } else {
      assert (c + [st])[1..] == c[1..] + [st];
      FinishingAppend(c[1..], st, op);
    }
  }

  lemma {:induction false} FinishingBound(c: seq<Status>, op: nat)
    ensures Finishing(c, op) <= |c|
  {
    if c != [] {
      FinishingBound(c[1..], op);
    }
  }

  function Reported(s: State, op: nat): nat
    requires s.statuses.Valid()
  {
    Finishing(s.statuses.Contents(), op)
    + Bit(s.stRead.valid && s.stRead.status.finish && s.stRead.status.op == op)
  }

  // Issued, and its last status not popped.
  function Unfinished(s: State, op: nat): nat
    requires s.statuses.Valid()
  {
    InFlight(ReadsOf(op), s) + Reported(s, op)
  }

  lemma UnfinishedElsewhere(s: State, r: State, op: nat)
    requires s.statuses.Valid() && r.statuses == s.statuses && r.table == s.table && r.start == s.start
        && r.stRead == s.stRead
    ensures Unfinished(r, op) == Unfinished(s, op)
  {
    hide Total, Finishing;
  }

  // The popped status is the only one to go.
  lemma ReportingUnfinished(b: State, i: Inputs, op: nat)
    requires Shaped(b)
    ensures Unfinished(Reporting(b, i), op) == Unfinished(b, op) - Bit(Finishes(b, i) && b.stRead.status.op == op)
  {
    hide Shaped, Reporting, Ring.Contents, Total;
    ReportingStatuses(b, i);
  }

  // A tag is released as its last status enters the FIFO.
  lemma ReleasedUnfinished(b: State, s: State, op: nat)
    requires Alike(b, s) && CplTag(b) && SaneWrite(b) && Room(b) && s.table == b.table
    requires s.statuses.Used() <= b.statuses.Used()
    ensures Unfinished(Release(b, WriteStatus(b, s)), op) == Unfinished(s, op)
  {
    hide Stored, WriteStatus, Release, Ring.Contents, Ring.Used, Total, Finishing, Room;
    var w, c := WriteStatus(b, s), s.statuses.Contents();
    WrittenStatuses(b, s);
    assert c + [] == c;
    FinishingAppend(c, Status(b.cpl.op, b.stWrite.finish, b.stWrite.error), op);
    ReleaseInFlight(ReadsOf(op), b, w);
  }

  lemma CompletingUnfinished(b: State, s: State, i: Inputs, op: nat)
    requires Alike(b, s) && i.Valid(b.cfg) && TagPlaces(s) && CplTag(b) && SaneWrite(b) && Room(b)
    requires s.statuses.Used() <= b.statuses.Used()
    requires s.low == b.low && s.high == b.high && s.req == b.req && s.start == b.start && s.table == b.table
    ensures Unfinished(Completing(b, s, i), op) == Unfinished(s, op)
  {
    var w := WriteStatus(b, s);
    var q := Release(b, w);
    var t := StartTag(b, q);
    assert b.cpl.finish ==> b.table[b.cpl.tag].Active();
    hide Shaped, WriteStatus, Release, StartTag, Receive, CplTag, TagPlaces, SaneWrite, Room, Unfinished, Ring.Used;
    ReleasedUnfinished(b, s, op);
    TagsElsewhere(s, w);
    ReleaseTags(b, w);
    StartSlot(b, w);
    StartUnfinished(b, q, op);
    UnfinishedElsewhere(t, Receive(b, t, i), op);
  }

  lemma StartUnfinished(b: State, s: State, op: nat)
    requires Alike(b, s) && TagPlaces(s) && s.start == b.start
    requires b.start.en ==> s.table[b.start.tag] == b.table[b.start.tag]
    ensures Unfinished(StartTag(b, s), op) == Unfinished(s, op)
  {
    hide Shaped, TagPlaces, StartTag, InFlight, Finishing;
    StartInFlight(ReadsOf(op), b, s);
  }

  lemma IssueUnfinished(b: State, s: State, i: Inputs, op: nat)
    requires Alike(b, s) && i.Valid(b.cfg) && !s.start.en
    ensures Unfinished(Issue(b, s, i), op) == Unfinished(s, op) + Bit(Fires(b, i) && b.req.op == op)
  {
    IssueInFlight(ReadsOf(op), b, s, i);
    hide Issue, Shaped, InFlight, Finishing;
  }

  // Fewer than the read counters can tell apart.
  lemma UnfinishedBound(s: State, op: nat)
    requires TagPlaces(s) && Room(s)
    ensures Unfinished(s, op) <= s.cfg.CountSpan()
  {
    FinishingBound(s.statuses.Contents(), op);
    var t := s.start.tag;
    if s.start.en {
      assert Places(s, t) == 1;
      hide Total, Finishing, Places, Stored;
      var slot := TagSlot(TagEntry(0, op, 0, 0), true, false);
      TotalUpdate(ReadsOf(op), s.table, t, slot);
      ReadsBound(op, s.table[t := slot]);
    } else {
      hide Total, Finishing, Places, Stored;
      ReadsBound(op, s.table);
    }
  }
}
