/** The status FIFO never overflows, and every status in it is well formed. */
module EngineStatus {
  import opened Ring
  import opened ReadEngine
  import opened EngineTags

  // May a completion taken at this edge send a status?
  predicate MayWrite(s: State) {
    s.cpl.ready && s.cpl.state != WaitEnd
  }

  // The full flag lags two cycles behind; four spare entries cover the statuses under way.
  ghost predicate Room(s: State) {
    var held, coming := s.statuses.Used(), Bit(s.stWrite.en);
    && (!s.stFull ==> held <= STATUS_HIGH)
    && (MayWrite(s) ==> held + coming <= STATUS_HIGH + 2)
    && held + coming <= STATUS_HIGH + 3
  }

  // Only the last status of a read carries an error.
  predicate Sane(finish: bool, error: nat) {
    error != DMA_NONE ==> finish
  }

  // A status that finishes a read is sent exactly when the read's tag is released.
  ghost predicate Formed(s: State)
    requires Shaped(s)
  {
    && (forall st :: st in s.statuses.Contents() ==> Sane(st.finish, st.error))
    && (s.stRead.valid ==> Sane(s.stRead.status.finish, s.stRead.status.error))
    && SaneWrite(s)
  }

  predicate SaneWrite(s: State) {
    && Sane(s.stWrite.finish, s.stWrite.error) && (s.stWrite.finish ==> s.stWrite.en)
    && s.stWrite.finish == s.cpl.finish
  }

  ghost predicate StatusesOk(s: State) {
    Shaped(s) && Room(s) && Formed(s)
  }

  // What the completion process sends.
  lemma ReceivedStatus(b: State, i: Inputs)
    requires Shaped(b) && i.Valid(b.cfg)
    ensures var x := ReceivedNext(b, i);
      && Sane(x.status.finish, x.status.error) && (x.status.finish ==> x.status.en)
      && x.status.finish == x.cpl.finish
      && (x.status.en ==> MayWrite(b))
      && (x.cpl.ready && x.cpl.state != WaitEnd ==> !b.stFull)
  {
  }

  // Fetching a status takes the oldest one out of the FIFO.
  lemma ReportingStatuses(b: State, i: Inputs)
    requires Shaped(b)
    ensures var s, c := Reporting(b, i), b.statuses.Contents();
      if (b.stRead.valid && !Pops(b, i)) || c == [] then
        s.statuses == b.statuses && s.stRead == (if Pops(b, i) then b.stRead.(valid := false) else b.stRead)
      else s.statuses.Contents() == c[1..] && s.stRead == StatusRead(true, c[0])
  {
    var p := PopStatus(b, b, i);
    assert p.stRead == if Pops(b, i) then b.stRead.(valid := false) else b.stRead;
    hide PopStatus, Shaped, Pops;
    if !b.statuses.Empty() {
      b.statuses.PopContents();
    }
  }

  lemma WrittenStatuses(b: State, s: State)
    requires Alike(b, s) && Room(b) && s.statuses.Used() <= b.statuses.Used()
    ensures WriteStatus(b, s).statuses.Used() == s.statuses.Used() + Bit(b.stWrite.en)
    ensures WriteStatus(b, s).statuses.Contents()
         == s.statuses.Contents() + if b.stWrite.en then [Status(b.cpl.op, b.stWrite.finish, b.stWrite.error)] else []
  {
    if b.stWrite.en {
      s.statuses.PushContents(Status(b.cpl.op, b.stWrite.finish, b.stWrite.error));
    }
  }

  // The registers after the edge, by where they come from.
  lemma StatusRegisters(b: State, i: Inputs)
    requires Shaped(b) && i.Valid(b.cfg)
    ensures var s, r, x := Reporting(b, i), Clock(b, i), ReceivedNext(b, i);
      && r.cpl == x.cpl && r.stWrite == x.status && r.stRead == s.stRead
      && r.statuses == WriteStatus(b, s).statuses && r.stFull == (b.statuses.Used() >= STATUS_HIGH)
  {
    hide Shaped, Reporting, Requesting, WriteStatus, Release, StartTag, ReceivedNext;
  }

  lemma ReportingKeeps(b: State, i: Inputs)
    requires Shaped(b)
    ensures var s := Reporting(b, i);
      && s.statuses.Used() <= b.statuses.Used()
      && (forall st :: st in s.statuses.Contents() ==> st in b.statuses.Contents())
      && (s.stRead.valid ==> s.stRead == b.stRead || s.stRead.status in b.statuses.Contents())
  {
    hide Shaped, Reporting, Ring.Contents, Pops;
    ReportingStatuses(b, i);
  }

  lemma ClockRoom(b: State, i: Inputs)
    requires Shaped(b) && Room(b) && i.Valid(b.cfg)
    ensures Room(Clock(b, i))
  {
    hide Shaped, Clock, Reporting, WriteStatus, ReceivedNext, Ring.Contents, Ring.Used, Ring.Valid;
    var s := Reporting(b, i);
    ReportingKeeps(b, i);
    StatusRegisters(b, i);
    ReceivedStatus(b, i);
    WrittenStatuses(b, s);
  }

  lemma ClockFormed(b: State, i: Inputs)
    requires Shaped(b) && Room(b) && Formed(b) && i.Valid(b.cfg)
    ensures Formed(Clock(b, i))
  {
    hide Shaped, Clock, Reporting, WriteStatus, ReceivedNext, Ring.Contents, Ring.Used, Ring.Valid, Room;
    ReportingKeeps(b, i);
    StatusRegisters(b, i);
    ReceivedStatus(b, i);
    WrittenStatuses(b, Reporting(b, i));
  }

  lemma ClockStatuses(b: State, i: Inputs)
    requires StatusesOk(b) && i.Valid(b.cfg)
    ensures StatusesOk(Clock(b, i))
  {
    hide Shaped, Clock, Room, Formed;
    ClockRoom(b, i);
    ClockFormed(b, i);
  }
}
