/** Why no header may come too soon: an input after which a tag is in two places. */
module EngineTooSoon {
  import opened Options
  import opened Arith
  import opened Ring
  import opened TlpSizing
  import opened TlpStream
  import opened ReadEngine
  import opened EngineTags
  import opened EngineStatus
  import opened EngineStream
  import opened EngineRuns
  import C = CompletionPath

  // No descriptor in hand or to be taken, and a tag held: the tag FIFOs only take tags back.
  predicate Resting(s: State) {
    !s.req.busy && !s.req.descReady && s.req.tagValid
  }

  lemma RestingLow(b: State, i: Inputs)
    requires Shaped(b) && i.Valid(b.cfg) && Resting(b)
    ensures var r := Clock(b, i);
      && r.low == (if b.cpl.finish && b.cpl.tag < LOW_TAGS then b.low.Push(b.cpl.tag) else b.low)
      && !r.req.busy && r.req.tagValid
  {
    var s := Reporting(b, i);
    var t := Completing(b, s, i);
    var q := Issue(b, t, i);
    IssueReq(b, t, i);
    HeldTag(b, i);
    hide Stored, Reporting, Issue, ReqNext, WriteStatus, Receive;
  }

  lemma TwoPushes(r: Ring<nat>, t: nat)
    requires r.Valid() && r.Used() + 2 <= |r.mem|
    ensures var p := r.Push(t).Push(t); p.Valid() && Occurs(p.Contents(), t) >= 2
  {
    var c := r.Contents();
    r.PushContents(t);
    r.Push(t).PushContents(t);
    hide Ring.Contents, Ring.Push, Occurs;
    OccursAppend(c, t, t);
    OccursAppend(c + [t], t, t);
  }

  // A header that ends its read and comes too soon releases the tag a second time.
  lemma ReleasedTwice(b: State, i: Inputs, next: Inputs)
    requires Shaped(b) && Resting(b) && i.Valid(b.cfg) && next.Valid(b.cfg)
    requires b.cpl.finish && b.cpl.tag < LOW_TAGS && b.low.Used() + 2 <= LOW_TAGS
    requires var x := ReceivedNext(b, i).cpl; x.finish && x.tag == b.cpl.tag
    ensures Clock(Clock(b, i), next).low == b.low.Push(b.cpl.tag).Push(b.cpl.tag)
    ensures !TagPlaces(Clock(Clock(b, i), next))
  {
    hide Stored, Clock, ReceivedNext, Ring.Push, Ring.Contents, Ring.Used, Occurs, Reporting, WriteStatus;
    var r, t := Clock(b, i), b.cpl.tag;
    RestingLow(b, i);
    StatusRegisters(b, i);
    OnceMore(r, next);
    TwoPushes(b.low, t);
    NotOnePlace(Clock(r, next), t);
  }

  lemma OnceMore(r: State, i: Inputs)
    requires Shaped(r) && i.Valid(r.cfg) && !r.req.busy && r.req.tagValid && r.cpl.finish && r.cpl.tag < LOW_TAGS
    ensures Clock(r, i).low == r.low.Push(r.cpl.tag)
  {
    var s := Reporting(r, i);
    var t := Completing(r, s, i);
    IssueReq(r, t, i);
    HeldTag(r, i);
    hide Stored, Reporting, Issue, ReqNext, WriteStatus, Receive;
  }

  lemma NotOnePlace(s: State, t: nat)
    requires Shaped(s) && t < s.cfg.tags && Occurs(s.low.Contents(), t) >= 2
    ensures !TagPlaces(s)
  {
    assert TagPlaces(s) ==> Places(s, t) == 1;
  }

  /* One such state and header. */

  // Tag 0 has just been finished, tag 1 is held, all others are free.
  function Finished(cfg: Config): (s: State)
    requires cfg.Valid()
  {
    var r := Reset(cfg);
    r.(req := r.req.(tag := 1, tagValid := true),
       low := Filled(Between(2, LOW_TAGS), LOW_TAGS, 0),
       table := r.table[0 := TagSlot(NO_ENTRY, true, false)],
       cpl := r.cpl.(finish := true, ready := true),
       stWrite := StatusWrite(true, true, DMA_NONE))
  }

  // A completion without data that refuses the request of tag 0.
  const REFUSAL := Beat(true, true, Header(0, FMT_3DW, 1, true, 0, 0, false, C.Span(4, 1, 0)), 0)

  function Refused(): Inputs {
    Inputs(false, None, false, false, 32, false, false, Some(REFUSAL), true, false)
  }

  lemma FinishedShaped(cfg: Config)
    requires cfg.Valid()
    ensures Shaped(Finished(cfg))
  {
    ResetShaped(cfg);
    FilledMem(Between(2, LOW_TAGS), LOW_TAGS, 0);
    hide Filled;
  }

  lemma FinishedPlaces(cfg: Config)
    requires cfg.Valid()
    ensures TagPlaces(Finished(cfg)) && CplTag(Finished(cfg))
  {
    FinishedShaped(cfg);
    var s := Finished(cfg);
    var c, d := s.low.Contents(), s.high.Contents();
    assert c == Between(2, LOW_TAGS) && d == Between(LOW_TAGS, cfg.tags);
    forall t: nat ensures Occurs(c, t) == Bit(2 <= t < LOW_TAGS) && Occurs(d, t) == Bit(LOW_TAGS <= t < cfg.tags) {
      OccursBetween(2, LOW_TAGS, t);
      OccursBetween(LOW_TAGS, cfg.tags, t);
    }
    hide Occurs, Stored, Ring.Contents, Filled;
  }

  // After two edges with it, tag 0 is in the FIFO twice.
  lemma TagInTwoPlaces(cfg: Config)
    requires cfg.Valid()
    ensures var b, i := Finished(cfg), Refused();
      && TagPlaces(b) && CplTag(b) && i.Valid(cfg) && TooSoon(b, i)
      && !CplTag(Clock(b, i)) && !TagPlaces(Clock(Clock(b, i), i))
  {
    var b, i := Finished(cfg), Refused();
    FinishedPlaces(cfg);
    RefusalIsTooSoon(cfg);
    hide Finished, Refused, TagPlaces, CplTag, Clock, TooSoon, ReceivedNext;
    ClockTags(b, i);
    ReleasedTwice(b, i, i);
  }

  lemma RefusalIsTooSoon(cfg: Config)
    requires cfg.Valid() && Shaped(Finished(cfg))
    ensures var b, i := Finished(cfg), Refused(); var x := ReceivedNext(b, i).cpl;
      && i.Valid(b.cfg) && b.cfg == cfg && TooSoon(b, i) && x.finish && x.tag == b.cpl.tag == 0
      && Resting(b) && b.cpl.finish && b.low.Used() + 2 <= LOW_TAGS
  {
    DivSmall(0, cfg.tags);
    var b := Finished(cfg);
    assert b.low.Contents() == Between(2, LOW_TAGS) && b.low.Used() == |Between(2, LOW_TAGS)|;
    hide C.FirstCycle, Stored, Filled;
  }
}
