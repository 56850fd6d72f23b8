/** What becomes of every word on the completion link, told from its header's fields. */
module EngineAccept {
  import opened Options
  import opened Ring
  import opened ReadEngine
  import opened EngineTags
  import opened EngineStatus
  import opened EngineData
  import C = CompletionPath

  // What a word says. Codes as the card reports them: 9 poisoned, 10 unsupported request, 11
  // completer abort, 1 timeout, 8 function-level reset.
  datatype Answer = Data | Failure(code: nat) | Nothing

  // The completion of an outstanding read of this card, with the traffic class and attributes the
  // request had: a successful one (status 0) has a three-dword header with data (format 2), any
  // other one a three-dword header without (format 0).
  predicate Proper(table: seq<TagSlot>, beat: Beat)
    requires |table| > 0
  {
    var h := beat.header;
    var slot := table[h.tag % |table|];
    && h.ours && slot.a != slot.b && h.attr == 0 && h.tc == 0
    && (if h.status == 0 then h.fmt == 2 else h.fmt == 0)
    && beat.error != 3  // the core found it not to match its request
  }

  // Poison goes before a bad status, a bad status before a timeout or a reset.
  function Meaning(table: seq<TagSlot>, beat: Beat): Answer
    requires |table| > 0
  {
    var h, error := beat.header, beat.error;
    if !Proper(table, beat) then Nothing
    else if h.poisoned || error == 1 then Failure(9)
    else if h.status == 4 then Failure(11)
    else if h.status != 0 || error == 2 then Failure(10)
    else if error == 15 then Failure(1)
    else if error == 8 then Failure(8)
    else Data
  }

  // A word is taken in a cycle in which the engine was ready for it.
  predicate Arrives(b: State, i: Inputs) {
    b.cpl.ready && i.beat.Some?
  }

  predicate HeaderArrives(b: State, i: Inputs) {
    Arrives(b, i) && b.cpl.state == Idle && i.beat.value.sop
  }

  // What a header does. Data: its first cycle is made, and the read ends if that is the last one
  // of its last completion. A failure ends the read with its code. Anything else leaves no trace.
  // Where there is no data to write, the rest of the packet is skipped.
  lemma HeaderTaken(b: State, i: Inputs)
    requires Shaped(b) && i.Valid(b.cfg) && HeaderArrives(b, i)
    ensures var r := Clock(b, i); var beat := i.beat.value; var t := beat.header.tag % b.cfg.tags;
      var skip := if beat.eop then Idle else WaitEnd;
      match Meaning(b.table, beat)
      case Data =>
        var c := C.FirstCycle(b.cfg.geo, b.table[t].entry.ramEnd, beat.header.span);
        && r.cpl.tag == t && r.cpl.op == b.table[t].entry.op && r.cpl.cycle == c
        && r.cpl.state == (if c.last then Idle else Write)
        && r.cpl.finish == (c.last && c.final) && r.stWrite == StatusWrite(true, c.last && c.final, 0)
      case Failure(code) =>
        && r.cpl.tag == t && r.cpl.op == b.table[t].entry.op && r.cpl.state == skip
        && r.cpl.finish && r.stWrite == StatusWrite(true, true, code)
      case Nothing => r.cpl.state == skip && !r.cpl.finish && !r.stWrite.en
  {
    hide Stored, Clock, Reporting, WriteStatus, C.FirstCycle, Ring.Used, Ring.Valid;
    StatusRegisters(b, i);
  }

  // A further word of a completion with data makes the next cycle. The read ends with the last
  // one, or with the packet, if this is its last completion.
  lemma WordTaken(b: State, i: Inputs)
    requires Shaped(b) && i.Valid(b.cfg) && Arrives(b, i) && b.cpl.state == Write
    ensures var r, c := Clock(b, i), C.NextCycle(b.cfg.geo, b.cpl.cycle);
      var stops := c.last || i.beat.value.eop;
      && r.cpl.tag == b.cpl.tag && r.cpl.op == b.cpl.op && r.cpl.cycle == c
      && r.cpl.state == (if !stops then Write else if i.beat.value.eop then Idle else WaitEnd)
      && r.cpl.finish == (stops && c.final) && r.stWrite == StatusWrite(true, stops && c.final, 0)
  {
    hide Stored, Clock, Reporting, WriteStatus, C.NextCycle, Ring.Used, Ring.Valid;
    StatusRegisters(b, i);
  }

  // Without a header or a word to follow, nothing is written, reported or released; the rest of
  // a packet is skipped up to its end, and the place in a completion is kept.
  lemma NothingTaken(b: State, i: Inputs)
    requires Shaped(b) && i.Valid(b.cfg)
    requires !HeaderArrives(b, i) && !(Arrives(b, i) && b.cpl.state == Write)
    ensures var r := Clock(b, i);
      && !r.stWrite.en && !r.cpl.finish
      && r.cpl.tag == b.cpl.tag && r.cpl.op == b.cpl.op && r.cpl.cycle == b.cpl.cycle
      && r.cpl.state == if b.cpl.state == WaitEnd && Arrives(b, i) && i.beat.value.eop then Idle else b.cpl.state
  {
    hide Stored, Clock, Reporting, WriteStatus, Ring.Used, Ring.Valid;
    StatusRegisters(b, i);
  }

  // The engine is ready whenever it skips, or the RAM and the status FIFO take what a word makes;
  // and it is not ready for a word they might not take.
  lemma ReadyForWords(b: State, i: Inputs)
    requires Shaped(b) && i.Valid(b.cfg)
    ensures var r := Clock(b, i);
      && (r.cpl.ready ==> (i.ramReady && !b.stFull) || r.cpl.state == WaitEnd)
      && (i.ramReady && !b.stFull ==> r.cpl.ready)
  {
    hide Stored, Clock, Reporting, WriteStatus, Ring.Used, C.FirstCycle, C.NextCycle, Ring.Valid;
    StatusRegisters(b, i);
  }

  lemma FirstHasBytes(g: C.Geometry, end: nat, s: C.Span)
    requires g.Valid() && s.Valid()
    ensures C.FirstCycle(g, end, s).bytes > 0
  {
    hide C.Plus;
  }

  // A header that means data is one whose data is taken.
  lemma DataHeader(b: State, i: Inputs)
    requires Sized(b) && i.Valid(b.cfg) && HeaderArrives(b, i) && Meaning(b.table, i.beat.value) == Data
    ensures TakesData(b, i) && DataTag(b, i) == i.beat.value.header.tag % b.cfg.tags
    ensures DataCycle(b, i).bytes > 0
  {
    var h := i.beat.value.header;
    FirstHasBytes(b.cfg.geo, b.table[h.tag % b.cfg.tags].entry.ramEnd, h.span);
    hide C.FirstCycle;
  }
}
