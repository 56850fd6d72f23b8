/** The DMA read engine as clocked registers: one function per process, from the registers
    before the clock edge to the registers after it. */
module ReadEngine {
  import opened TlpSizing
  import opened TlpStream
  import opened Ring
  import C = CompletionPath
  import opened Options

  const LOW_TAGS: nat := 32         // tags usable without extended tags, kept in the first tag FIFO
  const STATUS_SLOTS: nat := 32     // status FIFO entries
  const STATUS_HIGH: nat := 28      // at which completions are held off
  const MAX_CPLH: nat := 64         // credits one request can take
  const MAX_CPLD: nat := 256

  // `tags` and `ops` are the sizes of the tag and operation tables, `highRing` the memory of
  // the second tag FIFO; the credit counters count modulo their span.
  datatype Config = Config(tags: nat, highRing: nat, ops: nat, cplhLimit: nat, cplhSpan: nat,
                           cpldLimit: nat, cpldSpan: nat, geo: C.Geometry) {
    predicate Valid() {
      && LOW_TAGS <= tags && 0 < highRing && tags - LOW_TAGS <= highRing && 0 < ops
      && 0 < cplhLimit && cplhLimit + MAX_CPLH <= cplhSpan
      && 0 < cpldLimit && cpldLimit + MAX_CPLD <= cpldSpan
      && geo.Valid()
    }

    // The read counters have one bit more than a tag.
    function CountSpan(): nat { 2 * tags }
  }

  /* Registers. */

  datatype TagEntry = TagEntry(ramEnd: nat, op: nat, cplh: nat, cpld: nat)

  // A tag is outstanding while its two flags differ.
  datatype TagSlot = TagSlot(entry: TagEntry, a: bool, b: bool) {
    predicate Active() { a != b }
  }

  datatype OpSlot = OpSlot(tag: nat, initA: bool, initB: bool, commit: bool, countStart: nat, countFinish: nat,
                           errorA: bool, errorB: bool, errorCode: nat)

  // Request side: the descriptor being cut up, the held operation and PCIe tags, the
  // request offered to the link.
  datatype Req = Req(busy: bool, addr: Addr, ramAddr: nat, count: nat, zeroLen: bool, op: nat, opValid: bool,
                     tag: nat, tagValid: bool, txValid: bool, tx: ReadTlp, txTag: nat, descReady: bool)

  // A tag table write on its way.
  datatype Start = Start(en: bool, tag: nat, entry: TagEntry)

  datatype CplState = Idle | Write | WaitEnd

  // Completion side. `finish` says the tag is being released.
  datatype Cpl = Cpl(state: CplState, tag: nat, op: nat, cycle: C.Cycle, finish: bool, ready: bool)

  datatype Status = Status(op: nat, finish: bool, error: nat)

  // A status on its way into the FIFO; its operation is in the completion registers.
  datatype StatusWrite = StatusWrite(en: bool, finish: bool, error: nat)

  datatype StatusRead = StatusRead(valid: bool, status: Status)

  datatype Credits = Credits(cplh: nat, cpld: nat, cplhOk: bool, cpldOk: bool)

  // Observed, not stored: per operation slot the descriptors accepted into it, the
  // statuses raised from it; of the current operation, the requests issued and the error codes
  // of its finished reads.
  datatype Outcome = Outcome(tag: nat, error: nat)
  datatype History = History(accepted: seq<Descriptor>, raised: seq<Outcome>, requests: seq<ReadTlp>, codes: seq<nat>)

  datatype State = State(cfg: Config, req: Req, start: Start, table: seq<TagSlot>, low: Ring<nat>, high: Ring<nat>,
                         cpl: Cpl, stWrite: StatusWrite, statuses: Ring<Status>, stFull: bool, stRead: StatusRead,
                         ops: seq<OpSlot>, freeOps: Ring<nat>, credits: Credits, history: seq<History>)

  /* Inputs of one cycle. */

  datatype Descriptor = Descriptor(addr: Addr, ramAddr: nat, len: nat, tag: nat)

  const FMT_3DW: nat := 0
  const FMT_3DW_DATA: nat := 2
  const CPL_SC: nat := 0
  const CPL_CA: nat := 4

  const PCIE_POISONED: nat := 1
  const PCIE_BAD_STATUS: nat := 2
  const PCIE_MISMATCH: nat := 3
  const PCIE_FLR: nat := 8
  const PCIE_TIMEOUT: nat := 15

  const DMA_NONE: nat := 0
  const DMA_TIMEOUT: nat := 1
  const DMA_FLR: nat := 8
  const DMA_POISONED: nat := 9
  const DMA_STATUS_UR: nat := 10
  const DMA_STATUS_CA: nat := 11

  datatype Header = Header(tag: nat, fmt: nat, status: nat, ours: bool, attr: nat, tc: nat, poisoned: bool,
                           span: C.Span)
  datatype Beat = Beat(sop: bool, eop: bool, header: Header, error: nat)

  datatype Inputs = Inputs(enable: bool, desc: Option<Descriptor>, txReady: bool, txAvailable: bool,
                           maxDw: nat, rcb128: bool, extTags: bool,
                           beat: Option<Beat>, ramReady: bool, writesDone: bool) {
    predicate Valid(cfg: Config)
      requires cfg.Valid()
    {
      && IsMaxDwords(maxDw)
      && (desc.Some? ==> desc.value.addr.Valid() && desc.value.len < LEN_SPACE && desc.value.ramAddr < cfg.geo.ramSpace)
      && (beat.Some? ==> beat.value.header.span.Valid())
    }
  }

  /* Register contents the processes can rely on to index their tables. */

  ghost predicate Shaped(s: State) {
    Sized(s) && Stored(s)
  }

  ghost predicate Sized(s: State) {
    && s.cfg.Valid()
    && |s.table| == s.cfg.tags && |s.ops| == s.cfg.ops && |s.history| == s.cfg.ops
    && s.req.addr.Valid() && s.req.count < LEN_SPACE && s.req.op < s.cfg.ops && s.req.tag < s.cfg.tags
    && s.req.ramAddr < s.cfg.geo.ramSpace
    && s.start.tag < s.cfg.tags && s.start.entry.op < s.cfg.ops && s.start.entry.ramEnd < s.cfg.geo.ramSpace
    && s.cpl.tag < s.cfg.tags && s.cpl.op < s.cfg.ops
    && s.low.Valid() && |s.low.mem| == LOW_TAGS && s.high.Valid() && |s.high.mem| == s.cfg.highRing
    && s.freeOps.Valid() && |s.freeOps.mem| == s.cfg.ops
    && s.statuses.Valid() && |s.statuses.mem| == STATUS_SLOTS
    && s.stRead.status.op < s.cfg.ops
  }

  // What the memories hold.
  ghost predicate Stored(s: State) {
    && (forall t :: 0 <= t < |s.table| ==>
          s.table[t].entry.op < s.cfg.ops && s.table[t].entry.ramEnd < s.cfg.geo.ramSpace)
    && (forall k :: 0 <= k < |s.low.mem| ==> s.low.mem[k] < s.cfg.tags)
    && (forall k :: 0 <= k < |s.high.mem| ==> s.high.mem[k] < s.cfg.tags)
    && (forall k :: 0 <= k < |s.freeOps.mem| ==> s.freeOps.mem[k] < s.cfg.ops)
    && (forall k :: 0 <= k < |s.statuses.mem| ==> s.statuses.mem[k].op < s.cfg.ops)
  }

  /* Reset, with the initialisation of the tag FIFOs and tables done. */

  function Upto(n: nat): (q: seq<nat>) {
    seq(n, i => i)
  }

  function Between(lo: nat, n: nat): (q: seq<nat>)
    requires lo <= n
  {
    seq(n - lo, i => lo + i)
  }

  const NO_ENTRY := TagEntry(0, 0, 0, 0)
  const NO_STATUS := Status(0, false, DMA_NONE)
  const ORIGIN := Addr(0, 0, 0, 0, 0, 0)
  const NO_TLP := ReadTlp(ORIGIN, 0, 0, 0, NO_LANES, NO_LANES, false, ORIGIN)

  function Reset(cfg: Config): State
    requires cfg.Valid()
  {
    State(cfg,
          Req(false, ORIGIN, 0, 0, false, 0, false, 0, false, false, NO_TLP, 0, false),
          Start(false, 0, NO_ENTRY),
          seq(cfg.tags, _ => TagSlot(NO_ENTRY, false, false)),
          Filled(Upto(LOW_TAGS), LOW_TAGS, 0), Filled(Between(LOW_TAGS, cfg.tags), cfg.highRing, 0),
          Cpl(Idle, 0, 0, C.Cycle(0, 0, 0, 0, false, false), false, false),
          StatusWrite(false, false, DMA_NONE), Filled([], STATUS_SLOTS, NO_STATUS), false, StatusRead(false, NO_STATUS),
          seq(cfg.ops, _ => OpSlot(0, false, false, false, 0, 0, false, false, 0)),
          Filled(Upto(cfg.ops), cfg.ops, 0),
          Credits(0, 0, true, true),
          seq(cfg.ops, _ => History([], [], [], [])))
  }

  /* The processes. `b` is the state before the edge, `s` what the processes applied so far
     have made of it; each reads `b` and writes its own registers of `s`. */

  ghost predicate Alike(b: State, s: State) {
    Shaped(b) && Shaped(s) && s.cfg == b.cfg
  }

  // Pop a status once its RAM writes are done.
  predicate Pops(b: State, i: Inputs) {
    b.stRead.valid && i.writesDone
  }

  predicate Finishes(b: State, i: Inputs) {
    Pops(b, i) && b.stRead.status.finish
  }

  // The last read of an operation whose last request has been issued.
  predicate Completes(o: OpSlot) {
    o.commit && o.countStart == o.countFinish
  }

  predicate Raises(b: State, i: Inputs)
    requires Sized(b)
  {
    Finishes(b, i) && Completes(b.ops[b.stRead.status.op])
  }

  // The error a finished operation reports: the last read's own, or the one remembered.
  function ReportedError(o: OpSlot, error: nat): nat {
    if error != DMA_NONE then error else if o.errorA != o.errorB then o.errorCode else DMA_NONE
  }

  // The table entry of the popped status' operation: `was` before the edge, `o` so far.
  function PoppedSlot(was: OpSlot, o: OpSlot, status: Status, span: nat): OpSlot
    requires span > 0
  {
    var o1 := if status.error != DMA_NONE then o.(errorCode := status.error, errorB := !was.errorA) else o;
    if status.finish then o1.(countFinish := (was.countFinish + 1) % span) else o1
  }

  function PoppedHistory(was: OpSlot, h: History, error: nat): History {
    var h1 := h.(codes := h.codes + [error]);
    if Completes(was) then h1.(raised := h.raised + [Outcome(was.tag, ReportedError(was, error))]) else h1
  }

  function PopStatus(b: State, s: State, i: Inputs): (r: State)
    requires Alike(b, s)
    ensures Alike(b, r) && r == s.(stRead := r.stRead, ops := r.ops, freeOps := r.freeOps, history := r.history)
  {
    var st := b.stRead.status;
    s.(stRead := if Pops(b, i) then s.stRead.(valid := false) else s.stRead,
       ops := if Pops(b, i) then s.ops[st.op := PoppedSlot(b.ops[st.op], s.ops[st.op], st, b.cfg.CountSpan())]
              else s.ops,
       freeOps := if Raises(b, i) then s.freeOps.Push(st.op) else s.freeOps,
       history := if Finishes(b, i) then s.history[st.op := PoppedHistory(b.ops[st.op], s.history[st.op], st.error)]
                  else s.history)
  }

  // Fetch the next status when none is held.
  function LoadStatus(b: State, s: State): (r: State)
    requires Alike(b, s) && s.statuses == b.statuses
    ensures Alike(b, r) && r == s.(stRead := r.stRead, statuses := r.statuses)
  {
    if !s.stRead.valid && !b.statuses.Empty() then
      s.(stRead := StatusRead(true, b.statuses.Head()), statuses := s.statuses.Pop())
    else s
  }

  const QUIET := StatusWrite(false, false, DMA_NONE)

  function WriteStatus(b: State, s: State): (r: State)
    requires Alike(b, s)
    ensures Alike(b, r) && r == s.(stWrite := r.stWrite, statuses := r.statuses)
  {
    if b.stWrite.en then
      s.(stWrite := QUIET, statuses := s.statuses.Push(Status(b.cpl.op, b.stWrite.finish, b.stWrite.error)))
    else s
  }

  // Hand a finished tag back, with its credits.
  function Release(b: State, s: State): (r: State)
    requires Alike(b, s)
    ensures Alike(b, r) && r == s.(table := r.table, credits := r.credits, low := r.low, high := r.high)
  {
    var t := b.cpl.tag;
    var e := b.table[t].entry;
    if b.cpl.finish then
      s.(table := s.table[t := s.table[t].(b := b.table[t].a)],
         credits := s.credits.(cplh := (s.credits.cplh - e.cplh) % s.cfg.cplhSpan,
                               cpld := (s.credits.cpld - e.cpld) % s.cfg.cpldSpan),
         low := if t < LOW_TAGS then s.low.Push(t) else s.low,
         high := if t < LOW_TAGS then s.high else s.high.Push(t))
    else s
  }

  // Write a new request's table entry.
  function StartTag(b: State, s: State): (r: State)
    requires Alike(b, s)
    ensures Alike(b, r) && r == s.(table := r.table, start := r.start)
  {
    var t := b.start.tag;
    if b.start.en then
      s.(table := s.table[t := s.table[t].(entry := b.start.entry, a := !b.table[t].b)],
         start := s.start.(en := false))
    else s
  }

  /* Receiving completions. */

  // The three ways a completion is refused or cut short.
  predicate Unexpected(h: Header, slot: TagSlot) {
    (h.status == CPL_SC && h.fmt != FMT_3DW_DATA) || !h.ours || !slot.Active()
  }

  predicate Malformed(h: Header, error: nat) {
    (h.status != CPL_SC && h.fmt != FMT_3DW) || h.attr != 0 || h.tc != 0 || error == PCIE_MISMATCH
  }

  predicate Terminates(h: Header, error: nat) {
    h.poisoned || error == PCIE_POISONED || h.status != CPL_SC || error == PCIE_BAD_STATUS
    || error == PCIE_TIMEOUT || error == PCIE_FLR
  }

  function TerminatingCode(h: Header, error: nat): (code: nat)
    requires Terminates(h, error)
    ensures code != DMA_NONE
  {
    if h.poisoned || error == PCIE_POISONED then DMA_POISONED
    else if h.status != CPL_SC || error == PCIE_BAD_STATUS then
      if h.status == CPL_CA then DMA_STATUS_CA else DMA_STATUS_UR
    else if error == PCIE_TIMEOUT then DMA_TIMEOUT
    else DMA_FLR
  }

  // What the completion process leaves in its registers and sends towards the status FIFO.
  datatype Received = Received(cpl: Cpl, status: StatusWrite)

  // A header in the idle state; `quiet` is what the registers hold by default.
  function ReceiveHeader(cfg: Config, table: seq<TagSlot>, quiet: Cpl, beat: Beat): Received
    requires cfg.Valid() && |table| == cfg.tags && beat.header.span.Valid()
  {
    var h := beat.header;
    var t := h.tag % cfg.tags;
    var slot := table[t];
    var c := C.FirstCycle(cfg.geo, slot.entry.ramEnd, h.span);
    var cpl := quiet.(tag := t, op := slot.entry.op, cycle := c);
    var dropped := if beat.eop then cpl else cpl.(state := WaitEnd, ready := true);
    if Unexpected(h, slot) || Malformed(h, beat.error) then Received(dropped, QUIET)
    else if Terminates(h, beat.error) then
      Received(dropped.(finish := true), StatusWrite(true, true, TerminatingCode(h, beat.error)))
    else
      Received(cpl.(finish := c.last && c.final, state := if c.last then Idle else Write),
               StatusWrite(true, c.last && c.final, DMA_NONE))
  }

  // A further data word.
  function ReceiveData(cfg: Config, cpl: Cpl, quiet: Cpl, beat: Beat): Received
    requires cfg.Valid()
  {
    var c := C.NextCycle(cfg.geo, cpl.cycle);
    var done := c.last || beat.eop;
    Received(quiet.(cycle := c, finish := done && c.final,
                    state := if !done then Write else if beat.eop then Idle else WaitEnd),
             StatusWrite(true, done && c.final, DMA_NONE))
  }

  predicate TakesBeat(b: State, i: Inputs) {
    b.cpl.ready && i.beat.Some?
  }

  predicate TakesHeader(b: State, i: Inputs) {
    TakesBeat(b, i) && b.cpl.state == Idle && i.beat.value.sop
  }

  function ReceivedNext(b: State, i: Inputs): Received
    requires Sized(b) && i.Valid(b.cfg)
  {
    var open := i.ramReady && !b.stFull;
    var quiet := b.cpl.(finish := false, ready := open);
    if TakesHeader(b, i) then ReceiveHeader(b.cfg, b.table, quiet, i.beat.value)
    else if TakesBeat(b, i) && b.cpl.state == Write then ReceiveData(b.cfg, b.cpl, quiet, i.beat.value)
    else if b.cpl.state == WaitEnd then
      if TakesBeat(b, i) && i.beat.value.eop then Received(quiet.(state := Idle), QUIET)
      else Received(quiet.(ready := true), QUIET)
    else Received(quiet, QUIET)
  }

  function Receive(b: State, s: State, i: Inputs): (r: State)
    requires Alike(b, s) && i.Valid(b.cfg)
    ensures Alike(b, r) && r == s.(cpl := r.cpl, stWrite := r.stWrite)
  {
    s.(cpl := ReceivedNext(b, i).cpl, stWrite := ReceivedNext(b, i).status)
  }

  /* Issuing requests. */

  predicate Accepts(b: State, i: Inputs) {
    !b.req.busy && b.req.descReady && i.desc.Some?
  }

  predicate CanSend(b: State, i: Inputs) {
    !b.req.txValid || i.txReady
  }

  predicate Fires(b: State, i: Inputs) {
    && b.req.busy && CanSend(b, i) && b.req.tagValid && i.txAvailable
    && b.credits.cplhOk && b.credits.cpldOk
  }

  // The size of the request a busy engine would send now.
  function Size(b: State, i: Inputs): (z: TlpSize)
    requires Sized(b) && i.Valid(b.cfg)
    ensures z.next.Valid()
  {
    NextIsValid(b.req.addr, b.req.count, i.maxDw, i.rcb128);
    SizeTlp(b.req.addr, b.req.count, i.maxDw, i.rcb128)
  }

  function RamAfter(b: State, z: TlpSize): nat
    requires b.cfg.Valid()
  {
    C.Plus(b.cfg.geo, b.req.ramAddr, z.tlpCount)
  }

  function ReqNext(b: State, i: Inputs): (q: Req)
    requires Sized(b) && i.Valid(b.cfg)
    ensures q.op == b.req.op && q.tag == b.req.tag
  {
    var q := b.req.(txValid := b.req.txValid && !i.txReady, descReady := false);
    if Accepts(b, i) then
      var d := i.desc.value;
      q.(busy := true, addr := d.addr, ramAddr := d.ramAddr, count := if d.len == 0 then 1 else d.len,
         zeroLen := d.len == 0)
    else if !b.req.busy then q.(descReady := i.enable && b.req.opValid)
    else
      var z := Size(b, i);
      var q1 := if CanSend(b, i) then
                  q.(tx := RequestFor(q.addr, q.ramAddr, q.zeroLen, z), txTag := q.tag)
                else q;
      if Fires(b, i) then
        q1.(addr := z.next, ramAddr := RamAfter(b, z), count := (q.count - z.tlpCount) % LEN_SPACE,
            txValid := true, tagValid := false, busy := !z.last, opValid := q.opValid && !z.last,
            descReady := z.last && i.enable && !b.freeOps.Empty())
      else q1
  }

  // The operation table entry after an accepted descriptor, and after an issued request.
  function AcceptedSlot(was: OpSlot, o: OpSlot, tag: nat): OpSlot {
    o.(tag := tag, initA := !was.initB, errorA := was.errorB)
  }

  function IssuedSlot(was: OpSlot, o: OpSlot, last: bool, span: nat): OpSlot
    requires span > 0
  {
    o.(initB := was.initA, commit := last,
       countStart := if was.initA != was.initB then was.countFinish else (was.countStart + 1) % span)
  }

  function Issue(b: State, s: State, i: Inputs): (r: State)
    requires Alike(b, s) && i.Valid(b.cfg)
    ensures Alike(b, r)
    ensures r == s.(req := r.req, start := r.start, credits := r.credits, ops := r.ops, history := r.history)
  {
    hide Addr.Valid, Ring.Valid, Size, ReqNext;
    var op, z := b.req.op, Size(b, i);
    var o, h := s.ops[op], s.history[op];
    s.(req := ReqNext(b, i),
       start := if Fires(b, i) then Start(true, b.req.tag, TagEntry(RamAfter(b, z), op, z.cplh, z.cpld)) else s.start,
       credits := if Fires(b, i) then
                    s.credits.(cplh := (s.credits.cplh + z.cplh) % s.cfg.cplhSpan,
                               cpld := (s.credits.cpld + z.cpld) % s.cfg.cpldSpan)
                  else s.credits,
       ops := if Accepts(b, i) then s.ops[op := AcceptedSlot(b.ops[op], o, i.desc.value.tag)]
              else if Fires(b, i) then s.ops[op := IssuedSlot(b.ops[op], o, z.last, b.cfg.CountSpan())]
              else s.ops,
       history := if Accepts(b, i) then
                    s.history[op := h.(accepted := h.accepted + [i.desc.value], requests := [], codes := [])]
                  else if Fires(b, i) then
                    s.history[op := h.(requests := h.requests
                                         + [RequestFor(b.req.addr, b.req.ramAddr, b.req.zeroLen, z)])]
                  else s.history)
  }

  // Refill the held operation tag and PCIe tag from what the FIFOs held before the edge.
  function FetchOp(b: State, s: State): (r: State)
    requires Alike(b, s)
    ensures Alike(b, r)
    ensures r == s.(req := s.req.(op := r.req.op, opValid := r.req.opValid), freeOps := r.freeOps)
  {
    hide Addr.Valid, Config.Valid;
    if !s.req.opValid && !b.freeOps.Empty() then
      s.(req := s.req.(op := s.freeOps.Head(), opValid := true), freeOps := s.freeOps.Pop())
    else s
  }

  function FetchTag(b: State, s: State, i: Inputs): (r: State)
    requires Alike(b, s)
    ensures Alike(b, r)
    ensures r == s.(req := s.req.(tag := r.req.tag, tagValid := r.req.tagValid), low := r.low, high := r.high)
  {
    hide Addr.Valid, Config.Valid;
    var lowTag := !s.req.tagValid && !b.low.Empty();
    var highTag := !s.req.tagValid && b.low.Empty() && i.extTags && !b.high.Empty();
    s.(req := s.req.(tag := if lowTag then s.low.Head() else if highTag then s.high.Head() else s.req.tag,
                     tagValid := s.req.tagValid || lowTag || highTag),
       low := if lowTag then s.low.Pop() else s.low,
       high := if highTag then s.high.Pop() else s.high)
  }

  // The registered comparisons.
  function Compare(b: State, s: State): (r: State)
    requires Alike(b, s)
    ensures Alike(b, r) && r == s.(credits := r.credits, stFull := r.stFull)
  {
    s.(credits := s.credits.(cplhOk := s.credits.cplh < s.cfg.cplhLimit, cpldOk := s.credits.cpld < s.cfg.cpldLimit),
       stFull := b.statuses.Used() >= STATUS_HIGH)
  }

  /* One clock edge: the processes in three groups, and the registered comparisons. */

  // Taking statuses out of the FIFO.
  function Reporting(b: State, i: Inputs): (r: State)
    requires Shaped(b)
    ensures Alike(b, r)
    ensures r == b.(stRead := r.stRead, statuses := r.statuses, ops := r.ops, freeOps := r.freeOps,
                    history := r.history)
  {
    LoadStatus(b, PopStatus(b, b, i))
  }

  // Acting on completions.
  function Completing(b: State, s: State, i: Inputs): (r: State)
    requires Alike(b, s) && i.Valid(b.cfg)
    ensures Alike(b, r)
    ensures r == s.(stWrite := r.stWrite, statuses := r.statuses, table := r.table, credits := r.credits,
                    low := r.low, high := r.high, start := r.start, cpl := r.cpl)
  {
    Receive(b, StartTag(b, Release(b, WriteStatus(b, s))), i)
  }

  // Making requests.
  function Requesting(b: State, s: State, i: Inputs): (r: State)
    requires Alike(b, s) && i.Valid(b.cfg)
    ensures Alike(b, r)
    ensures r == s.(req := r.req, start := r.start, credits := r.credits, ops := r.ops, history := r.history,
                    freeOps := r.freeOps, low := r.low, high := r.high)
  {
    FetchTag(b, FetchOp(b, Issue(b, s, i)), i)
  }

  function Clock(b: State, i: Inputs): (r: State)
    requires Shaped(b) && i.Valid(b.cfg)
    ensures Alike(b, r)
  {
    Compare(b, Requesting(b, Completing(b, Reporting(b, i), i), i))
  }
}
