/** The flow-control credit counters equal the credits of the requests in flight. */
module EngineCredits {
  import opened Arith
  import opened TlpSizing
  import opened Ring
  import opened ReadEngine
  import opened EngineTags

  /* Sums over the outstanding tags. */

  datatype Measure = HeaderCredits | DataCredits | ReadsOf(op: nat)

  function Weight(m: Measure, e: TagEntry): nat {
    match m
    case HeaderCredits => e.cplh
    case DataCredits => e.cpld
    case ReadsOf(op) => Bit(e.op == op)
  }

  function SlotWeight(m: Measure, slot: TagSlot): nat {
    if slot.Active() then Weight(m, slot.entry) else 0
  }

  function Total(m: Measure, table: seq<TagSlot>): nat {
    if table == [] then 0 else SlotWeight(m, table[0]) + Total(m, table[1..])
  }

  lemma {:induction false} TotalUpdate(m: Measure, table: seq<TagSlot>, t: nat, slot: TagSlot)
    requires t < |table|
    ensures Total(m, table[t := slot]) + SlotWeight(m, table[t]) == Total(m, table) + SlotWeight(m, slot)
  {
    if t == 0 {
      assert table[t := slot][1..] == table[1..];
    } else {
      assert table[t := slot][1..] == table[1..][t - 1 := slot];
      TotalUpdate(m, table[1..], t - 1, slot);
    }
  }

  lemma TotalNone(m: Measure, table: seq<TagSlot>)
    requires forall t :: 0 <= t < |table| ==> !table[t].Active()
    ensures Total(m, table) == 0
  {
  }

  lemma {:induction false} ReadsBound(op: nat, table: seq<TagSlot>)
    ensures Total(ReadsOf(op), table) <= |table|
  {
    if table != [] {
      ReadsBound(op, table[1..]);
    }
  }

  // The requests issued and not yet released: in the table, or on their way into it.
  function InFlight(m: Measure, s: State): nat {
    Total(m, s.table) + if s.start.en then Weight(m, s.start.entry) else 0
  }

  // A released tag takes its weight away; a tag start moves a weight into the table.
  lemma ReleaseInFlight(m: Measure, b: State, s: State)
    requires Alike(b, s) && s.table == b.table && (b.cpl.finish ==> b.table[b.cpl.tag].Active())
    ensures InFlight(m, Release(b, s))
         == InFlight(m, s) - if b.cpl.finish then Weight(m, b.table[b.cpl.tag].entry) else 0
  {
    hide Stored, Total;
    var t := b.cpl.tag;
    TotalUpdate(m, s.table, t, s.table[t].(b := b.table[t].a));
  }

  lemma StartInFlight(m: Measure, b: State, s: State)
    requires Alike(b, s) && TagPlaces(s) && s.start == b.start
    requires b.start.en ==> s.table[b.start.tag] == b.table[b.start.tag]
    ensures InFlight(m, StartTag(b, s)) == InFlight(m, s)
  {
    if b.start.en {
      var t := b.start.tag;
      assert Places(s, t) == 1;
      hide Shaped, Total, Places;
      TotalUpdate(m, s.table, t, s.table[t].(entry := b.start.entry, a := !b.table[t].b));
    }
  }

  lemma IssueInFlight(m: Measure, b: State, s: State, i: Inputs)
    requires Alike(b, s) && i.Valid(b.cfg) && !s.start.en
    ensures InFlight(m, Issue(b, s, i)) == InFlight(m, s)
      + var z := Size(b, i); if Fires(b, i) then Weight(m, TagEntry(RamAfter(b, z), b.req.op, z.cplh, z.cpld)) else 0
  {
    hide Shaped, Total, ReqNext, Size, RamAfter;
  }

  /* The counters. */

  ghost predicate Counted(s: State) {
    && s.cfg.Valid()
    && s.credits.cplh == InFlight(HeaderCredits, s) && s.credits.cplh < s.cfg.cplhLimit + MAX_CPLH
    && s.credits.cpld == InFlight(DataCredits, s) && s.credits.cpld < s.cfg.cpldLimit + MAX_CPLD
  }

  // What the registered comparisons say at a clock edge.
  ghost predicate Gated(s: State) {
    s.credits.cplhOk == (s.credits.cplh < s.cfg.cplhLimit) && s.credits.cpldOk == (s.credits.cpld < s.cfg.cpldLimit)
  }

  // No request takes more than 64 header and 256 data credits.
  lemma SizeCredits(b: State, i: Inputs)
    requires Sized(b) && i.Valid(b.cfg)
    ensures Size(b, i).cplh <= MAX_CPLH && Size(b, i).cpld <= MAX_CPLD
  {
    var a, count := b.req.addr, b.req.count;
    if count == 0 {
      SizeByBranch(a, 0, i.maxDw, i.rcb128);
      RemainderFits(a, 0, i.rcb128);
    } else {
      SizeIsSound(a, count, i.maxDw, i.rcb128);
    }
  }

  lemma ReleaseCredits(b: State, s: State)
    requires Alike(b, s) && Counted(s) && s.table == b.table && (b.cpl.finish ==> b.table[b.cpl.tag].Active())
    ensures var r := Release(b, s);
      Counted(r) && r.credits.cplh <= s.credits.cplh && r.credits.cpld <= s.credits.cpld
  {
    var r, e := Release(b, s), b.table[b.cpl.tag].entry;
    ReleaseInFlight(HeaderCredits, b, s);
    ReleaseInFlight(DataCredits, b, s);
    if b.cpl.finish {
      DivSmall(InFlight(HeaderCredits, r), s.cfg.cplhSpan);
      DivSmall(InFlight(DataCredits, r), s.cfg.cpldSpan);
    }
  }

  lemma CompletingCredits(b: State, s: State, i: Inputs)
    requires Alike(b, s) && i.Valid(b.cfg) && TagPlaces(s) && CplTag(b) && Counted(s)
    requires s.low == b.low && s.high == b.high && s.req == b.req && s.start == b.start && s.table == b.table
    ensures var r := Completing(b, s, i);
      Counted(r) && r.credits.cplh <= s.credits.cplh && r.credits.cpld <= s.credits.cpld
  {
    var w := WriteStatus(b, s);
    var q := Release(b, w);
    assert b.cpl.finish ==> b.table[b.cpl.tag].Active();
    hide CplTag, TagPlaces, Alike, Shaped, WriteStatus, Release, StartTag, Receive, Counted;
    TagsElsewhere(s, w);
    CountedElsewhere(s, w);
    ReleaseCredits(b, w);
    ReleaseTags(b, w);
    StartSlot(b, w);
    StartCredits(b, q);
    CountedElsewhere(StartTag(b, q), Completing(b, s, i));
  }

  lemma CountedElsewhere(s: State, r: State)
    requires Counted(s) && r.cfg == s.cfg && r.table == s.table && r.start == s.start && r.credits == s.credits
    ensures Counted(r)
  {
    hide Total;
  }

  lemma StartCredits(b: State, s: State)
    requires Alike(b, s) && TagPlaces(s) && s.start == b.start && Counted(s)
    requires b.start.en ==> s.table[b.start.tag] == b.table[b.start.tag]
    ensures Counted(StartTag(b, s))
  {
    hide TagPlaces, Shaped, Total, StartTag;
    StartInFlight(HeaderCredits, b, s);
    StartInFlight(DataCredits, b, s);
  }

  // A starting tag is not the one being released.
  lemma StartSlot(b: State, s: State)
    requires Alike(b, s) && TagPlaces(s) && CplTag(b) && s.table == b.table && s.start == b.start
    ensures b.start.en ==> Release(b, s).table[b.start.tag] == b.table[b.start.tag]
  {
    if b.start.en {
      assert Places(s, b.start.tag) == 1;
    }
  }

  // Adding a request's credits does not wrap.
  lemma IssueAdds(b: State, s: State, i: Inputs)
    requires Alike(b, s) && i.Valid(b.cfg) && Gated(b)
    requires s.credits.cplh <= b.credits.cplh && s.credits.cpld <= b.credits.cpld
    ensures var r, z := Issue(b, s, i), Size(b, i);
      if Fires(b, i) then
        && r.credits.cplh == s.credits.cplh + z.cplh < s.cfg.cplhLimit + MAX_CPLH
        && r.credits.cpld == s.credits.cpld + z.cpld < s.cfg.cpldLimit + MAX_CPLD
      else r.credits == s.credits
  {
    var z := Size(b, i);
    SizeCredits(b, i);
    if Fires(b, i) {
      DivSmall(s.credits.cplh + z.cplh, s.cfg.cplhSpan);
      DivSmall(s.credits.cpld + z.cpld, s.cfg.cpldSpan);
    }
    hide Stored, Size, ReqNext, RamAfter;
  }

  lemma IssueCredits(b: State, s: State, i: Inputs)
    requires Alike(b, s) && i.Valid(b.cfg) && Counted(s) && Gated(b) && !s.start.en
    requires s.credits.cplh <= b.credits.cplh && s.credits.cpld <= b.credits.cpld
    ensures Counted(Issue(b, s, i))
  {
    hide Size, RamAfter, Fires, Issue, Shaped, InFlight, Gated;
    IssueInFlight(HeaderCredits, b, s, i);
    IssueInFlight(DataCredits, b, s, i);
    IssueAdds(b, s, i);
  }

  lemma RequestingCredits(b: State, s: State, i: Inputs)
    requires Alike(b, s) && i.Valid(b.cfg) && Counted(s) && Gated(b) && !s.start.en
    requires s.credits.cplh <= b.credits.cplh && s.credits.cpld <= b.credits.cpld
    ensures Counted(Requesting(b, s, i))
  {
    hide FetchOp, FetchTag, Issue, Counted, Shaped;
    IssueCredits(b, s, i);
    CountedElsewhere(Issue(b, s, i), Requesting(b, s, i));
  }

  lemma CompareCredits(b: State, s: State)
    requires Alike(b, s) && Counted(s)
    ensures Counted(Compare(b, s)) && Gated(Compare(b, s))
  {
    hide Shaped, Total;
  }

  // The counters stay exact and under their limits; with the limits passed to the read
  // engine, they fit their registers.
  lemma ClockCredits(b: State, i: Inputs)
    requires TagPlaces(b) && CplTag(b) && i.Valid(b.cfg) && Counted(b) && Gated(b)
    ensures Counted(Clock(b, i)) && Gated(Clock(b, i))
  {
    var s := Reporting(b, i);
    var t := Completing(b, s, i);
    hide Reporting, Completing, Requesting, Compare, TagPlaces, CplTag, TooSoon, Shaped, Counted;
    TagsElsewhere(b, s);
    CountedElsewhere(b, s);
    CompletingTags(b, s, i);
    CompletingCredits(b, s, i);
    RequestingCredits(b, t, i);
    CompareCredits(b, Requesting(b, t, i));
  }
}
