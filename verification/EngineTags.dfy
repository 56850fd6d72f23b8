/** Every PCIe tag is in exactly one place. */
module EngineTags {
  import opened Ring
  import opened ReadEngine
  import opened TlpSizing
  import opened TlpStream
  import C = CompletionPath

  function Bit(c: bool): nat {
    if c then 1 else 0
  }

  /* Where a tag can be: either FIFO, the held request register, the table write on its way,
     or outstanding in the table. */

  ghost function Places(s: State, t: nat): nat
    requires Shaped(s) && t < s.cfg.tags
  {
    Occurs(s.low.Contents(), t) + Occurs(s.high.Contents(), t)
    + Bit(s.req.tagValid && s.req.tag == t) + Bit(s.start.en && s.start.tag == t) + Bit(s.table[t].Active())
  }

  ghost predicate TagPlaces(s: State) {
    && Shaped(s)
    && (forall t :: 0 <= t < s.cfg.tags ==> Places(s, t) == 1)
    && (forall t :: t in s.low.Contents() ==> t < LOW_TAGS)
    && (forall t :: t in s.high.Contents() ==> LOW_TAGS <= t < s.cfg.tags)
  }

  // Only an outstanding tag is received into or released.
  ghost predicate CplTag(s: State)
    requires Shaped(s)
  {
    && (s.cpl.finish || s.cpl.state == Write ==> s.table[s.cpl.tag].Active() && s.table[s.cpl.tag].entry.op == s.cpl.op)
    && !(s.cpl.finish && s.cpl.state == Write)
  }

  // A tag whose last completion has been received, and whose release is recorded at this edge.
  predicate Ending(s: State, t: nat) {
    s.cpl.finish && s.cpl.tag == t
  }

  /* The processes that move tags. */

  lemma LowHasRoom(s: State, t: nat)
    requires TagPlaces(s) && t < LOW_TAGS && s.table[t].Active()
    ensures s.low.Used() < LOW_TAGS
  {
    var c := s.low.Contents();
    forall x | x in c ensures 0 <= x < LOW_TAGS && x != t && Occurs(c, x) == 1 {
      OccursIn(c, x);
      assert Places(s, x) == 1 && Places(s, t) == 1;
    }
    Pigeonhole(c, 0, LOW_TAGS, t);
  }

  lemma HighHasRoom(s: State, t: nat)
    requires TagPlaces(s) && LOW_TAGS <= t < s.cfg.tags && s.table[t].Active()
    ensures s.high.Used() < s.cfg.highRing
  {
    var c := s.high.Contents();
    forall x | x in c ensures LOW_TAGS <= x < s.cfg.tags && x != t && Occurs(c, x) == 1 {
      OccursIn(c, x);
      assert Places(s, x) == 1 && Places(s, t) == 1;
    }
    Pigeonhole(c, LOW_TAGS, s.cfg.tags, t);
  }

  // What a tag FIFO and the table look like once a tag has been handed back.
  lemma ReleaseEffect(b: State, s: State)
    requires Alike(b, s) && TagPlaces(s) && s.table == b.table
    requires b.cpl.finish && b.table[b.cpl.tag].Active()
    ensures var t, r := b.cpl.tag, Release(b, s);
      && r.table == s.table[t := s.table[t].(b := s.table[t].a)]
      && r.low.Contents() == (if t < LOW_TAGS then s.low.Contents() + [t] else s.low.Contents())
      && r.high.Contents() == (if t < LOW_TAGS then s.high.Contents() else s.high.Contents() + [t])
  {
    var t := b.cpl.tag;
    if t < LOW_TAGS {
      LowHasRoom(s, t);
      s.low.PushContents(t);
    } else {
      HighHasRoom(s, t);
      s.high.PushContents(t);
    }
  }

  // A tag appended to its FIFO as it stops being outstanding.
  lemma ReleasedPlaces(s: State, r: State, t: nat)
    requires TagPlaces(s) && Shaped(r) && t < s.cfg.tags && s.table[t].Active()
    requires r.cfg == s.cfg && r.req == s.req && r.start == s.start
    requires r.table == s.table[t := s.table[t].(b := s.table[t].a)]
    requires if t < LOW_TAGS then
               r.low.Contents() == s.low.Contents() + [t] && r.high.Contents() == s.high.Contents()
             else r.low.Contents() == s.low.Contents() && r.high.Contents() == s.high.Contents() + [t]
    ensures TagPlaces(r)
  {
    hide Stored, Occurs, Ring.Contents;
    forall u: nat | u < s.cfg.tags ensures Places(r, u) == 1 {
      assert Places(s, u) == 1;
      OccursAppend(if t < LOW_TAGS then s.low.Contents() else s.high.Contents(), t, u);
    }
  }

  lemma ReleaseTags(b: State, s: State)
    requires Alike(b, s) && TagPlaces(s) && s.table == b.table
    requires b.cpl.finish ==> b.table[b.cpl.tag].Active()
    ensures TagPlaces(Release(b, s))
  {
    if b.cpl.finish {
      ReleaseEffect(b, s);
      assert b.cpl.tag < s.cfg.tags;
      hide Release, Shaped, TagPlaces, Ring.Contents;
      ReleasedPlaces(s, Release(b, s), b.cpl.tag);
    }
  }

  lemma StartTags(b: State, s: State)
    requires Alike(b, s) && TagPlaces(s) && s.start == b.start
    requires b.start.en ==> s.table[b.start.tag] == b.table[b.start.tag]
    ensures TagPlaces(StartTag(b, s))
  {
    if b.start.en {
      var r := StartTag(b, s);
      assert Places(s, b.start.tag) == 1;
      forall u | 0 <= u < s.cfg.tags ensures Places(r, u) == 1 {
        assert Places(s, u) == 1;
      }
    }
  }

  // A request that leaves takes the held tag with it; otherwise the tag stays.
  lemma HeldTag(b: State, i: Inputs)
    requires Sized(b) && i.Valid(b.cfg)
    ensures ReqNext(b, i).tag == b.req.tag && ReqNext(b, i).tagValid == (b.req.tagValid && !Fires(b, i))
  {
    hide RequestFor, Size;
  }

  lemma IssueTags(b: State, s: State, i: Inputs)
    requires Alike(b, s) && i.Valid(b.cfg) && TagPlaces(s) && s.req == b.req && !s.start.en
    ensures TagPlaces(Issue(b, s, i))
  {
    HeldTag(b, i);
    hide ReqNext, Size, Stored;
    var r := Issue(b, s, i);
    forall u: nat | u < s.cfg.tags ensures Places(r, u) == 1 {
      assert Places(s, u) == 1;
    }
  }

  // The oldest free tag of the first FIFO that has one becomes the held tag.
  lemma FetchLow(s: State, r: State)
    requires TagPlaces(s) && Shaped(r) && !s.req.tagValid && !s.low.Empty()
    requires r == s.(req := s.req.(tag := s.low.Head(), tagValid := true), low := s.low.Pop())
    ensures TagPlaces(r)
  {
    var c := s.low.Contents();
    s.low.PopContents();
    assert r.low.Contents() == c[1..] && r.req.tag == c[0];
    assert forall t :: t in c[1..] ==> t in c;
    hide Shaped, Ring.Contents, Ring.Head, Ring.Pop, Occurs;
    forall u: nat | u < s.cfg.tags ensures Places(r, u) == 1 {
      assert Places(s, u) == 1;
      OccursCons(c, u);
    }
  }

  lemma FetchHigh(s: State, r: State)
    requires TagPlaces(s) && Shaped(r) && !s.req.tagValid && !s.high.Empty()
    requires r == s.(req := s.req.(tag := s.high.Head(), tagValid := true), high := s.high.Pop())
    ensures TagPlaces(r)
  {
    var c := s.high.Contents();
    s.high.PopContents();
    assert r.high.Contents() == c[1..] && r.req.tag == c[0];
    assert forall t :: t in c[1..] ==> t in c;
    hide Shaped, Ring.Contents, Ring.Head, Ring.Pop, Occurs;
    forall u: nat | u < s.cfg.tags ensures Places(r, u) == 1 {
      assert Places(s, u) == 1;
      OccursCons(c, u);
    }
  }

  lemma FetchTags(b: State, s: State, i: Inputs)
    requires Alike(b, s) && TagPlaces(s)
    requires (s.low.Empty() ==> b.low.Empty()) && (s.high.Empty() ==> b.high.Empty())
    ensures TagPlaces(FetchTag(b, s, i))
  {
    if !s.req.tagValid {
      if !b.low.Empty() {
        FetchLow(s, FetchTag(b, s, i));
      } else if i.extTags && !b.high.Empty() {
        FetchHigh(s, FetchTag(b, s, i));
      }
    }
  }

  /* The processes that receive. */

  // A header that would reuse a tag in the cycle after the tag's last completion was received,
  // when its table entry still reads as outstanding.
  predicate TooSoon(b: State, i: Inputs)
    requires Sized(b) && i.Valid(b.cfg)
  {
    && b.cpl.finish && TakesHeader(b, i)
    && var beat := i.beat.value; var h := beat.header;
       && h.tag % b.cfg.tags == b.cpl.tag
       && !Unexpected(h, b.table[b.cpl.tag]) && !Malformed(h, beat.error)
       && (Terminates(h, beat.error)
           || var c := C.FirstCycle(b.cfg.geo, b.table[b.cpl.tag].entry.ramEnd, h.span); c.last ==> c.final)
  }

  // The completion registers name an outstanding tag after the edge exactly when no header
  // came too soon, whatever else the link delivers.
  lemma ReceiveCplTag(b: State, s: State, i: Inputs)
    requires Alike(b, s) && i.Valid(b.cfg) && CplTag(b)
    requires b.cpl.finish ==> !s.table[b.cpl.tag].Active()
    requires forall t :: 0 <= t < b.cfg.tags && b.table[t].Active() && !Ending(b, t) ==> s.table[t] == b.table[t]
    ensures CplTag(Receive(b, s, i)) <==> !TooSoon(b, i)
  {
    hide Stored;
    if TakesHeader(b, i) {
      var t := i.beat.value.header.tag % b.cfg.tags;
      assert 0 <= t < b.cfg.tags;
    }
  }

  /* One clock edge. */

  lemma TagsElsewhere(s: State, r: State)
    requires TagPlaces(s) && Shaped(r)
    requires r.cfg == s.cfg && r.low == s.low && r.high == s.high && r.req == s.req && r.start == s.start
        && r.table == s.table
    ensures TagPlaces(r)
  {
    hide Shaped, Ring.Contents, Occurs;
    forall u: nat | u < s.cfg.tags ensures Places(r, u) == 1 {
      assert Places(s, u) == 1;
    }
  }

  // What the processes that act on completions have made of the tags a request may take.
  ghost predicate Settled(b: State, s: State)
    requires Alike(b, s)
  {
    && (b.cpl.finish ==> !s.table[b.cpl.tag].Active())
    && (forall t :: 0 <= t < b.cfg.tags && b.table[t].Active() && !Ending(b, t) ==> s.table[t] == b.table[t])
    && (s.low.Empty() ==> b.low.Empty()) && (s.high.Empty() ==> b.high.Empty())
    && !s.start.en
  }

  lemma StartIsNotEnding(b: State, s: State)
    requires Alike(b, s) && TagPlaces(s) && CplTag(b) && s.start == b.start && s.table == b.table
    ensures b.start.en ==> !b.table[b.start.tag].Active() && !Ending(b, b.start.tag)
  {
    assert b.start.en ==> Places(s, b.start.tag) == 1;
    hide Stored, Occurs, Ring.Contents;
  }

  lemma ReleaseSettles(b: State, s: State)
    requires Alike(b, s) && TagPlaces(s) && CplTag(b)
    requires s.low == b.low && s.high == b.high && s.start == b.start && s.table == b.table
    ensures Settled(b, StartTag(b, Release(b, s)))
  {
    StartIsNotEnding(b, s);
    if b.cpl.finish {
      ReleaseEffect(b, s);
    }
    hide Stored, TagPlaces, Occurs, Places;
  }

  lemma ReleaseAndStart(b: State, s: State)
    requires Alike(b, s) && TagPlaces(s) && CplTag(b)
    requires s.low == b.low && s.high == b.high && s.req == b.req && s.start == b.start && s.table == b.table
    ensures var r := StartTag(b, Release(b, s)); TagPlaces(r) && Settled(b, r)
  {
    StartIsNotEnding(b, s);
    ReleaseSettles(b, s);
    assert b.start.en ==> Release(b, s).table[b.start.tag] == b.table[b.start.tag];
    hide Stored, TagPlaces, StartTag, Settled, Ring.Contents;
    ReleaseTags(b, s);
    StartTags(b, Release(b, s));
  }

  lemma CompletingTags(b: State, s: State, i: Inputs)
    requires Alike(b, s) && i.Valid(b.cfg) && TagPlaces(s) && CplTag(b)
    requires s.low == b.low && s.high == b.high && s.req == b.req && s.start == b.start && s.table == b.table
    ensures var r := Completing(b, s, i);
      && TagPlaces(r) && Settled(b, r) && (CplTag(r) <==> !TooSoon(b, i))
  {
    var w := WriteStatus(b, s);
    var t := StartTag(b, Release(b, w));
    hide WriteStatus, Release, StartTag, Receive, TooSoon, Places, Shaped;
    TagsElsewhere(s, w);
    ReleaseAndStart(b, w);
    ReceiveCplTag(b, t, i);
    TagsElsewhere(t, Receive(b, t, i));
  }

  lemma RequestingTags(b: State, s: State, i: Inputs)
    requires Alike(b, s) && i.Valid(b.cfg) && TagPlaces(s) && Settled(b, s) && s.req == b.req
    ensures TagPlaces(Requesting(b, s, i))
  {
    var q := Issue(b, s, i);
    var p := FetchOp(b, q);
    IssueTags(b, s, i);
    hide Issue, FetchTag, TooSoon, Shaped;
    FetchOpTags(b, q);
    FetchTags(b, p, i);
  }

  lemma FetchOpTags(b: State, s: State)
    requires Alike(b, s) && TagPlaces(s)
    ensures TagPlaces(FetchOp(b, s))
  {
    var r := FetchOp(b, s);
    hide Shaped, Ring.Contents, Occurs;
    forall u: nat | u < s.cfg.tags ensures Places(r, u) == 1 {
      assert Places(s, u) == 1;
    }
  }

  // Whatever arrives, every tag stays in one place; and the completion registers name an
  // outstanding tag exactly when no header came too soon.
  lemma ClockTags(b: State, i: Inputs)
    requires TagPlaces(b) && CplTag(b) && i.Valid(b.cfg)
    ensures TagPlaces(Clock(b, i))
    ensures CplTag(Clock(b, i)) <==> !TooSoon(b, i)
  {
    var s := Reporting(b, i);
    var t := Completing(b, s, i);
    var u := Requesting(b, t, i);
    hide Reporting, Completing, Requesting, TooSoon, Places, Shaped, Settled;
    TagsElsewhere(b, s);
    CompletingTags(b, s, i);
    RequestingTags(b, t, i);
    TagsElsewhere(u, Clock(b, i));
  }

  /* Which tag is taken next. */

  // Handing tags back leaves the oldest free one in front.
  lemma FreeTagsBefore(b: State, i: Inputs)
    requires TagPlaces(b) && CplTag(b) && i.Valid(b.cfg)
    ensures var t := Completing(b, Reporting(b, i), i);
      && t.req == b.req
      && b.low.Contents() <= t.low.Contents() && b.high.Contents() <= t.high.Contents()
  {
    var w := WriteStatus(b, Reporting(b, i));
    hide Stored, WriteStatus, Reporting, Places, Ring.Contents, StartTag, Receive;
    TagsElsewhere(b, w);
    if b.cpl.finish {
      ReleaseEffect(b, w);
    }
  }

  lemma FetchedTag(b: State, s: State, i: Inputs)
    requires Alike(b, s) && b.low.Contents() <= s.low.Contents() && b.high.Contents() <= s.high.Contents()
    ensures var r, low, high := FetchTag(b, s, i).req, b.low.Contents(), b.high.Contents();
      if s.req.tagValid then r.tagValid && r.tag == s.req.tag
      else if low != [] then r.tagValid && r.tag == low[0]
      else if i.extTags && high != [] then r.tagValid && r.tag == high[0]
      else !r.tagValid
  {
    hide Stored, Ring.Contents, Ring.Pop, Ring.Head, Ring.Empty;
    FrontOf(b.low, s.low);
    FrontOf(b.high, s.high);
  }

  lemma RequestedTag(b: State, t: State, i: Inputs)
    requires Alike(b, t) && i.Valid(b.cfg) && t.req == b.req
    ensures var q := FetchOp(b, Issue(b, t, i));
      && q.low == t.low && q.high == t.high
      && q.req.tag == b.req.tag && q.req.tagValid == (b.req.tagValid && !Fires(b, i))
  {
    hide Stored, ReqNext, Ring.Contents, Size, RequestFor;
    HeldTag(b, i);
  }

  lemma FreeTagRanges(s: State)
    requires TagPlaces(s)
    ensures var low, high := s.low.Contents(), s.high.Contents();
      Shaped(s) && (low != [] ==> low[0] < 32) && (high != [] ==> high[0] >= 32)
  {
    var low, high := s.low.Contents(), s.high.Contents();
    assert (low != [] ==> low[0] in low) && (high != [] ==> high[0] in high);
  }

  // A tag that is held stays until a request takes it. Then the oldest free one below 32 is taken,
  // and only without any of those, and with extended tags switched on, the oldest of the others.
  lemma NextTag(b: State, i: Inputs)
    requires TagPlaces(b) && CplTag(b) && i.Valid(b.cfg)
    ensures var r, low, high := Clock(b, i).req, b.low.Contents(), b.high.Contents();
      if b.req.tagValid && !Fires(b, i) then r.tagValid && r.tag == b.req.tag
      else if low != [] then r.tagValid && r.tag == low[0] < 32
      else if i.extTags && high != [] then r.tagValid && r.tag == high[0] >= 32
      else !r.tagValid
  {
    hide Stored, Reporting, Completing, Issue, FetchOp, FetchTag, Ring.Contents, Ring.Valid, TagPlaces, CplTag, Fires;
    FreeTagRanges(b);
    var t := Completing(b, Reporting(b, i), i);
    FreeTagsBefore(b, i);
    RequestedTag(b, t, i);
    FetchedTag(b, FetchOp(b, Issue(b, t, i)), i);
  }

  lemma FrontOf(q: Ring<nat>, r: Ring<nat>)
    requires q.Valid() && r.Valid() && q.Contents() <= r.Contents()
    ensures q.Empty() <==> q.Contents() == []
    ensures !q.Empty() ==> q.Contents()[0] == r.Contents()[0] && r.Contents()[0] == r.Head()
  {
    if !r.Empty() {
      r.PopContents();
    }
  }
}
