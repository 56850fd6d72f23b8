/** Reads end because their completions are taken: progress from what arrives on the link. */
module EngineAnswers {
  import opened Options
  import opened TlpSizing
  import opened TlpStream
  import opened Ring
  import opened ReadEngine
  import opened EngineTags
  import opened EngineCredits
  import opened EngineStatus
  import opened EngineOps
  import opened EngineStream
  import opened EngineData
  import opened EngineFates
  import opened EngineAccept
  import opened EngineRuns
  import opened EngineProgress
  import EngineRows
  import C = CompletionPath

  /* Completers that keep their word, along a run without end. */

  ghost function LogAt(e: Env, start: seq<Progress>, n: nat): (l: seq<Progress>)
    requires e.Valid() && |start| == e.cfg.tags
    ensures |l| == e.cfg.tags
  {
    if n == 0 then start
    else
      hide Clock, Stored, Follow, Env.At;
      NextAt(e, n - 1);
      Follow(e.At(n - 1), e.ins(n - 1), LogAt(e, start, n - 1))
  }

  ghost predicate KeepsItsWord(e: Env, start: seq<Progress>, n: nat)
    requires e.Valid() && |start| == e.cfg.tags
  {
    NextAt(e, n);
    Honest(e.At(n), e.ins(n), LogAt(e, start, n))
  }

  // A word for the read arrives: the header of a completion of it, or the next word behind one.
  predicate Answers(b: State, i: Inputs, t: nat)
    requires Sized(b)
  {
    || (Arrives(b, i) && b.cpl.state == Write && b.cpl.tag == t)
    || (HeaderArrives(b, i) && i.beat.value.header.tag % b.cfg.tags == t && Proper(b.table, i.beat.value))
  }

  ghost predicate AnsweredAgain(e: Env, n: nat, t: nat)
    requires e.Valid()
  {
    exists m: nat :: n <= m && (e.Ends(m, t) || Answers(e.At(m), e.ins(m), t))
  }

  // As long as a read has not ended, words for it arrive again and again.
  ghost predicate ReadsAnswered(e: Env)
    requires e.Valid()
  {
    forall n: nat, t: nat | t < e.cfg.tags && Outstanding(e.At(n), t) :: AnsweredAgain(e, n, t)
  }

  // Link, RAM and completers do their part, the last if the engine is ready again and again.
  ghost predicate Serves(e: Env, start: seq<Progress>)
    requires e.Valid() && |start| == e.cfg.tags
  {
    && (forall n :: e.LinkAgain(n)) && (forall n :: e.WritesAgain(n)) && (forall n :: e.RoomAgain(n))
    && (forall n :: KeepsItsWord(e, start, n))
    && ((forall n :: e.ReadyAgain(n)) ==> ReadsAnswered(e))
  }

  lemma {:induction false} LogIsOk(e: Env, start: seq<Progress>, n: nat)
    requires e.Valid() && e.Conforms() && |start| == e.cfg.tags && forall k :: KeepsItsWord(e, start, k)
    ensures DataOk(e.At(n), LogAt(e, start, n))
  {
    hide Clock, TagPlaces, CplTag, StatusesOk, OpsOk, Offered, Counted, Gated, StreamsOk, TooSoon, Stored, Env.At;
    hide Env.Conforms, DataOk, Follow, Honest, Reset, Env.Valid;
    NextAt(e, 0);
    if n == 0 {
      assert e.cfg.Valid() && Shaped(Reset(e.cfg)) by { EnvShape(e); }
      ResetData(e.cfg, start);
    } else {
      LogIsOk(e, start, n - 1);
      NextAt(e, n - 1);
      RoomAt(e, n - 1);
      assert KeepsItsWord(e, start, n - 1);
      ClockData(e.At(n - 1), e.ins(n - 1), LogAt(e, start, n - 1));
    }
  }

  lemma EnvShape(e: Env)
    requires e.Valid()
    ensures e.cfg.Valid() && Shaped(Reset(e.cfg))
  {
  }

  /* One edge. */

  lemma AnsweredIsActive(b: State, i: Inputs, t: nat)
    requires TagPlaces(b) && CplTag(b) && t < b.cfg.tags && Outstanding(b, t) && Answers(b, i, t)
    ensures b.table[t].Active() && !Ending(b, t)
  {
    assert Places(b, t) == 1;
    hide Stored, Occurs, Ring.Contents;
  }

  // A word for an outstanding read ends it, or leaves less of it to come.
  lemma AnswerCounts(b: State, i: Inputs, log: seq<Progress>, t: nat)
    requires TagPlaces(b) && CplTag(b) && i.Valid(b.cfg) && !TooSoon(b, i) && DataOk(b, log) && Honest(b, i, log)
    requires t < b.cfg.tags && Outstanding(b, t) && Answers(b, i, t)
    ensures var r := Clock(b, i);
      (r.cpl.finish && r.cpl.tag == t) || (Outstanding(r, t) && Follow(b, i, log)[t].left < log[t].left)
  {
    hide Clock, TagPlaces, CplTag, Stored, Reporting, WriteStatus, C.FirstCycle, Ring.Used, Ring.Valid, TooSoon;
    hide Outstanding, Follow, ReceivedNext, DataOk, Meaning, InPlace, Fires;
    assert Shaped(b) && |log| == b.cfg.tags by { DataShaped(b, log); }
    StatusRegisters(b, i);
    OutstandingNext(b, i, t);
    AnsweredIsActive(b, i, t);
    if b.cpl.state == Write {
      WordLeaves(b, i, log);
      ReceivedProgress(b, i, log);
    } else {
      HeaderTaken(b, i);
      if Meaning(b.table, i.beat.value) == Data {
        DataHeader(b, i);
        ReceivedProgress(b, i, log);
      } else {
        MeansFailure(b.table, i.beat.value);
      }
    }
  }

  lemma DataShaped(b: State, log: seq<Progress>)
    requires DataOk(b, log)
    ensures Shaped(b) && |log| == b.cfg.tags
  {
  }

  lemma MeansFailure(table: seq<TagSlot>, beat: Beat)
    requires |table| > 0 && Proper(table, beat) && Meaning(table, beat) != Data
    ensures Meaning(table, beat).Failure?
  {
  }

  lemma WordLeaves(b: State, i: Inputs, log: seq<Progress>)
    requires DataOk(b, log) && i.Valid(b.cfg) && Arrives(b, i) && b.cpl.state == Write
    ensures TakesData(b, i) && DataTag(b, i) == b.cpl.tag && DataCycle(b, i).bytes > 0 && log[b.cpl.tag].left > 0
  {
    hide Stored, C.FirstCycle, InPlace;
  }

  // Any other edge leaves it as it is, or takes some of it too.
  lemma OtherEdges(b: State, i: Inputs, log: seq<Progress>, t: nat)
    requires Shaped(b) && TagPlaces(b) && CplTag(b) && i.Valid(b.cfg) && |log| == b.cfg.tags
    requires t < b.cfg.tags && Outstanding(b, t)
    ensures var r := Clock(b, i);
      (r.cpl.finish && r.cpl.tag == t) || (Outstanding(r, t) && Follow(b, i, log)[t].left <= log[t].left)
  {
    hide Clock, TagPlaces, CplTag, Stored, Reporting, WriteStatus, Ring.Used, Outstanding, ReceivedNext;
    hide TakesData, DataTag, DataCycle, Fires, RequestFor, Size;
    StatusRegisters(b, i);
    OutstandingNext(b, i, t);
    FiresNotOutstanding(b, i, t);
  }

  /* Reads end. */

  lemma {:induction false} WalkOut(e: Env, start: seq<Progress>, n: nat, m: nat, t: nat) returns (k: nat)
    requires e.Valid() && e.Conforms() && |start| == e.cfg.tags
    requires t < e.cfg.tags && Outstanding(e.At(n), t) && n <= m
    ensures n <= k <= m
    ensures e.Ends(k, t)
         || (k == m && Outstanding(e.At(m), t) && LogAt(e, start, m)[t].left <= LogAt(e, start, n)[t].left)
    decreases m - n
  {
    hide Clock, TagPlaces, CplTag, StatusesOk, OpsOk, Offered, Counted, Gated, StreamsOk, TooSoon, Stored, Env.At;
    hide Env.Valid, Env.Conforms, Outstanding, Follow;
    k := n;
    if n < m {
      NextAt(e, n);
      RoomAt(e, n);
      OtherEdges(e.At(n), e.ins(n), LogAt(e, start, n), t);
      if e.Ends(n + 1, t) {
        k := n + 1;
      } else {
        k := WalkOut(e, start, n + 1, m, t);
      }
    }
  }

  lemma AnswerAt(e: Env, start: seq<Progress>, n: nat, t: nat)
    requires e.Valid() && e.Conforms() && |start| == e.cfg.tags && (forall k :: KeepsItsWord(e, start, k))
    requires t < e.cfg.tags && Outstanding(e.At(n), t) && Answers(e.At(n), e.ins(n), t)
    ensures e.Ends(n + 1, t)
         || (Outstanding(e.At(n + 1), t) && LogAt(e, start, n + 1)[t].left < LogAt(e, start, n)[t].left)
  {
    hide Clock, TagPlaces, CplTag, StatusesOk, OpsOk, Offered, Counted, Gated, StreamsOk, TooSoon, Stored, Env.At;
    hide Env.Valid, Env.Conforms, Outstanding, Follow, Answers, Honest, DataOk;
    NextAt(e, n);
    RoomAt(e, n);
    LogIsOk(e, start, n);
    assert KeepsItsWord(e, start, n);
    AnswerCounts(e.At(n), e.ins(n), LogAt(e, start, n), t);
  }

  lemma {:induction false} AnsweredEnds(e: Env, start: seq<Progress>, n: nat, t: nat) returns (m: nat)
    requires e.Valid() && e.Conforms() && |start| == e.cfg.tags && (forall k :: KeepsItsWord(e, start, k))
    requires ReadsAnswered(e) && t < e.cfg.tags && Outstanding(e.At(n), t)
    ensures n <= m && e.Ends(m, t)
    decreases LogAt(e, start, n)[t].left
  {
    hide Stored, Env.At, Env.Valid, Env.Conforms, Env.Ends, Outstanding, Answers, KeepsItsWord, LogAt;
    assert AnsweredAgain(e, n, t);
    var some: nat :| n <= some && (e.Ends(some, t) || Answers(e.At(some), e.ins(some), t));
    m := WalkOut(e, start, n, some, t);
    if !e.Ends(m, t) {
      AnswerAt(e, start, some, t);
      m := some + 1;
      if !e.Ends(m, t) {
        m := AnsweredEnds(e, start, m, t);
      }
    }
  }

  lemma ServedIsFair(e: Env, start: seq<Progress>)
    requires e.Valid() && e.Conforms() && |start| == e.cfg.tags && Serves(e, start)
    ensures e.Fair()
  {
    hide Env.Valid, Env.Conforms, Env.At, KeepsItsWord, ReadsAnswered, Outstanding, LogAt, Stored, Env.Ends;
    hide Env.LinkAgain, Env.WritesAgain, Env.RoomAgain, Env.ReadyAgain;
    if ReadsAnswered(e) {
      forall n: nat, t: nat | t < e.cfg.tags && Outstanding(e.At(n), t) ensures e.EndsAgain(n, t) {
        var m := AnsweredEnds(e, start, n, t);
      }
    }
  }

  // Every accepted descriptor has its own status raised, if words for its reads arrive.
  lemma EveryDescriptorIsServed(e: Env, start: seq<Progress>, n: nat) returns (m: nat)
    requires e.Valid() && e.Conforms() && |start| == e.cfg.tags && Serves(e, start) && Accepts(e.At(n), e.ins(n))
    ensures var op := e.At(n).req.op; var k := |e.At(n).history[op].accepted|; var raised := e.At(m).history[op].raised;
      n < m && k < |raised| && raised[k].tag == e.ins(n).desc.value.tag
  {
    hide Env.Valid, Env.Conforms, Env.At, Env.Fair, Serves, Stored;
    ServedIsFair(e, start);
    m := EveryDescriptorFinishes(e, n);
  }

  // Such surroundings exist, as before.
  lemma QuietServes(e: Env, start: seq<Progress>)
    requires e.Valid() && |start| == e.cfg.tags && forall k :: e.ins(k) == QUIET_CYCLE
    ensures e.Conforms() && Serves(e, start)
  {
    hide Env.Valid, Env.Conforms, Env.At, Outstanding, LogAt, Stored, Env.Ends, Clock;
    hide Env.LinkAgain, Env.WritesAgain, Env.RoomAgain, Env.ReadyAgain, Answers, Follow, Env.EndsAgain;
    QuietIsFair(e);
    forall n: nat ensures KeepsItsWord(e, start, n) {
      NextAt(e, n);
    }
    if forall n :: e.ReadyAgain(n) {
      forall n: nat, t: nat | t < e.cfg.tags && Outstanding(e.At(n), t) ensures AnsweredAgain(e, n, t) {
        EndIsAnswer(e, n, t);
      }
    }
  }

  lemma EndIsAnswer(e: Env, n: nat, t: nat)
    requires e.Valid() && e.EndsAgain(n, t)
    ensures AnsweredAgain(e, n, t)
  {
    hide Env.Valid, Env.At, Env.Ends, Stored, Answers;
    var m: nat :| n <= m && e.Ends(m, t);
  }
}
