/** A RAM of two interleaved segments of 64-byte words. */
module SegmentedRam {
  import opened Arith
  import opened Options
  import opened RamPipeline

  const WORD: nat := 64                 // bytes in a segment word
  const ROWS: nat := 2048               // words in a segment
  const SPACE: nat := 2 * WORD * ROWS   // bytes in all

  type Byte = x: nat | x < 256

  type Word = w: seq<Byte> | |w| == WORD witness seq(WORD, _ => 0)

  type Lanes = l: seq<bool> | |l| == WORD witness seq(WORD, _ => false)

  const ZERO_WORD: Word := seq(WORD, _ => 0)

  const ZERO_ROWS: seq<Word> := seq<Word>(ROWS, _ => ZERO_WORD)

  type Memory = m: seq<Word> | |m| == ROWS witness ZERO_ROWS

  // A segment's write command, with one enable for each byte of the word.
  datatype SegWrite = SegWrite(row: nat, lanes: Lanes, data: Word)

  function Masked(w: Word, lanes: Lanes, data: Word): Word {
    seq(WORD, i requires 0 <= i < WORD => if lanes[i] then data[i] else w[i])
  }

  function Written(m: Memory, c: SegWrite): Memory
    requires c.row < ROWS
  {
    m[c.row := Masked(m[c.row], c.lanes, c.data)]
  }

  /* One segment, updated in place. */

  // Does stage `k` make room? Then it takes over what the stage behind it holds.
  predicate Moves<T>(p: Pipe<T>, ready: bool, k: nat) {
    ready || exists m :: k <= m < |p| && p[m].None?
  }

  function Next<T>(p: Pipe<T>, ready: bool, k: nat): Option<T>
    requires k < |p|
  {
    if !Moves(p, ready, k) then p[k] else if k == 0 then None else p[k - 1]
  }

  lemma MovesStep<T>(p: Pipe<T>, ready: bool, k: nat)
    requires k < |p|
    ensures Moves(p, ready, k) <==> Moves(p, ready, k + 1) || p[k].None?
  {
  }

  lemma MovesAtEnd<T>(p: Pipe<T>, ready: bool)
    ensures Moves(p, ready, |p|) <==> ready
  {
  }

  lemma {:induction false} CloseUpAt<T>(p: Pipe<T>, k: nat)
    requires k < |p|
    ensures CloseUp(p)[k] == Next(p, false, k)
  {
    var n := |p| - 1;
    if p[n].Some? && k < n {
      CloseUpAt(p[..n], k);
      assert Moves(p, false, k) <==> Moves(p[..n], false, k);
    }
  }

  lemma SlideAt<T>(p: Pipe<T>, ready: bool)
    requires p != []
    ensures Slide(p, ready) == seq(|p|, k requires 0 <= k < |p| => Next(p, ready, k))
    ensures Moves(p, ready, 0) <==> Accepts(p, ready)
  {
    if !ready {
      forall k | 0 <= k < |p| ensures CloseUp(p)[k] == Next(p, ready, k) {
        CloseUpAt(p, k);
      }
    }
  }

  function Staged(valid: seq<bool>, data: seq<Word>): (p: Pipe<Word>)
    requires |valid| == |data|
  {
    seq(|valid|, k requires 0 <= k < |valid| => if valid[k] then Some(data[k]) else None)
  }

  // The stages behind `j` have moved, and stage `j` has been emptied if it moves.
  ghost predicate Sliding(was: seq<bool>, words: seq<Word>, valid: seq<bool>, data: seq<Word>,
                          ready: bool, moving: bool, j: nat)
  {
    && j < |was| == |words| == |valid| == |data|
    && (moving <==> Moves(Staged(was, words), ready, j + 1))
    && valid[..j] == was[..j] && data[..j] == words[..j]
    && data[j] == words[j] && valid[j] == (was[j] && !moving)
    && forall k :: j < k < |was| ==> Staged(valid, data)[k] == Next(Staged(was, words), ready, k)
  }

  lemma SlidingStep(was: seq<bool>, words: seq<Word>, valid: seq<bool>, data: seq<Word>,
                    ready: bool, moving: bool, j: nat)
    requires 0 < j && Sliding(was, words, valid, data, ready, moving, j)
    ensures var m := moving || !was[j];
      Sliding(was, words, if m then valid[j := was[j - 1]][j - 1 := false] else valid,
              if m then data[j := words[j - 1]] else data, ready, m, j - 1)
  {
    hide Moves;
    MovesStep(Staged(was, words), ready, j);
  }

  class Segment {
    const mem: array<Word>
    const valid: array<bool>
    const data: array<Word>

    ghost predicate Valid()
      reads this
    {
      mem.Length == ROWS && 0 < valid.Length == data.Length && mem != data
    }

    ghost function Rows(): Memory
      requires Valid()
      reads this, mem
    {
      mem[..]
    }

    ghost function Stages(): (p: Pipe<Word>)
      requires Valid()
      reads this, valid, data
      ensures p != []
    {
      Staged(valid[..], data[..])
    }

    constructor (depth: nat)
      requires 0 < depth
      ensures Valid() && fresh(mem) && fresh(valid) && fresh(data)
      ensures Rows() == ZERO_ROWS && Stages() == seq(depth, _ => None)
    {
      mem := new Word[ROWS](_ => ZERO_WORD);
      valid := new bool[depth](_ => false);
      data := new Word[depth](_ => ZERO_WORD);
      new;
      assert mem[..] == ZERO_ROWS;
    }

    // The write port: byte by byte.
    method Write(c: SegWrite)
      requires Valid() && c.row < ROWS
      modifies mem
      ensures Rows() == Written(old(Rows()), c)
    {
      ghost var was := mem[..];
      for i := 0 to WORD
        invariant |mem[c.row]| == WORD
        invariant forall r :: 0 <= r < ROWS && r != c.row ==> mem[r] == was[r]
        invariant forall k :: 0 <= k < i ==> mem[c.row][k] == Masked(was[c.row], c.lanes, c.data)[k]
        invariant forall k :: i <= k < WORD ==> mem[c.row][k] == was[c.row][k]
      {
        if c.lanes[i] {
          mem[c.row] := mem[c.row][i := c.data[i]];
        }
      }
      assert mem[c.row] == Masked(was[c.row], c.lanes, c.data);
    }

    // The pipeline moves, from the last stage to the first, on the valid bits as they were
    // before the edge. `moving` says whether the first stage makes room.
    method Shift(ready: bool) returns (moving: bool)
      requires Valid()
      modifies valid, data
      ensures Stages() == Slide(old(Stages()), ready) && moving == Accepts(old(Stages()), ready)
    {
      var was, words, depth := valid[..], data[..], valid.Length;
      ghost var p := Stages();
      SlideAt(p, ready);
      hide Slide, Accepts, Moves;
      MovesAtEnd(p, ready);
      if ready {
        valid[depth - 1] := false;
      }
      moving := ready;
      var j := depth - 1;
      while j > 0
        invariant 0 <= j < depth
        invariant Sliding(was, words, valid[..], data[..], ready, moving, j)
      {
        SlidingStep(was, words, valid[..], data[..], ready, moving, j);
        moving := moving || !was[j];
        if moving {
          valid[j], data[j] := was[j - 1], words[j - 1];
          valid[j - 1] := false;
        }
        j := j - 1;
      }
      MovesStep(p, ready, 0);
      moving := moving || !was[0];
    }

    method CommandReady(ready: bool) returns (r: bool)
      requires Valid()
      ensures r == Accepts(Stages(), ready)
    {
      ghost var p := Stages();
      r := ready;
      for k := 0 to valid.Length
        invariant r <==> ready || exists m :: 0 <= m < k && !valid[m]
      {
        r := r || !valid[k];
      }
      assert forall m :: 0 <= m < |p| ==> p[m].None? == !valid[m];
    }

    method Response() returns (w: Option<Word>)
      requires Valid()
      ensures w == Stages()[|Stages()| - 1]
    {
      var last := valid.Length - 1;
      w := if valid[last] then Some(data[last]) else None;
    }

    // The read port: the pipeline moves, then a new read may enter.
    method Read(ready: bool, row: Option<nat>)
      requires Valid() && (row.Some? ==> row.value < ROWS)
      modifies valid, data
      ensures Stages() == Clock(old(Stages()), ready, if row.Some? then Some(Rows()[row.value]) else None)
    {
      hide Slide, Accepts;
      var free := Shift(ready);
      if row.Some? && free {
        valid[0], data[0] := true, mem[row.value];
      }
    }
  }
}
