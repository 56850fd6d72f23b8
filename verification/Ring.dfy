/** A FIFO memory with free-running pointers of one bit more than an index, and nothing to
    stop a push into a full one. */
module Ring {

  datatype Ring<T> = Ring(mem: seq<T>, wr: nat, rd: nat) {

    // Pointers run over twice the capacity. Nothing here says that the ring is not overfull.
    predicate Valid() {
      mem != [] && wr < 2 * |mem| && rd < 2 * |mem|
    }

    function Used(): int {
      if wr >= rd then wr - rd else wr + 2 * |mem| - rd
    }

    predicate Empty() {
      wr == rd
    }

    // The index bits of a pointer.
    function Slot(ptr: nat): int {
      if ptr < |mem| then ptr else if ptr < 2 * |mem| then ptr - |mem|
      else if ptr < 3 * |mem| then ptr - 2 * |mem| else ptr - 3 * |mem|
    }

    function Advance(ptr: nat): nat {
      if ptr + 1 == 2 * |mem| then 0 else ptr + 1
    }

    function Push(x: T): (r: Ring<T>)
      requires Valid()
      ensures r.Valid() && |r.mem| == |mem|
    {
      Ring(mem[Slot(wr) := x], Advance(wr), rd)
    }

    function Head(): T
      requires Valid()
    {
      mem[Slot(rd)]
    }

    function Pop(): (r: Ring<T>)
      requires Valid()
      ensures r.Valid() && r.mem == mem
    {
      Ring(mem, wr, Advance(rd))
    }

    // What is stored, oldest first.
    function Contents(): (c: seq<T>)
      requires Valid()
      ensures |c| == Used()
    {
      seq(Used(), i requires 0 <= i < Used() => mem[Slot(rd + i)])
    }

    // A push into a ring with room appends.
    lemma PushContents(x: T)
      requires Valid() && Used() < |mem|
      ensures Push(x).Contents() == Contents() + [x]
    {
      var p := Push(x);
      assert p.Used() == Used() + 1;
      forall i | 0 <= i < Used() ensures p.Contents()[i] == Contents()[i] {
        assert p.Contents()[i] == p.mem[Slot(rd + i)];
        assert Slot(rd + i) != Slot(wr);
      }
      var k := Used();
      assert p.Slot(p.rd + k) == Slot(wr);
      assert p.Contents()[k] == p.mem[p.Slot(p.rd + k)];
    }

    lemma PopContents()
      requires Valid() && !Empty()
      ensures Contents() != [] && Head() == Contents()[0] && Pop().Contents() == Contents()[1..]
    {
      var p := Pop();
      assert p.Used() == Used() - 1;
      forall i | 0 <= i < p.Used() ensures p.Contents()[i] == Contents()[i + 1] {
        assert p.Slot(p.rd + i) == Slot(rd + i + 1);
      }
    }
  }

  // A push and a pop at the same edge.
  function Turned<T>(r: Ring<T>, push: seq<T>, pop: bool): (t: Ring<T>)
    requires r.Valid() && |push| <= 1
    ensures t.Valid() && |t.mem| == |r.mem|
  {
    var q := if push == [] then r else r.Push(push[0]);
    if pop then q.Pop() else q
  }

  lemma TurnedContents<T>(r: Ring<T>, push: seq<T>, pop: bool)
    requires r.Valid() && |push| <= 1 && (push != [] ==> r.Used() < |r.mem|) && (pop ==> !r.Empty())
    ensures var c := r.Contents();
      && (pop ==> c != [] && r.Head() == c[0])
      && Turned(r, push, pop).Contents() == (if pop then c[1..] else c) + push
  {
    var q, c := if push == [] then r else r.Push(push[0]), r.Contents();
    if push != [] {
      r.PushContents(push[0]);
      assert push == [push[0]];
    } else {
      assert c + push == c;
    }
    if pop {
      r.PopContents();
      hide Ring.Contents, Ring.Push, Ring.Pop, Ring.Head;
      q.PopContents();
      assert (c + push)[1..] == c[1..] + push;
    }
  }

  // A ring holding the given elements, in a memory with at least that many slots.
  function Filled<T>(c: seq<T>, capacity: nat, blank: T): (r: Ring<T>)
    requires |c| <= capacity && 0 < capacity
    ensures r.Valid() && r.Contents() == c && |r.mem| == capacity
  {
    var mem := c + seq(capacity - |c|, _ => blank);
    var r := Ring(mem, |c|, 0);
    assert forall i :: 0 <= i < |c| ==> r.Slot(i) == i;
    r
  }

  // How often a number occurs.
  ghost function Occurs(c: seq<nat>, x: nat): nat {
    multiset(c)[x]
  }

  lemma OccursAppend(c: seq<nat>, x: nat, y: nat)
    ensures Occurs(c + [x], y) == Occurs(c, y) + if x == y then 1 else 0
  {
  }

  lemma OccursCons(c: seq<nat>, y: nat)
    requires c != []
    ensures Occurs(c, y) == Occurs(c[1..], y) + if c[0] == y then 1 else 0
  {
    assert c == [c[0]] + c[1..];
  }

  lemma OccursIn(c: seq<nat>, x: nat)
    ensures x in c <==> Occurs(c, x) > 0
  {
  }

  // Numbers in a range, none twice, one of the range missing, are fewer than the range.
  lemma Pigeonhole(c: seq<nat>, lo: nat, n: nat, missing: nat)
    requires lo <= missing < n
    requires forall x :: x in c ==> lo <= x < n && x != missing && Occurs(c, x) == 1
    ensures |c| < n - lo
  {
    DistinctSize(c);
    var present := Elements(c);
    var others := Range(lo, n) - {missing};
    assert present <= others;
    assert others == present + (others - present);
  }

  ghost function Range(lo: nat, n: nat): (s: set<nat>)
    requires lo <= n
    ensures |s| == n - lo && forall x :: x in s <==> lo <= x < n
  {
    if lo == n then {} else Range(lo, n - 1) + {n - 1}
  }

  ghost function Elements(c: seq<nat>): set<nat> {
    set x | x in c
  }

  lemma {:induction false} DistinctSize(c: seq<nat>)
    requires forall x :: x in c ==> Occurs(c, x) == 1
    ensures |Elements(c)| == |c|
  {
    if c != [] {
      var rest := c[1..];
      OccursCons(c, c[0]);
      OccursIn(rest, c[0]);
      forall x | x in rest ensures Occurs(rest, x) == 1 {
        OccursCons(c, x);
        OccursIn(rest, x);
      }
      DistinctSize(rest);
      assert c == [c[0]] + rest;
      assert Elements(c) == {c[0]} + Elements(rest);
      assert c[0] in c && c[0] !in Elements(rest);
    }
  }
}
