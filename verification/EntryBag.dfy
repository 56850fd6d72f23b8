/** Queue entries, their order, and the ordered multiset the simulator keeps them in. */
module EntryBag {

  const MAX_PACKET: nat := 1500

  // One packet carries ceil(MAX_PACKET / 64) = 24 blocks of 64 bytes.
  const PACKET_BLOCKS: nat := (MAX_PACKET + 63) / 64

  // Lengths count 64-byte blocks.
  datatype Entry = Entry(ts: nat, id: nat, length: nat, remaining: int, taint: bool)

  // What an empty queue hands out.
  const NULL_ENTRY := Entry(0, 0, 0, 0, false)

  predicate Less(l: Entry, r: Entry) {
    l.remaining < r.remaining || (l.remaining == r.remaining && l.id < r.id)
  }

  predicate Equivalent(l: Entry, r: Entry) {
    !Less(l, r) && !Less(r, l)
  }

  /* The ordered multiset: iteration order is the order of the sequence. */

  type Bag = seq<Entry>

  ghost predicate Sorted(b: Bag) {
    forall i, j :: 0 <= i < j < |b| ==> !Less(b[j], b[i])
  }

  // A new element goes behind the elements equivalent to it.
  function Insert(b: Bag, e: Entry): Bag {
    if b == [] then [e]
    else if Less(e, b[0]) then [e] + b
    else [b[0]] + Insert(b[1..], e)
  }

  // Erasing by key drops every equivalent element.
  function Erase(b: Bag, e: Entry): Bag {
    if b == [] then []
    else if Equivalent(b[0], e) then Erase(b[1..], e)
    else [b[0]] + Erase(b[1..], e)
  }

  function Total(b: Bag): int {
    if b == [] then 0 else b[0].remaining + Total(b[1..])
  }

  // Identifiers tell the live entries apart.
  ghost predicate DistinctIds(b: Bag) {
    forall i, j :: 0 <= i < j < |b| ==> b[i].id != b[j].id
  }

  lemma {:induction false} InsertElements(b: Bag, e: Entry)
    ensures |Insert(b, e)| == |b| + 1
    ensures multiset(Insert(b, e)) == multiset(b) + multiset{e}
    ensures Total(Insert(b, e)) == Total(b) + e.remaining
  {
    if b == [] {
    } else if Less(e, b[0]) {
      assert ([e] + b)[1..] == b;
    } else {
      InsertElements(b[1..], e);
      assert ([b[0]] + Insert(b[1..], e))[1..] == Insert(b[1..], e);
      assert b == [b[0]] + b[1..];
    }
  }

  lemma {:induction false} InsertSorted(b: Bag, e: Entry)
    requires Sorted(b)
    ensures Sorted(Insert(b, e))
  {
    if b == [] {
    } else if Less(e, b[0]) {
      forall j | 0 <= j < |b| ensures !Less(b[j], e) {
        assert j == 0 || !Less(b[j], b[0]);
      }
    } else {
      var r := Insert(b[1..], e);
      InsertSorted(b[1..], e);
      InsertElements(b[1..], e);
      forall j | 0 <= j < |r| ensures !Less(r[j], b[0]) {
        assert r[j] in multiset(r);
        assert r[j] in multiset(b[1..]) || r[j] == e;
        if r[j] != e {
          assert r[j] in b[1..];
        }
      }
    }
  }

  lemma InsertBag(b: Bag, e: Entry)
    ensures |Insert(b, e)| == |b| + 1
    ensures multiset(Insert(b, e)) == multiset(b) + multiset{e}
    ensures Total(Insert(b, e)) == Total(b) + e.remaining
    ensures Sorted(b) ==> Sorted(Insert(b, e))
  {
    InsertElements(b, e);
    if Sorted(b) {
      InsertSorted(b, e);
    }
  }

  lemma {:induction false} InsertKeepsDistinct(b: Bag, e: Entry)
    requires DistinctIds(b)
    requires forall d :: d in b ==> d.id != e.id
    ensures DistinctIds(Insert(b, e))
  {
    if b != [] && !Less(e, b[0]) {
      var r := Insert(b[1..], e);
      InsertKeepsDistinct(b[1..], e);
      InsertBag(b[1..], e);
      forall j | 0 <= j < |r| ensures r[j].id != b[0].id {
        assert r[j] in multiset(r);
        assert r[j] in b[1..] || r[j] == e;
      }
    }
  }

  // Erasing a live entry by key removes that entry and no other.
  lemma EraseBag(b: Bag, e: Entry)
    requires e in b && DistinctIds(b)
    ensures |Erase(b, e)| == |b| - 1
    ensures multiset(Erase(b, e)) == multiset(b) - multiset{e}
    ensures Total(Erase(b, e)) == Total(b) - e.remaining
    ensures DistinctIds(Erase(b, e))
    ensures Sorted(b) ==> Sorted(Erase(b, e))
    ensures forall d :: d in Erase(b, e) ==> d in b && d.id != e.id
  {
    var i :| 0 <= i < |b| && b[i] == e;
    EraseAt(b, i);
    RemoveAtBag(b, i);
    RemoveAtTotal(b, i);
    RemoveAtOrder(b, i);
  }

  lemma RemoveAtBag(b: Bag, i: nat)
    requires i < |b|
    ensures multiset(b[..i] + b[i + 1..]) == multiset(b) - multiset{b[i]}
  {
    assert b == b[..i] + [b[i]] + b[i + 1..];
  }

  lemma RemoveAtTotal(b: Bag, i: nat)
    requires i < |b|
    ensures Total(b[..i] + b[i + 1..]) == Total(b) - b[i].remaining
  {
    assert b == b[..i] + ([b[i]] + b[i + 1..]);
    TotalConcat(b[..i], [b[i]] + b[i + 1..]);
    TotalConcat([b[i]], b[i + 1..]);
    TotalConcat(b[..i], b[i + 1..]);
  }

  lemma RemoveAtOrder(b: Bag, i: nat)
    requires i < |b| && DistinctIds(b)
    ensures var r := b[..i] + b[i + 1..];
      && DistinctIds(r)
      && (Sorted(b) ==> Sorted(r))
      && forall d :: d in r ==> d in b && d.id != b[i].id
  {
    var r := b[..i] + b[i + 1..];
    assert forall k :: 0 <= k < |r| ==> r[k] == (if k < i then b[k] else b[k + 1]);
    forall d | d in r ensures d in b && d.id != b[i].id {
      var k :| 0 <= k < |r| && r[k] == d;
    }
  }

  lemma {:induction false} EraseAt(b: Bag, i: nat)
    requires i < |b| && DistinctIds(b)
    ensures Erase(b, b[i]) == b[..i] + b[i + 1..]
  {
    if i == 0 {
      EraseAbsent(b[1..], b[0]);
    } else {
      assert b[0].id != b[i].id;
      EraseAt(b[1..], i - 1);
      assert b[..i] == [b[0]] + b[1..][..i - 1];
    }
  }

  lemma {:induction false} EraseAbsent(b: Bag, e: Entry)
    requires forall d :: d in b ==> d.id != e.id
    ensures Erase(b, e) == b
  {
    if b != [] {
      assert b[0] in b;
      EraseAbsent(b[1..], e);
    }
  }

  lemma {:induction false} TotalConcat(a: Bag, b: Bag)
    ensures Total(a + b) == Total(a) + Total(b)
  {
    if a == [] {
      assert a + b == b;
    } else {
      assert (a + b)[1..] == a[1..] + b;
      TotalConcat(a[1..], b);
    }
  }

  // Two entries of a bag held in two different places carry different identifiers.
  lemma PairDistinct(b: Bag, d: Entry, e: Entry)
    requires DistinctIds(b) && multiset{d, e} <= multiset(b)
    ensures d.id != e.id
  {
    assert d in multiset(b);
    var i :| 0 <= i < |b| && b[i] == d;
    assert b == b[..i] + [d] + b[i + 1..];
    assert e in multiset(b[..i]) || e in multiset(b[i + 1..]) by {
      assert multiset(b) == multiset(b[..i]) + multiset{d} + multiset(b[i + 1..]);
      assert multiset{d, e}[e] <= multiset(b)[e];
    }
    if e in b[..i] {
      var j :| 0 <= j < i && b[j] == e;
    } else {
      var j :| 0 <= j < |b| - i - 1 && b[i + 1..][j] == e;
      assert b[i + 1 + j] == e;
    }
  }

  lemma {:induction false} HeadIsLeast(b: Bag, e: Entry)
    requires Sorted(b) && e in b
    ensures !Less(e, b[0])
  {
    var i :| 0 <= i < |b| && b[i] == e;
  }

  // The order: less to send goes first, and of two with as much the older one.
  lemma SortedMeans(b: Bag)
    ensures Sorted(b) <==> forall i, j :: 0 <= i < j < |b| ==>
              b[i].remaining < b[j].remaining || (b[i].remaining == b[j].remaining && b[i].id <= b[j].id)
  {
    if Sorted(b) {
      forall i, j | 0 <= i < j < |b|
        ensures b[i].remaining < b[j].remaining || (b[i].remaining == b[j].remaining && b[i].id <= b[j].id)
      {
        assert !Less(b[j], b[i]);
      }
    }
  }
}
