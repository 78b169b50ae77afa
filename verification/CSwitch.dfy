/** The C switch table, an unordered array of pairs, and the proof that it is
    the table of the Zig implementation in another form. */
module CSwitch {
  import opened SendQueue
  import opened SwitchTable
  import opened Wrappers

  datatype Pair = Pair(orig: Fd, dest: Fd) {
    predicate Has(fd: Fd) {
      orig == fd || dest == fd
    }

    /** The other end, seen from fd; orig is tried first. */
    function Other(fd: Fd): Fd {
      if orig == fd then dest else orig
    }
  }

  // ----- the array as a value -----

  function FirstPairFrom(pairs: seq<Pair>, fd: Fd, i: nat): (r: Option<nat>)
    requires i <= |pairs|
    ensures r.Some? ==> i <= r.value < |pairs| && pairs[r.value].Has(fd)
    ensures r.Some? ==> forall k :: i <= k < r.value ==> !pairs[k].Has(fd)
    ensures r.None? ==> forall k :: i <= k < |pairs| ==> !pairs[k].Has(fd)
    decreases |pairs| - i
  {
    if i == |pairs| then None
    else if pairs[i].Has(fd) then Some(i)
    else FirstPairFrom(pairs, fd, i + 1)
  }

  /** The pair a scan from the start stops at. */
  function FirstPair(pairs: seq<Pair>, fd: Fd): (r: Option<nat>)
    ensures r.Some? ==> r.value < |pairs| && pairs[r.value].Has(fd)
    ensures r.Some? ==> forall k :: 0 <= k < r.value ==> !pairs[k].Has(fd)
    ensures r.None? ==> forall k :: 0 <= k < |pairs| ==> !pairs[k].Has(fd)
  {
    FirstPairFrom(pairs, fd, 0)
  }

  /** ipc_switching_get, and the answer of ipc_switching_del. */
  function PartnerOf(pairs: seq<Pair>, fd: Fd): Fd {
    match FirstPair(pairs, fd)
    case Some(i) => pairs[i].Other(fd)
    case None => -1
  }

  /** ipc_switching_del: the last pair takes the place of the deleted one. */
  function PairsWithout(pairs: seq<Pair>, fd: Fd): seq<Pair> {
    match FirstPair(pairs, fd)
    case Some(i) => SwapRemove(pairs, i)
    case None => pairs
  }

  class Switchings {
    var collection: seq<Pair>
    var size: nat

    ghost predicate Valid()
      reads this
    {
      size == |collection|
    }

    constructor ()
      ensures Valid() && collection == []
    {
      collection, size := [], 0;
    }

    method Add(orig: Fd, dest: Fd)
      requires Valid()
      modifies this
      ensures Valid() && collection == old(collection) + [Pair(orig, dest)]
    {
      collection := collection + [Pair(orig, dest)];
      size := size + 1;
    }

    method Del(fd: Fd) returns (ret: Fd)
      requires Valid()
      modifies this
      ensures Valid() && collection == PairsWithout(old(collection), fd)
      ensures ret == PartnerOf(old(collection), fd)
    {
      var i := 0;
      while i < size
        invariant i <= size && FirstPairFrom(collection, fd, i) == FirstPair(collection, fd)
      {
        if collection[i].orig == fd || collection[i].dest == fd {
          ret := if fd == collection[i].orig then collection[i].dest else collection[i].orig;
          collection := collection[i := collection[size - 1]];
          collection := collection[..size - 1];
          size := size - 1;
          assert collection == SwapRemove(old(collection), i);
          return;
        }
        i := i + 1;
      }
      ret := -1;
    }

    method Get(fd: Fd) returns (ret: Fd)
      requires Valid()
      ensures ret == PartnerOf(collection, fd)
    {
      var i := 0;
      while i < size
        invariant i <= size && FirstPairFrom(collection, fd, i) == FirstPair(collection, fd)
      {
        if collection[i].orig == fd {
          return collection[i].dest;
        } else if collection[i].dest == fd {
          return collection[i].orig;
        }
        i := i + 1;
      }
      ret := -1;
    }

    /** ipc_switching_get_: which side fd is on, and where its pair is. */
    method GetSide(fd: Fd) returns (side: int, at: nat)
      requires Valid()
      ensures side == -1 <==> FirstPair(collection, fd) == None
      ensures side != -1 ==> FirstPair(collection, fd) == Some(at)
      ensures side == 0 ==> collection[at].orig == fd
      ensures side == 1 ==> collection[at].dest == fd && collection[at].orig != fd
      ensures side in {-1, 0, 1}
    {
      at := 0;
      while at < size
        invariant at <= size && FirstPairFrom(collection, fd, at) == FirstPair(collection, fd)
      {
        if collection[at].orig == fd {
          return 0, at;
        } else if collection[at].dest == fd {
          return 1, at;
        }
        at := at + 1;
      }
      side := -1;
    }
  }

  // ----- refinement -----

  /** No descriptor is in two pairs. */
  ghost predicate Disjoint(pairs: seq<Pair>) {
    forall i, j, fd :: 0 <= i < |pairs| && 0 <= j < |pairs| && pairs[i].Has(fd) && pairs[j].Has(fd) ==> i == j
  }

  ghost predicate Agree(pairs: seq<Pair>, t: Table, fd: Fd) {
    match FirstPair(pairs, fd)
    case None => fd !in t
    case Some(i) => fd in t && t[fd] == pairs[i].Other(fd)
  }

  /** The pairs are disjoint and the map holds exactly their two directions. */
  ghost predicate Represents(pairs: seq<Pair>, t: Table) {
    && Disjoint(pairs)
    && forall fd :: Agree(pairs, t, fd)
  }

  /** What getDest finds, with the C answer for what it does not find. */
  function DestOr(t: Table, fd: Fd): Fd {
    if fd in t then t[fd] else -1
  }

  lemma SamePartner(pairs: seq<Pair>, t: Table, fd: Fd)
    requires Represents(pairs, t)
    ensures PartnerOf(pairs, fd) == DestOr(t, fd)
    ensures FirstPair(pairs, fd).Some? <==> fd in t
  {
    assert Agree(pairs, t, fd);
  }

  lemma FirstOfAppended(pairs: seq<Pair>, p: Pair, fd: Fd)
    ensures FirstPair(pairs + [p], fd) ==
            if FirstPair(pairs, fd).Some? then FirstPair(pairs, fd)
            else if p.Has(fd) then Some(|pairs|) else None
  {
    var r := pairs + [p];
    var found := FirstPair(r, fd);
    assert forall k :: 0 <= k < |pairs| ==> r[k] == pairs[k];
    assert r[|pairs|] == p;
  }

  lemma AddRefines(pairs: seq<Pair>, t: Table, a: Fd, b: Fd)
    requires Represents(pairs, t) && a !in t && b !in t
    ensures Represents(pairs + [Pair(a, b)], Put(t, a, b))
  {
    var pairs' := pairs + [Pair(a, b)];
    SamePartner(pairs, t, a);
    SamePartner(pairs, t, b);
    assert Disjoint(pairs') by {
      assert forall k, fd :: 0 <= k < |pairs| && pairs[k].Has(fd) ==> fd != a && fd != b;
    }
    forall fd ensures Agree(pairs', Put(t, a, b), fd) {
      SamePartner(pairs, t, fd);
      FirstOfAppended(pairs, Pair(a, b), fd);
    }
  }

  /** After the deletion of pair `at`, every other descriptor still finds its
      own pair, wherever that is now. */
  lemma FirstOfRemaining(pairs: seq<Pair>, at: nat, fd: Fd)
    requires Disjoint(pairs) && at < |pairs|
    ensures var r := SwapRemove(pairs, at);
            if pairs[at].Has(fd) || FirstPair(pairs, fd) == None then FirstPair(r, fd) == None
            else FirstPair(r, fd).Some? && r[FirstPair(r, fd).value] == pairs[FirstPair(pairs, fd).value]
  {
    var r := SwapRemove(pairs, at);
    if FirstPair(pairs, fd).Some? && !pairs[at].Has(fd) {
      var k := FirstPair(pairs, fd).value;
      assert r[if k == |r| then at else k] == pairs[k];
    }
    var found := FirstPair(r, fd);
    if found.Some? {
      var source := if found.value == at then |r| else found.value;
      assert r[found.value] == pairs[source] && source != at;
    }
  }

  lemma DelRefines(pairs: seq<Pair>, t: Table, fd: Fd)
    requires Represents(pairs, t)
    ensures Represents(PairsWithout(pairs, fd), Nuke(t, fd))
  {
    SamePartner(pairs, t, fd);
    if fd in t {
      var at := FirstPair(pairs, fd).value;
      var r := SwapRemove(pairs, at);
      assert Disjoint(r) by {
        assert forall k :: 0 <= k < |r| ==> r[k] == pairs[if k == at then |r| else k];
      }
      forall g ensures Agree(r, Nuke(t, fd), g) {
        SamePartner(pairs, t, g);
        FirstOfRemaining(pairs, at, g);
      }
    }
  }

  // ----- sequences of operations -----

  datatype Op = AddOp(orig: Fd, dest: Fd) | GetOp(fd: Fd) | DelOp(fd: Fd)

  function CAnswers(pairs: seq<Pair>, ops: seq<Op>): seq<Fd>
    decreases |ops|
  {
    if ops == [] then []
    else match ops[0]
      case AddOp(a, b) => CAnswers(pairs + [Pair(a, b)], ops[1..])
      case GetOp(fd) => [PartnerOf(pairs, fd)] + CAnswers(pairs, ops[1..])
      case DelOp(fd) => [PartnerOf(pairs, fd)] + CAnswers(PairsWithout(pairs, fd), ops[1..])
  }

  function ZigAnswers(t: Table, ops: seq<Op>): seq<Fd>
    decreases |ops|
  {
    if ops == [] then []
    else match ops[0]
      case AddOp(a, b) => ZigAnswers(Put(t, a, b), ops[1..])
      case GetOp(fd) => [DestOr(t, fd)] + ZigAnswers(t, ops[1..])
      case DelOp(fd) => [DestOr(t, fd)] + ZigAnswers(Nuke(t, fd), ops[1..])
  }

  /** Only unpaired descriptors are ever paired. */
  predicate Guarded(t: Table, ops: seq<Op>)
    decreases |ops|
  {
    ops == [] ||
    match ops[0]
    case AddOp(a, b) => a !in t && b !in t && Guarded(Put(t, a, b), ops[1..])
    case GetOp(_) => Guarded(t, ops[1..])
    case DelOp(fd) => Guarded(Nuke(t, fd), ops[1..])
  }

  /** Any guarded sequence of operations gets the same answers from both tables. */
  lemma {:induction false} SameAnswers(pairs: seq<Pair>, t: Table, ops: seq<Op>)
    requires Represents(pairs, t) && Guarded(t, ops)
    ensures CAnswers(pairs, ops) == ZigAnswers(t, ops)
    decreases |ops|
  {
    if ops == [] {
    } else {
      match ops[0]
      case AddOp(a, b) =>
        AddRefines(pairs, t, a, b);
        SameAnswers(pairs + [Pair(a, b)], Put(t, a, b), ops[1..]);
      case GetOp(fd) =>
        SamePartner(pairs, t, fd);
        SameAnswers(pairs, t, ops[1..]);
      case DelOp(fd) =>
        SamePartner(pairs, t, fd);
        DelRefines(pairs, t, fd);
        SameAnswers(PairsWithout(pairs, fd), Nuke(t, fd), ops[1..]);
    }
  }

  /** Started empty, the two implementations agree. */
  lemma SameAnswersFromEmpty(ops: seq<Op>)
    requires Guarded(map[], ops)
    ensures CAnswers([], ops) == ZigAnswers(map[], ops)
  {
    SameAnswers([], map[], ops);
  }

  ghost predicate SameForever(pairs: seq<Pair>, t: Table) {
    forall ops :: Guarded(t, ops) ==> CAnswers(pairs, ops) == ZigAnswers(t, ops)
  }

  /** The guard is exact: after one addition the two tables answer alike for
      ever if and only if both descriptors were unpaired. */
  lemma GuardIsExact(pairs: seq<Pair>, t: Table, a: Fd, b: Fd)
    requires Represents(pairs, t) && a >= 0 && b >= 0
    ensures SameForever(pairs + [Pair(a, b)], Put(t, a, b)) <==> a !in t && b !in t
  {
    var pairs' := pairs + [Pair(a, b)];
    var t' := Put(t, a, b);
    if a !in t && b !in t {
      AddRefines(pairs, t, a, b);
      forall ops | Guarded(t', ops) ensures CAnswers(pairs', ops) == ZigAnswers(t', ops) {
        SameAnswers(pairs', t', ops);
      }
    } else {
      SamePartner(pairs, t, a);
      SamePartner(pairs, t, b);
      if (a in t && t[a] != b) || (b in t && t[b] != a) {
        var fd := if a in t && t[a] != b then a else b;
        OldPairWins(pairs, a, b, fd);
        assert CAnswers(pairs', [GetOp(fd)])[0] == PartnerOf(pairs', fd);
        assert ZigAnswers(t', [GetOp(fd)])[0] == DestOr(t', fd);
        TellApart(pairs', t', [GetOp(fd)]);
      } else {
        SecondCopyStays(pairs, t, a, b);
        TellApart(pairs', t', [DelOp(a), GetOp(a)]);
      }
    }
  }

  lemma TellApart(pairs: seq<Pair>, t: Table, ops: seq<Op>)
    requires |ops| <= 2 && Guarded(t, ops) && CAnswers(pairs, ops) != ZigAnswers(t, ops)
    ensures !SameForever(pairs, t)
  {
  }

  lemma OldPairWins(pairs: seq<Pair>, a: Fd, b: Fd, fd: Fd)
    requires FirstPair(pairs, fd).Some?
    ensures PartnerOf(pairs + [Pair(a, b)], fd) == PartnerOf(pairs, fd)
  {
    FirstOfAppended(pairs, Pair(a, b), fd);
  }

  /** A pair added twice survives the deletion that empties the map of it. */
  lemma SecondCopyStays(pairs: seq<Pair>, t: Table, a: Fd, b: Fd)
    requires Represents(pairs, t) && a >= 0 && b >= 0
    requires a in t || b in t
    requires (a in t ==> t[a] == b) && (b in t ==> t[b] == a)
    ensures var ops := [DelOp(a), GetOp(a)];
            && Guarded(Put(t, a, b), ops)
            && CAnswers(pairs + [Pair(a, b)], ops) != ZigAnswers(Put(t, a, b), ops)
  {
    var pairs' := pairs + [Pair(a, b)];
    var t' := Put(t, a, b);
    var ops := [DelOp(a), GetOp(a)];
    SamePartner(pairs, t, a);
    SamePartner(pairs, t, b);
    if b in t {
      assert pairs[FirstPair(pairs, b).value].Has(a);
    }
    FirstOfAppended(pairs, Pair(a, b), a);
    var i := FirstPair(pairs, a).value;
    var left := PairsWithout(pairs', a);
    assert left[i] == Pair(a, b);
    assert PartnerOf(left, a) in {a, b};
    assert ops[1..] == [GetOp(a)] && ops[1..][1..] == [];
    assert CAnswers(left, [GetOp(a)])[0] == PartnerOf(left, a);
    assert CAnswers(pairs', ops) == [PartnerOf(pairs', a)] + CAnswers(left, [GetOp(a)]);
    assert ZigAnswers(Nuke(t', a), [GetOp(a)])[0] == -1;
    assert CAnswers(pairs', ops)[1] != ZigAnswers(t', ops)[1];
  }
}
