/** The send queue both implementations keep: an array of messages, each
    addressed to a file descriptor, from which entries are removed by moving
    the last entry into the hole. */
module SendQueue {
  import opened Wrappers

  type Fd = int

  datatype Message<+T> = Message(fd: Fd, payload: T)

  /** ArrayList.swapRemove in Zig, ipc_messages_del in C: the last element
      takes the place of the removed one. */
  function SwapRemove<T>(s: seq<T>, i: nat): (r: seq<T>)
    requires i < |s|
    ensures |r| == |s| - 1
    ensures forall k :: 0 <= k < |r| ==> r[k] == s[if k == i then |r| else k]
  {
    if i == |s| - 1 then s[..i] else s[..|s| - 1][i := s[|s| - 1]]
  }

  lemma SwapRemoveMultiset<T>(s: seq<T>, i: nat)
    requires i < |s|
    ensures multiset(s) == multiset(SwapRemove(s, i)) + multiset{s[i]}
  {
    var n := |s| - 1;
    var r := SwapRemove(s, i);
    if i == n {
      assert s == r + [s[i]];
    } else {
      assert s == s[..i] + [s[i]] + s[i + 1..n] + [s[n]];
      assert r == s[..i] + [s[n]] + s[i + 1..n];
      LastFillsHole(s[..i], s[i], s[i + 1..n], s[n]);
    }
  }

  lemma LastFillsHole<T>(a: seq<T>, x: T, b: seq<T>, y: T)
    ensures multiset(a + [x] + b + [y]) == multiset(a + [y] + b) + multiset{x}
  {
    assert multiset(a + [x] + b + [y]) == multiset(a) + multiset{x} + multiset(b) + multiset{y};
    assert multiset(a + [y] + b) == multiset(a) + multiset{y} + multiset(b);
  }

  ghost predicate HasFor<T>(tx: seq<Message<T>>, fd: Fd) {
    exists k :: 0 <= k < |tx| && tx[k].fd == fd
  }

  /** The first queued message for fd, from position i on. */
  function FirstFrom<T>(tx: seq<Message<T>>, fd: Fd, i: nat): (r: Option<nat>)
    requires i <= |tx|
    ensures r.Some? ==> i <= r.value < |tx| && tx[r.value].fd == fd
    ensures r.Some? ==> forall k :: i <= k < r.value ==> tx[k].fd != fd
    ensures r.None? ==> forall k :: i <= k < |tx| ==> tx[k].fd != fd
    decreases |tx| - i
  {
    if i == |tx| then None
    else if tx[i].fd == fd then Some(i)
    else FirstFrom(tx, fd, i + 1)
  }

  function FirstFor<T>(tx: seq<Message<T>>, fd: Fd): (r: Option<nat>)
    ensures r.Some? <==> HasFor(tx, fd)
    ensures r.Some? ==> r.value < |tx| && tx[r.value].fd == fd
    ensures r.Some? ==> forall k :: 0 <= k < r.value ==> tx[k].fd != fd
  {
    FirstFrom(tx, fd, 0)
  }

  /** The loop that removes the messages of a closed descriptor, from cursor i
      on: the cursor stays in place after a removal, since another message has
      just been moved under it. */
  function PurgeFrom<T>(tx: seq<Message<T>>, fd: Fd, i: nat): (r: seq<Message<T>>)
    requires i <= |tx|
    ensures |r| <= |tx|
    decreases |tx| - i
  {
    if i == |tx| then tx
    else if tx[i].fd == fd then PurgeFrom(SwapRemove(tx, i), fd, i)
    else PurgeFrom(tx, fd, i + 1)
  }

  function Purge<T>(tx: seq<Message<T>>, fd: Fd): (r: seq<Message<T>>)
    ensures |r| <= |tx|
  {
    PurgeFrom(tx, fd, 0)
  }

  /** after is before without the messages for fd, all other multiplicities
      being the same. */
  ghost predicate Without<T(!new)>(before: multiset<Message<T>>, after: multiset<Message<T>>, fd: Fd) {
    forall m: Message<T> :: after[m] == if m.fd == fd then 0 else before[m]
  }

  lemma {:induction false} PurgeFromExact<T(!new)>(tx: seq<Message<T>>, fd: Fd, i: nat)
    requires i <= |tx|
    requires forall k :: 0 <= k < i ==> tx[k].fd != fd
    ensures Without(multiset(tx), multiset(PurgeFrom(tx, fd, i)), fd)
    decreases |tx| - i
  {
    var r := PurgeFrom(tx, fd, i);
    if i == |tx| {
      forall m: Message<T> ensures multiset(r)[m] == if m.fd == fd then 0 else multiset(tx)[m] {
        if m in multiset(tx) {
          assert m in tx;
        }
      }
    } else if tx[i].fd == fd {
      var next := SwapRemove(tx, i);
      PurgeFromExact(next, fd, i);
      forall m: Message<T> ensures multiset(r)[m] == if m.fd == fd then 0 else multiset(tx)[m] {
        SwapRemoveMultiset(tx, i);
        assert multiset(tx)[m] == multiset(next)[m] + multiset{tx[i]}[m];
      }
    } else {
      PurgeFromExact(tx, fd, i + 1);
    }
  }

  /** The purge removes all and only the messages for fd, in spite of the
      swap-removals under its cursor. */
  lemma PurgeExact<T(!new)>(tx: seq<Message<T>>, fd: Fd)
    ensures Without(multiset(tx), multiset(Purge(tx, fd)), fd)
    ensures !HasFor(Purge(tx, fd), fd)
    ensures forall g :: g != fd ==> (HasFor(Purge(tx, fd), g) <==> HasFor(tx, g))
  {
    PurgeFromExact(tx, fd, 0);
    var r := Purge(tx, fd);
    forall k | 0 <= k < |r| ensures r[k].fd != fd {
      assert multiset(r)[r[k]] > 0;
    }
    forall g | g != fd ensures HasFor(r, g) <==> HasFor(tx, g) {
      SameAddressees(tx, r, fd, g);
      SameAddressees(r, tx, fd, g);
    }
  }

  lemma SameAddressees<T(!new)>(a: seq<Message<T>>, b: seq<Message<T>>, fd: Fd, g: Fd)
    requires g != fd
    requires forall m: Message<T> :: m.fd != fd ==> multiset(a)[m] == multiset(b)[m]
    ensures HasFor(a, g) ==> HasFor(b, g)
  {
  }
}
