/** Splitting strings at a delimiter, and URI.read. */
module Text {
  import opened Wrappers

  // ----- searching -----

  predicate At(s: string, d: string, i: nat) {
    i + |d| <= |s| && s[i..i + |d|] == d
  }

  /** std.mem.indexOfPos. */
  function FindFrom(s: string, d: string, i: nat): (r: Option<nat>)
    ensures r.Some? ==> i <= r.value && At(s, d, r.value) && forall j :: i <= j < r.value ==> !At(s, d, j)
    ensures r.None? ==> forall j :: i <= j ==> !At(s, d, j)
    decreases |s| - i
  {
    if i + |d| > |s| then None
    else if At(s, d, i) then Some(i)
    else FindFrom(s, d, i + 1)
  }

  ghost predicate Contains(s: string, d: string) {
    exists i: nat :: At(s, d, i)
  }

  /** The text before the first delimiter, and what follows it if there is one. */
  function Cut(s: string, d: string): (string, Option<string>) {
    match FindFrom(s, d, 0)
    case None => (s, None)
    case Some(i) => (s[..i], Some(s[i + |d|..]))
  }

  /** No proper suffix of d is also a prefix of d, so occurrences cannot overlap. */
  ghost predicate Unbordered(d: string) {
    d != [] && forall k :: 0 < k < |d| ==> d[k..] != d[..|d| - k]
  }

  /** A join is undone by a cut exactly when the left part does not contain the
      delimiter: no occurrence can straddle the join. */
  lemma CutJoin(a: string, d: string, b: string)
    requires Unbordered(d)
    ensures Cut(a + d + b, d) == (a, Some(b)) <==> !Contains(a, d)
    ensures Cut(a + d + b, d).1.Some? && |Cut(a + d + b, d).0| <= |a|
  {
    var s := a + d + b;
    assert At(s, d, |a|);
    var i := FindFrom(s, d, 0).value;
    assert i <= |a|;
    if i < |a| {
      NoStraddle(a, d, b, i);
      assert At(a, d, i);
    } else {
      forall j: nat | j + |d| <= |a| ensures !At(a, d, j) {
        assert s[j..j + |d|] == a[j..j + |d|];
        assert !At(s, d, j);
      }
      assert s[..i] == a && s[i + |d|..] == b;
    }
  }

  lemma NoStraddle(a: string, d: string, b: string, i: nat)
    requires Unbordered(d) && i < |a| && At(a + d + b, d, i)
    ensures At(a, d, i)
  {
    var s := a + d + b;
    if i + |d| <= |a| {
      assert s[i..i + |d|] == a[i..i + |d|];
    } else {
      assert At(s, d, |a|);
      OverlapIsBorder(s, d, i, |a| - i);
    }
  }

  lemma OverlapIsBorder(s: string, d: string, i: nat, k: nat)
    requires 0 < k < |d| && At(s, d, i) && At(s, d, i + k)
    ensures d[k..] == d[..|d| - k]
  {
    assert s[i..i + |d|][k..] == s[i + k..i + |d|] == s[i + k..i + k + |d|][..|d| - k];
  }

  lemma Unbordered1(d: string)
    requires |d| == 1
    ensures Unbordered(d)
  {
  }

  lemma Contains1(s: string, c: char)
    ensures Contains(s, [c]) <==> c in s
  {
    if c in s {
      var i :| 0 <= i < |s| && s[i] == c;
      assert s[i..i + 1] == [c];
      assert At(s, [c], i);
    }
    if Contains(s, [c]) {
      var i: nat :| At(s, [c], i);
      assert s[i..i + 1][0] == s[i];
    }
  }

  /** Cutting at a character that the left part does not have. */
  lemma CutAt(a: string, c: char, b: string)
    ensures Cut(a + [c] + b, [c]) == (a, Some(b)) <==> c !in a
  {
    Unbordered1([c]);
    Contains1(a, c);
    CutJoin(a, [c], b);
  }

  lemma NoCut(s: string, c: char)
    requires c !in s
    ensures Cut(s, [c]) == (s, None)
  {
    Contains1(s, c);
  }

  // ----- std.mem.split -----

  function Split(s: string, d: string): (r: seq<string>)
    requires d != []
    ensures r != [] && r[0] == Cut(s, d).0
    decreases |s|
  {
    match Cut(s, d)
    case (head, None) => [head]
    case (head, Some(tail)) => [head] + Split(tail, d)
  }

  function Join(pieces: seq<string>, d: string): string {
    if pieces == [] then ""
    else if |pieces| == 1 then pieces[0]
    else pieces[0] + d + Join(pieces[1..], d)
  }

  /** Joining undoes splitting, and no piece can be split further. */
  lemma {:induction false} SplitJoin(s: string, d: string)
    requires d != []
    ensures Join(Split(s, d), d) == s
    ensures forall k :: 0 <= k < |Split(s, d)| ==> !Contains(Split(s, d)[k], d)
    decreases |s|
  {
    var (head, tail) := Cut(s, d);
    HeadIsWhole(s, d);
    if tail == None {
    } else {
      SplitJoin(tail.value, d);
      assert s == head + d + tail.value;
    }
  }

  lemma HeadIsWhole(s: string, d: string)
    requires d != []
    ensures !Contains(Cut(s, d).0, d)
  {
    var head := Cut(s, d).0;
    forall i: nat ensures !At(head, d, i) {
      if i + |d| <= |head| {
        assert head[i..i + |d|] == s[i..i + |d|];
        assert !At(s, d, i);
      }
    }
  }

  class SplitIterator {
    const buffer: string
    const delimiter: string
    var index: Option<nat>

    ghost predicate Valid()
      reads this
    {
      delimiter != [] && (index.Some? ==> index.value <= |buffer|)
    }

    /** The pieces still to come. */
    ghost function Pieces(): seq<string>
      requires Valid()
      reads this
    {
      if index.None? then [] else Split(buffer[index.value..], delimiter)
    }

    constructor (s: string, d: string)
      requires d != []
      ensures Valid() && Pieces() == Split(s, d)
    {
      buffer, delimiter, index := s, d, Some(0);
    }

    method Next() returns (piece: Option<string>)
      requires Valid()
      modifies this
      ensures Valid()
      ensures if old(Pieces()) == [] then piece == None && Pieces() == []
              else piece == Some(old(Pieces())[0]) && Pieces() == old(Pieces())[1..]
    {
      if index == None {
        return None;
      }
      var start := index.value;
      var found := FindFrom(buffer, delimiter, start);
      CutOfSuffix(buffer, delimiter, start);
      if found.Some? {
        index := Some(found.value + |delimiter|);
        piece := Some(buffer[start..found.value]);
      } else {
        index := None;
        piece := Some(buffer[start..]);
      }
    }
  }

  /** Searching from a position is cutting the suffix. */
  lemma CutOfSuffix(s: string, d: string, i: nat)
    requires i <= |s|
    ensures Cut(s[i..], d) == match FindFrom(s, d, i)
                              case None => (s[i..], None)
                              case Some(j) => (s[i..j], Some(s[j + |d|..]))
  {
    FindInSuffix(s, d, i);
    var found := FindFrom(s, d, i);
    if found.Some? {
      var j := found.value;
      assert s[i..][..j - i] == s[i..j];
      assert s[i..][j - i + |d|..] == s[j + |d|..];
    }
  }

  /** Searching from a position is searching in the suffix. */
  lemma FindInSuffix(s: string, d: string, i: nat)
    requires i <= |s|
    ensures var whole, suffix := FindFrom(s, d, i), FindFrom(s[i..], d, 0);
            if suffix.Some? then whole == Some(suffix.value + i) else whole == None
  {
    assert forall j: nat :: At(s[i..], d, j) <==> At(s, d, i + j) by {
      forall j: nat ensures At(s[i..], d, j) <==> At(s, d, i + j) {
        if i + j + |d| <= |s| {
          assert s[i..][j..j + |d|] == s[i + j..i + j + |d|];
        }
      }
    }
    var whole, suffix := FindFrom(s, d, i), FindFrom(s[i..], d, 0);
    if whole.Some? {
      assert At(s[i..], d, whole.value - i);
    }
    if suffix.Some? {
      assert At(s, d, i + suffix.value);
    }
    if whole.Some? && suffix.Some? {
      assert whole.value <= i + suffix.value;
      assert suffix.value <= whole.value - i;
    }
  }

  // ----- URI.read -----

  datatype Uri = Uri(protocol: string, address: string, path: string)

  const SCHEME := "://"

  /** None: the second piece is null and unwrapped all the same. */
  function ReadUri(s: string): Option<Uri> {
    match Cut(s, SCHEME)
    case (_, None) => None
    case (protocol, Some(rest)) =>
      match Cut(Cut(rest, SCHEME).0, "/")
      case (address, None) => Some(Uri(protocol, address, ""))
      case (address, Some(path)) => Some(Uri(protocol, address, path))
  }

  function PrintUri(u: Uri): string {
    u.protocol + SCHEME + (u.address + "/" + u.path)
  }

  /** The program stops on exactly the strings without a scheme delimiter. */
  lemma ReadUriPanics(s: string)
    ensures ReadUri(s) == None <==> !Contains(s, SCHEME)
  {
  }

  /** The protocol that is read is never the whole string: comparing it with the
      destination, as ipcd does to recognise a plain service name, fails. */
  lemma ProtocolIsProper(s: string)
    ensures ReadUri(s).Some? ==> ReadUri(s).value.protocol != s
  {
  }

  lemma SchemeUnbordered()
    ensures Unbordered(SCHEME)
  {
    assert SCHEME[1..][0] == '/' && SCHEME[..2][0] == ':';
    assert SCHEME[2..][0] == '/' && SCHEME[..1][0] == ':';
  }

  /** Splitting undoes printing exactly when no part contains the delimiter that
      ends it. */
  lemma UriRoundTrip(u: Uri)
    ensures ReadUri(PrintUri(u)) == Some(u)
            <==> && !Contains(u.protocol, SCHEME)
                 && '/' !in u.address
                 && !Contains(u.address + "/" + u.path, SCHEME)
  {
    var tail := u.address + "/" + u.path;
    SchemeUnbordered();
    CutJoin(u.protocol, SCHEME, tail);
    if !Contains(u.protocol, SCHEME) {
      CutAt(u.address, '/', u.path);
      if Contains(tail, SCHEME) {
        ShortTail(u, Cut(tail, SCHEME).0);
      }
    }
  }

  /** A tail cut short cannot give both the address and the path back. */
  lemma ShortTail(u: Uri, head: string)
    requires |head| + |SCHEME| <= |u.address| + 1 + |u.path|
    ensures match Cut(head, "/")
            case (address, None) => !(address == u.address && u.path == "")
            case (address, Some(path)) => !(address == u.address && path == u.path)
  {
  }

  /** A string with no slash after the scheme is all address, and only such. */
  lemma UriWithoutPath(protocol: string, address: string)
    ensures ReadUri(protocol + SCHEME + address) == Some(Uri(protocol, address, ""))
            <==> !Contains(protocol, SCHEME) && '/' !in address
  {
    SchemeUnbordered();
    CutJoin(protocol, SCHEME, address);
    if !Contains(protocol, SCHEME) {
      var head := Cut(address, SCHEME).0;
      if '/' !in address {
        NoSlashNoScheme(address);
        NoCut(address, '/');
      } else if Contains(address, SCHEME) {
        assert |head| < |address|;
      } else {
        assert head == address;
        Contains1(address, '/');
      }
    }
  }

  lemma NoSlashNoScheme(s: string)
    requires '/' !in s
    ensures !Contains(s, SCHEME)
  {
    forall i: nat ensures !At(s, SCHEME, i) {
      if i + 3 <= |s| {
        assert s[i..i + 3][1] == s[i + 1];
      }
    }
  }

  /** What follows a second scheme delimiter is ignored. */
  lemma UriIgnoresSecondScheme(protocol: string, body: string, more: string)
    requires !Contains(protocol, SCHEME) && !Contains(body, SCHEME)
    ensures ReadUri(protocol + SCHEME + (body + SCHEME + more)) == ReadUri(protocol + SCHEME + body)
  {
    SchemeUnbordered();
    CutJoin(protocol, SCHEME, body + SCHEME + more);
    CutJoin(protocol, SCHEME, body);
    CutJoin(body, SCHEME, more);
  }
}
