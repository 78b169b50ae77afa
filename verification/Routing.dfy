/** The lookup a client writes and ipcd reads back: "service;network", where the
    network is a list of "name target" entries separated by ";" or " ;". */
module Routing {
  import opened Wrappers
  import opened Text

  datatype Entry = Entry(name: string, target: string)

  // ----- the client's side -----

  /** One entry of IPC_NETWORK, and the separator after it when it is not the
      last: ";" or " ;". */
  function Network(entries: seq<Entry>, spaced: seq<bool>): string
    requires |entries| == |spaced|
  {
    if entries == [] then ""
    else
      var first := entries[0].name + " " + entries[0].target;
      if |entries| == 1 then first
      else first + (if spaced[0] then " " else "") + ";" + Network(entries[1..], spaced[1..])
  }

  function Lookup(service: string, network: string): string {
    service + ";" + network
  }

  // ----- ipcd's side -----

  /** The inner split: an entry needs a target, the rest of it is ignored. */
  function ParseEntry(part: string): Option<Entry> {
    var words := Split(part, " ");
    if |words| < 2 then None else Some(Entry(words[0], words[1]))
  }

  /** The outer loop from one part on: a matching entry overwrites the destination. */
  function Route(service: string, parts: seq<string>, destination: Option<string>): Option<string>
    decreases |parts|
  {
    if parts == [] then destination
    else
      var e := ParseEntry(parts[0]);
      Route(service, parts[1..],
            if e.Some? && e.value.name == service then Some(e.value.target) else destination)
  }

  function FinalDestination(payload: string): Option<string> {
    var parts := Split(payload, ";");
    Route(parts[0], parts[1..], None)
  }

  /** An entry is what stands before the first space, then what stands before the
      second; without a space there is none. */
  lemma ParseExact(name: string, target: string, more: string)
    requires ' ' !in name && ' ' !in target
    ensures ParseEntry(name) == None
    ensures ParseEntry(name + " " + target) == Some(Entry(name, target))
    ensures ParseEntry(name + " " + target + " " + more) == Some(Entry(name, target))
  {
    SplitWhole(name, ' ');
    SplitAt(name, ' ', target);
    SplitWhole(target, ' ');
    assert name + " " + target + " " + more == name + " " + (target + " " + more);
    SplitAt(name, ' ', target + " " + more);
    SplitAt(target, ' ', more);
  }

  ghost predicate Names(part: string, service: string) {
    ParseEntry(part).Some? && ParseEntry(part).value.name == service
  }

  /** The target in the last part that names the service, if there is one. */
  ghost predicate IsLastNamed(service: string, parts: seq<string>, otherwise: Option<string>, r: Option<string>) {
    if forall k :: 0 <= k < |parts| ==> !Names(parts[k], service) then r == otherwise
    else exists k :: 0 <= k < |parts| && Names(parts[k], service)
           && (forall j :: k < j < |parts| ==> !Names(parts[j], service))
           && r == Some(ParseEntry(parts[k]).value.target)
  }

  /** For any parts, well formed or not: the last one that names the service
      decides, and the others are passed over. */
  lemma {:induction false} RouteExact(service: string, parts: seq<string>, destination: Option<string>)
    ensures IsLastNamed(service, parts, destination, Route(service, parts, destination))
    decreases |parts|
  {
    if parts == [] {
    } else {
      var next := if Names(parts[0], service) then Some(ParseEntry(parts[0]).value.target) else destination;
      RouteExact(service, parts[1..], next);
      assert Route(service, parts, destination) == Route(service, parts[1..], next);
      LastNamed(service, parts, destination, Route(service, parts, destination));
    }
  }

  lemma LastNamed(service: string, parts: seq<string>, otherwise: Option<string>, r: Option<string>)
    requires parts != []
    requires IsLastNamed(service, parts[1..],
                         if Names(parts[0], service) then Some(ParseEntry(parts[0]).value.target) else otherwise, r)
    ensures IsLastNamed(service, parts, otherwise, r)
  {
    var rest := parts[1..];
    assert forall j :: 0 < j < |parts| ==> parts[j] == rest[j - 1];
    if k :| 0 <= k < |rest| && Names(rest[k], service)
            && (forall j :: k < j < |rest| ==> !Names(rest[j], service))
            && r == Some(ParseEntry(rest[k]).value.target) {
      assert Names(parts[k + 1], service);
    }
  }

  method SplitEntry(part: string) returns (name: string, target: Option<string>)
    ensures match ParseEntry(part)
            case None => target == None
            case Some(e) => name == e.name && target == Some(e.target)
  {
    var words := new SplitIterator(part, " ");
    var first := words.Next();
    name := first.value;
    target := words.Next();
  }

  method FindDestination(payload: string) returns (service: string, destination: Option<string>)
    ensures service == Split(payload, ";")[0]
    ensures destination == FinalDestination(payload)
  {
    var parts := new SplitIterator(payload, ";");
    var first := parts.Next();
    service := first.value;
    destination := None;
    ghost var todo := parts.Pieces();
    var next := parts.Next();
    while next.Some?
      invariant parts.Valid() && fresh(parts)
      invariant next == if todo == [] then None else Some(todo[0])
      invariant todo != [] ==> parts.Pieces() == todo[1..]
      invariant Route(service, todo, destination) == FinalDestination(payload)
      decreases |todo|
    {
      var name, target := SplitEntry(next.value);
      if target.Some? {
        if service == name {
          destination := target;
        }
      }
      todo := parts.Pieces();
      next := parts.Next();
    }
  }

  // ----- round trip -----

  /** Neither separator occurs. */
  predicate Clean(s: string) {
    ';' !in s && ' ' !in s
  }

  predicate CleanEntry(e: Entry) {
    Clean(e.name) && Clean(e.target)
  }

  lemma SplitAt(a: string, c: char, b: string)
    requires c !in a
    ensures Split(a + [c] + b, [c]) == [a] + Split(b, [c])
  {
    CutAt(a, c, b);
  }

  lemma SplitWhole(a: string, c: char)
    requires c !in a
    ensures Split(a, [c]) == [a]
  {
    NoCut(a, c);
  }

  /** An entry is parsed back, with or without a space after it. */
  lemma ParseRendered(e: Entry, trail: string)
    requires CleanEntry(e) && trail in {"", " "}
    ensures ParseEntry(e.name + " " + e.target + trail) == Some(e)
  {
    assert e.name + " " + e.target + trail == e.name + " " + (e.target + trail);
    SplitAt(e.name, ' ', e.target + trail);
    if trail == "" {
      assert e.target + trail == e.target;
      SplitWhole(e.target, ' ');
    } else {
      assert e.target + trail == e.target + " " + "";
      SplitAt(e.target, ' ', "");
    }
  }

  /** What the last entry for the service says. */
  ghost predicate IsLastTarget(entries: seq<Entry>, service: string, otherwise: Option<string>, r: Option<string>) {
    if exists i :: 0 <= i < |entries| && entries[i].name == service then
      exists i ::
        && 0 <= i < |entries| && entries[i].name == service && r == Some(entries[i].target)
        && forall j :: i < j < |entries| ==> entries[j].name != service
    else r == otherwise
  }

  lemma {:induction false} RouteRendered(entries: seq<Entry>, spaced: seq<bool>, service: string, otherwise: Option<string>)
    requires |entries| == |spaced| && entries != []
    requires forall i :: 0 <= i < |entries| ==> CleanEntry(entries[i])
    ensures IsLastTarget(entries, service, otherwise, Route(service, Split(Network(entries, spaced), ";"), otherwise))
    decreases |entries|
  {
    var e := entries[0];
    var first := e.name + " " + e.target;
    var next := if e.name == service then Some(e.target) else otherwise;
    if |entries| == 1 {
      SplitWhole(first, ';');
      ParseRendered(e, "");
      assert first + "" == first;
      assert Route(service, [first], otherwise) == next;
      assert e.name == service ==> entries[0].name == service && next == Some(entries[0].target);
    } else {
      var trail := if spaced[0] then " " else "";
      var rest := Split(Network(entries[1..], spaced[1..]), ";");
      SplitAt(first + trail, ';', Network(entries[1..], spaced[1..]));
      ParseRendered(e, trail);
      RouteRendered(entries[1..], spaced[1..], service, next);
      assert Split(Network(entries, spaced), ";") == [first + trail] + rest;
      assert Route(service, [first + trail] + rest, otherwise) == Route(service, rest, next);
      LastOfTail(entries, service, otherwise, Route(service, rest, next));
    }
  }

  lemma LastOfTail(entries: seq<Entry>, service: string, otherwise: Option<string>, r: Option<string>)
    requires entries != []
    requires IsLastTarget(entries[1..], service,
                          if entries[0].name == service then Some(entries[0].target) else otherwise, r)
    ensures IsLastTarget(entries, service, otherwise, r)
  {
    var tail := entries[1..];
    if i :| 0 <= i < |tail| && tail[i].name == service {
      assert entries[i + 1].name == service;
      var k :| 0 <= k < |tail| && tail[k].name == service && r == Some(tail[k].target)
               && forall j :: k < j < |tail| ==> tail[j].name != service;
      forall j | k + 1 < j < |entries| ensures entries[j].name != service {
        assert entries[j] == tail[j - 1];
      }
      assert entries[k + 1] == tail[k];
    } else {
      forall j | 0 < j < |entries| ensures entries[j].name != service {
        assert entries[j] == tail[j - 1];
      }
    }
  }

  /** Routing round trip: ipcd finds the target of the last entry whose name is
      the requested service, or none. */
  lemma LookupRoundTrip(service: string, entries: seq<Entry>, spaced: seq<bool>)
    requires ';' !in service && |entries| == |spaced|
    requires forall i :: 0 <= i < |entries| ==> CleanEntry(entries[i])
    ensures IsLastTarget(entries, service, None, FinalDestination(Lookup(service, Network(entries, spaced))))
  {
    var network := Network(entries, spaced);
    SplitAt(service, ';', network);
    assert Split(Lookup(service, network), ";")[1..] == Split(network, ";");
    if entries == [] {
      SplitWhole("", ';');
      SplitWhole("", ' ');
    } else {
      RouteRendered(entries, spaced, service, None);
    }
  }
}
