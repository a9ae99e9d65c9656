/** Deterministic socket unification (`sockets.rs`) and the humility pass that follows it in
    `enrich.rs`. */
module Sockets {
  import opened Atlas

  predicate IsSeparator(c: char) {
    c == ':' || c == '.' || c == '/'
  }

  function TrailingWord(s: string): string {
    if s == [] || IsSeparator(s[|s| - 1]) then [] else TrailingWord(s[..|s| - 1]) + [s[|s| - 1]]
  }

  /** The last non-empty segment, if there is one. */
  function LastSegment(s: string): string {
    if s == [] then []
    else if IsSeparator(s[|s| - 1]) then LastSegment(s[..|s| - 1])
    else TrailingWord(s)
  }

  /** The name a shape is matched by: its last non-empty segment, or all of it. */
  function MatchName(qualified: string): string {
    var segment := LastSegment(qualified);
    if segment == [] then qualified else segment
  }

  /** One provider fits, none and several are holes: an ambiguity is never chosen among. */
  function ResolveAgainst(candidates: seq<Id>): Resolution {
    if |candidates| == 0 then Hole(NoMatch, [], false)
    else if |candidates| == 1 then Fit(candidates[0], Unique, Unconfirmed, None, Unchecked, InferredFit, "0.5")
    else Hole(Ambiguous, candidates, false)
  }

  /** A missing provider whose name the repository defines somewhere is unknown, not absent. */
  function Humbled(r: Resolution, defined: set<string>, wanted: string): Resolution {
    if r.Hole? && r.reason == NoMatch && wanted in defined then Unresolved else r
  }

  /** The sockets of a list of entities, in iteration order. */
  function AllSockets(entities: seq<Entity>): seq<Socket> {
    if entities == [] then []
    else AllSockets(entities[..|entities| - 1]) + entities[|entities| - 1].sockets
  }

  function Offers(s: Socket, name: string): bool {
    s.direction == Provides && MatchName(s.shape.name) == name
  }

  /** The provider ids for a name, in order. */
  function ProvidersOf(sockets: seq<Socket>, name: string): seq<Id> {
    if sockets == [] then []
    else
      var last := sockets[|sockets| - 1];
      ProvidersOf(sockets[..|sockets| - 1], name) + (if Offers(last, name) then [last.id] else [])
  }

  /** What the reconciler and the humility pass make of one socket. */
  function Settle(s: Socket, all: seq<Socket>, defined: set<string>): Socket {
    if s.direction != Requires then s
    else
      var wanted := MatchName(s.shape.name);
      s.(resolution := Humbled(ResolveAgainst(ProvidersOf(all, wanted)), defined, wanted))
  }

  function SettleAll(sockets: seq<Socket>, all: seq<Socket>, defined: set<string>): (r: seq<Socket>)
    ensures |r| == |sockets| && forall i :: 0 <= i < |r| ==> r[i] == Settle(sockets[i], all, defined)
  {
    if sockets == [] then []
    else SettleAll(sockets[..|sockets| - 1], all, defined) + [Settle(sockets[|sockets| - 1], all, defined)]
  }

  /** The snapshot after matching: every required socket decided against the whole of it. */
  function Finished(entities: seq<Entity>, defined: set<string>): (r: seq<Entity>)
    ensures |r| == |entities|
    ensures forall i :: 0 <= i < |r| ==> r[i] == entities[i].(sockets := SettleAll(entities[i].sockets, AllSockets(entities), defined))
  {
    seq(|entities|, i requires 0 <= i < |entities| =>
      entities[i].(sockets := SettleAll(entities[i].sockets, AllSockets(entities), defined)))
  }

  // ---- What matching means ----

  lemma {:induction false} TrailingWordIs(s: string)
    ensures var n := |s| - |TrailingWord(s)|;
            && 0 <= n && s[n..] == TrailingWord(s) && (n > 0 ==> IsSeparator(s[n - 1]))
            && forall k :: n <= k < |s| ==> !IsSeparator(s[k])
  {
    if s != [] && !IsSeparator(s[|s| - 1]) {
      TrailingWordIs(s[..|s| - 1]);
    }
  }

  /** The segment `q[i..j]`: no separator in it, one before it unless it starts the name, and
      nothing but separators after it. */
  ghost predicate IsLastSegment(q: string, i: int, j: int) {
    && 0 <= i < j <= |q| && (i > 0 ==> IsSeparator(q[i - 1]))
    && (forall k :: i <= k < j ==> !IsSeparator(q[k])) && (forall k :: j <= k < |q| ==> IsSeparator(q[k]))
  }

  lemma SeparatorAfter(q: string, i: int, j: int)
    requires q != [] && IsSeparator(q[|q| - 1]) && IsLastSegment(q[..|q| - 1], i, j)
    ensures IsLastSegment(q, i, j) && q[i..j] == q[..|q| - 1][i..j]
  {
  }

  lemma {:induction false} LastSegmentIs(q: string)
    ensures (forall k :: 0 <= k < |q| ==> IsSeparator(q[k])) ==> LastSegment(q) == []
    ensures (exists k :: 0 <= k < |q| && !IsSeparator(q[k])) ==>
              exists i, j :: IsLastSegment(q, i, j) && q[i..j] == LastSegment(q)
  {
    hide TrailingWord, IsSeparator;
    if q != [] {
      var n := |q| - 1;
      if IsSeparator(q[n]) {
        LastSegmentIs(q[..n]);
        if i, j :| IsLastSegment(q[..n], i, j) && q[..n][i..j] == LastSegment(q[..n]) {
          SeparatorAfter(q, i, j);
        }
      } else {
        TrailingWordIs(q);
        var i := |q| - |TrailingWord(q)|;
        assert IsLastSegment(q, i, |q|) && q[i..|q|] == q[i..];
      }
    }
  }

  /** A shape is matched by its last non-empty segment, or by all of its name when it has none. */
  lemma MatchNameIs(q: string)
    ensures (forall k :: 0 <= k < |q| ==> IsSeparator(q[k])) ==> MatchName(q) == q
    ensures (exists k :: 0 <= k < |q| && !IsSeparator(q[k])) ==>
              exists i, j :: IsLastSegment(q, i, j) && q[i..j] == MatchName(q)
  {
    LastSegmentIs(q);
  }

  /** Re-exporting an item under another path does not change the name it is matched by. */
  lemma ReexportKeepsName(path: string, name: string)
    requires name != "" && forall k :: 0 <= k < |name| ==> !IsSeparator(name[k])
    ensures MatchName(path + "::" + name) == name && MatchName(name) == name
  {
    TrailingIs(path + "::", name);
    TrailingIs("", name);
    assert path + "::" + name == (path + "::") + name && "" + name == name;
  }

  lemma {:induction false} TrailingIs(before: string, name: string)
    requires forall k :: 0 <= k < |name| ==> !IsSeparator(name[k])
    requires before == "" || IsSeparator(before[|before| - 1])
    ensures TrailingWord(before + name) == name
  {
    if name == "" {
      assert before + name == before;
    } else {
      var n := |name| - 1;
      assert (before + name)[..|before + name| - 1] == before + name[..n];
      TrailingIs(before, name[..n]);
    }
  }

  ghost predicate Increasing(places: seq<int>) {
    forall i, j :: 0 <= i < j < |places| ==> places[i] < places[j]
  }

  /** The places of the providers of a name: all of them, in order, and their ids. */
  ghost predicate InPlaces(all: seq<Socket>, name: string, ids: seq<Id>, places: seq<int>) {
    && Increasing(places) && |places| == |ids|
    && (forall i :: i in places <==> 0 <= i < |all| && Offers(all[i], name))
    && (forall k :: 0 <= k < |places| ==> 0 <= places[k] < |all| && ids[k] == all[places[k]].id)
  }

  lemma MorePlaces(all: seq<Socket>, name: string, ids: seq<Id>, places: seq<int>, s: Socket)
    requires InPlaces(all, name, ids, places)
    ensures Offers(s, name) ==> InPlaces(all + [s], name, ids + [s.id], places + [|all|])
    ensures !Offers(s, name) ==> InPlaces(all + [s], name, ids, places)
  {
    hide Offers;
    var more := all + [s];
    assert more[|all|] == s && forall i :: 0 <= i < |all| ==> more[i] == all[i];
    assert forall k :: 0 <= k < |places| ==> places[k] in places;
  }

  lemma {:induction false} ProvidersPlaced(all: seq<Socket>, name: string) returns (places: seq<int>)
    ensures InPlaces(all, name, ProvidersOf(all, name), places)
  {
    hide Offers, InPlaces;
    if all == [] {
      places := [];
      NoPlaces(name);
    } else {
      var n := |all| - 1;
      places := ProvidersPlaced(all[..n], name);
      MorePlaces(all[..n], name, ProvidersOf(all[..n], name), places, all[n]);
      assert all == all[..n] + [all[n]];
      if Offers(all[n], name) {
        places := places + [n];
      } else {
        assert ProvidersOf(all[..n], name) + [] == ProvidersOf(all[..n], name);
      }
    }
  }

  lemma NoPlaces(name: string)
    ensures InPlaces([], name, ProvidersOf([], name), [])
  {
  }

  /** What a required socket's outcome says about the whole snapshot: a fit names the one provider
      there is, an ambiguity lists exactly the several in their order, and a hole with no match
      means that nothing provides the name and nothing defines it. */
  lemma OutcomeMeans(s: Socket, all: seq<Socket>, defined: set<string>) returns (places: seq<int>)
    requires s.direction == Requires
    ensures Increasing(places)
    ensures forall i :: i in places <==> 0 <= i < |all| && Offers(all[i], MatchName(s.shape.name))
    ensures forall k :: 0 <= k < |places| ==> 0 <= places[k] < |all|
    ensures var r := Settle(s, all, defined).resolution;
            && (r.Fit? <==> |places| == 1) && (r.Fit? ==> r.provider == all[places[0]].id)
            && (r.Hole? && r.reason == Ambiguous <==> |places| > 1)
            && (r.Hole? && r.reason == Ambiguous ==>
                  |r.candidates| == |places| && forall k :: 0 <= k < |places| ==> r.candidates[k] == all[places[k]].id)
            && (r.Hole? && r.reason == NoMatch <==> places == [] && MatchName(s.shape.name) !in defined)
            && (r.Unresolved? <==> places == [] && MatchName(s.shape.name) in defined)
  {
    hide MatchName, ProvidersOf;
    places := ProvidersPlaced(all, MatchName(s.shape.name));
  }

  // ---- The passes of the source ----

  function At<T>(index: map<string, seq<T>>, name: string): seq<T> {
    if name in index then index[name] else []
  }

  lemma ProvidersAppend(sockets: seq<Socket>, s: Socket, name: string)
    ensures ProvidersOf(sockets + [s], name) == ProvidersOf(sockets, name) + (if Offers(s, name) then [s.id] else [])
  {
    assert (sockets + [s])[..|sockets|] == sockets;
  }

  method IndexEntity(providers: map<string, seq<Id>>, sockets: seq<Socket>, ghost before: seq<Socket>)
    returns (index: map<string, seq<Id>>)
    requires forall name :: At(providers, name) == ProvidersOf(before, name)
    ensures forall name :: At(index, name) == ProvidersOf(before + sockets, name)
  {
    hide ProvidersOf, MatchName;
    index := providers;
    assert before + sockets[..0] == before;
    for j := 0 to |sockets|
      invariant forall name :: At(index, name) == ProvidersOf(before + sockets[..j], name)
    {
      var s := sockets[j];
      assert before + sockets[..j + 1] == (before + sockets[..j]) + [s];
      forall name { ProvidersAppend(before + sockets[..j], s, name); }
      if s.direction == Provides {
        var name := MatchName(s.shape.name);
        index := index[name := At(index, name) + [s.id]];
      }
    }
    assert before + sockets[..|sockets|] == before + sockets;
  }

  method IndexProviders(entities: seq<Entity>) returns (index: map<string, seq<Id>>)
    ensures forall name :: At(index, name) == ProvidersOf(AllSockets(entities), name)
  {
    index := map[];
    for i := 0 to |entities|
      invariant forall name :: At(index, name) == ProvidersOf(AllSockets(entities[..i]), name)
    {
      assert entities[..i + 1][..i] == entities[..i];
      index := IndexEntity(index, entities[i].sockets, AllSockets(entities[..i]));
    }
    assert entities[..|entities|] == entities;
  }

  method ResolveEntity(sockets: seq<Socket>, index: map<string, seq<Id>>, defined: set<string>, ghost all: seq<Socket>)
    returns (r: seq<Socket>)
    requires forall name :: At(index, name) == ProvidersOf(all, name)
    ensures r == SettleAll(sockets, all, defined)
  {
    r := [];
    for j := 0 to |sockets|
      invariant |r| == j && forall i :: 0 <= i < j ==> r[i] == Settle(sockets[i], all, defined)
    {
      var s := sockets[j];
      if s.direction == Requires {
        var wanted := MatchName(s.shape.name);
        s := s.(resolution := ResolveAgainst(At(index, wanted)));
        if s.resolution.Hole? && s.resolution.reason == NoMatch && wanted in defined {
          s := s.(resolution := Unresolved);
        }
      }
      r := r + [s];
    }
  }

  /** `resolve_sockets` followed by the humility pass: providers are indexed before any socket
      is written, so every required socket sees the whole snapshot. */
  method Finish(entities: array<Entity>, defined: set<string>)
    modifies entities
    ensures entities[..] == Finished(old(entities[..]), defined)
  {
    hide Settle, SettleAll, ProvidersOf, AllSockets;
    var es := entities[..];
    var index := IndexProviders(es);
    ghost var all := AllSockets(es);
    for i := 0 to |es|
      invariant forall k :: 0 <= k < i ==> entities[k] == es[k].(sockets := SettleAll(es[k].sockets, all, defined))
      invariant forall k :: i <= k < |es| ==> entities[k] == es[k]
    {
      var sockets := ResolveEntity(es[i].sockets, index, defined, all);
      entities[i] := es[i].(sockets := sockets);
    }
  }
}
