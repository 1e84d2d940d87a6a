/** Detection of reference cycles by depth-first search with three colours. */
module Cycle {
  import opened Common
  import opened Model

  datatype Color = White | Gray | Black

  /** The reported walk and the reference that closes it. */
  datatype Found = Found(path: seq<string>, ref: string)

  /** What a report claims: the path followed by the reference is a walk whose suffix is a cycle. */
  predicate Genuine(refs: map<string, seq<string>>, f: Found) {
    && f.path != [] && IsWalk(refs, f.path + [f.ref])
    && f.ref in f.path
  }

  lemma GenuineMeansCycle(refs: map<string, seq<string>>, f: Found)
    requires Genuine(refs, f)
    ensures exists k :: 0 <= k < |f.path| && IsCycle(refs, f.path[k..] + [f.ref])
    ensures HasCycle(refs)
  {
    var k :| 0 <= k < |f.path| && f.path[k] == f.ref;
    var whole, suffix := f.path + [f.ref], f.path[k..] + [f.ref];
    assert forall i :: 0 <= i < |suffix| ==> suffix[i] == whole[k + i];
    assert IsCycle(refs, suffix);
  }

  /** References lead to agents of smaller rank. */
  ghost predicate Ranked(refs: map<string, seq<string>>, rank: map<string, nat>) {
    forall id, ref :: id in rank && id in refs && ref in refs[id] ==> ref in rank && rank[ref] < rank[id]
  }

  lemma {:induction false} RankFalls(refs: map<string, seq<string>>, rank: map<string, nat>, walk: seq<string>)
    requires Ranked(refs, rank) && IsWalk(refs, walk) && |walk| >= 1 && walk[0] in rank
    ensures walk[|walk| - 1] in rank && (|walk| >= 2 ==> rank[walk[|walk| - 1]] < rank[walk[0]])
  {
    if |walk| >= 2 {
      var init := walk[..|walk| - 1];
      RankFalls(refs, rank, init);
      assert walk[|walk| - 2] == init[|init| - 1];
      assert walk[|walk| - 2 + 1] in refs[walk[|walk| - 2]];
    }
  }

  lemma RankedMeansAcyclic(refs: map<string, seq<string>>, rank: map<string, nat>)
    requires Ranked(refs, rank) && refs.Keys <= rank.Keys
    ensures !HasCycle(refs)
  {
    forall walk | IsCycle(refs, walk)
      ensures false
    {
      assert walk[0] in refs;
      RankFalls(refs, rank, walk);
    }
  }

  /** Reading a Go map: an absent key is the zero value. */
  function Look(color: map<string, Color>, id: string): Color {
    if id in color then color[id] else White
  }

  /** The invariant of the search: black agents, and only they, have a rank, given in the
      order in which they were finished. */
  ghost predicate Consistent(refs: map<string, seq<string>>, color: map<string, Color>, rank: map<string, nat>) {
    && color.Keys <= refs.Keys
    && (forall id :: id in rank <==> Look(color, id) == Black)
    && (forall id :: id in rank ==> rank[id] < |rank|)
    && Ranked(refs, rank)
  }

  /** The gray agents are exactly those on the current path. */
  ghost predicate GrayIs(color: map<string, Color>, path: seq<string>) {
    forall id :: Look(color, id) == Gray <==> id in path
  }

  ghost function WhiteIn(refs: map<string, seq<string>>, color: map<string, Color>): set<string> {
    set id | id in refs && Look(color, id) == White
  }

  ghost predicate BlackStays(before: map<string, Color>, after: map<string, Color>) {
    forall id :: Look(before, id) == Black ==> Look(after, id) == Black
  }

  ghost predicate AllBlack(color: map<string, Color>, ids: seq<string>) {
    forall i :: 0 <= i < |ids| ==> Look(color, ids[i]) == Black
  }

  lemma BlackGrows(before: map<string, Color>, after: map<string, Color>, ids: seq<string>, n: nat)
    requires BlackStays(before, after) && n < |ids|
    requires AllBlack(before, ids[..n]) && Look(after, ids[n]) == Black
    ensures AllBlack(after, ids[..n + 1])
  {
    assert forall i :: 0 <= i < n ==> ids[..n + 1][i] == ids[..n][i];
  }

  lemma Enter(refs: map<string, seq<string>>, color: map<string, Color>, rank: map<string, nat>,
              id: string, path: seq<string>)
    requires Consistent(refs, color, rank) && GrayIs(color, path)
    requires id in refs && Look(color, id) == White
    ensures var gray := color[id := Gray];
            && Consistent(refs, gray, rank) && GrayIs(gray, path + [id])
            && WhiteIn(refs, gray) == WhiteIn(refs, color) - {id}
  {
    var gray := color[id := Gray];
    forall other | other != id
      ensures Look(gray, other) == Look(color, other)
    {
    }
  }

  lemma RankNext(refs: map<string, seq<string>>, rank: map<string, nat>, id: string)
    requires Ranked(refs, rank) && id in refs && id !in rank
    requires forall other :: other in rank ==> rank[other] < |rank|
    requires forall ref :: ref in refs[id] ==> ref in rank
    ensures var rank' := rank[id := |rank|];
            Ranked(refs, rank') && forall other :: other in rank' ==> rank'[other] < |rank'|
  {
    var rank' := rank[id := |rank|];
    assert rank'.Keys == rank.Keys + {id};
    assert |rank'| == |rank'.Keys| == |rank| + 1;
    forall other, ref | other in rank' && other in refs && ref in refs[other]
      ensures ref in rank' && rank'[ref] < rank'[other]
    {
      assert ref in rank;
    }
  }

  lemma GrayStep(color: map<string, Color>, color': map<string, Color>, id: string, path: seq<string>)
    requires GrayIs(color, path + [id]) && id !in path
    requires Look(color', id) == Black && forall other :: other != id ==> Look(color', other) == Look(color, other)
    ensures GrayIs(color', path)
  {
    forall other
      ensures Look(color', other) == Gray <==> other in path
    {
      assert other in path + [id] <==> other in path || other == id;
    }
  }

  lemma Leave(refs: map<string, seq<string>>, color: map<string, Color>, rank: map<string, nat>,
              id: string, path: seq<string>)
    requires Consistent(refs, color, rank) && GrayIs(color, path + [id])
    requires id in refs && id !in path
    requires AllBlack(color, refs[id])
    ensures id !in rank
    ensures var black := color[id := Black];
            && Consistent(refs, black, rank[id := |rank|]) && GrayIs(black, path)
            && WhiteIn(refs, black) == WhiteIn(refs, color)
  {
    assert id in path + [id];
    assert Look(color, id) == Gray;
    RankNext(refs, rank, id);
    GrayStep(color, color[id := Black], id, path);
  }

  lemma ExtendWalk(refs: map<string, seq<string>>, walk: seq<string>, ref: string)
    requires walk != [] && IsWalk(refs, walk)
    requires walk[|walk| - 1] in refs && ref in refs[walk[|walk| - 1]]
    ensures IsWalk(refs, walk + [ref])
  {
  }

  class Detector {
    const refs: map<string, seq<string>>
    var color: map<string, Color>
    ghost var rank: map<string, nat>

    constructor (refs: map<string, seq<string>>)
      ensures this.refs == refs && color == map[] && rank == map[]
    {
      this.refs := refs;
      color, rank := map[], map[];
    }

    method Visit(id: string, path: seq<string>) returns (found: Option<Found>)
      requires Closed(refs) && Consistent(refs, color, rank) && GrayIs(color, path)
      requires id in refs && Look(color, id) == White
      requires IsWalk(refs, path + [id])
      modifies this
      ensures found.Some? ==> Genuine(refs, found.value)
      ensures found.None? ==> Consistent(refs, color, rank) && GrayIs(color, path)
      ensures found.None? ==> Look(color, id) == Black && BlackStays(old(color), color)
      ensures found.None? ==> WhiteIn(refs, color) < WhiteIn(refs, old(color))
      decreases WhiteIn(refs, color)
    {
      Enter(refs, color, rank, id, path);
      assert id in WhiteIn(refs, color) && id !in path;
      ghost var white, before := WhiteIn(refs, color), color;
      color := color[id := Gray];
      var here := path + [id];
      var subs := refs[id];
      for i := 0 to |subs|
        invariant Consistent(refs, color, rank) && GrayIs(color, here)
        invariant WhiteIn(refs, color) < white
        invariant BlackStays(before, color)
        invariant AllBlack(color, subs[..i])
      {
        var ref := subs[i];
        ExtendWalk(refs, here, ref);
        ghost var prior := color;
        match Look(color, ref) {
          case Gray =>
            return Some(Found(here, ref));
          case White =>
            found := Visit(ref, here);
            if found.Some? {
              return;
            }
          case Black =>
        }
        BlackGrows(prior, color, subs, i);
      }
      assert subs[..|subs|] == subs;
      Leave(refs, color, rank, id, path);
      color := color[id := Black];
      rank := rank[id := |rank|];
      found := None;
    }
  }

  /** Fails exactly when the references contain a cycle, whatever the order in which the
      map of agents is traversed; the report is then a genuine one. */
  method DetectSubagentCycle(agents: seq<Agent>) returns (found: Option<Found>)
    requires Closed(References(agents))
    ensures found.Some? <==> HasCycle(References(agents))
    ensures found.Some? ==> Genuine(References(agents), found.value)
  {
    var refs: map<string, seq<string>> := map[];
    for i := 0 to |agents|
      invariant refs == References(agents[..i])
    {
      refs := refs[agents[i].name := Elems(agents[i].subagents)];
      assert agents[..i + 1][..i] == agents[..i];
    }
    assert agents[..|agents|] == agents;
    var detector := new Detector(refs);
    var pending := refs.Keys;
    while pending != {}
      invariant pending <= refs.Keys
      invariant detector.refs == refs && fresh(detector)
      invariant Consistent(refs, detector.color, detector.rank) && GrayIs(detector.color, [])
      invariant forall id :: id in refs && id !in pending ==> Look(detector.color, id) == Black
      decreases pending
    {
      var id :| id in pending;
      if Look(detector.color, id) == White {
        found := detector.Visit(id, []);
        if found.Some? {
          GenuineMeansCycle(refs, found.value);
          return;
        }
      }
      pending := pending - {id};
    }
    RankedMeansAcyclic(refs, detector.rank);
    found := None;
  }
}
