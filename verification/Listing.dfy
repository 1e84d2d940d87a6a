/** From the collected responses to their listing. */
module Listing {
  import opened Common
  import opened Docker
  import opened Lifecycle
  import Order
  import Paths

  predicate KeysDistinct(out: seq<Response>) {
    forall i, j :: 0 <= i < j < |out| ==> out[i].key != out[j].key
  }

  /** The sequence holds the values of the map, each once. */
  predicate AreValues(m: map<string, Response>, out: seq<Response>) {
    && KeysDistinct(out)
    && (forall r :: r in out ==> r.key in m && m[r.key] == r)
    && (forall key :: key in m ==> m[key] in out)
  }

  /** More keys, more responses. */
  lemma CompletedExtends(dataDir: Paths.Root, active: map<string, Response>, some: set<string>, all: set<string>)
    requires some <= all
    ensures Extends(active, Completed(dataDir, active, some))
    ensures Extends(Completed(dataDir, active, some), Completed(dataDir, active, all))
  {
  }

  lemma CompletedSnoc(dataDir: Paths.Root, active: map<string, Response>, keys: set<string>, name: string)
    ensures Completed(dataDir, active, keys + {name})
            == if name in Completed(dataDir, active, keys) then Completed(dataDir, active, keys)
               else Completed(dataDir, active, keys)[name := ToArchivedResponse(dataDir, name)]
  {
    hide ToArchivedResponse;
  }

  /** The part of List that adds the archived deployments. */
  method AddArchived(dataDir: Paths.Root, active: map<string, Response>, names: seq<string>)
    returns (all: map<string, Response>)
    ensures all == Completed(dataDir, active, ToSet(names))
  {
    all := active;
    for i := 0 to |names|
      invariant all == Completed(dataDir, active, ToSet(names[..i]))
    {
      assert names[..i + 1] == names[..i] + [names[i]];
      ToSetSnoc(names[..i], names[i]);
      CompletedSnoc(dataDir, active, ToSet(names[..i]), names[i]);
      if names[i] !in all {
        all := all[names[i] := ToArchivedResponse(dataDir, names[i])];
      }
    }
    assert names[..|names|] == names;
  }

  /** The values of a map, each once, in the order in which the map happens to be traversed. */
  method Values(m: map<string, Response>) returns (out: seq<Response>)
    requires forall key :: key in m ==> m[key].key == key
    ensures AreValues(m, out)
  {
    out := [];
    var pending := m.Keys;
    while pending != {}
      invariant pending <= m.Keys
      invariant KeysDistinct(out)
      invariant forall r :: r in out ==> r.key in m && r.key !in pending && m[r.key] == r
      invariant forall key :: key in m && key !in pending ==> m[key] in out
      decreases pending
    {
      var key :| key in pending;
      out := out + [m[key]];
      pending := pending - {key};
    }
  }

  lemma {:induction false} ContainerResponsesKnowTheirKeys(dataDir: Paths.Root, cs: seq<Container>)
    ensures forall key :: key in ContainerResponses(dataDir, cs) ==> ContainerResponses(dataDir, cs)[key].key == key
  {
    if cs != [] {
      ContainerResponsesKnowTheirKeys(dataDir, cs[..|cs| - 1]);
    }
  }

  /** Sorting the values of a map by their keys gives its listing. */
  lemma SortedIsListing(m: map<string, Response>, out: seq<Response>)
    requires AreValues(m, out)
    ensures IsListing(m, Order.SortBy(out, (r: Response) => r.key))
  {
    var key := (r: Response) => r.key;
    var sorted := Order.SortBy(out, key);
    Order.SortByIsSort(out, key);
    Order.SameMembers(out, sorted);
    assert Distinct(out);
    forall i, j | 0 <= i < j < |sorted|
      ensures Order.LexLe(sorted[i].key, sorted[j].key) && sorted[i].key != sorted[j].key
    {
      assert Order.LexLe(key(sorted[i]), key(sorted[j]));
      Order.PermutationIsDistinct(out, sorted, i, j);
      assert sorted[i] in sorted && sorted[j] in sorted;
    }
  }
}
