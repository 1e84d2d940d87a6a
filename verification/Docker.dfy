/** The managed containers, reached through calls that can fail at any time. */
module Docker {
  import opened Common
  import opened FileSystem

  datatype Container = Container(
    id: string, name: string, key: string, rootId: string, instance: string,
    status: string, hostPort: int, createdAt: string)

  /** The containers that are (or are not) of this key, in order. */
  function Select(cs: seq<Container>, key: string, own: bool): seq<Container> {
    if cs == [] then []
    else (if (cs[0].key == key) == own then [cs[0]] else []) + Select(cs[1..], key, own)
  }

  function WithoutKey(cs: seq<Container>, key: string): seq<Container> {
    Select(cs, key, false)
  }

  function OfKey(cs: seq<Container>, key: string): seq<Container> {
    Select(cs, key, true)
  }

  lemma {:induction false} SelectMembers(cs: seq<Container>, key: string, own: bool)
    ensures forall c :: c in Select(cs, key, own) <==> c in cs && (c.key == key) == own
  {
    if cs != [] {
      SelectMembers(cs[1..], key, own);
      assert cs == [cs[0]] + cs[1..];
    }
  }

  predicate DistinctIds(cs: seq<Container>) {
    forall i, j :: 0 <= i < j < |cs| ==> cs[i].id != cs[j].id
  }

  lemma {:induction false} SelectConcat(a: seq<Container>, b: seq<Container>, key: string, own: bool)
    ensures Select(a + b, key, own) == Select(a, key, own) + Select(b, key, own)
  {
    if a == [] {
      assert a + b == b;
    } else {
      SelectConcat(a[1..], b, key, own);
      assert (a + b)[1..] == a[1..] + b && (a + b)[0] == a[0];
      var head := if (a[0].key == key) == own then [a[0]] else [];
      var rest, tail := Select(a[1..], key, own), Select(b, key, own);
      assert head + (rest + tail) == (head + rest) + tail;
    }
  }

  lemma KeyConcat(a: seq<Container>, b: seq<Container>, key: string)
    ensures WithoutKey(a + b, key) == WithoutKey(a, key) + WithoutKey(b, key)
    ensures OfKey(a + b, key) == OfKey(a, key) + OfKey(b, key)
  {
    SelectConcat(a, b, key, true);
    SelectConcat(a, b, key, false);
  }

  /** The first container of a key, as the filtered container list returns it. */
  function FirstOf(cs: seq<Container>, key: string): Option<Container> {
    if OfKey(cs, key) == [] then None else Some(OfKey(cs, key)[0])
  }

  /** The container found for a key is the first one of that key in the list. */
  lemma {:induction false} FirstOfIsFirst(cs: seq<Container>, key: string)
    ensures match FirstOf(cs, key)
            case None => forall c :: c in cs ==> c.key != key
            case Some(c) => exists i :: 0 <= i < |cs| && cs[i] == c && c.key == key
                                        && forall j :: 0 <= j < i ==> cs[j].key != key
  {
    if cs != [] {
      if cs[0].key == key {
        assert FirstOf(cs, key) == Some(cs[0]);
      } else {
        FirstOfIsFirst(cs[1..], key);
        assert FirstOf(cs, key) == FirstOf(cs[1..], key);
        if FirstOf(cs, key).Some? {
          var i :| 0 <= i < |cs[1..]| && cs[1..][i] == FirstOf(cs, key).value
                   && forall j :: 0 <= j < i ==> cs[1..][j].key != key;
          assert cs[i + 1] == FirstOf(cs, key).value;
          assert forall j :: 0 <= j < i + 1 ==> cs[j].key != key by {
            forall j | 0 <= j < i + 1
              ensures cs[j].key != key
            {
              if j > 0 { assert cs[j] == cs[1..][j - 1]; }
            }
          }
        }
      }
    }
  }

  /** The list around position i, without it or with another container of its key there. */
  lemma Around(cs: seq<Container>, i: nat, c: Container)
    requires i < |cs| && cs[i].key == c.key
    ensures WithoutKey(cs[..i] + cs[i + 1..], c.key) == WithoutKey(cs, c.key) == WithoutKey(cs[i := c], c.key)
    ensures |OfKey(cs[..i] + cs[i + 1..], c.key)| == |OfKey(cs, c.key)| - 1
      && |OfKey(cs[i := c], c.key)| == |OfKey(cs, c.key)|
  {
    var before, after, key := cs[..i], cs[i + 1..], c.key;
    KeyConcat(before, after, key);
    KeyConcat(before, [cs[i]] + after, key);
    KeyConcat(before, [c] + after, key);
    assert cs == before + ([cs[i]] + after) && cs[i := c] == before + ([c] + after);
    assert ([cs[i]] + after)[1..] == after && ([c] + after)[1..] == after;
  }

  /** Removing a container, or changing one without its id, keeps the ids distinct. */
  lemma AroundDistinct(cs: seq<Container>, i: nat, c: Container)
    requires DistinctIds(cs) && i < |cs| && cs[i].id == c.id
    ensures DistinctIds(cs[..i] + cs[i + 1..]) && DistinctIds(cs[i := c])
  {
    var rest := cs[..i] + cs[i + 1..];
    forall j, k | 0 <= j < k < |rest|
      ensures rest[j].id != rest[k].id
    {
      assert rest[j] == cs[if j < i then j else j + 1] && rest[k] == cs[if k < i then k else k + 1];
    }
  }

  /** What a call about one key may do to the list: the other keys keep theirs. */
  predicate OnlyContainersOf(before: seq<Container>, after: seq<Container>, key: string) {
    WithoutKey(after, key) == WithoutKey(before, key)
  }

  /** The calls that change containers. */
  datatype DockerCall = StopCall(id: string) | RestartCall(id: string) | RemoveCall(id: string) | CreateCall(id: string)

  /** The container asked for, up to what Docker assigns. */
  predicate SameContainer(c: Container, asked: Container) {
    c == asked.(id := c.id, hostPort := c.hostPort)
  }

  /** The container a failed creation leaves: Docker decides its state as well. */
  predicate LeftBehind(c: Container, asked: Container) {
    SameContainer(c, asked.(status := c.status))
  }

  class DockerClient {
    const fs: DataDir
    var containers: seq<Container>
    // The calls Docker has carried out.
    ghost var log: seq<DockerCall>
    // Some call did not succeed.
    ghost var troubled: bool

    constructor (fs: DataDir)
      ensures this.fs == fs && containers == [] && log == [] && !troubled
    {
      this.fs := fs;
      containers, log, troubled := [], [], false;
    }

    /** A dead process issues no calls; a live one may still see them fail. */
    method Reach() returns (ok: bool)
      modifies this`troubled
      ensures ok ==> !fs.halted && troubled == old(troubled)
      ensures !ok ==> troubled
    {
      var fails: bool := *;
      ok := !fs.halted && !fails;
      if !ok {
        troubled := true;
      }
    }

    method FindAgentContainer(key: string) returns (found: Result<Option<Container>, ()>)
      modifies this`troubled
      ensures found.Ok? ==> found.value == FirstOf(containers, key) && troubled == old(troubled)
      ensures found.Err? ==> troubled
    {
      var ok := Reach();
      found := if ok then Ok(FirstOf(containers, key)) else Err(());
    }

    method ListManagedContainers() returns (all: Result<seq<Container>, ()>)
      modifies this`troubled
      ensures all.Ok? ==> all.value == containers && troubled == old(troubled)
      ensures all.Err? ==> troubled
    {
      var ok := Reach();
      all := if ok then Ok(containers) else Err(());
    }

    /** CreateAgentContainer: an error can still leave the new container behind. */
    method CreateAgentContainer(c: Container) returns (created: Result<Container, ()>)
      requires DistinctIds(containers)
      modifies this
      ensures DistinctIds(containers) && (old(troubled) ==> troubled)
      ensures created.Ok? ==> containers == [created.value] + old(containers) && SameContainer(created.value, c)
      ensures created.Ok? ==> log == old(log) + [CreateCall(created.value.id)]
      ensures created.Err? ==> troubled
      ensures created.Err? ==> containers == old(containers)
                               || (|containers| > 0 && containers[1..] == old(containers)
                                   && LeftBehind(containers[0], c))
    {
      var ok := Reach();
      if !ok {
        return Err(());
      }
      var id: string, port: int := *, *;
      // starting the container can fail, and so can its removal after that, or its inspection
      var late: bool, removed: bool, status: string := *, *, *;
      if exists i :: 0 <= i < |containers| && containers[i].id == id {
        troubled := true;
        return Err(());
      }
      var made := c.(id := id, hostPort := port);
      if !late {
        containers, log := [made] + containers, log + [CreateCall(id)];
        return Ok(made);
      }
      troubled := true;
      if !removed {
        containers, log := [made.(status := status)] + containers, log + [CreateCall(id)];
      }
      created := Err(());
    }

    /** StopContainer and RestartContainer: at most the state of this container changes. */
    method ChangeState(c: Container, restart: bool) returns (ok: bool)
      requires DistinctIds(containers) && c in containers
      modifies this
      ensures DistinctIds(containers) && OnlyContainersOf(old(containers), containers, c.key)
      ensures |OfKey(containers, c.key)| == |OfKey(old(containers), c.key)|
      ensures exists i :: 0 <= i < |containers| && containers[i].id == c.id && containers[i].key == c.key
      ensures ok ==> log == old(log) + [if restart then RestartCall(c.id) else StopCall(c.id)]
      ensures old(troubled) ==> troubled
      ensures !ok ==> troubled
    {
      ok := Reach();
      var status: string, touched: bool := *, *;
      var i :| 0 <= i < |containers| && containers[i] == c;
      Around(containers, i, c.(status := status));
      AroundDistinct(containers, i, c.(status := status));
      if !fs.halted && (ok || touched) {
        containers := containers[i := c.(status := status)];
        log := log + [if restart then RestartCall(c.id) else StopCall(c.id)];
      }
      assert containers[i].id == c.id;
    }

    /** RemoveContainer: success means the container is gone; after an error it may be. */
    method RemoveContainer(id: string, ghost key: string) returns (ok: bool)
      requires DistinctIds(containers)
      requires exists i :: 0 <= i < |containers| && containers[i].id == id && containers[i].key == key
      modifies this
      ensures DistinctIds(containers) && OnlyContainersOf(old(containers), containers, key)
      ensures |OfKey(containers, key)| == |OfKey(old(containers), key)| - 1 || (!ok && containers == old(containers))
      ensures ok ==> log == old(log) + [RemoveCall(id)]
      ensures old(troubled) ==> troubled
      ensures !ok ==> troubled
    {
      ok := Reach();
      var gone: bool := *;
      var i :| 0 <= i < |containers| && containers[i].id == id;
      Around(containers, i, containers[i]);
      AroundDistinct(containers, i, containers[i]);
      if !fs.halted && (ok || gone) {
        containers := containers[..i] + containers[i + 1..];
        log := log + [RemoveCall(id)];
      }
    }
  }
}
