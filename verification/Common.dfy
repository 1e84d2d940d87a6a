/** Vocabulary shared by every module: option and result types, and Go's slices. */
module Common {

  datatype Option<+T> = None | Some(value: T)

  datatype Result<+T, +E> = Ok(value: T) | Err(error: E)

  /** A Go string or []byte: each char stands for one byte. */
  type Bytes = string

  /** A Go slice: a nil slice (None) differs from an empty one (Some([])). */
  type Slice<T> = Option<seq<T>>

  function Elems<T>(s: Slice<T>): seq<T> {
    match s
    case None => []
    case Some(items) => items
  }

  /** The paths listed for an agent. */
  function PathsOf(paths: map<string, seq<string>>, id: string): seq<string> {
    if id in paths then paths[id] else []
  }

  /** What an `omitempty` slice field reads back as: empty and nil are both absent. */
  function OmitEmpty<T>(s: Slice<T>): Slice<T> {
    if Elems(s) == [] then None else s
  }

  /** As OmitEmpty, for a map field. */
  function OmitEmptyMap<K, V>(m: Option<map<K, V>>): Option<map<K, V>> {
    if m.Some? && m.value == map[] then None else m
  }

  /** The lower-case hex form of a SHA-256 sum. */
  predicate IsHex(c: char) {
    '0' <= c <= '9' || 'a' <= c <= 'f'
  }

  type Digest = s: string | |s| == 64 && forall i :: 0 <= i < |s| ==> IsHex(s[i])
    witness seq(64, _ => '0')

  /** A set of elements of a sequence. */
  function ToSet<T>(s: seq<T>): set<T> {
    set x | x in s
  }

  lemma ToSetSnoc<T>(s: seq<T>, x: T)
    ensures ToSet(s + [x]) == ToSet(s) + {x}
  {
  }

  predicate Distinct<T(==)>(s: seq<T>) {
    forall i, j :: 0 <= i < j < |s| ==> s[i] != s[j]
  }

  /** A sequence without repetition drawn from a finite set is no longer than the set. */
  lemma {:induction false} DistinctFits<T>(s: seq<T>, universe: set<T>)
    requires Distinct(s)
    requires forall i :: 0 <= i < |s| ==> s[i] in universe
    ensures |s| <= |universe|
  {
    if s != [] {
      var last := s[|s| - 1];
      DistinctFits(s[..|s| - 1], universe - {last});
    }
  }

  lemma PrefixSnoc<T>(front: seq<T>, s: seq<T>, i: nat)
    requires i < |s|
    ensures front + s[..i] + [s[i]] == front + s[..i + 1]
  {
  }

  /** A sequence without repetition has as many entries as elements. */
  lemma {:induction false} DistinctCounts<T>(s: seq<T>)
    requires Distinct(s)
    ensures |ToSet(s)| == |s|
  {
    if s != [] {
      var init, last := s[..|s| - 1], s[|s| - 1];
      DistinctCounts(init);
      assert s == init + [last];
      assert last !in init;
      assert ToSet(s) == ToSet(init) + {last};
    }
  }

  /** The items in order, up to the first that cannot be read. */
  function ReadAll<E, A, R>(read: E -> Result<A, R>, items: seq<E>): Result<seq<A>, R> {
    if items == [] then Ok([])
    else
      match ReadAll(read, items[..|items| - 1])
      case Err(error) => Err(error)
      case Ok(done) =>
        match read(items[|items| - 1])
        case Err(error) => Err(error)
        case Ok(a) => Ok(done + [a])
  }

  /** Reading all succeeds exactly when reading each does, and then item by item. */
  lemma {:induction false} ReadAllPointwise<E, A, R>(read: E -> Result<A, R>, items: seq<E>)
    ensures ReadAll(read, items).Ok? ==>
      && |ReadAll(read, items).value| == |items|
      && forall i :: 0 <= i < |items| ==> read(items[i]) == Ok(ReadAll(read, items).value[i])
    ensures (forall i :: 0 <= i < |items| ==> read(items[i]).Ok?) ==> ReadAll(read, items).Ok?
  {
    if items != [] {
      var n := |items| - 1;
      var init := items[..n];
      ReadAllPointwise(read, init);
      assert forall i :: 0 <= i < n ==> init[i] == items[i];
    }
  }

  /** The first item that cannot be read decides. */
  lemma {:induction false} ReadAllFails<E, A, R>(read: E -> Result<A, R>, items: seq<E>, i: nat, error: R)
    requires i < |items| && ReadAll(read, items[..i]).Ok? && read(items[i]) == Err(error)
    ensures ReadAll(read, items) == Err(error)
  {
    var n := |items| - 1;
    if i < n {
      assert items[..n][..i] == items[..i];
      ReadAllFails(read, items[..n], i, error);
    }
  }

  /** A failure is that of the first item that cannot be read. */
  lemma {:induction false} FirstUnread<E, A, R>(read: E -> Result<A, R>, items: seq<E>) returns (i: nat)
    requires ReadAll(read, items).Err?
    ensures i < |items| && read(items[i]) == Err(ReadAll(read, items).error)
    ensures forall j :: 0 <= j < i ==> read(items[j]).Ok?
  {
    var n := |items| - 1;
    var init := items[..n];
    if ReadAll(read, init).Err? {
      i := FirstUnread(read, init);
    } else {
      i := n;
      ReadAllPointwise(read, init);
      assert forall j :: 0 <= j < n ==> init[j] == items[j];
    }
  }

  lemma {:induction false} ReadAllAgree<E, A, R>(f: E -> Result<A, R>, g: E -> Result<A, R>, items: seq<E>)
    requires forall i :: 0 <= i < |items| ==> f(items[i]) == g(items[i])
    ensures ReadAll(f, items) == ReadAll(g, items)
  {
    if items != [] {
      ReadAllAgree(f, g, items[..|items| - 1]);
    }
  }
}
