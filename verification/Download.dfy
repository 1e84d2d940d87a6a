/** Streams read in chunks, and the bounded, hashing download built on them. */
module Download {
  import opened Common

  // ---- Streams -----------------------------------------------------------------------

  const BUFFER := 32 * 1024
  const INT64_MAX := 0x7fff_ffff_ffff_ffff

  /** What a Go io.Reader reports with a chunk: nothing, io.EOF, or another error. */
  datatype End = More | Eof | Broken

  datatype Read = Read(data: Bytes, end: End)

  /** One result of Read(buf): the buffer bounds the chunk. */
  type Chunk = r: Read | |r.data| <= BUFFER witness Read("", Eof)

  /** The reads of one stream; after the last of them the reader reports io.EOF. */
  type Stream = seq<Chunk>

  function At(s: Stream, i: nat): Chunk {
    if i < |s| then s[i] else Read("", Eof)
  }

  /** The bytes the reader delivers before it ends or breaks. */
  function BodyOf(s: Stream): Bytes {
    if s == [] then ""
    else if s[0].end.More? then s[0].data + BodyOf(s[1..])
    else s[0].data
  }

  predicate IsBroken(s: Stream) {
    s != [] && (if s[0].end.More? then IsBroken(s[1..]) else s[0].end.Broken?)
  }

  /** The bytes of the first n chunks. */
  function Taken(s: Stream, n: nat): Bytes
    requires n <= |s|
  {
    if n == 0 then "" else Taken(s, n - 1) + s[n - 1].data
  }

  /** A stream chunk by chunk: a chunk that reports no end is followed by the rest, one that
      reports an end or an error still counts, and nothing after it does. */
  lemma StreamLaws(first: Chunk, rest: Stream)
    ensures BodyOf([]) == "" && !IsBroken([])
    ensures first.end == More ==>
      BodyOf([first] + rest) == first.data + BodyOf(rest) && (IsBroken([first] + rest) <==> IsBroken(rest))
    ensures first.end == Eof ==> BodyOf([first] + rest) == first.data && !IsBroken([first] + rest)
    ensures first.end == Broken ==> BodyOf([first] + rest) == first.data && IsBroken([first] + rest)
  {
    assert ([first] + rest)[0] == first && ([first] + rest)[1..] == rest;
  }

  predicate OnlyMore(s: Stream, n: nat)
    requires n <= |s|
  {
    forall i :: 0 <= i < n ==> s[i].end.More?
  }

  /** Reading on after n chunks that did not end the stream. */
  lemma {:induction false} TakenAndRest(s: Stream, n: nat)
    requires n <= |s| && OnlyMore(s, n)
    ensures BodyOf(s) == Taken(s, n) + BodyOf(s[n..]) && IsBroken(s) == IsBroken(s[n..])
  {
    if n > 0 {
      TakenAndRest(s, n - 1);
      assert s[n - 1..][1..] == s[n..];
      assert Taken(s, n - 1) + (s[n - 1].data + BodyOf(s[n..])) == Taken(s, n) + BodyOf(s[n..]);
    }
  }

  /** One more chunk: the bytes read so far are a prefix of the body, and they are all of
      it once the reader reports its end. */
  lemma ChunkStep(s: Stream, n: nat)
    requires n <= |s| && OnlyMore(s, n)
    ensures var now := Taken(s, n) + At(s, n).data;
            && now <= BodyOf(s)
            && (n < |s| ==> now == Taken(s, n + 1))
            && (At(s, n).end != More ==> now == BodyOf(s) && IsBroken(s) == At(s, n).end.Broken?)
  {
    TakenAndRest(s, n);
    if n < |s| {
      assert s[n..][0] == s[n];
      if s[n].end.More? {
        TakenAndRest(s, n + 1);
      }
    } else {
      assert s[n..] == [];
      assert Taken(s, n) + "" == Taken(s, n);
    }
  }

  /** Go's int64 addition. */
  function Add64(a: int, b: int): int {
    (a + b + INT64_MAX + 1) % (2 * (INT64_MAX + 1)) - (INT64_MAX + 1)
  }

  lemma Add64IsExact(a: int, b: int)
    requires 0 <= a && 0 <= b && a + b <= INT64_MAX
    ensures Add64(a, b) == a + b
  {
  }

  // ---- Fetch ---------------------------------------------------------------------------

  datatype Options = Options(maxBytes: int, minBytes: int)

  /** The final response: its status is refused, or its body is streamed. */
  datatype Response = Refused | Streamed(stream: Stream)

  datatype FetchError = Failed | Oversize | TooSmall | LocalStorage

  /** The byte counter cannot wrap: a positive limit leaves room for one buffer, or the
      body itself is shorter than 2^63 bytes. */
  predicate CounterFits(opts: Options, body: Bytes) {
    0 < opts.maxBytes <= INT64_MAX - BUFFER || |body| <= INT64_MAX
  }

  /** The outcome without local faults, by body and limits alone. */
  function FetchOutcome(sha: Bytes -> Digest, opts: Options, body: Bytes, broken: bool): Result<Digest, FetchError> {
    if opts.maxBytes > 0 && |body| > opts.maxBytes then Err(Oversize)
    else if broken then Err(Failed)
    else if opts.minBytes > 0 && |body| < opts.minBytes then Err(TooSmall)
    else Ok(sha(body))
  }

  /** The outcome for a response. */
  function Delivery(sha: Bytes -> Digest, opts: Options, response: Response): Result<Digest, FetchError> {
    if response.Refused? then Err(Failed)
    else FetchOutcome(sha, opts, BodyOf(response.stream), IsBroken(response.stream))
  }

  predicate ResponseCounts(opts: Options, response: Response) {
    response.Streamed? ==> CounterFits(opts, BodyOf(response.stream))
  }

  /** Fetch, from the response on. `dest` is the destination file it leaves. */
  method Fetch(sha: Bytes -> Digest, opts: Options, response: Response)
    returns (result: Result<Digest, FetchError>, dest: Option<Bytes>, ghost faulted: bool)
    ensures response.Refused? ==> result == Err(Failed) && dest.None? && !faulted
    ensures result.Ok? ==> !faulted && dest == Some(BodyOf(response.stream)) && result.value == sha(dest.value)
    ensures ResponseCounts(opts, response) && !faulted ==> result == Delivery(sha, opts, response)
    // a body within its bounds arrives, and any other is refused for what is wrong with it
    ensures ResponseCounts(opts, response) && response.Streamed? && !faulted ==>
      var size := |BodyOf(response.stream)|;
      && (result.Ok? <==> !IsBroken(response.stream) && (opts.maxBytes <= 0 || size <= opts.maxBytes)
                          && (opts.minBytes <= 0 || size >= opts.minBytes))
      && (result == Err(Oversize) <==> 0 < opts.maxBytes < size)
      && (result == Err(Failed) <==> IsBroken(response.stream) && !(0 < opts.maxBytes < size))
    ensures ResponseCounts(opts, response) && result.Ok? && opts.minBytes > 0 ==> |dest.value| >= opts.minBytes
    ensures response.Streamed? && dest.Some? ==> dest.value <= BodyOf(response.stream)
    ensures ResponseCounts(opts, response) && dest.Some? ==> (opts.maxBytes > 0 ==> |dest.value| <= opts.maxBytes)
  {
    dest, faulted := None, false;
    if response.Refused? {
      return Err(Failed), None, false;
    }
    var stream := response.stream;
    ghost var body := BodyOf(stream);
    var createFails: bool := *;
    if createFails {
      return Err(LocalStorage), None, true;
    }
    dest := Some("");
    var hashed: Bytes, written, i := "", 0, 0;
    while true
      invariant i <= |stream| && OnlyMore(stream, i) && !faulted
      invariant dest == Some(Taken(stream, i)) && hashed == Taken(stream, i)
      invariant hashed <= body
      invariant CounterFits(opts, body) ==> written == |hashed|
      invariant CounterFits(opts, body) && opts.maxBytes > 0 ==> |hashed| <= opts.maxBytes
      decreases |stream| - i
    {
      var chunk := At(stream, i);
      ChunkStep(stream, i);
      assert chunk.data == "" ==> hashed + chunk.data == hashed;
      if |chunk.data| > 0 {
        if CounterFits(opts, body) {
          Add64IsExact(|hashed|, |chunk.data|);
        }
        written := Add64(written, |chunk.data|);
        if opts.maxBytes > 0 && written > opts.maxBytes {
          return Err(Oversize), dest, false;
        }
        hashed := hashed + chunk.data;
        var writeFails: bool, part: nat := *, *;
        if writeFails {
          dest := Some(dest.value + chunk.data[..if part <= |chunk.data| then part else 0]);
          return Err(LocalStorage), dest, true;
        }
        dest := Some(dest.value + chunk.data);
      }
      if chunk.end.Eof? {
        break;
      }
      if chunk.end.Broken? {
        return Err(Failed), dest, false;
      }
      i := i + 1;
    }
    if opts.minBytes > 0 && written < opts.minBytes {
      return Err(TooSmall), dest, false;
    }
    var closeFails: bool := *;
    if closeFails {
      return Err(LocalStorage), dest, true;
    }
    result := Ok(sha(hashed));
  }
}
