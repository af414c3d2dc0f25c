/** Reading byte ranges of files that may grow, through a cache of full chunks that expire and
    are evicted. */
module ByteRange {
  import opened Common

  type Path = string

  datatype Key = Key(path: Path, chunk: int)
  datatype Entry = Entry(key: Key, time: int, data: Bytes)

  /** The files of the bundle as they are now; a path without a file reads as empty. */
  type Files = map<Path, Bytes>

  function Content(files: Files, path: Path): Bytes {
    if path in files then files[path] else []
  }

  /** The bytes of `data` from `start` to `end`, as far as there are any. */
  function Range(data: Bytes, start: nat, end: nat): Bytes
    requires start <= end
  {
    var hi := if end <= |data| then end else |data|;
    if start <= hi then data[start..hi] else []
  }

  /** Where a chunk begins. */
  function Start(id: nat, size: nat): nat {
    id * size
  }

  /** What the server sends for a chunk. */
  function Chunk(data: Bytes, size: nat, id: nat): Bytes {
    Range(data, Start(id, size), Start(id, size) + size)
  }

  lemma StartRises(i: nat, j: nat, size: nat)
    requires i <= j
    ensures Start(i, size) <= Start(j, size)
  {
    MulMonotone(i, j, size);
  }

  lemma StartNext(i: nat, size: nat)
    ensures Start(i + 1, size) == Start(i, size) + size
  {
  }

  /** Every file is as it was or longer. */
  ghost predicate Grown(before: Files, after: Files) {
    forall p :: Content(before, p) <= Content(after, p)
  }

  // ---------------------------------------------------------------- chunks and ranges

  lemma RangeJoins(data: Bytes, a: nat, b: nat, c: nat)
    requires a <= b <= c
    ensures Range(data, a, b) + Range(data, b, c) == Range(data, a, c)
  {
  }

  /** A full chunk stays what it is while the file grows. */
  lemma FullChunkStays(data: Bytes, more: Bytes, size: nat, id: nat)
    requires data <= more && |Chunk(data, size, id)| == size
    ensures Chunk(more, size, id) == Chunk(data, size, id)
  {
    assert data == more[..|data|];
  }

  lemma SliceOfSlice(s: Bytes, a: nat, b: nat, c: nat, d: nat)
    requires a <= c <= d <= b <= |s|
    ensures s[a..b][c - a..d - a] == s[c..d]
  {
    var left, right := s[a..b][c - a..d - a], s[c..d];
    assert |left| == |right|;
    assert forall i :: 0 <= i < |left| ==> left[i] == right[i];
  }

  lemma RangeOfRange(data: Bytes, base: nat, end: nat, offset: nat, length: nat)
    requires base <= offset && offset + length <= end
    ensures var r := Range(data, base, end);
      Range(r, offset - base, offset - base + length) == Range(data, offset, offset + length)
  {
    var r := Range(data, base, end);
    if offset <= |data| {
      var hi := if offset + length <= |data| then offset + length else |data|;
      assert r == data[base..base + |r|] && hi <= base + |r|;
      SliceOfSlice(data, base, base + |r|, offset, hi);
    }
  }

  // ---------------------------------------------------------------- chunk arithmetic

  lemma DivMonotone(a: int, b: int, d: nat)
    requires d > 0 && a <= b
    ensures a / d <= b / d
  {
    if b / d < a / d {
      var q, r := b / d, a / d;
      assert (q + 1) * d <= r * d by {
        MulMonotone(q + 1, r, d);
      }
    }
  }

  lemma DivUnique(a: int, q: int, r: nat, d: nat)
    requires r < d && a == q * d + r
    ensures a / d == q
  {
    var p := a / d;
    if p < q {
      MulMonotone(p + 1, q, d);
    } else if p > q {
      MulMonotone(q + 1, p, d);
    }
  }

  lemma DivBounds(a: int, d: nat)
    requires d > 0
    ensures a / d * d <= a < a / d * d + d && (a - d) / d == a / d - 1
  {
    assert a == a / d * d + a % d;
    assert (a / d - 1) * d == a / d * d - d;
    DivUnique(a - d, a / d - 1, a % d, d);
  }

  function ChunkOf(offset: int, size: nat): int
    requires size > 0
  {
    offset / size
  }

  /** How many chunk borders a range can cross. */
  function Span(offset: nat, length: nat, size: nat): int
    requires size > 0
  {
    (offset + length) / size - offset / size
  }

  /** The chunks from `first` to `last` cover the bytes. */
  ghost predicate Covers(first: int, last: int, offset: nat, length: nat, size: nat) {
    && 0 <= first <= last + 1 && Start(first, size) <= offset
    && (length > 0 ==> first <= last && Start(last, size) < offset + length <= Start(last + 1, size))
  }

  /** The chunks from the first byte's to the last byte's cover the bytes. */
  lemma ChunksCover(offset: nat, length: nat, size: nat)
    requires size > 0
    ensures var first, last := ChunkOf(offset, size), ChunkOf(offset + length - 1, size);
      Covers(first, last, offset, length, size) && last - first <= Span(offset, length, size)
  {
    DivBounds(offset, size);
    DivBounds(offset + length - 1, size);
    DivMonotone(offset + length - 1, offset + length, size);
    DivMonotone(offset - size, offset + length - 1, size);
    DivMonotone(0, offset, size);
    if length > 0 {
      DivMonotone(offset, offset + length - 1, size);
    }
  }

  /** The chunks from `first` up to `id`, put together. */
  ghost predicate Joined(data: Bytes, size: nat, first: nat, id: nat, arr: Bytes) {
    Start(first, size) <= Start(id, size) && arr == Range(data, Start(first, size), Start(id, size))
  }

  lemma JoinedNext(data: Bytes, size: nat, first: nat, id: nat, arr: Bytes)
    requires first <= id && Joined(data, size, first, id, arr)
    ensures Joined(data, size, first, id + 1, arr + Chunk(data, size, id))
  {
    StartRises(first, id, size);
    StartNext(id, size);
    RangeJoins(data, Start(first, size), Start(id, size), Start(id, size) + size);
  }

  lemma JoinedNone(data: Bytes, size: nat, first: nat)
    ensures Joined(data, size, first, first, [])
  {
  }

  /** The wanted bytes are cut out of the joined chunks that cover them. */
  lemma JoinedCut(data: Bytes, size: nat, first: nat, last: int, id: nat, arr: Bytes, offset: nat, length: nat)
    requires Joined(data, size, first, id, arr) && Covers(first, last, offset, length, size)
    requires length > 0 ==> id == last + 1
    ensures Start(first, size) <= offset
    ensures Range(arr, offset - Start(first, size), offset - Start(first, size) + length) == Range(data, offset, offset + length)
  {
    if length > 0 {
      RangeOfRange(data, Start(first, size), Start(id, size), offset, length);
    }
  }

  // ---------------------------------------------------------------- growth inside a read

  /** What a file holds at each fetch of one read. */
  type Contents = seq<Bytes>

  ghost predicate Growing(contents: Contents) {
    forall i, j :: 0 <= i <= j < |contents| ==> contents[i] <= contents[j]
  }

  /** The first `n` chunks from `first` on, each as it is when it is fetched. */
  function Pieces(contents: Contents, size: nat, first: nat, n: nat): Bytes
    requires n <= |contents|
  {
    if n == 0 then [] else Pieces(contents, size, first, n - 1) + Chunk(contents[n - 1], size, first + n - 1)
  }

  /** What a read returns. */
  function ReadOf(contents: Contents, size: nat, first: nat, offset: nat, length: nat): Bytes
    requires Start(first, size) <= offset
  {
    var from := offset - Start(first, size);
    Range(Pieces(contents, size, first, |contents|), from, from + length)
  }

  /** Chunks that are all as in `data` make up a stretch of `data`. */
  lemma {:induction false} PiecesJoin(contents: Contents, size: nat, first: nat, n: nat, data: Bytes)
    requires n <= |contents|
    requires forall i :: 0 <= i < n ==> Chunk(contents[i], size, first + i) == Chunk(data, size, first + i)
    ensures Joined(data, size, first, first + n, Pieces(contents, size, first, n))
  {
    hide Joined, Chunk;
    if n == 0 {
      JoinedNone(data, size, first);
    } else {
      PiecesJoin(contents, size, first, n - 1, data);
      JoinedNext(data, size, first, first + n - 1, Pieces(contents, size, first, n - 1));
    }
  }

  /** A read all of whose chunks are as in `data` returns exactly the bytes of `data`. */
  lemma PiecesRead(contents: Contents, size: nat, first: nat, last: int, offset: nat, length: nat, data: Bytes)
    requires Covers(first, last, offset, length, size) && |contents| == last + 1 - first
    requires forall i :: 0 <= i < |contents| ==> Chunk(contents[i], size, first + i) == Chunk(data, size, first + i)
    ensures ReadOf(contents, size, first, offset, length) == Range(data, offset, offset + length)
  {
    PiecesJoin(contents, size, first, |contents|, data);
    JoinedCut(data, size, first, last, last + 1, Pieces(contents, size, first, |contents|), offset, length);
  }

  /** However the file grows inside a read that begins with it as `begin`, the read returns the
      bytes the file has at the last fetch. */
  ghost predicate Harmless(begin: Bytes, size: nat, first: nat, last: nat, offset: nat, length: nat)
    requires first <= last && Start(first, size) <= offset
  {
    forall contents: Contents :: |contents| == last + 1 - first && Growing(contents) && contents[0] == begin ==>
      ReadOf(contents, size, first, offset, length) == Range(contents[last - first], offset, offset + length)
  }

  /** With the file reaching the last chunk when the read begins, all chunks before it are full. */
  lemma FullBefore(contents: Contents, size: nat, first: nat, last: nat)
    requires first <= last && |contents| == last + 1 - first && Growing(contents)
    requires first == last || Start(last, size) <= |contents[0]|
    ensures forall i :: 0 <= i < |contents| ==>
      Chunk(contents[i], size, first + i) == Chunk(contents[last - first], size, first + i)
  {
    forall i | 0 <= i < |contents|
      ensures Chunk(contents[i], size, first + i) == Chunk(contents[last - first], size, first + i)
    {
      if i < last - first {
        StartRises(first + i + 1, last, size);
        StartNext(first + i, size);
        assert contents[0] <= contents[i] <= contents[last - first];
        FullChunkStays(contents[i], contents[last - first], size, first + i);
      }
    }
  }

  /** Growth up to the end of the range, all at the last fetch. */
  function LateGrowth(begin: Bytes, n: nat, end: nat): Contents
    requires |begin| <= end
  {
    seq(n, i => begin) + [begin + seq(end - |begin|, i => 0)]
  }

  lemma RangeSize(data: Bytes, start: nat, end: nat)
    requires start <= end
    ensures |Range(data, start, end)| == (if end <= |data| then end - start else if start <= |data| then |data| - start else 0)
  {
  }

  /** A range that stops short because the front part does. */
  lemma ShortRead(front: Bytes, piece: Bytes, data: Bytes, base: nat, border: nat, offset: nat, length: nat)
    requires base <= offset && border < offset + length == |data| && base <= border
    requires |front| < border - base && |piece| == offset + length - border && length > 0
    ensures |Range(front + piece, offset - base, offset - base + length)| < length
    ensures |Range(data, offset, offset + length)| == length
  {
    RangeSize(front + piece, offset - base, offset - base + length);
    RangeSize(data, offset, offset + length);
  }

  lemma LateGrowthGrows(begin: Bytes, n: nat, end: nat)
    requires |begin| <= end && n > 0
    ensures var contents := LateGrowth(begin, n, end);
      && |contents| == n + 1 && Growing(contents) && |contents[n]| == end
      && forall i :: 0 <= i < n ==> contents[i] == begin
  {
  }

  /** It makes the read too short when the file did not reach the last chunk before. */
  lemma LateGrowthLoses(begin: Bytes, size: nat, first: nat, last: nat, offset: nat, length: nat)
    requires Covers(first, last, offset, length, size) && length > 0 && first < last && |begin| < Start(last, size)
    ensures var contents := LateGrowth(begin, last - first, offset + length);
      && |contents| == last + 1 - first && Growing(contents) && contents[0] == begin
      && |ReadOf(contents, size, first, offset, length)| < length
      && |Range(contents[last - first], offset, offset + length)| == length
  {
    var n := last - first;
    var contents := LateGrowth(begin, n, offset + length);
    LateGrowthGrows(begin, n, offset + length);
    hide LateGrowth, Growing;
    LateSizes(contents, begin, size, first, last, offset, length);
    var front, piece := Pieces(contents, size, first, n), Chunk(contents[n], size, last);
    assert Pieces(contents, size, first, n + 1) == front + piece;
    assert ReadOf(contents, size, first, offset, length) ==
      Range(front + piece, offset - Start(first, size), offset - Start(first, size) + length);
    hide *;
    ShortRead(front, piece, contents[n], Start(first, size), Start(last, size), offset, length);
  }

  lemma LateSizes(contents: Contents, begin: Bytes, size: nat, first: nat, last: nat, offset: nat, length: nat)
    requires Covers(first, last, offset, length, size) && length > 0 && first < last && |begin| < Start(last, size)
    requires |contents| == last + 1 - first && |contents[last - first]| == offset + length
    requires forall i :: 0 <= i < last - first ==> contents[i] == begin
    ensures Start(first, size) <= Start(last, size) && Start(first, size) <= offset && Start(last, size) < offset + length
    ensures |Pieces(contents, size, first, last - first)| < Start(last, size) - Start(first, size)
    ensures |Chunk(contents[last - first], size, last)| == offset + length - Start(last, size)
  {
    PiecesJoin(contents, size, first, last - first, begin);
    hide Pieces, Range, Start;
    StartRises(first + 1, last, size);
    StartNext(first, size);
    StartNext(last, size);
    RangeSize(begin, Start(first, size), Start(last, size));
    RangeSize(contents[last - first], Start(last, size), Start(last, size) + size);
  }

  /** Growth inside a read of at least one byte is harmless exactly when the read needs only one
      chunk, or the file reaches the last chunk it needs when it begins. */
  lemma GrowthInsideRead(begin: Bytes, size: nat, first: nat, last: nat, offset: nat, length: nat)
    requires Covers(first, last, offset, length, size) && length > 0
    ensures Harmless(begin, size, first, last, offset, length) <==> first == last || Start(last, size) <= |begin|
  {
    CoversOrder(first, last, offset, length, size);
    hide Covers, Chunk, Range, ReadOf;
    if first == last || Start(last, size) <= |begin| {
      forall contents: Contents | |contents| == last + 1 - first && Growing(contents) && contents[0] == begin
        ensures ReadOf(contents, size, first, offset, length) == Range(contents[last - first], offset, offset + length)
      {
        FullBefore(contents, size, first, last);
        PiecesRead(contents, size, first, last, offset, length, contents[last - first]);
      }
    } else {
      LateGrowthLoses(begin, size, first, last, offset, length);
      assert !Harmless(begin, size, first, last, offset, length);
    }
  }

  lemma CoversOrder(first: int, last: int, offset: nat, length: nat, size: nat)
    requires Covers(first, last, offset, length, size) && length > 0
    ensures 0 <= first <= last && Start(first, size) <= offset
  {
  }

  // ---------------------------------------------------------------- the cache

  ghost predicate Distinct(cache: seq<Entry>) {
    forall i, j :: 0 <= i < j < |cache| ==> cache[i].key != cache[j].key
  }

  /** Cached chunks are full, and are what the file has in their place. */
  ghost predicate Right(cache: seq<Entry>, size: nat, files: Files) {
    forall e :: e in cache ==>
      e.key.chunk >= 0 && |e.data| == size && e.data == Chunk(Content(files, e.key.path), size, e.key.chunk)
  }

  /** Growth does not make a right cache wrong. */
  lemma RightStays(cache: seq<Entry>, size: nat, before: Files, after: Files)
    requires Right(cache, size, before) && Grown(before, after)
    ensures Right(cache, size, after)
  {
    forall e | e in cache
      ensures e.data == Chunk(Content(after, e.key.path), size, e.key.chunk)
    {
      FullChunkStays(Content(before, e.key.path), Content(after, e.key.path), size, e.key.chunk);
    }
  }

  /** Taking an entry out leaves the others, none of them with its key. */
  lemma TakenOut(cache: seq<Entry>, k: nat)
    requires k < |cache| && Distinct(cache)
    ensures var rest := cache[..k] + cache[k + 1..];
      && |rest| == |cache| - 1 && Distinct(rest)
      && forall e :: e in rest ==> e in cache && e.key != cache[k].key
  {
  }

  lemma FirstOut(cache: seq<Entry>)
    requires cache != [] && Distinct(cache)
    ensures Distinct(cache[1..]) && forall e :: e in cache[1..] ==> e in cache
  {
  }

  lemma PutIn(cache: seq<Entry>, entry: Entry, size: nat, files: Files)
    requires Distinct(cache) && Right(cache, size, files) && forall e :: e in cache ==> e.key != entry.key
    requires Right([entry], size, files)
    ensures Distinct(cache + [entry]) && Right(cache + [entry], size, files)
    ensures forall e :: e in cache + [entry] ==> e in cache || e == entry
  {
    assert entry in [entry];
  }

  class ByteRangeReader {
    const chunkSize: nat
    const maxNumChunks: nat
    const timeout: int
    var cache: seq<Entry>

    ghost predicate Valid(files: Files)
      reads this
    {
      && chunkSize > 0 && maxNumChunks > 0
      && |cache| <= maxNumChunks && Distinct(cache) && Right(cache, chunkSize, files)
    }

    constructor (timeout: int, maxNumChunks: nat, chunkSize: nat, ghost files: Files)
      requires chunkSize > 0 && maxNumChunks > 0
      ensures Valid(files) && cache == []
      ensures this.chunkSize == chunkSize && this.maxNumChunks == maxNumChunks && this.timeout == timeout
    {
      this.chunkSize, this.maxNumChunks, this.timeout, cache := chunkSize, maxNumChunks, timeout, [];
    }

    function ChunkId(offset: int): int
      requires chunkSize > 0
      ensures ChunkId(offset) == ChunkOf(offset, chunkSize)
    {
      ChunkOf(offset, chunkSize)
    }

    /** The index of a key in the cache. */
    method Position(key: Key) returns (k: nat)
      ensures k <= |cache| && (k < |cache| ==> cache[k].key == key)
      ensures k == |cache| ==> forall e :: e in cache ==> e.key != key
    {
      k := 0;
      while k < |cache| && cache[k].key != key
        invariant k <= |cache| && forall i :: 0 <= i < k ==> cache[i].key != key
      {
        k := k + 1;
      }
    }

    /** A chunk, from the cache when it is there and not too old, else from the server. Only full
        chunks are cached. */
    method FetchChunk(path: Path, id: nat, now: int, files: Files) returns (data: Bytes)
      requires Valid(files)
      modifies this`cache
      ensures Valid(files) && data == Chunk(Content(files, path), chunkSize, id)
      ensures forall e :: e in cache && e !in old(cache) ==> e == Entry(Key(path, id), now, data)
    {
      var key := Key(path, id);
      var k := Position(key);
      if k < |cache| {
        assert cache[k] in cache;
        if now - cache[k].time < timeout {
          return cache[k].data;
        }
        TakenOut(cache, k);
        cache := cache[..k] + cache[k + 1..];
      }
      data := Range(Content(files, path), Start(id, chunkSize), Start(id, chunkSize) + chunkSize);
      if |data| == chunkSize {
        var entry := Entry(key, now, data);
        assert Right([entry], chunkSize, files);
        hide Range, Chunk, Content, Distinct;
        if |cache| >= maxNumChunks {
          FirstOut(cache);
          cache := cache[1..];
        }
        PutIn(cache, entry, chunkSize, files);
        cache := cache + [entry];
      }
    }

    /** The loop of a read: fetches `n` chunks from `first` on and joins them. */
    method JoinChunks(path: Path, first: nat, n: nat, clock: seq<int>, states: seq<Files>) returns (arr: Bytes)
      requires Later(states) && Valid(states[0]) && n <= |states| == |clock|
      modifies this`cache
      ensures Valid(states[|states| - 1])
      ensures arr == Pieces(ContentsOf(states, path, n), chunkSize, first, n)
    {
      hide Right, Distinct, Chunk, Range, Grown, Pieces, ContentsOf;
      ghost var at: nat := 0;
      arr := [];
      PiecesNone(ContentsOf(states, path, n), chunkSize, first);
      for k := 0 to n
        invariant at < |states| && at <= k && Valid(states[at])
        invariant arr == Pieces(ContentsOf(states, path, n), chunkSize, first, k)
      {
        SurvivesLater(this, states, at, k);
        at := k;
        var chunk := FetchChunk(path, first + k, clock[k], states[k]);
        PiecesNext(states, path, n, chunkSize, first, k);
        arr := arr + chunk;
      }
      SurvivesLater(this, states, at, |states| - 1);
    }

    /** Read `length` bytes from `offset`, each chunk from the files as they are when it is fetched.
        When the file does not grow meanwhile, or grows in a harmless way, the bytes are exactly
        those the file has there at the last fetch. */
    method Read(path: Path, length: nat, offset: nat, clock: seq<int>, states: seq<Files>) returns (bytes: Bytes)
      requires Later(states) && Valid(states[0]) && |states| == |clock| > Span(offset, length, chunkSize)
      modifies this`cache
      ensures Valid(states[|states| - 1])
      ensures Outcome(bytes, states, path, chunkSize, offset, length)
      ensures RightBytes(bytes, states, path, chunkSize, offset, length)
    {
      ReadBounds(offset, length, chunkSize);
      hide *;
      var first, last := ChunkId(offset), ChunkId(offset + length - 1);
      var arr := JoinChunks(path, first, last + 1 - first, clock, states);
      var from := offset - Start(first, chunkSize);
      bytes := Range(arr, from, from + length);
      ReadOutcome(states, path, chunkSize, offset, length);
      OutcomeBytes(bytes, states, path, chunkSize, offset, length);
    }
  }

  /** One state of the files after the other, each grown from the one before. */
  ghost predicate Later(states: seq<Files>) {
    states != [] && forall i :: 0 < i < |states| ==> Grown(states[i - 1], states[i])
  }

  function ContentsOf(states: seq<Files>, path: Path, n: nat): (contents: Contents)
    requires n <= |states|
    ensures |contents| == n
  {
    seq(n, i requires 0 <= i < n => Content(states[i], path))
  }

  lemma PiecesNone(contents: Contents, size: nat, first: nat)
    ensures Pieces(contents, size, first, 0) == []
  {
  }

  lemma PiecesNext(states: seq<Files>, path: Path, n: nat, size: nat, first: nat, k: nat)
    requires k < n <= |states|
    ensures var contents := ContentsOf(states, path, n);
      Pieces(contents, size, first, k + 1) == Pieces(contents, size, first, k) + Chunk(Content(states[k], path), size, first + k)
  {
  }

  ghost predicate Steady(states: seq<Files>, path: Path) {
    forall i :: 0 < i < |states| ==> Content(states[i], path) == Content(states[0], path)
  }

  lemma {:induction false} LaterGrows(states: seq<Files>, path: Path, i: nat, j: nat)
    requires Later(states) && i <= j < |states|
    ensures Content(states[i], path) <= Content(states[j], path)
  {
    if i < j {
      LaterGrows(states, path, i, j - 1);
      assert Grown(states[j - 1], states[j]);
    }
  }

  lemma {:induction false} SurvivesLater(reader: ByteRangeReader, states: seq<Files>, i: nat, j: nat)
    requires Later(states) && i <= j < |states| && reader.Valid(states[i])
    ensures reader.Valid(states[j])
  {
    if i < j {
      SurvivesLater(reader, states, i, j - 1);
      assert Grown(states[j - 1], states[j]);
      ReaderSurvivesGrowth(reader, states[j - 1], states[j]);
    }
  }

  lemma ReadBounds(offset: nat, length: nat, size: nat)
    requires size > 0
    ensures var first, last := ChunkOf(offset, size), ChunkOf(offset + length - 1, size);
      && Covers(first, last, offset, length, size) && last - first <= Span(offset, length, size)
      && 0 <= first <= last + 1 && Start(first, size) <= offset
  {
    ChunksCover(offset, length, size);
  }

  /** What a read may return: the pieces as they were fetched, and just the bytes of the file when it
      did not grow, or reached the last chunk from the beginning. */
  ghost predicate Outcome(bytes: Bytes, states: seq<Files>, path: Path, size: nat, offset: nat, length: nat)
    requires states != [] && size > 0 && |states| > Span(offset, length, size)
  {
    ReadBounds(offset, length, size);
    OutcomeAt(bytes, states, path, size, ChunkOf(offset, size), ChunkOf(offset + length - 1, size), offset, length)
  }

  ghost predicate OutcomeAt(bytes: Bytes, states: seq<Files>, path: Path, size: nat,
                            first: nat, last: int, offset: nat, length: nat)
    requires Covers(first, last, offset, length, size) && states != [] && last - first < |states|
  {
    && bytes == ReadOf(ContentsOf(states, path, last + 1 - first), size, first, offset, length)
    && (Steady(states, path) ==> bytes == Range(Content(states[0], path), offset, offset + length))
    && (length > 0 && (first == last || Start(last, size) <= |Content(states[0], path)|) ==>
          bytes == Range(Content(states[last - first], path), offset, offset + length))
  }

  /** As many bytes of the file as there are from `offset` on, up to `length`; none without a file. */
  ghost predicate BytesAt(bytes: Bytes, files: Files, path: Path, offset: nat, length: nat) {
    var there := if path in files && |files[path]| >= offset then |files[path]| - offset else 0;
    && |bytes| == (if there < length then there else length)
    && forall k :: 0 <= k < |bytes| ==> path in files && offset + k < |files[path]| && bytes[k] == files[path][offset + k]
  }

  /** The read is of one chunk, or the file reaches the last chunk from the beginning. */
  ghost predicate LateEnough(states: seq<Files>, path: Path, size: nat, offset: nat, length: nat)
    requires states != [] && size > 0
  {
    && length > 0
    && (offset / size == (offset + length - 1) / size
        || (path in states[0] && (offset + length - 1) / size * size <= |states[0][path]|))
  }

  /** The bytes of the file when it does not grow, and those of the last fetch when it is long enough. */
  ghost predicate RightBytes(bytes: Bytes, states: seq<Files>, path: Path, size: nat, offset: nat, length: nat)
    requires states != [] && size > 0
  {
    && (Steady(states, path) ==> BytesAt(bytes, states[0], path, offset, length))
    && (LateEnough(states, path, size, offset, length) ==>
          exists i | 0 <= i < |states| && i == (offset + length - 1) / size - offset / size ::
            BytesAt(bytes, states[i], path, offset, length))
  }

  lemma RangeBytes(files: Files, path: Path, offset: nat, length: nat)
    ensures BytesAt(Range(Content(files, path), offset, offset + length), files, path, offset, length)
  {
  }

  lemma OutcomeBytes(bytes: Bytes, states: seq<Files>, path: Path, size: nat, offset: nat, length: nat)
    requires states != [] && size > 0 && |states| > Span(offset, length, size)
    requires Outcome(bytes, states, path, size, offset, length)
    ensures RightBytes(bytes, states, path, size, offset, length)
  {
    ReadBounds(offset, length, size);
    RangeBytes(states[0], path, offset, length);
    var i := ChunkOf(offset + length - 1, size) - ChunkOf(offset, size);
    if LateEnough(states, path, size, offset, length) {
      RangeBytes(states[i], path, offset, length);
    }
    hide Range, BytesAt, Covers, ReadOf, ContentsOf;
  }

  lemma ReadOutcomeAt(states: seq<Files>, path: Path, size: nat, first: nat, last: int, offset: nat, length: nat)
    requires Later(states) && Covers(first, last, offset, length, size) && last - first < |states|
    ensures first <= last + 1 && Start(first, size) <= offset
    ensures OutcomeAt(ReadOf(ContentsOf(states, path, last + 1 - first), size, first, offset, length),
                      states, path, size, first, last, offset, length)
  {
    hide Range, Chunk, Start, Pieces, ReadOf, Steady;
    if Steady(states, path) {
      SteadyRead(states, path, size, first, last, offset, length);
    }
    if length > 0 && (first == last || Start(last, size) <= |Content(states[0], path)|) {
      LateRead(states, path, size, first, last, offset, length);
    }
  }

  lemma ReadOutcome(states: seq<Files>, path: Path, size: nat, offset: nat, length: nat)
    requires Later(states) && size > 0 && |states| > Span(offset, length, size)
    ensures var first, last := ChunkOf(offset, size), ChunkOf(offset + length - 1, size);
      && 0 <= first <= last + 1 <= first + |states| && Start(first, size) <= offset
      && var from := offset - Start(first, size);
         var bytes := Range(Pieces(ContentsOf(states, path, last + 1 - first), size, first, last + 1 - first), from, from + length);
         Outcome(bytes, states, path, size, offset, length)
  {
    ReadBounds(offset, length, size);
    hide Range, Pieces, Covers, ChunkOf, Span, Later, Start, OutcomeAt;
    ReadOutcomeAt(states, path, size, ChunkOf(offset, size), ChunkOf(offset + length - 1, size), offset, length);
  }

  lemma SteadyRead(states: seq<Files>, path: Path, size: nat, first: nat, last: int, offset: nat, length: nat)
    requires Covers(first, last, offset, length, size) && states != [] && last - first < |states| && Steady(states, path)
    ensures first <= last + 1 && Start(first, size) <= offset
    ensures ReadOf(ContentsOf(states, path, last + 1 - first), size, first, offset, length) ==
      Range(Content(states[0], path), offset, offset + length)
  {
    hide Range, Chunk, Start, ReadOf;
    PiecesRead(ContentsOf(states, path, last + 1 - first), size, first, last, offset, length, Content(states[0], path));
  }

  lemma ContentsGrow(states: seq<Files>, path: Path, n: nat)
    requires Later(states) && n <= |states|
    ensures Growing(ContentsOf(states, path, n))
    ensures forall i :: 0 <= i < n ==> ContentsOf(states, path, n)[i] == Content(states[i], path)
  {
    var contents := ContentsOf(states, path, n);
    hide Later, Content;
    forall i, j | 0 <= i <= j < n
      ensures contents[i] <= contents[j]
    {
      LaterGrows(states, path, i, j);
    }
  }

  lemma LateRead(states: seq<Files>, path: Path, size: nat, first: nat, last: int, offset: nat, length: nat)
    requires Later(states) && Covers(first, last, offset, length, size) && last - first < |states| && length > 0
    requires first == last || Start(last, size) <= |Content(states[0], path)|
    ensures first <= last && Start(first, size) <= offset
    ensures ReadOf(ContentsOf(states, path, last + 1 - first), size, first, offset, length) ==
      Range(Content(states[last - first], path), offset, offset + length)
  {
    CoversOrder(first, last, offset, length, size);
    hide Range, Chunk, Start, ReadOf, Covers, Later, Growing, ContentsOf, Content;
    var contents := ContentsOf(states, path, last + 1 - first);
    ContentsGrow(states, path, last + 1 - first);
    FullBefore(contents, size, first, last);
    PiecesRead(contents, size, first, last, offset, length, contents[last - first]);
  }

  /** A reader is as good for the grown files as it was for the files before. */
  lemma ReaderSurvivesGrowth(reader: ByteRangeReader, before: Files, after: Files)
    requires reader.Valid(before) && Grown(before, after)
    ensures reader.Valid(after)
  {
    RightStays(reader.cache, reader.chunkSize, before, after);
  }
}
