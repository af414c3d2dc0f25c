/** Bundle locations on several disks: a search over the partitions behind a cache that keeps
    the most recently used locations. */
module BundleStore {
  import opened Common

  type Uuid = string
  type Node = string

  datatype Entry = Entry(uuid: Uuid, node: Node)

  /** An ordered dictionary, oldest entry first. */
  type Cache = seq<Entry>

  function Keys(cache: Cache): (ks: seq<Uuid>)
    ensures |ks| == |cache| && forall i :: 0 <= i < |ks| ==> ks[i] == cache[i].uuid
  {
    seq(|cache|, i requires 0 <= i < |cache| => cache[i].uuid)
  }

  function Find(cache: Cache, uuid: Uuid): Option<Node> {
    if cache == [] then None else if cache[0].uuid == uuid then Some(cache[0].node) else Find(cache[1..], uuid)
  }

  function Without(cache: Cache, uuid: Uuid): Cache {
    if cache == [] then [] else (if cache[0].uuid == uuid then [] else [cache[0]]) + Without(cache[1..], uuid)
  }

  /** Put an entry last, after making room for it. */
  function Touch(cache: Cache, size: nat, e: Entry): Cache {
    var rest := Without(cache, e.uuid);
    (if |rest| >= size && rest != [] then rest[1..] else rest) + [e]
  }

  /** What is on the disks, and how much room they have. */
  datatype Disks = Disks(files: set<(Node, Uuid)>, free: Node -> nat)

  function Search(nodes: seq<Node>, files: set<(Node, Uuid)>, uuid: Uuid): Option<Node> {
    if nodes == [] then None
    else if (nodes[0], uuid) in files then Some(nodes[0])
    else Search(nodes[1..], files, uuid)
  }

  /** The first of the nodes with the most room. */
  function Roomiest(nodes: seq<Node>, free: Node -> nat): Node
    requires nodes != []
  {
    if |nodes| == 1 then nodes[0]
    else
      var best := Roomiest(nodes[..|nodes| - 1], free);
      if free(nodes[|nodes| - 1]) > free(best) then nodes[|nodes| - 1] else best
  }

  /** Where a bundle is, or would be put, going by the disks alone. */
  function Locate(nodes: seq<Node>, disks: Disks, uuid: Uuid): Node
    requires nodes != []
  {
    var found := Search(nodes, disks.files, uuid);
    if found.Some? then found.value else Roomiest(nodes, disks.free)
  }

  function Location(nodes: seq<Node>, cache: Cache, disks: Disks, uuid: Uuid): Node
    requires nodes != []
  {
    var cached := Find(cache, uuid);
    if cached.Some? then cached.value else Locate(nodes, disks, uuid)
  }

  /** The roomiest node has the most room, and comes before any other that has as much. */
  lemma {:induction false} RoomiestIsBest(nodes: seq<Node>, free: Node -> nat) returns (k: nat)
    requires nodes != []
    ensures k < |nodes| && nodes[k] == Roomiest(nodes, free)
    ensures forall i :: 0 <= i < |nodes| ==> free(nodes[i]) <= free(nodes[k]) && (i < k ==> free(nodes[i]) < free(nodes[k]))
  {
    k := 0;
    if |nodes| > 1 {
      var n := |nodes| - 1;
      k := RoomiestIsBest(nodes[..n], free);
      assert forall i :: 0 <= i < n ==> nodes[..n][i] == nodes[i];
      if free(nodes[n]) > free(nodes[k]) {
        k := n;
      }
    }
  }

  /** Node `k` has the most room, and more than any node before it. */
  ghost predicate MostRoom(nodes: seq<Node>, free: Node -> nat, k: nat)
    requires k < |nodes|
  {
    forall i :: 0 <= i < |nodes| ==> free(nodes[i]) <= free(nodes[k]) && (i < k ==> free(nodes[i]) < free(nodes[k]))
  }

  /** Node `k` has the bundle, and no node before it does. */
  ghost predicate HoldsFirst(nodes: seq<Node>, files: set<(Node, Uuid)>, u: Uuid, k: nat)
    requires k < |nodes|
  {
    (nodes[k], u) in files && forall m :: 0 <= m < k ==> (nodes[m], u) !in files
  }

  /** Entry `k` of the cache is the first for the bundle; there is only one, as keys are distinct. */
  ghost predicate CachedAt(cache: Cache, u: Uuid, k: nat)
    requires k < |cache|
  {
    cache[k].uuid == u && forall m :: 0 <= m < k ==> cache[m].uuid != u
  }

  /** The answer for a bundle: the disk of its cache entry, else the first partition that holds it,
      else the first of the disks with the most room. */
  ghost predicate RightLocation(nodes: seq<Node>, cache: Cache, disks: Disks, u: Uuid, answer: Node) {
    || (exists k :: 0 <= k < |cache| && CachedAt(cache, u, k) && answer == cache[k].node)
    || (&& (forall e :: e in cache ==> e.uuid != u)
        && exists k :: 0 <= k < |nodes| && HoldsFirst(nodes, disks.files, u, k) && answer == nodes[k])
    || (&& (forall e :: e in cache ==> e.uuid != u) && (forall n :: n in nodes ==> (n, u) !in disks.files)
        && exists k :: 0 <= k < |nodes| && MostRoom(nodes, disks.free, k) && answer == nodes[k])
  }

  lemma {:induction false} FindCached(cache: Cache, u: Uuid)
    ensures match Find(cache, u)
      case Some(n) => exists k :: 0 <= k < |cache| && CachedAt(cache, u, k) && cache[k].node == n
      case None => forall e :: e in cache ==> e.uuid != u
  {
    if cache != [] {
      if cache[0].uuid == u {
        assert CachedAt(cache, u, 0);
      } else {
        var rest := cache[1..];
        FindCached(rest, u);
        if Find(rest, u).Some? {
          var k :| 0 <= k < |rest| && CachedAt(rest, u, k) && rest[k].node == Find(rest, u).value;
          assert CachedAt(cache, u, k + 1);
        }
      }
    }
  }

  lemma {:induction false} SearchHolds(nodes: seq<Node>, files: set<(Node, Uuid)>, u: Uuid)
    ensures match Search(nodes, files, u)
      case Some(n) => exists k :: 0 <= k < |nodes| && HoldsFirst(nodes, files, u, k) && nodes[k] == n
      case None => forall n :: n in nodes ==> (n, u) !in files
  {
    if nodes != [] {
      if (nodes[0], u) in files {
        assert HoldsFirst(nodes, files, u, 0);
      } else {
        var rest := nodes[1..];
        SearchHolds(rest, files, u);
        if Search(rest, files, u).Some? {
          var k :| 0 <= k < |rest| && HoldsFirst(rest, files, u, k) && rest[k] == Search(rest, files, u).value;
          assert HoldsFirst(nodes, files, u, k + 1);
        }
      }
    }
  }

  /** The location is right, and there is only one right location. */
  lemma LocationIsRight(nodes: seq<Node>, cache: Cache, disks: Disks, u: Uuid)
    requires nodes != []
    ensures RightLocation(nodes, cache, disks, u, Location(nodes, cache, disks, u))
  {
    FindCached(cache, u);
    SearchHolds(nodes, disks.files, u);
    var k := RoomiestIsBest(nodes, disks.free);
    assert MostRoom(nodes, disks.free, k);
    hide MostRoom, HoldsFirst, CachedAt, Find, Search, Roomiest;
  }

  lemma RightLocationUnique(nodes: seq<Node>, cache: Cache, disks: Disks, u: Uuid, a: Node, b: Node)
    requires RightLocation(nodes, cache, disks, u, a) && RightLocation(nodes, cache, disks, u, b)
    ensures a == b
  {
    if k :| 0 <= k < |cache| && CachedAt(cache, u, k) && a == cache[k].node {
      assert cache[k] in cache;
      var m :| 0 <= m < |cache| && CachedAt(cache, u, m) && b == cache[m].node;
    } else if k :| 0 <= k < |nodes| && HoldsFirst(nodes, disks.files, u, k) && a == nodes[k] {
      assert nodes[k] in nodes;
      assert forall m :: 0 <= m < |cache| ==> cache[m] in cache;
      var m :| 0 <= m < |nodes| && HoldsFirst(nodes, disks.files, u, m) && b == nodes[m];
    } else {
      var k :| 0 <= k < |nodes| && MostRoom(nodes, disks.free, k) && a == nodes[k];
      assert forall m :: 0 <= m < |cache| ==> cache[m] in cache;
      assert forall m :: 0 <= m < |nodes| ==> nodes[m] in nodes;
      var m :| 0 <= m < |nodes| && MostRoom(nodes, disks.free, m) && b == nodes[m];
    }
  }

  datatype Outcome = Done | NoPartitions | LastPartition | NoSuchPartition

  /** The entries of a directory, in whatever order the file system gives them. */
  method ListDirectory(directory: set<Node>) returns (listing: seq<Node>)
    ensures NoDup(listing) && Elems(listing) == directory
  {
    listing := [];
    var rest := directory;
    while rest != {}
      invariant rest <= directory && NoDup(listing) && Elems(listing) == directory - rest
      decreases |rest|
    {
      var name :| name in rest;
      assert name !in Elems(listing);
      NoDupSnoc(listing, name);
      assert Elems(listing + [name]) == Elems(listing) + {name};
      rest := rest - {name};
      listing := listing + [name];
    }
  }

  /** The partitions are the entries of a directory; `nodes` is the last listing. */
  class MultiDiskBundleStore {
    const cacheSize: nat
    var directory: set<Node>
    var nodes: seq<Node>
    var cache: Cache

    ghost predicate Valid()
      reads this
    {
      NoDup(nodes) && Elems(nodes) == directory
    }

    constructor (directory: set<Node>, cacheSize: nat)
      ensures Valid() && this.directory == directory && cache == [] && this.cacheSize == cacheSize
    {
      var listing := ListDirectory(directory);
      nodes, this.directory, cache, this.cacheSize := listing, directory, [], cacheSize;
    }

    method RefreshPartitions()
      modifies this`nodes
      ensures Valid()
    {
      nodes := ListDirectory(directory);
    }

    /** Look in the cache, else go through every partition, else take the roomiest disk. */
    method GetBundleLocation(uuid: Uuid, disks: Disks) returns (r: Option<Node>)
      modifies this`cache
      ensures nodes == [] ==> r == None && cache == old(cache)
      ensures nodes != [] ==>
        && r == Some(Location(nodes, old(cache), disks, uuid))
        && RightLocation(nodes, old(cache), disks, uuid, r.value)
        && cache == Touch(old(cache), cacheSize, Entry(uuid, r.value))
      ensures World(nodes, cache, disks.files) ==
        Step(World(nodes, old(cache), disks.files), cacheSize, Lookup(uuid, disks.free))
    {
      if nodes == [] {
        return None;
      }
      LocationIsRight(nodes, cache, disks, uuid);
      hide RightLocation;
      var cached := Find(cache, uuid);
      var disk: Node;
      if cached.Some? {
        disk := cached.value;
        cache := Without(cache, uuid);
      } else {
        WithoutAbsent(cache, uuid);
        var found := SearchNodes(uuid, disks.files);
        if found.Some? {
          disk := found.value;
        } else {
          disk := FindRoomiest(disks.free);
        }
      }
      if |cache| >= cacheSize && cache != [] {
        cache := cache[1..];
      }
      cache := cache + [Entry(uuid, disk)];
      r := Some(disk);
    }

    method SearchNodes(uuid: Uuid, files: set<(Node, Uuid)>) returns (found: Option<Node>)
      ensures found == Search(nodes, files, uuid)
    {
      for i := 0 to |nodes|
        invariant Search(nodes[i..], files, uuid) == Search(nodes, files, uuid)
      {
        assert nodes[i..][0] == nodes[i] && nodes[i..][1..] == nodes[i + 1..];
        if (nodes[i], uuid) in files {
          return Some(nodes[i]);
        }
      }
      found := None;
    }

    method FindRoomiest(free: Node -> nat) returns (best: Node)
      requires nodes != []
      ensures best == Roomiest(nodes, free)
    {
      best := nodes[0];
      assert nodes[..1] == [nodes[0]];
      for i := 1 to |nodes|
        invariant best == Roomiest(nodes[..i], free)
      {
        assert nodes[..i + 1][..i] == nodes[..i];
        if free(nodes[i]) > free(best) {
          best := nodes[i];
        }
      }
      assert nodes[..|nodes|] == nodes;
    }

    /** Mount a partition, as a link to a target or as a directory of its own. A link cannot take
        the place of an entry that is there. All other partitions and the cache stay. */
    method AddPartition(name: Node, linked: bool) returns (ok: bool)
      requires Valid()
      modifies this`directory, this`nodes
      ensures Valid() && ok == !(linked && name in old(nodes))
      ensures ok ==> name in nodes && Elems(nodes) == Elems(old(nodes)) + {name}
      ensures !ok ==> nodes == old(nodes)
      ensures forall e :: e in cache && e.node in old(nodes) ==> e.node in nodes
      ensures ok && name !in old(nodes) ==>
        && Enabled(World(old(nodes), cache, {}), Mount(name, nodes, {}))
        && World(nodes, cache, {}) == Step(World(old(nodes), cache, {}), cacheSize, Mount(name, nodes, {}))
    {
      assert forall n :: n in nodes <==> n in Elems(nodes);
      if linked && name in directory {
        return false;
      }
      directory := directory + {name};
      RefreshPartitions();
      assert forall n :: n in nodes <==> n in Elems(nodes);
      ok := true;
    }

    /** Unmount a partition and purge the cache. The last partition cannot be removed. */
    method RmPartition(name: Node) returns (r: Outcome)
      requires Valid()
      modifies this
      ensures Valid()
      ensures r == if old(nodes) == [] then NoPartitions else if |old(nodes)| == 1 then LastPartition
        else if name !in old(nodes) then NoSuchPartition else Done
      ensures r == Done ==> Elems(nodes) == Elems(old(nodes)) - {name} && cache == []
      ensures r != Done ==> nodes == old(nodes) && cache == old(cache)
      ensures r == Done ==>
        && Enabled(World(old(nodes), old(cache), {}), Unmount(name, nodes))
        && World(nodes, cache, {}) == Step(World(old(nodes), old(cache), {}), cacheSize, Unmount(name, nodes))
      ensures r != Done ==> !Removable(World(old(nodes), old(cache), {}), name)
    {
      if nodes == [] {
        return NoPartitions;
      }
      NoDupSize(nodes);
      assert forall n :: n in nodes <==> n in Elems(nodes);
      if |directory| == 1 {
        return LastPartition;
      }
      if name !in directory {
        return NoSuchPartition;
      }
      directory := directory - {name};
      RefreshPartitions();
      cache := [];
      r := Done;
    }
  }

  lemma {:induction false} WithoutAbsent(cache: Cache, uuid: Uuid)
    requires Find(cache, uuid).None?
    ensures Without(cache, uuid) == cache
  {
    if cache != [] {
      WithoutAbsent(cache[1..], uuid);
    }
  }

  // ---------------------------------------------------------------- the cache as a history

  function Drop(us: seq<Uuid>, u: Uuid): seq<Uuid> {
    if us == [] then [] else (if us[0] == u then [] else [us[0]]) + Drop(us[1..], u)
  }

  /** The distinct uuids of a history, the one looked up last coming last. */
  function Recency(history: seq<Uuid>): seq<Uuid> {
    if history == [] then []
    else var n := |history| - 1; Drop(Recency(history[..n]), history[n]) + [history[n]]
  }

  function LastOf(us: seq<Uuid>, size: nat): seq<Uuid> {
    if |us| <= size then us else us[|us| - size..]
  }

  lemma {:induction false} DropFacts(us: seq<Uuid>, u: Uuid)
    ensures u !in Drop(us, u) && |Drop(us, u)| <= |us|
    ensures forall v :: v in Drop(us, u) <==> v in us && v != u
    ensures NoDup(us) ==> NoDup(Drop(us, u)) && |Drop(us, u)| == |us| - if u in us then 1 else 0
    ensures u !in us ==> Drop(us, u) == us
  {
    if us != [] {
      DropFacts(us[1..], u);
      assert us == [us[0]] + us[1..];
      if NoDup(us) {
        assert NoDup(us[1..]) && us[0] !in us[1..];
      }
    }
  }

  lemma {:induction false} DropAppend(a: seq<Uuid>, b: seq<Uuid>, u: Uuid)
    ensures Drop(a + b, u) == Drop(a, u) + Drop(b, u)
  {
    if a == [] {
      assert a + b == b;
    } else {
      assert (a + b)[0] == a[0] && (a + b)[1..] == a[1..] + b;
      DropAppend(a[1..], b, u);
    }
  }

  lemma KeysAppend(a: Cache, b: Cache)
    ensures Keys(a + b) == Keys(a) + Keys(b)
  {
  }

  lemma KeysFirst(cache: Cache)
    requires cache != []
    ensures Keys(cache)[1..] == Keys(cache[1..]) && Keys([cache[0]]) == [cache[0].uuid] && Keys([]) == []
  {
  }

  lemma {:induction false} WithoutKeys(cache: Cache, u: Uuid)
    ensures Keys(Without(cache, u)) == Drop(Keys(cache), u)
  {
    if cache != [] {
      WithoutKeys(cache[1..], u);
      KeysFirst(cache);
      hide Keys;
      KeysAppend(if cache[0].uuid == u then [] else [cache[0]], Without(cache[1..], u));
    }
  }

  lemma {:induction false} RecencyNoDup(history: seq<Uuid>)
    ensures NoDup(Recency(history)) && forall u :: u in Recency(history) <==> u in history
  {
    if history != [] {
      var n := |history| - 1;
      RecencyNoDup(history[..n]);
      DropFacts(Recency(history[..n]), history[n]);
      assert history == history[..n] + [history[n]];
    }
  }

  function Trimmed<T>(rest: seq<T>, size: nat): seq<T> {
    if |rest| >= size && rest != [] then rest[1..] else rest
  }

  lemma LastOfAppend(a: seq<Uuid>, b: seq<Uuid>, size: nat)
    requires |b| == size || (a == [] && |b| <= size)
    ensures LastOf(a + b, size) == b
  {
    assert (a + b)[|a|..] == b;
  }

  lemma ApartWhenNoDup(a: seq<Uuid>, b: seq<Uuid>)
    requires NoDup(a + b)
    ensures NoDup(a) && NoDup(b) && forall u :: u in a ==> u !in b
  {
    forall i, j | 0 <= i < |a| && 0 <= j < |b|
      ensures a[i] != b[j]
    {
      assert (a + b)[i] == a[i] && (a + b)[|a| + j] == b[j];
    }
    assert forall i :: 0 <= i < |a| ==> a[i] == (a + b)[i];
    assert forall j :: 0 <= j < |b| ==> b[j] == (a + b)[|a| + j];
  }

  lemma FirstFallsOut(gone: seq<Uuid>, kept: seq<Uuid>, u: Uuid, size: nat)
    requires |kept| == size > 0
    ensures kept[1..] + [u] == LastOf(gone + kept + [u], size)
  {
    assert gone + kept + [u] == (gone + kept[..1]) + (kept[1..] + [u]);
    LastOfAppend(gone + kept[..1], kept[1..] + [u], size);
  }

  /** Dropping a uuid and putting it last keeps the last `size`, however it was there before. */
  lemma TouchLast(gone: seq<Uuid>, kept: seq<Uuid>, u: Uuid, size: nat)
    requires NoDup(gone + kept) && size > 0 && |kept| <= size && (gone != [] ==> |kept| == size)
    ensures Trimmed(Drop(kept, u), size) + [u] == LastOf(Drop(gone + kept, u) + [u], size)
  {
    ApartWhenNoDup(gone, kept);
    DropAppend(gone, kept, u);
    DropFacts(gone, u);
    DropFacts(kept, u);
    assert NoDup(kept);
    var rest := Drop(kept, u);
    hide Drop, LastOf;
    if u in kept {
      assert Drop(gone + kept, u) + [u] == gone + (rest + [u]);
      LastOfAppend(gone, rest + [u], size);
    } else if |kept| < size {
      assert Drop(gone + kept, u) + [u] == [] + (kept + [u]);
      LastOfAppend([], kept + [u], size);
    } else {
      FirstFallsOut(Drop(gone, u), kept, u, size);
    }
  }

  lemma KeysOfTouch(cache: Cache, size: nat, e: Entry)
    ensures Keys(Touch(cache, size, e)) == Trimmed(Drop(Keys(cache), e.uuid), size) + [e.uuid]
  {
    WithoutKeys(cache, e.uuid);
    var rest := Without(cache, e.uuid);
    hide Drop, Without;
    assert Keys(Trimmed(rest, size)) == Trimmed(Keys(rest), size);
    assert Keys(Trimmed(rest, size) + [e]) == Keys(Trimmed(rest, size)) + [e.uuid];
  }

  /** The keys after one more lookup. */
  lemma TouchKeys(cache: Cache, size: nat, e: Entry, all: seq<Uuid>)
    requires size > 0 && NoDup(all) && Keys(cache) == LastOf(all, size)
    ensures Keys(Touch(cache, size, e)) == LastOf(Drop(all, e.uuid) + [e.uuid], size)
  {
    var kept := LastOf(all, size);
    var gone := all[..|all| - |kept|];
    assert all == gone + kept;
    hide Drop, LastOf, Touch, Keys;
    TouchLast(gone, kept, e.uuid, size);
    KeysOfTouch(cache, size, e);
  }

  /** The cache as a function of the lookups since the last purge. */
  function Replay(history: seq<Entry>, size: nat): Cache {
    if history == [] then []
    else Touch(Replay(history[..|history| - 1], size), size, history[|history| - 1])
  }

  /** The cache holds exactly the last distinct uuids looked up since the last purge, in the
      order in which they were last looked up. */
  lemma {:induction false} CacheIsRecent(history: seq<Entry>, size: nat)
    requires size > 0
    ensures Keys(Replay(history, size)) == LastOf(Recency(Keys(history)), size)
  {
    if history != [] {
      var n := |history| - 1;
      CacheIsRecent(history[..n], size);
      assert Keys(history)[..n] == Keys(history[..n]);
      RecencyNoDup(Keys(history[..n]));
      TouchKeys(Replay(history[..n], size), size, history[n], Recency(Keys(history[..n])));
    }
  }

  /** In the recency order, a uuid comes after another when it was looked up after it for the
      last time. */
  lemma {:induction false} RecencyByLastLookup(history: seq<Uuid>, i: nat, j: nat) returns (a: nat, b: nat)
    requires i < j < |history|
    requires forall k :: i < k < |history| ==> history[k] != history[i]
    requires forall k :: j < k < |history| ==> history[k] != history[j]
    ensures a < b < |Recency(history)| && Recency(history)[a] == history[i] && Recency(history)[b] == history[j]
  {
    var n := |history| - 1;
    var before, last := Recency(history[..n]), history[n];
    var rest := Drop(before, last);
    assert Recency(history) == rest + [last];
    if j == n {
      DropFacts(before, last);
      RecencyNoDup(history[..n]);
      assert history[i] == history[..n][i];
      assert history[i] in rest;
      a :| 0 <= a < |rest| && rest[a] == history[i];
      b := |rest|;
    } else {
      hide Recency;
      a, b := RecencyByLastLookup(history[..n], i, j);
      a, b := DropKeepsOrder(before, last, a, b);
    }
  }

  lemma {:induction false} DropKeepsOrder(us: seq<Uuid>, u: Uuid, a: nat, b: nat) returns (c: nat, d: nat)
    requires a < b < |us| && us[a] != u && us[b] != u
    ensures c < d < |Drop(us, u)| && Drop(us, u)[c] == us[a] && Drop(us, u)[d] == us[b]
  {
    assert us == us[..b] + us[b..];
    DropAppend(us[..b], us[b..], u);
    DropFacts(us[..b], u);
    assert us[a] == us[..b][a] && us[a] in us[..b];
    c :| 0 <= c < |Drop(us[..b], u)| && Drop(us[..b], u)[c] == us[a];
    d := |Drop(us[..b], u)|;
    assert us[b..][0] == us[b];
  }

  // ---------------------------------------------------------------- where a bundle is found

  /** The store together with what is on the mounted partitions. */
  datatype World = World(nodes: seq<Node>, cache: Cache, files: set<(Node, Uuid)>)

  datatype Op =
    | Lookup(uuid: Uuid, free: Node -> nat)
    | Write(node: Node, uuid: Uuid)
    | Mount(name: Node, listing: seq<Node>, contents: set<Uuid>)
    | Unmount(name: Node, listing: seq<Node>)

  predicate Removable(w: World, name: Node) {
    |w.nodes| > 1 && name in w.nodes
  }

  ghost predicate Enabled(w: World, op: Op) {
    match op
    case Lookup(_, _) => true
    case Write(_, _) => true
    case Mount(name, listing, _) => name !in w.nodes && NoDup(listing) && Elems(listing) == Elems(w.nodes) + {name}
    case Unmount(name, listing) => NoDup(listing) && Elems(listing) == Elems(w.nodes) - {name}
  }

  function Step(w: World, size: nat, op: Op): World {
    match op
    case Lookup(uuid, free) =>
      if w.nodes == [] then w
      else w.(cache := Touch(w.cache, size, Entry(uuid, Location(w.nodes, w.cache, Disks(w.files, free), uuid))))
    case Write(node, uuid) => w.(files := w.files + {(node, uuid)})
    case Mount(name, listing, contents) =>
      w.(nodes := listing, files := (set f | f in w.files && f.0 != name) + set u | u in contents :: (name, u))
    case Unmount(name, listing) =>
      if Removable(w, name) then World(listing, [], set f | f in w.files && f.0 != name) else w
  }

  /** `u` is on disk `d` and on no other mounted disk, and no cached location says otherwise. */
  ghost predicate Home(w: World, u: Uuid, d: Node) {
    && d in w.nodes && (d, u) in w.files
    && (forall n :: n in w.nodes && (n, u) in w.files ==> n == d)
    && forall e :: e in w.cache && e.uuid == u ==> e.node == d
  }

  /** `u` is nowhere yet, and `d` is where it was last located. */
  ghost predicate Awaited(w: World, u: Uuid, d: Node) {
    && d in w.nodes && (forall n :: n in w.nodes ==> (n, u) !in w.files)
    && forall e :: e in w.cache && e.uuid == u ==> e.node == d
  }

  /** Every cached location is on a mounted partition. */
  ghost predicate CacheMounted(w: World) {
    forall e :: e in w.cache ==> e.node in w.nodes
  }

  /** What leaves a bundle at home: no copy of it elsewhere, and its disk staying. */
  ghost predicate Leaves(w: World, u: Uuid, d: Node, op: Op) {
    match op
    case Lookup(_, _) => true
    case Write(node, v) => v == u && node in w.nodes ==> node == d
    case Mount(_, _, contents) => u !in contents
    case Unmount(name, _) => name == d ==> !Removable(w, name)
  }

  lemma {:induction false} FindEntry(cache: Cache, u: Uuid)
    ensures Find(cache, u).Some? ==> Entry(u, Find(cache, u).value) in cache
    ensures Find(cache, u).None? ==> forall e :: e in cache ==> e.uuid != u
  {
    if cache != [] {
      FindEntry(cache[1..], u);
    }
  }

  lemma {:induction false} WithoutElems(cache: Cache, u: Uuid)
    ensures forall e :: e in Without(cache, u) ==> e in cache && e.uuid != u
  {
    if cache != [] {
      WithoutElems(cache[1..], u);
    }
  }

  lemma TouchElems(cache: Cache, size: nat, e: Entry)
    ensures forall f :: f in Touch(cache, size, e) ==> f == e || (f in cache && f.uuid != e.uuid)
    ensures e in Touch(cache, size, e)
  {
    WithoutElems(cache, e.uuid);
  }

  lemma {:induction false} SearchFinds(nodes: seq<Node>, files: set<(Node, Uuid)>, u: Uuid)
    ensures var found := Search(nodes, files, u);
      if found.Some? then found.value in nodes && (found.value, u) in files
      else forall n :: n in nodes ==> (n, u) !in files
  {
    if nodes != [] {
      SearchFinds(nodes[1..], files, u);
    }
  }

  /** A located bundle is located on a mounted partition. */
  lemma LocationMounted(w: World, free: Node -> nat, u: Uuid)
    requires w.nodes != [] && CacheMounted(w)
    ensures Location(w.nodes, w.cache, Disks(w.files, free), u) in w.nodes
  {
    FindEntry(w.cache, u);
    SearchFinds(w.nodes, w.files, u);
    var k := RoomiestIsBest(w.nodes, free);
  }

  lemma CacheMountedKept(w: World, size: nat, op: Op)
    requires CacheMounted(w) && Enabled(w, op)
    ensures CacheMounted(Step(w, size, op))
  {
    match op
    case Lookup(u, free) =>
      if w.nodes != [] {
        LocationMounted(w, free, u);
        TouchElems(w.cache, size, Entry(u, Location(w.nodes, w.cache, Disks(w.files, free), u)));
      }
    case Mount(name, listing, contents) =>
      assert forall n :: n in w.nodes ==> n in Elems(listing);
    case _ =>
  }

  /** A bundle that is at home is located there. */
  lemma HomeLocated(w: World, free: Node -> nat, u: Uuid, d: Node)
    requires Home(w, u, d)
    ensures Location(w.nodes, w.cache, Disks(w.files, free), u) == d
  {
    FindEntry(w.cache, u);
    SearchFinds(w.nodes, w.files, u);
  }

  /** A step leaves a bundle at home exactly when it brings no copy and leaves the disk. */
  lemma HomeKept(w: World, size: nat, op: Op, u: Uuid, d: Node)
    requires Home(w, u, d) && Enabled(w, op)
    ensures Home(Step(w, size, op), u, d) <==> Leaves(w, u, d, op)
  {
    match op
    case Lookup(v, free) =>
      HomeLocated(w, free, u, d);
      TouchElems(w.cache, size, Entry(v, Location(w.nodes, w.cache, Disks(w.files, free), v)));
    case Write(node, v) =>
      assert v == u ==> (node, u) in Step(w, size, op).files;
    case Mount(name, listing, contents) =>
      assert d in Elems(w.nodes) && (forall n :: n in listing <==> n in Elems(listing)) && name in Elems(listing);
      assert u in contents ==> (name, u) in Step(w, size, op).files;
    case Unmount(name, listing) =>
      assert forall n :: n in listing <==> n in Elems(listing);
      assert forall n :: n in w.nodes <==> n in Elems(w.nodes);
  }

  /** Looking a bundle up that is nowhere settles where it is awaited. */
  lemma LookupAwaits(w: World, size: nat, u: Uuid, free: Node -> nat)
    requires w.nodes != [] && CacheMounted(w) && forall n :: n in w.nodes ==> (n, u) !in w.files
    ensures Awaited(Step(w, size, Lookup(u, free)), u, Location(w.nodes, w.cache, Disks(w.files, free), u))
  {
    LocationMounted(w, free, u);
    TouchElems(w.cache, size, Entry(u, Location(w.nodes, w.cache, Disks(w.files, free), u)));
  }

  lemma AwaitedKept(w: World, size: nat, op: Op, u: Uuid, d: Node)
    requires Awaited(w, u, d) && Enabled(w, op) && Leaves(w, u, d, op)
    requires !((op.Lookup? || op.Write?) && op.uuid == u)
    ensures Awaited(Step(w, size, op), u, d)
  {
    match op
    case Lookup(v, free) =>
      if w.nodes != [] {
        TouchElems(w.cache, size, Entry(v, Location(w.nodes, w.cache, Disks(w.files, free), v)));
      }
    case Mount(name, listing, contents) =>
      assert d in Elems(w.nodes) && forall n :: n in listing <==> n in Elems(listing);
    case Unmount(name, listing) =>
      assert forall n :: n in listing <==> n in Elems(listing);
      assert d in Elems(w.nodes);
    case _ =>
  }

  // ---------------------------------------------------------------- runs

  ghost predicate IsRun(run: seq<World>, ops: seq<Op>, size: nat) {
    && |run| == |ops| + 1
    && forall i :: 0 <= i < |ops| ==> Enabled(run[i], ops[i]) && run[i + 1] == Step(run[i], size, ops[i])
  }

  /** The lookups since the last purge, in order, with their answers: a lookup with partitions
      mounted is one, and unmounting a partition purges. */
  function LookedUp(run: seq<World>, ops: seq<Op>, n: nat): seq<Entry>
    requires n <= |ops| < |run|
  {
    if n == 0 then []
    else
      var w, op, before := run[n - 1], ops[n - 1], LookedUp(run, ops, n - 1);
      if op.Lookup? && w.nodes != [] then
        before + [Entry(op.uuid, Location(w.nodes, w.cache, Disks(w.files, op.free), op.uuid))]
      else if op.Unmount? && Removable(w, op.name) then []
      else before
  }

  lemma {:induction false} CacheReplays(run: seq<World>, ops: seq<Op>, size: nat, n: nat)
    requires IsRun(run, ops, size) && n <= |ops| && run[0].cache == []
    ensures run[n].cache == Replay(LookedUp(run, ops, n), size)
  {
    if n > 0 {
      CacheReplays(run, ops, size, n - 1);
      var w, op, before := run[n - 1], ops[n - 1], LookedUp(run, ops, n - 1);
      assert run[n] == Step(w, size, op);
      hide Touch, Location, Enabled, IsRun;
      if op.Lookup? && w.nodes != [] {
        var e := Entry(op.uuid, Location(w.nodes, w.cache, Disks(w.files, op.free), op.uuid));
        assert (before + [e])[..|before|] == before;
      }
    }
  }

  /** In every run the cache holds exactly the last `size` distinct uuids looked up since the last
      purge, in the order in which they were last looked up. */
  lemma CacheOverRuns(run: seq<World>, ops: seq<Op>, size: nat, n: nat)
    requires IsRun(run, ops, size) && size > 0 && n <= |ops| && run[0].cache == []
    ensures Keys(run[n].cache) == LastOf(Recency(Keys(LookedUp(run, ops, n))), size)
    ensures NoDup(Keys(run[n].cache))
  {
    CacheReplays(run, ops, size, n);
    CacheIsRecent(LookedUp(run, ops, n), size);
    RecencyNoDup(Keys(LookedUp(run, ops, n)));
  }

  lemma {:induction false} CacheMountedOverRuns(run: seq<World>, ops: seq<Op>, size: nat, n: nat)
    requires IsRun(run, ops, size) && n <= |ops| && run[0].cache == []
    ensures CacheMounted(run[n])
  {
    if n > 0 {
      CacheMountedOverRuns(run, ops, size, n - 1);
      CacheMountedKept(run[n - 1], size, ops[n - 1]);
    }
  }

  /** No step from `i` up to `j` looks the bundle up or writes it. */
  ghost predicate Untouched(ops: seq<Op>, i: nat, j: nat, u: Uuid) {
    forall k :: i <= k < j <= |ops| ==> !((ops[k].Lookup? || ops[k].Write?) && ops[k].uuid == u)
  }

  /** Step `i` looks up a bundle that is nowhere, and the answer is `d`. */
  ghost predicate LocatedAt(run: seq<World>, ops: seq<Op>, i: nat, u: Uuid, d: Node)
    requires |run| == |ops| + 1
  {
    && i < |ops| && ops[i].Lookup? && ops[i].uuid == u && run[i].nodes != []
    && (forall n :: n in run[i].nodes ==> (n, u) !in run[i].files)
    && Location(run[i].nodes, run[i].cache, Disks(run[i].files, ops[i].free), u) == d
  }

  lemma {:induction false} StillAwaited(run: seq<World>, ops: seq<Op>, size: nat, u: Uuid, d: Node, i: nat, n: nat)
    requires IsRun(run, ops, size) && run[0].cache == [] && LocatedAt(run, ops, i, u, d)
    requires i < n <= |ops| && Untouched(ops, i + 1, n, u)
    requires forall k :: i < k < n ==> Leaves(run[k], u, d, ops[k])
    ensures Awaited(run[n], u, d)
  {
    if n == i + 1 {
      CacheMountedOverRuns(run, ops, size, i);
      assert run[n] == Step(run[i], size, ops[i]);
      LookupAwaits(run[i], size, u, ops[i].free);
    } else {
      StillAwaited(run, ops, size, u, d, i, n - 1);
      AwaitedKept(run[n - 1], size, ops[n - 1], u, d);
    }
  }

  /** A bundle that was located on a disk when it was nowhere, and then written there, is found on
      that disk from then on, through any lookups, evictions, purges and changes of free space,
      while the partition stays mounted and nothing brings a copy. */
  lemma {:induction false} WrittenIsFound(run: seq<World>, ops: seq<Op>, size: nat, u: Uuid, d: Node,
                                          i: nat, j: nat, n: nat)
    requires IsRun(run, ops, size) && run[0].cache == [] && LocatedAt(run, ops, i, u, d)
    requires i < j < n <= |ops| && Untouched(ops, i + 1, j, u) && ops[j] == Write(d, u)
    requires forall k :: i < k < |ops| ==> Leaves(run[k], u, d, ops[k])
    ensures Home(run[n], u, d)
    ensures forall free :: Location(run[n].nodes, run[n].cache, Disks(run[n].files, free), u) == d
  {
    if n == j + 1 {
      StillAwaited(run, ops, size, u, d, i, j);
      assert run[n] == Step(run[j], size, ops[j]);
    } else {
      WrittenIsFound(run, ops, size, u, d, i, j, n - 1);
      HomeKept(run[n - 1], size, ops[n - 1], u, d);
    }
    forall free
      ensures Location(run[n].nodes, run[n].cache, Disks(run[n].files, free), u) == d
    {
      HomeLocated(run[n], free, u, d);
    }
  }

  // ---------------------------------------------------------------- copies

  /** `d` holds the bundle, and no partition listed before it does. */
  ghost predicate FirstHolds(nodes: seq<Node>, files: set<(Node, Uuid)>, u: Uuid, d: Node) {
    exists k :: 0 <= k < |nodes| && HoldsFirst(nodes, files, u, k) && nodes[k] == d
  }

  ghost predicate Somewhere(w: World, u: Uuid) {
    exists n :: n in w.nodes && (n, u) in w.files
  }

  lemma {:induction false} SearchIsFirst(nodes: seq<Node>, files: set<(Node, Uuid)>, u: Uuid, d: Node)
    ensures Search(nodes, files, u) == Some(d) <==> FirstHolds(nodes, files, u, d)
  {
    if nodes != [] {
      var rest := nodes[1..];
      SearchIsFirst(rest, files, u, d);
      if (nodes[0], u) in files {
        assert nodes[0] == d ==> HoldsFirst(nodes, files, u, 0) && nodes[0] == d;
      } else {
        if k :| 0 <= k < |rest| && HoldsFirst(rest, files, u, k) && rest[k] == d {
          assert HoldsFirst(nodes, files, u, k + 1) && nodes[k + 1] == d;
        }
        if k :| 0 <= k < |nodes| && HoldsFirst(nodes, files, u, k) && nodes[k] == d {
          assert HoldsFirst(rest, files, u, k - 1) && rest[k - 1] == d;
        }
      }
    }
  }

  /** A bundle that is on some mounted partition is located on the disk the cache has for it, and
      without that exactly on the first listed partition that holds it. */
  lemma LocatedExactly(w: World, free: Node -> nat, u: Uuid, d: Node)
    requires Somewhere(w, u)
    ensures Location(w.nodes, w.cache, Disks(w.files, free), u) == d <==>
      if Find(w.cache, u).Some? then Find(w.cache, u) == Some(d) else FirstHolds(w.nodes, w.files, u, d)
  {
    SearchIsFirst(w.nodes, w.files, u, d);
    SearchFinds(w.nodes, w.files, u);
  }

  /** `d` is the first listed partition that holds the bundle, and no cached location says
      otherwise; copies on later partitions do no harm. */
  ghost predicate FoundOn(w: World, u: Uuid, d: Node) {
    && FirstHolds(w.nodes, w.files, u, d)
    && forall e :: e in w.cache && e.uuid == u ==> e.node == d
  }

  /** What keeps `d` first: no copy on a partition listed before it, now or in the new listing. */
  ghost predicate KeepsFirst(w: World, u: Uuid, d: Node, op: Op) {
    match op
    case Lookup(_, _) => true
    case Write(node, v) => v == u ==> !ListedBefore(w.nodes, node, d)
    case Mount(name, listing, contents) =>
      forall n :: ListedBefore(listing, n, d) ==> if n == name then u !in contents else (n, u) !in w.files
    case Unmount(name, listing) =>
      Removable(w, name) ==> name != d && forall n :: ListedBefore(listing, n, d) ==> (n, u) !in w.files
  }

  /** `n` is listed before every place of `d`. */
  ghost predicate ListedBefore(nodes: seq<Node>, n: Node, d: Node) {
    exists i :: 0 <= i < |nodes| && nodes[i] == n && d !in nodes[..i + 1]
  }

  lemma HomeIsFoundOn(w: World, u: Uuid, d: Node)
    requires Home(w, u, d)
    ensures FoundOn(w, u, d)
  {
    HomeLocated(w, _ => 0, u, d);
    SearchFinds(w.nodes, w.files, u);
    SearchIsFirst(w.nodes, w.files, u, d);
  }

  lemma FoundLocated(w: World, free: Node -> nat, u: Uuid, d: Node)
    requires FoundOn(w, u, d)
    ensures w.nodes != [] && Somewhere(w, u) && Location(w.nodes, w.cache, Disks(w.files, free), u) == d
  {
    FindEntry(w.cache, u);
    SearchIsFirst(w.nodes, w.files, u, d);
    SearchFinds(w.nodes, w.files, u);
  }

  /** `d` is first exactly when it is listed, has the bundle, and nothing listed before it has. */
  lemma FirstIff(nodes: seq<Node>, files: set<(Node, Uuid)>, u: Uuid, d: Node)
    ensures FirstHolds(nodes, files, u, d) <==>
      d in nodes && (d, u) in files && forall n :: ListedBefore(nodes, n, d) ==> (n, u) !in files
  {
    if k :| 0 <= k < |nodes| && HoldsFirst(nodes, files, u, k) && nodes[k] == d {
      forall n | ListedBefore(nodes, n, d)
        ensures (n, u) !in files
      {
        var i :| 0 <= i < |nodes| && nodes[i] == n && d !in nodes[..i + 1];
        assert forall m :: 0 <= m <= i ==> nodes[m] == nodes[..i + 1][m];
      }
    }
    if d in nodes && (d, u) in files && forall n :: ListedBefore(nodes, n, d) ==> (n, u) !in files {
      var k := FirstPlace(nodes, d);
      forall m | 0 <= m < k
        ensures (nodes[m], u) !in files
      {
        assert ListedBefore(nodes, nodes[m], d);
      }
      assert HoldsFirst(nodes, files, u, k) && nodes[k] == d;
    }
  }

  lemma {:induction false} FirstPlace(nodes: seq<Node>, d: Node) returns (k: nat)
    requires d in nodes
    ensures k < |nodes| && nodes[k] == d && d !in nodes[..k]
  {
    if nodes[0] == d {
      k := 0;
    } else {
      k := FirstPlace(nodes[1..], d);
      k := k + 1;
      assert nodes[..k] == [nodes[0]] + nodes[1..][..k - 1];
    }
  }

  lemma BeforeIsListed(nodes: seq<Node>, n: Node, d: Node)
    requires ListedBefore(nodes, n, d)
    ensures n in nodes && n != d
  {
    var i :| 0 <= i < |nodes| && nodes[i] == n && d !in nodes[..i + 1];
    assert nodes[..i + 1][i] == n;
  }

  lemma MountKeepsFirst(w: World, size: nat, name: Node, listing: seq<Node>, contents: set<Uuid>, u: Uuid, d: Node)
    requires FoundOn(w, u, d) && Enabled(w, Mount(name, listing, contents))
    ensures FoundOn(Step(w, size, Mount(name, listing, contents)), u, d) <==>
      KeepsFirst(w, u, d, Mount(name, listing, contents))
  {
    var files := Step(w, size, Mount(name, listing, contents)).files;
    FirstIff(w.nodes, w.files, u, d);
    FirstIff(listing, files, u, d);
    hide FirstHolds, ListedBefore;
    assert d in Elems(w.nodes) && d in Elems(listing);
    forall n
      ensures (n, u) in files <==> if n == name then u in contents else (n, u) in w.files
    {
    }
  }

  function FilesWithout(files: set<(Node, Uuid)>, name: Node): set<(Node, Uuid)> {
    set f | f in files && f.0 != name
  }

  lemma FirstWithout(nodes: seq<Node>, files: set<(Node, Uuid)>, listing: seq<Node>, name: Node, u: Uuid, d: Node)
    requires d in nodes && (d, u) in files && Elems(listing) == Elems(nodes) - {name}
    ensures FirstHolds(listing, FilesWithout(files, name), u, d) <==>
      name != d && forall n :: ListedBefore(listing, n, d) ==> (n, u) !in files
  {
    var rest := FilesWithout(files, name);
    FirstIff(listing, rest, u, d);
    assert d in Elems(nodes) && (d in listing <==> d in Elems(listing));
    assert (d, u) in rest <==> d != name;
    forall n | ListedBefore(listing, n, d)
      ensures (n, u) in rest <==> (n, u) in files
    {
      BeforeIsListed(listing, n, d);
      assert n in Elems(listing);
    }
  }

  lemma UnmountKeepsFirst(w: World, size: nat, name: Node, listing: seq<Node>, u: Uuid, d: Node)
    requires FoundOn(w, u, d) && Enabled(w, Unmount(name, listing)) && Removable(w, name)
    ensures FoundOn(Step(w, size, Unmount(name, listing)), u, d) <==> KeepsFirst(w, u, d, Unmount(name, listing))
  {
    assert Step(w, size, Unmount(name, listing)).files == FilesWithout(w.files, name);
    FirstIff(w.nodes, w.files, u, d);
    FirstWithout(w.nodes, w.files, listing, name, u, d);
    hide FirstHolds, ListedBefore, FilesWithout;
  }

  /** A step leaves a bundle found on a disk exactly when it brings no copy before that disk, and
      leaves the disk. */
  lemma FoundKept(w: World, size: nat, op: Op, u: Uuid, d: Node)
    requires FoundOn(w, u, d) && Enabled(w, op)
    ensures FoundOn(Step(w, size, op), u, d) <==> KeepsFirst(w, u, d, op)
  {
    match op
    case Lookup(v, free) =>
      FoundLocated(w, free, u, d);
      TouchElems(w.cache, size, Entry(v, Location(w.nodes, w.cache, Disks(w.files, free), v)));
    case Write(node, v) =>
      FirstIff(w.nodes, w.files, u, d);
      FirstIff(w.nodes, Step(w, size, op).files, u, d);
    case Mount(name, listing, contents) =>
      MountKeepsFirst(w, size, name, listing, contents, u, d);
    case Unmount(name, listing) =>
      if Removable(w, name) {
        UnmountKeepsFirst(w, size, name, listing, u, d);
      }
  }

  /** Wherever a run goes on whose steps keep the disk first, the bundle is found on it. */
  lemma {:induction false} FoundOverRuns(run: seq<World>, ops: seq<Op>, size: nat, u: Uuid, d: Node, n: nat)
    requires IsRun(run, ops, size) && FoundOn(run[0], u, d) && n <= |ops|
    requires forall k :: 0 <= k < |ops| ==> KeepsFirst(run[k], u, d, ops[k])
    ensures FoundOn(run[n], u, d)
    ensures forall free :: Location(run[n].nodes, run[n].cache, Disks(run[n].files, free), u) == d
  {
    if n > 0 {
      FoundOverRuns(run, ops, size, u, d, n - 1);
      FoundKept(run[n - 1], size, ops[n - 1], u, d);
    }
    forall free
      ensures Location(run[n].nodes, run[n].cache, Disks(run[n].files, free), u) == d
    {
      FoundLocated(run[n], free, u, d);
    }
  }

  /** A step that neither brings nor takes a copy of the bundle. */
  ghost predicate MovesNoCopy(w: World, u: Uuid, op: Op) {
    match op
    case Lookup(_, _) => true
    case Write(_, v) => v != u
    case Mount(_, _, contents) => u !in contents
    case Unmount(name, _) => (name, u) !in w.files
  }

  ghost predicate CopylessRun(run: seq<World>, ops: seq<Op>, size: nat, u: Uuid) {
    IsRun(run, ops, size) && forall k :: 0 <= k < |ops| ==> MovesNoCopy(run[k], u, ops[k])
  }

  /** Such a step that lists the partitions in the order they had, a new one last. */
  ghost predicate KeepsOrder(w: World, u: Uuid, op: Op) {
    && MovesNoCopy(w, u, op)
    && (op.Mount? ==> op.listing == w.nodes + [op.name])
    && (op.Unmount? ==> op.listing == Drop(w.nodes, op.name))
  }

  ghost predicate OrderedRun(run: seq<World>, ops: seq<Op>, size: nat, u: Uuid) {
    IsRun(run, ops, size) && forall k :: 0 <= k < |ops| ==> KeepsOrder(run[k], u, ops[k])
  }

  predicate LocatedOn(w: World, free: Node -> nat, u: Uuid, d: Node) {
    w.nodes != [] && Location(w.nodes, w.cache, Disks(w.files, free), u) == d
  }

  /** Whatever is looked up, written, mounted and unmounted from now on that has no copy of it, and in
      whatever order the partitions are listed, the bundle is located on `d`. */
  ghost predicate StaysOn(w: World, size: nat, u: Uuid, d: Node) {
    forall run: seq<World>, ops: seq<Op>, free: Node -> nat ::
      CopylessRun(run, ops, size, u) && run[0] == w ==> LocatedOn(run[|ops|], free, u, d)
  }

  /** The same as long as the partitions are listed in their old order. */
  ghost predicate StaysInOrder(w: World, size: nat, u: Uuid, d: Node) {
    forall run: seq<World>, ops: seq<Op>, free: Node -> nat ::
      OrderedRun(run, ops, size, u) && run[0] == w ==> LocatedOn(run[|ops|], free, u, d)
  }

  lemma {:induction false} DropSearch(nodes: seq<Node>, files: set<(Node, Uuid)>, u: Uuid, name: Node)
    requires (name, u) !in files
    ensures Search(Drop(nodes, name), (set f | f in files && f.0 != name), u) == Search(nodes, files, u)
  {
    if nodes != [] {
      DropSearch(nodes[1..], files, u, name);
      var first := if nodes[0] == name then [] else [nodes[0]];
      assert first == [nodes[0]] ==> (first + Drop(nodes[1..], name))[1..] == Drop(nodes[1..], name);
      assert first == [] ==> first + Drop(nodes[1..], name) == Drop(nodes[1..], name);
    }
  }

  lemma {:induction false} MountSearch(nodes: seq<Node>, files: set<(Node, Uuid)>, more: set<(Node, Uuid)>, u: Uuid, name: Node)
    requires name !in nodes && forall n :: n in nodes ==> ((n, u) in files <==> (n, u) in more)
    requires (name, u) !in more
    ensures Search(nodes + [name], more, u) == Search(nodes, files, u)
  {
    if nodes != [] {
      assert (nodes + [name])[0] == nodes[0] && (nodes + [name])[1..] == nodes[1..] + [name];
      MountSearch(nodes[1..], files, more, u, name);
    }
  }

  lemma OrderKeeps(w: World, size: nat, op: Op, u: Uuid, d: Node)
    requires KeepsOrder(w, u, op) && Enabled(w, op) && FoundOn(w, u, d)
    ensures FoundOn(Step(w, size, op), u, d)
  {
    var t := Step(w, size, op);
    SearchIsFirst(w.nodes, w.files, u, d);
    SearchIsFirst(t.nodes, t.files, u, d);
    match op
    case Lookup(v, free) =>
      FoundLocated(w, free, u, d);
      TouchElems(w.cache, size, Entry(v, Location(w.nodes, w.cache, Disks(w.files, free), v)));
    case Write(node, v) =>
      SameSearch(w.nodes, w.files, t.files, u);
    case Mount(name, listing, contents) =>
      MountSearch(w.nodes, w.files, t.files, u, name);
    case Unmount(name, listing) =>
      DropSearch(w.nodes, w.files, u, name);
  }

  lemma {:induction false} SameSearch(nodes: seq<Node>, files: set<(Node, Uuid)>, more: set<(Node, Uuid)>, u: Uuid)
    requires forall n :: n in nodes ==> ((n, u) in files <==> (n, u) in more)
    ensures Search(nodes, more, u) == Search(nodes, files, u)
  {
    if nodes != [] {
      SameSearch(nodes[1..], files, more, u);
    }
  }

  /** A name no partition has. */
  lemma {:induction false} FreshName(nodes: seq<Node>) returns (name: Node)
    ensures (forall n :: n in nodes ==> |n| < |name|) && name !in nodes
  {
    if nodes == [] {
      name := "";
    } else {
      var other := FreshName(nodes[1..]);
      name := other + nodes[0] + "x";
    }
  }

  lemma MountLast(nodes: seq<Node>, name: Node)
    requires NoDup(nodes) && name !in nodes
    ensures NoDup(nodes + [name]) && Elems(nodes + [name]) == Elems(nodes) + {name}
    ensures Elems(nodes) == Elems(nodes + [name]) - {name} && Drop(nodes + [name], name) == nodes
  {
    NoDupSnoc(nodes, name);
    DropLast(nodes, name);
  }

  /** Mounting an empty partition and taking it away again purges the cache, may list the partitions
      in any order, and changes nothing else that matters to the bundle. */
  lemma Purge(w: World, size: nat, u: Uuid, order: seq<Node>) returns (run: seq<World>, ops: seq<Op>)
    requires NoDup(order) && Elems(order) == Elems(w.nodes) && order != []
    ensures CopylessRun(run, ops, size, u) && run[0] == w
    ensures order == w.nodes ==> OrderedRun(run, ops, size, u)
    ensures var t := run[|ops|];
      t.nodes == order && t.cache == [] && forall n :: n in w.nodes ==> ((n, u) in t.files <==> (n, u) in w.files)
  {
    var name := FreshName(w.nodes);
    var more := order + [name];
    assert name !in Elems(order);
    MountLast(order, name);
    hide Drop;
    var v := World(more, w.cache, set f | f in w.files && f.0 != name);
    assert Step(w, size, Mount(name, more, {})) == v;
    var t := World(order, [], set f | f in v.files && f.0 != name);
    assert Step(v, size, Unmount(name, order)) == t;
    ops := [Mount(name, more, {}), Unmount(name, order)];
    run := [w, v, t];
  }

  lemma DropLast(nodes: seq<Node>, name: Node)
    requires name !in nodes
    ensures Drop(nodes + [name], name) == nodes
  {
    DropAppend(nodes, [name], name);
    DropFacts(nodes, name);
    assert [name][1..] == [];
  }

  lemma {:induction false} OneEntry(cache: Cache, e: Entry)
    requires NoDup(Keys(cache)) && e in cache
    ensures Find(cache, e.uuid) == Some(e.node)
  {
    if cache[0] != e {
      var i :| 0 <= i < |cache| && cache[i] == e;
      assert Keys(cache)[0] != Keys(cache)[i];
      assert Keys(cache[1..]) == Keys(cache)[1..];
      OneEntry(cache[1..], e);
    }
  }

  /** With a copy on a partition listed before it, or another location in the cache, a disk is not
      the answer for good: it is not the answer now, or it is no more once the cache is purged. */
  lemma CopyMisleads(w: World, size: nat, u: Uuid, d: Node) returns (run: seq<World>, ops: seq<Op>)
    requires NoDup(w.nodes) && NoDup(Keys(w.cache)) && Somewhere(w, u) && !FoundOn(w, u, d)
    ensures OrderedRun(run, ops, size, u) && run[0] == w
    ensures forall free :: !LocatedOn(run[|ops|], free, u, d)
  {
    SearchIsFirst(w.nodes, w.files, u, d);
    SearchFinds(w.nodes, w.files, u);
    FindEntry(w.cache, u);
    if FirstHolds(w.nodes, w.files, u, d) {
      var e :| e in w.cache && e.uuid == u && e.node != d;
      OneEntry(w.cache, e);
      run, ops := [w], [];
    } else {
      run, ops := Purge(w, size, u, w.nodes);
      SameSearch(w.nodes, w.files, run[|ops|].files, u);
    }
  }

  lemma {:induction false} OrderFound(run: seq<World>, ops: seq<Op>, size: nat, u: Uuid, d: Node, n: nat)
    requires OrderedRun(run, ops, size, u) && FoundOn(run[0], u, d) && n <= |ops|
    ensures FoundOn(run[n], u, d)
  {
    if n > 0 {
      OrderFound(run, ops, size, u, d, n - 1);
      OrderKeeps(run[n - 1], size, ops[n - 1], u, d);
    }
  }

  /** As long as partitions are listed in the order they had, a new one last, a bundle that is on some
      mounted partition stays located on a disk, whatever happens that has no copy of it, exactly when
      that disk is the first listed one that holds it and the cache does not say otherwise. */
  lemma InOrderExactly(w: World, size: nat, u: Uuid, d: Node)
    requires NoDup(w.nodes) && NoDup(Keys(w.cache)) && Somewhere(w, u)
    ensures StaysInOrder(w, size, u, d) <==> FoundOn(w, u, d)
  {
    if FoundOn(w, u, d) {
      forall run: seq<World>, ops: seq<Op>, free: Node -> nat | OrderedRun(run, ops, size, u) && run[0] == w
        ensures LocatedOn(run[|ops|], free, u, d)
      {
        OrderFound(run, ops, size, u, d, |ops|);
        FoundLocated(run[|ops|], free, u, d);
      }
    } else {
      var run, ops := CopyMisleads(w, size, u, d);
      assert !LocatedOn(run[|ops|], _ => 0, u, d);
    }
  }

  /** Any copy elsewhere misleads the search once the file system lists its partition first. */
  lemma AnyCopyMisleads(w: World, size: nat, u: Uuid, d: Node, n: Node) returns (run: seq<World>, ops: seq<Op>)
    requires NoDup(w.nodes) && n in w.nodes && (n, u) in w.files && n != d
    ensures CopylessRun(run, ops, size, u) && run[0] == w
    ensures forall free :: !LocatedOn(run[|ops|], free, u, d)
  {
    var order := [n] + Drop(w.nodes, n);
    CopyFirst(w.nodes, n);
    run, ops := Purge(w, size, u, order);
    assert Search(order, run[|ops|].files, u) == Some(n);
  }

  lemma CopyFirst(nodes: seq<Node>, n: Node)
    requires NoDup(nodes) && n in nodes
    ensures NoDup([n] + Drop(nodes, n)) && Elems([n] + Drop(nodes, n)) == Elems(nodes)
  {
    DropFacts(nodes, n);
    hide Drop;
  }

  lemma {:induction false} HomeOverRuns(run: seq<World>, ops: seq<Op>, size: nat, u: Uuid, d: Node, n: nat)
    requires CopylessRun(run, ops, size, u) && Home(run[0], u, d) && n <= |ops|
    ensures Home(run[n], u, d)
  {
    if n > 0 {
      HomeOverRuns(run, ops, size, u, d, n - 1);
      assert MovesNoCopy(run[n - 1], u, ops[n - 1]);
      HomeKept(run[n - 1], size, ops[n - 1], u, d);
    }
  }

  lemma Misled(w: World, size: nat, u: Uuid, d: Node) returns (run: seq<World>, ops: seq<Op>)
    requires NoDup(w.nodes) && NoDup(Keys(w.cache)) && Somewhere(w, u) && !Home(w, u, d)
    ensures CopylessRun(run, ops, size, u) && run[0] == w
    ensures forall free :: !LocatedOn(run[|ops|], free, u, d)
  {
    if FoundOn(w, u, d) {
      FirstIff(w.nodes, w.files, u, d);
      var n :| n in w.nodes && (n, u) in w.files && n != d;
      run, ops := AnyCopyMisleads(w, size, u, d, n);
    } else {
      run, ops := CopyMisleads(w, size, u, d);
    }
  }

  /** Where the answer settles: a bundle that is on some mounted partition stays located on a disk,
      whatever is looked up, mounted and unmounted that has no copy of it and in whatever order the
      partitions are then listed, exactly when no other mounted disk holds it and no cached location
      says otherwise. */
  lemma StaysExactly(w: World, size: nat, u: Uuid, d: Node)
    requires NoDup(w.nodes) && NoDup(Keys(w.cache)) && Somewhere(w, u)
    ensures StaysOn(w, size, u, d) <==> Home(w, u, d)
  {
    if Home(w, u, d) {
      forall run: seq<World>, ops: seq<Op>, free: Node -> nat | CopylessRun(run, ops, size, u) && run[0] == w
        ensures LocatedOn(run[|ops|], free, u, d)
      {
        HomeOverRuns(run, ops, size, u, d, |ops|);
        HomeIsFoundOn(run[|ops|], u, d);
        FoundLocated(run[|ops|], free, u, d);
      }
    } else {
      var run, ops := Misled(w, size, u, d);
      assert !LocatedOn(run[|ops|], _ => 0, u, d);
    }
  }
}
