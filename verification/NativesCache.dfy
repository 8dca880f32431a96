/** The build cache: looking an entry up, filling a workspace from it, capturing one, and evicting the oldest. */
module NativesCache {
  import opened Basics
  import opened CacheFiles

  const COMPANIONS: nat := 3

  /** A complete entry: its manifest, a `.node` file, and all companions. */
  ghost predicate Complete(f: Files, key: Key) {
    f.Has(InCache(key, Manifest)) && (exists id :: f.Has(InCache(key, Node(id))))
    && forall k: nat | k < COMPANIONS :: f.Has(InCache(key, Companion(k)))
  }

  /** What a capture needs to find in a workspace. */
  ghost predicate Built(f: Files, ws: Workspace) {
    (exists id :: f.Has(InWork(ws, Node(id)))) && forall k: nat | k < COMPANIONS :: f.Has(InWork(ws, Companion(k)))
  }

  ghost predicate Same(f: Files, g: Files, p: Path) {
    g.Content(p) == f.Content(p) && (g.Has(p) <==> f.Has(p))
  }

  predicate OfWorkspace(p: Path, ws: Workspace) { p.InWork? && p.ws == ws }

  predicate Staged(p: Path, key: Key) { p.InStaging? && p.key == key }

  /** Nothing has changed outside the workspace. */
  ghost predicate OnlyWorkspace(f: Files, g: Files, ws: Workspace) {
    forall p :: OfWorkspace(p, ws) || Same(f, g, p)
  }

  /** Nothing has changed outside the staging directory of key. */
  ghost predicate OnlyStaging(f: Files, g: Files, key: Key) {
    forall p :: Staged(p, key) || Same(f, g, p)
  }

  /** Nothing has changed outside the entry of key and its staging directory. */
  ghost predicate OnlyEntry(f: Files, g: Files, key: Key) {
    forall p: Path :: (!p.InWork? && p.key == key) || Same(f, g, p)
  }

  /** The target has the bytes of the source, and no other path has changed. */
  ghost predicate Delivered(f: Files, g: Files, src: Path, dst: Path) {
    g.Has(dst) && g.Content(dst) == f.Content(src) && forall p | p != dst :: Same(f, g, p)
  }

  class Cache {
    var files: Files
    const maxEntries: nat
    const maxBytes: nat

    constructor (files: Files, maxEntries: int, maxBytes: int)
      ensures this.files == files && this.maxEntries >= 1
      ensures this.maxEntries == (if maxEntries > 1 then maxEntries else 1)
      ensures this.maxBytes == (if maxBytes > 0 then maxBytes else 0)
    {
      this.files := files;
      this.maxEntries := if maxEntries > 1 then maxEntries else 1;
      this.maxBytes := if maxBytes > 0 then maxBytes else 0;
    }

    /** `lookup`. */
    method Lookup(key: Key) returns (hit: bool)
      ensures hit <==> Complete(files, key)
    {
      if InCache(key, Manifest) !in files.at { return false; }
      var nodes := set p | p in files.at && p.InCache? && p.key == key && p.name.Node?;
      if nodes == {} {
        assert forall id :: files.Has(InCache(key, Node(id))) ==> InCache(key, Node(id)) in nodes;
        return false;
      }
      for k := 0 to COMPANIONS
        invariant forall j: nat | j < k :: files.Has(InCache(key, Companion(j)))
      {
        if InCache(key, Companion(k)) !in files.at { return false; }
      }
      var p :| p in nodes;
      assert p == InCache(key, Node(p.name.id));
      hit := true;
    }

    /** `_atomic_link`: a hard link where the file systems allow it, else a copy. */
    method AtomicLink(key: Key, id: string, ws: Workspace, sameDevice: bool)
      requires Inv(files) && files.Has(InCache(key, Node(id)))
      modifies this`files
      ensures files == Do(old(files),
        if sameDevice then Link(key, id, ws) else Copy(InCache(key, Node(id)), InWork(ws, Node(id))))
      ensures Delivered(old(files), files, InCache(key, Node(id)), InWork(ws, Node(id)))
      ensures files.at[InWork(ws, Node(id))] == files.at[InCache(key, Node(id))] <==> sameDevice
    {
      var src, dst := InCache(key, Node(id)), InWork(ws, Node(id));
      if sameDevice {
        files := HardLink(files, src, dst);
      } else {
        files := Place(files, dst, files.bytes[files.at[src]]);
      }
    }

    /** `_atomic_copy`. */
    method AtomicCopy(src: Path, dst: Path)
      requires Inv(files) && files.Has(src) && !dst.InCache?
      modifies this`files
      ensures files == Do(old(files), Copy(src, dst))
      ensures Delivered(old(files), files, src, dst)
    {
      files := Place(files, dst, files.bytes[files.at[src]]);
    }

    /** `populate_workspace`. */
    method PopulateWorkspace(key: Key, ws: Workspace, sameDevice: bool) returns (hit: bool)
      requires Inv(files)
      modifies this`files
      ensures Inv(files) && (hit <==> Complete(old(files), key))
      ensures !hit ==> files == old(files)
      ensures hit ==> forall id | old(files).Has(InCache(key, Node(id))) ::
        Given(old(files), files, InCache(key, Node(id)), ws)
      ensures hit ==> forall k: nat | k < COMPANIONS :: Given(old(files), files, InCache(key, Companion(k)), ws)
      ensures OnlyWorkspace(old(files), files, ws)
    {
      hit := Lookup(key);
      if !hit { return; }
      ghost var f0 := files;
      ghost var given := GiveNodes(key, ws, sameDevice);
      for k := 0 to COMPANIONS
        invariant Inv(files) && OnlyWorkspace(f0, files, ws)
        invariant forall p | p in given :: p.InCache? && p.key == key && Given(f0, files, p, ws)
        invariant forall id | f0.Has(InCache(key, Node(id))) :: InCache(key, Node(id)) in given
        invariant forall j: nat | j < k :: InCache(key, Companion(j)) in given
      {
        var src := InCache(key, Companion(k));
        assert Same(f0, files, src);
        GiveStep(f0, files, given, src, ws, false);
        AtomicCopy(src, InWork(ws, Companion(k)));
        given := given + {src};
      }
    }

    /** The first loop of `populate_workspace`. */
    method GiveNodes(key: Key, ws: Workspace, sameDevice: bool) returns (ghost given: set<Path>)
      requires Inv(files)
      modifies this`files
      ensures Inv(files) && OnlyWorkspace(old(files), files, ws)
      ensures forall p | p in given :: p.InCache? && p.key == key && Given(old(files), files, p, ws)
      ensures forall id | old(files).Has(InCache(key, Node(id))) :: InCache(key, Node(id)) in given
    {
      ghost var f0 := files;
      given := {};
      var todo := set p | p in files.at && p.InCache? && p.key == key && p.name.Node?;
      while todo != {}
        invariant Inv(files) && OnlyWorkspace(f0, files, ws)
        invariant forall p | p in todo :: f0.Has(p) && p.InCache? && p.key == key && p.name.Node?
        invariant forall p | p in given :: p.InCache? && p.key == key && Given(f0, files, p, ws)
        invariant forall id | f0.Has(InCache(key, Node(id))) :: InCache(key, Node(id)) in given + todo
      {
        var src :| src in todo;
        assert src == InCache(key, Node(src.name.id)) && Same(f0, files, src);
        GiveStep(f0, files, given, src, ws, sameDevice);
        AtomicLink(key, src.name.id, ws, sameDevice);
        todo := todo - {src};
        given := given + {src};
      }
    }

    /** The copies of `capture`: the build of a workspace, and a manifest, in a fresh staging directory. */
    method FillStaging(key: Key, ws: Workspace, manifest: Bytes)
      requires Inv(files) && Built(files, ws)
      modifies this`files
      ensures Inv(files) && OnlyStaging(old(files), files, key)
      ensures forall n :: Holds(old(files), files, InStaging(key, n), ws, manifest, Wanted(old(files), ws, n))
    {
      ghost var f0 := files;
      files := Cleared(files, key);
      ghost var nodes := StageNodes(f0, key, ws, manifest);
      ghost var done := StageCompanions(f0, nodes, key, ws, manifest);
      ManifestStep(f0, files, done, key, ws, manifest);
      files := Place(files, InStaging(key, Manifest), manifest);
    }

    method StageCompanions(ghost f0: Files, ghost nodes: set<Name>, key: Key, ws: Workspace, ghost manifest: Bytes)
      returns (ghost done: set<Name>)
      requires Inv(files) && OnlyStaging(f0, files, key) && Built(f0, ws)
      requires forall n :: Holds(f0, files, InStaging(key, n), ws, manifest, n in nodes)
      requires forall n :: n in nodes <==> n.Node? && f0.Has(InWork(ws, n))
      modifies this`files
      ensures Inv(files) && OnlyStaging(f0, files, key)
      ensures forall n :: Holds(f0, files, InStaging(key, n), ws, manifest, n in done)
      ensures forall n :: n in done <==> (n.Node? && f0.Has(InWork(ws, n))) || (n.Companion? && n.k < COMPANIONS)
    {
      done := nodes;
      for k := 0 to COMPANIONS
        invariant Inv(files) && OnlyStaging(f0, files, key)
        invariant forall n :: Holds(f0, files, InStaging(key, n), ws, manifest, n in done)
        invariant forall n :: n in done <==> (n.Node? && f0.Has(InWork(ws, n))) || (n.Companion? && n.k < k)
      {
        StageStep(f0, files, done, key, ws, Companion(k), manifest);
        AtomicCopy(InWork(ws, Companion(k)), InStaging(key, Companion(k)));
        done := done + {Companion(k)};
      }
    }

    method StageNodes(ghost f0: Files, key: Key, ws: Workspace, ghost manifest: Bytes) returns (ghost done: set<Name>)
      requires Inv(files) && OnlyStaging(f0, files, key) && forall n :: !files.Has(InStaging(key, n))
      modifies this`files
      ensures Inv(files) && OnlyStaging(f0, files, key)
      ensures forall n :: Holds(f0, files, InStaging(key, n), ws, manifest, n in done)
      ensures forall n :: n in done <==> n.Node? && f0.Has(InWork(ws, n))
    {
      var nodes := set p | p in files.at && p.InWork? && p.ws == ws && p.name.Node?;
      ghost var all := nodes;
      assert forall n: Name | n.Node? :: Same(f0, files, InWork(ws, n));
      assert forall n :: InWork(ws, n) in all <==> n.Node? && f0.Has(InWork(ws, n));
      done := {};
      while nodes != {}
        invariant nodes <= all && Inv(files) && OnlyStaging(f0, files, key)
        invariant forall n :: Holds(f0, files, InStaging(key, n), ws, manifest, n in done)
        invariant forall n :: n in done <==> InWork(ws, n) in all - nodes
      {
        var src :| src in nodes;
        StageStep(f0, files, done, key, ws, src.name, manifest);
        AtomicCopy(src, InStaging(key, src.name));
        nodes := nodes - {src};
        done := done + {src.name};
      }
    }

    method HasBuild(ws: Workspace) returns (ok: bool)
      ensures ok <==> Built(files, ws)
    {
      var nodes := set p | p in files.at && p.InWork? && p.ws == ws && p.name.Node?;
      if nodes == {} {
        assert forall id :: files.Has(InWork(ws, Node(id))) ==> InWork(ws, Node(id)) in nodes;
        return false;
      }
      for k := 0 to COMPANIONS
        invariant forall j: nat | j < k :: files.Has(InWork(ws, Companion(j)))
      {
        if InWork(ws, Companion(k)) !in files.at { return false; }
      }
      var p :| p in nodes;
      assert p == InWork(ws, Node(p.name.id));
      ok := true;
    }

    /** `capture` up to the eviction: stage a copy of the build, then rename it into place. */
    method StoreBuild(key: Key, ws: Workspace, manifest: Bytes) returns (r: Captured)
      requires Inv(files)
      modifies this`files
      ensures Inv(files)
      ensures r == NothingBuilt <==> !Built(old(files), ws)
      ensures r == AlreadyThere <==> Built(old(files), ws) && Complete(old(files), key)
      ensures r == Blocked <==> Built(old(files), ws) && !Complete(old(files), key) && !NoEntry(old(files), key)
      ensures r == NothingBuilt || r == AlreadyThere ==> files == old(files)
      ensures r == Blocked ==> OnlyStaging(old(files), files, key)
      ensures r == Stored ==> OnlyEntry(old(files), files, key) && Complete(files, key)
      ensures r == Stored ==>
        forall n :: Holds(old(files), files, InCache(key, n), ws, manifest, Wanted(old(files), ws, n))
    {
      var built := HasBuild(ws);
      if !built { return NothingBuilt; }
      var present := Lookup(key);
      if present { return AlreadyThere; }
      ghost var f0 := files;
      FillStaging(key, ws, manifest);
      var taken := exists p | p in files.at :: p.InCache? && p.key == key;
      assert forall n :: Same(f0, files, InCache(key, n));
      assert taken <==> !NoEntry(files, key);
      if taken {
        files := Cleared(files, key);
        return Blocked;
      }
      ghost var g := files;
      StepInv(g, Publish(key));
      files := Renamed(files, key);
      EntryStored(f0, g, key, ws, manifest);
      r := Stored;
    }

    /**
     `capture`: store the build, then evict. An entry that is captured later than all others is there afterwards, with
     the bytes of the workspace.
     */
    method Capture(key: Key, ws: Workspace, manifest: Bytes,
                   order: seq<Key>, times: map<Key, int>, sizes: map<Key, nat>)
      returns (r: Captured)
      requires Inv(files) && maxEntries >= 1 && NoDuplicates(order) && key in order
      requires forall p | p in files.at && p.InCache? :: p.key in order
      requires forall k | k in order :: k in times && k in sizes
      modifies this`files
      ensures Inv(files)
      ensures r == NothingBuilt <==> !Built(old(files), ws)
      ensures r == AlreadyThere <==> Built(old(files), ws) && Complete(old(files), key)
      ensures r == Blocked <==> Built(old(files), ws) && !Complete(old(files), key) && !NoEntry(old(files), key)
      ensures r == NothingBuilt || r == AlreadyThere ==> files == old(files)
      ensures r == Blocked ==> OnlyStaging(old(files), files, key)
      ensures r == Stored ==> exists g: Files, k: nat ::
        Published(old(files), g, key, ws, manifest) && Evicts(g, files, order, times, sizes, k, maxEntries, maxBytes)
      ensures r == Stored && Latest(key, order, times) ==> Complete(files, key)
      ensures r == Stored && Latest(key, order, times) ==>
        forall n :: Holds(old(files), files, InCache(key, n), ws, manifest, Wanted(old(files), ws, n))
    {
      r := StoreBuild(key, ws, manifest);
      if r == Stored {
        ghost var f0, g := old(files), files;
        assert forall p | p in g.at && p.InCache? && p.key != key :: Same(f0, g, p);
        var k := GcLocked(order, times, sizes);
        assert Evicts(g, files, order, times, sizes, k, maxEntries, maxBytes);
        if Latest(key, order, times) {
          StoredSurvives(f0, g, files, key, ws, manifest, order, times, sizes, k, maxEntries, maxBytes);
        }
      }
    }

    /**
     `_gc_locked` on the entries `order` in the order of the directory. Leftover staging directories and
     entries without a manifest go first; then the oldest entries beyond the caps.
     */
    method GcLocked(order: seq<Key>, capturedAt: map<Key, int>, sizes: map<Key, nat>) returns (evicted: nat)
      requires Inv(files) && NoDuplicates(order) && maxEntries >= 1
      requires forall p | p in files.at && p.InCache? :: p.key in order
      requires forall key | key in order :: key in capturedAt && key in sizes
      modifies this`files
      ensures Inv(files)
      ensures exists k: nat :: var s := Sorted(Listed(old(files), order, capturedAt, sizes));
        Cut(s, k, maxEntries, maxBytes) && evicted == k && files == Purged(old(files), Keys(s[k..]))
      ensures exists s ::
        (Listing(s, old(files), order, capturedAt, sizes) && KeepsMost(s, evicted, maxEntries, maxBytes)
        && OnlyKept(old(files), files, Keys(s[evicted..])))
    {
      ghost var f0 := files;
      var entries := DropIncomplete(order, capturedAt, sizes);
      ListedKeys(f0, order, capturedAt, sizes);
      SortedKeys(entries);
      var kept, victims := Evict(entries, maxEntries, maxBytes);
      DropVictims(f0, Sorted(entries), victims);
      evicted := |victims|;
      PurgedInv(f0, Keys(kept));
      SortedListing(f0, order, capturedAt, sizes);
      PurgedKeeps(f0, Keys(kept));
    }

    /** The first loop of `_gc_locked`. */
    method DropIncomplete(order: seq<Key>, capturedAt: map<Key, int>, sizes: map<Key, nat>)
      returns (entries: seq<Entry>)
      requires NoDuplicates(order) && forall p | p in files.at && p.InCache? :: p.key in order
      requires forall key | key in order :: key in capturedAt && key in sizes
      modifies this`files
      ensures entries == Listed(old(files), order, capturedAt, sizes) && files == Purged(old(files), Keys(entries))
    {
      ghost var f0 := files;
      files := files.(at := map p | p in files.at && !p.InStaging? :: files.at[p]);
      entries := [];
      for i := 0 to |order|
        invariant entries == Listed(f0, order[..i], capturedAt, sizes)
        invariant files == Purged(f0, Keys(entries) + Elements(order[i..]))
      {
        var key := order[i];
        ListStep(f0, order, i, entries, capturedAt, sizes);
        if InCache(key, Manifest) !in files.at {
          PurgeOne(f0, Keys(entries) + Elements(order[i..]), key, Keys(entries) + Elements(order[i + 1..]));
          files := WithoutEntry(files, key);
        } else {
          entries := entries + [Entry(capturedAt[key], sizes[key], key)];
        }
      }
      assert order[..|order|] == order && Keys(entries) + Elements(order[|order|..]) == Keys(entries);
    }

    method DropVictims(ghost f0: Files, ghost s: seq<Entry>, victims: seq<Entry>)
      requires victims <= s && DistinctKeys(s) && files == Purged(f0, Keys(s))
      modifies this`files
      ensures files == Purged(f0, Keys(s[|victims|..]))
    {
      assert s[0..] == s;
      for j := 0 to |victims|
        invariant files == Purged(f0, Keys(s[j..]))
      {
        DropFirst(s, j);
        PurgeOne(f0, Keys(s[j..]), victims[j].key, Keys(s[j + 1..]));
        files := WithoutEntry(files, victims[j].key);
      }
    }
  }

  lemma ListStep(f: Files, order: seq<Key>, i: nat, entries: seq<Entry>,
                 capturedAt: map<Key, int>, sizes: map<Key, nat>)
    requires NoDuplicates(order) && i < |order| && forall key | key in order :: key in capturedAt && key in sizes
    requires entries == Listed(f, order[..i], capturedAt, sizes)
    ensures var key := order[i]; var keep := Keys(entries) + Elements(order[i..]);
      Listed(f, order[..i + 1], capturedAt, sizes)
        == entries + (if InCache(key, Manifest) in f.at then [Entry(capturedAt[key], sizes[key], key)] else [])
      && Keys(entries) + Elements(order[i + 1..]) == keep - {key}
      && Keys(entries + [Entry(capturedAt[key], sizes[key], key)]) + Elements(order[i + 1..]) == keep
      && (InCache(key, Manifest) in Purged(f, keep).at <==> InCache(key, Manifest) in f.at)
  {
    var key := order[i];
    assert order[..i + 1][..i] == order[..i];
    assert order[i..] == [key] + order[i + 1..];
    ListedKeys(f, order[..i], capturedAt, sizes);
    KeysLast(entries, Entry(capturedAt[key], sizes[key], key));
    assert key in Elements(order[i..]);
    assert Elements(order[i..]) == {key} + Elements(order[i + 1..]);
    assert key !in Elements(order[i + 1..]) && key !in Elements(order[..i]);
  }

  /** The entries that have a manifest, each once, oldest first, with their times and sizes. */
  ghost predicate Listing(s: seq<Entry>, f: Files, order: seq<Key>, times: map<Key, int>, sizes: map<Key, nat>) {
    DistinctKeys(s) && (forall i, j | 0 <= i < j < |s| :: s[i].capturedAt <= s[j].capturedAt)
    && (forall e | e in s :: e.key in order && f.Has(InCache(e.key, Manifest)))
    && (forall k | k in order && f.Has(InCache(k, Manifest)) ::
      k in times && k in sizes && Entry(times[k], sizes[k], k) in s)
  }

  lemma SortedListing(f: Files, order: seq<Key>, times: map<Key, int>, sizes: map<Key, nat>)
    requires NoDuplicates(order) && forall k | k in order :: k in times && k in sizes
    ensures Listing(Sorted(Listed(f, order, times, sizes)), f, order, times, sizes)
  {
    var entries := Listed(f, order, times, sizes);
    ListedKeys(f, order, times, sizes);
    ListedEntries(f, order, times, sizes);
    SortedKeys(entries);
    SortedByTime(entries);
    forall e ensures e in Sorted(entries) <==> e in entries {
      assert e in multiset(Sorted(entries)) <==> e in multiset(entries);
    }
  }

  /** Every workspace and every kept entry is as it was; no other entry and no staging directory is left. */
  ghost predicate OnlyKept(f: Files, g: Files, keep: set<Key>) {
    (forall p: Path | p.InWork? || (p.InCache? && p.key in keep) :: Same(f, g, p))
    && forall p: Path | p.InStaging? || (p.InCache? && p.key !in keep) :: !g.Has(p)
  }

  lemma PurgedKeeps(f: Files, keep: set<Key>)
    ensures OnlyKept(f, Purged(f, keep), keep)
  {
  }

  /** The entry of key is the build of the workspace, and nothing else has changed. */
  ghost predicate Published(f: Files, g: Files, key: Key, ws: Workspace, manifest: Bytes) {
    OnlyEntry(f, g, key) && Complete(g, key)
    && forall n :: Holds(f, g, InCache(key, n), ws, manifest, Wanted(f, ws, n))
  }

  /** An eviction that lets go of the k oldest entries. */
  ghost predicate Evicts(g: Files, h: Files, order: seq<Key>, times: map<Key, int>, sizes: map<Key, nat>, k: nat,
                         maxEntries: nat, maxBytes: nat)
    requires forall x | x in order :: x in times && x in sizes
  {
    var s := Sorted(Listed(g, order, times, sizes));
    Cut(s, k, maxEntries, maxBytes) && h == Purged(g, Keys(s[k..]))
  }

  predicate Latest(key: Key, order: seq<Key>, times: map<Key, int>)
    requires key in order && forall k | k in order :: k in times
  {
    forall k | k in order && k != key :: times[k] < times[key]
  }

  lemma {:induction false} ListedEntries(f: Files, order: seq<Key>, times: map<Key, int>, sizes: map<Key, nat>)
    requires forall k | k in order :: k in times && k in sizes
    ensures forall e | e in Listed(f, order, times, sizes) ::
      e.key in order && e.capturedAt == times[e.key] && f.Has(InCache(e.key, Manifest))
    ensures forall k | k in order && f.Has(InCache(k, Manifest)) ::
      Entry(times[k], sizes[k], k) in Listed(f, order, times, sizes)
  {
    if order != [] {
      ListedEntries(f, order[..|order| - 1], times, sizes);
      assert order == order[..|order| - 1] + [order[|order| - 1]];
    }
  }

  lemma StoredSurvives(f: Files, g: Files, h: Files, key: Key, ws: Workspace, manifest: Bytes,
                       order: seq<Key>, times: map<Key, int>, sizes: map<Key, nat>,
                       k: nat, maxEntries: nat, maxBytes: nat)
    requires NoDuplicates(order) && key in order
    requires forall x | x in order :: x in times && x in sizes
    requires Latest(key, order, times)
    requires Published(f, g, key, ws, manifest)
    requires Evicts(g, h, order, times, sizes, k, maxEntries, maxBytes)
    ensures Complete(h, key) && forall n :: Holds(f, h, InCache(key, n), ws, manifest, Wanted(f, ws, n))
  {
    var entries := Listed(g, order, times, sizes);
    KeyIsKept(g, key, order, times, sizes, k, maxEntries, maxBytes);
    forall n ensures Same(g, h, InCache(key, n)) { }
    forall n ensures Holds(f, h, InCache(key, n), ws, manifest, Wanted(f, ws, n)) {
      assert Holds(f, g, InCache(key, n), ws, manifest, Wanted(f, ws, n)) && Same(g, h, InCache(key, n));
    }
    var id :| g.Has(InCache(key, Node(id)));
    assert Same(g, h, InCache(key, Node(id))) && Same(g, h, InCache(key, Manifest));
    assert forall j: nat | j < COMPANIONS :: Same(g, h, InCache(key, Companion(j)));
  }

  lemma KeyIsKept(g: Files, key: Key, order: seq<Key>, times: map<Key, int>, sizes: map<Key, nat>,
                  k: nat, maxEntries: nat, maxBytes: nat)
    requires NoDuplicates(order) && key in order
    requires forall x | x in order :: x in times && x in sizes
    requires Latest(key, order, times)
    requires g.Has(InCache(key, Manifest)) && Cut(Sorted(Listed(g, order, times, sizes)), k, maxEntries, maxBytes)
    ensures key in Keys(Sorted(Listed(g, order, times, sizes))[k..])
  {
    var entries := Listed(g, order, times, sizes);
    var e := Entry(times[key], sizes[key], key);
    ListedEntries(g, order, times, sizes);
    ListedKeys(g, order, times, sizes);
    var i :| 0 <= i < |entries| && entries[i] == e;
    forall j | 0 <= j < |entries| && j != i ensures entries[j].capturedAt < entries[i].capturedAt {
      assert entries[j] in entries;
      if i < j { assert entries[i].key != entries[j].key; } else { assert entries[j].key != entries[i].key; }
    }
    LatestSurvives(entries, i, k, maxEntries, maxBytes);
    var kept := Sorted(entries)[k..];
    var p :| 0 <= p < |kept| && kept[p] == e;
    assert kept[p].key in Keys(kept);
  }

  /** The entries that have a manifest. */
  function Listed(f: Files, order: seq<Key>, capturedAt: map<Key, int>, sizes: map<Key, nat>): seq<Entry>
    requires forall key | key in order :: key in capturedAt && key in sizes
  {
    if order == [] then []
    else
      var key := order[|order| - 1];
      Listed(f, order[..|order| - 1], capturedAt, sizes)
      + (if InCache(key, Manifest) in f.at then [Entry(capturedAt[key], sizes[key], key)] else [])
  }

  function Keys(s: seq<Entry>): set<Key> { set i | 0 <= i < |s| :: s[i].key }

  /** Only workspaces and the entries in keep are left. */
  function Purged(f: Files, keep: set<Key>): Files {
    f.(at := map p | p in f.at && (p.InWork? || (p.InCache? && p.key in keep)) :: f.at[p])
  }

  function WithoutEntry(f: Files, key: Key): Files {
    f.(at := map p | p in f.at && !(p.InCache? && p.key == key) :: f.at[p])
  }

  lemma PurgeOne(f: Files, keep: set<Key>, key: Key, rest: set<Key>)
    requires rest == keep - {key}
    ensures WithoutEntry(Purged(f, keep), key) == Purged(f, rest)
  {
  }

  lemma PurgedInv(f: Files, keep: set<Key>)
    requires Inv(f)
    ensures Inv(Purged(f, keep))
  {
  }

  lemma {:induction false} ListedKeys(f: Files, order: seq<Key>, capturedAt: map<Key, int>, sizes: map<Key, nat>)
    requires NoDuplicates(order) && forall key | key in order :: key in capturedAt && key in sizes
    ensures var s := Listed(f, order, capturedAt, sizes); DistinctKeys(s) && Keys(s) <= Elements(order)
  {
    if order != [] {
      var init := order[..|order| - 1];
      ListedKeys(f, init, capturedAt, sizes);
      assert order == init + [order[|order| - 1]];
      assert order[|order| - 1] !in Elements(init);
      var before := Listed(f, init, capturedAt, sizes);
      assert forall i | 0 <= i < |before| :: before[i].key in Keys(before);
    }
  }

  predicate DistinctKeys(s: seq<Entry>) {
    forall i, j | 0 <= i < j < |s| :: s[i].key != s[j].key
  }

  lemma {:induction false} InsertKeys(e: Entry, s: seq<Entry>)
    ensures Keys(Insert(e, s)) == Keys(s) + {e.key}
    ensures DistinctKeys(s) && e.key !in Keys(s) ==> DistinctKeys(Insert(e, s))
  {
    if s == [] || e.capturedAt < s[0].capturedAt {
      KeysHead(e, s);
    } else {
      InsertKeys(e, s[1..]);
      assert s == [s[0]] + s[1..];
      KeysHead(s[0], s[1..]);
      KeysHead(s[0], Insert(e, s[1..]));
    }
  }

  lemma {:induction false} InsertElements(e: Entry, s: seq<Entry>)
    ensures multiset(Insert(e, s)) == multiset(s) + multiset{e}
  {
    if s != [] && e.capturedAt >= s[0].capturedAt {
      InsertElements(e, s[1..]);
      assert s == [s[0]] + s[1..];
    }
  }

  lemma KeysHead(e: Entry, s: seq<Entry>)
    ensures Keys([e] + s) == {e.key} + Keys(s)
    ensures DistinctKeys([e] + s) <==> DistinctKeys(s) && e.key !in Keys(s)
  {
    var t := [e] + s;
    assert forall i | 0 <= i < |s| :: t[i + 1] == s[i];
    assert t[0].key in Keys(t);
    forall k | k in Keys(s) ensures k in Keys(t) {
      var i :| 0 <= i < |s| && s[i].key == k;
      assert t[i + 1].key == k;
    }
    if DistinctKeys(t) {
      forall i, j | 0 <= i < j < |s| ensures s[i].key != s[j].key { assert t[i + 1].key != t[j + 1].key; }
      forall i | 0 <= i < |s| ensures s[i].key != e.key { assert t[0].key != t[i + 1].key; }
    }
  }

  lemma {:induction false} SortedKeys(s: seq<Entry>)
    ensures Keys(Sorted(s)) == Keys(s) && multiset(Sorted(s)) == multiset(s)
    ensures DistinctKeys(s) ==> DistinctKeys(Sorted(s))
  {
    if s != [] {
      var init, last := s[..|s| - 1], s[|s| - 1];
      assert s == init + [last];
      SortedKeys(init);
      InsertKeys(last, Sorted(init));
      InsertElements(last, Sorted(init));
      KeysLast(init, last);
    }
  }

  lemma KeysLast(s: seq<Entry>, e: Entry)
    ensures Keys(s + [e]) == Keys(s) + {e.key}
    ensures DistinctKeys(s + [e]) ==> DistinctKeys(s) && e.key !in Keys(s)
  {
    var t := s + [e];
    assert t[|s|].key == e.key;
    assert forall i | 0 <= i < |s| :: t[i] == s[i];
    assert t[|s|].key in Keys(t);
    forall k | k in Keys(s) ensures k in Keys(t) {
      var i :| 0 <= i < |s| && s[i].key == k;
      assert t[i].key == k;
    }
  }

  lemma DropFirst(s: seq<Entry>, j: nat)
    requires j < |s| && DistinctKeys(s)
    ensures Keys(s[j + 1..]) == Keys(s[j..]) - {s[j].key}
  {
  }

  /** Oldest first. */
  predicate ByTime(s: seq<Entry>) {
    forall i, j | 0 <= i < j < |s| :: s[i].capturedAt <= s[j].capturedAt
  }

  lemma {:induction false} InsertByTime(e: Entry, s: seq<Entry>)
    requires ByTime(s)
    ensures ByTime(Insert(e, s))
  {
    if s != [] && e.capturedAt >= s[0].capturedAt {
      InsertByTime(e, s[1..]);
      InsertElements(e, s[1..]);
      var t := Insert(e, s[1..]);
      forall i | 0 <= i < |t| ensures s[0].capturedAt <= t[i].capturedAt {
        assert t[i] in multiset(t);
        assert t[i] in multiset(s[1..]) || t[i] == e;
      }
    }
  }

  lemma {:induction false} SortedByTime(s: seq<Entry>)
    ensures ByTime(Sorted(s))
  {
    if s != [] {
      SortedByTime(s[..|s| - 1]);
      InsertByTime(s[|s| - 1], Sorted(s[..|s| - 1]));
    }
  }

  /** The entries kept are the longest run of newest ones within both caps, or the newest entry alone. */
  lemma CutIsLongest(s: seq<Entry>, k: nat, j: nat, maxEntries: nat, maxBytes: nat)
    requires Cut(s, k, maxEntries, maxBytes) && maxEntries >= 1 && j <= |s|
    ensures s != [] ==> 1 <= |s[k..]| <= maxEntries
    ensures |s[k..]| > 1 && maxBytes > 0 ==> Total(s[k..]) <= maxBytes
    ensures |s| - j <= maxEntries && (maxBytes == 0 || Total(s[j..]) <= maxBytes) ==> k <= j
    ensures forall m: nat | Cut(s, m, maxEntries, maxBytes) :: m == k
  {
    if s != [] && !Fits(s, k, maxEntries, maxBytes) { assert |s[k..]| == 1; }
    assert Fits(s, j, maxEntries, maxBytes) <==> |s| - j <= maxEntries && (maxBytes == 0 || Total(s[j..]) <= maxBytes);
  }

  /** The entries of time t, in order. */
  function AtTime(s: seq<Entry>, t: int): seq<Entry> {
    if s == [] then [] else (if s[0].capturedAt == t then [s[0]] else []) + AtTime(s[1..], t)
  }

  lemma AtTimeHead(e: Entry, s: seq<Entry>, t: int)
    ensures AtTime([e] + s, t) == (if e.capturedAt == t then [e] else []) + AtTime(s, t)
  {
    assert ([e] + s)[1..] == s;
  }

  lemma {:induction false} AtTimeLast(s: seq<Entry>, e: Entry, t: int)
    ensures AtTime(s + [e], t) == AtTime(s, t) + if e.capturedAt == t then [e] else []
  {
    if s == [] {
      AtTimeHead(e, [], t);
      assert s + [e] == [e] + [];
    } else {
      AtTimeLast(s[1..], e, t);
      AtTimeHead(s[0], s[1..] + [e], t);
      assert s + [e] == [s[0]] + (s[1..] + [e]);
    }
  }

  lemma {:induction false} AtTimeLater(s: seq<Entry>, t: int)
    requires forall i | 0 <= i < |s| :: s[i].capturedAt > t
    ensures AtTime(s, t) == []
  {
    if s != [] { AtTimeLater(s[1..], t); }
  }

  lemma {:induction false} InsertStable(e: Entry, s: seq<Entry>, t: int)
    requires ByTime(s)
    ensures AtTime(Insert(e, s), t) == AtTime(s, t) + if e.capturedAt == t then [e] else []
  {
    if s == [] || e.capturedAt < s[0].capturedAt {
      AtTimeHead(e, s, t);
      if e.capturedAt == t { AtTimeLater(s, t); }
    } else {
      ByTimeTail(s);
      InsertStable(e, s[1..], t);
      AtTimeHead(s[0], Insert(e, s[1..]), t);
    }
  }

  lemma ByTimeTail(s: seq<Entry>)
    requires ByTime(s) && s != []
    ensures ByTime(s[1..])
  {
  }

  /** Entries of the same time stay in the order of the directory. */
  lemma {:induction false} SortedStable(s: seq<Entry>, t: int)
    ensures AtTime(Sorted(s), t) == AtTime(s, t)
  {
    if s != [] {
      var init, last := s[..|s| - 1], s[|s| - 1];
      assert s == init + [last];
      SortedByTime(init);
      SortedStable(init, t);
      InsertStable(last, Sorted(init), t);
      AtTimeLast(init, last, t);
    }
  }

  /** An entry captured later than all others survives. */
  lemma LatestSurvives(entries: seq<Entry>, i: nat, k: nat, maxEntries: nat, maxBytes: nat)
    requires i < |entries| && forall j | 0 <= j < |entries| && j != i :: entries[j].capturedAt < entries[i].capturedAt
    requires Cut(Sorted(entries), k, maxEntries, maxBytes)
    ensures k < |Sorted(entries)| && entries[i] in Sorted(entries)[k..]
  {
    var s := Sorted(entries);
    SortedKeys(entries);
    SortedByTime(entries);
    assert entries[i] in multiset(s);
    forall e | e in s && e != entries[i] ensures e.capturedAt < entries[i].capturedAt {
      assert e in multiset(entries);
      var j :| 0 <= j < |entries| && entries[j] == e;
    }
    LatestIsLast(s, entries[i], k);
  }

  lemma LatestIsLast(s: seq<Entry>, e: Entry, k: nat)
    requires ByTime(s) && e in s && forall x | x in s && x != e :: x.capturedAt < e.capturedAt
    requires k < |s| || s == []
    ensures k < |s| && e in s[k..]
  {
    var p :| 0 <= p < |s| && s[p] == e;
    var last := s[|s| - 1];
    assert s[p].capturedAt <= last.capturedAt;
    assert s[k..][|s| - 1 - k] == last;
  }

  datatype Captured = NothingBuilt | AlreadyThere | Blocked | Stored

  function Cleared(f: Files, key: Key): Files {
    f.(at := map p | p in f.at && !Staged(p, key) :: f.at[p])
  }

  /** What a capture takes from a workspace. */
  ghost predicate Wanted(f: Files, ws: Workspace, n: Name) {
    match n
    case Manifest => true
    case Node(_) => f.Has(InWork(ws, n))
    case Companion(k) => k < COMPANIONS
  }

  /** g has p exactly if it should, with the bytes that its namesake in the workspace had in f. */
  ghost predicate Holds(f: Files, g: Files, p: Path, ws: Workspace, manifest: Bytes, should: bool) {
    (g.Has(p) <==> should)
    && (should ==> g.Content(p) == if p.name == Manifest then Some(manifest) else f.Content(InWork(ws, p.name)))
  }

  lemma StageStep(f: Files, g: Files, done: set<Name>, key: Key, ws: Workspace, n: Name, manifest: Bytes)
    requires Inv(g) && f.Has(InWork(ws, n)) && n != Manifest && OnlyStaging(f, g, key)
    requires forall m :: Holds(f, g, InStaging(key, m), ws, manifest, m in done)
    ensures var step := Copy(InWork(ws, n), InStaging(key, n));
      Enabled(g, step) && Inv(Do(g, step)) && OnlyStaging(f, Do(g, step), key)
      && forall m :: Holds(f, Do(g, step), InStaging(key, m), ws, manifest, m in done + {n})
  {
    var step := Copy(InWork(ws, n), InStaging(key, n));
    assert Same(f, g, InWork(ws, n));
    StepInv(g, step);
    Elsewhere(f, g, step, key, InStaging(key, n));
    forall m ensures Holds(f, Do(g, step), InStaging(key, m), ws, manifest, m in done + {n}) {
      assert Holds(f, g, InStaging(key, m), ws, manifest, m in done);
      if m != n { StepLocal(g, step, InStaging(key, m)); }
    }
  }

  lemma ManifestStep(f: Files, g: Files, done: set<Name>, key: Key, ws: Workspace, manifest: Bytes)
    requires Inv(g) && OnlyStaging(f, g, key)
    requires forall m :: Holds(f, g, InStaging(key, m), ws, manifest, m in done)
    ensures var h := Place(g, InStaging(key, Manifest), manifest);
      Inv(h) && OnlyStaging(f, h, key) && forall m ::
        Holds(f, h, InStaging(key, m), ws, manifest, m in done + {Manifest})
  {
  }

  lemma Elsewhere(f: Files, g: Files, step: Step, key: Key, dst: Path)
    requires Inv(g) && Enabled(g, step) && Disciplined(step) && Staged(dst, key) && OnlyStaging(f, g, key)
    requires (step.Copy? && step.dst == dst) || (step.WriteManifest? && step.mkey == key)
    ensures OnlyStaging(f, Do(g, step), key)
  {
  }

  lemma EntryStored(f: Files, g: Files, key: Key, ws: Workspace, manifest: Bytes)
    requires Inv(g) && NoEntry(g, key) && OnlyStaging(f, g, key) && Built(f, ws)
    requires forall n :: Holds(f, g, InStaging(key, n), ws, manifest, Wanted(f, ws, n))
    ensures var h := Renamed(g, key);
      OnlyEntry(f, h, key) && Complete(h, key)
      && forall n :: Holds(f, h, InCache(key, n), ws, manifest, Wanted(f, ws, n))
  {
    var h := Renamed(g, key);
    forall n ensures Holds(f, h, InCache(key, n), ws, manifest, Wanted(f, ws, n)) {
      RenamedEntry(g, key, n);
      assert Holds(f, g, InStaging(key, n), ws, manifest, Wanted(f, ws, n));
      RenamedHas(g, key, n);
    }
    forall p: Path ensures (!p.InWork? && p.key == key) || Same(f, h, p) {
      if p.InWork? || p.key != key {
        assert Same(f, g, p);
        StepLocal(g, Publish(key), p);
      }
    }
    var id :| f.Has(InWork(ws, Node(id)));
    assert Holds(f, h, InCache(key, Node(id)), ws, manifest, Wanted(f, ws, Node(id)));
    assert Holds(f, h, InCache(key, Manifest), ws, manifest, Wanted(f, ws, Manifest));
    forall k: nat | k < COMPANIONS ensures h.Has(InCache(key, Companion(k))) {
      assert Holds(f, h, InCache(key, Companion(k)), ws, manifest, Wanted(f, ws, Companion(k)));
    }
  }

  lemma RenamedHas(g: Files, key: Key, n: Name)
    requires NoEntry(g, key)
    ensures Renamed(g, key).Has(InCache(key, n)) <==> g.Has(InStaging(key, n))
  {
  }

  /** The workspace has the file of the entry, with the bytes it had in f. */
  ghost predicate Given(f: Files, g: Files, src: Path, ws: Workspace) {
    src.InCache? && g.Has(InWork(ws, src.name)) && g.Content(InWork(ws, src.name)) == f.Content(src)
  }

  lemma GiveStep(f: Files, g: Files, given: set<Path>, src: Path, ws: Workspace, link: bool)
    requires Inv(g) && g.Has(src) && src.InCache? && Same(f, g, src) && (link ==> src.name.Node?)
    requires OnlyWorkspace(f, g, ws)
    requires forall p | p in given :: p.InCache? && p.key == src.key && Given(f, g, p, ws)
    ensures var step := if link then Link(src.key, src.name.id, ws) else Copy(src, InWork(ws, src.name));
      Enabled(g, step) && Inv(Do(g, step)) && OnlyWorkspace(f, Do(g, step), ws)
      && forall p | p in given + {src} :: p.InCache? && p.key == src.key && Given(f, Do(g, step), p, ws)
  {
    var step := if link then Link(src.key, src.name.id, ws) else Copy(src, InWork(ws, src.name));
    StepInv(g, step);
    forall p ensures OfWorkspace(p, ws) || Same(f, Do(g, step), p) {
      if !OfWorkspace(p, ws) {
        assert Same(f, g, p);
        StepLocal(g, step, p);
      }
    }
    forall p | p in given + {src} ensures p.InCache? && p.key == src.key && Given(f, Do(g, step), p, ws) {
      if p.name != src.name { StepLocal(g, step, InWork(ws, p.name)); }
    }
  }

  /******* Eviction *******/

  datatype Entry = Entry(capturedAt: int, size: nat, key: Key)

  function Insert(e: Entry, s: seq<Entry>): seq<Entry> {
    if s == [] || e.capturedAt < s[0].capturedAt then [e] + s else [s[0]] + Insert(e, s[1..])
  }

  /** `entries.sort(key=captured_at)`, a stable sort. */
  function Sorted(s: seq<Entry>): seq<Entry> {
    if s == [] then [] else Insert(s[|s| - 1], Sorted(s[..|s| - 1]))
  }

  function Total(s: seq<Entry>): nat {
    if s == [] then 0 else s[0].size + Total(s[1..])
  }

  /** The newest entries from k on are within both caps; a byte cap of zero is no cap. */
  predicate Fits(s: seq<Entry>, k: nat, maxEntries: nat, maxBytes: nat)
    requires k <= |s|
  {
    |s| - k <= maxEntries && (maxBytes == 0 || Total(s[k..]) <= maxBytes)
  }

  /** k is the first place from which the entries fit, or the newest entry if not even that fits. */
  ghost predicate Cut(s: seq<Entry>, k: nat, maxEntries: nat, maxBytes: nat) {
    k <= |s| && (k == |s| <==> s == [])
    && Unfit(s, k, maxEntries, maxBytes)
    && (Fits(s, k, maxEntries, maxBytes) || k == |s| - 1)
  }

  /** The two loops of `_gc_locked`. */
  method Evict(entries: seq<Entry>, maxEntries: nat, maxBytes: nat) returns (kept: seq<Entry>, victims: seq<Entry>)
    requires maxEntries >= 1
    ensures
      exists k: nat :: Cut(Sorted(entries), k, maxEntries, maxBytes)
                    && kept == Sorted(entries)[k..] && victims == Sorted(entries)[..k]
    ensures victims + kept == Sorted(entries) && KeepsMost(Sorted(entries), |victims|, maxEntries, maxBytes)
  {
    var s := Sorted(entries);
    var k := FindCut(s, maxEntries, maxBytes);
    kept, victims := s[k..], s[..k];
    CutKeepsMost(s, k, maxEntries, maxBytes);
  }

  /** Its two loops. */
  method FindCut(s: seq<Entry>, maxEntries: nat, maxBytes: nat) returns (k: nat)
    requires maxEntries >= 1
    ensures Cut(s, k, maxEntries, maxBytes)
  {
    k := 0;
    while |s| - k > maxEntries
      invariant k <= |s| && (k > 0 ==> k < |s|)
      invariant Unfit(s, k, maxEntries, maxBytes)
      decreases |s| - k
    {
      k := k + 1;
    }
    if maxBytes > 0 { k := EvictBytes(s, k, maxEntries, maxBytes); }
  }

  /** What is kept from k on meets both caps, or is the newest entry alone; with one entry more it would not. */
  ghost predicate KeepsMost(s: seq<Entry>, k: nat, maxEntries: nat, maxBytes: nat) {
    k <= |s| && (s != [] ==> k < |s|) && |s| - k <= maxEntries
    && (|s| - k > 1 && maxBytes > 0 ==> Total(s[k..]) <= maxBytes)
    && (k > 0 ==> |s| - (k - 1) > maxEntries || (maxBytes > 0 && Total(s[k - 1..]) > maxBytes))
  }

  lemma CutKeepsMost(s: seq<Entry>, k: nat, maxEntries: nat, maxBytes: nat)
    requires Cut(s, k, maxEntries, maxBytes) && maxEntries >= 1
    ensures KeepsMost(s, k, maxEntries, maxBytes)
  {
    CutIsLongest(s, k, if k > 0 then k - 1 else k, maxEntries, maxBytes);
  }

  /** From no place before k on do the entries fit. */
  ghost predicate Unfit(s: seq<Entry>, k: nat, maxEntries: nat, maxBytes: nat) {
    forall j: nat | j < k && j <= |s| :: !Fits(s, j, maxEntries, maxBytes)
  }

  /** The loop of the byte cap. */
  method EvictBytes(s: seq<Entry>, from: nat, maxEntries: nat, maxBytes: nat) returns (k: nat)
    requires maxBytes > 0 && from <= |s| && (from > 0 ==> from < |s|) && |s| - from <= maxEntries
    requires Unfit(s, from, maxEntries, maxBytes)
    ensures from <= k <= |s| && (k > 0 ==> k < |s|) && |s| - k <= maxEntries && Unfit(s, k, maxEntries, maxBytes)
    ensures Total(s[k..]) <= maxBytes || k == |s| - 1
  {
    k := from;
    var total := Total(s[k..]);
    while total > maxBytes && |s| - k > 1
      invariant from <= k <= |s| && total == Total(s[k..]) && |s| - k <= maxEntries && (k > 0 ==> k < |s|)
      invariant Unfit(s, k, maxEntries, maxBytes)
      decreases |s| - k
    {
      assert s[k..][1..] == s[k + 1..];
      total := total - s[k].size;
      k := k + 1;
    }
    assert |s| == 0 ==> Total(s[k..]) == 0;
  }
}
