/**
 The files of the build cache and of the workspaces: paths that name inodes, and inodes that
 hold bytes. Each step is one file operation, so runs cover every interleaving and every crash.
 */
module CacheFiles {
  import opened Basics

  type Bytes = string
  type Key = string
  type Workspace = string

  /** A `.node` file, the k-th generated companion, or the manifest of an entry. */
  datatype Name = Node(id: string) | Companion(k: nat) | Manifest

  datatype Path =
    | InCache(key: Key, name: Name)
    | InStaging(key: Key, name: Name)
    | InWork(ws: Workspace, name: Name)

  datatype Files = Files(next: nat, bytes: map<nat, Bytes>, at: map<Path, nat>) {
    predicate Has(p: Path) { p in at }

    function Content(p: Path): Option<Bytes> {
      if p in at && at[p] in bytes then Some(bytes[at[p]]) else None
    }
  }

  /******* File operations *******/

  /** A fresh inode at p: what a rename over p leaves. */
  function Place(f: Files, p: Path, content: Bytes): Files {
    Files(f.next + 1, f.bytes[f.next := content], f.at[p := f.next])
  }

  function HardLink(f: Files, src: Path, dst: Path): Files
    requires src in f.at
  {
    f.(at := f.at[dst := f.at[src]])
  }

  /** Truncate and write the inode that p names. */
  function Overwrite(f: Files, p: Path, content: Bytes): Files
    requires p in f.at
  {
    f.(bytes := f.bytes[f.at[p] := content])
  }

  function Remove(f: Files, p: Path): Files {
    f.(at := f.at - {p})
  }

  ghost predicate NoEntry(f: Files, key: Key) {
    forall n :: InCache(key, n) !in f.at
  }

  function Unstaged(key: Key, p: Path): Path {
    if p.InStaging? && p.key == key then InCache(key, p.name) else p
  }

  /** Rename the staging directory of key to its entry, where there is none. */
  function Renamed(f: Files, key: Key): Files
    requires NoEntry(f, key)
  {
    f.(at := map p | p in f.at :: Unstaged(key, p) := f.at[p])
  }

  /******* Steps *******/

  datatype Step =
    | Link(key: Key, id: string, ws: Workspace)        // `_atomic_link` of a cached `.node` file
    | Copy(src: Path, dst: Path)                       // `_atomic_copy`, or a link that crosses file systems
    | WriteManifest(mkey: Key, text: Bytes)
    | Publish(pkey: Key)
    | Delete(path: Path)
    | Rebuild(bws: Workspace, bname: Name, built: Bytes)      // the build renames a new file into place
    | Rewrite(rws: Workspace, rname: Name, written: Bytes)    // the build writes a file in place

  ghost predicate Enabled(f: Files, s: Step) {
    match s
    case Link(key, id, _) => InCache(key, Node(id)) in f.at
    case Copy(src, dst) => src in f.at && f.at[src] in f.bytes && !dst.InCache?
    case WriteManifest(_, _) => true
    case Publish(key) => NoEntry(f, key)
    case Delete(_) => true
    case Rebuild(_, _, _) => true
    case Rewrite(ws, name, _) => InWork(ws, name) in f.at
  }

  ghost function Do(f: Files, s: Step): Files
    requires Enabled(f, s)
  {
    match s
    case Link(key, id, ws) => HardLink(f, InCache(key, Node(id)), InWork(ws, Node(id)))
    case Copy(src, dst) => Place(f, dst, f.bytes[f.at[src]])
    case WriteManifest(key, text) => Place(f, InStaging(key, Manifest), text)
    case Publish(key) => Renamed(f, key)
    case Delete(p) => Remove(f, p)
    case Rebuild(ws, name, built) => Place(f, InWork(ws, name), built)
    case Rewrite(ws, name, written) => Overwrite(f, InWork(ws, name), written)
  }

  /** The builds write in place only what the cache copies. */
  predicate Disciplined(s: Step) {
    s.Rewrite? ==> !s.rname.Node?
  }

  /** The paths a step is about. */
  predicate Touches(s: Step, p: Path) {
    match s
    case Link(_, id, ws) => p == InWork(ws, Node(id))
    case Copy(_, dst) => p == dst
    case WriteManifest(key, _) => p == InStaging(key, Manifest)
    case Publish(key) => !p.InWork? && p.key == key
    case Delete(q) => p == q
    case Rebuild(ws, name, _) => p == InWork(ws, name)
    case Rewrite(ws, name, _) => p == InWork(ws, name)
  }

  /******* Which paths may share an inode *******/

  predicate MayShare(p: Path, q: Path) {
    p.name.Node? && q.name.Node? && !p.InStaging? && !q.InStaging? && !(p.InCache? && q.InCache?)
  }

  ghost predicate Sharing(f: Files) {
    forall p, q | p in f.at && q in f.at && p != q && f.at[p] == f.at[q] :: MayShare(p, q)
  }

  ghost predicate Known(f: Files) {
    (forall p | p in f.at :: f.at[p] in f.bytes) && forall i | i in f.bytes :: i < f.next
  }

  ghost predicate Inv(f: Files) { Known(f) && Sharing(f) }

  lemma PlaceInv(f: Files, p: Path, content: Bytes)
    requires Inv(f)
    ensures Inv(Place(f, p, content))
  {
  }

  lemma LinkInv(f: Files, key: Key, id: string, ws: Workspace)
    requires Inv(f) && InCache(key, Node(id)) in f.at
    ensures Inv(HardLink(f, InCache(key, Node(id)), InWork(ws, Node(id))))
  {
    var src, dst := InCache(key, Node(id)), InWork(ws, Node(id));
    var g := HardLink(f, src, dst);
    forall a, b | a in g.at && b in g.at && a != b && g.at[a] == g.at[b] ensures MayShare(a, b) {
      var a0, b0 := if a == dst then src else a, if b == dst then src else b;
      assert f.at[a0] == f.at[b0];
      if a0 != b0 { assert MayShare(a0, b0); }
    }
  }

  lemma RenamedInv(f: Files, key: Key)
    requires Inv(f) && NoEntry(f, key)
    ensures Inv(Renamed(f, key))
  {
    var g := Renamed(f, key);
    forall a, b | a in g.at && b in g.at && a != b && g.at[a] == g.at[b] ensures MayShare(a, b) {
      var a0 :| a0 in f.at && Unstaged(key, a0) == a && g.at[a] == f.at[a0];
      var b0 :| b0 in f.at && Unstaged(key, b0) == b && g.at[b] == f.at[b0];
      assert MayShare(a0, b0);
    }
  }

  lemma StepInv(f: Files, s: Step)
    requires Inv(f) && Enabled(f, s)
    ensures Inv(Do(f, s))
  {
    match s
    case Link(key, id, ws) => LinkInv(f, key, id, ws);
    case Copy(src, dst) => PlaceInv(f, dst, f.bytes[f.at[src]]);
    case WriteManifest(key, text) => PlaceInv(f, InStaging(key, Manifest), text);
    case Publish(key) => RenamedInv(f, key);
    case Delete(_) =>
    case Rebuild(ws, name, built) => PlaceInv(f, InWork(ws, name), built);
    case Rewrite(_, _, _) =>
  }

  /******* Nothing but its own steps changes a file *******/

  lemma StepLocal(f: Files, s: Step, p: Path)
    requires Inv(f) && Enabled(f, s) && Disciplined(s) && !Touches(s, p)
    ensures Do(f, s).Content(p) == f.Content(p)
  {
    match s
    case Publish(key) => RenamedElsewhere(f, key, p);
    case Rewrite(ws, name, _) =>
      assert p in f.at ==> f.at[p] != f.at[InWork(ws, name)];
    case _ =>
      assert f.next !in f.bytes;
      assert p in f.at ==> f.at[p] in f.bytes;
  }

  lemma RenamedElsewhere(f: Files, key: Key, p: Path)
    requires NoEntry(f, key) && (p.InWork? || p.key != key)
    ensures Renamed(f, key).Content(p) == f.Content(p)
  {
  }

  /** The files that an entry gets are those that were staged. */
  lemma RenamedEntry(f: Files, key: Key, n: Name)
    requires NoEntry(f, key)
    ensures Renamed(f, key).Content(InCache(key, n)) == f.Content(InStaging(key, n))
    ensures !Renamed(f, key).Has(InStaging(key, n))
  {
  }

  /** A file of a live entry keeps its bytes in every step that does not delete it. */
  lemma LiveBytesStep(f: Files, s: Step, key: Key, n: Name)
    requires Inv(f) && Enabled(f, s) && Disciplined(s) && f.Has(InCache(key, n)) && s != Delete(InCache(key, n))
    ensures Do(f, s).Has(InCache(key, n)) && Do(f, s).Content(InCache(key, n)) == f.Content(InCache(key, n))
  {
  }

  ghost predicate Feasible(f: Files, steps: seq<Step>)
    decreases |steps|
  {
    steps == [] || (Enabled(f, steps[0]) && Feasible(Do(f, steps[0]), steps[1..]))
  }

  ghost function After(f: Files, steps: seq<Step>): Files
    requires Feasible(f, steps)
    decreases |steps|
  {
    if steps == [] then f else After(Do(f, steps[0]), steps[1..])
  }

  ghost predicate Keeps(steps: seq<Step>, p: Path) {
    forall i | 0 <= i < |steps| :: Disciplined(steps[i]) && steps[i] != Delete(p)
  }

  /** The bytes of a live entry never change, whatever the workspaces, other captures and evictions do. */
  lemma {:induction false} LiveBytesNeverChange(f: Files, steps: seq<Step>, key: Key, n: Name)
    requires Inv(f) && Feasible(f, steps) && Keeps(steps, InCache(key, n)) && f.Has(InCache(key, n))
    ensures Inv(After(f, steps)) && After(f, steps).Has(InCache(key, n))
    ensures After(f, steps).Content(InCache(key, n)) == f.Content(InCache(key, n))
    decreases |steps|
  {
    if steps != [] {
      assert Disciplined(steps[0]) && steps[0] != Delete(InCache(key, n));
      StepInv(f, steps[0]);
      LiveBytesStep(f, steps[0], key, n);
      assert Keeps(steps[1..], InCache(key, n)) by {
        forall i | 0 <= i < |steps[1..]|
          ensures Disciplined(steps[1..][i]) && steps[1..][i] != Delete(InCache(key, n)) {
          assert steps[1..][i] == steps[i + 1];
        }
      }
      LiveBytesNeverChange(Do(f, steps[0]), steps[1..], key, n);
    }
  }

  /** What a workspace gets from an entry is what was staged when the entry was published. */
  lemma PopulateGivesCaptured(f: Files, steps: seq<Step>, key: Key, n: Name, ws: Workspace, fetch: Step)
    requires Inv(f) && NoEntry(f, key) && f.Has(InStaging(key, n))
    requires Feasible(Do(f, Publish(key)), steps) && Keeps(steps, InCache(key, n))
    requires fetch == Copy(InCache(key, n), InWork(ws, n)) || (n.Node? && fetch == Link(key, n.id, ws))
    ensures var g := After(Do(f, Publish(key)), steps);
      Enabled(g, fetch) && Do(g, fetch).Content(InWork(ws, n)) == f.Content(InStaging(key, n))
  {
    var published := Do(f, Publish(key));
    StepInv(f, Publish(key));
    RenamedEntry(f, key, n);
    LiveBytesNeverChange(published, steps, key, n);
  }

  /** A write in place changes the cache exactly when it hits a `.node` file that is still linked to an entry. */
  lemma WriteInPlaceLeaksIff(f: Files, ws: Workspace, name: Name, content: Bytes)
    requires Inv(f) && InWork(ws, name) in f.at
    ensures var g := Do(f, Rewrite(ws, name, content));
      (exists key, n :: f.Has(InCache(key, n)) && g.Content(InCache(key, n)) != f.Content(InCache(key, n)))
      <==>
      (name.Node? && f.bytes[f.at[InWork(ws, name)]] != content
        && exists key, n :: f.Has(InCache(key, n)) && f.at[InCache(key, n)] == f.at[InWork(ws, name)])
  {
    var g := Do(f, Rewrite(ws, name, content));
    if key, n :| f.Has(InCache(key, n)) && g.Content(InCache(key, n)) != f.Content(InCache(key, n)) {
      assert f.at[InCache(key, n)] == f.at[InWork(ws, name)];
      assert MayShare(InCache(key, n), InWork(ws, name));
    }
    if key, n :| f.Has(InCache(key, n)) && f.at[InCache(key, n)] == f.at[InWork(ws, name)] {
      assert f.bytes[f.at[InWork(ws, name)]] != content ==> g.Content(InCache(key, n)) != f.Content(InCache(key, n));
    }
  }

  /** Why companions are copied: through a hard link the next rewrite would reach the entry. */
  lemma LinkedCompanionLeaks(f: Files, key: Key, k: nat, ws: Workspace, content: Bytes)
    requires Inv(f) && f.Has(InCache(key, Companion(k)))
    ensures var linked := HardLink(f, InCache(key, Companion(k)), InWork(ws, Companion(k)));
      Do(linked, Rewrite(ws, Companion(k), content)).Content(InCache(key, Companion(k))) == Some(content)
  {
  }
}
