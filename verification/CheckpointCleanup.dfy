/** What the removal of old artifacts does to checkpoints: it spares the contents that
    rows refer to, and a write that has begun and not finished has no row yet. */
module CheckpointCleanup {
  import opened Common
  import opened ArtifactStore
  import opened Checkpoints

  /** The digests that `file_changes` rows refer to. */
  function Referenced(changes: seq<FileChange>): set<Digest> {
    (set c | c in changes && c.before.Some? :: c.before.value)
      + (set c | c in changes && c.after.Some? :: c.after.value)
  }

  /** The clean-up removes the artifacts whose files are old, except the protected
      ones. What it protects it has read from the rows before. */
  function Cleaned(w: World, stale: set<Digest>, protected: set<Digest>): World {
    w.(artifacts := w.artifacts - (stale - protected))
  }

  lemma ReferencedAreHeld(w: World)
    requires Backed(w)
    ensures Referenced(w.changes) <= w.artifacts.Keys
  {
    forall c | c in w.changes ensures Holds(w.artifacts, c.before) && Holds(w.artifacts, c.after) {
    }
  }

  lemma ReferencedBy(changes: seq<FileChange>, c: FileChange)
    requires c in changes
    ensures c.before.Some? ==> c.before.value in Referenced(changes)
    ensures c.after.Some? ==> c.after.value in Referenced(changes)
  {
  }

  /** A clean-up keeps the store complete exactly when each stale content that a row
      refers to by then is among those it protects. */
  lemma CleanupKeepsBackedIff(w: World, stale: set<Digest>, protected: set<Digest>)
    requires Backed(w)
    ensures Backed(Cleaned(w, stale, protected)) <==> Referenced(w.changes) * stale <= protected
  {
    var t := Cleaned(w, stale, protected);
    ReferencedAreHeld(w);
    if Backed(t) {
      ReferencedAreHeld(t);
    }
    if Referenced(w.changes) * stale <= protected {
      forall c | c in w.changes ensures Holds(t.artifacts, c.before) && Holds(t.artifacts, c.after) {
        ReferencedBy(w.changes, c);
      }
    }
  }

  /** Finishing a write keeps it complete exactly when the content from before the
      write is stored still, or is what the file holds again. */
  lemma FinishKeepsBackedIff(w: World, snapshot: FileWriteCheckpoint)
    requires Backed(w) && snapshot.checkpointId in w.checkpoints
    ensures Backed(Finished(w, snapshot).0)
       <==> || Holds(w.artifacts, snapshot.before)
            || snapshot.before == DigestOf(Content(w.files, snapshot.path))
  {
    var (t, change) := Finished(w, snapshot);
    assert t.changes == w.changes + [change] && change in t.changes;
    assert forall d | d in t.artifacts :: d in w.artifacts || Some(d) == change.after;
    if Holds(w.artifacts, snapshot.before) || snapshot.before == change.after {
      forall c | c in t.changes ensures Holds(t.artifacts, c.before) && Holds(t.artifacts, c.after) {
        assert c in w.changes || c == change;
      }
    }
  }

  /** So a clean-up between the two halves of a write spoils it exactly when it removes
      the content from before: there is one, it was stored long ago, no row protects
      it, and the file holds something else by the end. */
  lemma FinishAfterCleanupIff(w: World, path: Path, content: Option<Bytes>, stale: set<Digest>)
    requires Backed(w)
    ensures var (begun, snapshot) := Begun(w, path);
            var written := begun.(files := Written(begun.files, path, content));
            var cleaned := Cleaned(written, stale, Referenced(written.changes));
            Backed(Finished(cleaned, snapshot).0)
            <==> || snapshot.before.None? || snapshot.before.value !in stale
                 || snapshot.before.value in Referenced(w.changes) || snapshot.before == DigestOf(content)
  {
    BeginKeepsBacked(w, path);
    var (begun, snapshot) := Begun(w, path);
    var written := begun.(files := Written(begun.files, path, content));
    CleanupKeepsBackedIff(written, stale, Referenced(w.changes));
    FinishKeepsBackedIff(Cleaned(written, stale, Referenced(w.changes)), snapshot);
    assert Content(written.files, path) == content;
  }

  /** Such a write, of a file that was a copy of an old artifact, cannot be undone. */
  lemma CleanupSpoilsWrite(path: Path, was: Bytes, now: Bytes)
    requires was != now
    ensures var w := World(map[path := was], map[Sha256(was) := was], {}, 0, []);
            var (begun, snapshot) := Begun(w, path);
            var written := begun.(files := Written(begun.files, path, Some(now)));
            var done := Finished(Cleaned(written, {Sha256(was)}, Referenced(written.changes)), snapshot).0;
            && Backed(w) && !Backed(done)
            && Restored(done, 0, {path}, false) == (map[path := now], Err(MissingArtifact(Sha256(was))))
  {
    var w := World(map[path := was], map[Sha256(was) := was], {}, 0, []);
    FinishAfterCleanupIff(w, path, Some(now), {Sha256(was)});
    var change := FileChange(0, path, Modify, Some(Sha256(was)), Some(Sha256(now)));
    var (begun, snapshot) := Begun(w, path);
    var written := begun.(files := Written(begun.files, path, Some(now)));
    var done := Finished(Cleaned(written, {Sha256(was)}, Referenced(written.changes)), snapshot).0;
    assert done.changes == [change] && [change][1..] == [];
    assert ChangesOf(done.changes, 0) == [change];
    var item := ItemOf(done.files, change);
    assert ItemsOf(done.files, [change]) == [item] && [item][1..] == [];
    assert !item.conflict && ConflictsIn([item], {path}) == [];
    assert done.files == map[path := now] && Sha256(was) !in done.artifacts;
    assert RestoreAll(done.files, done.artifacts, [item], {path}, Report([], [], []))
        == (done.files, Err(MissingArtifact(Sha256(was))));
  }

  /** The visit of the store's files, which removes them one by one. */
  method RemoveStale(artifacts: Artifacts, stale: set<Digest>, protected: set<Digest>) returns (kept: Artifacts)
    ensures kept == artifacts - (stale - protected)
  {
    kept := artifacts;
    var todo := artifacts.Keys;
    while todo != {}
      invariant todo <= artifacts.Keys
      invariant forall d :: d in kept <==> d in artifacts && (d in todo || d !in stale || d in protected)
      invariant forall d | d in kept :: kept[d] == artifacts[d]
      decreases todo
    {
      var digest :| digest in todo;
      if digest in stale && digest !in protected {
        kept := kept - {digest};
      }
      todo := todo - {digest};
    }
  }
}
