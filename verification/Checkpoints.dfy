/** File checkpoints: capture before and after contents in a content-addressed
    store, preview a rollback against the worktree, and restore. Paths stand
    for resolved files under one project root. */
module Checkpoints {
  import opened Common
  import opened ArtifactStore

  type Path = string
  type Files = map<Path, Bytes>

  datatype FileWriteCheckpoint = FileWriteCheckpoint(
    checkpointId: nat, path: Path, before: Option<Digest>)

  datatype ChangeKind = Create | Delete | Modify | Noop

  datatype FileChange = FileChange(
    checkpointId: nat, path: Path, kind: ChangeKind, before: Option<Digest>, after: Option<Digest>)

  datatype Action = DeleteFile | RestoreFile | Skip

  datatype PreviewItem = PreviewItem(
    path: Path, kind: ChangeKind, action: Action, conflict: bool,
    before: Option<Digest>, after: Option<Digest>)

  datatype Report = Report(restored: seq<Path>, skipped: seq<Path>, conflicts: seq<Path>)

  datatype Error = NotFound | Conflicts(paths: seq<Path>) | MissingArtifact(digest: Digest)

  /** The worktree, the artifact store and the two tables the service uses;
      `changes` lists the `file_changes` rows in creation order. */
  datatype World = World(
    files: Files, artifacts: Artifacts, checkpoints: set<nat>, nextId: nat, changes: seq<FileChange>)

  function Content(files: Files, path: Path): Option<Bytes> {
    if path in files then Some(files[path]) else None
  }

  function Written(files: Files, path: Path, content: Option<Bytes>): Files {
    match content
    case Some(bytes) => files[path := bytes]
    case None => files - {path}
  }

  function DigestOf(content: Option<Bytes>): Option<Digest> {
    match content
    case Some(bytes) => Some(Sha256(bytes))
    case None => None
  }

  function Stored(artifacts: Artifacts, content: Option<Bytes>): Artifacts {
    match content
    case Some(bytes) => StoredBytes(artifacts, bytes)
    case None => artifacts
  }

  function KindOf(before: Option<Digest>, after: Option<Digest>): ChangeKind {
    match (before, after)
    case (None, Some(_)) => Create
    case (Some(_), None) => Delete
    case (Some(_), Some(_)) => Modify
    case (None, None) => Noop
  }

  function Begun(w: World, path: Path): (World, FileWriteCheckpoint) {
    var before := Content(w.files, path);
    (w.(artifacts := Stored(w.artifacts, before),
        checkpoints := w.checkpoints + {w.nextId}, nextId := w.nextId + 1),
     FileWriteCheckpoint(w.nextId, path, DigestOf(before)))
  }

  function Finished(w: World, snapshot: FileWriteCheckpoint): (World, FileChange) {
    var content := Content(w.files, snapshot.path);
    var after := DigestOf(content);
    var change := FileChange(snapshot.checkpointId, snapshot.path,
                             KindOf(snapshot.before, after), snapshot.before, after);
    (w.(artifacts := Stored(w.artifacts, content), changes := w.changes + [change]), change)
  }

  function ChangesOf(changes: seq<FileChange>, id: nat): seq<FileChange> {
    if changes == [] then []
    else if changes[0].checkpointId == id then [changes[0]] + ChangesOf(changes[1..], id)
    else ChangesOf(changes[1..], id)
  }

  function ConflictOf(current: Option<Digest>, before: Option<Digest>, after: Option<Digest>): bool {
    match (current, before, after)
    case (Some(c), Some(b), Some(a)) => c != b && c != a
    case (Some(c), None, Some(a)) => c != a
    case (Some(c), Some(b), None) => c != b
    case _ => false
  }

  function ActionOf(before: Option<Digest>, after: Option<Digest>): Action {
    match (before, after)
    case (None, Some(_)) => DeleteFile
    case (Some(_), _) => RestoreFile
    case (None, None) => Skip
  }

  function ItemOf(files: Files, change: FileChange): PreviewItem {
    PreviewItem(change.path, change.kind, ActionOf(change.before, change.after),
                ConflictOf(DigestOf(Content(files, change.path)), change.before, change.after),
                change.before, change.after)
  }

  function ItemsOf(files: Files, changes: seq<FileChange>): seq<PreviewItem> {
    seq(|changes|, i requires 0 <= i < |changes| => ItemOf(files, changes[i]))
  }

  function Preview(w: World, id: nat): Result<seq<PreviewItem>, Error> {
    if id in w.checkpoints then Ok(ItemsOf(w.files, ChangesOf(w.changes, id))) else Err(NotFound)
  }

  function ConflictsIn(items: seq<PreviewItem>, selected: set<Path>): seq<Path> {
    if items == [] then []
    else if items[0].path in selected && items[0].conflict
    then [items[0].path] + ConflictsIn(items[1..], selected)
    else ConflictsIn(items[1..], selected)
  }

  function RestoreOne(files: Files, artifacts: Artifacts, item: PreviewItem)
    : (Files, Result<bool, Error>)
  {
    match item.action
    case DeleteFile => (files - {item.path}, Ok(true))
    case RestoreFile =>
      (match item.before
       case None => (files, Ok(false))
       case Some(digest) =>
         if digest in artifacts
         then (files[item.path := artifacts[digest]], Ok(true))
         else (files, Err(MissingArtifact(digest))))
    case Skip => (files, Ok(false))
  }

  /** Restoring items in order; a failure keeps what was already restored. */
  function RestoreAll(files: Files, artifacts: Artifacts, items: seq<PreviewItem>,
                      selected: set<Path>, report: Report): (Files, Result<Report, Error>)
    decreases |items|
  {
    if items == [] then (files, Ok(report))
    else if items[0].path !in selected then
      RestoreAll(files, artifacts, items[1..], selected, report)
    else
      var (next, outcome) := RestoreOne(files, artifacts, items[0]);
      match outcome
      case Err(e) => (next, Err(e))
      case Ok(true) => RestoreAll(next, artifacts, items[1..], selected,
                                  report.(restored := report.restored + [items[0].path]))
      case Ok(false) => RestoreAll(next, artifacts, items[1..], selected,
                                   report.(skipped := report.skipped + [items[0].path]))
  }

  function Restored(w: World, id: nat, selected: set<Path>, force: bool): (Files, Result<Report, Error>) {
    match Preview(w, id)
    case Err(e) => (w.files, Err(e))
    case Ok(items) =>
      var conflicts := ConflictsIn(items, selected);
      if !force && conflicts != [] then (w.files, Err(Conflicts(conflicts)))
      else RestoreAll(w.files, w.artifacts, items, selected,
                      Report([], [], if force then conflicts else []))
  }

  // What the conflict matrix means, and when a restore goes through.

  /** A conflict is a file that is present and holds neither of the recorded contents. */
  lemma ConflictMeansForeignContent(current: Option<Digest>, before: Option<Digest>, after: Option<Digest>)
    ensures ConflictOf(current, before, after)
            <==> current.Some? && current != before && current != after
                 && !(before.None? && after.None?)
  {
  }

  /** The store holds every digest a change refers to, under its own content. */
  ghost predicate Backed(w: World) {
    && (forall d | d in w.artifacts :: w.artifacts[d] == d.content)
    && (forall c | c in w.changes :: Holds(w.artifacts, c.before) && Holds(w.artifacts, c.after))
    && (forall c | c in w.changes :: c.checkpointId in w.checkpoints)
    && (forall id | id in w.checkpoints :: id < w.nextId)
  }

  ghost predicate Holds(artifacts: Artifacts, digest: Option<Digest>) {
    digest.Some? ==> digest.value in artifacts
  }

  lemma {:induction false} ChangesOfMembers(changes: seq<FileChange>, id: nat)
    ensures forall c :: c in ChangesOf(changes, id) <==> c in changes && c.checkpointId == id
  {
    if changes != [] {
      ChangesOfMembers(changes[1..], id);
      assert changes == [changes[0]] + changes[1..];
    }
  }

  lemma {:induction false} NoConflictsIff(items: seq<PreviewItem>, selected: set<Path>)
    ensures ConflictsIn(items, selected) == []
            <==> forall item | item in items && item.path in selected :: !item.conflict
  {
    if items != [] {
      NoConflictsIff(items[1..], selected);
      assert items == [items[0]] + items[1..];
    }
  }

  ghost predicate Needs(artifacts: Artifacts, items: seq<PreviewItem>, selected: set<Path>) {
    forall item | item in items && item.path in selected && item.action.RestoreFile? ::
      Holds(artifacts, item.before)
  }

  lemma {:induction false} RestoreAllSucceedsIff(
    files: Files, artifacts: Artifacts, items: seq<PreviewItem>, selected: set<Path>, report: Report)
    ensures RestoreAll(files, artifacts, items, selected, report).1.Ok?
            <==> Needs(artifacts, items, selected)
    decreases |items|
  {
    if items != [] {
      assert items == [items[0]] + items[1..];
      if items[0].path !in selected {
        RestoreAllSucceedsIff(files, artifacts, items[1..], selected, report);
      } else {
        var (next, outcome) := RestoreOne(files, artifacts, items[0]);
        if outcome.Ok? {
          RestoreAllSucceedsIff(next, artifacts, items[1..], selected,
            if outcome.value then report.(restored := report.restored + [items[0].path])
            else report.(skipped := report.skipped + [items[0].path]));
        }
      }
    }
  }

  /** A restore succeeds exactly when the checkpoint exists, nothing selected
      conflicts (unless forced), and the store has every content to put back. */
  lemma RestoreSucceedsIff(w: World, id: nat, selected: set<Path>, force: bool)
    ensures var items := ItemsOf(w.files, ChangesOf(w.changes, id));
            Restored(w, id, selected, force).1.Ok?
            <==> && id in w.checkpoints
                 && (force || forall item | item in items && item.path in selected :: !item.conflict)
                 && Needs(w.artifacts, items, selected)
  {
    var items := ItemsOf(w.files, ChangesOf(w.changes, id));
    NoConflictsIff(items, selected);
    RestoreAllSucceedsIff(w.files, w.artifacts, items, selected,
      Report([], [], if force then ConflictsIn(items, selected) else []));
  }

  lemma ItemsNeedNothing(w: World, id: nat, selected: set<Path>)
    requires Backed(w)
    ensures Needs(w.artifacts, ItemsOf(w.files, ChangesOf(w.changes, id)), selected)
  {
    ChangesOfMembers(w.changes, id);
  }

  /** With every recorded content stored, a failing restore touches no file. */
  lemma FailureTouchesNothing(w: World, id: nat, selected: set<Path>, force: bool)
    requires Backed(w) && Restored(w, id, selected, force).1.Err?
    ensures Restored(w, id, selected, force).0 == w.files
  {
    RestoreSucceedsIff(w, id, selected, force);
    ItemsNeedNothing(w, id, selected);
    NoConflictsIff(ItemsOf(w.files, ChangesOf(w.changes, id)), selected);
  }

  /** A content missing from the store can stop a restore half-way, with the
      earlier files already rewritten. */
  lemma MissingArtifactLeavesPartialRestore(a: Digest, b: Digest)
    requires a != b
    ensures var w := World(map["x" := [], "y" := []], map[a := a.content], {0}, 1,
                           [FileChange(0, "x", Modify, Some(a), Some(Sha256([]))),
                            FileChange(0, "y", Modify, Some(b), Some(Sha256([])))]);
            Restored(w, 0, {"x", "y"}, false)
            == (map["x" := a.content, "y" := []], Err(MissingArtifact(b)))
  {
    var c0 := FileChange(0, "x", Modify, Some(a), Some(Sha256([])));
    var c1 := FileChange(0, "y", Modify, Some(b), Some(Sha256([])));
    var w := World(map["x" := [], "y" := []], map[a := a.content], {0}, 1, [c0, c1]);
    assert [c0, c1][1..] == [c1] && [c1][1..] == [];
    assert ChangesOf([c1], 0) == [c1];
    assert ChangesOf(w.changes, 0) == [c0, c1];
    var i0, i1 := ItemOf(w.files, c0), ItemOf(w.files, c1);
    assert ItemsOf(w.files, [c0, c1]) == [i0, i1];
    assert [i0, i1][1..] == [i1] && [i1][1..] == [];
    assert i0.path == "x" && i1.path == "y" && !i0.conflict && !i1.conflict;
    assert ConflictsIn([i1], {"x", "y"}) == [];
    assert ConflictsIn([i0, i1], {"x", "y"}) == [];
    var next := w.files["x" := a.content];
    assert RestoreOne(w.files, w.artifacts, i0) == (next, Ok(true));
    assert RestoreAll(next, w.artifacts, [i1], {"x", "y"}, Report([] + ["x"], [], []))
        == (next, Err(MissingArtifact(b)));
    assert RestoreAll(w.files, w.artifacts, [i0, i1], {"x", "y"}, Report([], [], []))
        == (next, Err(MissingArtifact(b)));
    assert next == map["x" := a.content, "y" := []];
  }

  // What a successful restore does to each file.

  function Target(artifacts: Artifacts, item: PreviewItem, current: Option<Bytes>): Option<Bytes> {
    match item.action
    case DeleteFile => None
    case RestoreFile =>
      if item.before.Some? && item.before.value in artifacts
      then Some(artifacts[item.before.value]) else current
    case Skip => current
  }

  ghost predicate DistinctPaths(items: seq<PreviewItem>) {
    forall i, j :: 0 <= i < j < |items| ==> items[i].path != items[j].path
  }

  ghost predicate Changes(item: PreviewItem, selected: set<Path>, path: Path) {
    item.path == path && path in selected && !item.action.Skip?
  }

  lemma {:induction false} RestoreAllTouchesOnly(
    files: Files, artifacts: Artifacts, items: seq<PreviewItem>, selected: set<Path>, report: Report,
    path: Path)
    requires forall item | item in items :: !Changes(item, selected, path)
    ensures Content(RestoreAll(files, artifacts, items, selected, report).0, path)
            == Content(files, path)
    decreases |items|
  {
    if items != [] {
      assert items == [items[0]] + items[1..];
      if items[0].path !in selected {
        RestoreAllTouchesOnly(files, artifacts, items[1..], selected, report, path);
      } else {
        assert !Changes(items[0], selected, path);
        var (next, outcome) := RestoreOne(files, artifacts, items[0]);
        if outcome.Ok? {
          RestoreAllTouchesOnly(next, artifacts, items[1..], selected,
            if outcome.value then report.(restored := report.restored + [items[0].path])
            else report.(skipped := report.skipped + [items[0].path]), path);
        }
      }
    }
  }

  lemma {:induction false} RestoreAllReachesTarget(
    files: Files, artifacts: Artifacts, items: seq<PreviewItem>, selected: set<Path>, report: Report,
    k: nat)
    requires DistinctPaths(items) && k < |items| && items[k].path in selected
    requires Needs(artifacts, items, selected)
    ensures var item := items[k];
            Content(RestoreAll(files, artifacts, items, selected, report).0, item.path)
            == Target(artifacts, item, Content(files, item.path))
    decreases |items|
  {
    assert items == [items[0]] + items[1..];
    var path := items[k].path;
    if items[0].path !in selected {
      RestoreAllReachesTarget(files, artifacts, items[1..], selected, report, k - 1);
    } else {
      var (next, outcome) := RestoreOne(files, artifacts, items[0]);
      var more := if outcome == Ok(true) then report.(restored := report.restored + [items[0].path])
                  else report.(skipped := report.skipped + [items[0].path]);
      if k == 0 {
        RestoreAllTouchesOnly(next, artifacts, items[1..], selected, more, path);
      } else {
        assert items[0].path != path;
        RestoreAllReachesTarget(next, artifacts, items[1..], selected, more, k - 1);
      }
    }
  }

  // What a caller is told.

  /** The kind of a change says whether there was a file before and after. */
  lemma FinishRecordsChange(w: World, snapshot: FileWriteCheckpoint)
    ensures var (after, c) := Finished(w, snapshot);
            && after.changes == w.changes + [c] && after.files == w.files
            && c.checkpointId == snapshot.checkpointId && c.path == snapshot.path && c.before == snapshot.before
            && (c.path in w.files ==> c.after == Some(Sha256(w.files[c.path])))
            && (c.path !in w.files ==> c.after == None)
            && (c.kind.Create? <==> c.before.None? && c.path in w.files)
            && (c.kind.Delete? <==> c.before.Some? && c.path !in w.files)
            && (c.kind.Modify? <==> c.before.Some? && c.path in w.files)
            && (c.kind.Noop? <==> c.before.None? && c.path !in w.files)
  {
  }

  /** The present file holds neither of two recorded contents, of which there is one. */
  ghost predicate Foreign(w: World, c: FileChange) {
    && c.path in w.files && (c.before.Some? || c.after.Some?)
    && c.before != Some(Sha256(w.files[c.path])) && c.after != Some(Sha256(w.files[c.path]))
  }

  lemma ItemSays(w: World, c: FileChange)
    ensures var item := ItemOf(w.files, c);
            && item.path == c.path && item.kind == c.kind && item.before == c.before && item.after == c.after
            && (item.conflict <==> Foreign(w, c))
            && (item.action.RestoreFile? <==> c.before.Some?)
            && (item.action.DeleteFile? <==> c.before.None? && c.after.Some?)
            && (item.action.Skip? <==> c.before.None? && c.after.None?)
  {
    ConflictMeansForeignContent(DigestOf(Content(w.files, c.path)), c.before, c.after);
  }

  lemma {:induction false} ConflictsInMembers(items: seq<PreviewItem>, selected: set<Path>)
    ensures forall p :: p in ConflictsIn(items, selected)
              <==> exists item :: item in items && item.path == p && p in selected && item.conflict
  {
    if items != [] {
      ConflictsInMembers(items[1..], selected);
      assert items == [items[0]] + items[1..];
    }
  }

  /** Of a path in a list of the report: it was there before, or an item put it there. */
  lemma {:induction false} ReportGrows(
    files: Files, artifacts: Artifacts, items: seq<PreviewItem>, selected: set<Path>, report: Report, p: Path)
    requires Needs(artifacts, items, selected)
    requires forall item | item in items && item.action.RestoreFile? :: item.before.Some?
    ensures var outcome := RestoreAll(files, artifacts, items, selected, report).1;
            && outcome.Ok? && outcome.value.conflicts == report.conflicts
            && (p in outcome.value.restored <==>
                  (p in report.restored
                   || exists item :: item in items && item.path == p && p in selected && !item.action.Skip?))
            && (p in outcome.value.skipped <==>
                  (p in report.skipped
                   || exists item :: item in items && item.path == p && p in selected && item.action.Skip?))
    decreases |items|
  {
    if items != [] {
      var item, rest := items[0], items[1..];
      assert items == [item] + rest;
      if item.path !in selected {
        ReportGrows(files, artifacts, rest, selected, report, p);
      } else {
        var (next, outcome) := RestoreOne(files, artifacts, item);
        ReportGrows(next, artifacts, rest, selected,
          if outcome.value then report.(restored := report.restored + [item.path])
          else report.(skipped := report.skipped + [item.path]), p);
      }
    }
  }

  ghost predicate Selects(w: World, id: nat, selected: set<Path>, p: Path, c: FileChange) {
    c in w.changes && c.checkpointId == id && c.path == p && p in selected
  }

  /** The report of a restore that went through lists as restored the selected paths of
      which a content was recorded before or after, as skipped those of which neither
      was, and, if it was forced, as conflicts those with foreign content. */
  lemma ReportSorts(w: World, id: nat, selected: set<Path>, force: bool, p: Path)
    requires Restored(w, id, selected, force).1.Ok?
    ensures var report := Restored(w, id, selected, force).1.value;
            && (p in report.restored <==>
                  exists c :: Selects(w, id, selected, p, c) && (c.before.Some? || c.after.Some?))
            && (p in report.skipped <==>
                  exists c :: Selects(w, id, selected, p, c) && c.before.None? && c.after.None?)
            && (p in report.conflicts <==>
                  force && exists c :: Selects(w, id, selected, p, c) && Foreign(w, c))
  {
    var changes := ChangesOf(w.changes, id);
    var items := ItemsOf(w.files, changes);
    var conflicts := ConflictsIn(items, selected);
    RestoreSucceedsIff(w, id, selected, force);
    ChangesOfMembers(w.changes, id);
    ConflictsInMembers(items, selected);
    forall c | c in w.changes && c.checkpointId == id ensures ItemOf(w.files, c) in items {
      var k :| 0 <= k < |changes| && changes[k] == c;
      assert items[k] == ItemOf(w.files, c);
    }
    forall c { ItemSays(w, c); }
    assert forall item | item in items ::
      exists c :: c in w.changes && c.checkpointId == id && item == ItemOf(w.files, c);
    ReportGrows(w.files, w.artifacts, items, selected, Report([], [], if force then conflicts else []), p);
  }

  // What a failing restore does.

  /** A selected item whose content to put back is missing from the store. */
  predicate Blocks(artifacts: Artifacts, item: PreviewItem, selected: set<Path>) {
    && item.path in selected && item.action.RestoreFile?
    && item.before.Some? && item.before.value !in artifacts
  }

  /** The position of the first item that blocks, or the number of items. */
  function FirstBlocking(artifacts: Artifacts, items: seq<PreviewItem>, selected: set<Path>): (n: nat)
    ensures n <= |items| && (n < |items| ==> Blocks(artifacts, items[n], selected))
    ensures forall k | 0 <= k < n :: !Blocks(artifacts, items[k], selected)
  {
    if items == [] || Blocks(artifacts, items[0], selected) then 0
    else
      var n := FirstBlocking(artifacts, items[1..], selected);
      assert forall k | 1 <= k < n + 1 :: items[k] == items[1..][k - 1];
      n + 1
  }

  /** A restore that blocks does what it would have done with the items before. */
  lemma {:induction false} RestoreAllStopsAt(
    files: Files, artifacts: Artifacts, items: seq<PreviewItem>, selected: set<Path>, report: Report)
    ensures var n := FirstBlocking(artifacts, items, selected);
            RestoreAll(files, artifacts, items, selected, report).0
            == RestoreAll(files, artifacts, items[..n], selected, report).0
    decreases |items|
  {
    var n := FirstBlocking(artifacts, items, selected);
    if n > 0 {
      var rest := items[1..];
      assert items[..n][0] == items[0] && items[..n][1..] == rest[..n - 1];
      if items[0].path !in selected {
        RestoreAllStopsAt(files, artifacts, rest, selected, report);
      } else {
        var (next, outcome) := RestoreOne(files, artifacts, items[0]);
        RestoreAllStopsAt(next, artifacts, rest, selected,
          if outcome == Ok(true) then report.(restored := report.restored + [items[0].path])
          else report.(skipped := report.skipped + [items[0].path]));
      }
    }
  }

  /** The item leaves its file as it is. */
  predicate Idle(w: World, item: PreviewItem) {
    Target(w.artifacts, item, Content(w.files, item.path)) == Content(w.files, item.path)
  }

  lemma RestoreAllIdleIff(w: World, items: seq<PreviewItem>, selected: set<Path>, report: Report)
    requires DistinctPaths(items) && Needs(w.artifacts, items, selected)
    ensures RestoreAll(w.files, w.artifacts, items, selected, report).0 == w.files
            <==> forall k | 0 <= k < |items| && items[k].path in selected :: Idle(w, items[k])
  {
    var after := RestoreAll(w.files, w.artifacts, items, selected, report).0;
    forall k | 0 <= k < |items| && items[k].path in selected
      ensures Content(after, items[k].path) == Target(w.artifacts, items[k], Content(w.files, items[k].path))
    {
      RestoreAllReachesTarget(w.files, w.artifacts, items, selected, report, k);
    }
    if forall k | 0 <= k < |items| && items[k].path in selected :: Idle(w, items[k]) {
      forall p ensures Content(after, p) == Content(w.files, p) {
        if forall item | item in items :: !Changes(item, selected, p) {
          RestoreAllTouchesOnly(w.files, w.artifacts, items, selected, report, p);
        }
      }
      SameFiles(after, w.files);
    }
  }

  /** The restore is refused before any file is looked at for writing. */
  ghost predicate PreflightRefuses(w: World, id: nat, selected: set<Path>, force: bool) {
    || id !in w.checkpoints
    || (!force && exists item :: item in ItemsOf(w.files, ChangesOf(w.changes, id)) && item.path in selected
                                 && item.conflict)
  }

  /** A failing restore leaves every file as it was exactly when its preflight
      refuses it, or when every selected item before the first one whose content
      is missing leaves its own file as it is. */
  lemma FailureTouchesNothingIff(w: World, id: nat, selected: set<Path>, force: bool)
    requires DistinctChanges(ChangesOf(w.changes, id)) && Restored(w, id, selected, force).1.Err?
    ensures var items := ItemsOf(w.files, ChangesOf(w.changes, id));
            Restored(w, id, selected, force).0 == w.files
            <==> PreflightRefuses(w, id, selected, force)
                 || forall k | 0 <= k < FirstBlocking(w.artifacts, items, selected)
                               && items[k].path in selected :: Idle(w, items[k])
  {
    var items := ItemsOf(w.files, ChangesOf(w.changes, id));
    NoConflictsIff(items, selected);
    if !PreflightRefuses(w, id, selected, force) {
      var report := Report([], [], if force then ConflictsIn(items, selected) else []);
      var n := FirstBlocking(w.artifacts, items, selected);
      RestoreAllStopsAt(w.files, w.artifacts, items, selected, report);
      assert Needs(w.artifacts, items[..n], selected);
      RestoreAllIdleIff(w, items[..n], selected, report);
      assert forall k | 0 <= k < n :: items[..n][k] == items[k];
    }
  }

  /** An unforced restore that succeeds changes selected paths only, and every
      content it overwrites or deletes is in the artifact store. */
  lemma RestoreLosesNothing(w: World, id: nat, selected: set<Path>, path: Path)
    requires Backed(w) && Restored(w, id, selected, false).1.Ok?
    requires Content(Restored(w, id, selected, false).0, path) != Content(w.files, path)
    ensures path in selected
    ensures path in w.files ==> Sha256(w.files[path]) in w.artifacts
  {
    var changes := ChangesOf(w.changes, id);
    var items := ItemsOf(w.files, changes);
    NoConflictsIff(items, selected);
    ChangesOfMembers(w.changes, id);
    if forall item | item in items :: !Changes(item, selected, path) {
      RestoreAllTouchesOnly(w.files, w.artifacts, items, selected, Report([], [], []), path);
    } else {
      var item :| item in items && Changes(item, selected, path);
      var i :| 0 <= i < |items| && items[i] == item;
      assert changes[i] in changes;
      ConflictMeansForeignContent(DigestOf(Content(w.files, path)), item.before, item.after);
    }
  }

  lemma SameFiles(a: Files, b: Files)
    requires forall p :: Content(a, p) == Content(b, p)
    ensures a == b
  {
    forall p ensures p in a <==> p in b {
      assert Content(a, p) == Content(b, p);
    }
    forall p | p in a ensures a[p] == b[p] {
      assert Content(a, p) == Content(b, p);
    }
  }

  ghost predicate DistinctChanges(changes: seq<FileChange>) {
    forall i, j :: 0 <= i < j < |changes| ==> changes[i].path != changes[j].path
  }

  /** The content a selected item leads to is no conflict for that item. */
  lemma TargetIsNoConflict(artifacts: Artifacts, change: FileChange, files: Files, after: Files)
    requires forall d | d in artifacts :: artifacts[d] == d.content
    requires Holds(artifacts, change.before)
    requires Content(after, change.path)
             == Target(artifacts, ItemOf(files, change), Content(files, change.path))
    requires !ItemOf(files, change).conflict || !ItemOf(files, change).action.Skip?
    ensures !ItemOf(after, change).conflict
    ensures Target(artifacts, ItemOf(after, change), Content(after, change.path))
            == Content(after, change.path)
  {
  }

  /** Once a restore has succeeded, forced or not, repeating it unforced
      succeeds and changes nothing. */
  lemma RestoreIsIdempotent(w: World, id: nat, selected: set<Path>, force: bool)
    requires Backed(w) && DistinctChanges(ChangesOf(w.changes, id))
    requires Restored(w, id, selected, force).1.Ok?
    ensures var files := Restored(w, id, selected, force).0;
            var again := Restored(w.(files := files), id, selected, false);
            again.1.Ok? && again.0 == files
  {
    var changes := ChangesOf(w.changes, id);
    var items := ItemsOf(w.files, changes);
    var report := Report([], [], if force then ConflictsIn(items, selected) else []);
    var files := Restored(w, id, selected, force).0;
    var v := w.(files := files);
    var items' := ItemsOf(files, changes);
    ChangesOfMembers(w.changes, id);
    RestoreSucceedsIff(w, id, selected, force);
    forall i | 0 <= i < |items| && items[i].path in selected
      ensures !items'[i].conflict
      ensures Target(w.artifacts, items'[i], Content(files, items[i].path))
              == Content(files, items[i].path)
    {
      assert changes[i] in changes;
      RestoreAllReachesTarget(w.files, w.artifacts, items, selected, report, i);
      TargetIsNoConflict(w.artifacts, changes[i], w.files, files);
    }
    RestoreSucceedsIff(v, id, selected, false);
    var again := Restored(v, id, selected, false);
    NoConflictsIff(items', selected);
    forall p ensures Content(again.0, p) == Content(files, p) {
      if i :| 0 <= i < |items'| && items'[i].path == p && p in selected {
        RestoreAllReachesTarget(files, w.artifacts, items', selected, Report([], [], []), i);
      } else {
        RestoreAllTouchesOnly(files, w.artifacts, items', selected, Report([], [], []), p);
      }
    }
    SameFiles(again.0, files);
  }

  // Every service step keeps the store complete, also when writes overlap.

  lemma BeginKeepsBacked(w: World, path: Path)
    requires Backed(w)
    ensures var (begun, snapshot) := Begun(w, path);
            && Backed(begun) && begun.files == w.files
            && snapshot.checkpointId in begun.checkpoints && Holds(begun.artifacts, snapshot.before)
  {
  }

  lemma FinishKeepsBacked(w: World, snapshot: FileWriteCheckpoint)
    requires Backed(w) && snapshot.checkpointId in w.checkpoints
    requires Holds(w.artifacts, snapshot.before)
    ensures Backed(Finished(w, snapshot).0) && w.artifacts.Keys <= Finished(w, snapshot).0.artifacts.Keys
  {
  }

  // Undoing whole histories.

  /** A checkpointed write of one file, or an edit nobody checkpointed. */
  datatype Edit =
    | Checkpointed(path: Path, content: Option<Bytes>)
    | Foreign(path: Path, content: Option<Bytes>)

  function Played(w: World, edit: Edit): World {
    match edit
    case Foreign(path, content) => w.(files := Written(w.files, path, content))
    case Checkpointed(path, content) =>
      var (begun, snapshot) := Begun(w, path);
      Finished(begun.(files := Written(begun.files, path, content)), snapshot).0
  }

  function History(w: World, edits: seq<Edit>): World {
    if edits == [] then w
    else Played(History(w, edits[..|edits| - 1]), edits[|edits| - 1])
  }

  ghost function Tracked(edits: seq<Edit>): set<Path> {
    set e | e in edits && e.Checkpointed? :: e.path
  }

  /** Restores the checkpoints `low..high`, newest first, unforced, each with
      all its paths selected; stops at the first failure. */
  function Undone(w: World, high: nat, low: nat): (World, bool)
    decreases high
  {
    if high <= low then (w, true)
    else
      var id := high - 1;
      var selected := set c | c in ChangesOf(w.changes, id) :: c.path;
      var (files, outcome) := Restored(w, id, selected, false);
      if outcome.Err? then (w.(files := files), false)
      else Undone(w.(files := files), id, low)
  }

  lemma {:induction false} ChangesOfAppend(changes: seq<FileChange>, change: FileChange, id: nat)
    ensures ChangesOf(changes + [change], id)
            == ChangesOf(changes, id) + (if change.checkpointId == id then [change] else [])
  {
    if changes != [] {
      assert (changes + [change])[1..] == changes[1..] + [change];
      ChangesOfAppend(changes[1..], change, id);
    }
  }

  lemma PlayedFacts(w: World, edit: Edit)
    requires Backed(w)
    ensures Backed(Played(w, edit))
    ensures Content(Played(w, edit).files, edit.path) == edit.content
    ensures forall p | p != edit.path :: Content(Played(w, edit).files, p) == Content(w.files, p)
    ensures edit.Checkpointed? ==>
              var change := FileChange(w.nextId, edit.path,
                KindOf(DigestOf(Content(w.files, edit.path)), DigestOf(edit.content)),
                DigestOf(Content(w.files, edit.path)), DigestOf(edit.content));
              && Played(w, edit).changes == w.changes + [change]
              && Played(w, edit).nextId == w.nextId + 1
              && Played(w, edit).checkpoints == w.checkpoints + {w.nextId}
  {
  }

  /** `v` still has everything the history `m` recorded, whatever happened since. */
  ghost predicate Remembers(v: World, m: World) {
    && Backed(v)
    && m.checkpoints <= v.checkpoints
    && (forall id: nat | id < m.nextId :: ChangesOf(v.changes, id) == ChangesOf(m.changes, id))
  }

  lemma {:induction false} NothingRecorded(changes: seq<FileChange>, id: nat)
    requires forall c | c in changes :: c.checkpointId != id
    ensures ChangesOf(changes, id) == []
  {
    if changes != [] {
      assert changes == [changes[0]] + changes[1..];
      NothingRecorded(changes[1..], id);
    }
  }

  lemma RestoringOneWrite(v: World, change: FileChange, before: Option<Bytes>, after: Option<Bytes>)
    requires Backed(v) && change.checkpointId in v.checkpoints
    requires ChangesOf(v.changes, change.checkpointId) == [change]
    requires change.before == DigestOf(before) && change.after == DigestOf(after)
    requires Content(v.files, change.path) == after
    ensures var (files, outcome) := Restored(v, change.checkpointId, {change.path}, false);
            && outcome.Ok? && Content(files, change.path) == before
            && forall p | p != change.path :: Content(files, p) == Content(v.files, p)
  {
    var id := change.checkpointId;
    var items := ItemsOf(v.files, [change]);
    ChangesOfMembers(v.changes, id);
    assert change in [change];
    assert items == [ItemOf(v.files, change)];
    RestoreSucceedsIff(v, id, {change.path}, false);
    NoConflictsIff(items, {change.path});
    RestoreAllReachesTarget(v.files, v.artifacts, items, {change.path}, Report([], [], []), 0);
    forall p | p != change.path
      ensures Content(Restored(v, id, {change.path}, false).0, p) == Content(v.files, p)
    {
      RestoreAllTouchesOnly(v.files, v.artifacts, items, {change.path}, Report([], [], []), p);
    }
  }

  lemma LastChangeRecorded(mid: World, last: Edit, v: World)
    requires Backed(mid) && last.Checkpointed? && Remembers(v, Played(mid, last))
    ensures |Played(mid, last).changes| == |mid.changes| + 1
    ensures ChangesOf(v.changes, mid.nextId) == [Played(mid, last).changes[|mid.changes|]]
    ensures forall id: nat | id < mid.nextId :: ChangesOf(v.changes, id) == ChangesOf(mid.changes, id)
  {
    PlayedFacts(mid, last);
    var change := Played(mid, last).changes[|mid.changes|];
    forall id: nat | id < mid.nextId ensures ChangesOf(v.changes, id) == ChangesOf(mid.changes, id) {
      ChangesOfAppend(mid.changes, change, id);
    }
    NothingRecorded(mid.changes, mid.nextId);
    ChangesOfAppend(mid.changes, change, mid.nextId);
  }

  lemma NewestUndone(v: World, id: nat, low: nat, path: Path)
    requires low <= id && (forall c | c in ChangesOf(v.changes, id) :: c.path == path)
    requires ChangesOf(v.changes, id) != [] && Restored(v, id, {path}, false).1.Ok?
    ensures Undone(v, id + 1, low) == Undone(v.(files := Restored(v, id, {path}, false).0), id, low)
  {
    assert ChangesOf(v.changes, id)[0] in ChangesOf(v.changes, id);
    assert (set c | c in ChangesOf(v.changes, id) :: c.path) == {path};
  }

  /** One step of an undo: the newest checkpoint goes, `v` becomes `next`. */
  lemma UndoingLastWrite(mid: World, last: Edit, v: World, low: nat) returns (next: World)
    requires Backed(mid) && last.Checkpointed? && low <= mid.nextId
    requires Remembers(v, Played(mid, last)) && Content(v.files, last.path) == last.content
    ensures Remembers(next, mid)
    ensures Content(next.files, last.path) == Content(mid.files, last.path)
    ensures forall p | p != last.path :: Content(next.files, p) == Content(v.files, p)
    ensures Undone(v, Played(mid, last).nextId, low) == Undone(next, mid.nextId, low)
    ensures forall p | p != last.path :: Content(Played(mid, last).files, p) == Content(mid.files, p)
  {
    PlayedFacts(mid, last);
    LastChangeRecorded(mid, last, v);
    var change := Played(mid, last).changes[|mid.changes|];
    RestoringOneWrite(v, change, Content(mid.files, last.path), last.content);
    NewestUndone(v, mid.nextId, low, last.path);
    next := v.(files := Restored(v, mid.nextId, {last.path}, false).0);
  }

  lemma ForeignEditRecordsNothing(mid: World, last: Edit, v: World)
    requires last.Foreign? && Remembers(v, Played(mid, last))
    ensures Remembers(v, mid) && Played(mid, last).nextId == mid.nextId
    ensures forall p | p != last.path :: Content(Played(mid, last).files, p) == Content(mid.files, p)
  {
  }

  ghost predicate TakenBack(undone: World, start: World, now: World, tracked: set<Path>) {
    && (forall p | p in tracked :: Content(undone.files, p) == Content(start.files, p))
    && (forall p | p !in tracked :: Content(undone.files, p) == Content(now.files, p))
  }

  /** For every history of checkpointed writes, interleaved with foreign edits
      of other files, restoring the checkpoints unforced in reverse order never
      meets a conflict, brings every checkpointed file back to its starting
      content, and leaves every other file as it is now. */
  lemma {:induction false} UndoRestoresStart(w: World, edits: seq<Edit>, v: World)
    requires Backed(w)
    requires forall e | e in edits && e.Foreign? :: e.path !in Tracked(edits)
    requires Remembers(v, History(w, edits))
    requires forall p | p in Tracked(edits) ::
               Content(v.files, p) == Content(History(w, edits).files, p)
    ensures var (undone, ok) := Undone(v, History(w, edits).nextId, w.nextId);
            ok && TakenBack(undone, w, v, Tracked(edits))
    decreases |edits|
  {
    if edits != [] {
      var prefix, last := edits[..|edits| - 1], edits[|edits| - 1];
      var mid := History(w, prefix);
      assert edits == prefix + [last];
      HistoryIsBacked(w, prefix);
      if last.Foreign? {
        assert Tracked(edits) == Tracked(prefix);
        ForeignEditRecordsNothing(mid, last, v);
        UndoRestoresStart(w, prefix, v);
      } else {
        var next := UndoingLastWrite(mid, last, v, w.nextId);
        UndoRestoresStart(w, prefix, next);
        UntrackedIsUntouched(w, prefix, last.path);
        ExtendTakenBack(Undone(next, mid.nextId, w.nextId).0, w, next, v, Tracked(prefix), last.path);
        assert Tracked(edits) == Tracked(prefix) + {last.path};
      }
    }
  }

  lemma ExtendTakenBack(undone: World, w: World, next: World, v: World, tracked: set<Path>, path: Path)
    requires TakenBack(undone, w, next, tracked)
    requires forall p | p != path :: Content(next.files, p) == Content(v.files, p)
    requires path !in tracked ==> Content(next.files, path) == Content(w.files, path)
    ensures TakenBack(undone, w, v, tracked + {path})
  {
  }

  lemma {:induction false} HistoryIsBacked(w: World, edits: seq<Edit>)
    requires Backed(w)
    ensures Backed(History(w, edits)) && History(w, edits).nextId >= w.nextId
  {
    if edits != [] {
      HistoryIsBacked(w, edits[..|edits| - 1]);
      PlayedFacts(History(w, edits[..|edits| - 1]), edits[|edits| - 1]);
    }
  }

  lemma {:induction false} UntrackedIsUntouched(w: World, edits: seq<Edit>, path: Path)
    requires Backed(w) && forall e | e in edits && e.Foreign? :: e.path != path
    ensures path in Tracked(edits)
            || Content(History(w, edits).files, path) == Content(w.files, path)
  {
    if edits != [] && path !in Tracked(edits) {
      var prefix, last := edits[..|edits| - 1], edits[|edits| - 1];
      assert edits == prefix + [last];
      HistoryIsBacked(w, prefix);
      PlayedFacts(History(w, prefix), last);
      UntrackedIsUntouched(w, prefix, path);
    }
  }

  /** Without foreign edits the undo is exact: the same files as at the start. */
  lemma UndoIsExact(w: World, edits: seq<Edit>)
    requires Backed(w) && forall e | e in edits :: e.Checkpointed?
    ensures var end := History(w, edits);
            var (undone, ok) := Undone(end, end.nextId, w.nextId);
            ok && undone.files == w.files
  {
    var end := History(w, edits);
    HistoryIsBacked(w, edits);
    UndoRestoresStart(w, edits, end);
    var undone := Undone(end, end.nextId, w.nextId).0;
    forall p ensures Content(undone.files, p) == Content(w.files, p) {
      if p !in Tracked(edits) {
        UntrackedIsUntouched(w, edits, p);
      }
    }
    SameFiles(undone.files, w.files);
  }

  /** The service over one worktree: each method leaves the world the functions
      above describe. */
  class CheckpointService {
    var files: Files
    var artifacts: Artifacts
    var checkpoints: set<nat>
    var nextId: nat
    var changes: seq<FileChange>

    ghost function Now(): World
      reads this
    {
      World(files, artifacts, checkpoints, nextId, changes)
    }

    constructor (worktree: Files)
      ensures Now() == World(worktree, map[], {}, 0, []) && Backed(Now())
    {
      files, artifacts, checkpoints, nextId, changes := worktree, map[], {}, 0, [];
    }

    method StoreFileBytes(bytes: Bytes) returns (digest: Digest)
      modifies this`artifacts
      ensures digest == Sha256(bytes) && artifacts == Stored(old(artifacts), Some(bytes))
    {
      digest := Sha256(bytes);
      if digest !in artifacts {
        artifacts := artifacts[digest := bytes];
      }
    }

    method BeginFileWrite(path: Path) returns (snapshot: FileWriteCheckpoint)
      modifies this
      ensures (Now(), snapshot) == Begun(old(Now()), path)
    {
      var before := None;
      if path in files {
        var digest := StoreFileBytes(files[path]);
        before := Some(digest);
      }
      snapshot := FileWriteCheckpoint(nextId, path, before);
      checkpoints := checkpoints + {nextId};
      nextId := nextId + 1;
    }

    method FinishFileWrite(snapshot: FileWriteCheckpoint) returns (change: FileChange)
      modifies this
      ensures (Now(), change) == Finished(old(Now()), snapshot)
    {
      var after := None;
      if snapshot.path in files {
        var digest := StoreFileBytes(files[snapshot.path]);
        after := Some(digest);
      }
      change := FileChange(snapshot.checkpointId, snapshot.path, KindOf(snapshot.before, after),
                           snapshot.before, after);
      changes := changes + [change];
    }

    method PreviewRollback(id: nat) returns (preview: Result<seq<PreviewItem>, Error>)
      ensures preview == Preview(Now(), id)
    {
      if id !in checkpoints {
        return Err(NotFound);
      }
      var recorded := ChangesOf(changes, id);
      var items := [];
      for i := 0 to |recorded|
        invariant items == ItemsOf(files, recorded[..i])
      {
        items := items + [ItemOf(files, recorded[i])];
      }
      assert recorded[..|recorded|] == recorded;
      preview := Ok(items);
    }

    method RestoreItem(item: PreviewItem) returns (outcome: Result<bool, Error>)
      modifies this`files
      ensures (files, outcome) == RestoreOne(old(files), artifacts, item)
    {
      match item.action {
        case DeleteFile =>
          files := files - {item.path};
          outcome := Ok(true);
        case RestoreFile =>
          if item.before.None? {
            return Ok(false);
          }
          if item.before.value !in artifacts {
            return Err(MissingArtifact(item.before.value));
          }
          files := files[item.path := artifacts[item.before.value]];
          outcome := Ok(true);
        case Skip =>
          outcome := Ok(false);
      }
    }

    method RestoreSelective(id: nat, selected: set<Path>, force: bool)
      returns (outcome: Result<Report, Error>)
      modifies this`files
      ensures (files, outcome) == Restored(old(Now()), id, selected, force)
    {
      var preview := PreviewRollback(id);
      if preview.Err? {
        return Err(preview.error);
      }
      var items := preview.value;
      var conflicts := CollectConflicts(items, selected);
      if !force && conflicts != [] {
        return Err(Conflicts(conflicts));
      }
      outcome := RestoreItems(items, selected, Report([], [], if force then conflicts else []));
    }

    static method CollectConflicts(items: seq<PreviewItem>, selected: set<Path>)
      returns (conflicts: seq<Path>)
      ensures conflicts == ConflictsIn(items, selected)
    {
      conflicts := [];
      for i := 0 to |items|
        invariant conflicts + ConflictsIn(items[i..], selected) == ConflictsIn(items, selected)
      {
        if items[i].path in selected && items[i].conflict {
          conflicts := conflicts + [items[i].path];
        }
      }
    }

    method RestoreItems(items: seq<PreviewItem>, selected: set<Path>, start: Report)
      returns (outcome: Result<Report, Error>)
      modifies this`files
      ensures (files, outcome) == RestoreAll(old(files), artifacts, items, selected, start)
    {
      var report := start;
      for i := 0 to |items|
        invariant RestoreAll(files, artifacts, items[i..], selected, report)
                  == RestoreAll(old(files), artifacts, items, selected, start)
      {
        assert items[i..][1..] == items[i + 1..];
        if items[i].path in selected {
          var restored := RestoreItem(items[i]);
          if restored.Err? {
            return Err(restored.error);
          }
          report := if restored.value
                    then report.(restored := report.restored + [items[i].path])
                    else report.(skipped := report.skipped + [items[i].path]);
        }
      }
      outcome := Ok(report);
    }
  }
}
