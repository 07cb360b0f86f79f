/** The commands that walk or rewrite the tables step by step, proved against Forest. */
module Lifecycle {
  import opened Wrappers
  import opened Forest
  import opened ForestSafety

  // ---------------------------------------------------------------- queries

  method GetFolder(folders: Folders, identity: string) returns (row: Option<nat>)
    requires UniqueFolders(folders)
    ensures row == Row(folders, identity)
  {
    row := None;
    if id :| id in folders && folders[id].identity == identity {
      RowIs(folders, id);
      row := Some(id);
    }
  }

  method ResolveFolder(folders: Folders, identity: string, section: Section) returns (row: Option<nat>)
    requires UniqueFolders(folders)
    ensures row == Resolve(folders, identity, section)
  {
    row := None;
    if id :|
        && id in folders && folders[id].identity == identity && !folders[id].deleted
        && folders[id].section == section
    {
      ResolveIs(folders, id, section);
      row := Some(id);
    }
  }

  method GetDocument(documents: Documents, collection: string, identity: string) returns (row: Option<nat>)
    requires UniqueDocuments(documents)
    ensures row == DocumentRow(documents, collection, identity)
  {
    row := None;
    if id :| id in documents && documents[id].collection == collection && documents[id].identity == identity {
      DocumentRowIs(documents, id);
      row := Some(id);
    }
  }

  ghost predicate AnywhereAbove(folders: Folders, id: nat, x: Option<nat>) { exists n: nat :: Above(folders, id, x, n) }

  lemma AboveStep(folders: Folders, id: nat, k: nat)
    requires k in folders && k != id
    ensures AnywhereAbove(folders, id, Some(k)) <==> AnywhereAbove(folders, id, folders[k].parent)
  {
    if n: nat :| Above(folders, id, Some(k), n) { assert Above(folders, id, folders[k].parent, n - 1); }
    if n: nat :| Above(folders, id, folders[k].parent, n) { assert Above(folders, id, Some(k), n + 1); }
  }

  /** The walk from the new parent up to its root; it ends because no chain is endless. */
  method FolderWouldCycle(folders: Folders, id: nat, parent: nat) returns (cycle: bool)
    requires Acyclic(folders) && FoldersOk(folders) && parent in folders
    ensures cycle <==> WouldCycle(folders, id, parent)
  {
    var current := Some(parent);
    assert Rooted(folders, current);
    ghost var n: nat :| Ends(folders, current, n);
    while current.Some?
      invariant Ends(folders, current, n)
      invariant WouldCycle(folders, id, parent) <==> AnywhereAbove(folders, id, current)
      decreases n
    {
      if current.value == id {
        assert Above(folders, id, current, 1);
        return true;
      }
      AboveStep(folders, id, current.value);
      current := folders[current.value].parent;
      n := n - 1;
    }
    return false;
  }

  // ---------------------------------------------------------------- emptying a folder

  method MoveFolders(folders: Folders, id: nat, parent: nat) returns (next: Folders, moved: set<nat>)
    ensures next == Reparent(folders, id, Some(parent))
    ensures moved == set k | k in folders && folders[k].parent == Some(id) && !folders[k].deleted
  {
    next, moved := folders, {};
    var remaining := folders.Keys;
    while remaining != {}
      invariant remaining <= folders.Keys && next.Keys == folders.Keys
      invariant forall k | k in folders ::
          next[k] == if k in remaining then folders[k] else Reparent(folders, id, Some(parent))[k]
      invariant moved == set k | k in folders && k !in remaining && folders[k].parent == Some(id) && !folders[k].deleted
    {
      var k :| k in remaining;
      var f := folders[k];
      if f.parent == Some(id) && !f.deleted {
        next := next[k := f.(parent := Some(parent), revision := f.revision + 1)];
        moved := moved + {k};
      }
      remaining := remaining - {k};
    }
  }

  method MoveContents(documents: Documents, section: Section, id: nat, parent: nat)
      returns (next: Documents, moved: set<nat>)
    ensures next == MoveOut(documents, section, id, parent)
    ensures moved == set k | k in documents && Inside(documents[k], section, id)
  {
    next, moved := documents, {};
    var remaining := documents.Keys;
    while remaining != {}
      invariant remaining <= documents.Keys && next.Keys == documents.Keys
      invariant forall k | k in documents ::
          next[k] == if k in remaining then documents[k] else MoveOut(documents, section, id, parent)[k]
      invariant moved == set k | k in documents && k !in remaining && Inside(documents[k], section, id)
    {
      var k :| k in remaining;
      var d := documents[k];
      if Inside(d, section, id) {
        next := next[k := Placed(d, section, parent)];
        moved := moved + {k};
      }
      remaining := remaining - {k};
    }
  }

  // ---------------------------------------------------------------- moving documents

  /** resolveDocumentFolder and resolveDocumentWorkspaceFolder. */
  method ResolvePlace(folders: Folders, collection: string, folder: string, common: string)
      returns (place: Option<(Option<nat>, nat)>)
    requires UniqueFolders(folders)
    ensures place == Place(folders, collection, folder, common)
  {
    var typed := None;
    if !Folderless(collection) {
      typed := ResolveFolder(folders, OrRoot(folder, SectionOf(collection)), SectionOf(collection));
      if typed.None? { return None; }
    }
    var row := ResolveFolder(folders, OrRoot(common, Shared), Shared);
    if row.None? { return None; }
    return Some((typed, row.value));
  }

  method PrepareMove(st: Store, item: MoveItem, target: Target) returns (result: Result<Option<(nat, Document)>, Error>)
    requires UniqueFolders(st.folders) && UniqueDocuments(st.documents)
    ensures result == Moved(st, item, target)
  {
    var row := GetDocument(st.documents, item.collection, item.identity);
    if row.None? { return Failure(NotFound); }
    var d := st.documents[row.value];
    if d.revision != item.expected { return Failure(RevisionConflict); }
    if d.deleted { return Failure(MoveDeleted); }
    var folder, common := IdentityOf(st.folders, d.folder), IdentityOf(st.folders, Some(d.shared));
    if target.common { common := target.folder; } else { folder := target.folder; }
    var place := ResolvePlace(st.folders, d.collection, folder, common);
    if place.None? { return Failure(NotFound); }
    if folder == IdentityOf(st.folders, d.folder) && common == IdentityOf(st.folders, Some(d.shared)) {
      return Success(None);
    }
    return Success(Some((row.value, d.(folder := place.value.0, shared := place.value.1, revision := d.revision + 1))));
  }

  /** The validation loop of MoveDocuments. */
  method ValidateItems(items: seq<MoveItem>) returns (ok: bool)
    ensures ok <==> Acceptable(items)
  {
    if |items| == 0 || |items| > 500 { return false; }
    var seen: set<(string, string)> := {};
    for i := 0 to |items|
      invariant forall j | 0 <= j < i :: items[j].expected > 0
      invariant seen == set j | 0 <= j < i :: (items[j].collection, items[j].identity)
      invariant forall j, k | 0 <= j < k < i ::
          items[j].collection != items[k].collection || items[j].identity != items[k].identity
    {
      if items[i].expected <= 0 { return false; }
      var key := (items[i].collection, items[i].identity);
      if key in seen {
        var j :| 0 <= j < i && (items[j].collection, items[j].identity) == key;
        return false;
      }
      seen := seen + {key};
    }
    return true;
  }

  /** The transaction of MoveDocuments: everything is prepared before anything is written. */
  method MoveAll(st: Store, items: seq<MoveItem>, target: Target) returns (result: Result<Documents, Error>, moved: nat)
    requires UniqueFolders(st.folders) && UniqueDocuments(st.documents)
    ensures var failure := MoveFailure(st, items, target);
      if failure.Some? then result == Failure(failure.value) && moved == 0
      else result == Success(MovedRows(st, items, target)) && moved == MovedCount(st, items, target)
  {
    var prepared: seq<(nat, Document)> := [];
    for i := 0 to |items|
      invariant MoveFailure(st, items[..i], target).None?
      invariant prepared == Prepared(st, items[..i], target)
    {
      assert items[..i + 1][..i] == items[..i];
      var one := PrepareMove(st, items[i], target);
      if one.Failure? {
        FirstFailureDecides(st, items, i + 1, target);
        return Failure(one.error), 0;
      }
      if one.value.Some? { prepared := prepared + [one.value.value]; }
    }
    assert items[..|items|] == items;
    var rows := st.documents;
    moved := 0;
    for i := 0 to |prepared|
      invariant rows == Written(st.documents, prepared[..i]) && moved == i
    {
      assert prepared[..i + 1][..i] == prepared[..i];
      rows := rows[prepared[i].0 := prepared[i].1];
      moved := moved + 1;
    }
    assert prepared[..|prepared|] == prepared;
    WrittenIsMoved(st, items, target);
    return Success(rows), moved;
  }

  ghost function Prepared(st: Store, items: seq<MoveItem>, target: Target): seq<(nat, Document)> {
    if items == [] then []
    else
      var rest, last := Prepared(st, items[..|items| - 1], target), Moved(st, items[|items| - 1], target);
      if last.Success? && last.value.Some? then rest + [last.value.value] else rest
  }

  ghost function MovedCount(st: Store, items: seq<MoveItem>, target: Target): nat { |Prepared(st, items, target)| }

  function Written(documents: Documents, rows: seq<(nat, Document)>): Documents {
    if rows == [] then documents
    else Written(documents, rows[..|rows| - 1])[rows[|rows| - 1].0 := rows[|rows| - 1].1]
  }

  lemma {:induction false} WrittenIsMoved(st: Store, items: seq<MoveItem>, target: Target)
    ensures Written(st.documents, Prepared(st, items, target)) == MovedRows(st, items, target)
  {
    if items != [] {
      var rest := Prepared(st, items[..|items| - 1], target);
      WrittenIsMoved(st, items[..|items| - 1], target);
      var last := Moved(st, items[|items| - 1], target);
      if last.Success? && last.value.Some? { assert (rest + [last.value.value])[..|rest|] == rest; }
    }
  }

  lemma {:induction false} FirstFailureDecides(st: Store, items: seq<MoveItem>, n: nat, target: Target)
    requires n <= |items| && MoveFailure(st, items[..n], target).Some?
    ensures MoveFailure(st, items, target) == MoveFailure(st, items[..n], target)
    decreases |items|
  {
    if n == |items| {
      assert items[..n] == items;
    } else {
      assert items[..|items| - 1][..n] == items[..n];
      FirstFailureDecides(st, items[..|items| - 1], n, target);
    }
  }

  // ---------------------------------------------------------------- the catalog

  class Catalog {
    var folders: Folders
    var documents: Documents

    function State(): Store reads this { Store(folders, documents) }

    ghost predicate Valid() reads this { Inv(State()) }

    method CreateFolder(id: nat, input: FolderInput) returns (error: Option<Error>)
      requires Valid() && id !in folders
      modifies this`folders
      ensures Valid() && State() == Step(old(State()), NewFolder(id, input))
      ensures Reports(error, Forest.CreateFolder(old(State()), id, input))
    {
      StepKeepsInv(State(), NewFolder(id, input));
      if !input.valid || input.identity == "" || input.root { return Some(Invalid); }
      var parent := ResolveFolder(folders, OrRoot(input.parent, input.section), input.section);
      if parent.None? { return Some(NotFound); }
      var taken := GetFolder(folders, input.identity);
      if taken.Some? { return Some(IdentityTaken); }
      folders := folders[id := Folder(input.identity, input.section, parent, false, input.system, input.content,
          false, 1)];
      return None;
    }

    method RestoreFolder(identity: string, expected: int) returns (error: Option<Error>)
      requires Valid()
      modifies this`folders
      ensures Valid() && State() == Step(old(State()), BringBackFolder(identity, expected))
      ensures Reports(error, Forest.RestoreFolder(old(State()), identity, expected))
    {
      StepKeepsInv(State(), BringBackFolder(identity, expected));
      if expected <= 0 { return Some(PreconditionRequired); }
      var row := GetFolder(folders, identity);
      if row.None? { return Some(NotFound); }
      var f := folders[row.value];
      if f.revision != expected { return Some(RevisionConflict); }
      if !f.deleted { return None; }
      var parent := ResolveFolder(folders, RootIdentity(f.section), f.section);
      if parent.None? { return Some(NotFound); }
      folders := folders[row.value := f.(deleted := false, parent := parent, revision := f.revision + 1)];
      return None;
    }

    method CreateDocument(id: nat, input: DocumentInput) returns (error: Option<Error>)
      requires Valid() && id !in documents
      modifies this`documents
      ensures Valid() && State() == Step(old(State()), NewDocument(id, input))
      ensures Reports(error, Forest.CreateDocument(old(State()), id, input))
    {
      StepKeepsInv(State(), NewDocument(id, input));
      if !input.valid { return Some(Invalid); }
      var place := ResolvePlace(folders, input.collection, input.folder, input.shared);
      if place.None? { return Some(NotFound); }
      var taken := GetDocument(documents, input.collection, input.identity);
      if taken.Some? { return Some(IdentityTaken); }
      documents := documents[id := Document(input.collection, input.identity, place.value.0, place.value.1,
          input.content, false, 1)];
      return None;
    }

    method PatchDocument(collection: string, identity: string, patch: DocumentPatch, expected: int)
        returns (error: Option<Error>)
      requires Valid()
      modifies this`documents
      ensures Valid() && State() == Step(old(State()), ChangeDocument(collection, identity, patch, expected))
      ensures Reports(error, Forest.PatchDocument(old(State()), collection, identity, patch, expected))
    {
      StepKeepsInv(State(), ChangeDocument(collection, identity, patch, expected));
      if expected <= 0 { return Some(PreconditionRequired); }
      var row := GetDocument(documents, collection, identity);
      if row.None? { return Some(NotFound); }
      var changed;
      changed, error := PatchIn(State(), row.value, patch, expected);
      documents := changed;
    }

    method DeleteDocument(collection: string, identity: string, expected: int) returns (error: Option<Error>)
      requires Valid()
      modifies this`documents
      ensures Valid() && State() == Step(old(State()), RemoveDocument(collection, identity, expected))
      ensures Reports(error, Forest.DeleteDocument(old(State()), collection, identity, expected))
    {
      StepKeepsInv(State(), RemoveDocument(collection, identity, expected));
      if expected <= 0 { return Some(PreconditionRequired); }
      var row := GetDocument(documents, collection, identity);
      if row.None? { return Some(NotFound); }
      var changed;
      changed, error := DeleteFrom(State(), row.value, expected);
      documents := changed;
    }

    method RestoreDocument(collection: string, identity: string, expected: int) returns (error: Option<Error>)
      requires Valid()
      modifies this`documents
      ensures Valid() && State() == Step(old(State()), BringBackDocument(collection, identity, expected))
      ensures Reports(error, Forest.RestoreDocument(old(State()), collection, identity, expected))
    {
      StepKeepsInv(State(), BringBackDocument(collection, identity, expected));
      if expected <= 0 { return Some(PreconditionRequired); }
      var row := GetDocument(documents, collection, identity);
      if row.None? { return Some(NotFound); }
      var changed;
      changed, error := RestoreIn(State(), row.value, expected);
      documents := changed;
    }

    method PatchFolder(identity: string, patch: FolderPatch, expected: int) returns (error: Option<Error>)
      requires Valid()
      modifies this
      ensures Valid() && State() == Step(old(State()), ChangeFolder(identity, patch, expected))
      ensures Reports(error, Forest.PatchFolder(old(State()), identity, patch, expected))
    {
      StepKeepsInv(State(), ChangeFolder(identity, patch, expected));
      if expected <= 0 { return Some(PreconditionRequired); }
      var row := GetFolder(folders, identity);
      if row.None? { return Some(NotFound); }
      var changed;
      changed, error := PatchFolderRow(State(), row.value, patch, expected);
      folders := changed;
    }

    method DeleteFolder(identity: string, expected: int) returns (error: Option<Error>)
      requires Valid()
      modifies this
      ensures Valid() && State() == Step(old(State()), RemoveFolder(identity, expected))
      ensures Reports(error, Forest.DeleteFolder(old(State()), identity, expected))
    {
      StepKeepsInv(State(), RemoveFolder(identity, expected));
      if expected <= 0 { return Some(PreconditionRequired); }
      var row := GetFolder(folders, identity);
      if row.None? { return Some(NotFound); }
      var next;
      next, error := DeleteFolderRow(State(), row.value, expected);
      folders, documents := next.folders, next.documents;
    }

    method MoveDocuments(items: seq<MoveItem>, target: Target) returns (error: Option<Error>, moved: nat)
      requires Valid()
      modifies this`documents
      ensures Valid() && State() == Step(old(State()), Move(items, target))
      ensures Reports(error, Forest.MoveDocuments(old(State()), items, target))
      ensures error.None? ==> moved == MovedCount(old(State()), items, target)
    {
      StepKeepsInv(State(), Move(items, target));
      if target.folder == "" { return Some(Invalid), 0; }
      var ok := ValidateItems(items);
      if !ok { return Some(Invalid), 0; }
      var result;
      result, moved := MoveAll(State(), items, target);
      if result.Failure? { return Some(result.error), 0; }
      documents := result.value;
      return None, moved;
    }
  }

  /** The error a command reports is the one that refuses it. */
  ghost predicate Reports(error: Option<Error>, result: Result<Store, Error>) {
    if result.Failure? then error == Some(result.error) else error.None?
  }

  method PatchFolderRow(st: Store, id: nat, patch: FolderPatch, expected: int)
      returns (changed: Folders, error: Option<Error>)
    requires Acyclic(st.folders) && FoldersOk(st.folders) && UniqueFolders(st.folders) && id in st.folders
    ensures Reports(error, PatchRow(st, id, patch, expected))
    ensures changed == if error.None? then PatchRow(st, id, patch, expected).value.folders else st.folders
    ensures error.None? ==> PatchRow(st, id, patch, expected).value.documents == st.documents
  {
    var f := st.folders[id];
    changed := st.folders;
    if f.revision != expected { return changed, Some(RevisionConflict); }
    if f.root || f.system { return changed, Some(SystemFolderImmutable); }
    if Or(patch.section, f.section) != f.section { return changed, Some(SectionImmutable); }
    if !patch.valid || patch.identity == Some("") || patch.root { return changed, Some(Invalid); }
    if Unchanged(st.folders, f, patch) { return changed, None; }
    var parent := ResolveFolder(st.folders, OrRoot(Or(patch.parent, IdentityOf(st.folders, f.parent)), f.section),
        f.section);
    if parent.None? { return changed, Some(NotFound); }
    if parent.value == id { return changed, Some(SelfParent); }
    var cycle := FolderWouldCycle(st.folders, id, parent.value);
    if cycle { return changed, Some(Cycle); }
    if other :| other in st.folders && st.folders[other].identity == Or(patch.identity, f.identity) && other != id {
      assert Named(st.folders, other, Or(patch.identity, f.identity));
      return changed, Some(IdentityTaken);
    }
    changed := st.folders[id := f.(
      identity := Or(patch.identity, f.identity), parent := parent, system := Or(patch.system, f.system),
      content := Or(patch.content, f.content), revision := f.revision + 1)];
    return changed, None;
  }

  method DeleteFolderRow(st: Store, id: nat, expected: int) returns (next: Store, error: Option<Error>)
    requires Inv(st) && id in st.folders
    ensures Reports(error, DeleteRow(st, id, expected))
    ensures next == if error.None? then DeleteRow(st, id, expected).value else st
  {
    var f := st.folders[id];
    if f.revision != expected { return st, Some(RevisionConflict); }
    if f.deleted { return st, None; }
    if f.root || f.system { return st, Some(SystemFolderImmutable); }
    DeleteSucceeds(st, id);
    next, error := DeleteActive(st, id, expected);
  }

  /** The folder and its contents, once the folder may be deleted. */
  method DeleteActive(st: Store, id: nat, expected: int) returns (next: Store, error: Option<Error>)
    requires UniqueFolders(st.folders) && id in st.folders && st.folders[id].revision == expected
    requires var f := st.folders[id]; !f.deleted && !f.root && !f.system
    ensures Reports(error, DeleteRow(st, id, expected))
    ensures next == if error.None? then DeleteRow(st, id, expected).value else st
  {
    var f := st.folders[id];
    var parent := ResolveFolder(st.folders, OrRoot(IdentityOf(st.folders, f.parent), f.section), f.section);
    if parent.None? { return st, Some(NotFound); }
    var folders, movedFolders := MoveFolders(st.folders, id, parent.value);
    var documents, movedDocuments := MoveContents(st.documents, f.section, id, parent.value);
    if folders[id].revision != expected { return st, Some(RevisionConflict); }
    return Store(folders[id := f.(parent := parent, deleted := true, revision := f.revision + 1)], documents), None;
  }

  method PatchIn(st: Store, id: nat, patch: DocumentPatch, expected: int)
      returns (changed: Documents, error: Option<Error>)
    requires UniqueFolders(st.folders) && id in st.documents
    ensures Reports(error, PatchDocumentRow(st, id, patch, expected))
    ensures changed == if error.None? then PatchDocumentRow(st, id, patch, expected).value.documents else st.documents
    ensures error.None? ==> PatchDocumentRow(st, id, patch, expected).value.folders == st.folders
  {
    var d := st.documents[id];
    changed := st.documents;
    if d.revision != expected { return changed, Some(RevisionConflict); }
    if !patch.valid { return changed, Some(Invalid); }
    if UnchangedDocument(st.folders, d, patch) { return changed, None; }
    var place := ResolvePlace(st.folders, d.collection, Or(patch.folder, IdentityOf(st.folders, d.folder)),
        Or(patch.shared, IdentityOf(st.folders, Some(d.shared))));
    if place.None? { return changed, Some(NotFound); }
    var wanted := Or(patch.identity, d.identity);
    if other :|
        && other in st.documents && st.documents[other].collection == d.collection
        && st.documents[other].identity == wanted && other != id
    {
      assert Described(st.documents, other, d.collection, wanted);
      return changed, Some(IdentityTaken);
    }
    changed := st.documents[id := d.(
      identity := wanted, content := Or(patch.content, d.content), folder := place.value.0, shared := place.value.1,
          revision := d.revision + 1)];
    return changed, None;
  }

  method DeleteFrom(st: Store, id: nat, expected: int) returns (changed: Documents, error: Option<Error>)
    requires UniqueFolders(st.folders) && id in st.documents
    ensures Reports(error, DeleteDocumentRow(st, id, expected))
    ensures changed == if error.None? then DeleteDocumentRow(st, id, expected).value.documents else st.documents
    ensures error.None? ==> DeleteDocumentRow(st, id, expected).value.folders == st.folders
  {
    var d := st.documents[id];
    changed := st.documents;
    if d.revision != expected { return changed, Some(RevisionConflict); }
    if d.deleted { return changed, None; }
    var place := ResolvePlace(st.folders, d.collection, IdentityOf(st.folders, d.folder),
        IdentityOf(st.folders, Some(d.shared)));
    if place.None? { return changed, Some(NotFound); }
    return st.documents[id := d.(deleted := true, folder := place.value.0, shared := place.value.1,
        revision := d.revision + 1)], None;
  }

  method RestoreIn(st: Store, id: nat, expected: int) returns (changed: Documents, error: Option<Error>)
    requires UniqueFolders(st.folders) && id in st.documents
    ensures Reports(error, RestoreDocumentRow(st, id, expected))
    ensures changed == if error.None? then RestoreDocumentRow(st, id, expected).value.documents else st.documents
    ensures error.None? ==> RestoreDocumentRow(st, id, expected).value.folders == st.folders
  {
    var d := st.documents[id];
    changed := st.documents;
    if d.revision != expected { return changed, Some(RevisionConflict); }
    if !d.deleted { return changed, None; }
    var place := ResolveRestorePlace(st.folders, d);
    if place.None? { return changed, Some(NotFound); }
    return st.documents[id := d.(deleted := false, folder := place.value.0, shared := place.value.1,
        revision := d.revision + 1)], None;
  }

  /** resolveRestoreFolders: each placement is tried as it is and then replaced by its root. */
  method ResolveRestorePlace(folders: Folders, d: Document) returns (place: Option<(Option<nat>, nat)>)
    requires UniqueFolders(folders)
    ensures place == Place(folders, d.collection,
        Kept(folders, IdentityOf(folders, d.folder), SectionOf(d.collection)),
        Kept(folders, IdentityOf(folders, Some(d.shared)), Shared))
  {
    var typed := None;
    if !Folderless(d.collection) {
      typed := ResolveFolder(folders, OrRoot(IdentityOf(folders, d.folder), SectionOf(d.collection)),
          SectionOf(d.collection));
      if typed.None? { typed := ResolveFolder(folders, OrRoot("", SectionOf(d.collection)), SectionOf(d.collection)); }
      if typed.None? { return None; }
    }
    var common := ResolveFolder(folders, OrRoot(IdentityOf(folders, Some(d.shared)), Shared), Shared);
    if common.None? { common := ResolveFolder(folders, OrRoot("", Shared), Shared); }
    if common.None? { return None; }
    return Some((typed, common.value));
  }
}
