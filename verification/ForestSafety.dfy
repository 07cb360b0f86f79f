/** What every run of folder and document commands keeps. */
module ForestSafety {
  import opened Wrappers
  import opened Forest

  // ---------------------------------------------------------------- invariant

  ghost predicate Rooted(folders: Folders, x: Option<nat>) { exists n: nat :: Ends(folders, x, n) }

  /** Every chain of parents ends, deleted folders included. */
  ghost predicate Acyclic(folders: Folders)
  {
    forall id {:trigger Rooted(folders, Some(id))} | id in folders :: Rooted(folders, Some(id))
  }

  /** Folders lie below folders of their section, active ones below active ones, and only the
      roots below none. */
  ghost predicate FolderOk(folders: Folders, f: Folder) {
    && f.identity != ""
    && (f.root <==> f.parent.None?)
    && (f.root ==> !f.deleted)
    && (f.parent.Some? ==> Holds(folders, f.parent.value, f.section, f.deleted))
  }

  /** `id` is a folder of the section, active unless what lies in it is deleted. */
  predicate Holds(folders: Folders, id: nat, section: Section, deleted: bool) {
    id in folders && folders[id].section == section && (folders[id].deleted ==> deleted)
  }

  ghost predicate DocumentOk(folders: Folders, d: Document) {
    && Holds(folders, d.shared, Shared, d.deleted)
    && (d.folder.None? <==> Folderless(d.collection))
    && (d.folder.Some? ==> Holds(folders, d.folder.value, SectionOf(d.collection), d.deleted))
  }

  ghost predicate FoldersOk(folders: Folders) { forall id | id in folders :: FolderOk(folders, folders[id]) }

  ghost predicate DocumentsOk(folders: Folders, documents: Documents)
  {
    forall id | id in documents :: DocumentOk(folders, documents[id])
  }

  ghost predicate UniqueFolders(folders: Folders) {
    forall a, b | a in folders && b in folders && a != b :: folders[a].identity != folders[b].identity
  }

  ghost predicate UniqueDocuments(documents: Documents) {
    forall a, b | a in documents && b in documents && a != b ::
      documents[a].collection != documents[b].collection || documents[a].identity != documents[b].identity
  }

  ghost predicate Inv(st: Store) {
    && Acyclic(st.folders) && FoldersOk(st.folders) && DocumentsOk(st.folders, st.documents)
    && UniqueFolders(st.folders) && UniqueDocuments(st.documents)
  }

  // ---------------------------------------------------------------- chains

  lemma {:induction false} EndsLater(folders: Folders, x: Option<nat>, n: nat, m: nat)
    requires Ends(folders, x, n) && n <= m
    ensures Ends(folders, x, m)
    decreases n
  {
    if x.Some? { EndsLater(folders, folders[x.value].parent, n - 1, m - 1); }
  }

  /** Chains that avoid `id` do not notice a change of its row. */
  lemma {:induction false} EndsAround(before: Folders, folders: Folders, id: nat, x: Option<nat>, n: nat)
    requires Ends(before, x, n) && !Above(before, id, x, n)
    requires forall k | k in before && k != id :: k in folders && folders[k].parent == before[k].parent
    ensures Ends(folders, x, n)
    decreases n
  {
    if x.Some? { EndsAround(before, folders, id, before[x.value].parent, n - 1); }
  }

  /** Once `id` ends, so does every chain that led to it. */
  lemma {:induction false} EndsThrough(before: Folders, folders: Folders, id: nat, m: nat, x: Option<nat>, n: nat)
    requires Ends(before, x, n) && Ends(folders, Some(id), m)
    requires forall k | k in before && k != id :: k in folders && folders[k].parent == before[k].parent
    ensures Ends(folders, x, n + m)
    decreases n
  {
    if x == Some(id) {
      EndsLater(folders, x, m, n + m);
    } else if x.Some? {
      EndsThrough(before, folders, id, m, before[x.value].parent, n - 1);
    }
  }

  /** Hanging `id` below a folder that is not below it keeps the chains finite. */
  lemma HangKeepsAcyclic(folders: Folders, id: nat, f: Folder, parent: nat)
    requires Acyclic(folders) && parent in folders && f.parent == Some(parent) && parent != id
    requires !WouldCycle(folders, id, parent)
    ensures Acyclic(folders[id := f])
  {
    var next := folders[id := f];
    assert Rooted(folders, Some(parent));
    var m: nat :| Ends(folders, Some(parent), m);
    EndsAround(folders, next, id, Some(parent), m);
    assert Ends(next, Some(id), m + 1);
    forall x | x in next ensures Rooted(next, Some(x)) {
      if x != id {
        assert Rooted(folders, Some(x));
        var n: nat :| Ends(folders, Some(x), n);
        EndsThrough(folders, next, id, m + 1, Some(x), n);
      }
    }
  }

  /** A folder above an active one is active. */
  lemma {:induction false} AboveActive(folders: Folders, id: nat, x: Option<nat>, n: nat)
    requires FoldersOk(folders) && Above(folders, id, x, n) && x.value in folders && !folders[x.value].deleted
    ensures id in folders && !folders[id].deleted
    decreases n
  {
    if x.value != id { AboveActive(folders, id, folders[x.value].parent, n - 1); }
  }

  /** Nothing is below an unused identifier. */
  lemma {:induction false} AboveExists(folders: Folders, id: nat, x: Option<nat>, n: nat)
    requires FoldersOk(folders) && Above(folders, id, x, n) && x.value in folders
    ensures id in folders
    decreases n
  {
    if x.value != id { AboveExists(folders, id, folders[x.value].parent, n - 1); }
  }

  /** Taking a folder's children to its parent shortens chains. */
  lemma {:induction false} EndsSkipping(before: Folders, folders: Folders, id: nat, x: Option<nat>, n: nat)
    requires Ends(before, x, n) && id in before
    requires forall k | k in before ::
        k in folders && (folders[k].parent == before[k].parent ||
        (before[k].parent == Some(id) && folders[k].parent == before[id].parent))
    ensures Ends(folders, x, n)
    decreases n
  {
    if x.Some? {
      EndsSkipping(before, folders, id, before[x.value].parent, n - 1);
      if folders[x.value].parent != before[x.value].parent {
        EndsSkipping(before, folders, id, before[id].parent, n - 2);
        EndsLater(folders, before[id].parent, n - 2, n - 1);
      }
    }
  }

  // ---------------------------------------------------------------- lookups

  lemma RowIs(folders: Folders, id: nat)
    requires UniqueFolders(folders) && id in folders
    ensures Row(folders, folders[id].identity) == Some(id)
  {
    assert Named(folders, id, folders[id].identity);
  }

  lemma DocumentRowIs(documents: Documents, id: nat)
    requires UniqueDocuments(documents) && id in documents
    ensures DocumentRow(documents, documents[id].collection, documents[id].identity) == Some(id)
  {
    assert Described(documents, id, documents[id].collection, documents[id].identity);
  }

  /** An active folder is found by its identity, unless that is empty. */
  lemma ResolveIs(folders: Folders, id: nat, section: Section)
    requires UniqueFolders(folders) && Active(folders, id, section)
    ensures Resolve(folders, folders[id].identity, section) == Some(id)
  {
    assert Named(folders, id, folders[id].identity);
  }

  // ---------------------------------------------------------------- tables

  /** A row that stays in its section and keeps being active keeps what lies below it. */
  lemma SetKeepsHolds(folders: Folders, id: nat, f: Folder, k: nat, section: Section, deleted: bool)
    requires Holds(folders, k, section, deleted)
    requires id in folders ==> f.section == folders[id].section && (f.deleted ==> folders[id].deleted)
    ensures Holds(folders[id := f], k, section, deleted)
  {
  }

  /** Replacing or adding a folder row. */
  lemma SetKeepsFolders(st: Store, id: nat, f: Folder)
    requires FoldersOk(st.folders) && DocumentsOk(st.folders, st.documents) && FolderOk(st.folders[id := f], f)
    requires id in st.folders ==> f.section == st.folders[id].section && (f.deleted ==> st.folders[id].deleted)
    ensures FoldersOk(st.folders[id := f]) && DocumentsOk(st.folders[id := f], st.documents)
  {
    var next := st.folders[id := f];
    forall k | k in next ensures FolderOk(next, next[k]) {
      if k != id && next[k].parent.Some? {
        SetKeepsHolds(st.folders, id, f, next[k].parent.value, next[k].section, next[k].deleted);
      }
    }
    forall k | k in st.documents ensures DocumentOk(next, st.documents[k]) {
      var d := st.documents[k];
      SetKeepsHolds(st.folders, id, f, d.shared, Shared, d.deleted);
      if d.folder.Some? { SetKeepsHolds(st.folders, id, f, d.folder.value, SectionOf(d.collection), d.deleted); }
    }
  }

  lemma SetKeepsUnique(folders: Folders, id: nat, f: Folder)
    requires UniqueFolders(folders) && Free(folders, id, f.identity)
    ensures UniqueFolders(folders[id := f])
  {
    forall a | a in folders && a != id ensures folders[a].identity != f.identity {
      assert Named(folders, a, folders[a].identity);
    }
  }

  // ---------------------------------------------------------------- folder commands

  lemma CreateFolderKeepsInv(st: Store, id: nat, input: FolderInput)
    requires Inv(st) && id !in st.folders && CreateFolder(st, id, input).Success?
    ensures Inv(CreateFolder(st, id, input).value)
  {
    var parent := Resolve(st.folders, OrRoot(input.parent, input.section), input.section).value;
    var f := CreateFolder(st, id, input).value.folders[id];
    if WouldCycle(st.folders, id, parent) {
      var n: nat :| Above(st.folders, id, Some(parent), n);
      AboveExists(st.folders, id, Some(parent), n);
    }
    HangKeepsAcyclic(st.folders, id, f, parent);
    SetKeepsFolders(st, id, f);
    assert Free(st.folders, id, input.identity);
    SetKeepsUnique(st.folders, id, f);
  }

  lemma PatchRowKeepsInv(st: Store, id: nat, patch: FolderPatch, expected: int)
    requires Inv(st) && id in st.folders && PatchRow(st, id, patch, expected).Success?
    ensures Inv(PatchRow(st, id, patch, expected).value)
  {
    var f := st.folders[id];
    if !Unchanged(st.folders, f, patch) {
      var parent := Resolve(st.folders, OrRoot(Or(patch.parent, IdentityOf(st.folders, f.parent)), f.section),
          f.section).value;
      var next := PatchRow(st, id, patch, expected).value.folders[id];
      HangKeepsAcyclic(st.folders, id, next, parent);
      SetKeepsFolders(st, id, next);
      SetKeepsUnique(st.folders, id, next);
    }
  }

  lemma RestoreFolderKeepsInv(st: Store, identity: string, expected: int)
    requires Inv(st) && RestoreFolder(st, identity, expected).Success?
    ensures Inv(RestoreFolder(st, identity, expected).value)
  {
    var id := Row(st.folders, identity).value;
    var f := st.folders[id];
    if f.deleted {
      var parent := Resolve(st.folders, RootIdentity(f.section), f.section).value;
      var next := RestoreFolder(st, identity, expected).value.folders[id];
      if WouldCycle(st.folders, id, parent) {
        var n: nat :| Above(st.folders, id, Some(parent), n);
        AboveActive(st.folders, id, Some(parent), n);
      }
      HangKeepsAcyclic(st.folders, id, next, parent);
      SetKeepsFolders(st, id, next);
      forall other | Named(st.folders, other, f.identity) ensures other == id {
        assert Named(st.folders, id, f.identity);
      }
      SetKeepsUnique(st.folders, id, next);
    }
  }

  /** The folder an active one lies in resolves, and the move of the contents leaves the folder's
      own revision alone: deleting an active folder that is not system-managed never fails once
      the revision matches. */
  lemma DeleteSucceeds(st: Store, id: nat)
    requires Inv(st) && id in st.folders && !st.folders[id].deleted && !st.folders[id].root && !st.folders[id].system
    ensures DeleteRow(st, id, st.folders[id].revision) == Success(Emptied(st, id, st.folders[id].parent.value))
    ensures Active(st.folders, st.folders[id].parent.value, st.folders[id].section) && st.folders[id].parent.value != id
  {
    var f := st.folders[id];
    assert FolderOk(st.folders, f);
    ResolveIs(st.folders, f.parent.value, f.section);
    assert FolderOk(st.folders, st.folders[f.parent.value]);
    NotOwnParent(st.folders, id);
    assert Reparent(st.folders, id, f.parent)[id] == f;
  }

  lemma NotOwnParent(folders: Folders, id: nat)
    requires Acyclic(folders) && id in folders
    ensures folders[id].parent != Some(id)
  {
    assert Rooted(folders, Some(id));
    var n: nat :| Ends(folders, Some(id), n);
    if folders[id].parent == Some(id) { EndlessLoop(folders, id, n); }
  }

  lemma {:induction false} EndlessLoop(folders: Folders, id: nat, n: nat)
    requires id in folders && folders[id].parent == Some(id)
    ensures !Ends(folders, Some(id), n)
  {
    if n > 0 { EndlessLoop(folders, id, n - 1); }
  }

  lemma EmptiedKeepsAcyclic(st: Store, id: nat, parent: nat)
    requires Acyclic(st.folders) && id in st.folders && st.folders[id].parent == Some(parent)
    ensures Acyclic(Emptied(st, id, parent).folders)
  {
    var next := Emptied(st, id, parent).folders;
    forall x | x in next ensures Rooted(next, Some(x)) {
      assert Rooted(st.folders, Some(x));
      var n: nat :| Ends(st.folders, Some(x), n);
      EndsSkipping(st.folders, next, id, Some(x), n);
    }
  }

  /** Whatever lay in `id` while active lies in its parent, where it may. */
  lemma EmptiedKeepsFolders(st: Store, id: nat, parent: nat)
    requires FoldersOk(st.folders) && id in st.folders && st.folders[id].parent == Some(parent) && parent != id
    requires !st.folders[id].deleted && !st.folders[id].root
    ensures FoldersOk(Emptied(st, id, parent).folders)
  {
    var next := Emptied(st, id, parent).folders;
    assert FolderOk(st.folders, st.folders[id]);
    forall k | k in next ensures FolderOk(next, next[k]) {
      assert FolderOk(st.folders, st.folders[k]);
    }
  }

  lemma EmptiedKeepsDocuments(st: Store, id: nat, parent: nat)
    requires FoldersOk(st.folders) && DocumentsOk(st.folders, st.documents)
    requires id in st.folders && st.folders[id].parent == Some(parent) && parent != id && !st.folders[id].deleted
    ensures DocumentsOk(Emptied(st, id, parent).folders, Emptied(st, id, parent).documents)
  {
    var next := Emptied(st, id, parent);
    assert FolderOk(st.folders, st.folders[id]);
    forall k | k in next.documents ensures DocumentOk(next.folders, next.documents[k]) {
      assert DocumentOk(st.folders, st.documents[k]);
    }
  }

  lemma EmptiedKeepsUnique(st: Store, id: nat, parent: nat)
    requires UniqueFolders(st.folders) && UniqueDocuments(st.documents) && id in st.folders
    ensures UniqueFolders(Emptied(st, id, parent).folders) && UniqueDocuments(Emptied(st, id, parent).documents)
  {
  }

  lemma DeleteRowKeepsInv(st: Store, id: nat, expected: int)
    requires Inv(st) && id in st.folders && DeleteRow(st, id, expected).Success?
    ensures Inv(DeleteRow(st, id, expected).value)
  {
    if !st.folders[id].deleted {
      DeleteSucceeds(st, id);
      var parent := st.folders[id].parent.value;
      EmptiedKeepsAcyclic(st, id, parent);
      EmptiedKeepsFolders(st, id, parent);
      EmptiedKeepsDocuments(st, id, parent);
      EmptiedKeepsUnique(st, id, parent);
    }
  }

  // ---------------------------------------------------------------- document commands

  lemma PlaceIsOk(folders: Folders, collection: string, folder: string, common: string)
    requires Place(folders, collection, folder, common).Some?
    ensures var place := Place(folders, collection, folder, common).value;
      && Active(folders, place.1, Shared) && (place.0.None? <==> Folderless(collection))
      && (place.0.Some? ==> Active(folders, place.0.value, SectionOf(collection)))
  {
  }

  lemma SetKeepsDocuments(st: Store, id: nat, d: Document)
    requires DocumentsOk(st.folders, st.documents) && UniqueDocuments(st.documents) && DocumentOk(st.folders, d)
    requires FreeDocument(st.documents, id, d.collection, d.identity)
    ensures DocumentsOk(st.folders, st.documents[id := d]) && UniqueDocuments(st.documents[id := d])
  {
    forall a | a in st.documents && a != id
        ensures st.documents[a].collection != d.collection || st.documents[a].identity != d.identity
    {
      assert Described(st.documents, a, st.documents[a].collection, st.documents[a].identity);
    }
  }

  lemma OwnNameIsFree(documents: Documents, id: nat)
    requires UniqueDocuments(documents) && id in documents
    ensures FreeDocument(documents, id, documents[id].collection, documents[id].identity)
  {
  }

  lemma CreateDocumentKeepsInv(st: Store, id: nat, input: DocumentInput)
    requires Inv(st) && id !in st.documents && CreateDocument(st, id, input).Success?
    ensures Inv(CreateDocument(st, id, input).value)
  {
    PlaceIsOk(st.folders, input.collection, input.folder, input.shared);
    SetKeepsDocuments(st, id, CreateDocument(st, id, input).value.documents[id]);
  }

  lemma PatchDocumentRowKeepsInv(st: Store, id: nat, patch: DocumentPatch, expected: int)
    requires Inv(st) && id in st.documents && PatchDocumentRow(st, id, patch, expected).Success?
    ensures Inv(PatchDocumentRow(st, id, patch, expected).value)
  {
    var d := st.documents[id];
    if !UnchangedDocument(st.folders, d, patch) {
      PlaceIsOk(st.folders, d.collection, Or(patch.folder, IdentityOf(st.folders, d.folder)),
          Or(patch.shared, IdentityOf(st.folders, Some(d.shared))));
      SetKeepsDocuments(st, id, PatchDocumentRow(st, id, patch, expected).value.documents[id]);
    }
  }

  lemma DeleteDocumentKeepsInv(st: Store, collection: string, identity: string, expected: int)
    requires Inv(st) && DeleteDocument(st, collection, identity, expected).Success?
    ensures Inv(DeleteDocument(st, collection, identity, expected).value)
  {
    var id := DocumentRow(st.documents, collection, identity).value;
    var d := st.documents[id];
    if !d.deleted {
      PlaceIsOk(st.folders, d.collection, IdentityOf(st.folders, d.folder), IdentityOf(st.folders, Some(d.shared)));
      OwnNameIsFree(st.documents, id);
      SetKeepsDocuments(st, id, DeleteDocument(st, collection, identity, expected).value.documents[id]);
    }
  }

  lemma RestoreDocumentKeepsInv(st: Store, collection: string, identity: string, expected: int)
    requires Inv(st) && RestoreDocument(st, collection, identity, expected).Success?
    ensures Inv(RestoreDocument(st, collection, identity, expected).value)
  {
    var id := DocumentRow(st.documents, collection, identity).value;
    var d := st.documents[id];
    if d.deleted {
      PlaceIsOk(st.folders, d.collection, Kept(st.folders, IdentityOf(st.folders, d.folder), SectionOf(d.collection)),
                Kept(st.folders, IdentityOf(st.folders, Some(d.shared)), Shared));
      OwnNameIsFree(st.documents, id);
      SetKeepsDocuments(st, id, RestoreDocument(st, collection, identity, expected).value.documents[id]);
    }
  }

  /** The placements of an active document resolve to themselves. */
  lemma OwnPlace(st: Store, id: nat)
    requires Inv(st) && id in st.documents && !st.documents[id].deleted
    ensures var d := st.documents[id];
      Place(st.folders, d.collection, IdentityOf(st.folders, d.folder), IdentityOf(st.folders, Some(d.shared)))
          == Some((d.folder, d.shared))
  {
    var d := st.documents[id];
    assert DocumentOk(st.folders, d);
    assert FolderOk(st.folders, st.folders[d.shared]);
    ResolveIs(st.folders, d.shared, Shared);
    if d.folder.Some? {
      assert FolderOk(st.folders, st.folders[d.folder.value]);
      ResolveIs(st.folders, d.folder.value, SectionOf(d.collection));
    }
  }

  /** Deleting an active document only marks it. */
  lemma DeleteDocumentSucceeds(st: Store, id: nat)
    requires Inv(st) && id in st.documents && !st.documents[id].deleted && st.documents[id].revision > 0
    ensures var d := st.documents[id];
      DeleteDocument(st, d.collection, d.identity, d.revision)
        == Success(st.(documents := st.documents[id := d.(deleted := true, revision := d.revision + 1)]))
  {
    OwnPlace(st, id);
    DocumentRowIs(st.documents, id);
  }

  // ---------------------------------------------------------------- moving

  /** A moved document changes in the placement it is moved in and nowhere else. */
  lemma MovedIs(st: Store, item: MoveItem, target: Target)
    requires Inv(st) && Moved(st, item, target).Success? && Moved(st, item, target).value.Some?
    ensures var (id, d) := Moved(st, item, target).value.value;
      && Described(st.documents, id, item.collection, item.identity) && !st.documents[id].deleted &&
          DocumentOk(st.folders, d)
      && st.documents[id].revision == item.expected && d.revision == item.expected + 1
      && d == (if target.common then st.documents[id].(shared := d.shared, revision := d.revision)
               else st.documents[id].(folder := d.folder, revision := d.revision))
      && (target.common ==> Named(st.folders, d.shared, target.folder) || target.folder == "")
      && (!target.common && !Folderless(d.collection) && d.folder.Some? ==>
          Named(st.folders, d.folder.value, target.folder) || target.folder == "")
  {
    var (id, d) := Moved(st, item, target).value.value;
    OwnPlace(st, id);
    var before := st.documents[id];
    PlaceIsOk(st.folders, before.collection, if target.common then IdentityOf(st.folders, before.folder)
        else target.folder,
              if target.common then target.folder else IdentityOf(st.folders, Some(before.shared)));
  }

  predicate SameNames(a: Documents, b: Documents) {
    && a.Keys == b.Keys
    && forall k | k in a && k in b :: a[k].collection == b[k].collection && a[k].identity == b[k].identity
  }

  lemma {:induction false} MovedRowsKeepInv(st: Store, items: seq<MoveItem>, target: Target)
    requires Inv(st)
    ensures SameNames(st.documents, MovedRows(st, items, target))
    ensures DocumentsOk(st.folders, MovedRows(st, items, target)) && UniqueDocuments(MovedRows(st, items, target))
  {
    if items != [] {
      var item := items[|items| - 1];
      MovedRowsKeepInv(st, items[..|items| - 1], target);
      if Moved(st, item, target).Success? && Moved(st, item, target).value.Some? {
        MovedIs(st, item, target);
        var (id, d) := Moved(st, item, target).value.value;
        MoveRow(st.folders, st.documents, MovedRows(st, items[..|items| - 1], target), id, d);
      }
    }
  }

  lemma MoveRow(folders: Folders, before: Documents, rows: Documents, id: nat, d: Document)
    requires SameNames(before, rows) && DocumentsOk(folders, rows) && UniqueDocuments(rows) && DocumentOk(folders, d)
    requires id in before && d.collection == before[id].collection && d.identity == before[id].identity
    ensures SameNames(before, rows[id := d]) && DocumentsOk(folders, rows[id := d]) && UniqueDocuments(rows[id := d])
  {
    OwnNameIsFree(rows, id);
    SetKeepsDocuments(Store(folders, rows), id, d);
  }

  /** What the list asks of row `k`, read in `st`. */
  ghost predicate Asked(st: Store, items: seq<MoveItem>, i: nat, k: nat) {
    i < |items| && Described(st.documents, k, items[i].collection, items[i].identity)
  }

  ghost predicate Distinct(items: seq<MoveItem>) {
    forall i, j | 0 <= i < j < |items| ::
        items[i].collection != items[j].collection || items[i].identity != items[j].identity
  }

  lemma {:induction false} MoveFailureNone(st: Store, items: seq<MoveItem>, target: Target, i: nat)
    requires MoveFailure(st, items, target).None? && i < |items|
    ensures Moved(st, items[i], target).Success?
  {
    if i < |items| - 1 { MoveFailureNone(st, items[..|items| - 1], target, i); }
  }

  /** Rows the list does not name stay as they are. */
  lemma {:induction false} UnlistedStays(st: Store, items: seq<MoveItem>, target: Target, k: nat)
    requires k in st.documents && forall i | 0 <= i < |items| :: !Asked(st, items, i, k)
    ensures k in MovedRows(st, items, target) && MovedRows(st, items, target)[k] == st.documents[k]
  {
    if items != [] {
      var n := |items| - 1;
      forall i | 0 <= i < n ensures !Asked(st, items[..n], i, k) { assert !Asked(st, items, i, k); }
      UnlistedStays(st, items[..n], target, k);
      assert !Asked(st, items, n, k);
    }
  }

  /** A row the list names becomes what Moved makes of it. */
  lemma {:induction false} ListedMoves(st: Store, items: seq<MoveItem>, target: Target, i: nat, k: nat)
    requires UniqueDocuments(st.documents) && Distinct(items) && Asked(st, items, i, k) &&
        Moved(st, items[i], target).Success?
    ensures k in MovedRows(st, items, target)
    ensures MovedRows(st, items, target)[k]
         == if Moved(st, items[i], target).value.Some? then Moved(st, items[i], target).value.value.1
             else st.documents[k]
  {
    var n := |items| - 1;
    DocumentRowIs(st.documents, k);
    if i == n {
      forall j | 0 <= j < n ensures !Asked(st, items[..n], j, k) {}
      UnlistedStays(st, items[..n], target, k);
    } else {
      assert Asked(st, items[..n], i, k) && items[..n][i] == items[i];
      ListedMoves(st, items[..n], target, i, k);
      assert !Asked(st, items, n, k);
    }
  }

  /** A move is all or nothing: when it succeeds every listed document lies in the target folder
      with its revision raised by one, or was there already, and all other rows are untouched. */
  lemma MoveIsExact(st: Store, items: seq<MoveItem>, target: Target, k: nat)
    requires Inv(st) && MoveDocuments(st, items, target).Success? && k in st.documents
    ensures var rows := MoveDocuments(st, items, target).value.documents;
      && k in rows
      && ((exists i: nat :: Asked(st, items, i, k)) ==>
            || rows[k] == st.documents[k]
            || rows[k] == st.documents[k].(shared := rows[k].shared, folder := rows[k].folder,
                revision := st.documents[k].revision + 1))
      && (target.common && (exists i: nat :: Asked(st, items, i, k)) ==>
          Named(st.folders, rows[k].shared, target.folder))
      && (!target.common && !Folderless(st.documents[k].collection) && (exists i: nat :: Asked(st, items, i, k)) ==>
            rows[k].folder.Some? && Named(st.folders, rows[k].folder.value, target.folder))
      && ((forall i: nat :: !Asked(st, items, i, k)) ==> rows[k] == st.documents[k])
  {
    if i: nat :| Asked(st, items, i, k) {
      MoveFailureNone(st, items, target, i);
      ListedMoves(st, items, target, i, k);
      DocumentRowIs(st.documents, k);
      if Moved(st, items[i], target).value.Some? { MovedIs(st, items[i], target); } else { OwnPlace(st, k); }
    } else {
      UnlistedStays(st, items, target, k);
    }
  }

  /** A configuration has no typed placement, yet moving one there succeeds and raises its
      revision without moving anything. */
  lemma MovedConfigurationStays(st: Store, id: nat, target: Target)
    requires Inv(st) && id in st.documents && !st.documents[id].deleted && Folderless(st.documents[id].collection)
    requires !target.common && target.folder != ""
    ensures var d := st.documents[id];
      Moved(st, MoveItem(d.collection, d.identity, d.revision), target)
          == Success(Some((id, d.(revision := d.revision + 1))))
  {
    OwnPlace(st, id);
    DocumentRowIs(st.documents, id);
    assert DocumentOk(st.folders, st.documents[id]);
    MovedConfiguration(st, id, target);
  }

  lemma MovedConfiguration(st: Store, id: nat, target: Target)
    requires id in st.documents && !st.documents[id].deleted && Folderless(st.documents[id].collection)
    requires !target.common && target.folder != "" && st.documents[id].folder.None?
    requires var d := st.documents[id];
      && DocumentRow(st.documents, d.collection, d.identity) == Some(id)
      && Place(st.folders, d.collection, "", IdentityOf(st.folders, Some(d.shared))) == Some((None, d.shared))
    ensures var d := st.documents[id];
      Moved(st, MoveItem(d.collection, d.identity, d.revision), target)
          == Success(Some((id, d.(revision := d.revision + 1))))
  {
  }

  /** The document lies in the target folder, in the placement the move is about. */
  predicate InTarget(folders: Folders, d: Document, target: Target) {
    if target.common then Named(folders, d.shared, target.folder)
    else d.folder.Some? && Named(folders, d.folder.value, target.folder)
  }

  /** After a successful move a listed document lies in the target exactly when the move is in the
      shared placement or the collection has a typed one.  Otherwise it only gains a revision. */
  lemma MoveReaches(st: Store, items: seq<MoveItem>, target: Target, i: nat, k: nat)
    requires Inv(st) && MoveDocuments(st, items, target).Success? && Asked(st, items, i, k)
    ensures var before, rows := st.documents[k], MoveDocuments(st, items, target).value.documents;
      && k in rows
      && (InTarget(st.folders, rows[k], target) <==> target.common || !Folderless(before.collection))
      && (!target.common && Folderless(before.collection) ==> rows[k] == before.(revision := before.revision + 1))
  {
    MoveIsExact(st, items, target, k);
    MoveFailureNone(st, items, target, i);
    if !target.common && Folderless(st.documents[k].collection) {
      ListedMoves(st, items, target, i, k);
      DocumentRowIs(st.documents, k);
      assert items[i] == MoveItem(st.documents[k].collection, st.documents[k].identity, st.documents[k].revision);
      MovedConfigurationStays(st, k, target);
      assert DocumentOk(st.folders, st.documents[k]);
    }
  }

  // ---------------------------------------------------------------- runs

  datatype Command =
    | NewFolder(id: nat, folder: FolderInput)
    | ChangeFolder(identity: string, change: FolderPatch, expected: int)
    | RemoveFolder(identity: string, expected: int)
    | BringBackFolder(identity: string, expected: int)
    | NewDocument(id: nat, document: DocumentInput)
    | ChangeDocument(collection: string, identity: string, edit: DocumentPatch, expected: int)
    | RemoveDocument(collection: string, identity: string, expected: int)
    | BringBackDocument(collection: string, identity: string, expected: int)
    | Move(items: seq<MoveItem>, target: Target)

  /** New rows get unused identifiers. */
  predicate Fresh(st: Store, c: Command) {
    (c.NewFolder? ==> c.id !in st.folders) && (c.NewDocument? ==> c.id !in st.documents)
  }

  ghost function Execute(st: Store, c: Command): Result<Store, Error>
    requires Fresh(st, c)
  {
    match c
    case NewFolder(id, input) => CreateFolder(st, id, input)
    case ChangeFolder(identity, patch, expected) => PatchFolder(st, identity, patch, expected)
    case RemoveFolder(identity, expected) => DeleteFolder(st, identity, expected)
    case BringBackFolder(identity, expected) => RestoreFolder(st, identity, expected)
    case NewDocument(id, input) => CreateDocument(st, id, input)
    case ChangeDocument(collection, identity, patch, expected) =>
        PatchDocument(st, collection, identity, patch, expected)
    case RemoveDocument(collection, identity, expected) => DeleteDocument(st, collection, identity, expected)
    case BringBackDocument(collection, identity, expected) => RestoreDocument(st, collection, identity, expected)
    case Move(items, target) => MoveDocuments(st, items, target)
  }

  /** A refused command is rolled back. */
  ghost function Step(st: Store, c: Command): Store
    requires Fresh(st, c)
  {
    var result := Execute(st, c);
    if result.Success? then result.value else st
  }

  lemma StepKeepsInv(st: Store, c: Command)
    requires Inv(st) && Fresh(st, c)
    ensures Inv(Step(st, c))
  {
    if Execute(st, c).Success? {
      match c
      case NewFolder(id, input) => CreateFolderKeepsInv(st, id, input);
      case ChangeFolder(identity, patch, expected) =>
          PatchRowKeepsInv(st, Row(st.folders, identity).value, patch, expected);
      case RemoveFolder(identity, expected) => DeleteRowKeepsInv(st, Row(st.folders, identity).value, expected);
      case BringBackFolder(identity, expected) => RestoreFolderKeepsInv(st, identity, expected);
      case NewDocument(id, input) => CreateDocumentKeepsInv(st, id, input);
      case ChangeDocument(collection, identity, patch, expected) =>
        PatchDocumentRowKeepsInv(st, DocumentRow(st.documents, collection, identity).value, patch, expected);
      case RemoveDocument(collection, identity, expected) => DeleteDocumentKeepsInv(st, collection, identity, expected);
      case BringBackDocument(collection, identity, expected) =>
          RestoreDocumentKeepsInv(st, collection, identity, expected);
      case Move(items, target) => MovedRowsKeepInv(st, items, target);
    }
  }

  ghost predicate IsRun(states: seq<Store>, commands: seq<Command>) {
    && |states| == |commands| + 1
    && forall k {:trigger Follows(states, commands, k)} :: Follows(states, commands, k)
  }

  ghost predicate Follows(states: seq<Store>, commands: seq<Command>, k: nat)
    requires |states| == |commands| + 1
  {
    k < |commands| ==> Fresh(states[k], commands[k]) && states[k + 1] == Step(states[k], commands[k])
  }

  /** Every run keeps the forest acyclic and every active row below active folders of its section. */
  lemma {:induction false} RunKeepsInv(states: seq<Store>, commands: seq<Command>, k: nat)
    requires IsRun(states, commands) && Inv(states[0]) && k < |states|
    ensures Inv(states[k])
  {
    if k > 0 {
      RunKeepsInv(states, commands, k - 1);
      assert Follows(states, commands, k - 1);
      StepKeepsInv(states[k - 1], commands[k - 1]);
    }
  }

  ghost predicate FolderAdvances(before: Folders, after: Folders, k: nat) {
    k in before ==>
      && k in after
      && (after[k] == before[k] || after[k].revision == before[k].revision + 1)
      && (before[k].root ==> after[k] == before[k])
  }

  ghost predicate DocumentAdvances(before: Documents, after: Documents, k: nat) {
    k in before ==> k in after && (after[k] == before[k] || after[k].revision == before[k].revision + 1)
  }

  /** Row `k` of either table is as it was or one revision further. */
  ghost predicate Advances(before: Store, after: Store, k: nat) {
    FolderAdvances(before.folders, after.folders, k) && DocumentAdvances(before.documents, after.documents, k)
  }

  lemma PatchRowAdvances(st: Store, id: nat, patch: FolderPatch, expected: int, k: nat)
    requires id in st.folders && PatchRow(st, id, patch, expected).Success?
    ensures Advances(st, PatchRow(st, id, patch, expected).value, k)
  {
  }

  lemma DeleteRowAdvances(st: Store, id: nat, expected: int, k: nat)
    requires Inv(st) && id in st.folders && DeleteRow(st, id, expected).Success?
    ensures Advances(st, DeleteRow(st, id, expected).value, k)
  {
    if !st.folders[id].deleted {
      DeleteSucceeds(st, id);
      if k in st.folders { assert FolderOk(st.folders, st.folders[k]); }
    }
  }

  lemma RestoreFolderAdvances(st: Store, identity: string, expected: int, k: nat)
    requires Inv(st) && RestoreFolder(st, identity, expected).Success?
    ensures Advances(st, RestoreFolder(st, identity, expected).value, k)
  {
    if k in st.folders { assert FolderOk(st.folders, st.folders[k]); }
  }

  lemma PatchDocumentAdvances(st: Store, id: nat, patch: DocumentPatch, expected: int, k: nat)
    requires id in st.documents && PatchDocumentRow(st, id, patch, expected).Success?
    ensures Advances(st, PatchDocumentRow(st, id, patch, expected).value, k)
  {
  }

  lemma DeleteDocumentAdvances(st: Store, collection: string, identity: string, expected: int, k: nat)
    requires DeleteDocument(st, collection, identity, expected).Success?
    ensures Advances(st, DeleteDocument(st, collection, identity, expected).value, k)
  {
  }

  lemma RestoreDocumentAdvances(st: Store, collection: string, identity: string, expected: int, k: nat)
    requires RestoreDocument(st, collection, identity, expected).Success?
    ensures Advances(st, RestoreDocument(st, collection, identity, expected).value, k)
  {
  }

  lemma MoveAdvances(st: Store, items: seq<MoveItem>, target: Target, k: nat)
    requires Inv(st) && MoveDocuments(st, items, target).Success?
    ensures Advances(st, MoveDocuments(st, items, target).value, k)
  {
    if k in st.documents { MoveIsExact(st, items, target, k); }
  }

  lemma StepAdvances(st: Store, c: Command, k: nat)
    requires Inv(st) && Fresh(st, c) && Execute(st, c).Success?
    ensures Advances(st, Execute(st, c).value, k)
  {
    match c
    case NewFolder(id, input) =>
    case ChangeFolder(identity, patch, expected) =>
        PatchRowAdvances(st, Row(st.folders, identity).value, patch, expected, k);
    case RemoveFolder(identity, expected) => DeleteRowAdvances(st, Row(st.folders, identity).value, expected, k);
    case BringBackFolder(identity, expected) => RestoreFolderAdvances(st, identity, expected, k);
    case NewDocument(id, input) =>
    case ChangeDocument(collection, identity, patch, expected) =>
      PatchDocumentAdvances(st, DocumentRow(st.documents, collection, identity).value, patch, expected, k);
    case RemoveDocument(collection, identity, expected) =>
        DeleteDocumentAdvances(st, collection, identity, expected, k);
    case BringBackDocument(collection, identity, expected) =>
        RestoreDocumentAdvances(st, collection, identity, expected, k);
    case Move(items, target) => MoveAdvances(st, items, target, k);
  }

  /** No update is lost: over any run a folder whose revision is the one a caller has read is the
      folder the caller has read.  Root folders never change at all. */
  lemma {:induction false} FolderRevisionsTell(states: seq<Store>, commands: seq<Command>, j: nat, n: nat, k: nat)
    requires IsRun(states, commands) && Inv(states[0]) && j <= n < |states| && k in states[j].folders
    ensures k in states[n].folders && states[n].folders[k].revision >= states[j].folders[k].revision
    ensures states[n].folders[k].revision == states[j].folders[k].revision ==>
        states[n].folders[k] == states[j].folders[k]
    ensures states[j].folders[k].root ==> states[n].folders[k] == states[j].folders[k]
  {
    if j < n {
      FolderRevisionsTell(states, commands, j, n - 1, k);
      RunAdvances(states, commands, n, k);
    }
  }

  /** The same for documents. */
  lemma {:induction false} DocumentRevisionsTell(states: seq<Store>, commands: seq<Command>, j: nat, n: nat, k: nat)
    requires IsRun(states, commands) && Inv(states[0]) && j <= n < |states| && k in states[j].documents
    ensures k in states[n].documents && states[n].documents[k].revision >= states[j].documents[k].revision
    ensures states[n].documents[k].revision == states[j].documents[k].revision ==>
        states[n].documents[k] == states[j].documents[k]
  {
    if j < n {
      DocumentRevisionsTell(states, commands, j, n - 1, k);
      RunAdvances(states, commands, n, k);
    }
  }

  lemma RunAdvances(states: seq<Store>, commands: seq<Command>, n: nat, k: nat)
    requires IsRun(states, commands) && Inv(states[0]) && 0 < n < |states|
    ensures Advances(states[n - 1], states[n], k)
  {
    RunKeepsInv(states, commands, n - 1);
    assert Follows(states, commands, n - 1);
    if Execute(states[n - 1], commands[n - 1]).Success? { StepAdvances(states[n - 1], commands[n - 1], k); }
  }

  /** While the roots of its sections exist, and they stay once they do, a deleted document can
      always be restored; placements that are gone fall back to the roots. */
  lemma RestoreSucceeds(st: Store, id: nat)
    requires Inv(st) && id in st.documents && st.documents[id].deleted && st.documents[id].revision > 0
    requires Resolve(st.folders, RootIdentity(Shared), Shared).Some?
    requires Resolve(st.folders, RootIdentity(SectionOf(st.documents[id].collection)),
        SectionOf(st.documents[id].collection)).Some?
    ensures var d := st.documents[id];
      var result := RestoreDocument(st, d.collection, d.identity, d.revision);
      && result.Success? && !result.value.documents[id].deleted
      && (!st.folders[d.shared].deleted ==> result.value.documents[id].shared == d.shared)
      && (d.folder.Some? && !st.folders[d.folder.value].deleted ==> result.value.documents[id].folder == d.folder)
  {
    var d := st.documents[id];
    DocumentRowIs(st.documents, id);
    assert DocumentOk(st.folders, d);
    KeptPlacement(st.folders, d.shared, Shared);
    if d.folder.Some? { KeptPlacement(st.folders, d.folder.value, SectionOf(d.collection)); }
  }

  /** An active placement is kept by a restore. */
  lemma KeptPlacement(folders: Folders, id: nat, section: Section)
    requires FoldersOk(folders) && UniqueFolders(folders) && id in folders && folders[id].section == section
    ensures !folders[id].deleted ==>
      && Kept(folders, IdentityOf(folders, Some(id)), section) == folders[id].identity != ""
      && Resolve(folders, folders[id].identity, section) == Some(id)
  {
    if !folders[id].deleted {
      assert FolderOk(folders, folders[id]);
      ResolveIs(folders, id, section);
    }
  }

  /** The rows of a new workspace: one root for each section. */
  lemma BootstrapInv(folders: Folders)
    requires UniqueFolders(folders)
    requires forall id | id in folders ::
        folders[id].root && folders[id].parent.None? && !folders[id].deleted && folders[id].identity != ""
    ensures Inv(Store(folders, map[]))
  {
    forall id | id in folders ensures Rooted(folders, Some(id)) { assert Ends(folders, Some(id), 1); }
  }
}
