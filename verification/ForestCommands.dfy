/**
 What each command on folders and documents does to the row it names, in terms of the tables
 before it: a command succeeds only on the revision its caller has read.
 */
module ForestCommands {
  import opened Wrappers
  import opened Forest
  import opened ForestSafety

  /** Folder `k` is the active one of that identity in the section. */
  predicate Found(folders: Folders, k: nat, identity: string, section: Section) {
    k in folders && folders[k].identity == identity && folders[k].section == section && !folders[k].deleted
  }

  /** The same, where no identity asks for the root of the section. */
  predicate FoundOrRoot(folders: Folders, k: nat, identity: string, section: Section) {
    if identity != "" then Found(folders, k, identity, section)
    else Found(folders, k, if section.Shared? then "root-workspace-files"
      else "root-" + (if section.entityType == "streams" then "queries" else section.entityType), section)
  }

  /** The section documents of a collection are filed in. */
  function HomeOf(collection: string): Section { For(if collection == "streams" then "queries" else collection) }

  lemma ResolvesTo(folders: Folders, identity: string, section: Section, k: nat)
    requires UniqueFolders(folders)
    ensures FoundOrRoot(folders, k, identity, section)
        <==> Resolve(folders, OrRoot(identity, section), section) == Some(k)
  {
    var wanted := OrRoot(identity, section);
    assert FoundOrRoot(folders, k, identity, section) <==> Found(folders, k, wanted, section);
    if Found(folders, k, wanted, section) { ResolveIs(folders, k, section); }
  }

  /** There is such a folder. */
  ghost predicate Present(folders: Folders, identity: string, section: Section) {
    exists k: nat :: FoundOrRoot(folders, k, identity, section)
  }

  lemma PresentExactly(folders: Folders, identity: string, section: Section)
    requires UniqueFolders(folders)
    ensures Present(folders, identity, section) <==> Resolve(folders, OrRoot(identity, section), section).Some?
  {
    if k: nat :| FoundOrRoot(folders, k, identity, section) { ResolvesTo(folders, identity, section, k); }
    var k := Resolve(folders, OrRoot(identity, section), section);
    if k.Some? { ResolvesTo(folders, identity, section, k.value); }
  }

  // ---------------------------------------------------------------- the revision a caller has read

  /** The command is about document `k`, whose revision its caller read as `expected`. */
  ghost predicate NamesDocument(st: Store, c: Command, k: nat, expected: int) {
    || ((c.ChangeDocument? || c.RemoveDocument? || c.BringBackDocument?)
        && Described(st.documents, k, c.collection, c.identity) && expected == c.expected)
    || (c.Move? && exists i :: Lists(st, c.items, i, k, expected))
  }

  predicate Lists(st: Store, items: seq<MoveItem>, i: int, k: nat, expected: int) {
    && 0 <= i < |items| && expected == items[i].expected
    && Described(st.documents, k, items[i].collection, items[i].identity)
  }

  predicate NamesFolder(st: Store, c: Command, k: nat, expected: int) {
    (c.ChangeFolder? || c.RemoveFolder? || c.BringBackFolder?) && Named(st.folders, k, c.identity) &&
        expected == c.expected
  }

  lemma MoveReads(st: Store, items: seq<MoveItem>, target: Target, i: nat, k: nat)
    requires UniqueDocuments(st.documents) && MoveDocuments(st, items, target).Success? && i < |items|
    requires Described(st.documents, k, items[i].collection, items[i].identity)
    ensures items[i].expected > 0 && st.documents[k].revision == items[i].expected
  {
    DocumentRowIs(st.documents, k);
    MoveFailureNone(st, items, target, i);
  }

  lemma RowReads(st: Store, c: Command, k: nat)
    requires (c.ChangeDocument? || c.RemoveDocument? || c.BringBackDocument?) && Execute(st, c).Success?
    requires k in st.documents && DocumentRow(st.documents, c.collection, c.identity) == Some(k)
    ensures c.expected > 0 && st.documents[k].revision == c.expected
  {
    match c
    case ChangeDocument(collection, identity, patch, expected) =>
      assert PatchDocumentRow(st, k, patch, expected).Success?;
    case RemoveDocument(collection, identity, expected) => assert DeleteDocumentRow(st, k, expected).Success?;
    case BringBackDocument(collection, identity, expected) => assert RestoreDocumentRow(st, k, expected).Success?;
  }

  lemma ReadsDocument(st: Store, c: Command, k: nat, expected: int)
    requires UniqueDocuments(st.documents) && Fresh(st, c) && NamesDocument(st, c, k, expected) &&
        Execute(st, c).Success?
    ensures expected > 0 && st.documents[k].revision == expected
  {
    if c.Move? {
      var i: nat :| Lists(st, c.items, i, k, expected);
      MoveReads(st, c.items, c.target, i, k);
    } else {
      DocumentRowIs(st.documents, k);
      RowReads(st, c, k);
    }
  }

  lemma ReadsFolder(st: Store, c: Command, k: nat, expected: int)
    requires UniqueFolders(st.folders) && Fresh(st, c) && NamesFolder(st, c, k, expected) && Execute(st, c).Success?
    ensures expected > 0 && st.folders[k].revision == expected
  {
    RowIs(st.folders, k);
  }

  /** No update is lost: a command that succeeds with the revision its caller has read finds the
      document its caller has read, whatever was done in between. */
  lemma NoDocumentUpdateIsLost(states: seq<Store>, commands: seq<Command>, j: nat, n: nat, k: nat, c: Command)
    requires IsRun(states, commands) && Inv(states[0]) && j <= n < |states| && k in states[j].documents
    requires Fresh(states[n], c) && Execute(states[n], c).Success?
    requires NamesDocument(states[n], c, k, states[j].documents[k].revision)
    ensures states[n].documents[k] == states[j].documents[k]
  {
    RunKeepsInv(states, commands, n);
    ReadsDocument(states[n], c, k, states[j].documents[k].revision);
    DocumentRevisionsTell(states, commands, j, n, k);
  }

  /** The same for folders. */
  lemma NoFolderUpdateIsLost(states: seq<Store>, commands: seq<Command>, j: nat, n: nat, k: nat, c: Command)
    requires IsRun(states, commands) && Inv(states[0]) && j <= n < |states| && k in states[j].folders
    requires Fresh(states[n], c) && Execute(states[n], c).Success?
    requires NamesFolder(states[n], c, k, states[j].folders[k].revision)
    ensures states[n].folders[k] == states[j].folders[k]
  {
    RunKeepsInv(states, commands, n);
    ReadsFolder(states[n], c, k, states[j].folders[k].revision);
    FolderRevisionsTell(states, commands, j, n, k);
  }

  // ---------------------------------------------------------------- patching a document

  /** A given field is as given, an absent one as it was. */
  predicate Taken<T(==)>(given: Option<T>, before: T, after: T) {
    match given
    case Some(value) => after == value
    case None => after == before
  }

  /** The name of the folder a document is filed in. */
  function NameOf(folders: Folders, k: Option<nat>): string {
    if k.Some? && k.value in folders then folders[k.value].identity else ""
  }

  /** The patch asks for what the document already is. */
  predicate AsksNothing(folders: Folders, d: Document, patch: DocumentPatch) {
    && (patch.identity.Some? ==> patch.identity.value == d.identity)
    && (patch.content.Some? ==> patch.content.value == d.content)
    && (patch.folder.Some? ==> patch.folder.value == NameOf(folders, d.folder))
    && (patch.shared.Some? ==> patch.shared.value == NameOf(folders, Some(d.shared)))
  }

  /** Where a document is filed in the typed and in the shared projection. */
  ghost predicate Filed(folders: Folders, collection: string, folder: string, common: string, after: Document) {
    && FoundOrRoot(folders, after.shared, common, Shared)
    && (collection == "configurations" ==> after.folder == None)
    && (collection != "configurations" ==>
          after.folder.Some? && FoundOrRoot(folders, after.folder.value, folder, HomeOf(collection)))
  }

  ghost predicate CanFile(folders: Folders, collection: string, folder: string, common: string) {
    Present(folders, common, Shared) && (collection == "configurations" || Present(folders, folder, HomeOf(collection)))
  }

  /** No other document of the collection has the identity. */
  ghost predicate IsFree(documents: Documents, k: nat, collection: string, identity: string) {
    forall other | other in documents && other != k ::
      documents[other].collection != collection || documents[other].identity != identity
  }

  lemma FreeExactly(documents: Documents, k: nat, collection: string, identity: string)
    ensures FreeDocument(documents, k, collection, identity) <==> IsFree(documents, k, collection, identity)
  {
    if FreeDocument(documents, k, collection, identity) {
      forall other | other in documents && other != k
        ensures documents[other].collection != collection || documents[other].identity != identity
      {
        assert Described(documents, other, documents[other].collection, documents[other].identity);
      }
    }
  }

  lemma PlacesExactly(folders: Folders, collection: string, folder: string, common: string)
    requires UniqueFolders(folders)
    ensures Place(folders, collection, folder, common).Some? <==> CanFile(folders, collection, folder, common)
  {
    PresentExactly(folders, common, Shared);
    PresentExactly(folders, folder, HomeOf(collection));
  }

  lemma PlacedIsFiled(folders: Folders, collection: string, folder: string, common: string, d: Document)
    requires UniqueFolders(folders) && Place(folders, collection, folder, common) == Some((d.folder, d.shared))
    ensures Filed(folders, collection, folder, common, d)
  {
    ResolvesTo(folders, common, Shared, d.shared);
    if d.folder.Some? { ResolvesTo(folders, folder, HomeOf(collection), d.folder.value); }
  }

  lemma PatchIsRow(st: Store, k: nat, patch: DocumentPatch, expected: int)
    requires UniqueDocuments(st.documents) && k in st.documents
    ensures var d := st.documents[k];
      PatchDocument(st, d.collection, d.identity, patch, expected)
        == if expected <= 0 then Failure(PreconditionRequired) else PatchDocumentRow(st, k, patch, expected)
  {
    DocumentRowIs(st.documents, k);
  }

  lemma RowPatchSucceeds(st: Store, k: nat, patch: DocumentPatch, expected: int)
    requires UniqueFolders(st.folders) && k in st.documents
    ensures var d := st.documents[k];
      var folder, common := Or(patch.folder, NameOf(st.folders, d.folder)),
          Or(patch.shared, NameOf(st.folders, Some(d.shared)));
      PatchDocumentRow(st, k, patch, expected).Success? <==>
        && d.revision == expected && patch.valid
        && (AsksNothing(st.folders, d, patch)
            || (CanFile(st.folders, d.collection, folder, common)
                && IsFree(st.documents, k, d.collection, Or(patch.identity, d.identity))))
  {
    var d := st.documents[k];
    PlacesExactly(st.folders, d.collection, Or(patch.folder, NameOf(st.folders, d.folder)),
        Or(patch.shared, NameOf(st.folders, Some(d.shared))));
    FreeExactly(st.documents, k, d.collection, Or(patch.identity, d.identity));
    assert AsksNothing(st.folders, d, patch) <==> UnchangedDocument(st.folders, d, patch);
  }

  /** A patch succeeds exactly on the revision read, when it is valid and either asks for nothing or
      finds the folders it names active and its identity free. */
  lemma PatchSucceeds(st: Store, k: nat, patch: DocumentPatch, expected: int)
    requires UniqueFolders(st.folders) && UniqueDocuments(st.documents) && k in st.documents
    ensures var d := st.documents[k];
      var folder, common := Or(patch.folder, NameOf(st.folders, d.folder)),
          Or(patch.shared, NameOf(st.folders, Some(d.shared)));
      Execute(st, ChangeDocument(d.collection, d.identity, patch, expected)).Success? <==>
        && expected > 0 && d.revision == expected && patch.valid
        && (AsksNothing(st.folders, d, patch)
            || (CanFile(st.folders, d.collection, folder, common)
                && IsFree(st.documents, k, d.collection, Or(patch.identity, d.identity))))
  {
    PatchIsRow(st, k, patch, expected);
    RowPatchSucceeds(st, k, patch, expected);
  }

  /** Only row `k` of the documents changed. */
  predicate OnlyDocument(st: Store, next: Store, k: nat) {
    && next.folders == st.folders && next.documents.Keys == st.documents.Keys + {k}
    && forall other | other in st.documents && other != k ::
        other in next.documents && next.documents[other] == st.documents[other]
  }

  /** Given fields are as given, absent ones as they were; the revision counts one further unless
      nothing changes.  Nothing else is touched. */
  lemma PatchedIs(st: Store, k: nat, patch: DocumentPatch, expected: int)
    requires UniqueFolders(st.folders) && UniqueDocuments(st.documents) && k in st.documents
    requires Execute(st, ChangeDocument(st.documents[k].collection, st.documents[k].identity, patch, expected)).Success?
    ensures var d := st.documents[k];
      IsPatched(st, k, patch, Execute(st, ChangeDocument(d.collection, d.identity, patch, expected)).value)
  {
    PatchIsRow(st, k, patch, expected);
    RowPatchedIs(st, k, patch, expected);
  }

  ghost predicate IsPatched(st: Store, k: nat, patch: DocumentPatch, next: Store)
    requires k in st.documents
  {
    var d := st.documents[k];
    && OnlyDocument(st, next, k)
    && if AsksNothing(st.folders, d, patch) then next == st
       else
         && next.documents[k].revision == d.revision + 1 && next.documents[k].collection == d.collection
         && next.documents[k].deleted == d.deleted
         && Taken(patch.identity, d.identity, next.documents[k].identity)
         && Taken(patch.content, d.content, next.documents[k].content)
         && Filed(st.folders, d.collection, Or(patch.folder, NameOf(st.folders, d.folder)),
                  Or(patch.shared, NameOf(st.folders, Some(d.shared))), next.documents[k])
  }

  lemma RowPatchedIs(st: Store, k: nat, patch: DocumentPatch, expected: int)
    requires UniqueFolders(st.folders) && k in st.documents && PatchDocumentRow(st, k, patch, expected).Success?
    ensures IsPatched(st, k, patch, PatchDocumentRow(st, k, patch, expected).value)
  {
    var d := st.documents[k];
    assert AsksNothing(st.folders, d, patch) <==> UnchangedDocument(st.folders, d, patch);
    if !AsksNothing(st.folders, d, patch) {
      PlacedIsFiled(st.folders, d.collection, Or(patch.folder, NameOf(st.folders, d.folder)),
                    Or(patch.shared, NameOf(st.folders, Some(d.shared))),
                    PatchDocumentRow(st, k, patch, expected).value.documents[k]);
    }
  }

  // ---------------------------------------------------------------- the other document commands

  /** A new document is created exactly when it is valid, its folders are active and its identity
      is free, and is what was asked for. */
  lemma CreatedIs(st: Store, id: nat, input: DocumentInput)
    requires Inv(st) && id !in st.documents
    ensures var result := Execute(st, NewDocument(id, input));
      && (result.Success? <==>
            && input.valid && CanFile(st.folders, input.collection, input.folder, input.shared)
            && IsFree(st.documents, id, input.collection, input.identity))
      && (result.Success? ==>
            && OnlyDocument(st, result.value, id)
            && var d := result.value.documents[id];
            && d.collection == input.collection && d.identity == input.identity && d.content == input.content
            && !d.deleted && d.revision == 1 && Filed(st.folders, input.collection, input.folder, input.shared, d))
  {
    PlacesExactly(st.folders, input.collection, input.folder, input.shared);
    FreeExactly(st.documents, id, input.collection, input.identity);
    NoRowIsFree(st.documents, id, input.collection, input.identity);
    var result := Execute(st, NewDocument(id, input));
    if result.Success? {
      PlacedIsFiled(st.folders, input.collection, input.folder, input.shared, result.value.documents[id]);
    }
  }

  lemma NoRowIsFree(documents: Documents, id: nat, collection: string, identity: string)
    requires id !in documents
    ensures DocumentRow(documents, collection, identity).None? <==> FreeDocument(documents, id, collection, identity)
  {
  }

  /** A delete succeeds exactly on the revision read.  It marks the document and leaves where it was
      filed; a deleted one stays as it is. */
  lemma DeletedIs(st: Store, k: nat, expected: int)
    requires Inv(st) && k in st.documents
    ensures var d := st.documents[k];
      var result := Execute(st, RemoveDocument(d.collection, d.identity, expected));
      && (result.Success? <==> expected > 0 && d.revision == expected)
      && (result.Success? ==>
            result.value == if d.deleted then st
              else Store(st.folders, st.documents[k := d.(deleted := true, revision := d.revision + 1)]))
  {
    if st.documents[k].deleted {
      DeleteIsRow(st, k, expected);
    } else {
      OwnPlace(st, k);
      ActiveDeletes(st, k, expected);
    }
  }

  lemma ActiveDeletes(st: Store, k: nat, expected: int)
    requires UniqueDocuments(st.documents) && k in st.documents && !st.documents[k].deleted
    requires var d := st.documents[k];
      Place(st.folders, d.collection, IdentityOf(st.folders, d.folder), IdentityOf(st.folders, Some(d.shared)))
        == Some((d.folder, d.shared))
    ensures var d := st.documents[k];
      var result := DeleteDocument(st, d.collection, d.identity, expected);
      && (result.Success? <==> expected > 0 && d.revision == expected)
      && (result.Success? ==>
            result.value == Store(st.folders, st.documents[k := d.(deleted := true, revision := d.revision + 1)]))
  {
    DeleteIsRow(st, k, expected);
    DeleteRowOutcome(st, k, expected, Some((st.documents[k].folder, st.documents[k].shared)));
  }

  /** What a delete does with the place it finds. */
  lemma DeleteRowOutcome(st: Store, k: nat, expected: int, place: Option<(Option<nat>, nat)>)
    requires k in st.documents
    requires var d := st.documents[k];
      place == Place(st.folders, d.collection, IdentityOf(st.folders, d.folder), IdentityOf(st.folders, Some(d.shared)))
    ensures var d, result := st.documents[k], DeleteDocumentRow(st, k, expected);
      && (result.Success? <==> d.revision == expected && (d.deleted || place.Some?))
      && (result.Success? ==>
            result.value == if d.deleted then st
              else st.(documents := st.documents[k := d.(folder := place.value.0, shared := place.value.1,
                deleted := true, revision := d.revision + 1)]))
  {
  }

  lemma DeleteIsRow(st: Store, k: nat, expected: int)
    requires UniqueDocuments(st.documents) && k in st.documents
    ensures var d := st.documents[k];
      DeleteDocument(st, d.collection, d.identity, expected)
        == if expected <= 0 then Failure(PreconditionRequired) else DeleteDocumentRow(st, k, expected)
  {
    DocumentRowIs(st.documents, k);
  }

  /** The placement is kept when its folder is active and falls back to the root otherwise. */
  ghost function Fallback(folders: Folders, k: Option<nat>): string {
    if k.Some? && k.value in folders && !folders[k.value].deleted then folders[k.value].identity else ""
  }

  lemma FallsBack(folders: Folders, k: Option<nat>, section: Section)
    requires FoldersOk(folders) && UniqueFolders(folders)
    requires k.Some? ==> k.value in folders && folders[k.value].section == section
    ensures k.Some? ==> Forest.Kept(folders, IdentityOf(folders, k), section) == Fallback(folders, k)
  {
    if k.Some? {
      assert FolderOk(folders, folders[k.value]);
      var identity := folders[k.value].identity;
      if !folders[k.value].deleted {
        ResolveIs(folders, k.value, section);
      }
    }
  }

  /** The part of the invariant a restore relies on. */
  ghost predicate Filing(st: Store) {
    && FoldersOk(st.folders) && DocumentsOk(st.folders, st.documents)
    && UniqueFolders(st.folders) && UniqueDocuments(st.documents)
  }

  /** Where a restored document is filed: its own placements, as far as they are still active. */
  lemma RestorePlace(st: Store, k: nat)
    requires Filing(st) && k in st.documents
    ensures var d := st.documents[k];
      Place(st.folders, d.collection, Forest.Kept(st.folders, IdentityOf(st.folders, d.folder),
          SectionOf(d.collection)),
            Forest.Kept(st.folders, IdentityOf(st.folders, Some(d.shared)), Shared))
      == Place(st.folders, d.collection, Fallback(st.folders, d.folder), Fallback(st.folders, Some(d.shared)))
  {
    var d := st.documents[k];
    assert DocumentOk(st.folders, d);
    FallsBack(st.folders, d.folder, SectionOf(d.collection));
    FallsBack(st.folders, Some(d.shared), Shared);
    if Folderless(d.collection) {
      AnyFolder(st.folders, d.collection,
          Forest.Kept(st.folders, IdentityOf(st.folders, d.folder), SectionOf(d.collection)),
                Fallback(st.folders, d.folder), Fallback(st.folders, Some(d.shared)));
    }
  }

  lemma RestoreIsRow(st: Store, k: nat, expected: int)
    requires UniqueDocuments(st.documents) && k in st.documents
    ensures var d := st.documents[k];
      RestoreDocument(st, d.collection, d.identity, expected)
        == if expected <= 0 then Failure(PreconditionRequired) else RestoreDocumentRow(st, k, expected)
  {
    DocumentRowIs(st.documents, k);
  }

  /** What a restore does with the place it finds. */
  lemma RestoreRowIs(st: Store, k: nat, expected: int, place: Option<(Option<nat>, nat)>)
    requires k in st.documents
    requires var d := st.documents[k];
      place == Place(st.folders, d.collection,
        Forest.Kept(st.folders, IdentityOf(st.folders, d.folder), SectionOf(d.collection)),
        Forest.Kept(st.folders, IdentityOf(st.folders, Some(d.shared)), Shared))
    ensures var d, result := st.documents[k], RestoreDocumentRow(st, k, expected);
      && (result.Success? <==> d.revision == expected && (!d.deleted || place.Some?))
      && (result.Success? ==>
            result.value == if !d.deleted then st
              else st.(documents := st.documents[k := d.(folder := place.value.0, shared := place.value.1,
                deleted := false, revision := d.revision + 1)]))
  {
  }

  /** A restore succeeds exactly on the revision read, when the roots it may need are there. */
  lemma RestoreSucceedsExactly(st: Store, k: nat, expected: int)
    requires Filing(st) && k in st.documents
    ensures var d := st.documents[k];
      Execute(st, BringBackDocument(d.collection, d.identity, expected)).Success? <==>
        && expected > 0 && d.revision == expected
        && (!d.deleted || CanFile(st.folders, d.collection, Fallback(st.folders, d.folder),
            Fallback(st.folders, Some(d.shared))))
  {
    RestorePlace(st, k);
    RestoreFrom(st, k, expected, Fallback(st.folders, st.documents[k].folder),
                Fallback(st.folders, Some(st.documents[k].shared)));
  }

  lemma RestoreFrom(st: Store, k: nat, expected: int, folder: string, common: string)
    requires UniqueFolders(st.folders) && UniqueDocuments(st.documents) && k in st.documents
    requires var d := st.documents[k];
      Place(st.folders, d.collection, folder, common) == Place(st.folders, d.collection,
        Forest.Kept(st.folders, IdentityOf(st.folders, d.folder), SectionOf(d.collection)),
        Forest.Kept(st.folders, IdentityOf(st.folders, Some(d.shared)), Shared))
    ensures var d := st.documents[k];
      RestoreDocument(st, d.collection, d.identity, expected).Success? <==>
        expected > 0 && d.revision == expected && (!d.deleted || CanFile(st.folders, d.collection, folder, common))
  {
    RestoreIsRow(st, k, expected);
    RestoreRowIs(st, k, expected, Place(st.folders, st.documents[k].collection, folder, common));
    PlacesExactly(st.folders, st.documents[k].collection, folder, common);
  }

  /** Every placement that is still active is kept. */
  lemma RestoredIs(st: Store, k: nat, expected: int)
    requires Filing(st) && k in st.documents
    requires Execute(st, BringBackDocument(st.documents[k].collection, st.documents[k].identity, expected)).Success?
    ensures var d := st.documents[k];
      IsRestored(st, k, Execute(st, BringBackDocument(d.collection, d.identity, expected)).value)
  {
    var d := st.documents[k];
    var folder, common := Fallback(st.folders, d.folder), Fallback(st.folders, Some(d.shared));
    RestoreIsRow(st, k, expected);
    RestorePlace(st, k);
    RestoreRowIs(st, k, expected, Place(st.folders, d.collection, folder, common));
    if d.deleted {
      var after := RestoreDocumentRow(st, k, expected).value.documents[k];
      PlacedIsFiled(st.folders, d.collection, folder, common, after);
      FiledIsRestored(st, k, after);
    }
  }

  lemma FiledIsRestored(st: Store, k: nat, after: Document)
    requires k in st.documents && st.documents[k].deleted
    requires var d := st.documents[k];
      && after == d.(deleted := false, revision := d.revision + 1, folder := after.folder, shared := after.shared)
      && Filed(st.folders, d.collection, Fallback(st.folders, d.folder), Fallback(st.folders, Some(d.shared)), after)
    ensures IsRestored(st, k, st.(documents := st.documents[k := after]))
  {
  }

  ghost predicate IsRestored(st: Store, k: nat, next: Store)
    requires k in st.documents
  {
    var d := st.documents[k];
    && OnlyDocument(st, next, k)
    && if !d.deleted then next == st
       else
         && next.documents[k] == d.(deleted := false, revision := d.revision + 1,
              folder := next.documents[k].folder, shared := next.documents[k].shared)
         && Filed(st.folders, d.collection, Fallback(st.folders, d.folder), Fallback(st.folders, Some(d.shared)),
                  next.documents[k])
  }

  /** Configurations are filed without a typed folder. */
  lemma AnyFolder(folders: Folders, collection: string, a: string, b: string, common: string)
    requires Folderless(collection)
    ensures Place(folders, collection, a, common) == Place(folders, collection, b, common)
  {
  }

  // ---------------------------------------------------------------- folder commands

  /** Only row `k` of the folders changed. */
  predicate OnlyFolder(st: Store, next: Store, k: nat) {
    && next.documents == st.documents && next.folders.Keys == st.folders.Keys + {k}
    && forall other | other in st.folders && other != k ::
        other in next.folders && next.folders[other] == st.folders[other]
  }

  /** No other folder, deleted ones included, has the identity. */
  predicate IsFreeName(folders: Folders, k: nat, identity: string) {
    forall other | other in folders && other != k :: folders[other].identity != identity
  }

  lemma FreeNameExactly(folders: Folders, k: nat, identity: string)
    ensures Free(folders, k, identity) <==> IsFreeName(folders, k, identity)
  {
    if Free(folders, k, identity) {
      forall other | other in folders && other != k ensures folders[other].identity != identity {
        assert Named(folders, other, folders[other].identity);
      }
    }
  }

  lemma ResolvesExactly(folders: Folders, identity: string, section: Section)
    requires UniqueFolders(folders)
    ensures forall m: nat :: FoundOrRoot(folders, m, identity, section) <==>
      Resolve(folders, OrRoot(identity, section), section) == Some(m)
  {
    forall m: nat ensures FoundOrRoot(folders, m, identity, section) <==>
      Resolve(folders, OrRoot(identity, section), section) == Some(m)
    {
      ResolvesTo(folders, identity, section, m);
    }
  }

  /** A new folder is created exactly when it is valid, no root, its parent active and its identity
      free, and is what was asked for. */
  lemma FolderCreatedIs(st: Store, id: nat, input: FolderInput)
    requires Inv(st) && id !in st.folders
    ensures var result := Execute(st, NewFolder(id, input));
      && (result.Success? <==>
            && input.valid && input.identity != "" && !input.root
            && Present(st.folders, input.parent, input.section) && IsFreeName(st.folders, id, input.identity))
      && (result.Success? ==>
            && OnlyFolder(st, result.value, id)
            && var f := result.value.folders[id];
            && f.identity == input.identity && f.section == input.section && f.content == input.content
            && f.system == input.system && !f.root && !f.deleted && f.revision == 1
            && f.parent.Some? && FoundOrRoot(st.folders, f.parent.value, input.parent, input.section))
  {
    ResolvesExactly(st.folders, input.parent, input.section);
    PresentExactly(st.folders, input.parent, input.section);
    if Row(st.folders, input.identity).Some? {
      assert exists other :: Named(st.folders, other, input.identity);
    } else {
      assert forall other :: !Named(st.folders, other, input.identity);
      forall other | other in st.folders ensures st.folders[other].identity != input.identity {
        assert !Named(st.folders, other, input.identity);
      }
    }
  }

  predicate AsksNothingOfFolder(folders: Folders, f: Folder, patch: FolderPatch) {
    && (patch.identity.Some? ==> patch.identity.value == f.identity)
    && (patch.system.Some? ==> patch.system.value == f.system)
    && (patch.content.Some? ==> patch.content.value == f.content)
    && (patch.parent.Some? ==> patch.parent.value == NameOf(folders, f.parent))
  }

  /** The folder may hang below `m`: that is the parent asked for, and not the folder itself or one
      below it. */
  ghost predicate MayHang(folders: Folders, k: nat, m: nat, parent: string, section: Section) {
    FoundOrRoot(folders, m, parent, section) && m != k && forall n: nat :: !Above(folders, k, Some(m), n)
  }

  /** A patch succeeds exactly on the revision read, for a folder that is neither a root nor system
      managed and stays in its section, when it asks for nothing or for a free identity and a place
      that makes no circle. */
  lemma FolderPatchSucceeds(st: Store, k: nat, patch: FolderPatch, expected: int)
    requires Inv(st) && k in st.folders
    ensures var f := st.folders[k];
      Execute(st, ChangeFolder(f.identity, patch, expected)).Success? <==>
        && expected > 0 && f.revision == expected && !f.root && !f.system
        && (patch.section.Some? ==> patch.section.value == f.section)
        && patch.valid && patch.identity != Some("") && !patch.root
        && (AsksNothingOfFolder(st.folders, f, patch)
            || ((exists m: nat :: MayHang(st.folders, k, m, Or(patch.parent, NameOf(st.folders, f.parent)), f.section))
                && IsFreeName(st.folders, k, Or(patch.identity, f.identity))))
  {
    var f := st.folders[k];
    var parent := Or(patch.parent, NameOf(st.folders, f.parent));
    RowIs(st.folders, k);
    ResolvesExactly(st.folders, parent, f.section);
    FreeNameExactly(st.folders, k, Or(patch.identity, f.identity));
    assert AsksNothingOfFolder(st.folders, f, patch) <==> Unchanged(st.folders, f, patch);
    PlaceExactly(st.folders, k, parent, f.section);
  }

  lemma PlaceExactly(folders: Folders, k: nat, parent: string, section: Section)
    requires UniqueFolders(folders)
    ensures var m := Resolve(folders, OrRoot(parent, section), section);
      (exists n: nat :: MayHang(folders, k, n, parent, section))
          <==> m.Some? && m.value != k && !WouldCycle(folders, k, m.value)
  {
    ResolvesExactly(folders, parent, section);
    var m := Resolve(folders, OrRoot(parent, section), section);
    if m.Some? && m.value != k && !WouldCycle(folders, k, m.value) {
      assert MayHang(folders, k, m.value, parent, section);
    }
    if n: nat :| MayHang(folders, k, n, parent, section) { assert m == Some(n); }
  }

  /** Given fields are as given, absent ones as they were. */
  lemma FolderPatchedIs(st: Store, k: nat, patch: FolderPatch, expected: int)
    requires Inv(st) && k in st.folders && Execute(st, ChangeFolder(st.folders[k].identity, patch, expected)).Success?
    ensures var f := st.folders[k];
      var next := Execute(st, ChangeFolder(f.identity, patch, expected)).value;
      && OnlyFolder(st, next, k)
      && (if AsksNothingOfFolder(st.folders, f, patch) then next == st
          else
            && next.folders[k].revision == f.revision + 1 && next.folders[k].section == f.section
            && next.folders[k].root == f.root && next.folders[k].deleted == f.deleted
            && Taken(patch.identity, f.identity, next.folders[k].identity)
            && Taken(patch.system, f.system, next.folders[k].system)
            && Taken(patch.content, f.content, next.folders[k].content)
            && next.folders[k].parent.Some?
            && MayHang(st.folders, k, next.folders[k].parent.value, Or(patch.parent, NameOf(st.folders, f.parent)),
                f.section))
  {
    var f := st.folders[k];
    RowIs(st.folders, k);
    ResolvesExactly(st.folders, Or(patch.parent, NameOf(st.folders, f.parent)), f.section);
    assert AsksNothingOfFolder(st.folders, f, patch) <==> Unchanged(st.folders, f, patch);
  }

  /** A delete succeeds exactly on the revision read, for a folder that is deleted already or is
      neither a root nor system managed. */
  lemma FolderDeleteSucceeds(st: Store, k: nat, expected: int)
    requires Inv(st) && k in st.folders
    ensures var f := st.folders[k];
      Execute(st, RemoveFolder(f.identity, expected)).Success? <==>
        expected > 0 && f.revision == expected && (f.deleted || (!f.root && !f.system))
  {
    RowIs(st.folders, k);
    var f := st.folders[k];
    if !f.deleted && !f.root && !f.system && f.revision == expected { DeleteSucceeds(st, k); }
  }

  /** Active folders and documents in the deleted folder go to its parent; nothing else moves. */
  lemma FolderDeletedIs(st: Store, k: nat, expected: int)
    requires Inv(st) && k in st.folders && !st.folders[k].deleted
    requires Execute(st, RemoveFolder(st.folders[k].identity, expected)).Success?
    ensures var f, next := st.folders[k], Execute(st, RemoveFolder(st.folders[k].identity, expected)).value;
      && next.folders.Keys == st.folders.Keys && next.documents.Keys == st.documents.Keys && f.parent.Some?
      && next.folders[k] == f.(deleted := true, revision := f.revision + 1)
      && (forall g | g in st.folders && g != k ::
           next.folders[g] == if st.folders[g].parent == Some(k) && !st.folders[g].deleted
             then st.folders[g].(parent := f.parent, revision := st.folders[g].revision + 1) else st.folders[g])
      && (forall d | d in st.documents ::
           next.documents[d] ==
             if st.documents[d].deleted then st.documents[d]
             else if f.section.Shared? && st.documents[d].shared == k
             then st.documents[d].(shared := f.parent.value, revision := st.documents[d].revision + 1)
             else if !f.section.Shared? && st.documents[d].folder == Some(k)
             then st.documents[d].(folder := f.parent, revision := st.documents[d].revision + 1)
             else st.documents[d])
  {
    RowIs(st.folders, k);
    FolderDeleteSucceeds(st, k, expected);
    DeleteSucceeds(st, k);
  }

  /** A restore succeeds exactly on the revision read when the root of the section is there, and
      hangs the folder below it. */
  lemma FolderRestoredIs(st: Store, k: nat, expected: int)
    requires Inv(st) && k in st.folders
    ensures var f := st.folders[k];
      var result := Execute(st, BringBackFolder(f.identity, expected));
      && (result.Success? <==>
            expected > 0 && f.revision == expected && (!f.deleted || Present(st.folders, "", f.section)))
      && (result.Success? ==>
            && OnlyFolder(st, result.value, k)
            && if !f.deleted then result.value == st
               else
                 && result.value.folders[k] == f.(parent := result.value.folders[k].parent, deleted := false,
                     revision := f.revision + 1)
                 && result.value.folders[k].parent.Some?
                 && FoundOrRoot(st.folders, result.value.folders[k].parent.value, "", f.section))
  {
    RowIs(st.folders, k);
    ResolvesExactly(st.folders, "", st.folders[k].section);
    PresentExactly(st.folders, "", st.folders[k].section);
  }

  // ---------------------------------------------------------------- moving documents

  /** The document of the item is there at the revision read, active, and may lie in the target. */
  ghost predicate Movable(st: Store, item: MoveItem, target: Target) {
    Ready(st, item) && Reachable(st.folders, item.collection, target)
  }

  ghost predicate Ready(st: Store, item: MoveItem) {
    exists k: nat :: IsReady(st, item, k)
  }

  predicate IsReady(st: Store, item: MoveItem, k: nat) {
    && Described(st.documents, k, item.collection, item.identity)
    && st.documents[k].revision == item.expected && !st.documents[k].deleted
  }

  ghost predicate Reachable(folders: Folders, collection: string, target: Target) {
    if target.common then Present(folders, target.folder, Shared)
    else collection == "configurations" || Present(folders, target.folder, HomeOf(collection))
  }

  lemma ReadyExactly(st: Store, item: MoveItem)
    requires UniqueDocuments(st.documents)
    ensures var row := DocumentRow(st.documents, item.collection, item.identity);
      Ready(st, item) <==> row.Some? && IsReady(st, item, row.value)
  {
    if k: nat :| IsReady(st, item, k) { DocumentRowIs(st.documents, k); }
  }

  lemma ItemMoves(st: Store, item: MoveItem, target: Target)
    requires Inv(st) && target.folder != ""
    ensures Moved(st, item, target).Success? <==> Movable(st, item, target)
  {
    var row := DocumentRow(st.documents, item.collection, item.identity);
    ReadyExactly(st, item);
    if row.Some? && IsReady(st, item, row.value) {
      var d := st.documents[row.value];
      OwnPlace(st, row.value);
      PresentExactly(st.folders, target.folder, Shared);
      PresentExactly(st.folders, target.folder, HomeOf(item.collection));
    }
  }

  lemma {:induction false} NoneFails(st: Store, items: seq<MoveItem>, target: Target)
    requires forall i | 0 <= i < |items| :: Moved(st, items[i], target).Success?
    ensures MoveFailure(st, items, target).None?
  {
    if items != [] { NoneFails(st, items[..|items| - 1], target); }
  }

  lemma AllMove(st: Store, items: seq<MoveItem>, target: Target)
    requires Inv(st) && target.folder != ""
    ensures MoveFailure(st, items, target).None? <==> forall i | 0 <= i < |items| :: Movable(st, items[i], target)
  {
    forall i | 0 <= i < |items| ensures Moved(st, items[i], target).Success? <==> Movable(st, items[i], target) {
      ItemMoves(st, items[i], target);
    }
    if MoveFailure(st, items, target).None? {
      forall i | 0 <= i < |items| ensures Moved(st, items[i], target).Success? {
        MoveFailureNone(st, items, target, i);
      }
    } else if forall i | 0 <= i < |items| :: Movable(st, items[i], target) {
      NoneFails(st, items, target);
    }
  }

  /** Up to 500 different documents move together exactly when every one of them can. */
  lemma MoveSucceeds(st: Store, items: seq<MoveItem>, target: Target)
    requires Inv(st)
    ensures Execute(st, Move(items, target)).Success? <==>
      && target.folder != "" && 1 <= |items| <= 500
      && (forall i | 0 <= i < |items| :: items[i].expected > 0 && Movable(st, items[i], target))
      && (forall i, j | 0 <= i < j < |items| ::
           items[i].collection != items[j].collection || items[i].identity != items[j].identity)
  {
    if target.folder != "" { AllMove(st, items, target); }
  }
}
