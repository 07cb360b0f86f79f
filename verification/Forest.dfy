/**
 Folders and documents of one workspace and their lifecycle, after
 internal/usecase/documents and internal/repo/postgres/documents_repository.go.  Deleted rows
 stay in the tables.  Each command is one transaction; strings arrive trimmed.
 */
module Forest {
  import opened Wrappers
  import opened FolderNames

  /** A folder belongs to the projection shared by the workspace or to one entity type. */
  datatype Section = Shared | For(entityType: string)

  /** `system` stands for managedBy; `content` for the fields no rule below depends on. */
  datatype Folder = Folder(
    identity: string, section: Section, parent: Option<nat>, root: bool, system: bool, content: string,
    deleted: bool, revision: nat)

  /** `folder` is the typed placement, `shared` the one in the workspace projection. */
  datatype Document = Document(
    collection: string, identity: string, folder: Option<nat>, shared: nat, content: string, deleted: bool,
        revision: nat)

  type Folders = map<nat, Folder>
  type Documents = map<nat, Document>

  datatype Store = Store(folders: Folders, documents: Documents)

  datatype Error =
    | PreconditionRequired | NotFound | RevisionConflict | Invalid | SystemFolderImmutable | SectionImmutable
    | SelfParent | Cycle | IdentityTaken | MoveDeleted

  function SectionOf(collection: string): Section { For(FolderEntityType(collection)) }

  /** Configurations have no typed placement. */
  predicate Folderless(collection: string) { collection == "configurations" }

  function RootIdentity(section: Section): string {
    match section
    case Shared => WORKSPACE_ROOT
    case For(entityType) => RootFolderIdentity(entityType)
  }

  // ---------------------------------------------------------------- lookups

  predicate Named(folders: Folders, id: nat, identity: string) { id in folders && folders[id].identity == identity }

  predicate Active(folders: Folders, id: nat, section: Section) {
    id in folders && !folders[id].deleted && folders[id].section == section
  }

  /** The row of a folder, deleted or not. */
  ghost function Row(folders: Folders, identity: string): Option<nat> {
    if id :| Named(folders, id, identity) then Some(id) else None
  }

  predicate Described(documents: Documents, id: nat, collection: string, identity: string) {
    id in documents && documents[id].collection == collection && documents[id].identity == identity
  }

  ghost function DocumentRow(documents: Documents, collection: string, identity: string): Option<nat> {
    if id :| Described(documents, id, collection, identity) then Some(id) else None
  }

  /** ResolveFolder for a folder that must exist: the active folder of that identity and section. */
  ghost function Resolve(folders: Folders, identity: string, section: Section): Option<nat> {
    if id :| Named(folders, id, identity) && Active(folders, id, section) then Some(id) else None
  }

  function IdentityOf(folders: Folders, id: Option<nat>): string {
    if id.Some? && id.value in folders then folders[id.value].identity else ""
  }

  function OrRoot(identity: string, section: Section): string
  {
    if identity == "" then RootIdentity(section) else identity
  }

  // ---------------------------------------------------------------- ancestors

  /** The chain of parents from `x` ends after at most `n` folders. */
  ghost predicate Ends(folders: Folders, x: Option<nat>, n: nat)
    decreases n
  {
    x.None? || (n > 0 && x.value in folders && Ends(folders, folders[x.value].parent, n - 1))
  }

  /** `id` is among the first `n` folders of the chain of parents from `x`. */
  ghost predicate Above(folders: Folders, id: nat, x: Option<nat>, n: nat)
    decreases n
  {
    n > 0 && x.Some? && (x.value == id || (x.value in folders && Above(folders, id, folders[x.value].parent, n - 1)))
  }

  ghost predicate WouldCycle(folders: Folders, id: nat, parent: nat)
  {
    exists n: nat :: Above(folders, id, Some(parent), n)
  }

  // ---------------------------------------------------------------- folders

  /** `valid` is the outcome of the checks of validateDocument that no rule here depends on. */
  datatype FolderInput = FolderInput(identity: string, section: Section, parent: string, root: bool, system: bool,
      content: string, valid: bool)

  /** Absent fields keep the stored value; an empty parent asks for the section's root. */
  datatype FolderPatch = FolderPatch(
    identity: Option<string>, section: Option<Section>, parent: Option<string>, root: bool, system: Option<bool>,
    content: Option<string>, valid: bool)

  ghost function CreateFolder(st: Store, id: nat, input: FolderInput): Result<Store, Error>
    requires id !in st.folders
  {
    var parent := Resolve(st.folders, OrRoot(input.parent, input.section), input.section);
    if !input.valid || input.identity == "" || input.root then Failure(Invalid)
    else if parent.None? then Failure(NotFound)
    else if Row(st.folders, input.identity).Some? then Failure(IdentityTaken)
    else Success(st.(folders := st.folders[id :=
        Folder(input.identity, input.section, parent, false, input.system, input.content, false, 1)]))
  }

  function Or<T>(value: Option<T>, otherwise: T): T { if value.Some? then value.value else otherwise }

  /** Whether the patch leaves every field as it is. */
  predicate Unchanged(folders: Folders, f: Folder, patch: FolderPatch) {
    && Or(patch.identity, f.identity) == f.identity && Or(patch.system, f.system) == f.system
    && Or(patch.content, f.content) == f.content &&
        Or(patch.parent, IdentityOf(folders, f.parent)) == IdentityOf(folders, f.parent)
  }

  /** No other folder has the identity. */
  ghost predicate Free(folders: Folders, id: nat, identity: string)
  {
    forall other | Named(folders, other, identity) :: other == id
  }

  ghost function PatchFolder(st: Store, identity: string, patch: FolderPatch, expected: int): Result<Store, Error> {
    var row := Row(st.folders, identity);
    if expected <= 0 then Failure(PreconditionRequired)
    else if row.None? then Failure(NotFound)
    else PatchRow(st, row.value, patch, expected)
  }

  ghost function PatchRow(st: Store, id: nat, patch: FolderPatch, expected: int): Result<Store, Error>
    requires id in st.folders
  {
    var f := st.folders[id];
    var parent := Resolve(st.folders, OrRoot(Or(patch.parent, IdentityOf(st.folders, f.parent)), f.section), f.section);
    if f.revision != expected then Failure(RevisionConflict)
    else if f.root || f.system then Failure(SystemFolderImmutable)
    else if Or(patch.section, f.section) != f.section then Failure(SectionImmutable)
    else if !patch.valid || patch.identity == Some("") || patch.root then Failure(Invalid)
    else if Unchanged(st.folders, f, patch) then Success(st)
    else if parent.None? then Failure(NotFound)
    else if parent.value == id then Failure(SelfParent)
    else if WouldCycle(st.folders, id, parent.value) then Failure(Cycle)
    else if !Free(st.folders, id, Or(patch.identity, f.identity)) then Failure(IdentityTaken)
    else Success(st.(folders := st.folders[id := f.(
      identity := Or(patch.identity, f.identity), parent := parent, system := Or(patch.system, f.system),
      content := Or(patch.content, f.content), revision := f.revision + 1)]))
  }

  /** The active folders below `id` go to `parent`. */
  function Reparent(folders: Folders, id: nat, parent: Option<nat>): Folders {
    map k | k in folders :: if folders[k].parent == Some(id) && !folders[k].deleted
                            then folders[k].(parent := parent, revision := folders[k].revision + 1) else folders[k]
  }

  /** The active documents in folder `id` go to `parent`: in their shared placement when the
      folder is shared, in their typed placement otherwise. */
  function MoveOut(documents: Documents, section: Section, id: nat, parent: nat): Documents {
    map k | k in documents :: if Inside(documents[k], section, id) then Placed(documents[k], section, parent)
        else documents[k]
  }

  predicate Inside(d: Document, section: Section, id: nat) {
    !d.deleted && if section.Shared? then d.shared == id else d.folder == Some(id)
  }

  function Placed(d: Document, section: Section, parent: nat): Document {
    if section.Shared? then d.(shared := parent, revision := d.revision + 1)
    else d.(folder := Some(parent), revision := d.revision + 1)
  }

  ghost function DeleteFolder(st: Store, identity: string, expected: int): Result<Store, Error> {
    var row := Row(st.folders, identity);
    if expected <= 0 then Failure(PreconditionRequired)
    else if row.None? then Failure(NotFound)
    else DeleteRow(st, row.value, expected)
  }

  ghost function DeleteRow(st: Store, id: nat, expected: int): Result<Store, Error>
    requires id in st.folders
  {
    var f := st.folders[id];
    var parent := Resolve(st.folders, OrRoot(IdentityOf(st.folders, f.parent), f.section), f.section);
    if f.revision != expected then Failure(RevisionConflict)
    else if f.deleted then Success(st)
    else if f.root || f.system then Failure(SystemFolderImmutable)
    else if parent.None? then Failure(NotFound)
    else if Reparent(st.folders, id, parent)[id].revision != expected then Failure(RevisionConflict)
    else Success(Emptied(st, id, parent.value))
  }

  /** The contents of `id` moved to `parent` and the folder itself deleted. */
  function Emptied(st: Store, id: nat, parent: nat): Store
    requires id in st.folders
  {
    var f := st.folders[id];
    Store(Reparent(st.folders, id, Some(parent))[id :=
        f.(parent := Some(parent), deleted := true, revision := f.revision + 1)],
          MoveOut(st.documents, f.section, id, parent))
  }

  /** A restored folder comes back below the root of its section. */
  ghost function RestoreFolder(st: Store, identity: string, expected: int): Result<Store, Error> {
    var row := Row(st.folders, identity);
    if expected <= 0 then Failure(PreconditionRequired)
    else if row.None? then Failure(NotFound)
    else
      var f := st.folders[row.value];
      var parent := Resolve(st.folders, RootIdentity(f.section), f.section);
      if f.revision != expected then Failure(RevisionConflict)
      else if !f.deleted then Success(st)
      else if parent.None? then Failure(NotFound)
      else Success(st.(folders := st.folders[row.value :=
          f.(parent := parent, deleted := false, revision := f.revision + 1)]))
  }

  // ---------------------------------------------------------------- documents

  datatype DocumentInput = DocumentInput(collection: string, identity: string, folder: string, shared: string,
      content: string, valid: bool)

  datatype DocumentPatch = DocumentPatch(
    identity: Option<string>, folder: Option<string>, shared: Option<string>, content: Option<string>, valid: bool)

  /** Both placements of a document, or None when one of them names no active folder. */
  ghost function Place(folders: Folders, collection: string, folder: string,
      shared: string): Option<(Option<nat>, nat)>
  {
    var typed := Resolve(folders, OrRoot(folder, SectionOf(collection)), SectionOf(collection));
    var common := Resolve(folders, OrRoot(shared, Shared), Shared);
    if common.None? || (typed.None? && !Folderless(collection)) then None
    else Some((if Folderless(collection) then None else typed, common.value))
  }

  ghost function CreateDocument(st: Store, id: nat, input: DocumentInput): Result<Store, Error>
    requires id !in st.documents
  {
    var place := Place(st.folders, input.collection, input.folder, input.shared);
    if !input.valid then Failure(Invalid)
    else if place.None? then Failure(NotFound)
    else if DocumentRow(st.documents, input.collection, input.identity).Some? then Failure(IdentityTaken)
    else Success(st.(documents := st.documents[id :=
      Document(input.collection, input.identity, place.value.0, place.value.1, input.content, false, 1)]))
  }

  predicate UnchangedDocument(folders: Folders, d: Document, patch: DocumentPatch) {
    && Or(patch.identity, d.identity) == d.identity && Or(patch.content, d.content) == d.content
    && Or(patch.folder, IdentityOf(folders, d.folder)) == IdentityOf(folders, d.folder)
    && Or(patch.shared, IdentityOf(folders, Some(d.shared))) == IdentityOf(folders, Some(d.shared))
  }

  ghost predicate FreeDocument(documents: Documents, id: nat, collection: string, identity: string) {
    forall other | Described(documents, other, collection, identity) :: other == id
  }

  ghost function PatchDocument(st: Store, collection: string, identity: string, patch: DocumentPatch,
      expected: int): Result<Store, Error>
  {
    var row := DocumentRow(st.documents, collection, identity);
    if expected <= 0 then Failure(PreconditionRequired)
    else if row.None? then Failure(NotFound)
    else PatchDocumentRow(st, row.value, patch, expected)
  }

  ghost function PatchDocumentRow(st: Store, id: nat, patch: DocumentPatch, expected: int): Result<Store, Error>
    requires id in st.documents
  {
    var d := st.documents[id];
    var place := Place(st.folders, d.collection, Or(patch.folder, IdentityOf(st.folders, d.folder)),
                       Or(patch.shared, IdentityOf(st.folders, Some(d.shared))));
    if d.revision != expected then Failure(RevisionConflict)
    else if !patch.valid then Failure(Invalid)
    else if UnchangedDocument(st.folders, d, patch) then Success(st)
    else if place.None? then Failure(NotFound)
    else if !FreeDocument(st.documents, id, d.collection, Or(patch.identity, d.identity)) then Failure(IdentityTaken)
    else Success(st.(documents := st.documents[id := d.(
      identity := Or(patch.identity, d.identity), content := Or(patch.content, d.content),
      folder := place.value.0, shared := place.value.1, revision := d.revision + 1)]))
  }

  ghost function DeleteDocument(st: Store, collection: string, identity: string, expected: int): Result<Store, Error> {
    var row := DocumentRow(st.documents, collection, identity);
    if expected <= 0 then Failure(PreconditionRequired)
    else if row.None? then Failure(NotFound)
    else DeleteDocumentRow(st, row.value, expected)
  }

  ghost function DeleteDocumentRow(st: Store, id: nat, expected: int): Result<Store, Error>
    requires id in st.documents
  {
    var d := st.documents[id];
    var place := Place(st.folders, d.collection, IdentityOf(st.folders, d.folder),
        IdentityOf(st.folders, Some(d.shared)));
    if d.revision != expected then Failure(RevisionConflict)
    else if d.deleted then Success(st)
    else if place.None? then Failure(NotFound)
    else Success(st.(documents := st.documents[id := d.(
      folder := place.value.0, shared := place.value.1, deleted := true, revision := d.revision + 1)]))
  }

  /** The placement itself when it is active, the root of its section otherwise. */
  ghost function Kept(folders: Folders, identity: string, section: Section): string {
    if Resolve(folders, OrRoot(identity, section), section).Some? then identity else ""
  }

  ghost function RestoreDocument(st: Store, collection: string, identity: string, expected: int): Result<Store, Error> {
    var row := DocumentRow(st.documents, collection, identity);
    if expected <= 0 then Failure(PreconditionRequired)
    else if row.None? then Failure(NotFound)
    else RestoreDocumentRow(st, row.value, expected)
  }

  ghost function RestoreDocumentRow(st: Store, id: nat, expected: int): Result<Store, Error>
    requires id in st.documents
  {
    var d := st.documents[id];
    var place := Place(st.folders, d.collection,
        Kept(st.folders, IdentityOf(st.folders, d.folder), SectionOf(d.collection)),
                       Kept(st.folders, IdentityOf(st.folders, Some(d.shared)), Shared));
    if d.revision != expected then Failure(RevisionConflict)
    else if !d.deleted then Success(st)
    else if place.None? then Failure(NotFound)
    else Success(st.(documents := st.documents[id := d.(
      folder := place.value.0, shared := place.value.1, deleted := false, revision := d.revision + 1)]))
  }

  // ---------------------------------------------------------------- moving documents

  datatype MoveItem = MoveItem(collection: string, identity: string, expected: int)

  /** Where to: `common` moves the shared placement, otherwise the typed one. */
  datatype Target = Target(folder: string, common: bool)

  /** The checks on the list made before anything is read. */
  predicate Acceptable(items: seq<MoveItem>) {
    && 1 <= |items| <= 500
    && (forall i | 0 <= i < |items| :: items[i].expected > 0)
    && (forall i, j | 0 <= i < j < |items| ::
        items[i].collection != items[j].collection || items[i].identity != items[j].identity)
  }

  /** The new row of one listed document, or None when it is already there. */
  ghost function Moved(st: Store, item: MoveItem, target: Target): Result<Option<(nat, Document)>, Error> {
    var row := DocumentRow(st.documents, item.collection, item.identity);
    if row.None? then Failure(NotFound)
    else
      var d := st.documents[row.value];
      var folder := if target.common then IdentityOf(st.folders, d.folder) else target.folder;
      var common := if target.common then target.folder else IdentityOf(st.folders, Some(d.shared));
      var place := Place(st.folders, d.collection, folder, common);
      if d.revision != item.expected then Failure(RevisionConflict)
      else if d.deleted then Failure(MoveDeleted)
      else if place.None? then Failure(NotFound)
      else if folder == IdentityOf(st.folders, d.folder) && common == IdentityOf(st.folders, Some(d.shared))
          then Success(None)
      else Success(Some((row.value, d.(folder := place.value.0, shared := place.value.1, revision := d.revision + 1))))
  }

  /** The first listed document that cannot move decides the error. */
  ghost function MoveFailure(st: Store, items: seq<MoveItem>, target: Target): Option<Error> {
    if items == [] then None
    else
      var earlier, last := MoveFailure(st, items[..|items| - 1], target), Moved(st, items[|items| - 1], target);
      if earlier.Some? then earlier else if last.Failure? then Some(last.error) else None
  }

  /** The rows after the listed documents have moved, all prepared from `st`. */
  ghost function MovedRows(st: Store, items: seq<MoveItem>, target: Target): Documents {
    if items == [] then st.documents
    else
      var rows, last := MovedRows(st, items[..|items| - 1], target), Moved(st, items[|items| - 1], target);
      if last.Success? && last.value.Some? then rows[last.value.value.0 := last.value.value.1] else rows
  }

  ghost function MoveDocuments(st: Store, items: seq<MoveItem>, target: Target): Result<Store, Error> {
    if target.folder == "" || !Acceptable(items) then Failure(Invalid)
    else if MoveFailure(st, items, target).Some? then Failure(MoveFailure(st, items, target).value)
    else Success(st.(documents := MovedRows(st, items, target)))
  }
}
