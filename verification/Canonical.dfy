/**
 The canonical form of a portable bundle, written as one formula for each collection,
 after internal/domain/domainversion/canonical.go.  PortableBundle.dfy holds the rewriting
 in place and is proved against it.
 */
module Canonical {
  import opened Text
  import opened Json
  import opened Sequences
  import opened FolderNames

  const ACTIONS := "actions"
  const COMPONENTS := "components"
  const LEGACY_COMPONENTS := "componentSFCs"
  const CONFIGURATIONS := "configurations"
  const FACETS := "facets"
  const FACET_DOCUMENTS := "facet-documents"
  const FOLDERS := "folders"
  const VOCABS := "vocabs"

  const DEFAULT_ACTION_SOURCE :=
    "defineAction({\n  contract: {\n    input: field('Object'),\n    output: field('Object'),\n  },\n\n  steps: {\n    result: input(),\n  },\n\n  output: output('result'),\n})\n"

  predicate IsFacetKind(kind: string) { kind == FACETS || kind == FACET_DOCUMENTS }

  predicate IsLegacyFolder(identity: string) {
    identity == "soft-deleted" || identity == "no-folder" || identity == "root-bindings" || identity == "root-streams"
  }

  // ---------------------------------------------------------------- workspace

  function RemoveLegacySSE(v: Json): Json {
    if v.Obj? then Obj(v.fields - {"sse"}) else v
  }

  const EDITING_DEFAULTS: Doc := map[
    "cancelOn" := Arr([
      Obj(map["event" := Str("keydown"), "key" := Arr([Str("Escape")]), "prevent" := Bool(true), "stop" := Bool(true)]),
      Obj(map["event" := Str("focusout")])]),
    "commitOn" := Arr([
      Obj(map["event" := Str("keydown"), "key" := Arr([Str("Enter")]), "prevent" := Bool(true)])])]

  function EnsureEditingDefaults(v: Json): Json {
    if !v.Null? && !v.Obj? then v
    else
      var fields := if v.Obj? then v.fields else map[];
      var editing := if "sfcEditing" in fields && fields["sfcEditing"].Obj? then fields["sfcEditing"].fields else map[];
      Obj(fields["sfcEditing" := Obj(EDITING_DEFAULTS + editing)])
  }

  function CanonicalWorkspace(w: Doc): Doc {
    var w1 := w - {"state"};
    var w2 := if "documentStructure" in w1 then w1 else w1["documentStructure" := Str("frontend")];
    if "configuration" in w2
    then w2["configuration" := EnsureEditingDefaults(RemoveLegacySSE(w2["configuration"]))]
    else w2
  }

  // ---------------------------------------------------------------- documents

  predicate IsLegacyAction(d: Doc) { Blank(StringValue(d, "source")) }

  function MigrateAction(d: Doc): Doc {
    if !IsLegacyAction(d) then d
    else (d - {"definition", "input", "output"})["source" := Str(DEFAULT_ACTION_SOURCE)]["sourceVersion" := Num(1.0)]
  }

  predicate IsLegacyVocab(d: Doc) {
    Blank(StringValue(d, "source")) && StringValue(d, "mode") == "external_payload"
  }

  /** `quote` stands for the JSON encoding of a string. */
  function MigrateVocab(d: Doc, quote: string -> string): Doc {
    if !IsLegacyVocab(d) then d
    else d["source" := Str(VocabSource(d, quote))]["sourceVersion" := Num(1.0)]
  }

  const VOCAB_HEAD := "defineVocab({\n  provider: payload({\n    baseUrl: "

  function VocabSource(d: Doc, quote: string -> string): string {
    PayloadSource(StringValue(d, "baseApiUrl"), StringValue(d, "collectionSlug"), StringValue(d, "identity"),
                  StringValue(d, "authMode"), StringValue(d, "authProfileIdentity"), quote)
  }

  function PayloadSource(url: string, slug: string, identity: string, authMode: string, profile: string,
      quote: string -> string): string
  {
    var mode := if authMode != "profile" && authMode != "none" then "inherit" else authMode;
    var auth := "{ mode: " + quote(mode) + (if mode == "profile" then ", profile: " + quote(profile) else "") + " }";
    VOCAB_HEAD + (BaseUrlSource(url, quote)
      + ",\n    collection: " + quote(if slug == "" then identity else slug) + ",\n    auth: " + auth
      + ",\n  }),\n\n  outputs: {\n    items: output()\n      .from(response()),\n  },\n})\n")
  }

  function TrimLeft(s: string): string {
    if s != "" && IsSpace(s[0]) then TrimLeft(s[1..]) else s
  }

  function TrimRight(s: string): string {
    if s != "" && IsSpace(s[|s| - 1]) then TrimRight(s[..|s| - 1]) else s
  }

  function TrimSpace(s: string): string { TrimRight(TrimLeft(s)) }

  function BaseUrlSource(url: string, quote: string -> string): string {
    var value := TrimSpace(url);
    if |value| > 2 && value[0] == '{' && value[|value| - 1] == '}' && IsEnvironmentName(value[1..|value| - 1])
    then "env(" + quote(value[1..|value| - 1]) + ")" else quote(value)
  }

  predicate IsEnvironmentName(s: string) {
    s != "" && forall i | 0 <= i < |s| ::
      s[i] == '_' || 'A' <= s[i] <= 'Z' || 'a' <= s[i] <= 'z' || (i != 0 && '0' <= s[i] <= '9')
  }

  function Default(d: Doc, key: string, value: Json): Doc { if key in d then d else d[key := value] }

  /** The first folder pass: defaults, and references to merged folder sections. */
  function DefaultFolder(d: Doc): Doc {
    var d3 := Default(Default(Default(d, "scope", Str("collection")), "icon", Null), "color", Null);
    var d4 := if StringValue(d3, "entityType") == "" then d3
        else d3["entityType" := Str(FolderEntityType(StringValue(d3, "entityType")))];
    if StringValue(d4, "parentIdentity") == "root-streams"
        then d4["parentIdentity" := Str(RootFolderIdentity("streams"))] else d4
  }

  const WORKSPACE_ROOT_FOLDER: Doc := map[
    "identity" := Str(WORKSPACE_ROOT), "displayName" := Str("Workspace"), "description" := Null,
    "scope" := Str("workspace"), "entityType" := Null, "parentIdentity" := Null, "isRoot" := Bool(true),
    "icon" := Null, "color" := Null, "managedBy" := Str("system"), "managedById" := Null,
    "meta" := Obj(map[]), "active" := Bool(true)]

  /** What the loops before the collection pass do to one document of a collection. */
  function Prepare(kind: string, d: Doc, quote: string -> string): Doc {
    if kind == ACTIONS then MigrateAction(d)
    else if kind == VOCABS then MigrateVocab(d, quote)
    else if kind == FOLDERS then DefaultFolder(d)
    else d
  }

  function RemoveSSEFromDocument(kind: string, d: Doc): Doc {
    if kind != FACET_DOCUMENTS || "configuration" !in d || !d["configuration"].Obj? then d
    else
      var c := d["configuration"].fields - {"sse"};
      var c1 := if "patch" in c then c["patch" := RemoveLegacySSE(c["patch"])] else c;
      var c2 := if "value" in c1 then c1["value" := RemoveLegacySSE(c1["value"])] else c1;
      d["configuration" := Obj(c2)]
  }

  /** The folder reference after the streams section was merged into queries. */
  function FolderReference(kind: string, d: Doc): string {
    var identity := StringValue(d, "folderIdentity");
    if kind == "streams" && identity == "root-streams" then RootFolderIdentity(kind) else identity
  }

  predicate HasPrefix(s: string, prefix: string) { |prefix| <= |s| && s[..|prefix|] == prefix }

  predicate IsDetached(identity: string) { identity == "no-folder" || identity == "root-bindings" }

  /** The reference names another section's root, or a folder of another type. */
  predicate IsMisplaced(kind: string, identity: string, types: map<string, string>) {
    && identity != ""
    && ((HasPrefix(identity, "root-") && identity != RootFolderIdentity(kind))
        || (identity in types && types[identity] != FolderEntityType(kind)))
  }

  function NormalizeFolderReference(kind: string, d: Doc, types: map<string, string>): Doc {
    var identity := FolderReference(kind, d);
    var d1 := if identity != StringValue(d, "folderIdentity") then d["folderIdentity" := Str(identity)] else d;
    if IsDetached(identity) then d1 - {"folderIdentity"}
    else if IsMisplaced(kind, identity, types) then d1["folderIdentity" := Str(RootFolderIdentity(kind))]
    else d1
  }

  function DefaultWorkspaceFolder(kind: string, d: Doc): Doc {
    if !IsFacetKind(kind) && Blank(StringValue(d, "workspaceFolderIdentity"))
    then d["workspaceFolderIdentity" := Str(WORKSPACE_ROOT)] else d
  }

  function UpgradeQuery(kind: string, d: Doc): Doc {
    if kind == "queries" && IntegerValue(d, "sourceVersion") == 1 then d["sourceVersion" := Num(2.0)] else d
  }

  /** The collection pass for one document. */
  function Rewrite(kind: string, types: map<string, string>, d: Doc): Doc {
    var d1 := UpgradeQuery(kind, RemoveSSEFromDocument(kind, d - {"state"}));
    if kind == FOLDERS then d1 else DefaultWorkspaceFolder(kind, NormalizeFolderReference(kind, d1, types))
  }

  predicate Kept(kind: string, d: Doc) { kind == FOLDERS ==> !IsLegacyFolder(StringValue(d, "identity")) }

  function Keeps(kind: string): Doc -> bool { d => Kept(kind, d) }

  function Pass(kind: string, types: map<string, string>): Doc -> Doc { d => Rewrite(kind, types, d) }

  /** The collection pass: legacy folders are dropped, the rest is rewritten in order. */
  function RewriteAll(kind: string, types: map<string, string>, items: seq<Doc>): seq<Doc> {
    FilterMap(Keeps(kind), Pass(kind, types), items)
  }

  function PrepareAll(kind: string, items: seq<Doc>, quote: string -> string): (prepared: seq<Doc>)
    ensures |prepared| == |items|
    ensures forall i | 0 <= i < |items| :: prepared[i] == Prepare(kind, items[i], quote)
  {
    seq(|items|, i requires 0 <= i < |items| => Prepare(kind, items[i], quote))
  }

  // ---------------------------------------------------------------- bundle

  datatype Bundle = Bundle(kind: string, schemaVersion: int, workspace: Doc, documents: map<string, seq<Doc>>)

  function Items(documents: map<string, seq<Doc>>, kind: string): seq<Doc> {
    if kind in documents then documents[kind] else []
  }

  /** The documents a collection starts from once legacy components are merged. */
  function Merged(documents: map<string, seq<Doc>>, kind: string): seq<Doc> {
    Items(documents, kind) + if kind == COMPONENTS then Items(documents, LEGACY_COMPONENTS) else []
  }

  predicate HasWorkspaceRoot(folders: seq<Doc>) {
    exists i | 0 <= i < |folders| :: StringValue(folders[i], "identity") == WORKSPACE_ROOT
  }

  function Prepared(documents: map<string, seq<Doc>>, kind: string, quote: string -> string): seq<Doc> {
    PrepareAll(kind, Merged(documents, kind), quote)
      + if kind == FOLDERS && !HasWorkspaceRoot(Items(documents, FOLDERS)) then [WORKSPACE_ROOT_FOLDER] else []
  }

  /** The type of each folder identity; the last folder of an identity decides. */
  function FolderTypes(folders: seq<Doc>): map<string, string> {
    if folders == [] then map[]
    else
      var last := folders[|folders| - 1];
      FolderTypes(folders[..|folders| - 1])[StringValue(last, "identity") := StringValue(last, "entityType")]
  }

  function TypesOf(documents: map<string, seq<Doc>>, quote: string -> string): map<string, string> {
    FolderTypes(Prepared(documents, FOLDERS, quote))
  }

  /** The collections of the canonical form of a bundle that has the collections `kinds`. */
  function CanonicalKinds(kinds: set<string>): set<string> {
    kinds - {LEGACY_COMPONENTS} + {CONFIGURATIONS, FACETS, FACET_DOCUMENTS, FOLDERS}
      + if LEGACY_COMPONENTS in kinds then {COMPONENTS} else {}
  }

  function CanonicalItems(documents: map<string, seq<Doc>>, kind: string, quote: string -> string): seq<Doc> {
    RewriteAll(kind, TypesOf(documents, quote), Prepared(documents, kind, quote))
  }

  function CanonicalDocuments(documents: map<string, seq<Doc>>, quote: string -> string): map<string, seq<Doc>> {
    map kind | kind in CanonicalKinds(documents.Keys) :: CanonicalItems(documents, kind, quote)
  }

  function Canonicalize(b: Bundle, quote: string -> string): Bundle {
    Bundle(if b.kind == "" then "workspace-snapshot" else b.kind, b.schemaVersion,
           CanonicalWorkspace(b.workspace), CanonicalDocuments(b.documents, quote))
  }

  // ---------------------------------------------------------------- report

  /** How often the normalization of one folder reference counts itself. */
  function References(kind: string, d: Doc, types: map<string, string>): nat {
    var identity := FolderReference(kind, d);
    (if identity != StringValue(d, "folderIdentity") then 1 else 0)
      + if IsDetached(identity) || IsMisplaced(kind, identity, types) then 1 else 0
  }

  /** What one document adds to the count of normalized folder references. */
  function Normalizations(kind: string, d: Doc, types: map<string, string>): nat {
    if kind == FOLDERS then 0
    else References(kind, d, types) + if !IsFacetKind(kind) && Blank(StringValue(d, "workspaceFolderIdentity")) then 1
        else 0
  }

  function NormalizationsOf(kind: string, types: map<string, string>): Doc -> nat
  {
    (d: Doc) => Normalizations(kind, d, types)
  }

  /** The count of the collections `kinds`. */
  ghost function NormalizedIn(documents: map<string, seq<Doc>>, kinds: set<string>, types: map<string, string>): nat
    decreases |kinds|
  {
    if kinds == {} then 0
    else
      var kind :| kind in kinds;
      Total(NormalizationsOf(kind, types), Items(documents, kind)) + NormalizedIn(documents, kinds - {kind}, types)
  }

  /** The counters of the compatibility report. */
  datatype Report = Report(
    ignoredFolders: nat, normalizedReferences: nat, migratedActions: nat, migratedVocabs: nat,
        editingDefaultsAdded: bool)

  predicate IsLegacyFolderDoc(d: Doc) { IsLegacyFolder(StringValue(d, "identity")) }

  predicate DefaultsAdded(w: Doc) {
    "configuration" in w
    && EnsureEditingDefaults(RemoveLegacySSE(w["configuration"])) != RemoveLegacySSE(w["configuration"])
  }

  /** The documents the collection pass starts from. */
  function AllPrepared(documents: map<string, seq<Doc>>, quote: string -> string): map<string, seq<Doc>> {
    map kind | kind in CanonicalKinds(documents.Keys) :: Prepared(documents, kind, quote)
  }

  /** The part of the report that counts documents. */
  ghost function Counted(documents: map<string, seq<Doc>>, quote: string -> string): Report {
    Report(Count(IsLegacyFolderDoc, Prepared(documents, FOLDERS, quote)),
           NormalizedIn(AllPrepared(documents, quote), CanonicalKinds(documents.Keys), TypesOf(documents, quote)),
           Count(IsLegacyAction, Items(documents, ACTIONS)), Count(IsLegacyVocab, Items(documents, VOCABS)), false)
  }

  ghost function ReportOf(b: Bundle, quote: string -> string): Report {
    Counted(b.documents, quote).(editingDefaultsAdded := DefaultsAdded(b.workspace))
  }
}
