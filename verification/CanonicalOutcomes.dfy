/**
 What the canonical form makes of each document, in terms of the bundle alone: where a folder
 reference ends up, which keys change and which documents are left out.
 */
module CanonicalOutcomes {
  import opened Text
  import opened Json
  import opened FolderNames
  import opened Canonical
  import opened CanonicalForm
  import opened Sequences

  // ---------------------------------------------------------------- folder types

  /** The type a folder declares; streams share the folders of queries. */
  function TypeOf(folder: Doc): string {
    if StringValue(folder, "entityType") == "streams" then "queries" else StringValue(folder, "entityType")
  }

  /** Folder `i` is the last one of its identity. */
  predicate Decides(folders: seq<Doc>, identity: string, i: nat) {
    && i < |folders| && StringValue(folders[i], "identity") == identity
    && forall j | i < j < |folders| :: StringValue(folders[j], "identity") != identity
  }

  /** The folder of that identity in the bundle, if there is one, holds documents of this type. */
  ghost predicate KnownAs(documents: map<string, seq<Doc>>, identity: string, entityType: string) {
    exists i: nat :: Decides(Items(documents, "folders"), identity, i) &&
        TypeOf(Items(documents, "folders")[i]) == entityType
  }

  ghost predicate Known(documents: map<string, seq<Doc>>, identity: string) {
    exists i: nat :: i < |Items(documents, "folders")| &&
        StringValue(Items(documents, "folders")[i], "identity") == identity
  }

  lemma {:induction false} DecidedType(folders: seq<Doc>, identity: string, i: nat)
    requires Decides(folders, identity, i)
    ensures identity in FolderTypes(folders) && FolderTypes(folders)[identity] == StringValue(folders[i], "entityType")
  {
    var n := |folders| - 1;
    if i < n { DecidedType(folders[..n], identity, i); }
  }

  lemma {:induction false} SomeDecides(folders: seq<Doc>, identity: string) returns (i: nat)
    requires identity in FolderTypes(folders)
    ensures Decides(folders, identity, i)
  {
    var n := |folders| - 1;
    if StringValue(folders[n], "identity") == identity {
      i := n;
    } else {
      i := SomeDecides(folders[..n], identity);
    }
  }

  lemma {:induction false} NamedIsTyped(folders: seq<Doc>, i: nat)
    requires i < |folders|
    ensures StringValue(folders[i], "identity") in FolderTypes(folders)
  {
    if i < |folders| - 1 { NamedIsTyped(folders[..|folders| - 1], i); }
  }

  lemma LastDecides(folders: seq<Doc>, identity: string)
    ensures identity in FolderTypes(folders) <==> exists i: nat ::
        i < |folders| && StringValue(folders[i], "identity") == identity
    ensures forall i: nat | Decides(folders, identity, i) ::
      identity in FolderTypes(folders) && FolderTypes(folders)[identity] == StringValue(folders[i], "entityType")
    ensures identity in FolderTypes(folders) ==> exists i: nat :: Decides(folders, identity, i)
  {
    if identity in FolderTypes(folders) { var i := SomeDecides(folders, identity); }
    forall i: nat | i < |folders| && StringValue(folders[i], "identity") == identity
        ensures identity in FolderTypes(folders)
    {
      NamedIsTyped(folders, i);
    }
    forall i: nat | Decides(folders, identity, i)
      ensures identity in FolderTypes(folders) &&
          FolderTypes(folders)[identity] == StringValue(folders[i], "entityType")
    {
      DecidedType(folders, identity, i);
    }
  }

  /** Folders appended under another identity decide nothing. */
  lemma SameDeciding(prepared: seq<Doc>, folders: seq<Doc>, identity: string)
    requires |folders| <= |prepared|
    requires forall i | 0 <= i < |folders| ::
      && StringValue(prepared[i], "identity") == StringValue(folders[i], "identity")
      && StringValue(prepared[i], "entityType") == TypeOf(folders[i])
    requires forall i | |folders| <= i < |prepared| :: StringValue(prepared[i], "identity") != identity
    ensures forall i: nat :: Decides(prepared, identity, i) <==> Decides(folders, identity, i)
  {
    forall i: nat ensures Decides(prepared, identity, i) <==> Decides(folders, identity, i) {}
  }

  lemma PreparedFolders(documents: map<string, seq<Doc>>, quote: string -> string)
    ensures var folders, prepared := Items(documents, FOLDERS), Prepared(documents, FOLDERS, quote);
      && |folders| <= |prepared|
      && (forall i | 0 <= i < |folders| ::
           && StringValue(prepared[i], "identity") == StringValue(folders[i], "identity")
           && StringValue(prepared[i], "entityType") == TypeOf(folders[i]))
      && (forall i | |folders| <= i < |prepared| :: StringValue(prepared[i], "identity") == WORKSPACE_ROOT)
  {
    var folders := Items(documents, FOLDERS);
    assert Merged(documents, FOLDERS) == folders;
    forall i | 0 <= i < |folders|
      ensures StringValue(Prepare(FOLDERS, folders[i], quote), "identity") == StringValue(folders[i], "identity")
      ensures StringValue(Prepare(FOLDERS, folders[i], quote), "entityType") == TypeOf(folders[i])
    {
      DefaultedFolder(folders[i]);
    }
  }

  /** Folder types are what the folders of the bundle declare. */
  lemma TypesAreDeclared(documents: map<string, seq<Doc>>, identity: string, quote: string -> string)
    requires identity != WORKSPACE_ROOT
    ensures var types := TypesOf(documents, quote);
      && (identity in types <==> Known(documents, identity))
      && (forall entityType :: identity in types && types[identity] == entityType <==>
           KnownAs(documents, identity, entityType))
  {
    var folders, prepared := Items(documents, FOLDERS), Prepared(documents, FOLDERS, quote);
    PreparedFolders(documents, quote);
    SameDeciding(prepared, folders, identity);
    LastDecides(prepared, identity);
    if identity in FolderTypes(prepared) {
      var i: nat :| Decides(prepared, identity, i);
      assert Decides(folders, identity, i);
    }
  }

  lemma DefaultedFolder(d: Doc)
    ensures StringValue(DefaultFolder(d), "identity") == StringValue(d, "identity")
    ensures StringValue(DefaultFolder(d), "entityType") == TypeOf(d)
  {
  }

  // ---------------------------------------------------------------- folder references

  /** Where a reference belongs: nowhere, at the root of its own section when it names a root or a
      folder of another section, and where it is otherwise. */
  ghost function Home(documents: map<string, seq<Doc>>, kind: string, reference: string): string {
    var own := if kind == "streams" then "queries" else kind;
    if reference == "" || reference == "no-folder" || reference == "root-bindings" then ""
    else if |reference| >= 5 && reference[..5] == "root-" then "root-" + own
    else if Known(documents, reference) && !KnownAs(documents, reference, own) then "root-" + own
    else reference
  }

  /** The same by the types of the folders. */
  function HomeBy(types: map<string, string>, kind: string, reference: string): string {
    var own := if kind == "streams" then "queries" else kind;
    if reference == "" || reference == "no-folder" || reference == "root-bindings" then ""
    else if |reference| >= 5 && reference[..5] == "root-" then "root-" + own
    else if reference in types && types[reference] != own then "root-" + own
    else reference
  }

  lemma HomesAgree(documents: map<string, seq<Doc>>, kind: string, reference: string, quote: string -> string)
    ensures HomeBy(TypesOf(documents, quote), kind, reference) == Home(documents, kind, reference)
  {
    if reference != WORKSPACE_ROOT {
      TypesAreDeclared(documents, reference, quote);
    } else {
      assert WORKSPACE_ROOT[..5] == "root-";
    }
  }

  lemma MovedReference(kind: string, reference: string, types: map<string, string>)
    requires reference != "" && !IsDetached(reference)
    ensures HomeBy(types, kind, reference)
        == if IsMisplaced(kind, reference, types) then RootFolderIdentity(kind) else reference
  {
    assert RootFolderIdentity(kind) == "root-" + FolderEntityType(kind);
    if reference == RootFolderIdentity(kind) { assert reference[..5] == "root-"; }
  }

  lemma ReferenceByTypes(kind: string, d: Doc, types: map<string, string>)
    ensures var x := NormalizeFolderReference(kind, d, types);
      && StringValue(x, "folderIdentity") == HomeBy(types, kind, StringValue(d, "folderIdentity"))
      && (StringValue(d, "folderIdentity") == "" ==> SameAt(d, x, "folderIdentity"))
  {
    var reference := StringValue(d, "folderIdentity");
    if kind == "streams" && reference == "root-streams" {
      StreamsRoot();
      assert "root-streams"[..5] == "root-" && "root-streams"[5] == 's';
      assert FolderReference(kind, d) == "root-queries" == RootFolderIdentity(kind);
      assert "root-queries"[0] == 'r' && "root-queries"[5] == 'q' && "root-bindings"[5] == 'b' && "no-folder"[0] == 'n';
    } else {
      assert FolderReference(kind, d) == reference;
      if reference != "" && !IsDetached(reference) { MovedReference(kind, reference, types); }
    }
  }

  lemma ReferenceIsHome(documents: map<string, seq<Doc>>, kind: string, d: Doc, quote: string -> string)
    ensures var x := NormalizeFolderReference(kind, d, TypesOf(documents, quote));
      && StringValue(x, "folderIdentity") == Home(documents, kind, StringValue(d, "folderIdentity"))
      && (StringValue(d, "folderIdentity") == "" ==> SameAt(d, x, "folderIdentity"))
  {
    ReferenceByTypes(kind, d, TypesOf(documents, quote));
    HomesAgree(documents, kind, StringValue(d, "folderIdentity"), quote);
  }

  /** The documents have the same value, or none, under the key. */
  predicate SameAt(d: Doc, x: Doc, key: string)
  {
    (key in d <==> key in x) && (key in d && key in x ==> x[key] == d[key])
  }

  // ---------------------------------------------------------------- the parts of a document

  ghost predicate ReferencePart(documents: map<string, seq<Doc>>, kind: string, d: Doc, x: Doc) {
    && StringValue(x, "folderIdentity") == Home(documents, kind, StringValue(d, "folderIdentity"))
    && (StringValue(d, "folderIdentity") == "" ==> SameAt(d, x, "folderIdentity"))
  }

  /** Facets have no shared placement; every other document without one gets the workspace root. */
  predicate WorkspacePart(kind: string, d: Doc, x: Doc) {
    if kind == "facets" || kind == "facet-documents" || !Blank(StringValue(d, "workspaceFolderIdentity"))
    then SameAt(d, x, "workspaceFolderIdentity")
    else "workspaceFolderIdentity" in x && x["workspaceFolderIdentity"] == Str("root-workspace-files")
  }

  /** The value without its SSE settings. */
  ghost predicate WithoutSSE(v: Json, w: Json) {
    if v.Obj? then w.Obj? && "sse" !in w.fields && forall key | key != "sse" :: SameAt(v.fields, w.fields, key)
    else w == v
  }

  /** A facet document's configuration loses its SSE settings, on the top and in both of its parts. */
  ghost predicate ConfigurationPart(kind: string, d: Doc, x: Doc) {
    if kind == "facet-documents" && "configuration" in d && d["configuration"].Obj? then
      && "configuration" in x && x["configuration"].Obj?
      && var c, w := d["configuration"].fields, x["configuration"].fields;
      && "sse" !in w
      && (forall key | key != "sse" && key != "patch" && key != "value" :: SameAt(c, w, key))
      && (forall key | key == "patch" || key == "value" ::
          (key in c <==> key in w) && (key in c ==> WithoutSSE(c[key], w[key])))
    else SameAt(d, x, "configuration")
  }

  predicate QueryPart(kind: string, d: Doc, x: Doc) {
    if kind == "queries" && "sourceVersion" in d && d["sourceVersion"].Num? && Truncate(d["sourceVersion"].n) == 1
    then "sourceVersion" in x && x["sourceVersion"] == Num(2.0)
    else SameAt(d, x, "sourceVersion")
  }

  predicate IsPart(key: string) {
    || key == "state" || key == "folderIdentity" || key == "workspaceFolderIdentity" || key == "configuration"
    || key == "sourceVersion"
  }

  lemma SSEPart(kind: string, d: Doc)
    ensures var x := RemoveSSEFromDocument(kind, d);
      ConfigurationPart(kind, d, x) && forall key | key != "configuration" :: SameAt(d, x, key)
  {
  }

  lemma NormalizeFrames(kind: string, d: Doc, types: map<string, string>)
    ensures forall key | key != "folderIdentity" :: SameAt(d, NormalizeFolderReference(kind, d, types), key)
  {
  }

  lemma WorkspaceParts(kind: string, d: Doc)
    ensures var x := DefaultWorkspaceFolder(kind, d);
      WorkspacePart(kind, d, x) && forall key | key != "workspaceFolderIdentity" :: SameAt(d, x, key)
  {
  }

  lemma QueryParts(kind: string, d: Doc)
    ensures var x := UpgradeQuery(kind, d); QueryPart(kind, d, x) && forall key | key != "sourceVersion" ::
        SameAt(d, x, key)
  {
  }

  /** The document before the pass looks at its folder reference. */
  function Upgraded(kind: string, d: Doc): Doc { UpgradeQuery(kind, RemoveSSEFromDocument(kind, d - {"state"})) }

  lemma UpgradedParts(kind: string, d: Doc)
    ensures var u := Upgraded(kind, d);
      && "state" !in u && ConfigurationPart(kind, d, u) && QueryPart(kind, d, u)
      && forall key | key != "state" && key != "configuration" && key != "sourceVersion" :: SameAt(d, u, key)
  {
    var d0 := d - {"state"};
    var a := RemoveSSEFromDocument(kind, d0);
    SSEPart(kind, d0);
    QueryParts(kind, a);
  }

  lemma ReferenceRewritten(documents: map<string, seq<Doc>>, kind: string, d: Doc, quote: string -> string)
    requires kind != FOLDERS
    ensures ReferencePart(documents, kind, d, Rewrite(kind, TypesOf(documents, quote), d))
  {
    var u := Upgraded(kind, d);
    UpgradedParts(kind, d);
    ReferenceIsHome(documents, kind, u, quote);
    WorkspaceParts(kind, NormalizeFolderReference(kind, u, TypesOf(documents, quote)));
    assert SameAt(d, u, "folderIdentity");
  }

  lemma WorkspaceRewritten(kind: string, types: map<string, string>, d: Doc)
    requires kind != FOLDERS
    ensures WorkspacePart(kind, d, Rewrite(kind, types, d))
  {
    var u := Upgraded(kind, d);
    UpgradedParts(kind, d);
    NormalizeFrames(kind, u, types);
    WorkspaceParts(kind, NormalizeFolderReference(kind, u, types));
    assert SameAt(d, NormalizeFolderReference(kind, u, types), "workspaceFolderIdentity");
  }

  lemma OthersRewritten(kind: string, types: map<string, string>, d: Doc)
    requires kind != FOLDERS
    ensures var u, x := Upgraded(kind, d), Rewrite(kind, types, d);
      forall key | key != "folderIdentity" && key != "workspaceFolderIdentity" :: SameAt(u, x, key)
  {
    var u := Upgraded(kind, d);
    NormalizeFrames(kind, u, types);
    WorkspaceParts(kind, NormalizeFolderReference(kind, u, types));
  }

  /** The collection pass changes a document in these parts only. */
  lemma RewriteParts(documents: map<string, seq<Doc>>, kind: string, d: Doc, quote: string -> string)
    requires kind != FOLDERS
    ensures var x := Rewrite(kind, TypesOf(documents, quote), d);
      && "state" !in x && ReferencePart(documents, kind, d, x) && WorkspacePart(kind, d, x)
      && ConfigurationPart(kind, d, x) && QueryPart(kind, d, x) && forall key | !IsPart(key) :: SameAt(d, x, key)
  {
    var u, x := Upgraded(kind, d), Rewrite(kind, TypesOf(documents, quote), d);
    ReferenceRewritten(documents, kind, d, quote);
    WorkspaceRewritten(kind, TypesOf(documents, quote), d);
    UpgradedParts(kind, d);
    OthersRewritten(kind, TypesOf(documents, quote), d);
    PartsFollow(kind, d, u, x);
  }

  lemma PartsFollow(kind: string, d: Doc, u: Doc, x: Doc)
    requires "state" !in u && ConfigurationPart(kind, d, u) && QueryPart(kind, d, u)
    requires forall key | key != "state" && key != "configuration" && key != "sourceVersion" :: SameAt(d, u, key)
    requires forall key | key != "folderIdentity" && key != "workspaceFolderIdentity" :: SameAt(u, x, key)
    ensures "state" !in x && ConfigurationPart(kind, d, x) && QueryPart(kind, d, x)
    ensures forall key | !IsPart(key) :: SameAt(d, x, key)
  {
    assert SameAt(u, x, "configuration") && SameAt(u, x, "sourceVersion") && SameAt(u, x, "state");
    forall key | !IsPart(key) ensures SameAt(d, x, key) { assert SameAt(d, u, key) && SameAt(u, x, key); }
  }

  // ---------------------------------------------------------------- migrated sources

  predicate OldAction(kind: string, d: Doc) { kind == "actions" && Blank(StringValue(d, "source")) }

  predicate OldVocab(kind: string, d: Doc) {
    kind == "vocabs" && Blank(StringValue(d, "source")) && StringValue(d, "mode") == "external_payload"
  }

  predicate IsSource(key: string) { key == "source" || key == "definition" || key == "input" || key == "output" }

  /** An action or a payload vocabulary without a source gets one; every other source stays. */
  ghost predicate SourcePart(kind: string, d: Doc, x: Doc, quote: string -> string) {
    if OldAction(kind, d) then
      && "source" in x && x["source"] == Str(DEFAULT_ACTION_SOURCE)
      && "sourceVersion" in x && x["sourceVersion"] == Num(1.0)
      && "definition" !in x && "input" !in x && "output" !in x
    else if OldVocab(kind, d) then
      && "source" in x && x["source"] == Str(VocabSource(d, quote))
      && "sourceVersion" in x && x["sourceVersion"] == Num(1.0)
      && forall key | IsSource(key) && key != "source" :: SameAt(d, x, key)
    else QueryPart(kind, d, x) && forall key | IsSource(key) :: SameAt(d, x, key)
  }

  /** Document `x` is what the canonical form makes of `d`. */
  ghost predicate CanonicalOf(documents: map<string, seq<Doc>>, kind: string, d: Doc, x: Doc, quote: string -> string) {
    && "state" !in x && ReferencePart(documents, kind, d, x) && WorkspacePart(kind, d, x)
    && ConfigurationPart(kind, d, x) && SourcePart(kind, d, x, quote)
    && forall key | !IsPart(key) && !IsSource(key) :: SameAt(d, x, key)
  }

  lemma ActionSource(d: Doc, quote: string -> string)
    ensures var x := MigrateAction(d);
      && (forall key | key != "sourceVersion" && !IsSource(key) :: SameAt(d, x, key))
      && (if Blank(StringValue(d, "source")) then SourcePart(ACTIONS, d, x, quote) else x == d)
  {
  }

  lemma VocabSources(d: Doc, quote: string -> string)
    ensures var x := MigrateVocab(d, quote);
      && (forall key | key != "sourceVersion" && !IsSource(key) :: SameAt(d, x, key))
      && (if OldVocab(VOCABS, d) then SourcePart(VOCABS, d, x, quote) else x == d)
  {
    assert VOCABS[0] != ACTIONS[0];
    if IsLegacyVocab(d) { WrittenSource(d, VocabSource(d, quote)); }
  }

  lemma WrittenSource(d: Doc, source: string)
    ensures var x := d["source" := Str(source)]["sourceVersion" := Num(1.0)];
      && "source" in x && x["source"] == Str(source) && "sourceVersion" in x && x["sourceVersion"] == Num(1.0)
      && (forall key | key != "sourceVersion" && key != "source" :: SameAt(d, x, key))
  {
    assert |"source"| != |"sourceVersion"|;
  }

  lemma PreparedParts(kind: string, d: Doc, quote: string -> string)
    requires kind != FOLDERS
    ensures var p := Prepare(kind, d, quote);
      && (forall key | key != "sourceVersion" && !IsSource(key) :: SameAt(d, p, key))
      && (if OldAction(kind, d) || OldVocab(kind, d) then SourcePart(kind, d, p, quote) else p == d)
  {
    if kind == ACTIONS {
      ActionSource(d, quote);
    } else if kind == VOCABS {
      VocabSources(d, quote);
    }
  }

  /** A pass that keeps the sources keeps what the migration wrote. */
  lemma SourceFollows(kind: string, d: Doc, p: Doc, x: Doc, quote: string -> string)
    requires QueryPart(kind, p, x) && forall key | IsSource(key) :: SameAt(p, x, key)
    requires if OldAction(kind, d) || OldVocab(kind, d) then SourcePart(kind, d, p, quote) else p == d
    ensures SourcePart(kind, d, x, quote)
  {
    assert IsSource("source") && IsSource("definition") && IsSource("input") && IsSource("output");
    assert SameAt(p, x, "source") && SameAt(p, x, "definition") && SameAt(p, x, "input") && SameAt(p, x, "output");
    if OldAction(kind, d) || OldVocab(kind, d) { assert kind[0] != "queries"[0]; }
  }

  lemma PartsFollowPrepared(documents: map<string, seq<Doc>>, kind: string, d: Doc, p: Doc, x: Doc)
    requires ReferencePart(documents, kind, p, x) && WorkspacePart(kind, p, x) && ConfigurationPart(kind, p, x)
    requires SameAt(d, p, "folderIdentity") && SameAt(d, p, "workspaceFolderIdentity") && SameAt(d, p, "configuration")
    ensures ReferencePart(documents, kind, d, x) && WorkspacePart(kind, d, x) && ConfigurationPart(kind, d, x)
  {
  }

  lemma DocumentIs(documents: map<string, seq<Doc>>, kind: string, d: Doc, quote: string -> string)
    requires kind != FOLDERS
    ensures CanonicalOf(documents, kind, d, Rewrite(kind, TypesOf(documents, quote), Prepare(kind, d, quote)), quote)
  {
    var p := Prepare(kind, d, quote);
    var x := Rewrite(kind, TypesOf(documents, quote), p);
    PreparedParts(kind, d, quote);
    RewriteParts(documents, kind, p, quote);
    SourceKeys();
    assert SameAt(d, p, "folderIdentity") && SameAt(d, p, "workspaceFolderIdentity") && SameAt(d, p, "configuration");
    PartsFollowPrepared(documents, kind, d, p, x);
    SourceFollows(kind, d, p, x, quote);
    forall key | !IsPart(key) && !IsSource(key) ensures SameAt(d, x, key) {
      assert SameAt(d, p, key) && SameAt(p, x, key);
    }
  }

  lemma SourceKeys()
    ensures forall key | IsSource(key) :: !IsPart(key)
    ensures !IsSource("folderIdentity") && !IsSource("workspaceFolderIdentity") && !IsSource("configuration")
    ensures "folderIdentity" != "sourceVersion" && "workspaceFolderIdentity" != "sourceVersion" &&
        "configuration" != "sourceVersion"
  {
    assert |"state"| == 5 && |"folderIdentity"| == 14 && |"workspaceFolderIdentity"| == 23 && |"configuration"| == 13;
    assert |"sourceVersion"| == 13 && |"source"| == 6 && |"definition"| == 10 && |"input"| == 5 && |"output"| == 6;
    assert "state"[0] == 's' && "input"[0] == 'i' && "configuration"[0] == 'c' && "sourceVersion"[0] == 's';
  }

  // ---------------------------------------------------------------- collections

  /** The document the canonical form makes entry `i` of a collection from; legacy components
      follow the others. */
  function Entry(documents: map<string, seq<Doc>>, kind: string, i: nat): Doc
    requires i < |Items(documents, kind)| + if kind == "components" then |Items(documents, "componentSFCs")| else 0
  {
    if i < |Items(documents, kind)| then Items(documents, kind)[i]
    else Items(documents, "componentSFCs")[i - |Items(documents, kind)|]
  }

  /** Every document outside the folders has its place in the canonical form. */
  lemma CollectionIs(b: Bundle, kind: string, quote: string -> string)
    requires kind in Canonicalize(b, quote).documents && kind != "folders"
    ensures var out := Canonicalize(b, quote).documents[kind];
      && |out| == |Items(b.documents, kind)| +
          (if kind == "components" then |Items(b.documents, "componentSFCs")| else 0)
      && forall i | 0 <= i < |out| :: CanonicalOf(b.documents, kind, Entry(b.documents, kind, i), out[i], quote)
  {
    CanonicalKind(b.documents, kind, quote);
    ItemsAre(b.documents, kind, quote);
  }

  lemma PreparedEntries(documents: map<string, seq<Doc>>, kind: string, quote: string -> string)
    requires kind != FOLDERS
    ensures var prepared := Prepared(documents, kind, quote);
      && |prepared| == |Items(documents, kind)| +
          (if kind == "components" then |Items(documents, "componentSFCs")| else 0)
      && forall i | 0 <= i < |prepared| :: prepared[i] == Prepare(kind, Entry(documents, kind, i), quote)
  {
    assert Prepared(documents, kind, quote) == PrepareAll(kind, Merged(documents, kind), quote);
  }

  lemma EntryIs(documents: map<string, seq<Doc>>, kind: string, i: nat, quote: string -> string)
    requires kind != FOLDERS
    requires i < |Items(documents, kind)| + if kind == "components" then |Items(documents, "componentSFCs")| else 0
    ensures i < |CanonicalItems(documents, kind, quote)| == |Prepared(documents, kind, quote)|
    ensures CanonicalOf(documents, kind, Entry(documents, kind, i), CanonicalItems(documents, kind, quote)[i], quote)
  {
    PreparedEntries(documents, kind, quote);
    FilterMapAll(Keeps(kind), Pass(kind, TypesOf(documents, quote)), Prepared(documents, kind, quote));
    DocumentIs(documents, kind, Entry(documents, kind, i), quote);
  }

  lemma ItemsAre(documents: map<string, seq<Doc>>, kind: string, quote: string -> string)
    requires kind != FOLDERS
    ensures var out := CanonicalItems(documents, kind, quote);
      && |out| == |Items(documents, kind)| + (if kind == "components" then |Items(documents, "componentSFCs")| else 0)
      && forall i | 0 <= i < |out| :: CanonicalOf(documents, kind, Entry(documents, kind, i), out[i], quote)
  {
    PreparedEntries(documents, kind, quote);
    FilterMapAll(Keeps(kind), Pass(kind, TypesOf(documents, quote)), Prepared(documents, kind, quote));
    forall i | 0 <= i < |CanonicalItems(documents, kind, quote)|
      ensures CanonicalOf(documents, kind, Entry(documents, kind, i), CanonicalItems(documents, kind, quote)[i], quote)
    {
      EntryIs(documents, kind, i, quote);
    }
  }

  /** The collections of the canonical form. */
  lemma CollectionsAre(b: Bundle, kind: string, quote: string -> string)
    ensures kind in Canonicalize(b, quote).documents <==>
      || kind == "configurations" || kind == "facets" || kind == "facet-documents" || kind == "folders"
      || (kind in b.documents && kind != "componentSFCs")
      || (kind == "components" && "componentSFCs" in b.documents)
  {
    assert CanonicalDocuments(b.documents, quote).Keys == CanonicalKinds(b.documents.Keys);
    KindsAre(b.documents.Keys, kind);
  }

  lemma KindsAre(kinds: set<string>, kind: string)
    ensures kind in CanonicalKinds(kinds) <==>
      || kind == CONFIGURATIONS || kind == FACETS || kind == FACET_DOCUMENTS || kind == FOLDERS
      || (kind in kinds && kind != LEGACY_COMPONENTS) || (kind == COMPONENTS && LEGACY_COMPONENTS in kinds)
  {
  }

  // ---------------------------------------------------------------- folders

  predicate OldFolder(d: Doc) {
    var identity := StringValue(d, "identity");
    identity == "soft-deleted" || identity == "no-folder" || identity == "root-bindings" || identity == "root-streams"
  }

  /** Missing fields get their default, and the streams section is the one of queries. */
  ghost predicate Defaulted(d: Doc, x: Doc) {
    && "scope" in x && x["scope"] == (if "scope" in d then d["scope"] else Str("collection"))
    && "icon" in x && x["icon"] == (if "icon" in d then d["icon"] else Null)
    && "color" in x && x["color"] == (if "color" in d then d["color"] else Null)
    && (if StringValue(d, "entityType") == "streams" then "entityType" in x && x["entityType"] == Str("queries")
        else SameAt(d, x, "entityType"))
    && (if StringValue(d, "parentIdentity") == "root-streams"
        then "parentIdentity" in x && x["parentIdentity"] == Str("root-queries") else SameAt(d, x, "parentIdentity"))
    && forall key | !IsFolderPart(key) :: SameAt(d, x, key)
  }

  ghost predicate FolderOf(d: Doc, x: Doc) {
    "state" !in x && Defaulted(d, x)
  }

  predicate IsFolderPart(key: string) {
    || key == "state" || key == "scope" || key == "icon" || key == "color" || key == "entityType"
    || key == "parentIdentity"
  }

  lemma FolderIs(d: Doc, types: map<string, string>)
    ensures FolderOf(d, Rewrite(FOLDERS, types, DefaultFolder(d)))
  {
    FolderRewrite(types, DefaultFolder(d));
    FolderDefaults(d);
    FolderKeys();
    StatelessFolder(d, DefaultFolder(d));
  }

  lemma FolderDefaults(d: Doc)
    ensures Defaulted(d, DefaultFolder(d))
  {
    StreamsRoot();
    var d3 := Default(Default(Default(d, "scope", Str("collection")), "icon", Null), "color", Null);
    FolderFields(d);
    FolderNamesOf(d3);
    assert SameAt(d, d3, "entityType") && SameAt(d, d3, "parentIdentity");
    assert SameAt(d3, DefaultFolder(d), "scope") && SameAt(d3, DefaultFolder(d), "icon") &&
        SameAt(d3, DefaultFolder(d), "color");
    forall key | !IsFolderPart(key) ensures SameAt(d, DefaultFolder(d), key) {
      assert SameAt(d, d3, key) && SameAt(d3, DefaultFolder(d), key);
    }
  }

  lemma FolderFields(d: Doc)
    ensures var x := Default(Default(Default(d, "scope", Str("collection")), "icon", Null), "color", Null);
      && "scope" in x && x["scope"] == (if "scope" in d then d["scope"] else Str("collection"))
      && "icon" in x && x["icon"] == (if "icon" in d then d["icon"] else Null)
      && "color" in x && x["color"] == (if "color" in d then d["color"] else Null)
      && forall key | key != "scope" && key != "icon" && key != "color" :: SameAt(d, x, key)
  {
    assert "scope"[0] == 's' && "icon"[0] == 'i' && "color"[0] == 'c';
  }

  lemma FolderNamesOf(d: Doc)
    requires "scope" in d && "icon" in d && "color" in d
    ensures var x := DefaultFolder(d);
      && (if StringValue(d, "entityType") == "streams" then "entityType" in x && x["entityType"] == Str("queries")
          else SameAt(d, x, "entityType"))
      && (if StringValue(d, "parentIdentity") == "root-streams"
          then "parentIdentity" in x && x["parentIdentity"] == Str("root-queries") else SameAt(d, x, "parentIdentity"))
      && forall key | key != "entityType" && key != "parentIdentity" :: SameAt(d, x, key)
  {
    StreamsRoot();
  }

  lemma StatelessFolder(d: Doc, x: Doc)
    requires Defaulted(d, x)
    ensures FolderOf(d, x - {"state"})
  {
    FolderKeys();
    forall key | !IsFolderPart(key) ensures SameAt(d, x - {"state"}, key) { assert SameAt(d, x, key); }
  }

  lemma FolderKeys()
    ensures "scope" != "state" && "icon" != "state" && "color" != "state" && "entityType" != "state" &&
        "parentIdentity" != "state"
  {
    assert "scope"[1] == 'c' && "state"[1] == 't' && "icon"[0] == 'i' && "color"[0] == 'c' && "state"[0] == 's';
  }

  lemma KeptFolders(folders: seq<Doc>, types: map<string, string>, quote: string -> string) returns (from: seq<nat>)
    ensures var out := RewriteAll(FOLDERS, types, PrepareAll(FOLDERS, folders, quote));
      && |out| == |from|
      && forall j | 0 <= j < |from| ::
           from[j] < |folders| && !OldFolder(folders[from[j]]) && FolderOf(folders[from[j]], out[j])
    ensures forall j, k | 0 <= j < k < |from| :: from[j] < from[k]
    ensures forall i | 0 <= i < |folders| && !OldFolder(folders[i]) :: i in from
  {
    var head := PrepareAll(FOLDERS, folders, quote);
    from := FilterMapIndices(Keeps(FOLDERS), Pass(FOLDERS, types), head);
    forall i | 0 <= i < |folders|
      ensures FolderOf(folders[i], Rewrite(FOLDERS, types, head[i]))
      ensures Kept(FOLDERS, head[i]) <==> !OldFolder(folders[i])
    {
      FolderIs(folders[i], types);
      DefaultedFolder(folders[i]);
    }
  }

  ghost predicate NamesWorkspaceRoot(folders: seq<Doc>) {
    exists i :: 0 <= i < |folders| && StringValue(folders[i], "identity") == "root-workspace-files"
  }

  lemma RootBehind(documents: map<string, seq<Doc>>, quote: string -> string)
    ensures var folders, types := Items(documents, FOLDERS), TypesOf(documents, quote);
      CanonicalItems(documents, FOLDERS, quote) == RewriteAll(FOLDERS, types, PrepareAll(FOLDERS, folders, quote))
        + if NamesWorkspaceRoot(folders) then [] else [WORKSPACE_ROOT_FOLDER - {"state"}]
  {
    var folders, types := Items(documents, FOLDERS), TypesOf(documents, quote);
    var head := PrepareAll(FOLDERS, folders, quote);
    assert Merged(documents, FOLDERS) == folders;
    RootIsKept();
    if HasWorkspaceRoot(folders) {
      assert Prepared(documents, FOLDERS, quote) == head;
    } else {
      FilterMapLast(Keeps(FOLDERS), Pass(FOLDERS, types), head, WORKSPACE_ROOT_FOLDER);
      FolderRewrite(types, WORKSPACE_ROOT_FOLDER);
    }
  }

  lemma RootFolderIs()
    ensures StringValue(WORKSPACE_ROOT_FOLDER - {"state"}, "identity") == "root-workspace-files"
  {
    assert "identity"[0] == 'i' && "state"[0] == 's';
  }

  /** The canonical folders are those of the bundle but for the old ones, in their order, and the
      workspace root behind them if the bundle has none. */
  lemma FoldersAre(b: Bundle, quote: string -> string) returns (from: seq<nat>)
    ensures "folders" in Canonicalize(b, quote).documents
    ensures var folders, out := Items(b.documents, "folders"), Canonicalize(b, quote).documents["folders"];
      && |out| == |from| + (if NamesWorkspaceRoot(folders) then 0 else 1)
      && (forall j | 0 <= j < |from| ::
           from[j] < |folders| && !OldFolder(folders[from[j]]) && FolderOf(folders[from[j]], out[j]))
      && (forall i | 0 <= i < |folders| && !OldFolder(folders[i]) :: i in from)
      && (|out| > |from| ==> StringValue(out[|from|], "identity") == "root-workspace-files")
    ensures forall j, k | 0 <= j < k < |from| :: from[j] < from[k]
  {
    CanonicalKind(b.documents, FOLDERS, quote);
    RootBehind(b.documents, quote);
    RootFolderIs();
    from := KeptFolders(Items(b.documents, FOLDERS), TypesOf(b.documents, quote), quote);
  }

  // ---------------------------------------------------------------- workspace

  /** Editing settings that are there win over the defaults; a configuration that is no object
      stays as it is. */
  ghost predicate Configured(v: Json, w: Json) {
    if v.Null? then w == Obj(map["sfcEditing" := Obj(EDITING_DEFAULTS)])
    else if !v.Obj? then w == v
    else
      && w.Obj? && "sse" !in w.fields && "sfcEditing" in w.fields && w.fields["sfcEditing"].Obj?
      && (forall key | key != "sse" && key != "sfcEditing" :: SameAt(v.fields, w.fields, key))
      && forall key :: EditingAt(EditingOf(v.fields), w.fields["sfcEditing"].fields, key)
  }

  function EditingOf(fields: Doc): Doc {
    if "sfcEditing" in fields && fields["sfcEditing"].Obj? then fields["sfcEditing"].fields else map[]
  }

  predicate EditingAt(before: Doc, after: Doc, key: string) {
    if key in before then SameAt(before, after, key) else SameAt(EDITING_DEFAULTS, after, key)
  }

  lemma ConfigurationIs(v: Json)
    ensures Configured(v, EnsureEditingDefaults(RemoveLegacySSE(v)))
  {
    assert "sfcEditing"[1] == 'f' && "sse"[1] == 's';
    assert EDITING_DEFAULTS + map[] == EDITING_DEFAULTS;
    if v.Obj? {
      assert EditingOf(v.fields - {"sse"}) == EditingOf(v.fields);
      forall key ensures EditingAt(EditingOf(v.fields), EDITING_DEFAULTS + EditingOf(v.fields), key) {}
    }
  }

  lemma CanonicalWorkspaceIs(w: Doc)
    ensures var x := CanonicalWorkspace(w);
      && "state" !in x
      && "documentStructure" in x
      && x["documentStructure"] == (if "documentStructure" in w then w["documentStructure"] else Str("frontend"))
      && ("configuration" in x <==> "configuration" in w)
      && ("configuration" in w ==> Configured(w["configuration"], x["configuration"]))
      && forall key | key != "state" && key != "documentStructure" && key != "configuration" :: SameAt(w, x, key)
  {
    assert "state"[0] == 's' && "documentStructure"[0] == 'd' && "configuration"[0] == 'c';
    if "configuration" in w { ConfigurationIs(w["configuration"]); }
  }

  /** The workspace loses its state and gets a document structure and editing defaults. */
  lemma WorkspaceIs(b: Bundle, quote: string -> string)
    ensures var w, x := b.workspace, Canonicalize(b, quote).workspace;
      && "state" !in x
      && "documentStructure" in x
      && x["documentStructure"] == (if "documentStructure" in w then w["documentStructure"] else Str("frontend"))
      && ("configuration" in x <==> "configuration" in w)
      && ("configuration" in w ==> Configured(w["configuration"], x["configuration"]))
      && forall key | key != "state" && key != "documentStructure" && key != "configuration" :: SameAt(w, x, key)
    ensures Canonicalize(b, quote).schemaVersion == b.schemaVersion
    ensures Canonicalize(b, quote).kind == if b.kind == "" then "workspace-snapshot" else b.kind
  {
    CanonicalWorkspaceIs(b.workspace);
  }

  // ---------------------------------------------------------------- generated sources

  lemma {:induction false} TrimLeftIs(s: string) returns (a: string)
    ensures s == a + TrimLeft(s) && Blank(a) && (TrimLeft(s) != "" ==> !IsSpace(TrimLeft(s)[0]))
  {
    if s != "" && IsSpace(s[0]) {
      var rest := TrimLeftIs(s[1..]);
      a := [s[0]] + rest;
      assert s == [s[0]] + s[1..];
    } else {
      a := "";
    }
  }

  lemma {:induction false} TrimRightIs(s: string) returns (c: string)
    ensures s == TrimRight(s) + c && Blank(c) && (TrimRight(s) != "" ==> !IsSpace(TrimRight(s)[|TrimRight(s)| - 1]))
    ensures TrimRight(s) != "" ==> TrimRight(s)[0] == s[0]
  {
    if s != "" && IsSpace(s[|s| - 1]) {
      var rest := TrimRightIs(s[..|s| - 1]);
      c := rest + [s[|s| - 1]];
      assert s == s[..|s| - 1] + [s[|s| - 1]];
    } else {
      c := "";
    }
  }

  /** The text without the white space around it. */
  lemma TrimmedIs(s: string) returns (a: string, c: string)
    ensures s == a + TrimSpace(s) + c && Blank(a) && Blank(c)
    ensures TrimSpace(s) != "" ==> !IsSpace(TrimSpace(s)[0]) && !IsSpace(TrimSpace(s)[|TrimSpace(s)| - 1])
  {
    a := TrimLeftIs(s);
    c := TrimRightIs(TrimLeft(s));
  }

  predicate IsLetter(c: char) { c == '_' || 'A' <= c <= 'Z' || 'a' <= c <= 'z' }

  /** The name of an environment variable: no digit in front. */
  predicate IsName(s: string) {
    s != "" && IsLetter(s[0]) && forall i | 0 < i < |s| :: IsLetter(s[i]) || '0' <= s[i] <= '9'
  }

  /** A URL that is a name in braces becomes a reference to the environment, any other a text. */
  lemma BaseUrlIs(url: string, name: string, quote: string -> string)
    ensures TrimSpace(url) == "{" + name + "}" && IsName(name) ==>
        BaseUrlSource(url, quote) == "env(" + quote(name) + ")"
    ensures (forall other | IsName(other) :: TrimSpace(url) != "{" + other + "}") ==>
      BaseUrlSource(url, quote) == quote(TrimSpace(url))
  {
    var value := TrimSpace(url);
    if value == "{" + name + "}" && IsName(name) { assert value[1..|value| - 1] == name; }
    if |value| > 2 && value[0] == '{' && value[|value| - 1] == '}' && IsEnvironmentName(value[1..|value| - 1]) {
      assert value == "{" + value[1..|value| - 1] + "}";
      assert IsName(value[1..|value| - 1]);
    }
  }

  // ---------------------------------------------------------------- the report

  lemma ActionsCounted(actions: seq<Doc>)
    ensures Count(IsLegacyAction, actions) == |set i | 0 <= i < |actions| && OldAction("actions", actions[i])|
  {
    forall i | 0 <= i < |actions| ensures IsLegacyAction(actions[i]) <==> OldAction("actions", actions[i]) {}
    CountIs(IsLegacyAction, actions, set i | 0 <= i < |actions| && OldAction("actions", actions[i]));
  }

  lemma VocabsCounted(vocabs: seq<Doc>)
    ensures Count(IsLegacyVocab, vocabs) == |set i | 0 <= i < |vocabs| && OldVocab("vocabs", vocabs[i])|
  {
    forall i | 0 <= i < |vocabs| ensures IsLegacyVocab(vocabs[i]) <==> OldVocab("vocabs", vocabs[i]) {}
    CountIs(IsLegacyVocab, vocabs, set i | 0 <= i < |vocabs| && OldVocab("vocabs", vocabs[i]));
  }

  /** The report counts the documents that got a source. */
  lemma MigrationsAre(b: Bundle, quote: string -> string)
    ensures var report, actions, vocabs := ReportOf(b, quote), Items(b.documents, "actions"),
        Items(b.documents, "vocabs");
      && report.migratedActions == |set i | 0 <= i < |actions| && OldAction("actions", actions[i])|
      && report.migratedVocabs == |set i | 0 <= i < |vocabs| && OldVocab("vocabs", vocabs[i])|
  {
    ActionsCounted(Items(b.documents, ACTIONS));
    VocabsCounted(Items(b.documents, VOCABS));
  }

  /** And the old folders it left out. */
  lemma FoldersIgnored(b: Bundle, quote: string -> string)
    ensures var folders := Items(b.documents, "folders");
      ReportOf(b, quote).ignoredFolders == |set i | 0 <= i < |folders| && OldFolder(folders[i])|
  {
    var folders, prepared := Items(b.documents, FOLDERS), Prepared(b.documents, FOLDERS, quote);
    var places := set i | 0 <= i < |folders| && OldFolder(folders[i]);
    PreparedFolders(b.documents, quote);
    RootIsKept();
    forall i ensures i in places <==> 0 <= i < |prepared| && IsLegacyFolderDoc(prepared[i]) {}
    CountIs(IsLegacyFolderDoc, prepared, places);
  }

  lemma SameEverywhere(d: Doc, x: Doc)
    requires forall key :: SameAt(d, x, key)
    ensures d == x
  {
    forall key | key in d ensures key in x && x[key] == d[key] { assert SameAt(d, x, key); }
    forall key | key in x ensures key in d { assert SameAt(d, x, key); }
  }

  /** It tells whether the workspace's configuration got any editing default. */
  lemma DefaultsAreReported(v: Json)
    ensures var w := EnsureEditingDefaults(RemoveLegacySSE(v)); w != RemoveLegacySSE(v) <==> !WithoutSSE(v, w)
  {
    var w := EnsureEditingDefaults(RemoveLegacySSE(v));
    if v.Obj? && WithoutSSE(v, w) {
      forall key ensures SameAt(v.fields - {"sse"}, w.fields, key) {
        if key != "sse" { assert SameAt(v.fields, w.fields, key); }
      }
      SameEverywhere(v.fields - {"sse"}, w.fields);
    }
  }

  /** A document is counted exactly when one of its two folder references changes, or when it
      names the root of its section and a folder of another type has that identity. */
  lemma CountedReferences(kind: string, d: Doc, types: map<string, string>)
    requires kind != FOLDERS
    ensures var x, reference := Rewrite(kind, types, d), StringValue(d, "folderIdentity");
      var own := if kind == "streams" then "queries" else kind;
      Normalizations(kind, d, types) > 0 <==>
        || !SameAt(d, x, "folderIdentity") || !SameAt(d, x, "workspaceFolderIdentity")
        || (reference == "root-" + own && reference != "root-bindings" && reference in types && types[reference] != own)
  {
    var u := Upgraded(kind, d);
    var n := NormalizeFolderReference(kind, u, types);
    UpgradedParts(kind, d);
    NormalizeFrames(kind, u, types);
    WorkspaceParts(kind, n);
    assert SameAt(d, u, "folderIdentity") && SameAt(d, u, "workspaceFolderIdentity");
    assert SameAt(u, n, "workspaceFolderIdentity") && SameAt(n, Rewrite(kind, types, d), "folderIdentity");
    ReferencesCounted(kind, u, types);
    assert References(kind, d, types) == References(kind, u, types);
    assert !IsFacetKind(kind) && Blank(StringValue(d, "workspaceFolderIdentity"))
      <==> !SameAt(d, Rewrite(kind, types, d), "workspaceFolderIdentity") by {
      WorkspaceRewritten(kind, types, d);
      assert !Blank(WORKSPACE_ROOT) by { assert !IsSpace(WORKSPACE_ROOT[0]); }
    }
  }

  lemma ReferencesCounted(kind: string, d: Doc, types: map<string, string>)
    ensures var x, reference := NormalizeFolderReference(kind, d, types), StringValue(d, "folderIdentity");
      var own := if kind == "streams" then "queries" else kind;
      References(kind, d, types) > 0 <==>
        || !SameAt(d, x, "folderIdentity")
        || (reference == "root-" + own && reference != "root-bindings" && reference in types && types[reference] != own)
  {
    var reference := StringValue(d, "folderIdentity");
    StreamsRoot();
    assert RootFolderIdentity(kind) == "root-" + (if kind == "streams" then "queries" else kind);
    if reference == RootFolderIdentity(kind) { assert FolderReference(kind, d) == reference; RootHasPrefix(kind); }
    assert "no-folder"[0] == 'n';
  }
}
