/**
 The portable bundle rewritten in place, loop by loop in the order of the program.  The
 collection pass visits the collections in an arbitrary order; that its result is a formula
 over the bundle is the proof that the order does not matter.
 */
module PortableBundle {
  import opened Text
  import opened Json
  import opened Sequences
  import opened FolderNames
  import opened Canonical
  import CanonicalForm
  import opened DomainVersion
  import opened Sorting

  class PortableBundle {
    var kind: string
    var schemaVersion: int
    var domainVersion: string
    var workspace: Doc
    var documents: map<string, seq<Doc>>

    ghost function View(): Bundle
      reads this
    {
      Bundle(kind, schemaVersion, workspace, documents)
    }

    constructor (b: Bundle)
      ensures View() == b && domainVersion == ""
    {
      kind, schemaVersion, domainVersion, workspace, documents := b.kind, b.schemaVersion, "", b.workspace, b.documents;
    }

    method Store(b: Bundle)
      requires b.schemaVersion == schemaVersion
      modifies this`kind, this`workspace, this`documents
      ensures View() == b
    {
      kind, workspace, documents := b.kind, b.workspace, b.documents;
    }

    method CanonicalizeInPlace(quote: string -> string) returns (report: Report)
      modifies this`kind, this`workspace, this`documents
      ensures View() == Canonicalize(old(View()), quote)
      ensures report == ReportOf(old(View()), quote)
    {
      var next;
      next, report := RewriteBundle(Bundle(kind, schemaVersion, workspace, documents), quote);
      Store(next);
    }

    /** Canonicalizes the bundle and assigns the version of what it now holds. */
    method Attach(quote: string -> string, text: Doc -> string, digest: Value -> string)
      modifies this
      ensures View() == Canonicalize(old(View()), quote)
      ensures domainVersion == Compute(View(), quote, text, digest)
    {
      var _ := CanonicalizeInPlace(quote);
      var copy := CanonicalCopy(Bundle(kind, schemaVersion, workspace, documents), quote);
      var value := HashedValue(copy, text);
      domainVersion := CURRENT_PREFIX + digest(value);
    }
  }

  method CanonicalCopy(b: Bundle, quote: string -> string) returns (next: Bundle)
    ensures next == Canonicalize(b, quote)
  {
    var copy := new PortableBundle(b);
    var _ := copy.CanonicalizeInPlace(quote);
    next := Bundle(copy.kind, copy.schemaVersion, copy.workspace, copy.documents);
  }

  method RewriteBundle(b: Bundle, quote: string -> string) returns (next: Bundle, report: Report)
    ensures next == Canonicalize(b, quote) && report == ReportOf(b, quote) && next.schemaVersion == b.schemaVersion
  {
    next := b;
    if next.kind == "" { next := next.(kind := "workspace-snapshot"); }
    var workspace, added := RewriteWorkspace(next.workspace);
    var documents;
    documents, report := RewriteDocuments(next.documents, quote);
    next := next.(workspace := workspace, documents := documents);
    report := report.(editingDefaultsAdded := added);
  }

  method RewriteDocuments(documents: map<string, seq<Doc>>, quote: string -> string)
    returns (result: map<string, seq<Doc>>, report: Report)
    ensures result == CanonicalDocuments(documents, quote) && report == Counted(documents, quote)
  {
    var actions, vocabs, ignored, normalized;
    result, actions, vocabs := PrepareDocuments(documents, quote);
    ghost var prepared := result;
    var types := CollectFolderTypes(result[FOLDERS]);
    result, ignored, normalized := RewriteCollections(result, types);
    RewrittenIs(documents, prepared, result, quote);
    CountedIs(documents, prepared, quote);
    report := Report(ignored, normalized, actions, vocabs, false);
  }

  lemma CountedIs(documents: map<string, seq<Doc>>, prepared: map<string, seq<Doc>>, quote: string -> string)
    requires IsPrepared(documents, prepared, quote) && FOLDERS in prepared
    ensures IgnoredIn(prepared, prepared.Keys) == Counted(documents, quote).ignoredFolders
    ensures NormalizedIn(prepared, prepared.Keys, FolderTypes(prepared[FOLDERS]))
        == Counted(documents, quote).normalizedReferences
  {
    SameMap(prepared, AllPrepared(documents, quote));
  }

  /** `prepared` is what the collection pass starts from. */
  ghost predicate IsPrepared(documents: map<string, seq<Doc>>, prepared: map<string, seq<Doc>>,
      quote: string -> string)
  {
    && prepared.Keys == CanonicalKinds(documents.Keys)
    && (forall kind | kind in prepared :: prepared[kind] == Prepared(documents, kind, quote))
  }

  lemma RewrittenIs(documents: map<string, seq<Doc>>, prepared: map<string, seq<Doc>>, result: map<string, seq<Doc>>,
      quote: string -> string)
    requires IsPrepared(documents, prepared, quote) && FOLDERS in prepared && result.Keys == prepared.Keys
    requires forall kind | kind in prepared ::
        result[kind] == RewriteAll(kind, FolderTypes(prepared[FOLDERS]), prepared[kind])
    ensures result == CanonicalDocuments(documents, quote)
  {
    var canonical := CanonicalDocuments(documents, quote);
    forall kind | kind in result ensures result[kind] == canonical[kind] {
      RewrittenKind(documents, prepared, kind, quote);
      CanonicalForm.CanonicalKind(documents, kind, quote);
    }
    SameMap(result, canonical);
  }

  lemma RewrittenKind(documents: map<string, seq<Doc>>, prepared: map<string, seq<Doc>>, kind: string,
      quote: string -> string)
    requires kind in prepared && prepared[kind] == Prepared(documents, kind, quote)
    requires FOLDERS in prepared && prepared[FOLDERS] == Prepared(documents, FOLDERS, quote)
    ensures RewriteAll(kind, FolderTypes(prepared[FOLDERS]), prepared[kind]) == CanonicalItems(documents, kind, quote)
  {
  }

  method RewriteWorkspace(w: Doc) returns (result: Doc, added: bool)
    ensures result == CanonicalWorkspace(w) && added == DefaultsAdded(w)
  {
    result := w - {"state"};
    if "documentStructure" !in result {
      result := result["documentStructure" := Str("frontend")];
    }
    added := false;
    if "configuration" in result {
      var before := RemoveLegacySSE(result["configuration"]);
      var after := EnsureEditingDefaults(before);
      result := result["configuration" := after];
      added := before != after;
    }
  }

  // ---------------------------------------------------------------- the hashed value

  method PortableFields(w: Doc) returns (result: Doc)
    ensures result == PortableWorkspace(w)
  {
    var keys := ["displayName", "description", "dataMode", "documentStructure", "configuration", "meta", "active"];
    result := map[];
    for i := 0 to |keys|
      invariant result == map key | key in w && key in keys[..i] :: w[key]
    {
      if keys[i] in w {
        result := result[keys[i] := w[keys[i]]];
      }
      assert forall key :: key in keys[..i + 1] <==> key in keys[..i] || key == keys[i];
    }
    assert keys[..|keys|] == keys;
    assert forall key :: key in keys <==> key in PORTABLE_KEYS;
  }

  method HashedItems(kind: string, items: seq<Doc>, text: Doc -> string) returns (result: seq<Doc>)
    ensures result == SortedItems(kind, text, items)
  {
    var plain := [];
    for i := 0 to |items|
      invariant plain == FilterMap(Every, Stateless, items[..i])
    {
      plain := plain + [items[i] - {"state"}];
      FilterMapLast(Every, Stateless, items[..i], items[i]);
      assert items[..i] + [items[i]] == items[..i + 1];
    }
    assert items[..|items|] == items;
    result := Sort(LessOf(kind, text), plain);
  }

  method HashedValue(b: Bundle, text: Doc -> string) returns (value: Value)
    ensures value == Portable(b, text)
  {
    var documents: map<string, seq<Doc>> := map[];
    var todo := b.documents.Keys;
    while todo != {}
      invariant todo <= b.documents.Keys && documents.Keys == b.documents.Keys - todo
      invariant forall kind | kind in documents :: documents[kind] == SortedItems(kind, text, b.documents[kind])
    {
      var kind :| kind in todo;
      var items := HashedItems(kind, b.documents[kind], text);
      documents := documents[kind := items];
      todo := todo - {kind};
    }
    var workspace := PortableFields(b.workspace);
    SameMap(documents, Portable(b, text).documents);
    value := Value(b.kind, b.schemaVersion, workspace, documents);
  }

  // ---------------------------------------------------------------- loops before the collection pass

  method MigrateActions(actions: seq<Doc>, quote: string -> string) returns (result: seq<Doc>, migrated: nat)
    ensures result == PrepareAll(ACTIONS, actions, quote) && migrated == Count(IsLegacyAction, actions)
  {
    result, migrated := actions, 0;
    for i := 0 to |actions|
      invariant |result| == |actions|
      invariant forall j | 0 <= j < i :: result[j] == MigrateAction(actions[j])
      invariant forall j | i <= j < |actions| :: result[j] == actions[j]
      invariant migrated == Count(IsLegacyAction, actions[..i])
    {
      CountLast(IsLegacyAction, actions, i);
      if !Blank(StringValue(result[i], "source")) {
        continue;
      }
      var action := result[i]["source" := Str(DEFAULT_ACTION_SOURCE)]["sourceVersion" := Num(1.0)];
      action := action - {"definition"};
      action := action - {"input"};
      action := action - {"output"};
      SameMigration(actions[i], action);
      result := result[i := action];
      migrated := migrated + 1;
    }
    assert actions[..|actions|] == actions;
    assert result == PrepareAll(ACTIONS, actions, quote);
  }

  lemma SameMigration(d: Doc, action: Doc)
    requires IsLegacyAction(d)
    requires action ==
        d["source" := Str(DEFAULT_ACTION_SOURCE)]["sourceVersion" := Num(1.0)] - {"definition"} - {"input"} - {"output"}
    ensures action == MigrateAction(d)
  {
  }

  method MigrateVocabs(vocabs: seq<Doc>, quote: string -> string) returns (result: seq<Doc>, migrated: nat)
    ensures result == PrepareAll(VOCABS, vocabs, quote) && migrated == Count(IsLegacyVocab, vocabs)
  {
    result, migrated := vocabs, 0;
    for i := 0 to |vocabs|
      invariant |result| == |vocabs|
      invariant forall j | 0 <= j < i :: result[j] == MigrateVocab(vocabs[j], quote)
      invariant forall j | i <= j < |vocabs| :: result[j] == vocabs[j]
      invariant migrated == Count(IsLegacyVocab, vocabs[..i])
    {
      CountLast(IsLegacyVocab, vocabs, i);
      var vocab, legacy := NormalizeLegacyVocab(result[i], quote);
      result := result[i := vocab];
      if legacy {
        migrated := migrated + 1;
      }
    }
    assert vocabs[..|vocabs|] == vocabs;
    PreparedVocabs(vocabs, result, quote);
  }

  method NormalizeLegacyVocab(vocab: Doc, quote: string -> string) returns (result: Doc, legacy: bool)
    ensures result == MigrateVocab(vocab, quote) && legacy == IsLegacyVocab(vocab)
  {
    if !Blank(StringValue(vocab, "source")) || StringValue(vocab, "mode") != "external_payload" {
      return vocab, false;
    }
    result := vocab["source" := Str(VocabSource(vocab, quote))]["sourceVersion" := Num(1.0)];
    legacy := true;
  }

  lemma PreparedVocabs(vocabs: seq<Doc>, result: seq<Doc>, quote: string -> string)
    requires |result| == |vocabs| && forall j | 0 <= j < |vocabs| :: result[j] == MigrateVocab(vocabs[j], quote)
    ensures result == PrepareAll(VOCABS, vocabs, quote)
  {
    CanonicalForm.KindNames();
    forall j | 0 <= j < |vocabs| ensures result[j] == Prepare(VOCABS, vocabs[j], quote) { }
  }

  method DefaultFolders(folders: seq<Doc>, quote: string -> string) returns (result: seq<Doc>)
    ensures result == PrepareAll(FOLDERS, folders, quote) + if HasWorkspaceRoot(folders) then []
        else [WORKSPACE_ROOT_FOLDER]
  {
    result := folders;
    var hasRoot := false;
    for i := 0 to |folders|
      invariant |result| == |folders|
      invariant forall j | 0 <= j < i :: result[j] == DefaultFolder(folders[j])
      invariant forall j | i <= j < |folders| :: result[j] == folders[j]
      invariant hasRoot <==> exists j | 0 <= j < i :: StringValue(folders[j], "identity") == WORKSPACE_ROOT
    {
      if StringValue(result[i], "identity") == WORKSPACE_ROOT {
        hasRoot := true;
      }
      result := result[i := DefaultFolder(result[i])];
    }
    assert result == PrepareAll(FOLDERS, folders, quote);
    if !hasRoot {
      result := result + [WORKSPACE_ROOT_FOLDER];
    }
  }

  method PrepareDocuments(documents: map<string, seq<Doc>>, quote: string -> string)
    returns (result: map<string, seq<Doc>>, migratedActions: nat, migratedVocabs: nat)
    ensures IsPrepared(documents, result, quote) && FOLDERS in result
    ensures migratedActions == Count(IsLegacyAction, Items(documents, ACTIONS))
    ensures migratedVocabs == Count(IsLegacyVocab, Items(documents, VOCABS))
  {
    result := MergeLegacy(documents);
    ghost var merged := result;
    result, migratedActions := MigrateCollection(result, ACTIONS, quote);
    OtherCollection(merged, quote);
    result, migratedVocabs := MigrateCollection(result, VOCABS, quote);
    var folders := DefaultFolders(Items(result, FOLDERS), quote);
    PreparedIs(documents, merged, result, folders, quote);
    result := result[FOLDERS := folders];
  }

  lemma OtherCollection(merged: map<string, seq<Doc>>, quote: string -> string)
    ensures Items(Migrated(merged, ACTIONS, quote), VOCABS) == Items(merged, VOCABS)
  {
    DistinctPasses();
  }

  /** Runs the migration loop of `kind` over its collection, when there is one. */
  method MigrateCollection(documents: map<string, seq<Doc>>, kind: string, quote: string -> string)
      returns (result: map<string, seq<Doc>>, migrated: nat)
    requires kind == ACTIONS || kind == VOCABS
    ensures result == Migrated(documents, kind, quote)
    ensures migrated == Count(if kind == ACTIONS then IsLegacyAction else IsLegacyVocab, Items(documents, kind))
  {
    result, migrated := documents, 0;
    if kind in documents {
      var items;
      if kind == ACTIONS {
        items, migrated := MigrateActions(documents[kind], quote);
      } else {
        items, migrated := MigrateVocabs(documents[kind], quote);
      }
      result := documents[kind := items];
    }
  }

  lemma DistinctPasses()
    ensures ACTIONS != VOCABS && ACTIONS != FOLDERS && VOCABS != FOLDERS
  {
    CanonicalForm.KindNames();
  }

  method MergeLegacy(documents: map<string, seq<Doc>>) returns (result: map<string, seq<Doc>>)
    ensures IsMerged(documents, result)
    ensures Items(result, ACTIONS) == Items(documents, ACTIONS) && Items(result, VOCABS) == Items(documents, VOCABS)
  {
    result := documents;
    if CONFIGURATIONS !in result { result := result[CONFIGURATIONS := []]; }
    if FACETS !in result { result := result[FACETS := []]; }
    if FACET_DOCUMENTS !in result { result := result[FACET_DOCUMENTS := []]; }
    if LEGACY_COMPONENTS in result {
      result := result[COMPONENTS := Items(result, COMPONENTS) + result[LEGACY_COMPONENTS]];
      result := result - {LEGACY_COMPONENTS};
    }
    MergedIs(documents, result);
  }

  /** The documents after the defaults and the merge of the legacy components. */
  ghost predicate IsMerged(documents: map<string, seq<Doc>>, merged: map<string, seq<Doc>>) {
    && merged.Keys + {FOLDERS} == CanonicalKinds(documents.Keys)
    && (forall kind | kind in CanonicalKinds(documents.Keys) :: Items(merged, kind) == Merged(documents, kind))
  }

  lemma MergedIs(documents: map<string, seq<Doc>>, merged: map<string, seq<Doc>>)
    requires var d1 := documents + map kind | kind in {CONFIGURATIONS, FACETS, FACET_DOCUMENTS} &&
        kind !in documents :: [];
      merged == if LEGACY_COMPONENTS in d1
          then d1[COMPONENTS := Items(d1, COMPONENTS) + d1[LEGACY_COMPONENTS]] - {LEGACY_COMPONENTS} else d1
    ensures IsMerged(documents, merged)
    ensures Items(merged, ACTIONS) == Items(documents, ACTIONS) && Items(merged, VOCABS) == Items(documents, VOCABS)
  {
    CanonicalForm.KindNames();
    var d1 := documents + map kind | kind in {CONFIGURATIONS, FACETS, FACET_DOCUMENTS} && kind !in documents :: [];
    MergedKeys(documents, d1, merged);
    forall kind | kind in CanonicalKinds(documents.Keys) ensures Items(merged, kind) == Merged(documents, kind) {
      MergedKind(documents, d1, merged, kind);
    }
    MergedKind(documents, d1, merged, ACTIONS);
    MergedKind(documents, d1, merged, VOCABS);
  }

  ghost predicate MergeOf(d1: map<string, seq<Doc>>, merged: map<string, seq<Doc>>) {
    merged == if LEGACY_COMPONENTS in d1
        then d1[COMPONENTS := Items(d1, COMPONENTS) + d1[LEGACY_COMPONENTS]] - {LEGACY_COMPONENTS} else d1
  }

  lemma MergedKeys(documents: map<string, seq<Doc>>, d1: map<string, seq<Doc>>, merged: map<string, seq<Doc>>)
    requires d1.Keys == documents.Keys + {CONFIGURATIONS, FACETS, FACET_DOCUMENTS} && MergeOf(d1, merged)
    ensures merged.Keys + {FOLDERS} == CanonicalKinds(documents.Keys)
  {
    CanonicalForm.KindNames();
  }

  lemma MergedKind(documents: map<string, seq<Doc>>, d1: map<string, seq<Doc>>, merged: map<string, seq<Doc>>,
      kind: string)
    requires forall k :: Items(d1, k) == Items(documents, k)
    requires LEGACY_COMPONENTS in d1 <==> LEGACY_COMPONENTS in documents
    requires MergeOf(d1, merged) && kind != LEGACY_COMPONENTS
    ensures Items(merged, kind) == Merged(documents, kind)
  {
  }

  ghost function Migrated(documents: map<string, seq<Doc>>, kind: string, quote: string -> string)
      : map<string, seq<Doc>>
  {
    if kind in documents then documents[kind := PrepareAll(kind, documents[kind], quote)] else documents
  }

  lemma MigrationsIs(merged: map<string, seq<Doc>>, result: map<string, seq<Doc>>, kind: string,
      quote: string -> string)
    requires result == Migrated(Migrated(merged, ACTIONS, quote), VOCABS, quote)
    ensures result.Keys == merged.Keys && Items(result, FOLDERS) == Items(merged, FOLDERS)
    ensures kind in merged && kind != FOLDERS ==> result[kind] == PrepareAll(kind, merged[kind], quote)
  {
    DistinctPasses();
    if kind in merged && kind !in {ACTIONS, VOCABS, FOLDERS} { PrepareOther(kind, merged[kind], quote); }
  }

  lemma PreparedIs(documents: map<string, seq<Doc>>, merged: map<string, seq<Doc>>, migrated: map<string, seq<Doc>>,
      folders: seq<Doc>, quote: string -> string)
    requires IsMerged(documents, merged) && migrated == Migrated(Migrated(merged, ACTIONS, quote), VOCABS, quote)
    requires folders == PrepareAll(FOLDERS, Items(migrated, FOLDERS), quote) +
        if HasWorkspaceRoot(Items(migrated, FOLDERS)) then [] else [WORKSPACE_ROOT_FOLDER]
    ensures IsPrepared(documents, migrated[FOLDERS := folders], quote)
  {
    MigrationsIs(merged, migrated, FOLDERS, quote);
    forall kind | kind in CanonicalKinds(documents.Keys)
      ensures migrated[FOLDERS := folders][kind] == Prepared(documents, kind, quote)
    {
      assert Items(merged, kind) == Merged(documents, kind);
      if kind == FOLDERS {
        FoldersMerge(documents);
      } else {
        PreparedIsPlain(documents, kind, quote);
        MigrationsIs(merged, migrated, kind, quote);
      }
    }
  }

  lemma FoldersMerge(documents: map<string, seq<Doc>>)
    ensures Merged(documents, FOLDERS) == Items(documents, FOLDERS)
  {
    CanonicalForm.KindNames();
  }

  lemma PreparedIsPlain(documents: map<string, seq<Doc>>, kind: string, quote: string -> string)
    requires kind != FOLDERS
    ensures Prepared(documents, kind, quote) == PrepareAll(kind, Merged(documents, kind), quote)
  {
  }

  lemma PrepareOther(kind: string, items: seq<Doc>, quote: string -> string)
    requires kind !in {ACTIONS, VOCABS, FOLDERS}
    ensures PrepareAll(kind, items, quote) == items
  {
  }

  // ---------------------------------------------------------------- the collection pass

  method CollectFolderTypes(folders: seq<Doc>) returns (types: map<string, string>)
    ensures types == FolderTypes(folders)
  {
    types := map[];
    for i := 0 to |folders|
      invariant types == FolderTypes(folders[..i])
    {
      types := types[StringValue(folders[i], "identity") := StringValue(folders[i], "entityType")];
      assert folders[..i + 1][..i] == folders[..i];
    }
    assert folders[..|folders|] == folders;
  }

  /** normalizeFolderReference with its counter. */
  method NormalizeReference(kind: string, item: Doc, types: map<string, string>) returns (result: Doc, count: nat)
    ensures result == NormalizeFolderReference(kind, item, types) && count == References(kind, item, types)
  {
    result, count := item, 0;
    var identity := StringValue(item, "folderIdentity");
    if kind == "streams" && identity == "root-streams" { identity := RootFolderIdentity(kind); }
    if identity != StringValue(item, "folderIdentity") {
      result := result["folderIdentity" := Str(identity)];
      count := count + 1;
    }
    if identity == "no-folder" || identity == "root-bindings" {
      result := result - {"folderIdentity"};
      count := count + 1;
    } else if IsMisplaced(kind, identity, types) {
      result := result["folderIdentity" := Str(RootFolderIdentity(kind))];
      count := count + 1;
    }
  }

  /** The part of the collection pass that only documents outside the folders go through. */
  method PlaceDocument(kind: string, item: Doc, types: map<string, string>) returns (result: Doc, count: nat)
    requires kind != FOLDERS
    ensures result == DefaultWorkspaceFolder(kind, NormalizeFolderReference(kind, item, types))
    ensures count == Normalizations(kind, item, types)
  {
    result, count := NormalizeReference(kind, item, types);
    assert StringValue(result, "workspaceFolderIdentity") == StringValue(item, "workspaceFolderIdentity");
    if !IsFacetKind(kind) && Blank(StringValue(result, "workspaceFolderIdentity")) {
      result := result["workspaceFolderIdentity" := Str(WORKSPACE_ROOT)];
      count := count + 1;
    }
  }

  /** The steps before it do not touch what is counted. */
  lemma SameNormalizations(kind: string, d: Doc, types: map<string, string>)
    ensures Normalizations(kind, UpgradeQuery(kind, RemoveSSEFromDocument(kind, d - {"state"})), types)
        == Normalizations(kind, d, types)
  {
    var u := UpgradeQuery(kind, RemoveSSEFromDocument(kind, d - {"state"}));
    assert StringValue(u, "folderIdentity") == StringValue(d, "folderIdentity");
    assert StringValue(u, "workspaceFolderIdentity") == StringValue(d, "workspaceFolderIdentity");
  }

  lemma OneMoreItem(kind: string, types: map<string, string>, items: seq<Doc>, i: nat)
    requires i < |items|
    ensures Total(NormalizationsOf(kind, types), items[..i + 1])
        == Total(NormalizationsOf(kind, types), items[..i]) + Normalizations(kind, items[i], types)
    ensures RewriteAll(kind, types, items[..i + 1])
         == RewriteAll(kind, types, items[..i]) + if Kept(kind, items[i]) then [Rewrite(kind, types, items[i])] else []
  {
    assert items[..i] + [items[i]] == items[..i + 1];
    TotalAdd(NormalizationsOf(kind, types), items[..i], items[i]);
    FilterMapLast(Keeps(kind), Pass(kind, types), items[..i], items[i]);
  }

  method RewriteCollection(kind: string, items: seq<Doc>, types: map<string, string>)
    returns (filtered: seq<Doc>, ignored: nat, normalized: nat)
    ensures filtered == RewriteAll(kind, types, items)
    ensures ignored == Ignored(kind, items)
    ensures normalized == Total(NormalizationsOf(kind, types), items)
  {
    filtered, ignored, normalized := [], 0, 0;
    for i := 0 to |items|
      invariant filtered == RewriteAll(kind, types, items[..i])
      invariant ignored == if kind == FOLDERS then Count(IsLegacyFolderDoc, items[..i]) else 0
      invariant normalized == Total(NormalizationsOf(kind, types), items[..i])
    {
      CountLast(IsLegacyFolderDoc, items, i);
      OneMoreItem(kind, types, items, i);
      SameNormalizations(kind, items[i], types);
      var item := items[i] - {"state"};
      item := RemoveSSEFromDocument(kind, item);
      item := UpgradeQuery(kind, item);
      if kind == FOLDERS {
        if IsLegacyFolder(StringValue(items[i], "identity")) {
          ignored := ignored + 1;
          continue;
        }
      } else {
        var count;
        item, count := PlaceDocument(kind, item, types);
        normalized := normalized + count;
      }
      assert item == Rewrite(kind, types, items[i]);
      filtered := filtered + [item];
    }
    assert items[..|items|] == items;
  }

  ghost function Ignored(kind: string, items: seq<Doc>): nat {
    if kind == FOLDERS then Count(IsLegacyFolderDoc, items) else 0
  }

  ghost function IgnoredIn(documents: map<string, seq<Doc>>, kinds: set<string>): nat {
    if FOLDERS in documents && FOLDERS in kinds then Ignored(FOLDERS, documents[FOLDERS]) else 0
  }

  /** The sum over the collections does not depend on their order. */
  lemma {:induction false} NormalizedOf(documents: map<string, seq<Doc>>, kinds: set<string>,
      types: map<string, string>, kind: string)
    requires kind in kinds
    ensures NormalizedIn(documents, kinds, types)
         == Total(NormalizationsOf(kind, types), Items(documents, kind)) +
             NormalizedIn(documents, kinds - {kind}, types)
    decreases |kinds|
  {
    var k :| k in kinds && NormalizedIn(documents, kinds, types)
                        == Total(NormalizationsOf(k, types), Items(documents, k)) +
                            NormalizedIn(documents, kinds - {k}, types);
    if k != kind {
      NormalizedOf(documents, kinds - {k}, types, kind);
      NormalizedOf(documents, kinds - {kind}, types, k);
      assert kinds - {k} - {kind} == kinds - {kind} - {k};
    }
  }

  lemma OneMoreCollection(documents: map<string, seq<Doc>>, todo: set<string>, kind: string, types: map<string, string>)
    requires kind in todo && todo <= documents.Keys
    ensures NormalizedIn(documents, documents.Keys - (todo - {kind}), types)
         == NormalizedIn(documents, documents.Keys - todo, types) +
             Total(NormalizationsOf(kind, types), documents[kind])
  {
    NormalizedOf(documents, documents.Keys - (todo - {kind}), types, kind);
    assert documents.Keys - (todo - {kind}) - {kind} == documents.Keys - todo;
  }

  /** `result` is `documents` with every collection outside `todo` rewritten. */
  ghost predicate PartlyRewritten(documents: map<string, seq<Doc>>, types: map<string, string>, todo: set<string>,
      result: map<string, seq<Doc>>)
  {
    && result.Keys == documents.Keys
    && forall kind | kind in documents && kind in result ::
         result[kind] == if kind in todo then documents[kind] else RewriteAll(kind, types, documents[kind])
  }

  lemma IgnoredOneMore(documents: map<string, seq<Doc>>, todo: set<string>, kind: string)
    requires kind in todo && todo <= documents.Keys
    ensures IgnoredIn(documents, documents.Keys - (todo - {kind}))
        == IgnoredIn(documents, documents.Keys - todo) + Ignored(kind, documents[kind])
  {
  }

  /** One turn of the collection loop. */
  method RewriteOneMore(ghost documents: map<string, seq<Doc>>, types: map<string, string>, ghost todo: set<string>,
      kind: string, result: map<string, seq<Doc>>)
    returns (next: map<string, seq<Doc>>, ignored: nat, normalized: nat)
    requires PartlyRewritten(documents, types, todo, result) && kind in todo && todo <= documents.Keys
    ensures PartlyRewritten(documents, types, todo - {kind}, next)
    ensures ignored == Ignored(kind, documents[kind]) &&
        normalized == Total(NormalizationsOf(kind, types), documents[kind])
  {
    var filtered;
    filtered, ignored, normalized := RewriteCollection(kind, result[kind], types);
    next := result[kind := filtered];
  }

  method RewriteCollections(documents: map<string, seq<Doc>>, types: map<string, string>)
    returns (result: map<string, seq<Doc>>, ignored: nat, normalized: nat)
    ensures result.Keys == documents.Keys && forall kind | kind in documents ::
        result[kind] == RewriteAll(kind, types, documents[kind])
    ensures ignored == IgnoredIn(documents, documents.Keys)
    ensures normalized == NormalizedIn(documents, documents.Keys, types)
  {
    result, ignored, normalized := documents, 0, 0;
    var todo := documents.Keys;
    assert documents.Keys - todo == {};
    while todo != {}
      invariant todo <= documents.Keys && PartlyRewritten(documents, types, todo, result)
      invariant ignored == IgnoredIn(documents, documents.Keys - todo)
      invariant normalized == NormalizedIn(documents, documents.Keys - todo, types)
    {
      var kind :| kind in todo;
      OneMoreCollection(documents, todo, kind, types);
      IgnoredOneMore(documents, todo, kind);
      var dropped, count;
      result, dropped, count := RewriteOneMore(documents, types, todo, kind, result);
      ignored, normalized := ignored + dropped, normalized + count;
      todo := todo - {kind};
    }
    assert documents.Keys - todo == documents.Keys;
  }
}
