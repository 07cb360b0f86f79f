/**
 Canonicalization settles in one pass, except for a collection named "bindings": its own
 root identity is one of the detached legacy identities, so a reference rewritten to it is
 removed by the next pass.
 */
module CanonicalForm {
  import opened Text
  import opened Json
  import opened FolderNames
  import opened Canonical
  import opened Sequences

  const BINDINGS := "bindings"

  // ---------------------------------------------------------------- one document

  /** `settled` is what a later pass knows about folder types: nothing but legacy folders
      is forgotten. */
  ghost predicate Settles(types: map<string, string>, settled: map<string, string>) {
    && settled.Keys <= types.Keys
    && (forall i | i in settled :: settled[i] == types[i])
  }

  /** The document refers to a root, or to a folder of another section's type; its reference
      belongs at the root of its own section. */
  ghost predicate IsRerooted(kind: string, types: map<string, string>, d: Doc) {
    var reference := StringValue(d, "folderIdentity");
    && reference != "" && reference != "no-folder" && reference != "root-bindings"
    && ((|reference| >= 5 && reference[..5] == "root-")
        || (reference in types && types[reference] != if kind == "streams" then "queries" else kind))
  }

  lemma RootIsNotDetached(kind: string)
    requires kind != BINDINGS
    ensures !IsDetached(RootFolderIdentity(kind))
  {
    var root := RootFolderIdentity(kind);
    assert root[5..] == FolderEntityType(kind) && "root-bindings"[5..] == BINDINGS;
    assert root[0] == 'r' && "no-folder"[0] == 'n';
  }

  lemma RootHasPrefix(kind: string)
    ensures HasPrefix(RootFolderIdentity(kind), "root-") && RootFolderIdentity(kind) != ""
  {
  }

  lemma StreamsRoot()
    ensures RootFolderIdentity("streams") == "root-queries" != "root-streams"
  {
    assert "root-queries"[5] == 'q' && "root-streams"[5] == 's';
  }

  /** A document whose reference is already final is left alone. */
  lemma FinalReference(kind: string, d: Doc, types: map<string, string>)
    requires FolderReference(kind, d) == StringValue(d, "folderIdentity") && !IsDetached(FolderReference(kind, d))
    requires FolderReference(kind, d) == RootFolderIdentity(kind) || !IsMisplaced(kind, FolderReference(kind, d), types)
    ensures NormalizeFolderReference(kind, d, types) == d
  {
    RootHasPrefix(kind);
    if IsMisplaced(kind, FolderReference(kind, d), types) {
      assert d["folderIdentity" := Str(RootFolderIdentity(kind))] == d;
    }
  }

  lemma StreamReference(kind: string, d: Doc)
    ensures kind == "streams" ==> FolderReference(kind, d) != "root-streams"
    ensures FolderReference(kind, d["folderIdentity" := Str(FolderReference(kind, d))]) == FolderReference(kind, d)
    ensures FolderReference(kind, d["folderIdentity" := Str(RootFolderIdentity(kind))]) == RootFolderIdentity(kind)
  {
    StreamsRoot();
  }

  lemma ReferenceSettles(kind: string, d: Doc, types: map<string, string>, settled: map<string, string>)
    requires Settles(types, settled)
    requires kind == BINDINGS ==> !IsRerooted(kind, types, d)
    ensures var d1 := NormalizeFolderReference(kind, d, types); NormalizeFolderReference(kind, d1, settled) == d1
  {
    var identity := FolderReference(kind, d);
    var d1 := NormalizeFolderReference(kind, d, types);
    StreamReference(kind, d);
    if IsDetached(identity) {
      assert StringValue(d1, "folderIdentity") == "" && !IsDetached("");
      FinalReference(kind, d1, settled);
    } else if IsMisplaced(kind, identity, types) {
      RootIsNotDetached(kind);
      assert d1 == d["folderIdentity" := Str(RootFolderIdentity(kind))];
      FinalReference(kind, d1, settled);
    } else {
      assert StringValue(d1, "folderIdentity") == identity && FolderReference(kind, d1) == identity;
      FinalReference(kind, d1, settled);
    }
  }

  lemma SSESettles(kind: string, d: Doc)
    ensures RemoveSSEFromDocument(kind, RemoveSSEFromDocument(kind, d)) == RemoveSSEFromDocument(kind, d)
  {
    var d1 := RemoveSSEFromDocument(kind, d);
    if kind == FACET_DOCUMENTS && "configuration" in d && d["configuration"].Obj? {
      var c := d1["configuration"].fields;
      assert c - {"sse"} == c;
      if "patch" in c { PartSettles(d["configuration"].fields["patch"]); }
      if "value" in c { PartSettles(d["configuration"].fields["value"]); }
      assert RemoveSSEFromDocument(kind, d1)["configuration"].fields == c;
    }
  }

  lemma PartSettles(v: Json)
    ensures RemoveLegacySSE(RemoveLegacySSE(v)) == RemoveLegacySSE(v)
  {
    if v.Obj? { assert v.fields - {"sse"} - {"sse"} == v.fields - {"sse"}; }
  }

  /** The keys the collection pass reads or writes, outside the facet documents' configuration. */
  lemma RewriteSettles(kind: string, d: Doc, types: map<string, string>, settled: map<string, string>)
    requires Settles(types, settled)
    requires kind == BINDINGS ==> !IsRerooted(kind, types, d)
    ensures var d1 := Rewrite(kind, types, d); Rewrite(kind, settled, d1) == d1
  {
    var d0 := d - {"state"};
    var a := RemoveSSEFromDocument(kind, d0);
    var u := UpgradeQuery(kind, a);
    SSESettles(kind, d0);
    assert UpgradeQuery(kind, u) == u && RemoveSSEFromDocument(kind, u) == u && "state" !in u;
    if kind != FOLDERS {
      assert FolderReference(kind, u) == FolderReference(kind, d);
      var n := NormalizeFolderReference(kind, u, types);
      ReferenceSettles(kind, u, types, settled);
      WorkspaceFolderSettles(kind, n, types, settled, u);
    } else {
      assert u - {"state"} == u;
    }
  }

  lemma WorkspaceFolderSettles(kind: string, n: Doc, types: map<string, string>, settled: map<string, string>, u: Doc)
    requires kind != FOLDERS && n == NormalizeFolderReference(kind, u, types) &&
        NormalizeFolderReference(kind, n, settled) == n
    requires UpgradeQuery(kind, u) == u && RemoveSSEFromDocument(kind, u) == u && "state" !in u
    ensures var d1 := DefaultWorkspaceFolder(kind, n); Rewrite(kind, settled, d1) == d1
  {
    var d1 := DefaultWorkspaceFolder(kind, n);
    assert forall k | k != "folderIdentity" && k != "workspaceFolderIdentity" ::
        (k in d1 <==> k in u) && (k in d1 ==> d1[k] == u[k]);
    assert d1 - {"state"} == d1;
    SameSSE(kind, u, d1);
    assert UpgradeQuery(kind, d1) == d1;
    assert StringValue(d1, "folderIdentity") == StringValue(n, "folderIdentity");
    assert !IsSpace(WORKSPACE_ROOT[0]) && !Blank(WORKSPACE_ROOT);
    NormalizeFrame(kind, n, d1, settled);
    assert DefaultWorkspaceFolder(kind, d1) == d1;
  }

  lemma SameSSE(kind: string, u: Doc, d: Doc)
    requires RemoveSSEFromDocument(kind, u) == u
    requires ("configuration" in d <==> "configuration" in u) &&
        ("configuration" in d ==> d["configuration"] == u["configuration"])
    ensures RemoveSSEFromDocument(kind, d) == d
  {
    if kind == FACET_DOCUMENTS && "configuration" in d && d["configuration"].Obj? {
      assert RemoveSSEFromDocument(kind, d)["configuration"] == RemoveSSEFromDocument(kind, u)["configuration"];
      assert d["configuration" := d["configuration"]] == d;
    }
  }

  lemma NormalizeFrame(kind: string, n: Doc, d: Doc, types: map<string, string>)
    requires NormalizeFolderReference(kind, n, types) == n
    requires ("folderIdentity" in d <==> "folderIdentity" in n) &&
        ("folderIdentity" in d ==> d["folderIdentity"] == n["folderIdentity"])
    ensures NormalizeFolderReference(kind, d, types) == d
  {
    var identity := FolderReference(kind, n);
    assert FolderReference(kind, d) == identity && StringValue(d, "folderIdentity") == StringValue(n, "folderIdentity");
    if !IsDetached(identity) && IsMisplaced(kind, identity, types) {
      assert d["folderIdentity" := Str(RootFolderIdentity(kind))] == d;
    }
  }

  // ---------------------------------------------------------------- the earlier loops

  const REWRITTEN := {"state", "configuration", "sourceVersion", "folderIdentity", "workspaceFolderIdentity"}

  lemma RewriteFrame(kind: string, types: map<string, string>, d: Doc, key: string)
    requires key !in REWRITTEN
    ensures var d1 := Rewrite(kind, types, d); (key in d1 <==> key in d) && (key in d1 ==> d1[key] == d[key])
    ensures StringValue(Rewrite(kind, types, d), key) == StringValue(d, key)
  {
  }

  lemma VocabSourceIsWritten(d: Doc, quote: string -> string)
    ensures !Blank(VocabSource(d, quote))
  {
    var k := |VOCAB_HEAD| - 2;
    assert VocabSource(d, quote)[k] == VOCAB_HEAD[k] == ':';
  }

  lemma PrepareIsDone(kind: string, d: Doc, quote: string -> string)
    requires kind == ACTIONS ==> !IsLegacyAction(d)
    requires kind == VOCABS ==> !IsLegacyVocab(d)
    requires kind == FOLDERS ==> DefaultFolder(d) == d
    ensures Prepare(kind, d, quote) == d
  {
  }

  lemma MigratedAction(d: Doc)
    ensures !IsLegacyAction(MigrateAction(d))
  {
    assert DEFAULT_ACTION_SOURCE[|DEFAULT_ACTION_SOURCE| - 2] == ')';
    assert IsLegacyAction(d) ==> StringValue(MigrateAction(d), "source") == DEFAULT_ACTION_SOURCE;
  }

  lemma MigratedVocab(d: Doc, quote: string -> string)
    ensures !IsLegacyVocab(MigrateVocab(d, quote))
  {
    VocabSourceIsWritten(d, quote);
    assert IsLegacyVocab(d) ==> StringValue(MigrateVocab(d, quote), "source") == VocabSource(d, quote);
  }

  lemma PrepareSettles(kind: string, d: Doc, types: map<string, string>, quote: string -> string)
    ensures var d1 := Rewrite(kind, types, Prepare(kind, d, quote)); Prepare(kind, d1, quote) == d1
  {
    var p := Prepare(kind, d, quote);
    var d1 := Rewrite(kind, types, p);
    RewriteFrame(kind, types, p, "source");
    RewriteFrame(kind, types, p, "mode");
    MigratedAction(d);
    MigratedVocab(d, quote);
    if kind == FOLDERS {
      DefaultFolderSettles(d);
      FolderRewrite(types, p);
      DefaultFolderFrame(p, d1);
    }
    PrepareIsDone(kind, d1, quote);
  }

  lemma FolderRewrite(types: map<string, string>, d: Doc)
    ensures Rewrite(FOLDERS, types, d) == d - {"state"}
  {
  }

  lemma DefaultFolderSettles(d: Doc)
    ensures DefaultFolder(DefaultFolder(d)) == DefaultFolder(d)
  {
    StreamsRoot();
    var d1 := DefaultFolder(d);
    var t := StringValue(d1, "entityType");
    if t != "" {
      assert FolderEntityType(t) == t;
      assert d1["entityType" := Str(t)] == d1;
    }
  }

  lemma DefaultFolderFrame(p: Doc, d: Doc)
    requires DefaultFolder(p) == p && d == p - {"state"}
    ensures DefaultFolder(d) == d
  {
    var t := StringValue(p, "entityType");
    assert StringValue(d, "entityType") == t && StringValue(d, "parentIdentity") == StringValue(p, "parentIdentity");
    assert "scope" in p && "icon" in p && "color" in p;
    StreamsRoot();
    if t != "" { assert p["entityType"] == Str(FolderEntityType(t)); assert d["entityType" := Str(t)] == d; }
  }

  // ---------------------------------------------------------------- collections

  /** Every document of `items` survives another pass unchanged. */
  ghost predicate AllSettled(kind: string, settled: map<string, string>, items: seq<Doc>, quote: string -> string) {
    forall i | 0 <= i < |items| ::
      Kept(kind, items[i]) && Rewrite(kind, settled, items[i]) == items[i] && Prepare(kind, items[i], quote) == items[i]
  }

  lemma SettledPass(kind: string, settled: map<string, string>, items: seq<Doc>, quote: string -> string)
    requires AllSettled(kind, settled, items, quote)
    ensures RewriteAll(kind, settled, items) == items && PrepareAll(kind, items, quote) == items
  {
    FilterMapFixed(Keeps(kind), Pass(kind, settled), items);
  }

  const LEGACY_FOLDERS := {"soft-deleted", "no-folder", "root-bindings", "root-streams"}

  lemma FolderTypesLast(folders: seq<Doc>, x: Doc)
    ensures FolderTypes(folders + [x])
        == FolderTypes(folders)[StringValue(x, "identity") := StringValue(x, "entityType")]
  {
    assert (folders + [x])[..|folders|] == folders;
  }

  /** The folder types a second pass sees: all but those of the dropped legacy folders. */
  lemma {:induction false} FolderTypesSettle(types: map<string, string>, folders: seq<Doc>)
    ensures FolderTypes(RewriteAll(FOLDERS, types, folders)) == FolderTypes(folders) - LEGACY_FOLDERS
  {
    if folders != [] {
      var n := |folders| - 1;
      FolderTypesSettle(types, folders[..n]);
      RewriteLastFolder(types, folders[..n], folders[n]);
      FolderRewrite(types, folders[n]);
      OneMoreFolder(RewriteAll(FOLDERS, types, folders[..n]), folders[..n], folders[n], folders[n] - {"state"});
      assert folders == folders[..n] + [folders[n]];
    }
  }

  lemma RewriteLastFolder(types: map<string, string>, folders: seq<Doc>, last: Doc)
    ensures var head := RewriteAll(FOLDERS, types, folders);
      RewriteAll(FOLDERS, types, folders + [last]) == if Kept(FOLDERS, last) then head + [last - {"state"}] else head
  {
    FilterMapLast(Keeps(FOLDERS), Pass(FOLDERS, types), folders, last);
    FolderRewrite(types, last);
  }

  lemma OneMoreFolder(settled: seq<Doc>, folders: seq<Doc>, last: Doc, x: Doc)
    requires FolderTypes(settled) == FolderTypes(folders) - LEGACY_FOLDERS
    requires StringValue(x, "identity") == StringValue(last, "identity") &&
        StringValue(x, "entityType") == StringValue(last, "entityType")
    ensures FolderTypes(if Kept(FOLDERS, last) then settled + [x] else settled)
        == FolderTypes(folders + [last]) - LEGACY_FOLDERS
  {
    FolderTypesLast(folders, last);
    assert Kept(FOLDERS, last) <==> StringValue(last, "identity") !in LEGACY_FOLDERS;
    if Kept(FOLDERS, last) { FolderTypesLast(settled, x); }
  }

  // ---------------------------------------------------------------- bundle

  /** No document of a "bindings" collection has its folder reference moved to the root. */
  ghost predicate BindingsSettled(documents: map<string, seq<Doc>>, quote: string -> string) {
    forall i | 0 <= i < |Items(documents, BINDINGS)| ::
      !IsRerooted(BINDINGS, TypesOf(documents, quote), Items(documents, BINDINGS)[i])
  }

  lemma CanonicalItemsSettle(documents: map<string, seq<Doc>>, kind: string, settled: map<string, string>,
      quote: string -> string)
    requires Settles(TypesOf(documents, quote), settled)
    requires kind == BINDINGS ==> BindingsSettled(documents, quote)
    ensures AllSettled(kind, settled, CanonicalItems(documents, kind, quote), quote)
  {
    var types := TypesOf(documents, quote);
    var items := Prepared(documents, kind, quote);
    forall j | 0 <= j < |CanonicalItems(documents, kind, quote)|
      ensures var x := CanonicalItems(documents, kind, quote)[j];
        Kept(kind, x) && Rewrite(kind, settled, x) == x && Prepare(kind, x, quote) == x
    {
      var i := FilterMapFrom(Keeps(kind), Pass(kind, types), items, j);
      PreparedSettles(documents, kind, i, settled, quote);
    }
  }

  lemma PreparedSettles(documents: map<string, seq<Doc>>, kind: string, i: nat, settled: map<string, string>,
      quote: string -> string)
    requires Settles(TypesOf(documents, quote), settled) && (kind == BINDINGS ==> BindingsSettled(documents, quote))
    requires i < |Prepared(documents, kind, quote)| && Kept(kind, Prepared(documents, kind, quote)[i])
    ensures var x := Rewrite(kind, TypesOf(documents, quote), Prepared(documents, kind, quote)[i]);
      Kept(kind, x) && Rewrite(kind, settled, x) == x && Prepare(kind, x, quote) == x
  {
    if kind == BINDINGS { PreparedBinding(documents, i, quote); }
    var d := PreparedFrom(documents, kind, i, quote);
    PreparedSettle(kind, d, TypesOf(documents, quote), settled, quote);
  }

  lemma PreparedSettle(kind: string, d: Doc, types: map<string, string>, settled: map<string, string>,
      quote: string -> string)
    requires Settles(types, settled) && Kept(kind, Prepare(kind, d, quote))
    requires kind == BINDINGS ==> !IsRerooted(kind, types, Prepare(kind, d, quote))
    ensures var x := Rewrite(kind, types, Prepare(kind, d, quote));
      Kept(kind, x) && Rewrite(kind, settled, x) == x && Prepare(kind, x, quote) == x
  {
    RewriteSettles(kind, Prepare(kind, d, quote), types, settled);
    RewriteFrame(kind, types, Prepare(kind, d, quote), "identity");
    PrepareSettles(kind, d, types, quote);
  }

  lemma PreparedBinding(documents: map<string, seq<Doc>>, i: nat, quote: string -> string)
    requires BindingsSettled(documents, quote) && i < |Prepared(documents, BINDINGS, quote)|
    ensures !IsRerooted(BINDINGS, TypesOf(documents, quote), Prepared(documents, BINDINGS, quote)[i])
  {
    assert Prepared(documents, BINDINGS, quote) == Items(documents, BINDINGS);
  }

  lemma PreparedFrom(documents: map<string, seq<Doc>>, kind: string, i: nat, quote: string -> string) returns (d: Doc)
    requires i < |Prepared(documents, kind, quote)|
    ensures Prepared(documents, kind, quote)[i] == Prepare(kind, d, quote)
  {
    if i < |Merged(documents, kind)| {
      d := Merged(documents, kind)[i];
    } else {
      assert DefaultFolder(WORKSPACE_ROOT_FOLDER) == WORKSPACE_ROOT_FOLDER;
      d := WORKSPACE_ROOT_FOLDER;
    }
  }

  lemma PreparedRoot(documents: map<string, seq<Doc>>, quote: string -> string) returns (i: nat)
    ensures i < |Prepared(documents, FOLDERS, quote)| &&
        StringValue(Prepared(documents, FOLDERS, quote)[i], "identity") == WORKSPACE_ROOT
  {
    var folders := Items(documents, FOLDERS);
    assert Merged(documents, FOLDERS) == folders;
    if HasWorkspaceRoot(folders) {
      i :| i < |folders| && StringValue(folders[i], "identity") == WORKSPACE_ROOT;
      DefaultFolderIdentity(folders[i]);
    } else {
      i := |folders|;
    }
  }

  lemma DefaultFolderIdentity(d: Doc)
    ensures StringValue(DefaultFolder(d), "identity") == StringValue(d, "identity")
  {
  }

  lemma RootSurvives(documents: map<string, seq<Doc>>, quote: string -> string)
    ensures HasWorkspaceRoot(CanonicalItems(documents, FOLDERS, quote))
  {
    var types := TypesOf(documents, quote);
    var items := Prepared(documents, FOLDERS, quote);
    var i := PreparedRoot(documents, quote);
    RootIsKept();
    RootThrough(types, items, i);
  }

  lemma RootThrough(types: map<string, string>, items: seq<Doc>, i: nat)
    requires i < |items| && StringValue(items[i], "identity") == WORKSPACE_ROOT && !IsLegacyFolder(WORKSPACE_ROOT)
    ensures HasWorkspaceRoot(RewriteAll(FOLDERS, types, items))
  {
    var j := FilterMapInto(Keeps(FOLDERS), Pass(FOLDERS, types), items, i);
    FolderRewrite(types, items[i]);
    assert StringValue(RewriteAll(FOLDERS, types, items)[j], "identity") == WORKSPACE_ROOT;
  }

  lemma RootIsKept()
    ensures !IsLegacyFolder(WORKSPACE_ROOT)
  {
    assert WORKSPACE_ROOT[5] == 'w' && "soft-deleted"[5] == 'd' && "no-folder"[5] == 'l' &&
        "root-bindings"[5] == 'b' && "root-streams"[5] == 's';
  }

  /** The folder types the second pass sees, and the collections it starts from. */
  lemma SecondPass(documents: map<string, seq<Doc>>, kind: string, quote: string -> string)
    requires BindingsSettled(documents, quote) && kind in CanonicalKinds(documents.Keys)
    ensures CanonicalItems(CanonicalDocuments(documents, quote), kind, quote) == CanonicalItems(documents, kind, quote)
  {
    var documents1 := CanonicalDocuments(documents, quote);
    var settled := TypesOf(documents, quote) - LEGACY_FOLDERS;
    CanonicalItemsSettle(documents, kind, settled, quote);
    SettledPass(kind, settled, CanonicalItems(documents, kind, quote), quote);
    SecondTypes(documents, quote);
    SecondPrepared(documents, kind, quote);
  }

  lemma KindNames()
    ensures ACTIONS !in {CONFIGURATIONS, FACETS, FACET_DOCUMENTS, FOLDERS, COMPONENTS, LEGACY_COMPONENTS, VOCABS}
    ensures VOCABS !in {CONFIGURATIONS, FACETS, FACET_DOCUMENTS, FOLDERS, COMPONENTS, LEGACY_COMPONENTS, ACTIONS}
    ensures FOLDERS !in {COMPONENTS, CONFIGURATIONS, FACETS, FACET_DOCUMENTS}
    ensures COMPONENTS !in {CONFIGURATIONS, FACETS, FACET_DOCUMENTS}
    ensures LEGACY_COMPONENTS !in {CONFIGURATIONS, FACETS, FACET_DOCUMENTS, FOLDERS, COMPONENTS}
  {
    assert |LEGACY_COMPONENTS| == 13 && |CONFIGURATIONS| == 14 && |FACETS| == 6 && |FACET_DOCUMENTS| == 15 &&
        |FOLDERS| == 7 && |COMPONENTS| == 10 && |ACTIONS| == 7 && |VOCABS| == 6;
    assert ACTIONS[0] != FOLDERS[0] && VOCABS[0] != FACETS[0];
  }

  lemma SecondMerged(documents: map<string, seq<Doc>>, kind: string, quote: string -> string)
    requires kind in CanonicalKinds(documents.Keys)
    ensures Merged(CanonicalDocuments(documents, quote), kind) == CanonicalItems(documents, kind, quote)
    ensures Items(CanonicalDocuments(documents, quote), kind) == CanonicalItems(documents, kind, quote)
  {
    KindNames();
    assert LEGACY_COMPONENTS !in CanonicalKinds(documents.Keys);
    assert CanonicalItems(documents, kind, quote) + [] == CanonicalItems(documents, kind, quote);
  }

  lemma SecondPrepared(documents: map<string, seq<Doc>>, kind: string, quote: string -> string)
    requires kind in CanonicalKinds(documents.Keys) &&
        PrepareAll(kind, CanonicalItems(documents, kind, quote), quote) == CanonicalItems(documents, kind, quote)
    ensures Prepared(CanonicalDocuments(documents, quote), kind, quote) == CanonicalItems(documents, kind, quote)
  {
    SecondMerged(documents, kind, quote);
    if kind == FOLDERS { RootSurvives(documents, quote); }
    assert CanonicalItems(documents, kind, quote) + [] == CanonicalItems(documents, kind, quote);
  }

  lemma SecondTypes(documents: map<string, seq<Doc>>, quote: string -> string)
    ensures TypesOf(CanonicalDocuments(documents, quote), quote) == TypesOf(documents, quote) - LEGACY_FOLDERS
  {
    var settled := TypesOf(documents, quote) - LEGACY_FOLDERS;
    assert FOLDERS[0] != BINDINGS[0];
    CanonicalItemsSettle(documents, FOLDERS, settled, quote);
    SettledPass(FOLDERS, settled, CanonicalItems(documents, FOLDERS, quote), quote);
    SecondPrepared(documents, FOLDERS, quote);
    FolderTypesSettle(TypesOf(documents, quote), Prepared(documents, FOLDERS, quote));
  }

  lemma KindsSettle(kinds: set<string>)
    ensures CanonicalKinds(CanonicalKinds(kinds)) == CanonicalKinds(kinds)
  {
    KindNames();
  }

  lemma WorkspaceSettles(w: Doc)
    ensures CanonicalWorkspace(CanonicalWorkspace(w)) == CanonicalWorkspace(w)
  {
    var w1 := CanonicalWorkspace(w);
    assert w1 - {"state"} == w1;
    if "configuration" in w {
      ConfigurationSettles(w["configuration"]);
      assert w1["configuration" := w1["configuration"]] == w1;
    }
  }

  lemma ConfigurationSettles(v: Json)
    ensures var c := EnsureEditingDefaults(RemoveLegacySSE(v)); EnsureEditingDefaults(RemoveLegacySSE(c)) == c
  {
    var c := EnsureEditingDefaults(RemoveLegacySSE(v));
    if c.Obj? {
      var editing := c.fields["sfcEditing"].fields;
      assert c.fields - {"sse"} == c.fields;
      assert EDITING_DEFAULTS + editing == editing;
      assert c.fields["sfcEditing" := Obj(editing)] == c.fields;
    }
  }

  lemma CanonicalKind(documents: map<string, seq<Doc>>, kind: string, quote: string -> string)
    requires kind in CanonicalKinds(documents.Keys)
    ensures CanonicalDocuments(documents, quote)[kind] == CanonicalItems(documents, kind, quote)
  {
  }

  lemma KeysSettle(documents: map<string, seq<Doc>>, quote: string -> string)
    ensures CanonicalDocuments(CanonicalDocuments(documents, quote), quote).Keys
        == CanonicalDocuments(documents, quote).Keys
  {
    KindsSettle(documents.Keys);
  }

  lemma KindSettles(documents: map<string, seq<Doc>>, kind: string, quote: string -> string)
    requires BindingsSettled(documents, quote)
    requires kind in CanonicalDocuments(documents, quote) &&
        kind in CanonicalDocuments(CanonicalDocuments(documents, quote), quote)
    ensures CanonicalDocuments(CanonicalDocuments(documents, quote), quote)[kind]
        == CanonicalDocuments(documents, quote)[kind]
  {
    SecondPass(documents, kind, quote);
    CanonicalKind(documents, kind, quote);
    CanonicalKind(CanonicalDocuments(documents, quote), kind, quote);
  }

  lemma DocumentsSettle(documents: map<string, seq<Doc>>, quote: string -> string)
    requires BindingsSettled(documents, quote)
    ensures CanonicalDocuments(CanonicalDocuments(documents, quote), quote) == CanonicalDocuments(documents, quote)
  {
    var once := CanonicalDocuments(documents, quote);
    var twice := CanonicalDocuments(once, quote);
    KeysSettle(documents, quote);
    forall kind | kind in once ensures twice[kind] == once[kind] { KindSettles(documents, kind, quote); }
    SameMap(twice, once);
  }

  /** One pass is enough, whenever no binding is re-rooted. */
  lemma CanonicalizeSettles(b: Bundle, quote: string -> string)
    requires BindingsSettled(b.documents, quote)
    ensures Canonicalize(Canonicalize(b, quote), quote) == Canonicalize(b, quote)
  {
    WorkspaceSettles(b.workspace);
    DocumentsSettle(b.documents, quote);
  }

  /** A re-rooted binding loses its folder reference in the second pass. */
  lemma ReferenceIsLost(b: Bundle, i: nat, quote: string -> string)
    requires i < |Items(b.documents, BINDINGS)| &&
        IsRerooted(BINDINGS, TypesOf(b.documents, quote), Items(b.documents, BINDINGS)[i])
    ensures Canonicalize(Canonicalize(b, quote), quote) != Canonicalize(b, quote)
  {
    var once := CanonicalDocuments(b.documents, quote);
    var twice := CanonicalDocuments(once, quote);
    BindingsInPlace(b.documents, quote);
    BindingsInPlace(once, quote);
    var d := Items(b.documents, BINDINGS)[i];
    assert d == b.documents[BINDINGS][i] && once[BINDINGS][i] == Rewrite(BINDINGS, TypesOf(b.documents, quote), d);
    ReferenceWritten(TypesOf(b.documents, quote), d);
    ReferenceDropped(TypesOf(once, quote), once[BINDINGS][i]);
    assert "folderIdentity" in once[BINDINGS][i] && "folderIdentity" !in twice[BINDINGS][i];
  }

  lemma ReferenceWritten(types: map<string, string>, d: Doc)
    requires IsRerooted(BINDINGS, types, d)
    ensures StringValue(Rewrite(BINDINGS, types, d), "folderIdentity") == "root-bindings"
  {
    assert FolderReference(BINDINGS, d - {"state"}) == FolderReference(BINDINGS, d);
  }

  lemma ReferenceDropped(types: map<string, string>, d: Doc)
    requires StringValue(d, "folderIdentity") == "root-bindings"
    ensures "folderIdentity" !in Rewrite(BINDINGS, types, d)
  {
    assert FolderReference(BINDINGS, d - {"state"}) == "root-bindings";
  }

  /** Bindings are rewritten position by position. */
  lemma BindingsInPlace(documents: map<string, seq<Doc>>, quote: string -> string)
    requires BINDINGS in documents
    ensures var once := CanonicalDocuments(documents, quote);
      && BINDINGS in once && |once[BINDINGS]| == |documents[BINDINGS]|
      && (forall i | 0 <= i < |documents[BINDINGS]| ::
            once[BINDINGS][i] == Rewrite(BINDINGS, TypesOf(documents, quote), documents[BINDINGS][i]))
  {
    BindingsUnprepared(documents, quote);
    FilterMapAll(Keeps(BINDINGS), Pass(BINDINGS, TypesOf(documents, quote)), documents[BINDINGS]);
  }

  lemma BindingsUnprepared(documents: map<string, seq<Doc>>, quote: string -> string)
    requires BINDINGS in documents
    ensures Prepared(documents, BINDINGS, quote) == documents[BINDINGS]
  {
    assert Merged(documents, BINDINGS) == documents[BINDINGS];
  }

  /** Exactly the bundles without a re-rooted binding are settled by one pass. */
  lemma SettlesExactly(b: Bundle, quote: string -> string)
    ensures Canonicalize(Canonicalize(b, quote), quote) == Canonicalize(b, quote)
        <==> BindingsSettled(b.documents, quote)
  {
    if BindingsSettled(b.documents, quote) {
      CanonicalizeSettles(b, quote);
    } else {
      var i: nat :| i < |Items(b.documents, BINDINGS)| &&
          IsRerooted(BINDINGS, TypesOf(b.documents, quote), Items(b.documents, BINDINGS)[i]);
      ReferenceIsLost(b, i, quote);
    }
  }

  /** The smallest bundle that one pass does not settle. */
  lemma OnePassIsNotEnough(quote: string -> string)
    ensures var b := Bundle("", 1, map[], map[BINDINGS := [map["folderIdentity" := Str("root-types")]]]);
      Canonicalize(Canonicalize(b, quote), quote) != Canonicalize(b, quote)
  {
    var d: Doc := map["folderIdentity" := Str("root-types")];
    var b := Bundle("", 1, map[], map[BINDINGS := [d]]);
    assert HasPrefix("root-types", "root-") && "root-types"[5] == 't' && "root-bindings"[5] == 'b' &&
        RootFolderIdentity(BINDINGS)[5] == 'b' && "no-folder"[0] == 'n';
    assert IsRerooted(BINDINGS, TypesOf(b.documents, quote), Items(b.documents, BINDINGS)[0]);
    ReferenceIsLost(b, 0, quote);
  }

  lemma RewrittenBinding(types: map<string, string>, settled: map<string, string>, d: Doc)
    requires Settles(types, settled)
    ensures !IsRerooted(BINDINGS, settled, Rewrite(BINDINGS, types, d))
  {
    var u := UpgradeQuery(BINDINGS, RemoveSSEFromDocument(BINDINGS, d - {"state"}));
    var x := Rewrite(BINDINGS, types, d);
    assert FolderReference(BINDINGS, x) == StringValue(NormalizeFolderReference(BINDINGS, u, types), "folderIdentity");
    assert RootFolderIdentity(BINDINGS) == "root-bindings";
  }

  /** Whatever the bundle, the second pass settles it. */
  lemma TwoPassesSettle(b: Bundle, quote: string -> string)
    ensures BindingsSettled(Canonicalize(b, quote).documents, quote)
    ensures var twice := Canonicalize(Canonicalize(b, quote), quote); Canonicalize(twice, quote) == twice
  {
    var once := CanonicalDocuments(b.documents, quote);
    SecondTypes(b.documents, quote);
    forall i | 0 <= i < |Items(once, BINDINGS)|
      ensures !IsRerooted(BINDINGS, TypesOf(once, quote), Items(once, BINDINGS)[i])
    {
      if BINDINGS in b.documents {
        BindingsInPlace(b.documents, quote);
        RewrittenBinding(TypesOf(b.documents, quote), TypesOf(once, quote), b.documents[BINDINGS][i]);
      } else {
        BindingsAbsent(b.documents.Keys);
      }
    }
    CanonicalizeSettles(Canonicalize(b, quote), quote);
  }

  lemma BindingsAbsent(kinds: set<string>)
    requires BINDINGS !in kinds
    ensures BINDINGS !in CanonicalKinds(kinds)
  {
    assert BINDINGS[0] == 'b' && CONFIGURATIONS[0] == 'c' && FACETS[0] == 'f' && FACET_DOCUMENTS[0] == 'f' &&
        FOLDERS[0] == 'f' && COMPONENTS[0] == 'c';
  }

  // ---------------------------------------------------------------- shape

  /** A reference of the canonical form: none, the own root, or a folder outside the root
      names that is not known to hold another type. */
  ghost predicate WellPlaced(kind: string, identity: string, types: map<string, string>) {
    || identity == "" || identity == RootFolderIdentity(kind)
    || (!IsDetached(identity) && !HasPrefix(identity, "root-") &&
        (identity in types ==> types[identity] == FolderEntityType(kind)))
  }

  ghost predicate HasNoSSE(v: Json) { v.Obj? ==> "sse" !in v.fields }

  /** What holds of every document of the canonical form. */
  ghost predicate Clean(kind: string, d: Doc, types: map<string, string>) {
    && "state" !in d
    && (kind == "queries" ==> IntegerValue(d, "sourceVersion") != 1)
    && (kind == FACET_DOCUMENTS && "configuration" in d && d["configuration"].Obj? ==>
          var c := d["configuration"].fields;
          "sse" !in c && ("patch" in c ==> HasNoSSE(c["patch"])) && ("value" in c ==> HasNoSSE(c["value"])))
    && (kind == FOLDERS ==> !IsLegacyFolder(StringValue(d, "identity")) && "scope" in d && "icon" in d && "color" in d
                            && StringValue(d, "parentIdentity") != "root-streams" &&
                                StringValue(d, "entityType") != "streams")
    && (kind == ACTIONS ==> !Blank(StringValue(d, "source")))
    && (kind == VOCABS ==> !IsLegacyVocab(d))
    && (kind != FOLDERS ==> WellPlaced(kind, StringValue(d, "folderIdentity"), types))
    && (kind != FOLDERS && !IsFacetKind(kind) ==> !Blank(StringValue(d, "workspaceFolderIdentity")))
  }

  lemma ReferenceIsWellPlaced(kind: string, d: Doc, types: map<string, string>)
    ensures WellPlaced(kind, StringValue(NormalizeFolderReference(kind, d, types), "folderIdentity"), types)
  {
  }

  lemma PassIsClean(kind: string, d: Doc, types: map<string, string>)
    ensures var x := Rewrite(kind, types, d);
      && "state" !in x
      && (kind == "queries" ==> IntegerValue(x, "sourceVersion") != 1)
      && (kind != FOLDERS ==> WellPlaced(kind, StringValue(x, "folderIdentity"), types))
      && (kind != FOLDERS && !IsFacetKind(kind) ==> !Blank(StringValue(x, "workspaceFolderIdentity")))
  {
    var u := UpgradeQuery(kind, RemoveSSEFromDocument(kind, d - {"state"}));
    ReferenceIsWellPlaced(kind, u, types);
    assert WORKSPACE_ROOT[0] == 'r';
  }

  lemma PassRemovesSSE(d: Doc, types: map<string, string>)
    ensures var x := Rewrite(FACET_DOCUMENTS, types, d);
      "configuration" in x && x["configuration"].Obj? ==>
        var c := x["configuration"].fields;
        "sse" !in c && ("patch" in c ==> HasNoSSE(c["patch"])) && ("value" in c ==> HasNoSSE(c["value"]))
  {
  }

  lemma FolderIsClean(d: Doc, types: map<string, string>)
    ensures var x := Rewrite(FOLDERS, types, DefaultFolder(d));
      "scope" in x && "icon" in x && "color" in x && StringValue(x, "parentIdentity") != "root-streams" &&
          StringValue(x, "entityType") != "streams"
  {
    FolderRewrite(types, DefaultFolder(d));
    StreamsRoot();
    assert FolderEntityType(StringValue(d, "entityType")) != "streams" by {
      assert "queries"[0] == 'q' && "streams"[0] == 's';
    }
  }

  lemma DocumentIsClean(kind: string, d: Doc, types: map<string, string>, quote: string -> string)
    requires Kept(kind, Prepare(kind, d, quote))
    ensures Clean(kind, Rewrite(kind, types, Prepare(kind, d, quote)), types)
  {
    var p := Prepare(kind, d, quote);
    PassIsClean(kind, p, types);
    if kind == FACET_DOCUMENTS { PassRemovesSSE(p, types); }
    else if kind == FOLDERS { FolderIsClean(d, types); RewriteFrame(kind, types, p, "identity"); }
    else if kind == ACTIONS { MigratedAction(d); RewriteFrame(kind, types, p, "source"); }
    else if kind == VOCABS {
      MigratedVocab(d, quote);
      RewriteFrame(kind, types, p, "source");
      RewriteFrame(kind, types, p, "mode");
    }
  }

  lemma ItemIsClean(documents: map<string, seq<Doc>>, kind: string, j: nat, quote: string -> string)
    requires j < |CanonicalItems(documents, kind, quote)|
    ensures Clean(kind, CanonicalItems(documents, kind, quote)[j], TypesOf(documents, quote))
  {
    var types := TypesOf(documents, quote);
    var i := FilterMapFrom(Keeps(kind), Pass(kind, types), Prepared(documents, kind, quote), j);
    var d := PreparedFrom(documents, kind, i, quote);
    DocumentIsClean(kind, d, types, quote);
  }

  ghost predicate AllClean(kind: string, items: seq<Doc>, types: map<string, string>) {
    forall j | 0 <= j < |items| :: Clean(kind, items[j], types)
  }

  lemma CollectionIsClean(documents: map<string, seq<Doc>>, kind: string, quote: string -> string)
    requires kind in CanonicalKinds(documents.Keys)
    ensures AllClean(kind, CanonicalDocuments(documents, quote)[kind], TypesOf(documents, quote))
  {
    forall j | 0 <= j < |CanonicalItems(documents, kind, quote)|
      ensures Clean(kind, CanonicalItems(documents, kind, quote)[j], TypesOf(documents, quote))
    {
      ItemIsClean(documents, kind, j, quote);
    }
  }

  /** Every document of the canonical form is clean. */
  lemma CanonicalIsClean(b: Bundle, quote: string -> string)
    ensures forall kind | kind in Canonicalize(b, quote).documents ::
        AllClean(kind, Canonicalize(b, quote).documents[kind], TypesOf(b.documents, quote))
  {
    forall kind | kind in Canonicalize(b, quote).documents
      ensures AllClean(kind, Canonicalize(b, quote).documents[kind], TypesOf(b.documents, quote))
    {
      CollectionIsClean(b.documents, kind, quote);
    }
  }

  /** Legacy components are merged and the workspace root is there. */
  lemma CanonicalIsComplete(b: Bundle, quote: string -> string)
    ensures LEGACY_COMPONENTS !in Canonicalize(b, quote).documents
    ensures HasWorkspaceRoot(Items(Canonicalize(b, quote).documents, FOLDERS))
  {
    LegacyComponentsAreGone(b.documents.Keys);
    RootSurvives(b.documents, quote);
  }

  lemma LegacyComponentsAreGone(kinds: set<string>)
    ensures LEGACY_COMPONENTS !in CanonicalKinds(kinds)
  {
    KindNames();
  }
}
