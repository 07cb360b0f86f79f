/**
 The domain version of a bundle, up to the hash: the value that is hashed, after
 internal/domain/domainversion/domain_version.go.  `text` stands for the JSON text of a
 document and `digest` for the hexadecimal SHA-256.
 */
module DomainVersion {
  import opened Wrappers
  import opened Json
  import opened Text
  import opened Sequences
  import opened Sorting
  import opened FolderNames
  import opened Canonical
  import opened CanonicalForm

  const CURRENT_PREFIX := "dv2:sha256:"
  const LEGACY_PREFIX := "dv1:sha256:"
  const PORTABLE_KEYS := {"displayName", "description", "dataMode", "documentStructure", "configuration", "meta",
      "active"}

  datatype Value = Value(kind: string, schemaVersion: int, workspace: Doc, documents: map<string, seq<Doc>>)

  function PortableWorkspace(w: Doc): Doc { map key | key in w && key in PORTABLE_KEYS :: w[key] }

  // ---------------------------------------------------------------- order

  /** The comparator of the stable sort. */
  predicate Less(kind: string, text: Doc -> string, a: Doc, b: Doc) {
    if kind == FACET_DOCUMENTS && StringValue(a, "facetIdentity") != StringValue(b, "facetIdentity") then
      StrLess(StringValue(a, "facetIdentity"), StringValue(b, "facetIdentity"))
    else if StringValue(a, "identity") != StringValue(b, "identity") then
      StrLess(StringValue(a, "identity"), StringValue(b, "identity"))
    else StrLess(text(a), text(b))
  }

  /** The documents of `on` have different texts. */
  ghost predicate TellsApart(text: Doc -> string, on: set<Doc>) {
    forall a, b | a in on && b in on :: text(a) == text(b) ==> a == b
  }

  /** Any documents that can occur together can be told apart. */
  lemma {:induction false} SomeTextTellsApart(on: set<Doc>) returns (text: Doc -> string, texts: map<Doc, string>)
    ensures TellsApart(text, on)
    ensures texts.Keys == on && (forall d | d in on :: text(d) == texts[d] && |texts[d]| < |on|)
    decreases |on|
  {
    texts := map[];
    if on != {} {
      var last :| last in on;
      var _, rest := SomeTextTellsApart(on - {last});
      texts := rest[last := seq(|on| - 1, _ => 'x')];
    }
    text := (d: Doc) => if d in texts then texts[d] else "";
  }

  /** The comparator is total on documents with different texts: documents that tie are equal. */
  lemma LessIsTotal(kind: string, text: Doc -> string, a: Doc, b: Doc)
    requires TellsApart(text, {a, b})
    ensures a == b || Less(kind, text, a, b) || Less(kind, text, b, a)
    ensures !(Less(kind, text, a, b) && Less(kind, text, b, a))
    ensures !Less(kind, text, a, a)
  {
    StrTotal(StringValue(a, "facetIdentity"), StringValue(b, "facetIdentity"));
    StrTotal(StringValue(a, "identity"), StringValue(b, "identity"));
    StrTotal(text(a), text(b));
    StrTotal(text(a), text(a));
  }

  lemma LessIsTransitive(kind: string, text: Doc -> string, a: Doc, b: Doc, c: Doc)
    requires Less(kind, text, a, b) && Less(kind, text, b, c)
    ensures Less(kind, text, a, c)
  {
    var fa, fb, fc := StringValue(a, "facetIdentity"), StringValue(b, "facetIdentity"), StringValue(c, "facetIdentity");
    var ia, ib, ic := StringValue(a, "identity"), StringValue(b, "identity"), StringValue(c, "identity");
    StrTotal(fa, fb);
    StrTotal(ia, ib);
    if StrLess(fa, fb) && StrLess(fb, fc) { StrTransitive(fa, fb, fc); StrTotal(fa, fc); }
    if StrLess(ia, ib) && StrLess(ib, ic) { StrTransitive(ia, ib, ic); StrTotal(ia, ic); }
    if StrLess(text(a), text(b)) && StrLess(text(b), text(c)) { StrTransitive(text(a), text(b), text(c)); }
  }

  function LessOf(kind: string, text: Doc -> string): (Doc, Doc) -> bool { (a, b) => Less(kind, text, a, b) }

  lemma LessIsStrictTotal(kind: string, text: Doc -> string, on: set<Doc>)
    requires TellsApart(text, on)
    ensures StrictTotal(LessOf(kind, text), on)
  {
    var less := LessOf(kind, text);
    forall a, b | a in on && b in on ensures (a == b || less(a, b) || less(b, a)) && !(less(a, b) && less(b, a)) {
      LessIsTotal(kind, text, a, b);
    }
    forall a, b, c | less(a, b) && less(b, c) ensures less(a, c) { LessIsTransitive(kind, text, a, b, c); }
  }

  // ---------------------------------------------------------------- value

  function Stateless(d: Doc): Doc { d - {"state"} }

  predicate Every(d: Doc) { true }

  /** One collection of the hashed value. */
  function SortedItems(kind: string, text: Doc -> string, items: seq<Doc>): seq<Doc> {
    Sort(LessOf(kind, text), FilterMap(Every, Stateless, items))
  }

  /** What `compute` hashes. */
  function Portable(b: Bundle, text: Doc -> string): Value {
    Value(b.kind, b.schemaVersion, PortableWorkspace(b.workspace),
          map kind | kind in b.documents :: SortedItems(kind, text, b.documents[kind]))
  }

  /** What the current domain version hashes: the canonical form. */
  function Identity(b: Bundle, quote: string -> string, text: Doc -> string): Value {
    Portable(Canonicalize(b, quote), text)
  }

  function Compute(b: Bundle, quote: string -> string, text: Doc -> string, digest: Value -> string): string {
    CURRENT_PREFIX + digest(Identity(b, quote, text))
  }

  // ---------------------------------------------------------------- declared versions

  predicate IsHexDigest(s: string) {
    |s| == 64 && forall i | 0 <= i < |s| :: '0' <= s[i] <= '9' || 'a' <= s[i] <= 'f' || 'A' <= s[i] <= 'F'
  }

  function ComputeForDeclared(b: Bundle, declared: string, quote: string -> string, text: Doc -> string,
      digest: Value -> string): Result<string, string>
  {
    if !HasPrefix(declared, LEGACY_PREFIX) && !HasPrefix(declared, CURRENT_PREFIX)
        then Failure("unsupported domain version")
    else if |declared[11..]| != 64 then Failure("invalid domain version digest length")
    else if !IsHexDigest(declared[11..]) then Failure("invalid domain version digest")
    else if HasPrefix(declared, LEGACY_PREFIX) then Success(LEGACY_PREFIX + digest(Portable(b, text)))
    else Success(Compute(b, quote, text, digest))
  }

  // ---------------------------------------------------------------- one version for one canonical form

  /** The documents a collection contributes to the hashed value. */
  function HashedOf(items: seq<Doc>): set<Doc> { set d | d in FilterMap(Every, Stateless, items) }

  lemma SortedItemsPermute(kind: string, text: Doc -> string, a: seq<Doc>, b: seq<Doc>)
    requires TellsApart(text, HashedOf(a)) && multiset(a) == multiset(b)
    ensures SortedItems(kind, text, a) == SortedItems(kind, text, b)
  {
    LessIsStrictTotal(kind, text, HashedOf(a));
    FilterMapPermutes(Every, Stateless, a, b);
    SortPermutes(LessOf(kind, text), HashedOf(a), FilterMap(Every, Stateless, a), FilterMap(Every, Stateless, b));
  }

  /** A bundle and its canonical form have one version, whenever one pass settles the bundle. */
  lemma VersionOfCanonicalForm(b: Bundle, quote: string -> string, text: Doc -> string)
    requires BindingsSettled(b.documents, quote)
    ensures Identity(Canonicalize(b, quote), quote, text) == Identity(b, quote, text)
  {
    CanonicalizeSettles(b, quote);
  }

  lemma SortedItemsHave(kind: string, text: Doc -> string, items: seq<Doc>, x: Doc)
    ensures x in SortedItems(kind, text, items) <==> x in FilterMap(Every, Stateless, items)
  {
    SortElements(LessOf(kind, text), FilterMap(Every, Stateless, items));
    SameMembers(SortedItems(kind, text, items), FilterMap(Every, Stateless, items));
  }

  /** Some document of the bindings still names their root. */
  ghost predicate NamesRoot(v: Value) {
    BINDINGS in v.documents && exists i | 0 <= i < |v.documents[BINDINGS]| ::
        StringValue(v.documents[BINDINGS][i], "folderIdentity") == "root-bindings"
  }

  lemma ItemsNameRoot(b: Bundle, quote: string -> string, text: Doc -> string)
    ensures var once := CanonicalDocuments(b.documents, quote);
      NamesRoot(Identity(b, quote, text)) <==>
        BINDINGS in once && exists i | 0 <= i < |once[BINDINGS]| ::
            StringValue(once[BINDINGS][i], "folderIdentity") == "root-bindings"
  {
    var once := CanonicalDocuments(b.documents, quote);
    var v := Identity(b, quote, text);
    assert v.documents.Keys == once.Keys;
    if BINDINGS in once {
      assert v.documents[BINDINGS] == SortedItems(BINDINGS, text, once[BINDINGS]);
      SortedNamesRoot(once[BINDINGS], text);
    }
  }

  lemma SortedNamesRoot(items: seq<Doc>, text: Doc -> string)
    ensures (exists i | 0 <= i < |items| :: StringValue(items[i], "folderIdentity") == "root-bindings")
       <==> exists j | 0 <= j < |SortedItems(BINDINGS, text, items)| ::
           StringValue(SortedItems(BINDINGS, text, items)[j], "folderIdentity") == "root-bindings"
  {
    var sorted := SortedItems(BINDINGS, text, items);
    var plain := FilterMap(Every, Stateless, items);
    if i :| 0 <= i < |items| && StringValue(items[i], "folderIdentity") == "root-bindings" {
      var k := FilterMapInto(Every, Stateless, items, i);
      SortedItemsHave(BINDINGS, text, items, plain[k]);
      var j: nat :| j < |sorted| && sorted[j] == plain[k];
    }
    if j :| 0 <= j < |sorted| && StringValue(sorted[j], "folderIdentity") == "root-bindings" {
      SortedItemsHave(BINDINGS, text, items, sorted[j]);
      var k: nat :| k < |plain| && plain[k] == sorted[j];
      var i := FilterMapFrom(Every, Stateless, items, k);
      assert StringValue(items[i], "folderIdentity") == "root-bindings";
    }
  }

  lemma RerootedNamesRoot(b: Bundle, i: nat, quote: string -> string, text: Doc -> string)
    requires i < |Items(b.documents, BINDINGS)| &&
        IsRerooted(BINDINGS, TypesOf(b.documents, quote), Items(b.documents, BINDINGS)[i])
    ensures NamesRoot(Identity(b, quote, text))
  {
    BindingsInPlace(b.documents, quote);
    ReferenceWritten(TypesOf(b.documents, quote), b.documents[BINDINGS][i]);
    ItemsNameRoot(b, quote, text);
  }

  lemma SecondNamesNoRoot(b: Bundle, quote: string -> string, text: Doc -> string)
    requires BINDINGS in b.documents
    ensures !NamesRoot(Identity(Canonicalize(b, quote), quote, text))
  {
    var once := CanonicalDocuments(b.documents, quote);
    BindingsInPlace(b.documents, quote);
    BindingsInPlace(once, quote);
    SecondTypes(b.documents, quote);
    forall i | 0 <= i < |once[BINDINGS]|
      ensures StringValue(CanonicalDocuments(once, quote)[BINDINGS][i], "folderIdentity") != "root-bindings"
    {
      SecondReference(TypesOf(b.documents, quote), TypesOf(once, quote), b.documents[BINDINGS][i]);
    }
    ItemsNameRoot(Canonicalize(b, quote), quote, text);
  }

  lemma SecondReference(types: map<string, string>, settled: map<string, string>, d: Doc)
    requires Settles(types, settled)
    ensures StringValue(Rewrite(BINDINGS, settled, Rewrite(BINDINGS, types, d)), "folderIdentity") != "root-bindings"
  {
    var x := Rewrite(BINDINGS, types, d);
    RewrittenBinding(types, settled, d);
    if StringValue(x, "folderIdentity") == "root-bindings" {
      ReferenceDropped(settled, x);
    } else {
      ReferenceStays(settled, x);
    }
  }

  lemma ReferenceStays(types: map<string, string>, d: Doc)
    requires !IsRerooted(BINDINGS, types, d) && StringValue(d, "folderIdentity") != "root-bindings"
    ensures StringValue(Rewrite(BINDINGS, types, d), "folderIdentity") != "root-bindings"
  {
    assert FolderReference(BINDINGS, d - {"state"}) == FolderReference(BINDINGS, d) == StringValue(d, "folderIdentity");
  }

  /** A bundle and its canonical form have one version exactly when one pass settles it. */
  lemma OneVersionExactly(b: Bundle, quote: string -> string, text: Doc -> string)
    ensures Identity(Canonicalize(b, quote), quote, text) == Identity(b, quote, text)
        <==> BindingsSettled(b.documents, quote)
  {
    if BindingsSettled(b.documents, quote) {
      VersionOfCanonicalForm(b, quote, text);
    } else {
      var i: nat :| i < |Items(b.documents, BINDINGS)| &&
          IsRerooted(BINDINGS, TypesOf(b.documents, quote), Items(b.documents, BINDINGS)[i]);
      RerootedNamesRoot(b, i, quote, text);
      SecondNamesNoRoot(b, quote, text);
    }
  }

  /** From the first canonical form on the version no longer changes. */
  lemma VersionIsStable(b: Bundle, quote: string -> string, text: Doc -> string)
    ensures var once := Canonicalize(b, quote);
      Identity(Canonicalize(once, quote), quote, text) == Identity(once, quote, text)
  {
    TwoPassesSettle(b, quote);
  }

  // ---------------------------------------------------------------- what the version ignores

  /** Folders of one identity agree on their type. */
  ghost predicate FoldersAgree(folders: seq<Doc>) {
    forall f, g | f in folders && g in folders && StringValue(f, "identity") == StringValue(g, "identity") ::
      StringValue(f, "entityType") == StringValue(g, "entityType")
  }

  lemma {:induction false} AgreedTypes(folders: seq<Doc>)
    requires FoldersAgree(folders)
    ensures FolderTypes(folders).Keys == set f | f in folders :: StringValue(f, "identity")
    ensures forall f | f in folders :: FolderTypes(folders)[StringValue(f, "identity")] == StringValue(f, "entityType")
  {
    if folders != [] {
      var n := |folders| - 1;
      assert folders == folders[..n] + [folders[n]];
      AgreedTypes(folders[..n]);
    }
  }

  lemma TypesForgetOrder(a: seq<Doc>, b: seq<Doc>)
    requires multiset(a) == multiset(b) && FoldersAgree(a)
    ensures FolderTypes(a) == FolderTypes(b)
  {
    SameMembers(a, b);
    AgreedTypes(a);
    AgreedTypes(b);
    forall i | i in FolderTypes(a) ensures i in FolderTypes(b) && FolderTypes(a)[i] == FolderTypes(b)[i] {
      var f :| f in a && StringValue(f, "identity") == i;
      assert f in b;
    }
  }

  /** The same bundle with the documents of each collection in another order. */
  ghost predicate Reordered(b: Bundle, c: Bundle) {
    && b.kind == c.kind && b.schemaVersion == c.schemaVersion && b.workspace == c.workspace
    && b.documents.Keys == c.documents.Keys
    && (forall kind | kind in b.documents :: multiset(b.documents[kind]) == multiset(c.documents[kind]))
  }

  function Preparer(kind: string, quote: string -> string): Doc -> Doc { (d: Doc) => Prepare(kind, d, quote) }

  lemma PrepareAllIs(kind: string, items: seq<Doc>, quote: string -> string)
    ensures PrepareAll(kind, items, quote) == FilterMap(Every, Preparer(kind, quote), items)
  {
    FilterMapAll(Every, Preparer(kind, quote), items);
  }

  lemma PreparedForgetsOrder(b: Bundle, c: Bundle, kind: string, quote: string -> string)
    requires Reordered(b, c)
    ensures multiset(Prepared(b.documents, kind, quote)) == multiset(Prepared(c.documents, kind, quote))
  {
    assert multiset(Items(b.documents, kind)) == multiset(Items(c.documents, kind));
    assert multiset(Items(b.documents, LEGACY_COMPONENTS)) == multiset(Items(c.documents, LEGACY_COMPONENTS));
    var x, y := Merged(b.documents, kind), Merged(c.documents, kind);
    assert multiset(x) == multiset(y);
    PrepareAllIs(kind, x, quote);
    PrepareAllIs(kind, y, quote);
    FilterMapPermutes(Every, Preparer(kind, quote), x, y);
    RootForgetsOrder(Items(b.documents, FOLDERS), Items(c.documents, FOLDERS));
  }

  lemma RootForgetsOrder(a: seq<Doc>, b: seq<Doc>)
    requires multiset(a) == multiset(b) || a == b
    ensures HasWorkspaceRoot(a) <==> HasWorkspaceRoot(b)
  {
    SameMembers(a, b);
    if HasWorkspaceRoot(a) {
      var i :| 0 <= i < |a| && StringValue(a[i], "identity") == WORKSPACE_ROOT;
      assert a[i] in b;
    }
    if HasWorkspaceRoot(b) {
      var i :| 0 <= i < |b| && StringValue(b[i], "identity") == WORKSPACE_ROOT;
      assert b[i] in a;
    }
  }

  lemma CollectionForgetsOrder(b: Bundle, c: Bundle, kind: string, quote: string -> string, text: Doc -> string)
    requires Reordered(b, c) && FoldersAgree(Prepared(b.documents, FOLDERS, quote))
    requires TellsApart(text, HashedOf(CanonicalItems(b.documents, kind, quote)))
    ensures SortedItems(kind, text, CanonicalItems(b.documents, kind, quote))
        == SortedItems(kind, text, CanonicalItems(c.documents, kind, quote))
  {
    PreparedForgetsOrder(b, c, FOLDERS, quote);
    TypesForgetOrder(Prepared(b.documents, FOLDERS, quote), Prepared(c.documents, FOLDERS, quote));
    var types := TypesOf(b.documents, quote);
    PreparedForgetsOrder(b, c, kind, quote);
    FilterMapPermutes(Keeps(kind), Pass(kind, types), Prepared(b.documents, kind, quote),
        Prepared(c.documents, kind, quote));
    SortedItemsPermute(kind, text, CanonicalItems(b.documents, kind, quote), CanonicalItems(c.documents, kind, quote));
  }

  /** The version does not depend on the order of documents within a collection. */
  lemma VersionForgetsOrder(b: Bundle, c: Bundle, quote: string -> string, text: Doc -> string)
    requires Reordered(b, c) && FoldersAgree(Prepared(b.documents, FOLDERS, quote))
    requires forall kind | kind in CanonicalDocuments(b.documents, quote) ::
        TellsApart(text, HashedOf(CanonicalItems(b.documents, kind, quote)))
    ensures Identity(b, quote, text) == Identity(c, quote, text)
  {
    var x, y := Identity(b, quote, text), Identity(c, quote, text);
    forall kind | kind in x.documents ensures x.documents[kind] == y.documents[kind] {
      CollectionForgetsOrder(b, c, kind, quote, text);
    }
    SameMap(x.documents, y.documents);
  }

  /** Every bundle has texts that meet the premise. */
  lemma SomeTextOrders(b: Bundle, quote: string -> string) returns (text: Doc -> string)
    ensures forall kind | kind in CanonicalDocuments(b.documents, quote) ::
        TellsApart(text, HashedOf(CanonicalItems(b.documents, kind, quote)))
  {
    var once := CanonicalDocuments(b.documents, quote);
    var texts;
    text, texts := SomeTextTellsApart(set kind, d | kind in once &&
        d in HashedOf(CanonicalItems(b.documents, kind, quote)) :: d);
  }

  /** Workspace keys outside the portable ones do not reach the version. */
  lemma VersionForgetsLocalWorkspace(b: Bundle, w: Doc, quote: string -> string, text: Doc -> string)
    requires PortableWorkspace(b.workspace) == PortableWorkspace(w)
    ensures Identity(b, quote, text) == Identity(b.(workspace := w), quote, text)
  {
    var x, y := CanonicalWorkspace(b.workspace), CanonicalWorkspace(w);
    forall key | key in PORTABLE_KEYS ensures (key in x <==> key in y) && (key in x ==> x[key] == y[key]) {
      PortableKey(b.workspace, key);
      PortableKey(w, key);
      assert key in b.workspace <==> key in PortableWorkspace(b.workspace);
      assert key in w <==> key in PortableWorkspace(w);
    }
    assert PortableWorkspace(x) == PortableWorkspace(y);
  }

  /** What canonicalization makes of one portable workspace key. */
  lemma PortableKey(w: Doc, key: string)
    requires key in PORTABLE_KEYS
    ensures var x := CanonicalWorkspace(w);
      && (key in x <==> key in w || key == "documentStructure")
      && (key in w ==> x[key] == if key == "configuration" then EnsureEditingDefaults(RemoveLegacySSE(w[key]))
          else w[key])
      && (key !in w && key == "documentStructure" ==> x[key] == Str("frontend"))
  {
  }

  /** The bundle without the `state` entries of its documents. */
  function WithoutState(b: Bundle): Bundle {
    b.(documents := map kind | kind in b.documents :: FilterMap(Every, Stateless, b.documents[kind]))
  }

  lemma PrepareForgetsState(kind: string, d: Doc, quote: string -> string)
    ensures Prepare(kind, Stateless(d), quote) == Stateless(Prepare(kind, d, quote))
  {
    if kind == ACTIONS { MigrateForgetsState(d, quote); }
    else if kind == VOCABS { MigrateForgetsState(d, quote); }
    else if kind == FOLDERS { FolderForgetsState(d); }
  }

  lemma MigrateForgetsState(d: Doc, quote: string -> string)
    ensures MigrateAction(Stateless(d)) == Stateless(MigrateAction(d))
    ensures MigrateVocab(Stateless(d), quote) == Stateless(MigrateVocab(d, quote))
  {
    ActionForgetsState(d);
    VocabForgetsState(d, quote);
  }

  lemma ActionForgetsState(d: Doc)
    ensures MigrateAction(Stateless(d)) == Stateless(MigrateAction(d))
  {
    assert StringValue(Stateless(d), "source") == StringValue(d, "source");
    UpdateForgetsState(d - {"definition", "input", "output"}, "source", Str(DEFAULT_ACTION_SOURCE));
    UpdateForgetsState((d - {"definition", "input", "output"})["source" := Str(DEFAULT_ACTION_SOURCE)],
        "sourceVersion", Num(1.0));
    assert Stateless(d) - {"definition", "input", "output"} == Stateless(d - {"definition", "input", "output"});
  }

  lemma VocabForgetsState(d: Doc, quote: string -> string)
    ensures MigrateVocab(Stateless(d), quote) == Stateless(MigrateVocab(d, quote))
  {
    SameSource(d, quote);
    UpdateForgetsState(d, "source", Str(VocabSource(d, quote)));
    UpdateForgetsState(d["source" := Str(VocabSource(d, quote))], "sourceVersion", Num(1.0));
  }

  lemma SameSource(d: Doc, quote: string -> string)
    ensures VocabSource(Stateless(d), quote) == VocabSource(d, quote) && IsLegacyVocab(Stateless(d)) == IsLegacyVocab(d)
  {
    SameValue(d, "baseApiUrl");
    SameValue(d, "collectionSlug");
    SameValue(d, "identity");
    SameValue(d, "authMode");
    SameValue(d, "authProfileIdentity");
    SameValue(d, "source");
    SameValue(d, "mode");
  }

  lemma SameValue(d: Doc, key: string)
    requires key != "state"
    ensures StringValue(Stateless(d), key) == StringValue(d, key)
  {
  }

  lemma UpdateForgetsState(d: Doc, key: string, value: Json)
    requires key != "state"
    ensures Stateless(d)[key := value] == Stateless(d[key := value])
    ensures Default(Stateless(d), key, value) == Stateless(Default(d, key, value))
  {
  }

  lemma FolderForgetsState(d: Doc)
    ensures DefaultFolder(Stateless(d)) == Stateless(DefaultFolder(d))
  {
    UpdateForgetsState(d, "scope", Str("collection"));
    var d1 := Default(d, "scope", Str("collection"));
    UpdateForgetsState(d1, "icon", Null);
    var d2 := Default(d1, "icon", Null);
    UpdateForgetsState(d2, "color", Null);
    var d3 := Default(d2, "color", Null);
    UpdateForgetsState(d3, "entityType", Str(FolderEntityType(StringValue(d3, "entityType"))));
    var d4 := if StringValue(d3, "entityType") == "" then d3
        else d3["entityType" := Str(FolderEntityType(StringValue(d3, "entityType")))];
    UpdateForgetsState(d4, "parentIdentity", Str(RootFolderIdentity("streams")));
  }

  lemma RewriteForgetsState(kind: string, types: map<string, string>, d: Doc)
    ensures Rewrite(kind, types, Stateless(d)) == Rewrite(kind, types, d) && Kept(kind, Stateless(d)) == Kept(kind, d)
  {
    assert Stateless(d) - {"state"} == d - {"state"};
  }

  lemma {:induction false} PassForgetsState(kind: string, types: map<string, string>, items: seq<Doc>)
    ensures RewriteAll(kind, types, FilterMap(Every, Stateless, items)) == RewriteAll(kind, types, items)
  {
    if items != [] {
      PassForgetsState(kind, types, items[1..]);
      RewriteForgetsState(kind, types, items[0]);
    }
  }

  lemma {:induction false} TypesForgetState(folders: seq<Doc>)
    ensures FolderTypes(FilterMap(Every, Stateless, folders)) == FolderTypes(folders)
  {
    if folders != [] {
      var n := |folders| - 1;
      assert folders == folders[..n] + [folders[n]];
      TypesForgetState(folders[..n]);
      FilterMapLast(Every, Stateless, folders[..n], folders[n]);
      FolderTypesLast(FilterMap(Every, Stateless, folders[..n]), Stateless(folders[n]));
      SameValue(folders[n], "identity");
      SameValue(folders[n], "entityType");
    }
  }

  lemma MergedForgetsState(b: Bundle, kind: string)
    ensures Items(WithoutState(b).documents, kind) == FilterMap(Every, Stateless, Items(b.documents, kind))
    ensures Merged(WithoutState(b).documents, kind) == FilterMap(Every, Stateless, Merged(b.documents, kind))
  {
    FilterMapSplits(Every, Stateless, Items(b.documents, kind), if kind == COMPONENTS
        then Items(b.documents, LEGACY_COMPONENTS) else []);
  }

  lemma {:induction false} PrepareAllForgetsState(kind: string, items: seq<Doc>, quote: string -> string)
    ensures PrepareAll(kind, FilterMap(Every, Stateless, items), quote)
        == FilterMap(Every, Stateless, PrepareAll(kind, items, quote))
  {
    var prepared := PrepareAll(kind, items, quote);
    FilterMapAll(Every, Stateless, items);
    FilterMapAll(Every, Stateless, prepared);
    forall i | 0 <= i < |items| ensures Prepare(kind, Stateless(items[i]), quote) == Stateless(prepared[i]) {
      PrepareForgetsState(kind, items[i], quote);
    }
  }

  lemma PreparedForgetsState(b: Bundle, kind: string, quote: string -> string)
    ensures Prepared(WithoutState(b).documents, kind, quote)
        == FilterMap(Every, Stateless, Prepared(b.documents, kind, quote))
  {
    MergedForgetsState(b, kind);
    MergedForgetsState(b, FOLDERS);
    PrepareAllForgetsState(kind, Merged(b.documents, kind), quote);
    RootForgetsState(Items(b.documents, FOLDERS));
    var root := if kind == FOLDERS && !HasWorkspaceRoot(Items(b.documents, FOLDERS)) then [WORKSPACE_ROOT_FOLDER]
        else [];
    FilterMapSplits(Every, Stateless, PrepareAll(kind, Merged(b.documents, kind), quote), root);
    RootFolderForgetsState();
  }

  lemma RootFolderForgetsState()
    ensures FilterMap(Every, Stateless, [WORKSPACE_ROOT_FOLDER]) == [WORKSPACE_ROOT_FOLDER]
  {
    assert "state" !in WORKSPACE_ROOT_FOLDER;
    assert Stateless(WORKSPACE_ROOT_FOLDER) == WORKSPACE_ROOT_FOLDER;
    FilterMapFixed(Every, Stateless, [WORKSPACE_ROOT_FOLDER]);
  }

  lemma RootForgetsState(folders: seq<Doc>)
    ensures HasWorkspaceRoot(FilterMap(Every, Stateless, folders)) <==> HasWorkspaceRoot(folders)
  {
    FilterMapAll(Every, Stateless, folders);
    forall i | 0 <= i < |folders| ensures StringValue(FilterMap(Every, Stateless, folders)[i], "identity")
        == StringValue(folders[i], "identity")
    {
      SameValue(folders[i], "identity");
    }
    if HasWorkspaceRoot(folders) {
      var i :| 0 <= i < |folders| && StringValue(folders[i], "identity") == WORKSPACE_ROOT;
      assert StringValue(FilterMap(Every, Stateless, folders)[i], "identity") == WORKSPACE_ROOT;
    }
  }

  /** The `state` entries of documents reach neither the canonical form nor the version. */
  lemma VersionForgetsState(b: Bundle, quote: string -> string, text: Doc -> string)
    ensures Canonicalize(WithoutState(b), quote) == Canonicalize(b, quote)
    ensures Identity(WithoutState(b), quote, text) == Identity(b, quote, text)
  {
    var x, y := CanonicalDocuments(WithoutState(b).documents, quote), CanonicalDocuments(b.documents, quote);
    assert WithoutState(b).documents.Keys == b.documents.Keys;
    PreparedForgetsState(b, FOLDERS, quote);
    TypesForgetState(Prepared(b.documents, FOLDERS, quote));
    forall kind | kind in x ensures x[kind] == y[kind] {
      PreparedForgetsState(b, kind, quote);
      PassForgetsState(kind, TypesOf(b.documents, quote), Prepared(b.documents, kind, quote));
    }
    SameMap(x, y);
  }

  // ---------------------------------------------------------------- export and import

  /** A declared version of the current format is recomputed, never the legacy one. */
  lemma DeclaredCurrent(b: Bundle, hex: string, quote: string -> string, text: Doc -> string, digest: Value -> string)
    requires IsHexDigest(hex)
    ensures ComputeForDeclared(b, CURRENT_PREFIX + hex, quote, text, digest) == Success(Compute(b, quote, text, digest))
  {
    var declared := CURRENT_PREFIX + hex;
    assert declared[11..] == hex && declared[..11] == CURRENT_PREFIX;
    assert CURRENT_PREFIX[2] == '2' && LEGACY_PREFIX[2] == '1' && declared[..11][2] == '2';
  }

  /** A bundle exported by Attach carries the version that an import verifies, and attaching
      again after the import gives the same version. */
  lemma AttachedVersionVerifies(b: Bundle, quote: string -> string, text: Doc -> string, digest: Value -> string)
    requires forall v :: IsHexDigest(digest(v))
    ensures var exported := Canonicalize(b, quote); var version := Compute(exported, quote, text, digest);
      && ComputeForDeclared(exported, version, quote, text, digest) == Success(version)
      && Compute(Canonicalize(exported, quote), quote, text, digest) == version
  {
    var exported := Canonicalize(b, quote);
    VersionIsStable(b, quote, text);
    DeclaredCurrent(exported, digest(Identity(exported, quote, text)), quote, text, digest);
  }
}
