/**
 What the domain version tells apart: two bundles have one version exactly when the content that
 an import applies is the same.
 */
module VersionContent {
  import opened Wrappers
  import opened Json
  import opened Sequences
  import opened Sorting
  import opened Canonical
  import opened CanonicalForm
  import opened CanonicalOutcomes
  import opened DomainVersion

  /** The workspaces agree in the seven portable fields. */
  predicate SameWorkspace(w: Doc, v: Doc) {
    && SameAt(w, v, "displayName") && SameAt(w, v, "description") && SameAt(w, v, "dataMode")
    && SameAt(w, v, "documentStructure") && SameAt(w, v, "configuration") && SameAt(w, v, "meta")
    && SameAt(w, v, "active")
  }

  /** The documents without their local state. */
  function Stateless(items: seq<Doc>): seq<Doc> { seq(|items|, i requires 0 <= i < |items| => items[i] - {"state"}) }

  /** The bundles hold the same, but for state, order and the fields of the workspace that stay
      where they are. */
  ghost predicate SameContent(b: Bundle, c: Bundle) {
    && b.kind == c.kind && b.schemaVersion == c.schemaVersion && SameWorkspace(b.workspace, c.workspace)
    && b.documents.Keys == c.documents.Keys
    && forall kind | kind in b.documents && kind in c.documents ::
         multiset(Stateless(b.documents[kind])) == multiset(Stateless(c.documents[kind]))
  }

  /** The texts tell the documents of each collection apart. */
  ghost predicate TextsDiffer(text: Doc -> string, b: Bundle, c: Bundle) {
    forall kind | kind in b.documents && kind in c.documents ::
      forall d, e | d in Stateless(b.documents[kind]) && e in Stateless(b.documents[kind]) && text(d) == text(e) ::
          d == e
  }

  lemma WorkspaceExactly(w: Doc, v: Doc)
    ensures PortableWorkspace(w) == PortableWorkspace(v) <==> SameWorkspace(w, v)
  {
    var x, y := PortableWorkspace(w), PortableWorkspace(v);
    forall key | key in PORTABLE_KEYS ensures (SameAt(w, v, key) <==> SameAt(x, y, key)) {}
    if SameWorkspace(w, v) {
      forall key ensures SameAt(x, y, key) { if key in PORTABLE_KEYS { PortableKey(w, v, key); } }
      SameEverywhere(x, y);
    }
    if x == y {
      forall key | key in PORTABLE_KEYS ensures SameAt(w, v, key) { assert SameAt(x, y, key); }
    }
  }

  lemma PortableKey(w: Doc, v: Doc, key: string)
    requires SameWorkspace(w, v) && key in PORTABLE_KEYS
    ensures SameAt(w, v, key)
  {
  }

  lemma StatelessIs(items: seq<Doc>)
    ensures FilterMap(Every, DomainVersion.Stateless, items) == Stateless(items)
  {
    FilterMapAll(Every, DomainVersion.Stateless, items);
  }

  lemma ItemsExactly(kind: string, text: Doc -> string, a: seq<Doc>, b: seq<Doc>)
    requires forall d, e | d in Stateless(a) && e in Stateless(a) && text(d) == text(e) :: d == e
    ensures SortedItems(kind, text, a) == SortedItems(kind, text, b)
        <==> multiset(Stateless(a)) == multiset(Stateless(b))
  {
    StatelessIs(a);
    StatelessIs(b);
    var less := LessOf(kind, text);
    SortElements(less, Stateless(a));
    SortElements(less, Stateless(b));
    if multiset(Stateless(a)) == multiset(Stateless(b)) {
      LessIsStrictTotal(kind, text, HashedOf(a));
      SortPermutes(less, HashedOf(a), Stateless(a), Stateless(b));
    }
  }

  /** Bundles hash alike exactly when their content is the same. */
  lemma PortableExactly(b: Bundle, c: Bundle, text: Doc -> string)
    requires TextsDiffer(text, b, c)
    ensures Portable(b, text) == Portable(c, text) <==> SameContent(b, c)
  {
    var v, w := Portable(b, text), Portable(c, text);
    WorkspaceExactly(b.workspace, c.workspace);
    assert v.documents.Keys == b.documents.Keys && w.documents.Keys == c.documents.Keys;
    forall kind | kind in b.documents && kind in c.documents
      ensures v.documents[kind] == w.documents[kind] <==>
        multiset(Stateless(b.documents[kind])) == multiset(Stateless(c.documents[kind]))
    {
      ItemsExactly(kind, text, b.documents[kind], c.documents[kind]);
    }
    if SameContent(b, c) { SameMap(v.documents, w.documents); }
  }

  /** Two bundles have one domain version exactly when their canonical forms hold the same content.
      The digest is assumed to tell the two apart. */
  lemma VersionsExactly(b: Bundle, c: Bundle, quote: string -> string, text: Doc -> string, digest: Value -> string)
    requires TextsDiffer(text, Canonicalize(b, quote), Canonicalize(c, quote))
    requires digest(Identity(b, quote, text)) == digest(Identity(c, quote, text)) ==>
      Identity(b, quote, text) == Identity(c, quote, text)
    ensures Identity(b, quote, text) == Identity(c, quote, text) <==>
      SameContent(Canonicalize(b, quote), Canonicalize(c, quote))
    ensures Compute(b, quote, text, digest) == Compute(c, quote, text, digest) <==>
      SameContent(Canonicalize(b, quote), Canonicalize(c, quote))
  {
    PortableExactly(Canonicalize(b, quote), Canonicalize(c, quote), text);
    assert Compute(b, quote, text, digest)[|CURRENT_PREFIX|..] == digest(Identity(b, quote, text));
    assert Compute(c, quote, text, digest)[|CURRENT_PREFIX|..] == digest(Identity(c, quote, text));
  }

  /** A declared version of the first format is recomputed in that format, over the bundle as it
      came: it tells apart what the canonical form would make equal. */
  lemma DeclaredLegacy(b: Bundle, c: Bundle, hex: string, quote: string -> string, text: Doc -> string,
      digest: Value -> string)
    requires IsHexDigest(hex) && TextsDiffer(text, b, c)
    requires digest(Portable(b, text)) == digest(Portable(c, text)) ==> Portable(b, text) == Portable(c, text)
    ensures var declared := "dv1:sha256:" + hex;
      var x, y := ComputeForDeclared(b, declared, quote, text, digest),
          ComputeForDeclared(c, declared, quote, text, digest);
      && x.Success? && y.Success? && |x.value| >= 11 && x.value[..11] == "dv1:sha256:"
      && (x.value == y.value <==> SameContent(b, c))
  {
    var declared := LEGACY_PREFIX + hex;
    assert declared[11..] == hex && declared[..11] == LEGACY_PREFIX;
    PortableExactly(b, c, text);
    assert (LEGACY_PREFIX + digest(Portable(b, text)))[11..] == digest(Portable(b, text));
    assert (LEGACY_PREFIX + digest(Portable(c, text)))[11..] == digest(Portable(c, text));
  }

  /** Anything else is refused: another format, another length, or no hexadecimal digits. */
  lemma DeclaredExactly(b: Bundle, declared: string, quote: string -> string, text: Doc -> string,
      digest: Value -> string)
    ensures ComputeForDeclared(b, declared, quote, text, digest).Success? <==>
      && |declared| == 75 && (declared[..11] == "dv1:sha256:" || declared[..11] == "dv2:sha256:")
      && forall i | 11 <= i < 75 ::
           '0' <= declared[i] <= '9' || 'a' <= declared[i] <= 'f' || 'A' <= declared[i] <= 'F'
  {
    if |declared| >= 11 {
      assert forall i | 11 <= i < |declared| :: declared[11..][i - 11] == declared[i];
    }
  }
}
