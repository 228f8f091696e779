/**
 What a compaction keeps of the schema: sections of known versions stay so, and every column
 that fitted its version still does.
 */
module CompactionSchemas {
  import opened Catalog
  import opened Lookups
  import opened SectionBuffers
  import opened Compaction

  // --------------------------------------------------------------------- versions

  predicate KnownNumber(t: Table, version: nat) { exists i :: 0 <= i < |t.versions| && t.versions[i].no == version }

  /** The versions of the rows are those of the sections, as no section is empty. */
  lemma {:induction false} VersionsAre(ss: seq<Section>, version: nat)
    requires SectionsOk(ss)
    ensures version in AllVersions(ss) <==> exists i :: 0 <= i < |ss| && ss[i].version == version
    decreases |ss|
  {
    if ss != [] {
      var n := |ss| - 1;
      VersionsAre(ss[..n], version);
      assert SectionOk(ss[n]);
      var last := Copies(ss[n].version, |ss[n].timestamps|);
      assert last[0] == ss[n].version;
      assert forall i | 0 <= i < n :: ss[..n][i] == ss[i];
    }
  }

  lemma KnownByRows(t: Table, ss: seq<Section>)
    requires SectionsOk(ss)
    ensures AllKnown(t, ss) <==> forall version | version in AllVersions(ss) :: KnownNumber(t, version)
  {
    hide SectionOk, KnownNumber, AllVersions;
    forall i | 0 <= i < |ss| ensures ss[i].version in AllVersions(ss) { VersionsAre(ss, ss[i].version); }
    forall s ensures VersionKnown(t, s) <==> KnownNumber(t, s.version) { SameNumber(t, s); }
    forall version | version in AllVersions(ss) ensures exists i :: 0 <= i < |ss| && ss[i].version == version {
      VersionsAre(ss, version);
    }
  }

  lemma SameNumber(t: Table, s: Section)
    ensures VersionKnown(t, s) <==> KnownNumber(t, s.version)
  {
  }

  /** Rewritten sections are of known versions exactly when the old ones were. */
  lemma KnownKept(t: Table, before: seq<Section>, after: seq<Section>, table: nat)
    requires SectionsOk(before) && SectionsOk(after) && Rewritten(before, after, table)
    ensures AllKnown(t, before) <==> AllKnown(t, after)
  {
    hide SectionOk, SealedFacts, SealedTags, AllRows, AllVersions, Used, Chain;
    KnownByRows(t, before);
    KnownByRows(t, after);
  }

  // ------------------------------------------------------------------------ types

  /** A column is of the type that a version of the schema gives its field. */
  predicate Fits(t: Table, version: nat, c: Column) {
    exists i :: 0 <= i < |t.versions| && t.versions[i].no == version
                && c.field in t.versions[i].fields && t.versions[i].fields[c.field] == c.kind
  }

  predicate SectionFits(t: Table, s: Section) { forall c | c in s.columns :: Fits(t, s.version, c) }

  predicate AllFit(t: Table, ss: seq<Section>) { forall i | 0 <= i < |ss| :: SectionFits(t, ss[i]) }

  lemma {:induction false} TagsOfSection(ss: seq<Section>, i: nat, k: Key, tag: Tagged)
    requires SectionsOk(ss) && i < |ss| && tag in SectionTags(ss[i], k)
    ensures tag in SealedTags(ss, k)
    decreases |ss|
  {
    hide SectionOk, SectionTags;
    if i < |ss| - 1 { TagsOfSection(ss[..|ss| - 1], i, k, tag); }
  }

  // A used column has a fact, and that is tagged with its type and version.
  lemma UsedTag(s: Section, c: nat, table: nat)
    requires SectionOk(s) && Used(s) && c < |s.columns|
    ensures var k := Key(table, s.columns[c].series, s.columns[c].field);
      exists tag :: tag in SectionTags(s, k) && tag.kind == s.columns[c].kind && tag.version == s.version
  {
    hide Picked, Tag;
    var column := s.columns[c];
    ColumnFound(s.columns, c, |s.timestamps|);
    var fs := Picked(s.timestamps, column.cells);
    TagFirst(fs, column.kind, s.version);
    assert SectionTags(s, Key(table, column.series, column.field)) == Tag(fs, column.kind, s.version);
    assert Tag(fs, column.kind, s.version)[0] in Tag(fs, column.kind, s.version);
  }

  /** A rewritten column fits its version if the old columns of its stream did. */
  lemma FitKept(t: Table, before: seq<Section>, after: seq<Section>, table: nat)
    requires SectionsOk(before) && SectionsOk(after) && Rewritten(before, after, table)
    ensures AllFit(t, before) ==> AllFit(t, after)
  {
    hide SectionOk, SealedFacts, SealedTags, SectionTags, AllRows, AllVersions, Used, Chain, Fits, TypedIn;
    forall i, c | 0 <= i < |after| && 0 <= c < |after[i].columns| && AllFit(t, before)
      ensures Fits(t, after[i].version, after[i].columns[c])
    {
      var k := Key(table, after[i].columns[c].series, after[i].columns[c].field);
      UsedTag(after[i], c, table);
      var tag :| tag in SectionTags(after[i], k) && tag.kind == after[i].columns[c].kind
                 && tag.version == after[i].version;
      TagsOfSection(after, i, k, tag);
      TagOrigin(before, k, tag);
      FitsLike(t, before, after[i].version, after[i].columns[c]);
    }
  }

  lemma FitsLike(t: Table, ss: seq<Section>, version: nat, c: Column)
    requires AllFit(t, ss) && TypedIn(ss, version, StreamOf(c), c.kind)
    ensures Fits(t, version, c)
  {
    hide Fits;
    var i :| 0 <= i < |ss| && ss[i].version == version && HasColumn(ss[i].columns, StreamOf(c), c.kind);
    var d :| d in ss[i].columns && StreamOf(d) == StreamOf(c) && d.kind == c.kind;
    assert Fits(t, version, d);
    SameFit(t, version, c, d);
  }

  lemma SameFit(t: Table, version: nat, c: Column, d: Column)
    requires c.field == d.field && c.kind == d.kind
    ensures Fits(t, version, c) <==> Fits(t, version, d)
  {
  }

  // What holds of a list of sections holds of its parts.
  lemma KnownMembers(t: Table, all: seq<Section>, a: seq<Section>, b: seq<Section>)
    requires forall s :: s in all <==> s in a || s in b
    ensures AllKnown(t, all) <==> AllKnown(t, a) && AllKnown(t, b)
    ensures AllFit(t, all) <==> AllFit(t, a) && AllFit(t, b)
  {
    hide VersionKnown, SectionFits;
    KnownEach(t, all);
    KnownEach(t, a);
    KnownEach(t, b);
  }

  lemma KnownEach(t: Table, ss: seq<Section>)
    ensures AllKnown(t, ss) <==> forall s | s in ss :: VersionKnown(t, s)
    ensures AllFit(t, ss) <==> forall s | s in ss :: SectionFits(t, s)
  {
    hide VersionKnown, SectionFits;
    forall i | 0 <= i < |ss| ensures ss[i] in ss { }
  }
}
