/**
 The size of the built-in catalogue. Its five parts are separate map
 displays, so a key listed in two of them would silently lose an entry in
 the union; the parts are shown to have pairwise disjoint keys.
 */
module CatalogueSize {
  import opened Attributes
  import opened Catalogue

  lemma Seed8To10Size()
    ensures |Seed8To10| == 7
  {
  }

  lemma Seed11To13Size()
    ensures |Seed11To13| == 9
  {
  }

  lemma Seed14To16Size()
    ensures |Seed14To16| == 8
  {
  }

  lemma Seed17To19Size()
    ensures |Seed17To19| == 10
  {
  }

  lemma Seed20To26Size()
    ensures |Seed20To26| == 9
  {
  }

  lemma Seed8To10Disjoint11To13()
    ensures Seed8To10.Keys !! Seed11To13.Keys
  {
  }

  lemma Seed8To10Disjoint14To16()
    ensures Seed8To10.Keys !! Seed14To16.Keys
  {
  }

  lemma Seed8To10Disjoint17To19()
    ensures Seed8To10.Keys !! Seed17To19.Keys
  {
  }

  lemma Seed8To10Disjoint20To26()
    ensures Seed8To10.Keys !! Seed20To26.Keys
  {
  }

  lemma Seed11To13Disjoint14To16()
    ensures Seed11To13.Keys !! Seed14To16.Keys
  {
  }

  lemma Seed11To13Disjoint17To19()
    ensures Seed11To13.Keys !! Seed17To19.Keys
  {
  }

  lemma Seed11To13Disjoint20To26()
    ensures Seed11To13.Keys !! Seed20To26.Keys
  {
  }

  lemma Seed14To16Disjoint17To19()
    ensures Seed14To16.Keys !! Seed17To19.Keys
  {
  }

  lemma Seed14To16Disjoint20To26()
    ensures Seed14To16.Keys !! Seed20To26.Keys
  {
  }

  lemma Seed17To19Disjoint20To26()
    ensures Seed17To19.Keys !! Seed20To26.Keys
  {
  }

  /** A union of maps with disjoint keys loses no entry. */
  lemma DisjointUnion(p: Registry, q: Registry)
    requires p.Keys !! q.Keys
    ensures (p + q).Keys == p.Keys + q.Keys
    ensures |p + q| == |p| + |q|
  {
    assert |(p + q).Keys| == |p.Keys| + |q.Keys|;
  }

  lemma DisjointFromUnion(x: set<AttrID>, y: set<AttrID>, z: set<AttrID>)
    requires x !! z && y !! z
    ensures (x + y) !! z
  {
  }

  /** The union of five maps with pairwise disjoint keys loses no entry. */
  lemma DisjointUnion5(a: Registry, b: Registry, c: Registry, d: Registry, e: Registry)
    requires a.Keys !! b.Keys && a.Keys !! c.Keys && a.Keys !! d.Keys && a.Keys !! e.Keys
    requires b.Keys !! c.Keys && b.Keys !! d.Keys && b.Keys !! e.Keys
    requires c.Keys !! d.Keys && c.Keys !! e.Keys && d.Keys !! e.Keys
    ensures |a + b + c + d + e| == |a| + |b| + |c| + |d| + |e|
  {
    DisjointUnion(a, b);
    DisjointFromUnion(a.Keys, b.Keys, c.Keys);
    DisjointUnion(a + b, c);
    DisjointFromUnion(a.Keys, b.Keys, d.Keys);
    DisjointFromUnion(a.Keys + b.Keys, c.Keys, d.Keys);
    DisjointUnion(a + b + c, d);
    DisjointFromUnion(a.Keys, b.Keys, e.Keys);
    DisjointFromUnion(a.Keys + b.Keys, c.Keys, e.Keys);
    DisjointFromUnion(a.Keys + b.Keys + c.Keys, d.Keys, e.Keys);
    DisjointUnion(a + b + c + d, e);
  }

  /** No two parts share a key, so the catalogue holds all 43 entries. */
  lemma SeedSize()
    ensures |AttributesRef| == 43
  {
    Seed8To10Size();
    Seed11To13Size();
    Seed14To16Size();
    Seed17To19Size();
    Seed20To26Size();
    Seed8To10Disjoint11To13();
    Seed8To10Disjoint14To16();
    Seed8To10Disjoint17To19();
    Seed8To10Disjoint20To26();
    Seed11To13Disjoint14To16();
    Seed11To13Disjoint17To19();
    Seed11To13Disjoint20To26();
    Seed14To16Disjoint17To19();
    Seed14To16Disjoint20To26();
    Seed17To19Disjoint20To26();
    DisjointUnion5(Seed8To10, Seed11To13, Seed14To16, Seed17To19, Seed20To26);
  }
}
