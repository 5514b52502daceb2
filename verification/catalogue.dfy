/**
 The built-in attribute catalogue and the package initialisation that derives
 the two indexes from it.

 The catalogue is one constant map. It is written here as the union of five
 displays that partition the entries by the length of their names, each in
 the order the entries are declared. Names of different lengths cannot be
 equal, so the uniqueness of names is proved one small display at a time.
 */
module Catalogue {
  import opened Access
  import opened Vitodata
  import opened Attributes

  /* Attribute IDs of the built-in catalogue. */
  const AussenTemp            : AttrID := 5373
  const AbgasTemp             : AttrID := 5372
  const BoilerTemp            : AttrID := 5374
  const HeisswasserTemp       : AttrID := 5381
  const HeisswasserAusgangTemp: AttrID := 5382
  const HeizwasserAusgangTemp : AttrID := 6053
  const HeizNormalTempM1      : AttrID := 82
  const HeizNormalTempM2      : AttrID := 83
  const HeizPartyTempM1       : AttrID := 79
  const HeizPartyTempM2       : AttrID := 80
  const HeizReduziertTempM1   : AttrID := 85
  const HeizReduziertTempM2   : AttrID := 86
  const HeisswasserSollTemp   : AttrID := 51
  const AnzahlBrennerstunden  : AttrID := 104
  const BrennerStatus         : AttrID := 600
  const AnzahlBrennerStarts   : AttrID := 111
  const InternerPumpenStatus  : AttrID := 245
  const HeizPumpenStatusM1    : AttrID := 729
  const HeizPumpenStatusM2    : AttrID := 730
  const ZirkPumpenStatus      : AttrID := 7181
  const PartyModusM1          : AttrID := 7855
  const PartyModusM2          : AttrID := 7856
  const EnergieSparmodusM1    : AttrID := 7852
  const EnergieSparmodusM2    : AttrID := 7853
  const DatumUhrzeit          : AttrID := 5385
  const AktuellerFehler       : AttrID := 7184
  const FerienStartM1         : AttrID := 306
  const FerienStartM2         : AttrID := 307
  const FerienEndeM1          : AttrID := 309
  const FerienEndeM2          : AttrID := 310
  const ZustandFerienProgM1   : AttrID := 714
  const ZustandFerienProgM2   : AttrID := 715
  const AktuelleBetriebsartM1 : AttrID := 708
  const AktuelleBetriebsartM2 : AttrID := 709
  const ZustandFrostgefahrM1  : AttrID := 717
  const ZustandFrostgefahrM2  : AttrID := 718
  const BetriebsartM1         : AttrID := 92
  const BetriebsartM2         : AttrID := 94
  const NeigungM1             : AttrID := 2869
  const NeigungM2             : AttrID := 2871
  const NiveauM1              : AttrID := 2875
  const NiveauM2              : AttrID := 2877
  const Heizungsschema        : AttrID := 801

  /** Catalogue entries whose names have 8 to 10 characters. */
  const Seed8To10: Registry := map[
    AussenTemp := AttrRef(TypeDouble, ReadOnly, "AussenTemp", "Außen Temperatur", false),
    AbgasTemp := AttrRef(TypeDouble, ReadOnly, "AbgasTemp", "Abgas Temperatur", false),
    BoilerTemp := AttrRef(TypeDouble, ReadOnly, "BoilerTemp", "Boiler Temperatur", false),
    NeigungM1 := AttrRef(TypeDouble, ReadWrite, "NeigungM1", "Neigung Heizkörper", false),
    NeigungM2 := AttrRef(TypeDouble, ReadWrite, "NeigungM2", "Neigung Fussbodenheizung", false),
    NiveauM1 := AttrRef(TypeDouble, ReadWrite, "NiveauM1", "Niveau Heizkörper", false),
    NiveauM2 := AttrRef(TypeDouble, ReadWrite, "NiveauM2", "Niveau Fussbodenheizung", false)
  ]

  /** Catalogue entries whose names have 11 to 13 characters. */
  const Seed11To13: Registry := map[
    BrennerStatus := AttrRef(Enum(["Aus", "Ein"]), ReadOnly, "BrennerStatus", "Brenner Status", false),
    PartyModusM1 := AttrRef(Enum(["Aus", "Ein"]), ReadWrite, "PartyModusM1", "Partymodus Heizkörper", false),
    PartyModusM2 := AttrRef(Enum(["Aus", "Ein"]), ReadWrite, "PartyModusM2", "Partymodus Fußbodenheizung", false),
    DatumUhrzeit := AttrRef(TypeDate, ReadWrite, "DatumUhrzeit", "Aktuelles Datum mir Uhrzeit", false),
    FerienStartM1 := AttrRef(TypeDate, ReadWrite, "FerienStartM1", "Start der Ferienzeit für Heizkörper", false),
    FerienStartM2 := AttrRef(TypeDate, ReadWrite, "FerienStartM2", "Start der Ferienzeit für Fußbodenheizung", false),
    FerienEndeM1 := AttrRef(TypeDate, ReadWrite, "FerienEndeM1", "Ende der Ferienzeit für Heizkörper", false),
    FerienEndeM2 := AttrRef(TypeDate, ReadWrite, "FerienEndeM2", "Ende der Ferienzeit für Fußbodenheizung", false),
    BetriebsartM1 := AttrRef(Enum(["Abschalt", "Nur WW", "Heizen + WW", "Dauernd Reduziert", "Dauernd Normal"]), ReadWrite, "BetriebsartM1", "Betriebsart Heizkörper", false)
  ]

  /** Catalogue entries whose names have 14 to 16 characters. */
  const Seed14To16: Registry := map[
    HeisswasserTemp := AttrRef(TypeDouble, ReadOnly, "HeisswasserTemp", "Heißwasser Temperatur", false),
    HeizNormalTempM1 := AttrRef(TypeDouble, ReadWrite, "HeizNormalTempM1", "Normale Raumsolltemperatur Heizkörper", false),
    HeizNormalTempM2 := AttrRef(TypeDouble, ReadWrite, "HeizNormalTempM2", "Normale Raumsolltemperatur Fußbodenheizung", false),
    HeizPartyTempM1 := AttrRef(TypeDouble, ReadWrite, "HeizPartyTempM1", "Party Raumtemperatur Heizkörper", false),
    HeizPartyTempM2 := AttrRef(TypeDouble, ReadWrite, "HeizPartyTempM2", "Party Raumtemperatur Fußbodenheizung", false),
    ZirkPumpenStatus := AttrRef(Enum(["Aus", "Ein"]), ReadOnly, "ZirkPumpenStatus", "Zustand Zirkulationspumpe", false),
    AktuellerFehler := AttrRef(TypeString, ReadOnly, "AktuellerFehler", "Fehlermeldung", false),
    Heizungsschema := AttrRef(Enum(["", "1 A1", "2 A1 + WW", "3 M2", "4 M2 + WW", "5 A1 + M2", "6 A1 + M2 + WW", "7 M2 + M3", "8 M2 + M3 + WW", "9 A1 + M2 + M3", "10 A1 + M2 + M3 + WW"]), ReadOnly, "Heizungsschema", "Heizungsschema für Anlage", false)
  ]

  /** Catalogue entries whose names have 17 to 19 characters. */
  const Seed17To19: Registry := map[
    HeizReduziertTempM1 := AttrRef(TypeDouble, ReadWrite, "HeizReduziertTempM1", "Reduzierte Raumtemperatur Heizkörper", false),
    HeizReduziertTempM2 := AttrRef(TypeDouble, ReadWrite, "HeizReduziertTempM2", "Reduzierte Raumtemperatur Fußbodenheizung", false),
    HeisswasserSollTemp := AttrRef(TypeDouble, ReadWrite, "HeisswasserSollTemp", "Solltemperatur Warmwasser", false),
    AnzahlBrennerStarts := AttrRef(TypeDouble, ReadWrite, "AnzahlBrennerStarts", "Anzahl von Brennerstarts", false),
    HeizPumpenStatusM1 := AttrRef(Enum(["Aus", "Ein"]), ReadOnly, "HeizPumpenStatusM1", "Zustand Heizkreispumpe Heizkörper", false),
    HeizPumpenStatusM2 := AttrRef(Enum(["Aus", "Ein"]), ReadOnly, "HeizPumpenStatusM2", "Zustand Heizkreispumpe Hußbodenheizung", false),
    EnergieSparmodusM1 := AttrRef(Enum(["Aus", "Ein"]), ReadWrite, "EnergieSparmodusM1", "Energiesparmodus Heizkörper", false),
    EnergieSparmodusM2 := AttrRef(Enum(["Aus", "Ein"]), ReadWrite, "EnergieSparmodusM2", "Energiesparmodus Fußbodenheizung", false),
    ZustandFerienProgM1 := AttrRef(Enum(["inaktiv", "aktiv"]), ReadOnly, "ZustandFerienProgM1", "Zustand Ferienprogramm Heizkörper", false),
    ZustandFerienProgM2 := AttrRef(Enum(["inaktiv", "aktiv"]), ReadOnly, "ZustandFerienProgM2", "Zustand Ferienprogramm Fußbodenheizung", false)
  ]

  /** Catalogue entries whose names have 20 to 26 characters. */
  const Seed20To26: Registry := map[
    HeisswasserAusgangTemp := AttrRef(TypeDouble, ReadOnly, "HeisswasserAusgangTemp", "Heißwasser Ausgangstemperatur", false),
    HeizwasserAusgangTemp := AttrRef(TypeDouble, ReadOnly, "HeizwasserAusgangTemp", "Heizwasser Ausgangstemperatur", false),
    AnzahlBrennerstunden := AttrRef(TypeDouble, ReadOnly, "AnzahlBrennerstunden", "Brennerstundenanzahl", false),
    InternerPumpenStatus := AttrRef(Enum(["Aus", "Ein", "Aus2", "Ein2"]), ReadOnly, "InternerPumpenStatus", "Interner Pumpen Status", false),
    AktuelleBetriebsartM1 := AttrRef(Enum(["Abschaltbetrieb", "Reduzierter Betrieb", "Normalbetrieb", "Dauernd Normalbetrieb"]), ReadOnly, "AktuelleBetriebsartM1", "Betriebsart Heizkörper", false),
    AktuelleBetriebsartM2 := AttrRef(Enum(["Abschaltbetrieb", "Reduzierter Betrieb", "Normalbetrieb", "Dauernd Normalbetrieb"]), ReadOnly, "AktuelleBetriebsartM2", "Betriebsart Fußbodenheizung", false),
    ZustandFrostgefahrM1 := AttrRef(Enum(["inaktiv", "aktiv"]), ReadOnly, "ZustandFrostgefahrM1", "Zustand Frostgefahr Heizkörper", false),
    ZustandFrostgefahrM2 := AttrRef(Enum(["inaktiv", "aktiv"]), ReadOnly, "ZustandFrostgefahrM2", "Zustand Frostgefahr Fußbodenheizung", false),
    BetriebsartM2 := AttrRef(Enum(["Abschalt", "Nur WW", "Heizen + WW", "Dauernd Reduziert", "Dauernd Normal"]), ReadWrite, "konf_betriebsart_rw-0x005e", "Betriebsart Fussbodenheizung", false)
  ]

  /** The descriptor of every built-in attribute; none is custom. */
  const AttributesRef: Registry :=
    Seed8To10 + Seed11To13 + Seed14To16 + Seed17To19 + Seed20To26

  /** The facts checked of each display besides unique names: no key is the
      error sentinel, every name has `lo` to `hi` characters, and no entry is
      custom. */
  predicate PartBounds(part: Registry, lo: nat, hi: nat) {
    forall a :: a in part ==> a != NoAttr && lo <= |part[a].name| <= hi && !part[a].custom
  }

  lemma Seed8To10NamesUnique()
    ensures NamesUnique(Seed8To10)
  {
  }

  lemma Seed8To10Bounds()
    ensures PartBounds(Seed8To10, 8, 10)
  {
  }

  lemma Seed11To13NamesUnique()
    ensures NamesUnique(Seed11To13)
  {
  }

  lemma Seed11To13Bounds()
    ensures PartBounds(Seed11To13, 11, 13)
  {
  }

  lemma Seed14To16NamesUnique()
    ensures NamesUnique(Seed14To16)
  {
  }

  lemma Seed14To16Bounds()
    ensures PartBounds(Seed14To16, 14, 16)
  {
  }

  lemma Seed17To19NamesUnique()
    ensures NamesUnique(Seed17To19)
  {
  }

  lemma Seed17To19Bounds()
    ensures PartBounds(Seed17To19, 17, 19)
  {
  }

  lemma Seed20To26NamesUnique()
    ensures NamesUnique(Seed20To26)
  {
  }

  lemma Seed20To26Bounds()
    ensures PartBounds(Seed20To26, 20, 26)
  {
  }

  /** Two parts with unique names whose name lengths do not overlap form a
      union with unique names. */
  lemma UnionNamesUnique(p: Registry, lo: nat, mid: nat, q: Registry, hi: nat)
    requires lo <= mid < hi
    requires NamesUnique(p) && PartBounds(p, lo, mid)
    requires NamesUnique(q) && PartBounds(q, mid + 1, hi)
    ensures NamesUnique(p + q) && PartBounds(p + q, lo, hi)
  {
    var u := p + q;
    forall a | a in u ensures a != NoAttr && lo <= |u[a].name| <= hi && !u[a].custom {
      if a in q {
        assert u[a] == q[a];
      } else {
        assert u[a] == p[a];
      }
    }
    forall a, b | a in q && b in p && b !in q ensures u[a].name != u[b].name {
      assert u[a] == q[a] && u[b] == p[b];
    }
  }

  /** In the catalogue all names are pairwise distinct, the error sentinel is
      not a key, and no entry is marked custom. */
  lemma SeedWellFormed()
    ensures NamesUnique(AttributesRef)
    ensures NoAttr !in AttributesRef
    ensures forall id :: id in AttributesRef ==> !AttributesRef[id].custom
  {
    Seed8To10NamesUnique();
    Seed8To10Bounds();
    Seed11To13NamesUnique();
    Seed11To13Bounds();
    Seed14To16NamesUnique();
    Seed14To16Bounds();
    Seed17To19NamesUnique();
    Seed17To19Bounds();
    Seed20To26NamesUnique();
    Seed20To26Bounds();
    UnionNamesUnique(Seed8To10, 8, 10, Seed11To13, 13);
    UnionNamesUnique(Seed8To10 + Seed11To13, 8, 13, Seed14To16, 16);
    UnionNamesUnique(Seed8To10 + Seed11To13 + Seed14To16, 8, 16, Seed17To19, 19);
    UnionNamesUnique(Seed8To10 + Seed11To13 + Seed14To16 + Seed17To19, 8, 19, Seed20To26, 26);
  }

  /** Builds the state for a registry the way package initialisation does.
      When the names are unique and the sentinel is not a key, the name index
      is the exact inverse of the name projection and the sentinel appears in
      neither index. */
  method Build(refs: Registry) returns (s: State)
    requires NamesUnique(refs) && NoAttr !in refs
    ensures s.refs == refs
    ensures Consistent(s)
    ensures forall id :: id in refs ==> refs[id].name in s.names2IDs && s.names2IDs[refs[id].name] == id
    ensures NoAttr !in s.attributes
    ensures forall n :: n in s.names2IDs ==> s.names2IDs[n] != NoAttr
  {
    var idx, visited := ComputeNames2IDs(refs);
    var ids := ComputeAttributes(refs);
    s := State(refs, idx, ids);
    NameIndexInvertsUniqueNames(refs, idx);
  }

  /** Package initialisation: both indexes are computed from the catalogue. */
  method Init() returns (s: State)
    ensures s.refs == AttributesRef
    ensures Consistent(s)
    ensures forall id :: id in AttributesRef ==>
      AttributesRef[id].name in s.names2IDs && s.names2IDs[AttributesRef[id].name] == id
    ensures NoAttr !in s.attributes
    ensures forall n :: n in s.names2IDs ==> s.names2IDs[n] != NoAttr
  {
    SeedWellFormed();
    s := Build(AttributesRef);
  }

  /** Starting from the catalogue, after any sequence of additions an
      attribute is custom exactly when it was added, and the keys are the
      catalogue's plus the added IDs. */
  lemma CustomExactlyWhenAdded(adds: seq<(AttrID, AttrRef)>)
    ensures AddAll(AttributesRef, adds).Keys == AttributesRef.Keys + AddedIDs(adds)
    ensures forall k :: k in AddAll(AttributesRef, adds) ==>
      (AddAll(AttributesRef, adds)[k].custom <==> k in AddedIDs(adds))
  {
    SeedWellFormed();
    AddAllKeysAndCustom(AttributesRef, adds);
  }
}
