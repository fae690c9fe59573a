/** The fixed table of the 23 communes of La Réunion that the dashboard is
    built on, with the columns its computations read. */
module Catalog {
  import opened Seqs

  /** The five micro-regions a commune belongs to. */
  datatype Region = Nord | Sud | Ouest | Est | Cirques

  /** One commune record. `price` is the mean price per m² in euros and
      `rent` the mean rent per m²; `priceChange` is the one-year price
      change in percent and `vacancy` the vacancy rate in percent; `permits`
      counts the building permits of the reference year. */
  datatype Commune = Commune(
    name: string,
    region: Region,
    population: int,
    price: int,
    priceChange: real,
    rent: real,
    vacancy: real,
    permits: int)

  /** The catalog, in the order the dashboard lists it. */
  function CommunesData(): (cs: seq<Commune>)
  {
    [ SaintDenis(),
      SaintPaul(),
      SaintPierre(),
      LeTampon(),
      SaintAndre(),
      SaintLouis(),
      LePort(),
      SaintJoseph(),
      SaintBenoit(),
      SainteMarie(),
      SaintLeu(),
      LaPossession(),
      SainteSuzanne(),
      BrasPanon(),
      LesAvirons(),
      EntreDeux(),
      LEtangSale(),
      PetiteIle(),
      SaintPhilippe(),
      SainteRose(),
      Cilaos(),
      Salazie(),
      LesTroisBassins() ]
  }

  function SaintDenis(): Commune { Commune("Saint-Denis", Nord, 153810, 3200, 4.2, 12.5, 6.2, 420) }
  function SaintPaul(): Commune { Commune("Saint-Paul", Ouest, 105240, 2800, 5.8, 10.8, 5.8, 380) }
  function SaintPierre(): Commune { Commune("Saint-Pierre", Sud, 84520, 2950, 6.1, 11.2, 4.9, 350) }
  function LeTampon(): Commune { Commune("Le Tampon", Sud, 79849, 2600, 5.2, 9.8, 5.1, 290) }
  function SaintAndre(): Commune { Commune("Saint-André", Est, 56602, 2200, 3.8, 8.5, 7.2, 180) }
  function SaintLouis(): Commune { Commune("Saint-Louis", Sud, 53609, 2450, 4.9, 10.2, 6.5, 220) }
  function LePort(): Commune { Commune("Le Port", Ouest, 32995, 1950, 2.8, 7.8, 8.5, 120) }
  function SaintJoseph(): Commune { Commune("Saint-Joseph", Sud, 37882, 2100, 4.1, 8.2, 6.8, 160) }
  function SaintBenoit(): Commune { Commune("Saint-Benoît", Est, 37308, 2050, 3.5, 7.9, 7.1, 140) }
  function SainteMarie(): Commune { Commune("Sainte-Marie", Nord, 34167, 2850, 4.5, 11.0, 5.5, 190) }
  function SaintLeu(): Commune { Commune("Saint-Leu", Ouest, 34746, 2700, 5.5, 10.5, 5.2, 210) }
  function LaPossession(): Commune { Commune("La Possession", Ouest, 33506, 2500, 4.8, 9.5, 5.9, 170) }
  function SainteSuzanne(): Commune { Commune("Sainte-Suzanne", Nord, 24645, 2650, 4.0, 10.0, 6.0, 130) }
  function BrasPanon(): Commune { Commune("Bras-Panon", Est, 13170, 1900, 3.2, 7.2, 7.5, 90) }
  function LesAvirons(): Commune { Commune("Les Avirons", Ouest, 11447, 2350, 4.3, 9.0, 5.7, 110) }
  function EntreDeux(): Commune { Commune("Entre-Deux", Sud, 7070, 2000, 3.7, 7.5, 6.3, 70) }
  function LEtangSale(): Commune { Commune("L'Étang-Salé", Ouest, 14030, 2400, 4.6, 9.2, 5.4, 100) }
  function PetiteIle(): Commune { Commune("Petite-Île", Sud, 12155, 2250, 4.0, 8.8, 6.1, 85) }
  function SaintPhilippe(): Commune { Commune("Saint-Philippe", Sud, 5232, 1800, 2.9, 6.8, 8.0, 50) }
  function SainteRose(): Commune { Commune("Sainte-Rose", Est, 6424, 1750, 2.7, 6.5, 8.2, 45) }
  function Cilaos(): Commune { Commune("Cilaos", Cirques, 5528, 1600, 2.5, 6.0, 9.0, 30) }
  function Salazie(): Commune { Commune("Salazie", Cirques, 7363, 1550, 2.3, 5.8, 9.5, 35) }
  function LesTroisBassins(): Commune { Commune("Les Trois-Bassins", Ouest, 6980, 2300, 4.2, 8.9, 5.8, 75) }

  /** The communes of region `r`, in catalog order. */
  function OfRegion(cs: seq<Commune>, r: Region): (rs: seq<Commune>)
    ensures |rs| <= |cs|
    ensures forall c :: c in rs <==> c in cs && c.region == r
  {
    Filter(cs, (c: Commune) => c.region == r)
  }

  /** The communes of a region keep their catalog order, and each record of
      the region is kept as often as the catalog lists it. */
  lemma OfRegionInOrder(cs: seq<Commune>, r: Region)
    ensures IsSubsequence(OfRegion(cs, r), cs)
    ensures forall c :: multiset(OfRegion(cs, r))[c] == if c.region == r then multiset(cs)[c] else 0
  {
    var inRegion := (c: Commune) => c.region == r;
    FilterIsSubsequence(cs, inRegion);
    forall c ensures multiset(OfRegion(cs, r))[c] == if c.region == r then multiset(cs)[c] else 0 {
      FilterCounts(cs, inRegion, c);
    }
  }

  /** Number of records of region `r` from index `k` on; counting by index
      lets the concrete catalog be tallied one record at a time. */
  function CountRegionFrom(cs: seq<Commune>, k: nat, r: Region): (n: nat)
    decreases |cs| - k
  {
    if k >= |cs| then 0 else (if cs[k].region == r then 1 else 0) + CountRegionFrom(cs, k + 1, r)
  }

  lemma {:induction false} CountRegionFromIsLength(cs: seq<Commune>, k: nat, r: Region)
    requires k <= |cs|
    ensures |OfRegion(cs[k..], r)| == CountRegionFrom(cs, k, r)
    decreases |cs| - k
  {
    if k < |cs| {
      CountRegionFromIsLength(cs, k + 1, r);
      assert cs[k..][1..] == cs[k + 1..];
    }
  }

  /** Number of catalog communes in each micro-region. */
  function CatalogCount(r: Region): (n: nat)
  {
    match r
    case Nord => 3
    case Ouest => 7
    case Sud => 7
    case Est => 4
    case Cirques => 2
  }

  lemma CountRegionFromStart(cs: seq<Commune>, r: Region)
    ensures |OfRegion(cs, r)| == CountRegionFrom(cs, 0, r)
  {
    CountRegionFromIsLength(cs, 0, r);
    assert cs[0..] == cs;
  }

  lemma {:induction false} CatalogRegionCount(r: Region)
    ensures |OfRegion(CommunesData(), r)| == CatalogCount(r)
  {
    match r
    case Nord => CatalogNordCount();
    case Ouest => CatalogOuestCount();
    case Sud => CatalogSudCount();
    case Est => CatalogEstCount();
    case Cirques => CatalogCirquesCount();
  }

  lemma CatalogNordCount()
    ensures |OfRegion(CommunesData(), Nord)| == CatalogCount(Nord)
  {
    CatalogNordTally();
    CountRegionFromStart(CommunesData(), Nord);
  }

  lemma CatalogOuestCount()
    ensures |OfRegion(CommunesData(), Ouest)| == CatalogCount(Ouest)
  {
    CatalogOuestTally();
    CountRegionFromStart(CommunesData(), Ouest);
  }

  lemma CatalogSudCount()
    ensures |OfRegion(CommunesData(), Sud)| == CatalogCount(Sud)
  {
    CatalogSudTally();
    CountRegionFromStart(CommunesData(), Sud);
  }

  lemma CatalogEstCount()
    ensures |OfRegion(CommunesData(), Est)| == CatalogCount(Est)
  {
    CatalogEstTally();
    CountRegionFromStart(CommunesData(), Est);
  }

  lemma CatalogCirquesCount()
    ensures |OfRegion(CommunesData(), Cirques)| == CatalogCount(Cirques)
  {
    CatalogCirquesTally();
    CountRegionFromStart(CommunesData(), Cirques);
  }

  lemma CatalogNordTally()
    ensures CountRegionFrom(CommunesData(), 0, Nord) == 3
  {
    var c := CommunesData();
    assert CountRegionFrom(c, 22, Nord) == 0;
    assert CountRegionFrom(c, 21, Nord) == 0;
    assert CountRegionFrom(c, 20, Nord) == 0;
    assert CountRegionFrom(c, 19, Nord) == 0;
    assert CountRegionFrom(c, 18, Nord) == 0;
    assert CountRegionFrom(c, 17, Nord) == 0;
    assert CountRegionFrom(c, 16, Nord) == 0;
    assert CountRegionFrom(c, 15, Nord) == 0;
    assert CountRegionFrom(c, 14, Nord) == 0;
    assert CountRegionFrom(c, 13, Nord) == 0;
    assert CountRegionFrom(c, 12, Nord) == 1;
    assert CountRegionFrom(c, 11, Nord) == 1;
    assert CountRegionFrom(c, 10, Nord) == 1;
    assert CountRegionFrom(c, 9, Nord) == 2;
    assert CountRegionFrom(c, 8, Nord) == 2;
    assert CountRegionFrom(c, 7, Nord) == 2;
    assert CountRegionFrom(c, 6, Nord) == 2;
    assert CountRegionFrom(c, 5, Nord) == 2;
    assert CountRegionFrom(c, 4, Nord) == 2;
    assert CountRegionFrom(c, 3, Nord) == 2;
    assert CountRegionFrom(c, 2, Nord) == 2;
    assert CountRegionFrom(c, 1, Nord) == 2;
    assert CountRegionFrom(c, 0, Nord) == 3;
  }

  lemma CatalogOuestTally()
    ensures CountRegionFrom(CommunesData(), 0, Ouest) == 7
  {
    var c := CommunesData();
    assert CountRegionFrom(c, 22, Ouest) == 1;
    assert CountRegionFrom(c, 21, Ouest) == 1;
    assert CountRegionFrom(c, 20, Ouest) == 1;
    assert CountRegionFrom(c, 19, Ouest) == 1;
    assert CountRegionFrom(c, 18, Ouest) == 1;
    assert CountRegionFrom(c, 17, Ouest) == 1;
    assert CountRegionFrom(c, 16, Ouest) == 2;
    assert CountRegionFrom(c, 15, Ouest) == 2;
    assert CountRegionFrom(c, 14, Ouest) == 3;
    assert CountRegionFrom(c, 13, Ouest) == 3;
    assert CountRegionFrom(c, 12, Ouest) == 3;
    assert CountRegionFrom(c, 11, Ouest) == 4;
    assert CountRegionFrom(c, 10, Ouest) == 5;
    assert CountRegionFrom(c, 9, Ouest) == 5;
    assert CountRegionFrom(c, 8, Ouest) == 5;
    assert CountRegionFrom(c, 7, Ouest) == 5;
    assert CountRegionFrom(c, 6, Ouest) == 6;
    assert CountRegionFrom(c, 5, Ouest) == 6;
    assert CountRegionFrom(c, 4, Ouest) == 6;
    assert CountRegionFrom(c, 3, Ouest) == 6;
    assert CountRegionFrom(c, 2, Ouest) == 6;
    assert CountRegionFrom(c, 1, Ouest) == 7;
    assert CountRegionFrom(c, 0, Ouest) == 7;
  }

  lemma CatalogSudTally()
    ensures CountRegionFrom(CommunesData(), 0, Sud) == 7
  {
    var c := CommunesData();
    assert CountRegionFrom(c, 22, Sud) == 0;
    assert CountRegionFrom(c, 21, Sud) == 0;
    assert CountRegionFrom(c, 20, Sud) == 0;
    assert CountRegionFrom(c, 19, Sud) == 0;
    assert CountRegionFrom(c, 18, Sud) == 1;
    assert CountRegionFrom(c, 17, Sud) == 2;
    assert CountRegionFrom(c, 16, Sud) == 2;
    assert CountRegionFrom(c, 15, Sud) == 3;
    assert CountRegionFrom(c, 14, Sud) == 3;
    assert CountRegionFrom(c, 13, Sud) == 3;
    assert CountRegionFrom(c, 12, Sud) == 3;
    assert CountRegionFrom(c, 11, Sud) == 3;
    assert CountRegionFrom(c, 10, Sud) == 3;
    assert CountRegionFrom(c, 9, Sud) == 3;
    assert CountRegionFrom(c, 8, Sud) == 3;
    assert CountRegionFrom(c, 7, Sud) == 4;
    assert CountRegionFrom(c, 6, Sud) == 4;
    assert CountRegionFrom(c, 5, Sud) == 5;
    assert CountRegionFrom(c, 4, Sud) == 5;
    assert CountRegionFrom(c, 3, Sud) == 6;
    assert CountRegionFrom(c, 2, Sud) == 7;
    assert CountRegionFrom(c, 1, Sud) == 7;
    assert CountRegionFrom(c, 0, Sud) == 7;
  }

  lemma CatalogEstTally()
    ensures CountRegionFrom(CommunesData(), 0, Est) == 4
  {
    var c := CommunesData();
    assert CountRegionFrom(c, 22, Est) == 0;
    assert CountRegionFrom(c, 21, Est) == 0;
    assert CountRegionFrom(c, 20, Est) == 0;
    assert CountRegionFrom(c, 19, Est) == 1;
    assert CountRegionFrom(c, 18, Est) == 1;
    assert CountRegionFrom(c, 17, Est) == 1;
    assert CountRegionFrom(c, 16, Est) == 1;
    assert CountRegionFrom(c, 15, Est) == 1;
    assert CountRegionFrom(c, 14, Est) == 1;
    assert CountRegionFrom(c, 13, Est) == 2;
    assert CountRegionFrom(c, 12, Est) == 2;
    assert CountRegionFrom(c, 11, Est) == 2;
    assert CountRegionFrom(c, 10, Est) == 2;
    assert CountRegionFrom(c, 9, Est) == 2;
    assert CountRegionFrom(c, 8, Est) == 3;
    assert CountRegionFrom(c, 7, Est) == 3;
    assert CountRegionFrom(c, 6, Est) == 3;
    assert CountRegionFrom(c, 5, Est) == 3;
    assert CountRegionFrom(c, 4, Est) == 4;
    assert CountRegionFrom(c, 3, Est) == 4;
    assert CountRegionFrom(c, 2, Est) == 4;
    assert CountRegionFrom(c, 1, Est) == 4;
    assert CountRegionFrom(c, 0, Est) == 4;
  }

  lemma CatalogCirquesTally()
    ensures CountRegionFrom(CommunesData(), 0, Cirques) == 2
  {
    var c := CommunesData();
    assert CountRegionFrom(c, 22, Cirques) == 0;
    assert CountRegionFrom(c, 21, Cirques) == 1;
    assert CountRegionFrom(c, 20, Cirques) == 2;
    assert CountRegionFrom(c, 19, Cirques) == 2;
    assert CountRegionFrom(c, 18, Cirques) == 2;
    assert CountRegionFrom(c, 17, Cirques) == 2;
    assert CountRegionFrom(c, 16, Cirques) == 2;
    assert CountRegionFrom(c, 15, Cirques) == 2;
    assert CountRegionFrom(c, 14, Cirques) == 2;
    assert CountRegionFrom(c, 13, Cirques) == 2;
    assert CountRegionFrom(c, 12, Cirques) == 2;
    assert CountRegionFrom(c, 11, Cirques) == 2;
    assert CountRegionFrom(c, 10, Cirques) == 2;
    assert CountRegionFrom(c, 9, Cirques) == 2;
    assert CountRegionFrom(c, 8, Cirques) == 2;
    assert CountRegionFrom(c, 7, Cirques) == 2;
    assert CountRegionFrom(c, 6, Cirques) == 2;
    assert CountRegionFrom(c, 5, Cirques) == 2;
    assert CountRegionFrom(c, 4, Cirques) == 2;
    assert CountRegionFrom(c, 3, Cirques) == 2;
    assert CountRegionFrom(c, 2, Cirques) == 2;
    assert CountRegionFrom(c, 1, Cirques) == 2;
    assert CountRegionFrom(c, 0, Cirques) == 2;
  }
}
