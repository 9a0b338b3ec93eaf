/** The prefecture table of scraper/constants.py and its lookups. The table is
    stored column by column, each column a function of the row index, so that
    facts about single rows stay cheap to prove; `Prefectures` assembles the rows. */
module Prefectures {
  import opened Wrappers

  datatype Prefecture = Prefecture(name: string, region: string, domain: string, code: string)

  /** Number of rows in `PREFECTURES`. */
  const Count: nat := 96

  /** Column `name`. */
  function NameAt(i: nat): string
    requires i < Count
  {
    if i == 0 then "Ain"
    else if i == 1 then "Allier"
    else if i == 2 then "Ardèche"
    else if i == 3 then "Cantal"
    else if i == 4 then "Drôme"
    else if i == 5 then "Isère"
    else if i == 6 then "Loire"
    else if i == 7 then "Haute-Loire"
    else if i == 8 then "Puy-de-Dôme"
    else if i == 9 then "Rhône"
    else if i == 10 then "Savoie"
    else if i == 11 then "Haute-Savoie"
    else if i == 12 then "Côte-d'Or"
    else if i == 13 then "Doubs"
    else if i == 14 then "Jura"
    else if i == 15 then "Nièvre"
    else if i == 16 then "Saône-et-Loire"
    else if i == 17 then "Yonne"
    else if i == 18 then "Haute-Saône"
    else if i == 19 then "Territoire-de-Belfort"
    else if i == 20 then "Côtes d'Armor"
    else if i == 21 then "Finistère"
    else if i == 22 then "Ille-et-Vilaine"
    else if i == 23 then "Morbihan"
    else if i == 24 then "Cher"
    else if i == 25 then "Eure-et-Loir"
    else if i == 26 then "Indre"
    else if i == 27 then "Indre-et-Loire"
    else if i == 28 then "Loir-et-Cher"
    else if i == 29 then "Loiret"
    else if i == 30 then "Ardennes"
    else if i == 31 then "Aube"
    else if i == 32 then "Marne"
    else if i == 33 then "Haute-Marne"
    else if i == 34 then "Meurthe-et-Moselle"
    else if i == 35 then "Meuse"
    else if i == 36 then "Moselle"
    else if i == 37 then "Bas-Rhin"
    else if i == 38 then "Haut-Rhin"
    else if i == 39 then "Vosges"
    else if i == 40 then "Aisne"
    else if i == 41 then "Nord"
    else if i == 42 then "Oise"
    else if i == 43 then "Pas-de-Calais"
    else if i == 44 then "Somme"
    else if i == 45 then "Paris"
    else if i == 46 then "Seine-et-Marne"
    else if i == 47 then "Yvelines"
    else if i == 48 then "Essonne"
    else if i == 49 then "Hauts-de-Seine"
    else if i == 50 then "Seine-Saint-Denis"
    else if i == 51 then "Val-de-Marne"
    else if i == 52 then "Val-d'Oise"
    else if i == 53 then "Calvados"
    else if i == 54 then "Eure"
    else if i == 55 then "Manche"
    else if i == 56 then "Orne"
    else if i == 57 then "Seine-Maritime"
    else if i == 58 then "Charente"
    else if i == 59 then "Charente-Maritime"
    else if i == 60 then "Corrèze"
    else if i == 61 then "Creuse"
    else if i == 62 then "Dordogne"
    else if i == 63 then "Gironde"
    else if i == 64 then "Landes"
    else if i == 65 then "Lot-et-Garonne"
    else if i == 66 then "Pyrénées-Atlantiques"
    else if i == 67 then "Deux-Sèvres"
    else if i == 68 then "Vienne"
    else if i == 69 then "Haute-Vienne"
    else if i == 70 then "Ariège"
    else if i == 71 then "Aude"
    else if i == 72 then "Aveyron"
    else if i == 73 then "Gard"
    else if i == 74 then "Gers"
    else if i == 75 then "Haute-Garonne"
    else if i == 76 then "Hérault"
    else if i == 77 then "Lot"
    else if i == 78 then "Lozère"
    else if i == 79 then "Hautes-Pyrénées"
    else if i == 80 then "Pyrénées-Orientales"
    else if i == 81 then "Tarn"
    else if i == 82 then "Tarn-et-Garonne"
    else if i == 83 then "Loire-Atlantique"
    else if i == 84 then "Maine-et-Loire"
    else if i == 85 then "Mayenne"
    else if i == 86 then "Sarthe"
    else if i == 87 then "Vendée"
    else if i == 88 then "Alpes de Haute-Provence"
    else if i == 89 then "Hautes-Alpes"
    else if i == 90 then "Alpes-Maritimes"
    else if i == 91 then "Bouches-du-Rhône"
    else if i == 92 then "Var"
    else if i == 93 then "Vaucluse"
    else if i == 94 then "Corse-du-Sud"
    else "Haute-Corse"
  }

  /** Column `region`: the table lists each region's prefectures together. */
  function RegionAt(i: nat): string
    requires i < Count
  {
    if i <= 11 then "Auvergne-Rhône-Alpes"
    else if i <= 19 then "Bourgogne-Franche-Comté"
    else if i <= 23 then "Bretagne"
    else if i <= 29 then "Centre-Val de Loire"
    else if i <= 39 then "Grand Est"
    else if i <= 44 then "Hauts-de-France"
    else if i <= 52 then "Île-de-France"
    else if i <= 57 then "Normandie"
    else if i <= 69 then "Nouvelle-Aquitaine"
    else if i <= 82 then "Occitanie"
    else if i <= 87 then "Pays de la Loire"
    else if i <= 93 then "Provence-Alpes-Côte d'Azur"
    else "Corse"
  }

  /** Column `domain`: the site each prefecture publishes on. */
  function DomainAt(i: nat): string
    requires i < Count
  {
    if i == 0 then "ain.gouv.fr"
    else if i == 1 then "allier.gouv.fr"
    else if i == 2 then "ardeche.gouv.fr"
    else if i == 3 then "cantal.gouv.fr"
    else if i == 4 then "drome.gouv.fr"
    else if i == 5 then "isere.gouv.fr"
    else if i == 6 then "loire.gouv.fr"
    else if i == 7 then "haute-loire.gouv.fr"
    else if i == 8 then "puy-de-dome.gouv.fr"
    else if i == 9 then "rhone.gouv.fr"
    else if i == 10 then "savoie.gouv.fr"
    else if i == 11 then "haute-savoie.gouv.fr"
    else if i == 12 then "cote-dor.gouv.fr"
    else if i == 13 then "doubs.gouv.fr"
    else if i == 14 then "jura.gouv.fr"
    else if i == 15 then "nievre.gouv.fr"
    else if i == 16 then "saone-et-loire.gouv.fr"
    else if i == 17 then "yonne.gouv.fr"
    else if i == 18 then "haute-saone.gouv.fr"
    else if i == 19 then "territoire-de-belfort.gouv.fr"
    else if i == 20 then "cotes-darmor.gouv.fr"
    else if i == 21 then "finistere.gouv.fr"
    else if i == 22 then "ille-et-vilaine.gouv.fr"
    else if i == 23 then "morbihan.gouv.fr"
    else if i == 24 then "cher.gouv.fr"
    else if i == 25 then "eure-et-loir.gouv.fr"
    else if i == 26 then "indre.gouv.fr"
    else if i == 27 then "indre-et-loire.gouv.fr"
    else if i == 28 then "loir-et-cher.gouv.fr"
    else if i == 29 then "loiret.gouv.fr"
    else if i == 30 then "ardennes.gouv.fr"
    else if i == 31 then "aube.gouv.fr"
    else if i == 32 then "marne.gouv.fr"
    else if i == 33 then "haute-marne.gouv.fr"
    else if i == 34 then "meurthe-et-moselle.gouv.fr"
    else if i == 35 then "meuse.gouv.fr"
    else if i == 36 then "moselle.gouv.fr"
    else if i == 37 then "bas-rhin.gouv.fr"
    else if i == 38 then "haut-rhin.gouv.fr"
    else if i == 39 then "vosges.gouv.fr"
    else if i == 40 then "aisne.gouv.fr"
    else if i == 41 then "nord.gouv.fr"
    else if i == 42 then "oise.gouv.fr"
    else if i == 43 then "pas-de-calais.gouv.fr"
    else if i == 44 then "somme.gouv.fr"
    else if i == 45 then "paris.gouv.fr"
    else if i == 46 then "seine-et-marne.gouv.fr"
    else if i == 47 then "yvelines.gouv.fr"
    else if i == 48 then "essonne.gouv.fr"
    else if i == 49 then "hauts-de-seine.gouv.fr"
    else if i == 50 then "seine-saint-denis.gouv.fr"
    else if i == 51 then "val-de-marne.gouv.fr"
    else if i == 52 then "val-doise.gouv.fr"
    else if i == 53 then "calvados.gouv.fr"
    else if i == 54 then "eure.gouv.fr"
    else if i == 55 then "manche.gouv.fr"
    else if i == 56 then "orne.gouv.fr"
    else if i == 57 then "seine-maritime.gouv.fr"
    else if i == 58 then "charente.gouv.fr"
    else if i == 59 then "charente-maritime.gouv.fr"
    else if i == 60 then "correze.gouv.fr"
    else if i == 61 then "creuse.gouv.fr"
    else if i == 62 then "dordogne.gouv.fr"
    else if i == 63 then "gironde.gouv.fr"
    else if i == 64 then "landes.gouv.fr"
    else if i == 65 then "lot-et-garonne.gouv.fr"
    else if i == 66 then "pyrenees-atlantiques.gouv.fr"
    else if i == 67 then "deux-sevres.gouv.fr"
    else if i == 68 then "vienne.gouv.fr"
    else if i == 69 then "haute-vienne.gouv.fr"
    else if i == 70 then "ariege.gouv.fr"
    else if i == 71 then "aude.gouv.fr"
    else if i == 72 then "aveyron.gouv.fr"
    else if i == 73 then "gard.gouv.fr"
    else if i == 74 then "gers.gouv.fr"
    else if i == 75 then "haute-garonne.gouv.fr"
    else if i == 76 then "herault.gouv.fr"
    else if i == 77 then "lot.gouv.fr"
    else if i == 78 then "lozere.gouv.fr"
    else if i == 79 then "hautes-pyrenees.gouv.fr"
    else if i == 80 then "pyrenees-orientales.gouv.fr"
    else if i == 81 then "tarn.gouv.fr"
    else if i == 82 then "tarn-et-garonne.gouv.fr"
    else if i == 83 then "loire-atlantique.gouv.fr"
    else if i == 84 then "maine-et-loire.gouv.fr"
    else if i == 85 then "mayenne.gouv.fr"
    else if i == 86 then "sarthe.gouv.fr"
    else if i == 87 then "vendee.gouv.fr"
    else if i == 88 then "alpes-de-haute-provence.gouv.fr"
    else if i == 89 then "hautes-alpes.gouv.fr"
    else if i == 90 then "alpes-maritimes.gouv.fr"
    else if i == 91 then "bouches-du-rhone.gouv.fr"
    else if i == 92 then "var.gouv.fr"
    else if i == 93 then "vaucluse.gouv.fr"
    else if i == 94 then "corse-du-sud.gouv.fr"
    else "haute-corse.gouv.fr"
  }

  /** Column `code`: the department number. */
  function CodeAt(i: nat): string
    requires i < Count
  {
    if i == 0 then "01"
    else if i == 1 then "03"
    else if i == 2 then "07"
    else if i == 3 then "15"
    else if i == 4 then "26"
    else if i == 5 then "38"
    else if i == 6 then "42"
    else if i == 7 then "43"
    else if i == 8 then "63"
    else if i == 9 then "69"
    else if i == 10 then "73"
    else if i == 11 then "74"
    else if i == 12 then "21"
    else if i == 13 then "25"
    else if i == 14 then "39"
    else if i == 15 then "58"
    else if i == 16 then "71"
    else if i == 17 then "89"
    else if i == 18 then "70"
    else if i == 19 then "90"
    else if i == 20 then "22"
    else if i == 21 then "29"
    else if i == 22 then "35"
    else if i == 23 then "56"
    else if i == 24 then "18"
    else if i == 25 then "28"
    else if i == 26 then "36"
    else if i == 27 then "37"
    else if i == 28 then "41"
    else if i == 29 then "45"
    else if i == 30 then "08"
    else if i == 31 then "10"
    else if i == 32 then "51"
    else if i == 33 then "52"
    else if i == 34 then "54"
    else if i == 35 then "55"
    else if i == 36 then "57"
    else if i == 37 then "67"
    else if i == 38 then "68"
    else if i == 39 then "88"
    else if i == 40 then "02"
    else if i == 41 then "59"
    else if i == 42 then "60"
    else if i == 43 then "62"
    else if i == 44 then "80"
    else if i == 45 then "75"
    else if i == 46 then "77"
    else if i == 47 then "78"
    else if i == 48 then "91"
    else if i == 49 then "92"
    else if i == 50 then "93"
    else if i == 51 then "94"
    else if i == 52 then "95"
    else if i == 53 then "14"
    else if i == 54 then "27"
    else if i == 55 then "50"
    else if i == 56 then "61"
    else if i == 57 then "76"
    else if i == 58 then "16"
    else if i == 59 then "17"
    else if i == 60 then "19"
    else if i == 61 then "23"
    else if i == 62 then "24"
    else if i == 63 then "33"
    else if i == 64 then "40"
    else if i == 65 then "47"
    else if i == 66 then "64"
    else if i == 67 then "79"
    else if i == 68 then "86"
    else if i == 69 then "87"
    else if i == 70 then "09"
    else if i == 71 then "11"
    else if i == 72 then "12"
    else if i == 73 then "30"
    else if i == 74 then "32"
    else if i == 75 then "31"
    else if i == 76 then "34"
    else if i == 77 then "46"
    else if i == 78 then "48"
    else if i == 79 then "65"
    else if i == 80 then "66"
    else if i == 81 then "81"
    else if i == 82 then "82"
    else if i == 83 then "44"
    else if i == 84 then "49"
    else if i == 85 then "53"
    else if i == 86 then "72"
    else if i == 87 then "85"
    else if i == 88 then "04"
    else if i == 89 then "05"
    else if i == 90 then "06"
    else if i == 91 then "13"
    else if i == 92 then "83"
    else if i == 93 then "84"
    else if i == 94 then "2A"
    else "2B"
  }

  function Entry(i: nat): Prefecture
    requires i < Count
  {
    Prefecture(NameAt(i), RegionAt(i), DomainAt(i), CodeAt(i))
  }

  /** `PREFECTURES`, in table order. */
  function Table(): (t: seq<Prefecture>)
    ensures |t| == Count
    ensures forall i :: 0 <= i < Count ==> t[i] == Entry(i)
  {
    seq(Count, i requires 0 <= i < Count => Entry(i))
  }

  /** The thirteen regions, as the table spells them. */
  const RegionNames: set<string> := {"Auvergne-Rhône-Alpes", "Bourgogne-Franche-Comté", "Bretagne", "Centre-Val de Loire", "Grand Est", "Hauts-de-France", "Île-de-France", "Normandie", "Nouvelle-Aquitaine", "Occitanie", "Pays de la Loire", "Provence-Alpes-Côte d'Azur", "Corse"}

  // ---------------------------------------------------------------------------
  // Lookups
  // ---------------------------------------------------------------------------

  /** The rows of `ps` whose region is `region`, in their order. */
  function FilterRegion(ps: seq<Prefecture>, region: string): (r: seq<Prefecture>)
    ensures |r| <= |ps|
    ensures forall p :: p in r <==> p in ps && p.region == region
  {
    if ps == [] then []
    else if ps[0].region == region then [ps[0]] + FilterRegion(ps[1..], region)
    else FilterRegion(ps[1..], region)
  }

  /** Filtering a concatenation filters each part and keeps them in order. */
  lemma {:induction false} FilterRegionAppend(a: seq<Prefecture>, b: seq<Prefecture>, region: string)
    ensures FilterRegion(a + b, region) == FilterRegion(a, region) + FilterRegion(b, region)
  {
    if a == [] {
      assert a + b == b;
    } else {
      assert (a + b)[1..] == a[1..] + b;
      FilterRegionAppend(a[1..], b, region);
    }
  }

  /** `get_prefectures_by_region(region_name)`. */
  function PrefecturesByRegion(region: string): seq<Prefecture>
  {
    FilterRegion(Table(), region)
  }

  /** The first row of `ps` whose domain is `domain`, or `None`. */
  function FirstByDomain(ps: seq<Prefecture>, domain: string): (r: Option<Prefecture>)
    ensures r.None? <==> forall i :: 0 <= i < |ps| ==> ps[i].domain != domain
    ensures forall i :: (0 <= i < |ps| && ps[i].domain == domain
                         && forall j :: 0 <= j < i ==> ps[j].domain != domain) ==> r == Some(ps[i])
  {
    if ps == [] then None
    else if ps[0].domain == domain then Some(ps[0])
    else
      var r := FirstByDomain(ps[1..], domain);
      assert forall i :: 0 < i < |ps| ==> ps[i] == ps[1..][i - 1];
      r
  }

  /** `get_prefecture_by_domain(domain)`. */
  function PrefectureByDomain(domain: string): Option<Prefecture>
  {
    FirstByDomain(Table(), domain)
  }

  /** `get_all_regions()`: every region of the table, once each. The Python
      list comes from a set, so its order is unspecified; the model keeps the set. */
  function AllRegions(): (r: set<string>)
    ensures forall region :: region in r <==> exists p :: p in Table() && p.region == region
  {
    set p | p in Table() :: p.region
  }

  /** `get_all_domains()`: one domain per row, in table order. */
  function AllDomains(): (r: seq<string>)
    ensures |r| == |Table()|
    ensures forall i :: 0 <= i < |r| ==> r[i] == Table()[i].domain
  {
    var t := Table();
    seq(|t|, i requires 0 <= i < |t| => t[i].domain)
  }

  /** Looking up any listed domain gives back that domain's own row. */
  lemma LookupOwnDomain(i: nat)
    requires i < Count
    ensures PrefectureByDomain(AllDomains()[i]) == Some(Table()[i])
  {
    var t := Table();
    forall j | 0 <= j < i ensures t[j].domain != t[i].domain {
      DomainsDistinct(j, i);
    }
  }

  /** A domain outside the table has no prefecture. */
  lemma LookupUnknownDomain(domain: string)
    requires domain !in AllDomains()
    ensures PrefectureByDomain(domain) == None
  {
    var t := Table();
    forall i | 0 <= i < |t| ensures t[i].domain != domain {
      assert AllDomains()[i] == t[i].domain;
    }
  }

  /** The table covers exactly the thirteen regions. */
  lemma AllRegionsAreTheThirteen()
    ensures AllRegions() == RegionNames
  {
    var t := Table();
    forall region | region in AllRegions() ensures region in RegionNames {
      var p :| p in t && p.region == region;
      var i :| 0 <= i < |t| && t[i] == p;
      RegionAtIsNamed(i);
    }
    forall region | region in RegionNames ensures region in AllRegions() {
      var i := FirstRowOf(region);
      assert t[i].region == region;
    }
  }

  /** Every row's region is one of the thirteen. */
  lemma RegionAtIsNamed(i: nat)
    requires i < Count
    ensures RegionAt(i) in RegionNames
  {
  }

  /** The first row of each of the thirteen regions. */
  function FirstRowOf(region: string): (i: nat)
    requires region in RegionNames
    ensures i < Count && RegionAt(i) == region
  {
    if region == "Auvergne-Rhône-Alpes" then 0
    else if region == "Bourgogne-Franche-Comté" then 12
    else if region == "Bretagne" then 20
    else if region == "Centre-Val de Loire" then 24
    else if region == "Grand Est" then 30
    else if region == "Hauts-de-France" then 40
    else if region == "Île-de-France" then 45
    else if region == "Normandie" then 53
    else if region == "Nouvelle-Aquitaine" then 58
    else if region == "Occitanie" then 70
    else if region == "Pays de la Loire" then 83
    else if region == "Provence-Alpes-Côte d'Azur" then 88
    else 94
  }

  /** A region has prefectures exactly when it is one of `get_all_regions()`. */
  lemma RegionListedIffItHasPrefectures(region: string)
    ensures PrefecturesByRegion(region) != [] <==> region in AllRegions()
  {
    if region in AllRegions() {
      var p :| p in Table() && p.region == region;
      assert p in PrefecturesByRegion(region);
    }
    if PrefecturesByRegion(region) != [] {
      assert PrefecturesByRegion(region)[0] in PrefecturesByRegion(region);
    }
  }

  // ---------------------------------------------------------------------------
  // Distinct domains and codes, checked a block of rows at a time
  // ---------------------------------------------------------------------------

  lemma DomainsRow0()
    ensures forall j: nat :: 0 < j < Count ==> DomainAt(j) != DomainAt(0)
  {
  }

  lemma DomainsRow1()
    ensures forall j: nat :: 1 < j < Count ==> DomainAt(j) != DomainAt(1)
  {
  }

  lemma DomainsRow2()
    ensures forall j: nat :: 2 < j < Count ==> DomainAt(j) != DomainAt(2)
  {
  }

  lemma DomainsRow3()
    ensures forall j: nat :: 3 < j < Count ==> DomainAt(j) != DomainAt(3)
  {
  }

  lemma DomainsRow4()
    ensures forall j: nat :: 4 < j < Count ==> DomainAt(j) != DomainAt(4)
  {
  }

  lemma DomainsRow5()
    ensures forall j: nat :: 5 < j < Count ==> DomainAt(j) != DomainAt(5)
  {
  }

  lemma DomainsRow6()
    ensures forall j: nat :: 6 < j < Count ==> DomainAt(j) != DomainAt(6)
  {
  }

  lemma DomainsRow7()
    ensures forall j: nat :: 7 < j < Count ==> DomainAt(j) != DomainAt(7)
  {
  }

  lemma DomainsRow8()
    ensures forall j: nat :: 8 < j < Count ==> DomainAt(j) != DomainAt(8)
  {
  }

  lemma DomainsRow9()
    ensures forall j: nat :: 9 < j < Count ==> DomainAt(j) != DomainAt(9)
  {
  }

  lemma DomainsRow10()
    ensures forall j: nat :: 10 < j < Count ==> DomainAt(j) != DomainAt(10)
  {
  }

  lemma DomainsRow11()
    ensures forall j: nat :: 11 < j < Count ==> DomainAt(j) != DomainAt(11)
  {
  }

  lemma DomainsRow12()
    ensures forall j: nat :: 12 < j < Count ==> DomainAt(j) != DomainAt(12)
  {
  }

  lemma DomainsRow13()
    ensures forall j: nat :: 13 < j < Count ==> DomainAt(j) != DomainAt(13)
  {
  }

  lemma DomainsRow14()
    ensures forall j: nat :: 14 < j < Count ==> DomainAt(j) != DomainAt(14)
  {
  }

  lemma DomainsRow15()
    ensures forall j: nat :: 15 < j < Count ==> DomainAt(j) != DomainAt(15)
  {
  }

  lemma DomainsRow16()
    ensures forall j: nat :: 16 < j < Count ==> DomainAt(j) != DomainAt(16)
  {
  }

  lemma DomainsRow17()
    ensures forall j: nat :: 17 < j < Count ==> DomainAt(j) != DomainAt(17)
  {
  }

  lemma DomainsRow18()
    ensures forall j: nat :: 18 < j < Count ==> DomainAt(j) != DomainAt(18)
  {
  }

  lemma DomainsRow19()
    ensures forall j: nat :: 19 < j < Count ==> DomainAt(j) != DomainAt(19)
  {
  }

  lemma DomainsRow20()
    ensures forall j: nat :: 20 < j < Count ==> DomainAt(j) != DomainAt(20)
  {
  }

  lemma DomainsRow21()
    ensures forall j: nat :: 21 < j < Count ==> DomainAt(j) != DomainAt(21)
  {
  }

  lemma DomainsRow22()
    ensures forall j: nat :: 22 < j < Count ==> DomainAt(j) != DomainAt(22)
  {
  }

  lemma DomainsRow23()
    ensures forall j: nat :: 23 < j < Count ==> DomainAt(j) != DomainAt(23)
  {
  }

  lemma DomainsRow24()
    ensures forall j: nat :: 24 < j < Count ==> DomainAt(j) != DomainAt(24)
  {
  }

  lemma DomainsRow25()
    ensures forall j: nat :: 25 < j < Count ==> DomainAt(j) != DomainAt(25)
  {
  }

  lemma DomainsRow26()
    ensures forall j: nat :: 26 < j < Count ==> DomainAt(j) != DomainAt(26)
  {
  }

  lemma DomainsRow27()
    ensures forall j: nat :: 27 < j < Count ==> DomainAt(j) != DomainAt(27)
  {
  }

  lemma DomainsRow28()
    ensures forall j: nat :: 28 < j < Count ==> DomainAt(j) != DomainAt(28)
  {
  }

  lemma DomainsRow29()
    ensures forall j: nat :: 29 < j < Count ==> DomainAt(j) != DomainAt(29)
  {
  }

  lemma DomainsRow30()
    ensures forall j: nat :: 30 < j < Count ==> DomainAt(j) != DomainAt(30)
  {
  }

  lemma DomainsRow31()
    ensures forall j: nat :: 31 < j < Count ==> DomainAt(j) != DomainAt(31)
  {
  }

  lemma DomainsRow32()
    ensures forall j: nat :: 32 < j < Count ==> DomainAt(j) != DomainAt(32)
  {
  }

  lemma DomainsRow33()
    ensures forall j: nat :: 33 < j < Count ==> DomainAt(j) != DomainAt(33)
  {
  }

  lemma DomainsRow34()
    ensures forall j: nat :: 34 < j < Count ==> DomainAt(j) != DomainAt(34)
  {
  }

  lemma DomainsRow35()
    ensures forall j: nat :: 35 < j < Count ==> DomainAt(j) != DomainAt(35)
  {
  }

  lemma DomainsRow36()
    ensures forall j: nat :: 36 < j < Count ==> DomainAt(j) != DomainAt(36)
  {
  }

  lemma DomainsRow37()
    ensures forall j: nat :: 37 < j < Count ==> DomainAt(j) != DomainAt(37)
  {
  }

  lemma DomainsRow38()
    ensures forall j: nat :: 38 < j < Count ==> DomainAt(j) != DomainAt(38)
  {
  }

  lemma DomainsRow39()
    ensures forall j: nat :: 39 < j < Count ==> DomainAt(j) != DomainAt(39)
  {
  }

  lemma DomainsRow40()
    ensures forall j: nat :: 40 < j < Count ==> DomainAt(j) != DomainAt(40)
  {
  }

  lemma DomainsRow41()
    ensures forall j: nat :: 41 < j < Count ==> DomainAt(j) != DomainAt(41)
  {
  }

  lemma DomainsRow42()
    ensures forall j: nat :: 42 < j < Count ==> DomainAt(j) != DomainAt(42)
  {
  }

  lemma DomainsRow43()
    ensures forall j: nat :: 43 < j < Count ==> DomainAt(j) != DomainAt(43)
  {
  }

  lemma DomainsRow44()
    ensures forall j: nat :: 44 < j < Count ==> DomainAt(j) != DomainAt(44)
  {
  }

  lemma DomainsRow45()
    ensures forall j: nat :: 45 < j < Count ==> DomainAt(j) != DomainAt(45)
  {
  }

  lemma DomainsRow46()
    ensures forall j: nat :: 46 < j < Count ==> DomainAt(j) != DomainAt(46)
  {
  }

  lemma DomainsRow47()
    ensures forall j: nat :: 47 < j < Count ==> DomainAt(j) != DomainAt(47)
  {
  }

  lemma DomainsRow48()
    ensures forall j: nat :: 48 < j < Count ==> DomainAt(j) != DomainAt(48)
  {
  }

  lemma DomainsRow49()
    ensures forall j: nat :: 49 < j < Count ==> DomainAt(j) != DomainAt(49)
  {
  }

  lemma DomainsRow50()
    ensures forall j: nat :: 50 < j < Count ==> DomainAt(j) != DomainAt(50)
  {
  }

  lemma DomainsRow51()
    ensures forall j: nat :: 51 < j < Count ==> DomainAt(j) != DomainAt(51)
  {
  }

  lemma DomainsRow52()
    ensures forall j: nat :: 52 < j < Count ==> DomainAt(j) != DomainAt(52)
  {
  }

  lemma DomainsRow53()
    ensures forall j: nat :: 53 < j < Count ==> DomainAt(j) != DomainAt(53)
  {
  }

  lemma DomainsRow54()
    ensures forall j: nat :: 54 < j < Count ==> DomainAt(j) != DomainAt(54)
  {
  }

  lemma DomainsRow55()
    ensures forall j: nat :: 55 < j < Count ==> DomainAt(j) != DomainAt(55)
  {
  }

  lemma DomainsRow56()
    ensures forall j: nat :: 56 < j < Count ==> DomainAt(j) != DomainAt(56)
  {
  }

  lemma DomainsRow57()
    ensures forall j: nat :: 57 < j < Count ==> DomainAt(j) != DomainAt(57)
  {
  }

  lemma DomainsRow58()
    ensures forall j: nat :: 58 < j < Count ==> DomainAt(j) != DomainAt(58)
  {
  }

  lemma DomainsRow59()
    ensures forall j: nat :: 59 < j < Count ==> DomainAt(j) != DomainAt(59)
  {
  }

  lemma DomainsRow60()
    ensures forall j: nat :: 60 < j < Count ==> DomainAt(j) != DomainAt(60)
  {
  }

  lemma DomainsRow61()
    ensures forall j: nat :: 61 < j < Count ==> DomainAt(j) != DomainAt(61)
  {
  }

  lemma DomainsRow62()
    ensures forall j: nat :: 62 < j < Count ==> DomainAt(j) != DomainAt(62)
  {
  }

  lemma DomainsRow63()
    ensures forall j: nat :: 63 < j < Count ==> DomainAt(j) != DomainAt(63)
  {
  }

  lemma DomainsRow64()
    ensures forall j: nat :: 64 < j < Count ==> DomainAt(j) != DomainAt(64)
  {
  }

  lemma DomainsRow65()
    ensures forall j: nat :: 65 < j < Count ==> DomainAt(j) != DomainAt(65)
  {
  }

  lemma DomainsRow66()
    ensures forall j: nat :: 66 < j < Count ==> DomainAt(j) != DomainAt(66)
  {
  }

  lemma DomainsRow67()
    ensures forall j: nat :: 67 < j < Count ==> DomainAt(j) != DomainAt(67)
  {
  }

  lemma DomainsRow68()
    ensures forall j: nat :: 68 < j < Count ==> DomainAt(j) != DomainAt(68)
  {
  }

  lemma DomainsRow69()
    ensures forall j: nat :: 69 < j < Count ==> DomainAt(j) != DomainAt(69)
  {
  }

  lemma DomainsRow70()
    ensures forall j: nat :: 70 < j < Count ==> DomainAt(j) != DomainAt(70)
  {
  }

  lemma DomainsRow71()
    ensures forall j: nat :: 71 < j < Count ==> DomainAt(j) != DomainAt(71)
  {
  }

  lemma DomainsRow72()
    ensures forall j: nat :: 72 < j < Count ==> DomainAt(j) != DomainAt(72)
  {
  }

  lemma DomainsRow73()
    ensures forall j: nat :: 73 < j < Count ==> DomainAt(j) != DomainAt(73)
  {
  }

  lemma DomainsRow74()
    ensures forall j: nat :: 74 < j < Count ==> DomainAt(j) != DomainAt(74)
  {
  }

  lemma DomainsRow75()
    ensures forall j: nat :: 75 < j < Count ==> DomainAt(j) != DomainAt(75)
  {
  }

  lemma DomainsRow76()
    ensures forall j: nat :: 76 < j < Count ==> DomainAt(j) != DomainAt(76)
  {
  }

  lemma DomainsRow77()
    ensures forall j: nat :: 77 < j < Count ==> DomainAt(j) != DomainAt(77)
  {
  }

  lemma DomainsRow78()
    ensures forall j: nat :: 78 < j < Count ==> DomainAt(j) != DomainAt(78)
  {
  }

  lemma DomainsRow79()
    ensures forall j: nat :: 79 < j < Count ==> DomainAt(j) != DomainAt(79)
  {
  }

  lemma DomainsRow80()
    ensures forall j: nat :: 80 < j < Count ==> DomainAt(j) != DomainAt(80)
  {
  }

  lemma DomainsRow81()
    ensures forall j: nat :: 81 < j < Count ==> DomainAt(j) != DomainAt(81)
  {
  }

  lemma DomainsRow82()
    ensures forall j: nat :: 82 < j < Count ==> DomainAt(j) != DomainAt(82)
  {
  }

  lemma DomainsRow83()
    ensures forall j: nat :: 83 < j < Count ==> DomainAt(j) != DomainAt(83)
  {
  }

  lemma DomainsRow84()
    ensures forall j: nat :: 84 < j < Count ==> DomainAt(j) != DomainAt(84)
  {
  }

  lemma DomainsRow85()
    ensures forall j: nat :: 85 < j < Count ==> DomainAt(j) != DomainAt(85)
  {
  }

  lemma DomainsRow86()
    ensures forall j: nat :: 86 < j < Count ==> DomainAt(j) != DomainAt(86)
  {
  }

  lemma DomainsRow87()
    ensures forall j: nat :: 87 < j < Count ==> DomainAt(j) != DomainAt(87)
  {
  }

  lemma DomainsRow88()
    ensures forall j: nat :: 88 < j < Count ==> DomainAt(j) != DomainAt(88)
  {
  }

  lemma DomainsRow89()
    ensures forall j: nat :: 89 < j < Count ==> DomainAt(j) != DomainAt(89)
  {
  }

  lemma DomainsRow90()
    ensures forall j: nat :: 90 < j < Count ==> DomainAt(j) != DomainAt(90)
  {
  }

  lemma DomainsRow91()
    ensures forall j: nat :: 91 < j < Count ==> DomainAt(j) != DomainAt(91)
  {
  }

  lemma DomainsRow92()
    ensures forall j: nat :: 92 < j < Count ==> DomainAt(j) != DomainAt(92)
  {
  }

  lemma DomainsRow93()
    ensures forall j: nat :: 93 < j < Count ==> DomainAt(j) != DomainAt(93)
  {
  }

  lemma DomainsRow94()
    ensures forall j: nat :: 94 < j < Count ==> DomainAt(j) != DomainAt(94)
  {
  }

  lemma DomainsDistinctFrom0(i: nat, j: nat)
    requires 0 <= i < 8 && i < j < Count
    ensures DomainAt(i) != DomainAt(j)
  {
    if i == 0 {
      DomainsRow0();
    } else if i == 1 {
      DomainsRow1();
    } else if i == 2 {
      DomainsRow2();
    } else if i == 3 {
      DomainsRow3();
    } else if i == 4 {
      DomainsRow4();
    } else if i == 5 {
      DomainsRow5();
    } else if i == 6 {
      DomainsRow6();
    } else {
      DomainsRow7();
    }
  }

  lemma DomainsDistinctFrom8(i: nat, j: nat)
    requires 8 <= i < 16 && i < j < Count
    ensures DomainAt(i) != DomainAt(j)
  {
    if i == 8 {
      DomainsRow8();
    } else if i == 9 {
      DomainsRow9();
    } else if i == 10 {
      DomainsRow10();
    } else if i == 11 {
      DomainsRow11();
    } else if i == 12 {
      DomainsRow12();
    } else if i == 13 {
      DomainsRow13();
    } else if i == 14 {
      DomainsRow14();
    } else {
      DomainsRow15();
    }
  }

  lemma DomainsDistinctFrom16(i: nat, j: nat)
    requires 16 <= i < 24 && i < j < Count
    ensures DomainAt(i) != DomainAt(j)
  {
    if i == 16 {
      DomainsRow16();
    } else if i == 17 {
      DomainsRow17();
    } else if i == 18 {
      DomainsRow18();
    } else if i == 19 {
      DomainsRow19();
    } else if i == 20 {
      DomainsRow20();
    } else if i == 21 {
      DomainsRow21();
    } else if i == 22 {
      DomainsRow22();
    } else {
      DomainsRow23();
    }
  }

  lemma DomainsDistinctFrom24(i: nat, j: nat)
    requires 24 <= i < 32 && i < j < Count
    ensures DomainAt(i) != DomainAt(j)
  {
    if i == 24 {
      DomainsRow24();
    } else if i == 25 {
      DomainsRow25();
    } else if i == 26 {
      DomainsRow26();
    } else if i == 27 {
      DomainsRow27();
    } else if i == 28 {
      DomainsRow28();
    } else if i == 29 {
      DomainsRow29();
    } else if i == 30 {
      DomainsRow30();
    } else {
      DomainsRow31();
    }
  }

  lemma DomainsDistinctFrom32(i: nat, j: nat)
    requires 32 <= i < 40 && i < j < Count
    ensures DomainAt(i) != DomainAt(j)
  {
    if i == 32 {
      DomainsRow32();
    } else if i == 33 {
      DomainsRow33();
    } else if i == 34 {
      DomainsRow34();
    } else if i == 35 {
      DomainsRow35();
    } else if i == 36 {
      DomainsRow36();
    } else if i == 37 {
      DomainsRow37();
    } else if i == 38 {
      DomainsRow38();
    } else {
      DomainsRow39();
    }
  }

  lemma DomainsDistinctFrom40(i: nat, j: nat)
    requires 40 <= i < 48 && i < j < Count
    ensures DomainAt(i) != DomainAt(j)
  {
    if i == 40 {
      DomainsRow40();
    } else if i == 41 {
      DomainsRow41();
    } else if i == 42 {
      DomainsRow42();
    } else if i == 43 {
      DomainsRow43();
    } else if i == 44 {
      DomainsRow44();
    } else if i == 45 {
      DomainsRow45();
    } else if i == 46 {
      DomainsRow46();
    } else {
      DomainsRow47();
    }
  }

  lemma DomainsDistinctFrom48(i: nat, j: nat)
    requires 48 <= i < 56 && i < j < Count
    ensures DomainAt(i) != DomainAt(j)
  {
    if i == 48 {
      DomainsRow48();
    } else if i == 49 {
      DomainsRow49();
    } else if i == 50 {
      DomainsRow50();
    } else if i == 51 {
      DomainsRow51();
    } else if i == 52 {
      DomainsRow52();
    } else if i == 53 {
      DomainsRow53();
    } else if i == 54 {
      DomainsRow54();
    } else {
      DomainsRow55();
    }
  }

  lemma DomainsDistinctFrom56(i: nat, j: nat)
    requires 56 <= i < 64 && i < j < Count
    ensures DomainAt(i) != DomainAt(j)
  {
    if i == 56 {
      DomainsRow56();
    } else if i == 57 {
      DomainsRow57();
    } else if i == 58 {
      DomainsRow58();
    } else if i == 59 {
      DomainsRow59();
    } else if i == 60 {
      DomainsRow60();
    } else if i == 61 {
      DomainsRow61();
    } else if i == 62 {
      DomainsRow62();
    } else {
      DomainsRow63();
    }
  }

  lemma DomainsDistinctFrom64(i: nat, j: nat)
    requires 64 <= i < 72 && i < j < Count
    ensures DomainAt(i) != DomainAt(j)
  {
    if i == 64 {
      DomainsRow64();
    } else if i == 65 {
      DomainsRow65();
    } else if i == 66 {
      DomainsRow66();
    } else if i == 67 {
      DomainsRow67();
    } else if i == 68 {
      DomainsRow68();
    } else if i == 69 {
      DomainsRow69();
    } else if i == 70 {
      DomainsRow70();
    } else {
      DomainsRow71();
    }
  }

  lemma DomainsDistinctFrom72(i: nat, j: nat)
    requires 72 <= i < 80 && i < j < Count
    ensures DomainAt(i) != DomainAt(j)
  {
    if i == 72 {
      DomainsRow72();
    } else if i == 73 {
      DomainsRow73();
    } else if i == 74 {
      DomainsRow74();
    } else if i == 75 {
      DomainsRow75();
    } else if i == 76 {
      DomainsRow76();
    } else if i == 77 {
      DomainsRow77();
    } else if i == 78 {
      DomainsRow78();
    } else {
      DomainsRow79();
    }
  }

  lemma DomainsDistinctFrom80(i: nat, j: nat)
    requires 80 <= i < 88 && i < j < Count
    ensures DomainAt(i) != DomainAt(j)
  {
    if i == 80 {
      DomainsRow80();
    } else if i == 81 {
      DomainsRow81();
    } else if i == 82 {
      DomainsRow82();
    } else if i == 83 {
      DomainsRow83();
    } else if i == 84 {
      DomainsRow84();
    } else if i == 85 {
      DomainsRow85();
    } else if i == 86 {
      DomainsRow86();
    } else {
      DomainsRow87();
    }
  }

  lemma DomainsDistinctFrom88(i: nat, j: nat)
    requires 88 <= i < 95 && i < j < Count
    ensures DomainAt(i) != DomainAt(j)
  {
    if i == 88 {
      DomainsRow88();
    } else if i == 89 {
      DomainsRow89();
    } else if i == 90 {
      DomainsRow90();
    } else if i == 91 {
      DomainsRow91();
    } else if i == 92 {
      DomainsRow92();
    } else if i == 93 {
      DomainsRow93();
    } else {
      DomainsRow94();
    }
  }

  lemma CodesRow0()
    ensures forall j: nat :: 0 < j < Count ==> CodeAt(j) != CodeAt(0)
  {
  }

  lemma CodesRow1()
    ensures forall j: nat :: 1 < j < Count ==> CodeAt(j) != CodeAt(1)
  {
  }

  lemma CodesRow2()
    ensures forall j: nat :: 2 < j < Count ==> CodeAt(j) != CodeAt(2)
  {
  }

  lemma CodesRow3()
    ensures forall j: nat :: 3 < j < Count ==> CodeAt(j) != CodeAt(3)
  {
  }

  lemma CodesRow4()
    ensures forall j: nat :: 4 < j < Count ==> CodeAt(j) != CodeAt(4)
  {
  }

  lemma CodesRow5()
    ensures forall j: nat :: 5 < j < Count ==> CodeAt(j) != CodeAt(5)
  {
  }

  lemma CodesRow6()
    ensures forall j: nat :: 6 < j < Count ==> CodeAt(j) != CodeAt(6)
  {
  }

  lemma CodesRow7()
    ensures forall j: nat :: 7 < j < Count ==> CodeAt(j) != CodeAt(7)
  {
  }

  lemma CodesRow8()
    ensures forall j: nat :: 8 < j < Count ==> CodeAt(j) != CodeAt(8)
  {
  }

  lemma CodesRow9()
    ensures forall j: nat :: 9 < j < Count ==> CodeAt(j) != CodeAt(9)
  {
  }

  lemma CodesRow10()
    ensures forall j: nat :: 10 < j < Count ==> CodeAt(j) != CodeAt(10)
  {
  }

  lemma CodesRow11()
    ensures forall j: nat :: 11 < j < Count ==> CodeAt(j) != CodeAt(11)
  {
  }

  lemma CodesRow12()
    ensures forall j: nat :: 12 < j < Count ==> CodeAt(j) != CodeAt(12)
  {
  }

  lemma CodesRow13()
    ensures forall j: nat :: 13 < j < Count ==> CodeAt(j) != CodeAt(13)
  {
  }

  lemma CodesRow14()
    ensures forall j: nat :: 14 < j < Count ==> CodeAt(j) != CodeAt(14)
  {
  }

  lemma CodesRow15()
    ensures forall j: nat :: 15 < j < Count ==> CodeAt(j) != CodeAt(15)
  {
  }

  lemma CodesRow16()
    ensures forall j: nat :: 16 < j < Count ==> CodeAt(j) != CodeAt(16)
  {
  }

  lemma CodesRow17()
    ensures forall j: nat :: 17 < j < Count ==> CodeAt(j) != CodeAt(17)
  {
  }

  lemma CodesRow18()
    ensures forall j: nat :: 18 < j < Count ==> CodeAt(j) != CodeAt(18)
  {
  }

  lemma CodesRow19()
    ensures forall j: nat :: 19 < j < Count ==> CodeAt(j) != CodeAt(19)
  {
  }

  lemma CodesRow20()
    ensures forall j: nat :: 20 < j < Count ==> CodeAt(j) != CodeAt(20)
  {
  }

  lemma CodesRow21()
    ensures forall j: nat :: 21 < j < Count ==> CodeAt(j) != CodeAt(21)
  {
  }

  lemma CodesRow22()
    ensures forall j: nat :: 22 < j < Count ==> CodeAt(j) != CodeAt(22)
  {
  }

  lemma CodesRow23()
    ensures forall j: nat :: 23 < j < Count ==> CodeAt(j) != CodeAt(23)
  {
  }

  lemma CodesRow24()
    ensures forall j: nat :: 24 < j < Count ==> CodeAt(j) != CodeAt(24)
  {
  }

  lemma CodesRow25()
    ensures forall j: nat :: 25 < j < Count ==> CodeAt(j) != CodeAt(25)
  {
  }

  lemma CodesRow26()
    ensures forall j: nat :: 26 < j < Count ==> CodeAt(j) != CodeAt(26)
  {
  }

  lemma CodesRow27()
    ensures forall j: nat :: 27 < j < Count ==> CodeAt(j) != CodeAt(27)
  {
  }

  lemma CodesRow28()
    ensures forall j: nat :: 28 < j < Count ==> CodeAt(j) != CodeAt(28)
  {
  }

  lemma CodesRow29()
    ensures forall j: nat :: 29 < j < Count ==> CodeAt(j) != CodeAt(29)
  {
  }

  lemma CodesRow30()
    ensures forall j: nat :: 30 < j < Count ==> CodeAt(j) != CodeAt(30)
  {
  }

  lemma CodesRow31()
    ensures forall j: nat :: 31 < j < Count ==> CodeAt(j) != CodeAt(31)
  {
  }

  lemma CodesRow32()
    ensures forall j: nat :: 32 < j < Count ==> CodeAt(j) != CodeAt(32)
  {
  }

  lemma CodesRow33()
    ensures forall j: nat :: 33 < j < Count ==> CodeAt(j) != CodeAt(33)
  {
  }

  lemma CodesRow34()
    ensures forall j: nat :: 34 < j < Count ==> CodeAt(j) != CodeAt(34)
  {
  }

  lemma CodesRow35()
    ensures forall j: nat :: 35 < j < Count ==> CodeAt(j) != CodeAt(35)
  {
  }

  lemma CodesRow36()
    ensures forall j: nat :: 36 < j < Count ==> CodeAt(j) != CodeAt(36)
  {
  }

  lemma CodesRow37()
    ensures forall j: nat :: 37 < j < Count ==> CodeAt(j) != CodeAt(37)
  {
  }

  lemma CodesRow38()
    ensures forall j: nat :: 38 < j < Count ==> CodeAt(j) != CodeAt(38)
  {
  }

  lemma CodesRow39()
    ensures forall j: nat :: 39 < j < Count ==> CodeAt(j) != CodeAt(39)
  {
  }

  lemma CodesRow40()
    ensures forall j: nat :: 40 < j < Count ==> CodeAt(j) != CodeAt(40)
  {
  }

  lemma CodesRow41()
    ensures forall j: nat :: 41 < j < Count ==> CodeAt(j) != CodeAt(41)
  {
  }

  lemma CodesRow42()
    ensures forall j: nat :: 42 < j < Count ==> CodeAt(j) != CodeAt(42)
  {
  }

  lemma CodesRow43()
    ensures forall j: nat :: 43 < j < Count ==> CodeAt(j) != CodeAt(43)
  {
  }

  lemma CodesRow44()
    ensures forall j: nat :: 44 < j < Count ==> CodeAt(j) != CodeAt(44)
  {
  }

  lemma CodesRow45()
    ensures forall j: nat :: 45 < j < Count ==> CodeAt(j) != CodeAt(45)
  {
  }

  lemma CodesRow46()
    ensures forall j: nat :: 46 < j < Count ==> CodeAt(j) != CodeAt(46)
  {
  }

  lemma CodesRow47()
    ensures forall j: nat :: 47 < j < Count ==> CodeAt(j) != CodeAt(47)
  {
  }

  lemma CodesRow48()
    ensures forall j: nat :: 48 < j < Count ==> CodeAt(j) != CodeAt(48)
  {
  }

  lemma CodesRow49()
    ensures forall j: nat :: 49 < j < Count ==> CodeAt(j) != CodeAt(49)
  {
  }

  lemma CodesRow50()
    ensures forall j: nat :: 50 < j < Count ==> CodeAt(j) != CodeAt(50)
  {
  }

  lemma CodesRow51()
    ensures forall j: nat :: 51 < j < Count ==> CodeAt(j) != CodeAt(51)
  {
  }

  lemma CodesRow52()
    ensures forall j: nat :: 52 < j < Count ==> CodeAt(j) != CodeAt(52)
  {
  }

  lemma CodesRow53()
    ensures forall j: nat :: 53 < j < Count ==> CodeAt(j) != CodeAt(53)
  {
  }

  lemma CodesRow54()
    ensures forall j: nat :: 54 < j < Count ==> CodeAt(j) != CodeAt(54)
  {
  }

  lemma CodesRow55()
    ensures forall j: nat :: 55 < j < Count ==> CodeAt(j) != CodeAt(55)
  {
  }

  lemma CodesRow56()
    ensures forall j: nat :: 56 < j < Count ==> CodeAt(j) != CodeAt(56)
  {
  }

  lemma CodesRow57()
    ensures forall j: nat :: 57 < j < Count ==> CodeAt(j) != CodeAt(57)
  {
  }

  lemma CodesRow58()
    ensures forall j: nat :: 58 < j < Count ==> CodeAt(j) != CodeAt(58)
  {
  }

  lemma CodesRow59()
    ensures forall j: nat :: 59 < j < Count ==> CodeAt(j) != CodeAt(59)
  {
  }

  lemma CodesRow60()
    ensures forall j: nat :: 60 < j < Count ==> CodeAt(j) != CodeAt(60)
  {
  }

  lemma CodesRow61()
    ensures forall j: nat :: 61 < j < Count ==> CodeAt(j) != CodeAt(61)
  {
  }

  lemma CodesRow62()
    ensures forall j: nat :: 62 < j < Count ==> CodeAt(j) != CodeAt(62)
  {
  }

  lemma CodesRow63()
    ensures forall j: nat :: 63 < j < Count ==> CodeAt(j) != CodeAt(63)
  {
  }

  lemma CodesRow64()
    ensures forall j: nat :: 64 < j < Count ==> CodeAt(j) != CodeAt(64)
  {
  }

  lemma CodesRow65()
    ensures forall j: nat :: 65 < j < Count ==> CodeAt(j) != CodeAt(65)
  {
  }

  lemma CodesRow66()
    ensures forall j: nat :: 66 < j < Count ==> CodeAt(j) != CodeAt(66)
  {
  }

  lemma CodesRow67()
    ensures forall j: nat :: 67 < j < Count ==> CodeAt(j) != CodeAt(67)
  {
  }

  lemma CodesRow68()
    ensures forall j: nat :: 68 < j < Count ==> CodeAt(j) != CodeAt(68)
  {
  }

  lemma CodesRow69()
    ensures forall j: nat :: 69 < j < Count ==> CodeAt(j) != CodeAt(69)
  {
  }

  lemma CodesRow70()
    ensures forall j: nat :: 70 < j < Count ==> CodeAt(j) != CodeAt(70)
  {
  }

  lemma CodesRow71()
    ensures forall j: nat :: 71 < j < Count ==> CodeAt(j) != CodeAt(71)
  {
  }

  lemma CodesRow72()
    ensures forall j: nat :: 72 < j < Count ==> CodeAt(j) != CodeAt(72)
  {
  }

  lemma CodesRow73()
    ensures forall j: nat :: 73 < j < Count ==> CodeAt(j) != CodeAt(73)
  {
  }

  lemma CodesRow74()
    ensures forall j: nat :: 74 < j < Count ==> CodeAt(j) != CodeAt(74)
  {
  }

  lemma CodesRow75()
    ensures forall j: nat :: 75 < j < Count ==> CodeAt(j) != CodeAt(75)
  {
  }

  lemma CodesRow76()
    ensures forall j: nat :: 76 < j < Count ==> CodeAt(j) != CodeAt(76)
  {
  }

  lemma CodesRow77()
    ensures forall j: nat :: 77 < j < Count ==> CodeAt(j) != CodeAt(77)
  {
  }

  lemma CodesRow78()
    ensures forall j: nat :: 78 < j < Count ==> CodeAt(j) != CodeAt(78)
  {
  }

  lemma CodesRow79()
    ensures forall j: nat :: 79 < j < Count ==> CodeAt(j) != CodeAt(79)
  {
  }

  lemma CodesRow80()
    ensures forall j: nat :: 80 < j < Count ==> CodeAt(j) != CodeAt(80)
  {
  }

  lemma CodesRow81()
    ensures forall j: nat :: 81 < j < Count ==> CodeAt(j) != CodeAt(81)
  {
  }

  lemma CodesRow82()
    ensures forall j: nat :: 82 < j < Count ==> CodeAt(j) != CodeAt(82)
  {
  }

  lemma CodesRow83()
    ensures forall j: nat :: 83 < j < Count ==> CodeAt(j) != CodeAt(83)
  {
  }

  lemma CodesRow84()
    ensures forall j: nat :: 84 < j < Count ==> CodeAt(j) != CodeAt(84)
  {
  }

  lemma CodesRow85()
    ensures forall j: nat :: 85 < j < Count ==> CodeAt(j) != CodeAt(85)
  {
  }

  lemma CodesRow86()
    ensures forall j: nat :: 86 < j < Count ==> CodeAt(j) != CodeAt(86)
  {
  }

  lemma CodesRow87()
    ensures forall j: nat :: 87 < j < Count ==> CodeAt(j) != CodeAt(87)
  {
  }

  lemma CodesRow88()
    ensures forall j: nat :: 88 < j < Count ==> CodeAt(j) != CodeAt(88)
  {
  }

  lemma CodesRow89()
    ensures forall j: nat :: 89 < j < Count ==> CodeAt(j) != CodeAt(89)
  {
  }

  lemma CodesRow90()
    ensures forall j: nat :: 90 < j < Count ==> CodeAt(j) != CodeAt(90)
  {
  }

  lemma CodesRow91()
    ensures forall j: nat :: 91 < j < Count ==> CodeAt(j) != CodeAt(91)
  {
  }

  lemma CodesRow92()
    ensures forall j: nat :: 92 < j < Count ==> CodeAt(j) != CodeAt(92)
  {
  }

  lemma CodesRow93()
    ensures forall j: nat :: 93 < j < Count ==> CodeAt(j) != CodeAt(93)
  {
  }

  lemma CodesRow94()
    ensures forall j: nat :: 94 < j < Count ==> CodeAt(j) != CodeAt(94)
  {
  }

  lemma CodesDistinctFrom0(i: nat, j: nat)
    requires 0 <= i < 8 && i < j < Count
    ensures CodeAt(i) != CodeAt(j)
  {
    if i == 0 {
      CodesRow0();
    } else if i == 1 {
      CodesRow1();
    } else if i == 2 {
      CodesRow2();
    } else if i == 3 {
      CodesRow3();
    } else if i == 4 {
      CodesRow4();
    } else if i == 5 {
      CodesRow5();
    } else if i == 6 {
      CodesRow6();
    } else {
      CodesRow7();
    }
  }

  lemma CodesDistinctFrom8(i: nat, j: nat)
    requires 8 <= i < 16 && i < j < Count
    ensures CodeAt(i) != CodeAt(j)
  {
    if i == 8 {
      CodesRow8();
    } else if i == 9 {
      CodesRow9();
    } else if i == 10 {
      CodesRow10();
    } else if i == 11 {
      CodesRow11();
    } else if i == 12 {
      CodesRow12();
    } else if i == 13 {
      CodesRow13();
    } else if i == 14 {
      CodesRow14();
    } else {
      CodesRow15();
    }
  }

  lemma CodesDistinctFrom16(i: nat, j: nat)
    requires 16 <= i < 24 && i < j < Count
    ensures CodeAt(i) != CodeAt(j)
  {
    if i == 16 {
      CodesRow16();
    } else if i == 17 {
      CodesRow17();
    } else if i == 18 {
      CodesRow18();
    } else if i == 19 {
      CodesRow19();
    } else if i == 20 {
      CodesRow20();
    } else if i == 21 {
      CodesRow21();
    } else if i == 22 {
      CodesRow22();
    } else {
      CodesRow23();
    }
  }

  lemma CodesDistinctFrom24(i: nat, j: nat)
    requires 24 <= i < 32 && i < j < Count
    ensures CodeAt(i) != CodeAt(j)
  {
    if i == 24 {
      CodesRow24();
    } else if i == 25 {
      CodesRow25();
    } else if i == 26 {
      CodesRow26();
    } else if i == 27 {
      CodesRow27();
    } else if i == 28 {
      CodesRow28();
    } else if i == 29 {
      CodesRow29();
    } else if i == 30 {
      CodesRow30();
    } else {
      CodesRow31();
    }
  }

  lemma CodesDistinctFrom32(i: nat, j: nat)
    requires 32 <= i < 40 && i < j < Count
    ensures CodeAt(i) != CodeAt(j)
  {
    if i == 32 {
      CodesRow32();
    } else if i == 33 {
      CodesRow33();
    } else if i == 34 {
      CodesRow34();
    } else if i == 35 {
      CodesRow35();
    } else if i == 36 {
      CodesRow36();
    } else if i == 37 {
      CodesRow37();
    } else if i == 38 {
      CodesRow38();
    } else {
      CodesRow39();
    }
  }

  lemma CodesDistinctFrom40(i: nat, j: nat)
    requires 40 <= i < 48 && i < j < Count
    ensures CodeAt(i) != CodeAt(j)
  {
    if i == 40 {
      CodesRow40();
    } else if i == 41 {
      CodesRow41();
    } else if i == 42 {
      CodesRow42();
    } else if i == 43 {
      CodesRow43();
    } else if i == 44 {
      CodesRow44();
    } else if i == 45 {
      CodesRow45();
    } else if i == 46 {
      CodesRow46();
    } else {
      CodesRow47();
    }
  }

  lemma CodesDistinctFrom48(i: nat, j: nat)
    requires 48 <= i < 56 && i < j < Count
    ensures CodeAt(i) != CodeAt(j)
  {
    if i == 48 {
      CodesRow48();
    } else if i == 49 {
      CodesRow49();
    } else if i == 50 {
      CodesRow50();
    } else if i == 51 {
      CodesRow51();
    } else if i == 52 {
      CodesRow52();
    } else if i == 53 {
      CodesRow53();
    } else if i == 54 {
      CodesRow54();
    } else {
      CodesRow55();
    }
  }

  lemma CodesDistinctFrom56(i: nat, j: nat)
    requires 56 <= i < 64 && i < j < Count
    ensures CodeAt(i) != CodeAt(j)
  {
    if i == 56 {
      CodesRow56();
    } else if i == 57 {
      CodesRow57();
    } else if i == 58 {
      CodesRow58();
    } else if i == 59 {
      CodesRow59();
    } else if i == 60 {
      CodesRow60();
    } else if i == 61 {
      CodesRow61();
    } else if i == 62 {
      CodesRow62();
    } else {
      CodesRow63();
    }
  }

  lemma CodesDistinctFrom64(i: nat, j: nat)
    requires 64 <= i < 72 && i < j < Count
    ensures CodeAt(i) != CodeAt(j)
  {
    if i == 64 {
      CodesRow64();
    } else if i == 65 {
      CodesRow65();
    } else if i == 66 {
      CodesRow66();
    } else if i == 67 {
      CodesRow67();
    } else if i == 68 {
      CodesRow68();
    } else if i == 69 {
      CodesRow69();
    } else if i == 70 {
      CodesRow70();
    } else {
      CodesRow71();
    }
  }

  lemma CodesDistinctFrom72(i: nat, j: nat)
    requires 72 <= i < 80 && i < j < Count
    ensures CodeAt(i) != CodeAt(j)
  {
    if i == 72 {
      CodesRow72();
    } else if i == 73 {
      CodesRow73();
    } else if i == 74 {
      CodesRow74();
    } else if i == 75 {
      CodesRow75();
    } else if i == 76 {
      CodesRow76();
    } else if i == 77 {
      CodesRow77();
    } else if i == 78 {
      CodesRow78();
    } else {
      CodesRow79();
    }
  }

  lemma CodesDistinctFrom80(i: nat, j: nat)
    requires 80 <= i < 88 && i < j < Count
    ensures CodeAt(i) != CodeAt(j)
  {
    if i == 80 {
      CodesRow80();
    } else if i == 81 {
      CodesRow81();
    } else if i == 82 {
      CodesRow82();
    } else if i == 83 {
      CodesRow83();
    } else if i == 84 {
      CodesRow84();
    } else if i == 85 {
      CodesRow85();
    } else if i == 86 {
      CodesRow86();
    } else {
      CodesRow87();
    }
  }

  lemma CodesDistinctFrom88(i: nat, j: nat)
    requires 88 <= i < 95 && i < j < Count
    ensures CodeAt(i) != CodeAt(j)
  {
    if i == 88 {
      CodesRow88();
    } else if i == 89 {
      CodesRow89();
    } else if i == 90 {
      CodesRow90();
    } else if i == 91 {
      CodesRow91();
    } else if i == 92 {
      CodesRow92();
    } else if i == 93 {
      CodesRow93();
    } else {
      CodesRow94();
    }
  }

  /** No two rows share a domain. */
  lemma DomainsDistinct(i: nat, j: nat)
    requires i < j < Count
    ensures DomainAt(i) != DomainAt(j)
  {
    if i < 8 {
      DomainsDistinctFrom0(i, j);
    } else if i < 16 {
      DomainsDistinctFrom8(i, j);
    } else if i < 24 {
      DomainsDistinctFrom16(i, j);
    } else if i < 32 {
      DomainsDistinctFrom24(i, j);
    } else if i < 40 {
      DomainsDistinctFrom32(i, j);
    } else if i < 48 {
      DomainsDistinctFrom40(i, j);
    } else if i < 56 {
      DomainsDistinctFrom48(i, j);
    } else if i < 64 {
      DomainsDistinctFrom56(i, j);
    } else if i < 72 {
      DomainsDistinctFrom64(i, j);
    } else if i < 80 {
      DomainsDistinctFrom72(i, j);
    } else if i < 88 {
      DomainsDistinctFrom80(i, j);
    } else {
      DomainsDistinctFrom88(i, j);
    }
  }

  /** No two rows share a department code. */
  lemma CodesDistinct(i: nat, j: nat)
    requires i < j < Count
    ensures CodeAt(i) != CodeAt(j)
  {
    if i < 8 {
      CodesDistinctFrom0(i, j);
    } else if i < 16 {
      CodesDistinctFrom8(i, j);
    } else if i < 24 {
      CodesDistinctFrom16(i, j);
    } else if i < 32 {
      CodesDistinctFrom24(i, j);
    } else if i < 40 {
      CodesDistinctFrom32(i, j);
    } else if i < 48 {
      CodesDistinctFrom40(i, j);
    } else if i < 56 {
      CodesDistinctFrom48(i, j);
    } else if i < 64 {
      CodesDistinctFrom56(i, j);
    } else if i < 72 {
      CodesDistinctFrom64(i, j);
    } else if i < 80 {
      CodesDistinctFrom72(i, j);
    } else if i < 88 {
      CodesDistinctFrom80(i, j);
    } else {
      CodesDistinctFrom88(i, j);
    }
  }
}
