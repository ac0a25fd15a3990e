// The adjusted Poulter et al. (2015) crosswalk from ESA CCI land-cover
// (LCCS) class codes to plant-functional-type (PFT) fractions, the integer
// reclass rules it is written as, and the fraction each class then
// receives per PFT.
module Crosswalk {
  import opened Wrappers
  import opened Strings
  import opened Raster
  import opened ReclassRules
  import opened MapCalc

  /** The crosswalk's PFTs. */
  datatype Pft =
    TreesBroadleafEvergreen
    | TreesBroadleafDeciduous
    | TreesNeedleleafEvergreen
    | TreesNeedleleafDeciduous
    | ShrubsBroadleafEvergreen
    | ShrubsBroadleafDeciduous
    | ShrubsNeedleleafEvergreen
    | ShrubsNeedleleafDeciduous
    | NaturalGrass
    | Crops
    | BareSoil
    | Water
    | Urban
    | SnowIce

  /** The PFTs in the table's dictionary order. */
  const Pfts: seq<Pft> := [TreesBroadleafEvergreen, TreesBroadleafDeciduous, TreesNeedleleafEvergreen, TreesNeedleleafDeciduous, ShrubsBroadleafEvergreen, ShrubsBroadleafDeciduous, ShrubsNeedleleafEvergreen, ShrubsNeedleleafDeciduous, NaturalGrass, Crops, BareSoil, Water, Urban, SnowIce]

  /** The dictionary key of each PFT. */
  function Name(p: Pft): string
  {
    match p
    case TreesBroadleafEvergreen => "trees_broadleaf_evergreen"
    case TreesBroadleafDeciduous => "trees_broadleaf_deciduous"
    case TreesNeedleleafEvergreen => "trees_needleleaf_evergreen"
    case TreesNeedleleafDeciduous => "trees_needleleaf_deciduous"
    case ShrubsBroadleafEvergreen => "shrubs_broadleaf_evergreen"
    case ShrubsBroadleafDeciduous => "shrubs_broadleaf_deciduous"
    case ShrubsNeedleleafEvergreen => "shrubs_needleleaf_evergreen"
    case ShrubsNeedleleafDeciduous => "shrubs_needleleaf_deciduous"
    case NaturalGrass => "natural_grass"
    case Crops => "crops"
    case BareSoil => "bare_soil"
    case Water => "water"
    case Urban => "urban"
    case SnowIce => "snow_ice"
  }

  /** The PFT keys in dictionary order. */
  function PftNames(): (ns: seq<string>)
    ensures |ns| == |Pfts|
    ensures forall i :: 0 <= i < |Pfts| ==> ns[i] == Name(Pfts[i])
  {
    seq(|Pfts|, i requires 0 <= i < |Pfts| => Name(Pfts[i]))
  }

  /**
   * The dictionary lookup `crosswalk[pft]`: the PFT stored under that key,
   * or a KeyError naming it.
   */
  function Lookup(pft: string): (r: Result<Pft>)
    ensures r.Ok? <==> pft in PftNames()
    ensures r.Ok? ==> Name(r.value) == pft && r.value in Pfts
    ensures r.Err? ==> r.error == KeyError(pft)
  {
    LookupFrom(pft, 0)
  }

  function LookupFrom(pft: string, i: nat): (r: Result<Pft>)
    requires i <= |Pfts|
    ensures r.Ok? <==> pft in PftNames()[i..]
    ensures r.Ok? ==> Name(r.value) == pft && r.value in Pfts
    ensures r.Err? ==> r.error == KeyError(pft)
    decreases |Pfts| - i
  {
    if i == |Pfts| then Err(KeyError(pft))
    else if Name(Pfts[i]) == pft then Ok(Pfts[i])
    else
      assert PftNames()[i..] == [PftNames()[i]] + PftNames()[i + 1..];
      LookupFrom(pft, i + 1)
  }

  /** The class codes a PFT's table lists, in its dictionary order. */
  function Codes(p: Pft): seq<nat>
  {
    match p
    case TreesBroadleafEvergreen => [30, 40, 50, 100, 110, 150, 160, 170]
    case TreesBroadleafDeciduous => [30, 40, 60, 61, 62, 90, 100, 110, 150, 151, 160, 180]
    case TreesNeedleleafEvergreen => [70, 71, 72, 90, 100, 110, 150, 151, 180]
    case TreesNeedleleafDeciduous => [80, 81, 82, 90, 100, 151]
    case ShrubsBroadleafEvergreen => [30, 40, 50, 70, 71, 80, 81, 90, 100, 110, 120, 121, 150, 152, 170]
    case ShrubsBroadleafDeciduous => [12, 30, 40, 50, 60, 61, 62, 70, 71, 72, 80, 81, 82, 90, 100, 110, 120, 122, 150, 152, 180]
    case ShrubsNeedleleafEvergreen => [30, 40, 70, 71, 72, 80, 81, 82, 90, 100, 110, 120, 121, 150, 152, 180]
    case ShrubsNeedleleafDeciduous => []
    case NaturalGrass => [30, 40, 60, 61, 62, 70, 71, 72, 80, 81, 82, 90, 100, 110, 120, 121, 122, 130, 140, 150, 151, 152, 153, 160, 180]
    case Crops => [10, 11, 12, 20, 30, 40]
    case BareSoil => [62, 72, 82, 90, 120, 121, 122, 130, 140, 150, 151, 152, 153, 200, 201, 202]
    case Water => [160, 170, 180, 210]
    case Urban => [190]
    case SnowIce => [220]
  }

  // The weight, in thousandths, each table gives a class code; every weight
  // in the table has at most three decimals, so these are exact.

  function TreesBroadleafEvergreenWeight(code: int): nat
  {
    match code
    case 30 => 50 case 40 => 50 case 50 => 900 case 100 => 100 case 110 => 50 case 150 => 10
    case 160 => 300 case 170 => 600
    case _ => 0
  }

  function TreesBroadleafDeciduousWeight(code: int): nat
  {
    match code
    case 30 => 50 case 40 => 50 case 60 => 700 case 61 => 700 case 62 => 300 case 90 => 300
    case 100 => 200 case 110 => 100 case 150 => 30 case 151 => 20 case 160 => 300 case 180 => 50
    case _ => 0
  }

  function TreesNeedleleafEvergreenWeight(code: int): nat
  {
    match code
    case 70 => 700 case 71 => 700 case 72 => 300 case 90 => 200 case 100 => 50 case 110 => 50
    case 150 => 10 case 151 => 60 case 180 => 100
    case _ => 0
  }

  function TreesNeedleleafDeciduousWeight(code: int): nat
  {
    match code
    case 80 => 700 case 81 => 700 case 82 => 300 case 90 => 100 case 100 => 50 case 151 => 20
    case _ => 0
  }

  function ShrubsBroadleafEvergreenWeight(code: int): nat
  {
    match code
    case 30 => 50 case 40 => 75 case 50 => 50 case 70 => 50 case 71 => 50 case 80 => 50
    case 81 => 50 case 90 => 50 case 100 => 50 case 110 => 50 case 120 => 200 case 121 => 300
    case 150 => 10 case 152 => 20 case 170 => 200
    case _ => 0
  }

  function ShrubsBroadleafDeciduousWeight(code: int): nat
  {
    match code
    case 12 => 500 case 30 => 50 case 40 => 100 case 50 => 50 case 60 => 150 case 61 => 150
    case 62 => 250 case 70 => 50 case 71 => 50 case 72 => 50 case 80 => 50 case 81 => 50
    case 82 => 50 case 90 => 50 case 100 => 100 case 110 => 100 case 120 => 200 case 122 => 600
    case 150 => 30 case 152 => 60 case 180 => 100
    case _ => 0
  }

  function ShrubsNeedleleafEvergreenWeight(code: int): nat
  {
    match code
    case 30 => 50 case 40 => 75 case 70 => 50 case 71 => 50 case 72 => 50 case 80 => 50
    case 81 => 50 case 82 => 50 case 90 => 50 case 100 => 50 case 110 => 50 case 120 => 200
    case 121 => 300 case 150 => 10 case 152 => 20 case 180 => 50
    case _ => 0
  }

  function ShrubsNeedleleafDeciduousWeight(code: int): nat
  {
    0
  }

  function NaturalGrassWeight(code: int): nat
  {
    match code
    case 30 => 150 case 40 => 250 case 60 => 150 case 61 => 150 case 62 => 350 case 70 => 150
    case 71 => 150 case 72 => 300 case 80 => 150 case 81 => 150 case 82 => 300 case 90 => 150
    case 100 => 400 case 110 => 600 case 120 => 200 case 121 => 200 case 122 => 200 case 130 => 600
    case 140 => 600 case 150 => 50 case 151 => 50 case 152 => 50 case 153 => 150 case 160 => 200
    case 180 => 400
    case _ => 0
  }

  function CropsWeight(code: int): nat
  {
    match code
    case 10 => 1000 case 11 => 1000 case 12 => 500 case 20 => 1000 case 30 => 600 case 40 => 400
    case _ => 0
  }

  function BareSoilWeight(code: int): nat
  {
    match code
    case 62 => 100 case 72 => 300 case 82 => 300 case 90 => 100 case 120 => 200 case 121 => 200
    case 122 => 200 case 130 => 400 case 140 => 400 case 150 => 850 case 151 => 850 case 152 => 850
    case 153 => 850 case 200 => 1000 case 201 => 1000 case 202 => 1000
    case _ => 0
  }

  function WaterWeight(code: int): nat
  {
    match code
    case 160 => 200 case 170 => 200 case 180 => 300 case 210 => 1000
    case _ => 0
  }

  function UrbanWeight(code: int): nat
  {
    match code
    case 190 => 1000
    case _ => 0
  }

  function SnowIceWeight(code: int): nat
  {
    match code
    case 220 => 1000
    case _ => 0
  }

  /** The weight (thousandths) PFT p's table gives class code `code`; 0 where it has no entry. */
  function Weight(p: Pft, code: int): nat
  {
    match p
    case TreesBroadleafEvergreen => TreesBroadleafEvergreenWeight(code)
    case TreesBroadleafDeciduous => TreesBroadleafDeciduousWeight(code)
    case TreesNeedleleafEvergreen => TreesNeedleleafEvergreenWeight(code)
    case TreesNeedleleafDeciduous => TreesNeedleleafDeciduousWeight(code)
    case ShrubsBroadleafEvergreen => ShrubsBroadleafEvergreenWeight(code)
    case ShrubsBroadleafDeciduous => ShrubsBroadleafDeciduousWeight(code)
    case ShrubsNeedleleafEvergreen => ShrubsNeedleleafEvergreenWeight(code)
    case ShrubsNeedleleafDeciduous => ShrubsNeedleleafDeciduousWeight(code)
    case NaturalGrass => NaturalGrassWeight(code)
    case Crops => CropsWeight(code)
    case BareSoil => BareSoilWeight(code)
    case Water => WaterWeight(code)
    case Urban => UrbanWeight(code)
    case SnowIce => SnowIceWeight(code)
  }

  lemma TreesBroadleafEvergreenListed(code: int)
    ensures TreesBroadleafEvergreenWeight(code) != 0 <==> code in Codes(TreesBroadleafEvergreen)
    ensures TreesBroadleafEvergreenWeight(code) <= 1000
  {
  }

  lemma TreesBroadleafDeciduousListed(code: int)
    ensures TreesBroadleafDeciduousWeight(code) != 0 <==> code in Codes(TreesBroadleafDeciduous)
    ensures TreesBroadleafDeciduousWeight(code) <= 1000
  {
  }

  lemma TreesNeedleleafEvergreenListed(code: int)
    ensures TreesNeedleleafEvergreenWeight(code) != 0 <==> code in Codes(TreesNeedleleafEvergreen)
    ensures TreesNeedleleafEvergreenWeight(code) <= 1000
  {
  }

  lemma TreesNeedleleafDeciduousListed(code: int)
    ensures TreesNeedleleafDeciduousWeight(code) != 0 <==> code in Codes(TreesNeedleleafDeciduous)
    ensures TreesNeedleleafDeciduousWeight(code) <= 1000
  {
  }

  lemma ShrubsBroadleafEvergreenListed(code: int)
    ensures ShrubsBroadleafEvergreenWeight(code) != 0 <==> code in Codes(ShrubsBroadleafEvergreen)
    ensures ShrubsBroadleafEvergreenWeight(code) <= 1000
  {
  }

  lemma ShrubsBroadleafDeciduousListed(code: int)
    ensures ShrubsBroadleafDeciduousWeight(code) != 0 <==> code in Codes(ShrubsBroadleafDeciduous)
    ensures ShrubsBroadleafDeciduousWeight(code) <= 1000
  {
  }

  lemma ShrubsNeedleleafEvergreenListed(code: int)
    ensures ShrubsNeedleleafEvergreenWeight(code) != 0 <==> code in Codes(ShrubsNeedleleafEvergreen)
    ensures ShrubsNeedleleafEvergreenWeight(code) <= 1000
  {
  }

  lemma ShrubsNeedleleafDeciduousListed(code: int)
    ensures ShrubsNeedleleafDeciduousWeight(code) != 0 <==> code in Codes(ShrubsNeedleleafDeciduous)
    ensures ShrubsNeedleleafDeciduousWeight(code) <= 1000
  {
  }

  lemma NaturalGrassListed(code: int)
    ensures NaturalGrassWeight(code) != 0 <==> code in Codes(NaturalGrass)
    ensures NaturalGrassWeight(code) <= 1000
  {
  }

  lemma CropsListed(code: int)
    ensures CropsWeight(code) != 0 <==> code in Codes(Crops)
    ensures CropsWeight(code) <= 1000
  {
  }

  lemma BareSoilListed(code: int)
    ensures BareSoilWeight(code) != 0 <==> code in Codes(BareSoil)
    ensures BareSoilWeight(code) <= 1000
  {
  }

  lemma WaterListed(code: int)
    ensures WaterWeight(code) != 0 <==> code in Codes(Water)
    ensures WaterWeight(code) <= 1000
  {
  }

  lemma UrbanListed(code: int)
    ensures UrbanWeight(code) != 0 <==> code in Codes(Urban)
    ensures UrbanWeight(code) <= 1000
  {
  }

  lemma SnowIceListed(code: int)
    ensures SnowIceWeight(code) != 0 <==> code in Codes(SnowIce)
    ensures SnowIceWeight(code) <= 1000
  {
  }

  /** A table gives a code a weight exactly when it lists the code, and no weight exceeds one. */
  lemma WeightListed(p: Pft, code: int)
    ensures Weight(p, code) != 0 <==> code in Codes(p)
    ensures Weight(p, code) <= 1000
  {
    match p
    case TreesBroadleafEvergreen => TreesBroadleafEvergreenListed(code);
    case TreesBroadleafDeciduous => TreesBroadleafDeciduousListed(code);
    case TreesNeedleleafEvergreen => TreesNeedleleafEvergreenListed(code);
    case TreesNeedleleafDeciduous => TreesNeedleleafDeciduousListed(code);
    case ShrubsBroadleafEvergreen => ShrubsBroadleafEvergreenListed(code);
    case ShrubsBroadleafDeciduous => ShrubsBroadleafDeciduousListed(code);
    case ShrubsNeedleleafEvergreen => ShrubsNeedleleafEvergreenListed(code);
    case ShrubsNeedleleafDeciduous => ShrubsNeedleleafDeciduousListed(code);
    case NaturalGrass => NaturalGrassListed(code);
    case Crops => CropsListed(code);
    case BareSoil => BareSoilListed(code);
    case Water => WaterListed(code);
    case Urban => UrbanListed(code);
    case SnowIce => SnowIceListed(code);
  }

  /** The sum over the listed PFTs of the weight each gives class c. */
  function WeightTotal(ps: seq<Pft>, c: int): nat
  {
    WeightTotalFrom(ps, c, 0)
  }

  function WeightTotalFrom(ps: seq<Pft>, c: int, i: nat): nat
    decreases |ps| - i
  {
    if i >= |ps| then 0 else Weight(ps[i], c) + WeightTotalFrom(ps, c, i + 1)
  }

  /** The weights every table gives class c, summed. */
  function ClassTotal(c: int): nat
  {
    TreesBroadleafEvergreenWeight(c) + TreesBroadleafDeciduousWeight(c) +
    TreesNeedleleafEvergreenWeight(c) + TreesNeedleleafDeciduousWeight(c) +
    ShrubsBroadleafEvergreenWeight(c) + ShrubsBroadleafDeciduousWeight(c) +
    ShrubsNeedleleafEvergreenWeight(c) + ShrubsNeedleleafDeciduousWeight(c) + NaturalGrassWeight(c)
    + CropsWeight(c) + BareSoilWeight(c) + WaterWeight(c) + UrbanWeight(c) + SnowIceWeight(c)
  }

  lemma WeightTotalAllTables(c: int)
    ensures WeightTotal(Pfts, c) == ClassTotal(c)
  {
    assert WeightTotalFrom(Pfts, c, 14) == 0;
    assert WeightTotalFrom(Pfts, c, 13) == Weight(SnowIce, c);
    assert WeightTotalFrom(Pfts, c, 12) == Weight(Urban, c) + Weight(SnowIce, c);
    assert WeightTotalFrom(Pfts, c, 11) == Weight(Water, c) + Weight(Urban, c) + Weight(SnowIce, c);
    assert WeightTotalFrom(Pfts, c, 10) == Weight(BareSoil, c) + Weight(Water, c) + Weight(Urban, c) + Weight(SnowIce, c);
    assert WeightTotalFrom(Pfts, c, 9) == Weight(Crops, c) + Weight(BareSoil, c) + Weight(Water, c) + Weight(Urban, c) + Weight(SnowIce, c);
    assert WeightTotalFrom(Pfts, c, 8) == Weight(NaturalGrass, c) + Weight(Crops, c) + Weight(BareSoil, c) + Weight(Water, c) + Weight(Urban, c) + Weight(SnowIce, c);
    assert WeightTotalFrom(Pfts, c, 7) == Weight(ShrubsNeedleleafDeciduous, c) + Weight(NaturalGrass, c) + Weight(Crops, c) + Weight(BareSoil, c) + Weight(Water, c) + Weight(Urban, c) + Weight(SnowIce, c);
    assert WeightTotalFrom(Pfts, c, 6) == Weight(ShrubsNeedleleafEvergreen, c) + Weight(ShrubsNeedleleafDeciduous, c) + Weight(NaturalGrass, c) + Weight(Crops, c) + Weight(BareSoil, c) + Weight(Water, c) + Weight(Urban, c) + Weight(SnowIce, c);
    assert WeightTotalFrom(Pfts, c, 5) == Weight(ShrubsBroadleafDeciduous, c) + Weight(ShrubsNeedleleafEvergreen, c) + Weight(ShrubsNeedleleafDeciduous, c) + Weight(NaturalGrass, c) + Weight(Crops, c) + Weight(BareSoil, c) + Weight(Water, c) + Weight(Urban, c) + Weight(SnowIce, c);
    assert WeightTotalFrom(Pfts, c, 4) == Weight(ShrubsBroadleafEvergreen, c) + Weight(ShrubsBroadleafDeciduous, c) + Weight(ShrubsNeedleleafEvergreen, c) + Weight(ShrubsNeedleleafDeciduous, c) + Weight(NaturalGrass, c) + Weight(Crops, c) + Weight(BareSoil, c) + Weight(Water, c) + Weight(Urban, c) + Weight(SnowIce, c);
    assert WeightTotalFrom(Pfts, c, 3) == Weight(TreesNeedleleafDeciduous, c) + Weight(ShrubsBroadleafEvergreen, c) + Weight(ShrubsBroadleafDeciduous, c) + Weight(ShrubsNeedleleafEvergreen, c) + Weight(ShrubsNeedleleafDeciduous, c) + Weight(NaturalGrass, c) + Weight(Crops, c) + Weight(BareSoil, c) + Weight(Water, c) + Weight(Urban, c) + Weight(SnowIce, c);
    assert WeightTotalFrom(Pfts, c, 2) == Weight(TreesNeedleleafEvergreen, c) + Weight(TreesNeedleleafDeciduous, c) + Weight(ShrubsBroadleafEvergreen, c) + Weight(ShrubsBroadleafDeciduous, c) + Weight(ShrubsNeedleleafEvergreen, c) + Weight(ShrubsNeedleleafDeciduous, c) + Weight(NaturalGrass, c) + Weight(Crops, c) + Weight(BareSoil, c) + Weight(Water, c) + Weight(Urban, c) + Weight(SnowIce, c);
    assert WeightTotalFrom(Pfts, c, 1) == Weight(TreesBroadleafDeciduous, c) + Weight(TreesNeedleleafEvergreen, c) + Weight(TreesNeedleleafDeciduous, c) + Weight(ShrubsBroadleafEvergreen, c) + Weight(ShrubsBroadleafDeciduous, c) + Weight(ShrubsNeedleleafEvergreen, c) + Weight(ShrubsNeedleleafDeciduous, c) + Weight(NaturalGrass, c) + Weight(Crops, c) + Weight(BareSoil, c) + Weight(Water, c) + Weight(Urban, c) + Weight(SnowIce, c);
    assert WeightTotalFrom(Pfts, c, 0) == Weight(TreesBroadleafEvergreen, c) + Weight(TreesBroadleafDeciduous, c) + Weight(TreesNeedleleafEvergreen, c) + Weight(TreesNeedleleafDeciduous, c) + Weight(ShrubsBroadleafEvergreen, c) + Weight(ShrubsBroadleafDeciduous, c) + Weight(ShrubsNeedleleafEvergreen, c) + Weight(ShrubsNeedleleafDeciduous, c) + Weight(NaturalGrass, c) + Weight(Crops, c) + Weight(BareSoil, c) + Weight(Water, c) + Weight(Urban, c) + Weight(SnowIce, c);
  }

  // One lemma per class keeps each evaluation of the fourteen tables small.
  lemma Class10SplitsCompletely() ensures ClassTotal(10) == 1000 { }
  lemma Class11SplitsCompletely() ensures ClassTotal(11) == 1000 { }
  lemma Class12SplitsCompletely() ensures ClassTotal(12) == 1000 { }
  lemma Class20SplitsCompletely() ensures ClassTotal(20) == 1000 { }
  lemma Class30SplitsCompletely() ensures ClassTotal(30) == 1000 { }
  lemma Class40SplitsCompletely() ensures ClassTotal(40) == 1000 { }
  lemma Class50SplitsCompletely() ensures ClassTotal(50) == 1000 { }
  lemma Class60SplitsCompletely() ensures ClassTotal(60) == 1000 { }
  lemma Class61SplitsCompletely() ensures ClassTotal(61) == 1000 { }
  lemma Class62SplitsCompletely() ensures ClassTotal(62) == 1000 { }
  lemma Class70SplitsCompletely() ensures ClassTotal(70) == 1000 { }
  lemma Class71SplitsCompletely() ensures ClassTotal(71) == 1000 { }
  lemma Class72SplitsCompletely() ensures ClassTotal(72) == 1000 { }
  lemma Class80SplitsCompletely() ensures ClassTotal(80) == 1000 { }
  lemma Class81SplitsCompletely() ensures ClassTotal(81) == 1000 { }
  lemma Class82SplitsCompletely() ensures ClassTotal(82) == 1000 { }
  lemma Class90SplitsCompletely() ensures ClassTotal(90) == 1000 { }
  lemma Class100SplitsCompletely() ensures ClassTotal(100) == 1000 { }
  lemma Class110SplitsCompletely() ensures ClassTotal(110) == 1000 { }
  lemma Class120SplitsCompletely() ensures ClassTotal(120) == 1000 { }
  lemma Class121SplitsCompletely() ensures ClassTotal(121) == 1000 { }
  lemma Class122SplitsCompletely() ensures ClassTotal(122) == 1000 { }
  lemma Class130SplitsCompletely() ensures ClassTotal(130) == 1000 { }
  lemma Class140SplitsCompletely() ensures ClassTotal(140) == 1000 { }
  lemma Class150SplitsCompletely() ensures ClassTotal(150) == 1000 { }
  lemma Class151SplitsCompletely() ensures ClassTotal(151) == 1000 { }
  lemma Class152SplitsCompletely() ensures ClassTotal(152) == 1000 { }
  lemma Class153SplitsCompletely() ensures ClassTotal(153) == 1000 { }
  lemma Class160SplitsCompletely() ensures ClassTotal(160) == 1000 { }
  lemma Class170SplitsCompletely() ensures ClassTotal(170) == 1000 { }
  lemma Class180SplitsCompletely() ensures ClassTotal(180) == 1000 { }
  lemma Class190SplitsCompletely() ensures ClassTotal(190) == 1000 { }
  lemma Class200SplitsCompletely() ensures ClassTotal(200) == 1000 { }
  lemma Class201SplitsCompletely() ensures ClassTotal(201) == 1000 { }
  lemma Class202SplitsCompletely() ensures ClassTotal(202) == 1000 { }
  lemma Class210SplitsCompletely() ensures ClassTotal(210) == 1000 { }
  lemma Class220SplitsCompletely() ensures ClassTotal(220) == 1000 { }

  /** A class code either appears in no table or is split completely: its weights sum to one (1000 thousandths). */
  lemma ClassTotalNoneOrAll(c: int)
    ensures ClassTotal(c) == 0 || ClassTotal(c) == 1000
  {
        if c == 10 { Class10SplitsCompletely(); } else if c == 11 { Class11SplitsCompletely(); }
    else if c == 12 { Class12SplitsCompletely(); } else if c == 20 { Class20SplitsCompletely(); }
    else if c == 30 { Class30SplitsCompletely(); } else if c == 40 { Class40SplitsCompletely(); }
    else if c == 50 { Class50SplitsCompletely(); } else if c == 60 { Class60SplitsCompletely(); }
    else if c == 61 { Class61SplitsCompletely(); } else if c == 62 { Class62SplitsCompletely(); }
    else if c == 70 { Class70SplitsCompletely(); } else if c == 71 { Class71SplitsCompletely(); }
    else if c == 72 { Class72SplitsCompletely(); } else if c == 80 { Class80SplitsCompletely(); }
    else if c == 81 { Class81SplitsCompletely(); } else if c == 82 { Class82SplitsCompletely(); }
    else if c == 90 { Class90SplitsCompletely(); } else if c == 100 { Class100SplitsCompletely(); }
    else if c == 110 { Class110SplitsCompletely(); } else if c == 120 { Class120SplitsCompletely(); }
    else if c == 121 { Class121SplitsCompletely(); } else if c == 122 { Class122SplitsCompletely(); }
    else if c == 130 { Class130SplitsCompletely(); } else if c == 140 { Class140SplitsCompletely(); }
    else if c == 150 { Class150SplitsCompletely(); } else if c == 151 { Class151SplitsCompletely(); }
    else if c == 152 { Class152SplitsCompletely(); } else if c == 153 { Class153SplitsCompletely(); }
    else if c == 160 { Class160SplitsCompletely(); } else if c == 170 { Class170SplitsCompletely(); }
    else if c == 180 { Class180SplitsCompletely(); } else if c == 190 { Class190SplitsCompletely(); }
    else if c == 200 { Class200SplitsCompletely(); } else if c == 201 { Class201SplitsCompletely(); }
    else if c == 202 { Class202SplitsCompletely(); } else if c == 210 { Class210SplitsCompletely(); }
    else if c == 220 { Class220SplitsCompletely(); }
  }

  /** Every land-cover class of the crosswalk is split completely: its weights over all PFTs sum to one (1000 thousandths). */
  lemma CrosswalkSumsToOne()
    ensures forall c: int :: WeightTotal(Pfts, c) == 0 || WeightTotal(Pfts, c) == 1000
  {
    forall c: int
      ensures WeightTotal(Pfts, c) == 0 || WeightTotal(Pfts, c) == 1000
    {
      WeightTotalAllTables(c);
      ClassTotalNoneOrAll(c);
    }
  }


  // ---- the reclass rules a table is written as ----
  //
  // The lemmas here are stated for any table, given as its codes in order
  // and its weight function; `WeightOf(p)` and `Codes(p)` are the crosswalk's.

  /** PFT p's table as a weight function. */
  function WeightOf(p: Pft): int -> nat
  {
    c => Weight(p, c)
  }

  /** A table lists exactly the codes it gives a weight, and no weight exceeds one (1000 thousandths). */
  ghost predicate Tabulates(codes: seq<nat>, w: int -> nat)
  {
    forall c: int :: (w(c) != 0 <==> c in codes) && w(c) <= 1000
  }

  /** Every table of the crosswalk is a well-formed table. */
  lemma CrosswalkTabulates(p: Pft)
    ensures Tabulates(Codes(p), WeightOf(p))
  {
    forall c: int ensures (WeightOf(p)(c) != 0 <==> c in Codes(p)) && WeightOf(p)(c) <= 1000 {
      WeightListed(p, c);
    }
  }

  /** The rules `code = int(weight * factor)` for the codes in order, then `* = 0`. */
  function TableRules(codes: seq<nat>, w: int -> nat, factor: nat): (rs: seq<Rule>)
    ensures |rs| == |codes| + 1 && rs[|codes|] == Rule(None, 0)
    ensures forall i :: 0 <= i < |codes| ==> rs[i] == Rule(Some(codes[i]), w(codes[i]) * factor / 1000)
  {
    seq(|codes|, i requires 0 <= i < |codes| => Rule(Some(codes[i]), w(codes[i]) * factor / 1000)) + [Rule(None, 0)]
  }

  /** The rule lines of the entries, one per code, without the `*` rule. */
  function EntryLines(codes: seq<nat>, w: int -> nat, factor: nat): (ls: seq<string>)
    ensures |ls| == |codes|
    ensures forall i :: 0 <= i < |codes| ==> ls[i] == RuleLine(TableRules(codes, w, factor)[i])
  {
    var rs := TableRules(codes, w, factor);
    seq(|codes|, i requires 0 <= i < |codes| => RuleLine(rs[i]))
  }

  /** The rules file: every entry line followed by a line separator, then `* = 0` with none. */
  function RulesText(codes: seq<nat>, w: int -> nat, factor: nat): string
  {
    Terminated(EntryLines(codes, w, factor)) + "* = 0"
  }

  /** The rules file reads back as exactly the table's rules, in order, ending with the `*` rule. */
  lemma RulesTextParses(codes: seq<nat>, w: int -> nat, factor: nat)
    ensures ParseRules(RulesText(codes, w, factor)) == Some(TableRules(codes, w, factor))
  {
    var rs := TableRules(codes, w, factor);
    var ls := EntryLines(codes, w, factor);
    assert RuleLine(Rule(None, 0)) == "* = 0";
    JoinTerminated(ls, "* = 0");
    assert ls + ["* = 0"] == seq(|rs|, i requires 0 <= i < |rs| => RuleLine(rs[i]));
    ParseRulesRoundTrip(rs);
  }

  /**
   * Reclassifying with a table's rules gives every category the table's
   * weight scaled by the factor, and 0 to a category the table does not list.
   */
  lemma RulesGiveWeights(codes: seq<nat>, w: int -> nat, factor: nat, c: int)
    requires Tabulates(codes, w)
    ensures ReclassRules.Lookup(TableRules(codes, w, factor), c) == Val((w(c) * factor / 1000) as real)
  {
    var rs := TableRules(codes, w, factor);
    if c >= 0 && c in codes {
      var k :| 0 <= k < |codes| && codes[k] == c;
      assert rs[k].from == Some(c as nat);
      var j := FirstFor(rs, Some(c as nat));
      assert j < |codes|;
    } else {
      assert w(c) == 0;
      assert rs[|codes|].from == None;
      if c >= 0 {
        assert forall i :: 0 <= i < |rs| ==> rs[i].from != Some(c as nat);
      }
      var j := FirstFor(rs, None);
      assert j == |codes|;
    }
  }

  // ---- the fraction a land-cover cell receives ----

  /**
   * A land-cover cell through the two steps: reclassified with the table's
   * rules at factor 1000, then divided by 1000 in r.mapcalc.
   */
  function TableFraction(sem: DivSemantics, codes: seq<nat>, w: int -> nat, lc: Cell): Cell
  {
    Quot(sem, if lc.Null? then Null else ReclassRules.Lookup(TableRules(codes, w, 1000), lc.v.Floor), 1000)
  }

  /** The fraction PFT p gives a land-cover cell. */
  function PftFraction(sem: DivSemantics, p: Pft, lc: Cell): Cell
  {
    TableFraction(sem, Codes(p), WeightOf(p), lc)
  }

  /** With real division a cell of class c receives the table's weight for c as a fraction; null stays null. */
  lemma FractionIsWeight(codes: seq<nat>, w: int -> nat, lc: Cell)
    requires Tabulates(codes, w)
    ensures lc.Null? ==> TableFraction(RealDivision, codes, w, lc) == Null
    ensures lc.Val? ==> TableFraction(RealDivision, codes, w, lc) == Val(w(lc.v.Floor) as real / 1000.0)
  {
    if lc.Val? {
      RulesGiveWeights(codes, w, 1000, lc.v.Floor);
    }
  }

  /** With integer division a cell receives 1 where the table's weight is whole, and 0 for every partial weight. */
  lemma IntegerFractionTruncates(codes: seq<nat>, w: int -> nat, lc: Cell)
    requires Tabulates(codes, w) && lc.Val?
    ensures TableFraction(IntegerDivision, codes, w, lc) == Val(if w(lc.v.Floor) == 1000 then 1.0 else 0.0)
  {
    var x := w(lc.v.Floor);
    RulesGiveWeights(codes, w, 1000, lc.v.Floor);
    assert x * 1000 / 1000 == x;
    assert (x as real).Floor == x;
    assert TruncDiv(x, 1000) == x / 1000;
    assert x / 1000 == if x == 1000 then 1 else 0;
  }

  /** The fractions the PFTs from index i on give a cell of class c. */
  function FractionTotalFrom(sem: DivSemantics, ps: seq<Pft>, c: int, i: nat): real
    decreases |ps| - i
  {
    if i >= |ps| then 0.0
    else
      var f := PftFraction(sem, ps[i], Val(c as real));
      (if f.Val? then f.v else 0.0) + FractionTotalFrom(sem, ps, c, i + 1)
  }

  /** With real division the fractions are the weights in thousandths. */
  lemma {:induction false} FractionTotalIsWeightTotal(ps: seq<Pft>, c: int, i: nat)
    ensures FractionTotalFrom(RealDivision, ps, c, i) == WeightTotalFrom(ps, c, i) as real / 1000.0
    decreases |ps| - i
  {
    if i < |ps| {
      CrosswalkTabulates(ps[i]);
      FractionIsWeight(Codes(ps[i]), WeightOf(ps[i]), Val(c as real));
      assert (c as real).Floor == c;
      FractionTotalIsWeightTotal(ps, c, i + 1);
    }
  }

  /** A class has a non-zero total exactly when some table lists it. */
  lemma ListedIffTotal(c: int)
    ensures ClassTotal(c) != 0 <==> exists p: Pft :: c in Codes(p)
  {
    if ClassTotal(c) != 0 {
      if TreesBroadleafEvergreenWeight(c) != 0 { WeightListed(TreesBroadleafEvergreen, c); }
      else if TreesBroadleafDeciduousWeight(c) != 0 { WeightListed(TreesBroadleafDeciduous, c); }
      else if TreesNeedleleafEvergreenWeight(c) != 0 { WeightListed(TreesNeedleleafEvergreen, c); }
      else if TreesNeedleleafDeciduousWeight(c) != 0 { WeightListed(TreesNeedleleafDeciduous, c); }
      else if ShrubsBroadleafEvergreenWeight(c) != 0 { WeightListed(ShrubsBroadleafEvergreen, c); }
      else if ShrubsBroadleafDeciduousWeight(c) != 0 { WeightListed(ShrubsBroadleafDeciduous, c); }
      else if ShrubsNeedleleafEvergreenWeight(c) != 0 { WeightListed(ShrubsNeedleleafEvergreen, c); }
      else if ShrubsNeedleleafDeciduousWeight(c) != 0 { WeightListed(ShrubsNeedleleafDeciduous, c); }
      else if NaturalGrassWeight(c) != 0 { WeightListed(NaturalGrass, c); }
      else if CropsWeight(c) != 0 { WeightListed(Crops, c); }
      else if BareSoilWeight(c) != 0 { WeightListed(BareSoil, c); }
      else if WaterWeight(c) != 0 { WeightListed(Water, c); }
      else if UrbanWeight(c) != 0 { WeightListed(Urban, c); }
      else if SnowIceWeight(c) != 0 { WeightListed(SnowIce, c); }
    } else {
      forall p: Pft ensures c !in Codes(p) {
        WeightListed(p, c);
      }
    }
  }

  /** With real division the fractions a class receives add up to its total weight. */
  lemma FractionTotalIsClassTotal(c: int)
    ensures FractionTotalFrom(RealDivision, Pfts, c, 0) == ClassTotal(c) as real / 1000.0
  {
    FractionTotalIsWeightTotal(Pfts, c, 0);
    WeightTotalAllTables(c);
  }

  /** Corrected: with real division every class of the crosswalk is shared out completely among the PFTs. */
  lemma FractionsSumToOne(c: int)
    ensures FractionTotalFrom(RealDivision, Pfts, c, 0) == 0.0 || FractionTotalFrom(RealDivision, Pfts, c, 0) == 1.0
    ensures FractionTotalFrom(RealDivision, Pfts, c, 0) == 1.0 <==> exists p: Pft :: c in Codes(p)
  {
    FractionTotalIsClassTotal(c);
    ClassTotalNoneOrAll(c);
    ListedIffTotal(c);
  }

  /** As written, integer division: a class all of whose weights are partial receives no fraction at all. */
  lemma {:induction false} IntegerTotalOfMixedClass(ps: seq<Pft>, c: int, i: nat)
    requires forall j :: i <= j < |ps| ==> Weight(ps[j], c) < 1000
    ensures FractionTotalFrom(IntegerDivision, ps, c, i) == 0.0
    decreases |ps| - i
  {
    if i < |ps| {
      CrosswalkTabulates(ps[i]);
      IntegerFractionTruncates(Codes(ps[i]), WeightOf(ps[i]), Val(c as real));
      assert (c as real).Floor == c;
      IntegerTotalOfMixedClass(ps, c, i + 1);
    }
  }

  /**
   * As written: the rainfed-mosaic class 30 (60% crops, 15% natural grass,
   * 5% each of four tree and shrub PFTs) receives fraction 0 in every PFT,
   * where the table gives it a total of 1.
   */
  lemma MosaicClassVanishes()
    ensures FractionTotalFrom(IntegerDivision, Pfts, 30, 0) == 0.0
    ensures FractionTotalFrom(RealDivision, Pfts, 30, 0) == 1.0
  {
    MixedClass30();
    IntegerTotalOfMixedClass(Pfts, 30, 0);
    Class30SplitsCompletely();
    FractionTotalIsClassTotal(30);
  }

  /** As written: a class-30 cell gets natural-grass fraction 0 where the table gives it 0.15. */
  lemma MosaicNaturalGrassLost(lc: Cell)
    requires lc == Val(30.0)
    ensures PftFraction(IntegerDivision, NaturalGrass, lc) == Val(0.0)
    ensures PftFraction(RealDivision, NaturalGrass, lc) == Val(0.15)
  {
    var codes, w := Codes(NaturalGrass), WeightOf(NaturalGrass);
    assert lc.v.Floor == 30;
    assert w(30) == 150 by {
      assert NaturalGrassWeight(30) == 150;
    }
    CrosswalkTabulates(NaturalGrass);
    assert TableFraction(IntegerDivision, codes, w, lc) == Val(0.0) by {
      IntegerFractionTruncates(codes, w, lc);
    }
    assert TableFraction(RealDivision, codes, w, lc) == Val(0.15) by {
      FractionIsWeight(codes, w, lc);
    }
  }

  /** No table gives class 30 a whole weight. */
  lemma MixedClass30()
    ensures forall j :: 0 <= j < |Pfts| ==> Weight(Pfts[j], 30) < 1000
  {
    assert CropsWeight(30) == 600;
    Class30SplitsCompletely();
  }
}
