# jamr core, modelled in Dafny

jamr prepares ancillary input for the JULES land-surface model by driving
GRASS GIS from Python. Each product is written as raster map-algebra
(`r.mapcalc`) expressions, reclass rules and `g.region`/`r.resamp.stats`
calls over a shared GRASS session. Python code around those calls builds
lookup tables, map and file names, and region definitions. This project
models that core and proves properties about it:

- **The GRASS session** (`Grass`, `GrassUtils`, `Raster`, `MapCalc`,
  `RealMath`, `TryBlocks`). The session is a class `Engine` that holds:
  - the current region;
  - the catalogue of named maps;
  - the mask;
  - the saved regions;
  - the files written for GRASS;
  - a log of the commands issued.

  Each command is a method that says what it reads and what it changes. A
  map-algebra expression is a function over the cells of its input maps.
  `r.resamp.stats` is a block average or block minimum over an integer
  block factor.
- **The ancillary-product base class** (`Ancillary`). This covers the
  switch between the native and target regions, the weighted resample, and
  the native-compute-then-resample step that every product repeats.
- **Land cover to plant functional types** (`Crosswalk`, `ReclassRules`,
  `Landcover`, `JulesPft`). This covers:
  - the Poulter et al. (2015) crosswalk over ESA CCI LCCS class codes;
  - the integer reclass rules written from it;
  - the per-year PFT fraction maps;
  - the 5-PFT and 9-PFT JULES groupings.
- **The land fraction** (`LandFraction`, `LandFractionLegacy`). This is the
  ocean test on the water-bodies and land-cover maps, in both the newer
  code and the older code.
- **Soil hydraulic properties** (`Pedotransfer`, `SoilCells`, `SoilProps`,
  `VanGenuchten`, `SoilLegacy`, `PyCalls`). This covers:
  - the Cosby, Tomasella-Hodnett and Zhang-Schaap pedotransfer functions;
  - the Brooks-Corey and van Genuchten retention curves;
  - the twelve USDA texture indicators;
  - the classes that run them, in both the newer code and the older code.
- **Inputs and helpers** (`SoilGridsInput`, `Elevation`, `Regions`,
  `Constants`, `GridUtils`, `JulesFrac`, `Strings`, `Paths`). These cover:
  - SoilGrids validation and naming;
  - MERIT tile-filename parsing, the tile and region passes and the GRASS
    commands each tile runs (import, region, average, export), and `read`'s
    copy of each region's VRT;
  - degree-minute-second and extent formatting;
  - the region table;
  - cell bounds and centres;
  - the in-place post-processing of the JULES surface-type fractions, with
    numpy's aliasing of views.

Exceptions the Python raises are modelled as `Result` errors. Calls inside
`try: ... except CalledModuleError: pass` are modelled as blocks that stop
at the first failing call.

Where the code does not do what it evidently intends, the model states
both versions. The as-written version comes with an input that shows the
difference. The corrected version has the intended property proved about
it (see "## Findings").

## Model

| member | source | states |
|---|---|---|
| `Grass.Engine.RegionFromRasterCmd` | jamr/utils/grass_utils.py:50-51 | `g.region raster=` adopts the raster's whole region (bounds and cell sizes); an unknown raster leaves the region as it was; the catalogue, mask and saved regions are untouched and the command is logged |
| `Grass.Engine.RegionFromRasterResCmd` | jamr/input/elevation.py:81 | `g.region raster= res=` adopts the raster's bounds with square cells of the given size; an unknown raster leaves the region as it was; maps, mask and saved regions are untouched and the command is logged |
| `Grass.Engine.ExportCmd` | jamr/input/elevation.py:86 | `r.out.gdal` writes outside the session: only the log changes |
| `Grass.WithRes` | jamr/input/elevation.py:81 | the region keeps its four bounds and takes the given cell size in both directions |
| `Grass.Engine.RegionNamedCmd` | jamr/utils/grass_utils.py:44-45 | `g.region region=` adopts the saved region of that name, and leaves the region unchanged for an unknown name |
| `Grass.Engine.RegionSetCmd` | jamr/utils/grass_utils.py:67-70 | `g.region` with explicit bounds and resolutions makes exactly that the current region, unless its `align=` raster does not exist, which is an error that leaves the region as it was; nothing else changes and the command is logged with the bounds asked for |
| `Grass.Engine.CalcCmd` | jamr/process/landfraction.py:65-70 | `r.mapcalc` stores f applied cell by cell to its inputs in the current region, null where the mask excludes a cell (a mask map on a coarser grid that nests the region is read at the coarse cell containing each cell; on any other grid the result is left open), refuses to replace an existing map without overwrite, and leaves every other map as it was |
| `Grass.Engine.CalcRaising` | jamr/soil.py:126-133 | a pygrass `r.mapcalc` call raises exactly when the engine refuses the command (missing input, or existing output without overwrite), and then changes no map |
| `Grass.Engine.ResampStatsCmd` | jamr/process/ancillarydataset.py:53-60 | `r.resamp.stats` writes the block aggregate of the input into the current region when the grids nest with an integer factor; otherwise a map on the current grid whose cells are not specified |
| `Grass.Engine.ReclassCmd` | jamr/process/landcover.py:134-139 | `r.reclass` relabels every category of the input by the rules read from the file, keeping the input's region; unreadable rules or a missing input write nothing |
| `Grass.Engine.MaskOnCmd` | jamr/process/soilprops.py:143 | `r.mask raster= maskcats=` installs a mask on that map's category when there is none yet |
| `Grass.Engine.MaskOffCmd` | jamr/utils/grass_utils.py:28-29 | `r.mask -r` leaves no mask, whatever was set before |
| `Grass.Engine.ImportCmd` | jamr/input/elevation.py:110-113 | `r.in.gdal` stores what GDAL reads under the output name (subject to overwrite); it fails when the file cannot be read |
| `Grass.Engine.RemoveCmd` | jamr/utils/grass_utils.py:34-35 | `g.remove pattern=` drops exactly the maps the pattern matches |
| `Grass.Engine.RemoveNamedCmd` | jamr/input/elevation.py:126 | `g.remove name=` drops exactly the named map |
| `Grass.Store` | jamr/process/landfraction.py:60 | an existing map is replaced only with overwrite; every other map is unchanged |
| `Grass.CalcOneCells` | jamr/process/landfraction.py:65-70 | a one-input `r.mapcalc` without mask, whose output is new or may be overwritten, yields in the input's own region f of each input cell in turn, and nothing else changes |
| `Grass.CalcTwoCells` | jamr/process/landfraction.py:83-88 | a two-input `r.mapcalc` without mask, whose output is new or may be overwritten, sees cell i of both aligned inputs |
| `Grass.ResampCells` | jamr/process/landfraction.py:55-61 | coarse cell i of a resample whose output is new or may be overwritten is the aggregate of its own block of k fine cells |
| `Grass.GlobSuffix` | jamr/utils/grass_utils.py:34 | the pattern `*_tmp` matches exactly the names that end in `_tmp` |
| `Grass.GlobLiteral` | jamr/utils/grass_utils.py:72-74 | a pattern without wildcards matches only the name itself |
| `GrassUtils.RemoveMask` | jamr/utils/grass_utils.py:23-31 | afterwards there is no mask, nothing else changes, and the result is 0 |
| `GrassUtils.RemoveTmp` | jamr/utils/grass_utils.py:33-37 | afterwards the catalogue is the old one without the maps whose names end in `_tmp`, and the result is 0 |
| `GrassUtils.SetNamedRegion` | jamr/utils/grass_utils.py:39-46 | the region becomes the saved one (unchanged for an unknown name); the result is 0 |
| `GrassUtils.SetRegion` | jamr/utils/grass_utils.py:67-70 | the region becomes the one given, or stays when the `align=` raster is missing; the result is 0 |
| `GrassUtils.Pick` | jamr/utils/grass_utils.py:56-59 | `x if x else fallback`: the argument when it is present and non-zero, the fallback otherwise |
| `GrassUtils.SetRegionFromRaster` | jamr/utils/grass_utils.py:48-65 | for an existing raster the new region takes each bound from the argument when truthy and from the raster otherwise, at the raster's cell sizes; for a missing raster both `g.region` calls fail (the second because its `align=` raster is not found) and the region stays; the log shows `g.region raster=` then `g.region ... align=raster` with the bounds asked for; the result is 0 |
| `GrassUtils.ZeroBoundReplaced` | jamr/utils/grass_utils.py:56-62 | a configured bound of 0 is replaced by the raster's own bound, while any other configured value is kept and the raster's resolution is kept |
| `GrassUtils.RegionDefinition` | jamr/utils/grass_utils.py:88-91 | keeps exactly the keys n, e, s, w, ewres, nsres of the region dictionary, with their values |
| `GrassUtils.RegionDefinitionRoundTrip` | jamr/utils/grass_utils.py:88-98 | the definition read from a region holds all six keys and sets that same region again |
| `GrassUtils.NamedRegionDefinition` | jamr/utils/grass_utils.py:93-99 | returns the definition of the saved region, and the current region is the same afterwards as before |
| `GrassUtils.MapList` | jamr/utils/grass_utils.py:72-74 | the listed names are maps of the catalogue that match the pattern |
| `GrassUtils.MapExistsName` | jamr/utils/grass_utils.py:76-81 | for a name without wildcards, the map exists exactly when it is in the catalogue |
| `GrassUtils.MapExistsSeveral` | jamr/utils/grass_utils.py:76-81 | a pattern that matches two maps is reported as not existing |
| `Ancillary.TargetRegion` | jamr/process/ancillarydataset.py:39-46 | the target region has the configured bounds and cell size 0.008333333333 in both directions |
| `Ancillary.SetTargetRegion` | jamr/process/ancillarydataset.py:39-46 | afterwards the region is the target region, whatever region was set before |
| `Ancillary.SetNativeRegion` | jamr/process/ancillarydataset.py:32-37 | afterwards the region is the raster's region with the configured bounds substituted where truthy, aligned to the raster; a raster not in the catalogue leaves the region as it was; the log holds the two `g.region` commands with the bounds asked for |
| `Ancillary.NativeRegionShape` | jamr/process/ancillarydataset.py:32-37 | with no configured bound equal to 0, the native region has the configured bounds and the raster's cell size, whatever was set before |
| `Ancillary.ZeroBoundMisaligns` | jamr/process/ancillarydataset.py:32-46 | a configured bound of 0 makes the native and target regions disagree, so the two grids do not nest |
| `Ancillary.NativeRegionIdempotent` | jamr/process/ancillarydataset.py:32-37 | setting the native region twice from the same map gives the same region as setting it once |
| `Ancillary.Resample` | jamr/process/ancillarydataset.py:48-62 | issues one weighted `r.resamp.stats` with the caller's method in the current region, leaves the region and mask alone, and returns 0 whatever the engine did |
| `Ancillary.AncillaryDataset.constructor` | jamr/process/ancillarydataset.py:12-22 | the mask is removed and nothing else in the engine changes |
| `Ancillary.NativeStep` | jamr/process/landcover.py:206-221 | one product step logs set-native, mapcalc, set-target, weighted-average resample in that order, ends in the target region, and leaves the catalogue as `StepMaps` gives it: f of the inputs on the native grid stored under the native name, and its block average under the target name, each subject to overwrite |
| `Ancillary.StepMaps` | jamr/process/ancillarydataset.py:32-62 | a product step writes both its outputs, leaves every other map as it was, and without overwrite keeps an existing native map |
| `Ancillary.StepMapsWritten` | jamr/process/ancillarydataset.py:32-62 | when overwrite is on or neither output exists, the native map is the computed expression and the target map is its block average |
| `Ancillary.StepMapsFrame` | jamr/process/ancillarydataset.py:32-62 | a product step reads only its inputs, the mask map and its own outputs: catalogues that agree on those give the same outputs |
| `Ancillary.StepLogShape` | jamr/process/ancillarydataset.py:39-60 | a product step computes exactly its native output, and every resample in the log directly follows setting the target region |
| `Ancillary.RegionCommandsKeep` | jamr/process/ancillarydataset.py:32-37 | setting the native region neither computes nor resamples |
| `Raster.BlocksAt` | jamr/process/ancillarydataset.py:53-60 | coarse cell i of a block aggregation is the aggregate of fine cells i*k to i*k+k-1 |
| `Raster.MeanConstant` | jamr/process/ancillarydataset.py:53-60 | averaging a block whose non-null cells all equal c returns c |
| `Raster.MeanWithin` | jamr/process/ancillarydataset.py:53-60 | the average lies within any bounds that every non-null cell respects |
| `Raster.MeanAdd` | jamr/process/ancillarydataset.py:53-60 | averaging commutes with the cell-wise sum of two maps that are null in the same cells |
| `Raster.MinimumZero` | jamr/process/landfraction.py:55-67 | with non-negative values, the block minimum is 0 exactly when some cell of the block is 0 |
| `Raster.MinimumBounds` | jamr/process/landfraction.py:55-61 | the minimum is one of the cells and no larger than any of them, and null only when all cells are null |
| `MapCalc.Quot` | jamr/process/landcover.py:130-146 | `a / d` on an integer map and an integer constant truncates toward zero, as GRASS's integer division does |
| `RealMath.Pow10TwoAndAHalf` | jamr/process/soilprops.py:82 | 10^2.5 lies below 317, from the exponent law alone |
| `Crosswalk.PftNames` | jamr/process/landcover.py:89 | the PFT list is the crosswalk's keys, one name per table, in dictionary order |
| `Crosswalk.Lookup` | jamr/process/landcover.py:103 | `crosswalk[pft]` succeeds exactly for the fourteen listed PFT names and returns the table of that name; any other name is a KeyError naming it |
| `Crosswalk.WeightListed` | jamr/process/landcover.py:34-81 | a table gives a land-cover class a non-zero weight exactly when the class is one of its keys, and no weight exceeds one |
| `Crosswalk.WeightTotalAllTables` | jamr/process/landcover.py:34-81 | the weights of one class summed over the fourteen tables equal the class's total share |
| `Crosswalk.ClassTotalNoneOrAll` | jamr/process/landcover.py:34-81 | every class's weights over all PFTs add up to exactly 0 or exactly 1 |
| `Crosswalk.CrosswalkSumsToOne` | jamr/process/landcover.py:34-81 | the whole crosswalk shares out every class completely: for every class the total is 0 or 1, never a partial or excess share |
| `Crosswalk.ListedIffTotal` | jamr/process/landcover.py:34-81 | a class has a non-zero total exactly when at least one table lists it |
| `Crosswalk.CrosswalkTabulates` | jamr/process/landcover.py:34-81 | every table lists each class once, with a weight between 0 and 1 |
| `Crosswalk.TableRules` | jamr/process/landcover.py:105-108 | the rules hold one rule `code = int(weight * factor)` per table entry, in table order, and end with the catch-all `* = 0` |
| `Crosswalk.EntryLines` | jamr/process/landcover.py:105-107 | one text line per table entry, each the written form of that entry's rule |
| `Crosswalk.RulesTextParses` | jamr/process/landcover.py:97-110 | the rules file `_write_reclass_rules` writes reads back, line by line, as exactly the table's rules |
| `Crosswalk.RulesGiveWeights` | jamr/process/landcover.py:130-139 | reclassifying with the written rules gives every category the table's weight times the factor, and 0 to a category the table does not list |
| `Crosswalk.FractionIsWeight` | jamr/process/landcover.py:141-146 | dividing the reclassified map by the factor with real division gives each cell the table's weight for its class; null stays null |
| `Crosswalk.IntegerFractionTruncates` | jamr/process/landcover.py:141-146 | with GRASS integer division (an integer map divided by the integer 1000) a cell gets 1 where the class's weight is whole and 0 for every partial weight |
| `Crosswalk.FractionTotalIsWeightTotal` | jamr/process/landcover.py:141-146 | with real division the fractions of a class over any list of PFTs add up to its weights in thousandths |
| `Crosswalk.FractionTotalIsClassTotal` | jamr/process/landcover.py:141-146 | with real division the fractions a class receives over all PFTs add up to its total share |
| `Crosswalk.FractionsSumToOne` | jamr/process/landcover.py:141-152 | with real division a class's fractions over all PFTs total 1 exactly when some table lists it, and 0 otherwise |
| `Crosswalk.IntegerTotalOfMixedClass` | jamr/process/landcover.py:141-146 | with integer division a class all of whose weights are partial receives total fraction 0 |
| `Crosswalk.MosaicClassVanishes` | jamr/process/landcover.py:36-68 | as written, class 30 (rainfed mosaic) gets total fraction 0 over all PFTs with integer division, where the table shares it out to 1 |
| `Crosswalk.MosaicNaturalGrassLost` | jamr/process/landcover.py:62 | as written, a class-30 cell gets natural-grass fraction 0 where the table gives it 0.15 |
| `Crosswalk.MixedClass30` | jamr/process/landcover.py:36-68 | no table gives class 30 a whole weight |
| `ReclassRules.LinesJoin` | jamr/process/landcover.py:104-108 | text built from newline-terminated lines followed by an unterminated last line splits back into exactly those lines |
| `ReclassRules.ParseRuleLine` | jamr/process/landcover.py:106 | the line `key = value` written for a rule reads back as that rule, and `* = 0` as the catch-all |
| `ReclassRules.ParseRulesRoundTrip` | jamr/process/landcover.py:104-110 | a rules text written one rule per line reads back as the same rules in the same order |
| `Landcover.PftNamesTabulated` | jamr/process/landcover.py:89-103 | every name of the object's PFT list has a crosswalk table, so no step fails on the lookup |
| `Landcover.PftMapNameInjective` | jamr/process/landcover.py:117 | `esacci_lc_{year}_{pft}` names differ for different (year, PFT) pairs |
| `Landcover.NotLandCover` | jamr/process/landcover.py:117 | no fraction or step map is named like a land-cover input map |
| `Landcover.StepNamesDistinct` | jamr/process/landcover.py:124-143 | the input, the `_step1` map and the output of one step are three different maps |
| `Landcover.TableStepCells` | jamr/process/landcover.py:133-146 | after one step, under either division, the output map lies on the land-cover map's grid and holds, cell for cell, the table's fraction for that cell's class (null where the mask excludes it) |
| `Landcover.TableStepAsWritten` | jamr/process/landcover.py:141-146 | as written (an integer step map divided by the integer 1000) every admitted cell gets 1 where its class's weight is whole and 0 for every partial weight |
| `Landcover.TableStepIntended` | jamr/process/landcover.py:141-146 | with real division every admitted cell gets its class's weight as a fraction, and null stays null |
| `Landcover.TableStepMaps` | jamr/process/landcover.py:133-146 | the reclass and the division change only the step and output maps, and without overwrite an existing output map is kept |
| `Landcover.ReclassStep` | jamr/process/landcover.py:133-146 | the pygrass `g.region raster=` raises CalledModuleError exactly when the input map is missing, with only that command logged and no map or region changed; otherwise issues `g.region raster=`, `r.reclass` and `r.mapcalc` in that order, adopts the input's region, and leaves the catalogue as `TableStepMaps` gives it, each write subject to overwrite |
| `Landcover.YearMapnames` | jamr/process/landcover.py:115-117 | the loop builds, for one year, the dictionary from every PFT to its map name |
| `Landcover.BuildRulesText` | jamr/process/landcover.py:104-108 | the loop accumulates exactly the rules text of the table |
| `Landcover.Poulter2015Pft.constructor` | jamr/process/landcover.py:85-92 | the object keeps the years, overwrite flag and division semantics, takes the crosswalk's keys as its PFT list, and has every (year, PFT) map name set |
| `Landcover.Poulter2015Pft.SetMapnames` | jamr/process/landcover.py:112-121 | afterwards the names map every year to a dictionary from each PFT to `esacci_lc_{year}_{pft}` |
| `Landcover.Poulter2015Pft.WriteReclassRules` | jamr/process/landcover.py:97-110 | succeeds exactly for a PFT with a table, then the rules file holds exactly the table's rules text; an unknown PFT is a KeyError and writes nothing; no map, region or log changes |
| `Landcover.Poulter2015Pft.CreatePftMap` | jamr/process/landcover.py:122-146 | succeeds exactly for a known year, a tabulated PFT and an existing land-cover map; an unknown year or PFT is a KeyError naming it with nothing changed; a missing land-cover map is the CalledModuleError of `g.region` after the rules file is written, with no map or region changed; on success writes the rules, logs the three commands, touches only the step and output maps and leaves them as the table step under its division semantics gives them, each write subject to overwrite (`StepApplied` packages these two clauses for the loop proofs) |
| `Landcover.Poulter2015Pft.Compute` | jamr/process/landcover.py:148-152 | succeeds exactly when 2015 is among the years, its land-cover map exists, every PFT is tabulated and every year's land-cover map exists; without 2015 it is a KeyError before any command, and without the 2015 map the CalledModuleError of the first `g.region` with nothing else changed; a tabulated run fails only with that CalledModuleError; on success logs `g.region raster=` on the 2015 map followed by every (year, PFT) step, years outer, changes no map it does not produce, and leaves every (year, PFT) pair whose maps were writable settled: its maps are what the table step computes from the maps before the call |
| `Landcover.Poulter2015Pft.ComputeYear` | jamr/process/landcover.py:151-152 | one year's PFT steps in list order, succeeding exactly when every PFT is tabulated and the year's land-cover map exists; a missing map fails the first step at its `g.region` with only that command logged and no map changed; only produced maps and the rules file change; settled and ready pairs stay so, and every ready pair of the year ends settled |
| `Landcover.SettledCells` | jamr/process/landcover.py:133-146 | a settled fraction map lies on its land-cover map's grid and holds the table's fraction of each land-cover cell the mask admits, null elsewhere |
| `Landcover.StepSettles` | jamr/process/landcover.py:123-146 | a step run on a catalogue that agrees with the starting one on the land-cover and mask maps leaves its pair settled, when its maps were writable or already settled |
| `Landcover.StepEffect` | jamr/process/landcover.py:148-152 | one step keeps every other pair settled or ready and settles its own ready pair |
| `Landcover.YearStep` | jamr/process/landcover.py:151-152 | one more iteration of the year loop keeps the unproduced maps, keeps settled and ready pairs, and settles one more of the year's PFTs |
| `Landcover.OtherPairKept` | jamr/process/landcover.py:148-152 | a step for one (year, PFT) pair leaves every other pair's settled or ready state as it was, since their map names differ |
| `Landcover.YearsStep` | jamr/process/landcover.py:148-152 | one pass of the year loop keeps every writable pair ready and adds the year's writable pairs to the settled ones |
| `Landcover.PairNamesApart` | jamr/process/landcover.py:117-143 | two different (year, PFT) steps write four different maps |
| `Landcover.LandCoverUnproduced` | jamr/process/landcover.py:117-143 | no step writes a land-cover map |
| `JulesPft.JulesNames` | jamr/process/landcover.py:155-164 | the 5-PFT scheme has nine surface types and the 9-PFT scheme thirteen |
| `JulesPft.ComputeOrderIsPermutation` | jamr/process/landcover.py:307-388 | each `compute` produces every surface type of its scheme exactly once, even though the 9-PFT one does two needleleaf types out of list order |
| `JulesPft.Factory` | jamr/process/landcover.py:17-24 | a scheme is built only for method `Poulter` with 5 or 9 PFTs, the 5- or 9-PFT one accordingly; anything else gives nothing |
| `JulesPft.GrassSplit` | jamr/process/landcover.py:206-238 | C3 plus C4 grass is natural grass plus crops whatever the C4 fractions; both are defined exactly when all four inputs are, and both lie between 0 and the grass total when the fractions are between 0 and 1 |
| `JulesPft.BroadleafSplit` | jamr/process/landcover.py:390-416 | tropical plus temperate broadleaf evergreen is the broadleaf evergreen input, and a 0/1 tropical-forest indicator gives all of it to exactly one part |
| `JulesPft.FiveConserves` | jamr/process/landcover.py:307-363 | the nine 5-PFT types together hold exactly the fourteen crosswalk fractions |
| `JulesPft.NineConserves` | jamr/process/landcover.py:370-483 | the thirteen 9-PFT types together hold exactly the fourteen crosswalk fractions, whatever the biome indicator |
| `JulesPft.SumOverPfts` | jamr/process/landcover.py:34-81 | summing over the crosswalk's PFT list is summing the fourteen fractions |
| `JulesPft.GroupsSumToOne` | jamr/process/landcover.py:155-483 | on the native grid the JULES types of either scheme sum to 1 for every class the crosswalk lists and to 0 otherwise, and both schemes give the same total |
| `JulesPft.GroupThenAverage` | jamr/process/landcover.py:218-221 | averaging onto the target grid commutes with the sums the steps form, for maps null in the same cells |
| `JulesPft.ShrubEvergreenOnNativeGrid` | jamr/process/landcover.py:457-469 | as written, when the native map does not exist, the target map is left on the native grid and no native map exists; the intended step gives a target map on the target grid |
| `JulesPft.JulesPfts.constructor` | jamr/process/landcover.py:168-180 | the object keeps its configuration, scheme, years, inputs and overwrite flag, takes the scheme's name list and has both name dictionaries set |
| `JulesPft.JulesPfts.SetMapnames` | jamr/process/landcover.py:187-201 | every (year, type) gets the native name `{type}_{year}_{region}_native` and the target name `{type}_{year}_{region}.tif` |
| `JulesPft.JulesPfts.YearMapnames` | jamr/process/landcover.py:191-195 | the inner loop builds one year's dictionary of one kind of name for every type |
| `JulesPft.JulesPfts.Step` | jamr/process/landcover.py:214-221 | ends on the target region, logs set-native, mapcalc, set-target and average resample, changes only the type's two maps and leaves the catalogue as the product step gives it, each write subject to overwrite |
| `JulesPft.JulesPfts.ComputeTreeBroadleaf` | jamr/process/landcover.py:318-331 | the broadleaf tree type is the sum of the deciduous and evergreen broadleaf fractions, averaged onto the target grid |
| `JulesPft.JulesPfts.ComputeTreeNeedleleaf` | jamr/process/landcover.py:333-346 | the needleleaf tree type is the sum of the deciduous and evergreen needleleaf fractions |
| `JulesPft.JulesPfts.ComputeShrub` | jamr/process/landcover.py:348-363 | the shrub type is the sum of the four shrub fractions |
| `JulesPft.JulesPfts.ComputeC3Grass` | jamr/process/landcover.py:206-221 | C3 grass is natural grass times one minus the natural C4 share plus crops times one minus the crop C4 share |
| `JulesPft.JulesPfts.ComputeC4Grass` | jamr/process/landcover.py:223-238 | C4 grass is natural grass times the natural C4 share plus crops times the crop C4 share |
| `JulesPft.JulesPfts.ComputeCopy` | jamr/process/landcover.py:240-294 | urban, water, bare soil, snow/ice (and the single-PFT 9-PFT tree types) copy their one crosswalk fraction before averaging |
| `JulesPft.JulesPfts.ComputeTropical` | jamr/process/landcover.py:390-402 | the tropical type is broadleaf evergreen trees times the tropical-forest indicator |
| `JulesPft.JulesPfts.ComputeTemperate` | jamr/process/landcover.py:404-416 | the temperate type is broadleaf evergreen trees times one minus the tropical-forest indicator |
| `JulesPft.JulesPfts.ComputeShrubEvergreen` | jamr/process/landcover.py:457-469 | corrected: the evergreen shrub type is the sum of the two evergreen shrub fractions, first on the native grid and then averaged |
| `JulesPft.JulesPfts.ComputeShrubDeciduous` | jamr/process/landcover.py:471-483 | the deciduous shrub type is the sum of the two deciduous shrub fractions |
| `JulesPft.JulesPfts.ComputeShrubEvergreenAsWritten` | jamr/process/landcover.py:457-469 | as written: the sum is stored under the target name while the native region is set, and the resample then reads the native name, which nothing wrote |
| `JulesPft.JulesPfts.ProgressStep` | jamr/process/landcover.py:307-388 | after one more type is computed, the computed list, the resample discipline and the untouched maps are all carried forward |
| `JulesPft.JulesPfts.ComputeShared` | jamr/process/landcover.py:311-316 | the six types both schemes share are computed in the order both `compute` methods call them |
| `JulesPft.JulesPfts.ComputeFive` | jamr/process/landcover.py:307-363 | computes the nine 5-PFT types in call order, every resample on the target region, no other map touched, ending on the target region; when the C4 maps and the mask are not among the names it writes, every type's native and target maps are the ones its recipe gives from the maps before the call |
| `JulesPft.JulesPfts.ComputeNine` | jamr/process/landcover.py:370-483 | sets the region from the 2015 land-cover map, then computes the thirteen 9-PFT types in call order, touching no other map and ending on the target region; when the C4, biome and mask maps are not among the names it writes, every type's maps are the ones its recipe gives from the maps before the call |
| `JulesPft.JulesPfts.Create` | jamr/process/landcover.py:168-185 | succeeds exactly when 2015 is among the land-cover years and every year's land-cover map exists; without 2015 it is a KeyError naming 2015 before any command, and otherwise a failure is the CalledModuleError of a `g.region` on a missing land-cover map; on success has run the crosswalk computation with the division it is given, leaving every (year, PFT) pair with writable maps settled on that division's fractions, and has set every name. As written the division is `IntegerDivision`; the corrected `RealDivision` gives the crosswalk weights |
| `JulesPft.JulesPfts.MapnamesAgree` | jamr/process/landcover.py:194-195 | the names each step reads from the name dictionaries for 2015 are the native and target names of that type |
| `JulesPft.JulesPfts.Compute` | jamr/process/landcover.py:303-388 | computes every type of the object's scheme exactly as that scheme's `compute` orders them, and leaves each type's maps as its recipe gives them from the maps before the call |
| `JulesPft.TypeNamesApart` | jamr/process/landcover.py:155-164 | two different surface types never share a JULES name |
| `JulesPft.JulesNamesDistinct` | jamr/process/landcover.py:155-164 | neither scheme's name list repeats a name, so each `compute` makes as many maps as its list has names |
| `JulesPft.TypeNameInitial` | jamr/process/landcover.py:155-164 | no JULES type name is empty or starts with `e`, the first letter of every `esacci_` input map |
| `JulesPft.JulesNamesDiffer` | jamr/process/landcover.py:187-198 | two names of the form `{type}_{year}_{region}_native` or `{type}_{year}_{region}.tif` for one year and region coincide only for the same type and the same suffix |
| `JulesPft.JulesPfts.RecipesOrder` | jamr/process/landcover.py:307-388 | the recipes of each scheme are for exactly the types its `compute` calls, in call order |
| `JulesPft.JulesPfts.OrderDistinct` | jamr/process/landcover.py:307-388 | no scheme's `compute` computes a type twice |
| `JulesPft.JulesPfts.CrosswalkUnwritten` | jamr/process/landcover.py:187-198 | no native or target name a scheme writes is the land-cover map or one of the crosswalk fraction maps, so computing the types never replaces an input |
| `JulesPft.JulesPfts.RecipesReadable` | jamr/process/landcover.py:206-483 | every map a recipe reads is a crosswalk fraction, one of the two C4 maps, or (9-PFT only) the tropical-forest map |
| `JulesPft.JulesPfts.SeparateApart` | jamr/process/landcover.py:303-483 | when the C4, biome and mask maps are not among the names the scheme writes, no step reads or masks on a map an earlier step of the same `compute` wrote |
| `JulesPft.JulesPfts.ProducedFresh` | jamr/process/landcover.py:214-221 | a step none of whose inputs an earlier step touched leaves its type's maps as the product step gives them from the maps before `compute`, each write subject to overwrite |
| `JulesPft.JulesPfts.ProducedKept` | jamr/process/landcover.py:303-483 | a type's maps stay as produced while later steps compute other types |
| `JulesPft.JulesPfts.NamesUntouched` | jamr/process/landcover.py:187-198 | a type no earlier step computed has neither of its maps among the names those steps touched |
| `JulesPft.JulesPfts.Advance` | jamr/process/landcover.py:303-483 | one more step carries forward the log order, the untouched maps and every type produced so far, and adds the new type |
| `JulesPft.JulesPfts.ComputeNineHead` | jamr/process/landcover.py:370-388 | sets the region from the 2015 land-cover map and computes the seven 9-PFT tree and shrub types in call order |
| `JulesPft.JulesPfts.RecipeCell` | jamr/process/landcover.py:214-221 | on the native grid, a produced type whose maps were writable (overwrite on, or neither map existed) has at each cell its recipe applied to the input cells at the same position, and null where the mask excludes the cell |
| `JulesPft.JulesPfts.RecipeValue` | jamr/process/landcover.py:214-221 | the value of a produced type's native cell is the recipe's value of the input cells, and 0 where the mask excludes the cell |
| `JulesPft.JulesPfts.CopyValue` | jamr/process/landcover.py:240-294 | a copying type's native cell holds its one crosswalk fraction |
| `JulesPft.JulesPfts.SumValue` | jamr/process/landcover.py:318-346 | a two-fraction type's native cell holds the sum of its two crosswalk fractions |
| `JulesPft.JulesPfts.ShrubValue` | jamr/process/landcover.py:348-363 | the 5-PFT shrub cell holds the sum of the four shrub fractions |
| `JulesPft.JulesPfts.GrassValues` | jamr/process/landcover.py:206-238 | C3 plus C4 grass cells hold natural grass plus crops, whatever the C4 shares |
| `JulesPft.JulesPfts.BroadleafValues` | jamr/process/landcover.py:390-416 | tropical plus temperate broadleaf evergreen cells hold the broadleaf evergreen fraction, whatever the biome indicator |
| `JulesPft.JulesPfts.CopiedValues` | jamr/process/landcover.py:240-294 | urban, water, bare soil and snow/ice cells together hold the four matching crosswalk fractions |
| `JulesPft.JulesPfts.SharedValues` | jamr/process/landcover.py:311-316 | the six types both schemes share together hold natural grass, crops, urban, water, bare soil and snow/ice |
| `JulesPft.JulesPfts.FiveHeadValues` | jamr/process/landcover.py:318-363 | the three 5-PFT tree and shrub types together hold the eight tree and shrub fractions |
| `JulesPft.JulesPfts.NineTreeValues` | jamr/process/landcover.py:390-456 | the five 9-PFT tree types together hold the four tree fractions |
| `JulesPft.JulesPfts.NineShrubValues` | jamr/process/landcover.py:457-483 | the two 9-PFT shrub types together hold the four shrub fractions |
| `JulesPft.JulesPfts.NineHeadValues` | jamr/process/landcover.py:390-483 | the seven 9-PFT tree and shrub types together hold the eight tree and shrub fractions |
| `JulesPft.JulesPfts.GroupedNativeTotal` | jamr/process/landcover.py:303-483 | after either scheme's `compute`, with every type's maps writable, the native maps of all its types sum, cell by cell, to the sum of the fourteen crosswalk fractions there, and to 0 where the mask excludes the cell |
| `LandFraction.LandCellMeaning` | jamr/process/landfraction.py:65-95 | the native land-fraction cell is defined exactly when both inputs are, is 0 exactly when the minimum water-bodies value is 0 and the land-cover class is water (210), and is otherwise 1 |
| `LandFraction.OceanMinOfBlock` | jamr/process/landfraction.py:55-70 | for water-bodies values between 0 and 2, `ocean_min_tmp` of a block's minimum is 1 exactly when some cell of the block is 0, and null only when every cell is null |
| `LandFraction.TargetFraction` | jamr/process/landfraction.py:98-99 | averaging 0/1 cells gives a land fraction between 0 and 1, exactly 1 over all-land blocks and exactly 0 over all-ocean blocks |
| `LandFraction.BuildOceanMin` | jamr/process/landfraction.py:65-70 | logs the `ocean_min_tmp` mapcalc and, when the engine accepts it, stores it; region, mask and files are unchanged |
| `LandFraction.BuildLand` | jamr/process/landfraction.py:74-95 | logs the water, ocean and land mapcalcs in source order and stores their results; region, mask and files are unchanged |
| `LandFraction.BuildNative` | jamr/process/landfraction.py:55-95 | logs the minimum resample followed by the four mapcalcs that build the native map, and stores their results |
| `LandFraction.Create` | jamr/process/landfraction.py:20-29 | the factory builds an object, holding the land-cover years, only for method `ESA`; any other method is the ValueError `Unknown land fraction method: <method>` and leaves the engine alone |
| `LandFraction.ESALandFraction.constructor` | jamr/process/landfraction.py:33-47 | keeps the configuration, the land-cover years and the overwrite flag, sets the native and target names from the region name, and removes the mask |
| `LandFraction.ESALandFraction.SetMapnames` | jamr/process/landfraction.py:45-47 | the native name is `esacci_landfrac_<region>_native` and the target name `esacci_landfrac_<region>.tif` |
| `LandFraction.ESALandFraction.Compute` | jamr/process/landfraction.py:49-102 | a KeyError naming 2015 with nothing changed unless 2015 is a land-cover year; otherwise sets the native region, builds the native map only when it is missing or overwrite is set, sets the target region, averages into the target map and removes the `_tmp` maps, ending on the target region |
| `LandFraction.LandMapsCells` | jamr/process/landfraction.py:74-95 | on one region, without a mask and with each map writable, every native cell is `1 - ocean`, where ocean requires both the minimum test and the water class |
| `LandFraction.NativeMapCells` | jamr/process/landfraction.py:55-95 | with each map writable, native cell i is the land value of the minimum over its own block of water-bodies cells together with land-cover cell i |
| `LandFraction.OceanMinCells` | jamr/process/landfraction.py:55-70 | with each map writable, the block minimum and the ocean test give cell i of the ocean-minimum map from block i of the water-bodies map, and leave the land-cover map untouched |
| `LandFraction.OceanCell` | jamr/process/landfraction.py:55-95 | a native cell is ocean (0) exactly when some water-bodies cell of its block is 0 and the land-cover class is water; every defined cell is 0 or 1 |
| `LandFraction.ComputeOutputs` | jamr/process/landfraction.py:49-102 | no temporary map survives `compute`, and with a run and every map writable both the native and the target maps exist, the target one on the target grid |
| `LandFractionLegacy.SelfBlockFactor` | jamr/landfraction.py:47-57 | a region resampled onto itself has block factor 1 |
| `LandFractionLegacy.MinimumSingle` | jamr/landfraction.py:51-57 | the minimum of a one-cell block is that cell |
| `LandFractionLegacy.LandCellSame` | jamr/landfraction.py:64-87 | when the land-cover map stands in for the water-bodies minimum, a cell is land (1) whenever it is defined |
| `LandFractionLegacy.LegacyAlwaysLand` | jamr/landfraction.py:47-87 | as written, resampling the land-cover map onto its own grid makes every defined cell of the output 1, so no cell is ever ocean |
| `LandFractionLegacy.SelfMinimum` | jamr/landfraction.py:47-56 | the minimum resample of the land-cover map onto its own grid copies it cell for cell |
| `LandFractionLegacy.LegacyOceanMin` | jamr/landfraction.py:47-68 | logs `g.region raster=`, the minimum resample of the land-cover map, `g.region region=` and the `ocean_min_tmp` mapcalc, ending on the saved region (or the land-cover region when that name is unknown) |
| `LandFractionLegacy.ESALandFraction.constructor` | jamr/landfraction.py:32-43 | keeps the region, the land-cover years and the overwrite flag, names the map `esacci_landfrac_<region>`, removes the mask and adopts the named region |
| `LandFractionLegacy.ESALandFraction.SetMapnames` | jamr/landfraction.py:42-43 | the map name is `esacci_landfrac_<region>` |
| `LandFractionLegacy.ESALandFraction.Compute` | jamr/landfraction.py:45-87 | a KeyError naming 2015 with nothing changed unless 2015 is a land-cover year; otherwise logs the seven commands in source order, ends on the named region, and leaves the catalogue as the chain computes it |
| `Pedotransfer.CosbyBRange` | jamr/process/soilprops.py:73 | for any texture in percent (clay and sand non-negative, together at most 100) the Cosby `b` lies between 2.8 and 18.8 |
| `Pedotransfer.CosbyThetaSatRange` | jamr/process/soilprops.py:100 | for any texture in percent the Cosby saturated water content lies between 0.363 and 0.505 |
| `Pedotransfer.CosbyPsiBelowCritical` | jamr/process/soilprops.py:82 | for non-negative clay and sand the Cosby air-entry suction is positive and below 3.17 m, so below the critical-point suction of 3.364 m |
| `Pedotransfer.CosbyKsatPositive` | jamr/process/soilprops.py:91 | the Cosby saturated conductivity is positive for every texture |
| `Pedotransfer.BrooksCoreyOrdered` | jamr/process/soilprops.py:116-122 | with positive air-entry suction and `b`, the Brooks-Corey content at the wilting-point suction is at most the content at the critical-point suction |
| `Pedotransfer.BrooksCoreyWithinSaturation` | jamr/process/soilprops.py:118 | at any suction above the air-entry suction the Brooks-Corey content lies between 0 and the saturated content |
| `Pedotransfer.CosbyRetentionOrdered` | jamr/process/soilprops.py:98-122 | for every texture the Cosby maps satisfy theta_res = 0 <= theta_wilt <= theta_crit <= theta_sat |
| `Pedotransfer.VgDerivedPositive` | jamr/process/soilprops.py:273-285 | for alpha > 0 and n > 1 the derived `psi = 1/alpha` and `b = 1/(n - 1)` are positive |
| `Pedotransfer.SeRange` | jamr/process/soilprops.py:287-297 | for alpha > 0, n > 1 and a positive suction the effective saturation lies strictly between 0 and 1 |
| `Pedotransfer.VgThetaRange` | jamr/process/soilprops.py:287-302 | with theta_res < theta_sat the van Genuchten water content lies strictly between them |
| `Pedotransfer.SeDecreasing` | jamr/process/soilprops.py:287-297 | the effective saturation strictly decreases as the suction rises |
| `Pedotransfer.VgOrdered` | jamr/process/soilprops.py:306-310 | the van Genuchten content at the wilting point is strictly below the content at the critical point |
| `Pedotransfer.ThPositive` | jamr/process/soilprops.py:321-346 | the Tomasella-Hodnett `n` and `alpha` regressions are positive for every input, so `psi = 1/alpha` is always defined |
| `Pedotransfer.ThNBelowOne` | jamr/process/soilprops.py:321-333 | the `n` regression can fall below 1 (10% clay, 45% sand, 45% silt, organic carbon 600, pH index 70), where `b = 1/(n - 1)` is negative |
| `Pedotransfer.FactorOrderMatchesTable` | jamr/process/soilprops.py:482-493 | the equation multiplies the j-th factor by the indicator of the j-th class of the factor lists' class order |
| `Pedotransfer.FactorIndex` | jamr/process/soilprops.py:482-493 | every texture class has a position in the factor order, and the class at that position is that class |
| `Pedotransfer.FactorOrderPermutesComputeOrder` | jamr/process/soilprops.py:435-493 | the equation reads every indicator map `_usda_texture_class` computes exactly once: both orders list each of the twelve classes once |
| `Pedotransfer.ClassesOverlap` | jamr/process/soilprops.py:435-459 | the class tests are independent, not an if-elif chain: 75% sand, 15% silt and 10% clay is both a sandy loam and a loamy sand, and not a sand |
| `Pedotransfer.Indicators` | jamr/process/soilprops.py:424-459 | the indicator of each class is 1 exactly when the texture lies within that class's limits, and 0 otherwise |
| `Pedotransfer.WeightedSumNone` | jamr/process/soilprops.py:479-497 | with no indicator set the weighted sum is 0 |
| `Pedotransfer.WeightedSumOne` | jamr/process/soilprops.py:479-497 | with only the k-th indicator set the weighted sum is the k-th factor |
| `Pedotransfer.WeightedSumTwo` | jamr/process/soilprops.py:479-497 | with exactly two indicators set the weighted sum is the sum of their two factors |
| `Pedotransfer.ZhangSchaapOneClass` | jamr/process/soilprops.py:479-511 | a texture in exactly one class takes that class's parameter |
| `Pedotransfer.ZhangSchaapNoClass` | jamr/process/soilprops.py:479-511 | a texture in no class takes 0, whatever the factors |
| `Pedotransfer.ZhangSchaapOverlap` | jamr/process/soilprops.py:479-511 | the overlapping texture takes the sum of the sandy-loam and loamy-sand factors, which is no class's value |
| `Pedotransfer.ZhangSchaapOneClassRetention` | jamr/process/soilprops.py:499-514 | where a texture falls in exactly one class, alpha > 0 and n > 1, psi and b are positive, and theta_res < theta_wilt < theta_crit < theta_sat |
| `SoilCells.CosbyBCell` | jamr/process/soilprops.py:71-77 | the `b` expression is defined exactly where clay and sand are, and then equals the Cosby `b` of those values |
| `SoilCells.CosbyPsiCell` | jamr/process/soilprops.py:80-86 | the `psi_m` expression is defined exactly where clay and sand are, and then equals the Cosby air-entry suction |
| `SoilCells.CosbyKsatCell` | jamr/process/soilprops.py:89-95 | the `ksat` expression is defined exactly where clay and sand are, and then equals the Cosby conductivity |
| `SoilCells.CosbyThetaSatCell` | jamr/process/soilprops.py:98-104 | the `theta_sat` expression is defined exactly where clay and sand are, and then equals the Cosby saturated content |
| `SoilCells.ZeroCell` | jamr/process/soilprops.py:107-113 | the residual content is the constant 0 in every cell |
| `SoilCells.BrooksCoreyCell` | jamr/process/soilprops.py:116-122 | the Brooks-Corey expression is defined only where its three inputs are and `b` is not 0, and there, with a non-negative suction ratio, equals the Brooks-Corey content |
| `SoilCells.CosbyCellsOrdered` | jamr/process/soilprops.py:157-222 | for one cell of any texture the Cosby critical and wilting contents are defined and 0 = theta_res <= theta_wilt <= theta_crit <= theta_sat |
| `SoilCells.VgPsiCell` | jamr/process/soilprops.py:273-279 | `1 / alpha` is defined exactly where alpha is non-zero, and is then the van Genuchten suction |
| `SoilCells.VgBCell` | jamr/process/soilprops.py:281-285 | `1 / (n - 1)` is defined exactly where n is not 1, and is then the van Genuchten `b` |
| `SoilCells.VgCellsChain` | jamr/process/soilprops.py:287-304 | the A, Se and theta expressions chained together compute the van Genuchten water content, which lies strictly between theta_res and theta_sat |
| `SoilCells.VgCellsOrdered` | jamr/process/soilprops.py:306-310 | from the same maps, the wilting-point content is strictly below the critical-point content |
| `SoilCells.ThNCell` | jamr/process/soilprops.py:321-333 | the Tomasella-Hodnett `n` expression is defined exactly where its five inputs are, and then equals the regression, with `soc / 10` evaluated by r.mapcalc's division |
| `SoilCells.ThAlphaCell` | jamr/process/soilprops.py:335-346 | the `alpha` expression is defined exactly where its four inputs are, and then equals the regression |
| `SoilCells.ThThetaSatCell` | jamr/process/soilprops.py:348-359 | the saturated-content expression is defined exactly where its five inputs are, and then equals the regression |
| `SoilCells.ThThetaResCell` | jamr/process/soilprops.py:361-373 | the residual-content expression is defined exactly where its four inputs are, and then equals the regression |
| `SoilCells.ThCellsPositive` | jamr/process/soilprops.py:273-346 | where every input has a value, the `n` and `alpha` maps are positive and `1 / alpha` is defined |
| `SoilCells.TextureCell` | jamr/process/soilprops.py:424-433 | an indicator cell is defined exactly where sand, silt and clay are, and is then 1 when the texture lies within the class's six limits and 0 otherwise |
| `SoilCells.WeightedCellSum` | jamr/process/soilprops.py:479-497 | the first k terms of the equation are null if any of their indicators is null, and otherwise the weighted sum of the indicator values |
| `SoilCells.IndicatorCells` | jamr/process/soilprops.py:435-459 | the twelve indicator cells of a texture, one per class in factor order |
| `SoilCells.ZhangSchaapCells` | jamr/process/soilprops.py:435-497 | computing the indicator maps and then the equation gives, at a cell with sand, silt and clay values, the Zhang-Schaap parameter of that texture |
| `SoilCells.ZhangSchaapCellNull` | jamr/process/soilprops.py:479-497 | a null indicator, as where a mask excludes a cell, makes the parameter null |
| `SoilProps.StepLogUnmasked` | jamr/process/ancillarydataset.py:32-62 | a product step issues no mask command, so the mask set before it stays in force |
| `SoilProps.CosbyOrderComplete` | jamr/process/soilprops.py:140-155 | Cosby `compute` produces each of the seven variables exactly once |
| `SoilProps.VariableNameInjective` | jamr/process/soilprops.py:135-138 | different variables have different names, so their maps do not collide |
| `SoilProps.CosbyPtf.constructor` | jamr/process/soilprops.py:42-68 | keeps the configuration and the horizon's map names, replaces `-` by `_` in the horizon, removes the mask and names every variable's native and target map |
| `SoilProps.CosbyPtf.SetMapnames` | jamr/process/soilprops.py:135-138 | every variable gets the target name `{var}_cosby_{horizon}_{region}` and the native name with `_native` appended |
| `SoilProps.CosbyPtf.MapnamesAgree` | jamr/process/soilprops.py:135-138 | the names the steps use are the stored ones, and the native name is the target name with `_native` appended |
| `SoilProps.CosbyPtf.Step` | jamr/process/soilprops.py:157-222 | one variable's step ends on the target region, records one more native computation, changes only that variable's two maps, leaves them as the product step on the clay map's grid gives them (each write subject to overwrite), and extends the chained result of the steps so far |
| `SoilProps.CosbyPtf.TextureSteps` | jamr/process/soilprops.py:157-195 | b, psi_m, ksat and theta_sat are computed in that order, and the catalogue is their chained result |
| `SoilProps.CosbyPtf.RetentionSteps` | jamr/process/soilprops.py:197-222 | theta_crit and theta_wilt are computed from the native maps already made, then theta_res, ending on the target region, with the catalogue the chained result |
| `SoilProps.CosbyPtf.Steps` | jamr/process/soilprops.py:146-152 | the seven steps run in `compute`'s order, touch only their own maps, leave every resample on the target region, and leave the catalogue as the seven chained steps give it |
| `SoilProps.CosbyPtf.Compute` | jamr/process/soilprops.py:140-155 | fails with CalledModuleError, changing no map, when a mask already exists or the land-fraction map is missing; otherwise brackets the seven steps between mask-on (category 1) and mask-off, ending unmasked on the target region, touching only the variables' maps, and leaving the catalogue as the seven steps chained under the land-fraction mask give it |
| `SoilProps.CosbyPtf.CosbyValue` | jamr/process/soilprops.py:140-222 | after the seven chained steps, with the clay, sand and mask maps apart from the outputs and every output writable: b, psi_m, ksat, theta_sat and theta_res hold their expressions over the clay and sand maps on the native grid, theta_crit and theta_wilt theirs over the stored theta_sat, psi_m and b, and every target map is its native map's block average |
| `SoilProps.CosbyPtf.TextureValue` | jamr/process/soilprops.py:157-195 | the native map of a variable computed from clay and sand is its expression over the maps before `compute` |
| `SoilProps.CosbyPtf.RetentionValue` | jamr/process/soilprops.py:197-222 | the native theta_crit and theta_wilt maps are their expressions over the final native theta_sat, psi_m and b maps |
| `SoilProps.CosbyPtf.ChainedNative` | jamr/process/soilprops.py:146-152 | in a chain of distinct steps, step j stores its native map computed on the catalogue the earlier steps left and its average, and later steps keep both |
| `SoilProps.CosbyPtf.ChainedLast` | jamr/process/soilprops.py:146-152 | the last of distinct steps stores its native map and its average |
| `SoilProps.CosbyPtf.StoredAgain` | jamr/process/soilprops.py:197-222 | a native map an earlier step stored is the same when a later step reads it and at the end |
| `SoilProps.CosbyPtf.ChainedFrame` | jamr/process/soilprops.py:146-152 | the chained steps leave every map outside their outputs as it was |
| `SoilProps.CosbyPtf.ChainedSnoc` | jamr/process/soilprops.py:146-152 | the chain of steps is the chain of all but the last, followed by the last product step on the clay map's grid |
| `SoilProps.CosbyPtf.ChainedStep` | jamr/process/soilprops.py:157-160 | the native region a step sets from the clay map is the chain's native grid whenever the clay map is unchanged |
| `SoilProps.CosbyPtf.CosbyNamesApart` | jamr/process/soilprops.py:135-138 | no native name is a target name, and different variables have different native and target names |
| `SoilProps.CosbyPtf.ProgressSnoc` | jamr/process/soilprops.py:157-222 | one more step, with its five commands and two maps, extends the logged calculations by its native map and keeps every map outside the steps' outputs |
| `SoilProps.CosbyPtf.TouchedOutputs` | jamr/process/soilprops.py:135-152 | every map a run of steps writes is among `compute`'s outputs |
| `SoilProps.CosbyPtf.MaskKept` | jamr/process/soilprops.py:143-152 | no step writes the land-fraction mask map when it is not among the outputs |
| `SoilProps.VanGenuchtenInitAsWritten` | jamr/process/soilprops.py:232 | as written, the call to `PTF.__init__` passes four arguments for five parameters and raises TypeError for the missing `overwrite` |
| `SoilProps.NewVanGenuchten` | jamr/process/soilprops.py:225-244 | corrected constructor: the fields `PTF.__init__` copies, `self.region` set to the region name, and the mask removed |
| `SoilProps.NewTomasellaHodnett` | jamr/process/soilprops.py:313-319 | corrected constructor of the Tomasella-Hodnett PTF: method `tomasellahodnett`, the regressions as its scheme, and the fields of `NewVanGenuchten` |
| `SoilProps.ZhangSchaapSuperComputeAsWritten` | jamr/process/soilprops.py:477 | as written, `super().compute()` omits `landfrac_mapname`, so once the AttributeError at line 476 is corrected the call raises TypeError |
| `SoilProps.ZhangSchaapPtf.constructor` | jamr/process/soilprops.py:461-467 | corrected constructor: method `zhangschaap`, indicator maps named by horizon and region, no texture object yet, and the mask removed |
| `SoilProps.ZhangSchaapPtf.ComputeAsWritten` | jamr/process/soilprops.py:469-476 | as written: the region is set from the clay map and then `USDATextureClass.compute` raises AttributeError on `self.config`, with no map written |
| `SoilProps.ZhangSchaapPtf.TextureClasses` | jamr/process/soilprops.py:469-476 | corrected first half: the region set from the clay map, and the twelve indicator blocks run in that region |
| `SoilProps.ZhangSchaapPtf.Retention` | jamr/process/soilprops.py:246-259 | the base-class `compute` runs its eight van Genuchten blocks, each in its own `try`, and succeeds |
| `SoilProps.ZhangSchaapPtf.Compute` | jamr/process/soilprops.py:469-477 | corrected `compute`: the region is the clay map's native region, then the twelve indicator blocks and the eight van Genuchten blocks run in it, and it succeeds |
| `SoilProps.PtfFactory` | jamr/process/soilprops.py:517-527 | a Cosby PTF for method `Cosby`; any other method is the ValueError `Unknown soil properties method` and leaves the engine alone |
| `SoilProps.MaskOffs` | jamr/utils/grass_utils.py:23-31 | n mask removals, one per PTF built |
| `SoilProps.Brackets` | jamr/process/soilprops.py:143-155 | n mask-on / mask-off pairs on category 1 of the land-fraction map |
| `SoilProps.SoilProperties.constructor` | jamr/process/soilprops.py:530-536 | keeps the method, configuration, horizons and overwrite flag, with no PTFs yet |
| `SoilProps.SoilProperties.Initial` | jamr/process/soilprops.py:538-541 | one Cosby PTF per horizon in order, each removing the mask; any other method fails at the first horizon with an empty dictionary (and succeeds with no horizons) |
| `SoilProps.SoilProperties.Compute` | jamr/process/soilprops.py:543-546 | an AttributeError before `initial`; otherwise every PTF's computations in order, bracketed by mask-on and mask-off, failing with CalledModuleError when a mask is already set |
| `SoilProps.SoilProperties.ComputeAll` | jamr/process/soilprops.py:545-546 | the loop's runs of each PTF's `compute` in turn, stopping at the first failure; it succeeds when there is no mask and the land-fraction map exists and is not overwritten |
| `SoilProps.SoilProperties.ComputeNext` | jamr/process/soilprops.py:545-546 | one PTF's `compute` succeeds exactly when there is no mask and the land-fraction map exists, and then extends the computations and mask brackets by its own |
| `SoilProps.SoilPropsFactory` | jamr/process/soilprops.py:31-39 | only the Cosby method gives an object; any other is the ValueError `Unknown soil properties method: <method>` |
| `VanGenuchten.UsdaInputs` | jamr/process/soilprops.py:482-493 | the equation's inputs are the indicator maps in factor order, each named with the horizon and region |
| `VanGenuchten.UsdaTexture.constructor` | jamr/process/soilprops.py:389-400 | keeps the texture maps, horizon, region name, overwrite flag and configuration |
| `VanGenuchten.UsdaTexture.TextureClasses` | jamr/process/soilprops.py:435-459 | runs the twelve indicator blocks in order, each in its own `try`, in the current region and mask |
| `VanGenuchten.UsdaTexture.Compute` | jamr/process/soilprops.py:402-408 | raises AttributeError on `self.config` before any command when the class sets the region and has no configuration; otherwise sets the region from the clay map and runs the twelve blocks |
| `VanGenuchten.Factors` | jamr/utils/constants.py:42-68 | each Zhang-Schaap parameter has one factor per texture class |
| `VanGenuchten.VanGenuchtenPtf.constructor` | jamr/process/soilprops.py:225-244 | keeps the method, horizon, region name, region, input maps, overwrite flag and scheme |
| `VanGenuchten.VanGenuchtenPtf.SaturatedHydraulicConductivity` | jamr/process/soilprops.py:375-384 | runs the conductivity block alone; `compute` never calls it |
| `VanGenuchten.VanGenuchtenPtf.Parameters` | jamr/process/soilprops.py:252-257 | alpha, n, theta_res, theta_sat, psi and b, each in its own `try`, in the current region |
| `VanGenuchten.VanGenuchtenPtf.Compute` | jamr/process/soilprops.py:246-310 | succeeds exactly when `self.region` is set; then all eight blocks run; without it the six parameter blocks run and the first retention block raises AttributeError |
| `SoilLegacy.CosbyPtf.constructor` | jamr/soil.py:98-114 | keeps the horizon's map names, the horizon with `-` replaced by `_`, the region label and the overwrite flag |
| `SoilLegacy.CosbyPtf.BlocksInOrder` | jamr/soil.py:116-184 | block k computes the k-th Cosby variable, and every map the retention blocks read is written by an earlier block |
| `SoilLegacy.CosbyPtf.Compute` | jamr/soil.py:116-184 | runs the seven blocks in order, each in its own `try`, in the current region and mask |
| `SoilLegacy.NewTomasellaHodnett` | jamr/soil.py:269-275 | the arguments line up with the base class here and `self.region` is the region label, so every block of `compute` runs |
| `SoilLegacy.NewUsdaTexture` | jamr/soil.py:343-356 | the texture object keeps the horizon as given and does not set the region |
| `SoilLegacy.ZhangSchaapUsdaAsWritten` | jamr/soil.py:419-426 | as written, `USDATextureClass` is called with six arguments where its constructor takes three, which raises TypeError |
| `SoilLegacy.ZhangSchaapPtf.constructor` | jamr/soil.py:411-417 | method `zhangschaap`, the horizon's maps and the region label, no texture object yet |
| `SoilLegacy.ZhangSchaapPtf.ComputeAsWritten` | jamr/soil.py:419-426 | as written, `compute` fails with that TypeError and issues nothing |
| `SoilLegacy.ZhangSchaapPtf.TextureClasses` | jamr/soil.py:419-426 | corrected: builds the texture object and runs the twelve indicator blocks in the current region |
| `SoilLegacy.ZhangSchaapPtf.Retention` | jamr/soil.py:207-266 | the base-class `compute` runs its eight blocks and succeeds |
| `SoilLegacy.ZhangSchaapPtf.Compute` | jamr/soil.py:419-462 | corrected: the twelve indicator blocks then the eight van Genuchten blocks, all in the current region, and it succeeds |
| `SoilGridsInput.ToInt` | jamr/input/soilgrids.py:136 | `int(x)` returns an integer unchanged and reads any non-empty run of decimal digits as its value |
| `SoilGridsInput.ToIntOfString` | jamr/input/soilgrids.py:136 | `int(str(n))` gives n back for every natural number, also with spaces around it |
| `SoilGridsInput.Validate` | jamr/input/soilgrids.py:125-145 | the configuration is accepted exactly when every variable and horizon is known, `int(resolution)` parses to 250, 1000 or 5000 and the statistic is known; the kept resolution is that integer; every refusal is a ValueError |
| `SoilGridsInput.LegacyValidate` | jamr/soil.py:554-573 | the older check accepts exactly when every variable and horizon is known, the resolution as given is the integer 250, 1000 or 5000 and the statistic is known; a refusal is a bare ValueError |
| `SoilGridsInput.ValidateAgreement` | jamr/soil.py:565-567 | the two checks agree on every integer resolution, but the string "1000" fails the older check while the newer one accepts it whenever the rest is valid |
| `SoilGridsInput.FilenameTail` | jamr/input/soilgrids.py:56-65 | a file template exists exactly for resolutions 250, 1000 and 5000 |
| `SoilGridsInput.FilenamesByResolution` | jamr/input/soilgrids.py:56-65 | different resolutions read different files for the same variable, horizon and statistic |
| `SoilGridsInput.FilenameParts` | jamr/input/soilgrids.py:58-63 | a file name is `{abbr}_{horizon}_{statistic}` plus the resolution's tail, followed by `.tif` |
| `SoilGridsInput.ReprojectedTif` | jamr/input/soilgrids.py:92-94 | the reprojected copy of `<base>.tif` is `<base>_ll.tif` in the scratch directory |
| `SoilGridsInput.PreprocessedName` | jamr/input/soilgrids.py:88-99 | the reprojected copy of a SoilGrids file is named after the file with `_ll` before `.tif`, even when the statistic holds a dot such as `Q0.50` |
| `SoilGridsInput.ReplaceDashInjective` | jamr/input/soilgrids.py:78 | replacing `-` by `_` keeps strings without `_` apart |
| `SoilGridsInput.AbbreviationsSeparate` | jamr/utils/constants.py:25-33 | no abbreviation holds `_`, and different variables have different abbreviations |
| `SoilGridsInput.HorizonsPlain` | jamr/utils/constants.py:34 | no SoilGrids horizon holds `_` |
| `SoilGridsInput.MapNameParts` | jamr/input/soilgrids.py:81 | a map name is `sg_{resolution}_`, the abbreviation, `_`, then the horizon with dashes replaced and the statistic |
| `SoilGridsInput.MapNamesDistinct` | jamr/input/soilgrids.py:76-82 | different variables or different horizons get different map names |
| `SoilGridsInput.FilenamesMeaning` | jamr/input/soilgrids.py:67-74 | the file loop succeeds exactly when every variable has an abbreviation and the resolution a template; it then names exactly the listed variables, each by its file; a failure is a KeyError for a listed unknown variable or an AttributeError for the missing template |
| `SoilGridsInput.FilenamesExtend` | jamr/input/soilgrids.py:69-73 | one more named variable adds its file to the dictionary |
| `SoilGridsInput.FilenamesFail` | jamr/input/soilgrids.py:70-71 | one more variable without a name makes the loop fail with that variable's error |
| `SoilGridsInput.CheckedVariablesNamed` | jamr/input/soilgrids.py:125-139 | variables and a resolution that pass the constructor's checks always get file names |
| `SoilGridsInput.Distinct` | jamr/input/soilgrids.py:68-74 | the keys a dict built from a list holds are the list's elements, each once |
| `SoilGridsInput.HorizonMapsField` | jamr/input/soilgrids.py:30-34 | each field of `SoilHorizonMaps(**m)` is the entry of m for that variable, or None without one |
| `SoilGridsInput.NamedMaps` | jamr/input/soilgrids.py:76-82 | the namedtuple holds the map name of exactly the variables asked for and None for the rest |
| `SoilGridsInput.WarpsMeaning` | jamr/input/soilgrids.py:96-98 | a warp is made exactly for the keys whose output is missing, or for every key when overwriting; an existing output is never rewritten without overwrite |
| `SoilGridsInput.SoilGridsHorizon.constructor` | jamr/input/soilgrids.py:38-54 | keeps the directories, variables, resolution, statistic, horizon and overwrite flag, with no files named yet |
| `SoilGridsInput.SoilGridsHorizon.Create` | jamr/input/soilgrids.py:38-82 | succeeds exactly when the file loop does, returning its error otherwise; on success the files and maps are named and nothing is reprojected yet |
| `SoilGridsInput.SoilGridsHorizon.GetInputFilenames` | jamr/input/soilgrids.py:67-74 | on success stores exactly the file loop's dictionary, keyed in first-appearance order; on failure the error and nothing changed |
| `SoilGridsInput.SoilGridsHorizon.SetMapnames` | jamr/input/soilgrids.py:76-82 | the maps hold `sg_{res}_{abbr}_{horizon}_{stat}` for each variable asked for and None for the rest; nothing else changes |
| `SoilGridsInput.SoilGridsHorizon.Preprocess` | jamr/input/soilgrids.py:88-99 | every file gets the path of its reprojected copy, and the warps run are exactly those the existence test allows |
| `SoilGridsInput.CollectFilenames` | jamr/input/soilgrids.py:68-73 | the loop returns the dictionary of files and its key order, or the error the loop raises |
| `SoilGridsInput.CollectMapnames` | jamr/input/soilgrids.py:77-82 | the loop builds the namedtuple of the map names of the variables asked for |
| `SoilGridsInput.Reproject` | jamr/input/soilgrids.py:89-99 | the loop records the reprojected path of every key and runs the warps the existence test allows, in key order |
| `SoilGridsInput.FilenamesStops` | jamr/input/soilgrids.py:69-73 | once the loop fails at a variable, the later variables do not change the outcome |
| `SoilGridsInput.Without` | jamr/input/soilgrids.py:173-174 | deleting a key keeps every other key, and distinct keys stay distinct |
| `SoilGridsInput.SoilGrids.constructor` | jamr/input/soilgrids.py:121-145 | keeps the configuration, resolution and overwrite flag, with no horizon and no data yet |
| `SoilGridsInput.SoilGrids.Create` | jamr/input/soilgrids.py:121-145 | succeeds exactly when the configuration passes the checks, keeping `int(resolution)`; otherwise the ValueError |
| `SoilGridsInput.SoilGrids.CreateLegacy` | jamr/soil.py:550-573 | succeeds exactly when the older checks pass, keeping the resolution as given; otherwise a ValueError |
| `SoilGridsInput.SoilGrids.MakeHorizon` | jamr/input/soilgrids.py:157-159 | builds a horizon object for h with this object's settings, named, reprojected to the planned copies, and appends exactly the planned imports of h to the engine log and catalogue |
| `SoilGridsInput.SoilGrids.Initial` | jamr/input/soilgrids.py:153-162 | stores one planned horizon object per configured horizon (a repeated horizon once, though read again), the current horizon ends at the last one, and the engine holds exactly the imports of every horizon in order |
| `SoilGridsInput.SoilGrids.GetItem` | jamr/input/soilgrids.py:164-165 | returns the stored horizon object; a missing key is a KeyError, and before `initial` an AttributeError |
| `SoilGridsInput.SoilGrids.Len` | jamr/input/soilgrids.py:167-168 | the number of distinct horizons stored, or an AttributeError before `initial` |
| `SoilGridsInput.SoilGrids.SetItem` | jamr/input/soilgrids.py:170-171 | the key now holds the value, a new key goes last and every other entry stays |
| `SoilGridsInput.SoilGrids.DelItem` | jamr/input/soilgrids.py:173-174 | the key is gone and every other entry stays; a missing key is a KeyError that changes nothing |
| `SoilGridsInput.SoilGrids.Keys` | jamr/input/soilgrids.py:185-186 | the stored horizons in insertion order, each once |
| `SoilGridsInput.SoilGrids.Items` | jamr/input/soilgrids.py:179-180 | every stored horizon paired with its object, in insertion order |
| `SoilGridsInput.DistinctCount` | jamr/input/soilgrids.py:167-168 | a list of distinct keys that are exactly a dictionary's keys is as long as the dictionary |
| `SoilGridsInput.ImportLog` | jamr/input/soilgrids.py:101-105 | `read` issues one `r.in.gdal` per key, in key order, from its reprojected copy into its map |
| `SoilGridsInput.ImportMapsMeaning` | jamr/input/soilgrids.py:101-105 | with distinct map names, an import without --overwrite keeps every existing map, creates a missing one exactly when its copy can be read, and touches nothing else |
| `SoilGridsInput.SoilGridsHorizon.Read` | jamr/input/soilgrids.py:101-105 | the engine log gains exactly the imports of the keys, the catalogue is their non-overwriting result, and region, mask, saved regions and files are unchanged |
| `SoilGridsInput.SoilGridsHorizon.Initial` | jamr/input/soilgrids.py:84-86 | `preprocess` then `read`: the planned copies and warps, then the imports of every key |
| `SoilGridsInput.SoilGrids.PlanNamesDistinct` | jamr/input/soilgrids.py:76-82 | across validated horizons and variables, two map names agree only for the same horizon and variable |
| `SoilGridsInput.SoilGrids.ReadsMapsMeaning` | jamr/input/soilgrids.py:153-162 | after `initial`, each configured variable's map at each configured horizon is kept if it existed and otherwise holds its copy exactly when the copy is readable; no other map changes |
| `SoilGridsInput.SoilGrids.MakeHorizons` | jamr/input/soilgrids.py:155-160 | the loop leaves one planned object per horizon and the engine after all horizons' imports, repeats included |
| `SoilGridsInput.SoilGrids.HorizonImported` | jamr/input/soilgrids.py:101-105 | reading one horizon imports each of its variables' maps and leaves every other map as it was |
| `Constants.MicrosOfResolutions` | jamr/utils/constants.py:3-16 | each of the fifteen resolutions, formatted with six decimals, reads as the listed number of millionths of a degree |
| `Constants.TableDistinguishable` | jamr/utils/constants.py:3-11 | the two extent names contain no underscore and differ, and the fifteen resolutions differ once rounded to six decimals |
| `Constants.RegionNameInjective` | jamr/utils/constants.py:16-17 | two names `{extent}_{res:.6f}Deg` agree only for the same extent (without underscores) and the same resolution rounded to six decimals |
| `Constants.NamesSeparable` | jamr/utils/constants.py:14-18 | extents and resolutions that are distinguishable give every (extent, resolution) pair its own region name |
| `Constants.TableSeparable` | jamr/utils/constants.py:13-18 | the thirty names built from the table are pairwise different |
| `Constants.TableComplete` | jamr/utils/constants.py:13-18 | once the loops finish, every (extent, resolution) name maps to that extent's bounds and that resolution |
| `Constants.TableSize` | jamr/utils/constants.py:13-18 | with distinct names the dictionary has exactly one entry per extent and resolution |
| `Constants.TableOnly` | jamr/utils/constants.py:13-18 | the dictionary holds no name other than those the loops form |
| `Constants.BuildRegions` | jamr/utils/constants.py:13-18 | the nested loop assigns every extent and resolution its name; with distinct names the result has one entry per pair and each holds that extent's bounds and that resolution |
| `Constants.AbbreviationsCoverVariables` | jamr/utils/constants.py:24-33 | the abbreviation dictionary has exactly the seven SoilGrids variables as keys |
| `Constants.HorizonDuplicate` | jamr/utils/constants.py:34 | the horizon list has seven entries but only six different horizons, `60-100cm` appearing twice |
| `Constants.ZhangSchaapWellFormed` | jamr/utils/constants.py:42-68 | the factor table has the five parameters, twelve values each (one per texture class), every n above 1, every alpha and ksat positive, and every residual water content positive and below the saturated content |
| `Constants.SuctionsOrdered` | jamr/utils/constants.py:70-71 | the critical-point suction is positive and below the wilting-point suction |
| `GridUtils.LastPoint` | jamr/utils/utils.py:52 | `np.linspace` with the endpoint included puts its last point exactly on the upper end |
| `GridUtils.BoundsTile` | jamr/utils/utils.py:50-54 | the cell bounds tile the extent: the first cell starts at its first edge, the last cell ends at the second, each cell ends where the next begins, and every cell is the extent divided by the number of cells wide |
| `GridUtils.BoundsOrdered` | jamr/utils/utils.py:50-54 | for an increasing extent every cell's lower bound lies below its upper bound, and for a decreasing one (north to south) above it |
| `GridUtils.LatLonGrids` | jamr/utils/utils.py:41-47 | both grids have one row per latitude and one column per longitude; the first holds the cell's longitude, the second its latitude |
| `GridUtils.ReverseAt` | jamr/utils/utils.py:25 | `s[::-1]` puts the element counted i from the end at position i |
| `GridUtils.ColumnCentres` | jamr/utils/utils.py:23 | column i of `raster2array` is centred i and a half cells east of the west edge |
| `GridUtils.RowCentres` | jamr/utils/utils.py:24-25 | row i is counted from the north: its centre lies `rows - 1 - i` and a half cells north of the south edge |
| `GridUtils.RowsDescend` | jamr/utils/utils.py:24-25 | with a positive north-south resolution the first row is the northernmost and every later row lies further south |
| `GridUtils.CentresInsideBounds` | jamr/utils/utils.py:15-38 | when the resolutions divide the region into exactly `cols` columns and `rows` rows, every x centre lies strictly inside its column's bounds and every y centre strictly inside its row's bounds (given north to south) |
| `Regions.Ceil` | jamr/regions.py:61-63 | `math.ceil` gives the least whole number not below its argument |
| `Regions.RoundHalfEven` | jamr/regions.py:22 | `np.round(·, 0)` gives an integer within a half of its argument, an exact tie going to the even one, and never negative for a non-negative argument |
| `Regions.RoundWhole` | jamr/regions.py:22 | rounding leaves a whole number as it is |
| `Regions.Tenths` | jamr/regions.py:22 | `np.round(abs(x) * 3600, 1)` is a whole number of tenths of an arc-second within half a tenth of the exact value |
| `Regions.ToDms` | jamr/regions.py:18-25 | `to_dms` splits the rounded arc-seconds into whole degrees, whole minutes below 60 and seconds below 60 (a whole number of tenths) that add back up to them, with sign -1 exactly for a negative argument |
| `Regions.ToDmsUnique` | jamr/regions.py:22-23 | any degrees, minutes below 60 and seconds below 60 that add up to the rounded arc-seconds are the ones `to_dms` returns |
| `Regions.DigitsRead` | jamr/regions.py:29-30 | the digits `str(int(·))` writes read back as the number |
| `Regions.PaddedReads` | jamr/regions.py:30-36 | `str(n).zfill(2)` of a number below 100 is two digits that read back as n |
| `Regions.CentiReads` | jamr/regions.py:38 | `'%05.2f'` of a number of hundredths below 100 has no colon and reads back as that number |
| `Regions.SecondsReads` | jamr/regions.py:32-38 | the seconds field `format_dms` writes for non-zero seconds below 60 has no colon and reads back as the seconds |
| `Regions.TwoFieldsRead` | jamr/regions.py:33 | `D:MM` reads back as D degrees and MM minutes |
| `Regions.ThreeFieldsRead` | jamr/regions.py:40 | `D:MM:S` reads back as D degrees, MM minutes and the seconds S stands for |
| `Regions.FormatDmsRow` | jamr/regions.py:28-40 | a row with whole degrees, whole minutes below 60 and seconds below 60 in tenths is written as text GRASS reads back as exactly that angle |
| `Regions.FormatDmsReads` | jamr/regions.py:18-40 | `format_dms(to_dms(x))` is read back as the magnitude of x rounded to the nearest tenth of an arc-second, exactly |
| `Regions.ResolutionExact` | jamr/regions.py:69-70 | a resolution that is a whole number of tenths of an arc-second passes through `to_dms` and `format_dms` unchanged; every listed resolution qualifies, 1/480 degree being 7.5 arc-seconds, 75 tenths |
| `Regions.ListedResolutionsExact` | jamr/constants.py:4-20 | every resolution of the region table, 1/480 degree (75 tenths of an arc-second) included, is a whole number of tenths of an arc-second and reaches `g.region` exactly |
| `Regions.LabelReads` | jamr/regions.py:45-57 | a longitude or latitude label reads back as the number it labels; 0 gets the positive letter |
| `Regions.WestEdge` | jamr/regions.py:60 | the west edge is w rounded down to a whole degree, and -180 for any w west of -180 |
| `Regions.EastEdge` | jamr/regions.py:61 | the east edge is e rounded up to a whole degree, and 180 for any e east of 180 |
| `Regions.SouthEdge` | jamr/regions.py:62 | the south edge is s rounded down to a whole degree, and -90 for any s south of -90 |
| `Regions.NorthEdge` | jamr/regions.py:63 | the north edge is n rounded up to a whole degree, and 90 for any n north of 90 |
| `Regions.FormatExtent` | jamr/regions.py:43-64 | `format_extent` succeeds exactly on four values and otherwise raises ValueError from the unpacking |
| `Regions.FormatExtentReads` | jamr/regions.py:43-64 | the four labels read back as the widened west, east, south and north edges, so the region set from them contains the extent wherever it lies on the globe |
| `Regions.WholeExtentKept` | jamr/regions.py:59-63 | an extent of whole degrees on the globe, like both listed extents, is passed on as it is |
| `Regions.SetRegionAsWritten` | jamr/regions.py:67-75 | as written, `_set_region` always fails: ValueError for an extent of other than four values, and NameError on `res` otherwise |
| `Regions.SetRegionAlwaysFails` | jamr/regions.py:67-75 | with the default whole-globe extent, which `format_extent` accepts, the call still fails with NameError |
| `Regions.SetRegionReads` | jamr/regions.py:67-74 | what the corrected `_set_region` hands to `g.region` is read back as the widened extent and the resolution rounded to a tenth of an arc-second |
| `Regions.ResolutionReads` | jamr/regions.py:69-70 | the resolution text reads back as the magnitude of res rounded to a tenth of an arc-second |
| `Regions.SetRegion` | jamr/regions.py:67-75 | corrected `_set_region`: succeeds exactly on a four-value extent; then sets the region to the widened extent and rounded resolution, saves it under the name and logs one command; on a malformed extent raises ValueError and changes nothing |
| `Regions.SavedAfterMeaning` | jamr/regions.py:78-80 | after the first n entries, a region is saved under each of their names with its own extent and resolution, and every other saved region is as it was |
| `Regions.SetRegions` | jamr/regions.py:78-80 | with the corrected `_set_region`, every table entry is set and saved in dictionary order; the first malformed extent raises, leaving exactly the entries before it saved |
| `Regions.SetRegionsAsWritten` | jamr/regions.py:78-80 | as written, `set_regions` succeeds only on an empty table, since the first `_set_region` call raises |
| `Elevation.DigitRunDigits` | jamr/input/elevation.py:24 | `[0-9]+` is greedy: the run taken is all digits and stops at the end or at a non-digit |
| `Elevation.MatchMeaning` | jamr/input/elevation.py:24 | a match of `([ns][0-9]+)([ew][0-9]+)` is a latitude and a longitude standing side by side in the string, and no digit follows them |
| `Elevation.FirstMatch` | jamr/input/elevation.py:25 | a position `pattern.search` reports lies in the rest of the string and the pattern matches there |
| `Elevation.FirstMatchLeftmost` | jamr/input/elevation.py:25 | the position `pattern.search` reports is the leftmost where the pattern matches, and it reports nothing only when no position matches |
| `Elevation.ParseMeritFilenameMatches` | jamr/input/elevation.py:23-32 | the result is the two groups of the leftmost match anywhere in the path, and otherwise ValueError `{fn} is not a valid MERIT DEM filename!` when no position matches |
| `Elevation.NoHemisphereRefused` | jamr/input/elevation.py:23-32 | a path with no `n` and no `s` is refused |
| `Elevation.AdmitsCode` | jamr/input/elevation.py:47-51 | a name made of a lettered latitude and longitude is kept by the filter exactly when what follows them is accepted |
| `Elevation.DemTifTail` | jamr/input/elevation.py:47 | both the pattern as written and the intended one accept `_dem.tif` after the longitude |
| `Elevation.TileFilesKept` | jamr/input/elevation.py:47-51 | both filters keep every genuine tile name; the one as written also keeps any character but a newline in place of the dot, which the intended one refuses |
| `Elevation.IntendedTilesParse` | jamr/input/elevation.py:23-47 | a file whose name the intended filter keeps always parses, since the name itself holds a tile code |
| `Elevation.BarTileKeptButRefused` | jamr/input/elevation.py:23-47 | the filter as written keeps a bar, digits, a bar, digits and `_dem.tif` (the hemisphere classes admit the bar character), and in a directory without n and s that path has no tile code, so parsing it raises ValueError |
| `Elevation.TilePathRoundTrip` | jamr/input/elevation.py:23-52 | a tile file in a directory holding no tile code parses back to the tile's latitude and longitude |
| `Elevation.DirectoryCodeWins` | jamr/input/elevation.py:25-52 | a tile code in a directory component decides the result whatever the file is called, since the search runs over the whole path |
| `Elevation.KeptMeaning` | jamr/input/elevation.py:44-53 | a path is kept exactly when it is a found file, rejoined from its directory and name, whose name the filter admits; no more paths are kept than were found |
| `Elevation.KeptPlain` | jamr/input/elevation.py:49-52 | a found file without doubled slashes whose name is admitted is kept exactly as found |
| `Elevation.KeepTiles` | jamr/input/elevation.py:46-52 | the loop keeps exactly the found files the filter admits, in order |
| `Elevation.CollectMapnames` | jamr/input/elevation.py:55-59 | one map name `merit_dem_{rgn}` for every region and for no other key |
| `Elevation.TilePassOutcome` | jamr/input/elevation.py:69-70 | the tile loop succeeds exactly when every file parses; otherwise it raises the ValueError of one of them |
| `Elevation.TilePassFiles` | jamr/input/elevation.py:69-86 | a successful tile loop names one output `merit_dem_avg_{lat}_{lon}_{rgn}.tif` per file, in file order, and afterwards exactly the earlier files and the outputs exist |
| `Elevation.TilePassLast` | jamr/input/elevation.py:69-86 | the last file of a successful loop parses, after the ones before it went through, and adds its output last |
| `Elevation.TilePassSteps` | jamr/input/elevation.py:74-86 | a tile is averaged at the region's resolution only when its output is missing or overwrite is on, every missing output gets written, and with overwrite every tile is averaged |
| `Elevation.TilePassStops` | jamr/input/elevation.py:69-70 | once a file fails to parse, the rest of the loop does not run: the error of the prefix is the error of the whole |
| `Elevation.ProcessTiles` | jamr/input/elevation.py:68-86 | the tile loop gives the outputs named, the steps run and the files that then exist, or the first parse error; the GRASS session is the one the earlier steps and this loop's steps leave, and the mask, saved regions and files are untouched |
| `Elevation.ProcessTile` | jamr/input/elevation.py:69-86 | one file: its parse error, or its output kept when it exists and overwrite is off, or the tile run in the session and its averaging step recorded |
| `Elevation.AverageTileCmds` | jamr/input/elevation.py:77-86 | `r.in.gdal` puts the tile into merit_dem, `g.region raster=merit_dem res=` sets the region to the tile's bounds at the region's cell size, `r.resamp.stats` writes the tile's average into its map in that region; the four commands are logged and no other map changes |
| `Elevation.RunTile` | jamr/input/elevation.py:77-86 | a tile run after some steps leaves the session those steps plus this one describe |
| `Elevation.TracedTile` | jamr/input/elevation.py:77-86 | after a tile step, merit_dem holds this tile, its map its average, the log has its four commands, and the region is the tile's bounds at the cell size; every earlier average survives unless overwritten by this tile's map |
| `Elevation.TracedVrt` | jamr/input/elevation.py:94-97 | building a VRT is GDAL's alone: the session is as the steps before left it |
| `Elevation.StepsSnoc` | jamr/input/elevation.py:69-97 | the last step decides the log's tail, the last tile averaged and the last average written to each map |
| `Elevation.RegionsPassOutcome` | jamr/input/elevation.py:61-99 | `preprocess` succeeds exactly when every region is in the table and, when there is a region at all, every file parses; otherwise it raises the KeyError of a region or the ValueError of a file |
| `Elevation.RegionsPassNames` | jamr/input/elevation.py:88-90 | a successful `preprocess` records `merit_dem_{rgn}.vrt` in the scratch directory for every region and for no other |
| `Elevation.RegionsPassSteps` | jamr/input/elevation.py:74-97 | a successful `preprocess` replaces no existing file unless overwrite is on, and every VRT it builds joins the tile outputs of its own region at that region's resolution |
| `Elevation.RegionsPassStops` | jamr/input/elevation.py:65-67 | once a region raises, the loop stays raised |
| `Elevation.RegionsPassFails` | jamr/input/elevation.py:65-70 | a region missing from the table raises its KeyError, and a region whose tiles fail raises their error, after the earlier regions went through |
| `Elevation.PreprocessRegions` | jamr/input/elevation.py:61-99 | the region loop gives exactly the outcome the region-by-region definition does, and the GRASS session is the one its steps leave (on success exactly the steps recorded) |
| `Elevation.PreprocessRegion` | jamr/input/elevation.py:65-97 | one region: KeyError when it has no resolution, the tile loop's error, or its VRT recorded, and built unless it exists and overwrite is off |
| `Elevation.TouchedMeaning` | jamr/input/elevation.py:101-126 | the maps `read` may change are exactly the map and temporary map of the regions handled so far |
| `Elevation.ReadRegion` | jamr/input/elevation.py:103-126 | skips exactly when the map already exists and overwrite is off; otherwise logs the import, copy and removal and leaves the map settled from the VRT's raster, copied in the current region (as written) or the raster's own (as corrected); no map but this one and its temporary copy changes, and as written the region does not change |
| `Elevation.CopiedRaster` | jamr/input/elevation.py:118 | `r.mapcalc` copying the imported map in its own region reproduces the raster |
| `Elevation.ReadSettled` | jamr/input/elevation.py:110-126 | an import, a copy in a region and the removal of the temporary map leave the map settled from the raster in that region (an exact copy when the raster lies in it and no mask is set) and every other map as it was |
| `Elevation.RegionAfterFixed` | jamr/input/elevation.py:101-126 | as written, `read` never changes the region |
| `Elevation.MapNameInjective` | jamr/input/elevation.py:58 | distinct regions have distinct map names |
| `Elevation.MeritRegionsApart` | jamr/input/elevation.py:37 | the three MERIT region names are pairwise apart |
| `Elevation.MeritNamesPlain` | jamr/input/elevation.py:105-107 | no MERIT map name holds a wildcard, so the listing by that pattern finds only the map itself |
| `Elevation.NamesApart` | jamr/input/elevation.py:102-111 | two apart regions never share a map or temporary name, and neither map name is the other's temporary name |
| `Elevation.ReadStep` | jamr/input/elevation.py:102-126 | before `read` reaches a region, neither its map nor its temporary map has been touched |
| `Elevation.SettledNow` | jamr/input/elevation.py:106-126 | a region `read` has just handled is settled relative to the maps at the start of `read` |
| `Elevation.SettledAdvance` | jamr/input/elevation.py:102-126 | one pass of `read` keeps every earlier region settled and settles this one, in the region its copy runs in |
| `Elevation.UntouchedAdvance` | jamr/input/elevation.py:102-126 | one pass of `read` changes no map outside those touched so far |
| `Elevation.ReadNext` | jamr/input/elevation.py:102-126 | handling region i extends the record of `read` (log, settled maps, untouched maps, region) from the first i regions to the first i + 1 |
| `Elevation.ReadRegions` | jamr/input/elevation.py:101-126 | after the loop every region is settled, the log holds the commands `read` issues, no other map changed, and the region is the one the copies leave |
| `Elevation.ReadLogOverwrite` | jamr/input/elevation.py:106-126 | as written and with overwrite on, `read` issues three commands per region, the first importing the region's VRT into its temporary map |
| `Elevation.ReadAgainSkips` | jamr/input/elevation.py:106-108 | without overwrite, a second `read` after a complete one issues nothing, every map then existing |
| `Elevation.ReadClippedToTile` | jamr/input/elevation.py:78-120 | as written, after `preprocess` averaged a tile, every map `read` replaces lies in the last tile's bounds, so it differs from its VRT whenever the VRT's north edge is not the tile's |
| `Elevation.OwnRegionCopies` | jamr/input/elevation.py:110-120 | as corrected, with the region set from each imported VRT and no mask, every map `read` replaces from a readable VRT is an exact copy of it |
| `Elevation.MeritDem.constructor` | jamr/input/elevation.py:35-38 | the object has the three MERIT regions, the scratch directory, overwrite, the tile files the filter as written keeps, and no preprocessed files yet |
| `Elevation.MeritDem.GetInputFilenames` | jamr/input/elevation.py:44-53 | `filenames` becomes the found files the filter as written keeps; nothing else changes |
| `Elevation.MeritDem.SetMapnames` | jamr/input/elevation.py:55-59 | `mapnames` maps every MERIT region, and only those, to `merit_dem_{rgn}` |
| `Elevation.MeritDem.Preprocess` | jamr/input/elevation.py:61-99 | the outcome is that of the region loop; on success the VRT of every region is recorded and the GRASS session is the one the recorded steps leave; a raised error leaves the record as it was and the session as the steps run before it left it |
| `Elevation.MeritDem.Initial` | jamr/input/elevation.py:40-42 | runs `preprocess`, then `read` unless `preprocess` raised; on success `read` starts in the region the last averaged tile left and settles every map there |
| `Elevation.MeritDem.Read` | jamr/input/elevation.py:101-126 | before `preprocess` it raises TypeError and changes nothing; otherwise every region's map is settled from its VRT in the current region and no other map, the region or the mask changes |
| `Elevation.MeritDem.ReadInOwnRegion` | jamr/input/elevation.py:101-126 | `read` as corrected: every region's map is settled from its VRT in the VRT's own region, so with no mask each replaced map is an exact copy |
| `JulesFrac.SumNonNeg` | jamr/old/src/python/write_jules_frac.py:27 | a column sum of non-negative fractions is finite, non-negative and no smaller than any entry |
| `JulesFrac.SumWithNaN` | jamr/old/src/python/write_jules_frac.py:27 | one NaN entry makes the whole column sum NaN |
| `JulesFrac.NormalisedIsFraction` | jamr/old/src/python/write_jules_frac.py:25-27 | dividing a column with a positive total by its sum gives fractions between 0 and 1 that sum to 1 |
| `JulesFrac.ZeroTotalIsNaN` | jamr/old/src/python/write_jules_frac.py:25-27 | nothing guards the first division: a column whose fractions are all 0 becomes all NaN and stays so to the end |
| `JulesFrac.IceRuleOnIce` | jamr/old/src/python/write_jules_frac.py:50-64 | in an ice cell (ice above one half) the rule gives the all-ice column, as written and as intended |
| `JulesFrac.IceRuleOffIce` | jamr/old/src/python/write_jules_frac.py:50-64 | elsewhere the rule as written only empties the ice slot and leaves bare soil as it was, while the intended rule adds the ice fraction to bare soil |
| `JulesFrac.DropLast` | jamr/old/src/python/write_jules_frac.py:61-71 | emptying an ice slot of at most one half leaves a total of 1 - ice, at least one half, and renormalising divides every other slot by it, giving fractions that sum to 1 |
| `JulesFrac.MoveIntoSoil` | jamr/old/src/python/write_jules_frac.py:63-71 | moving the ice fraction into bare soil keeps a column summing to 1, so the final division changes nothing |
| `JulesFrac.IceCellIsAllIce` | jamr/old/src/python/write_jules_frac.py:53-71 | an ice cell ends with 1 in the snow/ice slot and 0 in every other, as written and as intended |
| `JulesFrac.NonIceCellAsWritten` | jamr/old/src/python/write_jules_frac.py:50-71 | as written, a non-ice cell ends with 0 ice and every other slot, bare soil included, divided by 1 - ice: the original ice fraction is not added to bare soil, though the fractions still sum to 1 |
| `JulesFrac.NonIceCellIntended` | jamr/old/src/python/write_jules_frac.py:63-64 | as intended, a non-ice cell's bare soil takes the original ice fraction, nothing else changes, and the fractions sum to 1 |
| `JulesFrac.CellIsFraction` | jamr/old/src/python/write_jules_frac.py:25-71 | every cell with a positive total ends with fractions between 0 and 1 that sum to 1, the ice slot being 1 exactly in ice cells and 0 exactly elsewhere |
| `JulesFrac.AliasingDropsIce` | jamr/old/src/python/write_jules_frac.py:50-64 | the column (0.5, 0.25, 0.25) ends with bare soil 1/3 as written, where the intended rule gives 0.25 + 0.25 = 1/2 |
| `JulesFrac.WeightedSumMonotone` | jamr/old/src/python/write_jules_frac.py:31-34 | raising the heights raises the fraction-weighted sum |
| `JulesFrac.WeightedSumConstant` | jamr/old/src/python/write_jules_frac.py:31-34 | with one height everywhere the weighted sum is that height times the total fraction |
| `JulesFrac.WeightedMeanBounds` | jamr/old/src/python/write_jules_frac.py:31-34 | where the fractions sum to 1, the weighted mean height lies between the lowest and the highest height |
| `JulesFrac.SoilIceMeanBounds` | jamr/old/src/python/write_jules_frac.py:37-43 | the soil/ice mean height is 0 where soil plus ice is not positive, and otherwise lies between the two heights |
| `JulesFrac.IceCellHeights` | jamr/old/src/python/write_jules_frac.py:59-66 | an ice cell's ice slot gets the all-type weighted mean height and every other slot 0 |
| `JulesFrac.NonIceCellHeights` | jamr/old/src/python/write_jules_frac.py:59-69 | a non-ice cell's bare-soil slot gets the soil/ice mean height and every other slot keeps its height |
| `JulesFrac.NormaliseColumns` | jamr/old/src/python/write_jules_frac.py:27 | `a /= a.sum(axis=0)` divides every column by its own sum, in place |
| `JulesFrac.ScaleColumns` | jamr/old/src/python/write_jules_frac.py:58-59 | `a *= not_ice[None, ...]` keeps the columns of non-ice cells and zeroes the others, in place |
| `JulesFrac.AssignWhere` | jamr/old/src/python/write_jules_frac.py:61-69 | `a[row][where] = vals[where]` changes one row, only in the selected columns |
| `JulesFrac.AssignRow` | jamr/old/src/python/write_jules_frac.py:64 | `a[row] = vals` replaces one row and nothing else |
| `JulesFrac.MaskIce` | jamr/old/src/python/write_jules_frac.py:53-62 | the ice mask holds exactly for columns whose ice fraction exceeds one half; ice columns of both grids are zeroed and the last fraction row becomes the mask |
| `JulesFrac.SetIceRow` | jamr/old/src/python/write_jules_frac.py:61-62 | the last row becomes 1 in ice cells and 0 elsewhere |
| `JulesFrac.IceRule` | jamr/old/src/python/write_jules_frac.py:50-64 | as written, with `ice_orig` and `soil_orig` views of the rows the masking overwrites: every column becomes the as-written rule of its old column |
| `JulesFrac.AsWrittenFromMasked` | jamr/old/src/python/write_jules_frac.py:58-64 | the as-written rule is the masked column with bare soil set from the masked soil and ice slots |
| `JulesFrac.IceRuleCopied` | jamr/old/src/python/write_jules_frac.py:49-64 | with the original rows copied before masking, every column becomes the intended rule of its old column |
| `JulesFrac.GetJulesFrac` | jamr/old/src/python/write_jules_frac.py:7-90 | fewer than two surface types raise (no arrays to stack, or no soil row); otherwise every column ends with the as-written fractions and heights of its original column, and the land mask is returned |
| `JulesFrac.SetHeights` | jamr/old/src/python/write_jules_frac.py:66-69 | ice cells' last height row takes the all-type mean, other cells' bare-soil row takes the soil/ice mean |
| `JulesFrac.HgtSteps` | jamr/old/src/python/write_jules_frac.py:59-69 | the height updates in the order the code makes them give the per-cell height definition |
| `JulesFrac.GetJulesFracCorrected` | jamr/old/src/python/write_jules_frac.py:7-90 | the same with the ice rule copying its rows: every column ends with the intended fractions, which add the ice fraction to bare soil |
| `Strings.NatToString` | jamr/regions.py:29 | `str(n)` of a non-negative integer is a non-empty digit string, one digit exactly below 10, with no leading zero |
| `Strings.ParseNatToString` | jamr/regions.py:29 | the digits `str(n)` writes read back as n |
| `Strings.NatToStringInjective` | jamr/regions.py:29 | different numbers are written differently |
| `Strings.IntToStringChars` | jamr/process/landcover.py:106 | `str(i)` uses only digits and a leading minus sign |
| `Strings.IntToStringInjective` | jamr/process/landcover.py:106 | `str(i)` writes different integers differently, negative ones included |
| `Strings.SplitAtSeparator` | jamr/process/landcover.py:106 | a line `key = value` splits back into its key and value at the first separator when the key holds no separator |
| `Strings.ZFill` | jamr/regions.py:30 | `s.zfill(width)` keeps s at the end and pads with zeros up to the width, and leaves a string at least that long unchanged |
| `Strings.DigitsToNatZeroPrefix` | jamr/regions.py:30 | leading zeros do not change the value of a digit string |
| `Strings.ZFillShort` | jamr/regions.py:30 | padding a string no longer than the width prepends exactly the missing zeros |
| `Strings.PaddedValue` | jamr/regions.py:30-36 | `str(r).zfill(k)` of a number below 10^k is k digits that read back as r |
| `Strings.ReplaceCharRemoves` | jamr/input/soilgrids.py:78 | `s.replace(a, b)` leaves no `a` in the result |
| `Strings.Fixed6Injective` | jamr/utils/constants.py:16 | `'{0:.6f}'` writes different numbers of millionths differently |
| `Strings.SplitNone` | jamr/regions.py:28-40 | splitting a string without the separator gives one piece |
| `Strings.SplitAt` | jamr/regions.py:28-40 | splitting at the first separator gives the text before it followed by the pieces of the rest |
| `Strings.Unpadded` | jamr/input/soilgrids.py:136 | stripping changes nothing in a string that neither starts nor ends with whitespace |
| `Strings.ReadDigits` | jamr/input/soilgrids.py:136 | an unsigned literal is read exactly when it is digits that single underscores may group, and plain digits read as their value |
| `Strings.ParseInt` | jamr/input/soilgrids.py:136 | `int(s)` reads a plain run of digits as its value |
| `Strings.ParseIntPadded` | jamr/input/soilgrids.py:136 | `int()` reads back `str(n)` whatever whitespace surrounds it |
| `Strings.ParseIntSigned` | jamr/input/soilgrids.py:136 | `int("-n")` is -n and `int("+n")` is n |
| `Strings.ParseIntGrouped` | jamr/input/soilgrids.py:136 | an underscore between two digit groups is dropped: `int("1_000")` is 1000 |
| `Strings.ParseIntTrailingUnderscore` | jamr/input/soilgrids.py:136 | a trailing underscore makes `int()` raise ValueError |
| `Strings.ReplaceChar` | jamr/input/soilgrids.py:78 | `s.replace(a, b)` keeps the length and changes exactly the occurrences of a, into b |
| `Strings.StripStart` | jamr/input/soilgrids.py:136 | stripping leading whitespace leaves a string that is empty or starts with a non-space |
| `Strings.StripEnd` | jamr/input/soilgrids.py:136 | stripping trailing whitespace leaves a string that is empty or ends with a non-space |
| `Strings.Ungrouped` | jamr/input/soilgrids.py:136 | dropping the underscores `int()` allows between digits leaves only digits |
| `Paths.RFind` | jamr/input/elevation.py:50 | `s.rfind(c)` is the last index of c, or -1 when c does not occur |
| `Paths.Basename` | jamr/input/elevation.py:50 | the tail of `os.path.split` holds no slash and is the end of the path |
| `Paths.LastSlash` | jamr/input/elevation.py:50 | a slash with no slash after it is the one `os.path.split` splits at |
| `Paths.BasenameOfJoin` | jamr/input/soilgrids.py:93-94 | joining a directory and a name without slashes ends in that name, which is its final component |
| `Paths.SplitJoin` | jamr/input/elevation.py:50-52 | `os.path.join(*os.path.split(p))` gives p back when p has no two slashes in a row |
| `Paths.StemSuffix` | jamr/input/soilgrids.py:92 | `Path(f).stem + Path(f).suffix` is the final component |
| `Paths.StemOfExtension` | jamr/input/soilgrids.py:92 | a name with a three-letter extension splits at the extension's dot, whatever dots the base holds |
| `PyCalls.Bind` | jamr/process/soilprops.py:226-232 | a call succeeds exactly when it passes as many positional arguments as the function has parameters; otherwise it raises TypeError, whose message starts with the function's name |
| `PyCalls.TooMany` | jamr/process/soilprops.py:226-232 | the message for too many arguments starts with the function's name |
| `PyCalls.Missing` | jamr/process/soilprops.py:226-232 | the message for missing arguments starts with the function's name |
| `PyCalls.OneShort` | jamr/process/soilprops.py:226-232 | a call one argument short raises TypeError naming exactly the last parameter |
| `TryBlocks.Call` | jamr/process/soilprops.py:273-277 | one `r.mapcalc` call raises exactly when the engine refuses it, and its effect is that of a one-call block |
| `TryBlocks.Try` | jamr/process/soilprops.py:273-277 | `try: r.mapcalc(...) except CalledModuleError: pass` runs its call and swallows the error; region, mask and files are unchanged |
| `TryBlocks.Try3` | jamr/process/soilprops.py:285-304 | a three-call `try` block runs its calls in order until the first that raises, and skips the rest |
| `TryBlocks.TryNext` | jamr/process/soilprops.py:140-152 | one more one-call block after a sequence of blocks runs the extended sequence |
| `TryBlocks.Try3Next` | jamr/process/soilprops.py:306-310 | one more three-call block after a sequence of blocks runs the extended sequence |
| `TryBlocks.RanStep` | jamr/process/soilprops.py:140-152 | running one more block after a sequence runs the extended sequence |
| `TryBlocks.RanConcat` | jamr/process/soilprops.py:140-152 | running one sequence of blocks and then another runs their concatenation |
| `TryBlocks.RunKeysConcat` | jamr/process/soilprops.py:140-152 | the maps two sequences of blocks create in turn are those their concatenation creates |
| `TryBlocks.RunLogConcat` | jamr/process/soilprops.py:140-152 | two sequences of blocks run in turn issue the commands of the first and then those of the second |
| `TryBlocks.RunMapsConcat` | jamr/process/soilprops.py:140-152 | the catalogue after two sequences run in turn is the one after their concatenation |
| `TryBlocks.BlockStops` | jamr/process/soilprops.py:285-304 | a call that raises ends its block: nothing after it runs |
| `TryBlocks.BlockGoesOn` | jamr/process/soilprops.py:285-304 | a call that does not raise is followed by the rest of its block |
| `TryBlocks.FedBlockRuns` | jamr/process/soilprops.py:285-304 | with overwrite on and every input available in turn, no call of a block raises: it issues every call and creates every output |
| `TryBlocks.FedRunRuns` | jamr/process/soilprops.py:140-152 | with overwrite on and every block fed, a sequence of blocks issues every `r.mapcalc`, in order |
| `Crosswalk.TreesBroadleafEvergreenListed` | jamr/process/landcover.py:35-37 | the trees_broadleaf_evergreen table gives a class a non-zero weight exactly when it lists the class, and no weight above 1000 thousandths |
| `Crosswalk.TreesBroadleafDeciduousListed` | jamr/process/landcover.py:38-41 | the trees_broadleaf_deciduous table gives a class a non-zero weight exactly when it lists the class, and no weight above 1000 thousandths |
| `Crosswalk.TreesNeedleleafEvergreenListed` | jamr/process/landcover.py:42-44 | the trees_needleleaf_evergreen table gives a class a non-zero weight exactly when it lists the class, and no weight above 1000 thousandths |
| `Crosswalk.TreesNeedleleafDeciduousListed` | jamr/process/landcover.py:45-47 | the trees_needleleaf_deciduous table gives a class a non-zero weight exactly when it lists the class, and no weight above 1000 thousandths |
| `Crosswalk.ShrubsBroadleafEvergreenListed` | jamr/process/landcover.py:48-51 | the shrubs_broadleaf_evergreen table gives a class a non-zero weight exactly when it lists the class, and no weight above 1000 thousandths |
| `Crosswalk.ShrubsBroadleafDeciduousListed` | jamr/process/landcover.py:52-55 | the shrubs_broadleaf_deciduous table gives a class a non-zero weight exactly when it lists the class, and no weight above 1000 thousandths |
| `Crosswalk.ShrubsNeedleleafEvergreenListed` | jamr/process/landcover.py:56-59 | the shrubs_needleleaf_evergreen table gives a class a non-zero weight exactly when it lists the class, and no weight above 1000 thousandths |
| `Crosswalk.ShrubsNeedleleafDeciduousListed` | jamr/process/landcover.py:60 | the empty shrubs_needleleaf_deciduous table gives a class a non-zero weight exactly when it lists the class, and no weight above 1000 thousandths |
| `Crosswalk.NaturalGrassListed` | jamr/process/landcover.py:61-66 | the natural_grass table gives a class a non-zero weight exactly when it lists the class, and no weight above 1000 thousandths |
| `Crosswalk.CropsListed` | jamr/process/landcover.py:67-69 | the crops table gives a class a non-zero weight exactly when it lists the class, and no weight above 1000 thousandths |
| `Crosswalk.BareSoilListed` | jamr/process/landcover.py:70-74 | the bare_soil table gives a class a non-zero weight exactly when it lists the class, and no weight above 1000 thousandths |
| `Crosswalk.WaterListed` | jamr/process/landcover.py:75-78 | the water table gives a class a non-zero weight exactly when it lists the class, and no weight above 1000 thousandths |
| `Crosswalk.UrbanListed` | jamr/process/landcover.py:79 | the urban table gives a class a non-zero weight exactly when it lists the class, and no weight above 1000 thousandths |
| `Crosswalk.SnowIceListed` | jamr/process/landcover.py:80 | the snow_ice table gives a class a non-zero weight exactly when it lists the class, and no weight above 1000 thousandths |
| `Crosswalk.LookupFrom` | jamr/process/landcover.py:103 | searching the PFT names from position i finds a table exactly when the name occurs there, returns the table of that name, and otherwise raises KeyError for the name |
| `Grass.CalcOutcome` | jamr/process/landfraction.py:65-70 | an `r.mapcalc` expression fails exactly when one of its inputs is missing; its result is known exactly when the inputs are aligned with the current region and the mask map, if any, lies on that region or on a coarser grid nesting it; then the result lies in the current region and each cell is the expression applied to the inputs' cells there, or null where the mask cell covering it is not the mask category |
| `Grass.CalcOutcomeFrame` | jamr/process/landfraction.py:65-70 | an `r.mapcalc` outcome depends only on its inputs and the mask map: two catalogues that agree on those give the same outcome |
| `Grass.CoarseMaskCells` | jamr/process/soilprops.py:140-160 | with a mask map on a coarser grid that nests the region, every cell is computed, or is null when the coarse mask cell containing it is not the mask category |
| `Grass.Engine.RegionSaveCmd` | jamr/regions.py:74 | `g.region ... save=` makes r the current region and saves it under the name, changing nothing else |
| `Grass.Engine.WriteFile` | jamr/process/landcover.py:104-110 | writing a text file records exactly that text at that path and changes nothing in the GRASS session |
| `GrassUtils.RegionDict` | jamr/utils/grass_utils.py:89-90 | the dictionary `gscript.core.region()` returns holds every key the region definition keeps |
| `Raster.DivideBounds` | jamr/process/ancillarydataset.py:53-60 | a total between lo·n and hi·n averages to between lo and hi |
| `Raster.DivideSum` | jamr/process/ancillarydataset.py:53-60 | dividing a sum by n is the sum of the quotients |
| `Raster.MeansAdd` | jamr/process/ancillarydataset.py:53-60 | the mean of a cell-wise sum is the sum of the means when the counts agree |
| `Raster.MeanOf` | jamr/process/ancillarydataset.py:53-60 | a block with n non-null cells totalling t averages to t/n |
| `MapCalc.TruncDiv` | jamr/process/landcover.py:141-146 | integer division of a non-negative value rounds down: the quotient times the divisor is at most the value and within one divisor of it |
| `ReclassRules.IndexOf` | jamr/process/landcover.py:104-108 | the first position of a character in a text |
| `ReclassRules.Lines` | jamr/process/landcover.py:104-108 | splitting a rules text at newlines gives at least one line, none containing a newline |
| `ReclassRules.FirstLine` | jamr/process/landcover.py:104-108 | a line followed by a newline and more text splits into that line and the lines of the rest |
| `ReclassRules.ParseLines` | jamr/process/landcover.py:104-110 | parsing every line of a rules file succeeds with one rule per line |
| `ReclassRules.ParseSides` | jamr/process/landcover.py:106-107 | a `lhs = rhs` line with a decimal right-hand side reads as a catch-all rule for `*`, as a rule for a decimal left-hand side, and as nothing otherwise |
| `ReclassRules.FirstFor` | jamr/process/landcover.py:134-139 | `r.reclass` applies the first rule for a category: no earlier rule has that key |
| `ReclassRules.Relabel` | jamr/process/landcover.py:134-139 | `r.reclass` keeps null cells null and replaces every other cell by the rule value for its category |
| `SoilProps.MaskCommandKeeps` | jamr/process/soilprops.py:143-155 | setting or removing a mask issues no `r.mapcalc`, is recorded among the mask commands, and keeps every resampling done on the target region |
| `SoilCells.Values` | jamr/process/soilprops.py:226-232 | the values of cells that all hold one, in the same order |
| `SoilGridsInput.FilenamesFailAt` | jamr/input/soilgrids.py:69-73 | the file loop fails at the first variable without an abbreviation (KeyError) or whose resolution has no file name, with that variable's error |
| `SoilGridsInput.SoilGrids.PlanFilenamesOk` | jamr/input/soilgrids.py:67-74 | once validated, every requested variable has a file name for every horizon |
| `SoilGridsInput.SoilGrids.PlanAbbreviated` | jamr/input/soilgrids.py:70 | once validated, every requested variable has an abbreviation |
| `SoilGridsInput.SoilGrids.NamesPlanned` | jamr/input/soilgrids.py:76-82 | a horizon object built for h names its maps as the plan for h says |
| `SoilGridsInput.SoilGrids.PathsPlanned` | jamr/input/soilgrids.py:84-96 | a preprocessed horizon object for h reads the copies the plan for h names |
| `MapCalc.At` | jamr/process/landfraction.py:85 | a map named in an `r.mapcalc` expression reads its own cell in the input list |
| `MapCalc.Add` | jamr/process/soilprops.py:73 | `a + b` is null exactly when an operand is null, and the sum otherwise |
| `MapCalc.Sub` | jamr/process/soilprops.py:73 | `a - b` is null exactly when an operand is null, and the difference otherwise |
| `MapCalc.Mul` | jamr/process/soilprops.py:73 | `a * b` is null exactly when an operand is null, and the product otherwise |
| `MapCalc.Div` | jamr/process/soilprops.py:118 | `a / b` with a floating-point operand is null exactly when an operand is null or b is 0, and the real quotient otherwise |
| `MapCalc.Pow` | jamr/process/soilprops.py:118 | `a ^ b` is null exactly when an operand is null or a negative base meets a non-whole exponent |
| `MapCalc.Pow10` | jamr/process/soilprops.py:82 | `10 ^ a` is null exactly when a is null |
| `MapCalc.Exp` | jamr/process/soilprops.py:325 | `exp(a)` is null exactly when a is null |
| `MapCalc.AtLeast` | jamr/process/soilprops.py:427 | `a >= b` is 1 when a is at least b, 0 when it is smaller, null when an operand is null |
| `MapCalc.AtMost` | jamr/process/soilprops.py:427 | `a <= b` is 1 when a is at most b, 0 when it is larger, null when an operand is null |
| `MapCalc.Equal` | jamr/process/landfraction.py:67 | `a == b` is 1 when the operands are equal, 0 when they differ, null when an operand is null |
| `MapCalc.And` | jamr/process/landfraction.py:85 | `a && b` is 1 when both operands are non-zero, 0 when either is zero, null when an operand is null |
| `MapCalc.If` | jamr/process/landfraction.py:67 | `if(c, a, b)` is a where c is non-zero, b where it is zero, and null where c is null |
| `LandFraction.CountAllValues` | jamr/process/landfraction.py:55-61 | a block without null cells counts every cell |
| `Raster.TotalConstant` | jamr/process/ancillarydataset.py:53-60 | a block whose non-null cells all equal c totals c times their count |
| `Raster.TotalAtLeast` | jamr/process/ancillarydataset.py:53-60 | cells no smaller than lo total at least lo times their count |
| `Raster.TotalAtMost` | jamr/process/ancillarydataset.py:53-60 | cells no larger than hi total at most hi times their count |
| `Raster.CountTotalAdd` | jamr/process/ancillarydataset.py:53-60 | the cell-wise sum of two maps null in the same cells has their count and the sum of their totals |

## Left out

- Network access, the command line, configuration loading, data download and format conversion are not part of this model. GDAL warps and VRT builds are modelled only as the files they create. The netCDF writers (`write_netcdf`, `add_lat_lon_dims_2d`), `raster2array`'s engine read and the `write` methods that print map names are also out, since they are I/O.
- Orchestration (jamr/process/process.py, jamr/inputdata.py) is not part of this model. Soil depth aggregation with scipy is not part of this model either.
- Import wiring is assumed to resolve. The model uses the definitions in jamr/utils/grass_utils.py and jamr/utils/constants.py for these names, which do not resolve as written:
  - jamr/input/elevation.py:18 imports `grass_maplist` from `jamr.utils.utils`, which does not define it.
  - jamr/process/landfraction.py:17 imports `grass_remove_mask`, `grass_map_exists` and `grass_remove_tmp` from `jamr.utils.utils`, which defines none of them.
  - jamr/process/landcover.py:3-11 imports neither `g` (used at lines 133 and 149) nor `grass_set_region_from_raster` (used at line 371); `from jamr.utils.utils import *` brings in neither. Each raises NameError on first use.
  - jamr/process/soilprops.py:21-25 imports `JULES_SOIL_VARIABLES` from jamr/utils/constants.py, which does not define it: an ImportError when the module loads.
- jamr/regions.py:15 imports REGIONS from jamr/constants.py, whose table holds the 15 `globe_` regions only; jamr/utils/constants.py builds 30, over the globe and the uk extents. `Regions.SetRegions` takes its table as a parameter, so either table can be given.
- Rasters are one-dimensional sequences of cells. When the coarse resolution is k times the fine one, each coarse cell aggregates a contiguous run of k fine cells. GRASS's two-dimensional block layout, and resampling by a non-integer factor, are not modelled: such an output exists, but its cells are left unspecified.
- Grass.Engine.RegionSetCmd: the `align=` option of `g.region` is checked only for the raster's existence. The region is set to exactly the bounds given, without snapping them to the raster's grid.
- `g.remove pattern=` and the map-existence test match glob patterns whose only wildcard is `*`.
- Floating point is replaced by exact reals: `int(w * 1000)` in the reclass rules, `np.round`, `np.linspace`, the pedotransfer regressions and the averages. IEEE rounding is not modelled.
- `10^x`, `exp(x)` and `x^y` are not evaluated. They are carried as `RealMath.Math` with the laws the proofs rely on: positivity, monotonicity and the exponent rules.
- JulesFrac.Float has no infinities. A division x/0 gives NaN for every x, where numpy gives ±inf when x is non-zero. It matters only for a cell whose types sum to 0.
- JulesFrac.GetJulesFrac assumes numpy below 1.24. jamr/old/src/python/write_jules_frac.py:53 uses `np.bool`, which raises AttributeError on NumPy 1.24 and later.
- Logging, and the output and error text that wrappers discard through `stderr=PIPE`, are not modelled. `os.linesep` is taken to be "\n".
- The older SoilGrids classes in jamr/soil.py differ in two further ways that are not modelled separately. Their `read` imports with `r.in.gdal -a`, passes the overwrite flag and ignores a failed import. Their horizon constructor takes the parent object. The newer `read` and constructor stand for both.
- The trivial base classes in jamr/dataset.py and jamr/input/dataset.py are modelled only by what their constructors do to the session: they remove the mask and set the named region.
- JulesPft.JulesPfts.ComputeFive: the map-value part of its contract (`Built`) is stated only under `Separate`: the 2015 land-cover map exists, and the extra maps its recipes read (the C4 fractions) and the mask map are not among the names it writes. Otherwise a step could read a map an earlier step replaced, and the contract states only the order of the commands, the region and the frame.
- JulesPft.JulesPfts.ComputeNine: the map-value part of its contract has the same condition as ComputeFive, with the biome map added.
- JulesPft.JulesPfts.Compute: the map-value part of its contract has the same condition as ComputeFive and ComputeNine.
- JulesPft.JulesPfts.GroupedNativeTotal: states the per-cell total only at cells where every crosswalk map and every extra input holds a value (`Valued`), only when every recipe's expected map exists (`Determined`), and only when every type's two maps are writable (`AllWritable`: overwrite on, or neither map exists yet). At other cells the totals involve nulls and no sum is claimed.
- SoilProps.CosbyPtf.Compute: does not model a refusal by `r.mask` of `maskcats` on a floating-point map. The model masks on category 1 of whatever land-fraction map it is given. If GRASS rejects the averaged (floating-point) land-fraction map, the real call raises where the model proceeds.
- SoilProps.CosbyPtf.CosbyValue: states the stored values only when the clay, sand and mask maps are not among the outputs and every output is writable (overwrite on, or none of the fourteen maps exists). Otherwise the step writes are kept as `Store` leaves them, and no value is claimed.
- Landcover.Poulter2015Pft.Compute: states the settled values only for (year, PFT) pairs whose two maps are writable, and only when the mask map is none of the maps the steps write. Without overwrite, an existing map stays as it was.
- Grass.CalcOutcome: a mask map whose grid neither equals the current region nor is a coarser grid nesting it leaves the outcome unspecified. GRASS resamples the mask by nearest neighbour on any grid; the model covers only the nested case.
- Strings.ParseInt: reads ASCII digits only. Python's `int()` also accepts the decimal digits of other scripts, such as Arabic-Indic digits. The text parsed here is the SoilGrids resolution from the configuration.
- Elevation.MeritDem.Preprocess: GDAL is given as a total function from file to raster, so a tile that `r.in.gdal` cannot read (an uncaught CalledModuleError) is not modelled. When a parse error or a KeyError is raised, the session is stated only as one that some run of steps leaves, not which run.
- Grass.Engine.RegionFromRasterResCmd: does not model how `g.region res=` snaps the raster's bounds to a whole number of cells. The model keeps the raster's bounds exactly.
- `r.out.gdal` is modelled only as a logged command (`Grass.Engine.ExportCmd`). The GeoTIFF it writes is named in the tile pass's outputs, but its contents are not modelled, and GDAL's reading of a VRT is the parameter `rasters` of `read`.
- Regions.Requested: does not model how `g.region` adjusts the bounds to fit a whole number of cells at the given resolution. Every listed resolution divides a degree a whole number of times, so the widened whole-degree bounds of the listed extents already hold a whole number of cells.

## Findings

| source | as written | input that shows it | evidently intended | confidence | as-written member | corrected member |
|---|---|---|---|---|---|---|
| jamr/process/landcover.py:141-146 | `{out} = {out}_step1 / 1000` divides the integer (CELL) map written by `r.reclass` by an integer, which r.mapcalc does as integer division | a cell of LCCS class 30 in the natural_grass table (weight 150 thousandths) gets 0, not 0.15; class 30 gets total 0 over all PFTs | real division, so that each cell gets its table weight and every listed class sums to 1 | not executed | Landcover.TableStepAsWritten | Landcover.TableStepIntended |
| jamr/process/landcover.py:36-68 | the same integer division, seen over the whole crosswalk | class 30: every one of its weights is partial, so its fractions total 0 | each listed class's fractions total exactly 1 | not executed | Crosswalk.MosaicClassVanishes | Crosswalk.FractionsSumToOne |
| jamr/regions.py:69-74 | `_set_region` computes `res_dms` but passes an undefined name `res` to `g.region` | any four-value extent raises NameError | pass `res_dms`, setting and saving the widened region | not executed | Regions.SetRegionAsWritten | Regions.SetRegion |
| jamr/regions.py:78-80 | `set_regions` calls that `_set_region` for every entry | any non-empty region table raises at its first entry | every entry set and saved in table order | not executed | Regions.SetRegionsAsWritten | Regions.SetRegions |
| jamr/old/src/python/write_jules_frac.py:50-64 | `ice_orig` and `soil_orig` are views into `frac`, which the ice masking overwrites before bare soil is updated | the column (0.5, 0.25, 0.25) with ice last ends with bare soil 1/3 | bare soil takes the original ice fraction: 0.25 + 0.25 = 1/2 | not executed | JulesFrac.AliasingDropsIce | JulesFrac.GetJulesFracCorrected |
| jamr/landfraction.py:47-56 | the minimum resample reads the land-cover map itself at its own grid, so `ocean_min_tmp` tests class 0 and the water test class 210 on the same cell | any land-cover map: every defined output cell is 1 and no cell is ever ocean | the water-bodies map aggregated by minimum, as in jamr/process/landfraction.py | not executed | LandFractionLegacy.LegacyAlwaysLand | LandFraction.OceanCell |
| jamr/process/landcover.py:457-469 | `compute_shrub_evergreen` writes its sum to the target name while the native region is set, then resamples the native name, which nothing wrote | a session without `shrub_evergreen_..._native`: the resample fails and the target map stays on the native grid | write the native name and average it onto the target grid | not executed | JulesPft.ShrubEvergreenOnNativeGrid | JulesPft.JulesPfts.ComputeShrubEvergreen |
| jamr/input/elevation.py:47 | the tile filter's character classes for the hemisphere letters also admit the bar character | a name made of a bar, digits, a bar, digits and `_dem.tif`, in a directory without n or s, is kept, and parsing its path raises ValueError | classes `[ns]` and `[ew]`, so that every kept file parses | not executed | Elevation.BarTileKeptButRefused | Elevation.IntendedTilesParse |
| jamr/input/elevation.py:78-86, 101-120 | `preprocess` leaves the region set by the last tile's `g.region raster=merit_dem res=`, and `read` copies each whole-globe VRT with `r.mapcalc` in that region | any run that averages a tile, e.g. n30e060 (north edge 35), then reads a VRT whose north edge is 90: the map is clipped to the tile and differs from the VRT | copy each VRT in its own region (`g.region raster={mapname}_tmp` before the copy) | not executed | Elevation.ReadClippedToTile | Elevation.OwnRegionCopies |
| jamr/process/soilprops.py:232 | `VanGenuchtenPTF.__init__` calls `PTF.__init__` with four arguments where it takes five | any construction of a van Genuchten PTF raises TypeError for the missing `overwrite` | pass `overwrite` as well | not executed | SoilProps.VanGenuchtenInitAsWritten | SoilProps.NewVanGenuchten |
| jamr/process/soilprops.py:477 | `ZhangSchaapPTF.compute` calls `super().compute()` without `landfrac_mapname`; the defect is latent, since line 476 raises AttributeError first (next row) | once line 476 is corrected, any call raises TypeError at line 477 | pass the land-fraction map name on | not executed | SoilProps.ZhangSchaapSuperComputeAsWritten | SoilProps.ZhangSchaapPtf.Compute |
| jamr/process/soilprops.py:469-476 | the texture classes are computed through an object whose `compute` reads `self.config`, which it never sets | any call sets the region from the clay map and then raises AttributeError, before writing a map | run the twelve indicator blocks in the clay map's region | not executed | SoilProps.ZhangSchaapPtf.ComputeAsWritten | SoilProps.ZhangSchaapPtf.TextureClasses |
| jamr/soil.py:420-423 | the older `ZhangSchaapPTF.compute` builds `USDATextureClass` with six arguments where its constructor takes three | any call raises TypeError and issues nothing | build the texture object from the horizon's maps, then run the indicator and van Genuchten blocks | not executed | SoilLegacy.ZhangSchaapUsdaAsWritten | SoilLegacy.ZhangSchaapPtf.Compute |
