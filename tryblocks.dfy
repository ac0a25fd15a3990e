// `r.mapcalc` called through pygrass inside `try: ... except
// CalledModuleError: pass`. A call raises when the module exits with an
// error; the rest of its `try` block is then skipped and the exception is
// swallowed, so the next block runs regardless. Which calls raise depends
// only on which maps exist, so the commands issued and the names in the
// catalogue afterwards are functions of the names that existed before.
module TryBlocks {
  import opened Wrappers
  import opened Raster
  import opened Grass

  /** One `r.mapcalc output = f(inputs)` call. */
  datatype CalcStep = CalcStep(output: string, inputs: seq<string>, f: seq<Cell> -> Cell)

  /** The commands a `try` block issues: its calls in order, up to and including the first that raises. */
  function BlockLog(keys: set<string>, steps: seq<CalcStep>, overwrite: bool): seq<Command>
    decreases |steps|
  {
    if |steps| == 0 then []
    else [Calc(steps[0].output, steps[0].inputs)] +
         (if CalcFails(keys, steps[0].output, steps[0].inputs, overwrite) then []
          else BlockLog(keys + {steps[0].output}, steps[1..], overwrite))
  }

  /** The map names after a `try` block: each call that runs without raising adds its output. */
  function BlockKeys(keys: set<string>, steps: seq<CalcStep>, overwrite: bool): set<string>
    decreases |steps|
  {
    if |steps| == 0 || CalcFails(keys, steps[0].output, steps[0].inputs, overwrite) then keys
    else BlockKeys(keys + {steps[0].output}, steps[1..], overwrite)
  }

  /** The catalogue after a `try` block, when every call that runs has a known result. */
  ghost function BlockMaps(maps: map<string, Map>, mask: Option<Mask>, region: Region, steps: seq<CalcStep>,
                           overwrite: bool): Option<map<string, Map>>
    decreases |steps|
  {
    if |steps| == 0 || CalcFails(maps.Keys, steps[0].output, steps[0].inputs, overwrite) then Some(maps)
    else
      match CalcMaps(maps, mask, region, steps[0].output, steps[0].inputs, steps[0].f, overwrite)
      case None => None
      case Some(next) => BlockMaps(next, mask, region, steps[1..], overwrite)
  }

  /** A `try` block took the engine from (maps0, log0) to (maps, log) under a fixed mask and region. */
  ghost predicate BlockRan(maps0: map<string, Map>, log0: seq<Command>, mask: Option<Mask>, region: Region,
                           steps: seq<CalcStep>, overwrite: bool, maps: map<string, Map>, log: seq<Command>)
  {
    log == log0 + BlockLog(maps0.Keys, steps, overwrite) &&
    maps.Keys == BlockKeys(maps0.Keys, steps, overwrite) &&
    (BlockMaps(maps0, mask, region, steps, overwrite).Some? ==> maps == BlockMaps(maps0, mask, region, steps, overwrite).value)
  }

  // ---- a sequence of try blocks ----

  /** The commands a sequence of `try` blocks issues. */
  function RunLog(keys: set<string>, blocks: seq<seq<CalcStep>>, overwrite: bool): seq<Command>
  {
    if |blocks| == 0 then []
    else
      var before := blocks[..|blocks| - 1];
      RunLog(keys, before, overwrite) + BlockLog(RunKeys(keys, before, overwrite), blocks[|blocks| - 1], overwrite)
  }

  /** The map names after a sequence of `try` blocks. */
  function RunKeys(keys: set<string>, blocks: seq<seq<CalcStep>>, overwrite: bool): set<string>
  {
    if |blocks| == 0 then keys
    else BlockKeys(RunKeys(keys, blocks[..|blocks| - 1], overwrite), blocks[|blocks| - 1], overwrite)
  }

  /** The catalogue after a sequence of `try` blocks, when every call that runs has a known result. */
  ghost function RunMaps(maps: map<string, Map>, mask: Option<Mask>, region: Region, blocks: seq<seq<CalcStep>>,
                         overwrite: bool): Option<map<string, Map>>
  {
    if |blocks| == 0 then Some(maps)
    else
      match RunMaps(maps, mask, region, blocks[..|blocks| - 1], overwrite)
      case None => None
      case Some(m) => BlockMaps(m, mask, region, blocks[|blocks| - 1], overwrite)
  }

  /** A sequence of `try` blocks took the engine from (maps0, log0) to (maps, log). */
  ghost predicate Ran(maps0: map<string, Map>, log0: seq<Command>, mask: Option<Mask>, region: Region,
                      blocks: seq<seq<CalcStep>>, overwrite: bool, maps: map<string, Map>, log: seq<Command>)
  {
    log == log0 + RunLog(maps0.Keys, blocks, overwrite) &&
    maps.Keys == RunKeys(maps0.Keys, blocks, overwrite) &&
    (RunMaps(maps0, mask, region, blocks, overwrite).Some? ==> maps == RunMaps(maps0, mask, region, blocks, overwrite).value)
  }

  /** Nothing has run yet. */
  lemma RanNothing(maps: map<string, Map>, log: seq<Command>, mask: Option<Mask>, region: Region, overwrite: bool)
    ensures Ran(maps, log, mask, region, [], overwrite, maps, log)
  {
  }

  /** Running one more block after a sequence runs the extended sequence. */
  lemma RanStep(maps0: map<string, Map>, log0: seq<Command>, mask: Option<Mask>, region: Region,
                blocks: seq<seq<CalcStep>>, b: seq<CalcStep>, overwrite: bool,
                maps1: map<string, Map>, log1: seq<Command>, maps2: map<string, Map>, log2: seq<Command>)
    requires Ran(maps0, log0, mask, region, blocks, overwrite, maps1, log1)
    requires BlockRan(maps1, log1, mask, region, b, overwrite, maps2, log2)
    ensures Ran(maps0, log0, mask, region, blocks + [b], overwrite, maps2, log2)
  {
    var all := blocks + [b];
    assert all[..|all| - 1] == blocks && all[|all| - 1] == b;
    assert RunLog(maps0.Keys, all, overwrite) ==
      RunLog(maps0.Keys, blocks, overwrite) + BlockLog(RunKeys(maps0.Keys, blocks, overwrite), b, overwrite);
    assert RunKeys(maps0.Keys, all, overwrite) == BlockKeys(RunKeys(maps0.Keys, blocks, overwrite), b, overwrite);
    var r := RunMaps(maps0, mask, region, blocks, overwrite);
    if r.Some? {
      assert RunMaps(maps0, mask, region, all, overwrite) == BlockMaps(maps1, mask, region, b, overwrite);
    } else {
      assert RunMaps(maps0, mask, region, all, overwrite) == None;
    }
  }

  /** Two sequences of blocks run one after the other reach the map names of their concatenation. */
  lemma {:induction false} RunKeysConcat(keys: set<string>, b1: seq<seq<CalcStep>>, b2: seq<seq<CalcStep>>, overwrite: bool)
    ensures RunKeys(keys, b1 + b2, overwrite) == RunKeys(RunKeys(keys, b1, overwrite), b2, overwrite)
    decreases |b2|
  {
    if |b2| == 0 {
      assert b1 + b2 == b1;
    } else {
      var init := b2[..|b2| - 1];
      RunKeysConcat(keys, b1, init, overwrite);
      var all := b1 + b2;
      assert all[..|all| - 1] == b1 + init && all[|all| - 1] == b2[|b2| - 1];
    }
  }

  /** ... issue the commands of the first and then those of the second ... */
  lemma {:induction false} RunLogConcat(keys: set<string>, b1: seq<seq<CalcStep>>, b2: seq<seq<CalcStep>>, overwrite: bool)
    ensures RunLog(keys, b1 + b2, overwrite) == RunLog(keys, b1, overwrite) + RunLog(RunKeys(keys, b1, overwrite), b2, overwrite)
    decreases |b2|
  {
    if |b2| == 0 {
      assert b1 + b2 == b1;
    } else {
      var init := b2[..|b2| - 1];
      var last := b2[|b2| - 1];
      assert b2 == init + [last];
      assert b1 + b2 == (b1 + init) + [last];
      var k1 := RunKeys(keys, b1, overwrite);
      RunLogConcat(keys, b1, init, overwrite);
      RunKeysConcat(keys, b1, init, overwrite);
      RunLogSnoc(keys, b1 + init, last, overwrite);
      RunLogSnoc(k1, init, last, overwrite);
      Extended(RunLog(keys, b1, overwrite), RunLog(keys, b1 + init, overwrite), RunLog(keys, b1 + b2, overwrite),
               RunLog(k1, init, overwrite), BlockLog(RunKeys(k1, init, overwrite), last, overwrite));
    }
  }

  /** One more block adds its own commands to the log. */
  lemma RunLogSnoc(keys: set<string>, blocks: seq<seq<CalcStep>>, last: seq<CalcStep>, overwrite: bool)
    ensures RunLog(keys, blocks + [last], overwrite) ==
      RunLog(keys, blocks, overwrite) + BlockLog(RunKeys(keys, blocks, overwrite), last, overwrite)
  {
    var all := blocks + [last];
    assert all[..|all| - 1] == blocks;
  }

  /** ... and, when every call has a known result, the catalogue of the second run from the first's. */
  lemma {:induction false} RunMapsConcat(maps: map<string, Map>, mask: Option<Mask>, region: Region,
                                         b1: seq<seq<CalcStep>>, b2: seq<seq<CalcStep>>, overwrite: bool)
    ensures RunMaps(maps, mask, region, b1 + b2, overwrite) ==
      (match RunMaps(maps, mask, region, b1, overwrite)
       case None => None
       case Some(m1) => RunMaps(m1, mask, region, b2, overwrite))
    decreases |b2|
  {
    if |b2| == 0 {
      assert b1 + b2 == b1;
    } else {
      var init := b2[..|b2| - 1];
      RunMapsConcat(maps, mask, region, b1, init, overwrite);
      var all := b1 + b2;
      assert all[..|all| - 1] == b1 + init && all[|all| - 1] == b2[|b2| - 1];
    }
  }

  /** Running one sequence of blocks and then another runs their concatenation. */
  lemma RanConcat(maps0: map<string, Map>, log0: seq<Command>, mask: Option<Mask>, region: Region,
                  b1: seq<seq<CalcStep>>, b2: seq<seq<CalcStep>>, overwrite: bool,
                  maps1: map<string, Map>, log1: seq<Command>, maps2: map<string, Map>, log2: seq<Command>)
    requires Ran(maps0, log0, mask, region, b1, overwrite, maps1, log1)
    requires Ran(maps1, log1, mask, region, b2, overwrite, maps2, log2)
    ensures Ran(maps0, log0, mask, region, b1 + b2, overwrite, maps2, log2)
  {
    var all := b1 + b2;
    assert maps2.Keys == RunKeys(maps0.Keys, all, overwrite) by {
      RunKeysConcat(maps0.Keys, b1, b2, overwrite);
    }
    var l1, l2 := RunLog(maps0.Keys, b1, overwrite), RunLog(maps1.Keys, b2, overwrite);
    assert log2 == log0 + RunLog(maps0.Keys, all, overwrite) by {
      RunLogConcat(maps0.Keys, b1, b2, overwrite);
      Extended(log0, log1, log2, l1, l2);
    }
    assert RunMaps(maps0, mask, region, all, overwrite).Some? ==> maps2 == RunMaps(maps0, mask, region, all, overwrite).value by {
      RunMapsConcat(maps0, mask, region, b1, b2, overwrite);
    }
  }

  // ---- the try blocks themselves ----

  /** One call of a `try` block, and whether it raised. */
  method Call(e: Engine, s: CalcStep, overwrite: bool) returns (failed: bool)
    modifies e
    ensures failed == CalcFails(old(e.maps).Keys, s.output, s.inputs, overwrite)
    ensures e.region == old(e.region) && e.mask == old(e.mask) && e.saved == old(e.saved) && e.files == old(e.files)
    ensures BlockRan(old(e.maps), old(e.log), e.mask, e.region, [s], overwrite, e.maps, e.log)
  {
    failed := e.CalcRaising(s.output, s.inputs, s.f, overwrite);
  }

  /** A call that raises ends its block. */
  lemma BlockStops(m0: map<string, Map>, l0: seq<Command>, mask: Option<Mask>, region: Region,
                   s: CalcStep, rest: seq<CalcStep>, overwrite: bool, m1: map<string, Map>, l1: seq<Command>)
    requires BlockRan(m0, l0, mask, region, [s], overwrite, m1, l1)
    requires CalcFails(m0.Keys, s.output, s.inputs, overwrite)
    ensures BlockRan(m0, l0, mask, region, [s] + rest, overwrite, m1, l1)
  {
    var full := [s] + rest;
    assert full[0] == s;
    assert BlockLog(m0.Keys, full, overwrite) == [Calc(s.output, s.inputs)];
    assert BlockKeys(m0.Keys, full, overwrite) == m0.Keys;
    assert BlockMaps(m0, mask, region, [s], overwrite) == Some(m0);
    assert BlockMaps(m0, mask, region, full, overwrite) == Some(m0);
  }

  /** The catalogue after a block whose first call does not raise is the rest's, run on the catalogue after that call. */
  lemma BlockMapsCons(m0: map<string, Map>, mask: Option<Mask>, region: Region, s: CalcStep, rest: seq<CalcStep>,
                      overwrite: bool)
    requires !CalcFails(m0.Keys, s.output, s.inputs, overwrite)
    ensures var first := BlockMaps(m0, mask, region, [s], overwrite);
      BlockMaps(m0, mask, region, [s] + rest, overwrite) ==
        (if first.Some? then BlockMaps(first.value, mask, region, rest, overwrite) else None)
  {
    var full := [s] + rest;
    assert full[0] == s && full[1..] == rest && [s][1..] == [];
  }

  /** A call that does not raise, followed by the rest of its block, runs the whole block. */
  lemma BlockGoesOn(m0: map<string, Map>, l0: seq<Command>, mask: Option<Mask>, region: Region,
                    s: CalcStep, rest: seq<CalcStep>, overwrite: bool,
                    m1: map<string, Map>, l1: seq<Command>, m2: map<string, Map>, l2: seq<Command>)
    requires BlockRan(m0, l0, mask, region, [s], overwrite, m1, l1)
    requires !CalcFails(m0.Keys, s.output, s.inputs, overwrite)
    requires BlockRan(m1, l1, mask, region, rest, overwrite, m2, l2)
    ensures BlockRan(m0, l0, mask, region, [s] + rest, overwrite, m2, l2)
  {
    var full := [s] + rest;
    assert full[0] == s && full[1..] == rest && [s][1..] == [];
    assert BlockLog(m0.Keys, [s], overwrite) == [Calc(s.output, s.inputs)];
    assert BlockLog(m0.Keys, full, overwrite) == [Calc(s.output, s.inputs)] + BlockLog(m0.Keys + {s.output}, rest, overwrite);
    assert BlockKeys(m0.Keys, full, overwrite) == BlockKeys(m0.Keys + {s.output}, rest, overwrite);
    assert BlockKeys(m0.Keys, [s], overwrite) == BlockKeys(m0.Keys + {s.output}, [], overwrite);
    BlockMapsCons(m0, mask, region, s, rest, overwrite);
    Extended(l0, l1, l2, [Calc(s.output, s.inputs)], BlockLog(m0.Keys + {s.output}, rest, overwrite));
  }

  /** A log extended twice is the first log extended by both additions. */
  lemma Extended(l0: seq<Command>, l1: seq<Command>, l2: seq<Command>, c: seq<Command>, x: seq<Command>)
    requires l1 == l0 + c && l2 == l1 + x
    ensures l2 == l0 + (c + x)
  {
  }

  /** `try: r.mapcalc(...) except CalledModuleError: pass`. */
  method Try(e: Engine, s: CalcStep, overwrite: bool)
    modifies e
    ensures e.region == old(e.region) && e.mask == old(e.mask) && e.saved == old(e.saved) && e.files == old(e.files)
    ensures BlockRan(old(e.maps), old(e.log), e.mask, e.region, [s], overwrite, e.maps, e.log)
  {
    var _ := Call(e, s, overwrite);
  }

  /** A `try` block of three `r.mapcalc` calls: the first to raise skips the rest. */
  method Try3(e: Engine, s1: CalcStep, s2: CalcStep, s3: CalcStep, overwrite: bool)
    modifies e
    ensures e.region == old(e.region) && e.mask == old(e.mask) && e.saved == old(e.saved) && e.files == old(e.files)
    ensures BlockRan(old(e.maps), old(e.log), e.mask, e.region, [s1, s2, s3], overwrite, e.maps, e.log)
  {
    ghost var m0, l0 := e.maps, e.log;
    var failed := Call(e, s1, overwrite);
    if failed {
      BlockStops(m0, l0, e.mask, e.region, s1, [s2, s3], overwrite, e.maps, e.log);
    } else {
      ghost var m1, l1 := e.maps, e.log;
      failed := Call(e, s2, overwrite);
      if failed {
        BlockStops(m1, l1, e.mask, e.region, s2, [s3], overwrite, e.maps, e.log);
      } else {
        ghost var m2, l2 := e.maps, e.log;
        Try(e, s3, overwrite);
        BlockGoesOn(m1, l1, e.mask, e.region, s2, [s3], overwrite, m2, l2, e.maps, e.log);
      }
      assert [s2] + [s3] == [s2, s3];
      BlockGoesOn(m0, l0, e.mask, e.region, s1, [s2, s3], overwrite, m1, l1, e.maps, e.log);
    }
    assert [s1] + [s2, s3] == [s1, s2, s3];
  }

  /** One more one-call `try` block after a sequence of them. */
  method TryNext(e: Engine, s: CalcStep, overwrite: bool,
                 ghost maps0: map<string, Map>, ghost log0: seq<Command>, ghost blocks: seq<seq<CalcStep>>)
    modifies e
    requires Ran(maps0, log0, e.mask, e.region, blocks, overwrite, e.maps, e.log)
    ensures e.region == old(e.region) && e.mask == old(e.mask) && e.saved == old(e.saved) && e.files == old(e.files)
    ensures Ran(maps0, log0, e.mask, e.region, blocks + [[s]], overwrite, e.maps, e.log)
  {
    ghost var m1, l1 := e.maps, e.log;
    Try(e, s, overwrite);
    RanStep(maps0, log0, e.mask, e.region, blocks, [s], overwrite, m1, l1, e.maps, e.log);
  }

  /** One more three-call `try` block after a sequence of them. */
  method Try3Next(e: Engine, b: seq<CalcStep>, overwrite: bool,
                  ghost maps0: map<string, Map>, ghost log0: seq<Command>, ghost blocks: seq<seq<CalcStep>>)
    modifies e
    requires |b| == 3
    requires Ran(maps0, log0, e.mask, e.region, blocks, overwrite, e.maps, e.log)
    ensures e.region == old(e.region) && e.mask == old(e.mask) && e.saved == old(e.saved) && e.files == old(e.files)
    ensures Ran(maps0, log0, e.mask, e.region, blocks + [b], overwrite, e.maps, e.log)
  {
    ghost var m1, l1 := e.maps, e.log;
    Try3(e, b[0], b[1], b[2], overwrite);
    assert [b[0], b[1], b[2]] == b;
    RanStep(maps0, log0, e.mask, e.region, blocks, b, overwrite, m1, l1, e.maps, e.log);
  }

  // ---- when nothing raises ----

  /** The commands of steps that all run: one `r.mapcalc` each, in order. */
  function CalcsOf(steps: seq<CalcStep>): (cs: seq<Command>)
    ensures |cs| == |steps|
    ensures forall j :: 0 <= j < |steps| ==> cs[j] == Calc(steps[j].output, steps[j].inputs)
  {
    if |steps| == 0 then [] else [Calc(steps[0].output, steps[0].inputs)] + CalcsOf(steps[1..])
  }

  /** The outputs of a list of steps. */
  function Outputs(steps: seq<CalcStep>): (o: set<string>)
    ensures forall j :: 0 <= j < |steps| ==> steps[j].output in o
    ensures forall k :: k in o ==> exists j :: 0 <= j < |steps| && steps[j].output == k
  {
    if |steps| == 0 then {} else {steps[0].output} + Outputs(steps[1..])
  }

  /** Every input of every step exists when the step runs: it existed before the block, or an earlier step made it. */
  predicate Fed(keys: set<string>, steps: seq<CalcStep>)
    decreases |steps|
  {
    |steps| == 0 ||
    ((forall j :: 0 <= j < |steps[0].inputs| ==> steps[0].inputs[j] in keys) &&
     Fed(keys + {steps[0].output}, steps[1..]))
  }

  /** With overwriting on and every input available, no call of a block raises. */
  lemma {:induction false} FedBlockRuns(keys: set<string>, steps: seq<CalcStep>)
    requires Fed(keys, steps)
    ensures BlockLog(keys, steps, true) == CalcsOf(steps)
    ensures BlockKeys(keys, steps, true) == keys + Outputs(steps)
    decreases |steps|
  {
    if |steps| > 0 {
      assert !CalcFails(keys, steps[0].output, steps[0].inputs, true);
      FedBlockRuns(keys + {steps[0].output}, steps[1..]);
    }
  }

  /** Every block of a sequence is fed by what exists before it. */
  predicate FedRun(keys: set<string>, blocks: seq<seq<CalcStep>>)
  {
    |blocks| == 0 ||
    (FedRun(keys, blocks[..|blocks| - 1]) && Fed(RunKeys(keys, blocks[..|blocks| - 1], true), blocks[|blocks| - 1]))
  }

  /** The commands of a sequence of blocks none of whose calls raises. */
  function RunCalcs(blocks: seq<seq<CalcStep>>): seq<Command>
  {
    if |blocks| == 0 then [] else RunCalcs(blocks[..|blocks| - 1]) + CalcsOf(blocks[|blocks| - 1])
  }

  /**
   * With overwriting on and every block fed, a sequence of `try` blocks
   * issues every one of its `r.mapcalc` calls, in order, and no call raises.
   */
  lemma {:induction false} FedRunRuns(keys: set<string>, blocks: seq<seq<CalcStep>>)
    requires FedRun(keys, blocks)
    ensures RunLog(keys, blocks, true) == RunCalcs(blocks)
  {
    if |blocks| > 0 {
      var before := blocks[..|blocks| - 1];
      FedRunRuns(keys, before);
      FedBlockRuns(RunKeys(keys, before, true), blocks[|blocks| - 1]);
    }
  }
}
