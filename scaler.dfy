/**
  `scaleCPUFrequency`: classify the trend of the price series, discover the
  frequency range from the capability file of cpu0, and write the chosen
  ceiling to the `scaling_max_freq` file of every core but the last.

  The control-file interface (`readFile`, `writeFile`) is the class `SysFs`:
  the files' contents, a fixed set of paths whose accesses fail, and the log
  of write attempts.
*/
module Scaler {
  import opened Options
  import opened Decimal
  import opened Frequencies

  // ---------------------------------------------------------------------------
  // Trend classification

  /** The adjacent pairs whose later price is at most the earlier one. */
  function Decreases(prices: seq<real>): nat
  {
    if |prices| < 2 then 0
    else Decreases(prices[..|prices| - 1]) + (if prices[|prices| - 1] <= prices[|prices| - 2] then 1 else 0)
  }

  /** The adjacent pairs whose later price is above the earlier one. */
  function Increases(prices: seq<real>): nat
  {
    if |prices| < 2 then 0
    else Increases(prices[..|prices| - 1]) + (if prices[|prices| - 1] <= prices[|prices| - 2] then 0 else 1)
  }

  /** The number of adjacent pairs of a series: `max(n - 1, 0)`. */
  function Pairs(prices: seq<real>): nat
  {
    if |prices| < 2 then 0 else |prices| - 1
  }

  /** The first loop of `scaleCPUFrequency`: one counter or the other per adjacent pair. */
  method CountTrend(prices: seq<real>) returns (dec: nat, inc: nat)
    ensures dec == Decreases(prices) && inc == Increases(prices)
    ensures dec + inc == Pairs(prices)
  {
    dec, inc := 0, 0;
    var i := 0;
    while i < |prices| - 1
      invariant |prices| == 0 ==> i == 0 && dec == 0 && inc == 0
      invariant |prices| > 0 ==> i < |prices| && dec == Decreases(prices[..i + 1]) && inc == Increases(prices[..i + 1])
      invariant dec + inc == i
    {
      assert prices[..i + 2][..i + 1] == prices[..i + 1];
      if prices[i + 1] <= prices[i] {
        dec := dec + 1;
      } else {
        inc := inc + 1;
      }
      i := i + 1;
    }
    if |prices| > 0 {
      assert prices[..i + 1] == prices;
    }
  }

  /** Prices are judged to be rising only when increases strictly outnumber decreases. */
  predicate Rising(prices: seq<real>)
  {
    Decreases(prices) < Increases(prices)
  }

  /**
    The ceiling written to the cores: one end of the range, the minimum
    exactly when increases strictly outnumber decreases, so the maximum for a
    series of fewer than two prices.
  */
  function TargetFrequency(prices: seq<real>, range: FrequencyRange): (f: int)
    ensures f == range.min || f == range.max
    ensures range.min != range.max ==> (f == range.min <==> Increases(prices) > Decreases(prices))
    ensures |prices| < 2 ==> f == range.max
  {
    if Rising(prices) then range.min else range.max
  }

  // ---------------------------------------------------------------------------
  // The control-file interface

  const AvailableFrequenciesPath: string := "/sys/devices/system/cpu/cpu0/cpufreq/scaling_available_frequencies"
  const CpuDirectory: string := "/sys/devices/system/cpu/cpu"
  const MaxFreqFile: string := "/cpufreq/scaling_max_freq"

  /** `fmt.Sprintf("/sys/devices/system/cpu/cpu%d/cpufreq/scaling_max_freq", cpu)`. */
  function MaxFreqPath(cpu: int): string
  {
    CpuDirectory + Itoa(cpu) + MaxFreqFile
  }

  datatype Write = Write(path: string, value: string)

  /** The control files: their contents, the paths that cannot be accessed, and every write attempted. */
  class SysFs {
    var files: map<string, string>
    const failing: set<string>
    var attempts: seq<Write>

    constructor (files: map<string, string>, failing: set<string>)
      ensures this.files == files && this.failing == failing && attempts == []
    {
      this.files := files;
      this.failing := failing;
      attempts := [];
    }

    /** What `readFile` returns: the content, or the empty string when the path is missing or unreadable. */
    function Content(path: string): string
      reads this
    {
      if path in files && path !in failing then files[path] else ""
    }

    /** `readFile`. */
    method ReadFile(path: string) returns (content: string)
      ensures content == Content(path)
      ensures content != "" ==> path in files && path !in failing && content == files[path]
    {
      if path in files && path !in failing {
        content := files[path];
      } else {
        content := "";
      }
    }

    /** `writeFile`: the attempt is logged; it replaces the file's content unless the path fails. */
    method WriteFile(path: string, value: string) returns (ok: bool)
      modifies this
      ensures attempts == old(attempts) + [Write(path, value)]
      ensures ok == (path !in failing)
      ensures files == if ok then old(files)[path := value] else old(files)
    {
      attempts := attempts + [Write(path, value)];
      ok := path !in failing;
      if ok {
        files := files[path := value];
      }
    }
  }

  /** The files after a sequence of write attempts, failed ones leaving their file as it was. */
  function ApplyWrites(files: map<string, string>, failing: set<string>, writes: seq<Write>): map<string, string>
  {
    if writes == [] then files
    else
      var before := ApplyWrites(files, failing, writes[..|writes| - 1]);
      var w := writes[|writes| - 1];
      if w.path in failing then before else before[w.path := w.value]
  }

  /** One more write attempt: the files before it, updated unless its path fails. */
  lemma ApplyWritesStep(files: map<string, string>, failing: set<string>, ws: seq<Write>, i: int)
    requires 0 <= i < |ws|
    ensures ws[..i + 1] == ws[..i] + [ws[i]]
    ensures ApplyWrites(files, failing, ws[..i + 1]) ==
      if ws[i].path in failing then ApplyWrites(files, failing, ws[..i])
      else ApplyWrites(files, failing, ws[..i])[ws[i].path := ws[i].value]
  {
    assert ws[..i + 1][..i] == ws[..i];
  }

  /** The write attempts of the scaling loop: `value` to cpu0 up to cpu(numCPU-2), in that order. */
  function PlannedWrites(numCPU: int, value: string): seq<Write>
  {
    seq(if numCPU > 1 then numCPU - 1 else 0, i => Write(MaxFreqPath(i), value))
  }

  /** The range discovered from what the capability file holds when the run starts. */
  function DiscoveredRange(fs: SysFs): FrequencyRange
    reads fs
  {
    RangeOf(AvailableFrequencies(fs.Content(AvailableFrequenciesPath)))
  }

  /**
    `scaleCPUFrequency` with `runtime.NumCPU()` as `numCPU`: the same decimal
    target is written to every core but the last, in core order, and a failed
    write does not stop the ones after it.
  */
  method ScaleCPUFrequency(fs: SysFs, prices: seq<real>, numCPU: int)
    modifies fs
    ensures var ws := PlannedWrites(numCPU, Itoa(TargetFrequency(prices, old(DiscoveredRange(fs)))));
      && fs.attempts == old(fs.attempts) + ws
      && fs.files == ApplyWrites(old(fs.files), fs.failing, ws)
  {
    var target := ChooseTarget(fs, prices);
    WriteToCores(fs, numCPU, Itoa(target));
  }

  /**
    The first two loops of `scaleCPUFrequency`: count the trend, read and
    scan the capability file, and pick the minimum when prices rise and the
    maximum otherwise.
  */
  method ChooseTarget(fs: SysFs, prices: seq<real>) returns (target: int)
    ensures target == TargetFrequency(prices, DiscoveredRange(fs))
  {
    var dec, inc := CountTrend(prices);
    var content := fs.ReadFile(AvailableFrequenciesPath);
    var entries := AvailableFrequencies(content);
    var minF, maxF := DiscoverRange(entries);
    target := if dec < inc then minF else maxF;
  }

  /**
    The write loop of `scaleCPUFrequency`: `value` to cpu0 up to
    cpu(numCPU-2), each attempt logged, a failed write not stopping the rest.
  */
  method WriteToCores(fs: SysFs, numCPU: int, value: string)
    modifies fs
    ensures fs.attempts == old(fs.attempts) + PlannedWrites(numCPU, value)
    ensures fs.files == ApplyWrites(old(fs.files), fs.failing, PlannedWrites(numCPU, value))
  {
    ghost var ws := PlannedWrites(numCPU, value);
    var i := 0;
    while i < numCPU - 1
      invariant 0 <= i <= |ws|
      invariant fs.attempts == old(fs.attempts) + ws[..i]
      invariant fs.files == ApplyWrites(old(fs.files), fs.failing, ws[..i])
    {
      ApplyWritesStep(old(fs.files), fs.failing, ws, i);
      var ok := fs.WriteFile(MaxFreqPath(i), value);
      i := i + 1;
    }
    assert ws[..i] == ws;
  }

  // ---------------------------------------------------------------------------
  // Properties

  /** Every adjacent pair adds to exactly one of the two counters. */
  lemma {:induction false} TrendCountsPairs(prices: seq<real>)
    ensures Decreases(prices) + Increases(prices) == Pairs(prices)
  {
    if |prices| >= 2 {
      TrendCountsPairs(prices[..|prices| - 1]);
    }
  }

  /** A series that never goes up (including a flat one) counts only decreases. */
  lemma {:induction false} NonIncreasingSeries(prices: seq<real>)
    requires forall i :: 0 <= i < |prices| - 1 ==> prices[i + 1] <= prices[i]
    ensures Decreases(prices) == Pairs(prices) && Increases(prices) == 0
  {
    if |prices| >= 2 {
      NonIncreasingSeries(prices[..|prices| - 1]);
    }
  }

  /** A strictly increasing series counts only increases. */
  lemma {:induction false} StrictlyIncreasingSeries(prices: seq<real>)
    requires forall i :: 0 <= i < |prices| - 1 ==> prices[i] < prices[i + 1]
    ensures Increases(prices) == Pairs(prices) && Decreases(prices) == 0
  {
    if |prices| >= 2 {
      StrictlyIncreasingSeries(prices[..|prices| - 1]);
    }
  }

  /**
    A tie and a series that never goes up (flat ones included) choose the
    maximum; a strictly increasing series of two or more prices chooses the
    minimum.
  */
  lemma TargetChoice(prices: seq<real>, range: FrequencyRange)
    ensures Increases(prices) == Decreases(prices) ==> TargetFrequency(prices, range) == range.max
    ensures (forall i :: 0 <= i < |prices| - 1 ==> prices[i + 1] <= prices[i]) ==> TargetFrequency(prices, range) == range.max
    ensures |prices| >= 2 && (forall i :: 0 <= i < |prices| - 1 ==> prices[i] < prices[i + 1]) ==>
      TargetFrequency(prices, range) == range.min
  {
    if forall i :: 0 <= i < |prices| - 1 ==> prices[i + 1] <= prices[i] {
      NonIncreasingSeries(prices);
    }
    if forall i :: 0 <= i < |prices| - 1 ==> prices[i] < prices[i + 1] {
      StrictlyIncreasingSeries(prices);
    }
  }

  /** The worked examples: falling, rising, flat, and a tie between one fall and one rise. */
  lemma TrendExamples(range: FrequencyRange)
    ensures Decreases([10.0, 9.0, 8.0]) == 2 && Increases([10.0, 9.0, 8.0]) == 0
    ensures TargetFrequency([10.0, 9.0, 8.0], range) == range.max
    ensures Decreases([10.0, 11.0, 12.0]) == 0 && Increases([10.0, 11.0, 12.0]) == 2
    ensures TargetFrequency([10.0, 11.0, 12.0], range) == range.min
    ensures Decreases([10.0, 10.0]) == 1 && Increases([10.0, 10.0]) == 0
    ensures TargetFrequency([10.0, 10.0], range) == range.max
    ensures Decreases([5.0, 4.0, 6.0]) == 1 && Increases([5.0, 4.0, 6.0]) == 1
    ensures TargetFrequency([5.0, 4.0, 6.0], range) == range.max
  {
    assert [10.0, 9.0, 8.0][..2] == [10.0, 9.0];
    assert [10.0, 11.0, 12.0][..2] == [10.0, 11.0];
    assert [5.0, 4.0, 6.0][..2] == [5.0, 4.0];
  }

  /**
    When the capability list reports at least one frequency and every
    reported value lies between 0 and 10000000, the target is one of the
    reported frequencies.
  */
  lemma TargetIsReported(prices: seq<real>, entries: seq<string>, k: nat)
    requires k < |entries| && Atoi(entries[k]).Some?
    requires forall i :: 0 <= i < |entries| && Atoi(entries[i]).Some? ==>
      MaxSentinel <= Atoi(entries[i]).value <= MinSentinel
    ensures Parsed(entries, TargetFrequency(prices, RangeOf(entries)))
  {
    RangeDrawnFromEntries(entries, k);
  }

  /**
    When nothing in the capability list parses (an empty, missing or
    unreadable file among others), the sentinels themselves are written:
    10000000 when prices rise, 0 otherwise.
  */
  lemma SentinelTargetWhenNothingParses(prices: seq<real>, entries: seq<string>)
    requires forall i :: 0 <= i < |entries| ==> Atoi(entries[i]) == None
    ensures TargetFrequency(prices, RangeOf(entries)) == if Rising(prices) then 10000000 else 0
  {
    RangeOfNothing(entries);
  }

  lemma SandwichInjective(p: string, x: string, y: string, s: string)
    requires p + x + s == p + y + s
    ensures x == y
  {
    var whole := p + x + s;
    assert |x| == |y|;
    assert x == whole[|p|..|p| + |x|];
    assert y == (p + y + s)[|p|..|p| + |y|];
  }

  /**
    A core's control file lies in the cpu directory, is named
    `/cpufreq/scaling_max_freq`, and the text between the two reads back as
    the core's number.
  */
  lemma MaxFreqPathNamesCore(cpu: int)
    requires Int64Min <= cpu <= Int64Max
    ensures var p := MaxFreqPath(cpu);
      && |p| > |CpuDirectory| + |MaxFreqFile|
      && p[..|CpuDirectory|] == CpuDirectory && p[|p| - |MaxFreqFile|..] == MaxFreqFile
      && Atoi(p[|CpuDirectory|..|p| - |MaxFreqFile|]) == Some(cpu)
  {
    var p := MaxFreqPath(cpu);
    assert p[|CpuDirectory|..|p| - |MaxFreqFile|] == Itoa(cpu);
    assert p[..|CpuDirectory|] == CpuDirectory;
    assert p[|p| - |MaxFreqFile|..] == MaxFreqFile;
    AtoiItoa(cpu);
  }

  /** Distinct cores have distinct control files. */
  lemma MaxFreqPathInjective(i: int, j: int)
    requires MaxFreqPath(i) == MaxFreqPath(j)
    ensures i == j
  {
    SandwichInjective(CpuDirectory, Itoa(i), Itoa(j), MaxFreqFile);
    ItoaInjective(i, j);
  }

  /**
    The write phase attempts exactly `max(numCPU - 1, 0)` writes, to cpu0 up
    to cpu(numCPU-2) in increasing order, all with the same value, and never
    to the last core.
  */
  lemma PlannedWritesSkipLastCore(numCPU: int, value: string)
    ensures |PlannedWrites(numCPU, value)| == (if numCPU > 1 then numCPU - 1 else 0)
    ensures forall i :: 0 <= i < |PlannedWrites(numCPU, value)| ==>
      PlannedWrites(numCPU, value)[i] == Write(MaxFreqPath(i), value)
    ensures forall w :: w in PlannedWrites(numCPU, value) ==> w.path != MaxFreqPath(numCPU - 1)
  {
    forall w | w in PlannedWrites(numCPU, value)
      ensures w.path != MaxFreqPath(numCPU - 1)
    {
      var i :| 0 <= i < |PlannedWrites(numCPU, value)| && PlannedWrites(numCPU, value)[i] == w;
      if w.path == MaxFreqPath(numCPU - 1) {
        MaxFreqPathInjective(i, numCPU - 1);
      }
    }
  }

  /**
    After a run of writes that all carry `value`: every path written and not
    failing holds `value`, and every other path (failing or never written) is
    exactly as before.
  */
  lemma {:induction false} ApplyWritesEffect(files: map<string, string>, failing: set<string>, writes: seq<Write>, value: string)
    requires forall k :: 0 <= k < |writes| ==> writes[k].value == value
    ensures forall k :: 0 <= k < |writes| && writes[k].path !in failing ==>
      writes[k].path in ApplyWrites(files, failing, writes) && ApplyWrites(files, failing, writes)[writes[k].path] == value
    ensures forall p :: (p in failing || forall k :: 0 <= k < |writes| ==> writes[k].path != p) ==>
      (p in ApplyWrites(files, failing, writes) <==> p in files) &&
      (p in files ==> ApplyWrites(files, failing, writes)[p] == files[p])
  {
    if writes != [] {
      var init := writes[..|writes| - 1];
      assert forall k :: 0 <= k < |init| ==> init[k] == writes[k];
      ApplyWritesEffect(files, failing, init, value);
    }
  }

  /**
    The outcome of the write phase on the control files: every core below
    numCPU-1 whose file accepts writes holds the target, and the last core's
    file, the failing files and all other files are unchanged.
  */
  lemma WritePhaseOutcome(files: map<string, string>, failing: set<string>, numCPU: int, value: string)
    ensures var after := ApplyWrites(files, failing, PlannedWrites(numCPU, value));
      && (forall i :: 0 <= i < numCPU - 1 && MaxFreqPath(i) !in failing ==>
            MaxFreqPath(i) in after && after[MaxFreqPath(i)] == value)
      && (MaxFreqPath(numCPU - 1) in after <==> MaxFreqPath(numCPU - 1) in files)
      && (MaxFreqPath(numCPU - 1) in files ==> after[MaxFreqPath(numCPU - 1)] == files[MaxFreqPath(numCPU - 1)])
  {
    var ws := PlannedWrites(numCPU, value);
    PlannedWritesSkipLastCore(numCPU, value);
    ApplyWritesEffect(files, failing, ws, value);
    forall i | 0 <= i < numCPU - 1 && MaxFreqPath(i) !in failing
      ensures MaxFreqPath(i) in ApplyWrites(files, failing, ws)
    {
      assert ws[i].path == MaxFreqPath(i);
    }
    forall k | 0 <= k < |ws|
      ensures ws[k].path != MaxFreqPath(numCPU - 1)
    {
      assert ws[k] in ws;
    }
  }
}
