/**
 * check_ram_usage: run the command `runs` times, poll its resident and
 * virtual memory while it is alive, store both readings of every poll tick
 * in one flat table, and average the even entries (resident) and the odd
 * entries (virtual) of that table.
 */
module RamUsage {
  import opened Wrappers
  import opened Namespaces
  import PyInt

  const DefaultRuns := 10
  const RunsAttr := "runs"

  /** One poll tick's reading of psutil's memory_full_info(): resident and virtual bytes. */
  datatype Sample = Sample(rss: nat, vms: nat)

  /**
   * What the poll loop saw during each run: trace(i) holds, in chronological
   * order, the readings of run i, one per tick before the process exited.
   */
  type Trace = nat -> seq<Sample>

  /** The two averages check_ram_usage reports, with the run count it reports them for. */
  datatype MemoryReport = MemoryReport(runs: int, realMemory: real, virtualMemory: real)

  // ---------------------------------------------------------------------
  // The run count

  /** runs = 10, or int(arguments.runs) when the option was given. */
  function RunCount(attrs: seq<Attr>): (r: Result<int>)
    ensures Lookup(attrs, RunsAttr).None? <==> r == Err(AttributeError(RunsAttr))
    ensures Lookup(attrs, RunsAttr) == Some(None) ==> r == Ok(DefaultRuns)
    ensures forall text :: Lookup(attrs, RunsAttr) == Some(Some(text)) ==>
              (r.Err? <==> PyInt.ParseInt(text).None?) && (r.Err? ==> r.error == ValueError(text))
    ensures r.Ok? && Lookup(attrs, RunsAttr) != Some(None) ==> PyInt.ParseInt(Lookup(attrs, RunsAttr).value.value) == Some(r.value)
  {
    match Lookup(attrs, RunsAttr)
    case None => Err(AttributeError(RunsAttr))
    case Some(None) => Ok(DefaultRuns)
    case Some(Some(text)) =>
      match PyInt.ParseInt(text)
      case None => Err(ValueError(text))
      case Some(n) => Ok(n)
  }

  /** A --runs option holding str(n) makes exactly n runs. */
  lemma {:induction false} RunCountOfString(attrs: seq<Attr>, n: int)
    requires Lookup(attrs, RunsAttr) == Some(Some(PyInt.IntToString(n)))
    ensures RunCount(attrs) == Ok(n)
  {
    PyInt.ParseIntOfString(n);
  }

  // ---------------------------------------------------------------------
  // Collecting the samples

  /** The ticks of runs 0 .. runs - 1, in run order; nothing when runs <= 0 (range(0, runs) is empty). */
  function Observed(trace: Trace, runs: int): seq<Sample>
    decreases runs
  {
    if runs <= 0 then [] else Observed(trace, runs - 1) + trace(runs - 1)
  }

  /** The flat table: each tick's resident reading followed by its virtual reading. */
  function Flatten(ticks: seq<Sample>): seq<nat> {
    if ticks == [] then [] else [ticks[0].rss, ticks[0].vms] + Flatten(ticks[1..])
  }

  /** s[::2] */
  function SliceEven(s: seq<nat>): seq<nat> {
    if |s| <= 1 then s else [s[0]] + SliceEven(s[2..])
  }

  /** s[1::2] */
  function SliceOdd(s: seq<nat>): seq<nat> {
    if s == [] then [] else SliceEven(s[1..])
  }

  function RssOf(ticks: seq<Sample>): seq<nat> {
    seq(|ticks|, i requires 0 <= i < |ticks| => ticks[i].rss)
  }

  function VmsOf(ticks: seq<Sample>): seq<nat> {
    seq(|ticks|, i requires 0 <= i < |ticks| => ticks[i].vms)
  }

  lemma {:induction false} FlattenAppend(a: seq<Sample>, b: seq<Sample>)
    ensures Flatten(a + b) == Flatten(a) + Flatten(b)
  {
    if a != [] {
      assert (a + b)[1..] == a[1..] + b;
      FlattenAppend(a[1..], b);
    } else {
      assert a + b == b;
    }
  }

  /** Tick k of the table sits at 2k (resident) and 2k + 1 (virtual). */
  lemma {:induction false} FlattenLayout(ticks: seq<Sample>)
    ensures |Flatten(ticks)| == 2 * |ticks|
    ensures forall k :: 0 <= k < |ticks| ==>
              Flatten(ticks)[2 * k] == ticks[k].rss && Flatten(ticks)[2 * k + 1] == ticks[k].vms
  {
    if ticks != [] {
      FlattenLayout(ticks[1..]);
      forall k | 1 <= k < |ticks|
        ensures Flatten(ticks)[2 * k] == ticks[k].rss && Flatten(ticks)[2 * k + 1] == ticks[k].vms
      {
        assert ticks[1..][k - 1] == ticks[k];
      }
    }
  }

  /** The even entries of the table are the resident readings, the odd ones the virtual readings, in tick order. */
  lemma {:induction false} DeInterleave(ticks: seq<Sample>)
    ensures SliceEven(Flatten(ticks)) == RssOf(ticks)
    ensures SliceOdd(Flatten(ticks)) == VmsOf(ticks)
  {
    if ticks != [] {
      var rest := Flatten(ticks[1..]);
      DeInterleave(ticks[1..]);
      assert Flatten(ticks)[2..] == rest;
      assert RssOf(ticks) == [ticks[0].rss] + RssOf(ticks[1..]);
      assert VmsOf(ticks) == [ticks[0].vms] + VmsOf(ticks[1..]);
      assert Flatten(ticks)[1..] == [ticks[0].vms] + rest;
      if rest != [] {
        assert ([ticks[0].vms] + rest)[2..] == rest[1..];
      }
    }
  }

  /** One more tick appends its two readings to the table. */
  lemma {:induction false} FlattenStep(ticks: seq<Sample>, j: nat)
    requires j < |ticks|
    ensures Flatten(ticks[..j + 1]) == Flatten(ticks[..j]) + [ticks[j].rss, ticks[j].vms]
  {
    assert ticks[..j + 1] == ticks[..j] + [ticks[j]];
    FlattenAppend(ticks[..j], [ticks[j]]);
    assert Flatten([ticks[j]]) == [ticks[j].rss, ticks[j].vms];
  }

  /**
   * The poll loop of one run (evalme.py:70-76): while the process is alive,
   * append its resident and then its virtual reading.
   */
  method PollRun(table: seq<nat>, ticks: seq<Sample>) returns (extended: seq<nat>)
    ensures extended == table + Flatten(ticks)
  {
    extended := table;
    var j := 0;
    while j < |ticks|
      invariant 0 <= j <= |ticks|
      invariant extended == table + Flatten(ticks[..j])
    {
      FlattenStep(ticks, j);
      extended := extended + [ticks[j].rss];
      extended := extended + [ticks[j].vms];
      j := j + 1;
    }
    assert ticks[..j] == ticks;
  }

  /**
   * The nested run / poll loop of check_ram_usage: for each run, one
   * resident then one virtual value per tick.
   */
  method CollectSamples(runs: int, trace: Trace) returns (table: seq<nat>)
    ensures table == Flatten(Observed(trace, runs))
    ensures |table| == 2 * |Observed(trace, runs)|
    ensures SliceEven(table) == RssOf(Observed(trace, runs))
    ensures SliceOdd(table) == VmsOf(Observed(trace, runs))
  {
    table := [];
    var i := 0;
    while i < runs
      invariant 0 <= i && (runs > 0 ==> i <= runs) && (runs <= 0 ==> i == 0)
      invariant table == Flatten(Observed(trace, i))
    {
      table := PollRun(table, trace(i));
      FlattenAppend(Observed(trace, i), trace(i));
      i := i + 1;
    }
    FlattenLayout(Observed(trace, runs));
    DeInterleave(Observed(trace, runs));
  }

  /** Prefixes: the runs before m come first, unchanged, whatever comes later. */
  lemma {:induction false} ObservedPrefix(trace: Trace, m: int, n: int)
    requires 0 <= m <= n
    ensures Observed(trace, m) <= Observed(trace, n)
    decreases n
  {
    if m < n {
      ObservedPrefix(trace, m, n - 1);
    }
  }

  /** Run i's ticks form one contiguous block, placed after those of every earlier run. */
  lemma {:induction false} RunBlock(trace: Trace, runs: int, i: int)
    requires 0 <= i < runs
    ensures |Observed(trace, i)| + |trace(i)| <= |Observed(trace, runs)|
    ensures Observed(trace, runs)[|Observed(trace, i)|..|Observed(trace, i)| + |trace(i)|] == trace(i)
  {
    var before, ticks := Observed(trace, i), trace(i);
    var upTo := Observed(trace, i + 1);
    var all := Observed(trace, runs);
    ObservedPrefix(trace, i + 1, runs);
    assert upTo == before + ticks;
    assert |upTo| <= |all| && upTo == all[..|upTo|];
    forall k | 0 <= k < |ticks|
      ensures all[|before| + k] == ticks[k]
    {
      assert all[|before| + k] == upTo[|before| + k];
    }
  }

  /** Only the first `runs` runs are looked at: traces that agree on them give the same ticks. */
  lemma {:induction false} ObservedOnlyRuns(trace: Trace, other: Trace, runs: int)
    requires forall i :: 0 <= i < runs ==> trace(i) == other(i)
    ensures Observed(trace, runs) == Observed(other, runs)
    decreases runs
  {
    if runs > 0 {
      ObservedOnlyRuns(trace, other, runs - 1);
    }
  }

  /** No tick at all exactly when every run exited before its first poll. */
  lemma {:induction false} ObservedEmpty(trace: Trace, runs: int)
    ensures Observed(trace, runs) == [] <==> forall i :: 0 <= i < runs ==> trace(i) == []
    decreases runs
  {
    if runs > 0 {
      ObservedEmpty(trace, runs - 1);
    }
  }

  // ---------------------------------------------------------------------
  // Reducing the samples

  function Sum(s: seq<nat>): nat {
    if s == [] then 0 else Sum(s[..|s| - 1]) + s[|s| - 1]
  }

  /** Python's true division a / b on integers, exact; dividing by zero raises ZeroDivisionError. */
  function TrueDivide(a: nat, b: nat): (r: Result<real>)
    ensures r.Ok? <==> b != 0
    ensures r.Err? ==> r.error == ZeroDivisionError
    ensures r.Ok? ==> r.value * (b as real) == a as real
  {
    if b == 0 then Err(ZeroDivisionError) else Ok(a as real / b as real)
  }

  function Mean(s: seq<nat>): real
    requires |s| > 0
  {
    Sum(s) as real / |s| as real
  }

  /** The accumulation loop for real_memory (or virtual_memory) and counter. */
  method Accumulate(values: seq<nat>) returns (total: nat, counter: nat)
    ensures total == Sum(values)
    ensures counter == |values|
  {
    total, counter := 0, 0;
    for i := 0 to |values|
      invariant total == Sum(values[..i])
      invariant counter == i
    {
      assert values[..i + 1][..i] == values[..i];
      total := total + values[i];
      counter := counter + 1;
    }
    assert values[..|values|] == values;
  }

  lemma {:induction false} SumConcat(a: seq<nat>, b: seq<nat>)
    ensures Sum(a + b) == Sum(a) + Sum(b)
    decreases |b|
  {
    if b == [] {
      assert a + b == a;
    } else {
      var init := b[..|b| - 1];
      assert (a + b)[..|a + b| - 1] == a + init;
      SumConcat(a, init);
    }
  }

  lemma {:induction false} MultisetRemove<T>(s: seq<T>, i: nat)
    requires i < |s|
    ensures multiset(s[..i] + s[i + 1..]) == multiset(s) - multiset{s[i]}
  {
    assert s == s[..i] + [s[i]] + s[i + 1..];
  }

  lemma {:induction false} SumRemove(s: seq<nat>, i: nat)
    requires i < |s|
    ensures Sum(s) == s[i] + Sum(s[..i] + s[i + 1..])
  {
    var before, x, after := s[..i], s[i], s[i + 1..];
    assert s == (before + [x]) + after;
    SumConcat(before + [x], after);
    SumConcat(before, [x]);
    SumConcat(before, after);
    assert Sum([x]) == x by {
      assert [x][..0] == [];
    }
  }

  /** The sum does not depend on the order of the samples. */
  lemma {:induction false} SumPermutation(a: seq<nat>, b: seq<nat>)
    requires multiset(a) == multiset(b)
    ensures Sum(a) == Sum(b)
    decreases |a|
  {
    if a == [] {
      assert |b| == |multiset(b)| == 0;
    } else {
      var last := |a| - 1;
      assert a[last] in multiset(b);
      var i :| 0 <= i < |b| && b[i] == a[last];
      MultisetRemove(b, i);
      MultisetRemove(a, last);
      SumPermutation(a[..last] + a[last + 1..], b[..i] + b[i + 1..]);
      SumRemove(b, i);
      SumRemove(a, last);
    }
  }

  lemma {:induction false} SumBounds(s: seq<nat>, lo: nat, hi: nat)
    requires forall k :: 0 <= k < |s| ==> lo <= s[k] <= hi
    ensures lo * |s| <= Sum(s) <= hi * |s|
  {
    if s != [] {
      var n := |s|;
      SumBounds(s[..n - 1], lo, hi);
      assert lo * n == lo * (n - 1) + lo;
      assert hi * n == hi * (n - 1) + hi;
    }
  }

  lemma {:induction false} MeanTimesCount(s: seq<nat>)
    requires |s| > 0
    ensures Mean(s) * |s| as real == Sum(s) as real
  {
    var n := |s| as real;
    assert (Sum(s) as real / n) * n == Sum(s) as real;
  }

  lemma {:induction false} DivideBounds(x: real, n: real, lo: real, hi: real)
    requires n > 0.0 && lo * n <= x <= hi * n
    ensures lo <= x / n <= hi
  {
  }

  lemma {:induction false} MultiplyAsReal(a: int, b: int)
    ensures (a * b) as real == a as real * b as real
  {
  }

  /** An average lies between the smallest and the largest sample. */
  lemma {:induction false} MeanBounds(s: seq<nat>, lo: nat, hi: nat)
    requires |s| > 0
    requires forall k :: 0 <= k < |s| ==> lo <= s[k] <= hi
    ensures lo as real <= Mean(s) <= hi as real
  {
    SumBounds(s, lo, hi);
    MultiplyAsReal(lo, |s|);
    MultiplyAsReal(hi, |s|);
    DivideBounds(Sum(s) as real, |s| as real, lo as real, hi as real);
  }

  /** Reordering the ticks reorders the readings of each kind the same way. */
  lemma {:induction false} KindsPermute(a: seq<Sample>, b: seq<Sample>)
    requires multiset(a) == multiset(b)
    ensures multiset(RssOf(a)) == multiset(RssOf(b))
    ensures multiset(VmsOf(a)) == multiset(VmsOf(b))
    decreases |a|
  {
    if a == [] {
      assert |b| == |multiset(b)| == 0;
    } else {
      var last := |a| - 1;
      assert a[last] in multiset(b);
      var i :| 0 <= i < |b| && b[i] == a[last];
      MultisetRemove(b, i);
      MultisetRemove(a, last);
      KindsPermute(a[..last] + a[last + 1..], b[..i] + b[i + 1..]);
      DropReading(a, last);
      DropReading(b, i);
      MultisetRemove(RssOf(a), last);
      MultisetRemove(RssOf(b), i);
      MultisetRemove(VmsOf(a), last);
      MultisetRemove(VmsOf(b), i);
      MultisetCancel(multiset(RssOf(a)), multiset(RssOf(b)), a[last].rss);
      MultisetCancel(multiset(VmsOf(a)), multiset(VmsOf(b)), a[last].vms);
    }
  }

  lemma {:induction false} MultisetCancel<T>(m: multiset<T>, n: multiset<T>, e: T)
    requires e in m && e in n && m - multiset{e} == n - multiset{e}
    ensures m == n
  {
    assert m == (m - multiset{e}) + multiset{e};
    assert n == (n - multiset{e}) + multiset{e};
  }

  lemma {:induction false} DropReading(ticks: seq<Sample>, i: nat)
    requires i < |ticks|
    ensures RssOf(ticks[..i] + ticks[i + 1..]) == RssOf(ticks)[..i] + RssOf(ticks)[i + 1..]
    ensures VmsOf(ticks[..i] + ticks[i + 1..]) == VmsOf(ticks)[..i] + VmsOf(ticks)[i + 1..]
  {
  }

  /** Reordering the samples leaves the average unchanged. */
  lemma {:induction false} MeanPermutation(a: seq<nat>, b: seq<nat>)
    requires |a| > 0 && multiset(a) == multiset(b)
    ensures |b| == |a| && Mean(a) == Mean(b)
  {
    assert |a| == |multiset(a)| == |multiset(b)| == |b|;
    SumPermutation(a, b);
  }

  /** The averages over the ticks of `runs` runs; ZeroDivisionError when there are none. */
  function Averages(runs: int, trace: Trace): Result<MemoryReport> {
    var ticks := Observed(trace, runs);
    if |ticks| == 0 then Err(ZeroDivisionError)
    else Ok(MemoryReport(runs, Mean(RssOf(ticks)), Mean(VmsOf(ticks))))
  }

  /** What check_ram_usage computes for a namespace, given what the runs of its command would show. */
  function RamUsageReport(attrs: seq<Attr>, trace: Trace): Result<MemoryReport> {
    match RunCount(attrs)
    case Err(e) => Err(e)
    case Ok(runs) => Averages(runs, trace)
  }

  /**
   * check_ram_usage up to its report: the averages it would print, or the
   * exception it raises. Process spawning and polling are the trace.
   */
  method CheckRamUsage(arguments: Namespace, trace: Trace) returns (r: Result<MemoryReport>)
    ensures r == RamUsageReport(arguments.attrs, trace)
  {
    var runs := DefaultRuns;
    var runsAttr := arguments.Get(RunsAttr);
    if runsAttr.None? {
      return Err(AttributeError(RunsAttr));
    }
    if runsAttr.value.Some? {
      var parsed := PyInt.ParseInt(runsAttr.value.value);
      if parsed.None? {
        return Err(ValueError(runsAttr.value.value));
      }
      runs := parsed.value;
    }

    var table := CollectSamples(runs, trace);
    ghost var ticks := Observed(trace, runs);

    var realSum, counter := Accumulate(SliceEven(table));
    var realMemory := TrueDivide(realSum, counter);
    if realMemory.Err? {
      return Err(realMemory.error);
    }

    var virtualSum;
    virtualSum, counter := Accumulate(SliceOdd(table));
    var virtualMemory := TrueDivide(virtualSum, counter);
    if virtualMemory.Err? {
      // the table has even length, so there are as many odd entries as even ones
      assert false;
    }
    r := Ok(MemoryReport(runs, realMemory.value, virtualMemory.value));
  }

  // ---------------------------------------------------------------------
  // What the report means

  lemma {:induction false} AveragesTimesCount(report: MemoryReport, ticks: seq<Sample>)
    requires ticks != []
    requires report.realMemory == Mean(RssOf(ticks)) && report.virtualMemory == Mean(VmsOf(ticks))
    ensures report.realMemory * |ticks| as real == Sum(RssOf(ticks)) as real
    ensures report.virtualMemory * |ticks| as real == Sum(VmsOf(ticks)) as real
  {
    MeanTimesCount(RssOf(ticks));
    MeanTimesCount(VmsOf(ticks));
  }

  /**
   * A report is for the run count asked for, at least one run, and holds for
   * each kind the number that times the tick count gives the sum of that
   * kind's readings.
   */
  lemma {:induction false} ReportAverages(runs: int, trace: Trace)
    requires Averages(runs, trace).Ok?
    ensures var report := Averages(runs, trace).value;
            var ticks := Observed(trace, runs);
            && report.runs == runs > 0
            && |ticks| > 0
            && report.realMemory * |ticks| as real == Sum(RssOf(ticks)) as real
            && report.virtualMemory * |ticks| as real == Sum(VmsOf(ticks)) as real
  {
    AveragesTimesCount(Averages(runs, trace).value, Observed(trace, runs));
  }

  /**
   * The average fails with ZeroDivisionError exactly when every run exited
   * before it was polled once (this includes runs <= 0), and fails in no other way.
   */
  lemma {:induction false} ZeroDivisionWhenNoTicks(runs: int, trace: Trace)
    ensures Averages(runs, trace).Err? ==> Averages(runs, trace).error == ZeroDivisionError
    ensures Averages(runs, trace).Err? <==> forall i :: 0 <= i < runs ==> trace(i) == []
  {
    ObservedEmpty(trace, runs);
  }

  /** Each reported average lies between any bounds of the readings of its own kind. */
  lemma {:induction false} ReportBounds(runs: int, trace: Trace, rlo: nat, rhi: nat, vlo: nat, vhi: nat)
    requires Averages(runs, trace).Ok?
    requires forall k :: 0 <= k < |Observed(trace, runs)| ==> rlo <= Observed(trace, runs)[k].rss <= rhi
    requires forall k :: 0 <= k < |Observed(trace, runs)| ==> vlo <= Observed(trace, runs)[k].vms <= vhi
    ensures var report := Averages(runs, trace).value;
            && rlo as real <= report.realMemory <= rhi as real
            && vlo as real <= report.virtualMemory <= vhi as real
  {
    var ticks := Observed(trace, runs);
    forall k | 0 <= k < |ticks|
      ensures rlo <= RssOf(ticks)[k] <= rhi && vlo <= VmsOf(ticks)[k] <= vhi
    {
      assert RssOf(ticks)[k] == ticks[k].rss && VmsOf(ticks)[k] == ticks[k].vms;
    }
    MeanBounds(RssOf(ticks), rlo, rhi);
    MeanBounds(VmsOf(ticks), vlo, vhi);
  }

  /** The averages do not depend on the order in which the ticks were observed. */
  lemma {:induction false} ReportOrderFree(runs: int, trace: Trace, other: Trace, otherRuns: int)
    requires Averages(runs, trace).Ok?
    requires multiset(Observed(trace, runs)) == multiset(Observed(other, otherRuns))
    ensures Averages(otherRuns, other).Ok?
    ensures Averages(otherRuns, other).value.realMemory == Averages(runs, trace).value.realMemory
    ensures Averages(otherRuns, other).value.virtualMemory == Averages(runs, trace).value.virtualMemory
  {
    var a, b := Observed(trace, runs), Observed(other, otherRuns);
    assert |a| == |multiset(a)| == |multiset(b)| == |b|;
    KindsPermute(a, b);
    MeanPermutation(RssOf(a), RssOf(b));
    MeanPermutation(VmsOf(a), VmsOf(b));
  }
}
