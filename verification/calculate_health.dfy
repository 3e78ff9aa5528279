/** Health scoring: three decreasing, piecewise-linear component scores for
    CPU, memory and disk utilisation, their fixed 0.4/0.4/0.2 weighted sum,
    a three-way status chosen from that sum, and a list of per-metric
    warnings in the fixed order CPU, memory, disk. Percentages and scores
    are exact reals, so `1.33` is exactly 133/100. */
module Health {
  import opened Entities

  function Max(a: real, b: real): real {
    if a < b then b else a
  }

  /** Component score for CPU utilisation. It is full up to 50%, reaches
      zero at 101% and stays within [0, 100] for every input. */
  function CpuScore(cpu: real): (score: real)
    ensures 0.0 <= score <= 100.0
    ensures score == 100.0 <==> cpu <= 50.0
    ensures score == 0.0 <==> cpu >= 101.0
  {
    if cpu < 50.0 then 100.0
    else if cpu < 70.0 then 100.0 - (cpu - 50.0) * 1.5
    else if cpu < 85.0 then 70.0 - (cpu - 70.0) * 2.0
    else Max(0.0, 40.0 - (cpu - 85.0) * 2.5)
  }

  /** Component score for memory utilisation. It is full up to 60%, reaches
      zero at 105% and stays within [0, 100] for every input. */
  function MemoryScore(memory: real): (score: real)
    ensures 0.0 <= score <= 100.0
    ensures score == 100.0 <==> memory <= 60.0
    ensures score == 0.0 <==> memory >= 105.0
  {
    if memory < 60.0 then 100.0
    else if memory < 75.0 then 100.0 - (memory - 60.0) * 1.33
    else if memory < 85.0 then 80.0 - (memory - 75.0) * 2.0
    else Max(0.0, 60.0 - (memory - 85.0) * 3.0)
  }

  /** Component score for disk utilisation. It is full up to 70%, reaches
      zero at 100% and stays within [0, 100] for every input. */
  function DiskScore(disk: real): (score: real)
    ensures 0.0 <= score <= 100.0
    ensures score == 100.0 <==> disk <= 70.0
    ensures score == 0.0 <==> disk >= 100.0
  {
    if disk < 70.0 then 100.0
    else if disk < 80.0 then 100.0 - (disk - 70.0) * 2.0
    else if disk < 90.0 then 80.0 - (disk - 80.0) * 3.0
    else Max(0.0, 50.0 - (disk - 90.0) * 5.0)
  }

  /** A higher utilisation never earns a higher score. */
  lemma ScoresNonIncreasing(a: real, b: real)
    requires a <= b
    ensures CpuScore(b) <= CpuScore(a)
    ensures MemoryScore(b) <= MemoryScore(a)
    ensures DiskScore(b) <= DiskScore(a)
  {
  }

  /** Left of the breakpoint `x`, on [lo, x), the score `f` lies between
      f(x) and f(x) + k * (x - c): it tends to f(x), so the pieces meeting
      at `x` agree there. */
  ghost predicate ApproachesFromLeft(f: real -> real, x: real, lo: real, k: real)
  {
    forall c :: lo <= c < x ==> f(x) <= f(c) <= f(x) + k * (x - c)
  }

  /** The CPU pieces meet at 50, 70 and 85; the disk pieces at 70, 80 and
      90; the memory pieces at 60 and 85. */
  lemma BreakpointsAgree()
    ensures ApproachesFromLeft(CpuScore, 50.0, 0.0, 0.0)
    ensures ApproachesFromLeft(CpuScore, 70.0, 50.0, 1.5)
    ensures ApproachesFromLeft(CpuScore, 85.0, 70.0, 2.0)
    ensures ApproachesFromLeft(MemoryScore, 60.0, 0.0, 0.0)
    ensures ApproachesFromLeft(MemoryScore, 85.0, 75.0, 2.0)
    ensures ApproachesFromLeft(DiskScore, 70.0, 0.0, 0.0)
    ensures ApproachesFromLeft(DiskScore, 80.0, 70.0, 2.0)
    ensures ApproachesFromLeft(DiskScore, 90.0, 80.0, 3.0)
  {
  }

  /** At 75% memory the pieces do not meet: the 60-75 piece tends to
      100 - 15 * 1.33 = 80.05 while the score at 75 is 80, a drop of 0.05. */
  lemma MemoryDropAt75()
    ensures MemoryScore(75.0) == 80.0
    ensures forall m :: 60.0 <= m < 75.0 ==> MemoryScore(m) == 80.05 + (75.0 - m) * 1.33
    ensures forall m :: 60.0 <= m < 75.0 ==> MemoryScore(m) >= MemoryScore(75.0) + 0.05
  {
  }

  datatype Scores = Scores(cpu: real, memory: real, disk: real)

  predicate InScoreRange(s: Scores) {
    0.0 <= s.cpu <= 100.0 && 0.0 <= s.memory <= 100.0 && 0.0 <= s.disk <= 100.0
  }

  function ComponentScores(m: SystemMetrics): (s: Scores)
    ensures InScoreRange(s)
  {
    Scores(CpuScore(m.cpuPercent), MemoryScore(m.memoryPercent), DiskScore(m.diskPercent))
  }

  /** The weighted sum. The weights add up to one: scores in [0, 100] give
      an overall score in [0, 100], and three equal scores give that score. */
  function OverallScore(s: Scores): (overall: real)
    ensures InScoreRange(s) ==> 0.0 <= overall <= 100.0
    ensures s.cpu == s.memory == s.disk ==> overall == s.cpu
  {
    s.cpu * 0.4 + s.memory * 0.4 + s.disk * 0.2
  }

  /** The overall score never rises when one utilisation figure rises and
      the others stay. */
  lemma OverallNonIncreasing(m: SystemMetrics, n: SystemMetrics)
    requires m.cpuPercent <= n.cpuPercent
    requires m.memoryPercent <= n.memoryPercent
    requires m.diskPercent <= n.diskPercent
    ensures OverallScore(ComponentScores(n)) <= OverallScore(ComponentScores(m))
  {
    ScoresNonIncreasing(m.cpuPercent, n.cpuPercent);
    ScoresNonIncreasing(m.memoryPercent, n.memoryPercent);
    ScoresNonIncreasing(m.diskPercent, n.diskPercent);
  }

  datatype Status = Healthy | Warning | Critical

  /** The status word of the report. */
  function StatusName(s: Status): string {
    match s
    case Healthy => "healthy"
    case Warning => "warning"
    case Critical => "critical"
  }

  /** The coloured circle paired with each status. */
  function StatusEmoji(s: Status): string {
    match s
    case Healthy => "\U{1F7E2}"
    case Warning => "\U{1F7E1}"
    case Critical => "\U{1F534}"
  }

  /** Names and emoji tell the statuses apart. */
  lemma StatusLabelsDistinct(s: Status, t: Status)
    ensures StatusName(s) == StatusName(t) <==> s == t
    ensures StatusEmoji(s) == StatusEmoji(t) <==> s == t
  {
  }

  /** Status from the unrounded overall score: exactly one of the three
      bands applies. */
  function Classify(overall: real): (s: Status)
    ensures s == Healthy <==> 80.0 <= overall
    ensures s == Warning <==> 60.0 <= overall < 80.0
    ensures s == Critical <==> overall < 60.0
  {
    if overall >= 80.0 then Healthy
    else if overall >= 60.0 then Warning
    else Critical
  }

  datatype Metric = Cpu | Memory | Disk

  /** Position of a metric in the warnings list. */
  function Rank(k: Metric): nat {
    match k
    case Cpu => 0
    case Memory => 1
    case Disk => 2
  }

  /** The two tiers of a warning. For CPU and memory the source words them
      "elevated" and "high"; for disk, "low" and "critical". */
  datatype Level = Elevated | High

  /** One warning: the metric, its tier and the percentage it reports. */
  datatype HealthWarning = HealthWarning(metric: Metric, level: Level, percent: real)

  function Percent(m: SystemMetrics, k: Metric): real {
    match k
    case Cpu => m.cpuPercent
    case Memory => m.memoryPercent
    case Disk => m.diskPercent
  }

  /** Above this percentage a metric is reported at least as elevated. */
  function ElevatedAbove(k: Metric): real {
    match k
    case Cpu => 60.0
    case Memory => 70.0
    case Disk => 80.0
  }

  /** Above this percentage a metric is reported as high. */
  function HighAbove(k: Metric): real {
    match k
    case Cpu => 80.0
    case Memory => 85.0
    case Disk => 90.0
  }

  /** The tier a percentage reaches, the higher tier winning. */
  function LevelFor(k: Metric, p: real): (level: Option<Level>)
    ensures level == Some(High) <==> p > HighAbove(k)
    ensures level.None? <==> p <= ElevatedAbove(k)
  {
    if p > HighAbove(k) then Some(High)
    else if p > ElevatedAbove(k) then Some(Elevated)
    else None
  }

  ghost predicate Mentions(ws: seq<HealthWarning>, k: Metric) {
    exists i :: 0 <= i < |ws| && ws[i].metric == k
  }

  ghost predicate StrictlyRanked(ws: seq<HealthWarning>) {
    forall i, j :: 0 <= i < j < |ws| ==> Rank(ws[i].metric) < Rank(ws[j].metric)
  }

  /** Each entry reports its metric's own percentage at the tier that
      percentage reaches. */
  ghost predicate EntriesFaithful(m: SystemMetrics, ws: seq<HealthWarning>) {
    forall i :: 0 <= i < |ws| ==>
      ws[i].percent == Percent(m, ws[i].metric)
      && LevelFor(ws[i].metric, ws[i].percent) == Some(ws[i].level)
  }

  /** What the warnings list of a snapshot is: entries in the order CPU,
      memory, disk with at most one per metric, each faithful, and a metric
      present exactly when its percentage reaches a tier. */
  ghost predicate WarningsSpec(m: SystemMetrics, ws: seq<HealthWarning>) {
    && StrictlyRanked(ws)
    && EntriesFaithful(m, ws)
    && forall k :: Mentions(ws, k) <==> LevelFor(k, Percent(m, k)).Some?
  }

  lemma {:induction false} RankAtLeastIndex(ws: seq<HealthWarning>, i: nat)
    requires StrictlyRanked(ws) && i < |ws|
    ensures i <= Rank(ws[i].metric)
  {
    if i > 0 {
      RankAtLeastIndex(ws, i - 1);
    }
  }

  /** Strictly ranked lists over three metrics hold at most three entries. */
  lemma StrictlyRankedBounded(ws: seq<HealthWarning>)
    requires StrictlyRanked(ws)
    ensures |ws| <= 3
  {
    if ws != [] {
      RankAtLeastIndex(ws, |ws| - 1);
    }
  }

  /** No warning at all exactly when every metric is at or below its lower
      threshold. */
  lemma WarningsEmptyIff(m: SystemMetrics, ws: seq<HealthWarning>)
    requires WarningsSpec(m, ws)
    ensures ws == [] <==>
      (m.cpuPercent <= 60.0 && m.memoryPercent <= 70.0 && m.diskPercent <= 80.0)
  {
    if ws != [] {
      assert Mentions(ws, ws[0].metric);
      assert LevelFor(ws[0].metric, Percent(m, ws[0].metric)).Some?;
    } else {
      assert !Mentions(ws, Cpu) && !Mentions(ws, Memory) && !Mentions(ws, Disk);
    }
  }

  /** Two lists that are strictly ranked, faithful to the same snapshot and
      mention the same metrics are the same list. */
  lemma {:induction false} RankedListsEqual(m: SystemMetrics, a: seq<HealthWarning>, b: seq<HealthWarning>)
    requires StrictlyRanked(a) && StrictlyRanked(b)
    requires EntriesFaithful(m, a) && EntriesFaithful(m, b)
    requires forall k :: Mentions(a, k) <==> Mentions(b, k)
    ensures a == b
    decreases |a|
  {
    if a == [] {
      if b != [] {
        assert Mentions(b, b[0].metric);
        assert false;
      }
    } else if b == [] {
      assert Mentions(a, a[0].metric);
      assert false;
    } else {
      HeadsAgree(a, b);
      assert a[0] == b[0];
      forall k
        ensures Mentions(a[1..], k) <==> Mentions(b[1..], k)
      {
        if Mentions(a[1..], k) {
          TailMentions(a, b, k);
        }
        if Mentions(b[1..], k) {
          TailMentions(b, a, k);
        }
      }
      TailKeeps(m, a);
      TailKeeps(m, b);
      RankedListsEqual(m, a[1..], b[1..]);
      assert a == [a[0]] + a[1..] && b == [b[0]] + b[1..];
    }
  }

  /** Strictly ranked lists mentioning the same metrics start with the
      same metric. */
  lemma HeadsAgree(a: seq<HealthWarning>, b: seq<HealthWarning>)
    requires StrictlyRanked(a) && StrictlyRanked(b)
    requires a != [] && b != []
    requires forall k :: Mentions(a, k) <==> Mentions(b, k)
    ensures a[0].metric == b[0].metric
  {
    assert Mentions(a, a[0].metric);
    var j :| 0 <= j < |b| && b[j].metric == a[0].metric;
    assert Mentions(b, b[0].metric);
    var i :| 0 <= i < |a| && a[i].metric == b[0].metric;
    assert Rank(b[0].metric) <= Rank(a[0].metric) <= Rank(b[0].metric);
  }

  /** Dropping the head keeps a list strictly ranked and faithful. */
  lemma TailKeeps(m: SystemMetrics, a: seq<HealthWarning>)
    requires StrictlyRanked(a) && EntriesFaithful(m, a) && a != []
    ensures StrictlyRanked(a[1..]) && EntriesFaithful(m, a[1..])
  {
    forall i, j | 0 <= i < j < |a[1..]|
      ensures Rank(a[1..][i].metric) < Rank(a[1..][j].metric)
    {
      assert a[1..][i] == a[i + 1] && a[1..][j] == a[j + 1];
    }
  }

  /** A metric in the tail of one of two strictly ranked lists with the
      same head metric is in the tail of the other, when the other mentions
      it at all. */
  lemma TailMentions(a: seq<HealthWarning>, b: seq<HealthWarning>, k: Metric)
    requires StrictlyRanked(a) && StrictlyRanked(b)
    requires a != [] && b != [] && a[0].metric == b[0].metric
    requires Mentions(a, k) ==> Mentions(b, k)
    requires Mentions(a[1..], k)
    ensures Mentions(b[1..], k)
  {
    var p :| 0 <= p < |a[1..]| && a[1..][p].metric == k;
    assert a[p + 1].metric == k;
    assert Mentions(a, k);
    var q :| 0 <= q < |b| && b[q].metric == k;
    assert q != 0;
    assert b[1..][q - 1].metric == k;
  }

  /** The specification leaves no freedom: at most one list meets it. */
  lemma WarningsSpecUnique(m: SystemMetrics, a: seq<HealthWarning>, b: seq<HealthWarning>)
    requires WarningsSpec(m, a) && WarningsSpec(m, b)
    ensures a == b
  {
    RankedListsEqual(m, a, b);
  }

  /** The warnings list after the blocks for the metrics ranked below `n`
      have run: it meets the specification restricted to those metrics. */
  ghost predicate SpecUpTo(m: SystemMetrics, ws: seq<HealthWarning>, n: nat) {
    && StrictlyRanked(ws)
    && EntriesFaithful(m, ws)
    && (forall i :: 0 <= i < |ws| ==> Rank(ws[i].metric) < n)
    && forall k :: Mentions(ws, k) <==> (Rank(k) < n && LevelFor(k, Percent(m, k)).Some?)
  }

  /** The entry, if any, that the block for metric `k` appends. */
  function EntryFor(m: SystemMetrics, k: Metric): seq<HealthWarning> {
    match LevelFor(k, Percent(m, k))
    case None => []
    case Some(level) => [HealthWarning(k, level, Percent(m, k))]
  }

  /** Running the block for the next metric extends the specification to it. */
  lemma ExtendSpec(m: SystemMetrics, ws: seq<HealthWarning>, k: Metric)
    requires SpecUpTo(m, ws, Rank(k))
    ensures SpecUpTo(m, ws + EntryFor(m, k), Rank(k) + 1)
  {
    ExtendRanked(m, ws, k);
    ExtendMentions(m, ws, k);
  }

  /** The appended entry ranks after every earlier one and is faithful. */
  lemma ExtendRanked(m: SystemMetrics, ws: seq<HealthWarning>, k: Metric)
    requires SpecUpTo(m, ws, Rank(k))
    ensures var ws' := ws + EntryFor(m, k);
      && StrictlyRanked(ws')
      && EntriesFaithful(m, ws')
      && forall i :: 0 <= i < |ws'| ==> Rank(ws'[i].metric) < Rank(k) + 1
  {
  }

  /** After the block for `k`, a metric is mentioned exactly when it ranks
      no later than `k` and reaches a tier. */
  lemma ExtendMentions(m: SystemMetrics, ws: seq<HealthWarning>, k: Metric)
    requires SpecUpTo(m, ws, Rank(k))
    ensures forall j :: Mentions(ws + EntryFor(m, k), j) <==>
      (Rank(j) < Rank(k) + 1 && LevelFor(j, Percent(m, j)).Some?)
  {
    forall j
      ensures Mentions(ws + EntryFor(m, k), j) <==> (Rank(j) < Rank(k) + 1 && LevelFor(j, Percent(m, j)).Some?)
    {
      ExtendMentionsOf(m, ws, k, j);
    }
  }

  /** The same, for one metric `j`. */
  lemma ExtendMentionsOf(m: SystemMetrics, ws: seq<HealthWarning>, k: Metric, j: Metric)
    requires Mentions(ws, j) <==> (Rank(j) < Rank(k) && LevelFor(j, Percent(m, j)).Some?)
    ensures Mentions(ws + EntryFor(m, k), j) <==> (Rank(j) < Rank(k) + 1 && LevelFor(j, Percent(m, j)).Some?)
  {
    var ws' := ws + EntryFor(m, k);
    if Mentions(ws', j) {
      var i :| 0 <= i < |ws'| && ws'[i].metric == j;
      if i < |ws| {
        assert Mentions(ws, j);
      }
    }
    if j == k && LevelFor(j, Percent(m, j)).Some? {
      assert ws'[|ws|].metric == j;
    } else if Rank(j) < Rank(k) && LevelFor(j, Percent(m, j)).Some? {
      var i :| 0 <= i < |ws| && ws[i].metric == j;
      assert ws'[i].metric == j;
    }
  }

  /** Once every metric's block has run, the list meets the specification,
      holds at most three entries, and is empty exactly when no metric
      passes its lower threshold. */
  lemma SpecComplete(m: SystemMetrics, ws: seq<HealthWarning>)
    requires SpecUpTo(m, ws, 3)
    ensures WarningsSpec(m, ws)
    ensures |ws| <= 3
    ensures ws == [] <==> (m.cpuPercent <= 60.0 && m.memoryPercent <= 70.0 && m.diskPercent <= 80.0)
  {
    StrictlyRankedBounded(ws);
    WarningsEmptyIff(m, ws);
  }

  /** The three blocks together produce a list that meets the
      specification, holds at most three entries, and is empty exactly when
      no metric passes its lower threshold. */
  lemma EntriesMeetSpec(m: SystemMetrics)
    ensures var ws := EntryFor(m, Cpu) + EntryFor(m, Memory) + EntryFor(m, Disk);
      && WarningsSpec(m, ws)
      && |ws| <= 3
      && (ws == [] <==> (m.cpuPercent <= 60.0 && m.memoryPercent <= 70.0 && m.diskPercent <= 80.0))
  {
    var cpu := EntryFor(m, Cpu);
    var memory := EntryFor(m, Memory);
    ExtendSpec(m, [], Cpu);
    assert [] + cpu == cpu;
    ExtendSpec(m, cpu, Memory);
    ExtendSpec(m, cpu + memory, Disk);
    SpecComplete(m, cpu + memory + EntryFor(m, Disk));
  }

  /** The health report: the overall score (unrounded), the status and its
      emoji, the component scores, the warnings and the snapshot's own
      healthy flag. */
  datatype HealthReport = HealthReport(
    overallScore: real,
    status: Status,
    emoji: string,
    scores: Scores,
    warnings: seq<HealthWarning>,
    isHealthy: bool)

  /** Builds the warnings list, appending at most one entry per metric in
      the order CPU, memory, disk. */
  method CollectWarnings(metrics: SystemMetrics) returns (warnings: seq<HealthWarning>)
    ensures WarningsSpec(metrics, warnings)
    ensures |warnings| <= 3
    ensures warnings == [] <==>
      (metrics.cpuPercent <= 60.0 && metrics.memoryPercent <= 70.0 && metrics.diskPercent <= 80.0)
  {
    warnings := [];
    if metrics.cpuPercent > 80.0 {
      warnings := warnings + [HealthWarning(Cpu, High, metrics.cpuPercent)];
    } else if metrics.cpuPercent > 60.0 {
      warnings := warnings + [HealthWarning(Cpu, Elevated, metrics.cpuPercent)];
    }
    assert warnings == EntryFor(metrics, Cpu);
    if metrics.memoryPercent > 85.0 {
      warnings := warnings + [HealthWarning(Memory, High, metrics.memoryPercent)];
    } else if metrics.memoryPercent > 70.0 {
      warnings := warnings + [HealthWarning(Memory, Elevated, metrics.memoryPercent)];
    }
    assert warnings == EntryFor(metrics, Cpu) + EntryFor(metrics, Memory);
    if metrics.diskPercent > 90.0 {
      warnings := warnings + [HealthWarning(Disk, High, metrics.diskPercent)];
    } else if metrics.diskPercent > 80.0 {
      warnings := warnings + [HealthWarning(Disk, Elevated, metrics.diskPercent)];
    }
    assert warnings == EntryFor(metrics, Cpu) + EntryFor(metrics, Memory) + EntryFor(metrics, Disk);
    EntriesMeetSpec(metrics);
  }

  /** Builds the health report of a snapshot. */
  method Execute(metrics: SystemMetrics) returns (report: HealthReport)
    ensures report.scores == ComponentScores(metrics)
    ensures report.overallScore == OverallScore(report.scores)
    ensures 0.0 <= report.overallScore <= 100.0
    ensures report.status == Classify(report.overallScore)
    ensures report.emoji == StatusEmoji(report.status)
    ensures WarningsSpec(metrics, report.warnings)
    ensures |report.warnings| <= 3
    ensures report.warnings == [] <==>
      (metrics.cpuPercent <= 60.0 && metrics.memoryPercent <= 70.0 && metrics.diskPercent <= 80.0)
    ensures report.isHealthy == metrics.isHealthy
  {
    var scores := Scores(
      CpuScore(metrics.cpuPercent),
      MemoryScore(metrics.memoryPercent),
      DiskScore(metrics.diskPercent));

    var warnings := CollectWarnings(metrics);

    var overall := scores.cpu * 0.4 + scores.memory * 0.4 + scores.disk * 0.2;

    var status: Status;
    var emoji: string;
    if overall >= 80.0 {
      status, emoji := Healthy, "\U{1F7E2}";
    } else if overall >= 60.0 {
      status, emoji := Warning, "\U{1F7E1}";
    } else {
      status, emoji := Critical, "\U{1F534}";
    }

    report := HealthReport(overall, status, emoji, scores, warnings, metrics.isHealthy);
  }

  /** Scenario of a lightly loaded machine (30% CPU, 50% memory, 60% disk):
      every score full, overall 100, healthy, and no warning. */
  lemma HealthyScenario(ws: seq<HealthWarning>)
    requires WarningsSpec(SystemMetrics(30.0, 50.0, 60.0, true), ws)
    ensures var s := ComponentScores(SystemMetrics(30.0, 50.0, 60.0, true));
      s == Scores(100.0, 100.0, 100.0) && OverallScore(s) == 100.0
      && Classify(OverallScore(s)) == Healthy
    ensures ws == []
  {
    WarningsEmptyIff(SystemMetrics(30.0, 50.0, 60.0, true), ws);
  }

  /** Scenario of a loaded machine (75% CPU, 80% memory, 85% disk): scores
      60, 70 and 65, overall 65, warning status, and an elevated entry for
      each metric in order. */
  lemma WarningScenario(ws: seq<HealthWarning>)
    requires WarningsSpec(SystemMetrics(75.0, 80.0, 85.0, true), ws)
    ensures var s := ComponentScores(SystemMetrics(75.0, 80.0, 85.0, true));
      s == Scores(60.0, 70.0, 65.0) && OverallScore(s) == 65.0
      && Classify(OverallScore(s)) == Warning
    ensures ws == [HealthWarning(Cpu, Elevated, 75.0), HealthWarning(Memory, Elevated, 80.0),
                   HealthWarning(Disk, Elevated, 85.0)]
  {
    var m := SystemMetrics(75.0, 80.0, 85.0, true);
    var expected := [HealthWarning(Cpu, Elevated, 75.0), HealthWarning(Memory, Elevated, 80.0),
                     HealthWarning(Disk, Elevated, 85.0)];
    assert Mentions(expected, Cpu) by { assert expected[0].metric == Cpu; }
    assert Mentions(expected, Memory) by { assert expected[1].metric == Memory; }
    assert Mentions(expected, Disk) by { assert expected[2].metric == Disk; }
    assert WarningsSpec(m, expected);
    WarningsSpecUnique(m, ws, expected);
  }

  /** Scenario of an overloaded machine (95% CPU, 90% memory, 95% disk):
      scores 15, 45 and 25, overall 29, critical, and a high entry for each
      metric in order. */
  lemma CriticalScenario(ws: seq<HealthWarning>)
    requires WarningsSpec(SystemMetrics(95.0, 90.0, 95.0, false), ws)
    ensures var s := ComponentScores(SystemMetrics(95.0, 90.0, 95.0, false));
      s == Scores(15.0, 45.0, 25.0) && OverallScore(s) == 29.0
      && Classify(OverallScore(s)) == Critical
    ensures ws == [HealthWarning(Cpu, High, 95.0), HealthWarning(Memory, High, 90.0),
                   HealthWarning(Disk, High, 95.0)]
  {
    var m := SystemMetrics(95.0, 90.0, 95.0, false);
    var expected := [HealthWarning(Cpu, High, 95.0), HealthWarning(Memory, High, 90.0),
                     HealthWarning(Disk, High, 95.0)];
    assert Mentions(expected, Cpu) by { assert expected[0].metric == Cpu; }
    assert Mentions(expected, Memory) by { assert expected[1].metric == Memory; }
    assert Mentions(expected, Disk) by { assert expected[2].metric == Disk; }
    assert WarningsSpec(m, expected);
    WarningsSpecUnique(m, ws, expected);
  }
}
