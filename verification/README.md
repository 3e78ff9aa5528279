# mico core, modelled in Dafny

mico is a small system monitor. Its domain core holds three use cases and
the value objects they read:

- **health scoring** (`CalculateSystemHealthUseCase`): three decreasing,
  piecewise-linear component scores for CPU, memory and disk utilisation;
  their 0.4/0.4/0.2 weighted sum; a status of healthy, warning or critical
  with its emoji; a list of warnings, at most one per metric, in the order
  CPU, memory, disk; and the snapshot's own `is_healthy` flag copied through;
- **process listing** (`ListProcessesUseCase`): a stable sort by resident
  memory, lower-cased name or pid, ascending or descending, followed by the
  slice `[:top_n]`;
- **process filtering** (`FilterProcessesUseCase`): an empty filter text
  returns the input list; any other text keeps, in order, the processes
  whose `matches_filter` accepts it;
- **value objects** (`MemoryInfo`, `SystemInfo`): a memory reading in GB
  with its four MB conversions, and the wrapper holding one reading.

The Dafny modules follow the source files:

| module | file | source |
|---|---|---|
| `Entities` | `entities.dfy` | `src/mico/domain/entities.py`, plus the process and metrics records the use cases read |
| `Text` | `text.dfy` | ASCII `lower()` and Python's `<` on strings, which sorting by name uses; and, for the assumed `NameOrPid` matching rule only, substring search and `str(pid)` |
| `Health` | `calculate_health.dfy` | `src/mico/domain/use_cases/calculate_health.py` |
| `ListProcesses` | `list_processes.dfy` | `src/mico/domain/use_cases/list_processes.py` |
| `FilterProcesses` | `filter_processes.dfy` | `src/mico/domain/use_cases/filter_processes.py` |

Percentages and scores are exact reals, so the coefficient `1.33` is
exactly 133/100. `execute` of the health use case is a method, because the
source builds its warnings list by appending to it. Its specification is the
ghost predicate `WarningsSpec`, and `WarningsSpecUnique` proves that at most
one list meets it. Listing and filtering are pure functions, because the
source only builds new lists. Sorting is a stable insertion sort over a key
function. Descending order compares keys the other way round, as Python's
`sorted(..., reverse=True)` does: ties keep their input order in both
directions, so descending order is not ascending order reversed.

Behaviour of the code that the model keeps as it is:

- Status is chosen from the unrounded overall score; `round(overall_score, 1)`
  only changes the reported number (see "Left out").
- The memory score is not continuous at 75%. The 60–75 piece uses
  `1.33`, so it tends to 80.05, while the score at 75 is 80.
  `Health.MemoryDropAt75` states this. The other breakpoints do meet
  (`Health.BreakpointsAgree`).
- A negative `top_n` follows Python's slice semantics: it drops entries
  from the end. A `top_n` of zero gives the empty list.

## Model

| member | source | states |
|---|---|---|
| Entities.GbToMb | src/mico/domain/entities.py:25-43 | converting GB to MB multiplies by 1024: dividing the result by 1024 gives the input back; a non-negative quantity never shrinks and a negative one only falls |
| Entities.TotalMb | src/mico/domain/entities.py:25-28 | `total_mb` is `total_gb` in MB: divided by 1024 it is `total_gb`, and it is at least `total_gb` when that is non-negative |
| Entities.AvailableMb | src/mico/domain/entities.py:30-33 | the same for `available_mb` and `available_gb` |
| Entities.UsedMb | src/mico/domain/entities.py:35-38 | the same for `used_mb` and `used_gb` |
| Entities.FreeMb | src/mico/domain/entities.py:40-43 | the same for `free_mb` and `free_gb` |
| Entities.GbToMbLinear | src/mico/domain/entities.py:25-43 | the conversion is additive, and it preserves and reflects order |
| Entities.SixteenGigabyteReading | tests/test_domain.py:7-20 | a 16/8/8/8 GB reading gives 16384, 8192, 8192 and 8192 MB |
| Entities.SystemInfoHoldsMemory | src/mico/domain/entities.py:46-55 | a `SystemInfo` holds exactly the reading it was built with; two are equal exactly when their readings are |
| Text.LowerProperties | src/mico/domain/use_cases/list_processes.py:41 | lower-casing keeps the length, turns each upper-case ASCII letter into its own lower-case letter, keeps every other character, leaves no upper-case ASCII letter, and is idempotent |
| Text.IsSubstringAt | src/mico/domain/use_cases/filter_processes.py:25 | for the assumed `NameOrPid` rule only (the real `matches_filter` is not part of this model): the recursive substring test agrees, in both directions, with "occurs at some index" |
| Text.DecimalString | tests/test_use_cases.py:80-91 | for the assumed `NameOrPid` rule only: `str(pid)` is a non-empty string of digits with no leading zero |
| Text.DecimalRoundTrip | tests/test_use_cases.py:80-91 | for the assumed `NameOrPid` rule only: reading the decimal form back gives the pid |
| Text.DecimalStringInjective | tests/test_use_cases.py:80-91 | for the assumed `NameOrPid` rule only: two pids have equal decimal forms exactly when they are equal |
| Text.TextLessIrreflexive | src/mico/domain/use_cases/list_processes.py:38-43 | no name sorts strictly before itself |
| Text.TextLessTransitive | src/mico/domain/use_cases/list_processes.py:38-43 | the code-point order on names is transitive |
| Text.TextLessTotal | src/mico/domain/use_cases/list_processes.py:38-43 | any two distinct names are ordered one way or the other |
| Health.CpuScore | src/mico/domain/use_cases/calculate_health.py:70-79 | the CPU score lies in [0, 100], is 100 exactly up to 50%, and is 0 exactly from 101% |
| Health.MemoryScore | src/mico/domain/use_cases/calculate_health.py:82-91 | the memory score lies in [0, 100], is 100 exactly up to 60%, and is 0 exactly from 105% |
| Health.DiskScore | src/mico/domain/use_cases/calculate_health.py:94-103 | the disk score lies in [0, 100], is 100 exactly up to 70%, and is 0 exactly from 100% |
| Health.ScoresNonIncreasing | src/mico/domain/use_cases/calculate_health.py:70-103 | a higher utilisation never earns a higher score, for each metric |
| Health.BreakpointsAgree | src/mico/domain/use_cases/calculate_health.py:70-103 | the pieces meet at CPU 50, 70 and 85, at memory 60 and 85, and at disk 70, 80 and 90: approaching from the left, the score tends to its value there |
| Health.MemoryDropAt75 | src/mico/domain/use_cases/calculate_health.py:86-89 | at 75% memory the pieces do not meet: the left piece tends to 80.05 and the score at 75 is 80 |
| Health.ComponentScores | src/mico/domain/use_cases/calculate_health.py:21-25 | the three component scores all lie in [0, 100] |
| Health.OverallScore | src/mico/domain/use_cases/calculate_health.py:44-48 | the weights sum to one: in-range scores give an overall score in [0, 100], and three equal scores give that score |
| Health.OverallNonIncreasing | src/mico/domain/use_cases/calculate_health.py:21-48 | raising any utilisation figure, the others held, never raises the overall score |
| Health.Classify | src/mico/domain/use_cases/calculate_health.py:50-58 | healthy exactly from 80, warning exactly on [60, 80), critical exactly below 60 |
| Health.StatusLabelsDistinct | src/mico/domain/use_cases/calculate_health.py:50-58 | status words and emoji each tell the three statuses apart |
| Health.LevelFor | src/mico/domain/use_cases/calculate_health.py:29-42 | a metric is reported high exactly above its upper threshold (80/85/90), and not at all exactly at or below its lower one (60/70/80) |
| Health.StrictlyRankedBounded | src/mico/domain/use_cases/calculate_health.py:27-42 | a list with entries in strict CPU, memory, disk order holds at most three entries |
| Health.WarningsEmptyIff | src/mico/domain/use_cases/calculate_health.py:27-42 | a list meeting the warnings specification is empty exactly when CPU ≤ 60, memory ≤ 70 and disk ≤ 80 |
| Health.RankedListsEqual | src/mico/domain/use_cases/calculate_health.py:27-42 | two strictly ordered, faithful lists that mention the same metrics are equal |
| Health.WarningsSpecUnique | src/mico/domain/use_cases/calculate_health.py:27-42 | at most one list meets the warnings specification of a snapshot |
| Health.ExtendSpec | src/mico/domain/use_cases/calculate_health.py:29-42 | each metric's if/elif block extends the specification from the metrics before it to that metric |
| Health.SpecComplete | src/mico/domain/use_cases/calculate_health.py:27-42 | after all three blocks the list meets the specification, holds at most three entries, and is empty exactly when no metric passes its lower threshold |
| Health.EntriesMeetSpec | src/mico/domain/use_cases/calculate_health.py:27-42 | the three blocks' entries, concatenated in order, meet the specification |
| Health.CollectWarnings | src/mico/domain/use_cases/calculate_health.py:27-42 | the warnings built by the if/elif blocks meet the specification: ordered CPU, memory, disk, one entry per metric past its lower threshold, at the right tier with the metric's own percentage; at most three; empty exactly when no threshold is passed |
| Health.Execute | src/mico/domain/use_cases/calculate_health.py:11-67 | the report carries the component scores, their weighted sum in [0, 100], the status of that sum with its emoji, warnings meeting the specification, and the snapshot's own healthy flag |
| Health.HealthyScenario | tests/test_health.py:8-25 | 30/50/60%: all scores 100, overall 100, healthy, no warnings |
| Health.WarningScenario | tests/test_health.py:28-44 | 75/80/85%: scores 60, 70 and 65, overall 65, warning, and an elevated entry for each metric in order |
| Health.CriticalScenario | tests/test_health.py:47-64 | 95/90/95%: scores 15, 45 and 25, overall 29, critical, and a high entry for each metric in order |
| ListProcesses.KeyLessTransitive | src/mico/domain/use_cases/list_processes.py:32-49 | the order on sort keys is transitive |
| ListProcesses.KeyLessTotal | src/mico/domain/use_cases/list_processes.py:32-49 | any two distinct sort keys are ordered one way or the other |
| ListProcesses.InsertPermutes | src/mico/domain/use_cases/list_processes.py:32-49 | inserting into a list adds exactly the inserted record |
| ListProcesses.InsertSorted | src/mico/domain/use_cases/list_processes.py:32-49 | inserting into a sorted list keeps it sorted |
| ListProcesses.InsertStable | src/mico/domain/use_cases/list_processes.py:32-49 | inserting puts the record behind every record with its key and leaves the others' order alone |
| ListProcesses.Sort | src/mico/domain/use_cases/list_processes.py:32-49 | `sorted` returns a list of the same length, ordered by the key, ascending or descending |
| ListProcesses.SortPermutes | src/mico/domain/use_cases/list_processes.py:32-49 | `sorted` returns a permutation of its input |
| ListProcesses.SortStable | src/mico/domain/use_cases/list_processes.py:32-49 | for every key, the records with that key keep their input order, in both directions |
| ListProcesses.PrefixComesFirst | src/mico/domain/use_cases/list_processes.py:51 | in a sorted list, nothing after a cut goes strictly before anything up to it |
| ListProcesses.Execute | src/mico/domain/use_cases/list_processes.py:14-51 | with the defaults `sort_by="mem"`, `reverse=True`, `top_n=10`: the result has `min(top_n, len)` entries, or `max(0, len + top_n)` when `top_n` is negative; it holds only input records; it is sorted by the chosen key; and no record left out goes strictly before a record kept |
| ListProcesses.ExecuteStable | src/mico/domain/use_cases/list_processes.py:32-51 | for every key, the records kept with that key are the first input records with that key, in input order |
| ListProcesses.SortedByMemory | src/mico/domain/use_cases/list_processes.py:32-37 | sorted by "mem", resident sizes (absent counted as 0) fall from left to right when `reverse` holds and rise otherwise |
| ListProcesses.SortedByName | src/mico/domain/use_cases/list_processes.py:38-43 | sorted by "name", lower-cased names never rise when `reverse` holds and never fall otherwise |
| ListProcesses.SortedByPid | src/mico/domain/use_cases/list_processes.py:44-49 | any other criterion sorts by pid: pids fall when `reverse` holds and rise otherwise |
| ListProcesses.EmptyListing | src/mico/domain/use_cases/list_processes.py:51 | an empty input lists nothing for every `top_n`, and a `top_n` of zero lists nothing for every input |
| ListProcesses.MemoryScenario | tests/test_use_cases.py:9-33 | of 100, 200 and 50 MB, the top two by memory descending are pids 2 and 1 |
| ListProcesses.NameScenario | tests/test_use_cases.py:36-48 | Zebra, Apple, Banana by name descending give Zebra, Banana, Apple |
| ListProcesses.PidScenario | tests/test_use_cases.py:51-63 | pids 3, 1, 2 by pid ascending give 1, 2, 3 |
| ListProcesses.TieScenario | src/mico/domain/use_cases/list_processes.py:32-37 | two records of equal size keep their input order both ascending and descending |
| FilterProcesses.Select | src/mico/domain/use_cases/filter_processes.py:25 | the comprehension keeps an order-preserving sublist of the input, and a record is in it exactly when it is in the input and matches |
| FilterProcesses.SelectCounts | src/mico/domain/use_cases/filter_processes.py:25 | each matching record is kept as often as it occurs in the input, and no other record is kept |
| FilterProcesses.Execute | src/mico/domain/use_cases/filter_processes.py:11-25 | an empty text returns the input unchanged; otherwise the result is an order-preserving sublist that keeps each matching input record as often as it occurs and no other record |
| FilterProcesses.SelectIdempotent | src/mico/domain/use_cases/filter_processes.py:25 | selecting again with the same text changes nothing |
| FilterProcesses.ExecuteIdempotent | src/mico/domain/use_cases/filter_processes.py:22-25 | filtering a filtered list again with the same text changes nothing |
| FilterProcesses.ChromeScenario | tests/test_use_cases.py:66-77 | with the name-or-pid rule, "chrome" over Chrome, Firefox and Chrome Helper keeps Chrome and Chrome Helper, in order |
| FilterProcesses.PidScenario | tests/test_use_cases.py:80-91 | with the name-or-pid rule, "123" over pids 123, 456 and 789 keeps only pid 123 |
| FilterProcesses.PidPrefixScenario | tests/test_use_cases.py:80-91 | with the assumed name-or-pid rule: pid 12345 does not match "123", because that rule compares a pid as a whole; an extra case that the nearest test, the pid filter test cited here, does not cover |

## Left out

- `round(overall_score, 1)` in the report: the model reports the unrounded score, and the status is chosen from it as in the code.
- The wording of the warnings (the f-strings with one decimal): a warning is modelled as its metric, its tier and its percentage.
- Floating-point error: scores, percentages and the GB and MB quantities of `MemoryInfo` are exact reals. Multiplying by 1024 is exact in binary floating point short of overflow, so the conversions lose little; the score arithmetic (`1.33`, `0.4`, `0.2`) can round.
- `Process.matches_filter` is not part of this model, so the filter takes the matching rule as a parameter. `FilterProcesses.NameOrPid` is one plausible rule (a case-insensitive name substring, or the exact pid); the filter scenarios use it.
- `SystemMetrics.is_healthy` is not part of this model: the health report copies the flag from its input, as the code does.
- `Text.Lower`: it lower-cases ASCII letters only; Python's `str.lower()` also folds non-ASCII letters.
- Identity and aliasing of lists: an empty filter text returns the caller's own list object; the model returns an equal value.
- Record fields the use cases never read (a process's memory percent; a snapshot's memory and disk totals in GB): they are left out of the records. The `Process` and `SystemMetrics` classes are not part of this model; their records hold only the fields the tests build and the use cases read.
- `src/mico/cli.py` and `src/mico/adapters/system.py` are not part of this model: they do terminal output and read the operating system.
