# EvalMe core: hyperfine argument vector and memory averages

EvalMe benchmarks a shell command in two passes. First it hands the command,
together with the options the user gave, to the external timing harness
`hyperfine`. Then it runs the command itself a number of times, polls the
running process's resident and virtual memory every 0.1 s, and prints the
average of each. This project models the two functions of `evalme.py` that do
this work:

- `launch_hyperfine` (module `Hyperfine`) builds the argument vector for
  `hyperfine`. It works on a deep copy of the argparse namespace with
  `command` deleted. For every remaining attribute whose value is not `None`,
  in the namespace's order, it emits `--name` then the value. The vector
  starts with `hyperfine` and ends with the command.
- `check_ram_usage` (module `RamUsage`) takes the run count from `--runs`.
  The count is 10 when the option is absent and `int(runs)` otherwise. Each
  poll tick appends one resident and then one virtual reading to a single
  flat table. The even entries are summed and divided by their count, and so
  are the odd entries.

Supporting modules:

- `Namespaces` models the argparse namespace. It is an object whose
  attribute dictionary (`vars(...)`) is an ordered sequence of name/value
  pairs. It has `deepcopy` (`Copy`) and `del` (`Delete`).
- `PyInt` models Python's `int(str)` in base 10 and `str(int)`.
- `Wrappers` holds `Option`, `Result` and the exceptions the modelled code
  raises: `AttributeError`, `TypeError`, `ValueError` and
  `ZeroDivisionError`.

The processes are not modelled. What the poll loop would observe is a
parameter, `trace: nat -> seq<Sample>`: `trace(i)` is the list of
(resident, virtual) readings that run `i` produced, one per tick, in order.
It may be empty, when the process exited before the first poll. Averages are
exact `real`s.

Three points about what `check_ram_usage` does:

- The code never rejects a run count that is zero or negative. `range(0, runs)`
  is then empty, no sample is taken, and the division at evalme.py:84 raises
  `ZeroDivisionError`.
- With zero samples the code raises `ZeroDivisionError`. It does not report
  an empty statistic. The model returns `Err(ZeroDivisionError)` in both
  cases.
- The code computes only the two averages, from one interleaved table.

## Model

| member | source | states |
|---|---|---|
| `Hyperfine.LaunchHyperfine` | evalme.py:39-55 | the vector built on a deep copy with `command` deleted equals `HyperfineArgv` of the caller's namespace. A missing `command` gives `AttributeError`, a `None` command gives `TypeError`. The caller's namespace is not modified. |
| `Hyperfine.ArgvLayout` | evalme.py:48-55 | the vector has length 2 + 2·(number of forwarded options). Entry 0 is `hyperfine` and the last entry is the command. Entries 1+2k and 2+2k are `--name` and the value of the k-th forwarded attribute of the caller's namespace. |
| `Hyperfine.FlagsLayout` | evalme.py:48-52 | the loop over the copy emits exactly two adjacent entries, `"--"+name` then the value, for each attribute that is not `command` and not `None`, and nothing for the others |
| `Hyperfine.FlagsAt` | evalme.py:49-52 | the k-th forwarded attribute yields entry 2k, `"--"+name`, and entry 2k+1, its value, of the flags |
| `Hyperfine.FlagSourcesExact` | evalme.py:49-50 | the forwarded attributes are in strictly increasing namespace position, that is, in iteration order. A position is forwarded if and only if its name is not `command` and its value is not `None`. |
| `Hyperfine.NoCommandFlag` | evalme.py:42-46 | no flag position of the vector holds `--command` |
| `Namespaces.Lookup` | evalme.py:43 | attribute access finds a value exactly when some entry has that name, and the value it returns is that entry's value |
| `Namespaces.WithoutKeepsDistinct` | evalme.py:46 | deleting a key keeps the keys distinct and removes exactly one entry when the key is present |
| `Namespaces.Namespace.Copy` | evalme.py:42 | `deepcopy` yields a fresh namespace with the same entries |
| `Namespaces.Namespace.Delete` | evalme.py:46 | `del vars(ns)[name]` leaves the other entries in their order and shortens the dictionary by one |
| `PyInt.ParseInt` | evalme.py:63 | `int(text)` succeeds exactly when the stripped text is an optional sign followed by digits, with single underscores allowed between digits; otherwise `ValueError`. A `-` sign negates the digits' value, and a `+` sign or no sign keeps it. |
| `PyInt.ParseIntOfString` | evalme.py:63 | `int(str(n)) == n` for every integer `n` |
| `RamUsage.RunCount` | evalme.py:61-63 | a namespace without `runs` gives `AttributeError`. A `None` value gives the default of 10. A string gives `int()` of it, and `ValueError` carrying that string when `int()` rejects it. |
| `RamUsage.RunCountOfString` | evalme.py:61-63 | a `runs` attribute holding `str(n)` gives a run count of exactly `n` |
| `RamUsage.CollectSamples` | evalme.py:67-76 | the table is the ticks of runs 0..runs-1, each ticking rss then vms. It has twice as many entries as ticks. Its even entries are the rss readings and its odd entries are the vms readings, in order. |
| `RamUsage.PollRun` | evalme.py:70-76 | the poll loop of one run extends the table by exactly the rss, vms pairs of its ticks, in order |
| `RamUsage.FlattenLayout` | evalme.py:72-75 | tick k puts its rss at index 2k and its vms at index 2k+1 |
| `RamUsage.DeInterleave` | evalme.py:81-87 | `table[::2]` is the rss sequence and `table[1::2]` is the vms sequence of the ticks, in chronological order |
| `RamUsage.RunBlock` | evalme.py:68-76 | the ticks of run i form one contiguous block, right after those of runs 0..i-1 |
| `RamUsage.ObservedOnlyRuns` | evalme.py:68 | only runs 0..runs-1 are looked at: two traces that agree on those runs give the same samples |
| `RamUsage.ObservedEmpty` | evalme.py:68-76 | there are no samples exactly when every processed run had no tick |
| `RamUsage.Accumulate` | evalme.py:78-89 | after a reduction loop, the accumulator is the sum of the slice and `counter` is its length |
| `RamUsage.TrueDivide` | evalme.py:84 | dividing by zero raises `ZeroDivisionError`. Otherwise the quotient times the divisor is the dividend. |
| `RamUsage.CheckRamUsage` | evalme.py:60-90 | the result is `RamUsageReport` of the namespace: the error for a missing or non-integer `runs`, otherwise the averages over the ticks of the chosen number of runs |
| `RamUsage.ReportAverages` | evalme.py:78-90 | a report is for the requested run count, which is positive, and at least one tick was taken. Each average times the tick count is the sum of that kind's readings. |
| `RamUsage.ZeroDivisionWhenNoTicks` | evalme.py:81-90 | the averaging fails only with `ZeroDivisionError`, and it fails exactly when every run ended before its first poll. This includes a run count of zero or less. |
| `RamUsage.ReportBounds` | evalme.py:81-90 | the resident average lies between any lower and upper bound of the resident readings, and the virtual average between any bounds of the virtual readings, each kind bounded on its own |
| `RamUsage.ReportOrderFree` | evalme.py:78-90 | ticks observed in any other order, with the same multiset, give the same two averages |
| `RamUsage.SumPermutation` | evalme.py:81-83 | the accumulated sum does not depend on the order of the readings |
| `RamUsage.MeanPermutation` | evalme.py:81-84 | the average does not depend on the order of the readings |
| `RamUsage.MeanBounds` | evalme.py:81-84 | an average lies between the smallest and largest reading |

## Left out

- `subprocess.run` (evalme.py:57), which executes the vector: it starts a process, so the model stops at the vector it would be given.
- `subprocess.Popen`, `proc.poll()`, `psutil.Process(...).memory_full_info()` and `time.sleep` (evalme.py:69-76): process spawning, OS introspection and timing. They are replaced by the `trace` parameter, which gives each run's readings.
- `humanfriendly.format_size` and the two `print` reports (evalme.py:92-93): console output through a foreign formatting library. The model returns the run count and the two averages that would be printed.
- `parse_arguments` and `usage` (evalme.py:18-37): argparse configuration and help text. The namespace they produce is the input.
- The `__main__` block (evalme.py:100-103), which only calls the two functions in sequence, and all of `benchmark.py`, which is directory traversal, MD5 file hashing and printing.
- Floating point: Python's `/` gives an IEEE double. The model gives the exact quotient as a `real`.
- `CheckRamUsage` does not read `arguments.command`. The source reads it at line 69, where `Popen` starts it, and in the two reports at lines 92-93. The reports are reached only after some `Popen`, so once the run count is positive a missing command raises `AttributeError` at line 69 and a `None` command raises `TypeError` there (`Popen(None, shell=True)`). The model folds both into the abstract trace.
- `LaunchHyperfine` reports a `None` command as `TypeError` in place of returning a vector. The source would build a list that contains `None`, and `subprocess.run` (line 57) rejects that list with `TypeError`.
- `PyInt.ParseInt` accepts only ASCII digits and strips only the ASCII whitespace that CPython's `int()` strips: space and U+0009 to U+000D. Python's `int()` also accepts other Unicode decimal digits and Unicode white space. It also has no digit limit, while Python 3.11 and later (and 3.10.7) raise `ValueError` in `int()` and `str()` beyond 4300 digits. So `PyInt.ParseIntOfString` holds in Python only for integers of at most 4300 digits.
- The exceptions raised by the foreign calls themselves are not modelled, because `trace` cannot fail: `FileNotFoundError` from `subprocess.run` (line 57) when `hyperfine` is not on the path, and psutil's `NoSuchProcess` or `ZombieProcess` from `psutil.Process(...).memory_full_info()` (lines 71-72) when the process ends between `poll()` and the reading.
