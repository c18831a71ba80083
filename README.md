# Tixte exporter: a verified model of the download core

`tixte_exporter.py` reads a manifest of uploads (file name, extension,
optional subdomain), works out the upload URL and the local save path for
each row, and fetches whatever is not already present. Its completion
ledger `downloaded.log` makes a run resumable. This project models the
sequential core under the I/O in Dafny and proves what it promises:

- **URL and target derivation.** It covers `construct_url` and the
  per-row choice of subdomain and of save name and path (`urls.dfy`), on
  top of `str.strip`, the tail of `os.path.split` and `os.path.join` for
  POSIX paths (`paths.dfy`).
- **Completion ledger.** It covers `load_downloaded` and
  `save_downloaded` (`ledger.dfy`). The ledger file is modelled as its
  sequence of lines.
- **Retrying fetcher.** It covers `download_file` (`fetcher.dfy`).
  - The network is an oracle sequence of attempt outcomes.
  - The clock is a reading carried with each chunk.
  - `random.uniform(0, jitter)` is a sequence of draws.
  - `time.sleep` is a trace of the delays requested.
  - The imperative method `DownloadFile` keeps the source's loop shape. A
    closed-form specification `Fetch` says which attempt ends the call and
    what the file and speed are afterwards. The method is proved against it.
- **Batch driver.** It covers the row loop of `main` (`driver.dfy`). The
  loop body is `HandleRow`, the loop itself is `RunExport`, and the
  functional specification `Export` is a fold of `RowStep` over the rows.
  The specification state records:
  - the six counters;
  - the ledger;
  - the output tree, as a map from path to bytes;
  - each row's disposition;
  - every URL fetched;
  - every local-directory probe;
  - every sleep;
  - every log entry.
- **Rolling log buffer.** `add_log` is the class `LogBuffer`
  (`reporter.dfy`). Its ghost history holds every entry ever added.

Some consequences of the code as written are visible in the model and
proved as lemmas:

- A relative save name containing a separator is never found in the
  ledger (`Ledger.NestedNeverFound`). Loading keeps only the final path
  component. An absolute save name can still be found, because
  `os.path.join` then returns it unchanged.
- A save name ending in white space is never found either
  (`Ledger.TrailingSpaceNeverFound`).
- A stream that breaks on the final attempt leaves its partial file
  behind (`Fetcher.PartialFileSurvivesFailure`). The next run then skips
  that row as "exists in output" instead of retrying it
  (`Driver.FailedPartialSkippedLater`). The failure branch writes no
  ledger entry, which suggests a retry on the next run, but the file left
  at the save path prevents it.
- `final_speed` survives from a broken attempt into a later successful
  one that never samples it (`Fetcher.StaleSpeedAfterRetry`, with a
  concrete run in `Fetcher.StaleSpeedWitness`).

## Model

| member | source | states |
|---|---|---|
| Paths.Strip | tixte_exporter.py:57-59 | the result is no longer than the input, has no white space at either end, and equals the input when the input has none there |
| Paths.StripIsSlice | tixte_exporter.py:57-59 | `strip` removes only white space: the input is blank space, then the result, then blank space |
| Paths.Basename | tixte_exporter.py:59 | the tail `os.path.split` returns never contains a separator |
| Paths.BasenameIsTail | tixte_exporter.py:59 | the tail is a suffix of the path, preceded by `/` unless it is the whole path |
| Paths.Join | tixte_exporter.py:61 | `os.path.join` for two components; it has no contract of its own, and what it keeps is stated by `Paths.BasenameOfJoin` |
| Paths.BasenameOfJoin | tixte_exporter.py:59-61 | joining never changes the final component: `split(join(a, b))[1] == split(b)[1]` |
| Urls.ConstructUrl | tixte_exporter.py:68-69 | the URL starts with the fixed uploads root and has the length of its three parts plus the two separators; the function is total, so an empty subdomain still gives a URL |
| Urls.ParseConstruct | tixte_exporter.py:68-69 | reading a constructed URL back gives its subdomain, file name and extension, when the subdomain has no `/` and the extension no `.` |
| Urls.ConstructInjective | tixte_exporter.py:68-69 | two such rows get the same URL only when they name the same upload |
| Urls.ChooseSubdomain | tixte_exporter.py:234 | the row's subdomain if truthy, else the configured default if truthy, else `""`; empty exactly when neither is truthy |
| Urls.SaveName | tixte_exporter.py:235 | `f"{filename}.{extension}"`; no contract of its own, its read-back is `Urls.SaveNameParts` |
| Urls.SaveNameParts | tixte_exporter.py:235 | the save name splits at its last `.` back into the row's file name and extension, when the extension holds no `.` |
| Urls.TargetFor | tixte_exporter.py:232-236 | the URL, save path and save name of one row; no contract of its own, the save path's final component is stated by `Urls.TargetBasename` |
| Urls.TargetBasename | tixte_exporter.py:235-236 | the save path has the save name's final component as its own, so a save name without a separator is exactly the final component of its save path, whatever the output directory |
| Ledger.LoadDownloaded | tixte_exporter.py:50-62 | the loop builds exactly the key set of the non-blank lines; a missing ledger gives the empty set |
| Ledger.KeysOfMembers | tixte_exporter.py:55-61 | a path is loaded exactly when some non-blank line yields it as `join(output, basename(strip(line)))` |
| Ledger.SaveDownloaded | tixte_exporter.py:64-66 | the ledger (created if missing) gains the path as its last line and nothing else |
| Ledger.SaveAddsKey | tixte_exporter.py:64-66 | after one append, the loaded set is the old one plus the new line's key, if that line is not blank |
| Ledger.KeyShape | tixte_exporter.py:57-61 | every loaded key is `join(output, b)` for some `b` with no separator and no trailing white space |
| Ledger.LoadedKeysMonotone | tixte_exporter.py:64-66 | a ledger that was only appended to never loses a loaded key |
| Ledger.SavedIsFound | tixte_exporter.py:57-61 | a path saved under any earlier output directory, white space around it included, is found under any current one when the names match; the name must be a plain file name not ending in white space, and not starting with it when recorded without a directory |
| Ledger.NestedNeverFound | tixte_exporter.py:236-242 | a save path whose relative name (not starting with `/`) holds a separator is never in the loaded set, whatever the ledger says |
| Ledger.TrailingSpaceNeverFound | tixte_exporter.py:57-59 | a save path whose name ends in white space is never in the loaded set |
| Fetcher.DownloadFile | tixte_exporter.py:85-147 | the returned success flag, speed, attempts, sleeps and file agree with `Fetch`; every sleep is its backoff plus a draw in `[0, jitter]` |
| Fetcher.StreamBody | tixte_exporter.py:104-119 | the truncated file ends up holding the non-empty chunks in order; the speed is resampled at each non-empty chunk read at a positive time |
| Fetcher.FirstCompletedIs | tixte_exporter.py:93-126 | the attempt that ends the call is the first one that streams a 200 response to the end |
| Fetcher.FetchCharacterized | tixte_exporter.py:93-147 | success exactly when some allowed attempt completes; at most `max_retries + 1` attempts; `(False, 0)` with every attempt made on exhaustion; one sleep per failed attempt except the last |
| Fetcher.SuccessWritesFinalAttemptOnly | tixte_exporter.py:98-126 | on success the last attempt was a completed 200, no earlier attempt completed, and the file holds exactly that attempt's chunks |
| Fetcher.FetchSucceeds | tixte_exporter.py:126 | the call returns at the first completing attempt, with the file and speed of that attempt |
| Fetcher.FetchExhausts | tixte_exporter.py:145-147 | after every allowed attempt has failed, the call reports failure with speed 0 |
| Fetcher.SleptStep | tixte_exporter.py:139-143 | a failed attempt adds its backoff sleep unless it was the last allowed one |
| Fetcher.ScheduleAt | tixte_exporter.py:139-141 | the k-th sleep (counting from 0) is `base_delay * 2 ** (k + 1)` plus the k-th draw |
| Fetcher.BackoffBounds | tixte_exporter.py:139-143 | one sleep per failed attempt except the final one; `max_retries` sleeps after exhaustion; each sleep lies in `[base_delay * 2 ** (k + 1), that + jitter]` |
| Fetcher.ReplayFile | tixte_exporter.py:104-108 | the file is untouched unless some attempt got a 200, and is present once one did |
| Fetcher.ReplayLastOpener | tixte_exporter.py:104-108 | restart from zero: after any attempts, the file holds exactly the chunks of the last attempt that got a 200, never a mix of two attempts |
| Fetcher.FailureLeavesLastOpener | tixte_exporter.py:104-147 | a failed call leaves exactly the chunks of the last attempt that got a 200, whichever attempt that was |
| Fetcher.SpeedIgnoresPrior | tixte_exporter.py:110-113 | when the successful attempt sampled its speed at least once, the speed carried over from earlier attempts does not matter |
| Fetcher.StaleSpeedAfterRetry | tixte_exporter.py:87-126 | when the successful attempt never samples `final_speed`, the call reports the speed the earlier attempts left, for all inputs |
| Fetcher.StaleSpeedWitness | tixte_exporter.py:87-113 | a broken attempt's speed of 0.5 is reported after a retry that succeeds with an empty body |
| Fetcher.PartialFileSurvivesFailure | tixte_exporter.py:104-147 | for all inputs, when the final allowed attempt got a 200 and the call fails, it reports speed 0 and the file holds exactly the chunks that attempt wrote before its stream broke |
| Fetcher.PartialFileWitness | tixte_exporter.py:104-147 | on one concrete run, a single attempt broken after the chunk `[7]` fails with speed 0 and leaves `[7]` |
| Reporter.Recent | tixte_exporter.py:207-210 | the last `min(20, n)` entries of the history, as a suffix |
| Reporter.RecentAppend | tixte_exporter.py:207-210 | one more entry is appended, and the oldest is dropped when that makes more than 20 |
| Reporter.LogBuffer.constructor | tixte_exporter.py:202 | the buffer starts empty |
| Reporter.LogBuffer.Add | tixte_exporter.py:204-215 | returns `timestamp + " " + message`; the buffer stays the last 20 entries of the history, holds at most 20, and ends with the new entry |
| Driver.CheckSkips | tixte_exporter.py:241-268 | the skip decision is the first rule that holds, in the order ledger, output tree, local directory, dry run; the local probe is asked only after rules 1 and 2 fail and only when a directory is configured |
| Driver.DownloadRow | tixte_exporter.py:270-294 | the fetcher's file goes into the output tree, the ledger is appended on success only, the counter, message and sleeps follow the outcome |
| Driver.HandleRow | tixte_exporter.py:231-295 | one pass of the loop body moves the state exactly as `RowStep` does and adds one entry to the log buffer |
| Driver.RunExport | tixte_exporter.py:158-295 | the loop, after loading the ledger, ends in the state `Export` describes, with the log buffer holding its last 20 entries |
| Driver.SkipPrecedence | tixte_exporter.py:241-268 | for one row, each of the four skip outcomes holds exactly when its rule is the first to match; the probe is asked exactly when rules 1 and 2 fail and a directory is configured; exactly one counter moves unless the fetch failed; the fetcher is called exactly when no rule matched |
| Driver.RowEffects | tixte_exporter.py:285-294 | the ledger gains the save path exactly for a downloaded row; a skipped row leaves the output tree and the sleeps alone; files are never removed; a downloaded file is present |
| Driver.FailedPartialSkippedLater | tixte_exporter.py:104-134 | a failed row with an attempt that got a 200 is skipped as "exists in output" when it comes round again |
| Driver.CountsPartition | tixte_exporter.py:231-295 | every row ends in exactly one of the six dispositions |
| Driver.CountersBalance | tixte_exporter.py:194-199 | after the loop each counter equals the number of rows with its disposition, and the fetcher was called once per downloaded or failed row |
| Driver.SummaryAddsUp | tixte_exporter.py:194-199 | `downloaded_count` plus the four skip counters plus the failures equals `total_files` |
| Driver.LedgerAppendsOnSuccess | tixte_exporter.py:285-291 | the ledger after the loop is the old one followed by the save paths of the downloaded rows in order, one per counted download, and unchanged when nothing was downloaded |
| Driver.DryRunChangesNothing | tixte_exporter.py:262-268 | a dry run fetches nothing, writes no file, sleeps never, leaves the ledger alone and counts no download |
| Driver.NoProbeWithoutLocalDir | tixte_exporter.py:255-260 | without a truthy `local_check_dir` the probe is never consulted and its counter stays 0 |
| Driver.NothingFetchedWhenCovered | tixte_exporter.py:241-260 | a run over rows that a skip rule covers fetches nothing and changes neither the ledger nor the output tree |
| Driver.FirstRunCovers | tixte_exporter.py:241-291 | after a run, every row that neither failed nor was a dry-run skip is covered by a skip rule in the resulting state |
| Driver.SecondRunFetchesNothing | tixte_exporter.py:157-158 | when no row failed, a second run with the same settings and the same local directory, on the ledger and output tree the first left, fetches nothing and changes neither |

## Left out

- HTTP: `requests.get`, headers, timeouts and content length. An oracle
  outcome stands in for each attempt: an exception before the file is
  opened, or a status with its chunks and whether the stream completed.
- The real filesystem. The output tree is a map from paths to contents
  and the ledger a sequence of lines. `os.makedirs` and directories are
  not modelled, so a directory at a save path is outside the model. An
  empty output directory crashes `main` at startup (line 155); the model
  runs.
- Path aliasing. Skip rule 2 (`os.path.exists`) and the write treat two
  distinct path strings as two distinct files. `out/a.txt` and
  `out/./a.txt`, a doubled `/`, `..`, symbolic links and case-insensitive
  file systems name one file on disk but two keys in the model, so the
  model fetches a row the source skips as "exists in output".
- Line breaks inside ledger paths, and a ledger file whose last line has
  no terminator followed by an append.
- `file_exists_in_directory`: the recursive `glob` search is an abstract
  predicate on (directory, name), fixed for the length of a run. A
  download landing in the local directory during the run is not seen by it.
- Fetcher.DownloadFile: a negative requested sleep is recorded and the
  retries go on, while `time.sleep` raises `ValueError` at line 143 and
  the error ends the run. The same holds for the `OverflowError` of
  `base_delay * 2 ** attempt` once `attempt` reaches 1024. Delays are exact
  reals, not floats.
- Driver.DownloadRow: a negative pacing sleep `delay + uniform(0, jitter)`
  is recorded and the loop goes on, while `time.sleep` raises `ValueError`
  at line 294 and the run ends there.
- `time.time`, `time.strftime`, `time.sleep` and `random.uniform`. They are
  supplied as parameters: chunk clock readings, per-row timestamps, draws
  that lie in the range `random.uniform` gives, and a trace of requested
  sleeps.
- `human_readable_speed` is an abstract function from a speed to its
  text. Speeds are exact reals, not floats. The average-speed figures
  that go only to the detailed log are not computed.
- `log_to_file` and the detailed log file.
- The `rich` display: progress bars, the live table and console output.
- `argparse`, `load_config` and CSV reading. Their results are the inputs
  `Settings` and `Row`. Configuration values other than strings (a
  non-string `subdomain` or `local_check_dir`) and missing `Filename` or
  `Extension` columns are not modelled.
- `KeyboardInterrupt` handling, which is asynchronous cancellation. The
  summary table printed after the loop is left out too. Its numbers are
  the counters the model proves facts about.
- Where `add_log` is called: the loop body calls it once at its end
  rather than inside each branch. No state is observed between the two
  points, so what is logged and its order are the same.
