/**
 * The row loop of `main`: for each manifest row, in order, the skip rules
 * with first-match-wins precedence, then a call of the fetcher, the ledger
 * append on success, the six summary counters, the pacing sleep, and one
 * entry in the rolling log.
 */
module Driver {
  import opened Wrappers
  import opened Paths
  import opened Urls
  import opened Ledger
  import opened Fetcher
  import opened Reporter

  /** The command-line arguments and configuration values the loop reads. */
  datatype Settings = Settings(output: string, defaultSubdomain: Option<string>, localCheckDir: Option<string>,
                               dryRun: bool, maxRetries: int, baseDelay: real, jitter: real)

  /** What the world supplies while one row is handled: network outcomes, random draws, the log timestamp. */
  datatype RowEnv = RowEnv(outcomes: seq<Outcome>, retryDraws: seq<real>, pacingDraw: real, stamp: string)

  /** How a row ended; `Failed` is the one outcome with no counter of its own. */
  datatype Disposition = AlreadyLogged | ExistsInOutput | FoundLocally | DryRun | Downloaded | Failed

  /** `downloaded_count` and the four skip counters. */
  datatype Counters = Counters(downloaded: nat, skippedLogged: nat, skippedOutput: nat, skippedLocal: nat,
                               skippedDryRun: nat)

  /**
   * Everything the loop changes: counters, the ledger file, the files in the
   * output tree, how each row ended, the URLs handed to the fetcher, the names
   * the local-directory probe was asked about, every sleep requested, and every
   * entry ever added to the log buffer.
   */
  datatype State = State(counters: Counters, ledger: LedgerFile, disk: map<string, seq<byte>>,
                         dispositions: seq<Disposition>, fetched: seq<string>, probes: seq<string>,
                         sleeps: seq<real>, log: seq<string>)

  /** `if local_check_dir and ...`: the probe is consulted only for a truthy setting. */
  predicate LocalCheckConfigured(st: Settings) {
    Truthy(st.localCheckDir)
  }

  /** The oracles of one row are long enough and their draws lie in `random.uniform(0, jitter)`'s range. */
  predicate Fits(st: Settings, env: RowEnv) {
    && Supplied(env.outcomes, env.retryDraws, st.maxRetries)
    && (forall k :: 0 <= k < |env.retryDraws| ==> Drawn(st.jitter, env.retryDraws[k]))
    && Drawn(st.jitter, env.pacingDraw)
  }

  predicate EnvsFit(st: Settings, rows: seq<Row>, envs: seq<RowEnv>) {
    |envs| == |rows| && forall i :: 0 <= i < |envs| ==> Fits(st, envs[i])
  }

  /** The four skip rules, first match wins; `None` means the row is fetched. */
  function SkipRule(st: Settings, downloaded: set<string>, disk: map<string, seq<byte>>,
                    found: (string, string) -> bool, t: Target): Option<Disposition>
  {
    if t.savePath in downloaded then Some(AlreadyLogged)
    else if t.savePath in disk then Some(ExistsInOutput)
    else if LocalCheckConfigured(st) && found(st.localCheckDir.value, t.saveName) then Some(FoundLocally)
    else if st.dryRun then Some(DryRun)
    else None
  }

  /** The counter a disposition increments; `Failed` has none. */
  function CountOf(c: Counters, d: Disposition): nat {
    match d
    case AlreadyLogged => c.skippedLogged
    case ExistsInOutput => c.skippedOutput
    case FoundLocally => c.skippedLocal
    case DryRun => c.skippedDryRun
    case Downloaded => c.downloaded
    case Failed => 0
  }

  function Tally(c: Counters, d: Disposition): Counters {
    match d
    case AlreadyLogged => c.(skippedLogged := c.skippedLogged + 1)
    case ExistsInOutput => c.(skippedOutput := c.skippedOutput + 1)
    case FoundLocally => c.(skippedLocal := c.skippedLocal + 1)
    case DryRun => c.(skippedDryRun := c.skippedDryRun + 1)
    case Downloaded => c.(downloaded := c.downloaded + 1)
    case Failed => c
  }

  /** The text `add_log` is given for each disposition; `speedText` is the rendered download speed. */
  function Message(d: Disposition, saveName: string, speedText: string): string {
    match d
    case AlreadyLogged => "[yellow]⚠️ Skipped (already downloaded):[/yellow] " + saveName
    case ExistsInOutput => "[yellow]⚠️ Skipped (exists in output):[/yellow] " + saveName
    case FoundLocally => "[cyan]ℹ️ Skipped (found in local dir):[/cyan] " + saveName
    case DryRun => "[magenta]🚫 Dry run, skipping download:[/magenta] " + saveName
    case Downloaded => "[green]✅ Downloaded successfully:[/green] " + saveName + " @ " + speedText
    case Failed => "[red]❌ Failed after retries:[/red] " + saveName
  }

  /** A row that a skip rule matched: one counter, one disposition, one log entry, nothing else. */
  function Skipped(s: State, d: Disposition, saveName: string, stamp: string, probes: seq<string>): State {
    s.(counters := Tally(s.counters, d), dispositions := s.dispositions + [d], probes := probes,
       log := s.log + [Entry(stamp, Message(d, saveName, ""))])
  }

  /**
   * A row handed to `download_file`, which reported `r`: the file it left
   * behind is in the output tree, the ledger gains the save path only on
   * success, and the retry sleeps are followed by the pacing sleep.
   */
  function Fetched(st: Settings, showSpeed: real -> string, s: State, t: Target, env: RowEnv,
                   probes: seq<string>, r: FetchReport): State
  {
    var d := if r.ok then Downloaded else Failed;
    State(Tally(s.counters, d),
          if r.ok then SaveDownloaded(s.ledger, t.savePath) else s.ledger,
          if r.file.Some? then s.disk[t.savePath := r.file.value] else s.disk,
          s.dispositions + [d], s.fetched + [t.url], probes,
          s.sleeps + r.sleeps + [st.baseDelay + env.pacingDraw],
          s.log + [Entry(env.stamp, Message(d, t.saveName, showSpeed(r.speed)))])
  }

  /** One pass of the loop body, as the specification of `RunExport`. */
  function RowStep(st: Settings, downloaded: set<string>, found: (string, string) -> bool,
                   showSpeed: real -> string, row: Row, env: RowEnv, s: State): State
    requires Fits(st, env)
  {
    var t := TargetFor(row, st.output, st.defaultSubdomain);
    var probes := if t.savePath !in downloaded && t.savePath !in s.disk && LocalCheckConfigured(st)
                  then s.probes + [t.saveName] else s.probes;
    match SkipRule(st, downloaded, s.disk, found, t)
    case Some(d) => Skipped(s, d, t.saveName, env.stamp, probes)
    // The save path does not exist here, or rule 2 would have matched.
    case None => Fetched(st, showSpeed, s, t, env, probes,
                         Fetch(env.outcomes, st.maxRetries, st.baseDelay, env.retryDraws, None))
  }

  /** `RowStep` by cases of the skip rule, for callers that have the target and the probes at hand. */
  lemma RowStepCases(st: Settings, downloaded: set<string>, found: (string, string) -> bool,
                     showSpeed: real -> string, row: Row, env: RowEnv, s: State, t: Target, probes: seq<string>)
    requires Fits(st, env) && t == TargetFor(row, st.output, st.defaultSubdomain)
    requires probes == if t.savePath !in downloaded && t.savePath !in s.disk && LocalCheckConfigured(st)
                       then s.probes + [t.saveName] else s.probes
    ensures SkipRule(st, downloaded, s.disk, found, t).Some? ==>
              RowStep(st, downloaded, found, showSpeed, row, env, s)
              == Skipped(s, SkipRule(st, downloaded, s.disk, found, t).value, t.saveName, env.stamp, probes)
    ensures SkipRule(st, downloaded, s.disk, found, t).None? ==>
              RowStep(st, downloaded, found, showSpeed, row, env, s)
              == Fetched(st, showSpeed, s, t, env, probes,
                         Fetch(env.outcomes, st.maxRetries, st.baseDelay, env.retryDraws, None))
  {
  }

  /** The state before the first row: zero counters and the given ledger and output tree. */
  function Initial(ledger: LedgerFile, disk: map<string, seq<byte>>): State {
    State(Counters(0, 0, 0, 0, 0), ledger, disk, [], [], [], [], [])
  }

  /** The loop over `rows` against the ledger set `downloaded` loaded before it. */
  function Process(st: Settings, downloaded: set<string>, found: (string, string) -> bool,
                   showSpeed: real -> string, rows: seq<Row>, envs: seq<RowEnv>,
                   ledger: LedgerFile, disk: map<string, seq<byte>>): State
    requires EnvsFit(st, rows, envs)
  {
    if rows == [] then Initial(ledger, disk)
    else
      var n := |rows| - 1;
      RowStep(st, downloaded, found, showSpeed, rows[n], envs[n],
              Process(st, downloaded, found, showSpeed, rows[..n], envs[..n], ledger, disk))
  }

  /** A whole run: load the ledger against the output directory, then run the loop. */
  function Export(st: Settings, found: (string, string) -> bool, showSpeed: real -> string,
                  rows: seq<Row>, envs: seq<RowEnv>, ledger: LedgerFile, disk: map<string, seq<byte>>): State
    requires EnvsFit(st, rows, envs)
  {
    Process(st, LoadedKeys(ledger, st.output), found, showSpeed, rows, envs, ledger, disk)
  }

  /** How many rows ended with `d`. */
  function Count(ds: seq<Disposition>, d: Disposition): nat {
    if ds == [] then 0 else Count(ds[..|ds| - 1], d) + (if ds[|ds| - 1] == d then 1 else 0)
  }

  /**
   * The skip checks of the loop body, in the order `main` makes them; the
   * local-directory probe is asked about `saveName` only once rules 1 and 2
   * have not matched.
   */
  method CheckSkips(st: Settings, downloaded: set<string>, disk: map<string, seq<byte>>,
                    found: (string, string) -> bool, saveName: string, savePath: string)
    returns (rule: Option<Disposition>, probed: seq<string>)
    ensures rule == SkipRule(st, downloaded, disk, found, Target("", savePath, saveName))
    ensures probed == if savePath !in downloaded && savePath !in disk && LocalCheckConfigured(st)
                      then [saveName] else []
  {
    probed := [];
    if savePath in downloaded {
      return Some(AlreadyLogged), probed;
    }
    if savePath in disk {
      return Some(ExistsInOutput), probed;
    }
    if LocalCheckConfigured(st) {
      probed := [saveName];
      if found(st.localCheckDir.value, saveName) {
        return Some(FoundLocally), probed;
      }
    }
    if st.dryRun {
      return Some(DryRun), probed;
    }
    return None, probed;
  }

  /**
   * The download branch of the loop body: fetch `t.url` into `t.savePath`,
   * append to the ledger on success and sleep before the next row; `message`
   * is what is then logged.
   */
  method DownloadRow(st: Settings, showSpeed: real -> string, env: RowEnv, t: Target, s: State,
                     probes: seq<string>)
    returns (next: State, message: string)
    requires Fits(st, env)
    ensures next == Fetched(st, showSpeed, s, t, env, probes,
                            Fetch(env.outcomes, st.maxRetries, st.baseDelay, env.retryDraws, None))
    ensures next.log == s.log + [Entry(env.stamp, message)]
  {
    var ledger, disk := s.ledger, s.disk;
    var success, speed, attempts, retrySleeps, file :=
      DownloadFile(env.outcomes, st.maxRetries, st.baseDelay, st.jitter, env.retryDraws, None);
    if file.Some? {
      disk := disk[t.savePath := file.value];
    }
    var d := if success then Downloaded else Failed;
    if success {
      ledger := SaveDownloaded(ledger, t.savePath);
    }
    message := Message(d, t.saveName, showSpeed(speed));
    next := State(Tally(s.counters, d), ledger, disk, s.dispositions + [d], s.fetched + [t.url], probes,
                  s.sleeps + retrySleeps + [st.baseDelay + env.pacingDraw],
                  s.log + [Entry(env.stamp, message)]);
  }

  /**
   * One pass of the loop body of `main`, for the row `row`; the state's log
   * is the history of `logBuffer`.
   */
  method HandleRow(st: Settings, downloaded: set<string>, found: (string, string) -> bool,
                   showSpeed: real -> string, row: Row, env: RowEnv, logBuffer: LogBuffer, s: State)
    returns (next: State)
    requires Fits(st, env) && logBuffer.Valid() && s.log == logBuffer.history
    modifies logBuffer
    ensures logBuffer.Valid() && next.log == logBuffer.history
    ensures next == RowStep(st, downloaded, found, showSpeed, row, env, s)
  {
    var subdomain := ChooseSubdomain(row.subdomain, st.defaultSubdomain);
    var saveName := row.filename + "." + row.extension;
    var savePath := Join(st.output, saveName);
    var url := ConstructUrl(subdomain, row.filename, row.extension);
    var t := Target(url, savePath, saveName);
    assert t == TargetFor(row, st.output, st.defaultSubdomain);

    var rule, probed := CheckSkips(st, downloaded, s.disk, found, saveName, savePath);
    assert rule == SkipRule(st, downloaded, s.disk, found, t);
    var probes := s.probes + probed;
    RowStepCases(st, downloaded, found, showSpeed, row, env, s, t, probes);
    var message;
    if rule.Some? {
      message := Message(rule.value, saveName, "");
      next := Skipped(s, rule.value, saveName, env.stamp, probes);
    } else {
      next, message := DownloadRow(st, showSpeed, env, t, s, probes);
    }
    var entry := logBuffer.Add(env.stamp, message);
  }

  /** The main loop of `main`, from loading the ledger to the last row. */
  method RunExport(st: Settings, found: (string, string) -> bool, showSpeed: real -> string,
                   rows: seq<Row>, envs: seq<RowEnv>, ledger0: LedgerFile, disk0: map<string, seq<byte>>)
    returns (s: State, messages: seq<string>)
    requires EnvsFit(st, rows, envs)
    ensures s == Export(st, found, showSpeed, rows, envs, ledger0, disk0)
    ensures messages == Recent(s.log)
  {
    var downloaded := LoadDownloaded(ledger0, st.output);
    var logBuffer := new LogBuffer();
    s := Initial(ledger0, disk0);
    for i := 0 to |rows|
      invariant logBuffer.Valid() && s.log == logBuffer.history
      invariant s == Process(st, downloaded, found, showSpeed, rows[..i], envs[..i], ledger0, disk0)
    {
      assert rows[..i + 1][..i] == rows[..i] && envs[..i + 1][..i] == envs[..i];
      s := HandleRow(st, downloaded, found, showSpeed, rows[i], envs[i], logBuffer, s);
    }
    assert rows[..|rows|] == rows && envs[..|envs|] == envs;
    messages := logBuffer.messages;
  }

  /** The disposition of the row handled last. */
  function Latest(r: State): Disposition
    requires r.dispositions != []
  {
    r.dispositions[|r.dispositions| - 1]
  }

  /**
   * Skip precedence for one row: the four rules are tried in order and the
   * first that holds decides; the local-directory probe is asked only when a
   * local directory is configured and rules 1 and 2 did not match; exactly
   * one counter moves unless the fetch failed; and only a row that no rule
   * matched reaches the fetcher.
   */
  lemma SkipPrecedence(st: Settings, downloaded: set<string>, found: (string, string) -> bool,
                       showSpeed: real -> string, row: Row, env: RowEnv, s: State, t: Target, r: State)
    requires Fits(st, env) && t == TargetFor(row, st.output, st.defaultSubdomain)
    requires r == RowStep(st, downloaded, found, showSpeed, row, env, s)
    ensures |r.dispositions| == |s.dispositions| + 1 && r.dispositions[..|s.dispositions|] == s.dispositions
    ensures Latest(r) == AlreadyLogged <==> t.savePath in downloaded
    ensures Latest(r) == ExistsInOutput <==> t.savePath !in downloaded && t.savePath in s.disk
    ensures Latest(r) == FoundLocally <==>
              && t.savePath !in downloaded && t.savePath !in s.disk
              && LocalCheckConfigured(st) && found(st.localCheckDir.value, t.saveName)
    ensures Latest(r) == DryRun <==>
              && t.savePath !in downloaded && t.savePath !in s.disk
              && !(LocalCheckConfigured(st) && found(st.localCheckDir.value, t.saveName)) && st.dryRun
    ensures r.probes == if t.savePath !in downloaded && t.savePath !in s.disk && LocalCheckConfigured(st)
                        then s.probes + [t.saveName] else s.probes
    ensures r.counters == Tally(s.counters, Latest(r))
    ensures r.fetched == if Latest(r) in {Downloaded, Failed} then s.fetched + [t.url] else s.fetched
    ensures |r.log| == |s.log| + 1 && r.log[..|s.log|] == s.log
  {
    var probes := if t.savePath !in downloaded && t.savePath !in s.disk && LocalCheckConfigured(st)
                  then s.probes + [t.saveName] else s.probes;
    RowStepCases(st, downloaded, found, showSpeed, row, env, s, t, probes);
    match SkipRule(st, downloaded, s.disk, found, t)
    case Some(d) =>
      assert r == Skipped(s, d, t.saveName, env.stamp, probes);
      assert r.dispositions[..|s.dispositions|] == s.dispositions;
      assert r.log[..|s.log|] == s.log;
    case None =>
      var f := Fetch(env.outcomes, st.maxRetries, st.baseDelay, env.retryDraws, None);
      assert r == Fetched(st, showSpeed, s, t, env, probes, f);
      assert r.dispositions[..|s.dispositions|] == s.dispositions;
      assert r.log[..|s.log|] == s.log;
  }

  /**
   * What one row changes besides its counter: the ledger gains the save path
   * exactly when the row was downloaded; a skipped row leaves the output tree
   * and the sleeps alone; files are never removed; and a downloaded row's
   * file is present afterwards.
   */
  lemma RowEffects(st: Settings, downloaded: set<string>, found: (string, string) -> bool,
                   showSpeed: real -> string, row: Row, env: RowEnv, s: State, t: Target, r: State)
    requires Fits(st, env) && t == TargetFor(row, st.output, st.defaultSubdomain)
    requires r == RowStep(st, downloaded, found, showSpeed, row, env, s)
    ensures r.dispositions != []
    ensures r.ledger == if Latest(r) == Downloaded then SaveDownloaded(s.ledger, t.savePath) else s.ledger
    ensures Latest(r) !in {Downloaded, Failed} ==> r.disk == s.disk && r.sleeps == s.sleeps
    ensures s.disk.Keys <= r.disk.Keys
    ensures Latest(r) == Downloaded ==> t.savePath in r.disk
  {
    SuccessWritesFinalAttemptOnly(env.outcomes, st.maxRetries, st.baseDelay, env.retryDraws, None);
  }

  /**
   * A failed download is not retried later when any of its attempts got a 200:
   * the file it opened stays at the save path, so the next pass over the same
   * row skips it as already present in the output tree.
   */
  lemma FailedPartialSkippedLater(st: Settings, downloaded: set<string>, found: (string, string) -> bool,
                                  showSpeed: real -> string, row: Row, env: RowEnv, s: State,
                                  downloaded2: set<string>, env2: RowEnv)
    requires Fits(st, env) && Fits(st, env2)
    requires exists i :: 0 <= i < Budget(st.maxRetries) && Opens(env.outcomes[i])
    requires TargetFor(row, st.output, st.defaultSubdomain).savePath !in downloaded2
    ensures var r := RowStep(st, downloaded, found, showSpeed, row, env, s);
            Latest(r) == Failed ==> Latest(RowStep(st, downloaded2, found, showSpeed, row, env2, r)) == ExistsInOutput
  {
    var t := TargetFor(row, st.output, st.defaultSubdomain);
    var r := RowStep(st, downloaded, found, showSpeed, row, env, s);
    SkipPrecedence(st, downloaded, found, showSpeed, row, env, s, t, r);
    if Latest(r) == Failed {
      var probes := if t.savePath !in downloaded && t.savePath !in s.disk && LocalCheckConfigured(st)
                    then s.probes + [t.saveName] else s.probes;
      RowStepCases(st, downloaded, found, showSpeed, row, env, s, t, probes);
      var f := Fetch(env.outcomes, st.maxRetries, st.baseDelay, env.retryDraws, None);
      FetchCharacterized(env.outcomes, st.maxRetries, st.baseDelay, env.retryDraws, None);
      ReplayFile(env.outcomes, Budget(st.maxRetries), None);
      assert r == Fetched(st, showSpeed, s, t, env, probes, f);
      assert t.savePath in r.disk;
      SkipPrecedence(st, downloaded2, found, showSpeed, row, env2, r, t,
                     RowStep(st, downloaded2, found, showSpeed, row, env2, r));
    }
  }

  /** Exactly the counter of `d` moves, by one; a failure moves none. */
  lemma TallyMovesOne(c: Counters, d: Disposition)
    ensures forall e :: e != Failed ==> CountOf(Tally(c, d), e) == CountOf(c, e) + (if e == d then 1 else 0)
  {
  }

  /** The six outcomes partition the rows. */
  lemma {:induction false} CountsPartition(ds: seq<Disposition>)
    ensures Count(ds, AlreadyLogged) + Count(ds, ExistsInOutput) + Count(ds, FoundLocally) + Count(ds, DryRun)
            + Count(ds, Downloaded) + Count(ds, Failed) == |ds|
  {
    if ds != [] {
      CountsPartition(ds[..|ds| - 1]);
    }
  }

  /** No occurrence counted means no occurrence. */
  lemma {:induction false} CountZero(ds: seq<Disposition>, d: Disposition)
    ensures Count(ds, d) == 0 ==> forall i :: 0 <= i < |ds| ==> ds[i] != d
  {
    if ds != [] {
      var n := |ds| - 1;
      CountZero(ds[..n], d);
      if Count(ds, d) == 0 {
        forall i | 0 <= i < n ensures ds[i] != d {
          assert ds[..n][i] == ds[i];
        }
      }
    }
  }

  /**
   * What one row does to the state, as `SkipPrecedence` and `RowEffects`
   * state it, written over any pair of states so that the invariants below
   * can be carried across a row without unfolding the row's step.
   */
  predicate Advances(st: Settings, downloaded: set<string>, found: (string, string) -> bool,
                     s: State, t: Target, r: State)
  {
    && |r.dispositions| == |s.dispositions| + 1 && r.dispositions[..|s.dispositions|] == s.dispositions
    && (Latest(r) == AlreadyLogged <==> t.savePath in downloaded)
    && (Latest(r) == ExistsInOutput <==> t.savePath !in downloaded && t.savePath in s.disk)
    && (Latest(r) == FoundLocally <==>
          && t.savePath !in downloaded && t.savePath !in s.disk
          && LocalCheckConfigured(st) && found(st.localCheckDir.value, t.saveName))
    && (Latest(r) == DryRun <==>
          && t.savePath !in downloaded && t.savePath !in s.disk
          && !(LocalCheckConfigured(st) && found(st.localCheckDir.value, t.saveName)) && st.dryRun)
    && r.probes == (if t.savePath !in downloaded && t.savePath !in s.disk && LocalCheckConfigured(st)
                    then s.probes + [t.saveName] else s.probes)
    && r.counters == Tally(s.counters, Latest(r))
    && r.fetched == (if Latest(r) in {Downloaded, Failed} then s.fetched + [t.url] else s.fetched)
    && r.ledger == (if Latest(r) == Downloaded then SaveDownloaded(s.ledger, t.savePath) else s.ledger)
    && (Latest(r) !in {Downloaded, Failed} ==> r.disk == s.disk && r.sleeps == s.sleeps)
    && s.disk.Keys <= r.disk.Keys
    && (Latest(r) == Downloaded ==> t.savePath in r.disk)
  }

  /** Every row step advances the state as described. */
  lemma RowStepAdvances(st: Settings, downloaded: set<string>, found: (string, string) -> bool,
                        showSpeed: real -> string, row: Row, env: RowEnv, s: State)
    requires Fits(st, env)
    ensures Advances(st, downloaded, found, s, TargetFor(row, st.output, st.defaultSubdomain),
                     RowStep(st, downloaded, found, showSpeed, row, env, s))
  {
    var t := TargetFor(row, st.output, st.defaultSubdomain);
    var r := RowStep(st, downloaded, found, showSpeed, row, env, s);
    SkipPrecedence(st, downloaded, found, showSpeed, row, env, s, t, r);
    RowEffects(st, downloaded, found, showSpeed, row, env, s, t, r);
  }

  /** Each counter counts the rows with its disposition, and the fetcher was called once per unskipped row. */
  predicate Balanced(s: State) {
    && (forall d :: d != Failed ==> CountOf(s.counters, d) == Count(s.dispositions, d))
    && |s.fetched| == Count(s.dispositions, Downloaded) + Count(s.dispositions, Failed)
  }

  /** One row keeps the counters balanced. */
  lemma StepBalanced(st: Settings, downloaded: set<string>, found: (string, string) -> bool,
                     s: State, t: Target, r: State)
    requires Advances(st, downloaded, found, s, t, r)
    ensures |r.dispositions| == |s.dispositions| + 1 && (Balanced(s) ==> Balanced(r))
  {
    TallyMovesOne(s.counters, Latest(r));
    assert r.dispositions == s.dispositions + [Latest(r)];
  }

  /** After the loop one disposition is recorded per row and the counters are balanced. */
  lemma {:induction false} CountersBalance(st: Settings, downloaded: set<string>, found: (string, string) -> bool,
                                           showSpeed: real -> string, rows: seq<Row>, envs: seq<RowEnv>,
                                           ledger: LedgerFile, disk: map<string, seq<byte>>)
    requires EnvsFit(st, rows, envs)
    ensures var r := Process(st, downloaded, found, showSpeed, rows, envs, ledger, disk);
            |r.dispositions| == |rows| && Balanced(r)
  {
    if rows != [] {
      var n := |rows| - 1;
      var prev := Process(st, downloaded, found, showSpeed, rows[..n], envs[..n], ledger, disk);
      CountersBalance(st, downloaded, found, showSpeed, rows[..n], envs[..n], ledger, disk);
      RowStepAdvances(st, downloaded, found, showSpeed, rows[n], envs[n], prev);
      StepBalanced(st, downloaded, found, prev, TargetFor(rows[n], st.output, st.defaultSubdomain),
                   RowStep(st, downloaded, found, showSpeed, rows[n], envs[n], prev));
    }
  }

  /**
   * The summary adds up: `downloaded_count` plus the four skip counters plus
   * the rows whose download failed is the number of rows.
   */
  lemma SummaryAddsUp(st: Settings, downloaded: set<string>, found: (string, string) -> bool,
                      showSpeed: real -> string, rows: seq<Row>, envs: seq<RowEnv>,
                      ledger: LedgerFile, disk: map<string, seq<byte>>)
    requires EnvsFit(st, rows, envs)
    ensures var r := Process(st, downloaded, found, showSpeed, rows, envs, ledger, disk);
            var c := r.counters;
            c.downloaded + c.skippedLogged + c.skippedOutput + c.skippedLocal + c.skippedDryRun
            + Count(r.dispositions, Failed) == |rows|
  {
    var r := Process(st, downloaded, found, showSpeed, rows, envs, ledger, disk);
    CountersBalance(st, downloaded, found, showSpeed, rows, envs, ledger, disk);
    CountsPartition(r.dispositions);
    assert CountOf(r.counters, AlreadyLogged) == Count(r.dispositions, AlreadyLogged);
    assert CountOf(r.counters, ExistsInOutput) == Count(r.dispositions, ExistsInOutput);
    assert CountOf(r.counters, FoundLocally) == Count(r.dispositions, FoundLocally);
    assert CountOf(r.counters, DryRun) == Count(r.dispositions, DryRun);
    assert CountOf(r.counters, Downloaded) == Count(r.dispositions, Downloaded);
  }

  /** The save paths of the rows whose disposition is `Downloaded`, in row order. */
  function SavedPaths(st: Settings, rows: seq<Row>, ds: seq<Disposition>): seq<string>
    requires |ds| == |rows|
  {
    if rows == [] then []
    else
      var n := |rows| - 1;
      SavedPaths(st, rows[..n], ds[..n])
      + (if ds[n] == Downloaded then [TargetFor(rows[n], st.output, st.defaultSubdomain).savePath] else [])
  }

  /**
   * After the rows `done`, the ledger is the initial one followed by the save
   * paths of the downloaded rows, one per download counted, and untouched
   * while nothing was downloaded.
   */
  predicate LedgerTracks(st: Settings, done: seq<Row>, ledger: LedgerFile, s: State) {
    && |s.dispositions| == |done|
    && Lines(s.ledger) == Lines(ledger) + SavedPaths(st, done, s.dispositions)
    && |SavedPaths(st, done, s.dispositions)| == s.counters.downloaded
    && (s.counters.downloaded == 0 ==> s.ledger == ledger)
  }

  /** One row keeps the ledger in step with the downloads. */
  lemma StepLedger(st: Settings, downloaded: set<string>, found: (string, string) -> bool,
                   rows: seq<Row>, ledger: LedgerFile, s: State, t: Target, r: State)
    requires rows != [] && t == TargetFor(rows[|rows| - 1], st.output, st.defaultSubdomain)
    requires Advances(st, downloaded, found, s, t, r) && LedgerTracks(st, rows[..|rows| - 1], ledger, s)
    ensures LedgerTracks(st, rows, ledger, r)
  {
    var n := |rows| - 1;
    var ds := r.dispositions;
    assert ds[..n] == s.dispositions && ds[n] == Latest(r);
    var added := if ds[n] == Downloaded then [t.savePath] else [];
    assert SavedPaths(st, rows, ds) == SavedPaths(st, rows[..n], s.dispositions) + added;
    assert Lines(r.ledger) == Lines(s.ledger) + added;
    assert Lines(ledger) + SavedPaths(st, rows, ds)
           == (Lines(ledger) + SavedPaths(st, rows[..n], s.dispositions)) + added;
    assert r.counters.downloaded == s.counters.downloaded + |added|;
  }

  /**
   * The ledger is appended to once per successful download, in row order, and
   * at no other time; with no download the ledger file is untouched.
   */
  lemma {:induction false} LedgerAppendsOnSuccess(st: Settings, downloaded: set<string>,
                                                  found: (string, string) -> bool, showSpeed: real -> string,
                                                  rows: seq<Row>, envs: seq<RowEnv>,
                                                  ledger: LedgerFile, disk: map<string, seq<byte>>)
    requires EnvsFit(st, rows, envs)
    ensures LedgerTracks(st, rows, ledger, Process(st, downloaded, found, showSpeed, rows, envs, ledger, disk))
  {
    if rows != [] {
      var n := |rows| - 1;
      var prev := Process(st, downloaded, found, showSpeed, rows[..n], envs[..n], ledger, disk);
      LedgerAppendsOnSuccess(st, downloaded, found, showSpeed, rows[..n], envs[..n], ledger, disk);
      RowStepAdvances(st, downloaded, found, showSpeed, rows[n], envs[n], prev);
      StepLedger(st, downloaded, found, rows, ledger, prev, TargetFor(rows[n], st.output, st.defaultSubdomain),
                 RowStep(st, downloaded, found, showSpeed, rows[n], envs[n], prev));
    }
  }

  /** Nothing fetched, written, slept or appended, and no download counted or failed. */
  predicate Untouched(s: State, ledger: LedgerFile, disk: map<string, seq<byte>>) {
    && s.fetched == [] && s.ledger == ledger && s.disk == disk && s.sleeps == []
    && s.counters.downloaded == 0 && Count(s.dispositions, Failed) == 0
  }

  /** Some skip rule other than dry run holds for `row` against the ledger set and the paths present. */
  predicate Covered(st: Settings, downloaded: set<string>, present: set<string>, found: (string, string) -> bool,
                    row: Row)
  {
    var t := TargetFor(row, st.output, st.defaultSubdomain);
    t.savePath in downloaded || t.savePath in present
    || (LocalCheckConfigured(st) && found(st.localCheckDir.value, t.saveName))
  }

  /** A row that some skip rule matches changes nothing a download would. */
  lemma StepUntouched(st: Settings, downloaded: set<string>, found: (string, string) -> bool,
                      row: Row, s: State, t: Target, r: State, ledger: LedgerFile, disk: map<string, seq<byte>>)
    requires t == TargetFor(row, st.output, st.defaultSubdomain)
    requires Advances(st, downloaded, found, s, t, r) && Untouched(s, ledger, disk)
    requires st.dryRun || Covered(st, downloaded, s.disk.Keys, found, row)
    ensures Untouched(r, ledger, disk)
  {
    assert r.dispositions == s.dispositions + [Latest(r)];
  }

  /** A dry run fetches nothing, writes nothing, sleeps not at all and leaves the ledger alone. */
  lemma {:induction false} DryRunChangesNothing(st: Settings, downloaded: set<string>,
                                                found: (string, string) -> bool, showSpeed: real -> string,
                                                rows: seq<Row>, envs: seq<RowEnv>,
                                                ledger: LedgerFile, disk: map<string, seq<byte>>)
    requires EnvsFit(st, rows, envs)
    ensures st.dryRun ==> Untouched(Process(st, downloaded, found, showSpeed, rows, envs, ledger, disk), ledger, disk)
  {
    if rows != [] && st.dryRun {
      var n := |rows| - 1;
      var prev := Process(st, downloaded, found, showSpeed, rows[..n], envs[..n], ledger, disk);
      DryRunChangesNothing(st, downloaded, found, showSpeed, rows[..n], envs[..n], ledger, disk);
      RowStepAdvances(st, downloaded, found, showSpeed, rows[n], envs[n], prev);
      StepUntouched(st, downloaded, found, rows[n], prev, TargetFor(rows[n], st.output, st.defaultSubdomain),
                    RowStep(st, downloaded, found, showSpeed, rows[n], envs[n], prev), ledger, disk);
    }
  }

  /** A run over rows that are all covered fetches nothing and changes neither the ledger nor the output tree. */
  lemma {:induction false} NothingFetchedWhenCovered(st: Settings, downloaded: set<string>,
                                                     found: (string, string) -> bool, showSpeed: real -> string,
                                                     rows: seq<Row>, envs: seq<RowEnv>,
                                                     ledger: LedgerFile, disk: map<string, seq<byte>>)
    requires EnvsFit(st, rows, envs)
    requires forall i :: 0 <= i < |rows| ==> Covered(st, downloaded, disk.Keys, found, rows[i])
    ensures Untouched(Process(st, downloaded, found, showSpeed, rows, envs, ledger, disk), ledger, disk)
  {
    if rows != [] {
      var n := |rows| - 1;
      var prev := Process(st, downloaded, found, showSpeed, rows[..n], envs[..n], ledger, disk);
      assert forall i :: 0 <= i < n ==> rows[..n][i] == rows[i];
      NothingFetchedWhenCovered(st, downloaded, found, showSpeed, rows[..n], envs[..n], ledger, disk);
      RowStepAdvances(st, downloaded, found, showSpeed, rows[n], envs[n], prev);
      StepUntouched(st, downloaded, found, rows[n], prev, TargetFor(rows[n], st.output, st.defaultSubdomain),
                    RowStep(st, downloaded, found, showSpeed, rows[n], envs[n], prev), ledger, disk);
    }
  }

  /** One row without a configured local directory: no probe, no local skip. */
  lemma StepNoProbe(st: Settings, downloaded: set<string>, found: (string, string) -> bool,
                    s: State, t: Target, r: State)
    requires Advances(st, downloaded, found, s, t, r)
    requires !LocalCheckConfigured(st) && s.probes == [] && s.counters.skippedLocal == 0
    ensures r.probes == [] && r.counters.skippedLocal == 0
  {
    TallyMovesOne(s.counters, Latest(r));
    assert CountOf(r.counters, FoundLocally) == CountOf(s.counters, FoundLocally);
  }

  /** Without a configured local directory the probe is never asked and its counter stays zero. */
  lemma {:induction false} NoProbeWithoutLocalDir(st: Settings, downloaded: set<string>,
                                                  found: (string, string) -> bool, showSpeed: real -> string,
                                                  rows: seq<Row>, envs: seq<RowEnv>,
                                                  ledger: LedgerFile, disk: map<string, seq<byte>>)
    requires EnvsFit(st, rows, envs)
    ensures var r := Process(st, downloaded, found, showSpeed, rows, envs, ledger, disk);
            !LocalCheckConfigured(st) ==> r.probes == [] && r.counters.skippedLocal == 0
  {
    if rows != [] && !LocalCheckConfigured(st) {
      var n := |rows| - 1;
      var prev := Process(st, downloaded, found, showSpeed, rows[..n], envs[..n], ledger, disk);
      NoProbeWithoutLocalDir(st, downloaded, found, showSpeed, rows[..n], envs[..n], ledger, disk);
      RowStepAdvances(st, downloaded, found, showSpeed, rows[n], envs[n], prev);
      StepNoProbe(st, downloaded, found, prev, TargetFor(rows[n], st.output, st.defaultSubdomain),
                  RowStep(st, downloaded, found, showSpeed, rows[n], envs[n], prev));
    }
  }

  /** Covering survives a larger ledger set and more files present. */
  lemma CoveredMonotone(st: Settings, d1: set<string>, d2: set<string>, p1: set<string>, p2: set<string>,
                        found: (string, string) -> bool, row: Row)
    requires d1 <= d2 && p1 <= p2
    ensures Covered(st, d1, p1, found, row) ==> Covered(st, d2, p2, found, row)
  {
  }

  /** A row that neither failed nor was a dry-run skip is covered; a dry-run skip happens only in dry-run mode. */
  predicate RowCovered(st: Settings, downloaded: set<string>, found: (string, string) -> bool,
                       d: Disposition, present: set<string>, row: Row)
  {
    && (d == DryRun ==> st.dryRun)
    && (d !in {Failed, DryRun} ==> Covered(st, downloaded, present, found, row))
  }

  /** After the rows `done`, each of them is covered against the files now present. */
  predicate CoversDone(st: Settings, downloaded: set<string>, found: (string, string) -> bool,
                       done: seq<Row>, s: State)
  {
    && |s.dispositions| == |done|
    && forall i :: 0 <= i < |done| ==> RowCovered(st, downloaded, found, s.dispositions[i], s.disk.Keys, done[i])
  }

  /** One more row keeps every handled row covered. */
  lemma StepCovers(st: Settings, downloaded: set<string>, found: (string, string) -> bool,
                   rows: seq<Row>, s: State, t: Target, r: State)
    requires rows != [] && t == TargetFor(rows[|rows| - 1], st.output, st.defaultSubdomain)
    requires Advances(st, downloaded, found, s, t, r) && CoversDone(st, downloaded, found, rows[..|rows| - 1], s)
    ensures CoversDone(st, downloaded, found, rows, r)
  {
    var n := |rows| - 1;
    forall i | 0 <= i < n
      ensures RowCovered(st, downloaded, found, r.dispositions[i], r.disk.Keys, rows[i])
    {
      assert r.dispositions[i] == s.dispositions[i] && rows[i] == rows[..n][i];
      assert RowCovered(st, downloaded, found, s.dispositions[i], s.disk.Keys, rows[i]);
      CoveredMonotone(st, downloaded, downloaded, s.disk.Keys, r.disk.Keys, found, rows[i]);
    }
    assert r.dispositions[n] == Latest(r);
    if Latest(r) == ExistsInOutput {
      assert t.savePath in s.disk.Keys;
    }
    assert RowCovered(st, downloaded, found, r.dispositions[n], r.disk.Keys, rows[n]);
  }

  /**
   * After a run, every row that neither failed nor was a dry-run skip is
   * covered by a skip rule: it is in the ledger set loaded at the start, its
   * save path is in the output tree, or the local directory has it.
   */
  lemma {:induction false} FirstRunCovers(st: Settings, downloaded: set<string>, found: (string, string) -> bool,
                                          showSpeed: real -> string, rows: seq<Row>, envs: seq<RowEnv>,
                                          ledger: LedgerFile, disk: map<string, seq<byte>>)
    requires EnvsFit(st, rows, envs)
    ensures CoversDone(st, downloaded, found, rows, Process(st, downloaded, found, showSpeed, rows, envs, ledger, disk))
  {
    if rows != [] {
      var n := |rows| - 1;
      var prev := Process(st, downloaded, found, showSpeed, rows[..n], envs[..n], ledger, disk);
      FirstRunCovers(st, downloaded, found, showSpeed, rows[..n], envs[..n], ledger, disk);
      RowStepAdvances(st, downloaded, found, showSpeed, rows[n], envs[n], prev);
      StepCovers(st, downloaded, found, rows, prev, TargetFor(rows[n], st.output, st.defaultSubdomain),
                 RowStep(st, downloaded, found, showSpeed, rows[n], envs[n], prev));
    }
  }

  /**
   * Resumability: when no row of a run failed, running the same manifest again
   * with the same settings and the same local directory, on the ledger and
   * output tree the first run left, fetches nothing and leaves both as they
   * were, whatever the network does the second time.
   */
  lemma SecondRunFetchesNothing(st: Settings, found: (string, string) -> bool, showSpeed: real -> string,
                                rows: seq<Row>, envs1: seq<RowEnv>, envs2: seq<RowEnv>,
                                ledger: LedgerFile, disk: map<string, seq<byte>>)
    requires EnvsFit(st, rows, envs1) && EnvsFit(st, rows, envs2)
    requires Count(Export(st, found, showSpeed, rows, envs1, ledger, disk).dispositions, Failed) == 0
    ensures var r1 := Export(st, found, showSpeed, rows, envs1, ledger, disk);
            var r2 := Export(st, found, showSpeed, rows, envs2, r1.ledger, r1.disk);
            r2.fetched == [] && r2.counters.downloaded == 0 && r2.ledger == r1.ledger && r2.disk == r1.disk
  {
    var before := LoadedKeys(ledger, st.output);
    var r1 := Export(st, found, showSpeed, rows, envs1, ledger, disk);
    var after := LoadedKeys(r1.ledger, st.output);
    if st.dryRun {
      DryRunChangesNothing(st, after, found, showSpeed, rows, envs2, r1.ledger, r1.disk);
    } else {
      FirstRunCovers(st, before, found, showSpeed, rows, envs1, ledger, disk);
      CountZero(r1.dispositions, Failed);
      LedgerAppendsOnSuccess(st, before, found, showSpeed, rows, envs1, ledger, disk);
      assert Lines(r1.ledger)[..|Lines(ledger)|] == Lines(ledger);
      LoadedKeysMonotone(ledger, r1.ledger, st.output);
      forall i | 0 <= i < |rows| ensures Covered(st, after, r1.disk.Keys, found, rows[i]) {
        assert RowCovered(st, before, found, r1.dispositions[i], r1.disk.Keys, rows[i]);
        CoveredMonotone(st, before, after, r1.disk.Keys, r1.disk.Keys, found, rows[i]);
      }
      NothingFetchedWhenCovered(st, after, found, showSpeed, rows, envs2, r1.ledger, r1.disk);
    }
  }
}
