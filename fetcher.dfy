/**
 * `download_file`: one file transfer with bounded retries and exponential
 * backoff. The network is an oracle sequence of attempt outcomes, the clock
 * a reading carried by each chunk, `random.uniform(0, jitter)` a sequence of
 * draws, and `time.sleep` a trace of the delays asked for.
 */
module Fetcher {
  import opened Wrappers

  newtype byte = b: int | 0 <= b < 256

  /** One piece of the streamed body and the seconds elapsed since the attempt started, read right after writing it. */
  datatype Chunk = Chunk(data: seq<byte>, elapsed: real)

  /**
   * What one attempt meets. `Raised`: an exception before the file is opened
   * (connection error, timeout, unreadable content length). `Response`: the
   * server answered with `status`; for 200 the body arrives as `chunks`, and
   * `completes` is false when an exception interrupts the stream after them.
   */
  datatype Outcome = Raised | Response(status: int, chunks: seq<Chunk>, completes: bool)

  /** The attempt reached the `status_code == 200` branch and opened the file for writing. */
  predicate Opens(o: Outcome) {
    o.Response? && o.status == 200
  }

  /** The attempt streamed its whole body: the only way `download_file` returns success. */
  predicate Completes(o: Outcome) {
    Opens(o) && o.completes
  }

  /** The bytes written by streaming `cs` into a freshly truncated file, empty chunks skipped. */
  function Written(cs: seq<Chunk>): seq<byte> {
    if cs == [] then [] else Written(cs[..|cs| - 1]) + cs[|cs| - 1].data
  }

  /** `final_speed` after streaming `cs`: bytes so far over elapsed time, sampled at each non-empty chunk read at a positive time. */
  function SpeedOver(cs: seq<Chunk>, prior: real): real {
    if cs == [] then prior
    else
      var c := cs[|cs| - 1];
      if c.data != [] && c.elapsed > 0.0 then (|Written(cs)| as real) / c.elapsed
      else SpeedOver(cs[..|cs| - 1], prior)
  }

  /** The number of attempts `while attempt <= max_retries` allows. */
  function Budget(maxRetries: int): nat {
    if maxRetries < 0 then 0 else maxRetries + 1
  }

  function Pow2(k: nat): (r: nat)
    ensures r >= 1
  {
    if k == 0 then 1 else 2 * Pow2(k - 1)
  }

  /** `base_delay * 2 ** attempt`, the delay before jitter after failed attempt number `k`. */
  function Backoff(baseDelay: real, k: nat): real {
    baseDelay * (Pow2(k) as real)
  }

  /** `d` lies where `random.uniform(0, jitter)` puts its result. */
  predicate Drawn(jitter: real, d: real) {
    if jitter >= 0.0 then 0.0 <= d <= jitter else jitter <= d <= 0.0
  }

  /** The oracles hold an outcome for every allowed attempt and a draw for every possible retry. */
  predicate Supplied(outcomes: seq<Outcome>, draws: seq<real>, maxRetries: int) {
    |outcomes| >= Budget(maxRetries) && |draws| >= maxRetries
  }

  /** The sleeps after the first `n` failed attempts: `Backoff(k) + draws[k - 1]` for k = 1..n. */
  function Schedule(baseDelay: real, draws: seq<real>, n: nat): (s: seq<real>)
    requires n <= |draws|
    ensures |s| == n
  {
    if n == 0 then [] else Schedule(baseDelay, draws, n - 1) + [Backoff(baseDelay, n) + draws[n - 1]]
  }

  /** How the file and `final_speed` stand after one attempt: a 200 truncates and rewrites; anything else leaves them. */
  datatype AttemptResult = AttemptResult(done: bool, file: Option<seq<byte>>, speed: real)

  function RunAttempt(o: Outcome, file: Option<seq<byte>>, speed: real): AttemptResult {
    if Opens(o) then AttemptResult(o.completes, Some(Written(o.chunks)), SpeedOver(o.chunks, speed))
    else AttemptResult(false, file, speed)
  }

  /** The file and speed after the first `n` attempts, whatever their outcomes. */
  function Replay(outcomes: seq<Outcome>, n: nat, file: Option<seq<byte>>): AttemptResult
    requires n <= |outcomes|
  {
    if n == 0 then AttemptResult(false, file, 0.0)
    else
      var r := Replay(outcomes, n - 1, file);
      RunAttempt(outcomes[n - 1], r.file, r.speed)
  }

  /** What a call returns, with the attempts made, the sleeps asked for and the file left at `save_path`. */
  datatype FetchReport = FetchReport(ok: bool, speed: real, attempts: nat, sleeps: seq<real>, file: Option<seq<byte>>)

  /** Index of the first completing attempt among the first `n`, or `n` if none completes. */
  function FirstCompleted(outcomes: seq<Outcome>, n: nat): (f: nat)
    requires n <= |outcomes|
    ensures f <= n
    ensures f < n ==> Completes(outcomes[f])
    ensures forall i :: 0 <= i < f ==> !Completes(outcomes[i])
  {
    if n == 0 then 0
    else
      var f := FirstCompleted(outcomes, n - 1);
      if f < n - 1 then f else if Completes(outcomes[n - 1]) then n - 1 else n
  }

  /** The sleeps taken once `attempt` attempts have failed: one after each, except after the last allowed one. */
  function Slept(attempt: nat, maxRetries: int): nat {
    if attempt as int <= maxRetries then attempt else if maxRetries < 0 then 0 else maxRetries
  }

  /**
   * `download_file(...)` on the given oracles, starting from the file `file`
   * at `save_path`: the attempts run until the first one that streams a 200
   * response to the end, or until the budget is spent; every failed attempt
   * but the last allowed one is followed by its backoff sleep.
   */
  function Fetch(outcomes: seq<Outcome>, maxRetries: int, baseDelay: real, draws: seq<real>,
                 file: Option<seq<byte>>): FetchReport
    requires Supplied(outcomes, draws, maxRetries)
  {
    var n := Budget(maxRetries);
    var f := FirstCompleted(outcomes, n);
    if f < n then
      var a := Replay(outcomes, f + 1, file);
      FetchReport(true, a.speed, f + 1, Schedule(baseDelay, draws, f), a.file)
    else
      FetchReport(false, 0.0, n, Schedule(baseDelay, draws, if n == 0 then 0 else n - 1), Replay(outcomes, n, file).file)
  }

  /** `FirstCompleted` is the least completing index. */
  lemma FirstCompletedIs(outcomes: seq<Outcome>, n: nat, f: nat)
    requires f <= n <= |outcomes|
    requires f < n ==> Completes(outcomes[f])
    requires forall i :: 0 <= i < f ==> !Completes(outcomes[i])
    ensures FirstCompleted(outcomes, n) == f
  {
  }

  /**
   * What `download_file` promises: success exactly when some allowed attempt
   * streams a 200 response to the end; at most `max_retries + 1` attempts;
   * `(False, 0)` after all of them, with every one of them made; one backoff
   * sleep after every failed attempt but the last allowed one.
   */
  lemma FetchCharacterized(outcomes: seq<Outcome>, maxRetries: int, baseDelay: real, draws: seq<real>,
                           file: Option<seq<byte>>)
    requires Supplied(outcomes, draws, maxRetries)
    ensures var r := Fetch(outcomes, maxRetries, baseDelay, draws, file);
            && (r.ok <==> exists i :: 0 <= i < Budget(maxRetries) && Completes(outcomes[i]))
            && r.attempts <= Budget(maxRetries)
            && (!r.ok ==> r.attempts == Budget(maxRetries) && r.speed == 0.0)
            && |r.sleeps| == (if r.attempts == 0 then 0 else r.attempts - 1)
  {
    var n := Budget(maxRetries);
    var f := FirstCompleted(outcomes, n);
    if f == n {
      assert forall i :: 0 <= i < n ==> !Completes(outcomes[i]);
    }
  }

  /**
   * Restart from byte zero: a successful call leaves exactly the bytes of the
   * successful attempt's chunks, nothing of any earlier attempt, and only a
   * 200 response that streamed to the end can be that attempt.
   */
  lemma SuccessWritesFinalAttemptOnly(outcomes: seq<Outcome>, maxRetries: int, baseDelay: real, draws: seq<real>,
                                      file: Option<seq<byte>>)
    requires Supplied(outcomes, draws, maxRetries)
    ensures var r := Fetch(outcomes, maxRetries, baseDelay, draws, file);
            r.ok ==> 1 <= r.attempts <= |outcomes| && Completes(outcomes[r.attempts - 1])
                     && r.file == Some(Written(outcomes[r.attempts - 1].chunks))
                     && forall i :: 0 <= i < r.attempts - 1 ==> !Completes(outcomes[i])
  {
    FetchCharacterized(outcomes, maxRetries, baseDelay, draws, file);
  }

  /** The k-th sleep (0-based) is `base_delay * 2 ** (k + 1)` plus the k-th draw. */
  lemma {:induction false} ScheduleAt(baseDelay: real, draws: seq<real>, n: nat, k: nat)
    requires n <= |draws| && k < n
    ensures Schedule(baseDelay, draws, n)[k] == Backoff(baseDelay, k + 1) + draws[k]
  {
    if k < n - 1 {
      ScheduleAt(baseDelay, draws, n - 1, k);
    }
  }

  /**
   * Backoff: the sleeps are one per failed attempt except the final one, the
   * k-th lies in `[base_delay * 2 ** (k + 1), base_delay * 2 ** (k + 1) + jitter]`,
   * and after exhaustion exactly `max_retries` sleeps were taken.
   */
  lemma BackoffBounds(outcomes: seq<Outcome>, maxRetries: int, baseDelay: real, jitter: real, draws: seq<real>,
                      file: Option<seq<byte>>)
    requires Supplied(outcomes, draws, maxRetries)
    requires forall k :: 0 <= k < |draws| ==> Drawn(jitter, draws[k])
    ensures var r := Fetch(outcomes, maxRetries, baseDelay, draws, file);
            && |r.sleeps| == (if r.attempts == 0 then 0 else r.attempts - 1)
            && (!r.ok && maxRetries >= 0 ==> |r.sleeps| == maxRetries)
            && forall k :: 0 <= k < |r.sleeps| ==> Drawn(jitter, r.sleeps[k] - Backoff(baseDelay, k + 1))
  {
    var r := Fetch(outcomes, maxRetries, baseDelay, draws, file);
    FetchCharacterized(outcomes, maxRetries, baseDelay, draws, file);
    var m := if r.attempts == 0 then 0 else r.attempts - 1;
    forall k | 0 <= k < |r.sleeps| ensures Drawn(jitter, r.sleeps[k] - Backoff(baseDelay, k + 1)) {
      ScheduleAt(baseDelay, draws, m, k);
    }
  }

  /** A call never opens the file unless some attempt got a 200, and once one did the file is present. */
  lemma {:induction false} ReplayFile(outcomes: seq<Outcome>, n: nat, file: Option<seq<byte>>)
    requires n <= |outcomes|
    ensures (forall i :: 0 <= i < n ==> !Opens(outcomes[i])) ==> Replay(outcomes, n, file).file == file
    ensures (exists i :: 0 <= i < n && Opens(outcomes[i])) ==> Replay(outcomes, n, file).file.Some?
  {
    if n > 0 {
      ReplayFile(outcomes, n - 1, file);
      if exists i :: 0 <= i < n && Opens(outcomes[i]) {
        if !Opens(outcomes[n - 1]) {
          var i :| 0 <= i < n && Opens(outcomes[i]);
          assert i < n - 1;
        }
      }
    }
  }

  /**
   * Restart from byte zero, for any sequence of attempts: the file holds exactly
   * what the last attempt that opened it wrote, never a mix of two attempts.
   */
  lemma {:induction false} ReplayLastOpener(outcomes: seq<Outcome>, n: nat, file: Option<seq<byte>>, j: nat)
    requires j < n <= |outcomes| && Opens(outcomes[j])
    requires forall i :: j < i < n ==> !Opens(outcomes[i])
    ensures Replay(outcomes, n, file).file == Some(Written(outcomes[j].chunks))
  {
    if n - 1 > j {
      ReplayLastOpener(outcomes, n - 1, file, j);
    }
  }

  /**
   * A failed call leaves at `save_path` exactly the chunks of the last attempt
   * that got a 200, whichever attempt that was.
   */
  lemma FailureLeavesLastOpener(outcomes: seq<Outcome>, maxRetries: int, baseDelay: real, draws: seq<real>,
                                file: Option<seq<byte>>, j: nat)
    requires Supplied(outcomes, draws, maxRetries) && j < Budget(maxRetries) && Opens(outcomes[j])
    requires forall i :: j < i < Budget(maxRetries) ==> !Opens(outcomes[i])
    ensures var r := Fetch(outcomes, maxRetries, baseDelay, draws, file);
            !r.ok ==> r.file == Some(Written(outcomes[j].chunks))
  {
    FetchCharacterized(outcomes, maxRetries, baseDelay, draws, file);
    ReplayLastOpener(outcomes, Budget(maxRetries), file, j);
  }

  /** When the successful attempt sampled its speed at least once, earlier attempts do not affect it. */
  lemma {:induction false} SpeedIgnoresPrior(cs: seq<Chunk>, p: real, q: real)
    requires exists i :: 0 <= i < |cs| && cs[i].data != [] && cs[i].elapsed > 0.0
    ensures SpeedOver(cs, p) == SpeedOver(cs, q)
  {
    var c := cs[|cs| - 1];
    if !(c.data != [] && c.elapsed > 0.0) {
      var i :| 0 <= i < |cs| && cs[i].data != [] && cs[i].elapsed > 0.0;
      assert i < |cs| - 1;
      assert cs[..|cs| - 1][i] == cs[i];
      SpeedIgnoresPrior(cs[..|cs| - 1], p, q);
    }
  }

  /** No chunk of `cs` is non-empty and read at a positive time, so `final_speed` is never resampled. */
  predicate Unsampled(cs: seq<Chunk>) {
    forall i :: 0 <= i < |cs| ==> cs[i].data == [] || cs[i].elapsed <= 0.0
  }

  /** Streaming chunks that never sample the speed leaves `final_speed` as it was. */
  lemma {:induction false} SpeedUnsampled(cs: seq<Chunk>, p: real)
    requires Unsampled(cs)
    ensures SpeedOver(cs, p) == p
  {
    if cs != [] {
      var init := cs[..|cs| - 1];
      assert forall i :: 0 <= i < |init| ==> init[i] == cs[i];
      SpeedUnsampled(init, p);
    }
  }

  /**
   * A stale speed: when the successful attempt never samples `final_speed`,
   * the call reports the speed left by the attempts before it (0 only when
   * none of them sampled one either).
   */
  lemma StaleSpeedAfterRetry(outcomes: seq<Outcome>, maxRetries: int, baseDelay: real, draws: seq<real>,
                             file: Option<seq<byte>>)
    requires Supplied(outcomes, draws, maxRetries)
    ensures var r := Fetch(outcomes, maxRetries, baseDelay, draws, file);
            r.ok && outcomes[r.attempts - 1].Response? && Unsampled(outcomes[r.attempts - 1].chunks)
            ==> r.speed == Replay(outcomes, r.attempts - 1, file).speed
  {
    var r := Fetch(outcomes, maxRetries, baseDelay, draws, file);
    if r.ok && outcomes[r.attempts - 1].Response? && Unsampled(outcomes[r.attempts - 1].chunks) {
      var f := r.attempts - 1;
      SpeedUnsampled(outcomes[f].chunks, Replay(outcomes, f, file).speed);
    }
  }

  /**
   * A witness of the stale speed: a stream breaks after one timed chunk and the
   * retry then succeeds with an empty body; the reported speed is the broken attempt's.
   */
  lemma StaleSpeedWitness()
    ensures var outcomes := [Response(200, [Chunk([7], 2.0)], false), Response(200, [], true)];
            var r := Fetch(outcomes, 1, 1.0, [0.0], None);
            r.ok && r.attempts == 2 && r.file == Some([]) && r.speed == 0.5
  {
    var outcomes := [Response(200, [Chunk([7], 2.0)], false), Response(200, [], true)];
    var cs := [Chunk([7 as byte], 2.0)];
    assert cs[..0] == [];
    assert Written(cs) == [7];
    assert SpeedOver(cs, 0.0) == 0.5;
  }

  /**
   * A stream that breaks on the final allowed attempt leaves behind what it
   * wrote before breaking, though the call fails with speed 0.
   */
  lemma PartialFileSurvivesFailure(outcomes: seq<Outcome>, maxRetries: int, baseDelay: real, draws: seq<real>,
                                   file: Option<seq<byte>>)
    requires Supplied(outcomes, draws, maxRetries) && maxRetries >= 0 && Opens(outcomes[maxRetries])
    ensures var r := Fetch(outcomes, maxRetries, baseDelay, draws, file);
            !r.ok ==> r.speed == 0.0 && r.file == Some(Written(outcomes[maxRetries].chunks))
  {
    FetchCharacterized(outcomes, maxRetries, baseDelay, draws, file);
  }

  /** A witness: one attempt whose stream breaks after the chunk `[7]` leaves `[7]` behind. */
  lemma PartialFileWitness()
    ensures var r := Fetch([Response(200, [Chunk([7], 1.0)], false)], 0, 1.0, [], None);
            !r.ok && r.speed == 0.0 && r.file == Some([7])
  {
    var cs := [Chunk([7 as byte], 1.0)];
    assert cs[..0] == [];
    assert Written(cs) == [7];
  }

  /** One more failed attempt adds its backoff sleep, unless it was the last allowed one. */
  lemma SleptStep(maxRetries: int, baseDelay: real, draws: seq<real>, attempt: nat, sleeps: seq<real>)
    requires attempt as int <= maxRetries && maxRetries <= |draws|
    requires sleeps == Schedule(baseDelay, draws, Slept(attempt, maxRetries))
    ensures (if attempt + 1 <= maxRetries then sleeps + [Backoff(baseDelay, attempt + 1) + draws[attempt]] else sleeps)
            == Schedule(baseDelay, draws, Slept(attempt + 1, maxRetries))
  {
  }

  /** The call ends with the first completing attempt. */
  lemma FetchSucceeds(outcomes: seq<Outcome>, maxRetries: int, baseDelay: real, draws: seq<real>,
                      file: Option<seq<byte>>, attempt: nat)
    requires Supplied(outcomes, draws, maxRetries) && attempt as int <= maxRetries
    requires forall i :: 0 <= i < attempt ==> !Completes(outcomes[i])
    requires Completes(outcomes[attempt])
    ensures var a := Replay(outcomes, attempt + 1, file);
            Fetch(outcomes, maxRetries, baseDelay, draws, file)
            == FetchReport(true, a.speed, attempt + 1, Schedule(baseDelay, draws, Slept(attempt, maxRetries)), a.file)
  {
    FirstCompletedIs(outcomes, Budget(maxRetries), attempt);
  }

  /** The call ends after every allowed attempt failed. */
  lemma FetchExhausts(outcomes: seq<Outcome>, maxRetries: int, baseDelay: real, draws: seq<real>,
                      file: Option<seq<byte>>, attempt: nat)
    requires Supplied(outcomes, draws, maxRetries) && maxRetries < attempt as int && attempt <= Budget(maxRetries)
    requires forall i :: 0 <= i < attempt ==> !Completes(outcomes[i])
    ensures Fetch(outcomes, maxRetries, baseDelay, draws, file)
            == FetchReport(false, 0.0, attempt, Schedule(baseDelay, draws, Slept(attempt, maxRetries)),
                           Replay(outcomes, attempt, file).file)
  {
    FirstCompletedIs(outcomes, Budget(maxRetries), attempt);
  }

  /**
   * The body of a 200 response streamed into the freshly truncated file:
   * non-empty chunks are appended, and `final_speed` is resampled after each
   * one read at a positive elapsed time.
   */
  method StreamBody(chunks: seq<Chunk>, speedBefore: real) returns (written: seq<byte>, finalSpeed: real)
    ensures written == Written(chunks) && finalSpeed == SpeedOver(chunks, speedBefore)
  {
    var bytesDownloaded := 0;
    written := [];
    finalSpeed := speedBefore;
    for j := 0 to |chunks|
      invariant written == Written(chunks[..j])
      invariant bytesDownloaded == |written|
      invariant finalSpeed == SpeedOver(chunks[..j], speedBefore)
    {
      assert chunks[..j + 1][..j] == chunks[..j];
      var chunk := chunks[j];
      assert Written(chunks[..j + 1]) == Written(chunks[..j]) + chunk.data;
      if chunk.data == [] {
        assert Written(chunks[..j]) + chunk.data == Written(chunks[..j]);
        continue;
      }
      written := written + chunk.data;
      bytesDownloaded := bytesDownloaded + |chunk.data|;
      var elapsed := chunk.elapsed;
      if elapsed > 0.0 {
        finalSpeed := (bytesDownloaded as real) / elapsed;
      }
    }
    assert chunks[..|chunks|] == chunks;
  }

  /**
   * `download_file`: at most `max_retries + 1` attempts; a 200 response is
   * streamed chunk by chunk into the truncated file; anything else, or a
   * broken stream, falls through to an exponential backoff sleep.
   */
  method DownloadFile(outcomes: seq<Outcome>, maxRetries: int, baseDelay: real, jitter: real, draws: seq<real>,
                      initial: Option<seq<byte>>)
    returns (success: bool, finalSpeed: real, attempts: nat, sleeps: seq<real>, file: Option<seq<byte>>)
    requires Supplied(outcomes, draws, maxRetries)
    requires forall k :: 0 <= k < |draws| ==> Drawn(jitter, draws[k])
    ensures FetchReport(success, finalSpeed, attempts, sleeps, file) == Fetch(outcomes, maxRetries, baseDelay, draws, initial)
    ensures forall k :: 0 <= k < |sleeps| ==> Drawn(jitter, sleeps[k] - Backoff(baseDelay, k + 1))
  {
    var attempt: nat := 0;
    finalSpeed := 0.0;
    sleeps := [];
    file := initial;
    while attempt as int <= maxRetries
      invariant attempt <= Budget(maxRetries)
      invariant forall i :: 0 <= i < attempt ==> !Completes(outcomes[i])
      invariant sleeps == Schedule(baseDelay, draws, Slept(attempt, maxRetries))
      invariant file == Replay(outcomes, attempt, initial).file && finalSpeed == Replay(outcomes, attempt, initial).speed
      decreases maxRetries - attempt
    {
      ghost var next := RunAttempt(outcomes[attempt], file, finalSpeed);
      assert next == Replay(outcomes, attempt + 1, initial);
      var outcome := outcomes[attempt];
      if outcome.Response? && outcome.status == 200 {
        var written, speed := StreamBody(outcome.chunks, finalSpeed);
        file, finalSpeed := Some(written), speed;
        if outcome.completes {
          success, attempts := true, attempt + 1;
          FetchSucceeds(outcomes, maxRetries, baseDelay, draws, initial, attempt);
          BackoffBounds(outcomes, maxRetries, baseDelay, jitter, draws, initial);
          return;
        }
      }
      assert !Completes(outcomes[attempt]) && file == next.file && finalSpeed == next.speed;
      SleptStep(maxRetries, baseDelay, draws, attempt, sleeps);
      attempt := attempt + 1;
      if attempt as int <= maxRetries {
        var sleepTime := Backoff(baseDelay, attempt) + draws[attempt - 1];
        sleeps := sleeps + [sleepTime];
      }
    }
    success, finalSpeed, attempts := false, 0.0, attempt;
    FetchExhausts(outcomes, maxRetries, baseDelay, draws, initial, attempt);
    BackoffBounds(outcomes, maxRetries, baseDelay, jitter, draws, initial);
  }
}
