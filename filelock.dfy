/**
 * `lock_file`: the absoluteness guard, slash collapsing, the lock request and the
 * bounded retry loop. Each iteration of the loop (reading the configuration,
 * logging in and sending the lock request) ends in one of three outcomes, which
 * the model receives as an input sequence instead of contacting the cluster.
 */
module FileLock {
  import opened Paths

  /** `max_retries` */
  const MaxRetries: nat := 3
  /** `timedelta(days=1)` in seconds */
  const OneDaySeconds: nat := 86400
  const MicrosPerSecond: nat := 1000000

  /** How one iteration of the retry loop ends. */
  datatype Outcome =
    | Success       // the lock call returned
    | RequestError  // a requests.exceptions.RequestException
    | OtherError    // any other exception

  /** The arguments of one `fs.set_file_lock` call. */
  datatype LockRequest = LockRequest(path: string, retentionSeconds: nat, legalHold: bool)

  /** What `lock_file` last reports before returning. */
  datatype Ending =
    | NotAbsolute        // "Provided path is not absolute"
    | Locked             // "Successfully locked file"
    | UnexpectedError    // "Unexpected error when locking file"
    | MaxRetriesReached  // "Max retries reached"

  /**
   * One run of `lock_file`: how it ended, the request each loop iteration tried
   * to send, and the final value of the `attempt` counter.
   */
  datatype LockRun = LockRun(ending: Ending, tries: seq<LockRequest>, attempt: nat)

  function Min(a: int, b: int): int {
    if a <= b then a else b
  }

  /**
   * The retention deadline, in whole seconds since the epoch, for a call made at
   * `nowMicros` microseconds since the epoch (UTC): one day later with the
   * microseconds dropped.
   */
  function RetentionDeadline(nowMicros: nat): (r: nat)
    ensures r * MicrosPerSecond <= nowMicros + OneDaySeconds * MicrosPerSecond
    ensures nowMicros + OneDaySeconds * MicrosPerSecond < (r + 1) * MicrosPerSecond
  {
    nowMicros / MicrosPerSecond + OneDaySeconds
  }

  /**
   * The index of the first outcome that is not a request error, or `|o|` when
   * every outcome is one.
   */
  function FirstNonTransient(o: seq<Outcome>): (k: nat)
    ensures k <= |o|
    ensures forall i :: 0 <= i < k ==> o[i] == RequestError
    ensures k < |o| ==> o[k] != RequestError
  {
    if o == [] || o[0] != RequestError then 0
    else 1 + FirstNonTransient(o[1..])
  }

  /**
   * `lock_file(rc, args, full_path, file_id, debug)` called at time `nowMicros`,
   * where `outcomes[i]` is how loop iteration `i` would end.
   */
  method LockFile(fullPath: string, nowMicros: nat, outcomes: seq<Outcome>) returns (run: LockRun)
    requires |outcomes| >= MaxRetries
    ensures run.attempt <= MaxRetries && |run.tries| <= MaxRetries
    ensures !IsAbs(fullPath) ==> run == LockRun(NotAbsolute, [], 0)
    ensures IsAbs(fullPath) ==>
              var k := FirstNonTransient(outcomes);
              && |run.tries| == Min(MaxRetries, k + 1)
              && run.attempt == Min(MaxRetries, k)
              && (run.ending == Locked <==> k < MaxRetries && outcomes[k] == Success)
              && (run.ending == UnexpectedError <==> k < MaxRetries && outcomes[k] == OtherError)
    ensures run.ending == MaxRetriesReached <==>
              IsAbs(fullPath) && forall i :: 0 <= i < MaxRetries ==> outcomes[i] == RequestError
    ensures forall t :: t in run.tries ==>
              t == LockRequest(Collapse(fullPath), RetentionDeadline(nowMicros), false)
  {
    if !IsAbs(fullPath) {
      return LockRun(NotAbsolute, [], 0);
    }
    var path := Collapse(fullPath);
    var request := LockRequest(path, RetentionDeadline(nowMicros), false);
    var attempt := 0;
    var tries := [];
    var locked := false;
    while attempt < MaxRetries
      invariant 0 <= attempt <= MaxRetries
      invariant |tries| == attempt
      invariant forall t :: t in tries ==> t == request
      invariant forall i :: 0 <= i < attempt ==> outcomes[i] == RequestError
    {
      tries := tries + [request];
      match outcomes[attempt]
      case Success =>
        locked := true;
        break;
      case RequestError =>
        attempt := attempt + 1;
      case OtherError =>
        break;
    }
    var ending;
    if attempt == MaxRetries {
      ending := MaxRetriesReached;
    } else if locked {
      ending := Locked;
    } else {
      ending := UnexpectedError;
    }
    run := LockRun(ending, tries, attempt);
  }
}
