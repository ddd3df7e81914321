# qfs_filelock decision logic in Dafny

A model of the decision logic of `qfs_filelock.py`, a daemon that watches a
directory (or a file id) on a Qumulo cluster for change notifications and puts a
Write-Once-Read-Many lock with a one-day retention deadline on each file the
notifications name. Every call into the cluster is replaced by an input: the
outcome of each lock attempt, the answer of the attribute lookup, and the finite
sequence of items the change listener yields.

- `wrappers.dfy` — `Option`, for Python values that may be `None`.
- `paths.dfy` (module `Paths`) — `os.path.isabs`, the slash collapsing
  `re.sub(r'/+', '/', …)` of `lock_file`, and the single-pass
  `replace('//', '/')` join of `stream_notifications`, with their lemmas.
- `filelock.dfy` (module `FileLock`) — `lock_file`: the absolute-path guard, the
  lock request record and the `while attempt < max_retries` loop as a method.
  Outcome `i` of the input sequence says how loop iteration `i` ends (the whole
  `try` body: reading the configuration, logging in, sending the request). The
  method asks for at least `max_retries` outcomes, one for every iteration the loop
  can run; this is a demand on the model's input, not on callers of `lock_file`.
  The call time is a parameter in microseconds since the epoch (UTC).
- `fileinfo.dfy` (module `FileInfo`) — `get_fileinfo` and the choice of listener
  target in `stream_notifications`; the cluster's attribute lookup is a function
  from the query (by id or by path) to its answer.
- `notifications.dfy` (module `Notifications`) — `stream_notifications`: the
  set-up, then the nested loops over the stream and each list's entries, written
  as methods whose results are tied to specification functions (`Handled`,
  `LockTargets`, `NotAListCount`) whose properties are proved as lemmas.

The code differs from the design description of the system in several ways, and
the model follows the code: there is no duration parser (retention is always one
day), legal hold is always false, there is no lock-status classifier and no
per-file pending-lock table, the pause before a lock is a blocking sleep rather
than a debounce timer, retries wait a fixed two seconds rather than backing off
exponentially, and the handled notification kinds are a fixed list of three.

## Model

| member | source | states |
|---|---|---|
| `Paths.Collapse` | qfs_filelock.py:155 | the slash-collapsed path is never longer, keeps the first character, and is absolute exactly when the input is |
| `Paths.CollapseNoDoubleSlash` | qfs_filelock.py:155 | after collapsing, no two slashes are adjacent |
| `Paths.CollapseFixesNoDoubleSlash` | qfs_filelock.py:155 | a path without adjacent slashes is left unchanged by collapsing |
| `Paths.CollapseFixedIff` | qfs_filelock.py:155 | collapsing leaves a path unchanged if and only if it has no adjacent slashes |
| `Paths.CollapseIdempotent` | qfs_filelock.py:155 | collapsing twice equals collapsing once |
| `Paths.CollapseKeepsNonSlash` | qfs_filelock.py:155 | collapsing removes only slashes: the non-slash characters are kept in order |
| `Paths.ReplaceDoubleSlash` | qfs_filelock.py:269 | the single `replace('//', '/')` pass keeps the first character |
| `Paths.ReplaceKeepsNonSlash` | qfs_filelock.py:269 | the replace pass removes only slashes |
| `Paths.CollapseAfterReplace` | qfs_filelock.py:269 | collapsing after the replace pass gives the same path as collapsing directly |
| `Paths.JoinChangePath` | qfs_filelock.py:269 | the joined child path is absolute exactly when the watched path is empty or absolute |
| `Paths.JoinThenCollapse` | qfs_filelock.py:269 | the path `lock_file` locks for a child is the collapse of `full_path + '/' + change_path`; the replace pass changes nothing about it |
| `Paths.ReplaceLeavesDoubleSlash` | qfs_filelock.py:269 | the replace pass alone leaves a double slash: `///` becomes `//` |
| `FileLock.RetentionDeadline` | qfs_filelock.py:156 | the deadline is one day after the call time, in whole seconds with the microseconds dropped |
| `FileLock.FirstNonTransient` | qfs_filelock.py:184-191 | the index of the first outcome that is not a request error: every earlier one is, and the one at the index is not |
| `FileLock.LockFile` | qfs_filelock.py:150-193 | a relative path gives no attempt; otherwise with k the first outcome that is not a request error, there are min(3, k+1) attempts and `attempt` ends at min(3, k) ≤ 3; it ends locked or with an unexpected error exactly when outcome k (k < 3) is a success or another error; "max retries reached" is reported iff the path is absolute and the first three outcomes are request errors; every request is on the collapsed path with the one-day deadline and legal hold false |
| `FileInfo.IssuedQuery` | qfs_filelock.py:200-212 | a lookup by id when a file id is given, otherwise by path when a directory is given, and none when neither is given |
| `FileInfo.GetFileInfo` | qfs_filelock.py:198-222 | neither argument, a request error or a value error gives `("Error_ID", "Error_Path")`; other exceptions pass through; a successful lookup by id keeps the caller's id, by path takes the id from the response, and both return the response's path |
| `FileInfo.FileIdTakesPrecedence` | qfs_filelock.py:200-205 | with a file id given, the directory path makes no difference to `get_fileinfo` |
| `FileInfo.Subscribe` | qfs_filelock.py:235-244 | with neither argument the set-up raises; with a file id the listener watches `id_ = file_id, path = None`, otherwise `path = full_path, id_ = None`, where the pair is what `get_fileinfo` returned |
| `FileInfo.SubscribeById` | qfs_filelock.py:235-238 | a successful lookup by id subscribes to the caller's own id even when a directory is also given; a failed one to the sentinel id |
| `FileInfo.SubscribeByDirectory` | qfs_filelock.py:239-242 | a successful lookup by directory subscribes to the reported absolute path; a failed one to the sentinel path |
| `Notifications.LockTargets` | qfs_filelock.py:269-276 | one lock call per entry |
| `Notifications.LockTargetsAt` | qfs_filelock.py:269-276 | the i-th lock call is on the joined path of the i-th entry |
| `Notifications.HandledInMembers` | qfs_filelock.py:261-268 | an entry of a list is kept exactly when its kind is one of the three handled kinds |
| `Notifications.HandledInAll` | qfs_filelock.py:261-268 | a list of handled entries is kept whole and in order |
| `Notifications.HandledAppend` | qfs_filelock.py:257-287 | the stream is filtered item by item, so splitting it splits the handled entries in order |
| `Notifications.HandledMembers` | qfs_filelock.py:257-287 | an entry is handed on exactly when its kind is handled and some list item of the stream holds it; other kinds and non-list items give no call |
| `Notifications.LockTargetsAppend` | qfs_filelock.py:261-276 | lock calls for consecutive entries are the calls for each part, in order |
| `Notifications.StreamCallsInOrder` | qfs_filelock.py:257-276 | the lock calls of a stream are the calls of its first part followed by those of the rest |
| `Notifications.AbsoluteWatchGivesAbsoluteTargets` | qfs_filelock.py:269 | watching an absolute path, every lock call is on an absolute path |
| `Notifications.SentinelGivesRelativeTargets` | qfs_filelock.py:218 | after a failed lookup every lock call is on a relative path, which `lock_file` rejects without an attempt |
| `Notifications.StreamNotifications` | qfs_filelock.py:228-287 | the set-up is `Subscribe`'s; without a subscription there are no calls and no warnings; otherwise the lock calls are the joined paths of the handled entries in stream order and there is one warning per non-list item |
| `Notifications.CollectLockCalls` | qfs_filelock.py:257-287 | the outer loop collects exactly the joined paths of the handled entries, in order, and counts the non-list items |
| `Notifications.CollectFromList` | qfs_filelock.py:261-285 | the inner loop collects exactly the joined paths of one list's handled entries, in order |

## Left out

- Every Qumulo REST call (`RestClient`, `rc.login`, `fs.set_file_lock`, `fs.get_file_attr`, `fs.get_change_notify_listener`): foreign library calls; only their outcomes are modelled, as inputs.
- `load_config`, `parse_args`, `setup_logging`, `debug_print` and `main`: configuration-file, argument and logging plumbing. Reading the configuration inside the retry loop is folded into each iteration's outcome.
- `display_header`: console output depending on the wall clock.
- The one-second pause loop before each lock, the two-second sleep after a request error, and appending to the output file: timing and file I/O.
- The ISO-8601 text of the retention deadline (`isoformat() + 'Z'`): the model keeps the deadline as whole seconds since the epoch.
- The `type_filter` and `recursive` arguments of the listener: they only shape what the cluster sends, which is an input here.
- Unwrapping a tuple response from `get_file_attr` and a missing `'id'` or `'path'` key: transport detail and an uncaught exception, covered by `AttrOtherError`.
- A list entry that is not a dictionary (`change_dict.get` would raise): entries are modelled as dictionaries only.
- The effect of a lock on the cluster and the response it returns: the model stops at the request that is sent.
- `create_random_files.py`: test-data generation with random sizes, file writes and a thread pool, with nothing to state about.
