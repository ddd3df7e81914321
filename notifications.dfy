/**
 * `stream_notifications`: the set-up of the listener, then the nested loops over
 * the change stream that pick out the handled notification kinds and hand one
 * joined path per qualifying entry to `lock_file`. The stream is a finite
 * sequence; the pause before each lock and the output file are not modelled.
 */
module Notifications {
  import opened Wrappers
  import opened Paths
  import opened FileInfo

  /** `notification_types_to_handle` */
  const HandledKinds: seq<string> := ["child_file_added", "child_acl_changed", "child_extra_attrs_changed"]

  /** One change entry: `change_dict.get('type')` and `change_dict.get('path')`. */
  datatype Entry = Entry(kind: Option<string>, path: Option<string>)

  /** One item of the change iterator: a list of entries, or anything else. */
  datatype StreamItem = Batch(entries: seq<Entry>) | NotAList

  /** `change_type in notification_types_to_handle`; a missing type is never handled. */
  predicate IsHandled(kind: Option<string>) {
    kind.Some? && kind.value in HandledKinds
  }

  /** `str(change_path)`: a missing path prints as `None`. */
  function PathText(p: Option<string>): string {
    match p
    case Some(s) => s
    case None => "None"
  }

  /** The entries of one list whose kind is handled, in order. */
  function HandledIn(entries: seq<Entry>): seq<Entry> {
    if entries == [] then []
    else HandledIn(entries[..|entries| - 1]) +
         (if IsHandled(entries[|entries| - 1].kind) then [entries[|entries| - 1]] else [])
  }

  /** The handled entries one stream item contributes; an item that is not a list contributes none. */
  function ItemHandled(item: StreamItem): seq<Entry> {
    match item
    case Batch(entries) => HandledIn(entries)
    case NotAList => []
  }

  /** The handled entries of the whole stream, in stream order. */
  function Handled(changes: seq<StreamItem>): seq<Entry> {
    if changes == [] then []
    else Handled(changes[..|changes| - 1]) + ItemHandled(changes[|changes| - 1])
  }

  /** The number of stream items that are not lists (each logs a warning). */
  function NotAListCount(changes: seq<StreamItem>): nat {
    if changes == [] then 0
    else NotAListCount(changes[..|changes| - 1]) + (if changes[|changes| - 1].NotAList? then 1 else 0)
  }

  /** The paths handed to `lock_file` for the given entries: one joined path per entry, in order. */
  function LockTargets(fullPath: string, entries: seq<Entry>): (r: seq<string>)
    ensures |r| == |entries|
  {
    if entries == [] then []
    else LockTargets(fullPath, entries[..|entries| - 1]) +
         [JoinChangePath(fullPath, PathText(entries[|entries| - 1].path))]
  }

  /** The `i`-th lock call is on the joined path of the `i`-th entry. */
  lemma {:induction false} LockTargetsAt(fullPath: string, entries: seq<Entry>, i: nat)
    requires i < |entries|
    ensures LockTargets(fullPath, entries)[i] == JoinChangePath(fullPath, PathText(entries[i].path))
  {
    var n := |entries| - 1;
    if i < n {
      LockTargetsAt(fullPath, entries[..n], i);
    }
  }

  /** An entry is kept from a list exactly when it occurs in it and its kind is handled. */
  lemma {:induction false} HandledInMembers(entries: seq<Entry>, e: Entry)
    ensures e in HandledIn(entries) <==> e in entries && IsHandled(e.kind)
  {
    if entries != [] {
      var init := entries[..|entries| - 1];
      HandledInMembers(init, e);
      assert entries == init + [entries[|entries| - 1]];
    }
  }

  /** A list whose entries all have handled kinds is kept whole, in order. */
  lemma {:induction false} HandledInAll(entries: seq<Entry>)
    requires forall i :: 0 <= i < |entries| ==> IsHandled(entries[i].kind)
    ensures HandledIn(entries) == entries
  {
    if entries != [] {
      var init := entries[..|entries| - 1];
      HandledInAll(init);
      assert entries == init + [entries[|entries| - 1]];
    }
  }

  /** The stream is filtered item by item: splitting it splits the handled entries. */
  lemma {:induction false} HandledAppend(a: seq<StreamItem>, b: seq<StreamItem>)
    ensures Handled(a + b) == Handled(a) + Handled(b)
  {
    if b == [] {
      assert a + b == a;
    } else {
      var init := b[..|b| - 1];
      HandledAppend(a, init);
      assert (a + b)[..|a + b| - 1] == a + init;
      assert (a + b)[|a + b| - 1] == b[|b| - 1];
    }
  }

  /** Some list item of the stream holds the entry. */
  ghost predicate Listed(changes: seq<StreamItem>, e: Entry) {
    exists j :: 0 <= j < |changes| && changes[j].Batch? && e in changes[j].entries
  }

  /** The entry is listed in a stream exactly when it is listed before its last item or in it. */
  lemma ListedSplit(changes: seq<StreamItem>, e: Entry)
    requires changes != []
    ensures var n := |changes| - 1;
            Listed(changes, e) <==>
              Listed(changes[..n], e) || (changes[n].Batch? && e in changes[n].entries)
  {
    var n := |changes| - 1;
    if Listed(changes, e) {
      var j :| 0 <= j < |changes| && changes[j].Batch? && e in changes[j].entries;
      if j < n {
        assert changes[..n][j] == changes[j];
      }
    }
    if Listed(changes[..n], e) {
      var j :| 0 <= j < n && changes[..n][j].Batch? && e in changes[..n][j].entries;
      assert changes[j] == changes[..n][j];
    }
  }

  /**
   * An entry is handed on exactly when some list item of the stream holds it and
   * its kind is handled: entries of other kinds and items that are not lists give
   * no lock call.
   */
  lemma {:induction false} HandledMembers(changes: seq<StreamItem>, e: Entry)
    ensures e in Handled(changes) <==> IsHandled(e.kind) && Listed(changes, e)
  {
    if changes != [] {
      var n := |changes| - 1;
      HandledMembers(changes[..n], e);
      ListedSplit(changes, e);
      if changes[n].Batch? {
        HandledInMembers(changes[n].entries, e);
      }
    }
  }

  /** Lock calls for consecutive entries are the calls for each part, in order. */
  lemma {:induction false} LockTargetsAppend(fullPath: string, a: seq<Entry>, b: seq<Entry>)
    ensures LockTargets(fullPath, a + b) == LockTargets(fullPath, a) + LockTargets(fullPath, b)
  {
    if b != [] {
      var init := b[..|b| - 1];
      LockTargetsAppend(fullPath, a, init);
      assert (a + b)[..|a + b| - 1] == a + init;
      assert (a + b)[|a + b| - 1] == b[|b| - 1];
    } else {
      assert a + b == a;
    }
  }

  /** The lock calls for a whole stream are the calls for its parts, in stream order. */
  lemma StreamCallsInOrder(fullPath: string, a: seq<StreamItem>, b: seq<StreamItem>)
    ensures LockTargets(fullPath, Handled(a + b)) ==
            LockTargets(fullPath, Handled(a)) + LockTargets(fullPath, Handled(b))
  {
    HandledAppend(a, b);
    LockTargetsAppend(fullPath, Handled(a), Handled(b));
  }

  /** Watching an absolute directory, every lock call is on an absolute path. */
  lemma {:induction false} AbsoluteWatchGivesAbsoluteTargets(fullPath: string, entries: seq<Entry>)
    requires IsAbs(fullPath)
    ensures forall p :: p in LockTargets(fullPath, entries) ==> IsAbs(p)
  {
    var r := LockTargets(fullPath, entries);
    forall k | 0 <= k < |r| ensures IsAbs(r[k]) {
      LockTargetsAt(fullPath, entries, k);
    }
  }

  /**
   * After a failed lookup the watched path is the sentinel `Error_Path`, and every
   * lock call is on a relative path, which `lock_file` rejects without an attempt.
   */
  lemma {:induction false} SentinelGivesRelativeTargets(entries: seq<Entry>)
    ensures forall p :: p in LockTargets(ErrorPath, entries) ==> !IsAbs(p)
  {
    var r := LockTargets(ErrorPath, entries);
    forall k | 0 <= k < |r| ensures !IsAbs(r[k]) {
      LockTargetsAt(ErrorPath, entries, k);
    }
  }

  /**
   * `stream_notifications(rc, args)` with the given `--file-id` and
   * `--directory-path` arguments, attribute lookup `lookup` and change stream
   * `changes`. It returns how the set-up ended, the paths handed to `lock_file`
   * in call order, and the number of "Unexpected change format" warnings.
   */
  method StreamNotifications(fileId: Option<string>, directoryPath: Option<string>,
                             lookup: Query -> AttrResponse, changes: seq<StreamItem>)
    returns (setup: Setup, lockCalls: seq<string>, warnings: nat)
    ensures setup == Subscribe(fileId, directoryPath, lookup)
    ensures !setup.Subscribed? ==> lockCalls == [] && warnings == 0
    ensures setup.Subscribed? ==>
              && lockCalls == LockTargets(setup.fullPath, Handled(changes))
              && warnings == NotAListCount(changes)
  {
    lockCalls, warnings := [], 0;
    if Given(fileId) || Given(directoryPath) {
      setup := Subscribe(fileId, directoryPath, lookup);
    } else {
      setup := NeitherGiven;
      return;
    }
    if !setup.Subscribed? {
      return;
    }
    lockCalls, warnings := CollectLockCalls(setup.fullPath, changes);
  }

  /**
   * The loops of `stream_notifications` over the change stream and each list's
   * entries, once the listener watches `fullPath`.
   */
  method CollectLockCalls(fullPath: string, changes: seq<StreamItem>)
    returns (lockCalls: seq<string>, warnings: nat)
    ensures lockCalls == LockTargets(fullPath, Handled(changes))
    ensures warnings == NotAListCount(changes)
  {
    lockCalls, warnings := [], 0;
    var i := 0;
    while i < |changes|
      invariant 0 <= i <= |changes|
      invariant lockCalls == LockTargets(fullPath, Handled(changes[..i]))
      invariant warnings == NotAListCount(changes[..i])
    {
      ghost var prefix := changes[..i + 1];
      assert prefix[..i] == changes[..i] && prefix[i] == changes[i];
      assert Handled(prefix) == Handled(changes[..i]) + ItemHandled(changes[i]);
      LockTargetsAppend(fullPath, Handled(changes[..i]), ItemHandled(changes[i]));
      match changes[i] {
        case Batch(entries) =>
          var calls := CollectFromList(fullPath, entries);
          lockCalls := lockCalls + calls;
        case NotAList =>
          warnings := warnings + 1;
      }
      i := i + 1;
    }
    assert changes[..i] == changes;
  }

  /** The inner loop of `stream_notifications` over the entries of one list. */
  method CollectFromList(fullPath: string, entries: seq<Entry>) returns (calls: seq<string>)
    ensures calls == LockTargets(fullPath, HandledIn(entries))
  {
    calls := [];
    var j := 0;
    while j < |entries|
      invariant 0 <= j <= |entries|
      invariant calls == LockTargets(fullPath, HandledIn(entries[..j]))
    {
      var entry := entries[j];
      assert entries[..j + 1][..j] == entries[..j];
      if IsHandled(entry.kind) {
        ghost var done := HandledIn(entries[..j]);
        assert HandledIn(entries[..j + 1]) == done + [entry];
        assert (done + [entry])[..|done|] == done;
        calls := calls + [JoinChangePath(fullPath, PathText(entry.path))];
      } else {
        assert HandledIn(entries[..j + 1]) == HandledIn(entries[..j]);
      }
      j := j + 1;
    }
    assert entries[..j] == entries;
  }
}
