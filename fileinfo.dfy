/**
 * Choosing what to watch: `get_fileinfo` resolves a file id or a directory path to
 * the pair (file id, absolute path), and `stream_notifications` picks the listener
 * target from the same arguments. The attribute lookup on the cluster is an input.
 */
module FileInfo {
  import opened Wrappers

  /** The pair `get_fileinfo` returns when it catches an error. */
  const ErrorId: string := "Error_ID"
  const ErrorPath: string := "Error_Path"

  /** Python truthiness of an optional string argument: present and non-empty. */
  predicate Given(arg: Option<string>) {
    arg.Some? && arg.value != ""
  }

  /** An attribute lookup, by file id (`id_=`) or by path (`path=`). */
  datatype Query = ById(id: string) | ByPath(path: string)

  /** How `fs.get_file_attr` answers a query. */
  datatype AttrResponse =
    | Attr(id: string, path: string)  // the response's 'id' and 'path' entries
    | AttrRequestError                 // a requests.exceptions.RequestException
    | AttrValueError                   // a ValueError
    | AttrOtherError                   // any other exception, which get_fileinfo does not catch

  /** What `get_fileinfo` produces: a (file id, absolute path) pair, or an exception it lets through. */
  datatype FileInfoResult = Info(fileId: string, absolutePath: string) | Uncaught

  /** The lookup `get_fileinfo` issues; a file id takes precedence over a directory path. */
  function IssuedQuery(fileId: Option<string>, directoryPath: Option<string>): (q: Option<Query>)
    ensures q.None? <==> !Given(fileId) && !Given(directoryPath)
    ensures q.Some? && q.value.ById? ==> Given(fileId) && q.value.id == fileId.value
    ensures q.Some? && q.value.ByPath? ==> !Given(fileId) && q.value.path == directoryPath.value
  {
    if Given(fileId) then Some(ById(fileId.value))
    else if Given(directoryPath) then Some(ByPath(directoryPath.value))
    else None
  }

  /**
   * `get_fileinfo(rc, file_id, directory_path)`, where `lookup` answers the
   * cluster's attribute lookups. A lookup by id keeps the caller's id; a lookup by
   * path takes the id from the response. Having neither argument, a request error
   * and a value error all give the sentinel pair.
   */
  function GetFileInfo(fileId: Option<string>, directoryPath: Option<string>,
                       lookup: Query -> AttrResponse): (r: FileInfoResult)
    ensures IssuedQuery(fileId, directoryPath).None? ==> r == Info(ErrorId, ErrorPath)
    ensures IssuedQuery(fileId, directoryPath).Some? ==>
              var q := IssuedQuery(fileId, directoryPath).value;
              && (r.Uncaught? <==> lookup(q).AttrOtherError?)
              && (lookup(q).AttrRequestError? || lookup(q).AttrValueError? ==> r == Info(ErrorId, ErrorPath))
              && (lookup(q).Attr? ==>
                    r == Info(if q.ById? then q.id else lookup(q).id, lookup(q).path))
  {
    match IssuedQuery(fileId, directoryPath)
    case None => Info(ErrorId, ErrorPath)
    case Some(q) =>
      match lookup(q)
      case Attr(id, path) => Info(if q.ById? then fileId.value else id, path)
      case AttrRequestError => Info(ErrorId, ErrorPath)
      case AttrValueError => Info(ErrorId, ErrorPath)
      case AttrOtherError => Uncaught
  }

  /** A given file id makes the directory path irrelevant. */
  lemma FileIdTakesPrecedence(fileId: Option<string>, directoryPath: Option<string>,
                              lookup: Query -> AttrResponse)
    requires Given(fileId)
    ensures GetFileInfo(fileId, directoryPath, lookup) == GetFileInfo(fileId, None, lookup)
  {
  }

  /** The target handed to `fs.get_change_notify_listener`: exactly one of `id_` and `path` is set. */
  datatype Listener = Listener(id_: Option<string>, path: Option<string>)

  /** What the set-up part of `stream_notifications` ends with. */
  datatype Setup =
    | Subscribed(listener: Listener, fileId: string, fullPath: string)
    | NeitherGiven  // "Either file_id or directory_path must be provided"
    | SetupUncaught // an exception let through by get_fileinfo

  /**
   * The set-up of `stream_notifications`: with a file id the listener watches
   * `id_ = file_id, path = None`; otherwise, with a directory path, it watches
   * `path = full_path, id_ = None`; with neither it raises before any lookup.
   */
  function Subscribe(fileId: Option<string>, directoryPath: Option<string>,
                     lookup: Query -> AttrResponse): (s: Setup)
    ensures s.NeitherGiven? <==> !Given(fileId) && !Given(directoryPath)
    ensures s.SetupUncaught? <==> GetFileInfo(fileId, directoryPath, lookup).Uncaught?
    ensures s.Subscribed? ==>
              && GetFileInfo(fileId, directoryPath, lookup) == Info(s.fileId, s.fullPath)
              && (Given(fileId) ==> s.listener == Listener(Some(s.fileId), None))
              && (!Given(fileId) ==> s.listener == Listener(None, Some(s.fullPath)))
  {
    if !Given(fileId) && !Given(directoryPath) then NeitherGiven
    else
      match GetFileInfo(fileId, directoryPath, lookup)
      case Uncaught => SetupUncaught
      case Info(id, fullPath) =>
        Subscribed(if Given(fileId) then Listener(Some(id), None) else Listener(None, Some(fullPath)),
                   id, fullPath)
  }

  /**
   * A successful lookup by id subscribes to the caller's own id, even when a
   * directory path is also given; a failed one subscribes to the sentinel id.
   */
  lemma SubscribeById(fileId: Option<string>, directoryPath: Option<string>,
                      lookup: Query -> AttrResponse)
    requires Given(fileId)
    ensures var s := Subscribe(fileId, directoryPath, lookup);
            var a := lookup(ById(fileId.value));
            && (a.Attr? ==> s == Subscribed(Listener(Some(fileId.value), None), fileId.value, a.path))
            && (a.AttrRequestError? || a.AttrValueError? ==>
                  s == Subscribed(Listener(Some(ErrorId), None), ErrorId, ErrorPath))
  {
  }

  /** A successful lookup by directory subscribes to the absolute path the cluster reports. */
  lemma SubscribeByDirectory(fileId: Option<string>, directoryPath: Option<string>,
                             lookup: Query -> AttrResponse)
    requires !Given(fileId) && Given(directoryPath)
    ensures var s := Subscribe(fileId, directoryPath, lookup);
            var a := lookup(ByPath(directoryPath.value));
            && (a.Attr? ==> s == Subscribed(Listener(None, Some(a.path)), a.id, a.path))
            && (a.AttrRequestError? || a.AttrValueError? ==>
                  s == Subscribed(Listener(None, Some(ErrorPath)), ErrorId, ErrorPath))
  {
  }
}
