/**
 * The `upload_file` route: the total is bumped, five gates run in order
 * (session, user record, file present, extension, MIME), then the file is
 * saved, its record committed and the success body built. Every exit gives a
 * status and a message; it bumps one outcome counter, except when building
 * the success body raises, which bumps the success and the failure counters.
 */
module Upload {
  import opened Wrappers
  import opened FileTypes
  import opened Naming
  import opened Metrics

  /** The user row found for the session's username. */
  datatype UserRecord = UserRecord(id: nat, username: string)

  /** The uploaded part: its filename after sanitising, and `file.mimetype` as werkzeug reports it. */
  datatype FilePart = FilePart(filename: string, mimetype: string)

  /** How a step inside the `try` (saving the bytes, committing the row, building the body) ended. */
  datatype Step = Completed | Raised(detail: string)

  /**
   * One upload request, with what the route learns from its collaborators:
   * the session's username, the user row it resolves to, the file part, and
   * how the save, the commit (creating, adding and committing the row) and
   * the building of the success body (`to_dict` and `jsonify`) would end.
   */
  datatype Request = Request(
    sessionUser: Option<string>,
    user: Option<UserRecord>,
    file: Option<FilePart>,
    save: Step,
    commit: Step,
    respond: Step)

  /** The `File` row created for a stored upload. */
  datatype FileRecord = FileRecord(filename: string, filePath: string, userId: nat)

  /** The JSON body's `success` flag, the HTTP status, the message or error, and the stored file. */
  datatype Response = Response(success: bool, status: nat, message: string, file: Option<FileRecord>)

  /**
   * A response, the outcome counters it bumps after the total, in order, and
   * the `File` row left committed in the database, if any.
   */
  datatype Exit = Exit(response: Response, outcomes: seq<Counter>, committed: Option<FileRecord>)

  const NotLoggedIn: string := "Not logged in"
  const UserNotFound: string := "User not found"
  const NoFileProvided: string := "No file provided"
  const FileTypeNotAllowed: string := "File type not allowed. This attempt has been logged."
  const InvalidFileType: string := "Invalid file type detected. This attempt has been logged."
  const UploadSucceeded: string := "File uploaded successfully!"

  function Reject(status: nat, message: string, counter: Counter): Exit {
    Exit(Response(false, status, message, None), [counter], None)
  }

  /** The exception text of a step that raised. */
  function Detail(s: Step): string {
    match s
    case Completed => ""
    case Raised(d) => d
  }

  /**
   * The `File` row the route builds for a known user's file with an allowed
   * name: the generated name, its path under the upload folder and the
   * user's id. There is none until those three checks have passed.
   */
  function NewRecord(req: Request, hex: string, timestamp: string): (r: Option<FileRecord>)
    ensures r.Some? <==> req.user.Some? && req.file.Some? && AllowedFile(req.file.value.filename)
    ensures r.Some? ==>
      && r.value.userId == req.user.value.id
      && AllowedFile(r.value.filename)
      && |hex| < |r.value.filename|
      && r.value.filename[..|hex|] == hex
      && r.value.filePath == JoinPath(UploadFolder, r.value.filename)
  {
    if req.user.Some? && req.file.Some? && AllowedFile(req.file.value.filename) then
      var name := SafeFilename(req.file.value.filename, hex, timestamp);
      SafeFilenameStaysAllowed(req.file.value.filename, hex, timestamp);
      Some(FileRecord(name, JoinPath(UploadFolder, name), req.user.value.id))
    else None
  }

  /**
   * What `upload_file` answers, which outcomes it counts and which row it
   * leaves committed, given the random hex and timestamp that name the stored
   * file. A success, a 200 status, a record in the body and the success
   * counter alone always go together; an exit counts one outcome, or else
   * success then failure with a 500; a row is committed exactly when the
   * success counter is bumped (`CommittedExactlyWhenPersisted` gives the
   * gates that lead there), and that row (belonging to the session's user, with an
   * allowed name that starts with the random part, under the upload folder)
   * is the one a success body carries; the two type rejections are 400s.
   */
  function Handle(req: Request, hex: string, timestamp: string): (e: Exit)
    ensures e.response.success <==> e.response.status == 200
    ensures e.response.success <==> e.outcomes == [Successful]
    ensures e.response.success <==> e.response.file.Some?
    ensures e.response.status in {200, 400, 401, 404, 500}
    ensures |e.outcomes| == 1 || (e.outcomes == [Successful, Failed] && e.response.status == 500)
    ensures Unauthorized in e.outcomes ==> e.response.status == 400
    ensures e.committed.Some? <==> Successful in e.outcomes
    ensures e.committed.Some? ==> e.committed == NewRecord(req, hex, timestamp)
    ensures e.response.file.Some? ==> e.response.file == e.committed
    ensures e.committed.Some? ==>
      && req.user.Some?
      && e.committed.value.userId == req.user.value.id
      && AllowedFile(e.committed.value.filename)
      && |hex| < |e.committed.value.filename|
      && e.committed.value.filename[..|hex|] == hex
      && e.committed.value.filePath == JoinPath(UploadFolder, e.committed.value.filename)
  {
    if req.sessionUser.None? then Reject(401, NotLoggedIn, Failed)
    else if req.user.None? then Reject(404, UserNotFound, Failed)
    else if req.file.None? then Reject(400, NoFileProvided, Failed)
    else if !AllowedFile(req.file.value.filename) then Reject(400, FileTypeNotAllowed, Unauthorized)
    else if !AllowedMime(req.file.value.mimetype) then Reject(400, InvalidFileType, Unauthorized)
    else if req.save.Raised? then Reject(500, req.save.detail, Failed)
    else if req.commit.Raised? then Reject(500, req.commit.detail, Failed)
    else
      var record := NewRecord(req, hex, timestamp);
      if req.respond.Raised? then Exit(Response(false, 500, req.respond.detail, None), [Successful, Failed], record)
      else Exit(Response(true, 200, UploadSucceeded, record), [Successful], record)
  }

  /**
   * `upload_file`: bumps the total, walks the gates with an early return at
   * each, bumps the success counter once the row is committed, and bumps the
   * failure counter too when building the success body then raises. The
   * answer and the row committed to the database (`committed`, none when
   * nothing is committed) are the ones `Handle` gives, the counters move as
   * `RecordRequest` says for `Handle`'s outcomes, and balanced counters stay
   * balanced exactly when the request counts a single outcome.
   */
  method UploadFile(metrics: UploadMetrics, req: Request, hex: string, timestamp: string)
    returns (response: Response, committed: Option<FileRecord>)
    modifies metrics
    ensures response == Handle(req, hex, timestamp).response
    ensures committed == Handle(req, hex, timestamp).committed
    ensures metrics.Snapshot() == RecordRequest(old(metrics.Snapshot()), Handle(req, hex, timestamp).outcomes)
    ensures old(metrics.Balanced()) ==> (metrics.Balanced() <==> |Handle(req, hex, timestamp).outcomes| == 1)
  {
    ghost var m, e := metrics.Snapshot(), Handle(req, hex, timestamp);
    RecordRequestExits(m);
    metrics.BumpTotal();

    if req.sessionUser.None? {
      metrics.Bump(Failed);
      assert e == Reject(401, NotLoggedIn, Failed);
      return Response(false, 401, NotLoggedIn, None), None;
    }

    if req.user.None? {
      metrics.Bump(Failed);
      assert e == Reject(404, UserNotFound, Failed);
      return Response(false, 404, UserNotFound, None), None;
    }
    var currentUser := req.user.value;

    if req.file.None? {
      metrics.Bump(Failed);
      assert e == Reject(400, NoFileProvided, Failed);
      return Response(false, 400, NoFileProvided, None), None;
    }
    var file := req.file.value;

    var filename := file.filename;
    if !AllowedFile(filename) {
      metrics.Bump(Unauthorized);
      assert e == Reject(400, FileTypeNotAllowed, Unauthorized);
      return Response(false, 400, FileTypeNotAllowed, None), None;
    }

    if !AllowedMime(file.mimetype) {
      metrics.Bump(Unauthorized);
      assert e == Reject(400, InvalidFileType, Unauthorized);
      return Response(false, 400, InvalidFileType, None), None;
    }

    var safeFilename := SafeFilename(filename, hex, timestamp);
    var filePath := JoinPath(UploadFolder, safeFilename);

    if req.save.Raised? {
      metrics.Bump(Failed);
      assert e == Reject(500, req.save.detail, Failed);
      return Response(false, 500, req.save.detail, None), None;
    }
    var newFile := FileRecord(safeFilename, filePath, currentUser.id);
    if req.commit.Raised? {
      metrics.Bump(Failed);
      assert e == Reject(500, req.commit.detail, Failed);
      return Response(false, 500, req.commit.detail, None), None;
    }

    metrics.Bump(Successful);
    if req.respond.Raised? {
      metrics.Bump(Failed);
      assert e == Exit(Response(false, 500, req.respond.detail, None), [Successful, Failed], Some(newFile));
      return Response(false, 500, req.respond.detail, None), Some(newFile);
    }
    assert e == Exit(Response(true, 200, UploadSucceeded, Some(newFile)), [Successful], Some(newFile));
    return Response(true, 200, UploadSucceeded, Some(newFile)), Some(newFile);
  }

  // The gate sequence as a table: each gate's pass condition and rejection,
  // and the order in which they are tried.

  datatype Gate =
    | SessionGate | UserGate | FileGate | ExtensionGate | MimeGate
    | SaveGate | CommitGate | ResponseGate

  const GateOrder: seq<Gate> :=
    [SessionGate, UserGate, FileGate, ExtensionGate, MimeGate, SaveGate, CommitGate, ResponseGate]

  /** Whether `req` gets past gate `g` (a type gate has nothing to check when there is no file). */
  predicate Passes(req: Request, g: Gate) {
    match g
    case SessionGate => req.sessionUser.Some?
    case UserGate => req.user.Some?
    case FileGate => req.file.Some?
    case ExtensionGate => req.file.Some? ==> AllowedFile(req.file.value.filename)
    case MimeGate => req.file.Some? ==> AllowedMime(req.file.value.mimetype)
    case SaveGate => req.save.Completed?
    case CommitGate => req.commit.Completed?
    case ResponseGate => req.respond.Completed?
  }

  /**
   * The exit a request takes when gate `g` stops it: never a success and
   * never a record in the body; every gate counts one outcome and commits
   * no row, except the last, whose exception comes after the row was
   * committed and the success counter bumped.
   */
  function Rejection(req: Request, hex: string, timestamp: string, g: Gate): (e: Exit)
    ensures !e.response.success && e.response.file.None?
    ensures e.response.status in {400, 401, 404, 500}
    ensures |e.outcomes| == 1 <==> g != ResponseGate
    ensures g != ResponseGate ==> e.committed.None?
    ensures g == ResponseGate ==> e.committed == NewRecord(req, hex, timestamp) && Successful in e.outcomes
  {
    match g
    case SessionGate => Reject(401, NotLoggedIn, Failed)
    case UserGate => Reject(404, UserNotFound, Failed)
    case FileGate => Reject(400, NoFileProvided, Failed)
    case ExtensionGate => Reject(400, FileTypeNotAllowed, Unauthorized)
    case MimeGate => Reject(400, InvalidFileType, Unauthorized)
    case SaveGate => Reject(500, Detail(req.save), Failed)
    case CommitGate => Reject(500, Detail(req.commit), Failed)
    case ResponseGate =>
      Exit(Response(false, 500, Detail(req.respond), None), [Successful, Failed], NewRecord(req, hex, timestamp))
  }

  /** The first gate in `gates` that `req` does not pass. */
  function FirstFailing(req: Request, gates: seq<Gate>): (r: Option<Gate>)
    ensures r.None? <==> forall i :: 0 <= i < |gates| ==> Passes(req, gates[i])
    ensures r.Some? ==> r.value in gates && !Passes(req, r.value)
  {
    if gates == [] then None
    else if !Passes(req, gates[0]) then Some(gates[0])
    else FirstFailing(req, gates[1..])
  }

  /** When every gate before position `k` passes and the one at `k` fails, that one decides. */
  lemma {:induction false} FirstFailingAt(req: Request, gates: seq<Gate>, k: nat)
    requires k < |gates|
    requires forall i :: 0 <= i < k ==> Passes(req, gates[i])
    requires !Passes(req, gates[k])
    ensures FirstFailing(req, gates) == Some(gates[k])
  {
    if k > 0 {
      assert Passes(req, gates[0]);
      FirstFailingAt(req, gates[1..], k - 1);
    }
  }

  /**
   * The successful exit, for a request that passes every gate: a 200 counted
   * once as a success, whose body carries the committed row, which belongs
   * to the user and carries an allowed name stored under the upload folder.
   */
  function Accepted(req: Request, hex: string, timestamp: string): (e: Exit)
    requires req.user.Some? && req.file.Some? && AllowedFile(req.file.value.filename)
    ensures e.response.success && e.response.status == 200 && e.outcomes == [Successful]
    ensures e.response.file.Some? && e.response.file == e.committed
    ensures e.response.file.value.userId == req.user.value.id
    ensures AllowedFile(e.response.file.value.filename)
  {
    var record := NewRecord(req, hex, timestamp);
    Exit(Response(true, 200, UploadSucceeded, record), [Successful], record)
  }

  /**
   * The route follows the gate table: the first gate that fails decides the
   * exit, and a request that passes all eight is stored.
   */
  lemma HandleFollowsGateOrder(req: Request, hex: string, timestamp: string)
    ensures FirstFailing(req, GateOrder).Some? ==>
      Handle(req, hex, timestamp) == Rejection(req, hex, timestamp, FirstFailing(req, GateOrder).value)
    ensures FirstFailing(req, GateOrder).None? ==>
      && req.user.Some? && req.file.Some? && AllowedFile(req.file.value.filename)
      && Handle(req, hex, timestamp) == Accepted(req, hex, timestamp)
  {
    if && req.sessionUser.Some? && req.user.Some? && req.file.Some?
       && AllowedFile(req.file.value.filename) && AllowedMime(req.file.value.mimetype)
    {
      PersistGatesInOrder(req, hex, timestamp);
    } else {
      RequestGatesInOrder(req, hex, timestamp);
    }
  }

  /** The first five gates: whichever of them fails first decides the exit. */
  lemma RequestGatesInOrder(req: Request, hex: string, timestamp: string)
    requires !(&& req.sessionUser.Some? && req.user.Some? && req.file.Some?
               && AllowedFile(req.file.value.filename) && AllowedMime(req.file.value.mimetype))
    ensures FirstFailing(req, GateOrder).Some?
    ensures Handle(req, hex, timestamp) == Rejection(req, hex, timestamp, FirstFailing(req, GateOrder).value)
  {
    var g := GateOrder;
    assert g[0] == SessionGate && g[1] == UserGate && g[2] == FileGate && g[3] == ExtensionGate;
    assert g[4] == MimeGate;
    if req.sessionUser.None? {
      FirstFailingAt(req, g, 0);
    } else if req.user.None? {
      FirstFailingAt(req, g, 1);
    } else if req.file.None? {
      FirstFailingAt(req, g, 2);
    } else if !AllowedFile(req.file.value.filename) {
      FirstFailingAt(req, g, 3);
    } else {
      FirstFailingAt(req, g, 4);
    }
  }

  /** The last three gates, for a request that passes the first five. */
  lemma PersistGatesInOrder(req: Request, hex: string, timestamp: string)
    requires && req.sessionUser.Some? && req.user.Some? && req.file.Some?
             && AllowedFile(req.file.value.filename) && AllowedMime(req.file.value.mimetype)
    ensures FirstFailing(req, GateOrder).Some? ==>
      Handle(req, hex, timestamp) == Rejection(req, hex, timestamp, FirstFailing(req, GateOrder).value)
    ensures FirstFailing(req, GateOrder).None? ==>
      Handle(req, hex, timestamp) == Accepted(req, hex, timestamp)
  {
    var g := GateOrder;
    assert g[0] == SessionGate && g[1] == UserGate && g[2] == FileGate && g[3] == ExtensionGate;
    assert g[4] == MimeGate && g[5] == SaveGate && g[6] == CommitGate && g[7] == ResponseGate;
    if req.save.Raised? {
      FirstFailingAt(req, g, 5);
    } else if req.commit.Raised? {
      FirstFailingAt(req, g, 6);
    } else if req.respond.Raised? {
      FirstFailingAt(req, g, 7);
    } else {
      assert forall i :: 0 <= i < |g| ==> Passes(req, g[i]);
    }
  }

  /**
   * The gates fire in order: a request that passes every gate before the
   * k-th and fails the k-th exits there, whatever the later gates would say.
   */
  lemma EarlierGateWins(req: Request, hex: string, timestamp: string, k: nat)
    requires k < |GateOrder|
    requires forall i :: 0 <= i < k ==> Passes(req, GateOrder[i])
    requires !Passes(req, GateOrder[k])
    ensures Handle(req, hex, timestamp) == Rejection(req, hex, timestamp, GateOrder[k])
  {
    FirstFailingAt(req, GateOrder, k);
    HandleFollowsGateOrder(req, hex, timestamp);
  }

  /**
   * No session user gives 401; a session user without a row gives 404; a
   * known user without a file gives 400. All three count as failures and
   * store nothing.
   */
  lemma IdentityAndPresenceGates(req: Request, hex: string, timestamp: string)
    ensures req.sessionUser.None? ==>
      Handle(req, hex, timestamp) == Exit(Response(false, 401, "Not logged in", None), [Failed], None)
    ensures req.sessionUser.Some? && req.user.None? ==>
      Handle(req, hex, timestamp) == Exit(Response(false, 404, "User not found", None), [Failed], None)
    ensures req.sessionUser.Some? && req.user.Some? && req.file.None? ==>
      Handle(req, hex, timestamp) == Exit(Response(false, 400, "No file provided", None), [Failed], None)
  {
  }

  /**
   * The extension is checked before the MIME type: a disallowed extension is
   * rejected with the extension message whatever MIME type the part has.
   */
  lemma ExtensionCheckedBeforeMime(req: Request, mimetype: string, hex: string, timestamp: string)
    requires req.sessionUser.Some? && req.user.Some? && req.file.Some?
    requires !AllowedFile(req.file.value.filename)
    ensures Handle(req.(file := Some(req.file.value.(mimetype := mimetype))), hex, timestamp)
            == Handle(req, hex, timestamp)
            == Exit(Response(false, 400, FileTypeNotAllowed, None), [Unauthorized], None)
  {
  }

  /**
   * An allowed extension with a MIME type outside the allow-set (compared
   * exactly) is rejected with the MIME message, whatever happens afterwards.
   */
  lemma MimeRejectedAfterExtension(req: Request, hex: string, timestamp: string)
    requires req.sessionUser.Some? && req.user.Some? && req.file.Some?
    requires AllowedFile(req.file.value.filename) && !AllowedMime(req.file.value.mimetype)
    ensures Handle(req, hex, timestamp) == Exit(Response(false, 400, InvalidFileType, None), [Unauthorized], None)
  {
  }

  /**
   * Success happens exactly when every gate passes and the save, the commit
   * and the building of the body all complete; the record then holds the
   * generated name, its path under the upload folder and the user's id.
   */
  lemma SuccessExactlyWhenPersisted(req: Request, hex: string, timestamp: string)
    ensures Handle(req, hex, timestamp).response.success <==>
      && req.sessionUser.Some? && req.user.Some? && req.file.Some?
      && AllowedFile(req.file.value.filename) && AllowedMime(req.file.value.mimetype)
      && req.save.Completed? && req.commit.Completed? && req.respond.Completed?
    ensures Handle(req, hex, timestamp).response.success ==>
      var name := SafeFilename(req.file.value.filename, hex, timestamp);
      Handle(req, hex, timestamp).response
        == Response(true, 200, UploadSucceeded, Some(FileRecord(name, JoinPath(UploadFolder, name), req.user.value.id)))
  {
    if && req.sessionUser.Some? && req.user.Some? && req.file.Some?
       && AllowedFile(req.file.value.filename) && AllowedMime(req.file.value.mimetype)
       && req.save.Completed? && req.commit.Completed? && req.respond.Completed?
    {
      var name := SafeFilename(req.file.value.filename, hex, timestamp);
      var record := Some(FileRecord(name, JoinPath(UploadFolder, name), req.user.value.id));
      assert Handle(req, hex, timestamp) == Exit(Response(true, 200, UploadSucceeded, record), [Successful], record);
    } else if req.sessionUser.None? || req.user.None? || req.file.None? {
      IdentityAndPresenceGates(req, hex, timestamp);
    } else if !AllowedFile(req.file.value.filename) {
      assert Handle(req, hex, timestamp) == Reject(400, FileTypeNotAllowed, Unauthorized);
    } else if !AllowedMime(req.file.value.mimetype) {
      assert Handle(req, hex, timestamp) == Reject(400, InvalidFileType, Unauthorized);
    } else if req.save.Raised? || req.commit.Raised? {
      PersistFailureIsServerError(req, hex, timestamp);
    } else {
      assert Handle(req, hex, timestamp).outcomes == [Successful, Failed];
    }
  }

  /**
   * A row is left committed exactly when all five gates pass and the save and
   * the commit complete, whether or not the success body is then built; the
   * row is the one `NewRecord` describes.
   */
  lemma CommittedExactlyWhenPersisted(req: Request, hex: string, timestamp: string)
    ensures Handle(req, hex, timestamp).committed.Some? <==>
      && req.sessionUser.Some? && req.user.Some? && req.file.Some?
      && AllowedFile(req.file.value.filename) && AllowedMime(req.file.value.mimetype)
      && req.save.Completed? && req.commit.Completed?
  {
    if && req.sessionUser.Some? && req.user.Some? && req.file.Some?
       && AllowedFile(req.file.value.filename) && AllowedMime(req.file.value.mimetype)
       && req.save.Completed? && req.commit.Completed?
    {
      assert Successful in Handle(req, hex, timestamp).outcomes;
    } else if req.sessionUser.None? || req.user.None? || req.file.None? {
      IdentityAndPresenceGates(req, hex, timestamp);
    } else if !AllowedFile(req.file.value.filename) {
      assert Handle(req, hex, timestamp) == Reject(400, FileTypeNotAllowed, Unauthorized);
    } else if !AllowedMime(req.file.value.mimetype) {
      assert Handle(req, hex, timestamp) == Reject(400, InvalidFileType, Unauthorized);
    } else {
      PersistFailureIsServerError(req, hex, timestamp);
    }
  }

  /**
   * A request that passes all five gates but whose save or commit raises gets
   * a 500 carrying the first exception's text, counts as a failure only and
   * leaves no row committed.
   */
  lemma PersistFailureIsServerError(req: Request, hex: string, timestamp: string)
    requires req.sessionUser.Some? && req.user.Some? && req.file.Some?
    requires AllowedFile(req.file.value.filename) && AllowedMime(req.file.value.mimetype)
    requires req.save.Raised? || req.commit.Raised?
    ensures Handle(req, hex, timestamp).outcomes == [Failed]
    ensures Handle(req, hex, timestamp).committed.None?
    ensures Handle(req, hex, timestamp).response
            == Response(false, 500, if req.save.Raised? then req.save.detail else req.commit.detail, None)
  {
  }

  /**
   * A request whose row is committed but whose success body then raises gets
   * a 500 with the exception text and no record in the body, while the
   * user's row stays committed; it counts as a success and then as a
   * failure: balanced counters stop being balanced, and the success counter
   * grows for a request that did not get a 200.
   */
  lemma ResponseFailureCountsTwice(m: MetricsSnapshot, req: Request, hex: string, timestamp: string)
    requires req.sessionUser.Some? && req.user.Some? && req.file.Some?
    requires AllowedFile(req.file.value.filename) && AllowedMime(req.file.value.mimetype)
    requires req.save.Completed? && req.commit.Completed? && req.respond.Raised?
    requires Balanced(m)
    ensures Handle(req, hex, timestamp).response == Response(false, 500, req.respond.detail, None)
    ensures Handle(req, hex, timestamp).outcomes == [Successful, Failed]
    ensures Handle(req, hex, timestamp).committed.Some?
    ensures Handle(req, hex, timestamp).committed.value.userId == req.user.value.id
    ensures !Balanced(RecordRequest(m, Handle(req, hex, timestamp).outcomes))
    ensures RecordRequest(m, Handle(req, hex, timestamp).outcomes).successfulUploads == m.successfulUploads + 1
  {
    RecordRequestExits(m);
  }

  /**
   * The single outcome a request counts when the success counter is bumped
   * only after the success body is built: the last counter the route bumps.
   * It is the success counter exactly when the answer is a 200, and the
   * unauthorized counter exactly when the route counts that one.
   */
  function CountedOnce(req: Request, hex: string, timestamp: string): (c: Counter)
    ensures c == Successful <==> Handle(req, hex, timestamp).response.status == 200
    ensures c == Unauthorized <==> Unauthorized in Handle(req, hex, timestamp).outcomes
    ensures c in Handle(req, hex, timestamp).outcomes
  {
    var o := Handle(req, hex, timestamp).outcomes;
    if |o| == 1 then
      assert o == [o[0]];
      o[0]
    else
      assert o == [Successful, Failed];
      Failed
  }

  /** One request of a run, with the uuid hex and the timestamp drawn for it. */
  datatype Attempt = Attempt(req: Request, hex: string, timestamp: string)

  /** The outcomes of a run of requests, each counted once. */
  function CountedOnceRun(run: seq<Attempt>): (outcomes: seq<Counter>)
    ensures |outcomes| == |run|
  {
    if run == [] then []
    else [CountedOnce(run[0].req, run[0].hex, run[0].timestamp)] + CountedOnceRun(run[1..])
  }

  /** The number of requests in `run` answered with a 200. */
  function Successes(run: seq<Attempt>): nat {
    if run == [] then 0
    else (if Handle(run[0].req, run[0].hex, run[0].timestamp).response.status == 200 then 1 else 0)
         + Successes(run[1..])
  }

  /**
   * With every request counted once, the counters from process start stay
   * balanced, the total is the number of requests, and the success counter is
   * the number of 200 answers.
   */
  lemma {:induction false} CountedOnceBalanced(run: seq<Attempt>)
    ensures Balanced(Replay(Initial, CountedOnceRun(run)))
    ensures Replay(Initial, CountedOnceRun(run)).totalUploads == |run|
    ensures Replay(Initial, CountedOnceRun(run)).successfulUploads == Successes(run)
  {
    var outcomes := CountedOnceRun(run);
    ReplayFromInitialBalanced(outcomes);
    ReplayCounts(Initial, outcomes);
    assert CounterValue(Replay(Initial, outcomes), Successful) == multiset(outcomes)[Successful];
    SuccessesCounted(run);
  }

  /** Counting 200 answers is counting the success outcomes among the counted-once outcomes. */
  lemma {:induction false} SuccessesCounted(run: seq<Attempt>)
    ensures multiset(CountedOnceRun(run))[Successful] == Successes(run)
  {
    if run != [] {
      var c, rest := CountedOnce(run[0].req, run[0].hex, run[0].timestamp), CountedOnceRun(run[1..]);
      SuccessesCounted(run[1..]);
      assert multiset([c] + rest) == multiset{c} + multiset(rest);
    }
  }

  /**
   * The random hex and the timestamp only name the stored file: the status,
   * the message and the counted outcomes do not depend on them.
   */
  lemma OutcomeIgnoresNaming(req: Request, hex1: string, ts1: string, hex2: string, ts2: string)
    ensures Handle(req, hex1, ts1).outcomes == Handle(req, hex2, ts2).outcomes
    ensures Handle(req, hex1, ts1).response.status == Handle(req, hex2, ts2).response.status
    ensures Handle(req, hex1, ts1).response.message == Handle(req, hex2, ts2).response.message
  {
    var e1, e2 := Handle(req, hex1, ts1), Handle(req, hex2, ts2);
    if && req.sessionUser.Some? && req.user.Some? && req.file.Some?
       && AllowedFile(req.file.value.filename) && AllowedMime(req.file.value.mimetype)
       && req.save.Completed? && req.commit.Completed? && req.respond.Completed?
    {
      assert e1.outcomes == [Successful] && e2.outcomes == [Successful];
      assert e1.response.message == UploadSucceeded == e2.response.message;
    } else if && req.sessionUser.Some? && req.user.Some? && req.file.Some?
              && AllowedFile(req.file.value.filename) && AllowedMime(req.file.value.mimetype)
              && req.save.Completed? && req.commit.Completed?
    {
      assert e1.outcomes == [Successful, Failed] && e2.outcomes == [Successful, Failed];
      assert e1.response.message == req.respond.detail == e2.response.message;
    } else {
      assert e1 == e2;
    }
  }

  /**
   * Every stored upload, named from a uuid hex and a timestamp, gets a name of
   * the shape `{32 hex}_{14 digits}.{ext}` with `ext` the lower-cased
   * extension of the uploaded name, drawn from the allow-set, and a path
   * directly inside the upload folder.
   */
  lemma StoredNameShape(req: Request, hex: string, timestamp: string)
    requires IsUuidHex(hex) && IsTimestamp(timestamp)
    requires Handle(req, hex, timestamp).response.success
    ensures var record := Handle(req, hex, timestamp).response.file.value;
            && ParseStorageName(record.filename)
               == Some(StorageName(hex, timestamp, Lower(Extension(req.file.value.filename).value)))
            && Lower(Extension(req.file.value.filename).value) in AllowedExtensions
            && '/' !in record.filename
            && record.filePath == UploadFolder + "/" + record.filename
  {
    SuccessExactlyWhenPersisted(req, hex, timestamp);
    var f := req.file.value.filename;
    ParseSafeFilename(f, hex, timestamp);
    StoragePathInsideUploadFolder(f, hex, timestamp);
    SafeFilenameStaysAllowed(f, hex, timestamp);
  }

  /**
   * A signed-in, known user uploading `<stem>.pdf` (such as `report.pdf`)
   * as `application/pdf`, with the save, the commit and the body completing:
   * a 200 whose record name parses back to the random part, the timestamp
   * and "pdf", counted once as a success.
   */
  lemma PdfUploadScenario(req: Request, stem: string, hex: string, timestamp: string)
    requires IsUuidHex(hex) && IsTimestamp(timestamp)
    requires req.sessionUser.Some? && req.user.Some?
    requires req.file == Some(FilePart(stem + "." + "pdf", "application/pdf"))
    requires req.save == Completed && req.commit == Completed && req.respond == Completed
    ensures Handle(req, hex, timestamp).response.status == 200
    ensures Handle(req, hex, timestamp).response.file.Some?
    ensures ParseStorageName(Handle(req, hex, timestamp).response.file.value.filename)
            == Some(StorageName(hex, timestamp, "pdf"))
    ensures Handle(req, hex, timestamp).outcomes == [Successful]
  {
    assert Lower("pdf") == "pdf";
    AllowedFileSplit(stem, "pdf");
    ExtensionOfJoin(stem, "pdf");
    assert AllowedMime(req.file.value.mimetype);
    StoredNameShape(req, hex, timestamp);
  }
}
