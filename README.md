# Upload ingestion of the files route

A Dafny model of the upload core of `Routes/files.py`. The route accepts one
file per request from a signed-in user. It checks the file's extension, and
the MIME type werkzeug reports for the part, against fixed allow-sets. It
stores the file under a generated name, records a `File` row for it, and keeps
four process-wide counters of upload outcomes.

- `file_types.dfy` (module `FileTypes`): the allow-sets, ASCII lower-casing,
  the "text after the last dot" split (`rsplit('.', 1)[1]`), the
  `allowed_file` predicate (`AllowedFile`) and the MIME membership test
  (`AllowedMime`).
- `naming.dfy` (module `Naming`): `generate_safe_filename` (`SafeFilename`).
  The random hex and the formatted timestamp are parameters. The module also
  has `os.path.join` (`JoinPath`) and a parser for generated names
  (`ParseStorageName`), which serves as the inverse of the name builder.
- `metrics.dfy` (module `Metrics`): `upload_metrics` as the class
  `UploadMetrics` with four `nat` fields and one method per
  `upload_metrics[key] += 1` (`BumpTotal`, `Bump`). It also defines:
  - the effect of one request on the counters: `RecordRequest` for the total
    and any sequence of outcome counters, and `Record` for a single outcome;
  - replay over a sequence of requests;
  - the balance invariant `total == failed + successful + unauthorized`;
  - `get_metrics` (`GetMetrics`).
- `upload.dfy` (module `Upload`): `upload_file` as the imperative method
  `UploadFile`. It bumps the total, then takes an early return at each gate
  in the source's order: session, user row, file present, extension, MIME.
  Inside the `try` it saves, commits, bumps the success counter and builds
  the success body. `UploadFile` is proved equal to the specification
  function `Handle`. A second, table-driven definition of the gates
  (`GateOrder`, `Passes`, `Rejection`) is proved to agree with `Handle`.
- `wrappers.dfy` (module `Wrappers`): the `Option` type.

Each request is an abstract record with these fields:

- the session's username, if any;
- the user row the lookup found, if any;
- the file part, if any, with its sanitised filename and `file.mimetype` as
  werkzeug reports it;
- how the save ended (`file.save`);
- how the commit ended (`File(...)`, `db.session.add` and `commit` together);
- how building the success body ended (`new_file.to_dict()` and `jsonify`).

Each of the last three either completes or raises with an exception text.
The response is the JSON `success` flag, the HTTP status, the message or
error text, and the record in the success body. An exit also lists the
outcome counters the request bumps after the total, in order, and the `File`
row left committed in the database, if any. That row exists after a
successful commit even when building the success body then raises, and a
success body always carries it.

## Model

| member | source | states |
|---|---|---|
| `FileTypes.LowerChar` | Routes/files.py:38 | the lower-cased character is never upper-case; it is '.' exactly when the input is; non-upper-case characters are unchanged |
| `FileTypes.Lower` | Routes/files.py:38 | `lower()` keeps the length, leaves no upper-case letter, and keeps the presence of '.' |
| `FileTypes.LowerAppend` | Routes/files.py:42 | lower-casing commutes with concatenation |
| `FileTypes.LowerIdempotent` | Routes/files.py:42 | lower-casing an already lower-cased string changes nothing |
| `FileTypes.LastDot` | Routes/files.py:38 | absent exactly when there is no '.'; otherwise the index of a '.' with no '.' after it |
| `FileTypes.Extension` | Routes/files.py:38 | present exactly when the name has a '.'; contains no '.'; the name ends with '.' followed by it |
| `FileTypes.ExtensionOfJoin` | Routes/files.py:38 | the text after the last '.' of `p + "." + e` is `e` whenever `e` has no '.' |
| `FileTypes.AllowedFile` | Routes/files.py:36-38 | `allowed_file`: a '.' is present and the lower-cased text after the last one is in the allow-set; an accepted name has an extension of three or four characters |
| `FileTypes.AllowedMime` | Routes/files.py:77 | `file.mimetype in ALLOWED_MIME_TYPES`, an exact set test; every allowed type contains '/' and no upper-case letter |
| `FileTypes.AllowedFileSplit` | Routes/files.py:21-38 | `p + "." + e` (no '.' in `e`) passes `allowed_file` exactly when `lower(e)` is one of pdf, png, jpg, jpeg, gif |
| `FileTypes.NoDotRejected` | Routes/files.py:38 | a name without '.' is rejected |
| `FileTypes.TrailingDotRejected` | Routes/files.py:38 | a name ending in '.' is rejected |
| `FileTypes.ExtensionOfLower` | Routes/files.py:38 | the extension of the lower-cased name is the lower-cased extension |
| `FileTypes.AllowedFileCaseInsensitive` | Routes/files.py:38 | two names equal up to case are accepted or rejected alike |
| `FileTypes.ExtensionExamples` | Routes/files.py:21-38 | whatever precedes the last '.', the endings `.pdf`, `.PNG` and `.jpg` pass and `.exe` fails (as in `report.pdf`, `photo.PNG`, `evil.exe.jpg`, `malware.exe`, `photo.png.exe`) |
| `FileTypes.MimeExamples` | Routes/files.py:22 | membership in `ALLOWED_MIME_TYPES` is exact: `image/png` is a member; the string `IMAGE/PNG` and `application/x-sh` are not |
| `Naming.SafeFilename` | Routes/files.py:40-44 | the name starts with the random part, and its own extension is the input's lower-cased extension, whatever the hex and timestamp contain |
| `Naming.ParseStorageName` | Routes/files.py:43-44 | a parsed name has a 32-digit hex part, a 14-digit timestamp and a dot-free extension, and it is their `hex_ts.ext` concatenation |
| `Naming.ParseSafeFilename` | Routes/files.py:40-44 | round trip: parsing a generated name gives back the hex, the timestamp and the lower-cased extension |
| `Naming.SafeFilenamesDistinct` | Routes/files.py:44 | distinct random parts of equal length give distinct names, whatever the filenames and timestamps |
| `Naming.SafeFilenameInjective` | Routes/files.py:43-44 | with well-formed hex and timestamps, equal names mean equal hex, timestamp and extension |
| `Naming.SafeFilenameStaysAllowed` | Routes/files.py:40-44 | the generated name of an accepted file passes `allowed_file`; its extension is in the allow-set and equals the input's lower-cased extension |
| `Naming.JoinPath` | Routes/files.py:84 | `os.path.join(folder, name)` ends with `name`, and starts with `folder` unless `name` is absolute |
| `Naming.NoSlashInAllowedExtension` | Routes/files.py:21 | no allowed extension contains '/' |
| `Naming.StoragePathInsideUploadFolder` | Routes/files.py:23-84 | a generated name contains no '/', so its path is `uploads/<name>` |
| `Metrics.Increment` | Routes/files.py:55 | `upload_metrics[key] += 1` raises that counter by one and leaves the total and the other two outcome counters alone |
| `Metrics.Record` | Routes/files.py:50-100 | a request with one outcome adds 1 to the total and 1 to its outcome counter, leaves the other two unchanged, and keeps the counters balanced |
| `Metrics.IncrementAll` | Routes/files.py:95-99 | bumping a sequence of outcome counters leaves the total alone and raises the sum of the three by the sequence's length |
| `Metrics.RecordRequest` | Routes/files.py:50-100 | a request adds 1 to the total and raises the outcome sum by its number of outcomes; balanced counters stay balanced exactly when that number is one |
| `Metrics.IncrementAllCounts` | Routes/files.py:50-100 | each outcome counter grows by the number of times it occurs among the request's outcomes |
| `Metrics.RecordRequestExits` | Routes/files.py:50-100 | the four counter moves the route makes: total plus one of failed, unauthorized or successful, or plus both successful and failed |
| `Metrics.RecordRequestSingle` | Routes/files.py:50-100 | a request with a single outcome moves the counters exactly as `Record` does |
| `Metrics.Replay` | Routes/files.py:27-100 | the counters after a sequence of requests counted once each, in order |
| `Metrics.ReplayCounts` | Routes/files.py:27-100 | after a sequence of requests the total grows by their number, and each outcome counter grows by the number of requests with that outcome |
| `Metrics.ReplayFromInitialBalanced` | Routes/files.py:27-100 | from all-zero counters, any sequence of requests counted once each leaves `total == failed + successful + unauthorized` |
| `Metrics.MultisetOfOutcomes` | Routes/files.py:50-100 | every request's outcome is one of the three outcome counters |
| `Metrics.UploadMetrics.BumpTotal` | Routes/files.py:50 | `upload_metrics["total_uploads"] += 1` raises the total by one and changes nothing else |
| `Metrics.UploadMetrics.Bump` | Routes/files.py:55-99 | `upload_metrics[key] += 1` for an outcome key moves the counters as `Increment` says |
| `Metrics.UploadMetrics.constructor` | Routes/files.py:27-32 | the counters start at zero, and zero counters are balanced |
| `Metrics.GetMetrics` | Routes/files.py:102-105 | reports the four counters as they are and changes nothing; balanced counters give a balanced report |
| `Upload.NewRecord` | Routes/files.py:83-93 | the `File` row exists exactly for a known user's file with an allowed name; it belongs to that user and has an allowed name that starts with the random part, at `JoinPath(uploads, name)` |
| `Upload.Handle` | Routes/files.py:46-100 | success, status 200, a record in the success body and the success counter alone go together; the status is one of 200/400/401/404/500; an exit counts one outcome, or success then failure with a 500; type rejections are 400s; a row is committed exactly when the success counter is bumped; it is `NewRecord`'s row, and a success body carries that same row |
| `Upload.UploadFile` | Routes/files.py:46-100 | answers and commits as `Handle` does; the counters move by `RecordRequest` for `Handle`'s outcomes; balanced counters stay balanced exactly when the request counts one outcome |
| `Upload.Passes` | Routes/files.py:53-96 | the pass condition of each gate: session, user row, file, extension, MIME type, save, commit, success body |
| `Upload.Rejection` | Routes/files.py:53-100 | a gate's exit is never a success and its body has no record; its status is 400, 401, 404 or 500; every gate but the success-body gate counts one outcome and commits no row; the success-body gate leaves `NewRecord`'s row committed and bumps the success counter |
| `Upload.FirstFailing` | Routes/files.py:53-96 | absent exactly when every gate passes; otherwise the result is a gate that fails |
| `Upload.FirstFailingAt` | Routes/files.py:53-96 | the gate at position k decides when all earlier gates pass and it fails |
| `Upload.Accepted` | Routes/files.py:83-96 | the stored exit is a 200 counted once as a success; its body carries the committed row, which belongs to the user and carries an allowed name |
| `Upload.HandleFollowsGateOrder` | Routes/files.py:53-100 | the route's exit is the rejection of the first failing gate in `GateOrder` (session, user, file, extension, MIME, save, commit, success body); otherwise the stored success |
| `Upload.RequestGatesInOrder` | Routes/files.py:53-80 | when one of the first five gates fails, the first one to fail decides the exit |
| `Upload.PersistGatesInOrder` | Routes/files.py:86-100 | past the first five gates, the first failing step inside the `try` decides the exit, and otherwise the upload is stored |
| `Upload.EarlierGateWins` | Routes/files.py:53-100 | a failing gate decides the exit whatever the later gates would say |
| `Upload.IdentityAndPresenceGates` | Routes/files.py:53-68 | no session gives 401 "Not logged in"; then no user row gives 404 "User not found"; then no file gives 400 "No file provided"; all three count as failed and store nothing |
| `Upload.ExtensionCheckedBeforeMime` | Routes/files.py:70-80 | a disallowed extension gives 400 with the extension message and counts as unauthorized, whatever the MIME type |
| `Upload.MimeRejectedAfterExtension` | Routes/files.py:76-80 | an allowed extension with a MIME type outside the set gives 400 with the MIME message and counts as unauthorized |
| `Upload.SuccessExactlyWhenPersisted` | Routes/files.py:83-96 | success exactly when all gates pass and the save, the commit and the success body complete; the record holds the generated name, its path under `uploads` and the user's id |
| `Upload.CommittedExactlyWhenPersisted` | Routes/files.py:53-93 | a row is left committed exactly when all five gates pass and the save and commit complete, whatever the success body does |
| `Upload.PersistFailureIsServerError` | Routes/files.py:86-100 | a failed save or commit gives 500 with the exception text, counts as failed only, and leaves no row committed |
| `Upload.ResponseFailureCountsTwice` | Routes/files.py:95-100 | a committed upload whose success body raises gets a 500 with no record in the body while the user's row stays committed, yet counts as successful and then failed; balanced counters become unbalanced |
| `Upload.CountedOnce` | Routes/files.py:95-100 | the single outcome of a request when success is counted only after the body is built: successful exactly for a 200, unauthorized exactly when the route counts that |
| `Upload.CountedOnceRun` | Routes/files.py:50-100 | one counted-once outcome per request, each request with its own uuid hex and timestamp |
| `Upload.Successes` | Routes/files.py:96 | the number of requests answered with a 200 |
| `Upload.SuccessesCounted` | Routes/files.py:95-96 | among counted-once outcomes, the successes are exactly the 200 answers |
| `Upload.CountedOnceBalanced` | Routes/files.py:27-100 | with each request counted once, the counters from start stay balanced, the total is the number of requests, and the success counter is the number of 200 answers |
| `Upload.OutcomeIgnoresNaming` | Routes/files.py:43-100 | the status, message and counted outcomes do not depend on the random hex or the timestamp |
| `Upload.StoredNameShape` | Routes/files.py:83-84 | a stored upload's name parses as `{32 hex}_{14 digits}.{ext}`, with `ext` the validated extension from the allow-set; its path is `uploads/<name>` |
| `Upload.PdfUploadScenario` | Routes/files.py:46-96 | a known user's `<stem>.pdf` upload as `application/pdf` that saves, commits and builds its body gives 200 and a name that parses back to hex, timestamp and `pdf`, counted once as a success |

## Findings

| source | as written | input that shows it | evidently intended | confidence | as-written member | corrected member |
|---|---|---|---|---|---|---|
| Routes/files.py:95-100 | `successful_uploads` is bumped at line 95 before the success body is built at line 96. If `new_file.to_dict()` or `jsonify` raises, the `except` at lines 97-100 also bumps `failed_uploads` and answers 500 with no record in the body, while the row committed at line 93 stays | a signed-in known user, an allowed name and MIME type, save and commit completing, and `to_dict()` raising | every request counts under exactly one outcome, and `successful_uploads` counts only 200 answers: the success bump belongs after the body is built | not executed; needs `to_dict()` or `jsonify` to raise | `Upload.ResponseFailureCountsTwice` | `Upload.CountedOnceBalanced` |

`UploadFile` and `Handle` keep the counting as written. The whole-run results
(`Metrics.Replay`, `Metrics.ReplayFromInitialBalanced`,
`Upload.CountedOnceBalanced`) use the corrected counting, where each request
counts its `CountedOnce` outcome.

## Left out

- Flask plumbing is not modelled: the blueprint, route decorators, `request`, `session` and `jsonify`. A request is an abstract record and a response a value.
- `werkzeug.utils.secure_filename` is not part of this model. The file part carries its output as the filename.
- Whether `request.files.get('file')` is truthy is taken as input (the file part is present or absent). Werkzeug's truthiness rule for a file object is not part of this model.
- `file.mimetype` is taken as werkzeug reports it. Werkzeug derives it from the part's Content-Type header, lower-cased and without parameters; that parsing is not part of this model. The model tests the given string for exact membership in the allow-set.
- `FileTypes.Lower` models ASCII case mapping only. Python's `str.lower` maps non-ASCII letters too. The sanitised filenames it is applied to are ASCII.
- `Naming.SafeFilename` requires a '.' in the filename. Without one, `rsplit('.', 1)[1]` raises `IndexError`. The only caller reaches it after `allowed_file`, which guarantees a '.'.
- `uuid.uuid4` and `datetime.now().strftime` become the `hex` and `timestamp` parameters. Entropy and collision probability are not modelled. Uniqueness is proved for distinct hex strings of equal length.
- `file.save` becomes the save outcome. `File(...)`, `db.session.add` and `db.session.commit` together become the commit outcome. `new_file.to_dict()` and `jsonify` together become the success-body outcome. The text of a raised exception is part of the input. Bytes left on disk when the commit fails are not modelled.
- The import-time `os.makedirs(UPLOAD_FOLDER, exist_ok=True)` at line 24 is not modelled.
- `Upload.UploadFile` and `Upload.Handle` do not model an exception raised outside the `try`. That covers the user query (line 58), `request.files.get` (line 64), `secure_filename` (line 70), `file.mimetype` (line 77), and the name generation and path join (lines 83-84). Such an exception would leave the total bumped with no outcome counter, so the counters would stop being balanced. The balance claims hold only for requests that reach one of the route's own returns.
- The user lookup is an input (a row, or none). No check ties the row's username to the session's.
- The contents of the success payload's `new_file.to_dict()` are not part of this model (`models/file.py` is not part of this model). The response carries the three columns the route sets: filename, path and user id.
- Logging calls and the elapsed-time measurement are left out: they are I/O and floating point.
- Concurrent updates of the shared counters are left out. The source increments a plain dict with no synchronisation. The model treats the counters as a single-threaded object, so lost updates between simultaneous requests are not captured.
- The metrics endpoint has no access control. That is a property of the route, not of the counters, and it is not modelled.
