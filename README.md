# ECG monitoring system — a Dafny model of its core

The ECG monitoring system lets a doctor register a patient and an
acquisition configuration, start and stop an electrocardiogram capture on a
Raspberry Pi, watch the pictures of the signal appear on the page
while the capture runs, and write a diagnostic. It has three layers:

- a browser layer (`ecg-realtime.js`, `main.js`): the real-time capture
  controller of the diagnostic details page and the shared page script;
- a PHP layer: the pages (patient configuration, diagnostic), the JSON
  gateway `api/ecg_control.php` in front of the capture service, and the
  helpers for the database, security, authentication and formatting;
- a Python layer: the Flask capture service (`ecg_service.py`), its
  registry of capture processes (`process_manager.py`) and the capture loop
  that runs in each process (`ecg_capture.py`).

The model has one Dafny module per source file, plus four shared modules:
`Wrappers` (Option), `Text` (decimal and hexadecimal text, padding, split
and join), `Json` (a JSON value and key lookup) and `Php` (the PHP built-ins
the code depends on: `trim`, `empty`, `is_numeric`, the `(int)` cast,
`htmlspecialchars`, `basename`, `isset`).

- **State the source changes in place** is modelled as a class whose fields
  the methods reassign:
  - the controller (`EcgRealtime.Controller`);
  - the process registry (`ProcessManager.Manager`);
  - the capture object (`EcgCapture.Capture`);
  - `$_SESSION` (`Security.SessionStore`);
  - the memoised database connection (`Database.ConnectionCache`);
  - the dropdown menus (`MainJs.Dropdowns`, over an array).
- **How each method is specified:** its `ensures` ties the new state to a
  pure transition function. The properties the source promises are proved
  about those functions as lemmas, and are kept as class invariants.
- **Decisions without state of their own** are pure functions:
  - the gateway's routing;
  - the service's replies;
  - the form validators (the server-side one is a method, because the page
    fills `$errors` one `if` at a time);
  - the SQL builders and the formatters.

Everything outside the program is an input of the member that uses it:
- the answer of every HTTP request, database query and SPI read;
- every clock reading;
- the bytes `random_bytes` returns.

The controller keeps logs of the requests it sends, the notifications it
raises, the downloads it starts and the timers it sets. With these logs,
"exactly one refresh", "never fetches" and "no live interval" can be
stated.

Where the code does something other than what its comments and
documentation describe, the model follows the code. The places where this
happens:

- `configuration.php` reads `$DEBUG`, a variable the page never defines (the
  configuration constant is `DEBUG`), so the exception message is always the
  generic one.
- `update` returns `rowCount()`, which is 0 when a form is saved with all
  values unchanged; the diagnostic page then reports an update error
  (`Diagnostic.UnchangedUpdateReportsError`).
- The gateway takes the last two path segments as action and id, so
  `/api/ecg_control.php/health` yields the id `health` and is refused with
  400 before the health action is reached (`EcgControl.HealthPathIsRejected`).
- `auth.php` attempts the remember-me login when `logged_in` is not exactly
  `true`, but `checkRememberToken` skips on `isset`, so a session whose flag
  holds anything else is never auto-logged-in
  (`Auth.StaleFlagBlocksRememberLogin`).
- The gallery caches images under numeric ids, while
  `downloadCurrentImage` reads the id back from an attribute as a string;
  JavaScript `Map` keys of different types never match, so that download
  always fetches again (`EcgRealtime.Controller.DownloadCurrentImage`).
- A second successful start without a stop in between overwrites the
  capture-timer handle, leaving an interval that neither the stop nor
  `destroy` clears (`EcgRealtime.OrphanedCaptureTimer`).
- `ecg_control.php` answers 401 to a request that is not logged in, but
  by then it has included `auth.php`, whose `checkAuth()` has already sent
  such a request to `/login.php` and stored the requested URI and a login
  message in the session. The 401 is never sent
  (`EcgControl.UnauthorizedIsUnreachable`, `EcgControl.LoggedOutIsRedirected`).
- `start_capture` inserts the stop event before starting the process, so a
  start that raises leaves an event without a process: the two maps of the
  registry need not have the same keys (`ProcessManager.FailedStartDiverges`).

## Model

| member | source | states |
|---|---|---|
| EcgRealtime.EffectiveMaxRetries | web/public/js/ecg-realtime.js:14 | a configured non-zero value is kept; a missing or zero one becomes 3 |
| EcgRealtime.FailureText | web/public/js/ecg-realtime.js:115 | the reply's error text when non-empty, otherwise the action's default message |
| EcgRealtime.FormatElapsedReadsBack | web/public/js/ecg-realtime.js:413-417 | the timer text is minutes, a colon and exactly two digits of seconds; reading them back gives the elapsed seconds; five characters exactly below 100 minutes |
| EcgRealtime.JsQuot | web/public/js/ecg-realtime.js:415 | the quotient JavaScript's `%` truncates to: the floor for a non-negative dividend; for a negative one at most 0 and the nearest multiple of the divisor not below the dividend |
| EcgRealtime.JsRem | web/public/js/ecg-realtime.js:415 | JavaScript's `%`: the dividend is the truncated quotient times the divisor plus the remainder, so the remainder is fixed; it is the usual remainder for a non-negative dividend, and for a negative one it keeps the sign (above minus the divisor, at most 0) |
| EcgRealtime.NegativeElapsedShowsMinus | web/public/js/ecg-realtime.js:413-417 | a clock set back before the start makes the timer text start with a minus sign; one second back it reads `-1:-1` |
| EcgRealtime.ElapsedSeconds | web/public/js/ecg-realtime.js:413 | `Math.floor` of the milliseconds over 1000: the whole seconds between two readings, bounded on both sides, and negative exactly when the clock reads earlier than the start |
| EcgRealtime.ThumbnailsWriteOnlyOnSuccess | web/public/js/ecg-realtime.js:280-296 | loading thumbnails adds cache entries only for successful replies that carry image data, each entry being that reply's data; every other key keeps its entry or stays absent |
| EcgRealtime.RenderedItems | web/public/js/ecg-realtime.js:213-228 | one gallery item per image, in the order received, each in the state its thumbnail reply left |
| EcgRealtime.RenderedItemsExtend | web/public/js/ecg-realtime.js:224-227 | rendering one more image appends exactly its item |
| EcgRealtime.SessionCount | web/public/js/ecg-realtime.js:442-446 | the counter takes `total_images` only when it is present and non-zero |
| EcgRealtime.StatusStep | web/public/js/ecg-realtime.js:158-183 | success copies `is_running` and resets the retry count; a thrown error adds exactly one retry, keeps `isCapturing`, and stops polling with one notice once the threshold is reached; `success: false` changes nothing |
| EcgRealtime.FailedPollsHaltOnce | web/public/js/ecg-realtime.js:174-181 | consecutive failed polls count up to the threshold, then polling stops with exactly one "connection lost" notice and no further poll runs |
| EcgRealtime.SuccessResetsRetries | web/public/js/ecg-realtime.js:171 | a successful poll sets the retry count to 0 and leaves the polling state alone |
| EcgRealtime.Controller.ThumbRequests | web/public/js/ecg-realtime.js:272-282 | one image request per gallery image, in order, for that image's numeric id |
| EcgRealtime.Controller.ThumbRequestsExtend | web/public/js/ecg-realtime.js:224-227 | one more image adds exactly its request at the end |
| EcgRealtime.Controller.constructor | web/public/js/ecg-realtime.js:7-24 | not capturing, no start time, no timers, empty cache, zero retries, the page as served; `maxRetries` is the effective setting |
| EcgRealtime.Controller.UpdateUI | web/public/js/ecg-realtime.js:393-405 | the status display follows `isCapturing` and nothing else changes |
| EcgRealtime.Controller.ShowNotification | web/public/js/ecg-realtime.js:530-551 | exactly one notice of that text and kind is added |
| EcgRealtime.Controller.SetButtonsLoading | web/public/js/ecg-realtime.js:451-467 | only the buttons' disabled flag changes |
| EcgRealtime.Controller.UpdateImageCount | web/public/js/ecg-realtime.js:435-437 | only the image counter changes |
| EcgRealtime.Controller.UpdateSessionInfo | web/public/js/ecg-realtime.js:442-446 | the counter becomes the session count and nothing else changes |
| EcgRealtime.Controller.StartStatusPolling | web/public/js/ecg-realtime.js:472-479 | a fresh polling interval becomes the only live one, and the handle names it |
| EcgRealtime.Controller.PausePolling | web/public/js/ecg-realtime.js:484-489 | afterwards no polling interval is live and the handle is null; a second call changes nothing |
| EcgRealtime.Controller.ResumePolling | web/public/js/ecg-realtime.js:494-498 | a new interval is started only when none runs; afterwards exactly one runs |
| EcgRealtime.Controller.VisibilityChanged | web/public/js/ecg-realtime.js:81-87 | hidden pauses, shown resumes, and a repeated event changes nothing |
| EcgRealtime.Controller.StartCaptureTimer | web/public/js/ecg-realtime.js:410-420 | a new capture interval is set and its handle replaces the old one, whose interval stays live |
| EcgRealtime.Controller.StopCaptureTimer | web/public/js/ecg-realtime.js:425-430 | the current handle's interval is cleared and the handle becomes null; without a handle nothing changes |
| EcgRealtime.Controller.CaptureTimerTick | web/public/js/ecg-realtime.js:411-418 | while a truthy start time is set, the display shows the elapsed `mm:ss` of any clock reading, negative ones included; otherwise nothing changes |
| EcgRealtime.Controller.BeginAction | web/public/js/ecg-realtime.js:103-106 | buttons disabled, one info notice, then one POST to the action's URL |
| EcgRealtime.Controller.OnStarted | web/public/js/ecg-realtime.js:109-113 | capturing, start time set, display running, a success notice and a new capture interval |
| EcgRealtime.Controller.StartPromises | web/public/js/ecg-realtime.js:101-124 | exactly one start POST; a successful reply sets `isCapturing`, the start time `now` and a new capture interval; a thrown error or `success: false` leaves everything but the notices, the request log and the buttons as it was, and adds exactly the info notice and one "Erreur: " notice with the message; the buttons are enabled again in every case |
| EcgRealtime.Controller.HandleStartCapture | web/public/js/ecg-realtime.js:101-124 | exactly one start POST and the buttons enabled again; a successful reply is capturing from `now` under a new timer handle; a thrown error or `success: false` leaves the capture flag, start time, timer handle, capture intervals, gallery and cache as they were (the whole new state is `AfterStart`, see `StartPromises`) |
| EcgRealtime.Controller.OnStopped | web/public/js/ecg-realtime.js:137-141 | not capturing, no start time, display idle, a success notice, capture timer cleared |
| EcgRealtime.Controller.RefreshKeepsCapture | web/public/js/ecg-realtime.js:188-208 | a gallery refresh sends the list request and the thumbnails of a successful list, and leaves the capture flags, the timers and the status display alone |
| EcgRealtime.Controller.StopSucceeded | web/public/js/ecg-realtime.js:129-153 | a successful stop ends the capture, clears the start time, the timer handle and its interval, and sends the stop POST followed by exactly one gallery request (then its thumbnails); the buttons are enabled again |
| EcgRealtime.Controller.StopFailed | web/public/js/ecg-realtime.js:129-153 | a failed stop sends only the stop POST, so there is no refresh; everything but the notices, the request log and the buttons is as it was, and exactly the info notice and one "Erreur: " notice are added |
| EcgRealtime.Controller.StopReplied | web/public/js/ecg-realtime.js:135-148 | a successful stop reply ends the capture and refreshes the gallery; any other reply only adds the "Erreur: " notice |
| EcgRealtime.Controller.HandleStopCapture | web/public/js/ecg-realtime.js:129-153 | the buttons are enabled again; a successful stop ends the capture with no start time or timer handle and sends the stop POST followed by exactly one gallery request (then its thumbnails); a failed one sends only the stop POST and leaves the capture flag, start time, timer handle, capture intervals, gallery and cache as they were (the whole new state is `AfterStop`, see `StopSucceeded` and `StopFailed`) |
| EcgRealtime.Controller.ApplyStatus | web/public/js/ecg-realtime.js:162-171 | `isCapturing` from the reply, the session count applied, the retry count reset, the display updated |
| EcgRealtime.Controller.CountStatusFailure | web/public/js/ecg-realtime.js:174-181 | one more retry; at the threshold one "connection lost" notice and polling paused |
| EcgRealtime.Controller.CheckCaptureStatus | web/public/js/ecg-realtime.js:158-183 | one status request, then the success, thrown-error or `success: false` transition |
| EcgRealtime.Controller.StatusIsStatusStep | web/public/js/ecg-realtime.js:158-183 | the status handler's effect on the capture flag, retry count, polling and notices is exactly `StatusStep` |
| EcgRealtime.Controller.LoadImageThumbnail | web/public/js/ecg-realtime.js:280-303 | always one request, the cache never read; the cache is written only on a successful reply with image data |
| EcgRealtime.Controller.RenderGallery | web/public/js/ecg-realtime.js:213-228 | the gallery is replaced by exactly the given images in order; the no-images flag is set exactly for an empty list |
| EcgRealtime.Controller.EmptyRender | web/public/js/ecg-realtime.js:217-220 | an empty list clears the gallery, shows the no-images message and sends nothing |
| EcgRealtime.Controller.RenderedStep | web/public/js/ecg-realtime.js:224-227 | the loop step: one more image rendered, cached and requested |
| EcgRealtime.Controller.RenderedAll | web/public/js/ecg-realtime.js:213-228 | the loop over all images ends in the rendering function's state |
| EcgRealtime.Controller.AddGalleryItem | web/public/js/ecg-realtime.js:225-226 | exactly one item appended, with its thumbnail's effect |
| EcgRealtime.Controller.AppendGalleryItems | web/public/js/ecg-realtime.js:224-227 | the `forEach` appends one item per image, in order |
| EcgRealtime.Controller.RefreshGallery | web/public/js/ecg-realtime.js:188-208 | one list request; on success the gallery is re-rendered from the returned list; a thrown error adds one notice; otherwise the page is untouched |
| EcgRealtime.Controller.RefreshShowsReturnedImages | web/public/js/ecg-realtime.js:195-199 | on success the gallery holds exactly the returned images in the returned order and the count equals their number; on failure the page and the cache are unchanged and exactly one request was sent |
| EcgRealtime.Controller.ViewImage | web/public/js/ecg-realtime.js:308-334 | fetches only on a cache miss and caches only a successful reply; with the image in the cache nothing is sent and the cache is unchanged |
| EcgRealtime.Controller.DownloadImage | web/public/js/ecg-realtime.js:339-361 | reads the cache, fetches on a miss, downloads when data is at hand, and never writes the cache |
| EcgRealtime.Controller.DownloadCurrentImage | web/public/js/ecg-realtime.js:366-371 | with a target, the download always sends a new request, because the string key never matches a cached numeric key; without one nothing happens |
| EcgRealtime.Controller.SwitchView | web/public/js/ecg-realtime.js:376-388 | only the view mode changes, to grid for "grid" and to list otherwise; nothing is fetched |
| EcgRealtime.Controller.PollTick | web/public/js/ecg-realtime.js:473-478 | one status check, then one gallery refresh exactly when the controller was capturing before the tick |
| EcgRealtime.Controller.Init | web/public/js/ecg-realtime.js:29-36 | polling started, then the first status reply and the first gallery reply handled in order |
| EcgRealtime.Controller.Destroy | web/public/js/ecg-realtime.js:556-564 | no polling interval, no capture-timer handle (its interval cleared), an empty cache; the capture flags, the retry count, the page and the logs are unchanged |
| EcgRealtime.OrphanedCaptureTimer | web/public/js/ecg-realtime.js:109-113 | two successful starts with a status poll in between leave, after `destroy`, a capture interval that no handle names any more |
| ProcessManager.Cleanup | scripts/process_manager.py:179-185 | the id leaves both maps and every other entry is untouched |
| ProcessManager.Start | scripts/process_manager.py:26-65 | an alive entry refuses the start and changes nothing; otherwise a dead entry is replaced, the stop event recorded, and the process registered exactly when it launched |
| ProcessManager.Stop | scripts/process_manager.py:67-115 | an unknown id returns False and changes nothing; a known one is removed from both maps and returns True; the event is signalled exactly when the process was alive |
| ProcessManager.Running | scripts/process_manager.py:117-138 | True exactly for an alive entry, which stays; a dead entry is removed |
| ProcessManager.RunningProcesses | scripts/process_manager.py:140-160 | the listing holds exactly the alive entries with their pids; every dead entry is removed and the alive ones are kept |
| ProcessManager.PassStart | scripts/process_manager.py:150 | the loop over the entries starts from the registry and an empty listing |
| ProcessManager.PassStep | scripts/process_manager.py:151-158 | one entry handled: an alive one is listed, a dead one cleaned up |
| ProcessManager.PassEnd | scripts/process_manager.py:160 | the loop ends with the listing and registry of `RunningProcesses` |
| ProcessManager.OperationsKeepConsistent | scripts/process_manager.py:26-185 | every registered process has a stop event, before and after each operation |
| ProcessManager.FailedStartDiverges | scripts/process_manager.py:48-58 | a start that raises leaves a stop event without a process |
| ProcessManager.StartThenStop | scripts/process_manager.py:26-115 | after a successful start the capture is running, and a stop then signals it and empties both entries |
| ProcessManager.ListingAgreesWithIsRunning | scripts/process_manager.py:117-160 | an id is in the listing exactly when `is_running` would say True |
| ProcessManager.SecondStartRefused | scripts/process_manager.py:39-42 | a second start while the first process is alive returns False and changes nothing |
| ProcessManager.Manager.constructor | scripts/process_manager.py:21-24 | both maps empty |
| ProcessManager.Manager.CleanupProcess | scripts/process_manager.py:179-185 | the maps become `Cleanup` of the old ones |
| ProcessManager.Manager.StartCapture | scripts/process_manager.py:26-65 | the maps and the result are those of `Start` |
| ProcessManager.Manager.StopCapture | scripts/process_manager.py:67-115 | the maps, the result and the signal are those of `Stop` |
| ProcessManager.Manager.IsRunning | scripts/process_manager.py:117-138 | the maps and the result are those of `Running` |
| ProcessManager.Manager.GetRunningProcesses | scripts/process_manager.py:140-160 | the loop over the entries produces the listing and registry of `RunningProcesses` |
| ProcessManager.Manager.ProcessExited | scripts/process_manager.py:187-214 | a capture process ending marks only its own entry dead |
| EcgService.ErrorReply | scripts/ecg_service.py:44-47 | the given status, with the error text and the id under their keys |
| EcgService.DecideStart | scripts/ecg_service.py:38-72 | a running capture gets 400 with no start attempted and no status written; a successful start gets `status: running` and records running; a failed one gets 500 |
| EcgService.DecideStop | scripts/ecg_service.py:74-101 | 200 with `status: stopped` exactly when the id was registered; otherwise 400 and nothing changes |
| EcgService.DecideStatus | scripts/ecg_service.py:103-125 | 200, with `is_running` exactly the registry's answer and the session info passed through |
| EcgService.DecideImages | scripts/ecg_service.py:127-144 | 200 with the images and `total_images` equal to their number |
| EcgService.DecideImage | scripts/ecg_service.py:146-169 | 404 with an error exactly when the image is missing; otherwise the image's fields |
| EcgService.StartedCaptureIsReported | scripts/ecg_service.py:38-60 | after a successful start, the status route reports the capture as running |
| EcgService.StoppedCaptureIsReported | scripts/ecg_service.py:74-94 | after a stop, the status route reports the capture as not running |
| EcgService.Service.constructor | scripts/ecg_service.py:25-26 | an empty registry and no status written |
| EcgService.Service.StartCapture | scripts/ecg_service.py:38-65 | the registry, reply and status writes are those of `DecideStart` |
| EcgService.Service.StopCapture | scripts/ecg_service.py:74-94 | the registry, reply and status writes are those of `DecideStop` |
| EcgService.Service.GetCaptureStatus | scripts/ecg_service.py:103-118 | the registry and reply are those of `DecideStatus` |
| EcgControl.UpstreamError | web/api/ecg_control.php:142 | the upstream `error` when present and not null, otherwise the action's default |
| EcgControl.ErrorOutcome | web/api/ecg_control.php:113-115 | the given status, an error body and no service call |
| EcgControl.ParsePath | web/api/ecg_control.php:104-109 | action and id are single segments of the trimmed path |
| EcgControl.Relay | web/api/ecg_control.php:132-145 | `http_code === 200` gives 200, `success` and the upstream data passed through unchanged; otherwise the upstream code, or 500 for a connection error, with the upstream or default error and the id |
| EcgControl.DiagnosticAction | web/api/ecg_control.php:120-228 | wrong method 405, missing diagnostic 404, failed lookup 500, all before any call; otherwise exactly one call to the action's service path with the id |
| EcgControl.ImageAction | web/api/ecg_control.php:230-276 | wrong method 405, a non-numeric id 400 and a missing image 404, all before any call; a call is made exactly for a numeric id whose image exists |
| EcgControl.HealthAction | web/api/ecg_control.php:278-301 | wrong method 405; otherwise one call to `/health`, 200 healthy with the data passed through, or 503 unhealthy for any other answer |
| EcgControl.Dispatch | web/api/ecg_control.php:119-307 | an unknown action 404; a wrong method 405 without a call; a call only for a known action with its method |
| EcgControl.Gated | web/api/ecg_control.php:103-116 | a non-empty non-numeric id 400 before any call; otherwise the answer of the `switch`; a call only for a known action with its method |
| EcgControl.Route | web/api/ecg_control.php:13-116 | OPTIONS 200 with no body and nothing else done; otherwise the session, redirect and cookie are those of including `auth.php` for the gateway's script; a redirect is a 302 to `/login.php` with the requested URI and the login message stored; a request that goes on while logged in is answered by `Gated`; a service call is made only then |
| EcgControl.GatewayIsProtected | web/includes/auth.php:100-104 | the gateway's script name is not one of the public pages |
| EcgControl.UnauthorizedIsUnreachable | web/api/ecg_control.php:19-27 | every request past the preflight is either redirected to login or carries a logged-in session, and is then answered by `Gated`: the 401 branch never runs |
| EcgControl.RotationFailureReachesGateway | web/includes/auth.php:20-23 | a logged-out visitor whose remember cookie matches but whose rotation throws is not redirected: the cookie is cleared and the request is answered by `Gated` |
| EcgControl.LoggedOutIsRedirected | web/includes/auth.php:20-23 | a visitor not logged in, with no cookie to try or a cookie that matches no row (or a search that throws), gets a 302 to `/login.php`, with exactly the requested URI and the login message added to the session, and no service call |
| EcgControl.ParseSegments | web/api/ecg_control.php:104-109 | a path `/<prefix>/<action>/<id>` parses into that action and id |
| EcgControl.SlashTrimmed | web/api/ecg_control.php:105 | trimming `/` from a path with one leading slash removes just that slash |
| EcgControl.SplitThree | web/api/ecg_control.php:105 | splitting at `/` yields the prefix's pieces, then the action, then the id |
| EcgControl.ControllerPathParses | web/api/ecg_control.php:104-109 | the controller's URLs `<base>/<action>/<id>` parse back into that action and id |
| EcgControl.ControllerStartIsForwarded | web/api/ecg_control.php:120-138 | a logged-in start for diagnostic n, with the session and cookie untouched, reaches the service's start route for n, and a 200 answer is passed through |
| EcgControl.HealthPathParses | web/api/ecg_control.php:104-109 | `<base>/health` parses into the action `ecg_control.php` and the id `health` |
| EcgControl.HealthPathIsRejected | web/api/ecg_control.php:104-116 | `<base>/health` parses into the id `health`, which a logged-in request gets refused with 400 |
| EcgControl.HealthIsNotNumeric | web/api/ecg_control.php:112 | `health` is not numeric |
| EcgControl.EmptyIdHasNoAction | web/api/ecg_control.php:108-112 | an empty id, which passes the id check, comes with an empty action, and so ends in 404 |
| EcgCapture.DecodeAdc | scripts/ecg_capture.py:84-86 | the decoded value is below 1024 and equals the low 5 bits of the first byte times 32 plus the second byte shifted right by 3 |
| EcgCapture.DecodeIgnoresOtherBits | scripts/ecg_capture.py:85 | the value depends only on those ten bits |
| EcgCapture.AnalogRead | scripts/ecg_capture.py:76-89 | below 1024; a failed or short read gives 0 |
| EcgCapture.AnalogReadDecodes | scripts/ecg_capture.py:84-86 | a read of two bytes gives their decoding |
| EcgCapture.Window | scripts/ecg_capture.py:45-46 | a deque of `maxlen` 500 keeps the last 500 elements, or all of them when there are fewer |
| EcgCapture.WindowAppend | scripts/ecg_capture.py:182-183 | appending to the bounded buffer is the window of the whole history |
| EcgCapture.DequeAppend | scripts/ecg_capture.py:182-183 | one bounded append |
| EcgCapture.WindowChain | scripts/ecg_capture.py:182-183 | the window of a history extended by one element |
| EcgCapture.Samples | scripts/ecg_capture.py:180 | one sample per loop iteration |
| EcgCapture.Times | scripts/ecg_capture.py:181 | one time per loop iteration |
| EcgCapture.AcceptedAppend | scripts/ecg_capture.py:153-154 | one more save adds one to the accepted count exactly when the database accepted it |
| EcgCapture.SampledFacts | scripts/ecg_capture.py:182-185 | the two appends keep the buffers equal in length and at most 500 long, and touch nothing else |
| EcgCapture.PlotFacts | scripts/ecg_capture.py:190-194 | only a non-empty buffer is plotted |
| EcgCapture.SaveFacts | scripts/ecg_capture.py:138-160 | empty image bytes are never saved; `save_count` grows exactly when a non-empty image was accepted |
| EcgCapture.SaveStepFacts | scripts/ecg_capture.py:188-203 | when a save is due: exactly one plot, one save of a non-empty image counted when accepted, and one count report; otherwise nothing; the buffers are untouched |
| EcgCapture.StepFacts | scripts/ecg_capture.py:176-203 | one iteration appends to both buffers in lockstep, counts exactly one sample, and counts a save exactly when one was due, non-empty and accepted |
| EcgCapture.RunWindows | scripts/ecg_capture.py:174-206 | after any number of iterations the buffers hold the last 500 samples and times of the whole run, and every iteration was counted |
| EcgCapture.Capture.constructor | scripts/ecg_capture.py:32-55 | empty buffers and zero counts |
| EcgCapture.Capture.AddSample | scripts/ecg_capture.py:182-185 | both appends and `sample_count + 1` |
| EcgCapture.Capture.SaveToDatabase | scripts/ecg_capture.py:138-160 | the state becomes `AfterSave`, keeping the buffer invariant |
| EcgCapture.Capture.CheckSave | scripts/ecg_capture.py:188-203 | the state and last-save time become those of `SaveStep`, keeping the buffer invariant |
| EcgCapture.Capture.Iterate | scripts/ecg_capture.py:176-206 | one iteration, as `Step`, keeping the buffer invariant |
| EcgCapture.Capture.Run | scripts/ecg_capture.py:162-220 | the loop over all iterations ends in `RunFrom`'s state, keeping the invariant, and the final save count is reported |
| Configuration.FormFieldsTrimmed | web/public/pages/configuration.php:23-28 | every text field is trimmed; a missing duration reads as 0 and a posted one as its `(int)` cast |
| Configuration.TrimmedEdges | web/public/pages/configuration.php:23-27 | trimmed text has no trimmable character at either end |
| Configuration.SecuPatternWithoutNewline | web/public/pages/configuration.php:37 | without a final newline `^\d{15}$` means exactly fifteen digits, and a match is never empty |
| Configuration.Validate | web/public/pages/configuration.php:31-55 | no error exactly when the form is valid; each field has an error exactly when its check fails, with that check's message; the number gets "requis" when empty and the fifteen-digit message otherwise |
| Configuration.RedirectUrl | web/public/pages/configuration.php:99 | the diagnostic page's address followed by the new configuration id |
| Configuration.RedirectReadsBack | web/public/pages/configuration.php:99 | the id in the redirect reads back as the configuration id |
| Configuration.Save | web/public/pages/configuration.php:57-111 | a redirect exactly when there is no error and both inserts returned an id; otherwise the matching error message, and no insert after a failure |
| Configuration.HandlePost | web/public/pages/configuration.php:19-112 | the POST is read, validated and saved; a redirect exactly for a valid form whose two inserts succeeded |
| Configuration.HexCharValue | web/public/pages/configuration.php:282 | a hexadecimal digit's value is below 16 |
| Configuration.LeadingHex | web/public/pages/configuration.php:282 | the length of the leading hexadecimal digits |
| Configuration.ParseIntOfDigits | web/public/pages/configuration.php:282 | on decimal digits `parseInt` gives the number written |
| Configuration.FormValidIffFieldsAccepted | web/public/pages/configuration.php:23-55 | a complete POST is valid exactly when the server accepts each posted field |
| Configuration.BareIsTrimmed | web/public/pages/configuration.php:276 | text without white space at either end is left alone by both trims |
| Configuration.TextRuleAgreement | web/public/pages/configuration.php:275-276 | for name, address and telephone the live rule and the server agree on bare text, except on "0", which only the live rule accepts |
| Configuration.SecuRuleAgreement | web/public/pages/configuration.php:277-278 | for the social security number the two rules agree on bare text |
| Configuration.DurationRuleAgreement | web/public/pages/configuration.php:281-282 | for a duration in decimal digits the two rules agree |
| Configuration.ZeroNameDiverges | web/public/pages/configuration.php:31 | "0" passes the live rule for a name but PHP's `empty` rejects it |
| Configuration.TextInputRule | web/public/pages/configuration.php:275-276 | name, address and telephone share one live rule |
| Configuration.ZeroTextClientAccepts | web/public/pages/configuration.php:276 | the live text rule accepts "0" |
| Configuration.ZeroNameServerRejects | web/public/pages/configuration.php:31 | the server rejects the name "0" |
| Configuration.DigitNotJsWhitespace | web/public/pages/configuration.php:276 | a digit is not JavaScript white space |
| Configuration.BlankBloodTypeDiverges | web/public/pages/configuration.php:279-280 | the live rule does not trim the blood type, so a blank passes it while the server rejects it |
| Configuration.LeadingHexOfDigits | web/public/pages/configuration.php:282 | decimal digits are all hexadecimal digits |
| Configuration.HexParseInt | web/public/pages/configuration.php:282 | after `0x`, `parseInt` reads the digits in base sixteen |
| Configuration.HexIntCast | web/public/pages/configuration.php:28 | PHP's `(int)` of `0x…` is 0, so the server rejects it |
| Configuration.HexDurationDiverges | web/public/pages/configuration.php:282 | a duration written `0x` and digits passes the live rule exactly when its hexadecimal value is positive |
| Configuration.DurationInputRule | web/public/pages/configuration.php:281-282 | the duration input uses the duration rule |
| Configuration.NoBreakSpaceNameDiverges | web/public/pages/configuration.php:276 | a lone no-break space is blank to the live rule but kept by PHP's `trim`, so only the server accepts it |
| Configuration.NoBreakSpaceClientRejects | web/public/pages/configuration.php:276 | the live rule rejects a lone no-break space |
| Configuration.NoBreakSpaceServerAccepts | web/public/pages/configuration.php:23 | the server accepts a lone no-break space |
| Diagnostic.Segment | web/public/pages/diagnostic.php:57-72 | the first matching range of `i % 250` picks the wave: P 50–60, Q 100–110, R 111–115, S 116–125, T 150–180, none otherwise |
| Diagnostic.SegmentBoundaries | web/public/pages/diagnostic.php:60-66 | 110 is Q and 115 is R; the demonstration positions fall in their waves |
| Diagnostic.SegmentPeriodic | web/public/pages/diagnostic.php:57 | every second of the signal repeats the same pattern |
| Diagnostic.SampleCount | web/public/pages/diagnostic.php:44-47 | 250 samples per second of acquisition time, replacing the initial 500 |
| Diagnostic.Simulate | web/public/pages/diagnostic.php:50-79 | both series have the sample count; time `i / 250` and the wave of sample i |
| Diagnostic.Transform | web/public/pages/diagnostic.php:93-96 | one time and one value per stored row, in row order |
| Diagnostic.LoadChart | web/public/pages/diagnostic.php:42-109 | simulated exactly when there is no stored row, with the matching series |
| Diagnostic.ViewDiagnostic | web/public/pages/diagnostic.php:9-24 | a chart exactly for a positive id whose diagnostic was found |
| Diagnostic.RejectedIffBlankOrNoConfig | web/public/pages/diagnostic.php:139-152 | the form is refused exactly when a required text is missing, blank or "0" after trimming, or the configuration id is not positive |
| Diagnostic.DiagnosticData | web/public/pages/diagnostic.php:156-167 | the ten columns in order, with the form's values |
| Diagnostic.DecidePost | web/public/pages/diagnostic.php:151-190 | refused gives the required-fields error; a positive id updates that diagnostic; otherwise a new one is inserted |
| Diagnostic.UpdateOutcome | web/public/pages/diagnostic.php:171-177 | a redirect to the diagnostic, with the success text, exactly when rows were changed; otherwise the update error, or the generic one after an exception |
| Diagnostic.InsertOutcome | web/public/pages/diagnostic.php:180-186 | a redirect to the new id exactly when the insert returned one; otherwise the creation error, or the generic one |
| Diagnostic.UnchangedUpdateReportsError | web/public/pages/diagnostic.php:171-176 | an update that changes no row is reported as an error, although the statement was sent |
| Diagnostic.HandleDiagnosticPost | web/public/pages/diagnostic.php:138-192 | the POST handler's outcome is `DecidePost` of the form it read |
| Diagnostic.SaveExisting | web/public/pages/diagnostic.php:169-177 | the update statement of the form for that id, then its outcome |
| Diagnostic.SaveNew | web/public/pages/diagnostic.php:178-186 | the insert statement of the form, then its outcome |
| Diagnostic.DiagnosticNamesPlain | web/public/pages/diagnostic.php:156-167 | no column or table name holds a question mark |
| Diagnostic.SentStatementBindsAll | web/public/pages/diagnostic.php:169-187 | whatever statement is sent has exactly as many placeholders as parameters |
| Database.InsertStatement | web/config/database.php:86-97 | one backticked column per key in key order, joined by commas, one placeholder per key, and the values as parameters in the same order |
| Database.JoinQuoted | web/config/database.php:90 | joining with `` `, ` `` between backticks quotes each name |
| Database.CountCharJoin | web/config/database.php:90 | joining pieces adds no placeholder of its own |
| Database.CountCharSeven | web/config/database.php:90 | placeholders of a concatenation add up |
| Database.FragmentsPlain | web/config/database.php:90-116 | the fixed SQL text holds no question mark |
| Database.PlainCount | web/config/database.php:90 | text without a question mark has no placeholder |
| Database.PlaceholderCount | web/config/database.php:88-113 | `?` and `` = ? `` each hold one placeholder |
| Database.InsertPlaceholderCount | web/config/database.php:88-90 | the insert has exactly one placeholder per key |
| Database.InsertListsCount | web/config/database.php:88-90 | the column list has no placeholder and the value list one per key |
| Database.PlaceholdersCount | web/config/database.php:88 | n joined placeholders hold n question marks |
| Database.UpdateStatement | web/config/database.php:108-123 | one `` `k` = ? `` per key then the WHERE clause; parameters are the values followed by the where value |
| Database.UpdatePlaceholderCount | web/config/database.php:109-116 | the update has one placeholder per key plus one |
| Database.ConnectionCache.constructor | web/config/database.php:17 | no connection yet |
| Database.ConnectionCache.GetDbConnection | web/config/database.php:16-39 | the first successful call creates the connection; later calls return the same one without creating another |
| Database.TwoConnections | web/config/database.php:16-39 | two calls create at most one connection, and return the same one |
| Security.GenerateSecureToken | web/config/security.php:17-19 | twice as many lower-case hexadecimal characters as random bytes, which read back as those bytes |
| Security.DefaultTokenIs64Hex | web/config/security.php:17 | the default token has 64 characters |
| Security.SecureTokenInjective | web/config/security.php:17-19 | distinct random bytes give distinct tokens |
| Security.CsrfAfterGenerate | web/config/security.php:80-85 | a token is stored only when none is set, the stored one is returned, and no other key changes |
| Security.VerifyCsrfToken | web/config/security.php:93-95 | false without a stored token; true exactly for a string equal to the stored one; `hash_equals`' type error (None) exactly when the stored value or the token is not a string |
| Security.CsrfGenerateIdempotent | web/config/security.php:80-85 | a second call returns the same token and leaves the session as it was |
| Security.CsrfVerifiesGenerated | web/config/security.php:80-95 | the generated token verifies |
| Security.CsrfRejectsOthers | web/config/security.php:93-95 | no other value verifies |
| Security.SanitizeInput | web/config/security.php:103-105 | the result contains no markup character, and is falsy to PHP exactly when the trimmed input is |
| Security.LoggedInSession | web/config/security.php:167-170 | the user's id, name and role and `logged_in = true` are set; other keys are kept |
| Security.RememberLogin | web/config/security.php:136-205 | a logged-in session or a missing cookie returns false and changes nothing; a match logs the user in and rotates the cookie; a match whose rotation throws returns false and clears the cookie but keeps the logged-in session written before the throw; no match or an exception before a match clears the cookie and leaves the session alone |
| Security.SessionStore.constructor | web/config/security.php:80 | the session holds the given variables |
| Security.SessionStore.GenerateCsrfToken | web/config/security.php:80-85 | the session and the result are those of `CsrfAfterGenerate` |
| Security.SessionStore.CheckRememberToken | web/config/security.php:136-205 | the session, the result and the cookie are those of `RememberLogin` |
| Auth.LoggedInIsExactlyTrue | web/includes/auth.php:30-32 | logged in exactly when `logged_in` is the boolean `true`; `1`, `"1"` and `false` do not count |
| Auth.HasRole | web/includes/auth.php:40-42 | a role implies being logged in, and requires an exact role match |
| Auth.AuthGuard | web/includes/auth.php:51-63 | pass exactly when logged in with the required role, if any; redirect to login when logged out, and to the index when the role is missing |
| Auth.GuardRoleMonotone | web/includes/auth.php:51-63 | passing with a role implies passing without one; with a role, passing is having it |
| Auth.AuthCheck | web/includes/auth.php:71-98 | no redirect when skipped, on a public page, or logged in; otherwise the requested URI is saved, the error set and login redirected to |
| Auth.AuthInclude | web/includes/auth.php:20-107 | the public pages never redirect; the remember-login is attempted only when not logged in; a redirect goes to login with the URI and the login message stored; a protected page that goes on is logged in |
| Auth.StaleFlagBlocksRememberLogin | web/includes/auth.php:21-23 | a `logged_in` flag that is set but not `true` blocks the remember-login, and the page redirects to login |
| Auth.RotationFailureStillPasses | web/config/security.php:166-203 | a matching cookie whose rotation throws makes `checkRememberToken` answer false and clear the cookie, yet the visitor is logged in and reaches a protected page |
| Auth.RememberedVisitorPasses | web/includes/auth.php:21-23 | a logged-out visitor with a matching cookie reaches a protected page and gets a rotated cookie |
| Auth.RequireAuth | web/includes/auth.php:51-63 | the redirect and the stored error are those of `AuthGuard` |
| Auth.CheckAuth | web/includes/auth.php:71-98 | the session and redirect are those of `AuthCheck` |
| Auth.IncludeAuth | web/includes/auth.php:20-107 | the session, redirect and cookie are those of `AuthInclude` |
| Functions.RedirectHeader | web/includes/functions.php:12-15 | `Location: ` followed by the URL |
| Functions.AlertReadBack | web/includes/functions.php:23-45 | the class and the message read back from an alert at fixed offsets, the message verbatim |
| Functions.AlertsDifferOnlyInClass | web/includes/functions.php:23-45 | the three alerts of one message differ, and each alert determines its message |
| Functions.GenerateSessionId | web/includes/functions.php:73-75 | `ECG-`, the date, `-`, then the hexadecimal text of the random bytes |
| Functions.SessionIdShape | web/includes/functions.php:73-75 | with an eight-character date and four bytes: 21 characters, the last eight lower-case hexadecimal |
| Functions.ExportDate | web/includes/functions.php:85 | the given date unless it is null or falsy, otherwise today's |
| Functions.IntTextPlain | web/includes/functions.php:86 | an id's decimal text holds no underscore |
| Functions.FirstSeparator | web/includes/functions.php:86 | the text before the first separator is determined by the whole |
| Functions.SeparatorShows | web/includes/functions.php:86 | the shorter prefix's separator meets a character of the longer one |
| Functions.FileNameDeterminesIdAndDate | web/includes/functions.php:84-86 | the file name determines the patient id and the date |
| Functions.FileNameDate | web/includes/functions.php:84-86 | `ecg_`, the date before `.csv`, today's when the given one is falsy |
| MainJs.Pad2ReadBack | web/public/js/main.js:14-15 | a field below 100 prints as two digits that read back as it |
| MainJs.DateReadBack | web/public/js/main.js:14-18 | `dd/mm/yyyy`: the day, then `getMonth() + 1`, each two digits, then the unpadded year |
| MainJs.TimeReadBack | web/public/js/main.js:20-24 | with the time, the date part is unchanged and ` HH:MM` follows it |
| MainJs.TimePartReadBack | web/public/js/main.js:21-23 | a space, two digits of hours, a colon and two digits of minutes |
| MainJs.TwoFieldsAt | web/public/js/main.js:23 | the positions of two two-character fields behind their separators |
| MainJs.FormatDateInjective | web/public/js/main.js:7-27 | different dates print differently |
| MainJs.Dropdowns.constructor | web/public/js/main.js:136 | the menus as given |
| MainJs.Dropdowns.ToggleClick | web/public/js/main.js:146-154 | every other menu closed, the clicked one toggled, so at most one is shown |
| MainJs.Dropdowns.DocumentClick | web/public/js/main.js:159-169 | a menu stays shown exactly when it was shown and its dropdown contains the target |
| MainJs.ClosingKeepsAtMostOne | web/public/js/main.js:159-169 | closing menus keeps at most one shown |
| MainJs.ToggleThenClickOutside | web/public/js/main.js:139-169 | a toggle click then a document click leave at most one menu shown |
| Json.Lookup | web/api/ecg_control.php:142 | a key is found exactly when some field has it, and what is found is that field's value |
| Json.LookupDistinct | web/api/ecg_control.php:133-144 | with distinct keys, each key finds its own value |
| Php.BasenameOfLastSegment | web/includes/auth.php:100 | the base name of a path is its last segment |
| Php.Basename | web/includes/auth.php:80 | the last path segment, without a slash |
| Php.HtmlSpecialChars | web/config/security.php:104 | escaping never shortens the text |
| Php.EscapedHasNoMarkup | web/config/security.php:104 | escaped text has no `<`, `>`, `"` or `'` |
| Php.HtmlSpecialCharsKeepsEmpty | web/config/security.php:104 | the escaped text is falsy to PHP ("" or "0") exactly when the input is |
| Php.TrimLeft | web/public/pages/configuration.php:23 | removes exactly the listed characters at the start |
| Php.TrimRight | web/public/pages/configuration.php:23 | removes exactly the listed characters at the end |
| Php.TrimSetIdempotent | web/api/ecg_control.php:105 | trimming twice is trimming once |
| Php.TrimSetNoEdges | web/api/ecg_control.php:105 | text without a trimmable edge is unchanged |
| Php.TrimSetLoneMember | web/public/pages/configuration.php:23 | a lone trimmable character trims to empty |
| Php.LeadingDigits | web/public/pages/configuration.php:28 | the length of the leading decimal digits |
| Php.DigitsAreNumeric | web/api/ecg_control.php:112 | non-empty decimal digits are numeric |
| Php.LeadingDigitsOfDigits | web/public/pages/configuration.php:28 | on decimal digits, all of them lead |
| Php.NotNumericStart | web/api/ecg_control.php:112 | text starting with a letter is not numeric |
| Php.EmptyIsNotNumeric | web/api/ecg_control.php:240 | the empty id is not numeric, so the image action refuses it |
| Php.IntCastOfDigits | web/public/pages/configuration.php:28 | `(int)` of decimal digits is their value |

## Left out

- Networking, the DOM and timers: `apiRequest`/`fetch` and `makeHttpRequest`/curl are replaced by their answers; the DOM by the fields the controller writes; `setInterval` by explicit tick methods (`Controller.PollTick`, `Controller.CaptureTimerTick`).
- The order of asynchronous completions: the controller's thumbnail requests, and a poll tick's status request, which the tick does not await, are resolved one after the other, in the order they were made.
- Text only shown to the user: the HTML written into the page, the modal, the notification markup, `toLocaleTimeString`/`toLocaleString`, and the removal of notifications after five seconds.
- `Controller.ShowNotification`: the notification is kept as its text and kind; the markup and its removal after five seconds are not modelled.
- The database and SQL execution: `executeQuery`, `fetchOne`, `fetchAll`, PDO options, the DSN and `database_manager.py` are replaced by their answers (`InsertAnswer`, `UpdateAnswer`, `Access`, `ImageLookup`, the rows). The `DEBUG` branch of `getDbConnection`'s `die` is not modelled.
- Hashing and encoding: `hash('sha256')`, `password_hash`/`password_verify`, `base64_encode`, and the statement text of the remember-token row update in `checkRememberToken`. The search for a matching remember token and whether its rotation throws are an answer (`TokenLookup`).
- `random_bytes`, `time()`, `date(...)` and `Date.now()` become parameters.
- Floating point: the voltage conversion `_convert_to_voltage`, the simulated signal's `sin` and `mt_rand` values, the percentage wave positions, `number_format`, and the `(float)` casts of posted measurements (they are `real` parameters). Samples are kept as converter counts.
- The hardware and the plot: SPI and GPIO set-up, `_generate_plot` (its bytes are an input, empty on failure), logging and `sleep`. Also the capture loop's inner `except` and its "critical error" status write, and `_cleanup`'s closing of the SPI device.
- Processes and locking: `multiprocessing`, `threading.Lock`, and `join`/`terminate`/`kill` with their timeouts. A process is an abstract alive flag (`Manager.ProcessExited`).
- `cleanup_all` is not modelled: it holds the registry lock while calling `stop_capture`, which takes the same non-reentrant lock again, so the call never returns.
- The service's `health_check`, `cleanup_processes` and error-handler routes, and the `except` branches of its handlers: the database manager catches its own exceptions.
- `parse_url`: the gateway is given the request path.
- `validateDiagnosticAccess` and the image query are answers. The CORS headers are not modelled.
- `Security.VerifyCsrfToken`: the `TypeError` that `hash_equals` raises for a non-string is the result `None`, not an exception.
- `Php.IsNumeric`: leading white space and signed decimal or exponent forms follow PHP 8. `Php.IntCast` reads a sign and the leading digits; PHP 8's reading of exponent strings such as "1e3" as 1000 is not modelled.
- `Php.IntCast`: the value is an unbounded integer; PHP's `(int)` of a digit string longer than 64 bits saturates at `PHP_INT_MAX` (or `PHP_INT_MIN`), which is not modelled, so the duration the configuration form inserts, and the `250 * acquisition_time` sample count the diagnostic page computes from the stored value, are exact here where PHP would clamp the cast and turn an overflowing product into a float.
- `Functions.ExportDate`: a date that is not a string (an integer, say) is not modelled. Neither are `formatDate` (PHP, `strtotime`) and `formatEcgValue`.
- `MainJs.FormatDate`: only the fields of a valid `Date` are modelled; an invalid date, which prints `NaN`, is not. The checkbox, navbar and alert helpers of `main.js` are UI only.
- Templates and other pages: `header.php`, `footer.php`, `index.php`, `login.php`, `logout.php`, `env.php`, `diagnostic_details.php`, and the capture script `fetch_save.py`.
- The list queries of the diagnostic page and their error messages.
