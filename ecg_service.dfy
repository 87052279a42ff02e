/** The REST handlers of the capture service, layered on the process
    registry. Each handler is first a pure decision over the registry and
    the database's answers (`DecideStart`, ...), and then a method of
    `Service` that runs it against a `ProcessManager.Manager` and logs the
    status writes it makes to the database. The database reads
    (`get_capture_session`, `get_diagnostic_images`, `get_image_blob`) are
    parameters; the clock's `isoformat()` text is a parameter too. */
module EcgService {
  import opened Wrappers
  import opened Json
  import opened ProcessManager

  /** A Flask reply: HTTP status and JSON body. `jsonify` alone is 200. */
  datatype Response = Response(status: int, body: Json)

  /** One call `update_capture_status(diagnostic_id, status)`. */
  datatype StatusWrite = StatusWrite(id: DiagnosticId, status: string)

  /** The row `get_image_blob` returns: the base64 text of the blob and the
      creation time. */
  datatype ImageRow = ImageRow(blob: string, createdAt: string)

  const AlreadyRunningText := "Capture already running for this diagnostic"
  const StartFailedText := "Failed to start capture"
  const StopFailedText := "Failed to stop capture or no capture running"
  const ImageNotFoundText := "Image not found"

  function ErrorReply(status: int, message: string, idKey: string, id: int): (resp: Response)
    requires idKey != "error"
    ensures resp.status == status
    ensures Get(resp.body, "error") == Some(JStr(message)) && Get(resp.body, idKey) == Some(JNum(id))
  {
    var fields := [("error", JStr(message)), (idKey, JNum(id))];
    LookupDistinct(fields, 0);
    LookupDistinct(fields, 1);
    Response(status, JObj(fields))
  }

  /** The reply carries an `error` member. */
  predicate IsError(resp: Response)
  {
    Get(resp.body, "error").Some?
  }

  /** `start_capture`: refused with 400 while `is_running` holds (which
      also cleans up a dead entry); otherwise the registry's start, then
      'running' recorded and reported, or 500. */
  function DecideStart(r: Registry, id: DiagnosticId, launch: Launch): (res: (Registry, Response, seq<StatusWrite>))
    ensures IsAlive(r, id) ==> res.0 == r && res.1.status == 400 && IsError(res.1) && res.2 == []
    ensures !IsAlive(r, id) ==> res.0 == Start(Running(r, id).0, id, launch).0
    ensures !IsAlive(r, id) && launch.Launched? ==>
      && res.1.status == 200 && !IsError(res.1)
      && Get(res.1.body, "status") == Some(JStr("running"))
      && res.2 == [StatusWrite(id, "running")]
    ensures !IsAlive(r, id) && launch.StartRaised? ==> res.1.status == 500 && IsError(res.1) && res.2 == []
    ensures Get(res.1.body, "diagnostic_id") == Some(JNum(id))
  {
    var (r1, running) := Running(r, id);
    if running then (r1, ErrorReply(400, AlreadyRunningText, "diagnostic_id", id), [])
    else
      var (r2, ok) := Start(r1, id, launch);
      if ok then
        var fields := [("message", JStr("Capture started successfully")),
                       ("diagnostic_id", JNum(id)),
                       ("status", JStr("running"))];
        LookupDistinct(fields, 1);
        LookupDistinct(fields, 2);
        (r2, Response(200, JObj(fields)), [StatusWrite(id, "running")])
      else (r2, ErrorReply(500, StartFailedText, "diagnostic_id", id), [])
  }

  /** `stop_capture`: 200 with 'stopped' recorded and reported exactly
      when a process was registered (alive or not), else 400. */
  function DecideStop(r: Registry, id: DiagnosticId): (res: (Registry, Response, seq<StatusWrite>))
    ensures res.0 == Stop(r, id).0
    ensures res.1.status == 200 <==> id in r.processes
    ensures id in r.processes ==>
      && !IsError(res.1)
      && Get(res.1.body, "status") == Some(JStr("stopped"))
      && res.2 == [StatusWrite(id, "stopped")]
    ensures id !in r.processes ==> res.0 == r && res.1.status == 400 && IsError(res.1) && res.2 == []
  {
    var (r1, ok, _) := Stop(r, id);
    if ok then
      var fields := [("message", JStr("Capture stopped successfully")),
                     ("diagnostic_id", JNum(id)),
                     ("status", JStr("stopped"))];
      LookupDistinct(fields, 2);
      (r1, Response(200, JObj(fields)), [StatusWrite(id, "stopped")])
    else (r1, ErrorReply(400, StopFailedText, "diagnostic_id", id), [])
  }

  /** `get_capture_status`: `is_running` is the registry's answer and
      `session_info` the database row, `null` when there is none. */
  function DecideStatus(r: Registry, id: DiagnosticId, session: Option<Json>, now: string): (res: (Registry, Response))
    ensures res.0 == Running(r, id).0
    ensures res.1.status == 200 && !IsError(res.1)
    ensures Get(res.1.body, "is_running") == Some(JBool(IsAlive(r, id)))
    ensures Get(res.1.body, "session_info") == Some(session.GetOr(JNull))
  {
    var (r1, running) := Running(r, id);
    var fields := [("diagnostic_id", JNum(id)),
                   ("is_running", JBool(running)),
                   ("session_info", session.GetOr(JNull)),
                   ("timestamp", JStr(now))];
    LookupDistinct(fields, 1);
    LookupDistinct(fields, 2);
    (r1, Response(200, JObj(fields)))
  }

  /** `get_diagnostic_images`: the rows as returned, and their number. */
  function DecideImages(id: DiagnosticId, images: seq<Json>): (resp: Response)
    ensures resp.status == 200 && !IsError(resp)
    ensures Get(resp.body, "images") == Some(JArr(images))
    ensures Get(resp.body, "total_images") == Some(JNum(|images|))
  {
    var fields := [("diagnostic_id", JNum(id)),
                   ("total_images", JNum(|images|)),
                   ("images", JArr(images))];
    LookupDistinct(fields, 1);
    LookupDistinct(fields, 2);
    Response(200, JObj(fields))
  }

  /** `get_image`: 404 exactly when there is no such row. */
  function DecideImage(imageId: int, row: Option<ImageRow>): (resp: Response)
    ensures resp.status == 404 <==> row.None?
    ensures row.None? ==> IsError(resp)
    ensures row.Some? ==>
      && resp.status == 200 && !IsError(resp)
      && Get(resp.body, "image_data") == Some(JStr(row.value.blob))
      && Get(resp.body, "created_at") == Some(JStr(row.value.createdAt))
  {
    match row
    case None => ErrorReply(404, ImageNotFoundText, "image_id", imageId)
    case Some(img) =>
      var fields := [("image_id", JNum(imageId)),
                     ("image_data", JStr(img.blob)),
                     ("created_at", JStr(img.createdAt))];
      LookupDistinct(fields, 1);
      LookupDistinct(fields, 2);
      Response(200, JObj(fields))
  }

  /** After a successful start, the status reports the capture running and
      a second start is refused without touching the registry. */
  lemma StartedCaptureIsReported(r: Registry, id: DiagnosticId, pid: int, launch: Launch, session: Option<Json>, now: string)
    requires !IsAlive(r, id)
    ensures var (s, resp, _) := DecideStart(r, id, Launched(pid));
      && resp.status == 200
      && Get(DecideStatus(s, id, session, now).1.body, "is_running") == Some(JBool(true))
      && DecideStatus(s, id, session, now).0 == s
      && DecideStart(s, id, launch).0 == s
      && DecideStart(s, id, launch).1.status == 400
  {
    var (s, resp, _) := DecideStart(r, id, Launched(pid));
    assert IsAlive(s, id);
  }

  /** A successful stop is followed by a status of not running and a
      second stop refused with 400. */
  lemma StoppedCaptureIsReported(r: Registry, id: DiagnosticId, session: Option<Json>, now: string)
    requires id in r.processes
    ensures var (s, resp, _) := DecideStop(r, id);
      && resp.status == 200
      && Get(DecideStatus(s, id, session, now).1.body, "is_running") == Some(JBool(false))
      && DecideStop(s, id).1.status == 400
  {
    var (s, resp, _) := DecideStop(r, id);
    assert id !in s.processes;
  }

  /** The service: its registry and the status writes sent to the database. */
  class Service {
    const manager: Manager
    var statusWrites: seq<StatusWrite>

    ghost predicate Valid()
      reads this, manager
    {
      manager.Valid()
    }

    constructor ()
      ensures Valid() && fresh(manager)
      ensures manager.Reg() == Registry(map[], map[]) && statusWrites == []
    {
      manager := new Manager();
      statusWrites := [];
    }

    /** `POST /capture/start/<id>`. */
    method StartCapture(id: nat, launch: Launch) returns (resp: Response)
      requires Valid()
      modifies this, manager
      ensures Valid()
      ensures var (r, d, w) := DecideStart(old(manager.Reg()), id, launch);
        manager.Reg() == r && resp == d && statusWrites == old(statusWrites) + w
    {
      var running := manager.IsRunning(id);
      if running {
        return ErrorReply(400, AlreadyRunningText, "diagnostic_id", id);
      }
      var ok := manager.StartCapture(id, launch);
      if ok {
        statusWrites := statusWrites + [StatusWrite(id, "running")];
        resp := Response(200, JObj([("message", JStr("Capture started successfully")),
                                    ("diagnostic_id", JNum(id)),
                                    ("status", JStr("running"))]));
      } else {
        resp := ErrorReply(500, StartFailedText, "diagnostic_id", id);
      }
    }

    /** `POST /capture/stop/<id>`. */
    method StopCapture(id: nat) returns (resp: Response)
      requires Valid()
      modifies this, manager
      ensures Valid()
      ensures var (r, d, w) := DecideStop(old(manager.Reg()), id);
        manager.Reg() == r && resp == d && statusWrites == old(statusWrites) + w
    {
      var ok, _ := manager.StopCapture(id);
      if ok {
        statusWrites := statusWrites + [StatusWrite(id, "stopped")];
        resp := Response(200, JObj([("message", JStr("Capture stopped successfully")),
                                    ("diagnostic_id", JNum(id)),
                                    ("status", JStr("stopped"))]));
      } else {
        resp := ErrorReply(400, StopFailedText, "diagnostic_id", id);
      }
    }

    /** `GET /capture/status/<id>`, given the session row and the time. */
    method GetCaptureStatus(id: nat, session: Option<Json>, now: string) returns (resp: Response)
      requires Valid()
      modifies manager
      ensures Valid()
      ensures (manager.Reg(), resp) == DecideStatus(old(manager.Reg()), id, session, now)
    {
      var running := manager.IsRunning(id);
      resp := Response(200, JObj([("diagnostic_id", JNum(id)),
                                  ("is_running", JBool(running)),
                                  ("session_info", session.GetOr(JNull)),
                                  ("timestamp", JStr(now))]));
    }
  }
}
