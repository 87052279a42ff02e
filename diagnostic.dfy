/** The diagnostic page. Viewing a diagnostic builds the chart series:
    from the stored samples when there are any, otherwise a simulated
    signal of 250 samples per second whose wave is chosen from the sample's
    index within each second. Posting the form validates three sanitised
    text fields and the configuration id, then updates the diagnostic named
    in the query string or inserts a new one. Signal values (sine, noise)
    are left out: a simulated sample is its time and its wave. The database
    reads and writes are answers given as parameters. */
module Diagnostic {
  import opened Wrappers
  import opened Text
  import opened Php
  import opened Security
  import opened Database

  /** Samples per second of the simulated signal. */
  const Frequency := 250

  /** `$diagnosticId`: `(int)$_GET['id']`, or 0 without one. */
  function DiagnosticIdParam(query: map<string, string>): int
  {
    if "id" in query then IntCast(query["id"]) else 0
  }

  /** The simulated wave a sample carries. */
  datatype Wave = PWave | QWave | RWave | SWave | TWave | Baseline

  /** The `if`/`else if` chain over `$i % 250`. Its ranges overlap at 110
      and 115; the first test that holds wins, so Q keeps 110 and R keeps
      115. */
  function Segment(i: nat): (w: Wave)
    ensures var r := i % Frequency;
      && (w == PWave <==> 50 <= r <= 60)
      && (w == QWave <==> 100 <= r <= 110)
      && (w == RWave <==> 111 <= r <= 115)
      && (w == SWave <==> 116 <= r <= 125)
      && (w == TWave <==> 150 <= r <= 180)
  {
    var r := i % Frequency;
    if r >= 50 && r <= 60 then PWave
    else if r >= 100 && r <= 110 then QWave
    else if r >= 110 && r <= 115 then RWave
    else if r >= 115 && r <= 125 then SWave
    else if r >= 150 && r <= 180 then TWave
    else Baseline
  }

  /** The two boundaries that two branches both compare against, and the samples of the fixed
      simulated wave positions (55, 100, 112, 120, 165), each inside the
      segment of its wave. */
  lemma SegmentBoundaries()
    ensures Segment(110) == QWave && Segment(111) == RWave
    ensures Segment(115) == RWave && Segment(116) == SWave
    ensures Segment(55) == PWave && Segment(100) == QWave && Segment(112) == RWave
    ensures Segment(120) == SWave && Segment(165) == TWave
  {
  }

  /** Every second of the signal repeats the same pattern. */
  lemma {:induction false} SegmentPeriodic(i: nat, k: nat)
    ensures Segment(i + k * Frequency) == Segment(i)
  {
    assert (i + k * Frequency) % Frequency == i % Frequency;
  }

  /** `$sampleCount` after the reassignment: 250 per second of
      `acquisition_time`; the loop runs no iteration when it is not
      positive. */
  function SampleCount(duration: int): (n: nat)
    ensures duration > 0 ==> n == Frequency * duration
    ensures duration <= 0 ==> n == 0
  {
    if Frequency * duration > 0 then Frequency * duration else 0
  }

  /** The simulated branch: one time stamp `i / 250` and one wave per
      sample. The initial `$sampleCount = 500` is overwritten before use. */
  method Simulate(duration: int) returns (timeData: seq<real>, waves: seq<Wave>)
    ensures |timeData| == |waves| == SampleCount(duration)
    ensures forall i :: 0 <= i < |timeData| ==> timeData[i] == i as real / Frequency as real
    ensures forall i :: 0 <= i < |waves| ==> waves[i] == Segment(i)
  {
    var sampleCount := 500;
    var frequence := Frequency;
    sampleCount := frequence * duration;
    timeData, waves := [], [];
    var i := 0;
    while i < sampleCount
      invariant sampleCount == Frequency * duration
      invariant 0 <= i <= SampleCount(duration) && |timeData| == i && |waves| == i
      invariant forall k :: 0 <= k < i ==> timeData[k] == k as real / Frequency as real
      invariant forall k :: 0 <= k < i ==> waves[k] == Segment(k)
    {
      var time := i as real / frequence as real;
      timeData := timeData + [time];
      waves := waves + [Segment(i)];
      i := i + 1;
    }
  }

  /** A row of `ecg_data`, in timestamp order, with its `(float)` casts
      done. */
  datatype EcgRow = EcgRow(timestamp: real, value: real)

  /** The real-data branch: one time and one value per row, in row order. */
  method Transform(rows: seq<EcgRow>) returns (timeData: seq<real>, ecgData: seq<real>)
    ensures |timeData| == |ecgData| == |rows|
    ensures forall i :: 0 <= i < |rows| ==> timeData[i] == rows[i].timestamp && ecgData[i] == rows[i].value
  {
    timeData, ecgData := [], [];
    for k := 0 to |rows|
      invariant |timeData| == k && |ecgData| == k
      invariant forall i :: 0 <= i < k ==> timeData[i] == rows[i].timestamp && ecgData[i] == rows[i].value
    {
      timeData := timeData + [rows[k].timestamp];
      ecgData := ecgData + [rows[k].value];
    }
  }

  /** The series handed to the chart script. */
  datatype Series = Simulated(waves: seq<Wave>) | Measured(values: seq<real>)

  datatype Chart = Chart(timeData: seq<real>, series: Series, isSimulated: bool)

  /** Both branches: simulated exactly when there is no stored sample. */
  method LoadChart(rows: seq<EcgRow>, acquisitionTime: int) returns (chart: Chart)
    ensures chart.isSimulated <==> rows == []
    ensures chart.isSimulated <==> chart.series.Simulated?
    ensures rows == [] ==>
      && |chart.timeData| == |chart.series.waves| == SampleCount(acquisitionTime)
      && forall i :: 0 <= i < |chart.series.waves| ==> chart.series.waves[i] == Segment(i)
    ensures rows != [] ==>
      && |chart.timeData| == |chart.series.values| == |rows|
      && forall i :: 0 <= i < |rows| ==>
           chart.timeData[i] == rows[i].timestamp && chart.series.values[i] == rows[i].value
  {
    if rows == [] {
      var timeData, waves := Simulate(acquisitionTime);
      chart := Chart(timeData, Simulated(waves), true);
    } else {
      var timeData, ecgData := Transform(rows);
      chart := Chart(timeData, Measured(ecgData), false);
    }
  }

  /** The view: a chart only for a positive id whose diagnostic was found. */
  method ViewDiagnostic(query: map<string, string>, found: bool, rows: seq<EcgRow>, acquisitionTime: int)
    returns (chart: Option<Chart>)
    ensures chart.Some? <==> DiagnosticIdParam(query) > 0 && found
    ensures chart.Some? ==> (chart.value.isSimulated <==> rows == [])
  {
    var diagnosticId := DiagnosticIdParam(query);
    chart := None;
    if diagnosticId > 0 {
      if found {
        var c := LoadChart(rows, acquisitionTime);
        chart := Some(c);
      }
    }
  }

  // The form.

  /** The six optional measurements, `(float)` of the posted text or null
      when not posted. */
  datatype Measures = Measures(releaseTime: Option<real>, p: Option<real>, q: Option<real>,
                               r: Option<real>, s: Option<real>, t: Option<real>)

  datatype DiagnosticForm = DiagnosticForm(configId: int, professor: string, address: string,
                                           report: string, measures: Measures)

  /** A text field: sanitised when posted, empty otherwise. */
  function PostedText(post: map<string, string>, key: string): string
  {
    if key in post then SanitizeInput(post[key]) else ""
  }

  function ReadDiagnosticForm(post: map<string, string>, measures: Measures): DiagnosticForm
  {
    DiagnosticForm(if "configuration_id" in post then IntCast(post["configuration_id"]) else 0,
                   PostedText(post, "nom_professeur"), PostedText(post, "adresse_consultation"),
                   PostedText(post, "compte_rendu"), measures)
  }

  /** The condition at line 151 of diagnostic.php: a required text is empty in PHP's sense or
      the configuration id is not positive. */
  predicate FormRejected(f: DiagnosticForm)
  {
    EmptyString(f.professor) || EmptyString(f.address) || EmptyString(f.report) || f.configId <= 0
  }

  /** A required field left out, or blank or "0" once trimmed. */
  predicate FieldBlank(post: map<string, string>, key: string)
  {
    key !in post || EmptyString(Trim(post[key]))
  }

  /** The form is refused exactly when one of the three texts is blank
      before escaping or the posted configuration id does not cast to a
      positive integer: escaping never empties a field nor fills one. */
  lemma {:induction false} RejectedIffBlankOrNoConfig(post: map<string, string>, measures: Measures)
    ensures FormRejected(ReadDiagnosticForm(post, measures)) <==>
      || FieldBlank(post, "nom_professeur") || FieldBlank(post, "adresse_consultation")
      || FieldBlank(post, "compte_rendu")
      || "configuration_id" !in post || IntCast(post["configuration_id"]) <= 0
  {
    var f := ReadDiagnosticForm(post, measures);
    assert EmptyString(f.professor) <==> FieldBlank(post, "nom_professeur");
    assert EmptyString(f.address) <==> FieldBlank(post, "adresse_consultation");
    assert EmptyString(f.report) <==> FieldBlank(post, "compte_rendu");
  }

  const DiagnosticsTable := "diagnostics"

  /** The columns of `$diagnosticData`, in order. */
  const DiagnosticColumns: seq<string> :=
    ["configuration_id", "professor_name", "consultation_address", "report", "atrial_release_time",
     "p_wave", "q_wave", "r_wave", "s_wave", "t_wave"]

  function Measure(m: Option<real>): PhpVal
  {
    match m
    case None => PNull
    case Some(x) => PFloat(x)
  }

  /** `$diagnosticData`: the columns in order, with the form's values. */
  function DiagnosticData(f: DiagnosticForm): (d: Data)
    ensures Keys(d) == DiagnosticColumns
    ensures Values(d) == [PInt(f.configId), PStr(f.professor), PStr(f.address), PStr(f.report),
                          Measure(f.measures.releaseTime), Measure(f.measures.p), Measure(f.measures.q),
                          Measure(f.measures.r), Measure(f.measures.s), Measure(f.measures.t)]
  {
    var m := f.measures;
    [("configuration_id", PInt(f.configId)), ("professor_name", PStr(f.professor)),
     ("consultation_address", PStr(f.address)), ("report", PStr(f.report)),
     ("atrial_release_time", Measure(m.releaseTime)), ("p_wave", Measure(m.p)), ("q_wave", Measure(m.q)),
     ("r_wave", Measure(m.r)), ("s_wave", Measure(m.s)), ("t_wave", Measure(m.t))]
  }

  const DiagnosticUrlPrefix := "/pages/diagnostic.php?id="
  const RequiredText := "Tous les champs marqués * sont obligatoires."
  const UpdatedText := "Diagnostic mis à jour avec succès."
  const UpdateFailedText := "Erreur lors de la mise à jour du diagnostic."
  const CreatedText := "Nouveau diagnostic créé avec succès."
  const CreateFailedText := "Erreur lors de la création du diagnostic."
  const PostExceptionText := "Une erreur est survenue: Contactez l'administrateur"

  /** What a POST ends with: the session's error or success message, the
      redirect, and the statement sent to the database. */
  datatype PostOutcome = PostOutcome(error: Option<string>, success: Option<string>,
                                     redirect: Option<string>, sent: Option<Statement>)

  /** The statement `update('diagnostics', $diagnosticData, 'id', $diagnosticId)` prepares. */
  function UpdateOf(f: DiagnosticForm, diagnosticId: int): Statement
  {
    var data := DiagnosticData(f);
    Statement(UpdateSql(DiagnosticsTable, Keys(data), "id"), Values(data) + [PInt(diagnosticId)])
  }

  /** The POST decision: refused, or an update of the diagnostic in the
      query string when its id is positive and an insert otherwise, with
      the database's answer deciding between redirect and error. */
  function DecidePost(diagnosticId: int, f: DiagnosticForm, update: UpdateAnswer, insert: InsertAnswer)
    : (o: PostOutcome)
    ensures FormRejected(f) ==> o == PostOutcome(Some(RequiredText), None, None, None)
    ensures !FormRejected(f) && diagnosticId > 0 ==> o == UpdateOutcome(Some(UpdateOf(f, diagnosticId)), diagnosticId, update)
    ensures !FormRejected(f) && diagnosticId <= 0 ==>
      o == InsertOutcome(Some(InsertStatement(DiagnosticsTable, DiagnosticData(f))), insert)
  {
    if FormRejected(f) then PostOutcome(Some(RequiredText), None, None, None)
    else if diagnosticId > 0 then UpdateOutcome(Some(UpdateOf(f, diagnosticId)), diagnosticId, update)
    else InsertOutcome(Some(InsertStatement(DiagnosticsTable, DiagnosticData(f))), insert)
  }

  /** The update branch, once the statement `st` is sent. */
  function UpdateOutcome(st: Option<Statement>, diagnosticId: int, update: UpdateAnswer): (o: PostOutcome)
    ensures o.sent == st
    ensures o.redirect.Some? <==> update.RowCount? && update.n > 0
    ensures o.redirect.Some? ==>
      o.redirect == Some(DiagnosticUrlPrefix + IntToString(diagnosticId)) && o.success == Some(UpdatedText) && o.error.None?
    ensures o.redirect.None? ==>
      o.success.None? && o.error == Some(if update.UpdateRaised? then PostExceptionText else UpdateFailedText)
  {
    match update
    case UpdateRaised => PostOutcome(Some(PostExceptionText), None, None, st)
    case RowCount(n) =>
      if n != 0 then PostOutcome(None, Some(UpdatedText), Some(DiagnosticUrlPrefix + IntToString(diagnosticId)), st)
      else PostOutcome(Some(UpdateFailedText), None, None, st)
  }

  /** The insert branch, once the statement `st` is sent. */
  function InsertOutcome(st: Option<Statement>, insert: InsertAnswer): (o: PostOutcome)
    ensures o.sent == st
    ensures o.redirect.Some? <==> Inserted(insert)
    ensures o.redirect.Some? ==>
      o.redirect == Some(DiagnosticUrlPrefix + insert.id) && o.success == Some(CreatedText) && o.error.None?
    ensures o.redirect.None? ==>
      o.success.None? && o.error == Some(if insert.InsertRaised? then PostExceptionText else CreateFailedText)
  {
    match insert
    case InsertRaised => PostOutcome(Some(PostExceptionText), None, None, st)
    case InsertReturned(id) =>
      if !EmptyString(id) then PostOutcome(None, Some(CreatedText), Some(DiagnosticUrlPrefix + id), st)
      else PostOutcome(Some(CreateFailedText), None, None, st)
  }

  /** Saving a diagnostic whose values are all unchanged reports an error:
      MySQL counts no changed row, and `if ($updated)` reads 0 as failure. */
  lemma UnchangedUpdateReportsError(diagnosticId: int, f: DiagnosticForm, insert: InsertAnswer)
    requires !FormRejected(f) && diagnosticId > 0
    ensures DecidePost(diagnosticId, f, RowCount(0), insert).error == Some(UpdateFailedText)
    ensures DecidePost(diagnosticId, f, RowCount(0), insert).sent.Some?
  {
  }

  /** The POST handler of the page, with the statements built by the
      database helpers. */
  method HandleDiagnosticPost(query: map<string, string>, post: map<string, string>, measures: Measures,
                              update: UpdateAnswer, insert: InsertAnswer)
    returns (o: PostOutcome)
    ensures o == DecidePost(DiagnosticIdParam(query), ReadDiagnosticForm(post, measures), update, insert)
  {
    var diagnosticId := DiagnosticIdParam(query);
    var f := ReadDiagnosticForm(post, measures);
    if FormRejected(f) {
      return PostOutcome(Some(RequiredText), None, None, None);
    }
    if diagnosticId > 0 {
      o := SaveExisting(f, diagnosticId, update);
    } else {
      o := SaveNew(f, insert);
    }
  }

  /** An accepted form with a positive id: `update(...)`, then the answer. */
  method SaveExisting(f: DiagnosticForm, diagnosticId: int, update: UpdateAnswer) returns (o: PostOutcome)
    ensures o == UpdateOutcome(Some(UpdateOf(f, diagnosticId)), diagnosticId, update)
  {
    var data := DiagnosticData(f);
    var st := UpdateStatement(DiagnosticsTable, data, "id", PInt(diagnosticId));
    o := UpdateOutcome(Some(st), diagnosticId, update);
  }

  /** An accepted form without an id: `insert(...)`, then the answer. */
  method SaveNew(f: DiagnosticForm, insert: InsertAnswer) returns (o: PostOutcome)
    ensures o == InsertOutcome(Some(InsertStatement(DiagnosticsTable, DiagnosticData(f))), insert)
  {
    var st := InsertStatement(DiagnosticsTable, DiagnosticData(f));
    o := InsertOutcome(Some(st), insert);
  }

  /** The column names and the table name hold no question mark. */
  lemma DiagnosticNamesPlain()
    ensures PlainNames(DiagnosticColumns) && Plain(DiagnosticsTable) && Plain("id")
  {
  }

  /** Whatever statement the page sends carries exactly one placeholder
      per parameter. */
  lemma SentStatementBindsAll(diagnosticId: int, f: DiagnosticForm, update: UpdateAnswer, insert: InsertAnswer)
    ensures var o := DecidePost(diagnosticId, f, update, insert);
      o.sent.Some? ==> CountChar(o.sent.value.sql, '?') == |o.sent.value.params|
  {
    var data := DiagnosticData(f);
    DiagnosticNamesPlain();
    if !FormRejected(f) {
      if diagnosticId > 0 {
        UpdatePlaceholderCount(DiagnosticsTable, Keys(data), "id");
      } else {
        InsertPlaceholderCount(DiagnosticsTable, data);
      }
    }
  }
}
