/** The page helpers: the redirect header, the three alert boxes, the
    acquisition session identifier and the CSV export file name. The
    clock's `date(...)` text and the bytes of `random_bytes` are
    parameters. */
module Functions {
  import opened Wrappers
  import opened Text
  import opened Php
  import opened Security

  const LocationHeader := "Location: "

  /** The header `redirect($url)` sends before `exit`. */
  function RedirectHeader(url: string): (h: string)
    ensures |h| == |LocationHeader| + |url|
    ensures h[..|LocationHeader|] == LocationHeader && h[|LocationHeader|..] == url
  {
    LocationHeader + url
  }

  const AlertOpen := "<div class=\"alert alert-"
  const AlertMid := "\">"
  const AlertClose := "</div>"
  const SuccessClass := "success"
  const ErrorClass := "danger"
  const InfoClass := "info"

  /** The shared layout of the alerts: a Bootstrap class and the message,
      inserted as given (no escaping). */
  function Alert(cls: string, message: string): string
  {
    AlertOpen + cls + AlertMid + message + AlertClose
  }

  function ShowSuccess(message: string): string { Alert(SuccessClass, message) }

  function ShowError(message: string): string { Alert(ErrorClass, message) }

  function ShowInfo(message: string): string { Alert(InfoClass, message) }

  /** The class and the message can be read back from an alert at fixed
      offsets: the message is embedded verbatim. */
  lemma AlertReadBack(cls: string, message: string)
    ensures var h := Alert(cls, message);
      && |h| == |AlertOpen| + |cls| + |AlertMid| + |message| + |AlertClose|
      && h[..|AlertOpen|] == AlertOpen
      && h[|AlertOpen|..|AlertOpen| + |cls|] == cls
      && h[|AlertOpen| + |cls| + |AlertMid|..|h| - |AlertClose|] == message
      && h[|h| - |AlertClose|..] == AlertClose
  {
    var h := Alert(cls, message);
    var a := AlertOpen + cls + AlertMid;
    assert h == a + message + AlertClose;
    assert h[..|a|] == a;
    assert a[..|AlertOpen|] == AlertOpen && a[|AlertOpen|..|AlertOpen| + |cls|] == cls;
  }

  /** The three alerts differ only in their class: the same message gives
      three different boxes with the same text, and an alert determines its
      message. */
  lemma {:induction false} AlertsDifferOnlyInClass(message: string, other: string)
    ensures ShowSuccess(message) != ShowError(message)
    ensures ShowSuccess(message) != ShowInfo(message) && ShowError(message) != ShowInfo(message)
    ensures ShowSuccess(message) == ShowSuccess(other) ==> message == other
    ensures ShowError(message) == ShowError(other) ==> message == other
    ensures ShowInfo(message) == ShowInfo(other) ==> message == other
  {
    var k := |AlertOpen|;
    assert ShowSuccess(message)[k] == 's' && ShowError(message)[k] == 'd' && ShowInfo(message)[k] == 'i';
    AlertReadBack(SuccessClass, message);
    AlertReadBack(SuccessClass, other);
    AlertReadBack(ErrorClass, message);
    AlertReadBack(ErrorClass, other);
    AlertReadBack(InfoClass, message);
    AlertReadBack(InfoClass, other);
  }

  const SessionPrefix := "ECG-"

  /** `generateSessionId()`, given the `date('Ymd')` text and the four
      bytes of `random_bytes(4)`. */
  function GenerateSessionId(ymd: string, random: seq<byte>): (id: string)
    ensures |id| == |SessionPrefix| + |ymd| + 1 + 2 * |random|
    ensures id[..|SessionPrefix|] == SessionPrefix
    ensures id[|SessionPrefix|..|SessionPrefix| + |ymd|] == ymd && id[|SessionPrefix| + |ymd|] == '-'
    ensures id[|SessionPrefix| + |ymd| + 1..] == GenerateSecureToken(random)
  {
    var head := SessionPrefix + ymd + "-";
    var id := head + GenerateSecureToken(random);
    assert id[..|head|] == head && id[|head|..] == GenerateSecureToken(random);
    assert head[..|SessionPrefix|] == SessionPrefix;
    id
  }

  /** With an eight-character date and four random bytes the identifier has
      21 characters, the last eight of them lower-case hexadecimal. */
  lemma SessionIdShape(ymd: string, random: seq<byte>)
    requires |ymd| == 8 && |random| == 4
    ensures var id := GenerateSessionId(ymd, random);
      |id| == 21 && forall i :: 13 <= i < 21 ==> IsLowerHex(id[i])
  {
    var id := GenerateSessionId(ymd, random);
    var tail := GenerateSecureToken(random);
    assert id == SessionPrefix + ymd + "-" + tail;
    assert forall i :: 13 <= i < 21 ==> id[i] == tail[i - 13];
  }

  const EcgPrefix := "ecg_"
  const CsvSuffix := ".csv"

  /** The date `createEcgFileName` uses: `$date ?: date('Y-m-d')`, so a
      null, empty or "0" date falls back to today's. */
  function ExportDate(date: Option<string>, today: string): (d: string)
    ensures date.Some? && !EmptyString(date.value) ==> d == date.value
    ensures date.None? || EmptyString(date.value) ==> d == today
  {
    if date.None? || EmptyString(date.value) then today else date.value
  }

  /** `createEcgFileName($patientId, $date)`, given `date('Y-m-d')`. */
  function CreateEcgFileName(patientId: int, date: Option<string>, today: string): string
  {
    EcgPrefix + IntToString(patientId) + "_" + ExportDate(date, today) + CsvSuffix
  }

  /** The decimal text of an integer holds no underscore. */
  lemma IntTextPlain(i: int)
    ensures '_' !in IntToString(i)
  {
    var s := IntToString(i);
    if i < 0 {
      assert forall k :: 1 <= k < |s| ==> s[k] == NatToString(-i)[k - 1];
    }
  }

  /** Text before the first occurrence of a separator character is
      determined by the whole. */
  lemma {:induction false} FirstSeparator(a1: string, b1: string, a2: string, b2: string, sep: char)
    requires sep !in a1 && sep !in a2
    requires a1 + [sep] + b1 == a2 + [sep] + b2
    ensures a1 == a2 && b1 == b2
  {
    var s1 := a1 + [sep] + b1;
    var s2 := a2 + [sep] + b2;
    if |a1| < |a2| {
      SeparatorShows(a1, b1, a2, b2, sep);
      assert false;
    } else if |a2| < |a1| {
      SeparatorShows(a2, b2, a1, b1, sep);
      assert false;
    }
    assert a1 == s1[..|a1|] && a2 == s2[..|a2|];
    assert b1 == s1[|a1| + 1..] && b2 == s2[|a2| + 1..];
  }

  /** Where the shorter prefix ends, its separator meets a character of
      the longer one. */
  lemma SeparatorShows(a1: string, b1: string, a2: string, b2: string, sep: char)
    requires sep !in a2 && |a1| < |a2|
    ensures (a1 + [sep] + b1)[|a1|] != (a2 + [sep] + b2)[|a1|]
  {
    assert (a2 + [sep] + b2)[|a1|] == a2[|a1|];
  }

  /** The file name determines the patient id and the date: reading the
      digits up to the first underscore recovers the id. */
  lemma FileNameDeterminesIdAndDate(id1: int, date1: Option<string>, id2: int, date2: Option<string>, today: string)
    requires CreateEcgFileName(id1, date1, today) == CreateEcgFileName(id2, date2, today)
    ensures id1 == id2 && ExportDate(date1, today) == ExportDate(date2, today)
  {
    var n1 := CreateEcgFileName(id1, date1, today);
    var s1, s2 := IntToString(id1), IntToString(id2);
    var d1, d2 := ExportDate(date1, today), ExportDate(date2, today);
    assert n1 == EcgPrefix + (s1 + ['_'] + d1) + CsvSuffix;
    assert CreateEcgFileName(id2, date2, today) == EcgPrefix + (s2 + ['_'] + d2) + CsvSuffix;
    var m1 := n1[|EcgPrefix|..|n1| - |CsvSuffix|];
    assert m1 == s1 + ['_'] + d1;
    assert m1 == s2 + ['_'] + d2;
    IntTextPlain(id1);
    IntTextPlain(id2);
    FirstSeparator(s1, d1, s2, d2, '_');
    IntToStringInjective(id1, id2);
  }

  /** A given date is used as is; a falsy one is replaced by today's. */
  lemma FileNameDate(patientId: int, date: Option<string>, today: string)
    ensures var n := CreateEcgFileName(patientId, date, today);
      var d := ExportDate(date, today);
      && n[..|EcgPrefix|] == EcgPrefix && n[|n| - |CsvSuffix|..] == CsvSuffix
      && n[|n| - |CsvSuffix| - |d|..|n| - |CsvSuffix|] == d
      && (date == None || date == Some("") || date == Some("0") ==> d == today)
  {
    var n := CreateEcgFileName(patientId, date, today);
    var d := ExportDate(date, today);
    var a := EcgPrefix + IntToString(patientId) + "_";
    assert n == a + d + CsvSuffix;
    assert n[..|a|] == a;
  }
}
