/** The patient configuration page. A POST is read into trimmed fields,
    validated by a sequence of independent checks that fill an error map
    (one message per field), and, when nothing failed, saved as a patient
    row then a configuration row; success ends in a redirect to the
    diagnostic page. The page also carries live client-side rules, one per
    field, that clear a field's error as the user types. The database
    inserts are answers given as parameters. */
module Configuration {
  import opened Wrappers
  import opened Text
  import opened Php
  import opened Database

  /** The form after reading `$_POST`: text fields trimmed, the
      acquisition time cast to an integer; a missing field is "" or 0. */
  datatype Form = Form(nom: string, numeroSecu: string, telephone: string,
                       adresse: string, groupeSanguin: string, tempsAcquisition: int)

  const FieldNames: set<string> :=
    {"nom", "numero_secu", "telephone", "adresse", "groupe_sanguin", "temps_acquisition"}

  const NomRequired := "Le nom est requis"
  const SecuRequired := "Le numéro de sécurité sociale est requis"
  const SecuDigits := "Le numéro de sécurité sociale doit contenir 15 chiffres"
  const TelephoneRequired := "Le téléphone est requis"
  const AdresseRequired := "L'adresse est requise"
  const GroupeRequired := "Le groupe sanguin est requis"
  const TempsPositive := "Le temps d'acquisition doit être supérieur à 0"

  /** `isset($_POST[k]) ? trim($_POST[k]) : ''`. */
  function TextField(post: map<string, string>, k: string): string
  {
    if k in post then Trim(post[k]) else ""
  }

  function ReadForm(post: map<string, string>): Form
  {
    Form(TextField(post, "nom"), TextField(post, "numero_secu"),
         TextField(post, "telephone"), TextField(post, "adresse"),
         TextField(post, "groupe_sanguin"),
         if "temps_acquisition" in post then IntCast(post["temps_acquisition"]) else 0)
  }

  /** Every text field of the form is already trimmed, and the
      acquisition time is the cast of what was posted. */
  lemma FormFieldsTrimmed(post: map<string, string>)
    ensures var f := ReadForm(post);
      && Trim(f.nom) == f.nom && Trim(f.numeroSecu) == f.numeroSecu
      && Trim(f.telephone) == f.telephone && Trim(f.adresse) == f.adresse
      && Trim(f.groupeSanguin) == f.groupeSanguin
    ensures "temps_acquisition" !in post ==> ReadForm(post).tempsAcquisition == 0
    ensures "temps_acquisition" in post ==>
      ReadForm(post).tempsAcquisition == IntCast(post["temps_acquisition"])
  {
    forall k | k in post {
      TrimSetIdempotent(post[k], TrimChars);
    }
  }

  /** Exactly fifteen ASCII digits. */
  predicate FifteenDigits(s: string)
  {
    |s| == 15 && AllDigits(s)
  }

  /** `preg_match('/^\d{15}$/', s)`: without the `D` modifier, `$` also
      matches just before a final newline. */
  predicate SecuPattern(s: string)
  {
    FifteenDigits(s) || (|s| == 16 && FifteenDigits(s[..15]) && s[15] == '\n')
  }

  /** Trimmed text has no trimmable character at either end. */
  lemma TrimmedEdges(s: string)
    requires Trim(s) == s
    ensures s == [] || (s[0] !in TrimChars && s[|s| - 1] !in TrimChars)
  {
    var l := TrimLeft(s, TrimChars);
    var r := TrimRight(l, TrimChars);
    if l != [] {
      assert r != [] ==> r[|r| - 1] !in TrimChars;
    }
  }

  /** Without a final newline the pattern means fifteen digits, and a
      value it accepts is never empty in PHP's sense. */
  lemma SecuPatternWithoutNewline(s: string)
    requires s == [] || s[|s| - 1] != '\n'
    ensures SecuPattern(s) <==> FifteenDigits(s)
    ensures SecuPattern(s) ==> !EmptyString(s)
  {
  }

  /** A social security number the page accepts. */
  predicate SecuValid(s: string)
  {
    !EmptyString(s) && SecuPattern(s)
  }

  /** What the page demands of a form, field by field. */
  predicate FormValid(f: Form)
  {
    && !EmptyString(f.nom)
    && SecuValid(f.numeroSecu)
    && !EmptyString(f.telephone)
    && !EmptyString(f.adresse)
    && !EmptyString(f.groupeSanguin)
    && f.tempsAcquisition > 0
  }

  /** The server-side validation: each check that fails records its
      field's message; numero_secu gets "requis" when empty and the digit
      message otherwise. */
  method Validate(f: Form) returns (errors: map<string, string>)
    ensures errors.Keys <= FieldNames
    ensures errors == map[] <==> FormValid(f)
    ensures "nom" in errors <==> EmptyString(f.nom)
    ensures "numero_secu" in errors <==> EmptyString(f.numeroSecu) || !SecuPattern(f.numeroSecu)
    ensures "telephone" in errors <==> EmptyString(f.telephone)
    ensures "adresse" in errors <==> EmptyString(f.adresse)
    ensures "groupe_sanguin" in errors <==> EmptyString(f.groupeSanguin)
    ensures "temps_acquisition" in errors <==> f.tempsAcquisition <= 0
    ensures "nom" in errors ==> errors["nom"] == NomRequired
    ensures EmptyString(f.numeroSecu) ==> errors["numero_secu"] == SecuRequired
    ensures !EmptyString(f.numeroSecu) && !SecuPattern(f.numeroSecu) ==>
      errors["numero_secu"] == SecuDigits
    ensures "telephone" in errors ==> errors["telephone"] == TelephoneRequired
    ensures "adresse" in errors ==> errors["adresse"] == AdresseRequired
    ensures "groupe_sanguin" in errors ==> errors["groupe_sanguin"] == GroupeRequired
    ensures "temps_acquisition" in errors ==> errors["temps_acquisition"] == TempsPositive
  {
    errors := map[];
    if EmptyString(f.nom) {
      errors := errors["nom" := NomRequired];
    }
    if EmptyString(f.numeroSecu) {
      errors := errors["numero_secu" := SecuRequired];
    } else if !SecuPattern(f.numeroSecu) {
      errors := errors["numero_secu" := SecuDigits];
    }
    if EmptyString(f.telephone) {
      errors := errors["telephone" := TelephoneRequired];
    }
    if EmptyString(f.adresse) {
      errors := errors["adresse" := AdresseRequired];
    }
    if EmptyString(f.groupeSanguin) {
      errors := errors["groupe_sanguin" := GroupeRequired];
    }
    if f.tempsAcquisition <= 0 {
      errors := errors["temps_acquisition" := TempsPositive];
    }
    if !FormValid(f) {
      assert "nom" in errors || "numero_secu" in errors || "telephone" in errors
        || "adresse" in errors || "groupe_sanguin" in errors || "temps_acquisition" in errors;
    }
  }

  /** What the page ends with: the error shown above the form, the
      session's success message and ids, the redirect, and the tables an
      insert was attempted on, in order. */
  datatype Outcome = Outcome(formError: string, success: Option<string>,
                             configId: Option<string>, patientId: Option<string>,
                             redirect: Option<string>, inserts: seq<string>)

  const RedirectPrefix := "/pages/diagnostic.php?config_id="
  const SuccessPrefix := "Configuration enregistrée avec succès. ID de configuration: "
  const CorrectErrorsText := "Veuillez corriger les erreurs dans le formulaire."
  const PatientErrorText := "Erreur lors de l'enregistrement des informations du patient."
  const ConfigErrorText := "Erreur lors de l'enregistrement de la configuration."
  /** `$DEBUG` is never defined on this page, so the exception's own
      message is never shown. */
  const ExceptionText := "Une erreur est survenue: Contactez l'administrateur"

  function RedirectUrl(configId: string): (url: string)
    ensures |url| == |RedirectPrefix| + |configId|
    ensures url[..|RedirectPrefix|] == RedirectPrefix && url[|RedirectPrefix|..] == configId
  {
    RedirectPrefix + configId
  }

  /** The redirect of a numeric id reads back as that id. */
  lemma RedirectReadsBack(n: nat)
    ensures var q := RedirectUrl(NatToString(n))[|RedirectPrefix|..];
      AllDigits(q) && DigitsValue(q) == n
  {
    NatToStringRoundTrip(n);
  }

  /** The save step after validation, given the two inserts' answers (the
      second is not asked when the first fails). */
  function Save(errors: map<string, string>, patient: InsertAnswer, config: InsertAnswer): (o: Outcome)
    ensures o.redirect.Some? <==> errors == map[] && Inserted(patient) && Inserted(config)
    ensures o.redirect.Some? ==>
      && o.redirect == Some(RedirectUrl(config.id))
      && o.success == Some(SuccessPrefix + config.id)
      && o.configId == Some(config.id) && o.patientId == Some(patient.id)
      && o.formError == "" && o.inserts == ["patients", "configurations"]
    ensures o.redirect.None? ==>
      o.formError != "" && o.success.None? && o.configId.None? && o.patientId.None?
    ensures errors != map[] ==> o.formError == CorrectErrorsText && o.inserts == []
    ensures errors == map[] && !Inserted(patient) ==> o.inserts == ["patients"]
    ensures errors == map[] && patient.InsertRaised? ==> o.formError == ExceptionText
    ensures errors == map[] && patient.InsertReturned? && !Inserted(patient) ==>
      o.formError == PatientErrorText
    ensures errors == map[] && Inserted(patient) && config.InsertRaised? ==>
      o.formError == ExceptionText && o.inserts == ["patients", "configurations"]
    ensures errors == map[] && Inserted(patient) && config.InsertReturned? && !Inserted(config) ==>
      o.formError == ConfigErrorText && o.inserts == ["patients", "configurations"]
  {
    var failed := (e: string, tables: seq<string>) => Outcome(e, None, None, None, None, tables);
    if errors != map[] then failed(CorrectErrorsText, [])
    else match patient
      case InsertRaised => failed(ExceptionText, ["patients"])
      case InsertReturned(p) =>
        if EmptyString(p) then failed(PatientErrorText, ["patients"])
        else match config
          case InsertRaised => failed(ExceptionText, ["patients", "configurations"])
          case InsertReturned(c) =>
            if EmptyString(c) then failed(ConfigErrorText, ["patients", "configurations"])
            else Outcome("", Some(SuccessPrefix + c), Some(c), Some(p), Some(RedirectUrl(c)),
                         ["patients", "configurations"])
  }

  /** The POST handler: read, validate, save. */
  method HandlePost(post: map<string, string>, patient: InsertAnswer, config: InsertAnswer)
    returns (errors: map<string, string>, o: Outcome)
    ensures errors == map[] <==> FormValid(ReadForm(post))
    ensures o == Save(errors, patient, config)
    ensures o.redirect.Some? <==> FormValid(ReadForm(post)) && Inserted(patient) && Inserted(config)
  {
    var f := ReadForm(post);
    errors := Validate(f);
    o := Save(errors, patient, config);
  }

  // The client-side rules.

  /** The inputs the live rules tell apart by their element id. */
  datatype Input = Nom | NumeroSecu | Telephone | Adresse | GroupeSanguin | TempsAcquisition | OtherInput

  /** The characters JavaScript's `trim()` removes: white space and line
      terminators. */
  const JsWhitespace: set<char> :=
    {'\t', '\n', '\U{000B}', '\U{000C}', '\r', ' ', '\U{00A0}', '\U{1680}',
     '\U{2000}', '\U{2001}', '\U{2002}', '\U{2003}', '\U{2004}', '\U{2005}',
     '\U{2006}', '\U{2007}', '\U{2008}', '\U{2009}', '\U{200A}', '\U{2028}',
     '\U{2029}', '\U{202F}', '\U{205F}', '\U{3000}', '\U{FEFF}'}

  function JsTrim(s: string): string
  {
    TrimSet(s, JsWhitespace)
  }

  predicate IsHexChar(c: char)
  {
    IsDigit(c) || 'a' <= c <= 'f' || 'A' <= c <= 'F'
  }

  function HexCharValue(c: char): (n: nat)
    requires IsHexChar(c)
    ensures n < 16
  {
    if IsDigit(c) then c as int - '0' as int
    else if 'a' <= c <= 'f' then c as int - 'a' as int + 10
    else c as int - 'A' as int + 10
  }

  /** The number of leading hexadecimal digits of `s`. */
  function LeadingHex(s: string): (n: nat)
    ensures n <= |s| && forall i :: 0 <= i < n ==> IsHexChar(s[i])
    ensures n < |s| ==> !IsHexChar(s[n])
  {
    if s != [] && IsHexChar(s[0]) then 1 + LeadingHex(s[1..]) else 0
  }

  function HexDigitsValue(s: string): nat
    requires forall i :: 0 <= i < |s| ==> IsHexChar(s[i])
    decreases |s|
  {
    if s == [] then 0 else HexDigitsValue(s[..|s| - 1]) * 16 + HexCharValue(s[|s| - 1])
  }

  /** The digits `parseInt` reads after the sign: hexadecimal after
      `0x`/`0X`, decimal otherwise; `None` when there are none. */
  function ParseUnsigned(u: string): Option<nat>
  {
    if |u| >= 2 && u[0] == '0' && (u[1] == 'x' || u[1] == 'X') then
      var h := LeadingHex(u[2..]);
      if h == 0 then None else Some(HexDigitsValue(u[2..][..h]))
    else
      var n := LeadingDigits(u);
      if n == 0 then None else Some(DigitsValue(u[..n]))
  }

  /** JavaScript `parseInt(s)` without a radix: leading white space, an
      optional sign, then the digits; `None` is `NaN`. */
  function ParseInt(s: string): Option<int>
  {
    var t := TrimLeft(s, JsWhitespace);
    match ParseUnsigned(StripSign(t))
    case None => None
    case Some(v) => var r: int := if t != [] && t[0] == '-' then -(v as int) else v; Some(r)
  }

  /** On decimal digits `parseInt` gives the number written, as PHP's
      `(int)` does. */
  lemma ParseIntOfDigits(s: string)
    requires s != [] && AllDigits(s)
    ensures ParseInt(s) == Some(DigitsValue(s))
  {
    assert s[0] !in JsWhitespace;
    assert TrimLeft(s, JsWhitespace) == s;
    assert StripSign(s) == s;
    LeadingDigitsOfDigits(s);
    assert s[..|s|] == s;
    assert ParseUnsigned(s) == Some(DigitsValue(s));
  }

  /** The live rule for the name, address and telephone inputs. */
  predicate ClientTextValid(value: string)
  {
    JsTrim(value) != ""
  }

  predicate ClientSecuValid(value: string)
  {
    FifteenDigits(JsTrim(value))
  }

  /** The blood type select is not trimmed. */
  predicate ClientSelectValid(value: string)
  {
    value != ""
  }

  predicate ClientDurationValid(value: string)
  {
    var p := ParseInt(value); p.Some? && p.value > 0
  }

  /** The live rule chosen by the input's id; other inputs are always
      valid. */
  predicate ClientValid(input: Input, value: string)
  {
    match input
    case Nom | Adresse | Telephone => ClientTextValid(value)
    case NumeroSecu => ClientSecuValid(value)
    case GroupeSanguin => ClientSelectValid(value)
    case TempsAcquisition => ClientDurationValid(value)
    case OtherInput => true
  }

  /** The server's check of a text field, on the text as posted. */
  predicate TextAccepted(raw: string)
  {
    !EmptyString(Trim(raw))
  }

  /** The server's check of the social security number as posted. */
  predicate SecuAccepted(raw: string)
  {
    SecuValid(Trim(raw))
  }

  /** The server's check of the acquisition time as posted. */
  predicate DurationAccepted(raw: string)
  {
    IntCast(raw) > 0
  }

  /** A complete POST is valid exactly when the server accepts each of
      its fields. */
  lemma FormValidIffFieldsAccepted(post: map<string, string>)
    requires FieldNames <= post.Keys
    ensures FormValid(ReadForm(post)) <==>
      && TextAccepted(post["nom"])
      && SecuAccepted(post["numero_secu"])
      && TextAccepted(post["telephone"])
      && TextAccepted(post["adresse"])
      && TextAccepted(post["groupe_sanguin"])
      && DurationAccepted(post["temps_acquisition"])
  {
    var f := ReadForm(post);
    assert f == Form(Trim(post["nom"]), Trim(post["numero_secu"]), Trim(post["telephone"]),
                     Trim(post["adresse"]), Trim(post["groupe_sanguin"]),
                     IntCast(post["temps_acquisition"]));
  }

  /** Text with no white space at either end for either language. */
  predicate Bare(v: string)
  {
    v == [] ||
    (v[0] !in JsWhitespace && v[0] !in TrimChars &&
     v[|v| - 1] !in JsWhitespace && v[|v| - 1] !in TrimChars)
  }

  lemma BareIsTrimmed(v: string)
    requires Bare(v)
    ensures JsTrim(v) == v && Trim(v) == v
  {
    TrimSetNoEdges(v, JsWhitespace);
    TrimSetNoEdges(v, TrimChars);
  }

  /** For the free-text inputs the two sides agree on bare text, except
      that the client lets "0" through. */
  lemma TextRuleAgreement(input: Input, v: string)
    requires input == Nom || input == Adresse || input == Telephone
    requires Bare(v)
    ensures ClientValid(input, v) <==> TextAccepted(v) || v == "0"
  {
    BareIsTrimmed(v);
    assert ClientValid(input, v) == ClientTextValid(v) == (v != "");
    assert TextAccepted(v) == !EmptyString(v);
  }

  /** For the social security number the two sides agree on bare text. */
  lemma SecuRuleAgreement(v: string)
    requires Bare(v)
    ensures ClientValid(NumeroSecu, v) <==> SecuAccepted(v)
  {
    BareIsTrimmed(v);
    SecuPatternWithoutNewline(v);
  }

  /** For a duration written in decimal digits the two sides agree. */
  lemma DurationRuleAgreement(v: string)
    requires v != [] && AllDigits(v)
    ensures ClientValid(TempsAcquisition, v) <==> DurationAccepted(v)
  {
    assert ClientValid(TempsAcquisition, v) == ClientDurationValid(v);
    ParseIntOfDigits(v);
    IntCastOfDigits(v);
  }

  /** "0" passes the client's rule for a name but PHP's `empty` rejects it. */
  lemma ZeroNameDiverges()
    ensures ClientValid(Nom, "0") && !TextAccepted("0")
  {
    ZeroTextClientAccepts();
    ZeroNameServerRejects();
    TextInputRule(Nom, "0");
  }

  /** The name, address and telephone inputs share one live rule. */
  lemma TextInputRule(input: Input, v: string)
    requires input == Nom || input == Adresse || input == Telephone
    ensures ClientValid(input, v) == ClientTextValid(v)
  {
  }

  lemma ZeroTextClientAccepts()
    ensures ClientTextValid("0")
  {
    var z := "0";
    assert z == ['0'];
    DigitNotJsWhitespace('0');
    TrimSetNoEdges(z, JsWhitespace);
  }

  lemma ZeroNameServerRejects()
    ensures !TextAccepted("0")
  {
    var z := "0";
    assert z == ['0'];
    assert '0' !in TrimChars;
    TrimSetNoEdges(z, TrimChars);
  }

  /** A digit is not white space to JavaScript. */
  lemma DigitNotJsWhitespace(c: char)
    requires IsDigit(c)
    ensures c !in JsWhitespace
  {
  }

  /** The client does not trim the blood type: a blank passes it, while
      the server trims it to "" and rejects it. */
  lemma BlankBloodTypeDiverges()
    ensures ClientValid(GroupeSanguin, " ") && !TextAccepted(" ")
  {
    assert TrimLeft(" ", TrimChars) == "";
  }

  lemma {:induction false} LeadingHexOfDigits(d: string)
    requires AllDigits(d)
    ensures LeadingHex(d) == |d|
  {
    if d != [] {
      LeadingHexOfDigits(d[1..]);
    }
  }

  /** After `0x`, `parseInt` reads the digits in base sixteen. */
  lemma HexParseInt(d: string)
    requires d != [] && AllDigits(d)
    ensures ParseInt("0x" + d) == Some(HexDigitsValue(d))
  {
    var s := "0x" + d;
    assert s[0] == '0' && s[1] == 'x';
    assert s[0] !in JsWhitespace;
    assert TrimLeft(s, JsWhitespace) == s;
    assert StripSign(s) == s;
    assert s[2..] == d;
    LeadingHexOfDigits(d);
    assert d[..|d|] == d;
    assert ParseUnsigned(s) == Some(HexDigitsValue(d));
  }

  /** PHP's `(int)` stops at the `x` of `0x`, so the server rejects such
      a duration. */
  lemma HexIntCast(d: string)
    ensures IntCast("0x" + d) == 0 && !DurationAccepted("0x" + d)
  {
    var s := "0x" + d;
    assert s[0] == '0' && s[1] == 'x';
    assert s[0] !in NumericWhitespace;
    assert TrimLeft(s, NumericWhitespace) == s;
    assert StripSign(s) == s;
    assert LeadingDigits(s[1..]) == 0;
    assert LeadingDigits(s) == 1;
    var z := s[..1];
    assert z == "0" && z[..0] == [];
    assert DigitsValue(z) == 0;
    assert IntCast(s) == SignedLeadingDigits(s);
  }

  /** A duration written `0x` and digits passes the client's rule when it
      is positive in base sixteen, while the server rejects it (see
      `HexIntCast`): "0x10" is sixteen seconds to one side and an error to
      the other. */
  lemma HexDurationDiverges(d: string)
    requires d != [] && AllDigits(d)
    ensures ClientValid(TempsAcquisition, "0x" + d) <==> HexDigitsValue(d) > 0
  {
    HexParseInt(d);
    DurationInputRule("0x" + d);
  }

  lemma DurationInputRule(v: string)
    ensures ClientValid(TempsAcquisition, v) == ClientDurationValid(v)
  {
  }

  /** A no-break space alone is blank to JavaScript's `trim()` but kept
      by PHP's, so the server accepts it as a name. */
  lemma NoBreakSpaceNameDiverges()
    ensures !ClientValid(Nom, "\U{00A0}") && TextAccepted("\U{00A0}")
  {
    NoBreakSpaceClientRejects();
    NoBreakSpaceServerAccepts();
  }

  lemma NoBreakSpaceClientRejects()
    ensures !ClientValid(Nom, "\U{00A0}")
  {
    var nbsp := "\U{00A0}";
    assert nbsp == ['\U{00A0}'];
    assert '\U{00A0}' in JsWhitespace;
    TrimSetLoneMember('\U{00A0}', JsWhitespace);
    assert ClientValid(Nom, nbsp) == ClientTextValid(nbsp);
  }

  lemma NoBreakSpaceServerAccepts()
    ensures TextAccepted("\U{00A0}")
  {
    var nbsp := "\U{00A0}";
    assert nbsp == ['\U{00A0}'];
    assert '\U{00A0}' !in TrimChars;
    TrimSetNoEdges(nbsp, TrimChars);
  }
}
