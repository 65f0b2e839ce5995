/**
 * One run of the form's submit handler, as a function of the slot, the form
 * values and what the network did: the local checks (file first, header
 * text second), the multipart request, the classification of the response,
 * the download and the notifications, in the order they happen.
 */
module Submission {
  import opened Wrappers
  import opened JsString
  import opened Selection
  import opened Effects
  import opened DownloadName

  const NoFileMessage: string := "Lütfen bir PDF dosyası seç."
  const NoHeaderMessage: string := "Lütfen en az bir header metni gir."
  const RequestFailedMessage: string := "İstek başarısız."
  const UnknownErrorMessage: string := "Bilinmeyen bir hata oluştu."
  const SuccessMessage: string := "PDF başarıyla işlendi ve indirildi."

  /** The form's values; None is a field the form left undefined or null. */
  datatype FormValues = FormValues(
    headerTexts: Option<string>,
    bandMm: Option<real>,
    marginMm: Option<real>,
    ignoreCase: Option<bool>)

  /** The form's `initialValues`: no header text, a 25 mm band, no margin, case-sensitive. */
  const InitialValues: FormValues := FormValues(None, Some(25.0), Some(0.0), Some(false))

  /** `!headerTexts || !headerTexts.trim()` */
  predicate HeaderTextMissing(headerTexts: Option<string>) {
    headerTexts.None? || headerTexts.value == "" || Trim(headerTexts.value) == ""
  }

  /** Both local checks pass, so loading is set and a request is sent. */
  predicate Validates(file: Option<FileRec>, values: FormValues) {
    file.Some? && !HeaderTextMissing(values.headerTexts)
  }

  /** `ignoreCase || false` for a checkbox value that is true, false or undefined. */
  function IgnoreCaseFlag(ignoreCase: Option<bool>): (flag: bool)
    ensures flag <==> ignoreCase == Some(true)
  {
    match ignoreCase
    case Some(b) => b
    case None => false
  }

  /** The multipart body, field by field in the order the handler appends them. */
  function FormFields(file: FileRec, values: FormValues): seq<FormField>
    requires values.headerTexts.Some?
  {
    [ FormField("file", FileValue(file)),
      FormField("header_texts", TextValue(values.headerTexts.value)),
      FormField("band_mm", NumberValue(values.bandMm)),
      FormField("margin_mm", NumberValue(values.marginMm)),
      FormField("ignore_case", FlagValue(IgnoreCaseFlag(values.ignoreCase))) ]
  }

  /** The body of a non-2xx response: not JSON at all, or JSON whose `error` is absent or a string. */
  datatype JsonBody = Unparseable | Parsed(error: Option<string>)

  /** What `await res.blob()` gave. */
  datatype BodyRead = Blob(payload: Bytes) | ReadFailed(message: string)

  /** What the network did with the request. */
  datatype NetOutcome =
    | TransportError(message: string)  // fetch itself rejected
    | NotOk(json: JsonBody)            // a response with res.ok false
    | Ok(body: BodyRead)               // a response with res.ok true

  /** How the try block ends: with the payload in hand, or with an Error whose message is given. */
  datatype Attempt = Delivered(payload: Bytes) | Thrown(message: string)

  /** The message thrown for a non-2xx response: a truthy `error` field, else the generic text. */
  function ServiceErrorMessage(json: JsonBody): (msg: string)
    ensures msg != ""
    ensures json.Parsed? && json.error.Some? && json.error.value != "" ==> msg == json.error.value
    ensures !(json.Parsed? && json.error.Some? && json.error.value != "") ==> msg == RequestFailedMessage
  {
    match json
    case Parsed(Some(e)) => if e != "" then e else RequestFailedMessage
    case _ => RequestFailedMessage
  }

  function Classify(outcome: NetOutcome): Attempt {
    match outcome
    case TransportError(m) => Thrown(m)
    case NotOk(json) => Thrown(ServiceErrorMessage(json))
    case Ok(Blob(payload)) => Delivered(payload)
    case Ok(ReadFailed(m)) => Thrown(m)
  }

  /** `err.message || "Bilinmeyen bir hata oluştu."` */
  function CaughtMessage(message: string): (text: string)
    ensures text != ""
    ensures message != "" ==> text == message
    ensures message == "" ==> text == UnknownErrorMessage
  {
    if message != "" then message else UnknownErrorMessage
  }

  /** The one-shot save: mint a URL for the payload, click an anchor to it, drop the anchor, revoke the URL. */
  function DownloadTrace(url: string, payload: Bytes, filename: string): seq<Event> {
    [ CreateObjectUrl(url, payload), AppendAnchor(url, filename), ClickAnchor(url),
      RemoveAnchor(url), RevokeObjectUrl(url) ]
  }

  /** What follows the request: the save and the success toast, or the error toast of the catch block. */
  function ResponseTrace(filename: string, outcome: NetOutcome, url: string): seq<Event> {
    match Classify(outcome)
    case Delivered(payload) => DownloadTrace(url, payload, filename) + [SuccessToast(SuccessMessage)]
    case Thrown(m) => [ErrorToast(CaughtMessage(m))]
  }

  /** Everything one submission logs; `url` is the object URL the browser would mint. */
  function Trace(file: Option<FileRec>, values: FormValues, outcome: NetOutcome, url: string): seq<Event> {
    if file.None? then [ErrorToast(NoFileMessage)]
    else if HeaderTextMissing(values.headerTexts) then [ErrorToast(NoHeaderMessage)]
    else [Request(FormFields(file.value, values))] + ResponseTrace(OutputName(file.value.name), outcome, url)
  }

  /** The submission ended with the file saved. */
  predicate Downloads(file: Option<FileRec>, values: FormValues, outcome: NetOutcome) {
    Validates(file, values) && outcome.Ok? && outcome.body.Blob?
  }

  // ---------------------------------------------------------------------------
  // Properties

  /** The header check is the trim check: absent, or nothing but white space. */
  lemma HeaderMissingIffBlank(headerTexts: Option<string>)
    ensures HeaderTextMissing(headerTexts) <==> headerTexts.None? || AllWhiteSpace(headerTexts.value)
  {
    if headerTexts.Some? {
      TrimEmptyIffAllWhiteSpace(headerTexts.value);
    }
  }

  /** With no file selected the only effect is the file error, whatever the header text and the network. */
  lemma NoFileRejected(values: FormValues, outcome: NetOutcome, url: string)
    ensures Trace(None, values, outcome, url) == [ErrorToast(NoFileMessage)]
  {
  }

  /** With a file but no usable header text the only effect is the header error. */
  lemma BlankHeaderRejected(file: FileRec, values: FormValues, outcome: NetOutcome, url: string)
    requires values.headerTexts.None? || AllWhiteSpace(values.headerTexts.value)
    ensures Trace(Some(file), values, outcome, url) == [ErrorToast(NoHeaderMessage)]
  {
    HeaderMissingIffBlank(values.headerTexts);
  }

  /** The trace in terms of the header check itself. */
  lemma HeaderRejected(file: FileRec, values: FormValues, outcome: NetOutcome, url: string)
    requires HeaderTextMissing(values.headerTexts)
    ensures Trace(Some(file), values, outcome, url) == [ErrorToast(NoHeaderMessage)]
  {
  }

  /** Once both checks pass, the request goes first and the response decides the rest. */
  lemma AcceptedTrace(file: FileRec, values: FormValues, outcome: NetOutcome, url: string)
    requires Validates(Some(file), values)
    ensures Trace(Some(file), values, outcome, url) ==
      [Request(FormFields(file, values))] + ResponseTrace(OutputName(file.name), outcome, url)
  {
  }

  /** The form as first shown is rejected for want of header text. */
  lemma InitialValuesRejected(file: FileRec, outcome: NetOutcome, url: string)
    ensures Trace(Some(file), InitialValues, outcome, url) == [ErrorToast(NoHeaderMessage)]
  {
  }

  /** With header text filled in, the defaults go out as a 25 mm band, a 0 mm margin and a false flag. */
  lemma InitialDefaultsForwarded(file: FileRec, headerTexts: string, outcome: NetOutcome, url: string)
    requires !AllWhiteSpace(headerTexts)
    ensures var values := InitialValues.(headerTexts := Some(headerTexts));
      && Validates(Some(file), values)
      && Trace(Some(file), values, outcome, url)[0].fields[2..] ==
           [ FormField("band_mm", NumberValue(Some(25.0))),
             FormField("margin_mm", NumberValue(Some(0.0))),
             FormField("ignore_case", FlagValue(false)) ]
  {
    var values := InitialValues.(headerTexts := Some(headerTexts));
    HeaderMissingIffBlank(values.headerTexts);
    AcceptedTrace(file, values, outcome, url);
  }

  /**
   * The request carries exactly the five fields `file`, `header_texts`,
   * `band_mm`, `margin_mm`, `ignore_case`, in that order: the file, the raw
   * untrimmed header text, both numbers unchanged, and a flag that is true
   * only for a checked box.
   */
  lemma RequestShape(file: FileRec, values: FormValues)
    requires values.headerTexts.Some?
    ensures var fields := FormFields(file, values);
      && |fields| == 5
      && (seq(5, i requires 0 <= i < 5 => fields[i].name))
         == ["file", "header_texts", "band_mm", "margin_mm", "ignore_case"]
      && fields[0].value == FileValue(file)
      && fields[1].value == TextValue(values.headerTexts.value)
      && fields[2].value == NumberValue(values.bandMm)
      && fields[3].value == NumberValue(values.marginMm)
      && fields[4].value == FlagValue(values.ignoreCase == Some(true))
  {
  }

  /** What the response part of a submission contains, kind by kind. */
  lemma {:induction false} ResponseKinds(filename: string, outcome: NetOutcome, url: string)
    ensures var r := ResponseTrace(filename, outcome, url);
      && |r| > 0
      && Filter(r, Fetch) == []
      && Filter(r, Toast) == [r[|r| - 1]]
      && Filter(r, UrlCreation) ==
           (match Classify(outcome) case Delivered(p) => [CreateObjectUrl(url, p)] case Thrown(_) => [])
      && Filter(r, UrlRevocation) ==
           (match Classify(outcome) case Delivered(_) => [RevokeObjectUrl(url)] case Thrown(_) => [])
  {
    var r := ResponseTrace(filename, outcome, url);
    match Classify(outcome)
    case Delivered(p) =>
      assert r == [ CreateObjectUrl(url, p), AppendAnchor(url, filename), ClickAnchor(url),
                    RemoveAnchor(url), RevokeObjectUrl(url), SuccessToast(SuccessMessage) ];
      FilterNone(r, Fetch);
      FilterOne(r, 5, Toast);
      FilterOne(r, 0, UrlCreation);
      FilterOne(r, 4, UrlRevocation);
    case Thrown(m) =>
      FilterNone(r, Fetch);
      FilterOne(r, 0, Toast);
      FilterNone(r, UrlCreation);
      FilterNone(r, UrlRevocation);
  }

  /** The request followed by the response part, kind by kind. */
  lemma AcceptedKinds(file: FileRec, values: FormValues, outcome: NetOutcome, url: string, kind: Kind)
    requires Validates(Some(file), values)
    ensures var r := ResponseTrace(OutputName(file.name), outcome, url);
      Filter(Trace(Some(file), values, outcome, url), kind) ==
        (if kind == Fetch then [Request(FormFields(file, values))] else []) + Filter(r, kind)
  {
    var r := ResponseTrace(OutputName(file.name), outcome, url);
    AcceptedTrace(file, values, outcome, url);
    FilterAppend([Request(FormFields(file, values))], r, kind);
    FilterOne([Request(FormFields(file, values))], 0, Fetch);
    if kind != Fetch {
      FilterNone([Request(FormFields(file, values))], kind);
    }
  }

  /** A request is sent exactly when both checks pass, it is the first effect, and it is sent once. */
  lemma RequestIffValid(file: Option<FileRec>, values: FormValues, outcome: NetOutcome, url: string)
    ensures Filter(Trace(file, values, outcome, url), Fetch) ==
      if Validates(file, values) then [Request(FormFields(file.value, values))] else []
    ensures Validates(file, values) ==> Trace(file, values, outcome, url)[0] == Request(FormFields(file.value, values))
  {
    if Validates(file, values) {
      AcceptedTrace(file.value, values, outcome, url);
      AcceptedKinds(file.value, values, outcome, url, Fetch);
      ResponseKinds(OutputName(file.value.name), outcome, url);
    } else {
      FilterNone(Trace(file, values, outcome, url), Fetch);
    }
  }

  /** The one toast a submission shows. */
  function ShownToast(file: Option<FileRec>, values: FormValues, outcome: NetOutcome): (toast: Event)
    ensures KindOf(toast) == Toast
    ensures toast == SuccessToast(SuccessMessage) <==> Downloads(file, values, outcome)
    ensures toast.ErrorToast? <==> !Downloads(file, values, outcome)
    ensures toast.ErrorToast? ==> toast.text != ""
  {
    if file.None? then ErrorToast(NoFileMessage)
    else if HeaderTextMissing(values.headerTexts) then ErrorToast(NoHeaderMessage)
    else match Classify(outcome)
      case Delivered(_) => SuccessToast(SuccessMessage)
      case Thrown(m) => ErrorToast(CaughtMessage(m))
  }

  /**
   * Every submission shows exactly one notification, and shows it as its
   * last effect: the success toast exactly when the file was saved, else an
   * error with a non-empty text.
   */
  lemma OneNotification(file: Option<FileRec>, values: FormValues, outcome: NetOutcome, url: string)
    ensures var t := Trace(file, values, outcome, url);
      Filter(t, Toast) == [ShownToast(file, values, outcome)] && t[|t| - 1] == ShownToast(file, values, outcome)
  {
    if Validates(file, values) {
      var t := Trace(file, values, outcome, url);
      var r := ResponseTrace(OutputName(file.value.name), outcome, url);
      AcceptedTrace(file.value, values, outcome, url);
      AcceptedKinds(file.value, values, outcome, url, Toast);
      ResponseKinds(OutputName(file.value.name), outcome, url);
      ResponseToast(OutputName(file.value.name), outcome, url);
      assert r[|r| - 1] == ShownToast(file, values, outcome);
      assert t[|t| - 1] == r[|r| - 1];
    } else {
      FilterOne(Trace(file, values, outcome, url), 0, Toast);
    }
  }

  /** The response part ends with the toast the try or the catch block shows. */
  lemma ResponseToast(filename: string, outcome: NetOutcome, url: string)
    ensures var r := ResponseTrace(filename, outcome, url);
      |r| > 0 && r[|r| - 1] ==
        match Classify(outcome)
        case Delivered(_) => SuccessToast(SuccessMessage)
        case Thrown(m) => ErrorToast(CaughtMessage(m))
  {
  }

  /**
   * A non-2xx response is reported with its JSON `error` when that is a
   * non-empty string, and with the generic failure text when the body is not
   * JSON or has no usable `error`; nothing is downloaded.
   */
  lemma ServiceErrorReported(file: FileRec, values: FormValues, json: JsonBody, url: string)
    requires Validates(Some(file), values)
    ensures Trace(Some(file), values, NotOk(json), url) ==
      [Request(FormFields(file, values)), ErrorToast(ServiceErrorMessage(json))]
    ensures json == Unparseable ==> ServiceErrorMessage(json) == RequestFailedMessage
    ensures forall e :: json == Parsed(Some(e)) && e != "" ==> ServiceErrorMessage(json) == e
  {
  }

  /** A failed fetch, or a failed read of the body, is reported with its own message or the fallback text. */
  lemma CaughtErrorReported(file: FileRec, values: FormValues, outcome: NetOutcome, url: string)
    requires Validates(Some(file), values)
    requires outcome.TransportError? || (outcome.Ok? && outcome.body.ReadFailed?)
    ensures var m := if outcome.TransportError? then outcome.message else outcome.body.message;
      Trace(Some(file), values, outcome, url) ==
        [Request(FormFields(file, values)), ErrorToast(if m == "" then UnknownErrorMessage else m)]
  {
    AcceptedTrace(file, values, outcome, url);
  }

  /**
   * On success the handler saves under the derived name: it creates the URL,
   * appends and clicks the anchor, removes it, revokes the URL, and only then
   * shows the success toast.
   */
  lemma SuccessSequence(file: FileRec, values: FormValues, payload: Bytes, url: string)
    requires Validates(Some(file), values)
    ensures Trace(Some(file), values, Ok(Blob(payload)), url) ==
      [ Request(FormFields(file, values)),
        CreateObjectUrl(url, payload), AppendAnchor(url, OutputName(file.name)), ClickAnchor(url),
        RemoveAnchor(url), RevokeObjectUrl(url), SuccessToast(SuccessMessage) ]
  {
    AcceptedTrace(file, values, Ok(Blob(payload)), url);
  }

  /** An object URL is created once and revoked once on the success path, and never otherwise. */
  lemma UrlCreatedAndRevokedOnce(file: Option<FileRec>, values: FormValues, outcome: NetOutcome, url: string)
    ensures Filter(Trace(file, values, outcome, url), UrlCreation) ==
      if Downloads(file, values, outcome) then [CreateObjectUrl(url, outcome.body.payload)] else []
    ensures Filter(Trace(file, values, outcome, url), UrlRevocation) ==
      if Downloads(file, values, outcome) then [RevokeObjectUrl(url)] else []
  {
    if Validates(file, values) {
      AcceptedUrls(file.value, values, outcome, url);
      if Downloads(file, values, outcome) {
        assert Classify(outcome) == Delivered(outcome.body.payload);
      } else {
        assert Classify(outcome).Thrown?;
      }
    } else {
      FilterNone(Trace(file, values, outcome, url), UrlCreation);
      FilterNone(Trace(file, values, outcome, url), UrlRevocation);
    }
  }

  /** The URL events of an accepted submission are those of its response part. */
  lemma AcceptedUrls(file: FileRec, values: FormValues, outcome: NetOutcome, url: string)
    requires Validates(Some(file), values)
    ensures Filter(Trace(Some(file), values, outcome, url), UrlCreation) ==
      (match Classify(outcome) case Delivered(p) => [CreateObjectUrl(url, p)] case Thrown(_) => [])
    ensures Filter(Trace(Some(file), values, outcome, url), UrlRevocation) ==
      (match Classify(outcome) case Delivered(_) => [RevokeObjectUrl(url)] case Thrown(_) => [])
  {
    AcceptedKinds(file, values, outcome, url, UrlCreation);
    AcceptedKinds(file, values, outcome, url, UrlRevocation);
    ResponseKinds(OutputName(file.name), outcome, url);
  }

  /**
   * A submission that starts with no live object URL uses only live ones
   * (never a revoked or foreign URL, never a second revocation) and ends with
   * none live: nothing leaks.
   */
  lemma TraceDisciplined(file: Option<FileRec>, values: FormValues, outcome: NetOutcome, url: string)
    ensures Disciplined({}, Trace(file, values, outcome, url))
    ensures LiveAfter({}, Trace(file, values, outcome, url)) == {}
  {
    if Validates(file, values) {
      var request := [Request(FormFields(file.value, values))];
      var r := ResponseTrace(OutputName(file.value.name), outcome, url);
      AcceptedTrace(file.value, values, outcome, url);
      ResponseDisciplined(OutputName(file.value.name), outcome, url);
      assert Disciplined({}, request) && LiveAfter({}, request) == {};
      DisciplineAppend({}, request, r);
    }
  }

  /** The response part, on either path, starting from no live URL, is well behaved and leaves none live. */
  lemma ResponseDisciplined(filename: string, outcome: NetOutcome, url: string)
    ensures Disciplined({}, ResponseTrace(filename, outcome, url))
    ensures LiveAfter({}, ResponseTrace(filename, outcome, url)) == {}
  {
    match Classify(outcome)
    case Delivered(payload) =>
      SaveDisciplined(url, payload, filename);
    case Thrown(m) =>
      var r := ResponseTrace(filename, outcome, url);
      assert r == [ErrorToast(CaughtMessage(m))];
      assert LiveAfter({}, r[1..]) == {};
  }

  /** The save, replayed event by event from no live URL. */
  lemma SaveDisciplined(url: string, payload: Bytes, filename: string)
    ensures var save := DownloadTrace(url, payload, filename) + [SuccessToast(SuccessMessage)];
      Disciplined({}, save) && LiveAfter({}, save) == {}
  {
    var save := DownloadTrace(url, payload, filename) + [SuccessToast(SuccessMessage)];
    var empty: set<string> := {};
    var live: set<string> := {url};
    var afterRevoke := [SuccessToast(SuccessMessage)];
    var afterRemove := [RevokeObjectUrl(url)] + afterRevoke;
    var afterClick := [RemoveAnchor(url)] + afterRemove;
    var afterAppend := [ClickAnchor(url)] + afterClick;
    var afterCreate := [AppendAnchor(url, filename)] + afterAppend;
    assert save == [CreateObjectUrl(url, payload)] + afterCreate;
    DisciplineCons(empty, SuccessToast(SuccessMessage), []);
    DisciplineCons(live, RevokeObjectUrl(url), afterRevoke);
    assert Step(live, RevokeObjectUrl(url)) == empty;
    DisciplineCons(live, RemoveAnchor(url), afterRemove);
    DisciplineCons(live, ClickAnchor(url), afterClick);
    DisciplineCons(live, AppendAnchor(url, filename), afterAppend);
    DisciplineCons(empty, CreateObjectUrl(url, payload), afterCreate);
    assert Step(empty, CreateObjectUrl(url, payload)) == live;
  }
}
