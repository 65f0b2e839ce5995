/**
 * The `App` component's state and handlers: the selected file, the loading
 * flag behind the submit button, and a log of what the handlers do to the
 * outside world (toasts, the request, the download's URL and anchor).
 */
module App {
  import opened Wrappers
  import opened JsString
  import opened Selection
  import opened Effects
  import opened DownloadName
  import opened Submission

  class Controller {
    var file: Option<FileRec>
    var loading: bool
    var events: seq<Event>

    /** Every object URL the log mentions was used properly and none is still live. */
    ghost predicate Valid()
      reads this
    {
      Disciplined({}, events) && LiveAfter({}, events) == {}
    }

    /** `useState(null)` and `useState(false)` on first render. */
    constructor ()
      ensures Valid()
      ensures file == None && !loading && events == []
    {
      file := None;
      loading := false;
      events := [];
    }

    /** `beforeUpload(f)`: hold `f` in place of whatever was held, and veto the widget's own upload. */
    method BeforeUpload(f: FileRec) returns (autoUpload: bool)
      requires Valid()
      modifies this`file
      ensures Valid()
      ensures file == Apply(old(file), Choose(f))
      ensures file == Some(f) && FileList(file) == [f]
      ensures !autoUpload
    {
      file := Some(f);
      autoUpload := false;
    }

    /** `onRemove()`: empty the slot. */
    method OnRemove()
      requires Valid()
      modifies this`file
      ensures Valid()
      ensures file == Apply(old(file), Remove)
      ensures file == None && FileList(file) == []
    {
      file := None;
    }

    /**
     * `handleFinish(values)`, with the network's behaviour `outcome` and the
     * URL the browser mints for the result `url` supplied from outside.
     */
    method HandleFinish(values: FormValues, outcome: NetOutcome, url: string)
      requires Valid()
      modifies this`loading, this`events
      ensures Valid()
      ensures events == old(events) + Trace(file, values, outcome, url)
      ensures !Validates(file, values) ==> loading == old(loading)
      ensures Validates(file, values) ==> !loading
    {
      if file.None? {
        events := events + [ErrorToast(NoFileMessage)];
        NoFileRejected(values, outcome, url);
        assert events == old(events) + Trace(file, values, outcome, url);
        KeepsValid(old(events), file, values, outcome, url);
        return;
      }
      if values.headerTexts.None? || values.headerTexts.value == "" || Trim(values.headerTexts.value) == "" {
        events := events + [ErrorToast(NoHeaderMessage)];
        HeaderRejected(file.value, values, outcome, url);
        assert events == old(events) + Trace(file, values, outcome, url);
        KeepsValid(old(events), file, values, outcome, url);
        return;
      }

      RunRequest(file.value, values, outcome, url);
      AcceptedTrace(file.value, values, outcome, url);
      assert events == old(events) + Trace(file, values, outcome, url);
      KeepsValid(old(events), file, values, outcome, url);
    }

    /**
     * The try/catch/finally block of src/App.jsx:38-79: raise the loading flag, send
     * the form, then save the result or report the error, and lower the flag
     * whichever way the block ends.
     */
    method RunRequest(f: FileRec, values: FormValues, outcome: NetOutcome, url: string)
      requires values.headerTexts.Some?
      modifies this`loading, this`events
      ensures events == old(events) + ([Request(FormFields(f, values))] + ResponseTrace(OutputName(f.name), outcome, url))
      ensures !loading
    {
      // try
      loading := true;
      var form := BuildForm(f, values);
      events := events + [Request(form)];
      ghost var sent := events;
      var attempt := Await(outcome);
      match attempt {
        case Delivered(payload) =>
          Save(payload, url, OutputName(f.name));
          AppendAssoc(sent, DownloadTrace(url, payload, OutputName(f.name)), [SuccessToast(SuccessMessage)]);
          events := events + [SuccessToast(SuccessMessage)];
        case Thrown(m) =>
          // catch
          var text := if m != "" then m else UnknownErrorMessage;
          events := events + [ErrorToast(text)];
      }
      // finally
      loading := false;
      AppendAssoc(old(events), [Request(form)], ResponseTrace(OutputName(f.name), outcome, url));
    }

    /** src/App.jsx:64-72: materialise the payload as an object URL, click a download anchor to it, clean up. */
    method Save(payload: Bytes, url: string, filename: string)
      modifies this`events
      ensures events == old(events) + DownloadTrace(url, payload, filename)
    {
      events := events + [CreateObjectUrl(url, payload)];
      events := events + [AppendAnchor(url, filename)];
      events := events + [ClickAnchor(url)];
      events := events + [RemoveAnchor(url)];
      events := events + [RevokeObjectUrl(url)];
    }
  }

  /** A clean log stays clean when one submission's trace is appended to it. */
  lemma KeepsValid(before: seq<Event>, file: Option<FileRec>, values: FormValues, outcome: NetOutcome, url: string)
    requires Disciplined({}, before) && LiveAfter({}, before) == {}
    ensures var after := before + Trace(file, values, outcome, url);
      Disciplined({}, after) && LiveAfter({}, after) == {}
  {
    TraceDisciplined(file, values, outcome, url);
    DisciplineAppend({}, before, Trace(file, values, outcome, url));
  }

  /** The multipart body, appended field by field. */
  method BuildForm(file: FileRec, values: FormValues) returns (form: seq<FormField>)
    requires values.headerTexts.Some?
    ensures form == FormFields(file, values)
  {
    form := [];
    form := form + [FormField("file", FileValue(file))];
    form := form + [FormField("header_texts", TextValue(values.headerTexts.value))];
    form := form + [FormField("band_mm", NumberValue(values.bandMm))];
    form := form + [FormField("margin_mm", NumberValue(values.marginMm))];
    form := form + [FormField("ignore_case", FlagValue(values.ignoreCase == Some(true)))];
  }

  /**
   * The awaited part of the try block: the response's `ok` check, the
   * tolerant read of a failure body's JSON and the read of a success body.
   */
  method Await(outcome: NetOutcome) returns (attempt: Attempt)
    ensures attempt == Classify(outcome)
  {
    match outcome {
      case TransportError(m) =>
        attempt := Thrown(m);
      case NotOk(json) =>
        var msg := RequestFailedMessage;
        if json.Parsed? && json.error.Some? && json.error.value != "" {
          msg := json.error.value;
        }
        attempt := Thrown(msg);
      case Ok(ReadFailed(m)) =>
        attempt := Thrown(m);
      case Ok(Blob(payload)) =>
        attempt := Delivered(payload);
    }
  }

  /** Removing the file twice leaves the controller as removing it once does. */
  method RemoveTwice(c: Controller)
    requires c.Valid()
    modifies c
    ensures c.Valid()
    ensures c.file == Apply(Apply(old(c.file), Remove), Remove) == Apply(old(c.file), Remove)
    ensures c.file == None && FileList(c.file) == []
    ensures c.loading == old(c.loading) && c.events == old(c.events)
  {
    c.OnRemove();
    c.OnRemove();
  }
}
