# PDF Header Remover — submit-and-download controller

This project models, in Dafny, the controller logic of the `App` component of the
PDF Header Remover web front end (`src/App.jsx`). It does not model the page layout.

The user picks one PDF and types the header texts to erase. They can also set the
band height, the side margin and case-insensitive matching, then submit.

`handleFinish` then runs these steps:
- It checks that a file is selected.
- It checks that the header text is not blank.
- It raises the `loading` flag and posts a five-field multipart form to the removal service.
- On success it saves the returned PDF under a derived name through a short-lived object URL, then shows a success toast.
- Otherwise it shows an error toast.
- Whichever way the request ends, it lowers `loading` again.

The modules follow the component's parts:

- `Wrappers` — `Option`, standing for JavaScript's `null`/`undefined`.
- `JsString` — `String.prototype.trim`. It strips the ECMAScript white-space and line-terminator characters from both ends.
- `DownloadName` — the download file name: strip one trailing `.pdf`, matched case-insensitively, then append `_noheaders.pdf`.
- `Selection` — the single file slot and the `fileList` derived from it.
- `Effects` — the log of observable effects:
  - the toasts;
  - the request with its form fields;
  - object-URL creation and revocation;
  - the download anchor's append, click and removal.

  It also holds the rule that an object URL may only be used while it is live.
- `Submission` — a pure specification of one `handleFinish` run. `Trace` gives the effects it logs for a given selection, form values and network outcome. The lemmas state what the component promises about that trace.
- `App` — class `Controller` with the component's state: `file`, `loading` and the append-only `events` log. Its methods are `BeforeUpload`, `OnRemove` and `HandleFinish`.
  - `HandleFinish` is written step by step like the handler.
  - It is proved to log exactly `Trace(...)`.
  - It keeps the invariant that the log never misuses or leaks an object URL.

The network is a parameter of type `NetOutcome`, which has three cases:
- `TransportError(message)`: `fetch` rejected.
- `NotOk(json)`: a response with `ok` false, whose body is not JSON or is JSON with an optional `error`.
- `Ok(body)`: a response with `ok` true, whose `blob()` read either gives bytes or fails.

The object URL the browser would mint is also a parameter.

Points of the handler worth knowing:
- `bandMm` and `marginMm` are forwarded unchanged; only the input widgets (src/App.jsx:161, 169) bound them.
- `header_texts` is the raw, untrimmed text-area string.
- The payload is saved without an emptiness check.
- The component shows no preview of the chosen file.

## Model

| member | source | states |
|---|---|---|
| JsString.TrimStartSuffix | src/App.jsx:33 | trimming the start keeps a suffix, drops only white space, and leaves no white space in front |
| JsString.TrimEndPrefix | src/App.jsx:33 | trimming the end keeps a prefix, drops only white space, and leaves no white space at the back |
| JsString.TrimIsMiddle | src/App.jsx:33 | `trim()` returns a contiguous middle slice of the input, surrounded only by white space, that neither starts nor ends with white space |
| JsString.TrimEmptyIffAllWhiteSpace | src/App.jsx:33 | `trim()` gives the empty string exactly when every character is white space (both directions) |
| DownloadName.Stem | src/App.jsx:68 | with a `.pdf` extension (any letter case), the name is the stem followed by that extension; otherwise the stem is the whole name |
| DownloadName.OutputName | src/App.jsx:68 | the download name always ends in `_noheaders.pdf`, and its length is the input's plus 14, less 4 when a `.pdf` was stripped |
| DownloadName.StripsOneExtension | src/App.jsx:68 | a stem followed by one `.pdf` in any letter case becomes the stem plus `_noheaders.pdf` |
| DownloadName.KeepsOtherNames | src/App.jsx:68 | a name without a trailing `.pdf` is kept whole and gets `_noheaders.pdf` appended |
| DownloadName.OutputNameInverse | src/App.jsx:68 | the output is `stem + "_noheaders.pdf"` exactly when the input is that stem with no `.pdf` ending, or that stem followed by a `.pdf` ending (both directions) |
| DownloadName.ExampleUpperCase | src/App.jsx:68 | `report.PDF` becomes `report_noheaders.pdf` |
| DownloadName.ExampleDoubleExtension | src/App.jsx:68 | `a.pdf.pdf` becomes `a.pdf_noheaders.pdf`: only one extension is stripped |
| DownloadName.ExampleOtherExtension | src/App.jsx:68 | `x.txt` becomes `x.txt_noheaders.pdf` |
| Selection.FileList | src/App.jsx:94 | the list shown by the upload widget has at most one entry: the held file, or nothing |
| Selection.LastActionWins | src/App.jsx:86-94 | after any non-empty series of selections and removals, the slot holds what the last action put there, so the list has one entry after a selection and none after a removal |
| Selection.RemoveIdempotent | src/App.jsx:90-92 | removing twice leaves the slot as removing once does (empty), after any history |
| Submission.IgnoreCaseFlag | src/App.jsx:45 | the `ignore_case` flag sent is true exactly when the checkbox value is `true`; undefined and false both give false |
| Submission.ServiceErrorMessage | src/App.jsx:52-60 | a failed response's message is never empty: it is the JSON `error` when the body parses and `error` is a non-empty string, and the generic failure text in every other case, including a body that does not parse |
| Submission.CaughtMessage | src/App.jsx:76 | the caught error's toast text is never empty: the error's own message, or the unknown-error text when that is empty |
| Submission.HeaderMissingIffBlank | src/App.jsx:33 | the header check fails exactly when the text is absent or is white space only (both directions) |
| Submission.NoFileRejected | src/App.jsx:28-31 | with no file, the only effect is the file error toast, whatever the header text or the network does: the file check comes first and no request is sent |
| Submission.BlankHeaderRejected | src/App.jsx:33-36 | with a file but absent, empty or white-space-only header text, the only effect is the header error toast; no request is sent |
| Submission.InitialValuesRejected | src/App.jsx:115-119 | the form as first shown has no header text, so submitting it only shows the header error |
| Submission.InitialDefaultsForwarded | src/App.jsx:115-119 | once header text is entered, the untouched defaults are sent as `band_mm` 25, `margin_mm` 0 and `ignore_case` false |
| Submission.RequestShape | src/App.jsx:40-45 | the form has exactly five fields, named `file`, `header_texts`, `band_mm`, `margin_mm`, `ignore_case` in that order. It carries the file, the raw untrimmed header text, both numbers unchanged and the checkbox flag |
| Submission.ResponseKinds | src/App.jsx:52-76 | after the request: no further request and exactly one toast, which is last. One URL creation and one revocation appear when the payload arrived, and none otherwise |
| Submission.ResponseToast | src/App.jsx:74-76 | the response part always ends with a toast: the success toast when the payload arrived, else the caught error's text |
| Submission.AcceptedKinds | src/App.jsx:38-76 | effects of each kind in an accepted submission: the single request, then those of the response part |
| Submission.RequestIffValid | src/App.jsx:28-50 | a request is sent, exactly once and as the first effect, exactly when both checks pass (both directions) |
| Submission.ShownToast | src/App.jsx:28-76 | the toast a submission shows is the success toast exactly when the file was saved, and otherwise an error toast with a non-empty text |
| Submission.OneNotification | src/App.jsx:28-76 | every submission shows exactly one toast, and it is its last effect |
| Submission.ServiceErrorReported | src/App.jsx:52-61 | for a non-2xx response the effects are the request and one error toast with the service's message, or the generic text for an unparseable body; nothing is downloaded |
| Submission.CaughtErrorReported | src/App.jsx:47-76 | a rejected fetch or a failed body read shows its own message, or the fallback when that is empty, right after the request; nothing is downloaded |
| Submission.SuccessSequence | src/App.jsx:63-74 | on success the effects are, in order: request, URL creation, anchor appended with the derived name, click, anchor removed, URL revoked, success toast |
| Submission.UrlCreatedAndRevokedOnce | src/App.jsx:64-72 | an object URL is created once and revoked once when the file is saved, and neither happens otherwise |
| Submission.AcceptedUrls | src/App.jsx:63-76 | in an accepted submission, one URL creation and one revocation appear when the payload arrived, and none when an error was thrown |
| Submission.TraceDisciplined | src/App.jsx:64-72 | starting with no live URL, a submission uses an object URL only while it is live, never revokes twice, and ends with none live |
| Submission.ResponseDisciplined | src/App.jsx:63-76 | whichever way the request ends, what follows it uses object URLs only while live and leaves none live |
| Submission.SaveDisciplined | src/App.jsx:64-74 | the save followed by the success toast, replayed from no live URL, is well behaved and leaves none live |
| App.Controller.constructor | src/App.jsx:22-23 | the component starts with no file, not loading, and an empty log |
| App.Controller.BeforeUpload | src/App.jsx:86-89 | selecting is the `Choose` step of the selection replay: it replaces the held file, the shown list is exactly that file, and the widget's own upload is vetoed; the log stays clean |
| App.Controller.OnRemove | src/App.jsx:90-92 | removing is the `Remove` step of the selection replay: it empties the slot and the shown list; the log stays clean |
| App.Controller.HandleFinish | src/App.jsx:25-80 | the handler appends exactly one submission's trace to the log. `loading` is untouched when a check fails and false on every exit after the request. The URL discipline of the log is preserved |
| App.Controller.RunRequest | src/App.jsx:38-79 | the try/catch/finally block logs the request followed by the response's effects and lowers `loading` on every path |
| App.Controller.Save | src/App.jsx:64-72 | the download logs creation, anchor append with the name, click, anchor removal and revocation, in that order |
| App.KeepsValid | src/App.jsx:64-72 | appending one submission's trace to a log that is clean keeps it clean: no misuse, nothing live |
| App.BuildForm | src/App.jsx:40-45 | appending the fields one by one builds exactly `FormFields`, the five fields in order |
| App.Await | src/App.jsx:47-63 | the awaited part of the try block classifies the outcome as payload or thrown message exactly as `Classify` does |
| App.RemoveTwice | src/App.jsx:90-92 | two removals in a row leave the controller as one removal does: file empty, `loading` and the log unchanged and still clean |

## Left out

- `fetch`, `FormData`, `Blob`, `URL.createObjectURL`/`revokeObjectURL` and the DOM anchor are foreign browser calls. They appear only as events in the log. Their behaviour is the outcome parameter, and the minted URL is a parameter too.
- `createObjectURL`, `appendChild`, `click` and `revokeObjectURL` are assumed not to throw. A throw there would also reach the catch block, and the model does not follow that path.
- Concurrency and re-entrancy around the `await` are not modelled. The page only disables the button while `loading` (src/App.jsx:187). One submission is modelled as one atomic step with its outcome supplied.
- App.Controller.HandleFinish: the `loading` value seen while the request is outstanding is not stated in a contract. The method raises it before the request and lowers it after; only the final value is promised.
- React's state updates are asynchronous and batched. They are modelled as immediate assignments. `handleFinish` also reads `file` from the render it was created in, and this is the same value here.
- The rendering, layout, typography and styles (src/App.jsx:97-200) are not modelled.
- The numeric bounds of the input widgets (src/App.jsx:161, 169) and the form's `required` rule (src/App.jsx:145-147) are not modelled. The UI library enforces them, and the handler re-checks the header text itself.
- Regular expressions in general are not modelled. The `/\.pdf$/i` of line 68 is modelled as an ASCII case-insensitive check of the last four characters.
- Submission.ServiceErrorMessage: only a string-valued JSON `error` is modelled. A truthy non-string value, such as a number or an object, would be turned into text by `new Error` and shown as that text. That path is not modelled.
- How `FormData` turns a number, `null` or a boolean into text is not modelled. The fields carry the typed values.
- The endpoint URL and the HTTP method are fixed constants of the request and are not part of the logged request. The Turkish UI copy is kept as constants only for the toast texts that properties compare.
- `FileRec.size` and `id` only identify the chosen file. No property uses them.
