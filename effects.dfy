/**
 * The observable effects of the submit handler, as a log: the toast
 * notifications, the request handed to `fetch`, and the object-URL and
 * anchor operations of the download. Also the rule that object URLs must
 * obey: created fresh, used only while live, revoked exactly once.
 */
module Effects {
  import opened Wrappers
  import opened Selection

  type Bytes = seq<bv8>

  /** A value appended to the multipart form. */
  datatype FieldValue =
    | FileValue(file: FileRec)
    | TextValue(text: string)
    | NumberValue(number: Option<real>)  // None: the number input was cleared (null)
    | FlagValue(flag: bool)

  datatype FormField = FormField(name: string, value: FieldValue)

  datatype Event =
    | ErrorToast(text: string)                      // message.error
    | SuccessToast(text: string)                    // message.success
    | Request(fields: seq<FormField>)               // the POST handed to fetch
    | CreateObjectUrl(url: string, payload: Bytes)  // URL.createObjectURL(blob)
    | AppendAnchor(href: string, download: string)  // <a href download> appended to the body
    | ClickAnchor(href: string)                     // a.click()
    | RemoveAnchor(href: string)                    // a.remove()
    | RevokeObjectUrl(url: string)                  // URL.revokeObjectURL(url)

  /** Appending a log in two steps is appending the two pieces at once. */
  lemma AppendAssoc(a: seq<Event>, b: seq<Event>, c: seq<Event>)
    ensures (a + b) + c == a + (b + c)
  {
  }

  /** The groups of events the properties count. */
  datatype Kind = Toast | Fetch | UrlCreation | UrlRevocation | Anchor

  function KindOf(e: Event): Kind {
    match e
    case ErrorToast(_) => Toast
    case SuccessToast(_) => Toast
    case Request(_) => Fetch
    case CreateObjectUrl(_, _) => UrlCreation
    case RevokeObjectUrl(_) => UrlRevocation
    case _ => Anchor
  }

  /** The events of `log` of the given kind, in log order. */
  function Filter(log: seq<Event>, kind: Kind): (r: seq<Event>)
    ensures |r| <= |log|
  {
    if log == [] then []
    else (if KindOf(log[0]) == kind then [log[0]] else []) + Filter(log[1..], kind)
  }

  lemma {:induction false} FilterAppend(a: seq<Event>, b: seq<Event>, kind: Kind)
    ensures Filter(a + b, kind) == Filter(a, kind) + Filter(b, kind)
  {
    if a != [] {
      assert (a + b)[1..] == a[1..] + b;
      FilterAppend(a[1..], b, kind);
    } else {
      assert a + b == b;
    }
  }

  /** No event of `log` is of the kind. */
  lemma {:induction false} FilterNone(log: seq<Event>, kind: Kind)
    requires forall i :: 0 <= i < |log| ==> KindOf(log[i]) != kind
    ensures Filter(log, kind) == []
  {
    if log != [] {
      FilterNone(log[1..], kind);
    }
  }

  /** Only the event at `k` is of the kind. */
  lemma {:induction false} FilterOne(log: seq<Event>, k: nat, kind: Kind)
    requires k < |log| && KindOf(log[k]) == kind
    requires forall i :: 0 <= i < |log| && i != k ==> KindOf(log[i]) != kind
    ensures Filter(log, kind) == [log[k]]
  {
    if k == 0 {
      FilterNone(log[1..], kind);
    } else {
      FilterOne(log[1..], k - 1, kind);
    }
  }

  /** The object URLs live after `e`, given those live before it. */
  function Step(live: set<string>, e: Event): set<string> {
    match e
    case CreateObjectUrl(u, _) => live + {u}
    case RevokeObjectUrl(u) => live - {u}
    case _ => live
  }

  /** `e` may happen now: a created URL is fresh; appending, clicking and removing an anchor and revoking use a live one. */
  predicate Permitted(live: set<string>, e: Event) {
    match e
    case CreateObjectUrl(u, _) => u !in live
    case AppendAnchor(u, _) => u in live
    case ClickAnchor(u) => u in live
    case RemoveAnchor(u) => u in live
    case RevokeObjectUrl(u) => u in live
    case _ => true
  }

  function LiveAfter(live: set<string>, log: seq<Event>): set<string>
    decreases |log|
  {
    if log == [] then live else LiveAfter(Step(live, log[0]), log[1..])
  }

  /** Every event of `log`, replayed from `live`, is permitted when it happens. */
  predicate Disciplined(live: set<string>, log: seq<Event>)
    decreases |log|
  {
    log == [] || (Permitted(live, log[0]) && Disciplined(Step(live, log[0]), log[1..]))
  }

  /** A log is disciplined, and leaks nothing, piece by piece. */
  lemma {:induction false} DisciplineAppend(live: set<string>, a: seq<Event>, b: seq<Event>)
    ensures LiveAfter(live, a + b) == LiveAfter(LiveAfter(live, a), b)
    ensures Disciplined(live, a + b) <==> Disciplined(live, a) && Disciplined(LiveAfter(live, a), b)
    decreases |a|
  {
    if a != [] {
      assert (a + b)[1..] == a[1..] + b;
      DisciplineAppend(Step(live, a[0]), a[1..], b);
    } else {
      assert a + b == b;
    }
  }

  /** Replaying a log that starts with `e` is taking `e`'s step, then replaying the rest. */
  lemma DisciplineCons(live: set<string>, e: Event, rest: seq<Event>)
    ensures LiveAfter(live, [e] + rest) == LiveAfter(Step(live, e), rest)
    ensures Disciplined(live, [e] + rest) <==> Permitted(live, e) && Disciplined(Step(live, e), rest)
  {
    assert ([e] + rest)[1..] == rest;
  }
}
