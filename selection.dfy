/**
 * The single file slot behind the upload widget. Choosing a file replaces
 * whatever the slot held; removing empties it; the widget is shown a list of
 * at most one entry derived from the slot.
 */
module Selection {
  import opened Wrappers

  /** A `File` handed over by the picker: an opaque identity and the name and size the browser reports. */
  datatype FileRec = FileRec(id: nat, name: string, size: nat)

  /** `fileList: file ? [file] : []`: the slot shown as a list of length 0 or 1. */
  function FileList(file: Option<FileRec>): (list: seq<FileRec>)
    ensures |list| <= 1
    ensures |list| == 1 <==> file.Some?
    ensures forall f :: f in list <==> file == Some(f)
  {
    if file.Some? then [file.value] else []
  }

  /** One user action on the widget: `beforeUpload(f)` or `onRemove()`. */
  datatype Action = Choose(file: FileRec) | Remove

  /** The slot after one action; the previous contents never matter. */
  function Apply(slot: Option<FileRec>, action: Action): Option<FileRec> {
    match action
    case Choose(f) => Some(f)
    case Remove => None
  }

  /** The slot after a run of actions, starting from `slot`. */
  function Replay(slot: Option<FileRec>, actions: seq<Action>): Option<FileRec>
    decreases |actions|
  {
    if actions == [] then slot else Replay(Apply(slot, actions[0]), actions[1..])
  }

  /**
   * After any non-empty run of actions the slot holds the file of the last
   * action if that was a choice and nothing if it was a removal, so the
   * widget lists exactly one file precisely when the last action chose one.
   */
  lemma {:induction false} LastActionWins(slot: Option<FileRec>, actions: seq<Action>)
    requires actions != []
    ensures Replay(slot, actions) == Apply(None, actions[|actions| - 1])
    ensures |FileList(Replay(slot, actions))| == (if actions[|actions| - 1].Choose? then 1 else 0)
    decreases |actions|
  {
    if |actions| > 1 {
      LastActionWins(Apply(slot, actions[0]), actions[1..]);
    }
  }

  /** Removing twice leaves the slot as removing once does. */
  lemma {:induction false} RemoveIdempotent(slot: Option<FileRec>, actions: seq<Action>)
    ensures Replay(slot, actions + [Remove, Remove]) == Replay(slot, actions + [Remove])
    ensures Replay(slot, actions + [Remove]) == None
  {
    LastActionWins(slot, actions + [Remove, Remove]);
    LastActionWins(slot, actions + [Remove]);
  }
}
