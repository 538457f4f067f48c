/**
 * The upload card: a `dragActive` highlight flag and the rules deciding
 * which file, if any, is handed to the tester's `onFileSelect` callback.
 */
module FileUpload {
  import opened Wrappers

  /** A browser `File`, reduced to its name. */
  datatype File = File(name: string)

  /** What the card does with `onFileSelect`: no call, or a call with a file or with null. */
  datatype Forward = NoCall | Select(file: Option<File>)

  /** `name.endsWith(suffix)`. */
  predicate EndsWith(name: string, suffix: string) {
    |suffix| <= |name| && name[|name| - |suffix|..] == suffix
  }

  /** The suffix test agrees with its meaning: some prefix followed by the suffix. */
  lemma EndsWithMeansSplit(name: string, suffix: string)
    ensures EndsWith(name, suffix) <==> exists prefix: string :: prefix + suffix == name
  {
    if EndsWith(name, suffix) {
      var prefix := name[..|name| - |suffix|];
      assert prefix + suffix == name;
    }
    if exists prefix: string :: prefix + suffix == name {
      var prefix: string :| prefix + suffix == name;
      assert name[|name| - |suffix|..] == suffix;
    }
  }

  const RivExtension: string := ".riv"

  /** `handleDrag`: the highlight flag after a drag event of the given type. */
  function HandleDrag(dragActive: bool, eventType: string): (r: bool)
    ensures eventType == "dragenter" || eventType == "dragover" ==> r
    ensures eventType == "dragleave" ==> !r
    ensures eventType != "dragenter" && eventType != "dragover" && eventType != "dragleave" ==> r == dragActive
  {
    if eventType == "dragenter" || eventType == "dragover" then true
    else if eventType == "dragleave" then false
    else dragActive
  }

  /** The event types that set or clear the highlight; every other type leaves it. */
  predicate Decisive(eventType: string) {
    eventType == "dragenter" || eventType == "dragover" || eventType == "dragleave"
  }

  /** The highlight flag after a sequence of drag events, starting from `dragActive`. */
  function DragFold(dragActive: bool, eventTypes: seq<string>): bool
    decreases |eventTypes|
  {
    if |eventTypes| == 0 then dragActive
    else DragFold(HandleDrag(dragActive, eventTypes[0]), eventTypes[1..])
  }

  /** With no dragenter, dragover or dragleave in the sequence, the flag stays where it started. */
  lemma {:induction false} DragFoldUndecided(dragActive: bool, eventTypes: seq<string>)
    requires forall k :: 0 <= k < |eventTypes| ==> !Decisive(eventTypes[k])
    ensures DragFold(dragActive, eventTypes) == dragActive
    decreases |eventTypes|
  {
    if |eventTypes| > 0 {
      var rest := eventTypes[1..];
      assert !Decisive(eventTypes[0]);
      assert forall j :: 0 <= j < |rest| ==> rest[j] == eventTypes[j + 1];
      DragFoldUndecided(dragActive, rest);
    }
  }

  /**
   * After any sequence of drag events the last dragenter, dragover or
   * dragleave (the one at `k`) decides the flag: on for the first two, off
   * for dragleave, whatever came before it.
   */
  lemma {:induction false} DragFoldLastDecides(dragActive: bool, eventTypes: seq<string>, k: nat)
    requires k < |eventTypes| && Decisive(eventTypes[k])
    requires forall j :: k < j < |eventTypes| ==> !Decisive(eventTypes[j])
    ensures DragFold(dragActive, eventTypes) == (eventTypes[k] != "dragleave")
    decreases |eventTypes|
  {
    var first := HandleDrag(dragActive, eventTypes[0]);
    var rest := eventTypes[1..];
    assert forall j :: 0 <= j < |rest| ==> rest[j] == eventTypes[j + 1];
    if k == 0 {
      DragFoldUndecided(first, rest);
    } else {
      DragFoldLastDecides(first, rest, k - 1);
    }
  }

  /** The card's state and callback after a drop. */
  datatype DropResult = DropResult(dragActive: bool, forward: Forward)

  /** `handleDrop`: only the first dropped file is looked at, and only a `.riv` name is forwarded. */
  function HandleDrop(files: seq<File>): (r: DropResult)
    ensures !r.dragActive
    ensures r.forward.Select? <==> |files| > 0 && EndsWith(files[0].name, RivExtension)
    ensures r.forward.Select? ==> r.forward.file == Some(files[0])
  {
    var forward :=
      if |files| > 0 && EndsWith(files[0].name, RivExtension) then Select(Some(files[0]))
      else NoCall;
    DropResult(false, forward)
  }

  /** Files after the first one never change what a drop does. */
  lemma DropLooksOnlyAtFirst(files1: seq<File>, files2: seq<File>)
    requires |files1| > 0 && |files2| > 0 && files1[0] == files2[0]
    ensures HandleDrop(files1) == HandleDrop(files2)
  {
  }

  /** `handleFileInput`: the picker forwards its first file with no extension check; `files` may be null. */
  function HandleFileInput(files: Option<seq<File>>): (r: Forward)
    ensures r.Select? <==> files.Some? && |files.value| > 0
    ensures r.Select? ==> r.file == Some(files.value[0])
  {
    match files
    case Some(fs) => if |fs| > 0 then Select(Some(fs[0])) else NoCall
    case None => NoCall
  }

  /** Whatever the drop zone forwards, the picker forwards too when given the same files. */
  lemma PickerAcceptsWhatDropAccepts(files: seq<File>)
    ensures HandleDrop(files).forward.Select? ==> HandleFileInput(Some(files)) == HandleDrop(files).forward
  {
  }

  /** The picker accepts a file the drop zone turns away. */
  lemma PickerSkipsExtensionCheck()
    ensures HandleDrop([File("notes.txt")]).forward == NoCall
    ensures HandleFileInput(Some([File("notes.txt")])) == Select(Some(File("notes.txt")))
  {
    assert "notes.txt"[5..] != RivExtension by {
      assert "notes.txt"[5..][1] == 't' && RivExtension[1] == 'r';
    }
  }

  /** `removeFile`: the callback is called with null. */
  function RemoveFile(): (r: Forward)
    ensures r.Select? && r.file.None?
  {
    Select(None)
  }
}
