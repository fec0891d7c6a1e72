/** The multi-file dropzone: the list of files it shows (owned by its parent
    and handed back through `onChange`), the cap on how many files may be
    added, the rule that disables the zone, removal of an entry, the controls
    shown per entry, and the message chosen for a rejected drop. */
module Dropzone {
  import opened Common

  /** A browser `File`: its name and size in bytes. */
  datatype FileInfo = FileInfo(name: string, size: nat)

  /** Upload progress in whole percent. */
  type Percentage = n: int | 0 <= n <= 100

  /** `"PENDING" | "COMPLETE" | "ERROR" | number`. */
  datatype Progress = Pending | Complete | Error | Percent(value: Percentage)

  /** One listed file; `abortable` says whether an abort controller is attached. */
  datatype FileState = FileState(file: FileInfo, key: string, progress: Progress, abortable: bool)

  // ---------------------------------------------------------------------
  // Adding files
  // ---------------------------------------------------------------------

  /** `dropzoneOptions?.maxFiles` is truthy: given and not zero. */
  predicate CapApplies(maxFiles: Option<nat>) {
    maxFiles.Some? && maxFiles.value != 0
  }

  /** The drop of `dropped` files onto a list of `existing` ones is refused. */
  predicate ExceedsCap(maxFiles: Option<nat>, existing: nat, dropped: nat) {
    CapApplies(maxFiles) && existing + dropped > maxFiles.value
  }

  /** `ERROR_MESSAGES.tooManyFiles(maxFiles)`. */
  function TooManyFilesText(maxFiles: nat): (t: string)
    // the cap can be read back from the middle of the text
    ensures |t| == 26 + |Decimal(maxFiles)| && t[17..|t| - 9] == Decimal(maxFiles)
    ensures t[..17] == "You can only add " && t[|t| - 9..] == " file(s)."
  {
    "You can only add " + Decimal(maxFiles) + " file(s)."
  }

  /** The entries made for accepted files: each pending, with its random key. */
  function NewEntries(dropped: seq<FileInfo>, keys: seq<string>): (added: seq<FileState>)
    requires |keys| == |dropped|
    ensures |added| == |dropped|
    ensures forall i :: 0 <= i < |added| ==>
              added[i].file == dropped[i] && added[i].key == keys[i]
              && added[i].progress == Pending && !added[i].abortable
  {
    seq(|dropped|, i requires 0 <= i < |dropped| => FileState(dropped[i], keys[i], Pending, false))
  }

  // ---------------------------------------------------------------------
  // Disabled rule, removal, per-entry controls
  // ---------------------------------------------------------------------

  /** Whether the zone is disabled. `disabledProp` is the `disabled` prop;
      when it is not given, a cap is set and the list is not empty, the zone
      is disabled exactly when no further file could be added. */
  function ZoneDisabled(disabledProp: Option<bool>, maxFiles: Option<nat>, value: seq<FileState>): (d: bool)
    ensures disabledProp.Some? ==> d == disabledProp.value
    ensures disabledProp.None? && CapApplies(maxFiles) && |value| > 0 ==>
              (d <==> ExceedsCap(maxFiles, |value|, 1))
    ensures disabledProp.None? && !(CapApplies(maxFiles) && |value| > 0) ==> !d
  {
    if CapApplies(maxFiles) && |value| > 0 then
      (if disabledProp.Some? then disabledProp.value else |value| >= maxFiles.value)
    else
      disabledProp.GetOr(false)
  }

  /** `value.filter((_, index) => index !== i)`. */
  function RemoveAt(value: seq<FileState>, i: nat): (r: seq<FileState>)
    ensures i < |value| ==> |r| == |value| - 1
    ensures i < |value| ==> forall j :: 0 <= j < i ==> r[j] == value[j]
    ensures i < |value| ==> forall j :: i <= j < |r| ==> r[j] == value[j + 1]
    ensures i >= |value| ==> r == value
  {
    if value == [] then []
    else if i == 0 then value[1..]
    else [value[0]] + RemoveAt(value[1..], i - 1)
  }

  /** Removal preserves everything but entry `i`, in order. */
  lemma RemoveAtIsSplice(value: seq<FileState>, i: nat)
    requires i < |value|
    ensures RemoveAt(value, i) == value[..i] + value[i + 1..]
  {
  }

  /** What is shown at the right of an entry. */
  datatype EntryControl =
    | RemoveButton
    | ErrorIcon
    | AbortButton(enabled: bool)
    | PercentOnly
    | CompleteIcon

  /** The control an entry gets: removal only while pending, an abort button
      (disabled at 100%) while uploading with a controller. */
  function Control(fs: FileState): (c: EntryControl)
    ensures c == RemoveButton <==> fs.progress == Pending
    ensures c == ErrorIcon <==> fs.progress == Error
    ensures c == CompleteIcon <==> fs.progress == Complete
    ensures c.AbortButton? <==> fs.progress.Percent? && fs.abortable
    ensures c.AbortButton? ==> (c.enabled <==> fs.progress.value != 100)
  {
    match fs.progress
    case Pending => RemoveButton
    case Error => ErrorIcon
    case Complete => CompleteIcon
    case Percent(p) => if fs.abortable then AbortButton(p != 100) else PercentOnly
  }

  // ---------------------------------------------------------------------
  // Rejections
  // ---------------------------------------------------------------------

  datatype FileError = FileError(code: string, message: string)
  datatype Rejection = Rejection(file: FileInfo, errors: seq<FileError>)

  const FileTooLargeCode: string := "file-too-large"
  const FileInvalidTypeCode: string := "file-invalid-type"
  const TooManyFilesCode: string := "too-many-files"

  /** Which `ERROR_MESSAGES` entry is shown, with its argument. */
  datatype DropMessage = FileTooLarge(maxSize: nat) | FileInvalidType | TooManyFiles(maxFiles: nat) | FileNotSupported

  /** `errors[0]?.code` of the first rejection. */
  function FirstCode(rejections: seq<Rejection>): Option<string>
    requires rejections != []
  {
    if rejections[0].errors == [] then None else Some(rejections[0].errors[0].code)
  }

  /** The `errorMessage` memo: chosen by the first rejection's first code. */
  function ErrorMessage(rejections: seq<Rejection>, maxSize: Option<nat>, maxFiles: Option<nat>): (m: Option<DropMessage>)
    ensures m.None? <==> rejections == []
    ensures m == Some(FileTooLarge(maxSize.GetOr(0))) <==>
              rejections != [] && FirstCode(rejections) == Some(FileTooLargeCode)
    ensures m == Some(FileInvalidType) <==>
              rejections != [] && FirstCode(rejections) == Some(FileInvalidTypeCode)
    ensures m == Some(TooManyFiles(maxFiles.GetOr(0))) <==>
              rejections != [] && FirstCode(rejections) == Some(TooManyFilesCode)
    ensures m == Some(FileNotSupported) <==>
              rejections != [] && FirstCode(rejections) !in {Some(FileTooLargeCode), Some(FileInvalidTypeCode), Some(TooManyFilesCode)}
  {
    if rejections == [] then None
    else
      var code := FirstCode(rejections);
      if code == Some(FileTooLargeCode) then Some(FileTooLarge(maxSize.GetOr(0)))
      else if code == Some(FileInvalidTypeCode) then Some(FileInvalidType)
      else if code == Some(TooManyFilesCode) then Some(TooManyFiles(maxFiles.GetOr(0)))
      else Some(FileNotSupported)
  }

  /** Two caps are announced by the same text only if they are equal. */
  lemma TooManyFilesTextInjective(a: nat, b: nat)
    requires TooManyFilesText(a) == TooManyFilesText(b)
    ensures a == b
  {
    var p := "You can only add ";
    var q := " file(s).";
    var ta, tb := TooManyFilesText(a), TooManyFilesText(b);
    assert ta[|p|..|ta| - |q|] == Decimal(a);
    assert tb[|p|..|tb| - |q|] == Decimal(b);
    DecimalInjective(a, b);
  }

  /** The text of a message (`ERROR_MESSAGES`); `formatSize` is the foreign
      `formatFileSize`. */
  function MessageText(m: DropMessage, formatSize: nat -> string): (t: string)
    ensures |t| > 0
    // the library's too-many-files rejection reads like the zone's own cap error
    ensures m.TooManyFiles? ==> t == TooManyFilesText(m.maxFiles)
  {
    match m
    case FileTooLarge(maxSize) => "The file is too large. Max size is " + formatSize(maxSize) + "."
    case FileInvalidType => "Invalid file type."
    case TooManyFiles(maxFiles) => TooManyFilesText(maxFiles)
    case FileNotSupported => "The file is not supported."
  }

  /** The text shows which rejection it reports: the kind of message, the
      cap, and the formatted size limit are all recovered from it. */
  lemma MessageTextIdentifies(m1: DropMessage, m2: DropMessage, formatSize: nat -> string)
    requires MessageText(m1, formatSize) == MessageText(m2, formatSize)
    ensures m1.FileTooLarge? <==> m2.FileTooLarge?
    ensures m1.FileTooLarge? ==> formatSize(m1.maxSize) == formatSize(m2.maxSize)
    ensures !m1.FileTooLarge? ==> m1 == m2
  {
    var t := MessageText(m1, formatSize);
    var large := "The file is too large. Max size is ";
    if m1.FileTooLarge? && m2.FileTooLarge? {
      assert t[|large|..|t| - 1] == formatSize(m1.maxSize);
      assert t[|large|..|t| - 1] == formatSize(m2.maxSize);
    } else if m1.TooManyFiles? && m2.TooManyFiles? {
      TooManyFilesTextInjective(m1.maxFiles, m2.maxFiles);
    } else {
      // texts of different kinds differ at their first or thirteenth symbol
      assert MessageText(m1, formatSize)[0] == MessageText(m2, formatSize)[0];
      if m1.FileTooLarge? || m1.FileNotSupported? {
        assert MessageText(m1, formatSize)[12] == MessageText(m2, formatSize)[12];
      }
    }
  }

  /** The alert under the zone: shown when `customError || errorMessage`,
      reading `customError ?? errorMessage`. An empty custom error hides
      nothing: `""` is not nullish, so it is what the alert shows. */
  function AlertText(customError: Option<string>, message: Option<DropMessage>, formatSize: nat -> string): (r: Option<string>)
    ensures r.None? <==> (customError.None? || customError.value == "") && message.None?
    ensures customError.Some? && r.Some? ==> r.value == customError.value
    ensures customError.None? && message.Some? ==> r == Some(MessageText(message.value, formatSize))
  {
    if customError.Some? && customError.value != "" then customError
    else if message.None? then None
    else if customError.Some? then customError
    else Some(MessageText(message.value, formatSize))
  }

  // ---------------------------------------------------------------------
  // The component's own state
  // ---------------------------------------------------------------------

  /** The dropzone keeps one piece of state, its custom error. */
  class Zone {
    var customError: Option<string>

    constructor ()
      ensures customError == None
    {
      customError := None;
    }

    /** `onDrop` with the current `value`. `keys` are the random keys given
        to the new entries. Returns the list handed to `onFilesAdded` and
        the list handed to `onChange`, or None for both when the drop is
        refused. */
    method OnDrop(value: seq<FileState>, maxFiles: Option<nat>, dropped: seq<FileInfo>, keys: seq<string>)
      returns (added: Option<seq<FileState>>, changed: Option<seq<FileState>>)
      requires |keys| == |dropped|
      modifies this
      ensures ExceedsCap(maxFiles, |value|, |dropped|) ==>
                customError == Some(TooManyFilesText(maxFiles.value)) && added.None? && changed.None?
      ensures !ExceedsCap(maxFiles, |value|, |dropped|) ==>
                && customError == None
                && added == Some(NewEntries(dropped, keys))
                && changed == Some(value + NewEntries(dropped, keys))
    {
      customError := None;
      if CapApplies(maxFiles) && |value| + |dropped| > maxFiles.value {
        customError := Some(TooManyFilesText(maxFiles.value));
        return None, None;
      }
      var addedFiles := NewEntries(dropped, keys);
      added := Some(addedFiles);
      changed := Some(value + addedFiles);
    }
  }
}
