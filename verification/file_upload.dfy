/**
 * The file picker (src/components/common/FileUpload.tsx): a dropped or
 * chosen file is checked against a size limit and against the `accept` list
 * (file extensions such as ".png", and MIME patterns such as "image/png" or a wildcard pattern); an
 * accepted file becomes the selected file and is handed to `onFileSelect`, a
 * refused one only sets the error shown.
 *
 * Matching a MIME pattern is a regular-expression search in the component;
 * here it is the parameter `mimeMatch`, about which nothing is assumed.
 */
module FileUpload {
  import opened Wrappers
  import opened Strings

  /** The parts of a browser `File` the component reads. */
  datatype File = File(name: string, size: nat, mimeType: string)

  /** A MIME test: does the file's type match the pattern (an entry of `accept`)? */
  type MimeMatch = (string, string) -> bool

  /**
   * `Math.round(maxSize / 1024 / 1024)`: dividing by powers of two is exact,
   * and rounding half up a non-negative quotient is adding half the divisor
   * before dividing.
   */
  function SizeInMB(maxSize: nat): (mb: nat)
    ensures mb * 1048576 <= maxSize + 524288 < (mb + 1) * 1048576
  {
    (maxSize + 524288) / 1048576
  }

  function SizeError(maxSize: nat): string {
    "File size must be less than " + NatToDecimal(SizeInMB(maxSize)) + "MB"
  }

  function TypeError(accept: string): string {
    "File type not supported. Accepted types: " + accept
  }

  /** `accept.split(',').map(type => type.trim())`. */
  function AcceptedTypes(accept: string): (types: seq<string>)
    ensures |types| == |Split(accept, ',')| >= 1
    ensures forall k :: 0 <= k < |types| ==> types[k] == Trim(Split(accept, ',')[k])
    ensures forall k :: 0 <= k < |types| ==> ',' !in types[k]
  {
    var parts := Split(accept, ',');
    forall k | 0 <= k < |parts|
      ensures ',' !in Trim(parts[k])
    {
      assert parts[k] in parts;
      TrimKeepsOut(parts[k], ',');
    }
    seq(|parts|, k requires 0 <= k < |parts| => Trim(parts[k]))
  }

  /** Trimming only removes characters: one absent before is absent after. */
  lemma TrimKeepsOut(s: string, c: char)
    requires c !in s
    ensures c !in Trim(s)
  {
    var i, j :| 0 <= i <= j <= |s| && Trim(s) == s[i..j];
    assert forall k :: 0 <= k < j - i ==> s[i..j][k] == s[i + k];
  }

  /** An entry starting with "." matches by extension, ignoring case; any other by the MIME test. */
  predicate EntryMatches(entry: string, file: File, mimeMatch: MimeMatch) {
    if StartsWith(entry, ".") then EndsWith(ToLower(file.name), ToLower(entry))
    else mimeMatch(file.mimeType, entry)
  }

  /** `acceptedTypes.some(...)`. */
  predicate TypeAccepted(accept: string, file: File, mimeMatch: MimeMatch) {
    var types := AcceptedTypes(accept);
    exists k :: 0 <= k < |types| && EntryMatches(types[k], file, mimeMatch)
  }

  /**
   * `validateFile`: the size is checked first, and a file exactly at the
   * limit passes it; then the type.  No error means the file is accepted.
   */
  function ValidateFile(file: File, accept: string, maxSize: nat, mimeMatch: MimeMatch): (err: Option<string>)
    ensures err.None? <==> file.size <= maxSize && TypeAccepted(accept, file, mimeMatch)
    ensures file.size > maxSize ==> err == Some(SizeError(maxSize))
    ensures file.size <= maxSize && !TypeAccepted(accept, file, mimeMatch) ==> err == Some(TypeError(accept))
  {
    if file.size > maxSize then Some(SizeError(maxSize))
    else if !TypeAccepted(accept, file, mimeMatch) then Some(TypeError(accept))
    else None
  }

  /** A lower-case string is its own lower case. */
  lemma ToLowerIdempotent(s: string)
    ensures ToLower(ToLower(s)) == ToLower(s)
  {
  }

  /**
   * Extension entries ignore case on both sides: a file whose name ends with
   * the entry in any mixture of cases is accepted when its size fits, whatever
   * the MIME test says.
   */
  lemma ExtensionEntryAccepts(file: File, accept: string, maxSize: nat, mimeMatch: MimeMatch, k: nat)
    requires k < |AcceptedTypes(accept)|
    requires var entry := AcceptedTypes(accept)[k];
      StartsWith(entry, ".") && EndsWith(ToLower(file.name), ToLower(entry))
    requires file.size <= maxSize
    ensures ValidateFile(file, accept, maxSize, mimeMatch).None?
  {
    assert EntryMatches(AcceptedTypes(accept)[k], file, mimeMatch);
  }

  /** The size message names the limit rounded to whole megabytes, halves rounding up. */
  lemma SizeMessageExamples()
    ensures SizeInMB(5 * 1048576) == 5
    ensures SizeInMB(1572864) == 2
    ensures SizeInMB(524287) == 0
    ensures SizeError(5 * 1048576) == "File size must be less than 5MB"
  {
  }

  /** Accepted entries are trimmed: spaces around the commas of `accept` do not matter. */
  lemma AcceptListTrimmed(accept: string)
    ensures forall k :: 0 <= k < |AcceptedTypes(accept)| ==>
      var t := AcceptedTypes(accept)[k];
      t == "" || (!IsWhitespace(t[0]) && !IsWhitespace(t[|t| - 1]))
  {
  }

  datatype DragKind = DragEnter | DragOver | DragLeave | OtherDrag

  class FileUpload {
    const accept: string
    const maxSize: nat
    const disabled: bool
    const mimeMatch: MimeMatch
    var dragActive: bool
    var selectedFile: Option<File>
    var previewUrl: Option<string>
    var error: Option<string>
    /** The arguments `onFileSelect` was called with, in order (`None` is `null`). */
    var notified: seq<Option<File>>

    constructor(accept: string, maxSize: nat, disabled: bool, mimeMatch: MimeMatch)
      ensures this.accept == accept && this.maxSize == maxSize && this.disabled == disabled
      ensures this.mimeMatch == mimeMatch
      ensures !dragActive && selectedFile.None? && previewUrl.None? && error.None? && notified == []
    {
      this.accept := accept;
      this.maxSize := maxSize;
      this.disabled := disabled;
      this.mimeMatch := mimeMatch;
      dragActive := false;
      selectedFile := None;
      previewUrl := None;
      error := None;
      notified := [];
    }

    /**
     * `handleFile`: a refused file only sets the error, and the file selected
     * before stays selected; an accepted one clears the error, becomes the
     * selected file and is handed to `onFileSelect`.
     */
    method HandleFile(file: File)
      modifies this
      ensures var err := ValidateFile(file, accept, maxSize, mimeMatch);
        && (err.Some? ==> error == err && selectedFile == old(selectedFile) && notified == old(notified))
        && (err.None? ==> error.None? && selectedFile == Some(file) && notified == old(notified) + [Some(file)])
      ensures dragActive == old(dragActive) && previewUrl == old(previewUrl)
    {
      var validationError := ValidateFile(file, accept, maxSize, mimeMatch);
      if validationError.Some? {
        error := validationError;
        return;
      }
      error := None;
      selectedFile := Some(file);
      notified := notified + [Some(file)];
    }

    /** `handleDrag`: entering or moving over the area highlights it, leaving clears it. */
    method HandleDrag(kind: DragKind)
      modifies this
      ensures kind == DragEnter || kind == DragOver ==> dragActive
      ensures kind == DragLeave ==> !dragActive
      ensures kind == OtherDrag ==> dragActive == old(dragActive)
      ensures selectedFile == old(selectedFile) && previewUrl == old(previewUrl)
      ensures error == old(error) && notified == old(notified)
    {
      if kind == DragEnter || kind == DragOver {
        dragActive := true;
      } else if kind == DragLeave {
        dragActive := false;
      }
    }

    /** `handleDrop`: the highlight goes; unless disabled, the first dropped file (if any) is handled. */
    method HandleDrop(files: seq<File>)
      modifies this
      ensures !dragActive
      ensures disabled || files == [] ==>
        selectedFile == old(selectedFile) && error == old(error) && notified == old(notified)
      ensures !disabled && files != [] ==> var err := ValidateFile(files[0], accept, maxSize, mimeMatch);
        && (err.Some? ==> error == err && selectedFile == old(selectedFile) && notified == old(notified))
        && (err.None? ==> error.None? && selectedFile == Some(files[0]) && notified == old(notified) + [Some(files[0])])
      ensures previewUrl == old(previewUrl)
    {
      dragActive := false;
      if disabled {
        return;
      }
      if |files| > 0 {
        HandleFile(files[0]);
      }
    }

    /** `handleFileInputChange`: the first chosen file, if any, is handled. */
    method HandleFileInputChange(files: seq<File>)
      modifies this
      ensures files == [] ==>
        selectedFile == old(selectedFile) && error == old(error) && notified == old(notified)
      ensures files != [] ==> var err := ValidateFile(files[0], accept, maxSize, mimeMatch);
        && (err.Some? ==> error == err && selectedFile == old(selectedFile) && notified == old(notified))
        && (err.None? ==> error.None? && selectedFile == Some(files[0]) && notified == old(notified) + [Some(files[0])])
      ensures dragActive == old(dragActive) && previewUrl == old(previewUrl)
    {
      if |files| > 0 {
        HandleFile(files[0]);
      }
    }

    /** `clearFile`: nothing selected, no preview, no error, and `onFileSelect(null)`. */
    method ClearFile()
      modifies this
      ensures selectedFile.None? && previewUrl.None? && error.None?
      ensures notified == old(notified) + [None]
      ensures dragActive == old(dragActive)
    {
      selectedFile := None;
      previewUrl := None;
      error := None;
      notified := notified + [None];
    }
  }
}
