/** The ingest form: JavaScript's `trim`, the submit validation with its
    fixed check order, the image-selection checks and the submit button's
    enabled state. Each handler is a function from the form's state (and
    the user's input) to the new state. */
module IngestValidation {
  import opened Wrappers
  import opened Decimal

  const TranscriptMinLength: nat := 100
  const TranscriptMaxLength: nat := 200000
  const SupportedImageTypes: seq<string> := ["image/jpeg", "image/png", "image/webp"]
  const MaxImageSizeMb: nat := 5

  /** A selected file: its MIME type and its size in bytes. */
  datatype ImageFile = ImageFile(mimeType: string, size: nat)

  /** What the form hands to the analysis step. */
  datatype IngestData = IngestData(
    title: string,
    transcript: string,
    imageFile: Option<ImageFile>,
    imageDataUrl: Option<string>,
    skipToVoice: bool)

  /** The form's own state; the empty `error` string means no error shown. */
  datatype Form = Form(
    title: string,
    transcript: string,
    imageFile: Option<ImageFile>,
    imageDataUrl: Option<string>,
    error: string,
    skipToVoice: bool)

  /** ECMAScript WhiteSpace and LineTerminator code units (one UTF-16 unit
      each), the characters `String.prototype.trim` removes. */
  predicate IsJsSpace(c: char)
  {
    c == '\U{9}' || c == '\U{B}' || c == '\U{C}' || c == ' ' || c == '\U{A0}' || c == '\U{FEFF}'
    || c == '\U{1680}' || ('\U{2000}' <= c <= '\U{200A}') || c == '\U{202F}' || c == '\U{205F}' || c == '\U{3000}'
    || c == '\n' || c == '\r' || c == '\U{2028}' || c == '\U{2029}'
  }

  /** The first index at or after `i` that does not hold white space. */
  function SkipSpace(s: string, i: nat): (j: nat)
    requires i <= |s|
    ensures i <= j <= |s|
    ensures forall k :: i <= k < j ==> IsJsSpace(s[k])
    ensures j < |s| ==> !IsJsSpace(s[j])
    decreases |s| - i
  {
    if i < |s| && IsJsSpace(s[i]) then SkipSpace(s, i + 1) else i
  }

  /** The end of `s[lo..hi]` once trailing white space is dropped. */
  function SkipSpaceBack(s: string, lo: nat, hi: nat): (e: nat)
    requires lo <= hi <= |s|
    ensures lo <= e <= hi
    ensures forall k :: e <= k < hi ==> IsJsSpace(s[k])
    ensures e > lo ==> !IsJsSpace(s[e - 1])
    decreases hi
  {
    if lo < hi && IsJsSpace(s[hi - 1]) then SkipSpaceBack(s, lo, hi - 1) else hi
  }

  /** Where the trimmed text starts and ends in `s`. */
  function TrimStartIndex(s: string): (i: nat)
    ensures i <= |s|
  {
    SkipSpace(s, 0)
  }

  function TrimEndIndex(s: string): (e: nat)
    ensures TrimStartIndex(s) <= e <= |s|
  {
    SkipSpaceBack(s, TrimStartIndex(s), |s|)
  }

  /** `s.trim()`: white space removed from the start, then from the end. */
  function Trim(s: string): (r: string)
  {
    s[TrimStartIndex(s)..TrimEndIndex(s)]
  }

  /** The trimmed text is a slice of the input that neither starts nor ends
      with white space, and everything cut off around it is white space. */
  lemma TrimIsSlice(s: string)
    ensures var r, i := Trim(s), TrimStartIndex(s);
      && i + |r| <= |s|
      && s[i..i + |r|] == r
      && (forall k :: 0 <= k < i ==> IsJsSpace(s[k]))
      && (forall k :: i + |r| <= k < |s| ==> IsJsSpace(s[k]))
      && (r == [] || (!IsJsSpace(r[0]) && !IsJsSpace(r[|r| - 1])))
  {
    var i, e := TrimStartIndex(s), TrimEndIndex(s);
    if i < e {
      assert Trim(s)[0] == s[i];
      assert Trim(s)[e - i - 1] == s[e - 1];
    } else {
      assert Trim(s) == [];
    }
  }

  /** Trimming is empty exactly when the text is all white space. */
  lemma TrimEmpty(s: string)
    ensures (Trim(s) == []) == (forall k :: 0 <= k < |s| ==> IsJsSpace(s[k]))
  {
    TrimIsSlice(s);
  }

  /** Trimming twice is trimming once. */
  lemma TrimIdempotent(s: string)
    ensures Trim(Trim(s)) == Trim(s)
  {
    var r := Trim(s);
    TrimIsSlice(s);
    if r != [] {
      assert TrimStartIndex(r) == 0;
      assert TrimEndIndex(r) == |r|;
    } else {
      assert TrimEndIndex(r) == 0;
    }
  }

  /** Which check of the submit handler failed. */
  datatype SubmitError = MissingTitle | TooShort | TooLong

  /** The error text of each failure, per mode: voice-only (`skipToVoice`)
      or competitor analysis. */
  function SubmitErrorMessage(e: SubmitError, skipToVoice: bool): (msg: string)
    ensures msg != []
  {
    match e
    case MissingTitle =>
      if skipToVoice then "Please enter a title for your story." else "Please enter the competitor's title."
    case TooShort =>
      (if skipToVoice then "Story text is too short." else "Transcript is too short.")
      + " Minimum length is " + NatToString(TranscriptMinLength) + " characters."
    case TooLong =>
      (if skipToVoice then "Story text is too long." else "Transcript is too long.")
      + " Maximum length is " + NatToString(TranscriptMaxLength) + " characters."
  }

  /** The checks in their fixed order: title, then too short, then too long.
      The transcript's length is its raw length, not trimmed. */
  function CheckSubmission(title: string, transcript: string): (r: Option<SubmitError>)
    ensures r.None? <==> Trim(title) != [] && TranscriptMinLength <= |transcript| <= TranscriptMaxLength
    ensures r == Some(MissingTitle) <==> Trim(title) == []
    ensures r == Some(TooShort) <==> Trim(title) != [] && |transcript| < TranscriptMinLength
    ensures r == Some(TooLong) <==> Trim(title) != [] && TranscriptMinLength <= |transcript| && |transcript| > TranscriptMaxLength
  {
    if Trim(title) == [] then Some(MissingTitle)
    else if |transcript| < TranscriptMinLength then Some(TooShort)
    else if |transcript| > TranscriptMaxLength then Some(TooLong)
    else None
  }

  /** `handleSubmit`: the new form state, and the data passed on to the
      analysis step. Submitting either reports the first failing check's
      message and passes nothing on, or leaves the form alone and passes on
      the trimmed title with the transcript, image and mode unchanged. Whether
      it is accepted does not depend on the mode, only the message does. */
  function Submit(form: Form): (r: (Form, Option<IngestData>))
    ensures var (after, sent) := r;
      && (sent.Some? <==> CheckSubmission(form.title, form.transcript).None?)
      && (sent.None? ==> after == form.(error := SubmitErrorMessage(CheckSubmission(form.title, form.transcript).value, form.skipToVoice)))
      && (sent.Some? ==> after == form && sent.value == IngestData(Trim(form.title), form.transcript, form.imageFile, form.imageDataUrl, form.skipToVoice))
  {
    match CheckSubmission(form.title, form.transcript)
    case Some(e) => (form.(error := SubmitErrorMessage(e, form.skipToVoice)), None)
    case None =>
      (form, Some(IngestData(Trim(form.title), form.transcript, form.imageFile, form.imageDataUrl, form.skipToVoice)))
  }

  /** `SUPPORTED_IMAGE_TYPES.join(', ')` */
  function JoinComma(items: seq<string>): (r: string)
    ensures items == [] ==> r == []
  {
    if items == [] then [] else if |items| == 1 then items[0] else items[0] + ", " + JoinComma(items[1..])
  }

  function UnsupportedImageMessage(): (msg: string)
  {
    "Unsupported image type. Please use " + JoinComma(SupportedImageTypes) + "."
  }

  function ImageTooLargeMessage(): (msg: string)
  {
    "Image is too large. Maximum size is " + NatToString(MaxImageSizeMb) + "MB."
  }

  /** `handleImageChange`: no file changes nothing. Otherwise the image is
      taken exactly when its type is supported and it is at most 5 * 1024 *
      1024 bytes, storing the file and its object URL (`URL.createObjectURL`
      is outside the model, so its result is the `objectUrl` parameter) and
      clearing the error. A refused image only sets the error, reporting the
      type before the size, and leaves the stored image and its URL as they
      were. */
  function ChangeImage(form: Form, file: Option<ImageFile>, objectUrl: string): (r: Form)
    ensures file.None? ==> r == form
    ensures file.Some? ==>
      var accepted := file.value.mimeType in SupportedImageTypes && file.value.size <= 5242880;
      && (accepted ==> r == form.(imageFile := file, imageDataUrl := Some(objectUrl), error := ""))
      && (!accepted ==> r == form.(error := r.error) && r.error != "")
      && (file.value.mimeType !in SupportedImageTypes ==> r.error == UnsupportedImageMessage())
      && (file.value.mimeType in SupportedImageTypes && !accepted ==> r.error == ImageTooLargeMessage())
  {
    if file.None? then form
    else if file.value.mimeType !in SupportedImageTypes then form.(error := UnsupportedImageMessage())
    else if file.value.size > MaxImageSizeMb * 1024 * 1024 then form.(error := ImageTooLargeMessage())
    else form.(imageFile := file, imageDataUrl := Some(objectUrl), error := "")
  }

  /** `isSubmitDisabled`: loading, an empty trimmed title, or a trimmed
      transcript length outside [100, 200000]. */
  function SubmitDisabled(isLoading: bool, title: string, transcript: string): (disabled: bool)
  {
    var n := |Trim(transcript)|;
    isLoading || Trim(title) == [] || n < TranscriptMinLength || n > TranscriptMaxLength
  }

  /** An enabled button means the title and minimum-length checks pass: the
      raw transcript is at least as long as the trimmed one. */
  lemma EnabledPassesFirstChecks(isLoading: bool, title: string, transcript: string)
    requires !SubmitDisabled(isLoading, title, transcript)
    ensures CheckSubmission(title, transcript) in {None, Some(TooLong)}
    ensures Trim(transcript) == transcript ==> CheckSubmission(title, transcript).None?
  {
    TrimIsSlice(transcript);
  }

  /** The button tests the trimmed length, the handler the raw one: a
      transcript of 200000 letters behind one leading space enables the
      button and is then refused as too long. */
  lemma EnabledYetTooLong(body: string)
    requires |body| == TranscriptMaxLength
    requires !IsJsSpace(body[0]) && !IsJsSpace(body[|body| - 1])
    ensures !SubmitDisabled(false, "t", " " + body)
    ensures CheckSubmission("t", " " + body) == Some(TooLong)
  {
    var s := " " + body;
    assert SkipSpace(s, 1) == 1;
    assert TrimStartIndex(s) == 1;
    assert TrimEndIndex(s) == |s|;
    assert Trim(s) == body;
    assert TrimStartIndex("t") == 0;
    assert TrimEndIndex("t") == 1;
  }
}
