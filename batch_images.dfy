/** The batch image generator: the requested-count check, the
    classification of a batch's outcome, the progress percentage, and the
    names and bytes of the files packed for download. */
module BatchImages {
  import opened Wrappers
  import opened Decimal
  import opened ByteBuffers

  const MinCount: int := 1
  const MaxCount: int := 200
  const CountOutOfRange: string := "Please enter a number between 1 and 200"

  /** One generated scene; `imageBytes` is base64 text. */
  datatype BatchImageResult = BatchImageResult(
    sceneNumber: int,
    sceneDescription: string,
    imagePrompt: string,
    imageBytes: string)

  /** The generator's state. `customNumber` is the custom field already read
      as a number, `None` when the field is empty. */
  datatype Batch = Batch(
    numberOfImages: int,
    customNumber: Option<int>,
    isGenerating: bool,
    progressCurrent: int,
    progressTotal: int,
    notification: string,
    generatedImages: seq<BatchImageResult>,
    showPreview: bool)

  /** The custom number when the field is filled in, else the preset. */
  function RequestedCount(customNumber: Option<int>, numberOfImages: int): (count: int)
    ensures customNumber.Some? ==> count == customNumber.value
    ensures customNumber.None? ==> count == numberOfImages
  {
    if customNumber.Some? then customNumber.value else numberOfImages
  }

  /** How a finished batch of `count` requested images went. */
  datatype Verdict = AllSucceeded | Partial | AllFailed

  /** `failedCount = count - successCount`, then: none failed, some
      succeeded, or none succeeded. */
  function Classify(count: int, successCount: nat): (v: Verdict)
    ensures v == AllSucceeded <==> count - successCount == 0
    ensures v == Partial <==> count - successCount != 0 && successCount > 0
    ensures v == AllFailed <==> count - successCount != 0 && successCount == 0
  {
    var failedCount := count - successCount;
    if failedCount == 0 then AllSucceeded
    else if successCount > 0 then Partial
    else AllFailed
  }

  /** The notification text of each verdict. */
  function VerdictMessage(count: int, successCount: nat): (msg: string)
  {
    match Classify(count, successCount)
    case AllSucceeded => "Successfully generated all " + NatToString(successCount) + " images!"
    case Partial =>
      "Generated " + NatToString(successCount) + " of " + IntToString(count) + " images ("
      + IntToString(count - successCount) + " failed and were skipped)"
    case AllFailed => "Error: All " + IntToString(count) + " images failed to generate. Please try again."
  }

  /** `Error: ${error.message || 'Failed to generate images'}` */
  function FailureMessage(message: string): (msg: string)
  {
    "Error: " + (if message == "" then "Failed to generate images" else message)
  }

  /** `handleGenerate` once the generation call has settled: a count outside
      [1, 200] only sets the range notification; otherwise the images and
      progress are replaced, the notification follows the verdict, and the
      preview shows exactly when an image came back. A failed call leaves no
      images, progress 0 of the count and the error text. */
  function Generate(b: Batch, outcome: Result<seq<BatchImageResult>>): (r: Batch)
    ensures var count := RequestedCount(b.customNumber, b.numberOfImages);
      && (count < MinCount || count > MaxCount ==> r == b.(notification := CountOutOfRange))
      && (MinCount <= count <= MaxCount ==>
            && r.numberOfImages == b.numberOfImages && r.customNumber == b.customNumber
            && !r.isGenerating
            && r.progressTotal == count
            && (outcome.Success? ==>
                  && r.generatedImages == outcome.value
                  && r.progressCurrent == |outcome.value|
                  && r.notification == VerdictMessage(count, |outcome.value|)
                  && r.showPreview == (|outcome.value| > 0))
            && (outcome.Failure? ==>
                  && r.generatedImages == []
                  && r.progressCurrent == 0
                  && r.notification == FailureMessage(outcome.error)
                  && !r.showPreview))
  {
    var count := RequestedCount(b.customNumber, b.numberOfImages);
    if count < MinCount || count > MaxCount then b.(notification := CountOutOfRange)
    else
      match outcome
      case Success(images) =>
        b.(isGenerating := false, progressCurrent := |images|, progressTotal := count,
           notification := VerdictMessage(count, |images|), generatedImages := images,
           showPreview := |images| > 0)
      case Failure(message) =>
        b.(isGenerating := false, progressCurrent := 0, progressTotal := count,
           notification := FailureMessage(message), generatedImages := [], showPreview := false)
  }

  /** `Math.round(current / total * 100)`, or 0 for no total: the integer
      nearest to 100 * current / total, halves rounded up. */
  function ProgressPercent(current: int, total: int): (p: int)
    ensures total <= 0 ==> p == 0
    ensures total > 0 ==> 2 * total * p - total <= 200 * current < 2 * total * p + total
  {
    if total > 0 then (200 * current + total) / (2 * total) else 0
  }

  lemma MulMonotone(a: int, x: int, y: int)
    requires a >= 0 && x <= y
    ensures a * x <= a * y
  {
    assert a * y - a * x == a * (y - x);
  }

  /** Progress within the total stays within 0..100, and is 100 at the end. */
  lemma ProgressBounds(current: int, total: int)
    requires 0 <= current <= total
    ensures 0 <= ProgressPercent(current, total) <= 100
    ensures total > 0 && current == total ==> ProgressPercent(current, total) == 100
  {
    if total > 0 {
      var p := ProgressPercent(current, total);
      if p < 0 {
        MulMonotone(total, p, -1);
      }
      if p > 100 {
        MulMonotone(total, 101, p);
      }
      if current == total && p < 100 {
        MulMonotone(total, p, 99);
      }
    }
  }

  predicate IsAsciiAlnum(c: char)
  {
    ('a' <= c <= 'z') || ('A' <= c <= 'Z') || ('0' <= c <= '9')
  }

  /** `title.replace(/[^a-z0-9]/gi, '_')` */
  function Sanitize(title: string): (r: string)
    ensures |r| == |title|
    ensures forall i :: 0 <= i < |title| ==> r[i] == (if IsAsciiAlnum(title[i]) then title[i] else '_')
  {
    seq(|title|, i requires 0 <= i < |title| => if IsAsciiAlnum(title[i]) then title[i] else '_')
  }

  /** A sanitised title contains only letters, digits and `_`, and
      sanitising it again changes nothing. */
  lemma SanitizeIdempotent(title: string)
    ensures forall i :: 0 <= i < |title| ==> IsAsciiAlnum(Sanitize(title)[i]) || Sanitize(title)[i] == '_'
    ensures Sanitize(Sanitize(title)) == Sanitize(title)
  {
  }

  /** The folder inside the archive. */
  function FolderName(title: string): (name: string)
    ensures |name| == |title| + 7 && name[..|title|] == Sanitize(title) && name[|title|..] == "_scenes"
  {
    Sanitize(title) + "_scenes"
  }

  const ScenePrefix: string := "scene_"

  /** `String(sceneNumber).padStart(3, '0')` */
  function SceneDigits(sceneNumber: int): (digits: string)
  {
    PadStart(IntToString(sceneNumber), 3, '0')
  }

  function SceneFileName(sceneNumber: int): (name: string)
  {
    ScenePrefix + SceneDigits(sceneNumber) + ".png"
  }

  function SceneInfoFileName(sceneNumber: int): (name: string)
  {
    ScenePrefix + SceneDigits(sceneNumber) + "_info.txt"
  }

  /** A scene number from zero up is at least three digits, zero-padded,
      and reads back as that number. */
  lemma SceneDigitsShape(sceneNumber: nat)
    ensures |SceneDigits(sceneNumber)| >= 3
    ensures AllDigits(SceneDigits(sceneNumber))
    ensures ParseDecimal(SceneDigits(sceneNumber)) == sceneNumber
  {
    PadStartShape(NatToString(sceneNumber), 3, '0');
    PaddedRoundTrip(sceneNumber, 3);
  }

  /** Different scene numbers from zero up give different file names, and an
      image's name is never an info file's name. */
  lemma SceneFileNamesDistinct(a: nat, b: nat)
    ensures SceneFileName(a) == SceneFileName(b) ==> a == b
    ensures SceneInfoFileName(a) == SceneInfoFileName(b) ==> a == b
    ensures SceneFileName(a) != SceneInfoFileName(b)
  {
    SceneDigitsShape(a);
    SceneDigitsShape(b);
    var da, db := SceneDigits(a), SceneDigits(b);
    if SceneFileName(a) == SceneFileName(b) {
      assert |da| == |db|;
      assert da == SceneFileName(a)[6..6 + |da|];
    }
    if SceneInfoFileName(a) == SceneInfoFileName(b) {
      assert |da| == |db|;
      assert da == SceneInfoFileName(a)[6..6 + |da|];
    }
    var png, info := SceneFileName(a), SceneInfoFileName(b);
    assert png[|png| - 1] == 'g';
    assert info[|info| - 1] == 't';
  }

  /** The scene's text file. */
  function SceneInfo(img: BatchImageResult): (text: string)
  {
    "Scene " + IntToString(img.sceneNumber) + "\n\n"
    + "Description:\n" + img.sceneDescription + "\n\n"
    + "Image Prompt:\n" + img.imagePrompt
  }

  /** A file in the archive's folder: an image's bytes or a text. */
  datatype ZipEntry = ImageEntry(name: string, bytes: seq<byte>) | TextEntry(name: string, text: string)

  /** What `handleDownloadZip` reaches: nothing to pack, the packed folder,
      or the error of the base64 decoding that threw. */
  datatype ZipOutcome = NothingToZip | Zipped(folder: string, entries: seq<ZipEntry>) | ZipFailed(message: string)

  /** The two files of one scene, from the text `atob` decoded. */
  function SceneEntries(img: BatchImageResult, decoded: string): (entries: seq<ZipEntry>)
  {
    [ImageEntry(SceneFileName(img.sceneNumber), ByteValues(decoded)),
     TextEntry(SceneInfoFileName(img.sceneNumber), SceneInfo(img))]
  }

  /** The files of the images from `i` on, decoding each with `atob` (a
      foreign call, passed in); the first decoding that throws ends it. */
  function EntriesFrom(images: seq<BatchImageResult>, atob: string -> Result<string>, i: nat): (r: Result<seq<ZipEntry>>)
    requires i <= |images|
    decreases |images| - i
  {
    if i == |images| then Success([])
    else
      match atob(images[i].imageBytes)
      case Failure(message) => Failure(message)
      case Success(decoded) =>
        match EntriesFrom(images, atob, i + 1)
        case Failure(message) => Failure(message)
        case Success(rest) => Success(SceneEntries(images[i], decoded) + rest)
  }

  /** The archive `handleDownloadZip` builds. */
  function ZipSpec(title: string, images: seq<BatchImageResult>, atob: string -> Result<string>): (z: ZipOutcome)
  {
    if images == [] then NothingToZip
    else
      match EntriesFrom(images, atob, 0)
      case Failure(message) => ZipFailed(message)
      case Success(entries) => Zipped(FolderName(title), entries)
  }

  /** The notification after a download attempt (unchanged when there was
      nothing to pack). */
  function ZipNotification(z: ZipOutcome, before: string): (msg: string)
  {
    match z
    case NothingToZip => before
    case Zipped(_, _) => "ZIP file downloaded successfully!"
    case ZipFailed(message) => "Error creating ZIP: " + message
  }

  /** Packing from image i on succeeds exactly when every image from i on
      decodes; otherwise it fails with the error of the first one that does
      not. */
  lemma {:induction false} EntriesOutcome(images: seq<BatchImageResult>, atob: string -> Result<string>, i: nat)
    requires i <= |images|
    ensures EntriesFrom(images, atob, i).Success? <==> forall k :: i <= k < |images| ==> atob(images[k].imageBytes).Success?
    ensures forall k :: i <= k < |images| && atob(images[k].imageBytes).Failure?
                        && (forall m :: i <= m < k ==> atob(images[m].imageBytes).Success?)
                   ==> EntriesFrom(images, atob, i) == Failure(atob(images[k].imageBytes).error)
    decreases |images| - i
  {
    if i < |images| {
      EntriesOutcome(images, atob, i + 1);
    }
  }

  /** The notification after pressing download: unchanged without images,
      the success message exactly when every image decodes, and otherwise
      the error of the first image whose base64 decoding throws. */
  lemma DownloadNotification(title: string, images: seq<BatchImageResult>, atob: string -> Result<string>, before: string)
    ensures var msg := ZipNotification(ZipSpec(title, images, atob), before);
      && (images == [] ==> msg == before)
      && (images != [] ==>
            (msg == "ZIP file downloaded successfully!" <==> forall k :: 0 <= k < |images| ==> atob(images[k].imageBytes).Success?))
      && (forall k :: 0 <= k < |images| && atob(images[k].imageBytes).Failure?
                     && (forall m :: 0 <= m < k ==> atob(images[m].imageBytes).Success?)
                ==> msg == "Error creating ZIP: " + atob(images[k].imageBytes).error)
  {
    EntriesOutcome(images, atob, 0);
    var e := EntriesFrom(images, atob, 0);
    if images != [] && e.Failure? {
      var msg := "Error creating ZIP: " + e.error;
      assert msg[0] != "ZIP file downloaded successfully!"[0];
    }
  }

  /** When every image decodes, the archive holds two files per image. */
  lemma {:induction false} EntriesLength(images: seq<BatchImageResult>, atob: string -> Result<string>, i: nat)
    requires i <= |images|
    requires EntriesFrom(images, atob, i).Success?
    ensures |EntriesFrom(images, atob, i).value| == 2 * (|images| - i)
    decreases |images| - i
  {
    if i < |images| {
      EntriesLength(images, atob, i + 1);
    }
  }

  /** ... in image order: image `k`'s bytes under its scene file name, then
      its text under the info name. */
  lemma {:induction false} EntriesAt(images: seq<BatchImageResult>, atob: string -> Result<string>, i: nat, k: nat)
    requires i <= k < |images|
    requires EntriesFrom(images, atob, i).Success?
    ensures atob(images[k].imageBytes).Success?
    ensures var entries := EntriesFrom(images, atob, i).value;
      && 2 * (k - i) + 1 < |entries|
      && entries[2 * (k - i)] == ImageEntry(SceneFileName(images[k].sceneNumber), ByteValues(atob(images[k].imageBytes).value))
      && entries[2 * (k - i) + 1] == TextEntry(SceneInfoFileName(images[k].sceneNumber), SceneInfo(images[k]))
    decreases k - i
  {
    EntriesLength(images, atob, i);
    var entries := EntriesFrom(images, atob, i).value;
    var here := SceneEntries(images[i], atob(images[i].imageBytes).value);
    var rest := EntriesFrom(images, atob, i + 1).value;
    assert entries == here + rest;
    if k > i {
      EntriesAt(images, atob, i + 1, k);
      assert entries[2 * (k - i)] == rest[2 * (k - (i + 1))];
      assert entries[2 * (k - i) + 1] == rest[2 * (k - (i + 1)) + 1];
    }
  }

  /** `handleDownloadZip`'s packing loop: each image is decoded and its bytes
      filled into a fresh array, then its two files are added. */
  method DownloadZip(title: string, images: seq<BatchImageResult>, atob: string -> Result<string>)
    returns (z: ZipOutcome)
    ensures z == ZipSpec(title, images, atob)
  {
    if images == [] {
      return NothingToZip;
    }
    var entries: seq<ZipEntry> := [];
    var i := 0;
    if EntriesFrom(images, atob, 0).Success? {
      assert [] + EntriesFrom(images, atob, 0).value == EntriesFrom(images, atob, 0).value;
    }
    while i < |images|
      invariant 0 <= i <= |images|
      invariant EntriesFrom(images, atob, 0) == Glue(entries, EntriesFrom(images, atob, i))
      decreases |images| - i
    {
      var decoded := atob(images[i].imageBytes);
      if decoded.Failure? {
        return ZipFailed(decoded.error);
      }
      var bytes := DecodeBinaryString(decoded.value);
      assert bytes[..] == ByteValues(decoded.value);
      var sceneFiles := [ImageEntry(SceneFileName(images[i].sceneNumber), bytes[..]),
                         TextEntry(SceneInfoFileName(images[i].sceneNumber), SceneInfo(images[i]))];
      GlueStep(entries, sceneFiles, EntriesFrom(images, atob, i + 1));
      entries := entries + sceneFiles;
      i := i + 1;
    }
    assert entries + [] == entries;
    return Zipped(FolderName(title), entries);
  }

  /** The files gathered so far in front of the outcome of the rest. */
  function Glue(done: seq<ZipEntry>, rest: Result<seq<ZipEntry>>): (r: Result<seq<ZipEntry>>)
    ensures rest.Failure? ==> r == rest
    ensures rest.Success? ==> r == Success(done + rest.value)
  {
    match rest
    case Failure(message) => Failure(message)
    case Success(more) => Success(done + more)
  }

  lemma GlueStep(done: seq<ZipEntry>, step: seq<ZipEntry>, rest: Result<seq<ZipEntry>>)
    ensures Glue(done, Glue(step, rest)) == Glue(done + step, rest)
  {
    if rest.Success? {
      assert done + (step + rest.value) == (done + step) + rest.value;
    }
  }
}
