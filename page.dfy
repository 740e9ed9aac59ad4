/** The upload wizard of src/app/page.tsx: the page's `useState`
    variables are the fields of `RentalInsightsPage`, its handlers are the
    methods. React applies the state updates of one handler together, so
    each method states the state after the handler; reads inside a
    handler see the state from before it (`old(..)` here). The browser's
    file reader and the server action are parameters. */
module Page {
  import opened Types
  import opened Wrappers

  const MaxFiles: nat := 5

  const MaxFileSize: nat := 4 * 1024 * 1024

  /** The wizard's steps. */
  datatype Step = Upload | Confirm | Analyzing | Results

  /** The parts of a browser `File` the page reads. */
  datatype File = File(name: string, mimeType: string, size: nat)

  const NotAnImageMessage: string := "Only image files are allowed."

  /** `MaxFileSize / 1024 / 1024` is 4. */
  const TooLargeMessage: string := "File size should not exceed 4MB."

  const PreviewFailedMessage: string := "Could not generate image previews."

  const NoImagesMessage: string := "Please upload at least one image."

  /** The arguments of `getRentalPrediction(imagePreviews, structuralFeatures)`. */
  datatype PredictionRequest = PredictionRequest(imageUris: seq<string>, structuralFeatureIds: seq<string>)

  /** Why a file is refused, tested in the source's order; none when it is
      accepted. */
  function Rejection(f: File): (m: Option<string>)
    ensures m.None? <==> "image/" <= f.mimeType && f.size <= MaxFileSize
    ensures m == Some(NotAnImageMessage) <==> !("image/" <= f.mimeType)
    ensures m == Some(TooLargeMessage) <==> "image/" <= f.mimeType && f.size > MaxFileSize
  {
    if !("image/" <= f.mimeType) then Some(NotAnImageMessage)
    else if f.size > MaxFileSize then Some(TooLargeMessage)
    else None
  }

  /** The files the filter keeps, in their order. */
  function Accepted(newFiles: seq<File>): (fs: seq<File>)
    ensures |fs| <= |newFiles|
    ensures forall f :: f in fs <==> f in newFiles && Rejection(f).None?
  {
    if newFiles == [] then []
    else
      var init := newFiles[..|newFiles| - 1];
      var last := newFiles[|newFiles| - 1];
      assert newFiles == init + [last];
      Accepted(init) + if Rejection(last).None? then [last] else []
  }

  /** The error the filter leaves: the message of the last refused file. */
  function LastRejection(newFiles: seq<File>): Option<string> {
    if newFiles == [] then None
    else
      var last := newFiles[|newFiles| - 1];
      if Rejection(last).Some? then Rejection(last) else LastRejection(newFiles[..|newFiles| - 1])
  }

  /** The first `MaxFiles` elements. */
  function Truncate(fs: seq<File>): (r: seq<File>)
    ensures |r| <= MaxFiles && r <= fs
    ensures |r| == if |fs| <= MaxFiles then |fs| else MaxFiles
    ensures |fs| <= MaxFiles ==> r == fs
  {
    if |fs| <= MaxFiles then fs else fs[..MaxFiles]
  }

  /** `Promise.all` over one read per file: the data URLs in file order,
      or none as soon as one read fails. */
  function Previews(fs: seq<File>, readAsDataUrl: File -> Option<string>): (r: Option<seq<string>>)
    ensures r.Some? ==> |r.value| == |fs| && forall k :: 0 <= k < |fs| ==> readAsDataUrl(fs[k]) == Some(r.value[k])
    ensures r.None? ==> exists k :: 0 <= k < |fs| && readAsDataUrl(fs[k]).None?
  {
    if fs == [] then Some([])
    else
      var init := fs[..|fs| - 1];
      match (Previews(init, readAsDataUrl), readAsDataUrl(fs[|fs| - 1]))
      case (Some(ps), Some(p)) => Some(ps + [p])
      case (None, _) =>
        var k :| 0 <= k < |init| && readAsDataUrl(init[k]).None?;
        assert fs[k] == init[k];
        None
      case (_, None) => None
  }

  /** `list.filter((_, i) => i !== index)`: the element at `index` goes,
      the others keep their order; an index out of range changes nothing. */
  function RemoveAt<T>(s: seq<T>, index: int): (r: seq<T>)
    ensures 0 <= index < |s| ==> (
      && |r| == |s| - 1
      && (forall k :: 0 <= k < index ==> r[k] == s[k])
      && (forall k :: index <= k < |r| ==> r[k] == s[k + 1]))
    ensures !(0 <= index < |s|) ==> r == s
  {
    if 0 <= index < |s| then s[..index] + s[index + 1..] else s
  }

  /** `list.filter(x => x !== id)`: every occurrence of `id` goes, every
      other entry stays with all its repeats. */
  function RemoveAll(s: seq<string>, id: string): (r: seq<string>)
    ensures id !in r
    ensures forall x :: x in r <==> x in s && x != id
    ensures |r| <= |s|
  {
    if s == [] then []
    else RemoveAll(s[..|s| - 1], id) + if s[|s| - 1] == id then [] else [s[|s| - 1]]
  }

  class RentalInsightsPage {
    var files: seq<File>
    var imagePreviews: seq<string>
    var structuralFeatures: seq<string>
    var step: Step
    var result: Option<PredictionResult>
    var error: Option<string>

    /** At most five files and previews are held, and an error, when set,
        is never the empty string (so `if (error)` tests whether it is set). */
    ghost predicate Valid()
      reads this
    {
      && |files| <= MaxFiles
      && |imagePreviews| <= MaxFiles
      && (error.Some? ==> error.value != [])
    }

    /** The state the page starts in and `handleStartOver` returns to. */
    ghost predicate Initial()
      reads this
    {
      && files == [] && imagePreviews == [] && structuralFeatures == []
      && step == Upload && result == None && error == None
    }

    constructor()
      ensures Initial() && Valid()
    {
      files := [];
      imagePreviews := [];
      structuralFeatures := [];
      step := Upload;
      result := None;
      error := None;
    }

    /** `handleFiles`. The filter records the message of each refused
        file, so the last one stands (React applies the handler's updates
        of `error` together, so they are collected first); the guard then reads `error` as it
        was before the call, so a batch that follows an error is dropped
        (the error is still recomputed). Otherwise the accepted files are
        appended, the list cut to five, and the previews regenerated. */
    method HandleFiles(newFiles: seq<File>, readAsDataUrl: File -> Option<string>)
      requires Valid()
      modifies this
      ensures Valid()
      ensures old(error).Some? ==>
        files == old(files) && imagePreviews == old(imagePreviews) && error == LastRejection(newFiles)
      ensures old(error).None? ==> files == Truncate(old(files) + Accepted(newFiles))
      ensures old(error).None? && Previews(files, readAsDataUrl).Some? ==>
        imagePreviews == Previews(files, readAsDataUrl).value && error == LastRejection(newFiles)
      ensures old(error).None? && Previews(files, readAsDataUrl).None? ==>
        imagePreviews == old(imagePreviews) && error == Some(PreviewFailedMessage)
      ensures structuralFeatures == old(structuralFeatures) && step == old(step) && result == old(result)
    {
      var staleError := error;
      var filterError: Option<string> := None;
      var validFiles: seq<File> := [];
      for i := 0 to |newFiles|
        invariant validFiles == Accepted(newFiles[..i])
        invariant filterError == LastRejection(newFiles[..i])
      {
        var file := newFiles[i];
        assert newFiles[..i + 1][..i] == newFiles[..i];
        if !("image/" <= file.mimeType) {
          filterError := Some(NotAnImageMessage);
        } else if file.size > MaxFileSize {
          filterError := Some(TooLargeMessage);
        } else {
          validFiles := validFiles + [file];
        }
      }
      assert newFiles[..|newFiles|] == newFiles;
      LastRejectionIsAMessage(newFiles);
      error := filterError;

      if staleError.Some? {
        return;
      }

      var combinedFiles := Truncate(files + validFiles);
      files := combinedFiles;
      GeneratePreviews(combinedFiles, readAsDataUrl);
    }

    /** `generatePreviews`: on success the previews are replaced, one per
        file in order; on any failed read only the error is set. */
    method GeneratePreviews(filesToPreview: seq<File>, readAsDataUrl: File -> Option<string>)
      requires |filesToPreview| <= MaxFiles
      requires Valid()
      modifies this
      ensures Valid()
      ensures Previews(filesToPreview, readAsDataUrl).Some? ==>
        imagePreviews == Previews(filesToPreview, readAsDataUrl).value && error == old(error)
      ensures Previews(filesToPreview, readAsDataUrl).None? ==>
        imagePreviews == old(imagePreviews) && error == Some(PreviewFailedMessage)
      ensures files == old(files) && structuralFeatures == old(structuralFeatures)
      ensures step == old(step) && result == old(result)
    {
      var previews: seq<string> := [];
      var failed := false;
      for i := 0 to |filesToPreview|
        invariant failed <==> Previews(filesToPreview[..i], readAsDataUrl).None?
        invariant !failed ==> Previews(filesToPreview[..i], readAsDataUrl) == Some(previews)
      {
        assert filesToPreview[..i + 1][..i] == filesToPreview[..i];
        var preview := readAsDataUrl(filesToPreview[i]);
        if preview.None? {
          failed := true;
        } else if !failed {
          previews := previews + [preview.value];
        }
      }
      assert filesToPreview[..|filesToPreview|] == filesToPreview;
      if failed {
        error := Some(PreviewFailedMessage);
      } else {
        imagePreviews := previews;
      }
    }

    /** `removeFile`: drops the file and the preview at `index`. */
    method RemoveFile(index: int)
      requires Valid()
      modifies this
      ensures Valid()
      ensures files == RemoveAt(old(files), index) && imagePreviews == RemoveAt(old(imagePreviews), index)
      ensures structuralFeatures == old(structuralFeatures) && step == old(step)
      ensures result == old(result) && error == old(error)
    {
      files := RemoveAt(files, index);
      imagePreviews := RemoveAt(imagePreviews, index);
    }

    /** `handleStructuralFeatureChange`: checking appends the id (even
        if already present), unchecking removes every occurrence. */
    method HandleStructuralFeatureChange(featureId: string, checked: bool)
      modifies this
      ensures checked ==> structuralFeatures == old(structuralFeatures) + [featureId]
      ensures !checked ==> structuralFeatures == RemoveAll(old(structuralFeatures), featureId)
      ensures files == old(files) && imagePreviews == old(imagePreviews) && step == old(step)
      ensures result == old(result) && error == old(error)
    {
      structuralFeatures := if checked then structuralFeatures + [featureId] else RemoveAll(structuralFeatures, featureId);
    }

    /** The synchronous part of `handleSubmit`: without previews it only
        sets an error; otherwise it moves to `analyzing`, clears the error
        and sends the previews and the ticked ids, as they are, to the
        server action (`sent`). */
    method HandleSubmit() returns (sent: Option<PredictionRequest>)
      requires Valid()
      modifies this
      ensures Valid()
      ensures sent.Some? <==> old(imagePreviews) != []
      ensures sent.None? ==> error == Some(NoImagesMessage) && step == old(step)
      ensures sent.Some? ==> error == None && step == Analyzing
      ensures sent.Some? ==> sent.value == PredictionRequest(old(imagePreviews), old(structuralFeatures))
      ensures files == old(files) && imagePreviews == old(imagePreviews)
      ensures structuralFeatures == old(structuralFeatures) && result == old(result)
    {
      if |imagePreviews| == 0 {
        error := Some(NoImagesMessage);
        return None;
      }
      step := Analyzing;
      error := None;
      return Some(PredictionRequest(imagePreviews, structuralFeatures));
    }

    /** The rest of `handleSubmit`, once the server action has answered:
        `if (result.error)` is JavaScript truthiness, so an empty error
        string counts as success and leaves `result` unset. */
    method FinishAnalysis(response: ServerActionResponse)
      requires Valid()
      modifies this
      ensures Valid()
      ensures response.Error? && response.error != [] ==> step == Confirm && result == old(result)
      ensures response.Data? ==> step == Results && result == Some(response.data)
      ensures response == Error([]) ==> step == Results && result == None
      ensures files == old(files) && imagePreviews == old(imagePreviews)
      ensures structuralFeatures == old(structuralFeatures) && error == old(error)
    {
      if response.Error? && response.error != [] {
        step := Confirm;
      } else {
        result := if response.Data? then Some(response.data) else None;
        step := Results;
      }
    }

    /** `handleStartOver`: back to the initial state. */
    method HandleStartOver()
      modifies this
      ensures Initial() && Valid()
    {
      files := [];
      imagePreviews := [];
      structuralFeatures := [];
      result := None;
      error := None;
      step := Upload;
    }

    /** The upload step's continue button, enabled once a preview exists. */
    method ContinueToConfirm()
      requires imagePreviews != []
      modifies this
      ensures step == Confirm
      ensures files == old(files) && imagePreviews == old(imagePreviews)
      ensures structuralFeatures == old(structuralFeatures) && result == old(result) && error == old(error)
    {
      step := Confirm;
    }

    /** The confirm step's back button. */
    method BackToUpload()
      modifies this
      ensures step == Upload
      ensures files == old(files) && imagePreviews == old(imagePreviews)
      ensures structuralFeatures == old(structuralFeatures) && result == old(result) && error == old(error)
    {
      step := Upload;
    }
  }

  // ----- Properties -----

  /** The error the filter leaves is one of the two refusal messages. */
  lemma {:induction false} LastRejectionIsAMessage(newFiles: seq<File>)
    ensures LastRejection(newFiles).Some? ==>
      LastRejection(newFiles).value in [NotAnImageMessage, TooLargeMessage]
  {
    if newFiles != [] {
      LastRejectionIsAMessage(newFiles[..|newFiles| - 1]);
    }
  }

  /** No error is left exactly when every file is accepted. */
  lemma {:induction false} NoRejectionKeepsAll(newFiles: seq<File>)
    ensures LastRejection(newFiles).None? <==> Accepted(newFiles) == newFiles
  {
    if newFiles != [] {
      var init := newFiles[..|newFiles| - 1];
      var last := newFiles[|newFiles| - 1];
      NoRejectionKeepsAll(init);
      assert newFiles == init + [last];
      if Rejection(last).Some? {
        assert last !in Accepted(newFiles);
      }
    }
  }

  /** Filtering the accepted files again changes nothing. */
  lemma {:induction false} AcceptedIdempotent(newFiles: seq<File>)
    ensures Accepted(Accepted(newFiles)) == Accepted(newFiles)
  {
    if newFiles != [] {
      var init := newFiles[..|newFiles| - 1];
      var last := newFiles[|newFiles| - 1];
      AcceptedIdempotent(init);
      AcceptedAppend(Accepted(init), if Rejection(last).None? then [last] else []);
    }
  }

  lemma {:induction false} AcceptedAppend(a: seq<File>, b: seq<File>)
    ensures Accepted(a + b) == Accepted(a) + Accepted(b)
  {
    if b != [] {
      AcceptedAppend(a, b[..|b| - 1]);
      assert (a + b)[..|a + b| - 1] == a + b[..|b| - 1];
      assert (a + b)[|a + b| - 1] == b[|b| - 1];
    } else {
      assert a + b == a;
    }
  }

  /** The pairs of two equally long lists, position by position. */
  function Zip<T, U>(a: seq<T>, b: seq<U>): (z: seq<(T, U)>)
    requires |a| == |b|
    ensures |z| == |a| && forall k :: 0 <= k < |a| ==> z[k] == (a[k], b[k])
  {
    seq(|a|, k requires 0 <= k < |a| => (a[k], b[k]))
  }

  /** Removing the same index from two index-aligned lists keeps them
      aligned: it removes that pair from the list of pairs. */
  lemma RemoveAtKeepsAlignment<T, U>(a: seq<T>, b: seq<U>, index: int)
    requires |a| == |b|
    ensures |RemoveAt(a, index)| == |RemoveAt(b, index)|
    ensures Zip(RemoveAt(a, index), RemoveAt(b, index)) == RemoveAt(Zip(a, b), index)
  {
  }

  /** Unchecking an id that checking just added restores the list. */
  lemma {:induction false} UncheckUndoesCheck(s: seq<string>, id: string)
    requires id !in s
    ensures RemoveAll(s + [id], id) == s
  {
    assert (s + [id])[..|s|] == s;
    RemoveAllAbsent(s, id);
  }

  /** Unchecking filters each part of a list on its own, so the entries
      that stay keep their order and their repeats. */
  lemma {:induction false} RemoveAllAppend(a: seq<string>, b: seq<string>, id: string)
    ensures RemoveAll(a + b, id) == RemoveAll(a, id) + RemoveAll(b, id)
  {
    if b != [] {
      RemoveAllAppend(a, b[..|b| - 1], id);
      assert (a + b)[..|a + b| - 1] == a + b[..|b| - 1];
      assert (a + b)[|a + b| - 1] == b[|b| - 1];
    } else {
      assert a + b == a;
    }
  }

  /** Unchecking removes exactly the occurrences of the id: every other
      entry keeps its number of repeats. */
  lemma {:induction false} RemoveAllKeepsRepeats(s: seq<string>, id: string)
    ensures multiset(RemoveAll(s, id)) == multiset(s)[id := 0]
  {
    if s != [] {
      var init := s[..|s| - 1];
      RemoveAllKeepsRepeats(init, id);
      assert s == init + [s[|s| - 1]];
    }
  }

  /** Unchecking an id that is not in the list changes nothing. */
  lemma {:induction false} RemoveAllAbsent(s: seq<string>, id: string)
    requires id !in s
    ensures RemoveAll(s, id) == s
  {
    if s != [] {
      RemoveAllAbsent(s[..|s| - 1], id);
      assert s == s[..|s| - 1] + [s[|s| - 1]];
    }
  }
}
