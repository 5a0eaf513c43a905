/** The storage helpers of client/src/supabase.js: the upload path built from a file
    name, the object key recovered from a public URL on delete, the session guards, the
    error messages and the batch upload. The storage service itself is an input: what
    it answered to the one call each helper makes. */
module Storage {
  import opened Wrappers
  import opened Strings
  import Promises

  const Bucket := "RoofSurf"
  const BucketMarker := "/RoofSurf/"
  const UploadPrefix := "Image upload failed: "
  const DeletePrefix := "Image deletion failed: "
  const UploadNoSession := "User must be authenticated to upload files"
  const DeleteNoSession := "User must be authenticated to delete files"
  const BatchFailed := "Multiple image upload failed"

  /** `file.name.split(".").pop()`. */
  function FileExtension(fileName: string): (ext: string)
    ensures '.' !in ext
  {
    var parts := Split(fileName, ".");
    SplitPiecesFree(fileName, ".");
    ContainsChar(Last(parts), '.');
    Last(parts)
  }

  /** The object path: `${folder}/${Math.random()}-${Date.now()}.${ext}`, with the
      random number and the clock reading passed in as text. */
  function UploadPath(folder: string, random: string, now: string, fileName: string): (path: string)
    ensures |path| == |folder| + |random| + |now| + |FileExtension(fileName)| + 3
    ensures path[..|folder| + 1] == folder + "/"
    ensures path[|path| - |FileExtension(fileName)| - 1..] == "." + FileExtension(fileName)
  {
    folder + "/" + random + "-" + now + "." + FileExtension(fileName)
  }

  /** `path.split("/RoofSurf/")`: the second piece when there is one, else the path. */
  function DeleteKey(path: string): (key: string)
    ensures Contains(path, BucketMarker) ==> !Contains(key, BucketMarker)
    ensures !Contains(path, BucketMarker) ==> key == path
  {
    var parts := Split(path, BucketMarker);
    SplitPiecesFree(path, BucketMarker);
    IndexOfNone(path, BucketMarker);
    SplitSingle(path, BucketMarker);
    if |parts| > 1 then parts[1] else path
  }

  /** One storage helper call: the request it put to the storage service (None when it
      stopped before calling it) and how the call ended. */
  datatype StorageCall<T> = StorageCall(request: Option<string>, outcome: Result<T, string>)

  /** `storage.uploadImage`: `reply` is what the upload answered (the public URL of the
      stored object, or the service's error message). */
  function UploadImage(fileName: string, folder: string, random: string, now: string,
                       session: bool, reply: Result<string, string>): (call: StorageCall<string>)
    ensures !session ==> call == StorageCall(None, Failure(UploadPrefix + UploadNoSession))
    ensures session ==> call.request == Some(UploadPath(folder, random, now, fileName))
    ensures session && reply.Success? ==> call.outcome == reply
    ensures session && reply.Failure? ==> call.outcome == Failure(UploadPrefix + reply.error)
  {
    if !session then StorageCall(None, Failure(UploadPrefix + UploadNoSession))
    else
      var request := Some(UploadPath(folder, random, now, fileName));
      match reply
      case Success(url) => StorageCall(request, Success(url))
      case Failure(message) => StorageCall(request, Failure(UploadPrefix + message))
  }

  /** `storage.deleteImage`: `reply` is None when removal succeeded, else the error. */
  function DeleteImage(path: string, session: bool, reply: Option<string>): (call: StorageCall<()>)
    ensures !session ==> call == StorageCall(None, Failure(DeletePrefix + DeleteNoSession))
    ensures session ==> call.request == Some(DeleteKey(path))
    ensures session ==> (call.outcome.Success? <==> reply.None?)
    ensures session && reply.Some? ==> call.outcome == Failure(DeletePrefix + reply.value)
  {
    if !session then StorageCall(None, Failure(DeletePrefix + DeleteNoSession))
    else
      var request := Some(DeleteKey(path));
      match reply
      case None => StorageCall(request, Success(()))
      case Some(message) => StorageCall(request, Failure(DeletePrefix + message))
  }

  function Settled(call: StorageCall<string>): Option<string>
  {
    if call.outcome.Success? then Some(call.outcome.value) else None
  }

  /** `storage.uploadMultipleImages`: one `uploadImage` per file (file `i` with its own
      random/clock text and storage reply), awaited with `Promise.all`. */
  function UploadMultipleImages(fileNames: seq<string>, folder: string, randoms: seq<string>,
                                nows: seq<string>, session: bool, replies: seq<Result<string, string>>)
    : (r: Result<seq<string>, string>)
    requires |randoms| == |fileNames| && |nows| == |fileNames| && |replies| == |fileNames|
    ensures r.Success? <==>
      fileNames == [] || (session && forall i :: 0 <= i < |replies| ==> replies[i].Success?)
    ensures r.Success? ==>
      && |r.value| == |fileNames|
      && (forall i :: 0 <= i < |fileNames| ==> r.value[i] == replies[i].value)
    ensures r.Failure? ==> r.error == BatchFailed
  {
    var calls := seq(|fileNames|, i requires 0 <= i < |fileNames| =>
      UploadImage(fileNames[i], folder, randoms[i], nows[i], session, replies[i]));
    var outcomes := seq(|calls|, i requires 0 <= i < |calls| => Settled(calls[i]));
    assert forall i :: 0 <= i < |fileNames| ==>
      (outcomes[i].Some? <==> session && replies[i].Success?);
    assert fileNames != [] && !session ==> outcomes[0].None?;
    match Promises.All(outcomes)
    case Some(urls) => Success(urls)
    case None => Failure(BatchFailed)
  }

  /** The extension is what follows the last `'.'`: the whole name when there is no dot,
      the empty string after a trailing dot. */
  lemma FileExtensionIsLastDotSuffix(fileName: string)
    ensures var ext := FileExtension(fileName);
      && '.' !in ext
      && |ext| <= |fileName| && fileName[|fileName| - |ext|..] == ext
      && ('.' !in fileName ==> ext == fileName)
      && ('.' in fileName ==> |ext| < |fileName| && fileName[|fileName| - |ext| - 1] == '.')
  {
    var parts := Split(fileName, ".");
    var ext := Last(parts);
    SplitPiecesFree(fileName, ".");
    ContainsChar(ext, '.');
    SplitLastIsSuffix(fileName, ".");
    SplitSingle(fileName, ".");
    IndexOfNone(fileName, ".");
    ContainsChar(fileName, '.');
    if |parts| > 1 {
      var init := Join(parts[..|parts| - 1], ".");
      assert fileName == init + "." + ext;
      assert fileName[|fileName| - |ext|..] == ext;
      assert fileName[|fileName| - |ext| - 1] == '.';
    }
  }

  /** A name ending in a dot has the empty extension. */
  lemma TrailingDotGivesEmptyExtension(name: string)
    requires |name| > 0 && name[|name| - 1] == '.'
    ensures FileExtension(name) == ""
  {
    FileExtensionIsLastDotSuffix(name);
  }

  /** A name without a dot is its own extension. */
  lemma NoDotGivesWholeName(name: string)
    requires '.' !in name
    ensures FileExtension(name) == name
  {
    FileExtensionIsLastDotSuffix(name);
  }

  /** With the marker, the key is the text from just after its first occurrence to the
      next occurrence or the end. */
  lemma {:induction false} DeleteKeyBetweenMarkers(path: string)
    ensures Contains(path, BucketMarker) ==>
      var i := IndexOf(path, BucketMarker).value;
      var rest := path[i + |BucketMarker|..];
      DeleteKey(path) == match IndexOf(rest, BucketMarker)
        case None => rest
        case Some(j) => rest[..j]
  {
    IndexOfNone(path, BucketMarker);
    SplitSingle(path, BucketMarker);
    if Contains(path, BucketMarker) {
      var i := IndexOf(path, BucketMarker).value;
      var rest := path[i + |BucketMarker|..];
      assert Split(path, BucketMarker) == [path[..i]] + Split(rest, BucketMarker);
    }
  }

  /** Without a session nothing reaches the storage service, and a non-empty batch fails. */
  lemma NoSessionNoStorageCall(fileNames: seq<string>, folder: string, randoms: seq<string>,
                               nows: seq<string>, replies: seq<Result<string, string>>)
    requires |randoms| == |fileNames| && |nows| == |fileNames| && |replies| == |fileNames|
    ensures forall i :: 0 <= i < |fileNames| ==>
      UploadImage(fileNames[i], folder, randoms[i], nows[i], false, replies[i]).request == None
    ensures fileNames != [] ==>
      UploadMultipleImages(fileNames, folder, randoms, nows, false, replies) == Failure(BatchFailed)
  {
  }
}
