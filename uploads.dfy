/**
 * The checks an image goes through before the artwork and product pages
 * upload it, and the storage path they build for it.
 */
module Uploads {
  import opened Wrappers
  import opened JsText

  /** What the browser reports of a chosen file. */
  datatype SelectedFile = SelectedFile(name: string, mimeType: string, size: nat)

  datatype UploadRejection = NotAnImage | TooLarge

  /** 5 MiB. */
  const MaxImageBytes: nat := 5 * 1024 * 1024

  /**
   * The type is checked first (it must start with `image/`), then the size
   * (more than 5 MiB is refused). `None` means the file may be uploaded.
   */
  function CheckImage(f: SelectedFile): (r: Option<UploadRejection>)
    ensures r.None? <==> StartsWith(f.mimeType, "image/") && f.size <= MaxImageBytes
    ensures r == Some(NotAnImage) <==> !StartsWith(f.mimeType, "image/")
    ensures r == Some(TooLarge) ==> f.size > MaxImageBytes
  {
    if !StartsWith(f.mimeType, "image/") then Some(NotAnImage)
    else if f.size > MaxImageBytes then Some(TooLarge)
    else None
  }

  /** `name.split('.').pop()`. */
  function FileExtension(name: string): (r: string)
    ensures '.' !in r
  {
    LastSegment(name, '.')
  }

  /**
   * `<folder>/<token>-<now>.<ext>`: `token` stands for the random base-36 text
   * and `now` for `Date.now()`, both chosen outside the model.
   */
  function StoragePath(folder: string, token: string, now: int, name: string): (r: string)
  {
    folder + "/" + token + "-" + IntToString(now) + "." + FileExtension(name)
  }

  lemma AppendKeepsPrefix(x: string, y: string, p: string)
    requires StartsWith(x, p)
    ensures StartsWith(x + y, p)
  {
    assert (x + y)[..|p|] == x[..|p|];
  }

  /** The path lies in the page's folder of the bucket. */
  lemma StoragePathInFolder(folder: string, token: string, now: int, name: string)
    ensures StartsWith(StoragePath(folder, token, now, name), folder + "/")
  {
    var head := folder + "/";
    var num := IntToString(now);
    var ext := FileExtension(name);
    assert head[..|head|] == head;
    AppendKeepsPrefix(head, token, head);
    AppendKeepsPrefix(head + token, "-", head);
    AppendKeepsPrefix(head + token + "-", num, head);
    AppendKeepsPrefix(head + token + "-" + num, ".", head);
    AppendKeepsPrefix(head + token + "-" + num + ".", ext, head);
  }

  /** The stored object keeps the chosen file's extension. */
  lemma StoragePathKeepsExtension(folder: string, token: string, now: int, name: string)
    ensures FileExtension(StoragePath(folder, token, now, name)) == FileExtension(name)
  {
    var prefix := folder + "/" + token + "-" + IntToString(now);
    assert StoragePath(folder, token, now, name) == prefix + ['.'] + FileExtension(name);
    LastSegmentAfterSep(prefix, '.', FileExtension(name));
  }

  /** A name without a dot is its own extension; otherwise the extension follows the last dot. */
  lemma FileExtensionShape(name: string)
    ensures '.' !in name ==> FileExtension(name) == name
    ensures '.' in name ==> exists k :: 0 <= k < |name| && name[k] == '.' && FileExtension(name) == name[k + 1..]
  {
    var r := FileExtension(name);
    if |r| == |name| {
      assert name[|name| - |r|..] == name;
    } else {
      var k := |name| - |r| - 1;
      assert name[k] == '.' && r == name[k + 1..];
    }
  }

  /**
   * What a page does with the file input: nothing when no file was chosen,
   * a rejection, or the path to upload to.
   */
  datatype UploadStep = NoFile | Refused(why: UploadRejection) | UploadTo(path: string)

  function PlanUpload(folder: string, file: Option<SelectedFile>, token: string, now: int): (r: UploadStep)
    ensures file.None? <==> r == NoFile
    ensures r.UploadTo? ==> file.Some? && CheckImage(file.value).None? && r.path == StoragePath(folder, token, now, file.value.name)
    ensures r.Refused? ==> file.Some? && Some(r.why) == CheckImage(file.value)
  {
    match file
    case None => NoFile
    case Some(f) =>
      match CheckImage(f)
      case Some(why) => Refused(why)
      case None => UploadTo(StoragePath(folder, token, now, f.name))
  }
}
