/** Image upload validation and the two image folders behind the post routes
    (backend/post/routes/posts.py, upload_image, delete_image, get_image).

    The temporary and the permanent folder are maps from file name to file
    size; moving a file between them, deleting it and serving it are the only
    operations the routes perform on them. */
module Images {
  import opened Common

  // ---------------------------------------------------------------------
  // os.path.splitext on POSIX paths

  predicate HasNonDot(s: string, lo: int, hi: int)
    requires 0 <= lo && hi <= |s|
  {
    exists k :: lo <= k < hi && s[k] != '.'
  }

  /** The extension os.path.splitext returns: from the last '.' of the final
      path component to the end, provided that component has a character
      other than '.' before it; otherwise empty (".wav" has no extension). */
  function SplitExt(p: string): (ext: string)
    ensures ext == [] || (ext[0] == '.' && EndsWith(p, ext) && '.' !in ext[1..] && '/' !in ext)
  {
    var sep := LastIndex(p, '/');
    var dot := LastIndex(p, '.');
    if dot > sep && HasNonDot(p, sep + 1, dot) then
      assert forall j :: 0 <= j < |p[dot..]| ==> p[dot..][j] == p[dot + j];
      assert p[dot..][1..] == p[dot + 1..];
      p[dot..]
    else []
  }

  /** A name that is only dots after its last '/' has no extension; a name
      with a non-dot character before its last '.' has that suffix. */
  lemma {:induction false} SplitExtCases(p: string)
    ensures LastIndex(p, '.') > LastIndex(p, '/') && HasNonDot(p, LastIndex(p, '/') + 1, LastIndex(p, '.')) ==>
              SplitExt(p) == p[LastIndex(p, '.')..]
    ensures !HasNonDot(p, LastIndex(p, '/') + 1, if LastIndex(p, '.') < 0 then 0 else LastIndex(p, '.')) ==>
              SplitExt(p) == []
  {
  }

  lemma DotFileHasNoExtension()
    ensures SplitExt(".wav") == []
    ensures SplitExt("voice.m4a") == ".m4a"
    ensures SplitExt("a.b/c") == []
  {
    assert LastIndex(".wav", '.') == 0;
    assert LastIndex("voice.m4a", '.') == 5;
    assert LastIndex("voice.m4a", '/') == -1;
    assert HasNonDot("voice.m4a", 0, 5) by { assert "voice.m4a"[0] != '.'; }
    assert LastIndex("a.b/c", '/') == 3;
  }

  // ---------------------------------------------------------------------
  // Upload validation

  const AllowedImageExtensions: set<string> := {".jpg", ".jpeg", ".png", ".gif", ".bmp", ".webp"}
  const MaxImageBytes := 10 * 1024 * 1024

  /** The lowercased extension of the uploaded name; an absent or empty name
      has none. */
  function ImageExtension(filename: Option<string>): (ext: string)
    ensures filename.None? || filename.value == [] ==> ext == []
    ensures filename.Some? ==> ext == [] || EndsWith(Lower(filename.value), ext)
  {
    if filename.Some? && filename.value != [] then SplitExt(Lower(filename.value)) else []
  }

  /** A present, non-empty content type starting with "image/". */
  predicate IsImageType(contentType: Option<string>) {
    contentType.Some? && contentType.value != [] && StartsWith(contentType.value, "image/")
  }

  /** A known, non-zero size above 10 MiB. */
  predicate TooLarge(size: Option<int>) {
    size.Some? && size.value != 0 && size.value > MaxImageBytes
  }

  /** The checks of upload_image, in order: type, then size. */
  function UploadCheck(filename: Option<string>, contentType: Option<string>, size: Option<int>): (r: Result<Unit>)
    ensures r.Ok? <==> (IsImageType(contentType) || ImageExtension(filename) in AllowedImageExtensions) && !TooLarge(size)
    ensures !IsImageType(contentType) && ImageExtension(filename) !in AllowedImageExtensions ==>
              r == Err(HttpError(400, NotAnImage))
    ensures (IsImageType(contentType) || ImageExtension(filename) in AllowedImageExtensions) && TooLarge(size) ==>
              r == Err(HttpError(400, ImageTooLarge))
  {
    if !IsImageType(contentType) && ImageExtension(filename) !in AllowedImageExtensions then
      Err(HttpError(400, NotAnImage))
    else if TooLarge(size) then
      Err(HttpError(400, ImageTooLarge))
    else Ok(Unit)
  }

  /** Either an image content type or an image extension is enough; the
      extension is compared after lowercasing. */
  lemma UploadAcceptsEither(name: string, size: Option<int>)
    requires !TooLarge(size)
    requires name != [] && name[|name| - 1] != '.' && name[|name| - 1] != '/'
    ensures UploadCheck(None, Some("image/png"), size).Ok?
    ensures UploadCheck(Some(name + ".PNG"), None, size).Ok?
  {
    var p := Lower(name + ".PNG");
    var n := |name|;
    assert p[n..] == ".png";
    assert p[n] == '.' && p[n + 1] == 'p' && p[n + 2] == 'n' && p[n + 3] == 'g';
    assert LastIndex(p, '.') == n;
    assert p[n - 1] == LowerChar(name[n - 1]);
    assert LastIndex(p, '/') < n - 1;
    assert HasNonDot(p, LastIndex(p, '/') + 1, n) by { assert p[n - 1] != '.'; }
    assert StartsWith("image/png", "image/");
  }

  // ---------------------------------------------------------------------
  // The two folders

  /** Where get_image found a file. */
  datatype Location = TempFolder | PermanentFolder

  class ImageStorage {
    /** uploads/temp: name -> size in bytes. */
    var temp: map<string, nat>
    /** uploads/images: name -> size in bytes. */
    var perm: map<string, nat>

    constructor ()
      ensures temp == map[] && perm == map[]
    {
      temp := map[];
      perm := map[];
    }

    /** image_utils.get_file_info on a permanent file: its size, if present. */
    function FileInfo(name: string): (size: Option<nat>)
      reads this
      ensures size.Some? <==> name in perm
      ensures size.Some? ==> size.value == perm[name]
    {
      if name in perm then Some(perm[name]) else None
    }

    /** get_image: the temporary folder first, then the permanent one. */
    function Serve(name: string): (r: Result<Location>)
      reads this
      ensures r.Ok? <==> name in temp || name in perm
      ensures r == Ok(TempFolder) <==> name in temp
      ensures r.Err? ==> r.error == HttpError(404, ImageFileMissing)
    {
      if name in temp then Ok(TempFolder)
      else if name in perm then Ok(PermanentFolder)
      else Err(HttpError(404, ImageFileMissing))
    }

    /** upload_image: validation, then the file is saved under a fresh
        temporary name. */
    method Upload(filename: Option<string>, contentType: Option<string>, size: Option<int>,
                  tempName: string, bytes: nat) returns (res: Result<string>)
      requires tempName !in temp
      modifies this`temp
      ensures res.Ok? <==> UploadCheck(filename, contentType, size).Ok?
      ensures res.Ok? ==> res.value == tempName && temp == old(temp)[tempName := bytes]
      ensures res.Err? ==> res.error == UploadCheck(filename, contentType, size).error && temp == old(temp)
    {
      var check := UploadCheck(filename, contentType, size);
      if check.Err? {
        return Err(check.error);
      }
      temp := temp[tempName := bytes];
      return Ok(tempName);
    }

    /** image_utils.delete_temp_file: whether a file was removed. */
    method DeleteTemp(name: string) returns (deleted: bool)
      modifies this`temp
      ensures deleted <==> name in old(temp)
      ensures temp == old(temp) - {name}
    {
      deleted := name in temp;
      temp := temp - {name};
    }

    /** image_utils.delete_permanent_file: whether a file was removed. */
    method DeletePermanent(name: string) returns (deleted: bool)
      modifies this`perm
      ensures deleted <==> name in old(perm)
      ensures perm == old(perm) - {name}
    {
      deleted := name in perm;
      perm := perm - {name};
    }

    /** delete_image: both deletions are attempted; success iff either
        removed a file. */
    method DeleteImage(name: string) returns (res: Result<string>)
      modifies this
      ensures res.Ok? <==> name in old(temp) || name in old(perm)
      ensures res.Ok? ==> res.value == name
      ensures res.Err? ==> res.error == HttpError(404, ImageFileMissing)
      ensures temp == old(temp) - {name} && perm == old(perm) - {name}
    {
      var tempDeleted := DeleteTemp(name);
      var permDeleted := DeletePermanent(name);
      if tempDeleted || permDeleted {
        return Ok(name);
      }
      return Err(HttpError(404, ImageFileMissing));
    }

    /** move_temp_to_permanent: the temporary file moves to a fresh
        permanent name; a missing temporary file is an HTTP error. */
    method Promote(tempName: string, permName: string) returns (res: Result<string>)
      requires permName !in perm
      modifies this
      ensures res.Ok? <==> tempName in old(temp)
      ensures res.Ok? ==> res.value == permName && temp == old(temp) - {tempName} &&
                          perm == old(perm)[permName := old(temp)[tempName]]
      ensures res.Err? ==> res.error == HttpError(404, ImageMoveFailed) && temp == old(temp) && perm == old(perm)
    {
      if tempName !in temp {
        return Err(HttpError(404, ImageMoveFailed));
      }
      perm := perm[permName := temp[tempName]];
      temp := temp - {tempName};
      return Ok(permName);
    }
  }
}
