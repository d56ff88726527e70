/**
 * The request checks of the backend's `/predict` endpoint (backend/app.py):
 * the filename-extension whitelist `allowed_file` and the fixed chain of
 * early-return checks that runs before an upload is saved and classified.
 */
module UploadValidation {
  import opened Wrappers

  /** The extensions the endpoint accepts, compared after lower-casing. */
  const AllowedExtensions: set<string> := {"png", "jpg", "jpeg"}

  /** Index of the last occurrence of `c` in `s`, if any. */
  function LastIndexOf(s: string, c: char): (r: Option<nat>)
    ensures r.None? <==> c !in s
    ensures r.Some? ==> r.value < |s| && s[r.value] == c && c !in s[r.value + 1..]
  {
    if s == [] then None
    else if s[|s| - 1] == c then Some(|s| - 1)
    else
      var r := LastIndexOf(s[..|s| - 1], c);
      assert s == s[..|s| - 1] + [s[|s| - 1]];
      if r.Some? then
        assert s[r.value + 1..] == s[..|s| - 1][r.value + 1..] + [s[|s| - 1]];
        r
      else r
  }

  /**
   * The text after the last '.', as `filename.rsplit('.', 1)[1]` gives it;
   * `None` when the name holds no '.' at all.
   */
  function Extension(filename: string): (r: Option<string>)
    ensures r.None? <==> '.' !in filename
    ensures r.Some? ==>
              && |r.value| < |filename|
              && filename[|filename| - |r.value| - 1] == '.'
              && filename[|filename| - |r.value|..] == r.value
              && '.' !in r.value
  {
    match LastIndexOf(filename, '.')
    case None => None
    case Some(i) => Some(filename[i + 1..])
  }

  /** ASCII lower-casing of one character; every other character is kept. */
  function LowerChar(c: char): char
  {
    if 'A' <= c <= 'Z' then (c as int - 'A' as int + 'a' as int) as char else c
  }

  function Lower(s: string): string
  {
    seq(|s|, i requires 0 <= i < |s| => LowerChar(s[i]))
  }

  /** `allowed_file`: the lower-cased text after the last '.' is whitelisted. */
  function AllowedFile(filename: string): (r: bool)
    ensures r ==> '.' in filename
  {
    match Extension(filename)
    case None => false
    case Some(ext) => Lower(ext) in AllowedExtensions
  }

  /** A '.' with no '.' after it is the last one, so the extension follows it. */
  lemma ExtensionAfterLastDot(filename: string, i: nat)
    requires i < |filename| && filename[i] == '.' && '.' !in filename[i + 1..]
    ensures Extension(filename) == Some(filename[i + 1..])
  {
    assert filename[i] in filename;
  }

  /**
   * The same verdict stated without reference to how the last '.' is found:
   * some '.' has no '.' after it, and the lower-cased text after it is
   * png, jpg or jpeg.
   */
  lemma AllowedFileMeaning(filename: string)
    ensures AllowedFile(filename) <==>
              exists i :: 0 <= i < |filename| && filename[i] == '.' && '.' !in filename[i + 1..]
                          && Lower(filename[i + 1..]) in AllowedExtensions
  {
    if AllowedFile(filename) {
      var e := Extension(filename).value;
      var k := |filename| - |e| - 1;
      assert filename[k + 1..] == e;
    }
    if exists i :: 0 <= i < |filename| && filename[i] == '.' && '.' !in filename[i + 1..]
                   && Lower(filename[i + 1..]) in AllowedExtensions {
      var i :| 0 <= i < |filename| && filename[i] == '.' && '.' !in filename[i + 1..]
               && Lower(filename[i + 1..]) in AllowedExtensions;
      ExtensionAfterLastDot(filename, i);
    }
  }

  /** A name whose last segment is `ext` has extension `ext`, whatever its stem holds. */
  lemma ExtensionOfJoin(stem: string, ext: string)
    requires '.' !in ext
    ensures Extension(stem + "." + ext) == Some(ext)
  {
    var name := stem + "." + ext;
    assert name[|stem|] == '.';
    assert name[|stem| + 1..] == ext;
    var r := Extension(name);
    assert r.Some?;
  }

  /** `allowed_file` judges only the text after the last '.', case-insensitively. */
  lemma AllowedFileByLastSegment(stem: string, ext: string)
    requires '.' !in ext
    ensures AllowedFile(stem + "." + ext) <==> Lower(ext) in AllowedExtensions
  {
    ExtensionOfJoin(stem, ext);
  }

  /** A name without any '.' is always refused. */
  lemma NoDotRefused(filename: string)
    requires '.' !in filename
    ensures !AllowedFile(filename)
  {
  }

  lemma LowerIdempotent(s: string)
    ensures Lower(Lower(s)) == Lower(s)
  {
  }

  /** Lower-casing never creates nor removes a '.', so the last '.' stays put. */
  lemma {:induction false} LastDotIgnoresCase(s: string)
    ensures LastIndexOf(Lower(s), '.') == LastIndexOf(s, '.')
  {
    if s != [] {
      var init := s[..|s| - 1];
      assert Lower(s)[..|s| - 1] == Lower(init);
      LastDotIgnoresCase(init);
    }
  }

  /** The verdict is case-insensitive: lower-casing the whole name changes nothing. */
  lemma AllowedFileIgnoresCase(filename: string)
    ensures AllowedFile(Lower(filename)) == AllowedFile(filename)
  {
    LastDotIgnoresCase(filename);
    var r := LastIndexOf(filename, '.');
    if r.Some? {
      var ext := filename[r.value + 1..];
      assert Lower(filename)[r.value + 1..] == Lower(ext);
      LowerIdempotent(ext);
    }
  }

  /** A last segment behind an earlier extension decides: "photo.tar.png" is accepted. */
  lemma DoubleExtensionAccepted()
    ensures AllowedFile("photo.tar.png")
  {
    AllowedFileByLastSegment("photo.tar", "png");
    assert "photo.tar" + "." + "png" == "photo.tar.png";
    assert Lower("png") == "png";
  }

  /** An allowed word before the last '.' does not help: "png.exe" is refused. */
  lemma AllowedWordInStemRefused()
    ensures !AllowedFile("png.exe")
  {
    AllowedFileByLastSegment("png", "exe");
    assert "png" + "." + "exe" == "png.exe";
    assert Lower("exe") == "exe";
  }

  /** Upper-case extensions are accepted: "IMG.JPG". */
  lemma UpperCaseExtensionAccepted()
    ensures AllowedFile("IMG.JPG")
  {
    AllowedFileByLastSegment("IMG", "JPG");
    assert "IMG" + "." + "JPG" == "IMG.JPG";
    assert Lower("JPG") == "jpg";
  }

  /** A trailing '.' leaves an empty extension, which is refused: "a.". */
  lemma TrailingDotRefused()
    ensures !AllowedFile("a.")
  {
    AllowedFileByLastSegment("a", "");
    assert "a" + "." + "" == "a.";
  }

  /** The 400 responses of `/predict`, in the order the handler checks for them. */
  datatype UploadError = NoFileUploaded | NoFileSelected | InvalidFileType

  function ErrorMessage(e: UploadError): string
  {
    match e
    case NoFileUploaded => "No file uploaded"
    case NoFileSelected => "No file selected"
    case InvalidFileType => "Invalid file type. Please upload JPG, JPEG, or PNG"
  }

  /** HTTP status of every rejection by the check chain. */
  const BadRequest: nat := 400

  datatype Verdict = Accept(filename: string) | Reject(status: nat, message: string)

  /**
   * The check chain of `predict`. `fileField` is the filename of the request's
   * `file` part, `None` when the request has no such part. Only an `Accept`
   * leads on to saving the file and classifying it.
   */
  function CheckUpload(fileField: Option<string>): (v: Verdict)
    ensures v.Reject? ==> v.status == BadRequest
    ensures fileField.None? ==> v == Reject(BadRequest, ErrorMessage(NoFileUploaded))
    ensures fileField == Some("") ==> v == Reject(BadRequest, ErrorMessage(NoFileSelected))
    ensures v == Reject(BadRequest, ErrorMessage(InvalidFileType)) <==>
              fileField.Some? && fileField.value != "" && !AllowedFile(fileField.value)
    ensures v.Accept? <==> fileField.Some? && AllowedFile(fileField.value)
    ensures v.Accept? ==> fileField == Some(v.filename)
  {
    if fileField.None? then Reject(BadRequest, ErrorMessage(NoFileUploaded))
    else if fileField.value == "" then Reject(BadRequest, ErrorMessage(NoFileSelected))
    else if !AllowedFile(fileField.value) then Reject(BadRequest, ErrorMessage(InvalidFileType))
    else Accept(fileField.value)
  }

  /**
   * The empty name is reported as "No file selected" although it would also
   * fail the extension test: that check comes first.
   */
  lemma EmptyNameReportedBeforeExtension()
    ensures !AllowedFile("")
    ensures CheckUpload(Some("")) == Reject(BadRequest, "No file selected")
  {
  }
}
