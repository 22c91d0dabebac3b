/**
 * The resume routes: the upload check on the file extension and the stored file
 * name, the parse route's dispatch on the stored path's extension, and the save
 * route, which keeps at most one resume per user.
 */
module ResumeRoutes {
  import opened Wrappers
  import opened Text
  import opened Postings
  import opened ResumeParser

  const UploadDir := "uploads"
  const AllowedExtensions: set<string> := {".pdf", ".docx", ".doc"}

  /** `s.rfind(c)`: the index of the last `c`, or -1. */
  function LastIndex(s: string, c: char): (r: int)
    ensures -1 <= r < |s|
    ensures r >= 0 ==> s[r] == c
    ensures forall k :: r < k < |s| ==> s[k] != c
  {
    if s == [] then -1
    else if s[|s| - 1] == c then |s| - 1
    else LastIndex(s[..|s| - 1], c)
  }

  predicate NonDotIn(p: string, lo: int, hi: int)
    requires 0 <= lo && hi <= |p|
  {
    exists k :: lo <= k < hi && p[k] != '.'
  }

  /**
   * `os.path.splitext(p)`: the extension runs from the last dot of the final path
   * component, provided something other than a dot comes before it in that
   * component; otherwise it is empty.
   */
  function SplitExt(p: string): (r: (string, string))
    ensures r.0 + r.1 == p
  {
    var sep := LastIndex(p, '/');
    var dot := LastIndex(p, '.');
    if dot > sep && NonDotIn(p, sep + 1, dot) then (p[..dot], p[dot..]) else (p, "")
  }

  /** An extension is empty or a dot followed by neither a dot nor a slash. */
  lemma SplitExtShape(p: string)
    ensures var ext := SplitExt(p).1;
      ext == "" || (ext[0] == '.' && '.' !in ext[1..] && '/' !in ext)
  {
    var sep := LastIndex(p, '/');
    var dot := LastIndex(p, '.');
    if dot > sep && NonDotIn(p, sep + 1, dot) {
      var ext := p[dot..];
      forall k | 0 <= k < |ext| ensures ext[k] != '/' && (k > 0 ==> ext[k] != '.') {
        assert ext[k] == p[dot + k];
      }
    }
  }

  /** `validate_file_extension`: the lower-cased extension must be one of the three allowed. */
  predicate ValidExtension(filename: string) {
    Lower(SplitExt(filename).1) in AllowedExtensions
  }

  /** Where `LastIndex` lands when the character occurs at `j` and not after it. */
  lemma LastIndexAt(s: string, c: char, j: int)
    requires 0 <= j < |s| && s[j] == c && forall k :: j < k < |s| ==> s[k] != c
    ensures LastIndex(s, c) == j
  {
  }

  lemma LastIndexAbsent(s: string, c: char)
    requires c !in s
    ensures LastIndex(s, c) == -1
  {
  }

  /** The extension is read case-insensitively: "cv.PDF" is accepted. */
  lemma UpperCaseExtensionAccepted()
    ensures ValidExtension("cv.PDF")
  {
    var f := "cv.PDF";
    LastIndexAbsent(f, '/');
    LastIndexAt(f, '.', 2);
    assert f[0] != '.';
    assert SplitExt(f).1 == ".PDF";
    assert Lower(".PDF") == ".pdf";
  }

  /** Only the last extension counts: "cv.pdf.exe" is refused. */
  lemma LastExtensionCounts()
    ensures !ValidExtension("cv.pdf.exe")
  {
    var f := "cv.pdf.exe";
    LastIndexAbsent(f, '/');
    LastIndexAt(f, '.', 6);
    assert f[0] != '.';
    assert SplitExt(f).1 == ".exe";
    assert Lower(".exe") == ".exe";
  }

  /** A name that is only a dot and an extension has no extension: ".pdf" is refused. */
  lemma DotFileRefused()
    ensures !ValidExtension(".pdf")
  {
    var f := ".pdf";
    LastIndexAbsent(f, '/');
    LastIndexAt(f, '.', 0);
    assert SplitExt(f).1 == "";
  }

  datatype UploadResult =
    | InvalidFileType
    | CouldNotSave
    | Uploaded(filename: string, filePath: string)

  /** `upload_resume`, given the generated uuid and whether writing the file succeeded. */
  function Upload(filename: string, uuid: string, written: bool): UploadResult {
    if !ValidExtension(filename) then InvalidFileType
    else
      var uniqueFilename := uuid + SplitExt(filename).1;
      if !written then CouldNotSave
      else Uploaded(uniqueFilename, UploadDir + "/" + uniqueFilename)
  }

  /** A uuid string: non-empty hexadecimal groups and hyphens, so no dot and no slash. */
  predicate UuidLike(uuid: string) {
    uuid != [] && '.' !in uuid && '/' !in uuid
  }

  /** The stored path keeps the uploaded file's extension, so an accepted upload is stored under "uploads/". */
  lemma UploadKeepsExtension(filename: string, uuid: string)
    requires UuidLike(uuid)
    ensures var ext := SplitExt(filename).1;
      SplitExt(UploadDir + "/" + (uuid + ext)).1 == ext
  {
    var ext := SplitExt(filename).1;
    SplitExtShape(filename);
    var path := UploadDir + "/" + (uuid + ext);
    var sep := |UploadDir|;
    assert path[sep] == '/';
    forall k | sep < k < |path| ensures path[k] != '/' {
      if k < sep + 1 + |uuid| {
        assert path[k] == uuid[k - sep - 1];
      } else {
        assert path[k] == ext[k - sep - 1 - |uuid|];
      }
    }
    LastIndexAt(path, '/', sep);
    if ext == "" {
      assert path == "uploads/" + uuid;
      forall k | 0 <= k < |path| ensures path[k] != '.' {
        if k > sep {
          assert path[k] == uuid[k - sep - 1];
        }
      }
      LastIndexAbsent(path, '.');
    } else {
      var dot := sep + 1 + |uuid|;
      assert path[dot] == ext[0] == '.';
      forall k | dot < k < |path| ensures path[k] != '.' {
        assert path[k] == ext[k - dot];
        assert ext[k - dot] == ext[1..][k - dot - 1];
      }
      LastIndexAt(path, '.', dot);
      assert path[sep + 1] == uuid[0] != '.';
      assert NonDotIn(path, sep + 1, dot);
      assert path[dot..] == ext;
    }
  }

  /** An accepted upload is stored under "uploads/" with the original extension; a refused one stores nothing. */
  lemma UploadSpec(filename: string, uuid: string, written: bool)
    requires UuidLike(uuid)
    ensures Upload(filename, uuid, written).Uploaded? <==> ValidExtension(filename) && written
    ensures var r := Upload(filename, uuid, written);
      r.Uploaded? ==> (
        && r.filePath == "uploads/" + r.filename && ValidExtension(r.filePath)
        && SplitExt(r.filePath).1 == SplitExt(filename).1)
  {
    if ValidExtension(filename) && written {
      UploadKeepsExtension(filename, uuid);
      var ext := SplitExt(filename).1;
      assert UploadDir + "/" == "uploads/";
    }
  }

  /** The outcome of `parse_resume`: 404, 500 "Parsing failed", or the parsed data. */
  datatype ParseResult = FileNotFound | ParsingFailed | ParsedOk(data: ParsedResume)

  /**
   * `parse_resume` on a stored path, given whether the path exists, what the PDF and
   * DOCX readers make of the file (`None` when the reader raises), and the entities.
   * The 400 for an unsupported extension is raised inside the `try` and so comes
   * out as a 500 like any reader failure.
   */
  function ParseRoute(path: string, onDisk: bool, pdf: Option<seq<Option<string>>>, docx: Option<seq<string>>,
                      ents: Option<seq<Entity>>): ParseResult
  {
    if !onDisk then FileNotFound
    else
      var ext := Lower(SplitExt(path).1);
      if ext == ".pdf" then
        if pdf.Some? then ParsedOk(Parse(PdfText(pdf.value), ents)) else ParsingFailed
      else if ext == ".docx" || ext == ".doc" then
        if docx.Some? then ParsedOk(Parse(Join(docx.value, "\n"), ents)) else ParsingFailed
      else ParsingFailed
  }

  /** An existing file whose readers succeed parses exactly when its extension is allowed; a missing one is a 404. */
  lemma ParseDispatch(path: string, pdf: Option<seq<Option<string>>>, docx: Option<seq<string>>, ents: Option<seq<Entity>>)
    requires pdf.Some? && docx.Some?
    ensures ParseRoute(path, true, pdf, docx, ents).ParsedOk? <==> ValidExtension(path)
    ensures ParseRoute(path, false, pdf, docx, ents) == FileNotFound
  {
    var ext := Lower(SplitExt(path).1);
    assert ext in AllowedExtensions <==> ext == ".pdf" || ext == ".docx" || ext == ".doc";
  }

  /** ".pdf" files go to the PDF reader and ".docx"/".doc" files to the DOCX reader; a reader failure is a 500. */
  lemma ParseReaders(path: string, pdf: Option<seq<Option<string>>>, docx: Option<seq<string>>, ents: Option<seq<Entity>>)
    ensures Lower(SplitExt(path).1) == ".pdf" ==>
      ParseRoute(path, true, pdf, docx, ents) == (if pdf.Some? then ParsedOk(Parse(PdfText(pdf.value), ents)) else ParsingFailed)
    ensures Lower(SplitExt(path).1) in {".docx", ".doc"} ==>
      ParseRoute(path, true, pdf, docx, ents) == (if docx.Some? then ParsedOk(Parse(Join(docx.value, "\n"), ents)) else ParsingFailed)
  {
  }

  /** A path the upload route returned is never refused for its format by the parse route. */
  lemma UploadThenParse(filename: string, uuid: string, pdf: Option<seq<Option<string>>>, docx: Option<seq<string>>,
                        ents: Option<seq<Entity>>)
    requires UuidLike(uuid) && pdf.Some? && docx.Some?
    requires Upload(filename, uuid, true).Uploaded?
    ensures ParseRoute(Upload(filename, uuid, true).filePath, true, pdf, docx, ents).ParsedOk?
  {
    UploadSpec(filename, uuid, true);
    ParseDispatch(Upload(filename, uuid, true).filePath, pdf, docx, ents);
  }

  // ---------------------------------------------------------------- save

  /** The body of a save request: the parsed fields and the stored file's path. */
  datatype ResumeFields = ResumeFields(
    name: Option<string>, email: Option<string>, phone: Option<string>, location: Option<string>,
    skills: seq<string>, experience: seq<string>, education: seq<string>, certifications: seq<string>,
    filePath: string)

  /** A document of `resumes`; `id` stands for its `_id`. */
  datatype StoredResume = StoredResume(id: nat, userId: string, fields: ResumeFields, createdAt: Instant)

  /** The index of the first resume of the user, as `find_one` sees it, or -1. */
  function FindResume(resumes: seq<StoredResume>, userId: string): (r: int)
    ensures -1 <= r < |resumes|
    ensures r >= 0 ==> resumes[r].userId == userId
    ensures forall k :: 0 <= k < |resumes| && (r == -1 || k < r) ==> resumes[k].userId != userId
  {
    if resumes == [] then -1
    else if resumes[0].userId == userId then 0
    else
      var r := FindResume(resumes[1..], userId);
      if r == -1 then -1 else r + 1
  }

  /** One resume per user, and distinct ids below the next one. */
  predicate OnePerUser(resumes: seq<StoredResume>, nextId: nat) {
    && (forall i, j :: 0 <= i < j < |resumes| ==> resumes[i].userId != resumes[j].userId)
    && (forall i :: 0 <= i < |resumes| ==> resumes[i].id < nextId)
    && (forall i, j :: 0 <= i < j < |resumes| ==> resumes[i].id != resumes[j].id)
  }

  /** The collection after `save_resume` by `userId` at clock reading `now`, and the index of the saved document. */
  function Saved(resumes: seq<StoredResume>, nextId: nat, userId: string, fields: ResumeFields, now: Instant): (seq<StoredResume>, nat, nat)
  {
    var i := FindResume(resumes, userId);
    if i >= 0 then
      (resumes[i := StoredResume(resumes[i].id, userId, fields, now)], nextId, i)
    else
      (resumes + [StoredResume(nextId, userId, fields, now)], nextId + 1, |resumes|)
  }

  /**
   * After a save the user has exactly one resume, holding the request's fields and
   * created now; an existing one keeps its id, a first one gets a fresh id; other
   * users' resumes are untouched.
   */
  lemma SaveSpec(resumes: seq<StoredResume>, nextId: nat, userId: string, fields: ResumeFields, now: Instant)
    requires OnePerUser(resumes, nextId)
    ensures var (rs, n, i) := Saved(resumes, nextId, userId, fields, now);
      && OnePerUser(rs, n)
      && i < |rs| && rs[i].userId == userId && rs[i].fields == fields && rs[i].createdAt == now
      && (forall k :: 0 <= k < |rs| && rs[k].userId == userId ==> k == i)
      && (FindResume(resumes, userId) >= 0 ==> |rs| == |resumes| && rs[i].id == resumes[i].id)
      && (FindResume(resumes, userId) < 0 ==> |rs| == |resumes| + 1 && rs[i].id == nextId)
      && (forall k :: 0 <= k < |resumes| && resumes[k].userId != userId ==> rs[k] == resumes[k])
  {
    var (rs, n, i) := Saved(resumes, nextId, userId, fields, now);
    if FindResume(resumes, userId) < 0 {
      assert forall k :: 0 <= k < |resumes| ==> rs[k] == resumes[k];
    }
  }

  /** Saving the same request twice at the same instant leaves what one save leaves. */
  lemma SaveIdempotent(resumes: seq<StoredResume>, nextId: nat, userId: string, fields: ResumeFields, now: Instant)
    requires OnePerUser(resumes, nextId)
    ensures var (rs, n, i) := Saved(resumes, nextId, userId, fields, now);
      Saved(rs, n, userId, fields, now) == (rs, n, i)
  {
    var (rs, n, i) := Saved(resumes, nextId, userId, fields, now);
    SaveSpec(resumes, nextId, userId, fields, now);
    assert FindResume(rs, userId) == i;
    assert rs[i := StoredResume(rs[i].id, userId, fields, now)] == rs;
  }

  /** The `resumes` collection; `nextId` stands for the supply of fresh `_id`s. */
  class ResumeStore {
    var resumes: seq<StoredResume>
    var nextId: nat

    ghost predicate Valid()
      reads this
    {
      OnePerUser(resumes, nextId)
    }

    constructor ()
      ensures resumes == [] && nextId == 0
      ensures Valid()
    {
      resumes := [];
      nextId := 0;
    }

    /** `save_resume`: update the user's resume in place, or insert a first one, and return the stored document. */
    method SaveResume(userId: string, fields: ResumeFields, now: Instant) returns (saved: StoredResume)
      requires Valid()
      modifies this
      ensures var (rs, n, i) := Saved(old(resumes), old(nextId), userId, fields, now);
        resumes == rs && nextId == n && saved == rs[i]
      ensures Valid()
    {
      SaveSpec(resumes, nextId, userId, fields, now);
      var existing := FindResume(resumes, userId);
      var resumeId: nat;
      if existing >= 0 {
        resumes := resumes[existing := StoredResume(resumes[existing].id, userId, fields, now)];
        resumeId := existing;
      } else {
        resumes := resumes + [StoredResume(nextId, userId, fields, now)];
        nextId := nextId + 1;
        resumeId := |resumes| - 1;
      }
      saved := resumes[resumeId];
    }
  }
}
