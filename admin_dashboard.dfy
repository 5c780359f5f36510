/**
 * The admin dashboard of `client/src/components/AdminDashboard.jsx`: the folder
 * list with its create, delete and per-folder image upload handlers, and the
 * bulk user registration from a spreadsheet (`handleExcelFileChange` and
 * `handleExcelUpload`), whose row mapping and validation are `BulkImport`.
 */
module AdminDashboardPage {
  import opened Wrappers
  import opened Text
  import opened Entities
  import opened Http
  import opened Api
  import opened ListOps
  import opened BulkImport

  const CreateFolderUrl := "/api/folder/create"
  const FolderUrlPrefix := "/api/folder/"
  const FileUploadUrlPrefix := "/api/folder/upload/"
  const UsersUploadUrl := "/api/folder/users/upload"
  const XlsxType := "application/vnd.openxmlformats-officedocument.spreadsheetml.sheet"
  const XlsType := "application/vnd.ms-excel"
  const AnyFallback := "An error occurred"
  const NoFilesSelected := "Please select files to upload"
  const WrongFileType := "Please upload only Excel files (.xlsx or .xls)"
  const NoExcelFile := "Please select an Excel file first"
  const ReaderFallback := "Error uploading file. Please try again."
  const ProcessingFallback := "Error processing Excel file. Please check the format."
  const ValidationHeading := "Validation errors:"

  /** `uploadProgress` holds either the spreadsheet import's percentage or, once an
      image upload has started, an object of per-folder percentages (the code
      stores both kinds in the same state). */
  datatype Progress = Percent(percent: int) | PerFolder(entries: map<string, int>)

  /** `{...uploadProgress}`: spreading a number gives no entries. */
  function Spread(p: Progress): map<string, int>
  {
    match p
    case Percent(_) => map[]
    case PerFolder(entries) => entries
  }

  /** The percentages a progress bar has shown, oldest first: `Then(earlier, p)`
      is `earlier` followed by `p`. */
  datatype ProgressTrace = NoProgress | Then(earlier: ProgressTrace, percent: int)

  datatype StatusKind = Success | Error

  /** `uploadStatus`: its `type`, its `message` and the optional `details` list. */
  datatype Status = Status(kind: StatusKind, message: string, details: Option<seq<string>>)

  /** `response.data` of a folder creation. */
  datatype CreateData = CreateData(folder: Folder)

  /** What `onload` of the `FileReader` gets to see:
      - `ReaderThrew`: starting the read throws (the outer `catch`);
      - `NeverLoaded`: `onload` never runs (the code has no `onerror`);
      - `WorkbookUnreadable`: `XLSX.read` throws;
      - `SheetUnreadable`: reading the first sheet as rows throws;
      - `Parsed(rows)`: the first sheet's rows. */
  datatype SheetRead = ReaderThrew | NeverLoaded | WorkbookUnreadable | SheetUnreadable | Parsed(rows: seq<Row>)

  /** The two spreadsheet MIME types the file input accepts. */
  predicate IsExcelType(mimeType: string)
  {
    mimeType == XlsxType || mimeType == XlsType
  }

  /** `api.post("/api/folder/create", { name })`: the folder name and nothing else. */
  function CreateFolderRequest(name: string): (r: Request)
    ensures r.verb == "POST" && r.url == CreateFolderUrl
    ensures r.body.Fields? && r.body.fields.Keys == {"name"} && r.body.fields["name"] == name
    ensures AuthorizationHeader !in r.headers
  {
    ApiRequest("POST", CreateFolderUrl, Fields(map["name" := name]))
  }

  /** `api.delete(`/api/folder/${folderId}`)`: the folder's URL and no body. */
  function DeleteFolderRequest(folderId: string): (r: Request)
    ensures r.verb == "DELETE" && r.url == FolderUrlPrefix + folderId
    ensures r.body == NoBody
    ensures AuthorizationHeader !in r.headers
  {
    ApiRequest("DELETE", FolderUrlPrefix + folderId, NoBody)
  }

  /** The multipart upload of the selected images: one `images` entry per file. */
  function FileUploadRequest(folderId: string, files: seq<FileRef>): (r: Request)
    ensures r.verb == "POST" && r.url == FileUploadUrlPrefix + folderId
    ensures "Content-Type" in r.headers && r.headers["Content-Type"] == "multipart/form-data"
    ensures r.body.Files? && |r.body.files| == |files|
    ensures forall k :: 0 <= k < |files| ==> r.body.files[k] == files[k].name
  {
    Request("POST", FileUploadUrlPrefix + folderId, InstanceHeaders["Content-Type" := "multipart/form-data"],
            Files(seq(|files|, k requires 0 <= k < |files| => files[k].name)))
  }

  /** The JSON array of the import request, one record per user, in order: each
      record carries that user's five fields. */
  function ImportRecords(users: seq<CandidateUser>): (r: seq<map<string, string>>)
    ensures |r| == |users|
    ensures forall k :: 0 <= k < |users| ==>
              && r[k].Keys == {"username", "email", "password", "phone", "role"}
              && r[k]["username"] == users[k].username && r[k]["email"] == users[k].email
              && r[k]["password"] == users[k].password && r[k]["phone"] == users[k].phone
              && r[k]["role"] == users[k].role
  {
    seq(|users|, k requires 0 <= k < |users| => ToRecord(users[k]))
  }

  /** The import request: a JSON array with one record per user, in order. */
  function ImportRequest(users: seq<CandidateUser>): (r: Request)
    ensures r.verb == "POST" && r.url == UsersUploadUrl
    ensures r.body.Records? && |r.body.records| == |users|
    ensures forall k :: 0 <= k < |users| ==> r.body.records[k] == ToRecord(users[k])
    ensures AuthorizationHeader !in r.headers
  {
    ApiRequest("POST", UsersUploadUrl, Records(ImportRecords(users)))
  }

  /** `Successfully registered ${users.length} users` */
  function RegisteredMessage(count: nat): string
  {
    "Successfully registered " + NatToString(count) + " users"
  }

  /** What the import of a parsed sheet decides before anything is sent: reject
      the sheet with its violations, or submit its users. */
  datatype ImportPlan = Reject(violations: seq<string>) | Submit(users: seq<CandidateUser>)

  function PlanImport(rows: seq<Row>): ImportPlan
  {
    var users := NormaliseAll(rows);
    var violations := AllViolations(users);
    if violations == [] then Submit(users) else Reject(violations)
  }

  /** The row mapping loop and the submit gate of `handleExcelUpload`: the rows
      are normalised and validated one by one, and the sheet is rejected with every
      violation collected as soon as there is one. */
  method GateSheet(rows: seq<Row>) returns (plan: ImportPlan)
    ensures plan == PlanImport(rows)
  {
    var users, violations := MapAndValidate(rows);
    if |violations| > 0 {
      return Reject(violations);
    }
    return Submit(users);
  }

  /** The import is all or nothing: the sheet is submitted exactly when every row
      passes every check, and then it carries one user per row, in row order;
      otherwise the rejection lists exactly the failed checks of every row: each
      failed check's message once, and nothing else. */
  lemma ImportAllOrNothing(rows: seq<Row>)
    ensures PlanImport(rows).Submit? <==> forall k :: 0 <= k < |rows| ==> Acceptable(NormaliseRow(rows[k]))
    ensures PlanImport(rows).Submit? ==>
              var users := PlanImport(rows).users;
              |users| == |rows| && forall k :: 0 <= k < |rows| ==> users[k] == NormaliseRow(rows[k])
    ensures PlanImport(rows).Reject? ==>
              var violations := PlanImport(rows).violations;
              && violations != []
              && (forall k: nat, rule ::
                    Message(k, rule) in violations <==> k < |rows| && Violates(NormaliseRow(rows[k]), rule))
              && (forall m :: m in violations ==>
                    exists k: nat, rule :: k < |rows| && m == Message(k, rule) && Violates(NormaliseRow(rows[k]), rule))
              && NoRepeats(violations)
  {
    var users := NormaliseAll(rows);
    NoViolationsIff(users);
    NormaliseAllPointwise(rows);
    forall k: nat, rule
      ensures Message(k, rule) in AllViolations(users) <==> k < |rows| && Violates(NormaliseRow(rows[k]), rule)
    {
      ViolationsExact(users, k, rule);
    }
    ViolationsNamed(users);
    ViolationsNoRepeats(users);
    forall m | m in AllViolations(users)
      ensures exists k: nat, rule :: k < |rows| && m == Message(k, rule) && Violates(NormaliseRow(rows[k]), rule)
    {
      assert Named(users, m);
      var k: nat, rule :| k < |users| && m == Message(k, rule) && Violates(users[k], rule);
    }
  }

  /** `folders.filter((folder) => folder._id !== folderId)` */
  function RemoveFolder(folders: seq<Folder>, folderId: string): (r: seq<Folder>)
    ensures |r| <= |folders|
    ensures forall f :: f in r <==> f in folders && f.id != folderId
  {
    Filter(folders, (f: Folder) => f.id != folderId)
  }

  /** Deleting a folder just created gives the list as it was, less any folder of
      the same id. */
  lemma DeleteUndoesCreate(folders: seq<Folder>, created: Folder)
    ensures RemoveFolder(folders + [created], created.id) == RemoveFolder(folders, created.id)
  {
    FilterConcat(folders, [created], (f: Folder) => f.id != created.id);
    assert Filter([created], (f: Folder) => f.id != created.id) == [];
  }

  class AdminDashboard {
    var folders: seq<Folder>
    var folderName: string
    var selectedFiles: map<string, seq<FileRef>>
    var uploading: map<string, bool>
    var error: Option<string>
    var excelFile: Option<FileRef>
    var uploadProgress: Progress
    var uploadStatus: Option<Status>
    /** Every value the spreadsheet import has given `uploadProgress`, in order. */
    ghost var progressHistory: ProgressTrace

    constructor ()
      ensures folders == [] && folderName == "" && selectedFiles == map[] && uploading == map[]
      ensures error == None && excelFile == None && uploadProgress == PerFolder(map[])
      ensures uploadStatus == None && progressHistory == NoProgress
    {
      folders, folderName, selectedFiles, uploading := [], "", map[], map[];
      error, excelFile, uploadProgress, uploadStatus := None, None, PerFolder(map[]), None;
      progressHistory := NoProgress;
    }

    /** `fetchFolders`: on success the list is the server's and the error is
        cleared; on failure the server's `message` or the fallback is shown. */
    method FetchFolders(b: Browser, ex: Exchange<seq<Folder>>)
      modifies this, b
      ensures var e := Dispatch(old(b.store), FolderListRequest(), ex);
              && b.log == old(b.log) + e.calls && b.store == e.store
              && b.route == (if e.loggedOut then LoginRoute else old(b.route))
              && (e.result.Ok? ==> folders == e.result.data && error == None)
              && (e.result.Fail? ==> folders == old(folders) && error == Some(e.result.error.MessageOr(AnyFallback)))
      ensures folderName == old(folderName) && selectedFiles == old(selectedFiles) && uploading == old(uploading)
      ensures excelFile == old(excelFile) && uploadProgress == old(uploadProgress) && uploadStatus == old(uploadStatus)
      ensures progressHistory == old(progressHistory)
    {
      var response := b.Send(FolderListRequest(), ex);
      match response {
        case Ok(data) =>
          folders := data;
          error := None;
        case Fail(err) =>
          error := Some(err.MessageOr(AnyFallback));
      }
    }

    /** `createFolder`: the typed name goes out; on success the server's new folder
        is appended, the name field is emptied and the error cleared; on failure
        the server's `message` or the fallback is shown. */
    method CreateFolder(b: Browser, ex: Exchange<CreateData>)
      modifies this, b
      ensures var e := Dispatch(old(b.store), CreateFolderRequest(old(folderName)), ex);
              && b.log == old(b.log) + e.calls && b.store == e.store
              && b.route == (if e.loggedOut then LoginRoute else old(b.route))
              && (e.result.Ok? ==>
                    folders == old(folders) + [e.result.data.folder] && folderName == "" && error == None)
              && (e.result.Fail? ==>
                    && folders == old(folders) && folderName == old(folderName)
                    && error == Some(e.result.error.MessageOr(AnyFallback)))
      ensures selectedFiles == old(selectedFiles) && uploading == old(uploading) && excelFile == old(excelFile)
      ensures uploadProgress == old(uploadProgress) && uploadStatus == old(uploadStatus)
      ensures progressHistory == old(progressHistory)
    {
      var response := b.Send(CreateFolderRequest(folderName), ex);
      match response {
        case Ok(data) =>
          folders := folders + [data.folder];
          folderName := "";
          error := None;
        case Fail(err) =>
          error := Some(err.MessageOr(AnyFallback));
      }
    }

    /** `handleDeleteFolder`: on success exactly the folders of that id leave the
        list, the others keep their order; on failure the list stays and the
        server's `message` or the fallback is shown. */
    method HandleDeleteFolder(b: Browser, folderId: string, ex: Exchange<()>)
      modifies this, b
      ensures var e := Dispatch(old(b.store), DeleteFolderRequest(folderId), ex);
              && b.log == old(b.log) + e.calls && b.store == e.store
              && b.route == (if e.loggedOut then LoginRoute else old(b.route))
              && (e.result.Ok? ==> folders == RemoveFolder(old(folders), folderId) && error == old(error))
              && (e.result.Fail? ==>
                    folders == old(folders) && error == Some(e.result.error.MessageOr(AnyFallback)))
      ensures folderName == old(folderName) && selectedFiles == old(selectedFiles) && uploading == old(uploading)
      ensures excelFile == old(excelFile) && uploadProgress == old(uploadProgress) && uploadStatus == old(uploadStatus)
      ensures progressHistory == old(progressHistory)
    {
      var response := b.Send(DeleteFolderRequest(folderId), ex);
      match response {
        case Ok(_) =>
          folders := RemoveFolder(folders, folderId);
        case Fail(err) =>
          error := Some(err.MessageOr(AnyFallback));
      }
    }

    /** `handleFileSelect`: the files picked for a folder replace that folder's
        selection; every other folder's selection stays. */
    method HandleFileSelect(folderId: string, files: seq<FileRef>)
      modifies this
      ensures selectedFiles == old(selectedFiles)[folderId := files]
      ensures folders == old(folders) && folderName == old(folderName) && uploading == old(uploading)
      ensures error == old(error) && excelFile == old(excelFile) && uploadProgress == old(uploadProgress)
      ensures uploadStatus == old(uploadStatus) && progressHistory == old(progressHistory)
    {
      selectedFiles := selectedFiles[folderId := files];
    }

    /** `handleFileUpload`, given the answers to the upload and to the list fetch
        that follows a successful one:
        - with no file selected for the folder, the page says so and sends nothing;
        - otherwise the folder's progress starts at 0 and the selection goes out
          in one multipart request; on success the folder's selection is emptied
          and the list is fetched again (as `FetchFolders` says); on failure the
          server's `message` or the fallback is shown;
        - in the end the folder is marked as not uploading, on top of the
          `uploading` map as it was before the call (the `finally` block sees the
          state of the render that started the upload). */
    method HandleFileUpload(b: Browser, folderId: string, ex: Exchange<()>, refetch: Exchange<seq<Folder>>)
      modifies this, b
      ensures folderId !in old(selectedFiles) || old(selectedFiles)[folderId] == [] ==>
                && error == Some(NoFilesSelected)
                && folders == old(folders) && selectedFiles == old(selectedFiles) && uploading == old(uploading)
                && uploadProgress == old(uploadProgress)
                && b.log == old(b.log) && b.store == old(b.store) && b.route == old(b.route)
      ensures folderId in old(selectedFiles) && old(selectedFiles)[folderId] != [] ==>
                var e := Dispatch(old(b.store), FileUploadRequest(folderId, old(selectedFiles)[folderId]), ex);
                && uploading == old(uploading)[folderId := false]
                && uploadProgress == PerFolder(Spread(old(uploadProgress))[folderId := 0])
                && (e.result.Fail? ==>
                      && b.log == old(b.log) + e.calls && b.store == e.store
                      && b.route == (if e.loggedOut then LoginRoute else old(b.route))
                      && folders == old(folders) && selectedFiles == old(selectedFiles)
                      && error == Some(e.result.error.MessageOr(AnyFallback)))
                && (e.result.Ok? ==>
                      var f := Dispatch(e.store, FolderListRequest(), refetch);
                      && b.log == old(b.log) + e.calls + f.calls && b.store == f.store
                      && b.route == (if e.loggedOut || f.loggedOut then LoginRoute else old(b.route))
                      && selectedFiles == old(selectedFiles)[folderId := []]
                      && (f.result.Ok? ==> folders == f.result.data && error == None)
                      && (f.result.Fail? ==>
                            folders == old(folders) && error == Some(f.result.error.MessageOr(AnyFallback))))
      ensures folderName == old(folderName) && excelFile == old(excelFile) && uploadStatus == old(uploadStatus)
      ensures progressHistory == old(progressHistory)
    {
      if folderId !in selectedFiles || selectedFiles[folderId] == [] {
        error := Some(NoFilesSelected);
        return;
      }
      var uploadingBefore := uploading;
      uploading := uploading[folderId := true];
      uploadProgress := PerFolder(Spread(uploadProgress)[folderId := 0]);
      error := None;
      var response := b.Send(FileUploadRequest(folderId, selectedFiles[folderId]), ex);
      match response {
        case Ok(_) =>
          selectedFiles := selectedFiles[folderId := []];
          FetchFolders(b, refetch);
        case Fail(err) =>
          error := Some(err.MessageOr(AnyFallback));
      }
      uploading := uploadingBefore[folderId := false];
    }

    /** `handleExcelFileChange`, given the first picked file if any: a spreadsheet
        becomes the file to import, with the status cleared and the progress at 0;
        any other file only sets the error status and keeps the previous file; no
        file changes nothing. */
    method HandleExcelFileChange(file: Option<FileRef>)
      modifies this
      ensures file.None? ==>
                excelFile == old(excelFile) && uploadStatus == old(uploadStatus) && uploadProgress == old(uploadProgress)
      ensures file.Some? && IsExcelType(file.value.mimeType) ==>
                excelFile == file && uploadStatus == None && uploadProgress == Percent(0)
      ensures file.Some? && !IsExcelType(file.value.mimeType) ==>
                && excelFile == old(excelFile) && uploadProgress == old(uploadProgress)
                && uploadStatus == Some(Status(Error, WrongFileType, None))
      ensures folders == old(folders) && selectedFiles == old(selectedFiles) && uploading == old(uploading)
      ensures error == old(error) && folderName == old(folderName) && progressHistory == old(progressHistory)
    {
      if file.Some? {
        if IsExcelType(file.value.mimeType) {
          excelFile := file;
          uploadStatus := None;
          uploadProgress := Percent(0);
        } else {
          uploadStatus := Some(Status(Error, WrongFileType, None));
        }
      }
    }

    /** `handleExcelUpload`, given what reading the file produces and the server's
        answers to the import request:
        - with no file chosen, the error status says so and nothing else happens;
        - otherwise the progress goes to 10; a read that throws sets the error
          status and the progress back to 0, a read that never completes leaves
          the progress at 10, and a sheet that cannot be parsed sets the
          processing error and the progress back to 0 (after 30 when the workbook
          itself was read);
        - a parsed sheet is imported as `SheetOutcome` says. */
    method HandleExcelUpload(b: Browser, read: SheetRead, ex: Exchange<()>)
      modifies this, b
      ensures old(excelFile).None? ==>
                && uploadStatus == Some(Status(Error, NoExcelFile, None))
                && excelFile == old(excelFile) && uploadProgress == old(uploadProgress)
                && progressHistory == old(progressHistory)
                && b.log == old(b.log) && b.store == old(b.store) && b.route == old(b.route)
      ensures old(excelFile).Some? && !read.Parsed? ==>
                && excelFile == old(excelFile)
                && b.log == old(b.log) && b.store == old(b.store) && b.route == old(b.route)
                && (read.ReaderThrew? ==>
                      && uploadStatus == Some(Status(Error, ReaderFallback, None))
                      && uploadProgress == Percent(0) && progressHistory == Then(Then(old(progressHistory), 10), 0))
                && (read.NeverLoaded? ==>
                      && uploadStatus == old(uploadStatus)
                      && uploadProgress == Percent(10) && progressHistory == Then(old(progressHistory), 10))
                && (read.WorkbookUnreadable? ==>
                      && uploadStatus == Some(Status(Error, ProcessingFallback, None))
                      && uploadProgress == Percent(0) && progressHistory == Then(Then(old(progressHistory), 10), 0))
                && (read.SheetUnreadable? ==>
                      && uploadStatus == Some(Status(Error, ProcessingFallback, None))
                      && uploadProgress == Percent(0) && progressHistory == Then(Then(Then(old(progressHistory), 10), 30), 0))
      ensures old(excelFile).Some? && read.Parsed? ==>
                SheetOutcome(read.rows, ex, old(b.store), old(b.log), old(b.route), old(excelFile),
                             Then(old(progressHistory), 10), b.store, b.log, b.route)
      ensures folders == old(folders) && selectedFiles == old(selectedFiles) && uploading == old(uploading)
      ensures error == old(error) && folderName == old(folderName)
    {
      if excelFile.None? {
        uploadStatus := Some(Status(Error, NoExcelFile, None));
        return;
      }
      ShowReading();
      if read.Parsed? {
        ImportSheet(b, read.rows, ex);
      } else {
        ShowReadFailure(read);
      }
    }

    /** The file is being read (progress 10). */
    method ShowReading()
      modifies this
      ensures uploadProgress == Percent(10) && progressHistory == Then(old(progressHistory), 10)
      ensures folders == old(folders) && folderName == old(folderName) && selectedFiles == old(selectedFiles)
      ensures uploading == old(uploading) && error == old(error) && excelFile == old(excelFile)
      ensures uploadStatus == old(uploadStatus)
    {
      uploadProgress := Percent(10);
      progressHistory := Then(progressHistory, 10);
    }

    /** A sheet that could not be read: the error status and progress each kind of
        failure leaves, and no request. */
    method ShowReadFailure(read: SheetRead)
      requires !read.Parsed?
      modifies this
      ensures read.ReaderThrew? ==>
                && uploadStatus == Some(Status(Error, ReaderFallback, None))
                && uploadProgress == Percent(0) && progressHistory == Then(old(progressHistory), 0)
      ensures read.NeverLoaded? ==>
                uploadStatus == old(uploadStatus) && uploadProgress == old(uploadProgress)
                && progressHistory == old(progressHistory)
      ensures read.WorkbookUnreadable? ==>
                && uploadStatus == Some(Status(Error, ProcessingFallback, None))
                && uploadProgress == Percent(0) && progressHistory == Then(old(progressHistory), 0)
      ensures read.SheetUnreadable? ==>
                && uploadStatus == Some(Status(Error, ProcessingFallback, None))
                && uploadProgress == Percent(0) && progressHistory == Then(Then(old(progressHistory), 30), 0)
      ensures folders == old(folders) && selectedFiles == old(selectedFiles) && uploading == old(uploading)
      ensures error == old(error) && excelFile == old(excelFile) && folderName == old(folderName)
    {
      match read {
        case ReaderThrew =>
          uploadStatus := Some(Status(Error, ReaderFallback, None));
          uploadProgress := Percent(0);
          progressHistory := Then(progressHistory, 0);
        case NeverLoaded =>
        case WorkbookUnreadable =>
          uploadStatus := Some(Status(Error, ProcessingFallback, None));
          uploadProgress := Percent(0);
          progressHistory := Then(progressHistory, 0);
        case SheetUnreadable =>
          uploadProgress := Percent(30);
          progressHistory := Then(progressHistory, 30);
          uploadStatus := Some(Status(Error, ProcessingFallback, None));
          uploadProgress := Percent(0);
          progressHistory := Then(progressHistory, 0);
      }
    }

    /** The `onload` callback of `handleExcelUpload` on a parsed sheet: the
        progress passes 30 and 50, and the rows go through the mapping loop and the
        submit gate (`GateSheet`) before the plan is carried out. */
    method ImportSheet(b: Browser, rows: seq<Row>, ex: Exchange<()>)
      modifies this, b
      ensures SheetOutcome(rows, ex, old(b.store), old(b.log), old(b.route), old(excelFile), old(progressHistory),
                           b.store, b.log, b.route)
      ensures folders == old(folders) && selectedFiles == old(selectedFiles) && uploading == old(uploading)
      ensures error == old(error) && folderName == old(folderName)
    {
      ShowParsed();
      var plan := GateSheet(rows);
      ApplyPlan(b, plan, ex);
    }

    /** The workbook was read (progress 30) and its first sheet turned into rows
        (progress 50). */
    method ShowParsed()
      modifies this
      ensures uploadProgress == Percent(50) && progressHistory == Then(Then(old(progressHistory), 30), 50)
      ensures folders == old(folders) && folderName == old(folderName) && selectedFiles == old(selectedFiles)
      ensures uploading == old(uploading) && error == old(error) && excelFile == old(excelFile)
      ensures uploadStatus == old(uploadStatus)
    {
      uploadProgress := Percent(30);
      progressHistory := Then(progressHistory, 30);
      uploadProgress := Percent(50);
      progressHistory := Then(progressHistory, 50);
    }

    /** The state after the `onload` callback on the parsed `rows`: the progress
        passes 30 and 50, and the plan `PlanImport` makes of the rows is carried
        out as `ImportOutcome` says. */
    ghost predicate SheetOutcome(rows: seq<Row>, ex: Exchange<()>, store0: Store, log0: seq<Call>, route0: string,
                                 file0: Option<FileRef>, history0: ProgressTrace,
                                 store: Store, log: seq<Call>, route: string)
      reads this
    {
      ImportOutcome(PlanImport(rows), ex, store0, log0, route0, file0, Then(Then(history0, 30), 50), store, log, route)
    }

    /** The state after carrying out `plan`, starting from the browser
        state `store0`, `log0`, `route0`, the chosen file `file0` and the progress
        values `history0` set so far; `store`, `log` and `route` are the browser's
        state afterwards:
        - a sheet with any violation gets the error status "Validation errors:"
          with every violation as its details, the progress back to 0, and
          nothing is sent;
        - otherwise the progress reaches 70 and one gateway request carries every
          user; on success the progress reaches 100, the status reports how many
          users were registered and the chosen file is cleared; on failure the
          status is the server's `message` or the processing error and the
          progress goes back to 0. */
    ghost predicate ImportOutcome(plan: ImportPlan, ex: Exchange<()>, store0: Store, log0: seq<Call>, route0: string,
                                  file0: Option<FileRef>, history0: ProgressTrace,
                                  store: Store, log: seq<Call>, route: string)
      reads this
    {
      match plan
      case Reject(violations) =>
        && uploadStatus == Some(Status(Error, ValidationHeading, Some(violations)))
        && uploadProgress == Percent(0) && progressHistory == Then(history0, 0)
        && excelFile == file0 && store == store0 && log == log0 && route == route0
      case Submit(users) =>
        SubmitOutcome(users, ex, store0, log0, route0, file0, history0, store, log, route)
    }

    /** The state after the import request for `users`, from the same starting
        point as `ImportOutcome`. */
    ghost predicate SubmitOutcome(users: seq<CandidateUser>, ex: Exchange<()>, store0: Store, log0: seq<Call>,
                                  route0: string, file0: Option<FileRef>, history0: ProgressTrace,
                                  store: Store, log: seq<Call>, route: string)
      reads this
    {
      var e := Dispatch(store0, ImportRequest(users), ex);
      && log == log0 + e.calls && store == e.store
      && route == (if e.loggedOut then LoginRoute else route0)
      && (e.result.Ok? ==>
            && uploadStatus == Some(Status(Success, RegisteredMessage(|users|), None))
            && uploadProgress == Percent(100) && progressHistory == Then(Then(history0, 70), 100)
            && excelFile == None)
      && (e.result.Fail? ==>
            && uploadStatus == Some(Status(Error, e.result.error.MessageOr(ProcessingFallback), None))
            && uploadProgress == Percent(0) && progressHistory == Then(Then(history0, 70), 0)
            && excelFile == file0)
    }

    /** The rest of the `onload` callback of `handleExcelUpload` once the sheet has
        been through the row mapping and the submit gate (`GateSheet`). */
    method ApplyPlan(b: Browser, plan: ImportPlan, ex: Exchange<()>)
      modifies this, b
      ensures ImportOutcome(plan, ex, old(b.store), old(b.log), old(b.route), old(excelFile), old(progressHistory),
                            b.store, b.log, b.route)
      ensures folders == old(folders) && selectedFiles == old(selectedFiles) && uploading == old(uploading)
      ensures error == old(error) && folderName == old(folderName)
    {
      match plan {
        case Reject(violations) =>
          uploadStatus := Some(Status(Error, ValidationHeading, Some(violations)));
          uploadProgress := Percent(0);
          progressHistory := Then(progressHistory, 0);
        case Submit(users) =>
          SubmitUsers(b, users, ex);
      }
    }

    /** The import request of a sheet without violations, and what the page shows
        once it is answered. */
    method SubmitUsers(b: Browser, users: seq<CandidateUser>, ex: Exchange<()>)
      modifies this, b
      ensures SubmitOutcome(users, ex, old(b.store), old(b.log), old(b.route), old(excelFile), old(progressHistory),
                            b.store, b.log, b.route)
      ensures folders == old(folders) && selectedFiles == old(selectedFiles) && uploading == old(uploading)
      ensures error == old(error) && folderName == old(folderName)
    {
      uploadProgress := Percent(70);
      progressHistory := Then(progressHistory, 70);
      var response := b.Send(ImportRequest(users), ex);
      ShowImportOutcome(response, |users|);
    }

    /** What the page shows once the import request for `count` users has been
        answered. */
    method ShowImportOutcome(response: Response<()>, count: nat)
      modifies this
      ensures response.Ok? ==>
                && uploadStatus == Some(Status(Success, RegisteredMessage(count), None))
                && uploadProgress == Percent(100) && progressHistory == Then(old(progressHistory), 100)
                && excelFile == None
      ensures response.Fail? ==>
                && uploadStatus == Some(Status(Error, response.error.MessageOr(ProcessingFallback), None))
                && uploadProgress == Percent(0) && progressHistory == Then(old(progressHistory), 0)
                && excelFile == old(excelFile)
      ensures folders == old(folders) && folderName == old(folderName) && selectedFiles == old(selectedFiles)
      ensures uploading == old(uploading) && error == old(error)
    {
      match response {
        case Ok(_) =>
          uploadProgress := Percent(100);
          progressHistory := Then(progressHistory, 100);
          uploadStatus := Some(Status(Success, RegisteredMessage(count), None));
          excelFile := None;
        case Fail(err) =>
          uploadStatus := Some(Status(Error, err.MessageOr(ProcessingFallback), None));
          uploadProgress := Percent(0);
          progressHistory := Then(progressHistory, 0);
      }
    }
  }
}
