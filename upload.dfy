/**
 * The `uploadFiles` server action: check the form, find the week (creating it
 * when the lookup fails), then for each file in turn upload it to storage,
 * record a `documents` row with status `uploading` and send the processing
 * event; a failed upload or insert is reported for that file and the loop
 * goes on with the next one.
 *
 * `parseInt`, the database, storage and the event client are oracles (fields
 * of `UploadServices`); the action returns its response together with the
 * calls it made, in order.
 */
module Upload {
  import opened Wrappers
  import opened Values
  import opened Text

  const MissingFieldsError := "Missing required fields"
  const CreateWeekErrorPrefix := "Failed to create week: "
  const MaterialsBucket := "materials"
  const ProcessFileEvent := "app/process.file"

  /** A `File` of the form: its name, its MIME type and its bytes. */
  datatype FileEntry = FileEntry(name: string, mimeType: string, content: Bytes)

  /** The form fields; a field that is absent reads as "". */
  datatype UploadForm = UploadForm(paperId: string, term: string, weekNumber: string, docType: string,
                                   files: seq<FileEntry>)

  /** The filter of the week lookup; `weekNumber` is `parseInt` of the field, `None` for NaN. */
  datatype WeekKey = WeekKey(paperId: string, term: string, weekNumber: Option<int>)
  datatype WeekInsert = WeekInsert(paperId: string, term: string, weekNumber: Option<int>, topic: string)
  datatype UploadOptions = UploadOptions(contentType: string, upsert: bool)
  datatype DocumentInsert = DocumentInsert(weekId: string, storagePath: string, docType: string, status: string)
  datatype FileEvent = FileEvent(name: string, documentId: string, storagePath: string)

  datatype UploadServices = UploadServices(
    parseInt: string -> Option<int>,
    /** `.single()` on the week lookup: the id, or nothing on an error or a missing row. */
    findWeek: WeekKey -> Option<string>,
    createWeek: WeekInsert -> Result<string, string>,
    /** The upload of the `i`-th file: an error message, or nothing on success. */
    store: (nat, string, Bytes, UploadOptions) -> Option<string>,
    /** The `documents` insert of the `i`-th file: the new id or an error message. */
    insertDocument: (nat, DocumentInsert) -> Result<string, string>,
    /** `inngest.send`: nothing, or the message it rejects with. */
    send: FileEvent -> Option<string>)

  datatype Effect =
    | SelectWeek(key: WeekKey)
    | InsertWeek(week: WeekInsert)
    | StorageUpload(bucket: string, path: string, content: Bytes, options: UploadOptions)
    | InsertDocument(doc: DocumentInsert)
    | SendEvent(event: FileEvent)

  /** One entry of `results`: `{ file, status: 'success', documentId }` or `{ file, status: 'failed', error }`. */
  datatype FileResult = Uploaded(file: string, documentId: string) | Failed(file: string, error: string)

  datatype UploadResponse =
    /** `{ error }` */
    | Rejected(error: string)
    /** `{ success: true, results }` */
    | Done(results: seq<FileResult>)
    /** An exception leaves the action. */
    | Thrown(message: string)

  /** `!paperId || !term || !weekNumber || !type || files.length === 0` */
  predicate MissingFields(form: UploadForm)
  {
    form.paperId == "" || form.term == "" || form.weekNumber == "" || form.docType == "" || |form.files| == 0
  }

  function Key(form: UploadForm, svc: UploadServices): WeekKey
  {
    WeekKey(form.paperId, form.term, svc.parseInt(form.weekNumber))
  }

  /** The topic of a created week: `Week ${weekNumber} - ${term}`, with the field as typed. */
  function Topic(form: UploadForm): string
  {
    "Week " + form.weekNumber + " - " + form.term
  }

  /** `paper-${paperId}/${term}/week-${weekNumber}/${type}/${file.name}` */
  function StoragePath(form: UploadForm, name: string): string
  {
    "paper-" + form.paperId + "/" + form.term + "/week-" + form.weekNumber + "/" + form.docType + "/" + name
  }

  /** The week the files go to, and the calls made to find or create it. */
  datatype WeekLookup = WeekLookup(weekId: Result<string, string>, effects: seq<Effect>)

  function ResolveWeek(form: UploadForm, svc: UploadServices): (w: WeekLookup)
    ensures |w.effects| >= 1 && w.effects[0] == SelectWeek(Key(form, svc))
    ensures svc.findWeek(Key(form, svc)).Some? ==>
              w == WeekLookup(Ok(svc.findWeek(Key(form, svc)).value), [SelectWeek(Key(form, svc))])
    ensures svc.findWeek(Key(form, svc)).None? ==>
              var insert := WeekInsert(form.paperId, form.term, svc.parseInt(form.weekNumber), Topic(form));
              && w.effects == [SelectWeek(Key(form, svc)), InsertWeek(insert)]
              && (svc.createWeek(insert).Err? <==> w.weekId.Err?)
              && (w.weekId.Err? ==> w.weekId.error == CreateWeekErrorPrefix + svc.createWeek(insert).error)
              && (w.weekId.Ok? ==> w.weekId.value == svc.createWeek(insert).value)
  {
    var key := Key(form, svc);
    match svc.findWeek(key)
    case Some(id) => WeekLookup(Ok(id), [SelectWeek(key)])
    case None =>
      var insert := WeekInsert(form.paperId, form.term, key.weekNumber, Topic(form));
      var lookup := [SelectWeek(key), InsertWeek(insert)];
      match svc.createWeek(insert)
      case Err(m) => WeekLookup(Err(CreateWeekErrorPrefix + m), lookup)
      case Ok(id) => WeekLookup(Ok(id), lookup)
  }

  // ---------------------------------------------------------------------------
  // One file, as the loop body handles it.

  function Options(file: FileEntry): UploadOptions
  {
    UploadOptions(file.mimeType, true)
  }

  function DocumentOf(weekId: string, form: UploadForm, file: FileEntry): DocumentInsert
  {
    DocumentInsert(weekId, StoragePath(form, file.name), form.docType, UploadingStatus)
  }

  /** The result the `i`-th file gets. */
  function FileOutcome(i: nat, weekId: string, form: UploadForm, file: FileEntry, svc: UploadServices): FileResult
  {
    match svc.store(i, StoragePath(form, file.name), file.content, Options(file))
    case Some(e) => Failed(file.name, e)
    case None =>
      match svc.insertDocument(i, DocumentOf(weekId, form, file))
      case Err(e) => Failed(file.name, e)
      case Ok(id) => Uploaded(file.name, id)
  }

  function EventOf(form: UploadForm, file: FileEntry, documentId: string): FileEvent
  {
    FileEvent(ProcessFileEvent, documentId, StoragePath(form, file.name))
  }

  /** The calls the `i`-th file causes: the upload, then the insert, then the event, each only after the one before succeeds. */
  function FileEffects(i: nat, weekId: string, form: UploadForm, file: FileEntry, svc: UploadServices): seq<Effect>
  {
    var path := StoragePath(form, file.name);
    [StorageUpload(MaterialsBucket, path, file.content, Options(file))]
    + if svc.store(i, path, file.content, Options(file)).Some? then []
      else
        [InsertDocument(DocumentOf(weekId, form, file))]
        + match svc.insertDocument(i, DocumentOf(weekId, form, file))
          case Err(_) => []
          case Ok(id) => [SendEvent(EventOf(form, file, id))]
  }

  /** The results of the first `k` files. */
  function Results(weekId: string, form: UploadForm, svc: UploadServices, k: nat): (rs: seq<FileResult>)
    requires k <= |form.files|
    ensures |rs| == k
    ensures forall i :: 0 <= i < k ==> rs[i] == FileOutcome(i, weekId, form, form.files[i], svc)
  {
    if k == 0 then [] else Results(weekId, form, svc, k - 1) + [FileOutcome(k - 1, weekId, form, form.files[k - 1], svc)]
  }

  /** The calls made for the first `k` files. */
  function AllFileEffects(weekId: string, form: UploadForm, svc: UploadServices, k: nat): seq<Effect>
    requires k <= |form.files|
  {
    if k == 0 then [] else AllFileEffects(weekId, form, svc, k - 1) + FileEffects(k - 1, weekId, form, form.files[k - 1], svc)
  }

  /** The event of the `i`-th file is sent and rejected with `m`. */
  predicate Rejects(weekId: string, form: UploadForm, svc: UploadServices, i: nat, m: string)
  {
    && i < |form.files|
    && var r := FileOutcome(i, weekId, form, form.files[i], svc);
    && r.Uploaded?
    && svc.send(EventOf(form, form.files[i], r.documentId)) == Some(m)
  }

  /** No event of the first `k` files is rejected. */
  predicate NoneRejected(weekId: string, form: UploadForm, svc: UploadServices, k: nat)
    requires k <= |form.files|
  {
    forall i :: 0 <= i < k ==>
      var r := FileOutcome(i, weekId, form, form.files[i], svc);
      r.Uploaded? ==> svc.send(EventOf(form, form.files[i], r.documentId)).None?
  }

  /**
   * One turn of the file loop: upload, then insert the `uploading` row, then
   * send the event, stopping at the first step that fails.
   */
  method UploadOne(i: nat, weekId: string, form: UploadForm, file: FileEntry, svc: UploadServices)
    returns (result: FileResult, effects: seq<Effect>, sendError: Option<string>)
    ensures result == FileOutcome(i, weekId, form, file, svc)
    ensures effects == FileEffects(i, weekId, form, file, svc)
    ensures sendError == if result.Uploaded? then svc.send(EventOf(form, file, result.documentId)) else None
  {
    // 2. upload to storage
    var path := StoragePath(form, file.name);
    effects := [StorageUpload(MaterialsBucket, path, file.content, Options(file))];
    var uploadError := svc.store(i, path, file.content, Options(file));
    if uploadError.Some? {
      return Failed(file.name, uploadError.value), effects, None;
    }
    // 3. create the document record
    var doc := DocumentInsert(weekId, path, form.docType, UploadingStatus);
    effects := effects + [InsertDocument(doc)];
    var inserted := svc.insertDocument(i, doc);
    if inserted.Err? {
      return Failed(file.name, inserted.error), effects, None;
    }
    // 4. trigger processing
    var event := FileEvent(ProcessFileEvent, inserted.value, path);
    effects := effects + [SendEvent(event)];
    sendError := svc.send(event);
    result := Uploaded(file.name, inserted.value);
  }

  lemma NoneRejectedNext(weekId: string, form: UploadForm, svc: UploadServices, i: nat)
    requires i < |form.files| && NoneRejected(weekId, form, svc, i)
    requires var r := FileOutcome(i, weekId, form, form.files[i], svc);
             r.Uploaded? ==> svc.send(EventOf(form, form.files[i], r.documentId)).None?
    ensures NoneRejected(weekId, form, svc, i + 1)
  {
  }

  /** The results and the calls of one more file. */
  lemma StepNext(weekId: string, form: UploadForm, svc: UploadServices, i: nat)
    requires i < |form.files|
    ensures Results(weekId, form, svc, i + 1)
            == Results(weekId, form, svc, i) + [FileOutcome(i, weekId, form, form.files[i], svc)]
    ensures AllFileEffects(weekId, form, svc, i + 1)
            == AllFileEffects(weekId, form, svc, i) + FileEffects(i, weekId, form, form.files[i], svc)
  {
  }

  lemma AppendAssoc(a: seq<Effect>, b: seq<Effect>, c: seq<Effect>)
    ensures a + b + c == a + (b + c)
  {
  }

  /** The `uploadFiles` action. */
  method UploadFiles(form: UploadForm, svc: UploadServices) returns (response: UploadResponse, effects: seq<Effect>)
    ensures MissingFields(form) <==> response == Rejected(MissingFieldsError)
    ensures MissingFields(form) ==> effects == []
    ensures !MissingFields(form) ==>
              var week := ResolveWeek(form, svc);
              && |effects| >= |week.effects| && effects[..|week.effects|] == week.effects
              && (response.Rejected? ==> week.weekId.Err?)
              && (week.weekId.Err? ==> response == Rejected(week.weekId.error) && effects == week.effects)
              && (week.weekId.Ok? ==>
                    var weekId := week.weekId.value;
                    && (response.Done? <==> NoneRejected(weekId, form, svc, |form.files|))
                    && (response.Done? ==>
                          && response.results == Results(weekId, form, svc, |form.files|)
                          && effects == week.effects + AllFileEffects(weekId, form, svc, |form.files|))
                    && (response.Thrown? ==>
                          exists i: nat :: i < |form.files| && Rejects(weekId, form, svc, i, response.message)
                                           && NoneRejected(weekId, form, svc, i)
                                           && effects == week.effects + AllFileEffects(weekId, form, svc, i + 1)))
  {
    if MissingFields(form) {
      return Rejected(MissingFieldsError), [];
    }
    // 1. the week, found or created
    var week := ResolveWeek(form, svc);
    effects := week.effects;
    if week.weekId.Err? {
      assert week.weekId.error[0] != MissingFieldsError[0];
      return Rejected(week.weekId.error), effects;
    }
    var weekId := week.weekId.value;
    var results: seq<FileResult> := [];
    for i := 0 to |form.files|
      invariant results == Results(weekId, form, svc, i)
      invariant effects == week.effects + AllFileEffects(weekId, form, svc, i)
      invariant NoneRejected(weekId, form, svc, i)
    {
      var result, fileEffects, sendError := UploadOne(i, weekId, form, form.files[i], svc);
      effects := effects + fileEffects;
      if sendError.Some? {
        StepNext(weekId, form, svc, i);
        AppendAssoc(week.effects, AllFileEffects(weekId, form, svc, i), fileEffects);
        assert Rejects(weekId, form, svc, i, sendError.value);
        return Thrown(sendError.value), effects;
      }
      NoneRejectedNext(weekId, form, svc, i);
      StepNext(weekId, form, svc, i);
      AppendAssoc(week.effects, AllFileEffects(weekId, form, svc, i), fileEffects);
      results := results + [result];
    }
    response := Done(results);
  }

  // ---------------------------------------------------------------------------
  // What the results and the calls say about each other.

  /** A file succeeds exactly when both its upload and its insert succeed; a failure carries the failing step's message. */
  lemma FileOutcomeCases(i: nat, weekId: string, form: UploadForm, file: FileEntry, svc: UploadServices)
    ensures var r := FileOutcome(i, weekId, form, file, svc);
            var stored := svc.store(i, StoragePath(form, file.name), file.content, UploadOptions(file.mimeType, true));
            var inserted := svc.insertDocument(i, DocumentInsert(weekId, StoragePath(form, file.name), form.docType, "uploading"));
            && r.file == file.name
            && (r.Uploaded? <==> stored.None? && inserted.Ok?)
            && (r.Uploaded? ==> r.documentId == inserted.value)
            && (stored.Some? ==> r == Failed(file.name, stored.value))
            && (stored.None? && inserted.Err? ==> r == Failed(file.name, inserted.error))
  {
  }

  function CountEvents(effects: seq<Effect>): nat
  {
    if effects == [] then 0 else CountEvents(effects[..|effects| - 1]) + (if effects[|effects| - 1].SendEvent? then 1 else 0)
  }

  function CountUploaded(results: seq<FileResult>): nat
  {
    if results == [] then 0 else CountUploaded(results[..|results| - 1]) + (if results[|results| - 1].Uploaded? then 1 else 0)
  }

  lemma {:induction false} CountEventsAppend(a: seq<Effect>, b: seq<Effect>)
    ensures CountEvents(a + b) == CountEvents(a) + CountEvents(b)
    decreases |b|
  {
    if b == [] {
      assert a + b == a;
    } else {
      var b' := b[..|b| - 1];
      CountEventsAppend(a, b');
      assert (a + b)[..|a + b| - 1] == a + b';
    }
  }

  lemma FileEffectsEvents(i: nat, weekId: string, form: UploadForm, file: FileEntry, svc: UploadServices)
    ensures CountEvents(FileEffects(i, weekId, form, file, svc))
            == if FileOutcome(i, weekId, form, file, svc).Uploaded? then 1 else 0
  {
    var effs := FileEffects(i, weekId, form, file, svc);
    var path := StoragePath(form, file.name);
    if svc.store(i, path, file.content, Options(file)).Some? {
      assert CountEvents(effs) == CountEvents([]) + 0;
    } else {
      var doc := DocumentOf(weekId, form, file);
      var head := [StorageUpload(MaterialsBucket, path, file.content, Options(file)), InsertDocument(doc)];
      assert CountEvents([head[0]]) == 0 by { assert [head[0]][..0] == []; }
      assert CountEvents(head) == 0 by { assert head[..1] == [head[0]]; }
      match svc.insertDocument(i, doc)
      case Err(_) =>
        assert effs == head;
      case Ok(id) =>
        assert effs == head + [SendEvent(EventOf(form, file, id))];
    }
  }

  /** One event is sent per uploaded file, and none for a failed one. */
  lemma {:induction false} EventsMatchUploads(weekId: string, form: UploadForm, svc: UploadServices, k: nat)
    requires k <= |form.files|
    ensures CountEvents(AllFileEffects(weekId, form, svc, k)) == CountUploaded(Results(weekId, form, svc, k))
  {
    if k > 0 {
      EventsMatchUploads(weekId, form, svc, k - 1);
      CountEventsAppend(AllFileEffects(weekId, form, svc, k - 1), FileEffects(k - 1, weekId, form, form.files[k - 1], svc));
      FileEffectsEvents(k - 1, weekId, form, form.files[k - 1], svc);
      CountUploadedSnoc(Results(weekId, form, svc, k - 1), FileOutcome(k - 1, weekId, form, form.files[k - 1], svc));
    }
  }

  lemma CountUploadedSnoc(rs: seq<FileResult>, r: FileResult)
    ensures CountUploaded(rs + [r]) == CountUploaded(rs) + if r.Uploaded? then 1 else 0
  {
    assert (rs + [r])[..|rs|] == rs;
  }

  /**
   * Every document row the action inserts is in the resolved week, has status
   * `uploading` and points at the path the file was uploaded to; every event is
   * `app/process.file` for the id that insert returned.
   */
  lemma FileEffectsShape(i: nat, weekId: string, form: UploadForm, file: FileEntry, svc: UploadServices)
    ensures var effs := FileEffects(i, weekId, form, file, svc);
            var path := StoragePath(form, file.name);
            && effs[0] == StorageUpload("materials", path, file.content, UploadOptions(file.mimeType, true))
            && (forall j :: 0 <= j < |effs| && effs[j].InsertDocument? ==>
                  j == 1 && effs[j].doc == DocumentInsert(weekId, path, form.docType, "uploading"))
            && (forall j :: 0 <= j < |effs| && effs[j].SendEvent? ==>
                  && j == 2 && FileOutcome(i, weekId, form, file, svc).Uploaded?
                  && effs[j].event == FileEvent("app/process.file", FileOutcome(i, weekId, form, file, svc).documentId, path))
  {
  }

  /** With no '/' in the fields or the file name, the storage path reads back as its five segments. */
  lemma StoragePathSegments(form: UploadForm, name: string)
    requires '/' !in form.paperId && '/' !in form.term && '/' !in form.weekNumber
    requires '/' !in form.docType && '/' !in name
    ensures Split(StoragePath(form, name), '/')
            == ["paper-" + form.paperId, form.term, "week-" + form.weekNumber, form.docType, name]
  {
    var a, b, c, d := "paper-" + form.paperId, form.term, "week-" + form.weekNumber, form.docType;
    JoinFive(a, b, c, d, name);
    assert StoragePath(form, name) == a + "/" + b + "/" + c + "/" + d + "/" + name;
    assert '/' !in a && '/' !in c;
    SplitJoin([a, b, c, d, name], '/');
  }

  lemma JoinFive(a: string, b: string, c: string, d: string, e: string)
    ensures Join([a, b, c, d, e], "/") == a + "/" + b + "/" + c + "/" + d + "/" + e
  {
    assert Join([e], "/") == e;
    JoinCons(d, [e], "/");
    assert [d] + [e] == [d, e];
    JoinCons(c, [d, e], "/");
    assert [c] + [d, e] == [c, d, e];
    JoinCons(b, [c, d, e], "/");
    assert [b] + [c, d, e] == [b, c, d, e];
    JoinCons(a, [b, c, d, e], "/");
    assert [a] + [b, c, d, e] == [a, b, c, d, e];
  }

  /** Two files of one form get the same storage path only when they have the same name. */
  lemma StoragePathInjective(form: UploadForm, a: string, b: string)
    ensures StoragePath(form, a) == StoragePath(form, b) <==> a == b
  {
    var prefix := "paper-" + form.paperId + "/" + form.term + "/week-" + form.weekNumber + "/" + form.docType + "/";
    assert StoragePath(form, a) == prefix + a;
    assert StoragePath(form, b) == prefix + b;
    if StoragePath(form, a) == StoragePath(form, b) {
      assert a == (prefix + a)[|prefix|..];
    }
  }
}
