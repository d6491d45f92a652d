/**
 * The admin page's upload queue: the list of uploads it shows, the three
 * updates it makes to that list (pending entries for a new batch, the
 * per-file results of the action, and status changes pushed by the database)
 * and the submit handler that ties them to the `uploadFiles` action.
 */
module UploadQueue {
  import opened Wrappers
  import opened Values
  import Upload

  const PendingStatus := "uploading"
  const SuccessStatus := "success"
  const FailedStatus := "failed"

  /** One row of the list: `{ name, status, documentId }`; a missing id is `None`. */
  datatype QueueEntry = QueueEntry(name: string, status: string, documentId: Option<string>)

  /** The notification the page shows. */
  datatype Toast =
    | MissingFieldsToast
    | UploadFailedToast(description: string)
    | UploadStartedToast(fileCount: nat)
    | SomethingWentWrongToast

  // ---------------------------------------------------------------------------
  // The realtime update: `prev.map(up => up.documentId === id ? { ...up, status } : up)`.

  function ApplyStatusUpdate(prev: seq<QueueEntry>, id: string, status: string): seq<QueueEntry>
  {
    seq(|prev|, i requires 0 <= i < |prev| =>
      if prev[i].documentId == Some(id) then prev[i].(status := status) else prev[i])
  }

  /**
   * A status update changes the status of exactly the entries carrying that
   * document id, and nothing else; an entry without an id (still pending, or
   * failed) is never touched.
   */
  lemma StatusUpdateSpec(prev: seq<QueueEntry>, id: string, status: string)
    ensures var next := ApplyStatusUpdate(prev, id, status);
            && |next| == |prev|
            && (forall i :: 0 <= i < |prev| ==>
                  next[i].name == prev[i].name && next[i].documentId == prev[i].documentId)
            && (forall i :: 0 <= i < |prev| && prev[i].documentId == Some(id) ==> next[i].status == status)
            && (forall i :: 0 <= i < |prev| && prev[i].documentId != Some(id) ==> next[i] == prev[i])
            && (forall i :: 0 <= i < |prev| && prev[i].documentId.None? ==> next[i] == prev[i])
  {
  }

  /** Only the newest status of a document survives two updates for it. */
  lemma StatusUpdateLastWins(prev: seq<QueueEntry>, id: string, s1: string, s2: string)
    ensures ApplyStatusUpdate(ApplyStatusUpdate(prev, id, s1), id, s2) == ApplyStatusUpdate(prev, id, s2)
  {
    var a := ApplyStatusUpdate(ApplyStatusUpdate(prev, id, s1), id, s2);
    var b := ApplyStatusUpdate(prev, id, s2);
    assert forall i :: 0 <= i < |a| ==> a[i] == b[i];
  }

  /** Replaying an update changes nothing. */
  lemma StatusUpdateIdempotent(prev: seq<QueueEntry>, id: string, status: string)
    ensures var once := ApplyStatusUpdate(prev, id, status);
            ApplyStatusUpdate(once, id, status) == once
  {
    StatusUpdateLastWins(prev, id, status, status);
  }

  /** Updates for two different documents may arrive in either order. */
  lemma StatusUpdatesCommute(prev: seq<QueueEntry>, id1: string, s1: string, id2: string, s2: string)
    requires id1 != id2
    ensures ApplyStatusUpdate(ApplyStatusUpdate(prev, id1, s1), id2, s2)
            == ApplyStatusUpdate(ApplyStatusUpdate(prev, id2, s2), id1, s1)
  {
    var a := ApplyStatusUpdate(ApplyStatusUpdate(prev, id1, s1), id2, s2);
    var b := ApplyStatusUpdate(ApplyStatusUpdate(prev, id2, s2), id1, s1);
    assert forall i :: 0 <= i < |a| ==> a[i] == b[i];
  }

  // ---------------------------------------------------------------------------
  // The pending entries: `setUploads(prev => [...newUploads, ...prev])`.

  function PendingEntries(files: seq<Upload.FileEntry>): seq<QueueEntry>
  {
    seq(|files|, i requires 0 <= i < |files| => QueueEntry(files[i].name, PendingStatus, None))
  }

  function PrependPending(files: seq<Upload.FileEntry>, prev: seq<QueueEntry>): seq<QueueEntry>
  {
    PendingEntries(files) + prev
  }

  /** The new batch comes first, one `uploading` entry per file in file order, and the old list follows intact. */
  lemma PrependPendingSpec(files: seq<Upload.FileEntry>, prev: seq<QueueEntry>)
    ensures var next := PrependPending(files, prev);
            && |next| == |files| + |prev|
            && (forall i :: 0 <= i < |files| ==> next[i] == QueueEntry(files[i].name, "uploading", None))
            && next[|files|..] == prev
  {
  }

  // ---------------------------------------------------------------------------
  // The results: `new Map(results.map(r => [r.file, r]))`, then a `get` per entry.

  /** `resultMap.get(name)`: the Map keeps the last result for a repeated name. */
  function Lookup(results: seq<Upload.FileResult>, name: string): Option<Upload.FileResult>
  {
    if results == [] then None
    else if results[|results| - 1].file == name then Some(results[|results| - 1])
    else Lookup(results[..|results| - 1], name)
  }

  /** Nothing is found for a name without results; otherwise the last result with that name is. */
  lemma LookupLastWins(results: seq<Upload.FileResult>, name: string)
    ensures Lookup(results, name).None? <==> forall j :: 0 <= j < |results| ==> results[j].file != name
    ensures Lookup(results, name).Some? ==>
              exists j :: && 0 <= j < |results| && results[j] == Lookup(results, name).value
                          && results[j].file == name
                          && forall j' :: j < j' < |results| ==> results[j'].file != name
  {
    LookupMissing(results, name);
    if Lookup(results, name).Some? {
      LookupFound(results, name);
    }
  }

  lemma {:induction false} LookupMissing(results: seq<Upload.FileResult>, name: string)
    ensures Lookup(results, name).None? <==> forall j :: 0 <= j < |results| ==> results[j].file != name
  {
    if results != [] {
      var init := results[..|results| - 1];
      LookupMissing(init, name);
      assert forall j :: 0 <= j < |init| ==> init[j] == results[j];
    }
  }

  lemma {:induction false} LookupFound(results: seq<Upload.FileResult>, name: string)
    requires Lookup(results, name).Some?
    ensures exists j :: && 0 <= j < |results| && results[j] == Lookup(results, name).value
                        && results[j].file == name
                        && forall j' :: j < j' < |results| ==> results[j'].file != name
  {
    var last := |results| - 1;
    if results[last].file != name {
      var init := results[..last];
      LookupFound(init, name);
      var j :| && 0 <= j < |init| && init[j] == Lookup(init, name).value && init[j].file == name
               && forall j' :: j < j' < |init| ==> init[j'].file != name;
      assert results[j] == init[j];
      assert forall j' :: j < j' < last ==> results[j'] == init[j'];
    } else {
      assert results[last] == Lookup(results, name).value;
    }
  }

  /** The status a result shows: `'success'` or `'failed'`. */
  function StatusOf(r: Upload.FileResult): string
  {
    match r
    case Uploaded(_, _) => SuccessStatus
    case Failed(_, _) => FailedStatus
  }

  /** `res.documentId`: a failed result has none. */
  function DocumentIdOf(r: Upload.FileResult): Option<string>
  {
    match r
    case Uploaded(_, id) => Some(id)
    case Failed(_, _) => None
  }

  /** `prev.map(up => res ? { ...up, documentId: res.documentId, status: res.status } : up)` */
  function MergeResults(prev: seq<QueueEntry>, results: seq<Upload.FileResult>): seq<QueueEntry>
  {
    seq(|prev|, i requires 0 <= i < |prev| =>
      match Lookup(results, prev[i].name)
      case None => prev[i]
      case Some(r) => QueueEntry(prev[i].name, StatusOf(r), DocumentIdOf(r)))
  }

  /**
   * Merging keeps the names and the order; an entry whose name has no result is
   * unchanged, any other takes the status and document id of the last result
   * with its name, whether it belongs to this batch or to an earlier one.
   */
  lemma MergeResultsSpec(prev: seq<QueueEntry>, results: seq<Upload.FileResult>, i: nat)
    requires i < |prev|
    ensures var next := MergeResults(prev, results);
            && |next| == |prev| && next[i].name == prev[i].name
            && ((forall j :: 0 <= j < |results| ==> results[j].file != prev[i].name) ==> next[i] == prev[i])
            && (forall j :: (&& 0 <= j < |results| && results[j].file == prev[i].name
                             && forall j' :: j < j' < |results| ==> results[j'].file != prev[i].name) ==>
                  next[i] == QueueEntry(prev[i].name, StatusOf(results[j]), DocumentIdOf(results[j])))
  {
    LookupLastWins(results, prev[i].name);
    if Lookup(results, prev[i].name).Some? {
      var k :| && 0 <= k < |results| && results[k] == Lookup(results, prev[i].name).value
               && results[k].file == prev[i].name
               && forall j' :: k < j' < |results| ==> results[j'].file != prev[i].name;
    }
  }

  /** With distinct file names, the `i`-th new entry ends up with the `i`-th file's result. */
  lemma BatchGetsItsResults(files: seq<Upload.FileEntry>, prev: seq<QueueEntry>, results: seq<Upload.FileResult>, i: nat)
    requires |results| == |files|
    requires forall j :: 0 <= j < |files| ==> results[j].file == files[j].name
    requires forall j, j' :: 0 <= j < j' < |files| ==> files[j].name != files[j'].name
    requires i < |files|
    ensures MergeResults(PrependPending(files, prev), results)[i]
            == QueueEntry(files[i].name, StatusOf(results[i]), DocumentIdOf(results[i]))
  {
    var pending := PrependPending(files, prev);
    assert pending[i].name == files[i].name;
    MergeResultsSpec(pending, results, i);
    assert forall j' :: i < j' < |results| ==> results[j'].file != files[i].name;
  }

  // ---------------------------------------------------------------------------
  // The page.

  class AdminPage {
    var paperId: string
    var term: string
    var week: string
    var docType: string
    /** The chosen `FileList`, `null` before a choice. */
    var files: Option<seq<Upload.FileEntry>>
    var uploading: bool
    var uploads: seq<QueueEntry>

    constructor ()
      ensures paperId == "" && term == "" && week == "" && docType == ""
      ensures files == None && !uploading && uploads == []
    {
      paperId, term, week, docType := "", "", "", "";
      files := None;
      uploading := false;
      uploads := [];
    }

    /** `!paperId || !term || !week || !type || !files`: an empty `FileList` passes (it is an object). */
    predicate FieldsMissing()
      reads this
    {
      paperId == "" || term == "" || week == "" || docType == "" || files.None?
    }

    /** The form data the page sends. */
    function Form(): Upload.UploadForm
      reads this
      requires files.Some?
    {
      Upload.UploadForm(paperId, term, week, docType, files.value)
    }

    /** `handleUpload`: check the fields, queue the pending entries, call the action, merge its results. */
    method HandleUpload(svc: Upload.UploadServices)
      returns (toast: Toast, response: Option<Upload.UploadResponse>, effects: seq<Upload.Effect>)
      modifies this
      ensures paperId == old(paperId) && term == old(term) && week == old(week)
      ensures docType == old(docType) && files == old(files)
      ensures old(FieldsMissing()) ==>
                && toast == MissingFieldsToast && response == None && effects == []
                && uploads == old(uploads) && uploading == old(uploading)
      ensures !old(FieldsMissing()) ==>
                && response.Some? && !uploading
                && var pending := PrependPending(files.value, old(uploads));
                && (response.value.Done? ==>
                      && uploads == MergeResults(pending, response.value.results)
                      && toast == UploadStartedToast(|files.value|))
                && (!response.value.Done? ==> uploads == pending)
                && (response.value.Rejected? ==> toast == UploadFailedToast(response.value.error))
                && (response.value.Thrown? ==> toast == SomethingWentWrongToast)
                && (response.value == Upload.Rejected("Missing required fields") <==> files.value == [])
      ensures !old(FieldsMissing()) && files.value == [] ==> effects == []
      ensures !old(FieldsMissing()) && files.value != [] ==>
                var week := Upload.ResolveWeek(Form(), svc);
                && |effects| >= |week.effects| && effects[..|week.effects|] == week.effects
                && (week.weekId.Err? ==> response.value == Upload.Rejected(week.weekId.error) && effects == week.effects)
                && (week.weekId.Ok? ==>
                      var weekId := week.weekId.value;
                      && (response.value.Done? <==> Upload.NoneRejected(weekId, Form(), svc, |files.value|))
                      && (response.value.Done? ==>
                            && response.value.results == Upload.Results(weekId, Form(), svc, |files.value|)
                            && effects == week.effects + Upload.AllFileEffects(weekId, Form(), svc, |files.value|))
                      && (response.value.Thrown? ==>
                            exists i: nat :: i < |files.value| && Upload.Rejects(weekId, Form(), svc, i, response.value.message)
                                             && Upload.NoneRejected(weekId, Form(), svc, i)
                                             && effects == week.effects + Upload.AllFileEffects(weekId, Form(), svc, i + 1)))
    {
      if FieldsMissing() {
        return MissingFieldsToast, None, [];
      }
      uploading := true;
      var form := Form();
      uploads := PrependPending(form.files, uploads);
      var result;
      result, effects := Upload.UploadFiles(form, svc);
      match result {
        case Rejected(e) => toast := UploadFailedToast(e);
        case Done(rs) =>
          toast := UploadStartedToast(|form.files|);
          uploads := MergeResults(uploads, rs);
        case Thrown(_) => toast := SomethingWentWrongToast;
      }
      uploading := false;
      response := Some(result);
    }

    /**
     * The realtime handler for an `UPDATE` of a `documents` row: apply the new
     * status, and tell whether the document is now ready.
     */
    method ApplyRealtimeUpdate(id: string, status: string) returns (ready: bool)
      modifies this
      ensures uploads == ApplyStatusUpdate(old(uploads), id, status)
      ensures ready <==> status == "processed"
      ensures paperId == old(paperId) && term == old(term) && week == old(week)
      ensures docType == old(docType) && files == old(files) && uploading == old(uploading)
    {
      uploads := ApplyStatusUpdate(uploads, id, status);
      ready := status == ProcessedStatus;
    }
  }
}
