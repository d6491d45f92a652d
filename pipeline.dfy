/**
 * Where the upload action hands over to the ingest workflow: the events it
 * sends and the bucket it stores into, held against the event the workflow
 * is registered for and the bucket it downloads from.
 */
module Pipeline {
  import Upload
  import Ingest

  /** A call that sends only `app/process.file` and stores only into `materials`. */
  predicate MissesIngest(e: Upload.Effect)
  {
    && (e.SendEvent? ==> e.event.name == "app/process.file" && !Ingest.Triggers(e.event.name))
    && (e.StorageUpload? ==> e.bucket == "materials" && e.bucket != Ingest.StorageBucket)
  }

  /** One file's calls miss the ingest workflow. */
  lemma FileCallsMissIngest(i: nat, weekId: string, form: Upload.UploadForm, file: Upload.FileEntry,
                            svc: Upload.UploadServices)
    ensures forall e :: e in Upload.FileEffects(i, weekId, form, file, svc) ==> MissesIngest(e)
  {
  }

  /** The calls for the first `k` files miss the ingest workflow. */
  lemma {:induction false} LoopCallsMissIngest(weekId: string, form: Upload.UploadForm,
                                               svc: Upload.UploadServices, k: nat)
    requires k <= |form.files|
    ensures forall e :: e in Upload.AllFileEffects(weekId, form, svc, k) ==> MissesIngest(e)
  {
    if k > 0 {
      LoopCallsMissIngest(weekId, form, svc, k - 1);
      FileCallsMissIngest(k - 1, weekId, form, form.files[k - 1], svc);
      assert Upload.AllFileEffects(weekId, form, svc, k)
             == Upload.AllFileEffects(weekId, form, svc, k - 1)
                + Upload.FileEffects(k - 1, weekId, form, form.files[k - 1], svc);
    }
  }

  /**
   * No call of the upload action, for any number of files, sends the event the
   * ingest workflow listens for or stores into the bucket it downloads from.
   */
  lemma UploadCallsMissIngest(weekId: string, form: Upload.UploadForm, svc: Upload.UploadServices, k: nat)
    requires k <= |form.files|
    ensures forall e :: e in Upload.ResolveWeek(form, svc).effects + Upload.AllFileEffects(weekId, form, svc, k) ==>
              MissesIngest(e)
  {
    LoopCallsMissIngest(weekId, form, svc, k);
    assert forall e :: e in Upload.ResolveWeek(form, svc).effects ==> e.SelectWeek? || e.InsertWeek?;
  }
}
