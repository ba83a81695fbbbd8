/**
 * The upload widget: it keeps the selected files and their total size,
 * hands them one at a time to the transfer collaborator, and reacts to the
 * collaborator's events for the file in flight (complete, chunkSent,
 * progress, error, errorStarting) and to the user's resume and restart
 * clicks.  Rendering is left out; only the state the handlers update and
 * the requests and events they issue are kept.
 */
module Widget {
  import opened Sizes
  import opened Progress
  import opened Events

  /** What the widget uploads into.  `Container` is a folder (the default
      parent type) or any other parent type that is not a file; `File` is an
      existing file whose contents are replaced; `NoParent` is a widget
      built with `noParent`, whose parent type is null. */
  datatype ParentType = Container | File | NoParent

  /** The action the error message currently offers, if any. */
  datatype ErrorOffer = NoOffer | ResumeOffer | RestartOffer

  /** Where the current run stands, as the collaborator's events move it:
      nothing requested yet, a file in flight, a transfer interrupted
      (resumable), a transfer that could not start (restartable), or every
      file done. */
  datatype Phase = Idle | Transferring | Interrupted | StartFailed | Finished
  {
    predicate Active()
    {
      Transferring? || Interrupted? || StartFailed?
    }
  }

  class UploadWidget {
    const parentType: ParentType
    const overrideStart: bool
    const modal: bool

    /** Sizes of the selected files, in selection order. */
    var files: seq<nat>
    var totalSize: nat
    /** Position of the file in flight. */
    var currentIndex: nat
    /** Bytes acknowledged by the collaborator during this run. */
    var overallProgress: nat
    /** The record the latest transfer was started on. */
    var currentFile: Option<Record>
    /** How many fresh records have been created so far. */
    var created: nat
    /** Whether the start button is enabled. */
    var startEnabled: bool
    var offer: ErrorOffer
    /** Requests made of the collaborator, oldest first. */
    var transfers: seq<Transfer>
    /** Events triggered for the host, oldest first. */
    var triggers: seq<Trigger>

    ghost var phase: Phase
    /** Where the requests and events of the current run begin in the logs. */
    ghost var runTransfers: nat
    ghost var runTriggers: nat

    /** The record a transfer started now would run on. */
    function RecordFor(serial: nat): Record
    {
      if parentType == File then ParentRecord else NewRecord(serial)
    }

    /** The request that starts the transfer of file `index`. */
    function Begin(r: Record, index: nat, size: nat): Transfer
    {
      if parentType == File then UpdateContents(r, index, size) else Upload(r, index, size)
    }

    /** Every record used is the parent (file target) or one already
        created (any other target). */
    ghost predicate Fits(r: Record)
      reads this`created
    {
      if parentType == File then r == ParentRecord else r.NewRecord? && r.serial < created
    }

    ghost predicate Valid()
      reads this`transfers, this`currentFile, this`created
    {
      && (forall k :: 0 <= k < |transfers| ==> Fits(transfers[k].record))
      && (currentFile.Some? ==> Fits(currentFile.value))
    }

    /** Positions of the files started during the current run, given the
        request log `ts`. */
    ghost function RunStartedIn(ts: seq<Transfer>): seq<nat>
      reads this`runTransfers
      requires runTransfers <= |ts|
    {
      Started(ts[runTransfers..])
    }

    /** The record of the current run's latest transfer start, given the
        request log `ts`. */
    ghost function RunLatestIn(ts: seq<Transfer>): Option<Record>
      reads this`runTransfers
      requires runTransfers <= |ts|
    {
      LastBegun(ts[runTransfers..])
    }

    /** How often the current run has reported that it finished, given the
        event log `es`. */
    ghost function RunFinishesIn(es: seq<Trigger>): nat
      reads this`runTriggers
      requires runTriggers <= |es|
    {
      Finishes(es[runTriggers..])
    }

    /** The requests of the current run start the selected files in
        selection order, each with its size. */
    ghost predicate SoundLogs(ts: seq<Transfer>, es: seq<Trigger>)
      reads this`runTransfers, this`runTriggers, this`files
    {
      && runTransfers <= |ts| && runTriggers <= |es|
      && InOrder(RunStartedIn(ts))
      && (forall k :: runTransfers <= k < |ts| && ts[k].Begins() ==>
            ts[k].index < |files| && ts[k].size == files[ts[k].index])
    }

    /** The invariant of a run, from `startUpload` on, while the selection
        stays as it was: files go out in selection order, the file in flight
        is the latest one started, and `uploadFinished` is reported once,
        exactly when every file is done. */
    ghost predicate InRun()
      reads this`runTransfers, this`runTriggers, this`files, this`transfers, this`triggers,
            this`phase, this`currentIndex, this`currentFile, this`offer
    {
      && SoundLogs(transfers, triggers)
      && var started := RunStartedIn(transfers);
         var finishes := RunFinishesIn(triggers);
         && (phase == Idle ==> started == [] && currentIndex == 0 && finishes == 0)
         && (phase.Active() ==>
               && started != [] && started[|started| - 1] == currentIndex
               && currentIndex < |files| && currentFile.Some? && finishes == 0
               && RunLatestIn(transfers) == currentFile)
         && (phase == Finished ==>
               && finishes == 1 && currentIndex == |files|
               && (started == [] ==> currentIndex == 0)
               && (started != [] ==> currentIndex == started[|started| - 1] + 1))
         && (offer == ResumeOffer <==> phase == Interrupted)
         && (offer == RestartOffer <==> phase == StartFailed)
    }

    /** The state, with logs `ts` and `es`, in which `uploadNextFile` is
        called within a run: the run has not finished, no error is offered,
        and the position to start is the latest file started (again) or the
        one after it. */
    ghost predicate ReadyWith(ts: seq<Transfer>, es: seq<Trigger>)
      reads this`runTransfers, this`runTriggers, this`files, this`offer, this`currentIndex
    {
      && SoundLogs(ts, es)
      && RunFinishesIn(es) == 0
      && offer == NoOffer
      && var started := RunStartedIn(ts);
         && (started == [] ==> currentIndex == 0)
         && (started != [] ==>
               && started[|started| - 1] < |files|
               && (currentIndex == started[|started| - 1] || currentIndex == started[|started| - 1] + 1))
    }

    ghost predicate ReadyForNext()
      reads this`runTransfers, this`runTriggers, this`files, this`offer, this`currentIndex,
            this`transfers, this`triggers
    {
      ReadyWith(transfers, triggers)
    }

    /** The state `uploadNextFile` leaves, given the logs, the current record
        and the creation count it started from: past the last file it
        reports `uploadFinished` and requests nothing; otherwise it requests
        exactly one transfer, of the file at `currentIndex`, on the parent
        (file target) or on a freshly created record. */
    ghost predicate Advanced(triggers0: seq<Trigger>, transfers0: seq<Transfer>,
                             file0: Option<Record>, created0: nat)
      reads this`currentIndex, this`files, this`triggers, this`transfers, this`currentFile,
            this`created, this`phase
    {
      if currentIndex >= |files| then
        && triggers == triggers0 + [UploadFinished]
        && transfers == transfers0 && currentFile == file0 && created == created0
        && phase == Finished
      else
        && triggers == triggers0
        && currentFile == Some(RecordFor(created0))
        && created == (if parentType == File then created0 else created0 + 1)
        && transfers == transfers0 + [Begin(RecordFor(created0), currentIndex, files[currentIndex])]
        && phase == Transferring
    }

    /** `initialize`: an empty selection and nothing requested yet; by
        default the start is not overridden and the widget is modal.  The
        position and byte counter, undefined in the widget until a run
        starts, begin at 0 here. */
    constructor (parentType: ParentType, overrideStart: bool := false, modal: bool := true)
      ensures this.parentType == parentType && this.overrideStart == overrideStart && this.modal == modal
      ensures files == [] && totalSize == 0
      ensures currentIndex == 0 && overallProgress == 0
      ensures currentFile == None && created == 0
      ensures !startEnabled && offer == NoOffer
      ensures transfers == [] && triggers == []
      ensures Valid() && phase == Idle && InRun()
    {
      this.parentType := parentType;
      this.overrideStart := overrideStart;
      this.modal := modal;
      files := [];
      totalSize := 0;
      currentIndex := 0;
      overallProgress := 0;
      currentFile := None;
      created := 0;
      startEnabled := false;
      offer := NoOffer;
      transfers := [];
      triggers := [];
      phase := Idle;
      runTransfers := 0;
      runTriggers := 0;
    }

    /** `filesChanged`: for a non-empty selection, recompute the total size,
        enable the start button and clear any error; for an empty one, only
        disable the start button.  Either way tell the host. */
    method FilesChanged()
      requires Valid()
      modifies this`totalSize, this`startEnabled, this`offer, this`triggers
      ensures files == [] ==> totalSize == old(totalSize) && !startEnabled && offer == old(offer)
      ensures files != [] ==> totalSize == Sum(files) && startEnabled && offer == NoOffer
      ensures triggers == old(triggers) + [Events.FilesChanged(files)]
      ensures Valid()
    {
      if |files| == 0 {
        startEnabled := false;
      } else {
        var total := 0;
        var i := 0;
        while i < |files|
          invariant 0 <= i <= |files|
          invariant total == Sum(files[..i])
          modifies {}
        {
          SumStep(files, i);
          total := total + files[i];
          i := i + 1;
        }
        assert files[..|files|] == files;
        totalSize := total;
        startEnabled := true;
        offer := NoOffer;
      }
      triggers := triggers + [Events.FilesChanged(files)];
    }

    /** A change of the file input: an empty choice is ignored, any other
        replaces the selection. */
    method SelectFiles(chosen: seq<nat>)
      requires Valid()
      modifies this`files, this`totalSize, this`startEnabled, this`offer, this`triggers
      ensures chosen == [] ==> unchanged(this)
      ensures chosen != [] ==> files == chosen && totalSize == Sum(chosen) && startEnabled && offer == NoOffer
      ensures chosen != [] ==> triggers == old(triggers) + [Events.FilesChanged(chosen)]
      ensures Valid()
    {
      if |chosen| > 0 {
        files := chosen;
        FilesChanged();
      }
    }

    /** `filesDropped`: the dropped files replace the selection, even when
        there are none. */
    method DropFiles(dropped: seq<nat>)
      requires Valid()
      modifies this`files, this`totalSize, this`startEnabled, this`offer, this`triggers
      ensures files == dropped && triggers == old(triggers) + [Events.FilesChanged(dropped)]
      ensures dropped == [] ==> totalSize == old(totalSize) && !startEnabled && offer == old(offer)
      ensures dropped != [] ==> totalSize == Sum(dropped) && startEnabled && offer == NoOffer
      ensures Valid()
    {
      files := dropped;
      FilesChanged();
    }

    /** `uploadNextFile`: finish the run when the position is past the last
        file, otherwise start the transfer of the file at the position. */
    method UploadNextFile()
      requires Valid()
      modifies this`triggers, this`transfers, this`currentFile, this`created, this`phase
      ensures Valid()
      ensures Advanced(old(triggers), old(transfers), old(currentFile), old(created))
      ensures parentType != File && currentIndex < |files| ==>
                old(currentFile) != currentFile
                && forall k :: 0 <= k < |old(transfers)| ==> old(transfers)[k].record != currentFile.value
      ensures old(ReadyForNext()) ==> InRun()
    {
      ghost var ready := ReadyForNext();
      ghost var transfers0, triggers0 := transfers, triggers;
      if currentIndex >= |files| {
        triggers := triggers + [UploadFinished];
        phase := Finished;
        if ready {
          FinishKeepsRun(transfers0, triggers0);
        }
        return;
      }
      var r := if parentType == File then ParentRecord else NewRecord(created);
      if parentType != File {
        created := created + 1;
      }
      currentFile := Some(r);
      if parentType == File {
        transfers := transfers + [UpdateContents(r, currentIndex, files[currentIndex])];
      } else {
        transfers := transfers + [Upload(r, currentIndex, files[currentIndex])];
      }
      phase := Transferring;
      if ready {
        StartKeepsRun(transfers0, triggers0);
      }
    }

    /** Reporting the end of a run that was ready for its next file leaves a
        finished run. */
    lemma FinishKeepsRun(ts0: seq<Transfer>, es0: seq<Trigger>)
      requires ReadyWith(ts0, es0)
      requires currentIndex >= |files|
      requires transfers == ts0 && triggers == es0 + [UploadFinished] && phase == Finished
      ensures InRun()
    {
      assert triggers[runTriggers..] == es0[runTriggers..] + [UploadFinished];
      FinishesAppend(es0[runTriggers..], UploadFinished);
    }

    /** Starting the file at the position, in a run that was ready for it,
        leaves a run with that file in flight. */
    lemma StartKeepsRun(ts0: seq<Transfer>, es0: seq<Trigger>)
      requires ReadyWith(ts0, es0)
      requires currentIndex < |files| && currentFile.Some?
      requires triggers == es0 && phase == Transferring
      requires transfers == ts0 + [Begin(currentFile.value, currentIndex, files[currentIndex])]
      ensures InRun()
    {
      var t := transfers[|transfers| - 1];
      assert transfers[runTransfers..] == ts0[runTransfers..] + [t];
      StartedAppend(ts0[runTransfers..], t);
      LastBegunAppend(ts0[runTransfers..], t);
      InOrderExtend(RunStartedIn(ts0), currentIndex);
      assert SoundLogs(transfers, triggers) by {
        forall k | runTransfers <= k < |transfers| && transfers[k].Begins()
          ensures transfers[k].index < |files| && transfers[k].size == files[transfers[k].index]
        {
          if k < |ts0| {
            assert transfers[k] == ts0[k];
          }
        }
      }
    }

    /** A request that starts no transfer (a resume or an abort) leaves the
        run's logs sound and its started files as they were. */
    lemma OtherRequestKeepsLogs(ts0: seq<Transfer>, es: seq<Trigger>, t: Transfer)
      requires SoundLogs(ts0, es) && !t.Begins()
      ensures SoundLogs(ts0 + [t], es) && RunStartedIn(ts0 + [t]) == RunStartedIn(ts0)
      ensures RunLatestIn(ts0 + [t]) == RunLatestIn(ts0)
    {
      var ts := ts0 + [t];
      assert ts[runTransfers..] == ts0[runTransfers..] + [t];
      StartedAppend(ts0[runTransfers..], t);
      LastBegunAppend(ts0[runTransfers..], t);
      assert RunStartedIn(ts) == RunStartedIn(ts0);
      forall k | runTransfers <= k < |ts| && ts[k].Begins()
        ensures ts[k].index < |files| && ts[k].size == files[ts[k].index]
      {
        assert ts[k] == ts0[k];
      }
    }

    /** `startUpload`: disable the start button, clear any error, zero the
        position and the byte counter, report `uploadStarted`, and unless the
        host overrides the start, begin with the first file.  The handler
        does not look at the selection: an empty one finishes at once. */
    method StartUpload()
      requires Valid()
      modifies this`startEnabled, this`offer, this`currentIndex, this`overallProgress,
               this`runTransfers, this`runTriggers,
               this`triggers, this`transfers, this`currentFile, this`created, this`phase
      ensures Valid() && InRun()
      ensures !startEnabled && offer == NoOffer
      ensures currentIndex == 0 && overallProgress == 0
      ensures runTransfers == |old(transfers)| && runTriggers == |old(triggers)|
      ensures overrideStart ==>
                && triggers == old(triggers) + [UploadStarted]
                && transfers == old(transfers) && currentFile == old(currentFile)
                && created == old(created) && phase == Idle
      ensures !overrideStart ==> Advanced(old(triggers) + [UploadStarted], old(transfers), old(currentFile), old(created))
    {
      startEnabled := false;
      offer := NoOffer;
      currentIndex := 0;
      overallProgress := 0;
      runTransfers := |transfers|;
      runTriggers := |triggers|;
      triggers := triggers + [UploadStarted];
      phase := Idle;
      NewRunReady();
      if !overrideStart {
        UploadNextFile();
      }
    }

    /** Right after `uploadStarted`, with nothing requested in the run yet,
        the run is ready for its first file. */
    lemma NewRunReady()
      requires runTransfers == |transfers| && runTriggers + 1 == |triggers|
      requires triggers[runTriggers] == UploadStarted
      requires currentIndex == 0 && offer == NoOffer && phase == Idle
      ensures ReadyForNext() && InRun()
    {
      assert triggers[runTriggers..] == [UploadStarted];
      assert [UploadStarted][1..] == [];
      assert transfers[runTransfers..] == [];
    }

    /** `g:upload.complete`: move to the next file and go on. */
    method OnComplete()
      requires Valid()
      modifies this`currentIndex, this`triggers, this`transfers, this`currentFile, this`created, this`phase
      ensures Valid()
      ensures currentIndex == old(currentIndex) + 1
      ensures Advanced(old(triggers), old(transfers), old(currentFile), old(created))
      ensures old(InRun() && phase == Transferring) ==>
                InRun() && (phase == Finished <==> currentIndex == |files|)
    {
      currentIndex := currentIndex + 1;
      UploadNextFile();
    }

    /** `g:upload.chunkSent`: count the bytes the collaborator acknowledged. */
    method OnChunkSent(bytes: nat)
      requires Valid()
      modifies this`overallProgress
      ensures Valid()
      ensures overallProgress == old(overallProgress) + bytes
      ensures old(InRun()) ==> InRun()
    {
      overallProgress := overallProgress + bytes;
    }

    /** `g:upload.progress`: the widths of the current file's bar and of the
        overall bar, for `loaded` bytes past `startByte` of a file of `total`
        bytes.  The widget divides without a check, so both divisors must be
        positive here. */
    method OnProgress(startByte: nat, loaded: nat, total: nat) returns (fileWidth: nat, overallWidth: nat)
      requires total > 0 && totalSize > 0
      ensures fileWidth == Percent(startByte + loaded, total)
      ensures overallWidth == Percent(overallProgress + loaded, totalSize)
      ensures startByte + loaded <= total ==> fileWidth <= 100
      ensures startByte + loaded == total ==> fileWidth == 100
      ensures fileWidth == 0 <==> startByte + loaded == 0
      ensures overallProgress + loaded <= totalSize ==> overallWidth <= 100
      ensures overallWidth == 0 <==> overallProgress + loaded == 0
    {
      var currentProgress := startByte + loaded;
      fileWidth := Percent(currentProgress, total);
      overallWidth := Percent(overallProgress + loaded, totalSize);
      if currentProgress <= total {
        PercentAtMostFull(currentProgress, total);
      }
      if currentProgress == total {
        PercentFull(total);
      }
      PercentEmpty(currentProgress, total);
      if overallProgress + loaded <= totalSize {
        PercentAtMostFull(overallProgress + loaded, totalSize);
      }
      PercentEmpty(overallProgress + loaded, totalSize);
    }

    /** `g:upload.error`: offer to resume. */
    method OnError()
      requires Valid()
      modifies this`offer, this`phase
      ensures Valid()
      ensures offer == ResumeOffer && phase == Interrupted
      ensures old(InRun() && phase == Transferring) ==> InRun()
    {
      offer := ResumeOffer;
      phase := Interrupted;
    }

    /** `g:upload.errorStarting`: offer to restart. */
    method OnErrorStarting()
      requires Valid()
      modifies this`offer, this`phase
      ensures Valid()
      ensures offer == RestartOffer && phase == StartFailed
      ensures old(InRun() && phase == Transferring) ==> InRun()
    {
      offer := RestartOffer;
      phase := StartFailed;
    }

    /** A click on the resume link: clear the error and ask the record of
        the interrupted transfer to resume it. */
    method Resume()
      requires Valid()
      requires offer == ResumeOffer && currentFile.Some?
      modifies this`offer, this`transfers, this`phase
      ensures Valid()
      ensures offer == NoOffer && phase == Transferring
      ensures transfers == old(transfers) + [ResumeUpload(currentFile.value)]
      ensures old(InRun()) ==> InRun()
    {
      ghost var transfers0 := transfers;
      ghost var run := InRun();
      if run {
        var started := RunStartedIn(transfers);
        assert phase.Active() && started != [] && started[|started| - 1] == currentIndex;
        assert currentIndex < |files| && RunFinishesIn(triggers) == 0;
        assert RunLatestIn(transfers) == currentFile;
      }
      offer := NoOffer;
      transfers := transfers + [ResumeUpload(currentFile.value)];
      phase := Transferring;
      if run {
        OtherRequestKeepsLogs(transfers0, triggers, ResumeUpload(currentFile.value));
      }
    }

    /** A click on the restart link: clear the error and start the file at
        the position again, on a fresh record unless the target is a file. */
    method Restart()
      requires Valid()
      requires offer == RestartOffer
      modifies this`offer, this`triggers, this`transfers, this`currentFile, this`created, this`phase
      ensures Valid()
      ensures offer == NoOffer
      ensures Advanced(old(triggers), old(transfers), old(currentFile), old(created))
      ensures parentType != File && currentIndex < |files| ==>
                old(currentFile) != currentFile
                && forall k :: 0 <= k < |old(transfers)| ==> old(transfers)[k].record != currentFile.value
      ensures old(InRun()) ==> InRun() && currentIndex < |files| && phase == Transferring
    {
      offer := NoOffer;
      UploadNextFile();
    }

    /** The modal dialog closing: a partial upload the user can no longer
        resume is aborted. */
    method OnModalHidden()
      requires Valid() && modal
      modifies this`transfers
      ensures Valid()
      ensures transfers == old(transfers) +
                (if offer == ResumeOffer && currentFile.Some? then [AbortUpload(currentFile.value)] else [])
      ensures old(InRun()) ==> InRun()
    {
      if offer == ResumeOffer && currentFile.Some? {
        ghost var transfers0 := transfers;
        transfers := transfers + [AbortUpload(currentFile.value)];
        if old(InRun()) {
          OtherRequestKeepsLogs(transfers0, triggers, AbortUpload(currentFile.value));
        }
      }
    }

    /** While a transfer is in flight, interrupted or failed to start, the
        record the widget holds is the one of the run's latest transfer
        start: resuming or aborting it acts on that transfer. */
    lemma InFlightIsLatest()
      requires InRun() && phase.Active()
      ensures exists k :: runTransfers <= k < |transfers| && transfers[k].Begins()
                && transfers[k].record == currentFile.value
                && forall j :: k < j < |transfers| ==> !transfers[j].Begins()
    {
      var run := transfers[runTransfers..];
      LastBegunIsLatest(run);
      var k :| 0 <= k < |run| && run[k].Begins() && run[k].record == currentFile.value
               && forall j :: k < j < |run| ==> !run[j].Begins();
      assert transfers[runTransfers + k] == run[k];
      forall j | runTransfers + k < j < |transfers|
        ensures !transfers[j].Begins()
      {
        assert transfers[j] == run[j - runTransfers];
      }
    }

    /** A finished run has started every selected file. */
    lemma AllFilesStarted()
      requires InRun() && phase == Finished
      ensures forall i :: 0 <= i < |files| ==> i in RunStartedIn(transfers)
    {
      var started := RunStartedIn(transfers);
      forall i | 0 <= i < |files|
        ensures i in started
      {
        InOrderCovers(started, i);
      }
    }
  }

  /** When the byte counter holds the files before the one in flight plus
      the chunks of that file before `startByte`, the overall bar stays
      within 100%. */
  lemma OverallAtMostFull(files: seq<nat>, index: nat, startByte: nat, loaded: nat)
    requires index < |files| && startByte + loaded <= files[index] && Sum(files) > 0
    ensures Percent(Sum(files[..index]) + startByte + loaded, Sum(files)) <= 100
  {
    SumPriorAndCurrent(files, index, startByte + loaded);
    PercentAtMostFull(Sum(files[..index]) + startByte + loaded, Sum(files));
  }
}
