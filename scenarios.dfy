/**
 * Whole runs of the widget against a collaborator that reports a given
 * sequence of events.  Each scenario drives a fresh widget and returns what
 * the host and the collaborator saw.
 */
module Scenarios {
  import opened Sizes
  import opened Progress
  import opened Events
  import opened Widget

  /** A fresh widget given the files `sizes` and started: the first file is
      in flight and nothing else has happened. */
  method Begun(parentType: ParentType, sizes: seq<nat>) returns (w: UploadWidget)
    requires sizes != []
    ensures fresh(w)
    ensures w.Valid() && w.InRun() && w.modal && w.parentType == parentType
    ensures w.files == sizes && w.totalSize == Sum(sizes)
    ensures w.currentIndex == 0 && w.overallProgress == 0 && w.offer == NoOffer
    ensures w.phase == Transferring && w.currentFile == Some(w.RecordFor(0))
    ensures w.created == (if parentType == File then 0 else 1)
    ensures w.transfers == [w.Begin(w.RecordFor(0), 0, sizes[0])]
    ensures w.triggers == [Events.FilesChanged(sizes), UploadStarted]
  {
    w := new UploadWidget(parentType);
    w.DropFiles(sizes);
    w.StartUpload();
  }

  /** Two files that both go through: they are started in selection order,
      each with its own size, and `uploadFinished` is reported once. */
  method TwoFilesInOrder(a: nat, b: nat) returns (requests: seq<Transfer>, events: seq<Trigger>)
    ensures requests == [Upload(NewRecord(0), 0, a), Upload(NewRecord(1), 1, b)]
    ensures events == [Events.FilesChanged([a, b]), UploadStarted, UploadFinished]
    ensures Finishes(events) == 1
  {
    var w := Begun(Container, [a, b]);
    w.OnComplete();
    w.OnComplete();
    requests := w.transfers;
    events := w.triggers;
    FinishesAppend([Events.FilesChanged([a, b]), UploadStarted], UploadFinished);
  }

  /** Two files, the first acknowledged in full: when the second reports
      all its bytes loaded, both bars are full. */
  method TwoFilesFullBars(a: nat, b: nat) returns (fileWidth: nat, overallWidth: nat)
    requires b > 0
    ensures fileWidth == 100 && overallWidth == 100
  {
    SumPair(a, b);
    PercentFull(b);
    PercentFull(a + b);
    var w := Begun(Container, [a, b]);
    w.OnChunkSent(a);
    w.OnComplete();
    fileWidth, overallWidth := w.OnProgress(0, b, b);
  }

  /** Replacing a file's contents with two selected files is not refused:
      both go to the parent record, one after the other. */
  method FileTargetTwoFiles(a: nat, b: nat) returns (requests: seq<Transfer>)
    ensures requests == [UpdateContents(ParentRecord, 0, a), UpdateContents(ParentRecord, 1, b)]
  {
    var w := Begun(File, [a, b]);
    w.OnComplete();
    w.OnComplete();
    requests := w.transfers;
  }

  /** The bars of a single file sent in one chunk end full. */
  method FullBars(size: nat) returns (fileWidth: nat, overallWidth: nat)
    requires size > 0
    ensures fileWidth == 100 && overallWidth == 100
  {
    var w := Begun(Container, [size]);
    SumSingle(size);
    PercentFull(size);
    fileWidth, overallWidth := w.OnProgress(0, size, size);
  }

  /** A transfer interrupted and resumed goes on on the same record. */
  method ResumedTransfer(size: nat) returns (requests: seq<Transfer>)
    ensures requests == [Upload(NewRecord(0), 0, size), ResumeUpload(NewRecord(0))]
  {
    var w := Begun(Container, [size]);
    w.OnError();
    w.Resume();
    requests := w.transfers;
  }

  /** Bytes acknowledged before an interruption and after the resume add up
      to the file's size: the counter is not reset by the error. */
  method ResumedCount(size: nat, before: nat) returns (counted: nat)
    requires before <= size
    ensures counted == size
  {
    var w := Begun(Container, [size]);
    w.OnChunkSent(before);
    w.OnError();
    w.Resume();
    w.OnChunkSent(size - before);
    counted := w.overallProgress;
  }

  /** A transfer that could not start and is restarted: the same file goes
      out again, on a fresh record. */
  method RestartedTransfer(size: nat) returns (requests: seq<Transfer>)
    ensures requests == [Upload(NewRecord(0), 0, size), Upload(NewRecord(1), 0, size)]
  {
    var w := Begun(Container, [size]);
    w.OnErrorStarting();
    w.Restart();
    requests := w.transfers;
  }

  /** Starting with nothing selected is not refused: the run reports that
      it started and at once that it finished, and requests nothing. */
  method StartWithNothingSelected() returns (requests: seq<Transfer>, events: seq<Trigger>)
    ensures requests == []
    ensures events == [UploadStarted, UploadFinished]
  {
    var w := new UploadWidget(Container);
    w.StartUpload();
    requests := w.transfers;
    events := w.triggers;
  }

  /** Dropping nothing empties the selection but keeps the old total and
      disables the start button; choosing nothing in the file input keeps
      the selection as it was. */
  method EmptySelections(size: nat) returns (chosen: seq<nat>, dropped: seq<nat>, total: nat, enabled: bool)
    ensures chosen == [size] && dropped == [] && total == size && !enabled
  {
    var w := new UploadWidget(Container);
    w.SelectFiles([size]);
    SumSingle(size);
    w.SelectFiles([]);
    chosen := w.files;
    w.DropFiles([]);
    dropped := w.files;
    total := w.totalSize;
    enabled := w.startEnabled;
  }

  /** With the start overridden, starting requests nothing until the host
      calls `uploadNextFile` itself. */
  method OverriddenStart(size: nat) returns (before: seq<Transfer>, after: seq<Transfer>)
    ensures before == [] && after == [Upload(NewRecord(0), 0, size)]
  {
    var w := new UploadWidget(Container, overrideStart := true);
    w.DropFiles([size]);
    w.StartUpload();
    before := w.transfers;
    w.UploadNextFile();
    after := w.transfers;
  }

  /** Closing the dialog while a resume is offered aborts the interrupted
      transfer. */
  method CloseWhileResumable(size: nat) returns (requests: seq<Transfer>)
    ensures requests == [Upload(NewRecord(0), 0, size), AbortUpload(NewRecord(0))]
  {
    var w := Begun(Container, [size]);
    w.OnError();
    w.OnModalHidden();
    requests := w.transfers;
  }

  /** Closing the dialog while a restart is offered aborts nothing. */
  method CloseWhileRestartable(size: nat) returns (requests: seq<Transfer>)
    ensures requests == [Upload(NewRecord(0), 0, size)]
  {
    var w := Begun(Container, [size]);
    w.OnErrorStarting();
    w.OnModalHidden();
    requests := w.transfers;
  }
}
