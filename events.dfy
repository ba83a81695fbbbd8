/**
 * What the upload widget exchanges with the outside: the requests it makes
 * of the transfer collaborator (`FileModel`), and the events it triggers
 * for its host.  Both are kept as logs, in the order they happen.
 */
module Events {

  datatype Option<T> = None | Some(value: T)

  /** A `FileModel` the widget drives a transfer through: the parent record
      itself when the widget replaces a file's contents, otherwise a model
      freshly created for the transfer, numbered in creation order. */
  datatype Record = ParentRecord | NewRecord(serial: nat)

  /** A request the widget makes of the transfer collaborator.  The file
      handed over is named by its position in the selection and its size. */
  datatype Transfer =
    | Upload(record: Record, index: nat, size: nat)          // record.upload(parent, file)
    | UpdateContents(record: Record, index: nat, size: nat)  // record.updateContents(file)
    | ResumeUpload(record: Record)
    | AbortUpload(record: Record)
  {
    /** The request starts the transfer of one selected file. */
    predicate Begins()
    {
      Upload? || UpdateContents?
    }
  }

  /** Events the widget triggers for its host. */
  datatype Trigger =
    | FilesChanged(files: seq<nat>)   // g:filesChanged, with the new selection
    | UploadStarted                   // g:uploadStarted
    | UploadFinished                  // g:uploadFinished

  /** Positions of the files whose transfer the requests start, in order. */
  function Started(ts: seq<Transfer>): (r: seq<nat>)
    ensures |r| <= |ts|
  {
    if ts == [] then []
    else (if ts[0].Begins() then [ts[0].index] else []) + Started(ts[1..])
  }

  /** The record of the latest request that starts a transfer, if any. */
  function LastBegun(ts: seq<Transfer>): Option<Record>
  {
    if ts == [] then None
    else
      var rest := LastBegun(ts[1..]);
      if rest.Some? then rest else if ts[0].Begins() then Some(ts[0].record) else None
  }

  /** How many times the host was told that the upload finished. */
  function Finishes(ts: seq<Trigger>): nat
  {
    if ts == [] then 0 else (if ts[0] == UploadFinished then 1 else 0) + Finishes(ts[1..])
  }

  lemma {:induction false} StartedAppend(ts: seq<Transfer>, t: Transfer)
    ensures Started(ts + [t]) == Started(ts) + (if t.Begins() then [t.index] else [])
  {
    if ts != [] {
      assert (ts + [t])[1..] == ts[1..] + [t];
      StartedAppend(ts[1..], t);
    }
  }

  lemma {:induction false} FinishesAppend(ts: seq<Trigger>, e: Trigger)
    ensures Finishes(ts + [e]) == Finishes(ts) + (if e == UploadFinished then 1 else 0)
  {
    if ts != [] {
      assert (ts + [e])[1..] == ts[1..] + [e];
      FinishesAppend(ts[1..], e);
    }
  }

  lemma {:induction false} LastBegunAppend(ts: seq<Transfer>, t: Transfer)
    ensures LastBegun(ts + [t]) == if t.Begins() then Some(t.record) else LastBegun(ts)
  {
    if ts != [] {
      assert (ts + [t])[1..] == ts[1..] + [t];
      LastBegunAppend(ts[1..], t);
    }
  }

  /** `LastBegun` names the record of a request that starts a transfer, and
      no later request starts one; it is `None` exactly when no request does. */
  lemma {:induction false} LastBegunIsLatest(ts: seq<Transfer>)
    ensures LastBegun(ts) == None <==> forall j :: 0 <= j < |ts| ==> !ts[j].Begins()
    ensures LastBegun(ts).Some? ==>
              exists k :: 0 <= k < |ts| && ts[k].Begins() && ts[k].record == LastBegun(ts).value
                && forall j :: k < j < |ts| ==> !ts[j].Begins()
  {
    if ts != [] {
      var tail := ts[1..];
      LastBegunIsLatest(tail);
      assert forall j :: 0 < j < |ts| ==> ts[j] == tail[j - 1];
      if LastBegun(tail).Some? {
        var k :| 0 <= k < |tail| && tail[k].Begins() && tail[k].record == LastBegun(tail).value
                 && forall j :: k < j < |tail| ==> !tail[j].Begins();
        assert ts[k + 1] == tail[k];
        assert forall j :: k + 1 < j < |ts| ==> !ts[j].Begins() by {
          forall j | k + 1 < j < |ts| ensures !ts[j].Begins() {
            assert ts[j] == tail[j - 1];
          }
        }
      } else if ts[0].Begins() {
        assert forall j :: 0 < j < |ts| ==> !ts[j].Begins() by {
          forall j | 0 < j < |ts| ensures !ts[j].Begins() {
            assert ts[j] == tail[j - 1];
          }
        }
      }
    }
  }

  /** Transfers go out in selection order: the first is for file 0, and each
      next one is for the same file again (a restart) or the file after. */
  ghost predicate InOrder(s: seq<nat>)
  {
    if |s| <= 1 then s == [] || s[0] == 0
    else
      && InOrder(s[..|s| - 1])
      && (s[|s| - 1] == s[|s| - 2] || s[|s| - 1] == s[|s| - 2] + 1)
  }

  /** In-order transfers never go back to an earlier file. */
  lemma {:induction false} InOrderSorted(s: seq<nat>, i: nat, j: nat)
    requires InOrder(s)
    requires i <= j < |s|
    ensures s[i] <= s[j]
  {
    if j < |s| - 1 {
      assert s[..|s| - 1][i] == s[i] && s[..|s| - 1][j] == s[j];
      InOrderSorted(s[..|s| - 1], i, j);
    } else if i < j {
      assert s[..|s| - 1][i] == s[i] && s[..|s| - 1][j - 1] == s[j - 1];
      InOrderSorted(s[..|s| - 1], i, j - 1);
    }
  }

  /** In-order transfers skip no file: every file up to the latest one
      transferred has been transferred. */
  lemma {:induction false} InOrderCovers(s: seq<nat>, m: nat)
    requires InOrder(s)
    requires |s| > 0 && m <= s[|s| - 1]
    ensures m in s
  {
    if m < s[|s| - 1] {
      var init := s[..|s| - 1];
      InOrderCovers(init, m);
      assert init[|init| - 1] == s[|s| - 2];
      assert s == init + [s[|s| - 1]];
    }
  }

  /** Appending the same file again, or the next one, keeps the order. */
  lemma InOrderExtend(s: seq<nat>, x: nat)
    requires InOrder(s)
    requires if s == [] then x == 0 else x == s[|s| - 1] || x == s[|s| - 1] + 1
    ensures InOrder(s + [x])
  {
    assert (s + [x])[..|s|] == s;
  }
}
