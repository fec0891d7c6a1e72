/** The upload page's orchestration: the list of file states it owns, the
    keyed update every upload callback goes through, one upload batch (each
    pending file is uploaded, progress is reported, an abort puts the file
    back to pending, a failure marks it and fails the batch) followed by at
    most one create-link request, and the reset of the page.

    The uploads of a batch run concurrently in the browser; here each file's
    callbacks are one event record, and the records are applied in list
    order. The one-second pause before a file at 100% is marked complete is
    taken to end after that file's upload has settled. */
module Upload {
  import opened Common
  import opened Dropzone
  import CreateLink

  type FileRef = CreateLink.FileRef

  // ---------------------------------------------------------------------
  // updateFileState(key, changes)
  // ---------------------------------------------------------------------

  /** A `Partial<FileState>`: the fields a change sets. */
  datatype Changes = Changes(file: Option<FileInfo>, key: Option<string>,
                             progress: Option<Progress>, abortable: Option<bool>)

  function SetProgress(p: Progress): Changes {
    Changes(None, None, Some(p), None)
  }

  const AttachAbort: Changes := Changes(None, None, None, Some(true))

  /** `{ ...fileState, ...changes }`. */
  function Merge(fs: FileState, ch: Changes): FileState {
    FileState(ch.file.GetOr(fs.file), ch.key.GetOr(fs.key),
              ch.progress.GetOr(fs.progress), ch.abortable.GetOr(fs.abortable))
  }

  /** Every entry whose key matches gets the changed fields; the rest of the
      list, its length and its order stay as they were. */
  function UpdateFileState(states: seq<FileState>, key: string, ch: Changes): (r: seq<FileState>)
    ensures |r| == |states|
    ensures forall i :: 0 <= i < |states| && states[i].key != key ==> r[i] == states[i]
    ensures forall i :: 0 <= i < |states| && states[i].key == key ==>
              && r[i].file == ch.file.GetOr(states[i].file)
              && r[i].key == ch.key.GetOr(key)
              && r[i].progress == ch.progress.GetOr(states[i].progress)
              && r[i].abortable == ch.abortable.GetOr(states[i].abortable)
  {
    if states == [] then []
    else
      [if states[0].key == key then Merge(states[0], ch) else states[0]]
      + UpdateFileState(states[1..], key, ch)
  }

  // ---------------------------------------------------------------------
  // The events of one upload
  // ---------------------------------------------------------------------

  /** A thrown value: an `Error` with its message, or anything else. */
  datatype Thrown = ErrorValue(message: string) | OtherValue

  /** How `edgestore.publicFiles.upload` settled. */
  datatype UploadResult = Uploaded(url: string) | Aborted | Failed(thrown: Thrown)

  /** The progress reports of one upload, in order, and how it settled. */
  datatype UploadEvents = UploadEvents(reports: seq<Percentage>, result: UploadResult)

  /** The reports applied, one keyed update each. */
  function ApplyReports(states: seq<FileState>, key: string, reports: seq<Percentage>): (r: seq<FileState>)
    ensures |r| == |states|
    ensures forall i :: 0 <= i < |states| && states[i].key != key ==> r[i] == states[i]
    ensures forall i :: 0 <= i < |states| ==> r[i].file == states[i].file && r[i].key == states[i].key
    decreases |reports|
  {
    if reports == [] then states
    else UpdateFileState(ApplyReports(states, key, reports[..|reports| - 1]), key,
                         SetProgress(Percent(reports[|reports| - 1])))
  }

  /** All updates made for one attempted upload under `key`: attach the
      abort controller, each report, the settling, and the deferred
      `COMPLETE` after a report of 100. */
  function RunUpload(states: seq<FileState>, key: string, ev: UploadEvents): (r: seq<FileState>)
    ensures |r| == |states|
    ensures forall i :: 0 <= i < |states| && states[i].key != key ==> r[i] == states[i]
    ensures forall i :: 0 <= i < |states| ==> r[i].file == states[i].file && r[i].key == states[i].key
  {
    var attached := UpdateFileState(states, key, AttachAbort);
    var reported := ApplyReports(attached, key, ev.reports);
    var settled :=
      match ev.result
      case Uploaded(_) => reported
      case Aborted => UpdateFileState(reported, key, SetProgress(Pending))
      case Failed(_) => UpdateFileState(reported, key, SetProgress(Error));
    if 100 in ev.reports then UpdateFileState(settled, key, SetProgress(Complete)) else settled
  }

  /** One entry of the batch's snapshot: only a pending file is uploaded. */
  function Step(states: seq<FileState>, s: FileState, ev: UploadEvents): (r: seq<FileState>)
    ensures s.progress != Pending ==> r == states
    ensures |r| == |states|
    ensures forall i :: 0 <= i < |states| && states[i].key != s.key ==> r[i] == states[i]
    ensures forall i :: 0 <= i < |states| ==> r[i].file == states[i].file && r[i].key == states[i].key
  {
    if s.progress == Pending then RunUpload(states, s.key, ev) else states
  }

  /** The file states after the batch over `snapshot`, starting from `states`. */
  function Batch(states: seq<FileState>, snapshot: seq<FileState>, events: seq<UploadEvents>): (r: seq<FileState>)
    requires |events| == |snapshot|
    // the batch never adds, drops, reorders or renames an entry
    ensures |r| == |states|
    ensures forall i :: 0 <= i < |states| ==> r[i].file == states[i].file && r[i].key == states[i].key
    decreases |snapshot|
  {
    if snapshot == [] then states
    else Step(Batch(states, snapshot[..|snapshot| - 1], events[..|events| - 1]),
              snapshot[|snapshot| - 1], events[|events| - 1])
  }

  /** What an entry returns to `Promise.all`: `{url, filename}` for an
      uploaded pending file, null for a skipped or aborted one. A failed
      upload rejects instead, which `FirstFailure` records; the null given
      to it here is a placeholder that is never sent. */
  function ResultOf(s: FileState, ev: UploadEvents): (r: Option<FileRef>)
    ensures r.Some? <==> s.progress == Pending && ev.result.Uploaded?
    ensures r.Some? ==> r.value == CreateLink.FileRef(ev.result.url, s.file.name)
  {
    if s.progress != Pending then None
    else match ev.result
      case Uploaded(url) => Some(CreateLink.FileRef(url, s.file.name))
      case _ => None
  }

  function Results(snapshot: seq<FileState>, events: seq<UploadEvents>): (rs: seq<Option<FileRef>>)
    requires |events| == |snapshot|
    ensures |rs| == |snapshot|
    ensures forall i :: 0 <= i < |rs| ==> rs[i] == ResultOf(snapshot[i], events[i])
    // only a pending entry whose upload succeeded gives a result; skipped,
    // aborted and failed entries give null
    ensures forall i :: 0 <= i < |rs| ==>
              (rs[i].Some? <==> snapshot[i].progress == Pending && events[i].result.Uploaded?)
    // the result pairs the stored URL with the file's own name
    ensures forall i :: 0 <= i < |rs| && rs[i].Some? ==>
              rs[i].value == CreateLink.FileRef(events[i].result.url, snapshot[i].file.name)
  {
    seq(|snapshot|, i requires 0 <= i < |snapshot| => ResultOf(snapshot[i], events[i]))
  }

  /** An entry whose upload throws something other than an abort. */
  predicate FailsAt(snapshot: seq<FileState>, events: seq<UploadEvents>, i: int)
    requires |events| == |snapshot|
  {
    0 <= i < |snapshot| && snapshot[i].progress == Pending && events[i].result.Failed?
  }

  /** The value the batch's `Promise.all` rejects with: the first failure. */
  function FirstFailure(snapshot: seq<FileState>, events: seq<UploadEvents>): (f: Option<Thrown>)
    requires |events| == |snapshot|
    ensures f.None? <==> forall i :: 0 <= i < |snapshot| ==> !FailsAt(snapshot, events, i)
    ensures f.Some? ==> exists i :: FailsAt(snapshot, events, i) && f.value == events[i].result.thrown
                                    && forall j :: 0 <= j < i ==> !FailsAt(snapshot, events, j)
    decreases |snapshot|
  {
    if snapshot == [] then None
    else
      var n := |snapshot| - 1;
      var earlier := FirstFailure(snapshot[..n], events[..n]);
      assert forall i :: 0 <= i < n ==> (FailsAt(snapshot[..n], events[..n], i) <==> FailsAt(snapshot, events, i));
      if earlier.Some? then earlier
      else if FailsAt(snapshot, events, n) then Some(events[n].result.thrown)
      else None
  }

  /** `results.filter(result => result !== null)`. */
  function Somes(rs: seq<Option<FileRef>>): (r: seq<FileRef>)
    ensures |r| <= |rs|
    ensures r == [] <==> forall i :: 0 <= i < |rs| ==> rs[i].None?
  {
    if rs == [] then []
    else (if rs[0].Some? then [rs[0].value] else []) + Somes(rs[1..])
  }

  /** Filtering keeps order: it distributes over concatenation. */
  lemma {:induction false} SomesAppend(a: seq<Option<FileRef>>, b: seq<Option<FileRef>>)
    ensures Somes(a + b) == Somes(a) + Somes(b)
  {
    if a != [] {
      assert (a + b)[0] == a[0] && (a + b)[1..] == a[1..] + b;
      SomesAppend(a[1..], b);
    } else {
      assert a + b == b;
    }
  }

  /** The file list sent to create-link when the batch did not fail. */
  function Payload(snapshot: seq<FileState>, events: seq<UploadEvents>): (r: seq<FileRef>)
    requires |events| == |snapshot|
    ensures |r| <= |snapshot|
    // nothing is sent exactly when no pending file was uploaded
    ensures r == [] <==> forall i :: 0 <= i < |snapshot| ==>
                          !(snapshot[i].progress == Pending && events[i].result.Uploaded?)
  {
    Somes(Results(snapshot, events))
  }

  /** The payload grows entry by entry in list order. */
  lemma PayloadExtends(snapshot: seq<FileState>, events: seq<UploadEvents>, s: FileState, ev: UploadEvents)
    requires |events| == |snapshot|
    ensures Payload(snapshot + [s], events + [ev]) ==
              Payload(snapshot, events) + (if ResultOf(s, ev).Some? then [ResultOf(s, ev).value] else [])
  {
    assert Results(snapshot + [s], events + [ev]) == Results(snapshot, events) + [ResultOf(s, ev)];
    SomesAppend(Results(snapshot, events), [ResultOf(s, ev)]);
    assert [ResultOf(s, ev)][1..] == [];
  }

  // ---------------------------------------------------------------------
  // The same batch, entry by entry
  // ---------------------------------------------------------------------

  /** The progress an attempted file ends with. */
  function SettledProgress(p: Progress, ev: UploadEvents): Progress {
    if 100 in ev.reports then Complete
    else match ev.result
      case Aborted => Pending
      case Failed(_) => Error
      case Uploaded(_) => if ev.reports == [] then p else Percent(ev.reports[|ev.reports| - 1])
  }

  /** Reference definition of one entry after the batch: untouched unless
      pending; otherwise it has a controller and its settled progress. */
  function EntryAfter(s: FileState, ev: UploadEvents): (r: FileState)
    ensures r.file == s.file && r.key == s.key
    ensures s.progress != Pending ==> r == s
    ensures s.progress == Pending ==> r.abortable
    ensures s.progress == Pending && 100 in ev.reports ==> r.progress == Complete
    ensures s.progress == Pending && 100 !in ev.reports && ev.result.Aborted? ==> r.progress == Pending
    ensures s.progress == Pending && 100 !in ev.reports && ev.result.Failed? ==> r.progress == Error
  {
    if s.progress != Pending then s
    else s.(progress := SettledProgress(s.progress, ev), abortable := true)
  }

  predicate UniqueKeys(states: seq<FileState>) {
    forall i, j :: 0 <= i < j < |states| ==> states[i].key != states[j].key
  }

  /** The reports touch only the entries under `key`, which end at the last report. */
  lemma {:induction false} ApplyReportsPointwise(states: seq<FileState>, key: string, reports: seq<Percentage>)
    ensures |ApplyReports(states, key, reports)| == |states|
    ensures forall i :: 0 <= i < |states| ==>
              (ApplyReports(states, key, reports)[i] ==
                 if states[i].key != key || reports == [] then states[i]
                 else states[i].(progress := Percent(reports[|reports| - 1])))
    decreases |reports|
  {
    if reports != [] {
      ApplyReportsPointwise(states, key, reports[..|reports| - 1]);
    }
  }

  /** One upload changes exactly the entries under its key, each as `EntryAfter` says. */
  lemma RunUploadPointwise(states: seq<FileState>, key: string, ev: UploadEvents)
    ensures |RunUpload(states, key, ev)| == |states|
    ensures forall i :: 0 <= i < |states| ==>
              (RunUpload(states, key, ev)[i] ==
                 if states[i].key != key then states[i]
                 else states[i].(progress := SettledProgress(states[i].progress, ev), abortable := true))
  {
    var attached := UpdateFileState(states, key, AttachAbort);
    ApplyReportsPointwise(attached, key, ev.reports);
    var reported := ApplyReports(attached, key, ev.reports);
    var settled :=
      match ev.result
      case Uploaded(_) => reported
      case Aborted => UpdateFileState(reported, key, SetProgress(Pending))
      case Failed(_) => UpdateFileState(reported, key, SetProgress(Error));
    var done := if 100 in ev.reports then UpdateFileState(settled, key, SetProgress(Complete)) else settled;
    assert done == RunUpload(states, key, ev);
    forall i | 0 <= i < |states|
      ensures done[i] == if states[i].key != key then states[i]
                         else states[i].(progress := SettledProgress(states[i].progress, ev), abortable := true)
    {
      assert attached[i].key == states[i].key;
      assert reported[i].key == states[i].key;
    }
  }

  /** With distinct keys, the batch over the first `n` entries has replaced
      each of them by `EntryAfter` and left the others alone. */
  lemma {:induction false} BatchPrefix(snapshot: seq<FileState>, events: seq<UploadEvents>, n: nat)
    requires |events| == |snapshot| && UniqueKeys(snapshot) && n <= |snapshot|
    ensures |Batch(snapshot, snapshot[..n], events[..n])| == |snapshot|
    ensures forall i :: 0 <= i < |snapshot| ==>
              (Batch(snapshot, snapshot[..n], events[..n])[i] ==
                 if i < n then EntryAfter(snapshot[i], events[i]) else snapshot[i])
  {
    if n > 0 {
      var m := n - 1;
      BatchPrefix(snapshot, events, m);
      assert snapshot[..n][..m] == snapshot[..m];
      assert events[..n][..m] == events[..m];
      var before := Batch(snapshot, snapshot[..m], events[..m]);
      assert Batch(snapshot, snapshot[..n], events[..n]) == Step(before, snapshot[m], events[m]);
      if snapshot[m].progress == Pending {
        RunUploadPointwise(before, snapshot[m].key, events[m]);
      }
    }
  }

  /** The batch's effect on the list, entry by entry, when keys are distinct:
      non-pending entries are untouched, an aborted upload is pending again,
      a failed one is marked as an error, one that reached 100% is complete. */
  lemma BatchIsPerEntry(snapshot: seq<FileState>, events: seq<UploadEvents>)
    requires |events| == |snapshot| && UniqueKeys(snapshot)
    ensures |Batch(snapshot, snapshot, events)| == |snapshot|
    ensures forall i :: 0 <= i < |snapshot| ==>
              Batch(snapshot, snapshot, events)[i] == EntryAfter(snapshot[i], events[i])
  {
    BatchPrefix(snapshot, events, |snapshot|);
    assert snapshot[..|snapshot|] == snapshot && events[..|events|] == events;
  }

  /** Extending the batch's snapshot prefix by entry `i` adds one step of the fold. */
  lemma BatchStep(snapshot: seq<FileState>, events: seq<UploadEvents>, i: nat)
    requires |events| == |snapshot| && i < |snapshot|
    ensures Batch(snapshot, snapshot[..i + 1], events[..i + 1])
            == Step(Batch(snapshot, snapshot[..i], events[..i]), snapshot[i], events[i])
  {
    assert snapshot[..i + 1][..i] == snapshot[..i] && events[..i + 1][..i] == events[..i];
  }

  /** Extending the batch's snapshot prefix by entry `i`: one more step of
      the fold, one more result, and the first failure kept or found there.
      It bundles `BatchStep`, `ResultsStep` and `FailureStep` for the loop
      of `HandleUpload`. */
  lemma PrefixStep(snapshot: seq<FileState>, events: seq<UploadEvents>, i: nat)
    requires |events| == |snapshot| && i < |snapshot|
    ensures Batch(snapshot, snapshot[..i + 1], events[..i + 1])
            == Step(Batch(snapshot, snapshot[..i], events[..i]), snapshot[i], events[i])
    ensures Results(snapshot[..i + 1], events[..i + 1]) == Results(snapshot[..i], events[..i]) + [ResultOf(snapshot[i], events[i])]
    ensures FirstFailure(snapshot[..i + 1], events[..i + 1]) ==
              if FirstFailure(snapshot[..i], events[..i]).Some? then FirstFailure(snapshot[..i], events[..i])
              else if snapshot[i].progress == Pending && events[i].result.Failed? then Some(events[i].result.thrown)
              else None
  {
    BatchStep(snapshot, events, i);
    ResultsStep(snapshot, events, i);
    FailureStep(snapshot, events, i);
  }

  lemma ResultsStep(snapshot: seq<FileState>, events: seq<UploadEvents>, i: nat)
    requires |events| == |snapshot| && i < |snapshot|
    ensures Results(snapshot[..i + 1], events[..i + 1]) == Results(snapshot[..i], events[..i]) + [ResultOf(snapshot[i], events[i])]
  {
    var long := Results(snapshot[..i + 1], events[..i + 1]);
    var short := Results(snapshot[..i], events[..i]);
    forall j | 0 <= j < i + 1
      ensures long[j] == (short + [ResultOf(snapshot[i], events[i])])[j]
    {
      if j < i {
        assert long[j] == ResultOf(snapshot[j], events[j]) == short[j];
      }
    }
  }

  lemma FailureStep(snapshot: seq<FileState>, events: seq<UploadEvents>, i: nat)
    requires |events| == |snapshot| && i < |snapshot|
    ensures FirstFailure(snapshot[..i + 1], events[..i + 1]) ==
              if FirstFailure(snapshot[..i], events[..i]).Some? then FirstFailure(snapshot[..i], events[..i])
              else if snapshot[i].progress == Pending && events[i].result.Failed? then Some(events[i].result.thrown)
              else None
  {
    assert snapshot[..i + 1][..i] == snapshot[..i] && events[..i + 1][..i] == events[..i];
    assert FailsAt(snapshot[..i + 1], events[..i + 1], i) <==>
             snapshot[i].progress == Pending && events[i].result.Failed?;
  }

  /** Two pending files in one batch, the first uploaded and the second
      cancelled before reaching 100%: the batch does not fail, create-link
      gets exactly the first file, and the second is pending again. */
  lemma OneUploadedOneCancelled(a: FileState, b: FileState, url: string,
                                reportsA: seq<Percentage>, reportsB: seq<Percentage>)
    requires a.progress == Pending && b.progress == Pending && a.key != b.key
    requires 100 !in reportsB
    ensures var events := [UploadEvents(reportsA, Uploaded(url)), UploadEvents(reportsB, Aborted)];
            && FirstFailure([a, b], events).None?
            && Payload([a, b], events) == [CreateLink.FileRef(url, a.file.name)]
            && |Batch([a, b], [a, b], events)| == 2
            && Batch([a, b], [a, b], events)[1].progress == Pending
  {
    var events := [UploadEvents(reportsA, Uploaded(url)), UploadEvents(reportsB, Aborted)];
    BatchIsPerEntry([a, b], events);
    var rs := Results([a, b], events);
    assert rs == [Some(CreateLink.FileRef(url, a.file.name)), None];
    assert rs[1..] == [None] && rs[1..][1..] == [];
  }

  // ---------------------------------------------------------------------
  // pendingUploads
  // ---------------------------------------------------------------------

  /** The number of pending entries, as shown on the upload button. */
  function PendingCount(states: seq<FileState>): (n: nat)
    ensures n <= |states|
    ensures n == 0 <==> forall i :: 0 <= i < |states| ==> states[i].progress != Pending
    ensures n == |states| <==> forall i :: 0 <= i < |states| ==> states[i].progress == Pending
  {
    if states == [] then 0
    else (if states[0].progress == Pending then 1 else 0) + PendingCount(states[1..])
  }

  lemma {:induction false} PendingCountAppend(a: seq<FileState>, b: seq<FileState>)
    ensures PendingCount(a + b) == PendingCount(a) + PendingCount(b)
  {
    if a != [] {
      assert (a + b)[0] == a[0] && (a + b)[1..] == a[1..] + b;
      PendingCountAppend(a[1..], b);
    } else {
      assert a + b == b;
    }
  }

  /** Removing a pending entry lowers the count by one, any other entry
      leaves it unchanged. */
  lemma {:induction false} PendingCountRemoveAt(states: seq<FileState>, i: nat)
    requires i < |states|
    ensures PendingCount(RemoveAt(states, i)) ==
              PendingCount(states) - (if states[i].progress == Pending then 1 else 0)
  {
    if i > 0 {
      var rest := RemoveAt(states[1..], i - 1);
      PendingCountRemoveAt(states[1..], i - 1);
      assert ([states[0]] + rest)[0] == states[0] && ([states[0]] + rest)[1..] == rest;
    }
  }

  /** Every file the dropzone accepts adds one to the pending count. */
  lemma DropAddsPending(value: seq<FileState>, dropped: seq<FileInfo>, keys: seq<string>)
    requires |keys| == |dropped|
    ensures PendingCount(value + NewEntries(dropped, keys)) == PendingCount(value) + |dropped|
  {
    PendingCountAppend(value, NewEntries(dropped, keys));
  }

  /** A batch in which every pending upload reached 100% leaves no
      pending file. */
  lemma CompletedBatchLeavesNothingPending(snapshot: seq<FileState>, events: seq<UploadEvents>)
    requires |events| == |snapshot| && UniqueKeys(snapshot)
    requires forall i :: 0 <= i < |snapshot| && snapshot[i].progress == Pending ==> 100 in events[i].reports
    ensures PendingCount(Batch(snapshot, snapshot, events)) == 0
  {
    BatchIsPerEntry(snapshot, events);
  }

  // ---------------------------------------------------------------------
  // The create-link request and the share URL
  // ---------------------------------------------------------------------

  /** `JSON.stringify({ files })`, as the handler parses it back. */
  function EntryJson(f: FileRef): (j: CreateLink.Json)
    ensures forall isUrl: string -> bool :: CreateLink.ValidEntry(j, isUrl) <==> isUrl(f.url) && f.filename != []
    ensures forall isUrl: string -> bool :: CreateLink.ValidEntry(j, isUrl) ==> CreateLink.EntryRef(j, isUrl) == f
  {
    CreateLink.JObject(map["url" := CreateLink.JString(f.url), "filename" := CreateLink.JString(f.filename)])
  }

  /** `JSON.stringify({ files: successfulUploads })`. */
  function PayloadJson(files: seq<FileRef>): (j: CreateLink.Json)
    ensures j.JObject? && "files" in j.fields && j.fields["files"].JArray?
    ensures |j.fields["files"].items| == |files|
    ensures forall i :: 0 <= i < |files| ==> j.fields["files"].items[i] == EntryJson(files[i])
  {
    CreateLink.JObject(map["files" := CreateLink.JArray(
      seq(|files|, i requires 0 <= i < |files| => EntryJson(files[i])))])
  }

  /** The request body the page sends is accepted by the handler exactly
      when it is non-empty and every entry has a URL and a non-empty name,
      and then the handler reads back the same files in the same order. */
  lemma PayloadRoundTrip(files: seq<FileRef>, isUrl: string -> bool)
    ensures CreateLink.Validate(PayloadJson(files), isUrl).Some? <==>
              files != [] && forall i :: 0 <= i < |files| ==> isUrl(files[i].url) && files[i].filename != []
    ensures CreateLink.Validate(PayloadJson(files), isUrl).Some? ==>
              CreateLink.Validate(PayloadJson(files), isUrl).value == files
  {
    var j := PayloadJson(files);
    var items := j.fields["files"].items;
    assert |items| == |files|;
    assert forall i :: 0 <= i < |files| ==>
             (CreateLink.ValidEntry(items[i], isUrl) <==> isUrl(files[i].url) && files[i].filename != []);
    var v := CreateLink.Validate(j, isUrl);
    if v.Some? {
      assert forall i :: 0 <= i < |files| ==> v.value[i] == CreateLink.EntryRef(items[i], isUrl) == files[i];
    }
  }

  /** `${window.location.origin}/share/${shareId}`. */
  function ShareUrl(origin: string, shareId: string): (u: string)
    ensures |u| == |origin| + 7 + |shareId|
    ensures u[..|origin|] == origin
    ensures u[|origin|..|origin| + 7] == "/share/"
    ensures u[|origin| + 7..] == shareId
  {
    origin + "/share/" + shareId
  }

  /** The page shows a different link for every share id. */
  lemma ShareUrlInjective(origin: string, a: string, b: string)
    requires ShareUrl(origin, a) == ShareUrl(origin, b)
    ensures a == b
  {
  }

  /** The JSON body of the create-link answer, as the page reads it. */
  datatype ShareLinkResponse = ShareLinkResponse(shareId: string, message: Option<string>)

  /** The create-link answer: a response with its `ok` flag and body, or a
      rejection of `fetch` / `res.json()`. */
  datatype LinkReply = Replied(ok: bool, data: ShareLinkResponse) | Unreachable(thrown: Thrown)

  /** `err instanceof Error ? err.message : "Failed to upload files"`. */
  function ThrownText(t: Thrown): (m: string)
    ensures t.ErrorValue? ==> m == t.message
    ensures t.OtherValue? ==> m == "Failed to upload files"
  {
    match t
    case ErrorValue(m) => m
    case OtherValue => "Failed to upload files"
  }

  /** `data.message || "Failed to create share link"`. */
  function RejectedText(data: ShareLinkResponse): (m: string)
    ensures m == "Failed to create share link" <==> data.message.None? || data.message.value in {"", "Failed to create share link"}
    // a non-empty server message is shown as it is
    ensures data.message.Some? && data.message.value != "" ==> m == data.message.value
  {
    if data.message.Some? && data.message.value != "" then data.message.value else "Failed to create share link"
  }

  // ---------------------------------------------------------------------
  // The page's state
  // ---------------------------------------------------------------------

  /** The state of the upload page that the model covers. */
  class Uploader {
    var fileStates: seq<FileState>
    var error: Option<string>
    var sharedUrl: string
    var isUploading: bool
    var showUploadBox: bool

    constructor ()
      ensures fileStates == [] && error == None && sharedUrl == ""
      ensures !isUploading && showUploadBox
    {
      fileStates := [];
      error := None;
      sharedUrl := "";
      isUploading := false;
      showUploadBox := true;
    }

    /** `onFilesAdded`: the dropzone's new entries are appended. */
    method AddFiles(added: seq<FileState>)
      modifies this
      ensures fileStates == old(fileStates) + added
      ensures error == old(error) && sharedUrl == old(sharedUrl)
      ensures isUploading == old(isUploading) && showUploadBox == old(showUploadBox)
    {
      fileStates := fileStates + added;
    }

    /** The dropzone's remove button, shown only for a pending entry,
        hands back the list without that entry through `onChange`. */
    method RemoveFile(i: nat)
      requires showUploadBox
      requires i < |fileStates| && Control(fileStates[i]) == RemoveButton
      modifies this
      ensures fileStates == old(fileStates[..i] + fileStates[i + 1..])
      ensures PendingCount(fileStates) == old(PendingCount(fileStates)) - 1
      ensures error == old(error) && sharedUrl == old(sharedUrl)
      ensures isUploading == old(isUploading) && showUploadBox == old(showUploadBox)
    {
      RemoveAtIsSplice(fileStates, i);
      PendingCountRemoveAt(fileStates, i);
      fileStates := RemoveAt(fileStates, i);
    }

    /** One entry of `fileStates.map(async ...)`: skipped unless pending;
        otherwise its controller is attached, its progress reports applied,
        its settling recorded and, after a report of 100, it is completed.
        Returns the entry's result and what it threw, if anything but an abort. */
    method UploadOne(s: FileState, ev: UploadEvents) returns (result: Option<FileRef>, thrown: Option<Thrown>)
      modifies this
      ensures fileStates == Step(old(fileStates), s, ev)
      ensures result == ResultOf(s, ev)
      ensures thrown == (if s.progress == Pending && ev.result.Failed? then Some(ev.result.thrown) else None)
      ensures error == old(error) && sharedUrl == old(sharedUrl)
      ensures isUploading == old(isUploading) && showUploadBox == old(showUploadBox)
    {
      if s.progress != Pending {
        return None, None;
      }
      fileStates := UpdateFileState(fileStates, s.key, AttachAbort);
      ghost var attached := fileStates;
      var reachedFull := false;
      var j := 0;
      while j < |ev.reports|
        invariant 0 <= j <= |ev.reports|
        invariant fileStates == ApplyReports(attached, s.key, ev.reports[..j])
        invariant reachedFull <==> 100 in ev.reports[..j]
        invariant error == old(error) && sharedUrl == old(sharedUrl)
        invariant isUploading == old(isUploading) && showUploadBox == old(showUploadBox)
      {
        assert ev.reports[..j + 1][..j] == ev.reports[..j];
        fileStates := UpdateFileState(fileStates, s.key, SetProgress(Percent(ev.reports[j])));
        if ev.reports[j] == 100 {
          reachedFull := true;
        }
        j := j + 1;
      }
      assert ev.reports[..j] == ev.reports;
      match ev.result {
        case Uploaded(url) =>
          result, thrown := Some(CreateLink.FileRef(url, s.file.name)), None;
        case Aborted =>
          fileStates := UpdateFileState(fileStates, s.key, SetProgress(Pending));
          result, thrown := None, None;
        case Failed(t) =>
          fileStates := UpdateFileState(fileStates, s.key, SetProgress(Error));
          result, thrown := None, Some(t);
      }
      if reachedFull {
        fileStates := UpdateFileState(fileStates, s.key, SetProgress(Complete));
      }
    }

    /** `handleUpload`. `events[i]` is what the upload of entry `i` reports
        (ignored unless that entry is pending), `origin` is the page origin
        and `reply` the create-link answer. Returns the file list sent to
        create-link, or None when no request is made. */
    method HandleUpload(events: seq<UploadEvents>, origin: string, reply: LinkReply)
      returns (request: Option<seq<FileRef>>)
      requires |events| == |fileStates|
      modifies this
      ensures fileStates == Batch(old(fileStates), old(fileStates), events)
      ensures !isUploading
      ensures FirstFailure(old(fileStates), events).Some? ==>
                && request.None?
                && error == Some(ThrownText(FirstFailure(old(fileStates), events).value))
                && sharedUrl == old(sharedUrl) && showUploadBox == old(showUploadBox)
      ensures FirstFailure(old(fileStates), events).None? && Payload(old(fileStates), events) == [] ==>
                request.None? && error.None? && sharedUrl == old(sharedUrl) && showUploadBox == old(showUploadBox)
      ensures FirstFailure(old(fileStates), events).None? && Payload(old(fileStates), events) != [] ==>
                && request == Some(Payload(old(fileStates), events))
                && (reply.Unreachable? ==>
                      error == Some(ThrownText(reply.thrown))
                      && sharedUrl == old(sharedUrl) && showUploadBox == old(showUploadBox))
                && (reply.Replied? && !reply.ok ==>
                      error == Some(RejectedText(reply.data))
                      && sharedUrl == old(sharedUrl) && showUploadBox == old(showUploadBox))
                && (reply.Replied? && reply.ok ==>
                      error.None? && sharedUrl == ShareUrl(origin, reply.data.shareId) && !showUploadBox)
    {
      var snapshot := fileStates;
      error := None;
      isUploading := true;
      var results: seq<Option<FileRef>> := [];
      var failure: Option<Thrown> := None;
      var i := 0;
      while i < |snapshot|
        invariant 0 <= i <= |snapshot| && |events| == |snapshot|
        invariant fileStates == Batch(snapshot, snapshot[..i], events[..i])
        invariant results == Results(snapshot[..i], events[..i])
        invariant failure == FirstFailure(snapshot[..i], events[..i])
        invariant error.None? && sharedUrl == old(sharedUrl) && showUploadBox == old(showUploadBox)
      {
        PrefixStep(snapshot, events, i);
        var result, thrown := UploadOne(snapshot[i], events[i]);
        results := results + [result];
        if failure.None? && thrown.Some? {
          failure := thrown;
        }
        i := i + 1;
      }
      assert snapshot[..i] == snapshot && events[..i] == events;

      request := Conclude(failure, Somes(results), origin, reply);
    }

    /** The end of `handleUpload`: a failed batch sets its error; otherwise
        create-link is called only when some upload succeeded, and its answer
        sets either an error or the share link. Uploading then ends. */
    method Conclude(failure: Option<Thrown>, successfulUploads: seq<FileRef>, origin: string, reply: LinkReply)
      returns (request: Option<seq<FileRef>>)
      requires error.None?
      modifies this
      ensures fileStates == old(fileStates) && !isUploading
      ensures failure.Some? ==>
                request.None? && error == Some(ThrownText(failure.value))
                && sharedUrl == old(sharedUrl) && showUploadBox == old(showUploadBox)
      ensures failure.None? && successfulUploads == [] ==>
                request.None? && error.None? && sharedUrl == old(sharedUrl) && showUploadBox == old(showUploadBox)
      ensures failure.None? && successfulUploads != [] ==>
                && request == Some(successfulUploads)
                && (reply.Unreachable? ==>
                      error == Some(ThrownText(reply.thrown))
                      && sharedUrl == old(sharedUrl) && showUploadBox == old(showUploadBox))
                && (reply.Replied? && !reply.ok ==>
                      error == Some(RejectedText(reply.data))
                      && sharedUrl == old(sharedUrl) && showUploadBox == old(showUploadBox))
                && (reply.Replied? && reply.ok ==>
                      error.None? && sharedUrl == ShareUrl(origin, reply.data.shareId) && !showUploadBox)
    {
      if failure.Some? {
        error := Some(ThrownText(failure.value));
        request := None;
      } else if |successfulUploads| > 0 {
        request := Some(successfulUploads);
        match reply {
          case Unreachable(t) =>
            error := Some(ThrownText(t));
          case Replied(ok, data) =>
            if !ok {
              error := Some(RejectedText(data));
            } else {
              sharedUrl := ShareUrl(origin, data.shareId);
              showUploadBox := false;
            }
        }
      } else {
        request := None;
      }
      isUploading := false;
    }

    /** A drop onto the page's dropzone, which caps the list at
        `PageMaxFiles`; `dropped` are the files react-dropzone accepted. A
        full list disables the zone and the drop is ignored. Otherwise the
        zone's `onDrop` hands the new entries to `onFilesAdded` and the whole
        list to `onChange`, which both set `fileStates` to the old list
        followed by the new entries. */
    method Drop(zone: Zone, dropped: seq<FileInfo>, keys: seq<string>)
      requires showUploadBox
      requires |keys| == |dropped|
      modifies this, zone
      // a full page disables the zone, which then ignores the drop entirely
      ensures ZoneDisabled(None, Some(PageMaxFiles), old(fileStates)) ==>
                fileStates == old(fileStates) && zone.customError == old(zone.customError)
      ensures !ZoneDisabled(None, Some(PageMaxFiles), old(fileStates))
              && ExceedsCap(Some(PageMaxFiles), |old(fileStates)|, |dropped|) ==>
                fileStates == old(fileStates) && zone.customError == Some(TooManyFilesText(PageMaxFiles))
      ensures !ZoneDisabled(None, Some(PageMaxFiles), old(fileStates))
              && !ExceedsCap(Some(PageMaxFiles), |old(fileStates)|, |dropped|) ==>
                fileStates == old(fileStates) + NewEntries(dropped, keys) && zone.customError == None
      // the page never lists more files than its cap
      ensures |old(fileStates)| <= PageMaxFiles ==> |fileStates| <= PageMaxFiles
      ensures error == old(error) && sharedUrl == old(sharedUrl)
      ensures isUploading == old(isUploading) && showUploadBox == old(showUploadBox)
    {
      if !ZoneDisabled(None, Some(PageMaxFiles), fileStates) {
        var added, changed := zone.OnDrop(fileStates, Some(PageMaxFiles), dropped, keys);
        if added.Some? {
          AddFiles(added.value);
          assert fileStates == changed.value;
        }
      }
    }

    /** `handleReset`: back to an empty page showing the upload box. */
    method HandleReset()
      modifies this
      ensures fileStates == [] && sharedUrl == "" && error == None && showUploadBox
      ensures PendingCount(fileStates) == 0
      ensures isUploading == old(isUploading)
    {
      fileStates := [];
      sharedUrl := "";
      error := None;
      showUploadBox := true;
    }
  }

  /** The upload page's `maxFiles` dropzone option. */
  const PageMaxFiles: nat := 5
}
