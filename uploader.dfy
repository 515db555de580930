/** The decision and bookkeeping layer of the dog-image backup: which
    requests are issued, which outcome each upload reaches, and how the list
    of upload records and the two counters evolve. Every answer of the image
    API and of the disk API is an input value. */
module DogBackup {
  import opened DogPaths

  /** One manifest entry: a file that was uploaded (`skipped == false`) or
      found already present (`skipped == true`). */
  datatype UploadRecord = UploadRecord(fileName: string, skipped: bool)

  /** What the disk answers while one image is uploaded: the status of the
      existence check, whether fetching the image bytes went without an
      exception, the status and `href` of the upload-link request, and the
      status of the final PUT. */
  datatype UploadResponses = UploadResponses(
    existsStatus: int,
    downloadOk: bool,
    linkStatus: int,
    href: Option<string>,
    putStatus: int)

  /** What the image API and the disk answer for one entry of the backup loop:
      the status and message of the random-image request, then the upload. */
  datatype EntryAnswer = EntryAnswer(imageStatus: int, imageMessage: string, upload: UploadResponses)

  /** Everything the outside world answers during one backup run: the two
      folder PUTs, the sub-breed list request, and one answer per loop entry. */
  datatype Environment = Environment(
    basePutStatus: int,
    folderPutStatus: int,
    subBreedStatus: int,
    subBreedMessage: seq<string>,
    answers: seq<EntryAnswer>)

  /** A request the uploader issues. */
  datatype Call =
    | PutFolder(path: string)
    | ListSubBreeds(breed: string)
    | GetRandomImage(url: string)
    | CheckExists(path: string)
    | Download(url: string)
    | GetUploadLink(path: string)
    | PutBytes(href: string)

  /** The target is on the disk exactly when the existence check answers 200. */
  predicate AlreadyExists(resp: UploadResponses) {
    resp.existsStatus == 200
  }

  /** Statuses the folder creation accepts: created, or already there. */
  predicate FolderAccepted(status: int) {
    status == 201 || status == 409
  }

  /** Statuses the final PUT accepts: created, or accepted. */
  predicate PutAccepted(status: int) {
    status == 201 || status == 202
  }

  /** The record an upload step adds, as a sequence of zero or one elements. */
  function Recorded(rec: Option<UploadRecord>): seq<UploadRecord>
  {
    if rec.Some? then [rec.value] else []
  }

  /** The outcome of the folder creation: the breed folder when the second
      PUT is answered 201 or 409, nothing otherwise. The answer to the first
      PUT (of `/dogs`) is not consulted. */
  function CreateFolder(breed: string, basePutStatus: int, folderPutStatus: int): (folder: Option<string>)
    ensures folder.Some? <==> FolderAccepted(folderPutStatus)
    ensures folder.Some? ==> folder.value == BreedFolder(breed) && Truthy(folder)
  {
    if FolderAccepted(folderPutStatus) then Some(BreedFolder(breed)) else None
  }

  /** The first PUT's status never changes the folder outcome. */
  lemma CreateFolderIgnoresBase(breed: string, s1: int, s2: int, folderPutStatus: int)
    ensures CreateFolder(breed, s1, folderPutStatus) == CreateFolder(breed, s2, folderPutStatus)
  {
  }

  /** The two folder PUTs, which are always both issued. */
  function FolderCalls(breed: string): seq<Call> {
    [PutFolder(DogsRoot), PutFolder(BreedFolder(breed))]
  }

  /** The result of the random-image request: the message when answered 200.
      The backup goes on with it exactly when it is truthy, that is, when the
      request was answered 200 with a non-empty message. */
  function ImageLookup(status: int, message: string): (url: Option<string>)
    ensures Truthy(url) <==> status == 200 && message != ""
    ensures url.Some? ==> status == 200 && url.value == message
  {
    if status == 200 then Some(message) else None
  }

  /** The record one upload step adds: a skipped record exactly when the
      target exists, an uploaded record exactly when the download, the
      upload link and the PUT all succeed, and no record otherwise. */
  function StepRecord(imageName: string, resp: UploadResponses): (rec: Option<UploadRecord>)
    ensures rec == Some(UploadRecord(imageName, true)) <==> AlreadyExists(resp)
    ensures rec == Some(UploadRecord(imageName, false)) <==>
            !AlreadyExists(resp) && resp.downloadOk && resp.linkStatus == 200 &&
            Truthy(resp.href) && PutAccepted(resp.putStatus)
    ensures rec.Some? ==> rec.value.fileName == imageName
  {
    if AlreadyExists(resp) then Some(UploadRecord(imageName, true))
    else if !resp.downloadOk then None
    else if resp.linkStatus != 200 then None
    else if !Truthy(resp.href) then None
    else if PutAccepted(resp.putStatus) then Some(UploadRecord(imageName, false))
    else None
  }

  /** The requests one upload step issues: the existence check always comes
      first; an existing target ends the step before any transfer; the bytes
      are PUT only after a download without error and a usable upload link. */
  function StepCalls(target: string, imageUrl: string, resp: UploadResponses): (calls: seq<Call>)
    ensures 1 <= |calls| <= 4 && calls[0] == CheckExists(target)
    ensures AlreadyExists(resp) <==> calls == [CheckExists(target)]
    ensures !AlreadyExists(resp) ==> calls[1] == Download(imageUrl)
    ensures |calls| > 2 <==> !AlreadyExists(resp) && resp.downloadOk
    ensures |calls| > 2 ==> calls[2] == GetUploadLink(target)
    ensures |calls| == 4 <==> !AlreadyExists(resp) && resp.downloadOk && resp.linkStatus == 200 && Truthy(resp.href)
    ensures |calls| == 4 ==> calls[3] == PutBytes(resp.href.value)
  {
    [CheckExists(target)] +
    (if AlreadyExists(resp) then [] else
     [Download(imageUrl)] +
     (if !resp.downloadOk then [] else
      [GetUploadLink(target)] +
      (if resp.linkStatus != 200 || !Truthy(resp.href) then [] else
       [PutBytes(resp.href.value)])))
  }

  /** An uploaded record always follows a PUT of the bytes, and a skipped one
      never follows a download. */
  lemma StepRecordNeedsCalls(target: string, imageUrl: string, imageName: string, resp: UploadResponses)
    ensures StepRecord(imageName, resp) == Some(UploadRecord(imageName, false)) ==>
            StepCalls(target, imageUrl, resp) ==
            [CheckExists(target), Download(imageUrl), GetUploadLink(target), PutBytes(resp.href.value)]
    ensures StepRecord(imageName, resp) == Some(UploadRecord(imageName, true)) ==>
            Download(imageUrl) !in StepCalls(target, imageUrl, resp)
  {
  }

  /** Number of records marked uploaded. */
  function CountUploaded(records: seq<UploadRecord>): nat
    decreases |records|
  {
    if records == [] then 0
    else CountUploaded(records[..|records| - 1]) + if records[|records| - 1].skipped then 0 else 1
  }

  /** Number of records marked skipped. */
  function CountSkipped(records: seq<UploadRecord>): nat
    decreases |records|
  {
    if records == [] then 0
    else CountSkipped(records[..|records| - 1]) + if records[|records| - 1].skipped then 1 else 0
  }

  /** Every record is counted by exactly one of the two counters. */
  lemma {:induction false} CountsPartition(records: seq<UploadRecord>)
    ensures CountUploaded(records) + CountSkipped(records) == |records|
    decreases |records|
  {
    if records != [] {
      CountsPartition(records[..|records| - 1]);
    }
  }

  /** A list of skipped records only has no uploaded one. */
  lemma {:induction false} AllSkipped(records: seq<UploadRecord>)
    requires forall k :: 0 <= k < |records| ==> records[k].skipped
    ensures CountUploaded(records) == 0 && CountSkipped(records) == |records|
    decreases |records|
  {
    if records != [] {
      AllSkipped(records[..|records| - 1]);
    }
  }

  /** Both counts distribute over concatenation. */
  lemma {:induction false} CountsAppend(a: seq<UploadRecord>, b: seq<UploadRecord>)
    ensures CountUploaded(a + b) == CountUploaded(a) + CountUploaded(b)
    ensures CountSkipped(a + b) == CountSkipped(a) + CountSkipped(b)
    decreases |b|
  {
    if b == [] {
      assert a + b == a;
    } else {
      var b' := b[..|b| - 1];
      assert (a + b)[..|a + b| - 1] == a + b';
      CountsAppend(a, b');
    }
  }

  /** The sub-breed list: the message of the list request when answered 200,
      and no sub-breeds otherwise. */
  function SubBreeds(status: int, message: seq<string>): seq<string>
  {
    if status == 200 then message else []
  }

  /** The entries of the backup loop: one per sub-breed, or a single `None`
      standing for the breed itself when there are no sub-breeds. */
  function Entries(subBreeds: seq<string>): seq<Option<string>>
  {
    if subBreeds == [] then [None]
    else seq(|subBreeds|, i requires 0 <= i < |subBreeds| => Some(subBreeds[i]))
  }

  /** The record one loop entry adds: none when no image URL came back (or an
      empty one), otherwise the record of uploading that image under the name
      `<sub-breed or breed>_<last segment of the URL>`. */
  function EntryRecord(breed: string, sub: Option<string>, answer: EntryAnswer): Option<UploadRecord> {
    var url := ImageLookup(answer.imageStatus, answer.imageMessage);
    if Truthy(url) then StepRecord(FileName(NamePart(breed, sub), url.value), answer.upload)
    else None
  }

  /** The requests one loop entry issues. */
  function EntryCalls(breed: string, folder: string, sub: Option<string>, answer: EntryAnswer): seq<Call> {
    var url := ImageLookup(answer.imageStatus, answer.imageMessage);
    [GetRandomImage(ImageRequestUrl(breed, sub))] +
    if Truthy(url) then
      var name := FileName(NamePart(breed, sub), url.value);
      StepCalls(TargetPath(folder, name), url.value, answer.upload)
    else []
  }

  /** Reading the sub-breeds back out of the loop entries gives the list
      itself, in order; the breed-itself entry `None` occurs exactly when the
      list is empty, and then it is the only entry. */
  lemma {:induction false} EntriesRoundTrip(subBreeds: seq<string>)
    ensures var entries := Entries(subBreeds);
      Somes(entries) == subBreeds && |entries| >= 1 &&
      (None in entries <==> subBreeds == []) &&
      (subBreeds == [] ==> entries == [None])
    decreases |subBreeds|
  {
    var entries := Entries(subBreeds);
    if subBreeds == [] {
      assert entries[..0] == [];
    } else {
      var n := |subBreeds| - 1;
      assert entries[n] == Some(subBreeds[n]);
      if n == 0 {
        assert entries[..0] == [];
      } else {
        EntriesRoundTrip(subBreeds[..n]);
        assert entries[..n] == Entries(subBreeds[..n]);
      }
      assert subBreeds[..n] + [subBreeds[n]] == subBreeds;
      assert forall i :: 0 <= i < |entries| ==> entries[i] == Some(subBreeds[i]);
    }
  }

  /** The sub-breeds the loop works through are the listed ones, in order,
      when the list request answers 200, and none otherwise. */
  lemma SubBreedsProcessed(status: int, message: seq<string>)
    ensures status == 200 ==> Somes(Entries(SubBreeds(status, message))) == message
    ensures status != 200 ==> Somes(Entries(SubBreeds(status, message))) == []
  {
    EntriesRoundTrip(SubBreeds(status, message));
  }

  /** The loop falls back to the breed alone exactly when the sub-breed list
      request fails or reports no sub-breeds. */
  lemma SubBreedFallback(status: int, message: seq<string>)
    ensures Entries(SubBreeds(status, message)) == [None] <==> status != 200 || message == []
  {
    var entries := Entries(SubBreeds(status, message));
    if status == 200 && message != [] {
      assert entries[0] == Some(message[0]);
    }
  }

  /** What each entry of a run yields: a record or nothing. */
  function Outcomes(breed: string, entries: seq<Option<string>>, answers: seq<EntryAnswer>): seq<Option<UploadRecord>>
    requires |answers| == |entries|
  {
    seq(|entries|, j requires 0 <= j < |entries| => EntryRecord(breed, entries[j], answers[j]))
  }

  /** The values present in a sequence of options, in order. */
  function Somes<T>(xs: seq<Option<T>>): seq<T>
    decreases |xs|
  {
    if xs == [] then [] else Somes(xs[..|xs| - 1]) + if xs[|xs| - 1].Some? then [xs[|xs| - 1].value] else []
  }

  /** The indices of the values present in a sequence of options, in order. */
  function SomeIndices<T>(xs: seq<Option<T>>): seq<nat>
    decreases |xs|
  {
    if xs == [] then [] else SomeIndices(xs[..|xs| - 1]) + if xs[|xs| - 1].Some? then [|xs| - 1] else []
  }

  /** `Somes` keeps exactly the present values, in their order: value k sits at
      index `o[k]`, the indices strictly increase, and none is missed. */
  lemma {:induction false} SomesInOrder<T>(xs: seq<Option<T>>)
    ensures var r, o := Somes(xs), SomeIndices(xs);
      |o| == |r| && |r| <= |xs| &&
      (forall k :: 0 <= k < |o| ==> o[k] < |xs| && xs[o[k]] == Some(r[k])) &&
      (forall k, l :: 0 <= k < l < |o| ==> o[k] < o[l]) &&
      (forall j :: 0 <= j < |xs| && xs[j].Some? ==> j in o)
    decreases |xs|
  {
    if xs != [] {
      var n := |xs| - 1;
      var init := xs[..n];
      SomesInOrder(init);
      assert forall j :: 0 <= j < n ==> xs[j] == init[j];
    }
  }

  /** The records a run of the loop adds, entry after entry. */
  function RunRecords(breed: string, entries: seq<Option<string>>, answers: seq<EntryAnswer>): seq<UploadRecord>
    requires |answers| == |entries|
    decreases |entries|
  {
    if entries == [] then []
    else
      var n := |entries| - 1;
      RunRecords(breed, entries[..n], answers[..n]) + Recorded(EntryRecord(breed, entries[n], answers[n]))
  }

  /** The requests a run of the loop issues, entry after entry. */
  function RunCalls(breed: string, folder: string, entries: seq<Option<string>>, answers: seq<EntryAnswer>): seq<Call>
    requires |answers| == |entries|
    decreases |entries|
  {
    if entries == [] then []
    else
      var n := |entries| - 1;
      RunCalls(breed, folder, entries[..n], answers[..n]) + EntryCalls(breed, folder, entries[n], answers[n])
  }

  /** Extending a run by the entry at index `i`. */
  lemma RunSnoc(breed: string, folder: string, entries: seq<Option<string>>, answers: seq<EntryAnswer>, i: nat)
    requires |answers| == |entries| && i < |entries|
    ensures RunRecords(breed, entries[..i + 1], answers[..i + 1]) ==
            RunRecords(breed, entries[..i], answers[..i]) + Recorded(EntryRecord(breed, entries[i], answers[i]))
    ensures RunCalls(breed, folder, entries[..i + 1], answers[..i + 1]) ==
            RunCalls(breed, folder, entries[..i], answers[..i]) + EntryCalls(breed, folder, entries[i], answers[i])
  {
    assert entries[..i + 1][..i] == entries[..i];
    assert answers[..i + 1][..i] == answers[..i];
  }

  lemma {:induction false} RunRecordsAreOutcomes(breed: string, entries: seq<Option<string>>, answers: seq<EntryAnswer>)
    requires |answers| == |entries|
    ensures RunRecords(breed, entries, answers) == Somes(Outcomes(breed, entries, answers))
    decreases |entries|
  {
    if entries != [] {
      var n := |entries| - 1;
      RunRecordsAreOutcomes(breed, entries[..n], answers[..n]);
      var out := Outcomes(breed, entries, answers);
      assert out[..n] == Outcomes(breed, entries[..n], answers[..n]);
    }
  }

  /** One pass of the loop extends the records and requests of a run by those
      of the entry at index `i`. */
  lemma RunStep(breed: string, folder: string, entries: seq<Option<string>>, answers: seq<EntryAnswer>, i: nat,
                start: seq<UploadRecord>, before: seq<UploadRecord>, after: seq<UploadRecord>,
                callsBefore: seq<Call>, entryCalls: seq<Call>)
    requires |answers| == |entries| && i < |entries|
    requires before == start + RunRecords(breed, entries[..i], answers[..i])
    requires after == before + Recorded(EntryRecord(breed, entries[i], answers[i]))
    requires callsBefore == RunCalls(breed, folder, entries[..i], answers[..i])
    requires entryCalls == EntryCalls(breed, folder, entries[i], answers[i])
    ensures after == start + RunRecords(breed, entries[..i + 1], answers[..i + 1])
    ensures callsBefore + entryCalls == RunCalls(breed, folder, entries[..i + 1], answers[..i + 1])
  {
    RunSnoc(breed, folder, entries, answers, i);
  }

  /** The records of a run correspond one to one, and in order, with the
      entries that produced a record: record k comes from entry `o[k]`, the
      indices `o` strictly increase, and every entry producing a record is
      among them. Hence a run adds at most one record per entry. */
  lemma RunRecordsInOrder(breed: string, entries: seq<Option<string>>, answers: seq<EntryAnswer>)
    requires |answers| == |entries|
    ensures var r, o := RunRecords(breed, entries, answers), SomeIndices(Outcomes(breed, entries, answers));
      |o| == |r| && |r| <= |entries| &&
      (forall k :: 0 <= k < |o| ==> o[k] < |entries| && EntryRecord(breed, entries[o[k]], answers[o[k]]) == Some(r[k])) &&
      (forall k, l :: 0 <= k < l < |o| ==> o[k] < o[l]) &&
      (forall j :: 0 <= j < |entries| && EntryRecord(breed, entries[j], answers[j]).Some? ==> j in o)
  {
    RunRecordsAreOutcomes(breed, entries, answers);
    SomesInOrder(Outcomes(breed, entries, answers));
  }

  /** When every target already exists (a second run over an unchanged disk),
      the run uploads nothing and every record it adds is a skipped one. */
  lemma RunAllExisting(breed: string, entries: seq<Option<string>>, answers: seq<EntryAnswer>)
    requires |answers| == |entries|
    requires forall j :: 0 <= j < |answers| ==> AlreadyExists(answers[j].upload)
    ensures var r := RunRecords(breed, entries, answers);
      (forall k :: 0 <= k < |r| ==> r[k].skipped) && CountUploaded(r) == 0 && CountSkipped(r) == |r|
  {
    var out := Outcomes(breed, entries, answers);
    var r, o := RunRecords(breed, entries, answers), SomeIndices(out);
    RunRecordsAreOutcomes(breed, entries, answers);
    SomesInOrder(out);
    forall k | 0 <= k < |r|
      ensures r[k].skipped
    {
      assert out[o[k]] == Some(r[k]);
    }
    AllSkipped(r);
  }

  /** With no sub-breeds the loop runs once, for the breed itself: one image
      request without a sub-breed segment, and a record (if any) whose file
      name starts with the breed. */
  lemma NoSubBreedsFallback(breed: string, folder: string, answers: seq<EntryAnswer>)
    requires |answers| == 1
    ensures var a := answers[0];
      RunRecords(breed, Entries([]), answers) == Recorded(EntryRecord(breed, None, a)) &&
      RunCalls(breed, folder, Entries([]), answers) == EntryCalls(breed, folder, None, a) &&
      RunCalls(breed, folder, Entries([]), answers)[0] == GetRandomImage(ApiBase + "/breed/" + breed + "/images/random") &&
      (EntryRecord(breed, None, a).Some? ==>
         EntryRecord(breed, None, a).value.fileName == FileName(breed, a.imageMessage))
  {
  }

  /** An entry adds a record only when the image request is answered 200 with
      a non-empty URL; the record is then named after the sub-breed (or the
      breed) and the URL's last segment, and is a skipped one exactly when the
      target already exists. */
  lemma EntryRecordSpec(breed: string, sub: Option<string>, answer: EntryAnswer)
    ensures answer.imageStatus != 200 || answer.imageMessage == "" ==> EntryRecord(breed, sub, answer) == None
    ensures var rec := EntryRecord(breed, sub, answer);
      rec.Some? ==>
        answer.imageStatus == 200 && answer.imageMessage != "" &&
        rec.value.fileName == FileName(NamePart(breed, sub), answer.imageMessage) &&
        (rec.value.skipped <==> AlreadyExists(answer.upload))
  {
  }

  /** A run over two entries adds the first entry's record, then the second's. */
  lemma RunTwo(breed: string, entries: seq<Option<string>>, answers: seq<EntryAnswer>)
    requires |entries| == 2 && |answers| == 2
    ensures RunRecords(breed, entries, answers) ==
            Recorded(EntryRecord(breed, entries[0], answers[0])) + Recorded(EntryRecord(breed, entries[1], answers[1]))
  {
    RunSnoc(breed, "", entries, answers, 0);
    RunSnoc(breed, "", entries, answers, 1);
    assert entries[..2] == entries && answers[..2] == answers;
    assert entries[..0] == [] && answers[..0] == [];
  }

  /** Two sub-breeds whose images are found and end up on the disk (uploaded
      or already there) give exactly two records, named
      `<first sub-breed>_<image>` and `<second sub-breed>_<image>`. */
  lemma TwoSubBreedsTwoRecords(breed: string, s1: string, s2: string, a1: EntryAnswer, a2: EntryAnswer)
    requires s1 != "" && s2 != ""
    requires a1.imageStatus == 200 && a1.imageMessage != "" && a2.imageStatus == 200 && a2.imageMessage != ""
    requires StepRecord(FileName(s1, a1.imageMessage), a1.upload).Some?
    requires StepRecord(FileName(s2, a2.imageMessage), a2.upload).Some?
    ensures var r := RunRecords(breed, Entries([s1, s2]), [a1, a2]);
      |r| == 2 &&
      r[0].fileName == s1 + "_" + LastSegment(a1.imageMessage) &&
      r[1].fileName == s2 + "_" + LastSegment(a2.imageMessage)
  {
    assert Entries([s1, s2]) == [Some(s1), Some(s2)];
    RunTwo(breed, Entries([s1, s2]), [a1, a2]);
  }

  /** Of two sub-breeds, one whose image request fails leaves no trace: the
      run adds only the other one's record, so that is all the counters see. */
  lemma FailedLookupLeavesNoRecord(breed: string, s1: string, s2: string, a1: EntryAnswer, a2: EntryAnswer)
    requires a1.imageStatus != 200
    ensures var r := RunRecords(breed, Entries([s1, s2]), [a1, a2]);
      r == Recorded(EntryRecord(breed, Some(s2), a2))
  {
    assert Entries([s1, s2]) == [Some(s1), Some(s2)];
    RunTwo(breed, Entries([s1, s2]), [a1, a2]);
  }

  /** The uploader session: the breed it backs up, the records added so far
      and the two counters. */
  class Uploader {
    const breed: string
    var uploadedFiles: seq<UploadRecord>
    var uploaded: nat
    var skipped: nat

    /** The counters count the records of each kind, so together they count
        all records. */
    ghost predicate Valid()
      reads this
    {
      uploaded == CountUploaded(uploadedFiles) && skipped == CountSkipped(uploadedFiles) &&
      |uploadedFiles| == uploaded + skipped
    }

    /** A fresh session holds the breed in lower case, no records and zero
        counters. */
    constructor (breed: string)
      ensures this.breed == Lower(breed)
      ensures uploadedFiles == [] && uploaded == 0 && skipped == 0
      ensures Valid()
    {
      this.breed := Lower(breed);
      uploadedFiles := [];
      uploaded, skipped := 0, 0;
    }

    /** Upload one image as `<folderPath>/<imageName>`, returning the requests
        issued. At most one record is added and at most one counter rises, by one. */
    method UploadImage(imageUrl: string, folderPath: string, imageName: string, resp: UploadResponses)
      returns (calls: seq<Call>)
      requires Valid()
      modifies this
      ensures Valid()
      ensures uploadedFiles == old(uploadedFiles) + Recorded(StepRecord(imageName, resp))
      ensures skipped == old(skipped) + (if AlreadyExists(resp) then 1 else 0)
      ensures uploaded == old(uploaded) +
              (if StepRecord(imageName, resp) == Some(UploadRecord(imageName, false)) then 1 else 0)
      ensures calls == StepCalls(TargetPath(folderPath, imageName), imageUrl, resp)
    {
      var targetPath := TargetPath(folderPath, imageName);
      ghost var before := uploadedFiles;
      calls := [CheckExists(targetPath)];
      if AlreadyExists(resp) {
        uploadedFiles := uploadedFiles + [UploadRecord(imageName, true)];
        skipped := skipped + 1;
        assert uploadedFiles[..|uploadedFiles| - 1] == before;
        return;
      }
      calls := calls + [Download(imageUrl)];
      if !resp.downloadOk {
        return;
      }
      calls := calls + [GetUploadLink(targetPath)];
      if resp.linkStatus != 200 {
        return;
      }
      if !Truthy(resp.href) {
        return;
      }
      calls := calls + [PutBytes(resp.href.value)];
      if PutAccepted(resp.putStatus) {
        uploadedFiles := uploadedFiles + [UploadRecord(imageName, false)];
        uploaded := uploaded + 1;
        assert uploadedFiles[..|uploadedFiles| - 1] == before;
      }
    }

    /** One pass of the backup loop: request a random image for the entry
        and, when a non-empty URL comes back, upload it under the derived name. */
    method ProcessEntry(sub: Option<string>, answer: EntryAnswer, folder: string) returns (calls: seq<Call>)
      requires Valid()
      modifies this
      ensures Valid()
      ensures uploadedFiles == old(uploadedFiles) + Recorded(EntryRecord(breed, sub, answer))
      ensures calls == EntryCalls(breed, folder, sub, answer)
    {
      calls := [GetRandomImage(ImageRequestUrl(breed, sub))];
      var imageUrl := ImageLookup(answer.imageStatus, answer.imageMessage);
      if Truthy(imageUrl) {
        var imageName := FileName(NamePart(breed, sub), imageUrl.value);
        var stepCalls := UploadImage(imageUrl.value, folder, imageName, answer.upload);
        calls := calls + stepCalls;
      }
    }

    /** One backup run. When the breed folder cannot be created nothing else
        happens and no manifest is written. Otherwise every entry is processed
        in order and the manifest is the full record list. */
    method Backup(env: Environment) returns (calls: seq<Call>, manifest: Option<seq<UploadRecord>>)
      requires Valid()
      requires FolderAccepted(env.folderPutStatus) ==> |env.answers| == |Entries(SubBreeds(env.subBreedStatus, env.subBreedMessage))|
      modifies this
      ensures Valid()
      ensures !FolderAccepted(env.folderPutStatus) ==>
              uploadedFiles == old(uploadedFiles) && uploaded == old(uploaded) && skipped == old(skipped) &&
              manifest == None && calls == FolderCalls(breed)
      ensures FolderAccepted(env.folderPutStatus) ==>
              var entries := Entries(SubBreeds(env.subBreedStatus, env.subBreedMessage));
              var added := RunRecords(breed, entries, env.answers);
              uploadedFiles == old(uploadedFiles) + added &&
              uploaded == old(uploaded) + CountUploaded(added) &&
              skipped == old(skipped) + CountSkipped(added) &&
              manifest == Some(uploadedFiles) &&
              calls == FolderCalls(breed) + [ListSubBreeds(breed)] +
                       RunCalls(breed, BreedFolder(breed), entries, env.answers)
    {
      var folder := CreateFolder(breed, env.basePutStatus, env.folderPutStatus);
      calls := FolderCalls(breed);
      if !Truthy(folder) {
        manifest := None;
        return;
      }
      calls := calls + [ListSubBreeds(breed)];
      var subBreeds := SubBreeds(env.subBreedStatus, env.subBreedMessage);
      var entries := Entries(subBreeds);
      var answers := env.answers;
      ghost var start := uploadedFiles;
      var loopCalls: seq<Call> := [];
      var i := 0;
      while i < |entries|
        invariant 0 <= i <= |entries|
        invariant Valid()
        invariant uploadedFiles == start + RunRecords(breed, entries[..i], answers[..i])
        invariant loopCalls == RunCalls(breed, folder.value, entries[..i], answers[..i])
      {
        ghost var filesBefore := uploadedFiles;
        var entryCalls := ProcessEntry(entries[i], answers[i], folder.value);
        RunStep(breed, folder.value, entries, answers, i, start, filesBefore, uploadedFiles, loopCalls, entryCalls);
        loopCalls := loopCalls + entryCalls;
        i := i + 1;
      }
      assert entries[..i] == entries && answers[..i] == answers;
      CountsAppend(start, RunRecords(breed, entries, answers));
      calls := calls + loopCalls;
      manifest := Some(uploadedFiles);
    }
  }
}
