# Dog image backup: a Dafny model of `DogBackupUploader`

The repository is a small command-line tool. For one breed, it fetches a random
image of each sub-breed (or of the breed itself) from the dog image API
(`https://dog.ceo/api`). It copies each image into `/dogs/<breed>` on a
Yandex.Disk account and writes a manifest of `{file_name, skipped}` records.

This project models the decision and bookkeeping layer of the session class
`DogBackupUploader`:

- which requests the session issues, and in which order;
- which outcome each image reaches: uploaded, skipped because it already exists, or dropped;
- how the record list and the two counters `uploaded` / `skipped` evolve.

Every answer from the two web services is an input value. An HTTP status, a
JSON message, an `href`, or whether the image download raised all arrive in
`UploadResponses`, `EntryAnswer` and `Environment`. The requests the session
would send come back as a trace of `Call` values.

Files:

- `paths.dfy` (module `DogPaths`): the pure string helpers.
  - The ASCII lower-casing of the breed.
  - `str.split` and the last segment of a URL.
  - The manifest file name `<sub-breed or breed>_<last URL segment>`.
  - The target path `folder/name` and the breed folder `/dogs/<breed>`.
  - The random-image request URL with or without the sub-breed segment.
  - Python truthiness of an optional string (`Truthy`).
- `uploader.dfy` (module `DogBackup`): the session.
  - Specification functions for the outcome of one upload (`StepRecord`, `StepCalls`), one loop entry (`EntryRecord`, `EntryCalls`) and a whole loop (`RunRecords`, `RunCalls`).
  - Lemmas about those functions.
  - The class `Uploader`. Its fields are the record list and the two counters. The methods `UploadImage`, `ProcessEntry` and `Backup` update them in place, with the early returns of the source. Each one's `ensures` ties the new state and the request trace to the specification functions.
  - The class invariant `Valid()`: each counter equals the number of records of its kind, so together they count every record.

## Model

| member | source | states |
|---|---|---|
| DogPaths.LowerSpec | main.py:13 | lower-casing the breed keeps its length, turns the k-th capital of the alphabet into the k-th small letter, changes no other character, leaves no ASCII capital, and lowering again changes nothing |
| DogPaths.SplitNoSep | main.py:130 | no piece of `s.split(sep)` contains `sep` |
| DogPaths.SplitJoin | main.py:130 | joining the pieces of `s.split(sep)` with `sep` gives `s` back |
| DogPaths.LastSegmentSpec | main.py:130 | `url.split("/")[-1]` is the suffix of the URL after its last '/', or the whole URL when it has no '/' |
| DogPaths.LastSegmentUnique | main.py:130 | that description of the last segment admits only one string |
| DogPaths.FileNameShape | main.py:129-130 | a manifest file name is the name part, then '_', then the last segment of the image URL |
| DogPaths.TargetPathLastSegment | main.py:70 | a file name without '/' is exactly the last segment of its target path `folder/name` |
| DogPaths.BreedFolderShape | main.py:48-49 | the breed folder is `/dogs/` followed by the breed, which stripping the prefix gives back; a breed without '/' is the folder's last segment |
| DogPaths.BreedFolderInjective | main.py:48-49 | two breeds share a folder iff they are the same breed |
| DogPaths.NamePartNamesRequest | main.py:129 | the name part names the dog the image was requested for: with a truthy sub-breed, the request URL is the breed's URL, `/` and the name part, then `/images/random`; without one, the URL has no sub-breed segment and the name part is the breed |
| DogPaths.ImageRequestUrlInjective | main.py:35-38 | two image-request URLs for a breed are equal iff neither names a sub-breed or both name the same one; an empty sub-breed counts as none |
| DogBackup.SubBreedsProcessed | main.py:23-31 | the sub-breeds the loop works through are the listed ones, in order, when the list request answers 200, and none otherwise |
| DogBackup.ImageLookup | main.py:39-44 | the lookup gives a truthy URL, which the loop goes on with, iff the request answers 200 with a non-empty message; any URL it gives is that message, after a 200 |
| DogBackup.CreateFolder | main.py:46-60 | the folder comes back iff the second PUT answers 201 or 409, and it is the truthy path `/dogs/<breed>` |
| DogBackup.CreateFolderIgnoresBase | main.py:52-56 | the answer to the first PUT (of `/dogs`) never changes the outcome |
| DogBackup.StepRecord | main.py:62-111 | an upload adds a skipped record iff the target exists, that is, iff the existence check answers 200 (main.py:66); an uploaded record iff that check answers anything else, the download raised nothing, the link answered 200 with a truthy `href`, and the PUT answered 201 or 202; otherwise nothing. The record carries the image name |
| DogBackup.StepCalls | main.py:68-105 | the existence check always comes first; an existing target ends the step; the download comes next; the upload-link request follows only a download without error; the bytes are PUT to the `href` only after a 200 with a truthy `href` |
| DogBackup.StepRecordNeedsCalls | main.py:72-109 | an uploaded record implies all four requests were made; a skipped record implies no download |
| DogBackup.CountsPartition | main.py:72-109 | every record is counted by exactly one of the counters |
| DogBackup.AllSkipped | main.py:74-75 | a list of skipped records only has zero uploaded and all skipped |
| DogBackup.CountsAppend | main.py:124-131 | both counts distribute over appending records |
| DogBackup.EntriesRoundTrip | main.py:120-125 | reading the sub-breeds back out of the loop entries gives the list itself, in order; the breed-itself entry occurs iff the list is empty, and then it is the only entry |
| DogBackup.SubBreedFallback | main.py:120-122 | the loop falls back to the breed alone iff the list request fails or reports no sub-breeds |
| DogBackup.EntryRecordSpec | main.py:127-131 | an entry adds a record only after a 200 with a non-empty URL; the record is named from the name part and the URL's last segment, and is skipped iff the target exists |
| DogBackup.RunRecordsInOrder | main.py:124-131 | the records of a run match, one to one and in order, the entries that produced one; at most one record per entry |
| DogBackup.RunAllExisting | main.py:72-76 | when every target already exists, a run uploads nothing and every record is skipped |
| DogBackup.NoSubBreedsFallback | main.py:120-131 | with no sub-breeds the loop makes one image request, without a sub-breed segment; any record it adds is named after the breed |
| DogBackup.TwoSubBreedsTwoRecords | main.py:124-131 | two sub-breeds whose images reach the disk give exactly two records, `<sub1>_<image>` and `<sub2>_<image>` |
| DogBackup.FailedLookupLeavesNoRecord | main.py:127-128 | a sub-breed whose image request fails adds no record: the run's records are exactly the other sub-breed's record, if any, so the counters, which count the records, see that record only |
| DogBackup.Uploader.constructor | main.py:11-21 | a fresh session holds the lower-cased breed, no records and zero counters, and satisfies the counter invariant |
| DogBackup.Uploader.UploadImage | main.py:68-111 | appends exactly the record that `StepRecord` gives; raises `skipped` by one iff the target exists, and `uploaded` by one iff the upload went through; keeps the counter invariant; issues `StepCalls` |
| DogBackup.Uploader.ProcessEntry | main.py:126-131 | one loop pass requests an image, then appends the entry's record and issues the entry's requests |
| DogBackup.Uploader.Backup | main.py:113-135 | when the folder PUT is refused, only the two folder PUTs are issued; nothing changes and no manifest is written. Otherwise the run's records are appended in entry order and the counters rise by their counts. The manifest is the whole record list. The requests are the folder PUTs, the sub-breed list, then every entry's requests in order |

## Left out

- HTTP transport, URL quoting (`quote`), JSON decoding and the disk API base URL: every answer is an input, and `Call` values carry the unquoted paths.
- DogBackup.Uploader.constructor: does not keep the OAuth token or the `Authorization` header, because no decision of the model depends on them.
- DogPaths.Lower: lower-cases only the ASCII letters; the Unicode case mapping of Python's `str.lower` is not modelled.
- Logging (main.py:30, 43, 59, 73, 82, 96, 101, 107, 111) and the progress and summary `print`s (main.py:126, 138) are not modelled.
- Writing `uploaded_images.json` (main.py:134-135) is exposed as the `manifest` result of `Backup`. The file, its indentation and its encoding are not modelled.
- The interactive prompts of the `__main__` block (main.py:141-148) are not modelled.
- Exceptions other than the download one are not modelled: a failing request or a missing `message` key propagates out of the Python session and ends the run.
- The downloaded bytes are not modelled. The source does not check the download's status, only whether it raised, so `downloadOk` stands for "no exception".
- The image request's 200 message is taken to be a string. A non-string JSON value is not modelled.
- DogBackup.Uploader.Backup: requires one entry answer per loop entry when the folder is accepted. This is a shape condition on the input values, not a demand of the source.
- The random image the API returns is an input, so the idempotence of a second run holds only under the assumption that every existence check answers 200. `RunAllExisting` states exactly that.

## Notes on the source

- The manifest written at main.py:135 is the session's whole `uploaded_files` list. On a session that already ran, it also holds the earlier records; `Backup` states the manifest as the full list.
- When the download does not raise but answers with an error page, that body is uploaded as the image. This is modelled as written.
