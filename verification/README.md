# A verified model of the drover registry

The registry keeps versioned artifacts in three places that have to agree: content-addressed blob
storage, a relational index, and the handlers that write to one and then the other. This project
models all three in Dafny, and two scripts that guard the repository, and proves what they promise.

- **Storage on a local disk.** `FileTree` is a Unix tree with names and inodes; `LocalProtocol` runs any
  number of Put, Get and Delete calls over it, interleaved one system call at a time; `LocalProvider`
  is the class with its methods for one caller, `LocalGuarantees` says what those do, `VersionListing` what
  any sequence of them leaves to be listed, `SoloRun` proves that a Put, Get or Delete of the protocol that
  meets no other call is that of the class. `TempFiles` shows that no temporary file is left over, and
  `SharedTemp` what two uploads of one reference can do to each other, which is why the concurrent theorems
  suppose that no two unfinished Puts share a temporary file (its name holds the year and nothing finer).
- **Storage in a bucket.** `ObjectStore` is the write-then-verify-then-delete protocol of S3 and GCS,
  `BucketReports` what a reported success means there when Puts interleave;
  `Equivalence` compares it with the local disk call by call.
- **The index.** `MetadataDb` is the two tables, their statements and the store class; `MetadataIndex` their
  constraints and lookups; `PublishInterleaving` publishes without a transaction; `VersionOrder` the order of
  listings; `MockStore` the nested maps that stand in for the tables in tests.
- **The registry.** `Registry` interleaves publishes, manifest pushes, blob uploads and pulls, one system
  call or SQL statement at a time; `RegistryGuarantees`, `RegistryUploads` and `RegistryLookups` hold the theorems
  over all its runs, the last two about publishes and blob uploads and about what lookups find; `Handlers` has the
  handler classes with their sessions, readers and loops; `ClientView` what a client sees of several calls, known
  by their contracts alone; `SoloRequests` proves that a request alone in the interleaved registry does what its
  handler does; `Tarball` is the manifest scan.
- **The scripts.** `Frontmatter` and `Synonyms` for the frontmatter validator, `Coverage` and `QualityGate` for
  the CRAP gate.
- `Content`, `Paths` and `Sorting` are shared: digests, Go's lexical path handling and storage keys, and
  stable sorting.

The blob upload and manifest endpoints follow the OCI Distribution Specification, sections "Pushing a
blob monolithically" (POST, then PUT) and "Pulling manifests".

SHA-256 followed by hex encoding is any function from bytes to 64 lower-case hex digits. Injectivity is
asked for only where a theorem says so.

## What the proofs found

- Two uploads of the same reference in one year share a temporary file. One of them can be told that its
  bytes are stored while the committed file holds what the other had written by then, any prefix of its
  bytes: an empty file, even when both upload the same (`SharedTemp.SharedTempBreaksTheStore`,
  `SharedTemp.SharingIsNeverSafe`).
- A Delete by a digest that goes on with the suffix of a temporary file removes the temporary file of an
  upload in progress, and its rename fails (`LocalProtocol.DeleteTakesATemp`).
- A publish by the digest "../w/x", which is passed on unchecked, makes the listing of its package show a
  version w that nobody has attempted, though the publish itself fails
  (`VersionListing.ClimbingDigestListsWhatNobodyAttempted`). On an empty store a Put does so exactly when its
  fields are given and the parent of its file lies inside the directory that listings take for another tenant,
  name or version (`VersionListing.OnePutMisleadsExactlyWhenItStrays`); digests that do not climb never do
  (`VersionListing.StayingPutsAreListedRight`).
- Put stores under the tenant as it is and ListVersions looks under the sanitised one, so that the versions of a
  tenant with any other character than letters, digits, '-', '_' and '.' are never listed
  (`VersionListing.TenantIsListedExactlyWhenSafe`).
- A push to the manifest endpoint can never succeed on the local backend: the bytes are checked against a
  digest made up from the clock (`RegistryGuarantees.ManifestPushesNeverSucceed`, `Handlers.PutManifestAlwaysFails`).
- HEAD of a blob answers 200 for a directory. A publish that fails can leave such a directory behind, so that
  HEAD reports a blob that nobody has stored; without a directory of that name HEAD is exact
  (`RegistryGuarantees.HeadBlobCanFindADirectory`, `RegistryGuarantees.HeadBlobAnswersWhatWasStored`).
- A pull with a digest of its own is sent the digest header of the row, which fits the bytes of a committed
  file exactly when the row's digest, without its algorithm, is the name of that file
  (`Handlers.HeaderOfAnExplicitDigest`).
- In a bucket, the clean-up of a bad upload can take a good object of the same key with it, after its upload
  was reported as stored (`ObjectStore.CleanUpCanDeleteAGoodObject`). A key keeps its object through every run
  without a delete or a new mismatching upload of it exactly when no mismatching upload of it is unfinished
  (`ObjectStore.ObjectStaysExactlyWhenUnthreatened`). Before that clean-up S3 can report the length of the bad
  object as the one stored, GCS never does (`BucketReports.S3CanReportTheOtherLength`,
  `BucketReports.SuccessReportsTheLastWrite`). The interface comment in
  `internal/storage/storage.go` has every implementation verify the stream before it persists; the object stores
  persist first, and the model follows the code.
- Which coverage a local file is given depends on the order of the profile's lines, unless all files that match
  its path have the same fraction (`Coverage.LookupIgnoresOrderExactly`).
- Rules for both "topic" and "topics" can make the validator announce changes that are not there. A taxonomy
  does so for some document exactly when its earlier rule for a field changes a text and its later one
  changes it back (`Synonyms.TwoRulesForTopics`).

## Model

| member | source | states |
|---|---|---|
| Content.SyntheticDigestNeverMatches | internal/api/handlers/packages.go:116 | the digests that handlers make up are the checksum of no content |
| Content.PrefixIs | internal/storage/local/local.go:38 | a prefix is what a text begins with, and trimming it leaves what follows |
| Content.SuffixIs | scripts/quality-gate.py:120 | a suffix is what a text ends in |
| Paths.SplitJoin | internal/storage/local/local.go:39 | splitting at slashes inverts joining |
| Paths.ParseIsCanonical | internal/storage/local/local.go:39 | cleaning leaves no empty or dot element, and dot-dot only in front of a relative path |
| Paths.ParseRender | internal/storage/local/local.go:52-54 | a cleaned path reads back as itself, so cleaning twice is cleaning once |
| Paths.DigestNamesFile | internal/storage/local/local.go:36-54 | for all tenants, names and versions the file of a 64-hex digest is named by its hex part, however cleaning rearranges the rest |
| Paths.CollidingRefsHaveOneDigest | internal/storage/local/local.go:36-54 | references that share a file after sanitising have the same digest, so that one can only overwrite the other with content of equal hash |
| Paths.FlatLayout | internal/storage/local/local.go:36-54 | references that cleaning leaves alone lie at root/tenant/name/version/digest |
| Paths.SanitizeKeepsExactly | internal/storage/local/local.go:42-50 | letters, digits, '-', '_' and '.' stay, every other character becomes '-', so a text stays as it is if and only if it has no other |
| Paths.OrdinaryLayout | internal/storage/local/local.go:36-54 | names of those characters, with a digest "sha256:" and 64 hex digits, lie at root/tenant/name/version/hex under the key of that spelling |
| Paths.SlashInDigest | internal/storage/local/local.go:36-39 | a digest that goes on behind a slash makes a directory of the file of the shorter digest |
| Paths.WellFormedPathInjective | internal/storage/local/local.go:36-54 | distinct well-formed references never share a file |
| Paths.TempIsNotCommitted | internal/storage/local/local.go:67 | no temporary file has the name of a committed one |
| Paths.TempPathInjective | internal/storage/local/local.go:67 | temporary files of distinct paths are distinct |
| Paths.ObjectKeySplits | internal/storage/s3/s3.go:88-90 | a slash-joined key splits back into its parts when tenant, name and version have no slash |
| Paths.ObjectKeyInjective | internal/storage/s3/s3.go:88-90 | such keys are injective |
| Paths.ObjectKeyIsItsOwnExactly | internal/storage/gcs/gcs.go:45-47 | no other reference has the key of a reference if and only if its tenant, name, version and digest hold no slash |
| LocalProtocol.EveryCommittedFileIsVerified | internal/storage/local/local.go:56-112 | under every interleaving each file at a committed name hashes to that name, temporary files never have committed names, and every Put that reported success had the digest of its bytes |
| LocalProtocol.EveryFinishedReadIsVerified | internal/storage/local/local.go:114-138 | a reader that reaches the end of a committed file has bytes that hash to the name it opened, whatever was renamed over it or deleted meanwhile |
| LocalProtocol.CommitPublishesItsStream | internal/storage/local/local.go:84-104 | the rename publishes exactly the stream of its Put and changes no other committed file, or fails and changes nothing |
| LocalProtocol.NoPutLosesItsDirectory | internal/storage/local/local.go:140-150 | for all references, in every run in which no Delete is aimed at a temporary file in use, a Put past its create step keeps that file and its directory, and its rename goes through if and only if no directory has the name of its file |
| LocalProtocol.NoFlatPutLosesItsDirectory | internal/storage/local/local.go:140-150 | with flat references, and Deletes by real digests, that is so in every run and every rename goes through |
| LocalProtocol.DigestOfATemp | internal/storage/local/local.go:36-67 | a digest that goes on with the suffix of a temporary file leads to that file |
| LocalProtocol.DeleteTakesATemp | internal/storage/local/local.go:140-150 | a Delete by such a digest takes the temporary file of a Put, and the rename fails: the hypothesis on Deletes is needed |
| LocalProtocol.NextKeepsInv | internal/storage/local/local.go:56-150 | every single step of any Put, Get or Delete keeps the invariant of inodes, owners and readers |
| TempFiles.NoPutLeavesItsTemp | internal/storage/local/local.go:72-75 | in every run, for all references and schedules and whatever fails, once no Put is at work each file was there at the beginning or is at the path of a Put that succeeded |
| LocalProvider.Local.Put | internal/storage/local/local.go:56-112 | one Put, step by step on the tree, is the specified transformation; a missing field is the one way to be refused at once, with nothing changed |
| LocalProvider.Local.Exists | internal/storage/local/local.go:152-162 | true if and only if a file or a directory has the name; an error if and only if neither does and a plain file lies on the way |
| LocalProvider.Local.Delete | internal/storage/local/local.go:140-150 | one Delete with its two prunings is the specified transformation, whose effect on files and directories the rows below say exactly |
| LocalProvider.Local.Get | internal/storage/local/local.go:114-138 | the content of a file; a directory, a file on the way and an absent name are told apart |
| LocalProvider.Local.ReadDir | internal/storage/local/local.go:184 | every entry of a directory once, with its kind |
| LocalProvider.Local.ListVersions | internal/storage/local/local.go:182-200 | strictly sorted, exactly the directories below the name; empty for an absent directory, an error for a file |
| Sorting.StringOrder | internal/storage/local/local.go:198 | the order of the list: a text before those that continue it, else the first difference decides |
| LocalGuarantees.PutStoresItsBytesOrNothing | internal/storage/local/local.go:56-112 | a stored Put leaves exactly its bytes at its path and a rejected one leaves that path as it was; no other path changes, and no temporary file is left |
| LocalGuarantees.PutSucceedsExactlyWhenVerified | internal/storage/local/local.go:84-93 | on a settled store a Put succeeds if and only if checksum and size fit, and a wrong size is reported before a wrong checksum |
| LocalGuarantees.DeleteRemovesOnlyItsObject | internal/storage/local/local.go:140-150 | Delete removes its object and no other, or nothing |
| LocalGuarantees.DeleteRefusesExactly | internal/storage/local/local.go:140-145 | Delete is refused if and only if the path is a directory with entries, the root directory, or behind a file |
| LocalGuarantees.DeletePrunesExactly | internal/storage/local/local.go:146-148 | otherwise the parent directory stays if and only if it was there with another entry, the one above if and only if it was there and the parent stayed or it held another entry, and every other directory stays |
| LocalGuarantees.DeleteIsIdempotent | internal/storage/local/local.go:140-150 | a second Delete changes neither files nor directories and gives the same answer |
| VersionListing.ListedVersionsLieOnTheWayOfPuts | internal/storage/local/local.go:56-64 | after any Puts and Deletes on a store that began without versions, for all references, every listed version lies on the way to the parent of the file of some Put among them |
| VersionListing.VersionsWithObjectsAreListed | internal/storage/local/local.go:182-200 | after any Puts and Deletes, a version whose directory holds an object, however deep, is listed |
| VersionListing.ListedVersionsComeFromPuts | internal/storage/local/local.go:182-200 | when no Put among the calls has its file's parent inside another version than its own, every listed version was attempted by some Put; Deletes may be any |
| VersionListing.OnePutMisleadsExactlyWhenItStrays | internal/storage/local/local.go:36-64 | that condition is exact: on an empty store one Put makes a listing show an unattempted version if and only if its fields are given and its reference strays so, whatever its bytes and checksum |
| VersionListing.StayingPutsAreListedRight | internal/storage/local/local.go:36-54 | after Puts with plain components and digests without a climbing element, slashes and dots allowed, and any Deletes, every listed version was attempted, and each with an object of such a reference is listed |
| VersionListing.StoredVersionIsListed | internal/storage/local/local.go:182-200 | after a stored Put of ordinary names the listed directory of its package holds one by the name of the version, letter for letter |
| VersionListing.VersionStaysListedExactly | internal/storage/local/local.go:140-150 | on a settled store a version is listed after a Delete of one of its objects if and only if another file lies in its directory, and its package's directory stays if and only if a version's does |
| VersionListing.TenantIsListedExactlyWhenSafe | internal/storage/local/local.go:36-54 | Put does not sanitise the tenant and ListVersions does: a stored version is listed under its own tenant if and only if the tenant has only characters that sanitising keeps |
| ClientView.PutThenListVersions | internal/storage/local/local.go:182-200 | a client that has stored a version of an ordinary name finds it in the list as it gave it |
| ClientView.DeleteThenListVersions | internal/storage/local/local.go:140-150 | a client that deletes an object finds its version in the list if and only if the version had another object |
| VersionListing.ClimbingDigestListsWhatNobodyAttempted | internal/api/handlers/packages.go:116-124 | one Put by the digest "../w/x" makes the listing of its own tenant and name show a version w that was not attempted |
| SoloRun.SoloPutIsPutAlone | internal/storage/local/local.go:56-112 | a Put of the interleaved protocol that meets no other call does what the method does |
| SoloRun.SoloDeleteIsDeleteAlone | internal/storage/local/local.go:140-150 | a Delete of the interleaved protocol that meets no other call does what the method does |
| SoloRun.SoloGetReadsTheFile | internal/storage/local/local.go:114-138 | a Get that meets no other call opens files only, and reading to the end gives the content |
| SharedTemp.SharedTempBreaksTheStore | internal/storage/local/local.go:67-102 | two uploads that share a temporary file: one is reported stored and the committed file holds any prefix of the bytes of the other, wrong exactly when that prefix hashes differently |
| SharedTemp.SharingIsNeverSafe | internal/storage/local/local.go:67-102 | any two uploads of one reference that share it, also of the same bytes, have a schedule that leaves a file which does not hash to its name |
| ObjectStore.Bucket.Put | internal/storage/s3/s3.go:92-136 | write, compare, delete on mismatch |
| ObjectStore.Bucket.Delete | internal/storage/gcs/gcs.go:118-125 | the key is gone and no other |
| ObjectStore.NextKeepsInv | internal/storage/gcs/gcs.go:49-71 | every request of any client keeps it that a bad object was last written by a Put with its clean-up ahead |
| ObjectStore.BadObjectsBelongToUnfinishedPuts | internal/storage/s3/s3.go:92-113 | under every interleaving a bad object is the last write of a Put still to delete it, so a store at rest holds only verified objects |
| ObjectStore.ObjectStaysExactlyWhenUnthreatened | internal/storage/s3/s3.go:107-113 | in every state that keeps the invariant, so in every reachable one, a present key stays present through all runs that neither delete it nor begin a mismatching Put of it, if and only if no mismatching Put of it is unfinished |
| BucketReports.SuccessReportsTheLastWrite | internal/storage/s3/s3.go:115-136 | in every reachable state the last request of a good Put succeeds if and only if its key holds an object, which is what the last writer of the key sent; S3 reports that object's length and GCS its own; the object is the Put's own bytes exactly when the last writer's bytes have its digest, and else the last writer has its clean-up ahead |
| BucketReports.EverySuccessReportsAnUpload | internal/storage/gcs/gcs.go:66-86 | over every run from a store at rest a reported success is that of bytes of the stated digest, under their key, with their length, or on S3 with the length of a mismatching upload to that key |
| BucketReports.S3CanReportTheOtherLength | internal/storage/s3/s3.go:115-128 | a run in which S3 reports the length of a mismatching upload that came in between, and GCS its own |
| BucketReports.SoloPutIsPutObject | internal/storage/s3/s3.go:92-136 | a Put whose requests meet no other call leaves the bucket and gives the answer of the method |
| Equivalence.OnLocal | internal/storage/local/local.go:56-162 | a call of the comparison is the call of the local methods |
| Equivalence.OnBucket | internal/storage/s3/s3.go:92-190 | a call of the comparison is the call of the bucket's methods |
| Equivalence.AnswersAgree | internal/storage/s3/s3.go:92-190 | on equal stores the local and the bucket backend answer every well-formed call alike |
| Equivalence.StoresAgreeUnlessBadOverwrite | internal/storage/s3/s3.go:98-113 | they stay equal if and only if the call is no mismatching Put onto a present key; after one the local store has kept everything and the bucket has lost exactly that key |
| Equivalence.BackendsAreEquivalent | internal/storage/local/local.go:84-102 | no sequence of calls without such a Put tells the backends apart |
| MetadataDb.Store.UpsertPackage | internal/metadata/db.go:44-61 | the id is that of a package of this tenant and name; packages and rows that were there stay, and none comes when it was there already |
| MetadataDb.Store.InsertVersion | internal/metadata/db.go:64-89 | succeeds if and only if the package exists; the row with the record's data, and with the id and time written back into it, is at the end of the table or in the place of the one with its coordinates, whose id and time it keeps |
| MetadataDb.Store.PublishPackage | internal/metadata/db.go:223-240 | the two statements in order, and success whenever there is a database: the foreign key always holds |
| MetadataDb.Store.GetVersionByDigest | internal/metadata/db.go:152-177 | some matching row, and none exactly when none matches |
| MetadataDb.Store.ListVersions | internal/metadata/db.go:120-149 | newest first, each row of the package as often as in the table and no other |
| MetadataDb.Store.ListPackages | internal/metadata/db.go:262-289 | each row of the tenant as often as in the table and no other, with its columns, by name ascending and within a name newest first |
| MetadataDb.Store.FetchPackage | internal/metadata/db.go:243-259 | nothing if and only if no row has these coordinates, else the columns of a row that has them |
| MetadataIndex.UpsertKeepsTables | migrations/000001_create_packages.up.sql:4-11 | keys, both UNIQUE constraints and the foreign key survive an upsert, owners stay, and the id returned is that of the package |
| MetadataIndex.InsertKeepsTables | migrations/000001_create_packages.up.sql:15-26 | the same for the insert of a version |
| MetadataIndex.FetchFinds | internal/metadata/db.go:92-117 | the lookup finds a row if and only if it is there under that tenant, name and version |
| MetadataIndex.FetchAfterInsert | internal/metadata/db.go:74-88 | an insert changes the lookup of its own coordinates and no other; a row that was there keeps id and creation time |
| PublishInterleaving.InterleavedPublishesLinearise | internal/metadata/db.go:223-240 | for every interleaving of publishes the lookups are one map that is written at the second statement, the constraints hold, and rows keep id and time of their first insert |
| PublishInterleaving.PackageIdsAreStable | internal/metadata/db.go:49-60 | every publish of a package is given the id that the first one was given |
| VersionOrder.RepublishKeepsTheOrder | internal/metadata/db.go:78-84 | a republish changes neither order nor length of any list |
| VersionOrder.FirstPublicationComesFirst | internal/metadata/db.go:125-148 | a first publication goes to the head of its package's list and leaves the rest alone |
| VersionOrder.ListIsDetermined | internal/metadata/db.go:125-132 | with distinct creation times there is one list only, whatever the heap order, strictly newest first, with exactly the package's rows |
| VersionOrder.TenantListIsDetermined | internal/metadata/db.go:262-289 | with distinct creation times one list of a tenant meets that order, for every heap order of the rows |
| MockStore.MockRegistryStore.PublishPackage | internal/metadata/mock.go:19-39 | exactly one entry of the nested maps is set |
| MockStore.MockRegistryStore.FetchPackage | internal/metadata/mock.go:41-59 | the entry, or nothing on any missing level |
| MockStore.MockRegistryStore.ListPackages | internal/metadata/mock.go:61-78 | every entry of the tenant exactly once, in any order |
| MockStore.StoresAgree | internal/metadata/mock.go:19-59 | after any publications tables and mock answer every fetch alike |
| MockStore.ListsAgree | internal/metadata/mock.go:61-78 | their lists are equal multisets |
| MockStore.TenantsAreIsolated | internal/metadata/db.go:262-270 | a publish in one tenant shows in no other tenant's fetches and changes no other tenant's list, not even its order |
| Registry.NextKeepsInv | internal/api/handlers/packages.go:116-154 | every step of every request keeps the agreement of rows, requests and files |
| RegistryGuarantees.EmptyBegins | internal/storage/local/local.go:26-34 | a new root directory and empty tables meet what the theorems ask of a beginning |
| RegistryGuarantees.EveryVersionNamesAStoredBlob | internal/api/handlers/packages.go:116-154 | in every reachable state each row's storage key is that of its reference, its file is there, hashes to the row's digest and has the row's size (the size for an injective hash) |
| RegistryGuarantees.ManifestPushesNeverSucceed | internal/api/handlers/oci.go:114-142 | every manifest push waits for its Put or has been answered 500 |
| RegistryGuarantees.PullsDeliverTheirDigest | internal/api/handlers/packages.go:184-215 | a pull that found a row is never answered 404 or 500 and streams bytes of the row's checksum, also across a republish |
| RegistryLookups.ManifestIsFoundExactlyWhenPublished | internal/api/handlers/oci.go:156-167 | in every reachable state a manifest lookup answers 404 if and only if no version of that tenant and name has the tag, or has the digest as that of its latest insert; a row that it returns carries that digest |
| RegistryGuarantees.EveryMatchHoldsTheSameBytes | internal/api/handlers/oci.go:156-189 | whichever row a lookup by digest picks, the same bytes lie behind it |
| RegistryUploads.BlobCompletionIsAllOrNothing | internal/api/handlers/oci.go:64-96 | over every run, an upload answered with an error changed no committed file, no session and no table at any of its steps; one answered 201 closed exactly its session and what is stored is its body (for an injective hash; else content of the same hash) |
| RegistryUploads.PublishIsAllOrNothing | internal/api/handlers/packages.go:116-154 | over every run, however it goes on, an answered publish keeps its answer, 201 or 500; after a 500 no committed file, session or table has changed at any of its steps; after a 201 the stated digest is that of its body and the file of that digest is there for good, holding the body (for an injective hash; else content of the same hash), whether or not the index took the row |
| RegistryUploads.ClosedSessionsLeaveTheirBlob | internal/api/handlers/oci.go:86-91 | over every run, a session that was open and is gone was closed by an upload of its own that was answered 201 in between, and that upload's blob is stored |
| RegistryGuarantees.OnlyACommitChangesAFile | internal/storage/local/local.go:102-104 | in the whole registry a committed file changes only when a Put renames its whole, checked stream over it |
| RegistryGuarantees.HeadBlobAnswersWhatWasStored | internal/api/handlers/oci.go:98-112 | HEAD answers 200 if and only if a Put to that file succeeded, exactly when no directory has the file's name |
| RegistryGuarantees.HeadBlobIsExactInFlatStores | internal/api/handlers/oci.go:98-112 | when only flat references are pushed HEAD is exact |
| RegistryGuarantees.HeadBlobCanFindADirectory | internal/api/handlers/oci.go:98-112 | a run after which HEAD reports a blob that nobody has stored |
| Tarball.FirstManifestDecides | internal/metadata/tar.go:26-60 | the outcome is that of the first entry with a manifest's name, else of how the archive ends |
| Tarball.ManifestNamesExactly | internal/metadata/tar.go:38-41 | which names count as manifests: three, in any case, at the root, with or without "./" |
| Tarball.ExtractFromTar | internal/metadata/tar.go:26-60 | the loop with its early returns and its size test computes that outcome |
| Handlers.ExtractManifestFromTarball | internal/metadata/tar.go:14-24 | the scan's result, and a read position left anywhere |
| Handlers.PackageHandler.Publish | internal/api/handlers/packages.go:49-173 | 400 if and only if there is no artifact; exactly the uploaded bytes are stored however many the scan took; index after storage |
| Handlers.UploadedIs | internal/api/handlers/packages.go:57-84 | the artifact is a body that is not empty, or the file of a valid form, which may be |
| Handlers.PublishedRowTellsOfTheUpload | internal/api/handlers/packages.go:104-151 | the row under the coordinates of a publish, manifest before query before default, has the stated digest, the size of the upload, the storage key of its reference, the bytes of the manifest or {}, and the user or "dev"; a row that was there keeps its creation time |
| Handlers.PackageHandler.Named | internal/api/handlers/packages.go:103-114 | non-empty manifest fields before the query values |
| Handlers.PackageHandler.Record | internal/api/handlers/packages.go:132-155 | the row that a stored upload gets |
| Handlers.PackageHandler.GetPackage | internal/api/handlers/packages.go:176-216 | with a row its digest is used when none is asked for and sent in any case; without one the digest asked for is used and none sent; the content of the file, 404 when nothing is there, else 500 |
| Handlers.PackageHandler.ListPackageVersions | internal/api/handlers/packages.go:219-262 | a summary for each row that the store lists, in its order, each with the columns of its row |
| Handlers.OCIHandler.StartBlobUpload | internal/api/handlers/oci.go:52-62 | a session under the new uuid |
| Handlers.OCIHandler.CompleteBlobUpload | internal/api/handlers/oci.go:64-96 | 400 without digest or body; the Put; the session deleted after success only |
| Handlers.OCIHandler.HeadBlob | internal/api/handlers/oci.go:98-112 | 200 for a file or a directory |
| Handlers.OCIHandler.PutManifest | internal/api/handlers/oci.go:114-142 | the Put under the made-up digest, then the row with the digest in place of the storage key |
| Handlers.OCIHandler.GetManifest | internal/api/handlers/oci.go:144-189 | by digest or tag; 404 only when no row matches, else the answer of a matching row |
| Handlers.PublishThenPull | internal/api/handlers/packages.go:116-215 | after a 201 a pull returns the uploaded bytes under their checksum, and the client had stated that checksum |
| ClientView.PublishThenGet | internal/api/handlers/packages.go:49-216 | a client whose publish was answered 201 gets its very bytes back under the coordinates of manifest, query or default: with an index by the stated digest or none, with that digest as header, without an index by the stated digest and without header |
| Handlers.PutManifestAlwaysFails | internal/api/handlers/oci.go:114-131 | the Put is rejected for any body and no committed file changes |
| Handlers.UploadThenHead | internal/api/handlers/oci.go:64-112 | after a 201 HEAD answers 200 and the file is the body |
| Handlers.HeaderOfAnExplicitDigest | internal/api/handlers/packages.go:184-195 | for any digest in the query, with its algorithm or without, header and bytes of a committed file fit if and only if the row's digest is that of the file |
| SoloRequests.SoloPublishIsTheHandler | internal/api/handlers/packages.go:116-154 | a publish alone in the interleaved registry leaves the tree, the tables and the answer of the handler's contract |
| SoloRequests.SoloPullIsTheHandler | internal/api/handlers/packages.go:176-216 | a pull alone gives the handler's response |
| SoloRequests.SoloBlobIsTheHandler | internal/api/handlers/oci.go:64-96 | a blob completion alone leaves tree, sessions and answer of the handler |
| SoloRequests.SoloUploadIsTheHandler | internal/api/handlers/oci.go:52-62 | the start of an upload opens the session that the handler opens |
| SoloRequests.SoloRefusedBlobIsTheHandler | internal/api/handlers/oci.go:69-76 | without digest or body it is answered 400 and nothing changes |
| SoloRequests.SoloManifestIsTheHandler | internal/api/handlers/oci.go:114-142 | a manifest push alone leaves tree, tables and answer of the handler |
| SoloRequests.SoloManifestPullIsTheHandler | internal/api/handlers/oci.go:144-189 | a manifest pull alone gives the handler's response for the row found, and 404 when none matches |
| Frontmatter.CaptureIsShortest | scripts/validate-content-frontmatter.py:26-29 | the capture is the shortest body that the expression admits, and there is none exactly when it admits none |
| Frontmatter.PrintThenCapture | scripts/validate-content-frontmatter.py:68-71 | reading back a printed body gives it, if and only if it does not end in a carriage return and has no delimiter line behind its first |
| Synonyms.Document.NormalizeSynonyms | scripts/validate-content-frontmatter.py:92-134 | the rewriting in place and its notes are those of the rules in order |
| Synonyms.Document.NormalizeItems | scripts/validate-content-frontmatter.py:100-113 | each text of a list replaced, other items kept, a note for each change |
| Synonyms.EachTextIsSent | scripts/validate-content-frontmatter.py:92-134 | the rules together do to each text of each field what they do to it one after the other, and nothing to anything else |
| Synonyms.OneMoreRule | scripts/validate-content-frontmatter.py:96-133 | one more rule looks up what the rules before it have made of a text: in the lists of "topics" for the facet "topic", else in lists and texts of its own field |
| Synonyms.NotesOfOneMoreRule | scripts/validate-content-frontmatter.py:109-131 | its notes come last, with the field, the old text and the new one |
| Synonyms.NotesOnItems | scripts/validate-content-frontmatter.py:104-132 | the notes on a list are those on its items in their order, one for each text that is replaced by another |
| Synonyms.SilenceMeansNoChange | scripts/validate-content-frontmatter.py:92-134 | without notes nothing has changed, whatever the rules |
| Synonyms.NotesTellOfChanges | scripts/validate-content-frontmatter.py:92-134 | notes and changes agree for every document if and only if the rules send no text away and back to itself |
| Synonyms.NormalizingTwice | scripts/validate-content-frontmatter.py:92-134 | for all rules, a second pass changes nothing if and only if the rules, applied once more, leave each text of the document where they have sent it |
| Synonyms.TwoRulesForTopics | scripts/validate-content-frontmatter.py:99-115 | for a taxonomy, whose facets differ, notes and changes agree for every document if and only if no text is changed by the earlier rule of a field and changed back by the later one |
| Coverage.ParseGoCoverage | scripts/quality-gate.py:73-112 | the dict of fractions, its keys in order of first appearance |
| Coverage.FindMatchingCoverage | scripts/quality-gate.py:114-122 | the fraction of the first file whose path ends in the local path, else 0 |
| Coverage.OneBlockCounts | scripts/quality-gate.py:97-101 | a line adds its statements to its own file, and to the covered ones when its count is not 0 |
| Coverage.FractionIsTheShare | scripts/quality-gate.py:105-111 | covered statements are the fraction of all; a file without statements counts as covered |
| Coverage.KeysInOrder | scripts/quality-gate.py:97-98 | each file has one key, in the order in which the files first appear |
| Coverage.FractionIsInUnit | scripts/quality-gate.py:105-111 | each fraction lies in [0, 1] |
| Coverage.FractionIgnoresOrder | scripts/quality-gate.py:84-111 | no fraction depends on the order of the lines |
| Coverage.LookupIgnoresOrderExactly | scripts/quality-gate.py:114-122 | the lookup gives the same for every order of the lines if and only if all matching files have one fraction |
| QualityGate.MatchesAreCounts | scripts/quality-gate.py:38-57 | the scan with eight alternatives finds what separate counts of keywords and of disjoint operator pairs find |
| QualityGate.KeywordsAreSixWords | scripts/quality-gate.py:37-46 | the keywords are six words, each between word boundaries |
| QualityGate.RunsGiveHalf | scripts/quality-gate.py:44-45 | a run of n operator characters counts n / 2, rounded down |
| QualityGate.CommentsAreStripped | scripts/quality-gate.py:62-71 | what counts of a line of a commented language is what stands in front of its first two slashes, else all of it |
| QualityGate.EstimateComplexity | scripts/quality-gate.py:25-60 | one more than the tokens of all lines without their comments |
| QualityGate.OneLineMore | scripts/quality-gate.py:33-56 | an empty file has complexity 1, and a line adds its keywords and its disjoint operator pairs |
| QualityGate.MoreLinesMoreComplexity | scripts/quality-gate.py:51-56 | appending lines never lowers complexity |
| QualityGate.CrapIsMonotone | scripts/quality-gate.py:17-23 | the score rises with complexity and falls with coverage |
| QualityGate.ExcessScales | scripts/quality-gate.py:17-23 | the part of the score above the complexity goes with the third power of the uncovered part and the square of the complexity, and is 1 at 1 and 1 |
| QualityGate.CrapBounds | scripts/quality-gate.py:17-23 | C <= CRAP <= C*C + C |
| QualityGate.WhatTestsCanSave | scripts/quality-gate.py:15-23 | at limit 30 a file passes whatever its coverage if and only if C <= 5, and fails whatever its coverage if and only if C > 30 |
| QualityGate.AuditedScoreBounds | scripts/quality-gate.py:148-155 | the bounds hold for each audited file |
| QualityGate.AppendingNeverLowers | scripts/quality-gate.py:148-155 | appending lines at fixed coverage never lowers a score |
| QualityGate.ViolationsAreAPrefix | scripts/quality-gate.py:169-170 | after the descending sort the violations are exactly a prefix |
| QualityGate.AuditedExactly | scripts/quality-gate.py:142-146 | which files are audited: three endings, no test of Go, none of seven parts in the directory |
| QualityGate.ContainsIs | scripts/quality-gate.py:142 | a part of a directory stands somewhere between its beginning and its end |
| QualityGate.OneFileMore | scripts/quality-gate.py:145-170 | an audited file adds its path, complexity, percentage and score behind those before it |
| QualityGate.ReportKeepsTies | scripts/quality-gate.py:173 | files of one score are reported in the order of the walk |
| QualityGate.AuditDirectory | scripts/quality-gate.py:124-204 | the report lists the first 15, or all violations if there are more; the count is zero if and only if every audited file is within the limit |

## Left out

- HTTP routing, multipart decoding (which field holds the file, a file that cannot be opened), JSON rendering, logging, configuration: handlers are methods over explicit inputs, the tenant among them.
- Authentication, webhook delivery and its signatures: network and library calls.
- SHA-256, gzip, tar, JSON and YAML formats: functions of bytes with nothing known but the shape of a digest. Whether a plain tar is recognised after gzip has read from it is not claimed.
- Search in JSONB manifests, `ParseManifest`, and the stub `ListVersions` of the object stores: nothing hard to prove.
- Failing system calls in the class `LocalProvider.Local`: `LocalProtocol` has them at every step of a Put (its Fail action), the class has those that the state of the tree decides.
- Opening a directory as a blob: the operating system opens it and the first read fails; the model answers 500 at the open.
- Symbolic links, permissions, and a rename of a directory: a Delete that removes an unfinished temporary file and another call that makes a directory of the same name are beyond the rename of the model, which moves files only.
- Failing readers in the object stores, and clean-ups that fail: each request to the service is one step; an upload may be refused as a whole.
- Connection loss inside one SQL statement: each statement is one step. In the interleaved registry the statements of a publish may fail, the lookup of a pull does not.
- The lock-free map of upload sessions and collisions of its clock-made uuids: session steps are atomic and uuids are inputs.
- A registry without an index in the interleaved model: `Handlers` has it, `Registry` always has tables.
- Deletes in the interleaved registry: no handler calls Delete; `LocalProtocol` interleaves it with everything else.
- RegistryGuarantees.PullsDeliverTheirDigest: speaks of pulls without a digest of their own; those with one are the subject of `Handlers.HeaderOfAnExplicitDigest`.
- Floating-point rounding in the quality gate: fractions and scores are real numbers.
- The regular expression that reads a coverage line, the directory walk and terminal formatting: lines come parsed or not, files come listed.
- Schema validation, glob matching, type inference and git in the frontmatter validator: library calls around the two parts that are modelled.
