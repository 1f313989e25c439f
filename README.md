# BanyanDB liaison stream service and backup command, in Dafny

This project models two parts of BanyanDB.

**The stream write path of the liaison node** (`StreamWrite`). A client opens
a bidirectional stream of write requests. Each request passes through these
steps, in this order:

1. the timestamp check;
2. a schema-revision check against the schema cache, made only when the
   revision is positive;
3. navigation to a shard;
4. node lookup;
5. publishing to a batch publisher.

A request that fails any step is replied to at once, with the step's status.
As written, the handler crashes on the reply to a request with an invalid
timestamp instead of sending it (see "Findings"). The model's `Write` is the
handler with that reply sent, and `RepliesAsWritten` is the handler as
written.
A request the publisher accepts is recorded as pending. When the stream ends,
the batch publisher is closed. Each pending entry is then replied to with
SUCCEED, or with the status that the close-time failure map gives its node.
The stream can end in three ways: end of input, a done context, or a receive
error. All three flush the pending replies. The model proves that, once the
invalid-timestamp reply is sent, every received request gets exactly one
reply, in a fixed order: the immediate
replies first, in receipt order, then the deferred replies, in acceptance
order.

**The stream query path** (`StreamQuery`). A missing time range is replaced
by the default range, and the range is checked. A node selector is built for
each group, and one message is broadcast. The result becomes the reply:
- a publisher end of input gives an empty response;
- a transport error is returned as is;
- a domain error is wrapped as a query failure.

**The backup command** (`Backup`). The command resolves each snapshot's
directory under its catalog's root. It then brings the remote directory
`timeDir/snapshotName/` in line with that directory: local files missing
remotely are uploaded, and remote files that no local file accounts for are
deleted. The model proves that the plan of a backup which succeeds is right:
its uploads and attempted deletions, applied to the remote listing, give
exactly the remote paths of the local files. A failed delete is only logged,
so the store itself may keep an orphan. A failed backup attempts no
deletion. The model also covers:
- the `file`-only destination scheme;
- the `hourly`/`daily` schedule table;
- the error flow of the backup action (see "Findings").

Collaborators are given as inputs: oracle datatypes of functions and fixed
results (`StreamWrite.Oracles`, `StreamQuery.QueryEnv`, `Backup.Storage`,
`Backup.BackupEnv`). This covers the registries, resolver, publisher,
broadcaster, URL parser, file systems and snapshot service. The stream's
received requests, the way the stream ends, the publisher's close result and
the backup's time directory are parameters.

## Model

| member | source | states |
|---|---|---|
| StreamWrite.Write | banyand/liaison/grpc/stream.go:67-176 | The replies sent on a stream are `Replies` of the received requests: one per request, with immediate rejections in the receive loop, then deferred replies flushed on every exit. The returned error is nil exactly on end of input. |
| StreamWrite.FlushDeferred | banyand/liaison/grpc/stream.go:82-92 | The deferred block sends one reply per pending entry, in recording order. Each reply keeps the entry's metadata and message id. Its code is SUCCEED unless a non-nil close-time map has an entry for the node, and then it is that entry's status. |
| StreamWrite.EndError | banyand/liaison/grpc/stream.go:100-115 | The loop returns nil exactly when the receive ends with end of input. A done context returns the context's error. Any other receive error is returned as is. |
| StreamWrite.ExactlyOneReplyPerRequest | banyand/liaison/grpc/stream.go:82-174 | The reply order is a permutation of the stream's positions: its length is the number of requests, every position occurs, and no position occurs twice. The reply order is the positions replied inside the loop followed by those recorded as pending. The helper lemmas `SplitCount`, `IdxSorted` and `IdxComplete` show that each position is in exactly one of the two lists, in increasing order. |
| StreamWrite.ReplyOrdering | banyand/liaison/grpc/stream.go:82-174 | Every immediate reply comes before every deferred one. Within each kind, replies follow increasing stream position. |
| StreamWrite.FirstInvalidTimestamp | banyand/liaison/grpc/stream.go:117-121 | The first position whose timestamp fails the check, or the stream's length: every earlier timestamp passes, and the one at that position fails. |
| StreamWrite.AsWrittenStopsAtInvalidTimestamp | banyand/liaison/grpc/stream.go:68-121 | As written (`RepliesAsWritten`), a stream gets one reply per request before its first invalid timestamp and none after. The helper panics on the nil metadata, and only the deferred block still runs. A stream without an invalid timestamp gets exactly the replies of `Write`; any other gets fewer. |
| StreamWrite.LostRepliesExample | banyand/liaison/grpc/stream.go:68-121 | Valid, missing and valid timestamps give one reply as written against three from `Write`. |
| StreamWrite.NilMetadataOnlyOnInvalidTimestamp | banyand/liaison/grpc/stream.go:117-121 | A reply has nil metadata exactly when its request failed the timestamp check, and its status is then INVALID_TIMESTAMP. |
| StreamWrite.DeferredReplyStatus | banyand/liaison/grpc/stream.go:84-91 | A deferred reply answers a write that the publisher accepted for the located node. Its status is SUCCEED unless the close-time map names that node, and then it is that node's status. |
| StreamWrite.SharedNodeFailure | banyand/liaison/grpc/stream.go:84-91 | When every accepted write went to one node and the close-time map reports a failure for it, every deferred reply carries that failure's status. |
| StreamWrite.InvalidTimestampFirst | banyand/liaison/grpc/stream.go:117-121 | An invalid timestamp gives INVALID_TIMESTAMP with nil metadata, whatever the cache, registries and publisher say. |
| StreamWrite.ZeroRevisionSkipsSchema | banyand/liaison/grpc/stream.go:122-134 | A revision that is not positive never consults the schema cache. |
| StreamWrite.SchemaOutcomes | banyand/liaison/grpc/stream.go:122-134 | With a positive revision, a missing entity gives NOT_FOUND and a different cached revision gives EXPIRED_SCHEMA. A matching revision goes on to routing. |
| StreamWrite.AcceptedIff | banyand/liaison/grpc/stream.go:135-174 | A request is pending exactly when every check passes, a node is located and the publisher accepts the message. The entry names that node. A navigation or lookup failure gives INTERNAL_ERROR, a typed publish error gives its own status, and an untyped one gives INTERNAL_ERROR. |
| StreamQuery.NodeSelectors | banyand/liaison/grpc/stream.go:216-223 | One selector key per requested group. Each value is the registry's node list, or nil when the registry has no entry. |
| StreamQuery.Query | banyand/liaison/grpc/stream.go:180-244 | A missing time range is defaulted. An invalid range is INVALID_ARGUMENT before any broadcast. A valid one broadcasts a single message with the request, its range and one selector per group. The reply interprets each broadcast outcome: end of input is an empty response; a publish or get error is returned; a response is returned; a domain error is wrapped; any other payload is nil with nil error. |
| Backup.GetSnapshotDir | bydbbackup/internal/backup/backup.go:188-202 | Fails exactly for a catalog other than stream, measure and property, and the error is the unknown-catalog error. |
| Backup.SnapshotDirLayout | bydbbackup/internal/backup/backup.go:188-202 | A resolved directory is `root/snapshots/name` for the catalog's root. Two snapshots of one catalog whose names are clean path elements share a directory only if they share a name. |
| Backup.RemotePathInjective | bydbbackup/internal/backup/backup.go:221-229 | A file's remote path lies under the listed prefix `timeDir/name/`. Distinct local files get distinct remote paths. |
| Backup.Contains | bydbbackup/internal/backup/backup.go:285-292 | True exactly when the string is an element of the slice. |
| Backup.Orphans | bydbbackup/internal/backup/backup.go:276-282 | A path is an orphan exactly when it is listed remotely and is not an expected path. |
| Backup.DeleteOrphanedFiles | bydbbackup/internal/backup/backup.go:270-283 | Attempts a delete for exactly the listed remote files that are not the remote path of a local file, in listing order. |
| Backup.MissingUploads | bydbbackup/internal/backup/backup.go:228-235 | The uploads due are exactly those for local files whose remote path is not listed. |
| Backup.UploadMissing | bydbbackup/internal/backup/backup.go:228-235 | The upload loop uploads each unlisted local file in order and stops at the first failed upload with its error (`UploadRun`). |
| Backup.BackupSnapshot | bydbbackup/internal/backup/backup.go:214-239 | A walk or listing error is returned with nothing done. Otherwise the upload loop runs. If it succeeds, the orphans are deleted and nil is returned; delete failures are ignored (`SnapshotBackup`). |
| Backup.UploadRunOnlyUploads | bydbbackup/internal/backup/backup.go:228-235 | The upload loop never deletes. |
| Backup.UploadRunUploadsMissing | bydbbackup/internal/backup/backup.go:228-235 | An upload loop that succeeds uploads exactly the missing files, in local-file order. |
| Backup.UploadRunStopsAtFailure | bydbbackup/internal/backup/backup.go:230-233 | An upload loop that fails has uploaded a non-empty prefix of the missing files. |
| Backup.UploadRunFailsAtLast | bydbbackup/internal/backup/backup.go:230-233 | The last upload of a failed loop is the one whose error is returned. |
| Backup.UploadRunEarlierUploadsSucceeded | bydbbackup/internal/backup/backup.go:228-235 | Every upload before the last one succeeded, and so did the last one when the loop succeeded. So a failed loop stopped at its first failed upload. |
| Backup.MissingUploadPaths | bydbbackup/internal/backup/backup.go:228-235 | The paths uploaded are the expected remote paths minus the listed ones. |
| Backup.ApplyUploads | bydbbackup/internal/backup/backup.go:228-235 | Uploads add exactly their paths to the remote set. |
| Backup.ApplyDeletes | bydbbackup/internal/backup/backup.go:276-282 | Deletes remove exactly their paths from the remote set. |
| Backup.SnapshotBackupSyncs | bydbbackup/internal/backup/backup.go:214-239 | When a snapshot backup succeeds, its planned uploads and attempted deletions, applied to the listing, give exactly the remote paths of the local files. A failed one only uploaded. |
| Backup.NewFs | bydbbackup/internal/backup/backup.go:155-167 | Succeeds exactly for a parsable URL with the `file` scheme whose local store opens. The result is the URL's path. Any other scheme is the unsupported-scheme error naming it. |
| Backup.BackupAction | bydbbackup/internal/backup/backup.go:123-153 | An empty destination, a store error or a snapshot-service error returns that error with nothing done. Otherwise every snapshot with a known catalog is backed up in order, and the failures are collected (the corrected loop, see Findings). |
| Backup.LastSnapshotDecides | bydbbackup/internal/backup/backup.go:143-152 | As written, the returned error depends on the last snapshot only: a clean last backup returns nil, whatever failed before it. |
| Backup.EarlierFailureIsLost | bydbbackup/internal/backup/backup.go:143-152 | As written, a failed first backup followed by a clean second one returns nil, while the collected errors hold the first failure. |
| Backup.CollectedErrsComplete | bydbbackup/internal/backup/backup.go:143-152 | The corrected loop returns nil exactly when no backed-up snapshot failed. It reports every such failure, and every error it reports is the failure of some backed-up snapshot, so a skipped snapshot adds none. |
| Backup.ScheduleStyles | bydbbackup/internal/backup/backup.go:49-80 | No schedule runs one backup. `hourly` maps to `5 * * * *` and `daily` to `5 0 * * *`. Any other style is the unsupported-schedule error. |

## Left out

- Metrics, logging, sampling and the ingestion access log (stream.go:68-78, 93-97, 116, 141-145, 181-193) are not modelled; they do not change a reply.
- Sending a reply is modelled as always succeeding. A failed `Send` (stream.go:73-76) is only logged and counted.
- StreamWrite.Write: models the handler with the INVALID_TIMESTAMP reply of stream.go:119 sent with nil metadata, not the nil dereference at stream.go:70 that ends the handler there. The as-written replies are `StreamWrite.RepliesAsWritten` (see Findings). What happens after the panic (a crash, or a recovery by the server) is not modelled.
- A request with nil metadata or a nil element would panic at stream.go:116-117. The model's requests always carry both.
- The timestamp check, the time-range check and the default range are oracles (`timestampValid`, `timeRangeValid`, `defaultTimeRange`). Their internals are not part of this model.
- Navigation, node lookup and publishing are oracles. The entity key, series hash, encoded tag values and clock-based message ids (stream.go:146-151, 158) are not modelled. The publisher's answer depends only on the request's position and node.
- The close error of the batch publisher is only logged (stream.go:93-95) and is not modelled.
- Concurrency between the receive loop and the context is not modelled. The way the loop ends is a parameter.
- Query tracing (stream.go:202-215) is not modelled. In particular, with tracing on, a nil response with nil error (line 243) would be dereferenced at line 210.
- Query error texts are not modelled: the `%v is invalid` message and the context added to a wrapped domain error are reduced to the error's kind and its inner message.
- `streamService.Close` (stream.go:246-248), `setLogger` and `activeIngestionAccessLog` are not modelled: they only manage the logger and the access log.
- Paths are joined with a plain `/`. The cleaning done by Go's `path.Join` and `filepath.Join` (removing `.`, `..` and repeated slashes, and dropping empty elements) is not modelled. With an empty root, an unclean root such as `/tmp/`, or an empty snapshot name, the model's paths differ in text from the program's.
- Backup.SnapshotDirLayout: the directory injectivity is stated only for names that are clean path elements. For such names the join stays injective in the program too, because the cleaned root and `snapshots` form a prefix common to both directories. Other names (`x/`, `a/../x`) may share a directory in the program, but not in the model.
- `getAllFiles` (the `filepath.Walk` of a snapshot directory), the remote listing, uploads and `url.Parse` are oracles of `Backup.Storage` and `Backup.BackupEnv`. Opening a local file for upload is part of the upload oracle.
- The outcome of each orphan delete is not modelled: a delete failure is only logged (backup.go:278-280), so the model records every delete attempted. `Backup.SnapshotBackupSyncs` is therefore about the plan, not about what the remote store holds afterwards.
- `getSnapshots` (the gRPC call to the data node) is an input: its result, or its error.
- `getTimeDir` reads the clock; the time directory is a parameter.
- Closing the remote store (backup.go:134) is not modelled.
- Registering the cron job, the scheduler and waiting for a signal (backup.go:81-105) are left out. `Backup.ScheduleStyles` covers only the choice between one run, a cron expression and an error.
- Backup.BackupAction: models the corrected error collection described under Findings, not the reassignment of `err` at backup.go:145. The as-written behaviour is `Backup.LastOutcomeErrs`, and the lemmas `Backup.LastSnapshotDecides` and `Backup.EarlierFailureIsLost` state it.

## Findings

| source | as written | input that shows it | evidently intended | confidence | as-written member | corrected member |
|---|---|---|---|---|---|---|
| bydbbackup/internal/backup/backup.go:143-152 | `err` is reassigned by `getSnapshotDir` at the start of every iteration, so `multierr.AppendInto` never builds on earlier failures. The action returns only the last snapshot's outcome. | Two snapshots with known catalogs, where the first backup's upload fails and the second backs up cleanly: the action returns nil. | Every backed-up snapshot's failure is accumulated and returned; snapshots with an unknown catalog are skipped with a warning. | not executed | Backup.EarlierFailureIsLost | Backup.CollectedErrsComplete |
| banyand/liaison/grpc/stream.go:117-121 | The INVALID_TIMESTAMP reply passes a nil metadata to the reply helper, which reads `metadata.Group` (line 70) before sending. The reply is never sent, the handler panics, and no later request is read. | A stream of a request with a valid timestamp, one without a timestamp and another valid one: one reply instead of three. | The rejection is sent (with nil metadata, or with the request's metadata) and the stream goes on, so that every request gets one reply. | not executed | StreamWrite.LostRepliesExample | StreamWrite.ExactlyOneReplyPerRequest |
