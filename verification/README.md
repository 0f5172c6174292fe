# Verified model of the Workspace client and the local Agent

This project models the parts of the Workspace client library (`packages/client-core`), of the local
Agent host (`apps/agent`) and of the message references of the harness plugin whose correctness is
not visible from any one function: rewriting image references through nested JSON and back, recovery
from lost responses, the lease and commit discipline of content runtimes, the promise chains that
order operations and file writes, the connection switch, and a handful of stateful algorithms and
codecs. `dafny verify dfyconfig.toml` checks all of it.

How the model is laid out:

- Values are datatypes and pure code is functions. Objects that update their fields are classes whose
  methods are proved against functions on values; loops of the source are loops with invariants.
- Asynchronous code is a transition system: one step is one atomic segment between two awaits, a state
  is a value, and `Runs`, `After` and `Inv` speak of every interleaving of steps. The classes beside it
  have one method per segment, and each method's contract says that it takes exactly that step.
- Servers, pools, file systems, clocks and other processes are environment: they answer, fail, delay or
  interfere in every way that the stated rules (`Valid`, `Continues`, `Lawful`, `Bounded`) allow. What the
  environment decides about a request is a parameter where that matters (`Fate`, `Meanwhile`, `quiet`), so the
  contracts say both what holds whatever happens and what must succeed when nothing does.

| file | what it models |
|---|---|
| `Base64`, `Percent`, `Strings`, `Sequences`, `Json`, `Wrappers` | encodings and JSON with serialised members |
| `ImageReferences`, `ImageReach`, `ImageRewriting` | the tree rewrite, the references it can change, what a visit sees afterwards |
| `ImageEquality`, `ImageRoundTrip` | trees that are the same up to the layout of serialised data, the way back |
| `EmbeddedImages`, `ExportAssets`, `ImageTransfer` | image data URIs, the assets an export accepts, upload and export as whole operations |
| `RuntimeTarget`, `RuntimeQueue`, `ContentRuntime` | runtime keys, the per-key queue, leases and commits |
| `BlobUpload`, `BlobReplace` | client, server and a channel that loses requests and responses |
| `ConnectionState`, `StateFile`, `ConnectionSwitch`, `OAuth` | the connection record, its queued writes, the switch, authorizations |
| `SpaceBrowse`, `Download`, `RandomDispatch`, `WorkspaceEvents` | browsing, atomic downloads, seeded randomness, the change stream |
| `PathReferences`, `PathReferenceScan`, `ResourceMentions` | references in messages, printed and scanned |
| `EmbeddedUnits` | declarations of embedded Units and what is loaded beside the host |

Findings, where the code and what one may expect of it differ:

- Rewriting images from one source type to another and back is not always the identity: a record whose
  two type keys share one source field is captured by the way back (`ImageRoundTrip.SharedSourceIsCaptured`).
  `ImageRoundTrip.RoundTrip` gives the exact condition, and `RoundTripWhenUnused` a case without captured records.
- A `resources` member that is not an array is rewritten but not visited (`ImageReach.HiddenReference`). The
  changed flag and the visit agree exactly when no mapped source is hidden in this way or some mapped source is
  visited as well (`ImageReach.FlagAgreesExactly`). An image that is hidden in one mutation and visited in
  another one of the same call is uploaded and not exported again (`ImageTransfer.HiddenImageIsNotRestored`;
  `ImageTransfer.MutationsRoundTrip` has the exact condition).
- The runtime home is named by the user id as given, the record on disk holds it trimmed: after a restart
  the home is the same exactly when the id carries no outer white space (`ConnectionSwitch.RestartKeepsHomeExactly`).
  `ConnectionSwitch.RestartMovesHome` is a run with a user id that begins with a space.
- A switch looks at the outcome of the origin write before it makes its home and not again: a write of the
  origin that fails meanwhile does not keep it from being staged (`ConnectionSwitch.StagedAfterLateFailure`).
- A printed reference comes back from a message exactly when its name has no line feed
  (`PathReferenceScan.NameComesBackExactly`); `PathReferenceScan.TwoLinesAreLost` is a folder with such a name.
- Resource ids are printed with brackets unescaped, unlike the identities of folders and files, so a projected
  resource comes back exactly when its id has no closing bracket as well (`ResourceMentions.MentionComesBackExactly`,
  `ResourceMentions.BracketedIdIsLost`).
- After a lost response, a replacement is confirmed by the operation of its key, whose result does not name the
  ETag that was replaced: where another request has used the key, that can be an ETag other than the caller's
  (`BlobReplace.AcceptOtherRequest` is such a run; `BlobReplace.Replace` has the exact condition).
- A record on disk that cannot be read makes every later update fail and stays as it is (`StateFile.FileIsFold`).

## Model

| member | source | states |
|---|---|---|
| Base64.IsBase64Exact | packages/client-core/src/runtime-source.ts:277-286 | the base64 check accepts exactly the texts that encode some byte sequence |
| Base64.DecodeEncode | packages/client-core/src/runtime-source.ts:269-275 | decoding gives back whatever bytes were encoded |
| Base64.DecodeInjective | packages/client-core/src/runtime-source.ts:269-286 | no two accepted texts decode to the same bytes |
| Base64.EncodeVectors | packages/client-core/src/runtime-source.ts:269-286 | literal bytes and their encodings, one of each padding |
| Base64.ValidatorsAgree | packages/client-core/src/embedded-images.ts:137-162 | the two validators, written independently, agree on all non-empty texts |
| EmbeddedImages.ParsedIsDataUri | packages/client-core/src/embedded-images.ts:137-157 | an accepted source is the canonical data URI of its bytes and its media type |
| EmbeddedImages.ParsedInFull | packages/client-core/src/embedded-images.ts:137-157 | an accepted source written out: one of four prefixes and the encoding of 1 to 20 MiB |
| EmbeddedImages.CanonicalIsParsed | packages/client-core/src/embedded-images.ts:137-157 | every supported image within the size limit is accepted in canonical form |
| EmbeddedImages.SignaturesDisjoint | packages/client-core/src/embedded-images.ts:164-179 | no content matches the signatures of two media types |
| EmbeddedImages.SignaturesInFull | packages/client-core/src/embedded-images.ts:164-179 | the four signatures in numbers |
| EmbeddedImages.SameBytesSameSource | packages/client-core/src/embedded-images.ts:63-98 | two accepted sources with the same bytes are the same text, so digests never merge sources |
| ImageReferences.RewriteValue | packages/client-core/src/image-references.ts:34-72 | the recursive rewrite with its `changed` flag computes the specification, flag included |
| ImageReferences.RewriteRecord | packages/client-core/src/image-references.ts:34-72 | one record: members first, then all pairs, into a copy |
| ImageReferences.RewriteSerializedResources | packages/client-core/src/image-references.ts:130-162 | rewriting through JSON serialised in `resources[].data`, at any depth |
| ImageReferences.RewriteOneResource | packages/client-core/src/image-references.ts:130-162 | a resource whose data is unchanged keeps its text, else it is serialised anew |
| ImageReferences.WritePairs | packages/client-core/src/image-references.ts:34-72 | three overlapping field pairs written in order leave what the declarative `Written` says |
| ImageReferences.AllWritten | packages/client-core/src/image-references.ts:74-96 | after all pairs each field holds the value of the last pair that writes it |
| ImageReferences.Unchanged | packages/client-core/src/image-references.ts:25-72 | when the flag is false the value is the same |
| ImageRewriting.RewrittenPair | packages/client-core/src/image-references.ts:74-96 | what a pair of a record refers to after the rewrite, overlapping pairs included |
| ImageRewriting.VisitAfterRewrite | packages/client-core/src/image-references.ts:17-162 | visiting after rewriting sees the original visit without the mapped sources, and under the new type exactly the mapped ones |
| ImageRewriting.VisitedInFull | packages/client-core/src/image-references.ts:74-96 | a record of one reference, with its field names and type written out, is visited exactly for its type |
| ImageRewriting.RewrittenInFull | packages/client-core/src/image-references.ts:34-96 | such a record with a mapped source has the replacement and the name of the other type, `BASE64` or `UUID` |
| ImageRoundTrip.RoundTrip | packages/client-core/src/image-references.ts:34-162 | there and back gives the same tree, strings character for character except for the layout of serialised data, if and only if no record is captured by the way back |
| ImageRoundTrip.RoundTripWhenUnused | packages/client-core/src/image-references.ts:34-162 | for a tree with no reference of the new type in reach, there and back is the identity |
| ImageRoundTrip.UnusedNotCaptured | packages/client-core/src/image-references.ts:74-162 | a tree with no reference of the new type in reach has no captured record |
| ImageRoundTrip.SharedSourceIsCaptured | packages/client-core/src/image-references.ts:74-96 | a concrete record for which the way back does not restore the value |
| ImageRoundTrip.RoundTripInReach | packages/client-core/src/image-references.ts:34-162 | the same where the way back undoes only the replacements of sources in reach |
| ImageRoundTrip.CapturesByReach | packages/client-core/src/image-references.ts:74-162 | which records are captured does not depend on sources out of reach |
| ImageRoundTrip.SameReach | packages/client-core/src/image-references.ts:17-162 | trees that are the same have the same sources in reach |
| ImageReach.ChangedByReach | packages/client-core/src/image-references.ts:25-162 | the flag is set exactly when the plan maps a source in reach, the members of every `resources` included |
| ImageReach.VisitedIsReached | packages/client-core/src/image-references.ts:17-162 | every visited source is in reach, and with array resources every source in reach is visited |
| ImageReach.FlagAgreesExactly | packages/client-core/src/image-references.ts:25-162 | the flag says that a visited source is mapped exactly when no mapped source is hidden from the visit or a mapped one is visited |
| ImageReach.ChangedExactly | packages/client-core/src/image-references.ts:25-162 | the flag is false only for an unchanged value, and with array resources true exactly when a visited source is mapped |
| ImageReach.RewriteByReach | packages/client-core/src/image-references.ts:34-162 | plans that agree on the sources in reach give the same value and flag |
| ImageReach.StillReached | packages/client-core/src/image-references.ts:34-162 | what a source in reach is mapped to is in reach afterwards |
| ImageReach.HiddenReference | packages/client-core/src/image-references.ts:98-162 | a concrete tree that is changed although nothing in it is visited |
| ImageTransfer.CollectEmbeddedImages | packages/client-core/src/embedded-images.ts:100-113 | the map of all visited sources that are images |
| ImageTransfer.UploadAll | packages/client-core/src/embedded-images.ts:63-98 | one upload for each distinct content, ids exactly for those that succeed |
| ImageTransfer.ExternalizeEmbeddedImages | packages/client-core/src/embedded-images.ts:63-127 | the early returns lose nothing: every mutation is rewritten with the ids of the successful uploads |
| ImageTransfer.RewriteMutationData | packages/client-core/src/embedded-images.ts:115-127 | data that is unchanged or no JSON leaves the mutation as it is |
| ImageTransfer.ResolveExportImages | packages/client-core/src/export-images.ts:7-26 | succeeds exactly when every visited id has an accepted asset, with each inlined in full, else it names the first id that has none and why |
| ExportAssets.AcceptedExactly | packages/client-core/src/export-images.ts:16-23 | an asset is inlined exactly when it has one of five media types, 1 to 20 MiB, and no stated length or a true one; and then as the data URI of its bytes |
| ExportAssets.ReadAsExactly | packages/client-core/src/export-images.ts:16-17 | a media type is read as a name exactly when it spells it, in any letter case, with outer white space and parameters |
| ImageTransfer.ExportUndoesUpload | packages/client-core/src/export-images.ts:7-26 | every id that a visit of the stored data reports resolves, and unless a source is hidden the export plan inverts the upload plan on all sources in reach |
| ImageTransfer.UploadThenExport | packages/client-core/src/embedded-images.ts:63-127 | one tree stored with the ids of all sources of a call: its export succeeds under every pattern of failed uploads, and gives the tree back if and only if no uploaded source is hidden |
| ImageTransfer.HiddenImageIsNotRestored | packages/client-core/src/export-images.ts:7-26 | for every uploaded image a tree that hides it and does not come back |
| ImageTransfer.ExportExactly | packages/client-core/src/export-images.ts:7-26 | where the export resolves all ids in reach, older ones included, it gives the tree back if and only if no record is captured |
| ImageTransfer.MutationsRoundTrip | packages/client-core/src/embedded-images.ts:63-127 | both results for each mutation that a call returns |
| ImageTransfer.MutationComesBack | packages/client-core/src/embedded-images.ts:63-127 | the one mutation of a call, and any mutation whose `resources` are arrays, comes back whichever uploads fail |
| Percent.DecodeEncode | packages/client-core/src/runtime-target.ts:29-41 | percent-decoding undoes percent-encoding over UTF-8 for every text |
| Percent.Utf8RoundTrip | packages/client-core/src/runtime-target.ts:29-41 | every character is read back from its UTF-8 bytes |
| Percent.EncodeInjective | packages/client-core/src/runtime-target.ts:29-41 | no two texts have the same percent-encoding |
| Percent.EncodeVectors | packages/client-core/src/runtime-target.ts:29-41 | literal characters of one to four bytes and the escapes they become |
| RuntimeTarget.SameKeyExactly | packages/client-core/src/runtime-target.ts:29-41 | two targets have one key exactly when origin, scope, unit and type agree |
| RuntimeQueue.SerialInCallOrder | packages/client-core/src/content-runtime.ts:173-192 | in every interleaving an operation starts only after all earlier ones on its key are done |
| RuntimeQueue.NextAlwaysRuns | packages/client-core/src/content-runtime.ts:173-192 | the earliest outstanding call runs or can go on, after success or failure alike |
| RuntimeQueue.TableIsClean | packages/client-core/src/content-runtime.ts:173-192 | a key is in the table exactly while a call on it is outstanding |
| RuntimeQueue.InvAlways | packages/client-core/src/content-runtime.ts:173-192 | every step keeps the order of the queue and the table |
| RuntimeQueue.Queue.Begin | packages/client-core/src/content-runtime.ts:173-192 | the call up to its first await takes the queueing step, and runs at once exactly when its key is free |
| RuntimeQueue.Queue.Continue | packages/client-core/src/content-runtime.ts:173-192 | behind the awaited promise all earlier calls on the key are done |
| RuntimeQueue.Queue.End | packages/client-core/src/content-runtime.ts:173-192 | the `finally` block removes the entry only where it is the last one |
| ContentRuntime.Pool.Synchronize | packages/client-core/src/content-runtime.ts:283-305 | success only on a runtime that was clean before its pull and sits at exactly the wanted revision; each failure has its cause |
| ContentRuntime.Pool.ExecuteRead | packages/client-core/src/content-runtime.ts:88-98 | code runs at most once, on such a runtime, the lease is released in every case, and a failure has its cause |
| ContentRuntime.Pool.ExportUnitData | packages/client-core/src/content-runtime.ts:159-169 | data is exported only on such a runtime, the lease is released, and a failure has its cause |
| ContentRuntime.Pool.CommitStableChangeset | packages/client-core/src/content-runtime.ts:218-246 | one and the same changeset is sent again exactly as long as its answers are lost, three times at most, and applied at most once, at its revision |
| ContentRuntime.Pool.ExecuteAndCommit | packages/client-core/src/content-runtime.ts:99-158 | not committed exactly when the run left nothing; committed means that what it left, as stored, is applied exactly once on top of the revision; a released runtime is clean, any failure invalidates the runtime and has its cause, and an undisturbed write at the head succeeds |
| ContentRuntime.Pool.Serve | packages/client-core/src/content-runtime.ts:88-170 | over every sequence of operations: each lease ends once, each use is clean and at the revision of its operation, all submissions of a changeset lie in one lease, what is reported as committed is on the server exactly once, right after that revision, and each result fits what the run left and what failed |
| ContentRuntime.Pool.ServeOne | packages/client-core/src/content-runtime.ts:88-170 | what one operation adds to the record of leases, and what its result says of it |
| ContentRuntime.OnceAtItsRevision | packages/client-core/src/content-runtime.ts:218-246 | a changeset that is on a server without repeated ids is there once, at its revision |
| ContentRuntime.DisciplinedConcat | packages/client-core/src/content-runtime.ts:88-170 | the lease discipline of one operation after another |
| ContentRuntime.DisciplinedWrite | packages/client-core/src/content-runtime.ts:99-158 | the events of one write form one whole lease |
| BlobUpload.Reserve | packages/client-core/src/blob.ts:480-497 | the same intent again exactly as long as the answer is lost, three times at most; an honest server answers with the session of its key |
| BlobUpload.Refresh | packages/client-core/src/blob.ts:688-742 | an envelope that passes the two checks names the upload first reserved and states the intent, whatever was answered; an honest server's always passes |
| BlobUpload.Recover | packages/client-core/src/blob.ts:135-168 | the loop with its bounds, against any server; it gives up only after a loss or three looks, survives any single loss, and an undisturbed one ends as the state of the session says |
| BlobUpload.PutOnce | packages/client-core/src/blob.ts:323-346 | one attempt: the bytes are sent again only if nothing says that they arrived |
| BlobUpload.TakeTurn | packages/client-core/src/blob.ts:135-158 | one turn of the loop acts on the state that was last looked up |
| BlobUpload.UploadBytes | packages/client-core/src/blob.ts:315-352 | the bytes at most three times, each followed by a look at the session; it gives up only after three losses, and whatever the server answers, the result is the upload first reserved and states the intent |
| BlobUpload.Complete | packages/client-core/src/blob.ts:354-387 | one completion request; whatever the server answers, a result carries the ids first reserved and the intent, an honest server's names the Blob of the session, and there is none only after a loss |
| BlobUpload.CompletedResult | packages/client-core/src/blob.ts:389-425 | a result carries the ids of the envelope and the intent; the Blob of an honest server passes every check |
| BlobUpload.Upload | packages/client-core/src/blob.ts:104-169 | against any server at most 3 reservations, 9 byte requests and 3 completions, sent only to the upload first reserved and on envelopes that state the intent, and a result carries the ids first reserved and the intent; an honest server's names the one published Blob; unknown needs a loss or three looks, rejected a refusal; undisturbed it succeeds, with one completion, unless the session is terminal, being verified, or another's; and no single loss, of any request or answer, keeps a new upload from succeeding |
| BlobUpload.BuildUploadResult | packages/client-core/src/blob.ts:643-686 | a result carries the ids of the envelope and the space, parent, name and size of the intent |
| BlobUpload.PublishedOnce | packages/client-core/src/blob.ts:104-169 | a session publishes exactly one Blob when completed, and none before |
| BlobUpload.OneBlobPerKey | packages/client-core/src/blob.ts:104-169 | two results for one idempotency key, however far apart, are the same |
| BlobUpload.TerminalPublishesNothing | packages/client-core/src/blob.ts:126-168 | a terminal session has no Blob and never will |
| BlobReplace.ParseReplacementResult | packages/client-core/src/blob.ts:432-444 | a result is for this operation and resource and has a strong ETag |
| BlobReplace.StrongEtagInFull | packages/client-core/src/blob.ts:428-430 | a strong ETag is something without quotes and line ends in quotes, 200 characters at most |
| BlobReplace.AcceptOtherRequest | packages/client-core/src/blob.ts:212-243 | a run of `replace` whose PUT is lost and whose look finds the operation of another request: it succeeds, over content with another ETag |
| BlobReplace.Replace | packages/client-core/src/blob.ts:172-243 | the write is sent at most once; success means that the operation wrote exactly once, over the content with the ETag that its request named, which is the caller's unless another request used the key; failure of the operation that it never will; a new request that arrives succeeds exactly when the present content has the ETag it names, lost response or not |
| ConnectionState.ParsedIsNormal | apps/agent/src/connection-state.ts:145-198 | whatever the file held, what is read is trimmed, non-empty and canonical |
| ConnectionState.NormalConnectionStays | apps/agent/src/connection-state.ts:175-198 | normalising a connection in normal form changes nothing |
| ConnectionState.ReadBack | apps/agent/src/connection-state.ts:131-173 | a state in normal form is read back exactly as it was written |
| ConnectionState.UpdateIsNormal | apps/agent/src/connection-state.ts:89-109 | an update keeps the normal form and the other writer's field |
| ConnectionState.UpdateFailsExactly | apps/agent/src/connection-state.ts:89-109 | an update fails exactly when one of the connection's texts is not acceptable |
| StateFile.FileIsFold | apps/agent/src/connection-state.ts:111-143 | in every interleaving the file is the fold of the successful updates in call order; failed ones change nothing |
| StateFile.NeitherFieldIsLost | apps/agent/src/connection-state.ts:89-129 | the record has the last origin and the last connection that were written successfully |
| StateFile.OneAtATime | apps/agent/src/connection-state.ts:111-129 | no update starts before every earlier one has settled |
| StateFile.NeverBlocked | apps/agent/src/connection-state.ts:111-129 | the first unsettled update can go on whatever became of earlier ones |
| StateFile.SucceedsExactly | apps/agent/src/connection-state.ts:111-143 | an update whose turn has come is written exactly when the record can be read and its texts are acceptable, and succeeds exactly when it is written |
| StateFile.TableEmpties | apps/agent/src/connection-state.ts:111-129 | the table keeps no entry once every update has left |
| StateFile.InvAlways | apps/agent/src/connection-state.ts:111-143 | every step keeps order, table and content of the file |
| StateFile.RecordMoves | apps/agent/src/connection-state.ts:111-143 | only a successful write changes the record, and then by its own update |
| StateFile.FieldsAreLastWrites | apps/agent/src/connection-state.ts:89-109 | the fold of the updates is the last write of each field |
| StateFile.Record.Enter | apps/agent/src/connection-state.ts:111-129 | the call up to its first await queues behind the promise it finds |
| StateFile.Record.ReadAndUpdate | apps/agent/src/connection-state.ts:65-129 | the next state is the update of what the file holds now |
| StateFile.Record.Replace | apps/agent/src/connection-state.ts:131-143 | the file is replaced as a whole or not at all |
| StateFile.Record.Exit | apps/agent/src/connection-state.ts:111-129 | the `finally` block removes the entry only where it is the last one |
| ConnectionSwitch.MemoryDiskAndRuntimeAgree | apps/agent/src/workspace-auth-provider.ts:61-207 | outside a switch the disk has the connection in memory up to trimming, and the runtime its home and the current version |
| ConnectionSwitch.SwitchesTakeEffectInOrder | apps/agent/src/workspace-auth-provider.ts:175-207 | switches are those that were called, in call order, with canonical origins and none for a logout; they never overlap, and the connection is that of the last successful one |
| ConnectionSwitch.LastSuccessDecides | apps/agent/src/workspace-auth-provider.ts:175-207 | after the last successful call memory, disk and runtime are those of what it asked for; after a logout there is no connection and the home is the bootstrap one |
| ConnectionSwitch.CallsAreQueued | apps/agent/src/workspace-auth-provider.ts:175-187 | one switch for each call of a run, for exactly what the call asks |
| ConnectionSwitch.WorkspaceAuthProvider.ConnectTo | apps/agent/src/workspace-auth-provider.ts:175-177 | queues a switch to the connection with its canonical origin, or throws |
| ConnectionSwitch.WorkspaceAuthProvider.DisconnectAll | apps/agent/src/workspace-auth-provider.ts:179-181 | queues a switch to no connection |
| ConnectionSwitch.FailedWriteRestores | apps/agent/src/workspace-auth-provider.ts:183-207 | a failed write leaves memory and disk at the previous connection, under a new version |
| ConnectionSwitch.StagedExactly | apps/agent/src/workspace-auth-provider.ts:126-207 | a switch is staged exactly when its home is made, and only after a look that found the last finished origin write not failed |
| ConnectionSwitch.LooksExactly | apps/agent/src/workspace-auth-provider.ts:137-187 | a switch goes on to make its home exactly when the home has a name and the last finished origin write did not fail |
| ConnectionSwitch.LookedBefore | apps/agent/src/workspace-auth-provider.ts:126-207 | in every run a switch that makes its home or went further has looked, and found nothing wrong |
| ConnectionSwitch.StagedAfterLateFailure | apps/agent/src/workspace-auth-provider.ts:137-190 | a concrete run that stages a switch although the origin write failed while the home was made |
| ConnectionSwitch.ConfiguredOriginIsStored | apps/agent/src/workspace-auth-provider.ts:116-142 | once its write has succeeded the disk has the origin that is configured |
| ConnectionSwitch.RestartKeepsOrigin | apps/agent/src/workspace-auth-provider.ts:73-108 | after a restart the configured origin is the one that was written |
| ConnectionSwitch.RestartKeepsHomeExactly | apps/agent/src/connection-state.ts:45-63 | after a restart the same connection is active, in the same home exactly when the user id is trimmed |
| ConnectionSwitch.RestartMovesHome | apps/agent/src/connection-state.ts:45-63 | a concrete run after which a restart gives another home |
| ConnectionSwitch.SwitchesNeverBlock | apps/agent/src/workspace-auth-provider.ts:137-207 | while a switch is not done, some segment of it or of the queued writes can run |
| ConnectionSwitch.InternalStepsEnd | apps/agent/src/workspace-auth-provider.ts:183-207 | only finitely many segments run before all switches and writes are over |
| ConnectionSwitch.InvAlways | apps/agent/src/workspace-auth-provider.ts:73-207 | every step keeps order, memory, disk and runtime in step |
| ConnectionSwitch.ConstructHasInv | apps/agent/src/workspace-auth-provider.ts:73-108 | the provider starts in step with the record it finds |
| ConnectionSwitch.LastSwitchNext | apps/agent/src/workspace-auth-provider.ts:183-207 | a switch that succeeds after all earlier ones decides the connection |
| ConnectionSwitch.WorkspaceAuthProvider.constructor | apps/agent/src/workspace-auth-provider.ts:73-108 | fields and the first write of the origin, from the record on disk |
| ConnectionSwitch.WorkspaceAuthProvider.HandleOriginChange | apps/agent/src/workspace-auth-provider.ts:116-124 | a new canonical origin is kept and its write queued; an invalid one throws |
| ConnectionSwitch.WorkspaceAuthProvider.PersistConfiguredOrigin | apps/agent/src/workspace-auth-provider.ts:126-135 | the pending origin write is the one just queued |
| ConnectionSwitch.WorkspaceAuthProvider.AwaitSettingsReset | apps/agent/src/workspace-auth-provider.ts:137-142 | the switch goes on to the pending origin write, or fails unchanged |
| ConnectionSwitch.WorkspaceAuthProvider.LookAtOriginWrite | apps/agent/src/workspace-auth-provider.ts:140-187 | the look at the outcome of the awaited origin write, up to the await of the new home |
| ConnectionSwitch.WorkspaceAuthProvider.StageSwitch | apps/agent/src/workspace-auth-provider.ts:187-191 | the switch is staged exactly when the home was made, else it ends unchanged |
| ConnectionSwitch.WorkspaceAuthProvider.WriteNext | apps/agent/src/workspace-auth-provider.ts:183-207 | after the drain the new connection is queued for writing, and not yet visible |
| ConnectionSwitch.WorkspaceAuthProvider.FinishSwitch | apps/agent/src/workspace-auth-provider.ts:183-207 | the connection becomes visible only if written; version and runtime are new either way |
| SpaceBrowse.Browser.ListDirectory | packages/client-core/src/space.ts:296-332 | ends against every server with finitely many cursors, with the pages along the cursors or the right error |
| SpaceBrowse.Browser.Visit | packages/client-core/src/space.ts:95-114 | ends against every server with finitely many ids; ids are distinct; on a served forest the result is exact |
| SpaceBrowse.Browser.Browse | packages/client-core/src/space.ts:95-114 | on a real tree the preorder listing of exactly the Nodes that the filter asks for, and an error exactly when an id repeats |
| SpaceBrowse.ListedPagesAgree | packages/client-core/src/space.ts:296-332 | whatever the server, a listing is all the pages of one chain of new cursors, and these agree on the metadata |
| SpaceBrowse.ListingIsRoots | packages/client-core/src/space.ts:296-332 | whatever the page splits, empty pages included, a served directory is listed in full and in order |
| SpaceBrowse.FollowLists | packages/client-core/src/space.ts:296-332 | from any cursor the listing is the rest of the directory |
| SpaceBrowse.KeepKeepsIds | packages/client-core/src/space.ts:334-343 | filtering keeps only listed Nodes that match |
| SpaceBrowse.KeepsWanted | packages/client-core/src/space.ts:334-343 | filtering keeps exactly the Nodes of the kind and unit type that are asked for, each as often as listed, in order |
| SpaceBrowse.KeptIsWanted | packages/client-core/src/space.ts:334-343 | a Node is kept exactly when it is listed and asked for, case by case |
| Download.DownloadTarget.WriteAll | packages/client-core/src/files.ts:235-242 | under short writes the chunk is appended in full, or the write is given up |
| Download.DownloadTarget.WriteChunks | packages/client-core/src/files.ts:132-183 | success only with all chunks written and the expected size met |
| Download.DownloadTarget.Commit | packages/client-core/src/files.ts:132-183 | the output is left alone or gets the whole content in one change |
| Download.DownloadTarget.WriteAndCommit | packages/client-core/src/files.ts:132-183 | a wrong size or a broken source never reaches the output; success leaves no temporary file; on a quiet disk it succeeds exactly when nothing is wrong with the content and the output may be written |
| Download.DownloadTarget.Discard | packages/client-core/src/files.ts:185-191 | a temporary file stays only where the file system refuses to remove it |
| Download.PrepareDownload | packages/client-core/src/files.ts:82-112 | touches nothing but a fresh, empty temporary file; only without force an existing output is refused, and a quiet disk refuses nothing else |
| Download.WriteDownload | packages/client-core/src/files.ts:82-192 | the only change ever made to the output is to publish the whole content, without force never over a file; on a quiet disk it succeeds exactly when it may, and changes nothing else |
| RandomDispatch.NextIsBijection | packages/client-core/src/typst-materialize.ts:109-118 | the generator is a bijection on 32-bit words |
| RandomDispatch.NextIsNotZero | packages/client-core/src/typst-materialize.ts:109-118 | no word but zero leads to zero |
| RandomDispatch.NextVectors | packages/client-core/src/typst-materialize.ts:109-118 | known first words of the generator |
| RandomDispatch.StreamIsNotZero | packages/client-core/src/typst-materialize.ts:109-118 | no stream from a seed but zero reaches zero |
| RandomDispatch.SeedsGiveDistinctStreams | packages/client-core/src/typst-materialize.ts:109-118 | two streams that agree have the same seed |
| RandomDispatch.QuotientIsBelowOne | packages/client-core/src/typst-materialize.ts:65-107 | the quotients lie in [0, 1) |
| RandomDispatch.StableSeed | packages/client-core/src/typst-materialize.ts:120-126 | the hashing loop computes a seed that is never zero |
| RandomDispatch.OneUnitApart | packages/client-core/src/typst-materialize.ts:120-126 | texts that differ in one unit have different hashes |
| RandomDispatch.HashVectors | packages/client-core/src/typst-materialize.ts:120-126 | published values of the hash |
| RandomDispatch.GlobalsAreRestored | packages/client-core/src/typst-materialize.ts:48-107 | the globals are the dispatchers exactly while a materialisation is under way, and the originals otherwise |
| RandomDispatch.StartsExactly | packages/client-core/src/typst-materialize.ts:48-63 | a materialisation starts with a generator of its own text, unless it is the first and the dispatchers cannot be installed |
| RandomDispatch.StreamsAreIndependent | packages/client-core/src/typst-materialize.ts:48-126 | what a run draws is a function of its own seed text, whatever overlaps it |
| RandomDispatch.InvAlways | packages/client-core/src/typst-materialize.ts:48-107 | counter, saved properties and streams are kept by every step |
| RandomDispatch.Dispatch.Begin | packages/client-core/src/typst-materialize.ts:48-107 | the first run installs the dispatchers, or nothing when that fails |
| RandomDispatch.Dispatch.End | packages/client-core/src/typst-materialize.ts:48-63 | the last run restores the originals, after failure too |
| RandomDispatch.Dispatch.GetRandomValues | packages/client-core/src/typst-materialize.ts:65-107 | fills the view in place with the low bytes of the next words of the calling run |
| WorkspaceEvents.NoLostWakeup | apps/agent/src/workspace-events.ts:50-74 | a follower that waits unresolved has been given the current revision |
| WorkspaceEvents.RevisionsIncrease | apps/agent/src/workspace-events.ts:41-74 | what a follower is given increases strictly |
| WorkspaceEvents.ChangesAreCounted | apps/agent/src/workspace-events.ts:41-48 | each change of a run is counted by a later revision, or a timer is set that will count it |
| WorkspaceEvents.RevisionsAreChanges | apps/agent/src/workspace-events.ts:41-48 | there are never more revisions than changes |
| WorkspaceEvents.BehindMoves | apps/agent/src/workspace-events.ts:50-74 | a follower that is behind gets the current revision at its next step |
| WorkspaceEvents.DisposedEnds | apps/agent/src/workspace-events.ts:19-74 | after a disposal nothing is announced or counted, and every follower ends without another revision |
| WorkspaceEvents.InvAlways | apps/agent/src/workspace-events.ts:19-74 | every step keeps followers clean exactly when they are informed |
| WorkspaceEvents.ChangeFeed.Announce | apps/agent/src/workspace-events.ts:41-48 | one timer for all changes until it fires |
| WorkspaceEvents.ChangeFeed.Fire | apps/agent/src/workspace-events.ts:41-48 | a new revision, and every listening follower notified |
| WorkspaceEvents.ChangeFeed.NextChange | apps/agent/src/workspace-events.ts:50-74 | a pull yields the current revision, blocks or ends |
| WorkspaceEvents.ChangeFeed.Continue | apps/agent/src/workspace-events.ts:50-74 | a woken follower yields the current revision unless aborted |
| OAuth.ConnectsOnce | apps/agent/src/oauth-authorization.ts:27-120 | each authorization calls `connect` at most once, in every interleaving |
| OAuth.ConnectsWhileCurrent | apps/agent/src/oauth-authorization.ts:27-46 | `connect` is called only while origin and version are those the authorization began with, for a code handed in before it expired and, on the desktop, before any newer start or logout |
| OAuth.TablesAreBounded | apps/agent/src/oauth-authorization.ts:10-120 | neither table ever exceeds 32 entries |
| OAuth.OneDesktopAuthorization | apps/agent/src/desktop-oauth.ts:21-58 | at most one desktop authorization is pending |
| OAuth.BrowserConnects | apps/agent/src/oauth-authorization.ts:10-120 | an authorization that is begun, comes back with a code within ten minutes and gets its token calls `connect` once and leaves a receipt |
| OAuth.DesktopConnects | apps/agent/src/desktop-oauth.ts:21-58 | the same on the desktop, through the browser and the desktop client |
| OAuth.InvAlways | apps/agent/src/index.ts:296-331 | every handler, the logout route included, keeps the tables |
| OAuth.Authorizations.BeginOAuth | apps/agent/src/oauth-authorization.ts:10-25 | prunes, then adds one fresh entry, or throws exactly when 32 are left |
| OAuth.Authorizations.Prune | apps/agent/src/oauth-authorization.ts:10-25 | the loop removes exactly the expired entries and, for the desktop, all desktop ones |
| OAuth.Authorizations.OAuthCallback | apps/agent/src/oauth-authorization.ts:61-120 | the callback up to its first await requests a token exactly for a pending, unexpired browser authorization that was granted |
| OAuth.Authorizations.CompleteDesktop | apps/agent/src/desktop-oauth.ts:28-58 | accepted exactly for a pending, unexpired, current desktop entry that is not being completed, and marked before the network call |
| OAuth.Authorizations.TokenAnswered | apps/agent/src/oauth-authorization.ts:27-46 | `connect` is called exactly if there is a token and nothing has changed meanwhile |
| OAuth.Authorizations.ConnectSettled | apps/agent/src/oauth-authorization.ts:61-120 | a receipt at the cost of the oldest, or the desktop entry removed |
| PathReferences.RenderDisplayText | packages/dsh-univer-workspace-plugin/src/client/WorkspaceUserMessageNodeView.tsx:76-132 | the loop over the matches computes the scan |
| PathReferences.NextMatch | packages/dsh-univer-workspace-plugin/src/client/WorkspaceUserMessageNodeView.tsx:76-132 | the first match at or behind the cursor |
| PathReferences.PathReferenceFromUrl | packages/dsh-univer-workspace-plugin/src/client/path-reference.ts:9-75 | only accepted references come out, under the given name |
| PathReferenceScan.ScanLosesNothing | packages/dsh-univer-workspace-plugin/src/client/WorkspaceUserMessageNodeView.tsx:76-132 | the parts of any text put together are the text |
| PathReferenceScan.ScanPrint | packages/dsh-univer-workspace-plugin/src/client/path-reference.ts:33-80 | a message of plain text and printed references is scanned back into exactly its pieces |
| PathReferenceScan.NameComesBackExactly | packages/dsh-univer-workspace-plugin/src/client/path-reference.ts:77-80 | a printed reference is shown as itself if and only if its name has no line feed |
| PathReferenceScan.NamedPathsComeBack | packages/dsh-univer-workspace-plugin/src/client/path-reference.ts:33-80 | every reference with its fields filled, a one-line name and no NUL in a local path is shown as itself |
| PathReferenceScan.ReadInFull | packages/dsh-univer-workspace-plugin/src/client/path-reference.ts:9-75 | an address is read as a reference if and only if its scheme, path and parameter spell that reference and no field is blank |
| PathReferenceScan.OtherParamIsSkipped | packages/dsh-univer-workspace-plugin/src/client/path-reference.ts:9-75 | a parameter under another key, or an empty one, does not hide the one asked for |
| PathReferenceScan.TwoLinesAreLost | packages/dsh-univer-workspace-plugin/src/client/path-reference.ts:77-80 | a concrete folder whose printed form is not shown as itself |
| PathReferenceScan.AddressRoundTrip | packages/dsh-univer-workspace-plugin/src/client/path-reference.ts:33-75 | every accepted reference is read back from its address and name |
| PathReferenceScan.IdentityRoundTrip | packages/dsh-univer-workspace-plugin/src/client/path-reference.ts:33-38 | identities are decoded again and consist of unreserved characters and escapes |
| PathReferenceScan.LabelRoundTrip | packages/dsh-univer-workspace-plugin/src/client/path-reference.ts:77-80 | unescaping a label undoes the two replacements |
| PathReferenceScan.ReferenceIsMatched | packages/dsh-univer-workspace-plugin/src/client/WorkspaceUserMessageNodeView.tsx:76-132 | the backtracking expression matches a printed reference as a whole, whatever follows |
| ResourceMentions.MentionComesBackExactly | packages/dsh-univer-workspace-plugin/src/client/workspace-resource-reference.ts:332-348 | a projected resource is shown as itself if and only if its name is one line and its id has no closing bracket |
| ResourceMentions.BracketedIdIsLost | packages/dsh-univer-workspace-plugin/src/client/workspace-resource-reference.ts:332-348 | a concrete resource whose printed form is not shown as itself |
| ResourceMentions.SessionTail | packages/dsh-univer-workspace-plugin/src/client/WorkspaceUserMessageNodeView.tsx:76-132 | the optional prefix of an address is skipped |
| EmbeddedUnits.MergeExactly | packages/client-core/src/render-unit.ts:144-178 | merging fails exactly when an entry is invalid or a Unit is declared with two types |
| EmbeddedUnits.ListingExactly | packages/client-core/src/render-unit.ts:144-178 | the listing is sorted, free of repetitions, and has exactly the declared Units and types |
| EmbeddedUnits.ReferencesInFull | packages/client-core/src/render-unit.ts:144-212 | a Unit is listed exactly when a descriptor that is not deleted points to it, in terms of the fields of descriptors, and the listing fails exactly when one is broken or types disagree |
| EmbeddedUnits.MergeIgnoresOrder | packages/client-core/src/render-unit.ts:144-178 | every permutation of the declarations gives the same result |
| EmbeddedUnits.OrderDoesNotMatter | packages/client-core/src/render-unit.ts:144-178 | neither the order of resources nor that of descriptors within them matters |
| EmbeddedUnits.BelowExactly | packages/client-core/src/render-unit.ts:122-178 | the order of ids is that of their UTF-16 code units |
| EmbeddedUnits.SortedIsUnique | packages/client-core/src/render-unit.ts:122-178 | a set of ids has one sorted listing in the order of UTF-16 code units |
| EmbeddedUnits.ChildOf | packages/client-core/src/render-unit.ts:185-212 | a child id is trimmed and not blank, and has a type only where no child id is given directly |
| EmbeddedUnits.EmbeddedUnitReferences | packages/client-core/src/render-unit.ts:144-178 | the loops compute the merged listing, or fail where it fails |
| EmbeddedUnits.ExternalReferenceUnitIds | packages/client-core/src/render-unit.ts:122-142 | the sorted set of all named Units, or an error exactly when a resource is malformed |
| EmbeddedUnits.LoadUnit | packages/client-core/src/render-unit.ts:43-108 | formula and embedded Units are disjoint, the host is in neither, each is what its id resolves to with a fitting type, and an error exactly when a selected Unit does not load |

## Left out

- HTTP, cookies, redirects, real files, timers and hashing: environment steps or parameters. SHA-256 counts as injective, random ids and versions as fresh.
- Origin canonicalisation is a parameter, assumed idempotent with results that carry no outer white space (`ConnectionState.Lawful`).
- Lone surrogates: texts are sequences of Unicode scalar values, so inputs on which `encodeURIComponent` throws do not occur.
- JSON texts are either opaque or the serialisation of a value with some layout of white space; of `resources[].data` only the layout is forgotten when values are compared.
- The test for preserved SVG images is implied by the image pattern and not modelled on its own.
- The initialisation promises and events of the runtime pool, and failures of releasing or invalidating a lease.
- Servers, beyond these rules that they are assumed to keep: a content server applies a changeset at most once and only on the head it is based on, an honest upload server has one session for a key, a replacement server binds a key to its first request and writes only over the ETag that the request names.
- Other processes that write the connection file, and a drain of the old runtime that fails.
- The bytes of uploads and replacements: what is written is known by its ids, sizes and ETags.
- Addresses whose path begins with a slash are treated like opaque ones, and query values that are not well encoded count as absent instead of being decoded with replacement characters.
- A dispatching random function that is kept and called after the last materialisation has ended.
- Field-by-field response validators, resource locators, repository addresses, worktree paging: long but shallow, parsed values are assumed.
- `find`: browsing followed by a filter on the lower-case name.
- The projection of a message to its wire forms other than that of a resource, and clipboard texts.
- The collaboration SDK, the office and Typst compilers, the render runtime, React components, configuration and the server.
- Images of screenshots are resolved after the selection of Units; that step is not part of this model.
