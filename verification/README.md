# Verified model of the communication platform's core

A Dafny model of the five parts of this messenger whose correctness is hardest to see from the
code: the deterministic-CBOR event codec and the group-control hash chain of the native crypto core,
the device's prekey state machine, the attachment stream sessions, the durable mailbox with its
retention sweep and the prekey and device-log tables beside it, and the recovery-secret text codec.
`dafny verify dfyconfig.toml` checks the whole project.

## What is modelled, and how

**Codecs** (`Framing`, `Frames`, `Cbor`, `Wire`, `Lists`, `Event`, `UnknownBody`, `Projection`,
`GroupControl`, `PrekeyCodec`, `EventExactly`). A writer `PutX(v, t)` gives the encoding of `v`
followed by `t`; a reader takes the unread bytes and gives the value and the bytes left. *Sound*
means a reader accepts only what the writer writes; *complete* means it reads back everything the
writer writes. Composite codecs are written over an interface of such pairs (`Wire`, `Frames`,
`Items`) and proved from its two laws; the byte-level instance is plugged in at the end. CBOR is
limited to the definite-length items of section 3 of RFC 8949 with the shortest-form heads of
section 4.1, and the form accepted is the core deterministic encoding of section 4.2.1. Text is
bytes with an abstract UTF-8 test, scalar count and single-emoji test. `BodyScanner` and `Reader`
run the unknown-body validator, the framing reader and the counted-list loops in place, and are
proved against those functions.

**Group transcripts** (`GroupTranscript`, `GroupSealing`). The signature scheme and SHA-256 are
parameters. SHA-256 is not assumed injective, which no function to 32 bytes is: the theorem returns
a collision whenever two different transcripts share a hash.

**Prekey state** (`PrekeyState`, `PrekeyRuns`, `PrekeyRotation`, `PrekeyCodec`, `PrekeyBytes`,
`PrekeyMigration`, `PrekeyV1`, `PrekeyReachable`, `PrekeyConsume`, `PrekeyUploads`, `PrekeyValid`,
`Enrollment`, `EnrollmentEdges`, `PrekeyLimit`). Each operation is a function of the state, its
randomness and its arguments, and says how far a refused call had already moved the state: a failed
key draw keeps the id it took, a failed rotation keeps its prune, and one that fails on its last
draw keeps the rotated pair with nothing pending. The class `DeviceState` runs the operations in
place. Primitives are parameters; a run theorem that needs it assumes that signatures verify under
their own key and that ML-KEM key pairs have their standard layout. `Enrollment` prepares a device
from drawn secrets and joins the two ends: the package it writes is what migration reads.
`PrekeyWitness` has primitives that never fail, for the packages and runs of `EnrollmentEdges`,
`PrekeyLimit` and `PrekeySlack` that show a case is reached.

**Attachments** (`AttachmentSizes`, `Attachment`, `AttachmentRuns`, `AttachmentFinish`,
`AttachmentSessions`, `AttachmentOpening`, `AttachmentDelivery`). Secretstream is idealised: a
ciphertext is 17 bytes longer than its plaintext, stream keys are fresh, and opening succeeds only
on the chunk released at that position of that stream under that header. Delivery further asks that
a chunk as it was sealed opens, with its finality. A run is any sequence of creates, pushes, pulls
and closes on the one session table. The class `AttachmentSessions.Sessions` runs them in place,
with what was released and returned as ghost history.

**Mailboxes** (`MailboxSend`, `Mailbox`, `MailboxSafety`, `MailboxAcks`, `MailboxTheorems`,
`MailboxPlan`, `MailboxAlone`, `MailboxSweep`, `MailboxSplit`, `MailboxSplitAmong`,
`MailboxSplitRun`). A transition system in which a send takes device locks one by one, reads sizes,
stamps message by message and commits or rolls back, while devices acknowledge, are registered,
deactivated and revoked, days pass, and the sweep's select, measure and commit statements run
separately. A send's rows and counters become visible when it commits; a row is named by its device
and number, since row ids never repeat. The history of days stamped and numbers acknowledged is part
of the state. `MailboxSweep` holds the sweep as the loop it is, with arbitrary other activity before
each of its statements. `MailboxPlan` shows that a send stepping among other traffic delivers what
the loops of `send` compute, and `MailboxAlone` that one meeting no other is a single step.

**Prekey claims and the device log** (`PrekeyClaim`, `PrekeyClaimAlone`, `PrekeyClaimKeys`,
`DeviceLog`). Claims pick rows with SKIP LOCKED and commit or roll back in any interleaving, while
devices upload. The log is a table appended under the account's row lock and read in pages while
others append.

**Recovery secrets** (`Digits`, `Crockford`, `RecoverySecret`). The specification regroups one big
number from base 256 to base 32; the two loops with their wrapping 32-bit accumulator are proved to
compute it.

## Where the code does not do what one might expect

- Operation 2 fails on what operation 1 produced in exactly one case: the projection filled the whole
  262,144-byte input limit, so its response is one byte too long (`Projection.ProjectionRoundTrip`).
  Such a projection exists: a message without text and four pictures
  (`FullProjection.FullProjectionIsLost`).
- The limit of three retired pairs can refuse a rotation, but only on day 4,294,967,295, the last a
  32-bit day can name, where the added days saturate. `PrekeyLimit.LimitReached` is a run from
  enrollment that gets there, and `PrekeyLimit.LimitUnreachable` says there is no other day.
- Enrollment takes an all-zero user id; migration refuses the package it then writes, and no other
  (`Enrollment.EnrolledMigrates`). `EnrollmentEdges.ZeroUserStranded` is such a package, refused on
  every day.
- A migrated pair is due for rotation at once, except when the migration day is below 7, where the
  subtraction saturates at day 0 (`PrekeyMigration.MigrationYields`). `EnrollmentEdges.EarlyIsNotDue`
  has a package that migrates on each of those days and is not due.
- `decode_v2` has 32 bytes of slack that nothing reaches. Alone it takes up to `MAX_INPUT_BYTES` + 32
  bytes (`PrekeyBytes.DecodedLength`, reached in `PrekeySlack.LongestDecodes`), more than
  `encode_device_state` will write. Its callers read the state out of a frame, which is never that
  long, and there re-encoding always gives the same bytes (`PrekeyBytes.FramedDecodeThenEncode`).
- From a store with none, one pass of the sweep leaves a queued envelope at or below its device's
  watermark exactly when the batch parts two envelopes of one device and day
  (`MailboxSplit.AboveAfterPassExactly`), and the query may answer with such a batch exactly when more
  rows are expired than fit in it and a device has two on the day the cut falls in
  (`MailboxSplit.PassSafeExactly`). With other traffic while the pass is open, the first holds of the
  rows still queued at the measure and the commit (`MailboxSplitAmong.AboveAfterPassAmongExactly`),
  and the second is unchanged (`MailboxSplitAmong.PassSafeAmongExactly`). A run of 1,001 sends from an
  empty store ends there (`MailboxSplitRun.SplitDay`). Such an envelope is always an expired one
  (`MailboxSweep.UnderMarkIsExpired`), so none is left when the sweep returns
  (`MailboxSweep.Store.PruneEnvelopes`).
- A one-time prekey row is handed out once, but a key can be handed out twice: an upload repeated after
  its key was claimed stores the key again. No key goes out twice, whatever claims are interleaved,
  exactly when no upload repeats a key (`PrekeyClaimKeys.KeysOnceExactly`); in one run a key goes out
  twice exactly when it was stored again after a claim consumed it and that row was claimed too
  (`PrekeyClaimKeys.HandedTwiceExactly`).

## Model

| member | source | states |
|---|---|---|
| Framing.Take | frontend/native/crypto_core/src/protocol.rs:23-34 | Succeeds exactly when enough bytes are left, and splits the input there. |
| Framing.ReadInt | frontend/native/crypto_core/src/protocol.rs:54-76 | A big-endian integer is read exactly from its own bytes and fits its width. |
| Framing.ReadPutInt | frontend/native/crypto_core/src/protocol.rs:66-105 | Every integer that fits reads back, whatever follows. |
| Frames.FlagSound | frontend/native/crypto_core/src/protocol.rs:58-64 | Only the two canonical flag bytes are accepted. |
| Frames.FlagComplete | frontend/native/crypto_core/src/protocol.rs:58-64 | Both flags read back. |
| Framing.ReadFrame | frontend/native/crypto_core/src/protocol.rs:78-84 | A frame is accepted only as its length and bytes, at most the input bound. |
| Framing.ReadPutFrame | frontend/native/crypto_core/src/protocol.rs:107-114 | Every frame within the bound reads back. |
| Reader.Reader.Take | frontend/native/crypto_core/src/protocol.rs:23-34 | The moving reader does what the function says, and stays put on refusal. |
| Reader.Reader.Int | frontend/native/crypto_core/src/protocol.rs:54-76 | Reads one integer and moves past exactly it. |
| Reader.Reader.Boolean | frontend/native/crypto_core/src/protocol.rs:58-64 | Reads one flag and moves past exactly it. |
| Reader.Reader.Framed | frontend/native/crypto_core/src/protocol.rs:78-84 | Reads one frame and moves past exactly it. |
| Reader.Reader.Many | frontend/native/crypto_core/src/prekey_state.rs:460-466 | The counted loop collects exactly the list the recursive reader gives, and stops at the first refusal. |
| Reader.Reader.OneTimes | frontend/native/crypto_core/src/prekey_state.rs:467-496 | The one-time key loop with its cap agrees with the codec. |
| Cbor.ReadHead | frontend/native/crypto_core/src/application.rs:1389-1430 | A head is accepted only in its shortest form, with its own argument. |
| Wire.CborWireSound | frontend/native/crypto_core/src/application.rs:1361-1525 | Every keyed reader accepts only the canonical bytes of what it returns. |
| Wire.CborWireComplete | frontend/native/crypto_core/src/application.rs:1361-1525 | Every keyed reader reads back every in-bounds value. |
| Event.DecodeThenEncode | frontend/native/crypto_core/src/application.rs:818-894 | Bytes accepted at version 1 and a supported kind are exactly the encoding of the event they decode to: one event has one byte string. |
| Event.EncodeThenDecode | frontend/native/crypto_core/src/application.rs:506-682 | Every event within the decoder's bounds whose encoding succeeds decodes back to itself. |
| Event.EncodeRefusesOnlySize | frontend/native/crypto_core/src/application.rs:506-561 | An in-bounds event is refused by the encoder only for its size. |
| Event.BodiesAreSound | frontend/native/crypto_core/src/application.rs:981-1113 | Every body the decoder accepts is in bounds for its kind and re-encodes to the same bytes. |
| Event.BodiesAreComplete | frontend/native/crypto_core/src/application.rs:563-682 | Every in-bounds body reads back from its encoding. |
| Event.AttachmentElementsSound | frontend/native/crypto_core/src/application.rs:746-816 | Every attachment map accepted is in bounds and canonical. |
| Event.AttachmentElementsComplete | frontend/native/crypto_core/src/application.rs:684-744 | Every in-bounds attachment reads back. |
| EventExactly.SupportedExactly | frontend/native/crypto_core/src/application.rs:818-894 | At a supported kind, bytes decode to an event if and only if it is in bounds and they are its encoding. |
| EventExactly.UnknownExactly | frontend/native/crypto_core/src/application.rs:818-906 | At any other kind, bytes decode to an event if and only if its envelope is in order and they are that envelope around one admissible body, within the size limit and with nothing after it. |
| EventExactly.OtherVersionExactly | frontend/native/crypto_core/src/application.rs:818-840 | Another version is reported if and only if the bytes start as a map whose key 0 holds it, whatever follows. |
| UnknownBody.BodyAcceptedExactly | frontend/native/crypto_core/src/application.rs:896-978 | The validator accepts a span if and only if it is the deterministic encoding of a map tree within the depth, item and map-entry limits with strictly ascending integer keys, and leaves what follows it. |
| UnknownBody.ValidateComplete | frontend/native/crypto_core/src/application.rs:908-978 | Every tree that fits is accepted, with its exact item count; the early array-length check rejects none of them. |
| UnknownBody.ValidateSound | frontend/native/crypto_core/src/application.rs:908-978 | Whatever is accepted encodes an admissible tree whose items were all counted. |
| BodyScanner.Scanner.Value | frontend/native/crypto_core/src/application.rs:908-978 | The recursion with one decoder and one shared counter does what the function says, counter included. |
| BodyScanner.Scanner.Elements | frontend/native/crypto_core/src/application.rs:938-947 | The array loop. |
| BodyScanner.Scanner.Entries | frontend/native/crypto_core/src/application.rs:948-967 | The map loop, with the previous key carried along. |
| BodyScanner.Scan | frontend/native/crypto_core/src/application.rs:900-906 | The running validator accepts exactly the deterministic encodings within the limits and stops right after them. |
| Projection.ProjectionRoundTrip | frontend/native/crypto_core/src/application.rs:279-302 | Operation 2 on what operation 1 returned gives the same projection fields byte for byte, and fails exactly when the input filled the whole limit. |
| FullProjection.FullProjectionIsLost | frontend/native/crypto_core/src/application.rs:279-302 | Operation 1 accepts a projection of exactly the input limit, whose CBOR is shorter, and operation 2 refuses to write it back. |
| Projection.RequestSound | frontend/native/crypto_core/src/application.rs:363-504 | A projection request is accepted only as the projection of the event it gives. |
| Projection.ProjectionComplete | frontend/native/crypto_core/src/application.rs:1115-1187 | Every projectable event reads back from its projection. |
| EventExactly.Operation1Exactly | frontend/native/crypto_core/src/application.rs:279-302 | Operation 1 answers if and only if the input is the projection of an event in bounds that encodes, and then with that encoding. |
| EventExactly.Operation2Exactly | frontend/native/crypto_core/src/application.rs:279-302 | Operation 2 answers every event it decodes, by its status: another version always, an unknown kind always with its envelope, a supported kind with its projection unless that is too long; and passes the decoder's refusal on. |
| GroupControl.Validate | frontend/native/crypto_core/src/group_control.rs:202-274 | On events the types allow, validation succeeds exactly on the valid ones. |
| GroupControl.ValidEncodes | frontend/native/crypto_core/src/group_control.rs:284-370 | No valid event reaches the 16,384-byte cap. |
| GroupControl.ComparisonNeverRejects | frontend/native/crypto_core/src/group_control.rs:372-423 | The closing re-encode comparison never rejects: the readers and validation already force canonical bytes. |
| GroupControl.EncodeThenDecode | frontend/native/crypto_core/src/group_control.rs:284-515 | Every valid event encodes and decodes back. |
| GroupTranscript.AcceptedIsCanonical | frontend/native/crypto_core/src/group_control.rs:372-423 | On bytes: accepted bytes are the one encoding of a valid event. |
| GroupTranscript.ValidIsAccepted | frontend/native/crypto_core/src/group_control.rs:284-423 | On bytes: every valid event is accepted from its encoding, below the cap. |
| GroupTranscript.ProjectionSound | frontend/native/crypto_core/src/group_control.rs:521-627 | A group projection is accepted only as the projection of a valid event. |
| GroupTranscript.SealThenOpen | frontend/native/crypto_core/src/group_control.rs:125-178 | What one device seals, another opens to the same projection and the same state hash. |
| GroupSealing.ProjectionExactly | frontend/native/crypto_core/src/group_control.rs:521-627 | A group projection is accepted as an event if and only if the event is valid and the bytes are its projection. |
| GroupSealing.DecodesExactly | frontend/native/crypto_core/src/group_control.rs:372-423 | Bytes decode to an event if and only if it is valid and they are its encoding. |
| GroupSealing.OpenExactly | frontend/native/crypto_core/src/group_control.rs:155-200 | Opening succeeds if and only if there are bytes within the cap, the signature verifies over the domain and the framed bytes, and they encode a valid event; the answer is that event's projection and the hash of the bytes. A signature that does not verify is refused as such. |
| GroupSealing.SealExactly | frontend/native/crypto_core/src/group_control.rs:125-200 | Sealing succeeds if and only if the projection is that of a valid event signed by the caller's account; the answer is its encoding, a signature over it and its hash. |
| GroupTranscript.SameHashSameTranscript | frontend/native/crypto_core/src/group_control.rs:180-200 | Two chains of accepted events ending in the same hash are the same chain, or a SHA-256 collision is produced. |
| GroupTranscript.SameEventsSameTranscript | frontend/native/crypto_core/src/group_control.rs:180-200 | Devices that accepted the same events hold the same bytes and the same hash. |
| GroupTranscript.CreatedOnce | frontend/native/crypto_core/src/group_control.rs:202-232 | In a chain of valid events only the first creates the group, at revision 1. |
| PrekeyState.DeviceState.TakeClassicalId | frontend/native/crypto_core/src/prekey_state.rs:209-220 | Hands out the high-water id and moves the mark past it, to the sentinel after the last id. |
| PrekeyState.DeviceState.AddClassical | frontend/native/crypto_core/src/prekey_state.rs:676-688 | The classical loop, with exactly what a failure in the middle leaves behind. |
| PrekeyState.DeviceState.AddPq | frontend/native/crypto_core/src/prekey_state.rs:689-699 | The post-quantum loop, likewise. |
| PrekeyState.DeviceState.PrepareReplenishment | frontend/native/crypto_core/src/prekey_state.rs:649-729 | The whole new state and result, on every path. |
| PrekeyState.DeviceState.CommitPendingUpload | frontend/native/crypto_core/src/prekey_state.rs:731-741 | Clears the pending upload exactly for its own batch id. |
| PrekeyState.DeviceState.ConsumeClassical | frontend/native/crypto_core/src/prekey_state.rs:174-182 | The new state and result, which `PrekeyConsume.ConsumeExactly` spells out. |
| PrekeyState.DeviceState.ConsumePq | frontend/native/crypto_core/src/prekey_state.rs:184-192 | Likewise for post-quantum keys. |
| PrekeyConsume.ConsumeExactly | frontend/native/crypto_core/src/prekey_state.rs:174-192 | After any run a consume succeeds if and only if a key with the id is held; then no key with it is, the others stand in their order, and nothing else in the state moved. A refusal moves nothing. |
| PrekeyConsume.ConsumedForGood | frontend/native/crypto_core/src/prekey_state.rs:174-220 | Whatever runs after it, no key with that id is ever held again, and consuming it again is refused. |
| PrekeyConsume.CommitExactly | frontend/native/crypto_core/src/prekey_state.rs:731-741 | A commit clears the pending upload if and only if the batch id is its own, and changes nothing else. |
| PrekeyState.DeviceState.PruneRetired | frontend/native/crypto_core/src/prekey_state.rs:194-197 | The retain loop keeps exactly the retained pairs, in order. |
| PrekeyState.DeviceState.PrepareRotation | frontend/native/crypto_core/src/prekey_state.rs:743-867 | The whole new state and result, on every path, late failures included. |
| PrekeyRuns.IdsNeverReissued | frontend/native/crypto_core/src/prekey_state.rs:209-220 | Over every run from a migrated state, failures included, ids are issued in strictly increasing order and never again, consumed or not; lists stay ascending, below the mark, among the ids issued, and within 400 and 240. |
| PrekeyRuns.SortChangesNothing | frontend/native/crypto_core/src/prekey_state.rs:700-701 | The closing sort changes nothing, whatever ran before. |
| PrekeyRuns.UploadIsExact | frontend/native/crypto_core/src/prekey_state.rs:665-729 | After any run a successful replenishment adds exactly the keys the server lacks, behind those held, and the pending upload names exactly those keys. |
| PrekeyRuns.RetryIsExact | frontend/native/crypto_core/src/prekey_state.rs:657-659 | Until its own commit, whatever else runs, a pending upload is returned unchanged by every replenishment, and by a rotation if it is one; the state is left as it was. |
| PrekeyUploads.RefillFromExactly | frontend/native/crypto_core/src/prekey_state.rs:676-699 | One refill loop succeeds if and only if ids and draws last, and then appends the keys drawn under consecutive ids from the mark. |
| PrekeyUploads.ReplenishExactly | frontend/native/crypto_core/src/prekey_state.rs:649-729 | After any run, with nothing pending, a replenishment succeeds if and only if the demand is in range, the lists have room, and ids and draws last; the whole new state is the old one with the keys drawn behind those held and their upload pending. |
| PrekeyUploads.AddedIsWhatIsLacking | frontend/native/crypto_core/src/prekey_state.rs:660-675 | What is added brings the server to its target, or is nothing when it is there. |
| PrekeyUploads.UploadReadsBack | frontend/native/crypto_core/src/prekey_state.rs:703-729 | A reader of the replenishment upload gets the ids and public halves of exactly the keys added, and the bundle version. |
| PrekeyUploads.BundleReadsBack | frontend/native/crypto_core/src/prekey_state.rs:846-867 | A reader of the rotation upload gets the new ids, public halves, signatures and cross signature. |
| PrekeyUploads.RotationIs | frontend/native/crypto_core/src/prekey_state.rs:743-867 | A rotation that succeeds was due; it leaves the keys drawn under the next ids with signatures and a cross signature that verify, the old pair retired for eight days, and all else as it was, and its upload reads back as that bundle. |
| PrekeyRotation.LookupUnambiguous | frontend/native/crypto_core/src/prekey_state.rs:146-164 | After any run every signed key held is found by its id, and an id finds at most one key. |
| PrekeyRotation.MoveIs | frontend/native/crypto_core/src/prekey_state.rs:743-867 | Any operation leaves the signed keys alone, prunes them, or prunes and rotates to the next ids when due. |
| PrekeyRotation.RetainedIs | frontend/native/crypto_core/src/prekey_state.rs:194-197 | Pruning keeps exactly the pairs whose window has not passed. |
| PrekeyRotation.AtMostTwoRetired | frontend/native/crypto_core/src/prekey_state.rs:761-764 | At most two retired pairs are ever held while days are below the last one. |
| PrekeyRotation.RefusedOnlyOnLastDay | frontend/native/crypto_core/src/prekey_state.rs:761-764 | Whatever ran, the limit of three refuses only on the last day. |
| PrekeyRotation.LimitRefusesIs | frontend/native/crypto_core/src/prekey_state.rs:756-764 | What being refused by the limit means for the caller. |
| PrekeyLimit.LimitReached | frontend/native/crypto_core/src/prekey_state.rs:756-764 | A device enrolled, migrated and rotated on days 8, 1 and 0 before the last, each rotation committed, is refused the next. |
| PrekeyLimit.LimitUnreachable | frontend/native/crypto_core/src/prekey_state.rs:756-764 | Over every run from bytes that migrate, on correct primitives, the limit never refuses if and only if no day is the last one. |
| PrekeyRotation.RetiredWindow | frontend/native/crypto_core/src/prekey_state.rs:838-844 | A pair retired on day D is found through everything dated up to D + 8, goes at the first later prune, and is never found again. |
| PrekeyMigration.MigrationYields | frontend/native/crypto_core/src/prekey_state.rs:293-428 | An accepted first-format state has fresh marks, no rotation history, passes every check of the second format, and is due for rotation if and only if the migration day is at least 7. |
| PrekeyV1.V1Complete | frontend/native/crypto_core/src/prekey_state.rs:304-360 | Every first-format state reads back from the bytes enrollment lays it out in. |
| PrekeyV1.V1Sound | frontend/native/crypto_core/src/prekey_state.rs:304-360 | And a first-format state is read from no other bytes. |
| PrekeyValid.MigrateExactly | frontend/native/crypto_core/src/prekey_state.rs:293-428 | Bytes migrate to a state if and only if they are the layout of a first-format value whose fingerprint is the digest of its public keys, and the state is that value in the new format with every key sound. |
| Enrollment.PrepareDevice | frontend/native/crypto_core/src/enrollment.rs:130-234 | The loops that fill the public and secret blocks, and the blocks put together, are the layout of the prepared state, and the first failure ends them. |
| Enrollment.FillBlocks | frontend/native/crypto_core/src/enrollment.rs:177-196 | One loop: keys numbered from 1, public halves in one block, secrets in another, in the same order. |
| Enrollment.DrawnOnce | frontend/native/crypto_core/src/enrollment.rs:130-234 | A package is made of the first eleven secrets and five pairs drawn, each in one place, and its device number is the random one without its top bit. |
| Enrollment.EnrolledMigrates | frontend/native/crypto_core/src/enrollment.rs:130-234 | Every package enrollment writes migrates on every day to the state it describes, with marks 9 and 5, if and only if the user id is not all zero. |
| Enrollment.EnrolledRoundTrip | frontend/native/crypto_core/src/enrollment.rs:130-234 | From enrollment through migration and any operations the state encodes within the bound and decodes back to itself. |
| EnrollmentEdges.PackageMigratesExactly | frontend/native/crypto_core/src/enrollment.rs:130-234 | When no draw fails, the package enrollment writes for any user id migrates on every day unless the id is all zero, with its pair stamped a week back or on day 0. |
| EnrollmentEdges.ZeroUserStranded | frontend/native/crypto_core/src/prekey_state.rs:315-322 | Enrollment succeeds for the all-zero user id, and migration refuses that package on every day. |
| EnrollmentEdges.EarlyIsNotDue | frontend/native/crypto_core/src/prekey_state.rs:298-303 | A package that migrates on every day, and is due for rotation then if and only if the day is at least 7. |
| PrekeyMigration.InitialPool | frontend/native/crypto_core/src/prekey_state.rs:200-207 | The initial mark is just past the greatest id of a sorted list. |
| PrekeyCodec.FixedSound | frontend/native/crypto_core/src/prekey_state.rs:438-451 | The fixed part is accepted only as written, with valid ids and sizes. |
| PrekeyCodec.FixedComplete | frontend/native/crypto_core/src/prekey_state.rs:237-249 | The fixed part reads back. |
| PrekeyCodec.TailSound | frontend/native/crypto_core/src/prekey_state.rs:452-509 | The lists and the pending upload are accepted only as written, within their caps. |
| PrekeyCodec.TailComplete | frontend/native/crypto_core/src/prekey_state.rs:250-282 | The lists and the pending upload read back. |
| PrekeyBytes.DecodeThenEncode | frontend/native/crypto_core/src/prekey_state.rs:430-559 | Accepted bytes are re-encoded to themselves if and only if they are within the input bound. |
| PrekeyBytes.FramedDecodeThenEncode | frontend/native/crypto_core/src/pairwise.rs:1802-1805 | Every frame that decodes is re-encoded to itself. |
| PrekeyBytes.DecodedLength | frontend/native/crypto_core/src/prekey_state.rs:430-559 | Nothing longer than the input bound and a tag decodes. |
| PrekeySlack.LongestDecodes | frontend/native/crypto_core/src/prekey_state.rs:430-559 | An input of exactly that length decodes, and the encoder refuses what it decodes to. |
| PrekeyBytes.EncodeThenDecode | frontend/native/crypto_core/src/prekey_state.rs:234-291 | A consistent, valid state that encodes decodes back to itself. |
| PrekeyValid.ValidateExactly | frontend/native/crypto_core/src/prekey_state.rs:561-647 | Validation passes if and only if every key matches its secret, every signed key carries the device's signature under its own id, and the lists strictly ascend. |
| PrekeyValid.DecodeExactly | frontend/native/crypto_core/src/prekey_state.rs:430-559 | Bytes within the input bound decode to a state if and only if it is well formed, its keys are sound and they are its encoding, tag included. |
| PrekeyBytes.BodySize | frontend/native/crypto_core/src/prekey_state.rs:234-283 | The exact encoded size of every well-shaped state. |
| PrekeyReachable.ReachableRoundTrip | frontend/native/crypto_core/src/prekey_state.rs:234-291 | Every state reachable from migrated bytes encodes, in at most 1,029,824 bytes even with full lists and a full pending batch, and decodes back to itself. |
| PrekeyReachable.RunHeld | frontend/native/crypto_core/src/prekey_state.rs:561-647 | Every reachable state's key material passes validation. |
| AttachmentSizes.StreamSizeValue | frontend/native/crypto_core/src/attachment.rs:323-337 | The declared stream size is the plaintext plus 17 bytes for each full-size chunk. |
| AttachmentSizes.BucketIsLeast | frontend/native/crypto_core/src/attachment.rs:339-350 | The bucket is the least that fits, and there is none exactly when the largest is too small. |
| AttachmentSizes.ParseOfMake | frontend/native/crypto_core/src/attachment.rs:352-409 | Parsing inverts making a header on every accepted create. |
| AttachmentSizes.MakeOfParse | frontend/native/crypto_core/src/attachment.rs:388-409 | A parsed header carries exactly the bytes parsed and the sizes a create would declare. |
| AttachmentOpening.DeclaredExactly | frontend/native/crypto_core/src/attachment.rs:106-109 | A declared bucket is the one asked for if and only if it is the least that holds the stream and both headers. |
| AttachmentOpening.ParseExactly | frontend/native/crypto_core/src/attachment.rs:388-409 | A header parses as itself if and only if every field is laid down for a plaintext size in its least bucket. |
| AttachmentOpening.CreatePushExactly | frontend/native/crypto_core/src/attachment.rs:92-135 | A push opens if and only if chunks are full size, the bucket is the least, and the table has room for its handle; the session starts under the header of what was declared, bound to the metadata, and nothing else changes. |
| AttachmentOpening.CreatePullExactly | frontend/native/crypto_core/src/attachment.rs:188-217 | A pull opens if and only if the header parses, the metadata shown has the hash the header carries, and the table has room. |
| AttachmentOpening.PullOpensForItsMetadata | frontend/native/crypto_core/src/attachment.rs:188-217 | The header an accepted push made opens a pull for the metadata it was made for and no other. |
| AttachmentSessions.Sessions.OpenPush | frontend/native/crypto_core/src/attachment.rs:92-135 | The table and history after a create, on every path, with every session promise kept. |
| AttachmentSessions.Sessions.OpenPull | frontend/native/crypto_core/src/attachment.rs:188-217 | The table and history after a pull create, on every path, with every session promise kept. |
| AttachmentSessions.Sessions.Push | frontend/native/crypto_core/src/attachment.rs:137-186 | The table, history and result of a push, counters moved by a refused overrun included; an accepted final chunk completes a stream of exactly the declared size. `AttachmentDelivery.Delivered` says what the result is worth to a receiver. |
| AttachmentSessions.Sessions.Pull | frontend/native/crypto_core/src/attachment.rs:219-263 | The table, history and result of a pull, on every path; a chunk reported final means all of the stream was returned. |
| AttachmentSessions.Sessions.Close | frontend/native/crypto_core/src/attachment.rs:265-285 | The table and result of a close; one that is not an abort succeeds only on a completed transfer. |
| AttachmentRuns.FinishedIsExact | frontend/native/crypto_core/src/attachment.rs:160-180 | Although only upper bounds are checked, a finished stream has exactly the declared sizes, by counting chunks. |
| AttachmentRuns.PushedIsExact | frontend/native/crypto_core/src/attachment.rs:160-180 | After any run a push that saw its final chunk counted exactly the declared plaintext and stream sizes. |
| AttachmentRuns.PulledIsPrefix | frontend/native/crypto_core/src/attachment.rs:219-263 | After any run what a pull returned is a prefix of what was pushed, and it is complete only when it is the whole, of the declared size. |
| AttachmentRuns.FinalIsWhole | frontend/native/crypto_core/src/attachment.rs:252-262 | "Final" is reported only when what was returned is the whole stream, of the declared size. |
| AttachmentRuns.ClosedIsComplete | frontend/native/crypto_core/src/attachment.rs:265-285 | A close that is not an abort succeeds only on a completed transfer. |
| AttachmentRuns.OverrunIsOverran | frontend/native/crypto_core/src/attachment.rs:175-178 | A refused overrun leaves its stream unfinished with every push on it overrun. |
| AttachmentRuns.OverrunNeverCompletes | frontend/native/crypto_core/src/attachment.rs:154-180 | Whatever follows, such a stream releases nothing more and never completes. |
| AttachmentRuns.NextChunkAccepted | frontend/native/crypto_core/src/attachment.rs:241-258 | A pull in step accepts and returns the next released chunk: no honest chunk is refused. |
| AttachmentFinish.CanFinishExactly | frontend/native/crypto_core/src/attachment.rs:137-186 | Some further pushes complete a session if and only if the bytes left, in as few chunks as they take, fit in what is left of the stream size. |
| AttachmentFinish.PushCanFinishExactly | frontend/native/crypto_core/src/attachment.rs:137-186 | After any run: if and only if it has not finished or overrun and the bytes left fit in the chunks left. |
| AttachmentFinish.CutAlwaysCompletes | frontend/native/crypto_core/src/attachment.rs:92-186 | Every push that was opened completes when its data is cut at 64 KiB. |
| AttachmentDelivery.Delivered | frontend/native/crypto_core/src/attachment.rs:137-285 | With a cipher that opens what it sealed: whatever else the sender and the receiver do, a pull opened on a stream under the sender's header and shown the ciphertexts its pushes returned, in order, returns exactly the plaintexts pushed; only the last push can be final, and the pull closes without an abort if and only if it was shown all of a stream that ended. |
| AttachmentDelivery.SenderCloses | frontend/native/crypto_core/src/attachment.rs:265-285 | After any run the push closes without an abort if and only if its last accepted push was final. |
| AttachmentDelivery.FileArrives | frontend/native/crypto_core/src/attachment.rs:92-285 | A file of any size that opens a push, cut at 64 KiB and pushed, is accepted throughout; the pull answers with its pieces, final on the last alone, the pieces joined are the file, and both sessions close without an abort. |
| MailboxSend.Plan | backend/messaging/services.py:65-102 | Full devices are exactly those the whole of their part would not fit; stale and accepted messages are in batch order, each accepted one with the day read for it; a full device is untouched; any other gets one number for each of its messages, on from its counter. |
| MailboxSend.Weigh | backend/messaging/services.py:65-70 | The first loop totals what the batch brings each live device. |
| MailboxSend.Stamp | backend/messaging/services.py:76-95 | The second loop numbers and collects. |
| MailboxSend.OneFateEach | backend/messaging/services.py:76-95 | Message i is accepted exactly when its device is live and not full, refused exactly when it is full, stale exactly when it is not live, and each place is listed once. |
| MailboxTheorems.NoSilentLoss | backend/messaging/management/commands/prune.py:111-160 | In every interleaving each number assigned to a device that is not revoked is queued, at or below its watermark, or was deleted by an event of the run: an acknowledgement by that device that names it and found it queued. |
| MailboxTheorems.NothingLostEarly | backend/messaging/management/commands/prune.py:103-160 | And until the retention window of its day has passed it is above the watermark: queued, or so deleted. |
| MailboxAcks.AckExactly | backend/messaging/services.py:141-147 | After an acknowledgement a row is queued if and only if it was and its number is not named; the rest keep their order, the numbers recorded as deleted are exactly the queued ones named, and no other field, mailbox or send changes. |
| MailboxAcks.AckedExactly | backend/messaging/services.py:141-147 | In every run a number counts as acknowledged if and only if the run holds that device's acknowledgement of it, made while it was queued. |
| MailboxAcks.AckTwice | backend/messaging/services.py:141-147 | Acknowledging again changes nothing. |
| MailboxAcks.LiveExactly | backend/messaging/services.py:53-58 | A device is live from its registration, except while its account is inactive, until it is revoked; no other event decides it. |
| MailboxTheorems.WatermarkRises | backend/devices/models.py:64-70 | The watermark never decreases. |
| MailboxTheorems.RevokedStaysEmpty | backend/devices/services.py:391-407 | A revoked mailbox is empty and stays empty, sends in flight included. |
| MailboxTheorems.WithinCeiling | backend/messaging/services.py:71-75 | No mailbox is ever past its ceiling, whatever is acknowledged between the size read and the insert; no number is queued twice. |
| MailboxTheorems.CommitDelivers | backend/messaging/services.py:76-102 | A commit appends exactly the batch's messages for each live device that is not full, numbered on from its counter, and changes no other. |
| MailboxTheorems.SendsNeverDeadlock | backend/messaging/services.py:50-58 | Some unfinished send can always take its next lock, read sizes, stamp or commit. |
| MailboxPlan.SendIsPlanned | backend/messaging/services.py:43-102 | Whatever runs between a send's locks and its commit, the commit gives each device held the counter and appends the envelopes that the loops compute from what the locks froze. |
| MailboxAlone.SendAlone | backend/messaging/services.py:43-102 | From any reachable store, a send that meets no other leaves exactly the store with its batch delivered: each live device with room for its whole part has its messages behind what it held, in order, under the next numbers and today's date, and everything else is as it was. |
| MailboxAlone.AbortUndoes | backend/messaging/services.py:49-102 | Given up at any step before its commit, it leaves the store exactly as it found it. |
| MailboxPlan.SizesAsPlanned | backend/messaging/services.py:65-75 | Reading sizes under the locks finds the same full devices as the loops. |
| MailboxPlan.RunStays | backend/messaging/services.py:50-58 | No other event changes the counters or fates of the devices a send holds. |
| MailboxSafety.WantedIs | backend/messaging/services.py:50 | A send asks for each device it names once, in ascending order. |
| MailboxSafety.CommitKeeps | backend/messaging/services.py:98-102 | Committing keeps every mailbox promise. |
| MailboxSafety.AckKeeps | backend/messaging/services.py:141-147 | Acknowledging keeps every mailbox promise; what it deletes is stated by `MailboxAcks.AckExactly`. |
| MailboxSafety.SweepKeeps | backend/messaging/management/commands/prune.py:143-159 | Watermark and delete together keep every mailbox promise. |
| MailboxSweep.Store.PruneEnvelopes | backend/messaging/management/commands/prune.py:103-160 | The loop ends; on return nothing queued predates the cutoff and everything queued is above its device's watermark, whatever ran between its statements. The count returned is of the envelopes it deleted: all that were expired and queued at the start, save those acknowledged or revoked meanwhile, and none that was not expired. |
| MailboxSweep.Store.Pass | backend/messaging/management/commands/prune.py:112-160 | One transaction strictly shrinks what is or can become an expired envelope. |
| MailboxSweep.SweepSince | backend/messaging/management/commands/prune.py:143-159 | Committing a pass removes no row but those it counts as deleted. |
| MailboxSweep.AboveWatermark | backend/messaging/management/commands/prune.py:121-122 | With nothing expired left, every queued envelope is above the watermark, because numbers are stamped in order of time. |
| MailboxSweep.UnderMarkIsExpired | backend/messaging/management/commands/prune.py:143-159 | At any moment a queued envelope at or below its device's watermark is expired and will be swept. |
| MailboxSplit.AboveAfterPassExactly | backend/messaging/management/commands/prune.py:116-159 | After one pass everything queued is above its watermark if and only if what the batch left was, and the batch parts no two envelopes of one device and day. |
| MailboxSplit.PassSafeExactly | backend/messaging/management/commands/prune.py:116-120 | Every batch the query may return keeps that if and only if all that is expired fits in one batch, or no device has two envelopes on the day the cut falls in. |
| MailboxSplitAmong.AboveAfterPassAmongExactly | backend/messaging/management/commands/prune.py:116-159 | Whatever runs between select, measure and commit, everything queued after the pass is above its watermark if and only if no unselected row queued at the commit was at or below it, and none has a later one of its device and day selected and still there at the measure. |
| MailboxSplitAmong.PassSafeAmongExactly | backend/messaging/management/commands/prune.py:112-160 | Every batch the query may return keeps that, whatever runs while the pass is open, if and only if no device has two envelopes on a day the cut falls in. |
| MailboxSplitRun.SplitDay | backend/messaging/management/commands/prune.py:116-120 | A run of 1,001 sends from an empty store after which a batch the query may return leaves envelope 1 queued under a watermark of 1,001. |
| MailboxSweep.BatchExists | backend/messaging/management/commands/prune.py:116-120 | The batch query always has an answer: the oldest expired envelopes, up to a full batch. |
| PrekeyClaim.SingleConsumption | backend/devices/services.py:536-598 | In every interleaving no row is handed out by two committed claims or twice by one, each goes to a want of its kind and device, and the rows deleted are exactly those handed out. |
| PrekeyClaimKeys.KeysOnceExactly | backend/devices/services.py:456-473 | Over every interleaving of a sequence of uploads with claims, no key of a kind and device is handed out twice if and only if no upload repeats a key. |
| PrekeyClaimKeys.HandedTwiceExactly | backend/devices/services.py:456-473 | In a run a key is handed out twice if and only if some upload stored it again after a committed claim had consumed it, and that row was claimed too. |
| PrekeyClaimKeys.DistinctUploadsOnce | backend/devices/services.py:536-598 | In a run whose uploads are distinct no two claims or wants get one key. |
| PrekeyClaimKeys.RepeatedTwice | backend/devices/services.py:456-473 | A repeated upload gives a run that hands its key out twice. |
| PrekeyClaim.RollbackRestores | backend/devices/services.py:568-598 | A rolled-back claim changes no row and leaves every row it had picked claimable. |
| PrekeyClaim.FirstExists | backend/devices/services.py:536-561 | The query always has an answer: the lowest unlocked key of the kind and device, or truly none. |
| PrekeyClaim.Store.TakeOneEach | backend/devices/services.py:536-561 | The loop answers its wants one by one, each with the lowest key unlocked when it was asked or with none if there was none, whatever runs between, and ends with the rows it will delete exactly those it hands out. |
| PrekeyClaimAlone.ClaimAlone | backend/devices/services.py:536-598 | A claim that meets no other serves each want that has an unlocked key its lowest one and leaves out the rest; exactly the rows served are deleted, and every other row, lock and claim is as it was. |
| PrekeyClaimAlone.RollbackAlone | backend/devices/services.py:568-598 | Rolled back instead, it leaves the tables exactly as it found them. |
| DeviceLog.AppendsKeep | backend/devices/services.py:485-516 | Appends keep the numbers exactly 0..n-1 with n at most the ceiling, and change no record. |
| DeviceLog.AppendKeeps | backend/devices/services.py:497-516 | An append succeeds exactly when it fits under the ceiling, and is refused whole otherwise. |
| DeviceLog.PageBounds | backend/devices/schemas.py:329-340 | A junk cursor is the start; a limit in range is kept, one below is 1, one above or junk is the cap. |
| DeviceLog.PageIsSlice | backend/devices/services.py:519-533 | A page is the next stretch of the log, and says truly whether more follows and what the last number of the log is. |
| DeviceLog.Walk | backend/devices/services.py:519-533 | Following pages to the end, with any limits and concurrent appends, terminates with exactly the log as it stood at the last page: what was there at the start and every record the appends before that page stored, in order. |
| Crockford.CrockfordEncode | frontend/native/crypto_core/src/enrollment.rs:1291-1309 | The loops with a wrapping accumulator compute the base-32 digits of the input's number. |
| Crockford.CrockfordDecode | frontend/native/crypto_core/src/enrollment.rs:1311-1329 | The loop computes the number's base-256 digits, and refuses unknown symbols and nonzero padding. |
| Crockford.DecodeOfEncode | frontend/native/crypto_core/src/enrollment.rs:1291-1329 | Decoding inverts encoding for every byte string. |
| Crockford.FiftyFiveSymbols | frontend/native/crypto_core/src/enrollment.rs:1311-1329 | Exactly 55 symbols decode to 34 bytes. |
| Crockford.DecodeInjective | frontend/native/crypto_core/src/enrollment.rs:1311-1343 | Texts of one length decode alike exactly when they spell the same symbols, aliases included. |
| Crockford.SymbolExactly | frontend/native/crypto_core/src/enrollment.rs:1331-1343 | A symbol is read as its place in the alphabet or as the digit it is mistaken for, and nothing else is a symbol. |
| RecoverySecret.NormalizeRecoverySecret | frontend/native/crypto_core/src/enrollment.rs:1263-1289 | The normaliser through the loops gives what the function gives; `RecoverySecret.NormalizeExactly` says what that is. |
| RecoverySecret.NormalizeExactly | frontend/native/crypto_core/src/enrollment.rs:1263-1289 | Input is accepted if and only if what it spells is some 32 bytes followed by the first two of their digest, and the text given back is the one those bytes are written as; any other input fails authentication. |
| RecoverySecret.SeparatorIgnored | frontend/native/crypto_core/src/enrollment.rs:1263-1289 | White space or a dash anywhere changes nothing. |
| RecoverySecret.CaseIgnored | frontend/native/crypto_core/src/enrollment.rs:1263-1289 | Nor does the case of any letter. |
| RecoverySecret.AliasIgnored | frontend/native/crypto_core/src/enrollment.rs:1331-1343 | Nor does typing O for zero, or I or L for one. |
| RecoverySecret.NormalizeFixesEncoded | frontend/native/crypto_core/src/enrollment.rs:1250-1289 | Every encoded secret is accepted and unchanged. |
| RecoverySecret.NormalizeIdempotent | frontend/native/crypto_core/src/enrollment.rs:1263-1289 | Normalising twice is normalising once. |
| RecoverySecret.NormalizeAgrees | frontend/native/crypto_core/src/enrollment.rs:1263-1289 | Two accepted inputs give the same text exactly when they carry the same payload. |
| RecoverySecret.CompactOfGroup | frontend/native/crypto_core/src/enrollment.rs:1345-1352 | Removing separators undoes grouping. |
| RecoverySecret.AcceptedShape | frontend/native/crypto_core/src/enrollment.rs:1263-1289 | Accepted input holds exactly 55 symbols and its canonical text is eleven groups of five. |

## Left out

- Writing into a growing buffer: encoders are modelled as the bytes they produce, and outside the unknown-body validator, the framing reader and the counted loops, so are the decoders' moving positions.
- Allocation failures, zeroisation, constant-time comparison and the C interface.
- The primitives themselves: X25519, Ed25519, ML-KEM, HMAC, HKDF, SHA-256, secretstream, Argon2 and the random source are parameters.
- The identity package read by a rotation, and the messages that signatures cover, are parameters of the prekey model.
- The pairwise ratchet, room control, and the enrollment operations beyond preparing a device and the recovery secret.
- Emoji classification: one abstract test, shared by both decoders.
- Locks the sweep's own update takes on device rows, and waits between it and sends: only sends fix a lock order.
- The live push after a send and `drain`, which only reads.
- Deactivation of an account while its device log is being walked: the pages of an inactive account are empty.
- Revocation's deletion of one-time prekeys, and the stored-key caps and signed-bundle update of the backend's replenish route; an upload is one key at a time.
- Attachment and audit retention, administration, rate limits, sockets, authentication and configuration.
