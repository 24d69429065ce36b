# OpenWhistle, verified

A Dafny model of the parts of OpenWhistle that are hardest to get right and
cannot be settled by running them, with proofs of what they promise:
protocols of concurrent requests, byte-level parsers, calendar and contrast
arithmetic, and the state machines of reports and accounts. `dafny verify
dfyconfig.toml` checks all of it.

**Submitting a report.** A wizard draft moves between five Redis keys by five
atomic scripts while submits, saves, recoveries, crashes, key expiry and late
COMMITs interleave. `DraftKeys` has the scripts as methods of a `Store`,
`SubmitProtocol` the transition system over them, `SubmitSafety` what holds in
every run, `SubmitResults` what a submit leaves behind, `SubmitTiming` what
holds within time limits, `SubmitRuns` runs built step by step, `SubmitLimits`
which limits that takes, exactly, and `LegacyDraft` drafts saved without a
report id. Every key has its time to live, which a RENAME carries over.

**Attachments.** `Jpeg`, `Png`, `Webp` and `Jp2` are the metadata strippers: each
walk is a method over an index, proved equal to a function on bytes, about which
the round-trip and idempotence laws are proved (`Bytes` and `Exif` hold what
they share). `Rekey` is the job that moves stored objects, as a loop and as any
number of overlapping runs.

**Time.** `Calendar` has civil dates and `add_months`, `Deadlines` the statutory
deadlines and the dashboard's count of them, `Retention` the deletion cutoff,
`Retiming` the migration that rounds message times and the live path beside it,
`Posting` messages posted at once, `Lifecycle` a report under its requests, one at
a time and overlapping, `Histories` what its closing time then says, and `Cleanup`
the job that deletes reports while requests go on.

**Operating it.** `Branding` is the versioned snapshot cache, `Sessions` token
refresh against the sweep that ends sessions, `Rotation` the encryption-key
rotation, `Accounts` the maker graph behind four-eyes deletion and the changes
accounts make to one another, `Contrast` the WCAG theme tokens, and `Geometry`
and `Diamonds` the segment, curve and text checks of the diagrams. `Options` and
`Facts` hold the small datatypes and lemmas they share.

A concurrent protocol is a state, a step, `Enabled` and `Apply`; a run is a
sequence of steps, so a lemma about all runs is about all interleavings. A
request that crashes is one that takes no further step, or a `Crash` step where
that matters. Clocks, random numbers, UUIDs and the replies of other systems
are parameters or carried by the steps.

## What does not hold as stated

Each of these has a lemma with a concrete input or run, and one that says
exactly when the property holds; the last is the one exception, with a condition
that is enough.

- At most one submit owns a draft, and nothing brings it back after its report's
  commit (`app/api/reports.py:105-114`, `:1046`). The timeouts bound a submit up to
  the lookup after its failure, the landing of its COMMIT and a recovery. They do
  not bound the give-back after that lookup, which waits for the deletion of stored
  objects, nor the life a draft has left when it is claimed, which the claimed key
  inherits. One owner at a time holds in every run exactly if submits, their
  give-backs included, end within the life of `pending` and that of the claimed key
  (`SubmitLimits.OneOwnerIff`); no revival exactly if also COMMITs land within both
  and recoveries end within that of `pending` (`SubmitLimits.NothingRevivesIff`).
  With the timeouts of the code that leaves the give-back and at least a minute of
  the draft's life (`SubmitLimits.UnderTheTimeouts`). The runs in which it fails:
  `SubmitLimits.TwoOwners`, `SubmitLimits.RevivedByItsOwner`,
  `SubmitLimits.RevivedByALookup`, `SubmitLimits.RevivedByARecovery`.
- A submit whose draft fails its checks gives it back without a lookup: within
  those limits, after the commit exactly if the claimed draft was already spent,
  which takes a page that loaded it before the commit and saved it after, and then
  happens within any limits: `SubmitTiming.RefusedAfterCommitIffSpentAtClaim`,
  `SubmitRuns.SpentDraftCanBeGivenBack`.
- One draft, one report (`app/api/reports.py:102-103`) holds in every run exactly
  for drafts that carry a report id (`LegacyDraft.AtMostOneReportIff`). One saved
  before v2.0.0, without an id, yields one in every run within given limits exactly
  if submits end within both keys' lives and the report-id key stays
  (`LegacyDraft.AtMostOneReportInTimeIff`); else it can yield two
  (`LegacyDraft.TwoReports`, `LegacyDraft.TwoReportsOnceTheIdExpires`,
  `LegacyDraft.TwoReportsAfterARestart`).
- `add_months` keeps the order of dates, and of moments except when both are cut
  to the same last day: `Calendar.AddMonthsCanSwap`,
  `Calendar.AddMonthsKeepsOrderIff`. So retention's eligibility can lapse once,
  from 28 to 29 February at an earlier time of day: `Retention.EligibilityCanLapse`,
  `Retention.EligibleMonotoneIff`. Two nightly runs can meet it by no more than the
  difference of their times of day, and only for reports closed within that much
  of the cutoff; it is over at the first run's time of day (`Retention.LapseIsShort`).
- Retention deletes only reports that have been closed for their whole period
  (`app/services/retention.py:99-130`): the DELETE goes by id alone, so a report put
  in review after the job's SELECT goes all the same
  (`Cleanup.DeletedThoughReopened`), and one closed a second time with the stamp of
  a first closure goes too early (`Cleanup.DeletedTooEarly`). A deleted report was
  closed without interruption from its stamp to the end exactly if no request that
  had loaded it before the stamp's commit wrote an open status up to the SELECT, and
  none did between SELECT and DELETE (`Cleanup.DeletedWhileClosedIff`,
  `Histories.ClosedSinceItsStampIff`).
- The dashboard's formulas agree with the case page exactly for receipts stored
  as a whole day: `Deadlines.DashboardAgreesIff`.
- `closed_at` is set exactly while a report is closed, and acknowledgement and
  feedback are stamped once, when requests take effect one at a time. The handlers
  decide on a row loaded before any lock: one that loaded it before another's
  commit can leave `closed_at` on an open report, so that a later closure keeps the
  old time (`Lifecycle.AnOldClosureSurvives`), or replace the first feedback's time
  (`Lifecycle.TwoFirstMessages`). `Lifecycle.MergedIsValidIff`,
  `Lifecycle.AcknowledgedTwiceIff` and `Lifecycle.FeedbackTwiceIff` say which
  overlapping commits do that, and `Lifecycle.RunsAreKeptIff` that a run keeps all
  of it exactly if it has none of them.
- The comment at `app/api/admin.py:860-861` expects cycles among makers from
  manual edits only; a reset authenticator sets the maker as well, so two
  superadmins who reset each other make one (`Accounts.ResetsMakeACycle`). A
  request closes a cycle exactly if it resets, with its password, an account above
  the one who resets it (`Accounts.CycleIff`). The walk ends either way
  (`Accounts.Makers`).
- The model of an account says it and the accounts it made are one person
  (`app/models/user.py:76-77`); two accounts of one maker still count as two
  (`Accounts.SiblingsAreNot`), as the walk goes by `created_by_id` upwards only:
  two are one exactly if one of them reaches the other (`Accounts.OneMadeTheOther`).
- Who made whom is not lasting: a reset that sets a password puts its actor's
  makers in place of the target's, so that two related accounts may become
  unrelated (`Accounts.AResetUnrelates`). `Accounts.RelatedAfterIff` says for every
  request which accounts are related after it; no other request changes that.
- The count of administrators in the role and deactivation handlers never refuses
  a request that takes effect alone (`Accounts.TheCountNeverRefuses`), and does not
  stop two at once (`Accounts.TwoAtOnce`). Two requests at once leave no active
  superadmin exactly if two superadmins, with no third, each stop the other
  (`Accounts.TwoAtOnceGovernIff`); any commit does exactly if it stops the only one
  there is by then (`Accounts.CommitGovernsIff`).
- A second pass over a stripped JPEG changes nothing, but for malformed files: in
  one a kept scan is followed by a marker that goes on with it (`Jpeg.AScanGoesOn`),
  in another a segment's length field is one (`Jpeg.ALengthOfOne`). It holds of
  every input whose kept segments do neither (`Jpeg.StripTwiceWhereAlike`).

## Model

| member | source | states |
|---|---|---|
| DraftKeys.Store.AssignReportId | app/api/reports.py:119-125 | an id only for the draft as it was read, the one assigned first if there is one, with the life it has; no other key changes |
| DraftKeys.Store.ClaimDraft | app/api/reports.py:128-136 | a claim succeeds exactly if there is a draft and none claimed; the draft moves with what is left of its life, and "pending" gets the claim's nonce and a new one |
| DraftKeys.Store.RecoverDraft | app/api/reports.py:139-153 | nothing while "pending" or a draft is there or the claimed token changed; else the draft comes back with what is left of its life, or goes for the result |
| DraftKeys.Store.GiveBackDraft | app/api/reports.py:155-167 | refused exactly while another claim is pending; never overwrites a draft; both claim keys go, and a draft set again has a new life |
| DraftKeys.Store.FinishClaim | app/api/reports.py:169-178 | the result is stored; the draft's keys go unless a newer claim holds them |
| DraftKeys.Store.SaveSubmission | app/api/reports.py:472-478 | every saved draft has an id, the loaded one if there is one, and a new life |
| SubmitProtocol.OthersStay | app/api/reports.py:319-383 | a step moves no request or transaction but its own |
| SubmitProtocol.RowsChangeByLanding | app/api/reports.py:1016-1019 | only a COMMIT that lands changes the committed reports |
| SubmitSafety.RowsOnlyGrow | app/services/report.py:136-158 | a committed report stays, under its case number |
| SubmitSafety.StaysTruthful | app/api/reports.py:1016-1046 | every step keeps: what each request has learned about the database is still so, and no two live transactions insert one id |
| SubmitSafety.AtMostOneReport | app/api/reports.py:102-103 | in every run a draft with an id yields at most that report, and a stored result is its case number |
| SubmitSafety.NoDraftLost | app/api/reports.py:105-110 | in every run without the loss of a draft's key or a restart, until a report is committed one key holds the draft; "pending" implies the claimed key |
| SubmitSafety.LastCopyGoesToTheCommitted | app/api/reports.py:139-178 | the last copy is deleted only by a finish or a recovery that knows the committed case number |
| SubmitResults.FinishStoresItsOwn | app/api/reports.py:1027-1073 | in every run a submit that finishes stores the result exactly if the report there is the one it sent its COMMIT for; else the stored one stays |
| SubmitResults.LookupDecides | app/api/reports.py:1014-1043 | in every run a failed submit finishes exactly if the report is there, and gives back exactly if it is not and no COMMIT was sent |
| SubmitResults.ALostReplyIsMadeGood | app/api/reports.py:1014-1073 | in every run a COMMIT that landed without a reply is found by the lookup, and its case number stored |
| SubmitResults.CaseNumbersAreUnique | app/services/report.py:136-158 | in every run no two reports share a case number |
| SubmitResults.AnythingMayFail | app/api/reports.py:1014-1043 | a submit can fail at any point up to its reply, its transaction be rolled back until it has landed, any request stop |
| SubmitResults.GivingBackAlone | app/api/reports.py:967-1040 | a submit that gives its draft back goes on to save it with the error, unless a newer claim holds it |
| SubmitTiming.StaysExclusive | app/api/reports.py:105-114 | every timely step keeps: the draft of a submit that ends within both keys' lives is under the claimed key, and "pending" names its claim |
| SubmitTiming.AtMostOneOwner | app/api/reports.py:105-114 | within such limits at most one submit owns a draft, at any time, its give-back included |
| SubmitTiming.RecoveryRestoresOnlyUncommitted | app/api/reports.py:329-355 | within limits that fit, a recovery restores a draft only before its report is committed, whatever the submitter learned |
| SubmitTiming.FailedSubmitGivesBackOnlyUncommitted | app/api/reports.py:1018-1040 | within limits that fit, a failed submit gives its draft back only before its report is committed |
| SubmitTiming.RefusedAfterCommitIffSpentAtClaim | app/api/reports.py:358-368 | within limits that fit, a refused claim goes back after the commit exactly if the draft was spent when it was claimed |
| SubmitRuns.Commit | app/api/reports.py:1000-1018 | from any state with a draft to claim, one request can commit its report and leave only its result, within any limits |
| SubmitRuns.SpentDraftCanBeGivenBack | app/api/reports.py:472-478 | a run within any limits in which a spent draft is saved, claimed and given back |
| SubmitLimits.OneOwnerIff | app/api/reports.py:105-114 | one owner at a time in every run exactly if a submit and its give-back end within the lives of "pending" and of the claimed key |
| SubmitLimits.TwoOwners | app/api/reports.py:1027-1033 | else a run in which a submit, or one about to give back, owns the draft beside another |
| SubmitLimits.NothingRevivesIff | app/api/reports.py:139-167 | no draft comes back after its commit in any run exactly if, besides, COMMITs land within both lives and recoveries end within that of "pending" |
| SubmitLimits.RevivedByItsOwner | app/api/reports.py:1027-1033 | a run in which a late give-back restores a draft another submit has committed |
| SubmitLimits.RevivedByALookup | app/api/reports.py:1018-1033 | one in which a COMMIT lands after another submit has looked for it in vain |
| SubmitLimits.RevivedByARecovery | app/api/reports.py:329-355 | one in which a late recovery restores a draft committed since its lookup |
| SubmitLimits.UnderTheTimeouts | app/api/reports.py:114-116 | with the timeouts of the code: exactly if the give-back ends within both lives and a claimed draft has a minute left |
| LegacyDraft.StaysAgreed | app/api/reports.py:116-125 | every timely step that leaves the report-id key keeps: all ids of a draft saved without one are the id first assigned |
| LegacyDraft.AtMostOneReportInTime | app/api/reports.py:116-125 | if submits end within both keys' lives and the report-id key stays, such a draft, too, yields at most one report |
| LegacyDraft.AtMostOneReportInTimeIff | app/api/reports.py:116-125 | within given limits at most one report in every run exactly for drafts with an id, or for all if submits end within both lives and the key stays |
| LegacyDraft.TwoReportsOnceTheIdExpires | app/api/reports.py:155-167 | a run with two reports, a refused claim having made the draft outlive its report-id key |
| LegacyDraft.TwoReportsAfterARestart | app/api/reports.py:1174-1180 | one in which the reporter starts anew while a claim is refused |
| LegacyDraft.TwoReports | app/api/reports.py:139-167 | beyond the limits, a run in which it yields two |
| LegacyDraft.AtMostOneReportIff | app/api/reports.py:102-103 | at most one report in every run exactly for drafts with an id |
| Jpeg.FindMarker | app/services/attachment.py:310-316 | the first FF from an index on, or none |
| Jpeg.ScanEnd | app/services/attachment.py:310-316 | the end of the entropy-coded data, which neither stuffing nor a restart marker ends |
| Jpeg.EndsScanIff | app/services/attachment.py:310-316 | of the codes after an FF, 00 and D0 to D7 go on with a scan, the others end it |
| Jpeg.ScanIff | app/services/attachment.py:310-316 | the data before a marker that ends it are exactly the printed scans |
| Jpeg.StripSegments | app/services/attachment.py:319-350 | ends on every input, with the function on bytes the lemmas are about |
| Jpeg.StripPrinted | app/services/attachment.py:319-350 | stripping any printed well-formed file is the printed file without APPn (but APP14) and COM, in order, cut after the end of image |
| Jpeg.KeptOne | app/services/attachment.py:303-350 | of a single segment: FE and E0 to EF but EE go, any other stays as it is but for fill |
| Jpeg.KeptOfBoth | app/services/attachment.py:319-350 | and of any two stretches of segments each by itself |
| Jpeg.NoMetadataIsLeft | app/services/attachment.py:303-350 | no segment of a stripped file has one of those markers |
| Jpeg.StripJpeg | app/services/attachment.py:227-235 | the stripped file, and for an orientation other than upright with its block put in |
| Jpeg.OrientationIsPutBack | app/services/attachment.py:227-235 | that block is an APP1 segment of its own, the first one, "Exif" and the TIFF block |
| Jpeg.StripTwice | app/services/attachment.py:319-350 | a second pass changes nothing |
| Jpeg.StripTwiceWhereAlike | app/services/attachment.py:310-350 | the same for any input in which no kept segment has a length of one and no kept scan is followed by a kept marker that goes on with it |
| Jpeg.WellFormedReadsAlike | app/services/attachment.py:310-350 | every well-formed file is such an input |
| Jpeg.AScanGoesOn | app/services/attachment.py:310-350 | a malformed input that a second pass shortens: a scan goes on into the next segment |
| Jpeg.ALengthOfOne | app/services/attachment.py:319-350 | another: a length field of one |
| Jpeg.ExifIsTheOnlyMetadata | app/services/attachment.py:227-235 | a file with the orientation put back strips to itself without it |
| Jpeg.SegmentsNeverLengthen | app/services/attachment.py:319-350 | on any input the result is no longer |
| Exif.BlockIs | app/services/attachment.py:173-178 | the block read as TIFF has it: one directory, one entry, the orientation |
| Png.NewBlock | app/services/attachment.py:274-279 | an eXIf chunk exactly for an orientation other than upright |
| Png.Walk | app/services/attachment.py:257-279 | the walk computes the parsed chunks' result, or raises exactly where they do not parse |
| Png.Strip | app/services/attachment.py:238-279 | the same with the table of kept chunks |
| Png.KindsKept | app/services/attachment.py:236-254 | the table by name |
| Png.NothingElseIsLeft | app/services/attachment.py:257-279 | each chunk of a result has a kind of the table or is the one orientation block, and the input's chunks of those kinds are all there |
| Png.KeptAppend | app/services/attachment.py:257-279 | what is kept of two stretches of chunks is kept of each, in order |
| Png.StripPrinted | app/services/attachment.py:257-279 | accepted exactly if signature, chunks up to IEND and a rest; then signature, kept chunks, the orientation's eXIf, IEND |
| Png.StripTwice | app/services/attachment.py:257-279 | idempotent on every input it accepts |
| Webp.Walk | app/services/attachment.py:283-293 | the loop computes the kept bytes and the last orientation |
| Webp.Wrap | app/services/attachment.py:294-301 | flags, EXIF chunk and RIFF header, or the overflow of its size |
| Webp.Strip | app/services/attachment.py:280-301 | the same with the table of kept chunks |
| Webp.KindsKept | app/services/attachment.py:279-280 | the table by name |
| Webp.NothingElseIsLeft | app/services/attachment.py:283-301 | each chunk of a well-formed result has a kind of the table or is the orientation's, and the input's chunks of those kinds are all there |
| Webp.KeptAppend | app/services/attachment.py:283-293 | what is kept of two stretches of chunks is kept of each, in order |
| Webp.FlagsSayIt | app/services/attachment.py:294-298 | ICC and XMP off, EXIF as said, the other five bits as before |
| Webp.FlagsAre | app/services/attachment.py:294-298 | in the flags' own numbers: 0x20 and 0x04 off, 0x08 as said, the rest as before |
| Webp.SizeAndFlagsAgree | app/services/attachment.py:283-301 | on any input the RIFF size is the length less 8, and in an extended file EXIF is set exactly if an EXIF chunk is written, last |
| Webp.StripPrinted | app/services/attachment.py:283-301 | stripping a printed well-formed file is the printed file of its kept chunks with the flags set right |
| Webp.StripTwice | app/services/attachment.py:283-301 | a second pass over a stripped well-formed file changes nothing |
| Webp.StripTwiceWhereChunksFit | app/services/attachment.py:283-301 | the same for any accepted input whose chunks end within the RIFF body |
| Webp.FitsIff | app/services/attachment.py:283-293 | those are the bodies that are lists of chunks |
| Jp2.StripCodestream | app/services/attachment.py:353-362 | the loop computes the codestream without the segments dropped |
| Jp2.StripPrinted | app/services/attachment.py:353-362 | stripping a printed codestream drops exactly its comments before the first tile; the rest stays byte for byte |
| Jp2.StripBoxes | app/services/attachment.py:363-379 | the loop computes the kept boxes, nested codestream boxes stripped, or raises |
| Jp2.Strip | app/services/attachment.py:353-379 | ends at every nesting depth, with the function the lemmas are about |
| Jp2.KindsKept | app/services/attachment.py:347-350 | the table by name |
| Jp2.Stripped | app/services/attachment.py:353-379 | never longer than its input |
| Jp2.StripTwice | app/services/attachment.py:353-379 | idempotent on every input it accepts, at every depth |
| Jp2.BoxesAreTheKeptOnes | app/services/attachment.py:363-379 | the result's boxes are the input's kept ones, in order, byte for byte but for codestreams, whose contents are stripped |
| Rekey.Bucket.RekeyOne | app/services/attachment.py:1034-1059 | one row's turn: the new object, the row, the old object, or nothing |
| Rekey.TurnProgresses | app/services/attachment.py:1019-1025 | a row's turn settles that row and leaves each other row and its object alone |
| Rekey.Bucket.RekeyLegacyObjects | app/services/attachment.py:1019-1060 | one run: every row reads as before, every row that can move has moved, and the count says how many |
| Rekey.WhatIsLeft | app/services/attachment.py:1026-1045 | after a run every row has a UUID key and an encrypted object, unless the object or its report's key was missing or its copy failed |
| Rekey.ReadsIff | app/services/attachment.py:921-951 | what a download gets: the object in the clear, or what was sealed in it under its report's key |
| Rekey.ACopyAlone | app/services/attachment.py:1037-1059 | undisturbed, the steps of the overlapping runs are the loop's turn, for an encrypted object |
| Rekey.AFetchAlone | app/services/attachment.py:1037-1059 | and for one in the clear |
| Rekey.AFailureAlone | app/services/attachment.py:1041-1058 | a store or a deletion that fails leaves the rows and the objects |
| Rekey.StaysKept | app/services/attachment.py:1019-1060 | every step of overlapping runs keeps: each row names its old object or one of its own with the same contents, and only objects no row names are deleted |
| Rekey.EveryRowStillReads | app/services/attachment.py:1019-1060 | at every point of any number of overlapping runs, stopped anywhere, each row reads as it did before the first |
| Rekey.AStaleRowReadsTheSameOrNothing | app/services/attachment.py:921-951 | a download that read its row earlier gets the same bytes, or a missing object |
| Rekey.MovedIsLeftAlone | app/services/attachment.py:1033-1036 | a moved row is skipped by every later run |
| Calendar.OrdinalOrder | app/services/deadlines.py:44-57 | dates are ordered as their day numbers |
| Calendar.MonthsBegin | app/services/deadlines.py:44-49 | the days before each month of a common and of a leap year |
| Calendar.PosixDays | app/services/deadlines.py:44-57 | two days lie as far apart as their POSIX times |
| Calendar.AddMonthsIs | app/services/deadlines.py:44-49 | so many months on, on the same day or the target month's last, at the same time |
| Calendar.PlusInstant | app/services/deadlines.py:56-57 | adding days adds so many days of microseconds |
| Calendar.AddMonthsToDateMonotone | app/services/deadlines.py:44-49 | adding months keeps the order of dates |
| Calendar.AddMonthsKeepsOrderIff | app/services/deadlines.py:44-49 | and of moments unless both are cut to one day and the times of day are the other way round |
| Calendar.AddMonthsCanSwap | app/services/deadlines.py:44-49 | an input where they are |
| Calendar.BackAndForth | app/services/deadlines.py:44-49 | months back and forth again never lead past the start |
| Deadlines.FeedbackDueMonotone | app/services/deadlines.py:60-70 | a later receipt has no earlier feedback deadline |
| Deadlines.FeedbackDueIs | app/services/deadlines.py:60-70 | the end of the day three months after the acknowledgement, and at latest of the seventh after the day three months after receipt; without one, the latter |
| Deadlines.AcknowledgingNeverMovesItLater | app/services/deadlines.py:60-70 | an acknowledgement never moves the deadline later, and a later one leaves it no earlier |
| Deadlines.AckOnTimeIs | app/services/deadlines.py:73-74 | on time is by the end of the seventh day |
| Deadlines.AckStatusIs | app/services/deadlines.py:86-93 | done exactly once acknowledged, else overdue exactly after the seventh day, a warning exactly from five full days on; the day count |
| Deadlines.FeedbackStatusIs | app/services/deadlines.py:96-110 | none without a deadline, done exactly once given, else overdue exactly after it, a warning exactly in its last fifteen days; the days left |
| Deadlines.AckStateMovesOn | app/services/deadlines.py:86-93 | the state only moves on, fine, warning, overdue; the day is at most 7 until overdue and at least 7 then |
| Deadlines.FeedbackStateMovesOn | app/services/deadlines.py:96-110 | the state only moves on; overdue exactly when the days left are negative |
| Deadlines.DashboardAgrees | app/services/report.py:883-899 | for day-floored receipts "decided" is done or overdue, and "on time" is ack_on_time |
| Deadlines.DashboardAgreesIff | app/services/report.py:883-899 | and for no other receipt, in either formula |
| Retention.NeverDeletedEarly | app/services/retention.py:41-51 | an eligible report's remainder days and whole calendar years have passed |
| Retention.ThreeYears | app/services/retention.py:41-51 | for the default 1095 days, three calendar years |
| Retention.DeletedWithinADay | app/services/retention.py:41-51 | a report is eligible at latest a day after its period |
| Retention.CutoffMonotoneIff | app/services/retention.py:41-51 | the cutoff goes on with time except for one leap-day clash |
| Retention.EligibleMonotoneIff | app/services/retention.py:41-51 | eligibility stays exactly but for that clash |
| Retention.EligibleAtNoEarlierTimeOfDay | app/services/retention.py:41-51 | and always at the same or a later time of day |
| Retention.LapseIsShort | app/services/retention.py:41-51 | a lapse concerns reports closed within the difference of the times of day, and is over at the earlier moment's time of day |
| Retention.EligibilityCanLapse | app/services/retention.py:41-51 | a report eligible on 28 February 2028 and not on the 29th |
| Retiming.ClosedForm | migrations/versions/006_whistleblower_times_by_day.py:11-16 | the window expression is the maximum of r(k) + (n - k) over k up to n |
| Retiming.Recurrence | migrations/versions/006_whistleblower_times_by_day.py:14-18 | it is max(r(n), new(n - 1) + 1) |
| Retiming.LeastIncreasing | migrations/versions/006_whistleblower_times_by_day.py:16-17 | it is pointwise the least increasing sequence at or above r |
| Retiming.MigratedIs | migrations/versions/006_whistleblower_times_by_day.py:39-58 | each message gets its midnight if it is the first or the reporter's, else its time, or a microsecond after the one before; nothing else of it changes |
| Retiming.KeepsOrder | migrations/versions/006_whistleblower_times_by_day.py:11 | messages keep their order, strictly |
| Retiming.MigratedTwice | migrations/versions/006_whistleblower_times_by_day.py:17-18 | running it again changes nothing |
| Retiming.Thread.LatestSentAt | app/services/report.py:482-484 | the maximum over a thread |
| Retiming.Thread.AddMessage | app/services/report.py:475-509 | a message is appended after all others, at its earliest time or just after the last |
| Retiming.OnePost | app/services/report.py:475-487 | a live message's time is what the recurrence gives it |
| Retiming.LiveIsRetimed | app/services/report.py:475-487 | a thread grown live has the times of the closed form |
| Retiming.LiveIsMigrated | migrations/versions/006_whistleblower_times_by_day.py:39-58 | the migration leaves a thread grown live as it is |
| Posting.StaysGuarded | app/services/report.py:475-487 | every step of messages posted at once keeps: whoever has read the last time holds the lock, and that is still the last time |
| Posting.OnePostAlone | app/services/report.py:475-509 | one message by itself is appended at its next time, and the lock is free again |
| Posting.TheLockIsLetGo | app/services/report.py:475-481 | whoever holds the lock can commit or give up, and lets it go |
| Posting.AsIfInTurn | app/services/report.py:475-529 | in every run the thread is what the same messages make of it one after the other, in the order of their commits |
| Posting.NoTwoTie | app/services/report.py:478-481 | so no two of them tie, and the migration leaves the thread as it is |
| Posting.WouldTieIff | app/services/report.py:478-487 | two that read the same last time tie exactly if due at one time, or neither later than just after it |
| Lifecycle.Report.constructor | app/services/report.py:190-207 | a new report is valid, with the deadline that runs from its receipt |
| Lifecycle.TransitionsIff | app/models/report.py:36-41 | the transition table in a sentence, both ways |
| Lifecycle.Report.Acknowledge | app/services/report.py:546-558 | the second acknowledgement changes no time; validity is kept |
| Lifecycle.Report.UpdateStatus | app/services/report.py:561-582 | refused exactly for a transition not in the table; closing stamps its own time |
| Lifecycle.Report.AddAdminMessage | app/services/report.py:512-532 | feedback is stamped once, after the acknowledgement |
| Lifecycle.AlwaysValid | app/services/report.py:546-582 | in every run closed_at is set exactly while closed, feedback implies acknowledgement, and the deadline is the statute's |
| Lifecycle.StampedOnce | app/services/report.py:512-556 | in every run of requests one at a time acknowledgement, deadline and feedback keep their first stamp |
| Lifecycle.ClosedWithoutInterruption | app/services/report.py:565-582 | closed_at is when the closure that still lasts began |
| Lifecycle.PickedOnlyAfterItsPeriod | app/services/retention.py:99-107 | the job's SELECT picks only reports closed without interruption for their whole period |
| Lifecycle.MergedIsValidIff | app/services/report.py:546-582 | which overlapping commits leave a row invalid |
| Lifecycle.AcknowledgedTwiceIff | app/services/report.py:546-558 | which overlapping commits replace an acknowledgement |
| Lifecycle.FeedbackTwiceIff | app/services/report.py:512-529 | which overlapping commits replace a feedback's time |
| Lifecycle.StepKeepsIff | app/services/report.py:512-582 | a step of overlapping requests keeps validity and stamps exactly if it is harmless, which the row before it tells |
| Lifecycle.RunsAreKeptIff | app/services/report.py:512-582 | every step of an overlapping run does exactly if each commit is harmless; then the end is valid with the stamps of the start |
| Lifecycle.TwoFirstMessages | app/services/report.py:475-529 | an overlapping run in which the second message replaces the feedback's time |
| Lifecycle.AnOldClosureSurvives | app/services/report.py:565-582 | an overlap after which a later closure keeps an earlier time |
| Histories.InTurnIsOneAtATime | app/services/report.py:512-582 | a history of requests that each load the row before them is a run of requests one at a time |
| Histories.RunIsRecorded | app/services/report.py:512-582 | every run of overlapping requests is such a history |
| Histories.StampComesFrom | app/services/report.py:565-582 | in every history closed_at is the time of a commit that closed the report, and has been there since |
| Histories.ClosedFromIff | app/services/report.py:565-582 | it has been closed from a commit on exactly if no commit since wrote an open status |
| Histories.ClosedSinceItsStampIff | app/services/report.py:565-582 | it has been closed since the commit that stamped it exactly if no request that loaded the row before that commit wrote an open status after it |
| Cleanup.Archive.RunRetentionCleanup | app/services/retention.py:99-136 | alone, the job deletes exactly the reports past their period, each with one audit entry of its closure, and counts them |
| Cleanup.ReopensIff | app/services/report.py:565-582 | a closed report is reopened by being put in review and by nothing else |
| Cleanup.StaysJustified | app/services/retention.py:99-127 | every step of jobs and overlapping requests keeps: whatever a job may delete, or anyone has deleted, was past its period when selected |
| Cleanup.DeletedWhileClosedIff | app/services/retention.py:99-127 | in every run with overlapping requests a deleted report's stamp was past its period and that of a commit that closed it; it was closed from there to its deletion exactly if no stale request opened it up to the SELECT and none after |
| Cleanup.DeletedInTurnIff | app/services/retention.py:99-127 | with requests one at a time: exactly if none put it in review between the two |
| Cleanup.DeletedTooEarly | app/services/retention.py:99-127 | a run in which a report is deleted by the time of a closure that did not last |
| Cleanup.DeletedThoughReopened | app/services/retention.py:99-127 | a run in which a report in review is deleted |
| Branding.Keys.Lookup | app/services/branding.py:89-102 | a snapshot is served exactly if it carries the current version |
| Branding.Keys.Store | app/services/branding.py:85-86 | what is stored is served exactly if the version has not moved |
| Branding.Keys.Invalidate | app/services/branding.py:108-112 | no entry of a load that looked before is served after |
| Branding.AHitAlone | app/services/branding.py:89-102 | a page that hits the cache returns it and changes nothing |
| Branding.AMissAlone | app/services/branding.py:103-105 | one that misses returns the table and leaves it in the cache under the version it saw |
| Branding.ASaveAlone | app/services/branding.py:108-112 | a save changes the table, counts the version up and leaves no entry |
| Branding.ALostEntryIsAMiss | app/services/branding.py:92-102 | an entry that expires or is damaged is a miss |
| Branding.StaysCoherent | app/services/branding.py:85-112 | every step keeps: rows under the current version are as new as every announced save |
| Branding.ASaveIsSeen | app/services/branding.py:109-112 | in every run, a page that looks after a save's increment gets that save or newer, whatever an older load writes |
| Branding.WrittenIsServedIff | app/services/branding.py:96-105 | what a load returns serves later pages exactly if no save was announced between its look and its write |
| Sessions.SessionStore.StoreSession | app/services/auth.py:155-157 | the key holds its user |
| Sessions.SessionStore.RevokeSession | app/services/auth.py:166-169 | true exactly if the session was there; it is gone |
| Sessions.SessionStore.SweepPage | app/services/auth.py:197-201 | one page's keys of the user go, and are counted once |
| Sessions.SessionStore.Sweep | app/services/auth.py:190-205 | on any paging that covers the keyspace, exactly the user's keys under the three prefixes go, but the kept one |
| Sessions.SweepIsTheScript | app/services/auth.py:172-187 | the state machine's sweep is the script; no pending login of the user is left |
| Sessions.TheKeysFollow | app/services/auth.py:155-169 | and logins, refreshes and logouts are what the store's two methods do |
| Sessions.BeginsIff | app/api/auth.py:619-637 | a refresh begins exactly with a token that is stored and past neither its own end nor its login's |
| Sessions.ALoginAlone | app/services/auth.py:80-103 | a login makes a live token of its user from its second |
| Sessions.ARefreshAlone | app/api/auth.py:639-657 | a refresh by itself leaves the new token live and given out, of the same user and login, and the old one not |
| Sessions.ABeatenRefreshAlone | app/api/auth.py:649-651 | one that finds the old token gone deletes the new one and gives out none |
| Sessions.ExpiryIs | app/services/auth.py:86-95 | a token ends with the access minutes or its login's hours, whichever is first, cut to the second |
| Sessions.EveryTokenExpires | app/services/auth.py:83-103 | in every run each token does, counted from the login or refresh that made it |
| Sessions.StaysSound | app/api/auth.py:639-651 | every step keeps lineage, expiry bound and the single winner of a parent's deletion |
| Sessions.OneSuccessor | app/api/auth.py:644-651 | of concurrent refreshes of one token at most one is ever given out, and at most one stays live |
| Sessions.NoRefreshOutlivesItsLogin | app/services/auth.py:86-103 | along any chain of refreshes a session ends SESSION_MAX_HOURS after its login, and stays that user's |
| Sessions.StaysContained | app/api/auth.py:644-651 | every step keeps: a live token the sweep doomed is nobody's, and its refresh will find the parent gone |
| Sessions.NothingSweptComesBack | app/api/auth.py:644-651 | in every run with a sweep no browser holds a live session it ended or one refreshed from it; once no refresh is in flight none is live |
| Rotation.RotationKeepsTheReading | app/services/crypto.py:69-72 | a rotated value says the same under the current key alone; rotation fails exactly where reading does |
| Rotation.OpensIff | app/services/encryption.py:81-99 | a text opens exactly if it was sealed for that use under a configured key, as what was sealed |
| Rotation.FieldOpensIff | app/services/encryption.py:81-99 | a report's field exactly if its wrapped key opens and it was sealed under that one |
| Rotation.MentionsIff | scripts/rotate_encryption_key.py:70-90 | the LIKE finds the quoted key in any detail that has it in its text |
| Rotation.SelectedIff | scripts/rotate_encryption_key.py:26-90 | what the script selects, table by table |
| Rotation.CrashesIff | scripts/rotate_encryption_key.py:34-43 | a SELECT of details crashes exactly on one that mentions the key and is no object with it |
| Rotation.OneSource | scripts/rotate_encryption_key.py:70-90 | no cell is selected by two sources |
| Rotation.ReadSource | scripts/rotate_encryption_key.py:96-104 | one SELECT: each readable row is planned with the same reading, the others fail |
| Rotation.GathersMore | scripts/rotate_encryption_key.py:95-104 | another SELECT keeps the plan complete and one write a cell, whatever others wrote meanwhile |
| Rotation.Database.ReadAll | scripts/rotate_encryption_key.py:92-104 | the first pass writes nothing and plans every readable value |
| Rotation.Database.UpdateOne | scripts/rotate_encryption_key.py:118-129 | a row changed meanwhile is left as written |
| Rotation.Database.WriteAll | scripts/rotate_encryption_key.py:115-130 | afterwards every value is under the current key; skipped rows are among those others touched |
| Rotation.Database.Rotate | scripts/rotate_encryption_key.py:59-137 | refused or crashed, the database is as the others left it and the unreadable rows are named; completed, every value reads under the current key alone, unchanged unless others rewrote it, and the counts add up to the cells selected |
| Rotation.NothingIsLeftBehind | scripts/rotate_encryption_key.py:12-15 | completed, every wrapped key, contact field, authenticator secret and audited reason or term is sealed under the current key |
| Rotation.NothingIsGarbled | scripts/rotate_encryption_key.py:92-137 | completed, each of them that others left alone says what it said, and what the script does not select is untouched |
| Rotation.ReportsReadTheSame | app/services/encryption.py:81-99 | every report's own fields read as before with the current key alone |
| Rotation.SafeToRunTwice | scripts/rotate_encryption_key.py:12-15 | a second run finds nothing unreadable |
| Accounts.Makers | app/api/admin.py:866-873 | ends on every finite table, cycles included, with exactly the accounts reached by maker links |
| Accounts.OneMadeTheOther | app/api/admin.py:856-875 | true exactly if one account reaches the other |
| Accounts.ConfirmDelete | app/api/admin.py:878-902 | confirmed exactly if requested and the two accounts, if the requester is still there, are unrelated and distinct |
| Accounts.ReachesThrough | app/api/admin.py:856-862 | a maker's makers count |
| Accounts.SiblingsAreNot | app/api/admin.py:856-875 | two accounts of one maker that nobody made do not |
| Accounts.ResetsMakeACycle | app/api/admin.py:1497-1505 | two superadmins who reset each other are each other's makers |
| Accounts.CycleIff | app/api/admin.py:1244-1505 | on a table without cycles a request makes one exactly if it resets, with its password, an account that the actor's makers lead to |
| Accounts.ReachesAnewIff | app/api/admin.py:856-875 | what an account reaches once another has a new maker, by the links there were |
| Accounts.RelatedAfterIff | app/api/admin.py:1244-1505 | for every request, which two accounts are related after it |
| Accounts.AResetUnrelates | app/api/admin.py:1497-1505 | a reset after which a maker and the account its account made are two pairs of eyes |
| Accounts.Directory.MayManageTarget | app/api/admin.py:96-117 | only a superadmin may manage a superadmin |
| Accounts.MayActIff | app/api/deps.py:24-120 | who may enrol, change a password, manage accounts, reset an authenticator |
| Accounts.FineIff | app/api/admin.py:96-1480 | which requests go through, in one condition each, and which are refused as missing, wrong or unprocessable |
| Accounts.NewOrgIs | app/api/admin.py:1218-1310 | the organisation of a new account |
| Accounts.Directory.ChangeUserRole | app/api/admin.py:1314-1373 | its outcome and the new table; an active superadmin remains |
| Accounts.Directory.DeactivateUser | app/api/admin.py:1377-1420 | its outcome and the new table; an active superadmin remains |
| Accounts.Directory.ReactivateUser | app/api/admin.py:1424-1448 | its outcome and the new table; an active superadmin remains |
| Accounts.Directory.ResetUserTotp | app/api/admin.py:1452-1515 | its outcome and the new table; who set a password is related to its account |
| Accounts.Directory.CreateUser | app/api/admin.py:1218-1310 | its outcome and the new table, in the organisation it belongs to; maker and account are related |
| Accounts.OnlySuperadminsTouchSuperadmins | app/api/admin.py:96-117 | no one else makes, changes or stops a superadmin |
| Accounts.OwnOrganisationOnly | app/api/admin.py:89-107 | with several organisations nobody else changes or makes an account outside their own |
| Accounts.DemoAccountsStay | app/api/admin.py:98-117 | in the demo nobody changes a demo account but its holder |
| Accounts.AlwaysGoverned | app/api/admin.py:1328-1364 | in every run of requests taking effect one at a time an active superadmin remains, one with an authenticator if there was one |
| Accounts.TheCountNeverRefuses | app/api/admin.py:1346-1357 | the last-administrator check never fires for such a request |
| Accounts.OnlyItsColumns | app/api/admin.py:1314-1515 | a commit onto what the table has become changes its own columns of its own account |
| Accounts.CommitGovernsIff | app/api/admin.py:1314-1420 | a commit onto whatever the table has become leaves an active superadmin exactly if there is one by then that it does not stop |
| Accounts.TwoAtOnceGovernIff | app/api/admin.py:1314-1420 | two overlapping requests of any kind leave one unless two superadmins, with no third, each stop the other |
| Accounts.TwoAtOnce | app/api/admin.py:1397-1409 | two superadmins with no third who deactivate each other at once leave none, although each request counts the administrators |
| Contrast.WhiteTimesBlack | app/services/brand_colour.py:57-59 | a fill's contrasts with white and black multiply to 21 |
| Contrast.LuminanceIs | app/services/brand_colour.py:48-54 | the three primaries' shares, which add up |
| Contrast.ContrastIs | app/services/brand_colour.py:57-59 | the ratio of the lighter to the darker, in either order |
| Contrast.TextIsReadable | app/services/brand_colour.py:68-70 | the text colour chosen reaches 4.5:1 on every fill |
| Contrast.MixChannel | app/services/brand_colour.py:62-65 | a mix stays between its ends, and reaches the far one |
| Contrast.MixIs | app/services/brand_colour.py:62-65 | and is the nearest channel to the weighted mean, half up |
| Contrast.PrintedIsParsed | app/services/brand_colour.py:37-65 | a colour written as "#rrggbb" is read as itself |
| Contrast.ThemesAre | app/services/brand_colour.py:12-86 | the two themes, as they are written |
| Contrast.Readable | app/services/brand_colour.py:73-78 | the first of the fifty-one steps readable on every background, else the end |
| Contrast.StepsAre | app/services/brand_colour.py:73-78 | the steps go from the colour itself to the end, in fiftieths of the way |
| Contrast.ReadableStays | app/services/brand_colour.py:73-78 | a colour that is readable already is left as it is |
| Contrast.TowardIsReadable | app/services/brand_colour.py:83-86 | each theme's end is readable on its canvas, card and every tint |
| Contrast.HoverReadsNoWorse | app/services/brand_colour.py:101-102 | the hover fill never lowers the text's contrast |
| Contrast.TokensFor | app/services/brand_colour.py:89-103 | for any colour: the accent reaches 4.5:1 on canvas, card and tint, the text on the fill too, and no less on hover |
| Geometry.Hits | scripts/diagram_geometry.py:250-267 | true exactly if some point of the segment is in the closed box, degenerate boxes and segments included |
| Geometry.Narrow | scripts/diagram_geometry.py:256-265 | one side narrows the window of parameters to exactly those it allows |
| Geometry.Curve | scripts/diagram_geometry.py:123-136 | the loops compute eight points of de Casteljau's curve |
| Geometry.CurveStaysInside | scripts/diagram_geometry.py:123-136 | a box that holds the control points holds the curve |
| Geometry.SamplesAreBounded | scripts/diagram_geometry.py:102-136 | every sample lies in the control points' bounding box |
| Geometry.BoundsHold | scripts/diagram_geometry.py:102-104 | the bounding box holds every point |
| Geometry.BoundsAreTight | scripts/diagram_geometry.py:102-104 | and lies in every box that does |
| Geometry.EndsAtTheEnd | scripts/diagram_geometry.py:123-124 | the last sample is the end point |
| Geometry.QuadraticBezier | scripts/diagram_geometry.py:123-136 | with three control points it is the quadratic Bezier curve |
| Geometry.CubicBezier | scripts/diagram_geometry.py:123-136 | with four it is the cubic one |
| Diamonds.IsInside | scripts/diagram_geometry.py:270-276 | the loop counts whether the ray meets the polygon's edges an odd number of times |
| Diamonds.MeetsBothWays | scripts/diagram_geometry.py:273-275 | an edge is met whichever way it is drawn |
| Diamonds.ClosedIsAlike | scripts/diagram_geometry.py:148-151 | on any polygon, closing the path by its first point changes no answer |
| Diamonds.DrawnIsFound | scripts/diagram_geometry.py:270-276 | on a diamond, closed or open, from any corner and either way round, the test accepts the open diamond and nothing outside the closed one |
| Diamonds.ADrawnDecision | docs-tech/img/diagrams/identity-reveal-light.svg:2 | a decision's closed outline as the diagrams have it is one |
| Diamonds.EveryOutlineDraws | scripts/diagram_geometry.py:148-151 | the sixteen outlines of a diamond: four corners, two ways, open or closed |
| Diamonds.FitsDecision | scripts/diagram_geometry.py:287-290 | all four corners of the padded text are tested |
| Diamonds.NearIs | scripts/diagram_geometry.py:28-29 | the padded text is three units wider on either side and two higher above and below |
| Diamonds.FittingTextIsInTheDiamond | scripts/diagram_geometry.py:287-290 | then every point of the padded text is in the diamond |
| Diamonds.TextInTheDiamondFits | scripts/diagram_geometry.py:287-290 | a padded text strictly in the diamond fits |

## Left out

- The pages, routes, templates, cookies, CSRF, mail, LDAP, OIDC, telemetry and PDF output around all of this.
- Cryptography: a token is its key and plaintext, a session token its claims; keys derived from different roots differ.
- Submission: what a draft contains and which checks it fails (a body number and a choice), PINs, the retry on a case-number collision, attachments stored before a failed commit, Redis room checks, more than one draft.
- Submission, progress: with a draft and a claimed key both there and "pending" gone, claims and recoveries wait for a key to expire; only safety is proved there.
- Submission, time: that the timeouts end a submit, a lookup and a COMMIT in time is the event loop's and the database's part; requests to Redis take no time of their own.
- Submission, pages: a page may save the state it loaded at any later time, even a spent draft; what that brings about is `SubmitRuns.SpentDraftCanBeGivenBack`.
- Jpeg.StripPrinted: for well-formed files; what else is stripped of a malformed one is stated only as the walk that decides it.
- Jpeg.StripTwiceWhereAlike: one direction; a scan that goes on may still end where it did, and then a second pass changes nothing either.
- Webp.StripPrinted: for well-formed files; size and flags are proved for any input.
- Webp.StripTwiceWhereChunksFit: for files whose chunks end within the RIFF body; of one whose last chunk runs over it only size and flags are stated.
- Png.StripTwice: the orientation reader and CRC-32 are parameters; asked of the reader is that it reads back what is written, a law of the imaging library.
- The strippers for GIF, TIFF, PDF and office files, and deciding which stripper a file gets.
- Rekey.EveryRowStillReads: rows are assumed to have objects of their own, and new UUIDs to be new; uploads and deletions during a run are not modelled, nor are files kept in the database or a file's content type.
- Calendar: years before 1 and after 9999, at which Python raises; time zones, all moments being UTC; the `date_trunc` of the database.
- Cleanup: the lock that keeps replicas from running the job at once is not modelled, so any number of jobs may; stored objects, sessions and reminders of a deleted report.
- Lifecycle: assignments, notes, links and the deletion request's own row.
- Branding.ASaveIsSeen: the version key is not lost while pages load; the fallback when Redis is unreachable, and how the rows resolve to a brand.
- Sessions.NothingSweptComesBack: a login stores its session in one step with making it; one past its password when the sweep runs may store it afterwards. Roles in claims and the checks on the account itself.
- Sessions.OneSuccessor: a refresh that stops half-way counts as in flight; its token may stay live until it expires, held by nobody.
- Rotation.Database.Rotate: the application beside it seals under the current key; JSON is compared as an object, not as text; the startup check is not modelled.
- Accounts.AlwaysGoverned: requests take effect one at a time; for those that overlap the exact condition is per commit and per pair. User names, passwords, the demo seed and the command-line reset.
- Contrast.TokensFor: over the reals, with the sRGB curve as a parameter of which a few bounds are asked (`Contrast.TheSquareIsPlausible` meets them); the fixed tokens of the default colour and the parsing of colours.
- Geometry: over the reals; text metrics, path parsing and the diagram rules.
- Diamonds.DrawnIsFound: on the boundary itself the test accepts some sides and not others.
