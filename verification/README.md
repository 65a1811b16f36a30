# Verified model of the applicant-tracking backend

This Dafny project models the parts of the backend whose behaviour is decided by its own code, and
proves what those parts are for. `dafny verify dfyconfig.toml` checks everything.

- **Workbook export** (`Crc32`, `Zip`, `Workbook`): the bit-at-a-time CRC-32, the byte-exact archive writer with its
  running offset, and the sheet markup, each against a reader that follows the format's own description (section 8 of
  RFC 1952; sections 4.3.7, 4.3.12 and 4.3.16 of PKWARE APPNOTE.TXT; sections 2.2, 2.11 and 3.3.3 of XML 1.0).
- **Resume preview** (`ResumePreview`): a byte-bounded first-in-first-out cache with single flight and an admission
  limit. The service's callbacks are methods on its three fields; every interleaving of calls, answers, callbacks and
  clock readings is a run of a transition system built from their specifications.
- **Pods** (`Pods`, `RoundRobin`): membership and leadership over runs of create, update and remove, and the
  round-robin allocator under the unit's row lock.
- **Custom email domains** (`EmailDomain`): saves, verifications, mode changes and sends of one tenant, interleaved
  between their awaits.
- **Assessment** (`Text`, `JsMap`, `SkillIndex`, `AssessmentJob`, `AssessmentScore`, `AssessmentBreakdown`): skill terms
  and their index, completion of a job's skill lists, and the weighted score.
- **Submissions** (`RoundUpdate`, `History`, `DeliveryPipeline`): round corrections and their gating, the audit log
  under concurrent saves, and the three encodings of a submission's stage with the counts built on them.
- **Money, rates and weeks** (`Digits`, `Compensation`, `Rates`, `Weeks`): fixed-point compensation, the commercial
  rate parser and printer, and weekly performance counts.

`Prelude` holds the shared value types. Where the service changes state step by step the model does too: methods with
loops and `modifies` clauses, proved equal to a specification function, and the theorems are about that function.
Inductive proofs make their recursive calls themselves: no lemma rests on an induction hypothesis added by the verifier.

Six statements come out differently from what one might expect of the code; each has a lemma with the failing case and
one with the exact condition:

- Listing one more skill can lower a score, because skills are deduplicated by a coarser term than they are matched by
  (`AssessmentScore.PunctuationLowersScore`, `AssessmentScore.NeverLowersExactlyWhen`).
- A save of an email domain that overlaps a failing re-verification of that same domain puts the lowered flag back up
  (`EmailDomain.SaveRestoresALoweredFlag`, `EmailDomain.FreshThroughoutExactly`); the domain did pass earlier, so the
  safety statement still holds.
- A rate without a currency is shown with a leading dash and cannot be saved again as shown
  (`Rates.FiveIsNotReadBack`, `Rates.PersistedResavesExactlyWhen`).
- An update of a pod reads the pod before its transaction, and a creation checks its users before it writes. When
  another call changes the head in between, the former head can be left with a Pod Lead role for no pod
  (`Pods.OverlappingHeadChangesBreakInv`, `Pods.UpdateKeepsInvExactly`); when two creations name one head, one user can
  end up heading two pods (`Pods.TwoCreationsBreakInv`, `Pods.LateCreateKeepsInvExactly`). A run of overlapping calls
  stays sound throughout exactly when no transaction is overtaken in one of these two ways
  (`Pods.OverlappingRunKeepsInvExactly`).
- Promotion followed by demotion gives a user without a primary role a primary role as soon as a non-lead role is
  assigned (`Pods.AssignedRoleBecomesPrimary`, `Pods.PromoteThenDemote`).
- A cell's text does not always read back as it was: the cut can split a character (`Workbook.CutSplitsCharacter`), an
  XML reader turns carriage returns into line feeds (`Workbook.CarriageReturnIsLost`), and it refuses two characters
  that the cleaning lets pass (`Workbook.NoncharacterIsRefused`); the exact condition is
  `Workbook.TextSurvivesExactlyWhen`.

## Model

| member | source | states |
|---|---|---|
| Crc32.Crc32 | src/jobs/job-export-workbook.ts:4-8 | the nested loops over an array compute the checksum function that the lemmas below are about |
| Crc32.ChecksumFits | src/jobs/job-export-workbook.ts:4-8 | a checksum always fits 32 bits |
| Crc32.StepIsBijective | src/jobs/job-export-workbook.ts:6 | one turn of the inner loop is a bijection on 32-bit registers, with an explicit inverse on both sides |
| Crc32.StepIsLinear | src/jobs/job-export-workbook.ts:6 | a turn distributes over exclusive or |
| Crc32.TableAgrees | src/jobs/job-export-workbook.ts:4-8 | the bit loop equals the table-driven register update on every byte string and start register |
| Crc32.LowByte | src/jobs/job-export-workbook.ts:6 | the eight low digits are the remainder modulo 256, the table's index, and dropping them is the shift by eight bits |
| Crc32.ChecksumByTable | src/jobs/job-export-workbook.ts:4-8 | the whole checksum is the table-driven one |
| Crc32.TableIsStandard | src/jobs/job-export-workbook.ts:6 | all 256 entries of the table are those of section 8 of RFC 1952, whose eight entries at powers of two are given as numbers |
| Crc32.ResidueIsConstant | src/jobs/job-export-workbook.ts:4-8 | a file followed by its own checksum has the same checksum whatever the file |
| Crc32.ChecksumOfOnes | src/jobs/job-export-workbook.ts:5-7 | the register starts with all ones and is inverted at the end: four bytes of ones have the checksum 0xffffffff |
| Crc32.BurstChangesChecksum | src/jobs/job-export-workbook.ts:4-8 | changing any bytes within a window of four, in particular one byte, always changes the checksum |
| Zip.WriteUInt16LE | src/jobs/job-export-workbook.ts:21-25 | a 16-bit little-endian field lands at its offset and nowhere else, or the value is refused as too large |
| Zip.WriteUInt32LE | src/jobs/job-export-workbook.ts:21-25 | the same for a 32-bit field |
| Zip.BuildLocalHeader | src/jobs/job-export-workbook.ts:20-21 | the 30-byte local header, produced exactly when its fields fit |
| Zip.BuildCentralHeader | src/jobs/job-export-workbook.ts:22 | the 46-byte directory header with the file's offset, produced exactly when its fields fit |
| Zip.BuildHeaders | src/jobs/job-export-workbook.ts:20-22 | both headers of a file carry the one checksum of its content |
| Zip.BuildEndRecord | src/jobs/job-export-workbook.ts:25 | the 22-byte end record, produced exactly when counts and sizes fit |
| Zip.LocalHeaderBytes | src/jobs/job-export-workbook.ts:21 | the local header byte by byte: signature, version 2.0, stored, checksum, sizes, length of the name |
| Zip.CentralHeaderBytes | src/jobs/job-export-workbook.ts:22 | the directory entry byte by byte, ending in the offset of the local header |
| Zip.EndRecordBytes | src/jobs/job-export-workbook.ts:25 | the end record byte by byte |
| Zip.Export | src/jobs/job-export-workbook.ts:18-26 | the writer succeeds exactly when every 16- and 32-bit field fits, and then emits local records, directory and end record at the offsets it recorded |
| Zip.LocalRecordAt | src/jobs/job-export-workbook.ts:21-23 | each local record lies at the sum of the sizes before it, which is the running offset |
| Zip.CentralRecordAt | src/jobs/job-export-workbook.ts:22-23 | each directory entry lies at its place and holds the offset of its local record |
| Zip.RoundTrip | src/jobs/job-export-workbook.ts:18-26 | reading from the end record to the directory to each local record gives back exactly the exported files in order; the reader checks the checksum and sizes in both headers and the checksum of the content, and takes every field as a plain value |
| Workbook.UnescapeEscaped | src/jobs/job-export-workbook.ts:3 | unescaping recovers every escaped text of allowed characters, and refuses every other one |
| Workbook.EscapedIsInert | src/jobs/job-export-workbook.ts:3 | escaped text holds no angle bracket and no quote |
| Workbook.SheetReadsBack | src/jobs/job-export-workbook.ts:16 | a reader of the tags recovers every row with its number and every cell, cut, cleaned and with line feeds for line ends, exactly unless some text has a character XML does not allow |
| Workbook.NameReadsBack | src/jobs/job-export-workbook.ts:14 | a sheet name written into an attribute ends at the attribute's closing quote and reads back cleaned, with blanks for other white space, unless it has a character XML does not allow |
| Workbook.CellMarkup | src/jobs/job-export-workbook.ts:16 | how a number, a text and an empty cell are marked up, the text cut to 32,767 units, cleaned and escaped |
| Workbook.RowMarkup | src/jobs/job-export-workbook.ts:16 | how a row with its number is marked up |
| Workbook.CutKeepsExactly | src/jobs/job-export-workbook.ts:16 | the cut keeps a text exactly when its UTF-16 length is within the limit |
| Workbook.BasicTextLength | src/jobs/job-export-workbook.ts:16 | a text of characters below 2^16 is measured by its length |
| Workbook.CutSplitsCharacter | src/jobs/job-export-workbook.ts:16 | a character of two units that the limit falls into becomes the replacement character |
| Workbook.TextSurvivesExactlyWhen | src/jobs/job-export-workbook.ts:3-16 | a text cell reads back as its own text exactly when it is short enough, in XML's character range and without carriage return |
| Workbook.LongTextIsLost | src/jobs/job-export-workbook.ts:3-16 | the first failing case: a text over the limit never reads back as itself |
| Workbook.CarriageReturnIsLost | src/jobs/job-export-workbook.ts:3-16 | the second: a cell holding a carriage return reads back as a line feed |
| Workbook.NoncharacterIsRefused | src/jobs/job-export-workbook.ts:3-16 | the third: a cell holding U+FFFE or U+FFFF passes the cleaning and is refused by an XML reader |
| ResumePreview.ConvertExactly | src/candidates/resume-preview.service.ts:40-58 | an answer is taken exactly when it carries a page count from 1 to 30 for page 0, or a PNG image within ten mebibytes for another page, and then it is that number or those bytes |
| ResumePreview.ResumePreviewService.Sweep | src/candidates/resume-preview.service.ts:22 | deleting while walking keeps exactly the unexpired entries, in order, and the byte count follows |
| ResumePreview.ResumePreviewService.Render | src/candidates/resume-preview.service.ts:17-38 | one call's whole effect: invalid, hit, join, refuse or start |
| ResumePreview.ResumePreviewService.Store | src/candidates/resume-preview.service.ts:28-36 | the eviction loop and the store as one state change |
| ResumePreview.FinallyIsSafe | src/candidates/resume-preview.service.ts:36 | the final callback keeps every safety property |
| ResumePreview.FinallyFreesPlace | src/candidates/resume-preview.service.ts:36 | the final callback frees its own key's place, which was this operation's, and no other |
| ResumePreview.UnexpiredMembers | src/candidates/resume-preview.service.ts:22 | the sweep keeps an entry exactly when it has not expired |
| ResumePreview.UnexpiredKeepsOrder | src/candidates/resume-preview.service.ts:23 | and keeps their order |
| ResumePreview.VictimsAreMinimal | src/candidates/resume-preview.service.ts:29-33 | eviction removes the shortest oldest-first prefix that makes room |
| ResumePreview.StoreKeepsCache | src/candidates/resume-preview.service.ts:28-36 | storing drops exactly those from the old end, puts the new entry last with its expiry, and keeps the accounting |
| ResumePreview.RunIsSafe | src/candidates/resume-preview.service.ts:17-38 | over every interleaving: bytes equals the cache's size and stays within 32 MiB, at most four keys pending, one conversion per key, no key stored twice, every value came from a conversion of its key |
| ResumePreview.SingleFlight | src/candidates/resume-preview.service.ts:25-37 | two conversions of one key are never in flight together |
| ResumePreview.ThenNeverDoubleStores | src/candidates/resume-preview.service.ts:28-35 | whenever a result arrives, its key is not cached and the byte count is exact |
| ResumePreview.RefusedOnlyWhenFull | src/candidates/resume-preview.service.ts:23-27 | a call is refused exactly when four keys are pending and its own is neither pending nor freshly cached |
| ResumePreview.HitsAreFresh | src/candidates/resume-preview.service.ts:22-24 | a cached answer belongs to the key and has not expired |
| ResumePreview.DeliveriesWereAnswered | src/candidates/resume-preview.service.ts:22-57 | over all runs, whatever is cached or delivered for a key was carried by an answer to a conversion of that key |
| ResumePreview.StoredIsServed | src/candidates/resume-preview.service.ts:22-35 | a stored value is handed out again for five minutes and no longer |
| ResumePreview.RequestIsServed | src/candidates/resume-preview.service.ts:18-39 | an undisturbed request whose answer carries a value delivers it and frees its place |
| ResumePreview.RequestFails | src/candidates/resume-preview.service.ts:18-39 | with any other answer nothing is delivered or cached, and the place is freed as well |
| ResumePreview.WithinLimits | src/candidates/resume-preview.service.ts:26-35 | over all runs at most 32 mebibytes are cached and at most four conversions pending, an entry counting its bytes, or 64 for a page count |
| RoundRobin.PodTable.AllocateAutomaticPod | src/jobs/automatic-pod.ts:12-30 | the transaction's result and flags in every case, errors and the empty list included |
| RoundRobin.TakesNext | src/jobs/automatic-pod.ts:24-29 | with the first m pods taken, an allocation takes the next one and leaves m + 1 taken, reopening all first when none is left |
| RoundRobin.RoundRobinFrom | src/jobs/automatic-pod.ts:19-30 | from a cycle with m pods taken, allocation k picks pod (m + k) modulo n |
| RoundRobin.RoundRobin | src/jobs/automatic-pod.ts:19-30 | from an open cycle, allocation k picks pod k modulo n |
| RoundRobin.EveryPodIsServed | src/jobs/automatic-pod.ts:19-30 | from any flags every eligible pod is picked within 2n - 1 allocations |
| RoundRobin.OthersUntouched | src/jobs/automatic-pod.ts:26-29 | flags of pods outside the eligible list never change |
| RoundRobin.InterleavingIsSerial | src/jobs/automatic-pod.ts:11-30 | with the row lock, any interleaving of publications, resets, pod creations and pod removals equals whole operations one after the other, a publication that pods drop out of being one over the pods that stay |
| RoundRobin.OncePerCycle | src/pods/pods.service.ts:1007-1014 | between two picks of a pod in a serial log, the cycle was reopened |
| RoundRobin.ConcurrentPicksAreFair | src/jobs/automatic-pod.ts:7-30 | no interleaving picks a pod twice in one cycle |
| RoundRobin.PublicationCommits | src/jobs/automatic-pod.ts:11-30 | a publication that nothing disturbs commits one allocation and frees the row |
| RoundRobin.RollbackRestores | src/jobs/automatic-pod.ts:9-11 | one that is rolled back leaves everything as it was |
| RoundRobin.TableChanges | src/pods/pods.service.ts:1007-1014 | a reset opens every pod; a new pod is open, a removed one gone |
| Pods.PromoteThenDemote | src/pods/pods.service.ts:123-184 | promotion then demotion restores the primary role exactly when it was not a lead role, or was missing with no other role held |
| Pods.AssignedRoleBecomesPrimary | src/pods/pods.service.ts:123-184 | the failing case: a user with one assigned role and no primary one comes back with it as primary |
| Pods.PromotionRoles | src/pods/pods.service.ts:123-138 | promotion keeps all other roles and leaves exactly the one lead role |
| Pods.DemotionRoles | src/pods/pods.service.ts:168-184 | demotion keeps all other roles and leaves no lead role |
| Pods.DemotionKeepsPrimary | src/pods/pods.service.ts:174-184 | demotion keeps a primary role that is no lead role, and otherwise makes the first other role held primary |
| Pods.CycleSettles | src/pods/pods.service.ts:108-187 | a second promotion and demotion changes nothing further |
| Pods.Validate | src/pods/pods.service.ts:196-288 | validation passes exactly when every listed user exists and none is disqualified |
| Pods.LeadRoleExactly | src/pods/pods.service.ts:110-122 | the role given to a new head is the one Pod Lead role the unit has of its own, without one the first system template, and more than one or none at all is an error |
| Pods.HeadsOnePod | src/pods/pods.service.ts:464-558 | under the invariant a user heads at most one pod |
| Pods.CreateKeepsInv | src/pods/pods.service.ts:486-558 | a creation keeps the invariant and moves nobody between pods |
| Pods.UpdateKeepsInv | src/pods/pods.service.ts:812-947 | an update that nothing overtakes keeps the invariant and moves nobody between pods |
| Pods.UpdateMovesNobody | src/pods/pods.service.ts:844-945 | whatever it read before, an accepted update moves nobody from one pod to another |
| Pods.UpdateKeepsInvExactly | src/pods/pods.service.ts:812-945 | an accepted update keeps the invariant exactly when the head it read before its transaction still fits |
| Pods.OverlappingRunKeepsInvExactly | src/pods/pods.service.ts:464-989 | a run of overlapping calls keeps the invariant throughout exactly when no accepted update finds an unfitting change of head and no creation writes after one of its users became a head |
| Pods.LateCreateKeepsInvExactly | src/pods/pods.service.ts:486-556 | the writes of a creation keep the invariant exactly when none of the users it names heads a pod by then |
| Pods.LateCreateMovesNobodyExactly | src/pods/pods.service.ts:486-556 | they move nobody between pods exactly when all users they name are still free |
| Pods.SecondCreationBreaksInv | src/pods/pods.service.ts:486-556 | of two creations that both pass their checks before either writes, the second breaks the invariant when it names the first one's head |
| Pods.TwoCreationsBreakInv | src/pods/pods.service.ts:486-556 | the failing case: two such creations on concrete rows end with one user heading two pods |
| Pods.SecondHeadChangeBreaksInv | src/pods/pods.service.ts:812-945 | of two updates that read a pod before either writes, naming different new heads, the second always breaks the invariant |
| Pods.OverlappingHeadChangesBreakInv | src/pods/pods.service.ts:812-945 | the failing case: two such updates on concrete rows, both accepted |
| Pods.RemoveKeepsInv | src/pods/pods.service.ts:967-989 | a removal keeps the invariant and moves nobody between pods |
| Pods.CreateAcceptedExactly | src/pods/pods.service.ts:464-558 | exactly which creations are accepted: unit and branch, a free name whatever its case, eligible free members, a head that leads no pod, a Pod Lead role |
| Pods.SameNameExactly | src/pods/pods.service.ts:488-494 | names are the same when they agree letter by letter whatever the case |
| Pods.CreateWritesExactly | src/pods/pods.service.ts:534-556 | who is in the new pod afterwards, whose roles change and to what, and that nothing else about a user changes |
| Pods.CreateWritesPod | src/pods/pods.service.ts:530-541 | the new pod holds the given name, unit and head and the unit's branch if it has one; no other pod changes |
| Pods.UpdateAcceptedExactly | src/pods/pods.service.ts:812-906 | exactly which updates are accepted, for any earlier read of the pod |
| Pods.UpdateMembersExactly | src/pods/pods.service.ts:919-945 | with a list of recruiters the members afterwards are exactly the head and those listed; without one only a newly promoted head moves |
| Pods.UpdateRolesExactly | src/pods/pods.service.ts:908-926 | the head named leads the unit, the head replaced leads nothing more, all other roles stay |
| Pods.UpdateWritesPod | src/pods/pods.service.ts:818-906 | given fields are written, the others as they were read; a new unit brings its branch |
| Pods.WholeUpdateAcceptedExactly | src/pods/pods.service.ts:812-947 | an update that nothing overtakes is accepted exactly when its pod is there and these conditions hold of the rows it finds |
| Pods.CallTakesEffect | src/pods/pods.service.ts:464-989 | an accepted call of a run takes effect, a refused one changes no row |
| Pods.RemoveAcceptedExactly | src/pods/pods.service.ts:967-976 | a pod is removed exactly when it is there and has no jobs |
| Pods.RemoveWritesExactly | src/pods/pods.service.ts:978-981 | the members are free afterwards, the head leads nothing more unless heading another pod |
| Pods.RunKeepsInv | src/pods/pods.service.ts:464-989 | over all runs of whole calls, failed calls included: heads are members of their one pod, a user has a Pod Lead role exactly when heading a pod and then one, no direct moves |
| Pods.PodsService.ValidateRecruiters | src/pods/pods.service.ts:196-288 | the validation loops find a missing user, or the first objection |
| Pods.OrderOnlyPicksTheError | src/pods/pods.service.ts:241-287 | the order in which the rows come only decides which of several objections is reported |
| Pods.PodsService.PromoteToPodHead | src/pods/pods.service.ts:108-138 | the promoted user's primary role is the unit's lead role, the only lead role held, and all other roles stay; or the error with no change |
| Pods.PodsService.DemoteFromPodHead | src/pods/pods.service.ts:147-184 | the user keeps all other roles, and loses all lead roles unless heading another pod |
| Pods.PodsService.CreatePod | src/pods/pods.service.ts:464-558 | all rows after a creation, or the first error with every row restored |
| Pods.PodsService.CommitUpdate | src/pods/pods.service.ts:844-945 | all rows after an update's transaction for any earlier read of the pod, or the first error with every row restored |
| Pods.PodsService.UpdatePod | src/pods/pods.service.ts:812-947 | all rows after an update, or the first error with every row restored |
| Pods.PodsService.RemovePod | src/pods/pods.service.ts:967-989 | all rows after a removal, or the error with every row restored |
| EmailDomain.RunIsSafe | src/email/system-mail.service.ts:302-415 | under every interleaving the flag is up only for a stored domain that one verification was shown to own and the provider then passed, and every custom use follows such a verification and both of its own checks |
| EmailDomain.SendsAreEarned | src/email/system-mail.service.ts:533-545 | for every custom-domain send, the positions of the verification's two answers and then of the send's own two answers |
| EmailDomain.UsesBegin | src/email/system-mail.service.ts:533-545 | over all runs, every send from the domain began with a row in the custom mode that stored this domain with its flag up, and every choice of the mode with such a domain and flag |
| EmailDomain.CustomModeWasChosen | src/email/system-mail.service.ts:302-326 | the custom mode is on only if it was to begin with or some call chose it |
| EmailDomain.SendGoesOut | src/email/system-mail.service.ts:533-545 | a send from such a row whose checks all pass goes out from the domain |
| EmailDomain.SendStops | src/email/system-mail.service.ts:533-545 | any other send does not go out from a domain |
| EmailDomain.SaveRestoresALoweredFlag | src/email/system-mail.service.ts:323-363 | the failing case: a listed run of fourteen events in which a save raises a flag that a failed verification had lowered |
| EmailDomain.FreshnessIsKeptExactly | src/email/system-mail.service.ts:353-402 | one step keeps the flag in line with the last verification exactly when it is not a save writing a flag that is stale |
| EmailDomain.FreshThroughoutExactly | src/email/system-mail.service.ts:302-415 | a run keeps it so throughout exactly when none of its events is such a save |
| EmailDomain.CarriersStayFreshExactly | src/email/system-mail.service.ts:323-402 | a flag carried by a save becomes stale exactly when a failing verification of that domain lands while it is carried |
| EmailDomain.FreshUnlessUndermined | src/email/system-mail.service.ts:302-415 | a run without such a landing keeps the flag in line with the last verification |
| EmailDomain.StaleCarrierRaisesFlag | src/email/system-mail.service.ts:323-363 | once a carried flag is stale, letting its save finish raises it |
| EmailDomain.SystemMail.SaveDomain | src/email/system-mail.service.ts:323-364 | the row after an uninterrupted save, equal to running its four steps |
| EmailDomain.SystemMail.VerifyDomain | src/email/system-mail.service.ts:379-415 | the row and answer of an uninterrupted verification, equal to running its five steps |
| EmailDomain.SystemMail.Send | src/email/system-mail.service.ts:426-545 | whom a mail goes out from in each mode, and when it is refused; it equals running the four steps |
| EmailDomain.SystemMail.SetMode | src/email/system-mail.service.ts:302-326 | the mode a request leaves behind, and when it is refused; it equals running the four steps |
| Text.TrimOfPadded | src/jobs/assessment-skill-dictionary.ts:8-11 | white space around a text does not show after trimming |
| Text.CollapseOfPadded | src/jobs/assessment-skill-dictionary.ts:8-11 | nor after collapsing runs of white space |
| Text.CollapseAtRun | src/jobs/candidate-assessment.ts:72 | a run of white space inside a text becomes one blank |
| Text.CollapseKeepsDark | src/jobs/candidate-assessment.ts:72 | text without white space stays |
| Text.LowerLetters | src/jobs/candidate-assessment.ts:72 | exactly the capital letters become small |
| JsMap.LastWins | src/jobs/candidate-assessment.ts:17 | a Map built from entries holds for each key the last value given |
| JsMap.KnownKeysKeepOrder | src/jobs/candidate-assessment.ts:17 | setting a key again keeps its place |
| JsMap.SetAllTwice | src/jobs/candidate-assessment.ts:17 | setting the same entries again changes neither values nor order |
| JsMap.RebuildIsIdentity | src/jobs/candidate-assessment.ts:17 | a Map rebuilt from its own entries is the same Map |
| SkillIndex.AddRow | src/jobs/assessment-skill-dictionary.ts:15-20 | the inner loop adds exactly the row's non-empty terms |
| SkillIndex.BuildIndex | src/jobs/assessment-skill-dictionary.ts:14-20 | the index built by the loops lists for every term the rows a linear scan finds |
| SkillIndex.ResolveByIndex | src/jobs/assessment-skill-dictionary.ts:21-24 | a look-up in the index equals the scan |
| SkillIndex.ResolvesToOnlyRow | src/jobs/assessment-skill-dictionary.ts:21-24 | a skill gets row i's identity exactly when row i is the only row with its term |
| SkillIndex.ResolvesLiterally | src/jobs/assessment-skill-dictionary.ts:22-26 | a skill that not exactly one row carries is known by its term |
| SkillIndex.CategoryIsDropped | src/jobs/assessment-skill-dictionary.ts:8-11 | a leading category label with its colon goes from the term |
| SkillIndex.NoCategoryStays | src/jobs/assessment-skill-dictionary.ts:8-11 | without such a label nothing goes |
| SkillIndex.LevelIsDropped | src/jobs/assessment-skill-dictionary.ts:8-11 | each decorator of proficiency goes, wherever it stands |
| SkillIndex.OtherCharacterStays | src/jobs/assessment-skill-dictionary.ts:8-11 | any other character stays |
| SkillIndex.TermIgnoresPadding | src/jobs/assessment-skill-dictionary.ts:8-11 | a term does not depend on white space around the value |
| SkillIndex.ResolveIgnoresPadding | src/jobs/assessment-skill-dictionary.ts:21-24 | nor does the identity |
| AssessmentJob.ReadSections | src/jobs/candidate-assessment.ts:21-29 | the loop over the lines gives each section exactly the lines under its headings |
| AssessmentJob.SectionsPartition | src/jobs/candidate-assessment.ts:21-29 | the three sections' texts together have exactly the length of all lines but the headings: no line is lost or counts twice |
| AssessmentJob.SectionAfterExactly | src/jobs/candidate-assessment.ts:21-29 | a line belongs to the section of the last heading before it, and to the required part without one |
| AssessmentJob.CompletionExactly | src/jobs/candidate-assessment.ts:15-38 | which skills the completed lists hold: the stored ones, with fewer than three required ones also those the required part mentions, and as additional ones those only the preferred part mentions |
| AssessmentJob.ResolveAssessmentJob | src/jobs/candidate-assessment.ts:15-38 | the loops over description and dictionary compute the completed job |
| AssessmentJob.CompletingTwice | src/jobs/candidate-assessment.ts:15-38 | completing a completed job changes nothing, for every job, dictionary and description |
| AssessmentJob.ResolvingTwice | src/jobs/candidate-assessment.ts:15-38 | completing a completed job changes nothing, in both branches, for every job, dictionary and description |
| AssessmentScore.ListsAreDisjoint | src/jobs/candidate-assessment.ts:96-98 | the skills that count have distinct identities within each list and across both |
| AssessmentScore.PartsInRange | src/jobs/candidate-assessment.ts:99-155 | every part's score is between 0 and 100 |
| AssessmentBreakdown.SkillScores | src/jobs/candidate-assessment.ts:105-119 | the skill parts score the rounded share of skills that the text mentions or the candidate lists, and are unscored exactly without skills or anything to look at |
| AssessmentBreakdown.AllMentionedScoresFull | src/jobs/candidate-assessment.ts:107-118 | a text that mentions every required skill scores 100, whatever the candidate lists |
| AssessmentBreakdown.OtherScores | src/jobs/candidate-assessment.ts:120-154 | the scores of experience, location and notice in every case |
| AssessmentBreakdown.ScoreIsMean | src/jobs/candidate-assessment.ts:156-167 | the score is the rounded mean of the measured parts with the weights 45, 10, 15, 15 and 10, the coverage the rounded share of the measured weights |
| AssessmentScore.ScoreInRange | src/jobs/candidate-assessment.ts:156-167 | the score, when there is one, and the coverage are between 0 and 100 |
| AssessmentScore.AssessmentInRange | src/jobs/candidate-assessment.ts:79-167 | the same for every whole assessment of a stored job |
| AssessmentScore.CountEvidence | src/jobs/candidate-assessment.ts:107-118 | the evidence loop counts the evident skills of a group |
| AssessmentScore.AssessCandidate | src/jobs/candidate-assessment.ts:79-167 | completing the job and building the parts step by step gives the assessment function |
| AssessmentScore.ScoredExactlyWhen | src/jobs/candidate-assessment.ts:158-162 | there is a score exactly when a required skill counts and the candidate has text or skills |
| AssessmentScore.UniqueMembers | src/jobs/candidate-assessment.ts:74 | deduplication keeps for each normalized term exactly the last value |
| AssessmentScore.KeptCharacters | src/jobs/candidate-assessment.ts:72 | which characters a normalized term keeps |
| AssessmentScore.MoreSkillsNeverLower | src/jobs/candidate-assessment.ts:79-130 | listing a skill whose normalized term is new never lowers the score for any stored job |
| AssessmentScore.NeverLowersExactlyWhen | src/jobs/candidate-assessment.ts:74-130 | listing one more skill lowers the score for no stored job exactly when the skill it displaces has its identity or is still listed otherwise |
| AssessmentScore.HarmfulLowers | src/jobs/candidate-assessment.ts:74-130 | otherwise the job that asks for the displaced skill goes from 100 to 0 |
| AssessmentScore.PunctuationLowersScore | src/jobs/candidate-assessment.ts:72-130 | the failing case: listing a letter with an exclamation mark after the letter takes a job's score from 100 to 0 |
| RoundUpdate.RoundUpdate | src/recruiter-submissions/round-update.ts:8-43 | the loops that write into the data, break at the first withdrawal and reset later rounds compute the update function, errors included |
| RoundUpdate.RefusedExactly | src/recruiter-submissions/round-update.ts:16-35 | an update is refused exactly when it takes back a clearance that later progress rests on without confirmation and a reason, or asks for a later result; and with which error |
| RoundUpdate.WithdrawalResetsLater | src/recruiter-submissions/round-update.ts:33-41 | an accepted withdrawal leaves every later round empty and pending |
| RoundUpdate.WritesExactly | src/recruiter-submissions/round-update.ts:10-25 | what any other save writes into a round: given fields, null as pending, and no appointment for a round set to pending |
| RoundUpdate.GateKeptExactlyWhen | src/recruiter-submissions/round-update.ts:8-43 | an update keeps progress gated by cleared earlier rounds exactly when it writes no progress into a locked round |
| RoundUpdate.ValidatedKeepsGate | src/recruiter-submissions/validate-tracker-update.ts:28-93 | what the validator's order checks accept keeps the gate with no side condition |
| RoundUpdate.CurrentRoundMayChange | src/recruiter-submissions/validate-tracker-update.ts:28-96 | changing only the current round of gated rounds is never refused |
| RoundUpdate.CorrectionIsAccepted | src/recruiter-submissions/validate-tracker-update.ts:45-54 | a confirmed correction that asks for nothing later is never refused |
| RoundUpdate.OutOfOrderIsRefused | src/recruiter-submissions/validate-tracker-update.ts:92-96 | a result or date behind a round that is not cleared is refused as soon as anything changes |
| RoundUpdate.RunKeepsGate | src/recruiter-submissions/recruiter-submissions.service.ts:1410-1485 | over any run of saves, with the cascade of a rejection, gated rounds stay gated |
| RoundUpdate.GatedExactlyWhen | src/recruiter-submissions/tracker-workflow.ts:3-8 | gated means that nothing has happened after the current round |
| RoundUpdate.RejectionEndsThePipeline | src/recruiter-submissions/recruiter-submissions.service.ts:1424-1485 | after a save that leaves a round rejected, later rounds hold nothing and the outcome says not selected |
| RoundUpdate.SavedExactly | src/recruiter-submissions/recruiter-submissions.service.ts:1424-1485 | what a save stores in each round and as the outcome |
| History.RecordedWrite | src/recruiter-submissions/submission-history.ts:7-16 | the recorded audit changes of a write bring the old snapshot to the new one |
| History.LogReplaysRow | src/recruiter-submissions/recruiter-submissions.service.ts:1505-1525 | over every interleaving of loads and commits, replaying the log gives the snapshot of the row, every recorded before is the replayed value, and sequence numbers have no gaps |
| History.NoLostUpdate | src/recruiter-submissions/recruiter-submissions.service.ts:1495-1513 | a commit that changes the row was based on the row it replaces |
| History.IdleCommit | src/recruiter-submissions/recruiter-submissions.service.ts:1488-1513 | a save that changes nothing, or whose row has moved on, leaves row, version and log alone |
| History.CommitLogs | src/recruiter-submissions/recruiter-submissions.service.ts:1489-1525 | any other save logs exactly the audited changes when there are any or a note was given, after a baseline if there was no event |
| History.CommitWrites | src/recruiter-submissions/recruiter-submissions.service.ts:1493-1513 | and writes its data under a later version |
| History.SecondSaveIsRefused | src/recruiter-submissions/recruiter-submissions.service.ts:1493-1513 | of two clients that read the same version, the one that saves second changes nothing |
| History.LogRebuildsRow | src/recruiter-submissions/recruiter-submissions.service.ts:1515-1525 | the log alone rebuilds the snapshot, except for website applications and before the first event |
| History.UndoRecoversStart | src/recruiter-submissions/submission-history.ts:10-16 | taking the changes back from the current row gives the first snapshot |
| History.MilestoneIsLeast | src/business-units/manager-performance-sql.ts:16-19 | a milestone is null exactly without a transition, and otherwise the earliest transition's time |
| History.OutcomeWasReached | src/business-units/manager-performance-sql.ts:11-19 | an outcome reached by replay has a genuine transition event after which no event touches it |
| History.ReachedRowHasMilestone | src/business-units/manager-performance-sql.ts:13-22 | a row with an outcome it did not start with has a milestone, the time of a recorded transition |
| History.MilestoneWasATransition | src/business-units/manager-performance-sql.ts:11-19 | each transition event really turns the replayed outcome |
| History.MilestoneIsFirst | src/business-units/manager-performance-sql.ts:16-19 | when event times follow the log, the milestone is the first transition's time |
| DeliveryPipeline.FilterAgrees | src/business-units/delivery-pipeline.ts:5-24 | a row passes the database filter of a stage exactly when the code puts it in that stage, under three-valued logic |
| DeliveryPipeline.FiltersPartition | src/business-units/delivery-pipeline.ts:12-24 | no row passes two filters, and a row passes one exactly unless it lacks an outcome or a first round it is judged by |
| DeliveryPipeline.TrackerStageAgrees | src/recruiter-submissions/tracker-filters.ts:83-86 | the SQL expression equals the code's stage with closed folded into final, nulls included |
| DeliveryPipeline.RoundStatusAgrees | src/recruiter-submissions/tracker-filters.ts:87 | the tracker's SQL shows a round's state exactly for the rows the pipeline counts under that round and state |
| DeliveryPipeline.AwaitsDecisionExactlyWhen | src/recruiter-submissions/tracker-filters.ts:87 | it asks for a decision exactly for undecided rows whose outcome is submitted |
| DeliveryPipeline.BucketsAreDisjoint | src/recruiter-submissions/tracker-workflow.ts:12-22 | no row is in two tracker buckets |
| DeliveryPipeline.InNoBucketExactlyWhen | src/recruiter-submissions/tracker-workflow.ts:12-22 | exactly which rows are in no bucket |
| DeliveryPipeline.BucketsRefineStages | src/recruiter-submissions/tracker-workflow.ts:12-22 | for unpaused jobs the buckets are consistent with the stages |
| DeliveryPipeline.AggregateDeliveryPipeline | src/business-units/delivery-pipeline.ts:26-46 | every counter of the result counts exactly the rows of its kind |
| DeliveryPipeline.DecidedExactly | src/business-units/delivery-pipeline.ts:34-37 | final rows are counted by their outcome |
| DeliveryPipeline.InterviewedExactly | src/business-units/delivery-pipeline.ts:38-42 | rows of a round are counted by its status |
| DeliveryPipeline.GroupingDoesNotMatter | src/business-units/delivery-pipeline.ts:26-46 | any grouping of the rows gives the counts of counting them one by one |
| DeliveryPipeline.StagesAddUp | src/business-units/delivery-pipeline.ts:31-33 | the total is the sum of the six stages |
| DeliveryPipeline.DecisionsAddUp | src/business-units/delivery-pipeline.ts:34-37 | the final stage is the sum of its four outcomes |
| DeliveryPipeline.InterviewsAddUp | src/business-units/delivery-pipeline.ts:38-41 | each round is the sum of its four states |
| DeliveryPipeline.BookingsAddUp | src/business-units/delivery-pipeline.ts:42 | scheduled is the sum over the rounds |
| DeliveryPipeline.CardMatchesList | src/business-units/delivery-pipeline.ts:12-46 | the number counted for a stage is the number of rows its filter lists |
| DeliveryPipeline.OffersMatchList | src/business-units/delivery-pipeline.ts:13-37 | the same for the offers count and filter |
| Digits.NatOfText | src/recruiter-submissions/submission-compensation.ts:17-19 | reading a written number gives it back |
| Compensation.NormalizeIsExact | src/recruiter-submissions/submission-compensation.ts:12-20 | the stored amount is exactly the entered one times its unit, and in range |
| Compensation.AcceptedExactlyWhen | src/recruiter-submissions/submission-compensation.ts:12-18 | exactly which amounts are accepted |
| Compensation.WellFormedExactly | src/recruiter-submissions/submission-compensation.ts:15 | which texts are amounts: digits, and up to two decimals after a point |
| Compensation.AmountRead | src/recruiter-submissions/submission-compensation.ts:16-17 | what an amount is in cents, and that a lakh stands for 100000 |
| Compensation.NothingStoredExactly | src/recruiter-submissions/submission-compensation.ts:4-7 | when nothing is stored, and when the unit is missing |
| Compensation.StoredExactly | src/recruiter-submissions/submission-compensation.ts:8-21 | exactly which units, currencies and amounts are accepted together, and what is stored |
| Compensation.CentsTextReads | src/recruiter-submissions/submission-compensation.ts:19 | stored text reads as the cents it was written for |
| Compensation.StoredFits | src/recruiter-submissions/submission-compensation.ts:18-19 | a stored amount fits a twelve-digit column |
| Compensation.ResubmitIsFixedPoint | src/recruiter-submissions/submission-compensation.ts:3-22 | sending stored amounts back in their stored period stores the same amounts |
| Rates.CommercialFields | src/jobs/job-commercials.ts:31-44 | the loop over both rates stores each one, and the first refused one decides the error |
| Rates.PlainNumber | src/jobs/job-commercials.ts:12-20 | a plainly printed number is read back whole whatever text follows it |
| Rates.ExponentNumber | src/jobs/job-commercials.ts:12-20 | a number printed with an exponent is read only up to its exponent |
| Rates.PlainExactly | src/jobs/job-commercials.ts:46-60 | a number is printed without an exponent exactly when it is below 10^21 and zero or not below a millionth |
| Rates.AmountsShownRead | src/jobs/job-commercials.ts:9-61 | a shown rate with a currency is read back exactly when its amounts are printed plainly, and refused otherwise |
| Rates.CommissionRead | src/jobs/job-commercials.ts:46-50 | the same for a commission |
| Rates.NoCurrencyUnread | src/jobs/job-commercials.ts:56-60 | a shown rate without a currency is refused |
| Rates.OneAmountAccepted | src/jobs/job-commercials.ts:9-29 | every accepted form of one amount, with the currency words, the dollar sign and the unit words, and the rate it gives |
| Rates.TwoAmountsAccepted | src/jobs/job-commercials.ts:9-29 | the same for two amounts, refused when the second is smaller |
| Rates.UnitExactly | src/jobs/job-commercials.ts:14 | nothing but one of the unit words may follow an amount |
| Rates.NumberEndsAtDot | src/jobs/job-commercials.ts:12-20 | a dot without digits behind it does not belong to a number, and without digits in front there is none |
| Rates.CommasDoNotCount | src/jobs/job-commercials.ts:11 | a comma anywhere changes nothing about what is read |
| Rates.NoRateExactly | src/jobs/job-commercials.ts:9-10 | an empty rate comes of nothing, an empty text or "N/A", and of no other text |
| Rates.FieldsExactly | src/jobs/job-commercials.ts:31-44 | which rates are accepted for each side, in India no dollars, and which currency and commission are written |
| Rates.RoundsHalfUp | prisma/schema.prisma:913-921 | a column keeps the nearest hundredth, the larger one of two |
| Rates.StoredShape | src/jobs/job-commercials.ts:21-44 | what an accepted text leaves to store, before rounding: ordered bounds, or a commission up to 100 on the client side only, rupees in India |
| Rates.ResaveExactlyWhen | src/jobs/job-commercials.ts:9-61 | before rounding, the shown text gives the same rate exactly when the currency is known and the numbers print plainly |
| Rates.RoundingKeepsOrder | prisma/schema.prisma:913-921 | rounding to two decimals keeps the order of numbers |
| Rates.ColumnIsPlain | prisma/schema.prisma:913-921 | what a column holds is printed plainly and is not rounded again |
| Rates.PersistedResavesExactlyWhen | src/jobs/job-commercials.ts:9-61 | saving the text shown for what the database holds leaves it as it is exactly when there is no amount or its currency is known, and is refused otherwise |
| Rates.FiveIsNotReadBack | src/jobs/job-commercials.ts:9-61 | the failing case: "5" is stored, shown as "- 5" and then refused |
| Weeks.WeeksTile | src/business-units/manager-performance-sql.ts:33-39 | the weeks follow each other from start to end without gap or overlap |
| Weeks.InWeekOfBucket | src/business-units/account-manager-detail.service.ts:67-68 | an instant of the period lies in exactly the week of its bucket |
| Weeks.CountByWeek | src/business-units/account-manager-detail.service.ts:103-106 | the counting loop gives for every bucket the number of its events |
| Weeks.WeekCountsItsEvents | src/business-units/manager-performance-sql.ts:33-39 | a week's count is the number of events in it |
| Weeks.CountsAreConserved | src/business-units/manager-performance-sql.ts:33-39 | the weeks' counts add up to the events of the period |
| Weeks.DefaultIsTwelveWeeks | src/business-units/manager-performance-sql.ts:27-31 | the default period starts on a Monday at midnight, has twelve weeks, and the current time is in the last |
| Weeks.BoundsAreKept | src/business-units/manager-performance-sql.ts:27-31 | given bounds are kept, except that a period never reaches past the next midnight |

## Left out

- Controllers, guards, network calls and libraries: the answers of DNS, the mail provider, the renderer and the database are inputs of the steps.
- Large SQL reports, permission policies and most of the submission validator: case splits with no property across functions. Of the validator only the order checks on rounds are modelled; its other checks only refuse more.
- UTF-8 encoding of file names and contents: `Zip` works on the encoded bytes, `Workbook` on the characters; texts that hold half of a character to begin with are not modelled.
- The fixed parts of the workbook (content types, relationships, view settings) and the printing of cell numbers, which are given as text.
- Case folding outside ASCII: `Text.Lower` folds A to Z only.
- AssessmentJob.ResolveAssessmentJob: the description comes as its lines with the markup removed; which lines are headings and whether a text mentions a term are given as functions.
- AssessmentScore.AssessCandidate: the list of criteria with their texts is not built, only counted; the facts about experience, location and notice are given as such.
- Floating point: scores, rates and shares are exact decimals or rationals, and numbers above the range of doubles are not refused.
- Rates.StoredShape: the rate as the service hands it to the database; rounding and overflow of the columns are `Rates.InColumns`.
- Rates.ResaveExactlyWhen: the rate before the columns round it; `Rates.PersistedResavesExactlyWhen` is about what they hold.
- Hashes: the content hash of a preview's key is opaque, so two files with one key are the same file.
- ResumePreview.ResumePreviewService.Render: a page is an integer; one clock reading stands for the readings of one synchronous stretch.
- Pods.PodsService.ValidateRecruiters: of several objections it reports the first in the order of the ids; the database returns the rows in an order of its own.
- Pods.OverlappingRunKeepsInvExactly: the transactions of updates and removals are atomic steps; only a creation is split into its checks and its writes.
- Pods.RunKeepsInv: rows of one tenant; role changes made by other services are not part of a run, and members' units are not checked again when a pod changes unit.
- EmailDomain.SystemMail.Send: mails suppressed by configuration or preference, and a provider that fails after the choice of the sender.
- EmailDomain.RunIsSafe: one tenant; that no two tenants hold one domain is checked before it is acted on and is not claimed.
- History.LogReplaysRow: repeated requests are recognized by their request id before the steps modelled here; a stored value reads back as the text it was written with; deletion of submissions and of events is not modelled.
- RoundUpdate.RunKeepsGate: starts from gated rounds; the service creates submissions with every round pending.
- Weeks.InWeekOfBucket: instants are whole microseconds.
