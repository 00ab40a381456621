# NaC scripts, modelled and proved

This project models the algorithmic core of the repository's Python scripts and proves what those scripts are for.
Files are named after what they model; each starts with the script it belongs to.

| files | script |
|---|---|
| `Operator*.dfy`, `Identifiers.dfy` | the case-file store of the local operator bridge: four operations that write several redundant views of one matter |
| `ScopedGlob.dfy`, `FileTree.dfy` | the scoped glob search, against "some file anywhere in the tree matches" |
| `GovernanceYaml.dfy`, `StartupYaml.dfy` | two hand-written parsers of a YAML subset, their printers, and where they agree |
| `UsecaseBpmn.dfy`, `Usecase*.dfy`, `BpmnTree.dfy`, `BpmnValidation.dfy`, `BpmnConformance.dfy` | the BPMN generator as a compiler, the BPMN validator as its checker |
| `LicenseInventory.dfy`, `LicenseDemands.dfy`, `CandidateTree.dfy` | the release builder's licence gates, package digest listing and sealing order |
| `Onboarding.dfy` | the onboarding session, over runs of many actors |
| `Text.dfy`, `Ordering.dfy`, `Options.dfy` | string operations, sorting and optional values they share |

State the scripts change in place is a class (`OperatorBridge.Repository`, `Onboarding.Wizard`) whose methods are
proved equal to steps on a repository value; the theorems about all runs are lemmas about those steps. Loops of the
scripts are methods with loops. Files on disk are maps from a path or an id to a record, a directory tree is the
datatype `FileTree.Node`, the clock is an input, and what the model takes as a parameter is named under "Left out".

A step is written with helper functions, as the scripts are. What each step comes to is then stated once more without
those helpers, over the fields of the request, the literals of the script and the characters of its texts
(`OperatorContents`, `UsecaseDemands`, `BpmnConformance`, `LicenseDemands`, the "exactly" lemmas of `Onboarding`), and
both are proved to say the same for every input.

## Where the code does less than it says

Each of these is kept in the model as the code has it, with the exact condition.

- The glob search answers no for a pattern whose literal prefix is itself a regular file when only `**` follows
  (`a/**` for a file `a`), although such a file matches the pattern. That family is the only one, and it is not empty
  (`ScopedGlob.PathOrGlobMatches`, `ScopedGlob.MissedFamilyMatches`, `ScopedGlob.MissedFamilyExists`).
- Matter number 10000 is formatted with five digits and is invisible to the four-digit scan. The creation that follows
  it gets the same number and replaces it (`OperatorNumbering.NextCreationIsFresh`,
  `OperatorNumbering.CreationOverwritesTakenPlace`); a run gets there (`OperatorNumbering.TakenPlaceIsReached`).
- A creation attaches its files after it has written its two person files. If a file is missing, or its source, name,
  label or media type cannot be read, the person files stay and no index lists them
  (`OperatorFiles.AttachedExactly`, `OperatorRuns.HalfwayExactly`, `OperatorRuns.HalfwayLeavesPersons`). After any run
  the indexes equal a fresh scan exactly when what such requests wrote since the indexes were last rebuilt is what the
  files held then (`OperatorIndexes.RunKeepsIndex`). One such request in an empty repository makes them stale, be it for
  a missing file or for a label of 600 characters (`OperatorIndexes.FirstOrphans`, `OperatorIndexes.FilesThatLeaveOrphans`).
- The acceptance event records the id as the request spelled it. It is the stored proposal id exactly when the request
  spelled it that way; the lower-case spelling accepts the same proposal and is recorded as such
  (`OperatorProposals.AcceptanceNamesRequest`, `OperatorProposals.LowerCaseIsRecorded`,
  `OperatorProposals.FirstProposalLowered`).
- A proposal whose usecase was given as blanks only is filed with an empty usecase and can never be accepted. A pending
  proposal can be accepted exactly when its usecase is not empty, every missing title or label has room for its default,
  and no staged path is longer than 512 characters, which the limit on values then refuses
  (`OperatorProposals.PendingIsAcceptedExactly`, `OperatorProposals.BlankUsecaseStaysPending`).
- A list block of the governance parser stops at a deeper line as well, which a mapping block skips
  (`GovernanceYaml.ListStopsAtDeeperLine`).
- The two YAML parsers read some documents of the flat one differently: exactly those with a key that begins like an
  item, an empty list, a comment, or a bare flag or quoted text (`StartupYaml.ParsersAgree`).
- Two questions of an onboarding flow that share an id can both be answered in one visit exactly when somebody may act
  in a role to which both are open in one of the two modes (`Onboarding.AskedOnceExactly`, `Onboarding.SharedIdAnswersTwice`,
  `Onboarding.RunsAnswerOnceExactly`).
- Finalising an onboarding session does not ask for complete answers; the bundle keeps whatever was answered
  (`Onboarding.Wizard.RunFinalize`).

## Model

| member | source | states |
|---|---|---|
| ScopedGlob.MatchConcat | scripts/scoped_repo_glob.py:14-24 | a path matches the concatenation of two patterns exactly when it splits into a part matching each |
| ScopedGlob.StarsAbsorb | scripts/scoped_repo_glob.py:18-21 | `**` absorbs any run of segments including none, and a doubled `**` equals one |
| ScopedGlob.FixedDepth | scripts/scoped_repo_glob.py:105-111 | a pattern without `**` matches exactly the paths of its own length whose segments match its own one by one, which justifies searching at one depth |
| ScopedGlob.LiteralPrefix | scripts/scoped_repo_glob.py:88-93 | literal segments in front of a pattern pin the front of every matching path |
| ScopedGlob.RefusedNeverMatches | scripts/scoped_repo_glob.py:58-62 | the patterns refused up front (absolute, with `..`, with an excluded name) match no visible file, so refusing them loses nothing |
| ScopedGlob.RecursiveCandidates | scripts/scoped_repo_glob.py:27-39 | the stack search yields each visible path that is not a directory exactly once, and nothing else |
| ScopedGlob.FixedDepthCandidates | scripts/scoped_repo_glob.py:42-54 | the frontier search yields exactly the visible entries at the given depth below the anchor |
| ScopedGlob.FollowLiterals | scripts/scoped_repo_glob.py:70-74 | following literal segments reaches the node a visible walk reaches, or stops at a symbolic link where no such walk exists |
| ScopedGlob.PathOrGlobMatches | scripts/scoped_repo_glob.py:57-124 | for every tree and pattern the search answers that some visible file matches, except exactly when the literal anchor is that file and only `**` follows |
| ScopedGlob.MissedFamilyMatches | scripts/scoped_repo_glob.py:99-100 | every path of the excepted family does match, so there the answer is wrong |
| ScopedGlob.MissedFamilyExists | scripts/scoped_repo_glob.py:99-100 | a root with a file `a` and the pattern of `a` followed by `**` belong to that family |
| ScopedGlob.VisibleExactly | scripts/scoped_repo_glob.py:27-39 | a visible walk reaches what is at a path exactly when no name on it is `.git` or `out` and no place on it is a symbolic link |
| ScopedGlob.PartsJoin | scripts/scoped_repo_glob.py:58-61 | a slash separates the parts of a pattern: those of `a/b` are those of `a`, then the names of `b` |
| ScopedGlob.PartOfName | scripts/scoped_repo_glob.py:58-61 | a text without slashes is one part, and the empty one and the dot are none |
| FileTree.BelowIsWalk | scripts/scoped_repo_glob.py:27-39 | the multiset a traversal accounts for holds each node a kept walk reaches exactly once |
| CandidateTree.PackageFiles | scripts/build_m365_current_state_read_driver.py:316-342 | the traversal succeeds exactly for a tree of only directories and regular files with 1 to 20000 files, and then lists each file once, ascending by path; a refusal code tells its cause: a symbolic link, a special path or no directory or no file, or too many files |
| CandidateTree.TextIsInjective | scripts/build_m365_current_state_read_driver.py:328-334 | different paths of a tree have different texts with any separator that names do not hold, so the sort key is unique |
| CandidateTree.PackageListingIgnoresOrder | scripts/build_m365_current_state_read_driver.py:323-342 | two enumeration orders of the same tree are accepted alike and give the identical sorted list, which is what is hashed |
| CandidateTree.SealOrder | scripts/build_m365_current_state_read_driver.py:218-239 | enumeration succeeds exactly for regular trees of at most 8192 paths, and then lists the root and everything below it once, by depth and then text; a refusal code tells its cause: no directory or a symbolic link, a special path, or too many paths |
| CandidateTree.SealsParentsFirst | scripts/build_m365_current_state_read_driver.py:239-242 | every listed path has all its parent directories earlier in the order, up to the root |
| CandidateTree.SealingIgnoresEnumeration | scripts/build_m365_current_state_read_driver.py:218-239 | two enumeration orders of the same tree are sealed or refused alike |
| CandidateTree.SealOrderIgnoresEnumeration | scripts/build_m365_current_state_read_driver.py:226-239 | the sealing order is a function of the tree, for any enumeration order of its directories |
| LicenseInventory.ValidateLicenseInventory | scripts/build_m365_current_state_read_driver.py:461-534 | accepted if and only if components biject with the CycloneDX refs and with the SPDX ids they carry, file entries cover exactly the bundle paths once, every component is known, well formed and used, and the product's own licence is bound; a refusal code tells the first cause in the order of the checks |
| LicenseInventory.ValidateComponents | scripts/build_m365_current_state_read_driver.py:473-511 | the component loop accepts exactly the lists in which ids, CycloneDX refs and SPDX ids each occur once and both reference sets are met in full |
| LicenseInventory.ValidateFiles | scripts/build_m365_current_state_read_driver.py:512-527 | the file loop accepts exactly when each bundle path has one entry with known, unrepeated components and every known component is used |
| LicenseInventory.InventoryIgnoresOrder | scripts/build_m365_current_state_read_driver.py:476-527 | permuting components and files does not change the verdict |
| LicenseInventory.ValidateReviewedLicenseCatalog | scripts/build_m365_current_state_read_driver.py:563-694 | accepted exactly when the catalogue is approved and well formed, its components equal the inventory's, and both attribute the same components to the same files |
| LicenseInventory.BundleFilesCarryApprovedComponents | scripts/build_m365_current_state_read_driver.py:514-527 | after both gates every bundle file has exactly one inventory entry and one catalogue entry, both with the same non-empty set of approved components |
| LicenseInventory.OneElementPerKey | scripts/build_m365_current_state_read_driver.py:682-694 | counting each key once means one element per wanted key and no other |
| LicenseInventory.OneCode | scripts/build_m365_current_state_read_driver.py:461-534 | the cause of each refusal code excludes that of every other, so an inventory is refused with one code only |
| LicenseDemands.InventoryExactly | scripts/build_m365_current_state_read_driver.py:461-534 | the inventory gate accepts exactly the inventories described entry by entry: ids, names, versions, licences and digests by their characters, paths by their parts, no id, reference or path twice, the references those of the two bills, the paths those of the bundle, every component used, and the product bound to its licence text |
| LicenseDemands.CatalogExactly | scripts/build_m365_current_state_read_driver.py:563-694 | the review gate approves exactly the catalogues described entry by entry: headers, real digests and allowed sources, no unknown licence, the same records as the inventory, and the same components for each file |
| LicenseDemands.PathsAreSafe | scripts/build_m365_current_state_read_driver.py:77-92 | a path is safe exactly when it has 1 to 240 characters, none of the forbidden ones, and no part that is empty, a dot or two, ends in a blank or a dot, or names a device before its first dot in any capitals |
| Identifiers.ParseInvertsPadded | scripts/nac_hw_bridge.py:1406-1411 | zero-padded formatting and parsing are inverse for every number and width |
| Identifiers.FourDigits | scripts/nac_hw_bridge.py:1406-1411 | four-digit padding has four digits exactly up to 9999 |
| Identifiers.ScanInvertsMatterId | scripts/nac_hw_bridge.py:1404-1411 | the scan reads back exactly the numbers up to 9999 and sees nothing beyond |
| Identifiers.MatterIdIsInjective | scripts/nac_hw_bridge.py:1411 | a matter id determines its year and number |
| Identifiers.SafeIdentifierIsCanonical | scripts/nac_hw_bridge.py:1421-1423 | a safe identifier is non-empty, of capitals, digits and single inner dashes |
| Identifiers.SafeIdentifierIsIdempotent | scripts/nac_hw_bridge.py:1421-1423 | normalising twice is normalising once |
| Identifiers.SafeIdentifierIgnoresCase | scripts/nac_hw_bridge.py:1421-1423 | spellings that differ in capitals only have the same safe identifier |
| Identifiers.SqueezeJoins | scripts/nac_hw_bridge.py:1421-1423 | texts are squeezed one by one unless a run of other characters continues from one to the next |
| Identifiers.SqueezeRun | scripts/nac_hw_bridge.py:1421-1423 | a run of other characters becomes one dash, and a run of letters and digits stays |
| Identifiers.SqueezeChar | scripts/nac_hw_bridge.py:1421-1423 | a letter or digit alone stays, any other character becomes a dash |
| Identifiers.SafeIdentifierTrims | scripts/nac_hw_bridge.py:1421-1423 | dashes at both ends go, the rest is put into capitals, and nothing left means `UNBENANNT` |
| Identifiers.CandidateFilesDiffer | scripts/nac_hw_bridge.py:836-843 | different counters give different proposal file names, also when truncation leaves a trailing dash |
| Identifiers.CandidateFileText | scripts/nac_hw_bridge.py:836-843 | the file name of the k-th candidate, with the trailing dash of a truncated base gone |
| Identifiers.TakenCandidates | scripts/nac_hw_bridge.py:839-842 | k - 1 taken candidates are k - 1 different existing files |
| Identifiers.NextImportProposalId | scripts/nac_hw_bridge.py:836-843 | the probing loop ends within one probe more than there are files, at the first candidate whose file is free |
| OperatorRequests.CleanIsIdempotent | scripts/nac_hw_bridge.py:1379-1385 | a value that was cleaned is clean, so storing and reading request values loses nothing more |
| OperatorRequests.StatusReadsBack | scripts/nac_hw_bridge.py:1397-1401 | every stored word and every alias, the German ones among them, is read as its status in any mixture of capitals, and no status means open |
| OperatorRequests.StatusTakes | scripts/nac_hw_bridge.py:1397-1401 | a text is read as a status exactly when it is one of the listed words of that status, with any blanks and capitals, or nothing where it is open |
| OperatorRequests.CleanTakes | scripts/nac_hw_bridge.py:1379-1385 | a value or its default can be read exactly when, without the blanks around it, it is short enough and holds no control character but tabs, and then it is that text |
| Text.StripTakesTheMiddle | scripts/nac_hw_bridge.py:1379-1385 | cleaning takes away exactly the blanks at both ends |
| OperatorStore.PreparedExactly | scripts/nac_hw_bridge.py:624-637 | clean request values can be prepared exactly when there is a usecase and every missing title has room for its default |
| OperatorFiles.SafeFilenameShape | scripts/nac_hw_bridge.py:1426-1429 | a safe file name is never empty, holds letters, digits, dots, dashes and underscores only, and is no longer than what it was made from or the default |
| OperatorFiles.FileNameOfPath | scripts/nac_hw_bridge.py:1426-1429 | the name of a path is what follows its last slash, where an end that is empty or a dot does not count |
| OperatorFiles.DashedJoins | scripts/nac_hw_bridge.py:1426-1429 | texts are dashed one by one unless a run of other characters continues from one to the next |
| OperatorFiles.DashedChar | scripts/nac_hw_bridge.py:1426-1429 | a letter, digit, dot, underscore or dash alone stays, any other character becomes a dash |
| OperatorFiles.DashedRun | scripts/nac_hw_bridge.py:1426-1429 | a run of other characters becomes one dash |
| OperatorFiles.SafeFilenameTrims | scripts/nac_hw_bridge.py:1426-1429 | dots and dashes at both ends go, and nothing left means `datei.bin` |
| OperatorFiles.SafeFilenameIsSafe | scripts/nac_hw_bridge.py:1426-1429 | a safe name is not empty, has only the allowed characters and no dot or dash at its ends, and making it safe again changes nothing |
| OperatorFiles.AttachDocumentFiles | scripts/nac_hw_bridge.py:913-940 | the attaching loop gives the originals in order, or the first failure |
| OperatorFiles.AttachedExactly | scripts/nac_hw_bridge.py:920-934 | attaching succeeds exactly when each entry has a readable source that is blank or leads to a file, whose name, label and media type can be read; there is one original for each entry that is not blank |
| OperatorFiles.AttachRecords | scripts/nac_hw_bridge.py:912-946 | the originals correspond one to one, in order, to the entries whose source is not blank, each with its own label, media type and name or the defaults |
| OperatorFiles.StagedAttachedExactly | scripts/nac_hw_bridge.py:852-934 | what staging stored can be attached exactly when no path of a file with content is too long for a value and each such file without a label has room for its numbered default |
| OperatorFiles.AttachmentsAre | scripts/nac_hw_bridge.py:509-516 | exactly the staged files with content are handed on, in order, with path, name, label and media type |
| OperatorFiles.StagedRecords | scripts/nac_hw_bridge.py:509-518 | after attaching, the originals are the staged files with content, one to one and in order, each with the staged media type, the staged label or its numbered default, and a path that ends in the staged name |
| OperatorStore.NextNumberIsSmall | scripts/nac_hw_bridge.py:1404-1411 | the next number is between 1 and 10000 whatever folders exist |
| OperatorStore.FindsPlace | scripts/nac_hw_bridge.py:1414-1418 | looking a matter id up finds its one folder, or none |
| OperatorBridge.Repository.NextMatterNumber | scripts/nac_hw_bridge.py:1404-1411 | the scanning loop gives one more than the highest number of the year |
| OperatorBridge.Repository.FindMatterFile | scripts/nac_hw_bridge.py:1414-1418 | the search in any enumeration order finds the folder of that name |
| OperatorBridge.Repository.CreateOperatorMatter | scripts/nac_hw_bridge.py:620-749 | in place, the whole new repository and the answer are those of the creation step, and the store stays valid |
| OperatorBridge.Repository.UpdateOperatorMatterStatus | scripts/nac_hw_bridge.py:757-788 | in place, the whole new repository and the answer are those of the status step, and the store stays valid |
| OperatorBridge.Repository.CreateImportProposal | scripts/nac_hw_bridge.py:441-490 | in place, the whole new repository and the answer are those of the proposal step, and the store stays valid |
| OperatorBridge.Repository.AcceptImportProposal | scripts/nac_hw_bridge.py:498-533 | in place, the whole new repository and the answer are those of the acceptance step, and the store stays valid |
| OperatorBridge.Repository.StageImportSourceFiles | scripts/nac_hw_bridge.py:846-885 | the uploads are staged one by one up to the first that fails, and what was staged before it stays |
| OperatorBridge.Repository.AppendEvent | scripts/nac_hw_bridge.py:746-747 | one event goes to the end of the matter's own log and of its day's journal, and nothing else changes |
| OperatorBridge.Repository.RebuildOperatorIndexes | scripts/nac_hw_bridge.py:1323-1359 | the three indexes become the records in file order, and nothing else changes |
| OperatorBridge.Repository.ListOperatorMatters | scripts/nac_hw_bridge.py:595-612 | one counter per usecase that occurs, with open + waiting + completed = total, and totals that sum to the number of matters |
| OperatorBridge.CountMatters | scripts/nac_hw_bridge.py:598-604 | the counting loop counts each matter once, under its usecase and status |
| OperatorChecklist.SummarizeChecklist | scripts/nac_hw_bridge.py:1265-1304 | the loops count every checklist item once as done or open, name the first open item as the next step, and report completed exactly for a checklist with items that are all done |
| OperatorChecklist.ProgressReads | scripts/nac_hw_bridge.py:1175-1181 | every value is read as one progress, done or waiting for the listed words in any capitals, else open |
| OperatorRuns.CreateAdds | scripts/nac_hw_bridge.py:620-749 | a successful creation changes the records of its own place, its log and its day's journal, and nothing else among matters and proposals |
| OperatorRuns.FailedCreateKeeps | scripts/nac_hw_bridge.py:738-740 | a failing creation changes nothing if its values cannot be prepared, and otherwise leaves exactly its two person files |
| OperatorRuns.HalfwayExactly | scripts/nac_hw_bridge.py:738-740 | a creation or acceptance that takes a number fails exactly when one of its files cannot be attached |
| OperatorRuns.HalfwayLeavesPersons | scripts/nac_hw_bridge.py:738-740 | it then leaves its two person files and nothing else |
| OperatorRuns.RefusedKeeps | scripts/nac_hw_bridge.py:624-637 | a creation or acceptance whose values cannot be prepared, or that names no pending proposal, changes nothing |
| OperatorRuns.UpdateSets | scripts/nac_hw_bridge.py:757-788 | a status change fails without effect or changes the one place the id names |
| OperatorRuns.ProposeKeeps | scripts/nac_hw_bridge.py:441-490 | filing a proposal touches no matter, log, journal or index |
| OperatorRuns.AcceptAdds | scripts/nac_hw_bridge.py:498-533 | an acceptance creates the matter of a pending proposal and records it in proposal, log and journal, or does no more than a failed creation |
| OperatorContents.PreparedReads | scripts/nac_hw_bridge.py:624-637 | a request can be prepared exactly when each of its fields can be read, and then each value is the field without blanks around it, or the default of the script |
| OperatorContents.CreationSucceedsExactly | scripts/nac_hw_bridge.py:620-677 | a creation succeeds exactly in a demo repository, for a readable request whose files can all be attached |
| OperatorContents.YearIsRead | scripts/nac_hw_bridge.py:1404-1411 | the year in a matter id has four digits and reads as the year of the day |
| OperatorContents.CreationWrites | scripts/nac_hw_bridge.py:620-749 | the client file shows the given client name or `Demo Mandant`, the participant file the given participant or the client, each with its role; the matter, its document with one original per named source, its checklist and one creation event hold what the request gives or the script's defaults; every other record stays |
| OperatorContents.StatusWrites | scripts/nac_hw_bridge.py:757-788 | a status change succeeds exactly when the three texts can be read and a matter has that id; then that matter has the given status and reason and the new time, and the log and the journal end with the event that names the former status, this one and this reason |
| OperatorContents.StagingRecords | scripts/nac_hw_bridge.py:846-885 | uploads are staged in order up to the first that cannot be, each with the given label, safe name and media type or the defaults, and with a path only if it has content |
| OperatorContents.ProposalIdReads | scripts/nac_hw_bridge.py:836-843 | the id of a proposal is the day, the first 44 characters of its title's safe identifier, and the first counter whose file is free |
| OperatorContents.ProposalWrites | scripts/nac_hw_bridge.py:441-490 | a proposal is filed exactly when its texts can be read and its uploads staged; it is pending and holds the given values or the defaults, its uploads, and nothing else changes |
| OperatorContents.AcceptanceWrites | scripts/nac_hw_bridge.py:498-533 | a successful acceptance is one of the pending proposal of that id; the new matter, persons and document hold the values stored in it, the document has one original per file with content, in order, the proposal names the matter, and log and journal end with the acceptance |
| OperatorRuns.StoryContinues | scripts/nac_hw_bridge.py:769-787 | one more event with the right previous status keeps a log consistent, and acceptance events do not disturb the replay |
| OperatorRuns.PersonIdsDiffer | scripts/nac_hw_bridge.py:641-644 | different matters have different person and document ids |
| OperatorRuns.StepKeepsInv | scripts/nac_hw_bridge.py:441-788 | every operation, successful or not, keeps: each log replays to the stored status with every previous status right, each listed person and document is on file and belongs to the matter, checklist and matter share one binding |
| OperatorRuns.RunKeepsInv | scripts/nac_hw_bridge.py:441-788 | that invariant holds after every run |
| OperatorJournal.JournalTellsEveryLog | scripts/nac_hw_bridge.py:1452-1456 | over every run with a clock that does not fall back, the day-ordered journal filtered to a matter equals that matter's own log |
| OperatorNumbering.RunNumbers | scripts/nac_hw_bridge.py:638-639 | after any run the numbers of a year are exactly 1 to the count of its creations, capped at 10000 |
| OperatorNumbering.NextCreationIsFresh | scripts/nac_hw_bridge.py:1404-1411 | after k creations of a year the next gets number k + 1 and a new place exactly while k is below 10000 |
| OperatorNumbering.CreationOverwritesTakenPlace | scripts/nac_hw_bridge.py:742-746 | on a taken place a creation replaces the record and appends a second creation event to its log |
| OperatorNumbering.BoundReached | scripts/nac_hw_bridge.py:1404-1411 | for every count there is a run that creates so many matters in a year, and a further creation succeeds |
| OperatorNumbering.TakenPlaceIsReached | scripts/nac_hw_bridge.py:1404-1411 | there is a run after which a creation succeeds on a taken place, and the next one would take it again |
| OperatorNumbering.StepPreserves | scripts/nac_hw_bridge.py:738-748 | a step that stays fresh keeps every existing matter's binding, checklist, persons and document, and only appends to its log |
| OperatorNumbering.RunPreserves | scripts/nac_hw_bridge.py:738-748 | while every request that gets as far as a number comes within the bound, that holds from any point of a run to its end |
| OperatorProposals.ProposeFilesFresh | scripts/nac_hw_bridge.py:449-486 | a filed proposal is pending, on a new file, and replaces none |
| OperatorProposals.StepAdvances | scripts/nac_hw_bridge.py:506-526 | a step leaves a proposal as it is, or turns a pending one into an accepted one |
| OperatorProposals.RunKeepsAcceptance | scripts/nac_hw_bridge.py:506-526 | over every run a proposal leaves pending at most once and keeps its acceptance |
| OperatorProposals.AcceptedProposalsDiffer | scripts/nac_hw_bridge.py:522-525 | accepted proposals map injectively to existing matters |
| OperatorProposals.RunSettles | scripts/nac_hw_bridge.py:519-527 | within the bound, over every interleaving, each accepted proposal's matter has exactly one acceptance event, whose id leads to that proposal's file |
| OperatorProposals.AcceptanceNamesRequest | scripts/nac_hw_bridge.py:500-527 | on a new place the log of an accepted proposal holds one acceptance, the id as requested; it is the stored id exactly when the request spelled it so |
| OperatorProposals.RecordedIdStays | scripts/nac_hw_bridge.py:500-527 | within the bound that log still holds this acceptance and no other at the end of the run |
| OperatorProposals.LowerCaseIsRecorded | scripts/nac_hw_bridge.py:501-527 | the lower-case spelling of an id accepts every acceptable proposal, and is what the log holds |
| OperatorProposals.FirstProposalLowered | scripts/nac_hw_bridge.py:441-527 | in an empty repository the first proposal can be accepted so, and its log names a text that is not its id |
| OperatorProposals.PendingIsAccepted | scripts/nac_hw_bridge.py:498-533 | the staged files of a pending proposal are always present, so accepting it fails exactly for what it holds itself, with the effect of each failure |
| OperatorProposals.PendingIsAcceptedExactly | scripts/nac_hw_bridge.py:498-533 | after any run, accepting a pending proposal succeeds exactly when its stored usecase is not empty, every missing title or label has room for its default, and every path fits into a value |
| OperatorProposals.UnacceptableStaysPending | scripts/nac_hw_bridge.py:498-533 | a proposal for which this fails stays pending in every run |
| OperatorProposals.BlankUsecaseStaysPending | scripts/nac_hw_bridge.py:445-461 | a usecase given as blanks only is not replaced by the default, so the filed proposal stays pending whatever follows |
| OperatorProposals.PlainProposalIsFiled | scripts/nac_hw_bridge.py:445-461 | such a request is filed; one without any value is filed too, and can be accepted |
| OperatorIndexes.SuccessReindexes | scripts/nac_hw_bridge.py:1323-1359 | after every successful creation, status change or acceptance the indexes equal a fresh scan, whatever they were before |
| OperatorContents.IndexesList | scripts/nac_hw_bridge.py:1323-1359 | the indexes list every matter, person and document once, ascending by year and id, by file name, and by id, with the fields of its record |
| OperatorIndexes.NumberedReindexes | scripts/nac_hw_bridge.py:738-749 | a request that takes a number rebuilds the indexes exactly unless one of its files cannot be attached |
| OperatorIndexes.UnindexedStep | scripts/nac_hw_bridge.py:441-788 | a step that does not rebuild the indexes changes no indexed record but the person files such a request writes |
| OperatorIndexes.StepKeepsIndex | scripts/nac_hw_bridge.py:738-749 | fresh indexes stay fresh through a step exactly when each person file such a request writes is already there as it is |
| OperatorIndexes.RunIndexes | scripts/nac_hw_bridge.py:1323-1359 | at any time of any run the indexes are those of the last rebuilding, and only such person files were written since |
| OperatorIndexes.RunKeepsIndex | scripts/nac_hw_bridge.py:1323-1359 | after any run the indexes equal a fresh scan exactly when the person files written since the last rebuilding hold what they held then |
| OperatorIndexes.OrphansStayUnindexed | scripts/nac_hw_bridge.py:738-740 | such a request leaves the indexes as they were with its person files on disk, and stale if one of them is new |
| OperatorIndexes.FirstOrphans | scripts/nac_hw_bridge.py:738-740 | in an empty repository a request with one file that cannot be attached makes the indexes stale |
| OperatorIndexes.FilesThatLeaveOrphans | scripts/nac_hw_bridge.py:926-933 | a missing file is such a file, and so is one that is there under a label with a line break or of 600 characters |
| OperatorIndexes.BlankSourceIsSkipped | scripts/nac_hw_bridge.py:923-925 | a blank source is skipped: the request succeeds and the indexes are fresh |
| GovernanceYaml.StripYamlInlineComment | scripts/validate_governance_sync.py:219-237 | the scanner cuts at exactly the first `#` outside quotes that is first or after whitespace, and otherwise returns the value untouched |
| GovernanceYaml.OutsideMeansClosed | scripts/validate_governance_sync.py:220-235 | the scanner counts a position as outside quotes exactly when the text before it is a sequence of bare characters and complete quoted pieces, with backslash escapes in double quotes only |
| GovernanceYaml.StripCommentIsIdempotent | scripts/validate_governance_sync.py:219-237 | the result holds no comment, and stripping again changes nothing |
| GovernanceYaml.ScalarReadsBack | scripts/validate_governance_sync.py:240-250 | every plain, quoted or boolean scalar reads back as its value; a quoted one may hold anything but its own quote and, in double quotes, a backslash |
| GovernanceYaml.ParseSimpleYamlBlock | scripts/validate_governance_sync.py:253-297 | on arbitrary lines the index loop terminates, never moves back, and computes the recursive parse |
| GovernanceYaml.MappingStops | scripts/validate_governance_sync.py:272-297 | a mapping stops at exactly the first shallower line or item of its own depth |
| GovernanceYaml.ListStops | scripts/validate_governance_sync.py:259-267 | a list stops at exactly the first line that is not an item of its own depth |
| GovernanceYaml.BlockStops | scripts/validate_governance_sync.py:253-297 | a block of either kind leaves over exactly the lines from its first ending line on |
| GovernanceYaml.ListStopsAtDeeperLine | scripts/validate_governance_sync.py:261-264 | a list followed by a deeper line ends there |
| GovernanceYaml.BlockReadsBack | scripts/validate_governance_sync.py:253-297 | parsing the printed form of any printable block, whatever shallower lines follow, returns its value and leaves exactly those lines |
| GovernanceYaml.LoadSimpleYamlMapping | scripts/validate_governance_sync.py:300-311 | the loader skips blank and comment lines, keeps indents and parses the rest |
| GovernanceYaml.LoadReadsDocument | scripts/validate_governance_sync.py:300-311 | a file whose kept lines are a printed document loads as that document, whatever blank and comment lines are mixed in |
| GovernanceYaml.NoiseDoesNotMatter | scripts/validate_governance_sync.py:300-311 | a line that is blank or whose first other character is `#` can be inserted anywhere without changing what is loaded |
| GovernanceYaml.IndentExactly | scripts/validate_governance_sync.py:305 | the indent of a line is the number of blanks in front of its first other character |
| GovernanceYaml.LastPairCounts | scripts/validate_governance_sync.py:272-297 | on any lines of one depth, with repeated keys, deeper lines and lines without a colon among them, a key has the last value given to it |
| GovernanceYaml.LoadInvertsPrinting | scripts/validate_governance_sync.py:300-311 | loading the printed form of any document (distinct keys, non-empty nested blocks, any strictly deeper indents) returns that document; a comment in place of a value means an empty mapping |
| GovernanceYaml.MappingHasNoDashKeys | scripts/validate_governance_sync.py:272-297 | on arbitrary lines no mapping that is read, at any depth, holds a key that begins like an item |
| StartupYaml.ParseSimpleYaml | scripts/startup_check.py:32-81 | the one-pass loop terminates on arbitrary lines, its appends always meet a list, and it computes the line-by-line state machine |
| StartupYaml.SectionScan | scripts/startup_check.py:44-79 | in whatever state the parser is, a printed section is read as its field and leaves the state of that section |
| StartupYaml.ParseInvertsPrinting | scripts/startup_check.py:32-81 | parsing the printed form of any two-level document returns it |
| StartupYaml.NoiseKeepsParse | scripts/startup_check.py:41-43 | a blank line or one whose first other character is `#` can be inserted anywhere without changing what is parsed |
| StartupYaml.ListKeyExactly | scripts/startup_check.py:69-73 | a section is a list exactly when its name ends in `_commands`, `_files` or `_required` |
| StartupYaml.ParsersAgree | scripts/startup_check.py:32-81 | on every printed two-level document both YAML parsers return the same mapping exactly when no key begins like an item, no list is empty, and no value holds a comment or is a bare flag or quoted text |
| StartupYaml.EmptyListsDiffer | scripts/startup_check.py:70-73 | an empty list section is a list to one and an empty mapping to the other |
| StartupYaml.FlagsDiffer | scripts/startup_check.py:78-79 | only the governance parser turns true and false into flags |
| BpmnValidation.ValidateBasicBpmn | scripts/validate_bpmn_models.py:194-254 | the loops report the errors in order, and none exactly for a model with a process, whose processes have id, name, start, end, known flow ends, permitted node names and labelled decisions |
| BpmnValidation.ValidateNacProfile | scripts/validate_bpmn_models.py:257-306 | the loops report the errors in order, and none exactly when every profiled process has owner, binding and diagram and every node role, channels, data class, approval, evidence and graph reference as allowed |
| BpmnValidation.ValidateModel | scripts/validate_bpmn_models.py:315-324 | a parsed file is accepted exactly when both checks are met |
| BpmnConformance.ChecksDemandExactly | scripts/validate_bpmn_models.py:194-324 | both checks report nothing exactly for the models described element by element: node kinds, names without a hint at a secret anywhere and in any capitals, known flow ends, a label on each way out of a decision, and every profile attribute by its literal values |
| BpmnValidation.CheckPaths | scripts/validate_bpmn_models.py:245-253 | the dictionary of flow names gives each outgoing path the label of the last flow with its id |
| UsecaseBpmn.RenderBpmn | scripts/generate_usecase_bpmn.py:363-429 | the appending loops build the element tree of the given steps: nodes with their one incoming and outgoing flow, flows between neighbours, shapes and edges |
| UsecaseBpmn.StepLayout | scripts/generate_usecase_bpmn.py:462-469 | the layout dictionary holds one box per id, the later step winning |
| UsecaseAcceptance.AcceptedExactly | scripts/generate_usecase_bpmn.py:363-459 | for any list of steps of any kinds both checks accept what is rendered exactly when slug and title are not empty, a start and an end occur, and every step is legal: an id, not the kind of a flow, and complete if it is a flow node |
| UsecaseSteps.TokensOfChannels | scripts/validate_bpmn_models.py:309-312 | the validator's channel splitting gives back the tokens the generator joined |
| UsecaseVocabulary.CleanHasNoForbiddenPart | scripts/validate_bpmn_models.py:233-236 | a text without the five telltale triples holds none of the forbidden name parts, in any case |
| UsecaseSteps.BuildStepsFit | scripts/generate_usecase_bpmn.py:123-186 | for every slug the steps begin with a start, end with an end, and are all legal |
| UsecaseSteps.EveryUsecaseAccepted | scripts/generate_usecase_bpmn.py:93-110 | for every slug and title the generated model passes both checks exactly when neither is empty |
| UsecaseRuns.OneMaximalRun | scripts/generate_usecase_bpmn.py:368-392 | the sequence flows rendered from any chain of distinct steps admit exactly one maximal run, the steps in list order |
| UsecaseRuns.BuildStepsChain | scripts/generate_usecase_bpmn.py:123-203 | for every slug the ids are distinct and the only start comes first |
| UsecaseRuns.BuildStepsCheck | scripts/generate_usecase_bpmn.py:189-203 | the workstation check is a step exactly where it is required, and comes in time for every step that uses the workstation channel or needs four eyes |
| UsecaseRuns.EveryRunIsChecked | scripts/generate_usecase_bpmn.py:123-203 | in every maximal run of a generated process each node using the workstation channel is, or comes after, the workstation check, and where the check is required the four-eyes node comes after it |
| UsecaseDemands.FourEyesExactly | scripts/generate_usecase_bpmn.py:123-203 | for every slug exactly one step needs four eyes, a manual task of the notary; it stands before the only send task and, where there is a check, after it; every other task but the check needs a human |
| UsecaseDemands.OneFourEyesNode | scripts/generate_usecase_bpmn.py:363-429 | in the rendered process exactly one flow node has that approval, and it is that manual task of the notary |
| UsecaseDemands.ChecksExactly | scripts/generate_usecase_bpmn.py:352-360 | the check is part of the process exactly for the register usecases and the six that need the card |
| UsecaseDemands.SendsByItsRoute | scripts/generate_usecase_bpmn.py:288-299 | the send task uses the register, land register, court or authority channel exactly in the usecases of that kind, and only register usecases go without post |
| UsecaseDemands.OfficesByKind | scripts/generate_usecase_bpmn.py:246-309 | intake, documents, draft and follow-up deal with the register, the land register and the court exactly in the usecases of that kind |
| UsecaseDemands.SigningByKind | scripts/generate_usecase_bpmn.py:276-287 | identity and signature are electronic and use the workstation exactly in register usecases |
| UsecaseLayout.ShapesApartExactly | scripts/generate_usecase_bpmn.py:462-469 | for any number of steps no two shapes overlap exactly when no two steps share an id |
| UsecaseLayout.EdgesRunStraight | scripts/generate_usecase_bpmn.py:409-419 | for any steps all edges run level from the middle of their source's right side to the middle of their target's left side, to the right, exactly when no two steps share an id |
| Onboarding.Wizard.RunStart | scripts/onboarding_wizard.py:128-241 | in place, the session file becomes that of the visit step; the run is refused with exit code 1 exactly for a closed session, a visitor whose account, principal or roles in the registry do not admit the role, or a line that names no mode, which writes nothing, and ends in the exception of a prompt exactly when its prompts need more lines than there are |
| Onboarding.RegisteredExactly | scripts/onboarding_wizard.py:90-166 | who may act in a role is exactly whose login names the first account with that id, which is active, whose principal is the first with its id and active and lists a technical role of that normal form |
| Onboarding.VisitWrites | scripts/onboarding_wizard.py:128-241 | a refused visit, or one that finds no mode, changes nothing; any other adds exactly its answers to the required questions of the mode, one to each question that is open to the role, without an answer, and given a text that is not blank, in order, before the input runs out |
| Onboarding.RequiredInOrder | scripts/onboarding_wizard.py:181-185 | the required questions are those of the mode, in the order of the flow |
| Onboarding.Wizard.AskQuestions | scripts/onboarding_wizard.py:190-237 | the question loop saves after every answer, so the file holds the answers so far also when the input runs out, which it does exactly when fewer lines come than open questions ask for one |
| Onboarding.Wizard.RunFinalize | scripts/onboarding_wizard.py:339-397 | finalising succeeds exactly for an open session, writes its copy and plan, and closes it |
| Onboarding.AskedFit | scripts/onboarding_wizard.py:190-233 | every answer of a visit is non-empty, by the visitor, to an open question of the mode whose normalised roles admit the visitor |
| Onboarding.AskedOnceExactly | scripts/onboarding_wizard.py:190-233 | no visit in a role answers a question id twice, whatever it brings, exactly when no two questions with one id are both open to that role |
| Onboarding.SharedIdAnswersTwice | scripts/onboarding_wizard.py:177-233 | where somebody may act in a role to which two questions with one id are open in one of the two modes, one visit answers both |
| Onboarding.RunsAnswerOnceExactly | scripts/onboarding_wizard.py:128-241 | with given registries and flows no runs ever answer a question id twice exactly when none of them allows that |
| Onboarding.DistinctIdsAskOnce | scripts/onboarding_wizard.py:177-192 | distinct question ids rule it out |
| Onboarding.StepGrows | scripts/onboarding_wizard.py:128-241 | a run only appends answers, changes nothing once finalised, and changes a stored mode only together with a new answer |
| Onboarding.RunsKeepInv | scripts/onboarding_wizard.py:128-241 | over any runs of any actors, each with its own registry and flow, every answer was given in a run in whose registry the author's first account and its principal are active and list the role, which its question admits; where no flow allows a second answer there is none; a closed session has its bundle |
| Onboarding.RunsGrow | scripts/onboarding_wizard.py:139-141 | over any runs answers only grow by appending, and a finalised session and its bundles never change |
| Onboarding.BundleKeepsFinalAnswers | scripts/onboarding_wizard.py:348-392 | after finalising, whatever runs follow, the bundled copy holds exactly the session's final answers |
| Onboarding.ExportPlan | scripts/onboarding_wizard.py:276-325 | the plan lists, phase by phase, the questions the mode requires with their latest answer or as open |
| Onboarding.RunStatus | scripts/onboarding_wizard.py:244-273 | the open questions are exactly the required ones without an answer, and done and open add up to the total |
| Onboarding.PlanShowsOpenQuestions | scripts/onboarding_wizard.py:296-322 | the plan shows a question as open exactly when the mode requires it, a phase holds it and no answer has its id |
| Onboarding.PlanShowsAnswers | scripts/onboarding_wizard.py:296-322 | the plan shows a question with an answer exactly when the mode requires it, a phase holds it and that is the last answer with its id |
| Onboarding.PlanAgreesWithStatus | scripts/onboarding_wizard.py:244-325 | where every question has its phase, plan and status report the same open questions |
| Ordering.AscendingIsUnique | scripts/build_m365_current_state_read_driver.py:342 | two strictly ascending lists with the same members are equal, so a sort forgets the order it was given |
| Ordering.SortedSorts | scripts/build_m365_current_state_read_driver.py:239 | the sort gives an ascending rearrangement of its input |
| Ordering.StringLessExactly | scripts/build_m365_current_state_read_driver.py:342 | one text sorts before another exactly when they agree up to a place where it ends or has the smaller character |

## Left out

- Permission errors, limits of the file system on names, copying a file onto itself, races with other processes and crashes in the middle of an operation; every file read finds what was last written. A title of several hundred characters without originals exceeds the name limit of many file systems after the person files were written.
- HTTP handlers, CORS, static files, subprocesses, hardware readiness, import jobs and base64 decoding of the operator bridge.
- Record fields nothing depends on: guardrails, display labels, event texts, participants and documents side files.
- JSON shape checks (`isinstance`, exact key sets), which the datatypes enforce.
- Staging a source file by its local path; decoding an upload, whose outcome is given.
- Following a source text that is no staged path: which of them lead to a file of the repository, and its name, is an input of the creation; one that leads outside the repository fails like a missing one.
- The media type guessed from a file name; without one given it is the general default.
- Copies of document originals on disk, also those a failed creation leaves; a matter's document records label, path and media type of each, and placeholders are not recorded.
- Building a checklist from a usecase's knowledge graph or tasks; a creation receives its sections, and a summary starts from sections and items.
- The order of the matter list by opening time, and all display texts.
- Proposal rejection: the script has no operation that rejects.
- `fnmatch` on one segment is a parameter with one law, that a segment without `*`, `?` and `[` matches only itself.
- The `resolve` checks of the glob search, which hold by themselves when the path below the root follows no link; Windows path syntax there and in file names.
- Windows access lists, handles and reparse attributes of the sealing step; a reparse point is a symbolic link of the tree.
- File contents and hashes: a file carries its size and hash, and the digest is determined by the sorted list.
- `urlsplit` in the licence catalogue is a parameter, as the verdict on a source address.
- `validate_inventory_bundle_mapping`, whose SBOM functions are not part of this model.
- Unicode: whitespace, digits and upper and lower case are those of ASCII, with the German umlauts in lowering.
- Splitting a file into lines; the parsers start from the lines, and printed keys and values hold no line break.
- XML text: escaping, namespaces and parsing. The slug is written into `nac:kgRef` without escaping, which the element tree does not show.
- `safe_id` with its digest; the model takes its result, and only ever needs that ids with a prefix are not empty.
- The descriptor check of the BPMN validator, which compares a file with constants.
- UsecaseAcceptance.AcceptedExactly: a kind that is no XML name would make the rendered text unreadable, which the element tree does not show.
- UsecaseRuns.OneMaximalRun: a run is a path along sequence flows; with one flow out of each node no token ever forks.
- StartupYaml.ParsersAgree: documents are those the flat parser has a printed form for; other lines it reads too are left to `StartupYaml.ParseSimpleYaml`.
- Onboarding timestamps, printed hints and diagrams, the PDF export and the manifest's hashes.
- The remaining `validate_*` scripts, provisioning, plugin mirroring and report texts, which compare literals or dispatch commands.
