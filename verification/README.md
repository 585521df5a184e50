# Stashden, verified

Stashden keeps files on a server, in a tree of folders per account, and keeps local folders in step with
it. This project models the parts of it that decide whether files survive, in Dafny, and proves what they
keep. It has three large parts and three small ones.

- **Folder sync** (`crates/client/src/sync`). A pass compares the local folder, the server and the snapshot
  last agreed on, and plans an ordered list of actions; shares and names the local folder cannot hold narrow
  what it may touch; the actions are carried out one step at a time, and a pass may stop after any step. The
  server's removal of a folder is recursive, the local one is not. `Paths`, `ConflictNames`, `Planning`,
  `Engine`, `NoLoss`, `Convergence`, `Recovery`, `Agreement`, `Sharing`, `Fit`, `Bystanders`, `Passes`.
- **The storage ledger** (`api/src`). Nodes, versions, thumbnails, blobs and quotas, changed by twenty kinds
  of transaction. Two numbers are derived, the references of a blob and the bytes an account uses, and
  `check.rs` says what they should be. `Sound` joins that balance with the shape of the tables: a forest
  of nodes, live nodes below live nodes only, trash batches that are connected subtrees, unique names among
  live siblings. `Tables`, `Sums`, `Trees`, `Ledger` and `Histories` hold the specification; `Files`,
  `Overwrites`, `Trash`, `Purging`, `Moving`, `Copying`, `Transfer`, `Departure`, `Upkeep` one group of
  operations each; `Runs` every sequence of them; `Idleness` how long a blob has gone unreferenced;
  `Accounts` whose rows a transaction touches; `Admission` what an upload is told it may bring. The modules named `…Transactions` hold the
  operations as the server performs them, statement by statement on a class of tables, each proved equal
  to its specification.
- **Two interleaved protocols.** `Uploads` and `Resumable`: a resumable upload with claims, renewals, dead
  writers and retries, and the client loop at its other end. `Sweeping`: uploads against the sweep, over the
  content-addressed store on local disk.
- **Attempts, grants, parts.** The bound of the sign-in limiter (`Attempts`), grants that follow an address
  (`Grants`), and the splitting of a stream or a copy into parts for S3 (`Parts`).

A string is a sequence of UTF-8 bytes, one per character. A transaction is one step: what it does when it
commits is specified, and one that fails leaves nothing behind. Hashes stand for contents, time is an
integer that does not decrease, ids are drawn in rising order.

## What the proofs found

Most of what the source promises holds as it is. These are the places where it does not, each with the
exact condition under which the promise is kept and an input that shows it is not kept otherwise.

- A name the local folder cannot hold is said to be left alone on both sides (README.md:683-687). It is
  filtered out before the plan is made, so the test whether a folder holds only what was synced does not see
  it, and it goes with its folder when that is removed here. `Passes.UnseenRemoteSurvives` says exactly when
  an entry survives on the server; `Fit.TwoSpellingsGoWithTheirFolder` is a folder that takes two with it.
  In the local folder such an entry can be changed, by a pass cut off anywhere, exactly when it is a file and
  another content is set aside under its name (`Passes.UnseenLocalStays`); `Passes.CopyTakesUnseen` is a file
  that a conflict copy replaces.
- Taking a share away locally is meant to take nothing of the owner's with it. If the share gained anything
  meanwhile, the plan does not remove its folder, and the deletions of what else it holds go through:
  `Sharing.WhatIsHeldBack` is the exact condition, `Sharing.AGainedFileLetsTheOthersGo` the input.
- An edit can be lost through the name of a conflict copy. `NoLoss.LosingTakesAClash` says exactly when, for
  every part of a plan in its order and every cut, whatever holds the plan back and whatever else the two
  sides hold: when some copy clashes, that is, takes the place of another change, is taken in its turn by what
  is planned for its name, or shares its name with another copy. `Sharing.NarrowedLosingTakesAClash` and
  `Passes.WholePassLosingTakesAClash` say it of narrowed plans and of whole passes. Names left whole never
  share one. A name the server has taken (`NoLoss.TakenCopyLosesTheEdit`) and two names cut to the same one
  (`NoLoss.TruncatedCopiesLoseAnEdit`) are the inputs.
- A claim on an upload session does not look again at how far the session is. A request that loaded it
  earlier and claims it later cuts away what was received in between: `Uploads.StaleExactly` and
  `Uploads.StaleClaimLosesBytes`. In every run in which claims find the session where it was loaded, the
  staged file begins with what was received.
- An upload that finds no copy in the store and then renames its file over a younger one, put there
  meanwhile, makes that one look old. The sweep can then take bytes that the upload of the younger file goes
  on to reference. `Sweeping.PlacingIsExact` says exactly when such a rename makes that possible: the younger
  upload may still commit, and the row has been idle since before its bytes were written.
  `Sweeping.AnOlderFileLosesBytes` is a run in which it happens.
- Moving grants from an address to itself deletes all of them, and nothing keeps `set_email` from asking for
  that: the last clauses of `Grants.Table.Reassign` tell the two cases apart.
- The search for a free mount name takes one try more than there are names taken, except when numbering gives
  the wanted name back and exactly the names tried are taken, when it takes two: `Grants.OneTryMore`, and
  `Grants.NumberingMayGiveTheNameBack` for the input.
- A repair sets every count and every charge right, from any state. It does not look at the idle mark of a
  blob whose count was right, nor at accounts that have no quota row: `Upkeep.RepairBalances` is the exact
  condition for all of the ledger to balance afterwards, `Upkeep.UnmarkedRowStaysUnmarked` a row that no
  repair marks and no sweep takes.
- `incoming::room` is meant to say what an upload may bring. It counts all that the file's history holds, but
  a write gives history up only where it keeps history: not over an empty file, not with the same content, and
  not where no versions are kept. For an account within its quota a write succeeds exactly up to the room less
  the history it cannot spend (`Admission.RoomLessHistory`); `Admission.RoomIsNotAlwaysThere` is a state a
  server reaches in three steps in which the room is 10 and a write of 5 is refused.
- An account whose maximum was lowered below what it uses is refused credits as well, so a write can fail
  although there is room. `Admission.PutFileIsExact`, with `Histories.RoomIsExact` and
  `Overwrites.OverwriteIsExact`, is exact for every account with a quota row, `Histories.OverQuotaIsRefused` is
  the input. For the same reason trashing may be refused, and MOVE and COPY with it (`Trash.SendNeedsCredit`,
  `Transfer.ClearIsExact`), what was trashed may not come back (`Trash.ThereAndBack`), and a version may not be
  put back evenly (`Overwrites.RestoringIsEven`).

## Model

| member | source | states |
|---|---|---|
| `Paths.ParseName` | crates/core/src/name.rs:30-51 | a name is accepted exactly when it is valid, and unchanged |
| `Paths.ParseRoundTrip` | crates/client/src/sync/path.rs:20-32 | what is parsed is a valid path, and exactly the valid paths parse to themselves |
| `Paths.InsideIsAProperPrefixOfSegments` | crates/client/src/sync/path.rs:52-56 | the string test for being inside a directory is the proper-prefix relation on segments |
| `Paths.ParentIsNearest` | crates/client/src/sync/path.rs:59-63 | the parent is the nearest of the directories a path is inside of, and missing exactly when there are none |
| `Paths.WithFileNameIsBeside` | crates/client/src/sync/path.rs:69-75 | a valid path given another valid name is the path beside it, never a refusal |
| `ConflictNames.FloorCharBoundary` | crates/client/src/sync/plan.rs:168-176 | the longest cut within the limit that splits no character |
| `ConflictNames.ConflictNameIsValid` | crates/client/src/sync/plan.rs:148-166 | the copy's name is valid whatever the length of the name it comes from |
| `ConflictNames.ConflictCopyExists` | crates/client/src/sync/plan.rs:148-166 | every valid path has a conflict copy, valid, in the same directory |
| `ConflictNames.UntruncatedNamesStayApart` | crates/client/src/sync/plan.rs:148-166 | two names that are not cut never share a copy |
| `ConflictNames.TruncatedNamesMayMeet` | crates/client/src/sync/plan.rs:156-162 | two distinct names at the length limit that share one |
| `Planning.ScanSeesTheWholeDirectory` | crates/client/src/sync/plan.rs:106-113 | the ordered scan that stops early is equivalent to: every remote entry inside the directory is as in the base |
| `Planning.Reconcile` | crates/client/src/sync/plan.rs:37-104 | the loop over seven lists, two of them reversed, yields the plan specified path by path |
| `Planning.PlanHolds` | crates/client/src/sync/plan.rs:37-104 | an action is in the plan exactly when its path asks for it |
| `Planning.BlockedHolds` | crates/client/src/sync/plan.rs:52-87 | the paths reported as blocked are exactly those the sides disagree on |
| `Planning.PlanInOrder` | crates/client/src/sync/plan.rs:89-104 | creations parents first, then transfers, deletions, removals children first, then what is forgotten |
| `Planning.SubjectsAreDistinct` | crates/client/src/sync/plan.rs:37-104 | no path is the subject of two actions |
| `Planning.InsideARemovalIsRemoved` | crates/client/src/sync/plan.rs:52-113 | everything inside a folder to be removed on the server has a removal of its own |
| `Planning.RemovalsComeChildFirst` | crates/client/src/sync/plan.rs:89-113 | and each of these comes earlier in the plan |
| `Engine.SyncEngine.RecordDirectoriesAbove` | crates/client/src/sync/engine.rs:338-345 | the loop up from a path records exactly the directories above it |
| `Engine.SyncEngine.ApplyAction` | crates/client/src/sync/engine.rs:187-336 | carrying out one action, up to the first step that fails, changes folder, server and state as its steps say; what those steps keep, in whatever way they are cut, is said of runs below |
| `Passes.SyncOnce` | crates/client/src/sync/engine.rs:114-164 | a whole pass in place, from the filters and the narrowing to the state saved, is the pass the theorems speak of |
| `Passes.PlainPassIsThePass` | crates/client/src/sync/engine.rs:122-135 | with nothing to leave out and nothing to hold back it is the plain pass that converges |
| `Engine.KeepsBothAt` | crates/client/src/sync/engine.rs:245-269 | what keeping both leaves at every path of both sides |
| `NoLoss.LosingTakesAClash` | crates/client/src/sync/engine.rs:152-345 | over every part of what is left of a plan, in its order, cut off anywhere, some changed file can be lost exactly when a conflict copy clashes; for any rule that holds actions back, and with more on the two sides than the pass looks at |
| `NoLoss.PlainLosingTakesAClash` | crates/client/src/sync/engine.rs:152-345 | the same for the plan as it is, on the snapshots it was made from |
| `NoLoss.WithoutAClashNothingIsLost` | crates/client/src/sync/engine.rs:152-345 | then a file changed here is under its path or, once set aside, under its copy, and a file changed on the server is still there, whatever else the two sides hold |
| `NoLoss.NothingIsLost` | crates/client/src/sync/engine.rs:152-345 | with fresh, distinct copies and in any order of attempts, the changed file is in the folder itself |
| `NoLoss.TakenCopyLosesTheEdit` | crates/client/src/sync/engine.rs:245-310 | when the copy's name is taken on the server, two attempts leave the local edit on neither side |
| `NoLoss.TruncatedCopiesLoseAnEdit` | crates/client/src/sync/plan.rs:156-162 | two long names share a copy, and setting the second aside loses the edit of the first |
| `ConflictNames.NoNamesSwap` | crates/client/src/sync/plan.rs:148-166 | no two names are each other's copies |
| `Convergence.PassConverges` | crates/client/src/sync/plan.rs:37-146 | a completed pass leaves both sides equal, and the plan made next is empty |
| `Recovery.CutPassRecovers` | crates/client/src/sync/engine.rs:152-164 | after a pass cut off anywhere, its state saved or not, the next one to complete leaves both sides equal and nothing to do |
| `Agreement.OnlyTheAgreedIsRecorded` | crates/client/src/sync/engine.rs:187-345 | whatever part of a plan is carried out, each action cut off anywhere, an entry the state has gained is what both sides hold at that path at that moment |
| `Agreement.CutPassKeepsSecure` | crates/client/src/sync/engine.rs:152-345 | what is safe before a pass cut off anywhere is safe after it, under its path or, once set aside, under its copy |
| `Agreement.ManyCutPassesLoseNothing` | crates/client/src/sync/engine.rs:152-345 | a file gained by either side is still there, under its path or a copy of it, after any number of passes each cut off anywhere and each starting from what the one before left |
| `Agreement.DeletionsStick` | crates/client/src/sync/engine.rs:152-345 | a file deleted on one side is not brought back by an interruption: the next pass asks for the deletion again, or nobody has the file |
| `Agreement.UploadsReplaceOnlyTheListed` | crates/client/src/sync/engine.rs:312-336 | whatever else was written to the server meanwhile, an action that is no deletion takes nothing off it, and replaces a file only by uploading that path and only if it is still the one listed |
| `Passes.WholePassLosesNothing` | crates/client/src/sync/engine.rs:114-164 | no loss for a pass as it is, with what it leaves out still there and its plan narrowed, as long as no copy clashes |
| `Passes.WholePassLosingTakesAClash` | crates/client/src/sync/engine.rs:114-164 | and such a pass can lose something, cut off somewhere, exactly when one does |
| `Passes.UnseenRemoteSurvives` | crates/client/src/sync/engine.rs:128-152 | a server entry left out survives a whole pass exactly when no folder above it was removed here as synced and is not held back |
| `Passes.UnseenLocalStays` | crates/client/src/sync/engine.rs:128-152 | a local entry left out can be changed by a pass cut off anywhere exactly when it is a file and another content is set aside under its name, right away or along a chain of copies |
| `Bystanders.BystandersStay` | crates/client/src/sync/engine.rs:187-281 | the same of whatever a pass does not look at |
| `Passes.CopyTakesUnseen` | crates/client/src/sync/engine.rs:245-248 | a file left out for its spelling that the copy of a conflicting file replaces |
| `Sharing.Held.RootsKept` | crates/client/src/sync/held.rs:29-37 | the shares and shelf the plan wants gone |
| `Sharing.Held.ApplyInTurn` | crates/client/src/sync/held.rs:29-62 | the loop that sorts actions yields the narrowed plan |
| `Sharing.NothingIsForgotten` | crates/client/src/sync/held.rs:29-62 | every action goes ahead, becomes setting the local file aside, or is listed as held |
| `Sharing.NothingTrespasses` | crates/client/src/sync/held.rs:29-105 | nothing left is an action that the shares hold back; `Sharing.ExactlyWhatGoesThrough` says which those are |
| `Sharing.ExactlyWhatGoesThrough` | crates/client/src/sync/held.rs:29-105 | in shares and segments: an upload, a new folder or a copy is left exactly when it is not in a read-only share and, on the shelf, is in some share; a removal exactly when it is not in a read-only share, not a share or the shelf, and not inside one the plan removes; everything that happens here is left |
| `Sharing.ExactlyWhatIsReported` | crates/client/src/sync/held.rs:38-62 | what is reported as held is exactly what already was and what was left out |
| `Sharing.NarrowingIsIdempotent` | crates/client/src/sync/held.rs:29-62 | narrowing twice is narrowing once |
| `Sharing.NarrowedPlansLoseNothing` | crates/client/src/sync/held.rs:29-62 | the no-loss theorem for fresh copies holds of narrowed plans |
| `Sharing.WhatIsHeldBack` | crates/client/src/sync/held.rs:29-105 | the removal of a file or a folder on the server is held exactly in a read-only share, at a share or the shelf, or inside one that was removed here and is as it was synced |
| `Sharing.NarrowedPlansAreInOrder` | crates/client/src/sync/held.rs:38-56 | what is left of a plan keeps its order |
| `Sharing.WhatRemains` | crates/client/src/sync/held.rs:29-105 | the narrowed plan holds exactly the planned actions the shares allow, and the conflicting files that are only set aside |
| `Sharing.NarrowedLosingTakesAClash` | crates/client/src/sync/held.rs:29-62 | a narrowed pass can lose something, cut off somewhere, exactly when a copy clashes under what is held back |
| `Sharing.AGainedFileLetsTheOthersGo` | crates/client/src/sync/held.rs:29-37 | a share that gained a file and was removed here: the deletion of its other file goes through |
| `Fit.FindClashes` | crates/client/src/sync/fit.rs:41-87 | the loops find exactly the paths that share a folded spelling with another |
| `Fit.FindUnfit` | crates/client/src/sync/fit.rs:41-87 | the loops find exactly the names Windows refuses, the clashes, and everything inside either |
| `Fit.WindowsRefuses` | crates/client/src/sync/fit.rs:93-112 | the names refused are exactly those with a forbidden character, those that end in a dot or a space, and those that name a device, in any case, alone, before white space or before a dot and anything |
| `Fit.UnfitExactly` | crates/client/src/sync/fit.rs:41-87 | in segments: a path is left alone exactly when it, or a directory above it, is a server path with a refused name or one of two spellings |
| `Fit.FittingIsClosed` | crates/client/src/sync/engine.rs:128-135 | what is left of both sides still holds every directory above its entries |
| `Fit.FittingFits` | crates/client/src/sync/fit.rs:41-112 | no two paths left fold together, and each server path left is one Windows can hold |
| `Fit.SubjectsFit` | crates/client/src/sync/engine.rs:128-152 | no planned action has an unfit subject |
| `Fit.UnseenSurvivesUnlessItsFolderGoes` | crates/client/src/sync/engine.rs:128-152 | the server's side of that with nothing held back: an entry left out survives exactly when no folder above it was removed here with all that is seen in it as synced |
| `Fit.TwoSpellingsGoWithTheirFolder` | crates/client/src/sync/engine.rs:128-152 | two spellings of one name deleted along with the folder they are in |
| `Transactions.Transaction.ReleaseBlobs` | api/src/trash.rs:122-124 | releasing one after another is releasing them all |
| `Histories.RoomIsExact` | api/src/versions.rs:89-108 | for every account with a quota row, room is made exactly when nothing is charged, or the size is at most the room and the first credit brings the account within its quota; what is given up is the shortest run of oldest versions, and the new version only when none remain |
| `Histories.WithinQuotaRoomIsAll` | api/src/versions.rs:89-108 | within the quota, room is made exactly for sizes up to what is left, the file holds and its history holds |
| `Histories.OverQuotaIsRefused` | api/src/db.rs:534-556 | an account over its quota, with room, that is refused |
| `Overwrites.OverwriteIsExact` | api/src/db.rs:253-273 | when an overwrite that keeps history succeeds, over the quota or within it, the credit for what falls out of the history included; it ends with the new content, the replaced one as newest version unless nothing less fits, and at most `kept` versions |
| `Admission.PlainOverwriteIsExact` | api/src/db.rs:258-273 | when an overwrite that keeps none succeeds: the difference fits, or is nothing and the credit for what falls out brings the account within its quota |
| `Admission.PutFileIsExact` | api/src/db.rs:226-312 | when a write succeeds, new file or old, with history or without, for every account with a quota row |
| `Admission.RoomLessHistory` | api/src/incoming.rs:18-32 | within the quota a write succeeds exactly up to the room less the history that it cannot spend, unless a folder has the name |
| `Admission.RoomIsNotAlwaysThere` | api/src/incoming.rs:18-32 | a state reached from a new server in which the room is 10 and a write of 5 is refused |
| `Overwrites.RestoringIsEven` | api/src/routes/versions.rs:50-78 | a version with other content, of a non-empty file with a history within the limit, is put back changing nothing but the two contents it swaps exactly when the account is within its quota or the version is empty, and that keeps the multiset of contents |
| `Files.PutFileKeepsTheLedger` | api/src/db.rs:226-312 | a write keeps the ledger sound and leaves exactly the file written: a new one, or the one there with the new content; no other node, no other file's version and no maximum changes |
| `FileTransactions.DropOldest` | api/src/versions.rs:131-150 | gives up the oldest version, its reference and its bytes, or says that there is none |
| `FileTransactions.MakeRoomIn` | api/src/versions.rs:89-108 | the loop that charges and drops is the specified making of room |
| `FileTransactions.PruneBeyondIn` | api/src/versions.rs:110-129 | the rows past the newest go, each reference released, all of them credited |
| `FileTransactions.PutFileIn` | api/src/db.rs:226-312 | the write in place is the specified one, refusals included |
| `FileTransactions.TakeIn` | api/src/versions.rs:41-59 | taking a version out in place, refusals included |
| `FileTransactions.RestoreVersionIn` | api/src/routes/versions.rs:50-78 | taking a version and writing it back, in one transaction |
| `Trees.MoveKeepsTheForest` | api/src/db.rs:404-468 | moving a node anywhere but under itself keeps the tree free of cycles |
| `Moving.CreateDirectoriesHolds` | api/src/db.rs:142-194 | what is missing of a path is made, all that was there stays, and the path leads to the directory handed back |
| `Moving.CreateDirectoriesIsExact` | api/src/db.rs:142-194 | it succeeds exactly when no live file is on the path, and is otherwise a conflict |
| `Moving.OnlyThePathIsMade` | api/src/db.rs:142-194 | every row made is a directory of the owner's on that path |
| `Trees.ContainsIsAtOrAbove` | api/src/db.rs:448-468 | the recursive query says exactly whether a chain of parents leads up from the one node to the other |
| `Moving.RenameKeepsTheLedger` | api/src/db.rs:404-443 | a rename that succeeds keeps the ledger and the forest, and the node is found where it was sent |
| `Moving.RenameIsExact` | api/src/db.rs:404-443 | it succeeds exactly when it goes into a directory, the node is not that directory or above it, and no live child has the name, and says which of these fails otherwise; and it changes only where the node is and its name |
| `TreeTransactions.CreateDirectoriesIn` | api/src/db.rs:142-194 | the loop along the segments is the specified making of directories |
| `TreeTransactions.CopyChildrenIn` | api/src/db.rs:339-347 | copying a directory's children keeps the invariant of the walk |
| `TreeTransactions.CopyTreeIn` | api/src/db.rs:314-351 | the walk over the stack ends, whatever order children come in, with a finished copy, or refuses for exactly four reasons |
| `TreeTransactions.CopyIsRefusedExactly` | api/src/db.rs:314-351 | the four reasons, in their order: into a file, into itself or below, over a live name, or more than the account has room for |
| `Copying.CopiedIsTheLiveTree` | api/src/db.rs:314-402 | what is copied is exactly what is live at or below the source |
| `Copying.CopyKeepsTheLedger` | api/src/db.rs:314-351 | a finished copy keeps the ledger sound |
| `Copying.CopyIsIsomorphic` | api/src/db.rs:314-351 | the copy is isomorphic to the live tree it came from, under fresh ids, adds nothing else, and charges exactly the sizes |
| `Transfer.ClearIsExact` | api/src/dav/transfer.rs:81-95 | what has the name makes way exactly when it may be replaced, does not hold the source and can be trashed |
| `Transfer.MoveIsExact` | api/src/dav/transfer.rs:62-102 | MOVE succeeds exactly when it stays in one account, what has the name makes way, and the source is not the directory it goes to or above it; and what it is refused for otherwise |
| `Transfer.MoveSparesItsSource` | api/src/dav/transfer.rs:81-102 | MOVE, overwriting or not, trashes nothing of its source and puts it where it was sent |
| `Transfer.CopySparesItsSource` | api/src/dav/transfer.rs:81-102 | COPY leaves every live node of its source as it was and copies the whole tree |
| `DavTransactions.ClearIn` | api/src/dav/transfer.rs:81-95 | the occupant makes way, or the request is refused |
| `DavTransactions.MoveIn` | api/src/dav/transfer.rs:62-102 | MOVE in place, and whether something was replaced |
| `DavTransactions.CopyIn` | api/src/dav/transfer.rs:81-102 | COPY in place, when it is refused and why, and whether something was replaced |
| `Trash.SendKeepsTheLedger` | api/src/trash.rs:11-38 | trashing takes exactly the live subtree as one batch, credits exactly what it and its versions were charged, changes nothing else and keeps the ledger sound |
| `Trash.SurvivorsAreListed` | api/src/trash.rs:40-52 | everything in the trash is under exactly one listed root |
| `Trash.StrandHolds` | api/src/trash.rs:232-254 | each row of an opened batch joins the one stranded row above it |
| `Trash.RerootCloses` | api/src/trash.rs:232-254 | rerooting leaves no row in the batch opened, and connected batches |
| `Trash.RestoreKeepsTheLedger` | api/src/trash.rs:54-90 | restoring revives exactly the batch and its trashed ancestors, charges exactly what they and their versions weigh, changes nothing else and leaves a sound trash |
| `Trash.RestoreIsExact` | api/src/trash.rs:54-90 | it succeeds exactly when the row heads a batch of the owner's, what would come back finds its place free, and there is room for its weight; what comes back is the batch and whatever above it is in the trash; and what it is refused for otherwise |
| `Trash.SendNeedsCredit` | api/src/trash.rs:11-38 | trashing succeeds exactly when the subtree weighs nothing or giving its charge back brings the account within its quota |
| `Trash.ThereAndBack` | api/src/trash.rs:11-90 | trashing and restoring gives back every table, exactly when the subtree weighs nothing or the account was within its quota |
| `TrashTransactions.SendIn` | api/src/trash.rs:11-38 | trashing in place |
| `TrashTransactions.RestoreAncestors` | api/src/trash.rs:195-230 | the loop upwards revives exactly the trashed rows above, adds up their sizes and names the batches it opened, or fails only where the tree would hold two of one name |
| `TrashTransactions.RestoreIn` | api/src/trash.rs:54-90 | restoring in place, its refusals included |
| `Purging.CascadeIsTheSubtree` | api/src/trash.rs:92-126 | what the database deletes with a root is exactly the subtree whose references are released |
| `Purging.PurgeKeepsTheLedger` | api/src/trash.rs:92-126 | a purge removes exactly the subtree and its versions, releases exactly the references they held, needs no credit and keeps the ledger |
| `Purging.DeletionReleases` | api/src/check.rs:10-37 | between two states whose counts are right, rows that went released exactly what they held |
| `Purging.EmptyLeavesNothing` | api/src/trash.rs:128-146 | emptying always works, takes exactly what the owner has in the trash with its versions, releases exactly what those held, and leaves all other rows and all quotas as they were |
| `TrashTransactions.PurgeIn` | api/src/trash.rs:92-126 | purging in place, and nothing changed when it is refused |
| `TrashTransactions.EmptyIn` | api/src/trash.rs:128-146 | emptying in place, root after root of those listed when it began; it always works on a sound ledger |
| `Departure.FreeNameIsFirst` | api/src/departure.rs:127-151 | a name is found exactly when one of the candidates is free, and it is the first that is |
| `Departure.HandOverNeedsRoom` | api/src/departure.rs:57-96 | a hand-over works exactly when a name is free and the recipient has room for all that the leaving account uses |
| `Departure.HandingOverConserves` | api/src/departure.rs:12-96 | every live node of the account as it began, and every version not of its trash, is kept; exactly what its trash held is released; the recipient's usage is the sum of the two, and nobody else's moves |
| `Departure.HandedOverInAFolder` | api/src/departure.rs:57-96 | what is handed over is in a new folder in the recipient's root, under the first of the candidate names that was free there |
| `Departure.EraseKeepsTheLedger` | api/src/departure.rs:38-55 | deleting the account releases exactly what its nodes held |
| `Departure.LeavingReleasesExactly` | api/src/departure.rs:12-55 | without a recipient it always works, takes exactly the account's nodes and versions, trashed or not, and releases exactly the references those held |
| `UpkeepTransactions.FreeNameIn` | api/src/departure.rs:127-151 | the loop finds the first free candidate |
| `UpkeepTransactions.EnsureRootIn` | api/src/db.rs:42-74 | a root and a quota row are there afterwards, made only where missing |
| `UpkeepTransactions.HandOverIn` | api/src/departure.rs:57-96 | the hand-over in place |
| `UpkeepTransactions.EraseIn` | api/src/departure.rs:38-55 | references read, rows deleted, each reference released |
| `UpkeepTransactions.RemoveIn` | api/src/departure.rs:12-55 | the departure in place |
| `UpkeepTransactions.WrongCounts` | api/src/check.rs:149-169 | every blob row whose count is wrong, with what it should be |
| `UpkeepTransactions.WrongCharges` | api/src/check.rs:171-191 | every quota row whose charge is wrong, with what it should be |
| `UpkeepTransactions.RepairIn` | api/src/check.rs:193-219 | setting each row found wrong leaves the repaired tables, and changes nothing but the counts, marks and charges that were wrong |
| `UpkeepTransactions.CheckAndRepair` | api/src/check.rs:81-121 | finding and repairing leaves every count and charge right, keeps every size and maximum, leaves rows that were right alone, and marks a corrected row idle exactly if nothing names it, since when it was if it was |
| `Upkeep.RepairIsExact` | api/src/check.rs:193-219 | that is the one way to put the tables right, and it is what a repair does |
| `Upkeep.RepairEstablishesTheSums` | api/src/check.rs:10-37 | from any state a repair leaves every count and charge at its sum over the tables |
| `Upkeep.RepairBalances` | api/src/check.rs:193-219 | afterwards the whole ledger balances exactly when no right count had a wrong idle mark and no usage lacks a quota row |
| `Upkeep.UnmarkedRowStaysUnmarked` | api/src/check.rs:149-219 | a row with a right count and a missing mark, which no repair changes and no sweep takes |
| `Upkeep.RepairLeavesTheSound` | api/src/check.rs:193-219 | a balanced ledger is left alone, and repairing twice is repairing once |
| `Upkeep.RegisterKeepsTheLedger` | api/src/db.rs:213-224 | registering a blob keeps the ledger, adds an unreferenced row idle from now if there was none, and changes no other |
| `Upkeep.RememberKeepsTheLedger` | api/src/thumbnails.rs:126-147 | remembering a thumbnail, new, the same or another, keeps the ledger; the first stays |
| `Upkeep.ForgetKeepsTheLedger` | api/src/thumbnails.rs:151-174 | forgetting the orphans keeps the ledger, and the thumbnails left are exactly those whose source is in a live node |
| `Upkeep.ForgettingClearsTheWay` | api/src/thumbnails.rs:151-174 | once the orphans are forgotten, no thumbnail keeps an idle blob from being swept |
| `Upkeep.SweepKeepsTheLedger` | api/src/sweeper.rs:99-136 | a sweep deletes only rows nothing names |
| `Upkeep.SweepIsExact` | api/src/sweeper.rs:99-136 | a row is swept exactly when nothing names it, no thumbnail is of it, and it was so before the grace began; no other row goes with it |
| `Idleness.StepIsHonest` | api/src/db.rs:489-506 | no step takes away a row of a blob but a sweep of it, changes a size or another account's maximum, or marks a row idle since any other moment than now |
| `Idleness.SweptWasIdleThroughout` | api/src/sweeper.rs:99-148 | in every run, a blob that is swept was there and named by nothing in every state since the grace began |
| `Accounts.StepLeavesOthersAlone` | api/src/db.rs:226-443 | of the twenty kinds of transaction none changes a node, a version or the quota row of an account it is not for |
| `Accounts.RunsLeaveOthersAlone` | api/src/db.rs:13-556 | whatever the others do in a run, an account none of it was for has at the end exactly the nodes, versions, maximum and charge it had |
| `UpkeepTransactions.ForgetIn` | api/src/thumbnails.rs:151-174 | forgetting in place, and how many were released |
| `Runs.StepKeepsTheLedger` | api/src/check.rs:10-37 | each of the twenty kinds of transaction keeps the ledger sound |
| `Runs.RestoreVersionKeepsTheLedger` | api/src/routes/versions.rs:50-77 | putting a version back keeps the ledger, puts its content in the file, takes the version away, and changes no other file |
| `Runs.QuotaSetKeepsTheLedger` | api/src/users.rs:201-221 | setting a quota keeps the ledger and sets that maximum and no other |
| `Runs.RunsStaySound` | api/src/check.rs:10-37 | in every state of every run each count is the rows naming the blob, each charge the live files and their versions, a blob is idle exactly at count 0, and the tree and the trash keep their shape |
| `Runs.EveryRunIsSound` | api/src/check.rs:10-37 | so every state a new server ever reaches is sound |
| `Runs.NeitherIsNegative` | api/src/db.rs:489-556 | neither derived number is ever negative |
| `Uploads.Staged.WriteAt` | api/src/uploads.rs:89-126 | the loop cuts the file to the offset and appends whole chunks, up to the limit or to the break |
| `Uploads.OneWriter` | api/src/uploads.rs:335-380 | no two requests hold the session |
| `Uploads.EveryRunIsGood` | api/src/uploads.rs:242-390 | in every interleaving in which claims are fresh, the staged file, while there is one, begins with what was received of the source; how long there is one is said next |
| `Uploads.SessionsLast` | api/src/uploads.rs:242-396 | in every interleaving a session is gone only because it was given up or its holder wrote past its size |
| `Uploads.WhatEndsASession` | api/src/uploads.rs:242-396 | of single steps: exactly those two end one |
| `Uploads.StepKeepsReceived` | api/src/uploads.rs:268-327 | no step takes back what was received or touches those bytes, and only the holder's record moves it on |
| `Uploads.FailureLetsGo` | api/src/uploads.rs:268-327 | a broken body leaves the session where it was, free, with what was staged |
| `Uploads.LapsedIsFree` | api/src/uploads.rs:363-380 | a claim nobody renews is free once its time has passed |
| `Uploads.RenewalLasts` | api/src/uploads.rs:335-355 | a renewal by the holder lasts as long as a claim does, and moves nothing |
| `Uploads.LoadAndClaim` | api/src/routes/uploads.rs:91-128 | a request is accepted at the offset the session is at and at no other, and gets a session nobody holds |
| `Uploads.CanAlwaysFinish` | api/src/uploads.rs:268-380 | so a session nobody holds can be finished from where it is, whatever happened to it before |
| `Uploads.WhatIsFinishedIsTheSource` | api/src/routes/uploads.rs:130-182 | once all was received, every later state stages exactly the source |
| `Uploads.StaleExactly` | api/src/uploads.rs:363-380 | claiming a session loaded earlier keeps the staged bytes exactly when it has not moved since |
| `Uploads.StaleClaimLosesBytes` | api/src/routes/uploads.rs:91-128 | a run in which a stale claim empties a finished upload |
| `Resumable.FillUpload` | crates/client/src/resumable.rs:77-167 | each chunk starts at the last offset told and is within the source; the client is done as soon as that offset is the size, gives up at the first fatal answer or one failure too many in a row and not before, and bounds its waits |
| `Resumable.SaidIsReported` | api/src/routes/uploads.rs:82-128 | an offset a server answers with, recorded, loaded or read for a status, is one the session was at |
| `Resumable.WhatIsFilledIsTheSource` | crates/client/src/resumable.rs:77-167 | when the client is done after answers that come from the server's own steps, the server stages exactly the source |
| `Sweeping.ReferencedBytesAreThere` | api/src/sweeper.rs:99-136 | in every interleaving in which no rename exposes bytes, those of a referenced blob are in the store or staged by a committed upload yet to settle |
| `Sweeping.SettledBytesAreInTheStore` | api/src/storage/local.rs:80-95 | once its uploads have settled, a referenced blob is in the store |
| `Sweeping.StepIsAccountedFor` | api/src/sweeper.rs:99-136 | a count moves only with a commit or a release, a row goes only when it is swept after the grace, bytes only with their row and only when written longer ago than that |
| `Sweeping.UploadCompletes` | api/src/storage/local.rs:32-95 | from any state an upload can begin and end with its bytes in the store, one reference more and nothing else changed |
| `Sweeping.IdleBytesGo` | api/src/sweeper.rs:99-136 | bytes nothing references can be swept once the grace is over, row and file |
| `Sweeping.PlacingIsExact` | api/src/storage/local.rs:32-78 | referenced bytes can be gone later, in a run that exposes nothing more, exactly when the file put in place is older than one of a pending upload and the row has been idle since before that one was written |
| `Sweeping.AnOlderFileLosesBytes` | api/src/storage/local.rs:32-78 | a run in which an older file does so, and referenced bytes are gone |
| `Attempts.Limiter.Spend` | api/src/attempts.rs:51-102 | a guess is refused exactly while a block is in force, and is otherwise counted |
| `Attempts.PurgingIsInvisible` | api/src/attempts.rs:51-126 | an attempt counts for exactly a day, and purging what has expired changes no later answer |
| `Attempts.BlockIsBounded` | api/src/attempts.rs:128-138 | the block grows with the failures, is at most an hour, and overflows nowhere |
| `Attempts.AtMostThirtyEightADay` | api/src/attempts.rs:51-138 | for every schedule, at most 38 guesses are evaluated in any 24 hours |
| `Attempts.ThirtyEightFit` | api/src/attempts.rs:51-138 | a schedule that gets 38 |
| `Grants.NumbersTellApart` | api/src/grants.rs:179-186 | numbered names differ whenever their numbers do, even when cut |
| `Grants.NumberedFits` | api/src/grants.rs:179-186 | a numbered name is within the length of a name |
| `Grants.FreeMountName` | api/src/grants.rs:102-120 | ends with the first candidate that is free, which fits, in at most two tries more than there are names taken |
| `Grants.OneTryMore` | api/src/grants.rs:102-120 | two more exactly when numbering gives the wanted name back and the names taken are the names tried |
| `Grants.NumberingMayGiveTheNameBack` | api/src/grants.rs:102-120 | a name that numbering gives back, and that takes three tries with only itself taken |
| `Grants.Table.Reassign` | api/src/grants.rs:122-177 | no grant stays at the old address; for another new one, one grant per node there with the stronger access and distinct mount names, each grant carried over under its own name if that is free and otherwise the first numbered one that is; for the same one, none at all; all other grants untouched |
| `Parts.SendFull` | api/src/storage/s3.rs:112-119 | full parts are cut off the buffer, and what was sent with what is buffered is what arrived |
| `Parts.StreamInto` | api/src/storage/s3.rs:96-153 | for every chunking, what is completed is what arrived, in parts of 8 MiB but for the last, none empty; on failure the open upload is handed back |
| `Parts.Stage` | api/src/storage/s3.rs:83-94 | every upload begun ends completed or handed to an abort |
| `Parts.CopyParts` | api/src/storage/s3.rs:280-321 | the ranges tile the object in order, and what is completed is the object |
| `Parts.CopyInParts` | api/src/storage/s3.rs:259-278 | the destination becomes the source or is left alone, and the upload is completed or handed to an abort |
| `Parts.Copy` | api/src/storage/s3.rs:243-257 | in one request or in parts, the same |

## Left out

- HTTP, authentication, CORS, configuration, the command line, the desktop app and the web interface.
- WebDAV's XML and its locks; image decoding; search; scanning a folder, its watcher and its cache of times.
- Shares, grants and locks that the database deletes along with a node; etags and times of nodes, beyond the order of deletions.
- The order in which a query returns rows is any order; the ids a clock would draw are a counter.
- A transaction is one step. `check::run` finds and repairs in one step, nothing else writing in between.
- Machine integers are unbounded, except in `Attempts.BlockIsBounded`, where the width is the point.
- The ceiling on open sessions in `begin`, `Staging::sweep`, expiry of the trash; a session that expires is given up (`Abandon`).
- Refusals of the routes before a transaction begins: the root is not moved or trashed, names are valid, the caller may write. The operations take what those checks leave.
- The name of the folder a departure makes (`folder_name`, `fitted`) is a parameter.
- S3 `write`, `place`, `read` and its sweeps, the limit on the number of parts, and a completion whose answer is lost.
- Convergence.PassConverges: takes snapshots that hold every directory above their entries, agree on kinds and have valid paths, fresh distinct copy names, nothing held or unfit, and no writer besides the pass; when the sides disagree on a kind the path is blocked and stays as it is.
- NoLoss.LosingTakesAClash: a file changed by somebody else since the scans is outside of it, and so is what the server does with a request whose answer was lost.
- Recovery.CutPassRecovers: as convergence, and copy names that the base does not know either.
- Agreement.OnlyTheAgreedIsRecorded: as recovery, and so `CutPassKeepsSecure`, `ManyCutPassesLoseNothing` and `DeletionsStick`; what is lost when a copy's name is not fresh is `NoLoss.LosingTakesAClash`.
- Passes.SyncOnce: the scan is taken to leave hidden files out already.
- Admission.PutFileIsExact: takes a quota row, which the root of an account is made with.
- How `Held` is made from the list of mounts.
- Conflict copies whose names a folder that ignores case takes for one.
- Uploads.EveryRunIsGood: a renewal resolves within the second half of its claim, and a claim finds the session as loaded (`Uploads.StaleExactly` is what happens otherwise).
- Resumable.FillUpload: the answers of the network are a parameter; that the offsets in them come from the session's own steps is the hypothesis of `Resumable.WhatIsFilledIsTheSource`.
- Sweeping.ReferencedBytesAreThere: no rename exposes bytes (`Sweeping.PlacingIsExact` is what happens otherwise); uploads commit and settle within the grace period; the sweep's check and removal are one step, and so are settling's.
- Grants.FreeMountName: fewer names taken than a 32-bit number can count.
