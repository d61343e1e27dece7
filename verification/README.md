# Verified models of four gnostr components

This project models the parts of gnostr whose correctness takes an argument, and proves that
argument in Dafny 4.11. `dafny verify dfyconfig.toml` checks everything.

* **The streaming digits of pi** (`PiSeries`, `PiSpigot`, `PiDigits`). One loop over unbounded
  integers either consumes a term of an infinite composition of linear maps or emits a decimal
  digit. The model keeps the program's loop variables, its division that rounds toward zero, and its
  two loops. `PiSeries` states, over the reals and without the program's integers, what the digits
  are digits of.
* **The file tree** (`Paths`, `TreeItems`, `TreeShape`, `TreeFold`, `FoldPaths`, `FoldedTree`,
  `FoldedListing`, `Visibility`, `FileTreeItems`, `VisibleRows`, `Navigation`, `NavigationKeys`,
  `NavigationLimits`). A trie of paths as a flat list of rows: built in preorder, folded in place, with visible flags that are kept in step with collapse
  flags, iterated by visible rows and moved through with the keyboard. Paths are sequences of names;
  `Paths` ties them to their text, because `unindent` compares text.
* **Pushing and fetching bundles** (`CommitGraph`, `HelperTypes`, `BundleStore`, `Blossom`,
  `PushProtocol`, `PushRuns`, `MovedBranch`). A push reads a manifest, stores a thin git bundle and
  writes a new manifest; a fetch replays the listed bundles. git is an immutable object graph with local repositories that
  lack nothing. `PushProtocol` lets any number of pushers and readers take their steps in any order,
  die between them, and overwrite each other's manifests; every `rev-parse` is a step of its own.
  `PushRuns` shows that uninterrupted steps do what the methods do, and what a reader has that lists
  the refs before a write and fetches after it.
* **The helper's line protocol** (`HelperProtocol`), a parser and dispatcher over standard input and
  output, with a reader of its replies as git reads them (`GitReader`), and **Base64** (`Base64`) as
  its authorisation header uses it.
* **Chat transport** (`Reassembly`, `ChatQueue`). The chunk reassembler, characterised by the history
  of messages it was given, and the queue of messages that wait for a peer.

Loops and updates in place are methods and classes, proved against functions; the lemmas are about
those functions and about whole runs. Wherever Dafny would start an induction by itself the lemma
switches that off, so that what it needs is written in its body.

## What the code does that its documentation does not say

* `calculate_pi_digits_impl` and its offset variant print and then end the process; the tests in the
  same file expect them to return a string. The model follows the code: the printed digits are the
  result. Both count iterations, not digits. The dividend of the digit guess is
  `7qk + 2 + rl` although the new state's value at 3 has `7qk + 2q + rl`, so the guess may be too
  small, and a settled digit then waits: after four iterations the value is between 1 and 2 at 3 and
  at 4, and the guess is 0 (`PiSpigot.GuessIsLow`). The emit test passes exactly when the guess is
  the floor of the value at 4 (`PiSpigot.ReadyIff`), so what is emitted is exact
  (`PiSpigot.GuessIsExact`).
* `expand` on a directory that is itself hidden shows its rows under a collapsed ancestor. The flags
  stay right exactly when the directory is visible (`Visibility.ExpandKeepsFlagsIff`;
  `NavigationLimits.ExpandHiddenBreaks` is a tree where they do not). The keys never select a hidden
  directory (`NavigationLimits.AnyRunIsSound`).
* Down, when rows follow and none of them is visible, selects the last row although it is hidden
  (`Navigation.StepSafeIff`, `Navigation.RunsAreSafeIff`; two keys are enough,
  `NavigationLimits.DownOverruns`). Nothing else goes wrong: after any keys the rows and flags are
  right, and a hidden selection is the last row and a file (`NavigationLimits.AnyRunIsSound`).
* A fresh tree shows all rows, also below directories that start out collapsed
  (`Visibility.FreshFlagsIff`, `NavigationLimits.FreshTreeShowsClosedDirectory`).
* The iterator yields up to `max_amount + 1` rows (`VisibleRows.Iterate`).
* A push runs `git bundle create` first and `git rev-parse` later. If a pushed branch moves in between,
  the manifest can name an object that no bundle holds, and a fetch that succeeds then lacks it
  (`MovedBranch.MovedBranchBreaksManifest`). The
  manifest is self-contained exactly when what its refs were set to was listed before or bundled
  (`PushProtocol.WriteIsSelfContainedIff`), and it always is when the pushed repository holds still
  between the two (`PushProtocol.UndisturbedRunIsSteady`).
* git lists the refs and fetches later, and each reads the manifest anew. A push that read the
  manifest before another push wrote drops what that one wrote, although it was reported as done. A
  fetch that succeeds can then lack what was listed (`PushRuns.ListedRefIsMissing`). Neither happens
  while every push that writes has read the last manifest (`PushRuns.ListedRefsAreHeld`,
  `PushRuns.RefSurvives`).
* A push ignores `force`. `prev_manifest` is filled with the hash of the last bundle.
* An entry with `total_chunks` 0 yields no message. It stays in the reassembler's table until a chunk
  of its id comes with another total; that chunk removes it and is lost itself
  (`Reassembly.ZeroTotalStaysIff`, `Reassembly.ZeroTotalInstance`).
* A chunk without a line of content is stored, and the program panics when it joins a message with
  such a chunk in it (`Reassembly.JoinPanicsIff`).
* A message that finds a peer is published at once, also while earlier ones wait in the queue. The
  messages keep their order exactly when that never happens (`ChatQueue.OrderIsKeptIff`,
  `ChatQueue.DirectOvertakes`).

## Model

| member | source | states |
|---|---|---|
| `PiSpigot.ConsumeKeepsInv` | bins/examples/gnostr-pi.rs:140-149 | consuming a term keeps k, l and the terms consumed in step, q and t positive, the guess at or below the value at 3 (also when its dividend is negative), and the value at 4 below 10 (at most 4 before the leading 3) |
| `PiSpigot.EmitKeepsInv` | bins/examples/gnostr-pi.rs:128-139 | emitting a digit keeps the same, with the stronger bounds of a started run |
| `PiSpigot.GuessIsExact` | bins/examples/gnostr-pi.rs:128-134 | when the emit test passes the guess is the floor of the value at 3 and at 4, the first is 3 and the others are 0 to 9 |
| `PiSpigot.ReadyIff` | bins/examples/gnostr-pi.rs:128-149 | in every reachable state the emit test passes if and only if the guess is the floor of the value at 4; the guess is at most the floor at 3, and that at most the floor at 4 |
| `PiSpigot.GuessIsLow` | bins/examples/gnostr-pi.rs:140-149 | the fourth state of the program: its digits are 3, the next digit is settled as 1, the guess is 0 and the test fails |
| `PiSpigot.RunKeepsInv` | bins/examples/gnostr-pi.rs:113-152 | the invariant holds at every iteration |
| `PiSpigot.DigitsAreDecimal` | bins/examples/gnostr-pi.rs:128-139 | every run's digits start with 3 and are decimal |
| `PiSpigot.CalculatePiDigits` | bins/examples/gnostr-pi.rs:113-152 | the loop prints what the run of `limit` iterations emits behind the leading 3, and nothing for a limit below 2 |
| `PiSpigot.CalculatePiDigitsWithOffset` | bins/examples/gnostr-pi.rs:57-111 | for offsets from 5 on, the loop prints exactly what the plain run of depth + offset iterations prints, and emits, behind that of `offset` iterations; it prints nothing for offsets below 5 |
| `PiSpigot.OutputIsEmittedTail` | bins/examples/gnostr-pi.rs:128-135 | what is printed is all emitted digits but the leading 3 |
| `PiSpigot.LongerRunExtends` | bins/examples/gnostr-pi.rs:57-152 | a shorter run's output is a prefix of a longer one's, and the rest is the offset window |
| `PiDigits.StreamingConservesValue` | bins/examples/gnostr-pi.rs:124-151 | after any number of iterations (q x + r) / t is 10^m S_c(x) - 10 D for every x: the state is the exact composition of the consumed terms, shifted by the emitted digits |
| `PiDigits.DigitsAreNeverRevised` | bins/examples/gnostr-pi.rs:124-151 | D <= 10^(m-1) S_K(x) < D + 1 for every K from the consumed terms on and every x in [3, 4] |
| `PiDigits.DigitsAreThoseOfTheLimit` | bins/examples/gnostr-pi.rs:113-152 | the emitted digits are the integer part of 10^(m-1) times any number in all brackets of the series |
| `PiSeries.LimitIsUnique` | bins/examples/gnostr-pi.rs:141-146 | at most one number lies in all brackets |
| `Paths.TextPrefixIsAncestor` | filetreelist/src/filetreeitems.rs:321-329 | a textual prefix that ends at a separator is a prefix by components |
| `TreeItems.PushDirs` | filetreelist/src/filetreeitems.rs:69-108 | adds the unseen proper ancestors, outermost first, keeps the child counts right, and fails if and only if one of those is too deep for the 8-bit indent |
| `TreeItems.CreateItems` | filetreelist/src/filetreeitems.rs:34-52 | builds the specified list with right child counts; it fails if and only if some path has more than 256 components |
| `TreeShape.CreatedIsPreorder` | filetreelist/src/filetreeitems.rs:34-108 | for grouped prefix-free paths no row occurs twice, each directory comes before all it contains, and what it contains is one block |
| `TreeShape.CreatedMembers` | filetreelist/src/filetreeitems.rs:34-108 | the rows are exactly the listed files and their non-empty proper ancestors, with the collapse flags asked for |
| `TreeShape.CreatedKeepsFiles` | filetreelist/src/filetreeitems.rs:43-49 | the files come out as listed, in order |
| `TreeShape.CountsAreChildren` | filetreelist/src/filetreeitems.rs:81-105 | a directory's recorded count is its number of distinct immediate children |
| `TreeFold.TextTestIsPathTest` | filetreelist/src/filetreeitems.rs:308-329 | behind a merged directory the textual prefix test hits exactly its path descendants |
| `FoldPaths.Unindent` | filetreelist/src/filetreeitems.rs:321-329 | rows from `start` up to the first without the prefix lose one indent, saturating at 0, and no other row changes |
| `FoldPaths.Fold` | filetreelist/src/filetreeitems.rs:289-319 | folding in place keeps the files of any rows; of a trie with its counts it yields the folded tree as specified row by row: last path of the chain, first collapse state, joined names, indent per remaining ancestor |
| `FoldPaths.MergedRow` | filetreelist/src/item.rs:139-147 | merging a chain's row with its single child gives the specified row of the longer chain |
| `FoldedTree.FoldKeepsFiles` | filetreelist/src/filetreeitems.rs:289-319 | folding leaves the sequence of files as it was |
| `FoldedTree.NoSingleDirectoryChild` | filetreelist/src/filetreeitems.rs:289-319 | no remaining directory has a directory as its only child |
| `FoldedTree.FoldedIndented` | filetreelist/src/filetreeitems.rs:310-329 | every indent is the number of remaining directories above the row |
| `FoldedTree.FoldedPreorder` | filetreelist/src/filetreeitems.rs:289-319 | the folded list is still a preorder without gaps |
| `FoldedTree.NameIsRelative` | filetreelist/src/item.rs:54-67 | a row displays its path relative to the nearest remaining directory above it |
| `FoldedListing.MergedIff` | filetreelist/src/filetreeitems.rs:289-319 | of the directories of a listing exactly those that hold nothing but one subdirectory have no row |
| `FoldedListing.CollapsedIff` | filetreelist/src/filetreeitems.rs:298-306 | a directory's row starts out collapsed if and only if that was asked for the outermost directory it stands for, the one right inside the nearest row above |
| `FileTreeItems.FileTreeItems.New` | filetreelist/src/filetreeitems.rs:23-32 | fails exactly on a path too deep, whatever the paths; else its files are those listed, in order; a listing gives the rows built and folded as specified |
| `FileTreeItems.FileTreeItems.Collapse` | filetreelist/src/filetreeitems.rs:117-141 | collapse(i, false): the directory is closed, exactly the rows inside it are hidden, nothing else changes |
| `FileTreeItems.FileTreeItems.Expand` | filetreelist/src/filetreeitems.rs:143-165 | expand(i, r): opens the directory (and, if recursive, those inside it) and shows the rows inside it that no closed directory inside it covers |
| `FileTreeItems.FileTreeItems.UpdateVisibility` | filetreelist/src/filetreeitems.rs:244-287 | for any prefix or none, any start and both modes: of the rows that no closed directory passed covers, those under the prefix are shown (all of them without a prefix); the others are hidden with defaults and left without, where the pass ends at the first uncovered row outside the prefix |
| `Visibility.CollapseKeepsFlags` | filetreelist/src/filetreeitems.rs:117-141 | collapsing any row keeps "visible if and only if no collapsed proper ancestor" |
| `Visibility.UpdatedIsShown` | filetreelist/src/filetreeitems.rs:143-165 | the pass as expand calls it shows exactly the rows without a collapsed ancestor inside the directory |
| `Visibility.UpdatedFlags` | filetreelist/src/filetreeitems.rs:244-287 | with defaults a row from the start on is shown if and only if it is under the prefix and no collapsed directory from there on covers it; without a prefix and defaults nothing is hidden |
| `Visibility.UpdateMakesFlagsRight` | filetreelist/src/filetreeitems.rs:244-287 | a pass with defaults over all rows makes the flags right, whatever they were |
| `Visibility.ExpandKeepsFlagsIff` | filetreelist/src/filetreeitems.rs:143-165 | expanding keeps it if and only if the row was visible (or is a file) |
| `Visibility.ExpandAllShowsAll` | filetreelist/src/filetreeitems.rs:143-165 | a recursive expand leaves nothing closed and nothing hidden inside the directory, and changes nothing outside it |
| `Visibility.ExpandOneShowsUncovered` | filetreelist/src/filetreeitems.rs:143-165 | a plain expand opens one directory, and shows the rows inside it that no closed directory inside it covers |
| `Visibility.ExpandUndoesCollapse` | filetreelist/src/filetreeitems.rs:117-165 | collapse then expand of a visible open directory restores every flag of every row |
| `Visibility.CollapseUndoesExpand` | filetreelist/src/filetreeitems.rs:117-165 | expand then collapse of a collapsed directory restores every flag |
| `Visibility.FreshFlagsIff` | filetreelist/src/item.rs:22-29 | a fresh tree's flags are right if and only if nothing starts out collapsed |
| `VisibleRows.TreeItemsIterator.Next` | filetreelist/src/treeitems_iter.rs:24-54 | each call yields the next visible row until the amount is used up |
| `VisibleRows.Iterate` | filetreelist/src/treeitems_iter.rs:24-54 | an iteration yields the visible rows from its start, cut after max_amount + 1 |
| `VisibleRows.VisibleFromIsFilter` | filetreelist/src/treeitems_iter.rs:35-50 | these are exactly the visible rows, in increasing order |
| `VisibleRows.CalcVisualSelection` | filetreelist/src/filetree.rs:196-213 | the number of visible rows, and of those before a visible selection (0 for a hidden one), as sizes of sets of rows |
| `VisibleRows.VisualIndexToAbsolute` | filetreelist/src/filetree.rs:181-194 | the row at a visible position, None past the end |
| `VisibleRows.IndexMapsAreInverse` | filetreelist/src/filetree.rs:181-213 | the two maps invert each other |
| `Navigation.FileTree.New` | filetreelist/src/filetree.rs:36-45 | a new tree selects its first row, if any, and caches its position; it fails exactly on a path too deep |
| `Navigation.FileTree.MoveSelection` | filetreelist/src/filetree.rs:139-160 | a key press keeps the tree valid, changes rows, selection and cache as specified, and reports whether it changed anything |
| `Navigation.FileTree.SelectionUpDown` | filetreelist/src/filetree.rs:248-281 | the nearest visible row that way, or the last row that way |
| `Navigation.FileTree.SelectionEnd` | filetreelist/src/filetree.rs:223-246 | the last visible row |
| `Navigation.FileTree.SelectParent` | filetreelist/src/filetree.rs:283-301 | climbs to the first visible row with a smaller indent |
| `Navigation.FileTree.SelectionLeft` | filetreelist/src/filetree.rs:303-312 | Left closes an open directory and climbs otherwise |
| `Navigation.FileTree.SelectionRight` | filetreelist/src/filetree.rs:314-326 | Right opens a closed directory, steps into an open one, and does nothing on a file |
| `Navigation.StepSafeIff` | filetreelist/src/filetree.rs:139-160 | every key keeps flags right, selection visible and cached index right, except Down exactly when rows follow and all of them are hidden |
| `Navigation.FreshIsSafe` | filetreelist/src/filetree.rs:36-45 | a fresh tree with nothing collapsed starts out that way |
| `Navigation.RunsAreSafeIff` | filetreelist/src/filetree.rs:139-326 | from a fresh tree, all states of a run are that way if and only if no Down overran |
| `Navigation.LeftSelectsParent` | filetreelist/src/filetree.rs:283-312 | Left on a file or a closed directory selects the row of the directory it is in, or the first row for a row of indent 0 |
| `NavigationKeys.UpLeads` | filetreelist/src/filetree.rs:248-281 | on any rows, Up goes to the nearest visible row before the selected one, or to row 0 if none is, and changes nothing on row 0 |
| `NavigationKeys.DownLeads` | filetreelist/src/filetree.rs:248-281 | on any rows, Down goes to the nearest visible row after it, or to the last row if none is, and changes nothing there |
| `NavigationKeys.TopLeads` | filetreelist/src/filetree.rs:215-221 | Top goes to row 0 |
| `NavigationKeys.EndLeads` | filetreelist/src/filetree.rs:223-246 | End goes to the row after which none is visible, and that row is visible or row 0 |
| `NavigationKeys.PageKeysDoNothing` | filetreelist/src/filetree.rs:139-160 | the page keys change nothing |
| `NavigationKeys.LeftCloses` | filetreelist/src/filetree.rs:303-312 | Left on an open directory closes it alone, hides exactly what is inside and keeps the selection |
| `NavigationKeys.RightOpens` | filetreelist/src/filetree.rs:314-326 | Right on a closed directory opens it alone, shows what no closed directory inside it covers and keeps the selection |
| `NavigationKeys.RightEnters` | filetreelist/src/filetree.rs:314-326 | Right on an open directory does what Down does |
| `NavigationKeys.RightOnFileStays` | filetreelist/src/filetree.rs:314-326 | Right on a file changes nothing |
| `NavigationKeys.UpFromSafe` | filetreelist/src/filetree.rs:248-281 | from a safe state Up selects the last visible row before the selected one |
| `NavigationKeys.DownFromSafe` | filetreelist/src/filetree.rs:248-281 | from a safe state Down selects the first visible row after it, if there is one |
| `NavigationKeys.EndFromSafe` | filetreelist/src/filetree.rs:223-246 | from a safe state End selects the last visible row |
| `NavigationLimits.AnyRunIsSound` | filetreelist/src/filetree.rs:139-326 | from a fresh tree, after any keys at all, rows and flags are right; a selected row that is hidden is the last row and a file; the cached index counts the visible rows before a visible selection and is 0 for a hidden one |
| `NavigationLimits.Play` | filetreelist/src/filetree.rs:36-160 | a tree made from a listing and sent any keys, one call each, ends in the state of the specified run, which is sound |
| `NavigationLimits.DownOverruns` | filetreelist/src/filetree.rs:248-281 | a tree on which Left and Down select a hidden row |
| `NavigationLimits.ExpandHiddenBreaks` | filetreelist/src/filetreeitems.rs:143-165 | a tree on which expanding a hidden directory shows a row under a closed one |
| `NavigationLimits.FreshTreeShowsClosedDirectory` | filetreelist/src/item.rs:22-29 | a listing whose fresh tree shows what is in a closed directory |
| `CommitGraph.ReachIsWalkable` | git-helpers/src/ipfs_backend.rs:262-275 | the objects a bundle covers or excludes are those reachable along references |
| `BundleStore.IpfsRemote.ApplySpecs` | git-helpers/src/ipfs_backend.rs:300-329 | the refs and the result of each spec, in order, for any answers of rev-parse; deletions remove, unresolved names are reported and change nothing |
| `BundleStore.LastSpecWins` | git-helpers/src/ipfs_backend.rs:302-329 | each ref ends up as the last spec for it that resolves says, and is untouched if there is none |
| `BundleStore.SourcesIff` | git-helpers/src/ipfs_backend.rs:259-273 | git is asked for the source of every spec that has one, and for nothing else |
| `BundleStore.IpfsRemote.Push` | git-helpers/src/ipfs_backend.rs:257-348 | a push stores the bundle of all its sources without what the old refs reach, then a manifest with every field as said; results per spec; what it replies and what has changed when a request fails; from a self-contained manifest the new one is self-contained if and only if the refs were set to what is bundled, as they are if the answers of rev-parse agree with the names bundled |
| `BundleStore.IpfsRemote.Fetch` | git-helpers/src/ipfs_backend.rs:225-255 | a fetch fails if the manifest cannot be read, or at the first listed bundle that cannot be read, is absent or misses prerequisites, with which error and with what is then there; of a self-contained manifest it misses nothing and ends with every ref's ancestry |
| `BundleStore.BundleCompletes` | git-helpers/src/ipfs_backend.rs:262-275 | a thin bundle against the refs of a self-contained manifest finds its prerequisites and completes its bundles |
| `BundleStore.PushIsSelfContainedIff` | git-helpers/src/ipfs_backend.rs:257-346 | on a self-contained manifest, a push writes a self-contained one if and only if the refs it sets were set to objects that the bundles before held or the pushed names reached when the bundle was made |
| `BundleStore.PushKeepsSelfContained` | git-helpers/src/blossom_backend.rs:337-433 | a push whose names hold still turns a self-contained manifest into a self-contained one |
| `Blossom.FetchManifest` | git-helpers/src/blossom_backend.rs:138-182 | fails if the list cannot be got or parsed; an unknown owner has no manifest; else it is the newest manifest blob of the repository, earliest in the list among equals; a failed download counts only if it comes first |
| `PushProtocol.WriteIsSelfContainedIff` | git-helpers/src/ipfs_backend.rs:296-346 | in any state of a sound run, the manifest written is self-contained if and only if what rev-parse answered for its refs was listed before or bundled |
| `PushProtocol.SteadyNamesAreBundled` | git-helpers/src/ipfs_backend.rs:169-178 | that is so when no pushed name moved since the bundle was made |
| `PushProtocol.StepKeepsInv` | git-helpers/src/ipfs_backend.rs:225-348 | every step of every helper, a write that sets refs to what was not bundled excepted, keeps all manifests self-contained, all pushes sound and all readers complete |
| `PushProtocol.RunKeepsInvIff` | git-helpers/src/blossom_backend.rs:307-433 | a run keeps this throughout if and only if every push set its refs to what it bundled |
| `PushProtocol.UndisturbedRunIsSteady` | git-helpers/src/blossom_backend.rs:337-433 | it does if no pushing repository changes between its bundle and its manifest |
| `MovedBranch.MovedBranchBreaksManifest` | git-helpers/src/ipfs_backend.rs:262-322 | a run in which a branch moves in between: the manifest is not self-contained, its one bundle replays, and the named object is missing |
| `PushProtocol.EveryManifestIsSelfContained` | git-helpers/src/ipfs_backend.rs:257-348 | in every interleaving in which the pushes set their refs to what they bundled, every manifest ever written names only stored bundles that replay from nothing and hold the full ancestry of every ref |
| `PushProtocol.UndisturbedManifestsAreSelfContained` | git-helpers/src/ipfs_backend.rs:257-348 | the same in every interleaving in which no pushing repository changes between its bundle and its manifest |
| `PushProtocol.ReadersNeverFail` | git-helpers/src/ipfs_backend.rs:225-255 | in every interleaving in which the pushes set their refs to what they bundled, no reader misses a bundle or a prerequisite, its objects stay closed, and a finished fetch holds every ref's ancestry |
| `PushProtocol.UndisturbedReadersNeverFail` | git-helpers/src/ipfs_backend.rs:225-255 | the same in every interleaving in which no pushing repository changes between its bundle and its manifest |
| `PushRuns.UninterruptedPush` | git-helpers/src/ipfs_backend.rs:257-348 | the steps of a push that nothing interrupts leave the bundles and the manifest that the method leaves, and nothing when git makes no bundle |
| `PushRuns.UninterruptedFetch` | git-helpers/src/ipfs_backend.rs:225-255 | the steps of a fetch that nothing interrupts leave the objects and the outcome that the method leaves |
| `PushRuns.ListedRefsAreHeld` | git-helpers/src/ipfs_backend.rs:198-255 | if each push that writes between the list and the fetch has read the last manifest, the fetch brings every listed ref with its ancestry |
| `PushRuns.RefSurvives` | git-helpers/src/ipfs_backend.rs:257-348 | under that condition a ref that was set stays as it is until a push names it |
| `PushRuns.ListedRefIsMissing` | git-helpers/src/ipfs_backend.rs:198-255 | a run of two pushes from no manifest, in which nothing local changes: a fetch succeeds and the ref listed before is missing |
| `HelperProtocol.ParseFetchLineIff` | git-helpers/src/protocol.rs:88-95 | a line parses to a command if and only if it is that command's line and the id has no space |
| `HelperProtocol.ParsePushLineIff` | git-helpers/src/protocol.rs:97-109 | a line parses to a refspec if and only if it is its line, the source has no colon and an unforced source no leading plus |
| `HelperProtocol.ReadBatch` | git-helpers/src/protocol.rs:113-138 | reads the items up to a blank line or the end, and leaves what follows |
| `HelperProtocol.RunHelper` | git-helpers/src/protocol.rs:146-228 | makes exactly the calls of the session it reads, and prints the replies to them in order; `GitReader.SessionReadsBack` says what those are to git |
| `HelperProtocol.ReplyIsFramed` | git-helpers/src/protocol.rs:164-216 | reading a reply up to a blank line takes exactly its lines, if each of them is a proper line; the reply to an option is excluded, as no blank line closes it |
| `HelperProtocol.FetchOkIff` | git-helpers/src/protocol.rs:88-95 | a written and trimmed fetch line gives back its command if and only if the command is well formed |
| `HelperProtocol.PushOkIff` | git-helpers/src/protocol.rs:97-109 | the same for a refspec |
| `HelperProtocol.ScriptReadsBack` | git-helpers/src/protocol.rs:113-228 | any well-formed script, written out and read by the helper loop, makes exactly its calls, in order and with equal arguments |
| `HelperProtocol.OtherLineIsSkipped` | git-helpers/src/protocol.rs:162-228 | a line that is no command asks for nothing and does not end the session |
| `HelperProtocol.MalformedIsSkipped` | git-helpers/src/protocol.rs:113-138 | a line of a batch that is malformed or of another command is passed over, and the batch goes on |
| `HelperProtocol.MalformedFetchIsSkipped` | git-helpers/src/protocol.rs:113-138 | a malformed first line of a fetch is passed over, and the helper is asked for the rest of the batch, be it empty |
| `HelperProtocol.MalformedPushIsSkipped` | git-helpers/src/protocol.rs:113-138 | the same for a push |
| `HelperProtocol.TrimTakesWhite` | git-helpers/src/protocol.rs:157-160 | trimming takes the white space off both ends and nothing else |
| `GitReader.ResultReadsIff` | git-helpers/src/protocol.rs:205-210 | git's reader takes the line of a result for that result if and only if a refused ref's name has no space |
| `GitReader.RefReadsIff` | git-helpers/src/protocol.rs:178-184 | the same for the line of a ref: no space in what stands before the name, which cannot be taken for the other kind |
| `GitReader.OptionIsUnsupported` | git-helpers/src/protocol.rs:221-225 | an option is answered by the one line `unsupported` |
| `GitReader.SessionReadsBack` | git-helpers/src/protocol.rs:146-228 | whoever reads the printed text reply by reply gets, for each call in order, the capabilities, refs or results the helper answered |
| `Base64.Encode` | git-helpers/src/auth.rs:135-164 | the loop produces the specified encoding |
| `Base64.DecodedIff` | git-helpers/src/auth.rs:135-164 | the decoder of section 4 of RFC 4648 takes exactly the encoding of s to s: round trip and no second encoding |
| `Base64.EncodedLength` | git-helpers/src/auth.rs:137-138 | four characters for every three bytes begun |
| `Base64.PaddingIsLast` | git-helpers/src/auth.rs:152-161 | padding stands only at the end, one character per byte the last group lacks |
| `Base64.EncodedIsInjective` | git-helpers/src/auth.rs:135-164 | different bytes have different encodings |
| `Base64.ReferenceVectors` | git-helpers/src/auth.rs:135-164 | the test vectors of section 10 of RFC 4648 |
| `Reassembly.MessageReassembler.AddChunkAndReassemble` | chat/src/p2p.rs:248-356 | after any history the result is the one the history calls for and the table is that of the history; after a panic the full entry is still in the table |
| `Reassembly.MessageReassembler.Assemble` | chat/src/p2p.rs:314-352 | full slots are joined in order with chunk 0's metadata, or the program panics on one without content; the missing-chunk branch is dead |
| `Reassembly.EntriesAreConsistent` | chat/src/p2p.rs:270-312 | in every reachable table an entry has as many slots as its total, counts the filled ones, is not full unless the total is 0, and holds each chunk in its place |
| `Reassembly.ZeroTotalStaysIff` | chat/src/p2p.rs:270-312 | an entry of total 0 yields nothing and stays if and only if what comes is not a chunk of its id with another total |
| `Reassembly.ZeroTotalInstance` | chat/src/p2p.rs:270-312 | one or two chunks of total 0 leave such an entry, and a chunk of total 3 after the first leaves none |
| `Reassembly.IdsDoNotInterfere` | chat/src/p2p.rs:270-277 | the result for an id after any history is the one after that id's chunks alone |
| `Reassembly.ReassemblesOnceCovered` | chat/src/p2p.rs:279-356 | among any other messages, a chunk brings the join of the message out if and only if it is the last index missing, whatever the order and the duplicates |
| `Reassembly.JoinPanicsIff` | chat/src/p2p.rs:319-352 | that join is a panic if and only if one of the chunks has no line of content |
| `Reassembly.AnyOrderReassembles` | chat/src/p2p.rs:248-356 | in every permutation of a split message the last chunk brings its join out and no other yields anything |
| `Reassembly.SplitRoundTrip` | chat/src/p2p.rs:319-352 | a message cut into chunks and fed in any order comes back as it was |
| `ChatQueue.ChatSender.PublishOrQueue` | chat/src/p2p.rs:43-70 | a message is published, queued when no peer is there, or reported, with its notice |
| `ChatQueue.ChatSender.FlushPending` | chat/src/p2p.rs:72-100 | a flush ends, and takes from the queue exactly the messages before the first that finds no peer |
| `ChatQueue.QueuedIff` | chat/src/p2p.rs:38-70 | a message is queued if and only if the error says "insufficient" and "peer", whatever the case of the letters; else it is published or reported at once and the queue stays |
| `ChatQueue.OtherErrorsAreReported` | chat/src/p2p.rs:38-70 | `MessageTooLarge` and `Duplicate` are reported and queue nothing |
| `ChatQueue.FlushEndsAt` | chat/src/p2p.rs:72-100 | a flush ends at the first message with such an error, and takes all before it |
| `ChatQueue.FlushTells` | chat/src/p2p.rs:72-100 | each message taken is recorded as published or as reported with its error, as gossipsub answered, and the user is told |
| `ChatQueue.OrderIsKept` | chat/src/p2p.rs:43-100 | over any run the queued messages leave in the order they came and those pending are the rest of them |
| `ChatQueue.OrderTells` | chat/src/p2p.rs:43-100 | the order of a run is a numbering of the messages done with and then those waiting: each number names one of the messages handed in and occurs once |
| `ChatQueue.OrderIsKeptIff` | chat/src/p2p.rs:43-100 | that order is increasing if and only if no message was sent or reported at once while others waited |
| `ChatQueue.DirectOvertakes` | chat/src/p2p.rs:43-70 | a run of two messages in which the second is published while the first waits |
| `ChatQueue.MessagesAreConserved` | chat/src/p2p.rs:581-592 | over any run the messages handed in are those published, those reported and those pending, none lost and none doubled |

## Left out

- Pi: that emission never stops, and how many digits a depth yields; `u64` overflow of `depth + offset`.
- PiDigits.DigitsAreThoseOfTheLimit: a number that lies in all brackets is assumed, as Dafny's reals have no completeness axiom to construct it; `PiDigits.DigitsAreNeverRevised` says the same of every finite bracket and assumes nothing.
- File tree input: of a list that is not prefix-free and grouped by directory only failure and the sequence of files are claimed. Paths are relative and valid UTF-8; the invalid-path error is not modelled.
- `show_element`, `search_next`, `select_file`: they walk by indent and may show rows under an unrelated collapsed directory.
- `collapse(_, true)` with `collapse_recursive` and `collapse_but_root`: the recursive loop also closes the first directory after the block.
- Navigation.StepSafeIff: covers the cached index; the cached count is not refreshed by collapse and expand, so nothing is claimed of it after them.
- FoldPaths.Fold: the list is a sequence that the method reassigns; the aliasing of the source's vector is not modelled.
- git itself (`bundle create`, `bundle unbundle`, `rev-parse`), HTTP, MFS paths, manifest JSON, URL parsing and the reply to `list` are abstract or absent. Hash collisions are excluded.
- BundleStore.IpfsRemote.Push: a request that fails has changed nothing; one that takes effect although it reports a failure is the death of a pusher in `PushProtocol`.
- ChatQueue.QueuedIff: the source lowers all of Unicode and the model ASCII; no other letter is lowered to one of these words' letters alone.
- Chain of manifests: `prev_manifest` does not hold a manifest's hash, so nothing is claimed of it.
- HelperProtocol.RunHelper: input that is not UTF-8 and output that cannot be written are not modelled; what goes to standard error is not either.
- Reassembly.MessageReassembler.AddChunkAndReassemble: a panic ends the calls, nothing is claimed of later ones; the lock and the size of a `usize` are not modelled.
- ChatQueue.MessagesAreConserved: a failed serialisation or a closed channel to the user interface ends the chat task; neither is modelled.
- Signatures, bech32, libp2p, tokio, text wrapping, the crawler, the relay manager, terminal and HTML rendering: opaque libraries or plumbing.
