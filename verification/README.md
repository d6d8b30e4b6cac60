# Kumbuka: verified core

A Dafny model of the hard parts of Kumbuka, a wiki on PostgreSQL, with proofs. `dafny verify dfyconfig.toml`
verifies all of it.

**Page store** (`PageTables`, `PageCommands`, `PageInvariant`, `PageRuns`, `PageLaws`, `PageArtifacts`, `PageExamples`,
`PageStatements`, `MoveEffects`, `PageEffects`, `PageStore`, `SuggestionIds`, `ReviewEdits`, `ReviewTexts`, `WikiLinks`,
`SqlLike`). Tables are maps and sets. `PageCommands` gives each of the seventeen transactions as one atomic step;
`PageInvariant` and `PageRuns` prove what every state satisfies and what lasts over whole runs; `MoveEffects`,
`PageEffects` and `ReviewTexts` say, from the request and the tables before it alone, when a step succeeds and what it
leaves behind; `PageStore` is the class whose methods execute the table statements in the source's order, commit or roll
back, and are proved equal to the steps. A move, for example, is specified as one simultaneous renaming of pages,
aliases, link rows and link texts, and its four loops are proved to compute it.

**Markdown URLs** (`TextScan`, `UrlSyntax`, `UrlScanner`, `UrlRanges`, `UrlAlignment`, `UrlSubstitution`, `UrlRewrite`,
`UrlRecognition`, `UrlDocuments`). `UrlSyntax` is a functional reference of the scanner, `UrlScanner` its imperative form
with fields and index loops. The rest proves what the ranges of any source are like, that rewriting preserves the
structure of a source, and that in documents built from Markdown constructs exactly the right destinations are found.

**Protocols.** `LeaseQueue` (plugin events leased to workers), `Rebuilds` (dirty flag and one-slot wake channel) and
`Oidc` (login statements interleaved with other transactions) are state machines over all interleavings of their steps,
beside classes for the tables and shared state.

**Algorithms.** `CommentThreads`, `Annotations`, `PageAccess`, `Archive`, `PluginQuota`.

## Assumptions

- Each committed transaction has a timestamp that no earlier one had (`now !in issued`). Timestamps are only compared
  for equality; nothing is assumed about their order.
- Row-locked transactions are atomic steps; the finer steps are in `LeaseQueue`, `Rebuilds` and `Oidc`.
- Page paths are non-empty and over lower-case letters, digits, `/`, `_` and `-`, as the path normalizer produces them.
  Requested destination paths are taken after normalization.
- Deleting a page row deletes what references it, and an index allows one pending review per page, as the schema says.
- Ids of new rows are greater than all ids before; one counter stands for the id sequences.

## Where the code does less than expected

- A path may contain `_`, which LIKE reads as any character. A tree move then also takes pages outside the tree
  (`SqlLike.SelectsOnlyBelow`), and two access rules can be nearest at once, so that the answer for a page depends on
  the plan (`PageAccess.NearestIsUnique`, `PageAccess.BatchAgreesWithSingle`, `PageAccess.AmbiguousAnswers`).
- A move fails with a key violation when some page already links to both the old and the new path
  (`PageStore.Store.RetargetLinks`; `PageExamples.MoveClash` is such a run, to a free path).
- Rewriting links after a move keeps the stored artifact of the rewritten pages, which was rendered from the text before
  (`PageArtifacts.InStepExactly`, `PageExamples.StaleArtifact`).
- A rebuild request is lost when its rebuild cannot list the pages (`Rebuilds.QuietExactly`,
  `Rebuilds.FailedListingLosesRequest`).
- One lease covers a whole batch of up to 16 deliveries; a worker that outlives it shares events with another
  (`LeaseQueue.SharedExactly`, `LeaseQueue.LateWorkersShare`).
- A login for an identity without a pending row has nothing to lock. Overtaken between its recheck and its write it can
  leave the identity both bound and pending (`Oidc.OvertakenLogin`), or register one that was rejected meanwhile
  (`Oidc.OvertakenRejection`); `Oidc.NeverBothBoundAndPending` and `Oidc.RejectedUntilReopened` say exactly when. The
  next successful login removes a leftover row. Linking does not reject a displaced identity whose subject is empty.

## Model

| member | source | states |
|---|---|---|
| PageRuns.PathsNeverCaptured | internal/postgres/page_moves.go:80-195 | between any two moments of a run, a path that a page has or had belongs to that page alone while it exists: it resolves to it, or to nothing while it is in the bin |
| PageRuns.RunIsLater | internal/postgres/page_save.go:160-200 | every run of fresh-stamped transactions keeps all invariants and the lasting facts (paths, history, reviews, suggestions, feedback, tokens) |
| PageRuns.MomentsExist | internal/postgres/page_save.go:299-340 | runs with such moments exist: a first save creates a page that is later in the bin |
| PageRuns.AttemptKeeps | internal/postgres/page_save.go:160-200 | each of the seventeen transactions, when it succeeds, keeps every invariant and everything that must last |
| PageRuns.OnePendingReview | internal/postgres/page_approvals.go:131-176 | in every reachable state a page has at most one pending review |
| PageRuns.ReviewsSettle | internal/postgres/page_approvals.go:372-452 | over any part of a run approved, canceled and superseded reviews do not change, and a review whose revision is no longer current is never decided, link-rewrite revisions included |
| PageRuns.DecidedWhileCurrent | internal/postgres/page_approvals.go:430-441 | a review becomes approved or changes-requested only by a decision of an assigned reviewer or administrator, from pending, while its captured revision is the current one |
| PageRuns.TokensSound | internal/postgres/page_save.go:186-200 | a path and a version token seen at two moments name one page with one Markdown, although saves that change nothing put an old token back |
| PageRuns.SaveReplacesWhatWasLoaded | internal/postgres/page_concurrency.go:13-89 | a conditional save that succeeds replaces exactly the page and Markdown that the editor loaded, however long ago |
| PageRuns.RenderMatchesMarkdown | internal/postgres/page_queries.go:249-265 | a stored artifact is only ever attached to the Markdown it was rendered from |
| PageRuns.HistoryIsFaithful | internal/postgres/page_revision_metadata.go:137-154 | revisions of a page are numbered 1 to n, earlier ones never change, and the newest holds the page's Markdown |
| PageInvariant.KeptTrans | internal/postgres/page_moves.go:80-195 | what lasts over two parts of a run lasts over both together, ids being never used again |
| PageInvariant.MovedPathsKept | internal/postgres/page_moves.go:167-195 | a simultaneous move of pages to free, distinct paths takes no path away from any page |
| PageInvariant.MovedPathsOk | internal/postgres/page_moves.go:156-195 | after such a move paths are unique, in the bin or not, and no alias equals any page's path |
| PageInvariant.MarkFeedbackKeeps | internal/postgres/page_review_feedback.go:335-343 | marking a batch keeps: the revision after the reviewed one is the simultaneous application of exactly the review's applied suggestions |
| PageLaws.SaveRevisesOrKeeps | internal/postgres/page_revision_metadata.go:57-97 | a save of an existing page adds exactly one revision, takes the new token and closes open reviews if something it records changed; otherwise history, reviews, token and row stay, artifact aside |
| PageLaws.NoOpenReviewLeft | internal/postgres/page_save.go:437-443 | a new revision leaves no pending or changes-requested review on its page and does not touch other pages' reviews |
| PageLaws.SaveCreates | internal/postgres/page_save.go:299-340 | a save that finds no page creates one with revision 1, at a path that no page has or had |
| PageLaws.RestoreUndoesBin | internal/postgres/page_recycle_bin.go:69-83 | restoring a page undoes moving it to the bin |
| PageLaws.CancelUndoesRequest | internal/postgres/page_approvals.go:228-289 | canceling a review right after requesting it restores the page's status, leaves the history alone and no review pending |
| PageLaws.OneSuggestionPerRevision | internal/postgres/page_comments.go:323-338 | over a whole run at most one inline suggestion captured at a given revision of a page is applied |
| PageLaws.SuggestionIsSplice | internal/postgres/page_comments.go:323-349 | an applied suggestion stays applied, and for good the next revision is the splice of its stored range into the captured one |
| PageLaws.OneBatchPerReview | internal/postgres/page_review_feedback.go:212-343 | suggestions of a review are applied in one batch: none is added later, the review is superseded and the next revision is that batch |
| PageLaws.RecordedLinksFollow | internal/postgres/page_moves.go:198-209 | every recorded link that led to a page leads to the same page after a move, under its new target |
| PageLaws.RecordedLinksFollowBulk | internal/postgres/page_moves.go:48-78 | and after a bulk move |
| PageLaws.ResolvesAfterMove | internal/postgres/page_links.go:9-36 | a path and its renamed form resolve alike before and after a move |
| PageLaws.LinkRowsStayApart | internal/postgres/page_moves.go:198-209 | a move merges no two link rows |
| PageLaws.WrittenLinksFollow | internal/postgres/page_moves.go:212-256 | after a link-updating move a page's text has the same direct links in the same order, each leading where it led |
| PageLaws.WrittenLinksFollowBulk | internal/postgres/page_moves.go:48-78 | and after a bulk move |
| PageLaws.MoveRevises | internal/postgres/page_moves.go:243-253 | link rewriting opens exactly one revision on each page whose text changes, none elsewhere, and touches no review |
| PageArtifacts.InStepExactly | internal/postgres/page_queries.go:249-265 | in every run whose artifacts come from one renderer a page's artifact is the rendering of its text exactly when the renderer gives the same for the text that was last stored with an artifact |
| PageArtifacts.InStepUnchanged | internal/postgres/page_queries.go:249-265 | for a renderer that tells texts apart that is exactly when the text is the one last stored |
| PageArtifacts.LastStored | internal/postgres/page_update_transaction.go:32-61 | every page that a run leaves had an artifact stored with its text at some last moment, and still carries it |
| PageArtifacts.ArtifactsInStep | internal/postgres/page_queries.go:249-265 | so only a link-rewriting move, after the artifact was last stored, leaves it out of step |
| PageArtifacts.AttemptStores | internal/postgres/page_update_transaction.go:32-61 | each transaction either stores a page's artifact with its text, or leaves the artifact alone and changes the text only by a move |
| PageExamples.StaleArtifact | internal/postgres/page_moves.go:243-253 | for every renderer that tells two links apart there is a run that ends with a stale artifact |
| PageExamples.MoveClash | internal/postgres/page_moves.go:198-209 | a reachable state in which a move to a free path fails with a key violation |
| PageLaws.TreeMoveSelects | internal/postgres/page_moves.go:118-153 | for paths without an underscore a tree move takes the live page and its live descendants and nothing else |
| MoveEffects.MoveTakes | internal/postgres/page_moves.go:118-153 | after a move the page at the source is at the target, with children every live page at source/rest at target/rest, a page the pattern selects without being below the source at target followed by its whole old path, and every other page where it was |
| MoveEffects.ChildFollows | internal/postgres/page_moves.go:145-145 | a child at source/rest ends at target/rest |
| MoveEffects.MoveOutcome | internal/postgres/page_moves.go:81-115 | exactly when a move succeeds and which error it reports otherwise, in terms of where pages go, who owns those paths and who links to both ends |
| MoveEffects.MovedRest | internal/postgres/page_moves.go:167-195 | moved or rewritten pages take the new token, and nothing but path, text and token changes in a row |
| MoveEffects.MovedLinkRows | internal/postgres/page_moves.go:198-209 | link rows after a move are those before, with a moved page's old path replaced by its new one and all other targets kept |
| MoveEffects.MovedLinkTexts | internal/postgres/page_moves.go:212-256 | so are the links in rewritten texts, one by one |
| MoveEffects.SourcePathIs | pkg/pagemove/pagemove.go:14-14 | white space around a requested path, and slashes within that, do not matter |
| MoveEffects.BulkMoveTakes | internal/postgres/page_moves.go:48-78 | after a bulk move each listed live page is below the target under the last element of its path, every other page where it was |
| PageEffects.LooksUp | internal/postgres/page_save.go:274-279 | a save looks its page up by the trimmed former path, if there is one, or by the new path |
| PageEffects.SaveStores | internal/postgres/page_save.go:160-200 | the saved page holds the request's path, metadata, status, text and artifact and its review date; its link rows are the request's links and other rows stay; a revision is added and the token taken exactly when path, metadata, status, text or review date differ |
| PageEffects.SaveOutcome | internal/postgres/page_save.go:251-271 | exactly when a save succeeds and which error it reports otherwise |
| PageEffects.SaveIfUnchangedOutcome | internal/postgres/page_concurrency.go:14-53 | a conditional save is the save exactly when the token is that of the live page at the former path; otherwise it reports the current revision |
| PageEffects.ImportSplits | internal/postgres/page_save.go:99-121 | importing two lists is importing one after the other, up to the first error |
| PageEffects.DecisionTakesEffect | internal/postgres/page_approvals.go:430-452 | an approval verifies the page as of now, a request for changes leaves the page alone, and only that review's status changes |
| PageEffects.DecideOutcome | internal/postgres/page_approvals.go:373-430 | exactly who may decide which review when, and each error otherwise |
| PageEffects.CancelGivesBack | internal/postgres/page_approvals.go:228-289 | canceling gives the page its former status exactly if the review's revision is current and the page a draft |
| PageEffects.SuggestionReplaces | internal/postgres/page_comments.go:224-349 | an inline suggestion is applied exactly if the page's text is before + original + after at the stored place and the new text is before + replacement + after |
| PageEffects.SuggestionApplied | internal/postgres/page_comments.go:323-349 | applying it marks that suggestion only, and updates text, artifact, history, links and open reviews of its page only |
| PageEffects.FeedbackOutcome | internal/postgres/page_review_feedback.go:212-300 | a batch is applied exactly if it names open suggestions of a pending review of the current revision, each once, and brings the text that they yield |
| PageEffects.FeedbackApplied | internal/postgres/page_review_feedback.go:300-343 | applying it marks exactly the named suggestions and updates its page only |
| PageEffects.PurgeForgets | internal/postgres/page_recycle_bin.go:86-117 | nothing of a purged page is left, everything of the others is |
| PageStatements.NextAliases | internal/postgres/page_moves.go:167-195 | moving one more page adds up to the simultaneous alias table, and its old path is no alias at that moment, so the conflict clause never fires |
| PageStatements.NextRetarget | internal/postgres/page_moves.go:198-209 | one more link-row statement adds up to the simultaneous renaming of targets |
| PageStatements.NextClash | internal/postgres/page_moves.go:198-209 | a key violation of one link-row statement is a clash in the rows as they were before the move |
| PageStatements.SpelledSubstitution | internal/postgres/page_moves.go:226-232 | rewriting a text with the moved pages in any loaded order is the simultaneous substitution |
| PageStatements.NothingToRewrite | internal/postgres/page_moves.go:212-217 | the filter on double brackets skips only pages without anything to rewrite |
| PageStatements.EditStatements | internal/postgres/page_save.go:160-200 | the ordered statements of a save that edits a page make up its atomic step |
| PageStore.Store.ValidateDestination | internal/postgres/page_aliases.go:11-21 | rejects exactly the paths that another page has or had |
| PageStore.Store.RemoveCurrentSlugAlias | internal/postgres/page_aliases.go:24-29 | removes the alias at a path only from the page itself |
| PageStore.Store.RenameRecord | internal/postgres/page_save.go:373-403 | changes the path, keeps the old one as an alias, and never re-points an alias |
| PageStore.Store.InsertRecord | internal/postgres/page_save.go:299-340 | inserts a page unless an alias or a page has the path |
| PageStore.Store.PersistRevision | internal/postgres/page_revision_metadata.go:57-97 | appends a revision exactly when something it records changed or the page is new |
| PageStore.Store.AppendRevision | internal/postgres/page_revision_metadata.go:137-154 | the new number is the greatest so far plus one |
| PageStore.Store.SupersedeReviews | internal/postgres/page_save.go:437-443 | closes exactly the page's pending and changes-requested reviews |
| PageStore.Store.ReplaceLinks | internal/postgres/page_save.go:480-497 | the page's link rows become the set of given targets, other rows stay |
| PageStore.Store.ExecuteSave | internal/postgres/page_save.go:160-200 | the whole save refines its atomic step, errors included |
| PageStore.Store.SavePage | internal/postgres/page_save.go:64-96 | commits the atomic save or rolls everything back |
| PageStore.Store.ImportPages | internal/postgres/page_save.go:99-121 | saves all pages of an import in one transaction with one timestamp, or none |
| PageStore.Store.EnsureUnchanged | internal/postgres/page_concurrency.go:56-89 | reports not-found, bin, or a conflict with the current revision, in that order, and passes only on an equal token |
| PageStore.Store.SavePageIfUnchanged | internal/postgres/page_concurrency.go:14-53 | commits the save only for the loaded token |
| PageStore.Store.LoadMovedPages | internal/postgres/page_moves.go:118-153 | loads each selected live page once with its destination, the shortest paths first |
| PageStore.Store.ValidateDestinations | internal/postgres/page_moves.go:156-164 | rejects exactly when some destination is taken by another page |
| PageStore.Store.ApplyMoves | internal/postgres/page_moves.go:167-195 | the row-by-row loop equals the simultaneous move, fails exactly when two destinations coincide, and re-points no alias |
| PageStore.Store.RetargetLinks | internal/postgres/page_moves.go:198-209 | the loop equals the simultaneous renaming of targets and fails exactly when a page links to both ends of a moved path |
| PageStore.Store.RewriteTargets | internal/postgres/page_moves.go:226-232 | the pass-by-pass loop equals one simultaneous substitution of direct targets |
| PageStore.Store.CollectEdits | internal/postgres/page_moves.go:212-241 | collects exactly the live pages whose text the substitution changes |
| PageStore.Store.RewriteIncoming | internal/postgres/page_moves.go:212-256 | revises exactly those pages, each once |
| PageStore.Store.ExecuteMove | internal/postgres/page_moves.go:81-115 | the statements of a move refine the one-shot specification, errors included |
| PageStore.Store.MovePage | internal/postgres/page_moves.go:33-45 | commits the move or rolls everything back |
| PageStore.Store.BulkMovePages | internal/postgres/page_moves.go:48-78 | moves all selected pages, the longest paths first, or none |
| PageStore.Store.PermanentlyDeletePage | internal/postgres/page_recycle_bin.go:86-117 | deletes a page in the bin with its aliases, revisions, reviews, suggestions, feedback and links |
| PageStore.Store.RequestPageReview | internal/postgres/page_approvals.go:132-176 | captures the current revision and status, sets draft, and fails while a review is pending |
| PageStore.Store.DecidePageReview | internal/postgres/page_approvals.go:373-452 | checks freshness, openness, assignment in that order, and approval verifies the page |
| PageStore.Store.WritePreparedUpdate | internal/postgres/page_update_transaction.go:32-61 | writes page, revision and review state of an applied suggestion |
| PageStore.Store.ApplyPageCommentSuggestion | internal/postgres/page_comments.go:224-349 | applies an unapplied, still-current suggestion whose splice is the given Markdown |
| PageStore.Store.LockOpenSuggestions | internal/postgres/page_review_feedback.go:346-393 | locks exactly the open suggestions selected, or all open ones |
| PageStore.Store.ApplyPageReviewSuggestions | internal/postgres/page_review_feedback.go:212-343 | applies exactly the requested open suggestions as one revision, or reports why not |
| SuggestionIds.SameReviewSuggestionIds | internal/postgres/page_review_feedback.go:406-429 | for distinct stored ids the check holds exactly when the request has no duplicates, is positive and is the same set |
| SuggestionIds.SameEdits | internal/postgres/page_review_feedback.go:396-403 | the edits of a selection do not depend on the order of its ids |
| ReviewEdits.Apply | pkg/reviewsuggestions/reviewsuggestions.go:13-49 | accepts exactly the fitting, pairwise disjoint selections on the reviewed side, and then equals replacing all ranges at once, in any order given |
| ReviewEdits.JoinLines | pkg/reviewsuggestions/reviewsuggestions.go:13-49 | splitting into lines and joining is the identity |
| ReviewTexts.OutcomeIs | pkg/reviewsuggestions/reviewsuggestions.go:13-49 | a selection is applied exactly if it is the suggestions among whole-line parts that make up the text, and the outcome is the text with each suggested part replaced, or removed when its replacement is empty |
| ReviewTexts.SuggestionInside | pkg/reviewsuggestions/reviewsuggestions.go:13-70 | one suggestion turns before, original, after into before, replacement, after, one below the other, or before, after when the replacement is empty |
| ReviewTexts.SuggestionInFront | pkg/reviewsuggestions/reviewsuggestions.go:13-70 | the same at the first line |
| ReviewTexts.SuggestionAtTheEnd | pkg/reviewsuggestions/reviewsuggestions.go:13-70 | the same at the last line |
| ReviewTexts.SuggestionForAll | pkg/reviewsuggestions/reviewsuggestions.go:13-70 | a suggestion for the whole text replaces it |
| ReviewTexts.LinesAreLines | pkg/reviewsuggestions/reviewsuggestions.go:34-34 | no line contains a newline |
| WikiLinks.PassRenames | internal/postgres/page_moves.go:259-265 | one ReplaceAll pass renames exactly the direct links with that target and ending |
| WikiLinks.RewriteRenames | internal/postgres/page_moves.go:259-265 | the three passes rename one path and nothing else |
| WikiLinks.PageByPageIsSimultaneous | internal/postgres/page_moves.go:226-232 | page-by-page rewriting with independent paths is one simultaneous substitution |
| WikiLinks.LinksRenamed | internal/postgres/page_moves.go:259-265 | the rewritten text has the same direct links in order with renamed targets |
| WikiLinks.KeepAll | internal/postgres/page_moves.go:259-265 | text whose targets are all fixed is left as it is |
| WikiLinks.SubstituteBack | internal/postgres/page_moves.go:259-265 | renaming back restores the text when no destination was linked before |
| WikiLinks.LinkTexts | internal/postgres/page_moves.go:259-265 | the three notations of a direct link are links, and renaming one replaces its target and no other character |
| SqlLike.LikeBelow | internal/postgres/page_moves.go:126-131 | what the descendant pattern of a path really selects, the underscore being a wildcard |
| SqlLike.SelectsOnlyBelow | internal/postgres/page_moves.go:126-131 | the pattern selects descendants only, exactly for paths without an underscore |
| UrlScanner.Ranges | internal/markdownurl/urls.go:60-83 | the index loops over the scanner's fields compute the reference scan for every source |
| UrlScanner.Scanner.ConsumeLine | internal/markdownurl/urls.go:75-83 | one line updates mode and ranges as the reference says |
| UrlScanner.Scanner.ConsumeFence | internal/markdownurl/urls.go:86-101 | fence opening and closing refine the reference |
| UrlScanner.Scanner.ScanInlineLine | internal/markdownurl/urls.go:118-149 | the inline loop refines the reference: comments, code spans, tags, links |
| UrlScanner.Scanner.ConsumeInline | internal/markdownurl/urls.go:152-203 | one inline step refines the reference |
| UrlScanner.Scanner.ConsumeTag | internal/markdownurl/urls.go:336-357 | one HTML tag refines the reference |
| UrlScanner.Scanner.ScanAttributes | internal/markdownurl/urls.go:379-403 | the attribute loop refines the reference |
| UrlScanner.Scanner.ScanDefinition | internal/markdownurl/urls.go:276-293 | a reference definition refines the reference |
| UrlScanner.FindDestination | internal/markdownurl/urls.go:306-324 | finds a destination exactly as the reference |
| UrlScanner.FindTagEnd | internal/markdownurl/urls.go:465-478 | finds the end of a tag outside quotes |
| UrlRanges.RangesFound | internal/markdownurl/urls.go:60-149 | ranges are in bounds, non-empty, strictly ordered and disjoint |
| UrlRanges.RangeInLine | internal/markdownurl/urls.go:60-115 | no range crosses a newline or lies in a fenced or indented block |
| UrlRanges.RangesSplit | internal/markdownurl/urls.go:60-83 | scanning a + newline + b finds the ranges of a first, then those of b from the mode that a ends in |
| UrlDocuments.DocumentScanned | internal/markdownurl/urls.go:61-72 | in every document built from text, links, reference definitions, tags, code spans, comments, code elements, fenced and indented code, also over several lines, the scanner finds exactly the destinations it was built with, where they were put |
| UrlDocuments.DocumentContinued | internal/markdownurl/urls.go:61-72 | and so it does after any text that leaves no construct open |
| UrlDocuments.PiecesScanned | internal/markdownurl/urls.go:118-148 | scanning a line finds exactly the destinations of its pieces, in order |
| UrlDocuments.ClosesFenceIs | internal/markdownurl/urls.go:102-105 | a fenced block ends exactly at a line of up to three spaces, at least as many markers, and white space |
| UrlDocuments.PlainLink | internal/markdownurl/urls.go:193-203 | the range of [l](d) is d |
| UrlDocuments.EscapedLink | internal/markdownurl/urls.go:206-217 | a backslash before the closing bracket hides the link |
| UrlDocuments.PlainDefinition | internal/markdownurl/urls.go:276-293 | the range of [l]: d is d |
| UrlDocuments.PlainImage | internal/markdownurl/urls.go:379-402 | the range of the src attribute of an img is its value, that of href none |
| UrlDocuments.PlainAnchor | internal/markdownurl/urls.go:379-402 | the range of the href attribute of an a is its value, that of src none |
| UrlDocuments.LinkInCodeSpan | internal/markdownurl/urls.go:169-182 | a link in a code span is not found |
| UrlDocuments.LinkInFence | internal/markdownurl/urls.go:86-100 | a link between two fence lines is not found |
| UrlDocuments.PlainRewrite | internal/markdownurl/urls.go:35-58 | rewriting [l](d) gives [l](text) |
| UrlRecognition.LinkFound | internal/markdownurl/urls.go:193-217 | a link is found anywhere in a line whose bracket an even number of backslashes precedes, and scanning goes on behind it |
| UrlRecognition.BracketSkipped | internal/markdownurl/urls.go:206-217 | a bracket after an odd number of backslashes, or without a parenthesis, is ordinary text |
| UrlRecognition.ResourceFound | internal/markdownurl/urls.go:336-357 | a tag has the destinations of its quoted and unquoted src or href attributes, none in raw HTML code |
| UrlRecognition.CodeElementScanned | internal/markdownurl/urls.go:336-357 | a code or pre element opens raw HTML code unless it closes itself |
| UrlRecognition.ClosingScanned | internal/markdownurl/urls.go:336-376 | a closing tag has no destinations and ends raw HTML code |
| UrlRewrite.Rewrite | internal/markdownurl/urls.go:35-58 | succeeds exactly when no answer fails, then equals the splice of the answers, and otherwise reports the first failure; its test for previous being 0 holds exactly when nothing was replaced |
| UrlRewrite.ReplaceOne | internal/markdownurl/urls.go:35-58 | replacing one plain destination keeps the number of ranges, the other texts and everything between them |
| UrlRewrite.OneChanged | internal/markdownurl/urls.go:35-58 | changing one destination changes its text and no other character |
| UrlRewrite.RewritePreserves | internal/markdownurl/urls.go:275-425 | for plain destinations rescanning the output finds as many ranges, in order, with the new texts |
| UrlRewrite.RewriteRoundTrip | internal/markdownurl/urls.go:35-149 | rewriting and rewriting back returns the source |
| UrlSubstitution.SourceMoved | internal/markdownurl/urls.go:75-149 | swapping one plain destination leaves the scanner's structure of the whole source as it was |
| LeaseQueue.Queue.Enqueue | internal/postgres/plugin_content_changes.go:12-36 | one available row per change |
| LeaseQueue.Queue.Claim | internal/postgres/plugin_content_changes.go:38-91 | leases up to limit ready rows, the oldest first, fewer only when no more are ready, and counts the attempt |
| LeaseQueue.OnlyAcceptedLeave | internal/postgres/plugin_content_changes.go:94-97 | in every run a row leaves the queue only when a worker acknowledges it, and then a hook has accepted the event |
| LeaseQueue.ProcessOne | internal/pluginruntime/content_change_worker.go:154-186 | acknowledges a delivered event and schedules a failed one |
| LeaseQueue.Queue.Retry | internal/postgres/plugin_content_changes.go:99-106 | the row becomes available at the given time and free, with its payload and attempts; other rows stay |
| LeaseQueue.NotClaimedEarly | internal/postgres/plugin_content_changes.go:49-58 | in every run an event put off until a time is claimed by nobody before, unless it is put off anew |
| LeaseQueue.ClaimableOnceDue | internal/postgres/plugin_content_changes.go:49-58 | from then on any free worker may claim it, if nobody has and it is still queued |
| LeaseQueue.NotClaimedWhileLeased | internal/postgres/plugin_content_changes.go:49-61 | a claimed event is claimed again only after its lease, unless it is put off in between |
| LeaseQueue.ClaimableAfterLease | internal/postgres/plugin_content_changes.go:49-61 | after the lease it may be claimed again, so that a crashed worker loses nothing |
| LeaseQueue.AcknowledgedIsGone | internal/postgres/plugin_content_changes.go:94-97 | an acknowledged event is never queued or claimed again |
| LeaseQueue.EnqueuedAreReady | internal/postgres/plugin_content_changes.go:22-35 | enqueued payloads are queued under the next ids, free and available at once |
| LeaseQueue.DeliveryRound | internal/pluginruntime/content_change_worker.go:154-186 | a worker's round with one item: accepted and gone, or failed, put off and free again; then it goes on with the rest |
| LeaseQueue.NothingLost | internal/pluginruntime/content_change_worker.go:133-186 | under any interleaving of workers, crashes, failed calls and clock steps every event is queued with its payload or was accepted by a hook |
| LeaseQueue.AttemptsAreClaims | internal/postgres/plugin_content_changes.go:39-65 | a queued event's attempts are exactly its claims in the run |
| LeaseQueue.SharedExactly | internal/postgres/plugin_content_changes.go:38-91 | for every run and every event: two workers never hold it at once exactly when no claim of the run takes it while another worker holds it past its lease |
| LeaseQueue.NoSharedEvent | internal/postgres/plugin_content_changes.go:38-91 | so no event is ever shared when its workers answer in time |
| LeaseQueue.LateWorkersShare | internal/postgres/plugin_content_changes.go:49-55 | for every lease there is a run with a late worker in which two deliver one event at once |
| Rebuilds.QueueAllIsItsSteps | internal/pagecontent/rebuilds.go:176-198 | the interleaved steps of one QueueAll call leave the shared state as the method does |
| Rebuilds.RunKeeps | internal/pagecontent/rebuilds.go:161-248 | in every interleaving an untaken request whose call returned has a wakeup in the channel or a worker that is inside its loop or stopped, and every marked request is accounted for |
| Rebuilds.QuietMeansRebuilt | internal/pagecontent/rebuilds.go:201-234 | with an idle worker and an empty channel, every returned request was followed by a rebuild that began after it and ended, unless the newest attempt failed or was canceled |
| Rebuilds.QuietExactly | internal/pagecontent/rebuilds.go:123-159 | then every request that was taken has been rebuilt exactly when the newest attempt did not fail |
| Rebuilds.FailedListingLosesRequest | internal/pagecontent/rebuilds.go:128-132 | a run in which a request is lost because its rebuild cannot list the pages |
| Rebuilds.QuietLeftovers | internal/pagecontent/rebuilds.go:161-198 | what is left then was only marked, or its call has not returned |
| Rebuilds.SleepsWhenDone | internal/pagecontent/rebuilds.go:217-235 | the worker goes to sleep only when nothing is marked |
| Rebuilds.CatchesUp | internal/pagecontent/rebuilds.go:200-235 | from every reachable state the worker alone can get a returned request rebuilt, unless it was canceled or stopped |
| Rebuilds.CanceledForGood | internal/pagecontent/rebuilds.go:200-222 | once canceled, no further rebuild begins, and the worker may stop when it is idle |
| Rebuilds.DeferredMarksWait | internal/pagecontent/rebuilds.go:161-173 | marking alone leaves the flag up with nobody to look at it |
| Rebuilds.TakesNewestReason | internal/pagecontent/rebuilds.go:217-233 | in every run a rebuild is logged under the newest reason given since the last one began |
| Oidc.Store.FinishLogin | internal/postgres/oidc.go:251-279 | what a login without binding writes, and its error |
| Oidc.Store.ApprovePending | internal/postgres/oidc.go:342-384 | binds a waiting identity to a new account |
| Oidc.Store.ReplaceBinding | internal/postgres/oidc.go:454-503 | swaps the user's identity of an issuer and rejects the displaced one |
| Oidc.Store.LinkPending | internal/postgres/oidc.go:387-423 | binds a waiting identity to an existing account |
| Oidc.Store.RemoveIdentity | internal/postgres/oidc.go:506-535 | unbinds and rejects an identity |
| Oidc.Store.SetRejected | internal/postgres/oidc.go:556-575 | rejects or reopens a waiting identity |
| Oidc.NeverBothBoundAndPending | internal/postgres/oidc.go:220-339 | over every run no identity is ever both bound and pending or rejected, exactly when no login records an identity bound since its recheck; a user always has one per issuer |
| Oidc.RejectedUntilReopened | internal/postgres/oidc.go:341-575 | over every run without reopening, a rejected identity stays rejected and unbound exactly when no login registers it that read its status before |
| Oidc.OnlyWithoutRow | internal/postgres/oidc.go:241-279 | both failures need a login that read no pending row |
| Oidc.DisplacedIsRejected | internal/postgres/oidc.go:454-503 | the displaced identity ends rejected, exactly unless its subject is empty |
| Oidc.LockedIsSafe | internal/postgres/oidc.go:241-256 | a login that holds the pending-row lock causes neither failure, whatever ran since its first lookup |
| Oidc.WriteKeepsDisjoint | internal/postgres/oidc.go:251-279 | a login's write keeps the tables disjoint exactly when it does not record an identity bound by now |
| Oidc.WriteKeepsRejected | internal/postgres/oidc.go:251-279 | a login's write leaves a rejected identity rejected and unbound exactly when it does not register it |
| Oidc.OvertakenLogin | internal/postgres/oidc.go:241-279 | a run in which a login without a row to lock is overtaken and the identity ends both bound and pending |
| Oidc.OvertakenRejection | internal/postgres/oidc.go:241-279 | a run in which such a login registers an identity rejected meanwhile, which nobody reopened |
| Oidc.LoginSteps | internal/postgres/oidc.go:220-339 | what each statement of a login does to each identity, its own or another |
| Oidc.AdministratorSteps | internal/postgres/oidc.go:342-575 | what approving, linking, removing and rejecting do to the identity, to the one it displaces, and to others |
| Oidc.BindingChanges | internal/postgres/oidc.go:220-575 | an identity gets an account only by a registration, approval or link and loses it only by removal or a displacing link |
| CommentThreads.PageCommentRoot | internal/webview/collaboration.go:51-67 | the walk with its seen set terminates at the root for any parent links |
| CommentThreads.RootOfRoot | internal/webview/collaboration.go:51-67 | a root is its own root, also in cycles, self-parents and with missing parents |
| CommentThreads.RootEndsChain | internal/webview/collaboration.go:51-67 | the root is the last of the chain of parents, whose parent is missing |
| CommentThreads.RootComesRound | internal/webview/collaboration.go:51-67 | or, in a cycle, the comment that comes round first |
| CommentThreads.PageInOrder | internal/webview/collaboration.go:22-27 | the page's comments are those whose root has a blank anchor, in their order |
| CommentThreads.RepliesInOrder | internal/webview/collaboration.go:29-45 | the replies of a thread are the other comments with its root, in their order |
| CommentThreads.PartitionPageComments | internal/webview/collaboration.go:11-48 | page comments are those with an unanchored root, each thread is its root followed by its replies in order, roots differ, and every comment appears exactly once |
| CommentThreads.EachCommentOnce | internal/webview/collaboration.go:11-48 | each comment appears exactly once across the page and all threads, and nothing else appears |
| Annotations.NextReplacementToken | pkg/markdown/annotations.go:68-88 | finds the leftmost, then longest token for any iteration order |
| Annotations.NextIsUnique | pkg/markdown/annotations.go:68-88 | that choice is unique |
| Annotations.ResolvePluginReplacements | pkg/markdown/annotations.go:30-65 | equals the one-pass expansion, whatever order the map has in each round, never looks at inserted values, and its ranges are ordered, disjoint, non-empty and cover exactly inserted values |
| Annotations.SplitByRanges | pkg/markdown/annotations.go:148-194 | parts tile the interval for any list of ranges; for ordered ones a part carries the id of the range it lies in |
| Annotations.TilesJoin | pkg/markdown/annotations.go:309-328 | tiles put together are the text they were cut from |
| Annotations.ByTokenIs | pkg/markdown/annotations.go:30-45 | of several replacements with one token the last counts, those without a token do not |
| Annotations.TokenReplaced | pkg/markdown/annotations.go:45-65 | the output goes on behind the nearest, longest token with the token's value, and its range, in its place |
| PageAccess.PageAccess | internal/postgres/page_access.go:12-40 | evaluates a nearest rule path that applies, or reports unrestricted |
| PageAccess.AggregateIsEvaluate | internal/postgres/page_access.go:92-103 | the batch's grouped three-valued aggregate over the rows joined to a path is the evaluation of the nearest rule path, and no access when none applies |
| PageAccess.BatchIsAccess | internal/postgres/page_access.go:87-119 | a path alone in a batch has exactly the answers of the single query |
| PageAccess.PageAccessBatch | internal/postgres/page_access.go:88-119 | answers exactly the requested paths, each with the aggregate over its joined rows |
| PageAccess.NearestIsUnique | internal/postgres/page_access.go:15-22 | the nearest rule path is unique for all pages exactly when no two rule paths match a common path as patterns of equal length |
| PageAccess.BatchAgreesWithSingle | internal/postgres/page_access.go:87-119 | single query and batch aggregate agree at every path for every user exactly when rule paths that match a common page at equal length grant every group the same |
| PageAccess.UnambiguousAgrees | internal/postgres/page_access.go:87-119 | so they agree where the nearest rule path is unique |
| PageAccess.PlainPathsAreUnambiguous | internal/postgres/page_access.go:15-22 | rule paths without an underscore are never ambiguous |
| PageAccess.AmbiguousAnswers | internal/postgres/page_access.go:15-22 | with an underscore in a rule path one user may get two different answers for one page |
| PageAccess.EditImpliesView | internal/postgres/page_access.go:23-37 | edit implies view, and both imply a rule applies |
| PageAccess.OtherRulesDoNotMatter | internal/postgres/page_access.go:11-40 | rules that do not apply or are farther away have no effect |
| PageAccess.AccessIs | internal/postgres/page_access.go:12-40 | for all rules: access is unrestricted if no rule path reaches the page, otherwise what the rules of a longest one that does grant the user's groups |
| PageAccess.NearestDecides | internal/postgres/page_access.go:12-40 | without underscores that is the nearest rule path at or above the page |
| PageAccess.NoRuleDecides | internal/postgres/page_access.go:12-40 | and unrestricted access where no rule is at or above it |
| Archive.IndexEntries | internal/portable/decode.go:131-150 | succeeds exactly for distinct, clean file names, and then indexes the ZIP's files |
| Archive.Reader.ReadZipFile | internal/portable/decode.go:341-367 | bytes read plus remaining budget stay equal to the limit |
| Archive.Reader.ReadPage | internal/portable/decode.go:212-272 | succeeds exactly for a valid page whose two canonical files can be read in turn |
| Archive.Reader.ReadResource | internal/portable/decode.go:275-302 | succeeds exactly for a resource of its section that can be read in turn |
| Archive.Parse | internal/portable/decode.go:87-128 | accepts exactly archives with clean distinct names, a valid manifest and entries, every listed file readable once within the rest of the limit, and nothing else; then page paths differ and contents are those of the files |
| Archive.SameCount | internal/portable/decode.go:119-124 | equal counts of used and existing files mean that they are the same files |
| Archive.SlugsDiffer | internal/portable/decode.go:226-233 | distinct listed paths mean distinct page paths |
| Archive.EntriesAre | internal/portable/decode.go:131-150 | each name stands for the file of that name |
| Archive.ParsedFiles | internal/portable/decode.go:87-128 | what a successful parse returns is what the files of the listed names hold, and there is no other file |
| Archive.DescribedIsAccepted | internal/portable/decode.go:87-128 | an archive whose files are those its manifest lists, of their declared sizes, is accepted exactly if the sizes add up to no more than the limit |
| PluginQuota.PluginStore.WritePluginValue | internal/postgres/plugins.go:42-67 | writes exactly when the plugin's other keys leave room, and stays within the quota |
| PluginQuota.PluginStore.ReplacePluginValue | internal/postgres/plugins.go:70-148 | moves a value to a free key within the quota, or reports why not |
| PluginQuota.PluginStore.DeletePluginValue | internal/postgres/plugins.go:150-153 | removes one key and stays within the quota |
| PluginQuota.WriteKeepsQuota | internal/postgres/plugins.go:41-67 | a write that fits keeps every plugin within 1,024 keys and 16 MiB across namespaces |
| PluginQuota.OverwriteAlwaysFits | internal/postgres/plugins.go:41-62 | overwriting with a value no larger always fits, even at the quota |
| PluginQuota.MoveFits | internal/postgres/plugins.go:102-138 | moving a value fits exactly when overwriting it in place would |

## Left out

- Text positions: the model counts Unicode characters where the source counts bytes, and takes Unicode White_Space as what TrimSpace removes.
- SQL text, drivers, pools, JSON encoding and the translation of database errors; constraint violations without a domain error are one error, `Constraint`.
- Audit events, notifications, tags, groups and properties as separate tables: versioned metadata is one value per page; navigation icons, which the source keeps per path, are part of it.
- Checks of who may assign a group, and foreign keys to users and groups.
- Bulk status, tag, group and delete operations, documentation-review marks and view counts: they change no path, Markdown or revision.
- Ordinary page comments and their resolution; only comments with an inline suggestion are rows of the model.
- Review notes, and decisions other than approval and asking for changes.
- PageStore.Store.LoadMovedPages: rows of equally long paths come in any order, not in the database's collation; the results are the same for every one.
- ReviewEdits.Apply: does not tell a conflicting from a stale selection (`SelectionRejected`), because for two suggestions with equal ranges the source's unstable sort decides between the two errors.
- UrlRewrite.Rewrite: the replacement callback is a function of the URL text.
- CommonMark beyond what the scanner reads; Markdown rendering, HTML parsing and plugins.
- Which rows a claim passes over because other claims hold locks on them: in runs a claim may take any ready rows.
- Direct delivery of content changes when the queue cannot be written, the retry delay and the text of stored errors.
- Rebuilding a single page, and failures of single pages within a full rebuild, which the rebuild passes over.
- Profiles of external identities (username, e-mail, display name) and group synchronization; whether a username is free is a parameter.
- `Archive.Checks`: path cleaning, canonical slugs, JSON decoding and metadata validation are parameters; which message a refused archive gets is not modelled.
- Rendering of annotated nodes and the comparison of annotated with plain HTML.
- Access rule administration; sessions, passwords, tokens, webhooks, settings, templates, search, HTTP and the user interface.
