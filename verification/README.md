# The context atlas, modelled and proved

The repository indexes a project into an atlas: a containment tree of Universe, Galaxy, Systems
(top directories), Planets (directories) and Moons (files and the symbols in them), with sockets
that record what files require and provide, and a Green code for every entity. Most of its code is
a fast or streamed form of something simple: an incremental update beside a full pass, a scan one
directory at a time beside a scan of the whole, a cache beside a parser, a text file beside a
snapshot. Its documentation promises that the two forms agree. This project states those promises
for every input and proves them, and where one holds only sometimes it proves exactly when.

Code that works in place is modelled by methods with loops, arrays and classes. Each is proved
equal to a specification function, and the laws are lemmas about those functions.

## Where to start

- **Green** (`Hierarchy`, `Evaluator`, `GreenMeaning`, `RollUp`, `FullPass`, `Reconverge`): a
  validated tree, the assessment of one entity and exactly when it is Green or Red, the consistent
  Green as an order-free notion with only one solution, the rank-ordered full pass, and the work
  list. `Reconverging.Reconverge` restores the consistent Green from any change, and equals the
  full pass when children are listed before parents.
- **The layered scan** (`ScanIndex`, `Imports`, `Slices`, `SliceStore`, `Store`, `Subtree`, `Sockets`,
  `Stitch`, `LayeredSockets`, `Isolation`, `LayeredGreen`, `LayeredRollUp`, `LayeredScan`, `Reload`,
  `Stored`, `Enriched`, `Carried`, `ComposedScan`, `SampleScan`): rows, edges, store contents, socket
  resolutions and Green found directory by directory are those of the whole-snapshot scan.
  `SliceStores.LayeredStoreIsReplaced`, `LayeredSockets.LayeredIsWhole` and
  `ComposedScans.ComposedScanIsWhole` are the main results; the last runs from the index and the
  parsed files to the rolled-up Green. `SampleScans` exhibits a project that meets the hypotheses.
- **Identity across rescans** (`Identity`, `Ambiguity`, `Rescan`, `MatchLaw`, `IdentityLaws`,
  `IdentityClashes`): which declaration is taken for which, in one law (`MatchLaws.HeirIsMatch`), and
  exactly when two end with one id (`IdentityClashes.DistinctIffNoClash`).
- **Texture and PNG** (`Hilbert`, `Texture`, `TextureOrder`, `Png`, `PngReader`): the curve is a
  continuous bijection at every power of two, no cell is painted twice, and a reader gets every
  image back.
- **Text codecs** (`IdxText` to `IdxRoundTrip`, `UseExpander`, `UseTrees`): decoding an encoded
  snapshot gives it back in canonical order, evidence included, whatever other records its file
  carries (`IdxRoundTrip.DecodeEncode`), and printing a nested `use` tree and expanding it gives its
  leaves.
- **Orbit** (`ModuleMap`, `Neighbourhood`, `Budget`, `BudgetLaws`): exact shortest distances, and the
  trimmer's conservation and priority laws.
- **Crash protocol** (`Coordinator`, `Service`, `Journal`, `ParseCache`): a step machine whose steps
  include crashes between any two writes, the journal file byte by byte, and the parse cache over any
  sequence of edits.
- **Calendar**: `civil_from_days` over all integers.

## Where the code and its documentation part

The model follows the code. Each of these is a lemma.

- A full pass visits same-scale entities in list order, and enrichment lists files before their
  symbols. So a symbol never darkens its file in the full pass, while `reconverge`, said to give an
  identical result, folds it (`FullPasses.FullPassIsRollUpIffChildFirst`, `Isolation.ParentFirstPass`).
- The budget is said to keep at least one entity. Optional entities go before the spine, so one that
  would fit alone is dropped to keep a spine that is then trimmed too, and the packet ends empty
  (`BudgetLaws.SelectionStaysIff` says exactly when it does not).
- Journalling before processing is said to leave an event to be replayed after a crash. The reconcile
  every start begins with covers its change (`Services.RefreshCoversJournal`), but nothing queues the
  event again: it stays in `pending()` for ever unless it is observed anew
  (`Services.LeftBehindStaysPending`).
- Appending after a torn line makes the journal unreadable, a torn marker swallows the next one, and
  a cut inside a multi-byte character makes the file unreadable at once (`Journals.ReadableAgainIff`,
  `Journals.NextMarkerCountsIff`, `Journals.ReadTorn`).
- A rename is said never to merge silently. Several old declarations that one new one could be are
  left alone, but of several new ones that one old one could have become, the first takes its id; the
  structure compared is only the construct's label (`IdentityLaws.FirstLookalikeTakesTheId`).
- The stable id is said to be canonical. Yet a declaration can inherit an id that another entity keeps
  as its own fresh one: a namesake put above an earlier declaration, or a new function beside one that
  became a type on its line (`Rescan.NewNamesakeAboveCollides`,
  `IdentityClashes.KindChangeCollides`; `IdentityClashes.DistinctIffNoClash` is the exact condition).
- Evidence is said to be attached to entities and edges. Any target that is an id is taken for an
  entity's, so the evidence written for an edge never comes back to it (`IdxRoundTrip.DecodeEncode`).
- Files at the top of a project share a Planet with a directory named `root` (`Slices.SamePlanetIff`).
- The parse cache is keyed by content alone: two files with the same text but different grammars are
  served one parse (`ParseCaches.CachedIsFreshIff`).
- Finalizing keeps a stale row that already bears the new snapshot id (`Stores.ExactIffNoStaleStamp`).
- The texture wraps round beyond 2^32 codes and a PNG chunk's length beyond 2^32 bytes
  (`Texture.LegibleIff`, `PngReader.LengthIsHonestIff`).

## What is assumed

Ids and fingerprints are values; hashing is never opened. Where distinct ids are needed they are a
hypothesis (`Slices.AllIdsDistinct`, `ScanIndex.EdgeIdsDistinct`, `LayeredScans.SymbolsFit`,
`IdxRoundTrip.Legal`), and so is an injective content hash
(`ParseCaches.Injective`) and the one grammar per fingerprint (`ParseCaches.OneGrammar`). Parsing and
the JSON codec of journal entries are uninterpreted; the latter prints one line and reads nothing
but what it printed (`Journals.Lawful`). The layered Green results assume the default policy, that
containment edges are the only required ones and that no recorded evidence was merged, which only
the whole-snapshot scan does. Confidence values are opaque words that need no quotes.

## Model

| member | source | states |
|---|---|---|
| Hierarchy.FromEntities | crates/context-core/src/atlas/hierarchy.rs:30-77 | Validation succeeds if and only if the list is a containment tree (distinct ids, one Universe root, every other entity under one of an allowed scale, no endless parent chain); the tree built lists exactly the children of every id, sorted by scale, lower-cased name and id, and each error names a genuine defect. |
| Hierarchy.FindCycle | crates/context-core/src/atlas/hierarchy.rs:132-147 | Reports nothing exactly when every parent chain ends, and otherwise the place where the chain of the least id that never ends enters its cycle. |
| Hierarchy.ClimbToTop | crates/context-core/src/atlas/hierarchy.rs:136-143 | One climb with a seen-set terminates on any map and finds a repeat exactly when the chain never ends: the first entity on it that is its own ancestor. |
| Hierarchy.ChainsEndAtRoot | crates/context-core/src/atlas/hierarchy.rs:30-77 | In a validated tree every parent chain ends at the one root, at its depth. |
| Hierarchy.DescendantsOf | crates/context-core/src/atlas/hierarchy.rs:106-119 | The stack walk lists every proper descendant exactly once and nothing else, sorted by scale, lower-cased name and id. |
| Evaluator.WeakestOfIsLeast | crates/context-core/src/green/evaluator.rs:258-260 | The folded code is the least of the codes, Green when there are none. |
| Evaluator.OverallIsLocalAndChildren | crates/context-core/src/green/evaluator.rs:168-175 | An overall code is the entity's own code darkened by its weakest child, through all six axes. |
| Evaluator.OnlyWeakestChildMatters | crates/context-core/src/green/evaluator.rs:127-132 | A whole assessment, reasons included, depends on the children only through their weakest code: neither their order nor their number shows. |
| Evaluator.SameChildren | crates/context-core/src/green/evaluator.rs:127-132 | So any rearrangement of a children list gives the same assessment, the sorted list of the hierarchy included. |
| GreenMeaning.GreenIff | crates/context-core/src/green/evaluator.rs:133-256 | An entity is Green exactly when its record is current, every other axis is proved by fresh passing evidence at its floor that was not merely inferred with nothing fresh failing or warning, all children are Green, every required relationship is proved, every demanded socket has a confirmed fit and no open contradiction weighs on it. |
| GreenMeaning.RedIff | crates/context-core/src/green/evaluator.rs:133-256 | An entity is Red exactly when fresh evidence fails, a child is Red, a required relationship fails, a demanded socket is unmatched or rejected, or a Red contradiction is open: absence of proof never reddens. |
| Evaluator.GroupRequired | crates/context-core/src/green/evaluator.rs:17-31 | The one-pass grouping looks up exactly the required edges a per-entity filter would find, in the same order. |
| Evaluator.EvaluateAxis | crates/context-core/src/green/evaluator.rs:147-219 | The mutable per-axis fold computes the specified assessment of that axis: code, floor, evidence and reasons. |
| Evaluator.EvaluateEntity | crates/context-core/src/green/evaluator.rs:133-228 | The axis loop computes the specified assessment of the entity. |
| Evaluator.EvaluateSnapshot | crates/context-core/src/green/evaluator.rs:5-62 | Fails, changing nothing, exactly on an invalid hierarchy; otherwise stamps every entity with what the rank-ordered pass assesses it as. |
| RollUp.RollUpIsUnique | crates/context-core/src/green/evaluator.rs:127-132 | A tree has only one consistent Green: two lists that differ only in their Green and are both consistent are equal. |
| RollUp.OverallIsSubtreeMinimum | crates/context-core/src/green/evaluator.rs:168-175 | Under a consistent Green an overall code is the minimum of the local codes over the whole subtree, and is attained there. |
| FullPasses.FullPassRollsUp | crates/context-core/src/green/evaluator.rs:5-62 | When same-scale children are listed before their parents the full pass computes the consistent Green. |
| FullPasses.ParentStaysGreen | crates/context-core/src/green/evaluator.rs:13-15 | The counterexample: a parent listed before its same-scale child stays Green while the child is Red. |
| FullPasses.FullPassIsRollUpIffChildFirst | crates/context-core/src/green/evaluator.rs:12-44 | The exact condition: over every policy, evidence, socket and conflict the tree can carry, the full pass is the roll-up if and only if same-scale children come before their parents. |
| Reconverging.Reconverge | crates/context-core/src/green/incremental.rs:29-96 | From a Green that is stale only at the changed entities, the work list restores the consistent Green; with children listed first that is the full pass's result, codes and reasons; whatever is rewritten or moved lies at or above a changed entity, and every changed overall is reported. |
| Reconverging.Drain | crates/context-core/src/green/incremental.rs:41-87 | The queue loop alone: it terminates, visits nothing but changed entities and their ancestors, and leaves a settled cache. |
| Reconverging.WeightFalls | crates/context-core/src/green/incremental.rs:79-86 | Why it terminates: the summed depth of the queue falls on every visit, also when a parent is pushed. |
| Reconverging.SettledIsRolledUp | crates/context-core/src/green/incremental.rs:89-95 | An empty queue with a faithful cache is a consistent Green once the updates are written back. |
| Reconverging.RolledUpIsFullPass | crates/context-core/src/green/incremental.rs:1-8 | With children listed first, any consistent Green of the same records is what the full pass stamps. |
| Isolation.AppendedComeAfter | crates/context-parsers/src/enrich.rs:250-283 | Enrichment pushes symbols after the rows they hang from, so an enriched snapshot lists parents before their same-scale children. |
| Isolation.ParentFirstPass | crates/context-core/src/green/evaluator.rs:12-57 | What the pass then really folds: every entity is assessed against exactly its children of another scale, in any list order. |
| Isolation.IsolatedIsWhole | crates/context-core/src/green/evaluator.rs:127-132 | A subtree evaluated alone, with any of the containment edges, is assessed exactly as the whole-snapshot pass assesses it: codes, evidence and reasons. |
| LayeredGreen.FoldIsAssessedIff | crates/context-cli/src/commands/scan_layered.rs:383-394 | Folding Planets gives a System its assessed code exactly when its own axes are no darker than its darkest Planet. |
| LayeredGreen.ContainmentAddsNothing | crates/context-cli/src/commands/scan_layered.rs:413-418 | Containment edges change neither a code nor a reason, so the roots may be assessed without edges. |
| LayeredGreen.ScannedFolderIsUnknown | crates/context-core/src/scan.rs:803-854 | A folder as the scanner builds it is Unknown by itself. |
| LayeredRollUp.RollFolders | crates/context-cli/src/commands/scan_layered.rs:383-433 | The roll-up loop computes the specified table of System codes and assesses the Galaxy and the Universe from it. |
| LayeredRollUp.SystemFoldIsWhole | crates/context-cli/src/commands/scan_layered.rs:386-400 | One System's fold over its Planets is the code the whole-snapshot pass gives that System. |
| LayeredRollUp.RollUpIsWhole | crates/context-cli/src/commands/scan_layered.rs:383-436 | From Planets that agree with the whole-snapshot pass, every System gets its code and the Galaxy and Universe their full assessments. |
| LayeredRollUp.LayeredGreenIsWhole | crates/context-cli/src/commands/scan_layered.rs:127-436 | The layered scan's Green is the monolith's: everything from a Planet down is assessed identically in its own directory, Systems get the same codes, the roots the same assessments. |
| LayeredRollUp.ScanIsFoldered | crates/context-core/src/scan.rs:409-470 | The rows built from an index satisfy the folder hypotheses of the previous rows, whatever Moons hang below. |
| LayeredScans.SnapshotIsWellFormed | crates/context-core/src/scan.rs:409-470 | What the scan builds, whole or a slice, enriched with symbols, always passes the hierarchy validation. |
| LayeredScans.BelowPlanet | crates/context-cli/src/commands/scan_layered.rs:127-152 | In it, below a Planet lie exactly its row and the rows and symbols of its files. |
| LayeredScans.SliceHoldsSubtree | crates/context-cli/src/commands/scan_layered.rs:127-152 | A directory's own snapshot is a valid tree, parents first, that holds below its Planet exactly the records of the whole. |
| Reloads.ReloadHoldsSubtree | crates/context-cli/src/commands/scan_layered.rs:308-356 | A touched directory read back from the store, patched and set under the roots, its System and its Planet is a valid tree, files first, that holds below the Planet exactly the whole's records with the stitched sockets. |
| StoredScans.WritesStoreScan | crates/context-cli/src/commands/scan_layered.rs:238-251 | Once every directory is persisted the stamped rows are exactly the scan's, whatever their Green, unless a stale row outside it bears the stamp. |
| StoredScans.PatchKeepsStored | crates/context-cli/src/commands/scan_layered.rs:357-374 | Persisting a re-evaluated directory keeps that, with its stitched sockets, so the next one can be read back in turn. |
| LayeredScans.LayeredScanIsWhole | crates/context-cli/src/commands/scan_layered.rs:127-436 | From an index with distinct ids, whatever symbols and sockets the files end with: evaluating slice by slice and rolling up gives every entity from a symbol to the Universe the whole-snapshot scan's Green. |
| EnrichedScans.StitchedIsWhole | crates/context-cli/src/commands/scan_layered.rs:279-302 | From the index's own paths and group keys: a file's sockets matched in its directory and then against all directories are the ones matching the whole snapshot gives it. |
| EnrichedScans.FileEndsWhole | crates/context-cli/src/commands/scan_layered.rs:286-340 | In a touched directory the patch by socket id yields exactly those and leaves declarations alone; in any other directory the file had them from the start. |
| CarriedScans.SymbolsOfSnapshot | crates/context-core/src/identity.rs:46-63 | The declarations the reconciliation sees in a scanned snapshot are those of its plain files, in file order. |
| CarriedScans.SameCarried | crates/context-cli/src/commands/scan_layered.rs:154-176 | Reconciling a directory's own snapshot leaves each symbol's id, parent and socket owners exactly as reconciling the whole snapshot does. |
| ComposedScans.ComposedScanIsWhole | crates/context-cli/src/commands/scan_layered.rs:60-436 | End to end: directories parsed, matched, reconciled and evaluated alone, touched ones patched and evaluated again from the store, folders rolled up. Every entity ends with the Green, reasons included, that parsing, matching, reconciling and evaluating the whole snapshot gives it. |
| Sockets.MatchNameIs | crates/context-core/src/sockets.rs:32-42 | A shape is matched by the last segment of its name that is not empty, or by the whole name if all of it is separators. |
| Sockets.ReexportKeepsName | crates/context-core/src/sockets.rs:32-36 | Naming an item through any path leaves the name it is matched by. |
| Sockets.OutcomeMeans | crates/context-core/src/sockets.rs:44-104 | A fit names the one provider in the snapshot, an ambiguity lists all of the several in entity order and nothing else, no match means that nothing provides and nothing defines the name, and unresolved that something only defines it: all exactly. |
| Sockets.IndexProviders | crates/context-core/src/sockets.rs:80-92 | The index holds, under every match name, exactly the providers of that name in entity order. |
| Sockets.Finish | crates/context-parsers/src/enrich.rs:303-349 | Resolution and the humility pass give every `requires` socket the specified outcome and touch nothing else. |
| Stitch.Freeze | crates/context-cli/src/commands/scan_layered.rs:271-277 | Freezing sorts every name's candidates by path and parse index, for all names at once. |
| Stitch.FixIsGlobal | crates/context-cli/src/commands/scan_layered.rs:286-302 | A recorded fix is always the global outcome of its own socket. |
| Stitch.UnfixedIsGlobal | crates/context-cli/src/commands/scan_layered.rs:286-302 | A `requires` socket that is not patched already had its global outcome. |
| Stitch.StitchSockets | crates/context-cli/src/commands/scan_layered.rs:267-375 | Harvest, freeze, resolve and patch together give every socket its global outcome, though only differing sockets of affected Planets are rewritten. |
| LayeredSockets.CandidatesAreWhole | crates/context-cli/src/commands/scan_layered.rs:181-188 | For every partition into directories, sorting the harvested providers reproduces the whole-snapshot candidate list, order included. |
| LayeredSockets.WholeInPathOrder | crates/context-cli/src/commands/scan_layered.rs:181-188 | The assembled whole snapshot offers its providers in path order, which is why sorting reproduces it. |
| LayeredSockets.DirectoryKeeps | crates/context-cli/src/commands/scan_layered.rs:133-152 | A directory assembled alone holds exactly the slots the whole assembly keeps for its files, in the same order. |
| LayeredSockets.GlobalIsWhole | crates/context-cli/src/commands/scan_layered.rs:279-302 | The stitched outcome of any socket, starting from any local one, is the outcome the whole-snapshot pass settles. |
| LayeredSockets.LayeredIsWhole | crates/context-cli/src/commands/scan_layered.rs:189-217 | Directory by directory, the stitched sockets are exactly the whole-snapshot pass's sockets, resolutions and candidate order included. |
| Identity.FindSame | crates/context-core/src/identity.rs:98-112 | Finds the first free prior declaration with the same name and kind. |
| Identity.FindAlike | crates/context-core/src/identity.rs:117-124 | Collects exactly the free prior declarations of the same kind and fingerprint, in order. |
| Identity.MatchFile | crates/context-core/src/identity.rs:94-136 | Both phases over one file compute the specified match and add its counts. |
| Identity.MatchIsSound | crates/context-core/src/identity.rs:94-136 | A match uses each prior id at most once and only ids of that file. |
| Identity.NoIdCarriedTwice | crates/context-core/src/identity.rs:86-137 | Over the whole snapshot no two declarations receive one prior id. |
| Identity.MatchIsCounted | crates/context-core/src/identity.rs:86-137 | The counts of preserved and renamed declarations add up to the ids carried. |
| Ambiguities.SecondPhaseLaw | crates/context-core/src/identity.rs:116-136 | The exact course of the rename phase: a declaration's single candidate is gone once a declaration of the same structure has come by, and several candidates are never used up. |
| Ambiguities.AmbiguousIsUndecided | crates/context-core/src/identity.rs:134-134 | A file's ambiguous count is the number of its left-over declarations that several free prior ones could equally be. |
| MatchLaws.FirstPhaseTakesTurns | crates/context-core/src/identity.rs:97-114 | The first phase gives prior declarations of one name and kind away in order, the i-th to the i-th. |
| MatchLaws.HeirIsMatch | crates/context-core/src/identity.rs:94-136 | The whole match told from the two versions alone: a declaration ends with the id of the prior one at its turn, or, if left over, of the only free prior one of its structure when no left-over one before it has that structure, and otherwise with its own. |
| MatchLaws.UndecidedIff | crates/context-core/src/identity.rs:134-134 | Ambiguous are exactly the left-over declarations of whose structure several prior ones are free. |
| IdentityLaws.MoveKeepsId | crates/context-core/src/identity.rs:9-9 | The i-th declaration of a name and kind keeps the id of the i-th prior one, wherever its line went and however often the name is repeated. |
| IdentityLaws.RenameKeepsId | crates/context-core/src/identity.rs:10-11 | A left-over declaration takes the id of a free prior one of its structure if and only if that is the only such prior one and no left-over one of the structure comes before it. |
| IdentityLaws.UnambiguousRenameKeepsId | crates/context-core/src/identity.rs:10-11 | In the documentation's words: an old name gone, a new one alike; the id is kept exactly when no other free prior one and no earlier left-over one has that structure. |
| IdentityLaws.AmbiguityNeverMerges | crates/context-core/src/identity.rs:12-14 | Several free prior declarations of one structure are never given away, however many new ones resemble them and whatever names the file repeats. |
| IdentityLaws.FirstLookalikeTakesTheId | crates/context-core/src/identity.rs:12-14 | The silent merge: of several new declarations that the one gone could have become, the first takes its id and the rest get none, and none is counted ambiguous. |
| Rescan.GroupByFile | crates/context-core/src/identity.rs:71-84 | Grouping gives every file exactly its declarations in order. |
| Rescan.Reconcile | crates/context-core/src/identity.rs:67-137 | In whatever order the files come, each declaration is carried as its own file's match says, preserved plus renamed is the number of carried ids, and ambiguous the number of declarations several prior ones could be. |
| Rescan.ApplyRemap | crates/context-core/src/identity.rs:166-193 | In place, every id, parent link, socket owner and edge endpoint is rewritten and nothing else. |
| IdentityClashes.DistinctIffNoClash | crates/context-core/src/identity.rs:97-136 | The exact condition for final ids to be distinct, told from the two snapshots: no declaration inherits an id that some entity bearing it keeps. |
| IdentityClashes.OneInheritor | crates/context-core/src/identity.rs:97-136 | Two declarations never inherit from one prior, so that clash is the only way to share an id. |
| IdentityClashes.KindChangeCollides | crates/context-parsers/src/enrich.rs:380-382 | A second concrete collision: a function becomes a type of the same name on the same line, and a new function of its structure is given its id by rename. |
| Rescan.NewNamesakeAboveCollides | crates/context-core/src/identity.rs:97-113 | The concrete collision: a namesake added above a declaration takes its id, and two entities end up with it. |
| Rescan.RelabellingIsIsomorphism | crates/context-core/src/identity.rs:166-193 | Without a collision the relabelled snapshot is isomorphic: parents, edge endpoints and socket owners all follow. |
| Rescan.MatchIgnoresOrder | crates/context-cli/src/commands/scan_layered.rs:154-161 | A file's match depends on the order of prior declarations only among those that agree in name and kind. |
| Rescan.StoreOrdersCompatible | crates/context-store/src/repository.rs:558-558 | Rows loaded by name and id and rows loaded by id alone agree on that order. |
| Rescan.DirectoryCarriesTheSame | crates/context-cli/src/commands/scan_layered.rs:154-176 | Reconciling a directory against its prior subtree carries the same ids as the whole-snapshot pass. |
| ModuleMaps.FromEdges | crates/context-core/src/atlas/module_map.rs:11-29 | Both indexes hold exactly the edges at each end, sorted by id. |
| ModuleMaps.FiltersAreExact | crates/context-core/src/atlas/module_map.rs:30-47 | The filters return exactly the visible edges out of, and into, an entity. |
| Neighbourhoods.WithinIsByWalks | crates/context-core/src/orbit/compiler.rs:218-260 | The reference notion: being within distance d is having an undirected walk of at most d edges from a start. |
| Neighbourhoods.WithDepth | crates/context-core/src/orbit/compiler.rs:218-260 | The search returns exactly the entities within `depth`, each with its true shortest distance, and, once each and in id order, exactly the visible edges with an end nearer than `depth`. |
| Neighbourhoods.Neighbourhood | crates/context-core/src/atlas/module_map.rs:48-82 | The search without distances returns the same entities and the same edges. |
| Neighbourhoods.NearEdgesAreUnique | crates/context-core/src/orbit/compiler.rs:218-260 | With unique edge ids those conditions leave one edge list, so the two searches agree. |
| Budgets.FirstLeast | crates/context-core/src/orbit/budget.rs:91-98 | The chosen victim passes the filter, is least among those that do, and is the first such. |
| Budgets.Packet.SettleEstimates | crates/context-core/src/orbit/budget.rs:51-68 | Every estimate and the total are recomputed from the contents, the fixed overhead included. |
| Budgets.Packet.TrimOne | crates/context-core/src/orbit/budget.rs:90-148 | One round removes the specified item, counts it and detaches relationships, or reports that nothing can be removed. |
| Budgets.Packet.EnforceBudget | crates/context-core/src/orbit/budget.rs:79-154 | Sorting, settling and trimming end in the specified contents, with the reported minimum equal to the total. |
| BudgetLaws.EndsWithinBudget | crates/context-core/src/orbit/budget.rs:89-150 | The result is within budget, or is a single mandatory entity or nothing, with no spine. |
| BudgetLaws.LastTrimWasNeeded | crates/context-core/src/orbit/budget.rs:89-150 | The state before the last trim was over budget. |
| BudgetLaws.NothingIsLost | crates/context-core/src/orbit/budget.rs:99-133 | In every category, items kept plus omissions counted equals items given. |
| BudgetLaws.RemovedAndKept | crates/context-core/src/orbit/budget.rs:99-129 | As multisets, what was given is what is kept and what was removed. |
| BudgetLaws.LeastRelevantGoFirst | crates/context-core/src/orbit/budget.rs:90-129 | Every kept optional entity outranks every dropped one by score and id, the spine goes coarsest first, and a mandatory entity goes only once no optional entity and no spine remain. |
| BudgetLaws.RelationshipsKeepBothEnds | crates/context-core/src/orbit/budget.rs:139-148 | After any trim the relationships are exactly the given ones with both endpoints retained. |
| BudgetLaws.StaysSettled | crates/context-core/src/orbit/budget.rs:80-150 | Trimming keeps the total equal to the sum of the parts and the selection in priority order. |
| BudgetLaws.StartsSettled | crates/context-core/src/orbit/budget.rs:80-87 | Sorting and settling start there, and lose nothing. |
| BudgetLaws.MandatoryKeepsOne | crates/context-core/src/orbit/budget.rs:119-137 | A packet given a mandatory entity never ends without one. |
| BudgetLaws.StageKeepsSpine | crates/context-core/src/orbit/budget.rs:90-117 | While optional entities last each trim takes one of them and the spine stays whole. |
| BudgetLaws.OptionalOnlyCanBeEmptied | crates/context-core/src/orbit/budget.rs:90-104 | A packet without a mandatory entity is emptied exactly when it is over budget at every stage that still holds one of its entities, the whole spine counted in. |
| BudgetLaws.SelectionStaysIff | crates/context-core/src/orbit/budget.rs:75-78 | When the promise to keep at least one entity holds, for every packet: exactly when one is mandatory or the packet fits after fewer trims than it has entities. |
| BudgetLaws.LoneEntityStaysIffMandatoryOrFits | crates/context-core/src/orbit/budget.rs:119-137 | For a single entity, beside any spine: it stays exactly when it is mandatory or all fits at once. |
| Hilbert.D2xy | crates/context-store/src/texture/hilbert.rs:6-26 | The low-to-high loop on 32-bit words never underflows or overflows and computes the recursive curve, for every power of two and every index. |
| Hilbert.CurveInGrid | crates/context-store/src/texture/hilbert.rs:6-26 | Every index lands in the grid. |
| Hilbert.DistanceOfCurve | crates/context-store/src/texture/hilbert.rs:6-26 | The independent distance function takes every cell back to its index, so no cell is visited twice. |
| Hilbert.CurveOfDistance | crates/context-store/src/texture/hilbert.rs:6-26 | Every cell of the grid is visited, at its distance. |
| Hilbert.CurveEnds | crates/context-store/src/texture/hilbert.rs:6-26 | The curve starts at (0, 0) and ends at (side - 1, 0). |
| Hilbert.CurveIsContinuous | crates/context-store/src/texture/hilbert.rs:6-26 | Consecutive indices always land on cells at Manhattan distance 1. |
| Texture.SquareSide | crates/context-store/src/texture/mod.rs:120-130 | The side is the smallest power of two whose square holds all codes. |
| Texture.RenderSquare | crates/context-store/src/texture/mod.rs:133-142 | Painting stays in bounds and leaves, in every cell, the last code whose index lands there, and transparency elsewhere. |
| Texture.EachCodeHasItsCell | crates/context-store/src/texture/mod.rs:133-142 | Up to 2^32 codes, each code sits at its Hilbert cell, unharmed by the others, and every other cell is transparent. |
| Texture.LegibleIff | crates/context-store/src/texture/mod.rs:133-142 | The exact condition for that: at most 2^32 codes, beyond which the index cast wraps round. |
| Texture.PictureDeterminesCodes | crates/context-store/src/texture/mod.rs:133-142 | Two code lists of one length with one picture are equal. |
| TextureOrder.SortRows | crates/context-store/src/texture/mod.rs:113-116 | Ordering the rows by scale and id text orders them as the IDX orders its entities. |
| TextureOrder.PixelsFollowRecords | crates/context-store/src/texture/mod.rs:113-116 | Pixel d shows the code of the entity that is the d-th entity record of the IDX, whatever other records the file holds. |
| Png.AdlerStep | crates/context-store/src/texture/png.rs:17-26 | The running pair of sums stays equal to the closed-form sums modulo 65521 (section 2.2 of RFC 1950). |
| Png.Adler32 | crates/context-store/src/texture/png.rs:17-26 | The loop computes the checksum of the closed form in 32-bit words, without overflow. |
| Png.Crc32 | crates/context-store/src/texture/png.rs:5-15 | The bitwise loop computes the specified fold. |
| Png.ZlibStored | crates/context-store/src/texture/png.rs:28-48 | The block loop writes the specified stream of stored blocks. |
| Png.WriteChunk | crates/context-store/src/texture/png.rs:50-60 | Length, kind, data and checksum are appended in that order. |
| Png.EncodeRgbaPng | crates/context-store/src/texture/png.rs:62-78 | Signature, header, filtered rows and end marker make up the specified file. |
| PngReader.InflateBlocks | crates/context-store/src/texture/png.rs:28-48 | A reader of stored blocks (section 3.2.4 of RFC 1951) gets any byte string back, however many blocks it took, and stops after the last. |
| PngReader.UnzipZlib | crates/context-store/src/texture/png.rs:28-48 | The zlib stream reads back, header and checksum verified. |
| PngReader.ReadWritten | crates/context-store/src/texture/png.rs:50-60 | A chunk reader (section 3.2 of RFC 2083) gets kind and data back and checks the CRC, for data below 2^32 bytes. |
| PngReader.LengthIsHonestIff | crates/context-store/src/texture/png.rs:50-60 | The exact condition for the length field: data below 2^32 bytes. |
| PngReader.UnfilterScanlines | crates/context-store/src/texture/png.rs:70-75 | Removing the filter bytes gives the pixels back row by row. |
| PngReader.ImageDataSize | crates/context-store/src/texture/png.rs:62-78 | The size of the image data in closed form, for callers who want to know that condition beforehand. |
| PngReader.ReadGetsImageBack | crates/context-store/src/texture/png.rs:62-78 | For every image whose data fits a chunk, a reader recovers width, height and every pixel. |
| IdxText.JsonRoundTrip | crates/context-store/src/idx/escape.rs:6-16 | The JSON spelling (section 7 of RFC 8259) of any string reads back as that string. |
| IdxText.Tokenize | crates/context-store/src/idx/decode.rs:58-118 | The quoting state machine computes the specified fold: tag and pairs, or the first error. |
| IdxLines.FieldIsLegible | crates/context-store/src/idx/escape.rs:6-16 | Whatever the value, its rendered field passes the tokenizer whole and reads back as the value. |
| IdxLines.LineRoundTrip | crates/context-store/src/idx/decode.rs:58-118 | Any tag with any list of legible pairs reads back as the same tag and pairs. |
| IdxRecords.FieldIsSolid | crates/context-store/src/idx/escape.rs:6-16 | No rendered field holds a raw newline or starts or ends with white space. |
| IdxRecords.GetIsFirst | crates/context-store/src/idx/decode.rs:120-133 | Lookup is the first pair of that key, and fails exactly when there is none. |
| IdxRecords.GetSlot | crates/context-store/src/idx/decode.rs:120-133 | From a line of distinct keys every present slot is read back and every absent one is missing. |
| IdxRecords.WrittenLine | crates/context-store/src/idx/decode.rs:58-118 | A record's line tokenizes to its tag and pairs and is a single trimmed line. |
| IdxAtoms.UuidRoundTrip | crates/context-store/src/idx/decode.rs:160-167 | The hyphenated spelling of an id reads back as that id. |
| IdxAtoms.IdArrayRoundTrip | crates/context-store/src/idx/decode.rs:200-206 | A JSON array of ids reads back as the same list. |
| IdxEntries.EntityRoundTrip | crates/context-store/src/idx/encode.rs:59-80 | An entity line reads back as the entity's id, scale, kind, parent, path, name and fingerprint, absent optional fields included. |
| IdxEntries.EdgeRoundTrip | crates/context-store/src/idx/encode.rs:82-103 | An edge line reads back as every edge field but its evidence. |
| IdxEntries.GreenRoundTrip | crates/context-store/src/idx/encode.rs:49-57 | A Green line reads back as the overall and six axis codes. |
| IdxEntries.SocketRoundTrip | crates/context-store/src/idx/encode.rs:139-153 | A socket line reads back as the socket, still unresolved. |
| IdxEntries.FitRoundTrip | crates/context-store/src/idx/encode.rs:155-172 | A fit line reads back as the socket id and the whole fit. |
| IdxEntries.HoleRoundTrip | crates/context-store/src/idx/encode.rs:174-184 | A hole line reads back as the socket id, reason, candidates and adapter flag. |
| IdxEvidence.EvidenceRoundTrip | crates/context-store/src/idx/encode.rs:105-128 | An evidence line reads back as its target and all of the evidence but the fingerprint. |
| IdxEvidence.AscendingIsUnique | crates/context-store/src/idx/encode.rs:618-638 | Evidence listed by ascending stable id, each once, is determined by which evidence it is. |
| IdxEvidence.AboutListing | crates/context-store/src/idx/encode.rs:618-638 | One target's part of the file-wide listing, which keeps the last of each stable id, is the listing of its own evidence. |
| IdxOthers.SummarySlotsMade | crates/context-store/src/idx/encode.rs:519-526 | A summary line, whatever its text, passes the record reader. |
| IdxOthers.ClauseSlotsMade | crates/context-store/src/idx/encode.rs:584-600 | So does a project goal written as a constraint, whose synthesised id the reader takes for no stable id. |
| IdxFile.FileRoundTrip | crates/context-store/src/idx/decode.rs:489-513 | Joining lines with newlines and splitting, normalising, trimming and skipping blanks gives the same lines. |
| IdxFile.SplitFirstToken | crates/context-store/src/idx/decode.rs:30-56 | The scan ends the first token at the first unquoted blank, or reports an open quote. |
| IdxFile.FirstTokenIsField | crates/context-store/src/idx/decode.rs:523-536 | A rendered field, whatever blanks and quotes it holds, is exactly the first token before the next blank. |
| IdxWriter.ByIdTextOrders | crates/context-store/src/idx/encode.rs:481-483 | Comparing ids by their spelling is a total order that ties only on equal ids, so canonical order is unique. |
| IdxWriter.EncodeAtlasIdx | crates/context-store/src/idx/encode.rs:456-778 | Sorting, keying the evidence by stable id and appending to the buffer produce the specified lines of every block in the specified order. |
| IdxWriter.AppendEvidence | crates/context-store/src/idx/encode.rs:618-638 | Filling the map and writing its values by ascending key gives the last exhibit of each stable id once, in order. |
| IdxReader.AttachGreen | crates/context-store/src/idx/decode.rs:602-607 | In any order of the hash map, each assessment lands on the last entity of its id. |
| IdxReader.AttachEvidence | crates/context-store/src/idx/decode.rs:609-615 | In any order of the hash map, each entity receives the evidence read for its id. |
| IdxReader.AttachResolutions | crates/context-store/src/idx/decode.rs:622-632 | In any order of the hash map, each fit or hole lands on its own socket. |
| IdxReader.AttachSockets | crates/context-store/src/idx/decode.rs:634-639 | Each entity receives its own sockets in file order; ownerless ones are dropped. |
| IdxReader.DecodeAtlasIdx | crates/context-store/src/idx/decode.rs:489-677 | The line loop, with the field checks of every record kind, and the attach passes compute the specified snapshot or the first error. |
| IdxRoundTrip.AbsorbEverything | crates/context-store/src/idx/decode.rs:509-600 | Reading every line the encoder writes, accepted records of other kinds between the blocks included, collects exactly what the snapshot holds. |
| IdxRoundTrip.ResolutionsRestored | crates/context-store/src/idx/decode.rs:622-632 | Fits and holes put back on bare sockets give the exact resolutions, Unresolved included. |
| IdxRoundTrip.EvidenceRestored | crates/context-store/src/idx/decode.rs:576-584 | The evidence read for an entity is its own, by stable id, the last of each, without fingerprints. |
| IdxRoundTrip.OwnedSorted | crates/context-store/src/idx/decode.rs:634-639 | Taking one owner's sockets out of the global order gives that owner's sockets in canonical order. |
| IdxRoundTrip.EntityRestored | crates/context-store/src/idx/decode.rs:602-648 | Every entity comes back with its fields, evidence, codes, sockets and resolutions. |
| IdxRoundTrip.DecodeEncode | crates/context-store/src/idx/decode.rs:489-677 | For every snapshot with distinct ids and rightly owned sockets, and any accepted records beside it, decoding its encoding gives the canonically ordered snapshot on the modelled fields. |
| IdxRoundTrip.ScannedFileReadsBack | crates/context-store/src/idx/encode.rs:456-778 | In particular the whole file of a scanned snapshot reads back, with the summaries, goals and uncertainties its entities give rise to. |
| UseExpander.SplitRejoins | crates/context-parsers/src/adapter.rs:326-343 | The parts of any text, joined with commas again, are that text. |
| UseExpander.SplitTopLevel | crates/context-parsers/src/adapter.rs:326-343 | The depth-counting loop cuts at exactly the top-level commas. |
| UseExpander.ExpandUse | crates/context-parsers/src/adapter.rs:293-324 | The recursion with its output list computes the specified expansion and terminates on every text. |
| UseTrees.SplitCommas | crates/context-parsers/src/adapter.rs:326-343 | Parts with balanced braces, joined with commas, split into exactly those parts. |
| UseTrees.ExpandTree | crates/context-parsers/src/adapter.rs:293-324 | Under any prefix, expanding a printed use tree of any depth gives its leaves from left to right. |
| UseTrees.ExpandItems | crates/context-parsers/src/adapter.rs:293-324 | The same for a printed group, with or without a trailing comma. |
| UseTrees.ExpandPrinted | crates/context-parsers/src/adapter.rs:289-324 | A printed tree expands to exactly its fully qualified leaf paths rooted at crate, self or super; globs and keyword leaves are dropped. |
| Coordinators.Coordinator.Settle | crates/context-runtime/src/coordinator.rs:85-102 | Exactly the unapplied events stay, a run is called for when any is left, and a full scan exactly when any event of the burst demanded one. |
| Coordinators.Coordinator.Enqueue | crates/context-runtime/src/coordinator.rs:47-49 | The event joins the end of the queue. |
| Coordinators.Coordinator.MarkApplied | crates/context-runtime/src/coordinator.rs:53-55 | The id joins the applied set. |
| Coordinators.Coordinator.ClearPending | crates/context-runtime/src/coordinator.rs:65-67 | The queue is emptied, nothing else. |
| Services.StepIsSound | crates/context-runtime/src/service.rs:180-210 | Each step, crashes included, keeps every marker preceded by its event's journal entry and a commit in between. |
| Services.StepIsLossless | crates/context-runtime/src/service.rs:180-210 | Each step keeps every event observed since the last start journalled and either applied or still queued. |
| Services.EveryRunIsSound | crates/context-runtime/src/service.rs:173-210 | Both hold after every run, with crashes between any two writes and any failed reconciles. |
| Services.AppliedWereJournalled | crates/context-store/src/jsonl.rs:176-204 | In every run applied ids are journalled ids, and `pending` is exactly journalled minus applied. |
| Services.LeftBehindStaysPending | crates/context-runtime/src/service.rs:111-129 | An event journalled but unmarked at a crash is never queued or marked again unless it is observed anew, whatever reconciles succeed: it stays pending for ever. |
| Services.RefreshCoversJournal | crates/context-runtime/src/service.rs:136-144 | The reconcile every start begins with, when it succeeds, commits after all that was journalled, so the change itself is not lost. |
| Services.WatchedRoot.Open | crates/context-runtime/src/service.rs:111-129 | Opening resumes with the markers as applied ids and an empty queue. |
| Services.WatchedRoot.FirstReconcile | crates/context-runtime/src/service.rs:136-144 | The first reconcile of a start is a step of the machine: it commits or fails, and leaves journal, markers and queue as they are. |
| Services.WatchedRoot.Collect | crates/context-runtime/src/service.rs:181-186 | Draining the watcher journals and queues every event in order. |
| Services.WatchedRoot.MarkAll | crates/context-runtime/src/service.rs:199-208 | Every queued event is marked in the file and in memory. |
| Services.WatchedRoot.Turn | crates/context-runtime/src/service.rs:181-209 | One turn of the loop is a run of the step machine; a failed reconcile leaves every unapplied event queued, a good one marks and clears them all, so that every event observed in it, anew or not, has its marker. |
| Journals.ReadAllWithFindings | crates/context-store/src/jsonl.rs:118-168 | The line loop computes the specified reading: entries and findings, or the first corrupt line. |
| Journals.ReadWritten | crates/context-store/src/jsonl.rs:87-168 | A journal of whole appends reads back entry for entry, without findings. |
| Journals.ReadTorn | crates/context-store/src/jsonl.rs:116-168 | Wherever a crash cuts the last line, the earlier entries survive: the tail is an entry if only its newline is missing, a finding if it is text, and an unreadable file if a character was cut. |
| Journals.ReadableAgainIff | crates/context-store/src/jsonl.rs:97-109 | After a cut, further appends leave the journal readable if and only if the cut fell on a line boundary. |
| Journals.ReadTornMarker | crates/context-store/src/jsonl.rs:180-193 | A torn marker counts exactly when the whole id was written. |
| Journals.NextMarkerCountsIff | crates/context-store/src/jsonl.rs:176-193 | A marker appended after a cut counts if and only if the cut fell on a line boundary. |
| ParseCaches.ParseCache.Get | crates/context-parsers/src/incremental.rs:60-69 | A hit returns the held parse, a miss nothing, and exactly one counter moves. |
| ParseCaches.ParseCache.Insert | crates/context-parsers/src/incremental.rs:71-73 | The entry is set and no other is touched. |
| ParseCaches.ParseCache.RetainFingerprints | crates/context-parsers/src/incremental.rs:78-82 | Exactly the live entries stay. |
| ParseCaches.ParseCache.ParseCached | crates/context-parsers/src/enrich.rs:146-163 | Serving one file returns and caches what the specification says; files without grammar or fingerprint never touch the cache. |
| ParseCaches.ParseCache.Pass | crates/context-parsers/src/enrich.rs:41-68 | One pass evicts dead entries and then serves the files in order. |
| ParseCaches.PassIsFresh | crates/context-parsers/src/enrich.rs:36-40 | With a truthful cache a pass returns what fresh parsing returns, stays truthful, and ends holding live fingerprints only. |
| ParseCaches.EveryPassIsFresh | crates/context-parsers/src/enrich.rs:36-40 | So does every pass of any sequence of edits and indexes sharing one cache. |
| ParseCaches.EvictionChangesNothing | crates/context-parsers/src/incremental.rs:74-82 | Dropping any entries never changes a result. |
| ParseCaches.CachedIsFreshIff | crates/context-parsers/src/enrich.rs:41-68 | The exact condition over every tree and every starting cache: a cached pass is fresh if and only if what is held agrees with the files claiming it and files of one fingerprint parse alike. |
| ParseCaches.TwinsAgreeIff | crates/context-parsers/src/enrich.rs:146-163 | From an empty cache, for every tree: the pass is fresh if and only if no file parses unlike an earlier one of its fingerprint. |
| Stores.InsertAll | crates/context-store/src/repository.rs:58-69 | Plain inserts succeed exactly when no key repeats, and then hold every row. |
| Stores.Repository.ReplaceSnapshot | crates/context-store/src/repository.rs:54-74 | All or nothing: on a repeated id the store is untouched, otherwise it holds exactly the new rows, the new current snapshot and its first entity as root. |
| Stores.Repository.UpsertSubtree | crates/context-store/src/repository.rs:82-103 | Rows of the subtree are replaced by id and all others stay. |
| Stores.Repository.FinalizeSnapshot | crates/context-store/src/repository.rs:110-134 | Exactly the rows stamped with the snapshot stay, and it becomes current. |
| Stores.KeysAfterFinalize | crates/context-store/src/repository.rs:105-109 | After filling and finalizing, the keys are those written plus those that already bore the stamp. |
| Stores.ExactIffNoStaleStamp | crates/context-store/src/repository.rs:105-109 | The exact condition for the store to end holding just the new snapshot: no stale row already bears its id. |
| Stores.FillingIsReplacing | crates/context-store/src/repository.rs:76-109 | Then filling in any order with any repeats and finalizing leaves the same table as one replacement. |
| Slices.SamePlanetIff | crates/context-core/src/scan.rs:769-787 | Files share a Planet key exactly when they share a directory, top-level files counting for one named `root`. |
| Slices.PlanetKeyKnowsItsSystem | crates/context-cli/src/commands/scan_layered.rs:451-455 | The text before a Planet key's first slash is the System its files were put under. |
| ScanIndex.EdgeIdsExist | crates/context-core/src/scan.rs:890-898 | That edge ids tell the index's edges apart is a hypothesis that can be met: any index of short ids has such a hash. |
| ImportEdges.OwnerIsSole | crates/context-core/src/scan.rs:991-1016 | The owner list of a stem names one id exactly when one file alone of the language family claims the stem. |
| ImportEdges.ScanImports | crates/context-core/src/scan.rs:991-1058 | The import edges, once each and by ascending id, are exactly those from a file to another file that alone bears a token's stem in its family: ambiguous stems and self-imports give none. |
| ImportEdges.ListIsUnique | crates/context-core/src/scan.rs:1018-1057 | An index has only one such list. |
| SampleScans.SampleImports | crates/context-core/src/scan.rs:1168-1178 | On a two-file project a unique stem of the same language resolves, and that is the only import. |
| SampleScans.SampleIsScannable | crates/context-core/src/scan.rs:1168-1178 | That project meets every hypothesis the layered results make about an index, together. |
| Slices.BuildSnapshot | crates/context-core/src/scan.rs:390-475 | The loop with its created-set emits the roots and then, file by file in order, the groups no earlier file named and the file, with one containment edge a row and the import edges last; with distinct ids no row and no edge id repeats, so the replacement of the store succeeds. |
| Slices.RowsMembers | crates/context-core/src/scan.rs:400-405 | Those rows are exactly each file's System, Planet and Moon rows. |
| Slices.BuildDirectory | crates/context-core/src/scan.rs:498-574 | A slice is, row for row and edge for edge, what the whole loop would emit for its own files alone. |
| Slices.FilesOfMembers | crates/context-core/src/scan.rs:498-574 | Each file is in the slice of its own key and in no other. |
| Slices.SlicesAddUp | crates/context-core/src/scan.rs:492-497 | Any listing of the keys yields slices that together hold exactly the whole snapshot's rows below the roots, and exactly their containment edges. |
| Slices.OnlySystemsRepeat | crates/context-core/src/scan.rs:492-497 | Two slices share nothing but Systems. |
| SliceStores.PersistedIs | crates/context-cli/src/commands/scan_layered.rs:238-251 | What is persisted of a directory is all but the shared roots: the ids and the edges of its rows and symbols. |
| SliceStores.WriteLayered | crates/context-cli/src/commands/scan_layered.rs:96-440 | The store writes of the layered scan, in their order, leave the specified tables. |
| SliceStores.WholeEdgesInsertable | crates/context-store/src/repository.rs:54-74 | Scanned edges and edges to symbols together repeat no id. |
| SliceStores.LayeredStoreIsReplaced | crates/context-cli/src/commands/scan_layered.rs:96-440 | For both tables, symbols and repeated versions of one id included: the layered writes leave the ids that one replacement leaves, and, as the edges repeat no id, the very same edges, if and only if no other stale row bears the new snapshot id. |
| StoredScans.WholeReplaces | crates/context-store/src/repository.rs:54-74 | The replacement it is compared with succeeds: no entity and no edge id of the whole snapshot is met twice. |
| SliceStores.BareRowsAreReplaced | crates/context-cli/src/commands/scan_layered.rs:238-251 | Where no row is rewritten, the entity table too is the replaced one, row for row. |
| Subtrees.Select | crates/context-store/src/repository.rs:148-156 | A query yields each matching stamped row once, in order of id text, whatever order the table is stored in. |
| Subtrees.SelectionIsUnique | crates/context-store/src/repository.rs:148-156 | Those conditions leave one answer, so the load is deterministic. |
| Subtrees.LoadPlanetSubtree | crates/context-store/src/repository.rs:142-189 | The load is the Planet's files, then the symbols of each file in turn, and the edges out of the Planet and then of each file, every batch in id order. |
| Subtrees.LoadedEdgesAre | crates/context-store/src/repository.rs:165-186 | The loaded edges are exactly those stamped with the snapshot and sourced from the Planet or a loaded file, each once. |
| Subtrees.LoadIsDeterministic | crates/context-store/src/repository.rs:142-189 | Order and multiplicity included, the edges of a load have one answer. |
| Subtrees.LoadedIsBelow | crates/context-store/src/repository.rs:136-141 | In a tree of Planets, files and symbols, the loaded ids are exactly the Planet's descendants. |
| Subtrees.ReloadedIsParentFirst | crates/context-cli/src/commands/scan_layered.rs:318-334 | Rebuilt under the shared roots, a reloaded directory again lists files before symbols, so its second evaluation meets the order of the first. |
| Calendar.YearLength | crates/context-core/src/scan.rs:1096-1109 | The reference day count gives leap years (the rule of Appendix C of RFC 3339) 366 days and others 365. |
| Calendar.NextDayCount | crates/context-core/src/scan.rs:1096-1109 | The reference day count of a calendar successor is one more. |
| Calendar.DaysFromCivilInjective | crates/context-core/src/scan.rs:1096-1109 | No two valid dates share a day number. |
| Calendar.CivilIsExact | crates/context-core/src/scan.rs:1096-1109 | For every integer, negative ones included, the truncating arithmetic yields a valid date that counts back to that day number. |
| Calendar.CivilReachesEveryDate | crates/context-core/src/scan.rs:1096-1109 | Every valid date is reached from its day number. |
| Calendar.CivilAdvancesByOneDay | crates/context-core/src/scan.rs:1096-1109 | Day n + 1 is always the calendar successor of day n, and day 0 is 1 January 1970. |

## Left out

- SQLite, the file system, watchers, sleeping, the daemon, native metadata, model bridges and the command line: inputs, outputs and clocks are parameters or absent; an append that fails is the crash step.
- Tree-sitter and blake3: a parse is an uninterpreted function of content and grammar, an id a number.
- Hierarchy.Lowered: lowers ASCII letters only; Unicode case folding is not modelled.
- Evaluator.EvaluateEntity: reasons are a datatype in place of formatted sentences.
- Calendar.CivilIsExact: over unbounded integers; the overflow of 64-bit day numbers near the ends of their range is not modelled.
- Identity and Rescan: inferred summaries carried over with an identity are not part of the entity; cross-file moves are new declarations, as in the source.
- File-level identity records (`reconcile_id`): two new files of equal content can claim one vanished record, so ids of files are given and distinct.
- LayeredRollUp.LayeredGreenIsWhole: Systems agree on the overall code only, since the scan patches nothing else of theirs; the axes of a System are those of its first directory.
- ComposedScans.ComposedScanIsWhole: each file's parse is given; declarations provide and never require, as the parser makes them; that the store hands both scans the same prior declarations of a file, in its two orders, is a hypothesis (`CarriedScans.SamePriors`).
- SliceStores.LayeredStoreIsReplaced: of the entity table the ids; the values are the last versions written, whose Green `LayeredScans` treats.
- ImportEdges.ScanImports: the tokens of a file's import lines, its language family and its lower-cased stem are given; the scan of the text and the tables of extensions and stop words are not modelled.
- Slices.BuildSnapshot: the moment of the scan, summaries, purpose and truncation notes of the rows are left out, as is merging recorded evidence.
- Subtrees.LoadPlanetSubtree: yields the ids of the rows; turning a stored row into a record is not modelled.
- Budgets.Packet.EnforceBudget: token estimates are parameters; the error of a failed serialisation is not modelled.
- Orbit compilation around the search (starting points, scoring, denials, omissions): near-definitional.
- Texture.RenderSquare: for at most 2^60 codes, the bound of the 32-bit side and of any buffer that could be allocated.
- Png.Crc32: the checksum is a function with no algebra proved about it.
- Circle packing and the galaxy and spiral pictures: floating-point geometry.
- IdxWriter.EncodeAtlasIdx: Galaxy scope only, so no `@child` lines; purposes, context records, inferred summaries, conflicts and sources are given as lines, in their places (`IdxWriter.Others`), and the legend is a parameter. Inherited evidence, which nothing in the repository produces, is left out.
- IdxReader.DecodeAtlasIdx: context records, sources and conflicts are checked field by field and kept as lines, not as records.
- IdxRoundTrip.DecodeEncode: evidence comes back without its fingerprint and message, and none comes back to edges, because the decoder reads every evidence target as an entity id first.
- IdxAtoms.UuidRoundTrip: the reader accepts the hyphenated spelling only; the library's other spellings never occur in what the encoder writes.
- UseTrees.ExpandPrinted: printing uses one gap string throughout and a single ` as `.
- UseExpander.ExpandUse: line numbers are not carried; a slice that the source would panic on is `None`.
- ParseCaches.ParseCache.Pass: the parallel batches of the one-shot scan are not modelled; they use no cache.
- Services.WatchedRoot.Turn: one root; the semantic lane and the shutdown flag are left out.
- Precedence of denials, routing, calibration, admission, comparison and PURPOSE parsing: one-branch claims.
