# Latent Vault, modelled in Dafny

This project models the **Vault** of Latent-V12: a local store of generated-image
records (`VaultItem`) and the rules that read and write it.

- **The record store** (`dbService.ts`) is a class over a map keyed by record id.
  Its methods are `saveNode` (put, filling the defaults), `toggleFavoriteNode`,
  `incrementNodeUsage`, `getAllNodes`, `deleteNode` and `bulkSaveNodes` (put, with
  no defaults).
- **The vault panel** (`components/Vault.tsx`) covers three things:
  - the domain filter and the favourites-first, score-descending view;
  - the import gate, which merges only an array;
  - the export document and the favourite action.
- **The workspace** (`components/Workspace.tsx`) covers:
  - the four domain slots and their resolution against the vault;
  - the record a commit builds;
  - the guards of commit and process.
- **The cinema lab** (`components/CinemaLab.tsx`) covers the record a saved take
  builds and the guard around that save.
- **The grading lab** (`components/GradingLab.tsx`) covers the slider and preset
  updates, the grading loaded on selection, and the commit that writes a grading
  back onto its record.
- **The pure helpers of `geminiService.ts`** are:
  - the data-URI payload split;
  - the per-domain favourite-first curator;
  - the last-inline-part image extraction loop;
  - the vault summary projection;
  - the defaults of a compiled grading.

The shapes of `types.ts` are datatypes in `types.dfy`, with the fields the core never reads
dropped (see "## Left out"):
- `VaultDomain` has exactly the four cases `X`, `Y`, `Z` and `L`.
- `StatusKind` has the four agent states.
- `ActiveSlots` holds one nullable reference per domain.
- `VaultItem`'s `vaultDomain`, `usageCount`, `neuralPreferenceScore` and
  `isFavorite` are not optional; `dna` and `grading` are `Option`s.
- `NodeDraft` is a record handed to `saveNode` in which those four fields may be
  missing.
- JavaScript strings are `seq<char>`; `null`/`undefined` is `None`.

JavaScript's `split`, `slice`, `join`, `trim` and the decimal rendering inside a
template literal are modelled in `text.dfy`. `find` and `filter` are in `seqs.dfy`.

Files: `types.dfy`, `text.dfy`, `seqs.dfy`, `db_service.dfy`, `vault_panel.dfy`,
`workspace.dfy`, `gemini_service.dfy`, `grading_lab.dfy`, `cinema_lab.dfy`.

Behaviour of the code worth knowing when reading the model:
- A parsed import value that is not an array is ignored: nothing is written, the
  list is not refreshed and no message is shown.
- `getBase64` returns the second comma-separated piece of a data URI (the first
  piece if there is no comma).
- The favourite boost is one-way: un-favouriting keeps the score.

## Model

| member | source | states |
|---|---|---|
| Text.Split | components/Workspace.tsx:111 | `split` on a one-character separator yields at least one piece, and no piece contains the separator |
| Text.Join | components/Workspace.tsx:111 | `join` of no pieces is ""; the first piece is a prefix of the result, and with two or more pieces the separator follows it |
| Text.JoinSplit | components/Workspace.tsx:111 | joining the pieces of a split with the same separator gives back the original string |
| Text.SplitNoSeparator | geminiService.ts:28 | a string without the separator splits into itself alone |
| Text.SplitAtFirst | geminiService.ts:28 | a string split at its first separator gives the text before it, followed by the pieces of the rest |
| Text.Take | components/Workspace.tsx:111 | `slice(0, n)` keeps the first `n` pieces, or all of them when there are fewer |
| Text.SplitTakeJoin | components/Workspace.tsx:111 | `split(sep).slice(0, n).join(glue)` is the prefix before the `n`-th separator, with the separators in it replaced by `glue` |
| Text.PromptName | components/Workspace.tsx:111 | the name built from the prompt holds no space |
| Text.TrimEmptyIffBlank | components/Workspace.tsx:84 | `trim()` is empty exactly when the string is ECMAScript white space only |
| Text.Trim | components/Workspace.tsx:84 | `trim()` leaves neither a leading nor a trailing ECMAScript white-space character and never lengthens the text |
| Text.Decimal | components/Workspace.tsx:110 | the decimal rendering of a non-negative integer is non-empty and all digits |
| Text.DecimalRoundTrip | components/Workspace.tsx:110 | the decimal rendering reads back as the same number |
| Text.FiveDigits | components/CinemaLab.tsx:42 | a number in 10000..99999 renders as five digits |
| Text.PromptNameMeaning | components/Workspace.tsx:111 | the record name is the prompt up to its third space, with spaces turned into `_`; it is empty exactly when the prompt is empty |
| Text.ShortIdNumber | components/CinemaLab.tsx:42 | `Math.floor(10000 + r * 90000)` for `0 <= r < 1` lies in 10000..99999 |
| Seqs.FindFirst | dbService.ts:68 | `find` yields the first index that matches; it yields nothing exactly when no element matches |
| Seqs.Find | components/Workspace.tsx:143 | the element `find` returns is in the list and matches; it is `undefined` exactly when nothing matches |
| Seqs.Filter | components/Vault.tsx:66 | `filter` never lengthens a list |
| Seqs.FilterMembers | components/Vault.tsx:66 | an element is in the filtered list exactly when it is in the list and satisfies the predicate |
| Seqs.FilterAppend | components/Vault.tsx:66 | filtering a concatenation filters each part |
| Seqs.FilterAll | components/Vault.tsx:66 | when every element satisfies the predicate, the filter keeps the list as it is (the ALL filter) |
| Seqs.FindCons | geminiService.ts:36 | `find` on a list with a head returns the head when it matches, otherwise searches the rest |
| Seqs.FindFilter | geminiService.ts:36-38 | removing elements that cannot match does not change what `find` returns |
| DbService.Normalize | dbService.ts:26-32 | `saveNode` fills usage 0, score 50, not favourite and domain X, only for missing fields; present values and every other field are kept |
| DbService.NormalizeKeepsComplete | dbService.ts:27-32 | a record with all four fields present is stored exactly as given |
| DbService.NormalizeIdempotent | dbService.ts:26-32 | filling defaults a second time changes nothing |
| DbService.Toggled | dbService.ts:48-50 | the toggle flips the favourite flag and changes nothing but the flag and the score |
| DbService.ToggleScore | dbService.ts:50 | toggling on gives min(100, score + 20): score + 20 up to a score of 80, and exactly 100 from a score of 80 up; toggling off keeps the score; with a score of at most 100 the toggle never lowers it |
| DbService.ToggleTwiceKeepsBoost | dbService.ts:48-50 | toggling on and then off leaves the flag as it was and the boosted score in place |
| DbService.Bumped | dbService.ts:70-71 | the increment adds one use, the score is at most 100, and no other field changes |
| DbService.UsageScore | dbService.ts:71 | the recomputed score is at most 100; with non-negative counters it is at least 0, and at least 20 for a favourite |
| DbService.BumpForgetsScore | dbService.ts:71 | the new score is recomputed from usage, rating and flag, whatever the old score was |
| DbService.BumpExample | dbService.ts:70-71 | a favourite with rating 5 and no uses scores 75 after its first use |
| DbService.TwoBumpsBothLand | dbService.ts:70-71 | two increments in a row both count, and the score follows the final count |
| DbService.ScoreStaysInRange | dbService.ts:50 | a record with a score in 0..100 and non-negative usage and rating keeps these after a toggle or an increment |
| DbService.ApplyOps | dbService.ts:48-71 | toggles and increments never change a record's id, shortId or rating |
| DbService.ScoreStaysInRangeForever | dbService.ts:48-71 | after any sequence of toggles and increments, a record that started with a score in 0..100 and non-negative counters still has them |
| DbService.IdsSnoc | dbService.ts:99 | appending a record to a batch adds its id to the batch's ids |
| DbService.LastWith | dbService.ts:99 | the last record of a batch with a given id is in the batch; there is none exactly when no record has that id |
| DbService.PutAllLastWins | dbService.ts:95-100 | after a bulk put an id holds the last record of the batch with that id, or else what it held before |
| DbService.PutAll | dbService.ts:95-100 | after a bulk put the stored ids are the old ones plus the batch's, and the last record of the batch is stored under its id |
| DbService.PutAllKeyed | dbService.ts:14 | after a bulk put every record is still stored under its own id |
| DbService.PutAllRedundant | dbService.ts:95-100 | putting back records taken from the store leaves the store unchanged |
| DbService.PutAllRebuilds | dbService.ts:79-100 | putting a full listing of a store into an empty store rebuilds it exactly |
| DbService.VaultStore.SaveNode | dbService.ts:22-37 | the store afterwards holds the defaulted record under its id, and every other key is unchanged |
| DbService.VaultStore.ToggleFavoriteNode | dbService.ts:39-58 | an existing record is toggled and the new flag is returned; a missing id rejects with "Node not found" and writes nothing; scores stay in range |
| DbService.VaultStore.GetAllNodes | dbService.ts:79-87 | the result lists every stored record exactly once |
| DbService.VaultStore.IncrementNodeUsage | dbService.ts:60-77 | a record with the shortId gets the increment and nothing else changes; an unknown shortId changes nothing and is not an error |
| DbService.VaultStore.DeleteNode | dbService.ts:89-93 | only the record under the id is removed |
| DbService.VaultStore.BulkSaveNodes | dbService.ts:95-100 | the records are put in order, as given, so a later one wins |
| VaultPanel.OutranksMeaning | components/Vault.tsx:67-70 | the comparator puts favourites first, then the higher score; it ties exactly the records equal on both keys, and it is asymmetric |
| VaultPanel.Compare | components/Vault.tsx:67-70 | the comparator is negative for a favourite against a non-favourite and never zero between them; between equal flags it is negative for the higher score and zero exactly for equal scores |
| VaultPanel.Insert | components/Vault.tsx:67-70 | an insertion adds exactly one element to the multiset |
| VaultPanel.SortView | components/Vault.tsx:67-70 | the stable sort is a permutation of its input |
| VaultPanel.InsertOrdered | components/Vault.tsx:67-70 | inserting into a list in view order keeps it in view order |
| VaultPanel.SortViewOrdered | components/Vault.tsx:68-69 | after sorting, every favourite precedes every non-favourite, and scores do not increase within a group |
| VaultPanel.NotOutranksTrans | components/Vault.tsx:67-70 | "does not rank above" is transitive |
| VaultPanel.InsertAtFront | components/Vault.tsx:67-70 | an element goes in front of a head that does not rank above it |
| VaultPanel.InsertBehind | components/Vault.tsx:67-70 | an element goes behind a head that ranks above it |
| VaultPanel.FilterInsert | components/Vault.tsx:65-70 | filtering after inserting into a list in view order is inserting into the filtered list |
| VaultPanel.FilterSortView | components/Vault.tsx:65-70 | filtering and sorting commute |
| VaultPanel.SortTiedIsIdentity | components/Vault.tsx:67-70 | a list of tied records is kept in input order (the sort is stable) |
| VaultPanel.ViewContents | components/Vault.tsx:65-66 | the view is a permutation of the filtered input; it holds exactly the records of the chosen domain, or all of them for ALL |
| VaultPanel.View | components/Vault.tsx:65-70 | the view is no longer than the input and holds only input records of the chosen domain, or any for ALL |
| VaultPanel.ViewRanked | components/Vault.tsx:67-70 | in the view favourites come first, and scores do not increase within a group |
| VaultPanel.ViewStable | components/Vault.tsx:67-70 | records with equal flag and score appear in the view in their input order |
| VaultPanel.DomainViewIsSubsequence | components/Vault.tsx:65-70 | a one-domain view is the ALL view with the other domains removed |
| VaultPanel.ViewExample | components/Vault.tsx:65-70 | A (80), favourite B (10) and C (80) are shown as B, A, C |
| VaultPanel.MergedCountReadsBack | components/Vault.tsx:45 | the count in the merge alert reads back as the number of imported records |
| VaultPanel.ExportDocument | components/Vault.tsx:23-24 | the export document is an array holding exactly the current records, in order |
| VaultPanel.ExportReimport | components/Vault.tsx:23-24 | an export of the stored records, imported again, overwrites each id with identical content; imported into an empty store, it rebuilds the store |
| VaultPanel.HandleImport | components/Vault.tsx:35-53 | an array is bulk-put, the listing is re-read and the count is reported; a parse failure writes nothing and reports "Failed to parse vault file."; any other value is ignored, with no write and no refresh |
| VaultPanel.HandleToggleFavorite | components/Vault.tsx:18-21 | the toggle is applied and then a full listing is read; a missing id writes nothing and skips the refresh |
| Workspace.SetSlot | components/Workspace.tsx:131-139 | only the chosen domain's slot takes the new reference; the other slots are kept, or null when there were none; every other parameter is unchanged |
| Workspace.SlotRef | components/Workspace.tsx:142 | a missing slot map reads as null for every domain; otherwise the reference stored for that domain |
| Workspace.ResolveSlot | components/Workspace.tsx:142-143 | a slot resolves to a vault record carrying the stored shortId; it is empty exactly when the slot is null or no record carries it |
| Workspace.ResolveSlotFirst | components/Workspace.tsx:143 | a slot resolves to the first record with the stored shortId |
| Workspace.SetSlotOnlyThatSlot | components/Workspace.tsx:131-138 | after setting one slot, the other three read as before, and as null when there were no slots |
| Workspace.DanglingSlotResolvesEmpty | components/Workspace.tsx:142-153 | a reference no record carries resolves to empty without an error; a cleared slot resolves to empty |
| Workspace.CommitRecordFacts | components/Workspace.tsx:108-125 | a committed record has usage 0, score 50, not favourite, rating 5 and the parameters' domain (X when unset); its name is the prompt's first three words joined by `_`; its original image falls back to the current one; `saveNode` stores it unchanged |
| Workspace.CommitRecord | components/Workspace.tsx:108-125 | the committed record carries the given id, current image, prompt, grading and time, a shortId starting with "LCP-", and a name without spaces |
| Workspace.WorkspaceState.HandleCommit | components/Workspace.tsx:104-129 | without an image, or while saving, nothing is written; otherwise the commit record is stored under its id and the saving flag ends cleared |
| Workspace.WorkspaceState.HandleProcess | components/Workspace.tsx:83-96 | a blank prompt or a missing image changes nothing; otherwise the log restarts with the kernel entry, a result with an image replaces image, log and parameters, and processing ends |
| Workspace.WorkspaceState.ClickSlot | components/Workspace.tsx:153 | clicking a slot clears it |
| GeminiService.GetBase64Payload | geminiService.ts:27-30 | without a comma the whole string is returned; after a comma-free header the payload is returned up to its own first comma, so a comma-free payload is returned exactly |
| GeminiService.GetBase64 | geminiService.ts:27-30 | the payload holds no comma, and a string without a comma comes back whole |
| GeminiService.PickForDomain | geminiService.ts:36-38 | the pick is a record of the domain, a favourite whenever the domain has one; there is none exactly when the domain is empty |
| GeminiService.PickFirstFavourite | geminiService.ts:36-38 | the pick is the earliest favourite of the domain |
| GeminiService.PickFirstOfDomain | geminiService.ts:36-38 | without a favourite, the pick is the earliest record of the domain |
| GeminiService.SpecsOf | geminiService.ts:41 | the identity reference carries the record's DNA specs when it has them, and `{}` otherwise |
| GeminiService.EnvironmentOf | geminiService.ts:42 | the environment description is the DNA environment when it is present and non-empty, and the record's prompt otherwise |
| GeminiService.StyleOf | geminiService.ts:43 | the style is the non-empty `style` entry of the DNA specs when there is one, and "REALISM" otherwise; it is never empty |
| GeminiService.Curate | geminiService.ts:35-45 | each of X, Y and Z gets the sentinel exactly when the domain is empty, and otherwise a reference to a record of that domain carrying its shortId and, for X, its name and DNA specs, for Y its environment description, for Z its style |
| GeminiService.CurateIgnoresLight | geminiService.ts:35-44 | removing every L record leaves the curation unchanged |
| GeminiService.LastInline | geminiService.ts:156-161 | there is no inline data exactly when no part carries any; otherwise the data comes from one of the parts |
| GeminiService.ExtractImageUrl | geminiService.ts:156-161 | the loop's URL is the last inline part's data behind the PNG data-URI header, or "" |
| GeminiService.ImageUrlMeaning | geminiService.ts:156-161 | the URL is "" exactly when no part is inline or there are no parts; a trailing inline part decides it, and a trailing text part leaves it alone |
| GeminiService.ImageUrlOf | geminiService.ts:156-161 | the URL is "" or starts with the PNG data-URI header, and it is not "" when some part is inline |
| GeminiService.Summaries | geminiService.ts:228 | the summary list has the vault's length and order and carries each record's shortId, domain, flag and score |
| GeminiService.SummariesIgnoreGrading | geminiService.ts:228 | a grading commit on a record leaves the summaries unchanged |
| GeminiService.OrNumber | geminiService.ts:115-121 | a logical-or default on a number keeps a present non-zero `x` and gives `d` for an absent or zero one |
| GeminiService.OrText | geminiService.ts:122 | a logical-or default on a string keeps a present non-empty `x` and gives `d` for an absent or empty one |
| GeminiService.CompiledGrading | geminiService.ts:111-124 | every slider keeps its given non-zero value and otherwise takes its default (1 for brightness, contrast and saturation, 0 for the rest), whether the field or the whole grading block is missing; the preset keeps a given non-empty name and is "NONE" otherwise; the filter is composed from the resulting values |
| GeminiService.CompiledGradingKeepsGiven | geminiService.ts:115-122 | inside a present grading block, all seven sliders keep their non-zero values and take their defaults when missing or zero, the preset is kept or becomes "NONE", and defaulting a compiled grading again changes nothing |
| GradingLab.Updated | components/GradingLab.tsx:43-47 | `updateParam` sets the chosen slider, keeps the other sliders and the preset, and recomposes the filter from the sliders |
| GradingLab.UpdateParamIdempotent | components/GradingLab.tsx:43-47 | setting the same slider to the same value twice equals setting it once |
| GradingLab.UpdateParamCommutes | components/GradingLab.tsx:43-47 | settings of two different sliders commute |
| GradingLab.Preset | components/GradingLab.tsx:49-53 | `applyPreset` changes only the preset name and the filter; the sliders are untouched |
| GradingLab.SliderAfterPreset | components/GradingLab.tsx:43-53 | moving a slider after a preset recomposes the filter and keeps the preset name |
| GradingLab.LoadGrading | components/GradingLab.tsx:25-41 | selecting a record loads its stored grading if present, otherwise the MASTER_RAW defaults |
| GradingLab.CommitNode | components/GradingLab.tsx:59 | the committed record equals the selected one in every field but the grading, which is the lab's grading |
| GradingLab.CommitThenLoad | components/GradingLab.tsx:26-59 | reselecting a committed record loads the committed grading, and recommitting the same grading changes nothing |
| GradingLab.PickerItems | components/GradingLab.tsx:179 | the picker offers the first twelve records, or all of them when there are fewer |
| GradingLab.GradingLabState.SelectNode | components/GradingLab.tsx:25-41 | selection stores the record; a change of selection loads the record's grading, and picking the selected record again keeps the edits |
| GradingLab.GradingLabState.UpdateParam | components/GradingLab.tsx:43-47 | the lab's grading becomes the updated grading |
| GradingLab.GradingLabState.ApplyPreset | components/GradingLab.tsx:49-53 | the lab's grading takes the preset |
| GradingLab.GradingLabState.ResetRaw | components/GradingLab.tsx:106 | "Reset RAW" sets only the brightness to 1 and recomposes the filter |
| GradingLab.GradingLabState.HandleCommit | components/GradingLab.tsx:55-67 | with no selected record, or while saving, nothing is written; otherwise the record with the current grading is stored under its id and the saving flag ends cleared |
| CinemaLab.TakeRecordFacts | components/CinemaLab.tsx:42-64 | a take has usage 0, score 50, not favourite, domain X, rating 5, one log entry and no grading; its name falls back to "unnamed_cinema" exactly when the prompt is empty, and is the prompt up to its third space otherwise; its shortId is "CIN-" and five digits that read back as the random number; its original image falls back to the result; `saveNode` stores it unchanged |
| CinemaLab.TakeRecord | components/CinemaLab.tsx:42-64 | a take carries the given id, result image and prompt, a non-empty name, a shortId starting with "CIN-", one log entry stamped with the first clock reading and the record stamped with the second |
| CinemaLab.CinemaLabState.HandleSaveTake | components/CinemaLab.tsx:38-72 | without a result image, or while saving, nothing is written; otherwise the take is stored under its id and the saving flag ends cleared |

## Left out

- Opening IndexedDB, upgrading it and its transaction callbacks (dbService.ts:8-20) are not modelled. The store is a map, and its operations run one after the other with no interleaving.
- The missing completion waits in `deleteNode` and `bulkSaveNodes` are timing, not behaviour, and are not modelled.
- Storage failures are not modelled: a put or delete always succeeds. The rejections of `saveNode` and `getAllNodes` on a transaction error are left out.
- DbService.VaultStore.GetAllNodes: IndexedDB returns records in key order; the model promises every record once, in an order that carries no meaning.
- DbService.VaultStore.IncrementNodeUsage: because of that, the record updated is the first match of the listing. When several records share a shortId, which one is updated is therefore not pinned down.
- Records without `usageCount`, `neuralPreferenceScore`, `isFavorite` or `vaultDomain` reach the store only through a hand-edited import file. The model's import takes complete records. The `?? 0` in `incrementNodeUsage` is therefore always given a count.
- DbService.ScoreStaysInRange: needs a non-negative usage count and rating. A record imported with a negative rating can get a negative score from `incrementNodeUsage`.
- JSON text, `FileReader`, `Blob` and the download link in `components/Vault.tsx` are left out. A parsed file is "array of records", "another value" or "parse error".
- A failure of the bulk put or refresh inside the import falls into the same catch as a parse error. The model does not produce that path.
- The export file name with its ISO date is not modelled.
- All Gemini calls are foreign network calls and are not modelled: `executeGroundedSynth`, `extractDeepDNA`, `optimizeVisualPrompt`, `suggestScoutWeights`, `routeSemanticAssets`, `orchestratePrompt` and `initiateVideoGeneration`. Their result is a parameter of the handlers, and the job log that `executeGroundedSynth` builds with `logs.push` is not modelled.
- `crypto.randomUUID`, `Math.random` and `Date.now` are parameters (`id`, `random`, `now`). A saved take reads the clock twice, for its log entry and for the record, so it takes two (`logTime`, `now`).
- The text of a CSS filter is not modelled. The rendering of numbers in `css_filter_string` is JavaScript float formatting. A composed filter is the datatype `Composed` of its six values, and a preset's filter is `Literal` text.
- `updateParam` with the `preset_name` or `css_filter_string` key is not modelled: the UI only passes the numeric slider keys.
- DNA specs are modelled as text-valued. Number-valued specs and the `JSON.stringify` of the identity specs are left out.
- React rendering, timers, hover state and colour lookups are not modelled.
- Alerts outside the import are not modelled: the commit message of `components/Workspace.tsx`, the "Grading committed to Node" message of `components/GradingLab.tsx`, and the "Saved Take" and "Synthesis Failure" messages of `components/CinemaLab.tsx`. The two import messages are modelled.
- The collision report and routing text set by `handleProcess` and `handlePurgeBuffer` are not modelled.
- `handleFileUpload` and `ZModeModal` are not modelled.
- GradingLab.GradingLabState.SelectNode: React decides whether the selection changed by object identity; the model compares records by value. Picking a different object with equal contents (for instance the same record after a vault refresh) reloads the stored grading in the source but keeps the edits in the model.
- Interleavings of the asynchronous handlers (a second click while an await is pending) are not modelled beyond the saving flags. Each handler runs to completion.
- The handlers of `components/CreationLab.tsx` and `components/AgentFeed.tsx` are user interface and network glue with no store logic, and are not modelled.
- App.tsx is not part of this model. The `onSave` callback is modelled as `saveNode`, and `onRefresh` as `getAllNodes`, which both the import and the favourite toggle call.
- JavaScript numbers are modelled as `int` for `usageCount`, `neuralPreferenceScore`, `rating` and `timestamp`, and as `real` for the grading values and parameters. Fractional, NaN, infinite or non-numeric values in an imported file are outside the model.
- Fields of `types.ts` that the core never reads are dropped, both optional and required ones: `z_garment`, `z_physics`, `z_style`, `manifest`, `pose_control`, `processing_speed` and `auto_tune_active` of `LatentParams`; the optional `neural_metrics` entries (`realism_score` and the rest); `dna_token`, `spatial_metadata` and `aesthetic_dna` of `CategorizedDNA`; and `videoUrl`, `enhancedPrompt` (a required field), `collision_logic`, `consolidated_prompt`, `groundingLinks`, `pexels_query`, `grading` and `visual_anchor` of `ProcessResponse`. The `department` of a log entry is kept.
