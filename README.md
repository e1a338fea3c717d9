# Quilt new-project wizard steps, modelled in Dafny

This project models the Quilt pages of MinecraftDev's new-project wizard
(`ui-steps.kt`). These pages let a user pick a Minecraft version and the
loader, Quilt Mappings and QFAPI/QSL versions that go with it, pick the
environment (client, server or both), and type the mod's authors. The
answers are written into the wizard's shared key-value bag.

What the model covers, file by file:

- `platform_step.dfy`: `computeData`. The step goes on only when both
  catalog downloads produced data, and then it has the pair of the two.
- `version_chain.dfy`: the version-selection step.
  - `mcVersions`: the Minecraft entries, numbered by reverse position.
  - The snapshot filter used by `updateVersionBox`.
  - `getAvailableVersions` for the four chained boxes. The mappings and
    API lists are filtered by the selected Minecraft version and fall back
    to the whole catalog when nothing matches. A bad cast and a position
    past the fourth box are both error results.
  - The two warning labels.
  - The step as a class: its three persisted check boxes, its Minecraft
    combo box, `updateVersionBox`, `setupUI` and `setupProject`.
- `environment_step.dfy`: the environment step.
  - The two transforms between a `Side` and a combo-box label, and the
    round trips between them.
  - The `Side::name` / `Side::valueOf` pair the choice is persisted with,
    and the restoring of a stored side when the step is built.
  - `setupProject`.
- `authors_step.dfy`: the authors step.
  - `parseAuthors`: blank check, `trim`, deleting `[{}]`, splitting on
    `\s*,\s*` and then on `\s*:\s*`, and taking parts 0 and 1.
  - The field's default value `<user>:Owner`.
  - `setupProject`.
- `text.dfy`: the string operations the parser runs on.
  - Kotlin `isBlank` and `trim`. These use `Char.isWhitespace`, which
    includes the Unicode space separators.
  - Kotlin `Regex.split`. It keeps empty pieces and returns the whole input
    when nothing matches. The regex class `\s` is only `[ \t\n\x0B\f\r]`.
  - `FindSeparator` is proved to be the leftmost, longest match of
    `\s*c\s*`, which is what `Matcher.find` with greedy quantifiers returns.
  - `SplitAround` is proved equal to a plain split on the separator
    character, with the white space next to each separator removed.
- `seqs.dfy`: the Kotlin `filter`, `map` and `mapNotNull` operations.
- `wizard_data.dfy`: the `putUserData` bag and the keys written.
- `catalogs.dfy`, `side.dfy`, `wrappers.dfy`: the catalog records, the
  `Side` enum, and `Option`/`Result`.

The author parser splits only on commas. A piece without a colon makes `it[1]`
throw an index-out-of-bounds exception, so the whole call fails. The model
follows the code: `ToAuthors` returns `Err(IndexOutOfBounds(1, 1))`, and
`ParseAuthorsFailsExactly` states exactly when that happens.

## Model

| member | source | states |
|---|---|---|
| QuiltPlatform.ComputeData | src/main/kotlin/platform/quilt/creator/ui-steps.kt:47-51 | The result is present exactly when both downloads produced data, and it is then the pair (versions, API versions). |
| QuiltVersionChain.McVersions | src/main/kotlin/platform/quilt/creator/ui-steps.kt:107-111 | One entry per game version, in catalog order. The entry at index i of n carries ordinal n-1-i and that game version's version string and stable flag. |
| QuiltVersionChain.McVersionsOrdinals | src/main/kotlin/platform/quilt/creator/ui-steps.kt:107-111 | The ordinals read along the list are n-1, …, 0. They fall strictly, and the numbers that occur are exactly 0..n-1. |
| QuiltVersionChain.ShowSnapshotsKeepsAll | src/main/kotlin/platform/quilt/creator/ui-steps.kt:188 | With snapshots shown, the filter keeps every Minecraft entry. |
| QuiltVersionChain.HideSnapshotsKeepsStable | src/main/kotlin/platform/quilt/creator/ui-steps.kt:188 | With snapshots hidden, an entry is kept exactly when it is in the list and is stable. Order is preserved, because the filter distributes over concatenation. |
| Seqs.FilterMembers | src/main/kotlin/platform/quilt/creator/ui-steps.kt:188 | `filter` keeps an element exactly when it occurs in the input and satisfies the predicate. |
| Seqs.MapNotNullMembers | src/main/kotlin/platform/quilt/creator/ui-steps.kt:162-164 | `mapNotNull` produces a value exactly when some element maps to it. |
| Seqs.MapNotNullEmpty | src/main/kotlin/platform/quilt/creator/ui-steps.kt:165 | `mapNotNull` yields nothing (the `ifEmpty` case) exactly when every element maps to null. |
| QuiltVersionChain.MatchingMappingsInOrder | src/main/kotlin/platform/quilt/creator/ui-steps.kt:162-164 | Mappings matching keeps catalog order. One entry contributes its version exactly when its game version is the selected one. |
| QuiltVersionChain.MappingCandidates | src/main/kotlin/platform/quilt/creator/ui-steps.kt:160-166 | The mappings list offered is never empty for a non-empty catalog. |
| QuiltVersionChain.MappingCandidatesSpec | src/main/kotlin/platform/quilt/creator/ui-steps.kt:160-166 | When some mapping is for the selected version, the list holds exactly those entries' versions. Otherwise it is every mapping version in catalog order. |
| QuiltVersionChain.MappingsWarningMeansFallback | src/main/kotlin/platform/quilt/creator/ui-steps.kt:124-132 | The mappings label is empty exactly when the filtered list is non-empty. When the warning shows, the offered list is the whole catalog. |
| QuiltVersionChain.MatchingApisInOrder | src/main/kotlin/platform/quilt/creator/ui-steps.kt:169-171 | API matching keeps catalog order. One release contributes its version exactly when it lists the selected game version. |
| QuiltVersionChain.ApiCandidates | src/main/kotlin/platform/quilt/creator/ui-steps.kt:167-173 | The API list offered is never empty for a non-empty catalog. |
| QuiltVersionChain.ApiCandidatesSpec | src/main/kotlin/platform/quilt/creator/ui-steps.kt:167-173 | When some release supports the selected version, the list holds exactly those releases' versions. Otherwise it is every release in catalog order. |
| QuiltVersionChain.ApiWarningMeansFallback | src/main/kotlin/platform/quilt/creator/ui-steps.kt:140-148 | The API label is empty exactly when the filtered list is non-empty. When the warning shows, the offered list is the whole catalog. |
| QuiltVersionChain.AvailableVersions | src/main/kotlin/platform/quilt/creator/ui-steps.kt:156-176 | Position 0 gives exactly the Minecraft list and position 1 exactly the loader catalog. Past the fourth box the error is `IncorrectOperation`. At positions 2 and 3 a first selection that is not a Minecraft entry gives `ClassCast`. It fails in no other case. Every item has the kind of its position, and the list is non-empty when the catalog it draws from is. |
| QuiltVersionChain.AvailableDependentVersions | src/main/kotlin/platform/quilt/creator/ui-steps.kt:160-173 | At the mappings and API positions the items are exactly the candidate list of the selected Minecraft version. |
| QuiltVersionChain.VersionChainComboBox.SetSelectableItems | src/main/kotlin/platform/quilt/creator/ui-steps.kt:188 | The box offers exactly the given items. Its selection is cleared (see Left out). |
| QuiltVersionChain.VersionChainComboBox.SetSelectedItem | src/main/kotlin/platform/quilt/creator/ui-steps.kt:189 | Clearing the selection, or picking a listed item, takes effect. An item not in the list leaves the selection as it was, as a non-editable Swing combo box does. The list is unchanged. |
| QuiltVersionChain.RestoredSelection | src/main/kotlin/platform/quilt/creator/ui-steps.kt:187-189 | The selection after the refresh is always one the new list allows. It is the old selection exactly when that one is still listed (or empty). |
| QuiltVersionChain.QuiltVersionChainStep.constructor | src/main/kotlin/platform/quilt/creator/ui-steps.kt:91-101 | Each check box starts from its stored value. The defaults are: snapshots hidden, API used, official mappings not used. |
| QuiltVersionChain.QuiltVersionChainStep.UpdateVersionBox | src/main/kotlin/platform/quilt/creator/ui-steps.kt:185-190 | With no box nothing happens. Otherwise the box offers the snapshot-filtered Minecraft list. It gets its old selection back when that entry survived the filter, and has none otherwise. |
| QuiltVersionChain.QuiltVersionChainStep.SetShowSnapshots | src/main/kotlin/platform/quilt/creator/ui-steps.kt:103-105 | Changing the snapshot flag refreshes the box to the list for the new flag, restoring the selection as `updateVersionBox` does. The other flags are unchanged. |
| QuiltVersionChain.QuiltVersionChainStep.SetupUI | src/main/kotlin/platform/quilt/creator/ui-steps.kt:178-183 | Unless snapshots are shown, the host-built box is narrowed to stable releases and its selection restored as `updateVersionBox` does. With snapshots shown, the box is left alone. |
| QuiltVersionChain.ChainProjectData | src/main/kotlin/platform/quilt/creator/ui-steps.kt:192-201 | Always written: the Minecraft version string, the loader version, the mappings name and the official-mappings flag. The API version is written only when the API is used; otherwise the old entry stays. No other key changes. |
| QuiltVersionChain.QuiltVersionChainStep.SetupProject | src/main/kotlin/platform/quilt/creator/ui-steps.kt:192-201 | The bag ends as `ChainProjectData` of the old bag and the four selections. |
| QuiltEnvironment.SideToLabel | src/main/kotlin/platform/quilt/creator/ui-steps.kt:216-221 | The label is one of the three combo-box items. It is "Client" exactly for CLIENT and "Server" exactly for SERVER; every other side shows "Both". |
| QuiltEnvironment.LabelToSide | src/main/kotlin/platform/quilt/creator/ui-steps.kt:222-227 | The side is CLIENT, SERVER or NONE. It is CLIENT exactly for "Client" and SERVER exactly for "Server". |
| QuiltEnvironment.SideLabelRoundTrip | src/main/kotlin/platform/quilt/creator/ui-steps.kt:216-227 | Side to label and back is the identity on CLIENT, SERVER and NONE. |
| QuiltEnvironment.LabelSideRoundTrip | src/main/kotlin/platform/quilt/creator/ui-steps.kt:214-227 | Label to side and back is the identity on the three items of the combo box. |
| QuiltEnvironment.SideValueOf | src/main/kotlin/platform/quilt/creator/ui-steps.kt:207 | A name that parses is exactly the name of the side it gives. |
| QuiltEnvironment.StoredSideRoundTrip | src/main/kotlin/platform/quilt/creator/ui-steps.kt:207 | Persisting a side by name and reading it back gives the same side. |
| QuiltEnvironment.QuiltEnvironmentStep.constructor | src/main/kotlin/platform/quilt/creator/ui-steps.kt:205-208 | The environment is the side whose name an earlier run stored. With nothing stored it is the default NONE. |
| QuiltEnvironment.QuiltEnvironmentStep.SelectedLabel | src/main/kotlin/platform/quilt/creator/ui-steps.kt:214-221 | The shown label is always one of the combo box's items. |
| QuiltEnvironment.QuiltEnvironmentStep.SelectLabel | src/main/kotlin/platform/quilt/creator/ui-steps.kt:222-228 | Picking an item sets the environment to the side it stands for. |
| QuiltEnvironment.QuiltEnvironmentStep.SetupProject | src/main/kotlin/platform/quilt/creator/ui-steps.kt:234-236 | The chosen side is written under the environment key. Nothing else changes. |
| WizardData.UserDataHolder.PutUserData | src/main/kotlin/platform/quilt/creator/ui-steps.kt:235 | The bag maps the key to the value and is otherwise unchanged. |
| Text.Trim | src/main/kotlin/platform/quilt/creator/ui-steps.kt:274 | The result is a contiguous slice of the input with only white space cut off on either side. It is empty exactly for blank input; otherwise it starts and ends with non-white space. |
| Text.RemoveBraces | src/main/kotlin/platform/quilt/creator/ui-steps.kt:275 | No brace is left. |
| Text.RemoveBracesSpec | src/main/kotlin/platform/quilt/creator/ui-steps.kt:275 | A character survives exactly when it occurs in the input and is not a brace. Removal distributes over concatenation, so the other characters keep their order. |
| Text.FindSeparatorIsFirstMatch | src/main/kotlin/platform/quilt/creator/ui-steps.kt:269 | There is no match exactly when the separator is absent. Otherwise the span found matches `\s*c\s*`, no match starts earlier, and none from the same start is longer. |
| Text.SplitAround | src/main/kotlin/platform/quilt/creator/ui-steps.kt:276 | At least one piece. More than one exactly when the separator occurs. |
| Text.SplitAroundSegments | src/main/kotlin/platform/quilt/creator/ui-steps.kt:276 | One piece per separator-delimited segment, in order. Each piece is its segment with the regex white space next to its separators removed. |
| Text.JoinSegments | src/main/kotlin/platform/quilt/creator/ui-steps.kt:276 | Joining the segments with the separator gives back the input. |
| Text.SegmentsCount | src/main/kotlin/platform/quilt/creator/ui-steps.kt:276 | There are two or more segments exactly when the separator occurs. |
| QuiltAuthors.AuthorsText | src/main/kotlin/platform/quilt/creator/ui-steps.kt:274-275 | The text that is split contains no brace. |
| QuiltAuthors.ToAuthors | src/main/kotlin/platform/quilt/creator/ui-steps.kt:277-278 | Succeeds exactly when every piece contains a colon, giving one pair per piece: colon parts 0 and 1. Otherwise the error is index 1 on a list of size 1. |
| QuiltAuthors.ParseAuthorsEmptyExactlyWhenBlank | src/main/kotlin/platform/quilt/creator/ui-steps.kt:272-282 | The empty list comes back exactly for blank input. Any other successful parse has at least one author. |
| QuiltAuthors.ParseAuthorsOnePerSegment | src/main/kotlin/platform/quilt/creator/ui-steps.kt:272-282 | For non-blank input, author i comes from comma segment i of the trimmed, brace-free text, with white space at its commas dropped. There is one author per segment, in order. |
| QuiltAuthors.AuthorFromPiece | src/main/kotlin/platform/quilt/creator/ui-steps.kt:277-278 | The name is the text before the first colon. The role is the text up to the second colon or the end; later parts are dropped. |
| QuiltAuthors.ParseAuthorsFailsExactly | src/main/kotlin/platform/quilt/creator/ui-steps.kt:272-282 | The parse fails exactly when the input is not blank and some comma segment has no colon. |
| QuiltAuthors.BracesOnlyFails | src/main/kotlin/platform/quilt/creator/ui-steps.kt:274-278 | Non-blank text with neither comma nor colon once braces are gone fails with index 1 of size 1. |
| QuiltAuthors.ParseAuthorsNoBraces | src/main/kotlin/platform/quilt/creator/ui-steps.kt:268-278 | No parsed name or role contains a brace. |
| QuiltAuthors.ParseCleanText | src/main/kotlin/platform/quilt/creator/ui-steps.kt:273-276 | Text with no white space at either end and no braces is split on commas as it stands. |
| QuiltAuthors.ParseOneAuthor | src/main/kotlin/platform/quilt/creator/ui-steps.kt:272-282 | `name:role` parses back to exactly [(name, role)], provided neither part holds a separator or brace and no white space touches the ends or the colon. |
| QuiltAuthors.ParseTwoAuthors | src/main/kotlin/platform/quilt/creator/ui-steps.kt:272-282 | `n1:r1,` followed by any regex white space and then `n2:r2` parses to exactly the two pairs, in order. This holds when no part holds a separator or brace, no regex white space touches a part's ends, and the text neither starts nor ends with white space. |
| QuiltAuthors.ParseAliceAndBob | src/main/kotlin/platform/quilt/creator/ui-steps.kt:272-282 | "Alice:Owner, Bob:Dev" parses to [("Alice","Owner"), ("Bob","Dev")]. |
| QuiltAuthors.DefaultValueParses | src/main/kotlin/platform/quilt/creator/ui-steps.kt:257-259 | For a user name with no separators or braces and no outer white space, the default `<user>:Owner` parses back to [(user, "Owner")]. |
| QuiltAuthors.QuiltAuthorsStep.constructor | src/main/kotlin/platform/quilt/creator/ui-steps.kt:257-259 | The field starts as the user name followed by ":Owner". |
| QuiltAuthors.QuiltAuthorsStep.SetupProject | src/main/kotlin/platform/quilt/creator/ui-steps.kt:261-263 | On success the parsed authors are written under the authors key and nothing else changes. When the parser throws, the error is returned and the bag is unchanged. |

## Left out

- The downloads (`asyncIO`, `downloadData`, coroutines, network). `ComputeData` takes each download's outcome as an optional value.
- `createStep` and the `nextStep` chaining of the following wizard steps. These are only wiring of other steps, which are not part of this model.
- `createComboBox`'s UI: check boxes, `bindEnabled`, label colours and the UI DSL. What is modelled is the label text each warning computes and the flags the check boxes set.
- The base classes (`AbstractMcVersionChainStep`, `AbstractLatentStep`, `AbstractOptionalStringBasedOnProjectNameStep`): their `setupUI`/`setupProject` and how the combo boxes are built are not part of this model. `SetupUI` therefore takes the Minecraft box the base class built. `SetupProject` takes the four selections, since `getVersion` belongs to the base class.
- The casts in `setupProject` (`as QuiltMcVersion`, `as SemanticVersion`): the selections are passed already typed. In `getAvailableVersions` a failed cast is modelled as `ClassCast`.
- `SemanticVersion`'s parsing and ordering: versions are opaque tokens, and the catalogs' order is kept as given.
- QuiltVersionChain.VersionChainComboBox.SetSelectableItems: the combo box class is not part of this model, so what it does to its selection when its list is replaced is not visible. The model clears the selection. `SetSelectedItem` assumes the box behaves as a non-editable Swing combo box and refuses an item that is not in its list.
- `LocalUserSettings.userName` is a parameter of the authors step's constructor.
- The persistence of the check boxes and the environment (`bindBooleanStorage`, `bindStorage`): the values stored by an earlier run are constructor parameters. Writing them back after each change is not modelled.
- QuiltEnvironment.QuiltEnvironmentStep.constructor: when the stored name is not a `Side` constant, `valueOf` throws in the program and the step is never built. The model keeps NONE in that case.
- `Side` is declared outside this file. The model assumes the constants CLIENT, SERVER, NONE and INVALID. `EMPTY_LABEL` is taken to be the empty string. `MINECRAFT_VERSION`, a constant of the base class, is taken to be 0, the first position of the chain.
- Text.IsWhitespace: this is the JVM's `Character.isWhitespace || isSpaceChar` on the Basic Multilingual Plane. Supplementary characters and UTF-16 surrogate pairs are not modelled.
