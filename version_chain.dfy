/** The version-selection step of the Quilt wizard: four dependent combo boxes
    (Minecraft, loader, Quilt Mappings, QFAPI/QSL), where the Minecraft choice
    narrows the mappings and API lists, falling back to the full list with a
    warning when nothing matches. */
module QuiltVersionChain {
  import opened Wrappers
  import opened QuiltCatalogs
  import Seqs
  import WizardData

  /** Positions in the chain of combo boxes. */
  const MINECRAFT_VERSION: nat := 0
  const LOADER_VERSION: nat := 1
  const QUILT_MAPPINGS_VERSION: nat := 2
  const QFAPI_VERSION: nat := 3

  /** A Minecraft entry of the first combo box: its ordinal, its version string and whether it is a stable release. */
  datatype QuiltMcVersion = QuiltMcVersion(ordinal: int, version: string, stable: bool)

  /** An item of any of the four combo boxes (the source's `Comparable<*>`). */
  datatype ChainItem =
    | McItem(mc: QuiltMcVersion)
    | SemanticItem(semantic: SemanticVersion)
    | MappingsItem(mappings: QuiltMappingsVersion)

  /** The three ways a catalog entry becomes a combo-box item. */
  function AsMcItem(v: QuiltMcVersion): ChainItem {
    McItem(v)
  }

  function AsSemanticItem(v: SemanticVersion): ChainItem {
    SemanticItem(v)
  }

  function AsMappingsItem(v: QuiltMappingsVersion): ChainItem {
    MappingsItem(v)
  }

  /** The two ways `getAvailableVersions` can throw: the first selection is
      not a Minecraft entry (a failed cast), or the position is not one of
      the four (`IncorrectOperationException`). */
  datatype ChainError = ClassCast | IncorrectOperation

  // ---------------------------------------------------------------------
  // The Minecraft list

  /** `mcVersions`: the catalog's game versions, in order, each numbered with
      its reverse position: the entry at index i of n gets ordinal n-1-i. */
  function McVersions(game: seq<GameVersion>): (r: seq<QuiltMcVersion>)
    ensures |r| == |game|
    ensures forall i :: 0 <= i < |game| ==>
      r[i] == QuiltMcVersion(|game| - 1 - i, game[i].version, game[i].stable)
    decreases |game|
  {
    if game == [] then []
    else [QuiltMcVersion(|game| - 1, game[0].version, game[0].stable)] + McVersions(game[1..])
  }

  function Ordinal(v: QuiltMcVersion): int {
    v.ordinal
  }

  /** The numbers n-1, n-2, ..., 0. */
  function CountDown(n: nat): (r: seq<int>)
    ensures |r| == n
    ensures forall i :: 0 <= i < n ==> r[i] == n - 1 - i
  {
    if n == 0 then [] else [n - 1] + CountDown(n - 1)
  }

  /** The ordinals read along the list are n-1, n-2, ..., 0: they fall
      strictly, and the numbers that occur are exactly 0 .. n-1. */
  lemma McVersionsOrdinals(game: seq<GameVersion>)
    ensures Seqs.Map(Ordinal, McVersions(game)) == CountDown(|game|)
    ensures forall i, j :: 0 <= i < j < |game| ==> McVersions(game)[i].ordinal > McVersions(game)[j].ordinal
    ensures forall x :: x in Seqs.Map(Ordinal, McVersions(game)) <==> 0 <= x < |game|
  {
    var ords := Seqs.Map(Ordinal, McVersions(game));
    forall x | 0 <= x < |game| ensures x in ords {
      assert ords[|game| - 1 - x] == x;
    }
  }

  /** The predicate of the snapshot filter: everything when snapshots are shown, else stable releases only. */
  function SnapshotFilter(showSnapshots: bool): QuiltMcVersion -> bool {
    (v: QuiltMcVersion) => showSnapshots || v.stable
  }

  /** The items `updateVersionBox` makes selectable. */
  function SelectableMcVersions(mcVersions: seq<QuiltMcVersion>, showSnapshots: bool): seq<QuiltMcVersion> {
    Seqs.Filter(SnapshotFilter(showSnapshots), mcVersions)
  }

  /** With snapshots shown, every Minecraft entry is selectable. */
  lemma ShowSnapshotsKeepsAll(mcVersions: seq<QuiltMcVersion>)
    ensures SelectableMcVersions(mcVersions, true) == mcVersions
  {
    Seqs.FilterKeepsAll(SnapshotFilter(true), mcVersions);
  }

  /** With snapshots hidden, the selectable entries are exactly the stable
      ones, and they keep the list's order (filtering distributes over
      concatenation). */
  lemma HideSnapshotsKeepsStable(mcVersions: seq<QuiltMcVersion>, more: seq<QuiltMcVersion>, v: QuiltMcVersion)
    ensures v in SelectableMcVersions(mcVersions, false) <==> v in mcVersions && v.stable
    ensures SelectableMcVersions(mcVersions + more, false)
         == SelectableMcVersions(mcVersions, false) + SelectableMcVersions(more, false)
    ensures SelectableMcVersions([v], false) == if v.stable then [v] else []
  {
    Seqs.FilterMembers(SnapshotFilter(false), mcVersions, v);
    Seqs.FilterConcat(SnapshotFilter(false), mcVersions, more);
  }

  // ---------------------------------------------------------------------
  // Mappings

  /** `mapping.version.takeIf { mapping.gameVersion == gameVersion }` */
  function MappingMatch(gameVersion: string): MappingsEntry -> Option<QuiltMappingsVersion> {
    (mapping: MappingsEntry) => if mapping.gameVersion == gameVersion then Some(mapping.version) else None
  }

  function MappingVersion(mapping: MappingsEntry): QuiltMappingsVersion {
    mapping.version
  }

  /** The mappings built for `gameVersion`, in catalog order. */
  function MatchingMappings(mappings: seq<MappingsEntry>, gameVersion: string): seq<QuiltMappingsVersion> {
    Seqs.MapNotNull(MappingMatch(gameVersion), mappings)
  }

  /** Some mapping is built for `gameVersion` (the `any` behind the warning label). */
  predicate MappingsMatched(mappings: seq<MappingsEntry>, gameVersion: string) {
    exists i :: 0 <= i < |mappings| && mappings[i].gameVersion == gameVersion
  }

  /** The mappings list offered for `mcVersion`: the matching versions, or
      every mapping version when none matches; never empty for a non-empty catalog. */
  function MappingCandidates(mappings: seq<MappingsEntry>, mcVersion: QuiltMcVersion): (r: seq<QuiltMappingsVersion>)
    ensures |mappings| > 0 ==> r != []
  {
    var filtered := MatchingMappings(mappings, mcVersion.version);
    if filtered == [] then Seqs.Map(MappingVersion, mappings) else filtered
  }

  /** Matching keeps catalog order: it distributes over concatenation, and a
      single entry contributes its version exactly when it is for `gameVersion`. */
  lemma MatchingMappingsInOrder(a: seq<MappingsEntry>, b: seq<MappingsEntry>, gameVersion: string)
    ensures MatchingMappings(a + b, gameVersion) == MatchingMappings(a, gameVersion) + MatchingMappings(b, gameVersion)
    ensures forall m :: MatchingMappings([m], gameVersion) == if m.gameVersion == gameVersion then [m.version] else []
  {
    Seqs.MapNotNullConcat(MappingMatch(gameVersion), a, b);
  }

  /** The candidate list is one of two things: when some mapping is for the
      selected version, exactly the versions of the matching entries; when
      none is, every version of the catalog, in order. */
  lemma MappingCandidatesSpec(mappings: seq<MappingsEntry>, mcVersion: QuiltMcVersion, x: QuiltMappingsVersion)
    ensures MappingsMatched(mappings, mcVersion.version) ==>
      && MappingCandidates(mappings, mcVersion) == MatchingMappings(mappings, mcVersion.version)
      && (x in MappingCandidates(mappings, mcVersion) <==>
            exists i :: 0 <= i < |mappings| && mappings[i].gameVersion == mcVersion.version && mappings[i].version == x)
    ensures !MappingsMatched(mappings, mcVersion.version) ==>
      && |MappingCandidates(mappings, mcVersion)| == |mappings|
      && forall i :: 0 <= i < |mappings| ==> MappingCandidates(mappings, mcVersion)[i] == mappings[i].version
  {
    var f := MappingMatch(mcVersion.version);
    Seqs.MapNotNullEmpty(f, mappings);
    Seqs.MapNotNullMembers(f, mappings, x);
    if MappingsMatched(mappings, mcVersion.version) {
      var i :| 0 <= i < |mappings| && mappings[i].gameVersion == mcVersion.version;
      assert f(mappings[i]).Some?;
    }
  }

  const EMPTY_LABEL: string := ""
  const MAPPINGS_WARNING: string := "Unable to match Quilt Mappings versions to Minecraft version"
  const API_WARNING: string := "Unable to match QFAPI/QSL versions to Minecraft version"

  /** The advisory label under the mappings box. */
  function MappingsWarningLabel(mappings: seq<MappingsEntry>, mcVersion: QuiltMcVersion): string {
    if MappingsMatched(mappings, mcVersion.version) then EMPTY_LABEL else MAPPINGS_WARNING
  }

  /** The mappings warning is shown exactly when the candidate list fell back to the whole catalog. */
  lemma MappingsWarningMeansFallback(mappings: seq<MappingsEntry>, mcVersion: QuiltMcVersion)
    ensures MappingsWarningLabel(mappings, mcVersion) == EMPTY_LABEL <==> MatchingMappings(mappings, mcVersion.version) != []
    ensures MappingsWarningLabel(mappings, mcVersion) != EMPTY_LABEL ==>
      MappingCandidates(mappings, mcVersion) == Seqs.Map(MappingVersion, mappings)
  {
    var f := MappingMatch(mcVersion.version);
    Seqs.MapNotNullEmpty(f, mappings);
    if MappingsMatched(mappings, mcVersion.version) {
      var i :| 0 <= i < |mappings| && mappings[i].gameVersion == mcVersion.version;
      assert f(mappings[i]).Some?;
    }
  }

  // ---------------------------------------------------------------------
  // QFAPI/QSL

  /** `api.version.takeIf { gameVersion in api.gameVersions }` */
  function ApiMatch(gameVersion: string): ApiVersion -> Option<SemanticVersion> {
    (api: ApiVersion) => if gameVersion in api.gameVersions then Some(api.version) else None
  }

  function ApiVersionOf(api: ApiVersion): SemanticVersion {
    api.version
  }

  /** The API releases supporting `gameVersion`, in catalog order. */
  function MatchingApis(apis: seq<ApiVersion>, gameVersion: string): seq<SemanticVersion> {
    Seqs.MapNotNull(ApiMatch(gameVersion), apis)
  }

  /** Some API release supports `gameVersion` (the `any` behind the warning label). */
  predicate ApisMatched(apis: seq<ApiVersion>, gameVersion: string) {
    exists i :: 0 <= i < |apis| && gameVersion in apis[i].gameVersions
  }

  /** The API list offered for `mcVersion`: the supporting releases, or every
      release when none supports it; never empty for a non-empty catalog. */
  function ApiCandidates(apis: seq<ApiVersion>, mcVersion: QuiltMcVersion): (r: seq<SemanticVersion>)
    ensures |apis| > 0 ==> r != []
  {
    var filtered := MatchingApis(apis, mcVersion.version);
    if filtered == [] then Seqs.Map(ApiVersionOf, apis) else filtered
  }

  /** Matching keeps catalog order, as for the mappings. */
  lemma MatchingApisInOrder(a: seq<ApiVersion>, b: seq<ApiVersion>, gameVersion: string)
    ensures MatchingApis(a + b, gameVersion) == MatchingApis(a, gameVersion) + MatchingApis(b, gameVersion)
    ensures forall api :: MatchingApis([api], gameVersion) == if gameVersion in api.gameVersions then [api.version] else []
  {
    Seqs.MapNotNullConcat(ApiMatch(gameVersion), a, b);
  }

  /** The API candidates: the supporting releases when there are any, else the whole catalog in order. */
  lemma ApiCandidatesSpec(apis: seq<ApiVersion>, mcVersion: QuiltMcVersion, x: SemanticVersion)
    ensures ApisMatched(apis, mcVersion.version) ==>
      && ApiCandidates(apis, mcVersion) == MatchingApis(apis, mcVersion.version)
      && (x in ApiCandidates(apis, mcVersion) <==>
            exists i :: 0 <= i < |apis| && mcVersion.version in apis[i].gameVersions && apis[i].version == x)
    ensures !ApisMatched(apis, mcVersion.version) ==>
      && |ApiCandidates(apis, mcVersion)| == |apis|
      && forall i :: 0 <= i < |apis| ==> ApiCandidates(apis, mcVersion)[i] == apis[i].version
  {
    var f := ApiMatch(mcVersion.version);
    Seqs.MapNotNullEmpty(f, apis);
    Seqs.MapNotNullMembers(f, apis, x);
    if ApisMatched(apis, mcVersion.version) {
      var i :| 0 <= i < |apis| && mcVersion.version in apis[i].gameVersions;
      assert f(apis[i]).Some?;
    }
  }

  /** The advisory label under the API box. */
  function ApiWarningLabel(apis: seq<ApiVersion>, mcVersion: QuiltMcVersion): string {
    if ApisMatched(apis, mcVersion.version) then EMPTY_LABEL else API_WARNING
  }

  /** The API warning is shown exactly when the candidate list fell back to the whole catalog. */
  lemma ApiWarningMeansFallback(apis: seq<ApiVersion>, mcVersion: QuiltMcVersion)
    ensures ApiWarningLabel(apis, mcVersion) == EMPTY_LABEL <==> MatchingApis(apis, mcVersion.version) != []
    ensures ApiWarningLabel(apis, mcVersion) != EMPTY_LABEL ==>
      ApiCandidates(apis, mcVersion) == Seqs.Map(ApiVersionOf, apis)
  {
    var f := ApiMatch(mcVersion.version);
    Seqs.MapNotNullEmpty(f, apis);
    if ApisMatched(apis, mcVersion.version) {
      var i :| 0 <= i < |apis| && mcVersion.version in apis[i].gameVersions;
      assert f(apis[i]).Some?;
    }
  }

  // ---------------------------------------------------------------------
  // The chain

  /** The kind of item that belongs at a position of the chain. */
  predicate FitsLevel(level: nat, item: ChainItem) {
    if level == MINECRAFT_VERSION then item.McItem?
    else if level == QUILT_MAPPINGS_VERSION then item.MappingsItem?
    else item.SemanticItem?
  }

  /** The size of the catalog list a position draws from. */
  function LevelCatalogSize(quiltVersions: QuiltVersions, apiVersions: QuiltStandardLibrariesVersions, level: nat): nat {
    if level == MINECRAFT_VERSION then |quiltVersions.game|
    else if level == LOADER_VERSION then |quiltVersions.loader|
    else if level == QUILT_MAPPINGS_VERSION then |quiltVersions.mappings|
    else |apiVersions.versions|
  }

  /** `getAvailableVersions`: the items for the box after `versionsAbove`, the
      selections of the boxes before it. It fails exactly for a position past
      the API box, or when a dependent box's first selection is not a
      Minecraft entry; otherwise every item has the position's kind, and
      the list is non-empty whenever the catalog it draws from is. */
  function AvailableVersions(quiltVersions: QuiltVersions, apiVersions: QuiltStandardLibrariesVersions, versionsAbove: seq<ChainItem>)
    : (r: Result<seq<ChainItem>, ChainError>)
    ensures r.Ok? <==> |versionsAbove| <= QFAPI_VERSION
                       && (|versionsAbove| >= QUILT_MAPPINGS_VERSION ==> versionsAbove[MINECRAFT_VERSION].McItem?)
    ensures r.Ok? ==> forall k :: 0 <= k < |r.value| ==> FitsLevel(|versionsAbove|, r.value[k])
    ensures r.Ok? && LevelCatalogSize(quiltVersions, apiVersions, |versionsAbove|) > 0 ==> r.value != []
    ensures |versionsAbove| == MINECRAFT_VERSION ==> r == Ok(Seqs.Map(AsMcItem, McVersions(quiltVersions.game)))
    ensures |versionsAbove| == LOADER_VERSION ==> r == Ok(Seqs.Map(AsSemanticItem, quiltVersions.loader))
    ensures |versionsAbove| > QFAPI_VERSION ==> r == Err(IncorrectOperation)
    ensures QUILT_MAPPINGS_VERSION <= |versionsAbove| <= QFAPI_VERSION && !versionsAbove[MINECRAFT_VERSION].McItem?
            ==> r == Err(ClassCast)
  {
    var level := |versionsAbove|;
    if level == MINECRAFT_VERSION then
      Ok(Seqs.Map(AsMcItem, McVersions(quiltVersions.game)))
    else if level == LOADER_VERSION then
      Ok(Seqs.Map(AsSemanticItem, quiltVersions.loader))
    else if level == QUILT_MAPPINGS_VERSION then
      match versionsAbove[MINECRAFT_VERSION]
      case McItem(mcVersion) =>
        Ok(Seqs.Map(AsMappingsItem, MappingCandidates(quiltVersions.mappings, mcVersion)))
      case _ => Err(ClassCast)
    else if level == QFAPI_VERSION then
      match versionsAbove[MINECRAFT_VERSION]
      case McItem(mcVersion) =>
        Ok(Seqs.Map(AsSemanticItem, ApiCandidates(apiVersions.versions, mcVersion)))
      case _ => Err(ClassCast)
    else
      Err(IncorrectOperation)
  }

  /** At the mappings and API positions the result is the candidate list of
      the selected Minecraft version, so its warning label is empty exactly
      when the list did not fall back. */
  lemma AvailableDependentVersions(quiltVersions: QuiltVersions, apiVersions: QuiltStandardLibrariesVersions,
                                   mcVersion: QuiltMcVersion, loader: ChainItem, mappings: ChainItem)
    ensures AvailableVersions(quiltVersions, apiVersions, [McItem(mcVersion), loader])
         == Ok(Seqs.Map(AsMappingsItem, MappingCandidates(quiltVersions.mappings, mcVersion)))
    ensures AvailableVersions(quiltVersions, apiVersions, [McItem(mcVersion), loader, mappings])
         == Ok(Seqs.Map(AsSemanticItem, ApiCandidates(apiVersions.versions, mcVersion)))
  {
  }

  // ---------------------------------------------------------------------
  // State: the Minecraft combo box and the step's settings

  /** A non-editable combo box accepts no selection, or one of its items. */
  predicate Selectable(item: Option<QuiltMcVersion>, items: seq<QuiltMcVersion>) {
    item.None? || item.value in items
  }

  /** The selection `updateVersionBox` leaves: the old one when it is still
      listed, otherwise what replacing the list left (nothing). */
  function RestoredSelection(before: Option<QuiltMcVersion>, items: seq<QuiltMcVersion>): (r: Option<QuiltMcVersion>)
    ensures Selectable(r, items)
    ensures r == before <==> Selectable(before, items)
  {
    if Selectable(before, items) then before else None
  }

  /** The Minecraft combo box, reduced to its list of selectable items and its selection. */
  class VersionChainComboBox {
    var selectableItems: seq<QuiltMcVersion>
    var selectedItem: Option<QuiltMcVersion>

    constructor (items: seq<QuiltMcVersion>, selected: Option<QuiltMcVersion>)
      ensures selectableItems == items && selectedItem == selected
    {
      selectableItems := items;
      selectedItem := selected;
    }

    /** Replace the list. What the host component does with the selection
        meanwhile is not modelled: here it is cleared. */
    method SetSelectableItems(items: seq<QuiltMcVersion>)
      modifies this
      ensures selectableItems == items && selectedItem == None
    {
      selectableItems := items;
      selectedItem := None;
    }

    /** Select `item`, as a non-editable Swing combo box does: clearing the
        selection or picking one of the listed items takes effect, while an
        item that is not in the list leaves the selection as it was. */
    method SetSelectedItem(item: Option<QuiltMcVersion>)
      modifies this
      ensures selectedItem == (if Selectable(item, selectableItems) then item else old(selectedItem))
      ensures selectableItems == old(selectableItems)
    {
      if Selectable(item, selectableItems) {
        selectedItem := item;
      }
    }
  }

  /** The keys the version step writes. */
  const CHAIN_KEYS: set<WizardData.Key> := {WizardData.McVersionKey, WizardData.LoaderVersionKey,
    WizardData.QuiltMappingsVersionKey, WizardData.ApiVersionKey, WizardData.OfficialMappingsKey}

  /** What `setupProject` leaves in the bag `before`: the Minecraft version
      string, loader version, the mappings' name and the official-mappings
      flag are always written; the API version only when `useApi` is set
      (otherwise whatever was under that key stays); no other key changes. */
  function ChainProjectData(before: map<WizardData.Key, WizardData.Value>, mcVersion: QuiltMcVersion,
                            loader: SemanticVersion, mappings: QuiltMappingsVersion, api: SemanticVersion,
                            useApi: bool, useOfficialMappings: bool): (r: map<WizardData.Key, WizardData.Value>)
    ensures r.Keys == before.Keys + {WizardData.McVersionKey, WizardData.LoaderVersionKey,
                                  WizardData.QuiltMappingsVersionKey, WizardData.OfficialMappingsKey}
                               + (if useApi then {WizardData.ApiVersionKey} else {})
    ensures r[WizardData.McVersionKey] == WizardData.TextValue(mcVersion.version)
    ensures r[WizardData.LoaderVersionKey] == WizardData.VersionValue(loader)
    ensures r[WizardData.QuiltMappingsVersionKey] == WizardData.TextValue(mappings.name)
    ensures r[WizardData.OfficialMappingsKey] == WizardData.FlagValue(useOfficialMappings)
    ensures useApi ==> r[WizardData.ApiVersionKey] == WizardData.VersionValue(api)
    ensures !useApi && WizardData.ApiVersionKey in before ==> r[WizardData.ApiVersionKey] == before[WizardData.ApiVersionKey]
    ensures forall k :: k in before && k !in CHAIN_KEYS ==> r[k] == before[k]
  {
    var d := before[WizardData.McVersionKey := WizardData.TextValue(mcVersion.version)]
                [WizardData.LoaderVersionKey := WizardData.VersionValue(loader)]
                [WizardData.QuiltMappingsVersionKey := WizardData.TextValue(mappings.name)];
    var d := if useApi then d[WizardData.ApiVersionKey := WizardData.VersionValue(api)] else d;
    d[WizardData.OfficialMappingsKey := WizardData.FlagValue(useOfficialMappings)]
  }

  /** The version-selection step: the two catalogs it was built with, its
      three persisted check boxes, and its Minecraft combo box once the UI exists. */
  class QuiltVersionChainStep {
    const quiltVersions: QuiltVersions
    const apiVersions: QuiltStandardLibrariesVersions
    var showSnapshots: bool
    var useApi: bool
    var useOfficialMappings: bool
    var versionBox: VersionChainComboBox?

    /** Each check box starts from its stored value, or from its default
        (snapshots hidden, API used, official mappings not used). */
    constructor (quiltVersions: QuiltVersions, apiVersions: QuiltStandardLibrariesVersions,
                 storedShowSnapshots: Option<bool>, storedUseApi: Option<bool>, storedUseOfficialMappings: Option<bool>)
      ensures this.quiltVersions == quiltVersions && this.apiVersions == apiVersions
      ensures showSnapshots == (if storedShowSnapshots.Some? then storedShowSnapshots.value else false)
      ensures useApi == (if storedUseApi.Some? then storedUseApi.value else true)
      ensures useOfficialMappings == (if storedUseOfficialMappings.Some? then storedUseOfficialMappings.value else false)
      ensures versionBox == null
    {
      this.quiltVersions := quiltVersions;
      this.apiVersions := apiVersions;
      showSnapshots := if storedShowSnapshots.Some? then storedShowSnapshots.value else false;
      useApi := if storedUseApi.Some? then storedUseApi.value else true;
      useOfficialMappings := if storedUseOfficialMappings.Some? then storedUseOfficialMappings.value else false;
      versionBox := null;
    }

    /** `updateVersionBox`: with no box yet nothing happens; otherwise the
        box offers the snapshot-filtered Minecraft list and gets back the
        selection it had before, provided that entry survived the filter. */
    method UpdateVersionBox()
      modifies versionBox
      ensures versionBox != null ==>
        && versionBox.selectableItems == SelectableMcVersions(McVersions(quiltVersions.game), showSnapshots)
        && versionBox.selectedItem == RestoredSelection(old(versionBox.selectedItem), versionBox.selectableItems)
    {
      var box := versionBox;
      if box == null {
        return;
      }
      var selectedItem := box.selectedItem;
      box.SetSelectableItems(SelectableMcVersions(McVersions(quiltVersions.game), showSnapshots));
      box.SetSelectedItem(selectedItem);
    }

    /** Toggling "Show snapshots" stores the flag and refreshes the box. */
    method SetShowSnapshots(value: bool)
      modifies this, versionBox
      ensures showSnapshots == value && versionBox == old(versionBox)
      ensures useApi == old(useApi) && useOfficialMappings == old(useOfficialMappings)
      ensures versionBox != null ==>
        && versionBox.selectableItems == SelectableMcVersions(McVersions(quiltVersions.game), value)
        && versionBox.selectedItem == RestoredSelection(old(versionBox.selectedItem), versionBox.selectableItems)
    {
      showSnapshots := value;
      UpdateVersionBox();
    }

    /** `setupUI`, after the host has built the Minecraft box `box` (holding
        the full list): unless snapshots are shown, the box is narrowed to stable releases. */
    method SetupUI(box: VersionChainComboBox)
      modifies this, box
      ensures versionBox == box && showSnapshots == old(showSnapshots)
      ensures useApi == old(useApi) && useOfficialMappings == old(useOfficialMappings)
      ensures box.selectableItems == if showSnapshots then old(box.selectableItems)
                                     else SelectableMcVersions(McVersions(quiltVersions.game), false)
      ensures box.selectedItem == if showSnapshots then old(box.selectedItem)
                                  else RestoredSelection(old(box.selectedItem), box.selectableItems)
    {
      versionBox := box;
      if !showSnapshots {
        UpdateVersionBox();
      }
    }

    /** `setupProject`, given the four boxes' selections: the bag ends as
        `ChainProjectData` describes. */
    method SetupProject(data: WizardData.UserDataHolder, mcVersion: QuiltMcVersion, loader: SemanticVersion,
                        mappings: QuiltMappingsVersion, api: SemanticVersion)
      modifies data
      ensures data.data == ChainProjectData(old(data.data), mcVersion, loader, mappings, api, useApi, useOfficialMappings)
    {
      data.PutUserData(WizardData.McVersionKey, WizardData.TextValue(mcVersion.version));
      data.PutUserData(WizardData.LoaderVersionKey, WizardData.VersionValue(loader));
      data.PutUserData(WizardData.QuiltMappingsVersionKey, WizardData.TextValue(mappings.name));
      if useApi {
        data.PutUserData(WizardData.ApiVersionKey, WizardData.VersionValue(api));
      }
      data.PutUserData(WizardData.OfficialMappingsKey, WizardData.FlagValue(useOfficialMappings));
    }
  }
}
