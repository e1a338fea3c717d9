/** The two downloaded version catalogs, reduced to the fields the wizard reads. */
module QuiltCatalogs {

  /** A version number as the catalogs deliver it; the model keeps it as an
      uninterpreted token (its ordering is not used by the wizard logic here). */
  datatype SemanticVersion = SemanticVersion(text: string)

  /** One Minecraft release in the Quilt catalog. */
  datatype GameVersion = GameVersion(version: string, stable: bool)

  /** A Quilt Mappings build, known by its name. */
  datatype QuiltMappingsVersion = QuiltMappingsVersion(name: string)

  /** A Quilt Mappings build together with the Minecraft version it is for. */
  datatype MappingsEntry = MappingsEntry(gameVersion: string, version: QuiltMappingsVersion)

  /** The Quilt catalog: Minecraft releases (newest first), loader versions and mappings. */
  datatype QuiltVersions = QuiltVersions(game: seq<GameVersion>, loader: seq<SemanticVersion>, mappings: seq<MappingsEntry>)

  /** A QFAPI/QSL release and the Minecraft versions it supports. */
  datatype ApiVersion = ApiVersion(version: SemanticVersion, gameVersions: seq<string>)

  /** The QFAPI/QSL catalog. */
  datatype QuiltStandardLibrariesVersions = QuiltStandardLibrariesVersions(versions: seq<ApiVersion>)
}
