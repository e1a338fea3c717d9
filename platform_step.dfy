/** The first Quilt step: it downloads both catalogs and can only go on when it has both. */
module QuiltPlatform {
  import opened Wrappers
  import opened QuiltCatalogs

  /** The join of the two downloads: present exactly when both produced data,
      and then the pair of the two catalogs. */
  function ComputeData(quiltVersions: Option<QuiltVersions>, apiVersions: Option<QuiltStandardLibrariesVersions>)
    : (r: Option<(QuiltVersions, QuiltStandardLibrariesVersions)>)
    ensures r.Some? <==> quiltVersions.Some? && apiVersions.Some?
    ensures r.Some? ==> r.value.0 == quiltVersions.value && r.value.1 == apiVersions.value
  {
    match quiltVersions
    case None => None
    case Some(a) =>
      match apiVersions
      case None => None
      case Some(b) => Some((a, b))
  }
}
