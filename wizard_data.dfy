/** The wizard's shared key-value bag: each step writes its answers under a
    key, and the project generator reads them later. */
module WizardData {
  import opened Wrappers
  import opened QuiltCatalogs
  import opened SideOnly

  /** The keys the Quilt steps write. */
  datatype Key =
    | McVersionKey
    | LoaderVersionKey
    | QuiltMappingsVersionKey
    | ApiVersionKey
    | OfficialMappingsKey
    | EnvironmentKey
    | AuthorsKey

  /** The typed values stored under those keys. */
  datatype Value =
    | TextValue(text: string)
    | VersionValue(version: SemanticVersion)
    | FlagValue(flag: bool)
    | SideValue(side: Side)
    | AuthorsValue(authors: seq<(string, string)>)

  /** The bag itself, updated in place by `putUserData`. */
  class UserDataHolder {
    var data: map<Key, Value>

    constructor ()
      ensures data == map[]
    {
      data := map[];
    }

    /** Store `value` under `key`, replacing what was there. */
    method PutUserData(key: Key, value: Value)
      modifies this
      ensures data == old(data)[key := value]
    {
      data := data[key := value];
    }

    /** What is stored under `key`, if anything. */
    function GetUserData(key: Key): (r: Option<Value>)
      reads this
      ensures r.Some? <==> key in data
      ensures r.Some? ==> r.value == data[key]
    {
      if key in data then Some(data[key]) else None
    }
  }
}
