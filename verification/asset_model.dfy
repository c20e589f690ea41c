/** The structured result of parsing an asset URI: the nine values
    `parse_uri` hands to `AssetModel::new` (src/parse/uri.rs), in that
    order. The level is stored owned, as every other part is. */
module AssetModels {
  import opened Wrappers
  import opened Levels
  import Schemes
  import Versions

  datatype AssetModel = AssetModel(
    containerType: Schemes.Scheme,
    level: LevelOwned,
    name: string,
    department: string,
    subcontext: string,
    snapshotType: string,
    version: Option<Versions.Version>,
    key: Option<string>,
    createMissing: bool)
}
