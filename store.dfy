/**
  The Store configuration object of smart-cart-vite/src/models/Store.js: built once
  from a loosely typed record with `||` defaults, then only read.
*/
module Stores {
  import opened Wrappers

  /** The constructor's input record, and the plain object `toJSON` returns. */
  datatype StoreData = StoreData(
    id: Option<string>,
    name: Option<string>,
    displayName: Option<string>,
    apiEndpoint: Option<string>,
    apiKey: Option<string>,
    logoUrl: Option<string>,
    color: Option<string>,
    icon: Option<string>,
    isActive: Option<bool>)

  const EmptyData := StoreData(None, None, None, None, None, None, None, None, None)

  datatype StoreFields = StoreFields(
    id: string,
    name: string,
    displayName: string,
    apiEndpoint: string,
    apiKey: string,
    logoUrl: string,
    color: string,
    icon: string,
    isActive: bool)

  const DefaultColor := "#666"
  const DefaultIcon := "icon-store"

  /** What the constructor can produce: a display name falls back to the name, and colour and icon are never "". */
  ghost predicate Normalized(s: StoreFields) {
    && (s.displayName == "" ==> s.name == "")
    && s.color != ""
    && s.icon != ""
  }

  type Store = s: StoreFields | Normalized(s)
    witness StoreFields("", "", "", "", "", "", DefaultColor, DefaultIcon, true)


  function NewStore(d: StoreData): (s: Store)
    ensures s.id == OrString(d.id, "") && s.name == OrString(d.name, "")
    ensures s.apiEndpoint == OrString(d.apiEndpoint, "") && s.apiKey == OrString(d.apiKey, "")
    ensures s.logoUrl == OrString(d.logoUrl, "")
    ensures s.displayName == OrString(d.displayName, OrString(d.name, ""))
    ensures s.displayName == "" <==> OrString(d.displayName, "") == "" && OrString(d.name, "") == ""
    ensures s.color == (if d.color.Some? && d.color.value != "" then d.color.value else DefaultColor)
    ensures s.icon == (if d.icon.Some? && d.icon.value != "" then d.icon.value else DefaultIcon)
    ensures s.isActive == (d.isActive != Some(false))
  {
    StoreFields(
      OrString(d.id, ""),
      OrString(d.name, ""),
      OrString(d.displayName, OrString(d.name, "")),
      OrString(d.apiEndpoint, ""),
      OrString(d.apiKey, ""),
      OrString(d.logoUrl, ""),
      OrString(d.color, DefaultColor),
      OrString(d.icon, DefaultIcon),
      if d.isActive.Some? then d.isActive.value else true)
  }

  /** What a client needs to call the store's API. */
  datatype APIConfig = APIConfig(endpoint: string, headers: map<string, string>)

  const BearerPrefix := "Bearer "

  function GetAPIConfig(s: Store): (c: APIConfig)
    ensures c.endpoint == s.apiEndpoint
    ensures c.headers.Keys == {"Authorization", "Content-Type"}
    ensures c.headers["Content-Type"] == "application/json"
    ensures var auth := c.headers["Authorization"];
      |auth| >= |BearerPrefix| && auth[..|BearerPrefix|] == BearerPrefix && auth[|BearerPrefix|..] == s.apiKey
  {
    APIConfig(s.apiEndpoint, map["Authorization" := BearerPrefix + s.apiKey, "Content-Type" := "application/json"])
  }

  /** The public view: identity and presentation only, never the connection secrets. */
  function ToJSON(s: Store): (d: StoreData)
    ensures d.apiKey.None? && d.apiEndpoint.None? && d.logoUrl.None?
    ensures d.id == Some(s.id) && d.name == Some(s.name) && d.displayName == Some(s.displayName)
    ensures d.color == Some(s.color) && d.icon == Some(s.icon) && d.isActive == Some(s.isActive)
  {
    StoreData(Some(s.id), Some(s.name), Some(s.displayName), None, None, None,
              Some(s.color), Some(s.icon), Some(s.isActive))
  }

  /** Rebuilding a store from its public view keeps every public field and blanks the redacted ones. */
  lemma RebuildFromJSON(s: Store)
    ensures NewStore(ToJSON(s)) == s.(apiEndpoint := "", apiKey := "", logoUrl := "")
  {
  }

  /** The defaults of the empty record. */
  lemma EmptyDataDefaults()
    ensures NewStore(EmptyData) == StoreFields("", "", "", "", "", "", "#666", "icon-store", true)
  {
  }
}
