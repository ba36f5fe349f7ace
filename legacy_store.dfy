/** The earlier single-record store of src/dpp_operations_hostapd.c: its save reads the
    state file but never writes any of it back, so the file it leaves holds one bootstrap
    record; its load is the same line scan as the state manager's. */
module LegacyStore {
  import opened Wrappers
  import opened CStrings
  import opened Store
  import opened StoreProps

  /** The static save_bootstrap_info: `{`, one bootstrap block, `}`, whatever was there.
      The URI is a C string: `%s` writes it up to its first NUL. */
  method SaveBootstrapInfo(f: StateFile, id: int, uri: string) returns (r: int)
    modifies f`data
    ensures r == (if f.writable then 0 else -1)
    ensures f.data == if f.writable then Some(FreshFile(Bootstrap, id, CString(uri))) else old(f.data)
  {
    var buffer := ReadBuffer(f.data);
    if !f.writable {
      return -1;
    }
    var v := CString(uri);
    f.data := Some("");
    f.Write("{\n");
    assert f.data.value == "{\n";
    f.WriteBlock(Bootstrap, id, v);
    f.Write("}\n");
    FreshFileText(Bootstrap, id, v);
    return 0;
  }

  /** The static load_bootstrap_uri: the same nested fgets scan as the state manager's. */
  method LoadBootstrapUri(f: StateFile, id: int) returns (r: Option<string>)
    ensures r == Load(f.data, Bootstrap, id)
    ensures f.data.None? ==> r.None?
  {
    r := f.LoadRecord(Bootstrap, id);
  }

  /** What a load finds in the file a save leaves: the saved value for the saved id, and
      nothing for any other id (`"bootstrap_1"` is not found in `"bootstrap_10"`) or for a
      configurator record, which the save has dropped. */
  lemma SavedFileLoads(id: int, uri: string, k: Kind, b: int)
    requires Storable(uri) && Int32(id)
    ensures Load(Some(FreshFile(Bootstrap, id, uri)), k, b)
         == if k == Bootstrap && b == id then Some(uri) else None
  {
    FreshFileLoad(Bootstrap, id, uri, k, b);
  }
}
