/**
 * The plugin's options (magma/options.py). Each option is read from the editor
 * variable g:magma_<name> and stored on the options object under the variable's
 * name with its "magma_" prefix removed.
 */
module Options {

  /** The option values, one field per attribute the options object gets. */
  datatype MagmaOptions = MagmaOptions(
    automaticallyOpenOutput: bool,
    wrapOutput: bool,
    outputWindowBorders: bool,
    showMimetypeDebug: bool,
    cellHighlightGroup: string,
    saveCell: string,
    imageProvider: string,
    copyOutput: bool,
    enterOutputBehavior: string)

  /** The editor variables read, in order. */
  const ConfigVars: seq<string> := [
    "magma_automatically_open_output", "magma_wrap_output", "magma_output_window_borders",
    "magma_show_mimetype_debug", "magma_cell_highlight_group", "magma_save_cell",
    "magma_image_provider", "magma_copy_output", "magma_enter_output_behavior"]

  /** The attribute a variable is stored under: name[6:]. */
  function AttributeName(name: string): string
  {
    if |name| >= 6 then name[6..] else ""
  }

  /** The attributes the options object has. */
  function Attributes(): (r: seq<string>)
    ensures |r| == |ConfigVars|
    ensures forall i :: 0 <= i < |r| ==> "magma_" + r[i] == ConfigVars[i]
  {
    VarsPrefixed();
    seq(|ConfigVars|, i requires 0 <= i < |ConfigVars| => AttributeName(ConfigVars[i]))
  }

  /** Every variable name starts with "magma_". */
  lemma VarsPrefixed()
    ensures forall i :: 0 <= i < |ConfigVars| ==> "magma_" + AttributeName(ConfigVars[i]) == ConfigVars[i]
  {
    forall i | 0 <= i < |ConfigVars|
      ensures "magma_" + AttributeName(ConfigVars[i]) == ConfigVars[i]
    {
      var v := ConfigVars[i];
      assert v[..6] == "magma_";
      assert v == v[..6] + v[6..];
    }
  }

  /** The defaults, with the editor's data directory as a parameter. */
  function Defaults(dataDir: string): MagmaOptions
  {
    MagmaOptions(true, false, true, false, "CursorLine", dataDir + "/magma", "none", false, "open_then_enter")
  }

  /** The save directory is stored as `save_cell`, so the object has no `save_path`
      attribute, although its class declares one. */
  lemma NoSavePathAttribute()
    ensures "save_cell" in Attributes()
    ensures "save_path" !in Attributes()
  {
    var a := Attributes();
    assert a[5] == "save_cell";
    forall i | 0 <= i < |a|
      ensures a[i] != "save_path"
    {
      assert a[i] == ConfigVars[i][6..];
    }
  }
}
