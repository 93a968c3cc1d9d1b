/**
 * The per-project settings of the copy action: the `State` record with its
 * default values, and the component that holds the current state, hands it out
 * and replaces it when the platform loads a persisted one.
 */
module Settings {

  /** The configuration record. Every field has a default (see `Default`). */
  datatype State = State(
    headerFormat: string,          // per-file header; `$FILE_PATH` stands for the file's path
    preText: string,               // text placed before all files
    postText: string,              // text placed after all files
    fileCountLimit: int,           // the file budget, when `setMaxFileCount` is set
    filenameFilters: seq<string>,  // allowed name suffixes, when `useFilenameFilters` is set
    addExtraLineBetweenFiles: bool,
    setMaxFileCount: bool,
    showCopyNotification: bool,
    useFilenameFilters: bool)

  /** The placeholder that `headerFormat` uses for the file's path. */
  const FilePathPlaceholder: string := "$FILE_PATH"

  /** `State()`: the record with every field at its default value. */
  const Default: State := State(
    headerFormat := "// file: " + FilePathPlaceholder,
    preText := "",
    postText := "",
    fileCountLimit := 30,
    filenameFilters := [],
    addExtraLineBetweenFiles := true,
    setMaxFileCount := true,
    showCopyNotification := false,
    useFilenameFilters := false)

  /** The settings service of one project. */
  class CopyFileContentSettings {
    var myState: State

    /** A fresh component holds the default state. */
    constructor ()
      ensures GetState() == Default
      ensures GetState().headerFormat == "// file: $FILE_PATH"
      ensures GetState().preText == "" && GetState().postText == ""
      ensures GetState().fileCountLimit == 30 && GetState().setMaxFileCount
      ensures GetState().filenameFilters == [] && !GetState().useFilenameFilters
      ensures GetState().addExtraLineBetweenFiles && !GetState().showCopyNotification
    {
      myState := Default;
    }

    /** The state currently held. */
    function GetState(): State
      reads this
    {
      myState
    }

    /** Replaces the held state by `state`; nothing else changes. */
    method LoadState(state: State)
      modifies this
      ensures GetState() == state
    {
      myState := state;
    }
  }
}
