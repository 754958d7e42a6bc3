/** The answer of the save dialog, as both pages read it. */
module SaveDialog {
  import opened Wrappers

  /** What `showSaveDialog` resolves to. */
  datatype SaveDialogReturn = SaveDialogReturn(canceled: bool, filePath: Option<string>)

  /** `result.canceled || !result.filePath`: a missing or empty path counts as cancelled. */
  predicate Cancelled(result: SaveDialogReturn)
  {
    result.canceled || result.filePath.None? || result.filePath.value == ""
  }
}
