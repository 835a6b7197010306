// The "rename folder" dialog: prefilled with the folder's current name, it hands
// (current name, new name) to the folder screen when the new name is usable.

module RenameFolderDialog {
  import opened Wrappers
  import opened Text

  const ArgCurrentName := "current_name"

  /** `newInstance(currentName)`: the arguments bundle of the dialog. */
  function NewInstance(currentName: string): (args: map<string, string>)
    ensures args.Keys == {ArgCurrentName}
  {
    map[ArgCurrentName := currentName]
  }

  /** `onCreate`: `currentFolderName` is read back from the arguments, if there are any. */
  function CurrentFolderName(args: Option<map<string, string>>): Option<string> {
    if args.Some? && ArgCurrentName in args.value then Some(args.value[ArgCurrentName]) else None
  }

  lemma CurrentFolderNameRoundTrip(currentName: string)
    ensures CurrentFolderName(Some(NewInstance(currentName))) == Some(currentName)
  {
  }

  /** The text the input field starts with: the current name (`setText(null)` leaves it empty). */
  function Prefill(current: Option<string>): (text: string)
    ensures current.Some? ==> text == current.value
    ensures current.None? ==> text == []
  {
    current.GetOr([])
  }

  /** What pressing "변경" does. */
  datatype RenameOutcome =
    | Refused                                    // blank or unchanged: a toast
    | Renamed(oldTitle: string, newTitle: string) // `onFolderRenamed(old, new)`
    | Unsent                                     // no listener or no current name: nothing

  /**
   * The positive button: the typed text is trimmed; a blank name or the current
   * name itself is refused; otherwise the listener is told only when there is one
   * and the current name is known.
   */
  function OnRename(input: string, hasListener: bool, current: Option<string>): (r: RenameOutcome)
    ensures r.Refused? <==> AllWhitespace(input) || (current.Some? && Trim(input) == current.value)
    ensures r.Renamed? <==> !AllWhitespace(input) && hasListener && current.Some? && Trim(input) != current.value
    ensures r.Renamed? ==> r.oldTitle == current.value && r.newTitle == Trim(input)
    ensures r.Renamed? ==> r.newTitle != [] && r.newTitle != r.oldTitle
  {
    TrimEmptyIff(input);
    var newName := Trim(input);
    if newName == [] || (current.Some? && newName == current.value) then Refused
    else if hasListener && current.Some? then Renamed(current.value, newName)
    else Unsent
  }

  /**
   * Confirming the prefilled text unchanged renames nothing, as long as the current
   * name has no surrounding blanks (every name the folder dialogs produce is trimmed).
   */
  lemma UntouchedPrefillIsRefused(current: string, hasListener: bool)
    requires Trim(current) == current
    ensures OnRename(Prefill(Some(current)), hasListener, Some(current)) == Refused
  {
  }

  /**
   * Renaming is undone by renaming back: the dialog opened on the new name accepts
   * the old one, provided the old name was itself a non-blank, trimmed name.
   */
  lemma RenameBack(input: string, current: string)
    requires current != [] && Trim(current) == current
    requires OnRename(input, true, Some(current)).Renamed?
    ensures var r := OnRename(input, true, Some(current));
      OnRename(r.oldTitle, true, Some(r.newTitle)) == Renamed(r.newTitle, r.oldTitle)
  {
    var r := OnRename(input, true, Some(current));
    TrimEmptyIff(current);
  }
}
