// The "new folder" dialog: the name typed by the user is checked and handed to
// the folder screen together with the group it is created in.

module AddChildDialog {
  import opened Wrappers
  import opened Text

  const ArgGroupName := "group_name"

  /** `newInstance(groupName)`: the arguments bundle of the dialog. */
  function NewInstance(groupName: string): (args: map<string, string>)
    ensures args.Keys == {ArgGroupName}
  {
    map[ArgGroupName := groupName]
  }

  /** `onCreate`: `parentGroupName` is read back from the arguments, if there are any. */
  function ParentGroupName(args: Option<map<string, string>>): Option<string> {
    if args.Some? && ArgGroupName in args.value then Some(args.value[ArgGroupName]) else None
  }

  /** The dialog always knows the group it was opened for. */
  lemma ParentGroupNameRoundTrip(groupName: string)
    ensures ParentGroupName(Some(NewInstance(groupName))) == Some(groupName)
  {
  }

  /** What pressing "추가" does. */
  datatype SaveOutcome =
    | EmptyName                                       // toast, the dialog stays open
    | Created(groupName: string, childName: string)   // `onChildCreated`, then `dismiss()`
    | NoListener                                      // toast, the dialog stays open

  /**
   * The save button: the typed text is trimmed; a blank name is refused; otherwise
   * the listener is told only when there is one and the group name is known.
   */
  function OnSave(input: string, hasListener: bool, parentGroupName: Option<string>): (r: SaveOutcome)
    ensures r.EmptyName? <==> AllWhitespace(input)
    ensures r.Created? <==> !AllWhitespace(input) && hasListener && parentGroupName.Some?
    ensures r.Created? ==> r.groupName == parentGroupName.value && r.childName == Trim(input)
    ensures r.Created? ==>
              r.childName != [] && !IsWhitespace(r.childName[0]) && !IsWhitespace(r.childName[|r.childName| - 1])
  {
    TrimEmptyIff(input);
    TrimEnds(input);
    var newName := Trim(input);
    if newName == [] then EmptyName
    else if hasListener && parentGroupName.Some? then Created(parentGroupName.value, newName)
    else NoListener
  }

  /** The dialog closes only after the folder screen has been told. */
  predicate Dismisses(r: SaveOutcome) {
    r.Created?
  }

  /**
   * The name handed on is already trimmed: typing it back in the dialog creates
   * the same folder again.
   */
  lemma CreatedNameIsStable(input: string, hasListener: bool, parentGroupName: Option<string>)
    requires OnSave(input, hasListener, parentGroupName).Created?
    ensures var r := OnSave(input, hasListener, parentGroupName);
      OnSave(r.childName, hasListener, parentGroupName) == r
  {
    TrimIdempotent(input);
    TrimEmptyIff(Trim(input));
  }

  /** A dialog opened through `newInstance` with a listener creates a folder for every non-blank name. */
  lemma OpenedDialogCreates(groupName: string, input: string)
    requires !AllWhitespace(input)
    ensures OnSave(input, true, ParentGroupName(Some(NewInstance(groupName)))) == Created(groupName, Trim(input))
  {
    ParentGroupNameRoundTrip(groupName);
  }
}
