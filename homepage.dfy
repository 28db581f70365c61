/** The state of the home page and its event handlers: generating the
    match-type variants, changing a checkbox, resetting, and loading a
    text file. */
module Homepage {
  import opened Text
  import opened Selection
  import opened Expansion

  class PageState {
    /** The text in the keyword box. */
    var input: string
    /** The generated variants, one per line. */
    var result: string
    var matchTypes: MatchTypes
    /** Whether the "no match type selected" notice is shown. */
    var showPopup: bool

    /** "all" is never on without the three concrete match types. */
    ghost predicate Valid()
      reads this
    {
      Consistent(matchTypes)
    }

    /** The page as first rendered: empty text, no result, nothing
        selected, no notice. */
    constructor ()
      ensures Valid()
      ensures input == [] && result == [] && matchTypes == NoneSelected && !showPopup
    {
      input := [];
      result := [];
      matchTypes := NoneSelected;
      showPopup := false;
    }

    /** `handleMatchTypeChange`: checkbox `name` was set to `checked`. */
    method ChangeMatchType(name: MatchType, checked: bool)
      requires Valid()
      modifies this
      ensures Valid()
      ensures matchTypes == Toggled(old(matchTypes), name, checked)
      ensures input == old(input) && result == old(result) && showPopup == old(showPopup)
    {
      ToggledConsistent(matchTypes, name, checked);
      matchTypes := Toggled(matchTypes, name, checked);
    }

    /** `handleSubmit`: with no concrete match type selected only the
        notice is raised; otherwise the result becomes the expansion of
        the input's keywords, one entry per line. */
    method Submit()
      requires Valid()
      modifies this
      ensures Valid()
      ensures input == old(input) && matchTypes == old(matchTypes)
      ensures !AnySelected(matchTypes) ==> showPopup && result == old(result)
      ensures AnySelected(matchTypes) ==>
                showPopup == old(showPopup) &&
                result == Join(Expand(Keywords(input), matchTypes))
    {
      if !AnySelected(matchTypes) {
        showPopup := true;
        return;
      }
      var lines := Keywords(input);
      var processed := ExpandLines(lines, matchTypes);
      result := Join(processed);
    }

    /** `handleReset`: clears the text, the result and every checkbox. */
    method Reset()
      modifies this
      ensures Valid()
      ensures input == [] && result == [] && matchTypes == NoneSelected
      ensures showPopup == old(showPopup)
    {
      input := [];
      result := [];
      matchTypes := NoneSelected;
    }

    /** `handleFileUpload`: `file` is the text of the chosen file, or None
        when no file was chosen, in which case nothing changes.  The
        input becomes the file's non-blank lines, untrimmed. */
    method LoadFile(file: Option<string>)
      requires Valid()
      modifies this
      ensures Valid()
      ensures file.None? ==> input == old(input)
      ensures file.Some? ==> input == UploadedInput(file.value)
      ensures result == old(result) && matchTypes == old(matchTypes) && showPopup == old(showPopup)
    {
      if file.None? {
        return;
      }
      input := UploadedInput(file.value);
    }
  }

  datatype Option<T> = None | Some(value: T)
}
