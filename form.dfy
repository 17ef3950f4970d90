/**
 * The add-person form: the only place a blank name is refused. The store's
 * `addPerson` trims again and stores whatever it is given.
 */
module AddPersonForm {
  import opened Types
  import opened StarLedger
  import JsString

  /** When the submit button is disabled: a blank name, or a submission already running. */
  function SubmitDisabled(name: string, isSubmitting: bool): (r: bool)
    ensures r <==> JsString.IsBlank(name) || isSubmitting
  {
    JsString.TrimEmptyIffBlank(name);
    JsString.Trim(name) == [] || isSubmitting
  }

  /**
   * The person a submitted name becomes carries the input's trimmed text,
   * which is never empty: the second trim in `addPerson` changes nothing.
   */
  lemma SubmittedNameStored(d: StarData, input: string, id: string, now: int)
    requires JsString.TrimmedOrNone(input).Some?
    ensures var r := AddPersonData(d, id, JsString.TrimmedOrNone(input).value, now);
      r.people[|d.people|].name == JsString.Trim(input) && r.people[|d.people|].name != []
  {
    JsString.TrimIdempotent(input);
  }

  class Form {
    var name: string
    var isSubmitting: bool

    constructor ()
      ensures name == "" && !isSubmitting
    {
      name, isSubmitting := "", false;
    }

    /** The input's `onChange`. */
    method Edit(text: string)
      modifies this
      ensures name == text && isSubmitting == old(isSubmitting)
    {
      name := text;
    }

    /**
     * `handleSubmit`: a blank name returns at once and changes nothing;
     * otherwise `onAddPerson` gets the trimmed name once, the field is
     * cleared and the `finally` block ends the submission.
     */
    method HandleSubmit() returns (call: Option<string>)
      modifies this
      ensures call == JsString.TrimmedOrNone(old(name))
      ensures call.None? ==> name == old(name) && isSubmitting == old(isSubmitting)
      ensures call.Some? ==> name == "" && !isSubmitting
    {
      if JsString.Trim(name) == [] {
        return None;
      }
      isSubmitting := true;
      call := Some(JsString.Trim(name));
      name := "";
      isSubmitting := false;
    }
  }
}
