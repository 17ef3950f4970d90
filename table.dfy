/**
 * The people table: its pure rendering helpers (`getSortIcon`, `formatDate`,
 * `renderStars`, the `- Star` disable rule) and the reason dialog, a small
 * state machine over four fields that ends in one call to `onAddStar` or
 * `onRemoveStar`.
 */
module StarTable {
  import opened Types
  import opened StarLedger
  import JsString
  import StarStore

  const Unsorted: string := "\U{2195}\U{FE0F}"
  const Ascending: string := "\U{2191}"
  const Descending: string := "\U{2193}"

  /** `getSortIcon(column)`: the up-down arrow unless the table is sorted on this column. */
  function SortIcon(column: SortBy, sortBy: SortBy, sortOrder: SortOrder): (r: string)
    ensures r == Unsorted <==> column != sortBy
    ensures r == Ascending <==> column == sortBy && sortOrder.Asc?
    ensures r == Descending <==> column == sortBy && sortOrder.Desc?
  {
    assert Unsorted != Ascending && Unsorted != Descending by {
      assert |Unsorted| == 2 && |Ascending| == 1 && |Descending| == 1;
    }
    assert Ascending != Descending by {
      assert Ascending[0] != Descending[0];
    }
    if sortBy != column then Unsorted
    else match sortOrder
      case Asc => Ascending
      case Desc => Descending
  }

  /**
   * After a click on a column header only that column shows an arrow: it
   * points down when the column was not the sort key, and turns round when it was.
   */
  lemma SortIconAfterClick(sortBy: SortBy, sortOrder: SortOrder, clicked: SortBy, column: SortBy)
    ensures var (b, o) := StarStore.ToggleSort(sortBy, sortOrder, clicked);
      && (column != clicked ==> SortIcon(column, b, o) == Unsorted)
      && (clicked != sortBy ==> SortIcon(clicked, b, o) == Descending)
      && (clicked == sortBy ==>
            (SortIcon(clicked, b, o) == Ascending <==> SortIcon(clicked, sortBy, sortOrder) == Descending))
  {
  }

  /** `formatDate`: `'Never'` for a missing date; a present one goes to the locale formatter. */
  function FormatDate(date: Option<int>, locale: int -> string): (r: string)
    ensures date.None? ==> r == "Never"
    ensures date.Some? ==> r == locale(date.value)
  {
    match date
    case None => "Never"
    case Some(t) => locale(t)
  }

  function Min(a: int, b: int): int {
    if a < b then a else b
  }

  const MaxGlyphs: nat := 10

  /** `renderStars(count)`: at most ten glyphs, then ` +n` for the `n` stars beyond ten. */
  function RenderStars(count: nat): (r: string)
    ensures |r| >= Min(count, MaxGlyphs)
    ensures forall i :: 0 <= i < Min(count, MaxGlyphs) ==> r[i] == StarGlyph
    ensures |r| > Min(count, MaxGlyphs) <==> count > MaxGlyphs
    ensures count > MaxGlyphs ==> r[MaxGlyphs..] == " +" + JsString.Decimal(count - MaxGlyphs)
  {
    var glyphs := JsString.Repeat(StarGlyph, Min(count, MaxGlyphs));
    var r := glyphs + (if count > MaxGlyphs then " +" + JsString.Decimal(count - MaxGlyphs) else "");
    assert r[..|glyphs|] == glyphs;
    r
  }

  /** Reads a star rendering back: the glyphs, and the overflow after ` +` once there are ten. */
  function ReadStars(s: string): Option<nat> {
    var k := JsString.LeadingCount(StarGlyph, s);
    var rest := s[k..];
    if rest == [] then Some(k)
    else if k == MaxGlyphs && |rest| > 2 && rest[..2] == " +"
         && forall i :: 2 <= i < |rest| ==> JsString.IsDigit(rest[i])
    then Some(MaxGlyphs + JsString.ParseDecimal(rest[2..]))
    else None
  }

  /** The rendering loses nothing: the count can be read back from it. */
  lemma RenderStarsRoundTrip(count: nat)
    ensures ReadStars(RenderStars(count)) == Some(count)
  {
    var n := Min(count, MaxGlyphs);
    var tail := if count > MaxGlyphs then " +" + JsString.Decimal(count - MaxGlyphs) else "";
    var r := RenderStars(count);
    assert r == JsString.Repeat(StarGlyph, n) + tail;
    JsString.LeadingCountOfRepeat(StarGlyph, n, tail);
    assert r[n..] == tail;
    if count > MaxGlyphs {
      var digits := JsString.Decimal(count - MaxGlyphs);
      assert tail[2..] == digits;
      JsString.DecimalRoundTrip(count - MaxGlyphs);
    }
  }

  /** The `- Star` button of a row is disabled while that person has no positive count. */
  predicate RemoveStarDisabled(p: Person) {
    p.stars <= 0
  }

  /** With unique ids the button is disabled exactly when `removeStar` would ignore the click. */
  lemma RemoveButtonMatchesGuard(d: StarData, i: nat)
    requires UniqueIds(d.people) && i < |d.people|
    ensures RemoveStarDisabled(d.people[i]) <==> !CanRemoveStar(d.people, d.people[i].id)
  {
    var id := d.people[i].id;
    assert id in PersonIds(d.people);
    var k := FindIndex(d.people, id).value;
    assert k == i by {
      assert d.people[k].id == d.people[i].id;
    }
  }

  // ---------------------------------------------------------------------
  // The reason dialog

  /** The one callback `confirmAction` invokes, with its arguments. */
  datatype StarCall =
    | OnAddStar(personId: string, reason: Option<string>)
    | OnRemoveStar(personId: string, reason: Option<string>)

  /**
   * What `confirmAction` calls: nothing while no person is selected (an
   * empty id counts as none), otherwise exactly the callback for the chosen
   * action, with the trimmed reason or none.
   */
  function ConfirmCall(selected: Option<string>, actionType: ActionKind, reason: string): (r: Option<StarCall>)
    ensures r.None? <==> selected.None? || selected.value == ""
    ensures r.Some? ==> r.value.personId == selected.value && r.value.reason == JsString.TrimmedOrNone(reason)
    ensures r.Some? ==> (r.value.OnAddStar? <==> actionType == Add)
  {
    if selected.None? || selected.value == "" then None
    else if actionType == Add then Some(OnAddStar(selected.value, JsString.TrimmedOrNone(reason)))
    else Some(OnRemoveStar(selected.value, JsString.TrimmedOrNone(reason)))
  }

  class ReasonModal {
    var selectedPerson: Option<string>
    var reason: string
    var showReasonModal: bool
    var actionType: ActionKind

    /** The dialog is closed with nothing selected and an empty reason. */
    predicate Closed()
      reads this
    {
      !showReasonModal && selectedPerson.None? && reason == ""
    }

    constructor ()
      ensures Closed() && actionType == Add
    {
      selectedPerson, reason, showReasonModal, actionType := None, "", false, Add;
    }

    /** `handleStarAction`: remember the person and the action, open the dialog. */
    method HandleStarAction(personId: string, action: ActionKind)
      modifies this
      ensures selectedPerson == Some(personId) && actionType == action && showReasonModal
      ensures reason == old(reason)
    {
      selectedPerson, actionType, showReasonModal := Some(personId), action, true;
    }

    /** The text area's `onChange`. */
    method EditReason(text: string)
      modifies this
      ensures reason == text
      ensures selectedPerson == old(selectedPerson) && showReasonModal == old(showReasonModal)
      ensures actionType == old(actionType)
    {
      reason := text;
    }

    method ConfirmAction() returns (call: Option<StarCall>)
      modifies this
      ensures call == ConfirmCall(old(selectedPerson), old(actionType), old(reason))
      ensures call.None? ==> unchanged(this)
      ensures call.Some? ==> Closed() && actionType == old(actionType)
    {
      if selectedPerson.None? || selectedPerson.value == "" {
        return None;
      }
      var argument := JsString.TrimmedOrNone(reason);
      if actionType == Add {
        call := Some(OnAddStar(selectedPerson.value, argument));
      } else {
        call := Some(OnRemoveStar(selectedPerson.value, argument));
      }
      showReasonModal, selectedPerson, reason := false, None, "";
    }

    /** The Cancel button. */
    method Cancel()
      modifies this
      ensures Closed() && actionType == old(actionType)
    {
      showReasonModal, selectedPerson, reason := false, None, "";
    }
  }
}
