/**
 * The `useStarData` hook as an object: the `data` state (people and audit
 * log) and the view state (`sortBy`, `sortOrder`), with one method per
 * operation the hook returns. The random ids and clock readings the source
 * takes from `crypto.randomUUID()` and `new Date()` are parameters.
 */
module StarStore {
  import opened Types
  import opened StarLedger
  import opened StarSort
  import opened StarSnapshot

  /** `updateSort`: the same key flips the direction; a new key sorts descending. */
  function ToggleSort(sortBy: SortBy, sortOrder: SortOrder, newSortBy: SortBy): (r: (SortBy, SortOrder))
    ensures r.0 == newSortBy
    ensures newSortBy == sortBy ==> r.1 != sortOrder
    ensures newSortBy != sortBy ==> r.1 == Desc
  {
    if sortBy == newSortBy then (sortBy, if sortOrder == Asc then Desc else Asc)
    else (newSortBy, Desc)
  }

  /** Applying a key twice: the current key gets its direction back; any other key ends up ascending. */
  lemma ToggleTwice(sortBy: SortBy, sortOrder: SortOrder, k: SortBy)
    ensures var (b1, o1) := ToggleSort(sortBy, sortOrder, k);
      ToggleSort(b1, o1, k) == if k == sortBy then (sortBy, sortOrder) else (k, Asc)
  {
  }

  class Store {
    var people: seq<Person>
    var actions: seq<StarAction>
    var sortBy: SortBy
    var sortOrder: SortOrder

    function Data(): StarData
      reads this
    {
      StarData(people, actions)
    }

    /** The initial hook state: empty ledger, sorted by stars, descending. */
    constructor ()
      ensures Data() == EmptyData && sortBy == Stars && sortOrder == Desc
      ensures Invariant(Data()) && Balanced(Data()) && NoDangling(Data())
    {
      people, actions := [], [];
      sortBy, sortOrder := Stars, Desc;
    }

    /** The mount effect that restores the persisted snapshot. */
    method Load(stored: Stored, parse: string -> int)
      modifies this
      ensures Data() == Loaded(stored, old(Data()), parse)
      ensures sortBy == old(sortBy) && sortOrder == old(sortOrder)
    {
      var d := Loaded(stored, Data(), parse);
      people, actions := d.people, d.actions;
    }

    method AddPerson(name: string, freshId: string, now: int) returns (id: string)
      modifies this
      ensures id == freshId
      ensures Data() == AddPersonData(old(Data()), freshId, name, now)
      ensures sortBy == old(sortBy) && sortOrder == old(sortOrder)
      ensures old(Invariant(Data())) && freshId !in PersonIds(old(people)) ==> Invariant(Data())
      ensures old(Balanced(Data())) && freshId !in ReferencedIds(old(actions)) ==> Balanced(Data())
      ensures old(NoDangling(Data())) ==> NoDangling(Data())
    {
      ghost var before := Data();
      var d := AddPersonData(Data(), freshId, name, now);
      people, actions := d.people, d.actions;
      id := freshId;
      if Invariant(before) && freshId !in PersonIds(before.people) {
        AddPersonKeepsInvariant(before, freshId, name, now);
      }
      if Balanced(before) && freshId !in ReferencedIds(before.actions) {
        AddPersonKeepsBalanced(before, freshId, name, now);
      }
      if NoDangling(before) { AddPersonKeepsNoDangling(before, freshId, name, now); }
    }

    method RemovePerson(personId: string)
      modifies this
      ensures Data() == RemovePersonData(old(Data()), personId)
      ensures sortBy == old(sortBy) && sortOrder == old(sortOrder)
      ensures old(Invariant(Data())) ==> Invariant(Data())
      ensures old(Balanced(Data())) ==> Balanced(Data())
      ensures old(NoDangling(Data())) ==> NoDangling(Data())
    {
      ghost var before := Data();
      var d := RemovePersonData(Data(), personId);
      people, actions := d.people, d.actions;
      if Invariant(before) { RemovePersonKeepsInvariant(before, personId); }
      if Balanced(before) { RemovePersonKeepsBalanced(before, personId); }
      if NoDangling(before) { RemovePersonKeepsNoDangling(before, personId); }
    }

    method AddStar(personId: string, reason: Option<string>, actionId: string, stampedAt: int, starredAt: int)
      modifies this
      ensures Data() == AddStarData(old(Data()), personId, reason, actionId, stampedAt, starredAt)
      ensures sortBy == old(sortBy) && sortOrder == old(sortOrder)
      ensures old(Invariant(Data())) ==> Invariant(Data())
      ensures old(Balanced(Data())) ==> Balanced(Data())
      ensures old(NoDangling(Data())) && personId in PersonIds(old(people)) ==> NoDangling(Data())
    {
      ghost var before := Data();
      var d := AddStarData(Data(), personId, reason, actionId, stampedAt, starredAt);
      people, actions := d.people, d.actions;
      if Invariant(before) { AddStarKeepsInvariant(before, personId, reason, actionId, stampedAt, starredAt); }
      if Balanced(before) { AddStarKeepsBalanced(before, personId, reason, actionId, stampedAt, starredAt); }
      if NoDangling(before) && personId in PersonIds(before.people) {
        AddStarToPresentKeepsNoDangling(before, personId, reason, actionId, stampedAt, starredAt);
      }
    }

    method RemoveStar(personId: string, reason: Option<string>, actionId: string, stampedAt: int, starredAt: int)
      modifies this
      ensures Data() == RemoveStarData(old(Data()), personId, reason, actionId, stampedAt, starredAt)
      ensures sortBy == old(sortBy) && sortOrder == old(sortOrder)
      ensures old(Invariant(Data())) ==> Invariant(Data())
      ensures old(Balanced(Data())) ==> Balanced(Data())
      ensures old(NoDangling(Data())) ==> NoDangling(Data())
    {
      ghost var before := Data();
      var d := RemoveStarData(Data(), personId, reason, actionId, stampedAt, starredAt);
      people, actions := d.people, d.actions;
      if Invariant(before) { RemoveStarKeepsInvariant(before, personId, reason, actionId, stampedAt, starredAt); }
      if Balanced(before) { RemoveStarKeepsBalanced(before, personId, reason, actionId, stampedAt, starredAt); }
      if NoDangling(before) { RemoveStarKeepsNoDangling(before, personId, reason, actionId, stampedAt, starredAt); }
    }

    /** `getSortedPeople`: the same people, in comparator order for the current key and direction. */
    method GetSortedPeople() returns (sorted: seq<Person>)
      ensures multiset(sorted) == multiset(people)
      ensures Sorted(sortBy, sortOrder, sorted)
      ensures sortOrder == Asc ==> forall i, j :: 0 <= i < j < |sorted| ==> !KeyLess(Key(sorted[j], sortBy), Key(sorted[i], sortBy))
      ensures sortOrder == Desc ==> forall i, j :: 0 <= i < j < |sorted| ==> !KeyLess(Key(sorted[i], sortBy), Key(sorted[j], sortBy))
    {
      sorted := SortPeople(people, sortBy, sortOrder);
      SortedByKey(people, sortBy, sortOrder);
    }

    method UpdateSort(newSortBy: SortBy)
      modifies this
      ensures (sortBy, sortOrder) == ToggleSort(old(sortBy), old(sortOrder), newSortBy)
      ensures Data() == old(Data())
    {
      if sortBy == newSortBy {
        sortOrder := if sortOrder == Asc then Desc else Asc;
      } else {
        sortBy := newSortBy;
        sortOrder := Desc;
      }
    }
  }
}
