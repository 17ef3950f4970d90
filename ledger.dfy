/**
 * The state updaters of the star-ledger hook (`useStarData`): each one builds
 * the next `{ people, actions }` value from the previous one with `map`,
 * `filter` and an append, and the invariants they keep.
 */
module StarLedger {
  import opened Types
  import JsString

  /** The hook's `data` state: the people and the audit log. */
  datatype StarData = StarData(people: seq<Person>, actions: seq<StarAction>)

  const EmptyData := StarData([], [])

  // ---------------------------------------------------------------------
  // Sequences: `filter` and "kept in relative order"

  /** `a` is `b` with some elements taken out and the rest in their order. */
  predicate IsSubsequence<T(==)>(a: seq<T>, b: seq<T>)
    decreases |a| + |b|
  {
    || a == []
    || (&& b != []
        && ((a[|a| - 1] == b[|b| - 1] && IsSubsequence(a[..|a| - 1], b[..|b| - 1]))
            || IsSubsequence(a, b[..|b| - 1])))
  }

  /** `Array.prototype.filter`: exactly the kept elements, each as often as before, in their order. */
  function Filter<T(==,!new)>(s: seq<T>, keep: T -> bool): (r: seq<T>)
    ensures |r| <= |s|
    ensures forall i :: 0 <= i < |r| ==> keep(r[i])
    ensures IsSubsequence(r, s)
  {
    if s == [] then []
    else
      var init, last := s[..|s| - 1], s[|s| - 1];
      assert s == init + [last];
      var r0 := Filter(init, keep);
      if keep(last) then
        var r := r0 + [last];
        assert r[..|r0|] == r0;
        r
      else
        r0
  }

  /** Each element is kept exactly as often as it occurs, or dropped entirely. */
  lemma {:induction false} FilterCounts<T(!new)>(s: seq<T>, keep: T -> bool)
    ensures forall x :: multiset(Filter(s, keep))[x] == if keep(x) then multiset(s)[x] else 0
  {
    if s != [] {
      var init, last := s[..|s| - 1], s[|s| - 1];
      assert s == init + [last];
      FilterCounts(init, keep);
    }
  }

  lemma {:induction false} FilterKeepsAll<T(!new)>(s: seq<T>, keep: T -> bool)
    requires forall i :: 0 <= i < |s| ==> keep(s[i])
    ensures Filter(s, keep) == s
  {
    if s != [] {
      FilterKeepsAll(s[..|s| - 1], keep);
      assert s == s[..|s| - 1] + [s[|s| - 1]];
    }
  }

  function PersonIds(people: seq<Person>): set<string> {
    set i | 0 <= i < |people| :: people[i].id
  }

  function ReferencedIds(actions: seq<StarAction>): set<string> {
    set i | 0 <= i < |actions| :: actions[i].personId
  }

  // ---------------------------------------------------------------------
  // The counter/log relation

  /** How many entries of `kind` the log holds for `personId`. */
  function Count(actions: seq<StarAction>, personId: string, kind: ActionKind): (n: nat)
    ensures n <= |actions|
  {
    if actions == [] then 0
    else
      var a := actions[|actions| - 1];
      Count(actions[..|actions| - 1], personId, kind)
        + (if a.personId == personId && a.action == kind then 1 else 0)
  }

  /** Grants minus revocations in the log for `personId`. */
  function Balance(actions: seq<StarAction>, personId: string): int {
    Count(actions, personId, Add) - Count(actions, personId, Remove)
  }

  predicate UniqueIds(people: seq<Person>) {
    forall i, j :: 0 <= i < j < |people| ==> people[i].id != people[j].id
  }

  /** Person ids are unique and no counter is negative. */
  predicate Invariant(d: StarData) {
    && UniqueIds(d.people)
    && (forall i :: 0 <= i < |d.people| ==> d.people[i].stars >= 0)
  }

  /** Every person's counter equals the balance of the log for their id. */
  predicate Balanced(d: StarData) {
    forall i :: 0 <= i < |d.people| ==> d.people[i].stars == Balance(d.actions, d.people[i].id)
  }

  /** Every log entry refers to a person that is present. */
  predicate NoDangling(d: StarData) {
    ReferencedIds(d.actions) <= PersonIds(d.people)
  }

  lemma CountAppend(actions: seq<StarAction>, a: StarAction, personId: string, kind: ActionKind)
    ensures Count(actions + [a], personId, kind)
         == Count(actions, personId, kind) + (if a.personId == personId && a.action == kind then 1 else 0)
  {
    assert (actions + [a])[..|actions|] == actions;
  }

  lemma {:induction false} CountUnreferenced(actions: seq<StarAction>, personId: string, kind: ActionKind)
    requires personId !in ReferencedIds(actions)
    ensures Count(actions, personId, kind) == 0
  {
    if actions != [] {
      var init := actions[..|actions| - 1];
      assert ReferencedIds(init) <= ReferencedIds(actions) by {
        forall x | x in ReferencedIds(init) ensures x in ReferencedIds(actions) {
          var i :| 0 <= i < |init| && init[i].personId == x;
          assert actions[i].personId == x;
        }
      }
      CountUnreferenced(init, personId, kind);
      assert actions[|actions| - 1].personId in ReferencedIds(actions);
    }
  }

  /** Filtering out the entries of another person does not change this person's counts. */
  lemma {:induction false} CountAfterCascade(actions: seq<StarAction>, removed: string, personId: string, kind: ActionKind)
    requires personId != removed
    ensures Count(Filter(actions, (a: StarAction) => a.personId != removed), personId, kind)
         == Count(actions, personId, kind)
  {
    var keep := (a: StarAction) => a.personId != removed;
    if actions != [] {
      var init, last := actions[..|actions| - 1], actions[|actions| - 1];
      CountAfterCascade(init, removed, personId, kind);
      if keep(last) {
        CountAppend(Filter(init, keep), last, personId, kind);
      }
    }
  }

  // ---------------------------------------------------------------------
  // addPerson

  /** The record `addPerson(name)` creates: trimmed name, no stars, never starred. */
  function NewPerson(id: string, name: string, now: int): (p: Person)
    ensures p.id == id && p.stars == 0 && p.dateAdded == now && p.lastStarDate.None?
    ensures p.name == JsString.Trim(name) && JsString.IsTrimmed(p.name)
    ensures p.name == [] <==> JsString.IsBlank(name)
  {
    JsString.TrimEmptyIffBlank(name);
    Person(id, JsString.Trim(name), 0, now, None)
  }

  /** `addPerson`: one new person at the end, everything else untouched. */
  function AddPersonData(d: StarData, id: string, name: string, now: int): (r: StarData)
    ensures |r.people| == |d.people| + 1 && r.people[..|d.people|] == d.people
    ensures var p := r.people[|d.people|];
      p.id == id && p.name == JsString.Trim(name) && p.stars == 0
      && p.dateAdded == now && p.lastStarDate == None
    ensures r.actions == d.actions
  {
    var r := StarData(d.people + [NewPerson(id, name, now)], d.actions);
    assert r.people[..|d.people|] == d.people;
    r
  }

  /** Appending a person whose id is not taken keeps the ids unique. */
  lemma UniqueIdsAppend(people: seq<Person>, p: Person)
    requires UniqueIds(people) && p.id !in PersonIds(people)
    ensures UniqueIds(people + [p])
  {
    var r := people + [p];
    forall i, j | 0 <= i < j < |r| ensures r[i].id != r[j].id {
      assert r[i] == people[i];
      if j < |people| {
        assert r[j] == people[j];
      }
    }
  }

  lemma AddPersonKeepsInvariant(d: StarData, id: string, name: string, now: int)
    requires Invariant(d) && id !in PersonIds(d.people)
    ensures Invariant(AddPersonData(d, id, name, now))
  {
    var p := NewPerson(id, name, now);
    UniqueIdsAppend(d.people, p);
    assert AddPersonData(d, id, name, now).people == d.people + [p];
  }

  /** A fresh id has no log entries yet, so the newcomer's zero counter is balanced. */
  lemma AddPersonKeepsBalanced(d: StarData, id: string, name: string, now: int)
    requires Balanced(d) && id !in ReferencedIds(d.actions)
    ensures Balanced(AddPersonData(d, id, name, now))
  {
    CountUnreferenced(d.actions, id, Add);
    CountUnreferenced(d.actions, id, Remove);
    BalancedAppend(d, NewPerson(id, name, now));
    assert AddPersonData(d, id, name, now) == StarData(d.people + [NewPerson(id, name, now)], d.actions);
  }

  /** A person whose counter already matches the log can join a balanced ledger. */
  lemma BalancedAppend(d: StarData, p: Person)
    requires Balanced(d) && p.stars == Balance(d.actions, p.id)
    ensures Balanced(StarData(d.people + [p], d.actions))
  {
    var people := d.people + [p];
    forall i | 0 <= i < |people| ensures people[i].stars == Balance(d.actions, people[i].id) {
      if i < |d.people| {
        assert people[i] == d.people[i];
      }
    }
  }

  /** A new person refers to nothing and takes no id away, so no entry starts dangling. */
  lemma AddPersonKeepsNoDangling(d: StarData, id: string, name: string, now: int)
    requires NoDangling(d)
    ensures NoDangling(AddPersonData(d, id, name, now))
  {
    var r := AddPersonData(d, id, name, now);
    forall x | x in PersonIds(d.people) ensures x in PersonIds(r.people) {
      var i :| 0 <= i < |d.people| && d.people[i].id == x;
      assert r.people[i] == d.people[i];
    }
  }

  // ---------------------------------------------------------------------
  // removePerson

  /** `removePerson`: drops the person and, by cascade, every log entry naming them. */
  function RemovePersonData(d: StarData, personId: string): (r: StarData)
    ensures forall i :: 0 <= i < |r.people| ==> r.people[i].id != personId
    ensures forall i :: 0 <= i < |r.actions| ==> r.actions[i].personId != personId
    ensures forall p :: multiset(r.people)[p] == if p.id == personId then 0 else multiset(d.people)[p]
    ensures forall a :: multiset(r.actions)[a] == if a.personId == personId then 0 else multiset(d.actions)[a]
    ensures IsSubsequence(r.people, d.people) && IsSubsequence(r.actions, d.actions)
  {
    FilterCounts(d.people, (p: Person) => p.id != personId);
    FilterCounts(d.actions, (a: StarAction) => a.personId != personId);
    StarData(
      Filter(d.people, (p: Person) => p.id != personId),
      Filter(d.actions, (a: StarAction) => a.personId != personId))
  }

  /** Removing the same person a second time changes nothing. */
  lemma RemovePersonIdempotent(d: StarData, personId: string)
    ensures RemovePersonData(RemovePersonData(d, personId), personId) == RemovePersonData(d, personId)
  {
    var r := RemovePersonData(d, personId);
    FilterKeepsAll(r.people, (p: Person) => p.id != personId);
    FilterKeepsAll(r.actions, (a: StarAction) => a.personId != personId);
  }

  /** Removing an id that neither a person nor a log entry carries changes nothing. */
  lemma RemoveAbsentIsNoOp(d: StarData, personId: string)
    requires personId !in PersonIds(d.people) && personId !in ReferencedIds(d.actions)
    ensures RemovePersonData(d, personId) == d
  {
    assert forall i :: 0 <= i < |d.people| ==> d.people[i].id in PersonIds(d.people);
    assert forall i :: 0 <= i < |d.actions| ==> d.actions[i].personId in ReferencedIds(d.actions);
    FilterKeepsAll(d.people, (p: Person) => p.id != personId);
    FilterKeepsAll(d.actions, (a: StarAction) => a.personId != personId);
  }

  lemma {:induction false} FilterKeepsUniqueIds(people: seq<Person>, keep: Person -> bool)
    requires UniqueIds(people)
    ensures UniqueIds(Filter(people, keep))
  {
    if people != [] {
      var init, last := people[..|people| - 1], people[|people| - 1];
      FilterKeepsUniqueIds(init, keep);
      var r0 := Filter(init, keep);
      if keep(last) {
        FilterCounts(init, keep);
        forall i | 0 <= i < |r0| ensures r0[i].id != last.id {
          assert r0[i] in multiset(r0);
          assert r0[i] in multiset(init);
          var k :| 0 <= k < |init| && init[k] == r0[i];
          assert people[k] == init[k];
        }
        var r := r0 + [last];
        assert Filter(people, keep) == r;
        forall i, j | 0 <= i < j < |r| ensures r[i].id != r[j].id {
          if j < |r0| {
            assert r[i] == r0[i] && r[j] == r0[j];
          } else {
            assert r[i] == r0[i];
          }
        }
      } else {
        assert Filter(people, keep) == r0;
      }
    }
  }

  lemma RemovePersonKeepsInvariant(d: StarData, personId: string)
    requires Invariant(d)
    ensures Invariant(RemovePersonData(d, personId))
  {
    var r := RemovePersonData(d, personId);
    FilterKeepsUniqueIds(d.people, (p: Person) => p.id != personId);
    forall i | 0 <= i < |r.people| ensures r.people[i].stars >= 0 {
      assert r.people[i] in multiset(r.people);
      assert r.people[i] in multiset(d.people);
    }
  }

  lemma RemovePersonKeepsBalanced(d: StarData, personId: string)
    requires Balanced(d)
    ensures Balanced(RemovePersonData(d, personId))
  {
    var r := RemovePersonData(d, personId);
    forall i | 0 <= i < |r.people| ensures r.people[i].stars == Balance(r.actions, r.people[i].id) {
      var p := r.people[i];
      assert p in multiset(r.people);
      assert p in multiset(d.people);
      var k :| 0 <= k < |d.people| && d.people[k] == p;
      CountAfterCascade(d.actions, personId, p.id, Add);
      CountAfterCascade(d.actions, personId, p.id, Remove);
    }
  }

  /** The people left after `removePerson` carry exactly the other ids. */
  lemma RemovePersonIds(d: StarData, personId: string)
    ensures PersonIds(RemovePersonData(d, personId).people) == PersonIds(d.people) - {personId}
  {
    var r := RemovePersonData(d, personId).people;
    forall x | x in PersonIds(r) ensures x in PersonIds(d.people) {
      var i :| 0 <= i < |r| && r[i].id == x;
      assert r[i] in multiset(r);
      assert r[i] in multiset(d.people);
    }
    forall x | x in PersonIds(d.people) - {personId} ensures x in PersonIds(r) {
      var j :| 0 <= j < |d.people| && d.people[j].id == x;
      assert d.people[j] in multiset(d.people);
      assert d.people[j] in multiset(r);
    }
  }

  /** The log left after the cascade names exactly the other ids it named. */
  lemma RemovePersonReferencedIds(d: StarData, personId: string)
    ensures ReferencedIds(RemovePersonData(d, personId).actions) == ReferencedIds(d.actions) - {personId}
  {
    var r := RemovePersonData(d, personId).actions;
    forall x | x in ReferencedIds(r) ensures x in ReferencedIds(d.actions) {
      var i :| 0 <= i < |r| && r[i].personId == x;
      assert r[i] in multiset(r);
      assert r[i] in multiset(d.actions);
    }
    forall x | x in ReferencedIds(d.actions) - {personId} ensures x in ReferencedIds(r) {
      var j :| 0 <= j < |d.actions| && d.actions[j].personId == x;
      assert d.actions[j] in multiset(d.actions);
      assert d.actions[j] in multiset(r);
    }
  }

  /** After the cascade the survivors' log refers to survivors whenever it did before. */
  lemma RemovePersonKeepsNoDangling(d: StarData, personId: string)
    requires NoDangling(d)
    ensures NoDangling(RemovePersonData(d, personId))
  {
    RemovePersonIds(d, personId);
    RemovePersonReferencedIds(d, personId);
  }

  // ---------------------------------------------------------------------
  // addStar and removeStar

  /** The people after every person with `personId` gains `delta` stars at time `when`. */
  function AdjustStars(people: seq<Person>, personId: string, delta: int, when: int): (r: seq<Person>)
    ensures |r| == |people|
    ensures forall i :: 0 <= i < |people| ==>
      r[i].(stars := 0, lastStarDate := None) == people[i].(stars := 0, lastStarDate := None)
    ensures forall i :: 0 <= i < |people| ==>
      if people[i].id == personId
      then r[i].stars == people[i].stars + delta && r[i].lastStarDate == Some(when)
      else r[i] == people[i]
  {
    seq(|people|, i requires 0 <= i < |people| =>
      if people[i].id == personId
      then people[i].(stars := people[i].stars + delta, lastStarDate := Some(when))
      else people[i])
  }

  /**
   * `addStar`: always one new `add` entry at the end of the log, whether or
   * not anybody carries `personId`; each matching person gains one star and
   * `lastStarDate`, every other person is untouched.
   */
  function AddStarData(d: StarData, personId: string, reason: Option<string>, actionId: string, stampedAt: int, starredAt: int): (r: StarData)
    ensures r.actions == d.actions + [StarAction(actionId, personId, Add, stampedAt, reason)]
    ensures |r.people| == |d.people|
    ensures forall i :: 0 <= i < |d.people| && d.people[i].id != personId ==> r.people[i] == d.people[i]
    ensures forall i :: 0 <= i < |d.people| && d.people[i].id == personId ==>
      && r.people[i].stars == d.people[i].stars + 1
      && r.people[i].lastStarDate == Some(starredAt)
      && r.people[i].(stars := 0, lastStarDate := None) == d.people[i].(stars := 0, lastStarDate := None)
  {
    StarData(AdjustStars(d.people, personId, 1, starredAt),
             d.actions + [StarAction(actionId, personId, Add, stampedAt, reason)])
  }

  /** The person lookup of `removeStar`, as the index of the first person with the id. */
  function FindIndex(people: seq<Person>, personId: string): (r: Option<nat>)
    ensures r.Some? ==> r.value < |people| && people[r.value].id == personId
    ensures r.Some? ==> forall j :: 0 <= j < r.value ==> people[j].id != personId
    ensures r.None? <==> personId !in PersonIds(people)
  {
    if people == [] then None
    else if people[0].id == personId then Some(0)
    else match FindIndex(people[1..], personId)
      case None =>
        assert forall j :: 1 <= j < |people| ==> people[j] == people[1..][j - 1];
        None
      case Some(k) =>
        assert people[1..][k] == people[k + 1];
        Some(k + 1)
  }

  /** The guard of `removeStar`: the first person with the id exists and has a star to lose. */
  predicate CanRemoveStar(people: seq<Person>, personId: string)
    ensures CanRemoveStar(people, personId) ==> personId in PersonIds(people)
    ensures CanRemoveStar(people, personId) <==>
      exists k :: 0 <= k < |people| && people[k].id == personId && people[k].stars > 0
        && forall j :: 0 <= j < k ==> people[j].id != personId
  {
    match FindIndex(people, personId)
    case None => false
    case Some(k) => people[k].stars > 0
  }

  /**
   * `removeStar`: unchanged when nobody carries `personId` or the first
   * match has no stars; otherwise one new `remove` entry at the end of the
   * log and one star less for each matching person.
   */
  function RemoveStarData(d: StarData, personId: string, reason: Option<string>, actionId: string, stampedAt: int, starredAt: int): (r: StarData)
    ensures !CanRemoveStar(d.people, personId) ==> r == d
    ensures CanRemoveStar(d.people, personId) ==>
      && r.actions == d.actions + [StarAction(actionId, personId, Remove, stampedAt, reason)]
      && |r.people| == |d.people|
      && (forall i :: 0 <= i < |d.people| && d.people[i].id != personId ==> r.people[i] == d.people[i])
      && (forall i :: 0 <= i < |d.people| && d.people[i].id == personId ==>
            && r.people[i].stars == d.people[i].stars - 1
            && r.people[i].lastStarDate == Some(starredAt)
            && r.people[i].(stars := 0, lastStarDate := None) == d.people[i].(stars := 0, lastStarDate := None))
  {
    if !CanRemoveStar(d.people, personId) then d
    else StarData(AdjustStars(d.people, personId, -1, starredAt),
                  d.actions + [StarAction(actionId, personId, Remove, stampedAt, reason)])
  }

  /** A revocation is recorded exactly when the guard holds. */
  lemma RemoveStarChangesIffAllowed(d: StarData, personId: string, reason: Option<string>, actionId: string, stampedAt: int, starredAt: int)
    ensures RemoveStarData(d, personId, reason, actionId, stampedAt, starredAt) != d <==> CanRemoveStar(d.people, personId)
  {
    if CanRemoveStar(d.people, personId) {
      assert |RemoveStarData(d, personId, reason, actionId, stampedAt, starredAt).actions| == |d.actions| + 1;
    }
  }

  lemma AddStarKeepsInvariant(d: StarData, personId: string, reason: Option<string>, actionId: string, stampedAt: int, starredAt: int)
    requires Invariant(d)
    ensures Invariant(AddStarData(d, personId, reason, actionId, stampedAt, starredAt))
  {
  }

  /** With unique ids only the first match exists, so its positive counter stays non-negative. */
  lemma RemoveStarKeepsInvariant(d: StarData, personId: string, reason: Option<string>, actionId: string, stampedAt: int, starredAt: int)
    requires Invariant(d)
    ensures Invariant(RemoveStarData(d, personId, reason, actionId, stampedAt, starredAt))
  {
    var r := RemoveStarData(d, personId, reason, actionId, stampedAt, starredAt);
    if CanRemoveStar(d.people, personId) {
      var k := FindIndex(d.people, personId).value;
      forall i | 0 <= i < |r.people| ensures r.people[i].stars >= 0 {
        assert d.people[i].id == personId ==> i == k;
      }
    }
  }

  lemma AddStarKeepsBalanced(d: StarData, personId: string, reason: Option<string>, actionId: string, stampedAt: int, starredAt: int)
    requires Balanced(d)
    ensures Balanced(AddStarData(d, personId, reason, actionId, stampedAt, starredAt))
  {
    var r := AddStarData(d, personId, reason, actionId, stampedAt, starredAt);
    var a := StarAction(actionId, personId, Add, stampedAt, reason);
    forall i | 0 <= i < |r.people| ensures r.people[i].stars == Balance(r.actions, r.people[i].id) {
      CountAppend(d.actions, a, d.people[i].id, Add);
      CountAppend(d.actions, a, d.people[i].id, Remove);
    }
  }

  lemma RemoveStarKeepsBalanced(d: StarData, personId: string, reason: Option<string>, actionId: string, stampedAt: int, starredAt: int)
    requires Balanced(d)
    ensures Balanced(RemoveStarData(d, personId, reason, actionId, stampedAt, starredAt))
  {
    var r := RemoveStarData(d, personId, reason, actionId, stampedAt, starredAt);
    if CanRemoveStar(d.people, personId) {
      var a := StarAction(actionId, personId, Remove, stampedAt, reason);
      forall i | 0 <= i < |r.people| ensures r.people[i].stars == Balance(r.actions, r.people[i].id) {
        CountAppend(d.actions, a, d.people[i].id, Add);
        CountAppend(d.actions, a, d.people[i].id, Remove);
      }
    }
  }

  /**
   * `addStar` does not look the person up: granting a star to an id nobody
   * carries leaves an entry that refers to no one.
   */
  lemma AddStarToAbsentDangles(d: StarData, personId: string, reason: Option<string>, actionId: string, stampedAt: int, starredAt: int)
    requires personId !in PersonIds(d.people)
    ensures var r := AddStarData(d, personId, reason, actionId, stampedAt, starredAt);
      r.people == d.people && !NoDangling(r)
  {
    var r := AddStarData(d, personId, reason, actionId, stampedAt, starredAt);
    assert r.actions[|d.actions|].personId == personId;
    assert personId in ReferencedIds(r.actions);
    assert PersonIds(r.people) == PersonIds(d.people);
  }

  /** Changing counters renames nobody. */
  lemma AdjustStarsKeepsIds(people: seq<Person>, personId: string, delta: int, when: int)
    ensures PersonIds(AdjustStars(people, personId, delta, when)) == PersonIds(people)
  {
    var r := AdjustStars(people, personId, delta, when);
    assert forall i :: 0 <= i < |people| ==> r[i].id == people[i].id;
  }

  /** The ids an extended log refers to: the old ones and the new entry's. */
  lemma ReferencedIdsAppend(actions: seq<StarAction>, a: StarAction)
    ensures ReferencedIds(actions + [a]) == ReferencedIds(actions) + {a.personId}
  {
    var r := actions + [a];
    assert r[|actions|] == a;
    assert forall i :: 0 <= i < |actions| ==> r[i] == actions[i];
  }

  /** A grant to a present person names that person, so no entry dangles. */
  lemma AddStarToPresentKeepsNoDangling(d: StarData, personId: string, reason: Option<string>, actionId: string, stampedAt: int, starredAt: int)
    requires NoDangling(d) && personId in PersonIds(d.people)
    ensures NoDangling(AddStarData(d, personId, reason, actionId, stampedAt, starredAt))
  {
    AdjustStarsKeepsIds(d.people, personId, 1, starredAt);
    ReferencedIdsAppend(d.actions, StarAction(actionId, personId, Add, stampedAt, reason));
  }

  /** A revocation only happens for a present person, so no entry dangles. */
  lemma RemoveStarKeepsNoDangling(d: StarData, personId: string, reason: Option<string>, actionId: string, stampedAt: int, starredAt: int)
    requires NoDangling(d)
    ensures NoDangling(RemoveStarData(d, personId, reason, actionId, stampedAt, starredAt))
  {
    if CanRemoveStar(d.people, personId) {
      assert personId in PersonIds(d.people);
      AdjustStarsKeepsIds(d.people, personId, -1, starredAt);
      ReferencedIdsAppend(d.actions, StarAction(actionId, personId, Remove, stampedAt, reason));
    }
  }
}
