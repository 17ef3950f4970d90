/**
 * The persisted mirror of the ledger under the key `star-tracker-data`.
 * JSON itself is abstracted: what `localStorage` holds is missing, does not
 * parse into the expected shape, or is a snapshot whose dates are text.
 * `new Date(text).getTime()` and `JSON.stringify`'s date text are the
 * parameters `parse` and `format`.
 */
module StarSnapshot {
  import opened Types
  import opened StarLedger

  datatype StoredPerson = StoredPerson(
    id: string,
    name: string,
    stars: int,
    dateAdded: string,
    lastStarDate: Option<string>)

  datatype StoredAction = StoredAction(
    id: string,
    personId: string,
    action: ActionKind,
    timestamp: string,
    reason: Option<string>)

  /**
   * What the load effect finds: nothing (or the empty string), text that
   * `JSON.parse` or the date mapping throws on, or a well-formed snapshot.
   */
  datatype Stored =
    | Missing
    | Malformed
    | Snapshot(people: seq<StoredPerson>, actions: seq<StoredAction>)

  /** Revives one person: `dateAdded` is parsed; an absent or empty `lastStarDate` becomes absent. */
  function RevivePerson(p: StoredPerson, parse: string -> int): (r: Person)
    ensures r.id == p.id && r.name == p.name && r.stars == p.stars
    ensures r.dateAdded == parse(p.dateAdded)
    ensures r.lastStarDate.None? <==> (p.lastStarDate.None? || p.lastStarDate.value == "")
    ensures r.lastStarDate.Some? ==> r.lastStarDate.value == parse(p.lastStarDate.value)
  {
    Person(p.id, p.name, p.stars, parse(p.dateAdded),
           if p.lastStarDate.Some? && p.lastStarDate.value != "" then Some(parse(p.lastStarDate.value)) else None)
  }

  function ReviveAction(a: StoredAction, parse: string -> int): (r: StarAction)
    ensures r.id == a.id && r.personId == a.personId && r.action == a.action && r.reason == a.reason
    ensures r.timestamp == parse(a.timestamp)
  {
    StarAction(a.id, a.personId, a.action, parse(a.timestamp), a.reason)
  }

  /**
   * The load effect: a snapshot replaces both collections one entry for one
   * entry; a missing or malformed one leaves the state as it was.
   */
  function Loaded(stored: Stored, current: StarData, parse: string -> int): (r: StarData)
    ensures !stored.Snapshot? ==> r == current
    ensures stored.Snapshot? ==>
      && |r.people| == |stored.people| && |r.actions| == |stored.actions|
      && (forall i :: 0 <= i < |r.people| ==> r.people[i] == RevivePerson(stored.people[i], parse))
      && (forall i :: 0 <= i < |r.actions| ==> r.actions[i] == ReviveAction(stored.actions[i], parse))
  {
    match stored
    case Snapshot(ps, acts) =>
      StarData(seq(|ps|, i requires 0 <= i < |ps| => RevivePerson(ps[i], parse)),
               seq(|acts|, i requires 0 <= i < |acts| => ReviveAction(acts[i], parse)))
    case _ => current
  }

  /** `JSON.stringify` of a person: dates become text, an absent `lastStarDate` is left out. */
  function StorePerson(p: Person, format: int -> string): (r: StoredPerson)
    ensures r.id == p.id && r.name == p.name && r.stars == p.stars
    ensures r.dateAdded == format(p.dateAdded)
    ensures r.lastStarDate.Some? <==> p.lastStarDate.Some?
    ensures r.lastStarDate.Some? ==> r.lastStarDate.value == format(p.lastStarDate.value)
  {
    StoredPerson(p.id, p.name, p.stars, format(p.dateAdded),
                 match p.lastStarDate
                 case Some(t) => Some(format(t))
                 case None => None)
  }

  function StoreAction(a: StarAction, format: int -> string): (r: StoredAction)
    ensures r.id == a.id && r.personId == a.personId && r.action == a.action && r.reason == a.reason
    ensures r.timestamp == format(a.timestamp)
  {
    StoredAction(a.id, a.personId, a.action, format(a.timestamp), a.reason)
  }

  /** The save effect's snapshot: every date as text, an absent field left out. */
  function Save(d: StarData, format: int -> string): (s: Stored)
    ensures s.Snapshot? && |s.people| == |d.people| && |s.actions| == |d.actions|
  {
    Snapshot(seq(|d.people|, i requires 0 <= i < |d.people| => StorePerson(d.people[i], format)),
             seq(|d.actions|, i requires 0 <= i < |d.actions| => StoreAction(d.actions[i], format)))
  }

  /**
   * Loading what was saved gives the saved state back, provided parsing the
   * date text recovers the instant and that text is never empty.
   */
  lemma SaveLoadRoundTrip(d: StarData, current: StarData, format: int -> string, parse: string -> int)
    requires forall t :: format(t) != "" && parse(format(t)) == t
    ensures Loaded(Save(d, format), current, parse) == d
  {
    var r := Loaded(Save(d, format), current, parse);
    assert r.people == d.people by {
      forall i | 0 <= i < |d.people| ensures r.people[i] == d.people[i] {
        var p := d.people[i];
        if p.lastStarDate.Some? {
          var t := p.lastStarDate.value;
          assert format(t) != "" && parse(format(t)) == t;
        }
      }
    }
    assert r.actions == d.actions;
  }

  /**
   * A snapshot the save effect wrote from a consistent ledger loads back
   * consistent: unique ids, no negative count, balanced counts, no dangling
   * entry.
   */
  lemma LoadSavedKeepsInvariants(d: StarData, current: StarData, format: int -> string, parse: string -> int)
    requires forall t :: format(t) != "" && parse(format(t)) == t
    requires Invariant(d) && Balanced(d) && NoDangling(d)
    ensures var r := Loaded(Save(d, format), current, parse);
      Invariant(r) && Balanced(r) && NoDangling(r)
  {
    SaveLoadRoundTrip(d, current, format, parse);
  }

  /**
   * The load effect checks nothing: a snapshot with a repeated id and a
   * negative count is taken as it is.
   */
  lemma LoadDoesNotValidate(parse: string -> int)
    ensures var p := StoredPerson("a", "A", -1, "", None);
      !Invariant(Loaded(Snapshot([p, p], []), EmptyData, parse))
  {
    var p := StoredPerson("a", "A", -1, "", None);
    var r := Loaded(Snapshot([p, p], []), EmptyData, parse);
    assert r.people[0].id == r.people[1].id;
  }
}
