/**
 * The aggregates the summary view derives from the people and the audit
 * log on every render, and how the ledger operations move them.
 */
module StarStats {
  import opened Types
  import opened StarLedger
  import StarSort
  import JsString

  /** Milliseconds in a day, `1000 * 60 * 60 * 24`. */
  const DayMs: nat := 1000 * 60 * 60 * 24

  /** The window of "Actions This Week", in days. */
  const RecentDays: nat := 7

  // ---------------------------------------------------------------------
  // Total people and total stars

  function TotalPeople(people: seq<Person>): nat {
    |people|
  }

  /** The sum of all star counts, folded from the left starting at 0. */
  function TotalStars(people: seq<Person>): int {
    if people == [] then 0 else TotalStars(people[..|people| - 1]) + people[|people| - 1].stars
  }

  lemma {:induction false} TotalStarsNonNegative(people: seq<Person>)
    requires forall i :: 0 <= i < |people| ==> people[i].stars >= 0
    ensures TotalStars(people) >= 0
  {
    if people != [] {
      TotalStarsNonNegative(people[..|people| - 1]);
    }
  }

  lemma {:induction false} TotalStarsAppend(a: seq<Person>, b: seq<Person>)
    ensures TotalStars(a + b) == TotalStars(a) + TotalStars(b)
    decreases |b|
  {
    if b == [] {
      assert a + b == a;
    } else {
      assert (a + b)[..|a + b| - 1] == a + b[..|b| - 1];
      TotalStarsAppend(a, b[..|b| - 1]);
    }
  }

  /** The people and star totals do not depend on the order of the list. */
  lemma {:induction false} TotalsUnderPermutation(a: seq<Person>, b: seq<Person>)
    requires multiset(a) == multiset(b)
    ensures TotalPeople(a) == TotalPeople(b)
    ensures TotalStars(a) == TotalStars(b)
    decreases |a|
  {
    assert |a| == |multiset(a)| == |multiset(b)| == |b|;
    if a != [] {
      var x, a' := a[|a| - 1], a[..|a| - 1];
      assert a == a' + [x];
      assert x in multiset(b);
      var k :| 0 <= k < |b| && b[k] == x;
      var b' := b[..k] + b[k + 1..];
      assert b == b[..k] + [x] + b[k + 1..];
      assert multiset(b') == multiset(b) - multiset{x};
      assert multiset(a') == multiset(a) - multiset{x};
      TotalsUnderPermutation(a', b');
      TotalStarsAppend(b[..k], [x]);
      TotalStarsAppend(b[..k] + [x], b[k + 1..]);
      TotalStarsAppend(b[..k], b[k + 1..]);
    }
  }

  /** How many people carry `personId`. */
  function Matching(people: seq<Person>, personId: string): nat {
    if people == [] then 0
    else Matching(people[..|people| - 1], personId) + (if people[|people| - 1].id == personId then 1 else 0)
  }

  lemma {:induction false} MatchingUnique(people: seq<Person>, personId: string)
    requires UniqueIds(people)
    ensures Matching(people, personId) == if personId in PersonIds(people) then 1 else 0
  {
    if people != [] {
      var init, last := people[..|people| - 1], people[|people| - 1];
      MatchingUnique(init, personId);
      assert PersonIds(people) == PersonIds(init) + {last.id} by {
        assert forall i :: 0 <= i < |init| ==> init[i] == people[i];
      }
      forall k | 0 <= k < |init| ensures init[k].id != last.id {
        assert people[k] == init[k];
      }
    }
  }

  /** Adjusting a list and then dropping its last person is adjusting the shorter list. */
  lemma AdjustStarsPrefix(people: seq<Person>, personId: string, delta: int, when: int)
    requires people != []
    ensures AdjustStars(people, personId, delta, when)[..|people| - 1]
         == AdjustStars(people[..|people| - 1], personId, delta, when)
  {
    var n := |people| - 1;
    var r, q := AdjustStars(people, personId, delta, when), AdjustStars(people[..n], personId, delta, when);
    forall i | 0 <= i < n ensures r[i] == q[i] {
      assert people[..n][i] == people[i];
    }
  }

  lemma {:induction false} TotalStarsOfAdjusted(people: seq<Person>, personId: string, delta: int, when: int)
    ensures TotalStars(AdjustStars(people, personId, delta, when))
         == TotalStars(people) + delta * Matching(people, personId)
  {
    if people != [] {
      var n := |people| - 1;
      var init, r := people[..n], AdjustStars(people, personId, delta, when);
      AdjustStarsPrefix(people, personId, delta, when);
      TotalStarsOfAdjusted(init, personId, delta, when);
      var m, hit := Matching(init, personId), if people[n].id == personId then 1 else 0;
      assert Matching(people, personId) == m + hit;
      assert r[n].stars == people[n].stars + delta * hit;
      MulAddOne(delta, m, hit);
    }
  }

  lemma MulAddOne(delta: int, m: int, hit: int)
    ensures delta * (m + hit) == delta * m + delta * hit
  {
  }

  /** A grant raises the total by one when its person is present, and by nothing otherwise. */
  lemma TotalStarsAfterAddStar(d: StarData, personId: string, reason: Option<string>, actionId: string, stampedAt: int, starredAt: int)
    requires UniqueIds(d.people)
    ensures TotalStars(AddStarData(d, personId, reason, actionId, stampedAt, starredAt).people)
         == TotalStars(d.people) + (if personId in PersonIds(d.people) then 1 else 0)
  {
    TotalStarsOfAdjusted(d.people, personId, 1, starredAt);
    MatchingUnique(d.people, personId);
  }

  /** A revocation lowers the total by one exactly when it is allowed. */
  lemma TotalStarsAfterRemoveStar(d: StarData, personId: string, reason: Option<string>, actionId: string, stampedAt: int, starredAt: int)
    requires UniqueIds(d.people)
    ensures TotalStars(RemoveStarData(d, personId, reason, actionId, stampedAt, starredAt).people)
         == TotalStars(d.people) - (if CanRemoveStar(d.people, personId) then 1 else 0)
  {
    if CanRemoveStar(d.people, personId) {
      TotalStarsOfAdjusted(d.people, personId, -1, starredAt);
      MatchingUnique(d.people, personId);
    }
  }

  lemma {:induction false} FilterOutLength(people: seq<Person>, personId: string)
    ensures |Filter(people, (p: Person) => p.id != personId)| == |people| - Matching(people, personId)
  {
    if people != [] {
      FilterOutLength(people[..|people| - 1], personId);
    }
  }

  /** Adding a person counts one more; removing a present person (ids unique) counts one fewer. */
  lemma TotalPeopleAfterPersonChanges(d: StarData, id: string, name: string, now: int)
    ensures TotalPeople(AddPersonData(d, id, name, now).people) == TotalPeople(d.people) + 1
    ensures UniqueIds(d.people) ==>
      TotalPeople(RemovePersonData(d, id).people) == TotalPeople(d.people) - (if id in PersonIds(d.people) then 1 else 0)
  {
    FilterOutLength(d.people, id);
    if UniqueIds(d.people) {
      MatchingUnique(d.people, id);
    }
  }

  // ---------------------------------------------------------------------
  // Total stars against the audit log

  /** Entries of `kind` in the whole log. */
  function KindTotal(actions: seq<StarAction>, kind: ActionKind): nat {
    if actions == [] then 0
    else KindTotal(actions[..|actions| - 1], kind) + (if actions[|actions| - 1].action == kind then 1 else 0)
  }

  /** The log entries of `kind`, counted person by person. */
  function PerPersonCount(people: seq<Person>, actions: seq<StarAction>, kind: ActionKind): nat {
    if people == [] then 0
    else PerPersonCount(people[..|people| - 1], actions, kind) + Count(actions, people[|people| - 1].id, kind)
  }

  lemma {:induction false} PerPersonCountAppend(people: seq<Person>, actions: seq<StarAction>, a: StarAction, kind: ActionKind)
    ensures PerPersonCount(people, actions + [a], kind)
         == PerPersonCount(people, actions, kind) + (if a.action == kind then Matching(people, a.personId) else 0)
  {
    if people != [] {
      var init, last := people[..|people| - 1], people[|people| - 1];
      PerPersonCountAppend(init, actions, a, kind);
      CountAppend(actions, a, last.id, kind);
    }
  }

  lemma {:induction false} PerPersonCountOfEmptyLog(people: seq<Person>, kind: ActionKind)
    ensures PerPersonCount(people, [], kind) == 0
  {
    if people != [] {
      PerPersonCountOfEmptyLog(people[..|people| - 1], kind);
    }
  }

  lemma {:induction false} PerPersonCountIsKindTotal(people: seq<Person>, actions: seq<StarAction>, kind: ActionKind)
    requires UniqueIds(people) && ReferencedIds(actions) <= PersonIds(people)
    ensures PerPersonCount(people, actions, kind) == KindTotal(actions, kind)
  {
    if actions == [] {
      PerPersonCountOfEmptyLog(people, kind);
    } else {
      var init, a := actions[..|actions| - 1], actions[|actions| - 1];
      assert ReferencedIds(init) <= ReferencedIds(actions) by {
        forall x | x in ReferencedIds(init) ensures x in ReferencedIds(actions) {
          var i :| 0 <= i < |init| && init[i].personId == x;
          assert actions[i].personId == x;
        }
      }
      PerPersonCountIsKindTotal(people, init, kind);
      assert actions == init + [a];
      PerPersonCountAppend(people, init, a, kind);
      assert a.personId in ReferencedIds(actions);
      MatchingUnique(people, a.personId);
    }
  }

  lemma {:induction false} TotalStarsIsPerPersonBalance(people: seq<Person>, actions: seq<StarAction>)
    requires forall i :: 0 <= i < |people| ==> people[i].stars == Balance(actions, people[i].id)
    ensures TotalStars(people) == PerPersonCount(people, actions, Add) - PerPersonCount(people, actions, Remove)
  {
    if people != [] {
      TotalStarsIsPerPersonBalance(people[..|people| - 1], actions);
    }
  }

  /**
   * In a consistent ledger whose log names only present people, the total
   * star count is the number of grants minus the number of revocations.
   */
  lemma TotalStarsMatchesLog(d: StarData)
    requires Invariant(d) && Balanced(d) && NoDangling(d)
    ensures TotalStars(d.people) == KindTotal(d.actions, Add) - KindTotal(d.actions, Remove)
  {
    TotalStarsIsPerPersonBalance(d.people, d.actions);
    PerPersonCountIsKindTotal(d.people, d.actions, Add);
    PerPersonCountIsKindTotal(d.people, d.actions, Remove);
  }

  // ---------------------------------------------------------------------
  // Average stars

  /**
   * "Average Stars": `'0'` with nobody to average over, otherwise the text
   * `toFixed` gives for total stars over people (a parameter: floating point
   * division and rounding are not modelled).
   */
  function AverageStars(people: seq<Person>, toFixed: (int, nat) -> string): (r: string)
    ensures |people| == 0 ==> r == "0"
    ensures |people| > 0 ==> r == toFixed(TotalStars(people), |people|)
  {
    if TotalPeople(people) > 0 then toFixed(TotalStars(people), TotalPeople(people)) else "0"
  }

  // ---------------------------------------------------------------------
  // Top performer

  /** The count to beat: the current top's stars, or 0 while there is no top yet. */
  function Floor(people: seq<Person>, top: Option<nat>): int
    requires top.Some? ==> top.value < |people|
  {
    match top
    case None => 0
    case Some(k) => people[k].stars
  }

  /**
   * The `topPerformer` reduce, by position: a person replaces the current
   * top only with strictly more stars than it (or than 0 at first).
   */
  function TopIndex(people: seq<Person>): (r: Option<nat>)
    ensures r.None? <==> forall i :: 0 <= i < |people| ==> people[i].stars <= 0
    ensures r.Some? ==>
      && r.value < |people|
      && people[r.value].stars > 0
      && (forall j :: 0 <= j < |people| ==> people[j].stars <= people[r.value].stars)
      && (forall j :: 0 <= j < r.value ==> people[j].stars < people[r.value].stars)
  {
    if people == [] then None
    else
      var init := people[..|people| - 1];
      var top := TopIndex(init);
      assert forall j :: 0 <= j < |init| ==> init[j] == people[j];
      if people[|people| - 1].stars > Floor(init, top) then Some(|people| - 1) else top
  }

  /** The top performer: the first person with the most stars, and nobody when no one has a star. */
  function TopPerformer(people: seq<Person>): (r: Option<Person>)
    ensures r.None? <==> forall i :: 0 <= i < |people| ==> people[i].stars <= 0
    ensures r.Some? ==> r.value in people
    ensures r.Some? ==> r.value.stars > 0 && forall j :: 0 <= j < |people| ==> people[j].stars <= r.value.stars
  {
    match TopIndex(people)
    case None => None
    case Some(k) => Some(people[k])
  }

  /** Two lists holding the same people have a top performer alike, with the same count. */
  lemma TopStarsUnderPermutation(a: seq<Person>, b: seq<Person>)
    requires multiset(a) == multiset(b)
    ensures TopPerformer(a).Some? == TopPerformer(b).Some?
    ensures TopPerformer(a).Some? ==> TopPerformer(a).value.stars == TopPerformer(b).value.stars
  {
    forall p | p in a ensures p in b {
      assert p in multiset(a);
    }
    forall p | p in b ensures p in a {
      assert p in multiset(b);
    }
    if TopPerformer(a).Some? && TopPerformer(b).Some? {
      var t, u := TopPerformer(a).value, TopPerformer(b).value;
      var i :| 0 <= i < |b| && b[i] == t;
      var j :| 0 <= j < |a| && a[j] == u;
    }
  }

  /**
   * The panel is handed the sorted view of the people: sorting changes none
   * of the people count, the star total, the average and the top performer's count.
   */
  lemma PanelIgnoresSortOrder(people: seq<Person>, sortBy: SortBy, order: SortOrder, toFixed: (int, nat) -> string)
    ensures var v := StarSort.SortPeople(people, sortBy, order);
      && TotalPeople(v) == TotalPeople(people)
      && TotalStars(v) == TotalStars(people)
      && AverageStars(v, toFixed) == AverageStars(people, toFixed)
      && TopPerformer(v).Some? == TopPerformer(people).Some?
      && (TopPerformer(v).Some? ==> TopPerformer(v).value.stars == TopPerformer(people).value.stars)
  {
    var v := StarSort.SortPeople(people, sortBy, order);
    TotalsUnderPermutation(v, people);
    TopStarsUnderPermutation(v, people);
  }

  /** Of two people with the same positive count, the first one is the top. */
  lemma TopIndexOfTie(p: Person, q: Person)
    requires p.stars == q.stars > 0
    ensures TopIndex([p, q]) == Some(0)
  {
    assert [p, q][..1] == [p];
    assert [p][..0] == [];
    assert TopIndex([p]) == Some(0);
  }

  /**
   * Which person the banner names does depend on the order: on a tie the
   * first of the tied people in the list wins.
   */
  lemma TopPerformerDependsOnOrder()
    ensures var ada, bo := Person("a", "Ada", 3, 0, None), Person("b", "Bo", 3, 0, None);
      && TopPerformer([ada, bo]) == Some(ada)
      && TopPerformer([bo, ada]) == Some(bo)
  {
    var ada, bo := Person("a", "Ada", 3, 0, None), Person("b", "Bo", 3, 0, None);
    TopIndexOfTie(ada, bo);
    TopIndexOfTie(bo, ada);
  }

  /** The banner caption: the count, then "gold star", plural unless the count is one. */
  function StarCaption(stars: nat): (r: string)
    ensures |r| > |JsString.Decimal(stars)| && r[..|JsString.Decimal(stars)|] == JsString.Decimal(stars)
    ensures r[|r| - 1] == 's' <==> stars != 1
  {
    JsString.Decimal(stars) + " gold star" + (if stars != 1 then "s" else "")
  }

  /** The banner's glyph row: one star glyph per star, at most three. */
  function TrophyGlyphs(stars: nat): (r: string)
    ensures |r| == if stars < 3 then stars else 3
    ensures forall i :: 0 <= i < |r| ==> r[i] == StarGlyph
  {
    JsString.Repeat(StarGlyph, if stars < 3 then stars else 3)
  }

  /** The banner of a top performer shows between one and three glyphs. */
  lemma TopPerformerBanner(people: seq<Person>)
    requires TopPerformer(people).Some?
    ensures var n := TopPerformer(people).value.stars;
      n > 0 && 1 <= |TrophyGlyphs(n)| <= 3
  {
  }

  // ---------------------------------------------------------------------
  // Actions this week

  function Abs(x: int): (r: nat)
    ensures r >= x && r >= -x && (r == x || r == -x)
  {
    if x < 0 then -x else x
  }

  /** Division rounded up, for a non-negative `n` and a positive `d`. */
  function CeilDiv(n: nat, d: nat): (q: nat)
    requires d > 0
    ensures (q - 1) * d < n <= q * d || (n == 0 && q == 0)
  {
    (n + d - 1) / d
  }

  /** The filter of "Actions This Week": at most seven whole days away from now, past or future. */
  predicate IsRecent(a: StarAction, now: int) {
    CeilDiv(Abs(now - a.timestamp), DayMs) <= RecentDays
  }

  function RecentActions(actions: seq<StarAction>, now: int): (n: nat)
    ensures n <= |actions|
  {
    |Filter(actions, (a: StarAction) => IsRecent(a, now))|
  }

  /** Rounding the day count up makes the window exactly seven days of milliseconds, either side of now. */
  lemma RecentWindow(a: StarAction, now: int)
    ensures IsRecent(a, now) <==> Abs(now - a.timestamp) <= RecentDays * DayMs
  {
    var n := Abs(now - a.timestamp);
    var q := CeilDiv(n, DayMs);
    if q <= RecentDays {
      assert q * DayMs <= RecentDays * DayMs;
    } else {
      assert (q - 1) * DayMs >= RecentDays * DayMs;
    }
  }

  lemma {:induction false} FilterSameKeep<T(!new)>(s: seq<T>, f: T -> bool, g: T -> bool)
    requires forall x :: f(x) == g(x)
    ensures Filter(s, f) == Filter(s, g)
  {
    if s != [] {
      FilterSameKeep(s[..|s| - 1], f, g);
    }
  }

  /** The count of recent actions is the count of entries stamped within a week of now. */
  lemma RecentActionsWithinWeek(actions: seq<StarAction>, now: int)
    ensures RecentActions(actions, now)
         == |Filter(actions, (a: StarAction) => Abs(now - a.timestamp) <= RecentDays * DayMs)|
  {
    forall a: StarAction ensures IsRecent(a, now) == (Abs(now - a.timestamp) <= RecentDays * DayMs) {
      RecentWindow(a, now);
    }
    FilterSameKeep(actions, (a: StarAction) => IsRecent(a, now),
                   (a: StarAction) => Abs(now - a.timestamp) <= RecentDays * DayMs);
  }
}
