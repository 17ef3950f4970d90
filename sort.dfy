/**
 * The sorted view `getSortedPeople` returns: a copy of the people ordered by
 * the hook's comparator over one of four keys, in either direction.
 */
module StarSort {
  import opened Types

  /** The value the comparator reads off a person: a string or a number. */
  datatype SortKey = Text(s: string) | Number(n: int)

  /** Lower-cases the ASCII letters. */
  function LowerChar(c: char): char {
    if 'A' <= c <= 'Z' then (c as int + 32) as char else c
  }

  function LowerCase(s: string): (r: string)
    ensures |r| == |s| && forall i :: 0 <= i < |s| ==> r[i] == LowerChar(s[i])
  {
    seq(|s|, i requires 0 <= i < |s| => LowerChar(s[i]))
  }

  /** The lexicographic `<` of two strings, as JavaScript compares them. */
  predicate StrLess(a: string, b: string) {
    if a == [] then b != []
    else if b == [] then false
    else if a[0] != b[0] then a[0] < b[0]
    else StrLess(a[1..], b[1..])
  }

  lemma {:induction false} StrLessIrreflexive(a: string)
    ensures !StrLess(a, a)
  {
    if a != [] {
      StrLessIrreflexive(a[1..]);
    }
  }

  lemma {:induction false} StrLessTransitive(a: string, b: string, c: string)
    requires StrLess(a, b) && StrLess(b, c)
    ensures StrLess(a, c)
  {
    if a != [] && b != [] && c != [] && a[0] == b[0] && b[0] == c[0] {
      StrLessTransitive(a[1..], b[1..], c[1..]);
    }
  }

  /** Of two different strings one always precedes the other. */
  lemma {:induction false} StrLessTotal(a: string, b: string)
    ensures a == b || StrLess(a, b) || StrLess(b, a)
  {
    if a != [] && b != [] && a[0] == b[0] {
      StrLessTotal(a[1..], b[1..]);
      if a[1..] == b[1..] {
        assert a == [a[0]] + a[1..] && b == [b[0]] + b[1..];
      }
    }
  }

  /** The comparator's key: lower-cased name, stars, or a date in ms with a missing date read as 0. */
  function Key(p: Person, sortBy: SortBy): (r: SortKey)
    ensures r.Text? <==> sortBy == Name
    ensures sortBy == LastStarDate && p.lastStarDate.None? ==> r == Number(0)
  {
    match sortBy
    case Name => Text(LowerCase(p.name))
    case Stars => Number(p.stars)
    case DateAdded => Number(p.dateAdded)
    case LastStarDate =>
      Number(match p.lastStarDate
             case Some(t) => t
             case None => 0)
  }

  /** JavaScript's `<` on two keys of the same kind. */
  predicate KeyLess(x: SortKey, y: SortKey) {
    match (x, y)
    case (Text(a), Text(b)) => StrLess(a, b)
    case (Number(m), Number(n)) => m < n
    case _ => false
  }

  /** The comparator passed to `sort`: negative when `a` goes first, positive when `b` does. */
  function Compare(sortBy: SortBy, order: SortOrder, a: Person, b: Person): (r: int)
    ensures -1 <= r <= 1
    ensures r == 0 <==> Key(a, sortBy) == Key(b, sortBy)
    ensures r < 0 <==> if order == Asc then KeyLess(Key(a, sortBy), Key(b, sortBy)) else KeyLess(Key(b, sortBy), Key(a, sortBy))
  {
    var x, y := Key(a, sortBy), Key(b, sortBy);
    KeyLessStrictTotal(x, y, x);
    if KeyLess(x, y) then (if order == Asc then -1 else 1)
    else if KeyLess(y, x) then (if order == Asc then 1 else -1)
    else 0
  }

  /** `a` may stand before `b` in the sorted view. */
  predicate Precedes(sortBy: SortBy, order: SortOrder, a: Person, b: Person) {
    Compare(sortBy, order, a, b) <= 0
  }

  predicate Sorted(sortBy: SortBy, order: SortOrder, s: seq<Person>) {
    forall i, j :: 0 <= i < j < |s| ==> Precedes(sortBy, order, s[i], s[j])
  }

  /** The keys of one sort form a strict total order. */
  lemma KeyLessStrictTotal(x: SortKey, y: SortKey, z: SortKey)
    requires x.Text? == y.Text? == z.Text?
    ensures !KeyLess(x, x)
    ensures KeyLess(x, y) ==> !KeyLess(y, x)
    ensures KeyLess(x, y) && KeyLess(y, z) ==> KeyLess(x, z)
    ensures x == y || KeyLess(x, y) || KeyLess(y, x)
  {
    if x.Text? {
      StrLessIrreflexive(x.s);
      StrLessTotal(x.s, y.s);
      if StrLess(x.s, y.s) && StrLess(y.s, x.s) {
        StrLessTransitive(x.s, y.s, x.s);
      }
      if StrLess(x.s, y.s) && StrLess(y.s, z.s) {
        StrLessTransitive(x.s, y.s, z.s);
      }
    }
  }

  /** Swapping the two people negates the comparator's answer. */
  lemma CompareAntisymmetric(sortBy: SortBy, order: SortOrder, a: Person, b: Person)
    ensures Compare(sortBy, order, a, b) == -Compare(sortBy, order, b, a)
  {
    KeyLessStrictTotal(Key(a, sortBy), Key(b, sortBy), Key(a, sortBy));
  }

  lemma PrecedesTotal(sortBy: SortBy, order: SortOrder, a: Person, b: Person)
    ensures Precedes(sortBy, order, a, b) || Precedes(sortBy, order, b, a)
  {
    KeyLessStrictTotal(Key(a, sortBy), Key(b, sortBy), Key(a, sortBy));
  }

  lemma PrecedesTransitive(sortBy: SortBy, order: SortOrder, a: Person, b: Person, c: Person)
    requires Precedes(sortBy, order, a, b) && Precedes(sortBy, order, b, c)
    ensures Precedes(sortBy, order, a, c)
  {
    var x, y, z := Key(a, sortBy), Key(b, sortBy), Key(c, sortBy);
    KeyLessStrictTotal(x, y, z);
    KeyLessStrictTotal(y, z, x);
    KeyLessStrictTotal(z, x, y);
    KeyLessStrictTotal(x, z, y);
    KeyLessStrictTotal(z, y, x);
    KeyLessStrictTotal(y, x, z);
  }

  /** Puts `x` before the first element it may precede. */
  function Insert(sortBy: SortBy, order: SortOrder, x: Person, s: seq<Person>): (r: seq<Person>)
    requires Sorted(sortBy, order, s)
    ensures multiset(r) == multiset(s) + multiset{x}
    ensures Sorted(sortBy, order, r)
  {
    if s == [] then [x]
    else if Precedes(sortBy, order, x, s[0]) then
      PrecedesAllOfSorted(sortBy, order, x, s);
      SortedCons(sortBy, order, x, s);
      [x] + s
    else
      assert s == [s[0]] + s[1..];
      PrecedesTotal(sortBy, order, x, s[0]);
      var t := Insert(sortBy, order, x, s[1..]);
      PrecedesAllAfterInsert(sortBy, order, s[0], x, s[1..], t);
      SortedCons(sortBy, order, s[0], t);
      [s[0]] + t
  }

  /** A person who may precede every element of a sorted list may head it. */
  lemma SortedCons(sortBy: SortBy, order: SortOrder, y: Person, t: seq<Person>)
    requires Sorted(sortBy, order, t)
    requires forall j :: 0 <= j < |t| ==> Precedes(sortBy, order, y, t[j])
    ensures Sorted(sortBy, order, [y] + t)
  {
    var r := [y] + t;
    forall i, j | 0 <= i < j < |r| ensures Precedes(sortBy, order, r[i], r[j]) {
      assert r[j] == t[j - 1];
      if i > 0 {
        assert r[i] == t[i - 1];
      }
    }
  }

  /** Whatever may precede the head of a sorted list may precede all of it. */
  lemma PrecedesAllOfSorted(sortBy: SortBy, order: SortOrder, x: Person, s: seq<Person>)
    requires Sorted(sortBy, order, s) && s != [] && Precedes(sortBy, order, x, s[0])
    ensures forall j :: 0 <= j < |s| ==> Precedes(sortBy, order, x, s[j])
  {
    forall j | 0 < j < |s| ensures Precedes(sortBy, order, x, s[j]) {
      PrecedesTransitive(sortBy, order, x, s[0], s[j]);
    }
  }

  /**
   * When `y` may precede `x` and every element of `s`, it may precede every
   * element of any arrangement of `s` with `x` added.
   */
  lemma PrecedesAllAfterInsert(sortBy: SortBy, order: SortOrder, y: Person, x: Person, s: seq<Person>, t: seq<Person>)
    requires multiset(t) == multiset(s) + multiset{x}
    requires Precedes(sortBy, order, y, x)
    requires forall j :: 0 <= j < |s| ==> Precedes(sortBy, order, y, s[j])
    ensures forall j :: 0 <= j < |t| ==> Precedes(sortBy, order, y, t[j])
  {
    forall j | 0 <= j < |t| ensures Precedes(sortBy, order, y, t[j]) {
      assert t[j] in multiset(t);
      if t[j] != x {
        assert t[j] in multiset(s);
        var k :| 0 <= k < |s| && s[k] == t[j];
      }
    }
  }

  /**
   * The sorted copy of the people: a fresh sequence holding the same people,
   * each pair in comparator order.
   */
  function SortPeople(people: seq<Person>, sortBy: SortBy, order: SortOrder): (r: seq<Person>)
    ensures multiset(r) == multiset(people)
    ensures Sorted(sortBy, order, r)
  {
    if people == [] then []
    else
      assert people == [people[0]] + people[1..];
      Insert(sortBy, order, people[0], SortPeople(people[1..], sortBy, order))
  }

  /**
   * In ascending order no key is followed by a smaller one; in descending
   * order no key is followed by a larger one.
   */
  lemma SortedByKey(people: seq<Person>, sortBy: SortBy, order: SortOrder)
    ensures var r := SortPeople(people, sortBy, order);
      && |r| == |people|
      && (order == Asc ==> forall i, j :: 0 <= i < j < |r| ==> !KeyLess(Key(r[j], sortBy), Key(r[i], sortBy)))
      && (order == Desc ==> forall i, j :: 0 <= i < j < |r| ==> !KeyLess(Key(r[i], sortBy), Key(r[j], sortBy)))
  {
    var r := SortPeople(people, sortBy, order);
    assert |r| == |multiset(r)| == |multiset(people)| == |people|;
    forall i, j | 0 <= i < j < |r|
      ensures order == Asc ==> !KeyLess(Key(r[j], sortBy), Key(r[i], sortBy))
      ensures order == Desc ==> !KeyLess(Key(r[i], sortBy), Key(r[j], sortBy))
    {
      assert Precedes(sortBy, order, r[i], r[j]);
      KeyLessStrictTotal(Key(r[i], sortBy), Key(r[j], sortBy), Key(r[i], sortBy));
    }
  }

  /** Sorting by stars, descending, puts the counters in non-increasing order. */
  lemma SortedByStarsDescending(people: seq<Person>)
    ensures var r := SortPeople(people, Stars, Desc);
      forall i, j :: 0 <= i < j < |r| ==> r[i].stars >= r[j].stars
  {
    SortedByKey(people, Stars, Desc);
  }

  /** Sorting by last star date, ascending: the dates, a missing one read as 0, never decrease. */
  lemma SortedByLastStarAscending(people: seq<Person>)
    ensures var r := SortPeople(people, LastStarDate, Asc);
      forall i, j :: 0 <= i < j < |r| ==>
        Key(r[i], LastStarDate).n <= Key(r[j], LastStarDate).n
  {
    SortedByKey(people, LastStarDate, Asc);
  }
}
