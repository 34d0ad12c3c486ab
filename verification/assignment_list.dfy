/** The list operations behind the assignment tracker: the new lists its
    handlers build, and the filtered, date-ordered view it renders. */
module AssignmentList {
  import opened Types

  /** The three filter tabs. */
  datatype Filter = Pending | Completed | All

  /** Whether tab `f` lists record `a`. */
  predicate Shows(f: Filter, a: Assignment) {
    match f
    case Pending => !a.completed
    case Completed => a.completed
    case All => true
  }

  /** The records tab `f` lists, in list order. */
  function Filtered(s: seq<Assignment>, f: Filter): (r: seq<Assignment>)
    ensures forall a :: a in r <==> a in s && Shows(f, a)
    ensures |r| <= |s|
  {
    if s == [] then []
    else (if Shows(f, s[0]) then [s[0]] else []) + Filtered(s[1..], f)
  }

  /** Tab `f` lists each record it shows as often as the list holds it. */
  lemma {:induction false} FilteredCounts(s: seq<Assignment>, f: Filter, a: Assignment)
    ensures multiset(Filtered(s, f))[a] == if Shows(f, a) then multiset(s)[a] else 0
  {
    if s != [] {
      var h := if Shows(f, s[0]) then [s[0]] else [];
      assert multiset(Filtered(s, f)) == multiset(h) + multiset(Filtered(s[1..], f));
      FilteredCounts(s[1..], f, a);
      assert s == [s[0]] + s[1..];
      assert multiset(s) == multiset{s[0]} + multiset(s[1..]);
    }
  }

  /** Filtering distributes over concatenation, so it keeps list order. */
  lemma {:induction false} FilteredAppend(s: seq<Assignment>, t: seq<Assignment>, f: Filter)
    ensures Filtered(s + t, f) == Filtered(s, f) + Filtered(t, f)
  {
    if s == [] {
      assert s + t == t;
    } else {
      assert (s + t)[1..] == s[1..] + t;
      FilteredAppend(s[1..], t, f);
    }
  }

  /** The "all" tab lists every record, in order. */
  lemma {:induction false} FilteredAll(s: seq<Assignment>)
    ensures Filtered(s, All) == s
  {
    if s != [] {
      FilteredAll(s[1..]);
    }
  }

  /** Pending and completed split the list: together they hold every record
      exactly as often as the list does. */
  lemma {:induction false} PendingCompletedPartition(s: seq<Assignment>)
    ensures multiset(Filtered(s, Pending)) + multiset(Filtered(s, Completed)) == multiset(s)
    ensures |Filtered(s, Pending)| + |Filtered(s, Completed)| == |s|
  {
    if s != [] {
      PendingCompletedPartition(s[1..]);
      assert s == [s[0]] + s[1..];
    }
  }

  /** A newly added (incomplete) record shows up last in the pending tab and
      leaves the completed tab as it was. */
  lemma {:induction false} AddedShowsAsPending(s: seq<Assignment>, a: Assignment)
    requires !a.completed
    ensures Filtered(s + [a], Pending) == Filtered(s, Pending) + [a]
    ensures Filtered(s + [a], Completed) == Filtered(s, Completed)
  {
    FilteredAppend(s, [a], Pending);
    FilteredAppend(s, [a], Completed);
  }

  function Flipped(a: Assignment): Assignment {
    a.(completed := !a.completed)
  }

  /** The list after toggling `id`: each record with that id has `completed`
      flipped and nothing else changed; all other records stay put. */
  function Toggled(s: seq<Assignment>, id: string): (r: seq<Assignment>)
    ensures |r| == |s|
    ensures forall i :: 0 <= i < |s| ==> r[i] == if s[i].id == id then Flipped(s[i]) else s[i]
  {
    if s == [] then []
    else [if s[0].id == id then Flipped(s[0]) else s[0]] + Toggled(s[1..], id)
  }

  /** Toggling the same id twice restores the list. */
  lemma {:induction false} ToggleTwice(s: seq<Assignment>, id: string)
    ensures Toggled(Toggled(s, id), id) == s
  {
  }

  /** Toggling an id no record carries changes nothing. */
  lemma {:induction false} ToggleUnknown(s: seq<Assignment>, id: string)
    requires forall a :: a in s ==> a.id != id
    ensures Toggled(s, id) == s
  {
  }

  /** The list after deleting `id`: exactly the records with another id remain. */
  function Without(s: seq<Assignment>, id: string): (r: seq<Assignment>)
    ensures forall a :: a in r <==> a in s && a.id != id
    ensures |r| <= |s|
  {
    if s == [] then []
    else (if s[0].id != id then [s[0]] else []) + Without(s[1..], id)
  }

  /** Each record with another id survives as often as the list held it. */
  lemma {:induction false} WithoutCounts(s: seq<Assignment>, id: string, a: Assignment)
    ensures multiset(Without(s, id))[a] == if a.id != id then multiset(s)[a] else 0
  {
    if s != [] {
      var h := if s[0].id != id then [s[0]] else [];
      assert multiset(Without(s, id)) == multiset(h) + multiset(Without(s[1..], id));
      WithoutCounts(s[1..], id, a);
      assert s == [s[0]] + s[1..];
      assert multiset(s) == multiset{s[0]} + multiset(s[1..]);
    }
  }

  /** Deleting distributes over concatenation, so the survivors keep their order. */
  lemma {:induction false} WithoutAppend(s: seq<Assignment>, t: seq<Assignment>, id: string)
    ensures Without(s + t, id) == Without(s, id) + Without(t, id)
  {
    if s == [] {
      assert s + t == t;
    } else {
      assert (s + t)[1..] == s[1..] + t;
      WithoutAppend(s[1..], t, id);
    }
  }

  /** Deleting an id no record carries changes nothing. */
  lemma {:induction false} WithoutUnknown(s: seq<Assignment>, id: string)
    requires forall a :: a in s ==> a.id != id
    ensures Without(s, id) == s
  {
    if s != [] {
      WithoutUnknown(s[1..], id);
    }
  }

  /** Deleting the same id twice is the same as deleting it once. */
  lemma {:induction false} WithoutTwice(s: seq<Assignment>, id: string)
    ensures Without(Without(s, id), id) == Without(s, id)
  {
    WithoutUnknown(Without(s, id), id);
  }

  /** Order of due dates: lexicographic on the text, which for the
      `yyyy-mm-dd` strings of a date input is chronological order. */
  predicate DueLeq(a: string, b: string) {
    a == [] || (b != [] && (a[0] < b[0] || (a[0] == b[0] && DueLeq(a[1..], b[1..]))))
  }

  lemma {:induction false} DueLeqReflexive(a: string)
    ensures DueLeq(a, a)
  {
    if a != [] {
      DueLeqReflexive(a[1..]);
    }
  }

  lemma {:induction false} DueLeqTotal(a: string, b: string)
    ensures DueLeq(a, b) || DueLeq(b, a)
  {
    if a != [] && b != [] && a[0] == b[0] {
      DueLeqTotal(a[1..], b[1..]);
    }
  }

  lemma {:induction false} DueLeqTransitive(a: string, b: string, c: string)
    requires DueLeq(a, b) && DueLeq(b, c)
    ensures DueLeq(a, c)
  {
    if a != [] && a[0] == b[0] && b[0] == c[0] {
      DueLeqTransitive(a[1..], b[1..], c[1..]);
    }
  }

  lemma {:induction false} DueLeqAntisymmetric(a: string, b: string)
    requires DueLeq(a, b) && DueLeq(b, a)
    ensures a == b
  {
    if a != [] {
      DueLeqAntisymmetric(a[1..], b[1..]);
      assert a == [a[0]] + a[1..];
      assert b == [b[0]] + b[1..];
    }
  }

  /** Ascending by due date. */
  predicate Sorted(s: seq<Assignment>) {
    forall i, j :: 0 <= i < j < |s| ==> DueLeq(s[i].dueDate, s[j].dueDate)
  }

  /** Places `x` before the first record due no earlier than it. */
  function Insert(x: Assignment, t: seq<Assignment>): (r: seq<Assignment>)
    ensures multiset(r) == multiset{x} + multiset(t)
    ensures |r| == |t| + 1
  {
    if t == [] then [x]
    else if DueLeq(x.dueDate, t[0].dueDate) then [x] + t
    else
      assert t == [t[0]] + t[1..];
      [t[0]] + Insert(x, t[1..])
  }

  /** The stable sort of the view: ascending by due date, ties in input order. */
  function SortByDue(s: seq<Assignment>): (r: seq<Assignment>)
    ensures multiset(r) == multiset(s)
    ensures |r| == |s|
  {
    if s == [] then []
    else
      assert s == [s[0]] + s[1..];
      Insert(s[0], SortByDue(s[1..]))
  }

  lemma {:induction false} InsertSorted(x: Assignment, t: seq<Assignment>)
    requires Sorted(t)
    ensures Sorted(Insert(x, t))
  {
    if t == [] {
    } else if DueLeq(x.dueDate, t[0].dueDate) {
      forall j | 0 <= j < |t|
        ensures DueLeq(x.dueDate, t[j].dueDate)
      {
        if j > 0 {
          DueLeqTransitive(x.dueDate, t[0].dueDate, t[j].dueDate);
        }
      }
    } else {
      var rest := Insert(x, t[1..]);
      InsertSorted(x, t[1..]);
      DueLeqTotal(x.dueDate, t[0].dueDate);
      forall j | 0 <= j < |rest|
        ensures DueLeq(t[0].dueDate, rest[j].dueDate)
      {
        assert rest[j] in multiset(rest);
        if rest[j] != x {
          assert rest[j] in multiset(t[1..]);
          var k :| 0 < k < |t| && t[k] == rest[j];
        }
      }
    }
  }

  lemma {:induction false} SortByDueSorted(s: seq<Assignment>)
    ensures Sorted(SortByDue(s))
  {
    if s != [] {
      SortByDueSorted(s[1..]);
      InsertSorted(s[0], SortByDue(s[1..]));
    }
  }

  /** The records due on `d`, in list order. */
  function DueOn(s: seq<Assignment>, d: string): seq<Assignment> {
    if s == [] then []
    else (if s[0].dueDate == d then [s[0]] else []) + DueOn(s[1..], d)
  }

  lemma {:induction false} DueOnCons(x: Assignment, t: seq<Assignment>, d: string)
    ensures DueOn([x] + t, d) == (if x.dueDate == d then [x] else []) + DueOn(t, d)
  {
    assert ([x] + t)[1..] == t;
  }

  /** Two records due on different dates may trade places without changing
      any date's subsequence. */
  lemma {:induction false} DueOnSwap(x: Assignment, y: Assignment, u: seq<Assignment>, rest: seq<Assignment>, d: string)
    requires x.dueDate != y.dueDate
    requires DueOn(rest, d) == DueOn([x] + u, d)
    ensures DueOn([y] + rest, d) == DueOn([x] + ([y] + u), d)
  {
    DueOnCons(y, rest, d);
    DueOnCons(x, u, d);
    DueOnCons(x, [y] + u, d);
    DueOnCons(y, u, d);
  }

  lemma {:induction false} InsertStable(x: Assignment, t: seq<Assignment>, d: string)
    ensures DueOn(Insert(x, t), d) == DueOn([x] + t, d)
  {
    if t == [] || DueLeq(x.dueDate, t[0].dueDate) {
      assert Insert(x, t) == [x] + t;
    } else {
      var y, u := t[0], t[1..];
      InsertStable(x, u, d);
      DueLeqReflexive(x.dueDate);
      assert Insert(x, t) == [y] + Insert(x, u);
      assert t == [y] + u;
      DueOnSwap(x, y, u, Insert(x, u), d);
    }
  }

  /** Stability: the records sharing any one due date keep their input order. */
  lemma {:induction false} SortByDueStable(s: seq<Assignment>, d: string)
    ensures DueOn(SortByDue(s), d) == DueOn(s, d)
  {
    if s != [] {
      SortByDueStable(s[1..], d);
      InsertStable(s[0], SortByDue(s[1..]), d);
      DueOnCons(s[0], SortByDue(s[1..]), d);
      DueOnCons(s[0], s[1..], d);
      assert s == [s[0]] + s[1..];
    }
  }

  /** The rendered list for tab `f`: the tab's records, each as often as the
      tab lists it, ascending by due date. */
  function View(s: seq<Assignment>, f: Filter): (v: seq<Assignment>)
    ensures multiset(v) == multiset(Filtered(s, f))
    ensures Sorted(v)
  {
    SortByDueSorted(Filtered(s, f));
    SortByDue(Filtered(s, f))
  }

  /** The rendered list holds exactly the records tab `f` selects, each as
      often as in the filtered list, ascending by due date, and records due
      on the same date in list order. */
  lemma {:induction false} ViewIsSortedFilter(s: seq<Assignment>, f: Filter, d: string)
    ensures multiset(View(s, f)) == multiset(Filtered(s, f))
    ensures forall a :: a in View(s, f) <==> a in s && Shows(f, a)
    ensures Sorted(View(s, f))
    ensures DueOn(View(s, f), d) == DueOn(Filtered(s, f), d)
  {
    var v := View(s, f);
    forall a
      ensures a in v <==> a in s && Shows(f, a)
    {
      calc {
        a in v;
        a in multiset(v);
        a in multiset(Filtered(s, f));
        a in Filtered(s, f);
      }
    }
    SortByDueSorted(Filtered(s, f));
    SortByDueStable(Filtered(s, f), d);
  }

  /** The count a tab shows in its label: the number of records it lists. */
  function TabCount(s: seq<Assignment>, f: Filter): (n: nat)
    ensures n == |Filtered(s, f)|
  {
    match f
    case Pending => |Filtered(s, Pending)|
    case Completed => |Filtered(s, Completed)|
    case All => FilteredAll(s); |s|
  }

  /** Each tab's count is the length of the list it renders, and the pending
      and completed counts add up to the "all" count. */
  lemma {:induction false} TabCountsAgree(s: seq<Assignment>)
    ensures TabCount(s, Pending) + TabCount(s, Completed) == TabCount(s, All)
    ensures forall f :: TabCount(s, f) == |View(s, f)|
  {
    PendingCompletedPartition(s);
    FilteredAll(s);
  }
}
