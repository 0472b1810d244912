/**
 * `students.sort(Comparator.comparing(student -> student.name))`: a stable,
 * in-place sort of the caller's list by name. Java's `List.sort` is stable,
 * and a stable sort has exactly one possible result (`StableSortUnique`), so
 * the insertion sort below yields what Java's sort yields.
 */
module NameSort {
  import opened JavaLang
  import opened Records

  /** No student is followed by one whose name compares smaller. */
  predicate SortedByName(s: seq<Student>)
  {
    forall i, j :: 0 <= i < j < |s| ==> !Less(s[j].name, s[i].name)
  }

  /** The students of `s` named `name`, in their order in `s`. */
  function WithName(s: seq<Student>, name: string): seq<Student>
  {
    if s == [] then []
    else WithName(s[..|s| - 1], name) + (if s[|s| - 1].name == name then [s[|s| - 1]] else [])
  }

  /** Places `x` after every student whose name does not compare greater than its own. */
  function Insert(sorted: seq<Student>, x: Student): seq<Student>
  {
    if sorted == [] then [x]
    else if Less(x.name, sorted[|sorted| - 1].name) then
      Insert(sorted[..|sorted| - 1], x) + [sorted[|sorted| - 1]]
    else sorted + [x]
  }

  /** Insertion sort by name. */
  function SortByName(s: seq<Student>): seq<Student>
  {
    if s == [] then [] else Insert(SortByName(s[..|s| - 1]), s[|s| - 1])
  }

  lemma {:induction false} InsertPermutes(sorted: seq<Student>, x: Student)
    ensures multiset(Insert(sorted, x)) == multiset(sorted) + multiset{x}
  {
    if sorted != [] && Less(x.name, sorted[|sorted| - 1].name) {
      InsertPermutes(sorted[..|sorted| - 1], x);
      assert sorted == sorted[..|sorted| - 1] + [sorted[|sorted| - 1]];
    }
  }

  lemma {:induction false} WithNameAppend(a: seq<Student>, b: seq<Student>, name: string)
    ensures WithName(a + b, name) == WithName(a, name) + WithName(b, name)
  {
    if b != [] {
      assert (a + b)[..|a + b| - 1] == a + b[..|b| - 1];
      WithNameAppend(a, b[..|b| - 1], name);
    } else {
      assert a + b == a;
    }
  }

  /** Inserting `x` adds it after every student already there with the same name. */
  lemma {:induction false} InsertWithName(sorted: seq<Student>, x: Student, name: string)
    ensures WithName(Insert(sorted, x), name) ==
              WithName(sorted, name) + (if x.name == name then [x] else [])
  {
    WithNameSingle(x, name);
    if sorted == [] {
      assert Insert(sorted, x) == [x];
    } else {
      var init, last := sorted[..|sorted| - 1], sorted[|sorted| - 1];
      assert init + [last] == sorted;
      if Less(x.name, last.name) {
        InsertWithName(init, x, name);
        assert Insert(sorted, x) == Insert(init, x) + [last];
        InsertBeforeLast(init, Insert(init, x), last, x, name);
      } else {
        assert Insert(sorted, x) == sorted + [x];
        WithNameAppend(sorted, [x], name);
      }
    }
  }

  /** The step of `InsertWithName` where `x`, inserted into `init` as `ins`, goes before the last student. */
  lemma {:induction false} InsertBeforeLast(init: seq<Student>, ins: seq<Student>, last: Student, x: Student, name: string)
    requires Less(x.name, last.name)
    requires WithName(ins, name) == WithName(init, name) + (if x.name == name then [x] else [])
    ensures WithName(ins + [last], name) == WithName(init + [last], name) + (if x.name == name then [x] else [])
  {
    WithNameAppend(ins, [last], name);
    WithNameAppend(init, [last], name);
    WithNameSingle(last, name);
    if x.name == name {
      LessIrreflexive(name);
    }
    SwapTail(WithName(ins, name), WithName(init, name), WithName([last], name), if x.name == name then [x] else []);
  }

  /** When one of two tails is empty, they may be appended in either order. */
  lemma SwapTail<T>(a: seq<T>, b: seq<T>, l: seq<T>, xs: seq<T>)
    requires a == b + xs && (xs == [] || l == [])
    ensures a + l == b + l + xs
  {
    if xs == [] {
      assert b + [] == b;
      assert b + l + [] == b + l;
    } else {
      assert a + [] == a;
      assert b + [] == b;
    }
  }

  lemma WithNameSingle(x: Student, name: string)
    ensures WithName([x], name) == if x.name == name then [x] else []
  {
    assert [x][..0] == [];
  }

  lemma {:induction false} InsertSorted(sorted: seq<Student>, x: Student)
    requires SortedByName(sorted)
    ensures SortedByName(Insert(sorted, x))
  {
    if sorted == [] {
    } else {
      var init, last := sorted[..|sorted| - 1], sorted[|sorted| - 1];
      if Less(x.name, last.name) {
        InsertSorted(init, x);
        var ins := Insert(init, x);
        InsertPermutes(init, x);
        var r := ins + [last];
        forall i, j | 0 <= i < j < |r|
          ensures !Less(r[j].name, r[i].name)
        {
          if j == |r| - 1 {
            assert r[i] in multiset(init) + multiset{x} by {
              assert r[i] in multiset(ins);
            }
            if r[i] == x {
              LessAsymmetric(x.name, last.name);
            } else {
              assert r[i] in init;
              var k :| 0 <= k < |init| && init[k] == r[i];
              assert sorted[k] == r[i];
            }
          }
        }
      } else {
        var r := sorted + [x];
        forall i, j | 0 <= i < j < |r|
          ensures !Less(r[j].name, r[i].name)
        {
          if j == |r| - 1 && i < |sorted| - 1 {
            assert !Less(last.name, sorted[i].name);
            if Less(x.name, sorted[i].name) {
              LessTotal(last.name, sorted[i].name);
              if last.name != sorted[i].name {
                LessTransitive(x.name, sorted[i].name, last.name);
              }
            }
          }
        }
      }
    }
  }

  /** The result is ordered by name and holds the same students. */
  lemma {:induction false} SortByNameSortsAndPermutes(s: seq<Student>)
    ensures SortedByName(SortByName(s))
    ensures multiset(SortByName(s)) == multiset(s)
  {
    if s != [] {
      var init := s[..|s| - 1];
      SortByNameSortsAndPermutes(init);
      InsertSorted(SortByName(init), s[|s| - 1]);
      InsertPermutes(SortByName(init), s[|s| - 1]);
      assert s == init + [s[|s| - 1]];
    }
  }

  /** Stability: students with equal names keep their relative order. */
  lemma {:induction false} SortByNameIsStable(s: seq<Student>, name: string)
    ensures WithName(SortByName(s), name) == WithName(s, name)
  {
    if s != [] {
      SortByNameIsStable(s[..|s| - 1], name);
      InsertWithName(SortByName(s[..|s| - 1]), s[|s| - 1], name);
    }
  }

  lemma {:induction false} WithNameEmpty(s: seq<Student>, i: nat)
    requires i < |s|
    ensures WithName(s, s[i].name) != []
  {
    if i < |s| - 1 {
      WithNameEmpty(s[..|s| - 1], i);
    }
  }

  /** A name-ordered sequence ends with a student whose name no other student's exceeds. */
  lemma LastNameIsGreatest(t: seq<Student>, name: string)
    requires t != [] && SortedByName(t)
    requires WithName(t, name) != []
    ensures !Less(t[|t| - 1].name, name)
  {
    var i := WithNameIndex(t, name);
    if i == |t| - 1 {
      LessIrreflexive(name);
    }
  }

  /** Two name-ordered sequences that agree on the students of every name end with the same name. */
  lemma SameLastName(t: seq<Student>, u: seq<Student>)
    requires t != [] && u != []
    requires SortedByName(t) && SortedByName(u)
    requires forall name :: WithName(t, name) == WithName(u, name)
    ensures t[|t| - 1].name == u[|u| - 1].name
  {
    var x, y := t[|t| - 1], u[|u| - 1];
    WithNameEmpty(t, |t| - 1);
    WithNameEmpty(u, |u| - 1);
    assert WithName(u, x.name) == WithName(t, x.name);
    assert WithName(t, y.name) == WithName(u, y.name);
    LastNameIsGreatest(t, y.name);
    LastNameIsGreatest(u, x.name);
    LessTotal(x.name, y.name);
  }

  /** Two name-ordered sequences that agree on the students of every name end with the same student. */
  lemma SameLast(t: seq<Student>, u: seq<Student>)
    requires t != [] && u != []
    requires SortedByName(t) && SortedByName(u)
    requires forall name :: WithName(t, name) == WithName(u, name)
    ensures t[|t| - 1] == u[|u| - 1]
  {
    var x, y := t[|t| - 1], u[|u| - 1];
    SameLastName(t, u);
    var w := WithName(t, x.name);
    assert w == WithName(u, x.name);
    WithNameOfLast(t);
    WithNameOfLast(u);
    assert w[|w| - 1] == x;
    assert w[|w| - 1] == y;
  }

  /** The last student of `s` is the last of those with its name. */
  lemma WithNameOfLast(s: seq<Student>)
    requires s != []
    ensures var w := WithName(s, s[|s| - 1].name); w != [] && w[|w| - 1] == s[|s| - 1]
  {
  }

  /** Dropping the same last student from both keeps them agreeing on every name. */
  lemma DropLast(t: seq<Student>, u: seq<Student>, ti: seq<Student>, ui: seq<Student>)
    requires t != [] && u != [] && t[|t| - 1] == u[|u| - 1]
    requires ti == t[..|t| - 1] && ui == u[..|u| - 1]
    requires forall name :: WithName(t, name) == WithName(u, name)
    ensures forall name :: WithName(ti, name) == WithName(ui, name)
  {
    var x := t[|t| - 1];
    forall name
      ensures WithName(ti, name) == WithName(ui, name)
    {
      var e := if x.name == name then [x] else [];
      var a, b := WithName(t, name), WithName(u, name);
      assert a == WithName(ti, name) + e;
      assert b == WithName(ui, name) + e;
      assert WithName(ti, name) == a[..|a| - |e|];
      assert WithName(ui, name) == b[..|b| - |e|];
    }
  }

  lemma SortedPrefix(t: seq<Student>)
    requires t != [] && SortedByName(t)
    ensures SortedByName(t[..|t| - 1])
  {
  }

  /**
   * Two name-ordered sequences that agree on the students of every name are
   * equal: whatever stable sort Java uses, its result is `SortByName`.
   */
  lemma {:induction false} StableSortUnique(t: seq<Student>, u: seq<Student>)
    requires SortedByName(t) && SortedByName(u)
    requires forall name :: WithName(t, name) == WithName(u, name)
    ensures t == u
  {
    if t == [] {
      if u != [] {
        WithNameEmpty(u, 0);
      }
    } else if u == [] {
      WithNameEmpty(t, 0);
      assert false;
    } else {
      SameLast(t, u);
      var ti, ui := t[..|t| - 1], u[..|u| - 1];
      DropLast(t, u, ti, ui);
      SortedPrefix(t);
      SortedPrefix(u);
      StableSortUnique(ti, ui);
      assert t == t[..|t| - 1] + [t[|t| - 1]];
      assert u == u[..|u| - 1] + [u[|u| - 1]];
    }
  }

  /** An index of a student named `name`, when there is one. */
  lemma {:induction false} WithNameIndex(s: seq<Student>, name: string) returns (i: nat)
    requires WithName(s, name) != []
    ensures i < |s| && s[i].name == name
  {
    if s[|s| - 1].name == name {
      i := |s| - 1;
    } else {
      i := WithNameIndex(s[..|s| - 1], name);
    }
  }

  /** `SortByName(s)` is the one stable sort of `s` by name. */
  lemma SortByNameCharacterized(s: seq<Student>, t: seq<Student>)
    requires SortedByName(t)
    requires forall name :: WithName(t, name) == WithName(s, name)
    ensures t == SortByName(s)
  {
    SortByNameSortsAndPermutes(s);
    forall name ensures WithName(SortByName(s), name) == WithName(t, name) {
      SortByNameIsStable(s, name);
    }
    StableSortUnique(t, SortByName(s));
  }

  /**
   * `Insert` puts `x` right after the last student whose name does not compare
   * greater than `x`'s: given a position `j` with only greater names after it
   * and none before it, that is where `x` lands.
   */
  lemma {:induction false} InsertLandsAt(sorted: seq<Student>, x: Student, j: nat)
    requires j <= |sorted|
    requires forall k :: j <= k < |sorted| ==> Less(x.name, sorted[k].name)
    requires j == 0 || !Less(x.name, sorted[j - 1].name)
    ensures Insert(sorted, x) == sorted[..j] + [x] + sorted[j..]
  {
    if |sorted| > j {
      var init := sorted[..|sorted| - 1];
      InsertLandsAt(init, x, j);
      assert init[..j] == sorted[..j];
      assert init[j..] + [sorted[|sorted| - 1]] == sorted[j..];
    } else if j > 0 {
      assert sorted[..j] == sorted;
    }
  }

  /** The array of `InsertAt` before and after `x` is put into the gap. */
  lemma PlaceArray(orig: seq<Student>, x: Student, j: nat, i: nat)
    requires j <= i < |orig|
    ensures (orig[..j + 1] + orig[j..i] + orig[i + 1..])[j := x] == orig[..j] + [x] + orig[j..i] + orig[i + 1..]
    ensures (orig[..j] + [x] + orig[j..i] + orig[i + 1..])[..i + 1] == orig[..j] + [x] + orig[j..i]
    ensures (orig[..j] + [x] + orig[j..i] + orig[i + 1..])[i + 1..] == orig[i + 1..]
  {
  }

  /** The array of `InsertAt` before and after one shift. */
  lemma ShiftArray(orig: seq<Student>, j: nat, i: nat)
    requires 0 < j <= i < |orig|
    ensures (orig[..j + 1] + orig[j..i] + orig[i + 1..])[j := orig[j - 1]] ==
              orig[..j] + orig[j - 1..i] + orig[i + 1..]
  {
  }

  /**
   * The shifting loop of `InsertAt`: moves the students of `a[..i]` whose names
   * compare greater than `x`'s, from the right, one place up, and returns the
   * gap left behind.
   */
  method ShiftGreater(a: array<Student>, i: nat, x: Student) returns (j: nat)
    requires i < a.Length
    modifies a
    ensures j <= i
    ensures a[..] == old(a[..])[..j + 1] + old(a[..])[j..i] + old(a[..])[i + 1..]
    ensures forall k :: j <= k < i ==> Less(x.name, old(a[..])[k].name)
    ensures j == 0 || !Less(x.name, old(a[..])[j - 1].name)
  {
    ghost var orig := a[..];
    j := i;
    assert orig[..i + 1] + orig[i..i] + orig[i + 1..] == orig;
    while j > 0 && Less(x.name, a[j - 1].name)
      invariant 0 <= j <= i
      invariant a[..] == orig[..j + 1] + orig[j..i] + orig[i + 1..]
      invariant forall k :: j <= k < i ==> Less(x.name, orig[k].name)
    {
      ghost var before := a[..];
      assert a[j - 1] == orig[j - 1];
      a[j] := a[j - 1];
      assert a[..] == before[j := orig[j - 1]];
      ShiftArray(orig, j, i);
      j := j - 1;
    }
    assert j > 0 ==> a[j - 1] == orig[j - 1];
  }

  /** Inserts `a[i]` into the sorted `a[..i]`, as `Insert` does. */
  method InsertAt(a: array<Student>, i: nat)
    requires i < a.Length
    modifies a
    ensures a[..i + 1] == Insert(old(a[..i]), old(a[i]))
    ensures a[i + 1..] == old(a[i + 1..])
  {
    ghost var orig := a[..];
    var x := a[i];
    var j := ShiftGreater(a, i, x);
    ghost var before := a[..];
    a[j] := x;
    assert a[..] == before[j := x];
    PlaceArray(orig, x, j, i);
    ghost var sorted := orig[..i];
    assert j > 0 ==> sorted[j - 1] == orig[j - 1];
    InsertLandsAt(sorted, x, j);
    assert sorted[..j] == orig[..j] && sorted[j..] == orig[j..i];
  }

  lemma SortByNameStep(s: seq<Student>, i: nat)
    requires i < |s|
    ensures SortByName(s[..i + 1]) == Insert(SortByName(s[..i]), s[i])
  {
    assert s[..i + 1][..i] == s[..i];
  }

  /** The sort as the source runs it: in place on the caller's list. */
  method SortInPlace(a: array<Student>)
    modifies a
    ensures a[..] == SortByName(old(a[..]))
  {
    ghost var s := a[..];
    var i := 0;
    while i < a.Length
      invariant 0 <= i <= a.Length
      invariant a[..i] == SortByName(s[..i])
      invariant a[i..] == s[i..]
    {
      ghost var before := a[..];
      assert before[i] == s[i] && before[i + 1..] == s[i + 1..];
      InsertAt(a, i);
      SortByNameStep(s, i);
      i := i + 1;
    }
    assert a[..] == a[..a.Length];
    assert s == s[..a.Length];
  }
}
