/** The list of selected course ids and the toggle that the course checkboxes
    apply to it. The screen keeps the selection as a list, so order and
    multiplicity are part of the state, not only membership. */
module Selection {

  /** No id occurs twice in `s`. */
  ghost predicate NoDups(s: seq<int>) {
    forall i, j :: 0 <= i < j < |s| ==> s[i] != s[j]
  }

  /** `s` with every occurrence of `id` dropped and the rest kept in order:
      `s.filter(x => x !== id)`. */
  function Without(s: seq<int>, id: int): seq<int> {
    if s == [] then []
    else (if s[0] == id then [] else [s[0]]) + Without(s[1..], id)
  }

  /** Filtering keeps exactly the ids other than `id`, each as often as
      before, and drops every copy of `id`. */
  lemma {:induction false} WithoutSpec(s: seq<int>, id: int)
    ensures forall x :: x in Without(s, id) <==> x in s && x != id
    ensures multiset(Without(s, id)) == multiset(s)[id := 0]
  {
    if s != [] {
      assert s == [s[0]] + s[1..];
      WithoutSpec(s[1..], id);
    }
  }

  /** The selection after the checkbox of `id` is pressed: a selected id is
      filtered out, any other id is appended at the end. */
  function Toggled(s: seq<int>, id: int): seq<int> {
    if id in s then Without(s, id) else s + [id]
  }

  /** Filtering distributes over concatenation. */
  lemma {:induction false} WithoutConcat(a: seq<int>, b: seq<int>, id: int)
    ensures Without(a + b, id) == Without(a, id) + Without(b, id)
  {
    if a == [] {
      assert a + b == b;
    } else {
      assert (a + b)[1..] == a[1..] + b;
      WithoutConcat(a[1..], b, id);
    }
  }

  /** Filtering out an id that is not there changes nothing. */
  lemma {:induction false} WithoutAbsent(s: seq<int>, id: int)
    requires id !in s
    ensures Without(s, id) == s
  {
    if s != [] {
      WithoutAbsent(s[1..], id);
    }
  }

  /** Filtering keeps a list free of duplicates. */
  lemma {:induction false} WithoutNoDups(s: seq<int>, id: int)
    requires NoDups(s)
    ensures NoDups(Without(s, id))
  {
    if s != [] {
      assert NoDups(s[1..]) by {
        forall i, j | 0 <= i < j < |s[1..]| ensures s[1..][i] != s[1..][j] {
          assert s[1..][i] == s[i + 1] && s[1..][j] == s[j + 1];
        }
      }
      WithoutNoDups(s[1..], id);
      WithoutSpec(s[1..], id);
      var rest := Without(s[1..], id);
      assert s[0] !in s[1..];
      assert s[0] !in rest;
      var r := Without(s, id);
      if s[0] != id {
        forall i, j | 0 <= i < j < |r| ensures r[i] != r[j] {
          if i == 0 {
            assert r[j] == rest[j - 1];
          } else {
            assert r[i] == rest[i - 1] && r[j] == rest[j - 1];
          }
        }
      }
    }
  }

  /** In a duplicate-free list an id occurs at most once. */
  lemma {:induction false} NoDupsCount(s: seq<int>, x: int)
    requires NoDups(s)
    ensures multiset(s)[x] <= 1
  {
    if s != [] {
      var init := s[..|s| - 1];
      assert s == init + [s[|s| - 1]];
      assert NoDups(init) by {
        forall i, j | 0 <= i < j < |init| ensures init[i] != init[j] {
          assert init[i] == s[i] && init[j] == s[j];
        }
      }
      NoDupsCount(init, x);
      if x == s[|s| - 1] {
        assert x !in init by {
          forall i | 0 <= i < |init| ensures init[i] != x {
            assert init[i] == s[i];
          }
        }
      }
    }
  }

  /** Toggling flips the membership of the toggled id and leaves the
      membership of every other id as it was. */
  lemma ToggleMembership(s: seq<int>, id: int)
    ensures id in Toggled(s, id) <==> id !in s
    ensures forall x :: x != id ==> (x in Toggled(s, id) <==> x in s)
  {
    WithoutSpec(s, id);
  }

  /** Toggling keeps the selection free of duplicates. */
  lemma ToggleKeepsNoDups(s: seq<int>, id: int)
    requires NoDups(s)
    ensures NoDups(Toggled(s, id))
  {
    if id in s {
      WithoutNoDups(s, id);
    } else {
      var r := s + [id];
      forall i, j | 0 <= i < j < |r| ensures r[i] != r[j] {
        if j == |s| {
          assert r[i] == s[i];
        } else {
          assert r[i] == s[i] && r[j] == s[j];
        }
      }
    }
  }

  /** Removing drops every copy of the id; adding appends one. On a
      duplicate-free selection the length therefore moves by exactly one. */
  lemma ToggleLength(s: seq<int>, id: int)
    ensures |Toggled(s, id)| == if id in s then |s| - multiset(s)[id] else |s| + 1
    ensures NoDups(s) ==> |Toggled(s, id)| == if id in s then |s| - 1 else |s| + 1
  {
    var r := Toggled(s, id);
    WithoutSpec(s, id);
    assert |multiset(r)| == |r| && |multiset(s)| == |s|;
    if NoDups(s) {
      NoDupsCount(s, id);
    }
  }

  /** Toggling an id that was not selected twice gives back the very same list. */
  lemma ToggleTwiceAbsent(s: seq<int>, id: int)
    requires id !in s
    ensures Toggled(Toggled(s, id), id) == s
  {
    WithoutConcat(s, [id], id);
    WithoutAbsent(s, id);
    assert Without([id], id) == [];
  }

  /** Toggling a selected id twice gives back the same ids, but as a list the
      id has moved to the end, once, with the other ids in their old order. */
  lemma ToggleTwicePresent(s: seq<int>, id: int)
    requires id in s
    ensures Toggled(Toggled(s, id), id) == Without(s, id) + [id]
    ensures forall x :: x in Toggled(Toggled(s, id), id) <==> x in s
    ensures Without(Toggled(Toggled(s, id), id), id) == Without(s, id)
  {
    WithoutSpec(s, id);
    WithoutConcat(Without(s, id), [id], id);
    WithoutAbsent(Without(s, id), id);
    assert Without([id], id) == [];
  }

  /** For a duplicate-free selection, toggling a selected id twice restores
      the list exactly when that id was the last one. */
  lemma ToggleTwicePresentRestores(s: seq<int>, id: int)
    requires NoDups(s) && id in s
    ensures Toggled(Toggled(s, id), id) == s <==> s[|s| - 1] == id
  {
    ToggleTwicePresent(s, id);
    if s[|s| - 1] == id {
      var init := s[..|s| - 1];
      assert s == init + [id];
      assert id !in init by {
        forall i | 0 <= i < |init| ensures init[i] != id {
          assert init[i] == s[i];
        }
      }
      ToggleTwiceLast(init, id);
    }
  }

  /** Toggling twice the id at the end of a list that holds it only there
      gives back the list. */
  lemma ToggleTwiceLast(init: seq<int>, id: int)
    requires id !in init
    ensures Toggled(Toggled(init + [id], id), id) == init + [id]
  {
    WithoutConcat(init, [id], id);
    WithoutAbsent(init, id);
    assert Without([id], id) == [];
  }

  /** The shortest case where toggling a selected id twice does not restore
      the list: [1, 2] becomes [2, 1]. */
  lemma ToggleTwiceMovesToEnd()
    ensures Toggled(Toggled([1, 2], 1), 1) == [2, 1]
  {
    assert Toggled([1, 2], 1) == [2];
  }

  /** Toggling only catalog-style ids keeps every selected id inside a given set. */
  lemma ToggleStaysWithin(s: seq<int>, id: int, ids: set<int>)
    requires forall x :: x in s ==> x in ids
    requires id in ids
    ensures forall x :: x in Toggled(s, id) ==> x in ids
  {
    WithoutSpec(s, id);
  }
}
