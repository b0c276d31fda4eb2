/**
 * The selection toggle shared by the league and club onboarding screens:
 * an id already selected is filtered out, any other id is appended.
 */
module Selection {

  /** `ids.filter(active => active !== x)`. */
  function Remove(ids: seq<string>, x: string): (r: seq<string>)
    ensures x !in r
    ensures forall y :: y != x ==> (y in r <==> y in ids)
    ensures |r| <= |ids|
  {
    if ids == [] then []
    else (if ids[0] == x then [] else [ids[0]]) + Remove(ids[1..], x)
  }

  /** handleOnPressLeague / onPressClub: the new selection. */
  function Toggle(ids: seq<string>, x: string): seq<string>
  {
    if x in ids then Remove(ids, x) else ids + [x]
  }

  /** No id occurs twice. */
  predicate Distinct(ids: seq<string>)
  {
    forall i, j :: 0 <= i < j < |ids| ==> ids[i] != ids[j]
  }

  /** Filtering distributes over concatenation, so the kept ids keep their order. */
  lemma {:induction false} RemoveConcat(a: seq<string>, b: seq<string>, x: string)
    ensures Remove(a + b, x) == Remove(a, x) + Remove(b, x)
  {
    if a == [] {
      assert a + b == b;
    } else {
      assert (a + b)[1..] == a[1..] + b;
      RemoveConcat(a[1..], b, x);
    }
  }

  /** Filtering out an id that is absent changes nothing. */
  lemma {:induction false} RemoveAbsent(ids: seq<string>, x: string)
    requires x !in ids
    ensures Remove(ids, x) == ids
  {
    if ids != [] {
      RemoveAbsent(ids[1..], x);
    }
  }

  /** A sub-sequence of distinct ids is distinct. */
  lemma {:induction false} RemoveKeepsDistinct(ids: seq<string>, x: string)
    requires Distinct(ids)
    ensures Distinct(Remove(ids, x))
  {
    if ids != [] {
      RemoveKeepsDistinct(ids[1..], x);
      var rest := Remove(ids[1..], x);
      assert ids[0] !in ids[1..];
      assert ids[0] !in rest;
    }
  }

  /** The toggled id changes membership; every other id keeps it. */
  lemma ToggleFlips(ids: seq<string>, x: string)
    ensures x in Toggle(ids, x) <==> x !in ids
    ensures forall y :: y != x ==> (y in Toggle(ids, x) <==> y in ids)
  {
  }

  /** A duplicate-free selection stays duplicate-free. */
  lemma ToggleKeepsDistinct(ids: seq<string>, x: string)
    requires Distinct(ids)
    ensures Distinct(Toggle(ids, x))
  {
    if x in ids {
      RemoveKeepsDistinct(ids, x);
    }
  }

  lemma DistinctElsewhere(ids: seq<string>, i: int)
    requires Distinct(ids) && 0 <= i < |ids|
    ensures ids[i] !in ids[..i] && ids[i] !in ids[i + 1..]
  {
    forall j | 0 <= j < i ensures ids[..i][j] != ids[i] {
      assert ids[..i][j] == ids[j];
    }
    var after := ids[i + 1..];
    forall j | 0 <= j < |after| ensures after[j] != ids[i] {
      assert after[j] == ids[i + 1 + j];
    }
  }

  /**
   * A selected id is cut out where it stands: the ids before and after it
   * keep their order. An unselected id goes to the end.
   */
  lemma ToggleShape(ids: seq<string>, x: string, i: int)
    requires Distinct(ids) && 0 <= i < |ids| && ids[i] == x
    ensures Toggle(ids, x) == ids[..i] + ids[i + 1..]
  {
    DistinctElsewhere(ids, i);
    var before, after := ids[..i], ids[i + 1..];
    assert ids == before + ([x] + after);
    assert Remove(ids, x) == before + after by {
      RemoveConcat(before, [x] + after, x);
      RemoveConcat([x], after, x);
      RemoveAbsent(before, x);
      RemoveAbsent(after, x);
      assert Remove([x], x) == [];
    }
  }

  /** Toggling an absent id twice gives back the original list exactly. */
  lemma DoubleToggleRestores(ids: seq<string>, x: string)
    requires x !in ids
    ensures Toggle(Toggle(ids, x), x) == ids
  {
    RemoveConcat(ids, [x], x);
    RemoveAbsent(ids, x);
    assert Remove([x], x) == [];
  }

  /** Toggling a present id twice moves it to the end, so order is not restored. */
  lemma DoubleTogglePresent(ids: seq<string>, x: string, i: int)
    requires Distinct(ids) && 0 <= i < |ids| && ids[i] == x
    ensures Toggle(Toggle(ids, x), x) == ids[..i] + ids[i + 1..] + [x]
  {
    ToggleShape(ids, x, i);
  }
}
