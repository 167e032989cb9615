/**
 The doctor's test request form: a fixed list of orderable tests with prices,
 the ids the doctor has ticked, and the total cost of the ticked tests. Prices
 are whole cents.
 */
module RequestTest {
  import opened Seqs

  datatype AvailableTest = AvailableTest(id: string, name: string, category: string, price: int)

  const AvailableTests: seq<AvailableTest> := [
    AvailableTest("T001", "Complete Blood Count", "Hematology", 2500),
    AvailableTest("T002", "Lipid Panel", "Chemistry", 3500),
    AvailableTest("T003", "Thyroid Function", "Endocrinology", 4500),
    AvailableTest("T004", "Liver Function", "Chemistry", 3000),
    AvailableTest("T005", "Kidney Function", "Chemistry", 2800),
    AvailableTest("T006", "Cardiac Markers", "Cardiology", 5500)
  ]

  /** Nothing is ticked when the form opens. */
  const InitialSelection: seq<string> := []

  /**
   `toggleTest`: a ticked id is unticked (every occurrence goes), an unticked
   one is appended at the end.
   */
  function ToggleTest(selected: seq<string>, id: string): (r: seq<string>)
    ensures id in selected ==> id !in r && forall x :: x in r <==> x in selected && x != id
    ensures id in selected ==> IsSubsequence(r, selected)
    ensures id in selected ==> forall x :: multiset(r)[x] == if x != id then multiset(selected)[x] else 0
    ensures id !in selected ==> r == selected + [id]
  {
    if id in selected then
      FilterIsSubsequence(selected, (x: string) => x != id);
      FilterMultiplicity(selected, (x: string) => x != id);
      Filter(selected, (x: string) => x != id)
    else
      selected + [id]
  }

  /**
   The price the total charges for an id: that of the first available test
   with the id, and 0 for an id that is not on the list.
   */
  function PriceOf(tests: seq<AvailableTest>, id: string): (p: int)
    ensures (forall i :: 0 <= i < |tests| ==> tests[i].id != id) ==> p == 0
    ensures forall k :: FirstMatch(tests, (t: AvailableTest) => t.id == id, k) ==> p == tests[k].price
  {
    match Find(tests, (t: AvailableTest) => t.id == id)
    case None => 0
    case Some(t) =>
      forall k | FirstMatch(tests, (t: AvailableTest) => t.id == id, k) ensures t == tests[k] {
        var j :| FirstMatch(tests, (t: AvailableTest) => t.id == id, j) && t == tests[j];
        FirstMatchUnique(tests, (t: AvailableTest) => t.id == id, j, k);
      }
      t.price
  }

  /** `getTotalCost`: the ticked ids' prices added up, one term per ticked id. */
  function TotalCost(tests: seq<AvailableTest>, selected: seq<string>): int
  {
    Sum(selected, (id: string) => PriceOf(tests, id))
  }

  /** Ticking a test that was not ticked adds its price to the total. */
  lemma TickAddsPrice(tests: seq<AvailableTest>, selected: seq<string>, id: string)
    requires id !in selected
    ensures TotalCost(tests, ToggleTest(selected, id)) == TotalCost(tests, selected) + PriceOf(tests, id)
  {
    var f := (x: string) => PriceOf(tests, x);
    SumAppend(selected, [id], f);
    assert Sum([id], f) == f(id) by {
      assert [id][..0] == [];
    }
  }

  /** Unticking a ticked test, in a selection without repeats, takes its price off the total. */
  lemma UntickRemovesPrice(tests: seq<AvailableTest>, selected: seq<string>, id: string)
    requires NoDuplicates(selected)
    requires id in selected
    ensures TotalCost(tests, ToggleTest(selected, id)) == TotalCost(tests, selected) - PriceOf(tests, id)
  {
    var f := (x: string) => PriceOf(tests, x);
    var same := (x: string) => x == id;
    var other := (x: string) => x != id;
    SumSplit(selected, f, other, same);
    SumFilterConst(selected, f, same, PriceOf(tests, id));
    CountSingle(selected, id, same);
  }

  /** Toggling never introduces a repeat. */
  lemma ToggleKeepsNoDuplicates(selected: seq<string>, id: string)
    requires NoDuplicates(selected)
    ensures NoDuplicates(ToggleTest(selected, id))
  {
    if id in selected {
      var r := ToggleTest(selected, id);
      FilterSubsequenceNoDuplicates(r, selected);
    }
  }

  /** The selection after toggling the ids in order. */
  function ToggleAll(selected: seq<string>, ids: seq<string>): seq<string>
    decreases |ids|
  {
    if |ids| == 0 then selected else ToggleAll(ToggleTest(selected, ids[0]), ids[1..])
  }

  /** Every selection the form can reach from the empty one is free of repeats. */
  lemma {:induction false} ReachableSelectionsNoDuplicates(selected: seq<string>, ids: seq<string>)
    requires NoDuplicates(selected)
    ensures NoDuplicates(ToggleAll(selected, ids))
    decreases |ids|
  {
    if |ids| > 0 {
      ToggleKeepsNoDuplicates(selected, ids[0]);
      ReachableSelectionsNoDuplicates(ToggleTest(selected, ids[0]), ids[1..]);
    }
  }

  lemma FromEmptyNoDuplicates(ids: seq<string>)
    ensures NoDuplicates(ToggleAll(InitialSelection, ids))
  {
    ReachableSelectionsNoDuplicates(InitialSelection, ids);
  }

  /** A subsequence of a list without repeats has none. */
  lemma {:induction false} FilterSubsequenceNoDuplicates(a: seq<string>, b: seq<string>)
    requires IsSubsequence(a, b)
    requires NoDuplicates(b)
    ensures NoDuplicates(a)
    decreases |b|
  {
    if |a| > 0 && |b| > 0 {
      assert NoDuplicates(b[1..]) by {
        forall i, j | 0 <= i < j < |b[1..]| ensures b[1..][i] != b[1..][j] {
          assert b[1..][i] == b[i + 1] && b[1..][j] == b[j + 1];
        }
      }
      if a[0] == b[0] {
        FilterSubsequenceNoDuplicates(a[1..], b[1..]);
        SubsequenceMembers(a[1..], b[1..]);
        forall j | 0 < j < |a| ensures a[0] != a[j] {
          assert a[j] == a[1..][j - 1];
          assert a[j] in b[1..];
          var k :| 0 <= k < |b[1..]| && b[1..][k] == a[j];
          assert b[k + 1] == a[j];
        }
        forall i, j | 0 <= i < j < |a| ensures a[i] != a[j] {
          if i > 0 {
            assert a[i] == a[1..][i - 1] && a[j] == a[1..][j - 1];
          }
        }
      } else {
        FilterSubsequenceNoDuplicates(a, b[1..]);
      }
    }
  }

  lemma {:induction false} SubsequenceMembers(a: seq<string>, b: seq<string>)
    requires IsSubsequence(a, b)
    ensures forall x :: x in a ==> x in b
    decreases |b|
  {
    if |a| > 0 && |b| > 0 {
      if a[0] == b[0] {
        SubsequenceMembers(a[1..], b[1..]);
        assert a == [a[0]] + a[1..];
        assert b == [b[0]] + b[1..];
      } else {
        SubsequenceMembers(a, b[1..]);
        assert b == [b[0]] + b[1..];
      }
    }
  }

  /** Ticking and then unticking the same test restores the selection. */
  lemma TickThenUntickRestores(selected: seq<string>, id: string)
    requires id !in selected
    ensures ToggleTest(ToggleTest(selected, id), id) == selected
  {
    FilterAppend(selected, id, (x: string) => x != id);
  }

  predicate IdsDistinct(tests: seq<AvailableTest>)
  {
    forall i, j :: 0 <= i < j < |tests| ==> tests[i].id != tests[j].id
  }

  /** With distinct ids, ticking a listed test charges exactly its listed price. */
  lemma PriceOfListed(tests: seq<AvailableTest>, k: int)
    requires IdsDistinct(tests)
    requires 0 <= k < |tests|
    ensures PriceOf(tests, tests[k].id) == tests[k].price
  {
    assert FirstMatch(tests, (t: AvailableTest) => t.id == tests[k].id, k);
  }

  /** The orderable tests carry distinct ids: the last digit tells them apart. */
  lemma AvailableTestsDistinct()
    ensures IdsDistinct(AvailableTests)
  {
    var digits := Map(AvailableTests, (t: AvailableTest) => if |t.id| > 3 then t.id[3] else ' ');
    assert digits == ['1', '2', '3', '4', '5', '6'];
    forall i, j | 0 <= i < j < |AvailableTests| ensures AvailableTests[i].id != AvailableTests[j].id {
      assert digits[i] != digits[j];
    }
  }

  /** Appending an id that no available test has leaves the total as it was. */
  lemma UnlistedCostsNothing(tests: seq<AvailableTest>, selected: seq<string>, id: string)
    ensures (forall i :: 0 <= i < |tests| ==> tests[i].id != id) ==>
      TotalCost(tests, selected + [id]) == TotalCost(tests, selected)
  {
    var f := (x: string) => PriceOf(tests, x);
    SumAppend(selected, [id], f);
    assert Sum([id], f) == f(id) by {
      assert [id][..0] == [];
    }
  }

  /** T007 is not on the form's list, so ticking it adds nothing to the total. */
  lemma TickingT007CostsNothing(selected: seq<string>)
    ensures TotalCost(AvailableTests, selected + ["T007"]) == TotalCost(AvailableTests, selected)
  {
    var digits := Map(AvailableTests, (t: AvailableTest) => if |t.id| > 3 then t.id[3] else ' ');
    assert digits == ['1', '2', '3', '4', '5', '6'];
    forall i | 0 <= i < |AvailableTests| ensures AvailableTests[i].id != "T007" {
      assert digits[i] != '7';
    }
    UnlistedCostsNothing(AvailableTests, selected, "T007");
  }
}
