/**
 The test catalog screen: a list of catalog items (a test definition plus an
 active flag and timestamps), a form for a new test, and an item being
 edited. Adding checks the three text fields, editing replaces the item by
 id, deleting asks for confirmation, and a toggle flips the active flag.
 */
module TestCatalog {
  import opened Seqs
  import opened Text
  import opened LabTypes

  datatype CatalogItem = CatalogItem(test: TestType, isActive: bool, createdAt: int, updatedAt: int)

  /** The new-test form. */
  datatype NewTestForm = NewTestForm(
    name: string,
    category: string,
    description: string,
    duration: int,
    price: int,
    requiresSpecialPrep: bool,
    sampleType: SampleKind)

  /** The screen's state: the list, the new-test form, whether it is open, and the item being edited. */
  datatype CatalogState = CatalogState(
    tests: seq<CatalogItem>,
    form: NewTestForm,
    isAdding: bool,
    editing: Option<CatalogItem>)

  const EmptyForm: NewTestForm := NewTestForm("", "", "", 0, 0, false, Blood)

  function CatalogId(n: nat): string
  {
    PrefixedId("T", n)
  }

  /** The form can be submitted: name, category and description are all non-empty. */
  predicate FormComplete(f: NewTestForm)
  {
    f.name != "" && f.category != "" && f.description != ""
  }

  /**
   `handleAddTest`: an incomplete form changes nothing. Otherwise one active
   item numbered one past the count is appended with the form's fields,
   created and updated `now`, and the form is cleared and closed.
   */
  function HandleAddTest(st: CatalogState, now: int): (r: CatalogState)
    ensures !FormComplete(st.form) ==> r == st
    ensures FormComplete(st.form) ==>
      && |r.tests| == |st.tests| + 1 && r.tests[..|st.tests|] == st.tests
      && r.tests[|st.tests|].test == TestType(
           CatalogId(|st.tests| + 1), st.form.name, st.form.category, st.form.description,
           st.form.duration, st.form.price, st.form.requiresSpecialPrep, st.form.sampleType)
      && r.tests[|st.tests|].isActive
      && r.tests[|st.tests|].createdAt == now && r.tests[|st.tests|].updatedAt == now
      && r.form == EmptyForm && !r.isAdding && r.editing == st.editing
  {
    if !FormComplete(st.form) then st
    else
      var f := st.form;
      var item := CatalogItem(
        TestType(CatalogId(|st.tests| + 1), f.name, f.category, f.description, f.duration, f.price,
                 f.requiresSpecialPrep, f.sampleType),
        true, now, now);
      st.(tests := st.tests + [item], form := EmptyForm, isAdding := false)
  }

  /**
   A confirmed delete of the id a successful add just assigned gives back the
   list as it was, provided no earlier item already carried that id.
   */
  lemma DeleteUndoesAdd(st: CatalogState, now: int)
    requires FormComplete(st.form)
    requires forall i :: 0 <= i < |st.tests| ==> st.tests[i].test.id != CatalogId(|st.tests| + 1)
    ensures HandleDeleteTest(HandleAddTest(st, now).tests, CatalogId(|st.tests| + 1), true) == st.tests
  {
    var id := CatalogId(|st.tests| + 1);
    var added := HandleAddTest(st, now).tests;
    assert added == st.tests + [added[|st.tests|]];
    FilterAppend(st.tests, added[|st.tests|], (t: CatalogItem) => t.test.id != id);
  }

  /**
   `handleEditTest`: with nothing being edited, nothing changes. Otherwise every
   item with the edited item's id becomes the edited item updated `now`, every
   other item is unchanged, and editing ends.
   */
  function HandleEditTest(st: CatalogState, now: int): (r: CatalogState)
    ensures st.editing.None? ==> r == st
    ensures st.editing.Some? ==>
      && |r.tests| == |st.tests| && r.editing.None?
      && r.form == st.form && r.isAdding == st.isAdding
      && forall i :: 0 <= i < |st.tests| ==>
           r.tests[i] == if st.tests[i].test.id == st.editing.value.test.id
                         then st.editing.value.(updatedAt := now) else st.tests[i]
  {
    match st.editing
    case None => st
    case Some(e) =>
      st.(tests := Map(st.tests, (t: CatalogItem) => if t.test.id == e.test.id then e.(updatedAt := now) else t),
          editing := None)
  }

  /** Saving an edit leaves every item's id where it was, so distinct ids stay distinct. */
  lemma EditKeepsIds(st: CatalogState, now: int)
    ensures var r := HandleEditTest(st, now);
      |r.tests| == |st.tests| && forall i :: 0 <= i < |st.tests| ==> r.tests[i].test.id == st.tests[i].test.id
  {
  }

  /** Saving the same edit again, at the same time, changes nothing more. */
  lemma SaveEditTwice(st: CatalogState, now: int)
    ensures var once := HandleEditTest(st, now);
      HandleEditTest(once.(editing := st.editing), now) == once
  {
    var once := HandleEditTest(st, now);
    if st.editing.Some? {
      var twice := HandleEditTest(once.(editing := st.editing), now);
      assert twice.tests == once.tests;
    }
  }

  /**
   `handleDeleteTest`: a declined confirmation changes nothing; a confirmed one
   removes every item with the id and keeps the rest in order.
   */
  function HandleDeleteTest(tests: seq<CatalogItem>, id: string, confirmed: bool): (r: seq<CatalogItem>)
    ensures !confirmed ==> r == tests
    ensures confirmed ==> (forall t :: t in r <==> t in tests && t.test.id != id) && IsSubsequence(r, tests)
    ensures confirmed ==> forall t :: multiset(r)[t] == if t.test.id != id then multiset(tests)[t] else 0
  {
    if confirmed then
      FilterIsSubsequence(tests, (t: CatalogItem) => t.test.id != id);
      FilterMultiplicity(tests, (t: CatalogItem) => t.test.id != id);
      Filter(tests, (t: CatalogItem) => t.test.id != id)
    else tests
  }

  /**
   `handleToggleStatus`: every item with the id has its active flag flipped and
   is updated `now`; the test definition and every other item are unchanged.
   */
  function HandleToggleStatus(tests: seq<CatalogItem>, id: string, now: int): (r: seq<CatalogItem>)
    ensures |r| == |tests|
    ensures forall i :: 0 <= i < |tests| ==> r[i].test == tests[i].test && r[i].createdAt == tests[i].createdAt
    ensures forall i :: 0 <= i < |tests| && tests[i].test.id == id ==>
      r[i].isActive == !tests[i].isActive && r[i].updatedAt == now
    ensures forall i :: 0 <= i < |tests| && tests[i].test.id != id ==> r[i] == tests[i]
  {
    Map(tests, (t: CatalogItem) => if t.test.id == id then t.(isActive := !t.isActive, updatedAt := now) else t)
  }

  /** Toggling twice restores every active flag; only the update times move. */
  lemma ToggleTwiceRestores(tests: seq<CatalogItem>, id: string, now1: int, now2: int)
    ensures var r := HandleToggleStatus(HandleToggleStatus(tests, id, now1), id, now2);
      |r| == |tests| &&
      forall i :: 0 <= i < |tests| ==> r[i].(updatedAt := tests[i].updatedAt) == tests[i]
  {
  }

  predicate ItemMatches(t: CatalogItem, term: string)
  {
    Matches(t.test.name, term) || Matches(t.test.category, term)
  }

  /**
   `filteredTests`: the items whose name or category contains the search term,
   ignoring ASCII case, in order; the empty term keeps them all.
   */
  function FilteredTests(tests: seq<CatalogItem>, term: string): (r: seq<CatalogItem>)
    ensures forall t :: t in r <==> t in tests && ItemMatches(t, term)
    ensures forall t :: multiset(r)[t] == if ItemMatches(t, term) then multiset(tests)[t] else 0
    ensures IsSubsequence(r, tests)
    ensures term == "" ==> r == tests
  {
    FilterIsSubsequence(tests, (t: CatalogItem) => ItemMatches(t, term));
    FilterMultiplicity(tests, (t: CatalogItem) => ItemMatches(t, term));
    EmptyTermMatchesAll();
    Filter(tests, (t: CatalogItem) => ItemMatches(t, term))
  }
}
