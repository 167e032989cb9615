/**
 The report template builder: an editable list of sections that can be added,
 deleted, edited field by field and moved one place up or down. The builder
 never renumbers `order`: a section keeps the number it was created with.
 */
module TemplateBuilder {
  import opened Seqs
  import opened Text

  datatype SectionKind = Header | Parameters | Interpretation | Recommendations | Footer

  function KindName(k: SectionKind): string
  {
    match k
    case Header => "header"
    case Parameters => "parameters"
    case Interpretation => "interpretation"
    case Recommendations => "recommendations"
    case Footer => "footer"
  }

  datatype Section = Section(id: string, kind: SectionKind, title: string, content: string, order: int)

  /** The two text fields the editor writes through `updateSection`. */
  datatype Field = Title | Content

  datatype Direction = Up | Down

  const InitialSections: seq<Section> := [
    Section("1", Header, "Lab Information", "Laboratory Name: {LAB_NAME}\nDate: {DATE}\nTime: {TIME}", 1),
    Section("2", Parameters, "Test Results", "{TEST_PARAMETERS}", 2)
  ]

  /** The index of the first section with the id, or -1. */
  function SectionIndex(sections: seq<Section>, id: string): (k: int)
    ensures -1 <= k < |sections|
    ensures k == -1 <==> forall i :: 0 <= i < |sections| ==> sections[i].id != id
    ensures k != -1 ==> sections[k].id == id && forall j :: 0 <= j < k ==> sections[j].id != id
  {
    FindIndex(sections, (s: Section) => s.id == id)
  }

  /**
   `addSection`: one new section at the end, titled "New " and the kind, with
   empty content, numbered one past the current count; its id is the clock
   reading `stamp`.
   */
  function AddSection(sections: seq<Section>, kind: SectionKind, stamp: nat): (r: seq<Section>)
    ensures |r| == |sections| + 1 && r[..|sections|] == sections
    ensures r[|sections|].id == DecimalString(stamp) && r[|sections|].kind == kind
    ensures r[|sections|].title == "New " + KindName(kind) && r[|sections|].content == ""
    ensures r[|sections|].order == |sections| + 1
  {
    sections + [Section(DecimalString(stamp), kind, "New " + KindName(kind), "", |sections| + 1)]
  }

  /**
   `deleteSection`: every section with the id is removed, the others keep
   their relative order and their `order` numbers.
   */
  function DeleteSection(sections: seq<Section>, id: string): (r: seq<Section>)
    ensures forall s :: s in r <==> s in sections && s.id != id
    ensures forall s :: multiset(r)[s] == if s.id != id then multiset(sections)[s] else 0
    ensures IsSubsequence(r, sections)
    ensures (forall i :: 0 <= i < |sections| ==> sections[i].id != id) ==> r == sections
  {
    FilterIsSubsequence(sections, (s: Section) => s.id != id);
    FilterMultiplicity(sections, (s: Section) => s.id != id);
    Filter(sections, (s: Section) => s.id != id)
  }

  function SetField(s: Section, field: Field, value: string): Section
  {
    match field
    case Title => s.(title := value)
    case Content => s.(content := value)
  }

  /**
   `updateSection`: the named field takes the value on every section with the
   id; every other field, and every other section, is unchanged.
   */
  function UpdateSection(sections: seq<Section>, id: string, field: Field, value: string): (r: seq<Section>)
    ensures |r| == |sections|
    ensures forall i :: 0 <= i < |sections| ==>
      && r[i].id == sections[i].id && r[i].kind == sections[i].kind && r[i].order == sections[i].order
      && (sections[i].id != id ==> r[i] == sections[i])
      && (sections[i].id == id && field == Title ==> r[i].title == value && r[i].content == sections[i].content)
      && (sections[i].id == id && field == Content ==> r[i].content == value && r[i].title == sections[i].title)
  {
    Map(sections, (s: Section) => if s.id == id then SetField(s, field, value) else s)
  }

  /** Deleting the section just added, when its clock id was not in use, gives back the list before the add. */
  lemma DeleteUndoesAdd(sections: seq<Section>, kind: SectionKind, stamp: nat)
    requires forall i :: 0 <= i < |sections| ==> sections[i].id != DecimalString(stamp)
    ensures DeleteSection(AddSection(sections, kind, stamp), DecimalString(stamp)) == sections
  {
    var id := DecimalString(stamp);
    var added := AddSection(sections, kind, stamp);
    assert added == sections + [added[|sections|]];
    FilterAppend(sections, added[|sections|], (s: Section) => s.id != id);
  }

  /** Writing the same value to the same field twice is the same as writing it once. */
  lemma UpdateSectionIdempotent(sections: seq<Section>, id: string, field: Field, value: string)
    ensures var once := UpdateSection(sections, id, field, value);
      UpdateSection(once, id, field, value) == once
  {
    var once := UpdateSection(sections, id, field, value);
    var twice := UpdateSection(once, id, field, value);
    forall i | 0 <= i < |sections|
      ensures twice[i] == once[i]
    {
      assert twice[i].id == once[i].id;
    }
  }

  /**
   `moveSection`: swap the first section with the id with its neighbour in the
   given direction, when there is one; `order` travels with the section. With
   no such section a move up does nothing, while a move down swaps the missing
   index -1 into position 0 and corrupts the list; that case is `None`.
   */
  function MoveSection(sections: seq<Section>, id: string, dir: Direction): (r: Option<seq<Section>>)
    ensures r.None? <==> dir == Down && |sections| > 0 && forall i :: 0 <= i < |sections| ==> sections[i].id != id
    ensures r.Some? ==> multiset(r.value) == multiset(sections)
    ensures var k := SectionIndex(sections, id); dir == Up && k > 0 ==> r == Some(Swap(sections, k, k - 1))
    ensures var k := SectionIndex(sections, id); dir == Down && 0 <= k < |sections| - 1 ==> r == Some(Swap(sections, k, k + 1))
    ensures var k := SectionIndex(sections, id); dir == Up && k <= 0 ==> r == Some(sections)
    ensures var k := SectionIndex(sections, id); dir == Down && k == |sections| - 1 ==> r == Some(sections)
  {
    var k := SectionIndex(sections, id);
    if dir == Up && k > 0 then
      SwapIsPermutation(sections, k, k - 1);
      Some(Swap(sections, k, k - 1))
    else if dir == Down && k < |sections| - 1 then
      if k == -1 then None
      else
        SwapIsPermutation(sections, k, k + 1);
        Some(Swap(sections, k, k + 1))
    else Some(sections)
  }

  /**
   Moving a section up and then down again restores the list. Ids need not be
   distinct: the moved section is the first with its id both times.
   */
  lemma UpThenDownRestores(sections: seq<Section>, id: string)
    requires SectionIndex(sections, id) > 0
    ensures MoveSection(sections, id, Up).Some?
    ensures MoveSection(MoveSection(sections, id, Up).value, id, Down) == Some(sections)
  {
    var k := SectionIndex(sections, id);
    var moved := Swap(sections, k, k - 1);
    assert MoveSection(sections, id, Up) == Some(moved);
    MovedUpIndex(sections, id);
    assert MoveSection(moved, id, Down) == Some(Swap(moved, k - 1, k));
    SwapTwice(sections, k, k - 1);
  }

  /** After a move up, the section is found one place earlier. */
  lemma MovedUpIndex(sections: seq<Section>, id: string)
    requires SectionIndex(sections, id) > 0
    ensures var k := SectionIndex(sections, id);
      SectionIndex(Swap(sections, k, k - 1), id) == k - 1
  {
    var k := SectionIndex(sections, id);
    var moved := Swap(sections, k, k - 1);
    assert moved[k - 1].id == id;
    forall j | 0 <= j < k - 1
      ensures moved[j].id != id
    {
      assert moved[j] == sections[j];
    }
  }

  /**
   Because deleting does not renumber, a section added after a delete can share
   its `order` with a survivor: deleting section "1" of the initial two and
   adding one leaves two sections numbered 2.
   */
  lemma DeleteThenAddRepeatsOrder(kind: SectionKind, stamp: nat)
    ensures var r := AddSection(DeleteSection(InitialSections, "1"), kind, stamp);
      |r| == 2 && r[0].order == 2 && r[1].order == 2
  {
    var d := DeleteSection(InitialSections, "1");
    assert InitialSections[1] in d;
    assert InitialSections[0] !in d;
    assert d == [InitialSections[1]] by {
      assert Filter(InitialSections, (s: Section) => s.id != "1") == [InitialSections[1]];
    }
  }
}
