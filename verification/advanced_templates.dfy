/**
 The report template library: a list of templates, each with an ordered list
 of sections. Templates can be searched, duplicated and deleted (default
 templates are protected), and a template's sections can be moved one place
 up or down, after which the sections are renumbered 1, 2, 3, ...
 */
module AdvancedTemplates {
  import opened Seqs
  import opened Text

  datatype SectionKind =
    Header | PatientInfo | TestResults | ReferenceRanges | Interpretation
    | Recommendations | DoctorSignature | LabSignature | Footer

  datatype Section = Section(
    id: string,
    kind: SectionKind,
    title: string,
    content: string,
    order: int,
    isRequired: bool)

  datatype Template = Template(
    id: string,
    name: string,
    category: string,
    description: string,
    sections: seq<Section>,
    isDefault: bool,
    createdAt: int,
    usage: int)

  datatype Direction = Up | Down

  /** `TPL` followed by the number padded to three digits. */
  function TemplateId(n: nat): string
  {
    PrefixedId("TPL", n)
  }

  /** No two templates share an id. */
  predicate IdsDistinct(templates: seq<Template>)
  {
    forall i, j :: 0 <= i < j < |templates| ==> templates[i].id != templates[j].id
  }

  /** The index of the first template with the id, or -1. */
  function TemplateIndex(templates: seq<Template>, id: string): (k: int)
    ensures -1 <= k < |templates|
    ensures k == -1 <==> forall i :: 0 <= i < |templates| ==> templates[i].id != id
    ensures k != -1 ==> templates[k].id == id && forall j :: 0 <= j < k ==> templates[j].id != id
  {
    FindIndex(templates, (t: Template) => t.id == id)
  }

  /** The index of the first section with the id, or -1. */
  function SectionIndex(sections: seq<Section>, id: string): (k: int)
    ensures -1 <= k < |sections|
    ensures k == -1 <==> forall i :: 0 <= i < |sections| ==> sections[i].id != id
    ensures k != -1 ==> sections[k].id == id && forall j :: 0 <= j < k ==> sections[j].id != id
  {
    FindIndex(sections, (s: Section) => s.id == id)
  }

  predicate TemplateMatches(t: Template, term: string)
  {
    Matches(t.name, term) || Matches(t.category, term)
  }

  /**
   `filteredTemplates`: the templates whose name or category contains the
   search term, ignoring ASCII case, in their original order; the empty term
   keeps them all.
   */
  function FilteredTemplates(templates: seq<Template>, term: string): (r: seq<Template>)
    ensures forall t :: t in r <==> t in templates && TemplateMatches(t, term)
    ensures forall t :: multiset(r)[t] == if TemplateMatches(t, term) then multiset(templates)[t] else 0
    ensures IsSubsequence(r, templates)
    ensures term == "" ==> r == templates
  {
    FilterIsSubsequence(templates, (t: Template) => TemplateMatches(t, term));
    FilterMultiplicity(templates, (t: Template) => TemplateMatches(t, term));
    EmptyTermMatchesAll();
    Filter(templates, (t: Template) => TemplateMatches(t, term))
  }

  /**
   `handleDuplicateTemplate`: a copy of the first template with the id is
   appended, named with " (Copy)", not default, unused, created `now`, and
   numbered one past the current count. A missing id changes nothing.
   */
  function DuplicateTemplate(templates: seq<Template>, id: string, now: int): (r: seq<Template>)
    ensures TemplateIndex(templates, id) == -1 ==> r == templates
    ensures TemplateIndex(templates, id) != -1 ==>
      var src := templates[TemplateIndex(templates, id)];
      && |r| == |templates| + 1 && r[..|templates|] == templates
      && r[|templates|].id == TemplateId(|templates| + 1)
      && r[|templates|].name == src.name + " (Copy)"
      && r[|templates|].category == src.category
      && r[|templates|].description == src.description
      && r[|templates|].sections == src.sections
      && !r[|templates|].isDefault && r[|templates|].usage == 0 && r[|templates|].createdAt == now
  {
    var k := TemplateIndex(templates, id);
    if k == -1 then templates
    else
      var src := templates[k];
      templates + [src.(id := TemplateId(|templates| + 1), name := src.name + " (Copy)",
                        isDefault := false, createdAt := now, usage := 0)]
  }

  /**
   `handleDeleteTemplate`: when the first template with the id is a default
   one, or the user declines the confirmation, nothing changes; otherwise every
   template with the id is removed and the rest keep their order.
   */
  function DeleteTemplate(templates: seq<Template>, id: string, confirmed: bool): (r: seq<Template>)
    ensures TemplateIndex(templates, id) != -1 && templates[TemplateIndex(templates, id)].isDefault ==> r == templates
    ensures !confirmed ==> r == templates
    ensures confirmed && (TemplateIndex(templates, id) == -1 || !templates[TemplateIndex(templates, id)].isDefault) ==>
      && (forall t :: t in r <==> t in templates && t.id != id) && IsSubsequence(r, templates)
      && (forall t :: multiset(r)[t] == if t.id != id then multiset(templates)[t] else 0)
  {
    var k := TemplateIndex(templates, id);
    if k != -1 && templates[k].isDefault then templates
    else if confirmed then
      FilterIsSubsequence(templates, (t: Template) => t.id != id);
      FilterMultiplicity(templates, (t: Template) => t.id != id);
      Filter(templates, (t: Template) => t.id != id)
    else templates
  }

  /** When template ids are distinct, no delete ever removes a default template. */
  lemma DefaultTemplatesSurvive(templates: seq<Template>, id: string, confirmed: bool)
    requires IdsDistinct(templates)
    ensures forall t :: t in templates && t.isDefault ==> t in DeleteTemplate(templates, id, confirmed)
  {
    var k := TemplateIndex(templates, id);
    forall t | t in templates && t.isDefault
      ensures t in DeleteTemplate(templates, id, confirmed)
    {
      if t.id == id {
        var i :| 0 <= i < |templates| && templates[i] == t;
        assert k == i;
      }
    }
  }

  /** `section.order = idx + 1` for every section. */
  function Renumber(sections: seq<Section>): (r: seq<Section>)
    ensures |r| == |sections|
    ensures forall i :: 0 <= i < |sections| ==> r[i] == sections[i].(order := i + 1)
  {
    seq(|sections|, i requires 0 <= i < |sections| => sections[i].(order := i + 1))
  }

  /**
   A move down of a section the template does not have swaps the index -1
   into position 0, and the renumbering then fails on the missing section.
   */
  predicate MoveFails(t: Template, sectionId: string, dir: Direction)
  {
    dir == Down && |t.sections| > 0 && SectionIndex(t.sections, sectionId) == -1
  }

  /**
   `after` is `before` with the sections at `a` and `b` traded and every
   section renumbered by its position.
   */
  predicate SwappedAndRenumbered(before: seq<Section>, after: seq<Section>, a: nat, b: nat)
    requires a < |before| && b < |before|
  {
    && |after| == |before|
    && after[a] == before[b].(order := a + 1) && after[b] == before[a].(order := b + 1)
    && (forall i :: 0 <= i < |before| ==> after[i].order == i + 1)
    && (forall i :: 0 <= i < |before| && i != a && i != b ==> after[i] == before[i].(order := i + 1))
  }

  /**
   The move inside one template: the first section with the id trades places
   with its neighbour and every section is renumbered by position; at either
   end (or with no such section, moving up) the sections are left as they are.
   */
  function MoveWithin(t: Template, sectionId: string, dir: Direction): (r: Template)
    requires !MoveFails(t, sectionId, dir)
    ensures r.(sections := t.sections) == t
    ensures |r.sections| == |t.sections|
    ensures var k := SectionIndex(t.sections, sectionId);
      (dir == Up && k <= 0) || (dir == Down && k == |t.sections| - 1) ==> r == t
  {
    var k := SectionIndex(t.sections, sectionId);
    if dir == Up && k > 0 then
      t.(sections := Renumber(Swap(t.sections, k, k - 1)))
    else if dir == Down && k < |t.sections| - 1 then
      t.(sections := Renumber(Swap(t.sections, k, k + 1)))
    else t
  }

  /**
   When the section has a neighbour in the direction of the move, the two trade
   places and every section is renumbered by position.
   */
  lemma MoveWithinSwaps(t: Template, sectionId: string, dir: Direction)
    requires !MoveFails(t, sectionId, dir)
    ensures var k := SectionIndex(t.sections, sectionId);
      dir == Up && k > 0 ==> SwappedAndRenumbered(t.sections, MoveWithin(t, sectionId, dir).sections, k, k - 1)
    ensures var k := SectionIndex(t.sections, sectionId);
      dir == Down && 0 <= k < |t.sections| - 1 ==>
        SwappedAndRenumbered(t.sections, MoveWithin(t, sectionId, dir).sections, k, k + 1)
  {
    var k := SectionIndex(t.sections, sectionId);
    if dir == Up && k > 0 {
      SwapRenumbered(t.sections, k, k - 1);
    } else if dir == Down && 0 <= k < |t.sections| - 1 {
      SwapRenumbered(t.sections, k, k + 1);
    }
  }

  lemma SwapRenumbered(sections: seq<Section>, a: nat, b: nat)
    requires a < |sections| && b < |sections|
    ensures SwappedAndRenumbered(sections, Renumber(Swap(sections, a, b)), a, b)
  {
  }

  /** A move keeps the same section ids, each as often as before. */
  lemma MoveWithinPermutesIds(t: Template, sectionId: string, dir: Direction)
    requires !MoveFails(t, sectionId, dir)
    ensures multiset(Map(MoveWithin(t, sectionId, dir).sections, (s: Section) => s.id))
         == multiset(Map(t.sections, (s: Section) => s.id))
  {
    var k := SectionIndex(t.sections, sectionId);
    var ids := Map(t.sections, (s: Section) => s.id);
    if dir == Up && k > 0 {
      MovedIdsAreSwap(t, sectionId, dir, k - 1);
      SwapIsPermutation(ids, k, k - 1);
    } else if dir == Down && k < |t.sections| - 1 {
      MovedIdsAreSwap(t, sectionId, dir, k + 1);
      SwapIsPermutation(ids, k, k + 1);
    }
  }

  /** When a move happens, the ids afterwards are the ids before with the two neighbours swapped. */
  lemma MovedIdsAreSwap(t: Template, sectionId: string, dir: Direction, j: int)
    requires !MoveFails(t, sectionId, dir)
    requires var k := SectionIndex(t.sections, sectionId);
      (dir == Up && k > 0 && j == k - 1) || (dir == Down && 0 <= k < |t.sections| - 1 && j == k + 1)
    ensures var k := SectionIndex(t.sections, sectionId);
      Map(MoveWithin(t, sectionId, dir).sections, (s: Section) => s.id)
        == Swap(Map(t.sections, (s: Section) => s.id), k, j)
  {
    var k := SectionIndex(t.sections, sectionId);
    MoveWithinSwaps(t, sectionId, dir);
    var ids := Map(t.sections, (s: Section) => s.id);
    var moved := MoveWithin(t, sectionId, dir).sections;
    var after := Map(moved, (s: Section) => s.id);
    var swapped := Swap(ids, k, j);
    forall i | 0 <= i < |ids|
      ensures after[i] == swapped[i]
    {
      if i == k {
        assert moved[k].id == t.sections[j].id;
      } else if i == j {
        assert moved[j].id == t.sections[k].id;
      } else {
        assert moved[i].id == t.sections[i].id;
      }
    }
  }

  /**
   `moveSection`: every template with the id gets the move, every other
   template is left exactly as it was. `None` when the move fails on one of
   them.
   */
  function MoveSection(templates: seq<Template>, templateId: string, sectionId: string, dir: Direction): (r: Option<seq<Template>>)
    ensures r.None? <==> exists i :: 0 <= i < |templates| && templates[i].id == templateId && MoveFails(templates[i], sectionId, dir)
    ensures r.Some? ==> |r.value| == |templates|
    ensures r.Some? ==> forall i :: 0 <= i < |templates| && templates[i].id != templateId ==> r.value[i] == templates[i]
    ensures r.Some? ==> forall i :: 0 <= i < |templates| && templates[i].id == templateId ==>
      r.value[i] == MoveWithin(templates[i], sectionId, dir)
  {
    if exists i :: 0 <= i < |templates| && templates[i].id == templateId && MoveFails(templates[i], sectionId, dir) then None
    else
      Some(seq(|templates|, i requires 0 <= i < |templates| =>
        if templates[i].id == templateId then MoveWithin(templates[i], sectionId, dir) else templates[i]))
  }

  /**
   The duplicate id collision: when the last template is numbered by the count
   (as the seeded list is), deleting one other template and duplicating any
   template gives the copy the id the last template already has.
   */
  lemma DeleteThenDuplicateReusesId(templates: seq<Template>, victim: nat, source: string, now: int)
    requires |templates| >= 2 && victim < |templates| - 1
    requires IdsDistinct(templates)
    requires !templates[victim].isDefault
    requires templates[|templates| - 1].id == TemplateId(|templates|)
    requires source != templates[victim].id && TemplateIndex(templates, source) != -1
    ensures var d := DeleteTemplate(templates, templates[victim].id, true);
      var r := DuplicateTemplate(d, source, now);
      |r| == |templates| && r[|r| - 2].id == r[|r| - 1].id
  {
    var d := DeleteTemplate(templates, templates[victim].id, true);
    DeleteKeepsLast(templates, victim);
    var src := templates[TemplateIndex(templates, source)];
    assert src in d;
    assert TemplateIndex(d, source) != -1;
  }

  /** Deleting a template other than the last shortens the list by one and leaves the last one last. */
  lemma DeleteKeepsLast(templates: seq<Template>, victim: nat)
    requires |templates| >= 2 && victim < |templates| - 1
    requires IdsDistinct(templates)
    requires !templates[victim].isDefault
    ensures |DeleteTemplate(templates, templates[victim].id, true)| == |templates| - 1
    ensures DeleteTemplate(templates, templates[victim].id, true)[|templates| - 2] == templates[|templates| - 1]
  {
    var id := templates[victim].id;
    IndexOfDistinct(templates, victim);
    DeleteIsFilter(templates, id);
    FilterDropsOneKeepsLast(templates, victim, id);
  }

  /** A confirmed delete of a template that is not a default is the filter on the id. */
  lemma DeleteIsFilter(templates: seq<Template>, id: string)
    requires TemplateIndex(templates, id) == -1 || !templates[TemplateIndex(templates, id)].isDefault
    ensures DeleteTemplate(templates, id, true) == Filter(templates, (t: Template) => t.id != id)
  {
  }

  /** With distinct ids, a template's id finds that template. */
  lemma IndexOfDistinct(templates: seq<Template>, i: nat)
    requires i < |templates| && IdsDistinct(templates)
    ensures TemplateIndex(templates, templates[i].id) == i
  {
    var k := TemplateIndex(templates, templates[i].id);
    if k != i {
      assert templates[k].id == templates[i].id;
    }
  }

  /** Filtering out the id of a template other than the last removes one template and keeps the last. */
  lemma FilterDropsOneKeepsLast(templates: seq<Template>, victim: nat, id: string)
    requires |templates| >= 2 && victim < |templates| - 1
    requires IdsDistinct(templates) && templates[victim].id == id
    ensures |Filter(templates, (t: Template) => t.id != id)| == |templates| - 1
    ensures Filter(templates, (t: Template) => t.id != id)[|templates| - 2] == templates[|templates| - 1]
  {
    var init := templates[..|templates| - 1];
    var last := templates[|templates| - 1];
    assert templates == init + [last];
    assert last.id != id;
    FilterAppend(init, last, (t: Template) => t.id != id);
    assert IdsDistinct(init) by {
      forall i, j | 0 <= i < j < |init| ensures init[i].id != init[j].id {
        assert init[i] == templates[i] && init[j] == templates[j];
      }
    }
    assert init[victim].id == id;
    FilterDropsOne(init, victim, id);
  }

  /** With distinct ids, filtering out the id of one template removes exactly that one. */
  lemma FilterDropsOne(templates: seq<Template>, victim: nat, id: string)
    requires victim < |templates| && IdsDistinct(templates) && templates[victim].id == id
    ensures |Filter(templates, (t: Template) => t.id != id)| == |templates| - 1
  {
    CountSplit(templates, (t: Template) => t.id != id, (t: Template) => t.id == id);
    OneMatchAtMost(templates, id);
    assert templates[victim] in Filter(templates, (t: Template) => t.id == id);
  }

  /** With distinct ids, at most one template carries a given id. */
  lemma {:induction false} OneMatchAtMost(templates: seq<Template>, id: string)
    requires IdsDistinct(templates)
    ensures |Filter(templates, (t: Template) => t.id == id)| <= 1
  {
    if |templates| > 0 {
      var rest := templates[1..];
      assert IdsDistinct(rest) by {
        forall i, j | 0 <= i < j < |rest| ensures rest[i].id != rest[j].id {
          assert rest[i] == templates[i + 1] && rest[j] == templates[j + 1];
        }
      }
      OneMatchAtMost(rest, id);
      if templates[0].id == id {
        assert forall i :: 0 <= i < |rest| ==> rest[i].id != id by {
          forall i | 0 <= i < |rest| ensures rest[i].id != id {
            assert rest[i] == templates[i + 1];
          }
        }
        CountSplit(rest, (t: Template) => t.id == id, (t: Template) => t.id != id);
      }
    }
  }
}
