/**
 The researcher's new-study form: text fields, the list of ticked data types,
 and the check that enables submission.
 */
module NewStudy {
  import opened Seqs

  datatype StudyForm = StudyForm(
    title: string,
    description: string,
    objective: string,
    duration: string,
    targetParticipants: string,
    studyType: string,
    ethicsApproval: string,
    dataTypes: seq<string>,
    inclusionCriteria: string,
    exclusionCriteria: string,
    budget: string)

  const EmptyStudy: StudyForm := StudyForm("", "", "", "", "", "", "", [], "", "", "")

  /**
   `handleDataTypeChange`: ticking appends the data type (a second tick appends
   it again); unticking removes every occurrence. Every other field is kept.
   */
  function HandleDataTypeChange(form: StudyForm, dataType: string, checked: bool): (r: StudyForm)
    ensures r.(dataTypes := form.dataTypes) == form
    ensures checked ==> r.dataTypes == form.dataTypes + [dataType]
    ensures !checked ==> forall x :: x in r.dataTypes <==> x in form.dataTypes && x != dataType
    ensures !checked ==> IsSubsequence(r.dataTypes, form.dataTypes)
    ensures !checked ==> forall x :: multiset(r.dataTypes)[x] == if x != dataType then multiset(form.dataTypes)[x] else 0
  {
    if checked then
      form.(dataTypes := form.dataTypes + [dataType])
    else
      FilterIsSubsequence(form.dataTypes, (t: string) => t != dataType);
      FilterMultiplicity(form.dataTypes, (t: string) => t != dataType);
      form.(dataTypes := Filter(form.dataTypes, (t: string) => t != dataType))
  }

  /**
   `isFormValid`: submission needs a title, description, objective, study
   type and target participant count; the other fields may stay empty.
   */
  predicate IsFormValid(form: StudyForm)
  {
    form.title != "" && form.description != "" && form.objective != ""
    && form.studyType != "" && form.targetParticipants != ""
  }

  /** The empty form cannot be submitted, and filling the five required fields is enough. */
  lemma ValidityNeedsRequiredFields(form: StudyForm, title: string, description: string, objective: string,
                                    studyType: string, targetParticipants: string)
    requires title != "" && description != "" && objective != "" && studyType != "" && targetParticipants != ""
    ensures !IsFormValid(EmptyStudy)
    ensures IsFormValid(form.(title := title, description := description, objective := objective,
                              studyType := studyType, targetParticipants := targetParticipants))
    ensures IsFormValid(form) ==> IsFormValid(form.(duration := "", ethicsApproval := "", budget := "",
                                                    inclusionCriteria := "", exclusionCriteria := "", dataTypes := []))
  {
  }

  /** Ticking and unticking data types never changes whether the form can be submitted. */
  lemma DataTypeChangeKeepsValidity(form: StudyForm, dataType: string, checked: bool)
    ensures IsFormValid(HandleDataTypeChange(form, dataType, checked)) == IsFormValid(form)
  {
  }

  /** Ticking a data type that was not ticked and then unticking it restores the form. */
  lemma TickThenUntickRestores(form: StudyForm, dataType: string)
    requires dataType !in form.dataTypes
    ensures HandleDataTypeChange(HandleDataTypeChange(form, dataType, true), dataType, false) == form
  {
    FilterAppend(form.dataTypes, dataType, (t: string) => t != dataType);
  }

  /** One untick removes a data type however many times it was ticked. */
  lemma UntickRemovesEveryTick(form: StudyForm, dataType: string, n: nat)
    ensures dataType !in HandleDataTypeChange(TickRepeatedly(form, dataType, n), dataType, false).dataTypes
  {
  }

  function TickRepeatedly(form: StudyForm, dataType: string, n: nat): (r: StudyForm)
    ensures |r.dataTypes| == |form.dataTypes| + n
    ensures n > 0 ==> dataType in r.dataTypes
  {
    if n == 0 then form
    else
      var r := HandleDataTypeChange(TickRepeatedly(form, dataType, n - 1), dataType, true);
      assert r.dataTypes[|r.dataTypes| - 1] == dataType;
      r
  }
}
