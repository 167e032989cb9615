/**
 The in-memory laboratory store: tests, patients and samples held in arrays,
 with create, update, delete and lookup by id. The store object of the source
 is a `Store` value here; each operation returns the new store together with
 what the source method returns. Every clock read is the parameter `now`.
 */
module LabData {
  import opened Seqs
  import opened Text
  import opened LabTypes
  import Results

  datatype Patient = Patient(
    id: string,
    name: string,
    phone: string,
    email: string,
    age: string,
    gender: string,
    address: string,
    createdAt: int)

  /** A patient as submitted, before the store assigns its id and creation time. */
  datatype PatientDraft = PatientDraft(
    name: string,
    phone: string,
    email: string,
    age: string,
    gender: string,
    address: string)

  /** A test as submitted, before the store assigns its id. */
  datatype TestDraft = TestDraft(
    name: string,
    category: string,
    description: string,
    duration: int,
    price: int,
    requiresSpecialPrep: bool,
    sampleType: SampleKind)

  /** `Partial<TestType>`: each field present replaces the stored one. */
  datatype TestPatch = TestPatch(
    id: Option<string>,
    name: Option<string>,
    category: Option<string>,
    description: Option<string>,
    duration: Option<int>,
    price: Option<int>,
    requiresSpecialPrep: Option<bool>,
    sampleType: Option<SampleKind>)

  /** A sample as the store keeps it, with its result entries and last-update time. */
  datatype StoredSample = StoredSample(
    sample: Sample,
    results: Option<seq<Results.ResultEntry>>,
    updatedAt: int)

  /** A sample as submitted, before the store assigns id, barcode and times. */
  datatype SampleDraft = SampleDraft(
    patientId: string,
    patientName: string,
    testType: TestType,
    status: SampleStatus,
    priority: Priority,
    processedAt: Option<int>,
    completedAt: Option<int>,
    notes: Option<string>,
    results: Option<seq<Results.ResultEntry>>)

  /**
   `Partial<StoredSample>`. An optional field of the sample is patched with an
   `Option<Option<_>>`: `Some(None)` writes `undefined` over it.
   */
  datatype SamplePatch = SamplePatch(
    id: Option<string>,
    patientId: Option<string>,
    patientName: Option<string>,
    testType: Option<TestType>,
    status: Option<SampleStatus>,
    priority: Option<Priority>,
    receivedAt: Option<int>,
    processedAt: Option<Option<int>>,
    completedAt: Option<Option<int>>,
    notes: Option<Option<string>>,
    barcode: Option<Option<string>>,
    results: Option<Option<seq<Results.ResultEntry>>>,
    updatedAt: Option<int>)

  datatype Store = Store(tests: seq<TestType>, patients: seq<Patient>, samples: seq<StoredSample>)

  /** The three tests the store starts with. */
  const SeedTests: seq<TestType> := [
    TestType("T001", "Complete Blood Count", "Hematology", "Comprehensive blood analysis", 45, 250000, false, Blood),
    TestType("T002", "Lipid Panel", "Chemistry", "Cholesterol analysis", 60, 350000, true, Blood),
    TestType("T003", "Urinalysis", "Urinalysis", "Complete urine examination", 30, 150000, false, Urine)
  ]

  const Initial: Store := Store(SeedTests, [], [])

  /** `T` followed by the number padded to three digits. */
  function TestId(n: nat): string
  {
    PrefixedId("T", n)
  }

  function PatientId(n: nat): string
  {
    PrefixedId("P", n)
  }

  /** `SAM` followed by the last eight digits of the clock reading. */
  function SampleStamp(now: nat): string
  {
    "SAM" + Last8(DecimalString(now))
  }

  function Get<T>(o: Option<T>, default: T): T
  {
    if o.Some? then o.value else default
  }

  /** `{ ...t, ...patch }`. */
  function PatchTest(t: TestType, u: TestPatch): TestType
  {
    TestType(
      Get(u.id, t.id), Get(u.name, t.name), Get(u.category, t.category),
      Get(u.description, t.description), Get(u.duration, t.duration), Get(u.price, t.price),
      Get(u.requiresSpecialPrep, t.requiresSpecialPrep), Get(u.sampleType, t.sampleType))
  }

  /** `{ ...s, ...patch }` on a stored sample, before the update time is forced. */
  function PatchSample(s: StoredSample, u: SamplePatch): StoredSample
  {
    var b := s.sample;
    StoredSample(
      Sample(
        Get(u.id, b.id), Get(u.patientId, b.patientId), Get(u.patientName, b.patientName),
        Get(u.testType, b.testType), Get(u.status, b.status), Get(u.priority, b.priority),
        Get(u.receivedAt, b.receivedAt), Get(u.processedAt, b.processedAt),
        Get(u.completedAt, b.completedAt), Get(u.notes, b.notes), Get(u.barcode, b.barcode)),
      Get(u.results, s.results),
      Get(u.updatedAt, s.updatedAt))
  }

  /** The index of the first test with the id, or -1. */
  function TestIndex(tests: seq<TestType>, id: string): (k: int)
    ensures -1 <= k < |tests|
    ensures k == -1 <==> forall i :: 0 <= i < |tests| ==> tests[i].id != id
    ensures k != -1 ==> tests[k].id == id && forall j :: 0 <= j < k ==> tests[j].id != id
  {
    FindIndex(tests, (t: TestType) => t.id == id)
  }

  /** The index of the first sample with the id, or -1. */
  function SampleIndex(samples: seq<StoredSample>, id: string): (k: int)
    ensures -1 <= k < |samples|
    ensures k == -1 <==> forall i :: 0 <= i < |samples| ==> samples[i].sample.id != id
    ensures k != -1 ==> samples[k].sample.id == id && forall j :: 0 <= j < k ==> samples[j].sample.id != id
  {
    FindIndex(samples, (s: StoredSample) => s.sample.id == id)
  }

  /** The first position holding the id is the one the index search returns. */
  lemma TestIndexIsFirst(tests: seq<TestType>, id: string)
    ensures forall k :: 0 <= k < |tests| && tests[k].id == id && (forall j :: 0 <= j < k ==> tests[j].id != id) ==>
      TestIndex(tests, id) == k
  {
  }

  lemma SampleIndexIsFirst(samples: seq<StoredSample>, id: string)
    ensures forall k :: 0 <= k < |samples| && samples[k].sample.id == id &&
                        (forall j :: 0 <= j < k ==> samples[j].sample.id != id) ==>
      SampleIndex(samples, id) == k
  {
  }

  /** `getTests`: a copy of the test list. */
  function GetTests(s: Store): seq<TestType>
  {
    s.tests
  }

  /**
   `addTest`: the new test gets id `T` + (count + 1) padded to three digits, is
   appended after every existing test, and is returned.
   */
  function AddTest(s: Store, d: TestDraft): (r: (Store, TestType))
    ensures r.0.tests == s.tests + [r.1]
    ensures r.1.id == TestId(|s.tests| + 1)
    ensures r.1.name == d.name && r.1.category == d.category && r.1.description == d.description
    ensures r.1.duration == d.duration && r.1.price == d.price
    ensures r.1.requiresSpecialPrep == d.requiresSpecialPrep && r.1.sampleType == d.sampleType
    ensures r.0.patients == s.patients && r.0.samples == s.samples
  {
    var t := TestType(TestId(|s.tests| + 1), d.name, d.category, d.description, d.duration, d.price,
                      d.requiresSpecialPrep, d.sampleType);
    (s.(tests := s.tests + [t]), t)
  }

  /**
   `updateTest`: with no test of that id the store is unchanged and the answer
   is null; otherwise the first such test has the given fields overwritten,
   nothing else in the store changes, and the updated test is returned.
   */
  function UpdateTest(s: Store, id: string, u: TestPatch): (r: (Store, Option<TestType>))
    ensures (forall i :: 0 <= i < |s.tests| ==> s.tests[i].id != id) ==> r.0 == s && r.1 == None
    ensures forall k :: 0 <= k < |s.tests| && s.tests[k].id == id && (forall j :: 0 <= j < k ==> s.tests[j].id != id) ==>
      && r.1 == Some(PatchTest(s.tests[k], u))
      && |r.0.tests| == |s.tests|
      && r.0.tests[k] == PatchTest(s.tests[k], u)
      && (forall j :: 0 <= j < |s.tests| && j != k ==> r.0.tests[j] == s.tests[j])
    ensures r.0.patients == s.patients && r.0.samples == s.samples
  {
    TestIndexIsFirst(s.tests, id);
    var k := TestIndex(s.tests, id);
    if k == -1 then (s, None)
    else
      var t := PatchTest(s.tests[k], u);
      (s.(tests := s.tests[k := t]), Some(t))
  }

  /**
   `deleteTest`: false and no change when no test has the id; otherwise the
   first such test is removed, the others keep their order, and the answer is
   true.
   */
  function DeleteTest(s: Store, id: string): (r: (Store, bool))
    ensures r.1 <==> exists i :: 0 <= i < |s.tests| && s.tests[i].id == id
    ensures !r.1 ==> r.0 == s
    ensures forall k :: 0 <= k < |s.tests| && s.tests[k].id == id && (forall j :: 0 <= j < k ==> s.tests[j].id != id) ==>
      r.0.tests == s.tests[..k] + s.tests[k + 1..]
    ensures r.0.patients == s.patients && r.0.samples == s.samples
  {
    var k := TestIndex(s.tests, id);
    if k == -1 then (s, false)
    else (s.(tests := s.tests[..k] + s.tests[k + 1..]), true)
  }

  /**
   `addPatient`: the new patient gets id `P` + (count + 1) padded to three
   digits and creation time `now`, and is appended and returned.
   */
  function AddPatient(s: Store, d: PatientDraft, now: int): (r: (Store, Patient))
    ensures r.0.patients == s.patients + [r.1]
    ensures r.1.id == PatientId(|s.patients| + 1) && r.1.createdAt == now
    ensures r.1.name == d.name && r.1.phone == d.phone && r.1.email == d.email
    ensures r.1.age == d.age && r.1.gender == d.gender && r.1.address == d.address
    ensures r.0.tests == s.tests && r.0.samples == s.samples
  {
    var p := Patient(PatientId(|s.patients| + 1), d.name, d.phone, d.email, d.age, d.gender, d.address, now);
    (s.(patients := s.patients + [p]), p)
  }

  /**
   `addSample`: the new sample's id and barcode are both `SAM` plus the last
   eight digits of the clock, it is received and updated at `now`, and it is
   appended and returned.
   */
  function AddSample(s: Store, d: SampleDraft, now: nat): (r: (Store, StoredSample))
    ensures r.0.samples == s.samples + [r.1]
    ensures r.1.sample.id == SampleStamp(now) && r.1.sample.barcode == Some(SampleStamp(now))
    ensures |r.1.sample.id| <= 11
    ensures r.1.sample.receivedAt == now && r.1.updatedAt == now
    ensures r.1.sample.patientId == d.patientId && r.1.sample.patientName == d.patientName
    ensures r.1.sample.testType == d.testType && r.1.sample.status == d.status
    ensures r.1.sample.priority == d.priority && r.1.results == d.results
    ensures r.1.sample.processedAt == d.processedAt && r.1.sample.completedAt == d.completedAt
    ensures r.1.sample.notes == d.notes
    ensures r.0.tests == s.tests && r.0.patients == s.patients
  {
    var stamp := SampleStamp(now);
    var n := StoredSample(
      Sample(stamp, d.patientId, d.patientName, d.testType, d.status, d.priority, now,
             d.processedAt, d.completedAt, d.notes, Some(stamp)),
      d.results, now);
    (s.(samples := s.samples + [n]), n)
  }

  /**
   `updateSample`: null and no change when no sample has the id; otherwise the
   first such sample takes every patched field, any status included, and its
   update time is `now` whatever the patch says.
   */
  function UpdateSample(s: Store, id: string, u: SamplePatch, now: int): (r: (Store, Option<StoredSample>))
    ensures (forall i :: 0 <= i < |s.samples| ==> s.samples[i].sample.id != id) ==> r.0 == s && r.1 == None
    ensures forall k :: 0 <= k < |s.samples| && s.samples[k].sample.id == id && (forall j :: 0 <= j < k ==> s.samples[j].sample.id != id) ==>
      && r.1 == Some(PatchSample(s.samples[k], u).(updatedAt := now))
      && |r.0.samples| == |s.samples|
      && r.0.samples[k] == r.1.value
      && (forall j :: 0 <= j < |s.samples| && j != k ==> r.0.samples[j] == s.samples[j])
    ensures r.1.Some? ==> r.1.value.updatedAt == now
    ensures r.1.Some? && u.status.Some? ==> r.1.value.sample.status == u.status.value
    ensures r.0.tests == s.tests && r.0.patients == s.patients
  {
    SampleIndexIsFirst(s.samples, id);
    var k := SampleIndex(s.samples, id);
    if k == -1 then (s, None)
    else
      var n := PatchSample(s.samples[k], u).(updatedAt := now);
      (s.(samples := s.samples[k := n]), Some(n))
  }

  /** `getSampleById`: the first sample with the id, or null. */
  function GetSampleById(s: Store, id: string): (r: Option<StoredSample>)
    ensures r.None? <==> forall i :: 0 <= i < |s.samples| ==> s.samples[i].sample.id != id
    ensures r.Some? ==> r.value.sample.id == id
    ensures r.Some? ==> exists k :: 0 <= k < |s.samples| && s.samples[k] == r.value &&
                                    (forall j :: 0 <= j < k ==> s.samples[j].sample.id != id)
  {
    var k := SampleIndex(s.samples, id);
    if k == -1 then None else Some(s.samples[k])
  }

  /** Looking a sample up after updating it finds the updated sample. */
  lemma GetAfterUpdate(s: Store, id: string, u: SamplePatch, now: int)
    requires u.id.None?
    ensures var r := UpdateSample(s, id, u, now);
      GetSampleById(r.0, id) == r.1
  {
    var r := UpdateSample(s, id, u, now);
    var k := SampleIndex(s.samples, id);
    if k != -1 {
      assert r.0.samples[k].sample.id == id;
      var k' := SampleIndex(r.0.samples, id);
      assert k' == k;
    }
  }

  /** A patch that sets no field. */
  const NoTestChanges: TestPatch := TestPatch(None, None, None, None, None, None, None, None)

  /** Updating a test with a patch that sets nothing leaves the store as it was. */
  lemma UpdateWithoutChanges(s: Store, id: string)
    ensures UpdateTest(s, id, NoTestChanges).0 == s
  {
    var k := TestIndex(s.tests, id);
    if k != -1 {
      assert PatchTest(s.tests[k], NoTestChanges) == s.tests[k];
      assert s.tests[k := s.tests[k]] == s.tests;
    }
  }

  /**
   Deleting the id `addTest` just assigned gives back the store as it was,
   provided no earlier test already carried that id.
   */
  lemma DeleteUndoesAddTest(s: Store, d: TestDraft)
    requires forall i :: 0 <= i < |s.tests| ==> s.tests[i].id != TestId(|s.tests| + 1)
    ensures DeleteTest(AddTest(s, d).0, TestId(|s.tests| + 1)) == (s, true)
  {
    var s1 := AddTest(s, d).0;
    var n := |s.tests|;
    assert s1.tests[n].id == TestId(n + 1);
    assert s1.tests[..n] + s1.tests[n + 1..] == s.tests;
  }

  /**
   A sample added while no stored sample carries its clock-derived id is what
   a lookup by that id finds.
   */
  lemma AddedSampleFound(s: Store, d: SampleDraft, now: nat)
    requires forall i :: 0 <= i < |s.samples| ==> s.samples[i].sample.id != SampleStamp(now)
    ensures GetSampleById(AddSample(s, d, now).0, SampleStamp(now)) == Some(AddSample(s, d, now).1)
  {
    var r := AddSample(s, d, now);
    assert r.0.samples[|s.samples|].sample.id == SampleStamp(now);
  }
}
