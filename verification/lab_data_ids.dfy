/**
 Test ids of the store. `addTest` derives the id from the current number of
 tests, so as long as tests are only added (or updated without touching the
 id) the n-th test is `T` + pad3(n) and ids are distinct. A delete breaks this:
 the next add reuses the number of the last test. `AddTestFresh` is the
 variant that never hands out an id twice: the store carries a counter of
 the numbers handed out, which deletes do not lower, and a new test is
 numbered past it.
 */
module LabDataIds {
  import opened Seqs
  import opened Text
  import opened LabTypes
  import opened LabData

  /** A call on the test list of the store. */
  datatype TestOp = AddOp(draft: TestDraft) | UpdateOp(id: string, patch: TestPatch) | DeleteOp(id: string)

  /** One call on the store. */
  function Step(s: Store, op: TestOp): Store
  {
    match op
    case AddOp(d) => AddTest(s, d).0
    case UpdateOp(id, u) => UpdateTest(s, id, u).0
    case DeleteOp(id) => DeleteTest(s, id).0
  }

  /** Run the calls in order. */
  function Run(s: Store, ops: seq<TestOp>): Store
    decreases |ops|
  {
    if |ops| == 0 then s else Run(Step(s, ops[0]), ops[1..])
  }

  /** No call deletes a test or rewrites an id. */
  predicate KeepsNumbering(ops: seq<TestOp>)
  {
    forall i :: 0 <= i < |ops| ==> !ops[i].DeleteOp? && !(ops[i].UpdateOp? && ops[i].patch.id.Some?)
  }

  /** The test at position i has id `T` + pad3(i + 1). */
  predicate Canonical(tests: seq<TestType>)
  {
    forall i :: 0 <= i < |tests| ==> tests[i].id == TestId(i + 1)
  }

  predicate IdsDistinct(tests: seq<TestType>)
  {
    forall i, j :: 0 <= i < j < |tests| ==> tests[i].id != tests[j].id
  }

  /** The ids of the first four tests are T001 to T004. */
  lemma SmallTestIds()
    ensures TestId(1) == "T001" && TestId(2) == "T002" && TestId(3) == "T003" && TestId(4) == "T004"
  {
    SmallPad3(1);
    SmallPad3(2);
    SmallPad3(3);
    SmallPad3(4);
  }

  lemma SmallPad3(n: nat)
    requires 1 <= n < 10
    ensures Pad3(n) == ['0', '0', DigitChar(n)]
  {
    assert DecimalString(n) == [DigitChar(n)];
    assert Zeros(2) == ['0', '0'];
  }

  lemma SeedCanonical()
    ensures Canonical(SeedTests)
  {
    SmallTestIds();
  }

  /** Canonically numbered tests have pairwise distinct ids. */
  lemma CanonicalDistinct(tests: seq<TestType>)
    requires Canonical(tests)
    ensures IdsDistinct(tests)
  {
    forall i, j | 0 <= i < j < |tests|
      ensures tests[i].id != tests[j].id
    {
      PrefixedIdInjective("T", i + 1, j + 1);
    }
  }

  /** An add, or an update that leaves the id alone, keeps the numbering. */
  lemma StepKeepsCanonical(s: Store, op: TestOp)
    requires Canonical(s.tests)
    requires !op.DeleteOp? && !(op.UpdateOp? && op.patch.id.Some?)
    ensures Canonical(Step(s, op).tests)
  {
    if op.UpdateOp? {
      UpdateKeepsIdsInPlace(s, op.id, op.patch);
    }
  }

  /** An update that leaves the id alone keeps every test's id at its position. */
  lemma UpdateKeepsIdsInPlace(s: Store, id: string, u: TestPatch)
    requires u.id.None?
    ensures var t := UpdateTest(s, id, u).0.tests;
      |t| == |s.tests| && forall i :: 0 <= i < |s.tests| ==> t[i].id == s.tests[i].id
  {
    var k := TestIndex(s.tests, id);
    if k != -1 {
      assert UpdateTest(s, id, u).0.tests[k].id == s.tests[k].id;
    }
  }

  /**
   Without deletes and id rewrites, every run from a canonically numbered store
   keeps the numbering, so every id stays distinct.
   */
  lemma {:induction false} RunKeepsCanonical(s: Store, ops: seq<TestOp>)
    requires Canonical(s.tests)
    requires KeepsNumbering(ops)
    ensures Canonical(Run(s, ops).tests)
    ensures IdsDistinct(Run(s, ops).tests)
    decreases |ops|
  {
    if |ops| == 0 {
      CanonicalDistinct(s.tests);
    } else {
      StepKeepsCanonical(s, ops[0]);
      var s' := Step(s, ops[0]);
      assert KeepsNumbering(ops[1..]) by {
        forall i | 0 <= i < |ops[1..]|
          ensures !ops[1..][i].DeleteOp? && !(ops[1..][i].UpdateOp? && ops[1..][i].patch.id.Some?)
        {
          assert ops[1..][i] == ops[i + 1];
        }
      }
      RunKeepsCanonical(s', ops[1..]);
    }
  }

  /** Every run of adds and id-preserving updates from the initial store keeps ids distinct. */
  lemma InitialRunsKeepIdsDistinct(ops: seq<TestOp>)
    requires KeepsNumbering(ops)
    ensures IdsDistinct(Run(Initial, ops).tests)
  {
    SeedCanonical();
    RunKeepsCanonical(Initial, ops);
  }

  /**
   The id collision: deleting T001 from the initial store and then adding a
   test gives the new test the id T003, which the third seeded test still has.
   */
  lemma DeleteThenAddReusesId(d: TestDraft)
    ensures var s := Run(Initial, [DeleteOp("T001"), AddOp(d)]);
      |s.tests| == 3 && s.tests[1].id == "T003" && s.tests[2].id == "T003" && !IdsDistinct(s.tests)
  {
    RunDeleteThenAdd(Initial, "T001", d);
    DeleteFirstSeed();
    SmallTestIds();
    AddAfterTwoRepeatsThird(Initial.(tests := SeedTests[1..]), d);
  }

  /** Adding to two tests whose second is T003 numbers the new test T003 as well. */
  lemma AddAfterTwoRepeatsThird(s: Store, d: TestDraft)
    requires |s.tests| == 2 && s.tests[1].id == TestId(3)
    ensures var t := AddTest(s, d).0.tests;
      |t| == 3 && t[1].id == TestId(3) && t[2].id == TestId(3) && !IdsDistinct(t)
  {
    var t := AddTest(s, d).0.tests;
    assert t[1] == s.tests[1];
  }

  /** A run of one delete and one add is the add applied after the delete. */
  lemma RunDeleteThenAdd(s: Store, id: string, d: TestDraft)
    ensures Run(s, [DeleteOp(id), AddOp(d)]) == AddTest(DeleteTest(s, id).0, d).0
  {
    var ops := [DeleteOp(id), AddOp(d)];
    var s1 := DeleteTest(s, id).0;
    var s2 := AddTest(s1, d).0;
    assert ops[1..] == [AddOp(d)];
    assert Run(s, ops) == Run(s1, [AddOp(d)]);
    assert [AddOp(d)][1..] == [];
    assert Run(s1, [AddOp(d)]) == Run(s2, []);
  }

  /** The largest number carried by a `T` id in the list, 0 when there is none. */
  function MaxTestNumber(tests: seq<TestType>): (m: nat)
    ensures forall i :: 0 <= i < |tests| ==> IdNumber("T", tests[i].id) <= m
    decreases |tests|
  {
    if |tests| == 0 then 0
    else
      var rest := MaxTestNumber(tests[..|tests| - 1]);
      var last := IdNumber("T", tests[|tests| - 1].id);
      if last > rest then last else rest
  }

  /**
   The store together with the highest test number handed out so far. Adds
   raise the counter; deletes and updates never lower it.
   */
  datatype Session = Session(store: Store, issued: nat)

  /** The seeded store; the seeded tests carry the numbers 1 to 3. */
  const InitialSession: Session := Session(Initial, 3)

  /**
   `addTest` numbered from the counter: the new test gets the number one past
   both the counter and the largest number in use, and the counter moves up to it.
   */
  function AddTestFresh(s: Session, d: TestDraft): (r: (Session, TestType))
    ensures r.0.store.tests == s.store.tests + [r.1]
    ensures r.1.id == TestId(r.0.issued)
    ensures r.0.issued > s.issued && r.0.issued > MaxTestNumber(s.store.tests)
    ensures forall i :: 0 <= i < |s.store.tests| ==> s.store.tests[i].id != r.1.id
    ensures r.1.name == d.name && r.1.category == d.category && r.1.description == d.description
    ensures r.1.duration == d.duration && r.1.price == d.price
    ensures r.1.requiresSpecialPrep == d.requiresSpecialPrep && r.1.sampleType == d.sampleType
    ensures r.0.store.patients == s.store.patients && r.0.store.samples == s.store.samples
  {
    var top := MaxTestNumber(s.store.tests);
    var n := (if s.issued < top then top else s.issued) + 1;
    IdNumberOfPrefixedId("T", n);
    var t := TestType(TestId(n), d.name, d.category, d.description, d.duration, d.price,
                      d.requiresSpecialPrep, d.sampleType);
    (Session(s.store.(tests := s.store.tests + [t]), n), t)
  }

  /** The counted add keeps ids distinct from any state whose ids are distinct. */
  lemma AddTestFreshKeepsDistinct(s: Session, d: TestDraft)
    requires IdsDistinct(s.store.tests)
    ensures IdsDistinct(AddTestFresh(s, d).0.store.tests)
  {
  }

  /** Run the calls in order, adding with the counted add. */
  function RunFresh(s: Session, ops: seq<TestOp>): Session
    decreases |ops|
  {
    if |ops| == 0 then s else RunFresh(StepFresh(s, ops[0]), ops[1..])
  }

  /** One call on the session: only an add moves the counter, and only upwards. */
  function StepFresh(s: Session, op: TestOp): (r: Session)
    ensures op.AddOp? ==> r.issued > s.issued
    ensures !op.AddOp? ==> r.issued == s.issued
  {
    match op
    case AddOp(d) => AddTestFresh(s, d).0
    case UpdateOp(id, u) => s.(store := UpdateTest(s.store, id, u).0)
    case DeleteOp(id) => s.(store := DeleteTest(s.store, id).0)
  }

  /**
   The numbers the adds of a run hand out, in order; the test each add
   appends has the id `T` + pad3 of its number.
   */
  function IssuedNumbers(s: Session, ops: seq<TestOp>): seq<nat>
    decreases |ops|
  {
    if |ops| == 0 then []
    else
      var s' := StepFresh(s, ops[0]);
      (if ops[0].AddOp? then [s'.issued] else []) + IssuedNumbers(s', ops[1..])
  }

  /** Every number is above `lo` and above every number before it. */
  predicate RisingAbove(ns: seq<nat>, lo: nat)
  {
    (forall i :: 0 <= i < |ns| ==> lo < ns[i]) && (forall i, j :: 0 <= i < j < |ns| ==> ns[i] < ns[j])
  }

  lemma ConsRisingAbove(x: nat, rest: seq<nat>, lo: nat)
    requires lo < x && RisingAbove(rest, x)
    ensures RisingAbove([x] + rest, lo)
  {
    var ns := [x] + rest;
    forall i | 0 < i < |ns| ensures ns[i] == rest[i - 1] && x < ns[i] {
    }
  }

  /**
   Along any run the adds hand out numbers above the counter at the start,
   each one above every number handed out before it.
   */
  lemma {:induction false} IssuedNumbersIncrease(s: Session, ops: seq<TestOp>)
    ensures RisingAbove(IssuedNumbers(s, ops), s.issued)
    decreases |ops|
  {
    if |ops| > 0 {
      var s' := StepFresh(s, ops[0]);
      IssuedNumbersIncrease(s', ops[1..]);
      if ops[0].AddOp? {
        ConsRisingAbove(s'.issued, IssuedNumbers(s', ops[1..]), s.issued);
      }
    }
  }

  /** Distinct numbers handed out along a run give distinct ids, all of them past the starting counter. */
  lemma IssuedIdsDistinct(s: Session, ops: seq<TestOp>)
    ensures var ns := IssuedNumbers(s, ops);
      forall i, j :: 0 <= i < j < |ns| ==> TestId(ns[i]) != TestId(ns[j])
    ensures var ns := IssuedNumbers(s, ops);
      forall i, n: nat :: 0 <= i < |ns| && n <= s.issued ==> TestId(ns[i]) != TestId(n)
  {
    var ns := IssuedNumbers(s, ops);
    IssuedNumbersIncrease(s, ops);
    forall i, j | 0 <= i < j < |ns| ensures TestId(ns[i]) != TestId(ns[j]) {
      PrefixedIdInjective("T", ns[i], ns[j]);
    }
    forall i, n: nat | 0 <= i < |ns| && n <= s.issued ensures TestId(ns[i]) != TestId(n) {
      PrefixedIdInjective("T", ns[i], n);
    }
  }

  /** The seeded tests are numbered 1 to 3. */
  lemma SeedIdsUpToThree()
    ensures forall k :: 0 <= k < |SeedTests| ==> SeedTests[k].id == TestId(k + 1) && k + 1 <= 3
  {
    SeedCanonical();
  }

  /**
   From the seeded store, no run of calls hands out an id twice, and none of
   the ids it hands out is one a seeded test had, even after that test was deleted.
   */
  lemma InitialFreshRunsNeverReissue(ops: seq<TestOp>)
    ensures var ns := IssuedNumbers(InitialSession, ops);
      forall i, j :: 0 <= i < j < |ns| ==> TestId(ns[i]) != TestId(ns[j])
    ensures var ns := IssuedNumbers(InitialSession, ops);
      forall i, k :: 0 <= i < |ns| && 0 <= k < |SeedTests| ==> TestId(ns[i]) != SeedTests[k].id
  {
    IssuedIdsDistinct(InitialSession, ops);
    SeedIdsUpToThree();
  }

  /** No update rewrites an id; deletes are allowed. */
  predicate KeepsIds(ops: seq<TestOp>)
  {
    forall i :: 0 <= i < |ops| ==> !(ops[i].UpdateOp? && ops[i].patch.id.Some?)
  }

  /** Every call but an id rewrite keeps ids distinct under the counted add. */
  lemma FreshStepKeepsDistinct(s: Session, op: TestOp)
    requires IdsDistinct(s.store.tests)
    requires !(op.UpdateOp? && op.patch.id.Some?)
    ensures IdsDistinct(StepFresh(s, op).store.tests)
  {
    match op
    case AddOp(d) =>
      AddTestFreshKeepsDistinct(s, d);
    case UpdateOp(id, u) =>
      UpdateKeepsIdsInPlace(s.store, id, u);
    case DeleteOp(id) =>
      var k := TestIndex(s.store.tests, id);
      if k != -1 {
        DeleteKeepsDistinct(s.store.tests, k);
      }
  }

  /**
   With the counted add, ids stay distinct through any mix of adds, deletes
   and updates that leave ids alone.
   */
  lemma {:induction false} RunFreshKeepsDistinct(s: Session, ops: seq<TestOp>)
    requires IdsDistinct(s.store.tests)
    requires KeepsIds(ops)
    ensures IdsDistinct(RunFresh(s, ops).store.tests)
    decreases |ops|
  {
    if |ops| > 0 {
      FreshStepKeepsDistinct(s, ops[0]);
      var s' := StepFresh(s, ops[0]);
      assert KeepsIds(ops[1..]) by {
        forall i | 0 <= i < |ops[1..]|
          ensures !(ops[1..][i].UpdateOp? && ops[1..][i].patch.id.Some?)
        {
          assert ops[1..][i] == ops[i + 1];
        }
      }
      RunFreshKeepsDistinct(s', ops[1..]);
    }
  }

  /** Cutting one test out keeps the others' ids distinct. */
  lemma DeleteKeepsDistinct(tests: seq<TestType>, k: nat)
    requires IdsDistinct(tests) && k < |tests|
    ensures IdsDistinct(tests[..k] + tests[k + 1..])
  {
    var r := tests[..k] + tests[k + 1..];
    forall i, j | 0 <= i < j < |r| ensures r[i].id != r[j].id {
      var i' := if i < k then i else i + 1;
      var j' := if j < k then j else j + 1;
      assert r[i] == tests[i'] && r[j] == tests[j'];
    }
  }

  /** From the seeded store, every run with the counted add keeps ids distinct, deletes included. */
  lemma InitialFreshRunsKeepIdsDistinct(ops: seq<TestOp>)
    requires KeepsIds(ops)
    ensures IdsDistinct(RunFresh(InitialSession, ops).store.tests)
  {
    SeedCanonical();
    CanonicalDistinct(SeedTests);
    RunFreshKeepsDistinct(InitialSession, ops);
  }

  /** On canonically numbered tests the largest number is the count. */
  lemma {:induction false} MaxOfCanonical(tests: seq<TestType>)
    requires Canonical(tests)
    ensures MaxTestNumber(tests) == |tests|
    decreases |tests|
  {
    if |tests| > 0 {
      var init := tests[..|tests| - 1];
      assert Canonical(init);
      MaxOfCanonical(init);
      IdNumberOfPrefixedId("T", |tests|);
    }
  }

  /**
   While nothing has been deleted the counter equals the count, and the
   counted add assigns exactly the id and store `addTest` does.
   */
  lemma FreshAgreesWhileCanonical(s: Session, d: TestDraft)
    requires Canonical(s.store.tests) && s.issued <= |s.store.tests|
    ensures AddTestFresh(s, d).0.store == AddTest(s.store, d).0
    ensures AddTestFresh(s, d).1 == AddTest(s.store, d).1
    ensures AddTestFresh(s, d).0.issued == |AddTestFresh(s, d).0.store.tests|
  {
    MaxOfCanonical(s.store.tests);
    var n := |s.store.tests| + 1;
    assert AddTestFresh(s, d).0.issued == n;
    assert AddTestFresh(s, d).1 == TestType(TestId(n), d.name, d.category, d.description, d.duration, d.price,
                                            d.requiresSpecialPrep, d.sampleType);
  }

  /**
   Without deletes and id rewrites, a run from the seeded store with the
   counted add ends in the same store as the same run with `addTest`.
   */
  lemma InitialFreshRunsAgree(ops: seq<TestOp>)
    requires KeepsNumbering(ops)
    ensures RunFresh(InitialSession, ops).store == Run(Initial, ops)
  {
    SeedCanonical();
    FreshRunsAgree(InitialSession, ops);
  }

  /** One add or id-preserving update leaves the two stores equal and the counter at the count. */
  lemma FreshStepAgrees(s: Session, op: TestOp)
    requires Canonical(s.store.tests) && s.issued <= |s.store.tests|
    requires !op.DeleteOp? && !(op.UpdateOp? && op.patch.id.Some?)
    ensures StepFresh(s, op).store == Step(s.store, op)
    ensures Canonical(StepFresh(s, op).store.tests)
    ensures StepFresh(s, op).issued <= |StepFresh(s, op).store.tests|
  {
    StepKeepsCanonical(s.store, op);
    match op
    case AddOp(d) =>
      FreshAgreesWhileCanonical(s, d);
    case UpdateOp(id, u) =>
      UpdateKeepsIdsInPlace(s.store, id, u);
  }

  lemma {:induction false} FreshRunsAgree(s: Session, ops: seq<TestOp>)
    requires Canonical(s.store.tests) && s.issued <= |s.store.tests|
    requires KeepsNumbering(ops)
    ensures RunFresh(s, ops).store == Run(s.store, ops)
    decreases |ops|
  {
    if |ops| > 0 {
      FreshStepAgrees(s, ops[0]);
      assert KeepsNumbering(ops[1..]) by {
        forall i | 0 <= i < |ops[1..]|
          ensures !ops[1..][i].DeleteOp? && !(ops[1..][i].UpdateOp? && ops[1..][i].patch.id.Some?)
        {
          assert ops[1..][i] == ops[i + 1];
        }
      }
      FreshRunsAgree(StepFresh(s, ops[0]), ops[1..]);
    }
  }

  /** The two tests left after deleting T001 carry the numbers 2 and 3. */
  lemma MaxAfterFirstDeleted()
    ensures MaxTestNumber(SeedTests[1..]) == 3
  {
    SeedCanonical();
    var t := SeedTests[1..];
    assert t[0].id == TestId(2) && t[1].id == TestId(3);
    IdNumberOfPrefixedId("T", 2);
    IdNumberOfPrefixedId("T", 3);
    assert t[..1][..0] == [];
    assert MaxTestNumber(t[..1]) == 2;
    assert t[..|t| - 1] == t[..1];
  }

  /** Deleting T001 from the initial store leaves the other two seeded tests. */
  lemma DeleteFirstSeed()
    ensures DeleteTest(Initial, "T001").0 == Initial.(tests := SeedTests[1..])
  {
    assert TestIndex(SeedTests, "T001") == 0;
  }

  /** After the delete that makes `addTest` collide, the counted add picks T004. */
  lemma FreshAvoidsCollision(d: TestDraft)
    ensures var s1 := StepFresh(InitialSession, DeleteOp("T001"));
      AddTestFresh(s1, d).1.id == "T004" && IdsDistinct(AddTestFresh(s1, d).0.store.tests)
  {
    DeleteFirstSeed();
    RemainingSeedDistinct();
    MaxAfterFirstDeleted();
    SmallTestIds();
    FreshIdAfter(Session(Initial.(tests := SeedTests[1..]), 3), d, 3);
  }

  /** Deleting T003 from the initial store leaves the first two seeded tests. */
  lemma DeleteLastSeed()
    ensures DeleteTest(Initial, "T003").0 == Initial.(tests := SeedTests[..2])
  {
    SmallTestIds();
    assert TestIndex(SeedTests, "T003") == 2;
    assert SeedTests[..2] + SeedTests[3..] == SeedTests[..2];
  }

  /**
   A deleted id is not handed out again: after deleting T003, which `addTest`
   would reissue, the counted add picks T004.
   */
  lemma FreshSkipsDeletedId(d: TestDraft)
    ensures var s1 := StepFresh(InitialSession, DeleteOp("T003"));
      AddTestFresh(s1, d).1.id == "T004"
  {
    DeleteLastSeed();
    SeedCanonical();
    assert Canonical(SeedTests[..2]);
    var s1 := Session(Initial.(tests := SeedTests[..2]), 3);
    assert StepFresh(InitialSession, DeleteOp("T003")) == s1;
    FreshAfterTwoOfThree(s1, d);
    SmallTestIds();
  }

  /** With two tests numbered by position and the counter at 3, the counted add numbers the new test 4. */
  lemma FreshAfterTwoOfThree(s: Session, d: TestDraft)
    requires |s.store.tests| == 2 && Canonical(s.store.tests) && s.issued == 3
    ensures AddTestFresh(s, d).1.id == TestId(4)
  {
    MaxOfCanonical(s.store.tests);
  }

  /** From distinct ids whose largest number is `n`, with the counter at most `n`, the counted add numbers the new test `n + 1`. */
  lemma FreshIdAfter(s: Session, d: TestDraft, n: nat)
    requires IdsDistinct(s.store.tests) && MaxTestNumber(s.store.tests) == n && s.issued <= n
    ensures AddTestFresh(s, d).1.id == TestId(n + 1) && IdsDistinct(AddTestFresh(s, d).0.store.tests)
  {
    AddTestFreshKeepsDistinct(s, d);
  }

  lemma RemainingSeedDistinct()
    ensures IdsDistinct(SeedTests[1..])
  {
    SeedCanonical();
    CanonicalDistinct(SeedTests);
    var t := SeedTests[1..];
    forall i, j | 0 <= i < j < |t| ensures t[i].id != t[j].id {
      assert t[i] == SeedTests[i + 1] && t[j] == SeedTests[j + 1];
    }
  }

  /** Register patients in order, each with its own clock reading. */
  function AddPatients(s: Store, regs: seq<(PatientDraft, int)>): Store
    decreases |regs|
  {
    if |regs| == 0 then s else AddPatients(AddPatient(s, regs[0].0, regs[0].1).0, regs[1..])
  }

  /** The patient at position i has id `P` + pad3(i + 1). */
  predicate PatientsNumbered(patients: seq<Patient>)
  {
    forall i :: 0 <= i < |patients| ==> patients[i].id == PatientId(i + 1)
  }

  predicate PatientIdsDistinct(patients: seq<Patient>)
  {
    forall i, j :: 0 <= i < j < |patients| ==> patients[i].id != patients[j].id
  }

  /**
   Patients are never deleted, so numbering by count keeps the n-th patient at
   `P` + pad3(n) through any run of registrations, and their ids distinct.
   */
  lemma {:induction false} AddPatientsKeepNumbered(s: Store, regs: seq<(PatientDraft, int)>)
    requires PatientsNumbered(s.patients)
    ensures PatientsNumbered(AddPatients(s, regs).patients)
    ensures PatientIdsDistinct(AddPatients(s, regs).patients)
    decreases |regs|
  {
    if |regs| == 0 {
      NumberedPatientsDistinct(s.patients);
    } else {
      var s' := AddPatient(s, regs[0].0, regs[0].1).0;
      AddPatientKeepsNumbered(s, regs[0].0, regs[0].1);
      AddPatientsKeepNumbered(s', regs[1..]);
    }
  }

  lemma AddPatientKeepsNumbered(s: Store, d: PatientDraft, now: int)
    requires PatientsNumbered(s.patients)
    ensures PatientsNumbered(AddPatient(s, d, now).0.patients)
  {
    var ps := AddPatient(s, d, now).0.patients;
    forall i | 0 <= i < |ps| ensures ps[i].id == PatientId(i + 1) {
      if i < |s.patients| {
        assert ps[i] == s.patients[i];
      }
    }
  }

  lemma NumberedPatientsDistinct(patients: seq<Patient>)
    requires PatientsNumbered(patients)
    ensures PatientIdsDistinct(patients)
  {
    forall i, j | 0 <= i < j < |patients|
      ensures patients[i].id != patients[j].id
    {
      PrefixedIdInjective("P", i + 1, j + 1);
    }
  }

  /** From the initial store, which has no patients, every run of registrations gives distinct patient ids. */
  lemma InitialPatientIdsDistinct(regs: seq<(PatientDraft, int)>)
    ensures PatientIdsDistinct(AddPatients(Initial, regs).patients)
  {
    AddPatientsKeepNumbered(Initial, regs);
  }
}
