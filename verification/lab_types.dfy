/**
 The shared record shapes of the laboratory: a test definition and a sample
 travelling through the lab. Dates are milliseconds since the epoch.
 */
module LabTypes {
  import opened Seqs

  /** The kind of specimen a test is run on. */
  datatype SampleKind = Blood | Urine | Saliva | Tissue | OtherKind

  /** A test the laboratory offers. `price` is in the currency's smallest unit. */
  datatype TestType = TestType(
    id: string,
    name: string,
    category: string,
    description: string,
    duration: int,
    price: int,
    requiresSpecialPrep: bool,
    sampleType: SampleKind)

  /** The status label of a sample. Nothing restricts which label may follow which. */
  datatype SampleStatus = Received | Processing | Completed | Archived

  datatype Priority = Normal | High | Urgent

  /** The string the source stores for a status; status filters compare against it. */
  function StatusName(s: SampleStatus): string
  {
    match s
    case Received => "received"
    case Processing => "processing"
    case Completed => "completed"
    case Archived => "archived"
  }

  /** A specimen submitted for one test. */
  datatype Sample = Sample(
    id: string,
    patientId: string,
    patientName: string,
    testType: TestType,
    status: SampleStatus,
    priority: Priority,
    receivedAt: int,
    processedAt: Option<int>,
    completedAt: Option<int>,
    notes: Option<string>,
    barcode: Option<string>)
}
