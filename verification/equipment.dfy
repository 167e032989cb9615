/**
 The equipment screen: instruments filtered by a search term and a status,
 the days left until the next service, the four summary cards, and the
 service line shown under each instrument.
 */
module Equipment {
  import opened Seqs
  import opened Text
  import opened Time

  datatype EquipmentStatus = Operational | Maintenance | OutOfService | Calibration

  /** The string the source stores for a status; status filters compare against it. */
  function StatusName(s: EquipmentStatus): string
  {
    match s
    case Operational => "operational"
    case Maintenance => "maintenance"
    case OutOfService => "out_of_service"
    case Calibration => "calibration"
  }

  datatype Instrument = Instrument(
    id: string,
    name: string,
    model: string,
    serialNumber: string,
    manufacturer: string,
    installDate: int,
    lastMaintenance: Option<int>,
    nextMaintenance: int,
    maintenanceInterval: int,
    status: EquipmentStatus,
    location: string,
    notes: Option<string>)

  predicate InstrumentMatches(e: Instrument, term: string, statusFilter: string)
  {
    (Matches(e.name, term) || Matches(e.model, term) || Matches(e.serialNumber, term))
    && (statusFilter == "all" || StatusName(e.status) == statusFilter)
  }

  /**
   `filteredEquipment`: the instruments whose name, model or serial number
   contains the search term (ignoring ASCII case) and whose status the status
   choice admits, in order; with no term and "all" every instrument is shown.
   */
  function FilteredEquipment(items: seq<Instrument>, term: string, statusFilter: string): (r: seq<Instrument>)
    ensures forall x :: x in r <==> x in items && InstrumentMatches(x, term, statusFilter)
    ensures forall x :: multiset(r)[x] == if InstrumentMatches(x, term, statusFilter) then multiset(items)[x] else 0
    ensures IsSubsequence(r, items)
    ensures term == "" && statusFilter == "all" ==> r == items
  {
    FilterIsSubsequence(items, (x: Instrument) => InstrumentMatches(x, term, statusFilter));
    FilterMultiplicity(items, (x: Instrument) => InstrumentMatches(x, term, statusFilter));
    EmptyTermMatchesAll();
    Filter(items, (x: Instrument) => InstrumentMatches(x, term, statusFilter))
  }

  /** `getDaysUntilMaintenance`: the time to the next service in days, rounded up. */
  function DaysUntilMaintenance(nextMaintenance: int, today: int): (d: int)
    ensures (d - 1) * MsPerDay < nextMaintenance - today <= d * MsPerDay
  {
    CeilDiv(nextMaintenance - today, MsPerDay)
  }

  /** Counted on the "needs maintenance" card: due within seven days, overdue included. */
  predicate NeedsMaintenance(e: Instrument, today: int)
  {
    DaysUntilMaintenance(e.nextMaintenance, today) <= 7
  }

  /** In milliseconds: an instrument needs maintenance exactly when its service is at most seven days ahead. */
  lemma NeedsMaintenanceWindow(e: Instrument, today: int)
    ensures NeedsMaintenance(e, today) <==> e.nextMaintenance - today <= 7 * MsPerDay
  {
    var d := DaysUntilMaintenance(e.nextMaintenance, today);
    if d <= 7 {
      assert d * MsPerDay <= 7 * MsPerDay;
    }
  }

  /** The four summary cards. */
  datatype Stats = Stats(totalEquipment: nat, operational: nat, needsMaintenance: nat, outOfService: nat)

  /**
   The cards: every instrument, those operational, those due for service
   within seven days whatever their status, and those out of service.
   */
  function EquipmentStats(items: seq<Instrument>, today: int): (s: Stats)
    ensures s.totalEquipment == |items|
    ensures s.operational == |Filter(items, (x: Instrument) => x.status == Operational)|
    ensures s.outOfService == |Filter(items, (x: Instrument) => x.status == OutOfService)|
    ensures s.operational + s.outOfService <= s.totalEquipment
    ensures s.needsMaintenance <= s.totalEquipment
  {
    var operational := (x: Instrument) => x.status == Operational;
    var outOfService := (x: Instrument) => x.status == OutOfService;
    CountDisjoint(items, operational, outOfService);
    Stats(|items|, Count(items, operational),
          Count(items, (x: Instrument) => NeedsMaintenance(x, today)),
          Count(items, outOfService))
  }

  /**
   The "needs maintenance" card counts exactly the instruments whose next
   service is no more than seven days ahead, overdue ones included.
   */
  lemma MaintenanceCardCount(items: seq<Instrument>, today: int)
    ensures EquipmentStats(items, today).needsMaintenance ==
      Count(items, (x: Instrument) => x.nextMaintenance - today <= 7 * MsPerDay)
  {
    var due := (x: Instrument) => NeedsMaintenance(x, today);
    var window := (x: Instrument) => x.nextMaintenance - today <= 7 * MsPerDay;
    forall i | 0 <= i < |items| ensures due(items[i]) == window(items[i]) {
      NeedsMaintenanceWindow(items[i], today);
    }
    CountMonotone(items, due, window);
    CountMonotone(items, window, due);
  }

  /** Every overdue instrument is on the "needs maintenance" card. */
  lemma OverdueNeedMaintenance(items: seq<Instrument>, today: int)
    ensures Count(items, (x: Instrument) => x.nextMaintenance < today) <= EquipmentStats(items, today).needsMaintenance
  {
    forall i | 0 <= i < |items| && items[i].nextMaintenance < today
      ensures NeedsMaintenance(items[i], today)
    {
      NeedsMaintenanceWindow(items[i], today);
    }
    CountMonotone(items, (x: Instrument) => x.nextMaintenance < today, (x: Instrument) => NeedsMaintenance(x, today));
  }

  /** The service line under an instrument. */
  datatype ServiceLabel = OverdueBy(days: int) | DueToday | DaysAhead(days: int)

  datatype Tone = Red | Orange | Green

  /**
   The service line: a negative day count reads "Overdue by n days" with the
   count's magnitude, zero reads "Due today", and anything else the days
   ahead; red when overdue, orange up to seven days, green beyond.
   */
  function ServiceLine(days: int): (r: (ServiceLabel, Tone))
    ensures r.0.OverdueBy? <==> days < 0
    ensures r.0.OverdueBy? ==> r.0.days > 0 && r.0.days + days == 0
    ensures r.0 == DueToday <==> days == 0
    ensures r.0.DaysAhead? ==> r.0.days == days && days > 0
    ensures r.1 == Red <==> days < 0
    ensures r.1 == Green <==> days > 7
  {
    var text := if days < 0 then OverdueBy(-days) else if days == 0 then DueToday else DaysAhead(days);
    var tone := if days < 0 then Red else if days <= 7 then Orange else Green;
    (text, tone)
  }

  /** An instrument is on the "needs maintenance" card exactly when its service line is not green. */
  lemma NeedsMaintenanceIffNotGreen(e: Instrument, today: int)
    ensures NeedsMaintenance(e, today) <==> ServiceLine(DaysUntilMaintenance(e.nextMaintenance, today)).1 != Green
  {
  }
}
