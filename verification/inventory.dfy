/**
 The inventory screen: stock items filtered by a search term and a category,
 the days left until an item expires, the four summary cards, and the expiry
 line shown under each item. Costs are whole cents.
 */
module Inventory {
  import opened Seqs
  import opened Text
  import opened Time

  datatype ItemCategory = Reagent | Consumable | EquipmentItem | Calibrator | Control

  /** The string the source stores for a category; category filters compare against it. */
  function CategoryName(c: ItemCategory): string
  {
    match c
    case Reagent => "reagent"
    case Consumable => "consumable"
    case EquipmentItem => "equipment"
    case Calibrator => "calibrator"
    case Control => "control"
  }

  /** The stored stock label. Nothing derives it from the stock numbers. */
  datatype StockStatus = InStock | LowStock | OutOfStock | Expired

  datatype InventoryItem = InventoryItem(
    id: string,
    name: string,
    category: ItemCategory,
    sku: string,
    currentStock: int,
    minimumStock: int,
    unit: string,
    costPerUnit: int,
    supplier: string,
    expiryDate: Option<int>,
    batchNumber: Option<string>,
    location: string,
    status: StockStatus,
    lastUpdated: int)

  predicate ItemMatches(item: InventoryItem, term: string, categoryFilter: string)
  {
    (Matches(item.name, term) || Matches(item.sku, term))
    && (categoryFilter == "all" || CategoryName(item.category) == categoryFilter)
  }

  /**
   `filteredInventory`: the items whose name or SKU contains the search term
   (ignoring ASCII case) and whose category the category choice admits, in
   order; with no term and "all" every item is shown.
   */
  function FilteredInventory(items: seq<InventoryItem>, term: string, categoryFilter: string): (r: seq<InventoryItem>)
    ensures forall x :: x in r <==> x in items && ItemMatches(x, term, categoryFilter)
    ensures forall x :: multiset(r)[x] == if ItemMatches(x, term, categoryFilter) then multiset(items)[x] else 0
    ensures IsSubsequence(r, items)
    ensures term == "" && categoryFilter == "all" ==> r == items
  {
    FilterIsSubsequence(items, (x: InventoryItem) => ItemMatches(x, term, categoryFilter));
    FilterMultiplicity(items, (x: InventoryItem) => ItemMatches(x, term, categoryFilter));
    EmptyTermMatchesAll();
    Filter(items, (x: InventoryItem) => ItemMatches(x, term, categoryFilter))
  }

  /**
   `getDaysUntilExpiry`: no answer without an expiry date; otherwise the time
   to expiry in days, rounded up, so any part of a day left counts as a day.
   */
  function DaysUntilExpiry(expiryDate: Option<int>, today: int): (r: Option<int>)
    ensures r.None? <==> expiryDate.None?
    ensures r.Some? ==> (r.value - 1) * MsPerDay < expiryDate.value - today <= r.value * MsPerDay
  {
    match expiryDate
    case None => None
    case Some(e) => Some(CeilDiv(e - today, MsPerDay))
  }

  /** Counted as expiring this week: an expiry between today and seven days ahead. */
  predicate ExpiresThisWeek(item: InventoryItem, today: int)
  {
    var d := DaysUntilExpiry(item.expiryDate, today);
    d.Some? && 0 <= d.value <= 7
  }

  /**
   The seven-day window in milliseconds: an item counts as expiring this week
   exactly when its expiry lies after the moment one day ago and no more than
   seven days ahead.
   */
  lemma ExpiryWindow(item: InventoryItem, today: int)
    ensures ExpiresThisWeek(item, today) <==>
      item.expiryDate.Some? && -MsPerDay < item.expiryDate.value - today <= 7 * MsPerDay
  {
    if item.expiryDate.Some? {
      var x := item.expiryDate.value - today;
      var d := CeilDiv(x, MsPerDay);
      if 0 <= d <= 7 {
        assert (d - 1) * MsPerDay >= -MsPerDay;
        assert d * MsPerDay <= 7 * MsPerDay;
      }
    }
  }

  /** The four summary cards. */
  datatype Stats = Stats(totalItems: nat, lowStock: nat, expired: nat, expiringThisWeek: nat)

  /** The cards: every item, the items labelled low stock, those labelled expired, and those expiring this week. */
  function InventoryStats(items: seq<InventoryItem>, today: int): (s: Stats)
    ensures s.totalItems == |items|
    ensures s.lowStock == |Filter(items, (x: InventoryItem) => x.status == LowStock)|
    ensures s.expired == |Filter(items, (x: InventoryItem) => x.status == Expired)|
    ensures s.lowStock + s.expired <= s.totalItems
    ensures s.expiringThisWeek <= s.totalItems
  {
    var low := (x: InventoryItem) => x.status == LowStock;
    var expired := (x: InventoryItem) => x.status == Expired;
    CountDisjoint(items, low, expired);
    Stats(|items|, Count(items, low), Count(items, expired),
          Count(items, (x: InventoryItem) => ExpiresThisWeek(x, today)))
  }

  /**
   The "expiring this week" card counts exactly the items whose expiry lies
   after the moment one day ago and no more than seven days ahead.
   */
  lemma ExpiringCardCount(items: seq<InventoryItem>, today: int)
    ensures InventoryStats(items, today).expiringThisWeek ==
      Count(items, (x: InventoryItem) => x.expiryDate.Some? && -MsPerDay < x.expiryDate.value - today <= 7 * MsPerDay)
  {
    var week := (x: InventoryItem) => ExpiresThisWeek(x, today);
    var window := (x: InventoryItem) => x.expiryDate.Some? && -MsPerDay < x.expiryDate.value - today <= 7 * MsPerDay;
    forall i | 0 <= i < |items| ensures week(items[i]) == window(items[i]) {
      ExpiryWindow(items[i], today);
    }
    CountMonotone(items, week, window);
    CountMonotone(items, window, week);
  }

  /**
   The low-stock and expired cards read the stored labels: changing stock
   numbers without touching the labels leaves every card as it was, even
   when stock falls below the minimum.
   */
  lemma StatsIgnoreStockLevels(items: seq<InventoryItem>, stocks: seq<int>, today: int)
    requires |stocks| == |items|
    ensures var restocked := seq(|items|, i requires 0 <= i < |items| => items[i].(currentStock := stocks[i]));
      InventoryStats(restocked, today) == InventoryStats(items, today)
  {
    CountRestocked(items, stocks, (x: InventoryItem) => x.status == LowStock);
    CountRestocked(items, stocks, (x: InventoryItem) => x.status == Expired);
    CountRestocked(items, stocks, (x: InventoryItem) => ExpiresThisWeek(x, today));
  }

  lemma {:induction false} CountRestocked(items: seq<InventoryItem>, stocks: seq<int>, p: InventoryItem -> bool)
    requires |stocks| == |items|
    requires forall x: InventoryItem, n: int :: p(x.(currentStock := n)) == p(x)
    ensures Count(seq(|items|, i requires 0 <= i < |items| => items[i].(currentStock := stocks[i])), p) == Count(items, p)
  {
    var restocked := seq(|items|, i requires 0 <= i < |items| => items[i].(currentStock := stocks[i]));
    if |items| > 0 {
      CountRestocked(items[1..], stocks[1..], p);
      assert restocked[1..] == seq(|items[1..]|, i requires 0 <= i < |items[1..]| => items[1..][i].(currentStock := stocks[1..][i]));
    }
  }

  /** The expiry line under an item with an expiry date. */
  datatype ExpiryLabel = ExpiredDaysAgo(days: int) | ExpiresToday | DaysRemaining(days: int)

  /** The colour of the expiry line. */
  datatype Tone = Red | Orange | Green

  /**
   The expiry line: a negative day count reads "Expired n days ago" with the
   count's magnitude, zero reads "Expires today", and anything else the days
   remaining; red when past, orange up to seven days, green beyond.
   */
  function ExpiryLine(days: int): (r: (ExpiryLabel, Tone))
    ensures r.0.ExpiredDaysAgo? <==> days < 0
    ensures r.0.ExpiredDaysAgo? ==> r.0.days > 0 && r.0.days + days == 0
    ensures r.0 == ExpiresToday <==> days == 0
    ensures r.0.DaysRemaining? ==> r.0.days == days && days > 0
    ensures r.1 == Red <==> days < 0
    ensures r.1 == Orange <==> 0 <= days <= 7
  {
    var text := if days < 0 then ExpiredDaysAgo(-days) else if days == 0 then ExpiresToday else DaysRemaining(days);
    var tone := if days < 0 then Red else if days <= 7 then Orange else Green;
    (text, tone)
  }

  /** An item is counted on the "expiring this week" card exactly when its expiry line is orange. */
  lemma ExpiringCardMatchesOrange(item: InventoryItem, today: int)
    ensures ExpiresThisWeek(item, today) <==>
      var d := DaysUntilExpiry(item.expiryDate, today); d.Some? && ExpiryLine(d.value).1 == Orange
  {
  }
}
