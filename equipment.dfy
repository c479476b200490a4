/** The equipment lending tracker of equipment/models.py: item types, items with
    their in-stock / checked-out / repair lifecycle, kits that are lent out
    together with their contents, the append-only transaction ledger, the
    lookup of a scanned number, and late penalties.

    The database tables become the fields of one `Store` object: items and
    item types are indexed by their primary key, which the database hands out
    in creation order. The clock is the parameter `now`; "today" is the day
    `now` falls on. */
module Equipment {
  import opened Results
  import opened Calendar

  type TypeId = nat
  type ItemId = nat
  type PersonId = nat

  /** Penalty.BASE_PENALTY_AMOUNT: dollar-credits per day of lateness. */
  const BasePenaltyAmount := 2500

  datatype ItemType = ItemType(manufacturer: string, modelname: string, kit: bool, note: string)

  /** Item.INSTOCK, Item.OUT, Item.REPAIR. */
  datatype Status = InStock | Out | Repair

  datatype Item = Item(
    itemtype: TypeId,
    serialnumber: string,
    hipNumber: string,
    status: Status,
    checkedOutBy: Option<PersonId>,
    due: Option<Datetime>,
    partOfKit: Option<ItemId>,
    log: string,
    note: string)

  /** Transaction.ADD, CHECKOUT, CHECKIN, REPAIR_OUT, REPAIR_BACK. */
  datatype Kind = Add | CheckOut | CheckIn | RepairOut | RepairBack

  datatype Transaction = Transaction(
    item: ItemId, person: Option<PersonId>, timestamp: Datetime, kind: Kind, note: Option<string>)

  datatype Penalty = Penalty(student: PersonId, whenLevied: Datetime, amount: int, items: set<ItemId>)

  /** The exceptions the model raises: ItemError (no number; lookup failures),
      the database's IntegrityError for a repeated (serialnumber, hip_number)
      pair, and TransactionError, which carries the status it found. */
  datatype Error =
    | MissingNumber
    | DuplicateNumbers
    | NotInStock(found: Status)
    | NotCheckedOut(found: Status)
    | NoMatch(number: string)
    | MultipleMatches(number: string, ids: seq<ItemId>)

  /** A state change: the new items and ledger, and whether an exception was raised. */
  datatype Effect = Effect(items: seq<Item>, ledger: seq<Transaction>, outcome: Outcome<Error>)

  /** An Item as `Item.objects.create(itemtype=..., serialnumber=..., hip_number=...)` builds it. */
  function NewItem(t: TypeId, serialnumber: string, hipNumber: string): Item {
    Item(t, serialnumber, hipNumber, InStock, None, None, None, "", "")
  }

  // ---------------------------------------------------------------------------
  // Identification

  predicate HasNumber(it: Item) {
    it.serialnumber != "" || it.hipNumber != ""
  }

  /** Item.number: the HIP number if there is one, otherwise the serial number. */
  function Number(it: Item): (n: string)
    ensures n == "" <==> !HasNumber(it)
    ensures n == it.hipNumber || n == it.serialnumber
    ensures it.hipNumber != "" ==> n == it.hipNumber
  {
    if it.hipNumber != "" then it.hipNumber else it.serialnumber
  }

  predicate Identifies(it: Item, number: string) {
    it.hipNumber == number || it.serialnumber == number
  }

  /** The ids of the items whose HIP number or serial number is `number`, in id order. */
  function MatchesBelow(items: seq<Item>, number: string, n: nat): (ids: seq<ItemId>)
    requires n <= |items|
    ensures forall k | 0 <= k < |ids| :: ids[k] < n && Identifies(items[ids[k]], number)
    ensures forall j | 0 <= j < n && Identifies(items[j], number) :: j in ids
    ensures forall k, m | 0 <= k < m < |ids| :: ids[k] < ids[m]
  {
    if n == 0 then []
    else MatchesBelow(items, number, n - 1) + (if Identifies(items[n - 1], number) then [n - 1] else [])
  }

  /** Item.find_by_number: the single item whose HIP number or serial number
      is `number`; an ItemError when there is none, or when there are several,
      which the error lists. */
  function FindByNumber(items: seq<Item>, number: string): (r: Result<ItemId, Error>)
    ensures r.Ok? ==> r.value < |items| && Identifies(items[r.value], number)
    ensures r.Ok? ==> forall j | 0 <= j < |items| && j != r.value :: !Identifies(items[j], number)
    ensures r == Err(NoMatch(number)) <==> forall j | 0 <= j < |items| :: !Identifies(items[j], number)
    ensures r.Err? && r.error.MultipleMatches? ==>
      r.error.number == number &&
      (forall j | 0 <= j < |items| :: j in r.error.ids <==> Identifies(items[j], number)) &&
      exists j, k | 0 <= j < k < |items| :: Identifies(items[j], number) && Identifies(items[k], number)
    ensures r.Err? ==> r.error.NoMatch? || r.error.MultipleMatches?
  {
    var ids := MatchesBelow(items, number, |items|);
    if |ids| > 1 then
      assert ids[0] < ids[1];
      Err(MultipleMatches(number, ids))
    else if |ids| == 0 then Err(NoMatch(number))
    else Ok(ids[0])
  }

  // ---------------------------------------------------------------------------
  // Item types, kits and the store invariant

  predicate Typed(types: seq<ItemType>, items: seq<Item>) {
    forall j | 0 <= j < |items| :: items[j].itemtype < |types|
  }

  /** Item.is_kit. */
  predicate IsKit(types: seq<ItemType>, it: Item)
    requires it.itemtype < |types|
  {
    types[it.itemtype].kit
  }

  /** The part of an item that lending never changes. */
  function Fixed(it: Item): Item {
    it.(status := InStock, checkedOutBy := None, due := None)
  }

  /** `items'` differs from `items` at most in status, borrower and due date. */
  predicate SameFrame(items: seq<Item>, items': seq<Item>) {
    |items'| == |items| && forall j | 0 <= j < |items| :: Fixed(items'[j]) == Fixed(items[j])
  }

  /** A checked-out item has a borrower and a due date (days_overdue needs the due date). */
  predicate LoanConsistent(it: Item) {
    it.status == Out ==> it.checkedOutBy.Some? && it.due.Some?
  }

  predicate AllLoanConsistent(items: seq<Item>) {
    forall j | 0 <= j < |items| :: LoanConsistent(items[j])
  }

  /** Kit membership: an item's kit exists and is a kit, and a kit is never
      itself inside a kit (the buildkit view refuses to add a kit to a kit). */
  predicate KitsFlat(types: seq<ItemType>, items: seq<Item>)
    requires Typed(types, items)
  {
    forall j | 0 <= j < |items| && items[j].partOfKit.Some? ::
      items[j].partOfKit.value < |items| &&
      IsKit(types, items[items[j].partOfKit.value]) && !IsKit(types, items[j])
  }

  /** The (serialnumber, hip_number) pair of `rec` is that of an item other than `id`. */
  predicate PairTaken(items: seq<Item>, id: ItemId, rec: Item) {
    exists j | 0 <= j < |items| && j != id ::
      items[j].serialnumber == rec.serialnumber && items[j].hipNumber == rec.hipNumber
  }

  /** What every stored item satisfies: a known type, a number (save refuses
      an item without one), a unique number pair (the database constraint),
      a consistent loan and flat kits. */
  ghost predicate WellFormed(types: seq<ItemType>, items: seq<Item>) {
    && Typed(types, items)
    && KitsFlat(types, items)
    && AllLoanConsistent(items)
    && (forall j | 0 <= j < |items| :: HasNumber(items[j]))
    && (forall j | 0 <= j < |items| :: !PairTaken(items, j, items[j]))
  }

  lemma WellFormedKept(types: seq<ItemType>, items: seq<Item>, items': seq<Item>)
    requires WellFormed(types, items) && SameFrame(items, items') && AllLoanConsistent(items')
    ensures WellFormed(types, items')
  {
    forall j | 0 <= j < |items|
      ensures items'[j].itemtype == items[j].itemtype && items'[j].partOfKit == items[j].partOfKit
      ensures items'[j].serialnumber == items[j].serialnumber && items'[j].hipNumber == items[j].hipNumber
    {
      assert Fixed(items'[j]) == Fixed(items[j]);
    }
  }

  /** The ids of the items in kit `k` (`kit.contents.all()`), in id order, among the first `n` items. */
  function ContentsBelow(items: seq<Item>, k: ItemId, n: nat): (cs: seq<ItemId>)
    requires n <= |items|
    ensures forall m | 0 <= m < |cs| :: cs[m] < n && items[cs[m]].partOfKit == Some(k)
    ensures forall j | 0 <= j < n && items[j].partOfKit == Some(k) :: j in cs
    ensures forall a, b | 0 <= a < b < |cs| :: cs[a] < cs[b]
  {
    if n == 0 then []
    else ContentsBelow(items, k, n - 1) + (if items[n - 1].partOfKit == Some(k) then [n - 1] else [])
  }

  function Contents(items: seq<Item>, k: ItemId): (cs: seq<ItemId>)
    ensures forall m | 0 <= m < |cs| :: cs[m] < |items| && items[cs[m]].partOfKit == Some(k)
    ensures forall j | 0 <= j < |items| && items[j].partOfKit == Some(k) :: j in cs
  {
    ContentsBelow(items, k, |items|)
  }

  lemma {:induction false} ContentsBelowFrame(items: seq<Item>, items': seq<Item>, k: ItemId, n: nat)
    requires SameFrame(items, items') && n <= |items|
    ensures ContentsBelow(items', k, n) == ContentsBelow(items, k, n)
  {
    if n > 0 {
      ContentsBelowFrame(items, items', k, n - 1);
      assert Fixed(items'[n - 1]) == Fixed(items[n - 1]);
    }
  }

  /** Item.__unicode__: "<manufacturer> <modelname> #<number>". */
  function Label(types: seq<ItemType>, it: Item): string
    requires it.itemtype < |types|
  {
    types[it.itemtype].manufacturer + " " + types[it.itemtype].modelname + " #" + Number(it)
  }

  // ---------------------------------------------------------------------------
  // Due dates and lateness

  /** The default due timestamp for a checkout on day `today`: Fridays are
      due three days later (the Monday) at 7:50, other days the next day at 17:50. */
  function DefaultDue(today: Day): Datetime {
    if IsoWeekday(today) == 5 then Combine(today + 3, Time(7, 50, 0))
    else Combine(today + 1, Time(17, 50, 0))
  }

  /** Item.set_due_datetime: a custom due timestamp is used as given, otherwise the default. */
  function DueDatetime(custom: Option<Datetime>, today: Day): (due: Datetime)
    ensures custom.Some? ==> due == custom.value
    ensures custom.None? ==> due == DefaultDue(today)
  {
    if custom.Some? then custom.value else DefaultDue(today)
  }

  /** The default rule: a Friday checkout is due Monday at 7:50, any other
      day's the next calendar day at 17:50; either way after every moment of
      the checkout day, and a Monday-to-Friday checkout is due on the next
      working day. */
  lemma DefaultDueRule(today: Day, now: Datetime)
    requires DayOf(now) == today
    ensures IsoWeekday(today) == 5 ==>
      DayOf(DefaultDue(today)) == today + 3 && IsoWeekday(DayOf(DefaultDue(today))) == 1 &&
      TimeOf(DefaultDue(today)) == Time(7, 50, 0)
    ensures IsoWeekday(today) != 5 ==>
      DayOf(DefaultDue(today)) == today + 1 && TimeOf(DefaultDue(today)) == Time(17, 50, 0)
    ensures 1 <= IsoWeekday(today) <= 5 ==> 1 <= IsoWeekday(DayOf(DefaultDue(today))) <= 5
    ensures DefaultDue(today) > now
  {
    if IsoWeekday(today) == 5 {
      CombineSplits(today + 3, Time(7, 50, 0));
      WeekdayStep(today, 3);
    } else {
      CombineSplits(today + 1, Time(17, 50, 0));
      WeekdayStep(today, 1);
    }
  }

  /** Item.days_overdue(as_of): 0 unless the item is out and `asOf` is past
      its due timestamp; otherwise the number of started 24-hour periods of
      lateness, `(as_of - due).days + 1`. */
  function DaysOverdue(it: Item, asOf: Datetime): (days: nat)
    requires LoanConsistent(it)
    ensures days == 0 <==> it.status != Out || it.due.value >= asOf
    ensures days > 0 ==> (days - 1) * SecondsPerDay <= asOf - it.due.value < days * SecondsPerDay
  {
    if it.status != Out || it.due.value >= asOf then 0
    else (asOf - it.due.value) / SecondsPerDay + 1
  }

  /** Lateness never decreases as time goes on. */
  lemma DaysOverdueMonotone(it: Item, t1: Datetime, t2: Datetime)
    requires LoanConsistent(it) && t1 <= t2
    ensures DaysOverdue(it, t1) <= DaysOverdue(it, t2)
  {
    if DaysOverdue(it, t1) > 0 {
      var d := it.due.value;
      assert (t1 - d) / SecondsPerDay <= (t2 - d) / SecondsPerDay;
    }
  }

  // ---------------------------------------------------------------------------
  // Stock counts (ItemType.how_many_in_stock, how_many_out)

  function CountBelow(items: seq<Item>, t: TypeId, s: Status, n: nat): (c: nat)
    requires n <= |items|
    ensures c <= n
  {
    if n == 0 then 0
    else CountBelow(items, t, s, n - 1) + (if items[n - 1].itemtype == t && items[n - 1].status == s then 1 else 0)
  }

  /** The number of items of type `t` whose status is `s`. */
  function CountWithStatus(items: seq<Item>, t: TypeId, s: Status): nat {
    CountBelow(items, t, s, |items|)
  }

  function HowManyInStock(items: seq<Item>, t: TypeId): nat {
    CountWithStatus(items, t, InStock)
  }

  function HowManyOut(items: seq<Item>, t: TypeId): nat {
    CountWithStatus(items, t, Out)
  }

  /** The ids of the items of type `t` whose status is `s`, among the first `n`. */
  function WithStatusBelow(items: seq<Item>, t: TypeId, s: Status, n: nat): set<ItemId>
    requires n <= |items|
  {
    set j | 0 <= j < n && items[j].itemtype == t && items[j].status == s
  }

  lemma {:induction false} CountIsFilterSize(items: seq<Item>, t: TypeId, s: Status, n: nat)
    requires n <= |items|
    ensures CountBelow(items, t, s, n) == |WithStatusBelow(items, t, s, n)|
  {
    if n == 0 {
      assert WithStatusBelow(items, t, s, 0) == {};
    } else {
      CountIsFilterSize(items, t, s, n - 1);
      FilterStep(items, t, s, n);
    }
  }

  lemma FilterStep(items: seq<Item>, t: TypeId, s: Status, n: nat)
    requires 0 < n <= |items|
    ensures var last := items[n - 1].itemtype == t && items[n - 1].status == s;
      WithStatusBelow(items, t, s, n) == WithStatusBelow(items, t, s, n - 1) + (if last then {n - 1} else {})
      && (n - 1) !in WithStatusBelow(items, t, s, n - 1)
  {
  }

  /** how_many_in_stock and how_many_out are the sizes of the filters
      `itemtype == t, status == IN_STOCK` and `status == OUT`. */
  lemma StockCounts(items: seq<Item>, t: TypeId)
    ensures HowManyInStock(items, t) == |WithStatusBelow(items, t, InStock, |items|)|
    ensures HowManyOut(items, t) == |WithStatusBelow(items, t, Out, |items|)|
  {
    CountIsFilterSize(items, t, InStock, |items|);
    CountIsFilterSize(items, t, Out, |items|);
  }

  function CountTypeBelow(items: seq<Item>, t: TypeId, n: nat): (c: nat)
    requires n <= |items|
  {
    if n == 0 then 0
    else CountTypeBelow(items, t, n - 1) + (if items[n - 1].itemtype == t then 1 else 0)
  }

  /** Every item of a type is counted under exactly one status. */
  lemma {:induction false} CountsPartition(items: seq<Item>, t: TypeId, n: nat)
    requires n <= |items|
    ensures CountBelow(items, t, InStock, n) + CountBelow(items, t, Out, n) + CountBelow(items, t, Repair, n)
         == CountTypeBelow(items, t, n)
  {
    if n > 0 { CountsPartition(items, t, n - 1); }
  }

  /** Replacing one item changes each count by what the old and new item contribute. */
  lemma {:induction false} CountAfterUpdate(items: seq<Item>, j: nat, x: Item, t: TypeId, s: Status, n: nat)
    requires j < |items| && n <= |items|
    ensures CountBelow(items[j := x], t, s, n) ==
      CountBelow(items, t, s, n)
      - (if j < n && items[j].itemtype == t && items[j].status == s then 1 else 0)
      + (if j < n && x.itemtype == t && x.status == s then 1 else 0)
  {
    if n > 0 { CountAfterUpdate(items, j, x, t, s, n - 1); }
  }

  // ---------------------------------------------------------------------------
  // Item.save

  /** What saving kit `k` with due `kitDue` does to one item: an item in the
      kit is given `kitDue` through set_due_datetime (the default due when
      `kitDue` is None). */
  function Cascaded(it: Item, k: ItemId, kitDue: Option<Datetime>, today: Day): Item {
    if it.partOfKit == Some(k) then it.(due := Some(DueDatetime(kitDue, today))) else it
  }

  /** The kit cascade of Item.save applied to every stored item. */
  function CascadeDue(items: seq<Item>, k: ItemId, kitDue: Option<Datetime>, today: Day): (r: seq<Item>)
    ensures SameFrame(items, r)
    ensures AllLoanConsistent(items) ==> AllLoanConsistent(r)
  {
    seq(|items|, j requires 0 <= j < |items| => Cascaded(items[j], k, kitDue, today))
  }

  /** The changes a caller may save without breaking WellFormed: a known
      type, a consistent loan, a kit that exists, is a kit and is not the item
      itself, no kit inside a kit, and no contents left under an item that
      stops being a kit. */
  predicate SaveAllowed(types: seq<ItemType>, items: seq<Item>, pk: Option<ItemId>, rec: Item) {
    && (pk.Some? ==> pk.value < |items|)
    && rec.itemtype < |types|
    && Typed(types, items)
    && LoanConsistent(rec)
    && (rec.partOfKit.Some? ==>
          rec.partOfKit.value < |items| && rec.partOfKit != pk &&
          IsKit(types, items[rec.partOfKit.value]) && !IsKit(types, rec))
    && (pk.Some? && !IsKit(types, rec) ==> forall j | 0 <= j < |items| :: items[j].partOfKit != pk)
  }

  // ---------------------------------------------------------------------------
  // check_out, check_in, add_to_stock as functions of the stored state

  /** Lines 293-299 of check_out on item `i`: refuse an item that is not in
      stock; otherwise record the CHECKOUT, lend the item to `person`, set its
      due timestamp, and save it (a kit's save hands that due date to its contents). */
  function CheckOutRecord(types: seq<ItemType>, items: seq<Item>, ledger: seq<Transaction>, i: ItemId,
                          person: PersonId, custom: Option<Datetime>, now: Datetime, note: Option<string>): (e: Effect)
    requires i < |items| && Typed(types, items)
    ensures SameFrame(items, e.items)
    ensures AllLoanConsistent(items) ==> AllLoanConsistent(e.items)
  {
    if items[i].status != InStock then Effect(items, ledger, Fail(NotInStock(items[i].status)))
    else
      var it := items[i].(status := Out, checkedOutBy := Some(person), due := Some(DueDatetime(custom, DayOf(now))));
      var items1 := items[i := it];
      var items2 := if IsKit(types, it) then CascadeDue(items1, i, it.due, DayOf(now)) else items1;
      assert Fixed(it) == Fixed(items[i]);
      Effect(items2, ledger + [Transaction(i, Some(person), now, CheckOut, note)], Pass)
  }

  predicate AllIn(types: seq<ItemType>, items: seq<Item>, cs: seq<ItemId>) {
    forall m | 0 <= m < |cs| :: cs[m] < |items| && items[cs[m]].itemtype < |types|
  }

  lemma AllInFrame(types: seq<ItemType>, items: seq<Item>, items': seq<Item>, cs: seq<ItemId>)
    requires AllIn(types, items, cs) && SameFrame(items, items')
    ensures AllIn(types, items', cs)
  {
    forall m | 0 <= m < |cs| ensures items'[cs[m]].itemtype < |types| {
      assert Fixed(items'[cs[m]]) == Fixed(items[cs[m]]);
    }
  }

  /** The contents loop of check_out: each item of `cs` in turn goes through
      CheckOutRecord with the given due date, and the first refusal stops the loop. */
  function CheckOutContents(types: seq<ItemType>, items: seq<Item>, ledger: seq<Transaction>, cs: seq<ItemId>,
                            person: PersonId, custom: Option<Datetime>, now: Datetime, note: Option<string>): (e: Effect)
    requires AllIn(types, items, cs) && Typed(types, items)
    ensures SameFrame(items, e.items)
    ensures AllLoanConsistent(items) ==> AllLoanConsistent(e.items)
    decreases |cs|
  {
    if cs == [] then Effect(items, ledger, Pass)
    else
      var e := CheckOutContents(types, items, ledger, cs[..|cs| - 1], person, custom, now, note);
      if e.outcome.Fail? then e
      else
        AllInFrame(types, items, e.items, cs);
        CheckOutRecord(types, e.items, e.ledger, cs[|cs| - 1], person, custom, now, note)
  }

  function KitNote(prefix: string, types: seq<ItemType>, kit: Item): Option<string>
    requires kit.itemtype < |types|
  {
    Some(prefix + Label(types, kit))
  }

  lemma ContentsAllIn(types: seq<ItemType>, items: seq<Item>, k: ItemId)
    requires Typed(types, items)
    ensures AllIn(types, items, Contents(items, k))
  {
  }

  /** check_out exactly as equipment/models.py writes it: after the kit itself, each
      of its contents is checked out WITHOUT a custom due date, so it gets the
      default due timestamp even when the kit was given a custom one. */
  function CheckOutAsWritten(types: seq<ItemType>, items: seq<Item>, ledger: seq<Transaction>, i: ItemId,
                             person: PersonId, custom: Option<Datetime>, now: Datetime, note: Option<string>): (e: Effect)
    requires i < |items| && Typed(types, items)
    ensures SameFrame(items, e.items)
  {
    var e := CheckOutRecord(types, items, ledger, i, person, custom, now, note);
    if e.outcome.Fail? || !IsKit(types, items[i]) then e
    else
      ContentsAllIn(types, items, i);
      ContentsBelowFrame(items, e.items, i, |items|);
      CheckOutContents(types, e.items, e.ledger, Contents(e.items, i), person, None, now,
                       KitNote("Checked out as part of kit ", types, items[i]))
  }

  /** Item.check_out, corrected so that a kit's contents are due when the kit
      is: each of them is checked out with the kit's due timestamp. */
  function CheckOutSpec(types: seq<ItemType>, items: seq<Item>, ledger: seq<Transaction>, i: ItemId,
                        person: PersonId, custom: Option<Datetime>, now: Datetime, note: Option<string>): (e: Effect)
    requires i < |items| && Typed(types, items)
    ensures SameFrame(items, e.items)
    ensures AllLoanConsistent(items) ==> AllLoanConsistent(e.items)
  {
    var e := CheckOutRecord(types, items, ledger, i, person, custom, now, note);
    if e.outcome.Fail? || !IsKit(types, items[i]) then e
    else
      ContentsAllIn(types, items, i);
      ContentsBelowFrame(items, e.items, i, |items|);
      CheckOutContents(types, e.items, e.ledger, Contents(e.items, i), person, e.items[i].due, now,
                       KitNote("Checked out as part of kit ", types, items[i]))
  }

  /** Lines 306-313 of check_in on item `i`: refuse an item that is not out;
      otherwise record the CHECKIN under the borrower, return the item to
      stock without a borrower (its due timestamp stays), and save it. */
  function CheckInRecord(types: seq<ItemType>, items: seq<Item>, ledger: seq<Transaction>, i: ItemId,
                         now: Datetime, note: Option<string>): (e: Effect)
    requires i < |items| && Typed(types, items)
    ensures SameFrame(items, e.items)
    ensures AllLoanConsistent(items) ==> AllLoanConsistent(e.items)
  {
    if items[i].status != Out then Effect(items, ledger, Fail(NotCheckedOut(items[i].status)))
    else
      var it := items[i].(status := InStock, checkedOutBy := None);
      var items1 := items[i := it];
      var items2 := if IsKit(types, it) then CascadeDue(items1, i, it.due, DayOf(now)) else items1;
      assert Fixed(it) == Fixed(items[i]);
      Effect(items2, ledger + [Transaction(i, items[i].checkedOutBy, now, CheckIn, note)], Pass)
  }

  /** The contents loop of check_in; the first refusal stops it. */
  function CheckInContents(types: seq<ItemType>, items: seq<Item>, ledger: seq<Transaction>, cs: seq<ItemId>,
                           now: Datetime, note: Option<string>): (e: Effect)
    requires AllIn(types, items, cs) && Typed(types, items)
    ensures SameFrame(items, e.items)
    ensures AllLoanConsistent(items) ==> AllLoanConsistent(e.items)
    decreases |cs|
  {
    if cs == [] then Effect(items, ledger, Pass)
    else
      var e := CheckInContents(types, items, ledger, cs[..|cs| - 1], now, note);
      if e.outcome.Fail? then e
      else
        AllInFrame(types, items, e.items, cs);
        CheckInRecord(types, e.items, e.ledger, cs[|cs| - 1], now, note)
  }

  /** Item.check_in: the item itself, then, for a kit, each of its contents. */
  function CheckInSpec(types: seq<ItemType>, items: seq<Item>, ledger: seq<Transaction>, i: ItemId,
                       now: Datetime, note: Option<string>): (e: Effect)
    requires i < |items| && Typed(types, items)
    ensures SameFrame(items, e.items)
    ensures AllLoanConsistent(items) ==> AllLoanConsistent(e.items)
  {
    var e := CheckInRecord(types, items, ledger, i, now, note);
    if e.outcome.Fail? || !IsKit(types, items[i]) then e
    else
      ContentsAllIn(types, items, i);
      ContentsBelowFrame(items, e.items, i, |items|);
      CheckInContents(types, e.items, e.ledger, Contents(e.items, i), now,
                      KitNote("Checked in as part of kit ", types, items[i]))
  }

  /** Once one item of the contents loop of check_out is refused, the later
      items are not touched. */
  lemma {:induction false} CheckOutContentsStops(types: seq<ItemType>, items: seq<Item>, ledger: seq<Transaction>,
                                                 cs: seq<ItemId>, person: PersonId, custom: Option<Datetime>,
                                                 now: Datetime, note: Option<string>, n: nat)
    requires AllIn(types, items, cs) && Typed(types, items) && n <= |cs|
    requires CheckOutContents(types, items, ledger, cs[..n], person, custom, now, note).outcome.Fail?
    ensures CheckOutContents(types, items, ledger, cs, person, custom, now, note)
         == CheckOutContents(types, items, ledger, cs[..n], person, custom, now, note)
    decreases |cs|
  {
    if n < |cs| {
      var p := cs[..|cs| - 1];
      assert p[..n] == cs[..n];
      CheckOutContentsStops(types, items, ledger, p, person, custom, now, note, n);
    } else {
      assert cs[..n] == cs;
    }
  }

  /** Once one item of the contents loop of check_in is refused, the later
      items are not touched. */
  lemma {:induction false} CheckInContentsStops(types: seq<ItemType>, items: seq<Item>, ledger: seq<Transaction>,
                                                cs: seq<ItemId>, now: Datetime, note: Option<string>, n: nat)
    requires AllIn(types, items, cs) && Typed(types, items) && n <= |cs|
    requires CheckInContents(types, items, ledger, cs[..n], now, note).outcome.Fail?
    ensures CheckInContents(types, items, ledger, cs, now, note) == CheckInContents(types, items, ledger, cs[..n], now, note)
    decreases |cs|
  {
    if n < |cs| {
      var p := cs[..|cs| - 1];
      assert p[..n] == cs[..n];
      CheckInContentsStops(types, items, ledger, p, now, note, n);
    } else {
      assert cs[..n] == cs;
    }
  }

  /** add_to_stock on one item: an ADD transaction and the in-stock status,
      only when the item was not already in stock. */
  function Stocked(it: Item): Item {
    it.(status := InStock)
  }

  function AddTransactions(ledger: seq<Transaction>, i: ItemId, it: Item, now: Datetime, note: Option<string>): seq<Transaction> {
    if it.status != InStock then ledger + [Transaction(i, None, now, Add, note)] else ledger
  }

  /** The contents loop of add_to_stock: each item of `cs` is added to stock and saved. */
  function AddContents(items: seq<Item>, ledger: seq<Transaction>, cs: seq<ItemId>, now: Datetime,
                       note: Option<string>): (r: (seq<Item>, seq<Transaction>))
    requires forall m | 0 <= m < |cs| :: cs[m] < |items|
    ensures SameFrame(items, r.0)
    ensures AllLoanConsistent(items) ==> AllLoanConsistent(r.0)
    decreases |cs|
  {
    if cs == [] then (items, ledger)
    else
      var (items1, ledger1) := AddContents(items, ledger, cs[..|cs| - 1], now, note);
      var c := cs[|cs| - 1];
      assert Fixed(Stocked(items1[c])) == Fixed(items1[c]);
      (items1[c := Stocked(items1[c])], AddTransactions(ledger1, c, items1[c], now, note))
  }

  /** The contents loop of add_to_stock one item further on. */
  lemma AddContentsStep(items: seq<Item>, ledger: seq<Transaction>, cs: seq<ItemId>, k: nat,
                        now: Datetime, note: Option<string>)
    requires k < |cs| && forall m | 0 <= m < |cs| :: cs[m] < |items|
    ensures var r := AddContents(items, ledger, cs[..k], now, note);
      AddContents(items, ledger, cs[..k + 1], now, note) ==
        (r.0[cs[k] := Stocked(r.0[cs[k]])], AddTransactions(r.1, cs[k], r.0[cs[k]], now, note))
  {
    assert cs[..k + 1][..k] == cs[..k];
  }

  // ---------------------------------------------------------------------------
  // Penalty.levy as functions of the stored state

  /** The largest days_overdue, as of `now`, among the first `n` items lent to `student`. */
  function MaxOverdueBelow(items: seq<Item>, student: PersonId, now: Datetime, n: nat): (m: nat)
    requires n <= |items| && AllLoanConsistent(items)
    ensures forall j | 0 <= j < n && items[j].checkedOutBy == Some(student) :: DaysOverdue(items[j], now) <= m
    ensures m == 0 || exists j | 0 <= j < n :: items[j].checkedOutBy == Some(student) && DaysOverdue(items[j], now) == m
  {
    if n == 0 then 0
    else
      var m := MaxOverdueBelow(items, student, now, n - 1);
      if items[n - 1].checkedOutBy == Some(student) && DaysOverdue(items[n - 1], now) > m
      then DaysOverdue(items[n - 1], now) else m
  }

  function MaxOverdue(items: seq<Item>, student: PersonId, now: Datetime): nat
    requires AllLoanConsistent(items)
  {
    MaxOverdueBelow(items, student, now, |items|)
  }

  /** The items lent to `student` that are exactly `days` days overdue. */
  function TiedItems(items: seq<Item>, student: PersonId, now: Datetime, days: nat): set<ItemId>
    requires AllLoanConsistent(items)
  {
    set j | 0 <= j < |items| && items[j].checkedOutBy == Some(student) && DaysOverdue(items[j], now) == days
  }

  // ---------------------------------------------------------------------------
  // The store

  class Store {
    var types: seq<ItemType>
    var items: seq<Item>
    var ledger: seq<Transaction>
    var penalties: seq<Penalty>

    ghost predicate Valid()
      reads this
    {
      WellFormed(types, items)
    }

    constructor ()
      ensures Valid()
      ensures types == [] && items == [] && ledger == [] && penalties == []
    {
      types, items, ledger, penalties := [], [], [], [];
    }

    /** ItemType.objects.create. */
    method AddItemType(t: ItemType) returns (id: TypeId)
      requires Valid()
      modifies this`types
      ensures Valid()
      ensures id == |old(types)| && types == old(types) + [t]
    {
      id := |types|;
      types := types + [t];
    }

    /** ItemType.how_many_in_stock. */
    function HowManyInStockOf(t: TypeId): (c: nat)
      reads this
      ensures c == |set j | 0 <= j < |items| && items[j].itemtype == t && items[j].status == InStock|
    {
      StockCounts(items, t);
      HowManyInStock(items, t)
    }

    /** ItemType.how_many_out. */
    function HowManyOutOf(t: TypeId): (c: nat)
      reads this
      ensures c == |set j | 0 <= j < |items| && items[j].itemtype == t && items[j].status == Out|
    {
      StockCounts(items, t);
      HowManyOut(items, t)
    }

    /** Item.find_by_number over the stored items. */
    function Find(number: string): (r: Result<ItemId, Error>)
      reads this
      ensures r.Ok? ==> r.value < |items| && Identifies(items[r.value], number)
      ensures r.Ok? ==> forall j | 0 <= j < |items| && j != r.value :: !Identifies(items[j], number)
      ensures r == Err(NoMatch(number)) <==> forall j | 0 <= j < |items| :: !Identifies(items[j], number)
    {
      FindByNumber(items, number)
    }

    /** The kit cascade of Item.save for kit `k`: every stored item in the kit
        is given `kitDue` (through set_due_datetime) and saved. */
    method SaveCascade(k: ItemId, kitDue: Option<Datetime>, today: Day)
      modifies this`items
      ensures items == CascadeDue(old(items), k, kitDue, today)
    {
      var j := 0;
      while j < |items|
        invariant 0 <= j <= |items| == |old(items)|
        invariant forall m | 0 <= m < j :: items[m] == Cascaded(old(items)[m], k, kitDue, today)
        invariant forall m | j <= m < |items| :: items[m] == old(items)[m]
      {
        if items[j].partOfKit == Some(k) {
          items := items[j := items[j].(due := Some(DueDatetime(kitDue, today)))];
        }
        j := j + 1;
      }
    }

    /** Item.save of the record `rec`, as a new item (`pk` None) or over item
        `pk`: refuse a record without a number; for a kit, hand its due date
        to its contents; then let the database refuse a repeated
        (serialnumber, hip_number) pair, or store the record. */
    method Save(pk: Option<ItemId>, rec: Item, now: Datetime) returns (r: Result<ItemId, Error>)
      requires Valid() && SaveAllowed(types, items, pk, rec)
      modifies this`items
      ensures Valid()
      ensures !HasNumber(rec) ==> r == Err(MissingNumber) && items == old(items)
      ensures HasNumber(rec) ==>
        var id := if pk.Some? then pk.value else |old(items)|;
        var cascaded := if IsKit(types, rec) then CascadeDue(old(items), id, rec.due, DayOf(now)) else old(items);
        if PairTaken(old(items), id, rec) then r == Err(DuplicateNumbers) && items == cascaded
        else r == Ok(id) && items == (if pk.Some? then cascaded[id := rec] else cascaded + [rec])
    {
      if !HasNumber(rec) {
        return Err(MissingNumber);
      }
      var id := if pk.Some? then pk.value else |items|;
      ghost var items0 := items;
      if IsKit(types, rec) {
        SaveCascade(id, rec.due, DayOf(now));
        WellFormedKept(types, items0, items);
      }
      ghost var items1 := items;
      if exists j | 0 <= j < |items| && j != id ::
           items[j].serialnumber == rec.serialnumber && items[j].hipNumber == rec.hipNumber {
        assert PairTaken(items0, id, rec) by {
          var j :| 0 <= j < |items| && j != id && items[j].serialnumber == rec.serialnumber && items[j].hipNumber == rec.hipNumber;
          assert Fixed(items1[j]) == Fixed(items0[j]);
        }
        return Err(DuplicateNumbers);
      }
      assert !PairTaken(items0, id, rec) by {
        forall j | 0 <= j < |items0| && j != id
          ensures !(items0[j].serialnumber == rec.serialnumber && items0[j].hipNumber == rec.hipNumber)
        {
          assert Fixed(items1[j]) == Fixed(items0[j]);
        }
      }
      if pk.Some? {
        items := items[id := rec];
      } else {
        items := items + [rec];
      }
      SavedWellFormed(types, items1, pk, id, rec, items);
      r := Ok(id);
    }

    /** Lines 293-299 of Item.check_out on item `i`. */
    method CheckOutOne(i: ItemId, person: PersonId, custom: Option<Datetime>, now: Datetime, note: Option<string>)
      returns (r: Outcome<Error>)
      requires Valid() && i < |items|
      modifies this`items, this`ledger
      ensures Valid()
      ensures var e := CheckOutRecord(types, old(items), old(ledger), i, person, custom, now, note);
        items == e.items && ledger == e.ledger && r == e.outcome
    {
      if items[i].status != InStock {
        return Fail(NotInStock(items[i].status));
      }
      ghost var items0 := items;
      ledger := ledger + [Transaction(i, Some(person), now, Kind.CheckOut, note)];
      var it := items[i].(status := Out, checkedOutBy := Some(person), due := Some(DueDatetime(custom, DayOf(now))));
      items := items[i := it];
      if IsKit(types, it) {
        SaveCascade(i, it.due, DayOf(now));
      }
      r := Pass;
      WellFormedKept(types, items0, items);
    }

    /** The contents loop of Item.check_out: check out each item of `cs` in
        turn, stopping at the first refusal. */
    method CheckOutEach(cs: seq<ItemId>, person: PersonId, custom: Option<Datetime>, now: Datetime, note: Option<string>)
      returns (r: Outcome<Error>)
      requires Valid() && AllIn(types, items, cs)
      modifies this`items, this`ledger
      ensures Valid()
      ensures var e := CheckOutContents(types, old(items), old(ledger), cs, person, custom, now, note);
        items == e.items && ledger == e.ledger && r == e.outcome
    {
      ghost var items0, ledger0 := items, ledger;
      r := Pass;
      var k := 0;
      while k < |cs|
        invariant 0 <= k <= |cs|
        invariant Valid()
        invariant CheckOutContents(types, items0, ledger0, cs[..k], person, custom, now, note) == Effect(items, ledger, Pass)
        invariant r == Pass
      {
        assert cs[..k + 1][..k] == cs[..k];
        AllInFrame(types, items0, items, cs);
        r := CheckOutOne(cs[k], person, custom, now, note);
        k := k + 1;
        if r.Fail? {
          CheckOutContentsStops(types, items0, ledger0, cs, person, custom, now, note, k);
          return;
        }
      }
      assert cs[..|cs|] == cs;
    }

    /** Item.check_out: lend item `i` to `person`; for a kit, then lend each
        of its contents to the same person, due when the kit is. */
    method CheckOut(i: ItemId, person: PersonId, custom: Option<Datetime>, now: Datetime, note: Option<string>)
      returns (r: Outcome<Error>)
      requires Valid() && i < |items|
      modifies this`items, this`ledger
      ensures Valid()
      ensures var e := CheckOutSpec(types, old(items), old(ledger), i, person, custom, now, note);
        items == e.items && ledger == e.ledger && r == e.outcome
    {
      ghost var items0 := items;
      r := CheckOutOne(i, person, custom, now, note);
      assert Fixed(items[i]) == Fixed(items0[i]);
      if r.Fail? || !IsKit(types, items[i]) {
        return;
      }
      var kitNote := KitNote("Checked out as part of kit ", types, items[i]);
      assert kitNote == KitNote("Checked out as part of kit ", types, items0[i]);
      ContentsBelowFrame(items0, items, i, |items|);
      ContentsAllIn(types, items, i);
      r := CheckOutEach(Contents(items, i), person, items[i].due, now, kitNote);
    }

    /** Lines 306-313 of Item.check_in on item `i`. */
    method CheckInOne(i: ItemId, now: Datetime, note: Option<string>) returns (r: Outcome<Error>)
      requires Valid() && i < |items|
      modifies this`items, this`ledger
      ensures Valid()
      ensures var e := CheckInRecord(types, old(items), old(ledger), i, now, note);
        items == e.items && ledger == e.ledger && r == e.outcome
    {
      if items[i].status != Out {
        return Fail(NotCheckedOut(items[i].status));
      }
      ghost var items0 := items;
      var person := items[i].checkedOutBy;
      ledger := ledger + [Transaction(i, person, now, Kind.CheckIn, note)];
      var it := items[i].(status := InStock, checkedOutBy := None);
      items := items[i := it];
      if IsKit(types, it) {
        SaveCascade(i, it.due, DayOf(now));
      }
      r := Pass;
      WellFormedKept(types, items0, items);
    }

    /** The contents loop of Item.check_in, stopping at the first refusal. */
    method CheckInEach(cs: seq<ItemId>, now: Datetime, note: Option<string>) returns (r: Outcome<Error>)
      requires Valid() && AllIn(types, items, cs)
      modifies this`items, this`ledger
      ensures Valid()
      ensures var e := CheckInContents(types, old(items), old(ledger), cs, now, note);
        items == e.items && ledger == e.ledger && r == e.outcome
    {
      ghost var items0, ledger0 := items, ledger;
      r := Pass;
      var k := 0;
      while k < |cs|
        invariant 0 <= k <= |cs|
        invariant Valid()
        invariant CheckInContents(types, items0, ledger0, cs[..k], now, note) == Effect(items, ledger, Pass)
        invariant r == Pass
      {
        assert cs[..k + 1][..k] == cs[..k];
        AllInFrame(types, items0, items, cs);
        r := CheckInOne(cs[k], now, note);
        k := k + 1;
        if r.Fail? {
          CheckInContentsStops(types, items0, ledger0, cs, now, note, k);
          return;
        }
      }
      assert cs[..|cs|] == cs;
    }

    /** Item.check_in: return item `i` to stock; for a kit, then each of its contents. */
    method CheckIn(i: ItemId, now: Datetime, note: Option<string>) returns (r: Outcome<Error>)
      requires Valid() && i < |items|
      modifies this`items, this`ledger
      ensures Valid()
      ensures var e := CheckInSpec(types, old(items), old(ledger), i, now, note);
        items == e.items && ledger == e.ledger && r == e.outcome
    {
      ghost var items0 := items;
      r := CheckInOne(i, now, note);
      assert Fixed(items[i]) == Fixed(items0[i]);
      if r.Fail? || !IsKit(types, items[i]) {
        return;
      }
      var kitNote := KitNote("Checked in as part of kit ", types, items[i]);
      assert kitNote == KitNote("Checked in as part of kit ", types, items0[i]);
      ContentsBelowFrame(items0, items, i, |items|);
      ContentsAllIn(types, items, i);
      r := CheckInEach(Contents(items, i), now, kitNote);
    }

    /** The contents loop of Item.add_to_stock: each item of `cs` is added to stock and saved. */
    method AddEach(cs: seq<ItemId>, now: Datetime, note: Option<string>)
      requires Valid() && forall m | 0 <= m < |cs| :: cs[m] < |items|
      modifies this`items, this`ledger
      ensures Valid()
      ensures (items, ledger) == AddContents(old(items), old(ledger), cs, now, note)
    {
      ghost var items0, ledger0 := items, ledger;
      var k := 0;
      while k < |cs|
        invariant 0 <= k <= |cs|
        invariant Valid()
        invariant AddContents(items0, ledger0, cs[..k], now, note) == (items, ledger)
      {
        var c := cs[k];
        AddContentsStep(items0, ledger0, cs, k, now, note);
        if items[c].status != InStock {
          ledger := ledger + [Transaction(c, None, now, Add, note)];
        }
        items := items[c := Stocked(items[c])];
        k := k + 1;
        WellFormedKept(types, items0, items);
      }
      assert cs[..|cs|] == cs;
    }

    /** Item.add_to_stock on item `i`. The item itself is changed in memory
        only: the returned record is in stock, and storing it is left to the
        caller's save. When it was not in stock an ADD transaction is
        recorded. A kit's contents are each added to stock and saved. */
    method AddToStock(i: ItemId, now: Datetime, note: Option<string>) returns (updated: Item)
      requires Valid() && i < |items|
      modifies this`items, this`ledger
      ensures Valid()
      ensures updated == Stocked(old(items)[i])
      ensures var ledger1 := AddTransactions(old(ledger), i, old(items)[i], now, note);
        if IsKit(types, old(items)[i]) then
          (items, ledger) == AddContents(old(items), ledger1, Contents(old(items), i), now,
                                          KitNote("Added as part of kit ", types, old(items)[i]))
        else items == old(items) && ledger == ledger1
    {
      var self := items[i];
      if self.status != InStock {
        ledger := ledger + [Transaction(i, None, now, Add, note)];
      }
      updated := Stocked(self);
      if IsKit(types, self) {
        AddEach(Contents(items, i), now, KitNote("Added as part of kit ", types, self));
      }
    }

    /** The running maximum of Penalty.levy's first loop. */
    method MaxDaysOverdue(student: PersonId, now: Datetime) returns (m: nat)
      requires Valid()
      ensures m == MaxOverdue(items, student, now)
      ensures forall j | 0 <= j < |items| && items[j].checkedOutBy == Some(student) :: DaysOverdue(items[j], now) <= m
    {
      m := 0;
      var j := 0;
      while j < |items|
        invariant 0 <= j <= |items|
        invariant m == MaxOverdueBelow(items, student, now, j)
      {
        if items[j].checkedOutBy == Some(student) {
          var d := DaysOverdue(items[j], now);
          if d > m { m := d; }
        }
        j := j + 1;
      }
    }

    /** The items Penalty.levy attaches: those lent to `student` that are `days` overdue. */
    method ItemsOverdueBy(student: PersonId, now: Datetime, days: nat) returns (s: set<ItemId>)
      requires Valid()
      ensures s == TiedItems(items, student, now, days)
    {
      s := {};
      var j := 0;
      while j < |items|
        invariant 0 <= j <= |items|
        invariant s == set m | 0 <= m < j && items[m].checkedOutBy == Some(student) && DaysOverdue(items[m], now) == days
      {
        if items[j].checkedOutBy == Some(student) && DaysOverdue(items[j], now) == days {
          s := s + {j};
        }
        j := j + 1;
      }
    }

    /** Penalty.levy: nothing when none of the student's items is late;
        otherwise one new penalty of 2500 per day of the worst lateness,
        attached to every item tied at that worst lateness. */
    method Levy(student: PersonId, now: Datetime) returns (r: Option<Penalty>)
      requires Valid()
      modifies this`penalties
      ensures var m := MaxOverdue(items, student, now);
        if m == 0 then r == None && penalties == old(penalties)
        else (r == Some(Penalty(student, now, BasePenaltyAmount * m, TiedItems(items, student, now, m)))
              && penalties == old(penalties) + [r.value])
    {
      var overdueDays := MaxDaysOverdue(student, now);
      var amount := BasePenaltyAmount * overdueDays;
      if amount == 0 {
        return None;
      }
      var attached := ItemsOverdueBy(student, now, overdueDays);
      var penalty := Penalty(student, now, amount, attached);
      penalties := penalties + [penalty];
      r := Some(penalty);
    }
  }

  lemma SavedWellFormed(types: seq<ItemType>, items: seq<Item>, pk: Option<ItemId>, id: ItemId, rec: Item, items': seq<Item>)
    requires WellFormed(types, items) && SaveAllowed(types, items, pk, rec) && HasNumber(rec)
    requires id == (if pk.Some? then pk.value else |items|)
    requires !PairTaken(items, id, rec)
    requires items' == (if pk.Some? then items[id := rec] else items + [rec])
    ensures WellFormed(types, items')
  {
    assert |items'| >= |items|;
    forall j | 0 <= j < |items'| && j != id ensures items'[j] == items[j] {}
    assert items'[id] == rec;
    forall j | 0 <= j < |items'|
      ensures !PairTaken(items', j, items'[j])
    {
      if j == id {
        forall m | 0 <= m < |items'| && m != j
          ensures !(items'[m].serialnumber == rec.serialnumber && items'[m].hipNumber == rec.hipNumber)
        {
          assert items'[m] == items[m];
        }
      } else {
        assert !PairTaken(items, j, items[j]);
        forall m | 0 <= m < |items'| && m != j
          ensures !(items'[m].serialnumber == items'[j].serialnumber && items'[m].hipNumber == items'[j].hipNumber)
        {
          if m == id {
            assert !(items[j].serialnumber == rec.serialnumber && items[j].hipNumber == rec.hipNumber);
          } else {
            assert items'[m] == items[m];
          }
        }
      }
    }
    forall j | 0 <= j < |items'| && items'[j].partOfKit.Some?
      ensures items'[j].partOfKit.value < |items'| &&
              IsKit(types, items'[items'[j].partOfKit.value]) && !IsKit(types, items'[j])
    {
      if j != id {
        var k := items[j].partOfKit.value;
        if k == id {
          assert pk == Some(k);
          assert IsKit(types, rec);
        }
      }
    }
  }
}

// The lemmas below are about the specification functions of module Equipment.
module EquipmentFacts {
  import opened Results
  import opened Calendar
  import opened Equipment

  /** The CHECKOUT records the contents loop of check_out writes: one per
      item of `cs`, in order, under `person`. */
  function OutRecords(cs: seq<ItemId>, person: PersonId, now: Datetime, note: Option<string>): seq<Transaction>
    decreases |cs|
  {
    if cs == [] then []
    else OutRecords(cs[..|cs| - 1], person, now, note) + [Transaction(cs[|cs| - 1], Some(person), now, Kind.CheckOut, note)]
  }

  /** The CHECKIN records the contents loop of check_in writes: one per
      item of `cs`, in order, each under that item's borrower in `items`. */
  function InRecords(items: seq<Item>, cs: seq<ItemId>, now: Datetime, note: Option<string>): seq<Transaction>
    requires forall m | 0 <= m < |cs| :: cs[m] < |items|
    decreases |cs|
  {
    if cs == [] then []
    else
      var c := cs[|cs| - 1];
      InRecords(items, cs[..|cs| - 1], now, note) + [Transaction(c, items[c].checkedOutBy, now, Kind.CheckIn, note)]
  }

  /** One record of check_out on an item that is not a kit: it succeeds
      exactly when the item is in stock, and then changes only that item and
      appends one CHECKOUT record; a refusal changes nothing and names the
      item's status. */
  lemma OneRecordOut(types: seq<ItemType>, items: seq<Item>, ledger: seq<Transaction>, c: ItemId,
                     person: PersonId, custom: Option<Datetime>, now: Datetime, note: Option<string>)
    requires c < |items| && Typed(types, items) && !IsKit(types, items[c])
    ensures var e := CheckOutRecord(types, items, ledger, c, person, custom, now, note);
      (e.outcome == Pass <==> items[c].status == InStock) &&
      (e.outcome != Pass ==> e == Effect(items, ledger, Fail(NotInStock(items[c].status)))) &&
      (e.outcome == Pass ==>
         e.items == items[c := items[c].(status := Out, checkedOutBy := Some(person),
                                         due := Some(DueDatetime(custom, DayOf(now))))] &&
         e.ledger == ledger + [Transaction(c, Some(person), now, Kind.CheckOut, note)])
  {
  }

  /** One record of check_in on an item that is not a kit: it succeeds
      exactly when the item is out, and then changes only that item and
      appends one CHECKIN record under its borrower; a refusal changes
      nothing and names the item's status. */
  lemma OneRecordIn(types: seq<ItemType>, items: seq<Item>, ledger: seq<Transaction>, c: ItemId,
                    now: Datetime, note: Option<string>)
    requires c < |items| && Typed(types, items) && !IsKit(types, items[c])
    ensures var e := CheckInRecord(types, items, ledger, c, now, note);
      (e.outcome == Pass <==> items[c].status == Out) &&
      (e.outcome != Pass ==> e == Effect(items, ledger, Fail(NotCheckedOut(items[c].status)))) &&
      (e.outcome == Pass ==>
         e.items == items[c := items[c].(status := InStock, checkedOutBy := None)] &&
         e.ledger == ledger + [Transaction(c, items[c].checkedOutBy, now, Kind.CheckIn, note)])
  {
  }

  /** A completed contents loop of check_out lent every item of `cs` to
      `person`, due per `custom`, touched no other item, and wrote one
      CHECKOUT record per item, in order. */
  lemma {:induction false} ContentsCheckedOut(types: seq<ItemType>, items: seq<Item>, ledger: seq<Transaction>,
                                              cs: seq<ItemId>, person: PersonId, custom: Option<Datetime>,
                                              now: Datetime, note: Option<string>)
    requires AllIn(types, items, cs) && Typed(types, items)
    requires forall m | 0 <= m < |cs| :: !IsKit(types, items[cs[m]])
    requires CheckOutContents(types, items, ledger, cs, person, custom, now, note).outcome == Pass
    ensures var e := CheckOutContents(types, items, ledger, cs, person, custom, now, note);
      (forall m | 0 <= m < |cs| ::
         items[cs[m]].status == InStock &&
         e.items[cs[m]] == items[cs[m]].(status := Out, checkedOutBy := Some(person),
                                         due := Some(DueDatetime(custom, DayOf(now))))) &&
      (forall j | 0 <= j < |items| && j !in cs :: e.items[j] == items[j]) &&
      e.ledger == ledger + OutRecords(cs, person, now, note)
    decreases |cs|
  {
    if cs != [] {
      var p := cs[..|cs| - 1];
      var c := cs[|cs| - 1];
      var e := CheckOutContents(types, items, ledger, p, person, custom, now, note);
      assert e.outcome == Pass;
      ContentsCheckedOut(types, items, ledger, p, person, custom, now, note);
      AllInFrame(types, items, e.items, cs);
      OneRecordOut(types, e.items, e.ledger, c, person, custom, now, note);
      var after := CheckOutContents(types, items, ledger, cs, person, custom, now, note).items;
      LentStep(items, e.items, after, cs, person, DueDatetime(custom, DayOf(now)));
      assert ledger + OutRecords(p, person, now, note) + [Transaction(c, Some(person), now, Kind.CheckOut, note)]
          == ledger + OutRecords(cs, person, now, note);
    }
  }

  /** One more item lent: the facts about `cs[..|cs| - 1]` extend to `cs`.
      The new item was in stock in `mid`, so it is not among the earlier ones. */
  lemma LentStep(items: seq<Item>, mid: seq<Item>, after: seq<Item>, cs: seq<ItemId>, person: PersonId, due: Datetime)
    requires cs != [] && |mid| == |items| && forall m | 0 <= m < |cs| :: cs[m] < |items|
    requires var p := cs[..|cs| - 1];
      (forall m | 0 <= m < |p| ::
         items[p[m]].status == InStock &&
         mid[p[m]] == items[p[m]].(status := Out, checkedOutBy := Some(person), due := Some(due))) &&
      (forall j | 0 <= j < |items| && j !in p :: mid[j] == items[j])
    requires var c := cs[|cs| - 1];
      mid[c].status == InStock && after == mid[c := mid[c].(status := Out, checkedOutBy := Some(person), due := Some(due))]
    ensures (forall m | 0 <= m < |cs| ::
         items[cs[m]].status == InStock &&
         after[cs[m]] == items[cs[m]].(status := Out, checkedOutBy := Some(person), due := Some(due))) &&
      (forall j | 0 <= j < |items| && j !in cs :: after[j] == items[j])
  {
    var p, c := cs[..|cs| - 1], cs[|cs| - 1];
    assert c !in p;
    forall m | 0 <= m < |p| ensures p[m] == cs[m] {}
  }

  /** A completed contents loop of check_in returned every item of `cs` to
      stock without a borrower, touched no other item, and wrote one
      CHECKIN record per item, in order, under its borrower. */
  lemma {:induction false} ContentsCheckedIn(types: seq<ItemType>, items: seq<Item>, ledger: seq<Transaction>,
                                             cs: seq<ItemId>, now: Datetime, note: Option<string>)
    requires AllIn(types, items, cs) && Typed(types, items)
    requires forall m | 0 <= m < |cs| :: !IsKit(types, items[cs[m]])
    requires CheckInContents(types, items, ledger, cs, now, note).outcome == Pass
    ensures var e := CheckInContents(types, items, ledger, cs, now, note);
      (forall m | 0 <= m < |cs| ::
         items[cs[m]].status == Out && e.items[cs[m]] == items[cs[m]].(status := InStock, checkedOutBy := None)) &&
      (forall j | 0 <= j < |items| && j !in cs :: e.items[j] == items[j]) &&
      e.ledger == ledger + InRecords(items, cs, now, note)
    decreases |cs|
  {
    if cs != [] {
      var p := cs[..|cs| - 1];
      var c := cs[|cs| - 1];
      var e := CheckInContents(types, items, ledger, p, now, note);
      assert e.outcome == Pass;
      ContentsCheckedIn(types, items, ledger, p, now, note);
      AllInFrame(types, items, e.items, cs);
      OneRecordIn(types, e.items, e.ledger, c, now, note);
      var after := CheckInContents(types, items, ledger, cs, now, note).items;
      ReturnedStep(items, e.items, after, cs);
      assert e.items[c].checkedOutBy == items[c].checkedOutBy;
      assert ledger + InRecords(items, p, now, note) + [Transaction(c, items[c].checkedOutBy, now, Kind.CheckIn, note)]
          == ledger + InRecords(items, cs, now, note);
    }
  }

  /** One more item returned: the facts about `cs[..|cs| - 1]` extend to `cs`.
      The new item was out in `mid`, so it is not among the earlier ones. */
  lemma ReturnedStep(items: seq<Item>, mid: seq<Item>, after: seq<Item>, cs: seq<ItemId>)
    requires cs != [] && |mid| == |items| && forall m | 0 <= m < |cs| :: cs[m] < |items|
    requires var p := cs[..|cs| - 1];
      (forall m | 0 <= m < |p| ::
         items[p[m]].status == Out && mid[p[m]] == items[p[m]].(status := InStock, checkedOutBy := None)) &&
      (forall j | 0 <= j < |items| && j !in p :: mid[j] == items[j])
    requires var c := cs[|cs| - 1];
      mid[c].status == Out && after == mid[c := mid[c].(status := InStock, checkedOutBy := None)]
    ensures (forall m | 0 <= m < |cs| ::
         items[cs[m]].status == Out && after[cs[m]] == items[cs[m]].(status := InStock, checkedOutBy := None)) &&
      (forall j | 0 <= j < |items| && j !in cs :: after[j] == items[j])
    ensures cs[|cs| - 1] !in cs[..|cs| - 1]
  {
    var p, c := cs[..|cs| - 1], cs[|cs| - 1];
    assert c !in p;
    forall m | 0 <= m < |p| ensures p[m] == cs[m] {}
  }

  /** The first steps shared by check_out as written and as corrected on a
      kit: the kit itself is lent out, and its contents are unchanged by
      the kit's own record except for the due date the save cascade gives them. */
  lemma KitRecordCheckedOut(types: seq<ItemType>, items: seq<Item>, ledger: seq<Transaction>, i: ItemId,
                            person: PersonId, custom: Option<Datetime>, now: Datetime, note: Option<string>)
    requires WellFormed(types, items) && i < |items| && IsKit(types, items[i])
    requires CheckOutRecord(types, items, ledger, i, person, custom, now, note).outcome == Pass
    ensures var e := CheckOutRecord(types, items, ledger, i, person, custom, now, note);
      var cs := Contents(e.items, i);
      && cs == Contents(items, i)
      && i !in cs
      && AllIn(types, e.items, cs)
      && (forall m | 0 <= m < |cs| :: !IsKit(types, e.items[cs[m]]) && e.items[cs[m]].status == items[cs[m]].status)
      && e.items[i] == items[i].(status := Out, checkedOutBy := Some(person), due := Some(DueDatetime(custom, DayOf(now))))
      && (forall j | 0 <= j < |items| && j != i && items[j].partOfKit != Some(i) :: e.items[j] == items[j])
      && e.ledger == ledger + [Transaction(i, Some(person), now, Kind.CheckOut, note)]
  {
    var e := CheckOutRecord(types, items, ledger, i, person, custom, now, note);
    ContentsBelowFrame(items, e.items, i, |items|);
    ContentsAllIn(types, e.items, i);
    var cs := Contents(items, i);
    forall m | 0 <= m < |cs| ensures cs[m] != i && !IsKit(types, e.items[cs[m]]) {
      assert Fixed(e.items[cs[m]]) == Fixed(items[cs[m]]);
    }
  }

  /** Corrected check_out on a kit: when it succeeds, the kit and every item
      in it are lent to `person`, all of them are due when the kit is (the
      custom due timestamp if one was given), and the ledger gains the kit's
      CHECKOUT and then one CHECKOUT per item in it, in id order. */
  lemma KitContentsDueWithKit(types: seq<ItemType>, items: seq<Item>, ledger: seq<Transaction>, i: ItemId,
                              person: PersonId, custom: Option<Datetime>, now: Datetime, note: Option<string>)
    requires WellFormed(types, items) && i < |items| && IsKit(types, items[i])
    requires CheckOutSpec(types, items, ledger, i, person, custom, now, note).outcome == Pass
    ensures var e := CheckOutSpec(types, items, ledger, i, person, custom, now, note);
      && e.items[i].status == Out && e.items[i].checkedOutBy == Some(person)
      && e.items[i].due == Some(DueDatetime(custom, DayOf(now)))
      && (forall j | 0 <= j < |items| && items[j].partOfKit == Some(i) ::
           items[j].status == InStock &&
           e.items[j].status == Out && e.items[j].checkedOutBy == Some(person) && e.items[j].due == e.items[i].due)
      && e.ledger == ledger + [Transaction(i, Some(person), now, Kind.CheckOut, note)]
                            + OutRecords(Contents(items, i), person, now, KitNote("Checked out as part of kit ", types, items[i]))
  {
    var e1 := CheckOutRecord(types, items, ledger, i, person, custom, now, note);
    KitRecordCheckedOut(types, items, ledger, i, person, custom, now, note);
    var cs := Contents(e1.items, i);
    ContentsCheckedOut(types, e1.items, e1.ledger, cs, person, e1.items[i].due, now,
                       KitNote("Checked out as part of kit ", types, items[i]));
  }

  /** check_out as written on a kit: when it succeeds, every item in the kit
      is due at the default due timestamp, whatever due timestamp the kit was given. */
  lemma KitContentsDueAsWritten(types: seq<ItemType>, items: seq<Item>, ledger: seq<Transaction>, i: ItemId,
                                person: PersonId, custom: Option<Datetime>, now: Datetime, note: Option<string>)
    requires WellFormed(types, items) && i < |items| && IsKit(types, items[i])
    requires CheckOutAsWritten(types, items, ledger, i, person, custom, now, note).outcome == Pass
    ensures var e := CheckOutAsWritten(types, items, ledger, i, person, custom, now, note);
      && e.items[i].due == Some(DueDatetime(custom, DayOf(now)))
      && forall j | 0 <= j < |items| && items[j].partOfKit == Some(i) ::
           e.items[j].status == Out && e.items[j].due == Some(DefaultDue(DayOf(now)))
  {
    var e1 := CheckOutRecord(types, items, ledger, i, person, custom, now, note);
    KitRecordCheckedOut(types, items, ledger, i, person, custom, now, note);
    var cs := Contents(e1.items, i);
    ContentsCheckedOut(types, e1.items, e1.ledger, cs, person, None, now,
                       KitNote("Checked out as part of kit ", types, items[i]));
  }

  /** The discrepancy: when a kit holding item `j` is checked out with a
      custom due timestamp other than the default, check_out as written
      leaves `j` due at a different time than the kit, while the corrected
      check_out makes `j` due with the kit. */
  lemma KitCustomDueDiffers(types: seq<ItemType>, items: seq<Item>, ledger: seq<Transaction>, i: ItemId, j: ItemId,
                            person: PersonId, custom: Option<Datetime>, now: Datetime, note: Option<string>)
    requires WellFormed(types, items) && i < |items| && IsKit(types, items[i])
    requires j < |items| && items[j].partOfKit == Some(i)
    requires custom.Some? && custom.value != DefaultDue(DayOf(now))
    requires CheckOutAsWritten(types, items, ledger, i, person, custom, now, note).outcome == Pass
    requires CheckOutSpec(types, items, ledger, i, person, custom, now, note).outcome == Pass
    ensures var wrong := CheckOutAsWritten(types, items, ledger, i, person, custom, now, note);
      wrong.items[j].due != wrong.items[i].due
    ensures var right := CheckOutSpec(types, items, ledger, i, person, custom, now, note);
      right.items[j].due == right.items[i].due == custom
  {
    KitContentsDueAsWritten(types, items, ledger, i, person, custom, now, note);
    KitContentsDueWithKit(types, items, ledger, i, person, custom, now, note);
  }

  /** Check-in records written under the same borrowers are the same records. */
  lemma {:induction false} InRecordsFrame(items: seq<Item>, items': seq<Item>, cs: seq<ItemId>, now: Datetime, note: Option<string>)
    requires forall m | 0 <= m < |cs| :: cs[m] < |items| && cs[m] < |items'|
    requires forall m | 0 <= m < |cs| :: items'[cs[m]].checkedOutBy == items[cs[m]].checkedOutBy
    ensures InRecords(items', cs, now, note) == InRecords(items, cs, now, note)
    decreases |cs|
  {
    if cs != [] {
      InRecordsFrame(items, items', cs[..|cs| - 1], now, note);
    }
  }

  /** The first step of check_in on a kit: the kit itself is returned and
      recorded, and its contents keep their status and borrower while the
      save cascade makes them due when the kit was. */
  lemma KitRecordCheckedIn(types: seq<ItemType>, items: seq<Item>, ledger: seq<Transaction>, i: ItemId,
                           now: Datetime, note: Option<string>)
    requires WellFormed(types, items) && i < |items| && IsKit(types, items[i])
    requires CheckInRecord(types, items, ledger, i, now, note).outcome == Pass
    ensures var e := CheckInRecord(types, items, ledger, i, now, note);
      var cs := Contents(e.items, i);
      && cs == Contents(items, i)
      && i !in cs
      && AllIn(types, e.items, cs)
      && items[i].status == Out && items[i].due.Some?
      && (forall m | 0 <= m < |cs| ::
            !IsKit(types, e.items[cs[m]]) && e.items[cs[m]] == items[cs[m]].(due := items[i].due))
      && e.items[i] == items[i].(status := InStock, checkedOutBy := None)
      && (forall j | 0 <= j < |items| && j != i && items[j].partOfKit != Some(i) :: e.items[j] == items[j])
      && e.ledger == ledger + [Transaction(i, items[i].checkedOutBy, now, Kind.CheckIn, note)]
  {
    var e := CheckInRecord(types, items, ledger, i, now, note);
    ContentsBelowFrame(items, e.items, i, |items|);
    ContentsAllIn(types, e.items, i);
    var cs := Contents(items, i);
    forall m | 0 <= m < |cs| ensures cs[m] != i && !IsKit(types, e.items[cs[m]]) {
      assert Fixed(e.items[cs[m]]) == Fixed(items[cs[m]]);
    }
  }

  /** check_in on a kit: when it succeeds, the kit and every item in it are
      back in stock without a borrower (the contents due when the kit was),
      nothing else changes, and the ledger gains the kit's CHECKIN and then
      one CHECKIN per item in it, in id order, each under its own borrower. */
  lemma KitCheckedIn(types: seq<ItemType>, items: seq<Item>, ledger: seq<Transaction>, i: ItemId,
                     now: Datetime, note: Option<string>)
    requires WellFormed(types, items) && i < |items| && IsKit(types, items[i])
    requires CheckInSpec(types, items, ledger, i, now, note).outcome == Pass
    ensures var e := CheckInSpec(types, items, ledger, i, now, note);
      && e.items[i] == items[i].(status := InStock, checkedOutBy := None)
      && (forall j | 0 <= j < |items| && items[j].partOfKit == Some(i) ::
            items[j].status == Out &&
            e.items[j] == items[j].(status := InStock, checkedOutBy := None, due := items[i].due))
      && (forall j | 0 <= j < |items| && j != i && items[j].partOfKit != Some(i) :: e.items[j] == items[j])
      && e.ledger == ledger + [Transaction(i, items[i].checkedOutBy, now, Kind.CheckIn, note)]
                            + InRecords(items, Contents(items, i), now, KitNote("Checked in as part of kit ", types, items[i]))
  {
    var e1 := CheckInRecord(types, items, ledger, i, now, note);
    KitRecordCheckedIn(types, items, ledger, i, now, note);
    var cs := Contents(items, i);
    var kn := KitNote("Checked in as part of kit ", types, items[i]);
    var e := CheckInContents(types, e1.items, e1.ledger, cs, now, kn);
    assert CheckInSpec(types, items, ledger, i, now, note) == e;
    ContentsCheckedIn(types, e1.items, e1.ledger, cs, now, kn);
    InRecordsFrame(items, e1.items, cs, now, kn);
    KitReturned(items, e1.items, e.items, i, cs);
  }

  /** The item facts of KitCheckedIn, from those of its two steps. */
  lemma KitReturned(items: seq<Item>, mid: seq<Item>, after: seq<Item>, i: ItemId, cs: seq<ItemId>)
    requires i < |items| == |mid| == |after| && i !in cs
    requires forall m | 0 <= m < |cs| :: cs[m] < |items| && items[cs[m]].partOfKit == Some(i)
    requires forall j | 0 <= j < |items| && items[j].partOfKit == Some(i) :: j in cs
    requires forall m | 0 <= m < |cs| :: mid[cs[m]] == items[cs[m]].(due := items[i].due)
    requires mid[i] == items[i].(status := InStock, checkedOutBy := None)
    requires forall j | 0 <= j < |items| && j != i && items[j].partOfKit != Some(i) :: mid[j] == items[j]
    requires forall m | 0 <= m < |cs| ::
      mid[cs[m]].status == Out && after[cs[m]] == mid[cs[m]].(status := InStock, checkedOutBy := None)
    requires forall j | 0 <= j < |mid| && j !in cs :: after[j] == mid[j]
    ensures after[i] == items[i].(status := InStock, checkedOutBy := None)
    ensures forall j | 0 <= j < |items| && items[j].partOfKit == Some(i) ::
      items[j].status == Out && after[j] == items[j].(status := InStock, checkedOutBy := None, due := items[i].due)
    ensures forall j | 0 <= j < |items| && j != i && items[j].partOfKit != Some(i) :: after[j] == items[j]
  {
    forall j | 0 <= j < |items| && items[j].partOfKit == Some(i)
      ensures items[j].status == Out && after[j] == items[j].(status := InStock, checkedOutBy := None, due := items[i].due)
    {
      var m :| 0 <= m < |cs| && cs[m] == j;
    }
    forall j | 0 <= j < |items| && j != i && items[j].partOfKit != Some(i) ensures after[j] == items[j] {
      assert j !in cs;
    }
  }

  /** Checking out an in-stock item that is not a kit and checking it back in
      records a CHECKOUT and a CHECKIN under the borrower and leaves every
      item as it was, except that the returned item keeps its last due date. */
  lemma CheckOutThenIn(types: seq<ItemType>, items: seq<Item>, ledger: seq<Transaction>, i: ItemId,
                       person: PersonId, custom: Option<Datetime>, now: Datetime, later: Datetime,
                       note: Option<string>, note': Option<string>)
    requires WellFormed(types, items) && i < |items| && !IsKit(types, items[i])
    requires items[i].status == InStock && items[i].checkedOutBy.None?
    ensures var e1 := CheckOutSpec(types, items, ledger, i, person, custom, now, note);
      var e2 := CheckInSpec(types, e1.items, e1.ledger, i, later, note');
      && e1.outcome == Pass && e2.outcome == Pass
      && e2.items == items[i := items[i].(due := Some(DueDatetime(custom, DayOf(now))))]
      && e2.ledger == ledger + [Transaction(i, Some(person), now, Kind.CheckOut, note),
                                Transaction(i, Some(person), later, Kind.CheckIn, note')]
  {
    var e1 := CheckOutSpec(types, items, ledger, i, person, custom, now, note);
    assert Fixed(e1.items[i]) == Fixed(items[i]);
    var e2 := CheckInSpec(types, e1.items, e1.ledger, i, later, note');
    OneRecordOut(types, items, ledger, i, person, custom, now, note);
    OneRecordIn(types, e1.items, e1.ledger, i, later, note');
    assert items[i].(due := Some(DueDatetime(custom, DayOf(now)))) == e2.items[i];
  }

  /** A successful checkout of an item that is not a kit moves one item of
      its type from the in-stock count to the out count. */
  lemma CheckOutCounts(types: seq<ItemType>, items: seq<Item>, ledger: seq<Transaction>, i: ItemId,
                       person: PersonId, custom: Option<Datetime>, now: Datetime, note: Option<string>, t: TypeId)
    requires WellFormed(types, items) && i < |items| && !IsKit(types, items[i])
    requires CheckOutSpec(types, items, ledger, i, person, custom, now, note).outcome == Pass
    ensures var e := CheckOutSpec(types, items, ledger, i, person, custom, now, note);
      && HowManyInStock(e.items, t) == HowManyInStock(items, t) - (if t == items[i].itemtype then 1 else 0)
      && HowManyOut(e.items, t) == HowManyOut(items, t) + (if t == items[i].itemtype then 1 else 0)
  {
    var it := items[i].(status := Out, checkedOutBy := Some(person), due := Some(DueDatetime(custom, DayOf(now))));
    CountAfterUpdate(items, i, it, t, InStock, |items|);
    CountAfterUpdate(items, i, it, t, Out, |items|);
  }

  /** After the contents loop of add_to_stock every item of `cs` is in stock,
      and no other item changed. */
  lemma {:induction false} AddContentsStocks(items: seq<Item>, ledger: seq<Transaction>, cs: seq<ItemId>,
                                             now: Datetime, note: Option<string>)
    requires forall m | 0 <= m < |cs| :: cs[m] < |items|
    ensures var r := AddContents(items, ledger, cs, now, note);
      (forall m | 0 <= m < |cs| :: r.0[cs[m]] == Stocked(items[cs[m]])) &&
      (forall j | 0 <= j < |items| && j !in cs :: r.0[j] == items[j])
    decreases |cs|
  {
    if cs != [] {
      var p := cs[..|cs| - 1];
      AddContentsStocks(items, ledger, p, now, note);
      forall j | 0 <= j < |items| && j !in cs ensures j !in p {
        assert forall m | 0 <= m < |p| :: p[m] == cs[m];
      }
      forall m | 0 <= m < |cs| ensures AddContents(items, ledger, cs, now, note).0[cs[m]] == Stocked(items[cs[m]]) {
        if m < |p| { assert cs[m] == p[m]; }
      }
    }
  }

  /** The contents loop of add_to_stock changes nothing when every item is already in stock. */
  lemma {:induction false} AddContentsNoop(items: seq<Item>, ledger: seq<Transaction>, cs: seq<ItemId>,
                                           now: Datetime, note: Option<string>)
    requires forall m | 0 <= m < |cs| :: cs[m] < |items| && items[cs[m]].status == InStock
    ensures AddContents(items, ledger, cs, now, note) == (items, ledger)
    decreases |cs|
  {
    if cs != [] {
      AddContentsNoop(items, ledger, cs[..|cs| - 1], now, note);
      assert items[cs[|cs| - 1] := Stocked(items[cs[|cs| - 1]])] == items;
    }
  }

  /** add_to_stock is idempotent on a kit's contents: a second run records
      no transaction and changes no item. */
  lemma AddContentsIdempotent(items: seq<Item>, ledger: seq<Transaction>, ledger': seq<Transaction>,
                              cs: seq<ItemId>, now: Datetime, note: Option<string>)
    requires forall m | 0 <= m < |cs| :: cs[m] < |items|
    ensures var r := AddContents(items, ledger, cs, now, note);
      AddContents(r.0, ledger', cs, now, note) == (r.0, ledger')
  {
    AddContentsStocks(items, ledger, cs, now, note);
    var r := AddContents(items, ledger, cs, now, note);
    AddContentsNoop(r.0, ledger', cs, now, note);
  }
}
