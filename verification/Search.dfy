/** Operational queries over the delivery indexes. `startAttempt` changes a delivery without touching its
    index rows, so rows go stale and stay behind; both queries compare every row with the current
    record. */
module Search {
  import opened Domain
  import opened Cells
  import opened System
  import opened Invariants
  import opened Steps

  type Table = map<DeliveryId, Cell>

  /** An index row within its category: the sort key. */
  datatype Row = Row(at: Time, d: DeliveryId)

  datatype SearchInput = SearchInput(
    delivery: Option<DeliveryId>, event: Option<EventId>, status: Option<DeliveryState>,
    partner: Option<PartnerId>, destination: Option<DestinationId>, terminalFailure: bool,
    from: Time, to: Time)

  predicate PassesFilter(input: SearchInput, d: Delivery) {
    && (input.status.Some? ==> d.state == input.status.value)
    && (input.partner.Some? ==> d.partner == input.partner.value)
    && (input.destination.Some? ==> d.destination == input.destination.value)
    && (input.terminalFailure ==> d.state == DeadLettered || d.state == FailedTerminal)
  }

  function CategoryOf(input: SearchInput): Category {
    if input.terminalFailure then TerminalFailure
    else if input.status.Some? then ByStatus(input.status.value)
    else if input.partner.Some? then ByPartner(input.partner.value)
    else if input.destination.Some? then ByDestination(input.destination.value)
    else All
  }

  /** The rows of one category in the time window, in any order. */
  ghost predicate Lists(cells: Table, c: Category, from: Time, to: Time, rows: set<Row>) {
    forall r :: r in rows <==> r.d in cells && (c, r.at) in cells[r.d].index && from <= r.at <= to
  }

  /** The row a delivery has if it is indexed as it is now. */
  function CurrentRow(cells: Table, d: DeliveryId): Row
    requires d in cells
  {
    Row(cells[d].d.updatedAt, d)
  }

  ghost predicate Distinct<T(!new)>(items: seq<T>) {
    forall i, j :: 0 <= i < j < |items| ==> items[i] != items[j]
  }

  /** A delivery has a row at its current time in the list of all, of its state, its partner and its destination,
      and among the failures if it is one. */
  predicate ListedNow(c: Cell) {
    && (All, c.d.updatedAt) in c.index && (ByStatus(c.d.state), c.d.updatedAt) in c.index
    && (ByPartner(c.d.partner), c.d.updatedAt) in c.index && (ByDestination(c.d.destination), c.d.updatedAt) in c.index
    && (c.d.state == DeadLettered || c.d.state == FailedTerminal ==> (TerminalFailure, c.d.updatedAt) in c.index)
  }

  lemma ListedIsIndexed(c: Cell)
    ensures ListedNow(c) <==> IndexRows(c.d) <= c.index
  {
    var rows := IndexRows(c.d);
    assert (All, c.d.updatedAt) in rows && (ByStatus(c.d.state), c.d.updatedAt) in rows;
    assert (ByPartner(c.d.partner), c.d.updatedAt) in rows && (ByDestination(c.d.destination), c.d.updatedAt) in rows;
    if c.d.state == DeadLettered || c.d.state == FailedTerminal {
      assert (TerminalFailure, c.d.updatedAt) in rows;
    }
  }

  // ---------------------------------------------------------------- searchDeliveries

  /** One page of an index query, joined with the current records. Whatever stale rows the page holds,
      each delivery comes once, passes the filter, and is there exactly when its current row is. */
  method SearchIndex(cells: Table, input: SearchInput, page: seq<Row>) returns (items: seq<DeliveryId>)
    ensures Distinct(items)
    ensures forall d :: d in items <==> d in cells && PassesFilter(input, cells[d].d) && CurrentRow(cells, d) in page
  {
    items := [];
    var returned: set<DeliveryId> := {};
    for i := 0 to |page|
      invariant Distinct(items) && forall d :: d in items <==> d in returned
      invariant forall d :: d in items <==>
                  d in cells && PassesFilter(input, cells[d].d) && CurrentRow(cells, d) in page[..i]
    {
      var row := page[i];
      assert page[..i + 1] == page[..i] + [row];
      if row.d in cells && row.at == cells[row.d].d.updatedAt && row.d !in returned
         && PassesFilter(input, cells[row.d].d) {
        returned := returned + {row.d};
        items := items + [row.d];
      }
    }
    assert page[..|page|] == page;
  }

  /** The deliveries of an event, as listed by its partition. */
  method SearchEvent(cells: Table, input: SearchInput, detail: seq<DeliveryId>) returns (items: seq<DeliveryId>)
    requires forall d :: d in detail ==> d in cells
    ensures Distinct(detail) ==> Distinct(items)
    ensures forall d :: d in items <==> d in detail && PassesFilter(input, cells[d].d)
  {
    items := [];
    for i := 0 to |detail|
      invariant forall d :: d in items <==> d in detail[..i] && PassesFilter(input, cells[d].d)
      invariant Distinct(detail) ==> Distinct(items)
    {
      assert detail[..i + 1] == detail[..i] + [detail[i]];
      if PassesFilter(input, cells[detail[i]].d) {
        items := items + [detail[i]];
      }
    }
    assert detail[..|detail|] == detail;
  }

  /** What a search is for. A delivery identifier overrides the filter, an event overrides the window. */
  predicate Wanted(input: SearchInput, id: DeliveryId, d: Delivery) {
    if input.delivery.Some? then id == input.delivery.value
    else PassesFilter(input, d) && (if input.event.Some? then d.event == input.event.value
                                    else input.from <= d.updatedAt <= input.to)
  }

  /** The same, as a caller reads it: every filter that is given is met. */
  predicate AsAsked(input: SearchInput, id: DeliveryId, d: Delivery) {
    match input.delivery
    case Some(wanted) => id == wanted
    case None =>
      && (input.status == None || input.status == Some(d.state))
      && (input.partner == None || input.partner == Some(d.partner))
      && (input.destination == None || input.destination == Some(d.destination))
      && (input.terminalFailure ==> d.state in {DeadLettered, FailedTerminal})
      && match input.event
         case Some(e) => d.event == e
         case None => input.from <= d.updatedAt && d.updatedAt <= input.to
  }

  lemma WantedIsAsked(input: SearchInput, id: DeliveryId, d: Delivery)
    ensures Wanted(input, id, d) <==> AsAsked(input, id, d)
  {
  }

  /** `searchDeliveries`, with `index` the answer of the index query and `detail` the deliveries listed
      under the event. No duplicate, nothing but what is wanted, and everything that is wanted as far
      as the query lists its current row. */
  method SearchDeliveries(cells: Table, input: SearchInput, index: seq<Row>, detail: seq<DeliveryId>)
    returns (items: seq<DeliveryId>)
    requires Lists(cells, CategoryOf(input), input.from, input.to, set r | r in index)
    requires input.event.Some? ==> Distinct(detail)
    requires forall d :: d in detail <==> d in cells && input.event.Some? && cells[d].d.event == input.event.value
    ensures Distinct(items)
    ensures forall d :: d in items ==> d in cells && AsAsked(input, d, cells[d].d)
    ensures forall d :: d in cells && AsAsked(input, d, cells[d].d) && ListedNow(cells[d]) ==> d in items
  {
    forall d | d in cells
      ensures Wanted(input, d, cells[d].d) <==> AsAsked(input, d, cells[d].d)
      ensures ListedNow(cells[d]) <==> IndexRows(cells[d].d) <= cells[d].index
    {
      WantedIsAsked(input, d, cells[d].d);
      ListedIsIndexed(cells[d]);
    }
    if input.delivery.Some? {
      items := if input.delivery.value in cells then [input.delivery.value] else [];
    } else if input.event.Some? {
      items := SearchEvent(cells, input, detail);
    } else {
      items := SearchIndex(cells, input, index);
      forall d | d in cells && Wanted(input, d, cells[d].d) && IndexRows(cells[d].d) <= cells[d].index
        ensures CurrentRow(cells, d) in index
      {
        FilterImpliesCategory(input, cells[d].d);
        assert CurrentRow(cells, d) in (set r | r in index);
      }
    }
  }

  /** The category that is queried lists every delivery that passes the filter. */
  lemma FilterImpliesCategory(input: SearchInput, d: Delivery)
    requires PassesFilter(input, d)
    ensures CategoryOf(input) in Categories(d) && (CategoryOf(input), d.updatedAt) in IndexRows(d)
  {
  }

  // ---------------------------------------------------------------- countDeliveriesByState

  predicate Hit(cells: Table, s: DeliveryState, r: Row) {
    r.d in cells && cells[r.d].d.state == s && cells[r.d].d.updatedAt == r.at
  }

  ghost function Hits(cells: Table, s: DeliveryState, rows: seq<Row>): set<DeliveryId> {
    set r | r in rows && Hit(cells, s, r) :: r.d
  }

  function Concat(pages: seq<seq<Row>>): seq<Row> {
    if pages == [] then [] else Concat(pages[..|pages| - 1]) + pages[|pages| - 1]
  }

  /** Every hit is a different delivery: the row of a hit is its current row. */
  lemma OneMoreRow(cells: Table, s: DeliveryState, rows: seq<Row>, r: Row)
    requires r !in rows
    ensures |Hits(cells, s, rows + [r])| == |Hits(cells, s, rows)| + (if Hit(cells, s, r) then 1 else 0)
  {
    if Hit(cells, s, r) {
      assert Hits(cells, s, rows + [r]) == Hits(cells, s, rows) + {r.d};
    } else {
      assert Hits(cells, s, rows + [r]) == Hits(cells, s, rows);
    }
  }

  method CountPage(cells: Table, s: DeliveryState, ghost before: seq<Row>, page: seq<Row>) returns (n: nat)
    requires Distinct(before + page)
    ensures |Hits(cells, s, before + page)| == |Hits(cells, s, before)| + n
  {
    n := 0;
    assert before + page[..0] == before;
    for i := 0 to |page|
      invariant |Hits(cells, s, before + page[..i])| == |Hits(cells, s, before)| + n
    {
      assert before + page[..i + 1] == before + page[..i] + [page[i]];
      assert page[i] !in before + page[..i] by {
        assert (before + page)[|before| + i] == page[i];
        assert before + page[..i] == (before + page)[..|before| + i];
      }
      OneMoreRow(cells, s, before + page[..i], page[i]);
      if Hit(cells, s, page[i]) {
        n := n + 1;
      }
    }
    assert page[..|page|] == page;
  }

  ghost function InState(cells: Table, s: DeliveryState): set<DeliveryId> {
    set d | d in cells && cells[d].d.state == s
  }

  /** Deliveries that are listed under their state at their current time. */
  ghost function Listed(cells: Table, s: DeliveryState): set<DeliveryId> {
    set d | d in cells && cells[d].d.state == s && (ByStatus(s), cells[d].d.updatedAt) in cells[d].index
  }

  lemma {:induction false} DistinctPrefix(pages: seq<seq<Row>>, n: nat)
    requires n <= |pages| && Distinct(Concat(pages))
    ensures Distinct(Concat(pages[..n]))
  {
    if n < |pages| {
      var rest := pages[..|pages| - 1];
      assert Concat(pages) == Concat(rest) + pages[|pages| - 1];
      assert forall i :: 0 <= i < |Concat(rest)| ==> Concat(rest)[i] == Concat(pages)[i];
      DistinctPrefix(rest, n);
      assert rest[..n] == pages[..n];
    } else {
      assert pages[..n] == pages;
    }
  }

  /** `countDeliveriesByState`: the page loop counts exactly the deliveries in the state that are listed
      at their current time, each once, however many stale rows the pages hold. */
  method CountDeliveriesByState(cells: Table, s: DeliveryState, pages: seq<seq<Row>>) returns (count: nat)
    requires Distinct(Concat(pages))
    requires forall r :: r in Concat(pages) <==> r.d in cells && (ByStatus(s), r.at) in cells[r.d].index
    ensures count == |Listed(cells, s)|
    ensures count <= |InState(cells, s)|
    ensures IndexAgreement(cells) && s != InProgress ==> count == |InState(cells, s)|
  {
    count := 0;
    for i := 0 to |pages|
      invariant count == |Hits(cells, s, Concat(pages[..i]))|
    {
      assert pages[..i + 1][..i] == pages[..i];
      assert Concat(pages[..i + 1]) == Concat(pages[..i]) + pages[i];
      DistinctPrefix(pages, i + 1);
      var n := CountPage(cells, s, Concat(pages[..i]), pages[i]);
      count := count + n;
    }
    assert pages[..|pages|] == pages;
    HitsAreListed(cells, s, Concat(pages));
    Subset(Listed(cells, s), InState(cells, s));
    if IndexAgreement(cells) && s != InProgress {
      assert Listed(cells, s) == InState(cells, s);
    }
  }

  lemma HitsAreListed(cells: Table, s: DeliveryState, rows: seq<Row>)
    requires forall r :: r in rows <==> r.d in cells && (ByStatus(s), r.at) in cells[r.d].index
    ensures Hits(cells, s, rows) == Listed(cells, s)
  {
    forall d | d in Listed(cells, s) ensures d in Hits(cells, s, rows) {
      assert Hit(cells, s, CurrentRow(cells, d)) && CurrentRow(cells, d) in rows;
    }
  }

  lemma {:induction false} Subset<T>(a: set<T>, b: set<T>)
    requires a <= b
    ensures |a| <= |b|
    decreases |a|
  {
    if a != {} {
      var x :| x in a;
      Subset(a - {x}, b - {x});
    }
  }

  // ---------------------------------------------------------------- agreement in every reachable state

  /** Every delivery without an active attempt has its current row in all its categories; only
      deliveries in progress have an active attempt. */
  ghost predicate IndexAgreement(cells: Table) {
    forall d :: d in cells && (cells[d].d.activeAttempt.None? || cells[d].d.state != InProgress) ==>
      IndexRows(cells[d].d) <= cells[d].index
  }

  lemma IndexesAgree(s: Sys, steps: seq<Step>, t: Sys)
    requires Initial(s) && Run(s, steps, t)
    ensures IndexAgreement(t.cells)
    ensures forall d :: d in t.cells && (t.cells[d].d.activeAttempt.None? || t.cells[d].d.state != InProgress)
              ==> ListedNow(t.cells[d])
  {
    InitialInv(s);
    RunKeepsInv(s, steps, t);
    forall d | d in t.cells && (t.cells[d].d.activeAttempt.None? || t.cells[d].d.state != InProgress)
      ensures ListedNow(t.cells[d])
    {
      assert CellInv(t.cells[d], t.clock);
      ListedIsIndexed(t.cells[d]);
    }
  }

  /** An attempt may start at a later instant than its lease was taken, and its index rows stay behind.
      Exact: in a category of its own the delivery is then listed at its current time if and only if the
      attempt started in the very instant of the last write, or an older row of that instant was left there. */
  lemma StartedListed(c: Cell, a: Attempt, clock: Time, k: Category)
    requires CellInv(c, clock) && CommitStart(c, c.d, a).Some? && k in Categories(c.d)
    ensures var after := CommitStart(c, c.d, a).value;
            && k in Categories(after.d)
            && ((k, after.d.updatedAt) in after.index
                <==> a.startedAt == c.d.updatedAt || (k, a.startedAt) in c.index - IndexRows(c.d))
  {
    assert StartCondition(c, c.d) && IndexRows(c.d) <= c.index;
    assert (k, c.d.updatedAt) in IndexRows(c.d);
  }

  /** Hence, when no row of that instant was left behind, the count of deliveries in progress and a search
      for the delivery miss it. */
  lemma StartedIsNotListed(c: Cell, a: Attempt, clock: Time)
    requires CellInv(c, clock) && CommitStart(c, c.d, a).Some?
    ensures CommitStart(c, c.d, a).value.index !! IndexRows(CommitStart(c, c.d, a).value.d)
            <==> && a.startedAt != c.d.updatedAt
                 && forall k :: k in Categories(c.d) ==> (k, a.startedAt) !in c.index - IndexRows(c.d)
  {
    var after := CommitStart(c, c.d, a).value;
    assert Categories(after.d) == Categories(c.d);
    forall k | k in Categories(c.d)
      ensures (k, after.d.updatedAt) in IndexRows(after.d)
      ensures (k, after.d.updatedAt) in after.index
              <==> a.startedAt == c.d.updatedAt || (k, a.startedAt) in c.index - IndexRows(c.d)
    {
      StartedListed(c, a, clock, k);
    }
    assert All in Categories(c.d);
  }
}
