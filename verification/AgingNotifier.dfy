/** The notifier that reminds the parties of an aging order. Each row keeps one "last notified" time, in
    whole seconds, from which every pass works out which reminders are still to be sent. */
module AgingNotifier {
  import opened Wrappers

  type OrderID = string

  datatype Kind = Seller | BuyerTimeout | BuyerExpiry | Moderator

  datatype Row = Row(timestamp: int, disputedAt: int, last: int)   // seconds

  datatype Notice = Notice(order: OrderID, threshold: nat)

  const DAY := 86_400
  const NANO := 1_000_000_000   // the clock reads nanoseconds

  function Intervals(kind: Kind): seq<int> {
    match kind
    case Seller => [45 * DAY]
    case BuyerTimeout => [15 * DAY, 40 * DAY, 44 * DAY, 45 * DAY]
    case BuyerExpiry => [15 * DAY, 40 * DAY, 44 * DAY]
    case Moderator => [15 * DAY, 30 * DAY, 44 * DAY, 45 * DAY]
  }

  function Since(kind: Kind, row: Row): int {
    if kind.BuyerExpiry? then row.disputedAt else row.timestamp
  }

  /** The datastore's own filter: the last reminder has not gone out. */
  predicate Selected(kind: Kind, row: Row) {
    row.last - Since(kind, row) < Intervals(kind)[|Intervals(kind)| - 1]
  }

  predicate Crossed(kind: Kind, row: Row, at: int, k: nat)
    requires k < |Intervals(kind)|
  {
    at - Since(kind, row) * NANO > Intervals(kind)[k] * NANO
  }

  /** The last notified time is compared with the order's age even where the dispute's age is what counts. */
  predicate Unsent(kind: Kind, row: Row, k: nat)
    requires k < |Intervals(kind)|
  {
    row.last < row.timestamp + Intervals(kind)[k]
  }

  predicate Notifies(kind: Kind, row: Row, at: int, k: nat)
    requires k < |Intervals(kind)|
  {
    Selected(kind, row) && Unsent(kind, row, k) && Crossed(kind, row, at, k)
  }

  predicate Updates(kind: Kind, row: Row, at: int) {
    exists k: nat :: k < |Intervals(kind)| && Notifies(kind, row, at, k)
  }

  function AfterPass(kind: Kind, row: Row, at: int): Row {
    if Updates(kind, row, at) then row.(last := at / NANO) else row
  }

  /** The days after which each reminder of a row that has had none is due: of the order's age, or, for
      the buyer's expiry, of the dispute's. */
  lemma {:induction false} FirstDue(kind: Kind, row: Row, at: int, k: nat)
    requires k < |Intervals(kind)| && row.last < row.timestamp && row.timestamp <= row.disputedAt
    ensures var days := match kind
              case Seller => [45]
              case BuyerTimeout => [15, 40, 44, 45]
              case BuyerExpiry => [15, 40, 44]
              case Moderator => [15, 30, 44, 45];
            var from := if kind == BuyerExpiry then row.disputedAt else row.timestamp;
            |Intervals(kind)| == |days| &&
            (Notifies(kind, row, at, k) <==> at > (from + days[k] * 24 * 3600) * 1_000_000_000)
  {
  }

  // ---------- the pass ----------

  function Reminders(kind: Kind, rows: map<OrderID, Row>, who: set<OrderID>, at: int, o: OrderID, k: nat): nat
    requires who <= rows.Keys
  {
    if o in who && k < |Intervals(kind)| && Notifies(kind, rows[o], at, k) then 1 else 0
  }

  /** The notices are those due to the orders in who, each once. */
  ghost predicate RemindersFor(notices: seq<Notice>, kind: Kind, rows: map<OrderID, Row>, who: set<OrderID>, at: int)
    requires who <= rows.Keys
  {
    forall o, k: nat :: multiset(notices)[Notice(o, k)] == Reminders(kind, rows, who, at, o, k)
  }

  lemma {:induction false} JoinReminders(notices: seq<Notice>, more: seq<Notice>, kind: Kind, rows: map<OrderID, Row>,
                                         who: set<OrderID>, o: OrderID, at: int)
    requires who <= rows.Keys && o in rows && o !in who
    requires RemindersFor(notices, kind, rows, who, at) && RemindersFor(more, kind, map[o := rows[o]], {o}, at)
    ensures RemindersFor(notices + more, kind, rows, who + {o}, at)
  {
    forall p, k: nat ensures multiset(notices + more)[Notice(p, k)] == Reminders(kind, rows, who + {o}, at, p, k) {
      assert multiset(notices)[Notice(p, k)] == Reminders(kind, rows, who, at, p, k);
      assert multiset(more)[Notice(p, k)] == Reminders(kind, map[o := rows[o]], {o}, at, p, k);
    }
  }

  lemma {:induction false} RemindedIffUpdates(more: seq<Notice>, kind: Kind, rows: map<OrderID, Row>, o: OrderID, at: int)
    requires o in rows && RemindersFor(more, kind, map[o := rows[o]], {o}, at)
    ensures more != [] <==> Updates(kind, rows[o], at)
  {
    if more != [] {
      assert multiset(more)[Notice(more[0].order, more[0].threshold)] > 0;
    }
    if k: nat :| k < |Intervals(kind)| && Notifies(kind, rows[o], at, k) {
      assert multiset(more)[Notice(o, k)] == 1;
    }
  }

  class Store {
    var rows: map<OrderID, Row>

    constructor (rows: map<OrderID, Row>)
      ensures this.rows == rows
    {
      this.rows := rows;
    }

    /** One kind of reminder, for the orders whose state and contract admit it, in any order. */
    method Generate(kind: Kind, open: set<OrderID>, at: int) returns (notices: seq<Notice>)
      modifies this
      ensures rows.Keys == old(rows).Keys
      ensures forall o :: o in rows ==> rows[o] == if o in open then AfterPass(kind, old(rows)[o], at) else old(rows)[o]
      ensures RemindersFor(notices, kind, old(rows), open * old(rows).Keys, at)
    {
      var selected := set o | o in open && o in rows && Selected(kind, rows[o]);
      var updated;
      notices, updated := Collect(kind, selected, at);
      forall o, k: nat ensures multiset(notices)[Notice(o, k)] == Reminders(kind, rows, open * rows.Keys, at, o, k) {
        assert multiset(notices)[Notice(o, k)] == Reminders(kind, rows, selected, at, o, k);
      }
      MarkNotified(updated, at);
    }

    method Collect(kind: Kind, selected: set<OrderID>, at: int) returns (notices: seq<Notice>, updated: set<OrderID>)
      requires forall o :: o in selected ==> o in rows && Selected(kind, rows[o])
      ensures forall o :: o in updated <==> o in selected && Updates(kind, rows[o], at)
      ensures RemindersFor(notices, kind, rows, selected, at)
    {
      notices, updated := [], {};
      var todo := selected;
      ghost var seen := {};
      while todo != {}
        invariant seen + todo == selected && seen !! todo
        invariant forall o :: o in updated <==> o in seen && Updates(kind, rows[o], at)
        invariant RemindersFor(notices, kind, rows, seen, at)
        decreases |todo|
      {
        var o :| o in todo;
        var more := Remind(o, kind, rows[o], at);
        JoinReminders(notices, more, kind, rows, seen, o, at);
        RemindedIffUpdates(more, kind, rows, o, at);
        notices := notices + more;
        if more != [] {
          updated := updated + {o};
        }
        seen, todo := seen + {o}, todo - {o};
      }
      assert seen == selected;
    }

    method MarkNotified(updated: set<OrderID>, at: int)
      requires updated <= rows.Keys
      modifies this
      ensures rows.Keys == old(rows).Keys
      ensures forall o :: o in rows ==> rows[o] == if o in updated then old(rows)[o].(last := at / NANO) else old(rows)[o]
    {
      var left := updated;
      while left != {}
        invariant left <= updated && rows.Keys == old(rows).Keys
        invariant forall o :: o in rows ==> rows[o] == if o in updated - left then old(rows)[o].(last := at / NANO) else old(rows)[o]
        decreases |left|
      {
        var o :| o in left;
        rows := rows[o := rows[o].(last := at / NANO)];
        left := left - {o};
      }
    }

    method Remind(o: OrderID, kind: Kind, row: Row, at: int) returns (notices: seq<Notice>)
      requires Selected(kind, row)
      ensures RemindersFor(notices, kind, map[o := row], {o}, at)
    {
      notices := [];
      for j := 0 to |Intervals(kind)|
        invariant forall p, k: nat :: multiset(notices)[Notice(p, k)] ==
                    if p == o && k < j && Notifies(kind, row, at, k) then 1 else 0
      {
        if Unsent(kind, row, j) && Crossed(kind, row, at, j) {
          notices := notices + [Notice(o, j)];
        }
      }
    }
  }

  // ---------- runs ----------

  /** A pass, which sees the row only while its order is open, or a rewriting of the row. */
  datatype Event = Pass(at: int, open: bool) | Put(at: int, disputedAt: int)

  /** Rewriting a row drops the last notified time. A sale or purchase keeps the date of its order; a
      moderator's case is dated anew. */
  function After(kind: Kind, row: Row, e: Event): Row {
    match e
    case Pass(at, open) => if open then AfterPass(kind, row, at) else row
    case Put(at, disputedAt) =>
      if kind.Moderator? then Row(at / NANO, row.disputedAt, 0) else Row(row.timestamp, disputedAt, 0)
  }

  function Run(kind: Kind, row: Row, events: seq<Event>): Row
    decreases |events|
  {
    if events == [] then row else Run(kind, After(kind, row, events[0]), events[1..])
  }

  /** How often reminder k is sent in a run. */
  function Times(kind: Kind, row: Row, events: seq<Event>, k: nat): nat
    requires k < |Intervals(kind)|
    decreases |events|
  {
    if events == [] then 0
    else
      (if events[0].Pass? && events[0].open && Notifies(kind, row, events[0].at, k) then 1 else 0)
      + Times(kind, After(kind, row, events[0]), events[1..], k)
  }

  function Puts(events: seq<Event>): nat {
    if events == [] then 0 else (if events[0].Put? then 1 else 0) + Puts(events[1..])
  }

  /** A dispute is no older than its order. */
  predicate Ordered(kind: Kind, row: Row) {
    row.timestamp <= Since(kind, row)
  }

  /** The clock never goes back, and a row is ordered whenever its order is open. */
  ghost predicate Plausible(kind: Kind, row: Row, events: seq<Event>, now: int)
    decreases |events|
  {
    events == [] ||
    (now <= events[0].at && (events[0].Pass? && events[0].open ==> Ordered(kind, row)) &&
     Plausible(kind, After(kind, row, events[0]), events[1..], events[0].at))
  }

  /** The datastore's filter never hides a reminder that is still due. */
  lemma {:induction false} FilterHidesNothing(kind: Kind, row: Row, k: nat)
    requires k < |Intervals(kind)| && Ordered(kind, row) && Unsent(kind, row, k)
    ensures Selected(kind, row)
  {
    match kind case _ => assert Intervals(kind)[k] <= Intervals(kind)[|Intervals(kind)| - 1];
  }

  lemma {:induction false} SecondsReach(at: int, s: int)
    ensures at / NANO >= s <==> at >= s * NANO
  {
  }

  /** Once the last notified time is past a threshold, only rewriting the row lets it be sent again. */
  lemma {:induction false} SentStaysSent(kind: Kind, row: Row, events: seq<Event>, k: nat, now: int)
    requires k < |Intervals(kind)| && Plausible(kind, row, events, now)
    requires !Unsent(kind, row, k) && row.last <= now / NANO
    ensures Times(kind, row, events, k) <= Puts(events)
    decreases |events|
  {
    if events != [] {
      var row' := After(kind, row, events[0]);
      match events[0]
      case Pass(at, _) =>
        assert now / NANO <= at / NANO;
        SentStaysSent(kind, row', events[1..], k, at);
      case Put(at, _) => OncePerPut(kind, row', events[1..], k, at);
    }
  }

  /** Each reminder is sent at most once for every time the row was written. */
  lemma {:induction false} OncePerPut(kind: Kind, row: Row, events: seq<Event>, k: nat, now: int)
    requires k < |Intervals(kind)| && Plausible(kind, row, events, now)
    ensures Times(kind, row, events, k) <= 1 + Puts(events)
    decreases |events|
  {
    if events != [] {
      var row', at := After(kind, row, events[0]), events[0].at;
      if events[0].Pass? && events[0].open && Notifies(kind, row, at, k) {
        assert Updates(kind, row, at);
        SecondsReach(at, Since(kind, row) + Intervals(kind)[k]);
        SentStaysSent(kind, row', events[1..], k, at);
      } else {
        OncePerPut(kind, row', events[1..], k, at);
      }
    }
  }

  // ---------- exactly which reminders are sent ----------

  /** From the instant the last notified time can pass reminder k to the instant k may itself be sent. */
  predicate InWindow(kind: Kind, row: Row, at: int, k: nat)
    requires k < |Intervals(kind)|
  {
    (row.timestamp + Intervals(kind)[k]) * NANO <= at <= (Since(kind, row) + Intervals(kind)[k]) * NANO
  }

  predicate Crosses(kind: Kind, row: Row, e: Event, k: nat)
    requires k < |Intervals(kind)|
  {
    e.Pass? && e.open && Crossed(kind, row, e.at, k)
  }

  /** When reminder k is first crossed, by the row's dates alone. */
  function FirstCrossing(kind: Kind, row: Row, events: seq<Event>, k: nat): Option<int>
    requires k < |Intervals(kind)|
  {
    if events == [] then None
    else if Crosses(kind, row, events[0], k) then Some(events[0].at)
    else FirstCrossing(kind, row, events[1..], k)
  }

  /** Reminder k is unsent at the start and crossed, and no earlier reminder that is delivered is first
      crossed in k's window. This looks at the row as it is at the start and at the times of the passes. */
  ghost predicate Delivered(kind: Kind, row: Row, events: seq<Event>, k: nat)
    requires k < |Intervals(kind)|
    decreases k
  {
    && Unsent(kind, row, k) && FirstCrossing(kind, row, events, k).Some?
    && forall m: nat :: m < k && Delivered(kind, row, events, m) ==>
         !InWindow(kind, row, FirstCrossing(kind, row, events, m).value, k)
  }

  lemma {:induction false} IntervalsIncrease(kind: Kind, m: nat, k: nat)
    requires m < |Intervals(kind)| && k < |Intervals(kind)|
    ensures m < k <==> Intervals(kind)[m] < Intervals(kind)[k]
  {
  }

  /** What an open pass leaves of the last notified time. */
  lemma {:induction false} PassMoves(kind: Kind, row: Row, at: int, now: int)
    requires now <= at && row.last <= now / NANO && Ordered(kind, row)
    ensures row.last <= AfterPass(kind, row, at).last
    ensures forall m: nat :: m < |Intervals(kind)| && Crossed(kind, row, at, m) ==> !Unsent(kind, AfterPass(kind, row, at), m)
    ensures AfterPass(kind, row, at) != row ==>
              AfterPass(kind, row, at) == row.(last := at / NANO) &&
              exists m: nat :: m < |Intervals(kind)| && Crossed(kind, row, at, m) && Unsent(kind, row, m)
  {
    assert now / NANO <= at / NANO;
    forall m: nat | m < |Intervals(kind)| && Crossed(kind, row, at, m)
      ensures !Unsent(kind, AfterPass(kind, row, at), m)
    {
      SecondsReach(at, row.timestamp + Intervals(kind)[m]);
      if Unsent(kind, row, m) {
        FilterHidesNothing(kind, row, m);
        assert Notifies(kind, row, at, m);
      }
    }
  }

  /** A pass that crosses k settles it there and then; any other leaves the verdict on k to the rest. */
  ghost predicate Settles(kind: Kind, row: Row, events: seq<Event>, k: nat)
    requires k < |Intervals(kind)| && events != []
  {
    var row', rest := After(kind, row, events[0]), events[1..];
    if Crosses(kind, row, events[0], k)
    then (Delivered(kind, row, events, k) <==> Unsent(kind, row, k)) && !Delivered(kind, row', rest, k)
    else Delivered(kind, row, events, k) <==> Delivered(kind, row', rest, k)
  }

  lemma {:induction false} DeliveredLater(kind: Kind, row: Row, events: seq<Event>, k: nat, now: int)
    requires k < |Intervals(kind)| && events != [] && events[0].Pass? && !Crosses(kind, row, events[0], k)
    requires Plausible(kind, row, events, now) && row.last <= now / NANO
    requires forall m: nat :: m < k ==> Settles(kind, row, events, m)
    requires Delivered(kind, row, events, k)
    ensures Delivered(kind, After(kind, row, events[0]), events[1..], k)
  {
    var row', at := After(kind, row, events[0]), events[0].at;
    if row' != row {
      PassMoves(kind, row, at, now);
      var m: nat :| m < |Intervals(kind)| && Crossed(kind, row, at, m) && Unsent(kind, row, m);
      IntervalsIncrease(kind, m, k);
      assert Settles(kind, row, events, m) && Delivered(kind, row, events, m);
      SecondsReach(at, row.timestamp + Intervals(kind)[k]);
    }
    forall m: nat | m < k && Delivered(kind, row', events[1..], m)
      ensures !InWindow(kind, row', FirstCrossing(kind, row', events[1..], m).value, k)
    {
      assert Settles(kind, row, events, m);
      SameDates(kind, row, row', events[1..], m);
    }
    SameDates(kind, row, row', events[1..], k);
  }

  lemma {:induction false} DeliveredSooner(kind: Kind, row: Row, events: seq<Event>, k: nat, now: int)
    requires k < |Intervals(kind)| && events != [] && events[0].Pass? && !Crosses(kind, row, events[0], k)
    requires Plausible(kind, row, events, now) && row.last <= now / NANO
    requires forall m: nat :: m < k ==> Settles(kind, row, events, m)
    requires Delivered(kind, After(kind, row, events[0]), events[1..], k)
    ensures Delivered(kind, row, events, k)
  {
    var row', at := After(kind, row, events[0]), events[0].at;
    if events[0].open { PassMoves(kind, row, at, now); }
    forall m: nat | m < k && Delivered(kind, row, events, m)
      ensures !InWindow(kind, row, FirstCrossing(kind, row, events, m).value, k)
    {
      assert Settles(kind, row, events, m);
      SameDates(kind, row, row', events[1..], m);
      if Crosses(kind, row, events[0], m) {
        assert row' == row.(last := at / NANO);
        SecondsReach(at, row.timestamp + Intervals(kind)[k]);
      }
    }
    SameDates(kind, row, row', events[1..], k);
  }

  lemma {:induction false} SameDates(kind: Kind, row: Row, row': Row, events: seq<Event>, k: nat)
    requires k < |Intervals(kind)| && row'.(last := row.last) == row
    ensures FirstCrossing(kind, row', events, k) == FirstCrossing(kind, row, events, k)
  {
    if events != [] {
      SameDates(kind, row, row', events[1..], k);
    }
  }

  lemma {:induction false} PassSettles(kind: Kind, row: Row, events: seq<Event>, k: nat, now: int)
    requires k < |Intervals(kind)| && events != [] && events[0].Pass?
    requires Plausible(kind, row, events, now) && row.last <= now / NANO
    ensures Settles(kind, row, events, k)
    decreases k
  {
    forall m: nat | m < k ensures Settles(kind, row, events, m) { PassSettles(kind, row, events, m, now); }
    if Crosses(kind, row, events[0], k) {
      PassMoves(kind, row, events[0].at, now);
      forall m: nat | m < k && Delivered(kind, row, events, m)
        ensures !InWindow(kind, row, FirstCrossing(kind, row, events, m).value, k)
      {
        CrossesBoth(kind, row, events[0], m, k);
      }
    } else if Delivered(kind, row, events, k) {
      DeliveredLater(kind, row, events, k, now);
    } else if Delivered(kind, After(kind, row, events[0]), events[1..], k) {
      DeliveredSooner(kind, row, events, k, now);
    }
  }

  /** A pass that crosses k crosses every reminder before it, and is past k's window. */
  lemma {:induction false} CrossesBoth(kind: Kind, row: Row, e: Event, m: nat, k: nat)
    requires m < k < |Intervals(kind)| && Crosses(kind, row, e, k)
    ensures Crosses(kind, row, e, m) && !InWindow(kind, row, e.at, k)
  {
    IntervalsIncrease(kind, m, k);
  }

  /** Between two rewritings a reminder is sent once or not at all, and once exactly when it is
      delivered. */
  lemma {:induction false} SentIffDelivered(kind: Kind, row: Row, events: seq<Event>, k: nat, now: int)
    requires k < |Intervals(kind)| && Plausible(kind, row, events, now) && Puts(events) == 0
    requires row.last <= now / NANO
    ensures Times(kind, row, events, k) == if Delivered(kind, row, events, k) then 1 else 0
    decreases |events|
  {
    if events != [] {
      var row', at := After(kind, row, events[0]), events[0].at;
      PassSettles(kind, row, events, k, now);
      assert now / NANO <= at / NANO;
      if Crosses(kind, row, events[0], k) {
        if Unsent(kind, row, k) { FilterHidesNothing(kind, row, k); }
        PassMoves(kind, row, at, now);
        SentStaysSent(kind, row', events[1..], k, at);
      } else {
        SentIffDelivered(kind, row', events[1..], k, at);
      }
    }
  }

  /** Where no pass falls in k's window, the reminders sent are precisely those crossed. */
  lemma {:induction false} PunctualPassesSendAll(kind: Kind, row: Row, events: seq<Event>, k: nat, now: int)
    requires k < |Intervals(kind)| && Plausible(kind, row, events, now) && Puts(events) == 0
    requires row.last <= now / NANO && Unsent(kind, row, k)
    requires forall e :: e in events && e.Pass? && e.open ==> !InWindow(kind, row, e.at, k)
    ensures Times(kind, row, events, k) == 1 <==> exists e :: e in events && Crosses(kind, row, e, k)
    ensures Times(kind, row, events, k) <= 1
  {
    SentIffDelivered(kind, row, events, k, now);
    FirstCrossingIn(kind, row, events, k);
    forall m: nat | m < k && Delivered(kind, row, events, m)
      ensures !InWindow(kind, row, FirstCrossing(kind, row, events, m).value, k)
    {
      FirstCrossingIn(kind, row, events, m);
    }
  }

  lemma {:induction false} FirstCrossingIn(kind: Kind, row: Row, events: seq<Event>, k: nat)
    requires k < |Intervals(kind)|
    ensures FirstCrossing(kind, row, events, k).Some? <==> exists e :: e in events && Crosses(kind, row, e, k)
    ensures FirstCrossing(kind, row, events, k).Some? ==>
              Pass(FirstCrossing(kind, row, events, k).value, true) in events
  {
    if events != [] {
      FirstCrossingIn(kind, row, events[1..], k);
      assert forall e :: e in events <==> e == events[0] || e in events[1..];
    }
  }

  /** For all kinds but the buyer's expiry the window is a single instant. */
  lemma {:induction false} WindowIsAnInstant(kind: Kind, row: Row, at: int, k: nat)
    requires k < |Intervals(kind)|
    ensures !kind.BuyerExpiry? ==> (InWindow(kind, row, at, k) <==> at == (row.timestamp + Intervals(kind)[k]) * NANO)
  {
  }

  /** A dispute opened 29 days or more into its order gets one reminder: the first, if it is sent on its
      own, uses up the other two. */
  lemma {:induction false} LateDisputesGetOneReminder(row: Row, at: int, later: seq<Event>, k: nat)
    requires row.disputedAt - row.timestamp >= 29 * DAY
    requires Notifies(BuyerExpiry, row, at, 0) && !Crossed(BuyerExpiry, row, at, 1)
    requires Plausible(BuyerExpiry, AfterPass(BuyerExpiry, row, at), later, at) && Puts(later) == 0 && 1 <= k < 3
    ensures Times(BuyerExpiry, row, [Pass(at, true)] + later, k) == 0
  {
    var events := [Pass(at, true)] + later;
    var row' := After(BuyerExpiry, row, events[0]);
    assert events[1..] == later;
    assert Updates(BuyerExpiry, row, at);
    SecondsReach(at, row.disputedAt + 15 * DAY);
    SentStaysSent(BuyerExpiry, row', later, k, at);
  }

  /** An order of day 1, disputed on day 30, with a pass one second after each of its three expiry
      reminders is due: the second and the last are never sent. */
  lemma {:induction false} LateDisputeExample()
    ensures var row := Row(DAY, 30 * DAY, 0);
            var events := [Pass((45 * DAY + 1) * NANO, true), Pass((70 * DAY + 1) * NANO, true), Pass((74 * DAY + 1) * NANO, true)];
            Plausible(BuyerExpiry, row, events, 0) &&
            Times(BuyerExpiry, row, events, 0) == 1 && Times(BuyerExpiry, row, events, 1) == 0 && Times(BuyerExpiry, row, events, 2) == 0
  {
    var row := Row(DAY, 30 * DAY, 0);
    var first := (45 * DAY + 1) * NANO;
    var later := [Pass((70 * DAY + 1) * NANO, true), Pass((74 * DAY + 1) * NANO, true)];
    var events := [Pass(first, true)] + later;
    assert events == [Pass(first, true), later[0], later[1]];
    StaysPlausible(AfterPass(BuyerExpiry, row, first), later, first);
    StaysPlausible(row, events, 0);
    assert Notifies(BuyerExpiry, row, first, 0);
    LateDisputesGetOneReminder(row, first, later, 1);
    LateDisputesGetOneReminder(row, first, later, 2);
    SentIffDelivered(BuyerExpiry, row, events, 0, 0);
  }

  /** An ordered row stays ordered under passes in the order of their times. */
  lemma {:induction false} StaysPlausible(row: Row, passes: seq<Event>, now: int)
    requires Ordered(BuyerExpiry, row) && forall e :: e in passes ==> e.Pass?
    requires passes != [] ==> now <= passes[0].at
    requires forall i, j :: 0 <= i < j < |passes| ==> passes[i].at <= passes[j].at
    ensures Plausible(BuyerExpiry, row, passes, now) && Puts(passes) == 0
    decreases |passes|
  {
    if passes != [] {
      StaysPlausible(After(BuyerExpiry, row, passes[0]), passes[1..], passes[0].at);
    }
  }

  lemma {:induction false} SentNow(kind: Kind, row: Row, events: seq<Event>, k: nat)
    requires k < |Intervals(kind)| && events != [] && events[0].Pass? && events[0].open && Notifies(kind, row, events[0].at, k)
    ensures Times(kind, row, events, k) == 1 + Times(kind, row.(last := events[0].at / NANO), events[1..], k)
  {
    assert Updates(kind, row, events[0].at);
  }

  /** A dispute dated before its order is reminded again and again: the order of the two dates is what
      sending at most once rests on. */
  lemma {:induction false} EarlyDisputesRepeat(row: Row, k: nat)
    requires k < 2 && row.disputedAt < row.timestamp && row.last < row.disputedAt
    ensures var at := (row.disputedAt + Intervals(BuyerExpiry)[k]) * NANO + 1;
            Times(BuyerExpiry, row, [Pass(at, true), Pass(at, true)], k) == 2
  {
    var due := row.disputedAt + Intervals(BuyerExpiry)[k];
    var at := due * NANO + 1;
    var events := [Pass(at, true), Pass(at, true)];
    assert Notifies(BuyerExpiry, row, at, k);
    var row' := After(BuyerExpiry, row, events[0]);
    assert row'.last == due;
    assert Notifies(BuyerExpiry, row', at, k);
    assert events[1..] == [Pass(at, true)];
    SentNow(BuyerExpiry, row, events, k);
    SentNow(BuyerExpiry, row', events[1..], k);
  }

  // ---------- what rewriting a row does ----------

  lemma {:induction false} TimesSplit(kind: Kind, row: Row, a: seq<Event>, b: seq<Event>, k: nat)
    requires k < |Intervals(kind)|
    ensures Times(kind, row, a + b, k) == Times(kind, row, a, k) + Times(kind, Run(kind, row, a), b, k)
    decreases |a|
  {
    if a == [] {
      assert a + b == b;
    } else {
      assert (a + b)[1..] == a[1..] + b;
      TimesSplit(kind, After(kind, row, a[0]), a[1..], b, k);
    }
  }

  /** The time of the last event. */
  function Clock(events: seq<Event>, now: int): int {
    if events == [] then now else events[|events| - 1].at
  }

  lemma {:induction false} PlausibleSplit(kind: Kind, row: Row, a: seq<Event>, b: seq<Event>, now: int)
    requires Plausible(kind, row, a + b, now)
    ensures Plausible(kind, row, a, now) && Plausible(kind, Run(kind, row, a), b, Clock(a, now)) && now <= Clock(a, now)
    decreases |a|
  {
    if a == [] {
      assert a + b == b;
    } else {
      assert (a + b)[1..] == a[1..] + b;
      PlausibleSplit(kind, After(kind, row, a[0]), a[1..], b, a[0].at);
    }
  }

  lemma {:induction false} OnlyLastMoves(kind: Kind, row: Row, events: seq<Event>)
    requires Puts(events) == 0
    ensures Run(kind, row, events).(last := row.last) == row
    decreases |events|
  {
    if events != [] {
      OnlyLastMoves(kind, After(kind, row, events[0]), events[1..]);
    }
  }

  /** A run up to its first rewriting sends k once or not at all, and what follows starts from the
      rewritten row, whatever was sent before. */
  lemma {:induction false} StretchesAddUp(kind: Kind, row: Row, a: seq<Event>, put: Event, rest: seq<Event>, k: nat, now: int)
    requires k < |Intervals(kind)| && Plausible(kind, row, a + [put] + rest, now) && row.last <= now / NANO
    requires Puts(a) == 0 && put.Put?
    ensures Times(kind, row, a + [put] + rest, k) ==
            (if Delivered(kind, row, a, k) then 1 else 0) + Times(kind, After(kind, row, put), rest, k)
    ensures Plausible(kind, After(kind, row, put), rest, put.at) && now <= put.at
  {
    var tail := [put] + rest;
    assert a + [put] + rest == a + tail && tail[1..] == rest;
    TimesSplit(kind, row, a, tail, k);
    PlausibleSplit(kind, row, a, tail, now);
    SentIffDelivered(kind, row, a, k, now);
    OnlyLastMoves(kind, row, a);
    assert After(kind, Run(kind, row, a), put) == After(kind, row, put);
  }

  /** Exactly when rewriting a row makes a reminder go out twice: when it is delivered in the stretch
      before and, from the rewritten row, in the stretch after. */
  lemma {:induction false} RewritingRepeatsIff(kind: Kind, row: Row, a: seq<Event>, put: Event, b: seq<Event>, k: nat, now: int)
    requires k < |Intervals(kind)| && Plausible(kind, row, a + [put] + b, now) && row.last <= now / NANO && now >= 0
    requires Puts(a) == 0 && put.Put? && Puts(b) == 0
    ensures Times(kind, row, a + [put] + b, k) ==
            (if Delivered(kind, row, a, k) then 1 else 0) + if Delivered(kind, After(kind, row, put), b, k) then 1 else 0
  {
    StretchesAddUp(kind, row, a, put, b, k, now);
    assert put.at / NANO >= 0;
    SentIffDelivered(kind, After(kind, row, put), b, k, put.at);
  }

  /** A reminder is sent, the row is rewritten, and a pass comes: the reminder is sent again exactly when
      that pass crosses it by the rewritten row's dates. A sale or purchase keeps its date and so is
      reminded at once; a moderator's case is not until its threshold has passed anew. */
  lemma {:induction false} PutSendsAgain(kind: Kind, row: Row, at: int, put: Event, later: int, k: nat)
    requires k < |Intervals(kind)| && row.timestamp > 0 && Notifies(kind, row, at, k)
    requires put.Put? && at <= put.at <= later && Ordered(kind, row) && Ordered(kind, After(kind, row, put))
    ensures var from := match kind
              case BuyerExpiry => put.disputedAt
              case Moderator => put.at / 1_000_000_000
              case _ => row.timestamp;
            Times(kind, row, [Pass(at, true), put, Pass(later, true)], k) ==
            1 + if later > (from + Intervals(kind)[k]) * 1_000_000_000 then 1 else 0
  {
    var events, row2 := [Pass(at, true), put, Pass(later, true)], After(kind, row, put);
    var row1 := After(kind, row, events[0]);
    assert After(kind, row1, put) == row2;
    assert Intervals(kind)[k] > 0;
    SecondsReach(put.at, 1);
    SecondsReach(put.at, row.timestamp);
    assert Unsent(kind, row2, k);
    FilterHidesNothing(kind, row2, k);
    SentNow(kind, row, events, k);
    assert events[1..] == [put, Pass(later, true)];
    assert events[1..][1..] == [Pass(later, true)];
    assert Times(kind, row2, [Pass(later, true)], k) == if Crossed(kind, row2, later, k) then 1 else 0;
  }
}
