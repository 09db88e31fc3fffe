/**
  The paper broker of backend/src/broker/paper_broker.py.

  Every order has a coroutine that sleeps, fills some or all of the order, and sleeps again while anything remains.
  Between awaits the event loop runs nothing else, so a run is an interleaving of atomic steps: submissions,
  cancellations, subscriptions, and resumptions of one order's coroutine. `tasks` records where each coroutine is
  suspended. Broker ids and fill ids are the counters that the Python code formats into strings. There is one fill
  callback, which a later subscription replaces; a callback is known by a number.
 */
module PaperBrokers {
  import opened Common

  datatype Status = Submitted | PartialFill | Filled | Cancelled

  datatype Order = Order(symbol: string, side: Side, quantity: int)

  datatype OrderFill = OrderFill(fillId: nat, orderId: nat, symbol: string, side: Side, quantity: int)

  datatype CancelError = OrderNotFound | OrderAlreadyFilled

  /** Asleep before the first fill, asleep between fills with something remaining, returned, or ended with something
      remaining by an exception of the callback. */
  datatype Task = Sleeping | Between(remaining: int) | Returned | Died

  /** What one iteration does not decide itself: the chance of a partial fill, the draw of its portion, and whether
      the callback, if there is one, raises on the fill. */
  datatype Draw = Draw(chance: real, portion: nat, raises: bool)

  /** A fill handed to the callback of a subscriber. */
  datatype Delivery = Delivery(subscriber: nat, fill: OrderFill)

  datatype Broker = Broker(orderCounter: nat, fillCounter: nat, orders: map<nat, Order>, statuses: map<nat, Status>,
                           filledQty: map<nat, int>, cancelled: set<nat>, tasks: map<nat, Task>,
                           callback: Option<nat>, created: seq<OrderFill>, delivered: seq<Delivery>)

  const Idle := Broker(0, 0, map[], map[], map[], {}, map[], None, [], [])

  function Submit(b: Broker, order: Order): Broker {
    var id := b.orderCounter + 1;
    b.(orderCounter := id,
       orders := b.orders[id := order], statuses := b.statuses[id := Submitted],
       filledQty := b.filledQty[id := 0], tasks := b.tasks[id := Sleeping])
  }

  function Cancel(b: Broker, id: nat): (Broker, Option<CancelError>) {
    if id !in b.orders then (b, Some(OrderNotFound))
    else if id in b.statuses && b.statuses[id] == Filled then (b, Some(OrderAlreadyFilled))
    else (b.(cancelled := b.cancelled + {id}, statuses := b.statuses[id := Cancelled]), None)
  }

  /** `random.randint(1, remaining - 1)` when the draw is partial, otherwise everything. */
  function FillQuantity(probability: real, draw: Draw, remaining: int): (q: int)
    requires remaining > 0
    ensures 1 <= q <= remaining
  {
    if probability > 0.0 && draw.chance < probability && remaining > 1 then 1 + draw.portion % (remaining - 1)
    else remaining
  }

  function FillOnce(b: Broker, probability: real, id: nat, draw: Draw, remaining: int): Broker
    requires id in b.orders && id in b.filledQty && remaining > 0
  {
    var order := b.orders[id];
    var q := FillQuantity(probability, draw, remaining);
    var fill := OrderFill(b.fillCounter + 1, id, order.symbol, order.side, q);
    var left := remaining - q;
    b.(fillCounter := b.fillCounter + 1,
       filledQty := b.filledQty[id := b.filledQty[id] + q],
       statuses := b.statuses[id := if left > 0 then PartialFill else Filled],
       created := b.created + [fill],
       delivered := if b.callback.Some? then b.delivered + [Delivery(b.callback.value, fill)] else b.delivered,
       tasks := b.tasks[id := TaskAfter(left, b.callback.Some? && draw.raises)])
  }

  /** Where a coroutine is after a fill that left so much. */
  function TaskAfter(left: int, raised: bool): Task {
    if left <= 0 then Returned else if raised then Died else Between(left)
  }

  predicate Ended(t: Task) {
    t.Returned? || t.Died?
  }

  /** One resumption of an order's coroutine, up to its next await or its end. */
  function Resume(b: Broker, probability: real, id: nat, draw: Draw): Broker {
    if id !in b.tasks || Ended(b.tasks[id]) || id !in b.orders || id !in b.filledQty then b
    else if id in b.cancelled then b.(tasks := b.tasks[id := Returned])
    else
      var remaining := if b.tasks[id].Sleeping? then b.orders[id].quantity - b.filledQty[id] else b.tasks[id].remaining;
      if remaining <= 0 then b.(tasks := b.tasks[id := Returned])
      else FillOnce(b, probability, id, draw, remaining)
  }

  class PaperBroker {
    const partialFillProbability: real
    var orderCounter: nat
    var fillCounter: nat
    var orders: map<nat, Order>
    var orderStatuses: map<nat, Status>
    var filledQty: map<nat, int>
    var cancelled: set<nat>
    var tasks: map<nat, Task>
    var callback: Option<nat>
    var created: seq<OrderFill>
    var delivered: seq<Delivery>

    function State(): Broker
      reads this
    {
      Broker(orderCounter, fillCounter, orders, orderStatuses, filledQty, cancelled, tasks, callback, created,
             delivered)
    }

    constructor (partialFillProbability: real)
      ensures this.partialFillProbability == partialFillProbability
      ensures State() == Idle
    {
      this.partialFillProbability := partialFillProbability;
      orderCounter, fillCounter, orders, orderStatuses, filledQty := 0, 0, map[], map[], map[];
      cancelled, tasks, callback, created, delivered := {}, map[], None, [], [];
    }

    method SubmitOrder(order: Order) returns (brokerId: nat)
      modifies this
      ensures State() == Submit(old(State()), order)
      ensures brokerId == State().orderCounter
    {
      orderCounter := orderCounter + 1;
      brokerId := orderCounter;
      orders := orders[brokerId := order];
      orderStatuses := orderStatuses[brokerId := Submitted];
      filledQty := filledQty[brokerId := 0];
      tasks := tasks[brokerId := Sleeping];
    }

    method CancelOrder(brokerId: nat) returns (r: Option<CancelError>)
      modifies this
      ensures (State(), r) == Cancel(old(State()), brokerId)
    {
      if brokerId !in orders {
        return Some(OrderNotFound);
      }
      if brokerId in orderStatuses && orderStatuses[brokerId] == Filled {
        return Some(OrderAlreadyFilled);
      }
      cancelled := cancelled + {brokerId};
      orderStatuses := orderStatuses[brokerId := Cancelled];
      r := None;
    }

    method SubscribeFills(subscriber: nat)
      modifies this
      ensures State() == old(State()).(callback := Some(subscriber))
    {
      callback := Some(subscriber);
    }

    method SimulateFill(brokerId: nat, draw: Draw)
      modifies this
      ensures State() == Resume(old(State()), partialFillProbability, brokerId, draw)
    {
      hide FillQuantity, FillOnce;
      if brokerId !in tasks || Ended(tasks[brokerId]) || brokerId !in orders || brokerId !in filledQty {
        return;
      }
      if brokerId in cancelled {
        tasks := tasks[brokerId := Returned];
        return;
      }
      var order := orders[brokerId];
      var remainingQty :=
        if tasks[brokerId].Sleeping? then order.quantity - filledQty[brokerId] else tasks[brokerId].remaining;
      if remainingQty <= 0 {
        tasks := tasks[brokerId := Returned];
        return;
      }
      EmitFill(brokerId, draw, remainingQty);
    }

    /** The body of the loop: one fill, and the wait or the end after it. */
    method EmitFill(brokerId: nat, draw: Draw, remaining: int)
      requires brokerId in orders && brokerId in filledQty && remaining > 0
      modifies this
      ensures State() == FillOnce(old(State()), partialFillProbability, brokerId, draw, remaining)
    {
      hide FillQuantity, TaskAfter;
      var order := orders[brokerId];
      var fillQty := FillQuantity(partialFillProbability, draw, remaining);
      fillCounter := fillCounter + 1;
      var fill := OrderFill(fillCounter, brokerId, order.symbol, order.side, fillQty);
      created := created + [fill];
      filledQty := filledQty[brokerId := filledQty[brokerId] + fillQty];
      var left := remaining - fillQty;
      orderStatuses := orderStatuses[brokerId := if left > 0 then PartialFill else Filled];
      var raised := false;
      if callback.Some? {
        delivered := delivered + [Delivery(callback.value, fill)];
        raised := draw.raises;
      }
      tasks := tasks[brokerId := TaskAfter(left, raised)];
    }
  }

  // --------------------------------------------------------------------------------------------
  // Interleavings
  // --------------------------------------------------------------------------------------------

  datatype Event =
    | SubmitEvent(order: Order)
    | CancelEvent(id: nat)
    | SubscribeEvent(callback: nat)
    | ResumeEvent(id: nat, draw: Draw)

  function Step(b: Broker, probability: real, e: Event): Broker {
    match e
    case SubmitEvent(order) => Submit(b, order)
    case CancelEvent(id) => Cancel(b, id).0
    case SubscribeEvent(callback) => b.(callback := Some(callback))
    case ResumeEvent(id, draw) => Resume(b, probability, id, draw)
  }

  function Run(b: Broker, probability: real, events: seq<Event>): Broker {
    if |events| == 0 then b else Step(Run(b, probability, events[..|events| - 1]), probability, events[|events| - 1])
  }

  /** The quantity of an order's fills. */
  function FilledBy(fills: seq<OrderFill>, id: nat): int {
    if |fills| == 0 then 0
    else
      var last := fills[|fills| - 1];
      FilledBy(fills[..|fills| - 1], id) + if last.orderId == id then last.quantity else 0
  }

  function CountOf(fills: seq<OrderFill>, id: nat): nat {
    if |fills| == 0 then 0
    else CountOf(fills[..|fills| - 1], id) + if fills[|fills| - 1].orderId == id then 1 else 0
  }

  /** Everything the broker holds about one order. */
  datatype View = View(quantity: int, status: Status, filled: int, task: Task, cancelled: bool, sum: int, count: nat)

  predicate KeysAgree(b: Broker) {
    && b.orders.Keys == b.statuses.Keys == b.filledQty.Keys == b.tasks.Keys
    && (forall id :: id in b.orders ==> id <= b.orderCounter)
    && b.cancelled <= b.orders.Keys
  }

  function ViewOf(b: Broker, id: nat): View
    requires KeysAgree(b) && id in b.orders
  {
    View(b.orders[id].quantity, b.statuses[id], b.filledQty[id], b.tasks[id], id in b.cancelled,
         FilledBy(b.created, id), CountOf(b.created, id))
  }

  /** One order's books: what its fills, quantity, status, cancellation and coroutine say of one another. */
  predicate Sound(v: View) {
    && v.filled == v.sum
    && v.count <= v.filled
    && (v.quantity > 0 ==> v.filled <= v.quantity) && (v.quantity <= 0 ==> v.filled == 0)
    && (v.cancelled <==> v.status == Cancelled)
    && (v.status == Filled <==> v.quantity > 0 && v.filled == v.quantity)
    && (v.status == PartialFill ==> 0 < v.filled < v.quantity)
    && (v.status == Submitted ==> v.filled == 0)
    && match v.task {
         case Sleeping => v.filled == 0
         case Between(remaining) => remaining == v.quantity - v.filled > 0
         case Returned => v.status == Filled || v.status == Cancelled || v.quantity <= 0
         case Died => (v.status == PartialFill || v.status == Cancelled) && 0 < v.filled < v.quantity
       }
  }

  predicate OfItsOrder(b: Broker, fill: OrderFill) {
    && fill.orderId in b.orders
    && fill.symbol == b.orders[fill.orderId].symbol && fill.side == b.orders[fill.orderId].side
  }

  ghost predicate LogOk(b: Broker) {
    && b.fillCounter == |b.created|
    && (forall i :: 0 <= i < |b.created| ==> b.created[i].fillId == i + 1 && b.created[i].quantity > 0)
    && (forall i :: 0 <= i < |b.created| ==> OfItsOrder(b, b.created[i]))
  }

  ghost predicate Consistent(b: Broker) {
    KeysAgree(b) && LogOk(b) && forall id :: id in b.orders ==> Sound(ViewOf(b, id))
  }

  lemma {:induction false} UnknownOrderHasNoFills(fills: seq<OrderFill>, id: nat)
    requires forall i :: 0 <= i < |fills| ==> fills[i].orderId != id
    ensures FilledBy(fills, id) == 0 && CountOf(fills, id) == 0
  {
    if |fills| > 0 {
      UnknownOrderHasNoFills(fills[..|fills| - 1], id);
    }
  }

  lemma AppendFill(fills: seq<OrderFill>, fill: OrderFill, id: nat)
    ensures FilledBy(fills + [fill], id) == FilledBy(fills, id) + if fill.orderId == id then fill.quantity else 0
    ensures CountOf(fills + [fill], id) == CountOf(fills, id) + if fill.orderId == id then 1 else 0
  {
    assert (fills + [fill])[..|fills|] == fills;
  }

  /** A submission adds an untouched order and changes no other. */
  lemma SubmitViews(b: Broker, order: Order)
    requires KeysAgree(b) && LogOk(b)
    ensures var b' := Submit(b, order);
            && KeysAgree(b') && LogOk(b') && b'.orders.Keys == b.orders.Keys + {b'.orderCounter}
            && b'.orderCounter !in b.orders
            && ViewOf(b', b'.orderCounter) == View(order.quantity, Submitted, 0, Sleeping, false, 0, 0)
            && forall id :: id in b.orders ==> ViewOf(b', id) == ViewOf(b, id)
  {
    hide FilledBy, CountOf;
    UnknownOrderHasNoFills(b.created, b.orderCounter + 1);
  }

  function CancelView(v: View): View {
    if v.status == Filled then v else v.(status := Cancelled, cancelled := true)
  }

  lemma CancelViews(b: Broker, id: nat)
    requires KeysAgree(b) && LogOk(b)
    ensures var b' := Cancel(b, id).0;
            && KeysAgree(b') && LogOk(b') && b'.orders == b.orders
            && forall k :: k in b.orders ==> ViewOf(b', k) == if k == id then CancelView(ViewOf(b, k)) else ViewOf(b, k)
  {
    hide FilledBy, CountOf;
  }

  /** `heard` says whether a callback is registered. */
  function ResumeView(v: View, probability: real, draw: Draw, heard: bool): View {
    if Ended(v.task) then v
    else if v.cancelled then v.(task := Returned)
    else
      var remaining := if v.task.Sleeping? then v.quantity - v.filled else v.task.remaining;
      if remaining <= 0 then v.(task := Returned)
      else
        var q := FillQuantity(probability, draw, remaining);
        v.(filled := v.filled + q, sum := v.sum + q, count := v.count + 1,
           status := if remaining > q then PartialFill else Filled,
           task := TaskAfter(remaining - q, heard && draw.raises))
  }

  lemma FillOnceLog(b: Broker, probability: real, id: nat, draw: Draw, remaining: int)
    requires KeysAgree(b) && LogOk(b) && id in b.orders && remaining > 0
    ensures var b' := FillOnce(b, probability, id, draw, remaining); KeysAgree(b') && LogOk(b') && b'.orders == b.orders
  {
    hide FillQuantity;
    var b' := FillOnce(b, probability, id, draw, remaining);
    assert b'.created == b.created + [b'.created[|b.created|]];
  }

  lemma FillOnceView(b: Broker, probability: real, id: nat, draw: Draw, remaining: int, k: nat)
    requires KeysAgree(b) && id in b.orders && k in b.orders && remaining > 0
    ensures var b' := FillOnce(b, probability, id, draw, remaining);
            var v, q := ViewOf(b, k), FillQuantity(probability, draw, remaining);
            && KeysAgree(b')
            && ViewOf(b', k) ==
               if k == id
               then v.(filled := v.filled + q, sum := v.sum + q, count := v.count + 1,
                       status := if remaining > q then PartialFill else Filled,
                       task := TaskAfter(remaining - q, b.callback.Some? && draw.raises))
               else v
  {
    hide FillQuantity, FilledBy, CountOf;
    var b' := FillOnce(b, probability, id, draw, remaining);
    AppendFill(b.created, b'.created[|b.created|], k);
  }

  lemma ReturnViews(b: Broker, id: nat)
    requires KeysAgree(b) && LogOk(b) && id in b.orders
    ensures var b' := b.(tasks := b.tasks[id := Returned]);
            && KeysAgree(b') && LogOk(b')
            && forall k :: k in b.orders ==>
                 ViewOf(b', k) == if k == id then ViewOf(b, k).(task := Returned) else ViewOf(b, k)
  {
    hide FilledBy, CountOf;
  }

  /** A resumption changes only its own order. */
  lemma ResumeViews(b: Broker, probability: real, id: nat, draw: Draw)
    requires KeysAgree(b) && LogOk(b)
    ensures var b' := Resume(b, probability, id, draw); KeysAgree(b') && LogOk(b') && b'.orders == b.orders
    ensures forall k :: k in b.orders ==>
              ViewOf(Resume(b, probability, id, draw), k) ==
              if k == id then ResumeView(ViewOf(b, k), probability, draw, b.callback.Some?) else ViewOf(b, k)
  {
    hide FilledBy, CountOf, FillQuantity, FillOnce, LogOk;
    if id in b.orders && !Ended(b.tasks[id]) {
      var remaining := if b.tasks[id].Sleeping? then b.orders[id].quantity - b.filledQty[id] else b.tasks[id].remaining;
      if id in b.cancelled || remaining <= 0 {
        ReturnViews(b, id);
      } else {
        FillOnceLog(b, probability, id, draw, remaining);
        forall k | k in b.orders
          ensures ViewOf(Resume(b, probability, id, draw), k) ==
                  if k == id then ResumeView(ViewOf(b, k), probability, draw, b.callback.Some?) else ViewOf(b, k)
        {
          FillOnceView(b, probability, id, draw, remaining, k);
        }
      }
    }
  }

  /** How one event changes one existing order's view. */
  function StepView(v: View, id: nat, probability: real, e: Event, heard: bool): View {
    match e
    case SubmitEvent(_) => v
    case CancelEvent(k) => if k == id then CancelView(v) else v
    case SubscribeEvent(_) => v
    case ResumeEvent(k, draw) => if k == id then ResumeView(v, probability, draw, heard) else v
  }

  lemma StepViews(b: Broker, probability: real, e: Event)
    requires KeysAgree(b) && LogOk(b)
    ensures var b' := Step(b, probability, e);
            && KeysAgree(b') && LogOk(b') && b.orders.Keys <= b'.orders.Keys
            && (forall id :: id in b.orders ==>
                  ViewOf(b', id) == StepView(ViewOf(b, id), id, probability, e, b.callback.Some?))
            && (forall id :: id in b'.orders && id !in b.orders ==> Sound(ViewOf(b', id)))
  {
    hide Submit, Cancel, Resume, FilledBy, CountOf;
    match e
    case SubmitEvent(order) => SubmitViews(b, order);
    case CancelEvent(id) => CancelViews(b, id);
    case SubscribeEvent(_) =>
    case ResumeEvent(id, draw) => ResumeViews(b, probability, id, draw);
  }

  lemma StepKeepsSound(v: View, id: nat, probability: real, e: Event, heard: bool)
    requires Sound(v)
    ensures Sound(StepView(v, id, probability, e, heard))
  {
  }

  lemma StepKeepsConsistent(b: Broker, probability: real, e: Event)
    requires Consistent(b)
    ensures Consistent(Step(b, probability, e))
  {
    hide Step, StepView, Sound;
    var b' := Step(b, probability, e);
    StepViews(b, probability, e);
    forall id | id in b'.orders
      ensures Sound(ViewOf(b', id))
    {
      if id in b.orders {
        StepKeepsSound(ViewOf(b, id), id, probability, e, b.callback.Some?);
      }
    }
  }

  /** Under every interleaving: each order's filled quantity is the sum of its fills and never exceeds its size,
      Filled holds exactly at equality, Cancelled exactly for cancelled orders, and fill ids number the fills. */
  lemma {:induction false} RunConsistent(probability: real, events: seq<Event>)
    ensures Consistent(Run(Idle, probability, events))
  {
    if |events| > 0 {
      var n := |events| - 1;
      RunConsistent(probability, events[..n]);
      StepKeepsConsistent(Run(Idle, probability, events[..n]), probability, events[n]);
    }
  }

  /** The orders submitted in a run, in order. */
  function Submissions(events: seq<Event>): seq<Order> {
    if |events| == 0 then []
    else
      var last := events[|events| - 1];
      Submissions(events[..|events| - 1]) + if last.SubmitEvent? then [last.order] else []
  }

  lemma OrdersKept(b: Broker, probability: real, e: Event)
    requires !e.SubmitEvent?
    ensures var b' := Step(b, probability, e); b'.orders == b.orders && b'.orderCounter == b.orderCounter
  {
    hide FillQuantity;
  }

  /** The broker knows exactly the orders submitted, as they were submitted, numbered from one in order. */
  lemma {:induction false} OrdersAreSubmissions(probability: real, events: seq<Event>)
    ensures var b, submitted := Run(Idle, probability, events), Submissions(events);
            && b.orderCounter == |submitted|
            && (forall id :: id in b.orders <==> 1 <= id <= |submitted|)
            && forall id :: 1 <= id <= |submitted| ==> b.orders[id] == submitted[id - 1]
  {
    if |events| > 0 {
      var n := |events| - 1;
      OrdersAreSubmissions(probability, events[..n]);
      if !events[n].SubmitEvent? {
        hide Step;
        OrdersKept(Run(Idle, probability, events[..n]), probability, events[n]);
      }
    }
  }

  /** A cancellation is refused exactly when the order is unknown or all of it has been filled; otherwise it takes
      effect, and it is the only thing that changes. */
  lemma CancelSucceedsIff(b: Broker, id: nat)
    requires Consistent(b)
    ensures var (b', error) := Cancel(b, id);
            && (error == Some(OrderNotFound) <==> id !in b.orders)
            && (error == Some(OrderAlreadyFilled) <==>
                  id in b.orders && b.orders[id].quantity > 0 && FilledBy(b.created, id) == b.orders[id].quantity)
            && (error.None? ==> b' == b.(cancelled := b.cancelled + {id}, statuses := b.statuses[id := Cancelled]))
            && (error.Some? ==> b' == b)
  {
    if id in b.orders {
      assert Sound(ViewOf(b, id));
    }
  }

  /** No two fills ever share an id. */
  lemma FillIdsUnique(probability: real, events: seq<Event>, i: nat, j: nat)
    requires i < j < |Run(Idle, probability, events).created|
    ensures var fills := Run(Idle, probability, events).created; fills[i].fillId != fills[j].fillId
  {
    RunConsistent(probability, events);
  }

  lemma CancelledViewStays(v: View, id: nat, probability: real, e: Event, heard: bool)
    requires Sound(v) && v.cancelled
    ensures var v' := StepView(v, id, probability, e, heard);
            v'.cancelled && v'.status == Cancelled && v'.filled == v.filled && v'.count == v.count
  {
  }

  lemma SoundStatus(v: View)
    requires Sound(v)
    ensures v.cancelled <==> v.status == Cancelled
  {
  }

  /** Once cancelled, an order stays cancelled with the quantity it had, and no further fill of it is ever created. */
  lemma {:induction false} CancelIsFinal(b: Broker, probability: real, id: nat, events: seq<Event>)
    requires Consistent(b) && id in b.cancelled
    ensures var b' := Run(b, probability, events);
            && Consistent(b') && id in b'.orders
            && ViewOf(b', id).cancelled && ViewOf(b', id).status == Cancelled
            && ViewOf(b', id).filled == ViewOf(b, id).filled
            && ViewOf(b', id).count == ViewOf(b, id).count
  {
    hide Step, StepView, FilledBy, CountOf, LogOk, Sound;
    if |events| == 0 {
      SoundStatus(ViewOf(b, id));
    } else {
      var n := |events| - 1;
      CancelIsFinal(b, probability, id, events[..n]);
      var before := Run(b, probability, events[..n]);
      assert Sound(ViewOf(before, id));
      StepKeepsConsistent(before, probability, events[n]);
      StepViews(before, probability, events[n]);
      CancelledViewStays(ViewOf(before, id), id, probability, events[n], before.callback.Some?);
    }
  }

  /** How often an order's coroutine is resumed in a run. */
  function Resumptions(events: seq<Event>, id: nat): nat {
    if |events| == 0 then 0
    else
      var last := events[|events| - 1];
      Resumptions(events[..|events| - 1], id) + if last.ResumeEvent? && last.id == id then 1 else 0
  }

  predicate NeverCancels(events: seq<Event>, id: nat) {
    forall i :: 0 <= i < |events| ==> events[i] != CancelEvent(id)
  }

  /** What `r` resumptions of an uncancelled order have come to: a unit each, unless it is over. */
  predicate Progress(v: View, v': View, r: nat) {
    && v'.quantity == v.quantity && !v'.cancelled
    && (v'.filled >= v.filled + r || v'.status == Filled || v'.task == Died)
  }

  lemma {:induction false} ResumptionsProgress(b: Broker, probability: real, id: nat, events: seq<Event>)
    requires Consistent(b) && id in b.orders && id !in b.cancelled && b.orders[id].quantity > 0
    requires NeverCancels(events, id)
    ensures var b' := Run(b, probability, events);
            && Consistent(b') && id in b'.orders
            && Progress(ViewOf(b, id), ViewOf(b', id), Resumptions(events, id))
  {
    hide Step, FilledBy, CountOf, LogOk, StepView, Sound;
    if |events| > 0 {
      var n := |events| - 1;
      ResumptionsProgress(b, probability, id, events[..n]);
      var before := Run(b, probability, events[..n]);
      assert Sound(ViewOf(before, id));
      StepKeepsConsistent(before, probability, events[n]);
      StepViews(before, probability, events[n]);
      ResumptionFills(ViewOf(before, id), id, probability, events[n], before.callback.Some?);
    }
  }

  lemma ProgressEnds(v: View, v': View, r: nat)
    requires Sound(v) && Sound(v') && v.quantity > 0 && Progress(v, v', r)
    ensures v'.count <= v.quantity
    ensures v'.status == Filled <==> v'.filled == v.quantity
    ensures v'.status == Filled ==> v'.task != Died
    ensures r >= v.quantity ==> (v'.status == Filled <==> v'.task != Died)
  {
  }

  lemma ResumptionFills(v: View, id: nat, probability: real, e: Event, heard: bool)
    requires Sound(v) && !v.cancelled && v.quantity > 0 && e != CancelEvent(id)
    ensures var v' := StepView(v, id, probability, e, heard);
            && v'.quantity == v.quantity && !v'.cancelled
            && v'.filled >= v.filled
            && (e.ResumeEvent? && e.id == id ==> v'.filled > v.filled || v'.status == Filled || v'.task == Died)
            && (v.status == Filled ==> v'.status == Filled)
            && (v.task == Died ==> v'.task == Died)
  {
  }

  // --------------------------------------------------------------------------------------------
  // Partial fills
  // --------------------------------------------------------------------------------------------

  /** A fill leaves something remaining exactly when the draw falls below the configured probability and there is more
      than one unit; its size is then any from one to all but one, and else everything. */
  lemma PartialFillIff(probability: real, draw: Draw, remaining: int, size: nat)
    requires 1 <= size < remaining || remaining == 1
    ensures var q := FillQuantity(probability, draw, remaining);
            && (q < remaining <==> probability > 0.0 && draw.chance < probability && remaining > 1)
            && (q < remaining ==> FillQuantity(probability, draw.(portion := size - 1), remaining) == size)
  {
    if remaining > 1 {
      SmallRemainder(size - 1, remaining - 1);
      RemainderBelow(draw.portion, remaining - 1);
    }
  }

  lemma SmallRemainder(a: nat, n: nat)
    requires a < n
    ensures a % n == a
  {
  }

  lemma RemainderBelow(a: nat, n: nat)
    requires n > 0
    ensures 0 <= a % n < n
  {
  }

  /** No resumption of the order in the run draws a partial fill. */
  predicate NeverPartial(probability: real, events: seq<Event>, id: nat) {
    forall i :: 0 <= i < |events| && events[i].ResumeEvent? && events[i].id == id ==>
      probability <= 0.0 || events[i].draw.chance >= probability
  }

  predicate WholeOrNothing(v: View) {
    (v.count == 0 && v.filled == 0) || (v.count == 1 && v.filled == v.quantity)
  }

  lemma StepStaysWhole(v: View, id: nat, probability: real, e: Event, heard: bool)
    requires Sound(v) && WholeOrNothing(v)
    requires e.ResumeEvent? && e.id == id ==> probability <= 0.0 || e.draw.chance >= probability
    ensures WholeOrNothing(StepView(v, id, probability, e, heard))
  {
  }

  /** An order on which no partial fill is drawn - none ever is with a probability of zero - is filled at once or not at
      all, in every interleaving. */
  lemma {:induction false} WholeFills(b: Broker, probability: real, id: nat, events: seq<Event>)
    requires Consistent(b) && id in b.orders && WholeOrNothing(ViewOf(b, id))
    requires NeverPartial(probability, events, id)
    ensures var b' := Run(b, probability, events);
            Consistent(b') && id in b'.orders && WholeOrNothing(ViewOf(b', id))
  {
    hide Step, StepView, FilledBy, CountOf, LogOk, Sound, WholeOrNothing;
    if |events| > 0 {
      var n := |events| - 1;
      WholeFills(b, probability, id, events[..n]);
      var before := Run(b, probability, events[..n]);
      assert Sound(ViewOf(before, id));
      StepKeepsConsistent(before, probability, events[n]);
      StepViews(before, probability, events[n]);
      StepStaysWhole(ViewOf(before, id), id, probability, events[n], before.callback.Some?);
    }
  }

  // --------------------------------------------------------------------------------------------
  // Callbacks that raise
  // --------------------------------------------------------------------------------------------

  /** The event resumes a live coroutine of the order for a fill that leaves something remaining, and the registered
      callback raises on it. */
  predicate RaisesOnPartial(b: Broker, probability: real, id: nat, e: Event) {
    && e.ResumeEvent? && e.id == id && e.draw.raises && b.callback.Some?
    && id in b.orders && id in b.tasks && id in b.filledQty && id !in b.cancelled && !Ended(b.tasks[id])
    && var remaining := b.orders[id].quantity - b.filledQty[id];
       remaining > 0 && FillQuantity(probability, e.draw, remaining) < remaining
  }

  predicate HasDied(b: Broker, id: nat) {
    id in b.tasks && b.tasks[id] == Died
  }

  lemma ResumeDiedIff(b: Broker, probability: real, id: nat, draw: Draw)
    requires KeysAgree(b) && id in b.orders && Sound(ViewOf(b, id))
    ensures var b' := Resume(b, probability, id, draw);
            id in b'.tasks
            && (b'.tasks[id] == Died <==>
                  b.tasks[id] == Died || RaisesOnPartial(b, probability, id, ResumeEvent(id, draw)))
  {
    hide FillQuantity, FilledBy, CountOf;
  }

  lemma OtherTask(b: Broker, probability: real, k: nat, id: nat, draw: Draw)
    requires k != id
    ensures var b' := Resume(b, probability, k, draw);
            (id in b'.tasks <==> id in b.tasks) && (id in b.tasks ==> b'.tasks[id] == b.tasks[id])
  {
    hide FillQuantity;
  }

  lemma StepDiedIff(b: Broker, probability: real, id: nat, e: Event)
    requires Consistent(b)
    ensures HasDied(Step(b, probability, e), id) <==> HasDied(b, id) || RaisesOnPartial(b, probability, id, e)
  {
    hide Resume, FillQuantity, FilledBy, CountOf, LogOk, Sound;
    match e
    case ResumeEvent(k, draw) =>
      if k != id {
        OtherTask(b, probability, k, id, draw);
      } else if id in b.orders {
        assert Sound(ViewOf(b, id));
        ResumeDiedIff(b, probability, id, draw);
      } else {
        UnknownIsInert(b, probability, id, draw);
      }
    case _ =>
  }

  lemma UnknownIsInert(b: Broker, probability: real, id: nat, draw: Draw)
    requires id !in b.orders
    ensures Resume(b, probability, id, draw) == b
  {
  }

  /** Some event of the run raises on a partial fill of the order. */
  predicate EverRaises(b: Broker, probability: real, id: nat, events: seq<Event>) {
    |events| > 0
    && var before := events[..|events| - 1];
       || EverRaises(b, probability, id, before)
       || RaisesOnPartial(Run(b, probability, before), probability, id, events[|events| - 1])
  }

  /** In every run the coroutines that have died are exactly those of orders on a partial fill of which the callback
      has raised. */
  lemma {:induction false} DiedIff(b: Broker, probability: real, id: nat, events: seq<Event>)
    requires Consistent(b)
    ensures Consistent(Run(b, probability, events))
    ensures HasDied(Run(b, probability, events), id) <==> HasDied(b, id) || EverRaises(b, probability, id, events)
  {
    hide Step, Consistent, HasDied, RaisesOnPartial;
    if |events| > 0 {
      var n := |events| - 1;
      DiedIff(b, probability, id, events[..n]);
      StepKeepsConsistent(Run(b, probability, events[..n]), probability, events[n]);
      StepDiedIff(Run(b, probability, events[..n]), probability, id, events[n]);
    }
  }

  lemma DeadViewStays(v: View, id: nat, probability: real, e: Event, heard: bool)
    requires Sound(v) && v.task == Died
    ensures var v' := StepView(v, id, probability, e, heard);
            v'.task == Died && v'.filled == v.filled && v'.count == v.count && v'.quantity == v.quantity
  {
  }

  lemma DeadIsUnfilled(v: View)
    requires Sound(v) && v.task == Died
    ensures 0 < v.filled < v.quantity && v.status in {PartialFill, Cancelled}
  {
  }

  /** An order whose coroutine has died keeps what it had and is never filled, whatever happens next. */
  lemma {:induction false} DeathIsFinal(b: Broker, probability: real, id: nat, events: seq<Event>)
    requires Consistent(b) && id in b.orders && b.tasks[id] == Died
    ensures var b' := Run(b, probability, events);
            && Consistent(b') && id in b'.orders
            && var v, v' := ViewOf(b, id), ViewOf(b', id);
            && v'.task == Died && v'.quantity == v.quantity && v'.filled == v.filled < v.quantity && v'.count == v.count
            && v'.status in {PartialFill, Cancelled}
  {
    hide Step, StepView, FilledBy, CountOf, LogOk, Sound;
    DeadIsUnfilled(ViewOf(b, id));
    if |events| > 0 {
      var n := |events| - 1;
      DeathIsFinal(b, probability, id, events[..n]);
      var before := Run(b, probability, events[..n]);
      assert Sound(ViewOf(before, id));
      StepKeepsConsistent(before, probability, events[n]);
      StepViews(before, probability, events[n]);
      DeadViewStays(ViewOf(before, id), id, probability, events[n], before.callback.Some?);
      DeadIsUnfilled(ViewOf(Run(b, probability, events), id));
    }
  }

  /** Every resumption of an order nobody cancels fills at least one unit until the order is complete, whatever other
      orders do in between; so an order of size n is filled after at most n resumptions, in at most n fills - unless,
      and only unless, the callback raises on one of its partial fills. */
  lemma UncancelledOrderFills(b: Broker, probability: real, id: nat, events: seq<Event>)
    requires Consistent(b) && id in b.orders && id !in b.cancelled && b.orders[id].quantity > 0
    requires NeverCancels(events, id)
    ensures var b' := Run(b, probability, events);
            && Consistent(b') && id in b'.orders
            && var v, v' := ViewOf(b, id), ViewOf(b', id);
            var raised := v.task == Died || EverRaises(b, probability, id, events);
            && v'.quantity == v.quantity && !v'.cancelled && v'.count <= v.quantity
            && (v'.filled >= v.filled + Resumptions(events, id) || v'.status == Filled || raised)
            && (v'.status == Filled <==> v'.filled == v.quantity)
            && (v'.status == Filled ==> !raised)
            && (Resumptions(events, id) >= v.quantity ==> (v'.status == Filled <==> !raised))
  {
    hide Run, Resumptions, FilledBy, CountOf, LogOk, Sound, EverRaises;
    ResumptionsProgress(b, probability, id, events);
    DiedIff(b, probability, id, events);
    assert Sound(ViewOf(b, id)) && Sound(ViewOf(Run(b, probability, events), id));
    ProgressEnds(ViewOf(b, id), ViewOf(Run(b, probability, events), id), Resumptions(events, id));
  }

  /** The concrete case: an order of two units, the first filled under a callback that raises, is partly filled for
      ever, and its second unit is never bought or sold. */
  lemma RaisingCallbackStrands(order: Order, more: seq<Event>)
    requires order.quantity == 2
    ensures var opening := [SubscribeEvent(1), SubmitEvent(order), ResumeEvent(1, Draw(0.0, 0, true))];
            var b := Run(Idle, 1.0, opening + more);
            && 1 in b.orders && 1 in b.statuses && 1 in b.filledQty && 1 in b.tasks
            && b.tasks[1] == Died && b.filledQty[1] == 1 && b.statuses[1] in {PartialFill, Cancelled}
            && (more == [] ==> b.statuses[1] == PartialFill)
  {
    var opening := [SubscribeEvent(1), SubmitEvent(order), ResumeEvent(1, Draw(0.0, 0, true))];
    RunOfThree(Idle, 1.0, opening[0], opening[1], opening[2]);
    var b := Run(Idle, 1.0, opening);
    FirstOfTwo(order);
    assert opening + [] == opening;
    RunConsistent(1.0, opening);
    RunConcat(Idle, 1.0, opening, more);
    DeathIsFinal(b, 1.0, 1, more);
  }

  lemma FirstOfTwo(order: Order)
    requires order.quantity == 2
    ensures var waiting := Step(Step(Idle, 1.0, SubscribeEvent(1)), 1.0, SubmitEvent(order));
            var b := Step(waiting, 1.0, ResumeEvent(1, Draw(0.0, 0, true)));
            && b.orders == map[1 := order] && b.tasks == map[1 := Died] && b.filledQty == map[1 := 1]
            && b.statuses == map[1 := PartialFill]
  {
    assert FillQuantity(1.0, Draw(0.0, 0, true), 2) == 1;
  }

  // --------------------------------------------------------------------------------------------
  // Who hears of a fill
  // --------------------------------------------------------------------------------------------

  /** The callback that was registered last. */
  function LastSubscribed(events: seq<Event>): Option<nat> {
    if |events| == 0 then None
    else
      var last := events[|events| - 1];
      if last.SubscribeEvent? then Some(last.callback) else LastSubscribed(events[..|events| - 1])
  }

  /** The fill that an event creates, if any. */
  function NewFill(b: Broker, probability: real, e: Event): seq<OrderFill> {
    var after := Step(b, probability, e).created;
    if |after| > |b.created| then [after[|b.created|]] else []
  }

  /** The fills delivered to one subscriber. */
  function DeliveredTo(delivered: seq<Delivery>, callback: nat): seq<OrderFill> {
    if |delivered| == 0 then []
    else
      var before, last := DeliveredTo(delivered[..|delivered| - 1], callback), delivered[|delivered| - 1];
      if last.subscriber == callback then before + [last.fill] else before
  }

  /** The fills created while a callback was the one registered last. */
  function CreatedUnder(probability: real, events: seq<Event>, callback: nat): seq<OrderFill> {
    if |events| == 0 then []
    else
      var n := |events| - 1;
      var before := CreatedUnder(probability, events[..n], callback);
      if LastSubscribed(events[..n]) == Some(callback)
      then before + NewFill(Run(Idle, probability, events[..n]), probability, events[n])
      else before
  }

  /** An event creates at most one fill, and hands it to the callback registered at that moment and to no other. */
  lemma StepDelivers(b: Broker, probability: real, e: Event, callback: nat)
    ensures var b', more := Step(b, probability, e), NewFill(b, probability, e);
            && b'.created == b.created + more
            && DeliveredTo(b'.delivered, callback)
               == DeliveredTo(b.delivered, callback) + (if b.callback == Some(callback) then more else [])
            && b'.callback == (if e.SubscribeEvent? then Some(e.callback) else b.callback)
  {
    hide FillQuantity;
    var b' := Step(b, probability, e);
    if b'.delivered != b.delivered {
      assert b'.delivered[..|b.delivered|] == b.delivered;
    }
    assert b.created + [] == b.created;
    assert DeliveredTo(b.delivered, callback) + [] == DeliveredTo(b.delivered, callback);
  }

  /** In every run a subscriber receives exactly the fills created while its callback was the one registered last. */
  lemma {:induction false} SubscriberHears(probability: real, events: seq<Event>, callback: nat)
    ensures var b := Run(Idle, probability, events);
            && b.callback == LastSubscribed(events)
            && DeliveredTo(b.delivered, callback) == CreatedUnder(probability, events, callback)
  {
    hide Step, NewFill;
    if |events| > 0 {
      var n := |events| - 1;
      SubscriberHears(probability, events[..n], callback);
      StepDelivers(Run(Idle, probability, events[..n]), probability, events[n], callback);
    }
  }

  /** Every event that creates a fill finds this callback registered. */
  predicate AlwaysHeard(probability: real, events: seq<Event>, callback: nat) {
    forall k :: 0 <= k < |events| && NewFill(Run(Idle, probability, events[..k]), probability, events[k]) != [] ==>
      LastSubscribed(events[..k]) == Some(callback)
  }

  lemma AlwaysHeardExtends(probability: real, events: seq<Event>, callback: nat)
    requires |events| > 0
    ensures var n := |events| - 1;
            AlwaysHeard(probability, events, callback) <==>
            && AlwaysHeard(probability, events[..n], callback)
            && (NewFill(Run(Idle, probability, events[..n]), probability, events[n]) != [] ==>
                  LastSubscribed(events[..n]) == Some(callback))
  {
    hide Run, NewFill, LastSubscribed;
    var n := |events| - 1;
    assert forall k :: 0 <= k < n ==> events[..n][..k] == events[..k] && events[..n][k] == events[k];
  }

  /** A subscriber receives every fill exactly when none is created before it registers or while another callback is
      registered in its place. */
  lemma {:induction false} SubscriberSeesAllIff(probability: real, events: seq<Event>, callback: nat)
    ensures var b := Run(Idle, probability, events);
            && |DeliveredTo(b.delivered, callback)| <= |b.created|
            && (DeliveredTo(b.delivered, callback) == b.created <==> AlwaysHeard(probability, events, callback))
  {
    assert DeliveredTo([], callback) == [];
    assert |events| == 0 ==> AlwaysHeard(probability, events, callback);
    hide Step, NewFill, AlwaysHeard, DeliveredTo;
    if |events| > 0 {
      var n := |events| - 1;
      var before := Run(Idle, probability, events[..n]);
      SubscriberSeesAllIff(probability, events[..n], callback);
      SubscriberHears(probability, events[..n], callback);
      StepDelivers(before, probability, events[n], callback);
      AlwaysHeardExtends(probability, events, callback);
      AppendSame(DeliveredTo(before.delivered, callback), before.created, NewFill(before, probability, events[n]));
    }
  }

  lemma AppendSame(s: seq<OrderFill>, t: seq<OrderFill>, more: seq<OrderFill>)
    ensures s + more == t + more <==> s == t
    ensures |s| <= |t| && s == t + more ==> more == []
  {
    if s + more == t + more {
      assert s == (s + more)[..|s|] && t == (t + more)[..|t|];
    }
  }

  /** A subscriber that comes first and is never replaced receives every fill. */
  lemma SoleSubscriberSeesAll(probability: real, events: seq<Event>, callback: nat)
    requires |events| > 0 && events[0] == SubscribeEvent(callback)
    requires forall k :: 0 <= k < |events| && events[k].SubscribeEvent? ==> events[k].callback == callback
    ensures var b := Run(Idle, probability, events); DeliveredTo(b.delivered, callback) == b.created
  {
    assert NewFill(Idle, probability, events[0]) == [];
    hide NewFill, LastSubscribed, DeliveredTo;
    forall k | 0 <= k < |events|
      ensures NewFill(Run(Idle, probability, events[..k]), probability, events[k]) != [] ==>
                LastSubscribed(events[..k]) == Some(callback)
    {
      if k == 0 {
        assert events[..0] == [];
      } else {
        AlwaysTheSame(events[..k], callback);
      }
    }
    SubscriberSeesAllIff(probability, events, callback);
  }

  lemma {:induction false} AlwaysTheSame(events: seq<Event>, callback: nat)
    requires |events| > 0 && events[0] == SubscribeEvent(callback)
    requires forall k :: 0 <= k < |events| && events[k].SubscribeEvent? ==> events[k].callback == callback
    ensures LastSubscribed(events) == Some(callback)
  {
    if |events| > 1 {
      AlwaysTheSame(events[..|events| - 1], callback);
    }
  }

  lemma RunAppend(b: Broker, probability: real, events: seq<Event>, e: Event)
    ensures Run(b, probability, events + [e]) == Step(Run(b, probability, events), probability, e)
  {
    assert (events + [e])[..|events|] == events;
  }

  /** A submission and a resumption of an order of one unit, by a broker whose callback is registered. */
  lemma OneUnitFills(b: Broker, order: Order, draw: Draw)
    requires order.quantity == 1 && b.callback.Some? && b.orderCounter + 1 !in b.cancelled
    ensures var b' := Step(Step(b, 0.0, SubmitEvent(order)), 0.0, ResumeEvent(b.orderCounter + 1, draw));
            var fill := OrderFill(b.fillCounter + 1, b.orderCounter + 1, order.symbol, order.side, 1);
            && b'.created == b.created + [fill]
            && b'.delivered == b.delivered + [Delivery(b.callback.value, fill)]
            && b'.orderCounter == b.orderCounter + 1
            && b'.cancelled == b.cancelled
  {
  }

  lemma RunOfThree(b: Broker, probability: real, e: Event, f: Event, g: Event)
    ensures Run(b, probability, [e, f, g]) == Step(Step(Step(b, probability, e), probability, f), probability, g)
  {
    hide Step;
    assert [e, f, g] == [] + [e] + [f] + [g];
    RunAppend(b, probability, [], e);
    RunAppend(b, probability, [] + [e], f);
    RunAppend(b, probability, [] + [e] + [f], g);
  }

  lemma {:induction false} RunConcat(b: Broker, probability: real, events: seq<Event>, more: seq<Event>)
    ensures Run(b, probability, events + more) == Run(Run(b, probability, events), probability, more)
  {
    hide Step;
    if |more| == 0 {
      assert events + more == events;
    } else {
      var n := |more| - 1;
      assert events + more == events + more[..n] + [more[n]];
      RunConcat(b, probability, events, more[..n]);
      RunAppend(b, probability, events + more[..n], more[n]);
    }
  }

  /** Two subscribers in turn: the second takes over, and the first, although there from the start, misses the second
      order's fill. */
  lemma LaterSubscriberTakesOver(order: Order, draw: Draw)
    requires order.quantity == 1
    ensures var events := [SubscribeEvent(1), SubmitEvent(order), ResumeEvent(1, draw),
                           SubscribeEvent(2), SubmitEvent(order), ResumeEvent(2, draw)];
            var b := Run(Idle, 0.0, events);
            && |b.created| == 2
            && DeliveredTo(b.delivered, 1) == [b.created[0]]
            && DeliveredTo(b.delivered, 2) == [b.created[1]]
  {
    hide Step, Run, DeliveredTo;
    var first := [SubscribeEvent(1), SubmitEvent(order), ResumeEvent(1, draw)];
    var second := [SubscribeEvent(2), SubmitEvent(order), ResumeEvent(2, draw)];
    assert first + second == [first[0], first[1], first[2], second[0], second[1], second[2]];
    RunConcat(Idle, 0.0, first, second);
    RunOfThree(Idle, 0.0, first[0], first[1], first[2]);
    var middle := Run(Idle, 0.0, first);
    RunOfThree(middle, 0.0, second[0], second[1], second[2]);
    Subscribed(Idle, 0.0, 1);
    OneUnitFills(Idle.(callback := Some(1)), order, draw);
    Subscribed(middle, 0.0, 2);
    OneUnitFills(middle.(callback := Some(2)), order, draw);
    var b := Run(middle, 0.0, second);
    assert b.delivered == [Delivery(1, b.created[0]), Delivery(2, b.created[1])];
    PairDelivered(b.delivered[0], b.delivered[1]);
  }

  lemma Subscribed(b: Broker, probability: real, callback: nat)
    ensures Step(b, probability, SubscribeEvent(callback)) == b.(callback := Some(callback))
  {
  }

  lemma DeliveryAppend(delivered: seq<Delivery>, d: Delivery, callback: nat)
    ensures DeliveredTo(delivered + [d], callback)
            == DeliveredTo(delivered, callback) + (if d.subscriber == callback then [d.fill] else [])
  {
    assert (delivered + [d])[..|delivered|] == delivered;
  }

  lemma PairDelivered(d: Delivery, e: Delivery)
    requires d.subscriber == 1 && e.subscriber == 2
    ensures DeliveredTo([d, e], 1) == [d.fill] && DeliveredTo([d, e], 2) == [e.fill]
  {
    assert [d, e] == [] + [d] + [e];
    DeliveryAppend([], d, 1);
    DeliveryAppend([], d, 2);
    DeliveryAppend([] + [d], e, 1);
    DeliveryAppend([] + [d], e, 2);
  }
}
