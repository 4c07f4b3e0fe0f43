/** The dashboard's controller state (public/js/app.js): the item list, the current
    readings, the two chart buffers, the broker-client indicator, and what the page
    writes back to the server. `triggerItem` predicts a door's motion before the device
    confirms it; the message handler folds each server message into this state. */
module Dashboard {
  import opened Optional
  import opened Protocol
  import opened Statuses

  /** A live update pushes one point; past this length the oldest point is shifted out. */
  const BUFFER_LIMIT: nat := 300
  /** The one item whose trigger is predicted locally. */
  const DOOR := "door"

  /** A chart point `[createdAt, reading]`. */
  datatype Point = Point(time: int, value: Value)

  /** The `update` object of a message; each field may be undefined. */
  datatype Update = Update(light: Option<Value>, temp: Option<Value>, name: Option<string>, status: Option<string>)

  const NO_UPDATE := Update(None, None, None, None)

  /** A message as the page's handler receives it; each field may be undefined. */
  datatype Data = Data(
    statuses: Option<seq<StatusView>>,
    clientStatus: Option<string>,
    lightReadings: Option<seq<Reading>>,
    tempReadings: Option<seq<Reading>>,
    update: Option<Update>)

  // ---------------------------------------------------------------------------
  // triggerItem and itemType

  /** The status `triggerItem` leaves on an item: only the door moves, and only from a
      resting state, `open` to `opening` and `closed` to `closing`. */
  function TriggeredStatus(name: string, status: string): (r: string)
    ensures r != status ==>
      name == DOOR && ((status == "open" && r == "opening") || (status == "closed" && r == "closing"))
    ensures name == DOOR && (status == "open" || status == "closed") ==> r != status
  {
    if name == DOOR && status == "open" then "opening"
    else if name == DOOR && status == "closed" then "closing"
    else status
  }

  /** One transition per trigger: triggering again before the device reports back
      changes nothing more. */
  lemma TriggerSettles(name: string, status: string)
    ensures TriggeredStatus(name, TriggeredStatus(name, status)) == TriggeredStatus(name, status)
  {
  }

  /** `itemType`: 1 (a switch) exactly for `on` and `off`, 2 for everything else. */
  function ItemType(status: string): (r: int)
    ensures r == 1 || r == 2
    ensures r == 1 <==> status == "on" || status == "off"
  {
    if status == "on" || status == "off" then 1 else 2
  }

  /** Over the stored enumeration, `itemType` separates the two-state devices from the
      four-phase ones. */
  lemma ItemTypeMatchesKind(v: StatusValue)
    ensures ItemType(Name(v)) == 1 <==> v == On || v == Off
  {
  }

  // ---------------------------------------------------------------------------
  // chart buffers

  function PointOf(r: Reading): Point
  {
    Point(r.createdAt, r.reading)
  }

  /** The `[createdAt, reading]` points of a batch, one per reading, in order. */
  function Points(rs: seq<Reading>): (ps: seq<Point>)
    ensures |ps| == |rs|
    ensures forall i :: 0 <= i < |rs| ==> ps[i].time == rs[i].createdAt && ps[i].value == rs[i].reading
  {
    seq(|rs|, i requires 0 <= i < |rs| => PointOf(rs[i]))
  }

  /** Hydration's `forEach` push: the readings appended in order, the buffer before them
      untouched. */
  method AppendReadings(buffer: seq<Point>, readings: seq<Reading>) returns (r: seq<Point>)
    ensures |r| == |buffer| + |readings|
    ensures r[..|buffer|] == buffer
    ensures forall i :: 0 <= i < |readings| ==> r[|buffer| + i] == PointOf(readings[i])
    ensures r == buffer + Points(readings)
  {
    r := buffer;
    for i := 0 to |readings|
      invariant |r| == |buffer| + i
      invariant r[..|buffer|] == buffer
      invariant forall j :: 0 <= j < i ==> r[|buffer| + j] == PointOf(readings[j])
    {
      r := r + [PointOf(readings[i])];
    }
    assert r == buffer + Points(readings);
  }

  /** A live update: `p` becomes the last point; past the limit only the oldest point is
      dropped, so a buffer below the limit grows by one and any other keeps its length. */
  function Capped(buffer: seq<Point>, p: Point): (r: seq<Point>)
    ensures |r| == if |buffer| < BUFFER_LIMIT then |buffer| + 1 else |buffer|
    ensures r[|r| - 1] == p
    ensures r[..|r| - 1] == buffer[|buffer| + 1 - |r|..]
  {
    var pushed := buffer + [p];
    if |pushed| > BUFFER_LIMIT then pushed[1..] else pushed
  }

  /** A run of live updates. */
  function CappedAll(buffer: seq<Point>, ps: seq<Point>): seq<Point>
    decreases |ps|
  {
    if ps == [] then buffer else CappedAll(Capped(buffer, ps[0]), ps[1..])
  }

  /** Live updates fill a buffer up to the limit and then keep its length; a buffer that
      hydration left longer than the limit never shrinks back to it. */
  lemma {:induction false} LiveUpdatesLength(buffer: seq<Point>, ps: seq<Point>)
    ensures |CappedAll(buffer, ps)| ==
      if |buffer| >= BUFFER_LIMIT then |buffer|
      else if |buffer| + |ps| <= BUFFER_LIMIT then |buffer| + |ps|
      else BUFFER_LIMIT
    decreases |ps|
  {
    if ps != [] {
      LiveUpdatesLength(Capped(buffer, ps[0]), ps[1..]);
    }
  }

  /** The last value of a buffer, or `current` when the buffer is empty. */
  function LatestOr(buffer: seq<Point>, current: Option<Value>): (r: Option<Value>)
    ensures |buffer| == 0 ==> r == current
    ensures |buffer| > 0 ==> r.Some? && r.value == buffer[|buffer| - 1].value
  {
    if |buffer| > 0 then Some(buffer[|buffer| - 1].value) else current
  }

  // ---------------------------------------------------------------------------
  // status updates

  /** Every item named `name` takes `status` and `updated`; the others stay as they were. */
  function StatusApplied(items: seq<StatusView>, name: Option<string>, status: string, updated: int): (r: seq<StatusView>)
    ensures |r| == |items|
    ensures forall i :: 0 <= i < |items| ==> r[i].name == items[i].name
  {
    seq(|items|, i requires 0 <= i < |items| =>
      if Some(items[i].name) == name then items[i].(status := status, updated := updated) else items[i])
  }

  /** An update naming no item, or naming nothing, changes no item. */
  lemma UnmatchedUpdateChangesNothing(items: seq<StatusView>, name: Option<string>, status: string, updated: int)
    requires forall i :: 0 <= i < |items| ==> Some(items[i].name) != name
    ensures StatusApplied(items, name, status, updated) == items
  {
  }

  /** An update keeps the list's length, order and names, and a matching item carries
      exactly the new status and time. */
  lemma UpdateKeepsNames(items: seq<StatusView>, name: Option<string>, status: string, updated: int, i: nat)
    requires i < |items|
    ensures |StatusApplied(items, name, status, updated)| == |items|
    ensures StatusApplied(items, name, status, updated)[i].name == items[i].name
    ensures Some(items[i].name) == name ==>
      StatusApplied(items, name, status, updated)[i] == StatusView(items[i].name, status, updated)
    ensures Some(items[i].name) != name ==> StatusApplied(items, name, status, updated)[i] == items[i]
  {
  }

  class Dashboard {
    var items: seq<StatusView>
    /** `currentLight` and `currentTemp`; None while they still show '---'. */
    var currentLight: Option<Value>
    var currentTemp: Option<Value>
    var lightData: seq<Point>
    var tempData: seq<Point>
    var clientStatus: string
    /** Every `primus.write` of the page, oldest first. */
    var sent: seq<ClientMessage>

    constructor ()
      ensures items == [] && currentLight == None && currentTemp == None
      ensures lightData == [] && tempData == []
      ensures clientStatus == "Offline" && sent == []
    {
      items := [];
      currentLight, currentTemp := None, None;
      lightData, tempData := [], [];
      clientStatus := "Offline";
      sent := [];
    }

    /** `triggerItem(id)`: the item's status moves as TriggeredStatus says, nothing else
        in the list changes, and `{remoteTrigger: name}` is sent whether or not it moved. */
    method TriggerItem(id: nat)
      requires id < |items|
      modifies this
      ensures items == old(items)[id := old(items)[id].(status := TriggeredStatus(old(items)[id].name, old(items)[id].status))]
      ensures sent == old(sent) + [ClientMessage(Some(old(items)[id].name))]
      ensures currentLight == old(currentLight) && currentTemp == old(currentTemp)
      ensures lightData == old(lightData) && tempData == old(tempData)
      ensures clientStatus == old(clientStatus)
    {
      if items[id].name == DOOR {
        if items[id].status == "open" {
          items := items[id := items[id].(status := "opening")];
        }
        if items[id].status == "closed" {
          items := items[id := items[id].(status := "closing")];
        }
      }
      sent := sent + [ClientMessage(Some(items[id].name))];
    }

    /** The loop over `items` for a status update received at `now` (milliseconds). */
    method ApplyStatusUpdate(name: Option<string>, status: string, now: int)
      modifies this
      ensures items == StatusApplied(old(items), name, status, now / 1000)
      ensures currentLight == old(currentLight) && currentTemp == old(currentTemp)
      ensures lightData == old(lightData) && tempData == old(tempData)
      ensures clientStatus == old(clientStatus) && sent == old(sent)
    {
      for i := 0 to |items|
        invariant |items| == |old(items)|
        invariant forall j :: 0 <= j < i ==> items[j] == StatusApplied(old(items), name, status, now / 1000)[j]
        invariant forall j :: i <= j < |items| ==> items[j] == old(items)[j]
        invariant currentLight == old(currentLight) && currentTemp == old(currentTemp)
        invariant lightData == old(lightData) && tempData == old(tempData)
        invariant clientStatus == old(clientStatus) && sent == old(sent)
      {
        if Some(items[i].name) == name {
          items := items[i := items[i].(status := status, updated := now / 1000)];
        }
      }
    }

    /** A `lightReadings` batch: appended in order; the last point's value becomes
        current unless the buffer is still empty. */
    method ReceiveLightReadings(readings: seq<Reading>)
      modifies this
      ensures lightData == old(lightData) + Points(readings)
      ensures currentLight == LatestOr(lightData, old(currentLight))
      ensures items == old(items) && clientStatus == old(clientStatus) && sent == old(sent)
      ensures tempData == old(tempData) && currentTemp == old(currentTemp)
    {
      lightData := AppendReadings(lightData, readings);
      if |lightData| > 0 {
        currentLight := Some(lightData[|lightData| - 1].value);
      }
    }

    /** A `tempReadings` batch, as for light. */
    method ReceiveTempReadings(readings: seq<Reading>)
      modifies this
      ensures tempData == old(tempData) + Points(readings)
      ensures currentTemp == LatestOr(tempData, old(currentTemp))
      ensures items == old(items) && clientStatus == old(clientStatus) && sent == old(sent)
      ensures lightData == old(lightData) && currentLight == old(currentLight)
    {
      tempData := AppendReadings(tempData, readings);
      if |tempData| > 0 {
        currentTemp := Some(tempData[|tempData| - 1].value);
      }
    }

    /** `update.light` at `now`: the value becomes current and is pushed, then the
        oldest point is shifted out past the limit. */
    method ReceiveLight(value: Value, now: int)
      modifies this
      ensures currentLight == Some(value)
      ensures lightData == Capped(old(lightData), Point(now, value))
      ensures items == old(items) && clientStatus == old(clientStatus) && sent == old(sent)
      ensures tempData == old(tempData) && currentTemp == old(currentTemp)
    {
      currentLight := Some(value);
      lightData := lightData + [Point(now, value)];
      if |lightData| > BUFFER_LIMIT {
        lightData := lightData[1..];
      }
    }

    /** `update.temp` at `now`, as for light. */
    method ReceiveTemp(value: Value, now: int)
      modifies this
      ensures currentTemp == Some(value)
      ensures tempData == Capped(old(tempData), Point(now, value))
      ensures items == old(items) && clientStatus == old(clientStatus) && sent == old(sent)
      ensures lightData == old(lightData) && currentLight == old(currentLight)
    {
      currentTemp := Some(value);
      tempData := tempData + [Point(now, value)];
      if |tempData| > BUFFER_LIMIT {
        tempData := tempData[1..];
      }
    }

    /** The `primus.on('data')` handler for a message received at `now` (milliseconds),
        field by field in the handler's order: a status list replaces the items; a
        reading batch is appended and its last value becomes current; a live reading
        becomes current and is pushed into its capped buffer; a status update rewrites
        the items that carry its name. */
    method OnData(data: Data, now: int)
      modifies this
      ensures var items1 := if data.statuses.Some? then data.statuses.value else old(items);
        var update := if data.update.Some? then data.update.value else NO_UPDATE;
        items == if update.status.Some? then StatusApplied(items1, update.name, update.status.value, now / 1000) else items1
      ensures clientStatus == if data.clientStatus.Some? then data.clientStatus.value else old(clientStatus)
      ensures var light1 := if data.lightReadings.Some? then old(lightData) + Points(data.lightReadings.value) else old(lightData);
        var current1 := if data.lightReadings.Some? then LatestOr(light1, old(currentLight)) else old(currentLight);
        var update := if data.update.Some? then data.update.value else NO_UPDATE;
        && lightData == (if update.light.Some? then Capped(light1, Point(now, update.light.value)) else light1)
        && currentLight == (if update.light.Some? then update.light else current1)
      ensures var temp1 := if data.tempReadings.Some? then old(tempData) + Points(data.tempReadings.value) else old(tempData);
        var current1 := if data.tempReadings.Some? then LatestOr(temp1, old(currentTemp)) else old(currentTemp);
        var update := if data.update.Some? then data.update.value else NO_UPDATE;
        && tempData == (if update.temp.Some? then Capped(temp1, Point(now, update.temp.value)) else temp1)
        && currentTemp == (if update.temp.Some? then update.temp else current1)
      ensures sent == old(sent)
    {
      if data.statuses.Some? {
        items := data.statuses.value;
      }
      if data.clientStatus.Some? {
        clientStatus := data.clientStatus.value;
      }
      if data.lightReadings.Some? {
        ReceiveLightReadings(data.lightReadings.value);
      }
      if data.tempReadings.Some? {
        ReceiveTempReadings(data.tempReadings.value);
      }
      if data.update.Some? {
        var update := data.update.value;
        if update.light.Some? {
          ReceiveLight(update.light.value, now);
        }
        if update.temp.Some? {
          ReceiveTemp(update.temp.value, now);
        }
        if update.status.Some? {
          ApplyStatusUpdate(update.name, update.status.value, now);
        }
      }
    }
  }
}
