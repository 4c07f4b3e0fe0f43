/** The shapes of the messages that cross the bridge: MQTT packets in and out, socket
    messages from the server to every dashboard, and the one message a dashboard sends. */
module Protocol {
  import opened Optional

  /** A decoded sensor reading (the result of parseFloat or parseInt on a payload). */
  type Value = int

  /** A stored reading, and the `{createdAt, reading}` object hydration sends for it;
      `createdAt` is in milliseconds. */
  datatype Reading = Reading(createdAt: int, reading: Value)

  /** A status as the dashboard sees it: `{name, status, updated}`, `updated` in seconds. */
  datatype StatusView = StatusView(name: string, status: string, updated: int)

  /** A packet published on the broker. */
  datatype Packet = Packet(topic: string, payload: string)

  /** A packet the bridge publishes. */
  datatype MqttMessage = MqttMessage(topic: string, payload: string, qos: nat, retain: bool)

  /** What the server writes to dashboards. A status update built from a payload without
      a `|` carries no status (the field is `undefined` and is dropped on the wire). */
  datatype SocketMessage =
    | StatusesMessage(statuses: seq<StatusView>)
    | LightReadingsMessage(lightReadings: seq<Reading>)
    | TempReadingsMessage(tempReadings: seq<Reading>)
    | TempUpdate(temp: Value)
    | LightUpdate(light: Value)
    | StatusUpdate(name: string, status: Option<string>, updated: int)
    | ClientStatusMessage(clientStatus: string)

  /** What a dashboard writes to the server: `{remoteTrigger: name}`, or anything else. */
  datatype ClientMessage = ClientMessage(remoteTrigger: Option<string>)

  const TEMPERATURE_TOPIC := "coop/temperature"
  const BRIGHTNESS_TOPIC := "coop/brightness"
  const STATUS_TOPIC := "coop/status"
  const REMOTE_TRIGGER_TOPIC := "coop/remotetrigger"
  const TIME_BEACON_TOPIC := "time/beacon"
  const SUN_RISE_TOPIC := "sun/rise"
  const SUN_SET_TOPIC := "sun/set"
}
