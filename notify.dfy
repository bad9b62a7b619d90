/**
 * The notification sent when a meeting starts: a fixed three-key payload,
 * multicast to the tokens of the meeting's participants through the push
 * gateway, whose answer (accepted or not) is an input here.
 */
module Notifier {
  import opened Types
  import opened Config
  import opened DeviceResolver

  const ActionStarted := "meeting_started"
  const DefaultRetries := 3

  /** The payload of a start notification. */
  function Payload(m: Meeting): (data: map<string, string>)
    ensures data.Keys == {"action", "meeting_id", "meeting_goal"}
    ensures data["action"] == ActionStarted
  {
    map["action" := ActionStarted, "meeting_id" := m.id, "meeting_goal" := m.goal]
  }

  /** What a receiving app reads from a payload: the started meeting's id and goal. */
  function StartedMeeting(data: map<string, string>): Option<(ObjectId, string)>
  {
    if "action" in data && data["action"] == ActionStarted && "meeting_id" in data && "meeting_goal" in data
    then Some((data["meeting_id"], data["meeting_goal"]))
    else None
  }

  /** A receiver recovers the meeting's id and goal from the payload. */
  lemma PayloadRoundTrip(m: Meeting)
    ensures StartedMeeting(Payload(m)) == Some((m.id, m.goal))
  {
  }

  /** Two meetings get the same payload exactly when they agree on id and goal. */
  lemma PayloadIdentifiesMeeting(m1: Meeting, m2: Meeting)
    ensures Payload(m1) == Payload(m2) <==> m1.id == m2.id && m1.goal == m2.goal
  {
    if Payload(m1) == Payload(m2) {
      assert Payload(m1)["meeting_id"] == Payload(m2)["meeting_id"];
      assert Payload(m1)["meeting_goal"] == Payload(m2)["meeting_goal"];
    }
  }

  /** The push gateway's settings as read from the `gcm` section. */
  datatype GcmSettings = GcmSettings(apiKey: string, retries: int)

  /**
   * `apikey` as written, and `retries` through the integer parser (a library
   * call, here a parameter), falling back to 3 when it does not parse.
   */
  function GcmSettingsOf(ini: Ini, parseInt: string -> Option<int>): (g: GcmSettings)
    ensures g.apiKey == KeyString(ini, "gcm", "apikey")
    ensures parseInt(KeyString(ini, "gcm", "retries")).None? ==> g.retries == DefaultRetries
    ensures parseInt(KeyString(ini, "gcm", "retries")).Some? ==> g.retries == parseInt(KeyString(ini, "gcm", "retries")).value
  {
    var retries := parseInt(KeyString(ini, "gcm", "retries"));
    GcmSettings(KeyString(ini, "gcm", "apikey"), if retries.Some? then retries.value else DefaultRetries)
  }

  /** A multicast message as handed to the push gateway. */
  datatype Message = Message(data: map<string, string>, recipients: seq<string>, apiKey: string, retries: int)

  /** The one send attempt made for a meeting, and whether the gateway accepted it. */
  datatype Notification = Notification(meeting: ObjectId, status: int, message: Message, delivered: bool)

  /** The message for meeting `m`. */
  function MessageFor(m: Meeting, users: map<ObjectId, User>, gcm: GcmSettings): Message
  {
    Message(Payload(m), Tokens(users, m.participants), gcm.apiKey, gcm.retries)
  }

  /**
   * `notify(meeting, status)`: builds the payload, resolves the devices and
   * sends once (with the configured retry count). `accepted` is the gateway's
   * answer; a rejection is fatal to the process, which the caller sees as
   * `delivered == false`.
   */
  method Notify(m: Meeting, status: int, users: map<ObjectId, User>, gcm: GcmSettings, accepted: bool)
    returns (n: Notification)
    ensures n.meeting == m.id && n.status == status && n.delivered == accepted
    ensures n.message.data == Payload(m)
    ensures n.message.recipients == Tokens(users, m.participants)
    ensures n.message.apiKey == gcm.apiKey && n.message.retries == gcm.retries
  {
    var data := Payload(m);
    var devices := Devices(m, users);
    var msg := Message(data, devices, gcm.apiKey, gcm.retries);
    n := Notification(m.id, status, msg, accepted);
  }
}
