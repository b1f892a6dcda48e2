/** The device-management page: its socket handlers as a reducer over
    `(systemInfo, connected, error)`, and the identifier, title and status
    label derived from that state. Parsing the socket frame is a parameter:
    each message arrives already parsed, or as a parse failure. */
module DeviceManagement {
  import opened Wrappers
  import opened Strings
  import opened DeviceInfo
  import DeviceDetails

  const ParseFailed := "Failed to parse system data"
  const ConnectFailed := "Failed to connect to server"
  const LoadingId := "Loading..."
  const TitlePrefix := "Device Management - "

  /** A parsed frame: its `error` field, if any, and the record it carries. */
  datatype Payload = Payload(error: Option<string>, info: Info)

  /** One socket callback. `Received(None)` is a frame whose `JSON.parse` throws or
      yields `null`; any other parsed value, an object or not, arrives as a `Payload`
      (one that is not an object carries no fields). */
  datatype Event = Opened | Received(message: Option<Payload>) | Failed | Closed

  datatype Page = Page(systemInfo: Option<Info>, connected: bool, error: Option<string>)

  function Initial(): Page {
    Page(None, false, None)
  }

  /** The frame reports an error: its `error` field is a non-empty string. */
  predicate ReportsError(m: Payload) {
    m.error.Some? && m.error.value != ""
  }

  /** The state after one socket callback. */
  function Step(p: Page, e: Event): (r: Page)
    ensures e.Opened? ==> r == p.(connected := true, error := None)
    ensures e.Received? && e.message.None? ==> r == p.(error := Some(ParseFailed))
    ensures e.Received? && e.message.Some? && ReportsError(e.message.value) ==>
              r == p.(error := e.message.value.error)
    ensures e.Received? && e.message.Some? && !ReportsError(e.message.value) ==>
              r == p.(systemInfo := Some(e.message.value.info), error := None)
    ensures e.Failed? ==> r == p.(connected := false, error := Some(ConnectFailed))
    ensures e.Closed? ==> r == p.(connected := false)
  {
    match e
    case Opened => p.(connected := true, error := None)
    case Received(m) =>
      if m.None? then p.(error := Some(ParseFailed))
      else if ReportsError(m.value) then p.(error := m.value.error)
      else p.(systemInfo := Some(m.value.info), error := None)
    case Failed => p.(connected := false, error := Some(ConnectFailed))
    case Closed => p.(connected := false)
  }

  /** The state after a sequence of callbacks on a fresh page. */
  function Replay(events: seq<Event>): Page
    decreases |events|
  {
    if |events| == 0 then Initial() else Step(Replay(events[..|events| - 1]), events[|events| - 1])
  }

  /** The latest open, error or close callback, searching back from the end. */
  function LastLinkEvent(events: seq<Event>): (r: Option<Event>)
    ensures r.Some? ==> !r.value.Received?
    decreases |events|
  {
    if |events| == 0 then None
    else if events[|events| - 1].Received? then LastLinkEvent(events[..|events| - 1])
    else Some(events[|events| - 1])
  }

  /** The record of the latest well-formed frame without an error. */
  function LastGoodRecord(events: seq<Event>): Option<Info>
    decreases |events|
  {
    if |events| == 0 then None
    else
      var e := events[|events| - 1];
      if e.Received? && e.message.Some? && !ReportsError(e.message.value) then Some(e.message.value.info)
      else LastGoodRecord(events[..|events| - 1])
  }

  /** The message left by the latest callback that touches the message; a close
      leaves it alone. */
  function LastMessage(events: seq<Event>): Option<string>
    decreases |events|
  {
    if |events| == 0 then None
    else
      match events[|events| - 1]
      case Closed => LastMessage(events[..|events| - 1])
      case Opened => None
      case Failed => Some(ConnectFailed)
      case Received(m) =>
        if m.None? then Some(ParseFailed)
        else if ReportsError(m.value) then m.value.error
        else None
  }

  /** The page shows "Connected" exactly when the latest connection callback was an open. */
  lemma {:induction false} ConnectedIffLastLinkWasOpen(events: seq<Event>)
    ensures Replay(events).connected <==> LastLinkEvent(events) == Some(Opened)
    decreases |events|
  {
    if |events| > 0 {
      ConnectedIffLastLinkWasOpen(events[..|events| - 1]);
    }
  }

  /** The shown record is the one from the latest well-formed, error-free frame. */
  lemma {:induction false} RecordIsLastGood(events: seq<Event>)
    ensures Replay(events).systemInfo == LastGoodRecord(events)
    decreases |events|
  {
    if |events| > 0 {
      RecordIsLastGood(events[..|events| - 1]);
    }
  }

  /** The shown message is the one set by the latest callback other than a close. */
  lemma {:induction false} ErrorIsLastMessage(events: seq<Event>)
    ensures Replay(events).error == LastMessage(events)
    decreases |events|
  {
    if |events| > 0 {
      ErrorIsLastMessage(events[..|events| - 1]);
    }
  }

  /** `deviceId`: the upper-cased MAC address, or the loading text. */
  function DeviceId(info: Option<Info>): (r: string)
    ensures info.None? || info.value.macAddress.None? || info.value.macAddress.value == "" ==> r == LoadingId
    ensures info.Some? && info.value.macAddress.Some? && info.value.macAddress.value != "" ==>
              r == ToUpper(info.value.macAddress.value)
  {
    if info.Some? && info.value.macAddress.Some? && info.value.macAddress.value != "" then
      ToUpper(info.value.macAddress.value)
    else LoadingId
  }

  /** The document title. */
  function Title(info: Option<Info>): (r: string)
    ensures StartsWith(r, TitlePrefix)
    ensures r[|TitlePrefix|..] == DeviceId(info)
  {
    var r := TitlePrefix + DeviceId(info);
    assert r[..|TitlePrefix|] == TitlePrefix;
    r
  }

  /** The connection badge. */
  function StatusLabel(p: Page): (r: string)
    ensures r == "Connected" <==> p.connected
    ensures !p.connected ==> r == "Disconnected"
  {
    if p.connected then "Connected" else "Disconnected"
  }

  /** Once a record with a MAC address is shown, the page subtitle
      ("Device - " and the identifier) equals the details table's name row. */
  lemma SubtitleMatchesDetailsName(info: Info)
    requires info.macAddress.Some? && info.macAddress.value != ""
    ensures "Device - " + DeviceId(Some(info)) == DeviceDetails.DeviceName(info.macAddress)
  {
    var mac := info.macAddress.value;
    assert DeviceDetails.FormatMac(info.macAddress) == ReplaceChar(ToUpper(mac), ':', ':');
    assert ReplaceChar(ToUpper(mac), ':', ':') == ToUpper(mac);
  }
}
