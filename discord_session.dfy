/** The second Rich Presence manager, `DiscordManager`: it owns a client
    object that it replaces on every (re-)initialisation, the identifier it
    logged in with, a connected flag and the last activity it applied, and it
    notifies the main window of connection events. */
module DiscordSession {
  import opened Wrappers
  import opened DiscordClient

  const NotConnectedMessage: string := "Discord client not connected"
  const DefaultLargeImageKey: string := "default"

  /** The activity `updatePresence` builds and sends. */
  datatype Activity = Activity(
    details: string,
    state: string,
    largeImageKey: string,
    largeImageText: string,
    startTimestamp: int,
    instance: bool)

  /** A message sent to the main window with `webContents.send`. */
  datatype Notification =
    | DiscordConnected
    | DiscordDisconnected
    | DiscordError(error: Thrown)

  /** A JavaScript string value is truthy when it is present and non-empty. */
  predicate Truthy(s: Option<string>) {
    s.Some? && s.value != ""
  }

  /** The activity built for one `updatePresence` call made at time `now`. */
  function BuildActivity(details: string, state: string, largeImageKey: Option<string>,
                         largeImageText: Option<string>, now: int): (a: Activity)
    ensures a.details == details && a.state == state
    ensures a.largeImageKey == (if Truthy(largeImageKey) then largeImageKey.value else DefaultLargeImageKey)
    ensures a.largeImageText == (if Truthy(largeImageText) then largeImageText.value else details)
    ensures a.largeImageKey != ""
    ensures a.startTimestamp == now && !a.instance
  {
    Activity(details, state,
             if Truthy(largeImageKey) then largeImageKey.value else DefaultLargeImageKey,
             if Truthy(largeImageText) then largeImageText.value else details,
             now, false)
  }

  class DiscordManager {
    var client: Option<nat>
    var clientId: string
    var connected: bool
    var currentActivity: Option<Activity>
    /** Whether the `ready` and `disconnected` handlers are registered on the
        current client; they are registered only after its login succeeded. */
    var listening: bool
    /** Whether a main window was given (`mainWindow?.` sends nothing otherwise). */
    const hasWindow: bool

    /** Handles given to the client objects created so far. */
    var nextClient: nat
    /** Every call made on a client, in order. */
    var calls: seq<Call<Activity>>
    /** Every message sent to the main window, in order. */
    var notifications: seq<Notification>

    /** Only the current client can be connected or listened to, and an
        activity is only kept while there is a client. */
    ghost predicate Valid()
      reads this
    {
      && (connected ==> client.Some?)
      && (client.None? ==> currentActivity == None)
      && (listening ==> client.Some?)
      && (client.Some? ==> client.value < nextClient)
    }

    constructor (window: bool)
      ensures Valid()
      ensures client == None && clientId == "" && !connected && currentActivity == None
      ensures hasWindow == window && calls == [] && notifications == []
    {
      client := None;
      clientId := "";
      connected := false;
      currentActivity := None;
      listening := false;
      hasWindow := window;
      nextClient := 0;
      calls := [];
      notifications := [];
    }

    /** Send `n` to the main window, if there is one. */
    method Notify(n: Notification)
      modifies this`notifications
      ensures notifications == old(notifications) + (if hasWindow then [n] else [])
    {
      if hasWindow {
        notifications := notifications + [n];
      }
    }

    /** `disconnect`: nothing without a client; otherwise clear the activity,
        then destroy the client; only when both succeed are the client, the
        flag and the current activity reset. A failure is rethrown and leaves
        them as they were. */
    method Disconnect(clear: Outcome, destroy: Outcome) returns (r: Outcome)
      requires Valid()
      modifies this`client, this`connected, this`currentActivity, this`listening, this`calls
      ensures Valid()
      ensures old(client).None? ==>
        (r == Done && calls == old(calls) && client == None && connected == old(connected)
         && currentActivity == old(currentActivity))
      ensures old(client).Some? ==>
        var c := old(client).value;
        && r == (if clear.Threw? then clear else destroy)
        && calls == old(calls) + [ClearActivity(c)] + (if clear.Done? then [Destroy(c)] else [])
        && (r.Done? ==> client == None && !connected && currentActivity == None)
        && (r.Threw? ==>
              (client == old(client) && connected == old(connected)
               && currentActivity == old(currentActivity) && listening == old(listening)))
    {
      if client.None? {
        return Done;
      }
      var c := client.value;
      calls := calls + [ClearActivity(c)];
      if clear.Threw? {
        return clear;
      }
      calls := calls + [Destroy(c)];
      if destroy.Threw? {
        return destroy;
      }
      connected := false;
      client := None;
      currentActivity := None;
      listening := false;
      r := Done;
    }

    /** `initialize(id)`: nothing when already connected with `id`; otherwise
        tear the old client down, create a new one and log in with `id`. A
        failed teardown or login is rethrown; a failed login is also sent to
        the window. */
    method Initialize(id: string, clear: Outcome, destroy: Outcome, login: Outcome) returns (r: Outcome)
      requires Valid()
      modifies this
      ensures Valid()
      ensures old(connected) && old(clientId) == id ==>
        (r == Done && calls == old(calls) && client == old(client) && connected
         && clientId == old(clientId) && currentActivity == old(currentActivity)
         && listening == old(listening) && nextClient == old(nextClient)
         && notifications == old(notifications))
      ensures !(old(connected) && old(clientId) == id) ==>
        var teardown := if old(client).None? then Done else if clear.Threw? then clear else destroy;
        var teardownCalls :=
          if old(client).None? then []
          else [ClearActivity(old(client).value)] + (if clear.Done? then [Destroy(old(client).value)] else []);
        && (teardown.Threw? ==>
              (&& r == teardown && calls == old(calls) + teardownCalls && client == old(client)
               && connected == old(connected) && clientId == old(clientId)
               && currentActivity == old(currentActivity) && listening == old(listening)
               && nextClient == old(nextClient) && notifications == old(notifications)))
        && (teardown.Done? ==>
              (&& r == login
               && clientId == id
               && client == Some(old(nextClient)) && nextClient == old(nextClient) + 1
               && calls == old(calls) + teardownCalls + [Login(old(nextClient), id)]
               && currentActivity == None
               && connected == login.Done? && listening == login.Done?
               && notifications == old(notifications)
                    + (if login.Threw? && hasWindow then [DiscordError(login.error)] else [])))
    {
      if connected && clientId == id {
        return Done;
      }
      var d := Disconnect(clear, destroy);
      if d.Threw? {
        return d;
      }
      clientId := id;
      client := Some(nextClient);
      listening := false;
      nextClient := nextClient + 1;
      calls := calls + [Login(client.value, id)];
      match login
      case Done =>
        connected := true;
        listening := true;
        r := Done;
      case Threw(e) =>
        Notify(DiscordError(e));
        r := login;
    }

    /** `updatePresence`: refuse without a connected client, changing nothing;
        otherwise send the activity and keep it as the current one only if
        the client accepted it. */
    method UpdatePresence(details: string, state: string, largeImageKey: Option<string>,
                          largeImageText: Option<string>, now: int, setActivity: Outcome)
      returns (r: Outcome)
      requires Valid()
      modifies this`calls, this`currentActivity
      ensures Valid()
      ensures (old(client).None? || !connected) ==>
        (r == Threw(ErrorObject(NotConnectedMessage)) && calls == old(calls)
         && currentActivity == old(currentActivity))
      ensures (old(client).Some? && connected) ==>
        var a := BuildActivity(details, state, largeImageKey, largeImageText, now);
        && r == setActivity
        && calls == old(calls) + [SetActivity(client.value, a)]
        && currentActivity == (if setActivity.Done? then Some(a) else old(currentActivity))
    {
      if client.None? || !connected {
        return Threw(ErrorObject(NotConnectedMessage));
      }
      var a := BuildActivity(details, state, largeImageKey, largeImageText, now);
      calls := calls + [SetActivity(client.value, a)];
      if setActivity.Done? {
        currentActivity := Some(a);
      }
      r := setActivity;
    }

    /** The current client's `ready` event, once its handlers are registered. */
    method OnReady()
      requires Valid()
      modifies this`notifications
      ensures Valid()
      ensures notifications == old(notifications) + (if listening && hasWindow then [DiscordConnected] else [])
    {
      if listening {
        Notify(DiscordConnected);
      }
    }

    /** The current client's `disconnected` event, once its handlers are
        registered. */
    method OnDisconnected()
      requires Valid()
      modifies this`connected, this`notifications
      ensures Valid()
      ensures listening ==> !connected
      ensures !listening ==> connected == old(connected)
      ensures notifications == old(notifications) + (if listening && hasWindow then [DiscordDisconnected] else [])
    {
      if listening {
        connected := false;
        Notify(DiscordDisconnected);
      }
    }

    /** `isConnected()` */
    method IsConnected() returns (b: bool)
      ensures b == connected
    {
      b := connected;
    }

    /** `getCurrentActivity()` */
    method GetCurrentActivity() returns (a: Option<Activity>)
      ensures a == currentActivity
    {
      a := currentActivity;
    }
  }
}
