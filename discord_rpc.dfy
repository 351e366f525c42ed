/** The Rich Presence connection manager that the Electron main process
    loads: one `discord-rpc` client created at start-up, a connected flag, a
    bounded counter of automatic reconnection attempts and a single pending
    reconnection timer, driven by IPC messages from the renderer and by the
    client's `ready` and `disconnected` events.

    Each handler or timer callback is one atomic step. Timers are values:
    `setTimeout` records a timer in `pendingTimers` (the timers the event loop
    still has to run) and returns its handle; `clearTimeout` removes it; the
    event loop running a timer is the step `FireTimer`. */
module DiscordRpc {
  import opened Wrappers
  import opened DiscordClient

  const ClientId: string := "1349771102842392606"
  const MaxReconnectAttempts: nat := 5
  /** Unit of the reconnection delay, in milliseconds. */
  const ReconnectDelayUnit: nat := 5000
  const DefaultDetails: string := "En ligne"
  const NotConnectedMessage: string := "Non connecté à Discord"
  const UnknownErrorMessage: string := "Erreur inconnue"
  const PresenceUpdatedChannel: string := "PRESENCE_UPDATED"
  const RpcDisconnectedChannel: string := "RPC_DISCONNECTED"
  /** The handle of the single client object, created by the constructor. */
  const TheClient: nat := 0

  /** The fields of the presence object received with `UPDATE_PRESENCE` that
      the manager reads; an absent field is `None`. */
  datatype PresenceData = PresenceData(
    details: Option<string>,
    state: Option<string>,
    largeImageKey: Option<string>,
    largeImageText: Option<string>,
    smallImageKey: Option<string>,
    smallImageText: Option<string>)

  /** The activity object passed to `setActivity`. */
  datatype Activity = Activity(
    details: string,
    state: Option<string>,
    startTimestamp: int,
    largeImageKey: Option<string>,
    largeImageText: Option<string>,
    smallImageKey: Option<string>,
    smallImageText: Option<string>,
    instance: bool)

  /** A reply sent back to the renderer with `event.reply`. */
  datatype Reply = Reply(channel: string, success: bool, error: Option<string>)

  /** A timer handle returned by `setTimeout`, with the delay it was given. */
  datatype Timer = Timer(id: nat, delay: nat)

  /** A JavaScript string value is truthy when it is present and non-empty. */
  predicate Truthy(s: Option<string>) {
    s.Some? && s.value != ""
  }

  /** The activity `updatePresence` sends for `data` in a session that
      started at `start`. */
  function BuildActivity(data: PresenceData, start: int): (a: Activity)
    ensures a.details != ""
    ensures Truthy(data.details) ==> a.details == data.details.value
    ensures !Truthy(data.details) ==> a.details == DefaultDetails
    ensures a.state == data.state
    ensures a.largeImageKey == data.largeImageKey && a.largeImageText == data.largeImageText
    ensures a.smallImageKey == data.smallImageKey && a.smallImageText == data.smallImageText
    ensures a.startTimestamp == start && !a.instance
  {
    Activity(
      if Truthy(data.details) then data.details.value else DefaultDetails,
      data.state, start,
      data.largeImageKey, data.largeImageText, data.smallImageKey, data.smallImageText,
      false)
  }

  function Min(a: int, b: int): int {
    if a <= b then a else b
  }

  /** Delay before the next automatic reconnection, after `attempts` of them:
      it grows by one unit per attempt and is capped at five units. */
  function ReconnectDelay(attempts: nat): (d: nat)
    ensures ReconnectDelayUnit <= d <= 5 * ReconnectDelayUnit
    ensures d % ReconnectDelayUnit == 0
    ensures attempts < 5 ==> d == ReconnectDelayUnit * (attempts + 1)
  {
    ReconnectDelayUnit * Min(attempts + 1, 5)
  }

  /** The delay never shrinks as the attempts grow. */
  lemma ReconnectDelayMonotonic(a: nat, b: nat)
    requires a <= b
    ensures ReconnectDelay(a) <= ReconnectDelay(b)
  {
  }

  /** Every timer still to run is the one whose handle the manager holds. */
  ghost predicate PendingWithin(pending: set<Timer>, held: Option<Timer>) {
    forall t | t in pending :: held == Some(t)
  }

  /** Hence at most one reconnection timer is ever pending. */
  lemma AtMostOnePending(pending: set<Timer>, held: Option<Timer>)
    requires PendingWithin(pending, held)
    ensures |pending| <= 1
    ensures pending != {} ==> held.Some? && pending == {held.value}
  {
    if pending != {} {
      var t :| t in pending;
      assert pending == {t};
    }
  }

  class RpcManager {
    var isConnected: bool
    var reconnectAttempts: nat
    /** The handle last returned by `setTimeout`; like the source, it is not
        cleared when its timer runs. */
    var reconnectTimeout: Option<Timer>
    const startTimestamp: int

    /** The event loop's timers that have neither run nor been cleared. */
    var pendingTimers: set<Timer>
    var nextTimerId: nat
    /** Every call made on the client, in order. */
    var calls: seq<Call<Activity>>

    /** The automatic reconnection counter stays within its maximum, and a
        timer can only be pending while another attempt is allowed. */
    ghost predicate Valid()
      reads this
    {
      && reconnectAttempts <= MaxReconnectAttempts
      && PendingWithin(pendingTimers, reconnectTimeout)
      && (pendingTimers != {} ==> reconnectAttempts < MaxReconnectAttempts)
    }

    /** The manager is created when the module is loaded, at time `now`. */
    constructor (now: int)
      ensures Valid()
      ensures !isConnected && reconnectAttempts == 0 && reconnectTimeout == None
      ensures startTimestamp == now
      ensures pendingTimers == {} && calls == []
    {
      isConnected := false;
      reconnectAttempts := 0;
      reconnectTimeout := None;
      startTimestamp := now;
      pendingTimers := {};
      nextTimerId := 0;
      calls := [];
    }

    /** `connect`: nothing when already connected; otherwise log in, and the
        outcome of the login decides the new state and is what the caller
        sees (a failure is rethrown). */
    method Connect(login: Outcome) returns (r: Outcome)
      requires Valid()
      modifies this`isConnected, this`reconnectAttempts, this`calls
      ensures Valid()
      ensures old(isConnected) ==>
        (r == Done && isConnected && reconnectAttempts == old(reconnectAttempts) && calls == old(calls))
      ensures !old(isConnected) ==>
        (&& r == login
         && calls == old(calls) + [Login(TheClient, ClientId)]
         && isConnected == login.Done?
         && reconnectAttempts == (if login.Done? then 0 else old(reconnectAttempts)))
    {
      if isConnected {
        return Done;
      }
      calls := calls + [Login(TheClient, ClientId)];
      match login
      case Done =>
        isConnected := true;
        reconnectAttempts := 0;
        r := Done;
      case Threw(e) =>
        isConnected := false;
        r := Threw(e);
    }

    /** `disconnect`: cancel the held timer first, then destroy the client;
        only a successful destroy marks the manager disconnected. */
    method Disconnect(destroy: Outcome) returns (r: Outcome)
      requires Valid()
      modifies this
      ensures Valid()
      ensures reconnectTimeout == None && pendingTimers == {}
      ensures calls == old(calls) + [Destroy(TheClient)]
      ensures r == destroy
      ensures isConnected == (if destroy.Done? then false else old(isConnected))
      ensures reconnectAttempts == old(reconnectAttempts) && nextTimerId == old(nextTimerId)
    {
      AtMostOnePending(pendingTimers, reconnectTimeout);
      if reconnectTimeout.Some? {
        pendingTimers := pendingTimers - {reconnectTimeout.value};
        reconnectTimeout := None;
      }
      calls := calls + [Destroy(TheClient)];
      if destroy.Done? {
        isConnected := false;
      }
      r := destroy;
    }

    /** `attemptReconnect`: give up once the maximum number of attempts has
        been made; otherwise replace any held timer by a new one whose delay
        grows with the attempts made. */
    method AttemptReconnect()
      requires Valid()
      modifies this`reconnectTimeout, this`pendingTimers, this`nextTimerId
      ensures Valid()
      ensures old(reconnectAttempts) >= MaxReconnectAttempts ==>
        reconnectTimeout == old(reconnectTimeout) && pendingTimers == old(pendingTimers)
        && nextTimerId == old(nextTimerId)
      ensures old(reconnectAttempts) < MaxReconnectAttempts ==>
        var t := Timer(old(nextTimerId), ReconnectDelay(reconnectAttempts));
        reconnectTimeout == Some(t) && pendingTimers == {t} && nextTimerId == old(nextTimerId) + 1
    {
      if reconnectAttempts >= MaxReconnectAttempts {
        return;
      }
      AtMostOnePending(pendingTimers, reconnectTimeout);
      if reconnectTimeout.Some? {
        pendingTimers := pendingTimers - {reconnectTimeout.value};
      }
      var t := Timer(nextTimerId, ReconnectDelay(reconnectAttempts));
      nextTimerId := nextTimerId + 1;
      reconnectTimeout := Some(t);
      pendingTimers := pendingTimers + {t};
    }

    /** The event loop runs pending timer `t`: count one more attempt and
        connect; if that fails, try to schedule the next attempt. */
    method FireTimer(t: Timer, login: Outcome)
      requires Valid() && t in pendingTimers
      modifies this
      ensures Valid()
      ensures isConnected == (old(isConnected) || login.Done?)
      ensures reconnectAttempts ==
        (if !old(isConnected) && login.Done? then 0 else old(reconnectAttempts) + 1)
      ensures calls == old(calls) + (if old(isConnected) then [] else [Login(TheClient, ClientId)])
      ensures !old(isConnected) && login.Threw? && old(reconnectAttempts) + 1 < MaxReconnectAttempts ==>
        var next := Timer(old(nextTimerId), ReconnectDelay(old(reconnectAttempts) + 1));
        reconnectTimeout == Some(next) && pendingTimers == {next} && nextTimerId == old(nextTimerId) + 1
      ensures (old(isConnected) || login.Done? || old(reconnectAttempts) + 1 >= MaxReconnectAttempts) ==>
        reconnectTimeout == old(reconnectTimeout) && pendingTimers == {} && nextTimerId == old(nextTimerId)
    {
      AtMostOnePending(pendingTimers, reconnectTimeout);
      pendingTimers := pendingTimers - {t};
      reconnectAttempts := reconnectAttempts + 1;
      var r := Connect(login);
      if r.Threw? {
        AttemptReconnect();
      }
    }

    /** The client's `ready` event. */
    method OnReady()
      requires Valid()
      modifies this`isConnected, this`reconnectAttempts
      ensures Valid()
      ensures isConnected && reconnectAttempts == 0
    {
      isConnected := true;
      reconnectAttempts := 0;
    }

    /** The client's `disconnected` event. */
    method OnDisconnected()
      requires Valid()
      modifies this`isConnected, this`reconnectTimeout, this`pendingTimers, this`nextTimerId
      ensures Valid()
      ensures !isConnected
      ensures reconnectAttempts >= MaxReconnectAttempts ==>
        reconnectTimeout == old(reconnectTimeout) && pendingTimers == old(pendingTimers)
        && nextTimerId == old(nextTimerId)
      ensures reconnectAttempts < MaxReconnectAttempts ==>
        var t := Timer(old(nextTimerId), ReconnectDelay(reconnectAttempts));
        reconnectTimeout == Some(t) && pendingTimers == {t} && nextTimerId == old(nextTimerId) + 1
    {
      isConnected := false;
      AttemptReconnect();
    }

    /** `updatePresence`: refuse when not connected, without touching the
        client; otherwise send the activity built from `data` with the start
        time fixed at construction. */
    method UpdatePresence(data: PresenceData, setActivity: Outcome) returns (r: Outcome)
      requires Valid()
      modifies this`calls
      ensures Valid()
      ensures !isConnected ==> r == Threw(ErrorObject(NotConnectedMessage)) && calls == old(calls)
      ensures isConnected ==>
        (r == setActivity && calls == old(calls) + [SetActivity(TheClient, BuildActivity(data, startTimestamp))])
    {
      if !isConnected {
        return Threw(ErrorObject(NotConnectedMessage));
      }
      calls := calls + [SetActivity(TheClient, BuildActivity(data, startTimestamp))];
      r := setActivity;
    }

    /** The `UPDATE_PRESENCE` handler: connect if needed, send the presence,
        reply with the result, and on any failure try to reconnect. */
    method HandleUpdatePresence(data: PresenceData, login: Outcome, setActivity: Outcome)
      returns (reply: Reply)
      requires Valid()
      modifies this
      ensures Valid()
      ensures reply.channel == PresenceUpdatedChannel
      ensures var loginFailed := !old(isConnected) && login.Threw?;
        && (reply.success <==> !loginFailed && setActivity.Done?)
        && (reply.success ==> reply.error == None)
        && (loginFailed ==>
              (reply.error == Some(MessageOr(login.error, UnknownErrorMessage))
               && calls == old(calls) + [Login(TheClient, ClientId)]))
        && (!loginFailed ==>
              calls == old(calls) + (if old(isConnected) then [] else [Login(TheClient, ClientId)])
                       + [SetActivity(TheClient, BuildActivity(data, startTimestamp))])
        && (!loginFailed && setActivity.Threw? ==>
              reply.error == Some(MessageOr(setActivity.error, UnknownErrorMessage)))
      ensures isConnected == (old(isConnected) || login.Done?)
      ensures reconnectAttempts == (if !old(isConnected) && login.Done? then 0 else old(reconnectAttempts))
      ensures reply.success ==>
        reconnectTimeout == old(reconnectTimeout) && pendingTimers == old(pendingTimers)
        && nextTimerId == old(nextTimerId)
      ensures !reply.success && reconnectAttempts < MaxReconnectAttempts ==>
        var t := Timer(old(nextTimerId), ReconnectDelay(reconnectAttempts));
        reconnectTimeout == Some(t) && pendingTimers == {t} && nextTimerId == old(nextTimerId) + 1
      ensures !reply.success && reconnectAttempts >= MaxReconnectAttempts ==>
        reconnectTimeout == old(reconnectTimeout) && pendingTimers == old(pendingTimers)
        && nextTimerId == old(nextTimerId)
    {
      var failure: Option<Thrown> := None;
      if !isConnected {
        var c := Connect(login);
        if c.Threw? {
          failure := Some(c.error);
        }
      }
      if failure.None? {
        var u := UpdatePresence(data, setActivity);
        if u.Threw? {
          failure := Some(u.error);
        }
      }
      if failure.None? {
        reply := Reply(PresenceUpdatedChannel, true, None);
      } else {
        reply := Reply(PresenceUpdatedChannel, false, Some(MessageOr(failure.value, UnknownErrorMessage)));
        AttemptReconnect();
      }
    }

    /** The `DISCONNECT_RPC` handler: disconnect and reply with the result. */
    method HandleDisconnect(destroy: Outcome) returns (reply: Reply)
      requires Valid()
      modifies this
      ensures Valid()
      ensures reply.channel == RpcDisconnectedChannel
      ensures reply.success == destroy.Done?
      ensures destroy.Done? ==> reply.error == None && !isConnected
      ensures destroy.Threw? ==>
        (reply.error == Some(MessageOr(destroy.error, UnknownErrorMessage)) && isConnected == old(isConnected))
      ensures reconnectTimeout == None && pendingTimers == {}
      ensures calls == old(calls) + [Destroy(TheClient)]
      ensures reconnectAttempts == old(reconnectAttempts) && nextTimerId == old(nextTimerId)
    {
      var r := Disconnect(destroy);
      match r
      case Done =>
        reply := Reply(RpcDisconnectedChannel, true, None);
      case Threw(e) =>
        reply := Reply(RpcDisconnectedChannel, false, Some(MessageOr(e, UnknownErrorMessage)));
    }
  }
}
