/** The preload bridge: the `ipcRenderer` object given to the renderer,
    whose `send`, `on`, `removeListener` and `invoke` pass a call on to
    Electron only for channels on a fixed list.

    Electron's listener registry is a value here: the sequence of
    `(channel, listener)` registrations, in the order they were added. A
    renderer function is named by a handle. */
module Preload {
  import opened Wrappers

  const SendChannels: seq<string> := [
    "SELECT_APPLICATION", "UPDATE_PRESENCE", "DISCONNECT_RPC", "OPEN_EXTERNAL_LINK",
    "SHOW_APP_MENU", "SHOW_ABOUT", "UPDATE_SETTINGS"]

  /** The channels `on` accepts. */
  const ListenChannels: seq<string> := [
    "PRESENCE_UPDATED", "RPC_DISCONNECTED", "DISCORD_CONNECTED", "DISCORD_DISCONNECTED",
    "DISCORD_ERROR", "APP_UPDATE_AVAILABLE", "APP_UPDATE_DOWNLOADED"]

  /** The channels `removeListener` accepts, written out separately. */
  const UnlistenChannels: seq<string> := [
    "PRESENCE_UPDATED", "RPC_DISCONNECTED", "DISCORD_CONNECTED", "DISCORD_DISCONNECTED",
    "DISCORD_ERROR", "APP_UPDATE_AVAILABLE", "APP_UPDATE_DOWNLOADED"]

  const InvokeChannels: seq<string> := [
    "GET_RUNNING_APPS", "INITIALIZE_DISCORD", "GET_RUNNING_APPS_WITH_ICONS", "GET_APP_ICON",
    "GET_DISCORD_STATUS", "GET_APP_VERSION", "CHECK_FOR_UPDATES"]

  /** What `send` does with a message: pass it on, or drop it silently. */
  datatype Sent<A> = Forwarded(channel: string, args: A) | Dropped

  function Send<A>(channel: string, args: A): (r: Sent<A>)
    ensures r.Forwarded? <==> channel in SendChannels
    ensures r.Forwarded? ==> r == Forwarded(channel, args)
  {
    if channel in SendChannels then Forwarded(channel, args) else Dropped
  }

  /** What `invoke` returns: the main process's answer to the forwarded
      request, or a rejected promise. */
  datatype Invoked<A> = Requested(channel: string, args: A) | Rejected(error: Thrown)

  function NotAllowedMessage(channel: string): string {
    "Channel " + channel + " is not allowed"
  }

  function Invoke<A>(channel: string, args: A): (r: Invoked<A>)
    ensures r.Requested? <==> channel in InvokeChannels
    ensures r.Requested? ==> r == Requested(channel, args)
    ensures r.Rejected? ==> r.error == ErrorObject(NotAllowedMessage(channel))
  {
    if channel in InvokeChannels then Requested(channel, args)
    else Rejected(ErrorObject(NotAllowedMessage(channel)))
  }

  /** The rejection names the channel: two refused channels give two
      different messages. */
  lemma NotAllowedNamesChannel(c1: string, c2: string)
    ensures NotAllowedMessage(c1) == NotAllowedMessage(c2) ==> c1 == c2
  {
    var prefix := "Channel ";
    if NotAllowedMessage(c1) == NotAllowedMessage(c2) {
      var m := NotAllowedMessage(c1);
      assert |c1| == |c2|;
      assert c1 == m[|prefix|..|prefix| + |c1|];
      assert c2 == NotAllowedMessage(c2)[|prefix|..|prefix| + |c2|];
    }
  }

  /** A registered listener: a renderer function itself, or the wrapper `on`
      creates, which logs the message and then calls the function. */
  datatype Listener = Function(func: nat) | Wrapper(func: nat)

  type Registry = seq<(string, Listener)>

  /** The renderer functions a message on `channel` ends up calling, in
      registration order. */
  function Called(reg: Registry, channel: string): (fs: seq<nat>)
    ensures |fs| <= |reg|
  {
    if |reg| == 0 then []
    else
      var last := reg[|reg| - 1];
      Called(reg[..|reg| - 1], channel) + (if last.0 == channel then [last.1.func] else [])
  }

  /** `on(channel, func)`: register a wrapper around `func`, for a listed
      channel only. */
  function On(reg: Registry, channel: string, func: nat): (r: Registry)
    ensures channel in ListenChannels ==> r == reg + [(channel, Wrapper(func))]
    ensures channel !in ListenChannels ==> r == reg
  {
    if channel in ListenChannels then reg + [(channel, Wrapper(func))] else reg
  }

  /** Electron's `removeListener`: remove the most recent registration equal
      to `entry`, if there is one. */
  function RemoveLast(reg: Registry, entry: (string, Listener)): (r: Registry)
    ensures entry !in reg ==> r == reg
    ensures entry in reg ==> |r| == |reg| - 1
    ensures entry in reg ==> multiset(r) == multiset(reg) - multiset{entry}
    ensures multiset(r) <= multiset(reg)
  {
    if |reg| == 0 then []
    else
      assert reg == reg[..|reg| - 1] + [reg[|reg| - 1]];
      if reg[|reg| - 1] == entry then reg[..|reg| - 1]
      else
        assert entry in reg ==> entry in reg[..|reg| - 1];
        RemoveLast(reg[..|reg| - 1], entry) + [reg[|reg| - 1]]
  }

  /** A last registration other than `entry` stays last. */
  lemma RemoveLastStep(reg: Registry, entry: (string, Listener))
    requires |reg| > 0 && reg[|reg| - 1] != entry
    ensures RemoveLast(reg, entry) == RemoveLast(reg[..|reg| - 1], entry) + [reg[|reg| - 1]]
  {
  }

  /** The registration removed is the last one equal to `entry`: the entries
      before and after it stay, in order. */
  lemma {:induction false} RemoveLastIsLastOccurrence(reg: Registry, entry: (string, Listener), k: nat)
    requires k < |reg| && reg[k] == entry && entry !in reg[k + 1..]
    ensures RemoveLast(reg, entry) == reg[..k] + reg[k + 1..]
  {
    var n := |reg| - 1;
    if k < n {
      var init := reg[..n];
      SliceAroundLast(reg, k);
      assert reg[n] in reg[k + 1..];
      RemoveLastStep(reg, entry);
      RemoveLastIsLastOccurrence(init, entry, k);
    }
  }

  /** How the slices around position `k` of a sequence relate to those of
      the sequence without its last element. */
  lemma SliceAroundLast<T>(s: seq<T>, k: nat)
    requires k < |s| - 1
    ensures s[..|s| - 1][..k] == s[..k]
    ensures s[k + 1..] == s[..|s| - 1][k + 1..] + [s[|s| - 1]]
  {
  }

  /** `removeListener(channel, func)` as written: it asks Electron to remove
      `func` itself, for a listed channel only. */
  function RemoveListener(reg: Registry, channel: string, func: nat): (r: Registry)
    ensures channel !in UnlistenChannels || (channel, Function(func)) !in reg ==> r == reg
    ensures channel in UnlistenChannels && (channel, Function(func)) in reg ==> |r| == |reg| - 1
    ensures channel in UnlistenChannels && (channel, Function(func)) in reg ==>
      multiset(r) == multiset(reg) - multiset{(channel, Function(func))}
    ensures multiset(r) <= multiset(reg)
  {
    if channel in UnlistenChannels then RemoveLast(reg, (channel, Function(func))) else reg
  }

  /** The two lists of listening channels are the same list. */
  lemma ListenListsAgree()
    ensures ListenChannels == UnlistenChannels
  {
  }

  /** The channels the renderer uses are all let through. */
  lemma RendererChannelsAllowed()
    ensures "GET_RUNNING_APPS" in InvokeChannels
    ensures "SELECT_APPLICATION" in SendChannels && "UPDATE_PRESENCE" in SendChannels
    ensures "DISCONNECT_RPC" in SendChannels && "UPDATE_SETTINGS" in SendChannels
    ensures "PRESENCE_UPDATED" in ListenChannels && "RPC_DISCONNECTED" in ListenChannels
  {
  }

  /** Removing one registration keeps every registration that differs from it. */
  lemma {:induction false} RemoveLastKeepsOthers(reg: Registry, entry: (string, Listener), x: (string, Listener))
    requires x in reg && x != entry
    ensures x in RemoveLast(reg, entry)
  {
    if reg[|reg| - 1] != x {
      assert x in reg[..|reg| - 1] by {
        var k :| 0 <= k < |reg| && reg[k] == x;
        assert reg[..|reg| - 1][k] == x;
      }
      if reg[|reg| - 1] != entry {
        RemoveLastKeepsOthers(reg[..|reg| - 1], entry, x);
      }
    }
  }

  /** As written, removing a listener the bridge registered leaves the
      wrapper `on` added registered, so a later message still calls the
      function; in a registry that the bridge alone filled, it does nothing
      at all. */
  lemma RemoveListenerLeavesWrapper(reg: Registry, channel: string, func: nat)
    requires channel in ListenChannels
    ensures (channel, Wrapper(func)) in RemoveListener(On(reg, channel, func), channel, func)
    ensures (channel, Function(func)) !in reg ==>
      RemoveListener(On(reg, channel, func), channel, func) == On(reg, channel, func)
  {
    var r0 := On(reg, channel, func);
    assert r0[|r0| - 1] == (channel, Wrapper(func));
    if (channel, Function(func)) in r0 {
      // Electron removes the plain function registered earlier, not the wrapper.
      RemoveLastKeepsOthers(r0, (channel, Function(func)), (channel, Wrapper(func)));
    }
  }

  /** A concrete case: a registry with no listeners, one `on` and the
      matching `removeListener`, and the function is still called. */
  lemma RemoveListenerCounterexample()
    ensures Called(RemoveListener(On([], "PRESENCE_UPDATED", 7), "PRESENCE_UPDATED", 7), "PRESENCE_UPDATED") == [7]
  {
    var r := On([], "PRESENCE_UPDATED", 7);
    assert r == [("PRESENCE_UPDATED", Wrapper(7))];
    assert ("PRESENCE_UPDATED", Function(7)) !in r;
    assert r[..0] == [];
  }

  /** `removeListener` as intended: remove the wrapper `on` registered for
      `func`. */
  function RemoveListenerFixed(reg: Registry, channel: string, func: nat): (r: Registry)
    ensures channel !in UnlistenChannels ==> r == reg
    ensures multiset(r) <= multiset(reg)
  {
    if channel in UnlistenChannels then RemoveLast(reg, (channel, Wrapper(func))) else reg
  }

  /** Then `removeListener` undoes `on` exactly, on every channel. */
  lemma RemoveListenerFixedUndoesOn(reg: Registry, channel: string, func: nat)
    ensures RemoveListenerFixed(On(reg, channel, func), channel, func) == reg
  {
    ListenListsAgree();
  }

  /** The fixed version stops the function from being called by this
      registration: one call fewer than before. */
  lemma RemoveListenerFixedStopsCalls(reg: Registry, channel: string, func: nat)
    requires channel in ListenChannels
    ensures Called(RemoveListenerFixed(On(reg, channel, func), channel, func), channel) == Called(reg, channel)
    ensures Called(On(reg, channel, func), channel) == Called(reg, channel) + [func]
  {
    RemoveListenerFixedUndoesOn(reg, channel, func);
    var r := On(reg, channel, func);
    assert r[..|r| - 1] == reg;
  }
}
