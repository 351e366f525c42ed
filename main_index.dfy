/** The message handlers of the main entry point. Its own copy of
    `getRunningApplications` is the same code as the one in the
    applications module and is modelled by `Applications.RunningApplications`;
    the other handlers are stubs. */
module MainIndex {
  import opened Wrappers
  import opened Applications

  const GetAppsFailedMessage: string := "Failed to get running applications"
  const PresenceUpdatedChannel: string := "PRESENCE_UPDATED"

  /** The reply to `GET_RUNNING_APPS`: `{success: true, data}` or `{success: false, error}`. */
  datatype AppsReply = AppsListed(data: seq<Application>) | AppsFailed(error: string)

  /** The `try`/`catch` around the listing: a resolved list is wrapped as
      data, a rejection becomes the fixed error message. */
  function AppsEnvelope(listing: Result<seq<Application>>): (reply: AppsReply)
    ensures listing.Success? <==> reply.AppsListed?
    ensures listing.Success? ==> reply.data == listing.value
    ensures listing.Failure? ==> reply == AppsFailed(GetAppsFailedMessage)
  {
    match listing
    case Success(apps) => AppsListed(apps)
    case Failure(_) => AppsFailed(GetAppsFailedMessage)
  }

  /** `GET_RUNNING_APPS` when the command gave `output`: the listing itself
      never rejects (it catches every error and resolves to `[]`). */
  function HandleGetRunningApps(output: Result<string>): (reply: AppsReply)
    ensures reply.AppsListed? && reply.data == RunningApplications(output)
  {
    AppsEnvelope(Success(RunningApplications(output)))
  }

  /** So the reply is always a success: the sorted, filtered list, and the
      empty list when the command failed. The error reply cannot happen. */
  lemma GetRunningAppsAlwaysSucceeds(output: Result<string>)
    ensures HandleGetRunningApps(output).AppsListed?
    ensures HandleGetRunningApps(output).data == RunningApplications(output)
    ensures output.Failure? ==> HandleGetRunningApps(output) == AppsListed([])
    ensures SortedByName(HandleGetRunningApps(output).data)
    ensures forall a :: a in HandleGetRunningApps(output).data ==> NotSystem(a.name)
  {
    if output.Success? {
      RunningApplicationsProperties(output.value);
    }
  }

  /** `event.reply(channel, {success})` */
  datatype Reply = Reply(channel: string, success: bool)

  /** The `UPDATE_PRESENCE` stub: it only logs the presence and acknowledges. */
  function HandleUpdatePresence<P>(presence: P): (r: Reply)
    ensures r.channel == PresenceUpdatedChannel && r.success
  {
    Reply(PresenceUpdatedChannel, true)
  }

  /** The acknowledgement does not depend on what was sent. */
  lemma UpdatePresenceIgnoresInput<P>(p: P, q: P)
    ensures HandleUpdatePresence(p) == HandleUpdatePresence(q)
  {
  }
}
