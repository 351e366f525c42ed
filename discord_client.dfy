/** The calls the application makes on a `discord-rpc` `Client` object. The
    library itself is not modelled: each call either resolves or rejects, and
    the outcome is an input of the operation that makes the call. Every call
    made is recorded, so that contracts can say which calls an operation
    made and which it did not. */
module DiscordClient {

  /** A client object is named by a handle; `A` is the activity format the
      caller sends. */
  datatype Call<A> =
    | Login(client: nat, clientId: string)
    | SetActivity(client: nat, activity: A)
    | ClearActivity(client: nat)
    | Destroy(client: nat)
}
