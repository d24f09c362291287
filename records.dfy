/** The entities of the posting bot: account records kept per user, and the
    interaction a user is in the middle of. */
module Records {

  datatype Option<T> = None | Some(value: T)

  /** Telegram sender id of the user who controls the bot. */
  type UserId = int

  /** Opaque handle of the per-user Telegram client created at the phone step
      (one session file per user); the transport itself is not modelled. */
  datatype Client = Client(handle: nat)

  /** One authorized account: its client, the post body, the destinations,
      the pause between cycles in seconds, and whether posting is enabled. */
  datatype Account = Account(
    client: Client,
    text: string,
    groups: seq<string>,
    delay: nat,
    running: bool)

  /** Post body given to every new account ("automatic post"). */
  const DefaultText: string := "منشور تلقائي"

  /** Pause between cycles given to every new account. */
  const DefaultDelay: nat := 10

  /** The record created when a sign-in succeeds. */
  function DefaultAccount(client: Client): Account
  {
    Account(client, DefaultText, [], DefaultDelay, false)
  }

  /** The pending interaction of a user: the value of its "step" key together
      with the scratch data kept beside it. */
  datatype Pending =
    | AwaitPhone
    | AwaitCode(phone: string, client: Client, hash: string)
    | AwaitPassword(phone: string, client: Client, hash: string)
    | AwaitText
    | AwaitDelay
    | AwaitGroups
}
