/** Short conversations with a freshly started controller, each ending in
    what the bot's users would observe. They use only the contracts of the
    handlers, the parsers and the posting cycle. */
module Scenarios {
  import opened Records
  import opened Parsing
  import opened Menu
  import opened Poster
  import opened Bot

  /** Telegram outcomes for a message that requests a code successfully. */
  function CodeOk(client: Client, hash: string): Outcomes
  {
    Outcomes(client, CodeSent(hash), SignInError, PasswordRejected)
  }

  /** Telegram outcomes for a message whose code sign-in has the result `s`. */
  function SignIn(s: SignInOutcome): Outcomes
  {
    Outcomes(Client(0), SendCodeFailed, s, PasswordRejected)
  }

  /** A controller on which `u` has just signed in with a phone number and a
      code. */
  method SignedInBot(u: UserId, phone: string, code: string, client: Client, hash: string)
      returns (bot: Controller)
    ensures fresh(bot) && bot.Valid()
    ensures bot.usersDb == map[u := DefaultAccount(client)]
    ensures bot.userState == map[u := None]
    ensures bot.tasks == multiset{u}
  {
    bot := new Controller();
    var pressed := bot.CallbackHandler(u, AddAccount, Disconnected);
    assert bot.userState == map[u := Some(AwaitPhone)];
    var asked := bot.InputHandler(u, phone, CodeOk(client, hash));
    assert bot.usersDb == map[];
    var done := bot.InputHandler(u, code, SignIn(SignedIn));
  }

  /** Signing in with a phone number and a code gives the default record,
      whatever the phone number was: posting off, no groups, a delay of 10
      and the placeholder text. */
  method SignInGivesDefaults(u: UserId, phone: string, code: string, client: Client, hash: string)
      returns (record: Option<Account>)
    ensures record == Some(Account(client, DefaultText, [], 10, false))
  {
    var bot := SignedInBot(u, phone, code, client, hash);
    record := if u in bot.usersDb then Some(bot.usersDb[u]) else None;
  }

  /** An expired code ends the interaction: the next message is ignored and
      no record exists until "add account" is pressed again. */
  method ExpiredCodeThenIgnored(u: UserId, phone: string, code: string, later: string, client: Client, hash: string)
      returns (expired: InputReply, next: InputReply, registered: bool)
    ensures expired == CodeExpiredRestart && next == Ignored && !registered
  {
    var bot := new Controller();
    var pressed := bot.CallbackHandler(u, AddAccount, Disconnected);
    var asked := bot.InputHandler(u, phone, CodeOk(client, hash));
    expired := bot.InputHandler(u, code, SignIn(CodeExpired));
    next := bot.InputHandler(u, later, SignIn(SignedIn));
    registered := u in bot.usersDb;
  }

  /** A failed code request keeps the phone stage: a second attempt with a
      working request reaches the code stage. */
  method CodeRequestRetried(u: UserId, phone: string, client: Client, hash: string)
      returns (first: InputReply, second: InputReply, stage: Option<Pending>)
    ensures first == CodeRequestFailed && second == CodeRequested
    ensures stage == Some(AwaitCode(RemoveSpaces(Strip(phone)), client, hash))
  {
    var bot := new Controller();
    var pressed := bot.CallbackHandler(u, AddAccount, Disconnected);
    first := bot.InputHandler(u, phone, Outcomes(client, SendCodeFailed, SignInError, PasswordRejected));
    second := bot.InputHandler(u, phone, CodeOk(client, hash));
    stage := PendingIn(bot.userState, u);
  }

  /** A reply of "abc" to the interval prompt leaves the delay at 10 and the
      prompt open. */
  method NonNumericDelayIgnored(u: UserId, phone: string, code: string, client: Client, hash: string)
      returns (reply: InputReply, delay: nat, stage: Option<Pending>)
    ensures reply == DelayIgnored && delay == 10 && stage == Some(AwaitDelay)
  {
    var bot := SignedInBot(u, phone, code, client, hash);
    var pressed := bot.CallbackHandler(u, EditDelay, Disconnected);
    assert !IsDigits("abc") by {
      assert !IsDigit("abc"[0]);
    }
    StripUnchanged("abc");
    reply := bot.InputHandler(u, "abc", SignIn(SignedIn));
    delay := bot.usersDb[u].delay;
    stage := PendingIn(bot.userState, u);
  }

  /** Logging out while the text prompt is open leaves the prompt in place, so
      the reply hits the missing record. */
  method ReplyAfterLogout(u: UserId, phone: string, code: string, client: Client, hash: string, reply: string)
      returns (loggedOut: CallbackReply, outcome: InputReply)
    ensures loggedOut == LoggedOut([[Inline(AddAccountLabel, AddAccount)]])
    ensures outcome == MissingAccount
  {
    var bot := SignedInBot(u, phone, code, client, hash);
    var pressed := bot.CallbackHandler(u, EditText, Disconnected);
    loggedOut := bot.CallbackHandler(u, DeleteAccount, DisconnectFailed);
    outcome := bot.InputHandler(u, reply, SignIn(SignedIn));
  }

  /** A reply naming two destinations separated by a space is read as those
      two destinations. */
  lemma TwoHandles(a: string, b: string)
    requires IsWord(a) && IsHandle(a) && IsWord(b) && IsHandle(b)
    ensures ParseGroups(Strip(a + " " + b)) == [a, b]
  {
    assert JoinWords([a, b]) == a + " " + b;
    ParseGroupsOfJoin([a, b]);
    StripUnchanged(a + " " + b);
  }

  /** A signed-in controller after the destinations were set to `a` and `b`. */
  method GroupsBot(u: UserId, phone: string, code: string, client: Client, hash: string, a: string, b: string)
      returns (bot: Controller)
    requires IsWord(a) && IsHandle(a) && IsWord(b) && IsHandle(b)
    ensures fresh(bot) && bot.Valid()
    ensures bot.usersDb == map[u := Account(client, DefaultText, [a, b], 10, false)]
  {
    bot := SignedInBot(u, phone, code, client, hash);
    var pressed := bot.CallbackHandler(u, ManageGroups, Disconnected);
    assert PendingIn(bot.userState, u) == Some(AwaitGroups);
    TwoHandles(a, b);
    var saved := bot.InputHandler(u, a + " " + b, SignIn(SignedIn));
  }

  /** The same controller once posting was switched on. */
  method PostingBot(u: UserId, phone: string, code: string, client: Client, hash: string, a: string, b: string)
      returns (bot: Controller)
    requires IsWord(a) && IsHandle(a) && IsWord(b) && IsHandle(b)
    ensures fresh(bot) && bot.Valid()
    ensures bot.usersDb == map[u := Account(client, DefaultText, [a, b], 10, true)]
  {
    bot := GroupsBot(u, phone, code, client, hash, a, b);
    var pressed := bot.CallbackHandler(u, ToggleStatus, Disconnected);
  }

  /** With destinations `a b` (for instance "@a @b") and posting switched on,
      a cycle posts the text to a then b, pausing 2 after each, then sleeps
      the 10-second delay; the failed first send does not stop the second. */
  method PostToTwoGroups(u: UserId, phone: string, code: string, client: Client, hash: string, a: string, b: string)
      returns (trace: seq<Action>)
    requires IsWord(a) && IsHandle(a) && IsWord(b) && IsHandle(b)
    ensures trace == [Send(a, DefaultText), Sleep(2), Send(b, DefaultText), Sleep(2), Sleep(10)]
  {
    var bot := PostingBot(u, phone, code, client, hash, a, b);
    var record := bot.usersDb[u];
    var obs := [Observation(true, record.text, false), Observation(true, record.text, true)];
    assert SendRun([b], obs[1..]) == [Send(b, DefaultText), Sleep(2)];
    trace := PostingCycle(Some(record), obs, record.delay);
  }

  /** Logging out and signing in again starts a second posting task for the
      same user, since the first one never ends: both then read the new
      record. */
  method SignInAgainSecondTask(u: UserId, phone: string, code: string, client: Client, client': Client, hash: string)
      returns (ghost taskCount: nat)
    ensures taskCount == 2
  {
    var bot := SignedInBot(u, phone, code, client, hash);
    assert bot.tasks[u] == 1;
    var pressed := bot.CallbackHandler(u, DeleteAccount, Disconnected);
    pressed := bot.CallbackHandler(u, AddAccount, Disconnected);
    assert bot.usersDb == map[];
    var asked := bot.InputHandler(u, phone, CodeOk(client', hash));
    assert PendingIn(bot.userState, u).value.AwaitCode?;
    var done := bot.InputHandler(u, code, SignIn(SignedIn));
    taskCount := bot.tasks[u];
  }

  /** Two handles separated by a TAB are read as those two handles, just as
      with a single space. */
  lemma TabBetweenHandles(a: string, b: string)
    requires IsWord(a) && IsHandle(a) && IsWord(b) && IsHandle(b)
    ensures ParseGroups(a + "\t" + b) == [a, b]
  {
    ParseGroupsOfJoin([a]);
    ParseGroupsOfJoin([b]);
    ParseGroupsSplitAt(a, '\t', b);
    assert a + "\t" + b == a + ['\t'] + b;
  }

  /** Two handles separated by two spaces are read as those two handles. */
  lemma TwoSpacesBetweenHandles(a: string, b: string)
    requires IsWord(a) && IsHandle(a) && IsWord(b) && IsHandle(b)
    ensures ParseGroups(a + "  " + b) == [a, b]
  {
    var sb := [' '] + b;
    ParseGroupsOfJoin([a]);
    ParseGroupsOfJoin([b]);
    ParseGroupsOfSpaces([]);
    ParseGroupsSplitAt([], ' ', b);
    assert [] + [' '] + b == sb;
    ParseGroupsSplitAt(a, ' ', sb);
    assert a + "  " + b == a + [' '] + sb;
  }
}
