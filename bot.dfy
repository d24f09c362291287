/** The controller behind the bot's two event handlers: the table of signed-in
    accounts (`users_db`), the table of pending interactions (`user_state`),
    the callback handler for button presses and the input handler for free
    text. Every Telegram call they make is an outcome passed in by the
    caller; the replies they send are returned as values without their text. */
module Bot {
  import opened Records
  import opened Parsing
  import opened Menu

  /** Result of `send_code_request`: the code's hash, or any exception. */
  datatype SendCodeOutcome = CodeSent(hash: string) | SendCodeFailed

  /** Result of `sign_in` with a code: success, a two-step password is
      required, the code has expired, or any other exception (an invalid code
      among them). */
  datatype SignInOutcome = SignedIn | PasswordNeeded | CodeExpired | SignInError

  /** Result of `sign_in` with the two-step password. */
  datatype PasswordOutcome = PasswordAccepted | PasswordRejected

  /** Result of `disconnect` at logout. */
  datatype DisconnectOutcome = Disconnected | DisconnectFailed

  /** What the Telegram side does when a message is handled: the client a
      phone reply constructs, and the result of each call a stage can make.
      Only the field the current stage uses is consulted. */
  datatype Outcomes = Outcomes(
    client: Client,
    sendCode: SendCodeOutcome,
    signIn: SignInOutcome,
    password: PasswordOutcome)

  /** Which answer the input handler gives. `Ignored` and `DelayIgnored`
      send nothing; `MissingAccount` is the KeyError raised when a configuration
      reply arrives from a user who has no record any more. */
  datatype InputReply =
    | Ignored
    | CodeRequested
    | CodeRequestFailed
    | Authorized
    | PasswordRequested
    | CodeExpiredRestart
    | SignInFailed
    | PasswordWrong
    | TextSaved
    | DelaySet(seconds: nat)
    | DelayIgnored
    | GroupsSaved(count: nat)
    | MissingAccount

  /** Which answer the callback handler gives: none, a prompt for the stage
      just entered, the refreshed menu, or the logout notice with its menu. */
  datatype CallbackReply =
    | NoAction
    | Prompted(stage: Pending)
    | MenuShown(keyboard: Keyboard)
    | LoggedOut(keyboard: Keyboard)

  /** The stage a configuration button opens. */
  function EditStage(c: CallbackData): Option<Pending>
  {
    match c
    case EditText => Some(AwaitText)
    case EditDelay => Some(AwaitDelay)
    case ManageGroups => Some(AwaitGroups)
    case _ => None
  }

  /** Every stored destination is a whitespace-free token starting with '@'. */
  predicate GroupsOk(gs: seq<string>)
  {
    forall i :: 0 <= i < |gs| ==> IsWord(gs[i]) && IsHandle(gs[i])
  }

  /** A phone number carried by a pending sign-in holds no SPACE. */
  predicate PhoneOk(p: Pending)
  {
    (p.AwaitCode? || p.AwaitPassword?) ==> forall i :: 0 <= i < |p.phone| ==> p.phone[i] != ' '
  }

  /** The pending interaction the input handler sees for `u`: an absent key
      and a `None` value are treated alike. */
  function PendingIn(userState: map<UserId, Option<Pending>>, u: UserId): Option<Pending>
  {
    if u in userState then userState[u] else None
  }

  /** The invariant of the two tables and the spawned tasks. */
  ghost predicate Consistent(db: map<UserId, Account>, st: map<UserId, Option<Pending>>, tasks: multiset<UserId>)
  {
    && (forall v :: v in db ==> v in tasks)
    && (forall v :: v in db ==> GroupsOk(db[v].groups))
    && (forall v :: v in st && st[v].Some? ==> PhoneOk(st[v].value))
  }

  /** Entering a stage keeps the invariant. */
  lemma EnterStageConsistent(db: map<UserId, Account>, st: map<UserId, Option<Pending>>, tasks: multiset<UserId>,
                             u: UserId, p: Option<Pending>)
    requires Consistent(db, st, tasks)
    requires p.Some? ==> PhoneOk(p.value)
    ensures Consistent(db, st[u := p], tasks)
  {
  }

  /** Creating a record together with its posting task keeps the invariant. */
  lemma SignInConsistent(db: map<UserId, Account>, st: map<UserId, Option<Pending>>, tasks: multiset<UserId>,
                         u: UserId, client: Client)
    requires Consistent(db, st, tasks)
    ensures Consistent(db[u := DefaultAccount(client)], st[u := None], tasks + multiset{u})
  {
  }

  /** Replacing an existing record by one with well-formed groups keeps the
      invariant. */
  lemma UpdateConsistent(db: map<UserId, Account>, st: map<UserId, Option<Pending>>, tasks: multiset<UserId>,
                         u: UserId, a: Account)
    requires Consistent(db, st, tasks)
    requires u in db && GroupsOk(a.groups)
    ensures Consistent(db[u := a], st, tasks)
  {
  }

  /** Removing a record keeps the invariant. */
  lemma RemoveConsistent(db: map<UserId, Account>, st: map<UserId, Option<Pending>>, tasks: multiset<UserId>, u: UserId)
    requires Consistent(db, st, tasks)
    ensures Consistent(db - {u}, st, tasks)
  {
  }

  class Controller {
    /** `users_db`: the record of every signed-in user. */
    var usersDb: map<UserId, Account>
    /** `user_state`: the pending interaction of a user; `None` once an
        interaction has completed, no key if none was ever started. */
    var userState: map<UserId, Option<Pending>>
    /** One entry per `poster_task` ever started, keyed by its user. The tasks
        never end: once a record is gone they only idle. */
    ghost var tasks: multiset<UserId>

    /** Every signed-in user has a posting task, every stored destination list
        came out of the '@' filter, and pending phone numbers are normalised. */
    ghost predicate Valid()
      reads this
    {
      Consistent(usersDb, userState, tasks)
    }

    constructor ()
      ensures Valid()
      ensures usersDb == map[] && userState == map[] && tasks == multiset{}
    {
      usersDb := map[];
      userState := map[];
      tasks := multiset{};
    }

    /** `callback_handler`: a button press by `u`. */
    method CallbackHandler(u: UserId, data: CallbackData, disconnect: DisconnectOutcome)
        returns (r: CallbackReply)
      requires Valid()
      modifies this
      ensures Valid()
      ensures tasks == old(tasks)
      // A press the handler has no branch for changes nothing.
      ensures !Honoured(old(u in usersDb), data) ==>
        r == NoAction && usersDb == old(usersDb) && userState == old(userState)
      // "Add account" always (re)starts the sign-in, registered or not.
      ensures data == AddAccount ==>
        && usersDb == old(usersDb)
        && userState == old(userState)[u := Some(AwaitPhone)]
        && r == Prompted(AwaitPhone)
      // The status toggle flips `running` of u's record only.
      ensures data == ToggleStatus && u in old(usersDb) ==>
        var a := old(usersDb)[u];
        && usersDb == old(usersDb)[u := a.(running := !a.running)]
        && userState == old(userState)
        && r == MenuShown(MainKeyboard(usersDb, u))
      // The configuration buttons open their stage.
      ensures EditStage(data).Some? && u in old(usersDb) ==>
        && usersDb == old(usersDb)
        && userState == old(userState)[u := EditStage(data)]
        && r == Prompted(EditStage(data).value)
      // Logout removes u's record, whatever the disconnect did, and leaves
      // every pending interaction in place.
      ensures data == DeleteAccount && u in old(usersDb) ==>
        && usersDb == old(usersDb) - {u}
        && userState == old(userState)
        && r == LoggedOut(MainKeyboard(usersDb, u))
    {
      var registered := u in usersDb;
      if data == AddAccount {
        EnterStageConsistent(usersDb, userState, tasks, u, Some(AwaitPhone));
        userState := userState[u := Some(AwaitPhone)];
        r := Prompted(AwaitPhone);
      } else if data == ToggleStatus && registered {
        UpdateConsistent(usersDb, userState, tasks, u, usersDb[u].(running := !usersDb[u].running));
        usersDb := usersDb[u := usersDb[u].(running := !usersDb[u].running)];
        r := MenuShown(MainKeyboard(usersDb, u));
      } else if data == EditText && registered {
        EnterStageConsistent(usersDb, userState, tasks, u, Some(AwaitText));
        userState := userState[u := Some(AwaitText)];
        r := Prompted(AwaitText);
      } else if data == EditDelay && registered {
        EnterStageConsistent(usersDb, userState, tasks, u, Some(AwaitDelay));
        userState := userState[u := Some(AwaitDelay)];
        r := Prompted(AwaitDelay);
      } else if data == ManageGroups && registered {
        EnterStageConsistent(usersDb, userState, tasks, u, Some(AwaitGroups));
        userState := userState[u := Some(AwaitGroups)];
        r := Prompted(AwaitGroups);
      } else if data == DeleteAccount && registered {
        // The disconnect is attempted first; any exception from it is
        // swallowed, so `disconnect` has no influence on what follows.
        RemoveConsistent(usersDb, userState, tasks, u);
        usersDb := usersDb - {u};
        r := LoggedOut(MainKeyboard(usersDb, u));
      } else {
        r := NoAction;
      }
    }

    /** `input_handler`: a text message from `u`, dispatched on u's stage
        after the message has been stripped. */
    method InputHandler(u: UserId, message: string, env: Outcomes) returns (r: InputReply)
      requires Valid()
      modifies this
      ensures Valid()
      // Without a pending interaction the message is ignored.
      ensures PendingIn(old(userState), u).None? ==>
        && r == Ignored
        && usersDb == old(usersDb) && userState == old(userState) && tasks == old(tasks)
      // Phone: on success the code stage holds the normalised number, the new
      // client and the hash; on failure the stage stays at phone.
      ensures PendingIn(old(userState), u) == Some(AwaitPhone) ==>
        && usersDb == old(usersDb) && tasks == old(tasks)
        && (env.sendCode.CodeSent? ==>
              && userState == old(userState)[u := Some(AwaitCode(RemoveSpaces(Strip(message)), env.client, env.sendCode.hash))]
              && r == CodeRequested)
        && (env.sendCode.SendCodeFailed? ==>
              userState == old(userState) && r == CodeRequestFailed)
      // Code: success creates the default record and one posting task; a
      // required password moves to the password stage keeping phone, client
      // and hash; expiry clears the interaction; any other error retries.
      ensures PendingIn(old(userState), u).Some? && PendingIn(old(userState), u).value.AwaitCode? ==>
        var p := PendingIn(old(userState), u).value;
        match env.signIn
        case SignedIn =>
          && usersDb == old(usersDb)[u := DefaultAccount(p.client)]
          && tasks == old(tasks) + multiset{u}
          && userState == old(userState)[u := None]
          && r == Authorized
        case PasswordNeeded =>
          && usersDb == old(usersDb) && tasks == old(tasks)
          && userState == old(userState)[u := Some(AwaitPassword(p.phone, p.client, p.hash))]
          && r == PasswordRequested
        case CodeExpired =>
          && usersDb == old(usersDb) && tasks == old(tasks)
          && userState == old(userState)[u := None]
          && r == CodeExpiredRestart
        case SignInError =>
          && usersDb == old(usersDb) && tasks == old(tasks) && userState == old(userState)
          && r == SignInFailed
      // Password: success as for the code; failure retries.
      ensures PendingIn(old(userState), u).Some? && PendingIn(old(userState), u).value.AwaitPassword? ==>
        var p := PendingIn(old(userState), u).value;
        if env.password == PasswordAccepted then
          && usersDb == old(usersDb)[u := DefaultAccount(p.client)]
          && tasks == old(tasks) + multiset{u}
          && userState == old(userState)[u := None]
          && r == Authorized
        else
          && usersDb == old(usersDb) && tasks == old(tasks) && userState == old(userState)
          && r == PasswordWrong
      // Post text: stores the stripped message.
      ensures PendingIn(old(userState), u) == Some(AwaitText) ==>
        && tasks == old(tasks)
        && if u in old(usersDb) then
             && usersDb == old(usersDb)[u := old(usersDb)[u].(text := Strip(message))]
             && userState == old(userState)[u := None]
             && r == TextSaved
           else
             usersDb == old(usersDb) && userState == old(userState) && r == MissingAccount
      // Interval: digits only set the delay; anything else keeps the stage.
      ensures PendingIn(old(userState), u) == Some(AwaitDelay) ==>
        var text := Strip(message);
        && tasks == old(tasks)
        && if !IsDigits(text) then
             usersDb == old(usersDb) && userState == old(userState) && r == DelayIgnored
           else if u !in old(usersDb) then
             usersDb == old(usersDb) && userState == old(userState) && r == MissingAccount
           else
             && usersDb == old(usersDb)[u := old(usersDb)[u].(delay := DecimalValue(text))]
             && userState == old(userState)[u := None]
             && r == DelaySet(DecimalValue(text))
      // Destinations: replaced by the '@' tokens of the reply; the reported
      // count is the length of the new list.
      ensures PendingIn(old(userState), u) == Some(AwaitGroups) ==>
        var groups := ParseGroups(Strip(message));
        && tasks == old(tasks)
        && if u in old(usersDb) then
             && usersDb == old(usersDb)[u := old(usersDb)[u].(groups := groups)]
             && userState == old(userState)[u := None]
             && r == GroupsSaved(|groups|)
           else
             usersDb == old(usersDb) && userState == old(userState) && r == MissingAccount
    {
      if u !in userState || userState[u].None? {
        return Ignored;
      }
      var state := userState[u].value;
      var text := Strip(message);
      match state
      case AwaitPhone =>
        var phone := RemoveSpaces(text);
        // A fresh client, env.client, is constructed and connected before the
        // code is requested.
        match env.sendCode {
          case CodeSent(hash) =>
            EnterStageConsistent(usersDb, userState, tasks, u, Some(AwaitCode(phone, env.client, hash)));
            userState := userState[u := Some(AwaitCode(phone, env.client, hash))];
            r := CodeRequested;
          case SendCodeFailed =>
            r := CodeRequestFailed;
        }
      case AwaitCode(phone, client, hash) =>
        match env.signIn {
          case SignedIn =>
            SignInConsistent(usersDb, userState, tasks, u, client);
            usersDb := usersDb[u := DefaultAccount(client)];
            tasks := tasks + multiset{u};
            userState := userState[u := None];
            r := Authorized;
          case PasswordNeeded =>
            EnterStageConsistent(usersDb, userState, tasks, u, Some(AwaitPassword(phone, client, hash)));
            userState := userState[u := Some(AwaitPassword(phone, client, hash))];
            r := PasswordRequested;
          case CodeExpired =>
            EnterStageConsistent(usersDb, userState, tasks, u, None);
            userState := userState[u := None];
            r := CodeExpiredRestart;
          case SignInError =>
            r := SignInFailed;
        }
      case AwaitPassword(_, client, _) =>
        match env.password {
          case PasswordAccepted =>
            SignInConsistent(usersDb, userState, tasks, u, client);
            usersDb := usersDb[u := DefaultAccount(client)];
            tasks := tasks + multiset{u};
            userState := userState[u := None];
            r := Authorized;
          case PasswordRejected =>
            r := PasswordWrong;
        }
      case AwaitText =>
        if u !in usersDb {
          return MissingAccount;
        }
        UpdateConsistent(usersDb, userState, tasks, u, usersDb[u].(text := text));
        usersDb := usersDb[u := usersDb[u].(text := text)];
        EnterStageConsistent(usersDb, userState, tasks, u, None);
        userState := userState[u := None];
        r := TextSaved;
      case AwaitDelay =>
        if IsDigits(text) {
          if u !in usersDb {
            return MissingAccount;
          }
          var seconds := DecimalValue(text);
          UpdateConsistent(usersDb, userState, tasks, u, usersDb[u].(delay := seconds));
          usersDb := usersDb[u := usersDb[u].(delay := seconds)];
          EnterStageConsistent(usersDb, userState, tasks, u, None);
          userState := userState[u := None];
          r := DelaySet(seconds);
        } else {
          r := DelayIgnored;
        }
      case AwaitGroups =>
        var groups := ParseGroups(text);
        if u !in usersDb {
          return MissingAccount;
        }
        UpdateConsistent(usersDb, userState, tasks, u, usersDb[u].(groups := groups));
        usersDb := usersDb[u := usersDb[u].(groups := groups)];
        EnterStageConsistent(usersDb, userState, tasks, u, None);
        userState := userState[u := None];
        r := GroupsSaved(|groups|);
    }
  }
}
