# Auto-posting Telegram bot: a verified model of its controller

The bot lets each Telegram user attach a personal account by phone login
and then has that account post a fixed text to a list of groups on a timer.
Everything with state lives in `main.py`:

- `users_db` maps a user id to the account record
  `{client, text, groups, delay, running}`;
- `user_state` maps a user id to the pending interaction `{step, ...}`, or
  to `None` once an interaction is over;
- `callback_handler` handles the inline buttons and `input_handler` handles
  free text. Together they form a stage machine: `phone → code → (password)
  → signed in`, plus the configuration stages `text`, `delay` and `groups`;
- `poster_task` is started once per successful sign-in and loops forever.
  Each pass posts the text to the groups, pausing after each one.

The model has six modules, one file each:

| file | module | models |
|---|---|---|
| records.dfy | `Records` | the account record, the pending interaction as a tagged variant, the defaults given at sign-in |
| parsing.dfy | `Parsing` | `strip()`, the phone's `replace(" ", "")`, the `isdigit()`/`int()` pair, and `split()` with the `@` filter, each with a partner (`str(n)`, `" ".join`) and round-trip lemmas |
| menu.dfy | `Menu` | `get_main_keyboard`, and which button presses the callback handler acts on |
| poster.dfy | `Poster` | one pass of `poster_task` as a method that returns its trace of `Send`/`Sleep` actions, proved equal to the function `CycleTrace` |
| bot.dfy | `Bot` | a `Controller` class holding the two tables, with one method per handler |
| scenarios.dfy | `Scenarios` | short conversations that start from a fresh controller |

Telegram calls become outcome parameters. Sending a code either gives a
hash or fails. Signing in with a code succeeds, asks for a password, reports
an expired code, or fails in some other way. Signing in with a password
succeeds or fails. Disconnecting either works or fails, and a failure is
swallowed. The client built at the phone step is passed in as a parameter
too. The bot's replies are returned as values without their Arabic text.
`Controller` has a ghost multiset `tasks` with one entry for each
`poster_task` started. Its invariant `Valid()` says three things: every
signed-in user has a task, every stored group is a whitespace-free token
starting with `@`, and no pending phone number contains a space.

### Behaviour of the code worth knowing

- A failed code request keeps the stage at `phone`. It does not return to
  idle, and the client it created is not released (main.py:131-132).
- An expired code clears the pending interaction but does not disconnect
  the client (main.py:152-154).
- "Add account" has no guard against an existing account. Signing in again
  overwrites the record and starts another `poster_task` (main.py:81-82).
- Logout removes only the record. The pending interaction stays (main.py:101-106).
  So a pending text/delay/groups reply that arrives after logout raises a
  KeyError before `user_state` is cleared. The model returns this as
  `MissingAccount` and leaves both tables unchanged. A non-numeric delay
  reply is ignored before the lookup, so it never raises.
- `poster_task` never ends. With no record it sleeps 5 seconds and looks
  again (main.py:30-32). After logout and a new sign-in, two tasks post for
  the same user (`Scenarios.SignInAgainSecondTask`).
- A pass reads `running` and `text` from the record dictionary it captured
  at the start (main.py:29, 37, 39). Logout deletes the key but not that
  dictionary. So logout does not stop a pass that has started, while turning
  posting off does. The new group list from a `groups` edit is a new list
  object, so it only takes effect from the next pass (main.py:182).

## Model

| member | source | states |
|---|---|---|
| `Parsing.RemoveSpaces` | main.py:117 | the normalised phone has no SPACE, and every other character occurs as often as in the input |
| `Parsing.RemoveSpacesAppend` | main.py:117 | normalising distributes over concatenation, so the kept characters stay in input order |
| `Parsing.RemoveSpacesFixpoint` | main.py:117 | a string is unchanged exactly when it has no SPACE |
| `Parsing.RemoveSpacesIdempotent` | main.py:117 | normalising twice is the same as normalising once |
| `Parsing.Strip` | main.py:114 | the result is the infix of the message between leading and trailing whitespace: everything outside it is whitespace, and it neither starts nor ends with whitespace |
| `Parsing.StripUnchanged` | main.py:114 | a message with no whitespace at either end is its own strip |
| `Parsing.StripIdempotent` | main.py:114 | stripping twice is the same as stripping once |
| `Parsing.Decimal` | main.py:175-176 | `str(n)` is a non-empty digit string without leading zeros, so `isdigit()` accepts it |
| `Parsing.DecimalRoundTrip` | main.py:175-176 | `int(str(n)) == n`: the interval typed as a number is stored as that number |
| `Parsing.LeadingZeroIgnored` | main.py:176 | a leading zero does not change the interval read |
| `Parsing.TokenLengthOfWord` | main.py:181 | `split()` reads a token whole when whitespace or the end follows it |
| `Parsing.Words` | main.py:181 | every token from `split()` is non-empty and has no whitespace |
| `Parsing.WordsOfSpaces` | main.py:181 | a string made only of whitespace has no tokens |
| `Parsing.WordsSplitAt` | main.py:181 | any whitespace character (SPACE, TAB, newline, ...) separates tokens, and the tokens on either side are read independently and in order, so a run of whitespace acts like a single separator; with `WordThen` and `WordsOfSpaces` this fixes `split()` on every input |
| `Parsing.WordThen` | main.py:181 | a token followed by nothing or by whitespace is the first result of `split()`, and the rest is split on its own |
| `Parsing.WordsOfJoin` | main.py:181 | `split()` inverts `" ".join` on lists of tokens |
| `Parsing.KeepHandles` | main.py:181 | every kept token starts with `@` and has no whitespace, and no more tokens come out than went in |
| `Parsing.KeepHandlesMembers` | main.py:181 | a token is kept if and only if it starts with `@` |
| `Parsing.KeepHandlesAppend` | main.py:181 | the filter distributes over concatenation, so the kept tokens stay in input order |
| `Parsing.KeepHandlesAll` | main.py:181 | a list made only of handles passes the filter unchanged |
| `Parsing.ParseGroups` | main.py:181 | every destination read starts with `@` and has no whitespace, and there are at most as many as reply tokens |
| `Parsing.ParseGroupsMembers` | main.py:181 | a destination is stored if and only if it is a reply token starting with `@` (both directions) |
| `Parsing.ParseGroupsOfJoin` | main.py:181 | typing handles separated by spaces, as the prompt asks, stores exactly that list in order |
| `Parsing.ParseGroupsSplitAt` | main.py:181 | the destinations on either side of any whitespace character are read independently and kept in order |
| `Parsing.ParseGroupsOfSpaces` | main.py:181-182 | a reply made only of whitespace stores an empty destination list |
| `Menu.OfferedMatchesRegistration` | main.py:49-60 | an unregistered user is offered only "add account"; a registered user is offered toggle, text, delay, groups and logout, and not "add account" |
| `Menu.OfferedAreHonoured` | main.py:49-101 | every offered button has a handler branch that acts on it; the one action honoured but not offered is "add account" for a registered user |
| `Menu.StatusLabelShown` | main.py:54-56 | a status label is shown exactly for a registered user, and it shows that user's `running` flag |
| `Poster.SendRun` | main.py:36-43 | the group loop makes two actions per group visited, up to the first group at which `running` is seen false |
| `Poster.SendRunAt` | main.py:36-43 | the i-th visited group gets a `Send` with the text read at that moment, followed by `Sleep(2)` |
| `Poster.SentAppend` | main.py:36-43 | the sends of a joined trace are the sends of its parts, in order |
| `Poster.SendRunSent` | main.py:36-43 | the group loop sends to exactly the stored groups before the first stop, in stored order |
| `Poster.CycleSends` | main.py:28-47 | with no record, posting off or no groups, a pass is just `Sleep(5)`; otherwise it sends to exactly the stored groups before the first one at which posting is seen off, in order, each position at most once |
| `Poster.FullCycleSendsAll` | main.py:34-45 | if posting stays on, a pass sends to every stored group once, in order |
| `Poster.CycleShape` | main.py:34-45 | an active pass is send/pause pairs followed by `Sleep(delay)`, with the delay read after the loop |
| `Poster.SendRunIgnoresDelivery` | main.py:38-43 | whether a send succeeds never changes the rest of the group loop |
| `Poster.DeliveryIgnored` | main.py:38-43 | a failed send never stops the next group's attempt or the end-of-pass sleep |
| `Poster.PostingCycle` | main.py:28-47 | one pass of `poster_task`, written as its loop, returns exactly `CycleTrace` |
| `Bot.Controller.constructor` | main.py:18-19 | both tables start empty, no task has been started, and the invariant holds |
| `Bot.Controller.CallbackHandler` | main.py:77-106 | "add account" always sets stage `phone`. Toggle flips `running` of u's record only, and the other buttons open their stage, all only for a registered user. Logout removes only `users_db[u]` and never fails on a disconnect error. No `user_state` entry changes on logout, no task is started, and any other press changes nothing |
| `Bot.Controller.InputHandler` | main.py:109-184 | no pending entry: nothing changes. Phone: on success, stage `code` with the stripped, space-free phone, the new client and the hash; on failure, nothing changes. Code: success creates the default record and one task and clears the entry; a password request moves to `password` and keeps phone, client and hash; expiry clears the entry and creates nothing; any other error changes nothing. Password: success as for the code; failure changes nothing. Text: stores the stripped message. Delay: digits set `delay` to their value and clear the entry, anything else changes nothing. Groups: stores `ParseGroups` of the reply and replies with its length. A configuration reply from a user with no record changes nothing and yields `MissingAccount` |
| `Bot.SignInConsistent` | main.py:139-146 | creating the default record together with its task keeps the invariant |
| `Scenarios.SignInGivesDefaults` | main.py:116-147 | phone then code gives the record with posting off, no groups, delay 10 and the default text, whatever the phone number |
| `Scenarios.ExpiredCodeThenIgnored` | main.py:111-154 | after an expired code the next message is ignored and no record exists |
| `Scenarios.CodeRequestRetried` | main.py:116-132 | after a failed code request, the next phone reply can still reach stage `code` |
| `Scenarios.NonNumericDelayIgnored` | main.py:174-178 | the reply "abc" keeps the delay at 10 and keeps the delay prompt open |
| `Scenarios.ReplyAfterLogout` | main.py:89-106 | after logout with the text prompt open, the menu offers only "add account" and the text reply hits the missing record |
| `Scenarios.TwoHandles` | main.py:181 | a reply of two handles separated by a space stores those two handles |
| `Scenarios.TabBetweenHandles` | main.py:181 | two handles separated by a TAB are stored as those two handles |
| `Scenarios.TwoSpacesBetweenHandles` | main.py:181 | two handles separated by two spaces are stored as those two handles |
| `Scenarios.PostToTwoGroups` | main.py:28-47 | with groups `a b` and posting on, a pass is `Send(a)`, `Sleep(2)`, `Send(b)`, `Sleep(2)`, `Sleep(10)`, even when the first send fails |
| `Scenarios.SignInAgainSecondTask` | main.py:101-163 | logout followed by a new sign-in leaves two posting tasks for the user |

## Left out

- Every Telegram call is a parameter: client construction and `connect`,
  `send_code_request`, both forms of `sign_in`, `send_message` and
  `disconnect`. Bot start-up and `run_until_disconnected` are not modelled, because they are
  network calls. If `connect` raises (main.py:120), the exception escapes
  the handler. Both tables stay as they are, which is the same effect as
  `SendCodeFailed`; only the reply differs.
- asyncio: creating tasks (the ghost `tasks` multiset stands for them),
  real sleeping (only `Sleep` actions in the trace), and the event loop.
  Each handler runs as one atomic step. The model leaves out interleaving
  at the handlers' own `await`s, for example another event that arrives
  while `sign_in` is pending.
- `Poster.PostingCycle` models one pass of the `while True` loop, not the
  endless repetition. What the pass reads after a suspension is an input:
  the `running` flag and `text` before each group, each send's success,
  and the delay after the loop. In the source, the first group's reading
  always equals the record the pass started with, because nothing is
  awaited before it. The model accepts any first reading, and all lemmas
  hold for every reading.
- The `/start` handler (main.py:67-74) only replies with the main keyboard,
  which is `Menu.MainKeyboard`. Its message also reaches `input_handler`,
  like every other message. The model covers that, since the handler
  takes any text.
- Environment variables, logging and the `sessions` directory
  (main.py:8-24) are process bootstrap and are not modelled.
- Reply texts and button captions are presentation. Replies are
  constructors of `InputReply` and `CallbackReply`, and captions are
  `Menu.Label` values.
- Characters are limited to ASCII. Whitespace is Python's ASCII whitespace
  (TAB to CR, 0x1C to 0x1F, SPACE), and digits are `0` to `9`. Python's
  Unicode whitespace and digits (where `isdigit()` accepts characters
  that `int()` rejects) are left out.
