/** The inline keyboard the bot attaches to its replies, and which button
    presses the callback handler acts on. Only the structure of the keyboard
    is modelled: the Arabic captions become `Label` values. */
module Menu {
  import opened Records

  /** The payload of an inline button, as received by the callback handler;
      `Unknown` stands for any other byte string. */
  datatype CallbackData =
    | AddAccount
    | ToggleStatus
    | EditText
    | EditDelay
    | ManageGroups
    | DeleteAccount
    | Unknown

  /** The caption of a button; the status caption shows whether posting is on. */
  datatype Label =
    | AddAccountLabel
    | StatusLabel(running: bool)
    | PostTextLabel
    | DelayLabel
    | GroupsLabel
    | LogoutLabel

  datatype Button = Inline(caption: Label, data: CallbackData)

  /** Rows of buttons. */
  type Keyboard = seq<seq<Button>>

  /** The payloads a keyboard offers. */
  function Offered(k: Keyboard): set<CallbackData>
  {
    set i, j | 0 <= i < |k| && 0 <= j < |k[i]| :: k[i][j].data
  }

  /** The captions a keyboard shows. */
  function Labels(k: Keyboard): set<Label>
  {
    set i, j | 0 <= i < |k| && 0 <= j < |k[i]| :: k[i][j].caption
  }

  /** Whether the callback handler takes a branch for this payload: adding an
      account is always accepted, every other known button only from a
      registered user. */
  predicate Honoured(registered: bool, c: CallbackData)
  {
    c == AddAccount || (registered && c != Unknown)
  }

  /** `get_main_keyboard`: a single "add account" button for a user without a
      record, otherwise the four-row account menu. */
  function MainKeyboard(db: map<UserId, Account>, u: UserId): Keyboard
  {
    if u !in db then
      [[Inline(AddAccountLabel, AddAccount)]]
    else
      [ [Inline(StatusLabel(db[u].running), ToggleStatus)],
        [Inline(PostTextLabel, EditText), Inline(DelayLabel, EditDelay)],
        [Inline(GroupsLabel, ManageGroups)],
        [Inline(LogoutLabel, DeleteAccount)] ]
  }

  /** An unregistered user is offered only "add account"; a registered user is
      offered every known action except "add account". */
  lemma OfferedMatchesRegistration(db: map<UserId, Account>, u: UserId, c: CallbackData)
    ensures c in Offered(MainKeyboard(db, u)) <==> c != Unknown && (c == AddAccount <==> u !in db)
  {
    var k: Keyboard := MainKeyboard(db, u);
    if u !in db {
      assert k[0][0].data == AddAccount;
    } else {
      assert k[0][0].data == ToggleStatus;
      assert k[1][0].data == EditText;
      assert k[1][1].data == EditDelay;
      assert k[2][0].data == ManageGroups;
      assert k[3][0].data == DeleteAccount;
    }
  }

  /** Every button the menu offers is one the callback handler acts on. The
      converse fails only for "add account" pressed by a registered user from
      an old message: the handler has no guard for it. */
  lemma OfferedAreHonoured(db: map<UserId, Account>, u: UserId, c: CallbackData)
    ensures c in Offered(MainKeyboard(db, u)) ==> Honoured(u in db, c)
    ensures Honoured(u in db, c) && c !in Offered(MainKeyboard(db, u)) ==> c == AddAccount && u in db
  {
    OfferedMatchesRegistration(db, u, c);
  }

  /** The menu shows a status caption exactly for a registered user, and it
      shows that user's current `running` flag. */
  lemma StatusLabelShown(db: map<UserId, Account>, u: UserId, b: bool)
    ensures StatusLabel(b) in Labels(MainKeyboard(db, u)) <==> u in db && db[u].running == b
  {
    var k: Keyboard := MainKeyboard(db, u);
    if u in db && db[u].running == b {
      assert k[0][0].caption == StatusLabel(b);
    }
  }
}
