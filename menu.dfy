/** The main menu (flows/menu.py). STATE_MAIN_MENU comes from utils.constants, which is not part
    of this model, so the handlers take its value as a parameter. */
module Menu {
  import opened Common
  import opened FinanceStore
  import opened Messaging

  const SERVICES := "SERVICES"
  const CONTACT := "CONTACT"
  const FAQ_MENU := "FAQ_MENU"
  const AGENT := "AGENT"

  const WELCOME_PREFIX := "Welcome to *MICROHUB FINANCIAL SERVICES*, "
  const MENU_OPTIONS := "!\n\n1️⃣ Products & Services\n2️⃣ Contact Us\n3️⃣ FAQs (Frequently Asked Questions)\n4️⃣ Talk to an Agent\n\n_Type EXIT to restart_"
  const INVALID_OPTION := "❌ Invalid option. Please choose 1–4."

  /** The welcome menu, addressed to the sender by name. */
  function StartMenu(senderName: string): (menu: string)
    ensures OccursAt(menu, senderName, |WELCOME_PREFIX|)
    ensures Contains(menu, senderName)
    ensures menu[..|WELCOME_PREFIX|] == WELCOME_PREFIX
  {
    var menu := WELCOME_PREFIX + senderName + MENU_OPTIONS;
    assert menu[|WELCOME_PREFIX|..|WELCOME_PREFIX| + |senderName|] == senderName;
    ContainsAt(menu, senderName, |WELCOME_PREFIX|);
    menu
  }

  /** The state each main-menu option moves to; None for text that is not one of "1" to "4". */
  function MenuTarget(text: string): Option<string> {
    if text == "1" then Some(SERVICES)
    else if text == "2" then Some(CONTACT)
    else if text == "3" then Some(FAQ_MENU)
    else if text == "4" then Some(AGENT)
    else None
  }

  /** Exactly the options "1" to "4" have a target, and no two options share one. */
  lemma MenuTargetsDistinct(a: string, b: string)
    ensures MenuTarget(a).Some? <==> a in {"1", "2", "3", "4"}
    ensures MenuTarget(a).Some? && MenuTarget(a) == MenuTarget(b) ==> a == b
  {
  }

  /** handle_start: moves to the main-menu state and sends the welcome menu. */
  method HandleStart(db: Database, out: Outbox, phone: string, senderName: string, user: UserRow, mainMenuState: string)
    requires db.Valid()
    modifies db, out
    ensures db.Valid() && db.nextUserId == old(db.nextUserId) && db.applications == old(db.applications)
    ensures db.users == Update(old(db.users), user.id, ChatState, mainMenuState)
    ensures out.sent == old(out.sent) + [Message(phone, StartMenu(senderName))]
  {
    var _ := db.UpdateUser(user.id, "chat_state", mainMenuState);
    out.SendText(phone, StartMenu(senderName));
  }

  /** handle_main_menu: "1" to "4" move to their section without a message, "0" does what
      handle_start does, and any other text gets the invalid-option reply with no write. Each call
      writes chat_state at most once. */
  method HandleMainMenu(db: Database, out: Outbox, phone: string, text: string, senderName: string, user: UserRow,
                        mainMenuState: string)
    requires db.Valid()
    modifies db, out
    ensures db.Valid() && db.nextUserId == old(db.nextUserId) && db.applications == old(db.applications)
    ensures MenuTarget(text).Some? ==>
      db.users == Update(old(db.users), user.id, ChatState, MenuTarget(text).value) && out.sent == old(out.sent)
    ensures text == "0" ==>
      db.users == Update(old(db.users), user.id, ChatState, mainMenuState) && out.sent == old(out.sent) + [Message(phone, StartMenu(senderName))]
    ensures MenuTarget(text).None? && text != "0" ==>
      db.users == old(db.users) && out.sent == old(out.sent) + [Message(phone, INVALID_OPTION)]
  {
    if text == "1" {
      var _ := db.UpdateUser(user.id, "chat_state", SERVICES);
    } else if text == "2" {
      var _ := db.UpdateUser(user.id, "chat_state", CONTACT);
    } else if text == "3" {
      var _ := db.UpdateUser(user.id, "chat_state", FAQ_MENU);
    } else if text == "4" {
      var _ := db.UpdateUser(user.id, "chat_state", AGENT);
    } else if text == "0" {
      HandleStart(db, out, phone, senderName, user, mainMenuState);
    } else {
      out.SendText(phone, INVALID_OPTION);
    }
  }
}
