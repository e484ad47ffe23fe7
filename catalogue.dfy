/** The alternate services menu (flows/catalogue.py). Its LOAN_MAP and loan menu are the same
    table and text as the services menu's, so they are shared with the Services module. */
module Catalogue {
  import opened Common
  import opened FinanceStore
  import opened Messaging
  import opened Services

  const ADVISORY := "ℹ️ This service focuses on customer support and advisory.\nPlease visit a branch or speak to an agent for more details.\n\nType 0 to return."

  /** The options that answer with the advisory notice. */
  const ADVISORY_OPTIONS: seq<string> := ["2", "3", "4", "5"]

  /** handle_services: "1" moves to LOAN_TYPES with the loan menu, "2" to "5" send the advisory
      notice and stay, "0" moves to MAIN_MENU without a message; any other text does nothing. */
  method HandleServices(db: Database, out: Outbox, phone: string, text: string, user: UserRow)
    requires db.Valid()
    modifies db, out
    ensures db.Valid() && db.nextUserId == old(db.nextUserId) && db.applications == old(db.applications)
    ensures text == "1" ==>
      db.users == Update(old(db.users), user.id, ChatState, LOAN_TYPES) && out.sent == old(out.sent) + [Message(phone, LOAN_MENU)]
    ensures text in ADVISORY_OPTIONS ==> db.users == old(db.users) && out.sent == old(out.sent) + [Message(phone, ADVISORY)]
    ensures text == "0" ==> db.users == Update(old(db.users), user.id, ChatState, MAIN_MENU) && out.sent == old(out.sent)
    ensures text != "0" && text != "1" && text !in ADVISORY_OPTIONS ==> db.users == old(db.users) && out.sent == old(out.sent)
  {
    if text == "1" {
      var _ := db.UpdateUser(user.id, "chat_state", LOAN_TYPES);
      out.SendText(phone, LOAN_MENU);
    } else if text in ADVISORY_OPTIONS {
      out.SendText(phone, ADVISORY);
    } else if text == "0" {
      var _ := db.UpdateUser(user.id, "chat_state", MAIN_MENU);
    }
  }

  /** handle_loan_types: a LOAN_MAP key stores that loan as selected_product, moves to
      CONFIRM_APPLY and names the loan; "0" moves back to SERVICES without a message; any other
      text does nothing. */
  method HandleLoanTypes(db: Database, out: Outbox, phone: string, text: string, user: UserRow)
    requires db.Valid()
    modifies db, out
    ensures db.Valid() && db.nextUserId == old(db.nextUserId) && db.applications == old(db.applications)
    ensures ProductsChosen(old(db.users)) ==> ProductsChosen(db.users)
    ensures text in LOAN_MAP ==>
      && db.users == Update(Update(old(db.users), user.id, SelectedProduct, LOAN_MAP[text]), user.id, ChatState, CONFIRM_APPLY)
      && out.sent == old(out.sent) + [Message(phone, LoanPrompt(LOAN_MAP[text]))]
    ensures text == "0" ==> db.users == Update(old(db.users), user.id, ChatState, SERVICES) && out.sent == old(out.sent)
    ensures text !in LOAN_MAP && text != "0" ==> db.users == old(db.users) && out.sent == old(out.sent)
  {
    if text in LOAN_MAP {
      ghost var before := db.users;
      var _ := db.UpdateUser(user.id, "selected_product", LOAN_MAP[text]);
      var _ := db.UpdateUser(user.id, "chat_state", CONFIRM_APPLY);
      out.SendText(phone, LoanPrompt(LOAN_MAP[text]));
      if ProductsChosen(before) {
        UpdateKeepsProductsChosen(before, user.id, SelectedProduct, LOAN_MAP[text]);
        UpdateKeepsProductsChosen(Update(before, user.id, SelectedProduct, LOAN_MAP[text]), user.id, ChatState, CONFIRM_APPLY);
      }
    } else if text == "0" {
      ghost var before := db.users;
      var _ := db.UpdateUser(user.id, "chat_state", SERVICES);
      if ProductsChosen(before) {
        UpdateKeepsProductsChosen(before, user.id, ChatState, SERVICES);
      }
    }
  }
}
