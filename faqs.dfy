/** The FAQ menu (flows/faqs.py): five fixed answers and a hand-over to the AI assistant, whose
    answer (ask_microhub_ai) is an input of this model. */
module Faqs {
  import opened Common
  import opened FinanceStore
  import opened Messaging

  const MAIN_MENU := "MAIN_MENU"
  const FAQ_MENU := "FAQ_MENU"
  const AI_FAQ := "AI_FAQ"

  const LOANS_OFFERED := "💼 *Loans Offered*\n\n• Micro Business Loans\n• SME Loans\n• Personal Salary-Based Loans\n• SSB Loans\n• Asset Finance Loans"
  const LOAN_REQUIREMENTS := "📄 *Loan Requirements*\n\n• Valid National ID\n• Proof of income or business\n• Recent bank statements\n• Completed application form"
  const APPROVAL_TIME := "⏱ *Approval Time*\n\nLoan approval typically takes 24–72 hours after all required documents are submitted."
  const SME_LOANS := "🏢 *SME Loans*\n\nYes. We offer flexible financing solutions for Small and Medium Enterprises."
  const WHATSAPP_APPLICATIONS := "📲 *WhatsApp Applications*\n\nYes. You can apply for a loan directly through this WhatsApp chatbot."

  /** FAQS, keyed by the number the user types. */
  const FAQS: map<string, string> := map[
    "1" := LOANS_OFFERED,
    "2" := LOAN_REQUIREMENTS,
    "3" := APPROVAL_TIME,
    "4" := SME_LOANS,
    "5" := WHATSAPP_APPLICATIONS
  ]

  const FAQ_MENU_TEXT := "❓ *Microhub FAQs*\n\n1️⃣ What loans does Microhub offer?\n2️⃣ What are the loan requirements?\n3️⃣ How long does approval take?\n4️⃣ Do you offer SME loans?\n5️⃣ Can I apply via WhatsApp?\n6️⃣ Ask AI a question\n\n0️⃣ Back to Main Menu"
  const AI_PROMPT := "🤖 Ask me any question about Microhub services.\n\nType \'0\' to go back."

  /** The texts handle_faq_menu reacts to other than by re-sending the menu. */
  predicate IsFaqOption(choice: string) {
    choice == "0" || choice == "6" || choice in FAQS
  }

  /** The options are the single digits 0 to 6. */
  lemma FaqOptions(choice: string)
    ensures IsFaqOption(choice) <==> |choice| == 1 && '0' <= choice[0] <= '6'
  {
    assert FAQS.Keys == {"1", "2", "3", "4", "5"};
    if |choice| == 1 && '0' <= choice[0] <= '6' {
      assert choice == [choice[0]];
    }
  }

  /** Whitespace typed around an option does not change which option it is. */
  lemma {:induction false} PaddedOption(w1: string, choice: string, w2: string)
    requires AllSpace(w1) && AllSpace(w2) && IsFaqOption(choice)
    ensures Strip(w1 + choice + w2) == choice
  {
    FaqOptions(choice);
    StripPadded(w1, choice, w2);
    StripUnpadded(choice);
  }

  /** handle_faq_menu: compares the stripped text; "0" moves to MAIN_MENU silently, "6" moves to
      AI_FAQ with the AI prompt, an FAQS key sends that answer and stays, and anything else
      (the empty text included) re-sends the FAQ menu and stays. */
  method HandleFaqMenu(db: Database, out: Outbox, phone: string, text: string, user: UserRow)
    requires db.Valid()
    modifies db, out
    ensures db.Valid() && db.nextUserId == old(db.nextUserId) && db.applications == old(db.applications)
    ensures FaqMenuAnswered(db, out, phone, Strip(text), user)
  {
    var choice := Strip(text);
    AnswerFaqChoice(db, out, phone, choice, user);
  }

  /** What handle_faq_menu does for the stripped text `choice`. */
  twostate predicate FaqMenuAnswered(db: Database, out: Outbox, phone: string, choice: string, user: UserRow)
    reads db, out
  {
    && (choice == "0" ==> db.users == Update(old(db.users), user.id, ChatState, MAIN_MENU) && out.sent == old(out.sent))
    && (choice == "6" ==>
         db.users == Update(old(db.users), user.id, ChatState, AI_FAQ) && out.sent == old(out.sent) + [Message(phone, AI_PROMPT)])
    && (choice in FAQS ==> db.users == old(db.users) && out.sent == old(out.sent) + [Message(phone, FAQS[choice])])
    && (!IsFaqOption(choice) ==> db.users == old(db.users) && out.sent == old(out.sent) + [Message(phone, FAQ_MENU_TEXT)])
  }

  /** The comparisons of handle_faq_menu, on the already stripped text. */
  method AnswerFaqChoice(db: Database, out: Outbox, phone: string, choice: string, user: UserRow)
    requires db.Valid()
    modifies db, out
    ensures db.Valid() && db.nextUserId == old(db.nextUserId) && db.applications == old(db.applications)
    ensures FaqMenuAnswered(db, out, phone, choice, user)
  {
    if choice == "0" {
      var _ := db.UpdateUser(user.id, "chat_state", MAIN_MENU);
      return;
    }
    if choice == "6" {
      var _ := db.UpdateUser(user.id, "chat_state", AI_FAQ);
      out.SendText(phone, AI_PROMPT);
      return;
    }
    if choice in FAQS {
      out.SendText(phone, FAQS[choice]);
      return;
    }
    out.SendText(phone, FAQ_MENU_TEXT);
  }

  /** handle_ai_faq: "0" moves back to FAQ_MENU; any other text is answered with exactly one
      message, the AI's answer, and the state stays. */
  method HandleAiFaq(db: Database, out: Outbox, phone: string, text: string, user: UserRow, answer: string)
    requires db.Valid()
    modifies db, out
    ensures db.Valid() && db.nextUserId == old(db.nextUserId) && db.applications == old(db.applications)
    ensures text == "0" ==> db.users == Update(old(db.users), user.id, ChatState, FAQ_MENU) && out.sent == old(out.sent)
    ensures text != "0" ==> db.users == old(db.users) && out.sent == old(out.sent) + [Message(phone, answer)]
  {
    if text == "0" {
      var _ := db.UpdateUser(user.id, "chat_state", FAQ_MENU);
      return;
    }
    out.SendText(phone, answer);
  }
}
