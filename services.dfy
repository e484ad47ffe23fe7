/** The products-and-services menu (flows/services.py): the loan menu, the numbered list of key
    services, and the choice of a loan product. */
module Services {
  import opened Common
  import opened FinanceStore
  import opened Messaging

  const SERVICES := "SERVICES"
  const LOAN_TYPES := "LOAN_TYPES"
  const CONFIRM_APPLY := "CONFIRM_APPLY"
  const MAIN_MENU := "MAIN_MENU"

  /** LOAN_MAP: the loan product each menu number selects. */
  const LOAN_MAP: map<string, string> := map[
    "1" := "Micro Business Loan",
    "2" := "SME Loan",
    "3" := "Personal Loan",
    "4" := "SSB Loan",
    "5" := "Asset Finance Loan"
  ]

  const SERVICE_LIST: seq<string> := [
    "Hassle Free Loans",
    "Customer Centric Staff",
    "Regular updates on status of Loans",
    "Technologically driven products",
    "Training and Advisory"
  ]

  const LOAN_MENU := "💼 *Hassle-Free Loans*\n\n1️⃣ Micro Business Loans\n2️⃣ SME Loans\n3️⃣ Personal Loans\n4️⃣ SSB Loans\n5️⃣ Asset Finance Loans\n0️⃣ Back"
  const SERVICES_HEADER := "🌟 *Our Key Services:*\n"
  const SERVICES_FOOTER := "\nType 0 to return to main menu."
  const BACK_TO_MAIN := "Returning to main menu..."
  const BACK_TO_SERVICES := "Returning to services menu..."

  /** The reply naming the chosen loan and how to apply for it. */
  function LoanPrompt(name: string): (r: string)
    ensures OccursAt(r, name, 3)
  {
    var r := "📄 *" + name + "*\n\nType *APPLY* to apply for this loan\nor *0* to go back";
    assert r[3..3 + |name|] == name;
    r
  }

  /** The menu keys are "1" to "5", and different keys select different loans. */
  lemma LoanMapFacts()
    ensures LOAN_MAP.Keys == {"1", "2", "3", "4", "5"}
    ensures forall a, b :: a in LOAN_MAP && b in LOAN_MAP && a != b ==> LOAN_MAP[a] != LOAN_MAP[b]
  {
  }

  /** `f"{idx}. {s}\n"` */
  function ServiceLine(index: nat, item: string): string {
    NatToString(index) + ". " + item + "\n"
  }

  /** The items, one numbered line each, numbered from 1 in list order. */
  function NumberedLines(items: seq<string>): string {
    if items == [] then ""
    else NumberedLines(items[..|items| - 1]) + ServiceLine(|items|, items[|items| - 1])
  }

  /** The lines for a prefix of the items begin the lines for all of them. */
  lemma {:induction false} NumberedLinesPrefix(items: seq<string>, j: nat)
    requires j <= |items|
    ensures NumberedLines(items[..j]) <= NumberedLines(items)
  {
    if j < |items| {
      var init := items[..|items| - 1];
      assert init[..j] == items[..j];
      NumberedLinesPrefix(init, j);
    } else {
      assert items[..j] == items;
    }
  }

  /** Item k of the list appears in the text as line k + 1, right after the lines before it. */
  lemma NumberedLinesListEach(items: seq<string>, k: nat)
    requires k < |items|
    ensures OccursAt(NumberedLines(items), ServiceLine(k + 1, items[k]), |NumberedLines(items[..k])|)
  {
    NumberedLinesPrefix(items, k + 1);
    NumberedLinesStep(items, k);
    OccursAfterPrefix(NumberedLines(items[..k]), ServiceLine(k + 1, items[k]), NumberedLines(items));
  }

  lemma OccursAfterPrefix(a: string, b: string, whole: string)
    requires a + b <= whole
    ensures OccursAt(whole, b, |a|)
  {
    assert whole[..|a| + |b|] == a + b;
    assert whole[|a|..|a| + |b|] == (a + b)[|a|..];
    assert (a + b)[|a|..] == b;
  }

  lemma NumberedLinesStep(items: seq<string>, i: nat)
    requires i < |items|
    ensures NumberedLines(items[..i + 1]) == NumberedLines(items[..i]) + ServiceLine(i + 1, items[i])
  {
    assert items[..i + 1][..i] == items[..i];
  }

  /** The message handle_services builds for "2": the heading, then one numbered line per item,
      appended in a loop, then the closing line. Every item is listed under its number. */
  method NumberedMessage(heading: string, items: seq<string>, closing: string) returns (msg: string)
    ensures msg == heading + NumberedLines(items) + closing
    ensures forall k :: 0 <= k < |items| ==> Contains(msg, ServiceLine(k + 1, items[k]))
  {
    msg := heading;
    var idx := 0;
    while idx < |items|
      invariant 0 <= idx <= |items|
      invariant msg == heading + NumberedLines(items[..idx])
    {
      NumberedLinesStep(items, idx);
      msg := msg + ServiceLine(idx + 1, items[idx]);
      idx := idx + 1;
    }
    assert items[..idx] == items;
    msg := msg + closing;
    forall k | 0 <= k < |items| {
      LineInMessage(heading, items, closing, k);
    }
  }

  /** Whatever surrounds the numbered lines, each item's line is in the message. */
  lemma LineInMessage(header: string, items: seq<string>, footer: string, k: nat)
    requires k < |items|
    ensures Contains(header + NumberedLines(items) + footer, ServiceLine(k + 1, items[k]))
  {
    NumberedLinesListEach(items, k);
    var body := NumberedLines(items);
    var at := |NumberedLines(items[..k])|;
    var line := ServiceLine(k + 1, items[k]);
    OccursInMiddle(header, body, footer, line, at);
  }

  lemma OccursInMiddle(a: string, b: string, c: string, sub: string, i: nat)
    requires OccursAt(b, sub, i)
    ensures Contains(a + b + c, sub)
  {
    var s := a + b + c;
    forall j | 0 <= j < |sub|
      ensures s[|a| + i + j] == sub[j]
    {
      assert s[|a| + i + j] == b[i + j];
      assert b[i..i + |sub|][j] == b[i + j];
    }
    assert s[|a| + i..|a| + i + |sub|] == sub;
    ContainsAt(s, sub, |a| + i);
  }

  /** Every selected_product on record is one of the loan names LOAN_MAP offers. */
  ghost predicate ProductsChosen(users: seq<UserRow>) {
    forall i :: 0 <= i < |users| && users[i].selectedProduct.Some? ==> users[i].selectedProduct.value in LOAN_MAP.Values
  }

  /** A write keeps the invariant unless it puts something other than a loan name in selected_product. */
  lemma UpdateKeepsProductsChosen(users: seq<UserRow>, userId: nat, c: Column, v: string)
    requires ProductsChosen(users)
    requires c == SelectedProduct ==> v in LOAN_MAP.Values
    ensures ProductsChosen(Update(users, userId, c, v))
  {
    UpdateOnlyThatColumn(users, userId, c, v);
  }

  /** handle_services: "1" moves to LOAN_TYPES with the loan menu, "2" sends the key services and
      stays, "0" moves to MAIN_MENU; any other text does nothing. */
  method HandleServices(db: Database, out: Outbox, phone: string, text: string, user: UserRow)
    requires db.Valid()
    modifies db, out
    ensures db.Valid() && db.nextUserId == old(db.nextUserId) && db.applications == old(db.applications)
    ensures text == "1" ==>
      db.users == Update(old(db.users), user.id, ChatState, LOAN_TYPES) && out.sent == old(out.sent) + [Message(phone, LOAN_MENU)]
    ensures text == "2" ==>
      db.users == old(db.users) && out.sent == old(out.sent) + [Message(phone, SERVICES_HEADER + NumberedLines(SERVICE_LIST) + SERVICES_FOOTER)]
    ensures text == "0" ==>
      db.users == Update(old(db.users), user.id, ChatState, MAIN_MENU) && out.sent == old(out.sent) + [Message(phone, BACK_TO_MAIN)]
    ensures text !in {"0", "1", "2"} ==> db.users == old(db.users) && out.sent == old(out.sent)
  {
    if text == "1" {
      var _ := db.UpdateUser(user.id, "chat_state", LOAN_TYPES);
      out.SendText(phone, LOAN_MENU);
    } else if text == "2" {
      var msg := NumberedMessage(SERVICES_HEADER, SERVICE_LIST, SERVICES_FOOTER);
      out.SendText(phone, msg);
    } else if text == "0" {
      var _ := db.UpdateUser(user.id, "chat_state", MAIN_MENU);
      out.SendText(phone, BACK_TO_MAIN);
    }
  }

  /** handle_loan_types: a LOAN_MAP key stores that loan as selected_product, moves to
      CONFIRM_APPLY and names the loan; "0" moves back to SERVICES; any other text does nothing.
      So selected_product only ever holds one of the five loan names. */
  method HandleLoanTypes(db: Database, out: Outbox, phone: string, text: string, user: UserRow)
    requires db.Valid()
    modifies db, out
    ensures db.Valid() && db.nextUserId == old(db.nextUserId) && db.applications == old(db.applications)
    ensures ProductsChosen(old(db.users)) ==> ProductsChosen(db.users)
    ensures text in LOAN_MAP ==>
      && db.users == Update(Update(old(db.users), user.id, SelectedProduct, LOAN_MAP[text]), user.id, ChatState, CONFIRM_APPLY)
      && out.sent == old(out.sent) + [Message(phone, LoanPrompt(LOAN_MAP[text]))]
    ensures text == "0" ==>
      db.users == Update(old(db.users), user.id, ChatState, SERVICES) && out.sent == old(out.sent) + [Message(phone, BACK_TO_SERVICES)]
    ensures text !in LOAN_MAP && text != "0" ==> db.users == old(db.users) && out.sent == old(out.sent)
  {
    if text in LOAN_MAP {
      ghost var before := db.users;
      var _ := db.UpdateUser(user.id, "selected_product", LOAN_MAP[text]);
      var _ := db.UpdateUser(user.id, "chat_state", CONFIRM_APPLY);
      out.SendText(phone, LoanPrompt(LOAN_MAP[text]));
      if ProductsChosen(before) {
        UpdateKeepsProductsChosen(before, user.id, SelectedProduct, LOAN_MAP[text]);
        UpdateKeepsProductsChosen(Update(before, user.id, SelectedProduct, LOAN_MAP[text]), user.id, ChatState, CONFIRM_APPLY);
      }
    } else if text == "0" {
      ghost var before := db.users;
      var _ := db.UpdateUser(user.id, "chat_state", SERVICES);
      out.SendText(phone, BACK_TO_SERVICES);
      if ProductsChosen(before) {
        UpdateKeepsProductsChosen(before, user.id, ChatState, SERVICES);
      }
    }
  }
}
