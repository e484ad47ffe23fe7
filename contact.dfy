/** The branch directory (flows/contact.py): the menu of branches and each branch's details. */
module Contact {
  import opened Common
  import opened FinanceStore
  import opened Messaging

  const CONTACT_BRANCH := "CONTACT_BRANCH"

  datatype Branch = Branch(name: string, details: string)

  const HEAD_OFFICE := Branch("Head Office",
    "🏢 *Head Office*\n\n📍 19 Dan Judson Rd,\nMilton Park, Harare, Zimbabwe\n\n📞 +263 242-750-377/9\n📱 +263 788 369 595\n\n📧 hello@microhub.co.zw")
  const KAGUVI_BRANCH := Branch("Main Branch (Kaguvi)",
    "🏢 *Main Branch – Kaguvi*\n\n📍 61 Kaguvi Street,\nHarare, Zimbabwe\n\n📞 +263 242-750-377/9\n📱 +263 788 369 595\n\n📧 hellokaguvi@microhub.co.zw")
  const CHITUNGWIZA_BRANCH := Branch("Chitungwiza Branch",
    "🏢 *Chitungwiza Branch*\n\n📍 Shop No 6, Vintage Mall,\nMakoni, Chitungwiza\n\n📞 +263 242-750-377/9\n📱 +263 789 562 534\n📱 +263 788 369 595\n\n📧 hello@microhub.co.zw")
  const KAROI_BRANCH := Branch("Karoi Branch",
    "🏢 *Karoi Branch*\n\n📍 757 Chifamba Complex, Karoi\n\n📱 +263 789 562 592\n📱 +263 788 369 595\n\n📧 hello@microhub.co.zw")
  const CHEGUTU_BRANCH := Branch("Chegutu Branch",
    "🏢 *Chegutu Branch*\n\n📍 72 King Street, Chegutu\n\n📱 +263 789 562 589\n📱 +263 788 369 595\n\n📧 hello@microhub.co.zw")
  const BINDURA_BRANCH := Branch("Bindura Branch",
    "🏢 *Bindura Branch*\n\n📍 Shop No 4, First Floor,\nBindura Mall, Robert Mugabe St\n\n📱 +263 789 562 549\n📱 +263 788 369 595\n\n📧 hello@microhub.co.zw")
  const KADOMA_BRANCH := Branch("Kadoma Branch",
    "🏢 *Kadoma Branch*\n\n📍 5 & 6 Herbert Chitepo St,\nSam Levy Building, Kadoma\n\n📱 +263 789 562 540\n📱 +263 788 369 595\n\n📧 hello@microhub.co.zw")
  const MARONDERA_BRANCH := Branch("Marondera Branch",
    "🏢 *Marondera Branch*\n\n📍 Shop 103, Corncode Building,\n39 Pine Street, Marondera\n\n📱 +263 789 562 538\n📱 +263 788 369 595\n\n📧 hello@microhub.co.zw")
  const CHINHOYI_BRANCH := Branch("Chinhoyi Branch",
    "🏢 *Chinhoyi Branch*\n\n📍 5246 Midway Street,\nSkyjuice House, Chinhoyi\n\n📱 +263 789 562 590\n📱 +263 788 369 595\n\n📧 hello@microhub.co.zw")
  const MUREHWA_BRANCH := Branch("Murehwa Branch",
    "🏢 *Murehwa Branch*\n\n📍 Shop No 4, Mapfumo Complex,\nMurehwa\n\n📱 +263 789 562 591\n📱 +263 788 369 595\n\n📧 hello@microhub.co.zw")
  const CHIVHU_BRANCH := Branch("Chivhu Branch",
    "🏢 *Chivhu Branch*\n\n📍 262 Cloete Street, Chivhu\n\n📱 +263 789 562 593\n📱 +263 788 369 595\n\n📧 hello@microhub.co.zw")
  const MUTARE_BRANCH := Branch("Mutare Branch",
    "🏢 *Mutare Branch*\n\n📍 1018 Herbert Chitepo Street,\nSunrise Complex, First Floor, Shop 6\n\n📱 +263 789 562 540\n📱 +263 788 369 595\n\n📧 hello@microhub.co.zw")
  const MASVINGO_BRANCH := Branch("Masvingo Branch",
    "🏢 *Masvingo Branch*\n\n📍 113 Hellet Street,\nJunior Complex, Office No. 9,\nFirst Floor, Masvingo\n\n📱 +263 774 552 231\n📱 +263 788 369 595\n\n📧 hello@microhub.co.zw")
  const GWERU_BRANCH := Branch("Gweru Branch",
    "🏢 *Gweru Branch*\n\n📍 Shop No. 10, 62 Musopero Building,\n7th Street, Gweru\n\n📱 +263 776 426 687\n📱 +263 788 369 595\n\n📧 hello@microhub.co.zw")
  const BULAWAYO_BRANCH := Branch("Bulawayo Branch",
    "🏢 *Bulawayo Branch*\n\n📍 Shop 5, MZ Mall,\n89 Robert Mugabe Way,\nBetween 8th & 9th Avenue\n\n📱 +263 786 522 442\n📱 +263 788 369 595\n\n📧 hello@microhub.co.zw")

  /** The fifteen places the directory lists, in menu order. */
  datatype Site = HeadOffice | Kaguvi | Chitungwiza | Karoi | Chegutu | Bindura | Kadoma | Marondera
                | Chinhoyi | Murehwa | Chivhu | Mutare | Masvingo | Gweru | Bulawayo

  /** The name and details BRANCHES holds for each place. */
  function BranchOf(site: Site): Branch {
    match site
    case HeadOffice => HEAD_OFFICE
    case Kaguvi => KAGUVI_BRANCH
    case Chitungwiza => CHITUNGWIZA_BRANCH
    case Karoi => KAROI_BRANCH
    case Chegutu => CHEGUTU_BRANCH
    case Bindura => BINDURA_BRANCH
    case Kadoma => KADOMA_BRANCH
    case Marondera => MARONDERA_BRANCH
    case Chinhoyi => CHINHOYI_BRANCH
    case Murehwa => MUREHWA_BRANCH
    case Chivhu => CHIVHU_BRANCH
    case Mutare => MUTARE_BRANCH
    case Masvingo => MASVINGO_BRANCH
    case Gweru => GWERU_BRANCH
    case Bulawayo => BULAWAYO_BRANCH
  }

  /** BRANCHES, keyed by the number the user types. */
  const BRANCHES: map<string, Site> := map[
    "1" := HeadOffice,
    "2" := Kaguvi,
    "3" := Chitungwiza,
    "4" := Karoi,
    "5" := Chegutu,
    "6" := Bindura,
    "7" := Kadoma,
    "8" := Marondera,
    "9" := Chinhoyi,
    "10" := Murehwa,
    "11" := Chivhu,
    "12" := Mutare,
    "13" := Masvingo,
    "14" := Gweru,
    "15" := Bulawayo
  ]

  const BRANCH_NUMBERS: set<string> := {"1", "2", "3", "4", "5", "6", "7", "8", "9", "10", "11", "12", "13", "14", "15"}

  const BRANCH_MENU := "📍 *Microhub Branches*\n\n1️⃣ Head Office\n2️⃣ Main Branch (Kaguvi)\n3️⃣ Chitungwiza\n4️⃣ Karoi\n5️⃣ Chegutu\n6️⃣ Bindura\n7️⃣ Kadoma\n8️⃣ Marondera\n9️⃣ Chinhoyi\n🔟 Murehwa\n1️⃣1️⃣ Chivhu\n1️⃣2️⃣ Mutare\n1️⃣3️⃣ Masvingo\n1️⃣4️⃣ Gweru\n1️⃣5️⃣ Bulawayo"

  const INVALID_BRANCH := "❌ Invalid branch. Please choose a number from the list."

  /** The keys are the numbers "1" to "15". */
  lemma BranchKeys()
    ensures BRANCHES.Keys == BRANCH_NUMBERS
  {
  }

  /** Every number from 1 to 15, written in decimal, is a branch key. */
  lemma NumeralsAreBranchKeys(n: nat)
    requires 1 <= n <= 15
    ensures NatToString(n) in BRANCHES
  {
    NumeralListed(n);
    BranchKeys();
  }

  lemma NumeralListed(n: nat)
    requires 1 <= n <= 15
    ensures NatToString(n) in BRANCH_NUMBERS
  {
    if n < 10 {
      OneDigitListed(n);
    } else {
      TwoDigitsListed(n);
    }
  }

  lemma OneDigitListed(n: nat)
    requires 1 <= n <= 9
    ensures NatToString(n) in BRANCH_NUMBERS
  {
    if n == 1 { assert NatToString(1) == "1"; }
    else if n == 2 { assert NatToString(2) == "2"; }
    else if n == 3 { assert NatToString(3) == "3"; }
    else if n == 4 { assert NatToString(4) == "4"; }
    else if n == 5 { assert NatToString(5) == "5"; }
    else if n == 6 { assert NatToString(6) == "6"; }
    else if n == 7 { assert NatToString(7) == "7"; }
    else if n == 8 { assert NatToString(8) == "8"; }
    else { assert NatToString(9) == "9"; }
  }

  lemma TwoDigitsListed(n: nat)
    requires 10 <= n <= 15
    ensures NatToString(n) in BRANCH_NUMBERS
  {
    TwoDigitNumeral(n);
    if n == 10 { assert ['1', DigitChar(0)] == "10"; }
    else if n == 11 { assert ['1', DigitChar(1)] == "11"; }
    else if n == 12 { assert ['1', DigitChar(2)] == "12"; }
    else if n == 13 { assert ['1', DigitChar(3)] == "13"; }
    else if n == 14 { assert ['1', DigitChar(4)] == "14"; }
    else { assert ['1', DigitChar(5)] == "15"; }
  }

  /** A number from 10 to 19 prints as '1' followed by its last digit. */
  lemma TwoDigitNumeral(n: nat)
    requires 10 <= n <= 19
    ensures NatToString(n) == ['1', DigitChar(n - 10)]
  {
    assert NatToString(n / 10) == ['1'];
  }

  /** Every branch key is the decimal text of a number from 1 to 15. */
  lemma BranchKeysAreNumerals(key: string)
    requires key in BRANCHES
    ensures IsDigits(key) && 1 <= DigitsValue(key) <= 15 && key == NatToString(DigitsValue(key))
  {
    BranchKeys();
    ListedKeyDigits(key);
    DigitsRoundTrip(key);
  }

  lemma ListedKeyDigits(key: string)
    requires key in BRANCH_NUMBERS
    ensures IsDigits(key) && (|key| == 1 || key[0] == '1') && 1 <= DigitsValue(key) <= 15
  {
  }

  /** handle_contact_menu: whatever the text, moves to CONTACT_BRANCH and sends the branch list. */
  method HandleContactMenu(db: Database, out: Outbox, phone: string, user: UserRow)
    requires db.Valid()
    modifies db, out
    ensures db.Valid() && db.nextUserId == old(db.nextUserId) && db.applications == old(db.applications)
    ensures db.users == Update(old(db.users), user.id, ChatState, CONTACT_BRANCH)
    ensures out.sent == old(out.sent) + [Message(phone, BRANCH_MENU)]
  {
    var _ := db.UpdateUser(user.id, "chat_state", CONTACT_BRANCH);
    out.SendText(phone, BRANCH_MENU);
  }

  /** handle_contact_selection: sends exactly one message, the chosen branch's details or the
      invalid-branch notice, and writes nothing (it does not touch the store). */
  method HandleContactSelection(out: Outbox, phone: string, text: string)
    modifies out
    ensures text in BRANCHES ==> out.sent == old(out.sent) + [Message(phone, BranchOf(BRANCHES[text]).details)]
    ensures text !in BRANCHES ==> out.sent == old(out.sent) + [Message(phone, INVALID_BRANCH)]
  {
    if text in BRANCHES {
      out.SendText(phone, BranchOf(BRANCHES[text]).details);
      return;
    }
    out.SendText(phone, INVALID_BRANCH);
  }
}
