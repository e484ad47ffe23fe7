/** The loan-application funnel (flows/applications.py): CONFIRM_APPLY → GET_NAME → GET_AGE →
    GET_ADDRESS → GET_ID → GET_ID_PHOTO → GET_AMOUNT → FINAL_CONFIRM → START.
    Each handler writes through update_user and replies through send_text; an exception raised by
    the store ends the handler there, which the handlers' Outcome results carry. */
module Applications {
  import opened Common
  import opened FinanceStore
  import opened Messaging

  const CONFIRM_APPLY := "CONFIRM_APPLY"
  const GET_NAME := "GET_NAME"
  const GET_AGE := "GET_AGE"
  const GET_ADDRESS := "GET_ADDRESS"
  const GET_ID := "GET_ID"
  const GET_ID_PHOTO := "GET_ID_PHOTO"
  const GET_AMOUNT := "GET_AMOUNT"
  const FINAL_CONFIRM := "FINAL_CONFIRM"

  /** The column handle_get_id_photo writes; it is not one update_user accepts. */
  const ID_PHOTO_FIELD := "id_photo_url"

  const ASK_FULL_NAME := "🧾 Please enter your *Full Name*:"
  const ASK_AGE := "🎂 Enter your *Age*:"
  const INVALID_AGE := "❌ Please enter a valid age."
  const ASK_ADDRESS := "🏠 Enter your *Full Address*:"
  const ASK_NATIONAL_ID := "🆔 Enter your *National ID Number*:"
  const ASK_ID_PHOTO := "📸 Please upload a *photo of your ID*:"
  const PHOTO_MISSING := "⚠️ Please upload a photo to proceed."
  const CONFIRM_SUBMISSION := "✅ *Confirm Submission*\n\nReply *YES* to submit your application\nor *EXIT* to cancel"
  const SUBMITTED := "🎉 Your loan application has been submitted successfully.\nOur team will contact you shortly."

  /** `text.lower() == word`: the test both confirmation steps use. */
  predicate Says(text: string, word: string) {
    Lower(text) == word
  }

  /** A confirmation word written in lower-case letters is matched without regard to case:
      the text says it exactly when it spells the word letter by letter, each letter either
      as written or as its capital. */
  lemma SaysIgnoresCase(text: string, word: string)
    requires forall i :: 0 <= i < |word| ==> 'a' <= word[i] <= 'z'
    ensures Says(text, word) <==>
      |text| == |word| && forall i :: 0 <= i < |text| ==> text[i] == word[i] || text[i] as int == word[i] as int - 32
  {
    var low := Lower(text);
    if Says(text, word) {
      forall i | 0 <= i < |text|
        ensures text[i] == word[i] || text[i] as int == word[i] as int - 32
      {
        if 'A' <= text[i] <= 'Z' {
          assert low[i] as int == text[i] as int + 32;
        } else {
          assert low[i] == text[i];
        }
      }
    }
    if |text| == |word| && forall i :: 0 <= i < |text| ==> text[i] == word[i] || text[i] as int == word[i] as int - 32 {
      forall i | 0 <= i < |text|
        ensures low[i] == word[i]
      {
        if 'A' <= text[i] <= 'Z' {
          assert low[i] as int == text[i] as int + 32;
        }
      }
      assert low == word;
    }
  }

  /** The two confirmation words, in the cases a user might type them. */
  lemma ConfirmationWordsIgnoreCase()
    ensures Says("APPLY", "apply") && Says("aPpLy", "apply") && !Says("apply ", "apply")
    ensures Says("YES", "yes") && Says("Yes", "yes") && !Says("yes!", "yes")
  {
    SaysIgnoresCase("APPLY", "apply");
    SaysIgnoresCase("aPpLy", "apply");
    SaysIgnoresCase("YES", "yes");
    SaysIgnoresCase("Yes", "yes");
  }

  /** handle_get_id_photo treats a missing or empty downloadUrl alike (`if not file_url`). */
  predicate HasUpload(downloadUrl: Option<string>) {
    downloadUrl.Some? && downloadUrl.value != ""
  }

  /** handle_confirm_apply: "apply" in any case moves to GET_NAME and asks for the full name;
      any other text changes nothing and sends nothing. */
  method HandleConfirmApply(db: Database, out: Outbox, phone: string, text: string, user: UserRow) returns (r: Outcome<DbError>)
    requires db.Valid()
    modifies db, out
    ensures db.Valid() && db.nextUserId == old(db.nextUserId) && r == Pass && db.applications == old(db.applications)
    ensures Says(text, "apply") ==>
      db.users == Update(old(db.users), user.id, ChatState, GET_NAME) && out.sent == old(out.sent) + [Message(phone, ASK_FULL_NAME)]
    ensures !Says(text, "apply") ==> db.users == old(db.users) && out.sent == old(out.sent)
  {
    if Lower(text) == "apply" {
      var _ := db.UpdateUser(user.id, "chat_state", GET_NAME);
      out.SendText(phone, ASK_FULL_NAME);
    }
    return Pass;
  }

  /** handle_get_name: stores the text as full_name, then moves to GET_AGE. */
  method HandleGetName(db: Database, out: Outbox, phone: string, text: string, user: UserRow) returns (r: Outcome<DbError>)
    requires db.Valid()
    modifies db, out
    ensures db.Valid() && db.nextUserId == old(db.nextUserId) && r == Pass && db.applications == old(db.applications)
    ensures db.users == Update(Update(old(db.users), user.id, FullName, text), user.id, ChatState, GET_AGE)
    ensures out.sent == old(out.sent) + [Message(phone, ASK_AGE)]
  {
    var _ := db.UpdateUser(user.id, "full_name", text);
    var _ := db.UpdateUser(user.id, "chat_state", GET_AGE);
    out.SendText(phone, ASK_AGE);
    return Pass;
  }

  /** handle_get_age: a text that is not all digits gets the error reply and no write; digits are
      stored as the age text and the state moves to GET_ADDRESS. */
  method HandleGetAge(db: Database, out: Outbox, phone: string, text: string, user: UserRow) returns (r: Outcome<DbError>)
    requires db.Valid()
    modifies db, out
    ensures db.Valid() && db.nextUserId == old(db.nextUserId) && r == Pass && db.applications == old(db.applications)
    ensures !IsDigits(text) ==> db.users == old(db.users) && out.sent == old(out.sent) + [Message(phone, INVALID_AGE)]
    ensures IsDigits(text) ==>
      db.users == Update(Update(old(db.users), user.id, Age, text), user.id, ChatState, GET_ADDRESS) &&
      out.sent == old(out.sent) + [Message(phone, ASK_ADDRESS)]
  {
    if !IsDigits(text) {
      out.SendText(phone, INVALID_AGE);
      return Pass;
    }
    var _ := db.UpdateUser(user.id, "age", text);
    var _ := db.UpdateUser(user.id, "chat_state", GET_ADDRESS);
    out.SendText(phone, ASK_ADDRESS);
    return Pass;
  }

  /** handle_get_address: stores the address, then moves to GET_ID. */
  method HandleGetAddress(db: Database, out: Outbox, phone: string, text: string, user: UserRow) returns (r: Outcome<DbError>)
    requires db.Valid()
    modifies db, out
    ensures db.Valid() && db.nextUserId == old(db.nextUserId) && r == Pass && db.applications == old(db.applications)
    ensures db.users == Update(Update(old(db.users), user.id, Address, text), user.id, ChatState, GET_ID)
    ensures out.sent == old(out.sent) + [Message(phone, ASK_NATIONAL_ID)]
  {
    var _ := db.UpdateUser(user.id, "address", text);
    var _ := db.UpdateUser(user.id, "chat_state", GET_ID);
    out.SendText(phone, ASK_NATIONAL_ID);
    return Pass;
  }

  /** handle_get_id: stores the national id number, then moves to GET_ID_PHOTO. */
  method HandleGetId(db: Database, out: Outbox, phone: string, text: string, user: UserRow) returns (r: Outcome<DbError>)
    requires db.Valid()
    modifies db, out
    ensures db.Valid() && db.nextUserId == old(db.nextUserId) && r == Pass && db.applications == old(db.applications)
    ensures db.users == Update(Update(old(db.users), user.id, NationalId, text), user.id, ChatState, GET_ID_PHOTO)
    ensures out.sent == old(out.sent) + [Message(phone, ASK_ID_PHOTO)]
  {
    var _ := db.UpdateUser(user.id, "national_id", text);
    var _ := db.UpdateUser(user.id, "chat_state", GET_ID_PHOTO);
    out.SendText(phone, ASK_ID_PHOTO);
    return Pass;
  }

  /** handle_get_id_photo: without an upload it asks again and stays in GET_ID_PHOTO. With one, its
      first write names id_photo_url, which update_user rejects: the handler raises there, so
      nothing is written, nothing is sent and the state never reaches GET_AMOUNT. */
  method HandleGetIdPhoto(db: Database, out: Outbox, phone: string, downloadUrl: Option<string>, user: UserRow)
    returns (r: Outcome<DbError>)
    requires db.Valid()
    modifies db, out
    ensures db.Valid() && db.nextUserId == old(db.nextUserId) && db.users == old(db.users) && db.applications == old(db.applications)
    ensures !HasUpload(downloadUrl) ==> r == Pass && out.sent == old(out.sent) + [Message(phone, PHOTO_MISSING)]
    ensures HasUpload(downloadUrl) ==> r == Fail(InvalidFieldUpdate) && out.sent == old(out.sent)
  {
    if !HasUpload(downloadUrl) {
      out.SendText(phone, PHOTO_MISSING);
      return Pass;
    }
    r := db.UpdateUser(user.id, ID_PHOTO_FIELD, downloadUrl.value);
  }

  /** handle_get_amount: stores the amount, moves to FINAL_CONFIRM and asks for confirmation. */
  method HandleGetAmount(db: Database, out: Outbox, phone: string, text: string, user: UserRow) returns (r: Outcome<DbError>)
    requires db.Valid()
    modifies db, out
    ensures db.Valid() && db.nextUserId == old(db.nextUserId) && r == Pass && db.applications == old(db.applications)
    ensures db.users == Update(Update(old(db.users), user.id, Amount, text), user.id, ChatState, FINAL_CONFIRM)
    ensures out.sent == old(out.sent) + [Message(phone, CONFIRM_SUBMISSION)]
  {
    var _ := db.UpdateUser(user.id, "amount", text);
    var _ := db.UpdateUser(user.id, "chat_state", FINAL_CONFIRM);
    out.SendText(phone, CONFIRM_SUBMISSION);
    return Pass;
  }

  /** handle_final_confirm: "yes" in any case appends the user's application, resets the state to
      START and thanks the user; an unknown user id raises before anything is written. Any other
      text does nothing. */
  method HandleFinalConfirm(db: Database, out: Outbox, phone: string, text: string, user: UserRow) returns (r: Outcome<DbError>)
    requires db.Valid()
    modifies db, out
    ensures db.Valid() && db.nextUserId == old(db.nextUserId)
    ensures !Says(text, "yes") ==>
      r == Pass && db.users == old(db.users) && db.applications == old(db.applications) && out.sent == old(out.sent)
    ensures Says(text, "yes") && FindById(old(db.users), user.id).None? ==>
      r == Fail(UserNotFound) && db.users == old(db.users) && db.applications == old(db.applications) && out.sent == old(out.sent)
    ensures Says(text, "yes") && FindById(old(db.users), user.id).Some? ==>
      && r == Pass
      && db.applications == old(db.applications) + [ApplicationOf(|old(db.applications)| + 1, FindById(old(db.users), user.id).value)]
      && db.users == Update(old(db.users), user.id, ChatState, START)
      && out.sent == old(out.sent) + [Message(phone, SUBMITTED)]
  {
    if Lower(text) == "yes" {
      :- db.SaveFinalApplication(user.id);
      var _ := db.UpdateUser(user.id, "chat_state", START);
      out.SendText(phone, SUBMITTED);
    }
    return Pass;
  }
}
