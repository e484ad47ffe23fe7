/** The dating bot's conversation (app.py): the webhook, the handle_message funnel
    START -> GET_NAME -> GET_AGE -> GET_GENDER -> GET_LOCATION -> GET_MOTIVE -> AWAITING_PAYMENT,
    and the pure parts of initiate_payment. */
module DatingApp {
  import opened Common
  import opened DatingStore
  import Poller

  const GET_NAME := "GET_NAME"
  const GET_AGE := "GET_AGE"
  const GET_GENDER := "GET_GENDER"
  const GET_LOCATION := "GET_LOCATION"
  const GET_MOTIVE := "GET_MOTIVE"
  const AWAITING_PAYMENT := "AWAITING_PAYMENT"

  /** The onboarding funnel in order; ACTIVE_SEARCH lies beyond it and only payment reaches it. */
  const FUNNEL: seq<string> := [START, GET_NAME, GET_AGE, GET_GENDER, GET_LOCATION, GET_MOTIVE, AWAITING_PAYMENT]

  const WELCOME := "Welcome ❤️ What is your name?"
  const ASK_AGE := "How old are you?"
  const INVALID_AGE := "Please enter a valid age."
  const ASK_GENDER := "Gender? (Male/Female/Other)"
  const ASK_LOCATION := "Which city are you in?"
  const ASK_MOTIVE := "What are you looking for? (Soulmate / Casual / Sugar)"
  const PAYMENT_INITIATED := "💰 Payment initiated. Please confirm on Ecocash."
  const PAYMENT_REMINDER := "Please complete your Ecocash payment to continue."
  const NO_MATCHES := "No matches yet. Please check again later."
  const FALLBACK := "Something went wrong. Please restart."

  const SUBSCRIPTION_AMOUNT := "5.00"
  const POLL_MARKER := "pollurl="

  /** What the matcher consulted in ACTIVE_SEARCH reports about a match. */
  datatype MatchInfo = MatchInfo(name: string, age: string, location: string)

  /** How the Paynow request of initiate_payment ended: the body Paynow answered with, or an
      exception (the POST failing, or PAYNOW_ID or PAYNOW_KEY missing from the environment). */
  datatype PaynowAnswer = Answered(body: string) | Raised

  /** An exception that escapes handle_message; the webhook then answers with no reply. */
  datatype HandlerError = PaymentRequestRaised

  function MatchFound(m: MatchInfo): string {
    "🔥 Match Found!\nName: " + m.name + "\nAge: " + m.age + "\nLocation: " + m.location
  }

  // ---------------------------------------------------------------
  // initiate_payment: reference and poll url
  // ---------------------------------------------------------------

  /** f"SUB-{user_id}-{int(time.time())}" */
  function PaymentReference(userId: nat, timestamp: nat): string {
    "SUB-" + NatToString(userId) + "-" + NatToString(timestamp)
  }

  /** Reads a payment reference back into the user id and timestamp it was built from. */
  function ParsePaymentReference(reference: string): Option<(nat, nat)> {
    if |reference| < 4 || reference[..4] != "SUB-" then None
    else
      var rest := reference[4..];
      match IndexOf(rest, "-")
      case None => None
      case Some(k) =>
        var a, b := rest[..k], rest[k + 1..];
        if IsDigits(a) && IsDigits(b) then Some((DigitsValue(a), DigitsValue(b))) else None
  }

  /** The reference records who pays and when: it reads back as exactly the user id and the
      timestamp it was made from. */
  lemma ReferenceRoundTrip(userId: nat, timestamp: nat)
    ensures ParsePaymentReference(PaymentReference(userId, timestamp)) == Some((userId, timestamp))
  {
    var a, b := NatToString(userId), NatToString(timestamp);
    var reference := PaymentReference(userId, timestamp);
    assert reference[..4] == "SUB-";
    var rest := reference[4..];
    assert rest == a + "-" + b;
    assert OccursAt(rest, "-", |a|);
    forall j | 0 <= j < |a|
      ensures !OccursAt(rest, "-", j)
    {
      assert rest[j] == a[j] && IsDigit(a[j]);
      assert rest[j..j + 1] == [rest[j]];
    }
    assert IndexOf(rest, "-") == Some(|a|);
    assert rest[..|a|] == a;
    assert rest[|a| + 1..] == b;
  }

  /** Two payments get the same reference only if they are for the same user at the same second. */
  lemma ReferenceInjective(u1: nat, t1: nat, u2: nat, t2: nat)
    requires PaymentReference(u1, t1) == PaymentReference(u2, t2)
    ensures u1 == u2 && t1 == t2
  {
    ReferenceRoundTrip(u1, t1);
    ReferenceRoundTrip(u2, t2);
  }

  /** r.text.split("pollurl=")[-1] */
  function PollUrl(response: string): (url: string)
    ensures |url| <= |response| && url == response[|response| - |url|..]
    ensures !Contains(url, POLL_MARKER)
    ensures !Contains(response, POLL_MARKER) ==> url == response
    ensures Contains(response, POLL_MARKER) ==> OccursAt(response, POLL_MARKER, |response| - |url| - |POLL_MARKER|)
  {
    SplitLastHasNoSeparator(response, POLL_MARKER);
    if Contains(response, POLL_MARKER) then
      SplitLastFollowsSeparator(response, POLL_MARKER);
      SplitLast(response, POLL_MARKER)
    else
      SplitLastAbsent(response, POLL_MARKER);
      SplitLast(response, POLL_MARKER)
  }

  // ---------------------------------------------------------------
  // The transition taken by handle_message
  // ---------------------------------------------------------------

  datatype FieldWrite = FieldWrite(field: string, value: Value)

  /** What one message does: the reply, the profile write, the new chat_state and whether a
      payment is initiated. */
  datatype Step = Step(reply: string, write: Option<FieldWrite>, next: Option<string>, pays: bool)

  /** The branch of handle_message taken in `state` on (already stripped) `text`; `found` is what
      the matcher reports in ACTIVE_SEARCH. */
  function Decide(state: string, text: string, found: Option<MatchInfo>): (r: Step)
    ensures r.write.Some? ==> r.write.value.field in ALLOWED_PROFILE_FIELDS
    ensures r.next.Some? ==> r.next.value in FUNNEL[1..]
    ensures r.pays ==> r.next == Some(AWAITING_PAYMENT)
  {
    if state == START then
      Step(WELCOME, None, Some(GET_NAME), false)
    else if state == GET_NAME then
      Step(ASK_AGE, Some(FieldWrite("name", Str(text))), Some(GET_AGE), false)
    else if state == GET_AGE then
      if !IsDigits(text) then Step(INVALID_AGE, None, None, false)
      else Step(ASK_GENDER, Some(FieldWrite("age", Int(DigitsValue(text)))), Some(GET_GENDER), false)
    else if state == GET_GENDER then
      Step(ASK_LOCATION, Some(FieldWrite("gender", Str(Capitalize(text)))), Some(GET_LOCATION), false)
    else if state == GET_LOCATION then
      Step(ASK_MOTIVE, Some(FieldWrite("location", Str(text))), Some(GET_MOTIVE), false)
    else if state == GET_MOTIVE then
      Step(PAYMENT_INITIATED, Some(FieldWrite("motive", Str(text))), Some(AWAITING_PAYMENT), true)
    else if state == AWAITING_PAYMENT then
      Step(PAYMENT_REMINDER, None, None, false)
    else if state == ACTIVE_SEARCH then
      Step(if found.Some? then MatchFound(found.value) else NO_MATCHES, None, None, false)
    else
      Step(FALLBACK, None, None, false)
  }

  /** The position of a state in the funnel. */
  function Rank(state: string): (r: Option<nat>)
    ensures r.Some? ==> r.value < |FUNNEL| && FUNNEL[r.value] == state
    ensures r.None? ==> state !in FUNNEL
  {
    if state == START then Some(0)
    else if state == GET_NAME then Some(1)
    else if state == GET_AGE then Some(2)
    else if state == GET_GENDER then Some(3)
    else if state == GET_LOCATION then Some(4)
    else if state == GET_MOTIVE then Some(5)
    else if state == AWAITING_PAYMENT then Some(6)
    else None
  }

  /** Every state change moves exactly one step down the funnel; nothing leaves AWAITING_PAYMENT,
      ACTIVE_SEARCH or an unknown state. */
  lemma StepAdvancesOneStage(state: string, text: string, found: Option<MatchInfo>)
    ensures var s := Decide(state, text, found);
      s.next.Some? ==> Rank(state).Some? && Rank(state).value < 6 && s.next.value == FUNNEL[Rank(state).value + 1]
    ensures state == AWAITING_PAYMENT || state == ACTIVE_SEARCH || Rank(state).None? ==>
      Decide(state, text, found).next.None? && Decide(state, text, found).write.None? && !Decide(state, text, found).pays
  {
  }

  /** Every profile write handle_message makes names a column of the allow-list, so
      update_profile_field never raises here; and the column written is the one the state asks for. */
  lemma StepWritesAllowedField(state: string, text: string, found: Option<MatchInfo>)
    ensures var s := Decide(state, text, found);
      s.write.Some? ==>
        (&& s.write.value.field in ALLOWED_PROFILE_FIELDS
         && Rank(state).Some? && 1 <= Rank(state).value <= 5
         && s.write.value.field == ["name", "age", "gender", "location", "motive"][Rank(state).value - 1])
  {
  }

  /** Exactly the GET_MOTIVE step initiates a payment, and it always does. */
  lemma OnlyMotiveStepPays(state: string, text: string, found: Option<MatchInfo>)
    ensures Decide(state, text, found).pays <==> state == GET_MOTIVE
  {
  }

  /** In GET_GENDER the step ignores how the user cased the gender. */
  lemma GenderStepIgnoresCase(a: string, b: string, found: Option<MatchInfo>)
    requires Lower(a) == Lower(b)
    ensures Decide(GET_GENDER, a, found) == Decide(GET_GENDER, b, found)
  {
    CapitalizeIgnoresCase(a, b);
  }

  /** The chat state reached after a sequence of messages (ACTIVE_SEARCH finding no match). */
  function Replay(state: string, texts: seq<string>): string
    decreases |texts|
  {
    if texts == [] then state
    else
      var s := Decide(state, texts[0], None);
      Replay(if s.next.Some? then s.next.value else state, texts[1..])
  }

  /** Six valid messages take a new user from START to AWAITING_PAYMENT. */
  lemma CompleteFunnel(first: string, name: string, age: string, gender: string, location: string, motive: string)
    requires IsDigits(age)
    ensures Replay(START, [first, name, age, gender, location, motive]) == AWAITING_PAYMENT
  {
    var t := [first, name, age, gender, location, motive];
    assert Replay(START, t) == Replay(GET_NAME, t[1..]);
    assert t[1..][1..] == t[2..];
    assert Replay(GET_NAME, t[1..]) == Replay(GET_AGE, t[2..]);
    assert t[2..][1..] == t[3..];
    assert Replay(GET_AGE, t[2..]) == Replay(GET_GENDER, t[3..]);
    assert t[3..][1..] == t[4..];
    assert Replay(GET_GENDER, t[3..]) == Replay(GET_LOCATION, t[4..]);
    assert t[4..][1..] == t[5..];
    assert Replay(GET_LOCATION, t[4..]) == Replay(GET_MOTIVE, t[5..]);
    assert t[5..][1..] == [];
    assert Replay(GET_MOTIVE, t[5..]) == Replay(AWAITING_PAYMENT, []);
  }

  /** Invalid ages never advance the funnel, however many arrive. */
  lemma {:induction false} InvalidAgesStayPut(texts: seq<string>)
    requires forall i :: 0 <= i < |texts| ==> !IsDigits(texts[i])
    ensures Replay(GET_AGE, texts) == GET_AGE
    decreases |texts|
  {
    if texts != [] {
      InvalidAgesStayPut(texts[1..]);
    }
  }

  /** From a funnel state, messages never move the conversation backwards, nor more stages
      forward than there are messages, nor out of the funnel. */
  lemma {:induction false} ReplayMonotone(state: string, texts: seq<string>)
    requires Rank(state).Some?
    ensures Rank(Replay(state, texts)).Some?
    ensures Rank(state).value <= Rank(Replay(state, texts)).value <= Rank(state).value + |texts|
    decreases |texts|
  {
    if texts != [] {
      var s := Decide(state, texts[0], None);
      StepAdvancesOneStage(state, texts[0], None);
      var next := if s.next.Some? then s.next.value else state;
      assert Rank(next).Some? && Rank(state).value <= Rank(next).value <= Rank(state).value + 1;
      ReplayMonotone(next, texts[1..]);
    }
  }

  /** No message takes a user out of AWAITING_PAYMENT: only the poller settling a payment does. */
  lemma {:induction false} StuckAwaitingPayment(texts: seq<string>)
    ensures Replay(AWAITING_PAYMENT, texts) == AWAITING_PAYMENT
    decreases |texts|
  {
    if texts != [] {
      StuckAwaitingPayment(texts[1..]);
    }
  }

  // ---------------------------------------------------------------
  // handle_message and the webhook against the store
  // ---------------------------------------------------------------

  /** The users table after a step for the user with id uid. */
  function StepUsers(users: seq<User>, uid: nat, s: Step): seq<User> {
    if s.next.Some? then SetChatState(users, uid, s.next.value) else users
  }

  /** The profiles table after a step; a field outside the allow-list would raise before writing. */
  function StepProfiles(profiles: map<nat, Profile>, uid: nat, s: Step): map<nat, Profile> {
    if s.write.Some? && ParseProfileField(s.write.value.field).Some? then
      WriteField(profiles, uid, ParseProfileField(s.write.value.field).value, s.write.value.value)
    else profiles
  }

  /** The transactions table after a step taken at time now with Paynow's answer paynow: a
      payment step records its transaction only once Paynow has answered. */
  function StepTransactions(txs: seq<Transaction>, uid: nat, s: Step, now: nat, paynow: PaynowAnswer): seq<Transaction> {
    if s.pays && paynow.Answered? then
      txs + [Transaction(|txs| + 1, uid, PaymentReference(uid, now), PollUrl(paynow.body), SUBSCRIPTION_AMOUNT, Pending, now)]
    else txs
  }

  /** What handle_message returns after a step: its reply, unless the step's Paynow request raised. */
  function ReplyFor(s: Step, paynow: PaynowAnswer): Result<string, HandlerError> {
    if s.pays && paynow.Raised? then Failure(PaymentRequestRaised) else Success(s.reply)
  }

  /** The store and reply after handle_message(phone, text): the user is looked up or created,
      then the step Decide chooses for its state is applied to that user. */
  twostate predicate Handled(store: Store, phone: string, text: string, now: nat, paynow: PaynowAnswer,
                             found: Option<MatchInfo>, new reply: Result<string, HandlerError>)
    reads store
  {
    var u := UserFor(old(store.users), phone);
    var s := Decide(u.chatState, text, found);
    && reply == ReplyFor(s, paynow)
    && store.users == StepUsers(Registered(old(store.users), phone), u.id, s)
    && store.profiles == StepProfiles(old(store.profiles), u.id, s)
    && store.transactions == StepTransactions(old(store.transactions), u.id, s, now, paynow)
    && store.preferences == old(store.preferences)
  }

  lemma MotiveStep(text: string, found: Option<MatchInfo>)
    ensures Decide(GET_MOTIVE, text, found) == Step(PAYMENT_INITIATED, Some(FieldWrite("motive", Str(text))), Some(AWAITING_PAYMENT), true)
  {
    DecideByState(GET_MOTIVE, text, found);
  }

  /** When the Paynow request raises, the GET_MOTIVE step has already moved the user to
      AWAITING_PAYMENT, yet no transaction is recorded and the handler fails: a user with no
      PENDING transaction before still has none, so no poll pass can activate them. */
  lemma UnansweredPaymentStrandsUser(txs: seq<Transaction>, uid: nat, text: string, now: nat,
                                     found: Option<MatchInfo>, responses: map<nat, Poller.PollOutcome>)
    requires forall t :: t in txs && t.userId == uid ==> t.status != Pending
    ensures var s := Decide(GET_MOTIVE, text, found);
      && s.next == Some(AWAITING_PAYMENT)
      && ReplyFor(s, Raised) == Failure(PaymentRequestRaised)
      && StepTransactions(txs, uid, s, now, Raised) == txs
      && uid !in Poller.SettledOwners(PendingOf(StepTransactions(txs, uid, s, now, Raised)), responses)
  {
    MotiveStep(text, found);
    Poller.SettledMembers(PendingOf(txs), responses);
  }

  /** When Paynow answers, the GET_MOTIVE step appends one PENDING transaction of the user's,
      with the next id. */
  lemma AnsweredPaymentRecorded(txs: seq<Transaction>, uid: nat, text: string, now: nat, body: string,
                                found: Option<MatchInfo>)
    ensures var after := StepTransactions(txs, uid, Decide(GET_MOTIVE, text, found), now, Answered(body));
      && |after| == |txs| + 1 && after == txs + [after[|txs|]]
      && after[|txs|].status == Pending && after[|txs|].id == |txs| + 1 && after[|txs|].userId == uid
  {
    MotiveStep(text, found);
  }

  /** ... so a poll answer confirming that transaction activates the user. */
  lemma AnsweredPaymentCanSettle(txs: seq<Transaction>, uid: nat, text: string, now: nat, body: string,
                                 found: Option<MatchInfo>, responses: map<nat, Poller.PollOutcome>)
    requires Poller.Confirms(Poller.OutcomeFor(responses, |txs| + 1))
    ensures uid in Poller.SettledOwners(PendingOf(StepTransactions(txs, uid, Decide(GET_MOTIVE, text, found), now, Answered(body))), responses)
  {
    var after := StepTransactions(txs, uid, Decide(GET_MOTIVE, text, found), now, Answered(body));
    AnsweredPaymentRecorded(txs, uid, text, now, body, found);
    Poller.AppendedPendingSettles(txs, after[|txs|], responses);
  }

  /** initiate_payment: once Paynow answers, records one PENDING transaction for the request;
      when the request raises, nothing is recorded and the exception escapes. `now` is the
      current time in seconds. */
  method InitiatePayment(store: Store, userId: nat, now: nat, paynow: PaynowAnswer)
    returns (reply: Result<string, HandlerError>)
    requires store.Valid()
    modifies store
    ensures store.Valid()
    ensures paynow.Answered? ==>
      && reply == Success(PAYMENT_INITIATED)
      && store.transactions == old(store.transactions) +
           [Transaction(|old(store.transactions)| + 1, userId, PaymentReference(userId, now), PollUrl(paynow.body),
                        SUBSCRIPTION_AMOUNT, Pending, now)]
    ensures paynow.Raised? ==> reply == Failure(PaymentRequestRaised) && store.transactions == old(store.transactions)
    ensures store.users == old(store.users) && store.profiles == old(store.profiles) && store.preferences == old(store.preferences)
  {
    var reference := PaymentReference(userId, now);
    var amount := SUBSCRIPTION_AMOUNT;
    if paynow.Raised? {
      return Failure(PaymentRequestRaised);
    }
    var pollUrl := PollUrl(paynow.body);
    store.CreateTransaction(userId, reference, pollUrl, amount, now);
    reply := Success(PAYMENT_INITIATED);
  }

  /** Writes one allow-listed profile field, as handle_message does. */
  method WriteProfile(store: Store, userId: nat, field: string, value: Value)
    requires store.Valid()
    requires field in ALLOWED_PROFILE_FIELDS
    modifies store
    ensures store.Valid()
    ensures store.profiles == WriteField(old(store.profiles), userId, ParseProfileField(field).value, value)
    ensures store.users == old(store.users) && store.preferences == old(store.preferences) && store.transactions == old(store.transactions)
  {
    var r := store.UpdateProfileField(userId, field, value);
    assert r == Pass;
  }

  /** The store after applying one step for the user with id uid. */
  twostate predicate Stepped(store: Store, uid: nat, s: Step, now: nat, paynow: PaynowAnswer)
    reads store
  {
    && store.users == StepUsers(old(store.users), uid, s)
    && store.profiles == StepProfiles(old(store.profiles), uid, s)
    && store.transactions == StepTransactions(old(store.transactions), uid, s, now, paynow)
    && store.preferences == old(store.preferences)
  }

  /** handle_message */
  method HandleMessage(store: Store, phone: string, text: string, now: nat, paynow: PaynowAnswer, found: Option<MatchInfo>)
    returns (reply: Result<string, HandlerError>)
    requires store.Valid()
    modifies store
    ensures store.Valid()
    ensures Handled(store, phone, text, now, paynow, found, reply)
  {
    var user := store.GetOrCreateUser(phone);
    reply := Dispatch(store, user.id, user.chatState, text, now, paynow, found);
  }

  /** Stores one answer of the profile funnel and moves to the next state: the two writes each
      funnel branch of handle_message makes. */
  method StoreAnswer(store: Store, uid: nat, field: string, value: Value, next: string)
    requires store.Valid()
    requires field in ALLOWED_PROFILE_FIELDS
    modifies store
    ensures store.Valid()
    ensures store.profiles == WriteField(old(store.profiles), uid, ParseProfileField(field).value, value)
    ensures store.users == SetChatState(old(store.users), uid, next)
    ensures store.preferences == old(store.preferences) && store.transactions == old(store.transactions)
  {
    WriteProfile(store, uid, field, value);
    store.UpdateChatState(uid, next);
  }

  /** The state dispatch of handle_message, for the user with id uid whose chat_state is state. */
  method Dispatch(store: Store, uid: nat, state: string, text: string, now: nat, paynow: PaynowAnswer, found: Option<MatchInfo>)
    returns (reply: Result<string, HandlerError>)
    requires store.Valid()
    modifies store
    ensures store.Valid()
    ensures reply == ReplyFor(Decide(state, text, found), paynow)
    ensures Stepped(store, uid, Decide(state, text, found), now, paynow)
  {
    if state == START {
      reply := Greet(store, uid, text, now, paynow, found);
    } else if state == GET_NAME {
      reply := TakeName(store, uid, text, now, paynow, found);
    } else if state == GET_AGE {
      reply := TakeAge(store, uid, text, now, paynow, found);
    } else if state == GET_GENDER {
      reply := TakeGender(store, uid, text, now, paynow, found);
    } else if state == GET_LOCATION {
      reply := TakeLocation(store, uid, text, now, paynow, found);
    } else if state == GET_MOTIVE {
      reply := TakeMotive(store, uid, text, now, paynow, found);
    } else {
      reply := ReplyOnly(store, uid, state, text, now, paynow, found);
    }
  }

  /** START: moves to GET_NAME with the welcome. */
  method Greet(store: Store, uid: nat, text: string, now: nat, paynow: PaynowAnswer, found: Option<MatchInfo>)
    returns (reply: Result<string, HandlerError>)
    requires store.Valid()
    modifies store
    ensures store.Valid()
    ensures reply == ReplyFor(Decide(START, text, found), paynow)
    ensures Stepped(store, uid, Decide(START, text, found), now, paynow)
  {
    DecideByState(START, text, found);
    store.UpdateChatState(uid, GET_NAME);
    reply := Success(WELCOME);
  }

  /** GET_NAME: stores the name and moves to GET_AGE. */
  method TakeName(store: Store, uid: nat, text: string, now: nat, paynow: PaynowAnswer, found: Option<MatchInfo>)
    returns (reply: Result<string, HandlerError>)
    requires store.Valid()
    modifies store
    ensures store.Valid()
    ensures reply == ReplyFor(Decide(GET_NAME, text, found), paynow)
    ensures Stepped(store, uid, Decide(GET_NAME, text, found), now, paynow)
  {
    DecideByState(GET_NAME, text, found);
    StoreAnswer(store, uid, "name", Str(text), GET_AGE);
    reply := Success(ASK_AGE);
  }

  /** GET_AGE: refuses a text that is not all digits; stores digits as a number and moves to GET_GENDER. */
  method TakeAge(store: Store, uid: nat, text: string, now: nat, paynow: PaynowAnswer, found: Option<MatchInfo>)
    returns (reply: Result<string, HandlerError>)
    requires store.Valid()
    modifies store
    ensures store.Valid()
    ensures reply == ReplyFor(Decide(GET_AGE, text, found), paynow)
    ensures Stepped(store, uid, Decide(GET_AGE, text, found), now, paynow)
  {
    DecideByState(GET_AGE, text, found);
    if !IsDigits(text) {
      return Success(INVALID_AGE);
    }
    StoreAnswer(store, uid, "age", Int(DigitsValue(text)), GET_GENDER);
    reply := Success(ASK_GENDER);
  }

  /** GET_GENDER: stores the capitalized gender and moves to GET_LOCATION. */
  method TakeGender(store: Store, uid: nat, text: string, now: nat, paynow: PaynowAnswer, found: Option<MatchInfo>)
    returns (reply: Result<string, HandlerError>)
    requires store.Valid()
    modifies store
    ensures store.Valid()
    ensures reply == ReplyFor(Decide(GET_GENDER, text, found), paynow)
    ensures Stepped(store, uid, Decide(GET_GENDER, text, found), now, paynow)
  {
    DecideByState(GET_GENDER, text, found);
    StoreAnswer(store, uid, "gender", Str(Capitalize(text)), GET_LOCATION);
    reply := Success(ASK_LOCATION);
  }

  /** GET_LOCATION: stores the location and moves to GET_MOTIVE. */
  method TakeLocation(store: Store, uid: nat, text: string, now: nat, paynow: PaynowAnswer, found: Option<MatchInfo>)
    returns (reply: Result<string, HandlerError>)
    requires store.Valid()
    modifies store
    ensures store.Valid()
    ensures reply == ReplyFor(Decide(GET_LOCATION, text, found), paynow)
    ensures Stepped(store, uid, Decide(GET_LOCATION, text, found), now, paynow)
  {
    DecideByState(GET_LOCATION, text, found);
    StoreAnswer(store, uid, "location", Str(text), GET_MOTIVE);
    reply := Success(ASK_MOTIVE);
  }

  /** GET_MOTIVE: stores the motive, moves to AWAITING_PAYMENT and initiates the payment. */
  method TakeMotive(store: Store, uid: nat, text: string, now: nat, paynow: PaynowAnswer, found: Option<MatchInfo>)
    returns (reply: Result<string, HandlerError>)
    requires store.Valid()
    modifies store
    ensures store.Valid()
    ensures reply == ReplyFor(Decide(GET_MOTIVE, text, found), paynow)
    ensures Stepped(store, uid, Decide(GET_MOTIVE, text, found), now, paynow)
  {
    DecideByState(GET_MOTIVE, text, found);
    StoreAnswer(store, uid, "motive", Str(text), AWAITING_PAYMENT);
    reply := InitiatePayment(store, uid, now, paynow);
  }

  /** AWAITING_PAYMENT, ACTIVE_SEARCH and any other state: a reply and no write. */
  method ReplyOnly(store: Store, uid: nat, state: string, text: string, now: nat, paynow: PaynowAnswer, found: Option<MatchInfo>)
    returns (reply: Result<string, HandlerError>)
    requires store.Valid()
    requires state != START && state != GET_NAME && state != GET_AGE && state != GET_GENDER
    requires state != GET_LOCATION && state != GET_MOTIVE
    modifies store
    ensures store.Valid()
    ensures reply == ReplyFor(Decide(state, text, found), paynow)
    ensures Stepped(store, uid, Decide(state, text, found), now, paynow)
  {
    DecideByState(state, text, found);
    if state == AWAITING_PAYMENT {
      return Success(PAYMENT_REMINDER);
    }
    if state == ACTIVE_SEARCH {
      if found.Some? {
        return Success(MatchFound(found.value));
      }
      return Success(NO_MATCHES);
    }
    return Success(FALLBACK);
  }

  /** Decide, state by state: an unfolding of Decide's branches, the bridge the per-state
      methods below are proved through. */
  lemma DecideByState(state: string, text: string, found: Option<MatchInfo>)
    ensures state == START ==> Decide(state, text, found) == Step(WELCOME, None, Some(GET_NAME), false)
    ensures state == GET_NAME ==>
      Decide(state, text, found) == Step(ASK_AGE, Some(FieldWrite("name", Str(text))), Some(GET_AGE), false)
    ensures state == GET_AGE && !IsDigits(text) ==> Decide(state, text, found) == Step(INVALID_AGE, None, None, false)
    ensures state == GET_AGE && IsDigits(text) ==>
      Decide(state, text, found) == Step(ASK_GENDER, Some(FieldWrite("age", Int(DigitsValue(text)))), Some(GET_GENDER), false)
    ensures state == GET_GENDER ==>
      Decide(state, text, found) == Step(ASK_LOCATION, Some(FieldWrite("gender", Str(Capitalize(text)))), Some(GET_LOCATION), false)
    ensures state == GET_LOCATION ==>
      Decide(state, text, found) == Step(ASK_MOTIVE, Some(FieldWrite("location", Str(text))), Some(GET_MOTIVE), false)
    ensures state == GET_MOTIVE ==>
      Decide(state, text, found) == Step(PAYMENT_INITIATED, Some(FieldWrite("motive", Str(text))), Some(AWAITING_PAYMENT), true)
    ensures state == AWAITING_PAYMENT ==> Decide(state, text, found) == Step(PAYMENT_REMINDER, None, None, false)
    ensures state == ACTIVE_SEARCH ==>
      Decide(state, text, found) == Step(if found.Some? then MatchFound(found.value) else NO_MATCHES, None, None, false)
    ensures (&& state != START && state != GET_NAME && state != GET_AGE && state != GET_GENDER
             && state != GET_LOCATION && state != GET_MOTIVE && state != AWAITING_PAYMENT && state != ACTIVE_SEARCH)
      ==> Decide(state, text, found) == Step(FALLBACK, None, None, false)
  {
  }

  /** whatsapp_webhook: the inbound text is stripped of surrounding whitespace before dispatch. */
  method Webhook(store: Store, phone: string, rawText: string, now: nat, paynow: PaynowAnswer, found: Option<MatchInfo>)
    returns (reply: Result<string, HandlerError>)
    requires store.Valid()
    modifies store
    ensures store.Valid()
    ensures Handled(store, phone, Strip(rawText), now, paynow, found, reply)
  {
    var text := Strip(rawText);
    reply := HandleMessage(store, phone, text, now, paynow, found);
  }
}
