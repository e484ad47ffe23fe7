# WhatsApp chat-bot back ends: dating funnel and micro-finance intake

This project models two small WhatsApp chat bots. Each one keeps a conversation state per user and
drives it from rows in a MySQL store.

**Dating bot** (`app.py`, `db_manager.py`, `poller.py`).
- The webhook strips the inbound text. `handle_message` then looks up or creates the user by phone
  number and runs one step of a linear funnel:
  START → GET_NAME → GET_AGE → GET_GENDER → GET_LOCATION → GET_MOTIVE → AWAITING_PAYMENT.
- Each funnel answer goes into the user's profile through an allow-listed `update_profile_field`.
- The motive step opens a PENDING Paynow transaction. Its reference is `SUB-<user id>-<time>`, its
  amount is `5.00`, and its poll URL is cut from Paynow's answer.
- The motive step commits AWAITING_PAYMENT before it contacts Paynow. If that request raises,
  no transaction is recorded, the handler fails, and no later message moves the user on.
- The poller walks the PENDING transactions. Each one whose poll answer contains `Paid` is marked
  PAID and its user's 30-day subscription is activated (state ACTIVE_SEARCH).
- The matching rule of `find_potential_matches` is modelled as a predicate over in-memory rows:
  - not the user themself;
  - the candidate is active;
  - same location;
  - a mutual gender / inclusive age range / motive test.

**Micro-finance bot** (`db/db_manager.py`, `flows/*.py`).
- Menu handlers move `chat_state` between named states and send replies through `send_text`.
- The products menu stores the chosen loan in `selected_product`.
- The application funnel asks for name, age, address and national id, then for an ID photo.
  - The photo step writes to `id_photo_url`, which is not in the allow-list. That write always
    fails, so as written no user gets past the photo step.
  - The amount step and the saving of the application are still modelled on their own. The saved
    row copies the user's columns.
- Every write goes through `update_user`, which refuses any column outside a ten-name allow-list.

How it is modelled:
- The two stores are classes, `DatingStore.Store` and `FinanceStore.Database`.
  - Auto-increment tables (users, transactions, applications) are `seq` fields in insertion order.
  - In the dating store and in the finance applications table, row `i` carries id `i + 1`.
  - Finance user ids come from an AUTO_INCREMENT counter, `nextUserId`. An insert refused by the
    UNIQUE phone column still uses up an id, so user ids rise with row order but can skip values.
  - Tables keyed by user id (profiles, preferences) are `map` fields.
  - `UPDATE ... WHERE id = x` is a function over the whole table, as the SQL is.
- `send_text` appends to `Messaging.Outbox.sent`.
- `handle_message` is proved against a pure transition function, `DatingApp.Decide`. The funnel
  properties are lemmas about `Decide` and about `Replay`, which runs `Decide` over a sequence of
  messages.
- The poller is a `for` loop proved against the functions `SettledIds` and `SettledOwners`.
- An exception raised by a store call or by the Paynow request is an `Outcome`/`Result` failure
  that ends the handler at that point, as the exception does. Writes made before it stay.
- Outside inputs are parameters:
  - the current time, in seconds;
  - Paynow's answer to the payment request, or the exception it raised;
  - each transaction's poll answer, or a request that raised;
  - the AI answer;
  - the match reported in ACTIVE_SEARCH;
  - the value of `STATE_MAIN_MENU`;
  - the column collation the matching query compares text with.

The code, and so the model, leaves these open:
- No minimum age is checked.
- A user can hold several PENDING transactions at once.

## Model

| member | source | states |
|---|---|---|
| Common.NatToString | app.py:74 | `str(n)` gives decimal digits that read back as `n`, with no leading zero unless `n` is 0 |
| Common.NatToStringInjective | app.py:74 | different numbers print as different texts |
| Common.DigitsRoundTrip | app.py:41 | for a digit string without a leading zero, `str(int(s)) == s` |
| Common.IsDigits | app.py:39 | `isdigit()` holds for non-empty text made only of decimal digits; the empty text is not digits |
| Common.DigitsValue | app.py:41 | `int(s)` of a digit string is 0 exactly when every digit is '0' |
| Common.Capitalize | app.py:46 | `capitalize()` keeps the length and the lower-case spelling, leaves the first letter upper case and every later letter lower case |
| Common.Lower | flows/applications.py:7 | `lower()` keeps the length, turns each upper-case letter into its lower-case letter, and keeps every other character |
| Common.CapitalizeUnique | app.py:46 | any text with the input's length and lower-case spelling, an upper-case first letter and no later upper-case letter is what `capitalize()` returns |
| Common.CapitalizeIgnoresCase | app.py:46 | two texts equal up to case capitalize to the same text |
| Common.CapitalizeIdempotent | app.py:46 | capitalizing twice gives what capitalizing once does |
| Common.Strip | app.py:20 | `strip()` leaves no whitespace at either end, and is empty exactly for all-whitespace text |
| Common.StripPadded | app.py:20 | whitespace added around a text does not change what it strips to |
| Common.StripIdempotent | app.py:20 | stripping twice gives what stripping once does |
| Common.IndexOf | app.py:88 | the first position where a substring occurs, or None when it occurs nowhere |
| Common.Contains | poller.py:10 | `sub in s` holds exactly when `sub` occurs at some position of `s` |
| Common.SplitLast | app.py:88 | `split(sep)[-1]` is a suffix of the text |
| Common.SplitLastAbsent | app.py:88 | `split(sep)[-1]` is the whole text when the separator does not occur |
| Common.SplitLastHasNoSeparator | app.py:88 | `split(sep)[-1]` never contains the separator |
| Common.SplitLastFollowsSeparator | app.py:88 | when the separator occurs, an occurrence of it ends exactly where `split(sep)[-1]` starts |
| DatingStore.FindUser | db_manager.py:57-58 | the row found holds the phone and no row before it does; None means no row holds it |
| DatingStore.RegisteredFacts | db_manager.py:52-72 | a known phone gets its row back and the table is unchanged; an unseen phone gets exactly one new row, in START and inactive; ids stay sequential and phones unique |
| DatingStore.Store.GetOrCreateUser | db_manager.py:52-72 | the users table becomes the registered table and the returned row is the one stored for that phone; other tables are unchanged |
| DatingStore.SetChatStateOnlyThatUser | db_manager.py:74-85 | only the chat_state of the row with that id changes; every other row is untouched |
| DatingStore.Store.UpdateChatState | db_manager.py:74-85 | users becomes the table with that one chat_state set; profiles, preferences and transactions are unchanged |
| DatingStore.ParseProfileField | db_manager.py:90 | a field name names a profile column exactly when it is in the allow-list |
| DatingStore.EnsureProfileFacts | db_manager.py:92-103 | ensure_profile adds the default profile (gender Other, motive Unknown) only when none exists, never overwrites, leaves other profiles alone and is idempotent |
| DatingStore.Store.EnsureProfile | db_manager.py:92-103 | profiles becomes the table with that user's profile ensured; nothing else changes |
| DatingStore.Set | db_manager.py:114-117 | the set column reads back the value and every other column keeps its value |
| DatingStore.WriteFieldOnlyThatColumn | db_manager.py:105-121 | update_profile_field sets exactly the named column of that user's profile; other columns keep their (possibly default) values and other profiles are unchanged |
| DatingStore.Store.UpdateProfileField | db_manager.py:105-121 | a field outside the allow-list fails with no write; an allowed one writes that column only; the other tables are unchanged |
| DatingStore.Store.GetUserProfile | db_manager.py:123-132 | the user's profile, or None exactly when the user has no profile |
| DatingStore.Store.CreateTransaction | db_manager.py:137-149 | exactly one row is appended, with the next id and status PENDING; the other tables are unchanged |
| DatingStore.PendingOf | db_manager.py:151-164 | a row is returned exactly when the table holds it with status PENDING |
| DatingStore.FindByReference | db_manager.py:166-180 | a row with that reference, or None only when no row has it |
| DatingStore.PendingOfCounts | db_manager.py:151-164 | each PENDING row is returned as many times as the table holds it, and no other row is returned |
| DatingStore.PendingOfAppend | db_manager.py:151-164 | the query keeps table order: the pending rows of two stretches of the table are those of the first followed by those of the second |
| DatingStore.PendingOfSingle | db_manager.py:151-164 | a single row is returned exactly when it is PENDING |
| DatingStore.MarkPaidFacts | db_manager.py:182-193 | only the row with that id changes, to PAID, and marking it again changes nothing |
| DatingStore.PaidIsNotPending | db_manager.py:151-164 | a transaction marked PAID is no longer returned as pending |
| DatingStore.Store.MarkTransactionPaid | db_manager.py:182-193 | transactions becomes the table with that row marked PAID; nothing else changes |
| DatingStore.ActivateOnlyThatUser | db_manager.py:195-211 | only that user changes: active, state ACTIVE_SEARCH, expiry set; a second activation with the same expiry changes nothing |
| DatingStore.Store.ActivateSubscription | db_manager.py:195-211 | users becomes the table with that user activated until now + 30 days; nothing else changes |
| DatingStore.EligibleFacts | db_manager.py:239-248 | whatever the collation, a match is never the user themself, is active, and is in the requested location, which is also the user's own |
| DatingStore.IsCandidate | db_manager.py:239-258 | the WHERE clause for the pair U1, U2: different users, U2 active, both with profile and preference rows, U2 in the requested location and in U1's location, and each one's gender, age range and motive preferences admit the other |
| DatingStore.Eligible | db_manager.py:239-258 | the row at a position of the users table passes the WHERE clause for the given user |
| DatingStore.EligibleSymmetric | db_manager.py:250-258 | whatever the collation, between two active users A qualifies for B exactly when B qualifies for A |
| DatingStore.Store.FindPotentialMatches | db_manager.py:217-270 | under the given collation, returns at most one row, drawn from a qualifying candidate, and None exactly when no candidate qualifies |
| DatingApp.ReferenceRoundTrip | app.py:74 | the payment reference reads back as exactly the user id and timestamp it was made from |
| DatingApp.ReferenceInjective | app.py:74 | two payments share a reference only for the same user at the same second |
| DatingApp.PollUrl | app.py:88 | the poll URL is a suffix of Paynow's answer with no `pollurl=` in it: the text after the last marker, or the whole answer when there is no marker |
| DatingApp.StepAdvancesOneStage | app.py:29-69 | every state change moves exactly one stage down the funnel; AWAITING_PAYMENT, ACTIVE_SEARCH and unknown states write nothing and stay |
| DatingApp.Decide | app.py:29-69 | the branch handle_message takes: every profile write it asks for is allow-listed, every state it moves to is a later funnel state, and a payment step always moves to AWAITING_PAYMENT |
| DatingApp.StepWritesAllowedField | app.py:33-58 | every profile write names an allow-listed column, and it is the column the state asks for |
| DatingApp.OnlyMotiveStepPays | app.py:55-58 | a payment is initiated exactly in the GET_MOTIVE state |
| DatingApp.GenderStepIgnoresCase | app.py:45-48 | two gender texts equal up to case give the same step, so the stored gender does not depend on casing |
| DatingApp.CompleteFunnel | app.py:29-58 | six valid messages take a new user from START to AWAITING_PAYMENT |
| DatingApp.StuckAwaitingPayment | app.py:60-61 | no sequence of messages takes a user out of AWAITING_PAYMENT |
| DatingApp.InvalidAgesStayPut | app.py:38-40 | any number of invalid ages leave the user in GET_AGE |
| DatingApp.ReplayMonotone | app.py:29-69 | messages never move a funnel state backwards, nor further forward than there are messages, nor out of the funnel |
| DatingApp.InitiatePayment | app.py:73-91 | when Paynow answers, exactly one PENDING transaction is appended, with reference SUB-uid-time, amount 5.00 and the extracted poll URL, and the reply is the payment notice; when the request raises, nothing is recorded and the call fails |
| DatingApp.UnansweredPaymentStrandsUser | app.py:55-91 | when the Paynow request raises, the user has already moved to AWAITING_PAYMENT, no transaction is recorded and the handler fails; a user with no PENDING transaction before has none after, so no poll pass activates them |
| DatingApp.AnsweredPaymentRecorded | app.py:87-90 | when Paynow answers, the motive step appends one PENDING transaction of that user's, with the next id |
| DatingApp.AnsweredPaymentCanSettle | app.py:87-90 | when Paynow answers, a poll answer confirming the new transaction activates the user |
| DatingApp.WriteProfile | app.py:34-56 | an allow-listed profile write never fails, and changes only that profile column |
| DatingApp.StoreAnswer | app.py:33-58 | a funnel answer writes its profile column and the next chat_state, and nothing else |
| DatingApp.Greet | app.py:29-31 | START moves to GET_NAME with the welcome and writes no profile field |
| DatingApp.TakeName | app.py:33-36 | GET_NAME stores the name and moves to GET_AGE |
| DatingApp.TakeAge | app.py:38-43 | GET_AGE refuses non-digit text without a write, and otherwise stores the number and moves to GET_GENDER |
| DatingApp.TakeGender | app.py:45-48 | GET_GENDER stores the capitalized gender and moves to GET_LOCATION |
| DatingApp.TakeLocation | app.py:50-53 | GET_LOCATION stores the location and moves to GET_MOTIVE |
| DatingApp.TakeMotive | app.py:55-58 | GET_MOTIVE stores the motive and moves to AWAITING_PAYMENT; it opens one PENDING transaction when Paynow answers, and fails with nothing recorded when the request raises |
| DatingApp.ReplyOnly | app.py:60-69 | AWAITING_PAYMENT, ACTIVE_SEARCH and unknown states only reply: the reminder, the match or no-match text, or the fallback |
| DatingApp.Dispatch | app.py:29-69 | the store changes exactly as the step chosen for the state prescribes, and the reply is that step's |
| DatingApp.HandleMessage | app.py:24-69 | the user is looked up or created, then that user's step is applied; a raised Paynow request fails the handler after the step's writes; preferences never change |
| DatingApp.Webhook | app.py:16-22 | the inbound text is stripped before it is handled |
| Poller.SettledMembers | poller.py:7-12 | a transaction is settled exactly when it was pending and its poll answer contains "Paid"; a user is activated exactly when one of their pending transactions was |
| Poller.SettledIds | poller.py:5-12 | the ids the loop settles, in order, at most one per pending row |
| Poller.SettledOwners | poller.py:5-12 | the users the loop activates, one entry per settled row |
| Poller.OwnerSettled | poller.py:7-12 | a pending row with a confirming poll answer gets its user activated |
| Poller.AppendedPendingSettles | poller.py:5-12 | a PENDING row appended to the table is examined by the next pass and activates its user when its poll answer confirms it |
| Poller.Run | poller.py:4-14 | only pending rows are examined; those confirmed are marked PAID and their users activated; a failed or unconfirmed poll leaves its row alone and the loop goes on |
| Poller.SettledWerePending | poller.py:5-12 | every transaction the poller settles was PENDING and got a "Paid" answer |
| Poller.UnconfirmedUntouched | poller.py:10 | a row whose poll answer lacks "Paid" is unchanged, and so is a user none of whose pending rows was confirmed |
| Poller.NoDoubleSettlement | poller.py:5-12 | a second run settles none of the transactions the first run settled, whatever its poll answers |
| FinanceStore.ParseColumn | db/db_manager.py:139-145 | a field names a column exactly when it is one of the ten allow-listed names |
| FinanceStore.ColumnNameInjective | db/db_manager.py:140-144 | distinct columns have distinct names |
| FinanceStore.Set | db/db_manager.py:152-155 | the set column reads back the value; id, phone and every other column are unchanged |
| FinanceStore.UpdateOnlyThatColumn | db/db_manager.py:152-155 | update_user changes that column of the row with that id only; other rows are untouched, and a later write to the same column wins |
| FinanceStore.Update | db/db_manager.py:152-155 | `UPDATE users SET c = v WHERE id = x` keeps the number of rows and never changes an id or a phone |
| FinanceStore.FindByPhone | db/db_manager.py:113-114 | the row found holds the phone and no earlier row does; None means no row holds it |
| FinanceStore.FindById | db/db_manager.py:175-176 | a row with that id, or None only when no row has it |
| FinanceStore.ApplicationOf | db/db_manager.py:181-197 | the application copies the user's id, selected_product, national_id, selfie_url, amount and biz_desc, with status PENDING |
| FinanceStore.Database.GetUser | db/db_manager.py:107-119 | the row with that phone, or None when no user has it |
| FinanceStore.Database.CreateUser | db/db_manager.py:122-136 | a new phone gets exactly one row, under the counter's id, returned as get_user reads it, with chat_state START; a known phone fails on the UNIQUE column and inserts nothing; either way one id is used up |
| FinanceStore.Database.UpdateUser | db/db_manager.py:139-161 | a field outside the allow-list fails and writes nothing; an allowed one sets that column of that row only |
| FinanceStore.Database.SaveFinalApplication | db/db_manager.py:168-210 | an unknown user id fails and inserts nothing; otherwise exactly one PENDING application copying the user's columns is appended |
| FinanceStore.IdIsUnique | db/db_manager.py:55 | two rows with the same id are the same row |
| FinanceStore.AppendKeepsWellFormed | db/db_manager.py:55-56 | a row appended with an id above every stored id and a new phone keeps ids rising and phones unique, and keeps every stored id |
| FinanceStore.InsertKeepsWellFormed | db/db_manager.py:122-136 | an insert into users keeps the tables well formed whether it is refused or not |
| FinanceStore.PhoneIsUnique | db/db_manager.py:56 | two rows with the same phone are the same row |
| FinanceStore.FindByIdFindsThatRow | db/db_manager.py:175-176 | the row SELECT ... WHERE id finds for a stored id is the row carrying that id, gaps in the ids notwithstanding |
| Messaging.Outbox.SendText | whatsapp.py:4-13 | exactly one message is appended to what has been sent |
| Applications.SaysIgnoresCase | flows/applications.py:7 | for a word of lower-case letters, `text.lower() == word` holds exactly when the text has the word's length and each of its characters is the word's letter or that letter's capital |
| Applications.ConfirmationWordsIgnoreCase | flows/applications.py:59 | "APPLY" and "aPpLy" say "apply", "YES" and "Yes" say "yes"; "apply " and "yes!" do not |
| Applications.HandleConfirmApply | flows/applications.py:5-9 | "apply" in any case moves to GET_NAME and asks for the name; anything else writes and sends nothing |
| Applications.HandleGetName | flows/applications.py:11-14 | stores full_name, moves to GET_AGE and asks for the age |
| Applications.HandleGetAge | flows/applications.py:16-23 | non-digit text gets the error and no write; digits are stored as text and the state moves to GET_ADDRESS |
| Applications.HandleGetAddress | flows/applications.py:25-28 | stores the address and moves to GET_ID |
| Applications.HandleGetId | flows/applications.py:30-33 | stores national_id and moves to GET_ID_PHOTO |
| Applications.HandleGetIdPhoto | flows/applications.py:35-44 | without an upload it asks again and stays; with one, the write of id_photo_url is refused, so nothing is written or sent and GET_AMOUNT is never reached |
| Applications.HandleGetAmount | flows/applications.py:46-55 | stores the amount, moves to FINAL_CONFIRM and asks for confirmation |
| Applications.HandleFinalConfirm | flows/applications.py:57-67 | "yes" in any case appends the user's application and resets to START, or fails with no write for an unknown user; other text does nothing |
| Services.LoanPrompt | flows/services.py:55-60 | the reply names the chosen loan |
| Services.LoanMapFacts | flows/services.py:5-11 | the menu keys are "1" to "5" and distinct keys select distinct loans |
| Services.NumberedLinesListEach | flows/services.py:39-43 | item k appears as line k + 1, right after the lines before it |
| Services.NumberedMessage | flows/services.py:39-43 | the loop builds the heading, one numbered line per item in order, and the closing; every item's line is in the message |
| Services.UpdateKeepsProductsChosen | flows/services.py:52-54 | writes keep every stored selected_product among the loan names, unless they store something else there |
| Services.HandleServices | flows/services.py:21-46 | "1" moves to LOAN_TYPES with the loan menu; "2" sends the numbered service list and stays; "0" moves to MAIN_MENU; anything else does nothing |
| Services.HandleLoanTypes | flows/services.py:48-63 | a menu key stores its loan name and moves to CONFIRM_APPLY; "0" moves to SERVICES; anything else does nothing; stored products stay among the loan names |
| Catalogue.HandleServices | flows/catalogue.py:15-39 | "1" moves to LOAN_TYPES with the loan menu; "2" to "5" send the advisory notice and stay; "0" moves to MAIN_MENU silently; anything else does nothing |
| Catalogue.HandleLoanTypes | flows/catalogue.py:41-55 | a menu key stores its loan name and moves to CONFIRM_APPLY; "0" moves to SERVICES silently; anything else does nothing |
| Menu.StartMenu | flows/menu.py:7-14 | the welcome menu addresses the sender by name |
| Menu.MenuTargetsDistinct | flows/menu.py:17-29 | exactly "1" to "4" have a target state, and no two share one |
| Menu.HandleStart | flows/menu.py:5-15 | one state write to the main-menu state and exactly one message, the menu naming the sender |
| Menu.HandleMainMenu | flows/menu.py:17-33 | "1" to "4" set their state silently; "0" does what handle_start does; anything else sends the invalid-option notice and writes nothing |
| Contact.BranchKeys | flows/contact.py:4-170 | the branch keys are exactly "1" to "15" |
| Contact.NumeralsAreBranchKeys | flows/contact.py:4-170 | every number from 1 to 15, in decimal, is a branch key |
| Contact.BranchKeysAreNumerals | flows/contact.py:4-170 | every branch key is the decimal text of a number from 1 to 15 |
| Contact.HandleContactMenu | flows/contact.py:173-194 | whatever the text, moves to CONTACT_BRANCH and sends exactly one message, the branch list |
| Contact.HandleContactSelection | flows/contact.py:197-202 | sends exactly one message, the chosen branch's details or the invalid-branch notice, and writes nothing |
| Faqs.FaqOptions | flows/faqs.py:46-63 | the recognised options are exactly the single digits 0 to 6 |
| Faqs.PaddedOption | flows/faqs.py:47 | whitespace around an option does not change which option it is |
| Faqs.HandleFaqMenu | flows/faqs.py:46-76 | the stripped text decides: "0" moves to MAIN_MENU silently, "6" moves to AI_FAQ with the prompt, an FAQ key sends its answer and stays, anything else re-sends the menu and stays |
| Faqs.AnswerFaqChoice | flows/faqs.py:49-76 | the same four outcomes, for text already stripped |
| Faqs.HandleAiFaq | flows/faqs.py:83-90 | "0" moves to FAQ_MENU; anything else sends exactly one message, the AI's answer, and stays |

## Left out

- Flask routing, the JSON payload and the HTTP layer of the webhook are I/O. The webhook is modelled from the phone and the raw text onward.
- The Paynow POST, the SHA-512 hash and the environment reads (PAYNOW_ID, PAYNOW_KEY) are network and configuration. Paynow's answer text, or the fact that the request or an environment read raised, is a parameter. Which exception was raised is not modelled.
- `time.time()` and `datetime.utcnow()` are clocks. The time is a parameter in whole seconds, and the 30-day expiry is `now + 2592000`.
- Poller.Run reads the clock once per poll pass: every subscription activated in one pass gets the same expiry, whereas `activate_subscription` reads `datetime.utcnow()` anew on each call, so expiries within one pass can differ by the time the pass takes.
- The poll request in `poller.py` is network I/O. Its answer, or the exception it raised, is a per-transaction parameter.
- The MySQL pool, the connections, commits, rollbacks and `reset_db` are I/O. Only the column defaults from `reset_db` are modelled. A database error other than the ones the code raises itself is not modelled.
- `send_text` is an outbox append. Its HTTP POST and the network errors it swallows are not modelled.
- `ask_microhub_ai`, imported from the `ai` package by flows/faqs.py, is a remote model that is not part of this model. Its answer is a parameter of `Faqs.HandleAiFaq`.
- config.py is environment reads only. It is not part of this model.
- flows/agent.py hands over to a background thread with sleeps, which is concurrency. It is not part of this model.
- `utils.constants` is not part of this model. `STATE_MAIN_MENU` is a parameter of `Menu.HandleStart` and `Menu.HandleMainMenu`.
- DatingApp.ReplyOnly: `db_manager.find_match`, called in ACTIVE_SEARCH, is not defined anywhere in `db_manager.py`. Its result is the `found` parameter rather than invented behaviour. The missing `motive` column in the row it is passed is not modelled either.
- `created_at` timestamps are not modelled on applications, which the database stamps itself. Transactions record the `now` parameter.
- MySQL type coercion is not modelled. Both bots store an age as written: an integer in the dating bot and the digit text in the finance bot.
- Common.Capitalize, Common.Lower and Common.IsDigits cover ASCII letters and digits only. Python's Unicode case mapping and Unicode digits are not modelled.
- Applications.HandleGetIdPhoto models the handler as written, so the later amount prompt of `handle_get_id_photo` is unreachable and not modelled. Which allow-listed column was meant for the photo (`selfie_url` is the likely one) is not guessed.
- Catalogue shares `LOAN_MAP` and the loan menu with Services, because flows/catalogue.py defines the same table and text.
- `get_transaction_by_reference` is the pure function `DatingStore.FindByReference` over the transactions table, and `get_pending_transactions` is `DatingStore.PendingOf`. Neither is a store method.
- `profiles.user_id` is taken to be a key, as the `INSERT IGNORE` of `ensure_profile` presupposes: each user has at most one profile row, overwritten field by field. The schema of `profiles` is not in db_manager.py, and without such a key each `update_profile_field` would insert another default row and matching would return duplicate candidates; that case is not modelled.
- The `preferences` table is read by matching but written by no core operation, so it only appears as unchanged.
- DatingStore.FindUser, DatingStore.FindByReference, FinanceStore.FindByPhone and the finance UNIQUE phone column compare text exactly. A MySQL collation that ignores case or trailing spaces would treat more texts as equal there; only the matching query takes the collation as a parameter.
