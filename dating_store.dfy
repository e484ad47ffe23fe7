/** The dating bot's store (db_manager.py): the users, profiles, preferences and
    transactions tables, the allow-listed profile writes, the payment-transaction
    operations and the mutual matching rule. */
module DatingStore {
  import opened Common

  /** One cell of an SQL row. */
  datatype Value = Null | Str(s: string) | Int(i: int)

  /** A column collation, given by the key it compares strings by: two strings are equal under
      it exactly when their keys are equal. MySQL's default collations ignore case, so their key
      folds case; the identity is an exact, binary collation. */
  type Collation = string -> string

  /** The value a collation actually compares: strings by their key, numbers as they are. */
  function CollationKey(v: Value, collation: Collation): Value {
    if v.Str? then Str(collation(v.s)) else v
  }

  /** SQL `a = b` under a collation: never true when either side is NULL. */
  predicate SqlEq(a: Value, b: Value, collation: Collation) {
    a != Null && b != Null && CollationKey(a, collation) == CollationKey(b, collation)
  }

  /** SQL `x BETWEEN lo AND hi` on integers, inclusive at both ends; false on NULL. */
  predicate SqlBetween(x: Value, lo: Value, hi: Value) {
    x.Int? && lo.Int? && hi.Int? && lo.i <= x.i <= hi.i
  }

  const START := "START"
  const ACTIVE_SEARCH := "ACTIVE_SEARCH"

  /** activate_subscription grants 30 days; time is counted in seconds. */
  const SUBSCRIPTION_SECONDS: nat := 30 * 24 * 60 * 60

  // ---------------------------------------------------------------
  // users
  // ---------------------------------------------------------------

  datatype User = User(id: nat, phone: string, chatState: string, isActive: bool, subscriptionExpiry: Option<nat>)

  /** The row `INSERT INTO users (phone_number, chat_state, is_active) VALUES (phone, 'START', 0)` creates. */
  function NewUser(id: nat, phone: string): User {
    User(id, phone, START, false, None)
  }

  /** Ids are handed out 1, 2, 3, ... in insertion order and rows are never deleted;
      get_or_create_user never inserts a phone number twice. */
  ghost predicate UsersWellFormed(users: seq<User>) {
    && (forall i :: 0 <= i < |users| ==> users[i].id == i + 1)
    && (forall i, j :: 0 <= i < j < |users| ==> users[i].phone != users[j].phone)
  }

  /** `SELECT ... FROM users WHERE phone_number = phone`: the position of the row with that phone. */
  function FindUser(users: seq<User>, phone: string): (r: Option<nat>)
    ensures r.Some? ==> r.value < |users| && users[r.value].phone == phone
    ensures r.Some? ==> forall j :: 0 <= j < r.value ==> users[j].phone != phone
    ensures r.None? ==> forall j :: 0 <= j < |users| ==> users[j].phone != phone
  {
    if users == [] then None
    else if users[0].phone == phone then Some(0)
    else match FindUser(users[1..], phone)
      case None => None
      case Some(i) => Some(i + 1)
  }

  /** The users table after get_or_create_user(phone). */
  function Registered(users: seq<User>, phone: string): seq<User> {
    if FindUser(users, phone).Some? then users else users + [NewUser(|users| + 1, phone)]
  }

  /** The row get_or_create_user(phone) returns. */
  function UserFor(users: seq<User>, phone: string): User {
    match FindUser(users, phone)
    case Some(i) => users[i]
    case None => NewUser(|users| + 1, phone)
  }

  /** A known phone gets its own row back and nothing changes; an unseen phone gets exactly
      one new row, in state START and inactive; either way the table stays well formed and
      the row returned is the one stored for that phone. */
  lemma RegisteredFacts(users: seq<User>, phone: string)
    requires UsersWellFormed(users)
    ensures UsersWellFormed(Registered(users, phone))
    ensures var u := UserFor(users, phone);
      && u.phone == phone && 1 <= u.id <= |Registered(users, phone)| && Registered(users, phone)[u.id - 1] == u
    ensures (exists i :: 0 <= i < |users| && users[i].phone == phone) ==> Registered(users, phone) == users
    ensures (forall i :: 0 <= i < |users| ==> users[i].phone != phone) ==>
      && Registered(users, phone) == users + [UserFor(users, phone)]
      && UserFor(users, phone).chatState == START && !UserFor(users, phone).isActive
  {
  }

  /** `UPDATE users SET chat_state = state WHERE id = userId` */
  function SetChatState(users: seq<User>, userId: nat, state: string): seq<User> {
    seq(|users|, i requires 0 <= i < |users| =>
      if users[i].id == userId then users[i].(chatState := state) else users[i])
  }

  /** `UPDATE users SET is_active = 1, subscription_expiry = expiry, chat_state = 'ACTIVE_SEARCH' WHERE id = userId` */
  function Activate(users: seq<User>, userId: nat, expiry: nat): seq<User> {
    seq(|users|, i requires 0 <= i < |users| =>
      if users[i].id == userId then users[i].(isActive := true, subscriptionExpiry := Some(expiry), chatState := ACTIVE_SEARCH)
      else users[i])
  }

  /** update_chat_state touches only the chat_state of the row with that id. */
  lemma SetChatStateOnlyThatUser(users: seq<User>, userId: nat, state: string)
    requires UsersWellFormed(users)
    ensures UsersWellFormed(SetChatState(users, userId, state))
    ensures forall i :: 0 <= i < |users| && i != userId - 1 ==> SetChatState(users, userId, state)[i] == users[i]
    ensures 1 <= userId <= |users| ==> SetChatState(users, userId, state)[userId - 1] == users[userId - 1].(chatState := state)
  {
  }

  /** activate_subscription touches only the row with that id, and a second call with the same
      expiry changes nothing more. */
  lemma ActivateOnlyThatUser(users: seq<User>, userId: nat, expiry: nat)
    requires UsersWellFormed(users)
    ensures UsersWellFormed(Activate(users, userId, expiry))
    ensures forall i :: 0 <= i < |users| && i != userId - 1 ==> Activate(users, userId, expiry)[i] == users[i]
    ensures 1 <= userId <= |users| ==>
      var u := Activate(users, userId, expiry)[userId - 1];
      u.isActive && u.chatState == ACTIVE_SEARCH && u.subscriptionExpiry == Some(expiry)
      && u.id == userId && u.phone == users[userId - 1].phone
    ensures Activate(Activate(users, userId, expiry), userId, expiry) == Activate(users, userId, expiry)
  {
  }

  // ---------------------------------------------------------------
  // profiles
  // ---------------------------------------------------------------

  datatype Profile = Profile(name: Value, age: Value, gender: Value, location: Value, motive: Value)

  /** The row `INSERT IGNORE INTO profiles (user_id, gender, motive) VALUES (id, 'Other', 'Unknown')` creates. */
  const DEFAULT_PROFILE := Profile(Null, Null, Str("Other"), Null, Str("Unknown"))

  datatype ProfileField = Name | Age | Gender | Location | Motive

  const ALLOWED_PROFILE_FIELDS: set<string> := {"name", "age", "gender", "location", "motive"}

  function ColumnName(f: ProfileField): string {
    match f
    case Name => "name"
    case Age => "age"
    case Gender => "gender"
    case Location => "location"
    case Motive => "motive"
  }

  /** The allow-list check of update_profile_field: a field name names a column iff it is allowed. */
  function ParseProfileField(field: string): (f: Option<ProfileField>)
    ensures f.Some? <==> field in ALLOWED_PROFILE_FIELDS
    ensures f.Some? ==> ColumnName(f.value) == field
  {
    if field == "name" then Some(Name)
    else if field == "age" then Some(Age)
    else if field == "gender" then Some(Gender)
    else if field == "location" then Some(Location)
    else if field == "motive" then Some(Motive)
    else None
  }

  function Get(p: Profile, f: ProfileField): Value {
    match f
    case Name => p.name
    case Age => p.age
    case Gender => p.gender
    case Location => p.location
    case Motive => p.motive
  }

  /** One column of a profile set to a value: that column reads back the value, every other
      column is unchanged. */
  function Set(p: Profile, f: ProfileField, v: Value): (q: Profile)
    ensures Get(q, f) == v
    ensures forall g :: g != f ==> Get(q, g) == Get(p, g)
  {
    match f
    case Name => p.(name := v)
    case Age => p.(age := v)
    case Gender => p.(gender := v)
    case Location => p.(location := v)
    case Motive => p.(motive := v)
  }

  /** The profiles table after ensure_profile(userId). */
  function WithProfile(profiles: map<nat, Profile>, userId: nat): map<nat, Profile> {
    if userId in profiles then profiles else profiles[userId := DEFAULT_PROFILE]
  }

  /** ensure_profile never overwrites a profile, creates the default one when there is none,
      leaves every other profile alone and is idempotent. */
  lemma EnsureProfileFacts(profiles: map<nat, Profile>, userId: nat)
    ensures userId in WithProfile(profiles, userId)
    ensures userId in profiles ==> WithProfile(profiles, userId) == profiles
    ensures userId !in profiles ==> WithProfile(profiles, userId)[userId] == DEFAULT_PROFILE
    ensures WithProfile(profiles, userId).Keys == profiles.Keys + {userId}
    ensures forall id :: id in profiles ==> WithProfile(profiles, userId)[id] == profiles[id]
    ensures WithProfile(WithProfile(profiles, userId), userId) == WithProfile(profiles, userId)
  {
  }

  /** The profiles table after a successful update_profile_field(userId, f, v). */
  function WriteField(profiles: map<nat, Profile>, userId: nat, f: ProfileField, v: Value): map<nat, Profile> {
    var q := WithProfile(profiles, userId);
    q[userId := Set(q[userId], f, v)]
  }

  /** update_profile_field sets exactly the named column of that user's profile: every other
      column keeps its value (or its default when the profile was just created), and every
      other profile is unchanged. */
  lemma WriteFieldOnlyThatColumn(profiles: map<nat, Profile>, userId: nat, f: ProfileField, v: Value)
    ensures var r := WriteField(profiles, userId, f, v);
      && r.Keys == profiles.Keys + {userId}
      && Get(r[userId], f) == v
      && (forall g :: g != f ==> Get(r[userId], g) == Get(if userId in profiles then profiles[userId] else DEFAULT_PROFILE, g))
      && (forall id :: id in profiles && id != userId ==> r[id] == profiles[id])
  {
  }

  // ---------------------------------------------------------------
  // preferences and matching
  // ---------------------------------------------------------------

  datatype Preference = Preference(prefGender: Value, prefMinAge: Value, prefMaxAge: Value, prefMotive: Value)

  /** One direction of the mutual test: the profile's gender, age and motive are what the
      preference asks for (the age range inclusive). */
  predicate Admits(pref: Preference, p: Profile, collation: Collation) {
    && SqlEq(p.gender, pref.prefGender, collation)
    && SqlBetween(p.age, pref.prefMinAge, pref.prefMaxAge)
    && SqlEq(p.motive, pref.prefMotive, collation)
  }

  /** The WHERE clause of find_potential_matches for U1 = u and U2 = c. */
  predicate IsCandidate(u: User, c: User, profiles: map<nat, Profile>, prefs: map<nat, Preference>, location: Value,
                        collation: Collation)
  {
    && u.id != c.id
    && c.isActive
    && u.id in profiles && u.id in prefs && c.id in profiles && c.id in prefs
    && SqlEq(profiles[c.id].location, location, collation)
    && SqlEq(profiles[u.id].location, profiles[c.id].location, collation)
    && Admits(prefs[u.id], profiles[c.id], collation)
    && Admits(prefs[c.id], profiles[u.id], collation)
  }

  /** The row at position j qualifies as a match for the user with id userId. */
  predicate Eligible(users: seq<User>, profiles: map<nat, Profile>, prefs: map<nat, Preference>,
                     userId: nat, location: Value, collation: Collation, j: int)
  {
    && 1 <= userId <= |users| && 0 <= j < |users|
    && IsCandidate(users[userId - 1], users[j], profiles, prefs, location, collation)
  }

  /** The columns find_potential_matches selects. */
  datatype MatchRow = MatchRow(matchUserId: nat, matchName: Value, matchAge: Value, matchMotive: Value, matchPhone: string)

  function MatchRowOf(c: User, p: Profile): MatchRow {
    MatchRow(c.id, p.name, p.age, p.motive, c.phone)
  }

  /** A match is never the user themself, is active, and sits in the location asked for,
      which is also the user's own. */
  lemma EligibleFacts(users: seq<User>, profiles: map<nat, Profile>, prefs: map<nat, Preference>,
                      userId: nat, location: Value, collation: Collation, j: int)
    requires UsersWellFormed(users)
    requires Eligible(users, profiles, prefs, userId, location, collation, j)
    ensures users[j].id != userId && j != userId - 1
    ensures users[j].isActive
    ensures SqlEq(profiles[users[j].id].location, location, collation)
    ensures SqlEq(profiles[userId].location, location, collation)
  {
  }

  /** The matching rule is mutual: between two active users, A qualifies for B exactly when B
      qualifies for A, whatever location is asked for and whatever the collation. */
  lemma EligibleSymmetric(users: seq<User>, profiles: map<nat, Profile>, prefs: map<nat, Preference>,
                          a: nat, b: nat, location: Value, collation: Collation)
    requires UsersWellFormed(users)
    requires 1 <= a <= |users| && 1 <= b <= |users|
    requires users[a - 1].isActive && users[b - 1].isActive
    ensures Eligible(users, profiles, prefs, a, location, collation, b - 1)
        <==> Eligible(users, profiles, prefs, b, location, collation, a - 1)
  {
  }

  // ---------------------------------------------------------------
  // transactions
  // ---------------------------------------------------------------

  datatype TxStatus = Pending | Paid

  datatype Transaction = Transaction(id: nat, userId: nat, reference: string, pollUrl: string,
                                     amount: string, status: TxStatus, createdAt: nat)

  ghost predicate TransactionsWellFormed(txs: seq<Transaction>) {
    forall i :: 0 <= i < |txs| ==> txs[i].id == i + 1
  }

  /** get_pending_transactions: the rows whose status is PENDING, in table order. */
  function PendingOf(txs: seq<Transaction>): (r: seq<Transaction>)
    ensures forall t :: t in r <==> t in txs && t.status == Pending
    ensures |r| <= |txs|
  {
    if txs == [] then []
    else (if txs[0].status == Pending then [txs[0]] else []) + PendingOf(txs[1..])
  }

  /** Each PENDING row is returned as often as the table holds it, and no other row is returned. */
  lemma {:induction false} PendingOfCounts(txs: seq<Transaction>)
    ensures forall t :: multiset(PendingOf(txs))[t] == if t.status == Pending then multiset(txs)[t] else 0
  {
    if txs != [] {
      PendingOfCounts(txs[1..]);
      var head := if txs[0].status == Pending then [txs[0]] else [];
      assert txs == [txs[0]] + txs[1..];
      assert multiset(txs) == multiset([txs[0]]) + multiset(txs[1..]);
      assert PendingOf(txs) == head + PendingOf(txs[1..]);
      assert multiset(PendingOf(txs)) == multiset(head) + multiset(PendingOf(txs[1..]));
    }
  }

  /** A single row is returned exactly when it is PENDING. */
  lemma PendingOfSingle(t: Transaction)
    ensures PendingOf([t]) == if t.status == Pending then [t] else []
  {
    assert [t][1..] == [];
  }

  /** The query keeps table order: the pending rows of two consecutive stretches of the table
      are those of the first stretch followed by those of the second. */
  lemma {:induction false} PendingOfAppend(a: seq<Transaction>, b: seq<Transaction>)
    ensures PendingOf(a + b) == PendingOf(a) + PendingOf(b)
  {
    if a != [] {
      var head := if a[0].status == Pending then [a[0]] else [];
      assert (a + b)[0] == a[0];
      assert (a + b)[1..] == a[1..] + b;
      PendingOfAppend(a[1..], b);
      TxAppendAssoc(head, PendingOf(a[1..]), PendingOf(b));
    } else {
      assert a + b == b;
    }
  }

  lemma TxAppendAssoc(a: seq<Transaction>, b: seq<Transaction>, c: seq<Transaction>)
    ensures a + (b + c) == (a + b) + c
  {
  }

  /** get_transaction_by_reference: the first row with that reference, or None when there is none. */
  function FindByReference(txs: seq<Transaction>, reference: string): (r: Option<Transaction>)
    ensures r.Some? ==> r.value in txs && r.value.reference == reference
    ensures r.None? ==> forall t :: t in txs ==> t.reference != reference
  {
    if txs == [] then None
    else if txs[0].reference == reference then Some(txs[0])
    else FindByReference(txs[1..], reference)
  }

  /** `UPDATE transactions SET status = 'PAID' WHERE id = txId` */
  function MarkPaid(txs: seq<Transaction>, txId: nat): seq<Transaction> {
    seq(|txs|, i requires 0 <= i < |txs| => if txs[i].id == txId then txs[i].(status := Paid) else txs[i])
  }

  /** mark_transaction_paid changes the status of that transaction only, to PAID, and is idempotent. */
  lemma MarkPaidFacts(txs: seq<Transaction>, txId: nat)
    ensures |MarkPaid(txs, txId)| == |txs|
    ensures forall i :: 0 <= i < |txs| && txs[i].id == txId ==> MarkPaid(txs, txId)[i] == txs[i].(status := Paid)
    ensures forall i :: 0 <= i < |txs| && txs[i].id != txId ==> MarkPaid(txs, txId)[i] == txs[i]
    ensures MarkPaid(MarkPaid(txs, txId), txId) == MarkPaid(txs, txId)
  {
  }

  /** A PAID transaction is no longer returned by get_pending_transactions. */
  lemma PaidIsNotPending(txs: seq<Transaction>, txId: nat)
    ensures forall t :: t in PendingOf(MarkPaid(txs, txId)) ==> t.id != txId
  {
  }

  datatype StoreError = InvalidProfileField

  // ---------------------------------------------------------------
  // The store
  // ---------------------------------------------------------------

  class Store {
    var users: seq<User>
    var profiles: map<nat, Profile>
    var preferences: map<nat, Preference>
    var transactions: seq<Transaction>

    ghost predicate Valid()
      reads this
    {
      UsersWellFormed(users) && TransactionsWellFormed(transactions)
    }

    constructor ()
      ensures Valid()
      ensures users == [] && profiles == map[] && preferences == map[] && transactions == []
    {
      users := [];
      profiles := map[];
      preferences := map[];
      transactions := [];
    }

    /** get_or_create_user */
    method GetOrCreateUser(phone: string) returns (user: User)
      requires Valid()
      modifies this
      ensures Valid()
      ensures users == Registered(old(users), phone) && user == UserFor(old(users), phone)
      ensures user.phone == phone && 1 <= user.id <= |users| && users[user.id - 1] == user
      ensures profiles == old(profiles) && preferences == old(preferences) && transactions == old(transactions)
    {
      RegisteredFacts(users, phone);
      var found := FindUser(users, phone);
      if found.None? {
        users := users + [NewUser(|users| + 1, phone)];
        found := FindUser(users, phone);
        assert found == Some(|users| - 1) by {
          assert users[|users| - 1].phone == phone;
        }
      }
      user := users[found.value];
    }

    /** update_chat_state */
    method UpdateChatState(userId: nat, state: string)
      requires Valid()
      modifies this
      ensures Valid()
      ensures users == SetChatState(old(users), userId, state)
      ensures profiles == old(profiles) && preferences == old(preferences) && transactions == old(transactions)
    {
      SetChatStateOnlyThatUser(users, userId, state);
      users := SetChatState(users, userId, state);
    }

    /** ensure_profile */
    method EnsureProfile(userId: nat)
      requires Valid()
      modifies this
      ensures Valid()
      ensures profiles == WithProfile(old(profiles), userId)
      ensures users == old(users) && preferences == old(preferences) && transactions == old(transactions)
    {
      if userId !in profiles {
        profiles := profiles[userId := DEFAULT_PROFILE];
      }
    }

    /** update_profile_field: a field outside the allow-list raises ValueError before any write. */
    method UpdateProfileField(userId: nat, field: string, value: Value) returns (r: Outcome<StoreError>)
      requires Valid()
      modifies this
      ensures Valid()
      ensures field !in ALLOWED_PROFILE_FIELDS ==> r == Fail(InvalidProfileField) && profiles == old(profiles)
      ensures field in ALLOWED_PROFILE_FIELDS ==>
        r == Pass && profiles == WriteField(old(profiles), userId, ParseProfileField(field).value, value)
      ensures users == old(users) && preferences == old(preferences) && transactions == old(transactions)
    {
      var f := ParseProfileField(field);
      if f.None? {
        return Fail(InvalidProfileField);
      }
      EnsureProfile(userId);
      profiles := profiles[userId := Set(profiles[userId], f.value, value)];
      r := Pass;
    }

    /** get_user_profile: the user's profile row, or None when the user has none yet. */
    function GetUserProfile(userId: nat): (p: Option<Profile>)
      reads this
      ensures p.None? <==> userId !in profiles
      ensures p.Some? ==> p.value == profiles[userId]
    {
      if userId in profiles then Some(profiles[userId]) else None
    }

    /** create_transaction: one new PENDING row. */
    method CreateTransaction(userId: nat, reference: string, pollUrl: string, amount: string, now: nat)
      requires Valid()
      modifies this
      ensures Valid()
      ensures transactions == old(transactions) + [Transaction(|old(transactions)| + 1, userId, reference, pollUrl, amount, Pending, now)]
      ensures users == old(users) && profiles == old(profiles) && preferences == old(preferences)
    {
      transactions := transactions + [Transaction(|transactions| + 1, userId, reference, pollUrl, amount, Pending, now)];
    }

    /** mark_transaction_paid */
    method MarkTransactionPaid(txId: nat)
      requires Valid()
      modifies this
      ensures Valid()
      ensures transactions == MarkPaid(old(transactions), txId)
      ensures users == old(users) && profiles == old(profiles) && preferences == old(preferences)
    {
      transactions := MarkPaid(transactions, txId);
    }

    /** activate_subscription, with the current time passed in. */
    method ActivateSubscription(userId: nat, now: nat)
      requires Valid()
      modifies this
      ensures Valid()
      ensures users == Activate(old(users), userId, now + SUBSCRIPTION_SECONDS)
      ensures profiles == old(profiles) && preferences == old(preferences) && transactions == old(transactions)
    {
      ActivateOnlyThatUser(users, userId, now + SUBSCRIPTION_SECONDS);
      users := Activate(users, userId, now + SUBSCRIPTION_SECONDS);
    }

    /** find_potential_matches: at most one row (LIMIT 1), a qualifying one whenever one exists.
        `collation` is the one the profile and preference columns are compared under. */
    method FindPotentialMatches(userId: nat, location: Value, collation: Collation) returns (m: Option<MatchRow>)
      requires Valid()
      ensures m.Some? ==> exists j :: Eligible(users, profiles, preferences, userId, location, collation, j)
                                      && m.value == MatchRowOf(users[j], profiles[users[j].id])
      ensures m.None? <==> forall j :: !Eligible(users, profiles, preferences, userId, location, collation, j)
    {
      if !(1 <= userId <= |users|) {
        return None;
      }
      var u := users[userId - 1];
      var j := 0;
      while j < |users|
        invariant 0 <= j <= |users|
        invariant forall k :: 0 <= k < j ==> !Eligible(users, profiles, preferences, userId, location, collation, k)
      {
        if IsCandidate(u, users[j], profiles, preferences, location, collation) {
          assert Eligible(users, profiles, preferences, userId, location, collation, j);
          return Some(MatchRowOf(users[j], profiles[users[j].id]));
        }
        j := j + 1;
      }
      return None;
    }
  }
}
