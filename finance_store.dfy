/** The micro-finance bot's MySQL store (db/db_manager.py): the users table, the allow-listed
    update_user, and the applications table that save_final_application appends to.
    Both tables take their ids from an AUTO_INCREMENT counter and nothing deletes from them.
    An insert refused by the UNIQUE phone column still uses up a users id, so user ids rise
    with table order but may skip values; application inserts are never refused, so
    application i carries id i + 1. */
module FinanceStore {
  import opened Common

  /** Column default of users.chat_state and applications.status. */
  const START := "START"
  const PENDING := "PENDING"

  /** The columns update_user accepts. */
  datatype Column = FullName | Age | Gender | Address | NationalId | ChatState
                  | SelectedProduct | Amount | SelfieUrl | BizDesc

  const UPDATABLE_FIELDS: set<string> := {"full_name", "age", "gender", "address", "national_id",
                                          "chat_state", "selected_product", "amount", "selfie_url", "biz_desc"}

  function ColumnName(c: Column): string {
    match c
    case FullName => "full_name"
    case Age => "age"
    case Gender => "gender"
    case Address => "address"
    case NationalId => "national_id"
    case ChatState => "chat_state"
    case SelectedProduct => "selected_product"
    case Amount => "amount"
    case SelfieUrl => "selfie_url"
    case BizDesc => "biz_desc"
  }

  /** The allow-list check of update_user: the column a field name denotes, if it may be updated. */
  function ParseColumn(field: string): (c: Option<Column>)
    ensures c.Some? <==> field in UPDATABLE_FIELDS
    ensures c.Some? ==> ColumnName(c.value) == field
  {
    if field == "full_name" then Some(FullName)
    else if field == "age" then Some(Age)
    else if field == "gender" then Some(Gender)
    else if field == "address" then Some(Address)
    else if field == "national_id" then Some(NationalId)
    else if field == "chat_state" then Some(ChatState)
    else if field == "selected_product" then Some(SelectedProduct)
    else if field == "amount" then Some(Amount)
    else if field == "selfie_url" then Some(SelfieUrl)
    else if field == "biz_desc" then Some(BizDesc)
    else None
  }

  /** Distinct columns have distinct names, so the allow-list names each column once. */
  lemma ColumnNameInjective(c: Column, d: Column)
    requires ColumnName(c) == ColumnName(d)
    ensures c == d
  {
    assert ParseColumn(ColumnName(c)) == Some(c);
  }

  /** A users row; None is SQL NULL. The columns are held as the text the bot wrote. */
  datatype UserRow = UserRow(id: nat, phone: string, fullName: Option<string>, age: Option<string>,
                             gender: Option<string>, address: Option<string>, nationalId: Option<string>,
                             chatState: Option<string>, selectedProduct: Option<string>,
                             amount: Option<string>, selfieUrl: Option<string>, bizDesc: Option<string>)

  /** The row `INSERT INTO users (phone)` creates: every column NULL but chat_state, which defaults to START. */
  function NewUserRow(id: nat, phone: string): UserRow {
    UserRow(id, phone, None, None, None, None, None, Some(START), None, None, None, None)
  }

  function Get(u: UserRow, c: Column): Option<string> {
    match c
    case FullName => u.fullName
    case Age => u.age
    case Gender => u.gender
    case Address => u.address
    case NationalId => u.nationalId
    case ChatState => u.chatState
    case SelectedProduct => u.selectedProduct
    case Amount => u.amount
    case SelfieUrl => u.selfieUrl
    case BizDesc => u.bizDesc
  }

  /** The row with one column set, every other column as it was. */
  function Set(u: UserRow, c: Column, v: string): (w: UserRow)
    ensures w.id == u.id && w.phone == u.phone
    ensures Get(w, c) == Some(v)
    ensures forall d :: d != c ==> Get(w, d) == Get(u, d)
  {
    match c
    case FullName => u.(fullName := Some(v))
    case Age => u.(age := Some(v))
    case Gender => u.(gender := Some(v))
    case Address => u.(address := Some(v))
    case NationalId => u.(nationalId := Some(v))
    case ChatState => u.(chatState := Some(v))
    case SelectedProduct => u.(selectedProduct := Some(v))
    case Amount => u.(amount := Some(v))
    case SelfieUrl => u.(selfieUrl := Some(v))
    case BizDesc => u.(bizDesc := Some(v))
  }

  /** `UPDATE users SET <c> = v WHERE id = userId` */
  function Update(users: seq<UserRow>, userId: nat, c: Column, v: string): (r: seq<UserRow>)
    ensures |r| == |users|
    ensures forall i :: 0 <= i < |users| ==> r[i].id == users[i].id && r[i].phone == users[i].phone
  {
    seq(|users|, i requires 0 <= i < |users| => if users[i].id == userId then Set(users[i], c, v) else users[i])
  }

  /** update_user changes one column of the row with that id and nothing else: other rows are
      untouched, ids and phones never change, and updating the same column twice keeps the last value. */
  lemma UpdateOnlyThatColumn(users: seq<UserRow>, userId: nat, c: Column, v: string)
    ensures |Update(users, userId, c, v)| == |users|
    ensures forall i :: 0 <= i < |users| && users[i].id != userId ==> Update(users, userId, c, v)[i] == users[i]
    ensures forall i :: 0 <= i < |users| && users[i].id == userId ==>
      Get(Update(users, userId, c, v)[i], c) == Some(v) &&
      forall d :: d != c ==> Get(Update(users, userId, c, v)[i], d) == Get(users[i], d)
    ensures forall i :: 0 <= i < |users| ==>
      Update(users, userId, c, v)[i].id == users[i].id && Update(users, userId, c, v)[i].phone == users[i].phone
    ensures forall w :: Update(Update(users, userId, c, w), userId, c, v) == Update(users, userId, c, v)
  {
    forall w
      ensures Update(Update(users, userId, c, w), userId, c, v) == Update(users, userId, c, v)
    {
      var l, r := Update(Update(users, userId, c, w), userId, c, v), Update(users, userId, c, v);
      forall i | 0 <= i < |users|
        ensures l[i] == r[i]
      {
        if users[i].id == userId {
          ColumnEquality(l[i], r[i]);
        }
      }
    }
  }

  /** Two rows that agree on id, phone and every column are the same row. */
  lemma ColumnEquality(a: UserRow, b: UserRow)
    requires a.id == b.id && a.phone == b.phone
    requires forall c :: Get(a, c) == Get(b, c)
    ensures a == b
  {
    assert Get(a, FullName) == Get(b, FullName) && Get(a, Age) == Get(b, Age);
    assert Get(a, Gender) == Get(b, Gender) && Get(a, Address) == Get(b, Address);
    assert Get(a, NationalId) == Get(b, NationalId) && Get(a, ChatState) == Get(b, ChatState);
    assert Get(a, SelectedProduct) == Get(b, SelectedProduct) && Get(a, Amount) == Get(b, Amount);
    assert Get(a, SelfieUrl) == Get(b, SelfieUrl) && Get(a, BizDesc) == Get(b, BizDesc);
  }

  /** `SELECT * FROM users WHERE phone = %s` with fetchone(): the first row with that phone. */
  function FindByPhone(users: seq<UserRow>, phone: string): (r: Option<nat>)
    ensures r.Some? ==> r.value < |users| && users[r.value].phone == phone
    ensures r.Some? ==> forall j :: 0 <= j < r.value ==> users[j].phone != phone
    ensures r.None? ==> forall j :: 0 <= j < |users| ==> users[j].phone != phone
  {
    if users == [] then None
    else if users[|users| - 1].phone == phone && FindByPhone(users[..|users| - 1], phone).None? then Some(|users| - 1)
    else FindByPhone(users[..|users| - 1], phone)
  }

  /** `SELECT * FROM users WHERE id = %s` with fetchone(). */
  function FindById(users: seq<UserRow>, userId: nat): (r: Option<UserRow>)
    ensures r.Some? ==> r.value in users && r.value.id == userId
    ensures r.None? ==> forall u :: u in users ==> u.id != userId
  {
    if users == [] then None
    else if users[0].id == userId then Some(users[0])
    else FindById(users[1..], userId)
  }

  /** An applications row; its copied columns may be NULL like the user columns they come from. */
  datatype Application = Application(id: nat, userId: nat, productType: Option<string>,
                                     nationalId: Option<string>, selfieUrl: Option<string>,
                                     amountRequested: Option<string>, businessDesc: Option<string>,
                                     status: string)

  /** The row save_final_application inserts for a user: the user's product, id number, selfie,
      amount and business description, with status defaulting to PENDING. */
  function ApplicationOf(id: nat, u: UserRow): (a: Application)
    ensures a.userId == u.id && a.status == PENDING
    ensures a.productType == u.selectedProduct && a.nationalId == u.nationalId && a.selfieUrl == u.selfieUrl
    ensures a.amountRequested == u.amount && a.businessDesc == u.bizDesc
  {
    Application(id, u.id, u.selectedProduct, u.nationalId, u.selfieUrl, u.amount, u.bizDesc, PENDING)
  }

  /** The exceptions the store raises: ValueError("Invalid field update attempt"),
      ValueError("User not found"), and the IntegrityError of the UNIQUE phone column. */
  datatype DbError = InvalidFieldUpdate | UserNotFound | DuplicatePhone

  /** AUTO_INCREMENT ids start at 1 and rise with table order; the phone column is UNIQUE. */
  ghost predicate UsersWellFormed(users: seq<UserRow>) {
    && (forall i :: 0 <= i < |users| ==> 1 <= users[i].id)
    && (forall i, j :: 0 <= i < j < |users| ==> users[i].id < users[j].id)
    && (forall i, j :: 0 <= i < j < |users| ==> users[i].phone != users[j].phone)
  }

  /** The ids of the users table, in table order. */
  function Ids(users: seq<UserRow>): (ids: seq<nat>)
    ensures |ids| == |users| && forall i :: 0 <= i < |users| ==> ids[i] == users[i].id
  {
    seq(|users|, i requires 0 <= i < |users| => users[i].id)
  }

  lemma UpdateKeepsWellFormed(users: seq<UserRow>, userId: nat, c: Column, v: string)
    requires UsersWellFormed(users)
    ensures UsersWellFormed(Update(users, userId, c, v))
    ensures Ids(Update(users, userId, c, v)) == Ids(users)
  {
    UpdateOnlyThatColumn(users, userId, c, v);
  }

  /** AUTO_INCREMENT user ids below the counter, the UNIQUE phone column, application ids
      in insertion order, and the applications.user_id foreign key. */
  ghost predicate TablesWellFormed(users: seq<UserRow>, applications: seq<Application>, nextUserId: nat) {
    && UsersWellFormed(users)
    && 1 <= nextUserId
    && (forall i :: 0 <= i < |users| ==> users[i].id < nextUserId)
    && (forall i :: 0 <= i < |applications| ==> applications[i].id == i + 1)
    && (forall i :: 0 <= i < |applications| ==> applications[i].userId in Ids(users))
  }

  /** An insert into users uses up one id whether or not it is refused; a new phone is stored
      under the id it took. */
  lemma InsertKeepsWellFormed(users: seq<UserRow>, applications: seq<Application>, nextUserId: nat, phone: string)
    requires TablesWellFormed(users, applications, nextUserId)
    ensures TablesWellFormed(users, applications, nextUserId + 1)
    ensures FindByPhone(users, phone).None? ==>
      TablesWellFormed(users + [NewUserRow(nextUserId, phone)], applications, nextUserId + 1)
  {
    if FindByPhone(users, phone).None? {
      AppendKeepsWellFormed(users, NewUserRow(nextUserId, phone));
    }
  }

  class Database {
    var users: seq<UserRow>
    var applications: seq<Application>
    /** The users table's AUTO_INCREMENT counter: the id the next insert takes. */
    var nextUserId: nat

    /** The tables and the counter as MySQL's constraints keep them. */
    ghost predicate Valid()
      reads this
    {
      TablesWellFormed(users, applications, nextUserId)
    }

    /** The tables as reset_db leaves them: created and empty, the counter at 1. */
    constructor ()
      ensures Valid()
      ensures users == [] && applications == [] && nextUserId == 1
    {
      users := [];
      applications := [];
      nextUserId := 1;
    }

    /** get_user: the row with that phone, or None when no user has it. */
    function GetUser(phone: string): (r: Option<UserRow>)
      reads this
      ensures r.Some? ==> r.value in users && r.value.phone == phone
      ensures r.None? ==> forall u :: u in users ==> u.phone != phone
    {
      match FindByPhone(users, phone)
      case None => None
      case Some(i) => Some(users[i])
    }

    /** create_user: inserts a row for the phone with the counter's id and returns it as get_user
        reads it back, with chat_state START; a phone already present violates the UNIQUE
        constraint and inserts nothing. Either way the insert uses up one id. */
    method CreateUser(phone: string) returns (r: Result<UserRow, DbError>)
      requires Valid()
      modifies this
      ensures Valid()
      ensures nextUserId == old(nextUserId) + 1
      ensures old(GetUser(phone)).Some? ==> r == Failure(DuplicatePhone) && users == old(users)
      ensures old(GetUser(phone)).None? ==>
        users == old(users) + [NewUserRow(old(nextUserId), phone)] && r == Success(users[|users| - 1])
      ensures r.Success? ==> r.value.phone == phone && r.value.chatState == Some(START) && GetUser(phone) == Some(r.value)
      ensures applications == old(applications)
    {
      var id := nextUserId;
      InsertKeepsWellFormed(users, applications, id, phone);
      nextUserId := nextUserId + 1;
      if GetUser(phone).Some? {
        return Failure(DuplicatePhone);
      }
      var row := NewUserRow(id, phone);
      FindAppended(users, row);
      users := users + [row];
      var created := GetUser(phone);
      r := Success(created.value);
    }

    /** update_user: a field outside the allow-list raises and writes nothing; otherwise that one
        column of the row with that id is set (no row has the id: nothing changes, nothing raised). */
    method UpdateUser(userId: nat, field: string, value: string) returns (r: Outcome<DbError>)
      requires Valid()
      modifies this
      ensures Valid()
      ensures field !in UPDATABLE_FIELDS ==> r == Fail(InvalidFieldUpdate) && users == old(users)
      ensures field in UPDATABLE_FIELDS ==>
        r == Pass && users == Update(old(users), userId, ParseColumn(field).value, value)
      ensures applications == old(applications) && nextUserId == old(nextUserId)
    {
      var column := ParseColumn(field);
      if column.None? {
        return Fail(InvalidFieldUpdate);
      }
      UpdateKeepsWellFormed(users, userId, column.value, value);
      users := Update(users, userId, column.value, value);
      r := Pass;
    }

    /** save_final_application: an unknown user id raises and inserts nothing; otherwise exactly
        one PENDING application copying the user's columns is appended. */
    method SaveFinalApplication(userId: nat) returns (r: Outcome<DbError>)
      requires Valid()
      modifies this
      ensures Valid()
      ensures FindById(old(users), userId).None? ==> r == Fail(UserNotFound) && applications == old(applications)
      ensures FindById(old(users), userId).Some? ==>
        r == Pass && applications == old(applications) + [ApplicationOf(|old(applications)| + 1, FindById(old(users), userId).value)]
      ensures users == old(users) && nextUserId == old(nextUserId)
    {
      var user := FindById(users, userId);
      if user.None? {
        return Fail(UserNotFound);
      }
      FoundIdListed(users, userId);
      applications := applications + [ApplicationOf(|applications| + 1, user.value)];
      r := Pass;
    }
  }

  /** Phone is unique: two users with the same phone are the same row. */
  lemma PhoneIsUnique(users: seq<UserRow>, i: nat, j: nat)
    requires UsersWellFormed(users)
    requires i < |users| && j < |users| && users[i].phone == users[j].phone
    ensures i == j
  {
  }

  /** The id is the primary key: two rows with the same id are the same row. */
  lemma IdIsUnique(users: seq<UserRow>, i: nat, j: nat)
    requires UsersWellFormed(users)
    requires i < |users| && j < |users| && users[i].id == users[j].id
    ensures i == j
  {
  }

  /** SELECT ... WHERE id finds a row exactly when its id is in the table, and then it is the
      row carrying that id, wherever the gaps left by refused inserts put it. */
  lemma {:induction false} FindByIdFindsThatRow(users: seq<UserRow>, i: nat)
    requires UsersWellFormed(users) && i < |users|
    ensures FindById(users, users[i].id) == Some(users[i])
  {
    if i > 0 {
      assert users[0].id < users[i].id;
      assert users[1..][i - 1] == users[i];
      FindByIdFindsThatRow(users[1..], i - 1);
    }
  }

  /** Appending a row whose id exceeds every id and whose phone is new keeps the table well
      formed, and keeps every id it had. */
  lemma AppendKeepsWellFormed(users: seq<UserRow>, row: UserRow)
    requires UsersWellFormed(users) && 1 <= row.id
    requires forall i :: 0 <= i < |users| ==> users[i].id < row.id && users[i].phone != row.phone
    ensures UsersWellFormed(users + [row])
    ensures forall id :: id in Ids(users) ==> id in Ids(users + [row])
  {
    var ids, ids' := Ids(users), Ids(users + [row]);
    forall id | id in ids
      ensures id in ids'
    {
      var i :| 0 <= i < |ids| && ids[i] == id;
      assert ids'[i] == id;
    }
  }

  /** A row appended under a phone no row had is the row SELECT ... WHERE phone finds. */
  lemma FindAppended(users: seq<UserRow>, row: UserRow)
    requires FindByPhone(users, row.phone).None?
    ensures FindByPhone(users + [row], row.phone) == Some(|users|)
  {
    assert (users + [row])[..|users|] == users;
  }

  /** An id SELECT ... WHERE id finds is one of the table's ids. */
  lemma FoundIdListed(users: seq<UserRow>, userId: nat)
    requires FindById(users, userId).Some?
    ensures userId in Ids(users)
  {
    var u := FindById(users, userId).value;
    var i :| 0 <= i < |users| && users[i] == u;
    assert Ids(users)[i] == userId;
  }
}
