/** The payment poller (poller.py): one pass over the PENDING transactions, settling those
    whose Paynow poll answer says "Paid". */
module Poller {
  import opened Common
  import opened DatingStore

  /** What polling one transaction's poll url gave: the response text, or an exception. */
  datatype PollOutcome = Response(text: string) | RequestFailed

  /** The poll outcome for a transaction; one missing from the map is a request that raised. */
  function OutcomeFor(responses: map<nat, PollOutcome>, txId: nat): PollOutcome {
    if txId in responses then responses[txId] else RequestFailed
  }

  /** `"Paid" in r.text` */
  predicate Confirms(o: PollOutcome) {
    o.Response? && Contains(o.text, "Paid")
  }

  /** The ids of the transactions the loop settles, in the order it settles them. */
  function SettledIds(pending: seq<Transaction>, responses: map<nat, PollOutcome>): (ids: seq<nat>)
    ensures |ids| <= |pending|
  {
    if pending == [] then []
    else
      var last := pending[|pending| - 1];
      SettledIds(pending[..|pending| - 1], responses) + (if Confirms(OutcomeFor(responses, last.id)) then [last.id] else [])
  }

  /** The users whose subscription the loop activates, one entry per settled transaction. */
  function SettledOwners(pending: seq<Transaction>, responses: map<nat, PollOutcome>): (owners: seq<nat>)
    ensures |owners| <= |pending|
  {
    if pending == [] then []
    else
      var last := pending[|pending| - 1];
      SettledOwners(pending[..|pending| - 1], responses) + (if Confirms(OutcomeFor(responses, last.id)) then [last.userId] else [])
  }

  /** A transaction id is settled exactly when a pending transaction with that id got a
      confirming poll answer; a user is activated exactly when one of their pending
      transactions did. */
  lemma {:induction false} SettledMembers(pending: seq<Transaction>, responses: map<nat, PollOutcome>)
    ensures forall id :: id in SettledIds(pending, responses) <==>
      exists t :: t in pending && t.id == id && Confirms(OutcomeFor(responses, t.id))
    ensures forall u :: u in SettledOwners(pending, responses) <==>
      exists t :: t in pending && t.userId == u && Confirms(OutcomeFor(responses, t.id))
  {
    if pending != [] {
      var init, last := pending[..|pending| - 1], pending[|pending| - 1];
      SettledMembers(init, responses);
      assert pending == init + [last];
      assert forall t :: t in pending <==> t in init || t == last;
    }
  }

  /** A pending transaction whose poll answer confirms it gets its user activated. */
  lemma OwnerSettled(pending: seq<Transaction>, responses: map<nat, PollOutcome>, t: Transaction)
    requires t in pending && Confirms(OutcomeFor(responses, t.id))
    ensures t.userId in SettledOwners(pending, responses)
  {
    SettledMembers(pending, responses);
  }

  /** A PENDING transaction appended to the table is examined by the next pass, and activates
      its user when its poll answer confirms it. */
  lemma AppendedPendingSettles(txs: seq<Transaction>, t: Transaction, responses: map<nat, PollOutcome>)
    requires t.status == Pending && Confirms(OutcomeFor(responses, t.id))
    ensures t.userId in SettledOwners(PendingOf(txs + [t]), responses)
  {
    PendingOfAppend(txs, [t]);
    PendingOfSingle(t);
    assert t in PendingOf(txs + [t]);
    OwnerSettled(PendingOf(txs + [t]), responses, t);
  }

  /** The transactions table with every row whose id is in ids marked PAID. */
  function MarkAllPaid(txs: seq<Transaction>, ids: seq<nat>): seq<Transaction> {
    seq(|txs|, i requires 0 <= i < |txs| => if txs[i].id in ids then txs[i].(status := Paid) else txs[i])
  }

  /** The users table with every user in owners activated until expiry. */
  function ActivateAll(users: seq<User>, owners: seq<nat>, expiry: nat): seq<User> {
    seq(|users|, i requires 0 <= i < |users| =>
      if users[i].id in owners then users[i].(isActive := true, subscriptionExpiry := Some(expiry), chatState := ACTIVE_SEARCH)
      else users[i])
  }

  lemma SettledStep(pending: seq<Transaction>, responses: map<nat, PollOutcome>, i: nat)
    requires i < |pending|
    ensures var extra := if Confirms(OutcomeFor(responses, pending[i].id)) then [pending[i].id] else [];
      SettledIds(pending[..i + 1], responses) == SettledIds(pending[..i], responses) + extra
    ensures var extra := if Confirms(OutcomeFor(responses, pending[i].id)) then [pending[i].userId] else [];
      SettledOwners(pending[..i + 1], responses) == SettledOwners(pending[..i], responses) + extra
  {
    var p := pending[..i + 1];
    assert p[..|p| - 1] == pending[..i];
    assert p[|p| - 1] == pending[i];
  }

  lemma MarkOneMore(txs: seq<Transaction>, ids: seq<nat>, id: nat)
    ensures MarkPaid(MarkAllPaid(txs, ids), id) == MarkAllPaid(txs, ids + [id])
  {
    var l, r := MarkPaid(MarkAllPaid(txs, ids), id), MarkAllPaid(txs, ids + [id]);
    forall i | 0 <= i < |txs|
      ensures l[i] == r[i]
    {
      assert txs[i].id in ids + [id] <==> txs[i].id in ids || txs[i].id == id;
    }
  }

  lemma ActivateOneMore(users: seq<User>, owners: seq<nat>, owner: nat, expiry: nat)
    ensures Activate(ActivateAll(users, owners, expiry), owner, expiry) == ActivateAll(users, owners + [owner], expiry)
  {
    var l, r := Activate(ActivateAll(users, owners, expiry), owner, expiry), ActivateAll(users, owners + [owner], expiry);
    forall i | 0 <= i < |users|
      ensures l[i] == r[i]
    {
      assert users[i].id in owners + [owner] <==> users[i].id in owners || users[i].id == owner;
    }
  }

  /** run(): examines only the transactions get_pending_transactions returns; for each, a poll
      answer containing "Paid" marks it PAID and activates its user; any other answer, or a
      request that raises, leaves both untouched and the loop goes on with the next one.
      `settled` lists the transactions whose user was activated, in order. */
  method Run(store: Store, responses: map<nat, PollOutcome>, now: nat) returns (settled: seq<nat>)
    requires store.Valid()
    modifies store
    ensures store.Valid()
    ensures settled == SettledIds(PendingOf(old(store.transactions)), responses)
    ensures store.transactions == MarkAllPaid(old(store.transactions), settled)
    ensures store.users == ActivateAll(old(store.users), SettledOwners(PendingOf(old(store.transactions)), responses), now + SUBSCRIPTION_SECONDS)
    ensures store.profiles == old(store.profiles) && store.preferences == old(store.preferences)
  {
    var pending := PendingOf(store.transactions);
    ghost var txs0, users0 := store.transactions, store.users;
    ghost var owners: seq<nat> := [];
    var expiry := now + SUBSCRIPTION_SECONDS;
    settled := [];
    assert MarkAllPaid(txs0, []) == txs0;
    assert ActivateAll(users0, [], expiry) == users0;
    for i := 0 to |pending|
      invariant store.Valid()
      invariant settled == SettledIds(pending[..i], responses)
      invariant owners == SettledOwners(pending[..i], responses)
      invariant store.transactions == MarkAllPaid(txs0, settled)
      invariant store.users == ActivateAll(users0, owners, expiry)
      invariant store.profiles == old(store.profiles) && store.preferences == old(store.preferences)
    {
      var tx := pending[i];
      SettledStep(pending, responses, i);
      match OutcomeFor(responses, tx.id)
      case RequestFailed =>
        continue;
      case Response(text) =>
        if Contains(text, "Paid") {
          MarkOneMore(txs0, settled, tx.id);
          store.MarkTransactionPaid(tx.id);
          ActivateOneMore(users0, owners, tx.userId, expiry);
          store.ActivateSubscription(tx.userId, now);
          settled := settled + [tx.id];
          owners := owners + [tx.userId];
        }
    }
    assert pending[..|pending|] == pending;
  }

  /** The poller settles only what was PENDING: a transaction it marks PAID was PENDING before
      and its poll answer contained "Paid". */
  lemma SettledWerePending(txs: seq<Transaction>, responses: map<nat, PollOutcome>, id: nat)
    requires id in SettledIds(PendingOf(txs), responses)
    ensures exists t :: t in txs && t.id == id && t.status == Pending && Confirms(OutcomeFor(responses, id))
  {
    SettledMembers(PendingOf(txs), responses);
  }

  /** None of the user's pending transactions got a poll answer containing "Paid". */
  predicate NoneConfirmed(txs: seq<Transaction>, responses: map<nat, PollOutcome>, userId: nat) {
    forall t :: t in txs && t.userId == userId && t.status == Pending ==> !Confirms(OutcomeFor(responses, t.id))
  }

  /** A row whose poll answer lacks "Paid" keeps its row, and a user none of whose pending
      transactions was confirmed keeps theirs. */
  lemma UnconfirmedUntouched(txs: seq<Transaction>, users: seq<User>, responses: map<nat, PollOutcome>, expiry: nat)
    ensures forall i :: 0 <= i < |txs| && !Confirms(OutcomeFor(responses, txs[i].id)) ==>
      MarkAllPaid(txs, SettledIds(PendingOf(txs), responses))[i] == txs[i]
    ensures forall i :: 0 <= i < |users| && NoneConfirmed(txs, responses, users[i].id) ==>
      ActivateAll(users, SettledOwners(PendingOf(txs), responses), expiry)[i] == users[i]
  {
    SettledMembers(PendingOf(txs), responses);
  }

  /** Every settled id is the id of one of the pending transactions. */
  lemma {:induction false} SettledFromPending(pending: seq<Transaction>, responses: map<nat, PollOutcome>, id: nat)
    requires id in SettledIds(pending, responses)
    ensures exists j :: 0 <= j < |pending| && pending[j].id == id
  {
    var init := pending[..|pending| - 1];
    if id in SettledIds(init, responses) {
      SettledFromPending(init, responses, id);
      var j :| 0 <= j < |init| && init[j].id == id;
      assert pending[j] == init[j];
    } else {
      assert pending[|pending| - 1].id == id;
    }
  }

  /** Repeated runs settle each transaction at most once: whatever the second run's poll answers,
      it settles none of the transactions the first run settled, because those are PAID now and
      no longer pending. */
  lemma NoDoubleSettlement(txs: seq<Transaction>, first: map<nat, PollOutcome>, second: map<nat, PollOutcome>)
    ensures var once := SettledIds(PendingOf(txs), first);
      forall id :: id in SettledIds(PendingOf(MarkAllPaid(txs, once)), second) ==> id !in once
  {
    var once := SettledIds(PendingOf(txs), first);
    var pending := PendingOf(MarkAllPaid(txs, once));
    forall id | id in SettledIds(pending, second)
      ensures id !in once
    {
      SettledFromPending(pending, second, id);
      var j :| 0 <= j < |pending| && pending[j].id == id;
      MarkedLeavePending(txs, once, pending[j]);
    }
  }

  /** A row still pending after the marking was not marked. */
  lemma MarkedLeavePending(txs: seq<Transaction>, ids: seq<nat>, t: Transaction)
    requires t in PendingOf(MarkAllPaid(txs, ids))
    ensures t.id !in ids
  {
    var after := MarkAllPaid(txs, ids);
    assert t in after && t.status == Pending;
    var i :| 0 <= i < |after| && after[i] == t;
  }
}
