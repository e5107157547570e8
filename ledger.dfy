/**
 * The debt ledger as the handlers see it: the Debt record, the document store that
 * inserts and looks up debts (src/databse/dbDebts.ts and the ownership lookup), and the
 * transaction service reached by a correlated request (src/utils/rabbitRequest.ts).
 * Both collaborators are abstract: a store is a map of debts, a requestor is the log of
 * the requests it has published; either can be unreachable, in which case the call throws.
 */
module Ledger {
  import opened Wrappers

  type DebtId = nat
  type Timestamp = int

  /** A payment applied to a debt: the transaction that recorded it and its amount in cents. */
  datatype Payment = Payment(transaction: string, amount: int)

  datatype Debt = Debt(
    id: DebtId,
    userId: string,
    loaner: string,
    amount: int,
    concept: string,
    date: string,
    payments: seq<Payment>,
    completed: bool,
    createdAt: Timestamp)

  /** The fields the add handler gives the store for a new debt. */
  datatype NewDebt = NewDebt(amount: int, concept: string, date: string, loaner: string, userId: string)

  /** The debt the store saves for `record`: its fields, the assigned id, no payments, not completed, created now. */
  function Created(record: NewDebt, id: DebtId, now: Timestamp): Debt {
    Debt(id, record.userId, record.loaner, record.amount, record.concept, record.date, [], false, now)
  }

  const StoreUnavailable := "the debt store did not answer"
  const RequestorUnavailable := "the transaction queue could not be reached"
  const NoReply := "the transaction service did not reply"
  const NotOwnerMessage := "The debt does not exist or does not belong to the user"

  /** The result of validateDebtOwnership: whether the user owns the debt, the errors, and the debt it fetched. */
  datatype Ownership = Ownership(valid: bool, errors: map<string, string>, debt: Option<Debt>)

  /** validateDebtOwnership over the stored debts: valid exactly when the debt exists and belongs to the user. */
  function OwnershipOf(debts: map<DebtId, Debt>, userId: string, debtId: DebtId): (r: Ownership)
    ensures r.valid <==> debtId in debts && debts[debtId].userId == userId
    ensures r.valid <==> r.errors == map[]
    ensures r.valid ==> r.debt == Some(debts[debtId])
    ensures !r.valid ==> r.debt == None
  {
    if debtId in debts && debts[debtId].userId == userId then Ownership(true, map[], Some(debts[debtId]))
    else
      var errors := map["debt" := NotOwnerMessage];
      assert "debt" in errors;
      Ownership(false, errors, None)
  }

  /** The debt collection. */
  class DebtStore {
    var debts: map<DebtId, Debt>
    var nextId: DebtId
    var online: bool

    /** Every stored debt is filed under its own id, and ids still to be assigned are unused. */
    ghost predicate Valid()
      reads this
    {
      forall id | id in debts :: id < nextId && debts[id].id == id
    }

    constructor (online: bool)
      ensures Valid()
      ensures debts == map[] && nextId == 0 && this.online == online
    {
      debts := map[];
      nextId := 0;
      this.online := online;
    }

    /** DbDebts.add: saves a new debt under a fresh id and returns it; throws when the store is down. */
    method Add(record: NewDebt, now: Timestamp) returns (r: Result<Debt>)
      requires Valid()
      modifies this
      ensures Valid()
      ensures old(online) ==> old(nextId) !in old(debts)
      ensures old(online) ==>
        && r == Ok(Created(record, old(nextId), now))
        && debts == old(debts)[old(nextId) := r.value]
        && nextId == old(nextId) + 1
        && online
      ensures !old(online) ==> r == Err(StoreUnavailable) && unchanged(this)
    {
      if !online {
        return Err(StoreUnavailable);
      }
      var debt := Created(record, nextId, now);
      debts := debts[nextId := debt];
      nextId := nextId + 1;
      r := Ok(debt);
    }

    /** Validator.validateDebtOwnership: looks the debt up; throws when the store is down. */
    method ValidateDebtOwnership(userId: string, debtId: DebtId) returns (r: Result<Ownership>)
      ensures online ==> r == Ok(OwnershipOf(debts, userId, debtId))
      ensures !online ==> r == Err(StoreUnavailable)
    {
      if !online {
        return Err(StoreUnavailable);
      }
      r := Ok(OwnershipOf(debts, userId, debtId));
    }
  }

  /** A request published to another service's queue: the queue, the message type and the payload. */
  datatype TransactionRequest = TransactionRequest(queue: string, kind: string, payload: map<string, string>)

  /**
   * RabbitRequest: publishes correlated requests and waits for each reply. `attempts` logs
   * every call, `sent` every request that reached the queue. A requestor that cannot
   * connect throws before publishing; one whose reply never comes throws after publishing.
   */
  class TransactionRequestor {
    var attempts: seq<TransactionRequest>
    var sent: seq<TransactionRequest>
    var connected: bool
    var answering: bool

    constructor (connected: bool, answering: bool)
      ensures attempts == [] && sent == []
      ensures this.connected == connected && this.answering == answering
    {
      attempts := [];
      sent := [];
      this.connected := connected;
      this.answering := answering;
    }

    /**
     * sendWithResponse: connects, publishes the request, then waits for its reply and
     * returns the correlation number of the reply (the reply itself is not modelled).
     */
    method SendWithResponse(queue: string, kind: string, payload: map<string, string>) returns (r: Result<nat>)
      modifies this
      ensures attempts == old(attempts) + [TransactionRequest(queue, kind, payload)]
      ensures connected == old(connected) && answering == old(answering)
      ensures old(connected) ==> sent == old(sent) + [TransactionRequest(queue, kind, payload)]
      ensures !old(connected) ==> sent == old(sent) && r == Err(RequestorUnavailable)
      ensures old(connected) && !old(answering) ==> r == Err(NoReply)
      ensures old(connected) && old(answering) ==> r == Ok(|old(sent)|)
    {
      var request := TransactionRequest(queue, kind, payload);
      attempts := attempts + [request];
      if !connected {
        return Err(RequestorUnavailable);
      }
      sent := sent + [request];
      if !answering {
        return Err(NoReply);
      }
      r := Ok(|sent| - 1);
    }
  }
}
