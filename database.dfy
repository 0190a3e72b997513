/** The MongoDB collections the routers share, as one store object. */
module Database {
  import opened Results
  import opened Dates
  import opened ObjectIds

  /** A datetime Python can hold. */
  type ValidDateTime = t: DateTime | Valid(t) witness DateTime(1970, 1, 1, 0)

  /** A document of `expenses`. The routers insert no `email_id`; documents that
      carry one are the ones the funds reconciler counts. `date` and
      `description` may be missing from documents written by other clients. */
  datatype ExpenseDoc = ExpenseDoc(
    id: ObjectId,
    emailId: Option<string>,
    amount: int,
    category: string,
    date: Option<ValidDateTime>,
    description: Option<string>)

  /** A document of `funds`; `createdAt` and `updatedAt` are clock readings. */
  datatype FundDoc = FundDoc(
    emailId: string,
    totalFunds: int,
    spent: int,
    balance: int,
    createdAt: int,
    updatedAt: int)

  datatype CategoryDoc = CategoryDoc(id: ObjectId, name: string)

  datatype RoleDoc = RoleDoc(id: ObjectId, roleName: string)

  datatype UserDoc = UserDoc(
    id: ObjectId,
    firstName: string,
    middleName: string,
    lastName: string,
    emailId: string,
    password: string,
    roleName: string)

  /** The funds invariant: a non-negative total, spend within it, and the balance
      the difference, hence never negative. */
  predicate FundConsistent(f: FundDoc) {
    0 <= f.totalFunds && f.spent <= f.totalFunds && f.balance == f.totalFunds - f.spent
  }

  /** Every record sits under its own email and is consistent. */
  predicate FundsKeyed(funds: map<string, FundDoc>) {
    forall e :: e in funds ==> funds[e].emailId == e && FundConsistent(funds[e])
  }

  /** The funds between a route's write and the reconciler's: every record but the
      one of `key` is consistent, and that one has a non-negative total. */
  predicate Pending(funds: map<string, FundDoc>, key: string) {
    && (forall e :: e in funds && e != key ==> funds[e].emailId == e && FundConsistent(funds[e]))
    && (key in funds ==> funds[key].emailId == key && funds[key].totalFunds >= 0)
  }

  /** A route may write a record with a non-negative total; the store is then pending on it. */
  lemma WritePending(funds: map<string, FundDoc>, f: FundDoc)
    requires FundsKeyed(funds) && f.totalFunds >= 0
    ensures Pending(funds[f.emailId := f], f.emailId)
  {
    var m := funds[f.emailId := f];
    forall e | e in m && e != f.emailId
      ensures m[e].emailId == e && FundConsistent(m[e])
    {
      assert m[e] == funds[e];
    }
  }

  /** Writing a consistent record keeps the funds keyed. */
  lemma StoreFund(funds: map<string, FundDoc>, f: FundDoc)
    requires FundsKeyed(funds) && FundConsistent(f)
    ensures FundsKeyed(funds[f.emailId := f])
  {
    WritePending(funds, f);
    Settle(funds[f.emailId := f], f);
    assert funds[f.emailId := f][f.emailId := f] == funds[f.emailId := f];
  }

  /** Writing a consistent record settles a store pending on its email. */
  lemma Settle(funds: map<string, FundDoc>, f: FundDoc)
    requires Pending(funds, f.emailId) && FundConsistent(f)
    ensures FundsKeyed(funds[f.emailId := f])
  {
    var m := funds[f.emailId := f];
    forall e | e in m
      ensures m[e].emailId == e && FundConsistent(m[e])
    {
      if e != f.emailId {
        assert m[e] == funds[e];
      }
    }
  }

  class Db {
    var expenses: seq<ExpenseDoc>
    var funds: map<string, FundDoc>  // keyed by `email_id`, which has a unique index
    var categories: seq<CategoryDoc>
    var roles: seq<RoleDoc>
    var users: seq<UserDoc>
    var nextId: ObjectId  // every ObjectId handed out so far is below it

    ghost predicate Valid()
      reads this
    {
      FundsKeyed(funds) && IdsValid()
    }

    /** Every ObjectId in the store was handed out, and user ids are distinct. */
    ghost predicate IdsValid()
      reads this
    {
      && (forall i :: 0 <= i < |expenses| ==> expenses[i].id < nextId)
      && (forall i :: 0 <= i < |categories| ==> categories[i].id < nextId)
      && (forall i :: 0 <= i < |roles| ==> roles[i].id < nextId)
      && (forall i :: 0 <= i < |users| ==> users[i].id < nextId)
      && (forall i, j :: 0 <= i < j < |users| ==> users[i].id != users[j].id)
    }

    constructor ()
      ensures Valid()
      ensures expenses == [] && funds == map[] && categories == [] && roles == [] && users == []
    {
      expenses, funds, categories, roles, users := [], map[], [], [], [];
      nextId := 0;
    }

    /** The ObjectId `insert_one` gives a new document: one no document has yet. */
    method NewId() returns (id: ObjectId)
      modifies this`nextId
      ensures id == old(nextId) && nextId == id + 1
    {
      id := nextId;
      nextId := nextId + 1;
    }
  }
}
