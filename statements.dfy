/** Statements (deposits and withdrawals), the balance they add up to, and the
    in-memory statements repository. */
module Statements {
  import opened Common

  datatype OperationType = Deposit | Withdraw

  /** A stored statement. The source calls the `kind` field `type`. */
  datatype Statement = Statement(id: Id, userId: Id, kind: OperationType, amount: int, description: string)

  /** What a caller supplies to create a statement; the repository adds the id. */
  datatype CreateStatementDTO = CreateStatementDTO(userId: Id, kind: OperationType, amount: int, description: string)

  /** The answer to a balance query: the user's statements and their balance. */
  datatype BalanceResponse = BalanceResponse(statement: seq<Statement>, balance: int)

  /** No two statements share an id. */
  ghost predicate UniqueIds(stmts: seq<Statement>) {
    forall i, j :: 0 <= i < j < |stmts| ==> stmts[i].id != stmts[j].id
  }

  /** A deposit adds its amount to the balance, a withdrawal subtracts it. */
  function Signed(op: Statement): int {
    if op.kind == Deposit then op.amount else -op.amount
  }

  /** The statements that belong to one user, in insertion order. */
  function OfUser(stmts: seq<Statement>, userId: Id): (r: seq<Statement>)
    ensures |r| <= |stmts|
    ensures forall s :: s in r ==> s in stmts && s.userId == userId
    ensures forall s :: s in stmts && s.userId == userId ==> s in r
  {
    if stmts == [] then []
    else
      var init, last := stmts[..|stmts| - 1], stmts[|stmts| - 1];
      assert stmts == init + [last];
      if last.userId == userId then OfUser(init, userId) + [last] else OfUser(init, userId)
  }

  /** The running total of a statement list, folded left to right from 0.
      It agrees with the reference definition: deposits add, withdrawals
      subtract. */
  function Total(ops: seq<Statement>): (r: int)
    ensures r == Credits(ops) - Debits(ops)
  {
    if ops == [] then 0
    else
      var init, last := ops[..|ops| - 1], ops[|ops| - 1];
      assert ops == init + [last];
      CreditsDebitsSnoc(init, last);
      Total(init) + Signed(last)
  }

  /** A user's balance: the total of that user's statements, which is what
      they deposited minus what they withdrew, and 0 when they have none. */
  function Balance(stmts: seq<Statement>, userId: Id): (r: int)
    ensures r == Credits(OfUser(stmts, userId)) - Debits(OfUser(stmts, userId))
    ensures (forall s :: s in stmts ==> s.userId != userId) ==> r == 0
  {
    Total(OfUser(stmts, userId))
  }

  /** Reference definitions: the sum of all deposited amounts and the sum of
      all withdrawn amounts, each counted from the front of the list. */
  function Credits(ops: seq<Statement>): int {
    if ops == [] then 0 else (if ops[0].kind == Deposit then ops[0].amount else 0) + Credits(ops[1..])
  }

  function Debits(ops: seq<Statement>): int {
    if ops == [] then 0 else (if ops[0].kind == Withdraw then ops[0].amount else 0) + Debits(ops[1..])
  }

  /** Every user's balance is at least zero. */
  ghost predicate Solvent(stmts: seq<Statement>) {
    forall userId: Id :: Balance(stmts, userId) >= 0
  }

  /** The first statement with the given id that belongs to the given user. */
  function FindStatement(stmts: seq<Statement>, statementId: Id, userId: Id): (r: Option<Statement>)
    ensures r.Some? ==> r.value in stmts && r.value.id == statementId && r.value.userId == userId
    ensures r.None? <==> forall s :: s in stmts ==> s.id != statementId || s.userId != userId
  {
    if stmts == [] then None
    else if stmts[0].id == statementId && stmts[0].userId == userId then Some(stmts[0])
    else
      assert stmts == [stmts[0]] + stmts[1..];
      FindStatement(stmts[1..], statementId, userId)
  }

  // ---------------------------------------------------------------- lemmas

  /** Filtering by user distributes over concatenation, so it keeps the order
      of the store. */
  lemma {:induction false} OfUserConcat(a: seq<Statement>, b: seq<Statement>, userId: Id)
    ensures OfUser(a + b, userId) == OfUser(a, userId) + OfUser(b, userId)
    decreases |b|
  {
    if b == [] {
      assert a + b == a;
    } else {
      var init, last := b[..|b| - 1], b[|b| - 1];
      assert (a + b)[..|a + b| - 1] == a + init;
      assert (a + b)[|a + b| - 1] == last;
      OfUserConcat(a, init, userId);
    }
  }

  /** The total of two lists laid end to end is the sum of their totals. */
  lemma {:induction false} TotalConcat(a: seq<Statement>, b: seq<Statement>)
    ensures Total(a + b) == Total(a) + Total(b)
    decreases |b|
  {
    if b == [] {
      assert a + b == a;
    } else {
      var init, last := b[..|b| - 1], b[|b| - 1];
      assert (a + b)[..|a + b| - 1] == a + init;
      assert (a + b)[|a + b| - 1] == last;
      TotalConcat(a, init);
    }
  }

  /** Taking one statement out of a list takes it out of the list's multiset. */
  lemma MultisetRemoveOne(b: seq<Statement>, i: nat)
    requires i < |b|
    ensures multiset(b[..i] + b[i + 1..]) == multiset(b) - multiset{b[i]}
  {
    var left, right := b[..i], b[i + 1..];
    assert b == left + ([b[i]] + right);
    assert multiset(b) == multiset(left) + (multiset{b[i]} + multiset(right));
    assert multiset(left + right) == multiset(left) + multiset(right);
  }

  /** Taking one statement out of a list takes its signed amount out of the
      total. */
  lemma TotalRemoveOne(b: seq<Statement>, i: nat)
    requires i < |b|
    ensures Total(b) == Total(b[..i] + b[i + 1..]) + Signed(b[i])
  {
    var left, right := b[..i], b[i + 1..];
    assert b == (left + [b[i]]) + right;
    TotalConcat(left + [b[i]], right);
    assert (left + [b[i]])[..|left|] == left;
    TotalConcat(left, right);
  }

  /** The order of the statements does not change their total. */
  lemma {:induction false} TotalPermutation(a: seq<Statement>, b: seq<Statement>)
    requires multiset(a) == multiset(b)
    ensures Total(a) == Total(b)
    decreases |a|
  {
    if a == [] {
      assert |b| == |multiset(b)| == 0;
    } else {
      var init, last := a[..|a| - 1], a[|a| - 1];
      assert a == init + [last];
      assert multiset(init) == multiset(a) - multiset{last};
      assert last in multiset(b);
      var i :| 0 <= i < |b| && b[i] == last;
      MultisetRemoveOne(b, i);
      TotalRemoveOne(b, i);
      TotalPermutation(init, b[..i] + b[i + 1..]);
    }
  }

  lemma {:induction false} CreditsDebitsSnoc(ops: seq<Statement>, x: Statement)
    ensures Credits(ops + [x]) == Credits(ops) + (if x.kind == Deposit then x.amount else 0)
    ensures Debits(ops + [x]) == Debits(ops) + (if x.kind == Withdraw then x.amount else 0)
    decreases |ops|
  {
    if ops == [] {
      assert [x][1..] == [];
    } else {
      assert (ops + [x])[1..] == ops[1..] + [x];
      CreditsDebitsSnoc(ops[1..], x);
    }
  }

  /** A history of deposits only adds up to exactly the deposited amounts. */
  lemma {:induction false} DepositsOnlyTotal(ops: seq<Statement>)
    requires forall i :: 0 <= i < |ops| ==> ops[i].kind == Deposit
    ensures Total(ops) == Credits(ops) && Debits(ops) == 0
    decreases |ops|
  {
    if ops != [] {
      DepositsOnlyTotal(ops[1..]);
    }
  }

  /** Appending a statement moves its owner's balance by the signed amount and
      leaves every other user's balance alone. */
  lemma BalanceAfterAppend(stmts: seq<Statement>, s: Statement, userId: Id)
    ensures Balance(stmts + [s], userId)
         == Balance(stmts, userId) + (if s.userId == userId then Signed(s) else 0)
  {
  }

  /** A deposit of a non-negative amount, or a withdrawal the owner's balance
      covers, keeps every balance non-negative. */
  lemma AppendKeepsSolvent(stmts: seq<Statement>, s: Statement)
    requires Solvent(stmts)
    requires s.kind == Deposit ==> s.amount >= 0
    requires s.kind == Withdraw ==> s.amount <= Balance(stmts, s.userId)
    ensures Solvent(stmts + [s])
  {
    forall userId: Id ensures Balance(stmts + [s], userId) >= 0 {
      BalanceAfterAppend(stmts, s, userId);
    }
  }

  // ------------------------------------------------------------ repository

  /** The in-memory statements repository: a growing list of statements and
      the counter that supplies fresh ids. */
  class InMemoryStatementsRepository {
    var statements: seq<Statement>
    var nextId: Id

    ghost predicate Valid()
      reads this
    {
      UniqueIds(statements) && forall s :: s in statements ==> s.id < nextId
    }

    constructor ()
      ensures Valid() && statements == []
    {
      statements := [];
      nextId := 0;
    }

    /** Stores a statement built from `data` under a fresh id and returns it. */
    method Create(data: CreateStatementDTO) returns (s: Statement)
      requires Valid()
      modifies this
      ensures Valid()
      ensures s.userId == data.userId && s.kind == data.kind
      ensures s.amount == data.amount && s.description == data.description
      ensures forall t :: t in old(statements) ==> t.id != s.id
      ensures statements == old(statements) + [s] && s in statements
    {
      s := Statement(nextId, data.userId, data.kind, data.amount, data.description);
      statements := statements + [s];
      nextId := nextId + 1;
    }

    function FindStatementOperation(statementId: Id, userId: Id): Option<Statement>
      reads this
    {
      FindStatement(statements, statementId, userId)
    }

    function GetUserBalance(userId: Id): BalanceResponse
      reads this
    {
      var mine := OfUser(statements, userId);
      BalanceResponse(mine, Total(mine))
    }
  }
}
