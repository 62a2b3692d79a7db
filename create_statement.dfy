/** Recording a deposit or a withdrawal for a registered user. */
module CreateStatement {
  import opened Common
  import opened Users
  import opened Statements

  datatype CreateStatementError = UserNotFound | InsufficientFunds

  class CreateStatementUseCase {
    const usersRepository: InMemoryUsersRepository
    const statementsRepository: InMemoryStatementsRepository

    constructor (usersRepository: InMemoryUsersRepository, statementsRepository: InMemoryStatementsRepository)
      ensures this.usersRepository == usersRepository
      ensures this.statementsRepository == statementsRepository
    {
      this.usersRepository := usersRepository;
      this.statementsRepository := statementsRepository;
    }

    /** Fails with UserNotFound for an unknown user, whatever the operation;
        fails with InsufficientFunds for a withdrawal larger than the user's
        balance over every stored statement; otherwise appends the statement
        under a fresh id and returns it. A withdrawal that succeeds leaves its
        owner's balance non-negative, and a store in which every balance is
        non-negative stays so under a non-negative deposit. */
    method Execute(data: CreateStatementDTO) returns (r: Result<Statement, CreateStatementError>)
      requires statementsRepository.Valid()
      modifies statementsRepository
      ensures statementsRepository.Valid()
      ensures (forall u :: u in usersRepository.users ==> u.id != data.userId) ==> r == Failure(UserNotFound)
      ensures (exists u :: u in usersRepository.users && u.id == data.userId)
           && data.kind == Withdraw && data.amount > old(Balance(statementsRepository.statements, data.userId))
           ==> r == Failure(InsufficientFunds)
      ensures (exists u :: u in usersRepository.users && u.id == data.userId)
           && (data.kind == Deposit || data.amount <= old(Balance(statementsRepository.statements, data.userId)))
           ==> r.Success?
      ensures r.Failure? ==> unchanged(statementsRepository)
      ensures r.Success? ==>
        && (exists u :: u in usersRepository.users && u.id == data.userId)
        && r.value.userId == data.userId && r.value.kind == data.kind
        && r.value.amount == data.amount && r.value.description == data.description
        && (forall s :: s in old(statementsRepository.statements) ==> s.id != r.value.id)
        && statementsRepository.statements == old(statementsRepository.statements) + [r.value]
      ensures r.Success? ==> forall userId: Id ::
        Balance(statementsRepository.statements, userId)
        == old(Balance(statementsRepository.statements, userId)) + (if userId == data.userId then Signed(r.value) else 0)
      ensures r.Success? && data.kind == Withdraw ==> Balance(statementsRepository.statements, data.userId) >= 0
      ensures old(Solvent(statementsRepository.statements)) && data.amount >= 0 ==> Solvent(statementsRepository.statements)
    {
      if usersRepository.FindById(data.userId).None? {
        return Failure(UserNotFound);
      }
      if data.kind == Withdraw {
        var balance := statementsRepository.GetUserBalance(data.userId).balance;
        if balance < data.amount {
          return Failure(InsufficientFunds);
        }
      }
      ghost var before := statementsRepository.statements;
      var statement := statementsRepository.Create(data);
      forall userId: Id
        ensures Balance(before + [statement], userId)
             == Balance(before, userId) + (if userId == data.userId then Signed(statement) else 0)
      {
        BalanceAfterAppend(before, statement, userId);
      }
      if Solvent(before) && data.amount >= 0 {
        AppendKeepsSolvent(before, statement);
      }
      r := Success(statement);
    }
  }

  /** "should not be able to create a statement to inexistent user": even a
      deposit is refused. */
  method RejectsUnknownUser(userId: Id) returns (r: Result<Statement, CreateStatementError>)
    ensures r == Failure(UserNotFound)
  {
    var statementsRepository := new InMemoryStatementsRepository();
    var usersRepository := new InMemoryUsersRepository();
    var sut := new CreateStatementUseCase(usersRepository, statementsRepository);
    r := sut.Execute(CreateStatementDTO(userId, Deposit, 100, "any_description"));
  }

  /** "should not be able to create a statement if user balance is
      insufficient": a withdrawal of 100 against a balance of 0. */
  method RejectsOverdraft() returns (r: Result<Statement, CreateStatementError>)
    ensures r == Failure(InsufficientFunds)
  {
    var statementsRepository := new InMemoryStatementsRepository();
    var usersRepository := new InMemoryUsersRepository();
    var sut := new CreateStatementUseCase(usersRepository, statementsRepository);
    var user := usersRepository.Create(CreateUserDTO("any_name", "any_email", "any_password"));
    r := sut.Execute(CreateStatementDTO(user.id, Withdraw, 100, "any_description"));
  }

  /** "should be able to create a statement with operation deposit": the
      stored statement echoes the request. */
  method CreatesDeposit() returns (user: User, r: Result<Statement, CreateStatementError>)
    ensures r.Success?
    ensures r.value.userId == user.id && r.value.kind == Deposit
    ensures r.value.amount == 50 && r.value.description == "any_description"
  {
    var statementsRepository := new InMemoryStatementsRepository();
    var usersRepository := new InMemoryUsersRepository();
    var sut := new CreateStatementUseCase(usersRepository, statementsRepository);
    user := usersRepository.Create(CreateUserDTO("any_name", "any_email", "any_password"));
    r := sut.Execute(CreateStatementDTO(user.id, Deposit, 50, "any_description"));
  }

  /** "should be able to create a statement with operation withdraw": a deposit
      of 100 written straight into the statements repository funds a
      withdrawal of 50 through the use case. */
  method CreatesWithdrawal() returns (user: User, r: Result<Statement, CreateStatementError>)
    ensures r.Success?
    ensures r.value.userId == user.id && r.value.kind == Withdraw
    ensures r.value.amount == 50 && r.value.description == "any_description"
  {
    var statementsRepository := new InMemoryStatementsRepository();
    var usersRepository := new InMemoryUsersRepository();
    var sut := new CreateStatementUseCase(usersRepository, statementsRepository);
    user := usersRepository.Create(CreateUserDTO("any_name", "any_email", "any_password"));
    var deposit := statementsRepository.Create(CreateStatementDTO(user.id, Deposit, 100, "any_description"));
    BalanceAfterAppend([], deposit, user.id);
    r := sut.Execute(CreateStatementDTO(user.id, Withdraw, 50, "any_description"));
  }
}
