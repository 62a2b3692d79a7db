/** Fetching one statement of a user by its id. */
module GetStatementOperation {
  import opened Common
  import opened Users
  import opened Statements

  datatype GetStatementOperationError = UserNotFound | StatementNotFound

  class GetStatementOperationUseCase {
    const usersRepository: InMemoryUsersRepository
    const statementsRepository: InMemoryStatementsRepository

    constructor (usersRepository: InMemoryUsersRepository, statementsRepository: InMemoryStatementsRepository)
      ensures this.usersRepository == usersRepository
      ensures this.statementsRepository == statementsRepository
    {
      this.usersRepository := usersRepository;
      this.statementsRepository := statementsRepository;
    }

    /** An unknown user gets UserNotFound, whatever the statement id; a known
        user gets StatementNotFound unless one of their own statements has the
        id. What comes back is a stored statement with the requested id and
        owner; with unique ids it is the one stored under them, and a
        statement of another user is never returned. */
    function Execute(userId: Id, statementId: Id): (r: Result<Statement, GetStatementOperationError>)
      reads usersRepository, statementsRepository
      ensures (forall u :: u in usersRepository.users ==> u.id != userId) <==> r == Failure(UserNotFound)
      ensures r == Failure(StatementNotFound) <==>
        && (exists u :: u in usersRepository.users && u.id == userId)
        && (forall s :: s in statementsRepository.statements ==> s.id != statementId || s.userId != userId)
      ensures r.Success? ==>
        r.value in statementsRepository.statements && r.value.id == statementId && r.value.userId == userId
      ensures r.Success? && Statements.UniqueIds(statementsRepository.statements) ==>
        forall s :: s in statementsRepository.statements && s.id == statementId ==> r.value == s
    {
      if usersRepository.FindById(userId).None? then
        Failure(UserNotFound)
      else
        match statementsRepository.FindStatementOperation(statementId, userId)
        case None => Failure(StatementNotFound)
        case Some(statement) =>
          Success(statement)
    }
  }

  /** "should not be able to get statement operation to inexistent user":
      UserNotFound, although the statement id is unknown too. */
  method RejectsUnknownUser(userId: Id, statementId: Id) returns (r: Result<Statement, GetStatementOperationError>)
    ensures r == Failure(UserNotFound)
  {
    var statementsRepository := new InMemoryStatementsRepository();
    var usersRepository := new InMemoryUsersRepository();
    var sut := new GetStatementOperationUseCase(usersRepository, statementsRepository);
    r := sut.Execute(userId, statementId);
  }

  /** "should not be able to get statement operation if not exists". */
  method RejectsUnknownStatement(statementId: Id) returns (r: Result<Statement, GetStatementOperationError>)
    ensures r == Failure(StatementNotFound)
  {
    var statementsRepository := new InMemoryStatementsRepository();
    var usersRepository := new InMemoryUsersRepository();
    var sut := new GetStatementOperationUseCase(usersRepository, statementsRepository);
    var user := usersRepository.Create(CreateUserDTO("any_name", "any_email", "any_password"));
    r := sut.Execute(user.id, statementId);
  }

  /** "should be able to get statement operation": the statement written into
      the repository comes back unchanged. */
  method ReturnsStoredStatement() returns (statement: Statement, r: Result<Statement, GetStatementOperationError>)
    ensures r == Success(statement)
  {
    var statementsRepository := new InMemoryStatementsRepository();
    var usersRepository := new InMemoryUsersRepository();
    var sut := new GetStatementOperationUseCase(usersRepository, statementsRepository);
    var user := usersRepository.Create(CreateUserDTO("any_name", "any_email", "any_password"));
    statement := statementsRepository.Create(CreateStatementDTO(user.id, Deposit, 100, "any_description"));
    r := sut.Execute(user.id, statement.id);
  }
}
