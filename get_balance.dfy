/** Reporting a user's balance together with the statements it comes from. */
module GetBalance {
  import opened Common
  import opened Users
  import opened Statements

  /** Thrown when no stored user has the id. */
  datatype GetBalanceError = GetBalanceError

  class GetBalanceUseCase {
    const statementsRepository: InMemoryStatementsRepository
    const usersRepository: InMemoryUsersRepository

    constructor (statementsRepository: InMemoryStatementsRepository, usersRepository: InMemoryUsersRepository)
      ensures this.statementsRepository == statementsRepository
      ensures this.usersRepository == usersRepository
    {
      this.statementsRepository := statementsRepository;
      this.usersRepository := usersRepository;
    }

    /** Fails exactly when no stored user has the id. Otherwise the response
        lists exactly that user's statements in insertion order, and its
        balance is that user's balance in the store: what they
        deposited minus what they withdrew; with no statements it is the empty
        list and 0. */
    function Execute(userId: Id): (r: Result<BalanceResponse, GetBalanceError>)
      reads statementsRepository, usersRepository
      ensures r.Failure? <==> forall u :: u in usersRepository.users ==> u.id != userId
      ensures r.Success? ==>
        && (forall s :: s in r.value.statement ==> s in statementsRepository.statements && s.userId == userId)
        && (forall s :: s in statementsRepository.statements && s.userId == userId ==> s in r.value.statement)
        && r.value.balance == Credits(r.value.statement) - Debits(r.value.statement)
      ensures r.Success? ==>
        && r.value.statement == OfUser(statementsRepository.statements, userId)
        && r.value.balance == Balance(statementsRepository.statements, userId)
      ensures r.Success? && (forall s :: s in statementsRepository.statements ==> s.userId != userId) ==>
        r.value.statement == [] && r.value.balance == 0
    {
      if usersRepository.FindById(userId).None? then
        Failure(GetBalanceError)
      else
        Success(statementsRepository.GetUserBalance(userId))
    }
  }

  /** "should not be able to get balance to inexistent user". */
  method RejectsUnknownUser(userId: Id) returns (r: Result<BalanceResponse, GetBalanceError>)
    ensures r.Failure?
  {
    var statementsRepository := new InMemoryStatementsRepository();
    var usersRepository := new InMemoryUsersRepository();
    var sut := new GetBalanceUseCase(statementsRepository, usersRepository);
    r := sut.Execute(userId);
  }

  /** "should be able to get balance of the user": a new user of a fresh
      store has balance 0 and no statements. */
  method NewUserHasZeroBalance() returns (r: Result<BalanceResponse, GetBalanceError>)
    ensures r.Success?
    ensures r.value.balance == 0 && |r.value.statement| == 0
  {
    var statementsRepository := new InMemoryStatementsRepository();
    var usersRepository := new InMemoryUsersRepository();
    var sut := new GetBalanceUseCase(statementsRepository, usersRepository);
    var user := usersRepository.Create(CreateUserDTO("any_name", "any_email", "any_password"));
    r := sut.Execute(user.id);
  }
}
