/** Registering a user whose email is not taken yet. */
module CreateUser {
  import opened Common
  import opened Users

  /** Thrown when the email already belongs to a stored user. */
  datatype CreateUserError = CreateUserError

  class CreateUserUseCase {
    const usersRepository: InMemoryUsersRepository

    constructor (usersRepository: InMemoryUsersRepository)
      ensures this.usersRepository == usersRepository
    {
      this.usersRepository := usersRepository;
    }

    /** Fails when any stored user, however it was stored, has the email;
        otherwise stores a new user under a fresh id and returns it. */
    method Execute(data: CreateUserDTO) returns (r: Result<User, CreateUserError>)
      requires usersRepository.Valid()
      modifies usersRepository
      ensures usersRepository.Valid()
      ensures r.Failure? <==> exists u :: u in old(usersRepository.users) && u.email == data.email
      ensures r.Failure? ==> unchanged(usersRepository)
      ensures r.Success? ==>
        && r.value.name == data.name && r.value.email == data.email && r.value.password == data.password
        && (forall u :: u in old(usersRepository.users) ==> u.id != r.value.id)
        && usersRepository.users == old(usersRepository.users) + [r.value]
      ensures old(UniqueEmails(usersRepository.users)) ==> UniqueEmails(usersRepository.users)
    {
      if usersRepository.FindByEmail(data.email).Some? {
        return Failure(CreateUserError);
      }
      ghost var before := usersRepository.users;
      var user := usersRepository.Create(data);
      if UniqueEmails(before) {
        AppendKeepsEmailsUnique(before, user);
      }
      r := Success(user);
    }
  }

  /** "should not be able to create a user if already exists": the first user
      is written straight into the repository, and the use case still sees it. */
  method RejectsTakenEmail() returns (r: Result<User, CreateUserError>)
    ensures r.Failure?
  {
    var usersRepository := new InMemoryUsersRepository();
    var sut := new CreateUserUseCase(usersRepository);
    var existing := usersRepository.Create(CreateUserDTO("any_name", "any_email", "any_password"));
    r := sut.Execute(CreateUserDTO("any_name", "any_email", "any_password"));
  }

  /** "should be able to create a user": an empty directory accepts the user,
      which comes back with an id and the supplied fields. */
  method CreatesUser() returns (r: Result<User, CreateUserError>)
    ensures r.Success?
    ensures r.value.name == "any_name" && r.value.email == "any_email"
  {
    var usersRepository := new InMemoryUsersRepository();
    var sut := new CreateUserUseCase(usersRepository);
    r := sut.Execute(CreateUserDTO("any_name", "any_email", "any_password"));
  }
}
