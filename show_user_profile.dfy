/** Showing the profile of a user, looked up by id. */
module ShowUserProfile {
  import opened Common
  import opened Users

  /** Thrown when no stored user has the id. */
  datatype ShowUserProfileError = ShowUserProfileError

  class ShowUserProfileUseCase {
    const usersRepository: InMemoryUsersRepository

    constructor (usersRepository: InMemoryUsersRepository)
      ensures this.usersRepository == usersRepository
    {
      this.usersRepository := usersRepository;
    }

    /** Fails exactly when no stored user has the id; otherwise returns a
        stored user with that id, and with unique ids that user is the one
        stored under it. */
    function Execute(userId: Id): (r: Result<User, ShowUserProfileError>)
      reads usersRepository
      ensures r.Failure? <==> forall u :: u in usersRepository.users ==> u.id != userId
      ensures r.Success? ==> r.value in usersRepository.users && r.value.id == userId
      ensures UniqueIds(usersRepository.users) ==>
        forall u :: u in usersRepository.users && u.id == userId ==> r == Success(u)
    {
      match usersRepository.FindById(userId)
      case None => Failure(ShowUserProfileError)
      case Some(user) =>
        Success(user)
    }
  }

  /** "should not be able to get user infos if not exists". */
  method RejectsUnknownUser(userId: Id) returns (r: Result<User, ShowUserProfileError>)
    ensures r.Failure?
  {
    var usersRepository := new InMemoryUsersRepository();
    var sut := new ShowUserProfileUseCase(usersRepository);
    r := sut.Execute(userId);
  }

  /** "should be able to get user infos to show profile": the profile has the
      stored user's id, name and email. */
  method ShowsStoredUser() returns (user: User, r: Result<User, ShowUserProfileError>)
    ensures r.Success?
    ensures r.value.id == user.id && r.value.name == user.name && r.value.email == user.email
  {
    var usersRepository := new InMemoryUsersRepository();
    var sut := new ShowUserProfileUseCase(usersRepository);
    user := usersRepository.Create(CreateUserDTO("any_name", "any_email", "any_password"));
    r := sut.Execute(user.id);
  }
}
