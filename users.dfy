/** Users and the in-memory users repository. */
module Users {
  import opened Common

  /** A registered user. The password is kept as an opaque string. */
  datatype User = User(id: Id, name: string, email: string, password: string)

  /** What a caller supplies to create a user; the repository adds the id. */
  datatype CreateUserDTO = CreateUserDTO(name: string, email: string, password: string)

  /** No two users share an id. */
  ghost predicate UniqueIds(users: seq<User>) {
    forall i, j :: 0 <= i < j < |users| ==> users[i].id != users[j].id
  }

  /** No two users share an email. */
  ghost predicate UniqueEmails(users: seq<User>) {
    forall i, j :: 0 <= i < j < |users| ==> users[i].email != users[j].email
  }

  /** The first user with the given id. */
  function FindUserById(users: seq<User>, id: Id): (r: Option<User>)
    ensures r.Some? ==> r.value in users && r.value.id == id
    ensures r.None? <==> forall u :: u in users ==> u.id != id
  {
    if users == [] then None
    else if users[0].id == id then Some(users[0])
    else
      assert users == [users[0]] + users[1..];
      FindUserById(users[1..], id)
  }

  /** The first user with the given email. */
  function FindUserByEmail(users: seq<User>, email: string): (r: Option<User>)
    ensures r.Some? ==> r.value in users && r.value.email == email
    ensures r.None? <==> forall u :: u in users ==> u.email != email
  {
    if users == [] then None
    else if users[0].email == email then Some(users[0])
    else
      assert users == [users[0]] + users[1..];
      FindUserByEmail(users[1..], email)
  }

  /** Adding a user whose email is not yet taken keeps emails unique. */
  lemma AppendKeepsEmailsUnique(users: seq<User>, u: User)
    requires UniqueEmails(users)
    requires FindUserByEmail(users, u.email).None?
    ensures UniqueEmails(users + [u])
  {
  }

  /** The in-memory users repository: a growing list of users and the counter
      that supplies fresh ids. It does not check emails itself. */
  class InMemoryUsersRepository {
    var users: seq<User>
    var nextId: Id

    ghost predicate Valid()
      reads this
    {
      UniqueIds(users) && forall u :: u in users ==> u.id < nextId
    }

    constructor ()
      ensures Valid() && users == []
    {
      users := [];
      nextId := 0;
    }

    /** Stores a user built from `data` under a fresh id and returns it. */
    method Create(data: CreateUserDTO) returns (user: User)
      requires Valid()
      modifies this
      ensures Valid()
      ensures user.name == data.name && user.email == data.email && user.password == data.password
      ensures forall u :: u in old(users) ==> u.id != user.id
      ensures users == old(users) + [user] && user in users
    {
      user := User(nextId, data.name, data.email, data.password);
      users := users + [user];
      nextId := nextId + 1;
    }

    function FindById(id: Id): Option<User>
      reads this
    {
      FindUserById(users, id)
    }

    function FindByEmail(email: string): Option<User>
      reads this
    {
      FindUserByEmail(users, email)
    }
  }
}
