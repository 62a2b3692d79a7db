# fin_api ledger core in Dafny

A model of the statement and balance core of the fin_api backend (NitoBa/challenge-ignite-nodejs-08).
Users are kept in an in-memory users repository. Deposits and withdrawals ("statements") are kept in an
in-memory statements repository. Five use cases work on the two repositories: create user, show user
profile, create statement, get balance and get statement operation.

The TypeScript source of the use-case classes and of the in-memory repositories is not among the files
this model follows. The model rebuilds those classes from the contract their Jest spec files fix,
written as Dafny:

- `common.dfy`: `Id`, `Option`, `Result` (a use case's returned value or thrown error).
- `users.dfy`: the `User` record, lookups by id and by email, and the `InMemoryUsersRepository` class.
  The class has a `users` sequence and an id counter; `Create` appends a user under a fresh id.
- `statements.dfy`: the `Statement` record, the user filter `OfUser`, the left-to-right fold `Total`,
  the per-user `Balance`, the lookup `FindStatement`, and the `InMemoryStatementsRepository` class.
  Lemmas relate `Total` to an independent reference (deposits minus withdrawals), to concatenation, to
  reordering and to appending.
- `create_user.dfy`, `show_user_profile.dfy`, `create_statement.dfy`, `get_balance.dfy`,
  `get_statement_operation.dfy`: one use-case class each. The class holds the repositories it is
  constructed with, in the order the spec files pass them. Write paths are methods that modify a
  repository. Read paths are functions that read the repositories. Each Jest `it` is replayed as a
  method whose `ensures` is what the test expects.

Decisions the spec files leave open:

- A withdrawal subtracts its amount from the balance and a deposit adds it.
- A withdrawal is refused only when the amount is larger than the balance. A withdrawal of the whole
  balance succeeds.
- The funds check and the email check read the whole repository. So they also see records written
  straight through the repository's `create`, as two of the tests do.
- Errors carry the names the spec files use: `CreateStatementError.UserNotFound`, `InsufficientFunds`,
  `GetStatementOperationError.UserNotFound`, `StatementNotFound`, `GetBalanceError`, `CreateUserError`,
  `ShowUserProfileError`.

## Model

| member | source | states |
|---|---|---|
| Users.FindUserById | src/modules/users/useCases/showUserProfile/ShowUserProfileUsecase.spec.ts:22-42 | finds a stored user with the requested id, and finds nothing exactly when no stored user has it |
| Users.FindUserByEmail | src/modules/users/useCases/createUser/CreateUserUsecase.spec.ts:19-31 | finds a stored user with the email, and finds nothing exactly when the email is free |
| Users.AppendKeepsEmailsUnique | src/modules/users/useCases/createUser/CreateUserUsecase.spec.ts:17-32 | adding a user whose email is free keeps emails unique in the directory |
| Users.InMemoryUsersRepository.Create | src/modules/users/useCases/createUser/CreateUserUsecase.spec.ts:19-23 | appends a user with the supplied name, email and password under an id no stored user has, without checking the email |
| CreateUser.CreateUserUseCase.Execute | src/modules/users/useCases/createUser/CreateUserUsecase.spec.ts:17-44 | fails, changing nothing, exactly when some stored user already has the email; otherwise appends and returns a user with the supplied fields and a fresh id; keeps emails unique |
| CreateUser.RejectsTakenEmail | src/modules/users/useCases/createUser/CreateUserUsecase.spec.ts:17-32 | a user written straight into the repository makes the use case refuse the same email |
| CreateUser.CreatesUser | src/modules/users/useCases/createUser/CreateUserUsecase.spec.ts:33-44 | an empty directory accepts the user and returns it |
| ShowUserProfile.ShowUserProfileUseCase.Execute | src/modules/users/useCases/showUserProfile/ShowUserProfileUsecase.spec.ts:19-43 | fails exactly when no stored user has the id; otherwise returns a stored user with that id, and with unique ids the very user stored under it |
| ShowUserProfile.RejectsUnknownUser | src/modules/users/useCases/showUserProfile/ShowUserProfileUsecase.spec.ts:19-25 | in an empty directory any id is refused |
| ShowUserProfile.ShowsStoredUser | src/modules/users/useCases/showUserProfile/ShowUserProfileUsecase.spec.ts:27-43 | the profile of a stored user has that user's id, name and email |
| Statements.OfUser | src/modules/statements/useCases/getBalance/GetBalanceUsecase.spec.ts:45 | holds exactly the stored statements that belong to the user |
| Statements.OfUserConcat | src/modules/statements/useCases/getBalance/GetBalanceUsecase.spec.ts:45 | filtering by user distributes over concatenation, so the user's list keeps the store's insertion order |
| Statements.Total | src/modules/statements/useCases/getBalance/GetBalanceUsecase.spec.ts:44 | the left-to-right fold of a history equals its deposited amounts minus its withdrawn amounts |
| Statements.Balance | src/modules/statements/useCases/createStatement/CreateStatementUsecase.spec.ts:35-52 | a user's balance is what that user deposited minus what they withdrew, over every stored statement of theirs, and 0 for a user with no statements |
| Statements.TotalConcat | src/modules/statements/useCases/getBalance/GetBalanceUsecase.spec.ts:44 | the total of two histories laid end to end is the sum of their totals |
| Statements.TotalPermutation | src/modules/statements/useCases/getBalance/GetBalanceUsecase.spec.ts:44 | any reordering of a history has the same total |
| Statements.DepositsOnlyTotal | src/modules/statements/useCases/createStatement/CreateStatementUsecase.spec.ts:89-94 | a history of deposits only totals exactly the deposited amounts |
| Statements.BalanceAfterAppend | src/modules/statements/useCases/createStatement/CreateStatementUsecase.spec.ts:89-101 | appending a statement moves its owner's balance by its signed amount and no other user's balance |
| Statements.AppendKeepsSolvent | src/modules/statements/useCases/createStatement/CreateStatementUsecase.spec.ts:35-52 | a covered withdrawal or a non-negative deposit keeps every user's balance non-negative |
| Statements.FindStatement | src/modules/statements/useCases/getStatementOperation/GetStatementOperationUsecase.spec.ts:66-77 | finds a stored statement with both the requested id and the requested owner, and finds nothing exactly when there is none |
| Statements.InMemoryStatementsRepository.Create | src/modules/statements/useCases/createStatement/CreateStatementUsecase.spec.ts:89-94 | appends a statement echoing the request under an id no stored statement has |
| CreateStatement.CreateStatementUseCase.Execute | src/modules/statements/useCases/createStatement/CreateStatementUsecase.spec.ts:21-110 | UserNotFound for an unknown user whatever the kind; InsufficientFunds for a withdrawal above the balance; otherwise success, appending the echoed statement under a fresh id; failures change nothing; success moves only the owner's balance, and by the signed amount; a successful withdrawal leaves the balance non-negative |
| CreateStatement.RejectsUnknownUser | src/modules/statements/useCases/createStatement/CreateStatementUsecase.spec.ts:21-33 | a deposit for an unknown user fails with UserNotFound |
| CreateStatement.RejectsOverdraft | src/modules/statements/useCases/createStatement/CreateStatementUsecase.spec.ts:35-52 | withdrawing 100 with no statements fails with InsufficientFunds |
| CreateStatement.CreatesDeposit | src/modules/statements/useCases/createStatement/CreateStatementUsecase.spec.ts:54-77 | a deposit of 50 succeeds and echoes user id, kind, amount and description |
| CreateStatement.CreatesWithdrawal | src/modules/statements/useCases/createStatement/CreateStatementUsecase.spec.ts:80-110 | after a deposit of 100 written straight into the repository, a withdrawal of 50 succeeds and echoes the request |
| GetBalance.GetBalanceUseCase.Execute | src/modules/statements/useCases/getBalance/GetBalanceUsecase.spec.ts:20-46 | fails exactly for an unknown user; otherwise returns that user's statements in insertion order and that user's balance in the store, which is deposits minus withdrawals, and the empty list with 0 for a user without statements |
| GetBalance.RejectsUnknownUser | src/modules/statements/useCases/getBalance/GetBalanceUsecase.spec.ts:20-29 | an unknown user is refused |
| GetBalance.NewUserHasZeroBalance | src/modules/statements/useCases/getBalance/GetBalanceUsecase.spec.ts:31-46 | a new user of a fresh store has balance 0 and no statements |
| GetStatementOperation.GetStatementOperationUseCase.Execute | src/modules/statements/useCases/getStatementOperation/GetStatementOperationUsecase.spec.ts:21-78 | UserNotFound exactly for an unknown user, checked before the statement; StatementNotFound exactly when the known user owns no statement with the id; otherwise a stored statement with that id and owner, the one stored under the id when ids are unique |
| GetStatementOperation.RejectsUnknownUser | src/modules/statements/useCases/getStatementOperation/GetStatementOperationUsecase.spec.ts:21-30 | an unknown user gets UserNotFound although the statement id is unknown too |
| GetStatementOperation.RejectsUnknownStatement | src/modules/statements/useCases/getStatementOperation/GetStatementOperationUsecase.spec.ts:33-48 | a known user asking for an unknown statement gets StatementNotFound |
| GetStatementOperation.ReturnsStoredStatement | src/modules/statements/useCases/getStatementOperation/GetStatementOperationUsecase.spec.ts:50-78 | a statement written into the repository comes back unchanged |

## Left out

- User authentication (src/modules/users/useCases/authenticateUser/AuthenticateUserUseCase.spec.ts) is left out. It rests on bcrypt and JWT signing, which are foreign library calls.
- Password hashing in user creation is left out. The password is stored as supplied, as an opaque string.
- Ids are random uuid strings in the source. Here they are natural numbers drawn from a counter in each repository. The model only relies on a new id differing from every stored one.
- Promises, async rejection and the Jest matchers are left out. A thrown error is a `Failure` value.
- Amounts are TypeScript numbers (floating point) in the source. Here they are unbounded integers.
- No amount validation is modelled. The spec files never send a non-positive amount, so an `InvalidAmount` error is not modelled; any integer amount is accepted, as the repositories accept it.
- Transfer kinds, creation timestamps and persistence failures are left out. None of them appears in the spec files.
- Per-user locking and concurrent requests are left out. Every use case runs to completion before the next starts.
- The repositories' own lookups and balance query (`FindById`, `FindByEmail`, `FindStatementOperation`, `GetUserBalance`) are thin wrappers over `FindUserById`, `FindUserByEmail`, `FindStatement`, `OfUser` and `Total`, and carry no contract of their own.
