/**
 * The user use cases under src/application/use-cases/user/: CreateUser,
 * LoginUser, UpdateUser, UpdateTelephone, UpdatePasswordUser and
 * DeleteUser. bcrypt's `hash`/`compare` and the token's `sign` are
 * function parameters.
 */
module UserUseCases {
  import opened Nullable
  import opened Either
  import opened Errors
  import JsArray
  import opened UserEntity
  import opened UserRepository

  /** What LoginUser signs: the user's id, admin flag and e-mail. */
  datatype Claims = Claims(id: Option<int>, isAdmin: bool, email: string)

  const EmailInUseMessage := "Esse email já está em uso"
  const CpfInUseMessage := "Esse cpf já está em uso"
  const TelephoneInUseMessage := "Esse telefone já está em uso"
  const TelephoneTakenMessage := "Esse número de telefone já está em uso"
  const WrongEmailMessage := "Email incorreto"
  const WrongPasswordMessage := "Senha incorreta"

  function NoUserMessage(id: int): string {
    "Nenhum usuário encontrado com o ID: " + DecimalText(id)
  }

  /**
   * The uniqueness chain of CreateUser: e-mail, then cpf, then telephone;
   * the first field already stored gives its Conflict.
   */
  function CreateUserConflict(users: InMemoryUserRepository, email: string, cpf: string, telephone: string)
    : (r: Option<Error>)
    reads users
    ensures r.Some? ==> r.value.Conflict?
    ensures r.None? <==> forall u :: u in users.users ==> u.email != email && u.cpf != cpf && u.telephone != telephone
  {
    if users.FindByEmail(email).Some? then Some(Conflict(EmailInUseMessage))
    else if users.FindByCpf(cpf).Some? then Some(Conflict(CpfInUseMessage))
    else if users.FindByTelephone(telephone).Some? then Some(Conflict(TelephoneInUseMessage))
    else None
  }

  /**
   * Which Conflict CreateUser reports: the e-mail one whenever the e-mail
   * is taken, the cpf one only for a free e-mail, the telephone one only
   * for a free e-mail and cpf.
   */
  lemma CreateUserConflictOrder(users: InMemoryUserRepository, email: string, cpf: string, telephone: string)
    ensures var r := CreateUserConflict(users, email, cpf, telephone);
      && ((exists u :: u in users.users && u.email == email) <==> r == Some(Conflict(EmailInUseMessage)))
      && ((forall u :: u in users.users ==> u.email != email) ==>
            ((exists u :: u in users.users && u.cpf == cpf) <==> r == Some(Conflict(CpfInUseMessage))))
      && ((forall u :: u in users.users ==> u.email != email && u.cpf != cpf) ==>
            ((exists u :: u in users.users && u.telephone == telephone) <==> r == Some(Conflict(TelephoneInUseMessage))))
  {
    var r := CreateUserConflict(users, email, cpf, telephone);
    if r == Some(Conflict(EmailInUseMessage)) {
      assert users.FindByEmail(email).Some?;
    }
    if r == Some(Conflict(CpfInUseMessage)) {
      assert users.FindByCpf(cpf).Some?;
    }
  }

  /**
   * `CreateUser.execute`: a Conflict stores nothing; otherwise exactly one
   * user is appended, with a store-given id, the given fields, the hash of
   * the given password and no admin flag, and it is returned.
   */
  method CreateUser(users: InMemoryUserRepository, hash: string -> string,
                    name: string, email: string, password: string, cpf: string, telephone: string)
    returns (r: Either<Error, User>)
    modifies users
    ensures var conflict := old(CreateUserConflict(users, email, cpf, telephone));
      && (conflict.Some? ==> r == Failure(conflict.value) && users.users == old(users.users))
      && (conflict.None? ==>
            && r.Success?
            && r.value == User(r.value.id, name, email, hash(password), cpf, telephone, false)
            && r.value.id.Some? && 0 <= r.value.id.value <= 1000
            && users.users == old(users.users) + [r.value])
  {
    var conflict := CreateUserConflict(users, email, cpf, telephone);
    if conflict.Some? {
      return Failure(conflict.value);
    }
    var passwordHashed := hash(password);
    var userCreated := User(None, name, email, passwordHashed, cpf, telephone, false);
    var user := users.Create(userCreated);
    r := Success(user);
  }

  /**
   * `LoginUser.execute`: NotFound when no user has the e-mail, Unauthorized
   * when `compare` rejects the password against the first such user's stored
   * hash, otherwise the signed claims of that user.
   */
  function LoginUser(users: InMemoryUserRepository, compare: (string, string) -> bool, sign: Claims -> string,
                     email: string, password: string)
    : Either<Error, string>
    reads users
  {
    match users.FindByEmail(email)
    case None => Failure(NotFound(WrongEmailMessage))
    case Some(user) =>
      if !compare(password, user.password) then Failure(Unauthorized(WrongPasswordMessage))
      else Success(sign(Claims(user.id, user.isAdmin, user.email)))
  }

  /**
   * The outcome of LoginUser in full: the e-mail check comes first, the
   * password is compared with the stored hash of the first user holding
   * that e-mail, and a token is issued only when both pass.
   */
  lemma LoginUserOutcomes(users: InMemoryUserRepository, compare: (string, string) -> bool, sign: Claims -> string,
                          email: string, password: string)
    ensures var r := LoginUser(users, compare, sign, email, password);
      var k := JsArray.IndexOf(JsArray.Keys(users.users, (u: User) => u.email), email);
      && ((forall u :: u in users.users ==> u.email != email) <==> r == Failure(NotFound(WrongEmailMessage)))
      && ((exists u :: u in users.users && u.email == email) ==>
            && 0 <= k < |users.users|
            && users.users[k].email == email
            && (forall j :: 0 <= j < k ==> users.users[j].email != email)
            && (!compare(password, users.users[k].password) <==> r == Failure(Unauthorized(WrongPasswordMessage)))
            && (compare(password, users.users[k].password) ==>
                  r == Success(sign(Claims(users.users[k].id, users.users[k].isAdmin, email)))))
  {
    var r := LoginUser(users, compare, sign, email, password);
    if r == Failure(NotFound(WrongEmailMessage)) {
      assert users.FindByEmail(email).None?;
    }
  }

  /**
   * `UpdateUser.execute`: NotFound for an absent id, with nothing changed;
   * otherwise the first user with that id gets the new name, nothing else
   * changes, and the updated user is returned.
   */
  method UpdateUser(users: InMemoryUserRepository, id: int, name: string) returns (r: Either<Error, User>)
    modifies users
    ensures old(users.IndexOfId(id)) == -1 ==>
      r == Failure(NotFound(NoUserMessage(id))) && users.users == old(users.users)
    ensures old(users.IndexOfId(id)) >= 0 ==>
      var k := old(users.IndexOfId(id));
      && users.users == old(users.users)[k := old(users.users)[k].(name := name)]
      && r == Success(users.users[k])
  {
    var userExists := users.FindById(id);
    if userExists.None? {
      return Failure(NotFound(NoUserMessage(id)));
    }
    var user := users.Update(id, name);
    r := Success(user.value);
  }

  /**
   * The telephone rule of UpdateTelephone: a Conflict exactly when some
   * stored user already has the new telephone and the caller's own current
   * telephone is a different one.
   */
  predicate TelephoneConflict(users: InMemoryUserRepository, current: User, telephone: string)
    reads users
  {
    match users.FindByTelephone(telephone)
    case None => false
    case Some(holder) => current.telephone != holder.telephone
  }

  lemma TelephoneConflictIff(users: InMemoryUserRepository, current: User, telephone: string)
    ensures TelephoneConflict(users, current, telephone) <==>
      (exists u :: u in users.users && u.telephone == telephone) && current.telephone != telephone
  {
    if exists u :: u in users.users && u.telephone == telephone {
      assert users.FindByTelephone(telephone).Some?;
    }
  }

  /** Keeping one's own telephone never conflicts, whoever else holds it. */
  lemma KeepingOwnTelephoneNeverConflicts(users: InMemoryUserRepository, current: User)
    ensures !TelephoneConflict(users, current, current.telephone)
  {
  }

  /**
   * `UpdateTelephone.execute`: NotFound for an absent id; Conflict under
   * TelephoneConflict; both leave the store unchanged. Otherwise only that
   * user's telephone changes and the updated user is returned.
   */
  method UpdateTelephone(users: InMemoryUserRepository, id: int, telephone: string) returns (r: Either<Error, User>)
    modifies users
    ensures old(users.IndexOfId(id)) == -1 ==>
      r == Failure(NotFound(NoUserMessage(id))) && users.users == old(users.users)
    ensures old(users.IndexOfId(id)) >= 0 ==>
      var k := old(users.IndexOfId(id));
      && (old(TelephoneConflict(users, users.users[k], telephone)) ==>
            r == Failure(Conflict(TelephoneTakenMessage)) && users.users == old(users.users))
      && (!old(TelephoneConflict(users, users.users[k], telephone)) ==>
            && users.users == old(users.users)[k := old(users.users)[k].(telephone := telephone)]
            && r == Success(users.users[k]))
  {
    var userExists := users.FindById(id);
    if userExists.None? {
      return Failure(NotFound(NoUserMessage(id)));
    }
    if TelephoneConflict(users, userExists.value, telephone) {
      return Failure(Conflict(TelephoneTakenMessage));
    }
    var user := users.UpdateTelephone(id, telephone);
    r := Success(user.value);
  }

  /**
   * `UpdatePasswordUser.execute`: NotFound for an absent id, with nothing
   * changed; otherwise only that user's password becomes the hash of the
   * given one, and the updated user is returned.
   */
  method UpdatePasswordUser(users: InMemoryUserRepository, hash: string -> string, id: int, password: string)
    returns (r: Either<Error, User>)
    modifies users
    ensures old(users.IndexOfId(id)) == -1 ==>
      r == Failure(NotFound(NoUserMessage(id))) && users.users == old(users.users)
    ensures old(users.IndexOfId(id)) >= 0 ==>
      var k := old(users.IndexOfId(id));
      && users.users == old(users.users)[k := old(users.users)[k].(password := hash(password))]
      && r == Success(users.users[k])
  {
    var userExists := users.FindById(id);
    if userExists.None? {
      return Failure(NotFound(NoUserMessage(id)));
    }
    var passwordHashed := hash(password);
    var user := users.UpdatePasswordUser(id, passwordHashed);
    r := Success(user.value);
  }

  /**
   * `DeleteUser.execute`: NotFound for an absent id, with nothing changed;
   * otherwise exactly the first user with that id is removed, the rest keep
   * their order, and the removed user is returned.
   */
  method DeleteUser(users: InMemoryUserRepository, id: int) returns (r: Either<Error, User>)
    modifies users
    ensures old(users.IndexOfId(id)) == -1 ==>
      r == Failure(NotFound(NoUserMessage(id))) && users.users == old(users.users)
    ensures old(users.IndexOfId(id)) >= 0 ==>
      var k := old(users.IndexOfId(id));
      && r == Success(old(users.users)[k])
      && r.value.id == Some(id)
      && users.users == old(users.users)[..k] + old(users.users)[k + 1..]
  {
    var userExists := users.FindById(id);
    if userExists.None? {
      return Failure(NotFound(NoUserMessage(id)));
    }
    var user := users.Delete(id);
    r := Success(user.value);
  }
}
