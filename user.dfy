/**
 * The User record as the user store and the user use cases handle it:
 * id, name, e-mail, password (stored hashed), cpf, telephone and the admin
 * flag. src/core/entities/user.ts is not part of this model (its fields and
 * constructors do not match what its callers pass).
 */
module UserEntity {
  import opened Nullable

  datatype User = User(id: Option<int>, name: string, email: string, password: string,
                       cpf: string, telephone: string, isAdmin: bool)
}
