/**
 * The in-memory user store
 * (src/infra/repositories/in-memory/in-memory-user-repository.ts): a list
 * that grows by `push`, shrinks by `splice`, and whose elements have single
 * fields overwritten in place.
 */
module UserRepository {
  import opened Nullable
  import JsArray
  import opened UserEntity

  class InMemoryUserRepository {
    var users: seq<User>

    constructor()
      ensures users == []
    {
      users := [];
    }

    /** `findAll`: the stored list itself, in insertion order (see `Create`). */
    function FindAll(): (r: seq<User>)
      reads this
      ensures r == users
    {
      users
    }

    /** Position of the first user with that id, -1 when none has it (`findIndex`). */
    function IndexOfId(id: int): (k: int)
      reads this
      ensures -1 <= k < |users|
      ensures k == -1 <==> forall u :: u in users ==> u.id != Some(id)
      ensures 0 <= k ==> users[k].id == Some(id) && forall j :: 0 <= j < k ==> users[j].id != Some(id)
    {
      JsArray.IndexOf(JsArray.Keys(users, (u: User) => u.id), Some(id))
    }

    /** `findById`: the first user with that id, or null when none has it. */
    function FindById(id: int): (r: Option<User>)
      reads this
      ensures r.None? <==> forall u :: u in users ==> u.id != Some(id)
      ensures r.Some? ==> 0 <= IndexOfId(id) && r.value == users[IndexOfId(id)]
    {
      JsArray.Find(users, JsArray.Keys(users, (u: User) => u.id), Some(id))
    }

    /** `findByEmail`: the first user with that e-mail, or null when none has it. */
    function FindByEmail(email: string): (r: Option<User>)
      reads this
      ensures r.None? <==> forall u :: u in users ==> u.email != email
      ensures r.Some? ==>
        var k := JsArray.IndexOf(JsArray.Keys(users, (u: User) => u.email), email);
        0 <= k < |users| && r.value == users[k] && r.value.email == email &&
        forall j :: 0 <= j < k ==> users[j].email != email
    {
      JsArray.Find(users, JsArray.Keys(users, (u: User) => u.email), email)
    }

    /** `findByCpf`: the first user with that cpf, or null when none has it. */
    function FindByCpf(cpf: string): (r: Option<User>)
      reads this
      ensures r.None? <==> forall u :: u in users ==> u.cpf != cpf
      ensures r.Some? ==>
        var k := JsArray.IndexOf(JsArray.Keys(users, (u: User) => u.cpf), cpf);
        0 <= k < |users| && r.value == users[k] && r.value.cpf == cpf &&
        forall j :: 0 <= j < k ==> users[j].cpf != cpf
    {
      JsArray.Find(users, JsArray.Keys(users, (u: User) => u.cpf), cpf)
    }

    /** `findByTelephone`: the first user with that telephone, or null when none has it. */
    function FindByTelephone(telephone: string): (r: Option<User>)
      reads this
      ensures r.None? <==> forall u :: u in users ==> u.telephone != telephone
      ensures r.Some? ==>
        var k := JsArray.IndexOf(JsArray.Keys(users, (u: User) => u.telephone), telephone);
        0 <= k < |users| && r.value == users[k] && r.value.telephone == telephone &&
        forall j :: 0 <= j < k ==> users[j].telephone != telephone
    {
      JsArray.Find(users, JsArray.Keys(users, (u: User) => u.telephone), telephone)
    }

    /** `create`: gives the user a random id in 0 .. 1000 (not necessarily unique) and appends it. */
    method Create(user: User) returns (r: User)
      modifies this
      ensures r.id.Some? && 0 <= r.id.value <= 1000
      ensures r == user.(id := r.id)
      ensures users == old(users) + [r]
      ensures FindAll() == old(FindAll()) + [r]
    {
      var n :| 0 <= n <= 1000;
      r := user.(id := Some(n));
      users := users + [r];
    }

    /**
     * `update(id, name)`: overwrites the name of the first user with that
     * id and returns that user. For an absent id findIndex gives -1,
     * `users[-1]` is undefined and the assignment throws.
     */
    method Update(id: int, name: string) returns (r: JsArray.Completion<User>)
      modifies this
      ensures old(IndexOfId(id)) == -1 ==> r == JsArray.TypeError && users == old(users)
      ensures old(IndexOfId(id)) >= 0 ==>
        var k := old(IndexOfId(id));
        users == old(users)[k := old(users)[k].(name := name)] && r == JsArray.Normal(users[k])
    {
      var k := IndexOfId(id);
      if k == -1 {
        r := JsArray.TypeError;
        return;
      }
      users := users[k := users[k].(name := name)];
      r := JsArray.Normal(users[k]);
    }

    /** `updateTelephone(id, telephone)`: as `update`, for the telephone field. */
    method UpdateTelephone(id: int, telephone: string) returns (r: JsArray.Completion<User>)
      modifies this
      ensures old(IndexOfId(id)) == -1 ==> r == JsArray.TypeError && users == old(users)
      ensures old(IndexOfId(id)) >= 0 ==>
        var k := old(IndexOfId(id));
        users == old(users)[k := old(users)[k].(telephone := telephone)] && r == JsArray.Normal(users[k])
    {
      var k := IndexOfId(id);
      if k == -1 {
        r := JsArray.TypeError;
        return;
      }
      users := users[k := users[k].(telephone := telephone)];
      r := JsArray.Normal(users[k]);
    }

    /** `updatePasswordUser(id, password)`: as `update`, for the password field. */
    method UpdatePasswordUser(id: int, password: string) returns (r: JsArray.Completion<User>)
      modifies this
      ensures old(IndexOfId(id)) == -1 ==> r == JsArray.TypeError && users == old(users)
      ensures old(IndexOfId(id)) >= 0 ==>
        var k := old(IndexOfId(id));
        users == old(users)[k := old(users)[k].(password := password)] && r == JsArray.Normal(users[k])
    {
      var k := IndexOfId(id);
      if k == -1 {
        r := JsArray.TypeError;
        return;
      }
      users := users[k := users[k].(password := password)];
      r := JsArray.Normal(users[k]);
    }

    /**
     * `delete`: `splice(findIndex(id), 1)`. A present id loses its first
     * match; an absent id makes findIndex -1, so the LAST user goes and
     * undefined is returned.
     */
    method Delete(id: int) returns (r: Option<User>)
      modifies this
      ensures old(IndexOfId(id)) >= 0 ==>
        var k := old(IndexOfId(id));
        r == Some(old(users)[k]) && users == old(users)[..k] + old(users)[k + 1..]
      ensures old(IndexOfId(id)) == -1 ==>
        r == None && users == if old(users) == [] then [] else old(users)[..|old(users)| - 1]
    {
      var ids := JsArray.Keys(users, (u: User) => u.id);
      var k := JsArray.IndexOf(ids, Some(id));
      r := JsArray.At(users, k);
      if Some(id) in ids {
        JsArray.SpliceAtFirstMatch(users, ids, Some(id));
      } else {
        JsArray.SpliceWhenNoMatch(users, ids, Some(id));
      }
      users := JsArray.Splice1(users, k);
    }
  }
}
