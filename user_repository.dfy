/** The `users` table: bean validation of `User`, the unique e-mail column and the lookups
    `UserRepository` offers. */
module UserRepository {
  import opened Wrappers
  import opened Entities
  import opened Exceptions
  import opened Seqs
  import opened Text

  /** `@NotBlank` on e-mail, password and phone number. */
  predicate UserValid(u: User) {
    && NotBlank(u.email)
    && NotBlank(u.password)
    && u.phoneNumber.Some? && NotBlank(u.phoneNumber.value)
  }

  /** Ids ascend in insertion order and e-mails are distinct, between each row and every later one. */
  predicate OrderedDistinct(a: User, b: User) {
    a.id < b.id && a.email != b.email
  }

  /** Some row other than `id` already uses the e-mail. */
  predicate EmailTaken(rows: seq<User>, email: string, id: int) {
    exists i :: 0 <= i < |rows| && rows[i].id != id && rows[i].email == email
  }

  predicate EmailInUse(rows: seq<User>, email: string) {
    exists i :: 0 <= i < |rows| && rows[i].email == email
  }

  function ReplaceUser(rows: seq<User>, u: User): (res: seq<User>)
    ensures |res| == |rows|
    ensures forall i :: 0 <= i < |rows| ==> res[i] == if rows[i].id == u.id then u else rows[i]
  {
    seq(|rows|, i requires 0 <= i < |rows| => if rows[i].id == u.id then u else rows[i])
  }

  class UserTable {
    var rows: seq<User>
    var nextId: int

    ghost predicate Valid()
      reads this
    {
      && Pairwise(rows, OrderedDistinct)
      && (forall i :: 0 <= i < |rows| ==> rows[i].id < nextId && UserValid(rows[i]))
    }

    constructor ()
      ensures Valid() && rows == []
    {
      rows := [];
      nextId := 1;
    }

    /** `save` of a new user: bean validation, then the unique e-mail, then the insert. */
    method Insert(u: User) returns (res: Result<User, Exception>)
      requires Valid()
      modifies this
      ensures Valid()
      ensures res.Ok? <==> UserValid(u) && !EmailInUse(old(rows), u.email)
      ensures !UserValid(u) ==> res.Err? && res.error.ConstraintViolationException?
      ensures UserValid(u) && EmailInUse(old(rows), u.email) ==> res.Err? && res.error.DataIntegrityViolationException?
      ensures res.Ok? ==> res.value == u.(id := old(nextId)) && rows == old(rows) + [res.value]
                          && nextId == old(nextId) + 1
      ensures res.Err? ==> rows == old(rows) && nextId == old(nextId)
    {
      if !UserValid(u) {
        return Err(ConstraintViolationException("Validation failed for user"));
      }
      if EmailInUse(rows, u.email) {
        return Err(DataIntegrityViolationException("duplicate email"));
      }
      var saved := u.(id := nextId);
      rows := rows + [saved];
      nextId := nextId + 1;
      res := Ok(saved);
    }

    /** `save` of an existing user: the same checks against the other rows, then the row takes
        the new values. */
    method Update(u: User) returns (res: Result<User, Exception>)
      requires Valid()
      modifies this
      ensures Valid()
      ensures res.Ok? <==> UserValid(u) && !EmailTaken(old(rows), u.email, u.id)
      ensures !UserValid(u) ==> res.Err? && res.error.ConstraintViolationException?
      ensures UserValid(u) && EmailTaken(old(rows), u.email, u.id) ==> res.Err? && res.error.DataIntegrityViolationException?
      ensures res.Ok? ==> res.value == u && rows == ReplaceUser(old(rows), u)
      ensures res.Err? ==> rows == old(rows)
      ensures nextId == old(nextId)
    {
      if !UserValid(u) {
        return Err(ConstraintViolationException("Validation failed for user"));
      }
      if EmailTaken(rows, u.email, u.id) {
        return Err(DataIntegrityViolationException("duplicate email"));
      }
      var old_rows := rows;
      rows := ReplaceUser(rows, u);
      forall i, j | 0 <= i < j < |rows| ensures OrderedDistinct(rows[i], rows[j]) {
        if old_rows[i].id == u.id {
          assert old_rows[j].id != u.id;
        } else if old_rows[j].id == u.id {
          assert old_rows[i].id != u.id;
        }
      }
      res := Ok(u);
    }

    /** `delete`: the row with this id is gone, the others keep their order. */
    method Delete(id: int)
      requires Valid()
      modifies this
      ensures Valid()
      ensures rows == Filter(old(rows), (x: User) => x.id != id) && nextId == old(nextId)
    {
      var kept := Filter(rows, (x: User) => x.id != id);
      FilterPairwise(rows, (x: User) => x.id != id, OrderedDistinct);
      assert forall i :: 0 <= i < |kept| ==> kept[i] in rows;
      rows := kept;
    }
  }

  /** `findByEmail`. */
  function FindByEmail(rows: seq<User>, email: string): (r: Option<User>)
    ensures r.Some? ==> r.value in rows && r.value.email == email
    ensures r.None? <==> forall u :: u in rows ==> u.email != email
  {
    First(rows, (u: User) => u.email == email)
  }

  /** `findById`. */
  function FindUserById(rows: seq<User>, id: int): (r: Option<User>)
    ensures r.Some? ==> r.value in rows && r.value.id == id
    ensures r.None? <==> forall u :: u in rows ==> u.id != id
  {
    First(rows, (u: User) => u.id == id)
  }

  /** With distinct e-mails, the lookup finds the one row that has it. */
  lemma FindByEmailUnique(rows: seq<User>, u: User)
    requires Pairwise(rows, OrderedDistinct) && u in rows
    ensures FindByEmail(rows, u.email) == Some(u)
  {
    var r := FindByEmail(rows, u.email).value;
    var i :| 0 <= i < |rows| && rows[i] == u;
    var j :| 0 <= j < |rows| && rows[j] == r;
    assert forall a, b :: 0 <= a < b < |rows| ==> rows[a].email != rows[b].email;
  }

  /** A row's own e-mail is taken by no other row. */
  lemma OwnEmailNotTaken(rows: seq<User>, u: User)
    requires Pairwise(rows, OrderedDistinct) && u in rows
    ensures !EmailTaken(rows, u.email, u.id)
  {
    var i :| 0 <= i < |rows| && rows[i] == u;
    forall j | 0 <= j < |rows| && rows[j].id != u.id ensures rows[j].email != u.email {
      if j < i { assert OrderedDistinct(rows[j], rows[i]); }
      else { assert OrderedDistinct(rows[i], rows[j]); }
    }
  }
}
