/** The `password_reset_token` table: identity ids, the unique token string (`uk_token`), the
    bulk invalidation update and the lookup by token string. */
module PasswordResetTokenRepository {
  import opened Wrappers
  import opened Entities
  import opened Exceptions
  import opened Seqs

  /** Ids ascend in insertion order and token strings are distinct. */
  predicate OrderedDistinct(a: PasswordResetToken, b: PasswordResetToken) {
    a.id < b.id && a.token != b.token
  }

  predicate TokenInUse(rows: seq<PasswordResetToken>, token: string) {
    exists i :: 0 <= i < |rows| && rows[i].token == token
  }

  /** `UPDATE PasswordResetToken t SET t.used = true WHERE t.user = :user`. */
  function Invalidated(rows: seq<PasswordResetToken>, userId: int): (r: seq<PasswordResetToken>)
    ensures |r| == |rows|
    ensures forall i :: 0 <= i < |rows| ==>
              r[i] == if rows[i].userId == userId then rows[i].(used := true) else rows[i]
  {
    Map(rows, (t: PasswordResetToken) => if t.userId == userId then t.(used := true) else t)
  }

  /** The update marks every token of the user used and touches nothing else: no row appears
      or disappears, and ids, strings, owners and expiries stay as they were. */
  lemma InvalidatedMeaning(rows: seq<PasswordResetToken>, userId: int)
    ensures var r := Invalidated(rows, userId);
            && (forall i :: 0 <= i < |r| && r[i].userId == userId ==> r[i].used)
            && (forall i :: 0 <= i < |r| && r[i].userId != userId ==> r[i] == rows[i])
            && (forall i :: 0 <= i < |r| ==> r[i].id == rows[i].id && r[i].token == rows[i].token
                                             && r[i].userId == rows[i].userId && r[i].expiryDate == rows[i].expiryDate)
  {
  }

  /** Running the update twice is the same as running it once. */
  lemma InvalidatedIdempotent(rows: seq<PasswordResetToken>, userId: int)
    ensures Invalidated(Invalidated(rows, userId), userId) == Invalidated(rows, userId)
  {
  }

  /** Updates for different users commute. */
  lemma InvalidatedCommutes(rows: seq<PasswordResetToken>, u: int, v: int)
    ensures Invalidated(Invalidated(rows, u), v) == Invalidated(Invalidated(rows, v), u)
  {
  }

  /** The update keeps ids and token strings, so it keeps the table's ordering and uniqueness. */
  lemma InvalidatedKeepsOrder(rows: seq<PasswordResetToken>, userId: int)
    requires Pairwise(rows, OrderedDistinct)
    ensures Pairwise(Invalidated(rows, userId), OrderedDistinct)
  {
    var r := Invalidated(rows, userId);
    forall i, j | 0 <= i < j < |r| ensures OrderedDistinct(r[i], r[j]) {
      assert OrderedDistinct(rows[i], rows[j]);
    }
  }

  class TokenTable {
    var rows: seq<PasswordResetToken>
    var nextId: int

    ghost predicate Valid()
      reads this
    {
      Pairwise(rows, OrderedDistinct) && forall i :: 0 <= i < |rows| ==> rows[i].id < nextId
    }

    constructor ()
      ensures Valid() && rows == []
    {
      rows := [];
      nextId := 1;
    }

    /** `save` of a new token: a string already stored violates `uk_token`. */
    method Insert(t: PasswordResetToken) returns (res: Result<PasswordResetToken, Exception>)
      requires Valid()
      modifies this
      ensures Valid()
      ensures res.Ok? <==> !TokenInUse(old(rows), t.token)
      ensures res.Err? ==> res.error.DataIntegrityViolationException? && rows == old(rows) && nextId == old(nextId)
      ensures res.Ok? ==> res.value == t.(id := old(nextId)) && rows == old(rows) + [res.value]
                          && nextId == old(nextId) + 1
    {
      if TokenInUse(rows, t.token) {
        return Err(DataIntegrityViolationException("duplicate key uk_token"));
      }
      var saved := t.(id := nextId);
      rows := rows + [saved];
      nextId := nextId + 1;
      res := Ok(saved);
    }

    /** `invalidateExistingTokens`. */
    method InvalidateExistingTokens(userId: int)
      requires Valid()
      modifies this
      ensures Valid()
      ensures rows == Invalidated(old(rows), userId) && nextId == old(nextId)
    {
      InvalidatedKeepsOrder(rows, userId);
      rows := Invalidated(rows, userId);
    }

    /** `delete`: the row with this id is gone, the others keep their order. */
    method Delete(id: int)
      requires Valid()
      modifies this
      ensures Valid()
      ensures rows == Filter(old(rows), (t: PasswordResetToken) => t.id != id) && nextId == old(nextId)
    {
      var kept := Filter(rows, (t: PasswordResetToken) => t.id != id);
      FilterPairwise(rows, (t: PasswordResetToken) => t.id != id, OrderedDistinct);
      assert forall i :: 0 <= i < |kept| ==> kept[i] in rows;
      rows := kept;
    }
  }

  /** `findByToken`: the row with exactly this string, if any. */
  function FindByToken(rows: seq<PasswordResetToken>, token: string): (r: Option<PasswordResetToken>)
    ensures r.Some? ==> r.value in rows && r.value.token == token
    ensures r.None? <==> forall t :: t in rows ==> t.token != token
  {
    First(rows, (t: PasswordResetToken) => t.token == token)
  }
}
