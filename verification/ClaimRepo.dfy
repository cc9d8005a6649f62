/** The `claims` table: guarded updates and the one-active-claim index. */
module ClaimRepo {
  import opened Wrappers
  import opened ClaimChain

  type ClaimId = nat

  datatype Status = Prepared | Submitting | Paid | Failed | Expired | Settled | Rejected

  datatype Claim = Claim(
    id: ClaimId, userId: string, marketId: string, amount: string, status: Status,
    settlementTx: Option<string>, claimNonce: Option<nat>, expectedTxHash: Option<string>,
    prepared: Option<TxBody>, expiresAt: Option<int>, errorCode: Option<string>)

  datatype NewClaim = NewClaim(
    userId: string, marketId: string, amount: string, claimNonce: nat,
    expectedTxHash: string, prepared: TxBody, expiresAt: int)

  datatype Patch = Patch(settlementTx: Option<string>, errorCode: Option<string>, notExpiredAt: Option<int>)

  const NO_PATCH := Patch(None, None, None)

  type Table = map<ClaimId, Claim>

  /** The statuses covered by the partial unique index. */
  predicate Indexed(s: Status) { s.Prepared? || s.Submitting? || s.Paid? }

  /** The statuses `findActiveClaim` looks for. */
  predicate Active(s: Status) { Indexed(s) || s.Settled? }

  predicate SameKey(c: Claim, d: Claim) { c.userId == d.userId && c.marketId == d.marketId }

  ghost predicate OneActivePerKey(t: Table) {
    forall i, j :: i in t && j in t && i != j && SameKey(t[i], t[j]) && Indexed(t[i].status) ==> !Indexed(t[j].status)
  }

  ghost predicate WellKeyed(t: Table) { forall i :: i in t ==> t[i].id == i }

  /** Everything about a claim that no step may change. */
  predicate SameTerms(c: Claim, d: Claim) {
    && c.id == d.id && SameKey(c, d) && c.amount == d.amount && c.claimNonce == d.claimNonce
    && c.expectedTxHash == d.expectedTxHash && c.prepared == d.prepared && c.expiresAt == d.expiresAt
  }

  function PreparedRow(id: ClaimId, input: NewClaim): (c: Claim) {
    Claim(id, input.userId, input.marketId, input.amount, Prepared, None, Some(input.claimNonce),
          Some(input.expectedTxHash), Some(input.prepared), Some(input.expiresAt), None)
  }

  predicate Conflicts(t: Table, userId: string, marketId: string) {
    exists i :: i in t && t[i].userId == userId && t[i].marketId == marketId && Indexed(t[i].status)
  }

  /** The WHERE clause of `transition`. */
  predicate Matches(t: Table, id: ClaimId, from: Status, patch: Patch) {
    && id in t && t[id].status == from
    && (patch.notExpiredAt.Some? ==> t[id].expiresAt.Some? && t[id].expiresAt.value > patch.notExpiredAt.value)
  }

  /** The row `transition` writes. */
  function Patched(c: Claim, to: Status, patch: Patch): (r: Claim) {
    c.(status := to,
       settlementTx := if patch.settlementTx.Some? then patch.settlementTx else c.settlementTx,
       errorCode := if patch.errorCode.Some? then patch.errorCode else c.errorCode)
  }

  /** `UPDATE ... WHERE id AND status = from`. */
  function AfterTransition(t: Table, id: ClaimId, from: Status, to: Status, patch: Patch): (t': Table) {
    if Matches(t, id, from, patch) then t[id := Patched(t[id], to, patch)] else t
  }

  datatype DbError = UniqueViolation

  /** Giving row `id` status `to` would put two claims of one user and market under the index. */
  predicate Violates(t: Table, id: ClaimId, to: Status)
    requires id in t
  {
    Indexed(to) && exists j :: j in t && j != id && SameKey(t[j], t[id]) && Indexed(t[j].status)
  }

  /** A row `findActiveClaim` may return: the query has LIMIT 1 and no order. */
  ghost predicate MayFind(t: Table, userId: string, marketId: string, found: Option<ClaimId>) {
    match found
    case Some(id) => id in t && t[id].userId == userId && t[id].marketId == marketId && Active(t[id].status)
    case None => forall i :: i in t && t[i].userId == userId && t[i].marketId == marketId ==> !Active(t[i].status)
  }

  predicate ConsumedNonce(t: Table, userId: string, marketId: string) {
    exists i :: i in t && t[i].userId == userId && t[i].marketId == marketId &&
      (t[i].status.Paid? || t[i].status.Settled?)
  }

  /** Guarded writes keep the index, as long as they never make an unindexed row indexed. */
  lemma TransitionKeepsIndex(t: Table, id: ClaimId, from: Status, to: Status, patch: Patch)
    requires OneActivePerKey(t) && WellKeyed(t)
    requires Indexed(to) ==> Indexed(from)
    ensures OneActivePerKey(AfterTransition(t, id, from, to, patch))
    ensures WellKeyed(AfterTransition(t, id, from, to, patch))
  {
  }

  /** So do unguarded writes of a status outside the index. */
  lemma OffIndexKeepsIndex(t: Table, id: ClaimId, to: Status)
    requires OneActivePerKey(t) && WellKeyed(t) && id in t && !Indexed(to)
    ensures OneActivePerKey(t[id := t[id].(status := to)]) && WellKeyed(t[id := t[id].(status := to)])
  {
  }

  lemma InsertKeepsIndex(t: Table, id: ClaimId, input: NewClaim)
    requires OneActivePerKey(t) && WellKeyed(t) && id !in t
    requires !Conflicts(t, input.userId, input.marketId)
    ensures OneActivePerKey(t[id := PreparedRow(id, input)]) && WellKeyed(t[id := PreparedRow(id, input)])
  {
  }

  /** The repository object. Row ids come from the database's uuid generator. */
  class ClaimTable {
    var rows: Table

    ghost predicate Valid()
      reads this
    {
      WellKeyed(rows) && OneActivePerKey(rows)
    }

    constructor ()
      ensures Valid() && rows == map[]
    {
      rows := map[];
    }

    /** Null exactly when the index already covers a claim of this user and market. */
    method InsertPrepared(id: ClaimId, input: NewClaim) returns (r: Option<Claim>)
      requires Valid() && id !in rows
      modifies this
      ensures Valid()
      ensures r.None? <==> Conflicts(old(rows), input.userId, input.marketId)
      ensures r.None? <==>
              exists i :: i in old(rows) && old(rows)[i].userId == input.userId &&
                          old(rows)[i].marketId == input.marketId && old(rows)[i].status in {Prepared, Submitting, Paid}
      ensures r.None? ==> rows == old(rows)
      ensures r.Some? ==> r.value == PreparedRow(id, input) && rows == old(rows)[id := r.value]
      ensures r.Some? ==>
                && r.value.id == id && r.value.userId == input.userId && r.value.marketId == input.marketId
                && r.value.amount == input.amount && r.value.claimNonce == Some(input.claimNonce)
                && r.value.expectedTxHash == Some(input.expectedTxHash) && r.value.prepared == Some(input.prepared)
                && r.value.expiresAt == Some(input.expiresAt) && r.value.status == Prepared
                && r.value.settlementTx == None && r.value.errorCode == None
    {
      if Conflicts(rows, input.userId, input.marketId) {
        return None;
      }
      InsertKeepsIndex(rows, id, input);
      rows := rows[id := PreparedRow(id, input)];
      r := Some(rows[id]);
    }

    /**
     * At most one caller can win a given `from -> to`; the loser sees null and changes nothing.
     * A write that would break the index raises and changes nothing.
     */
    method Transition(id: ClaimId, from: Status, to: Status, patch: Patch) returns (r: Result<Option<Claim>, DbError>)
      requires Valid()
      modifies this
      ensures Valid()
      ensures r.Failure? <==> Matches(old(rows), id, from, patch) && Violates(old(rows), id, to)
      ensures r.Failure? ==> rows == old(rows)
      ensures r.Success? ==> rows == AfterTransition(old(rows), id, from, to, patch)
      ensures r.Success? ==> (r.value.Some? <==> Matches(old(rows), id, from, patch))
      ensures r.Success? && r.value.Some? ==> r.value.value == rows[id] && SameTerms(rows[id], old(rows)[id])
      ensures r.Success? ==> (r.value.Some? <==>
                && id in old(rows) && old(rows)[id].status == from
                && (patch.notExpiredAt.Some? ==>
                      old(rows)[id].expiresAt.Some? && old(rows)[id].expiresAt.value > patch.notExpiredAt.value))
      ensures r.Success? && r.value.Some? ==>
                && rows == old(rows)[id := rows[id]] && rows[id].status == to
                && rows[id].settlementTx ==
                     (if patch.settlementTx.Some? then patch.settlementTx else old(rows)[id].settlementTx)
                && rows[id].errorCode == (if patch.errorCode.Some? then patch.errorCode else old(rows)[id].errorCode)
      ensures Indexed(from) ==> r.Success?
    {
      if !Matches(rows, id, from, patch) {
        r := Success(None);
      } else if Violates(rows, id, to) {
        r := Failure(UniqueViolation);
      } else {
        rows := rows[id := Patched(rows[id], to, patch)];
        r := Success(Some(rows[id]));
      }
    }

    /** Any one of the rows that `LIMIT 1` may pick. */
    method FindActiveClaim(userId: string, marketId: string) returns (r: Option<Claim>)
      requires Valid()
      ensures MayFind(rows, userId, marketId, if r.Some? then Some(r.value.id) else None)
      ensures r.Some? ==> r.value.id in rows && r.value == rows[r.value.id]
      ensures r.Some? ==>
                && r.value.userId == userId && r.value.marketId == marketId
                && r.value.status in {Prepared, Submitting, Paid, Settled}
      ensures r.None? ==> forall i :: i in rows && rows[i].userId == userId && rows[i].marketId == marketId ==>
                rows[i].status in {Failed, Expired, Rejected}
    {
      if i :| i in rows && rows[i].userId == userId && rows[i].marketId == marketId && Active(rows[i].status) {
        return Some(rows[i]);
      }
      r := None;
    }

    method HasConsumedNonce(userId: string, marketId: string) returns (b: bool)
      ensures b <==> ConsumedNonce(rows, userId, marketId)
      ensures b <==> exists i :: i in rows && rows[i].userId == userId && rows[i].marketId == marketId &&
                                 rows[i].status in {Paid, Settled}
    {
      b := ConsumedNonce(rows, userId, marketId);
    }

    method FindById(id: ClaimId) returns (r: Option<Claim>)
      ensures r.Some? <==> id in rows
      ensures r.Some? ==> r.value == rows[id]
    {
      r := if id in rows then Some(rows[id]) else None;
    }
  }
}
