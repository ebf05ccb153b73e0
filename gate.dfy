/** The admission gate: a map from user id to the time at which the user is
    let through again. Entries are only ever overwritten, never removed. */
module Gate {

  /** A user is blocked at time `now` exactly when an unblock time is stored
      for it and `now` is strictly before that time. */
  predicate Blocked(status: map<int, int>, id: int, now: int) {
    id in status && now < status[id]
  }

  /** The map after block_user(id, duration) at time `now`. */
  function Block(status: map<int, int>, id: int, now: int, duration: int): map<int, int> {
    status[id := now + duration]
  }

  /** An id that was never blocked is not blocked at any time. */
  lemma NeverBlockedIsFree(status: map<int, int>, id: int, now: int)
    requires id !in status
    ensures !Blocked(status, id, now)
  {
  }

  /** Once the stored unblock time is reached the user is let through. */
  lemma FreeFromUnblockTime(status: map<int, int>, id: int, now: int)
    requires id in status && now >= status[id]
    ensures !Blocked(status, id, now)
  {
  }

  /** After a block at time t for d time units, the user is blocked at every
      query time before t + d and free from t + d on, whatever was stored before. */
  lemma BlockWindow(status: map<int, int>, id: int, t: int, d: int, q: int)
    ensures Blocked(Block(status, id, t, d), id, q) <==> q < t + d
    ensures t <= q < t + d ==> Blocked(Block(status, id, t, d), id, q)
  {
  }

  /** Blocking one user stores its entry and leaves every other entry as it was. */
  lemma BlockIsolated(status: map<int, int>, id: int, t: int, d: int)
    ensures Block(status, id, t, d).Keys == status.Keys + {id}
    ensures Block(status, id, t, d)[id] == t + d
    ensures forall other :: other in status && other != id ==> Block(status, id, t, d)[other] == status[other]
    ensures forall other, q :: other != id ==> (Blocked(Block(status, id, t, d), other, q) <==> Blocked(status, other, q))
  {
  }

  /** Of two blocks of the same user, the later one alone decides the stored time. */
  lemma LastBlockWins(status: map<int, int>, id: int, t1: int, t2: int, d: int)
    ensures Block(Block(status, id, t1, d), id, t2, d) == Block(status, id, t2, d)
  {
  }
}
