/** Stored feedback rows and the once-per-interval rate limiter
    (`canSubmitFeedback`). */
module Feedback {
  import opened Wrappers

  /** The two classifications a user can pick with the inline buttons. */
  datatype Kind = Positive | Negative

  /** The text stored in `feedback_type` and used as the button's callback data. */
  function KindName(k: Kind): string
  {
    match k
    case Positive => "positive"
    case Negative => "negative"
  }

  /** One row of the `feedbacks` table. Timestamps are integer milliseconds. */
  datatype Entry = Entry(
    id: int,
    feedbackType: string,
    text: string,
    contact: Option<string>,
    userId: int,
    createdAt: int)

  const HOUR_MS: int := 60 * 60 * 1000
  const FEEDBACK_INTERVAL_HOURS: int := 24
  /** `hoursSince >= FEEDBACK_INTERVAL_HOURS` with `hoursSince = ms / HOUR_MS`
      is the same test as `ms >= INTERVAL_MS`. */
  const INTERVAL_MS: int := FEEDBACK_INTERVAL_HOURS * HOUR_MS

  /** The newest `created_at` among the user's rows: the single row of
      `SELECT created_at ... WHERE user_id = $1 ORDER BY created_at DESC LIMIT 1`. */
  function LatestFor(store: seq<Entry>, user: int): (last: Option<int>)
    ensures last.None? <==> forall i :: 0 <= i < |store| ==> store[i].userId != user
    ensures last.Some? ==>
              (forall i :: 0 <= i < |store| && store[i].userId == user ==> store[i].createdAt <= last.value)
              && exists i :: 0 <= i < |store| && store[i].userId == user && store[i].createdAt == last.value
  {
    if |store| == 0 then None
    else
      var rest := LatestFor(store[1..], user);
      assert forall i :: 1 <= i < |store| ==> store[i] == store[1..][i - 1];
      if store[0].userId != user then
        assert rest.Some? ==> exists i :: 1 <= i < |store| && store[i].userId == user && store[i].createdAt == rest.value;
        rest
      else
        match rest
        case None => Some(store[0].createdAt)
        case Some(t) =>
          assert exists i :: 1 <= i < |store| && store[i].userId == user && store[i].createdAt == t;
          if t < store[0].createdAt then Some(store[0].createdAt) else Some(t)
  }

  /** `canSubmitFeedback(user)` at time `now`: allowed when the user has no row,
      otherwise when the newest row is at least the interval old — which is the
      same as every one of the user's rows being at least the interval old. */
  function CanSubmit(store: seq<Entry>, user: int, now: int): (ok: bool)
    ensures ok <==> forall i :: 0 <= i < |store| && store[i].userId == user ==>
                      now - store[i].createdAt >= INTERVAL_MS
  {
    match LatestFor(store, user)
    case None => true
    case Some(last) => now - last >= INTERVAL_MS
  }

  /** A user with no stored feedback may always submit. */
  lemma {:induction false} NoHistoryMaySubmit(store: seq<Entry>, user: int, now: int)
    requires forall i :: 0 <= i < |store| ==> store[i].userId != user
    ensures CanSubmit(store, user, now)
  {
  }

  /** With the newest row at time `last`, the user is refused one millisecond
      before the interval has passed and allowed exactly when it has. */
  lemma {:induction false} IntervalBoundary(store: seq<Entry>, user: int, last: int)
    requires LatestFor(store, user) == Some(last)
    ensures !CanSubmit(store, user, last + INTERVAL_MS - 1)
    ensures CanSubmit(store, user, last + INTERVAL_MS)
  {
  }

  /** Waiting never turns an allowed user into a refused one. */
  lemma {:induction false} CanSubmitMonotone(store: seq<Entry>, user: int, now: int, later: int)
    requires CanSubmit(store, user, now) && now <= later
    ensures CanSubmit(store, user, later)
  {
  }

  /** Rows of other users do not affect a user's permission. */
  lemma {:induction false} CanSubmitIgnoresOthers(store: seq<Entry>, extra: seq<Entry>, user: int, now: int)
    requires forall i :: 0 <= i < |extra| ==> extra[i].userId != user
    ensures CanSubmit(store + extra, user, now) == CanSubmit(store, user, now)
  {
    assert forall i :: 0 <= i < |store| ==> (store + extra)[i] == store[i];
    assert forall i :: |store| <= i < |store + extra| ==> (store + extra)[i] == extra[i - |store|];
  }
}
