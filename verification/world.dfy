/** The bot across many updates: every user's session, the feedbacks table
    the saves append to, and the promise the rate limiter exists for — in a
    run of updates in time order, no user has two feedbacks stored less than
    the interval apart. */
module World {
  import opened Wrappers
  import opened Feedback
  import opened Bot

  /** The sessions by user (a user without one is idle), the `feedbacks`
      table in insertion order and the next value of its `id` sequence. */
  datatype World = World(sessions: map<int, Session>, store: seq<Entry>, nextId: int)

  /** A bot that has just started against an empty table. */
  const Fresh: World := World(map[], [], 1)

  /** One update: who sent it, what it is and when it arrived. */
  datatype Update = Update(from: int, event: Event, at: int)

  function SessionOf(w: World, user: int): Session
  {
    if user in w.sessions then w.sessions[user] else Idle
  }

  /** The row `INSERT INTO feedbacks ... VALUES ($1, $2, $3, $4, NOW())`
      adds for a save: no contact, stamped with the time of the update. */
  function Row(e: Effect, id: int, at: int): (row: Entry)
    requires e.Save?
    ensures row.contact.None? && row.id == id && row.createdAt == at
    ensures row.userId == e.userId && row.text == e.text
    ensures row.feedbackType == "positive" <==> e.feedbackType == Positive
    ensures row.feedbackType == "negative" <==> e.feedbackType == Negative
  {
    Entry(id, KindName(e.feedbackType), e.text, None, e.userId, at)
  }

  /** The rows the saves among `effects` insert, in order, numbered from
      `nextId`: one row per save, each carrying that save's type, text and
      user. */
  function Inserted(effects: seq<Effect>, at: int, nextId: int): (rows: seq<Entry>)
    ensures |rows| == SaveCount(effects)
    ensures forall i :: 0 <= i < |rows| ==> Produced(effects, rows[i], nextId + i, at)
  {
    if |effects| == 0 then []
    else
      var e := effects[0];
      var rest := Inserted(effects[1..], at, nextId + (if e.Save? then 1 else 0));
      var out := if e.Save? then [Row(e, nextId, at)] + rest else rest;
      assert forall i :: 0 <= i < |out| ==> Produced(effects, out[i], nextId + i, at) by {
        forall i | 0 <= i < |out|
          ensures Produced(effects, out[i], nextId + i, at)
        {
          if e.Save? && i == 0 {
            assert out[0] == Row(effects[0], nextId + 0, at);
            assert Produced(effects, out[i], nextId + i, at);
          } else {
            var k := if e.Save? then i - 1 else i;
            assert out[i] == rest[k];
            assert Produced(effects[1..], rest[k], nextId + (if e.Save? then 1 else 0) + k, at);
            var j :| 0 <= j < |effects[1..]| && effects[1..][j].Save?
                     && rest[k] == Row(effects[1..][j], nextId + (if e.Save? then 1 else 0) + k, at);
            assert effects[1..][j] == effects[j + 1];
            assert Produced(effects, out[i], nextId + i, at);
          }
        }
      }
      out
  }

  ghost predicate Produced(effects: seq<Effect>, row: Entry, id: int, at: int)
  {
    exists j :: 0 <= j < |effects| && effects[j].Save? && row == Row(effects[j], id, at)
  }

  /** The world once the handler of user `from`'s update at time `at` has
      produced `r`: the sender's session is replaced and the saved rows are
      appended to the table. */
  function Apply(w: World, from: int, r: Outcome, at: int): World
  {
    World(w.sessions[from := r.session], w.store + Inserted(r.effects, at, w.nextId), w.nextId + SaveCount(r.effects))
  }

  /** The world after user `from`'s update `ev` at time `at`. Only the
      sender's session changes; only the sender's rows are added, at most
      one, with the type the session held and the time of the update, and
      only when the sender was awaiting a text, which leaves them idle. */
  function Step(w: World, from: int, ev: Event, cfg: Config, at: int): (next: World)
    ensures |w.store| <= |next.store| <= |w.store| + 1
    ensures next.store[..|w.store|] == w.store
    ensures forall i :: |w.store| <= i < |next.store| ==>
              && next.store[i].userId == from
              && next.store[i].createdAt == at
              && SessionOf(w, from).Awaiting?
              && next.store[i].feedbackType == KindName(SessionOf(w, from).feedbackType)
              && SessionOf(next, from) == Idle
    ensures forall u :: u != from ==> SessionOf(next, u) == SessionOf(w, u)
  {
    var r := Handle(SessionOf(w, from), from, ev, w.store, cfg, at);
    AppliedRows(w, from, r, at);
    Apply(w, from, r, at)
  }

  /** The rows an outcome that obeys the handler's discipline appends. */
  lemma {:induction false} AppliedRows(w: World, from: int, r: Outcome, at: int)
    requires Disciplined(SessionOf(w, from), from, w.store, at, r)
    ensures var next := Apply(w, from, r, at);
      && |w.store| <= |next.store| <= |w.store| + 1
      && next.store[..|w.store|] == w.store
      && (forall i :: |w.store| <= i < |next.store| ==>
            && next.store[i].userId == from
            && next.store[i].createdAt == at
            && SessionOf(w, from).Awaiting?
            && next.store[i].feedbackType == KindName(SessionOf(w, from).feedbackType)
            && SessionOf(next, from) == Idle)
      && (forall u :: u != from ==> SessionOf(next, u) == SessionOf(w, u))
  {
    var added := Inserted(r.effects, at, w.nextId);
    var next := Apply(w, from, r, at);
    assert next.store == w.store + added;
    assert next.store[..|w.store|] == w.store;
    forall i | |w.store| <= i < |next.store|
      ensures && next.store[i].userId == from
              && next.store[i].createdAt == at
              && SessionOf(w, from).Awaiting?
              && next.store[i].feedbackType == KindName(SessionOf(w, from).feedbackType)
              && SessionOf(next, from) == Idle
    {
      var k := i - |w.store|;
      assert next.store[i] == added[k];
      assert Produced(r.effects, added[k], w.nextId + k, at);
      var j :| 0 <= j < |r.effects| && r.effects[j].Save? && added[k] == Row(r.effects[j], w.nextId + k, at);
      assert r.effects[j] == Save(SessionOf(w, from).feedbackType, r.effects[j].text, from);
    }
  }

  /** The updates applied one after the other. */
  function Run(w: World, updates: seq<Update>, cfg: Config): World
    decreases |updates|
  {
    if |updates| == 0 then w
    else
      var u := updates[0];
      Run(Step(w, u.from, u.event, cfg, u.at), updates[1..], cfg)
  }

  /** Every stored row is dated no later than `now`. */
  ghost predicate Past(store: seq<Entry>, now: int)
  {
    forall i :: 0 <= i < |store| ==> store[i].createdAt <= now
  }

  /** Two rows of the same user are at least the interval apart, later rows
      being newer. */
  ghost predicate Spaced(store: seq<Entry>)
  {
    forall i, j :: 0 <= i < j < |store| && store[i].userId == store[j].userId ==>
      store[j].createdAt - store[i].createdAt >= INTERVAL_MS
  }

  /** Whoever is awaiting a text at `now` would pass the rate limiter. */
  ghost predicate Allowed(w: World, now: int)
  {
    forall u :: u in w.sessions && w.sessions[u].Awaiting? ==> CanSubmit(w.store, u, now)
  }

  ghost predicate Good(w: World, now: int)
  {
    Past(w.store, now) && Spaced(w.store) && Allowed(w, now)
  }

  /** Time order of a run: no update arrives before `now` or before the one
      ahead of it. */
  ghost predicate InOrder(updates: seq<Update>, now: int)
  {
    && (forall i :: 0 <= i < |updates| ==> now <= updates[i].at)
    && (forall i, j :: 0 <= i < j < |updates| ==> updates[i].at <= updates[j].at)
  }

  /** A bot that has just started satisfies the invariant at any time. */
  lemma {:induction false} FreshIsGood(now: int)
    ensures Good(Fresh, now)
  {
  }

  /** The limiter's check happens when the type is chosen and the row is
      written when the text arrives, possibly much later; the invariant
      bridges the two. */
  lemma {:induction false} StepKeepsGood(w: World, from: int, ev: Event, cfg: Config, now: int, at: int)
    requires Good(w, now) && now <= at
    ensures Good(Step(w, from, ev, cfg, at), at)
  {
    var r := Handle(SessionOf(w, from), from, ev, w.store, cfg, at);
    ApplyKeepsGood(w, from, r, now, at);
  }

  /** The invariant survives any outcome that obeys the handler's
      discipline. */
  lemma {:induction false} ApplyKeepsGood(w: World, from: int, r: Outcome, now: int, at: int)
    requires Good(w, now) && now <= at
    requires Disciplined(SessionOf(w, from), from, w.store, at, r)
    ensures Good(Apply(w, from, r, at), at)
  {
    var next := Apply(w, from, r, at);
    AppliedRows(w, from, r, at);
    var n := |w.store|;
    assert forall i :: 0 <= i < n ==> next.store[i] == w.store[i];
    // The table: the new row, if any, is the sender's, who passed the limiter.
    if |next.store| > n {
      assert next.store[n].userId == from;
      assert SessionOf(w, from).Awaiting?;
      assert CanSubmit(w.store, from, now);
      forall i, j | 0 <= i < j < |next.store| && next.store[i].userId == next.store[j].userId
        ensures next.store[j].createdAt - next.store[i].createdAt >= INTERVAL_MS
      {
        if j >= n {
          assert j == n && next.store[j].userId == from;
          assert now - w.store[i].createdAt >= INTERVAL_MS;
        }
      }
    }
    // The sessions: an awaiting user still passes the limiter at `at`.
    forall u | u in next.sessions && next.sessions[u].Awaiting?
      ensures CanSubmit(next.store, u, at)
    {
      if u == from {
        assert r.session.Awaiting?;
        assert |next.store| == n;
        assert next.store == w.store;
        if r.session == SessionOf(w, from) {
          assert CanSubmit(w.store, from, now);
          CanSubmitMonotone(w.store, from, now, at);
        }
      } else {
        assert SessionOf(next, u) == SessionOf(w, u);
        CanSubmitMonotone(w.store, u, now, at);
        var extra := next.store[n..];
        assert next.store == w.store + extra;
        assert forall i :: 0 <= i < |extra| ==> extra[i] == next.store[n + i];
        CanSubmitIgnoresOthers(w.store, extra, u, at);
      }
    }
  }

  /** A run in time order keeps the invariant; the world it ends in has a
      table in which each user's rows are the interval apart. */
  lemma {:induction false} RunKeepsGood(w: World, updates: seq<Update>, cfg: Config, now: int)
    requires Good(w, now) && InOrder(updates, now)
    ensures Spaced(Run(w, updates, cfg).store)
    ensures |updates| > 0 ==> Good(Run(w, updates, cfg), updates[|updates| - 1].at)
    decreases |updates|
  {
    if |updates| > 0 {
      var u := updates[0];
      var next := Step(w, u.from, u.event, cfg, u.at);
      StepKeepsGood(w, u.from, u.event, cfg, now, u.at);
      InOrderRest(updates, now);
      RunKeepsGood(next, updates[1..], cfg, u.at);
      assert Run(w, updates, cfg) == Run(next, updates[1..], cfg);
      if |updates| > 1 {
        assert updates[1..][|updates[1..]| - 1] == updates[|updates| - 1];
      }
    }
  }

  lemma {:induction false} InOrderRest(updates: seq<Update>, now: int)
    requires InOrder(updates, now) && |updates| > 0
    ensures InOrder(updates[1..], updates[0].at)
  {
    var rest := updates[1..];
    assert forall i :: 0 <= i < |rest| ==> rest[i] == updates[i + 1];
  }

  /** One feedback per user per interval: started fresh and fed updates in
      time order, the bot never stores two feedbacks of the same user less
      than 24 hours apart, whatever the users send. */
  lemma {:induction false} OneFeedbackPerInterval(updates: seq<Update>, cfg: Config, now: int)
    requires InOrder(updates, now)
    ensures var store := Run(Fresh, updates, cfg).store;
      forall i, j :: 0 <= i < j < |store| && store[i].userId == store[j].userId ==>
        store[j].createdAt - store[i].createdAt >= INTERVAL_MS
  {
    FreshIsGood(now);
    RunKeepsGood(Fresh, updates, cfg, now);
  }
}
