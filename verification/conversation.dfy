/** What the handlers promise, one update at a time: the feedback
    conversation, the admin gate and the pagination buttons. */
module Conversation {
  import opened Wrappers
  import opened Text
  import opened JsNumber
  import opened Feedback
  import opened Listing
  import opened Render
  import opened Bot

  /** Pressing a type button moves the user to "awaiting text" with exactly
      that type when the rate limiter allows it; when it refuses, the session
      is kept and the only reply is the "try again in 24 hours" message. Either
      way the limiter's query is the only read. */
  lemma {:induction false} ChooseType(session: Session, from: int, k: Kind, store: seq<Entry>, cfg: Config, now: int)
    ensures CanSubmit(store, from, now) ==>
      Handle(session, from, CallbackQuery(KindName(k)), store, cfg, now)
        == Outcome(Awaiting(k), [ReadLatest(from), Reply(PROMPT, [])])
    ensures !CanSubmit(store, from, now) ==>
      Handle(session, from, CallbackQuery(KindName(k)), store, cfg, now)
        == Outcome(session, [ReadLatest(from), Reply(TOO_SOON, [])])
  {
    CallbackRoundTrip(Choose(k));
  }

  /** A text message while a type is chosen produces exactly one feedback of
      that type, from the sender, with the text as written — thanked first,
      saved second, sent to the admin third — and leaves the session idle.
      The rate limiter is not consulted again: no store read happens. */
  lemma {:induction false} TextWhileAwaiting(k: Kind, from: int, text: string, store: seq<Entry>, cfg: Config, now: int)
    ensures
      var r := Handle(Awaiting(k), from, TextMessage(text), store, cfg, now);
      && r.session == Idle
      && SaveCount(r.effects) == 1
      && |r.effects| == 3
      && r.effects[0] == Reply(THANKS, [])
      && r.effects[1] == Save(k, text, from)
      && r.effects[2].NotifyAdmin?
      && r.effects[2].text[|r.effects[2].text| - |text|..] == text
      && forall i :: 0 <= i < |r.effects| ==> !IsRead(r.effects[i])
  {
    var r := Handle(Awaiting(k), from, TextMessage(text), store, cfg, now);
    SaveOnce(r.effects[0], r.effects[1], r.effects[2]);
  }

  /** A text message while idle does nothing at all. */
  lemma {:induction false} TextWhileIdle(from: int, text: string, store: seq<Entry>, cfg: Config, now: int)
    ensures Handle(Idle, from, TextMessage(text), store, cfg, now) == Outcome(Idle, [])
  {
  }

  /** `/start` keeps the session and offers the two type buttons, which reach
      the positive and the negative handler. */
  lemma {:induction false} StartOffersTypes(session: Session, from: int, store: seq<Entry>, cfg: Config, now: int)
    ensures Handle(session, from, StartCommand, store, cfg, now) == Outcome(session, [Reply(GREETING, START_KEYBOARD)])
    ensures ParseCallback(START_KEYBOARD[0].data) == Some(Choose(Positive))
    ensures ParseCallback(START_KEYBOARD[1].data) == Some(Choose(Negative))
  {
    CallbackRoundTrip(Choose(Positive));
    CallbackRoundTrip(Choose(Negative));
  }

  /** Only the admin's listing command queries the store: anyone else gets
      the denial and nothing is read. The admin sees the page the command's
      argument names, page 1 when it is missing, zero or not a number. */
  lemma {:induction false} AdminGate(session: Session, from: int, text: string, store: seq<Entry>, cfg: Config, now: int)
    ensures !IsAdmin(cfg, from) ==>
      Handle(session, from, ShowFeedbacksCommand(text), store, cfg, now) == Outcome(session, [Reply(NO_ACCESS, [])])
    ensures IsAdmin(cfg, from) ==>
      && Handle(session, from, ShowFeedbacksCommand(text), store, cfg, now)
           == Outcome(session, ShowFeedbacks(CommandPage(text), NoFilter, store, cfg))
      && Handle(session, from, ShowFeedbacksCommand(text), store, cfg, now).effects[0].ReadPage?
  {
    var r := Handle(session, from, ShowFeedbacksCommand(text), store, cfg, now);
    if IsAdmin(cfg, from) {
      assert r == Outcome(session, ShowFeedbacks(CommandPage(text), NoFilter, store, cfg));
    } else {
      assert r == Outcome(session, [Reply(NO_ACCESS, [])]);
    }
  }

  /** The "previous" button under page `page` lists page `page - 1`, or on
      page 1 only answers that this is the first page, reading nothing. It
      does not check who pressed it. */
  lemma {:induction false} PreviousButton(session: Session, from: int, page: nat, totalPages: int,
                       store: seq<Entry>, cfg: Config, now: int)
    requires page >= 1
    ensures Handle(session, from, CallbackQuery(Keyboard(page, totalPages)[0].data), store, cfg, now)
            == if page > 1 then Outcome(session, ShowFeedbacks(page - 1, NoFilter, store, cfg))
               else Outcome(session, [AnswerCallback(FIRST_PAGE)])
  {
    CallbackRoundTrip(Prev(page));
  }

  /** The "next" button under page `page` lists page `page + 1`, whether or
      not that page has rows, whoever pressed it. */
  lemma {:induction false} NextButton(session: Session, from: int, page: nat, totalPages: int,
                   store: seq<Entry>, cfg: Config, now: int)
    ensures Handle(session, from, CallbackQuery(Keyboard(page, totalPages)[1].data), store, cfg, now)
            == Outcome(session, ShowFeedbacks(page + 1, NoFilter, store, cfg))
  {
    var a := Next(page);
    NextButtonAction(session, from, page, totalPages, store, cfg, now);
    NextAction(session, from, a, store, cfg, now);
    SamePage(a.page + 1, page + 1, store, cfg);
  }

  /** The "next" button under page `page` carries the action "next from
      `page`". */
  lemma {:induction false} NextButtonAction(session: Session, from: int, page: nat, totalPages: int,
                         store: seq<Entry>, cfg: Config, now: int)
    ensures Handle(session, from, CallbackQuery(Keyboard(page, totalPages)[1].data), store, cfg, now)
            == HandleAction(session, from, Next(page), store, cfg, now)
  {
    CallbackRoundTrip(Next(page));
  }

  /** A "next" action lists the page after the one it carries. */
  lemma {:induction false} NextAction(session: Session, from: int, a: Action, store: seq<Entry>, cfg: Config, now: int)
    requires a.Next?
    ensures HandleAction(session, from, a, store, cfg, now) == Outcome(session, ShowFeedbacks(a.page + 1, NoFilter, store, cfg))
  {
  }

  /** Equal page numbers list the same page. This is a step for the solver
      only: it rewrites `a.page + 1` to `page + 1` in `NextButton` without
      unfolding the listing, which is too costly to do directly. */
  lemma {:induction false} SamePage(p: int, q: int, store: seq<Entry>, cfg: Config)
    requires p == q
    ensures ShowFeedbacks(p, NoFilter, store, cfg) == ShowFeedbacks(q, NoFilter, store, cfg)
  {
  }

  /** The page indicator under page `page` lists page `page` again, whoever
      pressed it. */
  lemma {:induction false} PageButton(session: Session, from: int, page: nat, totalPages: int,
                   store: seq<Entry>, cfg: Config, now: int)
    requires page >= 1
    ensures Handle(session, from, CallbackQuery(Keyboard(page, totalPages)[2].data), store, cfg, now)
            == Outcome(session, ShowFeedbacks(page, NoFilter, store, cfg))
  {
    CallbackRoundTrip(Refresh(page));
  }

  /** "Previous" and "next" presses never ask the store for a page below 1, so
      they never hit the negative-offset error; "previous" at or below page 1
      reads nothing. */
  lemma {:induction false} PrevNextStayPositive(session: Session, from: int, data: string, store: seq<Entry>, cfg: Config, now: int)
    requires ParseCallback(data).Some?
    requires ParseCallback(data).value.Prev? || ParseCallback(data).value.Next?
    ensures
      var r := Handle(session, from, CallbackQuery(data), store, cfg, now);
      && r.session == session
      && (r.effects == [AnswerCallback(FIRST_PAGE)]
          || exists p :: p >= 1 && r.effects == ShowFeedbacks(p, NoFilter, store, cfg))
      && (ParseCallback(data).value.Prev? && ParseCallback(data).value.page <= 1 ==>
            r.effects == [AnswerCallback(FIRST_PAGE)])
  {
    var a := ParseCallback(data).value;
    if a.Prev? && a.page > 1 {
      assert Handle(session, from, CallbackQuery(data), store, cfg, now).effects
          == ShowFeedbacks(a.page - 1, NoFilter, store, cfg);
    } else if a.Next? {
      assert Handle(session, from, CallbackQuery(data), store, cfg, now).effects
          == ShowFeedbacks(a.page + 1, NoFilter, store, cfg);
    }
  }
}
