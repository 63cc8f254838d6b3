/** The bot's handlers: the per-user feedback conversation, the admin-only
    listing command and the pagination buttons. Every handler is a pure
    function from the user's session, the event and a view of the store to
    the new session and the list of effects, in the order the handler
    performs them. */
module Bot {
  import opened Wrappers
  import opened Text
  import opened JsNumber
  import opened Feedback
  import opened Listing
  import opened SqlQuery
  import opened Render

  /** A user's session: idle (no `feedbackType`), or waiting for the text of
      a feedback whose type the user has chosen. */
  datatype Session = Idle | Awaiting(feedbackType: Kind)

  /** An inline keyboard button: its caption and its callback data. */
  datatype Button = Button(caption: string, data: string)

  datatype Effect =
    | Reply(text: string, keyboard: seq<Button>)    // ctx.reply
    | AnswerCallback(text: string)                  // ctx.answerCbQuery
    | Save(feedbackType: Kind, text: string, userId: int)  // saveFeedback, contact null
    | NotifyAdmin(text: string)                     // notifyAdmin
    | ReadLatest(userId: int)                       // the rate limiter's query
    | ReadPage(sql: string, params: seq<Param>)     // the listing's fetch
    | ReadCount(conditions: seq<Literal>)           // the listing's count

  /** Whether an effect queries the store. */
  predicate IsRead(e: Effect) {
    e.ReadLatest? || e.ReadPage? || e.ReadCount?
  }

  /** The updates the bot reacts to, already told apart by the transport:
      `/start`, `/show_feedbacks ...` (its full text), a button press (its
      callback data) and any other text message. */
  datatype Event =
    | StartCommand
    | ShowFeedbacksCommand(text: string)
    | CallbackQuery(data: string)
    | TextMessage(text: string)

  /** `ADMIN_CHAT_ID` from the environment (absent when unset), and how a
      `created_at` date is printed. */
  datatype Config = Config(adminChatId: Option<string>, showDate: int -> string)

  datatype Outcome = Outcome(session: Session, effects: seq<Effect>)

  const GREETING: string := "Здравствуйте! Я бот сети суши-баров «Вкус и Лосось» для обратной связи. Нажмите «/start», чтобы оставить обратную связь"
  const PROMPT: string := "Опишите Вашу проблему. Также, просим Вас оставить номер, дату, время заказа и ваш контактный номер телефона, через который мы сможем с Вами связаться для решения вашей проблемы"
  const TOO_SOON: string := "Вы уже оставляли отзыв недавно. Пожалуйста, попробуйте снова через 24 часа."
  const THANKS: string := "Благодарим за обратную связь. Ваш ответ был направлен менеджеру. Мы постараемся связаться с Вами в ближайшее время!"
  const NO_ACCESS: string := "У вас нет доступа к этой команде."
  const FIRST_PAGE: string := "Это первая страница."
  const DB_ERROR: string := "Ошибка получения отзывов из базы данных."

  /** The start message's keyboard: "Да" chooses positive, "Нет" negative. */
  const START_KEYBOARD: seq<Button> := [Button("Да", "positive"), Button("Нет", "negative")]

  /** The length of the heading in front of the feedback in an admin notice:
      "Получен положительный отзыв" and "Получен отрицательный отзыв", each
      followed by a blank line and "Отзыв: ", are both 36 characters. */
  const NOTIFY_HEAD_LENGTH: nat := 36

  /** The text the admin is sent for a new feedback. */
  function NotifyText(k: Kind, feedback: string): (t: string)
    ensures |t| == NOTIFY_HEAD_LENGTH + |feedback|
    ensures t[NOTIFY_HEAD_LENGTH..] == feedback
  {
    match k
    case Positive => "Получен положительный отзыв\n\nОтзыв: " + feedback
    case Negative => "Получен отрицательный отзыв\n\nОтзыв: " + feedback
  }

  /** `ctx.from.id.toString() === ADMIN_CHAT_ID`. */
  function IsAdmin(cfg: Config, user: int): (b: bool)
    ensures b <==> cfg.adminChatId.Some? && IsNumeralOf(cfg.adminChatId.value, user)
    ensures b ==> cfg.adminChatId.Some? && ParseInt(cfg.adminChatId.value) == Some(user)
    ensures (cfg.adminChatId.Some? && |cfg.adminChatId.value| > 0
             && (IsJsSpace(cfg.adminChatId.value[0]) || cfg.adminChatId.value[0] == '+')) ==> !b
  {
    match cfg.adminChatId
    case None => false
    case Some(id) =>
      PrintedId(id, user);
      id == IntToString(user)
  }

  /** What it takes for a configured id to be the printed form of a user id. */
  lemma {:induction false} PrintedId(id: string, user: int)
    ensures IsNumeralOf(id, user) <==> id == IntToString(user)
    ensures id == IntToString(user) ==> ParseInt(id) == Some(user)
    ensures id == IntToString(user) ==> |id| > 0 && !IsJsSpace(id[0]) && id[0] != '+'
  {
    NumeralIsIntToString(id, user);
    ParseIntOfIntToString(user);
    if id == IntToString(user) {
      NumeralStartNotSpace(id[0]);
    }
  }

  lemma {:induction false} NumeralStartNotSpace(c: char)
    requires IsDigit(c) || c == '-'
    ensures !IsJsSpace(c) && c != '+'
  {
  }

  /** The admin notice tells the admin both the kind and the text of the
      feedback: different feedbacks never give the same notice. */
  lemma {:induction false} NotifyTextInjective(k1: Kind, f1: string, k2: Kind, f2: string)
    requires NotifyText(k1, f1) == NotifyText(k2, f2)
    ensures k1 == k2 && f1 == f2
  {
    var t := NotifyText(k1, f1);
    assert t[8] == if k1 == Positive then 'п' else 'о';
    assert NotifyText(k2, f2)[8] == if k2 == Positive then 'п' else 'о';
  }

  /** The admin check compares strings, not numbers: user 123 passes with
      `ADMIN_CHAT_ID` "123" but not with "0123", "123abc" or "0x7B", all of
      which `parseInt` reads as 123. */
  lemma {:induction false} AdminNeedsExactId(showDate: int -> string)
    ensures IsAdmin(Config(Some("123"), showDate), 123)
    ensures !IsAdmin(Config(Some("0123"), showDate), 123)
    ensures !IsAdmin(Config(Some("123abc"), showDate), 123)
    ensures !IsAdmin(Config(Some("0x7B"), showDate), 123)
  {
    assert "123"[..2] == "12" && "12"[..1] == "1" && "1"[..0] == "";
    assert !IsDigit("123abc"[3]);
    assert !IsDigit("0x7B"[1]);
  }

  /** At most one user is the admin. */
  lemma {:induction false} AdminIsUnique(cfg: Config, a: int, b: int)
    requires IsAdmin(cfg, a) && IsAdmin(cfg, b)
    ensures a == b
  {
    IntToStringInjective(a, b);
  }

  // ---------------------------------------------------------------------
  // Callback data

  /** What a button press asks for. */
  datatype Action = Prev(page: nat) | Next(page: nat) | Refresh(page: nat) | Choose(kind: Kind)

  /** `tag(\d+)` matches `data` at position `i`: the tag, then a digit. */
  predicate TagAt(data: string, tag: string, i: nat) {
    i + |tag| < |data| && data[i..i + |tag|] == tag && IsDigit(data[i + |tag|])
  }

  /** `i` is the leftmost match at or after `from`. */
  ghost predicate FirstMatch(data: string, tag: string, from: nat, i: nat) {
    from <= i && TagAt(data, tag, i) && forall j :: from <= j < i ==> !TagAt(data, tag, j)
  }

  /** The regular expression `tag(\d+)` matches somewhere in `data`. */
  ghost predicate HasMatch(data: string, tag: string) {
    exists i: nat :: TagAt(data, tag, i)
  }

  /** The first match of the regular expression `tag(\d+)` in `data` at or
      after position `from`: the leftmost `tag` followed by a digit, and the
      value of the whole digit run after it. */
  function TaggedNumber(data: string, tag: string, from: nat): (r: Option<nat>)
    ensures r.None? <==> forall i: nat :: from <= i ==> !TagAt(data, tag, i)
    ensures r.Some? ==> exists i: nat :: FirstMatch(data, tag, from, i)
                                    && r.value == DigitsValue(DigitRun(data[i + |tag|..]))
    decreases |data| - from
  {
    if from + |tag| >= |data| then None
    else if TagAt(data, tag, from) then
      var r := Some(DigitsValue(DigitRun(data[from + |tag|..])));
      assert FirstMatch(data, tag, from, from);
      r
    else
      var r := TaggedNumber(data, tag, from + 1);
      assert forall i: nat :: from <= i && TagAt(data, tag, i) ==> from + 1 <= i;
      assert r.Some? ==> exists i: nat :: FirstMatch(data, tag, from, i)
                                     && r.value == DigitsValue(DigitRun(data[i + |tag|..])) by {
        if r.Some? {
          var i: nat :| FirstMatch(data, tag, from + 1, i) && r.value == DigitsValue(DigitRun(data[i + |tag|..]));
          assert FirstMatch(data, tag, from, i);
        }
      }
      r
  }

  /** The handler a button press reaches: the `prev_`, `next_` and `page_`
      patterns are tried in registration order, then the exact `positive` and
      `negative` triggers; anything else is not handled. A pattern's handler
      gets the number its `(\d+)` captured. */
  function ParseCallback(data: string): (a: Option<Action>)
    ensures a.Some? && a.value.Prev? ==> TaggedNumber(data, "prev_", 0) == Some(a.value.page)
    ensures a.Some? && a.value.Next? ==> TaggedNumber(data, "next_", 0) == Some(a.value.page)
    ensures a.Some? && a.value.Refresh? ==> TaggedNumber(data, "page_", 0) == Some(a.value.page)
    ensures a.Some? && a.value.Prev? ==> HasMatch(data, "prev_")
    ensures a.Some? && a.value.Next? ==> !HasMatch(data, "prev_") && HasMatch(data, "next_")
    ensures a.Some? && a.value.Refresh? ==>
              !HasMatch(data, "prev_") && !HasMatch(data, "next_") && HasMatch(data, "page_")
    ensures a.Some? && a.value.Choose? ==>
              !HasMatch(data, "prev_") && !HasMatch(data, "next_") && !HasMatch(data, "page_")
              && data == KindName(a.value.kind)
    ensures a.None? ==>
              !HasMatch(data, "prev_") && !HasMatch(data, "next_") && !HasMatch(data, "page_")
              && data != KindName(Positive) && data != KindName(Negative)
  {
    match TaggedNumber(data, "prev_", 0)
    case Some(n) => Some(Prev(n))
    case None =>
      match TaggedNumber(data, "next_", 0)
      case Some(n) => Some(Next(n))
      case None =>
        match TaggedNumber(data, "page_", 0)
        case Some(n) => Some(Refresh(n))
        case None =>
          if data == KindName(Positive) then Some(Choose(Positive))
          else if data == KindName(Negative) then Some(Choose(Negative))
          else None
  }

  /** The callback data the bot puts on the button for an action. */
  function ActionData(a: Action): string
  {
    match a
    case Prev(n) => "prev_" + NatToString(n)
    case Next(n) => "next_" + NatToString(n)
    case Refresh(n) => "page_" + NatToString(n)
    case Choose(k) => KindName(k)
  }

  lemma {:induction false} TaggedNumberFound(tag: string, n: nat)
    requires |tag| > 0 && forall i :: 0 <= i < |tag| ==> !IsDigit(tag[i])
    ensures TaggedNumber(tag + NatToString(n), tag, 0) == Some(n)
  {
    var data := tag + NatToString(n);
    assert data[..|tag|] == tag;
    assert data[|tag|..] == NatToString(n);
    DigitRunOfDigits(NatToString(n));
  }

  /** No match can start where the tag's first character does not occur. */
  lemma {:induction false} TaggedNumberAbsent(data: string, tag: string, from: nat)
    requires |tag| > 0
    requires forall i :: from <= i < |data| ==> data[i] != tag[0]
    ensures TaggedNumber(data, tag, from) == None
    decreases |data| - from
  {
    if from + |tag| < |data| {
      assert data[from..from + |tag|][0] == data[from];
      TaggedNumberAbsent(data, tag, from + 1);
    }
  }

  /** A tag that differs from the start of `data` and whose first character
      occurs nowhere after it is not found. */
  lemma {:induction false} TaggedNumberMismatch(data: string, tag: string)
    requires |tag| > 0 && |data| > 0
    requires |data| <= |tag| || data[..|tag|] != tag
    requires forall i :: 1 <= i < |data| ==> data[i] != tag[0]
    ensures TaggedNumber(data, tag, 0) == None
  {
    TaggedNumberAbsent(data, tag, 1);
  }

  lemma {:induction false} DigitsAvoid(n: nat, c: char)
    requires !IsDigit(c)
    ensures forall i :: 0 <= i < |NatToString(n)| ==> NatToString(n)[i] != c
  {
  }

  /** Every button the bot makes is handled as the action it was made for. */
  lemma {:induction false} CallbackRoundTrip(a: Action)
    ensures ParseCallback(ActionData(a)) == Some(a)
  {
    match a
    case Prev(n) =>
      TaggedNumberFound("prev_", n);
    case Next(n) =>
      NextRoundTrip(n);
    case Refresh(n) =>
      RefreshRoundTrip(n);
    case Choose(k) =>
      ChooseRoundTrip(k);
  }

  lemma {:induction false} NextRoundTrip(n: nat)
    ensures ParseCallback(ActionData(Next(n))) == Some(Next(n))
  {
    DigitsAvoid(n, 'p');
    TaggedNumberMismatch(ActionData(Next(n)), "prev_");
    TaggedNumberFound("next_", n);
  }

  lemma {:induction false} RefreshRoundTrip(n: nat)
    ensures ParseCallback(ActionData(Refresh(n))) == Some(Refresh(n))
  {
    var data := ActionData(Refresh(n));
    DigitsAvoid(n, 'p');
    DigitsAvoid(n, 'n');
    assert data[..5] == "page_";
    TaggedNumberMismatch(data, "prev_");
    TaggedNumberMismatch(data, "next_");
    TaggedNumberFound("page_", n);
  }

  lemma {:induction false} ChooseRoundTrip(k: Kind)
    ensures ParseCallback(ActionData(Choose(k))) == Some(Choose(k))
  {
    var data := ActionData(Choose(k));
    if k == Positive {
      assert data == "positive" && data[..5] == "posit";
    } else {
      assert data == "negative" && data[..5] == "negat";
    }
    TaggedNumberMismatch(data, "prev_");
    TaggedNumberMismatch(data, "next_");
    TaggedNumberMismatch(data, "page_");
  }

  // ---------------------------------------------------------------------
  // The listing

  /** The buttons under a listing page: "previous", "next" and the page
      indicator, whose data are `prev_<page>`, `next_<page>` and
      `page_<page>`. Only pages the store could be asked for get a keyboard,
      so `page` is at least 1 here. */
  function Keyboard(page: nat, totalPages: int): (kb: seq<Button>)
    ensures |kb| == 3
    ensures kb[2].caption == PAGE_LABEL + NatToString(page) + OF_LABEL + IntToString(totalPages)
  {
    [ Button("Предыдущая", ActionData(Prev(page))),
      Button("Следующая", ActionData(Next(page))),
      Button(PAGE_LABEL + NatToString(page) + OF_LABEL + IntToString(totalPages), ActionData(Refresh(page))) ]
  }

  const PAGE_LABEL: string := "Страница "
  const OF_LABEL: string := " из "

  /** The page indicator tells the admin which page this is and how many
      there are: different pages or page counts never share a caption. */
  lemma {:induction false} KeyboardCaptionTells(p1: nat, t1: int, p2: nat, t2: int)
    requires Keyboard(p1, t1)[2].caption == Keyboard(p2, t2)[2].caption
    ensures p1 == p2 && t1 == t2
  {
    var a1, a2 := NatToString(p1), NatToString(p2);
    var b1, b2 := IntToString(t1), IntToString(t2);
    var r1, r2 := a1 + OF_LABEL + b1, a2 + OF_LABEL + b2;
    assert PAGE_LABEL + a1 + OF_LABEL + b1 == PAGE_LABEL + r1;
    assert PAGE_LABEL + a2 + OF_LABEL + b2 == PAGE_LABEL + r2;
    assert r1 == (PAGE_LABEL + r1)[|PAGE_LABEL|..];
    assert r2 == (PAGE_LABEL + r2)[|PAGE_LABEL|..];
    NumeralBeforeLabel(a1, b1, a2, b2);
    IntToStringInjective(t1, t2);
  }

  /** A digit string followed by " из " ends where the label begins. */
  lemma {:induction false} NumeralBeforeLabel(a1: string, b1: string, a2: string, b2: string)
    requires AllDigits(a1) && AllDigits(a2)
    requires a1 + OF_LABEL + b1 == a2 + OF_LABEL + b2
    ensures a1 == a2 && b1 == b2
  {
    var s, t := a1 + OF_LABEL + b1, a2 + OF_LABEL + b2;
    assert s[|a1|] == ' ' && t[|a2|] == ' ';
    if |a1| < |a2| {
      assert false;
    } else if |a2| < |a1| {
      assert false;
    }
    assert a1 == s[..|a1|] && a2 == t[..|a2|];
    assert b1 == s[|a1| + |OF_LABEL|..] && b2 == t[|a2| + |OF_LABEL|..];
  }

  /** The three buttons under a listing page reach the "previous", "next"
      and "this page" handlers, each carrying the page they were made for. */
  lemma {:induction false} KeyboardButtons(page: nat, totalPages: int)
    ensures ParseCallback(Keyboard(page, totalPages)[0].data) == Some(Prev(page))
    ensures ParseCallback(Keyboard(page, totalPages)[1].data) == Some(Next(page))
    ensures ParseCallback(Keyboard(page, totalPages)[2].data) == Some(Refresh(page))
  {
    CallbackRoundTrip(Prev(page));
    CallbackRoundTrip(Next(page));
    CallbackRoundTrip(Refresh(page));
  }

  /** `showFeedbacks(ctx, page, filterType, filterStartDate, filterEndDate)`:
      the fetch, then (if it succeeded) the count, then the reply with the
      rendered rows and the navigation keyboard; a failed fetch is answered
      with the error message. */
  function ShowFeedbacks(page: int, f: Filter, store: seq<Entry>, cfg: Config): (effects: seq<Effect>)
    ensures forall i :: 0 <= i < |effects| ==> !effects[i].Save?
  {
    var q := BuildFetch(page, f);
    var fetched := RunFetch(q, store);
    if fetched.Err? then [ReadPage(q.sql, q.params), Reply(DB_ERROR, [])]
    else
      FetchPage(page, f, store);
      var total := RunCount(CountConditions(f), store);
      [ ReadPage(q.sql, q.params),
        ReadCount(CountConditions(f)),
        Reply(Body(fetched.value, cfg.showDate), Keyboard(page, CeilDiv(total, PAGE_SIZE))) ]
  }

  /** The rows page `page` lists: the matching rows newest first, after
      skipping the earlier pages. */
  function PageRows(store: seq<Entry>, f: Filter, page: int): (rows: seq<Entry>)
    requires page >= 1
    ensures |rows| == if |Matching(store, f)| <= PageOffset(page) then 0
                      else if |Matching(store, f)| - PageOffset(page) < PAGE_SIZE then |Matching(store, f)| - PageOffset(page)
                      else PAGE_SIZE
    ensures forall i :: 0 <= i < |rows| ==> Matches(f, rows[i])
    ensures NewestFirst(rows)
    ensures multiset(rows) <= multiset(store)
    ensures forall k :: 0 <= k < |rows| ==>
              rows[k] == SortNewestFirst(Matching(store, f))[PageOffset(page) + k]
  {
    var sorted := SortNewestFirst(Matching(store, f));
    var rows := Window(sorted, PAGE_SIZE, PageOffset(page));
    WindowOfSorted(sorted, PAGE_SIZE, PageOffset(page));
    SortedRowsMatch(store, f);
    assert forall i :: 0 <= i < |rows| ==> Matches(f, rows[i]) by {
      forall i | 0 <= i < |rows| ensures Matches(f, rows[i]) {
        assert rows[i] in multiset(rows);
      }
    }
    rows
  }

  /** Sorting the matching rows keeps only matching rows. */
  lemma {:induction false} SortedRowsMatch(store: seq<Entry>, f: Filter)
    ensures forall e :: e in multiset(SortNewestFirst(Matching(store, f))) ==> Matches(f, e)
  {
    var matching := Matching(store, f);
    forall e | e in multiset(SortNewestFirst(matching)) ensures Matches(f, e) {
      assert e in multiset(matching);
      var i :| 0 <= i < |matching| && matching[i] == e;
    }
  }

  /** The number of pages of the listing under filter `f`. */
  function TotalPages(store: seq<Entry>, f: Filter): (pages: nat)
    ensures pages * PAGE_SIZE >= |Matching(store, f)|
    ensures pages == 0 || (pages - 1) * PAGE_SIZE < |Matching(store, f)|
    ensures pages == 0 <==> |Matching(store, f)| == 0
  {
    PagesCoverMatches(|Matching(store, f)|, 1);
    CeilDiv(|Matching(store, f)|, PAGE_SIZE)
  }

  /** A listing of a page below 1, or of a page whose OFFSET does not fit in
      a `bigint`, fails in the store and is answered with the error message;
      any other page reads the page and the count and replies with exactly
      that page's rows and the page count over the same filters. */
  lemma {:induction false} ShowFeedbacksReply(page: int, f: Filter, store: seq<Entry>, cfg: Config)
    ensures page < 1 || page > MAX_PAGE ==>
      ShowFeedbacks(page, f, store, cfg)
        == [ReadPage(BuildFetch(page, f).sql, BuildFetch(page, f).params), Reply(DB_ERROR, [])]
    ensures 1 <= page <= MAX_PAGE ==>
      ShowFeedbacks(page, f, store, cfg)
        == [ ReadPage(BuildFetch(page, f).sql, BuildFetch(page, f).params),
             ReadCount(CountConditions(f)),
             Reply(Body(PageRows(store, f, page), cfg.showDate), Keyboard(page, TotalPages(store, f))) ]
  {
    FetchPage(page, f, store);
    CountMatchesFetch(page, f, store);
  }

  /** When nothing matches there are no pages, and every page the store
      accepts shows the no-feedback placeholder. */
  lemma {:induction false} EmptyListing(page: int, f: Filter, store: seq<Entry>, cfg: Config)
    requires |Matching(store, f)| == 0
    ensures TotalPages(store, f) == 0
    ensures 1 <= page <= MAX_PAGE ==>
      ShowFeedbacks(page, f, store, cfg)[2] == Reply(NO_FEEDBACK, Keyboard(page, 0))
  {
    if 1 <= page <= MAX_PAGE {
      ShowFeedbacksReply(page, f, store, cfg);
    }
  }

  /** Page 2 of 23 matching rows lists rows 11 to 20 of the newest-first
      order, and there are 3 pages. */
  lemma {:induction false} SecondPageOfTwentyThree(store: seq<Entry>, f: Filter)
    requires |Matching(store, f)| == 23
    ensures TotalPages(store, f) == 3
    ensures PageRows(store, f, 2) == SortNewestFirst(Matching(store, f))[10..20]
  {
    var rows := PageRows(store, f, 2);
    var sorted := SortNewestFirst(Matching(store, f));
    assert |rows| == 10;
    assert forall k :: 0 <= k < 10 ==> rows[k] == sorted[10 + k];
  }

  // ---------------------------------------------------------------------
  // The handlers

  /** The handler of a button press. */
  function HandleAction(session: Session, from: int, a: Action, store: seq<Entry>, cfg: Config, now: int): (r: Outcome)
    ensures forall i :: 0 <= i < |r.effects| ==> !r.effects[i].Save?
  {
    match a
    case Prev(n) =>
      if n > 1 then Outcome(session, ShowFeedbacks(n - 1, NoFilter, store, cfg))
      else Outcome(session, [AnswerCallback(FIRST_PAGE)])
    case Next(n) => Outcome(session, ShowFeedbacks(n + 1, NoFilter, store, cfg))
    case Refresh(n) => Outcome(session, ShowFeedbacks(n, NoFilter, store, cfg))
    case Choose(k) =>
      if CanSubmit(store, from, now) then Outcome(Awaiting(k), [ReadLatest(from), Reply(PROMPT, [])])
      else Outcome(session, [ReadLatest(from), Reply(TOO_SOON, [])])
  }

  /** The handler of a text message: while a type is chosen the text becomes
      that feedback — reply, save, notify, in that order — and the session is
      cleared; while idle nothing happens. */
  function HandleText(session: Session, from: int, text: string): (r: Outcome)
    ensures r.session == Idle
    ensures session.Idle? <==> |r.effects| == 0
    ensures forall i :: 0 <= i < |r.effects| ==> !IsRead(r.effects[i])
    ensures SaveCount(r.effects) == if session.Awaiting? then 1 else 0
    ensures forall i :: 0 <= i < |r.effects| && r.effects[i].Save? ==>
              r.effects[i] == Save(session.feedbackType, text, from)
    ensures session.Awaiting? ==>
              && r.effects[0] == Reply(THANKS, [])
              && r.effects[|r.effects| - 1] == NotifyAdmin(NotifyText(session.feedbackType, text))
  {
    match session
    case Idle => Outcome(Idle, [])
    case Awaiting(k) =>
      var effects := [Reply(THANKS, []), Save(k, text, from), NotifyAdmin(NotifyText(k, text))];
      SaveOnce(effects[0], effects[1], effects[2]);
      Outcome(Idle, effects)
  }

  /** The number of `Save` effects. */
  function SaveCount(effects: seq<Effect>): nat
  {
    if |effects| == 0 then 0
    else (if effects[0].Save? then 1 else 0) + SaveCount(effects[1..])
  }

  lemma {:induction false} SaveOnce(a: Effect, b: Effect, c: Effect)
    requires !a.Save? && b.Save? && !c.Save?
    ensures SaveCount([a, b, c]) == 1
  {
    assert [a, b, c][1..] == [b, c];
    assert [b, c][1..] == [c];
    assert [c][1..] == [];
    assert SaveCount([c]) == 0;
    assert SaveCount([b, c]) == 1;
  }

  /** Effects without a save count no saves. */
  lemma {:induction false} NoSaves(effects: seq<Effect>)
    requires forall i :: 0 <= i < |effects| ==> !effects[i].Save?
    ensures SaveCount(effects) == 0
  {
    if |effects| > 0 {
      NoSaves(effects[1..]);
    }
  }

  /** What any update from user `from` at time `now` may do to a session
      and the store: at most one feedback is saved, it is saved for the
      sender with the type the session held and the session is then idle; the
      session only ever moves to "awaiting" when the rate limiter allows it,
      and only ever back to idle by a save. */
  ghost predicate Disciplined(session: Session, from: int, store: seq<Entry>, now: int, r: Outcome)
  {
    && SaveCount(r.effects) <= 1
    && (forall i :: 0 <= i < |r.effects| && r.effects[i].Save? ==>
          && session.Awaiting?
          && r.effects[i] == Save(session.feedbackType, r.effects[i].text, from)
          && r.session == Idle)
    && (r.session != session ==>
          || (r.session.Awaiting? && CanSubmit(store, from, now))
          || (r.session == Idle && SaveCount(r.effects) == 1))
  }

  /** The bot's reaction to one update from user `from` at time `now`. */
  function Handle(session: Session, from: int, ev: Event, store: seq<Entry>, cfg: Config, now: int): (r: Outcome)
    ensures Disciplined(session, from, store, now, r)
  {
    match ev
    case StartCommand => Outcome(session, [Reply(GREETING, START_KEYBOARD)])
    case ShowFeedbacksCommand(text) =>
      if IsAdmin(cfg, from) then
        var effects := ShowFeedbacks(CommandPage(text), NoFilter, store, cfg);
        NoSaves(effects);
        Outcome(session, effects)
      else Outcome(session, [Reply(NO_ACCESS, [])])
    case CallbackQuery(data) =>
      (match ParseCallback(data)
       case None => Outcome(session, [])
       case Some(a) =>
         var r := HandleAction(session, from, a, store, cfg, now);
         NoSaves(r.effects);
         r)
    case TextMessage(text) =>
      HandleText(session, from, text)
  }
}
