/**
 * handlers/admin.py: the administrator's commands. `/announce <text>` sends
 * the text, under a header in each user's language, to every stored user and
 * reports how many sends succeeded, failed, or met a user who blocked the
 * bot. `/cleanup` only answers. The Telegram API is a parameter: `deliver`
 * says what happens to a send to a given user.
 */
module Admin {
  import opened Wrappers
  import opened Text
  import Utils

  /** `ADMIN_ID` when the environment does not set it. */
  const DefaultAdminId: int := 7021944306

  /** `is_admin`: an `ADMIN_ID` of 0 means no administrator is configured, so nobody is one. */
  function IsAdmin(adminId: int, userId: int): (r: bool)
    ensures r <==> adminId != 0 && userId == adminId
  {
    if adminId == 0 then false else userId == adminId
  }

  /** With the default `ADMIN_ID`, exactly that user is the administrator. */
  lemma DefaultAdmin(userId: int)
    ensures IsAdmin(DefaultAdminId, userId) <==> userId == 7021944306
  {
  }

  // ----- the announcement's text -----

  /** `message.text.replace('/announce', '').strip()` */
  function AnnouncementText(text: string): string
  {
    Strip(RemoveAll(text, "/announce"))
  }

  /**
   * For a command followed by a body that does not repeat the command, the
   * announcement is the stripped body.
   */
  lemma AnnouncementOfCommand(body: string)
    requires !Contains(body, "/announce")
    ensures AnnouncementText("/announce" + body) == Strip(body)
  {
    var s := "/announce" + body;
    assert s[0..9] == "/announce";
    assert IndexOf(s, "/announce") == Some(0);
    assert s[9..] == body;
    calc {
      RemoveAll(s, "/announce");
      s[..0] + RemoveAll(s[9..], "/announce");
      RemoveAll(body, "/announce");
      body;
    }
  }

  /** The bare command announces nothing, so it is refused. */
  lemma BareCommandIsEmpty()
    ensures AnnouncementText("/announce") == ""
  {
    AnnouncementOfCommand("");
    assert "/announce" + "" == "/announce";
  }

  /** `get_announcement_header`: the header for "ua", "ru" or "en"; any other language gets the Ukrainian one. */
  function AnnouncementHeader(lang: string): (r: string)
    ensures r == "ОГОЛОШЕННЯ" || r == "ОБЪЯВЛЕНИЕ" || r == "ANNOUNCEMENT"
  {
    if lang == "ru" then "ОБЪЯВЛЕНИЕ"
    else if lang == "en" then "ANNOUNCEMENT"
    else "ОГОЛОШЕННЯ"
  }

  /**
   * The three known languages get three different headers, and every other
   * language gets the same header as "ua".
   */
  lemma HeaderByLanguage(lang: string)
    ensures AnnouncementHeader("ua") != AnnouncementHeader("ru")
    ensures AnnouncementHeader("ua") != AnnouncementHeader("en")
    ensures AnnouncementHeader("ru") != AnnouncementHeader("en")
    ensures lang != "ru" && lang != "en" ==> AnnouncementHeader(lang) == AnnouncementHeader("ua")
  {
    assert "ОГОЛОШЕННЯ"[1] != "ОБЪЯВЛЕНИЕ"[1];
    assert "ОГОЛОШЕННЯ"[0] != "ANNOUNCEMENT"[0];
    assert "ОБЪЯВЛЕНИЕ"[0] != "ANNOUNCEMENT"[0];
  }

  /** `f"📢 {get_announcement_header(user_lang)}:\n\n{announcement_text}"` */
  function PersonalText(lang: string, announcement: string): string
  {
    "\U{1F4E2} " + AnnouncementHeader(lang) + ":\n\n" + announcement
  }

  /** Each user's message starts with the loudspeaker and ends with the announcement unchanged. */
  lemma PersonalTextCarries(lang: string, announcement: string)
    ensures StartsWith(PersonalText(lang, announcement), "\U{1F4E2} ")
    ensures EndsWith(PersonalText(lang, announcement), announcement)
    ensures |PersonalText(lang, announcement)| > |announcement|
  {
    var p := PersonalText(lang, announcement);
    var head := "\U{1F4E2} " + AnnouncementHeader(lang) + ":\n\n";
    assert p == head + announcement;
    assert p[..2] == "\U{1F4E2} ";
    assert p[|p| - |announcement|..] == announcement;
  }

  // ----- the broadcast -----

  /** What Telegram does with one send: the message arrives, or the call raises with an error text. */
  datatype Delivery = Delivered | Refused(error: string)

  /** The counters of the broadcast loop, and how many one-second pauses it took. */
  datatype Tally = Tally(success: nat, failed: nat, blocked: nat, pauses: nat)

  /**
   * An error counts as a blocked user when its lower-cased text contains
   * "blocked"; the second test, for "bot was blocked", adds nothing to it.
   */
  predicate IsBlocked(error: string)
  {
    Contains(LowerAscii(error), "blocked")
  }

  /** One turn of the loop: a delivery counts a success and pauses after every tenth; an error counts blocked or failed. */
  function Count(t: Tally, d: Delivery): Tally
  {
    match d
    case Delivered =>
      var s := t.success + 1;
      t.(success := s, pauses := t.pauses + if s % 10 == 0 then 1 else 0)
    case Refused(e) =>
      if IsBlocked(e) then t.(blocked := t.blocked + 1) else t.(failed := t.failed + 1)
  }

  /** The counters after the loop has seen `ds`, in order. */
  function TallyOf(ds: seq<Delivery>): Tally
  {
    if ds == [] then Tally(0, 0, 0, 0)
    else Count(TallyOf(ds[..|ds| - 1]), ds[|ds| - 1])
  }

  lemma TallyStep(ds: seq<Delivery>, d: Delivery)
    ensures TallyOf(ds + [d]) == Count(TallyOf(ds), d)
  {
    assert (ds + [d])[..|ds|] == ds;
  }

  /** How many of `ds` arrived. */
  function NumDelivered(ds: seq<Delivery>): nat
  {
    if ds == [] then 0
    else (if ds[0].Delivered? then 1 else 0) + NumDelivered(ds[1..])
  }

  /** How many of `ds` failed with an error naming a block. */
  function NumBlocked(ds: seq<Delivery>): nat
  {
    if ds == [] then 0
    else (if ds[0].Refused? && IsBlocked(ds[0].error) then 1 else 0) + NumBlocked(ds[1..])
  }

  lemma {:induction false} CountsAppend(ds: seq<Delivery>, d: Delivery)
    ensures NumDelivered(ds + [d]) == NumDelivered(ds) + if d.Delivered? then 1 else 0
    ensures NumBlocked(ds + [d]) == NumBlocked(ds) + if d.Refused? && IsBlocked(d.error) then 1 else 0
  {
    if ds != [] {
      assert (ds + [d])[1..] == ds[1..] + [d];
      CountsAppend(ds[1..], d);
    } else {
      assert [] + [d] == [d];
    }
  }

  /** One more success adds a pause exactly when it makes a multiple of ten. */
  lemma PauseStep(s: nat)
    ensures (s + 1) / 10 == s / 10 + if (s + 1) % 10 == 0 then 1 else 0
  {
  }

  /** One turn of the loop counts the send once and keeps the pauses at one per ten successes. */
  lemma CountKeepsMeaning(t: Tally, d: Delivery)
    requires t.pauses == t.success / 10
    ensures var t' := Count(t, d);
      && t'.success == t.success + (if d.Delivered? then 1 else 0)
      && t'.blocked == t.blocked + (if d.Refused? && IsBlocked(d.error) then 1 else 0)
      && t'.success + t'.failed + t'.blocked == t.success + t.failed + t.blocked + 1
      && t'.pauses == t'.success / 10
  {
    if d.Delivered? {
      PauseStep(t.success);
    }
  }

  /**
   * Every send is counted exactly once: the successes are the deliveries,
   * the blocked are the errors naming a block, the three counters add up to
   * the number of users, and the loop paused once per ten successes.
   */
  lemma {:induction false} TallyMeaning(ds: seq<Delivery>)
    ensures var t := TallyOf(ds);
      && t.success == NumDelivered(ds)
      && t.blocked == NumBlocked(ds)
      && t.success + t.failed + t.blocked == |ds|
      && t.pauses == t.success / 10
  {
    if ds != [] {
      var init := ds[..|ds| - 1];
      var d := ds[|ds| - 1];
      assert ds == init + [d];
      TallyMeaning(init);
      CountsAppend(init, d);
      CountKeepsMeaning(TallyOf(init), d);
    }
  }

  /** The deliveries of a send to each of `users`, in order. */
  function Deliveries(users: seq<int>, deliver: int -> Delivery): (r: seq<Delivery>)
    ensures |r| == |users|
    ensures forall i :: 0 <= i < |users| ==> r[i] == deliver(users[i])
  {
    seq(|users|, i requires 0 <= i < |users| => deliver(users[i]))
  }

  /** The messages sent: each user, in order, with the announcement under the header of that user's stored language. */
  function Sends(users: seq<int>, langOf: int -> Utils.DbCall<string>, announcement: string): (r: seq<(int, string)>)
    ensures |r| == |users|
    ensures forall i :: 0 <= i < |users| ==>
      r[i] == (users[i], PersonalText(Utils.UserLanguageSafe(langOf(users[i])), announcement))
  {
    seq(|users|, i requires 0 <= i < |users| => (users[i], PersonalText(Utils.UserLanguageSafe(langOf(users[i])), announcement)))
  }

  lemma PrefixGrows<T>(s: seq<T>, i: nat)
    requires i <= |s|
    ensures i < |s| ==> s[..i + 1] == s[..i] + [s[i]]
    ensures i == |s| ==> s[..i] == s
  {
  }

  /**
   * The loop over the users: the message is built in the user's language and
   * sent, and the outcome is counted.
   */
  method Broadcast(users: seq<int>, announcement: string, langOf: int -> Utils.DbCall<string>, deliver: int -> Delivery)
    returns (t: Tally, sent: seq<(int, string)>)
    ensures t == TallyOf(Deliveries(users, deliver))
    ensures sent == Sends(users, langOf, announcement)
  {
    ghost var all := Deliveries(users, deliver);
    ghost var msgs := Sends(users, langOf, announcement);
    t := Tally(0, 0, 0, 0);
    sent := [];
    var i := 0;
    while i < |users|
      invariant 0 <= i <= |users|
      invariant t == TallyOf(all[..i])
      invariant sent == msgs[..i]
    {
      var u := users[i];
      var lang := Utils.UserLanguageSafe(langOf(u));
      sent := sent + [(u, PersonalText(lang, announcement))];
      t := Count(t, deliver(u));
      PrefixGrows(all, i);
      TallyStep(all[..i], all[i]);
      PrefixGrows(msgs, i);
      i := i + 1;
    }
    PrefixGrows(all, i);
    PrefixGrows(msgs, i);
  }

  /**
   * What the loop sees of a send as written: `send_message_to_user`
   * (utils.py) catches every exception and only logs it, so each call
   * returns normally and the loop's `except` branch is never taken.
   */
  function SeenAsWritten(d: Delivery): (r: Delivery)
    ensures r.Delivered?
  {
    Delivered
  }

  /** The counters of the loop as written. */
  function TallyAsWritten(ds: seq<Delivery>): Tally
  {
    TallyOf(seq(|ds|, i requires 0 <= i < |ds| => SeenAsWritten(ds[i])))
  }

  lemma {:induction false} AllDelivered(ds: seq<Delivery>)
    requires forall i :: 0 <= i < |ds| ==> ds[i].Delivered?
    ensures NumDelivered(ds) == |ds|
  {
    if ds != [] {
      AllDelivered(ds[1..]);
    }
  }

  /** As written, every user counts as a success: failures and blocks always read 0. */
  lemma AsWrittenAllSucceed(ds: seq<Delivery>)
    ensures TallyAsWritten(ds) == Tally(|ds|, 0, 0, |ds| / 10)
  {
    var seen := seq(|ds|, i requires 0 <= i < |ds| => SeenAsWritten(ds[i]));
    TallyMeaning(seen);
    AllDelivered(seen);
  }

  /** An error whose text contains "blocked" in lower case counts as a blocked user. */
  lemma BlockedInError(p: string, q: string)
    ensures IsBlocked(p + "blocked" + q)
  {
    var s := p + "blocked" + q;
    var low := LowerAscii(s);
    forall k | |p| <= k < |p| + 7
      ensures low[k] == s[k]
    {
      assert s[k] == "blocked"[k - |p|];
    }
    assert low[|p|..|p| + 7] == s[|p|..|p| + 7] == "blocked";
    assert OccursAt(low, "blocked", |p|);
  }

  /**
   * A user who blocked the bot, for whom Telegram raises an error such as
   * "Forbidden: bot was blocked by the user", is reported as a success as
   * written, and as blocked by the loop's own `except`.
   */
  lemma BlockedUserMiscounted(p: string, q: string)
    ensures TallyAsWritten([Refused(p + "blocked" + q)]) == Tally(1, 0, 0, 0)
    ensures TallyOf([Refused(p + "blocked" + q)]) == Tally(0, 0, 1, 0)
  {
    var ds := [Refused(p + "blocked" + q)];
    AsWrittenAllSucceed(ds);
    BlockedInError(p, q);
    TallyStep([], ds[0]);
    assert [] + [ds[0]] == ds;
  }

  // ----- the /announce command -----

  /** The answers of the admin handlers, in the order they are sent. */
  datatype AdminReply =
    | NoRights                          // "❌ Недостаточно прав"
    | AdminPanelWorks                   // "✅ Админка работает!"
    | NotAdmin                          // "❌ Не админ"
    | NeedText                          // "❌ Напиши текст: /announce ваш_текст"
    | NoDatabase                        // "❌ База данных недоступна"
    | NoUsers                           // "❌ Нет пользователей для рассылки"
    | Broadcasting(count: nat)          // "📢 Рассылаю {n} юзерам..."
    | Report(tally: Tally, total: nat)  // "✅ Рассылка завершена!" and the four counters
    | BroadcastFailed                   // "❌ Ошибка рассылки: {e}"
    | CleanupPending                    // "🧹 Очистка кэша... (в разработке)"

  /**
   * `/announce` as registered: two handlers are registered for the command
   * and the first one handles it, so a non-administrator is told they lack
   * rights and the administrator is only told the panel works.
   */
  function AnnounceAsWritten(adminId: int, userId: int): (r: seq<AdminReply>)
    ensures |r| == 1
    ensures r[0] == NoRights <==> !IsAdmin(adminId, userId)
    ensures r[0] == AdminPanelWorks <==> IsAdmin(adminId, userId)
  {
    if !IsAdmin(adminId, userId) then [NoRights] else [AdminPanelWorks]
  }

  /**
   * The second `/announce` handler: a non-administrator and an empty
   * announcement are refused; a missing store, a failing user query and an
   * empty user list each stop with their message; otherwise the count of
   * users is announced, every user is sent the message, and the counters
   * are reported with the number of users.
   */
  function AnnounceReplies(adminId: int, userId: int, text: string, users: Utils.DbCall<seq<int>>,
                           deliver: int -> Delivery): seq<AdminReply>
  {
    if !IsAdmin(adminId, userId) then [NotAdmin]
    else if AnnouncementText(text) == "" then [NeedText]
    else match users
      case NoDb => [NoDatabase]
      case DbRaised => [BroadcastFailed]
      case DbReturned(us) =>
        if us == [] then [NoUsers]
        else [Broadcasting(|us|), Report(TallyOf(Deliveries(us, deliver)), |us|)]
  }

  /** The messages the second handler sends to users: none unless the broadcast runs. */
  function AnnounceSends(adminId: int, userId: int, text: string, users: Utils.DbCall<seq<int>>,
                         langOf: int -> Utils.DbCall<string>): seq<(int, string)>
  {
    if IsAdmin(adminId, userId) && AnnouncementText(text) != "" && users.DbReturned?
    then Sends(users.value, langOf, AnnouncementText(text))
    else []
  }

  /** The second `/announce` handler, with its loop over the users. */
  method Announce(adminId: int, userId: int, text: string, users: Utils.DbCall<seq<int>>,
                  langOf: int -> Utils.DbCall<string>, deliver: int -> Delivery)
    returns (replies: seq<AdminReply>, sent: seq<(int, string)>)
    ensures replies == AnnounceReplies(adminId, userId, text, users, deliver)
    ensures sent == AnnounceSends(adminId, userId, text, users, langOf)
  {
    if !IsAdmin(adminId, userId) {
      return [NotAdmin], [];
    }
    var announcement := AnnouncementText(text);
    if announcement == "" {
      return [NeedText], [];
    }
    match users
    case NoDb =>
      replies, sent := [NoDatabase], [];
    case DbRaised =>
      replies, sent := [BroadcastFailed], [];
    case DbReturned(us) =>
      if us == [] {
        replies, sent := [NoUsers], [];
      } else {
        var t;
        t, sent := Broadcast(us, announcement, langOf, deliver);
        replies := [Broadcasting(|us|), Report(t, |us|)];
      }
  }

  /**
   * The broadcast runs exactly when an administrator announces a non-empty
   * text to a non-empty user list; then each user receives one message
   * carrying the announcement, and the report's counters add up to the
   * number of users.
   */
  lemma AnnounceMeaning(adminId: int, userId: int, text: string, users: Utils.DbCall<seq<int>>,
                        langOf: int -> Utils.DbCall<string>, deliver: int -> Delivery)
    ensures var sends := AnnounceSends(adminId, userId, text, users, langOf);
      var runs := IsAdmin(adminId, userId) && AnnouncementText(text) != "" && users.DbReturned? && users.value != [];
      && (sends != [] <==> runs)
      && (runs ==>
            && |sends| == |users.value|
            && forall i :: 0 <= i < |sends| ==> sends[i].0 == users.value[i] && EndsWith(sends[i].1, AnnouncementText(text)))
    ensures var replies := AnnounceReplies(adminId, userId, text, users, deliver);
      && |replies| >= 1
      && (!IsAdmin(adminId, userId) ==> replies == [NotAdmin])
      && (replies[|replies| - 1].Report? ==>
            var t := replies[|replies| - 1].tally;
            t.success + t.failed + t.blocked == replies[|replies| - 1].total && t.pauses == t.success / 10)
  {
    if IsAdmin(adminId, userId) && AnnouncementText(text) != "" && users.DbReturned? && users.value != [] {
      var us := users.value;
      var a := AnnouncementText(text);
      forall i | 0 <= i < |us|
        ensures EndsWith(Sends(us, langOf, a)[i].1, a)
      {
        PersonalTextCarries(Utils.UserLanguageSafe(langOf(us[i])), a);
      }
      TallyMeaning(Deliveries(us, deliver));
    }
  }

  /**
   * As registered, `/announce` never broadcasts: the administrator with a
   * text and users to send to is told the panel works, where the second
   * handler would have announced the broadcast.
   */
  lemma AnnounceShadowed(adminId: int, text: string, us: seq<int>, deliver: int -> Delivery)
    requires adminId != 0 && AnnouncementText(text) != "" && us != []
    ensures AnnounceAsWritten(adminId, adminId) == [AdminPanelWorks]
    ensures AnnounceReplies(adminId, adminId, text, Utils.DbReturned(us), deliver)[0] == Broadcasting(|us|)
  {
  }

  // ----- the /cleanup command -----

  /** `/cleanup`: the administrator is told cleaning is not implemented yet; anybody else is refused. */
  function CleanupReplies(adminId: int, userId: int): (r: seq<AdminReply>)
    ensures r == [CleanupPending] <==> IsAdmin(adminId, userId)
    ensures r == [NotAdmin] <==> !IsAdmin(adminId, userId)
  {
    if !IsAdmin(adminId, userId) then [NotAdmin] else [CleanupPending]
  }
}
