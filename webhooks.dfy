/**
 * The inbound-message handler (src/routes/webhooks.ts): validate the form,
 * find or create the sender, log the message, recognise a morning check-in
 * (strictly, then through the language model), store it and the generated
 * plan, reply, and log the reply when it was delivered.
 *
 * Everything the handler obtains from outside is a parameter: the form, the
 * provider's answers to the three prompts, the JSON decoder, the result of
 * the delivery (a message id or none) and the clock reading `now`.
 */
module Webhooks {
  import opened Wrappers
  import opened Text
  import Checkin
  import Db
  import Twilio

  /** The HTTP answer: 400 for an unusable form, otherwise success with the delivery id. */
  datatype Response = BadRequest | Success(messageSid: Option<string>)

  const PlanGreeting := "Good morning! Here's your personalized daily plan:\n\n"

  /** `new Date().toISOString().slice(0, 10)`: the first ten characters of the clock reading. */
  function DateOf(now: string): (r: string)
    ensures |r| == if |now| < 10 then |now| else 10
    ensures now == r + now[|r|..]
  {
    if |now| < 10 then now else now[..10]
  }

  /** `(profile_name || '').trim()`, and null when that is empty. */
  function ProfileNameOrNull(profileName: string): (r: Option<string>)
    ensures r.None? <==> Trim(profileName) == ""
    ensures r.Some? ==> r.value == Trim(profileName) && IsTrimmed(r.value)
  {
    var name := Trim(profileName);
    if name == "" then None else Some(name)
  }

  /** `if (messageSid)`: a missing id and an empty one both count as not delivered. */
  predicate Delivered(delivery: Option<string>) {
    delivery.Some? && delivery.value != ""
  }

  /** A form the handler goes on with: both the sender and the text are non-empty. */
  predicate Usable(m: Twilio.IncomingMessage) {
    m.from != "" && m.body != ""
  }

  /**
   * The text sent back for a message: the greeting and the generated plan
   * for a check-in, the general answer otherwise.
   */
  function ReplyText(checkin: Option<Checkin.MorningCheckin>, plan: string, general: string): (r: string)
    ensures checkin.Some? ==> |r| == |PlanGreeting| + |plan| && r[..|PlanGreeting|] == PlanGreeting && r[|PlanGreeting|..] == plan
    ensures checkin.None? ==> r == general
  {
    if checkin.Some? then PlanGreeting + plan else general
  }

  // ---------------------------------------------------------------------------
  // The handler as a function of the tables
  // ---------------------------------------------------------------------------

  /** What handling a usable message leaves: the tables, the sender's user row and the reply. */
  datatype Outcome = Outcome(tables: Db.Tables, user: Db.UserRecord, reply: string)

  /** The day's two writes for a recognised check-in: the check-in, then null and the plan. */
  function CheckinWrites(t: Db.Tables, userId: nat, today: string, checkin: Checkin.MorningCheckin, plan: string, now: string)
    : (r: Db.Tables)
    ensures r.users == t.users && r.nextUserId == t.nextUserId
    ensures r.messages == t.messages && r.nextMessageId == t.nextMessageId
    ensures Db.TablesValid(t) ==> Db.TablesValid(r)
  {
    var morning := Db.DailyLogWritten(t, userId, today, Some(Db.CheckinPayload(checkin)), None, now).0;
    Db.DailyLogWritten(morning, userId, today, None, Some(Db.PlanPayload(plan)), now).0
  }

  /** The day's writes touch no row of another user or another day. */
  lemma CheckinWritesOtherKeys(t: Db.Tables, userId: nat, today: string, checkin: Checkin.MorningCheckin, plan: string,
                               now: string, otherUser: nat, otherDate: string)
    requires otherUser != userId || otherDate != today
    ensures Db.LogFor(CheckinWrites(t, userId, today, checkin, plan, now).dailyLogs, otherUser, otherDate)
         == Db.LogFor(t.dailyLogs, otherUser, otherDate)
  {
    var morning := Db.DailyLogWritten(t, userId, today, Some(Db.CheckinPayload(checkin)), None, now).0;
    Db.UpsertOtherKeys(t.dailyLogs, t.nextLogId, userId, today, Some(Db.CheckinPayload(checkin)), None, now, otherUser, otherDate);
    Db.UpsertOtherKeys(morning.dailyLogs, morning.nextLogId, userId, today, None, Some(Db.PlanPayload(plan)), now, otherUser, otherDate);
  }

  /**
   * Lines 15-52 of the handler for a usable message: the sender's row (found
   * or created), the inbound log entry, the day's writes for a check-in, and
   * the outbound log entry when the reply was delivered.
   */
  function Handled(t: Db.Tables, m: Twilio.IncomingMessage, checkin: Option<Checkin.MorningCheckin>,
                   plan: string, general: string, delivery: Option<string>, now: string)
    : (r: Outcome)
    ensures r.reply == ReplyText(checkin, plan, general)
    ensures Db.UserWithPhone(r.tables.users, Db.NormalizePhone(m.from)) == Some(r.user)
    ensures Db.TablesValid(t) ==> Db.TablesValid(r.tables)
  {
    var (afterSender, user) := Db.UserCreated(t, m.from, ProfileNameOrNull(m.profileName), Db.DefaultTimezone, now);
    var afterInbound := Db.MessageLogged(afterSender, user.id, Db.Inbound, m.body, now).0;
    var afterDay :=
      if checkin.Some? then CheckinWrites(afterInbound, user.id, DateOf(now), checkin.value, plan, now)
      else afterInbound;
    var reply := ReplyText(checkin, plan, general);
    var afterReply := if Delivered(delivery) then Db.MessageLogged(afterDay, user.id, Db.Outbound, reply, now).0 else afterDay;
    Outcome(afterReply, user, reply)
  }

  /**
   * The sender's row: an existing user is kept as it is; otherwise one is
   * appended with the normalised phone, the trimmed profile name (null when
   * empty) and the default time zone.
   */
  lemma HandledSender(t: Db.Tables, m: Twilio.IncomingMessage, checkin: Option<Checkin.MorningCheckin>,
                      plan: string, general: string, delivery: Option<string>, now: string)
    ensures var r := Handled(t, m, checkin, plan, general, delivery, now);
      && (Db.UserWithPhone(t.users, Db.NormalizePhone(m.from)).Some? ==>
            r.user == Db.UserWithPhone(t.users, Db.NormalizePhone(m.from)).value && r.tables.users == t.users)
      && (Db.UserWithPhone(t.users, Db.NormalizePhone(m.from)).None? ==>
            && r.user == Db.UserRecord(t.nextUserId, Db.NormalizePhone(m.from), ProfileNameOrNull(m.profileName),
                                       Db.DefaultTimezone, now)
            && r.tables.users == t.users + [r.user])
  {
  }

  /** The reply goes to the WhatsApp address of the phone stored for the sender. */
  lemma HandledReplyAddress(t: Db.Tables, m: Twilio.IncomingMessage, checkin: Option<Checkin.MorningCheckin>,
                            plan: string, general: string, delivery: Option<string>, now: string)
    ensures Twilio.Destination(m.from) == Db.WhatsAppPrefix + Handled(t, m, checkin, plan, general, delivery, now).user.phone
  {
  }

  /** The inbound text is always logged; the reply only when it was delivered. */
  lemma HandledMessages(t: Db.Tables, m: Twilio.IncomingMessage, checkin: Option<Checkin.MorningCheckin>,
                        plan: string, general: string, delivery: Option<string>, now: string)
    ensures var r := Handled(t, m, checkin, plan, general, delivery, now);
      var inbound := Db.MessageRecord(t.nextMessageId, r.user.id, Db.Inbound, m.body, now);
      var outbound := Db.MessageRecord(t.nextMessageId + 1, r.user.id, Db.Outbound, r.reply, now);
      && (!Delivered(delivery) ==> r.tables.messages == t.messages + [inbound])
      && (Delivered(delivery) ==> r.tables.messages == t.messages + [inbound] + [outbound])
  {
    var r := Handled(t, m, checkin, plan, general, delivery, now);
    var (afterSender, user) := Db.UserCreated(t, m.from, ProfileNameOrNull(m.profileName), Db.DefaultTimezone, now);
    assert user == r.user;
    var afterInbound := Db.MessageLogged(afterSender, user.id, Db.Inbound, m.body, now).0;
    assert afterInbound.messages == t.messages + [Db.MessageRecord(t.nextMessageId, user.id, Db.Inbound, m.body, now)];
    assert afterInbound.nextMessageId == t.nextMessageId + 1;
  }

  /**
   * After a check-in the day's row holds the plan and no check-in: the
   * second write replaces the first instead of merging with it.
   */
  lemma HandledCheckinRow(t: Db.Tables, m: Twilio.IncomingMessage, checkin: Checkin.MorningCheckin,
                          plan: string, general: string, delivery: Option<string>, now: string)
    ensures var r := Handled(t, m, Some(checkin), plan, general, delivery, now);
      var row := Db.LogFor(r.tables.dailyLogs, r.user.id, DateOf(now));
      && row.Some?
      && row.value.amJson == None
      && row.value.pmJson == Some(Db.PlanPayload(plan))
      && row.value.updatedAt == now
  {
  }

  /** A message that is not a check-in leaves the daily logs as they were. */
  lemma HandledNoCheckin(t: Db.Tables, m: Twilio.IncomingMessage,
                         plan: string, general: string, delivery: Option<string>, now: string)
    ensures Handled(t, m, None, plan, general, delivery, now).tables.dailyLogs == t.dailyLogs
  {
  }

  /** No daily-log row of another user or another day changes. */
  lemma HandledOtherDays(t: Db.Tables, m: Twilio.IncomingMessage, checkin: Option<Checkin.MorningCheckin>,
                         plan: string, general: string, delivery: Option<string>, now: string,
                         userId: nat, date: string)
    requires userId != Handled(t, m, checkin, plan, general, delivery, now).user.id || date != DateOf(now)
    ensures Db.LogFor(Handled(t, m, checkin, plan, general, delivery, now).tables.dailyLogs, userId, date)
         == Db.LogFor(t.dailyLogs, userId, date)
  {
    var user := Handled(t, m, checkin, plan, general, delivery, now).user;
    var (afterSender, _) := Db.UserCreated(t, m.from, ProfileNameOrNull(m.profileName), Db.DefaultTimezone, now);
    var afterInbound := Db.MessageLogged(afterSender, user.id, Db.Inbound, m.body, now).0;
    if checkin.Some? {
      CheckinWritesOtherKeys(afterInbound, user.id, DateOf(now), checkin.value, plan, now, userId, date);
    }
  }

  // ---------------------------------------------------------------------------
  // The handler over the store
  // ---------------------------------------------------------------------------

  /**
   * Lines 27-32 of the handler: the strict parse, and the flexible one when
   * that fails. Since the flexible parser starts with the strict one, this is
   * exactly one flexible parse.
   */
  method RecogniseCheckin(body: string, extraction: Checkin.LlmOutcome, jsonParse: string -> Checkin.Decoded)
    returns (checkin: Option<Checkin.MorningCheckin>)
    ensures checkin == Checkin.ParseFlexible(body, extraction, jsonParse)
    ensures Checkin.ParseStrict(body).Some? ==> checkin == Checkin.ParseStrict(body)
  {
    checkin := Checkin.ParseStrict(body);
    if checkin.None? {
      checkin := Checkin.ParseFlexible(body, extraction, jsonParse);
    }
  }

  /** Lines 19-23 of the handler: the sender's user row, found or created. */
  method SenderOf(db: Db.Database, phone: string, profileName: string, now: string) returns (user: Db.UserRecord)
    requires db.Valid()
    modifies db
    ensures db.Valid()
    ensures (db.State(), user) == Db.UserCreated(old(db.State()), phone, ProfileNameOrNull(profileName), Db.DefaultTimezone, now)
  {
    var found := db.GetUserByPhone(phone);
    if found.None? {
      user := db.CreateUser(phone, ProfileNameOrNull(profileName), now);
    } else {
      user := found.value;
    }
  }

  /** Lines 35-38 of the handler: store the check-in, then the plan, for the day. */
  method StoreCheckinAndPlan(db: Db.Database, userId: nat, today: string, checkin: Checkin.MorningCheckin,
                             planLlm: Checkin.LlmOutcome, now: string) returns (plan: string)
    requires db.Valid()
    modifies db
    ensures db.Valid()
    ensures plan == Checkin.GenerateDailyPlan(planLlm)
    ensures db.State() == CheckinWrites(old(db.State()), userId, today, checkin, plan, now)
  {
    var morning := db.CreateDailyLog(userId, today, Some(Db.CheckinPayload(checkin)), None, now);
    plan := Checkin.GenerateDailyPlan(planLlm);
    var evening := db.CreateDailyLog(userId, today, None, Some(Db.PlanPayload(plan)), now);
  }

  /** Lines 44-46 of the handler: the reply goes to the sender's address and is logged when delivered. */
  method SendReply(db: Db.Database, userId: nat, phone: string, reply: string, delivery: Option<string>, now: string)
    returns (sent: Twilio.Outgoing)
    requires db.Valid()
    modifies db
    ensures db.Valid()
    ensures sent == Twilio.Outgoing(Twilio.Destination(phone), reply)
    ensures db.State() == if Delivered(delivery) then Db.MessageLogged(old(db.State()), userId, Db.Outbound, reply, now).0
                          else old(db.State())
  {
    sent := Twilio.Outgoing(Twilio.Destination(phone), reply);
    if Delivered(delivery) {
      var outbound := db.LogMessage(userId, Db.Outbound, reply, now);
    }
  }

  /** Lines 15-52 of the handler, for a form with a sender and a text. */
  method ProcessMessage(
    db: Db.Database, m: Twilio.IncomingMessage,
    extraction: Checkin.LlmOutcome, jsonParse: string -> Checkin.Decoded,
    planLlm: Checkin.LlmOutcome, generalLlm: Checkin.LlmOutcome,
    delivery: Option<string>, now: string)
    returns (outgoing: Twilio.Outgoing)
    requires db.Valid()
    modifies db
    ensures db.Valid()
    ensures var r := Handled(old(db.State()), m, Checkin.ParseFlexible(m.body, extraction, jsonParse),
                             Checkin.GenerateDailyPlan(planLlm), Checkin.GenerateGeneralResponse(generalLlm), delivery, now);
      && db.State() == r.tables
      && outgoing == Twilio.Outgoing(Twilio.Destination(m.from), r.reply)
  {
    var phone := m.from;
    var user := SenderOf(db, phone, m.profileName, now);
    var inbound := db.LogMessage(user.id, Db.Inbound, m.body, now);

    var checkin := RecogniseCheckin(m.body, extraction, jsonParse);

    var reply: string;
    if checkin.Some? {
      var plan := StoreCheckinAndPlan(db, user.id, DateOf(now), checkin.value, planLlm, now);
      reply := PlanGreeting + plan;
    } else {
      reply := Checkin.GenerateGeneralResponse(generalLlm);
    }

    outgoing := SendReply(db, user.id, phone, reply, delivery, now);
  }

  /**
   * `handleWhatsAppWebhook`. An unusable form is answered with 400 and
   * changes nothing; otherwise the store moves to the tables `Handled`
   * describes, the reply goes to the sender, and the answer carries the
   * delivery id.
   */
  method HandleWhatsAppWebhook(
    db: Db.Database, request: Option<map<string, string>>,
    extraction: Checkin.LlmOutcome, jsonParse: string -> Checkin.Decoded,
    planLlm: Checkin.LlmOutcome, generalLlm: Checkin.LlmOutcome,
    delivery: Option<string>, now: string)
    returns (response: Response, sent: Option<Twilio.Outgoing>)
    requires db.Valid()
    modifies db
    ensures db.Valid()
    ensures !Usable(Twilio.ParseIncomingMessage(request)) ==>
      response == BadRequest && sent == None && unchanged(db)
    ensures var m := Twilio.ParseIncomingMessage(request);
      Usable(m) ==>
        var r := Handled(old(db.State()), m, Checkin.ParseFlexible(m.body, extraction, jsonParse),
                         Checkin.GenerateDailyPlan(planLlm), Checkin.GenerateGeneralResponse(generalLlm), delivery, now);
        && response == Success(delivery)
        && db.State() == r.tables
        && sent == Some(Twilio.Outgoing(Twilio.Destination(m.from), r.reply))
  {
    var m := Twilio.ParseIncomingMessage(request);
    if m.from == "" || m.body == "" {
      return BadRequest, None;
    }
    var outgoing := ProcessMessage(db, m, extraction, jsonParse, planLlm, generalLlm, delivery, now);
    sent := Some(outgoing);
    response := Success(delivery);
  }
}
