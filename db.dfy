/**
 * The record store of the coaching service (src/services/db.ts): the phone
 * normalisation rule and the users, messages and daily_logs tables, held in
 * memory. Each store method reads a table, branches on what it found and then
 * inserts or updates one row; the clock is the parameter `now`.
 */
module Db {
  import opened Wrappers
  import opened Text
  import Checkin

  // ---------------------------------------------------------------------------
  // Phone normalisation
  // ---------------------------------------------------------------------------

  const WhatsAppPrefix := "whatsapp:"

  /**
   * `normalizePhone`: remove the first `whatsapp:`, remove every whitespace
   * character, trim, and put a `+` in front unless there is one.
   */
  function NormalizePhone(input: string): (r: string)
    ensures |r| > 0 && r[0] == '+'
    ensures NoSpaces(r)
  {
    var clean := Trim(RemoveSpaces(RemoveFirst(input, WhatsAppPrefix)));
    if |clean| > 0 && clean[0] == '+' then clean else "+" + clean
  }

  /** A phone already in canonical form (a `+`, no whitespace, no `whatsapp:`) is left as it is. */
  lemma NormalizeCanonical(x: string)
    requires |x| > 0 && x[0] == '+' && NoSpaces(x) && !Contains(x, WhatsAppPrefix)
    ensures NormalizePhone(x) == x
  {
    RemoveSpacesUnchanged(x);
    TrimmedUnchanged(x);
  }

  /**
   * Normalisation is idempotent on an input exactly when its normal form holds
   * no `whatsapp:`: a second pass removes a `whatsapp:` that is left, and so
   * shortens the phone by at least eight characters.
   */
  lemma NormalizeIdempotent(x: string)
    ensures NormalizePhone(NormalizePhone(x)) == NormalizePhone(x)
        <==> !Contains(NormalizePhone(x), WhatsAppPrefix)
  {
    var n := NormalizePhone(x);
    if Contains(n, WhatsAppPrefix) {
      var r := RemoveFirst(n, WhatsAppPrefix);
      assert |r| == |n| - |WhatsAppPrefix|;
      assert |Trim(RemoveSpaces(r))| <= |RemoveSpaces(r)| <= |r|;
      assert |NormalizePhone(n)| < |n|;
    } else {
      NormalizeCanonical(n);
    }
  }

  /** Removing the first occurrence of a pattern found at `k` with none before it. */
  lemma RemoveFirstAt(t: string, pat: string, k: nat)
    requires OccursAt(t, pat, k)
    requires forall j :: 0 <= j < k ==> !OccursAt(t, pat, j)
    ensures RemoveFirst(t, pat) == t[..k] + t[k + |pat|..]
  {
    assert Contains(t, pat);
  }

  /**
   * The prefixed form of a phone and the bare form normalise alike
   * (`whatsapp:+1 555 0100` and `+15550100` both give `+15550100`).
   */
  lemma PrefixedLikeBare(x: string)
    requires !Contains(x, WhatsAppPrefix)
    ensures NormalizePhone(WhatsAppPrefix + x) == NormalizePhone(x)
  {
    var t := WhatsAppPrefix + x;
    RemoveFirstAt(t, WhatsAppPrefix, 0);
    assert t[..0] + t[|WhatsAppPrefix|..] == x;
  }

  /**
   * Without `whatsapp:` in it, a phone normalises to its non-whitespace
   * characters in their order (RemoveSpaces), behind a `+` unless the first
   * of them is one; the trim step never changes anything.
   */
  lemma NormalizeBare(x: string)
    requires !Contains(x, WhatsAppPrefix)
    ensures var digits := RemoveSpaces(x);
      NormalizePhone(x) == if |digits| > 0 && digits[0] == '+' then digits else "+" + digits
  {
    TrimmedUnchanged(RemoveSpaces(x));
  }

  /** `whatsapp:+1 555 0100` normalises to `+15550100`. */
  lemma NormalizeExample()
    ensures NormalizePhone("whatsapp:+1 555 0100") == "+15550100"
  {
    var x := "+1 555 0100";
    SampleHasNoPrefix();
    RemoveSpacesExample();
    SamplePrefixed();
    PrefixedLikeBare(x);
    NormalizeBare(x);
  }

  lemma SamplePrefixed()
    ensures "whatsapp:+1 555 0100" == WhatsAppPrefix + "+1 555 0100"
  {
  }

  lemma SampleHasNoPrefix()
    ensures !Contains("+1 555 0100", WhatsAppPrefix)
  {
    var x := "+1 555 0100";
    assert forall i :: 0 <= i < |x| ==> x[i] != 'w';
    forall k: nat | k <= |x| ensures !OccursAt(x, WhatsAppPrefix, k) {
      if k + |WhatsAppPrefix| <= |x| {
        assert x[k..k + |WhatsAppPrefix|][0] != WhatsAppPrefix[0];
      }
    }
  }

  /** Removing whitespace and trimming leave a non-empty string without whitespace as it is. */
  lemma CleanUnchanged(x: string)
    requires |x| > 0 && NoSpaces(x)
    ensures Trim(RemoveSpaces(x)) == x
  {
    RemoveSpacesUnchanged(x);
    TrimmedUnchanged(x);
  }

  /** `whatsapp:` holds no whitespace. */
  lemma PrefixNoSpaces()
    ensures NoSpaces(WhatsAppPrefix)
  {
    assert forall k :: 0 <= k < |WhatsAppPrefix| ==> WhatsAppPrefix[k] in "whatsap:";
  }

  /** First pass over a doubled prefix: only the outer `whatsapp:` goes. */
  lemma DoublePrefixOnce(y: string)
    requires |y| > 0 && y[0] != '+' && NoSpaces(y)
    ensures NormalizePhone(WhatsAppPrefix + WhatsAppPrefix + y) == "+" + WhatsAppPrefix + y
  {
    var t := WhatsAppPrefix + WhatsAppPrefix + y;
    var once := WhatsAppPrefix + y;
    assert "+" + once == "+" + WhatsAppPrefix + y;
    RemoveFirstAt(t, WhatsAppPrefix, 0);
    assert t[..0] + t[|WhatsAppPrefix|..] == once;
    assert RemoveFirst(t, WhatsAppPrefix) == once;
    PrefixNoSpaces();
    assert NoSpaces(once);
    CleanUnchanged(once);
    assert Trim(RemoveSpaces(RemoveFirst(t, WhatsAppPrefix))) == once;
    assert once[0] != '+';
    assert NormalizePhone(t) == "+" + once;
  }

  /** Second pass: the `whatsapp:` left behind the `+` goes too. */
  lemma PlusPrefixed(y: string)
    requires |y| > 0 && NoSpaces(y)
    ensures NormalizePhone("+" + WhatsAppPrefix + y) == "+" + y
  {
    var u := "+" + WhatsAppPrefix + y;
    assert !OccursAt(u, WhatsAppPrefix, 0) by {
      assert u[0] == '+';
    }
    assert u[1..1 + |WhatsAppPrefix|] == WhatsAppPrefix;
    RemoveFirstAt(u, WhatsAppPrefix, 1);
    assert u[..1] + u[1 + |WhatsAppPrefix|..] == "+" + y;
    CleanUnchanged("+" + y);
  }

  /**
   * Normalisation is not idempotent in general: only the first `whatsapp:` is
   * removed, so a doubled prefix survives once and is removed on the next pass
   * (`whatsapp:whatsapp:1` gives `+whatsapp:1`, which gives `+1`).
   */
  lemma DoublePrefixNotIdempotent(y: string)
    requires |y| > 0 && y[0] != '+' && NoSpaces(y)
    ensures NormalizePhone(NormalizePhone(WhatsAppPrefix + WhatsAppPrefix + y))
         != NormalizePhone(WhatsAppPrefix + WhatsAppPrefix + y)
  {
    DoublePrefixOnce(y);
    PlusPrefixed(y);
    assert |"+" + y| != |"+" + WhatsAppPrefix + y|;
  }

  // ---------------------------------------------------------------------------
  // Records
  // ---------------------------------------------------------------------------

  const DefaultTimezone := "UTC"

  datatype UserRecord = UserRecord(id: nat, phone: string, name: Option<string>, timezone: string, createdAt: string)

  datatype Direction = Inbound | Outbound

  datatype MessageRecord = MessageRecord(id: nat, userId: nat, direction: Direction, body: string, timestamp: string)

  /** What the service stores in the `am_json` and `pm_json` columns. */
  datatype LogPayload = CheckinPayload(checkin: Checkin.MorningCheckin) | PlanPayload(dailyPlan: string)

  datatype DailyLogRecord = DailyLogRecord(
    id: nat, userId: nat, date: string,
    amJson: Option<LogPayload>, pmJson: Option<LogPayload>,
    createdAt: string, updatedAt: string)

  // ---------------------------------------------------------------------------
  // Queries over the tables
  // ---------------------------------------------------------------------------

  /** Whether a daily-log row belongs to the key (user, date). */
  predicate HasKey(l: DailyLogRecord, userId: nat, date: string) {
    l.userId == userId && l.date == date
  }

  /** The first index of a user with the given phone. */
  function UserIndex(users: seq<UserRecord>, phone: string): (r: Option<nat>)
    ensures r.Some? ==> r.value < |users| && users[r.value].phone == phone
    ensures r.Some? ==> forall k :: 0 <= k < r.value ==> users[k].phone != phone
    ensures r.None? ==> forall k :: 0 <= k < |users| ==> users[k].phone != phone
  {
    if users == [] then None
    else if users[0].phone == phone then Some(0)
    else match UserIndex(users[1..], phone)
      case None => None
      case Some(k) => Some(k + 1)
  }

  /** The index the phone search finds is pinned down by its characterisation. */
  lemma UserIndexIs(users: seq<UserRecord>, phone: string, i: nat)
    requires i < |users| && users[i].phone == phone
    requires forall k :: 0 <= k < i ==> users[k].phone != phone
    ensures UserIndex(users, phone) == Some(i)
  {
  }

  /** The first index of a daily-log row with the given key. */
  function LogIndex(logs: seq<DailyLogRecord>, userId: nat, date: string): (r: Option<nat>)
    ensures r.Some? ==> r.value < |logs| && HasKey(logs[r.value], userId, date)
    ensures r.Some? ==> forall k :: 0 <= k < r.value ==> !HasKey(logs[k], userId, date)
    ensures r.None? ==> forall k :: 0 <= k < |logs| ==> !HasKey(logs[k], userId, date)
  {
    if logs == [] then None
    else if HasKey(logs[0], userId, date) then Some(0)
    else match LogIndex(logs[1..], userId, date)
      case None => None
      case Some(k) => Some(k + 1)
  }

  /** The index the key search finds is pinned down by its characterisation. */
  lemma LogIndexIs(logs: seq<DailyLogRecord>, userId: nat, date: string, i: nat)
    requires i < |logs| && HasKey(logs[i], userId, date)
    requires forall k :: 0 <= k < i ==> !HasKey(logs[k], userId, date)
    ensures LogIndex(logs, userId, date) == Some(i)
  {
  }

  predicate UniquePhones(users: seq<UserRecord>) {
    forall i, j :: 0 <= i < j < |users| ==> users[i].phone != users[j].phone
  }

  predicate UniqueLogKeys(logs: seq<DailyLogRecord>) {
    forall i, j :: 0 <= i < j < |logs| ==> logs[i].userId != logs[j].userId || logs[i].date != logs[j].date
  }

  /** No two daily-log rows share an id (the table's primary key). */
  predicate DistinctLogIds(logs: seq<DailyLogRecord>) {
    forall i, j :: 0 <= i < j < |logs| ==> logs[i].id != logs[j].id
  }

  /** `select * from users where phone = <phone>`. */
  function UserWithPhone(users: seq<UserRecord>, phone: string): (r: Option<UserRecord>)
    ensures r.Some? ==> r.value in users && r.value.phone == phone
    ensures r.None? <==> forall i :: 0 <= i < |users| ==> users[i].phone != phone
  {
    match UserIndex(users, phone)
    case None => None
    case Some(i) => Some(users[i])
  }

  /** `select * from daily_logs where user_id = <userId> and date = <date>`. */
  function LogFor(logs: seq<DailyLogRecord>, userId: nat, date: string): (r: Option<DailyLogRecord>)
    ensures r.Some? ==> r.value in logs && r.value.userId == userId && r.value.date == date
    ensures r.None? <==> forall i :: 0 <= i < |logs| ==> logs[i].userId != userId || logs[i].date != date
  {
    match LogIndex(logs, userId, date)
    case None => None
    case Some(i) => Some(logs[i])
  }

  // ---------------------------------------------------------------------------
  // The daily-log write, as a function of the table
  // ---------------------------------------------------------------------------

  /**
   * The daily_logs table after `createDailyLog(userId, date, am, pm)`: the row
   * for the key gets both payload columns replaced (absent ones by null) and
   * a new `updated_at`; with no such row one is appended, `nextId` its id.
   */
  function Upsert(logs: seq<DailyLogRecord>, nextId: nat, userId: nat, date: string,
                  am: Option<LogPayload>, pm: Option<LogPayload>, now: string): (r: seq<DailyLogRecord>)
    ensures |r| == |logs| + (if LogFor(logs, userId, date).None? then 1 else 0)
  {
    match LogIndex(logs, userId, date)
    case Some(i) => logs[i := logs[i].(amJson := am, pmJson := pm, updatedAt := now)]
    case None => logs + [DailyLogRecord(nextId, userId, date, am, pm, now, now)]
  }

  /**
   * After a write the key's row holds exactly the supplied payloads (an
   * overwrite, not a merge) and `now` as `updated_at`; an existing row keeps
   * its id and `created_at`, a new one takes `nextId` and `now`.
   */
  lemma UpsertRow(logs: seq<DailyLogRecord>, nextId: nat, userId: nat, date: string,
                  am: Option<LogPayload>, pm: Option<LogPayload>, now: string)
    ensures var row := LogFor(Upsert(logs, nextId, userId, date, am, pm, now), userId, date);
      && row.Some?
      && row.value.amJson == am && row.value.pmJson == pm && row.value.updatedAt == now
      && (LogFor(logs, userId, date).Some? ==>
            row.value.id == LogFor(logs, userId, date).value.id
            && row.value.createdAt == LogFor(logs, userId, date).value.createdAt)
      && (LogFor(logs, userId, date).None? ==> row.value.id == nextId && row.value.createdAt == now)
  {
    var r := Upsert(logs, nextId, userId, date, am, pm, now);
    match LogIndex(logs, userId, date)
    case Some(i) =>
      assert forall k :: 0 <= k < i ==> r[k] == logs[k];
      LogIndexIs(r, userId, date, i);
    case None =>
      assert forall k :: 0 <= k < |logs| ==> r[k] == logs[k];
      LogIndexIs(r, userId, date, |logs|);
  }

  /** A write leaves every row of every other key as it was, in place. */
  lemma UpsertOthersUnchanged(logs: seq<DailyLogRecord>, nextId: nat, userId: nat, date: string,
                              am: Option<LogPayload>, pm: Option<LogPayload>, now: string)
    ensures var r := Upsert(logs, nextId, userId, date, am, pm, now);
      forall k :: 0 <= k < |logs| && (logs[k].userId != userId || logs[k].date != date) ==> r[k] == logs[k]
  {
  }

  /** Rows of other keys are found exactly as before the write. */
  lemma UpsertOtherKeys(logs: seq<DailyLogRecord>, nextId: nat, userId: nat, date: string,
                        am: Option<LogPayload>, pm: Option<LogPayload>, now: string,
                        otherUser: nat, otherDate: string)
    requires otherUser != userId || otherDate != date
    ensures LogFor(Upsert(logs, nextId, userId, date, am, pm, now), otherUser, otherDate)
         == LogFor(logs, otherUser, otherDate)
  {
    var r := Upsert(logs, nextId, userId, date, am, pm, now);
    assert forall k :: 0 <= k < |r| ==>
      (HasKey(r[k], otherUser, otherDate) <==> k < |logs| && HasKey(logs[k], otherUser, otherDate));
    match LogIndex(logs, otherUser, otherDate)
    case Some(i) =>
      LogIndexIs(r, otherUser, otherDate, i);
    case None =>
      assert LogIndex(r, otherUser, otherDate) == None;
  }

  /**
   * `update daily_logs set am_json, pm_json, updated_at where id = <id>`:
   * every row carrying the id is rewritten, every other row is left alone.
   */
  function UpdateWhereId(logs: seq<DailyLogRecord>, id: nat,
                         am: Option<LogPayload>, pm: Option<LogPayload>, now: string): seq<DailyLogRecord>
  {
    if logs == [] then []
    else
      var head := if logs[0].id == id then logs[0].(amJson := am, pmJson := pm, updatedAt := now) else logs[0];
      [head] + UpdateWhereId(logs[1..], id, am, pm, now)
  }

  /** The update by id touches exactly the rows carrying that id. */
  lemma {:induction false} UpdateWhereIdRows(logs: seq<DailyLogRecord>, id: nat,
                                             am: Option<LogPayload>, pm: Option<LogPayload>, now: string)
    ensures var r := UpdateWhereId(logs, id, am, pm, now);
      && |r| == |logs|
      && forall k :: 0 <= k < |logs| ==>
           r[k] == if logs[k].id == id then logs[k].(amJson := am, pmJson := pm, updatedAt := now) else logs[k]
  {
    if logs != [] {
      UpdateWhereIdRows(logs[1..], id, am, pm, now);
    }
  }

  /**
   * With ids distinct, writing the key's row by its position is the same as
   * the source's update filtered on the id of the row the lookup found.
   */
  lemma UpsertIsUpdateById(logs: seq<DailyLogRecord>, nextId: nat, userId: nat, date: string,
                           am: Option<LogPayload>, pm: Option<LogPayload>, now: string)
    requires DistinctLogIds(logs)
    requires LogFor(logs, userId, date).Some?
    ensures Upsert(logs, nextId, userId, date, am, pm, now)
         == UpdateWhereId(logs, LogFor(logs, userId, date).value.id, am, pm, now)
  {
    var id := LogFor(logs, userId, date).value.id;
    UpdateWhereIdRows(logs, id, am, pm, now);
  }

  /** At most one row per (user, date) key, before and after a write. */
  lemma UpsertKeepsKeysUnique(logs: seq<DailyLogRecord>, nextId: nat, userId: nat, date: string,
                              am: Option<LogPayload>, pm: Option<LogPayload>, now: string)
    requires UniqueLogKeys(logs)
    ensures UniqueLogKeys(Upsert(logs, nextId, userId, date, am, pm, now))
  {
  }

  /**
   * The two writes of a morning check-in (the check-in as `am_json`, then
   * null and the plan as `pm_json`) leave the day's row without the check-in:
   * the second write replaces the first instead of merging with it.
   */
  lemma CheckinThenPlanLosesCheckin(logs: seq<DailyLogRecord>, nextId: nat, nextId': nat,
                                    userId: nat, date: string, checkin: Checkin.MorningCheckin,
                                    plan: string, now: string, now': string)
    ensures var first := Upsert(logs, nextId, userId, date, Some(CheckinPayload(checkin)), None, now);
      var second := Upsert(first, nextId', userId, date, None, Some(PlanPayload(plan)), now');
      && |second| == |first|
      && LogFor(second, userId, date).Some?
      && LogFor(second, userId, date).value.amJson == None
      && LogFor(second, userId, date).value.pmJson == Some(PlanPayload(plan))
      && LogFor(second, userId, date).value.id == LogFor(first, userId, date).value.id
  {
    var first := Upsert(logs, nextId, userId, date, Some(CheckinPayload(checkin)), None, now);
    UpsertRow(logs, nextId, userId, date, Some(CheckinPayload(checkin)), None, now);
    UpsertRow(first, nextId', userId, date, None, Some(PlanPayload(plan)), now');
  }

  // ---------------------------------------------------------------------------
  // The tables as a value, and each store operation as a function of it
  // ---------------------------------------------------------------------------

  /** The contents of the three tables and the next id each will hand out. */
  datatype Tables = Tables(
    users: seq<UserRecord>, messages: seq<MessageRecord>, dailyLogs: seq<DailyLogRecord>,
    nextUserId: nat, nextMessageId: nat, nextLogId: nat)

  /**
   * One user per phone, one daily log per (user, date), daily-log ids
   * distinct, every id below its counter.
   */
  predicate TablesValid(t: Tables) {
    && UniquePhones(t.users)
    && UniqueLogKeys(t.dailyLogs)
    && DistinctLogIds(t.dailyLogs)
    && (forall i :: 0 <= i < |t.users| ==> t.users[i].id < t.nextUserId)
    && (forall i :: 0 <= i < |t.messages| ==> t.messages[i].id < t.nextMessageId)
    && (forall i :: 0 <= i < |t.dailyLogs| ==> t.dailyLogs[i].id < t.nextLogId)
  }

  /**
   * The tables after `createUser(phone, name, userTimezone)`, and the user it
   * returns: the one holding the normalised phone, inserted if there was none.
   */
  function UserCreated(t: Tables, phone: string, name: Option<string>, userTimezone: string, now: string)
    : (r: (Tables, UserRecord))
    ensures UserWithPhone(r.0.users, NormalizePhone(phone)) == Some(r.1)
    ensures UserWithPhone(t.users, NormalizePhone(phone)).Some? ==> r.0 == t
    ensures UserWithPhone(t.users, NormalizePhone(phone)).None? ==>
      && r.1 == UserRecord(t.nextUserId, NormalizePhone(phone), name, userTimezone, now)
      && r.0.users == t.users + [r.1] && r.0.nextUserId == t.nextUserId + 1
    ensures r.0.messages == t.messages && r.0.nextMessageId == t.nextMessageId
    ensures r.0.dailyLogs == t.dailyLogs && r.0.nextLogId == t.nextLogId
    ensures TablesValid(t) ==> TablesValid(r.0)
  {
    var normalized := NormalizePhone(phone);
    match UserWithPhone(t.users, normalized)
    case Some(u) => (t, u)
    case None =>
      var u := UserRecord(t.nextUserId, normalized, name, userTimezone, now);
      UserIndexIs(t.users + [u], normalized, |t.users|);
      (t.(users := t.users + [u], nextUserId := t.nextUserId + 1), u)
  }

  /** The tables after `logMessage`, and the message row it appends. */
  function MessageLogged(t: Tables, userId: nat, direction: Direction, body: string, now: string)
    : (r: (Tables, MessageRecord))
    ensures r.1 == MessageRecord(t.nextMessageId, userId, direction, body, now)
    ensures r.0.messages == t.messages + [r.1] && r.0.nextMessageId == t.nextMessageId + 1
    ensures r.0.users == t.users && r.0.nextUserId == t.nextUserId
    ensures r.0.dailyLogs == t.dailyLogs && r.0.nextLogId == t.nextLogId
    ensures TablesValid(t) ==> TablesValid(r.0)
  {
    var m := MessageRecord(t.nextMessageId, userId, direction, body, now);
    (t.(messages := t.messages + [m], nextMessageId := t.nextMessageId + 1), m)
  }

  /** The tables after `createDailyLog(userId, date, am, pm)`, and the row written. */
  function DailyLogWritten(t: Tables, userId: nat, date: string, am: Option<LogPayload>, pm: Option<LogPayload>, now: string)
    : (r: (Tables, DailyLogRecord))
    ensures r.0.dailyLogs == Upsert(t.dailyLogs, t.nextLogId, userId, date, am, pm, now)
    ensures LogFor(r.0.dailyLogs, userId, date) == Some(r.1)
    ensures r.1.amJson == am && r.1.pmJson == pm && r.1.updatedAt == now
    ensures LogFor(t.dailyLogs, userId, date).Some? ==>
      r.1.id == LogFor(t.dailyLogs, userId, date).value.id
      && r.1.createdAt == LogFor(t.dailyLogs, userId, date).value.createdAt
      && r.0.nextLogId == t.nextLogId
    ensures LogFor(t.dailyLogs, userId, date).None? ==>
      r.1.id == t.nextLogId && r.1.createdAt == now && r.0.nextLogId == t.nextLogId + 1
    ensures r.0.users == t.users && r.0.nextUserId == t.nextUserId
    ensures r.0.messages == t.messages && r.0.nextMessageId == t.nextMessageId
    ensures TablesValid(t) ==> TablesValid(r.0)
  {
    UpsertRow(t.dailyLogs, t.nextLogId, userId, date, am, pm, now);
    UpsertKeepsValid(t, userId, date, am, pm, now);
    var logs := Upsert(t.dailyLogs, t.nextLogId, userId, date, am, pm, now);
    var next := if LogFor(t.dailyLogs, userId, date).None? then t.nextLogId + 1 else t.nextLogId;
    (t.(dailyLogs := logs, nextLogId := next), LogFor(logs, userId, date).value)
  }

  /** A daily-log write keeps keys unique, ids distinct and ids below the counter. */
  lemma UpsertKeepsValid(t: Tables, userId: nat, date: string, am: Option<LogPayload>, pm: Option<LogPayload>, now: string)
    ensures var logs := Upsert(t.dailyLogs, t.nextLogId, userId, date, am, pm, now);
      var next := if LogFor(t.dailyLogs, userId, date).None? then t.nextLogId + 1 else t.nextLogId;
      TablesValid(t) ==> TablesValid(t.(dailyLogs := logs, nextLogId := next))
  {
    if TablesValid(t) {
      UpsertKeepsKeysUnique(t.dailyLogs, t.nextLogId, userId, date, am, pm, now);
    }
  }

  // ---------------------------------------------------------------------------
  // The store
  // ---------------------------------------------------------------------------

  /** `DatabaseService` over three in-memory tables; ids come from per-table counters. */
  class Database {
    var users: seq<UserRecord>
    var messages: seq<MessageRecord>
    var dailyLogs: seq<DailyLogRecord>
    var nextUserId: nat
    var nextMessageId: nat
    var nextLogId: nat

    /** The current contents of the store. */
    function State(): Tables
      reads this
    {
      Tables(users, messages, dailyLogs, nextUserId, nextMessageId, nextLogId)
    }

    ghost predicate Valid()
      reads this
    {
      TablesValid(State())
    }

    constructor ()
      ensures Valid()
      ensures State() == Tables([], [], [], 0, 0, 0)
    {
      users, messages, dailyLogs := [], [], [];
      nextUserId, nextMessageId, nextLogId := 0, 0, 0;
    }

    /** `getUserByPhone`: the user whose phone is the normalised `phone`, if any. */
    function GetUserByPhone(phone: string): (r: Option<UserRecord>)
      reads this
      ensures r.Some? ==> r.value in users && r.value.phone == NormalizePhone(phone)
      ensures r.None? <==> forall i :: 0 <= i < |users| ==> users[i].phone != NormalizePhone(phone)
    {
      UserWithPhone(users, NormalizePhone(phone))
    }

    /** `createUser`: return the user holding the normalised phone, inserting one if there is none. */
    method CreateUser(phone: string, name: Option<string>, now: string, userTimezone: string := DefaultTimezone)
      returns (user: UserRecord)
      requires Valid()
      modifies this
      ensures Valid()
      ensures (State(), user) == UserCreated(old(State()), phone, name, userTimezone, now)
    {
      ghost var expected := UserCreated(State(), phone, name, userTimezone, now);
      var normalized := NormalizePhone(phone);
      var existing := UserWithPhone(users, normalized);
      if existing.Some? {
        return existing.value;
      }
      user := UserRecord(nextUserId, normalized, name, userTimezone, now);
      users := users + [user];
      nextUserId := nextUserId + 1;
      assert State() == expected.0;
    }

    /** `logMessage`: append one message row. */
    method LogMessage(userId: nat, direction: Direction, body: string, now: string)
      returns (message: MessageRecord)
      requires Valid()
      modifies this
      ensures Valid()
      ensures (State(), message) == MessageLogged(old(State()), userId, direction, body, now)
    {
      message := MessageRecord(nextMessageId, userId, direction, body, now);
      messages := messages + [message];
      nextMessageId := nextMessageId + 1;
    }

    /**
     * `createDailyLog`: look the key up, then update that row in place or
     * insert a new one; `am` and `pm` absent stand for the source's
     * `undefined` and `null` alike.
     */
    method CreateDailyLog(userId: nat, date: string, am: Option<LogPayload>, pm: Option<LogPayload>, now: string)
      returns (row: DailyLogRecord)
      requires Valid()
      modifies this
      ensures Valid()
      ensures (State(), row) == DailyLogWritten(old(State()), userId, date, am, pm, now)
    {
      ghost var expected := DailyLogWritten(State(), userId, date, am, pm, now);
      var existing := LogIndex(dailyLogs, userId, date);
      if existing.Some? {
        var i := existing.value;
        row := dailyLogs[i].(amJson := am, pmJson := pm, updatedAt := now);
        dailyLogs := dailyLogs[i := row];
      } else {
        row := DailyLogRecord(nextLogId, userId, date, am, pm, now, now);
        dailyLogs := dailyLogs + [row];
        nextLogId := nextLogId + 1;
      }
      assert State() == expected.0;
    }

    /** `getDailyLog`: the row for (userId, date), if any. */
    function GetDailyLog(userId: nat, date: string): (r: Option<DailyLogRecord>)
      reads this
      ensures r.Some? ==> r.value in dailyLogs && r.value.userId == userId && r.value.date == date
      ensures r.None? <==> forall i :: 0 <= i < |dailyLogs| ==> dailyLogs[i].userId != userId || dailyLogs[i].date != date
    {
      LogFor(dailyLogs, userId, date)
    }
  }
}
