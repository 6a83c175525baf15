/**
 * What one incoming message does to the store, as a function of the store before it:
 * `handle_message` with `_init_user_data`, `_update_user_stats`, the ban-word short-circuit,
 * and the warn -> maybe delete -> maybe ban sequence of `_process_violation`.
 *
 * Telegram and classifier effects are inputs (`Effects`); an exception raised on the way is a
 * `Failure`, which skips the final `save_data` and answers with the generic error reply.
 */
module Enforcement {
  import opened Wrappers
  import opened Text
  import opened Store
  import opened Analyzer
  import opened BanWords

  /** The author of a message (`message.from_user`); the id is `str(user.id)`. */
  datatype Sender = Sender(
    id: string,
    isBot: bool,
    username: Option<string>,
    firstName: Option<string>,
    lastName: Option<string>)

  /** `update.message`; a missing message behaves as a message without text. */
  datatype Message = Message(sender: Sender, text: Option<string>)

  /** How the outside world answers the calls one message makes. */
  datatype Effects = Effects(
    classifier: ClassifierOutcome,  // the classifier's answer to the text, or a failure
    warningSent: bool,              // `send_message` of the warning succeeds
    deleteOk: bool,                 // `message.delete()` succeeds
    editOk: bool,                   // `edit_text` of the warning after a failed delete succeeds
    banOk: bool,                    // `ban_chat_member` succeeds
    banAnnounced: bool,             // `send_message` of the ban notice succeeds
    saveOk: bool)                   // writing `user_data.json` succeeds

  /** The exception that ends a message's processing early. */
  datatype Failure =
    | AnalyzerUnset          // ValueError from `analyze_message`
    | WarningNotSent         // the warning could not be sent, or its `reason` key is missing
    | DeleteNoticeNotEdited  // the delete failed and so did the edit that reports it
    | BanRefused             // `ban_chat_member` failed; re-raised by `_ban_user`
    | BanNotAnnounced        // the ban succeeded but its notice failed; re-raised by `_ban_user`

  datatype HandleOutcome = Ignored | Completed | ErrorReplied(cause: Failure)

  /** The store after a step of `_process_violation`, and the exception it raised, if any. */
  datatype Step = Step(state: StoreState, failure: Option<Failure>)

  datatype Handled = Handled(state: StoreState, outcome: HandleOutcome)

  /** `_init_user_data(user)`: identity from the sender, both counters zero. */
  function NewUserRecord(sender: Sender): (r: UserRecord)
    ensures r.warnings == 0 && r.messages == 0 && r.username == sender.username
  {
    UserRecord(sender.username, sender.firstName, sender.lastName, 0, 0)
  }

  /** The lazy creation in `handle_message`: only an unseen id gets a record. */
  function RegisterUser(users: UserTable, sender: Sender): (r: UserTable)
    ensures sender.id in r.records
  {
    if sender.id in users.records then users else AddUser(users, sender.id, NewUserRecord(sender))
  }

  /** `users[user_id]['messages'] += 1`. */
  function BumpMessages(users: UserTable, id: string): UserTable
    requires id in users.records
  {
    UpdateUser(users, id, users.records[id].(messages := users.records[id].messages + 1))
  }

  /** `users[user_id]['warnings'] += 1`. */
  function BumpWarnings(users: UserTable, id: string): UserTable
    requires id in users.records
  {
    UpdateUser(users, id, users.records[id].(warnings := users.records[id].warnings + 1))
  }

  /** The bookkeeping every handled message does before it is checked. */
  function CountMessage(st: StoreState, sender: Sender): (r: StoreState)
    ensures sender.id in r.users.records
  {
    var users := RegisterUser(st.users, sender);
    st.(users := BumpMessages(users, sender.id),
        stats := st.stats.(messagesChecked := st.stats.messagesChecked + 1))
  }

  /** The first thing `_process_violation` does: count the violation against the store and the user. */
  function RecordViolation(st: StoreState, id: string): (r: StoreState)
    requires id in st.users.records
    ensures id in r.users.records
  {
    st.(stats := st.stats.(violationsFound := st.stats.violationsFound + 1),
        users := BumpWarnings(st.users, id))
  }

  /** `_delete_violation_message`: a failed delete is swallowed unless reporting it fails too. */
  function DeleteStep(st: StoreState, fx: Effects): Step {
    if fx.deleteOk then Step(st.(stats := st.stats.(deletedMessages := st.stats.deletedMessages + 1)), None)
    else if fx.editOk then Step(st, None)
    else Step(st, Some(DeleteNoticeNotEdited))
  }

  /** `_ban_user`: a successful ban is counted before its notice is sent; any failure is re-raised. */
  function BanStep(st: StoreState, fx: Effects): Step {
    if !fx.banOk then Step(st, Some(BanRefused))
    else
      var banned := st.(stats := st.stats.(bannedUsers := st.stats.bannedUsers + 1));
      if fx.banAnnounced then Step(banned, None) else Step(banned, Some(BanNotAnnounced))
  }

  /** Whether `_process_violation` attempts a ban: the warnings after the increment reach the limit. */
  predicate BanDue(st: StoreState, id: string)
    requires id in st.users.records
  {
    st.users.records[id].warnings >= st.settings.warnBeforeBan
  }

  /** `_process_violation`: record, warn, delete when `auto_delete` is set, ban when due. */
  function ProcessViolationSpec(st: StoreState, id: string, v: ViolationResult, fx: Effects): Step
    requires id in st.users.records
  {
    var recorded := RecordViolation(st, id);
    if !fx.warningSent || v.reason.None? then Step(recorded, Some(WarningNotSent))
    else
      var deleted := if recorded.settings.autoDelete then DeleteStep(recorded, fx) else Step(recorded, None);
      if deleted.failure.Some? then deleted
      else if BanDue(deleted.state, id) then BanStep(deleted.state, fx)
      else deleted
  }

  /** The result dictionary `handle_message` acts on: the ban-word result, or the analyzer's, or none when it raises. */
  function Verdict(st: StoreState, text: string, fx: Effects, analyzerLinked: bool): Option<ViolationResult> {
    if CheckBanWords(text, st.settings.banWords) then Some(CreateBanWordViolation())
    else if analyzerLinked then Some(Analysis(fx.classifier, st.settings.sensitivity))
    else None
  }

  /** `save_data()` with its write succeeding or not. */
  function Saved(st: StoreState, writeOk: bool): StoreState {
    if writeOk then st.(disk := Present(Snapshot(st.settings, st.users, st.stats))) else st
  }

  /** Whether `handle_message` returns at once: no text, or a message from a bot. */
  predicate IsIgnored(msg: Message) {
    msg.text.None? || msg.text.value == "" || msg.sender.isBot
  }

  /** `handle_message(update)` up to its final `save_data`: the bookkeeping, the verdict, and the enforcement. */
  function Processed(st: StoreState, msg: Message, fx: Effects, analyzerLinked: bool): Step
    requires !IsIgnored(msg)
  {
    var counted := CountMessage(st, msg.sender);
    var verdict := Verdict(counted, msg.text.value, fx, analyzerLinked);
    if verdict.None? then Step(counted, Some(AnalyzerUnset))
    else if verdict.value.violation then ProcessViolationSpec(counted, msg.sender.id, verdict.value, fx)
    else Step(counted, None)
  }

  /** `handle_message(update)`; `analyzerLinked` says whether the analyzer's data manager is set. */
  function HandleSpec(st: StoreState, msg: Message, fx: Effects, analyzerLinked: bool): Handled
  {
    if IsIgnored(msg) then Handled(st, Ignored)
    else
      var step := Processed(st, msg, fx, analyzerLinked);
      if step.failure.Some? then Handled(step.state, ErrorReplied(step.failure.value))
      else Handled(Saved(step.state, fx.saveOk), Completed)
  }

  /** Two stores with the same settings, users and statistics (the file may differ). */
  predicate SameMemory(a: StoreState, b: StoreState) {
    a.settings == b.settings && a.users == b.users && a.stats == b.stats
  }

  /** Saving touches only the file. */
  lemma HandleMemoryIsProcessedMemory(st: StoreState, msg: Message, fx: Effects, linked: bool)
    requires !IsIgnored(msg)
    ensures SameMemory(HandleSpec(st, msg, fx, linked).state, Processed(st, msg, fx, linked).state)
  {
  }

  /** Counting a message: one more message for the sender (created if unseen) and for the store, nothing else. */
  lemma CountMessageShape(st: StoreState, sender: Sender)
    ensures var r := CountMessage(st, sender);
            var id := sender.id;
            var old_ := if id in st.users.records then st.users.records[id] else NewUserRecord(sender);
            && id in r.users.records
            && r.users.records[id] == old_.(messages := old_.messages + 1)
            && r.users.order == (if id in st.users.records then st.users.order else st.users.order + [id])
            && (forall other :: other in st.users.records && other != id ==>
                  other in r.users.records && r.users.records[other] == st.users.records[other])
            && r.stats == st.stats.(messagesChecked := st.stats.messagesChecked + 1)
            && r.settings == st.settings && r.disk == st.disk
  {
  }

  /** Whether the warning step of `_process_violation` gets through. */
  predicate WarningGoesOut(v: ViolationResult, fx: Effects) {
    fx.warningSent && v.reason.Some?
  }

  /** Whether the delete step of `_process_violation` does not raise. */
  predicate DeleteStepPasses(st: StoreState, fx: Effects) {
    !st.settings.autoDelete || fx.deleteOk || fx.editOk
  }

  /**
   * `_process_violation` on every path: the violation and the user's warning are counted first;
   * a deletion is counted only after a sent warning and a successful auto-delete; a ban only
   * when a sent warning and a non-raising delete step lead to a due ban that succeeds.
   */
  lemma ProcessViolationShape(st: StoreState, id: string, v: ViolationResult, fx: Effects)
    requires id in st.users.records
    ensures var r := ProcessViolationSpec(st, id, v, fx).state;
            var bumped := BumpWarnings(st.users, id);
            && r.users == bumped && r.settings == st.settings && r.disk == st.disk
            && r.stats.messagesChecked == st.stats.messagesChecked
            && r.stats.violationsFound == st.stats.violationsFound + 1
            && r.stats.deletedMessages == st.stats.deletedMessages
                 + (if WarningGoesOut(v, fx) && st.settings.autoDelete && fx.deleteOk then 1 else 0)
            && r.stats.bannedUsers == st.stats.bannedUsers
                 + (if WarningGoesOut(v, fx) && DeleteStepPasses(st, fx)
                       && bumped.records[id].warnings >= st.settings.warnBeforeBan && fx.banOk then 1 else 0)
    ensures var f := ProcessViolationSpec(st, id, v, fx).failure;
            var due := BumpWarnings(st.users, id).records[id].warnings >= st.settings.warnBeforeBan;
            && (!WarningGoesOut(v, fx) ==> f == Some(WarningNotSent))
            && (WarningGoesOut(v, fx) && !DeleteStepPasses(st, fx) ==> f == Some(DeleteNoticeNotEdited))
            && (WarningGoesOut(v, fx) && DeleteStepPasses(st, fx) && due && !fx.banOk ==> f == Some(BanRefused))
            && ((WarningGoesOut(v, fx) && DeleteStepPasses(st, fx) && due && fx.banOk && !fx.banAnnounced)
                  ==> f == Some(BanNotAnnounced))
            && ((WarningGoesOut(v, fx) && DeleteStepPasses(st, fx) && (!due || (fx.banOk && fx.banAnnounced)))
                  ==> f == None)
  {
  }

  // ---------------------------------------------------------------------------------------
  // What one message does

  /** A message without text, or from a bot, changes nothing and gets no reply. */
  lemma HandleIgnores(st: StoreState, msg: Message, fx: Effects, linked: bool)
    requires IsIgnored(msg)
    ensures HandleSpec(st, msg, fx, linked) == Handled(st, Ignored)
  {
  }

  /**
   * Any other message: the sender has a record (a new one with both counters at zero goes to
   * the end of the order), its `messages` and `messages_checked` rise by exactly one, and the
   * records of all other users are left alone, whatever happens afterwards.
   */
  lemma HandleCountsMessage(st: StoreState, msg: Message, fx: Effects, linked: bool)
    requires !IsIgnored(msg)
    ensures var r := HandleSpec(st, msg, fx, linked).state;
            var id := msg.sender.id;
            && id in r.users.records
            && r.users.records[id].messages
                 == (if id in st.users.records then st.users.records[id].messages else 0) + 1
            && r.users.records[id].username
                 == (if id in st.users.records then st.users.records[id].username else msg.sender.username)
            && r.stats.messagesChecked == st.stats.messagesChecked + 1
            && r.users.order == (if id in st.users.records then st.users.order else st.users.order + [id])
            && (forall other :: other in st.users.records && other != id ==>
                  other in r.users.records && r.users.records[other] == st.users.records[other])
            && r.settings == st.settings
  {
    var counted := CountMessage(st, msg.sender);
    CountMessageShape(st, msg.sender);
    HandleMemoryIsProcessedMemory(st, msg, fx, linked);
    var verdict := Verdict(counted, msg.text.value, fx, linked);
    if verdict.Some? && verdict.value.violation {
      ProcessViolationShape(counted, msg.sender.id, verdict.value, fx);
    }
  }

  /** A ban-word hit decides the verdict by itself: the classifier's answer, and whether it can be called, do not matter. */
  lemma HandleBanWordSkipsClassifier(st: StoreState, msg: Message, fx: Effects, linked: bool, answer: ClassifierOutcome)
    requires !IsIgnored(msg) && CheckBanWords(msg.text.value, st.settings.banWords)
    ensures HandleSpec(st, msg, fx, linked) == HandleSpec(st, msg, fx.(classifier := answer), true)
    ensures HandleSpec(st, msg, fx, linked).state.stats.violationsFound == st.stats.violationsFound + 1
  {
    var counted := CountMessage(st, msg.sender);
    CountMessageShape(st, msg.sender);
    assert Verdict(counted, msg.text.value, fx, linked) == Some(CreateBanWordViolation());
    assert Verdict(counted, msg.text.value, fx.(classifier := answer), true) == Some(CreateBanWordViolation());
    HandleMemoryIsProcessedMemory(st, msg, fx, linked);
    ProcessViolationShape(counted, msg.sender.id, CreateBanWordViolation(), fx);
  }

  /** The verdict `handle_message` acts on, when there is one. */
  predicate Flagged(st: StoreState, msg: Message, fx: Effects, linked: bool)
    requires !IsIgnored(msg)
  {
    var v := Verdict(CountMessage(st, msg.sender), msg.text.value, fx, linked);
    v.Some? && v.value.violation
  }

  /** Whether the warning of a flagged message goes out (a reply without `reason` raises instead). */
  predicate WarningDelivered(st: StoreState, msg: Message, fx: Effects, linked: bool)
    requires !IsIgnored(msg)
  {
    Flagged(st, msg, fx, linked)
    && WarningGoesOut(Verdict(CountMessage(st, msg.sender), msg.text.value, fx, linked).value, fx)
  }

  /** Whether `_ban_user` is reached: a warning went out, the delete step did not raise, and the limit is reached. */
  predicate BanAttempted(st: StoreState, msg: Message, fx: Effects, linked: bool)
    requires !IsIgnored(msg)
  {
    var id := msg.sender.id;
    var before := if id in st.users.records then st.users.records[id].warnings else 0;
    && WarningDelivered(st, msg, fx, linked)
    && DeleteStepPasses(st, fx)
    && before + 1 >= st.settings.warnBeforeBan
  }

  /** A flagged message raises `violations_found` and the sender's `warnings` by one; any other leaves both alone. */
  lemma HandleCountsViolation(st: StoreState, msg: Message, fx: Effects, linked: bool)
    requires !IsIgnored(msg)
    ensures var r := HandleSpec(st, msg, fx, linked).state;
            var id := msg.sender.id;
            var before := if id in st.users.records then st.users.records[id].warnings else 0;
            var flagged := if Flagged(st, msg, fx, linked) then 1 else 0;
            && id in r.users.records
            && r.stats.violationsFound == st.stats.violationsFound + flagged
            && r.users.records[id].warnings == before + flagged
  {
    var counted := CountMessage(st, msg.sender);
    CountMessageShape(st, msg.sender);
    HandleMemoryIsProcessedMemory(st, msg, fx, linked);
    if Flagged(st, msg, fx, linked) {
      var verdict := Verdict(counted, msg.text.value, fx, linked);
      ProcessViolationShape(counted, msg.sender.id, verdict.value, fx);
    }
  }

  /** `deleted_messages` rises exactly when a delivered warning is followed by a successful auto-delete. */
  lemma HandleCountsDeletion(st: StoreState, msg: Message, fx: Effects, linked: bool)
    requires !IsIgnored(msg)
    ensures HandleSpec(st, msg, fx, linked).state.stats.deletedMessages == st.stats.deletedMessages
              + (if WarningDelivered(st, msg, fx, linked) && st.settings.autoDelete && fx.deleteOk then 1 else 0)
  {
    var counted := CountMessage(st, msg.sender);
    CountMessageShape(st, msg.sender);
    HandleMemoryIsProcessedMemory(st, msg, fx, linked);
    if Flagged(st, msg, fx, linked) {
      var verdict := Verdict(counted, msg.text.value, fx, linked);
      ProcessViolationShape(counted, msg.sender.id, verdict.value, fx);
    }
  }

  /**
   * The ban check runs after a failed but reported delete as after a successful one;
   * `banned_users` rises exactly when the attempted ban succeeds (even if its notice then
   * fails), and a refused ban ends in the error reply.
   */
  lemma HandleCountsBan(st: StoreState, msg: Message, fx: Effects, linked: bool)
    requires !IsIgnored(msg)
    ensures HandleSpec(st, msg, fx, linked).state.stats.bannedUsers
              == st.stats.bannedUsers + (if BanAttempted(st, msg, fx, linked) && fx.banOk then 1 else 0)
    ensures BanAttempted(st, msg, fx, linked) && !fx.banOk ==>
              HandleSpec(st, msg, fx, linked).outcome == ErrorReplied(BanRefused)
  {
    var counted := CountMessage(st, msg.sender);
    var id := msg.sender.id;
    CountMessageShape(st, msg.sender);
    HandleMemoryIsProcessedMemory(st, msg, fx, linked);
    if Flagged(st, msg, fx, linked) {
      var verdict := Verdict(counted, msg.text.value, fx, linked);
      ProcessViolationShape(counted, id, verdict.value, fx);
      assert BumpWarnings(counted.users, id).records[id].warnings
          == (if id in st.users.records then st.users.records[id].warnings else 0) + 1;
    }
  }

  /**
   * `save_data` runs only when processing completes: an exception (ban failure included)
   * leaves the file as it was, and a completed message writes the new state when the write succeeds.
   */
  lemma HandleSavesOnlyOnCompletion(st: StoreState, msg: Message, fx: Effects, linked: bool)
    ensures var h := HandleSpec(st, msg, fx, linked);
            && (!h.outcome.Completed? ==> h.state.disk == st.disk)
            && (h.outcome.Completed? ==>
                  h.state.disk == if fx.saveOk then Present(Snapshot(h.state.settings, h.state.users, h.state.stats))
                                  else st.disk)
  {
    if !IsIgnored(msg) {
      var counted := CountMessage(st, msg.sender);
      CountMessageShape(st, msg.sender);
      var verdict := Verdict(counted, msg.text.value, fx, linked);
      if verdict.Some? && verdict.value.violation {
        ProcessViolationShape(counted, msg.sender.id, verdict.value, fx);
      }
    }
  }

  /**
   * When `handle_message` reaches its final `save_data`: the verdict is known (a ban-word hit,
   * or a linked analyzer, whose failures fail open), and a flagged message gets its warning out,
   * passes the delete step and, when a ban is attempted, bans and announces it. Without a hit,
   * an unlinked analyzer raises before anything is enforced.
   */
  lemma HandleCompletion(st: StoreState, msg: Message, fx: Effects, linked: bool)
    requires !IsIgnored(msg)
    ensures var h := HandleSpec(st, msg, fx, linked);
            var known := CheckBanWords(msg.text.value, st.settings.banWords) || linked;
            && (h.outcome == Completed <==>
                  known && (Flagged(st, msg, fx, linked) ==>
                              && WarningDelivered(st, msg, fx, linked)
                              && DeleteStepPasses(st, fx)
                              && (BanAttempted(st, msg, fx, linked) ==> fx.banOk && fx.banAnnounced)))
            && (!known ==> h.outcome == ErrorReplied(AnalyzerUnset))
  {
    var counted := CountMessage(st, msg.sender);
    var id := msg.sender.id;
    CountMessageShape(st, msg.sender);
    var verdict := Verdict(counted, msg.text.value, fx, linked);
    if verdict.Some? && verdict.value.violation {
      ProcessViolationShape(counted, id, verdict.value, fx);
      assert BumpWarnings(counted.users, id).records[id].warnings
          == (if id in st.users.records then st.users.records[id].warnings else 0) + 1;
    }
  }

  // ---------------------------------------------------------------------------------------
  // The counters stay consistent

  datatype Counter = Warnings | Messages

  function Count(rec: UserRecord, c: Counter): int {
    match c
    case Warnings => rec.warnings
    case Messages => rec.messages
  }

  /** The sum of one counter over the users listed in `order`. */
  function SumOver(order: seq<string>, records: map<string, UserRecord>, c: Counter): int
    requires forall id :: id in order ==> id in records
  {
    if order == [] then 0 else Count(records[order[0]], c) + SumOver(order[1..], records, c)
  }

  /** The sum of one counter over all user records. */
  function Total(users: UserTable, c: Counter): int {
    SumOver(users.order, users.records, c)
  }

  lemma {:induction false} SumOverIgnoresOthers(order: seq<string>, records: map<string, UserRecord>, id: string, rec: UserRecord, c: Counter)
    requires forall x :: x in order ==> x in records
    requires id !in order
    ensures SumOver(order, records[id := rec], c) == SumOver(order, records, c)
  {
    if order != [] {
      SumOverIgnoresOthers(order[1..], records, id, rec, c);
    }
  }

  lemma {:induction false} SumOverAppend(order: seq<string>, records: map<string, UserRecord>, id: string, c: Counter)
    requires forall x :: x in order ==> x in records
    requires id in records
    ensures SumOver(order + [id], records, c) == SumOver(order, records, c) + Count(records[id], c)
  {
    if order != [] {
      assert (order + [id])[1..] == order[1..] + [id];
      SumOverAppend(order[1..], records, id, c);
    }
  }

  lemma {:induction false} SumOverReplace(order: seq<string>, records: map<string, UserRecord>, id: string, rec: UserRecord, c: Counter)
    requires forall x :: x in order ==> x in records
    requires forall i, j :: 0 <= i < j < |order| ==> order[i] != order[j]
    requires id in order
    ensures SumOver(order, records[id := rec], c) == SumOver(order, records, c) - Count(records[id], c) + Count(rec, c)
  {
    if order[0] == id {
      SumOverIgnoresOthers(order[1..], records, id, rec, c);
    } else {
      SumOverReplace(order[1..], records, id, rec, c);
    }
  }

  /** Registering a user adds a record with zero counters, so no total moves. */
  lemma RegisterKeepsTotals(users: UserTable, sender: Sender, c: Counter)
    ensures Total(RegisterUser(users, sender), c) == Total(users, c)
  {
    if sender.id !in users.records {
      var rec := NewUserRecord(sender);
      SumOverIgnoresOthers(users.order, users.records, sender.id, rec, c);
      SumOverAppend(users.order, users.records[sender.id := rec], sender.id, c);
    }
  }

  /** Raising one user's counter raises that counter's total by one and leaves the other total alone. */
  lemma UpdateTotals(users: UserTable, id: string, rec: UserRecord, c: Counter)
    requires id in users.records
    ensures Total(UpdateUser(users, id, rec), c) == Total(users, c) - Count(users.records[id], c) + Count(rec, c)
  {
    SumOverReplace(users.order, users.records, id, rec, c);
  }

  /**
   * The store invariant: every deletion and every ban belongs to a violation, every violation
   * to a checked message, and the per-user counters add up to the global ones.
   */
  ghost predicate Consistent(st: StoreState) {
    && 0 <= st.stats.deletedMessages <= st.stats.violationsFound <= st.stats.messagesChecked
    && 0 <= st.stats.bannedUsers <= st.stats.violationsFound
    && Total(st.users, Warnings) == st.stats.violationsFound
    && Total(st.users, Messages) == st.stats.messagesChecked
  }

  /** Counting a message keeps the invariant. */
  lemma CountMessageConsistent(st: StoreState, sender: Sender)
    requires Consistent(st)
    ensures Consistent(CountMessage(st, sender))
  {
    var users := RegisterUser(st.users, sender);
    var rec := users.records[sender.id];
    var rec' := rec.(messages := rec.messages + 1);
    RegisterKeepsTotals(st.users, sender, Warnings);
    RegisterKeepsTotals(st.users, sender, Messages);
    UpdateTotals(users, sender.id, rec', Warnings);
    UpdateTotals(users, sender.id, rec', Messages);
  }

  /** Processing a violation keeps the invariant, on every path, raised or not. */
  lemma ProcessViolationConsistent(st: StoreState, id: string, v: ViolationResult, fx: Effects)
    requires id in st.users.records
    requires Consistent(st)
    requires st.stats.violationsFound < st.stats.messagesChecked
    ensures Consistent(ProcessViolationSpec(st, id, v, fx).state)
  {
    ProcessViolationShape(st, id, v, fx);
    var rec := st.users.records[id];
    var rec' := rec.(warnings := rec.warnings + 1);
    UpdateTotals(st.users, id, rec', Warnings);
    UpdateTotals(st.users, id, rec', Messages);
  }

  /** Every message, whatever the outside world does, keeps the invariant. */
  lemma HandlePreservesConsistency(st: StoreState, msg: Message, fx: Effects, linked: bool)
    requires Consistent(st)
    ensures Consistent(HandleSpec(st, msg, fx, linked).state)
  {
    if !IsIgnored(msg) {
      HandleMemoryIsProcessedMemory(st, msg, fx, linked);
      var counted := CountMessage(st, msg.sender);
      CountMessageConsistent(st, msg.sender);
      var verdict := Verdict(counted, msg.text.value, fx, linked);
      if verdict.Some? && verdict.value.violation {
        ProcessViolationConsistent(counted, msg.sender.id, verdict.value, fx);
      }
    }
  }

  /** A fresh installation: default settings, no users, zero statistics. */
  function InitialState(disk: FileState): (st: StoreState)
    ensures Consistent(st)
  {
    StoreState(DefaultSettings(), EmptyUsers(), ZeroStats(), disk)
  }

  /** A sequence of messages handled one after the other. */
  function Replay(st: StoreState, events: seq<(Message, Effects)>, linked: bool): StoreState
    decreases |events|
  {
    if events == [] then st
    else Replay(HandleSpec(st, events[0].0, events[0].1, linked).state, events[1..], linked)
  }

  /** From a fresh installation, any run of messages leaves the counters consistent. */
  lemma {:induction false} ReplayConsistent(st: StoreState, events: seq<(Message, Effects)>, linked: bool)
    requires Consistent(st)
    decreases |events|
    ensures Consistent(Replay(st, events, linked))
  {
    if events != [] {
      HandlePreservesConsistency(st, events[0].0, events[0].1, linked);
      ReplayConsistent(HandleSpec(st, events[0].0, events[0].1, linked).state, events[1..], linked);
    }
  }

  /** When every Telegram call succeeds, a message that hits a ban word completes and is saved. */
  lemma BanWordHitCompletes(st: StoreState, msg: Message, fx: Effects, linked: bool)
    requires !IsIgnored(msg) && CheckBanWords(msg.text.value, st.settings.banWords)
    requires fx.warningSent && fx.deleteOk && fx.banOk && fx.banAnnounced
    ensures HandleSpec(st, msg, fx, linked).outcome == Completed
    ensures Flagged(st, msg, fx, linked) && WarningDelivered(st, msg, fx, linked)
  {
    var counted := CountMessage(st, msg.sender);
    CountMessageShape(st, msg.sender);
    assert Verdict(counted, msg.text.value, fx, linked) == Some(CreateBanWordViolation());
  }

  /**
   * Two messages "spam" from one user, with "spam" banned and `warn_before_ban` at 2, and every
   * call succeeding: the first is warned and deleted, the second is deleted and banned.
   */
  lemma SecondStrikeBans()
    ensures var st := StoreState(Settings(70, ["spam"], true, 2), EmptyUsers(), ZeroStats(), Absent);
            var fx := Effects(Failed, true, true, true, true, true, true);
            var msg := Message(Sender("7", false, None, None, None), Some("spam"));
            var once := HandleSpec(st, msg, fx, true);
            var twice := HandleSpec(once.state, msg, fx, true);
            && once.outcome == Completed && once.state.stats == Stats(1, 1, 1, 0)
            && twice.outcome == Completed && twice.state.stats == Stats(2, 2, 2, 1)
            && twice.state.users.records["7"].warnings == 2
  {
    var st := StoreState(Settings(70, ["spam"], true, 2), EmptyUsers(), ZeroStats(), Absent);
    var fx := Effects(Failed, true, true, true, true, true, true);
    var msg := Message(Sender("7", false, None, None, None), Some("spam"));
    assert Lower("spam") == "spam";
    assert OccursAt("spam", "spam", 0);
    CheckBanWordsSpec("spam", ["spam"]);
    var once := HandleSpec(st, msg, fx, true);
    BanWordHitCompletes(st, msg, fx, true);
    HandleCountsMessage(st, msg, fx, true);
    HandleCountsViolation(st, msg, fx, true);
    HandleCountsDeletion(st, msg, fx, true);
    HandleCountsBan(st, msg, fx, true);
    assert !BanAttempted(st, msg, fx, true);
    assert once.state.settings == st.settings;
    assert once.state.users.records["7"].warnings == 1;
    var twice := HandleSpec(once.state, msg, fx, true);
    BanWordHitCompletes(once.state, msg, fx, true);
    HandleCountsMessage(once.state, msg, fx, true);
    HandleCountsViolation(once.state, msg, fx, true);
    HandleCountsDeletion(once.state, msg, fx, true);
    HandleCountsBan(once.state, msg, fx, true);
    assert BanAttempted(once.state, msg, fx, true);
  }
}
