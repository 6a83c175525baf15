/**
 * The `Handlers` object of the bot: the message handler and the state-changing commands,
 * acting in place on the shared `DataManager`. Each method is proved against the
 * functional description of the same step (`Enforcement`, `BanWords`, `Text`).
 */
module Bot {
  import opened Wrappers
  import opened Text
  import opened Store
  import opened Analyzer
  import opened BanWords
  import opened Enforcement

  /** The reply of `/set_sensitivity`. */
  datatype SensitivityReply =
    | AskForLevel          // no argument
    | LevelSet(level: int) // accepted and stored
    | LevelOutOfRange      // an integer outside 1..100
    | NotANumber           // `int()` raised ValueError

  /** The reply of `/add_ban_word` and `/remove_ban_word`. */
  datatype WordReply =
    | AskForWord
    | AlreadyListed(word: string)
    | Added(word: string)
    | NotListed(word: string)
    | Removed(word: string)

  /** The outcome of `/user_info`. */
  datatype UserInfoReply =
    | AskForUser                  // no argument
    | Found(record: UserRecord)   // the record whose details are shown
    | NotFound                    // "user not found"
    | Crashed                     // an exception escaped to the error handler

  // ---------------------------------------------------------------------------------------
  // The `/user_info` lookup

  /** Whether a record's username equals the identifier, ignoring case; an absent username is "". */
  predicate UsernameMatches(rec: UserRecord, ident: string) {
    Lower(if rec.username.Some? then rec.username.value else "") == Lower(ident)
  }

  /**
   * The search loop as written: users in insertion order, an id match first, then
   * `data.get('username', '').lower()`, which raises AttributeError on a record whose
   * username is stored as None (the key exists, so the default "" is not used).
   */
  function LookupAsWritten(order: seq<string>, records: map<string, UserRecord>, ident: string): (r: UserInfoReply)
    requires forall id :: id in order ==> id in records
    ensures r.Found? ==> exists i :: 0 <= i < |order| && r.record == records[order[i]]
    ensures r != AskForUser
  {
    if order == [] then NotFound
    else
      var rec := records[order[0]];
      if order[0] == ident then Found(rec)
      else if rec.username.None? then Crashed
      else if Lower(rec.username.value) == Lower(ident) then Found(rec)
      else
        var rest := LookupAsWritten(order[1..], records, ident);
        assert rest.Found? ==> exists i :: 0 <= i < |order| && rest.record == records[order[i]] by {
          if rest.Found? {
            var i :| 0 <= i < |order[1..]| && rest.record == records[order[1..][i]];
            assert order[1..][i] == order[i + 1];
          }
        }
        rest
  }

  /** Whether the user listed as `id` is the one `/user_info ident` asks for. */
  predicate Wanted(id: string, rec: UserRecord, ident: string) {
    id == ident || UsernameMatches(rec, ident)
  }

  /** The intended lookup: the same search, with an absent username compared as "". */
  function LookupIntended(order: seq<string>, records: map<string, UserRecord>, ident: string): UserInfoReply
    requires forall id :: id in order ==> id in records
  {
    if order == [] then NotFound
    else if Wanted(order[0], records[order[0]], ident) then Found(records[order[0]])
    else LookupIntended(order[1..], records, ident)
  }

  /**
   * The intended lookup never crashes, and it finds the first user in insertion order whose
   * id equals the identifier or whose username matches it ignoring case; it reports "not
   * found" exactly when there is none.
   */
  lemma {:induction false} LookupIntendedFindsFirst(order: seq<string>, records: map<string, UserRecord>, ident: string)
    requires forall id :: id in order ==> id in records
    ensures var r := LookupIntended(order, records, ident);
            && (r.NotFound? || r.Found?)
            && (r.NotFound? <==> forall i :: 0 <= i < |order| ==> !Wanted(order[i], records[order[i]], ident))
            && (r.Found? ==> exists i :: (0 <= i < |order| && Wanted(order[i], records[order[i]], ident)
                                          && r.record == records[order[i]]
                                          && forall j :: 0 <= j < i ==> !Wanted(order[j], records[order[j]], ident)))
  {
    if order != [] && !Wanted(order[0], records[order[0]], ident) {
      LookupIntendedFindsFirst(order[1..], records, ident);
      var r := LookupIntended(order[1..], records, ident);
      assert forall i :: 0 < i < |order| ==> order[i] == order[1..][i - 1];
      if r.Found? {
        var i :| 0 <= i < |order[1..]| && Wanted(order[1..][i], records[order[1..][i]], ident)
                 && r.record == records[order[1..][i]]
                 && forall j :: 0 <= j < i ==> !Wanted(order[1..][j], records[order[1..][j]], ident);
        assert Wanted(order[i + 1], records[order[i + 1]], ident);
        assert forall j :: 0 < j < i + 1 ==> !Wanted(order[j], records[order[j]], ident) by {
          forall j | 0 < j < i + 1
            ensures !Wanted(order[j], records[order[j]], ident)
          {
            assert order[j] == order[1..][j - 1];
          }
        }
      }
    }
  }

  /**
   * Position `i` is where the search as written raises: no earlier user is the one asked for,
   * and the user at `i` is not it by id and has no username.
   */
  predicate CrashesAt(order: seq<string>, records: map<string, UserRecord>, ident: string, i: int)
    requires forall id :: id in order ==> id in records
    requires 0 <= i < |order|
  {
    && order[i] != ident
    && records[order[i]].username.None?
    && forall j :: 0 <= j < i ==> !Wanted(order[j], records[order[j]], ident)
  }

  /**
   * The code as written crashes exactly when the search reaches a user without a username
   * before it reaches the one asked for, whatever the users and the identifier.
   */
  lemma {:induction false} LookupAsWrittenCrashes(order: seq<string>, records: map<string, UserRecord>, ident: string)
    requires forall id :: id in order ==> id in records
    ensures (LookupAsWritten(order, records, ident) == Crashed)
              <==> (exists i :: 0 <= i < |order| && CrashesAt(order, records, ident, i))
  {
    if order != [] {
      var rec := records[order[0]];
      var tail := order[1..];
      if order[0] == ident || (rec.username.Some? && Lower(rec.username.value) == Lower(ident)) {
        assert Wanted(order[0], rec, ident);
        assert forall i :: 0 <= i < |order| ==> !CrashesAt(order, records, ident, i);
      } else if rec.username.None? {
        assert CrashesAt(order, records, ident, 0);
      } else {
        assert !Wanted(order[0], rec, ident);
        LookupAsWrittenCrashes(tail, records, ident);
        assert !CrashesAt(order, records, ident, 0);
        forall i | 0 < i < |order|
          ensures CrashesAt(order, records, ident, i) <==> CrashesAt(tail, records, ident, i - 1)
        {
          assert forall j :: 0 < j < |order| ==> order[j] == tail[j - 1];
        }
        if LookupAsWritten(tail, records, ident) == Crashed {
          var k :| 0 <= k < |tail| && CrashesAt(tail, records, ident, k);
          assert CrashesAt(order, records, ident, k + 1);
        }
      }
    }
  }

  /** Whenever the code as written does not crash, it agrees with the intended lookup. */
  lemma {:induction false} LookupAsWrittenAgrees(order: seq<string>, records: map<string, UserRecord>, ident: string)
    requires forall id :: id in order ==> id in records
    ensures LookupAsWritten(order, records, ident) != Crashed
            ==> LookupAsWritten(order, records, ident) == LookupIntended(order, records, ident)
    ensures (forall id :: id in order ==> records[id].username.Some?)
            ==> LookupAsWritten(order, records, ident) == LookupIntended(order, records, ident)
  {
    if order != [] {
      LookupAsWrittenAgrees(order[1..], records, ident);
    }
  }

  /**
   * The crash: the first user has no username, the second is "bob". `/user_info bob`
   * raises instead of showing bob, which the intended lookup does.
   */
  lemma LookupCrashesOnMissingUsername()
    ensures var bob := UserRecord(Some("bob"), Some("Bob"), None, 0, 1);
            var anon := UserRecord(None, Some("Anna"), None, 0, 1);
            var records := map["1" := anon, "2" := bob];
            && LookupAsWritten(["1", "2"], records, "bob") == Crashed
            && LookupIntended(["1", "2"], records, "bob") == Found(bob)
  {
    var bob := UserRecord(Some("bob"), Some("Bob"), None, 0, 1);
    var anon := UserRecord(None, Some("Anna"), None, 0, 1);
    var records := map["1" := anon, "2" := bob];
    assert ["1", "2"][1..] == ["2"];
    assert "1" != "bob" && "2" != "bob";
  }

  // ---------------------------------------------------------------------------------------
  // The handler object

  class Handlers {
    const dataManager: DataManager
    const analyzer: OpenAIAnalyzer

    /** The analyzer, once linked, reads the sensitivity of the same data manager. */
    ghost predicate Valid()
      reads this, analyzer
    {
      analyzer.dataManager == null || analyzer.dataManager == dataManager
    }

    /** Built once the analyzer is linked to the same data manager, or not linked at all. */
    constructor (dataManager: DataManager, analyzer: OpenAIAnalyzer)
      requires analyzer.dataManager == null || analyzer.dataManager == dataManager
      ensures this.dataManager == dataManager && this.analyzer == analyzer
      ensures Valid()
    {
      this.dataManager := dataManager;
      this.analyzer := analyzer;
    }

    /** `_init_user_data(user)`: a record with the sender's names and both counters zero. */
    method InitUserData(sender: Sender)
      requires sender.id !in dataManager.users.records
      modifies dataManager`users
      ensures dataManager.users == AddUser(old(dataManager.users), sender.id, NewUserRecord(sender))
    {
      dataManager.users := AddUser(dataManager.users, sender.id, NewUserRecord(sender));
    }

    /** `_update_user_stats(user_id)`. */
    method UpdateUserStats(id: string)
      requires id in dataManager.users.records
      modifies dataManager`users
      ensures dataManager.users == BumpMessages(old(dataManager.users), id)
    {
      var rec := dataManager.users.records[id];
      dataManager.users := UpdateUser(dataManager.users, id, rec.(messages := rec.messages + 1));
    }

    /** `_delete_violation_message`: counts a successful delete; a failed one is reported by editing the warning. */
    method DeleteViolationMessage(fx: Effects) returns (failure: Option<Failure>)
      modifies dataManager`stats
      ensures var s := DeleteStep(old(dataManager.State()), fx);
              dataManager.State() == s.state && failure == s.failure
    {
      if fx.deleteOk {
        dataManager.stats := dataManager.stats.(deletedMessages := dataManager.stats.deletedMessages + 1);
        failure := None;
      } else if fx.editOk {
        failure := None;
      } else {
        failure := Some(DeleteNoticeNotEdited);
      }
    }

    /** `_ban_user`: counts the ban as soon as it succeeds, then announces it; any failure is re-raised. */
    method BanUser(fx: Effects) returns (failure: Option<Failure>)
      modifies dataManager`stats
      ensures var s := BanStep(old(dataManager.State()), fx);
              dataManager.State() == s.state && failure == s.failure
    {
      if !fx.banOk {
        return Some(BanRefused);
      }
      dataManager.stats := dataManager.stats.(bannedUsers := dataManager.stats.bannedUsers + 1);
      failure := if fx.banAnnounced then None else Some(BanNotAnnounced);
    }

    /** `_process_violation`: count, warn, delete when `auto_delete` is on, ban once the warnings reach the limit. */
    method ProcessViolation(id: string, v: ViolationResult, fx: Effects) returns (failure: Option<Failure>)
      requires id in dataManager.users.records
      modifies dataManager`stats, dataManager`users
      ensures var s := ProcessViolationSpec(old(dataManager.State()), id, v, fx);
              dataManager.State() == s.state && failure == s.failure
    {
      dataManager.stats := dataManager.stats.(violationsFound := dataManager.stats.violationsFound + 1);
      var rec := dataManager.users.records[id];
      dataManager.users := UpdateUser(dataManager.users, id, rec.(warnings := rec.warnings + 1));
      // `_send_warning`: the message text needs `violation['reason']`
      if !fx.warningSent || v.reason.None? {
        return Some(WarningNotSent);
      }
      if dataManager.settings.autoDelete {
        failure := DeleteViolationMessage(fx);
        if failure.Some? {
          return;
        }
      }
      if dataManager.users.records[id].warnings >= dataManager.settings.warnBeforeBan {
        failure := BanUser(fx);
      } else {
        failure := None;
      }
    }

    /**
     * `handle_message(update)`: the store and the reply are exactly those of `HandleSpec`,
     * with the analyzer counted as linked when its data manager is set.
     */
    method HandleMessage(msg: Message, fx: Effects) returns (outcome: HandleOutcome)
      requires Valid()
      modifies dataManager
      ensures var h := HandleSpec(old(dataManager.State()), msg, fx, analyzer.dataManager != null);
              dataManager.State() == h.state && outcome == h.outcome
    {
      if msg.text.None? || msg.text.value == "" {
        return Ignored;
      }
      if msg.sender.isBot {
        return Ignored;
      }
      ghost var st := dataManager.State();
      ghost var linked := analyzer.dataManager != null;
      var id := msg.sender.id;
      if id !in dataManager.users.records {
        InitUserData(msg.sender);
      }
      UpdateUserStats(id);
      dataManager.stats := dataManager.stats.(messagesChecked := dataManager.stats.messagesChecked + 1);
      assert dataManager.State() == CountMessage(st, msg.sender);
      ghost var counted := dataManager.State();
      var violation: ViolationResult;
      if CheckBanWords(msg.text.value, dataManager.settings.banWords) {
        violation := CreateBanWordViolation();
      } else {
        var analysis := analyzer.AnalyzeMessage(fx.classifier);
        if analysis.Failure? {
          assert Verdict(counted, msg.text.value, fx, linked).None?;
          return ErrorReplied(AnalyzerUnset);
        }
        violation := analysis.value;
      }
      assert Verdict(counted, msg.text.value, fx, linked) == Some(violation);
      if violation.violation {
        var failure := ProcessViolation(id, violation, fx);
        assert Processed(st, msg, fx, linked) == Step(dataManager.State(), failure);
        if failure.Some? {
          return ErrorReplied(failure.value);
        }
      } else {
        assert Processed(st, msg, fx, linked) == Step(dataManager.State(), None);
      }
      dataManager.SaveData(fx.saveOk);
      outcome := Completed;
    }

    /**
     * `/set_sensitivity <level>`: the setting changes, and the file is rewritten, only for an
     * integer in 1..100; every other reply leaves the store exactly as it was.
     */
    method SetSensitivity(args: seq<string>, saveOk: bool) returns (reply: SensitivityReply)
      modifies dataManager`settings, dataManager`disk
      ensures reply == AskForLevel <==> args == []
      ensures reply == NotANumber <==> args != [] && ParseInt(args[0]).None?
      ensures reply.LevelSet? <==> args != [] && ParseInt(args[0]).Some? && 1 <= ParseInt(args[0]).value <= 100
      ensures reply.LevelSet? ==>
                && reply.level == ParseInt(args[0]).value
                && dataManager.settings == old(dataManager.settings).(sensitivity := reply.level)
                && dataManager.disk == (if saveOk then Present(Snapshot(dataManager.settings, dataManager.users, dataManager.stats))
                                        else old(dataManager.disk))
      ensures !reply.LevelSet? ==> dataManager.State() == old(dataManager.State())
      ensures dataManager.users == old(dataManager.users) && dataManager.stats == old(dataManager.stats)
    {
      if args == [] {
        return AskForLevel;
      }
      var level := ParseInt(args[0]);
      if level.None? {
        return NotANumber;
      }
      if 1 <= level.value <= 100 {
        dataManager.settings := dataManager.settings.(sensitivity := level.value);
        dataManager.SaveData(saveOk);
        reply := LevelSet(level.value);
      } else {
        reply := LevelOutOfRange;
      }
    }

    /**
     * `/add_ban_word <words...>`: the arguments joined by spaces and lowered are appended,
     * unless already listed; the file is rewritten only when the list grows.
     */
    method AddBanWord(args: seq<string>, saveOk: bool) returns (reply: WordReply)
      modifies dataManager`settings, dataManager`disk
      ensures args == [] ==> reply == AskForWord && dataManager.State() == old(dataManager.State())
      ensures args != [] ==>
                var word := Lower(JoinWithSpaces(args));
                && dataManager.settings == old(dataManager.settings).(banWords := WithWord(old(dataManager.settings.banWords), word))
                && (word in old(dataManager.settings.banWords) ==>
                      reply == AlreadyListed(word) && dataManager.disk == old(dataManager.disk))
                && (word !in old(dataManager.settings.banWords) ==>
                      && reply == Added(word)
                      && dataManager.disk == (if saveOk then Present(Snapshot(dataManager.settings, dataManager.users, dataManager.stats))
                                              else old(dataManager.disk)))
    {
      if args == [] {
        return AskForWord;
      }
      var word := Lower(JoinWithSpaces(args));
      if word in dataManager.settings.banWords {
        reply := AlreadyListed(word);
      } else {
        dataManager.settings := dataManager.settings.(banWords := dataManager.settings.banWords + [word]);
        dataManager.SaveData(saveOk);
        reply := Added(word);
      }
    }

    /**
     * `/remove_ban_word <words...>`: the first occurrence of the joined, lowered arguments is
     * removed, when listed; the file is rewritten only when the list shrinks.
     */
    method RemoveBanWord(args: seq<string>, saveOk: bool) returns (reply: WordReply)
      modifies dataManager`settings, dataManager`disk
      ensures args == [] ==> reply == AskForWord && dataManager.State() == old(dataManager.State())
      ensures args != [] ==>
                var word := Lower(JoinWithSpaces(args));
                && dataManager.settings == old(dataManager.settings).(banWords := WithoutWord(old(dataManager.settings.banWords), word))
                && (word !in old(dataManager.settings.banWords) ==>
                      reply == NotListed(word) && dataManager.disk == old(dataManager.disk))
                && (word in old(dataManager.settings.banWords) ==>
                      && reply == Removed(word)
                      && dataManager.disk == (if saveOk then Present(Snapshot(dataManager.settings, dataManager.users, dataManager.stats))
                                              else old(dataManager.disk)))
    {
      if args == [] {
        return AskForWord;
      }
      var word := Lower(JoinWithSpaces(args));
      if word !in dataManager.settings.banWords {
        reply := NotListed(word);
      } else {
        dataManager.settings := dataManager.settings.(banWords := WithoutWord(dataManager.settings.banWords, word));
        dataManager.SaveData(saveOk);
        reply := Removed(word);
      }
    }

    /**
     * `/user_info <id or @username>`: leading '@' characters are stripped and the users are
     * searched in insertion order, as written (see `LookupAsWritten`); whenever that search
     * does not crash, it returns what the intended lookup returns.
     */
    method ShowUserInfo(args: seq<string>) returns (reply: UserInfoReply)
      ensures args == [] ==> reply == AskForUser
      ensures args != [] ==>
                reply == LookupAsWritten(dataManager.users.order, dataManager.users.records, StripLeadingAt(args[0]))
      ensures args != [] && reply != Crashed ==>
                reply == LookupIntended(dataManager.users.order, dataManager.users.records, StripLeadingAt(args[0]))
    {
      if args == [] {
        return AskForUser;
      }
      var ident := StripLeadingAt(args[0]);
      var order := dataManager.users.order;
      var records := dataManager.users.records;
      LookupAsWrittenAgrees(order, records, ident);
      var i := 0;
      while i < |order|
        invariant 0 <= i <= |order|
        invariant LookupAsWritten(order[i..], records, ident) == LookupAsWritten(order, records, ident)
      {
        assert order[i..][1..] == order[i + 1..];
        var rec := records[order[i]];
        if order[i] == ident {
          return Found(rec);
        }
        if rec.username.None? {
          return Crashed;
        }
        if Lower(rec.username.value) == Lower(ident) {
          return Found(rec);
        }
        i := i + 1;
      }
      reply := NotFound;
    }
  }
}
