/**
 * `DataManager`: the settings, the user records and the statistics the bot keeps in memory,
 * and the JSON file `user_data.json` they are loaded from and saved to.
 *
 * The file is modelled as an abstract document (which of the three top-level keys it holds,
 * and their values), not as JSON text.
 */
module Store {
  import opened Wrappers

  /** The `settings` object. */
  datatype Settings = Settings(
    sensitivity: int,        // 1..100 when set by command; higher is stricter
    banWords: seq<string>,   // checked as substrings of the lowered message text
    autoDelete: bool,        // delete a violating message
    warnBeforeBan: int)      // warnings at which a user is banned

  /** One entry of `users`, created on a user's first message. */
  datatype UserRecord = UserRecord(
    username: Option<string>,
    firstName: Option<string>,
    lastName: Option<string>,
    warnings: int,
    messages: int)

  /** The `users` dictionary: its keys in insertion order, and the record of each key. */
  datatype Users = Users(order: seq<string>, records: map<string, UserRecord>) {
    ghost predicate Valid() {
      && (forall i, j :: 0 <= i < j < |order| ==> order[i] != order[j])
      && (forall id :: id in records <==> id in order)
    }
  }

  /** A Python dict: every key once, in the order of first insertion. */
  type UserTable = u: Users | u.Valid() witness Users([], map[])

  /** The `stats` object: four event counters. */
  datatype Stats = Stats(
    messagesChecked: int,
    violationsFound: int,
    deletedMessages: int,
    bannedUsers: int)

  /** A parsed data file: each of the three required top-level keys, if present. */
  datatype Document = Document(
    settings: Option<Settings>,
    users: Option<UserTable>,
    stats: Option<Stats>)

  /** What `user_data.json` holds on disk. */
  datatype FileState =
    | Absent                  // `os.path.exists` is false
    | Unreadable              // `open` for reading raises an OSError
    | Malformed               // `json.load` raises (JSONDecodeError, UnicodeDecodeError)
    | Present(doc: Document)  // a JSON object

  /** The error that escapes loading. */
  datatype LoadError = CreateFailed | ReadFailed

  /** Everything the data manager owns: memory and the file. */
  datatype StoreState = StoreState(settings: Settings, users: UserTable, stats: Stats, disk: FileState)

  /** The ban words of a new installation, in order. */
  function DefaultBanWords(): seq<string> {
    ["реклама", "купить", "http://", "telegram.me", "оскорбление"]
  }

  function DefaultSettings(): (r: Settings)
    ensures r.sensitivity == 70 && r.autoDelete && r.warnBeforeBan == 3
    ensures r.banWords == DefaultBanWords() && |r.banWords| == 5
  {
    Settings(70, DefaultBanWords(), true, 3)
  }

  function EmptyUsers(): (r: UserTable)
    ensures r.order == [] && r.records == map[]
  {
    Users([], map[])
  }

  function ZeroStats(): Stats {
    Stats(0, 0, 0, 0)
  }

  /** `_default_data()`. */
  function DefaultDocument(): (r: Document)
    ensures IsComplete(r)
    ensures r.settings == Some(DefaultSettings()) && r.users == Some(EmptyUsers())
    ensures r.stats == Some(Stats(0, 0, 0, 0))
  {
    Document(Some(DefaultSettings()), Some(EmptyUsers()), Some(ZeroStats()))
  }

  /** The required-key check of `_load_data`: all of settings, users and stats are present. */
  predicate IsComplete(doc: Document) {
    doc.settings.Some? && doc.users.Some? && doc.stats.Some?
  }

  /** The document `save_data` writes: exactly the three in-memory values. */
  function Snapshot(settings: Settings, users: UserTable, stats: Stats): (r: Document)
    ensures IsComplete(r)
  {
    Document(Some(settings), Some(users), Some(stats))
  }

  /** The result of `_load_data`: the file afterwards, and the values taken or the error raised. */
  datatype LoadOutcome =
    | Loaded(disk: FileState, settings: Settings, users: UserTable, stats: Stats)
    | LoadFailed(disk: FileState, error: LoadError)

  /**
   * `_load_data`, given whether writing the default file would succeed: a complete document
   * is taken as it is; a missing, malformed or incomplete file is replaced by the defaults,
   * which are then read back; an unreadable file, or a failed rewrite, raises.
   */
  function LoadSpec(disk: FileState, createOk: bool): (r: LoadOutcome)
    ensures r.Loaded? ==> r.disk == Present(Snapshot(r.settings, r.users, r.stats))
    ensures r.Loaded? <==> (disk.Present? && IsComplete(disk.doc)) || (createOk && !disk.Unreadable?)
    ensures r.LoadFailed? ==> r.disk == disk
  {
    match disk
    case Unreadable => LoadFailed(disk, ReadFailed)
    case Present(doc) =>
      if IsComplete(doc) then Loaded(disk, doc.settings.value, doc.users.value, doc.stats.value)
      else LoadDefaults(disk, createOk)
    case _ => LoadDefaults(disk, createOk)
  }

  /** `_create_default_data_file()` followed by a reload of what it wrote. */
  function LoadDefaults(disk: FileState, createOk: bool): LoadOutcome {
    if createOk then Loaded(Present(DefaultDocument()), DefaultSettings(), EmptyUsers(), ZeroStats())
    else LoadFailed(disk, CreateFailed)
  }

  /** A complete document is accepted and its three values are taken exactly. */
  lemma LoadTakesCompleteDocument(doc: Document, createOk: bool)
    requires IsComplete(doc)
    ensures LoadSpec(Present(doc), createOk)
              == Loaded(Present(doc), doc.settings.value, doc.users.value, doc.stats.value)
  {
  }

  /** A missing, malformed or incomplete file yields the defaults once the rewrite succeeds. */
  lemma LoadFallsBackToDefaults(disk: FileState)
    requires !disk.Unreadable?
    requires disk.Present? ==> !IsComplete(disk.doc)
    ensures LoadSpec(disk, true)
              == Loaded(Present(DefaultDocument()), DefaultSettings(), EmptyUsers(), Stats(0, 0, 0, 0))
  {
  }

  /** Loading a saved snapshot gives back the saved values, and loading is idempotent. */
  lemma SaveLoadRoundTrip(settings: Settings, users: UserTable, stats: Stats, createOk: bool)
    ensures var r := LoadSpec(Present(Snapshot(settings, users, stats)), createOk);
            r.Loaded? && r.settings == settings && r.users == users && r.stats == stats
    ensures forall disk: FileState, ok: bool | LoadSpec(disk, ok).Loaded? ::
              LoadSpec(LoadSpec(disk, ok).disk, createOk) == LoadSpec(disk, ok)
  {
  }

  /** Replacing the record of a known user keeps the insertion order. */
  function UpdateUser(users: UserTable, id: string, rec: UserRecord): (r: UserTable)
    requires id in users.records
    ensures r.order == users.order && r.records == users.records[id := rec]
  {
    Users(users.order, users.records[id := rec])
  }

  /** `users[id] = rec` for a new key: the key goes to the end of the order. */
  function AddUser(users: UserTable, id: string, rec: UserRecord): (r: UserTable)
    requires id !in users.records
    ensures r.order == users.order + [id] && r.records == users.records[id := rec]
  {
    Users(users.order + [id], users.records[id := rec])
  }

  class DataManager {
    var settings: Settings
    var users: UserTable
    var stats: Stats
    /** The content of `user_data.json`. */
    var disk: FileState

    function State(): StoreState
      reads this
    {
      StoreState(settings, users, stats, disk)
    }

    /**
     * `DataManager()`: loads the file. When loading raises, Python never yields the object;
     * here the fields then keep the defaults and `disk` is what the failed load left.
     */
    constructor (file: FileState, createOk: bool)
      ensures var r := LoadSpec(file, createOk);
              && disk == r.disk
              && (r.Loaded? ==> settings == r.settings && users == r.users && stats == r.stats)
    {
      settings, users, stats, disk := DefaultSettings(), EmptyUsers(), ZeroStats(), file;
      new;
      var _ := LoadData(createOk);
    }

    /** `_create_default_data_file()`: writes the defaults, or raises the IOError. */
    method CreateDefaultDataFile(writeOk: bool) returns (raised: bool)
      modifies this`disk
      ensures raised == !writeOk
      ensures disk == if writeOk then Present(DefaultDocument()) else old(disk)
    {
      if writeOk {
        disk := Present(DefaultDocument());
        raised := false;
      } else {
        raised := true;
      }
    }

    /** `_load_data()`: the required-key check, with a rewrite of the defaults and a retry. */
    method LoadData(createOk: bool) returns (error: Option<LoadError>)
      modifies this
      decreases if disk.Present? && IsComplete(disk.doc) then 0 else 1
      ensures var r := LoadSpec(old(disk), createOk);
              && disk == r.disk
              && (r.Loaded? ==> error == None && settings == r.settings && users == r.users && stats == r.stats)
              && (r.LoadFailed? ==> error == Some(r.error)
                                    && settings == old(settings) && users == old(users) && stats == old(stats))
    {
      if disk.Absent? {
        var raised := CreateDefaultDataFile(createOk);
        if raised {
          return Some(CreateFailed);
        }
      }
      if disk.Unreadable? {
        error := Some(ReadFailed);
      } else if disk.Present? && IsComplete(disk.doc) {
        settings := disk.doc.settings.value;
        users := disk.doc.users.value;
        stats := disk.doc.stats.value;
        error := None;
      } else {
        var raised := CreateDefaultDataFile(createOk);
        if raised {
          return Some(CreateFailed);
        }
        error := LoadData(createOk);
      }
    }

    /** `save_data()`: writes the snapshot, or logs the IOError; memory is never touched. */
    method SaveData(writeOk: bool)
      modifies this`disk
      ensures disk == if writeOk then Present(Snapshot(settings, users, stats)) else old(disk)
    {
      if writeOk {
        disk := Present(Snapshot(settings, users, stats));
      }
    }
  }
}
