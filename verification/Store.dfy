/**
 The configuration store of internal/store/store.go: a file that is read whole, and replaced by writing a
 temporary file and renaming it.  Every operation runs under the store's mutex, so operations are atomic with
 respect to each other; what can interrupt one is an I/O failure or a crash between its file steps.
*/
module Store {
  import opened Basics

  datatype Client = Client(
    id: string, name: string, kind: string, scopes: seq<string>, tokenJTI: string,
    createdAt: int, lastSeen: int, revoked: bool)

  datatype Webhook = Webhook(id: string, url: string, events: seq<string>, createdAt: int)

  datatype PendingPairCode = PendingPairCode(code: string, scopes: seq<string>, expiresAt: int)

  datatype PendingSession = PendingSession(
    id: string, code: string, clientName: string, clientType: string, status: string,
    token: string, clientID: string, scopes: seq<string>, expiresAt: int)

  datatype Config = Config(
    serverName: string,
    clients: seq<Client>,
    webhooks: seq<Webhook>,
    codes: seq<PendingPairCode>,
    sessions: seq<PendingSession>,
    lastWatchRowID: int)

  const EMPTY: Config := Config("", [], [], [], [], 0)

  /** A file, by what decoding its bytes gives: nothing there, a configuration, or bytes that do not decode. */
  datatype File = Missing | Text(cfg: Config) | Torn

  datatype Disk = Disk(path: File, tmp: File)

  datatype StoreError = ReadFailed | DecodeFailed | SaveFailed

  /** `Load`; `readable` is false when reading fails for a reason other than absence. */
  function Load(d: Disk, readable: bool): Result<Config, StoreError> {
    if !readable then Err(ReadFailed)
    else
      match d.path
      case Missing => Ok(EMPTY)
      case Text(cfg) => Ok(cfg)
      case Torn => Err(DecodeFailed)
  }

  /** Without a file everything is empty; a file that does not decode, or cannot be read, is an error. */
  lemma LoadMeans(tmp: File, cfg: Config)
    ensures Load(Disk(Missing, tmp), true) == Ok(Config("", [], [], [], [], 0))
    ensures Load(Disk(Text(cfg), tmp), true) == Ok(cfg)
    ensures Load(Disk(Torn, tmp), true) == Err(DecodeFailed)
    ensures forall d :: Load(d, false) == Err(ReadFailed)
  {
  }

  /** The file steps of `saveLocked`, in order. */
  datatype SaveStep = MakeDir | Encode | BeginWrite | FinishWrite | Rename

  const SAVE_STEPS: seq<SaveStep> := [MakeDir, Encode, BeginWrite, FinishWrite, Rename]

  function Do(d: Disk, step: SaveStep, cfg: Config): Disk {
    match step
    case MakeDir => d
    case Encode => d
    case BeginWrite => d.(tmp := Torn)
    case FinishWrite => d.(tmp := Text(cfg))
    case Rename => Disk(d.tmp, Missing)
  }

  /** The disk after a save of `cfg` that got through its first `done` steps and then failed, crashed or ended. */
  function Saving(d: Disk, cfg: Config, done: nat): Disk
    requires done <= |SAVE_STEPS|
  {
    if done == 0 then d else Do(Saving(d, cfg, done - 1), SAVE_STEPS[done - 1], cfg)
  }

  /** What a save can leave behind: the old file untouched unless every step ran, and then exactly the new one. */
  lemma SavingIsAllOrNothing(d: Disk, cfg: Config, done: nat)
    requires done <= |SAVE_STEPS|
    ensures Saving(d, cfg, done).path == if done == |SAVE_STEPS| then Text(cfg) else d.path
  {
    if done > 0 { SavingIsAllOrNothing(d, cfg, done - 1); }
    if done == |SAVE_STEPS| {
      assert Saving(d, cfg, 4) == Do(Saving(d, cfg, 3), FinishWrite, cfg);
    }
  }

  // ---------------------------------------------------------------- a history of updates

  /** One call of `Update`: its closure, whether the read works, and how many save steps complete. */
  datatype Attempt<!E> = Attempt(fn: Config -> Result<Config, E>, readable: bool, done: nat)

  ghost predicate Possible<E(!new)>(attempts: seq<Attempt<E>>) {
    forall a :: a in attempts ==> a.done <= |SAVE_STEPS|
  }

  function AfterAttempt<E>(d: Disk, a: Attempt<E>): Disk
    requires a.done <= |SAVE_STEPS|
  {
    match Load(d, a.readable)
    case Err(_) => d
    case Ok(cfg) =>
      match a.fn(cfg)
      case Err(_) => d
      case Ok(next) => Saving(d, next, a.done)
  }

  ghost function AfterAll<E(!new)>(d: Disk, attempts: seq<Attempt<E>>): Disk
    requires Possible(attempts)
  {
    if attempts == [] then d
    else AfterAttempt(AfterAll(d, attempts[..|attempts| - 1]), attempts[|attempts| - 1])
  }

  /** The reference: a variable that a completed update replaces and any other update leaves alone. */
  ghost function Variable<E>(cfg: Config, attempts: seq<Attempt<E>>): Config {
    if attempts == [] then cfg
    else
      var before := Variable(cfg, attempts[..|attempts| - 1]);
      var a := attempts[|attempts| - 1];
      if a.readable && a.fn(before).Ok? && a.done == |SAVE_STEPS| then a.fn(before).value else before
  }

  /** With failures and crashes at any step of any update, a later load sees exactly the completed updates. */
  lemma {:induction false} UpdatesAreAtomic<E(!new)>(d: Disk, attempts: seq<Attempt<E>>)
    requires Possible(attempts) && Load(d, true).Ok?
    ensures Load(AfterAll(d, attempts), true) == Ok(Variable(Load(d, true).value, attempts))
  {
    if attempts != [] {
      var front, a := attempts[..|attempts| - 1], attempts[|attempts| - 1];
      UpdatesAreAtomic(d, front);
      var before := AfterAll(d, front);
      var cfg := Variable(Load(d, true).value, front);
      assert a in attempts;
      if a.readable && a.fn(cfg).Ok? { SavingIsAllOrNothing(before, a.fn(cfg).value, a.done); }
    }
  }

  datatype Failure<+E> = Io(error: StoreError) | Rejected(reason: E)

  class FileStore {
    var disk: Disk

    constructor (disk: Disk)
      ensures this.disk == disk
    {
      this.disk := disk;
    }

    method LoadLocked(readable: bool) returns (r: Result<Config, StoreError>)
      ensures r == Load(disk, readable)
    {
      if !readable {
        return Err(ReadFailed);
      }
      match disk.path
      case Missing => r := Ok(EMPTY);
      case Text(cfg) => r := Ok(cfg);
      case Torn => r := Err(DecodeFailed);
    }

    /** Runs the file steps until one fails; `done` is how many succeed. */
    method SaveLocked(cfg: Config, done: nat) returns (saved: bool)
      requires done <= |SAVE_STEPS|
      modifies this
      ensures disk == Saving(old(disk), cfg, done)
      ensures saved <==> done == |SAVE_STEPS|
      ensures disk.path == if saved then Text(cfg) else old(disk.path)
    {
      var i := 0;
      while i < |SAVE_STEPS|
        invariant 0 <= i <= done
        invariant disk == Saving(old(disk), cfg, i)
      {
        if i == done {
          SavingIsAllOrNothing(old(disk), cfg, done);
          return false;
        }
        disk := Do(disk, SAVE_STEPS[i], cfg);
        i := i + 1;
      }
      SavingIsAllOrNothing(old(disk), cfg, done);
      return true;
    }

    /** Returns the saved configuration only if it is what a later load will find; any error changes nothing. */
    method Update<E>(fn: Config -> Result<Config, E>, readable: bool, done: nat)
      returns (r: Result<Config, Failure<E>>)
      requires done <= |SAVE_STEPS|
      modifies this
      ensures disk == AfterAttempt(old(disk), Attempt(fn, readable, done))
      ensures r.Ok? ==> Load(disk, true) == Ok(r.value)
      ensures r.Err? ==> disk.path == old(disk.path)
      ensures r.Ok? <==> var was := Load(old(disk), readable); was.Ok? && fn(was.value).Ok? && done == |SAVE_STEPS|
      ensures r.Ok? ==> fn(Load(old(disk), readable).value) == Ok(r.value)
      ensures r.Err? && r.error.Rejected? <==>
        Load(old(disk), readable).Ok? && fn(Load(old(disk), readable).value).Err?
    {
      var loaded := LoadLocked(readable);
      if loaded.Err? {
        return Err(Io(loaded.error));
      }
      var next := fn(loaded.value);
      if next.Err? {
        return Err(Rejected(next.error));
      }
      var saved := SaveLocked(next.value, done);
      if !saved {
        return Err(Io(SaveFailed));
      }
      return Ok(next.value);
    }
  }
}
