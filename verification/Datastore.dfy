/** Named datastores and the store primitives the backend is built on.

A store is a file plus an in-memory entry holding the lock owner and the dirty bit. A file that
was truncated by a delete still opens, and reads as the empty configuration, but does not "exist".
 */
module Datastore {
  import opened Optional

  /** A configuration, abstracted to its content and to whether it satisfies the schema. */
  datatype Config = Config(content: int, valid: bool)

  datatype File = Absent | Truncated | Holds(config: Config)

  datatype Db = Candidate | Running | Startup | Rollback | Failsafe | Tmp

  /** Owner 0 means unlocked. */
  datatype Entry = Entry(file: File, owner: nat, modified: bool)

  /** The table of stores, one entry per name. */
  datatype Table = Table(candidate: Entry, running: Entry, startup: Entry, rollback: Entry, failsafe: Entry, tmp: Entry)
  {
    function Get(d: Db): Entry {
      match d
      case Candidate => candidate
      case Running => running
      case Startup => startup
      case Rollback => rollback
      case Failsafe => failsafe
      case Tmp => tmp
    }

    function Set(d: Db, e: Entry): Table {
      match d
      case Candidate => this.(candidate := e)
      case Running => this.(running := e)
      case Startup => this.(startup := e)
      case Rollback => this.(rollback := e)
      case Failsafe => this.(failsafe := e)
      case Tmp => this.(tmp := e)
    }
  }

  datatype Options = Options(autolock: bool, emptyValid: bool)

  function EmptyConfig(o: Options): Config { Config(0, o.emptyValid) }

  /** A zero-length file counts as not existing. */
  predicate Exists(t: Table, d: Db) { t.Get(d).file.Holds? }

  /** The candidate lives in memory: once its tree is dropped it cannot be read back from its file. */
  function Read(t: Table, d: Db, o: Options): Option<Config> {
    match t.Get(d).file
    case Absent => None
    case Truncated => if d == Candidate then None else Some(EmptyConfig(o))
    case Holds(c) => Some(c)
  }

  /** Copying a zero-length file gives a zero-length file. */
  function Copy(t: Table, from: Db, to: Db, o: Options): Option<Table> {
    match Read(t, from, o)
    case None => None
    case Some(c) =>
      Some(t.Set(to, t.Get(to).(file := if to == Candidate then Holds(c) else t.Get(from).file)))
  }

  /** Copies the file only. */
  function CopyFile(t: Table, from: Db, to: Db): Option<Table> {
    if t.Get(from).file.Absent? then None else Some(t.Set(to, t.Get(to).(file := t.Get(from).file)))
  }

  /** Deleting truncates the file, and drops the lock and the dirty bit with the cache. */
  function Delete(t: Table, d: Db): Table {
    t.Set(d, Entry(if t.Get(d).file.Absent? then Absent else Truncated, 0, false))
  }

  function Create(t: Table, d: Db): Table {
    if t.Get(d).file.Absent? then t.Set(d, t.Get(d).(file := Truncated)) else t
  }

  function Reset(t: Table, d: Db): Table {
    Create(if Exists(t, d) then Delete(t, d) else t, d)
  }

  /** The file is moved aside under another name. */
  function RenameAway(t: Table, d: Db): Table { t.Set(d, t.Get(d).(file := Absent)) }

  function SetOwner(t: Table, d: Db, id: nat): Table { t.Set(d, t.Get(d).(owner := id)) }

  function SetModified(t: Table, d: Db, bit: bool): Table { t.Set(d, t.Get(d).(modified := bit)) }

  /** The stores an RPC may name as its target or source. */
  predicate Nameable(d: Db) { d.Candidate? || d.Running? || d.Startup? }
}
