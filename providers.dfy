// The providers a registry draws on, behind the interface of
// cfitall/providers/base.py: each has a `provider_name`, a `dict` of
// configuration data and an `update()` that reports success.
module Providers {
  import opened Wrappers
  import opened Tree
  import opened Environment
  import opened Filesystem

  /** What the providers read: the process environment and the filesystem. */
  datatype World = World(environ: seq<(string, string)>, disk: Disk)

  datatype Provider =
    | Env(env: EnvironmentProvider)
    | Files(fs: FilesystemProvider)

  /** `provider.provider_name` */
  function Name(p: Provider): string
  {
    match p
    case Env(_) => "environment"
    case Files(fs) => fs.providerName
  }

  /**
   * `provider.provider_name` of the classes as written: EnvironmentProvider
   * sets none and inherits "not_implemented" from ConfigProviderBase.
   */
  function NameAsWritten(p: Provider): string
  {
    match p
    case Env(_) => "not_implemented"
    case Files(fs) => fs.providerName
  }

  /** The objects `update()` may change. */
  function Footprint(p: Provider): set<object>
  {
    match p
    case Env(_) => {}
    case Files(fs) => {fs}
  }

  /** `provider.dict`: reading the environment can raise; a file provider hands out its data. */
  function DictOf(p: Provider, world: World): Result<Dict>
    reads Footprint(p)
  {
    match p
    case Env(e) => Environment.DictOf(e, world.environ)
    case Files(fs) => Ok(fs.data)
  }

  /** What `provider.update()` returns or raises. */
  function UpdateResult(p: Provider, world: World): Result<bool>
  {
    match p
    case Env(_) => Ok(true)
    case Files(fs) => Filesystem.UpdateResult(fs.path, fs.prefix, world.disk)
  }

  /**
   * What `provider.update()` returns or raises with the classes as written:
   * EnvironmentProvider inherits the `update()` of ConfigProviderBase, which
   * raises NotImplementedError.
   */
  function UpdateResultAsWritten(p: Provider, world: World): Result<bool>
  {
    match p
    case Env(_) => Err(NotImplementedError)
    case Files(fs) => Filesystem.UpdateResult(fs.path, fs.prefix, world.disk)
  }

  /** `provider.update()` */
  method Update(p: Provider, world: World) returns (r: Result<bool>)
    modifies Footprint(p)
    ensures r == UpdateResult(p, world)
    ensures p.Files? ==> p.fs.State() == AfterUpdate(p.fs.path, p.fs.prefix, old(p.fs.State()), world.disk)
  {
    match p
    case Env(_) =>
      r := Ok(true);
    case Files(fs) =>
      r := fs.Update(world.disk);
  }
}
