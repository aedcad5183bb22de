// The configuration-file provider of cfitall/providers/filesystem.py: it
// looks through a list of directories for `{prefix}.json`, `{prefix}.yaml`
// or `{prefix}.yml` and loads the first one found. The filesystem is passed
// in as the directory listings and the parsed contents of the files; JSON
// and YAML parsing themselves are not modelled.
module Filesystem {
  import opened Wrappers
  import opened Strings
  import opened Values
  import opened Tree
  import opened Sorting
  import opened MergeProperties

  /** What opening and parsing a file yields. */
  datatype Document =
    | Mapping(tree: Dict)  // the file parses to a dict
    | NotMapping           // it parses to something else, e.g. a list, or None for an empty YAML file
    | Malformed            // the parser raises; the error is logged
    | Unreadable           // `open` raises; the error is logged

  /**
   * The filesystem as the provider sees it: `os.path.isdir(d)` holds for
   * the keys of `listings`, with `os.listdir(d)` their value, and
   * `os.path.isfile(f)` holds for the keys of `files`.
   */
  datatype Disk = Disk(listings: map<string, seq<string>>, files: map<string, Document>)

  /** `os.path.join(a, b)` on POSIX. */
  function JoinPath(a: string, b: string): string
  {
    if StartsWith(b, "/") then b
    else if a == [] || EndsWith(a, "/") then a + b
    else a + "/" + b
  }

  /** The file type a directory entry stands for, if it is one of the three accepted names. */
  function Candidate(prefix: string, file: string): Option<string>
  {
    if file == Lower(prefix) + ".json" then Some("json")
    else if file == Lower(prefix) + ".yaml" || file == Lower(prefix) + ".yml" then Some("yaml")
    else None
  }

  /** The first accepted name among `files[i..]`. */
  function FirstCandidate(prefix: string, files: seq<string>, i: nat): (r: Option<string>)
    requires i <= |files|
    ensures r.Some? ==> Candidate(prefix, r.value).Some? && r.value in files[i..]
    ensures r.Some? ==> exists k :: i <= k < |files| && files[k] == r.value &&
                          forall j :: i <= j < k ==> Candidate(prefix, files[j]).None?
    ensures r.None? ==> forall j :: i <= j < |files| ==> Candidate(prefix, files[j]).None?
    decreases |files| - i
  {
    if i == |files| then None
    else if Candidate(prefix, files[i]).Some? then Some(files[i])
    else FirstCandidate(prefix, files, i + 1)
  }

  /**
   * The file `_set_config_file` settles on, with its type, looking in the
   * directories `path[i..]` in order and in each through its sorted listing.
   */
  function Locate(path: seq<string>, prefix: string, disk: Disk, i: nat): Option<(string, string)>
    requires i <= |path|
    decreases |path| - i
  {
    if i == |path| then None
    else if path[i] in disk.listings && FirstCandidate(prefix, Sort(disk.listings[path[i]]), 0).Some? then
      var file := FirstCandidate(prefix, Sort(disk.listings[path[i]]), 0).value;
      Some((JoinPath(path[i], file), Candidate(prefix, file).value))
    else Locate(path, prefix, disk, i + 1)
  }

  /** A dict with its top-level keys lower-cased, as `{key.lower(): value for ...}` builds it. */
  function LowerTopKeys(d: Dict): Dict
  {
    if d == [] then []
    else Set(LowerTopKeys(d[..|d| - 1]), Lower(d[|d| - 1].0), d[|d| - 1].1)
  }

  /**
   * The data `_read_config_file` leaves for the located file, or the
   * exception it raises. A missing file leaves `data` as it was; a parse
   * error leaves `{}`; a document that is not a dict has no `items`; and
   * when `open` fails, the local `data` is read before it was ever bound.
   */
  function Loaded(configFile: Option<string>, disk: Disk, data: Dict): Result<Dict>
  {
    if configFile.None? || configFile.value !in disk.files then Ok(data)
    else match disk.files[configFile.value]
      case Mapping(tree) => Ok(LowerTopKeys(tree))
      case Malformed => Ok([])
      case NotMapping => Err(AttributeError)
      case Unreadable => Err(UnboundLocalError)
  }

  /** What `update()` returns for a provider searching `path` for `prefix`. */
  function UpdateResult(path: seq<string>, prefix: string, disk: Disk): Result<bool>
  {
    match Locate(path, prefix, disk, 0)
    case None => Ok(false)
    case Some((file, _)) =>
      match Loaded(Some(file), disk, [])
      case Err(e) => Err(e)
      case Ok(_) => Ok(true)
  }

  /** The fields of a provider that `update()` changes. */
  datatype FsState = FsState(configFile: Option<string>, configFileType: Option<string>, data: Dict)

  /**
   * The state after `update()`: with a file located, it is recorded and its
   * data loaded (the data stays as it was when loading raises); with none,
   * nothing changes.
   */
  function AfterUpdate(path: seq<string>, prefix: string, s: FsState, disk: Disk): FsState
  {
    match Locate(path, prefix, disk, 0)
    case None => s
    case Some((file, kind)) =>
      FsState(Some(file), Some(kind), match Loaded(Some(file), disk, s.data) case Ok(d) => d case Err(_) => s.data)
  }

  class FilesystemProvider {
    const path: seq<string>
    const prefix: string
    const providerName: string
    var configFile: Option<string>
    var configFileType: Option<string>
    var data: Dict

    function State(): FsState
      reads this
    {
      FsState(configFile, configFileType, data)
    }

    /** `FilesystemProvider(path, prefix, provider_name)`: locates the file, loads nothing yet. */
    constructor (path: seq<string>, prefix: string, disk: Disk, providerName: string := "filesystem")
      ensures this.path == path && this.prefix == prefix && this.providerName == providerName
      ensures data == []
      ensures match Locate(path, prefix, disk, 0)
              case None => configFile.None? && configFileType.None?
              case Some((file, kind)) => configFile == Some(file) && configFileType == Some(kind)
    {
      this.path := path;
      this.prefix := prefix;
      this.providerName := providerName;
      configFile := None;
      configFileType := None;
      data := [];
      new;
      var _ := SetConfigFile(disk);
      data := [];
    }

    /** `_set_config_file()` */
    method SetConfigFile(disk: Disk) returns (found: bool)
      modifies this
      ensures found == Locate(path, prefix, disk, 0).Some?
      ensures found ==> configFile == Some(Locate(path, prefix, disk, 0).value.0) &&
                        configFileType == Some(Locate(path, prefix, disk, 0).value.1)
      ensures !found ==> configFile == old(configFile) && configFileType == old(configFileType)
      ensures data == old(data)
    {
      for i := 0 to |path|
        invariant Locate(path, prefix, disk, 0) == Locate(path, prefix, disk, i)
        invariant unchanged(this)
      {
        if path[i] in disk.listings {
          var files := Sort(disk.listings[path[i]]);
          for j := 0 to |files|
            invariant FirstCandidate(prefix, files, 0) == FirstCandidate(prefix, files, j)
            invariant unchanged(this)
          {
            var file := files[j];
            if file == Lower(prefix) + ".json" {
              configFile := Some(JoinPath(path[i], file));
              configFileType := Some("json");
              return true;
            } else if file == Lower(prefix) + ".yaml" || file == Lower(prefix) + ".yml" {
              configFile := Some(JoinPath(path[i], file));
              configFileType := Some("yaml");
              return true;
            }
          }
        }
      }
      return false;
    }

    /** `_read_config_file()` */
    method ReadConfigFile(disk: Disk) returns (r: Result<()>)
      modifies this
      ensures configFile == old(configFile) && configFileType == old(configFileType)
      ensures match Loaded(configFile, disk, old(data))
              case Ok(d) => r == Ok(()) && data == d
              case Err(e) => r == Err(e) && data == old(data)
    {
      if configFile.Some? && configFile.value in disk.files {
        match disk.files[configFile.value]
        case Mapping(tree) =>
          data := LowerTopKeysLoop(tree);
        case Malformed =>
          data := [];
        case NotMapping =>
          return Err(AttributeError);
        case Unreadable =>
          return Err(UnboundLocalError);
      }
      return Ok(());
    }

    /** `update()`: locate the file again and, when there is one, reload it. */
    method Update(disk: Disk) returns (r: Result<bool>)
      modifies this
      ensures r == UpdateResult(path, prefix, disk)
      ensures State() == AfterUpdate(path, prefix, old(State()), disk)
    {
      var found := SetConfigFile(disk);
      if found {
        var read := ReadConfigFile(disk);
        if read.Err? {
          return Err(read.error);
        }
        return Ok(true);
      }
      return Ok(false);
    }

    /** The `dict` property. */
    function Dict(): Dict
      reads this
    {
      data
    }
  }

  /** The dict comprehension `{key.lower(): value for key, value in d.items()}`. */
  method LowerTopKeysLoop(d: Dict) returns (r: Dict)
    ensures r == LowerTopKeys(d)
  {
    r := [];
    for i := 0 to |d|
      invariant r == LowerTopKeys(d[..i])
    {
      assert d[..i + 1][..i] == d[..i];
      r := Set(r, Lower(d[i].0), d[i].1);
    }
    assert d[..|d|] == d;
  }

  // ------------------------------------------------------------- lemmas

  lemma {:induction false} LessEqCommonPrefix(p: string, a: string, b: string)
    ensures LessEq(p + a, p + b) <==> LessEq(a, b)
  {
    if p != [] {
      assert (p + a)[0] == p[0] == (p + b)[0];
      assert (p + a)[1..] == p[1..] + a && (p + b)[1..] == p[1..] + b;
      LessEqCommonPrefix(p[1..], a, b);
    } else {
      assert p + a == a && p + b == b;
    }
  }

  lemma FirstCandidateAt(prefix: string, files: seq<string>, i: nat) returns (k: nat)
    requires i <= |files| && FirstCandidate(prefix, files, i).Some?
    ensures i <= k < |files| && files[k] == FirstCandidate(prefix, files, i).value
    ensures forall j :: i <= j < k ==> Candidate(prefix, files[j]).None?
    decreases |files| - i
  {
    if Candidate(prefix, files[i]).Some? {
      k := i;
    } else {
      k := FirstCandidateAt(prefix, files, i + 1);
    }
  }

  /**
   * Within a directory, `{prefix}.json` wins over `{prefix}.yaml` and
   * `{prefix}.yml`: the sorted listing puts it first.
   */
  lemma JsonFirst(prefix: string, files: seq<string>)
    requires Lower(prefix) + ".json" in files
    ensures FirstCandidate(prefix, Sort(files), 0) == Some(Lower(prefix) + ".json")
  {
    var json := Lower(prefix) + ".json";
    var s := Sort(files);
    assert json in multiset(files);
    assert json in s;
    var m :| 0 <= m < |s| && s[m] == json;
    var k := FirstCandidateAt(prefix, s, 0);
    if k < m {
      assert LessEq(s[k], s[m]);
      CandidateAtMostJson(prefix, s[k]);
    }
  }

  /** The yaml names sort after the json one, so an accepted name not above it is it. */
  lemma CandidateAtMostJson(prefix: string, file: string)
    requires Candidate(prefix, file).Some? && LessEq(file, Lower(prefix) + ".json")
    ensures file == Lower(prefix) + ".json"
  {
    LessEqCommonPrefix(Lower(prefix), ".yaml", ".json");
    LessEqCommonPrefix(Lower(prefix), ".yml", ".json");
  }

  /** None of the names is one of the three accepted ones. */
  predicate NoCandidate(prefix: string, files: seq<string>)
  {
    forall j :: 0 <= j < |files| ==> Candidate(prefix, files[j]).None?
  }

  lemma SortNoCandidate(prefix: string, files: seq<string>)
    ensures NoCandidate(prefix, Sort(files)) <==> NoCandidate(prefix, files)
  {
    var s := Sort(files);
    forall j | 0 <= j < |files| && NoCandidate(prefix, s)
      ensures Candidate(prefix, files[j]).None?
    {
      assert files[j] in multiset(files);
      assert files[j] in s;
    }
    forall j | 0 <= j < |s| && NoCandidate(prefix, files)
      ensures Candidate(prefix, s[j]).None?
    {
      assert s[j] in multiset(s);
      assert s[j] in files;
    }
  }

  /** Nothing is located exactly when no existing directory of `path[i..]` lists an accepted name. */
  lemma {:induction false} LocateNone(path: seq<string>, prefix: string, disk: Disk, i: nat)
    requires i <= |path|
    ensures Locate(path, prefix, disk, i).None? <==>
              forall j :: i <= j < |path| && path[j] in disk.listings ==> NoCandidate(prefix, disk.listings[path[j]])
    decreases |path| - i
  {
    if i < |path| {
      LocateNone(path, prefix, disk, i + 1);
      if path[i] in disk.listings {
        SortNoCandidate(prefix, disk.listings[path[i]]);
      }
    }
  }

  /**
   * The located file is in the first directory of `path[i..]` that exists
   * and lists an accepted name, and it is the first accepted name of that
   * directory's sorted listing.
   */
  lemma {:induction false} LocateFirstDirectory(path: seq<string>, prefix: string, disk: Disk, i: nat) returns (k: nat)
    requires i <= |path| && Locate(path, prefix, disk, i).Some?
    ensures i <= k < |path| && path[k] in disk.listings
    ensures forall j :: i <= j < k && path[j] in disk.listings ==> NoCandidate(prefix, disk.listings[path[j]])
    ensures FirstCandidate(prefix, Sort(disk.listings[path[k]]), 0).Some?
    ensures Locate(path, prefix, disk, i) ==
              Some((JoinPath(path[k], FirstCandidate(prefix, Sort(disk.listings[path[k]]), 0).value),
                    Candidate(prefix, FirstCandidate(prefix, Sort(disk.listings[path[k]]), 0).value).value))
    decreases |path| - i
  {
    if path[i] in disk.listings && FirstCandidate(prefix, Sort(disk.listings[path[i]]), 0).Some? {
      k := i;
    } else {
      var here := path[i] in disk.listings ==> NoCandidate(prefix, disk.listings[path[i]]);
      if path[i] in disk.listings {
        assert NoCandidate(prefix, Sort(disk.listings[path[i]]));
        SortNoCandidate(prefix, disk.listings[path[i]]);
      }
      assert here;
      k := LocateFirstDirectory(path, prefix, disk, i + 1);
      forall j | i <= j < k && path[j] in disk.listings
        ensures NoCandidate(prefix, disk.listings[path[j]])
      {
        if j == i {
          assert here;
        }
      }
    }
  }

  lemma {:induction false} LowerTopKeysGet(d: Dict, k: string)
    ensures Get(LowerTopKeys(d), k) == FindLower(d, k)
  {
    if d != [] {
      LowerTopKeysGet(d[..|d| - 1], k);
      GetSet(LowerTopKeys(d[..|d| - 1]), Lower(d[|d| - 1].0), d[|d| - 1].1, k);
    }
  }

  /**
   * Loaded data has its top-level keys lower-cased: key `k` holds the value
   * of the last entry of the file whose key lower-cases to `k`, nested
   * dicts as parsed; there is no key that is not lower case.
   */
  lemma LoadedTopKeys(d: Dict, k: string)
    ensures Get(LowerTopKeys(d), k) == FindLower(d, k)
    ensures Get(LowerTopKeys(d), k).Some? ==> IsLowerCase(k)
  {
    LowerTopKeysGet(d, k);
    if FindLower(d, k).Some? {
      FindLowerIsLower(d, k);
    }
  }

  lemma {:induction false} FindLowerIsLower(d: Dict, k: string)
    requires FindLower(d, k).Some?
    ensures IsLowerCase(k)
  {
    if Lower(d[|d| - 1].0) == k {
      LowerIsLowerCase(d[|d| - 1].0);
    } else {
      FindLowerIsLower(d[..|d| - 1], k);
    }
  }

  /** Updating twice against the same filesystem is updating once. */
  lemma UpdateTwice(path: seq<string>, prefix: string, s: FsState, disk: Disk)
    ensures AfterUpdate(path, prefix, AfterUpdate(path, prefix, s, disk), disk) == AfterUpdate(path, prefix, s, disk)
  {
  }

  /** `update()` reports True exactly when a file is located, unless loading it raises. */
  lemma UpdateFound(path: seq<string>, prefix: string, disk: Disk)
    ensures UpdateResult(path, prefix, disk) == Ok(true) ==> Locate(path, prefix, disk, 0).Some?
    ensures UpdateResult(path, prefix, disk) == Ok(false) <==> Locate(path, prefix, disk, 0).None?
  {
  }
}
