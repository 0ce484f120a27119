/** Loading the agent configuration from a list of paths: each file is one source, each
    directory contributes its ".json" entries in name order, and all sources are merged
    left to right. */
module Loader {
  import opened Wrappers
  import opened Errors
  import opened Text
  import opened AgentConfig
  import opened Decoder

  /** What a path names: a file holding a document, or a directory listing entry names. */
  datatype Entry = File(doc: Document) | Dir(names: seq<string>)

  /** The part of the filesystem the loader reads: the entry at each existing path. */
  type FileSystem = map<string, Entry>

  /** Only directory entries whose names end in this suffix are read. */
  const ConfigSuffix := ".json"

  predicate IsConfigName(name: string) {
    HasSuffix(name, ConfigSuffix)
  }

  /** The path of entry `name` of directory `dir`. */
  function Join(dir: string, name: string): string {
    dir + "/" + name
  }

  /** A file's configuration, or a decode error naming its path. */
  function ReadFile(path: string, doc: Document): (r: Result<Config, ConfigError>)
    ensures r.Err? <==> DecodeConfig(doc).Err?
    ensures r.Err? ==> r.error == DecodeError(path)
    ensures r.Ok? ==> r.value == DecodeConfig(doc).value
  {
    match DecodeConfig(doc)
    case Err(_) => Err(DecodeError(path))
    case Ok(c) => Ok(c)
  }

  /** What entry `name` of directory `dir` contributes: nothing when its name lacks the
      suffix or it is itself a directory, otherwise its file's configuration. */
  function ReadDirEntry(fs: FileSystem, dir: string, name: string): (r: Result<Option<Config>, ConfigError>)
    ensures !IsConfigName(name) ==> r == Ok(None)
    ensures IsConfigName(name) && Join(dir, name) !in fs ==> r == Err(PathNotFound(Join(dir, name)))
    ensures Join(dir, name) in fs && fs[Join(dir, name)].Dir? ==> r == Ok(None)
    ensures IsConfigName(name) && Join(dir, name) in fs && fs[Join(dir, name)].File? ==>
      (DecodeConfig(fs[Join(dir, name)].doc).Ok? ==> r == Ok(Some(DecodeConfig(fs[Join(dir, name)].doc).value))) &&
      (DecodeConfig(fs[Join(dir, name)].doc).Err? ==> r == Err(DecodeError(Join(dir, name))))
    ensures r.Ok? && r.value.Some? ==>
      IsConfigName(name) && Join(dir, name) in fs && fs[Join(dir, name)].File? &&
      DecodeConfig(fs[Join(dir, name)].doc) == Ok(r.value.value)
  {
    if !IsConfigName(name) then Ok(None)
    else
      var path := Join(dir, name);
      if path !in fs then Err(PathNotFound(path))
      else match fs[path]
        case Dir(_) => Ok(None)
        case File(doc) =>
          match ReadFile(path, doc)
          case Err(e) => Err(e)
          case Ok(c) => Ok(Some(c))
  }

  /** The configurations the entries `names` of `dir` contribute, in the order of `names`,
      or the first error. */
  function DirSources(fs: FileSystem, dir: string, names: seq<string>): (r: Result<seq<Config>, ConfigError>)
    ensures r.Ok? ==> |r.value| <= |names|
    ensures r.Err? ==> exists i :: 0 <= i < |names| && ReadDirEntry(fs, dir, names[i]).Err?
    ensures (exists i :: 0 <= i < |names| && ReadDirEntry(fs, dir, names[i]).Err?) ==> r.Err?
  {
    if |names| == 0 then Ok([])
    else
      match DirSources(fs, dir, names[..|names| - 1])
      case Err(e) => Err(e)
      case Ok(prev) =>
        match ReadDirEntry(fs, dir, names[|names| - 1])
        case Err(e) => Err(e)
        case Ok(None) => Ok(prev)
        case Ok(Some(c)) => Ok(prev + [c])
  }

  /** The configurations one path contributes: a file is one source; a directory's entries
      are read in ascending name order. */
  function PathSources(fs: FileSystem, path: string): (r: Result<seq<Config>, ConfigError>)
    ensures path !in fs ==> r == Err(PathNotFound(path))
    ensures path in fs && fs[path].File? ==>
      (r.Ok? <==> DecodeConfig(fs[path].doc).Ok?) &&
      (r.Ok? ==> r.value == [DecodeConfig(fs[path].doc).value]) &&
      (r.Err? ==> r.error == DecodeError(path))
  {
    if path !in fs then Err(PathNotFound(path))
    else match fs[path]
      case File(doc) =>
        (match ReadFile(path, doc)
         case Err(e) => Err(e)
         case Ok(c) => Ok([c]))
      case Dir(names) => DirSources(fs, path, Sort(names))
  }

  /** The sources of `first` followed by those of `second`, or the first error met. */
  function AndThen(first: Result<seq<Config>, ConfigError>, second: Result<seq<Config>, ConfigError>): (r: Result<seq<Config>, ConfigError>)
    ensures r.Ok? <==> first.Ok? && second.Ok?
    ensures r.Ok? ==> r.value == first.value + second.value
    ensures first.Err? ==> r == first
    ensures first.Ok? && second.Err? ==> r == second
  {
    match first
    case Err(e) => Err(e)
    case Ok(a) =>
      match second
      case Err(e) => Err(e)
      case Ok(b) => Ok(a + b)
  }

  /** The configurations all paths contribute, path by path, or the first error. */
  function Sources(fs: FileSystem, paths: seq<string>): (r: Result<seq<Config>, ConfigError>)
    ensures |paths| == 0 ==> r == Ok([])
    ensures r.Ok? ==> forall i :: 0 <= i < |paths| ==> paths[i] in fs
  {
    if |paths| == 0 then Ok([])
    else
      var init := paths[..|paths| - 1];
      assert forall i :: 0 <= i < |init| ==> init[i] == paths[i];
      AndThen(Sources(fs, init), PathSources(fs, paths[|paths| - 1]))
  }

  /** The effective configuration: every source merged over the empty configuration, left to right. */
  function LoadConfig(fs: FileSystem, paths: seq<string>): (r: Result<Config, ConfigError>)
    ensures |paths| == 0 ==> r == Ok(Empty)
    ensures r.Ok? ==> forall i :: 0 <= i < |paths| ==> paths[i] in fs
    ensures r.Err? <==> Sources(fs, paths).Err?
    ensures r.Err? ==> r.error == Sources(fs, paths).error
    ensures r.Ok? ==> r.value == MergeAll(Sources(fs, paths).value)
  {
    match Sources(fs, paths)
    case Err(e) => Err(e)
    case Ok(configs) => Ok(MergeAll(configs))
  }

  /** Reads the paths in order, merging each source into the result as it is read and
      stopping at the first path or document that cannot be read. */
  method ReadConfigPaths(fs: FileSystem, paths: seq<string>) returns (r: Result<Config, ConfigError>)
    ensures r == LoadConfig(fs, paths)
  {
    var result := Empty;
    ghost var read: seq<Config> := [];
    for i := 0 to |paths|
      invariant Sources(fs, paths[..i]) == Ok(read)
      invariant result == MergeAll(read)
    {
      var path := paths[i];
      assert paths[..i] + [path] == paths[..i + 1];
      SourcesSnoc(fs, paths[..i], path);
      var merged := ReadPath(fs, path, result, read);
      if merged.Err? {
        SourcesPrefixError(fs, paths, i + 1);
        return merged;
      }
      result := merged.value;
      read := read + PathSources(fs, path).value;
    }
    assert paths[..|paths|] == paths;
    return Ok(result);
  }

  /** Reads one path and merges what it contributes into `start`, the merge of the sources
      `read` before it: a file's configuration, or a directory's entries in name order. */
  method ReadPath(fs: FileSystem, path: string, start: Config, ghost read: seq<Config>)
    returns (r: Result<Config, ConfigError>)
    requires start == MergeAll(read)
    ensures PathSources(fs, path).Err? ==> r == Err(PathSources(fs, path).error)
    ensures PathSources(fs, path).Ok? ==> r == Ok(MergeAll(read + PathSources(fs, path).value))
  {
    if path !in fs {
      return Err(PathNotFound(path));
    }
    match fs[path]
    case File(doc) =>
      var decoded := DecodeConfig(doc);
      if decoded.Err? {
        return Err(DecodeError(path));
      }
      assert PathSources(fs, path) == Ok([decoded.value]);
      MergeAllSnoc(read, decoded.value);
      return Ok(MergeConfig(start, decoded.value));
    case Dir(names) =>
      r := ReadDirectory(fs, path, Sort(names), start, read);
  }

  /** Reads the entries `sorted` of directory `dir` in order, merging each ".json" file into
      `start`, the merge of the sources `read` before it; stops at the first entry that
      cannot be read. */
  method ReadDirectory(fs: FileSystem, dir: string, sorted: seq<string>, start: Config, ghost read: seq<Config>)
    returns (r: Result<Config, ConfigError>)
    requires start == MergeAll(read)
    ensures DirSources(fs, dir, sorted).Err? ==> r == Err(DirSources(fs, dir, sorted).error)
    ensures DirSources(fs, dir, sorted).Ok? ==> r == Ok(MergeAll(read + DirSources(fs, dir, sorted).value))
  {
    var result := start;
    ghost var fromDir: seq<Config> := [];
    assert sorted[..0] == [] && read + fromDir == read;
    for j := 0 to |sorted|
      invariant DirSources(fs, dir, sorted[..j]) == Ok(fromDir)
      invariant result == MergeAll(read + fromDir)
    {
      var entry := ReadDirEntry(fs, dir, sorted[j]);
      DirStep(fs, dir, sorted, j, fromDir);
      match entry
      case Err(e) =>
        return Err(e);
      case Ok(None) =>
      case Ok(Some(c)) =>
        MergeAllExtend(read, fromDir, c);
        result := MergeConfig(result, c);
        fromDir := fromDir + [c];
    }
    assert sorted[..|sorted|] == sorted;
    return Ok(result);
  }

  /** One step of reading a directory: entry `j` either ends the read with its error or
      extends the sources of the entries before it by what it contributes. */
  lemma DirStep(fs: FileSystem, dir: string, sorted: seq<string>, j: nat, fromDir: seq<Config>)
    requires j < |sorted| && DirSources(fs, dir, sorted[..j]) == Ok(fromDir)
    ensures ReadDirEntry(fs, dir, sorted[j]).Err? ==>
      DirSources(fs, dir, sorted) == Err(ReadDirEntry(fs, dir, sorted[j]).error)
    ensures ReadDirEntry(fs, dir, sorted[j]) == Ok(None) ==> DirSources(fs, dir, sorted[..j + 1]) == Ok(fromDir)
    ensures ReadDirEntry(fs, dir, sorted[j]).Ok? && ReadDirEntry(fs, dir, sorted[j]).value.Some? ==>
      DirSources(fs, dir, sorted[..j + 1]) == Ok(fromDir + [ReadDirEntry(fs, dir, sorted[j]).value.value])
  {
    assert sorted[..j] + [sorted[j]] == sorted[..j + 1];
    DirSourcesSnoc(fs, dir, sorted[..j], sorted[j]);
    if ReadDirEntry(fs, dir, sorted[j]).Err? {
      DirPrefixError(fs, dir, sorted, j + 1);
    }
  }

  lemma MergeAllExtend(read: seq<Config>, fromDir: seq<Config>, c: Config)
    ensures MergeAll(read + (fromDir + [c])) == MergeConfig(MergeAll(read + fromDir), c)
  {
    MergeAllSnoc(read + fromDir, c);
    assert read + fromDir + [c] == read + (fromDir + [c]);
  }

  /** An error while reading the first `k` paths is the error of the whole load. */
  lemma {:induction false} SourcesPrefixError(fs: FileSystem, paths: seq<string>, k: nat)
    requires k <= |paths| && Sources(fs, paths[..k]).Err?
    ensures Sources(fs, paths) == Sources(fs, paths[..k])
    decreases |paths|
  {
    if k < |paths| {
      var init := paths[..|paths| - 1];
      assert init[..k] == paths[..k];
      SourcesPrefixError(fs, init, k);
    } else {
      assert paths[..k] == paths;
    }
  }

  /** An error while reading the first `k` entries of a directory is the directory's error. */
  lemma {:induction false} DirPrefixError(fs: FileSystem, dir: string, names: seq<string>, k: nat)
    requires k <= |names| && DirSources(fs, dir, names[..k]).Err?
    ensures DirSources(fs, dir, names) == DirSources(fs, dir, names[..k])
    decreases |names|
  {
    if k < |names| {
      var init := names[..|names| - 1];
      assert init[..k] == names[..k];
      DirPrefixError(fs, dir, init, k);
    } else {
      assert names[..k] == names;
    }
  }

  lemma SourcesSnoc(fs: FileSystem, paths: seq<string>, path: string)
    ensures Sources(fs, paths + [path]) == AndThen(Sources(fs, paths), PathSources(fs, path))
  {
    assert (paths + [path])[..|paths|] == paths;
  }

  lemma AndThenAssociative(x: Result<seq<Config>, ConfigError>, y: Result<seq<Config>, ConfigError>,
                           z: Result<seq<Config>, ConfigError>)
    ensures AndThen(AndThen(x, y), z) == AndThen(x, AndThen(y, z))
  {
    if x.Ok? && y.Ok? && z.Ok? {
      assert x.value + y.value + z.value == x.value + (y.value + z.value);
    }
  }

  /** Reading two lists of paths one after the other reads the sources of the first, then
      those of the second; the first error met is the result. */
  lemma {:induction false} SourcesAppend(fs: FileSystem, ps: seq<string>, qs: seq<string>)
    ensures Sources(fs, ps + qs) == AndThen(Sources(fs, ps), Sources(fs, qs))
    decreases |qs|
  {
    if |qs| == 0 {
      assert ps + qs == ps;
      if Sources(fs, ps).Ok? {
        assert Sources(fs, ps).value + [] == Sources(fs, ps).value;
      }
    } else {
      var init, last := qs[..|qs| - 1], qs[|qs| - 1];
      assert ps + qs == (ps + init) + [last];
      SourcesSnoc(fs, ps + init, last);
      SourcesAppend(fs, ps, init);
      AndThenAssociative(Sources(fs, ps), Sources(fs, init), PathSources(fs, last));
    }
  }

  /** Loading a list of paths in two parts and merging the two results is the same as
      loading the whole list; the first error met is the result. */
  lemma LoadAppend(fs: FileSystem, ps: seq<string>, qs: seq<string>)
    ensures LoadConfig(fs, ps + qs) ==
      match LoadConfig(fs, ps)
      case Err(e) => Err(e)
      case Ok(a) =>
        match LoadConfig(fs, qs)
        case Err(e) => Err(e)
        case Ok(b) => Ok(MergeConfig(a, b))
  {
    SourcesAppend(fs, ps, qs);
    if Sources(fs, ps).Ok? && Sources(fs, qs).Ok? {
      MergeAllAppend(Sources(fs, ps).value, Sources(fs, qs).value);
    }
  }

  /** A path that does not exist makes the whole load fail. */
  lemma {:induction false} MissingPathFails(fs: FileSystem, paths: seq<string>, i: nat)
    requires i < |paths| && paths[i] !in fs
    ensures LoadConfig(fs, paths).Err?
    ensures Sources(fs, paths[..i]).Ok? ==> LoadConfig(fs, paths) == Err(PathNotFound(paths[i]))
  {
    assert paths[..i + 1][..i] == paths[..i];
    assert paths[..i + 1][i] == paths[i];
    SourcesPrefixError(fs, paths, i + 1);
  }

  /** A file that does not decode makes the whole load fail, naming that file. */
  lemma {:induction false} DecodeFailureFails(fs: FileSystem, paths: seq<string>, i: nat)
    requires i < |paths| && paths[i] in fs && fs[paths[i]].File? && DecodeConfig(fs[paths[i]].doc).Err?
    ensures LoadConfig(fs, paths).Err?
    ensures Sources(fs, paths[..i]).Ok? ==> LoadConfig(fs, paths) == Err(DecodeError(paths[i]))
  {
    assert paths[..i + 1][..i] == paths[..i];
    assert paths[..i + 1][i] == paths[i];
    SourcesPrefixError(fs, paths, i + 1);
  }

  /** A ".json" entry of a directory that does not decode makes the directory's load fail,
      naming that entry, when the entries before it read. */
  lemma DirEntryDecodeFailureFails(fs: FileSystem, dir: string, i: nat)
    requires dir in fs && fs[dir].Dir? && i < |Sort(fs[dir].names)|
    requires IsConfigName(Sort(fs[dir].names)[i])
    requires Join(dir, Sort(fs[dir].names)[i]) in fs && fs[Join(dir, Sort(fs[dir].names)[i])].File?
    requires DecodeConfig(fs[Join(dir, Sort(fs[dir].names)[i])].doc).Err?
    ensures LoadConfig(fs, [dir]).Err?
    ensures DirSources(fs, dir, Sort(fs[dir].names)[..i]).Ok? ==>
      LoadConfig(fs, [dir]) == Err(DecodeError(Join(dir, Sort(fs[dir].names)[i])))
  {
    var sorted := Sort(fs[dir].names);
    SourcesSingle(fs, dir);
    if DirSources(fs, dir, sorted[..i]).Err? {
      DirPrefixError(fs, dir, sorted, i);
    } else {
      DirStep(fs, dir, sorted, i, DirSources(fs, dir, sorted[..i]).value);
    }
  }

  /** A single path contributes what it names. */
  lemma SourcesSingle(fs: FileSystem, path: string)
    ensures Sources(fs, [path]) == PathSources(fs, path)
  {
    assert [path][..0] == [];
    if PathSources(fs, path).Ok? {
      assert [] + PathSources(fs, path).value == PathSources(fs, path).value;
    }
  }

  /** Loading one existing file gives its decoded configuration, or its decode error. */
  lemma SingleFile(fs: FileSystem, path: string)
    requires path in fs && fs[path].File?
    ensures DecodeConfig(fs[path].doc).Ok? ==> LoadConfig(fs, [path]) == Ok(DecodeConfig(fs[path].doc).value)
    ensures DecodeConfig(fs[path].doc).Err? ==> LoadConfig(fs, [path]) == Err(DecodeError(path))
  {
    SourcesSingle(fs, path);
    if DecodeConfig(fs[path].doc).Ok? {
      var c := DecodeConfig(fs[path].doc).value;
      assert Sources(fs, [path]) == Ok([c]);
      MergeAllSnoc([], c);
      assert [] + [c] == [c];
      MergeIdentity(c);
    }
  }

  /** The entry names of a directory that are read, in the order given. */
  function ConfigNames(names: seq<string>): seq<string> {
    if |names| == 0 then []
    else
      var last := names[|names| - 1];
      ConfigNames(names[..|names| - 1]) + (if IsConfigName(last) then [last] else [])
  }

  lemma DirSourcesSnoc(fs: FileSystem, dir: string, names: seq<string>, name: string)
    ensures DirSources(fs, dir, names + [name]) ==
      match DirSources(fs, dir, names)
      case Err(e) => Err(e)
      case Ok(prev) =>
        match ReadDirEntry(fs, dir, name)
        case Err(e) => Err(e)
        case Ok(None) => Ok(prev)
        case Ok(Some(c)) => Ok(prev + [c])
  {
    assert (names + [name])[..|names|] == names;
  }

  /** Entries without the suffix contribute nothing: a directory reads as if only its
      ".json" entries were listed. */
  lemma {:induction false} DirSkipsOtherNames(fs: FileSystem, dir: string, names: seq<string>)
    ensures DirSources(fs, dir, names) == DirSources(fs, dir, ConfigNames(names))
    decreases |names|
  {
    if |names| > 0 {
      var init, last := names[..|names| - 1], names[|names| - 1];
      assert names == init + [last];
      DirSkipsOtherNames(fs, dir, init);
      DirSourcesSnoc(fs, dir, init, last);
      if IsConfigName(last) {
        assert ConfigNames(names) == ConfigNames(init) + [last];
        DirSourcesSnoc(fs, dir, ConfigNames(init), last);
      } else {
        assert ConfigNames(names) == ConfigNames(init) + [];
        assert ConfigNames(init) + [] == ConfigNames(init);
      }
    }
  }

  /** The names that are read are exactly the ".json" entries, each as often as listed. */
  lemma {:induction false} ConfigNamesCount(names: seq<string>, x: string)
    ensures multiset(ConfigNames(names))[x] == if IsConfigName(x) then multiset(names)[x] else 0
    decreases |names|
  {
    if |names| > 0 {
      var init, last := names[..|names| - 1], names[|names| - 1];
      ConfigNamesCount(init, x);
      assert names == init + [last];
    }
  }

  /** Keeping only some names of a sorted listing leaves it sorted. */
  lemma {:induction false} ConfigNamesSorted(names: seq<string>)
    requires Sorted(names)
    ensures Sorted(ConfigNames(names))
    decreases |names|
  {
    if |names| > 0 {
      var init, last := names[..|names| - 1], names[|names| - 1];
      assert Sorted(init);
      ConfigNamesSorted(init);
      var kept := ConfigNames(init);
      if IsConfigName(last) {
        forall k | 0 <= k < |kept| ensures Leq(kept[k], last) {
          assert kept[k] in multiset(kept);
          ConfigNamesCount(init, kept[k]);
          assert kept[k] in multiset(init);
          var m :| 0 <= m < |init| && init[m] == kept[k];
          assert names[m] == kept[k];
        }
        var r := kept + [last];
        forall a, b | 0 <= a < b < |r| ensures Leq(r[a], r[b]) {
          if b < |kept| {
            assert r[a] == kept[a] && r[b] == kept[b];
          }
        }
      }
    }
  }

  /** A directory's sources are those of its ".json" entries, read in ascending name
      order, whatever order the directory lists them in. */
  lemma DirReadOrder(fs: FileSystem, dir: string, names: seq<string>)
    ensures DirSources(fs, dir, Sort(names)) == DirSources(fs, dir, ConfigNames(Sort(names)))
    ensures Sorted(ConfigNames(Sort(names)))
    ensures forall x :: multiset(ConfigNames(Sort(names)))[x] == multiset(ConfigNames(names))[x]
  {
    SortSpec(names);
    DirSkipsOtherNames(fs, dir, Sort(names));
    ConfigNamesSorted(Sort(names));
    forall x ensures multiset(ConfigNames(Sort(names)))[x] == multiset(ConfigNames(names))[x] {
      ConfigNamesCount(Sort(names), x);
      ConfigNamesCount(names, x);
    }
  }

  /** The order in which a directory lists its entries does not change what is loaded. */
  lemma ListingOrderIrrelevant(fs: FileSystem, dir: string, names: seq<string>, others: seq<string>)
    requires multiset(names) == multiset(others)
    ensures LoadConfig(fs[dir := Dir(names)], [dir]) == LoadConfig(fs[dir := Dir(others)], [dir])
  {
    SortIgnoresListingOrder(names, others);
    DirSourcesOwnEntries(fs, dir, Dir(names), Dir(others), Sort(names));
    SourcesSingle(fs[dir := Dir(names)], dir);
    SourcesSingle(fs[dir := Dir(others)], dir);
  }

  /** A directory's entries lie below it, so replacing the directory's own entry does not
      change how its entries read. */
  lemma {:induction false} DirSourcesOwnEntries(fs: FileSystem, dir: string, e1: Entry, e2: Entry, names: seq<string>)
    ensures DirSources(fs[dir := e1], dir, names) == DirSources(fs[dir := e2], dir, names)
    decreases |names|
  {
    if |names| > 0 {
      var last := names[|names| - 1];
      DirSourcesOwnEntries(fs, dir, e1, e2, names[..|names| - 1]);
      assert |Join(dir, last)| > |dir|;
      assert ReadDirEntry(fs[dir := e1], dir, last) == ReadDirEntry(fs[dir := e2], dir, last);
    }
  }

  /** A directory entry that is a ".json" file holding a well-formed document. */
  predicate DecodingFile(fs: FileSystem, dir: string, name: string) {
    IsConfigName(name) && Join(dir, name) in fs && fs[Join(dir, name)].File? &&
    DecodeConfig(fs[Join(dir, name)].doc).Ok?
  }

  /** When every entry is a ".json" file that decodes, the directory's sources are exactly
      those files' configurations, one per entry and in the order of the entries. */
  lemma {:induction false} DirSourcesDecoded(fs: FileSystem, dir: string, names: seq<string>)
    requires forall i :: 0 <= i < |names| ==> DecodingFile(fs, dir, names[i])
    ensures DirSources(fs, dir, names).Ok?
    ensures |DirSources(fs, dir, names).value| == |names|
    ensures forall i :: 0 <= i < |names| && DecodingFile(fs, dir, names[i]) ==>
      DirSources(fs, dir, names).value[i] == DecodeConfig(fs[Join(dir, names[i])].doc).value
    decreases |names|
  {
    if |names| > 0 {
      var init, last := names[..|names| - 1], names[|names| - 1];
      assert forall i :: 0 <= i < |init| ==> init[i] == names[i];
      DirSourcesDecoded(fs, dir, init);
      assert DecodingFile(fs, dir, last);
    }
  }

  /** Loading is not recursive: what a sub-directory of `dir` lists does not change how
      the entries of `dir` read. */
  lemma {:induction false} DirSourcesIgnoreSubdirListing(fs: FileSystem, dir: string, sub: string,
                                                           xs: seq<string>, ys: seq<string>, names: seq<string>)
    ensures DirSources(fs[Join(dir, sub) := Dir(xs)], dir, names) ==
            DirSources(fs[Join(dir, sub) := Dir(ys)], dir, names)
    decreases |names|
  {
    if |names| > 0 {
      var last := names[|names| - 1];
      DirSourcesIgnoreSubdirListing(fs, dir, sub, xs, ys, names[..|names| - 1]);
      assert ReadDirEntry(fs[Join(dir, sub) := Dir(xs)], dir, last) ==
             ReadDirEntry(fs[Join(dir, sub) := Dir(ys)], dir, last);
    }
  }

  /** A directory's load does not depend on what its sub-directories list, even one
      whose name ends in ".json". */
  lemma SubdirListingIrrelevant(fs: FileSystem, dir: string, sub: string, xs: seq<string>, ys: seq<string>)
    requires dir in fs && fs[dir].Dir?
    ensures LoadConfig(fs[Join(dir, sub) := Dir(xs)], [dir]) == LoadConfig(fs[Join(dir, sub) := Dir(ys)], [dir])
  {
    var fx, fy := fs[Join(dir, sub) := Dir(xs)], fs[Join(dir, sub) := Dir(ys)];
    assert |Join(dir, sub)| > |dir|;
    assert fx[dir] == fy[dir] == fs[dir];
    DirSourcesIgnoreSubdirListing(fs, dir, sub, xs, ys, Sort(fs[dir].names));
    SourcesSingle(fx, dir);
    SourcesSingle(fy, dir);
  }

  /** The bad-path test: a path that does not exist fails the load. */
  lemma BadPathExample()
    ensures LoadConfig(map[], ["/i/shouldnt/exist/ever/rainbows"]) ==
      Err(PathNotFound("/i/shouldnt/exist/ever/rainbows"))
  {
    MissingPathFails(map[], ["/i/shouldnt/exist/ever/rainbows"], 0);
  }

  /** The single-file test: a file holding node_name "bar" loads as exactly that. */
  lemma SingleFileExample(path: string)
    ensures LoadConfig(map[path := File(Object(map[NodeNameKey := Str("bar")]))], [path]) ==
      Ok(Config("bar", "", "", [], []))
  {
    DecodeNodeNameOnly("bar");
    SingleFile(map[path := File(Object(map[NodeNameKey := Str("bar")]))], path);
  }

  /** The document holding only node_name `name`. */
  function NodeNameFile(name: string): Entry {
    File(Object(map[NodeNameKey := Str(name)]))
  }

  lemma ExampleListingSorts()
    ensures Sort(["c", "b.json", "a.json"]) == ["a.json", "b.json", "c"]
  {
    var names := ["c", "b.json", "a.json"];
    assert names[1..][1..] == ["a.json"] && names[1..][1..][1..] == [];
    assert Sort(["a.json"]) == ["a.json"];
    assert !Leq("b.json", "a.json") && !Leq("c", "a.json") && !Leq("c", "b.json");
    assert Insert("b.json", ["a.json"]) == ["a.json", "b.json"];
    assert ["a.json", "b.json"][1..] == ["b.json"];
    assert Insert("c", ["a.json", "b.json"]) == ["a.json", "b.json", "c"];
  }

  lemma ExampleNames()
    ensures IsConfigName("a.json") && IsConfigName("b.json") && !IsConfigName("c")
  {
    assert "a.json"[1..] == ".json" && "b.json"[1..] == ".json";
  }

  lemma ReadNodeNameEntry(fs: FileSystem, dir: string, name: string, node: string)
    requires IsConfigName(name) && Join(dir, name) in fs && fs[Join(dir, name)] == NodeNameFile(node)
    ensures ReadDirEntry(fs, dir, name) == Ok(Some(Config(node, "", "", [], [])))
  {
    DecodeNodeNameOnly(node);
  }

  /** Reading entries `a`, `b` and `c` in that order, where `c` contributes nothing. */
  lemma TwoOfThreeEntries(fs: FileSystem, dir: string, a: string, b: string, c: string, ca: Config, cb: Config)
    requires ReadDirEntry(fs, dir, a) == Ok(Some(ca))
    requires ReadDirEntry(fs, dir, b) == Ok(Some(cb))
    requires ReadDirEntry(fs, dir, c) == Ok(None)
    ensures DirSources(fs, dir, [a, b, c]) == Ok([ca, cb])
  {
    DirSourcesSnoc(fs, dir, [], a);
    DirSourcesSnoc(fs, dir, [a], b);
    DirSourcesSnoc(fs, dir, [a, b], c);
    assert [] + [a] == [a] && [a] + [b] == [a, b] && [a, b] + [c] == [a, b, c];
    assert [] + [ca] == [ca] && [ca] + [cb] == [ca, cb];
  }

  /** The directory of the directory test, listing its entries out of order. */
  function ExampleFs(dir: string): FileSystem {
    map[
      dir := Dir(["c", "b.json", "a.json"]),
      Join(dir, "a.json") := NodeNameFile("bar"),
      Join(dir, "b.json") := NodeNameFile("baz"),
      Join(dir, "c") := NodeNameFile("bad")]
  }

  lemma ExampleEntries(dir: string)
    ensures ReadDirEntry(ExampleFs(dir), dir, "a.json") == Ok(Some(Config("bar", "", "", [], [])))
    ensures ReadDirEntry(ExampleFs(dir), dir, "b.json") == Ok(Some(Config("baz", "", "", [], [])))
    ensures ReadDirEntry(ExampleFs(dir), dir, "c") == Ok(None)
  {
    var fs := ExampleFs(dir);
    ExampleNames();
    assert |Join(dir, "a.json")| != |dir| && |Join(dir, "b.json")| != |dir|;
    assert |Join(dir, "c")| != |Join(dir, "a.json")|;
    assert Join(dir, "a.json") != Join(dir, "b.json") by {
      assert Join(dir, "a.json")[|dir| + 1] != Join(dir, "b.json")[|dir| + 1];
    }
    ReadNodeNameEntry(fs, dir, "a.json", "bar");
    ReadNodeNameEntry(fs, dir, "b.json", "baz");
  }

  /** A directory whose entries contribute two configurations loads as the second merged
      over the first. */
  lemma LoadDirOfTwo(fs: FileSystem, dir: string, ca: Config, cb: Config)
    requires dir in fs && fs[dir].Dir?
    requires DirSources(fs, dir, Sort(fs[dir].names)) == Ok([ca, cb])
    ensures LoadConfig(fs, [dir]) == Ok(MergeConfig(ca, cb))
  {
    SourcesSingle(fs, dir);
    assert Sources(fs, [dir]) == Ok([ca, cb]);
    MergeAllPair(ca, cb);
  }

  /** The directory of the directory test lists "c", "b.json" and "a.json". */
  lemma ExampleListing(dir: string)
    ensures dir in ExampleFs(dir) && ExampleFs(dir)[dir] == Dir(["c", "b.json", "a.json"])
  {
    assert |Join(dir, "a.json")| != |dir| && |Join(dir, "b.json")| != |dir| && |Join(dir, "c")| != |dir|;
  }

  /** The entries of the test directory, read in name order, give "bar" then "baz". */
  lemma ExampleDirSources(dir: string)
    ensures DirSources(ExampleFs(dir), dir, Sort(["c", "b.json", "a.json"])) ==
      Ok([Config("bar", "", "", [], []), Config("baz", "", "", [], [])])
  {
    ExampleListingSorts();
    ExampleEntries(dir);
    TwoOfThreeEntries(ExampleFs(dir), dir, "a.json", "b.json", "c",
                      Config("bar", "", "", [], []), Config("baz", "", "", [], []));
  }

  /** The directory test: "a.json" sets "bar", "b.json" sets "baz", and "c" (no suffix)
      sets "bad"; loading the directory gives "baz". */
  lemma DirectoryExample(dir: string)
    ensures LoadConfig(ExampleFs(dir), [dir]) == Ok(Config("baz", "", "", [], []))
  {
    ExampleListing(dir);
    ExampleDirSources(dir);
    LoadDirOfTwo(ExampleFs(dir), dir, Config("bar", "", "", [], []), Config("baz", "", "", [], []));
  }
}
