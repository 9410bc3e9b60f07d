/**
 * The part of the filesystem the router's cache touches: which files exist
 * and what `require` of each yields, which directories exist, which could be
 * created, and which are writable. `dirname` is PHP's, for `/`-separated
 * paths.
 */
module FileStore {
  import opened Wrappers
  import opened PathNormalizer
  import opened TrieMatcher

  /** The dispatch data array: `tree` and `static` keys holding the trie's
      tables (a cache file may hold other keys, or none). */
  type DispatchData = map<string, seq<Registration>>

  /** `$data[key] ?? []`. */
  function TableOf(data: DispatchData, key: string): seq<Registration> {
    if key in data then data[key] else []
  }

  /** The array cacheDispatchData saves. */
  function CacheBlob(tree: seq<Registration>, staticTable: seq<Registration>): (data: DispatchData)
    ensures data != map[]
    ensures TableOf(data, "tree") == tree && TableOf(data, "static") == staticTable
  {
    map["tree" := tree, "static" := staticTable]
  }

  /** Removes the trailing run of non-slash characters (the last name). */
  function DropName(s: string): (r: string)
    ensures r <= s
    ensures r == [] || r[|r| - 1] == '/'
  {
    if s != [] && s[|s| - 1] != '/' then DropName(s[..|s| - 1]) else s
  }

  /** PHP's `dirname` on a `/`-separated path. */
  function Dirname(path: string): string {
    if path == [] then []
    else
      var trimmed := TrimSlashes(path);
      if trimmed == [] then "/"
      else
        var parent := DropName(trimmed);
        if parent == [] then "."
        else if TrimSlashes(parent) == [] then "/"
        else TrimSlashes(parent)
  }

  lemma {:induction false} DropNameOf(dir: string, name: string)
    requires '/' !in name
    requires dir == [] || dir[|dir| - 1] == '/'
    ensures DropName(dir + name) == dir
  {
    if name != [] {
      var last := |name| - 1;
      assert name[last] in name;
      assert (dir + name)[..|dir + name| - 1] == dir + name[..last];
      assert '/' !in name[..last] by {
        forall i | 0 <= i < last ensures name[..last][i] != '/' {
          assert name[..last][i] == name[i];
          assert name[i] in name;
        }
      }
      DropNameOf(dir, name[..last]);
    } else {
      assert dir + name == dir;
    }
  }

  /** The directory of a file is the path in front of its last slash. */
  lemma DirnameOfChild(dir: string, file: string)
    requires dir != [] && dir[|dir| - 1] != '/'
    requires file != [] && '/' !in file
    ensures Dirname(dir + "/" + file) == dir
  {
    var path := dir + "/" + file;
    assert file[|file| - 1] in file;
    assert path[|path| - 1] == file[|file| - 1];
    assert TrimSlashes(path) == path;
    DropNameOf(dir + "/", file);
    assert (dir + "/")[..|dir|] == dir;
    assert TrimSlashes(dir + "/") == TrimSlashes(dir);
    assert TrimSlashes(dir) == dir;
  }

  /** A bare file name lives in the current directory. */
  lemma DirnameOfName(file: string)
    requires file != [] && '/' !in file
    ensures Dirname(file) == "."
  {
    assert file[|file| - 1] in file;
    assert TrimSlashes(file) == file;
    DropNameOf([], file);
    assert [] + file == file;
  }

  /** What `require` of a file does: return an array, return any other
      value, or throw (a parse error, or a file that cannot be read) with
      PHP's message. */
  datatype Required =
    | Yields(data: DispatchData)
    | YieldsNonArray
    | Throws(message: string)

  /** The directories after `is_dir($dir) || mkdir($dir, 0775, true)`: the
      directory is added when it was missing and could be created. */
  function CreatedDirs(dir: string, dirs: set<string>, creatable: set<string>): (r: set<string>)
    ensures dirs <= r && r <= dirs + {dir}
    ensures dir in r <==> dir in dirs || dir in creatable
  {
    if dir !in dirs && dir in creatable then dirs + {dir} else dirs
  }

  /** The files, directories and permissions the cache sees. */
  class FileSystem {
    /** Existing files, each with what `require` of it does. */
    var files: map<string, Required>
    var dirs: set<string>
    /** The directories `mkdir` (recursive) would manage to create. */
    const creatable: set<string>
    const writable: set<string>

    constructor(files: map<string, Required>, dirs: set<string>,
                creatable: set<string>, writable: set<string>)
      ensures this.files == files && this.dirs == dirs
      ensures this.creatable == creatable && this.writable == writable
    {
      this.files, this.dirs := files, dirs;
      this.creatable, this.writable := creatable, writable;
    }

    /** `mkdir(dir, 0775, true)`. */
    method MakeDirectory(dir: string) returns (ok: bool)
      modifies this
      ensures ok <==> dir in creatable
      ensures dirs == if ok then old(dirs) + {dir} else old(dirs)
      ensures files == old(files)
    {
      ok := dir in creatable;
      if ok {
        dirs := dirs + {dir};
      }
    }

    /** Writes a PHP file returning `data` (`var_export`), which `require`
        gives back. */
    method Save(file: string, data: DispatchData)
      modifies this
      ensures files == old(files)[file := Yields(data)]
      ensures dirs == old(dirs)
    {
      files := files[file := Yields(data)];
    }
  }
}
