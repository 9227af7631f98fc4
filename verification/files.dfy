/** The part of the file system the installer touches: files that the code
    reads with `fs.readJson` or copies, and directories it creates or tests for
    existence. */
module Files {
  import opened Json

  /** A file's content as `fs.readJson` sees it: JSON, or text that does not
      parse (which makes `readJson` throw). */
  datatype Doc = JsonDoc(v: Value) | Plain(text: string)

  /** `path.join(a, b)` for a relative `b` with no `.` or `..` segments; `a`
      is taken as given, without normalisation. */
  function Join(a: string, b: string): string {
    a + "/" + b
  }

  /** The text after the last `/` of `p`. */
  function LastSegment(p: string): (r: string)
    ensures '/' !in r
    ensures |r| <= |p| && r == p[|p| - |r|..]
    ensures |r| < |p| ==> p[|p| - |r| - 1] == '/'
  {
    if p == [] then []
    else if p[|p| - 1] == '/' then []
    else LastSegment(p[..|p| - 1]) + [p[|p| - 1]]
  }

  /** `p` without the separators it ends with. */
  function StripTrailingSlashes(p: string): (r: string)
    ensures |r| <= |p| && r == p[..|r|]
    ensures r == [] || r[|r| - 1] != '/'
    ensures forall i :: |r| <= i < |p| ==> p[i] == '/'
  {
    if p != [] && p[|p| - 1] == '/' then StripTrailingSlashes(p[..|p| - 1]) else p
  }

  /** `path.basename(p)` for POSIX paths: trailing separators are ignored,
      then the text after the last `/` is taken, so `/` gives the empty
      name.  `BasenameIgnoresTrailingSlash` and `BasenameOfPlainName` state
      its properties. */
  function Basename(p: string): string {
    LastSegment(StripTrailingSlashes(p))
  }

  /** A trailing separator does not change the base name: `my-app/` and
      `my-app` both name `my-app`. */
  lemma {:induction false} BasenameIgnoresTrailingSlash(s: string)
    ensures StripTrailingSlashes(s + "/") == StripTrailingSlashes(s)
    ensures Basename(s + "/") == Basename(s)
  {
    var t := s + "/";
    assert t[..|t| - 1] == s;
  }

  /** The base name of `name` or `dir/name` with a plain, non-empty `name`
      is `name`, with or without a trailing separator. */
  lemma BasenameOfPlainName(dir: string, name: string)
    requires name != [] && '/' !in name
    ensures Basename(name) == name && Basename(name + "/") == name
    ensures Basename(dir + "/" + name) == name && Basename(dir + "/" + name + "/") == name
  {
    var p := dir + "/" + name;
    assert StripTrailingSlashes(p) == p;
    assert StripTrailingSlashes(name) == name;
    assert forall i :: |dir| + 1 <= i < |p| ==> p[i] == name[i - |dir| - 1];
    LastSegmentFrom(p, |dir| + 1);
    assert p[|dir| + 1..] == name;
    LastSegmentFrom(name, 0);
    BasenameIgnoresTrailingSlash(p);
    BasenameIgnoresTrailingSlash(name);
  }

  /** A helper for `BasenameOfPlainName`: when `p[k..]` holds no separator
      and follows one (or starts the text), it is the last segment. */
  lemma {:induction false} LastSegmentFrom(p: string, k: nat)
    requires k <= |p| && (k == 0 || p[k - 1] == '/')
    requires forall i :: k <= i < |p| ==> p[i] != '/'
    ensures LastSegment(p) == p[k..]
    decreases |p|
  {
    if |p| == k {
      assert p == [] || p[|p| - 1] == '/';
    } else {
      var q := p[..|p| - 1];
      assert forall i :: k <= i < |q| ==> q[i] == p[i];
      LastSegmentFrom(q, k);
      assert p[k..] == q[k..] + [p[|p| - 1]];
    }
  }

  /** `fs.existsSync(p)` on a snapshot of the file system. */
  predicate ExistsIn(files: map<string, Doc>, dirs: set<string>, p: string) {
    p in files || p in dirs
  }

  /** `fs.readJson(p)`: the parsed content, or an exception when the file is
      missing or is not JSON. */
  function ReadJson(files: map<string, Doc>, p: string): (r: Attempt<Value>)
    ensures r.Returned? <==> p in files && files[p].JsonDoc?
  {
    if p in files && files[p].JsonDoc? then Returned(files[p].v) else Threw
  }

  class Fs {
    var files: map<string, Doc>
    var dirs: set<string>

    constructor (files: map<string, Doc>, dirs: set<string>)
      ensures this.files == files && this.dirs == dirs
    {
      this.files := files;
      this.dirs := dirs;
    }

    predicate Exists(p: string)
      reads this
    {
      ExistsIn(files, dirs, p)
    }

    /** `fs.ensureDir(p)` (the parent directories it also creates are not
        tracked). */
    method EnsureDir(p: string)
      modifies this`dirs
      ensures dirs == old(dirs) + {p}
    {
      dirs := dirs + {p};
    }

    /** `fs.copy(src, dst)` of a file. */
    method Copy(src: string, dst: string)
      requires src in files
      modifies this`files
      ensures files == old(files)[dst := old(files)[src]]
    {
      files := files[dst := files[src]];
    }

    /** `fs.writeJson(p, v)`. */
    method WriteJson(p: string, v: Value)
      modifies this`files
      ensures files == old(files)[p := JsonDoc(v)]
    {
      files := files[p := JsonDoc(v)];
    }
  }
}
