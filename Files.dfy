/** The slice of the operating system the recorder and the transcriber touch:
    a tree of files and directories addressed by path text, the POSIX
    `os.path.join` and the `open`/`write`/`json.load` calls they make. */
module Files {
  import opened Wrappers
  import opened Text
  import opened Json

  newtype byte = b: int | 0 <= b < 256

  /** What a regular file holds: raw bytes (written in binary mode) or text
      (written in text mode, stored as UTF-8). */
  datatype Content =
    | Bytes(data: seq<byte>)
    | Chars(text: string)

  /** The exceptions the modelled code can raise. */
  datatype Fault =
    | NoSuchFile(path: string)     // FileNotFoundError
    | IsADirectory(path: string)   // IsADirectoryError
    | NotJson(path: string)        // json.JSONDecodeError (or a decoding error)
    | NoAppend(value: Value)       // AttributeError: the loaded value is not a list

  /** The directory part of a path: everything before its last '/', "" when
      there is none (the current directory). */
  function Parent(p: string): (d: string)
    ensures |d| <= |p| && d == p[..|d|]
    ensures d != "" ==> |d| < |p| && p[|d|] == '/'
    ensures (exists k :: 0 <= k < |p| && p[k] == '/') ==> |d| < |p| && p[|d|] == '/'
    ensures forall k :: |d| < k < |p| ==> p[k] != '/'
  {
    match LastIndexOf(p, '/')
    case None => ""
    case Some(i) => p[..i]
  }

  /** `os.path.join(dir, name)` for POSIX paths. */
  function PathJoin(dir: string, name: string): (p: string)
    ensures |name| <= |p| && p[|p| - |name|..] == name
  {
    if |name| > 0 && name[0] == '/' then name
    else if dir == "" || dir[|dir| - 1] == '/' then dir + name
    else dir + "/" + name
  }

  /** Joining onto one directory loses nothing: different relative names give
      different paths. */
  lemma PathJoinInjective(dir: string, a: string, b: string)
    requires |a| > 0 && a[0] != '/' && |b| > 0 && b[0] != '/'
    requires PathJoin(dir, a) == PathJoin(dir, b)
    ensures a == b
  {
    var pa := PathJoin(dir, a);
    assert |a| == |b|;
    assert a == pa[|pa| - |a|..];
  }

  /** A name without '/' joined onto a directory lies directly inside it. */
  lemma PathJoinParent(dir: string, name: string)
    requires dir != "" && dir[|dir| - 1] != '/'
    requires forall k :: 0 <= k < |name| ==> name[k] != '/'
    ensures Parent(PathJoin(dir, name)) == dir
  {
    var p := PathJoin(dir, name);
    assert p == dir + "/" + name;
    assert p[|dir|] == '/';
    assert forall k :: |dir| < k < |p| ==> p[k] == name[k - |dir| - 1];
  }

  /** What `open(p, 'w')` and `open(p, 'wb')` need: a path that is not a
      directory and whose directory exists. */
  predicate Writable(dirs: set<string>, p: string) {
    p != "" && p !in dirs && (Parent(p) == "" || Parent(p) in dirs)
  }

  /** The exception `open(p, 'w')` raises when the path is not writable. */
  function WriteFault(dirs: set<string>, p: string): (f: Fault)
    requires !Writable(dirs, p)
    ensures f.IsADirectory? <==> p in dirs
    ensures f == IsADirectory(p) || f == NoSuchFile(p)
  {
    if p in dirs then IsADirectory(p) else NoSuchFile(p)
  }

  /** The number of bytes UTF-8 uses for one character. */
  function CharUtf8Length(c: char): (n: nat)
    ensures 1 <= n <= 4
    ensures n == 1 <==> c < '\U{80}'
  {
    if c < '\U{80}' then 1
    else if c < '\U{800}' then 2
    else if c < '\U{10000}' then 3
    else 4
  }

  /** The size of a text once encoded as UTF-8. */
  function Utf8Length(s: string): (n: nat)
    ensures |s| <= n <= 4 * |s|
  {
    if s == "" then 0 else CharUtf8Length(s[0]) + Utf8Length(s[1..])
  }

  /** Encoded sizes add up over concatenation. */
  lemma {:induction false} Utf8LengthAppend(a: string, b: string)
    ensures Utf8Length(a + b) == Utf8Length(a) + Utf8Length(b)
  {
    if a == "" {
      assert a + b == b;
    } else {
      assert (a + b)[0] == a[0] && (a + b)[1..] == a[1..] + b;
      Utf8LengthAppend(a[1..], b);
      assert Utf8Length(a + b) == CharUtf8Length(a[0]) + Utf8Length(a[1..] + b);
    }
  }

  /** The UTF-8 sizes of several texts, added up. */
  function Utf8Total(parts: seq<string>): nat {
    if |parts| == 0 then 0 else Utf8Length(parts[0]) + Utf8Total(parts[1..])
  }

  /** Text joined with single spaces takes the bytes of its parts plus one
      byte per space. */
  lemma {:induction false} JoinUtf8Length(parts: seq<string>)
    requires |parts| > 0
    ensures Utf8Length(Join(parts, " ")) == Utf8Total(parts) + |parts| - 1
  {
    if |parts| > 1 {
      var rest := Join(parts[1..], " ");
      assert Join(parts, " ") == parts[0] + " " + rest;
      JoinUtf8Length(parts[1..]);
      Utf8LengthAppend(parts[0], " ");
      Utf8LengthAppend(parts[0] + " ", rest);
      assert Utf8Length(" ") == 1;
    }
  }

  /** What `os.path.getsize` reports for a regular file. */
  function FileSize(c: Content): (n: nat)
    ensures c.Bytes? ==> n == |c.data|
    ensures c.Chars? ==> |c.text| <= n <= 4 * |c.text|
  {
    match c
    case Bytes(data) => |data|
    case Chars(text) => Utf8Length(text)
  }

  /** `json.load(open(p))`: the decoded value of a text file; `decode` stands
      for `json.loads`. */
  function LoadJson(files: map<string, Content>, dirs: set<string>, p: string,
                    decode: string -> Option<Value>): (r: Result<Value, Fault>)
    ensures r.Success? <==> p !in dirs && p in files && files[p].Chars? && decode(files[p].text).Some?
    ensures r.Success? ==> r.value == decode(files[p].text).value
    ensures r.Failure? && p in dirs ==> r.error == IsADirectory(p)
    ensures r.Failure? && p !in dirs && p !in files ==> r.error == NoSuchFile(p)
  {
    if p in dirs then Failure(IsADirectory(p))
    else if p !in files then Failure(NoSuchFile(p))
    else match files[p]
      case Bytes(_) => Failure(NotJson(p))
      case Chars(text) =>
        match decode(text)
        case None => Failure(NotJson(p))
        case Some(v) => Success(v)
  }

  /** The file system: regular files by path, and the set of directory paths.
      A path is never both. */
  class FileSystem {
    var files: map<string, Content>
    var dirs: set<string>
    /** What `os.path.getsize` reports for a directory. */
    const dirSize: nat

    ghost predicate Valid()
      reads this
    {
      files.Keys !! dirs
    }

    constructor (files0: map<string, Content>, dirs0: set<string>, dirSize0: nat)
      requires files0.Keys !! dirs0
      ensures Valid()
      ensures files == files0 && dirs == dirs0 && dirSize == dirSize0
    {
      files := files0;
      dirs := dirs0;
      dirSize := dirSize0;
    }

    /** `os.path.exists(p)`. */
    predicate Exists(p: string)
      reads this
    {
      p in files || p in dirs
    }

    /** `open(p, mode).write(c)`: replaces the whole file, or raises. */
    method WriteFile(p: string, c: Content) returns (r: Result<(), Fault>)
      requires Valid()
      modifies this
      ensures Valid()
      ensures dirs == old(dirs)
      ensures r.Success? <==> Writable(old(dirs), p)
      ensures r.Success? ==> files == old(files)[p := c]
      ensures r.Failure? ==> files == old(files) && r.error == WriteFault(old(dirs), p)
    {
      if !Writable(dirs, p) {
        return Failure(WriteFault(dirs, p));
      }
      files := files[p := c];
      return Success(());
    }

    /** `os.makedirs(p)` for a path that does not exist yet. */
    method MakeDirs(p: string)
      requires Valid() && !Exists(p)
      modifies this
      ensures Valid()
      ensures files == old(files) && dirs == old(dirs) + {p}
    {
      dirs := dirs + {p};
    }

    /** `json.load(open(p))`. */
    method ReadJson(p: string, decode: string -> Option<Value>) returns (r: Result<Value, Fault>)
      ensures r == LoadJson(files, dirs, p, decode)
    {
      if p in dirs {
        return Failure(IsADirectory(p));
      }
      if p !in files {
        return Failure(NoSuchFile(p));
      }
      var c := files[p];
      if c.Bytes? {
        return Failure(NotJson(p));
      }
      var v := decode(c.text);
      if v.None? {
        return Failure(NotJson(p));
      }
      return Success(v.value);
    }
  }
}
