/**
 * The FTP session object: the cached working directory `$dir`, and the
 * methods that drive the server. The server is abstract state of the
 * object: the paths its directory probe accepts, the paths its file probe
 * accepts, the paths MKD refuses, the queue of transfer statuses, the
 * listings it answers, and a log of every command the client sends and of
 * every local file it opens or closes.
 */
module Client {
  import opened Wrappers
  import opened Paths
  import opened Tree
  import opened Transfer
  import opened Listing

  /** FTP_ASCII or FTP_BINARY, passed through to the transfer. */
  datatype Mode = Ascii | Binary

  /** What the client does to the world, in order. */
  datatype Event =
    | Cwd(path: string)
    | Mkd(path: string)
    | Dele(path: string)
    | Rmd(path: string)
    | Stor(name: string, mode: Mode)
    | Retr(path: string, mode: Mode)
    | Continue
    | Open(local: string)
    | Close(local: string)

  /** One element of GetList's array: a name and what ftp_size answers for it. */
  datatype Item = Item(name: string, size: int)

  /** One MKD per planned path, in the order of the plan. */
  function Creates(plan: seq<string>): seq<Event>
  {
    seq(|plan|, i requires 0 <= i < |plan| => Mkd(plan[i]))
  }

  lemma CreatesSnoc(plan: seq<string>, p: string)
    ensures Creates(plan + [p]) == Creates(plan) + [Mkd(p)]
  {
  }

  function Continues(n: nat): seq<Event>
  {
    seq(n, _ => Continue)
  }

  /** chdir('/') as mkdir issues it: a CWD only when the probe accepts '/'. */
  function RootCwd(d: set<string>): seq<Event>
  {
    if "/" in d then [Cwd("/")] else []
  }

  /** Everything mkdir(path) sends, given the directories `d` that exist. */
  function MkdirEvents(path: string, d: set<string>): seq<Event>
  {
    if path in d then [] else RootCwd(d) + Creates(MkdirPlan(path, d))
  }

  /**
   * What mkdir sends for a missing path without a '/' after its first
   * character: CWD '/' when '/' is a directory, then one MKD of the path.
   */
  lemma MkdirSingleEvents(path: string, d: set<string>)
    requires path !in d && !SlashAfterFirst(path)
    ensures MkdirEvents(path, d) == RootCwd(d) + [Mkd(path)]
  {
    MkdirSingle(path, d);
  }

  /** The items whose name is `file`: IsFile's array_filter. */
  function Named(list: seq<Item>, file: string): (r: seq<Item>)
    ensures forall it :: it in r <==> it in list && it.name == file
  {
    if list == [] then []
    else
      var rest := Named(list[1..], file);
      assert forall it :: it in list <==> it == list[0] || it in list[1..];
      if list[0].name == file then [list[0]] + rest else rest
  }

  class Ftp {
    /** The cached working directory. */
    var dir: string
    /** `$ftp_root`, put in front of every remote path of Put, Get, DeleteFile and DeleteDir. */
    const root: string
    /** The paths the directory probe (IsDir) accepts. */
    var dirs: set<string>
    /** The paths the file probe (IsFileByCommand) accepts. */
    var files: set<string>
    /** The paths MKD fails to create. */
    const refused: set<string>
    /** The statuses the server has yet to report for transfers. */
    var statuses: seq<Status>
    /** Every command sent and every local file opened or closed, oldest first. */
    var trace: seq<Event>
    /** What ftp_systype answers. */
    const systype: string
    /** What ftp_nlist and ftp_rawlist answer for each directory argument. */
    const names: map<string, seq<string>>
    const raw: map<string, seq<string>>
    /** What ftp_size answers for each name; -1 when absent. */
    const sizes: map<string, int>
    /** sys_get_temp_dir(). */
    const tempDir: string

    constructor(root: string, dirs: set<string>, files: set<string>, refused: set<string>,
                statuses: seq<Status>, systype: string, names: map<string, seq<string>>,
                raw: map<string, seq<string>>, sizes: map<string, int>, tempDir: string)
      ensures this.dir == "." && this.root == root && this.dirs == dirs && this.files == files
      ensures this.refused == refused && this.statuses == statuses && this.trace == []
      ensures this.systype == systype && this.names == names && this.raw == raw
      ensures this.sizes == sizes && this.tempDir == tempDir
    {
      this.dir := ".";
      this.root := root;
      this.dirs := dirs;
      this.files := files;
      this.refused := refused;
      this.statuses := statuses;
      this.trace := [];
      this.systype := systype;
      this.names := names;
      this.raw := raw;
      this.sizes := sizes;
      this.tempDir := tempDir;
    }

    /** The listing argument: '.' on a UNIX server, the cached directory otherwise. */
    function TypeDir(): string
      reads this
    {
      if systype == "UNIX" then "." else dir
    }

    /** ftp_nlist on TypeDir(); an unanswered listing iterates as empty. */
    function NameList(): seq<string>
      reads this
    {
      if TypeDir() in names then names[TypeDir()] else []
    }

    /** ftp_rawlist on TypeDir(); an unanswered listing iterates as empty. */
    function RawList(): seq<string>
      reads this
    {
      if TypeDir() in raw then raw[TypeDir()] else []
    }

    function SizeOf(name: string): int
    {
      if name in sizes then sizes[name] else -1
    }

    /** chdir: move to `d` only when it is a directory. */
    method Chdir(d: string) returns (r: bool)
      modifies this
      ensures r <==> old(d in dirs)
      ensures dir == (if r then d else old(dir))
      ensures trace == old(trace) + (if r then [Cwd(d)] else [])
      ensures dirs == old(dirs) && files == old(files) && statuses == old(statuses)
    {
      if d in dirs {
        dir := d;
        trace := trace + [Cwd(d)];
        return true;
      }
      return false;
    }

    /** ftp_mkdir: the server creates `p` unless it refuses; the answer is not used. */
    method MakeDir(p: string)
      modifies this
      ensures trace == old(trace) + [Mkd(p)]
      ensures dirs == old(dirs) + (if p in refused then {} else {p})
      ensures dir == old(dir) && files == old(files) && statuses == old(statuses)
    {
      trace := trace + [Mkd(p)];
      if p !in refused {
        dirs := dirs + {p};
      }
    }

    /**
     * mkdir: true, and nothing sent, when the path is already a directory;
     * otherwise chdir('/') and the creations of MkdirPlan, and PHP's null
     * (false here).
     */
    method Mkdir(path: string) returns (r: bool)
      modifies this
      ensures r <==> old(path in dirs)
      ensures trace == old(trace) + MkdirEvents(path, old(dirs))
      ensures dirs == Grow(old(dirs), MkdirPlan(path, old(dirs)), refused)
      ensures dir == (if !r && "/" in old(dirs) then "/" else old(dir))
      ensures files == old(files) && statuses == old(statuses)
    {
      ghost var d0 := dirs;
      ghost var plan := MkdirPlan(path, d0);
      if path in dirs {
        assert plan == [] && Grow(d0, plan, refused) == d0;
        return true;
      }
      r := false;
      var _ := Chdir("/");
      assert trace == old(trace) + RootCwd(d0);
      CreatePlan(path);
      assert MkdirEvents(path, d0) == RootCwd(d0) + Creates(plan);
      assert trace == old(trace) + RootCwd(d0) + Creates(plan);
    }

    /** The creations of mkdir once it knows the path is not a directory: the walk, or one call. */
    method CreatePlan(path: string)
      requires path !in dirs
      modifies this
      ensures trace == old(trace) + Creates(MkdirPlan(path, old(dirs)))
      ensures dirs == Grow(old(dirs), MkdirPlan(path, old(dirs)), refused)
      ensures dir == old(dir) && files == old(files) && statuses == old(statuses)
    {
      if SlashAfterFirst(path) {
        CreateMissing(Segments(path));
      } else {
        ghost var d0 := dirs;
        MakeDir(path);
        GrowSnoc(d0, [], path, refused);
        assert [] + [path] == MkdirPlan(path, d0);
      }
    }

    /**
     * mkdir's foreach: `$root` starts empty and grows by each folder and a
     * '/'; `$root . $folder` is created when the probe rejects it.
     */
    method CreateMissing(segs: seq<string>)
      modifies this
      ensures trace == old(trace) + Creates(Missing(Walk(segs, ""), old(dirs)))
      ensures dirs == Grow(old(dirs), Missing(Walk(segs, ""), old(dirs)), refused)
      ensures dir == old(dir) && files == old(files) && statuses == old(statuses)
    {
      ghost var d0 := dirs;
      var acc := "";
      var i := 0;
      ghost var done: seq<string> := [];
      ghost var created: seq<string> := [];
      while i < |segs|
        invariant 0 <= i <= |segs|
        invariant Walk(segs, "") == done + Walk(segs[i..], acc)
        invariant forall k :: 0 <= k < |done| ==> |done[k]| < |acc|
        invariant created == Missing(done, d0)
        invariant dirs == Grow(d0, created, refused)
        invariant trace == old(trace) + Creates(created)
        invariant dir == old(dir) && files == old(files) && statuses == old(statuses)
      {
        var p := acc + segs[i];
        WalkAdvance(segs, i, acc, done);
        Visit(done, p, d0, refused);
        if p !in dirs {
          MakeDir(p);
          CreatesSnoc(created, p);
          assert trace == old(trace) + Creates(created + [p]);
          GrowSnoc(d0, created, p, refused);
          created := created + [p];
        }
        done := done + [p];
        acc := acc + segs[i] + "/";
        i := i + 1;
      }
      assert done == Walk(segs, "");
    }

    /** Take the next status from the queue; an exhausted queue answers FTP_FAILED. */
    method Next() returns (s: Status)
      modifies this
      ensures s == (if old(statuses) == [] then Failed else old(statuses)[0])
      ensures statuses == (if old(statuses) == [] then [] else old(statuses)[1..])
      ensures dir == old(dir) && dirs == old(dirs) && files == old(files) && trace == old(trace)
    {
      if statuses == [] {
        return Failed;
      }
      s := statuses[0];
      statuses := statuses[1..];
    }

    /**
     * Start a transfer with the command `start`, then call ftp_nb_continue
     * while the status is FTP_MOREDATA.
     */
    method RunTransfer(start: Event) returns (ret: Status)
      modifies this
      ensures ret == Outcome(old(statuses))
      ensures statuses == After(old(statuses))
      ensures trace == old(trace) + [start] + Continues(Lead(old(statuses)))
      ensures dir == old(dir) && dirs == old(dirs) && files == old(files)
    {
      ghost var q := statuses;
      trace := trace + [start];
      ghost var t1 := trace;
      ret := Next();
      ghost var n := 0;
      while ret == MoreData
        invariant n <= Lead(q)
        invariant trace == t1 + Continues(n)
        invariant ret == MoreData ==> n < Lead(q) && statuses == q[n + 1..]
        invariant ret != MoreData ==> n == Lead(q) && ret == Outcome(q) && statuses == After(q)
        invariant dir == old(dir) && dirs == old(dirs) && files == old(files)
        decreases |statuses| + (if ret == MoreData then 1 else 0)
      {
        assert Continues(n) + [Continue] == Continues(n + 1);
        trace := trace + [Continue];
        ret := Next();
        n := n + 1;
        if n < |q| && q[n] == MoreData {
          assert forall i :: 0 <= i <= n ==> q[i] == MoreData;
        }
        if n == |q| || q[n] != MoreData {
          LeadUnique(q, n);
        }
      }
    }

    /** Whether Put calls mkdir: a non-empty directory part that is not yet a directory. */
    predicate PutMakes(remote: string)
      reads this
    {
      !PhpEmpty(SplitRemote(remote).0) && root + SplitRemote(remote).0 !in dirs
    }

    /** A remote path without '/' has an empty directory part, so Put does not call mkdir. */
    lemma PutSkipsMkdir(remote: string)
      requires '/' !in remote
      ensures !PutMakes(remote) && SplitRemote(remote).1 == remote
    {
      SplitRemoteParts(remote);
    }

    /**
     * Put: create the directory part when it is missing, change into it,
     * upload under the filename part, and succeed exactly when the transfer
     * ends FINISHED.
     */
    method Put(local: string, remote: string, mode: Mode) returns (ok: bool)
      modifies this
      ensures ok <==> Outcome(old(statuses)) == Finished
      ensures statuses == After(old(statuses))
      ensures var target := root + SplitRemote(remote).0;
        dirs == (if old(PutMakes(remote)) then Grow(old(dirs), MkdirPlan(target, old(dirs)), refused) else old(dirs))
      ensures var target := root + SplitRemote(remote).0;
        trace == old(trace) + (if old(PutMakes(remote)) then MkdirEvents(target, old(dirs)) else [])
          + [Open(local)] + (if target in dirs then [Cwd(target)] else [])
          + [Stor(SplitRemote(remote).1, mode)] + Continues(Lead(old(statuses))) + [Close(local)]
      ensures var target := root + SplitRemote(remote).0;
        dir == (if target in dirs then target
                else if old(PutMakes(remote)) && "/" in old(dirs) then "/" else old(dir))
      ensures files == old(files)
    {
      var split := SplitRemote(remote);
      var directory, filename := split.0, split.1;
      var target := root + directory;
      ghost var makes := PutMakes(remote);
      ghost var made := if makes then MkdirEvents(target, dirs) else [];
      if !PhpEmpty(directory) && target !in dirs {
        var _ := Mkdir(target);
      }
      assert trace == old(trace) + made;
      trace := trace + [Open(local)];
      var _ := Chdir(target);
      ghost var moved := if target in dirs then [Cwd(target)] else [];
      assert trace == old(trace) + made + [Open(local)] + moved;
      var ret := RunTransfer(Stor(filename, mode));
      trace := trace + [Close(local)];
      ok := ret == Finished;
    }

    /**
     * Get: nothing, and nothing done, when the file probe rejects the path;
     * otherwise the download into the temporary directory under the
     * filename part, whose path is returned whatever the transfer's outcome.
     * The `local` argument is overwritten before use.
     */
    method Get(remote: string, local: string, mode: Mode) returns (r: Option<string>)
      modifies this
      ensures old(root + remote !in files) ==> r == None && trace == old(trace) && statuses == old(statuses)
      ensures old(root + remote in files) ==>
        && r == Some(tempDir + "/" + SplitRemote(remote).1)
        && trace == old(trace) + [Open(r.value), Retr(root + remote, mode)]
             + Continues(Lead(old(statuses))) + [Close(r.value)]
        && statuses == After(old(statuses))
      ensures dir == old(dir) && dirs == old(dirs) && files == old(files)
    {
      if root + remote !in files {
        return None;
      }
      var filename := SplitRemote(remote).1;
      var path := tempDir + "/" + filename;
      trace := trace + [Open(path)];
      var ret := RunTransfer(Retr(root + remote, mode));
      trace := trace + [Close(path)];
      return Some(path);
    }

    /** GetList: one item per name of the listing, at the same index, with its size. */
    method GetList() returns (list: seq<Item>)
      ensures |list| == |NameList()|
      ensures forall i :: 0 <= i < |list| ==> list[i] == Item(NameList()[i], SizeOf(NameList()[i]))
    {
      var items := NameList();
      list := [];
      for idx := 0 to |items|
        invariant |list| == idx
        invariant forall i :: 0 <= i < idx ==> list[i] == Item(items[i], SizeOf(items[i]))
      {
        list := list + [Item(items[idx], SizeOf(items[idx]))];
      }
    }

    /** IsFile: whether some name of the simple listing equals `file`. */
    method IsFile(file: string) returns (r: bool)
      ensures r <==> file in NameList()
    {
      var list := GetList();
      r := Named(list, file) != [];
      if file in NameList() {
        var k :| 0 <= k < |NameList()| && NameList()[k] == file;
        assert list[k] in Named(list, file);
      }
      if r {
        var it := Named(list, file)[0];
        var k :| 0 <= k < |list| && list[k] == it;
        assert NameList()[k] == file;
      }
    }

    /**
     * GetDetailedList: force a leading '/' onto the cached directory, then
     * the entry of every raw line some pattern matches, keyed by its index.
     */
    method GetDetailedList() returns (list: map<nat, Entry>)
      modifies this
      ensures dir == NormalizeDir(old(dir))
      ensures |dir| > 0 ==> dir[0] == '/'
      ensures list == Detailed(dir, RawList())
      ensures dirs == old(dirs) && files == old(files) && statuses == old(statuses) && trace == old(trace)
    {
      dir := NormalizeDir(dir);
      var lines := RawList();
      ghost var found := Parsed(dir, lines);
      list := map[];
      for idx := 0 to |lines|
        invariant list == Collect(found, idx)
        invariant dir == NormalizeDir(old(dir)) && lines == RawList()
        invariant dirs == old(dirs) && files == old(files) && statuses == old(statuses) && trace == old(trace)
      {
        var entry := ParseLine(dir, lines[idx]);
        assert entry == found[idx];
        match entry
        case Some(e) => list := list[idx := e];
        case None =>
      }
    }

    /** DeleteFile: refuse "/", otherwise DELE the fixed path, which removes it when it is a file. */
    method DeleteFile(file: string) returns (ok: bool)
      modifies this
      ensures file == "/" ==> !ok && trace == old(trace) && files == old(files)
      ensures file != "/" ==>
        var p := DeleteTarget(root, file).value;
        && ok == old(p in files) && files == old(files) - {p} && trace == old(trace) + [Dele(p)]
      ensures dir == old(dir) && dirs == old(dirs) && statuses == old(statuses)
    {
      if file == "/" {
        return false;
      }
      var p := root + EnsureLeadingSlash(file);
      trace := trace + [Dele(p)];
      ok := p in files;
      files := files - {p};
    }

    /** DeleteDir: refuse "/", otherwise RMD the fixed path, which removes it when it is a directory. */
    method DeleteDir(d: string) returns (ok: bool)
      modifies this
      ensures d == "/" ==> !ok && trace == old(trace) && dirs == old(dirs)
      ensures d != "/" ==>
        var p := DeleteTarget(root, d).value;
        && ok == old(p in dirs) && dirs == old(dirs) - {p} && trace == old(trace) + [Rmd(p)]
      ensures dir == old(dir) && files == old(files) && statuses == old(statuses)
    {
      if d == "/" {
        return false;
      }
      var p := root + EnsureLeadingSlash(d);
      trace := trace + [Rmd(p)];
      ok := p in dirs;
      dirs := dirs - {p};
    }
  }
}
