/**
 * The BPF program lifecycle manager of pkg/bpf/bpf.go: tearing down the
 * pinned programs under the pin root, and reading a program's kernel ID
 * out of the output of `bpftool prog show name <prog>`.
 */
module Bpf {
  import opened Wrappers
  import opened Text

  /** What a name under the pin root refers to. */
  datatype Entry = Dir | File

  /** One item of a directory listing (ioutil.ReadDir's os.FileInfo). */
  datatype FileInfo = FileInfo(name: string, isDir: bool)

  datatype BpfError =
    | ReadDirFailed(path: string, reason: string)               // "failed to read directory"
    | ShowFailed(progName: string, reason: string, output: string) // "Failed to show"
    | ProgNotFound(progName: string)                            // "Failed to find prog"

  /**
   * The outcome of running bpftool: its combined output, and the error the
   * command reported if it did not exit successfully.
   */
  datatype Exec = Exec(output: string, failure: Option<string>)

  // -------------------------------------------------------------------
  // bpftoolGetProgID
  // -------------------------------------------------------------------

  /** The arguments handed to bpftool: `prog show name <progName>`. */
  function ShowArgs(progName: string): (args: seq<string>)
    ensures |args| == 4 && args[..3] == ["prog", "show", "name"] && args[3] == progName
  {
    ["prog", "show", "name", progName]
  }

  /** Different programs are asked for with different arguments. */
  lemma {:induction false} ShowArgsInjective(a: string, b: string)
    ensures ShowArgs(a) == ShowArgs(b) ==> a == b
  {
    if ShowArgs(a) == ShowArgs(b) {
      assert ShowArgs(a)[3] == ShowArgs(b)[3];
    }
  }

  /**
   * bpftoolGetProgID, where bpftool(args) is the outcome of running the
   * tool with args. When the command succeeds its output must hold
   * something other than white space: the code indexes the first field
   * without checking that there is one.
   */
  function GetProgID(progName: string, bpftool: seq<string> -> Exec): (r: Result<string, BpfError>)
    requires bpftool(ShowArgs(progName)).failure.None? ==> !IsBlank(bpftool(ShowArgs(progName)).output)
    ensures var run := bpftool(ShowArgs(progName));
      run.failure.Some? ==> r == Err(ShowFailed(progName, run.failure.value, run.output))
    ensures bpftool(ShowArgs(progName)).failure.None? ==> r.Ok?
  {
    var run := bpftool(ShowArgs(progName));
    if run.failure.Some? then
      Err(ShowFailed(progName, run.failure.value, run.output))
    else
      var s := Fields(run.output);
      FieldsEmptyIffBlank(run.output);
      if s[0] == "" then
        Err(ProgNotFound(progName))
      else
        var progID := Split(s[0], ':');
        Ok(progID[0])
  }

  /**
   * The ID is the first field of the output cut at its first ':', or the
   * whole field when it has no ':'. It has neither ':' nor white space in it.
   */
  lemma {:induction false} GetProgIDIsFirstFieldBeforeColon(progName: string, bpftool: seq<string> -> Exec)
    requires bpftool(ShowArgs(progName)).failure.None? && !IsBlank(bpftool(ShowArgs(progName)).output)
    ensures Fields(bpftool(ShowArgs(progName)).output) != []
    ensures var tok, id := Fields(bpftool(ShowArgs(progName)).output)[0], GetProgID(progName, bpftool).value;
      && id <= tok
      && ':' !in id
      && NoSpace(id)
      && (':' in tok ==> |id| < |tok| && tok[|id|] == ':')
      && (':' !in tok ==> id == tok)
  {
    var run := bpftool(ShowArgs(progName));
    FieldsEmptyIffBlank(run.output);
    FieldsAreWords(run.output);
    var tok := Fields(run.output)[0];
    var id := GetProgID(progName, bpftool).value;
    assert id == tok[..IndexOf(tok, ':')];
    assert NoSpace(tok);
    if ':' !in tok {
      assert IndexOf(tok, ':') == |tok|;
    }
  }

  /**
   * The guard on an empty first field never fires: every field is non-empty,
   * so a successful run always produces an ID.
   */
  lemma {:induction false} NotFoundIsUnreachable(progName: string, bpftool: seq<string> -> Exec)
    requires bpftool(ShowArgs(progName)).failure.None? && !IsBlank(bpftool(ShowArgs(progName)).output)
    ensures GetProgID(progName, bpftool) != Err(ProgNotFound(progName))
    ensures Fields(bpftool(ShowArgs(progName)).output) != [] && Fields(bpftool(ShowArgs(progName)).output)[0] != ""
  {
    FieldsEmptyIffBlank(bpftool(ShowArgs(progName)).output);
    FieldsAreWords(bpftool(ShowArgs(progName)).output);
  }

  /**
   * The ID depends only on the first field: leading white space and
   * whatever follows the first field do not matter.
   */
  lemma {:induction false} GetProgIDIgnoresSurroundings(progName: string, bpftool: seq<string> -> Exec,
                                                        pre: string, tok: string, post: string)
    requires bpftool(ShowArgs(progName)) == Exec(pre + tok + post, None)
    requires IsBlank(pre) && tok != [] && NoSpace(tok)
    requires post == [] || IsSpace(post[0])
    ensures !IsBlank(pre + tok + post) && GetProgID(progName, bpftool) == Ok(Split(tok, ':')[0])
  {
    var s := pre + tok + post;
    assert s[|pre|] == tok[0];
    SpanOfBlankPrefix(pre, tok + post);
    assert pre + tok + post == pre + (tok + post);
    var t := s[|pre|..];
    assert t == tok + post;
    SpanOfWord(tok, post);
    assert t[..|tok|] == tok;
  }

  lemma {:induction false} SpanOfBlankPrefix(pre: string, rest: string)
    requires IsBlank(pre) && (rest == [] || !IsSpace(rest[0]))
    ensures SpanSpace(pre + rest) == |pre|
  {
    if pre != [] {
      assert (pre + rest)[1..] == pre[1..] + rest;
      SpanOfBlankPrefix(pre[1..], rest);
    }
  }

  lemma {:induction false} SpanOfWord(tok: string, post: string)
    requires NoSpace(tok) && (post == [] || IsSpace(post[0]))
    ensures SpanWord(tok + post) == |tok|
  {
    if tok == [] {
      assert tok + post == post;
    } else {
      assert (tok + post)[1..] == tok[1..] + post;
      SpanOfWord(tok[1..], post);
    }
  }

  // -------------------------------------------------------------------
  // The pin root, BpfLsmEnable and BpfLsmDisable
  // -------------------------------------------------------------------

  /** Names starting with ".." are never unloaded. */
  predicate ParentPrefixed(name: string) {
    ".." <= name
  }

  /** An entry the teardown loop hands to bpftoolUnload. */
  predicate Owned(name: string, e: Entry) {
    !ParentPrefixed(name) && e.Dir?
  }

  /**
   * The pin root after the teardown loop has visited the names in visited:
   * every visited owned directory whose removal succeeds is gone.
   */
  function SweptAmong(m: map<string, Entry>, visited: set<string>, undeletable: set<string>): map<string, Entry> {
    map n | n in m && !(n in visited && Owned(n, m[n]) && n !in undeletable) :: m[n]
  }

  /**
   * The pin root after a successful BpfLsmDisable: only the owned
   * directories are gone, and only those whose removal did not fail.
   */
  function AfterDisable(m: map<string, Entry>, undeletable: set<string>): (r: map<string, Entry>)
    ensures r.Keys <= m.Keys
    ensures forall n :: n in r ==> r[n] == m[n]
    ensures forall n :: n in m && Owned(n, m[n]) && n !in undeletable ==> n !in r
    ensures forall n :: n in m && !Owned(n, m[n]) ==> n in r
    ensures forall n :: n in m && n in undeletable ==> n in r
  {
    SweptAmong(m, m.Keys, undeletable)
  }

  /** Disabling twice leaves the same pin root as disabling once. */
  lemma {:induction false} DisableIdempotent(m: map<string, Entry>, undeletable: set<string>)
    ensures AfterDisable(AfterDisable(m, undeletable), undeletable) == AfterDisable(m, undeletable)
  {
    var once := AfterDisable(m, undeletable);
    var twice := AfterDisable(once, undeletable);
    assert twice.Keys == once.Keys;
  }

  /**
   * When every removal succeeds, no owned directory is left, and what is
   * left is exactly the files and the ".."-prefixed names.
   */
  lemma {:induction false} DisableLeavesNoOwnedDir(m: map<string, Entry>)
    ensures forall n :: n in AfterDisable(m, {}) ==> !Owned(n, AfterDisable(m, {})[n])
    ensures forall n :: n in m ==> (n in AfterDisable(m, {}) <==> !Owned(n, m[n]))
  {
  }

  /** Visiting one more name removes it exactly when it is owned and deletable. */
  lemma {:induction false} SweptAmongStep(m: map<string, Entry>, visited: set<string>, n: string, undeletable: set<string>)
    requires n in m
    ensures SweptAmong(m, visited + {n}, undeletable)
      == if Owned(n, m[n]) && n !in undeletable then SweptAmong(m, visited, undeletable) - {n}
         else SweptAmong(m, visited, undeletable)
  {
  }

  /**
   * A name a directory listing can hold: one path component, neither "."
   * nor "..", so that joining it to the pin root names an entry directly
   * under it.
   */
  predicate PathComponent(name: string) {
    name != "" && '/' !in name && name != "." && name != ".."
  }

  /** A listing names every entry exactly once, with its kind. */
  predicate IsListing(files: seq<FileInfo>, m: map<string, Entry>) {
    && (forall i, j :: 0 <= i < j < |files| ==> files[i].name != files[j].name)
    && (forall i :: 0 <= i < |files| ==> files[i].name in m && files[i].isDir == m[files[i].name].Dir?)
    && NamesOf(files) == m.Keys
  }

  function NamesOf(files: seq<FileInfo>): set<string> {
    set i | 0 <= i < |files| :: files[i].name
  }

  lemma {:induction false} NamesOfAppend(files: seq<FileInfo>, f: FileInfo)
    ensures NamesOf(files + [f]) == NamesOf(files) + {f.name}
  {
    var ext := files + [f];
    assert ext[|files|] == f;
    forall n | n in NamesOf(files) ensures n in NamesOf(ext) {
      var i :| 0 <= i < |files| && files[i].name == n;
      assert ext[i] == files[i];
    }
  }

  /**
   * The pin directory MapPrefixPath() (by default /sys/fs/bpf/bpflock): the
   * names directly under it, the error listing it fails with (None when it
   * can be listed), and the entries whose removal fails (os.RemoveAll
   * reporting an error).
   */
  class PinRoot {
    const path: string
    var entries: map<string, Entry>
    var readError: Option<string>
    var undeletable: set<string>

    /** The names under the pin root are names a listing can hold. */
    predicate Valid()
      reads this
    {
      forall n :: n in entries ==> PathComponent(n)
    }

    constructor (path: string, entries: map<string, Entry>, readError: Option<string>, undeletable: set<string>)
      requires forall n :: n in entries ==> PathComponent(n)
      ensures Valid()
      ensures this.path == path && this.entries == entries
      ensures this.readError == readError && this.undeletable == undeletable
    {
      this.path := path;
      this.entries := entries;
      this.readError := readError;
      this.undeletable := undeletable;
    }

    /** ioutil.ReadDir: a snapshot listing of the pin root, or an error. */
    method ReadDir() returns (r: Result<seq<FileInfo>, BpfError>)
      requires Valid()
      ensures r.Ok? ==> forall i :: 0 <= i < |r.value| ==> PathComponent(r.value[i].name)
      ensures readError.Some? ==> r == Err(ReadDirFailed(path, readError.value))
      ensures readError.None? ==> r.Ok? && IsListing(r.value, entries)
    {
      if readError.Some? {
        return Err(ReadDirFailed(path, readError.value));
      }
      var files: seq<FileInfo> := [];
      var rest := entries.Keys;
      while rest != {}
        invariant rest <= entries.Keys
        invariant NamesOf(files) == entries.Keys - rest
        invariant forall i, j :: 0 <= i < j < |files| ==> files[i].name != files[j].name
        invariant forall i :: 0 <= i < |files| ==> files[i].name in entries && files[i].isDir == entries[files[i].name].Dir?
        decreases rest
      {
        var n :| n in rest;
        assert n !in NamesOf(files);
        NamesOfAppend(files, FileInfo(n, entries[n].Dir?));
        files := files + [FileInfo(n, entries[n].Dir?)];
        rest := rest - {n};
      }
      return Ok(files);
    }

    /**
     * bpftoolUnload: remove the pinned subtree of one program. A failing
     * removal is ignored and leaves the entry where it is; a name that is
     * not there is no error.
     */
    method Unload(pinnedProg: string)
      requires Valid() && PathComponent(pinnedProg)
      modifies this`entries
      ensures Valid()
      ensures entries == if pinnedProg in undeletable then old(entries) else old(entries) - {pinnedProg}
    {
      if pinnedProg !in undeletable {
        entries := entries - {pinnedProg};
      }
    }

    /** BpfLsmEnable: a placeholder that succeeds and changes nothing. */
    method Enable() returns (err: Option<BpfError>)
      ensures err == None
    {
      return None;
    }

    /**
     * BpfLsmDisable: list the pin root once, then unload every listed
     * directory whose name does not start with "..". Only a failing listing
     * is an error; it leaves the pin root as it was.
     */
    method Disable() returns (err: Option<BpfError>)
      requires Valid()
      modifies this`entries
      ensures Valid()
      ensures readError.Some? ==> err == Some(ReadDirFailed(path, readError.value)) && entries == old(entries)
      ensures readError.None? ==> err == None && entries == AfterDisable(old(entries), undeletable)
    {
      var listing := ReadDir();
      if listing.Err? {
        return Some(listing.error);
      }
      var files := listing.value;
      ghost var m0 := entries;
      for i := 0 to |files|
        invariant entries == SweptAmong(m0, NamesOf(files[..i]), undeletable)
        invariant Valid()
      {
        var f := files[i];
        assert files[..i + 1] == files[..i] + [f];
        NamesOfAppend(files[..i], f);
        SweptAmongStep(m0, NamesOf(files[..i]), f.name, undeletable);
        if ParentPrefixed(f.name) {
          continue;
        }
        if f.isDir {
          Unload(f.name);
        }
      }
      assert files[..|files|] == files;
      return None;
    }
  }
}
