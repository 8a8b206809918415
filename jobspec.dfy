/** The static helpers of the command-line `JobQueue` in
    cloudmesh/job/jobqueue.py: splitting a job-set file name into its parts
    and turning command-line options into a job specification. */
module JobSpecs {
  import opened Wrappers
  import opened Text
  import opened Jobs

  /** `_location(filename)`: the name (the base name up to its first `.`),
      the directory and the base name of a POSIX path. */
  function Location(filename: string): (r: (string, string, string))
    ensures NoneIn(r.2, {'/'}) && NoneIn(r.0, {'.'})
    ensures IsPrefix(r.0, r.2)
    ensures |r.2| < |filename| ==> filename[|filename| - |r.2| - 1] == '/'
  {
    var base := Basename(filename);
    (BeforeFirst(base, '.'), Dirname(filename), base)
  }

  /** The base name is the whole path when it has no `/`, and the path ends
      with it otherwise. */
  lemma LocationParts(filename: string)
    ensures var (name, dir, base) := Location(filename);
      && |base| <= |filename| && filename[|filename| - |base|..] == base
      && ('/' !in filename ==> base == filename && dir == [])
      && (|name| == |base| || base[|name|] == '.')
  {
    var i := SlashEnd(filename);
    if '/' !in filename {
      assert i == 0;
    }
  }

  /** A stem and an extension without `/` make a file name without `/`. */
  lemma FileNameNoSlash(stem: string, ext: string)
    requires NoneIn(stem, {'/', '.'}) && NoneIn(ext, {'/'})
    ensures NoneIn(stem + "." + ext, {'/'})
  {
    var file := stem + "." + ext;
    forall k | 0 <= k < |file| ensures file[k] !in {'/'} {
      if k < |stem| {
        assert file[k] == stem[k];
      } else if k > |stem| {
        assert file[k] == ext[k - |stem| - 1];
      }
    }
  }

  /** A directory, a `/` and a file name split back into the directory and
      the file name. */
  lemma SplitPath(dir: string, file: string)
    requires dir != [] && dir[|dir| - 1] != '/' && NoneIn(file, {'/'})
    ensures Basename(dir + "/" + file) == file && Dirname(dir + "/" + file) == dir
  {
    var head := dir + "/";
    var p := head + file;
    SlashEndOfTail(head, file);
    assert p[..SlashEnd(p)] == head;
    assert head[..|head| - 1] == dir;
    assert TrimSlashes(head) == dir by {
      assert TrimSlashes(head) == TrimSlashes(dir);
    }
    assert head[|dir| - 1] != '/';
  }

  /** Splitting a path built from a directory, a stem and an extension gives
      the stem, the directory and the file name back. */
  lemma LocationOfPath(dir: string, stem: string, ext: string)
    requires dir != [] && dir[|dir| - 1] != '/'
    requires NoneIn(stem, {'/', '.'}) && NoneIn(ext, {'/'})
    ensures Location(dir + "/" + stem + "." + ext) == (stem, dir, stem + "." + ext)
  {
    var file := stem + "." + ext;
    assert dir + "/" + stem + "." + ext == dir + "/" + file;
    FileNameNoSlash(stem, ext);
    SplitPath(dir, file);
    CutAtFirst(stem, '.', ext);
  }

  /** A path without a `/` is a bare file name in no directory. */
  lemma LocationOfFileName(stem: string, ext: string)
    requires NoneIn(stem, {'/', '.'}) && NoneIn(ext, {'/'})
    ensures Location(stem + "." + ext) == (stem, "", stem + "." + ext)
  {
    var file := stem + "." + ext;
    FileNameNoSlash(stem, ext);
    var i := SlashEnd(file);
    assert i == 0;
    CutAtFirst(stem, '.', ext);
  }

  // ---------------------------------------------------------------------
  // define

  /** The command-line options `define` reads; an option not given is
      `None`. */
  datatype Options = Options(
    name: Option<string>, remotedir: Option<string>, ip: Option<string>,
    input: Option<string>, output: Option<string>, status: Option<string>,
    gpu: Option<string>, user: Option<string>, arguments: Option<string>,
    executable: Option<string>, shell: Option<string>)

  /** The job specification `define` returns. */
  datatype Definition = Definition(
    name: Option<string>, remotedir: string, ip: string, input: string,
    output: string, status: string, gpu: string, user: Option<string>,
    arguments: string, executable: Option<string>, shell: string)

  const DefaultRemoteDir: string := "."
  const DefaultIp: string := "r-003"
  const DefaultData: string := "./data"
  const DefaultStatus: string := "ready"
  const DefaultShell: string := "bash"

  /** Python's `option or default` for a default that is a string. */
  function Or(option: Option<string>, default: string): (r: string)
    ensures Truthy(option) ==> r == option.value
    ensures !Truthy(option) ==> r == default
  {
    if Truthy(option) then option.value else default
  }

  /** `define(arguments)`: `name` and `executable` are copied as given, `user`
      falls back to the login name from the environment (`osUser`, which may
      be unset), and every other field falls back to its default. */
  function Define(o: Options, osUser: Option<string>): (d: Definition)
    ensures d.name == o.name && d.executable == o.executable
    ensures d.user == (if Truthy(o.user) then o.user else osUser)
    ensures Truthy(o.remotedir) ==> d.remotedir == o.remotedir.value
    ensures Truthy(o.ip) ==> d.ip == o.ip.value
    ensures Truthy(o.input) ==> d.input == o.input.value
    ensures Truthy(o.output) ==> d.output == o.output.value
    ensures Truthy(o.status) ==> d.status == o.status.value
    ensures Truthy(o.shell) ==> d.shell == o.shell.value
    ensures Truthy(o.gpu) ==> d.gpu == o.gpu.value
    ensures Truthy(o.arguments) ==> d.arguments == o.arguments.value
    ensures !Truthy(o.remotedir) ==> d.remotedir == DefaultRemoteDir
    ensures !Truthy(o.ip) ==> d.ip == DefaultIp
    ensures !Truthy(o.input) ==> d.input == DefaultData
    ensures !Truthy(o.output) ==> d.output == DefaultData
    ensures !Truthy(o.status) ==> d.status == DefaultStatus
    ensures !Truthy(o.gpu) ==> d.gpu == ""
    ensures !Truthy(o.arguments) ==> d.arguments == ""
    ensures !Truthy(o.shell) ==> d.shell == DefaultShell
  {
    Definition(
      o.name, Or(o.remotedir, DefaultRemoteDir), Or(o.ip, DefaultIp),
      Or(o.input, DefaultData), Or(o.output, DefaultData),
      Or(o.status, DefaultStatus), Or(o.gpu, ""),
      if Truthy(o.user) then o.user else osUser,
      Or(o.arguments, ""), o.executable, Or(o.shell, DefaultShell))
  }

  /** The options that reproduce a specification: every field given as its
      option. */
  function AsOptions(d: Definition): Options {
    Options(d.name, Some(d.remotedir), Some(d.ip), Some(d.input), Some(d.output),
            Some(d.status), Some(d.gpu), d.user, Some(d.arguments), d.executable,
            Some(d.shell))
  }

  /** Fields with a non-empty default are never empty; an option given as the
      empty string counts as not given. */
  lemma DefineFillsDefaults(o: Options, osUser: Option<string>)
    ensures var d := Define(o, osUser);
      d.remotedir != [] && d.ip != [] && d.input != [] && d.output != []
      && d.status != [] && d.shell != []
    ensures o.status == Some("") ==> Define(o, osUser).status == DefaultStatus
  {
  }

  /** Defining a job again from its own fields changes nothing. */
  lemma DefineIdempotent(o: Options, osUser: Option<string>)
    ensures Define(AsOptions(Define(o, osUser)), osUser) == Define(o, osUser)
  {
  }
}
