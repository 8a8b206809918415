/** The `Job` record of cloudmesh/queue/jobqueue.py: its construction
    defaults, the split of a command into executable and arguments, the
    launch command and launch script it generates, the `# cloudmesh state:`
    markers it logs and parses back, the pid it memoises, the `ps` line it
    parses, `kill` and the YAML text it serialises to.

    Files, `os.system`, ssh and `ps` are not run: what they return is an input
    (the text of a file read back, a return code, the output of `ps`). */
module Jobs {
  import opened Wrappers
  import opened Text

  /** `is_local(host)`: the host is the loopback address, `localhost`, or one
      of the names of the machine the queue runs on (`here`). An unset host
      is not local. */
  predicate IsLocal(host: Option<string>, here: set<string>) {
    host.Some? && (host.value == "127.0.0.1" || host.value == "localhost" || host.value in here)
  }

  /** How an f-string renders an optional value. */
  function Show(v: Option<string>): string {
    match v
    case None => "None"
    case Some(s) => s
  }

  /** Python truthiness of an optional string: set and non-empty. */
  predicate Truthy(v: Option<string>) {
    v.Some? && v.value != []
  }

  /** The fields of the `Job` dataclass, as `to_dict()` produces them and as
      `Job(**record)` takes them; `None` is an unset field. */
  datatype JobRecord = JobRecord(
    name: string,
    id: string,
    experiment: string,
    directory: string,
    input: Option<string>,
    output: Option<string>,
    log: Option<string>,
    status: string,
    gpu: string,
    arguments: string,
    executable: string,
    command: Option<string>,
    shell: string,
    shellPath: Option<string>,
    scriptName: Option<string>,
    remoteCommand: Option<string>,
    nohupCommand: Option<string>,
    pid: Option<string>,
    host: Option<string>,
    user: Option<string>)

  /** The dataclass defaults. `id` is a uuid drawn once when the class is
      defined, so it is an input here. */
  function DefaultRecord(id: string): JobRecord {
    JobRecord("TBD", id, "experiment", "./experiment", None, None, None, "ready", "", "", "",
              None, "bash", None, None, None, None, None, None, None)
  }

  // ---------------------------------------------------------------------
  // The command split of `Job.set`

  /** `set(command)` raises (`shlex.split` gives no token to take the first
      of) exactly when the command holds a space but nothing else. */
  predicate SplitRaises(command: string) {
    ' ' in command && Tokens(command, ShlexSpace) == []
  }

  /** Construction calls `set` only on a truthy command. */
  predicate ConstructionRaises(command: Option<string>) {
    Truthy(command) && SplitRaises(command.value)
  }

  /** Of a command with a space, `set` keeps the first token as executable
      and the rest joined by single spaces as arguments; nothing but
      whitespace is lost: re-splitting gives the same tokens. */
  lemma SplitKeepsTokens(command: string)
    requires ' ' in command && !SplitRaises(command)
    ensures var ts := Tokens(command, ShlexSpace);
      && NoneIn(ts[0], ShlexSpace) && ts[0] != []
      && [ts[0]] + Tokens(Join(ts[1..], " "), ShlexSpace) == ts
  {
    var ts := Tokens(command, ShlexSpace);
    TokensOfJoin(ts[1..], ' ', ShlexSpace);
  }

  // ---------------------------------------------------------------------
  // Launch command and launch script

  /** `Job.nohup(name, shell)`: run `name.shell` detached, appending its
      output to `name-nohup.log`. */
  function Nohup(name: string, shell: string): (c: string)
    ensures IsPrefix("nohup ", c) && c[|c| - 2..] == " &"
  {
    var c := "nohup " + shell + " " + name + "." + shell + " >> " + name + "-nohup.log 2>&1 &";
    assert c == "nohup " + (shell + " " + name + "." + shell + " >> " + name + "-nohup.log 2>&1") + " &";
    c
  }

  /** The directory the launch changes into. */
  function JobDir(directory: string, name: string): string {
    directory + "/" + name
  }

  /** `generate_command`: change into the job directory and launch; on a
      host that is not local, all of that inside `ssh user@host "…"`. */
  function RemoteCommand(directory: string, name: string, shell: string,
                         host: Option<string>, user: Option<string>, here: set<string>): string
  {
    if IsLocal(host, here) then
      CdAndLaunch(directory, name, "; ", Nohup(name, shell))
    else
      SshPrefix(user, host) + "\"" + CdAndLaunch(directory, name, " ; ", Nohup(name, shell)) + "\""
  }

  function CdAndLaunch(directory: string, name: string, sep: string, launch: string): string {
    "cd " + JobDir(directory, name) + sep + launch
  }

  function SshPrefix(user: Option<string>, host: Option<string>): string {
    "ssh " + Show(user) + "@" + Show(host) + " "
  }

  lemma CdAndLaunchShape(directory: string, name: string, sep: string, launch: string)
    ensures var c := CdAndLaunch(directory, name, sep, launch);
      && IsPrefix("cd " + JobDir(directory, name), c)
      && c[|c| - |launch|..] == launch
      && c[0] == 'c'
  {
    var cd := "cd " + JobDir(directory, name);
    var c := CdAndLaunch(directory, name, sep, launch);
    assert c == cd + (sep + launch);
    assert c == (cd + sep) + launch;
  }

  /** The launch command goes through ssh exactly when the host is not
      local, always changes into the job directory, and ends with the nohup
      launch (followed by the closing quote of the ssh argument). */
  lemma RemoteCommandShape(directory: string, name: string, shell: string,
                           host: Option<string>, user: Option<string>, here: set<string>)
    ensures var r := RemoteCommand(directory, name, shell, host, user, here);
      && (IsPrefix(SshPrefix(user, host), r) <==> !IsLocal(host, here))
      && Contains(r, "cd " + JobDir(directory, name))
      && (IsLocal(host, here) ==> r[|r| - |Nohup(name, shell)|..] == Nohup(name, shell))
      && (!IsLocal(host, here) ==> r[|r| - |Nohup(name, shell)| - 1..] == Nohup(name, shell) + "\"")
  {
    var r := RemoteCommand(directory, name, shell, host, user, here);
    var cd := "cd " + JobDir(directory, name);
    var n := Nohup(name, shell);
    var p := SshPrefix(user, host);
    if IsLocal(host, here) {
      var c := CdAndLaunch(directory, name, "; ", n);
      CdAndLaunchShape(directory, name, "; ", n);
      assert r == c;
      assert p[0] == 's';
    } else {
      var c := CdAndLaunch(directory, name, " ; ", n);
      CdAndLaunchShape(directory, name, " ; ", n);
      assert r == p + ("\"" + c + "\"");
      assert r[..|p|] == p;
      ContainsSelf(cd);
      assert Contains(c, cd);
      ContainsExtend(c, cd, p + "\"", "\"");
      assert r == (p + "\"" + c[..|c| - |n|]) + (n + "\"");
    }
  }

  /** Where `__post_init__` writes the launch script. */
  function ScriptName(experiment: string, name: string, shell: string): string {
    experiment + "/" + name + "/" + name + "." + shell
  }

  /** The script file the launch command runs is the one construction wrote:
      the last component of `scriptname`, inside the job directory. */
  lemma ScriptIsWhatNohupRuns(experiment: string, name: string, shell: string)
    requires NoneIn(name, {'/'}) && NoneIn(shell, {'/'})
    ensures Basename(ScriptName(experiment, name, shell)) == name + "." + shell
    ensures Nohup(name, shell)[..6 + |shell| + 1 + |name| + 1 + |shell|]
            == "nohup " + shell + " " + name + "." + shell
  {
    var p := ScriptName(experiment, name, shell);
    var tail := name + "." + shell;
    var head := experiment + "/" + name + "/";
    assert p == head + tail;
    SlashEndOfTail(head, tail);
  }

  /** The messages the script and `kill` log. */
  const StartMsg: string := "start"
  const EndMsg: string := "end"
  const KillMsg: string := "kill"

  /** `logging(msg)`: the text the log line carries. */
  function Marker(msg: string): string {
    "# cloudmesh state: " + msg
  }

  /** `logging(msg, append)`: the shell line that writes the marker to
      `name.log`, overwriting (`>`) or appending (`>>`). */
  function Logging(name: string, msg: string, append: bool): string {
    "echo \"" + Marker(msg) + "\" " + (if append then ">>" else ">") + " " + name + ".log"
  }

  /** The lines `generate_script` writes, in order. */
  function ScriptLines(shellPath: string, name: string, output: string, log: string,
                       command: Option<string>): seq<string>
  {
    [ "#! " + shellPath + " -x",
      "echo $$ > " + name + ".pid",
      "rm -f " + output,
      "rm -f " + log,
      Logging(name, StartMsg, false),
      DateLine(log),
      Show(command) + " >> " + output,
      DateLine(log),
      Logging(name, EndMsg, true),
      "#" ]
  }

  function DateLine(log: string): string {
    "echo -ne \"# date: \" >> " + log + "; date >> " + log
  }

  /** The text of the launch script file. */
  function ScriptText(shellPath: string, name: string, output: string, log: string,
                      command: Option<string>): string
  {
    Join(ScriptLines(shellPath, name, output, log, command), "\n")
  }

  /** The script file reads back as its ten lines in order: the pid file is
      written first, the old output and log are removed next, the `start`
      marker overwrites the log, the command appends to the output and the
      `end` marker is appended last. */
  lemma ScriptReadsBack(shellPath: string, name: string, output: string, log: string,
                        command: Option<string>)
    requires NoneIn(shellPath, LineBreaks) && NoneIn(name, LineBreaks)
    requires NoneIn(output, LineBreaks) && NoneIn(log, LineBreaks)
    requires NoneIn(Show(command), LineBreaks)
    ensures var ls := SplitLines(ScriptText(shellPath, name, output, log, command));
      && |ls| == 10
      && ls[0] == "#! " + shellPath + " -x"
      && ls[1] == "echo $$ > " + name + ".pid"
      && ls[2] == "rm -f " + output && ls[3] == "rm -f " + log
      && ls[4] == "echo \"" + Marker(StartMsg) + "\" > " + name + ".log"
      && ls[5] == DateLine(log) && ls[7] == DateLine(log)
      && ls[6] == Show(command) + " >> " + output
      && ls[8] == "echo \"" + Marker(EndMsg) + "\" >> " + name + ".log"
      && ls[9] == "#"
  {
    ScriptSplitsIntoLines(shellPath, name, output, log, command);
  }

  /** The script text splits back into the lines it was joined from. */
  lemma ScriptSplitsIntoLines(shellPath: string, name: string, output: string, log: string,
                              command: Option<string>)
    requires NoneIn(shellPath, LineBreaks) && NoneIn(name, LineBreaks)
    requires NoneIn(output, LineBreaks) && NoneIn(log, LineBreaks)
    requires NoneIn(Show(command), LineBreaks)
    ensures SplitLines(ScriptText(shellPath, name, output, log, command)) == ScriptLines(shellPath, name, output, log, command)
  {
    var ls := ScriptLines(shellPath, name, output, log, command);
    forall k | 0 <= k < |ls| ensures NoneIn(ls[k], LineBreaks) {
      ScriptLineNoBreak(k, shellPath, name, output, log, command);
    }
    SplitJoinedLines(ls);
  }

  lemma NoBreak3(a: string, b: string, c: string)
    requires NoneIn(a, LineBreaks) && NoneIn(b, LineBreaks) && NoneIn(c, LineBreaks)
    ensures NoneIn(a + b + c, LineBreaks)
  {
    NoneInConcat(a, b, LineBreaks);
    NoneInConcat(a + b, c, LineBreaks);
  }

  lemma LoggingNoBreak(name: string, msg: string, append: bool)
    requires NoneIn(name, LineBreaks) && NoneIn(msg, LineBreaks)
    ensures NoneIn(Marker(msg), LineBreaks)
    ensures NoneIn(Logging(name, msg, append), LineBreaks)
  {
    PrintableHasNoBreak("# cloudmesh state: ");
    PrintableHasNoBreak("echo \"");
    PrintableHasNoBreak("\" ");
    PrintableHasNoBreak(">>");
    PrintableHasNoBreak(">");
    PrintableHasNoBreak(" ");
    PrintableHasNoBreak(".log");
    var m := Marker(msg);
    NoneInConcat("# cloudmesh state: ", msg, LineBreaks);
    var op := if append then ">>" else ">";
    NoBreak3("echo \"", m, "\" ");
    NoBreak3("echo \"" + m + "\" ", op, " ");
    NoBreak3("echo \"" + m + "\" " + op + " ", name, ".log");
  }

  /** Each script line is assembled from the fields and from literals that
      hold no line break, so it holds none either. */
  lemma ScriptLineNoBreak(k: nat, shellPath: string, name: string, output: string, log: string,
                          command: Option<string>)
    requires NoneIn(shellPath, LineBreaks) && NoneIn(name, LineBreaks)
    requires NoneIn(output, LineBreaks) && NoneIn(log, LineBreaks)
    requires NoneIn(Show(command), LineBreaks)
    requires k < 10
    ensures NoneIn(ScriptLines(shellPath, name, output, log, command)[k], LineBreaks)
  {
    if k < 4 {
      ScriptHeadNoBreak(k, shellPath, name, output, log, command);
    } else if k < 7 {
      ScriptBodyNoBreak(k, shellPath, name, output, log, command);
    } else {
      ScriptTailNoBreak(k, shellPath, name, output, log, command);
    }
  }

  lemma ScriptHeadNoBreak(k: nat, shellPath: string, name: string, output: string, log: string,
                          command: Option<string>)
    requires NoneIn(shellPath, LineBreaks) && NoneIn(name, LineBreaks)
    requires NoneIn(output, LineBreaks) && NoneIn(log, LineBreaks)
    requires NoneIn(Show(command), LineBreaks)
    requires k < 4
    ensures NoneIn(ScriptLines(shellPath, name, output, log, command)[k], LineBreaks)
  {
    if k == 0 {
      PrintableHasNoBreak("#! ");
      PrintableHasNoBreak(" -x");
      NoBreak3("#! ", shellPath, " -x");
    } else if k == 1 {
      PrintableHasNoBreak("echo $$ > ");
      PrintableHasNoBreak(".pid");
      NoBreak3("echo $$ > ", name, ".pid");
    } else {
      PrintableHasNoBreak("rm -f ");
      NoneInConcat("rm -f ", output, LineBreaks);
      NoneInConcat("rm -f ", log, LineBreaks);
    }
  }

  lemma ScriptBodyNoBreak(k: nat, shellPath: string, name: string, output: string, log: string,
                          command: Option<string>)
    requires NoneIn(shellPath, LineBreaks) && NoneIn(name, LineBreaks)
    requires NoneIn(output, LineBreaks) && NoneIn(log, LineBreaks)
    requires NoneIn(Show(command), LineBreaks)
    requires 4 <= k < 7
    ensures NoneIn(ScriptLines(shellPath, name, output, log, command)[k], LineBreaks)
  {
    if k == 4 {
      LoggingNoBreak(name, StartMsg, false);
    } else if k == 5 {
      DateLineNoBreak(log);
    } else {
      PrintableHasNoBreak(" >> ");
      NoBreak3(Show(command), " >> ", output);
    }
  }

  lemma ScriptTailNoBreak(k: nat, shellPath: string, name: string, output: string, log: string,
                          command: Option<string>)
    requires NoneIn(shellPath, LineBreaks) && NoneIn(name, LineBreaks)
    requires NoneIn(output, LineBreaks) && NoneIn(log, LineBreaks)
    requires NoneIn(Show(command), LineBreaks)
    requires 7 <= k < 10
    ensures NoneIn(ScriptLines(shellPath, name, output, log, command)[k], LineBreaks)
  {
    if k == 7 {
      DateLineNoBreak(log);
    } else if k == 8 {
      LoggingNoBreak(name, EndMsg, true);
    } else {
      PrintableHasNoBreak("#");
    }
  }

  lemma DateLineNoBreak(log: string)
    requires NoneIn(log, LineBreaks)
    ensures NoneIn(DateLine(log), LineBreaks)
  {
    PrintableHasNoBreak("echo -ne \"# date: \" >> ");
    PrintableHasNoBreak("; date >> ");
    NoBreak3("echo -ne \"# date: \" >> ", log, "; date >> ");
    NoneInConcat("echo -ne \"# date: \" >> " + log + "; date >> ", log, LineBreaks);
  }


  // ---------------------------------------------------------------------
  // Reading the state back from the log

  const Needle: string := "cloudmesh state:"

  /** `Shell.find_lines_with(lines, what)`: the lines holding `what`, in
      order. */
  function FindLinesWith(lines: seq<string>, what: string): (r: seq<string>)
    ensures forall k :: 0 <= k < |r| ==> Contains(r[k], what)
  {
    if lines == [] then []
    else (if Contains(lines[0], what) then [lines[0]] else []) + FindLinesWith(lines[1..], what)
  }

  lemma {:induction false} FindLinesWithAppend(a: seq<string>, b: seq<string>, what: string)
    ensures FindLinesWith(a + b, what) == FindLinesWith(a, what) + FindLinesWith(b, what)
    decreases |a|
  {
    if a != [] {
      assert (a + b)[1..] == a[1..] + b;
      FindLinesWithAppend(a[1..], b, what);
    } else {
      assert a + b == b;
    }
  }

  /** The `state` property: the text after the first colon, stripped, of the
      last log line holding `cloudmesh state:`; `"unkown"` (so spelled) when
      the log could not be read or holds no such line. */
  function ParseState(logText: Option<string>): string
  {
    match logText
    case None => Unknown
    case Some(t) => StateOfLines(SplitLines(t))
  }

  /** The misspelt fallback of `state`. */
  const Unknown: string := "unkown"

  /** The state the lines of a log record. */
  function StateOfLines(lines: seq<string>): string
  {
    var found := FindLinesWith(lines, Needle);
    if found == [] then Unknown
    else
      var line := found[|found| - 1];
      assert Needle[15] == ':';
      ContainsChar(line, Needle, ':');
      Strip(AfterFirst(line, ':'))
  }

  /** A log whose last marker line was written by `logging(msg)` reads back
      as `msg`, whatever came before it and whatever non-marker lines (such as
      the `# date:` lines of the script) came after it. */
  lemma MarkerRoundTrip(before: seq<string>, msg: string, after: seq<string>)
    requires IsStripped(msg) && NoneIn(msg, LineBreaks)
    requires forall k :: 0 <= k < |before| ==> NoneIn(before[k], LineBreaks)
    requires forall k :: 0 <= k < |after| ==> NoneIn(after[k], LineBreaks) && !Contains(after[k], Needle)
    ensures ParseState(Some(Unlines(before + [Marker(msg)] + after))) == msg
  {
    MarkerFacts(msg);
    LinesAround(before, Marker(msg), after);
    SplitUnlines(before + [Marker(msg)] + after);
    MarkerLinesState(before, msg, after);
  }

  /** The lines of such a log record `msg` as their state. */
  lemma MarkerLinesState(before: seq<string>, msg: string, after: seq<string>)
    requires IsStripped(msg) && NoneIn(msg, LineBreaks)
    requires forall k :: 0 <= k < |after| ==> !Contains(after[k], Needle)
    ensures StateOfLines(before + [Marker(msg)] + after) == msg
  {
    var m := Marker(msg);
    MarkerFacts(msg);
    LastMarkerLine(before, m, after);
    LastFoundState(before + [m] + after, m);
    SpaceThenStripped(msg);
  }

  /** The state of lines whose last marker line is `line`. */
  lemma LastFoundState(lines: seq<string>, line: string)
    requires var found := FindLinesWith(lines, Needle); found != [] && found[|found| - 1] == line
    ensures ':' in line && StateOfLines(lines) == Strip(AfterFirst(line, ':'))
  {
    assert Needle[15] == ':';
    ContainsChar(line, Needle, ':');
  }

  /** A stripped message after one space strips back to itself. */
  lemma SpaceThenStripped(msg: string)
    requires IsStripped(msg)
    ensures Strip(" " + msg) == msg
  {
    StripLeadingSpace(" ", msg);
    StripFixed(msg);
  }


  lemma LinesAround(before: seq<string>, m: string, after: seq<string>)
    requires NoneIn(m, LineBreaks)
    requires forall k :: 0 <= k < |before| ==> NoneIn(before[k], LineBreaks)
    requires forall k :: 0 <= k < |after| ==> NoneIn(after[k], LineBreaks)
    ensures var ls := before + [m] + after;
      forall k :: 0 <= k < |ls| ==> NoneIn(ls[k], LineBreaks)
  {
    var ls := before + [m] + after;
    forall k | 0 <= k < |ls| ensures NoneIn(ls[k], LineBreaks) {
      if k < |before| { assert ls[k] == before[k]; }
      else if k == |before| { assert ls[k] == m; }
      else { assert ls[k] == after[k - |before| - 1]; }
    }
  }

  /** The last line holding the needle is the marker when no line after it
      holds one. */
  lemma LastMarkerLine(before: seq<string>, m: string, after: seq<string>)
    requires Contains(m, Needle)
    requires forall k :: 0 <= k < |after| ==> !Contains(after[k], Needle)
    ensures var found := FindLinesWith(before + [m] + after, Needle);
      found != [] && found[|found| - 1] == m
  {
    FindLinesWithAppend(before + [m], after, Needle);
    FindLinesWithAppend(before, [m], Needle);
    NoMarkerLines(after);
    assert FindLinesWith([m], Needle) == [m] by {
      assert [m][1..] == [];
    }
  }


  /** A marker line holds no break, holds `cloudmesh state:`, and after its
      first colon carries a space and the message. */
  lemma MarkerFacts(msg: string)
    requires NoneIn(msg, LineBreaks)
    ensures NoneIn(Marker(msg), LineBreaks)
    ensures Contains(Marker(msg), Needle)
    ensures ':' in Marker(msg) && AfterFirst(Marker(msg), ':') == " " + msg
  {
    var m := Marker(msg);
    PrintableHasNoBreak("# cloudmesh state: ");
    NoneInConcat("# cloudmesh state: ", msg, LineBreaks);
    assert m[2..2 + |Needle|] == Needle;
    ContainsAt(m, Needle, 2);
    var head := "# cloudmesh state";
    assert NoneIn(head, {':'});
    assert m == head + [':'] + (" " + msg);
    CutAtFirst(head, ':', " " + msg);
  }

  lemma {:induction false} NoMarkerLines(ls: seq<string>)
    requires forall k :: 0 <= k < |ls| ==> !Contains(ls[k], Needle)
    ensures FindLinesWith(ls, Needle) == []
    decreases |ls|
  {
    if ls != [] {
      NoMarkerLines(ls[1..]);
    }
  }

  /** A log that could not be read, or whose lines hold no marker, has the
      state `"unkown"`. */
  lemma UnmarkedLogIsUnknown(logText: Option<string>)
    requires logText.Some? ==>
      forall k :: 0 <= k < |SplitLines(logText.value)| ==> !Contains(SplitLines(logText.value)[k], Needle)
    ensures ParseState(logText) == Unknown
  {
    if logText.Some? {
      NoMarkerLines(SplitLines(logText.value));
    }
  }

  lemma {:induction false} RunLengthAt(s: string, cs: set<char>, n: nat)
    requires n < |s| && s[n] in cs && forall i :: 0 <= i < n ==> s[i] !in cs
    ensures RunLength(s, cs) == n
    decreases n
  {
    if n > 0 {
      RunLengthAt(s[1..], cs, n - 1);
    }
  }

  /** A date line the script appends (`# date: ` and the output of `date`). */
  function DateText(date: string): string {
    "# date: " + date
  }

  lemma DateTextNoBreak(date: string)
    requires NoneIn(date, LineBreaks)
    ensures NoneIn(DateText(date), LineBreaks)
  {
    PrintableHasNoBreak("# date: ");
    NoneInConcat("# date: ", date, LineBreaks);
  }

  /** The log the launch script leaves: the `start` marker and a date line
      while the command runs; it reads back as `start`. */
  lemma RunningLogReadsBack(date1: string)
    requires NoneIn(date1, LineBreaks) && !Contains(DateText(date1), Needle)
    ensures ParseState(Some(Unlines([Marker(StartMsg), DateText(date1)]))) == StartMsg
  {
    DateTextNoBreak(date1);
    Display2(Marker(StartMsg), DateText(date1));
    MarkerRoundTrip([], StartMsg, [DateText(date1)]);
  }

  /** Once the command has returned the script appends a second date line
      and the `end` marker; the log then reads back as `end`. */
  lemma FinishedLogReadsBack(date1: string, date2: string)
    requires NoneIn(date1, LineBreaks) && NoneIn(date2, LineBreaks)
    ensures ParseState(Some(Unlines([Marker(StartMsg), DateText(date1), DateText(date2), Marker(EndMsg)])))
            == EndMsg
  {
    DateTextNoBreak(date1);
    DateTextNoBreak(date2);
    MarkerFacts(StartMsg);
    Display4(Marker(StartMsg), DateText(date1), DateText(date2), Marker(EndMsg));
    MarkerRoundTrip([Marker(StartMsg), DateText(date1), DateText(date2)], EndMsg, []);
  }

  /** `kill` appends the `kill` marker to the log of a running job; the log
      then reads back as `kill`. */
  lemma KilledLogReadsBack(date1: string)
    requires NoneIn(date1, LineBreaks)
    ensures ParseState(Some(Unlines([Marker(StartMsg), DateText(date1), Marker(KillMsg)]))) == KillMsg
  {
    DateTextNoBreak(date1);
    MarkerFacts(StartMsg);
    Display3(Marker(StartMsg), DateText(date1), Marker(KillMsg));
    MarkerRoundTrip([Marker(StartMsg), DateText(date1)], KillMsg, []);
  }

  // ---------------------------------------------------------------------
  // kill and ps

  /** The shell line `kill` runs: locally, kill the children of the pid and
      the pid; remotely, the pid's process group over ssh; then append the
      `kill` marker. */
  function KillCommand(directory: string, name: string, pid: Option<string>,
                       host: Option<string>, user: Option<string>, here: set<string>): string
  {
    if IsLocal(host, here) then
      "cd " + JobDir(directory, name) + "; "
      + "kill -9 $(ps -o pid= --ppid " + Show(pid) + ");"
      + "kill -9 " + Show(pid) + ";"
      + Logging(name, KillMsg, true) + ";"
    else
      SshPrefix(user, host) + "'"
      + "cd " + JobDir(directory, name) + "; "
      + "kill -9 \"-$(ps -o pgid= " + Show(pid) + " | xargs)\";"
      + Logging(name, KillMsg, true) + ";"
      + "'"
  }

  /** Every kill command appends the `kill` marker to the job's log. */
  lemma KillLogsKill(directory: string, name: string, pid: Option<string>,
                     host: Option<string>, user: Option<string>, here: set<string>)
    ensures Contains(KillCommand(directory, name, pid, host, user, here), Logging(name, KillMsg, true))
  {
    var c := KillCommand(directory, name, pid, host, user, here);
    var l := Logging(name, KillMsg, true);
    assert l[..|l|] == l;
    ContainsAt(l, l, 0);
    if IsLocal(host, here) {
      var a := "cd " + JobDir(directory, name) + "; "
        + "kill -9 $(ps -o pid= --ppid " + Show(pid) + ");"
        + "kill -9 " + Show(pid) + ";";
      ContainsExtend(l, l, a, ";");
      assert c == a + l + ";";
    } else {
      var a := SshPrefix(user, host) + "'"
        + "cd " + JobDir(directory, name) + "; "
        + "kill -9 \"-$(ps -o pgid= " + Show(pid) + " | xargs)\";";
      ContainsExtend(l, l, a, ";'");
      assert c == a + l + ";'";
    }
  }

  /** The columns `ps` is asked for, in order. */
  const PsKeys: seq<string> := ["pid", "user", "ppid", "sz", "tty", "%cpu", "%mem", "cmd"]

  /** The `--format` argument: the keys joined by commas. */
  const PsFormat: string := "pid,user,ppid,sz,tty,%cpu,%mem,cmd"

  /** The command `ps` runs: locally, or through ssh when the host is not
      local. */
  function PsCommand(pid: Option<string>, host: Option<string>, user: Option<string>,
                     here: set<string>): string
  {
    var local := "ps --format " + PsFormat + " " + Show(pid);
    if IsLocal(host, here) then local else "ssh " + Show(user) + "@" + Show(host) + " \"" + local + "\""
  }

  /** The fields `ps` parses from the second line of its output:
      `' '.join(line.split()).split(" ", 7)`. With at least eight tokens they
      are the first seven tokens and the rest of the line joined by single
      spaces; with fewer, there are fewer than eight fields. */
  function PsFields(psOutput: string): (r: seq<string>)
    requires |SplitLines(psOutput)| >= 2
    ensures var ts := Tokens(SplitLines(psOutput)[1], PySpace);
      && (|ts| >= 8 ==> r == ts[..7] + [Join(ts[7..], " ")])
      && (|ts| < 8 ==> |r| < 8)
  {
    var ts := Tokens(SplitLines(psOutput)[1], PySpace);
    TokensHaveNoSpace(ts);
    var r := SplitN(Join(ts, " "), ' ', |PsKeys| - 1);
    if |ts| >= 8 then SplitNJoinPrefix(ts, 7); r else SplitNJoinFew(ts, 7); r
  }

  lemma TokensHaveNoSpace(ts: seq<string>)
    requires forall k :: 0 <= k < |ts| ==> NoneIn(ts[k], PySpace)
    ensures forall k :: 0 <= k < |ts| ==> NoneIn(ts[k], {' '})
  {
    forall k | 0 <= k < |ts| ensures NoneIn(ts[k], {' '}) {
      NoneInSubset(ts[k], {' '}, PySpace);
    }
  }


  // ---------------------------------------------------------------------
  // YAML text

  /** The fields `to_yaml` writes, in order. */
  const YamlKeys: seq<string> := ["name", "id", "experiment", "directory", "input", "output",
                                  "status", "gpu", "command", "shell", "pid", "host", "user"]

  /** The value `to_dict()[key]` renders to in an f-string. */
  function FieldText(r: JobRecord, key: string): string {
    match key
    case "name" => r.name
    case "id" => r.id
    case "experiment" => r.experiment
    case "directory" => r.directory
    case "input" => Show(r.input)
    case "output" => Show(r.output)
    case "status" => r.status
    case "gpu" => r.gpu
    case "command" => Show(r.command)
    case "shell" => r.shell
    case "pid" => Show(r.pid)
    case "host" => Show(r.host)
    case "user" => Show(r.user)
    case _ => ""
  }

  function YamlLine(key: string, value: string): string {
    "  " + key + ": " + value
  }

  /** Reading one `  key: value` line back: the text before the first colon
      (after the indentation) and the text after `": "`. */
  function ParseYamlLine(line: string): Option<(string, string)> {
    if |line| >= 2 && line[..2] == "  " && ':' in line[2..] then
      var key := BeforeFirst(line[2..], ':');
      var rest := AfterFirst(line[2..], ':');
      if |rest| >= 1 && rest[0] == ' ' then Some((key, rest[1..])) else None
    else None
  }

  lemma YamlLineRoundTrip(key: string, value: string)
    requires NoneIn(key, {':'})
    ensures ParseYamlLine(YamlLine(key, value)) == Some((key, value))
  {
    var l := YamlLine(key, value);
    var t := l[2..];
    assert t == key + ": " + value;
    assert t[|key|] == ':';
    RunLengthAt(t, {':'}, |key|);
    assert t[..|key|] == key;
    assert t[|key| + 1..] == " " + value;
  }

  /** The lines `to_yaml` joins: the name as a heading, then one indented
      `key: value` line per field of `YamlKeys`, in that order. */
  function YamlLines(r: JobRecord): (ls: seq<string>)
    ensures |ls| == |YamlKeys| + 1 && ls[0] == r.name + ":"
    ensures forall k :: 0 <= k < |YamlKeys| ==> ls[k + 1] == YamlLine(YamlKeys[k], FieldText(r, YamlKeys[k]))
  {
    [r.name + ":"] + seq(|YamlKeys|, k requires 0 <= k < |YamlKeys| => YamlLine(YamlKeys[k], FieldText(r, YamlKeys[k])))
  }

  /** A field name made of lower-case letters only. */
  predicate Lower(s: string) {
    forall i :: 0 <= i < |s| ==> 'a' <= s[i] <= 'z'
  }

  lemma YamlKeysLower()
    ensures forall k :: 0 <= k < |YamlKeys| ==> Lower(YamlKeys[k])
  {
    assert Lower("name") && Lower("id") && Lower("experiment") && Lower("directory");
    assert Lower("input") && Lower("output") && Lower("status") && Lower("gpu");
    assert Lower("command") && Lower("shell") && Lower("pid") && Lower("host") && Lower("user");
  }

  /** The YAML text of a job whose name and written fields hold no line
      break reads back line by line: the heading, then every field of
      `YamlKeys` under its own key with its own value. */
  lemma YamlReadsBack(r: JobRecord)
    requires NoneIn(r.name, LineBreaks)
    requires forall k :: 0 <= k < |YamlKeys| ==> NoneIn(FieldText(r, YamlKeys[k]), LineBreaks)
    ensures var ls := SplitLines(Join(YamlLines(r), "\n"));
      && |ls| == |YamlKeys| + 1 && ls[0] == r.name + ":"
      && forall k :: 0 <= k < |YamlKeys| ==>
           ParseYamlLine(ls[k + 1]) == Some((YamlKeys[k], FieldText(r, YamlKeys[k])))
  {
    var ls := YamlLines(r);
    YamlKeysLower();
    forall k | 0 <= k < |YamlKeys|
      ensures NoneIn(ls[k + 1], LineBreaks)
      ensures ParseYamlLine(ls[k + 1]) == Some((YamlKeys[k], FieldText(r, YamlKeys[k])))
    {
      YamlLineNoBreak(YamlKeys[k], FieldText(r, YamlKeys[k]));
      YamlLineRoundTrip(YamlKeys[k], FieldText(r, YamlKeys[k]));
    }
    PrintableHasNoBreak(":");
    NoneInConcat(r.name, ":", LineBreaks);
    SplitJoinedLines(ls);
  }

  lemma YamlLineNoBreak(key: string, value: string)
    requires Lower(key) && NoneIn(value, LineBreaks)
    ensures NoneIn(YamlLine(key, value), LineBreaks) && NoneIn(key, {':'})
  {
    PrintableHasNoBreak("  ");
    PrintableHasNoBreak(": ");
    assert Printable(key);
    PrintableHasNoBreak(key);
    NoBreak3("  ", key, ": ");
    NoneInConcat("  " + key + ": ", value, LineBreaks);
  }

  // ---------------------------------------------------------------------
  // The job object

  /** The `executable` and `arguments` `set(c)` leaves: of a command with a
      space, the first whitespace-separated token and the remaining tokens
      joined by single spaces, which split again into the same tokens; of
      any other command, the stripped command and the arguments it had
      before. */
  function SplitCommand(c: string, oldArguments: string): (p: (string, string))
    requires !SplitRaises(c)
    ensures ' ' in c ==> p.0 != [] && NoneIn(p.0, ShlexSpace)
                         && [p.0] + Tokens(p.1, ShlexSpace) == Tokens(c, ShlexSpace)
    ensures ' ' !in c ==> p == (Strip(c), oldArguments)
  {
    if ' ' in c then
      var ts := Tokens(c, ShlexSpace);
      SplitKeepsTokens(c);
      (ts[0], Join(ts[1..], " "))
    else
      (Strip(c), oldArguments)
  }

  /** The status `rpid` records when it finds no pid file. */
  const NoPid: string := "no pid"

  /** `ps` succeeds when its output has a second line with at least as many
      whitespace-separated fields as there are keys. */
  predicate PsParses(psOutput: Option<string>) {
    && psOutput.Some?
    && |SplitLines(psOutput.value)| >= 2
    && |Tokens(SplitLines(psOutput.value)[1], PySpace)| >= |PsKeys|
  }

  /** No entry occurs twice. */
  predicate Distinct(s: seq<string>) {
    forall j, k :: 0 <= j < k < |s| ==> s[j] != s[k]
  }

  lemma PsKeysDistinct()
    ensures Distinct(PsKeys)
  {
  }

  /** The dict `{keys[i]: vals[i]}` filled in key order. */
  function Zip(keys: seq<string>, vals: seq<string>): map<string, string>
    requires |keys| <= |vals|
    decreases |keys|
  {
    if keys == [] then map[] else Zip(keys[..|keys| - 1], vals)[keys[|keys| - 1] := vals[|keys| - 1]]
  }

  /** One more key of the loop that fills the dict. */
  lemma ZipStep(keys: seq<string>, vals: seq<string>, i: nat)
    requires i < |keys| && i < |vals|
    ensures Zip(keys[..i + 1], vals) == Zip(keys[..i], vals)[keys[i] := vals[i]]
  {
    assert keys[..i + 1][..i] == keys[..i];
  }

  /** The dict holds exactly the keys. */
  lemma {:induction false} ZipKeys(keys: seq<string>, vals: seq<string>)
    requires |keys| <= |vals|
    ensures forall key :: key in Zip(keys, vals) <==> key in keys
    decreases |keys|
  {
    if keys != [] {
      var n := |keys| - 1;
      ZipKeys(keys[..n], vals);
      assert keys == keys[..n] + [keys[n]];
    }
  }

  /** With distinct keys, each key maps to the value at its position. */
  lemma {:induction false} ZipLookup(keys: seq<string>, vals: seq<string>)
    requires |keys| <= |vals| && Distinct(keys)
    ensures forall k :: 0 <= k < |keys| ==> keys[k] in Zip(keys, vals) && Zip(keys, vals)[keys[k]] == vals[k]
    decreases |keys|
  {
    ZipKeys(keys, vals);
    if keys != [] {
      var n := |keys| - 1;
      ZipKeys(keys[..n], vals);
      ZipLookup(keys[..n], vals);
      forall k | 0 <= k < n ensures keys[k] != keys[n] && keys[..n][k] == keys[k] {
      }
    }
  }

  /** The entry `ps` builds from output it can parse: every key of `PsKeys`
      maps to the field of the same position, the last key to the rest of
      the line. */
  lemma PsTable(psOutput: string)
    requires PsParses(Some(psOutput))
    ensures var ts := Tokens(SplitLines(psOutput)[1], PySpace);
      var m := Zip(PsKeys, PsFields(psOutput));
      && (forall key :: key in m <==> key in PsKeys)
      && (forall k :: 0 <= k < |PsKeys| - 1 ==> m[PsKeys[k]] == ts[k])
      && m[PsKeys[|PsKeys| - 1]] == Join(ts[|PsKeys| - 1..], " ")
  {
    PsKeysDistinct();
    ZipKeys(PsKeys, PsFields(psOutput));
    ZipLookup(PsKeys, PsFields(psOutput));
  }

  /** A job: the dataclass whose methods fill in and update its fields.
      `script` is the text `generate_script` wrote to `scriptName`; `here`
      holds the names of the machine the queue runs on. */
  class Job {
    var name: string
    var id: string
    var experiment: string
    var directory: string
    var input: Option<string>
    var output: Option<string>
    var log: Option<string>
    var status: string
    var gpu: string
    var arguments: string
    var executable: string
    var command: Option<string>
    var shell: string
    var shellPath: Option<string>
    var scriptName: Option<string>
    var remoteCommand: Option<string>
    var nohupCommand: Option<string>
    var pid: Option<string>
    var host: Option<string>
    var user: Option<string>
    var script: Option<string>
    const here: set<string>

    /** `to_dict()`: the dataclass fields. */
    function Record(): JobRecord
      reads this
    {
      JobRecord(name, id, experiment, directory, input, output, log, status, gpu, arguments,
                executable, command, shell, shellPath, scriptName, remoteCommand, nohupCommand,
                pid, host, user)
    }

    /** The launch command, the script name and the script text agree with
        the current fields, as construction leaves them. */
    predicate Generated()
      reads this
    {
      && nohupCommand == Some(Nohup(name, shell))
      && remoteCommand == Some(RemoteCommand(directory, name, shell, host, user, here))
      && scriptName == Some(ScriptName(experiment, name, shell))
      && script == Some(ScriptText(Show(shellPath), name, Show(output), Show(log), command))
    }

    /** `Job(**r)` followed by `__post_init__`: unset paths take their
        defaults, a truthy command is split, then the script name, the launch
        command and the script are generated. A command made of spaces only
        makes `set` raise. */
    constructor (r: JobRecord, here: set<string>)
      requires !ConstructionRaises(r.command)
      ensures this.here == here
      ensures name == r.name && id == r.id && experiment == r.experiment
      ensures directory == r.directory && status == r.status && gpu == r.gpu
      ensures shell == r.shell && pid == r.pid && host == r.host && user == r.user
      ensures input == Some(r.input.GetOr(r.name + "/input"))
      ensures output == Some(r.output.GetOr(r.name + ".out"))
      ensures log == Some(r.log.GetOr(r.name + ".log"))
      ensures shellPath == Some(r.shellPath.GetOr("/usr/bin/" + r.shell))
      ensures Truthy(r.command) ==>
        command == Some(Strip(r.command.value))
        && (executable, arguments) == SplitCommand(r.command.value, r.arguments)
      ensures !Truthy(r.command) ==>
        command == r.command && executable == r.executable && arguments == r.arguments
      ensures Generated()
    {
      var cmd, exe, args := r.command, r.executable, r.arguments;
      if Truthy(r.command) {
        cmd := Some(Strip(r.command.value));
        var p := SplitCommand(r.command.value, r.arguments);
        exe, args := p.0, p.1;
      }
      var out := Some(r.output.GetOr(r.name + ".out"));
      var lg := Some(r.log.GetOr(r.name + ".log"));
      var sp := Some(r.shellPath.GetOr("/usr/bin/" + r.shell));
      this.here := here;
      name, id, experiment, directory := r.name, r.id, r.experiment, r.directory;
      input, output, log := Some(r.input.GetOr(r.name + "/input")), out, lg;
      status, gpu, arguments, executable, command := r.status, r.gpu, args, exe, cmd;
      shell, shellPath, pid, host, user := r.shell, sp, r.pid, r.host, r.user;
      scriptName := Some(ScriptName(r.experiment, r.name, r.shell));
      nohupCommand := Some(Nohup(r.name, r.shell));
      remoteCommand := Some(RemoteCommand(r.directory, r.name, r.shell, r.host, r.user, here));
      script := Some(ScriptText(Show(sp), r.name, Show(out), Show(lg), cmd));
    }

    /** `set(command)`: store the stripped command and split it. */
    method Set(c: string)
      requires !SplitRaises(c)
      modifies this`command, this`executable, this`arguments
      ensures command == Some(Strip(c))
      ensures (executable, arguments) == SplitCommand(c, old(arguments))
    {
      command := Some(Strip(c));
      var p := SplitCommand(c, arguments);
      executable, arguments := p.0, p.1;
    }

    /** `generate_command`. */
    method GenerateCommand()
      modifies this`nohupCommand, this`remoteCommand
      ensures nohupCommand == Some(Nohup(name, shell))
      ensures remoteCommand == Some(RemoteCommand(directory, name, shell, host, user, here))
    {
      nohupCommand := Some(Nohup(name, shell));
      if IsLocal(host, here) {
        remoteCommand := Some(CdAndLaunch(directory, name, "; ", nohupCommand.value));
      } else {
        remoteCommand := Some(SshPrefix(user, host) + "\""
                              + CdAndLaunch(directory, name, " ; ", nohupCommand.value) + "\"");
      }
    }

    /** `generate_script`: the text written to `scriptName`. */
    method GenerateScript()
      modifies this`script
      ensures script == Some(ScriptText(Show(shellPath), name, Show(output), Show(log), command))
    {
      script := Some(ScriptText(Show(shellPath), name, Show(output), Show(log), command));
    }

    /** The `state` property, given the text read back from the log (`None`
        when nothing could be read). */
    method State(logText: Option<string>) returns (s: string)
      modifies this`status
      ensures s == status == ParseState(logText)
    {
      status := ParseState(logText);
      s := status;
    }

    /** The `rpid` property, given the text of `name.pid`: a known pid is
        kept; otherwise the file's stripped text becomes the pid, and a
        missing file records the status `no pid`. */
    method Rpid(pidFile: Option<string>) returns (p: Option<string>)
      modifies this`pid, this`status
      ensures old(pid).Some? ==> p == pid == old(pid) && status == old(status)
      ensures old(pid).None? && pidFile.None? ==> p == pid == None && status == NoPid
      ensures old(pid).None? && pidFile.Some? ==>
                p == pid == Some(Strip(pidFile.value)) && status == old(status)
    {
      if pid.Some? {
        return pid;
      }
      if pidFile.Some? {
        pid := Some(Strip(pidFile.value));
      } else {
        status := NoPid;
        return None;
      }
      p := pid;
    }

    /** `run`: launch `remoteCommand` and record the pid as `rpid` finds it. */
    method Run(pidFile: Option<string>) returns (launched: string, p: Option<string>)
      modifies this`pid, this`status
      ensures launched == Show(remoteCommand)
      ensures old(pid).Some? ==> p == pid == old(pid) && status == old(status)
      ensures old(pid).None? && pidFile.None? ==> p == pid == None && status == NoPid
      ensures old(pid).None? && pidFile.Some? ==>
                p == pid == Some(Strip(pidFile.value)) && status == old(status)
    {
      launched := Show(remoteCommand);
      p := Rpid(pidFile);
      pid := p;
    }

    /** `kill`, given the return code of the kill command: the command run,
        the code returned unchanged and the status forced to `kill`. */
    method Kill(rc: int) returns (cmd: string, r: int)
      modifies this`status
      ensures cmd == KillCommand(directory, name, pid, host, user, here)
      ensures r == rc && status == KillMsg
    {
      cmd := KillCommand(directory, name, pid, host, user, here);
      status := KillMsg;
      r := rc;
    }

    /** `ps`, given the output of the command it runs (`None` when running
        it failed): the second line's fields under `PsKeys`, the last key
        taking the rest of the line; `None` when there is no such line or
        too few fields. */
    method Ps(psOutput: Option<string>) returns (cmd: string, entry: Option<map<string, string>>)
      ensures cmd == PsCommand(pid, host, user, here)
      ensures entry.Some? <==> PsParses(psOutput)
      ensures entry.Some? ==>
        var ts := Tokens(SplitLines(psOutput.value)[1], PySpace);
        && (forall key :: key in entry.value <==> key in PsKeys)
        && (forall k :: 0 <= k < |PsKeys| - 1 ==> PsKeys[k] in entry.value && entry.value[PsKeys[k]] == ts[k])
        && PsKeys[|PsKeys| - 1] in entry.value
        && entry.value[PsKeys[|PsKeys| - 1]] == Join(ts[|PsKeys| - 1..], " ")
    {
      cmd := PsCommand(pid, host, user, here);
      if psOutput.None? || |SplitLines(psOutput.value)| < 2 {
        return cmd, None;
      }
      var fields := PsFields(psOutput.value);
      var m: map<string, string> := map[];
      var i := 0;
      while i < |PsKeys|
        invariant 0 <= i <= |PsKeys| && i <= |fields|
        invariant m == Zip(PsKeys[..i], fields)
      {
        if i >= |fields| {
          return cmd, None;
        }
        ZipStep(PsKeys, fields, i);
        m := m[PsKeys[i] := fields[i]];
        i := i + 1;
      }
      assert PsKeys[..i] == PsKeys;
      PsTable(psOutput.value);
      entry := Some(m);
    }

    /** `to_yaml`. */
    method ToYaml() returns (text: string)
      ensures text == Join(YamlLines(Record()), "\n")
    {
      var result := [name + ":"];
      var i := 0;
      while i < |YamlKeys|
        invariant 0 <= i <= |YamlKeys|
        invariant |result| == i + 1 && result[0] == name + ":"
        invariant forall k :: 0 <= k < i ==> result[k + 1] == YamlLine(YamlKeys[k], FieldText(Record(), YamlKeys[k]))
      {
        var values := Record();
        result := result + [YamlLine(YamlKeys[i], FieldText(values, YamlKeys[i]))];
        i := i + 1;
      }
      assert result == YamlLines(Record());
      text := Join(result, "\n");
    }
  }
}
