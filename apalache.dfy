/** The Apalache mode: runs Apalache on the current project and relays its
    output.

    Standard output is modelled as the text written to it; the child
    process is modelled by the records its output stream delivers and by
    what joining it returns. The calls that locate and load the project and
    build the Apalache command are inputs that may fail. */
module Apalache {
  import opened Common

  /** The build target of a run: the project path, and the flag this mode
      always sets when it builds the target. */
  datatype Target = Target(projectPath: string, buildArtifacts: bool)

  /** An Apalache run: its target, the arguments passed through to Apalache,
      and whether to show the command before running it. */
  datatype Run = Run(target: Target, tailArgs: seq<string>, showConfig: bool)

  /** Building a run fails exactly when the project path cannot be found. */
  function NewRun(tailArgs: seq<string>, showConfig: bool, projectPath: Res<string>): (r: Res<Run>)
    ensures r.Err? <==> projectPath.Err?
    ensures r.Err? ==> r.error == projectPath.error
    ensures r.Ok? ==> r.value.target == Target(projectPath.value, true)
    ensures r.Ok? ==> r.value.tailArgs == tailArgs && r.value.showConfig == showConfig
  {
    match projectPath
    case Err(e) => Err(e)
    case Ok(path) => Ok(Run(Target(path, true), tailArgs, showConfig))
  }

  /** An external command: program, arguments and optional working directory. */
  datatype Command = Command(program: string, args: seq<string>, cwd: Option<string>)

  /** The four fallible calls made while preparing the command, in the order
      they are made: find the project path, load the project from it, turn
      it into a full Apalache project for the run's target, build the command. */
  datatype ProjectCalls = ProjectCalls(path: Res<string>, load: Res<()>, full: Res<()>, command: Res<Command>)

  /** The command the calls produce, or the error of the first call that fails. */
  function ProjectCommand(p: ProjectCalls): (r: Res<Command>)
    ensures r.Ok? <==> p.path.Ok? && p.load.Ok? && p.full.Ok? && p.command.Ok?
    ensures r.Ok? ==> r.value == p.command.value
    ensures p.path.Err? ==> r == Err(p.path.error)
    ensures p.path.Ok? && p.load.Err? ==> r == Err(p.load.error)
    ensures p.path.Ok? && p.load.Ok? && p.full.Err? ==> r == Err(p.full.error)
    ensures p.path.Ok? && p.load.Ok? && p.full.Ok? ==> r == p.command
  {
    if p.path.Err? then Err(p.path.error)
    else if p.load.Err? then Err(p.load.error)
    else if p.full.Err? then Err(p.full.error)
    else p.command
  }

  // ---------------------------------------------------------------------
  // Lines of text

  /** The text of some lines, each ended by a newline. */
  function Unlines(lines: seq<string>): string {
    if lines == [] then "" else lines[0] + "\n" + Unlines(lines[1..])
  }

  lemma {:induction false} UnlinesAppend(a: seq<string>, b: seq<string>)
    ensures Unlines(a + b) == Unlines(a) + Unlines(b)
  {
    if a == [] {
      assert a + b == b;
    } else {
      assert (a + b)[1..] == a[1..] + b;
      UnlinesAppend(a[1..], b);
    }
  }

  lemma {:induction false} UnlinesOne(line: string)
    ensures Unlines([line]) == line + "\n"
  {
    assert [line][1..] == [];
  }

  // ---------------------------------------------------------------------
  // Showing the command

  /** The line ending that continues a command on the next line. */
  const Continued: string := " \\"

  /** The rows of the shown command before line continuations: the program
      behind a "> ", then each argument indented by four spaces. */
  function Rows(cmd: Command): (rows: seq<string>)
    ensures |rows| == |cmd.args| + 1
    ensures rows[0] == "> " + cmd.program
    ensures forall i | 0 <= i < |cmd.args| :: rows[i + 1] == "    " + cmd.args[i]
  {
    ["> " + cmd.program] + seq(|cmd.args|, i requires 0 <= i < |cmd.args| => "    " + cmd.args[i])
  }

  /** Every row ended by a line continuation. */
  function WithContinuation(rows: seq<string>): (lines: seq<string>)
    ensures |lines| == |rows|
    ensures forall i | 0 <= i < |rows| :: lines[i] == rows[i] + Continued
  {
    seq(|rows|, i requires 0 <= i < |rows| => rows[i] + Continued)
  }

  /** The lines shown for a command: one per row, every one but the last
      continued; then the working directory, if any; then a blank line. */
  function ConfigLines(cmd: Command): (lines: seq<string>)
    ensures |lines| == |cmd.args| + (if cmd.cwd.Some? then 3 else 2)
    ensures lines[|cmd.args|] == Rows(cmd)[|cmd.args|]
    ensures forall i | 0 <= i < |cmd.args| :: lines[i] == Rows(cmd)[i] + Continued
    ensures cmd.cwd.Some? ==> lines[|cmd.args| + 1] == "| in `" + cmd.cwd.value + "`"
    ensures lines[|lines| - 1] == ""
  {
    var rows := Rows(cmd);
    var n := |cmd.args|;
    WithContinuation(rows[..n]) + ([rows[n]] + CwdLines(cmd.cwd) + [""])
  }

  /** The line naming the working directory, when there is one. */
  function CwdLines(cwd: Option<string>): seq<string> {
    match cwd
    case Some(dir) => ["| in `" + dir + "`"]
    case None => []
  }

  /** Writes the command, one argument per line, to the returned text. */
  method ShowConfig(cmd: Command) returns (out: string)
    ensures out == Unlines(ConfigLines(cmd))
  {
    ghost var rows := Rows(cmd);
    out := "> " + cmd.program;
    for i := 0 to |cmd.args|
      invariant out == Unlines(WithContinuation(rows[..i])) + rows[i]
    {
      ContinuedRow(rows, i);
      assert rows[i + 1] == "    " + cmd.args[i];
      out := out + " \\\n    " + cmd.args[i];
    }
    ghost var shown := out;
    out := out + "\n";
    match cmd.cwd {
      case Some(dir) => out := out + "| in `" + dir + "`" + "\n";
      case None =>
    }
    out := out + "\n";
    ConfigText(cmd);
    assert out == shown + "\n"
      + (match cmd.cwd case Some(dir) => "| in `" + dir + "`" + "\n" case None => "")
      + "\n";
  }

  /** One more continued row adds that row and a line continuation. */
  lemma {:induction false} ContinuedRow(rows: seq<string>, i: nat)
    requires i < |rows|
    ensures Unlines(WithContinuation(rows[..i + 1]))
         == Unlines(WithContinuation(rows[..i])) + rows[i] + " \\\n"
  {
    assert WithContinuation(rows[..i + 1]) == WithContinuation(rows[..i]) + [rows[i] + Continued];
    UnlinesAppend(WithContinuation(rows[..i]), [rows[i] + Continued]);
    UnlinesOne(rows[i] + Continued);
  }

  /** The shown text: the continued rows, the last row, the working
      directory line if any, and a blank line. */
  lemma {:induction false} ConfigText(cmd: Command)
    ensures var rows, n := Rows(cmd), |cmd.args|;
      Unlines(ConfigLines(cmd))
      == Unlines(WithContinuation(rows[..n])) + rows[n] + "\n"
         + (match cmd.cwd case Some(dir) => "| in `" + dir + "`" + "\n" case None => "")
         + "\n"
  {
    var rows, n := Rows(cmd), |cmd.args|;
    UnlinesAppend(WithContinuation(rows[..n]), [rows[n]] + CwdLines(cmd.cwd) + [""]);
    ClosingText(rows[n], cmd.cwd);
  }

  /** The last row, the working directory line and the blank line. */
  lemma {:induction false} ClosingText(last: string, cwd: Option<string>)
    ensures Unlines([last] + CwdLines(cwd) + [""])
      == last + "\n" + (match cwd case Some(dir) => "| in `" + dir + "`" + "\n" case None => "") + "\n"
  {
    UnlinesAppend([last] + CwdLines(cwd), [""]);
    UnlinesAppend([last], CwdLines(cwd));
    UnlinesOne(last);
    UnlinesOne("");
    if cwd.Some? {
      UnlinesOne(CwdLines(cwd)[0]);
    }
  }

  /** Prepares the Apalache command for a project, showing it first when the
      run asks for it. Nothing is shown when a call fails. */
  method TryMatlaProject(run: Run, project: ProjectCalls) returns (out: string, r: Res<Option<Command>>)
    ensures r.Err? <==> ProjectCommand(project).Err?
    ensures r.Err? ==> r.error == ProjectCommand(project).error && out == ""
    ensures r.Ok? ==> r.value == Some(ProjectCommand(project).value)
    ensures r.Ok? ==> out == if run.showConfig then Unlines(ConfigLines(r.value.value)) else ""
  {
    out := "";
    var cmd := ProjectCommand(project);
    match cmd {
      case Err(e) =>
        r := Err(e);
      case Ok(c) =>
        if run.showConfig {
          out := ShowConfig(c);
        }
        r := Ok(Some(c));
    }
  }

  // ---------------------------------------------------------------------
  // Relaying the child's output

  /** One line of the child's output, and whether it came from its error stream. */
  datatype Record = Record(line: string, isStderr: bool)

  /** The marker shown before a line of the child's error stream. */
  const Marker: string := ">"

  /** How one line of the child's output is shown. */
  function Shown(r: Record): string {
    (if r.isStderr then Marker + " " else "") + r.line
  }

  /** What the output stream delivers before it closes: the items up to the
      first `None`; reading past the end of `stream` also gives `None`. */
  function Delivered(stream: seq<Option<Res<Record>>>): seq<Res<Record>> {
    if stream == [] || stream[0].None? then [] else [stream[0].value] + Delivered(stream[1..])
  }

  /** The delivered items are the stream's items, in order, up to the first
      `None` or the end of the stream. */
  lemma {:induction false} DeliveredIsPrefix(stream: seq<Option<Res<Record>>>)
    ensures |Delivered(stream)| <= |stream|
    ensures forall i | 0 <= i < |Delivered(stream)| :: stream[i] == Some(Delivered(stream)[i])
    ensures |Delivered(stream)| < |stream| ==> stream[|Delivered(stream)|].None?
  {
    if stream != [] && stream[0].Some? {
      DeliveredIsPrefix(stream[1..]);
    }
  }

  /** The lines shown for delivered items: one per record, errors skipped. */
  function Printed(items: seq<Res<Record>>): seq<string> {
    if items == [] then []
    else (match items[0] case Ok(r) => [Shown(r)] case Err(_) => []) + Printed(items[1..])
  }

  /** The errors reported for delivered items, in order. */
  function Reported(items: seq<Res<Record>>): seq<Error> {
    if items == [] then []
    else (match items[0] case Ok(_) => [] case Err(e) => [e]) + Reported(items[1..])
  }

  lemma {:induction false} PrintedAppend(a: seq<Res<Record>>, b: seq<Res<Record>>)
    ensures Printed(a + b) == Printed(a) + Printed(b)
    ensures Reported(a + b) == Reported(a) + Reported(b)
  {
    if a == [] {
      assert a + b == b;
    } else {
      assert (a + b)[0] == a[0];
      assert (a + b)[1..] == a[1..] + b;
      PrintedAppend(a[1..], b);
    }
  }

  /** An error in the stream is reported and does not stop the relay: the
      records after it are shown as if it were not there. */
  lemma {:induction false} ErrorDoesNotStopRelay(before: seq<Res<Record>>, e: Error, after: seq<Res<Record>>)
    ensures Printed(before + [Err(e)] + after) == Printed(before) + Printed(after)
    ensures Reported(before + [Err(e)] + after) == Reported(before) + [e] + Reported(after)
  {
    PrintedAppend(before + [Err(e)], after);
    PrintedAppend(before, [Err(e)]);
    var single: seq<Res<Record>> := [Err(e)];
    assert single[1..] == [];
  }

  /** Each record is shown once, in arrival order, marked exactly when it
      came from the error stream. */
  lemma {:induction false} PrintedInOrder(rs: seq<Record>)
    ensures Printed(seq(|rs|, i requires 0 <= i < |rs| => Ok(rs[i])))
         == seq(|rs|, i requires 0 <= i < |rs| => if rs[i].isStderr then Marker + " " + rs[i].line else rs[i].line)
  {
    PrintedRecords(rs);
    var shown := seq(|rs|, i requires 0 <= i < |rs| => Shown(rs[i]));
    assert forall i | 0 <= i < |rs| :: shown[i] == if rs[i].isStderr then Marker + " " + rs[i].line else rs[i].line;
  }

  lemma {:induction false} PrintedRecords(rs: seq<Record>)
    ensures Printed(seq(|rs|, i requires 0 <= i < |rs| => Ok(rs[i]))) == seq(|rs|, i requires 0 <= i < |rs| => Shown(rs[i]))
  {
    var items := seq(|rs|, i requires 0 <= i < |rs| => Ok(rs[i]));
    var shown := seq(|rs|, i requires 0 <= i < |rs| => Shown(rs[i]));
    if rs == [] {
      assert items == [];
    } else {
      var rest := rs[1..];
      assert items[1..] == seq(|rest|, i requires 0 <= i < |rest| => Ok(rest[i]));
      PrintedRecords(rest);
      assert shown == [Shown(rs[0])] + seq(|rest|, i requires 0 <= i < |rest| => Shown(rest[i]));
    }
  }

  /** The relay stops at the first `None`: nothing after it is read. */
  lemma {:induction false} RelayStopsAtClose(before: seq<Option<Res<Record>>>, after: seq<Option<Res<Record>>>)
    requires forall i | 0 <= i < |before| :: before[i].Some?
    ensures Delivered(before + [None] + after) == Delivered(before)
  {
    if before != [] {
      assert (before + [None] + after)[1..] == before[1..] + [None] + after;
      RelayStopsAtClose(before[1..], after);
    } else {
      assert (before + [None] + after)[0] == None;
    }
  }

  lemma {:induction false} DeliveredNext(stream: seq<Option<Res<Record>>>, i: nat)
    requires i < |stream| && stream[i].Some?
    ensures Delivered(stream[i..]) == [stream[i].value] + Delivered(stream[i + 1..])
  {
    assert stream[i..][1..] == stream[i + 1..];
  }

  lemma {:induction false} DeliveredClosed(stream: seq<Option<Res<Record>>>, i: nat)
    requires i <= |stream|
    requires i < |stream| ==> stream[i].None?
    ensures Delivered(stream[i..]) == []
  {
    assert i < |stream| ==> stream[i..][0].None?;
  }

  /** Showing one more delivered item adds its line, or its error, at the end. */
  lemma {:induction false} RelayOne(seen: seq<Res<Record>>, item: Res<Record>)
    ensures Unlines(Printed(seen + [item])) == Unlines(Printed(seen)) + (if item.Ok? then Shown(item.value) + "\n" else "")
    ensures Reported(seen + [item]) == Reported(seen) + (if item.Ok? then [] else [item.error])
  {
    PrintedAppend(seen, [item]);
    assert [item][1..] == [];
    if item.Ok? {
      assert Printed([item]) == [Shown(item.value)];
      assert Reported([item]) == [];
      UnlinesAppend(Printed(seen), [Shown(item.value)]);
      UnlinesOne(Shown(item.value));
    } else {
      assert Printed([item]) == [];
      assert Reported([item]) == [item.error];
      assert Printed(seen + [item]) == Printed(seen);
    }
  }

  /** The relay loop: shows each record of the stream as it arrives,
      reports each error and goes on, and stops when the stream closes. */
  method Relay(stream: seq<Option<Res<Record>>>) returns (out: string, reported: seq<Error>)
    ensures out == Unlines(Printed(Delivered(stream)))
    ensures reported == Reported(Delivered(stream))
  {
    out, reported := "", [];
    var i := 0;
    ghost var seen: seq<Res<Record>> := [];
    while true
      invariant 0 <= i <= |stream|
      invariant Delivered(stream) == seen + Delivered(stream[i..])
      invariant out == Unlines(Printed(seen))
      invariant reported == Reported(seen)
      decreases |stream| - i
    {
      var next := if i < |stream| then stream[i] else None;
      if next.None? {
        DeliveredClosed(stream, i);
        assert seen + [] == seen;
        break;
      }
      var item := next.value;
      DeliveredNext(stream, i);
      RelayOne(seen, item);
      if item.Ok? {
        out := out + Shown(item.value) + "\n";
      } else {
        reported := reported + [item.error];
      }
      seen := seen + [item];
      i := i + 1;
    }
  }

  /** What joining the child gives: its own result, or a panic. */
  datatype Joined = Finished(res: Res<ExitStatus>) | Panicked

  /** Runs Apalache: prepares the command (showing it if asked), appends the
      pass-through arguments, spawns the child, relays its output until the
      stream closes, and then joins it. */
  method Launch(run: Run, project: ProjectCalls, stream: seq<Option<Res<Record>>>, join: Joined)
    returns (out: string, reported: seq<Error>, spawned: Option<Command>, r: Res<ExitStatus>)
    ensures ProjectCommand(project).Err? ==>
      out == "" && reported == [] && spawned == None && r == Err(ProjectCommand(project).error)
    ensures ProjectCommand(project).Ok? ==>
      var cmd := ProjectCommand(project).value;
      && spawned == Some(cmd.(args := cmd.args + run.tailArgs))
      && out == (if run.showConfig then Unlines(ConfigLines(cmd)) else "") + Unlines(Printed(Delivered(stream)))
      && reported == Reported(Delivered(stream))
      && r == (match join case Finished(res) => res case Panicked => Err(Msg("failed to join Apalache process")))
  {
    var shown, prepared := TryMatlaProject(run, project);
    match prepared {
      case Err(e) =>
        out, reported, spawned, r := shown, [], None, Err(e);
      case Ok(maybeCmd) =>
        var cmd := maybeCmd.value;
        cmd := cmd.(args := cmd.args + run.tailArgs);
        spawned := Some(cmd);
        var relayed;
        relayed, reported := Relay(stream);
        out := shown + relayed;
        match join {
          case Finished(res) => r := res;
          case Panicked => r := Err(Msg("failed to join Apalache process"));
        }
    }
  }
}
