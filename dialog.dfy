/** The `Zenity` class: an object bound to one zenity executable that builds
    the command line for each kind of dialog, and owns at most one live
    progress-bar pipe at a time.
 */
module Dialog {

  import opened Wrappers
  import opened PhpArray
  import opened PhpText
  import opened Command

  /** The mandatory options of `executeBasic`, as its array literal builds
      them: the action as a bare flag, then `text`, then `title`. An action
      named `text` or `title` shares its key with a later entry, and in a PHP
      array literal the later value wins at the earlier position. */
  function BasicDefaults(action: string, text: Option<string>, title: string): (d: Params)
    ensures UniqueKeys(d)
    ensures forall k :: k in Keys(d) <==> k == action || k == "text" || k == "title"
    ensures "text" in Keys(d) && Get(d, "text") == text
    ensures "title" in Keys(d) && Get(d, "title") == Some(title)
    ensures action != "text" && action != "title" ==> action in Keys(d) && Get(d, action) == None
  {
    assert "text"[1] != "title"[1];
    if action == "text" then
      var d := [("text", text), ("title", Some(title))];
      assert Keys(d) == ["text", "title"];
      d
    else if action == "title" then
      var d := [("title", Some(title)), ("text", text)];
      assert Keys(d) == ["title", "text"];
      d
    else
      var d := [(action, None), ("text", text), ("title", Some(title))];
      assert Keys(d) == [action, "text", "title"];
      d
  }

  /** The option array `executeBasic` serialises: `array_merge` of the
      caller's options and the mandatory ones. */
  function BasicParams(params: Params, action: string, text: Option<string>, title: string): Params
  {
    Merge(params, BasicDefaults(action, text, title))
  }

  /** After the merge in `executeBasic` the action is a bare flag, `text` and
      `title` carry the given values whatever the caller passed, every other
      caller option survives with its value at its position, and nothing else
      is added. */
  lemma {:induction false} BasicParamsContents(params: Params, action: string, text: Option<string>, title: string)
    requires UniqueKeys(params)
    ensures var r := BasicParams(params, action, text, title);
      && UniqueKeys(r)
      && "text" in Keys(r) && Get(r, "text") == text
      && "title" in Keys(r) && Get(r, "title") == Some(title)
      && action in Keys(r)
      && (action != "text" && action != "title" ==> Get(r, action) == None)
      && Keys(r) == Keys(params) + Fresh(Keys(BasicDefaults(action, text, title)), Keys(params))
      && |params| <= |r| && Keys(r)[..|params|] == Keys(params)
      && (forall k :: k in Keys(r) <==> k in Keys(params) || k == action || k == "text" || k == "title")
      && (forall k :: k in Keys(params) && k != action && k != "text" && k != "title" ==>
            Get(r, k) == Get(params, k))
  {
    var d := BasicDefaults(action, text, title);
    MergeContents(params, d);
    var r := Merge(params, d);
    assert Keys(r) == Keys(params) + Fresh(Keys(d), Keys(params));
    assert action in Keys(d);
  }

  /** The options `showProgress` always sets. */
  const ProgressDefaults: Params :=
    [("progress", None), ("percentage", Some("0")), ("auto-close", None), ("auto-kill", None)]

  lemma ProgressDefaultsKeys()
    ensures Keys(ProgressDefaults) == ["progress", "percentage", "auto-close", "auto-kill"]
    ensures UniqueKeys(ProgressDefaults)
  {
  }

  /** The option array `showProgress` serialises. */
  function ProgressParams(params: Params): Params
  {
    Merge(params, ProgressDefaults)
  }

  /** `showProgress` always ends up with `progress`, `auto-close` and
      `auto-kill` as bare flags and `percentage` 0, overriding the caller,
      keeps every other caller option with its value at its position, and
      appends the progress options the caller lacks in their literal order. */
  lemma {:induction false} ProgressParamsContents(params: Params)
    requires UniqueKeys(params)
    ensures var r := ProgressParams(params);
      && UniqueKeys(r)
      && "progress" in Keys(r) && Get(r, "progress") == None
      && "percentage" in Keys(r) && Get(r, "percentage") == Some("0")
      && "auto-close" in Keys(r) && Get(r, "auto-close") == None
      && "auto-kill" in Keys(r) && Get(r, "auto-kill") == None
      && |params| <= |r| && Keys(r)[..|params|] == Keys(params)
      && Keys(r) == Keys(params) + Fresh(Keys(ProgressDefaults), Keys(params))
      && (forall k :: k in Keys(r) <==> k in Keys(params) || k in Keys(ProgressDefaults))
      && (forall k :: k in Keys(params) && k !in Keys(ProgressDefaults) ==> Get(r, k) == Get(params, k))
  {
    ProgressDefaultsKeys();
    MergeContents(params, ProgressDefaults);
    var r := ProgressParams(params);
    assert IndexOf(ProgressDefaults, "progress") == 0;
    assert IndexOf(ProgressDefaults, "percentage") == 1;
    assert IndexOf(ProgressDefaults, "auto-close") == 2;
    assert IndexOf(ProgressDefaults, "auto-kill") == 3;
  }

  /** The two strings one progress update writes: the percentage cast to an
      integer on its own line, then the label behind `#` on its own line. */
  function ProgressUpdate(percentage: real, text: string): seq<string>
  {
    [IntToString(TruncateToInt(percentage)) + "\n", "#" + text + "\n"]
  }

  /** What zenity reads back from one update: the first line is exactly the
      truncated percentage, the second is `#` followed by the label. */
  lemma {:induction false} ProgressUpdateReadsBack(percentage: real, text: string)
    ensures var u := ProgressUpdate(percentage, text);
      && |u| == 2
      && |u[0]| >= 2 && u[0][|u[0]| - 1] == '\n'
      && ParseInt(u[0][..|u[0]| - 1]) == Some(TruncateToInt(percentage))
      && u[1] == ['#'] + text + ['\n']
  {
    var u := ProgressUpdate(percentage, text);
    assert u[0][..|u[0]| - 1] == IntToString(TruncateToInt(percentage));
    IntToStringRoundTrip(TruncateToInt(percentage));
  }

  /** PHP truthiness of the list type: null, "" and "0" are false. */
  predicate Truthy(t: Option<string>)
  {
    t.Some? && t.value != "" && t.value != "0"
  }

  /** `$params[$name] = $value` when `on` holds, as the dialog methods set
      options before calling `executeBasic`: the option takes the value (a
      null value makes it a bare flag), added at the end unless the caller
      already set it. */
  function WithOption(params: Params, name: string, value: Option<string>, on: bool): (r: Params)
    ensures UniqueKeys(params) ==> UniqueKeys(r)
    ensures on ==> name in Keys(r) && Get(r, name) == value
    ensures on ==> forall k :: k in Keys(r) <==> k in Keys(params) || k == name
    ensures !on ==> r == params
    ensures |params| <= |r| && Keys(r)[..|params|] == Keys(params)
    ensures forall k :: k in Keys(params) && k != name ==> k in Keys(r) && Get(r, k) == Get(params, k)
  {
    if on then
      AssignContents(params, name, value);
      Assign(params, name, value)
    else params
  }

  /** The caller's options of `showTextInfo`: `filename` set to the file, and
      a bare `editable` flag when the text may be edited. */
  function TextInfoOptions(params: Params, filename: string, editable: bool): Params
  {
    WithOption(WithOption(params, "filename", Some(filename), true), "editable", None, editable)
  }

  /** The keys `showTextInfo` passes on: the caller's, in order, then
      `filename` and, when editable, `editable` if the caller lacks them. */
  lemma {:induction false} TextInfoOptionsKeys(params: Params, filename: string, editable: bool)
    ensures var r := TextInfoOptions(params, filename, editable);
      && (UniqueKeys(params) ==> UniqueKeys(r))
      && (forall k :: k in Keys(r) <==> k in Keys(params) || k == "filename" || (editable && k == "editable"))
      && |params| <= |r| && Keys(r)[..|params|] == Keys(params)
  {
    var p := WithOption(params, "filename", Some(filename), true);
    var r := WithOption(p, "editable", None, editable);
    assert Keys(r)[..|params|] == Keys(p)[..|params|];
  }

  /** `showTextInfo` sets `filename` to the file and, when editable, adds a
      bare `editable` flag, keeping every other caller option in place. */
  lemma {:induction false} TextInfoOptionsContents(params: Params, filename: string, editable: bool)
    ensures var r := TextInfoOptions(params, filename, editable);
      && (UniqueKeys(params) ==> UniqueKeys(r))
      && "filename" in Keys(r) && Get(r, "filename") == Some(filename)
      && (editable ==> "editable" in Keys(r) && Get(r, "editable") == None)
      && (forall k :: k in Keys(r) <==> k in Keys(params) || k == "filename" || (editable && k == "editable"))
      && |params| <= |r| && Keys(r)[..|params|] == Keys(params)
      && (forall k :: k in Keys(params) && k != "filename" && (editable ==> k != "editable") ==>
            k in Keys(r) && Get(r, k) == Get(params, k))
  {
    TextInfoOptionsKeys(params, filename, editable);
    var p := WithOption(params, "filename", Some(filename), true);
    var r := WithOption(p, "editable", None, editable);
    forall k | k in Keys(params) && k != "filename" && (editable ==> k != "editable")
      ensures k in Keys(r) && Get(r, k) == Get(params, k)
    {
      assert k in Keys(p) && Get(p, k) == Get(params, k);
    }
  }

  /** The caller's options of `showList`, with the list type as a bare flag
      when it is truthy. */
  function ListOptions(params: Params, listType: Option<string>): (r: Params)
    ensures UniqueKeys(params) ==> UniqueKeys(r)
    ensures Truthy(listType) ==> listType.value in Keys(r) && Get(r, listType.value) == None
    ensures Truthy(listType) ==> forall k :: k in Keys(r) <==> k in Keys(params) || k == listType.value
    ensures !Truthy(listType) ==> r == params
    ensures |params| <= |r| && Keys(r)[..|params|] == Keys(params)
    ensures forall k :: k in Keys(params) && (listType.Some? ==> k != listType.value) ==>
      k in Keys(r) && Get(r, k) == Get(params, k)
  {
    if Truthy(listType) then WithOption(params, listType.value, None, true) else params
  }

  /** A process started by `popen($cmd, 'w')`: the command it runs, whether
      its pipe is still open, and every string written to it, in order. */
  class Pipe {
    const command: string
    var open: bool
    var written: seq<string>

    constructor (command: string)
      ensures this.command == command && open && written == []
    {
      this.command := command;
      open := true;
      written := [];
    }

    /** `fwrite`: on a closed pipe PHP only warns and nothing is written. */
    method Write(s: string)
      modifies this
      ensures open == old(open)
      ensures written == if old(open) then old(written) + [s] else old(written)
    {
      if open {
        written := written + [s];
      }
    }

    /** `pclose`: the process sees the end of its input. */
    method Close()
      modifies this
      ensures !open && written == old(written)
    {
      open := false;
    }
  }

  class Zenity {
    /** The zenity executable. */
    const path: string
    /** The PHP runtime's escaping built-ins. */
    const shell: Shell
    /** The progress pipe last opened; PHP keeps it here after closing it. */
    var handle: Pipe?
    /** Every pipe this object has opened, oldest first. */
    ghost var spawned: seq<Pipe>

    /** At most one pipe opened by this object is live: the current handle. */
    ghost predicate Valid()
      reads this, spawned
    {
      && (handle != null ==> handle in spawned)
      && (forall q :: q in spawned && q != handle ==> !q.open)
    }

    /** The constructor stores the executable path unchanged. */
    constructor (shell: Shell, pathToZenity: string := "/usr/bin/zenity")
      ensures path == pathToZenity
      ensures forall s :: this.shell.arg(s) == shell.arg(s) && this.shell.cmd(s) == shell.cmd(s)
      ensures handle == null && spawned == [] && Valid()
    {
      path := pathToZenity;
      this.shell := shell;
      handle := null;
      spawned := [];
    }

    /** Two live pipes are the same pipe. */
    lemma AtMostOneLive()
      requires Valid()
      ensures forall q, q' :: q in spawned && q' in spawned && q.open && q'.open ==> q == q'
    {
    }

    /** The command line for an option array: the path, one flag per option
        in array order, a space and `append`, all escaped as one command,
        then the redirection of standard error when `ret` is set. */
    method BuildCommandFromParams(params: Params, append: string := "", ret: bool := false)
      returns (cmd: string)
      ensures cmd == BuiltCommand(shell, path, params, append, ret)
    {
      cmd := path;
      for i := 0 to |params|
        invariant cmd == path + Flags(shell, params[..i])
      {
        var (key, val) := params[i];
        cmd := cmd + " --" + key;
        if val.Some? {
          cmd := cmd + "=" + shell.arg(val.value);
        }
        assert params[..i + 1][..i] == params[..i];
      }
      assert params[..|params|] == params;
      cmd := cmd + " " + append;
      cmd := shell.cmd(cmd);
      if ret {
        cmd := cmd + Redirect;
      }
    }

    /** Merges the mandatory options over the caller's and builds the command
        that is run. */
    method ExecuteBasic(action: string, text: Option<string>, title: string, ret: bool := false,
                        params: Params := [], append: string := "")
      returns (cmd: string)
      ensures cmd == BuiltCommand(shell, path, BasicParams(params, action, text, title), append, ret)
    {
      var defaults := BasicDefaults(action, text, title);
      var merged := Merge(params, defaults);
      cmd := BuildCommandFromParams(merged, append, ret);
    }

    method ShowError(text: string, title: string := "Error", params: Params := []) returns (cmd: string)
      ensures cmd == BuiltCommand(shell, path, BasicParams(params, "error", Some(text), title), "", false)
    {
      cmd := ExecuteBasic("error", Some(text), title, false, params);
    }

    method ShowInfo(text: string, title: string := "Info", params: Params := []) returns (cmd: string)
      ensures cmd == BuiltCommand(shell, path, BasicParams(params, "info", Some(text), title), "", false)
    {
      cmd := ExecuteBasic("info", Some(text), title, false, params);
    }

    /** Shows a file; the output is captured only when it is editable. */
    method ShowTextInfo(filename: string, title: string := "Text View", editable: bool := false,
                        params: Params := [])
      returns (cmd: string)
      ensures cmd == BuiltCommand(shell, path,
                     BasicParams(TextInfoOptions(params, filename, editable), "text-info", Some(""), title),
                     "", editable)
    {
      var p := params;
      p := Assign(p, "filename", Some(filename));
      var ret := false;
      if editable {
        ret := true;
        p := Assign(p, "editable", None);
      }
      cmd := ExecuteBasic("text-info", Some(""), title, ret, p);
    }

    method GetEntry(text: string, title: string, params: Params := []) returns (cmd: string)
      ensures cmd == BuiltCommand(shell, path, BasicParams(params, "entry", Some(text), title), "", true)
    {
      cmd := ExecuteBasic("entry", Some(text), title, true, params);
    }

    method GetDate(text: string, title: string, params: Params := []) returns (cmd: string)
      ensures cmd == BuiltCommand(shell, path, BasicParams(params, "calendar", Some(text), title), "", true)
    {
      cmd := ExecuteBasic("calendar", Some(text), title, true, params);
    }

    /** Asks for one or several files. `output` is what the dialog printed;
        the result is that output split on `|`, so it is never empty, no path
        holds a `|`, and joining the paths with `|` gives the output back. */
    method GetFile(output: string, title: string, multiple: bool := false, params: Params := [])
      returns (cmd: string, files: seq<string>)
      ensures cmd == BuiltCommand(shell, path,
                     BasicParams(WithOption(params, "multiple", None, multiple), "file-selection", None, title), "", true)
      ensures files == Explode(output)
      ensures |files| >= 1 && Implode(files) == output
      ensures forall i :: 0 <= i < |files| ==> '|' !in files[i]
    {
      var p := params;
      if multiple {
        p := Assign(p, "multiple", None);
      }
      cmd := ExecuteBasic("file-selection", None, title, true, p);
      files := Explode(output);
    }

    /** A list dialog: one `--column` option per key of row 0 and
        one line of escaped cells per row, appended after the options. */
    method ShowList(text: string := "Select", title: string := "List", data: seq<Row> := [],
                    listType: Option<string> := None, params: Params := [])
      returns (cmd: string)
      ensures cmd == BuiltCommand(shell, path,
                     BasicParams(ListOptions(params, listType), "list", Some(text), title),
                     ListAppend(shell, data), true)
    {
      var columns := Columns(data);
      var values := RowValues(data);
      var append := ColumnOptions(columns);
      append := append + values;
      var p := params;
      if Truthy(listType) {
        p := Assign(p, listType.value, None);
      }
      cmd := ExecuteBasic("list", Some(text), title, true, p, append);
    }

    /** The row loop of `showList`: for each row a space, each cell escaped
        and followed by a space, then a newline. */
    method RowValues(data: seq<Row>) returns (values: string)
      ensures values == RowLines(shell, data)
    {
      values := "";
      for i := 0 to |data|
        invariant values == RowLines(shell, data[..i])
      {
        values := values + " ";
        var row := data[i];
        for j := 0 to |row|
          invariant values == RowLines(shell, data[..i]) + " " + Cells(shell, row[..j])
        {
          values := values + shell.arg(row[j].1) + " ";
          assert row[..j + 1][..j] == row[..j];
        }
        values := values + "\n";
        assert row[..|row|] == row;
        assert data[..i + 1][..i] == data[..i];
      }
      assert data[..|data|] == data;
    }

    /** The column loop of `showList`: one `--column` option per name. */
    method ColumnOptions(columns: seq<string>) returns (append: string)
      ensures append == ColumnFlags(shell, columns)
    {
      append := "";
      for j := 0 to |columns|
        invariant append == ColumnFlags(shell, columns[..j])
      {
        append := append + " --column=" + shell.arg(Ucfirst(columns[j])) + "\n";
        assert columns[..j + 1][..j] == columns[..j];
      }
      assert columns[..|columns|] == columns;
    }

    /** Opens a progress bar. A pipe still held is closed first; `launched`
        says whether the process could be started. */
    method ShowProgress(launched: bool, params: Params := [])
      requires Valid()
      modifies this, handle
      ensures Valid()
      ensures old(handle) != null ==> !old(handle).open && old(handle).written == old(handle.written)
      ensures launched ==> && handle != null && fresh(handle)
                           && handle.command == BuiltCommand(shell, path, ProgressParams(params), "", false)
                           && handle.open && handle.written == []
                           && spawned == old(spawned) + [handle]
      ensures !launched ==> handle == null && spawned == old(spawned)
    {
      var cmd := BuildCommandFromParams(ProgressParams(params));
      if handle != null {
        CloseProgress();
      }
      Popen(launched, cmd);
    }

    /** `$this->handle = popen($cmd, 'w')` once every earlier pipe is closed:
        a fresh open pipe when the process starts, no pipe otherwise. */
    method Popen(launched: bool, cmd: string)
      requires handle != null ==> handle in spawned
      requires forall q :: q in spawned ==> !q.open
      modifies this
      ensures Valid()
      ensures launched ==> && handle != null && fresh(handle)
                           && handle.command == cmd && handle.open && handle.written == []
                           && spawned == old(spawned) + [handle]
      ensures !launched ==> handle == null && spawned == old(spawned)
    {
      if launched {
        var pipe := new Pipe(cmd);
        handle := pipe;
        spawned := spawned + [pipe];
      } else {
        handle := null;
      }
    }

    /** Writes one update to the progress pipe; nothing is written when no
        pipe is held or it was closed. */
    method UpdateProgress(percentage: real := 0.0, text: string := "Processing")
      requires Valid()
      modifies handle
      ensures Valid()
      ensures handle != null ==> handle.open == old(handle.open)
      ensures handle != null ==> handle.written == if old(handle.open)
                                                   then old(handle.written) + ProgressUpdate(percentage, text)
                                                   else old(handle.written)
    {
      if handle != null {
        handle.Write(IntToString(TruncateToInt(percentage)) + "\n");
        handle.Write("#" + text + "\n");
      }
    }

    /** Closes the progress pipe; the handle field itself is kept. */
    method CloseProgress()
      requires Valid()
      modifies handle
      ensures Valid()
      ensures handle != null ==> !handle.open && handle.written == old(handle.written)
    {
      if handle != null {
        handle.Close();
      }
    }
  }
}
