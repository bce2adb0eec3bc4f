/** How the wrapper turns an ordered option array into the single command
    line it hands to the shell, and the extra text the list dialog appends.
 */
module Command {

  import opened Wrappers
  import opened PhpArray
  import opened PhpText

  /** PHP's two shell-escaping built-ins, `escapeshellarg` (one value) and
      `escapeshellcmd` (a whole command line). Their bodies belong to the PHP
      runtime, so the model leaves them uninterpreted: every result below
      holds for any pair of escaping functions. */
  datatype Shell = Shell(arg: string -> string, cmd: string -> string)

  /** An option array: option name to value, where a null value is a bare flag. */
  type Params = seq<Entry<Option<string>>>

  /** The text one option contributes to the command line. */
  function Flag(sh: Shell, e: Entry<Option<string>>): string
  {
    " --" + e.0 + (if e.1.Some? then "=" + sh.arg(e.1.value) else "")
  }

  /** The options in array order, as the loop of `buildCommandFromParams` emits them. */
  function Flags(sh: Shell, p: Params): string
  {
    ConcatMap(e => Flag(sh, e), p)
  }

  /** The command line before the whole-command escape. */
  function CommandLine(sh: Shell, path: string, p: Params, append: string): string
  {
    path + Flags(sh, p) + " " + append
  }

  /** The redirection that folds standard error into the captured output. */
  const Redirect := " 2>&1"

  /** What `buildCommandFromParams` returns. */
  function BuiltCommand(sh: Shell, path: string, p: Params, append: string, ret: bool): string
  {
    sh.cmd(CommandLine(sh, path, p, append)) + (if ret then Redirect else "")
  }

  predicate EndsWith(s: string, suffix: string)
  {
    |suffix| <= |s| && s[|s| - |suffix|..] == suffix
  }

  /** A property `escapeshellcmd` has: it puts a backslash before every `>`. */
  ghost predicate BackslashesRedirects(escapeCmd: string -> string)
  {
    forall s: string, i: int :: 0 <= i < |escapeCmd(s)| && escapeCmd(s)[i] == '>' ==>
      0 < i && escapeCmd(s)[i - 1] == '\\'
  }

  /** A null value gives the bare flag ` --key`; any other value gives
      ` --key=` followed by the escaped value. */
  lemma FlagShape(sh: Shell, e: Entry<Option<string>>)
    ensures |Flag(sh, e)| >= |e.0| + 3 && Flag(sh, e)[..|e.0| + 3] == " --" + e.0
    ensures |Flag(sh, e)| == |e.0| + 3 <==> e.1.None?
    ensures e.1.Some? ==> Flag(sh, e)[|e.0| + 3] == '=' && Flag(sh, e)[|e.0| + 4..] == sh.arg(e.1.value)
  {
  }

  /** Option `i` contributes exactly its own flag, after the flags of the
      options before it and before those of the options after it. */
  lemma {:induction false} FlagsAt(sh: Shell, p: Params, i: nat)
    requires i < |p|
    ensures Flags(sh, p) == Flags(sh, p[..i]) + Flag(sh, p[i]) + Flags(sh, p[i + 1..])
  {
    ConcatMapAt(e => Flag(sh, e), p, i);
  }

  /** Serialising two arrays one after the other is serialising their concatenation. */
  lemma {:induction false} FlagsAppend(sh: Shell, a: Params, b: Params)
    ensures Flags(sh, a + b) == Flags(sh, a) + Flags(sh, b)
  {
    ConcatMapAppend(e => Flag(sh, e), a, b);
  }

  /** The command line as built before `escapeshellcmd` is applied: the
      executable path, then the flags, then a space and the appended text. */
  lemma CommandLineLayout(sh: Shell, path: string, p: Params, append: string)
    ensures var line := CommandLine(sh, path, p, append);
      && |line| == |path| + |Flags(sh, p)| + 1 + |append|
      && line[..|path|] == path
      && line[|path|..|path| + |Flags(sh, p)|] == Flags(sh, p)
      && line[|path| + |Flags(sh, p)|] == ' '
      && EndsWith(line, append)
  {
  }

  /** The redirection is added after the escape, so it is never escaped, and
      with an escape that backslashes `>`, the command ends with ` 2>&1`
      exactly when a return value is wanted. */
  lemma {:induction false} RedirectIffReturn(sh: Shell, path: string, p: Params, append: string, ret: bool)
    ensures ret ==> BuiltCommand(sh, path, p, append, ret)
                    == sh.cmd(CommandLine(sh, path, p, append)) + Redirect
    ensures BackslashesRedirects(sh.cmd) ==>
              (EndsWith(BuiltCommand(sh, path, p, append, ret), Redirect) <==> ret)
  {
    var r := BuiltCommand(sh, path, p, append, ret);
    if !ret && |r| >= |Redirect| && BackslashesRedirects(sh.cmd) {
      var n := |r|;
      assert r[n - 5..][1] == r[n - 4] && r[n - 5..][2] == r[n - 3];
      assert r[n - 3] == '>' ==> r[n - 4] == '\\';
    }
  }

  /** One row of list data: column name to cell text. */
  type Row = seq<Entry<string>>

  /** The escaped cells of a row, each followed by a space. */
  function Cells(sh: Shell, row: Row): string
  {
    ConcatMap((c: Entry<string>) => sh.arg(c.1) + " ", row)
  }

  /** The line a row becomes. */
  function RowLine(sh: Shell, row: Row): string
  {
    " " + Cells(sh, row) + "\n"
  }

  function RowLines(sh: Shell, data: seq<Row>): string
  {
    ConcatMap(row => RowLine(sh, row), data)
  }

  /** The option a column name becomes. */
  function ColumnFlag(sh: Shell, name: string): string
  {
    " --column=" + sh.arg(Ucfirst(name)) + "\n"
  }

  function ColumnFlags(sh: Shell, names: seq<string>): string
  {
    ConcatMap(name => ColumnFlag(sh, name), names)
  }

  /** The column names: the keys of row 0, none when there is no row. The
      data is a list indexed 0, 1, ..., so row 0 is also the first row. */
  function Columns(data: seq<Row>): seq<string>
  {
    if data == [] then [] else Keys(data[0])
  }

  /** The text `showList` appends to the command line. */
  function ListAppend(sh: Shell, data: seq<Row>): string
  {
    ColumnFlags(sh, Columns(data)) + RowLines(sh, data)
  }

  /** The `j`-th key of row 0 becomes the `j`-th `--column` option,
      with its first letter upper-cased, and all column options come before
      the rows. */
  lemma {:induction false} ListColumnAt(sh: Shell, data: seq<Row>, j: nat)
    requires data != [] && j < |data[0]|
    ensures ListAppend(sh, data)
         == (ColumnFlags(sh, Keys(data[0])[..j])
             + ColumnFlag(sh, data[0][j].0)
             + ColumnFlags(sh, Keys(data[0])[j + 1..]))
          + RowLines(sh, data)
  {
    ConcatMapAt(name => ColumnFlag(sh, name), Keys(data[0]), j);
  }

  /** Row `i` becomes exactly one line, in row order, after the column options. */
  lemma {:induction false} ListRowAt(sh: Shell, data: seq<Row>, i: nat)
    requires i < |data|
    ensures ListAppend(sh, data)
         == ColumnFlags(sh, Columns(data))
          + (RowLines(sh, data[..i]) + RowLine(sh, data[i]) + RowLines(sh, data[i + 1..]))
  {
    ConcatMapAt(row => RowLine(sh, row), data, i);
  }

  /** Cell `j` of a row is escaped on its own and followed by one space, in
      the row's order. */
  lemma {:induction false} CellAt(sh: Shell, row: Row, j: nat)
    requires j < |row|
    ensures Cells(sh, row) == Cells(sh, row[..j]) + sh.arg(row[j].1) + " " + Cells(sh, row[j + 1..])
  {
    ConcatMapAt((c: Entry<string>) => sh.arg(c.1) + " ", row, j);
  }
}
