# Zenity dialogs from PHP, modelled in Dafny

The `Zenity` class lets a PHP script show GNOME dialogs by running the
`zenity` executable. Each dialog method fills an option array, merges the
dialog's mandatory options over the caller's (`array_merge`), and turns the
array into one shell command line in `buildCommandFromParams`: the
executable path, one ` --name` or ` --name=<escaped value>` per option in
array order, a space and any appended text, the whole line passed through
`escapeshellcmd`, and ` 2>&1` added when the dialog's answer is wanted.
`getFile` splits the answer on `|`. `showList` appends one `--column` option
per key of the data row at key 0 and one line of escaped cells per row. The
progress bar is a long-running process opened with `popen`; the object keeps
its pipe, writes `<int percentage>\n` and `#<label>\n` to it for each update,
and closes it before opening another.

The model is split into four modules:

- `PhpArray` (`php_array.dfy`): PHP arrays with string keys as
  insertion-ordered entry lists; `$a[$k] = $v` is `Assign`, `array_merge` is
  `Merge`.
- `PhpText` (`php_text.dfy`): the `(int)` cast and the integer's decimal
  text, `ucfirst`, `explode('|', ...)` and `implode`, and left-to-right
  string building (`ConcatMap`).
- `Command` (`command.dfy`): option serialisation, the command that
  `buildCommandFromParams` returns, and the text `showList` appends.
  `escapeshellarg` and `escapeshellcmd` are the two fields of a `Shell`
  value and stay uninterpreted.
- `Dialog` (`dialog.dfy`): the class `Zenity`, with one method per public
  method of the PHP class, and the class `Pipe`, which stands for a pipe
  opened by `popen` and records what is written to it. A ghost field
  `spawned` lists every pipe the object has opened, and `Valid()` says that
  at most one of them is still open.

Each dialog method returns the command it hands to `exec`. The result of
`exec` is a parameter (`output` of `GetFile`). Whether `popen` succeeded is
also a parameter (`launched` of `ShowProgress`).

## Model

| member | source | states |
|---|---|---|
| PhpArray.AssignContents | Zenity.php:84-88 | `$p[$k] = $v` keeps an existing key in its position and gives it the new value, or appends a new key at the end; every other key keeps its value, and keys stay unique |
| PhpArray.MergeContents | Zenity.php:196 | `array_merge($a, $b)` keeps the keys of `$a` in order, then adds the keys of `$b` that `$a` lacks in `$b`'s order; a shared key takes `$b`'s value; the other keys of `$a` keep their values; nothing else appears |
| PhpText.TruncateToInt | Zenity.php:237 | the `(int)` cast of the percentage truncates toward zero: the result lies within one below a non-negative input and within one above a negative one |
| PhpText.IntToStringRoundTrip | Zenity.php:237 | the decimal text written for the integer percentage reads back as that same integer |
| PhpText.Ucfirst | Zenity.php:161 | `ucfirst` keeps the length and every character after the first; a lower-case ASCII first letter becomes its upper-case letter and any other first character is kept, as the C-locale `ucfirst` does |
| PhpText.Explode | Zenity.php:138 | `explode('|', $result)` gives at least one piece, no piece contains `|`, and joining the pieces with `|` gives the answer back |
| PhpText.ExplodeImplode | Zenity.php:138 | splitting a `|`-joined list of paths that contain no `|` gives back exactly that list |
| Command.FlagShape | Zenity.php:266-269 | an option becomes ` --name`; a null value leaves it a bare flag, and only then; any other value adds `=` and the escaped value |
| Command.FlagsAt | Zenity.php:265-270 | the `i`-th option contributes exactly its own flag, after the flags of the earlier options and before those of the later ones |
| Command.FlagsAppend | Zenity.php:265-270 | serialising two arrays one after the other gives the serialisation of their concatenation |
| Command.CommandLineLayout | Zenity.php:263-271 | the line as built before `escapeshellcmd` is applied is the executable path, then the flags, then one space, then the appended text |
| Command.RedirectIffReturn | Zenity.php:272-275 | for any escape, ` 2>&1` is added after the escape when a return value is requested, so it is never escaped; with an escape that backslashes `>`, the command ends in ` 2>&1` exactly when a return value is requested |
| Command.ListColumnAt | Zenity.php:150-162 | the `j`-th key of row 0 becomes the `j`-th ` --column=` option, with its first letter upper-cased and escaped, and all column options come before the rows |
| Command.ListRowAt | Zenity.php:151-164 | row `i` becomes exactly one line, a space then its cells then a newline, in row order after the column options |
| Command.CellAt | Zenity.php:154-156 | cell `j` of a row is escaped on its own and followed by one space, in the row's order |
| Dialog.BasicDefaults | Zenity.php:190-194 | the mandatory options are exactly the action, `text` and `title`, with `text` and `title` set to the given values and the action a bare flag unless it is named `text` or `title` |
| Dialog.BasicParamsContents | Zenity.php:190-196 | after the merge the caller's keys come first in their order, followed by the mandatory keys the caller lacks in the order action, `text`, `title`; the action is present, `text` and `title` hold the given values whatever the caller passed, every other caller option keeps its value, and no other option is added |
| Dialog.ProgressDefaultsKeys | Zenity.php:214-219 | the progress options are `progress`, `percentage`, `auto-close` and `auto-kill`, in that order and distinct |
| Dialog.ProgressParamsContents | Zenity.php:214-221 | the progress bar always gets bare `progress`, `auto-close` and `auto-kill` flags and `percentage` 0, overriding the caller, keeps every other caller option with its value and position, and appends the progress options the caller lacks after the caller's keys in the order `progress`, `percentage`, `auto-close`, `auto-kill` |
| Dialog.ProgressUpdateReadsBack | Zenity.php:237-238 | one update is exactly two lines: the truncated percentage, which reads back as that integer, and `#` followed by the label |
| Dialog.WithOption | Zenity.php:132-134 | `$params[$name] = $value` under a condition: when it holds the option is present with that value (a bare flag for null) and nothing else is added; otherwise the options are unchanged; every other option keeps its value and position, and keys stay unique (also used for `filename`, `editable` and the list type) |
| Dialog.TextInfoOptionsContents | Zenity.php:84-89 | `filename` is set to the file, a bare `editable` flag is added only when editable, and every other caller option keeps its value and position, including a caller's own `editable` option when the text is not editable |
| Dialog.ListOptions | Zenity.php:165-167 | a truthy list type becomes a bare flag of that name and nothing else is added; a null, empty or `"0"` type leaves the options unchanged; other options keep their values and positions |
| Dialog.Zenity.constructor | Zenity.php:36-39 | the object stores the given executable path unchanged, with no progress pipe |
| Dialog.Zenity.AtMostOneLive | Zenity.php:209-225 | for a valid object, any two open pipes it has spawned are the same pipe |
| Dialog.Zenity.BuildCommandFromParams | Zenity.php:261-277 | the loop builds the path plus every option's flag in array order, adds a space and the appended text, escapes the whole line, then adds ` 2>&1` when `ret` is set |
| Dialog.Zenity.ExecuteBasic | Zenity.php:188-200 | runs the command built from the merge of the caller's options with the action, `text` and `title` |
| Dialog.Zenity.ShowError | Zenity.php:50-53 | an `error` dialog with title `Error` by default, whose output is not captured |
| Dialog.Zenity.ShowInfo | Zenity.php:64-67 | an `info` dialog with title `Info` by default, whose output is not captured |
| Dialog.Zenity.ShowTextInfo | Zenity.php:82-91 | a `text-info` dialog with an empty `text`, the file in `filename`, and output captured only when editable |
| Dialog.Zenity.GetEntry | Zenity.php:102-105 | an `entry` dialog whose output is captured |
| Dialog.Zenity.GetDate | Zenity.php:116-119 | a `calendar` dialog whose output is captured |
| Dialog.Zenity.GetFile | Zenity.php:130-141 | a `file-selection` dialog with a bare `text` flag and `multiple` when asked; the answer is split on `|` into at least one path, none containing `|`, that join back to the answer |
| Dialog.Zenity.ShowList | Zenity.php:147-173 | a `list` dialog, output captured, whose appended text is the column options of row 0's keys followed by one line per row, and whose options carry the truthy list type as a bare flag |
| Dialog.Zenity.RowValues | Zenity.php:151-158 | the row loop builds, for each row in order, a space, each cell escaped and followed by a space, and a newline |
| Dialog.Zenity.ColumnOptions | Zenity.php:160-162 | the column loop builds one ` --column=` option per name, in order, with the name upper-cased first and escaped |
| Dialog.Zenity.ShowProgress | Zenity.php:209-225 | the pipe held before is closed first; a started process gets a fresh open pipe running the progress command with nothing written yet; at most one spawned pipe stays open |
| Dialog.Zenity.Popen | Zenity.php:224 | once every earlier pipe is closed, a started process gives a fresh open pipe running the command with nothing written yet, and a failed start leaves no pipe |
| Dialog.Zenity.UpdateProgress | Zenity.php:235-239 | an open pipe receives exactly the two update lines after what it already had; a closed pipe receives nothing |
| Dialog.Zenity.CloseProgress | Zenity.php:246-249 | the held pipe ends up closed with its written lines kept, and at most one spawned pipe stays open |

## Left out

- Running processes: `exec`, `popen`, `fwrite` and `pclose` are not executed. The dialog methods return the command that would be run. What `exec` returns is a parameter of `GetFile`, and whether `popen` succeeded is a parameter of `ShowProgress`. The answer that `exec` would return from `executeBasic` to the other dialog methods is not modelled.
- `print $cmd` in `executeBasic` (Zenity.php:198) is console output and is not modelled.
- What `escapeshellarg` and `escapeshellcmd` do is not modelled. Every property holds for any pair of escaping functions, so the model makes no claim that the command is safe from shell injection.
- Command.RedirectIffReturn: the "only when a return value is requested" direction is proved only for an escape that puts a backslash before every `>`, as `escapeshellcmd` does; the "when" direction holds for any escape.
- `exec` returns only the last line of the output, with trailing whitespace removed. The model takes that returned text as given.
- Integer keys: `array_merge` renumbers integer keys, and PHP stores numeric-string keys such as `"5"` as integers, so a caller option with such a key would be renumbered by the merge. Keys are strings in the model and are never renumbered.
- Strings are sequences of characters, not PHP byte strings. `Ucfirst` is `ucfirst` in the C locale; in a single-byte locale PHP 5 can also upper-case a non-ASCII first byte.
- Values that are not strings (numbers, booleans) in options or list cells are taken as their string form. The progress default `percentage => 0` is the string `"0"`.
- The percentage is a real number, so the `(int)` cast of NaN, infinities and out-of-range floats is not modelled.
- `showList` data: the model takes `data` as a list indexed 0, 1, ..., so row 0 is also the first row. PHP reads the column names from the row stored under key 0 (Zenity.php:150), which need not be the first row the `foreach` visits, and data without key 0 (an empty array, or one returned by `array_filter`) gets no column options, after a warning, while its rows are still emitted. Data whose keys are not 0, 1, ... in order is not modelled. With no data the model gives the same command as PHP, without the warning.
- Warnings from `fwrite` and `pclose` on a failed or closed pipe: the model writes nothing and closes nothing.
- `closeProgress` does not clear the handle field, so the class keeps a closed pipe and a later `showProgress` closes it again. The model keeps this behaviour; the pipe simply stays closed.
- The example scripts that use the class are not part of this model.
