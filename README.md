# OpenCog python-client: snapshots, CSV export and command strings

This project models the logic that the OpenCog python-client owns. The client drives
a separately running CogServer. Nearly everything in it is an HTTP request, process
start-up or configuration. The parts that compute something are modelled here:

- **Snapshots.** `create_point` turns the atom list the REST interface returns into a
  PointInTime record `{timestep, atoms, scheme}`. Each atom is projected to
  `{handle, sti}`, in input order. `atomspace` indexes the same kind of list by handle.
- **CSV export.** `export_timeseries_csv` writes one row per (point, atom) pair. A
  row is `timestep, handle, sti`. A fourth column, the point's Scheme dump, is added
  only when the `scheme` flag is `True` and that point has a dump.
- **Command strings.** These are the `command` payload of shell and Scheme requests,
  `loadpy`, `agents-start`, `agents-step`, the `PyMindAgent` step,
  `(load-scm-from-file ...)`, `(cog-set-af-boundary! ...)`, and the
  `CONFIG-StimulusAmount`, `CONFIG-Rent` and `CONFIG-Wages` parameter settings.
- **RelEx trimming.** With `concise`, `relex` keeps the text after the first
  `Parse 1 of 1`, cuts it at the last `======`, and strips whitespace.

Modules:

- `Records` (records.dfy): the atom record from the REST interface, the `{handle, sti}`
  pair, and the PointInTime record. Handles, STI values and timesteps are `int`. The
  Scheme dump is `Option<string>`, where `None` is Python's `None`.
- `Snapshot` (snapshot.dfy): `CreatePoint` and `Atomspace`. Both are loops proved
  against the functions `Projected` and `HandleIndex`.
- `CsvExport` (csv_export.dfy): `ExportTimeseriesCsv` is the nested loop, proved
  against `CsvRows`. The lemmas give the row count, the row order and the row shape.
- `Text` (text.dfy): the Python 2 string operations the other modules use. These are
  prefix and suffix tests, `find`/`rfind` (used by `split` and `rpartition`), `strip`,
  and `str()` of an integer.
- `Commands` (commands.dfy): each command builder, with a parser that reads its
  arguments back. Each builder's contract says that parsing its command gives back its
  arguments. Beside it, a soundness lemma says that any command the parser accepts is
  exactly the builder's output for the parsed arguments.
- `Relex` (relex.dfy): the three trimming steps and a characterisation of their result.

Two behaviours of the code that the model keeps:

- `create_point` (opencog.py:47-48) reads `atom['handle']` and
  `atom['attentionvalue']['sti']` with no check, so a record that lacks either key
  raises Python's `KeyError`. In the model, a record's fields are part of its type and
  always exist. So there is no error path.
- `export_timeseries_csv` (opencog.py:234) tests `scheme is True`, which is an identity
  test, so a truthy non-boolean such as `1` adds no column. The flag is a `bool` in the
  model.

## Model

| member | source | states |
|---|---|---|
| `Snapshot.CreatePoint` | opencog.py:28-58 | The snapshot has the caller's timestep and Scheme dump unchanged (`None` when omitted). Its atom list has the input's length, and entry i is `{handle: atoms[i].handle, sti: atoms[i].attentionvalue.sti}`. |
| `Snapshot.ProjectedAt` | opencog.py:43-50 | Entry i of the projected list is the projection of input record i, and the lengths are equal. |
| `Snapshot.ProjectedAppend` | opencog.py:45-50 | Projection works record by record. Projecting `xs + ys` gives the projection of `xs` followed by that of `ys`, so nothing is filtered, merged or reordered. |
| `Snapshot.ProjectedKeepsHandles` | opencog.py:43-50 | The snapshot's handles are the input's handles in input order, duplicates included. |
| `Snapshot.HandleIndexKeys` | opencog.py:207-211 | A handle is a key of the `atomspace` dictionary exactly when some record in the list carries it. |
| `Snapshot.HandleIndexLastWins` | opencog.py:207-211 | The value stored under a handle is the last record in the list with that handle. A later duplicate overwrites an earlier one. |
| `Snapshot.HandleIndexSizeDistinct` | opencog.py:207-211 | When all handles are distinct, nothing is overwritten and the dictionary has one entry per record. |
| `Snapshot.Atomspace` | opencog.py:198-211 | The loop builds the dictionary `HandleIndex` describes: its keys are the input handles, and each key maps to the last record with that handle. |
| `CsvExport.RowFor` | opencog.py:234-242 | A row begins with `timestep, handle, sti`. It has 4 fields, the 4th being the point's Scheme dump, exactly when the flag is set and the point's `scheme` is not `None`. Otherwise it has 3 fields. |
| `CsvExport.AtomRowsAt` | opencog.py:233-242 | For one point, row j is the row for the point's atom j, and there is one row per atom. |
| `CsvExport.CsvRowCount` | opencog.py:232-242 | The export writes exactly one row for each (point, atom) pair, so the row count is the sum of the points' atom counts. |
| `CsvExport.CsvRowAt` | opencog.py:232-242 | The row order is point order, then atom order. The row for atom j of point i is at position (atoms of points before i) + j. |
| `CsvExport.CsvRowOrigin` | opencog.py:232-242 | Every row written is the row of some (point, atom) pair of the series, so it has the shape `RowFor` states. |
| `CsvExport.NoSchemeColumnWithoutFlag` | opencog.py:234-242 | With the flag off, every row has exactly three fields, so no Scheme text is written. |
| `CsvExport.CsvRowsEmpty` | opencog.py:232-233 | The export writes no rows exactly when every point has an empty atom list. An empty series is one such case. |
| `CsvExport.MixedWidthExample` | opencog.py:234-242 | In one export, a point without a dump gives 3-field rows and a point with a dump gives 4-field rows. |
| `CsvExport.ExportTimeseriesCsv` | opencog.py:214-242 | The nested loop writes exactly the rows `CsvRows` describes, one per (point, atom) pair. |
| `Text.FindFrom` | opencog.py:388 | The result is the first occurrence of the pattern at or after index k, or None when there is none. |
| `Text.Find` | opencog.py:388 | `find`: the result is the first occurrence of the pattern, and None exactly when the pattern does not occur. |
| `Text.RFindFrom` | opencog.py:389 | The result is the last occurrence of the pattern at or before index k, or None when there is none. |
| `Text.RFind` | opencog.py:389 | `rfind`: the result is the last occurrence of the pattern, and None exactly when the pattern does not occur. |
| `Text.TrimStart` | opencog.py:390 | The result is a suffix of the input that does not start with whitespace, and everything dropped is whitespace. |
| `Text.TrimEnd` | opencog.py:390 | The result is a prefix of the input that does not end with whitespace, and everything dropped is whitespace. |
| `Text.Strip` | opencog.py:390 | Neither end of `strip`'s result is whitespace. |
| `Text.StripSlice` | opencog.py:390 | `strip`'s result is a slice of the input with only whitespace on both sides of it. |
| `Text.StripOf` | opencog.py:390 | Stripping a trimmed string surrounded by any whitespace gives back that string. |
| `Text.StripIdempotent` | opencog.py:390 | Stripping twice gives the same result as stripping once. |
| `Text.NatToDecimal` | opencog.py:302 | The decimal form of a natural number is a non-empty string of digits. Its only form that starts with `0` is `"0"` itself, which is the form of 0 and of nothing else. |
| `Text.NatToDecimalValue` | opencog.py:302 | Reading the decimal digits of n gives back n. |
| `Text.IntToDecimal` | opencog.py:302 | `str(v)` of an integer, sign included, parses back to v. |
| `Text.NumeralPositive` | opencog.py:302 | A numeral whose first digit is not `0` has a value of at least 1. |
| `Text.NumeralCanonical` | opencog.py:302 | A numeral without a leading zero is the decimal form of its own value. |
| `Text.IntToDecimalSound` | opencog.py:302 | Whatever the integer reader accepts is exactly `str(v)` of the value v it reads. Leading zeros and `-0` are rejected. |
| `Commands.ShellPayload` | opencog.py:60-67 | The posted `command` value reads back as the command it carries. |
| `Commands.PayloadRoundTrip` | opencog.py:64 | A payload reads back as command c exactly when it is `c + "\n"`. |
| `Commands.AgentRefRoundTrip` | opencog.py:120 | `path.name` splits back into path and name when the name has no dot. |
| `Commands.ParseAgentRefSound` | opencog.py:120 | Anything that parses as `path.name` was built from those parts, and the parsed name has no dot. |
| `Commands.AgentRefAmbiguous` | opencog.py:120 | Without the dot-free name, two different (path, name) pairs give the same `path.name` string. |
| `Commands.LoadPythonAgent` | opencog.py:89-100 | The `loadpy` command reads back as its module path. |
| `Commands.LoadPythonAgentRoundTrip` | opencog.py:100 | A command reads back as path p exactly when it is `"loadpy " + p`. |
| `Commands.StartPythonAgent` | opencog.py:104-120 | `"agents-start " + path + "." + name` reads back as (path, name) when the name has no dot. |
| `Commands.ParseStartPythonAgentSound` | opencog.py:120 | A command that reads back as (path, name) is `"agents-start " + path + "." + name`. |
| `Commands.StepAgent` | opencog.py:124-134 | The `agents-step opencog::` command reads back as the agent name. |
| `Commands.StepAgentRoundTrip` | opencog.py:134 | A command reads back as name n exactly when it is `"agents-step opencog::" + n`. |
| `Commands.StepPythonAgent` | opencog.py:138-152 | `"agents-step opencog::PyMindAgent(" + path + "." + name + ")"` reads back as (path, name) when the name has no dot. |
| `Commands.ParseStepPythonAgentSound` | opencog.py:152 | A command that reads back as (path, name) is the PyMindAgent step command for them. |
| `Commands.StepPythonAgentIsStepAgent` | opencog.py:134-152 | Stepping a Python agent sends the same string as `step_agent` of `PyMindAgent(path.name)`. |
| `Commands.LoadScmCommand` | opencog.py:84-85 | The command `(load-scm-from-file "` + folder + f + `")` reads back as the file f. |
| `Commands.ParseLoadScmCommandSound` | opencog.py:84-85 | A command that reads back as file f is the load command for f under the same folder. |
| `Commands.LoadSchemeFiles` | opencog.py:79-86 | The loop issues one load command per file, in list order, and each command reads back as its file. |
| `Commands.SetAfBoundary` | opencog.py:295-302 | `(cog-set-af-boundary! v)` reads back as v, so distinct values give distinct commands. |
| `Commands.ParseSetAfBoundarySound` | opencog.py:295-302 | A command that reads back as v is exactly `(cog-set-af-boundary! v)`. |
| `Commands.ConfigCommand` | opencog.py:345-374 | The `EvaluationLink` command setting `CONFIG-<parameter>` reads back as the value it sets. |
| `Commands.ParseConfigCommandSound` | opencog.py:345-374 | A command that reads back as value v of a parameter is exactly the command setting that parameter to v. |
| `Commands.ConfigCommandNamesParameter` | opencog.py:345-374 | A command reads back as a value of at most one parameter whose name has no double quote, so the three setters never confuse their parameters. |
| `Commands.SetStimulusAmount` | opencog.py:345-352 | `set_stimulus_amount`'s command reads back, for `CONFIG-StimulusAmount`, as the value it sets. |
| `Commands.SetRent` | opencog.py:355-363 | `set_rent`'s command reads back, for `CONFIG-Rent`, as the value it sets. |
| `Commands.SetWages` | opencog.py:366-374 | `set_wages`'s command reads back, for `CONFIG-Wages`, as the value it sets. |
| `Relex.AfterFirst` | opencog.py:388 | `split(sep, 1)[1]`: the result is the suffix right after an occurrence of the separator, and no earlier occurrence exists. |
| `Relex.BeforeLast` | opencog.py:389 | `rpartition(sep)[0]`: the result is a prefix of the input. When the separator occurs, it occurs right after the result and nowhere later. Otherwise the result is empty. |
| `Relex.ConciseRelex` | opencog.py:387-390 | Neither end of the result is whitespace, and the result is empty when no `======` follows the first `Parse 1 of 1`. |
| `Relex.ConciseRelexOf` | opencog.py:387-390 | Take output of the form: prefix, `Parse 1 of 1`, whitespace, body, whitespace, `======`, tail. If the header does not appear earlier and the rule does not appear later, the result is exactly the body. |

## Left out

- HTTP traffic is left out, because those are calls to an external server. This covers `shell`, `scheme`, `get_attentional_focus`, `get_atomspace`, the fetch in `atomspace`, `dump_*` and `to_logic`. `create_point` and `atomspace` take the fetched list as a parameter. The builders return the command string instead of posting it.
- The fixed-argument wrappers are left out. These are `stop_agent_loop`, `clear_atomspace`, `importance_diffusion`, `importance_updating`, `hebbian_updating` and `forgetting`. Each sends a constant string, or is one call to a modelled builder.
- `set_diffusion_percent` is left out. Its value is a floating-point fraction between 0 and 1, and the formatting of floats is not modelled. Its command has the same `EvaluationLink` template as the other three parameter setters, which are modelled for integer values.
- `Commands.SetStimulusAmount`, `Commands.SetRent` and `Commands.SetWages` take `int` values, the integers their docstrings describe. Python would also format a float argument, and that case is not modelled.
- `Server` and `RelExServer` are left out: their process lifecycle depends on `multiprocessing`, `Popen`, `os.system`, `os.chdir` and `sleep`.
- `export_timeseries_mongodb` and `clear_mongodb` are left out: they are foreign pymongo calls on an external store.
- Opening the CSV file and `csv.writer`'s quoting and escaping are left out, because they are library behaviour. The file is a sink. It is opened with truncation and receives exactly the returned rows, each given as a sequence of fields, not bytes.
- `configuration.py` is left out: it holds only constants, optional imports and SSH wrappers. `OPENCOG_SOURCE_FOLDER` is a parameter of `LoadSchemeFiles`.
- The unused `Atom` class is left out.
- STI values are integers here, not floats.
- Snapshot shape checking is left out: the source does not check record shape, and the record type guarantees the fields exist.
- Monotonic timesteps are left out: the builder does not enforce them, and the caller is responsible for them.
- Running RelEx over SSH, and the `display` branch of `relex`, are left out.
- `Relex.ConciseRelex` requires that `Parse 1 of 1` occurs in the output, because the source's `split(...)[1]` raises an error when it does not.
- `Commands.LoadSchemeFiles` returns the commands handed to `scheme`, not the HTTP requests. The payload of each request is `Commands.ShellPayload` of its command.
