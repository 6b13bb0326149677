# Nagios command-line client helpers, modelled in Dafny

The Nagios command-line client (`ncli`) talks to the Nagios JSON HTTP API. Its helper
module `ncli_utils/utils.py` holds the text and bookkeeping code the rest of the client
leans on, and that module is what this project models and proves things about:

- `time_to_seconds` reads a duration such as `"2h"` or `"50m"` into seconds (module
  `Duration`);
- `trim` is the PEP 257 docstring-dedent algorithm, used to clean up usage text before
  it goes to the option parser (module `Docstring`, an imperative method with loops,
  specified by functions over lines);
- `status_to_s` turns a Nagios state code into the label the client prints (module
  `Status`);
- `Host.attach_service` files a service in the host's `services` dictionary (class
  `Monitor.Host`);
- `Service.pp` prints one fixed-width, tab-separated line per service (function
  `Monitor.PpLine` and its columns `Monitor.Columns`).

The Python 2 string built-ins these helpers call (`lstrip`, `rstrip`, `strip`,
`expandtabs`, `splitlines`, `join`, `ljust`, slicing) are modelled in module `PyStr`,
with the Python 2 `str` semantics: whitespace is space, tab, newline, carriage return,
vertical tab and form feed; `expandtabs` uses tab stops every eight columns and
restarts the column after `\n` and `\r`; `splitlines` breaks at `\n`, `\r` and `\r\n`
and does not open an empty line after a final break. `PyStr.SplitOn` stands for
`split('\t')`, which the helpers never call; it serves only as the inverse through which
the tab-separated listing line of `Service.pp` is read back into its columns.

Modelling choices:

- `time_to_seconds` uses `re.match(r'^(\d+)([wdhms])?$', inp)`. The regular expression
  is replaced by an explicit check: one or more ASCII digits (what `\d` matches on a
  Python 2 `str`), then at most one of `w d h m s`. Python's `$` also matches just before
  a final newline, so `"50m\n"` is accepted as `"50m"`; the model states this explicitly
  (`Duration.Matches`).
- The module imports `sys` but not `re` (`ncli_utils/utils.py:3`), so as written every call
  of `time_to_seconds` raises `NameError`. The model follows the evident intent and
  records the defect under Findings.
- `trim`'s `sys.maxint` sentinel becomes an `Option<nat>`: `None` means that no line
  after the first has text.
- `status_to_s` raises `KeyError` for an unknown code; the model returns `None`.
- `Service` never sets a `service` attribute, so `attach_service` would look up a
  missing attribute; the model takes the dictionary key as an explicit argument.
- Services are values (a datatype); the host's `services` map is a field that
  `AttachService` reassigns.

## Model

| member | source | states |
|---|---|---|
| `Duration.TimeToSeconds` | ncli_utils/utils.py:10-12 | the result is `None` exactly when the input is not one or more ASCII digits followed by at most one unit letter (optionally followed by one final newline): empty, signed, spaced or multi-letter inputs all give `None`; a result is never negative |
| `Duration.TimeToSecondsOfDigits` | ncli_utils/utils.py:13-15 | a bare number is read as its decimal value in seconds, and appending `s` or a final newline gives the same result |
| `Duration.TimeToSecondsOfUnit` | ncli_utils/utils.py:10-17 | a number followed by a unit letter is its decimal value times 604800, 86400, 3600, 60 or 1 for `w`, `d`, `h`, `m`, `s`, and the same input with a final newline gives the same value |
| `Duration.TimeToSecondsOfDecimal` | ncli_utils/utils.py:6-17 | every natural number written in decimal, with or without a unit letter, reads back as that number of units in seconds |
| `Duration.TimeToSecondsAsWritten` | ncli_utils/utils.py:3-10 | as written, every call fails with `NameError` for `re` |
| `Duration.MissingImportFailsOnExample` | ncli_utils/utils.py:7-10 | on the documented example `"2h"` the written code fails while the intended function gives 7200 |
| `Status.StatusLabel` | ncli_utils/utils.py:52-54 | codes `"0"`, `"1"`, `"2"`, `"3"` map to `OK`, `WARN`, `CRIT`, `UNK`; every other code is the `KeyError` case (`None`) |
| `Status.StatusLabelRoundTrip` | ncli_utils/utils.py:53 | the labels tell the codes apart: a label maps back to the code it came from |
| `Status.StatusCodeRoundTrip` | ncli_utils/utils.py:53 | each of the four labels is the label of exactly the code it stands for |
| `PyStr.LeadingSpaceIsMaximal` | ncli_utils/utils.py:35-37 | `len(line) - len(line.lstrip())` is the whole leading whitespace run: everything before it is whitespace, the next character is not, and it is the whole line just when the line is blank |
| `PyStr.TrailingSpaceIsMaximal` | ncli_utils/utils.py:42 | the width `rstrip` removes is the whole trailing whitespace run |
| `PyStr.LStripSpec` | ncli_utils/utils.py:35-36 | `lstrip` keeps a suffix that is empty exactly when the line is blank and otherwise starts with a non-space |
| `PyStr.RStripSpec` | ncli_utils/utils.py:42 | `rstrip` keeps a prefix, drops only whitespace, is empty exactly for blank text and otherwise ends in a non-space |
| `PyStr.StripSpec` | ncli_utils/utils.py:39 | `strip` keeps the middle of the line, empty exactly for blank text, otherwise neither starting nor ending with whitespace |
| `PyStr.ExpandTabsFrom` | ncli_utils/utils.py:31 | `expandtabs` leaves no tab, keeps empty and non-empty text apart, and leaves text without tabs unchanged |
| `PyStr.SplitLinesParts` | ncli_utils/utils.py:31 | `splitlines` yields lines without line breaks, and without tabs when the text has none |
| `PyStr.SplitLinesOfJoin` | ncli_utils/utils.py:49 | `splitlines` undoes `'\n'.join` of break-free lines whose last line is not empty |
| `PyStr.SplitOfJoin` | ncli_utils/utils.py:95 | `split('\t')` undoes `'\t'.join` of tab-free parts |
| `PyStr.LJust` | ncli_utils/utils.py:96-98 | `ljust(w)` keeps the text, pads it with spaces to width `w` and never truncates |
| `Docstring.MinIndentIsMinimum` | ncli_utils/utils.py:32-37 | the computed indentation is `None` exactly when every later line is blank, otherwise no non-blank later line is indented less and some non-blank later line is indented exactly that much |
| `Docstring.Trim` | ncli_utils/utils.py:19-49 | the loops compute exactly the trimmed text: tabs expanded, lines split, common indentation of the later lines removed, first line stripped, later lines right-stripped, blank lines popped from the end and then from the front, lines joined with newlines; an empty docstring gives `''` |
| `Docstring.DedentLine` | ncli_utils/utils.py:38-42 | each later line loses exactly the common indentation: a non-blank line loses only whitespace and keeps its text, right-stripped and non-empty; a blank line becomes empty |
| `Docstring.DedentIsTight` | ncli_utils/utils.py:32-42 | no more than the common indentation is removed: some non-blank later line starts with a non-space once dedented |
| `Docstring.DedentWithoutLaterText` | ncli_utils/utils.py:39-42 | when no later line has text, only the stripped first line remains |
| `Docstring.DropTrailingEmptySpec` | ncli_utils/utils.py:44-45 | popping from the end removes only empty lines and leaves a list that is empty or ends in a non-empty line |
| `Docstring.DropLeadingEmptySpec` | ncli_utils/utils.py:46-47 | popping from the front removes only empty lines and leaves a list that is empty or starts with a non-empty line |
| `Docstring.TrimmedLinesClean` | ncli_utils/utils.py:29-47 | no output line holds a tab or a line break or ends in whitespace, and the first and the last output lines are not blank |
| `Docstring.TrimmedSplitsBack` | ncli_utils/utils.py:48-49 | splitting the returned text into lines gives back exactly those lines, so the text never begins or ends with a blank line |
| `Docstring.TrimmedEdges` | ncli_utils/utils.py:27-28 | an empty docstring gives `''`; any other non-empty result ends in a non-space and does not begin with a line break |
| `Monitor.Columns` | ncli_utils/utils.py:95-102 | the host column is the host padded to at least 25 characters and never truncated; the name and plugin-output columns are exactly 35 characters, truncated then padded with spaces; the state column is the state label; `ACK` appears exactly when `problem_has_been_acknowledged == "1"` (else a space); `MUTED` appears exactly when `notifications_enabled != "1"` (else a space) |
| `Monitor.PpLineColumns` | ncli_utils/utils.py:95 | the printed line is the six columns separated by tabs: when the texts hold no tab, splitting it at tabs gives back exactly the columns |
| `Monitor.Host.constructor` | ncli_utils/utils.py:80-82 | a new host has no services |
| `Monitor.Host.AttachService` | ncli_utils/utils.py:83-85 | afterwards the key maps to the service, the other entries are unchanged and no other key appears |

## Left out

- The `print` in `Service.pp` (ncli_utils/utils.py:95): I/O; the model returns the line instead.
- The `.decode('utf-8')` calls (ncli_utils/utils.py:64, 90): an encoding concern; the model works on already-decoded text.
- The `HostOrService` and `Service` constructors and `Service.attach_host`: they only copy fields out of the API's JSON dictionary (apart from the `status_to_s` call, modelled on its own) or set one field; `Service` is a value here.
- The aliasing of Python objects: a `Service` stored in `Host.services` is a value in the model, so later changes to the same Python object are not reflected.
- `trim(None)`: a function without a docstring passes `None`, which `trim` also turns into `''`; the model's input is always a string.
- Unicode `str` methods: `splitlines` and whitespace are modelled for Python 2 byte strings, not for `unicode` values (which also break at `\v`, `\f`, `\x1c`-`\x1e`, `\x85` and the Unicode separators).
- The HTTP API client, the status-file cache with its expiry, and option parsing and dispatch: their source is not part of this model, and they are network and file I/O.

## Findings

| source | as written | input that shows it | evidently intended | confidence | as-written member | corrected member |
|---|---|---|---|---|---|---|
| ncli_utils/utils.py:3-10 | `re.match` is called but the module imports only `sys` | `time_to_seconds("2h")` raises `NameError` | `import re`, so that `"2h"` gives 7200 | high, not executed | `Duration.TimeToSecondsAsWritten` (shown by `Duration.MissingImportFailsOnExample`) | `Duration.TimeToSeconds` |
