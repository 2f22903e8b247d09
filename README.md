# chadGPT core, modelled in Dafny

chadGPT is an LLM-driven trading assistant. The logic that actually exists in
its source falls into three small parts. This project models those three parts
and proves what they promise.

* **Prompt builder** (`chadGPT/brain.py`, module `Brain` in `brain.dfy`).
  - `apply_delimiter` wraps a block of text in one of two styles: `<html>` or `caps:`.
  - `format_data_model` renders a context value as text. The value is a str,
    a pydantic model, or a (nested) list of them.
  - `ask` builds one query string, in order, from:
    - the background block;
    - the context block;
    - the prompt block;
    - optionally, a schema instruction followed by the JSON schema.
  - `ask` then sends the query to the backend once and returns the raw answer,
    or the answer parsed into the expected model.
  - The backend is a class `LLM` whose answer is a fixed function of the
    query. It keeps a log of every query it was sent. That log is how "sent
    exactly once, with the full query" is stated.
  - The pydantic and JSON calls are fields of the values they are made on:
    the class name and `model_dump_json` of a model, `model_json_schema` of a
    format, and the `json.loads` plus constructor that reads an answer.
* **Task chaining** (`chadGPT/scheduler.py`, module `Scheduler` in `scheduler.dfy`).
  - A task is a function value and its own arguments.
  - `run_task` calls the function with the task's arguments followed by the
    previous task's output.
  - `Scheduler.run` is a loop that threads the output through the job's
    tasks. It is proved equal to a left fold.
  - A function returning `None` is represented by `Option`.
* **Secrets loading** (`chadGPT/environment_setup.py`, module `Environment` in `environment.dfy`).
  - The secrets file is given as two things: whether it exists, and its lines.
  - The process environment is a class holding a `map<string, string>`.
  - The loop over the lines updates that map in place:
    - it skips blank lines;
    - it cuts every other stripped line at its first `=`;
    - it raises on a line without `=`.
  - The module's top level then checks readiness, which is whether
    `OPENAI_API_KEY` is set.
  - The loop is proved against `Load`, a function of the old environment and
    the lines.
  - The lemmas about `Load` are stated over `Apply`, which takes the lines
    already classified as blank, assignment or malformed.

Two further modules hold what the three parts share:

* `wrappers.dfy` (`Wrappers`): `Option`, plus `Result` and `Outcome` for a
  call that returns or raises.
* `builtins.dfy` (`Builtins`): the Python built-ins the core relies on, and
  what their properties are proved with.
  - The exception classes the core raises.
  - `str.strip`, using the full `str.isspace` character set.
  - `str.upper`, for ASCII letters.
  - `str.split(sep, 1)` for a one-character separator, built on a
    one-character `str.find`.
  - `sep.join`.
  - `str.split(sep)`, which the core does not call. It is here as the
    inverse of `sep.join`, to show that a rendered list can be read back.

Three facts about the query format, as the code builds it:

* The schema part of the query is not a delimited block. It is an
  instruction line followed by the schema, appended directly after the
  prompt block.
* The prompt block is `"\n<prompt> " + prompt + " </prompt>\n"`. It does
  not use the block style of the background and context sections.
* A background of `None` is not left out. The f-string renders it as the
  literal text `None` inside the background block.

## Model

| member | source | states |
|---|---|---|
| `Builtins.StripMeaning` | chadGPT/environment_setup.py:14 | `strip()` removes only leading and trailing whitespace: the line is whitespace, then the result, then whitespace; the result is empty exactly when the line is all whitespace, and otherwise starts and ends with a non-space character |
| `Builtins.Upper` | chadGPT/brain.py:24 | `upper()` keeps the length, leaves no lower-case ASCII letter, shifts each `a`..`z` to its capital and keeps every other character |
| `Builtins.SplitOnce` | chadGPT/environment_setup.py:15 | `split('=', 1)` gives one part when there is no `=`; otherwise the text before the first `=` (which holds no `=`) and everything after it |
| `Builtins.SplitJoin` | chadGPT/brain.py:31 | splitting a `",\n"`-join at `",\n"` gives back the parts, provided there is at least one part and none holds the separator |
| `Brain.ApplyDelimiter` | chadGPT/brain.py:17-26 | succeeds exactly for `<html>` and `caps:`; any other style raises `ValueError("invalid delimiter_type: " + style)` and builds nothing |
| `Brain.HtmlRoundTrip` | chadGPT/brain.py:21-22 | an `<html>` block is `"\n<name>\n"`, the text and `"\n</name>\n"`, and unwraps to exactly the text it wraps |
| `Brain.CapsRoundTrip` | chadGPT/brain.py:23-24 | a `caps:` block is `"<" + NAME + ":\n"`, the text and a final newline (no closing tag), and unwraps to exactly the text it wraps |
| `Brain.FormatDataModel` | chadGPT/brain.py:28-44 | corrected rendering: a str comes back verbatim; a model becomes its class name, `": "` and its JSON; a list is wrapped in `"{\n"`…`"\n}"`; raises `TypeError` exactly when some value, at any depth, is not a str, model or list |
| `Brain.FormatEach` | chadGPT/brain.py:31 | the list comprehension renders every element, in order, each as `format_data_model` renders it; it fails with `TypeError` exactly when some element is not renderable |
| `Brain.ListRendering` | chadGPT/brain.py:29-32 | a rendered list is exactly `"{\n"`, its elements' renderings in order joined by `",\n"`, and `"\n}"` |
| `Brain.ListRenderingSplitsBack` | chadGPT/brain.py:29-32 | for a list of at least one element whose renderings hold no `",\n"`, the text between the braces splits at `",\n"` back into the elements' own renderings |
| `Brain.FormatDataModelAsWritten` | chadGPT/brain.py:28-44 | as written, a call returns without raising exactly for a str and for an empty list, and then returns `None`; a model raises `AttributeError` at `model.__name__` |
| `Brain.FormatEachAsWritten` | chadGPT/brain.py:31 | as written, the comprehension raises unless every element's call returns, and then it is a list of `None`s, one per element, which the join cannot take |
| `Brain.AsWrittenNeverReturnsText` | chadGPT/brain.py:28-44 | as written, `format_data_model` never returns the text the corrected rendering gives, and it raises on every non-empty list |
| `Brain.ContextText` | chadGPT/brain.py:54-65 | a str context is used verbatim, without `format_data_model`; any other context is rendered by it |
| `Brain.SchemaBlock` | chadGPT/brain.py:69-72 | the schema part is empty exactly when there is no expected format, and otherwise is the instruction line followed by the schema text |
| `Brain.PromptBlock` | chadGPT/brain.py:67 | the prompt line holds the prompt verbatim between `"\n<prompt> "` and `" </prompt>\n"` |
| `Brain.Query` | chadGPT/brain.py:46-72 | with the corrected `format_data_model` (see Findings): the query is the background block, the context block, the prompt block and the schema part, in that order; it fails with the `TypeError` of `format_data_model` exactly when the context is neither a str nor renderable |
| `Brain.QueryReadsBack` | chadGPT/brain.py:48-67 | the query's background and context blocks unwrap back to the background (the literal `None` when there is none) and the context text, and the prompt sits verbatim between `"\n<prompt> "` and `" </prompt>\n"` |
| `Brain.LLM.SubmitQuery` | chadGPT/brain.py:74 | the query is appended to the backend's log and the answer is the backend's answer to it |
| `Brain.LLM.Ask` | chadGPT/brain.py:46-84 | with the corrected `format_data_model` (see Findings): when the context cannot be rendered, the `TypeError` is raised and nothing is sent; otherwise exactly the full query is sent, exactly once; without an expected format the raw answer is returned unchanged, and with one the parsed instance is returned or the parse error is raised |
| `Scheduler.TaskArgs` | chadGPT/scheduler.py:16-21 | with no previous output the function gets exactly the task's arguments; with one, the task's arguments followed by the previous output's elements, in order |
| `Scheduler.RunTask` | chadGPT/scheduler.py:16-25 | `run_task` returns the function's result unchanged, called with the task's arguments alone when there is no previous output, and with the previous output's elements appended otherwise |
| `Scheduler.EmptyOutputAddsNothing` | chadGPT/scheduler.py:18-25 | an empty previous output gives the same arguments, and the same result, as no previous output |
| `Scheduler.OutputsAreThreaded` | chadGPT/scheduler.py:23-32 | before any task there is no output, the first task gets only its own arguments, and task i gets its own arguments followed by task i-1's output |
| `Scheduler.RunSplits` | chadGPT/scheduler.py:29-30 | running a job split in two is running the second part from the first part's output |
| `Scheduler.Scheduler.Run` | chadGPT/scheduler.py:27-32 | `run` returns the left fold of `run_task` over the job's tasks starting from no output, and `None` for a job with no tasks |
| `Environment.ParseLineCases` | chadGPT/environment_setup.py:14-15 | how `ParseLine` reads a line: it is skipped exactly when it is all whitespace; it raises exactly when its stripped text holds no `=`; otherwise the stripped text is key, `=` and value, and the key holds no `=` |
| `Environment.AssignmentIsUnique` | chadGPT/environment_setup.py:15 | the key is the text before the first `=` and the value is all of the rest, `=` and inner spaces included |
| `Environment.Apply` | chadGPT/environment_setup.py:12-16 | the loop ends without raising exactly when no line is malformed; if it raises, it is at a malformed line |
| `Environment.Load` | chadGPT/environment_setup.py:12-16 | the same, for the lines of the file as text |
| `Environment.StopsAtFirstMalformed` | chadGPT/environment_setup.py:13-16 | the line that raises is the first malformed one, and the environment is left as the lines before it made it |
| `Environment.LastWriteWins` | chadGPT/environment_setup.py:12-16 | when no line raises, each key ends with the value of its last assignment in the file, and a key the file does not assign keeps its old value or stays absent |
| `Environment.BlankLineChangesNothing` | chadGPT/environment_setup.py:13-14 | a skipped line anywhere changes neither the resulting environment nor whether the loop raises |
| `Environment.WhitespaceLineIsSkipped` | chadGPT/environment_setup.py:13-14 | the same, for a line of whitespace in the file |
| `Environment.FailureIsFinal` | chadGPT/environment_setup.py:13-15 | once a line has raised, the lines after it change nothing |
| `Environment.Environ.Set` | chadGPT/environment_setup.py:16 | assigning `os.environ[key]` overwrites that one key and changes no other |
| `Environment.ReadSecretsIntoEnvironment` | chadGPT/environment_setup.py:7-21 | a missing file changes nothing; otherwise the environment ends as `Load` says, and `ValueError` is raised exactly when some line is malformed |
| `Environment.IsEnvironmentReady` | chadGPT/environment_setup.py:24 | the environment is ready exactly when `OPENAI_API_KEY` is set in it |
| `Environment.SetUpEnvironment` | chadGPT/environment_setup.py:23-24 | the secrets are loaded first: a missing file leaves the environment as it was, otherwise it ends as `Load` says; when loading does not raise, the environment is ready exactly when `OPENAI_API_KEY` was already set or the existing file assigns it |

## Left out

- The portfolio rebalancer (`make_trades_from_portfolio` in chadGPT/trader.py) is left out: its body is `pass`. The broker and market-research interfaces are abstract and have no logic either.
- chadGPT/giga.py is left out: it only builds a request and calls `ask`.
- chadGPT/db.py is left out: it is persistence through a foreign SQL library.
- `ConsoleLLM.submit_query` is left out: it is clipboard and console I/O. Any backend is a fixed function from query to answer, so retries and non-determinism are not modelled.
- The pydantic and JSON machinery is not modelled:
  - `model_dump_json`, the model's class name (`type(model).__name__`) and `model_json_schema` are fields holding their text;
  - `json.loads` and the model constructor are one given parse function that succeeds or raises;
  - the `isinstance` assertion after construction is taken to hold.
- The data model declarations (chadGPT/data_models.py and app/data_models.py) are mirrored only as far as the core uses them: `LLMRequest`, `Task` and `Job`.
- `Scheduler.schedule` is left out: it is an abstract trigger driven by an external cron.
- A task function that raises, or that returns something other than a tuple or `None`, is not modelled.
- File I/O and logging in environment_setup.py are not modelled. The file is given as an existence flag and its lines; the path computation, `open` and the log messages are left out.
- Builtins.Upper: Python's `upper()` also maps non-ASCII letters (and `ß` to `SS`); the model maps `a`..`z` only.
- Environment.Environ.Set: the operating system's restrictions on environment names and values (no `=` in a key, no NUL) are not modelled, so a key such as the empty string is accepted.
- Context values of any type other than str, model or list are one case, `Unsupported`, named by their type (`None` is `Unsupported("NoneType")`); the message names the type as `<class '...'>`.
- ListRenderingSplitsBack: the rendering of a list cannot be split back when some element's rendering holds `",\n"`, because the join then leaves the boundaries ambiguous. This happens to every nested list of two or more elements. For such lists, ListRendering states the exact text instead.
- Brain.Query and Brain.LLM.Ask use the corrected `format_data_model`. As written, every non-empty list context raises before anything is sent: a `TypeError` at the join, or an `AttributeError` for a model. An empty list sends the text `None` in the context block. FormatDataModelAsWritten states this.
- tests/test_pipeline.py is not part of this model: it exercises an interface that does not exist in the source.

## Findings

| source | as written | input that shows it | evidently intended | confidence | as-written member | corrected member |
|---|---|---|---|---|---|---|
| chadGPT/brain.py:28-44 | `format_data_model` builds `query` in every branch but has no `return query`, so a call that does not raise returns `None`; in the list branch `",\n".join` then meets `None`s and raises `TypeError`, and `ask` puts the text `None` in the context block for an empty list | a context of one str inside a list, `["a"]` (join raises); an empty list `[]` (context block reads `None`) | return the rendered `query` | not executed | `Brain.FormatDataModelAsWritten` | `Brain.FormatDataModel` |
| chadGPT/brain.py:33-36 | the model branch reads `model.__name__` on an instance; a pydantic instance has no `__name__` (only its class does), so a model context raises `AttributeError` | a context holding one model instance | the class name, `type(model).__name__` | not executed | `Brain.FormatDataModelAsWritten` | `Brain.FormatDataModel` |
