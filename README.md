# AppAgent model-response core in Dafny

This project models the part of AppAgent that connects the agent to the
language model. It covers the following pieces, all from `scripts/model.py`
and `scripts/temp_image_server.py`:

- **The three response decoders.** `parse_explore_rsp`, `parse_grid_rsp` and
  `parse_reflect_rsp` turn the model's free-form answer into the list the
  agent acts on, or into `["ERROR"]`.
- **The OpenAI-compatible adapter.** `OpenAIModel.get_model_response` builds
  the chat-completion request: a text block, then one base64 data URL per
  image. It classifies whatever comes back into an `(ok, text)` pair.
- **The temporary image server.** `TempImageServer` runs an HTTP server on
  localhost, meant to serve one directory. It enters that directory only
  while the server is created, and the standard handler serves the working
  directory current at each request, so URLs resolve only while the two agree. It probes up to 100 ports from its preferred one, can
  be started and stopped, and turns file paths into URLs. The process-wide
  instance sits behind `get_global_server` and `stop_global_server`.

Modules:

- `Wrappers`: `Option`.
- `Text`: the Python string operations the decoders use, each defined as
  Python computes it on strings of Unicode scalar values, with the
  exceptions listed under "Left out": `int()` reads ASCII digits only and
  has no digit limit, and its contract is weaker than its definition:
  - `str.strip` over Python's whitespace set;
  - substring search and `in`;
  - the `(.*?)$` line scan;
  - `split` and its inverse `Join`, and `s[1:-1]`;
  - `str.replace` of one character;
  - `int()` on a string and `str()` on an integer. `int()` skips less
    whitespace than `strip()` (see below).
- `ResponseFields`: the labelled-field lookups shared by the decoders, and
  the `name(args)` call syntax. Also a writer for well-formed responses,
  used to state round trips.
- `ExploreGrammar`, `GridGrammar`, `ReflectGrammar`: one per decoder. Each
  has:
  - a typed `Decode`;
  - `AsList`, the exact Python list returned;
  - the public `Parse…Rsp`;
  - a renderer and a round-trip lemma: a well-formed response decodes back
    to what was written.
- `OpenAIClient`: the request is built by a loop (`GetModelResponse`),
  proved equal to the pure `Content`/`BuildRequest`. The response is
  classified by `Classify`/`ClassifyResponse`.
- `ImageServer`:
  - the class `TempImageServer`, whose methods are proved against the pure
    transitions `StartStep` and `StopStep` and the port probe `FreePort`;
  - `Url`;
  - the singleton class `GlobalServer`.

Inputs from the outside world are parameters:

- the HTTP transport outcome (`post`) and the image encoder (`encode`);
- the set of ports that cannot be bound, and whether entering the directory,
  creating the server and starting its thread succeed (`Env`);
- the path functions `abspath`, `relpath`, `basename`, `join` and the
  separator (`PathOps`).

Behaviour of the code worth knowing, all of it modelled:

- **Labels are not line-anchored.** A label such as `Thought: ` is found at
  its first occurrence anywhere in the response, even mid-line. The value is
  the rest of that line, stripped.
- **`FINISH` is a substring test.** Any action text containing `FINISH`
  finishes, whatever call it also contains. This is not an exact match.
- **The grid decoder does not know `text`.** A `text(...)` action in grid
  mode is an unknown-action error.
- **Extra arguments are ignored.** The grid decoder reads only the first two
  (tap, long press) or four (swipe) comma-separated arguments. The explore
  `swipe` needs exactly three.
- **Some missing keys raise.** When an `error` object has no `message`, or
  the first choice has no `message`, `get_model_response` raises `KeyError`
  instead of returning a failure (`Raises(key)`).
- **Reasoning is not stripped.** The reasoning fallback accepts a non-empty
  reasoning even when it is only whitespace.
- **`int()` does not skip the information separators.** `strip()` removes
  U+001C to U+001F, but `int()` rejects them. So `tap(\x1c5)` is an error in
  exploration, where the argument goes to `int()` unstripped. In grid mode
  the argument is stripped first and reads as 5 (`Text.InfoSeparatorNotSkipped`).
- **The probe range is not checked.** Binding a port outside 0..65535 raises
  `OverflowError`, which the probe does not catch (`PortOutOfRange`).
- **The port is stored early.** `start` stores the probed port before the
  server is created. A failed creation or thread start leaves
  `running == false`, and the failed thread start leaves the server handle
  set.
- **A failed start is kept.** `get_global_server` keeps an instance whose
  start failed, and later calls return it without starting it again.

## Model

| member | source | states |
|---|---|---|
| Text.Strip | scripts/model.py:121 | the result has no surrounding whitespace, is the input when that already had none, is empty exactly when the input is all whitespace, and uses only the input's characters |
| Text.FindFirst | scripts/model.py:121 | the index of the first occurrence of the pattern, and `None` exactly when it does not occur |
| Text.Contains | scripts/model.py:135 | `x in s` holds exactly when `x` occurs in `s` |
| Text.RestOfLine | scripts/model.py:121 | the `(.*?)$` match: the text from the position up to the next newline or the end, with no newline in it |
| Text.Split | scripts/model.py:149 | at least one part, no part holds the delimiter, and joining the parts gives the input back |
| Text.SplitJoin | scripts/model.py:185 | splitting joined delimiter-free parts gives the parts back |
| Text.Inner | scripts/model.py:142 | `s[1:-1]`: the characters between the first and the last, empty for fewer than two |
| Text.Replace | scripts/temp_image_server.py:127 | same length; each separator becomes `/` and every other character is kept |
| Text.ReplaceInverse | scripts/temp_image_server.py:127 | replacing back restores the text when the replacement character did not occur in it |
| Text.IntToString | scripts/temp_image_server.py:129 | `str(n)`: digits after a minus that appears exactly for negative `n`; no leading zero, and `0` only for zero, so `-0` and `07` never appear |
| Text.NatToStringValue | scripts/temp_image_server.py:129 | the digits of `str(n)` denote `n` |
| Text.PyIntRoundTrip | scripts/model.py:139 | `int(str(n)) == n` for every integer; the model has no digit limit, so this includes integers CPython refuses to convert |
| Text.PyInt | scripts/model.py:139 | `int()` succeeds only on text that is not blank and holds no information separator |
| Text.InfoSeparatorNotSkipped | scripts/model.py:139 | `strip()` removes a leading U+001C but `int()` rejects the same text |
| ResponseFields.Field | scripts/model.py:121-126 | `None` exactly when the label does not occur; a found value is stripped and holds no newline |
| ResponseFields.ReadNarrative | scripts/model.py:121-126 | fails exactly when `Observation`, `Thought` or `Action` is missing; the fields are the first matches; a missing `Summary` becomes the placeholder |
| ResponseFields.ReadNarrativeRoundTrip | scripts/model.py:121-126 | the four narrative lines as written are read back, including the summary |
| ResponseFields.CallArgs | scripts/model.py:139 | `name\((.*?)\)`: a found argument text holds no `)` or newline and follows `name(` |
| ResponseFields.CallArgsOf | scripts/model.py:139 | the arguments of `name(args)` are read back when they hold no `)` or newline |
| ResponseFields.ActionName | scripts/model.py:137 | `act.split("(")[0].strip()`: stripped and free of `(`; text without `(` gives the whole text stripped |
| ResponseFields.ActionNameHead | scripts/model.py:137 | whatever precedes the first `(`, spaces included, gives the name once stripped |
| ResponseFields.ActionNameOf | scripts/model.py:137 | the name before the first `(` is read back |
| ResponseFields.CallOf | scripts/model.py:137-139 | a written call yields its name and its arguments |
| ResponseFields.QuoteRead | scripts/model.py:151-152 | a quoted operand, with or without a leading space, gives the operand back after strip and `[1:-1]` |
| ExploreGrammar.AreaOperand | scripts/model.py:139 | the area is the `int()` of the call's arguments when the call is found, and fails when it is not |
| ExploreGrammar.SwipeOperands | scripts/model.py:148-152 | no call or any count other than three arguments fails; with three, it fails exactly when `int()` rejects the first, and otherwise the area and the two unquoted operands are those arguments |
| ExploreGrammar.NamedAction | scripts/model.py:137-158 | by name: unknown names fail; tap and long press fail exactly when their area does not decode, and otherwise carry it; text fails exactly when there is no call, and otherwise carries the unquoted argument; swipe is `SwipeOperands`; grid always succeeds |
| ExploreGrammar.DecodeAction | scripts/model.py:135-162 | `FINISH` anywhere wins; any other result has the name the action was written with; an unknown name fails; a known name whose operands do not decode fails (tap, long press, text and swipe each exactly as their operand reader fails); `grid` needs no arguments |
| ExploreGrammar.Decode | scripts/model.py:119-162 | an error exactly when a mandatory field is missing or the action does not decode; otherwise the fields and the action read |
| ExploreGrammar.AsList | scripts/model.py:136-158 | `["ERROR"]` exactly for the error; every command list has at least five items and starts with its action's name |
| ExploreGrammar.ParseExploreRsp | scripts/model.py:119-162 | `["ERROR"]` exactly when decoding fails, always when a mandatory label is missing; the `FINISH` list carries the four narrative fields |
| ExploreGrammar.AsListInjective | scripts/model.py:136-158 | different commands give different lists |
| ExploreGrammar.AreaCall | scripts/model.py:138-146 | `tap(n)` and `long_press(n)` are read back as `n` |
| ExploreGrammar.TextCall | scripts/model.py:141-143 | `text("...")` is read back as the text between the quotes |
| ExploreGrammar.SwipeSplit | scripts/model.py:148-152 | the three swipe arguments are split back into area, direction and distance |
| ExploreGrammar.SwipeCall | scripts/model.py:147-153 | a written swipe is read back with its three operands |
| ExploreGrammar.GridCall | scripts/model.py:154-155 | `grid()` decodes to the grid action |
| ExploreGrammar.DecodeActionRoundTrip | scripts/model.py:135-155 | every well-formed action decodes back from its text |
| ExploreGrammar.ExploreRoundTrip | scripts/model.py:119-158 | a response written from a narrative and an action decodes to that command and its list |
| GridGrammar.Spot | scripts/model.py:186-187 | a grid cell is an `int()` and the following argument with its quotes removed |
| GridGrammar.TouchOperands | scripts/model.py:184-193 | no call or fewer than two arguments fail; otherwise the result is the cell read from the first two arguments, failing exactly when `int()` rejects the first |
| GridGrammar.SwipeOperands | scripts/model.py:194-200 | fewer than four arguments fail; it fails exactly when the call is missing or either cell does not read, and otherwise holds the two cells |
| GridGrammar.NamedAction | scripts/model.py:182-205 | by name: unknown names fail; tap and long press fail exactly when their cell does not read, and otherwise carry it; swipe is `SwipeOperands`; grid always succeeds |
| GridGrammar.DecodeAction | scripts/model.py:181-205 | `FINISH` anywhere wins; other results carry the name written; unknown names, `text` included, fail; tap, long press and swipe fail exactly when their cells do not read; `grid` needs no arguments |
| GridGrammar.Decode | scripts/model.py:165-209 | an error exactly when a mandatory field is missing or the action does not decode |
| GridGrammar.AsList | scripts/model.py:182-202 | `["ERROR"]` exactly for the error; command lists start with the `_grid` name |
| GridGrammar.ParseGridRsp | scripts/model.py:165-209 | `["ERROR"]` exactly when decoding fails; the `FINISH` list carries the narrative fields |
| GridGrammar.AsListInjective | scripts/model.py:182-202 | different commands give different lists |
| GridGrammar.SpotOf | scripts/model.py:186-187 | a written cell and position are read back |
| GridGrammar.CallRead | scripts/model.py:183-195 | a written grid call yields its name and all its arguments |
| GridGrammar.TouchRoundTrip | scripts/model.py:184-193 | tap and long press decode back, whatever extra arguments follow |
| GridGrammar.DecodeTouch | scripts/model.py:184-193 | a tap or long-press call whose first cell is read decodes to that action, whatever follows |
| GridGrammar.SwipeRoundTrip | scripts/model.py:194-200 | a swipe decodes back, whatever extra arguments follow |
| GridGrammar.DecodeSwipe | scripts/model.py:194-200 | a swipe call whose two cells are read decodes to that swipe |
| GridGrammar.DecodeActionRoundTrip | scripts/model.py:181-202 | every well-formed grid action decodes back from its text |
| GridGrammar.GridRoundTrip | scripts/model.py:165-202 | a written grid response decodes to that command and its list |
| ReflectGrammar.VerdictOf | scripts/model.py:244 | a verdict is recognised only from its exact text |
| ReflectGrammar.Judge | scripts/model.py:221-256 | a missing decision or thought fails; `INEFFECTIVE` ignores documentation; documented verdicts take the documentation or the placeholder; any other decision fails |
| ReflectGrammar.Decode | scripts/model.py:212-260 | a response stripped to fewer than ten characters fails before any lookup, and so does a missing decision or thought; otherwise the three lookups are judged |
| ReflectGrammar.AsList | scripts/model.py:241-256 | `["ERROR"]` exactly for the error; a verdict list has three items |
| ReflectGrammar.ParseReflectRsp | scripts/model.py:212-260 | `["ERROR"]` exactly when decoding fails; the third item is `None` exactly for `INEFFECTIVE` |
| ReflectGrammar.AsListInjective | scripts/model.py:241-256 | different reflections give different lists |
| ReflectGrammar.ReflectionLength | scripts/model.py:215 | a written decision line always passes the length check |
| ReflectGrammar.ReflectionFields | scripts/model.py:221-250 | the decision, thought and optional documentation written are the ones found |
| ReflectGrammar.DocumentedRoundTrip | scripts/model.py:244-253 | a written verdict is read back, the placeholder standing in for missing documentation |
| ReflectGrammar.DecodeVerdict | scripts/model.py:215-253 | a long enough response whose lookups find a documented verdict decodes to it |
| ReflectGrammar.IneffectiveIgnoresDocumentation | scripts/model.py:241-243 | `INEFFECTIVE` gives `None` documentation even when a documentation line is present |
| OpenAIClient.ImageParts | scripts/model.py:42-49 | one data-URL block per image, in order |
| OpenAIClient.Content | scripts/model.py:36-49 | the prompt block first, then the image blocks |
| OpenAIClient.BuildRequest | scripts/model.py:50-66 | the JSON content type, the bearer header with the API key, one user message with the content, the configured model, temperature and token limit, and the 120-second timeout |
| OpenAIClient.GetModelResponse | scripts/model.py:30-116 | the request holds that content, the bearer header and the 120-second timeout; the reply is the transport outcome classified |
| OpenAIClient.ClassifyResponse | scripts/model.py:78-116 | an `error` object decides first; missing or empty `choices` fails; success exactly when the content is not blank or the reasoning is non-empty, giving that text; otherwise the failure "Model returned empty response"; `KeyError` exactly on a missing `message` |
| OpenAIClient.IsBlank | scripts/model.py:92 | `not s or len(s.strip()) == 0` holds exactly when every character is whitespace |
| OpenAIClient.Classify | scripts/model.py:65-72 | transport failures always fail; a received response is classified |
| OpenAIClient.TransportFailuresDistinct | scripts/model.py:67-72 | the three failure messages tell the failures and their reasons apart |
| OpenAIClient.BlankReasoningAccepted | scripts/model.py:92-96 | a whitespace-only reasoning is returned as success |
| ImageServer.ProbeFrom | scripts/temp_image_server.py:48-55 | the found port is the lowest bindable one; exhaustion exactly when every port tried is taken and in range; a window inside 0..65535 never overflows |
| ImageServer.FreePort | scripts/temp_image_server.py:46-55 | a found port is the lowest free one of the hundred from the preferred port; exhaustion means all hundred are taken |
| ImageServer.FreePortLowest | scripts/temp_image_server.py:46-55 | within the port range, a port is found exactly when one of the hundred is free, and it is the lowest |
| ImageServer.TempImageServer.FindFreePort | scripts/temp_image_server.py:46-55 | the loop returns the probe's answer |
| ImageServer.TempImageServer.constructor | scripts/temp_image_server.py:27-44 | the preferred port, the absolute directory (default the working directory), stopped |
| ImageServer.StartStep | scripts/temp_image_server.py:57-87 | nothing happens exactly when running; otherwise each outcome is fixed by the probe and the directory, creation and thread steps in turn. Probe failures change nothing. Directory and creation failures store only the probed port. A thread failure also keeps the server and thread handles, still stopped. A start binds the probed port with a server created in the directory |
| ImageServer.TempImageServer.Start | scripts/temp_image_server.py:57-87 | the new fields and outcome are those of `StartStep`, and validity is kept |
| ImageServer.StopStep | scripts/temp_image_server.py:89-99 | always stopped afterwards; port, directory and thread kept; a running server's handle is dropped; a stopped one is unchanged |
| ImageServer.TempImageServer.Stop | scripts/temp_image_server.py:89-99 | the new fields are those of `StopStep` |
| ImageServer.StartStopIdempotent | scripts/temp_image_server.py:59-60 | starting a started server and stopping a stopped one change nothing |
| ImageServer.StepsKeepValid | scripts/temp_image_server.py:76-81 | a running server always holds its server and thread for its port and directory |
| ImageServer.RestartFromLastPort | scripts/temp_image_server.py:63 | after start and stop, a restart probes from the port bound last and gets it back while it is free |
| ImageServer.Url | scripts/temp_image_server.py:101-129 | a copy is made exactly when `relpath` fails, into the directory under the base name; the URL is the localhost prefix, the port and the path with separators turned into `/` |
| ImageServer.ServedPath | scripts/temp_image_server.py:112-124 | the path relative to the server's directory, or the base name when `relpath` fails |
| ImageServer.TempImageServer.GetUrl | scripts/temp_image_server.py:101-129 | returns the URL and copy of `Url` for the server's port and directory |
| ImageServer.UrlPathInverse | scripts/temp_image_server.py:127-129 | the URL path has no separator and maps back to the served path |
| ImageServer.CopyCollision | scripts/temp_image_server.py:117-124 | unreachable files with the same base name get the same URL and copy destination |
| ImageServer.GlobalServer.Get | scripts/temp_image_server.py:145-151 | creates and starts a server only when there is none, keeps it even when starting fails, and returns the existing one unchanged otherwise |
| ImageServer.GlobalServer.StopGlobal | scripts/temp_image_server.py:154-159 | stops the instance and forgets it |

Expression helpers have no row of their own. Their behaviour is stated by
the rows that use them:

- `GridGrammar.Params` is the comma split of a call's arguments (scripts/model.py:185), used by `TouchOperands` and `SwipeOperands`.
- `OpenAIClient.DataUrl` is the `data:image/jpeg;base64,` URL of one image, used by `ImageParts`.
- `OpenAIClient.FirstContent` and `OpenAIClient.HasChoices` are the `choices` checks and the content read of scripts/model.py:82-89, used by `ClassifyResponse`.

## Left out

- Printing, the system monitor, the response-time and cost printout, and `print_with_color` have no effect on any result.
- The HTTP call is an abstract transport outcome. Which outcome a body that is not JSON gives depends on the `requests` version. From 2.27, `.json()` raises `requests.exceptions.JSONDecodeError`, a `RequestException`, so the reply is `Request failed: …` (`RequestFailed`). Older versions raise a plain `ValueError`, which gives `Failed to parse response: …` (`OtherFailure`).
- Image encoding: `encode_image` is a total parameter. A failing `encode_image` raises out of `get_model_response`, because the images are encoded before the `try` around the request. That exception is not modelled.
- `temperature` is a real number. Floating point and its JSON form are not modelled.
- JSON values of unexpected types are not modelled. Examples: a `null` `error`, which raises `TypeError`, or a non-string `content`. The decoded response has only the keys the classification reads.
- A non-dictionary `choices[0]` is not modelled either.
- Python's `int()` also accepts non-ASCII Unicode digits. The model accepts ASCII digits only.
- Text.PyInt: has no digit limit. Since CPython 3.11, and the security releases 3.7.14, 3.8.14, 3.9.14 and 3.10.7, `int(s)` and `str(n)` raise `ValueError` beyond `sys.get_int_max_str_digits()` digits. The default is 4300, and both the version and the interpreter's configuration decide it. Under such a limit, an area of more than 4300 digits in `tap(...)`, `long_press(...)`, a swipe or a grid cell (scripts/model.py:139, 145, 150, 186, 191, 196, 198) gives `["ERROR"]`, where the model decodes it.
- Lone surrogates: a Python `str`, for instance one decoded from a JSON reply, can hold a lone surrogate such as U+D800. A Dafny `char` is a Unicode scalar value and cannot hold one, so such text is not modelled.
- Sockets, threads and the HTTP request handler are handles in the model, and `Env` decides their failures.
- A port's occupancy cannot change between the probe and server creation in the model. Such a race is the `serverCreated` failure.
- The working-directory change and restore around server creation is process state and is not modelled.
- ImageServer.StartStep: records the directory the server was created in, not what it serves. `SimpleHTTPRequestHandler` takes `os.getcwd()` for every request, and `start` restores the previous working directory before returning (scripts/temp_image_server.py:66-67 and 85-87). A running server therefore serves the caller's working directory, and the paths `get_url` builds relative to `directory` resolve only when the two are the same. The model has no working directory and no requests, so it does not capture this.
- `os.path` functions and `shutil.copy` are parameters or effects the model describes. The copy is returned rather than performed, and a failing copy is not modelled.
- `__enter__` and `__exit__` are not modelled separately. They only call `start` and `stop`.
- The other model adapters and the prompt texts are not part of this model.
- ResponseFields.CallArgs: states only what a found argument text is. Its position as the first `name(` closed on its own line is stated by the lemma `CallArgsOf` for written calls.
- Text.PyInt: states only that a parsed value comes from non-blank text without information separators. Its value is stated by `PyIntRoundTrip` for `str(n)`, and the rejection of separators by `InfoSeparatorNotSkipped`.
