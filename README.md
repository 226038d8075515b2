# tslog core, modelled in Dafny

This project models the core of tslog, a logger for Node.js. It covers the
`LoggerWithoutCallSite` class and the `LoggerHelper` utilities. The model
has these parts:

- **The settings tree.** Each logger has its own overrides
  (`_mySettings`) and a snapshot of its parent's settings or the defaults
  (`_parentOrDefaultSettings`). Its effective `settings` combine the two.
  `setSettings` merges new overrides and pushes the result down to every
  registered child. `getChildLogger` seeds a new child with the current
  effective settings.
- **Log records.** `_buildLogObject` builds a log record; `_buildErrorObject`
  builds an error object with its stack window and optional code frame.
- **Dispatch.** `_handleLog` filters a record by level for the primary write
  to stdout or stderr. It then forwards the record to every attached
  transport whose level the record reaches.
- **Call sites.** `cleanUpFilePath`, `getCallSites` and
  `toStackFrameObject` filter and normalise stack frames.
- **Code frames.** `_getCodeFrame` extracts source context around a line,
  `lineNumberTo3Char` pads line numbers, and `_printPrettyCodeFrame`
  renders a code frame with colourisation off.
- **Masking.** `cloneObjectRecursively` and `logObjectMaskValuesOfKeys`
  implement the masking deep clone.

The modules follow the two source files:

| module | file | contents |
|---|---|---|
| `Wrappers` | `wrappers.dfy` | `Option` |
| `JsText` | `js_text.dfy` | the string built-ins the source uses: `indexOf`, `replace` with a literal pattern, `split`, `join`, ASCII `toLowerCase`, `String(n)`, `path.basename` |
| `JsValues` | `js_values.dfy` | JavaScript values and a heap of objects (dates, arrays, plain objects with a prototype chain), plus `isError` |
| `CallSites` | `call_sites.dfy` | `cleanUpFilePath`, `getCallSites`, `toStackFrameObject`, `_toStackObjectArray` |
| `CodeFrames` | `code_frames.dfy` | `_getCodeFrame`, `lineNumberTo3Char`, `_printPrettyCodeFrame` |
| `Masking` | `masking.dfy` | the class `Cloner`: a heap, the shared `done` list, and the clone methods |
| `Settings` | `settings.dfy` | settings as maps, the `settings` getter, the normalisation done by `setSettings`, the constructor's defaults |
| `Records` | `records.dfy` | levels, `_buildErrorObject`, `_buildLogObject`, `_handleLog` dispatch, `_logObjectToJson` |
| `Loggers` | `logger.dfy` | the class `Logger` and the value `LoggerTree` it stands for |

**Objects that change become classes.**
- `Loggers.Logger` has the source's fields: `own` (`_mySettings`),
  `inherited` (`_parentOrDefaultSettings`), `children` (`_childLogger`) and
  `transports`. Its methods are proved against functions on the ghost
  `LoggerTree` it stands for. The lemmas about those functions state what
  propagation keeps.
- `Masking.Cloner` holds the heap and the `done` list the recursion shares.

**Loops become methods with invariants**, each proved equal to a
specification function:
- the filter of `getCallSites`;
- the two loops of `_getCodeFrame`;
- the argument loop of `_buildLogObject`;
- the transport loop of `_handleLog`;
- the numbering loops of `_printPrettyCodeFrame`;
- the propagation loop of `setSettings`;
- the loops of the clone.

**Runtime inputs are parameters.** Several things the runtime supplies are
passed in: the file contents that `readFileSync` would return (`files`), the
operating system's host name, the working directory as path segments, the
captured call sites, the clock, the value a `requestId` function returns, and
whether `types.isNativeError` exists. Together they form the record `Env`.

**Warn goes to stderr.** `_minLevelToStdErr` is 4
(`dist/esm/LoggerWithoutCallSite.js:25`, compared at line 251), so `warn`
(index 4), `error` and `fatal` are written to stderr and the lower levels to
stdout.

## Model

| member | source | states |
|---|---|---|
| Settings.EffectiveLookup | dist/esm/LoggerWithoutCallSite.js:104-111 | for every key but `prefix`, an own override wins and otherwise the inherited value shows, and the key is present exactly when either side has it; `prefix` is always an array: the inherited prefix followed by the own one, or by nothing when the own one is `null`/`undefined` |
| Settings.EffectiveKeys | dist/esm/LoggerWithoutCallSite.js:104-111 | the effective settings have exactly the keys of both sides plus `prefix` |
| Settings.OverlayAbsorbed | dist/esm/LoggerWithoutCallSite.js:162-165 | spreading a map under one that has all of its keys changes nothing |
| Settings.Coalesce | dist/esm/LoggerWithoutCallSite.js:130-131 | `a ?? b` is `a` unless `a` is `null` or `undefined`, and `b` then |
| Settings.Spread | dist/esm/LoggerWithoutCallSite.js:107-109 | spreading an array yields its items |
| Settings.Normalize | dist/esm/LoggerWithoutCallSite.js:130-135 | after `setSettings` the own overrides have exactly the old keys plus `instanceName` and `name`; `instanceName` falls back to the own `hostname`, `name` to `undefined`; every other key is unchanged |
| Settings.NormalizeIdempotent | dist/esm/LoggerWithoutCallSite.js:130-135 | normalising twice is normalising once, so merging `{}` into normalised overrides leaves them as they are |
| Settings.NameNeverInherited | dist/esm/LoggerWithoutCallSite.js:130-135 | a logger's effective `name`/`instanceName` come from its own overrides whatever it inherits |
| Settings.Defaults | dist/esm/LoggerWithoutCallSite.js:29-98 | the defaults carry the host name filled in |
| Settings.DefaultsKeys | dist/esm/LoggerWithoutCallSite.js:29-98 | filling in the host name adds no key: the defaults have exactly the default keys, `hostname` among them |
| Settings.DefaultHostname | dist/esm/LoggerWithoutCallSite.js:32 | without parent settings the host name is the operating system's |
| Loggers.EffKeysGrow | dist/esm/LoggerWithoutCallSite.js:119-141 | `setSettings` never removes a key from the effective settings |
| Loggers.SetTreeConsistent | dist/esm/LoggerWithoutCallSite.js:119-155 | after `setSettings` every logger below has as inherited settings exactly its parent's new effective settings, all the way down |
| Loggers.LastWriteWins | dist/esm/LoggerWithoutCallSite.js:121-141 | after `setSettings(s, p)` a key set by `s` shows `s`'s value (for `name`/`instanceName`, unless nullish); any other key shows the old own override or the inherited settings with `p` merged in |
| Loggers.ChildOverridesKept | dist/esm/LoggerWithoutCallSite.js:151-153 | propagation leaves each child's normalised own overrides, transports and number of children unchanged |
| Loggers.PrefixChain | dist/esm/LoggerWithoutCallSite.js:104-153 | in a consistent tree each child's prefix is its parent's effective prefix followed by its own |
| Loggers.NamesNotInherited | dist/esm/LoggerWithoutCallSite.js:130-153 | after propagation a child's `name`/`instanceName` are still its own |
| Loggers.Inherits | dist/esm/LoggerWithoutCallSite.js:104-111 | in a consistent tree a key that no descendant overrides shows everywhere below with the root's value |
| Loggers.NoOverrideKept | dist/esm/LoggerWithoutCallSite.js:151-153 | propagation creates no override below the root for a key other than `name`/`instanceName` |
| Loggers.SettingReachesDescendants | dist/esm/LoggerWithoutCallSite.js:119-155 | `setSettings({k: v})` makes every logger below that does not override `k` see `v` |
| Loggers.NewTreeWellFormed | dist/esm/LoggerWithoutCallSite.js:14-102 | a new logger has no children, is consistent, and its inherited settings hold every default key |
| Loggers.SetTreeWellFormed | dist/esm/LoggerWithoutCallSite.js:119-155 | `setSettings` keeps the tree well formed |
| Loggers.AddChildConsistent | dist/esm/LoggerWithoutCallSite.js:161-168 | `getChildLogger` keeps the tree well formed, keeps the earlier children and puts the new one last, inheriting exactly the parent's effective settings |
| Loggers.NewChildInherits | dist/esm/LoggerWithoutCallSite.js:161-168 | a child built from a seeded parent's snapshot inherits that snapshot unchanged, since the snapshot overrides every default |
| Loggers.AttachWellFormed | dist/esm/LoggerWithoutCallSite.js:175-180 | attaching transports keeps the tree well formed |
| Loggers.SetAtReaches | dist/esm/LoggerWithoutCallSite.js:119-155 | `setSettings` on a descendant brings that descendant and its subtree to the `setSettings` tree, and every logger above keeps its own, inherited and effective settings and its number of children |
| Loggers.SetAtConsistent | dist/esm/LoggerWithoutCallSite.js:119-155 | after `setSettings` on a descendant every logger still inherits exactly its parent's effective settings |
| Loggers.SetAtWellFormed | dist/esm/LoggerWithoutCallSite.js:119-155 | `setSettings` on a descendant keeps the tree well formed |
| Loggers.AttachAtWellFormed | dist/esm/LoggerWithoutCallSite.js:175-180 | `attachTransport` on a descendant keeps the tree well formed |
| Loggers.AttachAtTransports | dist/esm/LoggerWithoutCallSite.js:175-180 | `attachTransport` on a descendant appends the transport to that descendant's transports |
| Loggers.PropagationKeepsBelow | dist/esm/LoggerWithoutCallSite.js:151-153 | propagation from an ancestor leaves a descendant at any depth with its own overrides (normalised) and its transports |
| Loggers.LaterRootSetKeeps | dist/esm/LoggerWithoutCallSite.js:119-155 | what a call on a descendant wrote survives a later `setSettings` on the root: the overrides it was given and the transport attached to it |
| Loggers.Logger.constructor | dist/esm/LoggerWithoutCallSite.js:14-102 | the new logger stands for the defaults (host name filled in) followed by `setSettings(settings ?? {}, parentSettings)` and has no children |
| Loggers.Logger.SetSettings | dist/esm/LoggerWithoutCallSite.js:119-155 | the logger and every logger below it go to the tree `setSettings` specifies, the children stay the same objects, and the returned settings are the new effective ones |
| Loggers.Logger.Propagate | dist/esm/LoggerWithoutCallSite.js:151-153 | the `forEach` brings each child, in order, to its state after `setSettings({}, eff)` |
| Loggers.Logger.GetChildLogger | dist/esm/LoggerWithoutCallSite.js:161-168 | a fresh child is appended to the children and the tree grows as `AddChild` specifies |
| Loggers.Logger.Register | dist/esm/LoggerWithoutCallSite.js:166 | the child is appended last and the logger stays valid |
| Loggers.Logger.AttachTransport | dist/esm/LoggerWithoutCallSite.js:175-180 | appends `{minLevel ?? "silly", sink}` to the transports, changing nothing else |
| Loggers.Logger.SetSettingsAt | dist/esm/LoggerWithoutCallSite.js:119-155 | `setSettings(settings)` called on a logger that `getChildLogger` returned, reached along `path`: the tree goes to `SetAt`, the child objects stay the same, and the returned settings are that logger's new effective ones |
| Loggers.Logger.AttachTransportAt | dist/esm/LoggerWithoutCallSite.js:175-180 | `attachTransport` called on a logger that `getChildLogger` returned: the tree goes to `AttachAt` and the child objects stay the same |
| Loggers.Logger.HandleLog | dist/esm/LoggerWithoutCallSite.js:247-271 | the record is the one built from the effective settings, with `exposeStack` defaulting to the setting, and the outputs are the primary write followed by the transport forwards |
| Loggers.Logger.Log | dist/esm/LoggerWithoutCallSite.js:185-229 | `silly` to `fatal` build and dispatch the record of their level, and only `trace` forces the stack on |
| Loggers.Logger.PrettyError | dist/esm/LoggerWithoutCallSite.js:240-246 | returns the error object `_buildErrorObject` specifies |
| Records.Index | dist/esm/LoggerWithoutCallSite.js:16-24 | a level's index is a position in the list of level names |
| Records.FirstIndex | dist/esm/LoggerWithoutCallSite.js:250 | `indexOf` is -1 exactly for a missing value, and otherwise the first position holding it |
| Records.IndexOfLevelName | dist/esm/LoggerWithoutCallSite.js:16-24 | looking up a level's name gives back its index |
| Records.UnknownMinLevelPassesAll | dist/esm/LoggerWithoutCallSite.js:250 | a `minLevel` naming no level lets every record through |
| Records.SpliceFrom | dist/esm/LoggerWithoutCallSite.js:274 | `splice(n)` starts within the array |
| Records.BuildErrorObject | dist/esm/LoggerWithoutCallSite.js:321-351 | the error object built step by step is the one `ErrorObjectOf` specifies |
| Records.ErrorCallSites | dist/esm/LoggerWithoutCallSite.js:323-329 | the call sites after the splice and the `length` assignment are the window of the filtered frames |
| Records.CodeFrameOfTop | dist/esm/LoggerWithoutCallSite.js:341-348 | the code frame is read for the top frame exactly when it qualifies |
| Records.StackWindowClamped | dist/esm/LoggerWithoutCallSite.js:324-329 | the window is the consecutive frames from `max(offset, 0)` on, `max(limit, 0)` of them at most; a limit of 0 or less leaves none, and a negative offset acts as 0 |
| Records.ErrorStackLength | dist/esm/LoggerWithoutCallSite.js:323-339 | the error's stack has as many frames as the clamped window |
| Records.ErrorStackFrames | dist/esm/LoggerWithoutCallSite.js:323-339 | entry `i` of the error's stack is the normalised frame `max(offset, 0) + i` of the filtered frames |
| Records.ErrorNameAndDetails | dist/esm/LoggerWithoutCallSite.js:330-340 | `isError` is true and `nativeError` refers to the error; `name` falls back to "Error"; `details` holds exactly the own enumerable properties other than `name`, in order |
| Records.DetailsMembers | dist/esm/LoggerWithoutCallSite.js:330-335 | a property is in `details` exactly when it is own, enumerable and not `name` |
| Records.DetailsSubsequence | dist/esm/LoggerWithoutCallSite.js:330-335 | `details` keeps the order of the properties |
| Records.CodeFrameIff | dist/esm/LoggerWithoutCallSite.js:341-348 | a code frame is attached exactly when the stack is non-empty, the flag is set, the top line is known, the path has no `node_modules` and the file can be read; it is then the window around the top frame's line |
| Records.ArgumentsOf | dist/esm/LoggerWithoutCallSite.js:304-315 | one entry per argument |
| Records.BuildLogObject | dist/esm/LoggerWithoutCallSite.js:272-320 | the record built step by step is the one `LogObjectOf` specifies |
| Records.PushArguments | dist/esm/LoggerWithoutCallSite.js:308-315 | the `forEach` fills `argumentsArray` with one entry per argument, in order |
| Records.WrapArgument | dist/esm/LoggerWithoutCallSite.js:309-314 | an error-shaped argument becomes its error object, built with the logger's code-frame flag; anything else is kept as it is |
| Records.ArgumentsArrayShape | dist/esm/LoggerWithoutCallSite.js:304-315 | `argumentsArray` has one entry per prefix element and per argument, in order; exactly the error-shaped ones become error objects for that very error, the others are kept as they are |
| Records.RecordLevel | dist/esm/LoggerWithoutCallSite.js:290-291 | the record carries its level and, as `logLevelId`, the position of the level's name |
| Records.RecordFields | dist/esm/LoggerWithoutCallSite.js:273-318 | the relevant frames are the filtered frames from `ignoreStackLevels` on; the first of them gives the location fields, which are absent without one; the stack is present exactly when asked for and holds every relevant frame |
| Records.RecordRequestId | dist/esm/LoggerWithoutCallSite.js:281-283 | a function `requestId` is called for its result; any other value is recorded as is |
| Records.WritePrimary | dist/esm/LoggerWithoutCallSite.js:249-263 | the primary write is the one `Primary` specifies |
| Records.ForwardAll | dist/esm/LoggerWithoutCallSite.js:264-269 | the transport loop forwards as `Forwards` specifies |
| Records.PrimaryIff | dist/esm/LoggerWithoutCallSite.js:249-263 | at most one write; one happens exactly when output is not suppressed, the level reaches `minLevel` and the type is "pretty" or "json"; it goes to stderr exactly from index 4 on, as JSON exactly for "json"; "hidden" writes nothing |
| Records.StreamOfLevel | dist/esm/LoggerWithoutCallSite.js:251-253 | warn, error and fatal records go to stderr, the others to stdout |
| Records.ForwardsIff | dist/esm/LoggerWithoutCallSite.js:264-269 | a transport's sink receives the record exactly when some transport for it has a level the record reaches |
| Records.ForwardedFrom | dist/esm/LoggerWithoutCallSite.js:264-269 | only a transport the record reaches is served |
| Records.ForwardedTo | dist/esm/LoggerWithoutCallSite.js:264-269 | every transport the record reaches is served |
| Records.ForwardsShape | dist/esm/LoggerWithoutCallSite.js:264-269 | each transport gets at most one call, and it is the method of the record's level |
| Records.ForwardsAppend | dist/esm/LoggerWithoutCallSite.js:264-269 | transports are served in registration order |
| Records.ForwardingIgnoresSuppression | dist/esm/LoggerWithoutCallSite.js:249-269 | the forwarded part does not depend on the settings; with output suppressed only the forwards remain |
| Records.JsonKeepsRecord | dist/esm/LoggerWithoutCallSite.js:559-579 | the JSON form keeps every field and the number and order of the arguments; an error object keeps its fields, loses its native error and gains `errorString`; primitives are formatted and `null` inspected |
| CallSites.KeptAppend | dist/esm/LoggerHelper.js:7-13 | whether a segment is dropped depends only on its position: clean-up of a concatenation is that of each part |
| CallSites.KeptUnderCwd | dist/esm/LoggerHelper.js:7-13 | the working directory's own segments at the head of a path are exactly what is removed |
| CallSites.KeptNoCwd | dist/esm/LoggerHelper.js:7-13 | without a working directory every segment is kept |
| CallSites.KeptCount | dist/esm/LoggerHelper.js:7-13 | the kept segments are the path's segments in order, less exactly those equal to the working-directory segment at the same index |
| CallSites.CleanUpUnderCwd | dist/esm/LoggerHelper.js:7-13 | a path inside the working directory is cleaned to its relative path, with no leading separator |
| CallSites.CleanUpWithoutCwd | dist/esm/LoggerHelper.js:7-13 | with no working directory the path is unchanged |
| CallSites.PositionalRemoval | dist/esm/LoggerHelper.js:7-13 | removal is positional, not a common-prefix cut: `/opt/app/x.js` under `/home/app` gives `opt/x.js` |
| CallSites.GetCallSites | dist/esm/LoggerHelper.js:22-37 | with clean-up on an array, the result is the frames the filter keeps, after dropping the capture's own frame at the current point; otherwise the stack is returned as is |
| CallSites.UserFramesMembers | dist/esm/LoggerHelper.js:26-34 | a frame is kept exactly when it is in the stack and has a non-empty file name that does not start with `internal/`, `module.js` or `bootstrap_node.js` |
| CallSites.UserFramesSubsequence | dist/esm/LoggerHelper.js:24-36 | the filter keeps a subsequence of the stack |
| CallSites.UserFramesIdempotent | dist/esm/LoggerHelper.js:24-36 | filtering twice is filtering once |
| CallSites.UserFramesAppend | dist/esm/LoggerHelper.js:24-36 | the filter treats each frame on its own, in stack order |
| CallSites.ToStackFrameObject | dist/esm/LoggerHelper.js:38-53 | `fullFilePath` is the file name (or "") less its first `file://`; `filePath` is its clean-up; `fileName` has no separator; absent getters stay absent and the others pass through |
| CallSites.FileUrlStripped | dist/esm/LoggerHelper.js:40-41 | `file:///a/b.js` becomes `/a/b.js` |
| CallSites.FileUrlFrameUnderCwd | dist/esm/LoggerHelper.js:38-45 | a file URL inside the working directory gives the plain path as `fullFilePath` and the relative path as `filePath` |
| CallSites.ToStackObjectArray | dist/esm/LoggerWithoutCallSite.js:352-358 | one normalised frame per call site |
| CodeFrames.GetCodeFrame | dist/esm/LoggerHelper.js:157-195 | a file that cannot be read gives no frame; otherwise the frame `CodeFrameOf` specifies |
| CodeFrames.FrameOfLines | dist/esm/LoggerHelper.js:159-189 | the two `for` loops collect the `CodeFrameOf` windows |
| CodeFrames.WindowSlice | dist/esm/LoggerHelper.js:178-188 | a loop from `lo` to `hi` that skips missing lines collects the slice between the two indices clamped to the file |
| CodeFrames.WindowLength | dist/esm/LoggerHelper.js:178-188 | such a loop collects at most `hi - lo` lines |
| CodeFrames.CodeFrameAroundLine | dist/esm/LoggerHelper.js:159-189 | for an existing target line `n`: the frame holds that line, the `min(k, n-1)` lines right before it and the up to `k` lines right after it that exist; `firstLineNumber` is `max(0, n-1-k) + 1`, and counting from it reaches `n` at the target |
| CodeFrames.CodeFrameBounds | dist/esm/LoggerHelper.js:164-183 | for any target line, `firstLineNumber` is `max(0, n-1-k) + 1`, neither side has more than `k` lines, and the target line is present exactly when it exists |
| CodeFrames.LineNumberTo3CharDigits | dist/esm/LoggerHelper.js:196-202 | below 1000 a line number becomes exactly three digits, from 100 on its plain decimal text, and the digits always read back as the number |
| CodeFrames.LineNumberTo3CharExamples | dist/esm/LoggerHelper.js:196-202 | 7 gives "007", 42 gives "042", 123 gives "123" |
| CodeFrames.PrintNumbered | dist/esm/LoggerWithoutCallSite.js:538-557 | each loop writes each line once with the running counter |
| CodeFrames.PrintPrettyCodeFrame | dist/esm/LoggerWithoutCallSite.js:536-558 | the writes are the rows of the frame in order: header, lines before, target, marker, lines after |
| CodeFrames.PrettyCodeFrameNumbering | dist/esm/LoggerWithoutCallSite.js:536-558 | lines are numbered consecutively from `firstLineNumber`; the target gets `firstLineNumber` plus the number of lines before it; the marker, when there is a column, sits right below the target |
| CodeFrames.MarkerUnderColumn | dist/esm/LoggerWithoutCallSite.js:543-553 | the marker's `^` stands in the text column of the target line's `column`-th character (for three-digit line numbers) |
| CodeFrames.RelevantLineNumbered | dist/esm/LoggerHelper.js:171-183 | a frame extracted around an existing line renders that line with its own number |
| Masking.KeyMaskedIff | dist/esm/LoggerHelper.js:247-253 | a key is masked exactly when some string key equals it up to ASCII case; keys that are not strings never match |
| Masking.KeyMaskedIgnoresCase | dist/esm/LoggerHelper.js:247-253 | masking ignores the case of the property name and of the configured keys |
| Masking.ToLowerIdempotent | dist/esm/LoggerHelper.js:248-249 | lower-casing twice is lower-casing once |
| Masking.LowerCased | dist/esm/LoggerHelper.js:248 | one lower-cased entry per key |
| Masking.Cloner.Clone | dist/esm/LoggerHelper.js:203-242 | the visited object is appended to `done`, which only grows; a clone is a new object built as `ClonedFrom` says and recorded as the clone of `id`; every clone made on the way, at any depth, is traced to its original (`Faithful`); a date, or a plain object whose object-valued properties are all visited, is always cloned; an array holding itself never finishes |
| Masking.Cloner.CloneArray | dist/esm/LoggerHelper.js:209-217 | an array is cloned element by element: primitives copied, each object replaced by a new clone of that very element, with no look at `done`; an array holding itself never finishes |
| Masking.Cloner.CloneElements | dist/esm/LoggerHelper.js:210-217 | the `map` gives one entry per element, in order, each copied or traced to a clone of the element |
| Masking.Cloner.CloneElement | dist/esm/LoggerHelper.js:211-216 | a primitive or nullish element comes back unchanged and allocates nothing; an object element becomes a new clone of it |
| Masking.Cloner.ClonePlain | dist/esm/LoggerHelper.js:219-241 | the clone has the same prototype and, key by key in order, a reference to itself for an object already in `done`, copies of `null`/`undefined`, masked primitives and new clones of the other property objects, each traced to that object |
| Masking.Cloner.CloneProps | dist/esm/LoggerHelper.js:220-239 | the `forEach` gives one property per own property, in order, as `PropCloned` and `PropTraced` say; with every object-valued property already visited it always finishes and visits nothing |
| Masking.Cloner.CloneProp | dist/esm/LoggerHelper.js:221-238 | a primitive, a nullish value or an object in `done` is handled without visiting anything; an object otherwise becomes a new clone of it |
| Masking.Cloner.Finish | dist/esm/LoggerHelper.js:219-241 | the object created up front receives the cloned properties and becomes the clone recorded for the original |
| Masking.Cloner.MaskValuesOfKeys | dist/esm/LoggerHelper.js:243-257 | with no keys, an empty key list or a nullish object, the input itself comes back and the heap is unchanged; otherwise any result is a new clone of the object, traced to it, with every clone beneath it traced to its own original; a date, or an object whose only object-valued properties are itself, is always cloned |
| Masking.Cloner.MaskedForInspection | dist/esm/LoggerWithoutCallSite.js:583-599 | what is inspected is the input when there is nothing to mask, and otherwise the masked clone of the object, with every clone beneath it traced to its original, or the input when masking throws; for a date, or an object whose only object-valued properties are itself, it is always the clone |
| Masking.MaskedAtEveryDepth | dist/esm/LoggerHelper.js:203-257 | in every clone of a traversal, at any depth, each property keeps its original's key; a primitive under a masked key other than `null`/`undefined` is the placeholder, every other primitive is copied, and an object stays a reference |
| Masking.ClonesClosed | dist/esm/LoggerHelper.js:203-242 | with a placeholder that is not an object, every reference held by a clone leads to a clone |
| Masking.ReachableClones | dist/esm/LoggerHelper.js:203-242 | everything reachable from a clone is a clone, so the masking above holds in the whole object graph under the result |
| JsValues.GetShadowing | dist/esm/LoggerWithoutCallSite.js:336-338 | `error.name` and `error.message` read the first own property of that key before the prototype |

## Left out

- `overwriteConsole`, `setUtilsInspectStyles`, `initErrorToJsonHelper`, `styleString` and `_stylizeWithColor`: these are process-wide mutations of the console, of `inspect.styles` and of `Error.prototype`, plus ANSI colouring. The model renders with colourisation off.
- `util.inspect`, `formatWithOptions` and `JSON.stringify`: their text is foreign formatting. `_logObjectToJson` takes `inspect` and `format` as function parameters.
- `_maskAny` and `_maskAnyRegExp`: these rely on the JavaScript regular-expression engine.
- Date and time formatting, `printPrettyLog`, `_printPrettyError`, `_printPrettyStack` and `_printJsonLog`: this is presentation. The clock is the integer `now`.
- The async `_getCodeFrameAsync` is left out: it is commented-out dead code.
- The `prettyInspectOptions.colors` mutation in `setSettings` is left out: it writes through a shared object.
- Settings.Normalize: the `setCallerAsLoggerName` lookup of the caller's type or function name from a live stack capture is not modelled. The `name` falls back to `undefined`.
- Loggers.Logger.AttachTransport: transports are kept per logger. The model does not capture that the source's shallow spreads share one `attachedTransports` array between a parent and its children.
- Loggers.Logger.PrettyError: it returns the error object only. Printing, and the `print`, `exposeStackTrace` and `std` parameters, are presentation.
- Loggers.Logger.PrettyError: it takes a plain object, as `_buildLogObject` passes. The source would also destructure a date or an array.
- `readFileSync`, `os.hostname()`, `process.cwd()`, the `CallSitesHelper` stack capture and `_callSiteWrapper` (the identity here) are runtime inputs, passed in through `Env` and the constructor.
- JsText.ToLower: lower-cases ASCII letters only; there is no Unicode case mapping.
- JsValues: numbers are integers. `NaN`, `Infinity` and fractions are not modelled. A `stackLimit` of `Infinity` is the `None` of `Option<int>`.
- CallSites: the path separator is the POSIX `/`.
- Settings.Spread: spreading a value that is neither an array nor a string throws in the source. The model yields no elements.
- CodeFrames.PrettyCodeFrame: a column below -8 makes `new Array(column + 8)` throw a `RangeError`; the member requires `column >= -8`.
- Masking.Cloner.Clone: the recursion depth is bounded by `fuel`. `None` stands for the call stack running out (a `RangeError`). The model promises a result only for dates and for objects with no unvisited object-valued property. It does not claim termination for cycles through arrays.
- Masking.Cloner.ClonePlain: it always allocates a new object for an object-valued property. The source passes `clonedObject[currentKey]` as the target of the recursive call, and that value is read through the prototype. When the prototype holds an object under that key, the source writes into that object instead.
- Masking.Cloner.MaskValuesOfKeys: it takes an object or a nullish value, as the logger passes. A non-null primitive, which the source would clone through its wrapper's prototype, is not modelled.
- The `isError` choice between `types.isNativeError` and `instanceof Error` is the flag `hasIsNativeError` of `Env`.
- Loggers.Logger.SetSettingsAt: a logger that `getChildLogger` returned lies in its parent's footprint, so a call on it is made through an ancestor, with the indices of the children that lead to it; a call on a child whose ancestors the caller dropped is not modelled.
- Loggers.Logger: `Valid` does not include the well-formedness of the tree; every method's contract gives its new tree as a function of the old one, and the lemmas `SetTreeWellFormed`, `AddChildConsistent`, `AttachWellFormed`, `SetAtWellFormed` and `AttachAtWellFormed` state that these functions keep it.
- Masking.MaskedAtEveryDepth: below the top level a reference in a clone is either the clone itself, as for an object already in `done`, or a clone of the original's reference; which of the two is not stated there, because the `done` list at that depth is not recorded.
- Masking.ClonesClosed: it assumes a placeholder that is not an object. An object placeholder is put in place of masked values as it is, not cloned.
- Records.SpliceArgument: a string or an array setting, which `splice` would coerce to a number, is not modelled. The typed settings hold a number there.
- Loggers.Logger.HandleLog: it forwards to the transports attached with `attachTransport` only. The source forwards to the `attachedTransports` setting, so transports given to the constructor or to `setSettings` under that key also receive records, and an own `attachedTransports` override replaces the transports attached before. The model does not read that setting.
- Masking.Cloner.MaskValuesOfKeys: a clone is promised only for a date or an object whose object-valued properties are all the object itself, given `fuel > 0`; for deeper objects the result may be `None`, which stands for the call stack running out.
- Masking.Cloner.MaskedForInspection: the masked clone is promised under the same condition as for `MaskValuesOfKeys`; otherwise the input may come back as if masking had thrown.
- Records.LinesAround: a setting that is not a number counts as 0 lines. In the source `undefined` makes `firstLineNumber` `NaN`, and a numeric string is coerced to its number.
