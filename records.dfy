/** Log levels, the records `_buildLogObject` and `_buildErrorObject` build,
    the choice of outputs `_handleLog` makes for a record, and the JSON form
    of a record (`_logObjectToJson`). The specification functions are here;
    the methods that build records step by step as the source does follow
    them. */
module Records {
  import opened Wrappers
  import opened JsText
  import opened CallSites
  import opened CodeFrames
  import opened JsValues
  import opened Settings

  // ---------------------------------------------------------------------
  // Levels

  datatype Level = Silly | Trace | Debug | Info | Warn | Error | Fatal

  /** `_logLevels`. */
  const LevelNames: seq<string> := ["silly", "trace", "debug", "info", "warn", "error", "fatal"]

  /** `_minLevelToStdErr`. */
  const MinLevelToStdErr: int := 4

  /** The position of a level in `_logLevels`. */
  function Index(l: Level): (i: nat)
    ensures i < |LevelNames|
  {
    match l
    case Silly => 0
    case Trace => 1
    case Debug => 2
    case Info => 3
    case Warn => 4
    case Error => 5
    case Fatal => 6
  }

  /** The name a level is called by, which is also the transport method
      that receives it. */
  function Name(l: Level): string {
    LevelNames[Index(l)]
  }

  /** `xs.indexOf(x)`: the first position holding `x`, or -1. */
  function FirstIndex<T(==)>(xs: seq<T>, x: T): (r: int)
    ensures -1 <= r < |xs|
    ensures r == -1 <==> x !in xs
    ensures r >= 0 ==> xs[r] == x && forall j :: 0 <= j < r ==> xs[j] != x
  {
    if xs == [] then -1
    else if xs[0] == x then 0
    else
      var r := FirstIndex(xs[1..], x);
      assert forall j :: 1 <= j < |xs| ==> xs[j] == xs[1..][j - 1];
      if r == -1 then -1 else r + 1
  }

  /** `_logLevels.indexOf(s)` for a level name given as a string. */
  function IndexOfName(s: string): (r: int)
    ensures -1 <= r < |LevelNames|
  {
    FirstIndex(LevelNames, s)
  }

  /** `_logLevels.indexOf(settings.minLevel)`: a value that is not a level
      name, a string or otherwise, is found nowhere. */
  function MinLevelRank(x: Setting): int {
    if x.Item? && x.value.Str? then IndexOfName(x.value.s) else -1
  }

  /** Looking a level's name up gives back its index: the names are
      distinct. */
  lemma IndexOfLevelName(l: Level)
    ensures IndexOfName(Name(l)) == Index(l)
  {
    var i := Index(l);
    assert forall j :: 0 <= j < |LevelNames| && j != i ==> LevelNames[j] != LevelNames[i];
  }

  /** A `minLevel` that names no level lets every record through. */
  lemma UnknownMinLevelPassesAll(x: Setting, l: Level)
    requires !(x.Item? && x.value.Str? && x.value.s in LevelNames)
    ensures Index(l) >= MinLevelRank(x)
  {
  }

  // ---------------------------------------------------------------------
  // The environment a record is built in

  /** What the runtime supplies while a record is built: the objects,
      the captured call sites at the point of logging (the first being that
      of the capture itself), the clock, the value a `requestId` function
      returns, the readable files by path, the working directory as segments,
      and whether `types.isNativeError` exists. */
  datatype Env = Env(
    heap: Heap,
    here: seq<CallSite>,
    now: int,
    requestIdResult: Value,
    files: map<string, string>,
    cwd: seq<string>,
    hasIsNativeError: bool)

  // ---------------------------------------------------------------------
  // Error objects

  /** `IErrorObject`. `nativeError` refers to the original error. */
  datatype ErrorObject = ErrorObject(
    nativeError: Id,
    details: seq<Prop>,
    name: Value,
    isError: bool,
    message: Value,
    stack: seq<StackFrame>,
    codeFrame: Option<CodeFrame>)

  /** `x > -1 ? x : 0`. */
  function ClampNonNeg(x: int): nat {
    if x > -1 then x else 0
  }

  /** The start index `splice(n)` uses on an array of length `len`: counted
      from the end when negative, clamped to the array. */
  function SpliceFrom(n: int, len: nat): (r: nat)
    ensures r <= len
  {
    if n < 0 then Max(len + n, 0) else Min(n, len)
  }

  /** A settings value as the integer `splice` converts it to, for the
      values the typed settings hold there: a number is itself, `true` is 1,
      and `false`, `undefined` and `null` are 0. */
  function SpliceArgument(x: Setting): int {
    match x
    case Item(Num(n)) => n
    case Item(Bool(b)) => if b then 1 else 0
    case _ => 0
  }

  /** The frames of an error after the filter of `getCallSites`; none when
      the runtime yields no array for it. */
  function ErrorFrames(o: JsObject): seq<CallSite> {
    if o.PlainObj? && o.capturedStack.Some? then UserFrames(o.capturedStack.value) else []
  }

  /** The frames the error object shows: from the clamped `offset` on, cut
      to the clamped `limit` (`None` is `Infinity`). */
  function StackWindow(frames: seq<CallSite>, offset: int, limit: Option<int>): seq<CallSite> {
    var rest := frames[SpliceFrom(ClampNonNeg(offset), |frames|)..];
    if limit.Some? then rest[..Min(ClampNonNeg(limit.value), |rest|)] else rest
  }

  /** The own enumerable properties but `name`, in order: the rest of the
      destructuring `{ name, ...errorWithoutName }`. */
  function Details(props: seq<Prop>): seq<Prop> {
    if props == [] then []
    else (if props[0].enumerable && props[0].key != "name" then [props[0]] else []) + Details(props[1..])
  }

  /** `error.name ?? "Error"`. */
  function ErrorName(o: JsObject): Value {
    if IsNullish(Get(o, "name")) then Str("Error") else Get(o, "name")
  }

  /** A flag passed where the source has a default parameter of `true`:
      `undefined` takes the default, anything else its truthiness. */
  function ExposeFlag(x: Setting): bool {
    x == Item(Undefined) || IsTruthy(x)
  }

  /** `settings.exposeErrorCodeFrameLinesBeforeAndAfter` as a number of
      lines; any value that is not a number counts as 0. */
  function LinesAround(s: Settings): int {
    var x := Read(s, "exposeErrorCodeFrameLinesBeforeAndAfter");
    if x.Item? && x.value.Num? then x.value.n else 0
  }

  /** The conditions under which `_buildErrorObject` asks for a code frame:
      a non-empty stack, the flag set, a known line of the top frame, and no
      `node_modules` in its path. */
  predicate CodeFrameWanted(stack: seq<StackFrame>, expose: Setting) {
    && |stack| > 0
    && ExposeFlag(expose)
    && stack[0].lineNumber.Some?
    && !Contains(stack[0].fullFilePath, "node_modules")
  }

  /** `_getCodeFrame` on the top frame, reading the file from `files`. */
  function CodeFrameAt(files: map<string, string>, top: StackFrame, k: int): Option<CodeFrame>
    requires top.lineNumber.Some?
  {
    if top.fullFilePath in files
    then Some(CodeFrameOf(Lines(files[top.fullFilePath]), top.lineNumber.value, top.columnNumber, k))
    else None
  }

  /** The stack frames of the error object: the window of the error's
      frames, each normalised. */
  function ErrorStack(o: JsObject, offset: int, limit: Option<int>, cwd: seq<string>): seq<StackFrame> {
    ToStackObjectArray(StackWindow(ErrorFrames(o), offset, limit), cwd)
  }

  /** The error object `_buildErrorObject(error, expose, offset, limit)` builds
      for the error `id` refers to. */
  function ErrorObjectOf(s: Settings, env: Env, id: Id, expose: Setting, offset: int, limit: Option<int>): ErrorObject
    requires id < |env.heap| && env.heap[id].PlainObj?
  {
    var o := env.heap[id];
    var stack := ErrorStack(o, offset, limit, env.cwd);
    ErrorObject(
      id, Details(o.props), ErrorName(o), true, Get(o, "message"), stack,
      if CodeFrameWanted(stack, expose) then CodeFrameAt(env.files, stack[0], LinesAround(s)) else None)
  }

  /** `_buildErrorObject`: the stack is spliced from the clamped offset and
      its length set to the clamped limit; the code frame is read when the
      top frame qualifies. */
  method BuildErrorObject(s: Settings, env: Env, id: Id, expose: Setting, offset: int, limit: Option<int>)
    returns (e: ErrorObject)
    requires id < |env.heap| && env.heap[id].PlainObj?
    ensures e == ErrorObjectOf(s, env, id, expose, offset, limit)
  {
    var o := env.heap[id];
    var relevant := ErrorCallSites(o, offset, limit);
    var stack := ToStackObjectArray(relevant, env.cwd);
    var codeFrame := CodeFrameOfTop(s, env, relevant, stack, expose);
    e := ErrorObject(id, Details(o.props), ErrorName(o), true, Get(o, "message"), stack, codeFrame);
  }

  /** The call sites of `_buildErrorObject` after the splice and the
      assignment to `length`. */
  method ErrorCallSites(o: JsObject, offset: int, limit: Option<int>) returns (relevant: seq<CallSite>)
    requires o.PlainObj?
    ensures relevant == StackWindow(ErrorFrames(o), offset, limit)
  {
    var errorCallSites := GetCallSites(o.capturedStack, false, true);
    var stackOffset := ClampNonNeg(offset);
    relevant := [];
    if errorCallSites.Some? {
      relevant := errorCallSites.value[Min(stackOffset, |errorCallSites.value|)..];
    }
    if limit.Some? {
      var stackLimit := ClampNonNeg(limit.value);
      if stackLimit < |relevant| {
        relevant := relevant[..stackLimit];
      }
    }
  }

  /** The code frame of `_buildErrorObject`, read for the top frame when it
      qualifies. */
  method CodeFrameOfTop(s: Settings, env: Env, relevant: seq<CallSite>, stack: seq<StackFrame>, expose: Setting)
    returns (codeFrame: Option<CodeFrame>)
    requires stack == ToStackObjectArray(relevant, env.cwd)
    ensures codeFrame == if CodeFrameWanted(stack, expose) then CodeFrameAt(env.files, stack[0], LinesAround(s)) else None
  {
    codeFrame := None;
    if |stack| > 0 {
      var top := ToStackFrameObject(relevant[0], env.cwd);
      assert top == stack[0];
      if ExposeFlag(expose) && top.lineNumber.Some? {
        if !Contains(top.fullFilePath, "node_modules") {
          var file := if top.fullFilePath in env.files then Some(env.files[top.fullFilePath]) else None;
          codeFrame := GetCodeFrame(file, top.lineNumber.value, top.columnNumber, LinesAround(s));
        }
      }
    }
  }

  /** The window starts at index `max(offset, 0)` (clamped to the frames)
      and holds at most `max(limit, 0)` consecutive frames; a negative
      offset counts as 0 and a limit of 0 or less leaves nothing. */
  lemma StackWindowClamped(frames: seq<CallSite>, offset: int, limit: Option<int>)
    ensures var w := StackWindow(frames, offset, limit);
      var start := Min(Max(offset, 0), |frames|);
      && |w| == (if limit.Some? then Min(Max(limit.value, 0), |frames| - start) else |frames| - start)
      && w == frames[start..start + |w|]
      && (limit.Some? && limit.value <= 0 ==> w == [])
      && (offset < 0 ==> w == StackWindow(frames, 0, limit))
  {
  }

  /** The error's stack holds the filtered frames from index
      `max(offset, 0)` on, at most `max(limit, 0)` of them. */
  lemma ErrorStackLength(o: JsObject, offset: int, limit: Option<int>, cwd: seq<string>)
    ensures var frames := ErrorFrames(o);
      var start := Min(Max(offset, 0), |frames|);
      |ErrorStack(o, offset, limit, cwd)| == (if limit.Some? then Min(Max(limit.value, 0), |frames| - start) else |frames| - start)
  {
    var frames := ErrorFrames(o);
    assert |ErrorStack(o, offset, limit, cwd)| == |StackWindow(frames, offset, limit)|;
    WindowLength(frames, offset, limit);
  }

  /** Entry `i` of the error's stack is the normalised frame `max(offset, 0) + i`
      of the filtered frames. */
  lemma ErrorStackFrames(o: JsObject, offset: int, limit: Option<int>, cwd: seq<string>)
    ensures var stack := ErrorStack(o, offset, limit, cwd);
      var frames := ErrorFrames(o);
      var start := Min(Max(offset, 0), |frames|);
      forall i {:trigger stack[i]} :: 0 <= i < |stack| ==> start + i < |frames| && stack[i] == ToStackFrameObject(frames[start + i], cwd)
  {
    var frames := ErrorFrames(o);
    var w := StackWindow(frames, offset, limit);
    var stack := ToStackObjectArray(w, cwd);
    assert stack == ErrorStack(o, offset, limit, cwd);
    forall i | 0 <= i < |stack|
      ensures Min(Max(offset, 0), |frames|) + i < |frames|
      ensures stack[i] == ToStackFrameObject(frames[Min(Max(offset, 0), |frames|) + i], cwd)
    {
      WindowAt(frames, offset, limit, i);
    }
  }

  lemma WindowLength(frames: seq<CallSite>, offset: int, limit: Option<int>)
    ensures var start := Min(Max(offset, 0), |frames|);
      |StackWindow(frames, offset, limit)| == (if limit.Some? then Min(Max(limit.value, 0), |frames| - start) else |frames| - start)
  {
  }

  lemma WindowAt(frames: seq<CallSite>, offset: int, limit: Option<int>, i: int)
    requires 0 <= i < |StackWindow(frames, offset, limit)|
    ensures Min(Max(offset, 0), |frames|) + i < |frames|
    ensures StackWindow(frames, offset, limit)[i] == frames[Min(Max(offset, 0), |frames|) + i]
  {
  }

  /** The name falls back to "Error", the details are exactly the own
      enumerable properties other than `name`, in order, and the object is
      marked as an error. */
  lemma ErrorNameAndDetails(s: Settings, env: Env, id: Id, expose: Setting, offset: int, limit: Option<int>, p: Prop)
    requires id < |env.heap| && env.heap[id].PlainObj?
    ensures var e := ErrorObjectOf(s, env, id, expose, offset, limit);
      && e.isError && e.nativeError == id
      && e.name == (if IsNullish(Get(env.heap[id], "name")) then Str("Error") else Get(env.heap[id], "name"))
      && e.message == Get(env.heap[id], "message")
      && e.stack == ErrorStack(env.heap[id], offset, limit, env.cwd)
      && (p in e.details <==> p in env.heap[id].props && p.enumerable && p.key != "name")
      && IsSubsequence(e.details, env.heap[id].props)
  {
    DetailsMembers(env.heap[id].props, p);
    DetailsSubsequence(env.heap[id].props);
  }

  lemma {:induction false} DetailsMembers(props: seq<Prop>, p: Prop)
    ensures p in Details(props) <==> p in props && p.enumerable && p.key != "name"
  {
    if props != [] {
      DetailsMembers(props[1..], p);
      assert props == [props[0]] + props[1..];
    }
  }

  lemma {:induction false} DetailsSubsequence(props: seq<Prop>)
    ensures IsSubsequence(Details(props), props)
  {
    if props != [] {
      DetailsSubsequence(props[1..]);
      var d := Details(props);
      if props[0].enumerable && props[0].key != "name" {
        assert d[0] == props[0] && d[1..] == Details(props[1..]);
      } else {
        assert d == Details(props[1..]);
        SubsequenceCons(d, props);
      }
    }
  }

  /** A code frame is attached exactly when the four conditions hold and the
      file can be read; it is then the window around the top frame's line. */
  lemma CodeFrameIff(s: Settings, env: Env, id: Id, expose: Setting, offset: int, limit: Option<int>)
    requires id < |env.heap| && env.heap[id].PlainObj?
    ensures var e := ErrorObjectOf(s, env, id, expose, offset, limit);
      && (e.codeFrame.Some? <==>
            && |e.stack| > 0
            && (expose == Item(Undefined) || IsTruthy(expose))
            && e.stack[0].lineNumber.Some?
            && !Contains(e.stack[0].fullFilePath, "node_modules")
            && e.stack[0].fullFilePath in env.files)
      && (e.codeFrame.Some? ==>
            e.codeFrame.value == CodeFrameOf(Lines(env.files[e.stack[0].fullFilePath]),
              e.stack[0].lineNumber.value, e.stack[0].columnNumber, LinesAround(s)))
  {
  }

  // ---------------------------------------------------------------------
  // Log records

  /** An entry of `argumentsArray`: the argument itself, or the error object
      built for an error-shaped argument. */
  datatype LogArg = Plain(value: Value) | Failure(error: ErrorObject)

  /** `ILogObject`; the location fields of the source come from one frame,
      so they are kept together in `location`. `A` is the type of the
      argument entries. */
  datatype LogRecord<A> = LogRecord(
    instanceName: Setting,
    loggerName: Setting,
    hostname: Setting,
    requestId: Setting,
    date: int,
    logLevel: Level,
    logLevelId: int,
    location: Option<StackFrame>,
    argumentsArray: seq<A>,
    stack: Option<seq<StackFrame>>)

  /** The frames the record is located by: the filtered frames at the point
      of logging without the first `ignoreStackLevels`. */
  function RelevantFrames(s: Settings, env: Env): seq<CallSite> {
    var callSites := UserFrames(Tail(env.here));
    callSites[SpliceFrom(SpliceArgument(Read(s, "ignoreStackLevels")), |callSites|)..]
  }

  /** `requestId`: called afresh when it is a function. */
  function RequestIdOf(s: Settings, env: Env): Setting {
    if Read(s, "requestId").Item? && Read(s, "requestId").value.Fn? then Item(env.requestIdResult)
    else Read(s, "requestId")
  }

  /** The argument is an object the runtime deems an error. */
  predicate ErrorShaped(env: Env, v: Value) {
    v.Ref? && v.id < |env.heap| && IsError(env.heap[v.id], env.hasIsNativeError)
  }

  /** One entry of `argumentsArray`. */
  function WrapArg(s: Settings, env: Env, v: Value): LogArg {
    if ErrorShaped(env, v)
    then Failure(ErrorObjectOf(s, env, v.id, Read(s, "exposeErrorCodeFrame"), 0, None))
    else Plain(v)
  }

  /** The entries of `argumentsArray` for the arguments with the prefix. */
  function ArgumentsOf(s: Settings, env: Env, all: seq<Value>): (r: seq<LogArg>)
    ensures |r| == |all|
  {
    seq(|all|, i requires 0 <= i < |all| => WrapArg(s, env, all[i]))
  }

  /** The record `_buildLogObject(level, args, exposeStack)` builds. */
  function LogObjectOf(s: Settings, env: Env, level: Level, args: seq<Value>, exposeStack: bool): LogRecord<LogArg> {
    var relevant := RelevantFrames(s, env);
    LogRecord(
      Read(s, "instanceName"), Read(s, "name"), Read(s, "hostname"), RequestIdOf(s, env),
      env.now, level, Index(level),
      if |relevant| > 0 then Some(ToStackFrameObject(relevant[0], env.cwd)) else None,
      ArgumentsOf(s, env, Spread(Read(s, "prefix")) + args),
      if exposeStack then Some(ToStackObjectArray(relevant, env.cwd)) else None)
  }

  /** `_buildLogObject`: the call sites are spliced, the arguments with the
      prefix pushed one by one, error-shaped ones as error objects. */
  method BuildLogObject(s: Settings, env: Env, level: Level, args: seq<Value>, exposeStack: bool)
    returns (r: LogRecord<LogArg>)
    ensures r == LogObjectOf(s, env, level, args, exposeStack)
  {
    var callSites := GetCallSites(Some(env.here), true, true);
    var cs := callSites.value;
    var relevant := cs[SpliceFrom(SpliceArgument(Read(s, "ignoreStackLevels")), |cs|)..];
    assert relevant == RelevantFrames(s, env);
    var location: Option<StackFrame> := None;
    if |relevant| > 0 {
      location := Some(ToStackFrameObject(relevant[0], env.cwd));
    }
    var requestId := RequestIdOf(s, env);
    var argumentsArray := PushArguments(s, env, Spread(Read(s, "prefix")) + args);
    var stack: Option<seq<StackFrame>> := None;
    if exposeStack {
      stack := Some(ToStackObjectArray(relevant, env.cwd));
    }
    r := LogRecord(Read(s, "instanceName"), Read(s, "name"), Read(s, "hostname"), requestId,
      env.now, level, Index(level), location, argumentsArray, stack);
  }

  /** The `forEach` of `_buildLogObject` that fills `argumentsArray`. */
  method PushArguments(s: Settings, env: Env, withPrefix: seq<Value>) returns (argumentsArray: seq<LogArg>)
    ensures argumentsArray == ArgumentsOf(s, env, withPrefix)
  {
    argumentsArray := [];
    var i := 0;
    while i < |withPrefix|
      invariant 0 <= i <= |withPrefix|
      invariant argumentsArray == ArgumentsOf(s, env, withPrefix[..i])
    {
      var a := WrapArgument(s, env, withPrefix[i]);
      ArgumentsOfSnoc(s, env, withPrefix[..i], withPrefix[i]);
      assert withPrefix[..i + 1] == withPrefix[..i] + [withPrefix[i]];
      argumentsArray := argumentsArray + [a];
      i := i + 1;
    }
    assert withPrefix[..i] == withPrefix;
  }

  lemma ArgumentsOfSnoc(s: Settings, env: Env, all: seq<Value>, v: Value)
    ensures ArgumentsOf(s, env, all + [v]) == ArgumentsOf(s, env, all) + [WrapArg(s, env, v)]
  {
    var l := ArgumentsOf(s, env, all + [v]);
    var r := ArgumentsOf(s, env, all) + [WrapArg(s, env, v)];
    forall j | 0 <= j < |l| ensures l[j] == r[j] {
      assert (all + [v])[j] == if j < |all| then all[j] else v;
    }
  }

  /** One step of that `forEach`: an error-shaped argument is replaced by
      the error object built for it. */
  method WrapArgument(s: Settings, env: Env, arg: Value) returns (a: LogArg)
    ensures a == WrapArg(s, env, arg)
  {
    if ErrorShaped(env, arg) {
      var e := BuildErrorObject(s, env, arg.id, Read(s, "exposeErrorCodeFrame"), 0, None);
      a := Failure(e);
    } else {
      a := Plain(arg);
    }
  }

  /** The arguments array holds the prefix and then the arguments, in order,
      one entry each; exactly the error-shaped ones become error objects
      referring to them, built with the logger's code-frame flag. */
  lemma ArgumentsArrayShape(s: Settings, env: Env, level: Level, args: seq<Value>, exposeStack: bool, i: nat)
    requires i < |Spread(Read(s, "prefix"))| + |args|
    ensures var r := LogObjectOf(s, env, level, args, exposeStack);
      var prefix := Spread(Read(s, "prefix"));
      var v := if i < |prefix| then prefix[i] else args[i - |prefix|];
      && |r.argumentsArray| == |prefix| + |args|
      && (r.argumentsArray[i].Failure? <==> ErrorShaped(env, v))
      && (r.argumentsArray[i].Plain? ==> r.argumentsArray[i].value == v)
      && (r.argumentsArray[i].Failure? ==>
            r.argumentsArray[i].error.nativeError == v.id &&
            r.argumentsArray[i].error == ErrorObjectOf(s, env, v.id, Read(s, "exposeErrorCodeFrame"), 0, None))
  {
    var prefix := Spread(Read(s, "prefix"));
    var all := prefix + args;
    assert all[i] == if i < |prefix| then prefix[i] else args[i - |prefix|];
    var r := LogObjectOf(s, env, level, args, exposeStack);
    assert r.argumentsArray == ArgumentsOf(s, env, all);
    assert r.argumentsArray[i] == WrapArg(s, env, all[i]);
  }

  /** The record carries the level's index, which is also the position of
      the level's name in the list of level names. */
  lemma RecordLevel(s: Settings, env: Env, level: Level, args: seq<Value>, exposeStack: bool)
    ensures var r := LogObjectOf(s, env, level, args, exposeStack);
      r.logLevel == level && r.logLevelId == Index(level) && r.logLevelId == IndexOfName(Name(level))
  {
    IndexOfLevelName(level);
  }

  /** The record is located by the first frame after the ignored ones, and
      carries the stack from there exactly when asked to. */
  lemma RecordFields(s: Settings, env: Env, level: Level, args: seq<Value>, exposeStack: bool)
    ensures var r := LogObjectOf(s, env, level, args, exposeStack);
      var frames := UserFrames(Tail(env.here));
      var n := SpliceArgument(Read(s, "ignoreStackLevels"));
      && (0 <= n <= |frames| ==> RelevantFrames(s, env) == frames[n..])
      && (r.location.Some? <==> |RelevantFrames(s, env)| > 0)
      && (r.location.Some? ==> r.location.value == ToStackFrameObject(RelevantFrames(s, env)[0], env.cwd))
      && (r.stack.Some? <==> exposeStack)
      && (r.stack.Some? ==> r.stack.value == ToStackObjectArray(RelevantFrames(s, env), env.cwd))
  {
    var r := LogObjectOf(s, env, level, args, exposeStack);
    var relevant := RelevantFrames(s, env);
    assert r.location == if |relevant| > 0 then Some(ToStackFrameObject(relevant[0], env.cwd)) else None;
    assert r.stack == if exposeStack then Some(ToStackObjectArray(relevant, env.cwd)) else None;
  }

  /** A `requestId` that is a function is called and its result recorded;
      any other value is recorded as it is. */
  lemma RecordRequestId(s: Settings, env: Env, level: Level, args: seq<Value>, exposeStack: bool)
    ensures var r := LogObjectOf(s, env, level, args, exposeStack);
      && (Read(s, "requestId").Item? && Read(s, "requestId").value.Fn? ==> r.requestId == Item(env.requestIdResult))
      && (!(Read(s, "requestId").Item? && Read(s, "requestId").value.Fn?) ==> r.requestId == Read(s, "requestId"))
  {
  }

  // ---------------------------------------------------------------------
  // Dispatch

  datatype Stream = StdOut | StdErr
  datatype Format = Pretty | Json

  /** `{ minLevel, transportLogger }`; `sink` names the transport logger. */
  datatype Transport = Transport(minLevel: string, sink: nat)

  /** What `_handleLog` does with a record: write it to a stream in a
      format, or hand it to a transport's method named after the level. */
  datatype Emission = Written(stream: Stream, format: Format) | Forwarded(sink: nat, level: Level)

  /** The record passes the logger's own threshold and output is on. */
  predicate PrimaryEnabled(s: Settings, id: int) {
    !IsTruthy(Read(s, "suppressStdOutput")) && id >= MinLevelRank(Read(s, "minLevel"))
  }

  /** The write to stdout or stderr, if any. */
  function Primary(s: Settings, r: LogRecord<LogArg>): seq<Emission> {
    if PrimaryEnabled(s, r.logLevelId) then
      var std := if r.logLevelId < MinLevelToStdErr then StdOut else StdErr;
      if Read(s, "type") == Item(Str("pretty")) then [Written(std, Pretty)]
      else if Read(s, "type") == Item(Str("json")) then [Written(std, Json)]
      else []
    else []
  }

  /** The transports whose threshold the record reaches, in order. */
  function Forwards(transports: seq<Transport>, r: LogRecord<LogArg>): seq<Emission> {
    if transports == [] then []
    else
      var last := transports[|transports| - 1];
      Forwards(transports[..|transports| - 1], r)
      + (if r.logLevelId >= IndexOfName(last.minLevel) then [Forwarded(last.sink, r.logLevel)] else [])
  }

  /** Everything `_handleLog` emits for a record, in order. */
  function Dispatch(s: Settings, transports: seq<Transport>, r: LogRecord<LogArg>): seq<Emission> {
    Primary(s, r) + Forwards(transports, r)
  }

  /** The first half of `_handleLog`'s output: the write to stdout or
      stderr in the configured format. */
  method WritePrimary(s: Settings, r: LogRecord<LogArg>) returns (out: seq<Emission>)
    ensures out == Primary(s, r)
  {
    out := [];
    if !IsTruthy(Read(s, "suppressStdOutput")) && r.logLevelId >= MinLevelRank(Read(s, "minLevel")) {
      var std := if r.logLevelId < MinLevelToStdErr then StdOut else StdErr;
      if Read(s, "type") == Item(Str("pretty")) {
        out := [Written(std, Pretty)];
      } else if Read(s, "type") == Item(Str("json")) {
        out := [Written(std, Json)];
      }
    }
  }

  /** The `forEach` over the attached transports: each one whose level the
      record reaches gets it, in order. */
  method ForwardAll(transports: seq<Transport>, r: LogRecord<LogArg>) returns (out: seq<Emission>)
    ensures out == Forwards(transports, r)
  {
    out := [];
    var i := 0;
    while i < |transports|
      invariant 0 <= i <= |transports|
      invariant out == Forwards(transports[..i], r)
    {
      assert transports[..i + 1][..i] == transports[..i];
      var t := transports[i];
      if r.logLevelId >= IndexOfName(t.minLevel) {
        out := out + [Forwarded(t.sink, r.logLevel)];
      }
      i := i + 1;
    }
    assert transports[..i] == transports;
  }

  /** At most one write happens, and one happens exactly when output is not
      suppressed, the level reaches `minLevel` and the type is "pretty" or
      "json"; it goes to stderr exactly from index 4 (warn) on. */
  lemma PrimaryIff(s: Settings, r: LogRecord<LogArg>)
    ensures |Primary(s, r)| <= 1
    ensures |Primary(s, r)| == 1 <==>
      && !IsTruthy(Read(s, "suppressStdOutput"))
      && r.logLevelId >= MinLevelRank(Read(s, "minLevel"))
      && (Read(s, "type") == Item(Str("pretty")) || Read(s, "type") == Item(Str("json")))
    ensures |Primary(s, r)| == 1 ==>
      && (Primary(s, r)[0].stream == StdErr <==> r.logLevelId >= 4)
      && (Primary(s, r)[0].format == Json <==> Read(s, "type") == Item(Str("json")))
    ensures Read(s, "type") == Item(Str("hidden")) ==> Primary(s, r) == []
  {
  }

  /** Warnings, errors and fatal errors go to stderr, the others to stdout. */
  lemma StreamOfLevel(s: Settings, env: Env, level: Level, args: seq<Value>, exposeStack: bool)
    requires |Primary(s, LogObjectOf(s, env, level, args, exposeStack))| == 1
    ensures Primary(s, LogObjectOf(s, env, level, args, exposeStack))[0].stream
         == (if level in {Warn, Error, Fatal} then StdErr else StdOut)
  {
  }

  /** A transport receives the record exactly when the record reaches the
      transport's level. */
  lemma ForwardsIff(transports: seq<Transport>, r: LogRecord<LogArg>, sink: nat)
    ensures Forwarded(sink, r.logLevel) in Forwards(transports, r) <==>
      exists t :: t in transports && t.sink == sink && r.logLevelId >= IndexOfName(t.minLevel)
  {
    if Forwarded(sink, r.logLevel) in Forwards(transports, r) {
      ForwardedFrom(transports, r, sink);
    } else {
      forall t | t in transports && t.sink == sink
        ensures r.logLevelId < IndexOfName(t.minLevel)
      {
        if r.logLevelId >= IndexOfName(t.minLevel) {
          ForwardedTo(transports, r, t);
        }
      }
    }
  }

  /** Only a transport the record reaches is served. */
  lemma {:induction false} ForwardedFrom(transports: seq<Transport>, r: LogRecord<LogArg>, sink: nat)
    requires Forwarded(sink, r.logLevel) in Forwards(transports, r)
    ensures exists t :: t in transports && t.sink == sink && r.logLevelId >= IndexOfName(t.minLevel)
  {
    var init := transports[..|transports| - 1];
    var last := transports[|transports| - 1];
    assert transports == init + [last];
    if Forwarded(sink, r.logLevel) in Forwards(init, r) {
      ForwardedFrom(init, r, sink);
      var t :| t in init && t.sink == sink && r.logLevelId >= IndexOfName(t.minLevel);
      assert t in transports;
    } else {
      assert last in transports;
    }
  }

  /** Every transport the record reaches is served. */
  lemma {:induction false} ForwardedTo(transports: seq<Transport>, r: LogRecord<LogArg>, t: Transport)
    requires t in transports && r.logLevelId >= IndexOfName(t.minLevel)
    ensures Forwarded(t.sink, r.logLevel) in Forwards(transports, r)
  {
    var init := transports[..|transports| - 1];
    var last := transports[|transports| - 1];
    assert transports == init + [last];
    if t != last {
      ForwardedTo(init, r, t);
    }
  }

  /** Each transport gets at most one emission, and every emission of the
      forwarding part is a forward of the record's level. */
  lemma {:induction false} ForwardsShape(transports: seq<Transport>, r: LogRecord<LogArg>)
    ensures |Forwards(transports, r)| <= |transports|
    ensures forall e :: e in Forwards(transports, r) ==> e.Forwarded? && e.level == r.logLevel
  {
    if transports != [] {
      ForwardsShape(transports[..|transports| - 1], r);
    }
  }

  /** Transports are served in registration order: those after the first
      `n` are served after those among the first `n`. */
  lemma {:induction false} ForwardsAppend(a: seq<Transport>, b: seq<Transport>, r: LogRecord<LogArg>)
    ensures Forwards(a + b, r) == Forwards(a, r) + Forwards(b, r)
    decreases |b|
  {
    if b != [] {
      var init := b[..|b| - 1];
      assert (a + b)[..|a + b| - 1] == a + init;
      ForwardsAppend(a, init, r);
    } else {
      assert a + b == a;
    }
  }

  /** Transports are served whatever the output settings say: the forwarded
      part of the dispatch does not depend on the settings at all. */
  lemma ForwardingIgnoresSuppression(s1: Settings, s2: Settings, transports: seq<Transport>, r: LogRecord<LogArg>)
    ensures Dispatch(s1, transports, r)[|Primary(s1, r)|..] == Dispatch(s2, transports, r)[|Primary(s2, r)|..]
    ensures IsTruthy(Read(s1, "suppressStdOutput")) ==> Dispatch(s1, transports, r) == Forwards(transports, r)
  {
  }

  /** `exposeStack` as `_handleLog` passes it on: `trace` forces it; the other
      levels take `settings.exposeStack`, which the default parameter of
      `_buildLogObject` turns into `true` when it is `undefined`. */
  function StackExposed(s: Settings, level: Level): bool {
    level == Trace || ExposeFlag(Read(s, "exposeStack"))
  }

  // ---------------------------------------------------------------------
  // JSON form

  /** An entry of the JSON form of `argumentsArray`: an error object without
      its native error but with its formatted text, an object carrying a
      truthy `isError` spread likewise (named by its id), or the text an
      inspection or formatting gives. */
  datatype JsonArg =
    | ErrorJson(details: seq<Prop>, name: Value, isError: bool, message: Value,
                stack: seq<StackFrame>, codeFrame: Option<CodeFrame>, errorString: string)
    | MarkedJson(source: Id, errorString: string)
    | Text(text: string)

  /** One entry of `_logObjectToJson`. `inspect` and `format` stand for
      `_inspectAndHideSensitive` and `_formatAndHideSensitive` with the JSON
      inspect options. */
  function ArgToJson(heap: Heap, a: LogArg, inspect: Value -> string, format: Value -> string): JsonArg {
    match a
    case Failure(e) =>
      ErrorJson(e.details, e.name, e.isError, e.message, e.stack, e.codeFrame, format(Ref(e.nativeError)))
    case Plain(v) =>
      if v.Ref? && v.id < |heap| && Truthy(Get(heap[v.id], "isError"))
      then MarkedJson(v.id, format(Get(heap[v.id], "nativeError")))
      else if IsObjectType(v) then Text(inspect(v))
      else Text(format(v))
  }

  /** `_logObjectToJson`: the record with its arguments converted. */
  function LogObjectToJson(heap: Heap, r: LogRecord<LogArg>, inspect: Value -> string, format: Value -> string): LogRecord<JsonArg> {
    LogRecord(r.instanceName, r.loggerName, r.hostname, r.requestId, r.date, r.logLevel, r.logLevelId,
      r.location,
      seq(|r.argumentsArray|, i requires 0 <= i < |r.argumentsArray| => ArgToJson(heap, r.argumentsArray[i], inspect, format)),
      r.stack)
  }

  /** A record's fields other than its arguments. */
  function Fields<A>(r: LogRecord<A>): LogRecord<bool> {
    LogRecord(r.instanceName, r.loggerName, r.hostname, r.requestId, r.date, r.logLevel, r.logLevelId,
      r.location, [], r.stack)
  }

  /** The JSON form keeps every field and the number and order of the
      arguments; an error object keeps its fields, drops the native error and
      gains its formatted text; objects are inspected and primitives formatted. */
  lemma JsonKeepsRecord(heap: Heap, r: LogRecord<LogArg>, inspect: Value -> string, format: Value -> string, i: nat)
    requires i < |r.argumentsArray|
    ensures var j := LogObjectToJson(heap, r, inspect, format);
      && |j.argumentsArray| == |r.argumentsArray|
      && Fields(j) == Fields(r)
      && (r.argumentsArray[i].Failure? ==>
            var e := r.argumentsArray[i].error;
            j.argumentsArray[i] == ErrorJson(e.details, e.name, e.isError, e.message, e.stack, e.codeFrame, format(Ref(e.nativeError))))
      && (r.argumentsArray[i].Plain? && !IsObjectType(r.argumentsArray[i].value) ==>
            j.argumentsArray[i] == Text(format(r.argumentsArray[i].value)))
      && (r.argumentsArray[i].Plain? && r.argumentsArray[i].value.Null? ==>
            j.argumentsArray[i] == Text(inspect(Null)))
  {
  }
}
