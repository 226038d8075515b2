/** The call-site resolver of `LoggerHelper`: path clean-up relative to the
    working directory, the filter that drops runtime-internal frames, and the
    normalisation of a raw call site into a stack-frame record. */
module CallSites {
  import opened Wrappers
  import opened JsText

  /** The path separator (`path.sep` on POSIX systems). */
  const Sep: char := '/'

  /** A raw call-site handle as the runtime's stack introspection yields it;
      `None` is a getter that returns `null`. */
  datatype CallSite = CallSite(
    fileName: Option<string>,
    lineNumber: Option<int>,
    columnNumber: Option<int>,
    isConstructor: Option<bool>,
    functionName: Option<string>,
    typeName: Option<string>,
    methodName: Option<string>)

  /** A normalised frame (`IStackFrame`); `None` is a field left `undefined`. */
  datatype StackFrame = StackFrame(
    filePath: string,
    fullFilePath: string,
    fileName: string,
    lineNumber: Option<int>,
    columnNumber: Option<int>,
    isConstructor: Option<bool>,
    functionName: Option<string>,
    typeName: Option<string>,
    methodName: Option<string>)

  // ---------------------------------------------------------------------
  // cleanUpFilePath

  /** The segments of `parts` that differ from the working-directory segment
      at the same position (a segment past the end of `cwd` always differs). */
  function Kept(parts: seq<string>, cwd: seq<string>): seq<string> {
    if parts == [] then []
    else
      (if cwd != [] && parts[0] == cwd[0] then [] else [parts[0]])
      + Kept(parts[1..], if cwd == [] then [] else cwd[1..])
  }

  /** `cleanUpFilePath`: the kept segments joined by the separator, without a
      leading separator. */
  function CleanUpFilePath(fileName: string, cwd: seq<string>): string {
    Join(Kept(Split(fileName, Sep), cwd), Sep)
  }

  /** Whether a segment is dropped depends only on its own position: the
      kept segments of a concatenation are those of each part, the second part
      compared with the working directory from its own starting position. */
  lemma {:induction false} KeptAppend(a: seq<string>, b: seq<string>, cwd: seq<string>)
    ensures Kept(a + b, cwd) == Kept(a, cwd) + Kept(b, if |a| < |cwd| then cwd[|a|..] else [])
  {
    if a == [] {
      assert a + b == b;
    } else {
      var rest := if cwd == [] then [] else cwd[1..];
      var head := if cwd != [] && a[0] == cwd[0] then [] else [a[0]];
      var shifted := if |a| < |cwd| then cwd[|a|..] else [];
      assert (if |a[1..]| < |rest| then rest[|a[1..]|..] else []) == shifted;
      KeptAppend(a[1..], b, rest);
      assert (a + b)[1..] == a[1..] + b;
      calc {
        Kept(a + b, cwd);
        head + Kept(a[1..] + b, rest);
        head + (Kept(a[1..], rest) + Kept(b, shifted));
        { ConcatAssoc(head, Kept(a[1..], rest), Kept(b, shifted)); }
        (head + Kept(a[1..], rest)) + Kept(b, shifted);
        Kept(a, cwd) + Kept(b, shifted);
      }
    }
  }

  lemma ConcatAssoc<T>(x: seq<T>, y: seq<T>, z: seq<T>)
    ensures x + (y + z) == (x + y) + z
  {
  }

  /** The working directory's own segments, when the path starts with them,
      are exactly what is removed. */
  lemma {:induction false} KeptUnderCwd(cwd: seq<string>, rest: seq<string>)
    ensures Kept(cwd + rest, cwd) == rest
  {
    if cwd == [] {
      KeptNoCwd(rest);
      assert cwd + rest == rest;
    } else {
      KeptUnderCwd(cwd[1..], rest);
      assert (cwd + rest)[1..] == cwd[1..] + rest;
    }
  }

  /** Without a working directory every segment is kept. */
  lemma {:induction false} KeptNoCwd(parts: seq<string>)
    ensures Kept(parts, []) == parts
  {
    if parts != [] {
      KeptNoCwd(parts[1..]);
    }
  }

  /** Kept segments are segments of the path, in their original order, and a
      segment is dropped only where it equals the working-directory segment at
      its position. */
  lemma {:induction false} KeptCount(parts: seq<string>, cwd: seq<string>)
    ensures |Kept(parts, cwd)| == |parts| - Matches(parts, cwd)
    ensures IsSubsequence(Kept(parts, cwd), parts)
  {
    if parts != [] {
      var rest := if cwd == [] then [] else cwd[1..];
      KeptCount(parts[1..], rest);
      if cwd != [] && parts[0] == cwd[0] {
        assert Kept(parts, cwd) == Kept(parts[1..], rest);
        SubsequenceCons(Kept(parts, cwd), parts);
      } else {
        assert Kept(parts, cwd) == [parts[0]] + Kept(parts[1..], rest);
      }
    }
  }

  /** The number of positions at which the path and the working directory agree. */
  function Matches(parts: seq<string>, cwd: seq<string>): nat {
    if parts == [] || cwd == [] then 0
    else (if parts[0] == cwd[0] then 1 else 0) + Matches(parts[1..], cwd[1..])
  }

  /** `sub` is obtained from `s` by deleting elements. */
  predicate IsSubsequence<T(==)>(sub: seq<T>, s: seq<T>) {
    if sub == [] then true
    else if s == [] then false
    else if sub[0] == s[0] then IsSubsequence(sub[1..], s[1..])
    else IsSubsequence(sub, s[1..])
  }

  lemma {:induction false} SubsequenceCons<T>(sub: seq<T>, s: seq<T>)
    requires s != [] && IsSubsequence(sub, s[1..])
    ensures IsSubsequence(sub, s)
    decreases |s|, |sub|
  {
    if sub != [] && sub[0] == s[0] {
      SubsequenceDrop(sub, s[1..]);
    }
  }

  lemma {:induction false} SubsequenceDrop<T>(sub: seq<T>, s: seq<T>)
    requires sub != [] && IsSubsequence(sub, s)
    ensures IsSubsequence(sub[1..], s)
    decreases |s|, |sub|
  {
    if sub[0] == s[0] {
      if sub[1..] != [] {
        SubsequenceCons(sub[1..], s);
      }
    } else {
      SubsequenceDrop(sub, s[1..]);
      SubsequenceCons(sub[1..], s);
    }
  }

  /** A path inside the working directory is cleaned to its path relative to
      that directory: working directory `/a/b` and `/a/b/c/d.js` give `c/d.js`. */
  lemma CleanUpUnderCwd(cwd: seq<string>, rel: string)
    requires |cwd| >= 1
    requires forall k :: 0 <= k < |cwd| ==> Sep !in cwd[k]
    ensures CleanUpFilePath(Join(cwd, Sep) + [Sep] + rel, cwd) == rel
  {
    SplitAfterJoin(cwd, rel);
    KeptUnderCwd(cwd, Split(rel, Sep));
    JoinSplit(rel, Sep);
  }

  lemma {:induction false} SplitAfterJoin(parts: seq<string>, rel: string)
    requires |parts| >= 1
    requires forall k :: 0 <= k < |parts| ==> Sep !in parts[k]
    ensures Split(Join(parts, Sep) + [Sep] + rel, Sep) == parts + Split(rel, Sep)
  {
    if |parts| == 1 {
      SplitPrefix(parts[0], rel, Sep);
    } else {
      var tail := parts[1..];
      var rest := Join(tail, Sep) + [Sep] + rel;
      SplitAfterJoin(tail, rel);
      assert Join(parts, Sep) == parts[0] + [Sep] + Join(tail, Sep);
      calc {
        Join(parts, Sep) + [Sep] + rel;
        (parts[0] + [Sep] + Join(tail, Sep)) + [Sep] + rel;
        { ConcatAssoc(parts[0] + [Sep], Join(tail, Sep), [Sep]);
          ConcatAssoc(parts[0] + [Sep], Join(tail, Sep) + [Sep], rel); }
        parts[0] + [Sep] + rest;
      }
      SplitPrefix(parts[0], rest, Sep);
      calc {
        Split(Join(parts, Sep) + [Sep] + rel, Sep);
        Split(parts[0] + [Sep] + rest, Sep);
        [parts[0]] + Split(rest, Sep);
        [parts[0]] + (tail + Split(rel, Sep));
        { ConcatAssoc([parts[0]], tail, Split(rel, Sep)); }
        ([parts[0]] + tail) + Split(rel, Sep);
        { assert parts == [parts[0]] + tail; }
        parts + Split(rel, Sep);
      }
    }
  }

  /** With no working directory the path is returned unchanged. */
  lemma CleanUpWithoutCwd(fileName: string)
    ensures CleanUpFilePath(fileName, []) == fileName
  {
    KeptNoCwd(Split(fileName, Sep));
    JoinSplit(fileName, Sep);
  }

  /** An instance of the general `KeptCount` and `CleanUpUnderCwd`: removal
      is positional rather than a common-prefix cut, so a segment equal to the
      working-directory segment at the same depth is dropped even after the
      paths have diverged (`/opt/app/x.js` under `/home/app` gives `opt/x.js`). */
  lemma PositionalRemoval()
    ensures Kept(["", "opt", "app", "x.js"], ["", "home", "app"]) == ["opt", "x.js"]
    ensures Join(["opt", "x.js"], Sep) == "opt/x.js"
  {
    var parts: seq<string> := ["", "opt", "app", "x.js"];
    var cwd: seq<string> := ["", "home", "app"];
    assert Kept(parts[3..], []) == ["x.js"];
    assert Kept(parts[2..], cwd[2..]) == ["x.js"];
    assert Kept(parts[1..], cwd[1..]) == ["opt", "x.js"];
  }

  // ---------------------------------------------------------------------
  // getCallSites

  /** A frame the filter keeps: it has a non-empty file name that does not
      start with a runtime-internal prefix. */
  predicate IsUserFrame(c: CallSite) {
    c.fileName.Some? && c.fileName.value != "" &&
    !StartsWith(c.fileName.value, "internal/") &&
    !StartsWith(c.fileName.value, "module.js") &&
    !StartsWith(c.fileName.value, "bootstrap_node.js")
  }

  /** The frames of `stack` that the filter keeps, in order. */
  function UserFrames(stack: seq<CallSite>): seq<CallSite> {
    if stack == [] then []
    else (if IsUserFrame(stack[0]) then [stack[0]] else []) + UserFrames(stack[1..])
  }

  /** `getCallSites(error, cleanUp)`. `captured` is what the stack
      introspection yields (`None` for a non-array result); at the current
      point (`error == null`) its first frame, that of `getCallSites` itself,
      is dropped. */
  method GetCallSites(captured: Option<seq<CallSite>>, atCurrentPoint: bool, cleanUp: bool)
    returns (r: Option<seq<CallSite>>)
    requires atCurrentPoint ==> captured.Some?
    ensures !cleanUp || captured.None? ==>
      r == (if atCurrentPoint then Some(Tail(captured.value)) else captured)
    ensures cleanUp && captured.Some? ==>
      r == Some(UserFrames(if atCurrentPoint then Tail(captured.value) else captured.value))
  {
    var stack := if atCurrentPoint then Some(Tail(captured.value)) else captured;
    if !cleanUp || stack.None? {
      return stack;
    }
    var s := stack.value;
    var kept: seq<CallSite> := [];
    var i := 0;
    while i < |s|
      invariant 0 <= i <= |s|
      invariant UserFrames(s) == kept + UserFrames(s[i..])
    {
      assert s[i..] == [s[i]] + s[i + 1..];
      if IsUserFrame(s[i]) {
        kept := kept + [s[i]];
      }
      i := i + 1;
    }
    assert UserFrames(s[i..]) == [];
    assert kept + [] == kept;
    assert s == if atCurrentPoint then Tail(captured.value) else captured.value;
    return Some(kept);
  }

  /** `slice(1)`. */
  function Tail<T>(s: seq<T>): seq<T> {
    if s == [] then [] else s[1..]
  }

  /** Exactly the user frames of the stack are kept. */
  lemma {:induction false} UserFramesMembers(stack: seq<CallSite>, c: CallSite)
    ensures c in UserFrames(stack) <==> c in stack && IsUserFrame(c)
  {
    if stack != [] {
      UserFramesMembers(stack[1..], c);
      assert stack == [stack[0]] + stack[1..];
    }
  }

  /** The filter keeps a subsequence of the stack. */
  lemma {:induction false} UserFramesSubsequence(stack: seq<CallSite>)
    ensures IsSubsequence(UserFrames(stack), stack)
  {
    if stack != [] {
      UserFramesSubsequence(stack[1..]);
      if IsUserFrame(stack[0]) {
        assert UserFrames(stack) == [stack[0]] + UserFrames(stack[1..]);
      } else {
        assert UserFrames(stack) == UserFrames(stack[1..]);
        SubsequenceCons(UserFrames(stack), stack);
      }
    }
  }

  /** Filtering the filtered stack changes nothing. */
  lemma {:induction false} UserFramesIdempotent(stack: seq<CallSite>)
    ensures UserFrames(UserFrames(stack)) == UserFrames(stack)
  {
    if stack != [] {
      UserFramesIdempotent(stack[1..]);
      if IsUserFrame(stack[0]) {
        var r := UserFrames(stack);
        assert r == [stack[0]] + UserFrames(stack[1..]);
        assert r[1..] == UserFrames(stack[1..]);
        assert UserFrames(r) == [r[0]] + UserFrames(r[1..]);
      } else {
        assert UserFrames(stack) == UserFrames(stack[1..]);
      }
    }
  }

  /** The filter treats each frame on its own, keeping the order of the stack. */
  lemma {:induction false} UserFramesAppend(a: seq<CallSite>, b: seq<CallSite>)
    ensures UserFrames(a + b) == UserFrames(a) + UserFrames(b)
  {
    if a == [] {
      assert a + b == b;
    } else {
      UserFramesAppend(a[1..], b);
      assert (a + b)[1..] == a[1..] + b;
    }
  }

  // ---------------------------------------------------------------------
  // toStackFrameObject

  /** `toStackFrameObject`: the file name (empty when absent) without its
      first `file://`, cleaned, and its base name; absent getters stay absent. */
  function ToStackFrameObject(c: CallSite, cwd: seq<string>): (f: StackFrame)
    ensures c.fileName.None? ==> f.fullFilePath == "" && f.fileName == ""
    ensures Sep !in f.fileName
    ensures c.fileName.Some? && !Contains(c.fileName.value, "file://") ==> f.fullFilePath == c.fileName.value
    ensures f.filePath == CleanUpFilePath(f.fullFilePath, cwd)
    ensures f.lineNumber == c.lineNumber && f.columnNumber == c.columnNumber
    ensures f.isConstructor == c.isConstructor && f.functionName == c.functionName
    ensures f.typeName == c.typeName && f.methodName == c.methodName
  {
    var full := RemoveFirst(c.fileName.GetOr(""), "file://");
    StackFrame(CleanUpFilePath(full, cwd), full, Basename(full, Sep),
      c.lineNumber, c.columnNumber, c.isConstructor,
      c.functionName, c.typeName, c.methodName)
  }

  /** A file URL loses its scheme: `file:///a/b.js` becomes `/a/b.js`. */
  lemma FileUrlStripped(path: string)
    ensures RemoveFirst("file://" + path, "file://") == path
  {
    assert OccursAt("file://" + path, "file://", 0);
  }

  /** A frame whose file is a file URL inside the working directory gets the
      plain path as its full path and the path relative to the working
      directory as its cleaned path. */
  lemma FileUrlFrameUnderCwd(c: CallSite, cwd: seq<string>, rel: string)
    requires |cwd| >= 1 && forall k :: 0 <= k < |cwd| ==> Sep !in cwd[k]
    requires c.fileName == Some("file://" + (Join(cwd, Sep) + [Sep] + rel))
    ensures ToStackFrameObject(c, cwd).fullFilePath == Join(cwd, Sep) + [Sep] + rel
    ensures ToStackFrameObject(c, cwd).filePath == rel
  {
    FileUrlStripped(Join(cwd, Sep) + [Sep] + rel);
    CleanUpUnderCwd(cwd, rel);
  }

  /** `_toStackObjectArray`: every frame normalised, in order. */
  function ToStackObjectArray(sites: seq<CallSite>, cwd: seq<string>): (r: seq<StackFrame>)
    ensures |r| == |sites|
  {
    seq(|sites|, i requires 0 <= i < |sites| => ToStackFrameObject(sites[i], cwd))
  }
}
