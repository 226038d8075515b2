/** Logger settings as the source keeps them: plain objects merged by
    spreading, here maps from key to setting value where the right operand of
    `+` wins, as the later spread does. A key that is present with the value
    `undefined` is `Item(Undefined)`; an absent key reads the same way. */
module Settings {
  import opened Wrappers
  import opened JsValues

  /** A settings value: a JavaScript value, an array of values (`prefix`,
      `maskValuesOfKeys`, `maskAnyRegEx`), or an object the model does not
      look into (colour maps, inspect options, output streams); `tag` tells
      such objects apart. */
  datatype Setting = Item(value: Value) | List(items: seq<Value>) | Record(tag: string)

  type Settings = map<string, Setting>

  /** `settings[key]`. */
  function Read(s: Settings, key: string): Setting {
    if key in s then s[key] else Item(Undefined)
  }

  /** `x == null`. */
  predicate Nullish(x: Setting) {
    x.Item? && IsNullish(x.value)
  }

  /** JavaScript truthiness of a settings value. */
  predicate IsTruthy(x: Setting) {
    !x.Item? || Truthy(x.value)
  }

  /** `a ?? b`. */
  function Coalesce(a: Setting, b: Setting): (r: Setting)
    ensures !Nullish(a) ==> r == a
    ensures Nullish(a) ==> r == b
  {
    if Nullish(a) then b else a
  }

  /** The elements `[...x]` yields: an array's items, a string's characters.
      Spreading anything else throws in the source; the model yields none. */
  function Spread(x: Setting): (r: seq<Value>)
    ensures x.List? ==> r == x.items
  {
    match x
    case List(items) => items
    case Item(Str(s)) => seq(|s|, i requires 0 <= i < |s| => Str([s[i]]))
    case _ => []
  }

  // ---------------------------------------------------------------------
  // The `settings` getter

  /** `get settings()`: the parent-or-default settings overlaid by the own
      overrides, except `prefix`, which is the inherited prefix followed by
      the own one (`[]` when the own one is `null` or `undefined`). */
  function Effective(inherited: Settings, own: Settings): Settings {
    var myPrefix := if Nullish(Read(own, "prefix")) then [] else Spread(Read(own, "prefix"));
    (inherited + own)["prefix" := List(Spread(Read(inherited, "prefix")) + myPrefix)]
  }

  /** Key by key: an own override wins, otherwise the inherited value shows;
      `prefix` always holds the concatenation. */
  lemma EffectiveLookup(inherited: Settings, own: Settings, key: string)
    ensures var e := Effective(inherited, own);
      && (key != "prefix" ==> (key in e <==> key in inherited || key in own))
      && (key != "prefix" && key in own ==> e[key] == own[key])
      && (key != "prefix" && key !in own && key in inherited ==> e[key] == inherited[key])
      && Read(e, "prefix").List?
      && Spread(Read(e, "prefix")) == Spread(Read(inherited, "prefix")) + (if Nullish(Read(own, "prefix")) then [] else Spread(Read(own, "prefix")))
  {
  }

  /** The effective settings have every key either side has. */
  lemma EffectiveKeys(inherited: Settings, own: Settings)
    ensures Effective(inherited, own).Keys == inherited.Keys + own.Keys + {"prefix"}
  {
  }

  /** Overlaying a map whose keys the other already has changes nothing:
      `{...a, ...b}` is `b` when `b` has every key of `a`. */
  lemma OverlayAbsorbed(a: Settings, b: Settings)
    requires a.Keys <= b.Keys
    ensures a + b == b
  {
  }

  // ---------------------------------------------------------------------
  // Normalisation done by `setSettings`

  /** The own overrides after `setSettings` has filled in the identifiers:
      `instanceName` falls back to the OWN `hostname`, and `name` is set,
      to `undefined` when absent. Both keys are then present, so neither is
      ever inherited. */
  function Normalize(own: Settings): (r: Settings)
    ensures r.Keys == own.Keys + {"instanceName", "name"}
    ensures Read(r, "instanceName") == Coalesce(Read(own, "instanceName"), Read(own, "hostname"))
    ensures Read(r, "name") == Coalesce(Read(own, "name"), Item(Undefined))
    ensures forall k :: k in own && k != "instanceName" && k != "name" ==> r[k] == own[k]
  {
    own["instanceName" := Coalesce(Read(own, "instanceName"), Read(own, "hostname"))]
       ["name" := Coalesce(Read(own, "name"), Item(Undefined))]
  }

  /** Normalising twice is normalising once, so a propagation that merges no
      new overrides leaves the own overrides as they are. */
  lemma NormalizeIdempotent(own: Settings)
    ensures Normalize(Normalize(own)) == Normalize(own)
  {
    var n := Normalize(own);
    var nn := Normalize(n);
    assert Read(n, "instanceName") == Coalesce(Read(own, "instanceName"), Read(own, "hostname"));
    assert Read(nn, "instanceName") == Read(n, "instanceName") by {
      if Nullish(Read(n, "instanceName")) {
        assert Nullish(Read(own, "hostname"));
        assert Read(n, "hostname") == Read(own, "hostname");
      }
    }
    assert nn.Keys == n.Keys;
    forall k | k in n ensures nn[k] == n[k] {
    }
  }

  /** The effective `name` of a logger is its own, whatever the inherited
      settings say. */
  lemma NameNeverInherited(inherited: Settings, own: Settings)
    ensures Read(Effective(inherited, Normalize(own)), "name") == Coalesce(Read(own, "name"), Item(Undefined))
    ensures Read(Effective(inherited, Normalize(own)), "instanceName")
         == Coalesce(Read(own, "instanceName"), Read(own, "hostname"))
  {
  }

  // ---------------------------------------------------------------------
  // The defaults of the constructor

  /** `_parentOrDefaultSettings` as the constructor first sets it, before the
      host name is filled in. */
  const DefaultsBase: Settings := map[
    "type" := Item(Str("pretty")),
    "instanceName" := Item(Undefined),
    "hostname" := Item(Undefined),
    "name" := Item(Undefined),
    "setCallerAsLoggerName" := Item(Bool(false)),
    "requestId" := Item(Undefined),
    "minLevel" := Item(Str("silly")),
    "exposeStack" := Item(Bool(false)),
    "exposeErrorCodeFrame" := Item(Bool(true)),
    "exposeErrorCodeFrameLinesBeforeAndAfter" := Item(Num(5)),
    "ignoreStackLevels" := Item(Num(3)),
    "suppressStdOutput" := Item(Bool(false)),
    "overwriteConsole" := Item(Bool(false)),
    "colorizePrettyLogs" := Item(Bool(true)),
    "logLevelsColors" := Record("logLevelsColors"),
    "prettyInspectHighlightStyles" := Record("prettyInspectHighlightStyles"),
    "prettyInspectOptions" := Record("prettyInspectOptions"),
    "jsonInspectOptions" := Record("jsonInspectOptions"),
    "delimiter" := Item(Str(" ")),
    "dateTimePattern" := Item(Undefined),
    "dateTimeTimezone" := Item(Undefined),
    "prefix" := List([]),
    "maskValuesOfKeys" := List([Str("password")]),
    "maskAnyRegEx" := List([]),
    "maskPlaceholder" := Item(Str("[***]")),
    "printLogMessageInNewLine" := Item(Bool(false)),
    "displayDateTime" := Item(Bool(true)),
    "displayLogLevel" := Item(Bool(true)),
    "displayInstanceName" := Item(Bool(false)),
    "displayLoggerName" := Item(Bool(true)),
    "displayRequestId" := Item(Bool(true)),
    "displayFilePath" := Item(Str("hideNodeModulesOnly")),
    "displayFunctionName" := Item(Bool(true)),
    "displayTypes" := Item(Bool(false)),
    "stdOut" := Record("stdout"),
    "stdErr" := Record("stderr"),
    "attachedTransports" := List([])
  ]

  /** The keys every logger's inherited settings have. */
  const DefaultKeys: set<string> := DefaultsBase.Keys

  /** The defaults with the host name filled in. */
  function Defaults(hostname: Setting): (d: Settings)
    ensures Read(d, "hostname") == hostname
  {
    DefaultsBase["hostname" := hostname]
  }

  /** Filling in the host name adds no key: the defaults have exactly the
      default keys, `hostname` among them. */
  lemma DefaultsKeys(hostname: Setting)
    ensures Defaults(hostname).Keys == DefaultKeys
    ensures "hostname" in DefaultKeys
  {
    assert "hostname" in DefaultsBase;
  }

  /** `parentSettings?.hostname ?? hostname()`, with the operating system's
      host name passed in. */
  function DefaultHostname(parent: Option<Settings>, osHostname: string): (h: Setting)
    ensures parent.None? ==> h == Item(Str(osHostname))
  {
    if parent.Some? then Coalesce(Read(parent.value, "hostname"), Item(Str(osHostname)))
    else Item(Str(osHostname))
  }
}
