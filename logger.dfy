/** The logger itself (`LoggerWithoutCallSite`): a tree of loggers, each with
    its own overrides, the settings it inherited from its parent or the
    defaults, its attached transports and its registered children. The
    datatype `LoggerTree` is the value a `Logger` object and the loggers below
    it stand for; the operations on trees specify the methods of the class,
    and the lemmas about them state what propagation keeps. */
module Loggers {
  import opened Wrappers
  import opened JsValues
  import opened Settings
  import opened Records

  // ---------------------------------------------------------------------
  // The tree of loggers as a value

  /** A logger and the loggers registered below it. */
  datatype LoggerTree = Node(own: Settings, inherited: Settings, transports: seq<Transport>, kids: seq<LoggerTree>)

  /** The `settings` getter of a logger. */
  function Eff(t: LoggerTree): Settings {
    Effective(t.inherited, t.own)
  }

  /** `setSettings(s, p)` on a logger and, through the propagation with
      `setSettings({}, this.settings)`, on everything below it. */
  function SetTree(t: LoggerTree, s: Settings, p: Option<Settings>): LoggerTree
    decreases t
  {
    var own := Normalize(t.own + s);
    var inherited := if p.Some? then t.inherited + p.value else t.inherited;
    Node(own, inherited, t.transports,
      seq(|t.kids|, i requires 0 <= i < |t.kids| => SetTree(t.kids[i], map[], Some(Effective(inherited, own)))))
  }

  /** A new logger as the constructor builds it: no overrides, the defaults
      with the host name filled in, then `setSettings(settings ?? {}, parent)`. */
  function NewTree(settings: Option<Settings>, parent: Option<Settings>, osHostname: string): LoggerTree {
    SetTree(Node(map[], Defaults(DefaultHostname(parent, osHostname)), [], []), settings.GetOr(map[]), parent)
  }

  /** `getChildLogger(settings)`: a new logger seeded with the current
      effective settings, registered last. */
  function AddChild(t: LoggerTree, settings: Option<Settings>, osHostname: string): LoggerTree {
    t.(kids := t.kids + [NewTree(settings, Some(Eff(t)), osHostname)])
  }

  /** Every logger's inherited settings are its parent's effective settings. */
  predicate Consistent(t: LoggerTree)
    decreases t
  {
    forall i :: 0 <= i < |t.kids| ==> t.kids[i].inherited == Eff(t) && Consistent(t.kids[i])
  }

  /** Setting values below never shrink the key set, so the effective
      settings after `setSettings` have every key they had before. */
  lemma EffKeysGrow(t: LoggerTree, s: Settings, p: Option<Settings>)
    ensures Eff(t).Keys <= Eff(SetTree(t, s, p)).Keys
  {
    var t' := SetTree(t, s, p);
    EffectiveKeys(t.inherited, t.own);
    EffectiveKeys(t'.inherited, t'.own);
  }

  /** `setSettings` leaves every child's inherited settings equal to its
      parent's new effective settings, all the way down. */
  lemma {:induction false} SetTreeConsistent(t: LoggerTree, s: Settings, p: Option<Settings>)
    requires Consistent(t)
    ensures Consistent(SetTree(t, s, p))
    decreases t
  {
    var t' := SetTree(t, s, p);
    var e := Eff(t');
    forall i | 0 <= i < |t'.kids|
      ensures t'.kids[i].inherited == e && Consistent(t'.kids[i])
    {
      var k := t.kids[i];
      assert t'.kids[i] == SetTree(k, map[], Some(e));
      assert k.inherited == Eff(t) && Consistent(k);
      EffKeysGrow(t, s, p);
      OverlayAbsorbed(k.inherited, e);
      SetTreeConsistent(k, map[], Some(e));
    }
  }

  /** `SetTree` rebuilt from its parts: the new overrides and inherited
      settings at the root, and the children after their own propagation. */
  lemma SetTreeFromKids(t: LoggerTree, s: Settings, p: Option<Settings>, kids: seq<LoggerTree>)
    requires |kids| == |t.kids|
    requires var own := Normalize(t.own + s);
      var inherited := if p.Some? then t.inherited + p.value else t.inherited;
      forall i :: 0 <= i < |kids| ==> Planned(t.kids, kids, Effective(inherited, own), i)
    ensures SetTree(t, s, p) ==
      Node(Normalize(t.own + s), if p.Some? then t.inherited + p.value else t.inherited, t.transports, kids)
  {
    var e := Effective(if p.Some? then t.inherited + p.value else t.inherited, Normalize(t.own + s));
    forall i | 0 <= i < |kids|
      ensures kids[i] == SetTree(t.kids[i], map[], Some(e))
    {
      assert Planned(t.kids, kids, e, i);
    }
    assert SetTree(t, s, p).kids == kids;
  }

  /** The `i`-th child of a propagation goes from `before[i]` to
      `after[i]`. */
  predicate Planned(before: seq<LoggerTree>, after: seq<LoggerTree>, eff: Settings, i: int) {
    0 <= i < |before| && i < |after| && after[i] == SetTree(before[i], map[], Some(eff))
  }

  /** The children as `setSettings({}, eff)` leaves them. */
  lemma PlanKids(before: seq<LoggerTree>, eff: Settings) returns (after: seq<LoggerTree>)
    ensures |after| == |before|
    ensures forall i :: 0 <= i < |before| ==> Planned(before, after, eff, i)
  {
    after := seq(|before|, i requires 0 <= i < |before| => SetTree(before[i], map[], Some(eff)));
  }

  /** The last write wins: after `setSettings(s, p)` a key `s` sets is seen
      with the value `s` gives it (for `name` and `instanceName`, a value that
      is not `null` or `undefined`), and any other key keeps the logger's own
      override or shows the (newly merged) inherited value. */
  lemma LastWriteWins(t: LoggerTree, s: Settings, p: Option<Settings>, k: string)
    requires k != "prefix"
    ensures var t' := SetTree(t, s, p);
      var inherited := if p.Some? then t.inherited + p.value else t.inherited;
      && (k in s && (k == "name" || k == "instanceName" ==> !Nullish(s[k])) ==> Read(Eff(t'), k) == s[k])
      && (k !in s && k != "name" && k != "instanceName" ==>
            Read(Eff(t'), k) == (if k in t.own then t.own[k] else Read(inherited, k)))
  {
    var t' := SetTree(t, s, p);
    EffectiveLookup(t'.inherited, t'.own, k);
  }

  /** Propagation leaves the children's own overrides alone: merging `{}`
      into overrides that are already normalised changes nothing. */
  lemma ChildOverridesKept(t: LoggerTree, s: Settings, p: Option<Settings>, i: nat)
    requires i < |t.kids| && t.kids[i].own == Normalize(t.kids[i].own)
    ensures SetTree(t, s, p).kids[i].own == t.kids[i].own
    ensures SetTree(t, s, p).kids[i].transports == t.kids[i].transports
    ensures |SetTree(t, s, p).kids[i].kids| == |t.kids[i].kids|
  {
    var k := t.kids[i];
    assert k.own + map[] == k.own;
  }

  /** Each child's prefix is its parent's effective prefix followed by its
      own. */
  lemma PrefixChain(t: LoggerTree, i: nat)
    requires Consistent(t) && i < |t.kids|
    ensures Spread(Read(Eff(t.kids[i]), "prefix")) ==
      Spread(Read(Eff(t), "prefix"))
      + (if Nullish(Read(t.kids[i].own, "prefix")) then [] else Spread(Read(t.kids[i].own, "prefix")))
  {
    EffectiveLookup(t.kids[i].inherited, t.kids[i].own, "prefix");
  }

  /** A child's `name` and `instanceName` are its own, whatever its parent's
      are, before and after propagation. */
  lemma NamesNotInherited(t: LoggerTree, s: Settings, p: Option<Settings>, i: nat)
    requires i < |t.kids|
    ensures var c := SetTree(t, s, p).kids[i];
      && Read(Eff(c), "name") == Coalesce(Read(t.kids[i].own, "name"), Item(Undefined))
      && Read(Eff(c), "instanceName") == Coalesce(Read(t.kids[i].own, "instanceName"), Read(t.kids[i].own, "hostname"))
  {
    var k := t.kids[i];
    assert k.own + map[] == k.own;
    NameNeverInherited(SetTree(t, s, p).kids[i].inherited, k.own);
  }

  /** No logger below the root overrides `k`. */
  predicate NoOverrideBelow(t: LoggerTree, k: string)
    decreases t
  {
    forall i :: 0 <= i < |t.kids| ==> k !in t.kids[i].own && NoOverrideBelow(t.kids[i], k)
  }

  /** Every logger of the tree sees `v` for `k`. */
  predicate AllSee(t: LoggerTree, k: string, v: Setting)
    decreases t
  {
    Read(Eff(t), k) == v && forall i :: 0 <= i < |t.kids| ==> AllSee(t.kids[i], k, v)
  }

  /** In a consistent tree a key no descendant overrides shows everywhere
      below with the root's value. */
  lemma {:induction false} Inherits(t: LoggerTree, k: string)
    requires Consistent(t) && NoOverrideBelow(t, k) && k != "prefix"
    ensures AllSee(t, k, Read(Eff(t), k))
    decreases t
  {
    forall i | 0 <= i < |t.kids|
      ensures AllSee(t.kids[i], k, Read(Eff(t), k))
    {
      var c := t.kids[i];
      EffectiveLookup(c.inherited, c.own, k);
      assert Read(Eff(c), k) == Read(Eff(t), k);
      Inherits(c, k);
    }
  }

  lemma {:induction false} NoOverrideKept(t: LoggerTree, s: Settings, p: Option<Settings>, k: string)
    requires NoOverrideBelow(t, k) && k != "name" && k != "instanceName"
    ensures NoOverrideBelow(SetTree(t, s, p), k)
    decreases t
  {
    var t' := SetTree(t, s, p);
    forall i | 0 <= i < |t'.kids|
      ensures k !in t'.kids[i].own && NoOverrideBelow(t'.kids[i], k)
    {
      NoOverrideKept(t.kids[i], map[], Some(Eff(t')), k);
    }
  }

  /** Setting a key on a logger reaches every logger below it that does not
      override the key itself: `logger.setSettings({ minLevel: "warn" })`
      makes every such child filter at "warn". */
  lemma SettingReachesDescendants(t: LoggerTree, k: string, v: Setting)
    requires Consistent(t) && NoOverrideBelow(t, k)
    requires k != "prefix" && k != "name" && k != "instanceName"
    ensures AllSee(SetTree(t, map[k := v], None), k, v)
  {
    var t' := SetTree(t, map[k := v], None);
    SetTreeConsistent(t, map[k := v], None);
    NoOverrideKept(t, map[k := v], None, k);
    LastWriteWins(t, map[k := v], None, k);
    Inherits(t', k);
  }

  /** The inherited settings hold every default key: they start as the
      defaults and only ever have parent settings merged into them. */
  predicate Seeded(t: LoggerTree) {
    DefaultKeys <= t.inherited.Keys
  }

  /** The invariant of every logger tree the class builds. */
  predicate WellFormed(t: LoggerTree) {
    Consistent(t) && Seeded(t)
  }

  /** A new logger is well formed. */
  lemma NewTreeWellFormed(settings: Option<Settings>, parent: Option<Settings>, osHostname: string)
    ensures WellFormed(NewTree(settings, parent, osHostname))
    ensures NewTree(settings, parent, osHostname).kids == []
  {
    DefaultsKeys(DefaultHostname(parent, osHostname));
  }

  /** `setSettings` keeps a tree well formed. */
  lemma SetTreeWellFormed(t: LoggerTree, s: Settings, p: Option<Settings>)
    requires WellFormed(t)
    ensures WellFormed(SetTree(t, s, p))
  {
    SetTreeConsistent(t, s, p);
  }

  /** `getChildLogger` keeps the tree well formed, adds the child last, and
      the child starts from the parent's effective settings. */
  lemma AddChildConsistent(t: LoggerTree, settings: Option<Settings>, osHostname: string)
    requires WellFormed(t)
    ensures WellFormed(AddChild(t, settings, osHostname))
    ensures AddChild(t, settings, osHostname).kids[|t.kids|].inherited == Eff(t)
    ensures AddChild(t, settings, osHostname).kids[..|t.kids|] == t.kids
  {
    var t' := AddChild(t, settings, osHostname);
    NewChildInherits(t, settings, osHostname);
    assert t'.kids[..|t.kids|] == t.kids;
    forall i | 0 <= i < |t'.kids|
      ensures t'.kids[i].inherited == Eff(t') && Consistent(t'.kids[i])
    {
      if i < |t.kids| {
        assert t'.kids[i] == t.kids[i];
      }
    }
  }

  /** A child created under a seeded logger inherits exactly the parent's
      effective settings: they hold every default key, so the defaults the
      child starts from are all overridden. */
  lemma NewChildInherits(t: LoggerTree, settings: Option<Settings>, osHostname: string)
    requires Seeded(t)
    ensures NewTree(settings, Some(Eff(t)), osHostname).inherited == Eff(t)
    ensures NewTree(settings, Some(Eff(t)), osHostname).kids == []
  {
    var d := Defaults(DefaultHostname(Some(Eff(t)), osHostname));
    DefaultsKeys(DefaultHostname(Some(Eff(t)), osHostname));
    EffectiveKeys(t.inherited, t.own);
    OverlayAbsorbed(d, Eff(t));
  }

  /** `attachTransport` keeps the tree well formed: no setting depends on
      the transports. */
  lemma AttachWellFormed(t: LoggerTree, ts: seq<Transport>)
    requires WellFormed(t)
    ensures WellFormed(t.(transports := ts))
  {
    assert Eff(t.(transports := ts)) == Eff(t);
  }

  // ---------------------------------------------------------------------
  // Calls on a registered descendant

  /** `path` leads from `t` down through registered children, one index per
      level. */
  predicate IsPath(t: LoggerTree, path: seq<nat>)
    decreases |path|
  {
    path == [] || (path[0] < |t.kids| && IsPath(t.kids[path[0]], path[1..]))
  }

  /** The logger at the end of `path`. */
  function At(t: LoggerTree, path: seq<nat>): LoggerTree
    requires IsPath(t, path)
    decreases |path|
  {
    if path == [] then t else At(t.kids[path[0]], path[1..])
  }

  /** `d.setSettings(s)` called on the descendant `d` at `path` (one the
      caller got from `getChildLogger`): `d` and the loggers below it change
      as `SetTree` says, every other logger keeps its values. */
  function SetAt(t: LoggerTree, path: seq<nat>, s: Settings): LoggerTree
    requires IsPath(t, path)
    decreases |path|
  {
    if path == [] then SetTree(t, s, None)
    else t.(kids := t.kids[path[0] := SetAt(t.kids[path[0]], path[1..], s)])
  }

  /** `d.attachTransport(...)` called on the descendant `d` at `path`. */
  function AttachAt(t: LoggerTree, path: seq<nat>, tr: Transport): LoggerTree
    requires IsPath(t, path)
    decreases |path|
  {
    if path == [] then t.(transports := t.transports + [tr])
    else t.(kids := t.kids[path[0] := AttachAt(t.kids[path[0]], path[1..], tr)])
  }

  /** A call on a descendant reaches that descendant and nothing above it:
      the descendant is as `setSettings` leaves it, and a logger above keeps
      its own, inherited and effective settings. */
  lemma {:induction false} SetAtReaches(t: LoggerTree, path: seq<nat>, s: Settings)
    requires IsPath(t, path)
    ensures IsPath(SetAt(t, path, s), path)
    ensures At(SetAt(t, path, s), path) == SetTree(At(t, path), s, None)
    ensures SetAt(t, path, s).inherited == t.inherited
    ensures path != [] ==> SetAt(t, path, s).own == t.own && Eff(SetAt(t, path, s)) == Eff(t)
    ensures |SetAt(t, path, s).kids| == |t.kids|
    decreases |path|
  {
    if path != [] {
      var i := path[0];
      var t' := SetAt(t, path, s);
      SetAtReaches(t.kids[i], path[1..], s);
      assert t'.kids[i] == SetAt(t.kids[i], path[1..], s);
    }
  }

  /** A call on a descendant keeps every logger's inherited settings equal
      to its parent's effective settings. */
  lemma {:induction false} SetAtConsistent(t: LoggerTree, path: seq<nat>, s: Settings)
    requires IsPath(t, path) && Consistent(t)
    ensures Consistent(SetAt(t, path, s))
    decreases |path|
  {
    if path == [] {
      SetTreeConsistent(t, s, None);
    } else {
      var i := path[0];
      var t' := SetAt(t, path, s);
      SetAtReaches(t, path, s);
      SetAtReaches(t.kids[i], path[1..], s);
      SetAtConsistent(t.kids[i], path[1..], s);
      forall j | 0 <= j < |t'.kids|
        ensures t'.kids[j].inherited == Eff(t') && Consistent(t'.kids[j])
      {
        if j != i {
          assert t'.kids[j] == t.kids[j];
        }
      }
    }
  }

  /** `setSettings` on a descendant keeps the tree well formed. */
  lemma SetAtWellFormed(t: LoggerTree, path: seq<nat>, s: Settings)
    requires IsPath(t, path) && WellFormed(t)
    ensures WellFormed(SetAt(t, path, s))
  {
    SetAtConsistent(t, path, s);
    SetAtReaches(t, path, s);
  }

  /** `attachTransport` on a descendant keeps the tree well formed. */
  lemma {:induction false} AttachAtWellFormed(t: LoggerTree, path: seq<nat>, tr: Transport)
    requires IsPath(t, path) && WellFormed(t)
    ensures WellFormed(AttachAt(t, path, tr))
    decreases |path|
  {
    var t' := AttachAt(t, path, tr);
    if path == [] {
      AttachWellFormed(t, t.transports + [tr]);
    } else {
      var i := path[0];
      var k := t.kids[i];
      assert Eff(t') == Eff(t) && t'.inherited == t.inherited;
      assert WellFormed(k) by {
        OverlayAbsorbed(k.inherited, Eff(t));
        EffectiveKeys(t.inherited, t.own);
      }
      AttachAtWellFormed(k, path[1..], tr);
      assert t'.kids[i] == AttachAt(k, path[1..], tr);
      forall j | 0 <= j < |t'.kids|
        ensures t'.kids[j].inherited == Eff(t') && Consistent(t'.kids[j])
      {
        if j != i {
          assert t'.kids[j] == t.kids[j];
        }
      }
    }
  }

  /** Propagation from an ancestor leaves a descendant's own overrides as
      they were (up to the `name`/`instanceName` defaulting every
      `setSettings` does) and its transports alone. */
  lemma {:induction false} PropagationKeepsBelow(t: LoggerTree, s: Settings, p: Option<Settings>, path: seq<nat>)
    requires IsPath(t, path) && path != []
    ensures IsPath(SetTree(t, s, p), path)
    ensures At(SetTree(t, s, p), path).own == Normalize(At(t, path).own)
    ensures At(SetTree(t, s, p), path).transports == At(t, path).transports
    decreases |path|
  {
    var t' := SetTree(t, s, p);
    var i := path[0];
    var k := t.kids[i];
    var e := Effective(t'.inherited, t'.own);
    var k' := SetTree(k, map[], Some(e));
    assert t'.kids[i] == k';
    if |path| == 1 {
      assert k.own + map[] == k.own;
      assert k'.own == Normalize(k.own);
    } else {
      PropagationKeepsBelow(k, map[], Some(e), path[1..]);
    }
  }

  /** What a call on a descendant wrote survives a later `setSettings` on the
      root: the descendant keeps the overrides it was given and the
      transports attached to it. */
  lemma LaterRootSetKeeps(t: LoggerTree, path: seq<nat>, s: Settings, tr: Transport, s2: Settings, p2: Option<Settings>)
    requires IsPath(t, path) && path != []
    ensures IsPath(SetAt(t, path, s), path) && IsPath(AttachAt(t, path, tr), path)
    ensures IsPath(SetTree(SetAt(t, path, s), s2, p2), path)
    ensures At(SetTree(SetAt(t, path, s), s2, p2), path).own == At(SetAt(t, path, s), path).own
    ensures IsPath(SetTree(AttachAt(t, path, tr), s2, p2), path)
    ensures At(SetTree(AttachAt(t, path, tr), s2, p2), path).transports == At(t, path).transports + [tr]
  {
    SetAtReaches(t, path, s);
    PropagationKeepsBelow(SetAt(t, path, s), s2, p2, path);
    NormalizeIdempotent(At(t, path).own + s);
    AttachAtTransports(t, path, tr);
    PropagationKeepsBelow(AttachAt(t, path, tr), s2, p2, path);
  }

  /** `attachTransport` on a descendant adds the transport there. */
  lemma {:induction false} AttachAtTransports(t: LoggerTree, path: seq<nat>, tr: Transport)
    requires IsPath(t, path)
    ensures IsPath(AttachAt(t, path, tr), path)
    ensures At(AttachAt(t, path, tr), path).transports == At(t, path).transports + [tr]
    decreases |path|
  {
    if path != [] {
      AttachAtTransports(t.kids[path[0]], path[1..], tr);
      assert AttachAt(t, path, tr).kids[path[0]] == AttachAt(t.kids[path[0]], path[1..], tr);
    }
  }

  // ---------------------------------------------------------------------
  // The logger object

  class Logger {
    /** `_mySettings`. */
    var own: Settings
    /** `_parentOrDefaultSettings`. */
    var inherited: Settings
    /** `_childLogger`. */
    var children: seq<Logger>
    /** The transports `attachTransport` attached to this logger, in order;
        the `attachedTransports` setting itself is not read. */
    var transports: seq<Transport>

    /** The tree this logger stands for. */
    ghost var model: LoggerTree
    ghost var Repr: set<object>

    ghost predicate Valid()
      reads this, Repr
      decreases Repr
    {
      && this in Repr
      && model.own == own && model.inherited == inherited && model.transports == transports
      && |model.kids| == |children|
      && (forall i :: 0 <= i < |children| ==>
            children[i] in Repr && children[i].Repr <= Repr && this !in children[i].Repr)
      && (forall i, j :: 0 <= i < j < |children| ==> children[i].Repr !! children[j].Repr)
      && (forall i :: 0 <= i < |children| ==> children[i].Valid() && children[i].model == model.kids[i])
    }

    /** `get settings()`. */
    function EffectiveSettings(): Settings
      reads this
    {
      Effective(inherited, own)
    }

    /** `new LoggerWithoutCallSite(settings, parentSettings)`. */
    constructor(settings: Option<Settings>, parentSettings: Option<Settings>, osHostname: string)
      ensures Valid() && fresh(Repr)
      ensures model == NewTree(settings, parentSettings, osHostname)
      ensures children == []
    {
      var defaults := Defaults(DefaultHostname(parentSettings, osHostname));
      own := map[];
      inherited := defaults;
      children := [];
      transports := [];
      model := Node(map[], defaults, [], []);
      Repr := {this};
      new;
      var _ := SetSettings(settings.GetOr(map[]), parentSettings);
      assert Repr == {this} && children == [];
    }

    /** `setSettings(settings, parentSettings)`: merges the overrides, takes
        the parent's snapshot, and propagates the result to every child. */
    method SetSettings(settings: Settings, parentSettings: Option<Settings>) returns (eff: Settings)
      requires Valid()
      modifies Repr
      decreases Repr, 2
      ensures Valid() && Repr == old(Repr) && children == old(children)
      ensures model == SetTree(old(model), settings, parentSettings)
      ensures eff == Eff(model) && eff == EffectiveSettings()
    {
      var newOwn := Normalize(own + settings);
      var newInherited := if parentSettings.Some? then inherited + parentSettings.value else inherited;
      eff := Effective(newInherited, newOwn);
      ghost var kids := PlanKids(model.kids, eff);
      Propagate(eff, model.kids, kids);
      SetTreeFromKids(old(model), settings, parentSettings, kids);
      Install(newOwn, newInherited, kids);
    }

    /** Stores the new overrides and inherited settings once the children
        have been brought up to date. */
    method Install(newOwn: Settings, newInherited: Settings, ghost kids: seq<LoggerTree>)
      requires this in Repr && |kids| == |children|
      requires forall i :: 0 <= i < |children| ==>
        children[i] in Repr && children[i].Repr <= Repr && this !in children[i].Repr
      requires forall i, j :: 0 <= i < j < |children| ==> children[i].Repr !! children[j].Repr
      requires forall i :: 0 <= i < |children| ==> children[i].Valid() && children[i].model == kids[i]
      modifies this
      ensures Valid() && Repr == old(Repr) && children == old(children) && transports == old(transports)
      ensures own == newOwn && inherited == newInherited && model == Node(newOwn, newInherited, transports, kids)
    {
      own, inherited, model := newOwn, newInherited, Node(newOwn, newInherited, transports, kids);
      ValidFromParts();
    }

    /** The parts of `Valid()`, one by one. */
    lemma ValidFromParts()
      requires this in Repr
      requires model.own == own && model.inherited == inherited && model.transports == transports
      requires |model.kids| == |children|
      requires forall i :: 0 <= i < |children| ==>
        children[i] in Repr && children[i].Repr <= Repr && this !in children[i].Repr
      requires forall i, j :: 0 <= i < j < |children| ==> children[i].Repr !! children[j].Repr
      requires forall i :: 0 <= i < |children| ==> children[i].Valid() && children[i].model == model.kids[i]
      ensures Valid()
    {
    }

    /** The `forEach` of `setSettings`: `childLogger.setSettings({}, eff)` on
        every registered child, in order. */
    method Propagate(eff: Settings, ghost before: seq<LoggerTree>, ghost after: seq<LoggerTree>)
      requires this in Repr && |before| == |children| && |after| == |children|
      requires forall i :: 0 <= i < |children| ==>
        children[i] in Repr && children[i].Repr <= Repr && this !in children[i].Repr
      requires forall i, j :: 0 <= i < j < |children| ==> children[i].Repr !! children[j].Repr
      requires forall i :: 0 <= i < |children| ==> children[i].Valid() && children[i].model == before[i]
      requires forall i :: 0 <= i < |children| ==> Planned(before, after, eff, i)
      modifies Repr - {this}
      decreases Repr, 1
      ensures forall i :: 0 <= i < |children| ==>
        children[i].Valid() && children[i].Repr == old(children[i].Repr) && children[i].model == after[i]
    {
      var i := 0;
      while i < |children|
        invariant 0 <= i <= |children|
        invariant forall j :: 0 <= j < |children| ==> children[j].Repr == old(children[j].Repr)
        invariant forall j :: 0 <= j < i ==> children[j].Valid() && children[j].model == after[j]
        invariant forall j :: i <= j < |children| ==> children[j].Valid() && children[j].model == before[j]
      {
        Step(eff, before, after, i);
        i := i + 1;
      }
    }

    /** The body of the `forEach`, on the child at `i`. */
    method Step(eff: Settings, ghost before: seq<LoggerTree>, ghost after: seq<LoggerTree>, i: nat)
      requires this in Repr && i < |children| && |before| == |children| && |after| == |children|
      requires forall j :: 0 <= j < |children| ==>
        children[j] in Repr && children[j].Repr <= Repr && this !in children[j].Repr
      requires forall j, k :: 0 <= j < k < |children| ==> children[j].Repr !! children[k].Repr
      requires Planned(before, after, eff, i)
      requires forall j :: 0 <= j < |children| ==> children[j].Valid()
      requires children[i].model == before[i]
      modifies children[i].Repr
      decreases Repr, 0
      ensures forall j :: 0 <= j < |children| ==> children[j].Repr == old(children[j].Repr)
      ensures forall j :: 0 <= j < |children| ==> children[j].Valid()
      ensures children[i].model == after[i]
      ensures forall j :: 0 <= j < |children| && j != i ==> children[j].model == old(children[j].model)
    {
      var c := children[i];
      assert forall j :: 0 <= j < |children| && j != i ==> children[j].Repr !! c.Repr;
      var _ := c.SetSettings(map[], Some(eff));
      assert Planned(before, after, eff, i);
    }

    /** `getChildLogger(settings)`. */
    method GetChildLogger(settings: Option<Settings>, osHostname: string) returns (child: Logger)
      requires Valid()
      modifies this
      ensures Valid() && fresh(child) && fresh(Repr - old(Repr))
      ensures children == old(children) + [child]
      ensures model == AddChild(old(model), settings, osHostname)
    {
      var childSettings := EffectiveSettings();
      child := new Logger(settings, Some(childSettings), osHostname);
      Register(child);
    }

    /** `this._childLogger.push(childLogger)`. */
    method Register(child: Logger)
      requires Valid() && child.Valid() && this !in child.Repr && Repr !! child.Repr
      modifies this
      ensures Valid() && Repr == old(Repr) + child.Repr
      ensures children == old(children) + [child]
      ensures model == old(model).(kids := old(model).kids + [child.model])
    {
      ghost var prev := children;
      children := children + [child];
      Repr := Repr + child.Repr;
      model := model.(kids := model.kids + [child.model]);
      AppendedValid(prev, child);
    }

    /** Registering a valid child whose objects are new keeps the logger valid. */
    lemma AppendedValid(prev: seq<Logger>, child: Logger)
      requires children == prev + [child] && |model.kids| == |children|
      requires this in Repr
      requires model.own == own && model.inherited == inherited && model.transports == transports
      requires forall i :: 0 <= i < |prev| ==>
        prev[i] in Repr && prev[i].Repr <= Repr && this !in prev[i].Repr && prev[i].Valid() && prev[i].model == model.kids[i]
      requires forall i, j :: 0 <= i < j < |prev| ==> prev[i].Repr !! prev[j].Repr
      requires child in Repr && child.Repr <= Repr && this !in child.Repr && child.Valid() && child.model == model.kids[|prev|]
      requires forall i :: 0 <= i < |prev| ==> prev[i].Repr !! child.Repr
      ensures Valid()
    {
      assert forall i :: 0 <= i < |prev| ==> children[i] == prev[i];
    }

    /** `attachTransport(transportLogger, minLevel = "silly")`. */
    method AttachTransport(sink: nat, minLevel: Option<string>)
      requires Valid()
      modifies this
      ensures Valid() && Repr == old(Repr) && children == old(children)
      ensures transports == old(transports) + [Transport(minLevel.GetOr("silly"), sink)]
      ensures model == old(model).(transports := transports)
    {
      transports := transports + [Transport(minLevel.GetOr("silly"), sink)];
      model := model.(transports := transports);
    }

    /** `d.setSettings(settings)` on a descendant `d` that calls of
        `getChildLogger` along `path` returned. Its parent holds `d` among
        its children, so the model reaches `d` through them and brings the
        model of every logger on the way up to date. */
    method SetSettingsAt(path: seq<nat>, settings: Settings) returns (eff: Settings)
      requires Valid() && IsPath(model, path)
      modifies Repr
      decreases Repr, 1
      ensures Valid() && Repr == old(Repr) && children == old(children)
      ensures model == SetAt(old(model), path, settings)
      ensures IsPath(model, path) && eff == Eff(At(model, path))
    {
      if path == [] {
        eff := SetSettings(settings, None);
        return;
      }
      ghost var after := model.kids[path[0] := SetAt(model.kids[path[0]], path[1..], settings)];
      eff := SetSettingsBelow(path[0], path[1..], settings, model.kids, after);
      Install(own, inherited, after);
    }

    /** The call of `SetSettingsAt` on the child at `i`; the other children
        are left alone. */
    method SetSettingsBelow(i: nat, path: seq<nat>, settings: Settings, ghost before: seq<LoggerTree>, ghost after: seq<LoggerTree>)
      returns (eff: Settings)
      requires this in Repr && i < |children| && |before| == |children|
      requires forall j :: 0 <= j < |children| ==>
        children[j] in Repr && children[j].Repr <= Repr && this !in children[j].Repr
      requires forall j, k :: 0 <= j < k < |children| ==> children[j].Repr !! children[k].Repr
      requires forall j :: 0 <= j < |children| ==> children[j].Valid() && children[j].model == before[j]
      requires IsPath(before[i], path) && after == before[i := SetAt(before[i], path, settings)]
      modifies children[i].Repr
      decreases Repr, 0
      ensures unchanged(this)
      ensures forall j :: 0 <= j < |children| ==> children[j].Repr == old(children[j].Repr)
      ensures forall j :: 0 <= j < |children| ==> children[j].Valid() && children[j].model == after[j]
      ensures IsPath(after[i], path) && eff == Eff(At(after[i], path))
    {
      var c := children[i];
      assert forall j :: 0 <= j < |children| && j != i ==> children[j].Repr !! c.Repr;
      eff := c.SetSettingsAt(path, settings);
    }

    /** `d.attachTransport(transportLogger, minLevel)` on the descendant `d`
        at `path`, reached as in `SetSettingsAt`. */
    method AttachTransportAt(path: seq<nat>, sink: nat, minLevel: Option<string>)
      requires Valid() && IsPath(model, path)
      modifies Repr
      decreases Repr, 1
      ensures Valid() && Repr == old(Repr) && children == old(children)
      ensures model == AttachAt(old(model), path, Transport(minLevel.GetOr("silly"), sink))
    {
      if path == [] {
        AttachTransport(sink, minLevel);
        return;
      }
      ghost var after := model.kids[path[0] := AttachAt(model.kids[path[0]], path[1..], Transport(minLevel.GetOr("silly"), sink))];
      AttachBelow(path[0], path[1..], sink, minLevel, model.kids, after);
      Install(own, inherited, after);
    }

    /** The call of `AttachTransportAt` on the child at `i`. */
    method AttachBelow(i: nat, path: seq<nat>, sink: nat, minLevel: Option<string>, ghost before: seq<LoggerTree>, ghost after: seq<LoggerTree>)
      requires this in Repr && i < |children| && |before| == |children|
      requires forall j :: 0 <= j < |children| ==>
        children[j] in Repr && children[j].Repr <= Repr && this !in children[j].Repr
      requires forall j, k :: 0 <= j < k < |children| ==> children[j].Repr !! children[k].Repr
      requires forall j :: 0 <= j < |children| ==> children[j].Valid() && children[j].model == before[j]
      requires IsPath(before[i], path)
      requires after == before[i := AttachAt(before[i], path, Transport(minLevel.GetOr("silly"), sink))]
      modifies children[i].Repr
      decreases Repr, 0
      ensures unchanged(this)
      ensures forall j :: 0 <= j < |children| ==> children[j].Repr == old(children[j].Repr)
      ensures forall j :: 0 <= j < |children| ==> children[j].Valid() && children[j].model == after[j]
    {
      var c := children[i];
      assert forall j :: 0 <= j < |children| && j != i ==> children[j].Repr !! c.Repr;
      c.AttachTransportAt(path, sink, minLevel);
    }

    /** `_handleLog(logLevel, logArguments, exposeStack)`: builds the record and
        returns it with what is written and forwarded, in order. */
    method HandleLog(level: Level, args: seq<Value>, exposeStack: Option<Setting>, env: Env)
      returns (r: LogRecord<LogArg>, out: seq<Emission>)
      ensures r == LogObjectOf(EffectiveSettings(), env, level, args,
        ExposeFlag(exposeStack.GetOr(Read(EffectiveSettings(), "exposeStack"))))
      ensures out == Dispatch(EffectiveSettings(), transports, r)
    {
      var s := EffectiveSettings();
      r := BuildLogObject(s, env, level, args, ExposeFlag(exposeStack.GetOr(Read(s, "exposeStack"))));
      var primary := WritePrimary(s, r);
      var forwarded := ForwardAll(transports, r);
      out := primary + forwarded;
    }

    /** `silly(...args)` through `fatal(...args)`: `trace` asks for the stack,
        the others leave it to the settings. */
    method Log(level: Level, args: seq<Value>, env: Env) returns (r: LogRecord<LogArg>, out: seq<Emission>)
      ensures r == LogObjectOf(EffectiveSettings(), env, level, args, StackExposed(EffectiveSettings(), level))
      ensures out == Dispatch(EffectiveSettings(), transports, r)
    {
      r, out := HandleLog(level, args, if level == Trace then Some(Item(Bool(true))) else None, env);
    }

    /** `prettyError(error, print, exposeErrorCodeFrame, exposeStackTrace,
        stackOffset, stackLimit)` without the printing: the error object. */
    method PrettyError(error: Id, expose: Setting, stackOffset: int, stackLimit: Option<int>, env: Env)
      returns (e: ErrorObject)
      requires error < |env.heap| && env.heap[error].PlainObj?
      ensures e == ErrorObjectOf(EffectiveSettings(), env, error, expose, stackOffset, stackLimit)
    {
      e := BuildErrorObject(EffectiveSettings(), env, error, expose, stackOffset, stackLimit);
    }
  }
}
