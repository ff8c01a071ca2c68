/**
 The hot-reloadable safety config as nested maps: the key-wise merge of a yaml override
 onto the code defaults, the load that binds the enforced `conservative` profile to the
 `rate_limits` section, and the lookups the budgets use.
 */
module SafetyConfig {
  import opened Options

  datatype Tree = Leaf(value: int) | Node(entries: map<string, Tree>)

  type Path = seq<string>

  /** The key-wise merge: two dicts merge, anything else is replaced. */
  function Merge(base: Tree, over: Tree): Tree
    decreases over
  {
    if base.Leaf? || over.Leaf? then over
    else
      Node(map k | k in base.entries.Keys + over.entries.Keys ::
             if k !in over.entries then base.entries[k]
             else if k !in base.entries then over.entries[k]
             else Merge(base.entries[k], over.entries[k]))
  }

  function Get(t: Tree, p: Path): Option<Tree> {
    if p == [] then Some(t)
    else if t.Leaf? || p[0] !in t.entries then None
    else Get(t.entries[p[0]], p[1..])
  }

  predicate LeafAt(t: Tree, p: Path, v: int) {
    Get(t, p) == Some(Leaf(v))
  }

  /** The override says nothing about `p`: walking it runs out of keys inside a dict. */
  predicate Silent(over: Tree, p: Path) {
    over.Node? && p != [] && (p[0] !in over.entries || Silent(over.entries[p[0]], p[1..]))
  }

  /** The merge, leaf by leaf: a leaf of the result is a leaf of the override, or a leaf of
      the base about which the override is silent. Nothing else appears or disappears. */
  lemma {:induction false} MergedLeaves(base: Tree, over: Tree, p: Path, v: int)
    ensures LeafAt(Merge(base, over), p, v) <==>
            LeafAt(over, p, v) || (LeafAt(base, p, v) && Silent(over, p))
  {
    if base.Node? && over.Node? && p != [] && p[0] in base.entries && p[0] in over.entries {
      MergedLeaves(base.entries[p[0]], over.entries[p[0]], p[1..], v);
    }
  }

  /** Re-applying an override changes nothing. */
  lemma {:induction false} MergeIsIdempotent(base: Tree, over: Tree)
    ensures Merge(Merge(base, over), over) == Merge(base, over)
    decreases over
  {
    if over.Leaf? {
    } else {
      if base.Leaf? {
        MergeWithItself(over);
      } else {
        var once := Merge(base, over);
        forall k | k in once.entries
          ensures k in Merge(once, over).entries && Merge(once, over).entries[k] == once.entries[k]
        {
          if k in over.entries {
            if k in base.entries {
              MergeIsIdempotent(base.entries[k], over.entries[k]);
            } else {
              MergeWithItself(over.entries[k]);
            }
          }
        }
        assert Merge(once, over).entries == once.entries;
      }
    }
  }

  lemma {:induction false} MergeWithItself(t: Tree)
    ensures Merge(t, t) == t
  {
    if t.Leaf? {
    } else {
      forall k | k in t.entries ensures Merge(t, t).entries[k] == t.entries[k] {
        MergeWithItself(t.entries[k]);
      }
      assert Merge(t, t).entries == t.entries;
    }
  }

  // ----- Loading -----

  datatype Section = WarmupSchedules | RateLimits | ReadLimits | RateLimitProfiles | PremiumCeilings

  const SECTIONS: seq<Section> := [WarmupSchedules, RateLimits, ReadLimits, RateLimitProfiles, PremiumCeilings]

  type Config = map<Section, Tree>

  /** The yaml file: absent, unreadable, a dict (its other keys are never looked at), or
      some other document. */
  datatype Source = Missing | Unreadable | Yaml(sections: Config) | NotADict

  datatype LoadResult = Loaded(config: Config) | Crashed

  /** What the code defaults guarantee: five dict sections, and one object behind both
      `rate_limits` and the `conservative` profile. */
  predicate GoodDefaults(d: Config) {
    && (forall s: Section :: s in d && d[s].Node?)
    && "conservative" in d[RateLimitProfiles].entries
    && d[RateLimitProfiles].entries["conservative"] == d[RateLimits]
  }

  predicate Truthy(t: Tree) {
    if t.Leaf? then t.value != 0 else t.entries != map[]
  }

  /** One section after its override; an override that is no dict, or an empty one, is ignored. */
  function Overridden(d: Config, data: Config, s: Section): Tree
    requires s in d
  {
    if s in data && data[s].Node? && Truthy(data[s]) then Merge(d[s], data[s]) else d[s]
  }

  function OverriddenUpTo(d: Config, data: Config, n: nat): Config
    requires n <= |SECTIONS|
  {
    map s | s in d :: if s in SECTIONS[..n] then Overridden(d, data, s) else d[s]
  }

  /** `rate_limits` is laid over the `conservative` table, which must be a dict by then. */
  function BindConservative(cfg: Config): LoadResult
    requires RateLimits in cfg && RateLimitProfiles in cfg
    requires cfg[RateLimitProfiles].Node? && "conservative" in cfg[RateLimitProfiles].entries
  {
    var profiles := cfg[RateLimitProfiles].entries;
    if profiles["conservative"].Leaf? then Crashed
    else
      var bound := Merge(profiles["conservative"], cfg[RateLimits]);
      Loaded(cfg[RateLimitProfiles := Node(profiles["conservative" := bound])])
  }

  lemma SectionsSurvive(d: Config, data: Config, n: nat)
    requires GoodDefaults(d) && n <= |SECTIONS|
    ensures var cfg := OverriddenUpTo(d, data, n);
            && (forall s: Section :: s in cfg && cfg[s].Node?)
            && "conservative" in cfg[RateLimitProfiles].entries
  {
  }

  function LoadSpec(d: Config, source: Source): LoadResult
    requires GoodDefaults(d)
  {
    match source
    case Missing => Loaded(d)
    case Unreadable => Loaded(d)
    case NotADict => Crashed
    case Yaml(data) =>
      SectionsSurvive(d, data, |SECTIONS|);
      BindConservative(OverriddenUpTo(d, data, |SECTIONS|))
  }

  /** The section loop of the load. */
  method OverrideSections(defaults: Config, data: Config) returns (cfg: Config)
    requires GoodDefaults(defaults)
    ensures cfg == OverriddenUpTo(defaults, data, |SECTIONS|)
  {
    cfg := defaults;
    for i := 0 to |SECTIONS|
      invariant cfg == OverriddenUpTo(defaults, data, i)
    {
      var s := SECTIONS[i];
      if s in data && data[s].Node? && Truthy(data[s]) {
        cfg := cfg[s := Merge(cfg[s], data[s])];
      }
      assert SECTIONS[..i + 1] == SECTIONS[..i] + [s];
    }
  }

  method LoadFromDisk(defaults: Config, source: Source) returns (r: LoadResult)
    requires GoodDefaults(defaults)
    ensures r == LoadSpec(defaults, source)
    ensures source.Missing? || source.Unreadable? ==> r == Loaded(defaults)
  {
    var cfg := defaults;
    if source.Missing? || source.Unreadable? {
      return Loaded(cfg);
    }
    if source.NotADict? {
      return Crashed;
    }
    cfg := OverrideSections(defaults, source.sections);
    SectionsSurvive(defaults, source.sections, |SECTIONS|);
    var profiles := cfg[RateLimitProfiles].entries;
    if profiles["conservative"].Leaf? {
      return Crashed;
    }
    var bound := Merge(profiles["conservative"], cfg[RateLimits]);
    r := Loaded(cfg[RateLimitProfiles := Node(profiles["conservative" := bound])]);
  }

  /** The load crashes exactly on a document that is no dict, and on a profile section that
      puts a plain value where the conservative table was. */
  lemma LoadCrashesIff(d: Config, source: Source)
    requires GoodDefaults(d)
    ensures LoadSpec(d, source).Crashed? <==>
            || source.NotADict?
            || (&& source.Yaml? && RateLimitProfiles in source.sections && source.sections[RateLimitProfiles].Node?
                && "conservative" in source.sections[RateLimitProfiles].entries
                && source.sections[RateLimitProfiles].entries["conservative"].Leaf?)
  {
    if source.Yaml? {
      var data := source.sections;
      SectionsSurvive(d, data, |SECTIONS|);
      assert RateLimitProfiles in SECTIONS[..|SECTIONS|] by {
        assert SECTIONS[3] == RateLimitProfiles;
      }
      assert OverriddenUpTo(d, data, |SECTIONS|)[RateLimitProfiles] == Overridden(d, data, RateLimitProfiles);
      var base := d[RateLimitProfiles];
      assert base.entries["conservative"].Node?;
      var over := if RateLimitProfiles in data then data[RateLimitProfiles] else base;
      if RateLimitProfiles in data && over.Node? && "conservative" in over.entries {
        assert Truthy(over);
        assert Merge(base, over).entries["conservative"]
            == Merge(base.entries["conservative"], over.entries["conservative"]);
      }
    }
  }

  // ----- Lookups -----

  /** The caps of a use case under a profile: an unknown or empty profile falls back to
      `conservative`, and that to no caps at all. */
  function RateLimitForProfile(cfg: Config, profile: string, useCase: string): Option<Tree> {
    if RateLimitProfiles !in cfg then None
    else
      var named, fallback := Get(cfg[RateLimitProfiles], [profile]), Get(cfg[RateLimitProfiles], ["conservative"]);
      var table := if named.Some? && Truthy(named.value) then named.value
                   else if fallback.Some? && Truthy(fallback.value) then fallback.value
                   else Node(map[]);
      Get(table, [useCase])
  }

  function NumberIn(t: Option<Tree>): Option<int> {
    if t.Some? && t.value.Leaf? then Some(t.value.value) else None
  }

  /** The configured number, 0 when the action has none. */
  function CapFor(cfg: Config, profile: string, useCase: string, action: string): int {
    var caps := RateLimitForProfile(cfg, profile, useCase);
    if caps.None? then 0
    else
      var n := NumberIn(Get(caps.value, [action]));
      if n.Some? then n.value else 0
  }

  /** The number directly under a key of a section, if it holds one. */
  function NumberAt(cfg: Config, s: Section, key: string): (n: Option<int>)
    ensures forall v :: n == Some(v) <==> s in cfg && LeafAt(cfg[s], [key], v)
  {
    if s in cfg then NumberIn(Get(cfg[s], [key])) else None
  }

  // ----- What a load guarantees -----

  /** Every number under `rate_limits` is at the same path of the conservative table. */
  lemma ConservativeIsRateLimits(d: Config, source: Source, p: Path, v: int)
    requires GoodDefaults(d) && LoadSpec(d, source).Loaded?
    ensures var cfg := LoadSpec(d, source).config;
            && RateLimits in cfg && RateLimitProfiles in cfg
            && (LeafAt(cfg[RateLimits], p, v) ==> LeafAt(cfg[RateLimitProfiles], ["conservative"] + p, v))
  {
    var cfg := LoadSpec(d, source).config;
    assert (["conservative"] + p)[1..] == p;
    if source.Yaml? {
      var before := OverriddenUpTo(d, source.sections, |SECTIONS|);
      SectionsSurvive(d, source.sections, |SECTIONS|);
      MergedLeaves(before[RateLimitProfiles].entries["conservative"], cfg[RateLimits], p, v);
    }
  }

  /** The operator's knob: a cap read under `rate_limits` is the cap that is enforced,
      under `conservative` and under any profile that has no table of its own. */
  lemma RateLimitsAreEnforced(d: Config, source: Source, profile: string, useCase: string, action: string, v: int)
    requires GoodDefaults(d) && LoadSpec(d, source).Loaded?
    requires var cfg := LoadSpec(d, source).config;
             RateLimits in cfg && LeafAt(cfg[RateLimits], [useCase, action], v)
    ensures var cfg := LoadSpec(d, source).config;
            && CapFor(cfg, "conservative", useCase, action) == v
            && (RateLimitProfiles in cfg && Get(cfg[RateLimitProfiles], [profile]).None? ==>
                  CapFor(cfg, profile, useCase, action) == v)
  {
    var cfg := LoadSpec(d, source).config;
    ConservativeIsRateLimits(d, source, [useCase, action], v);
    var profiles := cfg[RateLimitProfiles];
    GetStep(profiles, "conservative", [useCase, action]);
    GetStep(profiles, profile, []);
    var table := Get(profiles, ["conservative"]);
    GetStep(table.value, useCase, [action]);
    assert [useCase] + [action] == [useCase, action];
  }

  lemma GetStep(t: Tree, k: string, p: Path)
    ensures Get(t, [k]) == if t.Node? && k in t.entries then Some(t.entries[k]) else None
    ensures Get(t, [k] + p) == if Get(t, [k]).Some? then Get(Get(t, [k]).value, p) else None
  {
    assert ([k] + p)[1..] == p && [k][1..] == [];
  }

  /** Every number the operator wrote is in force, and every default the operator did not
      mention still is: the leaves of a section after the load are exactly these. */
  lemma SectionLeaves(d: Config, data: Config, s: Section, p: Path, v: int)
    requires GoodDefaults(d) && LoadSpec(d, Yaml(data)).Loaded? && s != RateLimitProfiles
    ensures var cfg := LoadSpec(d, Yaml(data)).config;
            s in cfg &&
            (LeafAt(cfg[s], p, v) <==>
             (s in data && data[s].Node? && LeafAt(data[s], p, v))
             || (LeafAt(d[s], p, v) && (s in data && data[s].Node? ==> Silent(data[s], p))))
  {
    SectionsSurvive(d, data, |SECTIONS|);
    assert s in SECTIONS by {
      assert SECTIONS[0] == WarmupSchedules && SECTIONS[1] == RateLimits;
      assert SECTIONS[2] == ReadLimits && SECTIONS[4] == PremiumCeilings;
    }
    assert LoadSpec(d, Yaml(data)).config[s] == Overridden(d, data, s);
    if s in data {
      MergedLeaves(d[s], data[s], p, v);
    }
  }

  /** What a yaml document says about the profiles: nothing unless it has such a dict. */
  function ProfileOverride(data: Config): Tree {
    if RateLimitProfiles in data && data[RateLimitProfiles].Node? then data[RateLimitProfiles] else Node(map[])
  }

  /** The profile tables after a load. Every profile but `conservative` holds the operator's
      numbers and the defaults the operator did not mention; `conservative` holds the numbers
      of `rate_limits`, and where those are silent, its own. */
  lemma ProfileLeaves(d: Config, data: Config, name: string, p: Path, v: int)
    requires GoodDefaults(d) && LoadSpec(d, Yaml(data)).Loaded?
    ensures var (cfg, over, path) := (LoadSpec(d, Yaml(data)).config, ProfileOverride(data), [name] + p);
            var written := LeafAt(over, path, v) || (LeafAt(d[RateLimitProfiles], path, v) && Silent(over, path));
            && RateLimitProfiles in cfg && RateLimits in cfg
            && (LeafAt(cfg[RateLimitProfiles], path, v) <==>
                if name == "conservative" then LeafAt(cfg[RateLimits], p, v) || (Silent(cfg[RateLimits], p) && written)
                else written)
  {
    var over := ProfileOverride(data);
    var before := OverriddenUpTo(d, data, |SECTIONS|);
    SectionsSurvive(d, data, |SECTIONS|);
    assert SECTIONS[3] == RateLimitProfiles;
    assert before[RateLimitProfiles] == Overridden(d, data, RateLimitProfiles);
    MergedLeaves(d[RateLimitProfiles], over, [name] + p, v);
    MergeWithNothing(d[RateLimitProfiles]);
    GetStep(before[RateLimitProfiles], name, p);
    GetStep(LoadSpec(d, Yaml(data)).config[RateLimitProfiles], name, p);
    if name == "conservative" {
      MergedLeaves(before[RateLimitProfiles].entries[name], before[RateLimits], p, v);
    }
  }

  lemma MergeWithNothing(t: Tree)
    requires t.Node?
    ensures Merge(t, Node(map[])) == t
  {
    assert Merge(t, Node(map[])).entries == t.entries;
  }

  /** A profile with a table of its own is enforced from that table alone: a number it has is
      the cap, and what it lacks is 0 and not looked up under `conservative`. */
  lemma OwnTableIsEnforced(cfg: Config, profile: string, useCase: string, action: string)
    requires RateLimitProfiles in cfg && cfg[RateLimitProfiles].Node? && profile in cfg[RateLimitProfiles].entries
    requires var table := cfg[RateLimitProfiles].entries[profile]; table.Node? && table.entries != map[]
    ensures forall v :: LeafAt(cfg[RateLimitProfiles], [profile, useCase, action], v) ==>
              CapFor(cfg, profile, useCase, action) == v
    ensures (forall v :: !LeafAt(cfg[RateLimitProfiles], [profile, useCase, action], v)) ==>
              CapFor(cfg, profile, useCase, action) == 0
  {
    var profiles := cfg[RateLimitProfiles];
    GetStep(profiles, profile, [useCase, action]);
    assert [profile] + [useCase, action] == [profile, useCase, action];
    GetStep(profiles.entries[profile], useCase, [action]);
    assert [useCase] + [action] == [useCase, action];
    var caps := RateLimitForProfile(cfg, profile, useCase);
    if caps.Some? {
      var found := Get(caps.value, [action]);
      if found.Some? && found.value.Leaf? {
        assert LeafAt(profiles, [profile, useCase, action], found.value.value);
      }
    }
  }

  /** A profile without a table, or with an empty one, is enforced as `conservative` is. */
  lemma NoTableFallsBack(cfg: Config, profile: string, useCase: string, action: string)
    requires RateLimitProfiles in cfg && cfg[RateLimitProfiles].Node?
    requires var tables := cfg[RateLimitProfiles].entries;
             profile !in tables || tables[profile] == Node(map[]) || tables[profile] == Leaf(0)
    ensures CapFor(cfg, profile, useCase, action) == CapFor(cfg, "conservative", useCase, action)
  {
    GetStep(cfg[RateLimitProfiles], profile, []);
    GetStep(cfg[RateLimitProfiles], "conservative", []);
    if profile != "conservative" && "conservative" in cfg[RateLimitProfiles].entries {
      GetStep(cfg[RateLimitProfiles].entries["conservative"], useCase, []);
    }
  }

  /** The process-wide cache: loaded once, replaced only by an explicit reload. */
  class Cache {
    var loaded: Option<Config>

    constructor ()
      ensures loaded == None
    {
      loaded := None;
    }

    method EnsureLoaded(defaults: Config, source: Source) returns (r: LoadResult)
      requires GoodDefaults(defaults)
      modifies this
      ensures r == if old(loaded).Some? then Loaded(old(loaded).value) else LoadSpec(defaults, source)
      ensures loaded == if r.Loaded? then Some(r.config) else None
    {
      if loaded.Some? {
        return Loaded(loaded.value);
      }
      r := LoadFromDisk(defaults, source);
      loaded := if r.Loaded? then Some(r.config) else None;
    }

    method Reload(defaults: Config, source: Source) returns (r: LoadResult)
      requires GoodDefaults(defaults)
      modifies this
      ensures r == LoadSpec(defaults, source)
      ensures loaded == if r.Loaded? then Some(r.config) else old(loaded)
    {
      r := LoadFromDisk(defaults, source);
      if r.Loaded? {
        loaded := Some(r.config);
      }
    }
  }
}
