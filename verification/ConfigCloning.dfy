/**
 Cloning the plugin configuration of one organisation to another: `clone_settings_to_organisation` of
 boefjes/boefjes/dependencies/plugins.py over the stores of boefjes/boefjes/storage/memory.py.
 */
module ConfigCloning {

  type OrganisationId = string
  type PluginId = string
  type Settings = map<string, string>
  type States = map<PluginId, bool>

  datatype Option<+T> = None | Some(value: T)

  datatype PluginKind = Boefje | Normalizer

  /** The store tells normalizers by their id: `"norm" in plugin_id`. */
  predicate IsNormalizer(id: PluginId) {
    |id| >= 4 && (id[..4] == "norm" || IsNormalizer(id[1..]))
  }

  function EnabledBoefjes(states: States): set<PluginId> {
    set id | id in states && states[id] && !IsNormalizer(id)
  }

  function EnabledNormalizers(states: States): set<PluginId> {
    set id | id in states && states[id] && IsNormalizer(id)
  }

  function DisabledNormalizers(states: States): set<PluginId> {
    set id | id in states && !states[id] && IsNormalizer(id)
  }

  function ToSet(ids: seq<PluginId>): set<PluginId> {
    set id | id in ids
  }

  lemma ToSetSnoc(ids: seq<PluginId>, k: nat)
    requires k < |ids|
    ensures ToSet(ids[..k + 1]) == ToSet(ids[..k]) + {ids[k]}
  {
    assert ids[..k + 1] == ids[..k] + [ids[k]];
  }

  /** The plugins as a list, in any order. */
  method ListOf(ids: set<PluginId>) returns (list: seq<PluginId>)
    ensures ToSet(list) == ids
  {
    list := [];
    var left := ids;
    while left != {}
      invariant left <= ids && ToSet(list) == ids - left
      decreases |left|
    {
      var id :| id in left;
      assert (list + [id])[..|list|] == list && (list + [id])[..|list| + 1] == list + [id];
      ToSetSnoc(list + [id], |list|);
      list, left := list + [id], left - {id};
    }
  }

  /** The states with all of the given plugins set to `value`. */
  function Overlay(states: States, ids: set<PluginId>, value: bool): States {
    map id | id in states.Keys + ids :: if id in ids then value else states[id]
  }

  function Get(all: map<PluginId, Settings>, plugin: PluginId): Settings {
    if plugin in all then all[plugin] else map[]
  }

  ghost predicate SameSettings(a: map<PluginId, Settings>, b: map<PluginId, Settings>) {
    forall p :: Get(a, p) == Get(b, p)
  }

  ghost predicate Updated(before: map<PluginId, Settings>, after: map<PluginId, Settings>, plugin: PluginId,
                          settings: Settings)
  {
    forall p :: Get(after, p) == if p == plugin then settings else Get(before, p)
  }

  datatype Stored = Stored(data: map<OrganisationId, map<PluginId, Settings>>, enabled: map<OrganisationId, States>) {

    function AllSettings(organisation: OrganisationId): map<PluginId, Settings> {
      if organisation in data then data[organisation] else map[]
    }

    function StatesOf(organisation: OrganisationId): States {
      if organisation in enabled then enabled[organisation] else map[]
    }
  }

  class ConfigStorageMemory {
    var data: map<OrganisationId, map<PluginId, Settings>>
    var enabled: map<OrganisationId, States>

    constructor ()
      ensures data == map[] && enabled == map[]
    {
      data, enabled := map[], map[];
    }

    /** Everything that is stored for other organisations. */
    ghost function Rest(organisation: OrganisationId): Stored
      reads this
    {
      Stored(data - {organisation}, enabled - {organisation})
    }

    function AllSettings(organisation: OrganisationId): map<PluginId, Settings>
      reads this
    {
      if organisation in data then data[organisation] else map[]
    }

    /** `get_all_settings`. */
    function SettingsOf(organisation: OrganisationId, plugin: PluginId): Settings
      reads this
    {
      Get(AllSettings(organisation), plugin)
    }

    /** `get_states_for_organisation`. */
    function StatesOf(organisation: OrganisationId): States
      reads this
    {
      if organisation in enabled then enabled[organisation] else map[]
    }

    lemma RestTells(organisation: OrganisationId, o: OrganisationId)
      requires o != organisation
      ensures StatesOf(o) == Rest(organisation).StatesOf(o) && AllSettings(o) == Rest(organisation).AllSettings(o)
    {
    }

    /** `upsert`; the entries it makes by default do not show. */
    method Upsert(organisation: OrganisationId, plugin: PluginId, settings: Option<Settings>, state: Option<bool>)
      modifies this
      ensures StatesOf(organisation) ==
        if state.Some? then old(StatesOf(organisation))[plugin := state.value] else old(StatesOf(organisation))
      ensures if settings.Some?
        then Updated(old(AllSettings(organisation)), AllSettings(organisation), plugin, settings.value)
        else SameSettings(AllSettings(organisation), old(AllSettings(organisation)))
      ensures Rest(organisation) == old(Rest(organisation))
    {
      var plugins := if organisation in data then data[organisation] else map[];
      if plugin !in plugins { plugins := plugins[plugin := map[]]; }
      if settings.Some? { plugins := plugins[plugin := settings.value]; }
      var states := if organisation in enabled then enabled[organisation] else map[];
      if state.Some? { states := states[plugin := state.value]; }
      SameRest(data, organisation, plugins);
      SameRest(enabled, organisation, states);
      data, enabled := data[organisation := plugins], enabled[organisation := states];
    }
  }

  lemma SameRest<V>(all: map<OrganisationId, V>, organisation: OrganisationId, value: V)
    ensures all[organisation := value] - {organisation} == all - {organisation}
  {
  }

  datatype Plugins = Plugins(knownBoefjes: set<PluginId>, known: set<PluginId>, boefjes: set<PluginId>)

  class PluginService {
    const config: ConfigStorageMemory
    var boefjes: set<PluginId>
    var normalizers: set<PluginId>
    const local: map<PluginId, PluginKind>
    const conforms: (PluginId, Settings) -> bool

    constructor (config: ConfigStorageMemory, local: map<PluginId, PluginKind>, conforms: (PluginId, Settings) -> bool)
      ensures this.config == config && this.local == local && this.conforms == conforms
      ensures boefjes == {} && normalizers == {}
    {
      this.config, this.local, this.conforms := config, local, conforms;
      boefjes, normalizers := {}, {};
    }

    function KnownBoefjes(): set<PluginId>
      reads this
    {
      boefjes + set id | id in local && local[id] == Boefje
    }

    function KnownPlugins(): set<PluginId>
      reads this
    {
      KnownBoefjes() + normalizers + set id | id in local && local[id] == Normalizer
    }

    /** The boefjes among all plugins: local plugins take precedence, and normalizers come after boefjes. */
    function CatalogBoefjes(): set<PluginId>
      reads this
    {
      (set id | id in boefjes && id !in normalizers && id !in local) +
      (set id | id in local && local[id] == Boefje)
    }

    /** The settings of a local plugin are copied exactly if it is a boefje, those of any other plugin exactly if the
        database has it as a boefje and not as a normalizer. */
    lemma CatalogIff(id: PluginId)
      ensures id in CatalogBoefjes() <==>
        if id in local then local[id] == Boefje else id in boefjes && id !in normalizers
    {
    }

    /** Which plugins there are; which of the local ones have an entry in the database does not matter to it. */
    ghost function Catalog(): Plugins
      reads this
    {
      Plugins(KnownBoefjes(), KnownPlugins(), CatalogBoefjes())
    }

    /** `_put_boefje`. */
    method PutBoefje(id: PluginId) returns (found: bool)
      modifies this
      ensures found == (id in old(KnownBoefjes()))
      ensures boefjes == if found then old(boefjes) + {id} else old(boefjes)
      ensures normalizers == old(normalizers)
      ensures Catalog() == old(Catalog())
    {
      if id !in boefjes {
        if id !in local || local[id] != Boefje { return false; }
        boefjes := boefjes + {id};
      }
      found := true;
    }

    /** `_put_normalizer`. */
    method PutNormalizer(id: PluginId) returns (found: bool)
      modifies this
      ensures found == (old(id in normalizers) || (id in local && local[id] == Normalizer))
      ensures normalizers == if found then old(normalizers) + {id} else old(normalizers)
      ensures boefjes == old(boefjes)
      ensures Catalog() == old(Catalog())
    {
      if id !in normalizers {
        if id !in local || local[id] != Normalizer { return false; }
        normalizers := normalizers + {id};
      }
      found := true;
    }

    /** `set_enabled_by_id`. */
    method SetEnabledById(id: PluginId, organisation: OrganisationId, value: bool) returns (ok: bool)
      modifies this, config
      ensures Catalog() == old(Catalog())
      ensures ok == (id in old(KnownPlugins())) == old(id in boefjes || id in normalizers || id in local)
      ensures ok ==> config.StatesOf(organisation) == old(config.StatesOf(organisation))[id := value]
      ensures !ok ==> config.StatesOf(organisation) == old(config.StatesOf(organisation))
      ensures config.Rest(organisation) == old(config.Rest(organisation))
      ensures SameSettings(config.AllSettings(organisation), old(config.AllSettings(organisation)))
    {
      ok := PutBoefje(id);
      if !ok {
        ok := PutNormalizer(id);
        if !ok { return; }
      }
      config.Upsert(organisation, id, None, Some(value));
    }

    /** A loop over plugins. */
    method SetAll(ids: seq<PluginId>, organisation: OrganisationId, value: bool) returns (ok: bool)
      modifies this, config
      ensures Catalog() == old(Catalog())
      ensures ok == (ToSet(ids) <= old(KnownPlugins()))
      ensures ok ==> config.StatesOf(organisation) == Overlay(old(config.StatesOf(organisation)), ToSet(ids), value)
      ensures OnlyStates(old(config.StatesOf(organisation)), config.StatesOf(organisation), ToSet(ids))
      ensures config.Rest(organisation) == old(config.Rest(organisation))
      ensures SameSettings(config.AllSettings(organisation), old(config.AllSettings(organisation)))
    {
      ghost var before, known := config.StatesOf(organisation), KnownPlugins();
      for k := 0 to |ids|
        invariant Catalog() == old(Catalog()) && KnownPlugins() == known
        invariant forall i | 0 <= i < k :: ids[i] in known
        invariant config.StatesOf(organisation) == SetEach(before, ids[..k], value)
        invariant config.Rest(organisation) == old(config.Rest(organisation))
        invariant SameSettings(config.AllSettings(organisation), old(config.AllSettings(organisation)))
      {
        SetEachIsOverlay(before, ids[..k], value);
        ok := SetEnabledById(ids[k], organisation, value);
        if !ok { return; }
        assert ids[..k + 1][..k] == ids[..k];
      }
      ok := true;
      assert ids[..|ids|] == ids;
      SetEachIsOverlay(before, ids, value);
    }

    /** `upsert_settings`. */
    method UpsertSettings(settings: Settings, organisation: OrganisationId, id: PluginId) returns (ok: bool)
      modifies this, config
      ensures Catalog() == old(Catalog()) && ok == (conforms(id, settings) && id in old(KnownBoefjes()))
      ensures ok <==> conforms(id, settings) && old(id in boefjes || (id in local && local[id] == Boefje))
      ensures if ok
        then Updated(old(config.AllSettings(organisation)), config.AllSettings(organisation), id, settings)
        else config.AllSettings(organisation) == old(config.AllSettings(organisation))
      ensures config.StatesOf(organisation) == old(config.StatesOf(organisation))
      ensures config.Rest(organisation) == old(config.Rest(organisation))
    {
      if !conforms(id, settings) { return false; }
      ok := PutBoefje(id);
      if ok { config.Upsert(organisation, id, Some(settings), None); }
    }

    predicate AllConform(all: map<PluginId, Settings>, ids: set<PluginId>) {
      forall id | id in ids :: Get(all, id) == map[] || conforms(id, Get(all, id))
    }

    predicate Copyable(source: OrganisationId)
      reads this, config
    {
      AllConform(config.AllSettings(source), CatalogBoefjes())
    }

    /** One iteration: empty settings are not copied. */
    method CopyPlugin(id: PluginId, source: OrganisationId, target: OrganisationId) returns (ok: bool)
      requires id in CatalogBoefjes()
      modifies this, config
      ensures Catalog() == old(Catalog())
      ensures ok == (old(config.SettingsOf(source, id)) == map[] || conforms(id, old(config.SettingsOf(source, id))))
      ensures !ok ==> config.AllSettings(target) == old(config.AllSettings(target))
      ensures ok ==> if old(config.SettingsOf(source, id)) == map[]
        then config.AllSettings(target) == old(config.AllSettings(target))
        else Updated(old(config.AllSettings(target)), config.AllSettings(target), id,
                     old(config.SettingsOf(source, id)))
      ensures config.StatesOf(target) == old(config.StatesOf(target))
      ensures config.Rest(target) == old(config.Rest(target))
    {
      var settings := config.SettingsOf(source, id);
      ok := true;
      if settings != map[] { ok := UpsertSettings(settings, target, id); }
    }

    /** The loop over all boefjes. */
    method CopySettings(source: OrganisationId, target: OrganisationId) returns (ok: bool)
      modifies this, config
      ensures Catalog() == old(Catalog()) && ok == old(Copyable(source))
      ensures ok ==> AreCopied(config.AllSettings(target), old(CatalogBoefjes()),
                               old(config.AllSettings(source)), old(config.AllSettings(target)))
      ensures SomeCopied(config.AllSettings(target), old(CatalogBoefjes()),
                         old(config.AllSettings(source)), old(config.AllSettings(target)))
      ensures config.StatesOf(target) == old(config.StatesOf(target))
      ensures config.Rest(target) == old(config.Rest(target))
    {
      if source != target { config.RestTells(target, source); }
      ghost var from, to := config.AllSettings(source), config.AllSettings(target);
      var plugins := ListOf(CatalogBoefjes());
      for k := 0 to |plugins|
        invariant Catalog() == old(Catalog()) && CatalogBoefjes() == ToSet(plugins)
        invariant AllConform(from, ToSet(plugins[..k]))
        invariant AreCopied(config.AllSettings(target), ToSet(plugins[..k]), from, to)
        invariant config.StatesOf(target) == old(config.StatesOf(target))
        invariant config.Rest(target) == old(config.Rest(target))
      {
        ghost var now := config.AllSettings(target);
        if source != target { config.RestTells(target, source); }
        SourceStays(config.AllSettings(source), now, ToSet(plugins[..k]), from, to, plugins[k]);
        ok := CopyPlugin(plugins[k], source, target);
        if !ok { return; }
        CopyOne(now, config.AllSettings(target), ToSet(plugins[..k]), plugins[k], from, to);
        ToSetSnoc(plugins, k);
      }
      ok := true;
      assert plugins[..|plugins|] == plugins;
    }

    /** `clone_settings_to_organisation`; the answer is whether it raises nothing. */
    method CloneSettingsToOrganisation(source: OrganisationId, target: OrganisationId) returns (ok: bool)
      modifies this, config
      ensures Catalog() == old(Catalog())
      ensures source != target ==>
        (ok <==> old(Copyable(source)) &&
                 Touched(old(config.StatesOf(source)), old(config.StatesOf(target))) <= old(KnownPlugins()))
      ensures ok && source != target ==>
        config.StatesOf(target) == Cloned(old(config.StatesOf(source)), old(config.StatesOf(target)))
      ensures ok && source == target ==>
        var before := old(config.StatesOf(target));
        config.StatesOf(target) == Overlay(before, EnabledBoefjes(before), false)
      ensures ok ==> AreCopied(config.AllSettings(target), old(CatalogBoefjes()),
                               old(config.AllSettings(source)), old(config.AllSettings(target)))
      ensures source != target ==>
        OnlyStates(old(config.StatesOf(target)), config.StatesOf(target),
                   Touched(old(config.StatesOf(source)), old(config.StatesOf(target))))
      ensures SomeCopied(config.AllSettings(target), old(CatalogBoefjes()),
                         old(config.AllSettings(source)), old(config.AllSettings(target)))
      ensures config.Rest(target) == old(config.Rest(target))
    {
      if source != target { config.RestTells(target, source); }
      ghost var before, from, to := config.StatesOf(target), config.AllSettings(source), config.AllSettings(target);
      var ids := ListOf(EnabledBoefjes(config.StatesOf(target)));
      ok := SetAll(ids, target, false);
      if !ok { return; }
      ids := ListOf(EnabledNormalizers(config.StatesOf(target)));
      ok := SetAll(ids, target, true);
      if !ok { return; }
      PrepareTarget(before);
      if source != target { config.RestTells(target, source); }
      ghost var sameSource, first := config.AllSettings(source), config.AllSettings(target);
      assert SameSettings(sameSource, from) && SameSettings(first, to);
      assert Copyable(source) == old(Copyable(source));
      ok := CopySettings(source, target);
      if !ok { return; }
      if source != target { config.RestTells(target, source); }
      ghost var after := config.AllSettings(target);
      ids := ListOf(EnabledBoefjes(config.StatesOf(source)));
      ok := SetAll(ids, target, true);
      if !ok { return; }
      if source != target { config.RestTells(target, source); }
      ids := ListOf(DisabledNormalizers(config.StatesOf(source)));
      ok := SetAll(ids, target, false);
      if !ok { return; }
      if source != target { config.RestTells(target, source); }
      CopiedBetween(first, after, config.AllSettings(target), old(CatalogBoefjes()), from, sameSource, to);
      if source != target {
        ClonedInSteps(config.StatesOf(source), before);
      } else {
        SelfCloneInSteps(before);
      }
    }

    /** A clone that succeeds can be repeated: the second one succeeds too and leaves the same states and settings. */
    method CloneTwice(source: OrganisationId, target: OrganisationId) returns (first: bool, second: bool)
      requires source != target
      modifies this, config
      ensures first ==> second
      ensures second ==>
        && config.StatesOf(target) == Cloned(old(config.StatesOf(source)), old(config.StatesOf(target)))
        && AreCopied(config.AllSettings(target), old(CatalogBoefjes()),
                     old(config.AllSettings(source)), old(config.AllSettings(target)))
      ensures config.Rest(target) == old(config.Rest(target))
    {
      config.RestTells(target, source);
      ghost var from, to, source0 := config.StatesOf(source), config.StatesOf(target), config.AllSettings(source);
      ghost var target0, boefjes := config.AllSettings(target), CatalogBoefjes();
      first := CloneSettingsToOrganisation(source, target);
      if !first { return first, false; }
      config.RestTells(target, source);
      ghost var once := config.AllSettings(target);
      CloneIdempotent(from, to);
      second := CloneSettingsToOrganisation(source, target);
      CopyIdempotent(once, config.AllSettings(target), boefjes, source0, target0);
    }
  }

  /** The given boefjes have the non-empty settings of the source, and everything else is as in the target. */
  ghost predicate AreCopied(after: map<PluginId, Settings>, boefjes: set<PluginId>, source: map<PluginId, Settings>,
                            target: map<PluginId, Settings>)
  {
    forall p :: Get(after, p) == if p in boefjes && Get(source, p) != map[] then Get(source, p) else Get(target, p)
  }

  /** Some of these boefjes have the settings of the source, and everything else is as in the target. */
  ghost predicate SomeCopied(after: map<PluginId, Settings>, boefjes: set<PluginId>, source: map<PluginId, Settings>,
                             target: map<PluginId, Settings>)
  {
    forall p :: Get(after, p) == Get(target, p) || (p in boefjes && Get(after, p) == Get(source, p) != map[])
  }

  /** Only the given plugins may have another state. */
  ghost predicate OnlyStates(before: States, after: States, ids: set<PluginId>) {
    forall p | p !in ids :: (p in after <==> p in before) && (p in before ==> after[p] == before[p])
  }

  /** Copying to the organisation itself leaves what is still to be copied as it was. */
  lemma SourceStays(source: map<PluginId, Settings>, target: map<PluginId, Settings>, done: set<PluginId>,
                    from: map<PluginId, Settings>, to: map<PluginId, Settings>, id: PluginId)
    requires AreCopied(target, done, from, to)
    requires source == from || (source == target && from == to)
    ensures Get(source, id) == Get(from, id)
  {
  }

  lemma CopyOne(now: map<PluginId, Settings>, after: map<PluginId, Settings>, done: set<PluginId>, id: PluginId,
                source: map<PluginId, Settings>, target: map<PluginId, Settings>)
    requires AreCopied(now, done, source, target)
    requires if Get(source, id) == map[] then after == now else Updated(now, after, id, Get(source, id))
    ensures AreCopied(after, done + {id}, source, target)
  {
  }

  lemma CopiedBetween(first: map<PluginId, Settings>, after: map<PluginId, Settings>, last: map<PluginId, Settings>,
                      boefjes: set<PluginId>, source: map<PluginId, Settings>, sameSource: map<PluginId, Settings>,
                      target: map<PluginId, Settings>)
    requires AreCopied(after, boefjes, sameSource, first)
    requires SameSettings(sameSource, source) && SameSettings(first, target) && SameSettings(last, after)
    ensures AreCopied(last, boefjes, source, target)
  {
  }

  /** The plugins whose state a clone sets. */
  function Touched(source: States, target: States): set<PluginId> {
    EnabledBoefjes(target) + EnabledNormalizers(target) + EnabledBoefjes(source) + DisabledNormalizers(source)
  }

  /** The states that a clone leaves: a boefje is enabled if it is in the source, a normalizer if it was and is not
      disabled in the source. */
  function Cloned(source: States, target: States): States {
    map id | id in target.Keys + EnabledBoefjes(source) + DisabledNormalizers(source) :: ClonedState(source, target, id)
  }

  function ClonedState(source: States, target: States, id: PluginId): bool
    requires id in target.Keys + EnabledBoefjes(source) + DisabledNormalizers(source)
  {
    if IsNormalizer(id) then id !in DisabledNormalizers(source) && target[id] else id in EnabledBoefjes(source)
  }

  lemma PrepareTarget(target: States)
    ensures EnabledNormalizers(Overlay(target, EnabledBoefjes(target), false)) == EnabledNormalizers(target)
    ensures Overlay(Overlay(target, EnabledBoefjes(target), false), EnabledNormalizers(target), true)
         == Overlay(target, EnabledBoefjes(target), false)
  {
  }

  lemma ClonedInSteps(source: States, target: States)
    ensures Overlay(Overlay(Overlay(target, EnabledBoefjes(target), false), EnabledBoefjes(source), true),
                    DisabledNormalizers(source), false) == Cloned(source, target)
  {
  }

  lemma SelfCloneInSteps(target: States)
    ensures var cleared := Overlay(target, EnabledBoefjes(target), false);
      EnabledBoefjes(cleared) == {} && Overlay(cleared, EnabledBoefjes(cleared), true) == cleared
      && Overlay(cleared, DisabledNormalizers(cleared), false) == cleared
  {
  }

  function SetEach(states: States, ids: seq<PluginId>, value: bool): States {
    if ids == [] then states else SetEach(states, ids[..|ids| - 1], value)[ids[|ids| - 1] := value]
  }

  lemma {:induction false} SetEachIsOverlay(states: States, ids: seq<PluginId>, value: bool)
    ensures SetEach(states, ids, value) == Overlay(states, ToSet(ids), value)
  {
    if ids == [] {
    } else {
      var n := |ids| - 1;
      SetEachIsOverlay(states, ids[..n], value);
      ToSetSnoc(ids, n);
      assert ids[..n + 1] == ids;
      OverlayOne(states, ToSet(ids[..n]), ids[n], value);
    }
  }

  lemma OverlayOne(states: States, ids: set<PluginId>, id: PluginId, value: bool)
    ensures Overlay(states, ids, value)[id := value] == Overlay(states, ids + {id}, value)
  {
  }

  /* ---------- what a clone does ---------- */

  /** The target's enabled boefjes become exactly those of the source. */
  lemma SameBoefjes(source: States, target: States)
    ensures EnabledBoefjes(Cloned(source, target)) == EnabledBoefjes(source)
  {
  }

  /** The target's disabled normalizers become those of both. */
  lemma DisabledOfBoth(source: States, target: States)
    ensures DisabledNormalizers(Cloned(source, target)) == DisabledNormalizers(source) + DisabledNormalizers(target)
  {
    var after := Cloned(source, target);
    forall id
      ensures id in DisabledNormalizers(after)
         <==> id in DisabledNormalizers(source) || id in DisabledNormalizers(target)
    {
      if IsNormalizer(id) && id in target && id !in DisabledNormalizers(source) { assert after[id] == target[id]; }
      if id in DisabledNormalizers(source) { assert id in after && !after[id]; }
    }
  }

  /** The requirement that only normalizers disabled in the source end up disabled, lines 89-90. */
  predicate OnlySourceDisabled(source: States, after: States) {
    DisabledNormalizers(after) <= DisabledNormalizers(source)
  }

  /** The requirement is met exactly if the target had no other normalizers disabled. */
  lemma OnlySourceDisabledIff(source: States, target: States)
    ensures OnlySourceDisabled(source, Cloned(source, target))
       <==> DisabledNormalizers(target) <= DisabledNormalizers(source)
  {
    DisabledOfBoth(source, target);
  }

  /** A target with a normalizer disabled keeps it disabled, although the source does not disable it. */
  lemma StaysDisabled()
    ensures var target := map["kat_dns_normalize" := false];
      Cloned(map[], target) == target && !OnlySourceDisabled(map[], Cloned(map[], target))
  {
    var id, target := "kat_dns_normalize", map["kat_dns_normalize" := false];
    assert IsNormalizer(id) by {
      NormAt(id, 8);
    }
    assert Cloned(map[], target) == target;
    assert id in DisabledNormalizers(target);
  }

  /** A normalizer is a plugin with "norm" somewhere in its id. */
  lemma {:induction false} IsNormalizerIff(id: PluginId)
    ensures IsNormalizer(id) <==> exists i: nat :: NormStarts(id, i)
  {
    if i: nat :| NormStarts(id, i) { NormAt(id, i); }
    if IsNormalizer(id) {
      if id[..4] == "norm" {
        assert NormStarts(id, 0);
      } else {
        IsNormalizerIff(id[1..]);
        var i: nat :| NormStarts(id[1..], i);
        assert id[1..][i..i + 4] == id[i + 1..i + 5];
        assert NormStarts(id, i + 1);
      }
    }
  }

  predicate NormStarts(id: PluginId, i: nat) {
    i + 4 <= |id| && id[i..i + 4] == "norm"
  }

  lemma {:induction false} NormAt(id: PluginId, i: nat)
    requires i + 4 <= |id| && id[i..i + 4] == "norm"
    ensures IsNormalizer(id)
  {
    if i == 0 {
    } else {
      assert id[1..][i - 1..i + 3] == id[i..i + 4];
      NormAt(id[1..], i - 1);
    }
  }

  /** Cloning again changes nothing, and concerns no plugin that the first clone did not. */
  lemma CloneIdempotent(source: States, target: States)
    ensures Cloned(source, Cloned(source, target)) == Cloned(source, target)
    ensures Touched(source, Cloned(source, target)) <= Touched(source, target)
  {
    SameBoefjes(source, target);
    forall id | id in EnabledNormalizers(Cloned(source, target)) ensures id in EnabledNormalizers(target) {
      assert ClonedState(source, target, id);
    }
  }

  lemma CopyIdempotent(once: map<PluginId, Settings>, twice: map<PluginId, Settings>, boefjes: set<PluginId>,
                       source: map<PluginId, Settings>, target: map<PluginId, Settings>)
    requires AreCopied(once, boefjes, source, target) && AreCopied(twice, boefjes, source, once)
    ensures SameSettings(twice, once)
  {
  }

  /** Whether a plugin counts as enabled: without a state a boefje does not, and a normalizer does. */
  predicate IsEnabled(states: States, id: PluginId) {
    if id in states then states[id] else IsNormalizer(id)
  }

  /** For the plugins as they are listed: a boefje is as in the source, a normalizer is enabled if it was in both. */
  lemma EnabledAfterClone(source: States, target: States, id: PluginId)
    ensures IsEnabled(Cloned(source, target), id) <==>
      if IsNormalizer(id) then IsEnabled(source, id) && IsEnabled(target, id) else IsEnabled(source, id)
  {
  }
}
