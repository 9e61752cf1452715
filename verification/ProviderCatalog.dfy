/**
 * src/easycat/_provider_catalog.py: registration into seven parallel per-name dictionaries and one
 * keyed by configuration class, and the lookups that go from a configuration back to a name.
 *
 * Classes and capability resolvers are numbers compared by identity. Names arrive stripped and in
 * lower case. `order` is the insertion order of the dictionaries, which `next(...)` searches.
 */
module ProviderCatalog {
  import opened Prelude

  datatype Spec = Spec(
    provider: nat, config: nat, envVar: Option<string>, extra: string, domains: seq<string>,
    probe: Option<string>, capabilities: set<string>, resolver: Option<nat>)

  datatype Refusal = EmptyName | BlankEnvVar | RegisteredDifferently | ConfigTaken | AliasDiffers | Unsupported | KeyRequired

  /** What `str.strip` removes. */
  predicate IsSpace(c: char) {
    var n := c as int;
    9 <= n <= 13 || 28 <= n <= 32 || n in {133, 160, 5760, 8232, 8233, 8239, 8287, 12288} || 8192 <= n <= 8202
  }

  predicate Blank(s: string) { forall i :: 0 <= i < |s| ==> IsSpace(s[i]) }

  /** `s.strip()`. */
  function Stripped(s: string): string {
    if s != "" && IsSpace(s[0]) then Stripped(s[1..])
    else if s != "" && IsSpace(s[|s| - 1]) then Stripped(s[..|s| - 1])
    else s
  }

  lemma {:induction false} BlankIsStripped(s: string)
    ensures Blank(s) <==> Stripped(s) == ""
  {
    if s != "" {
      if IsSpace(s[0]) {
        BlankIsStripped(s[1..]);
        assert forall i :: 0 < i < |s| ==> s[i] == s[1..][i - 1];
      } else if IsSpace(s[|s| - 1]) {
        BlankIsStripped(s[..|s| - 1]);
        assert s[..|s| - 1][0] == s[0];
      }
    }
  }

  /** `_same_alias_metadata`. */
  predicate SameAliasMetadata(a: Spec, b: Spec) {
    a.envVar == b.envVar && a.extra == b.extra && a.domains == b.domains && a.probe == b.probe
    && a.capabilities == b.capabilities && a.resolver == b.resolver
  }

  /** Names that share a configuration class are interchangeable. */
  ghost predicate AliasesAgree(specs: map<string, Spec>) {
    forall a, b :: a in specs && b in specs && specs[a].config == specs[b].config ==> specs[a] == specs[b]
  }

  /** Registering `spec` as `name` would keep every promise the catalog makes. */
  ghost predicate Fits(specs: map<string, Spec>, name: string, spec: Spec) {
    && (name in specs ==> specs[name] == spec)
    && (forall a :: a in specs && specs[a].config == spec.config ==> specs[a] == spec)
  }

  /** `name` is a registered name of `config`, and stands for the provider it maps to. */
  ghost predicate Names(specs: map<string, Spec>, configToProvider: map<nat, nat>, name: string, config: nat) {
    && name in specs && config in configToProvider
    && specs[name].config == config && specs[name].provider == configToProvider[config]
  }

  /** A configuration is known exactly when some name has it, and then maps to that name's provider. */
  ghost predicate ConfigsMapped(specs: map<string, Spec>, configToProvider: map<nat, nat>) {
    && (forall name :: name in specs ==> specs[name].config in configToProvider)
    && (forall c :: c in configToProvider ==> exists name :: Names(specs, configToProvider, name, c))
  }

  /** The seven per-name dictionaries. */
  datatype Tables = Tables(
    providers: map<string, (nat, nat)>, envVars: map<string, Option<string>>, extras: map<string, string>,
    apiDomains: map<string, seq<string>>, probeModules: map<string, Option<string>>,
    capabilities: map<string, set<string>>, resolvers: map<string, Option<nat>>)
  {
    function With(name: string, s: Spec): Tables {
      Tables(providers[name := (s.provider, s.config)], envVars[name := s.envVar], extras[name := s.extra],
             apiDomains[name := s.domains], probeModules[name := s.probe],
             capabilities[name := s.capabilities], resolvers[name := s.resolver])
    }

    predicate InAll(name: string) {
      name in providers && name in envVars && name in extras && name in apiDomains && name in probeModules
      && name in capabilities && name in resolvers
    }

    predicate InNone(name: string) {
      name !in providers && name !in envVars && name !in extras && name !in apiDomains && name !in probeModules
      && name !in capabilities && name !in resolvers
    }

    function At(name: string): Spec
      requires InAll(name)
    {
      Spec(providers[name].0, providers[name].1, envVars[name], extras[name], apiDomains[name], probeModules[name],
           capabilities[name], resolvers[name])
    }
  }

  /** All seven dictionaries have the registered names as their keys, and together say what was registered. */
  ghost predicate Says(t: Tables, specs: map<string, Spec>) {
    && (forall name :: name in specs ==> t.InAll(name) && t.At(name) == specs[name])
    && (forall name :: name !in specs ==> t.InNone(name))
  }

  lemma SaysStill(t: Tables, specs: map<string, Spec>, name: string, spec: Spec)
    requires Says(t, specs)
    ensures Says(t.With(name, spec), specs[name := spec])
  {
    var u := t.With(name, spec);
    forall n | n in specs[name := spec] ensures u.InAll(n) && u.At(n) == specs[name := spec][n] {
      if n != name {
        assert t.InAll(n) && t.At(n) == specs[n];
      }
    }
    forall n | n !in specs[name := spec] ensures u.InNone(n) {
      assert t.InNone(n);
    }
  }

  lemma MappedStill(specs: map<string, Spec>, configToProvider: map<nat, nat>, name: string, spec: Spec)
    requires ConfigsMapped(specs, configToProvider) && name !in specs
    requires spec.config in configToProvider ==> configToProvider[spec.config] == spec.provider
    ensures ConfigsMapped(specs[name := spec], configToProvider[spec.config := spec.provider])
  {
    var specs', mapped := specs[name := spec], configToProvider[spec.config := spec.provider];
    forall c | c in mapped ensures exists n :: Names(specs', mapped, n, c) {
      if c == spec.config {
        assert Names(specs', mapped, name, c);
      } else {
        var n :| Names(specs, configToProvider, n, c);
        assert Names(specs', mapped, n, c);
      }
    }
  }

  class ProviderCatalog {
    var order: seq<string>
    var providers: map<string, (nat, nat)>
    var envVars: map<string, Option<string>>
    var extras: map<string, string>
    var apiDomains: map<string, seq<string>>
    var probeModules: map<string, Option<string>>
    var capabilities: map<string, set<string>>
    var capabilityResolvers: map<string, Option<nat>>
    var configToProvider: map<nat, nat>
    // What the dictionaries say together.
    ghost var specs: map<string, Spec>

    ghost function View(): Tables
      reads this
    {
      Tables(providers, envVars, extras, apiDomains, probeModules, capabilities, capabilityResolvers)
    }

    ghost predicate Ordered()
      reads `order, `specs
    {
      forall name :: name in order <==> name in specs
    }

    ghost predicate Valid()
      reads this
    {
      Says(View(), specs) && Ordered() && AliasesAgree(specs) && ConfigsMapped(specs, configToProvider)
    }

    lemma RowOf(name: string)
      requires Valid()
      ensures (name in providers <==> name in specs)
      ensures name in specs ==> View().InAll(name) && View().At(name) == specs[name] && name in order
    {
    }

    constructor ()
      ensures Valid() && specs == map[]
    {
      order, providers, envVars, extras, apiDomains := [], map[], map[], map[], map[];
      probeModules, capabilities, capabilityResolvers, configToProvider, specs := map[], map[], map[], map[], map[];
    }

    function SpecAt(name: string): (s: Spec)
      requires View().InAll(name)
      reads this
      ensures s == View().At(name)
    {
      Spec(providers[name].0, providers[name].1, envVars[name], extras[name], apiDomains[name],
           probeModules[name], capabilities[name], capabilityResolvers[name])
    }

    /** `next(name for name, (p, c) in self.providers.items() if c is config)`. */
    method FirstNameOf(config: nat) returns (found: Option<string>)
      requires Valid()
      ensures found.Some? <==> config in configToProvider
      ensures found.Some? ==> Names(specs, configToProvider, found.value, config)
      ensures found.Some? ==> View().InAll(found.value) && View().At(found.value) == specs[found.value]
      ensures found == None ==> forall name :: name in specs ==> specs[name].config != config
    {
      hide Says, AliasesAgree, ConfigsMapped;
      for i := 0 to |order|
        invariant forall j :: 0 <= j < i ==> order[j] in specs && specs[order[j]].config != config
      {
        RowOf(order[i]);
        if SpecAt(order[i]).config == config {
          ConfigOf(order[i]);
          return Some(order[i]);
        }
      }
      NoName(config);
      return None;
    }

    lemma NoName(config: nat)
      requires Valid() && forall name :: name in specs ==> specs[name].config != config
      ensures config !in configToProvider
    {
    }

    /** Whatever name of a configuration is found, its provider is the one the configuration maps to. */
    lemma ConfigOf(name: string)
      requires Valid() && name in specs
      ensures Names(specs, configToProvider, name, specs[name].config)
      ensures forall a :: a in specs && specs[a].config == specs[name].config ==> specs[a] == specs[name]
    {
    }

    /**
     * Registers a provider exactly when that keeps names that share a configuration interchangeable.
     * A refused or repeated registration changes nothing.
     */
    method Register(name: string, spec: Spec) returns (refused: Option<Refusal>)
      requires Valid()
      modifies this
      ensures Valid()
      ensures refused == None <==>
              name != "" && !(spec.envVar.Some? && Blank(spec.envVar.value)) && old(Fits(specs, name, spec))
      ensures refused == None ==> specs == old(specs)[name := spec]
      ensures refused.Some? || name in old(specs) ==> unchanged(this)
      ensures refused == Some(ConfigTaken) ==>
                exists a :: a in specs && specs[a].config == spec.config && specs[a].provider != spec.provider
      ensures refused == Some(RegisteredDifferently) ==> name in specs && specs[name] != spec
    {
      hide Says, Ordered, ConfigsMapped;
      if name == "" { return Some(EmptyName); }
      if spec.envVar.Some? && Blank(spec.envVar.value) { return Some(BlankEnvVar); }
      RowOf(name);
      if name in providers {
        ConfigOf(name);
        return if SpecAt(name) == spec then None else Some(RegisteredDifferently);
      }
      if spec.config in configToProvider {
        var existing := FirstNameOf(spec.config);
        ConfigOf(existing.value);
        if configToProvider[spec.config] != spec.provider { return Some(ConfigTaken); }
        if !SameAliasMetadata(SpecAt(existing.value), spec) { return Some(AliasDiffers); }
      } else {
        NewConfigFits(spec.config);
      }
      Record(name, spec);
      refused := None;
    }

    lemma NewConfigFits(config: nat)
      requires Valid() && config !in configToProvider
      ensures forall a :: a in specs ==> specs[a].config != config
    {
    }

    method Record(name: string, spec: Spec)
      requires Valid() && name !in specs && Fits(specs, name, spec)
      requires spec.config in configToProvider ==> configToProvider[spec.config] == spec.provider
      modifies this
      ensures Valid() && specs == old(specs)[name := spec]
    {
      hide AliasesAgree, ConfigsMapped, Says, Ordered;
      AgreeStill(specs, name, spec);
      MappedStill(specs, configToProvider, name, spec);
      SaysStill(View(), specs, name, spec);
      RecordRow(name, spec);
      configToProvider := configToProvider[spec.config := spec.provider];
    }

    method RecordRow(name: string, spec: Spec)
      requires Ordered()
      modifies `order, `providers, `envVars, `extras, `apiDomains, `probeModules, `capabilities, `capabilityResolvers, `specs
      ensures View() == old(View()).With(name, spec) && Ordered() && specs == old(specs)[name := spec]
    {
      providers := providers[name := (spec.provider, spec.config)];
      envVars := envVars[name := spec.envVar];
      extras := extras[name := spec.extra];
      apiDomains := apiDomains[name := spec.domains];
      probeModules := probeModules[name := spec.probe];
      capabilities := capabilities[name := spec.capabilities];
      capabilityResolvers := capabilityResolvers[name := spec.resolver];
      order := order + [name];
      specs := specs[name := spec];
    }

    /** `provider_for_config`. */
    method ProviderForConfig(config: nat) returns (r: Result<nat, Refusal>)
      requires Valid()
      ensures r.Ok? <==> exists name :: name in specs && specs[name].config == config
      ensures r.Ok? ==> forall name :: name in specs && specs[name].config == config ==> specs[name].provider == r.value
    {
      hide Says;
      if config !in configToProvider { return Err(Unsupported); }
      ghost var name :| Names(specs, configToProvider, name, config);
      ConfigOf(name);
      return Ok(configToProvider[config]);
    }

    /** `capabilities_for_config`; `resolve` is what the resolvers answer for this configuration. */
    method CapabilitiesForConfig(config: nat, resolve: nat -> set<string>) returns (caps: set<string>)
      requires Valid()
      ensures (forall name :: name in specs ==> specs[name].config != config) ==> caps == {}
      ensures forall name :: name in specs && specs[name].config == config ==>
                caps == specs[name].capabilities
                        + if specs[name].resolver.Some? then resolve(specs[name].resolver.value) else {}
    {
      hide Says, Ordered, ConfigsMapped, AliasesAgree;
      var name := FirstNameOf(config);
      if name == None { return {}; }
      ConfigOf(name.value);
      caps := capabilities[name.value];
      if capabilityResolvers[name.value].Some? {
        caps := caps + resolve(capabilityResolvers[name.value].value);
      }
    }

    /** The lookups of `create_from_config`: the name is always found, and no alias would need another key. */
    method CreateFromConfig(config: nat, hasKey: bool) returns (r: Result<nat, Refusal>)
      requires Valid()
      ensures (forall name :: name in specs ==> specs[name].config != config) ==> r == Err(Unsupported)
      ensures forall name :: name in specs && specs[name].config == config ==>
                r == if specs[name].envVar.Some? && !hasKey then Err(KeyRequired) else Ok(specs[name].provider)
    {
      hide Says, Ordered, ConfigsMapped, AliasesAgree;
      r := ProviderForConfig(config);
      if r.Err? { return Err(Unsupported); }
      var name := FirstNameOf(config);
      ConfigOf(name.value);
      if envVars[name.value].Some? && !hasKey { return Err(KeyRequired); }
    }
  }

  lemma AgreeStill(specs: map<string, Spec>, name: string, spec: Spec)
    requires AliasesAgree(specs) && Fits(specs, name, spec)
    ensures AliasesAgree(specs[name := spec])
  {
  }

  datatype Named = Named(name: string, spec: Spec)

  function SpecsOf(named: seq<Named>): map<string, Spec> {
    if named == [] then map[]
    else SpecsOf(named[..|named| - 1])[named[|named| - 1].name := named[|named| - 1].spec]
  }

  ghost predicate DistinctNames(named: seq<Named>) {
    forall i, j :: 0 <= i < j < |named| ==> named[i].name != named[j].name
  }

  lemma {:induction false} SpecsOfKeys(named: seq<Named>)
    requires DistinctNames(named)
    ensures forall name :: name in SpecsOf(named) ==> exists i :: 0 <= i < |named| && named[i].name == name
    ensures forall i :: 0 <= i < |named| ==> named[i].name in SpecsOf(named) && SpecsOf(named)[named[i].name] == named[i].spec
  {
    if named != [] {
      var first, last := named[..|named| - 1], named[|named| - 1];
      SpecsOfKeys(first);
      hide SpecsOf;
      assert SpecsOf(named) == SpecsOf(first)[last.name := last.spec] by { SpecsOfSnoc(named); }
      forall name | name in SpecsOf(named) ensures exists i :: 0 <= i < |named| && named[i].name == name {
        if name == last.name {
          assert named[|named| - 1].name == name;
        } else {
          var i :| 0 <= i < |first| && first[i].name == name;
          assert named[i].name == name;
        }
      }
      forall i | 0 <= i < |named|
        ensures named[i].name in SpecsOf(named) && SpecsOf(named)[named[i].name] == named[i].spec
      {
        if i < |first| {
          assert named[i] == first[i];
        }
      }
    }
  }

  lemma SpecsOfSnoc(named: seq<Named>)
    requires named != []
    ensures var first, last := named[..|named| - 1], named[|named| - 1];
            SpecsOf(named) == SpecsOf(first)[last.name := last.spec]
  {
  }

  /** `__post_init__`: the catalog is built exactly when its aliases agree. */
  method Build(named: seq<Named>) returns (catalog: Option<ProviderCatalog>)
    requires DistinctNames(named)
    ensures catalog.Some? <==> AliasesAgree(SpecsOf(named))
    ensures catalog.Some? ==> fresh(catalog.value) && catalog.value.Valid() && catalog.value.specs == SpecsOf(named)
  {
    hide Says, ProviderCatalog.Ordered, ConfigsMapped, AliasesAgree, SpecsOf;
    var built := new ProviderCatalog();
    NothingYet(named);
    for i := 0 to |named|
      invariant fresh(built) && built.Valid() && built.specs == SpecsOf(named[..i])
    {
      OneMore(named, i);
      var spec := named[i].spec;
      if spec.config in built.configToProvider {
        var existing := built.FirstNameOf(spec.config);
        built.ConfigOf(existing.value);
        if built.configToProvider[spec.config] != spec.provider || !SameAliasMetadata(built.SpecAt(existing.value), spec) {
          Disagreement(named, i, existing.value);
          return None;
        }
      } else {
        built.NewConfigFits(spec.config);
      }
      built.Record(named[i].name, spec);
    }
    assert named[..|named|] == named;
    return Some(built);
  }

  lemma NothingYet(named: seq<Named>)
    ensures SpecsOf(named[..0]) == map[]
  {
  }

  lemma OneMore(named: seq<Named>, i: nat)
    requires DistinctNames(named) && i < |named|
    ensures SpecsOf(named[..i + 1]) == SpecsOf(named[..i])[named[i].name := named[i].spec]
    ensures named[i].name !in SpecsOf(named[..i])
  {
    assert named[..i + 1][..i] == named[..i];
    SpecsOfKeys(named[..i]);
  }

  lemma Disagreement(named: seq<Named>, i: nat, existing: string)
    requires DistinctNames(named) && i < |named| && existing in SpecsOf(named[..i])
    requires SpecsOf(named[..i])[existing].config == named[i].spec.config && SpecsOf(named[..i])[existing] != named[i].spec
    ensures !AliasesAgree(SpecsOf(named))
  {
    SpecsOfKeys(named[..i]);
    SpecsOfKeys(named);
    var j :| 0 <= j < i && named[..i][j].name == existing;
    assert named[j].name in SpecsOf(named) && named[i].name in SpecsOf(named);
  }
}
