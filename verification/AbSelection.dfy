/** Weighted A/B selection among the variants of an organisation whose circuit is not open. */
module AbSelection {
  import opened Options
  import opened CircuitBreaker

  datatype Variant = Variant(model: string, weight: real)

  /** A value found in the raw feature-flag JSON. */
  datatype RawValue = Number(x: real) | Other

  datatype Raw = NotAnObject | Object(entries: seq<(string, RawValue)>)

  const MAX_VARIANTS := 10
  const MAX_WEIGHT := 1000000.0

  predicate Usable(entry: (string, RawValue)) {
    entry.0 != "" && entry.1.Number? && 0.0 < entry.1.x <= MAX_WEIGHT
  }

  ghost predicate Positive(vs: seq<Variant>) { forall i :: 0 <= i < |vs| ==> 0.0 < vs[i].weight }

  function UsableVariants(entries: seq<(string, RawValue)>): (vs: seq<Variant>)
    ensures Positive(vs)
    ensures forall v :: v in vs ==> v.model != "" && 0.0 < v.weight <= 1000000.0
    ensures forall v :: v in vs <==>
              exists i :: 0 <= i < |entries| && Usable(entries[i]) && v == Variant(entries[i].0, entries[i].1.x)
  {
    if entries == [] then []
    else
      var n := |entries| - 1;
      var rest := UsableVariants(entries[..n]);
      assert forall i :: 0 <= i < n ==> entries[..n][i] == entries[i];
      if Usable(entries[n]) then rest + [Variant(entries[n].0, entries[n].1.x)] else rest
  }

  /** coerceAbConfig: the first ten usable entries, or nothing if there is none. */
  function CoerceAbConfig(raw: Raw): (cfg: Option<seq<Variant>>)
    ensures cfg.Some? ==> 1 <= |cfg.value| <= MAX_VARIANTS && Positive(cfg.value)
    ensures cfg.None? <==> raw.NotAnObject? || forall i :: 0 <= i < |raw.entries| ==> !Usable(raw.entries[i])
    ensures cfg.Some? ==> forall v :: v in cfg.value ==> v.model != "" && 0.0 < v.weight <= 1000000.0
  {
    if raw.NotAnObject? then None
    else
      var vs := UsableVariants(raw.entries);
      if vs == [] then
        assert forall i :: 0 <= i < |raw.entries| && Usable(raw.entries[i]) ==>
            Variant(raw.entries[i].0, raw.entries[i].1.x) in vs;
        None
      else
        assert vs[0] in vs;
        Some(if |vs| <= MAX_VARIANTS then vs else vs[..MAX_VARIANTS])
  }

  /** Entries are judged one by one, and their order is kept. */
  lemma {:induction false} UsableInOrder(
    a: seq<(string, RawValue)>, b: seq<(string, RawValue)>, name: string, value: RawValue)
    ensures UsableVariants(a + b) == UsableVariants(a) + UsableVariants(b)
    ensures UsableVariants([(name, value)]) ==
            if name != "" && value.Number? && 0.0 < value.x <= 1000000.0 then [Variant(name, value.x)] else []
  {
    assert [(name, value)][..0] == [];
    if b == [] {
      assert a + b == a;
    } else {
      UsableInOrder(a, b[..|b| - 1], name, value);
      assert (a + b)[..|a + b| - 1] == a + b[..|b| - 1];
    }
  }

  /** The variants kept are the earliest usable ones, and all of them if they fit. */
  lemma CoerceKeepsTheEarliest(raw: Raw) returns (k: nat)
    requires CoerceAbConfig(raw).Some?
    ensures k <= |raw.entries| && CoerceAbConfig(raw).value == UsableVariants(raw.entries[..k])
    ensures |CoerceAbConfig(raw).value| < MAX_VARIANTS ==> k == |raw.entries|
  {
    var vs := UsableVariants(raw.entries);
    if |vs| <= MAX_VARIANTS {
      k := |raw.entries|;
      assert raw.entries[..k] == raw.entries;
    } else {
      k := UsableUpTo(raw.entries, MAX_VARIANTS);
    }
  }

  lemma {:induction false} UsableUpTo(entries: seq<(string, RawValue)>, n: nat) returns (k: nat)
    requires n <= |UsableVariants(entries)|
    ensures k <= |entries| && UsableVariants(entries[..k]) == UsableVariants(entries)[..n]
    decreases |entries|
  {
    if n == |UsableVariants(entries)| {
      k := |entries|;
      assert entries[..k] == entries;
    } else {
      k := UsableUpTo(entries[..|entries| - 1], n);
      assert entries[..|entries| - 1][..k] == entries[..k];
    }
  }

  /** Where a model's requests would go, and what the circuit of each provider says. */
  datatype Registry = Registry(resolve: string -> Option<string>, circuit: string -> CircuitState)

  predicate Available(v: Variant, reg: Registry) {
    var provider := reg.resolve(v.model);
    provider.Some? && reg.circuit(provider.value) != Open
  }

  function AvailableVariants(vs: seq<Variant>, reg: Registry): seq<Variant> {
    if vs == [] then []
    else
      var rest := AvailableVariants(vs[..|vs| - 1], reg);
      if Available(vs[|vs| - 1], reg) then rest + [vs[|vs| - 1]] else rest
  }

  lemma {:induction false} AvailableVariantsAre(vs: seq<Variant>, reg: Registry)
    ensures forall v :: v in AvailableVariants(vs, reg) <==>
              v in vs && reg.resolve(v.model).Some? && reg.circuit(reg.resolve(v.model).value) != Open
  {
    if vs != [] {
      AvailableVariantsAre(vs[..|vs| - 1], reg);
      assert vs == vs[..|vs| - 1] + [vs[|vs| - 1]];
    }
  }

  /** The order is kept, and each variant is judged alone: closed and half-open circuits stay. */
  lemma {:induction false} AvailableInOrder(a: seq<Variant>, b: seq<Variant>, v: Variant, reg: Registry)
    ensures AvailableVariants(a + b, reg) == AvailableVariants(a, reg) + AvailableVariants(b, reg)
    ensures AvailableVariants([v], reg) ==
            match reg.resolve(v.model)
            case None => []
            case Some(provider) => if reg.circuit(provider) == Open then [] else [v]
  {
    assert [v][..0] == [];
    if b == [] {
      assert a + b == a;
    } else {
      AvailableInOrder(a, b[..|b| - 1], v, reg);
      assert (a + b)[..|a + b| - 1] == a + b[..|b| - 1];
    }
  }

  /** The weight of the first i variants together. */
  function Below(vs: seq<Variant>, i: nat): real
    requires i <= |vs|
  {
    if i == 0 then 0.0 else Below(vs, i - 1) + vs[i - 1].weight
  }

  function Total(vs: seq<Variant>): real { Below(vs, |vs|) }

  datatype Selection = Selection(variant: Variant, normalizedWeight: real)

  /** resolveOpenCandidates: the variants, in order, that resolve and whose circuit is not open. */
  method ResolveOpenCandidates(cfg: seq<Variant>, reg: Registry) returns (available: seq<Variant>)
    ensures available == AvailableVariants(cfg, reg)
  {
    available := [];
    for i := 0 to |cfg|
      invariant available == AvailableVariants(cfg[..i], reg)
    {
      assert cfg[..i + 1][..i] == cfg[..i];
      var provider := reg.resolve(cfg[i].model);
      if provider.Some? && reg.circuit(provider.value) != Open {
        available := available + [cfg[i]];
      }
    }
    assert cfg[..|cfg|] == cfg;
  }

  method SumWeights(available: seq<Variant>) returns (totalWeight: real)
    ensures totalWeight == Total(available)
  {
    totalWeight := 0.0;
    for i := 0 to |available|
      invariant totalWeight == Below(available, i)
    {
      totalWeight := totalWeight + available[i].weight;
    }
  }

  /** The loop that takes the weights off the roll one by one. */
  method Draw(available: seq<Variant>, start: real) returns (index: nat)
    requires 0.0 <= start < Total(available)
    ensures index < |available|
    ensures start <= Below(available, index + 1) && (index > 0 ==> Below(available, index) < start)
  {
    var roll := start;
    for i := 0 to |available|
      invariant roll == start - Below(available, i)
      invariant i > 0 ==> roll > 0.0
    {
      roll := roll - available[i].weight;
      if roll <= 0.0 {
        return i;
      }
    }
    // Over exact reals the roll has been used up by now: the trailing fallback is dead code.
    assert false;
  }

  /** selectAbVariant; `random` is in [0, 1). */
  method SelectAbVariant(cfg: seq<Variant>, reg: Registry, random: real)
    returns (chosen: Option<Selection>, ghost index: nat)
    requires Positive(cfg) && 0.0 <= random < 1.0
    ensures chosen.None? <==> AvailableVariants(cfg, reg) == []
    ensures chosen.Some? ==> ChosenBy(AvailableVariants(cfg, reg), random, index, chosen.value)
  {
    var available := ResolveOpenCandidates(cfg, reg);
    if |available| == 0 {
      return None, 0;
    }
    var totalWeight := SumWeights(available);
    TotalIsPositive(cfg, reg);
    var roll := Roll(random, totalWeight);
    var i := Draw(available, roll);
    chosen, index := Some(Normalized(available[i], totalWeight)), i;
    DrawnIsChosen(available, i, random);
  }

  function Roll(random: real, totalWeight: real): (roll: real)
    requires 0.0 <= random < 1.0 && totalWeight > 0.0
    ensures 0.0 <= roll < totalWeight
  {
    MulBelow(random, totalWeight);
    random * totalWeight
  }

  function Normalized(v: Variant, totalWeight: real): Selection
    requires totalWeight > 0.0
  {
    Selection(v, v.weight / totalWeight)
  }

  lemma TotalIsPositive(cfg: seq<Variant>, reg: Registry)
    requires Positive(cfg) && AvailableVariants(cfg, reg) != []
    ensures Total(AvailableVariants(cfg, reg)) > 0.0
  {
    AvailableStayPositive(cfg, reg);
    BelowGrows(AvailableVariants(cfg, reg), 0, |AvailableVariants(cfg, reg)|);
  }

  lemma DrawnIsChosen(vs: seq<Variant>, i: nat, r: real)
    requires i < |vs| && Total(vs) > 0.0 && 0.0 <= r < 1.0
    requires Roll(r, Total(vs)) <= Below(vs, i + 1) && (i > 0 ==> Below(vs, i) < Roll(r, Total(vs)))
    ensures ChosenBy(vs, r, i, Normalized(vs[i], Total(vs)))
  {
    DrawInShare(vs, i, r);
  }

  ghost predicate ChosenBy(vs: seq<Variant>, random: real, index: nat, s: Selection) {
    && index < |vs| && Total(vs) > 0.0 && InShare(vs, index, random)
    && s == Normalized(vs[index], Total(vs))
  }

  lemma MulBelow(x: real, t: real)
    requires 0.0 <= x < 1.0 && t > 0.0
    ensures 0.0 <= x * t < t
  {
  }

  lemma AvailableStayPositive(vs: seq<Variant>, reg: Registry)
    requires Positive(vs)
    ensures Positive(AvailableVariants(vs, reg))
  {
    AvailableVariantsAre(vs, reg);
    forall i | 0 <= i < |AvailableVariants(vs, reg)|
      ensures AvailableVariants(vs, reg)[i].weight > 0.0
    {
      assert AvailableVariants(vs, reg)[i] in vs;
    }
  }

  lemma {:induction false} BelowGrows(vs: seq<Variant>, i: nat, j: nat)
    requires Positive(vs) && i <= j <= |vs|
    ensures Below(vs, i) <= Below(vs, j) && (i < j ==> Below(vs, i) < Below(vs, j))
    decreases j
  {
    if i < j {
      BelowGrows(vs, i, j - 1);
    }
  }

  /** The share of [0, 1) that variant i gets: from the normalized weight of those before it,
      exclusive (inclusive for the first), to that plus its own. */
  function Edge(vs: seq<Variant>, i: nat): real
    requires i <= |vs| && Total(vs) > 0.0
  {
    Below(vs, i) / Total(vs)
  }

  ghost predicate InShare(vs: seq<Variant>, i: nat, r: real)
    requires i < |vs| && Total(vs) > 0.0
  {
    (if i == 0 then 0.0 <= r else Edge(vs, i) < r) && r <= Edge(vs, i + 1)
  }

  lemma DivVersusMul(a: real, r: real, t: real)
    requires t > 0.0
    ensures a / t < r <==> a < r * t
    ensures r <= a / t <==> r * t <= a
  {
    var q := a / t;
    assert q * t == a;
    if q < r {
      assert (r - q) * t > 0.0;
    } else {
      assert (q - r) * t >= 0.0;
    }
  }

  lemma DrawInShare(vs: seq<Variant>, i: nat, r: real)
    requires i < |vs| && Total(vs) > 0.0 && 0.0 <= r
    requires i > 0 ==> Below(vs, i) < r * Total(vs)
    requires r * Total(vs) <= Below(vs, i + 1)
    ensures InShare(vs, i, r)
  {
    DivVersusMul(Below(vs, i), r, Total(vs));
    DivVersusMul(Below(vs, i + 1), r, Total(vs));
  }

  /** Every draw falls into exactly one variant's share .. */
  lemma SharesAreDisjoint(vs: seq<Variant>, i: nat, j: nat, r: real)
    requires Positive(vs) && Total(vs) > 0.0 && i < |vs| && j < |vs|
    requires InShare(vs, i, r) && InShare(vs, j, r)
    ensures i == j
  {
    if i < j {
      BelowGrows(vs, i + 1, j);
      EdgeMonotone(vs, i + 1, j);
    } else if j < i {
      BelowGrows(vs, j + 1, i);
      EdgeMonotone(vs, j + 1, i);
    }
  }

  lemma EdgeMonotone(vs: seq<Variant>, i: nat, j: nat)
    requires i <= |vs| && j <= |vs| && Total(vs) > 0.0 && Below(vs, i) <= Below(vs, j)
    ensures Edge(vs, i) <= Edge(vs, j)
  {
    DivVersusMul(Below(vs, i), Edge(vs, i), Total(vs));
    DivVersusMul(Below(vs, j), Edge(vs, i), Total(vs));
  }

  /** .. the shares start at 0, end at 1, and each is as long as its variant's normalized weight. */
  lemma SharesTileTheUnitInterval(vs: seq<Variant>, i: nat)
    requires Positive(vs) && vs != [] && i < |vs|
    ensures Total(vs) > 0.0
    ensures Edge(vs, 0) == 0.0 && Edge(vs, |vs|) == 1.0
    ensures Edge(vs, i + 1) - Edge(vs, i) == vs[i].weight / Total(vs)
    ensures 0.0 < vs[i].weight / Total(vs) <= 1.0
  {
    BelowGrows(vs, 0, |vs|);
    BelowGrows(vs, 0, i);
    BelowGrows(vs, i + 1, |vs|);
    Fractions(Below(vs, i), vs[i].weight, Total(vs));
  }

  lemma Fractions(a: real, w: real, t: real)
    requires 0.0 < w <= t
    ensures 0.0 / t == 0.0 && t / t == 1.0
    ensures (a + w) / t - a / t == w / t
    ensures 0.0 < w / t <= 1.0
  {
    assert (a + w) / t == a / t + w / t;
    DivVersusMul(w, 0.0, t);
    DivVersusMul(w, 1.0, t);
  }
}
