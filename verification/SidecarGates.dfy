/** Enabling and disabling sidecar services from user settings (compose/sidecar_gates.py). */
module SidecarGates {
  import opened Results
  import opened Sequences
  import opened ComposeDocument

  datatype GateValue = Switch(on: bool) | NotBoolean

  /** `user_settings.sidecars`: absent, of the wrong shape, or an object in dictionary order. */
  datatype RawGates = Missing | NotAnObject | Entries(entries: seq<(string, GateValue)>)

  datatype GateError = MustBeObject | Reserved(name: string) | MustBeBoolean(name: string)

  predicate IsReserved(name: string) {
    name == LOGICAL_DB || name == LOGICAL_ODOO
  }

  /** The first complaint about the entries, in order. */
  function FirstGateError(entries: seq<(string, GateValue)>): Option<GateError> {
    if entries == [] then None
    else if IsReserved(entries[0].0) then Some(Reserved(entries[0].0))
    else if entries[0].1.NotBoolean? then Some(MustBeBoolean(entries[0].0))
    else FirstGateError(entries[1..])
  }

  lemma {:induction false} GatesAcceptedExactlyWhen(entries: seq<(string, GateValue)>)
    ensures FirstGateError(entries) == None
      <==> forall e | e in entries :: e.0 != "db" && e.0 != "odoo" && e.1.Switch?
  {
    if entries != [] {
      GatesAcceptedExactlyWhen(entries[1..]);
    }
  }

  /** The first entry that is not a switch of an optional service is complained about; its name comes first. */
  lemma {:induction false} FirstBadGate(entries: seq<(string, GateValue)>, k: nat)
    requires k < |entries| && forall i | 0 <= i < k :: entries[i].0 != "db" && entries[i].0 != "odoo" && entries[i].1.Switch?
    requires entries[k].0 == "db" || entries[k].0 == "odoo" || entries[k].1.NotBoolean?
    ensures FirstGateError(entries) ==
      Some(if entries[k].0 == "db" || entries[k].0 == "odoo" then Reserved(entries[k].0) else MustBeBoolean(entries[k].0))
  {
    if k > 0 {
      FirstBadGate(entries[1..], k - 1);
    }
  }

  /** `parse_sidecar_gates`: parsed gates never mention db or odoo. */
  method ParseSidecarGates(raw: RawGates) returns (result: Result<map<string, bool>, GateError>)
    ensures raw.Missing? ==> result == Ok(map[])
    ensures raw.NotAnObject? ==> result == Err(MustBeObject)
    ensures raw.Entries? ==>
      match FirstGateError(raw.entries)
      case Some(error) => result == Err(error)
      case None => result.Ok? && forall e | e in raw.entries :: e.0 in result.value
    ensures result.Ok? ==> "db" !in result.value && "odoo" !in result.value
    ensures result.Ok? ==> forall name | name in result.value ::
      raw.Entries? && (name, Switch(result.value[name])) in raw.entries
  {
    if raw.Missing? {
      return Ok(map[]);
    }
    if raw.NotAnObject? {
      return Err(MustBeObject);
    }
    var gates: map<string, bool> := map[];
    var i := 0;
    while i < |raw.entries|
      invariant 0 <= i <= |raw.entries|
      invariant FirstGateError(raw.entries[i..]) == FirstGateError(raw.entries)
      invariant forall j | 0 <= j < i :: raw.entries[j].0 in gates
      invariant forall name | name in gates :: !IsReserved(name) && (name, Switch(gates[name])) in raw.entries
    {
      var (name, value) := raw.entries[i];
      assert raw.entries[i..][1..] == raw.entries[i + 1..];
      if IsReserved(name) {
        return Err(Reserved(name));
      }
      if value.NotBoolean? {
        return Err(MustBeBoolean(name));
      }
      assert raw.entries[i] == (name, Switch(value.on));
      gates := gates[name := value.on];
      i := i + 1;
    }
    result := Ok(gates);
  }

  // ---- Gating ------------------------------------------------------------------------------------

  predicate GatedOff(gates: map<string, bool>, name: string) {
    name in gates && !gates[name]
  }

  function Kept(services: seq<Service>, gates: map<string, bool>): seq<Service> {
    if services == [] then []
    else if GatedOff(gates, services[0].name) then Kept(services[1..], gates)
    else [services[0]] + Kept(services[1..], gates)
  }

  /** `apply_sidecar_gates`: the services not gated off, in order, and the names of the rest. */
  method ApplySidecarGates(services: seq<Service>, gates: map<string, bool>)
    returns (kept: seq<Service>, dropped: set<string>)
    ensures kept == Kept(services, gates)
    ensures forall s :: s in kept <==> s in services && (s.name in gates ==> gates[s.name])
    ensures forall name :: name in dropped <==> name in gates && !gates[name] && HasEntry(services, name)
  {
    KeptMembers(services, gates);
    if gates == map[] {
      KeptWithoutGates(services);
      return services, {};
    }
    kept, dropped := [], {};
    var i := 0;
    while i < |services|
      invariant 0 <= i <= |services|
      invariant kept + Kept(services[i..], gates) == Kept(services, gates)
      invariant forall name | name in dropped :: GatedOff(gates, name) && HasEntry(services, name)
      invariant forall j | 0 <= j < i && GatedOff(gates, services[j].name) :: services[j].name in dropped
    {
      var s := services[i];
      assert services[i..][1..] == services[i + 1..];
      if GatedOff(gates, s.name) {
        dropped := dropped + {s.name};
      } else {
        AppendCons(kept, s, Kept(services[i + 1..], gates));
        kept := kept + [s];
      }
      i := i + 1;
    }
  }

  lemma {:induction false} KeptWithoutGates(services: seq<Service>)
    ensures Kept(services, map[]) == services
  {
    if services != [] {
      KeptWithoutGates(services[1..]);
    }
  }

  /** Gating keeps the order of the services that remain. */
  lemma {:induction false} KeptInOrder(services: seq<Service>, gates: map<string, bool>)
    ensures Subsequence(Kept(services, gates), services)
  {
    if services != [] {
      KeptInOrder(services[1..], gates);
    }
  }

  /** Exactly the services whose gate is open or missing are kept. */
  lemma {:induction false} KeptMembers(services: seq<Service>, gates: map<string, bool>)
    ensures forall s :: s in Kept(services, gates) <==> s in services && (s.name in gates ==> gates[s.name])
  {
    if services != [] {
      KeptMembers(services[1..], gates);
    }
  }

  lemma {:induction false} KeptIsDict(services: seq<Service>, gates: map<string, bool>)
    requires IsDict(services)
    ensures IsDict(Kept(services, gates))
  {
    if services != [] {
      DictTail(services);
      KeptIsDict(services[1..], gates);
      KeptMembers(services[1..], gates);
      if !GatedOff(gates, services[0].name) {
        DictCons(services[0], Kept(services[1..], gates));
      }
    }
  }

  // ---- Scrubbing -----------------------------------------------------------------------------------

  function ScrubItems(items: seq<Item>, dropped: set<string>): seq<Item> {
    if items == [] then []
    else if items[0].Name? && items[0].text in dropped then ScrubItems(items[1..], dropped)
    else [items[0]] + ScrubItems(items[1..], dropped)
  }

  function ScrubField(field: Field, dropped: set<string>): Field {
    if field.Items? then Items(ScrubItems(field.items, dropped)) else field
  }

  function ScrubService(s: Service, dropped: set<string>): Service {
    if s.value.NotMapping? then s
    else
      var spec := s.value.spec;
      Service(s.name, Mapping(spec.(dependsOn := ScrubField(spec.dependsOn, dropped),
                                    links := ScrubField(spec.links, dropped))))
  }

  function Scrubbed(services: seq<Service>, dropped: set<string>): seq<Service> {
    seq(|services|, i requires 0 <= i < |services| => ScrubService(services[i], dropped))
  }

  /** `scrub_service_deps`: drop references to dropped services from list-form fields. */
  method ScrubServiceDeps(services: seq<Service>, dropped: set<string>) returns (scrubbed: seq<Service>)
    ensures scrubbed == Scrubbed(services, dropped)
  {
    scrubbed := services;
    if dropped == {} {
      ScrubNothing(services);
      return;
    }
    var i := 0;
    while i < |services|
      invariant 0 <= i <= |services| == |scrubbed|
      invariant forall j | 0 <= j < i :: scrubbed[j] == ScrubService(services[j], dropped)
      invariant forall j | i <= j < |services| :: scrubbed[j] == services[j]
    {
      if scrubbed[i].value.Mapping? {
        var spec := scrubbed[i].value.spec;
        if spec.dependsOn.Items? {
          spec := spec.(dependsOn := Items(ScrubItems(spec.dependsOn.items, dropped)));
        }
        if spec.links.Items? {
          spec := spec.(links := Items(ScrubItems(spec.links.items, dropped)));
        }
        scrubbed := scrubbed[i := Service(scrubbed[i].name, Mapping(spec))];
      }
      i := i + 1;
    }
  }

  lemma {:induction false} ScrubItemsNothing(items: seq<Item>)
    ensures ScrubItems(items, {}) == items
  {
    if items != [] {
      ScrubItemsNothing(items[1..]);
    }
  }

  lemma ScrubNothing(services: seq<Service>)
    ensures Scrubbed(services, {}) == services
  {
    forall i | 0 <= i < |services| ensures ScrubService(services[i], {}) == services[i] {
      if services[i].value.Mapping? {
        ScrubItemsNothing(ItemsOf(services[i].value.spec.dependsOn));
        ScrubItemsNothing(ItemsOf(services[i].value.spec.links));
      }
    }
  }

  lemma {:induction false} ScrubItemsMembers(items: seq<Item>, dropped: set<string>, item: Item)
    ensures item in ScrubItems(items, dropped) <==> item in items && !(item.Name? && item.text in dropped)
  {
    if items != [] {
      ScrubItemsMembers(items[1..], dropped, item);
    }
  }

  /** Scrubbing removes exactly the references to dropped names. */
  lemma ScrubbedReferences(services: seq<Service>, dropped: set<string>, a: string, edge: Edge, b: string)
    ensures References(Scrubbed(services, dropped), a, edge, b) <==> References(services, a, edge, b) && b !in dropped
  {
    var scrubbed := Scrubbed(services, dropped);
    if References(scrubbed, a, edge, b) {
      var s :| s in scrubbed && s.name == a && s.value.Mapping? && Name(b) in ItemsOf(FieldOf(s.value.spec, edge));
      var i :| 0 <= i < |scrubbed| && scrubbed[i] == s;
      ScrubItemsMembers(ItemsOf(FieldOf(services[i].value.spec, edge)), dropped, Name(b));
      assert services[i] in services;
    }
    if References(services, a, edge, b) && b !in dropped {
      var s :| s in services && s.name == a && s.value.Mapping? && Name(b) in ItemsOf(FieldOf(s.value.spec, edge));
      var i :| 0 <= i < |services| && services[i] == s;
      ScrubItemsMembers(ItemsOf(FieldOf(s.value.spec, edge)), dropped, Name(b));
      assert scrubbed[i] in scrubbed;
    }
  }

  lemma ScrubbedServices(services: seq<Service>, dropped: set<string>, name: string)
    ensures HasService(Scrubbed(services, dropped), name) <==> HasService(services, name)
    ensures Names(Scrubbed(services, dropped)) == Names(services)
  {
    var scrubbed := Scrubbed(services, dropped);
    if HasService(services, name) {
      var s :| s in services && s.name == name && s.value.Mapping?;
      var i :| 0 <= i < |services| && services[i] == s;
      assert scrubbed[i] in scrubbed;
    }
    if HasService(scrubbed, name) {
      var s :| s in scrubbed && s.name == name && s.value.Mapping?;
      var i :| 0 <= i < |scrubbed| && scrubbed[i] == s;
      assert services[i] in services;
    }
  }


  /** Gating then scrubbing: a reference survives exactly when both ends do, so a closed document stays
      closed and no reference between kept services is lost. */
  lemma GatedReferences(services: seq<Service>, gates: map<string, bool>, dropped: set<string>)
    requires forall name :: name in dropped <==> name in gates && !gates[name] && HasEntry(services, name)
    ensures var gated := Scrubbed(Kept(services, gates), dropped);
      && (forall name :: HasService(gated, name) <==> HasService(services, name) && (name in gates ==> gates[name]))
      && (forall a, edge, b :: References(gated, a, edge, b) <==>
            References(services, a, edge, b) && (a in gates ==> gates[a]) && b !in dropped)
      && (Closed(services) ==> Closed(gated))
  {
    var kept := Kept(services, gates);
    var gated := Scrubbed(kept, dropped);
    KeptMembers(services, gates);
    forall name ensures HasService(gated, name) <==> HasService(services, name) && (name in gates ==> gates[name]) {
      ScrubbedServices(kept, dropped, name);
    }
    forall a, edge, b ensures References(gated, a, edge, b) <==>
      References(services, a, edge, b) && (a in gates ==> gates[a]) && b !in dropped
    {
      ScrubbedReferences(kept, dropped, a, edge, b);
    }
    if Closed(services) {
      forall a, edge, b | References(gated, a, edge, b) ensures HasService(gated, b) {
        assert References(services, a, edge, b);
        assert HasService(services, b);
      }
    }
  }

  /** Services that stay keep their mounts. */
  lemma GatedMounts(services: seq<Service>, gates: map<string, bool>, dropped: set<string>, a: string, mount: string)
    ensures Mounts(Scrubbed(Kept(services, gates), dropped), a, mount) <==> Mounts(services, a, mount) && (a in gates ==> gates[a])
  {
    var kept := Kept(services, gates);
    var gated := Scrubbed(kept, dropped);
    KeptMembers(services, gates);
    if Mounts(gated, a, mount) {
      var t :| t in gated && t.name == a && t.value.Mapping? && Name(mount) in ItemsOf(t.value.spec.volumes);
      var i :| 0 <= i < |gated| && gated[i] == t;
      assert kept[i] in kept;
    }
    if Mounts(services, a, mount) && (a in gates ==> gates[a]) {
      var s :| s in services && s.name == a && s.value.Mapping? && Name(mount) in ItemsOf(s.value.spec.volumes);
      var i :| 0 <= i < |kept| && kept[i] == s;
      assert gated[i] in gated;
    }
  }

  /** Gates that were parsed leave db and odoo in place. */
  lemma BuiltinsSurvive(services: seq<Service>, gates: map<string, bool>, name: string)
    requires "db" !in gates && "odoo" !in gates
    requires name in {"db", "odoo"} && HasService(services, name)
    ensures HasService(Kept(services, gates), name)
  {
    KeptMembers(services, gates);
  }
}
