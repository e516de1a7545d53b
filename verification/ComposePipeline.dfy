/** The passes over the compose mapping in the order `build_compose_document` applies them: gating,
    scrubbing, network attachment, physical names (compose/compose_document.py). */
module ComposePipeline {
  import opened Results
  import opened ComposeDocument
  import opened SidecarGates
  import opened VolumeMounts
  import opened ServiceNames
  import opened LegacyRename
  import opened NetworkNames

  datatype NamingError = DuplicateKey(key: string) | DbNotAMapping

  // ---- Specification ---------------------------------------------------------------------------------------

  /** The db service as the legacy rename finds it. */
  function FindDb(services: seq<Service>): Option<ServiceValue> {
    if services == [] then None
    else if services[0].name == LOGICAL_DB then Some(services[0].value)
    else FindDb(services[1..])
  }

  lemma {:induction false} FindDbFinds(services: seq<Service>)
    requires IsDict(services)
    ensures FindDb(services).Some? <==> HasEntry(services, LOGICAL_DB)
    ensures FindDb(services).Some? ==> Service(LOGICAL_DB, FindDb(services).value) in services
    ensures FindDb(services).Some? && FindDb(services).value.Mapping? <==> HasService(services, LOGICAL_DB)
  {
    if services != [] {
      DictTail(services);
      FindDbFinds(services[1..]);
      if services[0].name == LOGICAL_DB {
        assert services[0] in services;
      }
    }
  }

  /** The db service the legacy rename would move, if it applies at all. */
  function LegacyDb(doc: Document, ctx: Naming): Option<ServiceValue> {
    if ctx.prefix.None? && ctx.postgres != LOGICAL_DB && doc.services.Some? then FindDb(doc.services.value) else None
  }

  /** The document after a legacy rename that did not raise. */
  function LegacyApplied(doc: Document, ctx: Naming): Document {
    match LegacyDb(doc, ctx)
    case Some(Mapping(db)) => doc.(services := Some(LegacyRenamed(doc.services.value, ctx, db)))
    case _ => doc
  }

  /** Whether `apply_compose_physical_names` raises on this document. */
  ghost predicate NamingRaises(doc: Document, ctx: Naming) {
    || (PrefixApplies(doc, ctx) && !CollisionFree(doc.services.value, ctx))
    || LegacyDb(doc, ctx) == Some(NotMapping)
  }

  function PhysicalNames(doc: Document, ctx: Naming, net: Network): Document {
    NetworkApplied(LegacyApplied(Prefixed(doc, ctx), ctx), net)
  }

  // ---- Naming as one transformation of the services ------------------------------------------------------------

  /** The naming in force: the prefix, or the legacy rename (which may have nothing to do). */
  function Effective(ctx: Naming): Naming {
    if ctx.prefix.Some? then ctx else LegacyNaming(ctx)
  }

  function NameFor(name: string, ctx: Naming): string {
    Physical(name, Effective(ctx))
  }

  /** Some service is renamed: by the prefix, or because there is a db service for the legacy rename to move. */
  ghost predicate Renames(services: seq<Service>, ctx: Naming) {
    ctx.prefix.Some? || (ctx.postgres != LOGICAL_DB && HasService(services, LOGICAL_DB))
  }

  /** `named` holds the images of `services`; or it is `services` itself, and every service keeps its name. */
  ghost predicate AreNamed(services: seq<Service>, ctx: Naming, named: seq<Service>) {
    if Renames(services, ctx) then SameMembers(named, Renamed(services, Effective(ctx)))
    else named == services && forall a | HasService(services, a) :: NameFor(a, ctx) == a
  }

  ghost predicate SameMembers(x: seq<Service>, y: seq<Service>) {
    forall t :: t in x <==> t in y
  }

  lemma NamedServices(doc: Document, ctx: Naming)
    requires doc.services.Some? && IsDict(doc.services.value) && !NamingRaises(doc, ctx)
    requires CollisionFree(doc.services.value, Effective(ctx))
    ensures var named := LegacyApplied(Prefixed(doc, ctx), ctx);
      && named.services.Some? && AreNamed(doc.services.value, ctx, named.services.value)
      && named.networks == doc.networks
  {
    var services := doc.services.value;
    FindDbFinds(services);
    if ctx.prefix.None? {
      assert Prefixed(doc, ctx) == doc;
      if LegacyDb(doc, ctx).Some? {
        var db := LegacyDb(doc, ctx).value.spec;
        LegacyLosesExactlyOnCollision(services, ctx, db);
        LegacyRenamesLikePrefix(services, ctx, db);
      } else {
        assert ctx.postgres == LOGICAL_DB || !HasService(services, LOGICAL_DB);
      }
    }
  }

  lemma SameMembersSameGraph(x: seq<Service>, y: seq<Service>)
    requires SameMembers(x, y)
    ensures forall a, edge, b :: References(x, a, edge, b) <==> References(y, a, edge, b)
    ensures forall a :: HasService(x, a) <==> HasService(y, a)
  {
  }

  /** The services refer to each other under their names as before. */
  ghost predicate NamedGraph(services: seq<Service>, ctx: Naming, named: seq<Service>) {
    forall a, edge, b | HasService(services, a) && HasService(services, b) ::
      References(services, a, edge, b) <==> References(named, NameFor(a, ctx), edge, NameFor(b, ctx))
  }

  /** Where services are renamed, no list entry has the new name of a service that its owner does not list. */
  ghost predicate NamingCapturesNothing(services: seq<Service>, ctx: Naming) {
    Renames(services, ctx) ==> NothingCaptured(services, Effective(ctx))
  }

  /** Naming is an isomorphism of the reference graph, whichever of its branches runs, exactly when it captures
      nothing. */
  lemma NamingIsIsomorphismExactlyWhen(services: seq<Service>, ctx: Naming, named: seq<Service>)
    requires AreNamed(services, ctx, named) && CollisionFree(services, Effective(ctx))
    ensures NamedGraph(services, ctx, named) <==> NamingCapturesNothing(services, ctx)
  {
    hide References, HasService, Renamed, CollisionFree, NothingCaptured;
    if Renames(services, ctx) {
      IsomorphismExactlyWhen(services, Effective(ctx));
      SameMembersSameGraph(named, Renamed(services, Effective(ctx)));
    }
  }

  /** In a closed document it does not, and the result is closed again. */
  lemma NamingIsIsomorphism(services: seq<Service>, ctx: Naming, named: seq<Service>)
    requires AreNamed(services, ctx, named) && CollisionFree(services, Effective(ctx)) && Closed(services)
    ensures NamedGraph(services, ctx, named) && NamingCapturesNothing(services, ctx) && Closed(named)
  {
    NamingIsIsomorphismExactlyWhen(services, ctx, named);
    RenamingIsIsomorphism(services, Effective(ctx));
    IsomorphismExactlyWhen(services, Effective(ctx));
    if Renames(services, ctx) {
      var renamed := Renamed(services, Effective(ctx));
      SameMembersSameGraph(named, renamed);
      forall a, edge, b | References(named, a, edge, b) ensures HasService(named, b) {
        assert References(renamed, a, edge, b);
      }
    }
  }

  /** Some service is called `p` by the naming in force. */
  ghost predicate NamedAs(services: seq<Service>, ctx: Naming, p: string) {
    exists a :: HasService(services, a) && NameFor(a, ctx) == p
  }

  /** The named services are exactly the images. */
  lemma NamedServiceExactlyWhen(services: seq<Service>, ctx: Naming, named: seq<Service>, p: string)
    requires AreNamed(services, ctx, named)
    ensures HasService(named, p) <==> NamedAs(services, ctx, p)
  {
    var renamed := Renamed(services, Effective(ctx));
    if Renames(services, ctx) {
      SameMembersSameGraph(named, renamed);
      if HasService(renamed, p) {
        var a := ServiceOrigin(services, Effective(ctx), p);
        assert NameFor(a, ctx) == p;
      }
      if a :| HasService(services, a) && NameFor(a, ctx) == p {
        ServiceImage(services, Effective(ctx), a);
      }
    } else if HasService(services, p) {
      assert NameFor(p, ctx) == p;
    }
  }

  /** What becomes of a mount. */
  function MountFor(mount: string, ctx: Naming): string {
    RewriteMount(Name(mount), Effective(ctx)).text
  }

  /** The volume that the logical postgres volume is declared as. */
  function VolumeFor(ctx: Naming): string {
    if ctx.prefix.Some? then ctx.volume else LOGICAL_VOLUME
  }

  /** `mount` of service `p` is what has become of a mount of some service that goes by `p`. */
  ghost predicate MountedAs(services: seq<Service>, ctx: Naming, p: string, mount: string) {
    exists a, m :: Mounts(services, a, m) && NameFor(a, ctx) == p && MountFor(m, ctx) == mount
  }

  lemma MountingServiceExists(services: seq<Service>, a: string, m: string)
    requires Mounts(services, a, m)
    ensures HasService(services, a)
  {
  }

  lemma NamedMountExactlyWhen(services: seq<Service>, ctx: Naming, named: seq<Service>, p: string, mount: string)
    requires AreNamed(services, ctx, named)
    ensures Mounts(named, p, mount) <==> MountedAs(services, ctx, p, mount)
  {
    var renamed := Renamed(services, Effective(ctx));
    if Renames(services, ctx) {
      if Mounts(named, p, mount) {
        assert Mounts(renamed, p, mount);
        var a, m := MountOrigin(services, Effective(ctx), p, mount);
        assert NameFor(a, ctx) == p && MountFor(m, ctx) == mount;
      }
      if a, m :| Mounts(services, a, m) && NameFor(a, ctx) == p && MountFor(m, ctx) == mount {
        MountImage(services, Effective(ctx), a, m);
        assert Mounts(renamed, p, mount);
      }
    } else {
      if Mounts(services, p, mount) {
        MountingServiceExists(services, p, mount);
        assert NameFor(p, ctx) == p && MountFor(mount, ctx) == mount;
      }
      if a, m :| Mounts(services, a, m) && NameFor(a, ctx) == p && MountFor(m, ctx) == mount {
        MountingServiceExists(services, a, m);
      }
    }
  }

  /** A mount of the logical postgres volume moves to the declared volume with its tail; any other mount stays. */
  predicate Moves(mount: string, ctx: Naming) {
    if MountSource(mount) == LOGICAL_VOLUME
    then MountFor(mount, ctx) == VolumeFor(ctx) + mount[|MountSource(mount)|..] && MountSource(MountFor(mount, ctx)) == VolumeFor(ctx)
    else MountFor(mount, ctx) == mount
  }

  lemma MountMoves(mount: string, ctx: Naming)
    requires ctx.prefix.Some? ==> WellNamed(ctx)
    ensures Moves(mount, ctx)
  {
    if ctx.prefix.Some? {
      RedirectChangesSourceOnly(mount, ctx.volume);
      RedirectedSource(mount, ctx.volume);
    } else {
      assert MountFor(mount, ctx) == mount;
      assert MountSource(mount) + mount[|MountSource(mount)|..] == mount;
    }
  }

  lemma NamingKeepsNetworks(services: seq<Service>, ctx: Naming, named: seq<Service>, allowed: set<string>)
    requires AreNamed(services, ctx, named)
    ensures OnlyNetworks(named, allowed) <==> OnlyNetworks(services, allowed)
  {
    RenamingKeepsNetworks(services, Effective(ctx), allowed);
  }

  // ---- End to end ------------------------------------------------------------------------------------------------

  /** The document `build_compose_document` hands to the naming passes. */
  function Drafted(services: seq<Service>, gates: map<string, bool>, dropped: set<string>, volume: int, net: Network): (draft: Document)
    ensures draft.services.Some?
  {
    Attached(Document(Some(Scrubbed(Kept(services, gates), dropped)), Some(map[LOGICAL_VOLUME := volume]), None, None), net)
  }

  /** `dropped` is what gating reports. */
  ghost predicate ReportsDropped(services: seq<Service>, gates: map<string, bool>, dropped: set<string>) {
    forall name :: name in dropped <==> name in gates && !gates[name] && HasEntry(services, name)
  }

  lemma DraftedServices(services: seq<Service>, gates: map<string, bool>, dropped: set<string>, volume: int, net: Network)
    requires IsDict(services) && ReportsDropped(services, gates, dropped)
    ensures var draft := Drafted(services, gates, dropped, volume, net).services.value;
      && IsDict(draft)
      && (forall a :: HasService(draft, a) <==> HasService(services, a) && (a in gates ==> gates[a]))
      && (forall a, edge, b :: References(draft, a, edge, b) <==>
            References(services, a, edge, b) && (a in gates ==> gates[a]) && b !in dropped)
      && (Closed(services) ==> Closed(draft))
  {
    var kept := Kept(services, gates);
    var gated := Scrubbed(kept, dropped);
    var draft := Drafted(services, gates, dropped, volume, net).services.value;
    KeptIsDict(services, gates);
    ScrubbedServices(kept, dropped, "");
    GatedReferences(services, gates, dropped);
    assert SameButNetworks(gated, draft);
    SameReferences(gated, draft);
    if Closed(services) {
      forall a, edge, b | References(draft, a, edge, b) ensures HasService(draft, b) {
        assert References(gated, a, edge, b);
      }
    }
  }

  /** Some service that is not gated off goes by `p`. */
  ghost predicate KeptAs(services: seq<Service>, gates: map<string, bool>, ctx: Naming, p: string) {
    exists a :: HasService(services, a) && (a in gates ==> gates[a]) && NameFor(a, ctx) == p
  }

  lemma BuiltHasExactlyKept(services: seq<Service>, gates: map<string, bool>, ctx: Naming, draft: seq<Service>, named: seq<Service>, p: string)
    requires AreNamed(draft, ctx, named)
    requires forall a :: HasService(draft, a) <==> HasService(services, a) && (a in gates ==> gates[a])
    ensures HasService(named, p) <==> KeptAs(services, gates, ctx, p)
  {
    NamedServiceExactlyWhen(draft, ctx, named, p);
    if NamedAs(draft, ctx, p) {
      var a :| HasService(draft, a) && NameFor(a, ctx) == p;
      assert HasService(services, a) && (a in gates ==> gates[a]);
    }
    if KeptAs(services, gates, ctx, p) {
      var a :| HasService(services, a) && (a in gates ==> gates[a]) && NameFor(a, ctx) == p;
      assert HasService(draft, a);
    }
  }

  /** The document that the build finishes with. */
  function Built(services: seq<Service>, gates: map<string, bool>, dropped: set<string>, volume: int, ctx: Naming, net: Network): Document {
    PhysicalNames(Drafted(services, gates, dropped, volume, net), ctx, net)
  }

  /** The build does not raise and loses no service to a collision. */
  ghost predicate BuildsSafely(services: seq<Service>, gates: map<string, bool>, dropped: set<string>, volume: int, ctx: Naming, net: Network) {
    && IsDict(services) && ReportsDropped(services, gates, dropped)
    && var draft := Drafted(services, gates, dropped, volume, net);
       !NamingRaises(draft, ctx) && CollisionFree(draft.services.value, Effective(ctx))
  }

  /** The finished services are the named ones but for their networks. */
  lemma BuiltIsNamed(services: seq<Service>, gates: map<string, bool>, dropped: set<string>, volume: int, ctx: Naming, net: Network)
    returns (named: seq<Service>)
    requires BuildsSafely(services, gates, dropped, volume, ctx, net)
    ensures AreNamed(Drafted(services, gates, dropped, volume, net).services.value, ctx, named)
    ensures var built := Built(services, gates, dropped, volume, ctx, net);
      built.services.Some? && SameButNetworks(named, built.services.value)
  {
    var draft := Drafted(services, gates, dropped, volume, net);
    DraftedServices(services, gates, dropped, volume, net);
    NamedServices(draft, ctx);
    named := LegacyApplied(Prefixed(draft, ctx), ctx).services.value;
  }

  /** From the merged services to the finished document: its services are exactly those that are not gated off, the
      database and Odoo under their physical names and the others under their own. */
  lemma BuildKeepsServices(services: seq<Service>, gates: map<string, bool>, dropped: set<string>, volume: int,
                           ctx: Naming, net: Network)
    requires BuildsSafely(services, gates, dropped, volume, ctx, net)
    ensures var built := Built(services, gates, dropped, volume, ctx, net);
      built.services.Some? && forall p :: HasService(built.services.value, p) <==> KeptAs(services, gates, ctx, p)
    ensures forall a ::
      NameFor(a, ctx) == if a == "db" then ctx.postgres else if a == "odoo" && ctx.prefix.Some? then ctx.odoo else a
  {
    hide Drafted, Built, AreNamed, HasService, NamingRaises, CollisionFree, KeptAs;
    var draft := Drafted(services, gates, dropped, volume, net).services.value;
    var named := BuiltIsNamed(services, gates, dropped, volume, ctx, net);
    DraftedServices(services, gates, dropped, volume, net);
    SameReferences(named, Built(services, gates, dropped, volume, ctx, net).services.value);
    forall p ensures HasService(named, p) <==> KeptAs(services, gates, ctx, p) {
      BuiltHasExactlyKept(services, gates, ctx, draft, named, p);
    }
  }

  /** The services that are not gated off refer to each other under their physical names as before. */
  ghost predicate BuiltGraph(services: seq<Service>, gates: map<string, bool>, ctx: Naming, built: seq<Service>) {
    forall a, edge, b | HasService(services, a) && HasService(services, b) && (a in gates ==> gates[a]) && (b in gates ==> gates[b]) ::
      References(services, a, edge, b) <==> References(built, NameFor(a, ctx), edge, NameFor(b, ctx))
  }

  /** The references between any two services that are not gated off are exactly those between their physical names, if
      and only if naming the drafted services captures nothing; a closed input captures nothing and stays closed. */
  lemma BuildKeepsReferences(services: seq<Service>, gates: map<string, bool>, dropped: set<string>, volume: int,
                             ctx: Naming, net: Network)
    requires BuildsSafely(services, gates, dropped, volume, ctx, net)
    ensures var draft, built := Drafted(services, gates, dropped, volume, net), Built(services, gates, dropped, volume, ctx, net);
      && built.services.Some?
      && (BuiltGraph(services, gates, ctx, built.services.value) <==> NamingCapturesNothing(draft.services.value, ctx))
      && (Closed(services) ==> NamingCapturesNothing(draft.services.value, ctx) && Closed(built.services.value))
  {
    hide Drafted, Built, AreNamed, NamingRaises, References, HasService, SameButNetworks, NamingCapturesNothing, NameFor;
    var draft := Drafted(services, gates, dropped, volume, net).services.value;
    var named := BuiltIsNamed(services, gates, dropped, volume, ctx, net);
    var built := Built(services, gates, dropped, volume, ctx, net).services.value;
    DraftedServices(services, gates, dropped, volume, net);
    NamingIsIsomorphismExactlyWhen(draft, ctx, named);
    SameReferences(named, built);
    GraphOfBuilt(services, gates, dropped, ctx, draft, named, built);
    if Closed(services) {
      NamingIsIsomorphism(draft, ctx, named);
      forall a, edge, b | References(built, a, edge, b) ensures HasService(built, b) {
        assert References(named, a, edge, b);
      }
    }
  }

  lemma GraphOfBuilt(services: seq<Service>, gates: map<string, bool>, dropped: set<string>, ctx: Naming,
                     draft: seq<Service>, named: seq<Service>, built: seq<Service>)
    requires forall a :: HasService(draft, a) <==> HasService(services, a) && (a in gates ==> gates[a])
    requires forall a, edge, b :: References(draft, a, edge, b) <==>
      References(services, a, edge, b) && (a in gates ==> gates[a]) && b !in dropped
    requires ReportsDropped(services, gates, dropped)
    requires forall a, edge, b :: References(built, a, edge, b) <==> References(named, a, edge, b)
    ensures BuiltGraph(services, gates, ctx, built) <==> NamedGraph(draft, ctx, named)
  {
    hide References, HasService, NameFor, HasEntry;
    if BuiltGraph(services, gates, ctx, built) {
      forall a, edge, b | HasService(draft, a) && HasService(draft, b)
        ensures References(draft, a, edge, b) <==> References(named, NameFor(a, ctx), edge, NameFor(b, ctx))
      {
        assert b !in dropped;
        assert References(built, NameFor(a, ctx), edge, NameFor(b, ctx)) <==> References(services, a, edge, b);
      }
    }
    if NamedGraph(draft, ctx, named) {
      forall a, edge, b | HasService(services, a) && HasService(services, b) && (a in gates ==> gates[a]) && (b in gates ==> gates[b])
        ensures References(services, a, edge, b) <==> References(built, NameFor(a, ctx), edge, NameFor(b, ctx))
      {
        assert b !in dropped;
        assert References(draft, a, edge, b) <==> References(named, NameFor(a, ctx), edge, NameFor(b, ctx));
      }
    }
  }

  /** `mount` of service `p` is what has become of a mount of some service that is not gated off. */
  ghost predicate KeptMount(services: seq<Service>, gates: map<string, bool>, ctx: Naming, p: string, mount: string) {
    exists a, m :: Mounts(services, a, m) && (a in gates ==> gates[a]) && NameFor(a, ctx) == p && MountFor(m, ctx) == mount
  }

  lemma DraftedMounts(services: seq<Service>, gates: map<string, bool>, dropped: set<string>, volume: int, net: Network)
    ensures var draft := Drafted(services, gates, dropped, volume, net).services.value;
      forall a, m :: Mounts(draft, a, m) <==> Mounts(services, a, m) && (a in gates ==> gates[a])
  {
    hide Mounts, Kept, Scrubbed;
    var gated := Scrubbed(Kept(services, gates), dropped);
    var draft := Drafted(services, gates, dropped, volume, net).services.value;
    assert SameButNetworks(gated, draft);
    SameMounts(gated, draft);
    forall a, m ensures Mounts(gated, a, m) <==> Mounts(services, a, m) && (a in gates ==> gates[a]) {
      GatedMounts(services, gates, dropped, a, m);
    }
  }

  /** The mounts of the finished document are exactly those of the services that are not gated off: each mount of the
      logical postgres volume moves, with its tail, to the one volume that is declared, and others stay. */
  lemma BuildMountsDeclaredVolume(services: seq<Service>, gates: map<string, bool>, dropped: set<string>, volume: int,
                                  ctx: Naming, net: Network)
    requires BuildsSafely(services, gates, dropped, volume, ctx, net) && (ctx.prefix.Some? ==> WellNamed(ctx))
    ensures var built := Built(services, gates, dropped, volume, ctx, net);
      && built.volumes == Some(map[VolumeFor(ctx) := volume])
      && built.services.Some? && (forall p, mount :: Mounts(built.services.value, p, mount) <==> KeptMount(services, gates, ctx, p, mount))
    ensures forall m :: Moves(m, ctx)
  {
    hide Drafted, Built, AreNamed, Mounts, MountFor, WellNamed, KeptMount, Moves;
    var draft := Drafted(services, gates, dropped, volume, net).services.value;
    var named := BuiltIsNamed(services, gates, dropped, volume, ctx, net);
    DraftedMounts(services, gates, dropped, volume, net);
    BuiltVolume(services, gates, dropped, volume, ctx, net);
    SameMounts(named, Built(services, gates, dropped, volume, ctx, net).services.value);
    forall p, mount ensures Mounts(named, p, mount) <==> KeptMount(services, gates, ctx, p, mount) {
      BuiltMountExactlyWhen(services, gates, ctx, draft, named, p, mount);
    }
    forall m ensures Moves(m, ctx) {
      MountMoves(m, ctx);
    }
  }

  lemma BuiltMountExactlyWhen(services: seq<Service>, gates: map<string, bool>, ctx: Naming, draft: seq<Service>, named: seq<Service>,
                              p: string, mount: string)
    requires AreNamed(draft, ctx, named)
    requires forall a, m :: Mounts(draft, a, m) <==> Mounts(services, a, m) && (a in gates ==> gates[a])
    ensures Mounts(named, p, mount) <==> KeptMount(services, gates, ctx, p, mount)
  {
    hide AreNamed, Mounts, MountFor, NameFor;
    NamedMountExactlyWhen(draft, ctx, named, p, mount);
  }

  lemma BuiltVolume(services: seq<Service>, gates: map<string, bool>, dropped: set<string>, volume: int, ctx: Naming, net: Network)
    requires ctx.prefix.Some? ==> WellNamed(ctx)
    ensures Built(services, gates, dropped, volume, ctx, net).volumes == Some(map[VolumeFor(ctx) := volume])
  {
    hide Renamed, Kept, Scrubbed, LegacyRenamed, FindDb;
    assert (map[LOGICAL_VOLUME := volume] - {LOGICAL_VOLUME})[ctx.volume := volume] == map[ctx.volume := volume];
  }

  /** The finished document declares the one network, under its physical name and as external or managed, and has the
      project name that goes with the prefix. */
  lemma BuiltDeclarations(services: seq<Service>, gates: map<string, bool>, dropped: set<string>, volume: int, ctx: Naming, net: Network)
    ensures net.logical.Some? && net.logical.value != "" && net.physical.Some? && net.physical.value != "" ==>
      Built(services, gates, dropped, volume, ctx, net).networks ==
        Some(map[net.physical.value := if net.external then EXTERNAL else BRIDGE])
    ensures net.logical.None? ==> Built(services, gates, dropped, volume, ctx, net).networks == None
    ensures Built(services, gates, dropped, volume, ctx, net).projectName ==
      if ctx.prefix.Some? && ctx.projectName != Some("") then ctx.projectName else None
  {
    hide Renamed, Kept, Scrubbed, LegacyRenamed, FindDb, AttachServices, RewriteNetworkServices;
    if net.logical.Some? && net.physical.Some? {
      var declared := map[net.logical.value := if net.external then EXTERNAL else BRIDGE];
      assert (declared - {net.logical.value})[net.physical.value := declared[net.logical.value]]
          == map[net.physical.value := declared[net.logical.value]];
    }
  }

  /** Network validation of the finished document accepts exactly when every explicit list entry of the drafted
      services is the logical network or, where it is rewritten, the physical one. */
  lemma NetworkValidationExactlyWhen(doc: Document, ctx: Naming, net: Network)
    requires doc.services.Some? && IsDict(doc.services.value) && doc.networks.None? && Attaches(net)
    requires !NamingRaises(Attached(doc, net), ctx)
    requires CollisionFree(Attached(doc, net).services.value, Effective(ctx))
    ensures NetworksAccepted(PhysicalNames(Attached(doc, net), ctx, net)) <==>
      OnlyNetworks(doc.services.value, {net.logical.value} + if Rewrites(net) then {net.physical.value} else {})
  {
    hide AreNamed, References, HasService, NamingRaises;
    var services, logical := doc.services.value, net.logical.value;
    var allowed := {logical} + if Rewrites(net) then {net.physical.value} else {};
    var attached := Attached(doc, net);
    assert SameButNetworks(services, attached.services.value);
    SameReferences(services, attached.services.value);
    AttachKeepsExplicitEntries(services, logical, allowed);
    NamedServices(attached, ctx);
    var named := LegacyApplied(Prefixed(attached, ctx), ctx);
    NamingKeepsNetworks(attached.services.value, ctx, named.services.value, allowed);
    assert named.networks.value.Keys == {logical};
    if Rewrites(net) {
      var physical := net.physical.value;
      RewrittenEntries(named.services.value, logical, physical);
      assert RenameNetwork(named.networks.value, logical, physical).Keys == {physical};
      assert allowed == {logical, physical};
    } else {
      assert allowed == {logical};
    }
  }

  // ---- The document being built ------------------------------------------------------------------------------------

  class ComposeFile {
    var services: Option<seq<Service>>
    var volumes: Option<map<string, int>>
    var networks: Option<map<string, int>>
    var projectName: Option<string>

    constructor (doc: Document)
      ensures View() == doc
    {
      services, volumes, networks, projectName := doc.services, doc.volumes, doc.networks, doc.projectName;
    }

    function View(): (doc: Document)
      reads this
      ensures doc.services == services && doc.volumes == volumes && doc.networks == networks && doc.projectName == projectName
    {
      Document(services, volumes, networks, projectName)
    }

    method AttachLogicalNetwork(net: Network)
      modifies this
      ensures View() == Attached(old(View()), net)
    {
      if !Attaches(net) {
        return;
      }
      var logical := net.logical.value;
      networks := Some(map[logical := if net.external then EXTERNAL else BRIDGE]);
      if services.None? {
        return;
      }
      var all := services.value;
      var updated := all;
      for i := 0 to |all|
        invariant |updated| == |all|
        invariant forall j | 0 <= j < i :: updated[j] == AttachService(all[j], logical)
        invariant forall j | i <= j < |all| :: updated[j] == all[j]
      {
        if all[i].value.Mapping? && all[i].value.spec.networks.Absent? {
          updated := updated[i := Service(all[i].name, Mapping(all[i].value.spec.(networks := Items([Name(logical)]))))];
        }
      }
      assert updated == AttachServices(all, logical);
      services := Some(updated);
    }

    /** `apply_compose_prefix`: raises, leaving the document alone, exactly when two services collide. */
    method ApplyPrefix(ctx: Naming) returns (raised: Option<NamingError>)
      requires services.Some? ==> IsDict(services.value)
      modifies this
      ensures raised == None <==> (PrefixApplies(old(View()), ctx) ==> CollisionFree(old(View()).services.value, ctx))
      ensures View() == if raised == None then Prefixed(old(View()), ctx) else old(View())
    {
      if ctx.prefix.None? || services.None? {
        return None;
      }
      var rewritten := RewriteValues(Mappings(services.value), ctx);
      DistinctKeysExactlyWhen(services.value, ctx);
      var renamed := RenameServiceKeys(rewritten, ctx);
      if renamed.Err? {
        return Some(DuplicateKey(renamed.error));
      }
      services := Some(renamed.value);
      if volumes.Some? && LOGICAL_VOLUME in volumes.value {
        var declaration := volumes.value[LOGICAL_VOLUME];
        volumes := Some(volumes.value - {LOGICAL_VOLUME});
        volumes := Some(volumes.value[ctx.volume := declaration]);
      }
      if ctx.projectName.Some? && ctx.projectName.value != "" {
        projectName := ctx.projectName;
      }
      raised := None;
    }

    /** `_apply_legacy_postgres_service_rename`; popping a db entry that is not a mapping raises. */
    method ApplyLegacyRename(ctx: Naming) returns (raised: Option<NamingError>)
      requires services.Some? ==> IsDict(services.value)
      modifies this
      ensures raised == if LegacyDb(old(View()), ctx) == Some(NotMapping) then Some(DbNotAMapping) else None
      ensures View() == LegacyApplied(old(View()), ctx)
    {
      if ctx.prefix.Some? || ctx.postgres == LOGICAL_DB || services.None? {
        return None;
      }
      var db := FindDb(services.value);
      if db.None? {
        return None;
      }
      if db.value.NotMapping? {
        return Some(DbNotAMapping);
      }
      var rewritten := RewriteValues(Mappings(services.value), LegacyNaming(ctx));
      var moved := Mapping(RewriteSpec(db.value.spec, LegacyNaming(ctx)));
      services := Some(Assign(Without(rewritten, LOGICAL_DB), ctx.postgres, moved));
      raised := None;
    }

    method ApplyNetwork(net: Network)
      modifies this
      ensures View() == NetworkApplied(old(View()), net)
    {
      if !Rewrites(net) {
        return;
      }
      var logical, physical := net.logical.value, net.physical.value;
      if networks.Some? && logical in networks.value && logical != physical {
        var declaration := networks.value[logical];
        networks := Some(networks.value - {logical});
        networks := Some(networks.value[physical := declaration]);
      }
      if services.None? {
        return;
      }
      var all := services.value;
      var updated := all;
      ghost var renamed := View();
      for i := 0 to |all|
        invariant |updated| == |all| && View() == renamed
        invariant forall j | 0 <= j < i :: updated[j] == RewriteNetworkService(all[j], logical, physical)
        invariant forall j | i <= j < |all| :: updated[j] == all[j]
      {
        if all[i].value.Mapping? && all[i].value.spec.networks.Items? {
          var entries := RewriteNetworkNameList(all[i].value.spec.networks.items, logical, physical);
          updated := updated[i := Service(all[i].name, Mapping(all[i].value.spec.(networks := Items(entries))))];
        }
      }
      assert updated == RewriteNetworkServices(all, logical, physical);
      services := Some(updated);
    }

    /** `apply_compose_physical_names` */
    method ApplyPhysicalNames(ctx: Naming, net: Network) returns (raised: Option<NamingError>)
      requires services.Some? ==> IsDict(services.value)
      modifies this
      ensures raised == None <==> !NamingRaises(old(View()), ctx)
      ensures raised == None ==> View() == PhysicalNames(old(View()), ctx, net)
    {
      raised := ApplyPrefix(ctx);
      if raised.Some? {
        return;
      }
      if services.Some? && ctx.prefix.Some? {
        DistinctKeysExactlyWhen(old(View()).services.value, ctx);
      }
      raised := ApplyLegacyRename(ctx);
      if raised.Some? {
        return;
      }
      ApplyNetwork(net);
    }
  }

  /** The end of `build_compose_document`, from the merged services on. */
  method BuildComposeDocument(services: seq<Service>, gates: map<string, bool>, volume: int, ctx: Naming, net: Network)
    returns (result: Result<Document, NamingError>, dropped: set<string>)
    requires IsDict(services)
    ensures ReportsDropped(services, gates, dropped)
    ensures result.Ok? <==> !NamingRaises(Drafted(services, gates, dropped, volume, net), ctx)
    ensures result.Ok? ==> result.value == Built(services, gates, dropped, volume, ctx, net)
  {
    var kept, gone := ApplySidecarGates(services, gates);
    var scrubbed := ScrubServiceDeps(kept, gone);
    dropped := gone;
    KeptIsDict(services, gates);
    ScrubbedServices(kept, gone, "");
    var file := new ComposeFile(Document(Some(scrubbed), Some(map[LOGICAL_VOLUME := volume]), None, None));
    file.AttachLogicalNetwork(net);
    DraftedServices(services, gates, gone, volume, net);
    var raised := file.ApplyPhysicalNames(ctx, net);
    result := if raised.Some? then Err(raised.value) else Ok(file.View());
  }
}
