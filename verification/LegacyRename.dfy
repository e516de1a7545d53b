/** The `POSTGRES_SERVICE_NAME` rename that predates prefixes (compose/service_names.py). */
module LegacyRename {
  import opened Results
  import opened ComposeDocument
  import opened ServiceNames

  function LegacyNaming(ctx: Naming): Naming {
    Naming(None, None, ctx.postgres, LOGICAL_ODOO, LOGICAL_VOLUME)
  }

  function Without(services: seq<Service>, name: string): seq<Service> {
    if services == [] then []
    else if services[0].name == name then Without(services[1..], name)
    else [services[0]] + Without(services[1..], name)
  }

  /** `d[name] = value`: overwrite in place, or append. */
  function Assign(services: seq<Service>, name: string, value: ServiceValue): seq<Service> {
    if services == [] then [Service(name, value)]
    else if services[0].name == name then [Service(name, value)] + services[1..]
    else [services[0]] + Assign(services[1..], name, value)
  }

  /** Pop the db service and store it under its legacy name. */
  function MoveDb(services: seq<Service>, db: ServiceValue, target: string): seq<Service> {
    Assign(Without(services, LOGICAL_DB), target, db)
  }

  lemma {:induction false} WithoutMembers(services: seq<Service>, name: string)
    ensures forall s :: s in Without(services, name) <==> s in services && s.name != name
  {
    if services != [] {
      WithoutMembers(services[1..], name);
    }
  }

  lemma {:induction false} WithoutSize(services: seq<Service>, name: string)
    requires IsDict(services)
    ensures IsDict(Without(services, name))
    ensures |Without(services, name)| == |services| - if HasEntry(services, name) then 1 else 0
  {
    if services != [] {
      DictTail(services);
      WithoutSize(services[1..], name);
      WithoutMembers(services[1..], name);
      if services[0].name != name {
        DictCons(services[0], Without(services[1..], name));
      } else {
        assert services[0] in services;
      }
    }
  }

  lemma {:induction false} AssignMembers(services: seq<Service>, name: string, value: ServiceValue)
    requires IsDict(services)
    ensures forall s :: s in Assign(services, name, value) <==> s == Service(name, value) || (s in services && s.name != name)
    ensures IsDict(Assign(services, name, value))
    ensures |Assign(services, name, value)| == |services| + if HasEntry(services, name) then 0 else 1
  {
    if services != [] {
      DictTail(services);
      var rest := services[1..];
      AssignMembers(rest, name, value);
      if services[0].name == name {
        assert services[0] in services;
        DictCons(Service(name, value), rest);
      } else {
        DictCons(services[0], Assign(rest, name, value));
      }
    }
  }

  /** The services after the legacy rename, given the db service. */
  function LegacyRenamed(services: seq<Service>, ctx: Naming, db: Spec): seq<Service> {
    MoveDb(RewriteValues(Mappings(services), LegacyNaming(ctx)), Mapping(RewriteSpec(db, LegacyNaming(ctx))), ctx.postgres)
  }

  lemma RewrittenAreDict(services: seq<Service>, ctx: Naming)
    requires IsDict(services)
    ensures IsDict(RewriteValues(Mappings(services), ctx))
    ensures |RewriteValues(Mappings(services), ctx)| == |Mappings(services)|
  {
    MappingsAreDict(services);
    assert Names(RewriteValues(Mappings(services), ctx)) == Names(Mappings(services));
  }

  lemma RewrittenMembers(services: seq<Service>, ctx: Naming, s: Service)
    requires s in services && s.value.Mapping?
    ensures RewriteValue(s, ctx) in RewriteValues(Mappings(services), ctx)
  {
    MappingsMembers(services);
    var i :| 0 <= i < |Mappings(services)| && Mappings(services)[i] == s;
    assert RewriteValues(Mappings(services), ctx)[i] == RewriteValue(s, ctx);
  }

  lemma RewrittenOrigin(services: seq<Service>, ctx: Naming, t: Service) returns (s: Service)
    requires t in RewriteValues(Mappings(services), ctx)
    ensures s in services && s.value.Mapping? && t == RewriteValue(s, ctx)
  {
    MappingsMembers(services);
    var rewritten := RewriteValues(Mappings(services), ctx);
    var i :| 0 <= i < |rewritten| && rewritten[i] == t;
    s := Mappings(services)[i];
    assert s in Mappings(services);
  }

  lemma HasEntryRewritten(services: seq<Service>, ctx: Naming, name: string)
    ensures HasEntry(RewriteValues(Mappings(services), ctx), name) <==> HasService(services, name)
  {
    if HasEntry(RewriteValues(Mappings(services), ctx), name) {
      var t :| t in RewriteValues(Mappings(services), ctx) && t.name == name;
      var s := RewrittenOrigin(services, ctx, t);
    }
    if HasService(services, name) {
      var s :| s in services && s.name == name && s.value.Mapping?;
      RewrittenMembers(services, ctx, s);
    }
  }

  /** The legacy rename keeps every service exactly when the legacy name is not taken; otherwise it silently
      overwrites the service that had it, and one service is lost. */
  lemma LegacyLosesExactlyOnCollision(services: seq<Service>, ctx: Naming, db: Spec)
    requires IsDict(services) && Service(LOGICAL_DB, Mapping(db)) in services && ctx.postgres != LOGICAL_DB
    ensures |LegacyRenamed(services, ctx, db)| ==
      |Mappings(services)| - if HasService(services, ctx.postgres) then 1 else 0
    ensures IsDict(LegacyRenamed(services, ctx, db))
    ensures HasService(services, ctx.postgres) <==> !CollisionFree(services, LegacyNaming(ctx))
  {
    var legacy := LegacyNaming(ctx);
    var rewritten := RewriteValues(Mappings(services), legacy);
    RewrittenAreDict(services, legacy);
    HasEntryRewritten(services, legacy, ctx.postgres);
    HasEntryRewritten(services, legacy, LOGICAL_DB);
    assert HasService(services, LOGICAL_DB);
    WithoutSize(rewritten, LOGICAL_DB);
    WithoutMembers(rewritten, LOGICAL_DB);
    AssignMembers(Without(rewritten, LOGICAL_DB), ctx.postgres, Mapping(RewriteSpec(db, legacy)));
    assert HasEntry(Without(rewritten, LOGICAL_DB), ctx.postgres) <==> HasEntry(rewritten, ctx.postgres);
    if HasService(services, ctx.postgres) {
      assert Physical(LOGICAL_DB, legacy) == Physical(ctx.postgres, legacy);
    }
  }

  /** Without a collision the legacy rename yields the services a rename would, only in another order; so
      the isomorphism of `ServiceNames.RenamingIsIsomorphism` carries over. */
  lemma LegacyRenamesLikePrefix(services: seq<Service>, ctx: Naming, db: Spec)
    requires IsDict(services) && Service(LOGICAL_DB, Mapping(db)) in services && ctx.postgres != LOGICAL_DB
    requires !HasService(services, ctx.postgres)
    ensures forall t :: t in LegacyRenamed(services, ctx, db) <==> t in Renamed(services, LegacyNaming(ctx))
  {
    forall t ensures t in LegacyRenamed(services, ctx, db) <==> t in Renamed(services, LegacyNaming(ctx)) {
      if t in LegacyRenamed(services, ctx, db) {
        LegacyInRenamed(services, ctx, db, t);
      }
      if t in Renamed(services, LegacyNaming(ctx)) {
        RenamedInLegacy(services, ctx, db, t);
      }
    }
  }

  lemma LegacyMembers(services: seq<Service>, ctx: Naming, db: Spec, t: Service)
    requires IsDict(services)
    ensures t in LegacyRenamed(services, ctx, db) <==>
      || t == Service(ctx.postgres, Mapping(RewriteSpec(db, LegacyNaming(ctx))))
      || (t in RewriteValues(Mappings(services), LegacyNaming(ctx)) && t.name != LOGICAL_DB && t.name != ctx.postgres)
  {
    var rewritten := RewriteValues(Mappings(services), LegacyNaming(ctx));
    RewrittenAreDict(services, LegacyNaming(ctx));
    WithoutSize(rewritten, LOGICAL_DB);
    WithoutMembers(rewritten, LOGICAL_DB);
    AssignMembers(Without(rewritten, LOGICAL_DB), ctx.postgres, Mapping(RewriteSpec(db, LegacyNaming(ctx))));
  }

  lemma RenamedInLegacy(services: seq<Service>, ctx: Naming, db: Spec, t: Service)
    requires IsDict(services) && Service(LOGICAL_DB, Mapping(db)) in services
    requires !HasService(services, ctx.postgres)
    requires t in Renamed(services, LegacyNaming(ctx))
    ensures t in LegacyRenamed(services, ctx, db)
  {
    var s := OriginOf(services, LegacyNaming(ctx), t);
    LegacyMembers(services, ctx, db, t);
    if s.name == LOGICAL_DB {
      SameNameSameService(services, s, Service(LOGICAL_DB, Mapping(db)));
    } else {
      RewrittenMembers(services, LegacyNaming(ctx), s);
    }
  }

  lemma LegacyInRenamed(services: seq<Service>, ctx: Naming, db: Spec, t: Service)
    requires IsDict(services) && Service(LOGICAL_DB, Mapping(db)) in services
    requires t in LegacyRenamed(services, ctx, db)
    ensures t in Renamed(services, LegacyNaming(ctx))
  {
    LegacyMembers(services, ctx, db, t);
    if t == Service(ctx.postgres, Mapping(RewriteSpec(db, LegacyNaming(ctx)))) {
      ImageIsRenamed(services, LegacyNaming(ctx), Service(LOGICAL_DB, Mapping(db)));
    } else {
      var s := RewrittenOrigin(services, LegacyNaming(ctx), t);
      ImageIsRenamed(services, LegacyNaming(ctx), s);
    }
  }
}
