/** Logical and physical compose names: prefix rewrite and legacy postgres rename (compose/service_names.py). */
module ServiceNames {
  import opened Results
  import opened Text
  import opened ComposeDocument
  import opened VolumeMounts

  datatype Naming = Naming(prefix: Option<string>, projectName: Option<string>,
                           postgres: string, odoo: string, volume: string)

  // ---- Resolving the names ----------------------------------------------------------------------------

  predicate IsSlugChar(c: char) { 'a' <= c <= 'z' || '0' <= c <= '9' || c == '-' }

  lemma SlugCharsListed(c: char)
    ensures IsSlugChar(c) <==> c in {
      'a', 'b', 'c', 'd', 'e', 'f', 'g', 'h', 'i', 'j', 'k', 'l', 'm', 'n', 'o', 'p', 'q', 'r', 's', 't', 'u', 'v', 'w',
      'x', 'y', 'z', '0', '1', '2', '3', '4', '5', '6', '7', '8', '9', '-' }
    ensures IsSlug([c]) <==> IsSlugChar(c) && c != '-' && !('0' <= c <= '9')
  {
  }

  /** `^[a-z][a-z0-9-]*$` */
  predicate IsSlug(s: string) {
    s != "" && 'a' <= s[0] <= 'z' && forall i | 0 <= i < |s| :: IsSlugChar(s[i])
  }

  function ParsePrefix(raw: Option<string>): Option<string> {
    if raw.None? then None
    else
      var value := Lower(Strip(raw.value));
      if !IsSlug(value) then None
      else if value[|value| - 1] == '-' then Some(value) else Some(value + "-")
  }

  function DropTrailingDashes(s: string): string {
    if s != "" && s[|s| - 1] == '-' then DropTrailingDashes(s[..|s| - 1]) else s
  }

  function ResolveNaming(rawPrefix: Option<string>, legacyPostgres: string): Naming {
    match ParsePrefix(rawPrefix)
    case None => Naming(None, None, legacyPostgres, LOGICAL_ODOO, LOGICAL_VOLUME)
    case Some(p) => Naming(Some(p), Some(DropTrailingDashes(p)), p + LOGICAL_DB, p + LOGICAL_ODOO, p + LOGICAL_VOLUME)
  }

  lemma SlugIsLower(s: string)
    requires IsSlug(s)
    ensures Lower(s) == s
  {
    assert forall i | 0 <= i < |s| :: IsSlugChar(s[i]);
  }

  /** A word between white space is read as the slug it spells in whatever case. */
  lemma SlugExactlyWhen(pre: string, word: string, post: string, slug: string)
    requires AllSpace(pre) && AllSpace(post) && IsStripped(word) && IsSlug(slug)
    ensures Lower(Strip(pre + word + post)) == slug <==> SameButForCase(word, slug)
  {
    StripFinds(pre, word, post);
    SlugIsLower(slug);
    LowerAgreesExactlyWhen(word, slug);
  }

  /** With a prefix, which gets one dash at its end, the physical names are the prefix and the logical names; without
      one, only the database has a name of its own. */
  lemma ResolvedNames(pre: string, word: string, post: string, slug: string, legacyPostgres: string)
    requires AllSpace(pre) && AllSpace(post) && IsStripped(word) && IsSlug(slug) && SameButForCase(word, slug)
    ensures var p := if slug[|slug| - 1] == '-' then slug else slug + "-";
      var ctx := ResolveNaming(Some(pre + word + post), legacyPostgres);
      && ctx.prefix == Some(p) && ctx.postgres == p + "db" && ctx.odoo == p + "odoo" && ctx.volume == p + "postgres-data"
      && ctx.projectName.Some? && DashesOff(p, ctx.projectName.value)
  {
    hide DashesOff, IsSlug, DropTrailingDashes, Lower, Strip;
    SlugExactlyWhen(pre, word, post, slug);
    assert slug != "" by {
      SlugStarts(slug);
    }
    DashesDropped(if slug[|slug| - 1] == '-' then slug else slug + "-");
  }

  lemma SlugStarts(slug: string)
    requires IsSlug(slug)
    ensures slug != ""
  {
  }

  /** `project` is the prefix without its dashes at the end. */
  predicate DashesOff(prefix: string, project: string) {
    && project <= prefix && (project != "" ==> project[|project| - 1] != '-')
    && forall i | |project| <= i < |prefix| :: prefix[i] == '-'
  }

  lemma {:induction false} DashesDropped(prefix: string)
    ensures DashesOff(prefix, DropTrailingDashes(prefix))
  {
    if prefix != "" && prefix[|prefix| - 1] == '-' {
      DashesDropped(prefix[..|prefix| - 1]);
    }
  }

  lemma UnprefixedNames(raw: Option<string>, legacyPostgres: string)
    requires raw.None? || forall slug | IsSlug(slug) :: !SameButForCase(Strip(raw.value), slug)
    ensures ResolveNaming(raw, legacyPostgres) == Naming(None, None, legacyPostgres, "odoo", "postgres-data")
  {
    if raw.Some? {
      LowerAgreesExactlyWhen(Strip(raw.value), Lower(Strip(raw.value)));
      LowerTwice(Strip(raw.value));
    }
  }

  /** Physical names that cannot be mistaken for logical ones or for each other. */
  predicate WellNamed(ctx: Naming) {
    && ctx.prefix.Some?
    && ctx.postgres != LOGICAL_DB && ctx.postgres != LOGICAL_ODOO
    && ctx.odoo != LOGICAL_DB && ctx.odoo != LOGICAL_ODOO
    && ctx.postgres != ctx.odoo
    && ctx.volume != LOGICAL_VOLUME && ':' !in ctx.volume
  }

  /** Every prefix that is accepted yields well-separated names. */
  lemma ResolvedNamesDiffer(rawPrefix: Option<string>, legacyPostgres: string)
    requires ParsePrefix(rawPrefix).Some?
    ensures WellNamed(ResolveNaming(rawPrefix, legacyPostgres))
  {
    var p := ParsePrefix(rawPrefix).value;
    assert forall i | 0 <= i < |p| :: IsSlugChar(p[i]);
    var n := |p|;
    assert p[n - 1] == '-' && n >= 2;
    assert (p + LOGICAL_DB)[n - 1] == (p + LOGICAL_ODOO)[n - 1] == '-';
    assert |p + LOGICAL_DB| != |p + LOGICAL_ODOO|;
    assert |p + LOGICAL_DB| > |LOGICAL_DB| && |p + LOGICAL_ODOO| > |LOGICAL_ODOO|;
    assert |p + LOGICAL_VOLUME| > |LOGICAL_VOLUME|;
    assert "odoo"[0] == 'o' && "odoo"[1] == 'd' && "odoo"[2] == 'o' && "odoo"[3] == 'o';
  }

  // ---- Rewriting ------------------------------------------------------------------------------------------

  /** `map_logical_service_name` */
  function Physical(name: string, ctx: Naming): string {
    if name == LOGICAL_DB then ctx.postgres
    else if name == LOGICAL_ODOO then ctx.odoo
    else name
  }

  function RewriteItem(item: Item, ctx: Naming): Item {
    if item.Name? then Name(Physical(item.text, ctx)) else item
  }

  function RewriteItems(items: seq<Item>, ctx: Naming): seq<Item> {
    seq(|items|, i requires 0 <= i < |items| => RewriteItem(items[i], ctx))
  }

  method RewriteServiceNameList(items: seq<Item>, ctx: Naming) returns (rewritten: seq<Item>)
    ensures rewritten == RewriteItems(items, ctx)
  {
    rewritten := [];
    var i := 0;
    while i < |items|
      invariant 0 <= i <= |items|
      invariant rewritten == RewriteItems(items, ctx)[..i]
    {
      match items[i] {
        case Name(text) => rewritten := rewritten + [Name(Physical(text, ctx))];
        case Other(_) => rewritten := rewritten + [items[i]];
      }
      i := i + 1;
    }
  }

  /** `_rewrite_volume_mount` */
  function RewriteMount(item: Item, ctx: Naming): Item {
    if item.Name? && ctx.prefix.Some? then Name(Redirect(item.text, ctx.volume)) else item
  }

  function RewriteNameField(field: Field, ctx: Naming): Field {
    if field.Items? then Items(RewriteItems(field.items, ctx)) else field
  }

  function RewriteMounts(items: seq<Item>, ctx: Naming): seq<Item> {
    seq(|items|, i requires 0 <= i < |items| => RewriteMount(items[i], ctx))
  }

  function RewriteMountField(field: Field, ctx: Naming): Field {
    if field.Items? then Items(RewriteMounts(field.items, ctx)) else field
  }

  /** `_rewrite_service_spec` */
  function RewriteSpec(spec: Spec, ctx: Naming): Spec {
    spec.(dependsOn := RewriteNameField(spec.dependsOn, ctx), links := RewriteNameField(spec.links, ctx),
          volumes := RewriteMountField(spec.volumes, ctx))
  }

  function RewriteValue(s: Service, ctx: Naming): Service {
    if s.value.Mapping? then Service(s.name, Mapping(RewriteSpec(s.value.spec, ctx))) else s
  }

  function RewriteValues(services: seq<Service>, ctx: Naming): seq<Service> {
    seq(|services|, i requires 0 <= i < |services| => RewriteValue(services[i], ctx))
  }

  function RenameKeys(services: seq<Service>, ctx: Naming): seq<Service> {
    seq(|services|, i requires 0 <= i < |services| => Service(Physical(services[i].name, ctx), services[i].value))
  }

  /** Services, rewritten and renamed. */
  function Renamed(services: seq<Service>, ctx: Naming): seq<Service> {
    RenameKeys(RewriteValues(Mappings(services), ctx), ctx)
  }

  /** No two services of the document share a physical name. */
  ghost predicate CollisionFree(services: seq<Service>, ctx: Naming) {
    forall a, b | HasService(services, a) && HasService(services, b) && Physical(a, ctx) == Physical(b, ctx) :: a == b
  }

  /** `_rename_service_keys`: builds the renamed dictionary, raising on the first key already taken. */
  method RenameServiceKeys(services: seq<Service>, ctx: Naming) returns (result: Result<seq<Service>, string>)
    ensures result.Ok? <==> IsDict(RenameKeys(services, ctx))
    ensures result.Ok? ==> result.value == RenameKeys(services, ctx)
    ensures result.Err? ==> exists i, j | 0 <= i < j < |services| ::
      result.error == Physical(services[i].name, ctx) == Physical(services[j].name, ctx)
  {
    var renamed: seq<Service> := [];
    ghost var all := RenameKeys(services, ctx);
    var i := 0;
    while i < |services|
      invariant 0 <= i <= |services|
      invariant renamed == all[..i]
      invariant IsDict(renamed)
    {
      var key := Physical(services[i].name, ctx);
      if j :| 0 <= j < |renamed| && renamed[j].name == key {
        assert Names(all)[j] == Names(all)[i];
        return Err(key);
      }
      DictAppend(renamed, Service(key, services[i].value));
      renamed := renamed + [Service(key, services[i].value)];
      i := i + 1;
    }
    assert renamed == all;
    result := Ok(renamed);
  }

  // ---- The prefix rewrite ----------------------------------------------------------------------------------

  function RenameVolume(volumes: map<string, int>, ctx: Naming): map<string, int> {
    if LOGICAL_VOLUME in volumes then (volumes - {LOGICAL_VOLUME})[ctx.volume := volumes[LOGICAL_VOLUME]] else volumes
  }

  predicate PrefixApplies(doc: Document, ctx: Naming) {
    ctx.prefix.Some? && doc.services.Some?
  }

  /** The document after `apply_compose_prefix` returns. */
  function Prefixed(doc: Document, ctx: Naming): Document {
    if !PrefixApplies(doc, ctx) then doc
    else doc.(services := Some(Renamed(doc.services.value, ctx)),
              volumes := if doc.volumes.Some? then Some(RenameVolume(doc.volumes.value, ctx)) else None,
              projectName := if ctx.projectName.Some? && ctx.projectName.value != "" then ctx.projectName
                             else doc.projectName)
  }

  /** What becomes of one service. */
  function Image(s: Service, ctx: Naming): Service {
    var t := RewriteValue(s, ctx);
    Service(Physical(t.name, ctx), t.value)
  }

  lemma ImageIsRenamed(services: seq<Service>, ctx: Naming, s: Service)
    requires s in services && s.value.Mapping?
    ensures Image(s, ctx) in Renamed(services, ctx)
  {
    MappingsMembers(services);
    var i :| 0 <= i < |Mappings(services)| && Mappings(services)[i] == s;
    assert Renamed(services, ctx)[i] == Image(s, ctx);
  }

  lemma OriginOf(services: seq<Service>, ctx: Naming, t: Service) returns (s: Service)
    requires t in Renamed(services, ctx)
    ensures s in services && s.value.Mapping? && t == Image(s, ctx)
  {
    MappingsMembers(services);
    var i :| 0 <= i < |Renamed(services, ctx)| && Renamed(services, ctx)[i] == t;
    s := Mappings(services)[i];
    assert s in Mappings(services);
  }

  /** Renaming keeps keys distinct exactly when the document is free of collisions. The condition speaks of
      the services as a set, so the order of the dictionary does not matter. */
  lemma DistinctKeysExactlyWhen(services: seq<Service>, ctx: Naming)
    requires IsDict(services)
    ensures IsDict(Renamed(services, ctx)) <==> CollisionFree(services, ctx)
  {
    if IsDict(Renamed(services, ctx)) {
      DistinctKeysMeanNoCollision(services, ctx);
    }
    if CollisionFree(services, ctx) {
      var kept, renamed := Mappings(services), Renamed(services, ctx);
      MappingsMembers(services);
      MappingsAreDict(services);
      forall i, j | 0 <= i < j < |renamed| ensures Names(renamed)[i] != Names(renamed)[j] {
        assert Names(kept)[i] != Names(kept)[j];
        assert kept[i] in kept && kept[j] in kept;
        assert HasService(services, kept[i].name) && HasService(services, kept[j].name);
      }
    }
  }

  lemma DistinctKeysMeanNoCollision(services: seq<Service>, ctx: Naming)
    requires IsDict(Renamed(services, ctx))
    ensures CollisionFree(services, ctx)
  {
    var kept, renamed := Mappings(services), Renamed(services, ctx);
    MappingsMembers(services);
    forall a, b | HasService(services, a) && HasService(services, b) && Physical(a, ctx) == Physical(b, ctx)
      ensures a == b
    {
      var s :| s in services && s.name == a && s.value.Mapping?;
      var t :| t in services && t.name == b && t.value.Mapping?;
      var i :| 0 <= i < |kept| && kept[i] == s;
      var j :| 0 <= j < |kept| && kept[j] == t;
      assert Names(renamed)[i] == Physical(a, ctx) == Names(renamed)[j];
    }
  }

  /** The services that are mappings become their images, in their order; the others are dropped. */
  lemma RenamedInOrder(services: seq<Service>, ctx: Naming)
    ensures |Renamed(services, ctx)| == |Mappings(services)|
    ensures forall i | 0 <= i < |Mappings(services)| :: Renamed(services, ctx)[i] == Image(Mappings(services)[i], ctx)
    ensures forall t :: t in Mappings(services) <==> t in services && t.value.Mapping?
    ensures (forall s | s in services :: s.value.Mapping?) ==> Mappings(services) == services
  {
    MappingsMembers(services);
    if forall s | s in services :: s.value.Mapping? {
      AllMappings(services);
    }
  }

  // ---- The reference graph under renaming ----------------------------------------------------------------------

  /** A reference of the renamed document is the image of an original one, */
  lemma ReferenceOrigin(services: seq<Service>, ctx: Naming, p: string, edge: Edge, q: string)
    returns (a: string, b: string)
    requires References(Renamed(services, ctx), p, edge, q)
    ensures References(services, a, edge, b) && Physical(a, ctx) == p && Physical(b, ctx) == q
  {
    var t :| t in Renamed(services, ctx) && t.name == p && t.value.Mapping? && Name(q) in ItemsOf(FieldOf(t.value.spec, edge));
    var s := OriginOf(services, ctx, t);
    var before, after := ItemsOf(FieldOf(s.value.spec, edge)), ItemsOf(FieldOf(t.value.spec, edge));
    assert after == RewriteItems(before, ctx);
    var i :| 0 <= i < |after| && after[i] == Name(q);
    a, b := s.name, before[i].text;
    assert Name(b) in before;
  }

  /** and every original reference has an image. */
  lemma ReferenceImage(services: seq<Service>, ctx: Naming, a: string, edge: Edge, b: string)
    requires References(services, a, edge, b)
    ensures References(Renamed(services, ctx), Physical(a, ctx), edge, Physical(b, ctx))
  {
    var s :| s in services && s.name == a && s.value.Mapping? && Name(b) in ItemsOf(FieldOf(s.value.spec, edge));
    var t := Image(s, ctx);
    ImageIsRenamed(services, ctx, s);
    var before, after := ItemsOf(FieldOf(s.value.spec, edge)), ItemsOf(FieldOf(t.value.spec, edge));
    assert after == RewriteItems(before, ctx);
    var i :| 0 <= i < |before| && before[i] == Name(b);
    assert after[i] == Name(Physical(b, ctx));
    assert t.value.Mapping? && t.name == Physical(a, ctx);
  }

  lemma ServiceOrigin(services: seq<Service>, ctx: Naming, p: string) returns (a: string)
    requires HasService(Renamed(services, ctx), p)
    ensures HasService(services, a) && Physical(a, ctx) == p
  {
    var t :| t in Renamed(services, ctx) && t.name == p && t.value.Mapping?;
    var s := OriginOf(services, ctx, t);
    a := s.name;
  }

  lemma ServiceImage(services: seq<Service>, ctx: Naming, a: string)
    requires HasService(services, a)
    ensures HasService(Renamed(services, ctx), Physical(a, ctx))
  {
    var s :| s in services && s.name == a && s.value.Mapping?;
    ImageIsRenamed(services, ctx, s);
  }

  lemma ReferrerIsService(services: seq<Service>, a: string, edge: Edge, b: string)
    requires References(services, a, edge, b)
    ensures HasService(services, a)
  {
  }

  /** A mount of the renamed document is the image of an original one, */
  lemma MountOrigin(services: seq<Service>, ctx: Naming, p: string, mount: string) returns (a: string, m: string)
    requires Mounts(Renamed(services, ctx), p, mount)
    ensures Mounts(services, a, m) && Physical(a, ctx) == p && RewriteMount(Name(m), ctx) == Name(mount)
  {
    var t :| t in Renamed(services, ctx) && t.name == p && t.value.Mapping? && Name(mount) in ItemsOf(t.value.spec.volumes);
    var s := OriginOf(services, ctx, t);
    var before, after := ItemsOf(s.value.spec.volumes), ItemsOf(t.value.spec.volumes);
    assert after == RewriteMounts(before, ctx);
    var i :| 0 <= i < |after| && after[i] == Name(mount);
    a, m := s.name, before[i].text;
    assert Name(m) in before;
  }

  /** and every original mount has an image. */
  lemma MountImage(services: seq<Service>, ctx: Naming, a: string, m: string)
    requires Mounts(services, a, m)
    ensures Mounts(Renamed(services, ctx), Physical(a, ctx), RewriteMount(Name(m), ctx).text)
  {
    var s :| s in services && s.name == a && s.value.Mapping? && Name(m) in ItemsOf(s.value.spec.volumes);
    var t := Image(s, ctx);
    ImageIsRenamed(services, ctx, s);
    var before, after := ItemsOf(s.value.spec.volumes), ItemsOf(t.value.spec.volumes);
    assert after == RewriteMounts(before, ctx);
    var i :| 0 <= i < |before| && before[i] == Name(m);
    assert after[i] == RewriteMount(Name(m), ctx);
    assert t.value.Mapping? && t.name == Physical(a, ctx);
  }

  /** No list entry has the physical name of a service that its owner does not list. */
  ghost predicate NothingCaptured(services: seq<Service>, ctx: Naming) {
    forall a, edge, n, b | References(services, a, edge, n) && HasService(services, b) && Physical(n, ctx) == Physical(b, ctx) ::
      References(services, a, edge, b)
  }

  /** The services refer to each other after renaming exactly as before. */
  ghost predicate SameGraph(services: seq<Service>, ctx: Naming) {
    forall a, edge, b | HasService(services, a) && HasService(services, b) ::
      References(services, a, edge, b) <==> References(Renamed(services, ctx), Physical(a, ctx), edge, Physical(b, ctx))
  }

  /** Without collisions, renaming is an isomorphism of the reference graph, field by field, exactly when nothing is
      captured. */
  lemma IsomorphismExactlyWhen(services: seq<Service>, ctx: Naming)
    requires CollisionFree(services, ctx)
    ensures SameGraph(services, ctx) <==> NothingCaptured(services, ctx)
  {
    var renamed := Renamed(services, ctx);
    if SameGraph(services, ctx) {
      forall a, edge, n, b | References(services, a, edge, n) && HasService(services, b) && Physical(n, ctx) == Physical(b, ctx)
        ensures References(services, a, edge, b)
      {
        ReferenceImage(services, ctx, a, edge, n);
        ReferrerIsService(services, a, edge, n);
      }
    }
    if NothingCaptured(services, ctx) {
      forall a, edge, b | HasService(services, a) && HasService(services, b)
        ensures References(services, a, edge, b) <==> References(renamed, Physical(a, ctx), edge, Physical(b, ctx))
      {
        if References(services, a, edge, b) {
          ReferenceImage(services, ctx, a, edge, b);
        }
        if References(renamed, Physical(a, ctx), edge, Physical(b, ctx)) {
          var a', n := ReferenceOrigin(services, ctx, Physical(a, ctx), edge, Physical(b, ctx));
          ReferrerIsService(services, a', edge, n);
          assert a' == a;
        }
      }
    }
  }

  /** In a closed document nothing is captured, so renaming is an isomorphism; and the result is closed again. */
  lemma RenamingIsIsomorphism(services: seq<Service>, ctx: Naming)
    requires CollisionFree(services, ctx) && Closed(services)
    ensures SameGraph(services, ctx) && Closed(Renamed(services, ctx))
  {
    IsomorphismExactlyWhen(services, ctx);
    forall p, edge, q | References(Renamed(services, ctx), p, edge, q) ensures HasService(Renamed(services, ctx), q) {
      var a, b := ReferenceOrigin(services, ctx, p, edge, q);
      ServiceImage(services, ctx, b);
    }
  }

  /** Closedness is needed: under any naming, a dangling reference to the physical postgres name becomes a
      reference between two services that did not refer to each other. */
  lemma DanglingReferenceIsCaptured(ctx: Naming) returns (services: seq<Service>)
    requires WellNamed(ctx) && ctx.postgres != "web"
    ensures IsDict(services) && CollisionFree(services, ctx)
    ensures HasService(services, "web") && HasService(services, "db")
    ensures !References(services, "web", DependsOn, "db")
    ensures References(Renamed(services, ctx), Physical("web", ctx), DependsOn, Physical("db", ctx))
  {
    hide Renamed;
    var web := Service("web", Mapping(Spec(Items([Name(ctx.postgres)]), Absent, Absent, Absent, 0)));
    var db := Service("db", Mapping(Spec(Absent, Absent, Absent, Absent, 0)));
    assert |"web"| == 3 && |"db"| == 2 && |"odoo"| == 4;
    services := [web, db];
    assert Names(services) == ["web", "db"];
    assert services[0] == web && services[1] == db;
    assert ItemsOf(FieldOf(web.value.spec, DependsOn))[0] == Name(ctx.postgres);
    assert References(services, "web", DependsOn, ctx.postgres);
    ReferenceImage(services, ctx, "web", DependsOn, ctx.postgres);
  }

  /** After the prefix rewrite no key and no list entry is a logical service name, and no mount uses the
      logical postgres volume. */
  lemma NoLogicalNameSurvives(services: seq<Service>, ctx: Naming)
    requires WellNamed(ctx)
    ensures forall p | HasService(Renamed(services, ctx), p) :: p != LOGICAL_DB && p != LOGICAL_ODOO
    ensures forall p, edge, q | References(Renamed(services, ctx), p, edge, q) :: q != LOGICAL_DB && q != LOGICAL_ODOO
    ensures forall t, m | t in Renamed(services, ctx) && t.value.Mapping? && Name(m) in ItemsOf(t.value.spec.volumes) ::
      MountSource(m) != LOGICAL_VOLUME
  {
    var renamed := Renamed(services, ctx);
    forall p | HasService(renamed, p) ensures p != LOGICAL_DB && p != LOGICAL_ODOO {
      var a := ServiceOrigin(services, ctx, p);
    }
    forall p, edge, q | References(renamed, p, edge, q) ensures q != LOGICAL_DB && q != LOGICAL_ODOO {
      var a, b := ReferenceOrigin(services, ctx, p, edge, q);
    }
    forall t, m | t in renamed && t.value.Mapping? && Name(m) in ItemsOf(t.value.spec.volumes)
      ensures MountSource(m) != LOGICAL_VOLUME
    {
      var s := OriginOf(services, ctx, t);
      var before, after := ItemsOf(s.value.spec.volumes), ItemsOf(t.value.spec.volumes);
      assert after == RewriteMounts(before, ctx);
      var i :| 0 <= i < |after| && after[i] == Name(m);
      RedirectedSource(before[i].text, ctx.volume);
    }
  }

  // ---- Idempotence ---------------------------------------------------------------------------------------------

  lemma PhysicalTwice(name: string, ctx: Naming)
    requires WellNamed(ctx)
    ensures Physical(Physical(name, ctx), ctx) == Physical(name, ctx)
  {
  }

  lemma RewriteSpecTwice(spec: Spec, ctx: Naming)
    requires WellNamed(ctx)
    ensures RewriteSpec(RewriteSpec(spec, ctx), ctx) == RewriteSpec(spec, ctx)
  {
    RewriteItemsTwice(ItemsOf(spec.dependsOn), ctx);
    RewriteItemsTwice(ItemsOf(spec.links), ctx);
    var mounts := ItemsOf(spec.volumes);
    var once := RewriteMounts(mounts, ctx);
    forall i | 0 <= i < |mounts| ensures RewriteMount(once[i], ctx) == once[i] {
      if mounts[i].Name? {
        RedirectedSource(mounts[i].text, ctx.volume);
        RedirectChangesSourceOnly(once[i].text, ctx.volume);
      }
    }
    assert RewriteMounts(once, ctx) == once;
  }

  lemma RewriteItemsTwice(items: seq<Item>, ctx: Naming)
    requires WellNamed(ctx)
    ensures RewriteItems(RewriteItems(items, ctx), ctx) == RewriteItems(items, ctx)
  {
  }

  lemma {:induction false} AllMappings(services: seq<Service>)
    requires forall s | s in services :: s.value.Mapping?
    ensures Mappings(services) == services
  {
    if services != [] {
      AllMappings(services[1..]);
    }
  }

  /** A second prefix rewrite changes nothing and cannot collide. */
  lemma PrefixTwice(doc: Document, ctx: Naming)
    requires WellNamed(ctx)
    requires doc.services.Some? ==> IsDict(doc.services.value) && CollisionFree(doc.services.value, ctx)
    ensures Prefixed(Prefixed(doc, ctx), ctx) == Prefixed(doc, ctx)
    ensures Prefixed(doc, ctx).services.Some? ==> CollisionFree(Prefixed(doc, ctx).services.value, ctx)
  {
    if doc.services.Some? {
      var services := doc.services.value;
      var once := Renamed(services, ctx);
      forall t | t in once ensures t.value.Mapping? {
        var s := OriginOf(services, ctx, t);
      }
      AllMappings(once);
      var twice := Renamed(once, ctx);
      assert |twice| == |once|;
      forall i | 0 <= i < |once| ensures twice[i] == once[i] {
        assert once[i] in once;
        var s := OriginOf(services, ctx, once[i]);
        RewriteSpecTwice(s.value.spec, ctx);
        PhysicalTwice(s.name, ctx);
      }
      assert twice == once;
      DistinctKeysExactlyWhen(services, ctx);
      DistinctKeysExactlyWhen(once, ctx);
    }
  }
}
