/** The compose stack network: attachment under its logical name, rewriting to the physical one, and the
    check that services only use declared networks (compose/network_names.py, compose/validate.py). */
module NetworkNames {
  import opened Results
  import opened Text
  import opened ComposeDocument
  import opened ServiceNames

  const BRIDGE := 0
  const EXTERNAL := 1

  datatype Network = Network(logical: Option<string>, physical: Option<string>, external: bool)

  function ParseNetworkName(raw: Option<string>): Option<string> {
    if raw.None? then None
    else if IsSlug(Lower(Strip(raw.value))) then Some(Lower(Strip(raw.value))) else None
  }

  predicate ParseExternal(raw: Option<string>) {
    raw.Some? && Lower(Strip(raw.value)) in {"1", "true", "yes", "on", "y"}
  }

  function ResolveNetwork(rawName: Option<string>, rawExternal: Option<string>, naming: Naming): Network {
    match ParseNetworkName(rawName)
    case None => Network(None, None, false)
    case Some(logical) =>
      if ParseExternal(rawExternal) then Network(Some(logical), Some(logical), true)
      else Network(Some(logical), Some(if naming.prefix.Some? then naming.prefix.value + logical else logical), false)
  }

  predicate Attaches(net: Network) { net.logical.Some? && net.logical.value != "" }

  predicate Rewrites(net: Network) { Attaches(net) && net.physical.Some? && net.physical.value != "" }

  /** The network setting, between white space and in whatever case, names the slug it spells; the network is then
      attached and rewritten, to the prefix and that name unless it is external. */
  lemma ResolvedNetwork(pre: string, word: string, post: string, logical: string, rawExternal: Option<string>, naming: Naming)
    requires AllSpace(pre) && AllSpace(post) && IsStripped(word) && IsSlug(logical) && SameButForCase(word, logical)
    ensures var net := ResolveNetwork(Some(pre + word + post), rawExternal, naming);
      && net.logical == Some(logical) && net.external == ParseExternal(rawExternal) && Attaches(net) && Rewrites(net)
      && net.physical == Some(if net.external || naming.prefix.None? then logical else naming.prefix.value + logical)
  {
    SlugExactlyWhen(pre, word, post, logical);
  }

  /** Anything else is no network, and nothing is attached. */
  lemma NoNetwork(raw: Option<string>, rawExternal: Option<string>, naming: Naming)
    requires raw.None? || forall slug | IsSlug(slug) :: !SameButForCase(Strip(raw.value), slug)
    ensures ResolveNetwork(raw, rawExternal, naming) == Network(None, None, false)
    ensures !Attaches(ResolveNetwork(raw, rawExternal, naming))
  {
    if raw.Some? {
      LowerAgreesExactlyWhen(Strip(raw.value), Lower(Strip(raw.value)));
      LowerTwice(Strip(raw.value));
    }
  }

  /** The words that make a network external. */
  lemma ExternalExactlyWhen(pre: string, word: string, post: string)
    requires AllSpace(pre) && AllSpace(post) && IsStripped(word)
    ensures ParseExternal(Some(pre + word + post)) <==>
      || word == "1" || SameButForCase(word, "true") || SameButForCase(word, "yes")
      || SameButForCase(word, "on") || SameButForCase(word, "y")
    ensures !ParseExternal(None)
  {
    hide Strip, SameButForCase, Lower, LowerChar;
    StripFinds(pre, word, post);
    LoweredWords();
    LowerAgreesExactlyWhen(word, "true");
    LowerAgreesExactlyWhen(word, "yes");
    LowerAgreesExactlyWhen(word, "on");
    LowerAgreesExactlyWhen(word, "y");
    OneExactlyWhen(word);
  }

  lemma LoweredWords()
    ensures Lower("true") == "true" && Lower("yes") == "yes" && Lower("on") == "on" && Lower("y") == "y"
  {
  }

  lemma OneExactlyWhen(word: string)
    ensures Lower(word) == "1" <==> word == "1"
  {
    if Lower(word) == "1" {
      assert LowerChar(word[0]) == Lower(word)[0] == '1';
    }
  }

  // ---- Passes over the services ---------------------------------------------------------------------------

  function AttachService(s: Service, logical: string): Service {
    if s.value.Mapping? && s.value.spec.networks.Absent?
    then Service(s.name, Mapping(s.value.spec.(networks := Items([Name(logical)])))) else s
  }

  function AttachServices(services: seq<Service>, logical: string): seq<Service> {
    seq(|services|, i requires 0 <= i < |services| => AttachService(services[i], logical))
  }

  function RewriteNetwork(item: Item, logical: string, physical: string): Item {
    if item == Name(logical) then Name(physical) else item
  }

  function RewriteNetworkItems(items: seq<Item>, logical: string, physical: string): seq<Item> {
    seq(|items|, i requires 0 <= i < |items| => RewriteNetwork(items[i], logical, physical))
  }

  function RewriteNetworkService(s: Service, logical: string, physical: string): Service {
    if s.value.Mapping? && s.value.spec.networks.Items?
    then Service(s.name, Mapping(s.value.spec.(
           networks := Items(RewriteNetworkItems(s.value.spec.networks.items, logical, physical)))))
    else s
  }

  function RewriteNetworkServices(services: seq<Service>, logical: string, physical: string): seq<Service> {
    seq(|services|, i requires 0 <= i < |services| => RewriteNetworkService(services[i], logical, physical))
  }

  method RewriteNetworkNameList(items: seq<Item>, logical: string, physical: string) returns (rewritten: seq<Item>)
    ensures rewritten == RewriteNetworkItems(items, logical, physical)
  {
    if logical == physical {
      return items;
    }
    rewritten := [];
    for i := 0 to |items|
      invariant rewritten == RewriteNetworkItems(items, logical, physical)[..i]
    {
      if items[i].Name? && items[i].text == logical {
        rewritten := rewritten + [Name(physical)];
      } else {
        rewritten := rewritten + [items[i]];
      }
    }
  }

  // ---- The document --------------------------------------------------------------------------------------

  /** `attach_logical_compose_network` */
  function Attached(doc: Document, net: Network): Document {
    if !Attaches(net) then doc
    else
      var logical := net.logical.value;
      doc.(networks := Some(map[logical := if net.external then EXTERNAL else BRIDGE]),
           services := if doc.services.Some? then Some(AttachServices(doc.services.value, logical)) else None)
  }

  function RenameNetwork(networks: map<string, int>, logical: string, physical: string): map<string, int> {
    if logical in networks && logical != physical then (networks - {logical})[physical := networks[logical]] else networks
  }

  /** `apply_compose_network` */
  function NetworkApplied(doc: Document, net: Network): Document {
    if !Rewrites(net) then doc
    else
      var logical, physical := net.logical.value, net.physical.value;
      doc.(networks := if doc.networks.Some? then Some(RenameNetwork(doc.networks.value, logical, physical)) else None,
           services := if doc.services.Some? then Some(RewriteNetworkServices(doc.services.value, logical, physical))
                       else None)
  }

  /** Every list-form network entry of a service is one of `allowed`. */
  ghost predicate OnlyNetworks(services: seq<Service>, allowed: set<string>) {
    forall s, n | s in services && s.value.Mapping? && Name(n) in ItemsOf(s.value.spec.networks) :: n in allowed
  }

  /** `_validate_service_networks` for every service. */
  ghost predicate NetworksAccepted(doc: Document) {
    doc.networks.Some? && doc.services.Some? ==> OnlyNetworks(doc.services.value, doc.networks.value.Keys)
  }

  // ---- What the passes do to network entries ------------------------------------------------------------------

  lemma AttachKeepsExplicitEntries(services: seq<Service>, logical: string, allowed: set<string>)
    requires logical in allowed
    ensures OnlyNetworks(AttachServices(services, logical), allowed) <==> OnlyNetworks(services, allowed)
  {
    var attached := AttachServices(services, logical);
    if OnlyNetworks(services, allowed) {
      forall t, n | t in attached && t.value.Mapping? && Name(n) in ItemsOf(t.value.spec.networks) ensures n in allowed {
        var i :| 0 <= i < |attached| && attached[i] == t;
        assert services[i] in services;
      }
    }
    if OnlyNetworks(attached, allowed) {
      forall s, n | s in services && s.value.Mapping? && Name(n) in ItemsOf(s.value.spec.networks) ensures n in allowed {
        var i :| 0 <= i < |services| && services[i] == s;
        assert attached[i] == s && attached[i] in attached;
      }
    }
  }

  lemma RewrittenItems(items: seq<Item>, logical: string, physical: string)
    ensures (forall n | Name(n) in RewriteNetworkItems(items, logical, physical) :: n == physical)
       <==> (forall n | Name(n) in items :: n == logical || n == physical)
  {
    var after := RewriteNetworkItems(items, logical, physical);
    if forall n | Name(n) in items :: n == logical || n == physical {
      forall n | Name(n) in after ensures n == physical {
        var k :| 0 <= k < |after| && after[k] == Name(n);
        assert items[k] in items;
      }
    }
    if forall n | Name(n) in after :: n == physical {
      forall n | Name(n) in items ensures n == logical || n == physical {
        var k :| 0 <= k < |items| && items[k] == Name(n);
        assert after[k] in after;
      }
    }
  }

  lemma RewrittenEntries(services: seq<Service>, logical: string, physical: string)
    ensures OnlyNetworks(RewriteNetworkServices(services, logical, physical), {physical})
       <==> OnlyNetworks(services, {logical, physical})
  {
    hide RewriteNetworkItems;
    var rewritten := RewriteNetworkServices(services, logical, physical);
    if OnlyNetworks(services, {logical, physical}) {
      forall t, n | t in rewritten && t.value.Mapping? && Name(n) in ItemsOf(t.value.spec.networks) ensures n == physical {
        var i :| 0 <= i < |rewritten| && rewritten[i] == t;
        RewrittenItems(ItemsOf(services[i].value.spec.networks), logical, physical);
        assert services[i] in services;
      }
    }
    if OnlyNetworks(rewritten, {physical}) {
      forall s, n | s in services && s.value.Mapping? && Name(n) in ItemsOf(s.value.spec.networks)
        ensures n in {logical, physical}
      {
        var i :| 0 <= i < |services| && services[i] == s;
        RewrittenItems(ItemsOf(s.value.spec.networks), logical, physical);
        assert rewritten[i] in rewritten;
      }
    }
  }

  // ---- The passes leave the reference graph alone ---------------------------------------------------------------

  /** `after` differs from `before` in network fields only. */
  predicate SameButNetworks(before: seq<Service>, after: seq<Service>) {
    && |before| == |after|
    && forall i | 0 <= i < |before| :: SameServiceButNetworks(before[i], after[i])
  }

  predicate SameServiceButNetworks(s: Service, t: Service) {
    && s.name == t.name
    && (s.value.Mapping? <==> t.value.Mapping?)
    && (s.value.Mapping? ==> t.value.spec == s.value.spec.(networks := t.value.spec.networks))
  }

  lemma SameReferences(before: seq<Service>, after: seq<Service>)
    requires SameButNetworks(before, after)
    ensures forall a, edge, b :: References(after, a, edge, b) <==> References(before, a, edge, b)
    ensures forall a :: HasService(after, a) <==> HasService(before, a)
    ensures Names(after) == Names(before)
  {
    forall a, edge, b ensures References(after, a, edge, b) <==> References(before, a, edge, b) {
      SameReference(before, after, a, edge, b);
    }
    forall a ensures HasService(after, a) <==> HasService(before, a) {
      SameService(before, after, a);
    }
    forall i | 0 <= i < |before| ensures before[i].name == after[i].name {
      assert SameServiceButNetworks(before[i], after[i]);
    }
  }

  lemma SameReferenceOne(s: Service, t: Service, edge: Edge, b: string)
    requires SameServiceButNetworks(s, t) && s.value.Mapping?
    ensures t.value.Mapping? && s.name == t.name
    ensures Name(b) in ItemsOf(FieldOf(t.value.spec, edge)) <==> Name(b) in ItemsOf(FieldOf(s.value.spec, edge))
  {
  }

  lemma SameReference(before: seq<Service>, after: seq<Service>, a: string, edge: Edge, b: string)
    requires SameButNetworks(before, after)
    ensures References(after, a, edge, b) <==> References(before, a, edge, b)
  {
    hide ItemsOf, FieldOf, SameServiceButNetworks;
    if References(after, a, edge, b) {
      var t :| t in after && t.name == a && t.value.Mapping? && Name(b) in ItemsOf(FieldOf(t.value.spec, edge));
      var i :| 0 <= i < |after| && after[i] == t;
      SameMapping(before[i], t);
      SameReferenceOne(before[i], t, edge, b);
      assert before[i] in before;
    }
    if References(before, a, edge, b) {
      var s :| s in before && s.name == a && s.value.Mapping? && Name(b) in ItemsOf(FieldOf(s.value.spec, edge));
      var i :| 0 <= i < |before| && before[i] == s;
      SameReferenceOne(s, after[i], edge, b);
      assert after[i] in after;
    }
  }

  lemma SameMapping(s: Service, t: Service)
    requires SameServiceButNetworks(s, t)
    ensures s.value.Mapping? <==> t.value.Mapping?
  {
  }

  lemma SameService(before: seq<Service>, after: seq<Service>, a: string)
    requires SameButNetworks(before, after)
    ensures HasService(after, a) <==> HasService(before, a)
  {
    if HasService(after, a) {
      var t :| t in after && t.name == a && t.value.Mapping?;
      var i :| 0 <= i < |after| && after[i] == t;
      assert SameServiceButNetworks(before[i], t) && before[i] in before;
    }
    if HasService(before, a) {
      var s :| s in before && s.name == a && s.value.Mapping?;
      var i :| 0 <= i < |before| && before[i] == s;
      assert SameServiceButNetworks(s, after[i]) && after[i] in after;
    }
  }

  lemma SameMounts(before: seq<Service>, after: seq<Service>)
    requires SameButNetworks(before, after)
    ensures forall a, mount :: Mounts(after, a, mount) <==> Mounts(before, a, mount)
  {
    hide SameButNetworks, Mounts;
    forall a, mount ensures Mounts(after, a, mount) <==> Mounts(before, a, mount) {
      SameMount(before, after, a, mount);
    }
  }

  lemma SameMountOne(s: Service, t: Service, mount: string)
    requires SameServiceButNetworks(s, t) && s.value.Mapping?
    ensures t.value.Mapping? && s.name == t.name
    ensures Name(mount) in ItemsOf(t.value.spec.volumes) <==> Name(mount) in ItemsOf(s.value.spec.volumes)
  {
  }

  lemma SameMount(before: seq<Service>, after: seq<Service>, a: string, mount: string)
    requires SameButNetworks(before, after)
    ensures Mounts(after, a, mount) <==> Mounts(before, a, mount)
  {
    hide ItemsOf, SameServiceButNetworks;
    if Mounts(after, a, mount) {
      var t :| t in after && t.name == a && t.value.Mapping? && Name(mount) in ItemsOf(t.value.spec.volumes);
      var i :| 0 <= i < |after| && after[i] == t;
      SameMapping(before[i], t);
      SameMountOne(before[i], t, mount);
      assert before[i] in before;
    }
    if Mounts(before, a, mount) {
      var s :| s in before && s.name == a && s.value.Mapping? && Name(mount) in ItemsOf(s.value.spec.volumes);
      var i :| 0 <= i < |before| && before[i] == s;
      SameMountOne(s, after[i], mount);
      assert after[i] in after;
    }
  }

  // ---- Renaming keeps network entries ------------------------------------------------------------------------

  lemma RenamingKeepsNetworks(services: seq<Service>, ctx: Naming, allowed: set<string>)
    ensures OnlyNetworks(Renamed(services, ctx), allowed) <==> OnlyNetworks(services, allowed)
  {
    if OnlyNetworks(services, allowed) {
      forall t, n | t in Renamed(services, ctx) && t.value.Mapping? && Name(n) in ItemsOf(t.value.spec.networks)
        ensures n in allowed
      {
        var s := OriginOf(services, ctx, t);
      }
    }
    if OnlyNetworks(Renamed(services, ctx), allowed) {
      forall s, n | s in services && s.value.Mapping? && Name(n) in ItemsOf(s.value.spec.networks) ensures n in allowed {
        ImageIsRenamed(services, ctx, s);
      }
    }
  }
}
