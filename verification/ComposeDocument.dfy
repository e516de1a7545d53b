/** The compose mapping odpm assembles: services in dictionary order with the fields the naming and
    gating passes read or write. Everything else in a service is carried along unread. */
module ComposeDocument {
  import opened Results
  import opened Sequences

  const LOGICAL_DB := "db"
  const LOGICAL_ODOO := "odoo"
  const LOGICAL_VOLUME := "postgres-data"

  /** A list entry: a string, or some other scalar. */
  datatype Item = Name(text: string) | Other(tag: int)

  /** The value under a key: missing, a list, or any other shape. */
  datatype Field = Absent | Items(items: seq<Item>) | OtherShape

  datatype Spec = Spec(dependsOn: Field, links: Field, volumes: Field, networks: Field, rest: int)

  datatype ServiceValue = Mapping(spec: Spec) | NotMapping

  datatype Service = Service(name: string, value: ServiceValue)

  /** `volumes` and `networks` map names to declarations, which no pass looks into. */
  datatype Document = Document(services: Option<seq<Service>>, volumes: Option<map<string, int>>,
                               networks: Option<map<string, int>>, projectName: Option<string>)

  /** The two list fields that refer to services by name. */
  datatype Edge = DependsOn | Links

  function FieldOf(spec: Spec, edge: Edge): Field {
    match edge case DependsOn => spec.dependsOn case Links => spec.links
  }

  function ItemsOf(field: Field): seq<Item> {
    if field.Items? then field.items else []
  }

  function Names(services: seq<Service>): seq<string> {
    seq(|services|, i requires 0 <= i < |services| => services[i].name)
  }

  predicate IsDict(services: seq<Service>) {
    NoDuplicates(Names(services))
  }

  /** `{name: spec for name, spec in services.items() if isinstance(spec, dict)}` */
  function Mappings(services: seq<Service>): seq<Service> {
    if services == [] then []
    else if services[0].value.Mapping? then [services[0]] + Mappings(services[1..])
    else Mappings(services[1..])
  }

  /** `a` is a service whose list under `edge` names `b`. */
  ghost predicate References(services: seq<Service>, a: string, edge: Edge, b: string) {
    exists s :: s in services && s.name == a && s.value.Mapping? && Name(b) in ItemsOf(FieldOf(s.value.spec, edge))
  }

  /** The two kinds of reference are what the two list fields hold. */
  lemma ReferencesByField(services: seq<Service>, a: string, b: string)
    ensures References(services, a, DependsOn, b) <==>
      exists s :: s in services && s.name == a && s.value.Mapping?
               && s.value.spec.dependsOn.Items? && Name(b) in s.value.spec.dependsOn.items
    ensures References(services, a, Links, b) <==>
      exists s :: s in services && s.name == a && s.value.Mapping?
               && s.value.spec.links.Items? && Name(b) in s.value.spec.links.items
  {
  }

  /** `a` is a service that mounts `mount`. */
  ghost predicate Mounts(services: seq<Service>, a: string, mount: string) {
    exists s :: s in services && s.name == a && s.value.Mapping? && Name(mount) in ItemsOf(s.value.spec.volumes)
  }

  /** A service with a mapping value is called `name`. */
  ghost predicate HasService(services: seq<Service>, name: string) {
    exists s :: s in services && s.name == name && s.value.Mapping?
  }

  /** Some entry, whatever its value, is called `name`. */
  ghost predicate HasEntry(services: seq<Service>, name: string) {
    exists s :: s in services && s.name == name
  }

  /** Every list-form reference names a service of the document. */
  ghost predicate Closed(services: seq<Service>) {
    forall a, edge, b | References(services, a, edge, b) :: HasService(services, b)
  }

  lemma {:induction false} MappingsMembers(services: seq<Service>)
    ensures forall s :: s in Mappings(services) <==> s in services && s.value.Mapping?
  {
    if services != [] {
      MappingsMembers(services[1..]);
    }
  }

  lemma {:induction false} MappingsAreDict(services: seq<Service>)
    requires IsDict(services)
    ensures IsDict(Mappings(services))
  {
    if services != [] {
      var rest := services[1..];
      DictTail(services);
      MappingsAreDict(rest);
      MappingsMembers(rest);
      if services[0].value.Mapping? {
        forall i | 0 <= i < |Mappings(rest)| ensures Mappings(rest)[i].name != services[0].name {
          assert Mappings(rest)[i] in rest;
          var j :| 0 <= j < |rest| && rest[j] == Mappings(rest)[i];
          assert Names(services)[j + 1] == rest[j].name;
        }
        DictCons(services[0], Mappings(rest));
      }
    }
  }

  lemma DictTail(services: seq<Service>)
    requires IsDict(services) && services != []
    ensures IsDict(services[1..])
    ensures forall s | s in services[1..] :: s.name != services[0].name
  {
    var names := Names(services);
    forall i, j | 0 <= i < j < |services[1..]| ensures Names(services[1..])[i] != Names(services[1..])[j] {
      assert names[i + 1] != names[j + 1];
    }
    forall s | s in services[1..] ensures s.name != services[0].name {
      var j :| 0 <= j < |services[1..]| && services[1..][j] == s;
      assert names[0] != names[j + 1];
    }
  }

  lemma DictCons(first: Service, rest: seq<Service>)
    requires IsDict(rest)
    requires forall i | 0 <= i < |rest| :: rest[i].name != first.name
    ensures IsDict([first] + rest)
  {
    var all := [first] + rest;
    forall i, j | 0 <= i < j < |all| ensures Names(all)[i] != Names(all)[j] {
      assert Names(all)[j] == Names(rest)[j - 1];
      if i > 0 {
        assert Names(all)[i] == Names(rest)[i - 1];
      }
    }
  }

  lemma DictAppend(services: seq<Service>, last: Service)
    requires IsDict(services)
    requires forall i | 0 <= i < |services| :: services[i].name != last.name
    ensures IsDict(services + [last])
  {
    var all := services + [last];
    forall i, j | 0 <= i < j < |all| ensures Names(all)[i] != Names(all)[j] {
      assert Names(all)[i] == Names(services)[i];
      if j < |services| {
        assert Names(all)[j] == Names(services)[j];
      }
    }
  }

  /** A dictionary holds one value per name. */
  lemma SameNameSameService(services: seq<Service>, s: Service, t: Service)
    requires IsDict(services) && s in services && t in services && s.name == t.name
    ensures s == t
  {
    var i :| 0 <= i < |services| && services[i] == s;
    var j :| 0 <= j < |services| && services[j] == t;
    assert Names(services)[i] == Names(services)[j];
  }
}
