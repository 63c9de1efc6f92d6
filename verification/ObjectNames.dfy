/** Object names and the parent tuples built from them. */
module ObjectNames {
  import opened Options
  import opened TypeNames

  // ---------------------------------------------------------------- names

  function NameFromType(objectType: string, cluster: string, name: string, namespace: Option<string>): string {
    if namespace.Some? && namespace.value != "" then objectType + ":" + cluster + "/" + namespace.value + "/" + name
    else objectType + ":" + cluster + "/" + name
  }

  /** What a name is made of; no namespace for a cluster-scoped object. */
  datatype Parts = Parts(objectType: string, cluster: string, namespace: Option<string>, name: string)

  /** The text before and after the first `c`. */
  function Split(s: string, c: char): Option<(string, string)> {
    if s == "" then None
    else if s[0] == c then Some(("", s[1..]))
    else match Split(s[1..], c)
      case None => None
      case Some((before, after)) => Some(([s[0]] + before, after))
  }

  function Parse(s: string): Option<Parts> {
    match Split(s, ':')
    case None => None
    case Some((objectType, rest)) =>
      match Split(rest, '/')
      case None => None
      case Some((cluster, tail)) =>
        match Split(tail, '/')
        case None => Some(Parts(objectType, cluster, None, tail))
        case Some((namespace, name)) => Some(Parts(objectType, cluster, Some(namespace), name))
  }

  lemma {:induction false} SplitAfter(before: string, c: char, after: string)
    requires c !in before
    ensures Split(before + [c] + after, c) == Some((before, after))
  {
    var s := before + [c] + after;
    if before == "" {
      assert s[1..] == after;
    } else {
      assert s[0] == before[0] && s[1..] == before[1..] + [c] + after;
      SplitAfter(before[1..], c, after);
      assert [before[0]] + before[1..] == before;
    }
  }

  /** What stands before a split does not contain the separator. */
  lemma {:induction false} SplitsAtTheFirst(s: string, c: char)
    ensures Split(s, c).Some? ==> c !in Split(s, c).value.0 && s == Split(s, c).value.0 + [c] + Split(s, c).value.1
    ensures Split(s, c).None? <==> c !in s
  {
    if s != "" && s[0] != c {
      SplitsAtTheFirst(s[1..], c);
      assert s == [s[0]] + s[1..];
    }
  }

  /** The parts a reader can tell apart: a slash in the last part of a namespaced name does
      no harm, and nothing else may contain the separator that ends it. */
  predicate Readable(p: Parts) {
    && ':' !in p.objectType && '/' !in p.cluster
    && (p.namespace.None? ==> '/' !in p.name)
    && (p.namespace.Some? ==> p.namespace.value != "" && '/' !in p.namespace.value)
  }

  function Print(p: Parts): string {
    NameFromType(p.objectType, p.cluster, p.name, p.namespace)
  }

  lemma PrintThenParse(p: Parts)
    requires Readable(p)
    ensures Parse(Print(p)) == Some(p)
  {
    var tail := if p.namespace.Some? then p.namespace.value + "/" + p.name else p.name;
    var rest := p.cluster + "/" + tail;
    assert Print(p) == p.objectType + ":" + rest;
    SplitAfter(p.objectType, ':', rest);
    SplitAfter(p.cluster, '/', tail);
    if p.namespace.Some? {
      SplitAfter(p.namespace.value, '/', p.name);
    } else {
      SplitsAtTheFirst(tail, '/');
    }
  }

  /** Whatever is read has no separator where one would have ended the part, though a
      namespace may come out empty. */
  lemma ParsedParts(s: string)
    requires Parse(s).Some?
    ensures var p := Parse(s).value;
            && ':' !in p.objectType && '/' !in p.cluster
            && (p.namespace.None? ==> '/' !in p.name)
            && (p.namespace.Some? ==> '/' !in p.namespace.value)
  {
    SplitsAtTheFirst(s, ':');
    var rest := Split(s, ':').value.1;
    SplitsAtTheFirst(rest, '/');
    SplitsAtTheFirst(Split(rest, '/').value.1, '/');
  }

  /** An empty namespace is printed as none, and never read back. */
  lemma EmptyNamespaceIsLost(p: Parts)
    requires p.namespace == Some("") && ':' !in p.objectType && '/' !in p.cluster
    ensures Parse(Print(p)) != Some(p)
  {
    var rest := p.cluster + "/" + p.name;
    assert Print(p) == p.objectType + ":" + rest;
    SplitAfter(p.objectType, ':', rest);
    SplitAfter(p.cluster, '/', p.name);
    SplitsAtTheFirst(p.name, '/');
  }

  /** A name can be read back exactly when its parts are readable. */
  lemma ParsePrint(p: Parts)
    ensures Parse(Print(p)) == Some(p) <==> Readable(p)
  {
    if Readable(p) {
      PrintThenParse(p);
    } else if Parse(Print(p)) == Some(p) {
      ParsedParts(Print(p));
      EmptyNamespaceIsLost(p);
      assert false;
    }
  }

  /** So no two objects share a name, and a namespaced one never has the name of a
      cluster-scoped one. */
  lemma NamesAreDistinct(p: Parts, q: Parts)
    requires Readable(p) && Readable(q) && Print(p) == Print(q)
    ensures p == q
  {
    ParsePrint(p);
    ParsePrint(q);
  }

  /** Every cluster-scoped name with a slash is also the name of a namespaced object: what
      is before the slash may be a namespace. */
  lemma SlashesCollide(objectType: string, cluster: string, namespace: string, name: string)
    requires namespace != ""
    ensures Print(Parts(objectType, cluster, None, namespace + "/" + name))
         == Print(Parts(objectType, cluster, Some(namespace), name))
  {
    assert objectType + ":" + cluster + "/" + (namespace + "/" + name)
        == objectType + ":" + cluster + "/" + namespace + "/" + name;
  }

  // ---------------------------------------------------------------- parents

  /** `user` is the parent of `target`. */
  datatype ParentTuple = ParentTuple(target: string, user: string)

  datatype Resource = Resource(group: string, kind: string, cluster: string, name: string, namespace: string)

  datatype Built = Tuples(tuples: seq<ParentTuple>) | EmptyAccount

  function BuildParentTuples(parent: string, target: string, namespaceObject: Option<string>): seq<ParentTuple> {
    if namespaceObject.Some? && namespaceObject.value != "" then
      [ParentTuple(namespaceObject.value, parent), ParentTuple(target, namespaceObject.value)]
    else if target == parent then []
    else [ParentTuple(target, parent)]
  }

  function ResourceParts(res: Resource): Parts {
    Parts(ConvertToTypeName(res.group, res.kind), res.cluster,
      if res.namespace != "" then Some(res.namespace) else None, res.name)
  }

  function NamespaceParts(res: Resource): Parts {
    Parts(ConvertToTypeName("", "namespace"), res.cluster, None, res.namespace)
  }

  function BuildContextualTuples(account: string, res: Resource): Built {
    if account == "" then EmptyAccount
    else
      var target := Print(ResourceParts(res));
      var namespaceObject := if res.namespace != "" then Some(Print(NamespaceParts(res))) else None;
      Tuples(BuildParentTuples(account, target, namespaceObject))
  }

  // ---------------------------------------------------------------- the chain

  /** A walk from object to parent. */
  predicate Walk(ts: seq<ParentTuple>, path: seq<string>) {
    && |path| > 0
    && (forall i :: 0 <= i < |path| - 1 ==> ParentTuple(path[i], path[i + 1]) in ts)
  }

  predicate Cycle(ts: seq<ParentTuple>, path: seq<string>) {
    Walk(ts, path) && |path| > 1 && path[0] == path[|path| - 1]
  }

  ghost predicate Acyclic(ts: seq<ParentTuple>) {
    forall path :: !Cycle(ts, path)
  }

  /** Every tuple goes down in rank. */
  ghost predicate Ranked(ts: seq<ParentTuple>, rank: map<string, nat>) {
    forall t :: t in ts ==> t.target in rank && t.user in rank && rank[t.user] < rank[t.target]
  }

  lemma {:induction false} WalksDescend(ts: seq<ParentTuple>, rank: map<string, nat>, path: seq<string>)
    requires Ranked(ts, rank) && Walk(ts, path) && |path| > 1
    ensures path[0] in rank && path[|path| - 1] in rank && rank[path[|path| - 1]] < rank[path[0]]
  {
    assert ParentTuple(path[0], path[1]) in ts;
    if |path| > 2 {
      forall i | 0 <= i < |path[1..]| - 1 ensures ParentTuple(path[1..][i], path[1..][i + 1]) in ts {
        assert ParentTuple(path[i + 1], path[i + 2]) in ts;
      }
      WalksDescend(ts, rank, path[1..]);
    }
  }

  lemma RankedIsAcyclic(ts: seq<ParentTuple>, rank: map<string, nat>)
    requires Ranked(ts, rank)
    ensures Acyclic(ts)
  {
    forall path ensures !Cycle(ts, path) {
      if Walk(ts, path) && |path| > 1 {
        WalksDescend(ts, rank, path);
      }
    }
  }

  /** The type name of namespaces. */
  lemma NamespaceType()
    ensures ConvertToTypeName("", "namespace") == "core_namespace"
  {
    assert Joined("core", "namespace") == "core_namespace";
  }

  /** Type names of groups and kinds without a colon have none. */
  lemma TypeNamesHaveNoColon(group: string, kind: string)
    requires ':' !in group && ':' !in kind
    ensures ':' !in ConvertToTypeName(group, kind)
  {
    var joined := Joined(OrCore(group), kind);
    NormalisingBringsInNothing(joined, ':');
    NameIsSuffix(group, kind);
  }

  /** Resources whose names, and whose namespaces' names, can be read back. */
  predicate CleanResource(res: Resource) {
    && ':' !in res.group && ':' !in res.kind && '/' !in res.cluster && '/' !in res.namespace
    && (res.namespace == "" ==> '/' !in res.name)
  }

  lemma ResourceAndNamespaceDiffer(res: Resource)
    requires CleanResource(res) && res.namespace != ""
    ensures Print(ResourceParts(res)) != Print(NamespaceParts(res))
  {
    TypeNamesHaveNoColon(res.group, res.kind);
    TypeNamesHaveNoColon("", "namespace");
    if Print(ResourceParts(res)) == Print(NamespaceParts(res)) {
      NamesAreDistinct(ResourceParts(res), NamespaceParts(res));
    }
  }

  lemma NamespacedCycles(account: string, res: Resource)
    requires account != "" && CleanResource(res) && res.namespace != ""
    requires account == Print(ResourceParts(res)) || account == Print(NamespaceParts(res))
    ensures !Acyclic(BuildContextualTuples(account, res).tuples)
  {
    var ts := BuildContextualTuples(account, res).tuples;
    var target, ns := Print(ResourceParts(res)), Print(NamespaceParts(res));
    assert ts == [ParentTuple(ns, account), ParentTuple(target, ns)];
    TwoTuplesCycle(ts, account, target, ns);
  }

  lemma TwoTuplesCycle(ts: seq<ParentTuple>, account: string, target: string, ns: string)
    requires ts == [ParentTuple(ns, account), ParentTuple(target, ns)] && (account == ns || account == target)
    ensures !Acyclic(ts)
  {
    assert ts[0] == ParentTuple(ns, account) && ts[1] == ParentTuple(target, ns);
    if account == ns {
      assert Cycle(ts, [ns, ns]);
    } else {
      assert Cycle(ts, [ns, account, ns]);
    }
  }

  lemma RanksDescend(account: string, res: Resource)
    requires account != "" && CleanResource(res)
    requires res.namespace == "" || (account != Print(ResourceParts(res)) && account != Print(NamespaceParts(res)))
    ensures Acyclic(BuildContextualTuples(account, res).tuples)
  {
    var ts := BuildContextualTuples(account, res).tuples;
    var target, ns := Print(ResourceParts(res)), Print(NamespaceParts(res));
    if res.namespace == "" {
      RankedIsAcyclic(ts, if target == account then map[] else map[account := 0, target := 1]);
    } else {
      ResourceAndNamespaceDiffer(res);
      RankedIsAcyclic(ts, map[account := 0, ns := 1, target := 2]);
    }
  }

  /** For any account: the tuples of a cluster-scoped resource never form a cycle, and those
      of a namespaced one do exactly when the account is the resource or its namespace. */
  lemma AcyclicExactlyWhen(account: string, res: Resource)
    requires account != "" && CleanResource(res)
    ensures Acyclic(BuildContextualTuples(account, res).tuples)
       <==> res.namespace == "" || (account != Print(ResourceParts(res)) && account != Print(NamespaceParts(res)))
  {
    if res.namespace == "" || (account != Print(ResourceParts(res)) && account != Print(NamespaceParts(res))) {
      RanksDescend(account, res);
    } else {
      NamespacedCycles(account, res);
    }
  }

  /** What can be read back from the targets of the tuples, in order: of the namespace and of
      the resource, or of the resource alone if it is cluster-scoped. */
  predicate ReadsAs(res: Resource, targets: seq<string>) {
    var objectType := ConvertToTypeName(res.group, res.kind);
    if res.namespace != "" then
      && |targets| == 2
      && Parse(targets[0]) == Some(Parts("core_namespace", res.cluster, None, res.namespace))
      && Parse(targets[1]) == Some(Parts(objectType, res.cluster, Some(res.namespace), res.name))
    else
      && |targets| == 1
      && Parse(targets[0]) == Some(Parts(objectType, res.cluster, None, res.name))
  }

  /** The account is an error when empty, and else the end of a walk from the resource: of no
      step when it is the resource, of one for a cluster-scoped resource, and of two, by way
      of the namespace, for a namespaced one; and resource and namespace can be read back. */
  lemma AccountIsReached(account: string, res: Resource) returns (target: string, ns: string)
    requires CleanResource(res)
    ensures BuildContextualTuples(account, res).EmptyAccount? <==> account == ""
    ensures ReadsAs(res, if res.namespace != "" then [ns, target] else [target])
    ensures account != "" ==>
              var ts := BuildContextualTuples(account, res).tuples;
              if res.namespace != "" then
                Walk(ts, [target, ns, account]) && ts == [ParentTuple(ns, account), ParentTuple(target, ns)]
              else if target == account then ts == []
              else Walk(ts, [target, account]) && ts == [ParentTuple(target, account)]
  {
    target, ns := Print(ResourceParts(res)), Print(NamespaceParts(res));
    NamesAreReadable(res);
    NamespaceType();
    PrintThenParse(ResourceParts(res));
    if res.namespace != "" {
      PrintThenParse(NamespaceParts(res));
    }
    if account != "" && res.namespace != "" {
      var ts := BuildContextualTuples(account, res).tuples;
      assert ts[0] == ParentTuple(ns, account) && ts[1] == ParentTuple(target, ns);
    }
  }

  lemma DeploymentType()
    ensures ConvertToTypeName("apps", "deployment") == "apps_deployment"
  {
    assert Joined("apps", "deployment") == "apps_deployment";
  }

  /** The same, spelled out. */
  lemma TuplesOfADeployment()
    ensures BuildContextualTuples("a", Resource("apps", "deployment", "c1", "web", "default"))
         == Tuples([ParentTuple("core_namespace:c1/default", "a"),
                    ParentTuple("apps_deployment:c1/default/web", "core_namespace:c1/default")])
  {
    NamespaceType();
    DeploymentType();
    assert NameFromType("core_namespace", "c1", "default", None) == "core_namespace:c1/default";
    assert NameFromType("apps_deployment", "c1", "web", Some("default")) == "apps_deployment:c1/default/web";
  }

  lemma StandsApart(p: Parts, q: Parts)
    requires Readable(p) && Readable(q) && (p.namespace != q.namespace || p.objectType != q.objectType)
    ensures Print(p) != Print(q)
  {
    PrintThenParse(p);
    PrintThenParse(q);
  }

  lemma NamesAreReadable(res: Resource)
    requires CleanResource(res)
    ensures Readable(ResourceParts(res))
    ensures res.namespace != "" ==> Readable(NamespaceParts(res)) && ResourceParts(res).namespace.Some?
  {
    TypeNamesHaveNoColon(res.group, res.kind);
    TypeNamesHaveNoColon("", "namespace");
  }

  /** A cluster-scoped object that is no namespace shares no name with a namespaced resource
      or its namespace. */
  lemma AccountStandsApart(account: Parts, res: Resource)
    requires Readable(account) && account.namespace.None? && account.objectType != "core_namespace"
    requires CleanResource(res) && res.namespace != ""
    ensures Print(account) != Print(ResourceParts(res)) && Print(account) != Print(NamespaceParts(res))
  {
    NamesAreReadable(res);
    NamespaceType();
    StandsApart(account, ResourceParts(res));
    StandsApart(account, NamespaceParts(res));
  }

  /** No object is given two parents, and the account none, when it is a cluster-scoped
      object that is not itself a namespace. */
  lemma AccountIsTheTop(account: Parts, res: Resource)
    requires Readable(account) && account.namespace.None? && account.objectType != "core_namespace"
    requires CleanResource(res)
    ensures var ts := BuildContextualTuples(Print(account), res).tuples;
            && Acyclic(ts)
            && (forall t :: t in ts ==> t.target != Print(account))
            && (forall t, u :: t in ts && u in ts && t.target == u.target ==> t == u)
  {
    AcyclicExactlyWhen(Print(account), res);
    if res.namespace != "" {
      AccountStandsApart(account, res);
      ResourceAndNamespaceDiffer(res);
    }
  }
}
