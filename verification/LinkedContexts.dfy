/**
 * The linked contexts of a deploy target: the link graph of the services, the handlers that answer a link,
 * and the builder that turns the graph into shared, possibly cyclic context objects.
 *
 * A hash of `{ serviceName, serviceOptions }` is modelled by the pair itself, so it is injective.
 */
module LinkedContexts {
  import opened Common

  type Options = map<string, string>
  type Variables = map<string, string>
  type Links = map<string, Link>

  datatype Link = Link(reference: string, options: Option<Options>)

  datatype Service = Service(
    kind: string,
    name: string,
    references: Option<set<string>>,
    options: Option<Options>,
    variables: Option<Variables>,
    services: Option<Links>)

  /** What stays of a context source once its variables and services are taken out. */
  datatype Client = Client(options: Option<Options>, code: string)

  datatype Source = Source(client: Client, variables: Option<Variables>, services: Option<Links>)

  type Handler = (Service, Service) -> Option<Source>

  datatype World = World(metadata: map<string, Service>, handler: Handler)

  datatype Key = Key(service: string, options: Option<Options>)

  datatype Error = UnknownReference(reference: string) | MissingVariablesSupport | DuplicateVariables(alias: string)

  // ---------------------------------------------------------------------------------
  // The link graph

  /** One call of the builder: the service that links, and the links to follow. */
  datatype Node = Node(service: Service, links: Links)

  datatype Answer = Missing | Silent | Answered(key: Key, source: Source, child: Option<Node>)

  function OrEmpty(options: Option<Options>): Options {
    if options.Some? then options.value else map[]
  }

  /** The linked service: the base one, with the options of the link over its own. */
  function Linked(w: World, link: Link): Service
    requires link.reference in w.metadata
  {
    var base := w.metadata[link.reference];
    base.(options := Some(OrEmpty(base.options) + OrEmpty(link.options)))
  }

  /** What the handlers say about link `name` of `u`. */
  function Ask(w: World, u: Node, name: string): Answer
    requires name in u.links
  {
    var link := u.links[name];
    if link.reference !in w.metadata then Missing else
      var service := Linked(w, link);
      match w.handler(u.service, service)
      case None => Silent
      case Some(source) =>
        Answered(Key(link.reference, source.client.options), source,
                 if source.services.Some? then Some(Node(service, source.services.value)) else None)
  }

  function Child(w: World, u: Node, name: string): Option<Node> {
    if name in u.links && Ask(w, u, name).Answered? then Ask(w, u, name).child else None
  }

  /** The node at the end of a path of link names. */
  function Walk(w: World, u: Node, path: seq<string>): Option<Node>
    decreases path
  {
    if path == [] then Some(u)
    else if Child(w, u, path[0]).Some? then Walk(w, Child(w, u, path[0]).value, path[1..])
    else None
  }

  /** The infinite unfolding of the links: the client at the end of a path, if the path is valid. */
  function Unfold(w: World, u: Node, path: seq<string>): Option<Client>
    requires path != []
    decreases path
  {
    if |path| == 1 then
      if path[0] in u.links && Ask(w, u, path[0]).Answered? then Some(Ask(w, u, path[0]).source.client) else None
    else if Child(w, u, path[0]).Some? then Unfold(w, Child(w, u, path[0]).value, path[1..])
    else None
  }

  // ---------------------------------------------------------------------------------
  // What the handlers are asked

  ghost predicate HasOption(options: Option<Options>, name: string, value: string) {
    options.Some? && name in options.value && options.value[name] == value
  }

  predicate SetsOption(options: Option<Options>, name: string) {
    options.Some? && name in options.value
  }

  /** The base service, but for its options: those of the link, and those of the base that the link does not set. */
  ghost predicate IsMerged(base: Service, link: Link, s: Service) {
    && s.options.Some? && s == base.(options := s.options)
    && forall name, value ::
      HasOption(s.options, name, value) <==>
      || HasOption(link.options, name, value)
      || (!SetsOption(link.options, name) && HasOption(base.options, name, value))
  }

  /** There is one such service, and it is the one the handlers are asked about. */
  lemma LinkedIsMerged(w: World, link: Link, s: Service)
    requires link.reference in w.metadata
    ensures IsMerged(w.metadata[link.reference], link, s) <==> s == Linked(w, link)
  {
    var base, linked := w.metadata[link.reference], Linked(w, link);
    forall name, value
      ensures HasOption(linked.options, name, value) <==>
        || HasOption(link.options, name, value)
        || (!SetsOption(link.options, name) && HasOption(base.options, name, value))
    {
    }
    if IsMerged(base, link, s) {
      OptionsAreEqual(s.options.value, linked.options.value);
    }
  }

  lemma OptionsAreEqual(a: Options, b: Options)
    requires forall name, value :: HasOption(Some(a), name, value) <==> HasOption(Some(b), name, value)
    ensures a == b
  {
    forall name
      ensures name in a <==> name in b
      ensures name in a ==> a[name] == b[name]
    {
      assert name in a ==> HasOption(Some(a), name, a[name]);
      assert name in b ==> HasOption(Some(b), name, b[name]);
    }
  }

  /** The handlers answer with the client at the end of the path, each asked about the merged service of its link. */
  ghost predicate AnswersAlong(w: World, service: Service, links: Links, path: seq<string>, client: Client)
    requires path != []
    decreases path
  {
    exists s :: IsAnswerAlong(w, service, links, path, client, s)
  }

  ghost predicate IsAnswerAlong(
    w: World, service: Service, links: Links, path: seq<string>, client: Client, s: Service
  )
    requires path != []
    decreases path, s
  {
    && path[0] in links && links[path[0]].reference in w.metadata
    && IsMerged(w.metadata[links[path[0]].reference], links[path[0]], s)
    && var answer := w.handler(service, s);
       && answer.Some?
       && if |path| == 1 then answer.value.client == client
          else answer.value.services.Some? && AnswersAlong(w, s, answer.value.services.value, path[1..], client)
  }

  /** The unfolding of the links has a client just when the handlers answer with it. */
  lemma {:induction false} UnfoldAnswers(w: World, u: Node, path: seq<string>, client: Client)
    requires path != []
    ensures Unfold(w, u, path) == Some(client) <==> AnswersAlong(w, u.service, u.links, path, client)
    decreases path
  {
    if path[0] in u.links && u.links[path[0]].reference in w.metadata {
      var link := u.links[path[0]];
      var s := Linked(w, link);
      forall s'
        ensures IsMerged(w.metadata[link.reference], link, s') <==> s' == s
      {
        LinkedIsMerged(w, link, s');
      }
      hide IsMerged, Linked;
      var answer := w.handler(u.service, s);
      if |path| > 1 && answer.Some? && answer.value.services.Some? {
        UnfoldAnswers(w, Node(s, answer.value.services.value), path[1..], client);
      }
      assert AnswersAlong(w, u.service, u.links, path, client) <==>
             IsAnswerAlong(w, u.service, u.links, path, client, s);
    }
  }

  /** The entry of a link has the client that the handlers answer with for its merged service, if they answer. */
  ghost predicate IsAnswered(w: World, u: Node, name: string, entry: Option<Entry>)
    requires name in u.links
  {
    && u.links[name].reference in w.metadata
    && exists s :: IsMerged(w.metadata[u.links[name].reference], u.links[name], s) && HasAnswer(w, u, s, entry)
  }

  ghost predicate HasAnswer(w: World, u: Node, s: Service, entry: Option<Entry>) {
    && (entry.Some? <==> w.handler(u.service, s).Some?)
    && (entry.Some? ==> entry.value.client == w.handler(u.service, s).value.client)
  }

  lemma EntryIsAnswered(w: World, u: Node, name: string, entry: Option<Entry>)
    requires name in u.links && !Ask(w, u, name).Missing?
    requires entry.Some? <==> Ask(w, u, name).Answered?
    requires entry.Some? ==> entry.value.client == Ask(w, u, name).source.client
    ensures IsAnswered(w, u, name, entry)
  {
    var s := Linked(w, u.links[name]);
    LinkedIsMerged(w, u.links[name], s);
    hide IsMerged;
    assert HasAnswer(w, u, s, entry);
  }

  /** The node a path leads to is the service its last link was asked about, with the services of the answer. */
  lemma AskedIs(w: World, u: Node, name: string, s: Service)
    requires name in u.links && u.links[name].reference in w.metadata
    requires IsMerged(w.metadata[u.links[name].reference], u.links[name], s)
    ensures var answer := w.handler(u.service, s);
      && (answer.Some? <==> Ask(w, u, name).Answered?)
      && (answer.Some? ==>
            && Ask(w, u, name).source == answer.value
            && Ask(w, u, name).key == Key(u.links[name].reference, answer.value.client.options)
            && Child(w, u, name) ==
               if answer.value.services.Some? then Some(Node(s, answer.value.services.value)) else None)
  {
    LinkedIsMerged(w, u.links[name], s);
  }

  /** The end of an unfolding is the answer to its last link. */
  lemma {:induction false} UnfoldEnds(w: World, u: Node, path: seq<string>, v: Node)
    requires path != [] && Walk(w, u, path[..|path| - 1]) == Some(v)
    ensures Unfold(w, u, path) ==
      var name := path[|path| - 1];
      if name in v.links && Ask(w, v, name).Answered? then Some(Ask(w, v, name).source.client) else None
    decreases path
  {
    if |path| > 1 {
      var init := path[..|path| - 1];
      assert init[0] == path[0] && init[1..] == path[1..][..|path[1..]| - 1];
      UnfoldEnds(w, Child(w, u, path[0]).value, path[1..], v);
    }
  }

  ghost predicate Reachable(w: World, root: Node, u: Node) {
    exists path :: Walk(w, root, path) == Some(u)
  }

  lemma WalkStep(w: World, u: Node, path: seq<string>, v: Node, name: string)
    requires Walk(w, u, path) == Some(v) && Child(w, v, name).Some?
    ensures Walk(w, u, path + [name]) == Child(w, v, name)
    decreases path
  {
    if path == [] {
      assert [name][1..] == [];
    } else {
      WalkStep(w, Child(w, u, path[0]).value, path[1..], v, name);
      assert (path + [name])[1..] == path[1..] + [name];
    }
  }

  lemma ReachableChild(w: World, root: Node, u: Node, name: string)
    requires Reachable(w, root, u) && Child(w, u, name).Some?
    ensures Reachable(w, root, Child(w, u, name).value)
  {
    var path :| Walk(w, root, path) == Some(u);
    WalkStep(w, root, path, u, name);
  }

  // ---------------------------------------------------------------------------------
  // What linking promises about variables

  ghost predicate Sends(w: World, u: Node, name: string, alias: string, value: string) {
    && name in u.links && Ask(w, u, name).Answered?
    && var variables := Ask(w, u, name).source.variables;
       variables.Some? && alias in variables.value && variables.value[alias] == value
  }

  /** `alias = value` is a variable of the target itself or of a service reachable through links. */
  ghost predicate Contributed(w: World, root: Node, own: Option<Variables>, alias: string, value: string) {
    || (own.Some? && alias in own.value && own.value[alias] == value)
    || (exists u, name :: Reachable(w, root, u) && Sends(w, u, name, alias, value))
  }

  ghost predicate Consistent(w: World, root: Node, own: Option<Variables>) {
    forall alias, x, y :: Contributed(w, root, own, alias, x) && Contributed(w, root, own, alias, y) ==> x == y
  }

  ghost predicate Supported(w: World, own: Option<Variables>, u: Node, name: string)
    requires name in u.links
  {
    && !Ask(w, u, name).Missing?
    && (Ask(w, u, name).Answered? && Ask(w, u, name).source.variables.Some? ==> own.Some?)
  }

  /** Every reachable link resolves and may send its variables, and no two variables disagree. */
  ghost predicate Linkable(w: World, root: Node, own: Option<Variables>) {
    && (forall u, name :: Reachable(w, root, u) && name in u.links ==> Supported(w, own, u, name))
    && Consistent(w, root, own)
  }

  // ---------------------------------------------------------------------------------
  // What the handlers of expandable services promise

  ghost predicate Expands(w: World, target: Service, link: Link) {
    && link.reference in w.metadata
    && w.handler(target, Linked(w, link)).Some?
    && w.handler(target, Linked(w, link)).value.services.Some?
  }

  /** An expanded service keeps its merged options, and its services are some of its own. */
  ghost predicate ExpandsItself(w: World, target: Service, link: Link)
    requires Expands(w, target, link)
  {
    var service, source := Linked(w, link), w.handler(target, Linked(w, link)).value;
    && source.client.options == service.options
    && service.services.Some?
    && SubMap(source.services.value, service.services.value)
  }

  /** Any other answer for the same service is expanded too, with the same services for the same options. */
  ghost predicate ExpandsAlike(w: World, target: Service, link: Link, target': Service, link': Link)
    requires Expands(w, target, link) && link'.reference == link.reference
  {
    var answer := w.handler(target', Linked(w, link'));
    answer.Some? ==>
      && answer.value.services.Some?
      && (Linked(w, link') == Linked(w, link) ==>
            answer.value.services == w.handler(target, Linked(w, link)).value.services)
  }

  ghost predicate WellBehaved(w: World) {
    && (forall t, l :: Expands(w, t, l) ==> ExpandsItself(w, t, l))
    && (forall t, l, t', l': Link :: Expands(w, t, l) && l'.reference == l.reference ==> ExpandsAlike(w, t, l, t', l'))
  }

  /** `u` is what expanding `k` means: some target was answered with it. */
  ghost predicate Expansion(w: World, k: Key, u: Node) {
    exists t, l :: IsExpansion(w, t, l, k, u)
  }

  ghost predicate IsExpansion(w: World, t: Service, l: Link, k: Key, u: Node) {
    && Expands(w, t, l)
    && u == Node(Linked(w, l), w.handler(t, Linked(w, l)).value.services.value)
    && k == Key(l.reference, w.handler(t, Linked(w, l)).value.client.options)
  }

  /** A cache hit never meets another expansion: the key determines the node. */
  lemma KeyDeterminesNode(w: World, u: Node, name: string, node: Node)
    requires WellBehaved(w)
    requires name in u.links && Ask(w, u, name).Answered?
    requires Expansion(w, Ask(w, u, name).key, node)
    ensures Ask(w, u, name).child == Some(node)
  {
    var k := Ask(w, u, name).key;
    var t, l :| IsExpansion(w, t, l, k, node);
    var link := u.links[name];
    assert ExpandsItself(w, t, l);
    assert ExpandsAlike(w, t, l, u.service, link);
    assert Expands(w, u.service, link);
    assert ExpandsItself(w, u.service, link);
  }

  // ---------------------------------------------------------------------------------
  // The finite set of keys

  function AllLinks(w: World, root: Node): set<Link> {
    root.links.Values +
    (set n, l | n in w.metadata && w.metadata[n].services.Some? && l in w.metadata[n].services.value.Values :: l)
  }

  function AllKeys(w: World, root: Node): set<Key> {
    set l | l in AllLinks(w, root) && l.reference in w.metadata :: Key(l.reference, Linked(w, l).options)
  }

  lemma ChildIsKnown(w: World, root: Node, u: Node, name: string)
    requires WellBehaved(w)
    requires name in u.links && u.links.Values <= AllLinks(w, root)
    requires Child(w, u, name).Some?
    ensures Ask(w, u, name).key in AllKeys(w, root)
    ensures Child(w, u, name).value.links.Values <= AllLinks(w, root)
    ensures Expansion(w, Ask(w, u, name).key, Child(w, u, name).value)
  {
    var link := u.links[name];
    assert link in u.links.Values;
    assert Expands(w, u.service, link);
    assert ExpandsItself(w, u.service, link);
    var child := Child(w, u, name).value;
    assert IsExpansion(w, u.service, link, Ask(w, u, name).key, child);
    forall l | l in child.links.Values
      ensures l in AllLinks(w, root)
    {
      var n :| n in child.links && child.links[n] == l;
      assert w.metadata[link.reference].services.value[n] == l;
      assert l in w.metadata[link.reference].services.value.Values;
    }
  }

  // ---------------------------------------------------------------------------------
  // The context objects

  class Context {
    var links: map<string, Entry>

    constructor ()
      ensures links == map[]
    {
      links := map[];
    }
  }

  datatype Entry = Entry(client: Client, context: Context?)

  /** The client found by following `.context` along a path of names. */
  ghost function Follow(links: map<string, Entry>, path: seq<string>, heap: set<Context>): Option<Client>
    requires path != []
    reads heap
    decreases |path|
  {
    if path[0] !in links then None
    else if |path| == 1 then Some(links[path[0]].client)
    else
      var c := links[path[0]].context;
      if c == null || c !in heap then None else Follow(c.links, path[1..], heap)
  }

  ghost predicate RepresentsEntry(cache: map<Key, Context>, nodes: map<Key, Node>, e: Entry, a: Answer)
    requires a.Answered?
  {
    && e.client == a.source.client
    && (a.child.None? ==> e.context == null)
    && (a.child.Some? ==>
          && a.key in cache && a.key in nodes
          && nodes[a.key] == a.child.value
          && e.context == cache[a.key])
  }

  /** `links` holds an entry for each answered link of `u` in `names`, and no other. */
  ghost predicate Represents(w: World, cache: map<Key, Context>, nodes: map<Key, Node>,
                             links: map<string, Entry>, u: Node, names: set<string>)
  {
    && (forall n :: n in links <==> n in names && n in u.links && Ask(w, u, n).Answered?)
    && (forall n :: n in links ==> RepresentsEntry(cache, nodes, links[n], Ask(w, u, n)))
  }

  lemma RepresentsGrows(w: World, cache: map<Key, Context>, nodes: map<Key, Node>,
                        cache': map<Key, Context>, nodes': map<Key, Node>,
                        links: map<string, Entry>, u: Node, names: set<string>)
    requires Represents(w, cache, nodes, links, u, names)
    requires SubMap(cache, cache') && SubMap(nodes, nodes')
    ensures Represents(w, cache', nodes', links, u, names)
  {
    forall n | n in links
      ensures RepresentsEntry(cache', nodes', links[n], Ask(w, u, n))
    {
      assert RepresentsEntry(cache, nodes, links[n], Ask(w, u, n));
    }
  }

  /** One more link of `u`, with its entry when it was answered. */
  lemma RepresentsOneMore(w: World, cache: map<Key, Context>, nodes: map<Key, Node>,
                          links: map<string, Entry>, u: Node, names: set<string>, name: string, e: Option<Entry>)
    requires Represents(w, cache, nodes, links, u, names)
    requires name in u.links && name !in names
    requires e.Some? <==> Ask(w, u, name).Answered?
    requires e.Some? ==> RepresentsEntry(cache, nodes, e.value, Ask(w, u, name))
    ensures Represents(w, cache, nodes, if e.Some? then links[name := e.value] else links, u, names + {name})
  {
  }

  /** The variables of the links `names` of `u` are all among `variables`. */
  ghost predicate Covered(w: World, variables: Option<Variables>, u: Node, names: set<string>) {
    forall n :: n in names && n in u.links ==>
      && Supported(w, variables, u, n)
      && (forall alias, value :: Sends(w, u, n, alias, value) ==>
            alias in variables.value && variables.value[alias] == value)
  }

  lemma CoveredGrows(w: World, variables: Option<Variables>, variables': Option<Variables>, u: Node, names: set<string>)
    requires Covered(w, variables, u, names)
    requires variables.Some? ==> variables'.Some? && SubMap(variables.value, variables'.value)
    ensures Covered(w, variables', u, names)
  {
    forall n | n in names && n in u.links
      ensures Supported(w, variables', u, n)
      ensures forall alias, value :: Sends(w, u, n, alias, value) ==>
                alias in variables'.value && variables'.value[alias] == value
    {
      assert Supported(w, variables, u, n);
    }
  }

  lemma CoveredOneMore(w: World, variables: Option<Variables>, u: Node, names: set<string>, name: string)
    requires Covered(w, variables, u, names) && Covered(w, variables, u, {name})
    ensures Covered(w, variables, u, names + {name})
  {
  }

  lemma NothingYet(w: World, cache: map<Key, Context>, nodes: map<Key, Node>, variables: Option<Variables>, u: Node)
    ensures Represents(w, cache, nodes, map[], u, u.links.Keys - u.links.Keys)
    ensures Covered(w, variables, u, u.links.Keys - u.links.Keys)
  {
  }

  // ---------------------------------------------------------------------------------
  // The invariant of the builder, on a picture of its state

  /** The cache, the node of each cached key, what each cached context holds, the variables, the expansions so far. */
  datatype State = State(
    cache: map<Key, Context>,
    nodes: map<Key, Node>,
    contents: map<Key, map<string, Entry>>,
    variables: Option<Variables>,
    expanded: seq<Key>)

  ghost predicate VariablesInv(w: World, root: Node, own: Option<Variables>, variables: Option<Variables>) {
    && (own.Some? <==> variables.Some?)
    && (own.Some? ==> SubMap(own.value, variables.value))
    && (own.Some? ==> forall a :: a in variables.value ==> Contributed(w, root, own, a, variables.value[a]))
  }

  ghost predicate NodesInv(w: World, root: Node, nodes: map<Key, Node>) {
    forall k :: k in nodes ==>
      && k in AllKeys(w, root)
      && Expansion(w, k, nodes[k])
      && Reachable(w, root, nodes[k])
      && nodes[k].links.Values <= AllLinks(w, root)
  }

  ghost predicate Injective(cache: map<Key, Context>) {
    forall k, k' :: k in cache && k' in cache && k != k' ==> cache[k] != cache[k']
  }

  /** Each key was expanded once, into an object of its own. */
  ghost predicate CacheInv(s: State) {
    && s.nodes.Keys == s.cache.Keys == s.contents.Keys
    && Injective(s.cache)
    && Lists(s.expanded, s.cache.Keys)
  }

  ghost predicate Complete(w: World, s: State, k: Key) {
    && k in s.nodes && k in s.contents
    && Represents(w, s.cache, s.nodes, s.contents[k], s.nodes[k], s.nodes[k].links.Keys)
    && Covered(w, s.variables, s.nodes[k], s.nodes[k].links.Keys)
  }

  /** Every cached key is complete or on the recursion stack. */
  ghost predicate Inv(w: World, root: Node, own: Option<Variables>, s: State, stack: set<Key>) {
    && VariablesInv(w, root, own, s.variables)
    && NodesInv(w, root, s.nodes)
    && CacheInv(s)
    && (forall k :: k in s.cache ==> k in stack || Complete(w, s, k))
  }

  lemma PublishKeepsCache(s: State, k: Key, sub: Context, s': State)
    requires CacheInv(s) && k !in s.cache && (forall k' :: k' in s.cache ==> s.cache[k'] != sub)
    requires s'.cache == s.cache[k := sub] && s'.expanded == s.expanded + [k]
    requires s'.nodes.Keys == s.nodes.Keys + {k} && s'.contents.Keys == s.contents.Keys + {k}
    ensures CacheInv(s')
  {
  }

  lemma PublishAdds(s: State, k: Key, sub: Context, s': State)
    requires CacheInv(s) && k !in s.cache
    requires s'.cache == s.cache[k := sub] && k in s'.nodes && s'.nodes == s.nodes[k := s'.nodes[k]]
    requires s'.contents == s.contents[k := map[]]
    ensures SubMap(s.cache, s'.cache) && SubMap(s.nodes, s'.nodes) && SubMap(s.contents, s'.contents)
  {
    hide Injective, Distinct;
  }

  lemma CompleteGrows(w: World, s: State, s': State, k: Key)
    requires Complete(w, s, k)
    requires SubMap(s.cache, s'.cache) && SubMap(s.nodes, s'.nodes) && SubMap(s.contents, s'.contents)
    requires s.variables == s'.variables
    ensures Complete(w, s', k)
  {
    RepresentsGrows(w, s.cache, s.nodes, s'.cache, s'.nodes, s.contents[k], s.nodes[k], s.nodes[k].links.Keys);
  }

  lemma PublishKeepsNodes(w: World, root: Node, nodes: map<Key, Node>, u: Node, name: string)
    requires WellBehaved(w) && NodesInv(w, root, nodes)
    requires Reachable(w, root, u) && u.links.Values <= AllLinks(w, root)
    requires name in u.links && Child(w, u, name).Some?
    ensures NodesInv(w, root, nodes[Ask(w, u, name).key := Child(w, u, name).value])
    ensures Ask(w, u, name).key in AllKeys(w, root)
    ensures Reachable(w, root, Child(w, u, name).value)
    ensures Child(w, u, name).value.links.Values <= AllLinks(w, root)
  {
    ChildIsKnown(w, root, u, name);
    ReachableChild(w, root, u, name);
    hide AllLinks;
    hide AllKeys;
    hide Expansion;
    hide Reachable;
    hide WellBehaved;
  }

  lemma PublishKeepsInv(w: World, root: Node, own: Option<Variables>, s: State, stack: set<Key>,
                        u: Node, name: string, sub: Context, s': State)
    requires Inv(w, root, own, s, stack)
    requires name in u.links && Child(w, u, name).Some?
    requires var Answered(k, _, child) := Ask(w, u, name);
      && k !in s.cache && (forall k' :: k' in s.cache ==> s.cache[k'] != sub)
      && s' == State(
           s.cache[k := sub], s.nodes[k := child.value], s.contents[k := map[]], s.variables, s.expanded + [k])
    requires NodesInv(w, root, s'.nodes)
    ensures Inv(w, root, own, s', stack + {Ask(w, u, name).key})
  {
    hide NodesInv, VariablesInv, Complete, Ask, CacheInv, SubMap;
    var key := Ask(w, u, name).key;
    PublishKeepsCache(s, key, sub, s');
    PublishAdds(s, key, sub, s');
    forall k | k in s'.cache && k !in stack + {key}
      ensures Complete(w, s', k)
    {
      CompleteGrows(w, s, s', k);
    }
  }

  /** All that publishing a context does. */
  lemma PublishGrows(w: World, root: Node, own: Option<Variables>, s: State, stack: set<Key>,
                     u: Node, name: string, sub: Context, s': State)
    requires WellBehaved(w) && Inv(w, root, own, s, stack)
    requires Reachable(w, root, u) && u.links.Values <= AllLinks(w, root)
    requires name in u.links && Child(w, u, name).Some?
    requires var Answered(k, _, child) := Ask(w, u, name);
      && k !in s.cache && (forall k' :: k' in s.cache ==> s.cache[k'] != sub)
      && s' == State(
           s.cache[k := sub], s.nodes[k := child.value], s.contents[k := map[]], s.variables, s.expanded + [k])
    ensures Inv(w, root, own, s', stack + {Ask(w, u, name).key}) && Grows(s, s')
    ensures s'.nodes.Keys == s'.cache.Keys && Injective(s'.cache)
    ensures Ask(w, u, name).key in AllKeys(w, root)
    ensures Reachable(w, root, Child(w, u, name).value)
    ensures Child(w, u, name).value.links.Values <= AllLinks(w, root)
  {
    hide WellBehaved, AllLinks, AllKeys, Reachable, Ask, Inv, NodesInv, CacheInv, Grows, Injective;
    InvParts(w, root, own, s, stack);
    PublishKeepsNodes(w, root, s.nodes, u, name);
    PublishKeepsInv(w, root, own, s, stack, u, name, sub, s');
    InvParts(w, root, own, s', stack + {Ask(w, u, name).key});
    PublishedIsMore(s, Ask(w, u, name).key, sub, Child(w, u, name).value, s');
  }

  lemma InvParts(w: World, root: Node, own: Option<Variables>, s: State, stack: set<Key>)
    requires Inv(w, root, own, s, stack)
    ensures NodesInv(w, root, s.nodes) && CacheInv(s)
    ensures s.nodes.Keys == s.cache.Keys && Injective(s.cache)
  {
    hide NodesInv, VariablesInv, Complete, Injective;
  }

  lemma PublishedIsMore(s: State, k: Key, sub: Context, child: Node, s': State)
    requires k !in s.cache && s.nodes.Keys == s.cache.Keys
    requires s'.cache == s.cache[k := sub] && s'.nodes == s.nodes[k := child] && s'.variables == s.variables
    ensures Grows(s, s')
  {
  }

  lemma FillKeepsInv(w: World, root: Node, own: Option<Variables>, s: State, stack: set<Key>,
                     key: Key, links: map<string, Entry>)
    requires key in s.cache && Inv(w, root, own, s, stack + {key})
    requires Represents(w, s.cache, s.nodes, links, s.nodes[key], s.nodes[key].links.Keys)
    requires Covered(w, s.variables, s.nodes[key], s.nodes[key].links.Keys)
    ensures Inv(w, root, own, s.(contents := s.contents[key := links]), stack)
  {
    hide NodesInv, VariablesInv, Represents, Covered, Injective, Lists;
    var s' := s.(contents := s.contents[key := links]);
    assert s'.contents.Keys == s.contents.Keys;
    forall k | k in s'.cache && k !in stack
      ensures Complete(w, s', k)
    {
      assert k != key ==> Complete(w, s, k);
    }
    hide Complete;
  }

  lemma LinkKeepsInv(w: World, root: Node, own: Option<Variables>, s: State, stack: set<Key>,
                     u: Node, name: string, s': State)
    requires Inv(w, root, own, s, stack) && Reachable(w, root, u)
    requires name in u.links && Ask(w, u, name).Answered? && Ask(w, u, name).source.variables.Some?
    requires s.variables.Some?
    requires var incoming := Ask(w, u, name).source.variables.value;
      && s' == s.(variables := Some(s.variables.value + incoming))
      && SubMap(s.variables.value, s.variables.value + incoming)
    ensures Inv(w, root, own, s', stack)
  {
    var incoming := Ask(w, u, name).source.variables.value;
    forall a | a in incoming
      ensures Contributed(w, root, own, a, incoming[a])
    {
      assert Sends(w, u, name, a, incoming[a]);
    }
    forall k | k in s'.cache && k !in stack
      ensures Complete(w, s', k)
    {
      assert Complete(w, s, k);
      CoveredGrows(w, s.variables, s'.variables, s.nodes[k], s.nodes[k].links.Keys);
    }
  }

  /** A variable that disagrees with one already assigned, or a target without variables: nothing can be linked. */
  lemma ConflictIsReal(w: World, root: Node, own: Option<Variables>, variables: Option<Variables>,
                       u: Node, name: string)
    requires VariablesInv(w, root, own, variables) && Reachable(w, root, u)
    requires name in u.links && Ask(w, u, name).Answered? && Ask(w, u, name).source.variables.Some?
    requires var incoming := Ask(w, u, name).source.variables.value;
      variables.None? || exists a :: a in incoming && a in variables.value && variables.value[a] != incoming[a]
    ensures !Linkable(w, root, own)
  {
    var incoming := Ask(w, u, name).source.variables.value;
    if variables.None? {
      assert !Supported(w, own, u, name);
    } else {
      var a :| a in incoming && a in variables.value && variables.value[a] != incoming[a];
      assert Sends(w, u, name, a, incoming[a]);
      assert Contributed(w, root, own, a, variables.value[a]);
      assert Contributed(w, root, own, a, incoming[a]);
    }
  }

  lemma UnknownIsReal(w: World, root: Node, own: Option<Variables>, u: Node, name: string)
    requires Reachable(w, root, u) && name in u.links && Ask(w, u, name).Missing?
    ensures !Linkable(w, root, own)
  {
    assert !Supported(w, own, u, name);
  }

  lemma SilentIsCovered(w: World, variables: Option<Variables>, u: Node, name: string)
    requires name in u.links && Ask(w, u, name).Silent?
    ensures Covered(w, variables, u, {name})
  {
  }

  lemma HitMeetsItsNode(w: World, root: Node, own: Option<Variables>, s: State, stack: set<Key>, u: Node, name: string)
    requires WellBehaved(w) && Inv(w, root, own, s, stack)
    requires name in u.links && Ask(w, u, name).Answered? && Ask(w, u, name).key in s.cache
    ensures Ask(w, u, name).key in s.nodes && Ask(w, u, name).child == Some(s.nodes[Ask(w, u, name).key])
  {
    hide WellBehaved;
    hide Complete;
    hide VariablesInv;
    hide Reachable;
    hide Expansion;
    KeyDeterminesNode(w, u, name, s.nodes[Ask(w, u, name).key]);
  }

  /** Nothing published is taken back. */
  ghost predicate Grows(s: State, s': State) {
    && SubMap(s.cache, s'.cache)
    && SubMap(s.nodes, s'.nodes)
    && (s.variables.Some? ==> s'.variables.Some? && SubMap(s.variables.value, s'.variables.value))
  }

  /** One more link of `u` is done. */
  lemma LinkedOneMore(w: World, s: State, s': State, links: map<string, Entry>, u: Node, names: set<string>,
                      name: string, e: Option<Entry>)
    requires Grows(s, s') && name in u.links && name !in names
    requires Represents(w, s.cache, s.nodes, links, u, names) && Covered(w, s.variables, u, names)
    requires Covered(w, s'.variables, u, {name}) && (e.Some? <==> Ask(w, u, name).Answered?)
    requires e.Some? ==> RepresentsEntry(s'.cache, s'.nodes, e.value, Ask(w, u, name))
    ensures Represents(w, s'.cache, s'.nodes, if e.Some? then links[name := e.value] else links, u, names + {name})
    ensures Covered(w, s'.variables, u, names + {name})
  {
    hide Represents, RepresentsEntry, Covered, Ask;
    CoveredGrows(w, s.variables, s'.variables, u, names);
    CoveredOneMore(w, s'.variables, u, names, name);
    RepresentsGrows(w, s.cache, s.nodes, s'.cache, s'.nodes, links, u, names);
    RepresentsOneMore(w, s'.cache, s'.nodes, links, u, names, name, e);
  }

  lemma GrownHas(s: State, s': State, k: Key)
    requires Grows(s, s') && k in s.cache && k in s.nodes
    ensures k in s'.cache && s'.cache[k] == s.cache[k] && k in s'.nodes && s'.nodes[k] == s.nodes[k]
  {
  }

  lemma OneLess(names: set<string>, todo: set<string>, name: string)
    requires name in todo && todo <= names
    ensures names - (todo - {name}) == (names - todo) + {name}
  {
  }

  lemma GrownKeeps(s: State, s': State, all: set<Key>)
    requires Grows(s, s')
    ensures SubMap(s.cache, s'.cache)
    ensures all - s'.cache.Keys <= all - s.cache.Keys
  {
  }

  lemma GrowsItself(s: State)
    ensures Grows(s, s)
  {
  }

  lemma GrowsFurther(s0: State, s1: State, s2: State, s3: State)
    requires Grows(s0, s1) && Grows(s1, s2)
    requires s3.cache == s2.cache && s3.nodes == s2.nodes && s3.variables == s2.variables
    ensures Grows(s0, s3)
  {
  }

  /** The incoming variables but those still to do are assigned, and none of them disagreed. */
  ghost predicate Assigned(before: Variables, incoming: Variables, todo: set<string>, now: Variables) {
    && now == before + (map a | a in incoming && a !in todo :: incoming[a])
    && forall a :: a in incoming && a !in todo && a in before ==> before[a] == incoming[a]
  }

  lemma AssignedNothing(before: Variables, incoming: Variables)
    ensures Assigned(before, incoming, incoming.Keys, before)
  {
  }

  lemma AssignedKeeps(before: Variables, incoming: Variables, todo: set<string>, now: Variables, alias: string)
    requires Assigned(before, incoming, todo, now) && alias in todo && alias in now
    ensures alias in before && before[alias] == now[alias]
  {
  }

  lemma AssignedNext(before: Variables, incoming: Variables, todo: set<string>, now: Variables, alias: string)
    requires Assigned(before, incoming, todo, now) && alias in todo && alias in incoming
    requires alias in now ==> now[alias] == incoming[alias]
    ensures Assigned(before, incoming, todo - {alias}, now[alias := incoming[alias]])
  {
  }

  lemma AssignedAll(before: Variables, incoming: Variables, now: Variables)
    requires Assigned(before, incoming, {}, now)
    ensures now == before + incoming && SubMap(before, now)
  {
  }

  class Builder {
    const world: World
    const root: Node
    const own: Option<Variables>

    /** The target's context and variables. */
    const context: Context
    var variables: Option<Variables>

    var cache: map<Key, Context>
    ghost var nodes: map<Key, Node>
    /** The keys in the order they were expanded. */
    ghost var expanded: seq<Key>

    constructor (world: World, service: Service, links: Links, context: Context)
      ensures this.world == world && this.root == Node(service, links) && this.own == service.variables
      ensures this.context == context && Snapshot() == State(map[], map[], map[], own, [])
    {
      this.world := world;
      this.root := Node(service, links);
      this.own := service.variables;
      this.context := context;
      variables := service.variables;
      cache, nodes, expanded := map[], map[], [];
    }

    ghost function Snapshot(): State
      reads this, cache.Values
    {
      State(cache, nodes, map k | k in cache :: cache[k].links, variables, expanded)
    }

    ghost predicate Valid(stack: set<Key>)
      reads this, cache.Values
    {
      nodes.Keys == cache.Keys && Injective(cache) && Inv(world, root, own, Snapshot(), stack)
    }

    /** What is published stays, and what is new is a new object. */
    twostate predicate Grew()
      reads this, cache.Values
    {
      && Grows(old(Snapshot()), Snapshot())
      && (forall k :: k in cache && k !in old(cache) ==> fresh(cache[k]))
    }

    /** Assigns the variables of one service to the target, or fails on the first alias that disagrees. */
    method AssignVariables(incoming: Variables) returns (failure: Option<Error>)
      modifies this`variables
      ensures failure.None? ==>
        && variables.Some? && old(variables).Some?
        && variables.value == old(variables).value + incoming
        && SubMap(old(variables).value, variables.value)
      ensures failure.Some? ==>
        || old(variables).None?
        || (exists a :: a in incoming && a in old(variables).value && old(variables).value[a] != incoming[a])
    {
      if variables.None? {
        return Some(MissingVariablesSupport);
      }
      var todo := incoming.Keys;
      AssignedNothing(variables.value, incoming);
      while todo != {}
        invariant todo <= incoming.Keys && variables.Some?
        invariant Assigned(old(variables).value, incoming, todo, variables.value)
        decreases todo
      {
        var alias :| alias in todo;
        if alias in variables.value && variables.value[alias] != incoming[alias] {
          AssignedKeeps(old(variables).value, incoming, todo, variables.value, alias);
          return Some(DuplicateVariables(alias));
        }
        AssignedNext(old(variables).value, incoming, todo, variables.value, alias);
        variables := Some(variables.value[alias := incoming[alias]]);
        todo := todo - {alias};
      }
      AssignedAll(old(variables).value, incoming, variables.value);
      failure := None;
    }

    /** Links the variables that link `name` of `u` sends. */
    method LinkVariables(u: Node, name: string, incoming: Option<Variables>, ghost stack: set<Key>)
      returns (failure: Option<Error>)
      requires Valid(stack) && Reachable(world, root, u)
      requires name in u.links && Ask(world, u, name).Answered? && incoming == Ask(world, u, name).source.variables
      modifies this`variables
      ensures failure.None? ==> Valid(stack) && Grew() && Covered(world, variables, u, {name})
      ensures failure.Some? ==> !Linkable(world, root, own)
    {
      hide Injective;
      hide NodesInv;
      hide CacheInv;
      hide VariablesInv;
      hide Complete;
      hide Reachable;
      hide Contributed;
      failure := None;
      if incoming.Some? {
        failure := AssignVariables(incoming.value);
        if failure.Some? {
          ConflictIsReal(world, root, own, old(variables), u, name);
          return;
        }
        assert Snapshot() == old(Snapshot()).(variables := variables);
        LinkKeepsInv(world, root, own, old(Snapshot()), stack, u, name, Snapshot());
      }
    }

    /** Publishes an empty context for the key of link `name`. */
    method Publish(u: Node, name: string, ghost stack: set<Key>) returns (sub: Context)
      requires WellBehaved(world) && Valid(stack)
      requires Reachable(world, root, u) && u.links.Values <= AllLinks(world, root)
      requires name in u.links && Child(world, u, name).Some? && Ask(world, u, name).key !in cache
      modifies this`cache, this`nodes, this`expanded
      ensures Valid(stack + {Ask(world, u, name).key}) && Grew()
      ensures fresh(sub) && sub.links == map[]
      ensures var a := Ask(world, u, name);
        && cache == old(cache)[a.key := sub] && nodes == old(nodes)[a.key := a.child.value]
        && a.key in AllKeys(world, root) && Reachable(world, root, a.child.value)
        && a.child.value.links.Values <= AllLinks(world, root)
    {
      hide WellBehaved, Inv, AllLinks, AllKeys, Reachable, Ask, Injective, Grows;
      var Answered(key, _, child) := Ask(world, u, name);
      sub := new Context();
      cache, nodes, expanded := cache[key := sub], nodes[key := child.value], expanded + [key];
      assert Snapshot().contents == old(Snapshot()).contents[key := map[]];
      PublishGrows(world, root, own, old(Snapshot()), stack, u, name, sub, Snapshot());
    }

    /** Fills the published context of `key`. */
    method Fill(key: Key, links: map<string, Entry>, ghost stack: set<Key>)
      requires key in cache && Valid(stack + {key}) && key in nodes && cache[key].links == map[]
      requires Represents(world, cache, nodes, links, nodes[key], nodes[key].links.Keys)
      requires Covered(world, variables, nodes[key], nodes[key].links.Keys)
      modifies cache[key]
      ensures Valid(stack)
    {
      hide Inv, Represents, Covered;
      var sub := cache[key];
      assert map[] + links == links;
      sub.links := sub.links + links;
      assert Snapshot().contents == old(Snapshot()).contents[key := links];
      FillKeepsInv(world, root, own, old(Snapshot()), stack, key, links);
    }

    /** Publishes an empty context for the key of link `name`, builds its links, and fills it. */
    method Expand(u: Node, name: string, ghost stack: set<Key>) returns (r: Result<Context, Error>)
      requires WellBehaved(world) && Valid(stack)
      requires Reachable(world, root, u) && u.links.Values <= AllLinks(world, root)
      requires name in u.links && Child(world, u, name).Some? && Ask(world, u, name).key !in cache
      modifies this
      ensures r.Ok? ==>
        && Valid(stack) && Grew()
        && var a := Ask(world, u, name);
           a.key in cache && cache[a.key] == r.value && nodes[a.key] == a.child.value
      ensures r.Err? ==> !Linkable(world, root, own)
      decreases AllKeys(world, root) - cache.Keys, 0
    {
      hide Injective, WellBehaved, Inv, AllLinks, AllKeys, Reachable, Linkable, Represents, Covered, Ask, Grows;
      var Answered(key, _, child) := Ask(world, u, name);
      ghost var s0 := Snapshot();
      var sub := Publish(u, name, stack);
      ghost var s1 := Snapshot();
      assert key in AllKeys(world, root) - old(cache.Keys);
      var subContext := BuildLinkedContexts(child.value, stack + {key});
      if subContext.Err? {
        return Err(subContext.error);
      }
      ghost var s2 := Snapshot();
      GrownHas(s1, s2, key);
      Fill(key, subContext.value, stack);
      GrowsFurther(s0, s1, s2, Snapshot());
      return Ok(sub);
    }

    /** One link of `u`: its entry, or nothing when no handler answers. */
    method LinkService(u: Node, name: string, ghost stack: set<Key>) returns (r: Result<Option<Entry>, Error>)
      requires WellBehaved(world) && Valid(stack)
      requires Reachable(world, root, u) && u.links.Values <= AllLinks(world, root)
      requires name in u.links
      modifies this
      ensures r.Ok? ==>
        && Valid(stack) && Grew()
        && Covered(world, variables, u, {name})
        && (r.value.Some? <==> Ask(world, u, name).Answered?)
        && (r.value.Some? ==> RepresentsEntry(cache, nodes, r.value.value, Ask(world, u, name)))
      ensures r.Ok? ==> IsAnswered(world, u, name, r.value)
      ensures r.Err? ==> !Linkable(world, root, own)
      decreases AllKeys(world, root) - cache.Keys, 1
    {
      hide WellBehaved;
      hide Inv;
      hide Injective;
      hide AllLinks;
      hide AllKeys;
      hide Reachable;
      hide Covered;
      hide IsAnswered;
      var link := u.links[name];
      if link.reference !in world.metadata {
        UnknownIsReal(world, root, own, u, name);
        return Err(UnknownReference(link.reference));
      }
      var contextSource := world.handler(u.service, Linked(world, link));
      if contextSource.None? {
        SilentIsCovered(world, variables, u, name);
        EntryIsAnswered(world, u, name, None);
        return Ok(None);
      }
      var Source(client, incoming, services) := contextSource.value;
      var key := Key(link.reference, client.options);
      var entry := Entry(client, null);
      if key in cache {
        HitMeetsItsNode(world, root, own, Snapshot(), stack, u, name);
        entry := entry.(context := cache[key]);
      } else if services.Some? {
        var sub := Expand(u, name, stack);
        if sub.Err? {
          return Err(sub.error);
        }
        entry := entry.(context := sub.value);
      }
      var failure := LinkVariables(u, name, incoming, stack);
      if failure.Some? {
        return Err(failure.value);
      }
      EntryIsAnswered(world, u, name, Some(entry));
      return Ok(Some(entry));
    }

    /** Builds the linked contexts of `u`, in any order of its links. `stack` holds the keys being expanded. */
    method BuildLinkedContexts(u: Node, ghost stack: set<Key>) returns (r: Result<map<string, Entry>, Error>)
      requires WellBehaved(world) && Valid(stack)
      requires Reachable(world, root, u) && u.links.Values <= AllLinks(world, root)
      modifies this
      ensures r.Ok? ==>
        && Valid(stack) && Grew()
        && Represents(world, cache, nodes, r.value, u, u.links.Keys)
        && Covered(world, variables, u, u.links.Keys)
      ensures r.Err? ==> !Linkable(world, root, own)
      decreases AllKeys(world, root) - cache.Keys, 2
    {
      hide AllKeys, Injective, Represents, RepresentsEntry, Covered, WellBehaved, Inv, AllLinks, Reachable, Linkable;
      hide Ask, Grows, Valid;
      var linkedContexts: map<string, Entry> := map[];
      ghost var s0 := Snapshot();
      GrowsItself(s0);
      NothingYet(world, cache, nodes, variables, u);
      var todo := u.links.Keys;
      while todo != {}
        invariant todo <= u.links.Keys
        invariant Valid(stack) && Grew()
        invariant Represents(world, cache, nodes, linkedContexts, u, u.links.Keys - todo)
        invariant Covered(world, variables, u, u.links.Keys - todo)
        decreases todo
      {
        var name :| name in todo;
        ghost var done, before := u.links.Keys - todo, Snapshot();
        GrownKeeps(s0, before, AllKeys(world, root));
        var linked := LinkService(u, name, stack);
        if linked.Err? {
          return Err(linked.error);
        }
        GrownKeeps(before, Snapshot(), AllKeys(world, root));
        GrowsFurther(s0, before, Snapshot(), Snapshot());
        LinkedOneMore(world, before, Snapshot(), linkedContexts, u, done, name, linked.value);
        if linked.value.Some? {
          linkedContexts := linkedContexts[name := linked.value.value];
        }
        OneLess(u.links.Keys, todo, name);
        todo := todo - {name};
      }
      assert u.links.Keys - {} == u.links.Keys;
      return Ok(linkedContexts);
    }

    /** Assigns the links of the target to its own context, which none of them leads to. */
    method Attach(links: map<string, Entry>)
      requires context !in cache.Values && (forall k :: k in cache ==> Complete(world, Snapshot(), k))
      requires Represents(world, cache, nodes, links, root, root.links.Keys)
      modifies context
      ensures context.links == old(context.links) + links
      ensures forall path :: path != [] ==> Follow(links, path, cache.Values) == Unfold(world, root, path)
      ensures forall path, client :: path != [] ==>
                (Follow(links, path, cache.Values) == Some(client) <==>
                 AnswersAlong(world, root.service, root.links, path, client))
    {
      hide Complete, Represents, Follow, Unfold, AnswersAlong;
      context.links := context.links + links;
      assert Snapshot() == old(Snapshot());
      BisimulationOnEveryPath(this, links, root);
      forall path, client | path != []
        ensures Unfold(world, root, path) == Some(client) <==>
                AnswersAlong(world, root.service, root.links, path, client)
      {
        UnfoldAnswers(world, root, path, client);
      }
    }

    /**
     * Prepares the linked contexts of the target. It succeeds exactly when the target is linkable, and then
     * following names from the target's context is the unfolding of the links, and its variables are its own
     * and those of every service it reaches.
     */
    method PrepareLinkedContext() returns (r: Result<map<string, Entry>, Error>)
      requires WellBehaved(world) && Snapshot() == State(map[], map[], map[], own, [])
      modifies this, context
      ensures r.Ok? <==> Linkable(world, root, own)
      ensures r.Ok? ==> context.links == old(context.links) + r.value
      ensures r.Ok? ==> context !in cache.Values
      ensures r.Ok? ==> forall path :: path != [] ==>
                Follow(r.value, path, cache.Values) == Unfold(world, root, path)
      ensures r.Ok? ==> forall path, client :: path != [] ==>
                (Follow(r.value, path, cache.Values) == Some(client) <==>
                 AnswersAlong(world, root.service, root.links, path, client))
      ensures r.Ok? ==> forall alias, value ::
                Contributed(world, root, own, alias, value) <==>
                (variables.Some? && alias in variables.value && variables.value[alias] == value)
      ensures r.Ok? ==> (variables.Some? <==> own.Some?)
      ensures r.Ok? ==> |expanded| == |cache| && forall k :: k in expanded <==> k in cache
    {
      StartsValid(world, root, own);
      hide WellBehaved, Inv, Complete, Represents, Covered, Contributed, Linkable, Reachable, Follow, Unfold;
      hide Grows, AllLinks, AnswersAlong;
      assert Valid({});
      hide Injective;
      r := BuildLinkedContexts(root, {});
      if r.Ok? {
        ghost var s := Snapshot();
        Finished(world, root, own, s, r.value);
        assert forall k :: k in cache ==> cache[k] != context;
        Attach(r.value);
      }
    }
  }

  /** The objects of a finished builder unfold to the links, however long the path. */
  lemma Bisimulation(b: Builder, links: map<string, Entry>, u: Node, path: seq<string>)
    requires path != []
    requires forall k :: k in b.cache ==> Complete(b.world, b.Snapshot(), k)
    requires Represents(b.world, b.cache, b.nodes, links, u, u.links.Keys)
    ensures Follow(links, path, b.cache.Values) == Unfold(b.world, u, path)
    decreases |path|
  {
    var n := path[0];
    if |path| > 1 && n in links {
      var a := Ask(b.world, u, n);
      assert RepresentsEntry(b.cache, b.nodes, links[n], a);
      if a.child.Some? {
        assert Complete(b.world, b.Snapshot(), a.key);
        assert b.cache[a.key] in b.cache.Values;
        Bisimulation(b, b.cache[a.key].links, a.child.value, path[1..]);
      }
    }
  }

  lemma BisimulationOnEveryPath(b: Builder, links: map<string, Entry>, u: Node)
    requires forall k :: k in b.cache ==> Complete(b.world, b.Snapshot(), k)
    requires Represents(b.world, b.cache, b.nodes, links, u, u.links.Keys)
    ensures forall path :: path != [] ==> Follow(links, path, b.cache.Values) == Unfold(b.world, u, path)
  {
    forall path: seq<string> | path != []
      ensures Follow(links, path, b.cache.Values) == Unfold(b.world, u, path)
    {
      Bisimulation(b, links, u, path);
    }
  }

  /** Once the stack is empty, every reachable node is the root or a complete key. */
  lemma ReachableIsCached(w: World, root: Node, s: State, links: map<string, Entry>,
                          u: Node, path: seq<string>)
    requires forall k :: k in s.cache ==> Complete(w, s, k)
    requires Represents(w, s.cache, s.nodes, links, root, root.links.Keys)
    requires Walk(w, root, path) == Some(u)
    ensures u == root || exists k :: k in s.cache && k in s.nodes && s.nodes[k] == u
    decreases |path|
  {
    if path != [] {
      var init, last := path[..|path| - 1], path[|path| - 1];
      LastOf([], path);
      hide Complete, Represents, Ask, Walk;
      var v := WalkBack(w, root, init, last);
      ReachableIsCached(w, root, s, links, v, init);
      if v == root {
        ChildIsCached(w, s, links, v, last);
      } else {
        var k :| k in s.cache && k in s.nodes && s.nodes[k] == v;
        CompleteIs(w, s, k);
        ChildIsCached(w, s, s.contents[k], v, last);
      }
    }
  }

  lemma CompleteIs(w: World, s: State, k: Key)
    requires Complete(w, s, k)
    ensures k in s.nodes && k in s.contents
    ensures Represents(w, s.cache, s.nodes, s.contents[k], s.nodes[k], s.nodes[k].links.Keys)
  {
  }

  lemma ChildIsCached(w: World, s: State, links: map<string, Entry>, v: Node, name: string)
    requires Represents(w, s.cache, s.nodes, links, v, v.links.Keys) && Child(w, v, name).Some?
    ensures Ask(w, v, name).key in s.cache && Ask(w, v, name).key in s.nodes
    ensures s.nodes[Ask(w, v, name).key] == Child(w, v, name).value
  {
    hide Ask;
    assert RepresentsEntry(s.cache, s.nodes, links[name], Ask(w, v, name));
  }

  lemma WalkBack(w: World, u: Node, path: seq<string>, name: string) returns (v: Node)
    requires Walk(w, u, path + [name]).Some?
    ensures Walk(w, u, path) == Some(v) && Child(w, v, name).Some?
    ensures Walk(w, u, path + [name]) == Child(w, v, name)
    decreases path
  {
    if path == [] {
      v := u;
      assert [name][1..] == [];
    } else {
      assert (path + [name])[1..] == path[1..] + [name];
      v := WalkBack(w, Child(w, u, path[0]).value, path[1..], name);
    }
  }

  lemma EverythingCovered(w: World, root: Node, own: Option<Variables>, s: State, links: map<string, Entry>)
    requires VariablesInv(w, root, own, s.variables)
    requires forall k :: k in s.cache ==> Complete(w, s, k)
    requires Represents(w, s.cache, s.nodes, links, root, root.links.Keys)
    requires Covered(w, s.variables, root, root.links.Keys)
    ensures Linkable(w, root, own)
    ensures forall alias, value ::
              Contributed(w, root, own, alias, value) <==>
              (s.variables.Some? && alias in s.variables.value && s.variables.value[alias] == value)
  {
    forall u | Reachable(w, root, u)
      ensures Covered(w, s.variables, u, u.links.Keys)
    {
      NodeCovered(w, root, s, links, u);
    }
    forall u, name | Reachable(w, root, u) && name in u.links
      ensures Supported(w, own, u, name)
    {
      assert Covered(w, s.variables, u, u.links.Keys);
      assert Supported(w, s.variables, u, name);
    }
    forall alias, value | Contributed(w, root, own, alias, value)
      ensures s.variables.Some? && alias in s.variables.value && s.variables.value[alias] == value
    {
      if !(own.Some? && alias in own.value && own.value[alias] == value) {
        var u, name :| Reachable(w, root, u) && Sends(w, u, name, alias, value);
        assert Covered(w, s.variables, u, u.links.Keys);
        assert Supported(w, s.variables, u, name);
      }
    }
  }

  lemma NodeCovered(w: World, root: Node, s: State, links: map<string, Entry>, u: Node)
    requires forall k :: k in s.cache ==> Complete(w, s, k)
    requires Represents(w, s.cache, s.nodes, links, root, root.links.Keys)
    requires Covered(w, s.variables, root, root.links.Keys)
    requires Reachable(w, root, u)
    ensures Covered(w, s.variables, u, u.links.Keys)
  {
    var path :| Walk(w, root, path) == Some(u);
    ReachableIsCached(w, root, s, links, u, path);
    if u != root {
      var k :| k in s.cache && k in s.nodes && s.nodes[k] == u;
      assert Complete(w, s, k);
    }
  }

  lemma StartsValid(w: World, root: Node, own: Option<Variables>)
    ensures Inv(w, root, own, State(map[], map[], map[], own, []), {})
    ensures Reachable(w, root, root) && root.links.Values <= AllLinks(w, root)
  {
    assert Walk(w, root, []) == Some(root);
  }

  /** With an empty stack, everything is linked and no key was expanded twice. */
  lemma Finished(w: World, root: Node, own: Option<Variables>, s: State, links: map<string, Entry>)
    requires Inv(w, root, own, s, {})
    requires Represents(w, s.cache, s.nodes, links, root, root.links.Keys)
    requires Covered(w, s.variables, root, root.links.Keys)
    ensures Linkable(w, root, own)
    ensures forall alias, value ::
              Contributed(w, root, own, alias, value) <==>
              (s.variables.Some? && alias in s.variables.value && s.variables.value[alias] == value)
    ensures forall k :: k in s.cache ==> Complete(w, s, k)
    ensures s.variables.Some? <==> own.Some?
    ensures |s.expanded| == |s.cache| && forall k :: k in s.expanded <==> k in s.cache
  {
    hide NodesInv;
    hide VariablesInv;
    hide Complete;
    hide Represents;
    hide Covered;
    hide Contributed;
    hide Linkable;
    EverythingCovered(w, root, own, s, links);
    KeepsSupport(w, root, own, s.variables);
    ExpandedOnce(s);
  }

  lemma KeepsSupport(w: World, root: Node, own: Option<Variables>, variables: Option<Variables>)
    requires VariablesInv(w, root, own, variables)
    ensures variables.Some? <==> own.Some?
  {
  }

  lemma ExpandedOnce(s: State)
    requires CacheInv(s)
    ensures |s.expanded| == |s.cache| && forall k :: k in s.expanded <==> k in s.cache
  {
    ListLength(s.expanded, s.cache.Keys);
  }
}
