/** Making each generated package self-contained: types of other packages that it
    refers to are copied in, round after round, so that references to them can be
    written without a package. Resolving and parsing names are parameters. What the
    written references mean is the subject of module TypeNames. */
module TypeCopy {
  import opened Basics

  datatype Kind = MessageKind | EnumKind

  /** A field names a type directly or as the value of a map, or names none. */
  datatype Field = Named(kind: Kind, ref: string) | MapOf(valueKind: Kind, valueRef: string) | Unnamed

  datatype Message = Message(typeName: string, shortName: string, pkg: string, pos: int, moduleStart: int, fields: seq<Field>)
  datatype Enum = Enum(typeName: string, shortName: string, pkg: string)
  datatype Method = Method(input: string, output: string)
  datatype Service = Service(pos: int, moduleStart: int, methods: seq<Method>)

  /** A reference to a type and where it stands; parent is the short name of the
      message whose field it is, and empty for a method. */
  datatype Site = Site(ref: string, pos: int, moduleStart: int, kind: Kind, parent: string)

  /** The package and the rest of a full type name. */
  datatype Name = Name(pkg: string, short: string)

  /** What the extraction knows: the resolver (given the package that prefers its
      own types), the name parser and all types outside the Google packages. */
  datatype Env = Env(
    resolve: (Site, string) -> Option<string>,
    parse: string -> Name,
    trim: string -> string,
    allMessages: map<string, Message>,
    allEnums: map<string, Enum>)

  predicate IsGoogle(pkg: string) {
    pkg == "google.protobuf" || pkg == "google.rpc"
  }

  /** Every collected type carries the short name of its full name. */
  ghost predicate EnvOk(env: Env) {
    && (forall t :: t in env.allMessages ==> env.allMessages[t].shortName == env.parse(t).short)
    && (forall t :: t in env.allEnums ==> env.allEnums[t].shortName == env.parse(t).short)
  }

  // ----- references

  function FieldSites(f: Field, pos: int, moduleStart: int, parent: string): seq<Site> {
    match f
    case Named(kind, ref) => [Site(ref, pos, moduleStart, kind, parent)]
    case MapOf(kind, ref) => [Site(ref, pos, moduleStart, kind, parent)]
    case Unnamed => []
  }

  /** The sites of the first n fields of a message. */
  function MessageSites(m: Message, n: nat): seq<Site>
    requires n <= |m.fields|
  {
    if n == 0 then [] else MessageSites(m, n - 1) + FieldSites(m.fields[n - 1], m.pos, m.moduleStart, m.shortName)
  }

  /** The sites of the first n methods of a service. */
  function ServiceSites(s: Service, n: nat): seq<Site>
    requires n <= |s.methods|
  {
    if n == 0 then []
    else
      ServiceSites(s, n - 1) +
      [Site(s.methods[n - 1].input, s.pos, s.moduleStart, MessageKind, ""),
       Site(s.methods[n - 1].output, s.pos, s.moduleStart, MessageKind, "")]
  }

  function MessagesSites(messages: seq<Message>, n: nat): seq<Site>
    requires n <= |messages|
  {
    if n == 0 then [] else MessagesSites(messages, n - 1) + MessageSites(messages[n - 1], |messages[n - 1].fields|)
  }

  function ServicesSites(services: seq<Service>, n: nat): seq<Site>
    requires n <= |services|
  {
    if n == 0 then [] else ServicesSites(services, n - 1) + ServiceSites(services[n - 1], |services[n - 1].methods|)
  }

  /** All the sites at which a package refers to a type. */
  function Sites(messages: seq<Message>, services: seq<Service>): seq<Site> {
    MessagesSites(messages, |messages|) + ServicesSites(services, |services|)
  }

  // ----- the sites are the references of fields and methods

  /** A field of the message names this type, directly or as the value of a map. */
  predicate MessageNames(m: Message, site: Site) {
    && site.pos == m.pos && site.moduleStart == m.moduleStart && site.parent == m.shortName
    && exists j :: 0 <= j < |m.fields| && (m.fields[j] == Named(site.kind, site.ref) || m.fields[j] == MapOf(site.kind, site.ref))
  }

  /** A method of the service takes or returns this type. */
  predicate ServiceNames(s: Service, site: Site) {
    && site.pos == s.pos && site.moduleStart == s.moduleStart && site.parent == "" && site.kind == MessageKind
    && exists j :: 0 <= j < |s.methods| && (s.methods[j].input == site.ref || s.methods[j].output == site.ref)
  }

  predicate IsReference(messages: seq<Message>, services: seq<Service>, site: Site) {
    || (exists i :: 0 <= i < |messages| && MessageNames(messages[i], site))
    || (exists i :: 0 <= i < |services| && ServiceNames(services[i], site))
  }

  lemma {:induction false} FieldsFirst(m: Message, n: nat, site: Site)
    requires n <= |m.fields|
    ensures site in MessageSites(m, n) <==>
              && site.pos == m.pos && site.moduleStart == m.moduleStart && site.parent == m.shortName
              && exists j :: 0 <= j < n && (m.fields[j] == Named(site.kind, site.ref) || m.fields[j] == MapOf(site.kind, site.ref))
  {
    if n > 0 {
      FieldsFirst(m, n - 1, site);
    }
  }

  lemma {:induction false} MethodsFirst(s: Service, n: nat, site: Site)
    requires n <= |s.methods|
    ensures site in ServiceSites(s, n) <==>
              && site.pos == s.pos && site.moduleStart == s.moduleStart && site.parent == "" && site.kind == MessageKind
              && exists j :: 0 <= j < n && (s.methods[j].input == site.ref || s.methods[j].output == site.ref)
  {
    if n > 0 {
      MethodsFirst(s, n - 1, site);
    }
  }

  lemma {:induction false} SiteOfMessage(messages: seq<Message>, n: nat, site: Site)
    requires n <= |messages|
    ensures site in MessagesSites(messages, n) <==> exists j :: 0 <= j < n && site in MessageSites(messages[j], |messages[j].fields|)
  {
    if n > 0 {
      SiteOfMessage(messages, n - 1, site);
    }
  }

  lemma {:induction false} SiteOfService(services: seq<Service>, n: nat, site: Site)
    requires n <= |services|
    ensures site in ServicesSites(services, n) <==> exists j :: 0 <= j < n && site in ServiceSites(services[j], |services[j].methods|)
  {
    if n > 0 {
      SiteOfService(services, n - 1, site);
    }
  }

  /** The sites of a package are exactly the references of its fields and methods. */
  lemma SitesAreReferences(messages: seq<Message>, services: seq<Service>, site: Site)
    ensures site in Sites(messages, services) <==> IsReference(messages, services, site)
  {
    SiteOfMessage(messages, |messages|, site);
    SiteOfService(services, |services|, site);
    forall i | 0 <= i < |messages|
      ensures site in MessageSites(messages[i], |messages[i].fields|) <==> MessageNames(messages[i], site)
    {
      FieldsFirst(messages[i], |messages[i].fields|, site);
    }
    forall i | 0 <= i < |services|
      ensures site in ServiceSites(services[i], |services[i].methods|) <==> ServiceNames(services[i], site)
    {
      MethodsFirst(services[i], |services[i].methods|, site);
    }
  }

  /** The site resolves to a type of another package that is not Google's. */
  predicate External(env: Env, pkg: string, site: Site, t: string) {
    env.resolve(site, pkg) == Some(t) && IsExternal(env, pkg, t)
  }

  predicate IsExternal(env: Env, pkg: string, t: string) {
    env.parse(t).pkg != "" && env.parse(t).pkg != pkg && !IsGoogle(env.parse(t).pkg)
  }

  /** One of these sites refers to this external type. */
  ghost predicate Refers(env: Env, pkg: string, sites: seq<Site>, t: string) {
    exists i :: 0 <= i < |sites| && External(env, pkg, sites[i], t)
  }

  /** A type to be copied for one of these sites. */
  ghost predicate NeededBy(env: Env, pkg: string, local: set<string>, sites: seq<Site>, t: string) {
    env.parse(t).short !in local && Refers(env, pkg, sites, t)
  }

  lemma RefersConcat(env: Env, pkg: string, a: seq<Site>, b: seq<Site>, t: string)
    ensures Refers(env, pkg, a + b, t) <==> Refers(env, pkg, a, t) || Refers(env, pkg, b, t)
  {
    if Refers(env, pkg, a, t) {
      var i :| 0 <= i < |a| && External(env, pkg, a[i], t);
      assert (a + b)[i] == a[i];
    } else if Refers(env, pkg, b, t) {
      var i :| 0 <= i < |b| && External(env, pkg, b[i], t);
      assert (a + b)[|a| + i] == b[i];
    }
  }

  lemma NeededByConcat(env: Env, pkg: string, local: set<string>, a: seq<Site>, b: seq<Site>)
    ensures forall t :: NeededBy(env, pkg, local, a + b, t) <==> NeededBy(env, pkg, local, a, t) || NeededBy(env, pkg, local, b, t)
  {
    forall t
      ensures Refers(env, pkg, a + b, t) <==> Refers(env, pkg, a, t) || Refers(env, pkg, b, t)
    {
      RefersConcat(env, pkg, a, b, t);
    }
  }

  ghost predicate MessageRefers(env: Env, pkg: string, m: Message, t: string) {
    Refers(env, pkg, MessageSites(m, |m.fields|), t)
  }

  ghost predicate SomeRefers(env: Env, pkg: string, messages: seq<Message>, n: nat, t: string)
    requires n <= |messages|
  {
    exists j :: 0 <= j < n && MessageRefers(env, pkg, messages[j], t)
  }

  lemma SomeRefersStep(env: Env, pkg: string, messages: seq<Message>, n: nat, t: string)
    requires n < |messages|
    ensures SomeRefers(env, pkg, messages, n + 1, t) <==> SomeRefers(env, pkg, messages, n, t) || MessageRefers(env, pkg, messages[n], t)
  {
  }

  lemma {:induction false} MessagesRefer(env: Env, pkg: string, messages: seq<Message>, n: nat, t: string)
    requires n <= |messages|
    ensures Refers(env, pkg, MessagesSites(messages, n), t) <==> SomeRefers(env, pkg, messages, n, t)
  {
    if n > 0 {
      MessagesRefer(env, pkg, messages, n - 1, t);
      SomeRefersStep(env, pkg, messages, n - 1, t);
      RefersConcat(env, pkg, MessagesSites(messages, n - 1), MessageSites(messages[n - 1], |messages[n - 1].fields|), t);
    }
  }

  /** A package refers to what its messages and its services refer to. */
  lemma PackageRefers(env: Env, pkg: string, messages: seq<Message>, services: seq<Service>, t: string)
    ensures Refers(env, pkg, Sites(messages, services), t)
       <==> SomeRefers(env, pkg, messages, |messages|, t) || Refers(env, pkg, ServicesSites(services, |services|), t)
  {
    MessagesRefer(env, pkg, messages, |messages|, t);
    RefersConcat(env, pkg, MessagesSites(messages, |messages|), ServicesSites(services, |services|), t);
  }

  /** The package label of a message plays no part in its references. */
  lemma {:induction false} SitesOfCopy(m: Message, pkg: string, n: nat)
    requires n <= |m.fields|
    ensures MessageSites(m.(pkg := pkg), n) == MessageSites(m, n)
  {
    if n > 0 {
      SitesOfCopy(m, pkg, n - 1);
    }
  }

  // ----- the external types a package needs

  /** A known message refers to this external type. */
  ghost predicate LeadsTo(env: Env, pkg: string, t: string, u: string) {
    t in env.allMessages && MessageRefers(env, pkg, env.allMessages[t], u)
  }

  /** A chain of references: the package itself refers to the first type, and each
      type to the next. */
  ghost predicate IsChain(env: Env, pkg: string, messages: seq<Message>, services: seq<Service>, chain: seq<string>) {
    && |chain| > 0
    && Refers(env, pkg, Sites(messages, services), chain[0])
    && forall k :: 0 < k < |chain| ==> LeadsTo(env, pkg, chain[k - 1], chain[k])
  }

  ghost predicate Reached(env: Env, pkg: string, messages: seq<Message>, services: seq<Service>, t: string) {
    exists chain :: IsChain(env, pkg, messages, services, chain) && chain[|chain| - 1] == t
  }

  lemma ReachedAtOnce(env: Env, pkg: string, messages: seq<Message>, services: seq<Service>, t: string)
    requires Refers(env, pkg, Sites(messages, services), t)
    ensures Reached(env, pkg, messages, services, t)
  {
    assert IsChain(env, pkg, messages, services, [t]);
  }

  lemma ReachedNext(env: Env, pkg: string, messages: seq<Message>, services: seq<Service>, t: string, u: string)
    requires Reached(env, pkg, messages, services, t) && LeadsTo(env, pkg, t, u)
    ensures Reached(env, pkg, messages, services, u)
  {
    var chain :| IsChain(env, pkg, messages, services, chain) && chain[|chain| - 1] == t;
    assert IsChain(env, pkg, messages, services, chain + [u]);
  }

  /** Holding of what the package refers to and passed on from known messages. */
  ghost predicate ClosedSet(env: Env, pkg: string, messages: seq<Message>, services: seq<Service>, types: iset<string>) {
    && (forall t :: Refers(env, pkg, Sites(messages, services), t) ==> t in types)
    && (forall t, u :: t in types && LeadsTo(env, pkg, t, u) ==> u in types)
  }

  lemma {:induction false} ChainStaysInside(env: Env, pkg: string, messages: seq<Message>, services: seq<Service>,
                                            types: iset<string>, chain: seq<string>, k: nat)
    requires ClosedSet(env, pkg, messages, services, types) && IsChain(env, pkg, messages, services, chain) && k < |chain|
    ensures chain[k] in types
  {
    if k > 0 {
      ChainStaysInside(env, pkg, messages, services, types, chain, k - 1);
    }
  }

  ghost function ReachedSet(env: Env, pkg: string, messages: seq<Message>, services: seq<Service>): iset<string> {
    iset t | Reached(env, pkg, messages, services, t)
  }

  lemma ReachedIsClosed(env: Env, pkg: string, messages: seq<Message>, services: seq<Service>)
    ensures ClosedSet(env, pkg, messages, services, ReachedSet(env, pkg, messages, services))
  {
    forall t | Refers(env, pkg, Sites(messages, services), t)
      ensures t in ReachedSet(env, pkg, messages, services)
    {
      ReachedAtOnce(env, pkg, messages, services, t);
    }
    forall t, u | t in ReachedSet(env, pkg, messages, services) && LeadsTo(env, pkg, t, u)
      ensures u in ReachedSet(env, pkg, messages, services)
    {
      ReachedNext(env, pkg, messages, services, t, u);
    }
  }

  /** The reached types are the least closed set. */
  lemma ReachedIsLeast(env: Env, pkg: string, messages: seq<Message>, services: seq<Service>, types: iset<string>)
    requires ClosedSet(env, pkg, messages, services, types)
    ensures ReachedSet(env, pkg, messages, services) <= types
  {
    forall t | t in ReachedSet(env, pkg, messages, services)
      ensures t in types
    {
      var chain :| IsChain(env, pkg, messages, services, chain) && chain[|chain| - 1] == t;
      ChainStaysInside(env, pkg, messages, services, types, chain, |chain| - 1);
    }
  }

  // ----- collecting the needed types

  method CollectSite(env: Env, pkg: string, local: set<string>, site: Site, needed: set<string>) returns (r: set<string>)
    ensures forall t :: t in r <==> t in needed || NeededBy(env, pkg, local, [site], t)
  {
    r := needed;
    var resolved := env.resolve(site, pkg);
    assert [site][0] == site;
    if resolved == None {
      return;
    }
    var name := env.parse(resolved.value);
    if name.pkg == "" || name.pkg == pkg || IsGoogle(name.pkg) || name.short in local {
      return;
    }
    r := needed + {resolved.value};
  }

  method CollectSites(env: Env, pkg: string, local: set<string>, sites: seq<Site>, needed: set<string>) returns (r: set<string>)
    ensures forall t :: t in r <==> t in needed || NeededBy(env, pkg, local, sites, t)
  {
    r := needed;
    for i := 0 to |sites|
      invariant forall t :: t in r <==> t in needed || NeededBy(env, pkg, local, sites[..i], t)
    {
      r := CollectSite(env, pkg, local, sites[i], r);
      assert sites[..i + 1] == sites[..i] + [sites[i]];
      NeededByConcat(env, pkg, local, sites[..i], [sites[i]]);
    }
    assert sites[..|sites|] == sites;
  }

  method CollectMessage(env: Env, pkg: string, local: set<string>, m: Message, needed: set<string>) returns (r: set<string>)
    ensures forall t :: t in r <==> t in needed || NeededBy(env, pkg, local, MessageSites(m, |m.fields|), t)
  {
    r := needed;
    for i := 0 to |m.fields|
      invariant forall t :: t in r <==> t in needed || NeededBy(env, pkg, local, MessageSites(m, i), t)
    {
      var sites := FieldSites(m.fields[i], m.pos, m.moduleStart, m.shortName);
      r := CollectSites(env, pkg, local, sites, r);
      NeededByConcat(env, pkg, local, MessageSites(m, i), sites);
    }
  }

  method CollectService(env: Env, pkg: string, local: set<string>, s: Service, needed: set<string>) returns (r: set<string>)
    ensures forall t :: t in r <==> t in needed || NeededBy(env, pkg, local, ServiceSites(s, |s.methods|), t)
  {
    r := needed;
    for i := 0 to |s.methods|
      invariant forall t :: t in r <==> t in needed || NeededBy(env, pkg, local, ServiceSites(s, i), t)
    {
      var m := s.methods[i];
      var sites := [Site(m.input, s.pos, s.moduleStart, MessageKind, ""), Site(m.output, s.pos, s.moduleStart, MessageKind, "")];
      r := CollectSites(env, pkg, local, sites, r);
      NeededByConcat(env, pkg, local, ServiceSites(s, i), sites);
    }
  }

  method CollectAll(env: Env, pkg: string, local: set<string>, messages: seq<Message>, services: seq<Service>) returns (needed: set<string>)
    ensures forall t :: t in needed <==> NeededBy(env, pkg, local, Sites(messages, services), t)
  {
    needed := {};
    for i := 0 to |messages|
      invariant forall t :: t in needed <==> NeededBy(env, pkg, local, MessagesSites(messages, i), t)
    {
      needed := CollectMessage(env, pkg, local, messages[i], needed);
      NeededByConcat(env, pkg, local, MessagesSites(messages, i), MessageSites(messages[i], |messages[i].fields|));
    }
    ghost var fromMessages := MessagesSites(messages, |messages|);
    assert fromMessages + [] == fromMessages;
    for i := 0 to |services|
      invariant forall t :: t in needed <==> NeededBy(env, pkg, local, fromMessages + ServicesSites(services, i), t)
    {
      needed := CollectService(env, pkg, local, services[i], needed);
      ghost var more := ServiceSites(services[i], |services[i].methods|);
      assert fromMessages + ServicesSites(services, i + 1) == (fromMessages + ServicesSites(services, i)) + more;
      NeededByConcat(env, pkg, local, fromMessages + ServicesSites(services, i), more);
    }
  }

  // ----- copying

  /** The package being completed. The keys of copied are the short names in use;
      its values are the original type names, or a note that the type was there
      from the start. */
  datatype Package = Package(messages: seq<Message>, enums: seq<Enum>, copied: map<string, string>)

  /** Copies one needed type under its short name, unless that name is taken. A type
      that is not known is only recorded. */
  function CopyType(env: Env, pkg: string, p: Package, t: string): Package {
    var short := env.parse(t).short;
    if short in p.copied then p
    else if t in env.allMessages then
      Package(p.messages + [env.allMessages[t].(pkg := pkg)], p.enums, p.copied[short := t])
    else if t in env.allEnums then
      Package(p.messages, p.enums + [env.allEnums[t].(pkg := pkg)], p.copied[short := t])
    else Package(p.messages, p.enums, p.copied[short := t])
  }

  function Copies(p: Package): nat {
    |p.messages| + |p.enums|
  }

  /** What every step of the copying keeps, relative to the original package. */
  ghost predicate Sound(env: Env, pkg: string, services: seq<Service>, origin: Package, p: Package) {
    && Extends(pkg, origin, p)
    && NewNames(origin, p)
    && Recorded(env, pkg, services, origin, p)
    && TrueCopies(env, pkg, origin, p)
  }

  /** A name is recorded for a type with that short name, which the package refers to,
      which was reached from the original package and which is there if it is known. */
  ghost predicate RecordedFor(env: Env, pkg: string, services: seq<Service>, origin: Package, p: Package, short: string)
    requires short in p.copied
  {
    && env.parse(p.copied[short]).short == short
    && Wanted(env, pkg, services, p, p.copied[short])
    && Reached(env, pkg, origin.messages, services, p.copied[short])
    && Present(env, pkg, p, p.copied[short])
  }

  ghost predicate Recorded(env: Env, pkg: string, services: seq<Service>, origin: Package, p: Package) {
    forall short :: short in p.copied && short !in origin.copied ==> RecordedFor(env, pkg, services, origin, p, short)
  }

  /** Every added message or enum is the known type that its short name is recorded
      for, under the label of the package. */
  predicate TrueCopies(env: Env, pkg: string, origin: Package, p: Package)
    requires Extends(pkg, origin, p)
  {
    && (forall i :: |origin.messages| <= i < |p.messages| ==> IsCopiedMessage(env, pkg, p, p.messages[i]))
    && (forall i :: |origin.enums| <= i < |p.enums| ==> IsCopiedEnum(env, pkg, p, p.enums[i]))
  }

  predicate IsCopiedMessage(env: Env, pkg: string, p: Package, m: Message) {
    && m.shortName in p.copied && p.copied[m.shortName] in env.allMessages
    && m == env.allMessages[p.copied[m.shortName]].(pkg := pkg)
  }

  predicate IsCopiedEnum(env: Env, pkg: string, p: Package, e: Enum) {
    && e.shortName in p.copied && p.copied[e.shortName] in env.allEnums && p.copied[e.shortName] !in env.allMessages
    && e == env.allEnums[p.copied[e.shortName]].(pkg := pkg)
  }

  /** A recorded type that is known has been copied, re-labelled with the package. */
  predicate Present(env: Env, pkg: string, p: Package, t: string) {
    if t in env.allMessages then env.allMessages[t].(pkg := pkg) in p.messages
    else t in env.allEnums ==> env.allEnums[t].(pkg := pkg) in p.enums
  }

  predicate Extends(pkg: string, origin: Package, p: Package) {
    && origin.messages <= p.messages && origin.enums <= p.enums
    && (forall short :: short in origin.copied ==> short in p.copied && p.copied[short] == origin.copied[short])
    && (forall i :: 0 <= i < |p.messages| ==> p.messages[i].pkg == pkg && p.messages[i].shortName in p.copied)
    && (forall i :: 0 <= i < |p.enums| ==> p.enums[i].shortName in p.copied)
    && (forall i :: |origin.enums| <= i < |p.enums| ==> p.enums[i].pkg == pkg)
  }

  /** Copied types have short names that are new to the package and all different. */
  predicate NewNames(origin: Package, p: Package)
    requires origin.messages <= p.messages && origin.enums <= p.enums
  {
    && (forall i :: |origin.messages| <= i < |p.messages| ==> p.messages[i].shortName !in origin.copied)
    && (forall i :: |origin.enums| <= i < |p.enums| ==> p.enums[i].shortName !in origin.copied)
    && (forall i, j :: |origin.messages| <= i < j < |p.messages| ==> p.messages[i].shortName != p.messages[j].shortName)
    && (forall i, j :: |origin.enums| <= i < j < |p.enums| ==> p.enums[i].shortName != p.enums[j].shortName)
    && (forall i, j :: |origin.messages| <= i < |p.messages| && |origin.enums| <= j < |p.enums| ==>
          p.messages[i].shortName != p.enums[j].shortName)
  }

  /** Some site of the package refers to this external type. */
  ghost predicate Wanted(env: Env, pkg: string, services: seq<Service>, p: Package, t: string) {
    Refers(env, pkg, Sites(p.messages, services), t)
  }

  lemma WantedStays(env: Env, pkg: string, services: seq<Service>, p: Package, q: Package, t: string)
    requires Wanted(env, pkg, services, p, t) && p.messages <= q.messages
    ensures Wanted(env, pkg, services, q, t)
  {
    PackageRefers(env, pkg, p.messages, services, t);
    PackageRefers(env, pkg, q.messages, services, t);
    if j :| 0 <= j < |p.messages| && MessageRefers(env, pkg, p.messages[j], t) {
      assert q.messages[j] == p.messages[j];
    }
  }

  /** What the package refers to by now was reached from the original package. */
  lemma WantedIsReached(env: Env, pkg: string, services: seq<Service>, origin: Package, p: Package, t: string)
    requires Sound(env, pkg, services, origin, p) && Wanted(env, pkg, services, p, t)
    ensures Reached(env, pkg, origin.messages, services, t)
  {
    PackageRefers(env, pkg, p.messages, services, t);
    PackageRefers(env, pkg, origin.messages, services, t);
    if j :| |origin.messages| <= j < |p.messages| && MessageRefers(env, pkg, p.messages[j], t) {
      var short := p.messages[j].shortName;
      assert IsCopiedMessage(env, pkg, p, p.messages[j]) && RecordedFor(env, pkg, services, origin, p, short);
      var m := env.allMessages[p.copied[short]];
      SitesOfCopy(m, pkg, |m.fields|);
      assert MessageRefers(env, pkg, m, t);
      ReachedNext(env, pkg, origin.messages, services, p.copied[short], t);
    } else {
      if j :| 0 <= j < |p.messages| && MessageRefers(env, pkg, p.messages[j], t) {
        assert origin.messages[j] == p.messages[j];
      }
      ReachedAtOnce(env, pkg, origin.messages, services, t);
    }
  }

  lemma CopyExtends(env: Env, pkg: string, origin: Package, p: Package, t: string)
    requires EnvOk(env) && Extends(pkg, origin, p) && NewNames(origin, p)
    ensures Extends(pkg, origin, CopyType(env, pkg, p, t)) && NewNames(origin, CopyType(env, pkg, p, t))
  {
    var short := env.parse(t).short;
    if short !in p.copied {
      if t in env.allMessages {
        AppendMessage(pkg, origin, p, env.allMessages[t].(pkg := pkg), short, t);
      } else if t in env.allEnums {
        AppendEnum(pkg, origin, p, env.allEnums[t].(pkg := pkg), short, t);
      }
    }
  }

  lemma AppendMessage(pkg: string, origin: Package, p: Package, m: Message, short: string, t: string)
    requires Extends(pkg, origin, p) && NewNames(origin, p) && m.pkg == pkg && m.shortName == short && short !in p.copied
    ensures var q := Package(p.messages + [m], p.enums, p.copied[short := t]); Extends(pkg, origin, q) && NewNames(origin, q)
  {
  }

  lemma AppendEnum(pkg: string, origin: Package, p: Package, e: Enum, short: string, t: string)
    requires Extends(pkg, origin, p) && NewNames(origin, p) && e.pkg == pkg && e.shortName == short && short !in p.copied
    ensures var q := Package(p.messages, p.enums + [e], p.copied[short := t]); Extends(pkg, origin, q) && NewNames(origin, q)
  {
  }

  lemma CopyIsSound(env: Env, pkg: string, services: seq<Service>, origin: Package, p: Package, t: string)
    requires EnvOk(env) && Sound(env, pkg, services, origin, p) && Wanted(env, pkg, services, p, t)
    ensures Sound(env, pkg, services, origin, CopyType(env, pkg, p, t))
    ensures forall u :: Wanted(env, pkg, services, p, u) ==> Wanted(env, pkg, services, CopyType(env, pkg, p, t), u)
  {
    var q := CopyType(env, pkg, p, t);
    CopyExtends(env, pkg, origin, p, t);
    forall u | Wanted(env, pkg, services, p, u)
      ensures Wanted(env, pkg, services, q, u)
    {
      WantedStays(env, pkg, services, p, q, u);
    }
    WantedIsReached(env, pkg, services, origin, p, t);
    CopyIsPresent(env, pkg, p, t);
    CopyIsTrue(env, pkg, origin, p, t);
    CopyIsRecorded(env, pkg, services, origin, p, t);
  }

  lemma CopyIsRecorded(env: Env, pkg: string, services: seq<Service>, origin: Package, p: Package, t: string)
    requires Recorded(env, pkg, services, origin, p) && Reached(env, pkg, origin.messages, services, t)
    requires var q := CopyType(env, pkg, p, t);
             && Wanted(env, pkg, services, q, t)
             && (forall u :: Wanted(env, pkg, services, p, u) ==> Wanted(env, pkg, services, q, u))
             && (forall u :: Present(env, pkg, p, u) ==> Present(env, pkg, q, u))
             && (env.parse(t).short !in p.copied ==> Present(env, pkg, q, t))
    ensures Recorded(env, pkg, services, origin, CopyType(env, pkg, p, t))
  {
    var q := CopyType(env, pkg, p, t);
    forall short | short in q.copied && short !in origin.copied
      ensures RecordedFor(env, pkg, services, origin, q, short)
    {
      if short in p.copied {
        assert RecordedFor(env, pkg, services, origin, p, short) && q.copied[short] == p.copied[short];
      }
    }
  }

  lemma CopyIsTrue(env: Env, pkg: string, origin: Package, p: Package, t: string)
    requires EnvOk(env) && Extends(pkg, origin, p) && TrueCopies(env, pkg, origin, p)
    requires Extends(pkg, origin, CopyType(env, pkg, p, t))
    ensures TrueCopies(env, pkg, origin, CopyType(env, pkg, p, t))
  {
    var q := CopyType(env, pkg, p, t);
    forall i | |origin.messages| <= i < |q.messages|
      ensures IsCopiedMessage(env, pkg, q, q.messages[i])
    {
      if i < |p.messages| {
        assert IsCopiedMessage(env, pkg, p, p.messages[i]);
      }
    }
    forall i | |origin.enums| <= i < |q.enums|
      ensures IsCopiedEnum(env, pkg, q, q.enums[i])
    {
      if i < |p.enums| {
        assert IsCopiedEnum(env, pkg, p, p.enums[i]);
      }
    }
  }

  lemma CopyIsPresent(env: Env, pkg: string, p: Package, t: string)
    ensures var q := CopyType(env, pkg, p, t);
            && (forall u :: Present(env, pkg, p, u) ==> Present(env, pkg, q, u))
            && (env.parse(t).short !in p.copied ==> Present(env, pkg, q, t))
  {
    var q := CopyType(env, pkg, p, t);
    assert forall m :: m in p.messages ==> m in q.messages;
    assert forall e :: e in p.enums ==> e in q.enums;
    if env.parse(t).short !in p.copied {
      if t in env.allMessages {
        assert q.messages[|p.messages|] == env.allMessages[t].(pkg := pkg);
      } else if t in env.allEnums {
        assert q.enums[|p.enums|] == env.allEnums[t].(pkg := pkg);
      }
    }
  }

  // ----- the rounds

  predicate NamedIn(messages: seq<Message>, enums: seq<Enum>, short: string) {
    || (exists i :: 0 <= i < |messages| && messages[i].shortName == short)
    || (exists i :: 0 <= i < |enums| && enums[i].shortName == short)
  }

  /** The note for a name tells that a type of that name was there from the start. */
  predicate NotedAs(messages: seq<Message>, enums: seq<Enum>, short: string, note: string) {
    || (exists i :: 0 <= i < |messages| && messages[i].shortName == short && note == "local:" + messages[i].typeName)
    || (exists i :: 0 <= i < |enums| && enums[i].shortName == short && note == "local:" + enums[i].typeName)
  }

  /** The names that a package starts with. */
  method LocalNames(messages: seq<Message>, enums: seq<Enum>) returns (copied: map<string, string>)
    ensures forall short :: short in copied <==> NamedIn(messages, enums, short)
    ensures forall short :: short in copied ==> NotedAs(messages, enums, short, copied[short])
  {
    copied := map[];
    for n := 0 to |messages|
      invariant forall short :: short in copied <==> NamedIn(messages[..n], [], short)
      invariant forall short :: short in copied ==> NotedAs(messages, enums, short, copied[short])
    {
      if messages[n].shortName !in copied {
        copied := copied[messages[n].shortName := "local:" + messages[n].typeName];
      }
      OneMoreName(messages[..n], messages[n]);
      assert messages[..n + 1] == messages[..n] + [messages[n]];
    }
    assert messages[..|messages|] == messages;
    for n := 0 to |enums|
      invariant forall short :: short in copied <==> NamedIn(messages, enums[..n], short)
      invariant forall short :: short in copied ==> NotedAs(messages, enums, short, copied[short])
    {
      if enums[n].shortName !in copied {
        copied := copied[enums[n].shortName := "local:" + enums[n].typeName];
      }
      OneMoreEnum(messages, enums[..n], enums[n]);
      assert enums[..n + 1] == enums[..n] + [enums[n]];
    }
    assert enums[..|enums|] == enums;
  }

  lemma OneMoreName(messages: seq<Message>, m: Message)
    ensures forall short :: NamedIn(messages + [m], [], short) <==> NamedIn(messages, [], short) || short == m.shortName
  {
    var all := messages + [m];
    assert all[|messages|] == m;
    assert forall i :: 0 <= i < |messages| ==> all[i] == messages[i];
  }

  lemma OneMoreEnum(messages: seq<Message>, enums: seq<Enum>, e: Enum)
    ensures forall short :: NamedIn(messages, enums + [e], short) <==> NamedIn(messages, enums, short) || short == e.shortName
  {
    var all := enums + [e];
    assert all[|enums|] == e;
    assert forall i :: 0 <= i < |enums| ==> all[i] == enums[i];
  }

  /** The names in use at the start are those of the package's own types. */
  ghost predicate OwnNames(origin: Package) {
    forall short :: short in origin.copied <==> NamedIn(origin.messages, origin.enums, short)
  }

  /** Every external type that the package refers to has a local name. */
  ghost predicate Closed(env: Env, pkg: string, services: seq<Service>, p: Package) {
    forall t :: Wanted(env, pkg, services, p, t) ==> env.parse(t).short in p.copied
  }

  predicate Grows(p: Package, q: Package) {
    && p.messages <= q.messages && p.enums <= q.enums
    && forall short :: short in p.copied ==> short in q.copied && q.copied[short] == p.copied[short]
  }

  /** What was added since has names that were not in use then, each recorded for one
      of these types. */
  predicate Adds(before: Package, p: Package, needed: set<string>) {
    && Grows(before, p)
    && (forall short :: short in p.copied && short !in before.copied ==> p.copied[short] in needed)
    && (forall i :: |before.messages| <= i < |p.messages| ==> p.messages[i].shortName !in before.copied)
    && (forall i :: |before.enums| <= i < |p.enums| ==> p.enums[i].shortName !in before.copied)
  }

  /** Where a round stands with these types still to be copied. */
  ghost predicate Underway(env: Env, pkg: string, services: seq<Service>, origin: Package, before: Package, p: Package,
                           needed: set<string>, todo: set<string>) {
    && Sound(env, pkg, services, origin, p) && Adds(before, p, needed) && todo <= needed
    && (forall t :: t in needed ==> Wanted(env, pkg, services, p, t))
    && AllNamed(env, p, needed - todo)
  }

  ghost predicate AllNamed(env: Env, p: Package, types: set<string>) {
    forall t :: t in types ==> env.parse(t).short in p.copied
  }

  lemma CopyNames(env: Env, pkg: string, p: Package, needed: set<string>, todo: set<string>, t: string)
    requires AllNamed(env, p, needed - todo)
    ensures AllNamed(env, CopyType(env, pkg, p, t), needed - (todo - {t}))
  {
  }

  lemma CopyAdds(env: Env, pkg: string, before: Package, p: Package, needed: set<string>, t: string)
    requires EnvOk(env) && Adds(before, p, needed) && t in needed
    ensures Adds(before, CopyType(env, pkg, p, t), needed)
  {
  }

  lemma RoundStep(env: Env, pkg: string, services: seq<Service>, origin: Package, before: Package, p: Package,
                  needed: set<string>, todo: set<string>, t: string)
    requires EnvOk(env) && Underway(env, pkg, services, origin, before, p, needed, todo) && t in todo
    ensures Underway(env, pkg, services, origin, before, CopyType(env, pkg, p, t), needed, todo - {t})
  {
    CopyIsSound(env, pkg, services, origin, p, t);
    CopyAdds(env, pkg, before, p, needed, t);
    CopyNames(env, pkg, p, needed, todo, t);
  }

  method CopyNeeded(env: Env, pkg: string, services: seq<Service>, ghost origin: Package, before: Package, needed: set<string>)
    returns (p: Package)
    requires EnvOk(env) && Sound(env, pkg, services, origin, before)
    requires forall t :: t in needed ==> Wanted(env, pkg, services, before, t)
    ensures Sound(env, pkg, services, origin, p) && Adds(before, p, needed)
    ensures AllNamed(env, p, needed)
  {
    p := before;
    var todo := needed;
    while todo != {}
      invariant Underway(env, pkg, services, origin, before, p, needed, todo)
      decreases |todo|
    {
      var t :| t in todo;
      RoundStep(env, pkg, services, origin, before, p, needed, todo, t);
      p := CopyType(env, pkg, p, t);
      todo := todo - {t};
    }
    assert needed - todo == needed;
  }

  /** The package refers to this external type and has no local name for it. */
  ghost predicate Missing(env: Env, pkg: string, services: seq<Service>, p: Package, t: string) {
    NeededBy(env, pkg, p.copied.Keys, Sites(p.messages, services), t)
  }

  /** What a round does: every missing type gets a local name, and every name that is
      added is recorded for a type that was missing. */
  ghost predicate IsRound(env: Env, pkg: string, services: seq<Service>, before: Package, p: Package) {
    && Grows(before, p)
    && (forall t :: Missing(env, pkg, services, before, t) ==> env.parse(t).short in p.copied)
    && (forall short :: short in p.copied && short !in before.copied ==> Missing(env, pkg, services, before, p.copied[short]))
    && (forall i :: |before.messages| <= i < |p.messages| ==> p.messages[i].shortName !in before.copied)
    && (forall i :: |before.enums| <= i < |p.enums| ==> p.enums[i].shortName !in before.copied)
  }

  lemma QuietRoundCloses(env: Env, pkg: string, services: seq<Service>, before: Package, p: Package)
    requires IsRound(env, pkg, services, before, p) && Copies(p) == Copies(before)
    ensures Closed(env, pkg, services, p)
  {
    assert p.messages == before.messages;
    forall t | Wanted(env, pkg, services, p, t)
      ensures env.parse(t).short in p.copied
    {
      if env.parse(t).short !in before.copied {
        assert Missing(env, pkg, services, before, t);
      }
    }
  }

  /** One round: collect what is needed, then copy it in any order. A round that
      copies nothing leaves the package closed. */
  method CopyRound(env: Env, pkg: string, services: seq<Service>, ghost origin: Package, before: Package) returns (p: Package)
    requires EnvOk(env) && Sound(env, pkg, services, origin, before)
    ensures Sound(env, pkg, services, origin, p) && IsRound(env, pkg, services, before, p)
    ensures Copies(p) == Copies(before) ==> Closed(env, pkg, services, p)
  {
    var needed := CollectAll(env, pkg, before.copied.Keys, before.messages, services);
    assert forall t :: t in needed <==> Missing(env, pkg, services, before, t);
    p := CopyNeeded(env, pkg, services, origin, before, needed);
    if Copies(p) == Copies(before) {
      QuietRoundCloses(env, pkg, services, before, p);
    }
  }

  // ----- what the rounds add, one after the other

  ghost predicate NamesDiffer(env: Env, chain: seq<string>) {
    forall i, j :: 0 <= i < j < |chain| ==> env.parse(chain[i]).short != env.parse(chain[j]).short
  }

  /** A chain of references of this length to the type, with different short names that
      are all in use. */
  ghost predicate IsChainTo(env: Env, pkg: string, services: seq<Service>, origin: Package, p: Package, n: nat, t: string, chain: seq<string>) {
    && IsChain(env, pkg, origin.messages, services, chain) && |chain| == n && chain[n - 1] == t && NamesDiffer(env, chain)
    && forall k :: 0 <= k < n ==> env.parse(chain[k]).short in p.copied
  }

  ghost predicate HasChain(env: Env, pkg: string, services: seq<Service>, origin: Package, p: Package, n: nat, t: string) {
    exists chain :: IsChainTo(env, pkg, services, origin, p, n, t, chain)
  }

  /** Every name that the n-th round added has a chain of length n. */
  ghost predicate Frontier(env: Env, pkg: string, services: seq<Service>, origin: Package, before: Package, p: Package, n: nat) {
    forall short :: short in p.copied && short !in before.copied ==>
      HasChain(env, pkg, services, origin, p, n, p.copied[short])
  }

  lemma HasChainOfOne(env: Env, pkg: string, services: seq<Service>, origin: Package, p: Package, t: string)
    requires Refers(env, pkg, Sites(origin.messages, services), t) && env.parse(t).short in p.copied
    ensures HasChain(env, pkg, services, origin, p, 1, t)
  {
    assert IsChainTo(env, pkg, services, origin, p, 1, t, [t]);
  }

  lemma FirstFrontier(env: Env, pkg: string, services: seq<Service>, origin: Package, p: Package)
    requires Sound(env, pkg, services, origin, p) && IsRound(env, pkg, services, origin, p)
    ensures Frontier(env, pkg, services, origin, origin, p, 1)
  {
    forall short | short in p.copied && short !in origin.copied
      ensures HasChain(env, pkg, services, origin, p, 1, p.copied[short])
    {
      AddedName(env, pkg, services, origin, origin, p, short);
      HasChainOfOne(env, pkg, services, origin, p, p.copied[short]);
    }
  }

  lemma RefersBeforeOrAfter(env: Env, pkg: string, before: seq<Message>, messages: seq<Message>, t: string)
    requires before <= messages && SomeRefers(env, pkg, messages, |messages|, t)
    ensures SomeRefers(env, pkg, before, |before|, t)
         || exists j :: |before| <= j < |messages| && MessageRefers(env, pkg, messages[j], t)
  {
    var j :| 0 <= j < |messages| && MessageRefers(env, pkg, messages[j], t);
    if j < |before| {
      assert before[j] == messages[j];
    }
  }

  /** What is missing after a round is referred to only by a message that it added. */
  lemma MissingIsNew(env: Env, pkg: string, services: seq<Service>, before: Package, p: Package, t: string)
    requires IsRound(env, pkg, services, before, p) && Missing(env, pkg, services, p, t)
    ensures exists j :: |before.messages| <= j < |p.messages| && MessageRefers(env, pkg, p.messages[j], t)
  {
    assert !Missing(env, pkg, services, before, t) && env.parse(t).short !in before.copied;
    PackageRefers(env, pkg, before.messages, services, t);
    PackageRefers(env, pkg, p.messages, services, t);
    RefersBeforeOrAfter(env, pkg, before.messages, p.messages, t);
  }

  /** The type behind that message, whose name the round added. */
  lemma Referrer(env: Env, pkg: string, services: seq<Service>, origin: Package, before: Package, p: Package, t: string)
    returns (name: string)
    requires Sound(env, pkg, services, origin, p) && IsRound(env, pkg, services, before, p) && Grows(origin, before)
    requires Missing(env, pkg, services, p, t)
    ensures name in p.copied && name !in before.copied && LeadsTo(env, pkg, p.copied[name], t)
  {
    MissingIsNew(env, pkg, services, before, p, t);
    var j :| |before.messages| <= j < |p.messages| && MessageRefers(env, pkg, p.messages[j], t);
    name := p.messages[j].shortName;
    assert IsCopiedMessage(env, pkg, p, p.messages[j]);
    var m := env.allMessages[p.copied[name]];
    SitesOfCopy(m, pkg, |m.fields|);
  }

  lemma ChainGrows(env: Env, pkg: string, services: seq<Service>, origin: Package, p: Package, q: Package,
                   n: nat, u: string, t: string, chain: seq<string>)
    requires IsChainTo(env, pkg, services, origin, p, n, u, chain) && LeadsTo(env, pkg, u, t)
    requires Grows(p, q) && env.parse(t).short in q.copied && env.parse(t).short !in p.copied
    ensures IsChainTo(env, pkg, services, origin, q, n + 1, t, chain + [t])
  {
    var longer := chain + [t];
    assert forall k :: 0 <= k < n ==> longer[k] == chain[k];
    forall k | 0 < k < |longer|
      ensures LeadsTo(env, pkg, longer[k - 1], longer[k])
    {
    }
  }

  lemma HasLongerChain(env: Env, pkg: string, services: seq<Service>, origin: Package, p: Package, q: Package,
                       n: nat, u: string, t: string)
    requires HasChain(env, pkg, services, origin, p, n, u) && LeadsTo(env, pkg, u, t)
    requires Grows(p, q) && env.parse(t).short in q.copied && env.parse(t).short !in p.copied
    ensures HasChain(env, pkg, services, origin, q, n + 1, t)
  {
    var chain :| IsChainTo(env, pkg, services, origin, p, n, u, chain);
    ChainGrows(env, pkg, services, origin, p, q, n, u, t, chain);
  }

  /** A name that a round added is that of the type it is recorded for. */
  lemma AddedName(env: Env, pkg: string, services: seq<Service>, origin: Package, p: Package, q: Package, short: string)
    requires Sound(env, pkg, services, origin, q) && IsRound(env, pkg, services, p, q) && Grows(origin, p)
    requires short in q.copied && short !in p.copied
    ensures env.parse(q.copied[short]).short == short && Missing(env, pkg, services, p, q.copied[short])
  {
    assert RecordedFor(env, pkg, services, origin, q, short);
  }

  lemma NextName(env: Env, pkg: string, services: seq<Service>, origin: Package, before: Package, p: Package, q: Package,
                 n: nat, short: string)
    requires Sound(env, pkg, services, origin, p) && IsRound(env, pkg, services, before, p) && Grows(origin, before)
    requires Frontier(env, pkg, services, origin, before, p, n)
    requires Grows(p, q) && short in q.copied && short !in p.copied
    requires env.parse(q.copied[short]).short == short && Missing(env, pkg, services, p, q.copied[short])
    ensures HasChain(env, pkg, services, origin, q, n + 1, q.copied[short])
  {
    var name := Referrer(env, pkg, services, origin, before, p, q.copied[short]);
    HasLongerChain(env, pkg, services, origin, p, q, n, p.copied[name], q.copied[short]);
  }

  lemma NextFrontier(env: Env, pkg: string, services: seq<Service>, origin: Package, before: Package, p: Package, q: Package, n: nat)
    requires Sound(env, pkg, services, origin, p) && Sound(env, pkg, services, origin, q)
    requires IsRound(env, pkg, services, before, p) && IsRound(env, pkg, services, p, q) && Grows(origin, before)
    requires Frontier(env, pkg, services, origin, before, p, n)
    ensures Frontier(env, pkg, services, origin, p, q, n + 1)
  {
    forall short | short in q.copied && short !in p.copied
      ensures HasChain(env, pkg, services, origin, q, n + 1, q.copied[short])
    {
      AddedName(env, pkg, services, origin, p, q, short);
      NextName(env, pkg, services, origin, before, p, q, n, short);
    }
  }

  /** Where the rounds stand after n of them: the last one was a round, and what it
      added is n references away. */
  ghost predicate Advanced(env: Env, pkg: string, services: seq<Service>, origin: Package, before: Package, p: Package, n: nat) {
    && Sound(env, pkg, services, origin, p)
    && (n == 0 ==> p == origin)
    && (n > 0 ==> IsRound(env, pkg, services, before, p) && Grows(origin, before) && Frontier(env, pkg, services, origin, before, p, n)
                  && DirectFirst(env, pkg, services, origin, p))
  }

  lemma Advance(env: Env, pkg: string, services: seq<Service>, origin: Package, before: Package, p: Package, q: Package, n: nat)
    requires Advanced(env, pkg, services, origin, before, p, n)
    requires Sound(env, pkg, services, origin, q) && IsRound(env, pkg, services, p, q)
    ensures Advanced(env, pkg, services, origin, p, q, n + 1)
  {
    if n == 0 {
      FirstFrontier(env, pkg, services, origin, q);
      FirstRoundIsDirect(env, pkg, services, origin, q);
    } else {
      NextFrontier(env, pkg, services, origin, before, p, q, n);
    }
  }

  /** The original package refers to this type itself. */
  ghost predicate Direct(env: Env, pkg: string, services: seq<Service>, origin: Package, t: string) {
    Refers(env, pkg, Sites(origin.messages, services), t)
  }

  /** A name of a type that the original package refers to itself is recorded for such
      a type. */
  ghost predicate DirectFirst(env: Env, pkg: string, services: seq<Service>, origin: Package, p: Package) {
    forall t :: Direct(env, pkg, services, origin, t) && env.parse(t).short !in origin.copied ==>
      env.parse(t).short in p.copied && Direct(env, pkg, services, origin, p.copied[env.parse(t).short])
  }

  lemma FirstRoundIsDirect(env: Env, pkg: string, services: seq<Service>, origin: Package, p: Package)
    requires IsRound(env, pkg, services, origin, p)
    ensures DirectFirst(env, pkg, services, origin, p)
  {
    forall t | Direct(env, pkg, services, origin, t) && env.parse(t).short !in origin.copied
      ensures env.parse(t).short in p.copied && Direct(env, pkg, services, origin, p.copied[env.parse(t).short])
    {
      assert Missing(env, pkg, services, origin, t);
      assert Missing(env, pkg, services, origin, p.copied[env.parse(t).short]);
    }
  }

  /** A round that copies something has added a name, and so has a chain to show. */
  lemma CopyHasChain(env: Env, pkg: string, services: seq<Service>, origin: Package, before: Package, p: Package, n: nat)
    requires Advanced(env, pkg, services, origin, before, p, n) && n > 0 && Copies(p) > Copies(before)
    ensures exists chain :: IsChain(env, pkg, origin.messages, services, chain) && |chain| == n && NamesDiffer(env, chain)
  {
    var short := if |p.messages| > |before.messages| then p.messages[|before.messages|].shortName
                 else p.enums[|before.enums|].shortName;
    assert short in p.copied && short !in before.copied;
    var chain :| IsChainTo(env, pkg, services, origin, p, n, p.copied[short], chain);
  }

  /** A reference to a type of another package, other than Google's, has a local name. */
  predicate HasName(env: Env, pkg: string, p: Package, site: Site) {
    match env.resolve(site, pkg)
    case None => true
    case Some(t) => IsForeign(env, pkg, t) ==> env.parse(t).short in p.copied
  }

  /** Of another package, other than Google's. */
  predicate IsForeign(env: Env, pkg: string, t: string) {
    env.parse(t).pkg !in ["", pkg, "google.protobuf", "google.rpc"]
  }

  lemma ReferredIsForeign(env: Env, pkg: string, sites: seq<Site>, t: string)
    requires Refers(env, pkg, sites, t)
    ensures IsForeign(env, pkg, t)
  {
  }

  lemma AddedAreForeign(env: Env, pkg: string, services: seq<Service>, origin: Package, p: Package)
    requires Sound(env, pkg, services, origin, p)
    ensures forall short :: short in p.copied && short !in origin.copied ==> IsForeign(env, pkg, p.copied[short])
  {
    forall short | short in p.copied && short !in origin.copied
      ensures IsForeign(env, pkg, p.copied[short])
    {
      assert RecordedFor(env, pkg, services, origin, p, short);
      ReferredIsForeign(env, pkg, Sites(p.messages, services), p.copied[short]);
    }
  }

  lemma ClosedMeansNamed(env: Env, pkg: string, services: seq<Service>, p: Package)
    requires Closed(env, pkg, services, p)
    ensures forall site :: IsReference(p.messages, services, site) ==> HasName(env, pkg, p, site)
  {
    forall site | IsReference(p.messages, services, site)
      ensures HasName(env, pkg, p, site)
    {
      SitesAreReferences(p.messages, services, site);
      var i :| 0 <= i < |Sites(p.messages, services)| && Sites(p.messages, services)[i] == site;
      match env.resolve(site, pkg)
      case None =>
      case Some(t) => assert External(env, pkg, Sites(p.messages, services)[i], t) ==> Wanted(env, pkg, services, p, t);
    }
  }

  lemma AddedNamesAreNew(origin: Package, p: Package)
    requires OwnNames(origin) && origin.messages <= p.messages && origin.enums <= p.enums && NewNames(origin, p)
    ensures forall i :: |origin.messages| <= i < |p.messages| ==> !NamedIn(origin.messages, origin.enums, p.messages[i].shortName)
    ensures forall i :: |origin.enums| <= i < |p.enums| ==> !NamedIn(origin.messages, origin.enums, p.enums[i].shortName)
  {
  }

  /** Copies all external types, in at most 21 rounds. Leaving because a round
      copied nothing means that the package is closed; leaving by the cap, that there
      is a chain of 21 references to types with different short names. */
  method CopyAllExternalTypes(env: Env, pkg: string, messages: seq<Message>, enums: seq<Enum>, services: seq<Service>)
    returns (origin: Package, p: Package, settled: bool)
    requires EnvOk(env)
    requires forall i :: 0 <= i < |messages| ==> messages[i].pkg == pkg
    ensures origin.messages == messages && origin.enums == enums && OwnNames(origin)
    ensures Sound(env, pkg, services, origin, p) && DirectFirst(env, pkg, services, origin, p)
    ensures forall i :: |messages| <= i < |p.messages| ==> !NamedIn(messages, enums, p.messages[i].shortName)
    ensures forall i :: |enums| <= i < |p.enums| ==> !NamedIn(messages, enums, p.enums[i].shortName)
    ensures settled ==> Closed(env, pkg, services, p)
    ensures settled ==> forall site :: IsReference(p.messages, services, site) ==> HasName(env, pkg, p, site)
    ensures forall short :: short in p.copied && !NamedIn(messages, enums, short) ==> IsForeign(env, pkg, p.copied[short])
    ensures !settled ==> |p.messages| + |p.enums| >= |messages| + |enums| + 21
    ensures !settled ==> exists chain :: IsChain(env, pkg, messages, services, chain) && |chain| == 21 && NamesDiffer(env, chain)
  {
    var copied := LocalNames(messages, enums);
    origin := Package(messages, enums, copied);
    p := origin;
    ghost var last := origin;
    var round := 1;
    while true
      invariant 1 <= round <= 21
      invariant Advanced(env, pkg, services, origin, last, p, round - 1) && Copies(p) >= Copies(origin) + round - 1
      decreases 21 - round
    {
      var before := p;
      p := CopyRound(env, pkg, services, origin, before);
      Advance(env, pkg, services, origin, last, before, p, round - 1);
      AddedNamesAreNew(origin, p);
      AddedAreForeign(env, pkg, services, origin, p);
      last := before;
      if Copies(p) == Copies(before) {
        ClosedMeansNamed(env, pkg, services, p);
        return origin, p, true;
      }
      if round > 20 {
        CopyHasChain(env, pkg, services, origin, before, p, 21);
        return origin, p, false;
      }
      round := round + 1;
    }
  }
}
