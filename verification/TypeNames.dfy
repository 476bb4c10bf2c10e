/** How references are written in a generated package, and what they mean there: the
    short names of copied types against those of all other types. */
module TypeNames {
  import opened Basics
  import opened TypeCopy

  // ----- writing references

  datatype Written = Fallback(token: string) | Relative(rest: string) | Local(short: string) | Qualified(pkg: string, short: string)

  /** What follows the last dot. */
  function AfterLastDot(s: string): (r: string)
    ensures '.' !in r && |r| <= |s| && r == s[|s| - |r|..] && (r == s || s[|s| - |r| - 1] == '.')
  {
    if '.' !in s then s
    else
      var r := AfterLastDot(s[1..]);
      r
  }

  function WriteMethodType(env: Env, pkg: string, copied: map<string, string>, site: Site): Written {
    match env.resolve(site, pkg)
    case None => Fallback(AfterLastDot(env.trim(site.ref)))
    case Some(t) =>
      var name := env.parse(t);
      if name.pkg == pkg || name.pkg == "" || name.short in copied then Local(name.short)
      else Qualified(name.pkg, name.short)
  }

  /** The name is nested under the message whose field is being written. */
  predicate UnderParent(site: Site, short: string) {
    site.parent != "" && site.parent + "." <= short
  }

  function WriteFieldType(env: Env, pkg: string, copied: map<string, string>, site: Site): Written {
    match env.resolve(site, pkg)
    case None => Fallback(AfterLastDot(env.trim(site.ref)))
    case Some(t) =>
      var name := env.parse(t);
      if UnderParent(site, name.short) then Relative(name.short[|site.parent| + 1..])
      else if name.pkg == pkg || name.pkg == "" || name.short in copied then Local(name.short)
      else Qualified(name.pkg, name.short)
  }

  /** Written without a package, or with one of Google's. */
  predicate SelfContained(w: Written) {
    match w
    case Qualified(pkg, _) => IsGoogle(pkg)
    case Fallback(token) => '.' !in token
    case _ => true
  }

  /** How the reference at a site is written, in a field or in a method. */
  function Write(env: Env, pkg: string, copied: map<string, string>, site: Site): Written {
    if site.parent == "" then WriteMethodType(env, pkg, copied, site) else WriteFieldType(env, pkg, copied, site)
  }

  /** The name in the package, from the top, that a reference is written with. */
  function LocalName(site: Site, w: Written): Option<string> {
    match w
    case Local(short) => Some(short)
    case Relative(rest) => Some(site.parent + "." + rest)
    case _ => None
  }

  lemma RelativeName(site: Site, short: string)
    requires UnderParent(site, short)
    ensures |site.parent| + 1 <= |short| && site.parent + "." + short[|site.parent| + 1..] == short
  {
    assert short == short[..|site.parent| + 1] + short[|site.parent| + 1..];
  }

  /** In a closed package every type is written without a package or with one of
      Google's; an external type is written with its short name. */
  lemma ClosedIsSelfContained(env: Env, pkg: string, services: seq<Service>, p: Package, i: nat)
    requires Closed(env, pkg, services, p) && i < |Sites(p.messages, services)|
    ensures var site := Sites(p.messages, services)[i];
            var w := Write(env, pkg, p.copied, site);
            && SelfContained(w)
            && forall t :: External(env, pkg, site, t) ==> LocalName(site, w) == Some(env.parse(t).short)
  {
    var site := Sites(p.messages, services)[i];
    match env.resolve(site, pkg)
    case None =>
    case Some(t) =>
      assert External(env, pkg, site, t) ==> Wanted(env, pkg, services, p, t);
      if UnderParent(site, env.parse(t).short) {
        RelativeName(site, env.parse(t).short);
      }
  }

  // ----- what a local name stands for

  predicate Known(env: Env, t: string) {
    t in env.allMessages || t in env.allEnums
  }

  lemma KnownIsNamed(env: Env, pkg: string, p: Package, t: string)
    requires EnvOk(env) && Known(env, t) && Present(env, pkg, p, t)
    ensures NamedIn(p.messages, p.enums, env.parse(t).short)
  {
    if t in env.allMessages {
      var i :| 0 <= i < |p.messages| && p.messages[i] == env.allMessages[t].(pkg := pkg);
    } else {
      var i :| 0 <= i < |p.enums| && p.enums[i] == env.allEnums[t].(pkg := pkg);
    }
  }

  lemma NamedIsRecorded(env: Env, pkg: string, origin: Package, p: Package, short: string)
    requires OwnNames(origin) && Extends(pkg, origin, p) && TrueCopies(env, pkg, origin, p)
    requires short in p.copied && NamedIn(p.messages, p.enums, short)
    ensures short in origin.copied || Known(env, p.copied[short])
  {
    if i :| 0 <= i < |p.messages| && p.messages[i].shortName == short {
      assert i < |origin.messages| ==> origin.messages[i] == p.messages[i];
      assert i >= |origin.messages| ==> IsCopiedMessage(env, pkg, p, p.messages[i]);
    } else {
      var i :| 0 <= i < |p.enums| && p.enums[i].shortName == short;
      assert i < |origin.enums| ==> origin.enums[i] == p.enums[i];
      assert i >= |origin.enums| ==> IsCopiedEnum(env, pkg, p, p.enums[i]);
    }
  }

  /** A name in use is defined in the package if and only if it was there from the
      start or is recorded for a known type. */
  lemma NamedIff(env: Env, pkg: string, services: seq<Service>, origin: Package, p: Package, short: string)
    requires EnvOk(env) && OwnNames(origin) && Sound(env, pkg, services, origin, p) && short in p.copied
    ensures NamedIn(p.messages, p.enums, short) <==> short in origin.copied || Known(env, p.copied[short])
  {
    if NamedIn(p.messages, p.enums, short) {
      NamedIsRecorded(env, pkg, origin, p, short);
    } else if short in origin.copied {
      NamesStay(origin, p, short);
    } else if Known(env, p.copied[short]) {
      assert RecordedFor(env, pkg, services, origin, p, short);
      KnownIsNamed(env, pkg, p, p.copied[short]);
    }
  }

  lemma NamesStay(origin: Package, p: Package, short: string)
    requires origin.messages <= p.messages && origin.enums <= p.enums && NamedIn(origin.messages, origin.enums, short)
    ensures NamedIn(p.messages, p.enums, short)
  {
    if i :| 0 <= i < |origin.messages| && origin.messages[i].shortName == short {
      assert p.messages[i] == origin.messages[i];
    } else {
      var i :| 0 <= i < |origin.enums| && origin.enums[i].shortName == short;
      assert p.enums[i] == origin.enums[i];
    }
  }

  /** A reached external type of this short name. */
  ghost predicate ReachedAs(env: Env, pkg: string, messages: seq<Message>, services: seq<Service>, short: string, t: string) {
    Reached(env, pkg, messages, services, t) && env.parse(t).short == short
  }

  /** No reached external types share a short name, and none shares one with a type
      that was there from the start. */
  ghost predicate NoClash(env: Env, pkg: string, messages: seq<Message>, enums: seq<Enum>, services: seq<Service>) {
    && (forall t, u :: Reached(env, pkg, messages, services, t) && ReachedAs(env, pkg, messages, services, env.parse(t).short, u) ==> t == u)
    && (forall t :: Reached(env, pkg, messages, services, t) ==> !NamedIn(messages, enums, env.parse(t).short))
  }

  /** The local name written for an external type was not there from the start and
      is recorded for just that type. */
  predicate StandsFor(env: Env, origin: Package, p: Package, t: string) {
    env.parse(t).short !in origin.copied && env.parse(t).short in p.copied && p.copied[env.parse(t).short] == t
  }

  ghost predicate KeepsExternals(env: Env, pkg: string, services: seq<Service>, origin: Package, p: Package) {
    forall t :: Wanted(env, pkg, services, p, t) ==> StandsFor(env, origin, p, t)
  }

  /** If every name stands for its type, then all that was reached is referred to. */
  lemma {:induction false} ChainIsWanted(env: Env, pkg: string, services: seq<Service>, origin: Package, p: Package,
                                         chain: seq<string>, k: nat)
    requires Sound(env, pkg, services, origin, p) && KeepsExternals(env, pkg, services, origin, p)
    requires IsChain(env, pkg, origin.messages, services, chain) && k < |chain|
    ensures Wanted(env, pkg, services, p, chain[k])
  {
    if k == 0 {
      WantedStays(env, pkg, services, origin, p, chain[0]);
    } else {
      ChainIsWanted(env, pkg, services, origin, p, chain, k - 1);
      var t, u := chain[k - 1], chain[k];
      assert StandsFor(env, origin, p, t) && RecordedFor(env, pkg, services, origin, p, env.parse(t).short);
      assert LeadsTo(env, pkg, t, u);
      var m := env.allMessages[t];
      SitesOfCopy(m, pkg, |m.fields|);
      var j :| 0 <= j < |p.messages| && p.messages[j] == m.(pkg := pkg);
      assert MessageRefers(env, pkg, p.messages[j], u);
      PackageRefers(env, pkg, p.messages, services, u);
    }
  }

  lemma NoClashKeeps(env: Env, pkg: string, services: seq<Service>, origin: Package, p: Package)
    requires OwnNames(origin) && Sound(env, pkg, services, origin, p) && Closed(env, pkg, services, p)
    requires NoClash(env, pkg, origin.messages, origin.enums, services)
    ensures KeepsExternals(env, pkg, services, origin, p)
  {
    forall t | Wanted(env, pkg, services, p, t)
      ensures StandsFor(env, origin, p, t)
    {
      var short := env.parse(t).short;
      WantedIsReached(env, pkg, services, origin, p, t);
      assert RecordedFor(env, pkg, services, origin, p, short);
      assert ReachedAs(env, pkg, origin.messages, services, short, p.copied[short]);
    }
  }

  lemma ReachedStandsFor(env: Env, pkg: string, services: seq<Service>, origin: Package, p: Package, t: string)
    requires Sound(env, pkg, services, origin, p) && KeepsExternals(env, pkg, services, origin, p)
    requires Reached(env, pkg, origin.messages, services, t)
    ensures StandsFor(env, origin, p, t)
  {
    var chain :| IsChain(env, pkg, origin.messages, services, chain) && chain[|chain| - 1] == t;
    ChainIsWanted(env, pkg, services, origin, p, chain, |chain| - 1);
  }

  lemma KeptMeansNoClash(env: Env, pkg: string, services: seq<Service>, origin: Package, p: Package)
    requires OwnNames(origin) && Sound(env, pkg, services, origin, p) && KeepsExternals(env, pkg, services, origin, p)
    ensures NoClash(env, pkg, origin.messages, origin.enums, services)
  {
    forall t | Reached(env, pkg, origin.messages, services, t)
      ensures StandsFor(env, origin, p, t)
    {
      ReachedStandsFor(env, pkg, services, origin, p, t);
    }
  }

  /** Short names keep the external types apart if and only if those of the reached
      types do not clash. */
  lemma KeepsExternalsIff(env: Env, pkg: string, services: seq<Service>, origin: Package, p: Package)
    requires OwnNames(origin) && Sound(env, pkg, services, origin, p) && Closed(env, pkg, services, p)
    ensures KeepsExternals(env, pkg, services, origin, p) <==> NoClash(env, pkg, origin.messages, origin.enums, services)
  {
    if NoClash(env, pkg, origin.messages, origin.enums, services) {
      NoClashKeeps(env, pkg, services, origin, p);
    }
    if KeepsExternals(env, pkg, services, origin, p) {
      KeptMeansNoClash(env, pkg, services, origin, p);
    }
  }

  // ----- what every written reference means

  /** What stands under a name in the generated package: a copied type; or else a type
      of the package itself or, if the name is not in use, of the empty package. */
  predicate LocalMeans(env: Env, pkg: string, origin: Package, p: Package, short: string, t: string) {
    if short in p.copied && short !in origin.copied then p.copied[short] == t
    else env.parse(t).short == short && (env.parse(t).pkg == pkg || (env.parse(t).pkg == "" && short !in p.copied))
  }

  predicate Means(env: Env, pkg: string, origin: Package, p: Package, site: Site, w: Written, t: string) {
    match w
    case Qualified(q, short) => env.parse(t) == Name(q, short)
    case Fallback(_) => false
    case _ => LocalMeans(env, pkg, origin, p, LocalName(site, w).value, t)
  }

  /** A reference that resolves is written so that it means the type it resolves to. */
  predicate Kept(env: Env, pkg: string, origin: Package, p: Package, site: Site) {
    var r := env.resolve(site, pkg);
    r.Some? ==> Means(env, pkg, origin, p, site, Write(env, pkg, p.copied, site), r.value)
  }

  ghost predicate KeepsTypes(env: Env, pkg: string, services: seq<Service>, origin: Package, p: Package) {
    forall site :: site in Sites(p.messages, services) ==> Kept(env, pkg, origin, p, site)
  }

  /** When the reference is kept, by where its type belongs: an external type must have
      the name to itself, a type of the package must not have lost it to an external
      one, and of Google's or the empty package the name must not be in use at all; a
      type of Google's must not be written relative to the message either. */
  predicate KeptBy(env: Env, pkg: string, origin: Package, p: Package, site: Site, t: string) {
    var name := env.parse(t);
    if IsExternal(env, pkg, t) then StandsFor(env, origin, p, t)
    else if name.pkg == pkg then name.short in p.copied ==> name.short in origin.copied
    else name.short !in p.copied && (name.pkg != "" ==> !UnderParent(site, name.short))
  }

  /** Names are recorded for external types only. */
  lemma RecordedIsExternal(env: Env, pkg: string, services: seq<Service>, origin: Package, p: Package, short: string)
    requires Sound(env, pkg, services, origin, p) && short in p.copied && short !in origin.copied
    ensures IsExternal(env, pkg, p.copied[short])
  {
    assert RecordedFor(env, pkg, services, origin, p, short);
  }

  /** A reference is written with the short name of its type, or else in full. */
  lemma WriteForm(env: Env, pkg: string, copied: map<string, string>, site: Site, t: string)
    requires env.resolve(site, pkg) == Some(t)
    ensures var w, name := Write(env, pkg, copied, site), env.parse(t);
            if UnderParent(site, name.short) || name.pkg == pkg || name.pkg == "" || name.short in copied
            then (w.Local? || w.Relative?) && LocalName(site, w) == Some(name.short)
            else w == Qualified(name.pkg, name.short)
  {
    if UnderParent(site, env.parse(t).short) {
      RelativeName(site, env.parse(t).short);
    }
  }

  /** A reference that does not resolve is written as the last part of its trimmed
      name. */
  lemma UnresolvedIsLastPart(env: Env, pkg: string, copied: map<string, string>, site: Site)
    requires env.resolve(site, pkg) == None
    ensures var w, name := Write(env, pkg, copied, site), env.trim(site.ref);
            && w.Fallback? && '.' !in w.token
            && (w.token == name || exists qualifier :: name == qualifier + "." + w.token)
  {
    var token, name := Write(env, pkg, copied, site).token, env.trim(site.ref);
    if token != name {
      var k := |name| - |token| - 1;
      assert name == name[..k] + "." + token;
    }
  }

  lemma KeptIff(env: Env, pkg: string, services: seq<Service>, origin: Package, p: Package, site: Site, t: string)
    requires Sound(env, pkg, services, origin, p) && Closed(env, pkg, services, p)
    requires site in Sites(p.messages, services) && env.resolve(site, pkg) == Some(t)
    ensures Kept(env, pkg, origin, p, site) <==> KeptBy(env, pkg, origin, p, site, t)
  {
    var short := env.parse(t).short;
    WriteForm(env, pkg, p.copied, site, t);
    if short in p.copied && short !in origin.copied {
      RecordedIsExternal(env, pkg, services, origin, p, short);
    }
    if IsExternal(env, pkg, t) {
      var i :| 0 <= i < |Sites(p.messages, services)| && Sites(p.messages, services)[i] == site;
      assert External(env, pkg, site, t) && Wanted(env, pkg, services, p, t);
    }
  }

  // ----- the same condition on the input

  /** A reference of a reached message that is known. */
  ghost predicate SeenIn(env: Env, pkg: string, messages: seq<Message>, services: seq<Service>, site: Site, u: string) {
    && Reached(env, pkg, messages, services, u) && u in env.allMessages
    && site in MessageSites(env.allMessages[u], |env.allMessages[u].fields|)
  }

  /** The references of the original package and of the known messages reached from it. */
  ghost predicate Seen(env: Env, pkg: string, messages: seq<Message>, services: seq<Service>, site: Site) {
    site in Sites(messages, services) || exists u :: SeenIn(env, pkg, messages, services, site, u)
  }

  ghost predicate Taken(env: Env, pkg: string, messages: seq<Message>, services: seq<Service>, short: string) {
    exists u :: ReachedAs(env, pkg, messages, services, short, u)
  }

  /** A reference to a type that is not external, whose name no reached type takes. */
  ghost predicate Unmistakable(env: Env, pkg: string, messages: seq<Message>, enums: seq<Enum>, services: seq<Service>, site: Site) {
    match env.resolve(site, pkg)
    case None => true
    case Some(t) =>
      var name := env.parse(t);
      if IsExternal(env, pkg, t) then true
      else if name.pkg == pkg then Taken(env, pkg, messages, services, name.short) ==> NamedIn(messages, enums, name.short)
      else
        && !NamedIn(messages, enums, name.short) && !Taken(env, pkg, messages, services, name.short)
        && (name.pkg != "" ==> !UnderParent(site, name.short))
  }

  ghost predicate NoConfusion(env: Env, pkg: string, messages: seq<Message>, enums: seq<Enum>, services: seq<Service>) {
    && NoClash(env, pkg, messages, enums, services)
    && forall site :: Seen(env, pkg, messages, services, site) ==> Unmistakable(env, pkg, messages, enums, services, site)
  }

  /** The references of the result are among those. */
  lemma SiteIsSeen(env: Env, pkg: string, services: seq<Service>, origin: Package, p: Package, site: Site)
    requires Sound(env, pkg, services, origin, p) && site in Sites(p.messages, services)
    ensures Seen(env, pkg, origin.messages, services, site)
  {
    SiteOfMessage(p.messages, |p.messages|, site);
    SiteOfMessage(origin.messages, |origin.messages|, site);
    if j :| |origin.messages| <= j < |p.messages| && site in MessageSites(p.messages[j], |p.messages[j].fields|) {
      var short := p.messages[j].shortName;
      assert IsCopiedMessage(env, pkg, p, p.messages[j]) && RecordedFor(env, pkg, services, origin, p, short);
      var u := p.copied[short];
      SitesOfCopy(env.allMessages[u], pkg, |env.allMessages[u].fields|);
      assert SeenIn(env, pkg, origin.messages, services, site, u);
    } else if j :| 0 <= j < |p.messages| && site in MessageSites(p.messages[j], |p.messages[j].fields|) {
      assert origin.messages[j] == p.messages[j];
    }
  }

  lemma OriginalSiteStays(services: seq<Service>, origin: Package, p: Package, site: Site)
    requires origin.messages <= p.messages && site in Sites(origin.messages, services)
    ensures site in Sites(p.messages, services)
  {
    SiteOfMessage(p.messages, |p.messages|, site);
    SiteOfMessage(origin.messages, |origin.messages|, site);
    if j :| 0 <= j < |origin.messages| && site in MessageSites(origin.messages[j], |origin.messages[j].fields|) {
      assert p.messages[j] == origin.messages[j];
    }
  }

  lemma CopiedSiteIsThere(env: Env, pkg: string, services: seq<Service>, p: Package, site: Site, u: string)
    requires u in env.allMessages && Present(env, pkg, p, u)
    requires site in MessageSites(env.allMessages[u], |env.allMessages[u].fields|)
    ensures site in Sites(p.messages, services)
  {
    var m := env.allMessages[u];
    SitesOfCopy(m, pkg, |m.fields|);
    var j :| 0 <= j < |p.messages| && p.messages[j] == m.(pkg := pkg);
    SiteOfMessage(p.messages, |p.messages|, site);
  }

  /** They are all there if every external type has its name to itself. */
  lemma SeenIsThere(env: Env, pkg: string, services: seq<Service>, origin: Package, p: Package, site: Site)
    requires Sound(env, pkg, services, origin, p) && KeepsExternals(env, pkg, services, origin, p)
    requires Seen(env, pkg, origin.messages, services, site)
    ensures site in Sites(p.messages, services)
  {
    if u :| SeenIn(env, pkg, origin.messages, services, site, u) {
      ReachedStandsFor(env, pkg, services, origin, p, u);
      assert RecordedFor(env, pkg, services, origin, p, env.parse(u).short);
      CopiedSiteIsThere(env, pkg, services, p, site, u);
    } else {
      OriginalSiteStays(services, origin, p, site);
    }
  }

  /** With the external types kept, a name is in use if and only if it was there from
      the start or a reached type takes it. */
  lemma InUseIff(env: Env, pkg: string, services: seq<Service>, origin: Package, p: Package, short: string)
    requires OwnNames(origin) && Sound(env, pkg, services, origin, p) && KeepsExternals(env, pkg, services, origin, p)
    ensures short in p.copied <==> NamedIn(origin.messages, origin.enums, short) || Taken(env, pkg, origin.messages, services, short)
  {
    if u :| ReachedAs(env, pkg, origin.messages, services, short, u) {
      ReachedStandsFor(env, pkg, services, origin, p, u);
    }
    if short in p.copied && short !in origin.copied {
      assert RecordedFor(env, pkg, services, origin, p, short);
      assert ReachedAs(env, pkg, origin.messages, services, short, p.copied[short]);
    }
  }

  /** For a reference of the result to a type that is not external. */
  lemma KeptMeansUnmistakable(env: Env, pkg: string, services: seq<Service>, origin: Package, p: Package, site: Site)
    requires OwnNames(origin) && Sound(env, pkg, services, origin, p) && Closed(env, pkg, services, p)
    requires KeepsExternals(env, pkg, services, origin, p) && site in Sites(p.messages, services)
    ensures Kept(env, pkg, origin, p, site) <==> Unmistakable(env, pkg, origin.messages, origin.enums, services, site)
  {
    match env.resolve(site, pkg)
    case None =>
    case Some(t) =>
      KeptIff(env, pkg, services, origin, p, site, t);
      InUseIff(env, pkg, services, origin, p, env.parse(t).short);
      if IsExternal(env, pkg, t) {
        var i :| 0 <= i < |Sites(p.messages, services)| && Sites(p.messages, services)[i] == site;
        assert External(env, pkg, Sites(p.messages, services)[i], t) && Wanted(env, pkg, services, p, t);
      }
  }

  lemma KeptMeansExternalsKept(env: Env, pkg: string, services: seq<Service>, origin: Package, p: Package)
    requires Sound(env, pkg, services, origin, p) && Closed(env, pkg, services, p) && KeepsTypes(env, pkg, services, origin, p)
    ensures KeepsExternals(env, pkg, services, origin, p)
  {
    forall t | Wanted(env, pkg, services, p, t)
      ensures StandsFor(env, origin, p, t)
    {
      var i :| 0 <= i < |Sites(p.messages, services)| && External(env, pkg, Sites(p.messages, services)[i], t);
      var site := Sites(p.messages, services)[i];
      assert site in Sites(p.messages, services);
      KeptIff(env, pkg, services, origin, p, site, t);
    }
  }

  /** Every reference of a closed result that resolves, to whatever package, is written
      so that it means its type if and only if nothing is confused, which depends on
      the input alone: no two reached types share a short name and none has that of
      an original type; no reference goes to a type of Google's or of the empty package
      with a short name of an original or a reached type, nor to one of Google's nested
      under the name of the message; and none to a type of the package itself that
      was not extracted and shares its short name with a reached type. */
  lemma KeepsTypesIff(env: Env, pkg: string, services: seq<Service>, origin: Package, p: Package)
    requires OwnNames(origin) && Sound(env, pkg, services, origin, p) && Closed(env, pkg, services, p)
    ensures KeepsTypes(env, pkg, services, origin, p) <==> NoConfusion(env, pkg, origin.messages, origin.enums, services)
  {
    KeepsExternalsIff(env, pkg, services, origin, p);
    if NoConfusion(env, pkg, origin.messages, origin.enums, services) {
      forall site | site in Sites(p.messages, services)
        ensures Kept(env, pkg, origin, p, site)
      {
        SiteIsSeen(env, pkg, services, origin, p, site);
        KeptMeansUnmistakable(env, pkg, services, origin, p, site);
      }
    }
    if KeepsTypes(env, pkg, services, origin, p) {
      KeptMeansExternalsKept(env, pkg, services, origin, p);
      forall site | Seen(env, pkg, origin.messages, services, site)
        ensures Unmistakable(env, pkg, origin.messages, origin.enums, services, site)
      {
        SeenIsThere(env, pkg, services, origin, p, site);
        KeptMeansUnmistakable(env, pkg, services, origin, p, site);
      }
    }
  }

  /** When the local name written for an external type is defined in the package: for
      certain if it was there from the start or all reached types of that name are
      known; only if it was there from the start if none is. With some known and some
      not, the type that is visited first decides. */
  lemma LocalNameIsDefined(env: Env, pkg: string, services: seq<Service>, origin: Package, p: Package, t: string)
    requires EnvOk(env) && OwnNames(origin) && Sound(env, pkg, services, origin, p) && Closed(env, pkg, services, p)
    requires Wanted(env, pkg, services, p, t)
    ensures var short := env.parse(t).short;
            var defined := NamedIn(p.messages, p.enums, short);
            && short in p.copied
            && (defined <==> NamedIn(origin.messages, origin.enums, short) || Known(env, p.copied[short]))
            && ((forall u :: ReachedAs(env, pkg, origin.messages, services, short, u) ==> Known(env, u)) ==> defined)
            && ((forall u :: ReachedAs(env, pkg, origin.messages, services, short, u) ==> !Known(env, u)) ==>
                  (defined <==> NamedIn(origin.messages, origin.enums, short)))
    ensures NoClash(env, pkg, origin.messages, origin.enums, services) ==>
              (NamedIn(p.messages, p.enums, env.parse(t).short) <==> Known(env, t))
  {
    var short := env.parse(t).short;
    NamedIff(env, pkg, services, origin, p, short);
    WantedIsReached(env, pkg, services, origin, p, t);
    if short !in origin.copied {
      assert RecordedFor(env, pkg, services, origin, p, short);
      assert ReachedAs(env, pkg, origin.messages, services, short, p.copied[short]);
    }
  }

  /** For a name of types that the original package refers to itself, those alone
      decide: if they are known the name is defined, whatever other types of that name
      are reached; if none of them is, only if it was there from the start. */
  lemma DirectTypesDecide(env: Env, pkg: string, services: seq<Service>, origin: Package, p: Package, t: string)
    requires EnvOk(env) && OwnNames(origin) && Sound(env, pkg, services, origin, p) && DirectFirst(env, pkg, services, origin, p)
    requires Direct(env, pkg, services, origin, t)
    ensures var short := env.parse(t).short;
            var defined := NamedIn(p.messages, p.enums, short);
            && ((forall u :: Direct(env, pkg, services, origin, u) && env.parse(u).short == short ==> Known(env, u)) ==> defined)
            && ((forall u :: Direct(env, pkg, services, origin, u) && env.parse(u).short == short ==> !Known(env, u)) ==>
                  (defined <==> NamedIn(origin.messages, origin.enums, short)))
  {
    var short := env.parse(t).short;
    NamedIff(env, pkg, services, origin, p, short);
    if short !in origin.copied {
      assert RecordedFor(env, pkg, services, origin, p, short);
    }
  }

  // ----- packages in which a type is lost

  /** A package with one message that refers to two types by their full names. */
  function User(first: string, second: string): Message {
    Message("a.User", "User", "a", 0, 0, [Named(MessageKind, first), Named(MessageKind, second)])
  }

  function FieldOf(t: string): Site {
    Site(t, 0, 0, MessageKind, "User")
  }

  function Users(first: string, second: string): Package {
    Package([User(first, second)], [], map["User" := "local:a.User"])
  }

  /** A message without fields. */
  function Leaf(t: string, name: Name): Message {
    Message(t, name.short, name.pkg, 0, 0, [])
  }

  /** References are full names, and these messages are known. */
  function ByName(messages: map<string, Message>): Env {
    Env((site: Site, pkg: string) => Some(site.ref), ParseName, (s: string) => s, messages, map[])
  }

  function ParseName(t: string): Name {
    if t == "a.X" then Name("a", "X")
    else if t == "b.X" then Name("b", "X")
    else if t == "c.X" then Name("c", "X")
    else if t == "b.Timestamp" then Name("b", "Timestamp")
    else if t == "google.protobuf.Timestamp" then Name("google.protobuf", "Timestamp")
    else if t == RANGE then Name("google.protobuf", "DescriptorProto.ExtensionRange")
    else Name("", t)
  }

  /** What is left after the first type was visited: it took its short name. */
  function AfterFirst(first: string, second: string, known: bool): Package {
    var name := ParseName(first);
    var user := User(first, second);
    Package(if known then [user, Leaf(first, name).(pkg := "a")] else [user], [],
            map["User" := "local:a.User", name.short := first])
  }

  lemma SitesOfUser(first: string, second: string, more: seq<Message>)
    requires more == [] || exists t, name :: more == [Leaf(t, name)]
    ensures Sites([User(first, second)] + more, []) == [FieldOf(first), FieldOf(second)]
  {
    var user := User(first, second);
    var all := [user] + more;
    assert MessageSites(user, 1) == MessageSites(user, 0) + [FieldOf(first)] == [FieldOf(first)];
    assert MessageSites(user, 2) == MessageSites(user, 1) + [FieldOf(second)];
    assert all[0] == user && MessagesSites(all, 1) == MessagesSites(all, 0) + MessageSites(user, 2);
    if more != [] {
      assert all[1].fields == [];
      assert MessagesSites(all, 2) == MessagesSites(all, 1) + MessageSites(all[1], 0);
    }
  }

  lemma WantedByUser(env: Env, p: Package, first: string, second: string, more: seq<Message>, t: string)
    requires env == ByName(env.allMessages) && p.messages == [User(first, second)] + more
    requires more == [] || exists t, name :: more == [Leaf(t, name)]
    ensures Wanted(env, "a", [], p, t) <==> IsExternal(env, "a", t) && (t == first || t == second)
  {
    SitesOfUser(first, second, more);
    var sites := Sites(p.messages, []);
    assert sites[0] == FieldOf(first) && sites[1] == FieldOf(second);
    assert External(env, "a", sites[0], first) == IsExternal(env, "a", first);
    assert External(env, "a", sites[1], second) == IsExternal(env, "a", second);
  }

  lemma UsersIsSound(env: Env, first: string, second: string)
    ensures OwnNames(Users(first, second)) && Sound(env, "a", [], Users(first, second), Users(first, second))
  {
    assert Users(first, second).messages[0].shortName == "User";
  }

  /** The two types have one short name, which is not that of the message, and the
      first is external. */
  ghost predicate OneName(env: Env, first: string, second: string) {
    && env == ByName(env.allMessages)
    && (first in env.allMessages ==> env.allMessages[first] == Leaf(first, ParseName(first)))
    && ParseName(first).short == ParseName(second).short != "User" && IsExternal(env, "a", first)
  }

  function Added(first: string, known: bool): seq<Message> {
    if known then [Leaf(first, Name("a", ParseName(first).short))] else []
  }

  lemma FirstTakesTheName(env: Env, first: string, second: string)
    requires OneName(env, first, second)
    ensures var p := AfterFirst(first, second, first in env.allMessages);
            && CopyType(env, "a", Users(first, second), first) == p && CopyType(env, "a", p, second) == p
            && p.messages == [User(first, second)] + Added(first, first in env.allMessages)
  {
  }

  lemma WantedAfterFirst(env: Env, first: string, second: string)
    requires OneName(env, first, second)
    ensures var p := AfterFirst(first, second, first in env.allMessages);
            && FieldOf(first) in Sites(p.messages, []) && FieldOf(second) in Sites(p.messages, [])
            && forall t :: Wanted(env, "a", [], p, t) <==> IsExternal(env, "a", t) && (t == first || t == second)
  {
    var p := AfterFirst(first, second, first in env.allMessages);
    var more := Added(first, first in env.allMessages);
    FirstTakesTheName(env, first, second);
    SitesOfUser(first, second, more);
    assert [FieldOf(first), FieldOf(second)][0] == FieldOf(first) && [FieldOf(first), FieldOf(second)][1] == FieldOf(second);
    forall t
      ensures Wanted(env, "a", [], p, t) <==> IsExternal(env, "a", t) && (t == first || t == second)
    {
      WantedByUser(env, p, first, second, more, t);
    }
  }

  lemma FirstTypeWins(env: Env, first: string, second: string)
    requires OneName(env, first, second) && EnvOk(env)
    ensures var origin, p := Users(first, second), AfterFirst(first, second, first in env.allMessages);
            && OwnNames(origin) && Sound(env, "a", [], origin, p) && Closed(env, "a", [], p)
  {
    var origin := Users(first, second);
    FirstTakesTheName(env, first, second);
    UsersIsSound(env, first, second);
    WantedByUser(env, origin, first, second, [], first);
    CopyIsSound(env, "a", [], origin, origin, first);
    WantedAfterFirst(env, first, second);
  }

  /** After the types were visited in this order, the package is sound and closed, both
      references are written with the one name, and that means the first type. */
  ghost predicate IsLost(env: Env, first: string, second: string) {
    var origin, short := Users(first, second), ParseName(first).short;
    var p := CopyType(env, "a", CopyType(env, "a", origin, first), second);
    && EnvOk(env) && OwnNames(origin) && Sound(env, "a", [], origin, p) && Closed(env, "a", [], p)
    && short in p.copied && p.copied[short] == first != second
    && Write(env, "a", p.copied, FieldOf(first)) == Write(env, "a", p.copied, FieldOf(second)) == Local(short)
    && !Kept(env, "a", origin, p, FieldOf(second)) && !KeepsTypes(env, "a", [], origin, p)
  }

  lemma SecondIsLost(env: Env, first: string, second: string)
    requires OneName(env, first, second) && EnvOk(env) && first != second && !UnderParent(FieldOf(second), ParseName(second).short)
    ensures IsLost(env, first, second)
  {
    FirstTakesTheName(env, first, second);
    FirstTypeWins(env, first, second);
    WantedAfterFirst(env, first, second);
  }

  /** If the second type is not external, the external types do not clash. */
  lemma LostWithoutClash(env: Env, first: string, second: string)
    requires OneName(env, first, second) && EnvOk(env) && !IsExternal(env, "a", second)
    ensures NoClash(env, "a", Users(first, second).messages, [], [])
  {
    FirstTypeWins(env, first, second);
    WantedAfterFirst(env, first, second);
    KeepsExternalsIff(env, "a", [], Users(first, second), AfterFirst(first, second, first in env.allMessages));
  }

  const BOTH := ByName(map["b.X" := Leaf("b.X", Name("b", "X")), "c.X" := Leaf("c.X", Name("c", "X"))])
  const SECOND := ByName(map["c.X" := Leaf("c.X", Name("c", "X"))])
  const STAMP := ByName(map["b.Timestamp" := Leaf("b.Timestamp", Name("b", "Timestamp"))])

  lemma StampClashes()
    ensures OneName(STAMP, "b.Timestamp", "google.protobuf.Timestamp") && EnvOk(STAMP)
    ensures !IsExternal(STAMP, "a", "google.protobuf.Timestamp")
    ensures !UnderParent(FieldOf("google.protobuf.Timestamp"), ParseName("google.protobuf.Timestamp").short)
  {
    assert ("User" + ".")[0] == 'U' && "Timestamp"[0] == 'T';
  }

  lemma XClashes()
    ensures OneName(BOTH, "b.X", "a.X") && OneName(BOTH, "b.X", "c.X") && EnvOk(BOTH) && !IsExternal(BOTH, "a", "a.X")
  {
  }

  /** Two external types: the first one is copied, and the reference to the second is
      written with the name of the first. */
  lemma SecondTypeIsLost()
    ensures IsLost(BOTH, "b.X", "c.X")
  {
    XClashes();
    SecondIsLost(BOTH, "b.X", "c.X");
  }

  /** An external type and one of Google's, with no clash of external types: the
      reference to Google's is written with the name of the copy. */
  lemma GoogleTypeIsLost()
    ensures IsLost(STAMP, "b.Timestamp", "google.protobuf.Timestamp")
    ensures NoClash(STAMP, "a", Users("b.Timestamp", "google.protobuf.Timestamp").messages, [], [])
  {
    StampClashes();
    SecondIsLost(STAMP, "b.Timestamp", "google.protobuf.Timestamp");
    LostWithoutClash(STAMP, "b.Timestamp", "google.protobuf.Timestamp");
  }

  /** An external type and one of the package itself that was not extracted. */
  lemma OwnTypeIsLost()
    ensures IsLost(BOTH, "b.X", "a.X") && NoClash(BOTH, "a", Users("b.X", "a.X").messages, [], [])
  {
    XClashes();
    SecondIsLost(BOTH, "b.X", "a.X");
    LostWithoutClash(BOTH, "b.X", "a.X");
  }

  /** A message with the name of one of Google's that refers to a type nested there. */
  const RANGE := "google.protobuf.DescriptorProto.ExtensionRange"
  const NESTED := Site(RANGE, 0, 0, MessageKind, "DescriptorProto")
  const DESCRIPTOR := Package(
    [Message("a.DescriptorProto", "DescriptorProto", "a", 0, 0, [Named(MessageKind, RANGE)])], [],
    map["DescriptorProto" := "local:a.DescriptorProto"])

  lemma NestedIsRelative(env: Env)
    requires env == ByName(env.allMessages)
    ensures Write(env, "a", DESCRIPTOR.copied, NESTED) == Relative("ExtensionRange")
    ensures !Kept(env, "a", DESCRIPTOR, DESCRIPTOR, NESTED) && !IsExternal(env, "a", RANGE)
  {
    var short := "DescriptorProto.ExtensionRange";
    assert ParseName(RANGE) == Name("google.protobuf", short);
    assert short == "DescriptorProto" + "." + "ExtensionRange";
    assert short[|"DescriptorProto"| + 1..] == "ExtensionRange";
  }

  lemma DescriptorSites()
    ensures Sites(DESCRIPTOR.messages, []) == [NESTED]
  {
    var m := DESCRIPTOR.messages[0];
    assert MessageSites(m, 1) == MessageSites(m, 0) + [NESTED] == [NESTED];
    assert MessagesSites(DESCRIPTOR.messages, 1) == MessagesSites(DESCRIPTOR.messages, 0) + MessageSites(m, 1);
  }

  /** A type of Google's nested under the name of the message is written relative to
      the message, although nothing is copied at all. */
  lemma NestedGoogleTypeIsLost(env: Env)
    requires env == ByName(env.allMessages)
    ensures OwnNames(DESCRIPTOR) && Sound(env, "a", [], DESCRIPTOR, DESCRIPTOR) && Closed(env, "a", [], DESCRIPTOR)
    ensures NoClash(env, "a", DESCRIPTOR.messages, [], []) && !KeepsTypes(env, "a", [], DESCRIPTOR, DESCRIPTOR)
    ensures Write(env, "a", DESCRIPTOR.copied, NESTED) == Relative("ExtensionRange")
  {
    NestedIsRelative(env);
    DescriptorSites();
    assert NESTED in Sites(DESCRIPTOR.messages, []);
    assert DESCRIPTOR.messages[0].shortName == "DescriptorProto";
    assert forall t :: !Wanted(env, "a", [], DESCRIPTOR, t);
    KeepsExternalsIff(env, "a", [], DESCRIPTOR, DESCRIPTOR);
  }

  /** Two external types of which the first is unknown: its name is taken all the same,
      so that the second is not copied although it is known, and nothing is named X. */
  lemma KnownTypeIsUndefined()
    ensures IsLost(SECOND, "b.X", "c.X") && Known(SECOND, "c.X")
    ensures var p := CopyType(SECOND, "a", CopyType(SECOND, "a", Users("b.X", "c.X"), "b.X"), "c.X");
            !NamedIn(p.messages, p.enums, "X")
  {
    SecondIsLost(SECOND, "b.X", "c.X");
    FirstTakesTheName(SECOND, "b.X", "c.X");
  }
}
