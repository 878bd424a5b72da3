/**
 * Explicit route registration (project/Main/Core/Route.php).
 *
 * Routes are declared with get/post/put/delete/head/patch/any or match, and
 * may be nested in groups. A group pushes its middleware list, namespace,
 * url prefix, alias prefix and domain onto five parallel stacks, runs its
 * callback, and pops the stacks again. Each declaration folds the stacks into
 * one route entry: url, methods, middleware, domain, alias and what it runs.
 * A group's callback is modelled as the list of declarations it makes; the
 * current host is a parameter.
 */
module Routing {
  import opened Wrappers
  import opened PhpStrings
  import opened PhpArray

  // ---------------------------------------------------------------- actions

  /** What a route runs: a closure (by identity) or a 'Controller@method' name. */
  datatype Uses = ClosureUses(id: nat) | NameUses(name: string)

  /** The 'uses' entry of an array action: a closure, a string, or anything else (missing, null or another type). */
  datatype ArrayUses = UsesClosure(id: nat) | UsesString(s: string) | UsesOther

  /** The action argument of a route declaration; None is a key that is missing or null. */
  datatype Action =
    | ClosureAction(id: nat)
    | StringAction(s: string)
    | ArrayAction(uses: ArrayUses, middleware: Option<seq<string>>, namespace: Option<string>,
                  prefix: Option<string>, alias: Option<string>, domain: Option<string>)
    | OtherAction

  /** formatAction's result: the normalised action, or the empty array. */
  datatype ActionInfo =
    | Info(middleware: seq<string>, namespace: string, prefix: string, alias: string, domain: string, uses: Uses)
    | NoInfo

  /** isset($a[$k]) ? $a[$k] : default */
  function OrDefault<T>(o: Option<T>, fallback: T): T {
    if o.Some? then o.value else fallback
  }

  /** A class path written with '/' or '\', as a namespace-qualified name: trim(str_replace('/', '\', s), '\'). */
  function NormalizeName(s: string): (r: string)
    ensures '/' !in r
    ensures r == [] || (r[0] != '\\' && r[|r| - 1] != '\\')
    ensures var t := seq(|s|, i requires 0 <= i < |s| => if s[i] == '/' then '\\' else s[i]);
      exists i, j ::
        (&& 0 <= i <= j <= |t| && r == t[i..j]
         && (forall m :: 0 <= m < i ==> t[m] == '\\') && (forall m :: j <= m < |t| ==> t[m] == '\\'))
  {
    var t := ReplaceAll(s, "/", "\\");
    ReplaceCharEverywhere(s, '/', '\\');
    TrimIsSlice(t, {'\\'});
    ReplaceCharRemoves(s, '/', '\\');
    TrimKeepsAbsent(t, {'\\'}, '/');
    TrimmedEnds(t, {'\\'});
    var r := Trim(t, {'\\'});
    r
  }

  /** Normalising a normalised name changes nothing. */
  lemma NormalizeNameIdempotent(s: string)
    ensures NormalizeName(NormalizeName(s)) == NormalizeName(s)
  {
    var r := NormalizeName(s);
    ReplaceCharEverywhere(r, '/', '\\');
    assert ReplaceAll(r, "/", "\\") == r;
    LTrimOfClean(r, {'\\'});
    RTrimOfClean(r, {'\\'});
  }

  /**
   * formatAction: closures and strings get every key defaulted; a string is
   * normalised; an array keeps what it sets, except that a closure array
   * ignores its namespace and prefix; an array whose uses is neither a
   * closure nor a string, and any other value, gives the empty array.
   */
  function FormatAction(action: Action): (r: ActionInfo)
    ensures r.NoInfo? <==> action.OtherAction? || (action.ArrayAction? && action.uses.UsesOther?)
    ensures action.ClosureAction? ==> r == Info([], "", "", "", "", ClosureUses(action.id))
    ensures action.StringAction? ==> r == Info([], "", "", "", "", NameUses(NormalizeName(action.s)))
    ensures r.Info? && r.uses.NameUses? ==> '/' !in r.uses.name
    ensures action.ArrayAction? && r.Info? ==>
      r.middleware == OrDefault(action.middleware, []) && r.alias == OrDefault(action.alias, "")
      && r.domain == OrDefault(action.domain, "")
    ensures action.ArrayAction? && action.uses.UsesClosure? ==>
      r.Info? && r.uses == ClosureUses(action.uses.id) && r.namespace == "" && r.prefix == ""
    ensures action.ArrayAction? && action.uses.UsesString? ==>
      r.Info? && r.uses == NameUses(NormalizeName(action.uses.s))
      && r.namespace == OrDefault(action.namespace, "") && r.prefix == OrDefault(action.prefix, "")
  {
    match action
    case ArrayAction(uses, middleware, namespace, prefix, alias, domain) =>
      (match uses
       case UsesClosure(id) =>
         Info(OrDefault(middleware, []), "", "", OrDefault(alias, ""), OrDefault(domain, ""), ClosureUses(id))
       case UsesString(s) =>
         Info(OrDefault(middleware, []), OrDefault(namespace, ""), OrDefault(prefix, ""), OrDefault(alias, ""),
              OrDefault(domain, ""), NameUses(NormalizeName(s)))
       case UsesOther => NoInfo)
    case ClosureAction(id) => Info([], "", "", "", "", ClosureUses(id))
    case StringAction(s) => Info([], "", "", "", "", NameUses(NormalizeName(s)))
    case OtherAction => NoInfo
  }

  // ---------------------------------------------------------------- group stacks

  /** A group's rule; None is a key the rule does not set. */
  datatype GroupRule = GroupRule(middleware: Option<seq<string>>, namespace: Option<string>,
                                 prefix: Option<string>, alias: Option<string>, domain: Option<string>)

  /** The five group stacks, outermost group first. */
  datatype Groups = Groups(middleware: seq<seq<string>>, namespace: seq<string>, prefix: seq<string>,
                           alias: seq<string>, domain: seq<string>)

  const NoGroups: Groups := Groups([], [], [], [], [])

  /** Entering a group: one entry pushed on each stack, defaulted when the rule lacks it. */
  function Push(g: Groups, rule: GroupRule): Groups {
    Groups(g.middleware + [OrDefault(rule.middleware, [])], g.namespace + [OrDefault(rule.namespace, "")],
           g.prefix + [OrDefault(rule.prefix, "")], g.alias + [OrDefault(rule.alias, "")],
           g.domain + [OrDefault(rule.domain, "")])
  }

  /** The contributions of a stack's entries, concatenated from the outermost. */
  function Gather<T, U>(xs: seq<T>, part: T -> seq<U>): seq<U> {
    if xs == [] then [] else Gather(xs[..|xs| - 1], part) + part(xs[|xs| - 1])
  }

  /** A url or alias prefix: empty ones ('' and '0') are skipped. */
  function PrefixPart(x: string): string {
    if Truthy(x) then x else ""
  }

  /** A namespace: skipped when empty, else normalised and followed by a backslash. */
  function NamespacePart(x: string): string {
    if Truthy(x) then NormalizeName(x) + "\\" else ""
  }

  /** The middleware lists of a stack merged from the outermost (array_merge, one list after another). */
  function Flatten(xss: seq<seq<string>>): seq<string> {
    if xss == [] then [] else Flatten(xss[..|xss| - 1]) + xss[|xss| - 1]
  }

  /** The index of the last non-empty entry of a stack, if there is one. */
  function LastTruthyIndex(xs: seq<string>): (r: Option<nat>)
    ensures r.Some? ==> r.value < |xs| && Truthy(xs[r.value]) && forall j :: r.value < j < |xs| ==> !Truthy(xs[j])
    ensures r.None? ==> forall j :: 0 <= j < |xs| ==> !Truthy(xs[j])
  {
    if xs == [] then None
    else if Truthy(xs[|xs| - 1]) then Some(|xs| - 1)
    else LastTruthyIndex(xs[..|xs| - 1])
  }

  /** The last non-empty entry of a stack, or the default when there is none. */
  function LastTruthy(xs: seq<string>, fallback: string): string {
    match LastTruthyIndex(xs)
    case Some(i) => xs[i]
    case None => fallback
  }

  // ---------------------------------------------------------------- route entries

  /** One entry of routeRule; None is PHP's null. */
  datatype RouteEntry = RouteEntry(url: string, methods: seq<string>, middleware: Option<seq<string>>,
                                   domain: string, alias: string, uses: Option<Uses>)

  /** The uses match records: a closure is kept; otherwise a name gets the group namespaces, and with no group it is lost. */
  function UsesFor(namespace: seq<string>, info: ActionInfo): Option<Uses> {
    if info.Info? && info.uses.ClosureUses? then Some(info.uses)
    else if namespace != [] then
      Some(NameUses(Gather(namespace, NamespacePart) + (if info.Info? then info.uses.name else "")))
    else None
  }

  /** The middleware match records: empty with no group, else the group lists and the action's own (null for a non-array action). */
  function MiddlewareFor(middleware: seq<seq<string>>, info: ActionInfo): Option<seq<string>> {
    if middleware == [] then Some([])
    else if info.Info? then Some(Flatten(middleware) + info.middleware)
    else None
  }

  /** The domain match records: the action's when non-empty, else the last non-empty group domain, else the host. */
  function DomainFor(domain: seq<string>, info: ActionInfo, host: string): string {
    if info.Info? && Truthy(info.domain) then info.domain else LastTruthy(domain, host)
  }

  /** What match registers for a declaration made inside the groups g. */
  function RouteFor(g: Groups, methods: seq<string>, url: string, action: Action, host: string): RouteEntry {
    var info := FormatAction(action);
    RouteEntry(
      Gather(g.prefix, PrefixPart) + url,
      methods,
      MiddlewareFor(g.middleware, info),
      DomainFor(g.domain, info, host),
      Gather(g.alias, PrefixPart) + (if info.Info? then info.alias else ""),
      UsesFor(g.namespace, info))
  }

  /** A group's callback: the declarations it makes, in order. */
  datatype Decl =
    | RouteDecl(methods: seq<string>, url: string, action: Action)
    | GroupDecl(rule: GroupRule, body: seq<Decl>)

  /** The entries a list of declarations registers inside the groups g. */
  function Entries(g: Groups, decls: seq<Decl>, host: string): seq<RouteEntry>
    decreases decls
  {
    if decls == [] then []
    else
      Entries(g, decls[..|decls| - 1], host) + DeclEntries(g, decls[|decls| - 1], host)
  }

  /** The entries one declaration registers inside the groups g. */
  function DeclEntries(g: Groups, d: Decl, host: string): seq<RouteEntry>
    decreases d
  {
    match d
    case RouteDecl(methods, url, action) => [RouteFor(g, methods, url, action, host)]
    case GroupDecl(rule, body) => Entries(Push(g, rule), body, host)
  }

  /** One more declaration adds its own entries after those of the earlier ones. */
  lemma EntriesSnoc(g: Groups, decls: seq<Decl>, i: nat, host: string)
    requires i < |decls|
    ensures Entries(g, decls[..i + 1], host) == Entries(g, decls[..i], host) + DeclEntries(g, decls[i], host)
  {
    assert decls[..i + 1][..i] == decls[..i];
  }

  /** The number of route declarations, nested ones included. */
  function RouteCount(decls: seq<Decl>): nat
    decreases decls
  {
    if decls == [] then 0
    else
      RouteCount(decls[..|decls| - 1]) +
      (match decls[|decls| - 1]
       case RouteDecl(_, _, _) => 1
       case GroupDecl(_, body) => RouteCount(body))
  }

  /** Every declaration registers exactly one entry, however deeply it is nested. */
  lemma {:induction false} EntriesCount(g: Groups, decls: seq<Decl>, host: string)
    ensures |Entries(g, decls, host)| == RouteCount(decls)
    decreases decls
  {
    if decls != [] {
      EntriesCount(g, decls[..|decls| - 1], host);
      match decls[|decls| - 1]
      case RouteDecl(_, _, _) =>
      case GroupDecl(rule, body) => EntriesCount(Push(g, rule), body, host);
    }
  }

  /**
   * Outside any group the url and alias are the declaration's own, a string
   * uses is lost (left null), the action's middleware is dropped, and the
   * domain is the action's or else the current host.
   */
  lemma OutsideGroups(methods: seq<string>, url: string, action: Action, host: string)
    ensures var e := RouteFor(NoGroups, methods, url, action, host);
      var info := FormatAction(action);
      && e.url == url
      && e.middleware == Some([])
      && (e.uses.Some? <==> info.Info? && info.uses.ClosureUses?)
      && e.alias == (if info.Info? then info.alias else "")
      && e.domain == (if info.Info? && Truthy(info.domain) then info.domain else host)
  {
  }

  /**
   * Inside a group: the url and alias get the prefixes of the enclosing
   * groups with the new group's innermost; middleware lists come outermost
   * first and then the action's own; a name gets every enclosing namespace.
   */
  lemma InsideGroup(g: Groups, rule: GroupRule, methods: seq<string>, url: string, action: Action, host: string)
    requires FormatAction(action).Info?
    ensures var e := RouteFor(Push(g, rule), methods, url, action, host);
      var info := FormatAction(action);
      && e.url == Gather(g.prefix, PrefixPart) + PrefixPart(OrDefault(rule.prefix, "")) + url
      && e.alias == Gather(g.alias, PrefixPart) + PrefixPart(OrDefault(rule.alias, "")) + info.alias
      && e.middleware == Some(Flatten(g.middleware) + OrDefault(rule.middleware, []) + info.middleware)
      && (info.uses.NameUses? ==>
            e.uses == Some(NameUses(Gather(g.namespace, NamespacePart) + NamespacePart(OrDefault(rule.namespace, ""))
                                    + info.uses.name)))
  {
    var h := Push(g, rule);
    assert h.prefix[..|h.prefix| - 1] == g.prefix;
    assert h.alias[..|h.alias| - 1] == g.alias;
    assert h.middleware[..|h.middleware| - 1] == g.middleware;
    assert h.namespace[..|h.namespace| - 1] == g.namespace;
  }

  /** The domain: the action's when non-empty, else the innermost non-empty group domain, else the host. */
  lemma DomainPrecedence(g: Groups, methods: seq<string>, url: string, action: Action, host: string)
    ensures var e := RouteFor(g, methods, url, action, host);
      var info := FormatAction(action);
      && (info.Info? && Truthy(info.domain) ==> e.domain == info.domain)
      && (!(info.Info? && Truthy(info.domain)) && (forall i :: 0 <= i < |g.domain| ==> !Truthy(g.domain[i])) ==>
            e.domain == host)
      && (!(info.Info? && Truthy(info.domain)) && (exists i :: 0 <= i < |g.domain| && Truthy(g.domain[i])) ==>
            exists i :: 0 <= i < |g.domain| && g.domain[i] == e.domain && Truthy(e.domain)
              && forall j :: i < j < |g.domain| ==> !Truthy(g.domain[j]))
  {
    var r := LastTruthyIndex(g.domain);
    if r.None? {
      assert forall i :: 0 <= i < |g.domain| ==> !Truthy(g.domain[i]);
    }
  }

  // ---------------------------------------------------------------- the folds of match

  /** match's prefix and alias loops. */
  method ConcatNonEmpty(xs: seq<string>) returns (s: string)
    ensures s == Gather(xs, PrefixPart)
  {
    s := "";
    var i := 0;
    while i < |xs|
      invariant 0 <= i <= |xs|
      invariant s == Gather(xs[..i], PrefixPart)
    {
      assert xs[..i + 1][..i] == xs[..i];
      var v := xs[i];
      if Truthy(v) {
        s := s + v;
      }
      i := i + 1;
    }
    assert xs[..i] == xs;
  }

  /** match's namespace loop. */
  method NamespacePrefix(xs: seq<string>) returns (s: string)
    ensures s == Gather(xs, NamespacePart)
  {
    s := "";
    var i := 0;
    while i < |xs|
      invariant 0 <= i <= |xs|
      invariant s == Gather(xs[..i], NamespacePart)
    {
      assert xs[..i + 1][..i] == xs[..i];
      var v := xs[i];
      if Truthy(v) {
        s := s + (Trim(ReplaceAll(v, "/", "\\"), {'\\'}) + "\\");
      }
      i := i + 1;
    }
    assert xs[..i] == xs;
  }

  /** match's domain loop: the last non-empty group domain wins over the host. */
  method LastNonEmpty(xs: seq<string>, host: string) returns (d: string)
    ensures d == LastTruthy(xs, host)
  {
    d := host;
    var i := 0;
    while i < |xs|
      invariant 0 <= i <= |xs|
      invariant d == LastTruthy(xs[..i], host)
    {
      assert xs[..i + 1][..i] == xs[..i];
      if Truthy(xs[i]) {
        d := xs[i];
      }
      i := i + 1;
    }
    assert xs[..i] == xs;
  }

  /** match's middleware loop: array_merge of the group lists, empty ones skipped. */
  method MergeMiddleware(xss: seq<seq<string>>) returns (m: seq<string>)
    ensures m == Flatten(xss)
  {
    m := [];
    var i := 0;
    while i < |xss|
      invariant 0 <= i <= |xss|
      invariant m == Flatten(xss[..i])
    {
      assert xss[..i + 1][..i] == xss[..i];
      if xss[i] != [] {
        m := m + xss[i];
      }
      i := i + 1;
    }
    assert xss[..i] == xss;
  }

  /** match's uses branch. */
  method MatchUses(namespace: seq<string>, info: ActionInfo) returns (uses: Option<Uses>)
    ensures uses == UsesFor(namespace, info)
  {
    uses := None;
    if info.Info? && info.uses.ClosureUses? {
      uses := Some(info.uses);
    } else if namespace != [] {
      var prefix := NamespacePrefix(namespace);
      uses := Some(NameUses(prefix + (if info.Info? then info.uses.name else "")));
    }
  }

  /** match's domain branch. */
  method MatchDomain(domain: seq<string>, info: ActionInfo, host: string) returns (d: string)
    ensures d == DomainFor(domain, info, host)
  {
    d := host;
    if info.Info? && Truthy(info.domain) {
      d := info.domain;
    } else if domain != [] {
      d := LastNonEmpty(domain, host);
    }
  }

  /** match's middleware branch: array_merge with a non-array action's null middleware gives null. */
  method MatchMiddleware(middleware: seq<seq<string>>, info: ActionInfo) returns (m: Option<seq<string>>)
    ensures m == MiddlewareFor(middleware, info)
  {
    m := Some([]);
    if middleware != [] {
      var merged := MergeMiddleware(middleware);
      m := if info.Info? then Some(merged + info.middleware) else None;
    }
  }

  // ---------------------------------------------------------------- paramAnalysis

  /** paramAnalysis's result: the request object alone, or the named arguments (None is null). */
  datatype Params = RequestOnly | Named(args: OrderedMap<Option<string>>)

  /** The argument for parameter k: the (k+1)-th match, null when missing or empty, else without leading '/'. */
  function ArgumentFor(arguments: seq<string>, k: nat): Option<string> {
    if k + 1 < |arguments| && arguments[k + 1] != "" then Some(LTrim(arguments[k + 1], {'/'})) else None
  }

  /** The named arguments for the first |parameters| parameters. */
  function NamedArguments(parameters: seq<string>, arguments: seq<string>): OrderedMap<Option<string>> {
    if parameters == [] then []
    else
      var k := |parameters| - 1;
      Put(NamedArguments(parameters[..k], arguments), parameters[k], ArgumentFor(arguments, k))
  }

  /** Parameter names as PHP's formal parameters are: each one once. */
  ghost predicate Distinct(names: seq<string>) {
    forall a, b :: 0 <= a < b < |names| ==> names[a] != names[b]
  }

  lemma DistinctPrefix(names: seq<string>, k: nat)
    requires Distinct(names) && k <= |names|
    ensures Distinct(names[..k])
  {
    var init := names[..k];
    forall a, b | 0 <= a < b < |init| ensures init[a] != init[b] {
      assert init[a] == names[a] && init[b] == names[b];
    }
  }

  /** Each parameter paired with the argument at its position. */
  function Pairing(parameters: seq<string>, arguments: seq<string>): (r: OrderedMap<Option<string>>)
    ensures |r| == |parameters|
    ensures forall i :: 0 <= i < |parameters| ==> r[i] == (parameters[i], ArgumentFor(arguments, i))
  {
    seq(|parameters|, i requires 0 <= i < |parameters| => (parameters[i], ArgumentFor(arguments, i)))
  }

  /** With distinct names the last parameter is new, so assigning it appends its pair. */
  lemma PairingSnoc(parameters: seq<string>, arguments: seq<string>)
    requires parameters != [] && Distinct(parameters)
    ensures var k := |parameters| - 1;
      Put(Pairing(parameters[..k], arguments), parameters[k], ArgumentFor(arguments, k)) == Pairing(parameters, arguments)
  {
    var k := |parameters| - 1;
    var m := Pairing(parameters[..k], arguments);
    var p := parameters[k];
    forall j | 0 <= j < |m| ensures m[j].0 != p {
      assert m[j].0 == parameters[..k][j] == parameters[j];
    }
    assert Put(m, p, ArgumentFor(arguments, k)) == m + [(p, ArgumentFor(arguments, k))];
    assert m + [(p, ArgumentFor(arguments, k))] == Pairing(parameters, arguments);
  }

  /** With distinct names every assignment appends, so the map is the plain pairing. */
  lemma {:induction false} NamedArgumentsPairs(parameters: seq<string>, arguments: seq<string>)
    requires Distinct(parameters)
    ensures NamedArguments(parameters, arguments) == Pairing(parameters, arguments)
  {
    if parameters != [] {
      var k := |parameters| - 1;
      DistinctPrefix(parameters, k);
      NamedArgumentsPairs(parameters[..k], arguments);
      PairingSnoc(parameters, arguments);
    }
  }


  /** With distinct parameter names, each name gets the argument at its position. */
  lemma NamedArgumentsLookup(parameters: seq<string>, arguments: seq<string>, i: nat)
    requires Distinct(parameters)
    requires i < |parameters|
    ensures Lookup(NamedArguments(parameters, arguments), parameters[i]) == Some(ArgumentFor(arguments, i))
  {
    NamedArgumentsPairs(parameters, arguments);
    var m := Pairing(parameters, arguments);
    forall j | 0 <= j < i ensures m[j].0 != parameters[i] {
      assert m[j].0 == parameters[j];
    }
    IndexOfKeyIs(m, parameters[i], Some(i));
  }

  /** With distinct names the map lists the parameters in order. */
  lemma NamedArgumentsKeys(parameters: seq<string>, arguments: seq<string>)
    requires Distinct(parameters)
    ensures Keys(NamedArguments(parameters, arguments)) == parameters
  {
    NamedArgumentsPairs(parameters, arguments);
    assert Keys(Pairing(parameters, arguments)) == parameters;
  }

  /** One more parameter: its name is put with the argument at its position. */
  lemma NamedArgumentsSnoc(parameters: seq<string>, arguments: seq<string>, k: nat)
    requires k < |parameters|
    ensures NamedArguments(parameters[..k + 1], arguments)
      == Put(NamedArguments(parameters[..k], arguments), parameters[k], ArgumentFor(arguments, k))
  {
    assert parameters[..k + 1][..k] == parameters[..k];
  }


  /** paramAnalysis: no parameters gives the request object; otherwise each name is mapped to its argument. */
  method ParamAnalysis(parameters: seq<string>, arguments: seq<string>) returns (r: Params)
    ensures parameters == [] ==> r == RequestOnly
    ensures parameters != [] ==> r == Named(NamedArguments(parameters, arguments))
  {
    if parameters == [] {
      return RequestOnly;
    }
    var named: OrderedMap<Option<string>> := [];
    var k := 0;
    while k < |parameters|
      invariant 0 <= k <= |parameters|
      invariant named == NamedArguments(parameters[..k], arguments)
    {
      var value := ArgumentFor(arguments, k);
      NamedArgumentsSnoc(parameters, arguments, k);
      named := Put(named, parameters[k], value);
      k := k + 1;
    }
    assert parameters[..k] == parameters;
    r := Named(named);
  }

  // ---------------------------------------------------------------- the router

  /** The http verbs 'any' registers. */
  const AllowMethod: seq<string> := ["get", "post", "put", "delete", "head", "patch"]

  /** The route table and the five group stacks (static state in the source). */
  class Router {
    var routeRule: seq<RouteEntry>
    var groupMiddleware: seq<seq<string>>
    var groupNamespace: seq<string>
    var groupPrefix: seq<string>
    var groupAs: seq<string>
    var groupDomain: seq<string>

    /** The five stacks always have one entry per open group. */
    ghost predicate Valid()
      reads this
    {
      |groupNamespace| == |groupMiddleware| && |groupPrefix| == |groupMiddleware|
      && |groupAs| == |groupMiddleware| && |groupDomain| == |groupMiddleware|
    }

    function Stacks(): Groups
      reads this
    {
      Groups(groupMiddleware, groupNamespace, groupPrefix, groupAs, groupDomain)
    }

    constructor ()
      ensures routeRule == [] && Stacks() == NoGroups && Valid()
    {
      routeRule := [];
      groupMiddleware, groupNamespace, groupPrefix, groupAs, groupDomain := [], [], [], [], [];
    }

    /** match: appends one entry built from the action and the open groups; nothing else changes. */
    method Match(methods: seq<string>, url: string, action: Action, host: string)
      modifies this`routeRule
      ensures routeRule == old(routeRule) + [RouteFor(Stacks(), methods, url, action, host)]
    {
      var info := FormatAction(action);
      var fullUrl := url;
      if groupPrefix != [] {
        var prefix := ConcatNonEmpty(groupPrefix);
        fullUrl := prefix + url;
      } else {
        assert Gather(groupPrefix, PrefixPart) + url == url;
      }
      var uses := MatchUses(groupNamespace, info);
      var asPrefix := ConcatNonEmpty(groupAs);
      var alias := asPrefix + (if info.Info? then info.alias else "");
      var domain := MatchDomain(groupDomain, info, host);
      var middleware := MatchMiddleware(groupMiddleware, info);
      routeRule := routeRule + [RouteEntry(fullUrl, methods, middleware, domain, alias, uses)];
    }

    method Get(url: string, action: Action, host: string)
      modifies this`routeRule
      ensures routeRule == old(routeRule) + [RouteFor(Stacks(), ["get"], url, action, host)]
    {
      Match(["get"], url, action, host);
    }

    method Post(url: string, action: Action, host: string)
      modifies this`routeRule
      ensures routeRule == old(routeRule) + [RouteFor(Stacks(), ["post"], url, action, host)]
    {
      Match(["post"], url, action, host);
    }

    method Put(url: string, action: Action, host: string)
      modifies this`routeRule
      ensures routeRule == old(routeRule) + [RouteFor(Stacks(), ["put"], url, action, host)]
    {
      Match(["put"], url, action, host);
    }

    method Delete(url: string, action: Action, host: string)
      modifies this`routeRule
      ensures routeRule == old(routeRule) + [RouteFor(Stacks(), ["delete"], url, action, host)]
    {
      Match(["delete"], url, action, host);
    }

    method Head(url: string, action: Action, host: string)
      modifies this`routeRule
      ensures routeRule == old(routeRule) + [RouteFor(Stacks(), ["head"], url, action, host)]
    {
      Match(["head"], url, action, host);
    }

    method Patch(url: string, action: Action, host: string)
      modifies this`routeRule
      ensures routeRule == old(routeRule) + [RouteFor(Stacks(), ["patch"], url, action, host)]
    {
      Match(["patch"], url, action, host);
    }

    /** any: one entry carrying all six verbs. */
    method Any(url: string, action: Action, host: string)
      modifies this`routeRule
      ensures routeRule == old(routeRule) + [RouteFor(Stacks(), AllowMethod, url, action, host)]
    {
      Match(AllowMethod, url, action, host);
    }

    /** Runs a group's callback: each declaration in turn. */
    method Run(decls: seq<Decl>, host: string)
      requires Valid()
      modifies this
      decreases decls, 0
      ensures Valid() && Stacks() == old(Stacks())
      ensures routeRule == old(routeRule) + Entries(Stacks(), decls, host)
    {
      var i := 0;
      while i < |decls|
        invariant 0 <= i <= |decls|
        invariant Valid() && Stacks() == old(Stacks())
        invariant routeRule == old(routeRule) + Entries(Stacks(), decls[..i], host)
        decreases |decls| - i
      {
        EntriesSnoc(Stacks(), decls, i, host);
        ghost var done := Entries(Stacks(), decls[..i], host);
        Declare(decls[i], host);
        AppendAssoc(old(routeRule), done, DeclEntries(Stacks(), decls[i], host));
        i := i + 1;
      }
      assert decls[..i] == decls;
    }

    /** One declaration of a callback: a route or a nested group. */
    method Declare(d: Decl, host: string)
      requires Valid()
      modifies this
      decreases d, 0
      ensures Valid() && Stacks() == old(Stacks())
      ensures routeRule == old(routeRule) + DeclEntries(Stacks(), d, host)
    {
      match d {
        case RouteDecl(methods, url, action) => Match(methods, url, action, host);
        case GroupDecl(rule, body) => Group(rule, body, host);
      }
    }

    /**
     * group: pushes the rule's entries, runs the callback, and pops one entry
     * from each stack, so the stacks end as they began; the routes declared
     * inside are registered with the rule in force.
     */
    method Group(rule: GroupRule, body: seq<Decl>, host: string)
      requires Valid()
      modifies this
      decreases body, 1
      ensures Valid() && Stacks() == old(Stacks())
      ensures routeRule == old(routeRule) + Entries(Push(old(Stacks()), rule), body, host)
    {
      groupMiddleware := groupMiddleware + [OrDefault(rule.middleware, [])];
      groupNamespace := groupNamespace + [OrDefault(rule.namespace, "")];
      groupPrefix := groupPrefix + [OrDefault(rule.prefix, "")];
      groupAs := groupAs + [OrDefault(rule.alias, "")];
      groupDomain := groupDomain + [OrDefault(rule.domain, "")];
      Run(body, host);
      groupMiddleware := groupMiddleware[..|groupMiddleware| - 1];
      groupNamespace := groupNamespace[..|groupNamespace| - 1];
      groupPrefix := groupPrefix[..|groupPrefix| - 1];
      groupAs := groupAs[..|groupAs| - 1];
      groupDomain := groupDomain[..|groupDomain| - 1];
    }
  }
}
