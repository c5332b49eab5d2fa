/** The read-only catalog generator (scripts/generate-aws-read-only-catalog.py): the search for
sensitive output over a possibly cyclic shape graph, and the filter that fills the catalog.

Every shape has a name and the name identifies it. Which member names are sensitive is a parameter. */
module AwsCatalog {
  import opened Text

  datatype Shape = Shape(
    streaming: bool,
    blob: bool,
    payload: Option<string>,
    members: seq<(string, string)>,
    member: Option<string>,
    key: Option<string>,
    value: Option<string>)

  /** Shapes by name; every name that a shape mentions is defined. */
  datatype Graph = Graph(shapes: map<string, Shape>, sensitive: string -> bool)
  {
    ghost predicate Closed() {
      forall name, next :: name in shapes && next in Next(shapes[name]) ==> next in shapes
    }

    /** A shape that must not be shown: it streams, or has a member with a sensitive name. */
    predicate Hot(name: string)
      requires name in shapes
    {
      || shapes[name].streaming
      || exists i :: 0 <= i < |shapes[name].members| && sensitive(shapes[name].members[i].0)
    }
  }

  function Optional(name: Option<string>): set<string> {
    if name.Some? then {name.value} else {}
  }

  /** The shapes that a shape mentions directly. */
  function Next(shape: Shape): set<string> {
    (set i | 0 <= i < |shape.members| :: shape.members[i].1)
    + Optional(shape.member) + Optional(shape.key) + Optional(shape.value)
  }

  /** A chain of shapes, each mentioned by the one before. */
  ghost predicate Path(graph: Graph, path: seq<string>) {
    && path != []
    && (forall i :: 0 <= i < |path| ==> path[i] in graph.shapes)
    && forall i :: 0 <= i < |path| - 1 ==> path[i + 1] in Next(graph.shapes[path[i]])
  }

  ghost predicate Reaches(graph: Graph, root: string, name: string) {
    exists path :: Path(graph, path) && path[0] == root && path[|path| - 1] == name
  }

  /** Some shape that must not be shown can be reached. */
  ghost predicate Exposes(graph: Graph, root: string) {
    exists name :: name in graph.shapes && Reaches(graph, root, name) && graph.Hot(name)
  }

  lemma ReachesItself(graph: Graph, root: string)
    requires root in graph.shapes
    ensures Reaches(graph, root, root)
  {
    assert Path(graph, [root]);
  }

  lemma ReachesStep(graph: Graph, root: string, next: string, name: string)
    requires root in graph.shapes && next in Next(graph.shapes[root]) && Reaches(graph, next, name)
    ensures Reaches(graph, root, name)
  {
    var path :| Path(graph, path) && path[0] == next && path[|path| - 1] == name;
    var longer := [root] + path;
    forall i | 0 <= i < |longer| - 1
      ensures longer[i + 1] in Next(graph.shapes[longer[i]])
    {
      if i > 0 {
        assert longer[i + 1] == path[i] && longer[i] == path[i - 1];
      }
    }
    assert Path(graph, longer);
  }

  lemma ExposesStep(graph: Graph, root: string, next: string)
    requires root in graph.shapes && next in Next(graph.shapes[root]) && Exposes(graph, next)
    ensures Exposes(graph, root)
  {
    var name :| name in graph.shapes && Reaches(graph, next, name) && graph.Hot(name);
    ReachesStep(graph, root, next, name);
  }

  lemma ExposesItself(graph: Graph, root: string)
    requires root in graph.shapes && graph.Hot(root)
    ensures Exposes(graph, root)
  {
    ReachesItself(graph, root);
  }

  /** Everything `visited` since `before` is harmless and leads only to visited shapes. */
  ghost predicate Explored(graph: Graph, before: set<string>, visited: set<string>) {
    && before <= visited <= graph.shapes.Keys
    && forall name :: name in visited && name !in before ==>
         !graph.Hot(name) && Next(graph.shapes[name]) <= visited
  }

  /** The search state; `visited` is shared by all the recursive calls. */
  class Search {
    const graph: Graph
    var visited: set<string>

    constructor (graph: Graph)
      ensures this.graph == graph && visited == {}
    {
      this.graph := graph;
      visited := {};
    }

    /** `visit`: false means that everything newly visited is harmless, closed but for what is still
        being visited; true is always justified. */
    method Visit(name: string) returns (found: bool)
      requires graph.Closed() && name in graph.shapes && visited <= graph.shapes.Keys
      modifies this`visited
      ensures old(visited) <= visited <= graph.shapes.Keys
      ensures found ==> Exposes(graph, name)
      ensures !found ==> name in visited && Explored(graph, old(visited), visited)
      decreases graph.shapes.Keys - visited, 2
    {
      if name in visited {
        return false;
      }
      ghost var before := visited;
      visited := visited + {name};
      var shape := graph.shapes[name];
      if shape.streaming {
        ExposesItself(graph, name);
        return true;
      }
      found := VisitMembers(name);
      if found {
        return;
      }
      ghost var now := visited;
      found := VisitOptional(name, shape.member);
      if found {
        return;
      }
      ExploredMore(graph, before + {name}, now, visited);
      now := visited;
      found := VisitOptional(name, shape.key);
      if found {
        return;
      }
      ExploredMore(graph, before + {name}, now, visited);
      now := visited;
      found := VisitOptional(name, shape.value);
      if !found {
        ExploredMore(graph, before + {name}, now, visited);
        assert Next(shape) <= visited;
      }
    }

    /** A visit of the list member, map key or map value of `name`, when it has one. */
    method VisitOptional(name: string, target: Option<string>) returns (found: bool)
      requires graph.Closed() && name in visited && visited <= graph.shapes.Keys
      requires target.Some? ==> target.value in Next(graph.shapes[name])
      modifies this`visited
      ensures old(visited) <= visited <= graph.shapes.Keys
      ensures found ==> Exposes(graph, name)
      ensures !found ==> Explored(graph, old(visited), visited) && Optional(target) <= visited
      decreases graph.shapes.Keys - visited, 3
    {
      found := false;
      if target.Some? {
        found := Visit(target.value);
        if found {
          ExposesStep(graph, name, target.value);
        }
      }
    }

    /** The loop over the members of `visit`. */
    method VisitMembers(name: string) returns (found: bool)
      requires graph.Closed() && name in visited && visited <= graph.shapes.Keys
      requires !graph.shapes[name].streaming
      modifies this`visited
      ensures old(visited) <= visited <= graph.shapes.Keys
      ensures found ==> Exposes(graph, name)
      ensures !found ==> Explored(graph, old(visited), visited) && !graph.Hot(name)
      ensures !found ==> forall j :: 0 <= j < |graph.shapes[name].members| ==>
                           graph.shapes[name].members[j].1 in visited
      decreases graph.shapes.Keys - visited, 3
    {
      var members := graph.shapes[name].members;
      ghost var before := visited;
      for i := 0 to |members|
        invariant Explored(graph, before, visited)
        invariant forall j :: 0 <= j < i ==> !graph.sensitive(members[j].0) && members[j].1 in visited
      {
        if graph.sensitive(members[i].0) {
          ExposesItself(graph, name);
          return true;
        }
        var next := members[i].1;
        assert next in Next(graph.shapes[name]);
        ghost var now := visited;
        found := Visit(next);
        if found {
          ExposesStep(graph, name, next);
          return;
        }
        ExploredMore(graph, before, now, visited);
      }
      return false;
    }
  }

  lemma ExploredMore(graph: Graph, a: set<string>, b: set<string>, c: set<string>)
    requires Explored(graph, a, b) && Explored(graph, b, c)
    ensures Explored(graph, a, c)
  {
  }

  lemma {:induction false} PathStays(graph: Graph, visited: set<string>, path: seq<string>)
    requires Explored(graph, {}, visited) && Path(graph, path) && path[0] in visited
    ensures path[|path| - 1] in visited
    decreases |path|
  {
    if |path| > 1 {
      assert path[1] in Next(graph.shapes[path[0]]);
      var tail := path[1..];
      forall i | 0 <= i < |tail| - 1
        ensures tail[i + 1] in Next(graph.shapes[tail[i]])
      {
        assert tail[i] == path[i + 1] && tail[i + 1] == path[i + 2];
      }
      PathStays(graph, visited, tail);
    }
  }

  lemma ExploredHidesNothing(graph: Graph, visited: set<string>, root: string)
    requires Explored(graph, {}, visited) && root in visited
    ensures !Exposes(graph, root)
  {
    forall name | name in graph.shapes && Reaches(graph, root, name)
      ensures !graph.Hot(name)
    {
      var path :| Path(graph, path) && path[0] == root && path[|path| - 1] == name;
      PathStays(graph, visited, path);
    }
  }

  // ---------------------------------------------------------------- output_is_sensitive

  /** The payload member of an output shape, when it names one of its members. */
  function PayloadShape(graph: Graph, output: string): Option<string>
    requires output in graph.shapes
  {
    if graph.shapes[output].payload.None? || graph.shapes[output].payload.value == "" then None
    else MemberNamed(graph.shapes[output].members, graph.shapes[output].payload.value)
  }

  function MemberNamed(members: seq<(string, string)>, name: string): (r: Option<string>)
    ensures r.Some? ==> exists i :: 0 <= i < |members| && FirstNamed(members, name, i) && members[i].1 == r.value
    ensures r.None? ==> forall i :: 0 <= i < |members| ==> members[i].0 != name
  {
    if members == [] then None
    else if members[0].0 == name then
      assert FirstNamed(members, name, 0);
      Some(members[0].1)
    else
      var rest := MemberNamed(members[1..], name);
      NamedInTail(members, name);
      rest
  }

  /** A lookup by name finds the first member of that name; a shape has no two. */
  predicate FirstNamed(members: seq<(string, string)>, name: string, i: nat) {
    i < |members| && members[i].0 == name && forall j :: 0 <= j < i ==> members[j].0 != name
  }

  lemma NamedInTail(members: seq<(string, string)>, name: string)
    requires members != [] && members[0].0 != name
    ensures forall i: nat :: FirstNamed(members[1..], name, i) ==> FirstNamed(members, name, i + 1)
    ensures (forall i :: 0 <= i < |members[1..]| ==> members[1..][i].0 != name)
            ==> forall i :: 0 <= i < |members| ==> members[i].0 != name
  {
    forall i: nat | FirstNamed(members[1..], name, i)
      ensures FirstNamed(members, name, i + 1)
    {
      forall j | 0 <= j < i + 1
        ensures members[j].0 != name
      {
        if j > 0 {
          assert members[1..][j - 1] == members[j];
        }
      }
    }
    if forall i :: 0 <= i < |members[1..]| ==> members[1..][i].0 != name {
      forall i | 0 <= i < |members|
        ensures members[i].0 != name
      {
        if i > 0 {
          assert members[1..][i - 1] == members[i];
        }
      }
    }
  }

  /** What makes an output unfit for the catalog: a blob payload, or anything exposed. */
  ghost predicate Sensitive(graph: Graph, output: Option<string>)
    requires graph.Closed() && (output.Some? ==> output.value in graph.shapes)
  {
    output.Some? && (BlobPayload(graph, output.value) || Exposes(graph, output.value))
  }

  /** The member that the output names as its payload is a blob. */
  ghost predicate BlobPayload(graph: Graph, output: string)
    requires output in graph.shapes
  {
    var Shape(_, _, payload, members, _, _, _) := graph.shapes[output];
    && payload.Some? && payload.value != ""
    && exists i :: 0 <= i < |members| && FirstNamed(members, payload.value, i)
                && members[i].1 in graph.shapes && graph.shapes[members[i].1].blob
  }

  lemma PayloadIff(graph: Graph, output: string)
    requires graph.Closed() && output in graph.shapes
    ensures var payload := PayloadShape(graph, output);
            && (payload.Some? ==> payload.value in Next(graph.shapes[output]))
            && (BlobPayload(graph, output)
                <==> payload.Some? && payload.value in graph.shapes && graph.shapes[payload.value].blob)
  {
    var members := graph.shapes[output].members;
    var payload := PayloadShape(graph, output);
    if payload.Some? {
      var name := graph.shapes[output].payload.value;
      var i :| 0 <= i < |members| && FirstNamed(members, name, i) && members[i].1 == payload.value;
      assert payload.value in Next(graph.shapes[output]);
      forall j: nat | FirstNamed(members, name, j)
        ensures i == j
      {
      }
    }
  }

  /** `output_is_sensitive`; that a streaming payload is sensitive needs no rule of its own. */
  method OutputIsSensitive(graph: Graph, output: Option<string>) returns (r: bool)
    requires graph.Closed() && (output.Some? ==> output.value in graph.shapes)
    ensures r <==> Sensitive(graph, output)
  {
    if output.None? {
      return false;
    }
    var root := output.value;
    var payload := PayloadShape(graph, root);
    PayloadIff(graph, root);
    if payload.Some? {
      if graph.shapes[payload.value].blob || graph.shapes[payload.value].streaming {
        if graph.shapes[payload.value].streaming {
          ExposesItself(graph, payload.value);
          ExposesStep(graph, root, payload.value);
        }
        return true;
      }
    }
    var search := new Search(graph);
    r := search.Visit(root);
    if !r {
      ExploredHidesNothing(graph, search.visited, root);
    }
  }

  // ---------------------------------------------------------------- the filter

  datatype Properties = Properties(isWrite: Option<bool>, isPermissionManagement: Option<bool>,
                                   isTaggingOnly: Option<bool>)
  datatype Action = Action(properties: Option<Properties>)

  predicate NonWrite(action: Option<Action>) {
    && action.Some? && action.value.properties.Some?
    && action.value.properties.value.isWrite == Some(false)
    && action.value.properties.value.isPermissionManagement == Some(false)
    && action.value.properties.value.isTaggingOnly == Some(false)
  }

  datatype Command = Command(service: string, name: string, model: string, output: Option<string>,
                             reference: Option<string>)

  const PASSIVE_PREFIXES := [
    "AdminGet", "AdminList", "BatchDescribe", "BatchGet", "BatchRead", "Check", "Count", "Discover",
    "DomainMetadata", "Estimate", "Evaluate", "Get", "Is", "Lookup", "Preview", "Query", "Scan", "Search",
    "Select", "Validate", "Verify", "ViewBilling"]

  const SENSITIVE_OPERATIONS := [
    "ApiKey", "AuthorizationCode", "Credential", "Decrypted", "ExportCertificate", "Password", "Presign",
    "PrivateKey", "Secret", "Token", "UnlockCode", "VerificationCode"]

  const MANUAL_EXCLUSIONS := {
    ("ssm", "get-parameter"), ("ssm", "get-parameter-history"), ("ssm", "get-parameters"),
    ("ssm", "get-parameters-by-path"), ("lambda", "get-function")}

  type Actions = map<string, map<string, Action>>

  function ActionOf(actions: Actions, c: Command): Option<Action> {
    if c.reference.Some? && c.reference.value in actions && c.model in actions[c.reference.value]
    then Some(actions[c.reference.value][c.model]) else None
  }

  predicate StartsWithAny(s: string, prefixes: seq<string>) {
    exists i :: 0 <= i < |prefixes| && prefixes[i] <= s
  }

  predicate ContainsAny(s: string, parts: seq<string>) {
    exists i :: 0 <= i < |parts| && HasSubstring(s, parts[i])
  }

  /** Admitted by name alone. */
  predicate Listing(c: Command) {
    "List" <= c.model || "Describe" <= c.model || (c.service == "s3api" && "Head" <= c.model)
  }

  /** Passive by name and marked by AWS as neither a write, nor permission management, nor tagging. */
  ghost predicate Passive(c: Command, actions: Actions) {
    && c.service !in {"iam", "sts"}
    && c.reference.Some? && c.reference.value in actions && c.model in actions[c.reference.value]
    && actions[c.reference.value][c.model].properties == Some(Properties(Some(false), Some(false), Some(false)))
    && exists prefix :: prefix in PASSIVE_PREFIXES && prefix <= c.model
  }

  /** The model name has a sensitive word in it. */
  ghost predicate SoundsSensitive(c: Command) {
    exists word, a, b :: word in SENSITIVE_OPERATIONS && c.model == a + (word + b)
  }

  lemma StartsIff(s: string, prefixes: seq<string>)
    ensures StartsWithAny(s, prefixes) <==> exists prefix :: prefix in prefixes && prefix <= s
  {
    if prefix :| prefix in prefixes && prefix <= s {
      var i :| 0 <= i < |prefixes| && prefixes[i] == prefix;
    }
    if i :| 0 <= i < |prefixes| && prefixes[i] <= s {
      assert prefixes[i] in prefixes;
    }
  }

  lemma ListingIff(c: Command)
    ensures Listing(c) <==> StartsWithAny(c.model, ["List", "Describe"]) || (c.service == "s3api" && "Head" <= c.model)
  {
    var two := ["List", "Describe"];
    assert two[0] == "List" && two[1] == "Describe";
  }

  lemma PassiveIff(c: Command, actions: Actions)
    ensures Passive(c, actions)
            <==> && c.service != "iam" && c.service != "sts" && c.reference.Some?
                 && NonWrite(ActionOf(actions, c)) && StartsWithAny(c.model, PASSIVE_PREFIXES)
  {
    StartsIff(c.model, PASSIVE_PREFIXES);
  }

  lemma SoundsSensitiveIff(c: Command)
    ensures SoundsSensitive(c) <==> ContainsAny(c.model, SENSITIVE_OPERATIONS)
  {
    if SoundsSensitive(c) {
      var word, a, b :| word in SENSITIVE_OPERATIONS && c.model == a + (word + b);
      HasSubstringIff(c.model, word);
      var i :| 0 <= i < |SENSITIVE_OPERATIONS| && SENSITIVE_OPERATIONS[i] == word;
    }
    if i :| 0 <= i < |SENSITIVE_OPERATIONS| && HasSubstring(c.model, SENSITIVE_OPERATIONS[i]) {
      HasSubstringIff(c.model, SENSITIVE_OPERATIONS[i]);
      assert SENSITIVE_OPERATIONS[i] in SENSITIVE_OPERATIONS;
    }
  }

  ghost predicate Withheld(graph: Graph, c: Command)
    requires graph.Closed() && (c.output.Some? ==> c.output.value in graph.shapes)
  {
    (c.service, c.name) in MANUAL_EXCLUSIONS || Sensitive(graph, c.output)
  }

  /** The commands that belong in the catalog. */
  ghost predicate Admitted(graph: Graph, actions: Actions, c: Command)
    requires graph.Closed() && (c.output.Some? ==> c.output.value in graph.shapes)
  {
    && !Withheld(graph, c)
    && (Listing(c) || (Passive(c, actions) && !SoundsSensitive(c)))
  }

  /** Counted as sensitive: withheld, or passive with a sensitive name. */
  ghost predicate Counted(graph: Graph, actions: Actions, c: Command)
    requires graph.Closed() && (c.output.Some? ==> c.output.value in graph.shapes)
  {
    Withheld(graph, c)
    || (!Listing(c) && Passive(c, actions) && SoundsSensitive(c))
  }

  ghost predicate Resolved(graph: Graph, commands: seq<Command>) {
    && graph.Closed()
    && forall i :: 0 <= i < |commands| && commands[i].output.Some? ==>
         commands[i].output.value in graph.shapes
  }

  ghost function CountedIn(graph: Graph, actions: Actions, commands: seq<Command>, n: nat): nat
    requires Resolved(graph, commands) && n <= |commands|
  {
    if n == 0 then 0
    else CountedIn(graph, actions, commands, n - 1)
         + if Counted(graph, actions, commands[n - 1]) then 1 else 0
  }

  type Catalog = map<string, set<string>>

  predicate Lists(catalog: Catalog, service: string, name: string) {
    service in catalog && name in catalog[service]
  }

  function Add(catalog: Catalog, service: string, name: string): (r: Catalog)
    ensures forall s, n :: Lists(r, s, n) <==> Lists(catalog, s, n) || (s == service && n == name)
  {
    catalog[service := (if service in catalog then catalog[service] else {}) + {name}]
  }

  ghost predicate AdmittedAmong(graph: Graph, actions: Actions, commands: seq<Command>, n: nat,
                                service: string, name: string)
    requires Resolved(graph, commands) && n <= |commands|
  {
    exists i :: 0 <= i < n && Admitted(graph, actions, commands[i])
             && commands[i].service == service && commands[i].name == name
  }

  /** One decision of the filter loop. */
  method Decide(graph: Graph, actions: Actions, c: Command) returns (admit: bool, count: bool)
    requires graph.Closed() && (c.output.Some? ==> c.output.value in graph.shapes)
    ensures admit <==> Admitted(graph, actions, c)
    ensures count <==> Counted(graph, actions, c)
  {
    var sensitive := OutputIsSensitive(graph, c.output);
    if (c.service, c.name) in MANUAL_EXCLUSIONS || sensitive {
      return false, true;
    }
    ListingIff(c);
    if StartsWithAny(c.model, ["List", "Describe"]) || (c.service == "s3api" && "Head" <= c.model) {
      return true, false;
    }
    PassiveIff(c, actions);
    SoundsSensitiveIff(c);
    if c.service == "iam" || c.service == "sts" || c.reference.None? {
      return false, false;
    }
    if !NonWrite(ActionOf(actions, c)) || !StartsWithAny(c.model, PASSIVE_PREFIXES) {
      return false, false;
    }
    if ContainsAny(c.model, SENSITIVE_OPERATIONS) {
      return false, true;
    }
    return true, false;
  }

  lemma AdmittedNext(graph: Graph, actions: Actions, commands: seq<Command>, n: nat, service: string,
                     name: string)
    requires Resolved(graph, commands) && n < |commands|
    ensures AdmittedAmong(graph, actions, commands, n + 1, service, name)
            <==> AdmittedAmong(graph, actions, commands, n, service, name)
                 || (Admitted(graph, actions, commands[n]) && commands[n].service == service
                     && commands[n].name == name)
  {
  }

  /** The filter loop of `generate_catalog`: exactly the admitted commands and the two custom ones. */
  method GenerateCatalog(graph: Graph, actions: Actions, commands: seq<Command>)
    returns (catalog: Catalog, excluded: nat)
    requires Resolved(graph, commands)
    ensures forall service, name ::
              Lists(catalog, service, name)
              <==> || AdmittedAmong(graph, actions, commands, |commands|, service, name)
                   || (service == "s3" && name == "ls")
                   || (service == "sts" && name == "get-caller-identity")
    ensures excluded == CountedIn(graph, actions, commands, |commands|)
  {
    catalog, excluded := map[], 0;
    for n := 0 to |commands|
      invariant forall service, name ::
                  Lists(catalog, service, name)
                  <==> AdmittedAmong(graph, actions, commands, n, service, name)
      invariant excluded == CountedIn(graph, actions, commands, n)
    {
      var admit, count := Decide(graph, actions, commands[n]);
      if count {
        excluded := excluded + 1;
      }
      ghost var before := catalog;
      if admit {
        catalog := Add(catalog, commands[n].service, commands[n].name);
      }
      forall service, name
        ensures Lists(catalog, service, name)
                <==> AdmittedAmong(graph, actions, commands, n + 1, service, name)
      {
        AdmittedNext(graph, actions, commands, n, service, name);
        assert Lists(before, service, name) <==> AdmittedAmong(graph, actions, commands, n, service, name);
      }
    }
    catalog := Add(catalog, "s3", "ls");
    catalog := Add(catalog, "sts", "get-caller-identity");
  }
}
