/** The scope claim: permissions "resource:verb", with a resource's four verbs written as one wildcard. */
module JwtScope {
  import opened Options
  import opened Sequences
  import opened Strings

  datatype Permission = Permission(resource: string, verb: string) {
    function Text(): string {
      resource + ":" + verb
    }
  }

  datatype ScopeError = NoColon(permission: string)

  const VERBS: set<string> := {"read", "create", "update", "delete"}
  const ANY_VERB := "*"

  /** Splits at the last colon. */
  function Parse(s: string): (r: Option<Permission>)
    ensures r.Some? ==> r.value.Text() == s && Free(r.value.verb, ':')
    ensures r.None? <==> Free(s, ':')
  {
    if s == [] then None
    else
      match Parse(s[1..])
      case Some(p) => assert s == [s[0]] + s[1..]; Some(Permission([s[0]] + p.resource, p.verb))
      case None => if s[0] == ':' then Some(Permission([], s[1..])) else None
  }

  lemma TextTail(p: Permission)
    requires p.resource != []
    ensures p.Text()[0] == p.resource[0] && p.Text()[1..] == Permission(p.resource[1..], p.verb).Text()
    ensures [p.resource[0]] + p.resource[1..] == p.resource
  {
  }

  lemma {:induction false} ParseText(p: Permission)
    requires Free(p.verb, ':')
    ensures Parse(p.Text()) == Some(p)
    decreases |p.resource|
  {
    var text := p.Text();
    if p.resource == [] {
      assert text[0] == ':' && text[1..] == p.verb;
    } else {
      TextTail(p);
      ParseText(Permission(p.resource[1..], p.verb));
    }
  }

  function ParsedSet(texts: seq<string>): set<Permission> {
    set s | s in texts && Parse(s).Some? :: Parse(s).value
  }

  function VerbsOf(ps: set<Permission>, resource: string): set<string> {
    set p | p in ps && p.resource == resource :: p.verb
  }

  /** A permission as the scope writes it. */
  function Written(ps: set<Permission>, p: Permission): Permission {
    if VerbsOf(ps, p.resource) == VERBS then Permission(p.resource, ANY_VERB) else p
  }

  function Compressed(ps: set<Permission>): set<Permission> {
    set p | p in ps :: Written(ps, p)
  }

  function Texts(ps: seq<Permission>): (r: seq<string>)
    ensures |r| == |ps|
  {
    seq(|ps|, i requires 0 <= i < |ps| => ps[i].Text())
  }

  /** Each compressed permission once; dictionaries and sets leave the order open. */
  ghost predicate Lists(tokens: seq<Permission>, ps: set<Permission>) {
    Distinct(tokens) && forall t :: t in tokens <==> t in Compressed(ps)
  }

  ghost predicate IsScopeOf(scope: string, permissions: seq<string>) {
    exists tokens :: Lists(tokens, ParsedSet(permissions)) && scope == Join(Texts(tokens), ' ')
  }

  // ----- Generating

  ghost predicate Grouped(verbs: map<string, set<string>>, order: seq<string>, ps: set<Permission>) {
    && (forall r :: r in verbs <==> r in order) && Distinct(order)
    && (forall p | p in ps :: p.resource in verbs)
    && (forall r | r in verbs :: verbs[r] == VerbsOf(ps, r) && verbs[r] != {})
  }

  lemma GroupOne(verbs: map<string, set<string>>, order: seq<string>, ps: set<Permission>, p: Permission)
    requires Grouped(verbs, order, ps)
    ensures Grouped(verbs[p.resource := (if p.resource in verbs then verbs[p.resource] else {}) + {p.verb}],
                    if p.resource in verbs then order else order + [p.resource], ps + {p})
  {
  }

  lemma ParsedSetStep(texts: seq<string>, i: nat)
    requires i < |texts| && Parse(texts[i]).Some?
    ensures ParsedSet(texts[..i + 1]) == ParsedSet(texts[..i]) + {Parse(texts[i]).value}
    ensures forall s :: s in texts[..i + 1] <==> s in texts[..i] || s == texts[i]
  {
  }

  method GroupByResource(permissions: seq<string>) returns (r: Result<(map<string, set<string>>, seq<string>), ScopeError>)
    ensures r.Success? ==> Grouped(r.value.0, r.value.1, ParsedSet(permissions))
    ensures r.Success? <==> forall s | s in permissions :: Parse(s).Some?
    ensures r.Failure? ==> r.error.permission in permissions && Free(r.error.permission, ':')
  {
    var verbs: map<string, set<string>> := map[];
    var order: seq<string> := [];
    for i := 0 to |permissions|
      invariant Grouped(verbs, order, ParsedSet(permissions[..i]))
      invariant forall s | s in permissions[..i] :: Parse(s).Some?
    {
      var parsed := Parse(permissions[i]);
      if parsed.None? {
        assert permissions[i] in permissions;
        return Failure(NoColon(permissions[i]));
      }
      var p := parsed.value;
      GroupOne(verbs, order, ParsedSet(permissions[..i]), p);
      ParsedSetStep(permissions, i);
      if p.resource !in verbs {
        verbs := verbs[p.resource := {}];
        order := order + [p.resource];
      }
      verbs := verbs[p.resource := verbs[p.resource] + {p.verb}];
    }
    assert permissions[..|permissions|] == permissions;
    r := Success((verbs, order));
  }

  method ListVerbs(resource: string, verbs: set<string>) returns (tokens: seq<Permission>)
    ensures Distinct(tokens) && forall t :: t in tokens <==> t.resource == resource && t.verb in verbs
  {
    tokens := [];
    var left := verbs;
    while left != {}
      invariant left <= verbs && Distinct(tokens)
      invariant forall t :: t in tokens <==> t.resource == resource && t.verb in verbs - left
    {
      var v :| v in left;
      tokens := tokens + [Permission(resource, v)];
      left := left - {v};
    }
  }

  lemma CompressedOf(ps: set<Permission>, t: Permission)
    ensures t in Compressed(ps) <==>
      if VerbsOf(ps, t.resource) == VERBS then t.verb == ANY_VERB else t.verb in VerbsOf(ps, t.resource)
  {
  }

  method GenerateScope(permissions: seq<string>) returns (r: Result<string, ScopeError>)
    ensures r.Success? <==> forall s | s in permissions :: Parse(s).Some?
    ensures r.Success? ==> IsScopeOf(r.value, permissions)
    ensures r.Failure? ==> r.error.permission in permissions && Free(r.error.permission, ':')
  {
    var grouped := GroupByResource(permissions);
    if grouped.Failure? {
      return Failure(grouped.error);
    }
    var (verbs, order) := grouped.value;
    ghost var ps := ParsedSet(permissions);
    var tokens: seq<Permission> := [];
    for k := 0 to |order|
      invariant ListedUpTo(tokens, order[..k], ps)
    {
      var resource := order[k];
      assert order[..k + 1] == order[..k] + [resource] && resource !in order[..k] && resource in order;
      var listed := ListResource(resource, verbs[resource], ps);
      ListOneMore(tokens, listed, order[..k], resource, ps);
      tokens := tokens + listed;
    }
    assert order[..|order|] == order;
    AllListed(tokens, verbs, order, ps);
    r := Success(Join(Texts(tokens), ' '));
  }

  ghost predicate ListsResource(tokens: seq<Permission>, resource: string, ps: set<Permission>) {
    Distinct(tokens) && forall t :: t in tokens <==> t.resource == resource && t in Compressed(ps)
  }

  /** One resource's part of the scope: its wildcard, or its verbs. */
  method ListResource(resource: string, verbs: set<string>, ghost ps: set<Permission>) returns (tokens: seq<Permission>)
    requires verbs == VerbsOf(ps, resource)
    ensures ListsResource(tokens, resource, ps)
  {
    if verbs == VERBS {
      tokens := [Permission(resource, ANY_VERB)];
    } else {
      tokens := ListVerbs(resource, verbs);
    }
    forall t: Permission | t.resource == resource ensures t in tokens <==> t in Compressed(ps) {
      CompressedOf(ps, t);
    }
  }

  ghost predicate ListedUpTo(tokens: seq<Permission>, done: seq<string>, ps: set<Permission>) {
    Distinct(tokens) && forall t :: t in tokens <==> t.resource in done && t in Compressed(ps)
  }

  lemma ListOneMore(tokens: seq<Permission>, listed: seq<Permission>, done: seq<string>, resource: string, ps: set<Permission>)
    requires ListedUpTo(tokens, done, ps) && ListsResource(listed, resource, ps) && resource !in done
    ensures ListedUpTo(tokens + listed, done + [resource], ps)
  {
    ConcatDistinct(tokens, listed);
  }

  lemma AllListed(tokens: seq<Permission>, verbs: map<string, set<string>>, order: seq<string>, ps: set<Permission>)
    requires Grouped(verbs, order, ps) && ListedUpTo(tokens, order, ps)
    ensures Lists(tokens, ps)
  {
    forall t | t in Compressed(ps) ensures t.resource in order {
      var p :| p in ps && Written(ps, p) == t;
    }
  }

  // ----- Reading a scope back

  /** What a wildcard stands for. */
  function Expansion(t: Permission): set<Permission> {
    if t.verb == ANY_VERB then set v | v in VERBS :: Permission(t.resource, v) else {t}
  }

  function ExpandAll(ts: set<Permission>): set<Permission> {
    set t, p | t in ts && p in Expansion(t) :: p
  }

  function Expand(scope: string): set<Permission> {
    if scope == "" then {} else ExpandAll(ParsedSet(Split(scope, ' ')))
  }

  ghost predicate NoAnyVerb(ps: set<Permission>) {
    forall p | p in ps :: p.verb != ANY_VERB
  }

  lemma ExpandCompressedHas(ps: set<Permission>, p: Permission)
    requires NoAnyVerb(ps)
    ensures p in ExpandAll(Compressed(ps)) <==> p in ps
  {
    var t := Written(ps, p);
    CompressedOf(ps, t);
    if p in ps {
      assert t in Compressed(ps);
      assert p.verb in VerbsOf(ps, p.resource);
      assert p in Expansion(t);
    }
    if p in ExpandAll(Compressed(ps)) {
      var u :| u in Compressed(ps) && p in Expansion(u);
      CompressedOf(ps, u);
      assert p.verb in VerbsOf(ps, p.resource);
    }
  }

  /** Expanding what was compressed gives the permissions back exactly when none of them has the verb "*" itself. */
  lemma ExpandCompressed(ps: set<Permission>)
    ensures ExpandAll(Compressed(ps)) == ps <==> NoAnyVerb(ps)
  {
    if NoAnyVerb(ps) {
      forall p ensures p in ExpandAll(Compressed(ps)) <==> p in ps {
        ExpandCompressedHas(ps, p);
      }
    } else {
      var p :| p in ps && p.verb == ANY_VERB;
      assert p !in ExpandAll(Compressed(ps));
    }
  }

  predicate SpaceFree(texts: seq<string>) {
    forall s | s in texts :: Free(s, ' ')
  }

  lemma TokensSpaceFree(tokens: seq<Permission>, permissions: seq<string>)
    requires Lists(tokens, ParsedSet(permissions)) && SpaceFree(permissions)
    ensures AllFree(Texts(tokens), ' ')
  {
    forall i | 0 <= i < |tokens| ensures Free(Texts(tokens)[i], ' ') {
      var t, ps := tokens[i], ParsedSet(permissions);
      assert t in Compressed(ps);
      var p :| p in ps && Written(ps, p) == t;
      assert Free(p.Text(), ' ');
      assert forall c | c in p.resource || c in p.verb :: c in p.Text();
    }
  }

  lemma TokensReadBack(tokens: seq<Permission>, permissions: seq<string>)
    requires Lists(tokens, ParsedSet(permissions))
    ensures ParsedSet(Texts(tokens)) == Compressed(ParsedSet(permissions))
  {
    var ps := ParsedSet(permissions);
    forall i | 0 <= i < |tokens| ensures Parse(Texts(tokens)[i]) == Some(tokens[i]) {
      assert tokens[i] in Compressed(ps);
      ParseText(tokens[i]);
    }
    forall t ensures t in ParsedSet(Texts(tokens)) <==> t in tokens {
      if t in tokens {
        var i :| 0 <= i < |tokens| && tokens[i] == t;
        assert Texts(tokens)[i] in Texts(tokens);
      }
    }
  }

  lemma JoinNonEmpty(tokens: seq<Permission>)
    requires tokens != []
    ensures Join(Texts(tokens), ' ') != ""
  {
  }

  /** The tokens read from any scope of space-free permissions are the compressed ones. */
  lemma ScopeTokens(scope: string, permissions: seq<string>)
    requires IsScopeOf(scope, permissions) && SpaceFree(permissions) && scope != ""
    ensures ParsedSet(Split(scope, ' ')) == Compressed(ParsedSet(permissions))
  {
    var tokens :| Lists(tokens, ParsedSet(permissions)) && scope == Join(Texts(tokens), ' ');
    TokensSpaceFree(tokens, permissions);
    SplitJoin(Texts(tokens), ' ');
    TokensReadBack(tokens, permissions);
  }

  lemma EmptyScope(scope: string, permissions: seq<string>)
    requires IsScopeOf(scope, permissions) && scope == ""
    ensures ParsedSet(permissions) == {}
  {
    var ps := ParsedSet(permissions);
    var tokens :| Lists(tokens, ps) && scope == Join(Texts(tokens), ' ');
    assert forall p | p in ps :: Written(ps, p) in Compressed(ps) && Written(ps, p) in tokens;
    if tokens != [] {
      JoinNonEmpty(tokens);
    }
  }

  /** Whatever order the dictionary and sets took, expanding the scope gives the input back iff no permission's verb is "*". */
  lemma ScopeRoundTrip(scope: string, permissions: seq<string>)
    requires IsScopeOf(scope, permissions) && SpaceFree(permissions)
    ensures Expand(scope) == ParsedSet(permissions) <==> NoAnyVerb(ParsedSet(permissions))
  {
    if scope == "" {
      EmptyScope(scope, permissions);
    } else {
      ScopeTokens(scope, permissions);
      ExpandCompressed(ParsedSet(permissions));
    }
  }

  /** A wildcard stands for a resource exactly when its verbs are the four, or when the verb "*" was among them already. */
  lemma WildcardIffAllVerbs(scope: string, permissions: seq<string>, resource: string)
    requires IsScopeOf(scope, permissions) && SpaceFree(permissions)
    ensures Permission(resource, "*") in ParsedSet(Split(scope, ' '))
       <==> || (forall v :: Permission(resource, v) in ParsedSet(permissions) <==> v == "read" || v == "create" || v == "update" || v == "delete")
            || Permission(resource, "*") in ParsedSet(permissions)
  {
    var ps := ParsedSet(permissions);
    if scope == "" {
      EmptyScope(scope, permissions);
      assert VerbsOf(ps, resource) == {};
      assert "read" in VERBS;
    } else {
      ScopeTokens(scope, permissions);
      CompressedOf(ps, Permission(resource, ANY_VERB));
    }
    forall v ensures v in VerbsOf(ps, resource) <==> Permission(resource, v) in ps {
    }
    FourVerbs(VerbsOf(ps, resource));
  }

  lemma FourVerbs(verbs: set<string>)
    ensures verbs == VERBS <==> forall v :: v in verbs <==> v == "read" || v == "create" || v == "update" || v == "delete"
  {
  }

  /** Other resources are written verb by verb, each as it was given. */
  lemma OthersWrittenAsGiven(scope: string, permissions: seq<string>, p: Permission)
    requires IsScopeOf(scope, permissions) && SpaceFree(permissions) && p.verb != "*"
    requires !(forall v :: Permission(p.resource, v) in ParsedSet(permissions) <==> v == "read" || v == "create" || v == "update" || v == "delete")
    ensures p in ParsedSet(Split(scope, ' ')) <==> p in ParsedSet(permissions)
  {
    var ps := ParsedSet(permissions);
    forall v ensures v in VerbsOf(ps, p.resource) <==> Permission(p.resource, v) in ps {
    }
    FourVerbs(VerbsOf(ps, p.resource));
    if scope == "" {
      EmptyScope(scope, permissions);
    } else {
      ScopeTokens(scope, permissions);
      CompressedOf(ps, p);
    }
  }
}
