/** The kvdi RBAC `Rule` (apis/rbac/v1/rules.go): a value of four independent
    dimensions, its membership predicates and its structural equality.

    The membership scans (rules.go:119-173) and the element-wise comparison
    `strSliceEqual` (rules.go:92-117) are loops in Go, so they are methods
    here, each proved against a predicate that states what it decides. */
module Rules {
  import opened StringOrder

  /** Go's `type Verb string` and `type Resource string`: any string may occur,
      the recognized ones are only a convention. */
  type Verb = string
  type Resource = string

  /** The wildcard of each dimension; each is the literal "*". */
  const VerbAll: Verb := "*"
  const ResourceAll: Resource := "*"
  const NamespaceAll: string := "*"

  datatype Rule = Rule(
    verbs: seq<Verb>,
    resources: seq<Resource>,
    resourcePatterns: seq<string>,
    namespaces: seq<string>)

  /** The zero value of the Go struct: four nil slices. */
  const EmptyRule := Rule([], [], [], [])

  /** Go's `regexp` package, which this model does not reproduce: whether a
      pattern compiles, and whether a compiled pattern matches a name. */
  datatype RegexEngine = RegexEngine(
    compiles: string -> bool,
    matchString: (string, string) -> bool)

  // ---------------------------------------------------------------------
  // What each predicate decides

  /** A dimension admits `x` when it lists `x` itself or its wildcard. */
  predicate Admits(items: seq<string>, wildcard: string, x: string)
  {
    wildcard in items || x in items
  }

  /** Some pattern in `patterns` both compiles and matches `name`. */
  predicate SomePatternMatches(re: RegexEngine, patterns: seq<string>, name: string)
  {
    exists i :: 0 <= i < |patterns| && re.compiles(patterns[i]) && re.matchString(patterns[i], name)
  }

  /** The equality DeepEqual decides: each field of one rule holds the same
      strings as the same field of the other, counting repeats, in any order. */
  predicate SameFields(r: Rule, o: Rule)
  {
    multiset(r.verbs) == multiset(o.verbs) &&
    multiset(r.resources) == multiset(o.resources) &&
    multiset(r.resourcePatterns) == multiset(o.resourcePatterns) &&
    multiset(r.namespaces) == multiset(o.namespaces)
  }

  // ---------------------------------------------------------------------
  // The operations of rules.go

  /** True when none of the four fields holds anything, that is when the rule
      is the zero value of the struct. */
  predicate IsEmpty(r: Rule): (b: bool)
    ensures b <==> r == EmptyRule
  {
    |r.verbs| == 0 && |r.resources| == 0 && |r.resourcePatterns| == 0 && |r.namespaces| == 0
  }

  method HasVerb(r: Rule, verb: Verb) returns (found: bool)
    ensures found <==> Admits(r.verbs, VerbAll, verb)
  {
    for i := 0 to |r.verbs|
      invariant VerbAll !in r.verbs[..i] && verb !in r.verbs[..i]
    {
      var item := r.verbs[i];
      if item == VerbAll {
        return true;
      }
      if item == verb {
        return true;
      }
    }
    assert r.verbs[..|r.verbs|] == r.verbs;
    return false;
  }

  method HasResourceType(r: Rule, resource: Resource) returns (found: bool)
    ensures found <==> Admits(r.resources, ResourceAll, resource)
  {
    for i := 0 to |r.resources|
      invariant ResourceAll !in r.resources[..i] && resource !in r.resources[..i]
    {
      var item := r.resources[i];
      if item == ResourceAll {
        return true;
      }
      if item == resource {
        return true;
      }
    }
    assert r.resources[..|r.resources|] == r.resources;
    return false;
  }

  /** Scans the patterns in order; a pattern that does not compile is skipped,
      never reported. */
  method MatchesResourceName(re: RegexEngine, r: Rule, name: string) returns (matched: bool)
    ensures matched <==> SomePatternMatches(re, r.resourcePatterns, name)
  {
    for i := 0 to |r.resourcePatterns|
      invariant !SomePatternMatches(re, r.resourcePatterns[..i], name)
    {
      var pattern := r.resourcePatterns[i];
      if !re.compiles(pattern) {
        continue;
      }
      if re.matchString(pattern, name) {
        assert re.compiles(r.resourcePatterns[i]) && re.matchString(r.resourcePatterns[i], name);
        return true;
      }
    }
    assert r.resourcePatterns[..|r.resourcePatterns|] == r.resourcePatterns;
    return false;
  }

  method HasNamespace(r: Rule, ns: string) returns (found: bool)
    ensures found <==> Admits(r.namespaces, NamespaceAll, ns)
  {
    for i := 0 to |r.namespaces|
      invariant NamespaceAll !in r.namespaces[..i] && ns !in r.namespaces[..i]
    {
      var item := r.namespaces[i];
      if item == NamespaceAll {
        return true;
      }
      if item == ns {
        return true;
      }
    }
    assert r.namespaces[..|r.namespaces|] == r.namespaces;
    return false;
  }

  /** Element-wise comparison of two string slices. */
  method StrSliceEqual(ss: seq<string>, xx: seq<string>) returns (eq: bool)
    ensures eq <==> ss == xx
  {
    var lS, lX := |ss|, |xx|;
    if lS == 0 && lX == 0 {
      return true;
    }
    if lS != lX {
      return false;
    }
    if lS > 0 {
      for i := 0 to lS
        invariant ss[..i] == xx[..i]
      {
        if xx[i] == ss[i] {
          continue;
        }
        return false;
      }
      assert ss == ss[..lS] && xx == xx[..lS];
      return true;
    }
    // The second loop of `strSliceEqual` (rules.go:110-116, over xx) is dead
    // code: here lS == lX, lS == 0, and two empty slices returned above.
    assert false;
  }

  /** Structural equality: sorts copies of the four fields of both rules
      (DeepCopy is a value copy here, so neither rule can change) and compares
      them element by element. */
  method DeepEqual(r: Rule, rule: Rule) returns (eq: bool)
    ensures eq <==> SameFields(r, rule)
  {
    var thisCopy := r;
    var thatCopy := rule;

    var thisResourceStrings := SortStrings(thisCopy.resources);
    var thisVerbStrings := SortStrings(thisCopy.verbs);
    var thatResourceStrings := SortStrings(thatCopy.resources);
    var thatVerbStrings := SortStrings(thatCopy.verbs);

    thisCopy := thisCopy.(resourcePatterns := SortStrings(thisCopy.resourcePatterns));
    thisCopy := thisCopy.(namespaces := SortStrings(thisCopy.namespaces));
    thatCopy := thatCopy.(resourcePatterns := SortStrings(thatCopy.resourcePatterns));
    thatCopy := thatCopy.(namespaces := SortStrings(thatCopy.namespaces));

    SortedCopiesEqualIff(r.resources, rule.resources);
    SortedCopiesEqualIff(r.verbs, rule.verbs);
    SortedCopiesEqualIff(r.resourcePatterns, rule.resourcePatterns);
    SortedCopiesEqualIff(r.namespaces, rule.namespaces);

    eq := StrSliceEqual(thisResourceStrings, thatResourceStrings);
    if eq {
      eq := StrSliceEqual(thisVerbStrings, thatVerbStrings);
    }
    if eq {
      eq := StrSliceEqual(thisCopy.resourcePatterns, thatCopy.resourcePatterns);
    }
    if eq {
      eq := StrSliceEqual(thisCopy.namespaces, thatCopy.namespaces);
    }
  }

  // ---------------------------------------------------------------------
  // Properties of the decisions

  /** The wildcard admits every value, recognized or not. */
  lemma WildcardAdmitsEverything(items: seq<string>, wildcard: string, x: string)
    requires wildcard in items
    ensures Admits(items, wildcard, x)
  {
  }

  /** An empty dimension admits nothing. */
  lemma EmptyDimensionAdmitsNothing(wildcard: string, x: string)
    ensures !Admits([], wildcard, x)
  {
  }

  /** An empty pattern list matches no name, whatever the regex engine does. */
  lemma EmptyPatternsMatchNothing(re: RegexEngine, name: string)
    ensures !SomePatternMatches(re, [], name)
  {
  }

  /** The empty rule grants no verb, no resource type, no namespace, and
      matches no name, whatever the regex engine does. */
  lemma EmptyRuleMatchesNothing(re: RegexEngine, r: Rule, verb: Verb, resource: Resource, name: string, ns: string)
    requires IsEmpty(r)
    ensures !Admits(r.verbs, VerbAll, verb)
    ensures !Admits(r.resources, ResourceAll, resource)
    ensures !SomePatternMatches(re, r.resourcePatterns, name)
    ensures !Admits(r.namespaces, NamespaceAll, ns)
  {
  }

  /** Patterns compare as multisets of strings when deciding a match: any
      ordering of the same patterns matches the same names. */
  lemma PatternOrderIrrelevant(re: RegexEngine, ps: seq<string>, qs: seq<string>, name: string)
    requires multiset(ps) == multiset(qs)
    ensures SomePatternMatches(re, ps, name) <==> SomePatternMatches(re, qs, name)
  {
    if SomePatternMatches(re, ps, name) {
      var i :| 0 <= i < |ps| && re.compiles(ps[i]) && re.matchString(ps[i], name);
      assert ps[i] in multiset(qs);
      var j :| 0 <= j < |qs| && qs[j] == ps[i];
    }
    if SomePatternMatches(re, qs, name) {
      var j :| 0 <= j < |qs| && re.compiles(qs[j]) && re.matchString(qs[j], name);
      assert qs[j] in multiset(ps);
      var i :| 0 <= i < |ps| && ps[i] == qs[j];
    }
  }

  /** Membership, and so admission, depends only on the multiset of a dimension. */
  lemma SameElementsAdmitAlike(items: seq<string>, others: seq<string>, wildcard: string, x: string)
    requires multiset(items) == multiset(others)
    ensures Admits(items, wildcard, x) <==> Admits(others, wildcard, x)
  {
    assert wildcard in items <==> wildcard in multiset(items);
    assert x in items <==> x in multiset(items);
    assert wildcard in others <==> wildcard in multiset(others);
    assert x in others <==> x in multiset(others);
  }

  /** A pattern that does not compile changes nothing, wherever it stands:
      it neither matches nor stops the scan. */
  lemma InvalidPatternSkipped(re: RegexEngine, before: seq<string>, bad: string, after: seq<string>, name: string)
    requires !re.compiles(bad)
    ensures SomePatternMatches(re, before + [bad] + after, name) <==> SomePatternMatches(re, before + after, name)
  {
    var ps, qs := before + [bad] + after, before + after;
    if SomePatternMatches(re, ps, name) {
      var i :| 0 <= i < |ps| && re.compiles(ps[i]) && re.matchString(ps[i], name);
      if i < |before| {
        assert qs[i] == ps[i];
      } else {
        assert i > |before|;
        assert qs[i - 1] == ps[i];
      }
    }
    if SomePatternMatches(re, qs, name) {
      var j :| 0 <= j < |qs| && re.compiles(qs[j]) && re.matchString(qs[j], name);
      if j < |before| {
        assert ps[j] == qs[j];
      } else {
        assert ps[j + 1] == qs[j];
      }
    }
  }

  /** With one valid and one invalid pattern, a name matches exactly when the
      valid pattern matches it. */
  lemma OneValidOneInvalid(re: RegexEngine, bad: string, good: string, name: string)
    requires !re.compiles(bad) && re.compiles(good)
    ensures SomePatternMatches(re, [bad, good], name) <==> re.matchString(good, name)
  {
    InvalidPatternSkipped(re, [], bad, [good], name);
    assert [] + [bad] + [good] == [bad, good];
    assert [] + [good] == [good];
    if re.matchString(good, name) {
      assert [good][0] == good;
    }
  }

  // ---------------------------------------------------------------------
  // Properties of DeepEqual

  lemma SameFieldsReflexive(r: Rule)
    ensures SameFields(r, r)
  {
  }

  lemma SameFieldsSymmetric(r: Rule, o: Rule)
    requires SameFields(r, o)
    ensures SameFields(o, r)
  {
  }

  lemma SameFieldsTransitive(r: Rule, o: Rule, p: Rule)
    requires SameFields(r, o) && SameFields(o, p)
    ensures SameFields(r, p)
  {
  }

  /** Reordering a field never changes the equality. */
  lemma SameFieldsIgnoresOrder(r: Rule, verbs: seq<Verb>, resources: seq<Resource>, patterns: seq<string>, namespaces: seq<string>)
    requires multiset(verbs) == multiset(r.verbs) && multiset(resources) == multiset(r.resources)
    requires multiset(patterns) == multiset(r.resourcePatterns) && multiset(namespaces) == multiset(r.namespaces)
    ensures SameFields(r, Rule(verbs, resources, patterns, namespaces))
  {
  }

  /** Repeats count: `["read", "read"]` and `["read"]` are different verb lists. */
  lemma SameFieldsCountsDuplicates()
    ensures !SameFields(Rule(["read", "read"], [], [], []), Rule(["read"], [], [], []))
  {
  }

  /** Patterns are compared as strings: two patterns are different even when
      the engine gives them the same meaning. */
  lemma SameFieldsIsSyntactic(re: RegexEngine)
    requires forall name :: re.matchString("a", name) == re.matchString("b", name)
    ensures !SameFields(Rule([], [], ["a"], []), Rule([], [], ["b"], []))
  {
  }

  /** Rules DeepEqual finds equal take the same decisions: the equality is
      sound for deduplicating rules. */
  lemma SameFieldsDecideAlike(re: RegexEngine, r: Rule, o: Rule, verb: Verb, resource: Resource, name: string, ns: string)
    requires SameFields(r, o)
    ensures Admits(r.verbs, VerbAll, verb) <==> Admits(o.verbs, VerbAll, verb)
    ensures Admits(r.resources, ResourceAll, resource) <==> Admits(o.resources, ResourceAll, resource)
    ensures SomePatternMatches(re, r.resourcePatterns, name) <==> SomePatternMatches(re, o.resourcePatterns, name)
    ensures Admits(r.namespaces, NamespaceAll, ns) <==> Admits(o.namespaces, NamespaceAll, ns)
  {
    PatternOrderIrrelevant(re, r.resourcePatterns, o.resourcePatterns, name);
    SameElementsAdmitAlike(r.verbs, o.verbs, VerbAll, verb);
    SameElementsAdmitAlike(r.resources, o.resources, ResourceAll, resource);
    SameElementsAdmitAlike(r.namespaces, o.namespaces, NamespaceAll, ns);
  }

  /** Only empty rules equal the empty rule. */
  lemma SameFieldsAsEmpty(r: Rule)
    ensures SameFields(r, EmptyRule) <==> IsEmpty(r)
  {
  }
}
