/**
 Access to pages by path rules: the rules at the nearest path at or above a page decide alone. Rule
 paths are LIKE patterns, so one with an underscore may also match where it is no ancestor.
 */
module PageAccess {
  import opened Options
  import opened WikiLinks
  import opened SqlLike

  datatype Level = View | Edit

  datatype RuleKey = RuleKey(path: Slug, group: int)

  type Rules = map<RuleKey, Level>

  datatype Access = Access(restricted: bool, canView: bool, canEdit: bool)

  predicate Applies(rule: Slug, path: string) {
    path == rule || Like(path, Below(rule))
  }

  /** A longest rule path that applies; nothing orders rule paths of the same length. */
  predicate IsNearest(rules: Rules, path: string, nearest: Slug) {
    && (exists key :: key in rules && key.path == nearest)
    && Applies(nearest, path)
    && (forall key :: key in rules && Applies(key.path, path) ==> |key.path| <= |nearest|)
  }

  predicate Grants(rules: Rules, groups: set<int>, nearest: Slug, needed: set<Level>) {
    exists key :: key in rules && key.path == nearest && key.group in groups && rules[key] in needed
  }

  function Evaluate(rules: Rules, groups: set<int>, nearest: Slug): Access {
    Access(true, Grants(rules, groups, nearest, {View, Edit}), Grants(rules, groups, nearest, {Edit}))
  }

  /** What the query for one path may return. */
  ghost predicate IsAccess(rules: Rules, groups: set<int>, path: string, access: Access) {
    || (access == Access(false, false, false) && forall key :: key in rules ==> !Applies(key.path, path))
    || (exists nearest: Slug :: IsNearest(rules, path, nearest) && access == Evaluate(rules, groups, nearest))
  }

  /** Some nearest rule path exists as soon as one applies. */
  lemma {:induction false} SomeNearest(rules: Rules, path: string, key: RuleKey, longest: nat)
    requires key in rules && Applies(key.path, path) && forall k :: k in rules && Applies(k.path, path) ==> |k.path| <= longest
    ensures exists nearest: Slug :: IsNearest(rules, path, nearest)
    decreases longest - |key.path|
  {
    hide Applies;
    if other :| other in rules && Applies(other.path, path) && |other.path| > |key.path| {
      SomeNearest(rules, path, other, longest);
    } else {
      assert IsNearest(rules, path, key.path);
    }
  }

  lemma AppliesBounded(rule: Slug, path: string)
    requires Applies(rule, path)
    ensures |rule| <= |path|
  {
    if path != rule {
      LikeBelow(path, rule);
    }
  }

  /** The nearest rule path that a query picked, if any applies. */
  ghost predicate Picked(rules: Rules, path: string, nearest: Option<Slug>) {
    match nearest
    case None => forall key :: key in rules ==> !Applies(key.path, path)
    case Some(n) => IsNearest(rules, path, n)
  }

  method PickNearest(rules: Rules, path: string) returns (nearest: Option<Slug>)
    ensures Picked(rules, path, nearest)
  {
    hide Applies;
    if key :| key in rules && IsNearest(rules, path, key.path) {
      return Some(key.path);
    }
    forall key | key in rules
      ensures !Applies(key.path, path)
    {
      NoNearest(rules, path, key);
    }
    return None;
  }

  method PageAccess(rules: Rules, groups: set<int>, path: string) returns (access: Access)
    ensures IsAccess(rules, groups, path, access)
  {
    hide Applies;
    var nearest := PickNearest(rules, path);
    match nearest {
      case None => access := Access(false, false, false);
      case Some(n) => access := Evaluate(rules, groups, n);
    }
  }

  lemma NoNearest(rules: Rules, path: string, key: RuleKey)
    requires key in rules && forall k :: k in rules ==> !IsNearest(rules, path, k.path)
    ensures !Applies(key.path, path)
  {
    hide Applies;
    if Applies(key.path, path) {
      forall k | k in rules && Applies(k.path, path)
        ensures |k.path| <= |path|
      {
        AppliesBounded(k.path, path);
      }
      SomeNearest(rules, path, key, |path|);
      assert false;
    }
  }

  // ---- the batch query: outer joins, and an aggregate over their rows

  /** SQL's three truth values. */
  datatype Truth = Yes | No | Unknown

  function And(a: Truth, b: Truth): Truth {
    if a.No? || b.No? then No else if a.Unknown? || b.Unknown? then Unknown else Yes
  }

  /** bool_or passes over unknown values, and is unknown when there is no other. */
  function BoolOr(values: seq<Truth>): Truth {
    if values == [] then Unknown else
    var rest := BoolOr(values[1..]);
    match values[0]
    case Unknown => rest
    case Yes => Yes
    case No => if rest.Yes? then Yes else No
  }

  function CoalesceFalse(t: Truth): bool {
    t.Yes?
  }

  /** A requested path joined to one rule of its nearest path, or to none, and to the user's membership. */
  datatype Joined = Joined(level: Option<Level>, member: bool)

  /** Membership is tested by IS NOT NULL, which is never unknown; a missing level is. */
  function Granted(row: Joined, needed: set<Level>): Truth {
    And(if row.member then Yes else No, match row.level case None => Unknown case Some(level) => if level in needed then Yes else No)
  }

  function Column(rows: seq<Joined>, needed: set<Level>): (r: seq<Truth>)
    ensures |r| == |rows| && forall k :: 0 <= k < |rows| ==> r[k] == Granted(rows[k], needed)
  {
    seq(|rows|, k requires 0 <= k < |rows| => Granted(rows[k], needed))
  }

  /** One group of joined rows. */
  function Aggregate(nearest: Option<Slug>, rows: seq<Joined>): Access {
    Access(nearest.Some?, CoalesceFalse(BoolOr(Column(rows, {View, Edit}))), CoalesceFalse(BoolOr(Column(rows, {Edit}))))
  }

  /** The rules of the nearest path, each once and in any order; none match a missing path. */
  ghost predicate Matched(rules: Rules, nearest: Option<Slug>, keys: seq<RuleKey>) {
    && (forall k :: 0 <= k < |keys| ==> keys[k] in rules && nearest == Some(keys[k].path))
    && (forall key :: key in rules && nearest == Some(key.path) ==> key in keys)
    && (forall j, k :: 0 <= j < k < |keys| ==> keys[j] != keys[k])
  }

  /** An outer join: without a rule to join there is one row of nulls. */
  function JoinedRows(rules: Rules, groups: set<int>, keys: seq<RuleKey>): (r: seq<Joined>)
    requires forall k :: 0 <= k < |keys| ==> keys[k] in rules
  {
    if keys == [] then [Joined(None, false)]
    else seq(|keys|, k requires 0 <= k < |keys| => Joined(Some(rules[keys[k]]), keys[k].group in groups))
  }

  /** What the batch query may return for a requested path. */
  ghost predicate IsBatchAccess(rules: Rules, groups: set<int>, path: string, access: Access) {
    exists nearest, keys :: Picked(rules, path, nearest) && Matched(rules, nearest, keys) && access == Aggregate(nearest, JoinedRows(rules, groups, keys))
  }

  lemma {:induction false} BoolOrIs(values: seq<Truth>)
    ensures BoolOr(values).Yes? <==> Yes in values
    ensures BoolOr(values).Unknown? <==> forall k :: 0 <= k < |values| ==> values[k].Unknown?
  {
    if values != [] {
      BoolOrIs(values[1..]);
      assert values == [values[0]] + values[1..];
    }
  }

  /** The aggregate of the joined rows is whether some rule of the nearest path grants the access. */
  lemma ColumnIsGrants(rules: Rules, groups: set<int>, nearest: Option<Slug>, keys: seq<RuleKey>, needed: set<Level>)
    requires Matched(rules, nearest, keys)
    ensures CoalesceFalse(BoolOr(Column(JoinedRows(rules, groups, keys), needed))) <==> nearest.Some? && Grants(rules, groups, nearest.value, needed)
  {
    var rows := JoinedRows(rules, groups, keys);
    var column := Column(rows, needed);
    BoolOrIs(column);
    if Yes in column {
      var k :| 0 <= k < |column| && column[k] == Yes;
      assert Granted(rows[k], needed).Yes?;
      assert keys[k] in rules && keys[k].group in groups && rules[keys[k]] in needed;
    }
    if nearest.Some? && Grants(rules, groups, nearest.value, needed) {
      var key :| key in rules && key.path == nearest.value && key.group in groups && rules[key] in needed;
      var k :| 0 <= k < |keys| && keys[k] == key;
      assert column[k] == Yes;
    }
  }

  /** The batch query's group for a path is the single query's answer for the same nearest path. */
  lemma AggregateIsEvaluate(rules: Rules, groups: set<int>, nearest: Option<Slug>, keys: seq<RuleKey>)
    requires Matched(rules, nearest, keys)
    ensures Aggregate(nearest, JoinedRows(rules, groups, keys)) == if nearest.Some? then Evaluate(rules, groups, nearest.value) else Access(false, false, false)
  {
    hide Matched, JoinedRows, Grants, BoolOr, Column, CoalesceFalse;
    ColumnIsGrants(rules, groups, nearest, keys, {View, Edit});
    ColumnIsGrants(rules, groups, nearest, keys, {Edit});
  }

  lemma {:induction false} Listed(keys: set<RuleKey>) returns (s: seq<RuleKey>)
    ensures (forall key :: key in keys <==> key in s) && forall j, k :: 0 <= j < k < |s| ==> s[j] != s[k]
    decreases keys
  {
    s := [];
    if key :| key in keys {
      var rest := Listed(keys - {key});
      s := rest + [key];
    }
  }

  /** Both queries may give the same answers. */
  lemma BatchIsAccess(rules: Rules, groups: set<int>, path: string, access: Access)
    ensures IsBatchAccess(rules, groups, path, access) <==> IsAccess(rules, groups, path, access)
  {
    hide Applies, Aggregate, JoinedRows, Evaluate, IsNearest;
    if IsBatchAccess(rules, groups, path, access) {
      var nearest, keys :| Picked(rules, path, nearest) && Matched(rules, nearest, keys) && access == Aggregate(nearest, JoinedRows(rules, groups, keys));
      AggregateIsEvaluate(rules, groups, nearest, keys);
    }
    if IsAccess(rules, groups, path, access) {
      var nearest := PickedFor(rules, groups, path, access);
      var keys := Listed(set key | key in rules && nearest == Some(key.path));
      assert Matched(rules, nearest, keys) by { ListedMatches(rules, nearest, keys); }
      AggregateIsEvaluate(rules, groups, nearest, keys);
    }
  }

  lemma PickedFor(rules: Rules, groups: set<int>, path: string, access: Access) returns (nearest: Option<Slug>)
    requires IsAccess(rules, groups, path, access)
    ensures Picked(rules, path, nearest) && access == if nearest.Some? then Evaluate(rules, groups, nearest.value) else Access(false, false, false)
  {
    hide Applies, Evaluate, IsNearest;
    if n: Slug :| IsNearest(rules, path, n) && access == Evaluate(rules, groups, n) {
      nearest := Some(n);
    } else {
      nearest := None;
    }
  }

  lemma ListedMatches(rules: Rules, nearest: Option<Slug>, keys: seq<RuleKey>)
    requires forall key :: key in (set k | k in rules && nearest == Some(k.path)) <==> key in keys
    requires forall j, k :: 0 <= j < k < |keys| ==> keys[j] != keys[k]
    ensures Matched(rules, nearest, keys)
  {
    forall k | 0 <= k < |keys|
      ensures keys[k] in rules && nearest == Some(keys[k].path)
    {
      assert keys[k] in keys;
    }
  }

  /** The rules that the outer join matches. */
  method MatchRules(rules: Rules, nearest: Option<Slug>) returns (keys: seq<RuleKey>)
    ensures Matched(rules, nearest, keys)
  {
    var todo := set key | key in rules && nearest == Some(key.path);
    ghost var all := todo;
    keys := [];
    while exists key :: key in todo
      invariant todo <= all && (forall key :: key in all <==> key in todo || key in keys)
      invariant (forall k :: 0 <= k < |keys| ==> keys[k] !in todo) && forall j, k :: 0 <= j < k < |keys| ==> keys[j] != keys[k]
      decreases todo
    {
      var key :| key in todo;
      keys := keys + [key];
      todo := todo - {key};
    }
    ListedMatches(rules, nearest, keys);
  }

  /** One query for many paths; each distinct one is a group of its own. */
  method PageAccessBatch(rules: Rules, groups: set<int>, paths: seq<string>) returns (result: map<string, Access>)
    ensures result.Keys == set p | p in paths
    ensures forall p :: p in result ==> IsBatchAccess(rules, groups, p, result[p])
  {
    hide IsBatchAccess, Aggregate, JoinedRows, Picked;
    var requested := set p | p in paths;
    var todo := requested;
    result := map[];
    while exists p :: p in todo
      invariant todo <= requested && result.Keys == requested - todo
      invariant forall p :: p in result ==> IsBatchAccess(rules, groups, p, result[p])
      decreases todo
    {
      var p :| p in todo;
      var nearest := PickNearest(rules, p);
      var keys := MatchRules(rules, nearest);
      var access := Aggregate(nearest, JoinedRows(rules, groups, keys));
      IsBatchAnswer(rules, groups, p, nearest, keys);
      result := result[p := access];
      todo := todo - {p};
    }
  }

  lemma IsBatchAnswer(rules: Rules, groups: set<int>, path: string, nearest: Option<Slug>, keys: seq<RuleKey>)
    requires Picked(rules, path, nearest) && Matched(rules, nearest, keys)
    ensures IsBatchAccess(rules, groups, path, Aggregate(nearest, JoinedRows(rules, groups, keys)))
  {
    hide Picked, Matched, Aggregate, JoinedRows;
  }

  // ---- when the nearest rule path is unique

  /** Some path is below both rule paths as patterns. */
  predicate Unify(p: Slug, q: Slug) {
    |p| == |q| && forall k :: 0 <= k < |p| ==> p[k] == q[k] || p[k] == '_' || q[k] == '_'
  }

  ghost predicate Unambiguous(rules: Rules) {
    forall i, j :: i in rules && j in rules && i.path != j.path ==> !Unify(i.path, j.path)
  }

  /** A path below two patterns of the same length shows that they unify. */
  lemma BothApply(p: Slug, q: Slug, path: string)
    requires Applies(p, path) && Applies(q, path) && |p| == |q|
    ensures Unify(p, q)
  {
    LikeBelow(path, p);
    LikeBelow(path, q);
    forall k | 0 <= k < |p|
      ensures p[k] == q[k] || p[k] == '_' || q[k] == '_'
    {
      if path != p && path != q {
        assert Matches(path[k], p[k]) && Matches(path[k], q[k]);
      }
    }
  }

  function Common(p: Slug, q: Slug): Slug
    requires Unify(p, q)
  {
    seq(|p|, k requires 0 <= k < |p| => if p[k] != '_' then p[k] else if q[k] != '_' then q[k] else 'x')
  }

  function Tail(n: nat): (r: string)
    ensures |r| == n && forall k :: 0 <= k < n ==> r[k] == 'x'
  {
    seq(n, k => 'x')
  }

  /** A path so long and flat that only rule paths up to `p`'s length can apply to it. */
  function Deep(p: Slug, q: Slug, n: nat): Slug
    requires Unify(p, q)
  {
    Common(p, q) + "/" + Tail(n + 1)
  }

  lemma DeepMatches(p: Slug, q: Slug, n: nat)
    requires Unify(p, q)
    ensures Applies(p, Deep(p, q, n)) && Applies(q, Deep(p, q, n))
  {
    var path := Deep(p, q, n);
    assert path[|p|] == '/';
    LikeBelow(path, p);
    LikeBelow(path, q);
  }

  lemma DeepBounds(p: Slug, q: Slug, n: nat, r: Slug)
    requires Unify(p, q) && Applies(r, Deep(p, q, n)) && |r| <= n
    ensures |r| <= |p|
  {
    var path := Deep(p, q, n);
    LikeBelow(path, r);
    assert forall k :: |p| < k < |path| ==> path[k] == 'x';
  }

  lemma {:induction false} LongestRule(keys: set<RuleKey>) returns (n: nat)
    ensures forall key :: key in keys ==> |key.path| <= n
    decreases keys
  {
    n := 0;
    if key :| key in keys {
      n := LongestRule(keys - {key});
      n := if |key.path| > n then |key.path| else n;
    }
  }

  /** The nearest rule path is unique for every page exactly when no two rule paths unify. */
  lemma NearestIsUnique(rules: Rules)
    ensures (forall path, n: Slug, m: Slug :: IsNearest(rules, path, n) && IsNearest(rules, path, m) ==> n == m) <==> Unambiguous(rules)
  {
    hide Applies, Unify;
    forall path, n: Slug, m: Slug | IsNearest(rules, path, n) && IsNearest(rules, path, m)
      ensures |n| == |m| && Unify(n, m)
    {
      BothApply(n, m, path);
    }
    forall i, j | i in rules && j in rules && Unify(i.path, j.path)
      ensures exists path :: IsNearest(rules, path, i.path) && IsNearest(rules, path, j.path)
    {
      var path := NearestTogether(rules, i, j);
    }
  }

  lemma SameLength(p: Slug, q: Slug)
    requires Unify(p, q)
    ensures |p| == |q|
  {
  }

  lemma PlainPathsAreUnambiguous(rules: Rules)
    requires forall key :: key in rules ==> '_' !in key.path
    ensures Unambiguous(rules)
  {
    forall i, j | i in rules && j in rules && Unify(i.path, j.path)
      ensures i.path == j.path
    {
      assert forall k :: 0 <= k < |i.path| ==> i.path[k] in i.path && j.path[k] in j.path;
    }
  }

  /** Both rule paths grant every group the same level, or nothing. */
  ghost predicate SameLevels(rules: Rules, p: Slug, q: Slug) {
    forall g :: (RuleKey(p, g) in rules <==> RuleKey(q, g) in rules) && (RuleKey(p, g) in rules ==> rules[RuleKey(p, g)] == rules[RuleKey(q, g)])
  }

  /** The two queries never give different answers for a page and a user. */
  ghost predicate Determined(rules: Rules) {
    forall path, groups, single, batch :: IsAccess(rules, groups, path, single) && IsBatchAccess(rules, groups, path, batch) ==> single == batch
  }

  ghost predicate Consistent(rules: Rules) {
    forall i, j :: i in rules && j in rules && Unify(i.path, j.path) ==> SameLevels(rules, i.path, j.path)
  }

  lemma GrantsOne(rules: Rules, g: int, p: Slug, needed: set<Level>)
    ensures Grants(rules, {g}, p, needed) <==> RuleKey(p, g) in rules && rules[RuleKey(p, g)] in needed
  {
    if Grants(rules, {g}, p, needed) {
      var key :| key in rules && key.path == p && key.group in {g} && rules[key] in needed;
      assert key == RuleKey(p, g);
    }
  }

  /** What one group's member may do by the rules of one path. */
  lemma EvaluateOne(rules: Rules, g: int, p: Slug)
    ensures Evaluate(rules, {g}, p) == Access(true, RuleKey(p, g) in rules, RuleKey(p, g) in rules && rules[RuleKey(p, g)] == Edit)
  {
    hide Grants;
    GrantsOne(rules, g, p, {View, Edit});
    GrantsOne(rules, g, p, {Edit});
    if RuleKey(p, g) in rules {
      match rules[RuleKey(p, g)]
      case View =>
      case Edit =>
    }
  }

  lemma SameLevelsGrant(rules: Rules, groups: set<int>, p: Slug, q: Slug, needed: set<Level>)
    requires SameLevels(rules, p, q) && Grants(rules, groups, p, needed)
    ensures Grants(rules, groups, q, needed)
  {
    var key :| key in rules && key.path == p && key.group in groups && rules[key] in needed;
    assert key == RuleKey(p, key.group);
    assert RuleKey(q, key.group) in rules;
  }

  lemma SameLevelsEvaluate(rules: Rules, groups: set<int>, p: Slug, q: Slug)
    requires SameLevels(rules, p, q)
    ensures Evaluate(rules, groups, p) == Evaluate(rules, groups, q)
  {
    forall needed: set<Level>
      ensures Grants(rules, groups, p, needed) <==> Grants(rules, groups, q, needed)
    {
      if Grants(rules, groups, p, needed) { SameLevelsGrant(rules, groups, p, q, needed); }
      if Grants(rules, groups, q, needed) { SameLevelsGrant(rules, groups, q, p, needed); }
    }
  }

  lemma ConsistentAgrees(rules: Rules, groups: set<int>, path: string, single: Access, batch: Access)
    requires Consistent(rules) && IsAccess(rules, groups, path, single) && IsBatchAccess(rules, groups, path, batch)
    ensures single == batch
  {
    hide Applies, Evaluate, Unify, SameLevels, IsBatchAccess;
    BatchIsAccess(rules, groups, path, batch);
    RestrictedIs(rules, groups, path, single);
    RestrictedIs(rules, groups, path, batch);
    if single.restricted && batch.restricted {
      var n: Slug :| IsNearest(rules, path, n) && single == Evaluate(rules, groups, n);
      var m: Slug :| IsNearest(rules, path, m) && batch == Evaluate(rules, groups, m);
      BothApply(n, m, path);
      SameLevelsEvaluate(rules, groups, n, m);
    }
  }

  /** Two unifying rule paths are nearest together for some page. */
  lemma NearestTogether(rules: Rules, i: RuleKey, j: RuleKey) returns (path: string)
    requires i in rules && j in rules && Unify(i.path, j.path)
    ensures IsNearest(rules, path, i.path) && IsNearest(rules, path, j.path)
  {
    hide Applies, Unify;
    SameLength(i.path, j.path);
    var n := LongestRule(rules.Keys);
    path := Deep(i.path, j.path, n);
    DeepMatches(i.path, j.path, n);
    forall key | key in rules && Applies(key.path, path)
      ensures |key.path| <= |i.path|
    {
      DeepBounds(i.path, j.path, n, key.path);
    }
  }

  lemma DifferentLevels(rules: Rules, i: RuleKey, j: RuleKey)
    requires i in rules && j in rules && Unify(i.path, j.path) && Determined(rules)
    ensures SameLevels(rules, i.path, j.path)
  {
    hide Applies, Unify, IsNearest, Evaluate, IsBatchAccess;
    var path := NearestTogether(rules, i, j);
    forall g
      ensures (RuleKey(i.path, g) in rules <==> RuleKey(j.path, g) in rules) && (RuleKey(i.path, g) in rules ==> rules[RuleKey(i.path, g)] == rules[RuleKey(j.path, g)])
    {
      EvaluateOne(rules, g, i.path);
      EvaluateOne(rules, g, j.path);
      assert IsAccess(rules, {g}, path, Evaluate(rules, {g}, i.path)) && IsAccess(rules, {g}, path, Evaluate(rules, {g}, j.path));
      BatchIsAccess(rules, {g}, path, Evaluate(rules, {g}, j.path));
    }
  }

  /**
   The batch agrees with the single query at every path and for every user exactly when any two rule
   paths that match a common page at equal length grant every group the same.
   */
  lemma BatchAgreesWithSingle(rules: Rules)
    ensures Determined(rules) <==> Consistent(rules)
  {
    hide IsAccess, IsBatchAccess, Unify, SameLevels;
    if Determined(rules) {
      forall i, j | i in rules && j in rules && Unify(i.path, j.path)
        ensures SameLevels(rules, i.path, j.path)
      {
        DifferentLevels(rules, i, j);
      }
    }
    if Consistent(rules) {
      forall path, groups, single, batch | IsAccess(rules, groups, path, single) && IsBatchAccess(rules, groups, path, batch)
        ensures single == batch
      {
        ConsistentAgrees(rules, groups, path, single, batch);
      }
    }
  }

  /** In particular they agree where the nearest rule path is always unique. */
  lemma UnambiguousAgrees(rules: Rules)
    requires Unambiguous(rules)
    ensures Determined(rules)
  {
    hide Determined, Unify;
    forall i, j | i in rules && j in rules && Unify(i.path, j.path)
      ensures SameLevels(rules, i.path, j.path)
    {
    }
    BatchAgreesWithSingle(rules);
  }

  lemma RestrictedIs(rules: Rules, groups: set<int>, path: string, access: Access)
    requires IsAccess(rules, groups, path, access)
    ensures access.restricted <==> exists key :: key in rules && Applies(key.path, path)
    ensures !access.restricted ==> access == Access(false, false, false)
  {
    hide Applies;
  }

  /** Two rule paths that unify can give one user two different answers for one page. */
  lemma AmbiguousAnswers()
    ensures var rules := map[RuleKey("a_c", 1) := Edit, RuleKey("abc", 2) := View];
      IsAccess(rules, {1}, "abc/d", Access(true, true, true)) && IsAccess(rules, {1}, "abc/d", Access(true, false, false))
  {
    var a, b, path := RuleKey("a_c", 1), RuleKey("abc", 2), "abc/d";
    var rules := map[a := Edit, b := View];
    LikeBelow(path, a.path);
    LikeBelow(path, b.path);
    assert IsNearest(rules, path, a.path) && IsNearest(rules, path, b.path);
    assert Grants(rules, {1}, a.path, {Edit}) by { assert a in rules; }
    assert Grants(rules, {1}, a.path, {View, Edit}) by { assert a in rules; }
    assert Evaluate(rules, {1}, a.path) == Access(true, true, true);
    assert Evaluate(rules, {1}, b.path) == Access(true, false, false);
  }

  // ---- what the answer depends on

  lemma EditImpliesView(rules: Rules, groups: set<int>, path: string, access: Access)
    requires IsAccess(rules, groups, path, access)
    ensures access.canEdit ==> access.canView
    ensures access.canView ==> access.restricted
  {
    hide Applies;
  }

  /** Both rule sets have the same rules at the path and above the length of the nearest one. */
  ghost predicate SameNear(rules: Rules, rules': Rules, path: string, nearest: Slug) {
    forall key: RuleKey :: Applies(key.path, path) && |key.path| >= |nearest| ==>
      (key in rules <==> key in rules') && (key in rules ==> rules[key] == rules'[key])
  }

  /** Rules that do not apply, or are farther away than the nearest one, have no effect. */
  lemma OtherRulesDoNotMatter(rules: Rules, rules': Rules, groups: set<int>, path: string, nearest: Slug)
    requires IsNearest(rules, path, nearest) && SameNear(rules, rules', path, nearest)
    ensures IsNearest(rules', path, nearest) && Evaluate(rules', groups, nearest) == Evaluate(rules, groups, nearest)
  {
    hide Applies;
    var key :| key in rules && key.path == nearest;
    assert key in rules';
    forall k | k in rules' && Applies(k.path, path)
      ensures |k.path| <= |nearest|
    {
      assert |k.path| >= |nearest| ==> k in rules;
    }
    SameGrants(rules, rules', groups, path, nearest, {View, Edit});
    SameGrants(rules, rules', groups, path, nearest, {Edit});
  }

  lemma SameGrants(rules: Rules, rules': Rules, groups: set<int>, path: string, nearest: Slug, needed: set<Level>)
    requires Applies(nearest, path) && SameNear(rules, rules', path, nearest)
    ensures Grants(rules, groups, nearest, needed) <==> Grants(rules', groups, nearest, needed)
  {
    hide Applies;
    if Grants(rules, groups, nearest, needed) {
      var key :| key in rules && key.path == nearest && key.group in groups && rules[key] in needed;
      assert key in rules';
    }
    if Grants(rules', groups, nearest, needed) {
      var key :| key in rules' && key.path == nearest && key.group in groups && rules'[key] in needed;
      assert key in rules;
    }
  }

  // ---- which rules apply

  /** The rule's own path, and what is below a path that its underscores match. */
  predicate Reaches(rule: string, path: string) {
    path == rule || (|path| > |rule| && path[|rule|] == '/' && forall k :: 0 <= k < |rule| ==> rule[k] == '_' || rule[k] == path[k])
  }

  lemma AppliesIs(rule: Slug, path: string)
    ensures Applies(rule, path) <==> Reaches(rule, path)
  {
    hide Like;
    LikeBelow(path, rule);
    if LooksBelow(path, rule) {
      forall k | 0 <= k < |rule|
        ensures rule[k] == '_' || rule[k] == path[k]
      {
        assert Matches(path[k], rule[k]);
      }
    }
  }

  /** The page of a path, or one below it. */
  predicate AtOrBelow(path: string, rule: string) {
    path == rule || rule + "/" <= path
  }

  lemma PlainApplies(rule: Slug, path: string)
    requires '_' !in rule
    ensures Applies(rule, path) <==> AtOrBelow(path, rule)
  {
    hide Applies;
    AppliesIs(rule, path);
    IsBelowIs(path, rule);
    assert forall k :: 0 <= k < |rule| ==> rule[k] in rule;
  }

  ghost predicate SomeGroup(rules: Rules, groups: set<int>, rule: Slug, edit: bool) {
    exists g :: g in groups && RuleKey(rule, g) in rules && (edit ==> rules[RuleKey(rule, g)] == Edit)
  }

  lemma SomeGroupIs(rules: Rules, groups: set<int>, rule: Slug)
    ensures Evaluate(rules, groups, rule) == Access(true, SomeGroup(rules, groups, rule, false), SomeGroup(rules, groups, rule, true))
  {
    forall edit: bool
      ensures SomeGroup(rules, groups, rule, edit) <==> Grants(rules, groups, rule, if edit then {Edit} else {View, Edit})
    {
      var needed := if edit then {Edit} else {View, Edit};
      if key :| key in rules && key.path == rule && key.group in groups && rules[key] in needed {
        assert key == RuleKey(rule, key.group);
      }
      if g :| g in groups && RuleKey(rule, g) in rules && (edit ==> rules[RuleKey(rule, g)] == Edit) {
        var key := RuleKey(rule, g);
        assert rules[key].View? || rules[key].Edit?;
        assert key in rules && key.path == rule && key.group in groups && rules[key] in needed;
      }
    }
  }

  /** The rules of a longest rule path that reaches the page decide, by the groups that they name. */
  ghost predicate Decides(rules: Rules, path: string, key: RuleKey) {
    key in rules && Reaches(key.path, path) && forall other :: other in rules && Reaches(other.path, path) ==> |other.path| <= |key.path|
  }

  lemma AccessIs(rules: Rules, groups: set<int>, path: string, access: Access)
    ensures IsAccess(rules, groups, path, access) <==>
      || (access == Access(false, false, false) && forall key :: key in rules ==> !Reaches(key.path, path))
      || (exists key :: Decides(rules, path, key) && access == Access(true, SomeGroup(rules, groups, key.path, false), SomeGroup(rules, groups, key.path, true)))
  {
    hide Applies, Evaluate, SomeGroup, Reaches;
    forall key | key in rules
      ensures Applies(key.path, path) <==> Reaches(key.path, path)
      ensures Evaluate(rules, groups, key.path) == Access(true, SomeGroup(rules, groups, key.path, false), SomeGroup(rules, groups, key.path, true))
    {
      AppliesIs(key.path, path);
      SomeGroupIs(rules, groups, key.path);
    }
    if nearest: Slug :| IsNearest(rules, path, nearest) && access == Evaluate(rules, groups, nearest) {
      var key :| key in rules && key.path == nearest;
      assert Decides(rules, path, key);
    }
    if key :| Decides(rules, path, key) && access == Access(true, SomeGroup(rules, groups, key.path, false), SomeGroup(rules, groups, key.path, true)) {
      assert IsNearest(rules, path, key.path);
    }
  }

  /** For rule paths without an underscore the rules at the nearest path decide, by the groups that they name. */
  lemma NearestDecides(rules: Rules, groups: set<int>, path: string, nearest: RuleKey, access: Access)
    requires forall key :: key in rules ==> '_' !in key.path
    requires nearest in rules && AtOrBelow(path, nearest.path) && forall key :: key in rules && AtOrBelow(path, key.path) ==> |key.path| <= |nearest.path|
    ensures IsAccess(rules, groups, path, access) <==>
      access == Access(true, SomeGroup(rules, groups, nearest.path, false), SomeGroup(rules, groups, nearest.path, true))
  {
    hide Applies, Evaluate, SomeGroup, AtOrBelow, Unify;
    forall key | key in rules
      ensures Applies(key.path, path) <==> AtOrBelow(path, key.path)
    {
      PlainApplies(key.path, path);
    }
    SomeGroupIs(rules, groups, nearest.path);
    assert IsNearest(rules, path, nearest.path);
    PlainPathsAreUnambiguous(rules);
    NearestIsUnique(rules);
  }

  /** Where no rule is at or above a page, access is unrestricted. */
  lemma NoRuleDecides(rules: Rules, groups: set<int>, path: string, access: Access)
    requires forall key :: key in rules ==> '_' !in key.path && !AtOrBelow(path, key.path)
    ensures IsAccess(rules, groups, path, access) <==> access == Access(false, false, false)
  {
    hide Applies, Evaluate, AtOrBelow;
    forall key | key in rules
      ensures !Applies(key.path, path)
    {
      PlainApplies(key.path, path);
    }
  }
}
