/** The mapping of token claims to grants, after internal/domain/access/policy.go. */
module Policy {
  import opened Wrappers
  import opened Text
  import opened Json
  import opened Sequences
  import opened Sorting

  datatype Grant = Grant(scope: string, workspace: string, role: string)

  datatype Condition = Contains(text: string) | Equals(value: Json)

  datatype Rule = Rule(path: seq<string>, when: Condition, grant: Grant)

  // ---------------------------------------------------------------- pointers into claims

  /** strconv.Itoa */
  function Itoa(n: nat): string {
    if n < 10 then [Digit(n)] else Itoa(n / 10) + [Digit(n % 10)]
  }

  function Digit(n: nat): char
    requires n < 10
  {
    '0' + n as char
  }

  predicate Digits(s: string) { s != [] && forall i | 0 <= i < |s| :: '0' <= s[i] <= '9' }

  function ValueOf(s: string): nat
    requires forall i | 0 <= i < |s| :: '0' <= s[i] <= '9'
  {
    if s == [] then 0 else ValueOf(s[..|s| - 1]) * 10 + (s[|s| - 1] - '0') as nat
  }

  /** strconv.Atoi; None is its error.  The numbers it refuses for their size are beyond every
      list, so here it has no size limit. */
  function Atoi(s: string): Option<int> {
    var sign := s != [] && (s[0] == '-' || s[0] == '+');
    var digits := if sign then s[1..] else s;
    if !Digits(digits) then None
    else Some(if sign && s[0] == '-' then 0 - ValueOf(digits) else ValueOf(digits))
  }

  lemma {:induction false} ItoaReads(n: nat)
    ensures Digits(Itoa(n)) && ValueOf(Itoa(n)) == n
  {
    if n >= 10 {
      ItoaReads(n / 10);
      assert Itoa(n)[..|Itoa(n)| - 1] == Itoa(n / 10);
    }
  }

  lemma AtoiReads(n: nat)
    ensures Atoi(Itoa(n)) == Some(n)
  {
    ItoaReads(n);
  }

  /** The value at a path; a list is entered by the plain decimal text of one of its positions. */
  ghost function At(value: Json, path: seq<string>): Option<Json> {
    if path == [] then Some(value)
    else match value
      case Obj(fields) => if path[0] in fields then At(fields[path[0]], path[1..]) else None
      case Arr(items) => if i: nat :| i < |items| && path[0] == Itoa(i) then At(items[i], path[1..]) else None
      case _ => None
  }

  ghost function PointerValue(value: Json, path: seq<string>): Option<Json> {
    if At(value, path) == Some(Null) then None else At(value, path)
  }

  lemma ItoaInjective(a: nat, b: nat)
    requires Itoa(a) == Itoa(b)
    ensures a == b
  {
    ItoaReads(a);
    ItoaReads(b);
  }

  method FindValue(claims: Json, path: seq<string>) returns (value: Option<Json>)
    ensures value == PointerValue(claims, path)
  {
    var current := claims;
    for k := 0 to |path|
      invariant At(claims, path) == At(current, path[k..])
    {
      var segment := path[k];
      assert path[k..][0] == segment && path[k..][1..] == path[k + 1..];
      match current {
        case Obj(fields) =>
          if segment !in fields { return None; }
          current := fields[segment];
        case Arr(items) =>
          var index := Atoi(segment);
          if index.None? || index.value < 0 || index.value >= |items| || Itoa(index.value) != segment {
            forall i: nat | segment == Itoa(i) ensures i >= |items| { AtoiReads(i); }
            return None;
          }
          forall i: nat | segment == Itoa(i) ensures i == index.value { ItoaInjective(i, index.value); }
          current := items[index.value];
        case _ => return None;
      }
    }
    assert path[|path|..] == [];
    if current == Null { return None; }
    return Some(current);
  }

  // ---------------------------------------------------------------- conditions

  predicate AllTexts(items: seq<Json>) { forall i | 0 <= i < |items| :: items[i].Str? }

  /** A list of texts that holds the wanted one, or an equal scalar; numbers compare by value. */
  predicate Matches(value: Json, when: Condition) {
    match when
    case Contains(text) => value.Arr? && AllTexts(value.items) && Str(text) in value.items
    case Equals(expected) => (expected.Bool? || expected.Str? || expected.Num?) && value == expected
  }

  method MatchesRule(value: Json, when: Condition) returns (ok: bool)
    ensures ok <==> Matches(value, when)
  {
    if when.Contains? {
      if !value.Arr? { return false; }
      var found := false;
      for i := 0 to |value.items|
        invariant AllTexts(value.items[..i]) && (found <==> Str(when.text) in value.items[..i])
      {
        var item := value.items[i];
        assert value.items[..i + 1] == value.items[..i] + [item];
        if !item.Str? { return false; }
        found := found || item.s == when.text;
      }
      assert value.items[..|value.items|] == value.items;
      return found;
    }
    match when.value {
      case Bool(expected) => return value.Bool? && value.b == expected;
      case Str(expected) => return value.Str? && value.s == expected;
      case Num(expected) => return value.Num? && value.n == expected;
      case _ => return false;
    }
  }

  // ---------------------------------------------------------------- grants

  function Rank(role: string): nat {
    if role == "admin" then 3 else if role == "editor" then 2 else if role == "viewer" then 1 else 0
  }

  function KeyOf(g: Grant): string { g.scope + "/" + g.workspace }

  ghost predicate Applies(claims: Json, rule: Rule) {
    var value := PointerValue(claims, rule.path);
    value.Some? && Matches(value.value, rule.when)
  }

  /** The grants of the rules that match, in rule order. */
  ghost function Granted(claims: Json, rules: seq<Rule>): seq<Grant> {
    if rules == [] then []
    else
      var last := rules[|rules| - 1];
      Granted(claims, rules[..|rules| - 1]) + if Applies(claims, last) then [last.grant] else []
  }

  function Keep(best: map<string, Grant>, g: Grant): map<string, Grant> {
    if KeyOf(g) !in best || Rank(g.role) > Rank(best[KeyOf(g)].role) then best[KeyOf(g) := g] else best
  }

  /** Per key the first grant of the highest rank. */
  function Best(grants: seq<Grant>): map<string, Grant> {
    if grants == [] then map[] else Keep(Best(grants[..|grants| - 1]), grants[|grants| - 1])
  }

  /** Strictly increasing keys. */
  ghost predicate Increasing(keys: seq<string>) { forall i, j | 0 <= i < j < |keys| :: StrLess(keys[i], keys[j]) }

  function Keys(grants: seq<Grant>): (keys: seq<string>)
    ensures |keys| == |grants| && forall i | 0 <= i < |keys| :: keys[i] == KeyOf(grants[i])
  {
    seq(|grants|, i requires 0 <= i < |grants| => KeyOf(grants[i]))
  }

  /** The values of `best` in the strictly increasing order of their keys. */
  ghost predicate Listed(best: map<string, Grant>, result: seq<Grant>) {
    && Increasing(Keys(result))
    && (forall i | 0 <= i < |result| :: KeyOf(result[i]) in best && result[i] == best[KeyOf(result[i])])
    && (forall key | key in best :: key in Keys(result))
  }

  /** The best grant of a key is one of the granted and none of that key ranks higher. */
  lemma {:induction false} BestIs(grants: seq<Grant>)
    ensures forall key | key in Best(grants) :: Best(grants)[key] in grants && KeyOf(Best(grants)[key]) == key
    ensures forall g | g in grants :: KeyOf(g) in Best(grants) && Rank(g.role) <= Rank(Best(grants)[KeyOf(g)].role)
  {
    if grants != [] {
      var rest, last := grants[..|grants| - 1], grants[|grants| - 1];
      BestIs(rest);
      assert grants == rest + [last];
      forall g | g in grants ensures KeyOf(g) in Best(grants) && Rank(g.role) <= Rank(Best(grants)[KeyOf(g)].role) {
        assert g in rest || g == last;
      }
    }
  }

  /** What the configuration accepts: the platform admin, or a known role in a named workspace. */
  predicate ValidGrant(g: Grant) {
    if g.scope == "platform" then g.workspace == "" && g.role == "admin"
    else g.scope == "workspace" && !Blank(g.workspace) && g.workspace != "*" && Rank(g.role) > 0
  }

  /** A valid grant is determined by its key and rank. */
  lemma ValidGrantIs(a: Grant, b: Grant)
    requires ValidGrant(a) && ValidGrant(b) && KeyOf(a) == KeyOf(b) && Rank(a.role) == Rank(b.role)
    ensures a == b
  {
    assert KeyOf(a)[0] == a.scope[0] && KeyOf(b)[0] == b.scope[0];
    assert a.scope == b.scope;
    assert a.workspace == KeyOf(a)[|a.scope| + 1..] && b.workspace == KeyOf(b)[|b.scope| + 1..];
  }

  /** Rule order does not matter: lists of the same valid grants have the same best ones. */
  lemma BestForgetsOrder(a: seq<Grant>, b: seq<Grant>)
    requires forall g :: g in a <==> g in b
    requires forall g | g in a :: ValidGrant(g)
    ensures Best(a) == Best(b)
  {
    BestIs(a);
    BestIs(b);
    forall key | key in Best(a) ensures key in Best(b) && Best(a)[key] == Best(b)[key] {
      ValidGrantIs(Best(a)[key], Best(b)[key]);
    }
    forall key | key in Best(b) ensures key in Best(a) { assert Best(b)[key] in a; }
  }

  /** The pointwise maximum; the left grant wins a tie. */
  function Merge(a: map<string, Grant>, b: map<string, Grant>): map<string, Grant> {
    map key | key in a.Keys + b.Keys ::
      if key !in a then b[key]
      else if key in b && Rank(b[key].role) > Rank(a[key].role) then b[key]
      else a[key]
  }

  /** The best of two lists one after the other is the pointwise maximum of the best of each. */
  lemma {:induction false} BestOfBoth(a: seq<Grant>, b: seq<Grant>)
    ensures Best(a + b) == Merge(Best(a), Best(b))
  {
    if b == [] {
      assert a + b == a;
      assert Merge(Best(a), map[]) == Best(a);
    } else {
      var rest, last := b[..|b| - 1], b[|b| - 1];
      assert (a + b)[..|a + b| - 1] == a + rest;
      BestIs(a);
      BestIs(rest);
      BestOfBoth(a, rest);
      KeepMerges(Best(a), Best(rest), last);
    }
  }

  lemma KeepMerges(a: map<string, Grant>, b: map<string, Grant>, g: Grant)
    ensures Keep(Merge(a, b), g) == Merge(a, Keep(b, g))
  {
  }

  lemma {:induction false} GrantedSplits(claims: Json, a: seq<Rule>, b: seq<Rule>)
    ensures Granted(claims, a + b) == Granted(claims, a) + Granted(claims, b)
  {
    if b == [] {
      assert a + b == a;
    } else {
      assert (a + b)[..|a + b| - 1] == a + b[..|b| - 1];
      GrantedSplits(claims, a, b[..|b| - 1]);
    }
  }

  /** Some matching rule gives `g`. */
  ghost predicate Gives(claims: Json, rules: seq<Rule>, g: Grant) {
    exists rule :: rule in rules && Applies(claims, rule) && rule.grant == g
  }

  lemma {:induction false} GrantedIs(claims: Json, rules: seq<Rule>, g: Grant)
    ensures g in Granted(claims, rules) <==> Gives(claims, rules, g)
  {
    if rules != [] {
      var rest, last := rules[..|rules| - 1], rules[|rules| - 1];
      GrantedIs(claims, rest, g);
      assert rules == rest + [last];
    }
  }

  // ---------------------------------------------------------------- results

  lemma {:induction false} IncreasingIsUnique(a: seq<string>, b: seq<string>)
    requires Increasing(a) && Increasing(b) && forall key :: key in a <==> key in b
    ensures a == b
  {
    assert |a| > 0 ==> a[0] in a;
    assert |b| > 0 ==> b[0] in b;
    if a != [] {
      FirstIsLeast(a, b[0]);
      FirstIsLeast(b, a[0]);
      StrTotal(a[0], b[0]);
      forall key ensures key in a[1..] <==> key in b[1..] {
        TailMembers(a, key);
        TailMembers(b, key);
      }
      IncreasingIsUnique(a[1..], b[1..]);
      assert a == [a[0]] + a[1..] && b == [b[0]] + b[1..];
    }
  }

  lemma FirstIsLeast(a: seq<string>, x: string)
    requires Increasing(a) && x in a
    ensures x == a[0] || StrLess(a[0], x)
  {
    var i :| 0 <= i < |a| && a[i] == x;
  }

  lemma TailMembers(a: seq<string>, key: string)
    requires Increasing(a) && a != []
    ensures key in a[1..] <==> key in a && key != a[0]
  {
    StrTotal(a[0], a[0]);
    if key in a[1..] {
      var i :| 0 <= i < |a| - 1 && a[1..][i] == key;
      assert StrLess(a[0], a[i + 1]);
    }
  }

  /** Every rule list has one result: the map is a function of the best grants. */
  lemma ListedIsUnique(best: map<string, Grant>, a: seq<Grant>, b: seq<Grant>)
    requires Listed(best, a) && Listed(best, b)
    ensures a == b
  {
    forall key ensures key in Keys(a) <==> key in Keys(b) {}
    IncreasingIsUnique(Keys(a), Keys(b));
    forall i | 0 <= i < |a| ensures a[i] == b[i] { assert Keys(a)[i] == Keys(b)[i]; }
  }

  /** The mapped grants, in strictly increasing key order: for every scope and workspace some
      matching rule names, exactly one grant, of the highest role among those rules. */
  lemma MapIsMaximal(claims: Json, rules: seq<Rule>, result: seq<Grant>)
    requires Listed(Best(Granted(claims, rules)), result)
    ensures forall rule | rule in rules && Applies(claims, rule) ::
      exists i :: 0 <= i < |result| && KeyOf(result[i]) == KeyOf(rule.grant) &&
          Rank(rule.grant.role) <= Rank(result[i].role)
    ensures forall i | 0 <= i < |result| :: Gives(claims, rules, result[i])
    ensures forall i, j | 0 <= i < j < |result| :: KeyOf(result[i]) != KeyOf(result[j])
  {
    var grants := Granted(claims, rules);
    BestIs(grants);
    forall rule | rule in rules && Applies(claims, rule)
      ensures exists i ::
        0 <= i < |result| && KeyOf(result[i]) == KeyOf(rule.grant) && Rank(rule.grant.role) <= Rank(result[i].role)
    {
      assert Gives(claims, rules, rule.grant);
      GrantedIs(claims, rules, rule.grant);
      assert KeyOf(rule.grant) in Keys(result);
      var i :| 0 <= i < |result| && Keys(result)[i] == KeyOf(rule.grant);
    }
    forall i | 0 <= i < |result| ensures Gives(claims, rules, result[i]) {
      assert result[i] in grants;
      GrantedIs(claims, rules, result[i]);
    }
    forall i, j | 0 <= i < j < |result| ensures KeyOf(result[i]) != KeyOf(result[j]) {
      assert StrLess(Keys(result)[i], Keys(result)[j]);
      StrTotal(KeyOf(result[i]), KeyOf(result[i]));
    }
  }

  /** Reordering or repeating the rules of a validated policy changes nothing. */
  lemma MapForgetsOrder(claims: Json, a: seq<Rule>, b: seq<Rule>, mapped: seq<Grant>, other: seq<Grant>)
    requires forall rule :: rule in a <==> rule in b
    requires forall rule | rule in a :: ValidGrant(rule.grant)
    requires Listed(Best(Granted(claims, a)), mapped) && Listed(Best(Granted(claims, b)), other)
    ensures mapped == other
  {
    forall g ensures g in Granted(claims, a) <==> g in Granted(claims, b) {
      GrantedIs(claims, a, g);
      GrantedIs(claims, b, g);
    }
    forall g | g in Granted(claims, a) ensures ValidGrant(g) { GrantedIs(claims, a, g); }
    BestForgetsOrder(Granted(claims, a), Granted(claims, b));
    ListedIsUnique(Best(Granted(claims, a)), mapped, other);
  }

  /** Mapping two rule lists as one is the pointwise maximum of mapping each. */
  lemma MapOfBoth(claims: Json, a: seq<Rule>, b: seq<Rule>)
    ensures Best(Granted(claims, a + b)) == Merge(Best(Granted(claims, a)), Best(Granted(claims, b)))
  {
    GrantedSplits(claims, a, b);
    BestOfBoth(Granted(claims, a), Granted(claims, b));
  }

  // ---------------------------------------------------------------- the mapping

  function StrOrder(): (string, string) -> bool { (a, b) => StrLess(a, b) }

  lemma StrOrderIsTotal(on: set<string>)
    ensures StrictTotal(StrOrder(), on)
  {
    var less := StrOrder();
    forall a, b ensures (a == b || less(a, b) || less(b, a)) && !(less(a, b) && less(b, a)) { StrTotal(a, b); }
    forall a, b, c | less(a, b) && less(b, c) ensures less(a, c) { StrTransitive(a, b, c); }
  }

  lemma {:induction false} SortedIncreases(keys: seq<string>)
    requires Sorted(StrOrder(), keys) && forall i, j | 0 <= i < j < |keys| :: keys[i] != keys[j]
    ensures Increasing(keys)
  {
    if keys != [] {
      SortedIncreases(keys[1..]);
      forall j | 0 < j < |keys| ensures StrLess(keys[0], keys[j]) {
        assert keys[j] == keys[1..][j - 1] && keys[j] in keys[1..];
        assert !StrOrder()(keys[j], keys[0]);
        StrTotal(keys[0], keys[j]);
      }
      forall i, j | 0 < i < j < |keys| ensures StrLess(keys[i], keys[j]) {
        assert keys[i] == keys[1..][i - 1] && keys[j] == keys[1..][j - 1];
      }
    }
  }

  lemma {:induction false} NoRepeats(a: seq<string>, b: seq<string>)
    requires multiset(a) == multiset(b) && forall i, j | 0 <= i < j < |a| :: a[i] != a[j]
    ensures forall i, j | 0 <= i < j < |b| :: b[i] != b[j]
  {
    forall i, j | 0 <= i < j < |b| ensures b[i] != b[j] {
      if b[i] == b[j] {
        Without(b, i);
        assert (b[..i] + b[i + 1..])[j - 1] == b[i];
        assert multiset(b)[b[i]] >= 2;
        OnceOnly(a, b[i]);
      }
    }
  }

  lemma {:induction false} OnceOnly(a: seq<string>, x: string)
    requires forall i, j | 0 <= i < j < |a| :: a[i] != a[j]
    ensures multiset(a)[x] <= 1
  {
    if a != [] {
      OnceOnly(a[1..], x);
      assert a == [a[0]] + a[1..];
      if a[0] == x { assert x !in a[1..]; }
    }
  }

  method SortKeys(best: map<string, Grant>) returns (keys: seq<string>)
    ensures Increasing(keys) && forall key :: key in keys <==> key in best
  {
    var found: seq<string> := [];
    var remaining := best.Keys;
    while remaining != {}
      invariant remaining <= best.Keys && forall key :: key in found <==> key in best && key !in remaining
      invariant forall i, j | 0 <= i < j < |found| :: found[i] != found[j]
    {
      var key :| key in remaining;
      remaining := remaining - {key};
      found := found + [key];
    }
    keys := Sort(StrOrder(), found);
    StrOrderIsTotal(best.Keys);
    SortElements(StrOrder(), found);
    SortSorts(StrOrder(), best.Keys, found);
    NoRepeats(found, keys);
    SortedIncreases(keys);
    assert forall key :: key in keys <==> key in multiset(keys);
    assert forall key :: key in found <==> key in multiset(found);
  }

  lemma BestOfOneMore(claims: Json, rules: seq<Rule>, i: nat)
    requires i < |rules|
    ensures Best(Granted(claims, rules[..i + 1]))
         == if Applies(claims, rules[i]) then Keep(Best(Granted(claims, rules[..i])), rules[i].grant)
             else Best(Granted(claims, rules[..i]))
  {
    assert rules[..i + 1][..i] == rules[..i];
    var granted := Granted(claims, rules[..i]);
    assert (granted + [rules[i].grant])[..|granted|] == granted && granted + [] == granted;
  }

  method BestGrants(claims: Json, rules: seq<Rule>) returns (best: map<string, Grant>)
    ensures best == Best(Granted(claims, rules))
  {
    best := map[];
    for i := 0 to |rules|
      invariant best == Best(Granted(claims, rules[..i]))
    {
      var rule := rules[i];
      var value := FindValue(claims, rule.path);
      var ok := false;
      if value.Some? { ok := MatchesRule(value.value, rule.when); }
      BestOfOneMore(claims, rules, i);
      if !ok { continue; }
      var key := rule.grant.scope + "/" + rule.grant.workspace;
      if key !in best || Rank(rule.grant.role) > Rank(best[key].role) {
        best := best[key := rule.grant];
      }
    }
    assert rules[..|rules|] == rules;
  }

  /** Map, of a policy that is there. */
  method MapClaims(claims: Json, rules: seq<Rule>) returns (result: seq<Grant>)
    ensures Listed(Best(Granted(claims, rules)), result)
  {
    var best := BestGrants(claims, rules);
    BestIs(Granted(claims, rules));
    var keys := SortKeys(best);
    result := [];
    for i := 0 to |keys|
      invariant |result| == i && forall k | 0 <= k < i :: result[k] == best[keys[k]]
    {
      assert keys[i] in keys;
      result := result + [best[keys[i]]];
    }
    assert Keys(result) == keys;
  }
}
