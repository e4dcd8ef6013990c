/** The route-rule presets: a list kept sorted, and the linear resolver that relies on it. */
module RouteRules {
  import opened Bytes
  import opened Utf8
  import opened Decibels
  import opened Sorting
  import opened Wrappers
  import RouteRulePayload

  const MAX_RULES: nat := 64

  datatype Rule = Rule(
    ruleId: seq<Byte>,
    priority: int,
    enabled: bool,
    gainOwner: RouteRulePayload.GainOwner,
    makeupGainDb: real,
    appId: seq<Byte>,
    displayName: seq<Byte>,
    laneId: seq<Byte>,
    outputGroup: seq<Byte>)

  datatype Session = Session(name: seq<Byte>, appId: seq<Byte>)

  predicate Bounded(text: seq<Byte>, maxBytes: nat) { text != [] && BoundedOptional(text, maxBytes) }

  predicate BoundedOptional(text: seq<Byte>, maxBytes: nat) { Printable(text) && |text| <= maxBytes }

  predicate IsValid(r: Rule) {
    && Bounded(r.ruleId, 64) && BoundedOptional(r.appId, 128) && BoundedOptional(r.displayName, 128)
    && Bounded(r.laneId, 64) && Bounded(r.outputGroup, 64)
    && !(Blank(r.appId) && Blank(r.displayName))
    && -1_000_000 <= r.priority <= 1_000_000
    && InVolumeRange(r.makeupGainDb)
    && ValidId(r.ruleId)
  }

  /** Ordinal comparison of ids. */
  predicate IdLess(a: seq<Byte>, b: seq<Byte>) {
    if a == [] then b != []
    else if b == [] then false
    else a[0] < b[0] || (a[0] == b[0] && IdLess(a[1..], b[1..]))
  }

  lemma {:induction false} IdsAreOrdered(a: seq<Byte>, b: seq<Byte>)
    ensures !(IdLess(a, b) && IdLess(b, a))
    ensures a == b || IdLess(a, b) || IdLess(b, a)
    ensures !IdLess(a, a)
  {
    if a != [] {
      IdsAreOrdered(a[1..], if b == [] then [] else b[1..]);
      if b != [] && a[0] == b[0] && a[1..] == b[1..] {
        assert a == [a[0]] + a[1..] && b == [b[0]] + b[1..];
      }
    }
  }

  lemma {:induction false} IdsChain(a: seq<Byte>, b: seq<Byte>, c: seq<Byte>)
    requires IdLess(a, b) && IdLess(b, c)
    ensures IdLess(a, c)
  {
    if a != [] && a[0] == b[0] == c[0] {
      IdsChain(a[1..], b[1..], c[1..]);
    }
  }

  /** Catalog order: higher priority first, then ordinal id. */
  predicate Before(a: Rule, b: Rule) {
    a.priority > b.priority || (a.priority == b.priority && IdLess(a.ruleId, b.ruleId))
  }

  lemma RulesAreOrdered(a: Rule, b: Rule)
    ensures !(Before(a, b) && Before(b, a)) && !Before(a, a)
    ensures (a.ruleId == b.ruleId && a.priority == b.priority) || Before(a, b) || Before(b, a)
  {
    IdsAreOrdered(a.ruleId, b.ruleId);
    IdsAreOrdered(a.ruleId, a.ruleId);
  }

  lemma RulesChain(a: Rule, b: Rule, c: Rule)
    requires Before(a, b) && Before(b, c)
    ensures Before(a, c)
  {
    if a.priority == c.priority {
      IdsChain(a.ruleId, b.ruleId, c.ruleId);
    }
  }

  ghost predicate Sorted(rules: seq<Rule>) {
    forall i, j :: 0 <= i < j < |rules| ==> Before(rules[i], rules[j])
  }

  ghost predicate UniqueIds(rules: seq<Rule>) {
    forall i, j :: 0 <= i < j < |rules| ==> rules[i].ruleId != rules[j].ruleId
  }

  const BEFORE: (Rule, Rule) -> bool := (a, b) => Before(a, b)

  /** The list in catalog order; a stand-in for the library's sort. */
  function SortRules(rules: seq<Rule>): (s: seq<Rule>)
    ensures |s| == |rules|
  {
    SortBy(rules, BEFORE)
  }

  /** Catalog order is a strict order, total on rules with distinct ids. */
  lemma CatalogOrder(rules: seq<Rule>)
    ensures Transitive(BEFORE) && Irreflexive(BEFORE)
    ensures UniqueIds(rules) ==> Comparable(rules, BEFORE)
    ensures Sorted(rules) <==> SortedBy(rules, BEFORE)
  {
    forall a, b, c | BEFORE(a, b) && BEFORE(b, c) ensures BEFORE(a, c) {
      RulesChain(a, b, c);
    }
    forall a ensures !BEFORE(a, a) {
      RulesAreOrdered(a, a);
    }
    forall i, j | 0 <= i < j < |rules| && rules[i].ruleId != rules[j].ruleId
      ensures BEFORE(rules[i], rules[j]) || BEFORE(rules[j], rules[i])
    {
      RulesAreOrdered(rules[i], rules[j]);
    }
  }

  lemma SortingRules(rules: seq<Rule>)
    requires UniqueIds(rules)
    ensures Sorted(SortRules(rules)) && Elements(SortRules(rules)) == Elements(rules)
  {
    CatalogOrder(rules);
    SortSorts(rules, BEFORE);
    SortKeeps(rules, BEFORE);
    CatalogOrder(SortRules(rules));
  }

  /** Whatever history built them, two sorted lists with the same rules are the same list. */
  lemma SortedRulesAreUnique(a: seq<Rule>, b: seq<Rule>)
    requires Sorted(a) && Sorted(b) && Elements(a) == Elements(b)
    ensures a == b
  {
    CatalogOrder(a);
    CatalogOrder(b);
    SortedListsAreUnique(a, b, BEFORE);
  }

  // Resolution.

  /** Whether two texts are equal ignoring case; the case tables themselves are a parameter. */
  type SameText = (seq<Byte>, seq<Byte>) -> bool

  predicate Contains(text: seq<Byte>, part: seq<Byte>, same: SameText) {
    exists i, j :: 0 <= i <= j <= |text| && same(text[i..j], part)
  }

  /** App ids match exactly, display matchers as a part of the session name, both ignoring case. */
  predicate Matches(r: Rule, session: Session, same: SameText) {
    && (Blank(r.appId) || same(r.appId, session.appId))
    && (Blank(r.displayName) || (session.name != [] && Contains(session.name, r.displayName, same)))
  }

  predicate Hit(r: Rule, session: Session, same: SameText) { r.enabled && Matches(r, session, same) }

  /** The text is made of these three pieces. */
  predicate MadeOf(text: seq<Byte>, before: seq<Byte>, part: seq<Byte>, after: seq<Byte>) {
    text == before + part + after
  }

  lemma ContainsExactly(text: seq<Byte>, part: seq<Byte>, same: SameText)
    ensures Contains(text, part, same)
            <==> exists before, piece, after :: MadeOf(text, before, piece, after) && same(piece, part)
  {
    if Contains(text, part, same) {
      var i, j :| 0 <= i <= j <= |text| && same(text[i..j], part);
      assert MadeOf(text, text[..i], text[i..j], text[j..]);
    }
    if exists before, piece, after :: MadeOf(text, before, piece, after) && same(piece, part) {
      var before, piece, after :| MadeOf(text, before, piece, after) && same(piece, part);
      assert text[|before|..|before| + |piece|] == piece;
    }
  }

  /**
   * A rule takes a session exactly when it is enabled and each of its matchers that is not blank fits: the
   * app id is the session's, and some piece of the session's name is the display matcher.
   */
  lemma HitsExactly(r: Rule, session: Session, same: SameText)
    ensures Hit(r, session, same)
            <==> && r.enabled
                 && (!Blank(r.appId) ==> same(r.appId, session.appId))
                 && (!Blank(r.displayName) ==>
                       session.name != []
                       && exists before, piece, after ::
                            MadeOf(session.name, before, piece, after) && same(piece, r.displayName))
  {
    ContainsExactly(session.name, r.displayName, same);
  }

  datatype Resolution = NoMatch | Applied(rule: Rule) | Ambiguous

  /** What the resolver makes of the remaining rules once it holds `selected`. */
  function Scan(rules: seq<Rule>, selected: Option<Rule>, session: Session, same: SameText): Resolution {
    if rules == [] then
      (match selected case None => NoMatch case Some(r) => Applied(r))
    else if !Hit(rules[0], session, same) then Scan(rules[1..], selected, session, same)
    else if selected.None? || rules[0].priority > selected.value.priority then
      Scan(rules[1..], Some(rules[0]), session, same)
    else if rules[0].priority == selected.value.priority then Ambiguous
    else Scan(rules[1..], selected, session, same)
  }

  /** The enabled matches of highest priority. */
  ghost function Winners(rules: set<Rule>, session: Session, same: SameText): set<Rule> {
    set r | r in rules && Hit(r, session, same)
            && forall o :: o in rules && Hit(o, session, same) ==> o.priority <= r.priority
  }

  /** What resolution means, without any order of the rules. */
  ghost predicate Resolves(rules: set<Rule>, session: Session, same: SameText, answer: Resolution) {
    match answer
    case NoMatch => Winners(rules, session, same) == {}
    case Applied(r) => Winners(rules, session, same) == {r}
    case Ambiguous => exists a, b :: a != b && a in Winners(rules, session, same) && b in Winners(rules, session, same)
  }

  /** Exactly one answer fits: the three cases exclude each other. */
  lemma ResolutionIsUnique(rules: set<Rule>, session: Session, same: SameText, a: Resolution, b: Resolution)
    requires Resolves(rules, session, same, a) && Resolves(rules, session, same, b)
    ensures a == b
  {
    if a.Applied? && b.Applied? {
      assert a.rule in Winners(rules, session, same);
    }
  }

  /** A sorted tail holds no winner once a higher or equal selection is known to lead it. */
  lemma {:induction false} ScanKeepsALeader(rules: seq<Rule>, leader: Rule, session: Session, same: SameText)
    requires Sorted([leader] + rules) && Hit(leader, session, same)
    ensures Resolves(Elements([leader] + rules), session, same, Scan(rules, Some(leader), session, same))
    decreases |rules|
  {
    var all := [leader] + rules;
    assert leader == all[0] && leader in Elements(all);
    forall r | r in rules ensures Before(leader, r) && r in Elements(all) {
      var i :| 0 <= i < |rules| && rules[i] == r;
      assert all[i + 1] == r && r in all;
    }
    RulesAreOrdered(leader, leader);
    assert leader in Winners(Elements(all), session, same);
    if rules != [] {
      if !Hit(rules[0], session, same) || rules[0].priority < leader.priority {
        var rest := [leader] + rules[1..];
        forall i, j | 0 <= i < j < |rest| ensures Before(rest[i], rest[j]) {
          assert rest[j] == all[j + 1] && (i == 0 || rest[i] == all[i + 1]);
        }
        ScanKeepsALeader(rules[1..], leader, session, same);
        assert Elements(all) == Elements(rest) + {rules[0]} by {
          assert rules == [rules[0]] + rules[1..];
        }
        assert rules[0] !in Winners(Elements(all), session, same);
        SameWinners(Elements(rest), Elements(all), leader, rules[0], session, same);
      } else {
        assert rules[0].priority == leader.priority;
        assert rules[0] in Winners(Elements(all), session, same);
        assert rules[0] != leader;
      }
    } else {
      assert Elements(all) == {leader};
    }
  }

  /** Adding a rule that does not hit, or that a hit outranks, changes no winner. */
  lemma SameWinners(few: set<Rule>, many: set<Rule>, leader: Rule, extra: Rule, session: Session, same: SameText)
    requires many == few + {extra} && leader in few && Hit(leader, session, same)
    requires !Hit(extra, session, same) || extra.priority < leader.priority
    ensures Winners(few, session, same) == Winners(many, session, same)
  {
  }

  /** On a sorted list the linear scan is the order-free resolution. */
  lemma {:induction false} ScanResolves(rules: seq<Rule>, session: Session, same: SameText)
    requires Sorted(rules)
    ensures Resolves(Elements(rules), session, same, Scan(rules, None, session, same))
    decreases |rules|
  {
    if rules != [] {
      assert rules == [rules[0]] + rules[1..];
      if Hit(rules[0], session, same) {
        ScanKeepsALeader(rules[1..], rules[0], session, same);
      } else {
        ScanResolves(rules[1..], session, same);
        assert Elements(rules) == Elements(rules[1..]) + {rules[0]};
        assert Winners(Elements(rules), session, same) == Winners(Elements(rules[1..]), session, same);
      }
    }
  }

  /** Without the sort the scan can report an ambiguity that is not there. */
  lemma UnsortedListsMislead(session: Session)
    ensures var low := Rule([0x61], 1, true, RouteRulePayload.WindowsSession, 0.0, [], [], [0x6C], [0x6F]);
            var twin := low.(ruleId := [0x62]);
            var high := low.(ruleId := [0x63], priority := 2);
            var same := (x: seq<Byte>, y: seq<Byte>) => true;
            && Scan([low, twin, high], None, session, same) == Ambiguous
            && Resolves(Elements([low, twin, high]), session, same, Applied(high))
  {
    var low := Rule([0x61], 1, true, RouteRulePayload.WindowsSession, 0.0, [], [], [0x6C], [0x6F]);
    var twin := low.(ruleId := [0x62]);
    var high := low.(ruleId := [0x63], priority := 2);
    var same := (x: seq<Byte>, y: seq<Byte>) => true;
    var rules := [low, twin, high];
    assert rules[1..] == [twin, high];
    assert Scan(rules, None, session, same) == Scan([twin, high], Some(low), session, same);
    assert Elements(rules) == {low, twin, high};
    assert high in Winners(Elements(rules), session, same);
  }

  // Histories of the catalog.

  datatype Change =
    | Upsert(rule: Rule)
    | Remove(ruleId: seq<Byte>)
    | Clear
    | Load(items: seq<Option<Rule>>)

  /** Position of the rule with this id, or -1. */
  function FindIndex(rules: seq<Rule>, ruleId: seq<Byte>): (index: int)
    ensures -1 <= index < |rules|
    ensures index >= 0 ==> rules[index].ruleId == ruleId
    ensures index < 0 ==> forall i :: 0 <= i < |rules| ==> rules[i].ruleId != ruleId
  {
    if rules == [] then -1
    else if rules[0].ruleId == ruleId then 0
    else
      var rest := FindIndex(rules[1..], ruleId);
      if rest < 0 then -1 else rest + 1
  }

  /** A stored document that may replace the list: complete, valid and without repeated ids. */
  ghost predicate Loadable(items: seq<Option<Rule>>) {
    && |items| <= MAX_RULES
    && (forall i :: 0 <= i < |items| ==> items[i].Some? && IsValid(items[i].value))
    && forall i, j :: 0 <= i < j < |items| ==> items[i].value.ruleId != items[j].value.ruleId
  }

  function Values(items: seq<Option<Rule>>): (rules: seq<Rule>)
    requires forall i :: 0 <= i < |items| ==> items[i].Some?
    ensures |rules| == |items| && forall i :: 0 <= i < |items| ==> rules[i] == items[i].value
  {
    seq(|items|, i requires 0 <= i < |items| => items[i].value)
  }

  ghost predicate Accepts(rules: seq<Rule>, change: Change) {
    match change
    case Upsert(r) => IsValid(r) && (FindIndex(rules, r.ruleId) >= 0 || |rules| < MAX_RULES)
    case Remove(id) => FindIndex(rules, id) >= 0
    case Clear => true
    case Load(items) => Loadable(items)
  }

  ghost function Next(rules: seq<Rule>, change: Change): seq<Rule> {
    if !Accepts(rules, change) then rules
    else
      match change
      case Upsert(r) =>
        var index := FindIndex(rules, r.ruleId);
        SortRules(if index >= 0 then rules[index := r] else rules + [r])
      case Remove(id) =>
        var index := FindIndex(rules, id);
        rules[..index] + rules[index + 1..]
      case Clear => []
      case Load(items) => SortRules(Values(items))
  }

  ghost function Run(rules: seq<Rule>, changes: seq<Change>): seq<Rule>
    decreases |changes|
  {
    if changes == [] then rules else Run(Next(rules, changes[0]), changes[1..])
  }

  predicate HasId(rules: seq<Rule>, id: seq<Byte>) { exists i :: 0 <= i < |rules| && rules[i].ruleId == id }

  /** Which changes are taken: a valid rule with room or a known id, a known id, a clear, a complete document. */
  lemma AcceptsExactly(rules: seq<Rule>, r: Rule, id: seq<Byte>, items: seq<Option<Rule>>)
    ensures Accepts(rules, Upsert(r)) <==> IsValid(r) && (HasId(rules, r.ruleId) || |rules| <= 63)
    ensures Accepts(rules, Remove(id)) <==> HasId(rules, id)
    ensures Accepts(rules, Clear)
    ensures Accepts(rules, Load(items))
            <==> && |items| <= 64 && (forall item :: item in items ==> item.Some? && IsValid(item.value))
                 && forall i, j :: 0 <= i < |items| && 0 <= j < |items| && i != j ==>
                      items[i].value.ruleId != items[j].value.ruleId
  {
    if Accepts(rules, Load(items)) {
      forall item | item in items ensures item.Some? && IsValid(item.value) {
        var i :| 0 <= i < |items| && items[i] == item;
      }
    }
  }

  ghost predicate Consistent(rules: seq<Rule>) {
    && Sorted(rules) && UniqueIds(rules) && |rules| <= MAX_RULES
    && forall r :: r in rules ==> IsValid(r)
  }

  /** Ids stay distinct through a sort, since a list without repetition keeps its rules one to one. */
  lemma {:induction false} SortKeepsIds(rules: seq<Rule>)
    requires UniqueIds(rules)
    ensures UniqueIds(SortRules(rules))
  {
    SortingRules(rules);
    var sorted := SortRules(rules);
    forall i, j | 0 <= i < j < |sorted| ensures sorted[i].ruleId != sorted[j].ruleId {
      assert Before(sorted[i], sorted[j]);
      RulesAreOrdered(sorted[i], sorted[i]);
      assert sorted[i] in Elements(rules) && sorted[j] in Elements(rules);
    }
  }

  lemma SortIsConsistent(rules: seq<Rule>)
    requires UniqueIds(rules) && |rules| <= MAX_RULES && forall r :: r in rules ==> IsValid(r)
    ensures Consistent(SortRules(rules)) && Elements(SortRules(rules)) == Elements(rules)
  {
    SortingRules(rules);
    SortKeepsIds(rules);
    forall r | r in SortRules(rules) ensures IsValid(r) {
      assert r in Elements(SortRules(rules));
    }
  }

  /** The set of rules after a change, with no reference to any order. */
  ghost function NextSet(rules: set<Rule>, change: Change): set<Rule> {
    match change
    case Upsert(r) => (set x | x in rules && x.ruleId != r.ruleId) + {r}
    case Remove(id) => set x | x in rules && x.ruleId != id
    case Clear => {}
    case Load(items) => set i | 0 <= i < |items| && items[i].Some? :: items[i].value
  }

  /** Storing a rule under its id drops exactly the rule that had the id. */
  lemma PlacedElements(rules: seq<Rule>, r: Rule)
    requires UniqueIds(rules)
    ensures var index := FindIndex(rules, r.ruleId);
            Elements(if index >= 0 then rules[index := r] else rules + [r]) == NextSet(Elements(rules), Upsert(r))
  {
    var index := FindIndex(rules, r.ruleId);
    var placed := if index >= 0 then rules[index := r] else rules + [r];
    assert placed[if index >= 0 then index else |rules|] == r;
    forall x | x in Elements(rules) && x.ruleId != r.ruleId ensures x in Elements(placed) {
      var i :| 0 <= i < |rules| && rules[i] == x;
      assert placed[i] == x;
    }
  }

  lemma UpsertIsConsistent(rules: seq<Rule>, r: Rule)
    requires Consistent(rules) && Accepts(rules, Upsert(r))
    ensures Consistent(Next(rules, Upsert(r)))
    ensures Elements(Next(rules, Upsert(r))) == NextSet(Elements(rules), Upsert(r))
  {
    var index := FindIndex(rules, r.ruleId);
    var placed := if index >= 0 then rules[index := r] else rules + [r];
    assert forall i :: 0 <= i < |placed| ==> placed[i] == r || (i < |rules| && placed[i] == rules[i] && i != index);
    PlacedElements(rules, r);
    SortIsConsistent(placed);
  }

  /** Dropping one position keeps the order and drops exactly that rule. */
  lemma RemoveAt(rules: seq<Rule>, index: nat)
    requires index < |rules| && Consistent(rules)
    ensures var after := rules[..index] + rules[index + 1..];
            Sorted(after) && UniqueIds(after) && forall r :: r in after ==> r in rules
    ensures Elements(rules[..index] + rules[index + 1..])
            == set x | x in Elements(rules) && x.ruleId != rules[index].ruleId
  {
    var after := rules[..index] + rules[index + 1..];
    forall i | 0 <= i < |after| ensures after[i] == rules[if i < index then i else i + 1] {}
    forall x | x in Elements(rules) && x.ruleId != rules[index].ruleId ensures x in after {
      var i :| 0 <= i < |rules| && rules[i] == x;
      assert after[if i < index then i else i - 1] == x;
    }
  }

  lemma RemoveIsConsistent(rules: seq<Rule>, id: seq<Byte>)
    requires Consistent(rules) && Accepts(rules, Remove(id))
    ensures Consistent(Next(rules, Remove(id)))
    ensures Elements(Next(rules, Remove(id))) == NextSet(Elements(rules), Remove(id))
  {
    RemoveAt(rules, FindIndex(rules, id));
  }

  lemma LoadIsConsistent(rules: seq<Rule>, items: seq<Option<Rule>>)
    requires Accepts(rules, Load(items))
    ensures Consistent(Next(rules, Load(items)))
    ensures Elements(Next(rules, Load(items))) == NextSet(Elements(rules), Load(items))
  {
    SortIsConsistent(Values(items));
    assert forall i :: 0 <= i < |items| ==> Values(items)[i] in Values(items);
  }

  lemma StepKeepsConsistent(rules: seq<Rule>, change: Change)
    requires Consistent(rules)
    ensures Consistent(Next(rules, change))
    ensures Accepts(rules, change) ==> Elements(Next(rules, change)) == NextSet(Elements(rules), change)
  {
    if Accepts(rules, change) {
      match change
      case Upsert(r) => UpsertIsConsistent(rules, r);
      case Remove(id) => RemoveIsConsistent(rules, id);
      case Clear =>
      case Load(items) => LoadIsConsistent(rules, items);
    }
  }

  /** Every history leaves the list strictly sorted, with unique ids, bounded and valid. */
  lemma {:induction false} RunKeepsConsistent(rules: seq<Rule>, changes: seq<Change>)
    requires Consistent(rules)
    ensures Consistent(Run(rules, changes))
    decreases |changes|
  {
    if changes != [] {
      StepKeepsConsistent(rules, changes[0]);
      RunKeepsConsistent(Next(rules, changes[0]), changes[1..]);
    }
  }

  /**
   * After any two histories that leave the same rules, the lists are equal and every session
   * resolves as the order-free definition says.
   */
  lemma HistoriesWithTheSameRulesAgree(one: seq<Change>, two: seq<Change>, session: Session, same: SameText)
    requires Elements(Run([], one)) == Elements(Run([], two))
    ensures Run([], one) == Run([], two)
    ensures Resolves(Elements(Run([], one)), session, same, Scan(Run([], two), None, session, same))
  {
    RunKeepsConsistent([], one);
    RunKeepsConsistent([], two);
    SortedRulesAreUnique(Run([], one), Run([], two));
    ScanResolves(Run([], two), session, same);
  }

  /** The first `index` items passed: `candidate` holds their rules and `seen` their ids. */
  ghost predicate Candidate(items: seq<Option<Rule>>, index: nat, candidate: seq<Rule>, seen: set<seq<Byte>>)
    requires index <= |items|
  {
    && |candidate| == index
    && (forall i :: 0 <= i < index ==> items[i] == Some(candidate[i]) && IsValid(candidate[i]))
    && (forall id :: id in seen <==> exists i :: 0 <= i < index && candidate[i].ruleId == id)
    && UniqueIds(candidate)
  }

  lemma CandidateGrows(items: seq<Option<Rule>>, index: nat, candidate: seq<Rule>, seen: set<seq<Byte>>)
    requires index < |items| && Candidate(items, index, candidate, seen)
    requires items[index].Some? && IsValid(items[index].value) && items[index].value.ruleId !in seen
    ensures Candidate(items, index + 1, candidate + [items[index].value], seen + {items[index].value.ruleId})
  {
  }

  lemma CandidateRefused(items: seq<Option<Rule>>, index: nat, candidate: seq<Rule>, seen: set<seq<Byte>>)
    requires index < |items| && Candidate(items, index, candidate, seen)
    requires items[index].Some? && (!IsValid(items[index].value) || items[index].value.ruleId in seen)
    ensures !Loadable(items)
  {
  }

  /** The catalog object: a list that is edited, re-sorted, and scanned. */
  class SessionRouteRuleCatalog {
    var rules: seq<Rule>

    ghost predicate Valid()
      reads this
    {
      Consistent(rules)
    }

    constructor ()
      ensures Valid() && rules == []
    {
      rules := [];
    }

    method Upsert(rule: Rule) returns (accepted: bool)
      requires Valid()
      modifies this
      ensures Valid() && accepted == Accepts(old(rules), Change.Upsert(rule))
      ensures rules == Next(old(rules), Change.Upsert(rule))
    {
      StepKeepsConsistent(rules, Change.Upsert(rule));
      if !IsValid(rule) {
        return false;
      }
      var index := FindIndex(rules, rule.ruleId);
      if index >= 0 {
        rules := rules[index := rule];
        rules := SortRules(rules);
        return true;
      }
      if |rules| >= MAX_RULES {
        return false;
      }
      rules := rules + [rule];
      rules := SortRules(rules);
      return true;
    }

    method Remove(ruleId: seq<Byte>) returns (removed: bool)
      requires Valid()
      modifies this
      ensures Valid() && removed == Accepts(old(rules), Change.Remove(ruleId))
      ensures rules == Next(old(rules), Change.Remove(ruleId))
    {
      StepKeepsConsistent(rules, Change.Remove(ruleId));
      var index := FindIndex(rules, ruleId);
      if index < 0 {
        return false;
      }
      rules := rules[..index] + rules[index + 1..];
      return true;
    }

    method Clear()
      modifies this
      ensures Valid() && rules == Next(old(rules), Change.Clear)
    {
      rules := [];
    }

    /** A complete candidate is validated before it replaces the live list. */
    method Load(items: seq<Option<Rule>>) returns (loaded: bool)
      requires Valid()
      modifies this
      ensures Valid() && loaded == Accepts(old(rules), Change.Load(items))
      ensures rules == Next(old(rules), Change.Load(items))
    {
      StepKeepsConsistent(rules, Change.Load(items));
      if |items| > MAX_RULES {
        return false;
      }
      var candidate: seq<Rule> := [];
      var seen: set<seq<Byte>> := {};
      for index := 0 to |items|
        invariant Candidate(items, index, candidate, seen)
        invariant unchanged(this)
      {
        if items[index].None? {
          return false;
        }
        var rule := items[index].value;
        if !IsValid(rule) || rule.ruleId in seen {
          CandidateRefused(items, index, candidate, seen);
          return false;
        }
        CandidateGrows(items, index, candidate, seen);
        seen := seen + {rule.ruleId};
        candidate := candidate + [rule];
      }
      assert candidate == Values(items);
      rules := SortRules(candidate);
      return true;
    }

    /** The scan of the live list; the sort kept by every edit is what makes its answer right. */
    method TryResolve(session: Session, same: SameText) returns (answer: Resolution)
      requires Valid()
      ensures Resolves(Elements(rules), session, same, answer)
    {
      ScanResolves(rules, session, same);
      var selected: Option<Rule> := None;
      for index := 0 to |rules|
        invariant Scan(rules, None, session, same) == Scan(rules[index..], selected, session, same)
      {
        var rule := rules[index];
        assert rules[index..][0] == rule && rules[index..][1..] == rules[index + 1..];
        if Hit(rule, session, same) {
          if selected.None? || rule.priority > selected.value.priority {
            selected := Some(rule);
          } else if rule.priority == selected.value.priority {
            return Ambiguous;
          }
        }
      }
      return match selected case None => NoMatch case Some(r) => Applied(r);
    }
  }
}
