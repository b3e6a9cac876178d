/** Measuring a job file's syntax tree before anything in it is expanded, and following its aliases on a budget. */
module Survey {
  import opened Wrappers

  const MAX_DEPTH := 32
  const MAX_ALIASES := 100
  const MAX_NODES := 20000
  const MAX_EXPANDED := 200000

  /** Absent stands for the nil a parser leaves where a value is missing. */
  datatype Node =
    | Absent
    | Document(body: Node)
    | Mapping(pairs: seq<Node>)
    | Pair(key: Node, value: Node)
    | Sequence(items: seq<Node>)
    | Anchor(name: string, anchored: Node)
    | Alias(target: string)
    | Tag(tag: string, tagged: Node)
    | Scalar(text: string)

  function Children(n: Node): (cs: seq<Node>)
    ensures forall i :: 0 <= i < |cs| ==> cs[i] < n
  {
    match n
    case Document(body) => [body]
    case Mapping(pairs) => pairs
    case Pair(key, value) => [key, value]
    case Sequence(items) => items
    case Anchor(_, value) => [value]
    case Tag(_, value) => [value]
    case _ => []
  }

  function Below(n: Node, depth: nat): nat { if n.Mapping? || n.Sequence? then depth + 1 else depth }

  // ----- the measures, by recursion on the tree -----

  datatype Measure = Measure(nodes: nat, aliases: nat, depth: nat, tags: nat, anchors: multiset<(string, Node)>)

  const NOTHING := Measure(0, 0, 0, 0, multiset{})

  function Max(a: nat, b: nat): nat { if a < b then b else a }

  /** Two parts of a tree together. */
  function Plus(a: Measure, b: Measure): Measure {
    Measure(a.nodes + b.nodes, a.aliases + b.aliases, Max(a.depth, b.depth), a.tags + b.tags, a.anchors + b.anchors)
  }

  /** One node by itself. */
  function Own(n: Node, depth: nat): Measure {
    Measure(1, if n.Alias? then 1 else 0, depth, if n.Tag? then 1 else 0,
            if n.Anchor? then multiset{(n.name, n.anchored)} else multiset{})
  }

  /** A node and everything below it, when it sits at this depth. An alias is measured by its name alone. */
  function Of(n: Node, depth: nat): Measure
    decreases n, |Children(n)| + 1
  {
    if n == Absent then NOTHING else Plus(Own(n, depth), From(n, depth, 0))
  }

  function From(n: Node, depth: nat, i: nat): Measure
    requires i <= |Children(n)|
    decreases n, |Children(n)| - i
  {
    if i == |Children(n)| then NOTHING
    else Plus(Of(Children(n)[i], Below(n, depth)), From(n, depth, i + 1))
  }

  /** Within every limit, no tag, and every anchor named and named once. */
  ghost predicate Fits(m: Measure) {
    && m.nodes <= MAX_NODES && m.aliases <= MAX_ALIASES && m.depth <= MAX_DEPTH && m.tags == 0
    && (forall p :: p in m.anchors ==> p.0 != "" && m.anchors[p] == 1)
    && (forall p, q :: p in m.anchors && q in m.anchors && p.0 == q.0 ==> p == q)
  }

  lemma PlusCommutes(a: Measure, b: Measure)
    ensures Plus(a, b) == Plus(b, a)
  {
  }

  lemma PlusRegroups(a: Measure, b: Measure, c: Measure)
    ensures Plus(Plus(a, b), c) == Plus(a, Plus(b, c))
  {
  }

  lemma PlusNothing(a: Measure)
    ensures Plus(a, NOTHING) == a && Plus(NOTHING, a) == a
  {
  }

  // ----- the walk with its own stack -----

  datatype Item = Item(node: Node, depth: nat)

  function Stacked(stack: seq<Item>): Measure {
    if |stack| == 0 then NOTHING
    else Plus(Stacked(stack[..|stack| - 1]), Of(stack[|stack| - 1].node, stack[|stack| - 1].depth))
  }

  function ItemsOf(n: Node, depth: nat, i: nat): seq<Item>
    requires i <= |Children(n)|
  {
    seq(|Children(n)| - i, j requires 0 <= j < |Children(n)| - i => Item(Children(n)[i + j], Below(n, depth)))
  }

  lemma StackedPush(stack: seq<Item>, item: Item)
    ensures Stacked(stack + [item]) == Plus(Stacked(stack), Of(item.node, item.depth))
  {
    assert (stack + [item])[..|stack|] == stack;
  }

  lemma FromStep(n: Node, depth: nat, i: nat)
    requires i < |Children(n)|
    ensures From(n, depth, i) == Plus(Of(Children(n)[i], Below(n, depth)), From(n, depth, i + 1))
  {
    hide Plus, Of;
  }

  lemma ItemsStep(stack: seq<Item>, n: Node, depth: nat, i: nat)
    requires i < |Children(n)|
    ensures stack + ItemsOf(n, depth, i) == (stack + [Item(Children(n)[i], Below(n, depth))]) + ItemsOf(n, depth, i + 1)
  {
  }

  lemma NothingBelow(stack: seq<Item>, n: Node, depth: nat)
    ensures stack + ItemsOf(n, depth, |Children(n)|) == stack
    ensures Plus(Stacked(stack), From(n, depth, |Children(n)|)) == Stacked(stack)
  {
    hide Of, Stacked, Plus;
    PlusNothing(Stacked(stack));
  }

  /** Pushing the children of a node adds what is below it. */
  lemma {:induction false} StackedChildren(stack: seq<Item>, n: Node, depth: nat, i: nat)
    requires i <= |Children(n)|
    ensures Stacked(stack + ItemsOf(n, depth, i)) == Plus(Stacked(stack), From(n, depth, i))
    decreases |Children(n)| - i
  {
    hide *;
    if i == |Children(n)| {
      NothingBelow(stack, n, depth);
    } else {
      var first := Item(Children(n)[i], Below(n, depth));
      ItemsStep(stack, n, depth, i);
      FromStep(n, depth, i);
      StackedPush(stack, first);
      StackedChildren(stack + [first], n, depth, i + 1);
      PlusRegroups(Stacked(stack), Of(first.node, first.depth), From(n, depth, i + 1));
    }
  }

  /** How many nodes, absent ones included, are still to be taken off the stack. */
  function Size(n: Node): nat
    decreases n, |Children(n)| + 1
  {
    1 + SizeFrom(n, 0)
  }

  function SizeFrom(n: Node, i: nat): nat
    requires i <= |Children(n)|
    decreases n, |Children(n)| - i
  {
    if i == |Children(n)| then 0 else Size(Children(n)[i]) + SizeFrom(n, i + 1)
  }

  function Waiting(stack: seq<Item>): nat {
    if |stack| == 0 then 0 else Waiting(stack[..|stack| - 1]) + Size(stack[|stack| - 1].node)
  }

  lemma {:induction false} WaitingChildren(stack: seq<Item>, n: Node, depth: nat, i: nat)
    requires i <= |Children(n)|
    ensures Waiting(stack + ItemsOf(n, depth, i)) == Waiting(stack) + SizeFrom(n, i)
    decreases |Children(n)| - i
  {
    if i == |Children(n)| {
      assert stack + ItemsOf(n, depth, i) == stack;
    } else {
      var first := Item(Children(n)[i], Below(n, depth));
      ItemsStep(stack, n, depth, i);
      assert (stack + [first])[..|stack|] == stack;
      WaitingChildren(stack + [first], n, depth, i + 1);
    }
  }

  datatype Refusal = TooLarge | TooDeep | TooManyAliases | Unnamed | Twice(name: string) | Tagged

  /** The anchors seen, as the decoder keeps them. */
  ghost predicate Declared(anchors: map<string, Node>, m: Measure) {
    && (forall p :: p in m.anchors ==> p.0 in anchors && anchors[p.0] == p.1)
    && (forall k :: k in anchors ==> (k, anchors[k]) in m.anchors)
  }

  ghost predicate Why(r: Refusal, m: Measure) {
    match r
    case TooLarge => m.nodes > MAX_NODES
    case TooDeep => m.depth > MAX_DEPTH
    case TooManyAliases => m.aliases > MAX_ALIASES
    case Tagged => m.tags > 0
    case Unnamed => exists n :: ("", n) in m.anchors
    case Twice(name) => exists a, b :: (name, a) in m.anchors && (name, b) in m.anchors && (a == b ==> m.anchors[(name, a)] > 1)
  }

  lemma WhyNotFits(r: Refusal, m: Measure)
    requires Why(r, m)
    ensures !Fits(m)
  {
    match r
    case Unnamed => var n :| ("", n) in m.anchors;
    case Twice(name) =>
      var a, b :| (name, a) in m.anchors && (name, b) in m.anchors && (a == b ==> m.anchors[(name, a)] > 1);
    case _ =>
  }

  lemma WhyMore(r: Refusal, a: Measure, b: Measure)
    requires Why(r, a)
    ensures Why(r, Plus(a, b))
  {
    var w := Plus(a, b);
    match r
    case Unnamed =>
      var n :| ("", n) in a.anchors;
      assert ("", n) in w.anchors;
    case Twice(name) =>
      var x, y :| (name, x) in a.anchors && (name, y) in a.anchors && (x == y ==> a.anchors[(name, x)] > 1);
      assert (name, x) in w.anchors && (name, y) in w.anchors && (x == y ==> w.anchors[(name, x)] > 1);
    case _ =>
  }

  lemma AnchorMore(seen: Measure, n: Node, depth: nat, anchors: map<string, Node>)
    requires Fits(seen) && Declared(anchors, seen) && n.Anchor?
    ensures var m := Plus(seen, Own(n, depth));
      && (n.name == "" ==> Why(Unnamed, m))
      && (n.name in anchors ==> Why(Twice(n.name), m))
      && (n.name !in anchors ==> Declared(anchors[n.name := n.anchored], m))
  {
    var m := Plus(seen, Own(n, depth));
    var p := (n.name, n.anchored);
    assert p in m.anchors && m.anchors == seen.anchors + multiset{p};
    if n.name in anchors {
      var q := (n.name, anchors[n.name]);
      assert q in seen.anchors && q in m.anchors;
      assert q == p ==> m.anchors[p] > 1;
    }
  }

  lemma AnchorFits(seen: Measure, n: Node, depth: nat, anchors: map<string, Node>)
    requires Fits(seen) && Declared(anchors, seen) && n.Anchor? && n.name != "" && n.name !in anchors
    requires seen.nodes < MAX_NODES && depth <= MAX_DEPTH
    ensures Fits(Plus(seen, Own(n, depth)))
  {
    var m := Plus(seen, Own(n, depth));
    var p := (n.name, n.anchored);
    assert m.anchors == seen.anchors + multiset{p} && p !in seen.anchors;
    assert forall q :: q in m.anchors ==> q == p || (q in seen.anchors && m.anchors[q] == seen.anchors[q]);
  }

  lemma PlainMore(seen: Measure, n: Node, depth: nat, anchors: map<string, Node>)
    requires Fits(seen) && Declared(anchors, seen) && !n.Anchor?
    ensures var m := Plus(seen, Own(n, depth));
      && Declared(anchors, m) && (n.Tag? ==> Why(Tagged, m))
      && (n.Alias? && seen.aliases + 1 > MAX_ALIASES ==> Why(TooManyAliases, m))
      && (!n.Tag? && m.nodes <= MAX_NODES && m.aliases <= MAX_ALIASES && depth <= MAX_DEPTH ==> Fits(m))
  {
    assert Plus(seen, Own(n, depth)).anchors == seen.anchors;
  }

  lemma TooMuch(seen: Measure, n: Node, depth: nat)
    ensures var m := Plus(seen, Own(n, depth));
      && m.nodes == seen.nodes + 1 && m.aliases == seen.aliases + (if n.Alias? then 1 else 0)
      && (m.nodes > MAX_NODES ==> Why(TooLarge, m)) && (depth > MAX_DEPTH ==> Why(TooDeep, m))
  {
  }

  /** What one node does to the walk: the refusal it meets, or the anchors declared after it. */
  function Meet(nodes: nat, aliases: nat, anchors: map<string, Node>, n: Node, depth: nat): Result<map<string, Node>, Refusal> {
    if nodes + 1 > MAX_NODES then Err(TooLarge)
    else if depth > MAX_DEPTH then Err(TooDeep)
    else
      match n
      case Alias(_) => if aliases + 1 > MAX_ALIASES then Err(TooManyAliases) else Ok(anchors)
      case Anchor(name, value) =>
        if name == "" then Err(Unnamed) else if name in anchors then Err(Twice(name)) else Ok(anchors[name := value])
      case Tag(_, _) => Err(Tagged)
      case _ => Ok(anchors)
  }

  /** What one node may add to a measure that fits. */
  lemma OneMore(seen: Measure, n: Node, depth: nat, anchors: map<string, Node>)
    requires Fits(seen) && Declared(anchors, seen)
    ensures var m := Plus(seen, Own(n, depth));
      match Meet(seen.nodes, seen.aliases, anchors, n, depth)
      case Err(why) => Why(why, m)
      case Ok(after) => Fits(m) && Declared(after, m)
  {
    hide Plus, Own, Declared, Why;
    TooMuch(seen, n, depth);
    var m := Plus(seen, Own(n, depth));
    if n.Anchor? {
      AnchorMore(seen, n, depth, anchors);
      if n.name != "" && n.name !in anchors && m.nodes <= MAX_NODES && depth <= MAX_DEPTH {
        AnchorFits(seen, n, depth, anchors);
      }
    } else {
      PlainMore(seen, n, depth, anchors);
    }
  }

  /** What is refused in a part is refused in the whole. */
  lemma Refuse(seen: Measure, n: Node, depth: nat, anchors: map<string, Node>, rest: Measure, whole: Measure)
    requires Fits(seen) && Declared(anchors, seen) && Plus(Plus(seen, Own(n, depth)), rest) == whole
    ensures match Meet(seen.nodes, seen.aliases, anchors, n, depth)
      case Err(why) => Why(why, whole) && !Fits(whole)
      case Ok(_) => true
  {
    OneMore(seen, n, depth, anchors);
    match Meet(seen.nodes, seen.aliases, anchors, n, depth)
    case Err(why) =>
      WhyMore(why, Plus(seen, Own(n, depth)), rest);
      WhyNotFits(why, whole);
    case Ok(_) =>
  }

  /** survey: the last pushed first, stopping at the first limit it meets. */
  method SurveyTree(root: Node) returns (r: Result<map<string, Node>, Refusal>)
    ensures match r
      case Ok(anchors) => Fits(Of(root, 1)) && Declared(anchors, Of(root, 1))
      case Err(why) => Why(why, Of(root, 1))
    // So it accepts exactly the trees that fit, and no order of visiting them could accept others.
    ensures r.Ok? <==> Fits(Of(root, 1))
  {
    hide Stacked, Of, From, Plus, Fits, Declared, Why, Size, Waiting, Own;
    var stack := [Item(root, 1)];
    var nodes, aliases := 0, 0;
    var anchors: map<string, Node> := map[];
    ghost var seen := NOTHING;
    Begin(root);
    while |stack| > 0
      invariant Plus(seen, Stacked(stack)) == Of(root, 1)
      invariant Fits(seen) && Declared(anchors, seen) && seen.nodes == nodes && seen.aliases == aliases
      decreases Waiting(stack)
    {
      ghost var was := stack;
      var item := stack[|stack| - 1];
      stack := stack[..|stack| - 1];
      var n := item.node;
      assert was == stack + [item];
      Take(seen, stack, item);
      if n == Absent { continue; }
      ghost var met := Meet(nodes, aliases, anchors, n, item.depth);
      OneMore(seen, n, item.depth, anchors);
      Refuse(seen, n, item.depth, anchors, Stacked(stack + ItemsOf(n, item.depth, 0)), Of(root, 1));
      TooMuch(seen, n, item.depth);
      nodes := nodes + 1;
      if nodes > MAX_NODES { return Err(TooLarge); }
      if item.depth > MAX_DEPTH { return Err(TooDeep); }
      if n.Alias? {
        aliases := aliases + 1;
        if aliases > MAX_ALIASES { return Err(TooManyAliases); }
      } else if n.Anchor? {
        if n.name == "" { return Err(Unnamed); }
        if n.name in anchors { return Err(Twice(n.name)); }
        anchors := anchors[n.name := n.anchored];
      } else if n.Tag? {
        return Err(Tagged);
      }
      assert met == Ok(anchors);
      stack := PushChildren(stack, n, item.depth);
      seen := Plus(seen, Own(n, item.depth));
    }
    End(seen, stack);
    r := Ok(anchors);
  }

  method PushChildren(stack: seq<Item>, n: Node, at: nat) returns (more: seq<Item>)
    ensures more == stack + ItemsOf(n, at, 0)
  {
    var depth := Below(n, at);
    var children := Children(n);
    more := stack;
    for i := 0 to |children|
      invariant more == stack + ItemsOf(n, at, 0)[..i]
    {
      more := more + [Item(children[i], depth)];
    }
    assert ItemsOf(n, at, 0)[..|children|] == ItemsOf(n, at, 0);
  }

  lemma Begin(root: Node)
    ensures Plus(NOTHING, Stacked([Item(root, 1)])) == Of(root, 1)
    ensures Fits(NOTHING) && Declared(map[], NOTHING)
  {
    hide Of, From;
    var none: seq<Item> := [];
    StackedPush(none, Item(root, 1));
    assert none + [Item(root, 1)] == [Item(root, 1)];
    PlusNothing(Of(root, 1));
  }

  lemma End(seen: Measure, stack: seq<Item>)
    requires |stack| == 0
    ensures Plus(seen, Stacked(stack)) == seen
  {
    PlusNothing(seen);
  }

  /** Taking one item off the stack and putting its children on moves its own measure across. */
  lemma Take(seen: Measure, stack: seq<Item>, item: Item)
    ensures var was := Plus(seen, Stacked(stack + [item])); var n := item.node;
      && (n == Absent ==> Plus(seen, Stacked(stack)) == was)
      && (n != Absent ==> Plus(Plus(seen, Own(n, item.depth)), Stacked(stack + ItemsOf(n, item.depth, 0))) == was)
    ensures Waiting(stack) < Waiting(stack + [item])
    ensures Waiting(stack + ItemsOf(item.node, item.depth, 0)) < Waiting(stack + [item])
  {
    var n := item.node;
    StackedPush(stack, item);
    assert (stack + [item])[..|stack|] == stack;
    WaitingChildren(stack, n, item.depth, 0);
    if n == Absent {
      PlusNothing(Stacked(stack));
    } else {
      var own, below, rest := Own(n, item.depth), From(n, item.depth, 0), Stacked(stack);
      StackedChildren(stack, n, item.depth, 0);
      assert Of(n, item.depth) == Plus(own, below);
      hide Stacked, Of, From, Plus, Own;
      PlusCommutes(rest, Plus(own, below));
      PlusRegroups(own, below, rest);
      PlusCommutes(below, rest);
      PlusRegroups(seen, own, Plus(rest, below));
    }
  }

  // ----- the same, read off the tree -----

  /** How many nodes of the tree are of a kind. An alias counts as itself, not as what it names. */
  function Count(n: Node, kind: Kind): nat
    decreases n
  {
    if n == Absent then 0
    else
      (if Is(n, kind) then 1 else 0) +
      match n
      case Document(body) => Count(body, kind)
      case Mapping(pairs) => CountAll(pairs, kind)
      case Pair(key, value) => Count(key, kind) + Count(value, kind)
      case Sequence(items) => CountAll(items, kind)
      case Anchor(_, value) => Count(value, kind)
      case Tag(_, value) => Count(value, kind)
      case _ => 0
  }

  function CountAll(ns: seq<Node>, kind: Kind): nat
    decreases ns
  {
    if |ns| == 0 then 0 else Count(ns[0], kind) + CountAll(ns[1..], kind)
  }

  /** How many levels a tree has: a mapping or a sequence lies one above what it holds, every other node level with it. */
  function Levels(n: Node): nat
    decreases n
  {
    match n
    case Absent => 0
    case Document(body) => Max(1, Levels(body))
    case Mapping(pairs) => 1 + LevelsOf(pairs)
    case Pair(key, value) => Max(1, Max(Levels(key), Levels(value)))
    case Sequence(items) => 1 + LevelsOf(items)
    case Anchor(_, value) => Max(1, Levels(value))
    case Tag(_, value) => Max(1, Levels(value))
    case _ => 1
  }

  function LevelsOf(ns: seq<Node>): nat
    decreases ns
  {
    if |ns| == 0 then 0 else Max(Levels(ns[0]), LevelsOf(ns[1..]))
  }

  datatype Kind = Any | AnAlias | ATag | Only(one: Node)

  predicate Is(n: Node, kind: Kind) {
    match kind
    case Any => true
    case AnAlias => n.Alias?
    case ATag => n.Tag?
    case Only(one) => n == one
  }

  lemma CountFew(a: Node, b: Node, kind: Kind)
    ensures CountAll([a], kind) == Count(a, kind) && CountAll([a, b], kind) == Count(a, kind) + Count(b, kind)
  {
    hide Count;
    assert [a, b][1..] == [b] && [a][1..] == [] && [b][1..] == [];
  }

  lemma CountByChildren(n: Node, kind: Kind)
    requires n != Absent
    ensures Count(n, kind) == (if Is(n, kind) then 1 else 0) + CountAll(Children(n), kind)
  {
    hide CountAll, Is;
    CountNone(kind);
    match n
    case Document(body) => OneChild(n, body, kind);
    case Pair(key, value) =>
      CountFew(key, value, kind);
      assert Children(n) == [key, value];
    case Anchor(_, value) => OneChild(n, value, kind);
    case Tag(_, value) => OneChild(n, value, kind);
    case _ =>
  }

  lemma OneChild(n: Node, child: Node, kind: Kind)
    requires (n.Document? && n.body == child) || (n.Anchor? && n.anchored == child) || (n.Tag? && n.tagged == child)
    ensures Count(n, kind) == (if Is(n, kind) then 1 else 0) + CountAll(Children(n), kind)
  {
    hide CountAll, Is;
    CountFew(child, child, kind);
    assert Children(n) == [child];
  }

  lemma CountNone(kind: Kind)
    ensures CountAll([], kind) == 0
  {
  }

  lemma LevelsFew(a: Node, b: Node)
    ensures LevelsOf([a]) == Levels(a) && LevelsOf([a, b]) == Max(Levels(a), Levels(b))
  {
    hide Levels;
    assert [a, b][1..] == [b] && [a][1..] == [] && [b][1..] == [];
  }

  lemma LevelsByChildren(n: Node)
    requires n != Absent
    ensures Levels(n) == if n.Mapping? || n.Sequence? then 1 + LevelsOf(Children(n)) else Max(1, LevelsOf(Children(n)))
  {
    assert LevelsOf([]) == 0;
    hide LevelsOf;
    match n
    case Document(body) => LevelsFew(body, body);
    case Pair(key, value) => LevelsFew(key, value);
    case Anchor(_, value) => LevelsFew(value, value);
    case Tag(_, value) => LevelsFew(value, value);
    case _ =>
  }

  /** How much of a kind a measure has. */
  function Amount(m: Measure, kind: Kind): nat
    requires kind.Only? ==> kind.one.Anchor?
  {
    match kind
    case Any => m.nodes
    case AnAlias => m.aliases
    case ATag => m.tags
    case Only(one) => m.anchors[(one.name, one.anchored)]
  }

  lemma AmountOfOne(n: Node, depth: nat, kind: Kind)
    requires kind.Only? ==> kind.one.Anchor?
    ensures Amount(Own(n, depth), kind) == if Is(n, kind) then 1 else 0
  {
  }

  lemma AmountsAdd(a: Measure, b: Measure, kind: Kind)
    requires kind.Only? ==> kind.one.Anchor?
    ensures Amount(Plus(a, b), kind) == Amount(a, kind) + Amount(b, kind)
    ensures Amount(NOTHING, kind) == 0
  {
  }

  lemma OfIs(n: Node, depth: nat)
    requires n != Absent
    ensures Of(n, depth) == Plus(Own(n, depth), From(n, depth, 0)) && Children(n)[0..] == Children(n)
  {
    hide Plus, Own, From, Children;
  }

  lemma {:induction false} OfCounts(n: Node, depth: nat, kind: Kind)
    requires kind.Only? ==> kind.one.Anchor?
    ensures Amount(Of(n, depth), kind) == Count(n, kind)
    decreases n, |Children(n)| + 1
  {
    if n == Absent {
      AmountsAdd(NOTHING, NOTHING, kind);
    } else {
      hide *;
      OfIs(n, depth);
      FromCounts(n, depth, 0, kind);
      AmountsAdd(Own(n, depth), From(n, depth, 0), kind);
      AmountOfOne(n, depth, kind);
      CountByChildren(n, kind);
    }
  }

  lemma {:induction false} FromCounts(n: Node, depth: nat, i: nat, kind: Kind)
    requires i <= |Children(n)| && (kind.Only? ==> kind.one.Anchor?)
    ensures Amount(From(n, depth, i), kind) == CountAll(Children(n)[i..], kind)
    decreases n, |Children(n)| - i
  {
    hide Of, From, Count, CountAll, Below, Amount, Plus;
    if i < |Children(n)| {
      var first := Of(Children(n)[i], Below(n, depth));
      OfCounts(Children(n)[i], Below(n, depth), kind);
      FromCounts(n, depth, i + 1, kind);
      AmountsAdd(first, From(n, depth, i + 1), kind);
      FromStep(n, depth, i);
      CountStep(Children(n), i, kind);
    } else {
      AmountsAdd(NOTHING, NOTHING, kind);
      FromEnd(n, depth);
      CountNone(kind);
      assert Children(n)[i..] == [];
    }
  }

  lemma FromEnd(n: Node, depth: nat)
    ensures From(n, depth, |Children(n)|) == NOTHING
  {
  }

  lemma CountStep(ns: seq<Node>, i: nat, kind: Kind)
    requires i < |ns|
    ensures CountAll(ns[i..], kind) == Count(ns[i], kind) + CountAll(ns[i + 1..], kind)
  {
    hide Count;
    assert ns[i..][1..] == ns[i + 1..];
  }

  lemma {:induction false} OfDepth(n: Node, depth: nat)
    requires depth > 0
    ensures Of(n, depth).depth == if n == Absent then 0 else depth + Levels(n) - 1
    ensures n != Absent ==> Levels(n) > 0
    decreases n, |Children(n)| + 1
  {
    if n != Absent {
      FromDepth(n, depth, 0);
      assert Children(n)[0..] == Children(n);
      LevelsByChildren(n);
      hide Levels, LevelsOf, From, Children;
    }
  }

  lemma {:induction false} FromDepth(n: Node, depth: nat, i: nat)
    requires i <= |Children(n)| && depth > 0
    ensures var l := LevelsOf(Children(n)[i..]); var d := if n.Mapping? || n.Sequence? then depth + 1 else depth;
      From(n, depth, i).depth == if l == 0 then 0 else d + l - 1
    decreases n, |Children(n)| - i
  {
    if i < |Children(n)| {
      OfDepth(Children(n)[i], Below(n, depth));
      FromDepth(n, depth, i + 1);
      assert Children(n)[i..][1..] == Children(n)[i + 1..];
      hide Of, Children, Levels;
    }
  }

  ghost predicate Holds(n: Node, name: string, value: Node) { Count(n, Only(Anchor(name, value))) > 0 }

  /** Every anchor has a name, and no other anchor has it. */
  ghost predicate NamedOnce(root: Node) {
    && (forall name, value :: Holds(root, name, value) ==> name != "" && Count(root, Only(Anchor(name, value))) == 1)
    && (forall name, v, w :: Holds(root, name, v) && Holds(root, name, w) ==> v == w)
  }

  lemma NamedAsCounted(root: Node, m: Measure)
    requires forall name, value :: m.anchors[(name, value)] == Count(root, Only(Anchor(name, value)))
    ensures NamedOnce(root) <==>
      && (forall p :: p in m.anchors ==> p.0 != "" && m.anchors[p] == 1)
      && (forall p, q :: p in m.anchors && q in m.anchors && p.0 == q.0 ==> p == q)
  {
    hide Count;
    if NamedOnce(root) {
      forall p | p in m.anchors ensures p.0 != "" && m.anchors[p] == 1 { assert Holds(root, p.0, p.1); }
      forall p, q | p in m.anchors && q in m.anchors && p.0 == q.0 ensures p == q { assert Holds(root, p.0, p.1) && Holds(root, q.0, q.1); }
    } else if forall name, value :: Holds(root, name, value) ==> name != "" && Count(root, Only(Anchor(name, value))) == 1 {
      var name, v, w :| Holds(root, name, v) && Holds(root, name, w) && v != w;
      assert (name, v) in m.anchors && (name, w) in m.anchors;
    } else {
      var name, value :| Holds(root, name, value) && !(name != "" && Count(root, Only(Anchor(name, value))) == 1);
      assert (name, value) in m.anchors;
    }
  }

  /**
   * A tree is accepted exactly when it has at most twenty thousand nodes, a hundred aliases and thirty-two
   * levels, no tag, and anchors that each have a name of their own.
   */
  lemma AcceptedExactly(root: Node)
    ensures Fits(Of(root, 1)) <==>
      && Count(root, Any) <= 20_000 && Count(root, AnAlias) <= 100 && Levels(root) <= 32
      && Count(root, ATag) == 0 && NamedOnce(root)
  {
    hide Of, Count, NamedOnce, Levels;
    var m := Of(root, 1);
    OfDepth(root, 1);
    AbsentIsNothing(root);
    OfCounts(root, 1, Any);
    OfCounts(root, 1, AnAlias);
    OfCounts(root, 1, ATag);
    forall name, value ensures m.anchors[(name, value)] == Count(root, Only(Anchor(name, value))) {
      OfCounts(root, 1, Only(Anchor(name, value)));
    }
    NamedAsCounted(root, m);
  }

  lemma AbsentIsNothing(root: Node)
    ensures root == Absent ==> Levels(root) == 0 && Of(root, 1).depth == 0
  {
  }

  /** One tree declares one table of anchors. */
  lemma OneAnchorTable(m: Measure, a: map<string, Node>, b: map<string, Node>)
    requires Declared(a, m) && Declared(b, m)
    ensures a == b
  {
    forall k | k in a ensures k in b && b[k] == a[k] { assert (k, a[k]) in m.anchors; }
    forall k | k in b ensures k in a { assert (k, b[k]) in m.anchors; }
  }

  // ----- following aliases -----

  predicate Plain(n: Node) { !n.Anchor? && !n.Alias? }

  /** One link of the chain: an anchor's value, or what an alias names. */
  function Link(anchors: map<string, Node>, n: Node): Option<Node> {
    match n
    case Anchor(_, value) => Some(value)
    case Alias(name) => if name in anchors then Some(anchors[name]) else None
    case _ => None
  }

  /** The node k links on. */
  function Nth(anchors: map<string, Node>, n: Node, k: nat): Option<Node>
    decreases k
  {
    if k == 0 then Some(n)
    else
      match Nth(anchors, n, k - 1)
      case None => None
      case Some(m) => Link(anchors, m)
  }

  /** The chain from n comes to a node that carries a value, k links on. */
  ghost predicate Carries(anchors: map<string, Node>, n: Node, k: nat, m: Node) {
    Nth(anchors, n, k) == Some(m) && Plain(m)
  }

  datatype Trouble = Stopped | Spent | Undefined(name: string) | Itself(name: string)

  datatype Decoder = Decoder(anchors: map<string, Node>, stopped: bool)

  /** What one call answers, and the budget it leaves. */
  function Follow(d: Decoder, n: Node, open: set<string>, budget: nat): (Result<Node, Trouble>, nat)
    decreases budget
  {
    if d.stopped then (Err(Stopped), budget)
    else if budget == 0 then (Err(Spent), budget)
    else
      match n
      case Anchor(_, value) => Follow(d, value, open, budget - 1)
      case Alias(name) =>
        if name !in d.anchors then (Err(Undefined(name)), budget - 1)
        else if name in open then (Err(Itself(name)), budget - 1)
        else Follow(d, d.anchors[name], open + {name}, budget - 1)
      case _ => (Ok(n), budget - 1)
  }

  class Resolver {
    const d: Decoder
    var open: set<string>
    var budget: nat

    constructor (d: Decoder)
      ensures this.d == d && open == {} && budget == 200_000
    {
      this.d := d;
      open, budget := {}, MAX_EXPANDED;
    }

    /** resolve: a loop over anchors, and a call of itself for what an alias names. */
    method Resolve(node: Node) returns (r: Result<Node, Trouble>)
      modifies this
      ensures (r, budget) == Follow(d, node, old(open), old(budget)) && open == old(open)
      decreases budget
    {
      var n := node;
      while true
        invariant open == old(open) && budget <= old(budget)
        invariant Follow(d, n, open, budget) == Follow(d, node, old(open), old(budget))
        decreases budget
      {
        if d.stopped { return Err(Stopped); }
        if budget <= 0 { return Err(Spent); }
        budget := budget - 1;
        match n {
          case Anchor(_, value) => n := value;
          case Alias(name) =>
            if name !in d.anchors { return Err(Undefined(name)); }
            if name in open { return Err(Itself(name)); }
            open := open + {name};
            r := Resolve(d.anchors[name]);
            open := open - {name};
            return;
          case _ => return Ok(n);
        }
      }
    }
  }

  lemma {:induction false} NthPlus(anchors: map<string, Node>, n: Node, j: nat, k: nat)
    requires Nth(anchors, n, j).Some?
    ensures Nth(anchors, n, j + k) == Nth(anchors, Nth(anchors, n, j).value, k)
    decreases k
  {
    if k > 0 { NthPlus(anchors, n, j, k - 1); }
  }

  /** A chain that comes to a value never passes the same node twice. */
  lemma {:induction false} NoReturn(anchors: map<string, Node>, n: Node, i: nat, j: nat, k: nat, m: Node)
    requires i < j && Nth(anchors, n, i).Some? && Nth(anchors, n, i) == Nth(anchors, n, j)
    ensures !Carries(anchors, n, k, m)
    decreases k
  {
    if Carries(anchors, n, k, m) {
      if k < j {
        NthPlus(anchors, n, k, 1);
        NothingAfter(anchors, n, k, j);
      } else {
        NthPlus(anchors, n, j, k - j);
        NthPlus(anchors, n, i, k - j);
        NoReturn(anchors, n, i, j, i + (k - j), m);
      }
    }
  }

  lemma {:induction false} NothingAfter(anchors: map<string, Node>, n: Node, k: nat, j: nat)
    requires k < j && match Nth(anchors, n, k) case None => true case Some(m) => Plain(m)
    ensures Nth(anchors, n, j) == None
    decreases j
  {
    if k + 1 < j { NothingAfter(anchors, n, k, j - 1); }
  }

  /** The names opened on the way: each is an alias passed before. */
  ghost predicate Opened(anchors: map<string, Node>, start: Node, k: nat, open: set<string>) {
    forall name :: name in open ==> exists i: nat :: i < k && Nth(anchors, start, i) == Some(Alias(name))
  }

  lemma OpenedMore(anchors: map<string, Node>, start: Node, k: nat, open: set<string>, n: Node)
    requires Opened(anchors, start, k, open) && Nth(anchors, start, k) == Some(n)
    ensures Opened(anchors, start, k + 1, if n.Alias? then open + {n.target} else open)
  {
    var more := if n.Alias? then open + {n.target} else open;
    forall name | name in more ensures exists i: nat :: i < k + 1 && Nth(anchors, start, i) == Some(Alias(name)) {
      if name in open {
        var i: nat :| i < k && Nth(anchors, start, i) == Some(Alias(name));
        assert i < k + 1;
      } else {
        assert Nth(anchors, start, k) == Some(Alias(name));
      }
    }
  }

  /** The value is j links on, and every link cost one unit, as the value itself did. */
  ghost predicate Paid(anchors: map<string, Node>, start: Node, j: nat, m: Node, budget: nat, left: nat) {
    j < budget && Carries(anchors, start, j, m) && left == budget - j - 1
  }

  /** The alias that ends it is j links on, and was paid for like every other. */
  ghost predicate Broke(anchors: map<string, Node>, start: Node, j: nat, name: string, budget: nat, left: nat) {
    j < budget && Nth(anchors, start, j) == Some(Alias(name)) && left == budget - j - 1
  }

  /** What an answer says of the chain from `start`, when `limit` links could be paid for. */
  ghost predicate Answers(d: Decoder, start: Node, limit: nat, answer: (Result<Node, Trouble>, nat)) {
    match answer.0
    case Ok(m) => exists j: nat :: Paid(d.anchors, start, j, m, limit, answer.1)
    case Err(Undefined(name)) => name !in d.anchors && exists j: nat :: Broke(d.anchors, start, j, name, limit, answer.1)
    case Err(Itself(name)) =>
      exists i: nat, j: nat :: i < j && Nth(d.anchors, start, i) == Some(Alias(name)) && Broke(d.anchors, start, j, name, limit, answer.1)
    case Err(Spent) => Nth(d.anchors, start, limit).Some? && answer.1 == 0
    case Err(Stopped) => false
  }

  lemma {:induction false} FollowFrom(d: Decoder, start: Node, k: nat, n: Node, open: set<string>, budget: nat, limit: nat)
    requires limit == k + budget && !d.stopped && Nth(d.anchors, start, k) == Some(n) && Opened(d.anchors, start, k, open)
    ensures Answers(d, start, limit, Follow(d, n, open, budget))
    decreases budget
  {
    if budget > 0 {
      OpenedMore(d.anchors, start, k, open, n);
      match n
      case Anchor(_, value) =>
        hide Answers, Opened;
        FollowFrom(d, start, k + 1, value, open, budget - 1, limit);
      case Alias(name) =>
        if name !in d.anchors {
          assert Broke(d.anchors, start, k, name, limit, budget - 1);
        } else if name in open {
          var i: nat :| i < k && Nth(d.anchors, start, i) == Some(Alias(name));
          assert Broke(d.anchors, start, k, name, limit, budget - 1);
        } else {
          hide Answers, Opened;
          FollowFrom(d, start, k + 1, d.anchors[name], open + {name}, budget - 1, limit);
        }
      case _ =>
        assert Follow(d, n, open, budget) == (Ok(n), budget - 1);
        assert Paid(d.anchors, start, k, n, limit, Follow(d, n, open, budget).1);
    }
  }

  /**
   * Resolving answers with a value exactly when the chain of aliases comes to one within the budget, and it
   * is that value. When it does not answer, the chain meets a name nobody defined, meets itself, in which
   * case no budget would have been enough, or is longer than the budget.
   */
  lemma ResolvesExactly(d: Decoder, n: Node, budget: nat)
    requires !d.stopped
    ensures match Follow(d, n, {}, budget).0
      case Ok(m) => exists k: nat :: k < budget && Carries(d.anchors, n, k, m) && Follow(d, n, {}, budget).1 == budget - k - 1
      case Err(Undefined(name)) =>
        && name !in d.anchors && (forall k: nat, m :: !Carries(d.anchors, n, k, m))
        && exists k: nat :: Broke(d.anchors, n, k, name, budget, Follow(d, n, {}, budget).1)
      case Err(Itself(name)) =>
        && (forall k: nat, m :: !Carries(d.anchors, n, k, m))
        && exists k: nat :: Broke(d.anchors, n, k, name, budget, Follow(d, n, {}, budget).1)
      case Err(Spent) => Follow(d, n, {}, budget).1 == 0 && forall k: nat, m :: k < budget ==> !Carries(d.anchors, n, k, m)
      case Err(Stopped) => false
  {
    FollowFrom(d, n, 0, n, {}, budget, budget);
    match Follow(d, n, {}, budget).0
    case Ok(m) => var j: nat :| Paid(d.anchors, n, j, m, budget, Follow(d, n, {}, budget).1);
    case Err(Undefined(name)) =>
      var j: nat :| Broke(d.anchors, n, j, name, budget, Follow(d, n, {}, budget).1);
      forall k: nat, m ensures !Carries(d.anchors, n, k, m) { DeadEnd(d.anchors, n, j, k, m, name); }
    case Err(Itself(name)) =>
      var i: nat, j: nat :| i < j && Nth(d.anchors, n, i) == Some(Alias(name)) && Broke(d.anchors, n, j, name, budget, Follow(d, n, {}, budget).1);
      forall k: nat, m ensures !Carries(d.anchors, n, k, m) { NoReturn(d.anchors, n, i, j, k, m); }
    case Err(Spent) =>
      forall k: nat, m | k < budget ensures !Carries(d.anchors, n, k, m) {
        if Carries(d.anchors, n, k, m) { NothingAfter(d.anchors, n, k, budget); }
      }
    case Err(Stopped) =>
  }

  lemma DeadEnd(anchors: map<string, Node>, n: Node, j: nat, k: nat, m: Node, name: string)
    requires Nth(anchors, n, j) == Some(Alias(name)) && name !in anchors
    ensures !Carries(anchors, n, k, m)
  {
    if k < j {
      if Carries(anchors, n, k, m) { NothingAfter(anchors, n, k, j); }
    } else if k > j {
      assert Nth(anchors, n, j + 1) == None;
      NothingAfterNone(anchors, n, j + 1, k);
    }
  }

  lemma {:induction false} NothingAfterNone(anchors: map<string, Node>, n: Node, j: nat, k: nat)
    requires j <= k && Nth(anchors, n, j) == None
    ensures Nth(anchors, n, k) == None
    decreases k
  {
    if j < k { NothingAfterNone(anchors, n, j, k - 1); }
  }
}
