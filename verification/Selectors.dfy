/** What the selectors of the simulator mean: numbers and their order, complements, and where two matchers differ. */
module Selectors {
  import opened Wrappers
  import opened Cluster
  import opened Simulator

  // ---- Numbers ---------------------------------------------------------------

  const LIMIT := 0x8000_0000_0000_0000

  function Digit(d: nat): char
    requires d < 10
  {
    '0' + d as char
  }

  function Digits(n: nat): (s: string)
    ensures s != []
  {
    if n < 10 then [Digit(n)] else Digits(n / 10) + [Digit(n % 10)]
  }

  function Print(v: int): string {
    if v < 0 then "-" + Digits(-v) else Digits(v)
  }

  function Zeros(n: nat): string {
    if n == 0 then "" else "0" + Zeros(n - 1)
  }

  lemma DigitIs(d: nat)
    requires d < 10
    ensures '0' <= Digit(d) <= '9' && Digit(d) as int - '0' as int == d
  {
  }

  lemma PushDigit(s: string, d: nat)
    requires IsDigits(s) && d < 10
    ensures IsDigits(s + [Digit(d)]) && DigitsValue(s + [Digit(d)]) == DigitsValue(s) * 10 + d
  {
    assert (s + [Digit(d)])[..|s|] == s;
    DigitIs(d);
  }

  lemma {:induction false} DigitsRoundTrip(n: nat)
    ensures IsDigits(Digits(n)) && DigitsValue(Digits(n)) == n
  {
    if n < 10 {
      PushDigit([], n);
      assert [] + [Digit(n)] == Digits(n);
    } else {
      DigitsRoundTrip(n / 10);
      PushDigit(Digits(n / 10), n % 10);
    }
  }

  lemma {:induction false} LeadingZeros(k: nat, s: string)
    requires IsDigits(s)
    ensures IsDigits(Zeros(k) + s) && DigitsValue(Zeros(k) + s) == DigitsValue(s)
  {
    if k == 0 {
      assert Zeros(0) + s == s;
    } else {
      LeadingZeros(k - 1, s);
      OneLeadingZero(Zeros(k - 1) + s);
      Grouped("0", Zeros(k - 1), s);
    }
  }

  lemma Grouped(a: string, b: string, c: string)
    ensures (a + b) + c == a + (b + c)
  {
  }

  lemma {:induction false} OneLeadingZero(s: string)
    requires IsDigits(s)
    ensures IsDigits("0" + s) && DigitsValue("0" + s) == DigitsValue(s)
  {
    if s == [] {
      assert "0" + s == "0" && "0"[..0] == [];
    } else {
      var front := s[..|s| - 1];
      OneLeadingZero(front);
      assert ("0" + s)[..|s|] == "0" + front;
    }
  }

  function WithSign(sign: char, magnitude: int): int {
    if sign == '-' then -magnitude else magnitude
  }

  /** The number, when it fits in 64 bits. */
  function InRange(v: int): Option<int> {
    if -LIMIT <= v < LIMIT then Some(v) else None
  }

  lemma Signed(sign: char, digits: string)
    requires sign == '+' || sign == '-'
    requires digits != [] && IsDigits(digits)
    ensures ParseInt([sign] + digits) == InRange(WithSign(sign, DigitsValue(digits)))
  {
    assert ([sign] + digits)[1..] == digits;
  }

  lemma Unsigned(digits: string)
    requires digits != [] && IsDigits(digits)
    ensures ParseInt(digits) == InRange(DigitsValue(digits))
  {
    assert '0' <= digits[0] <= '9';
  }

  /** A number is read back as it was printed if and only if it fits in 64 bits. */
  lemma PrintedIsRead(v: int)
    ensures ParseInt(Print(v)) == InRange(v)
  {
    if v < 0 {
      DigitsRoundTrip(-v);
      Signed('-', Digits(-v));
    } else {
      DigitsRoundTrip(v);
      Unsigned(Digits(v));
    }
  }

  function Padded(zeros: nat, v: nat): string { Zeros(zeros) + Digits(v) }

  lemma PaddedIsNumber(zeros: nat, v: nat)
    ensures Padded(zeros, v) != [] && IsDigits(Padded(zeros, v)) && DigitsValue(Padded(zeros, v)) == v
  {
    DigitsRoundTrip(v);
    LeadingZeros(zeros, Digits(v));
  }

  /** With a sign and leading zeros as well. */
  lemma SignedIsRead(sign: char, v: nat, zeros: nat)
    requires sign == '+' || sign == '-'
    ensures ParseInt([sign] + Padded(zeros, v)) == InRange(WithSign(sign, v))
  {
    PaddedIsNumber(zeros, v);
    Signed(sign, Padded(zeros, v));
  }

  // ---- Order -----------------------------------------------------------------

  lemma {:induction false} StringsAreOrdered(a: string, b: string)
    ensures (StringLess(a, b) && a != b && !StringLess(b, a))
         || (a == b && !StringLess(a, b))
         || (StringLess(b, a) && a != b && !StringLess(a, b))
  {
    if a != [] && b != [] && a[0] == b[0] {
      StringsAreOrdered(a[1..], b[1..]);
      assert a == [a[0]] + a[1..] && b == [b[0]] + b[1..];
    }
  }

  lemma {:induction false} StringLessIsTransitive(a: string, b: string, c: string)
    requires StringLess(a, b) && StringLess(b, c)
    ensures StringLess(a, c)
  {
    if a != [] && a[0] == b[0] && b[0] == c[0] {
      StringLessIsTransitive(a[1..], b[1..], c[1..]);
    }
  }

  lemma {:induction false} PrefixIsLess(a: string, b: string)
    requires b != []
    ensures StringLess(a, a + b)
  {
    if a == [] {
      assert a + b == b;
    } else {
      PrefixIsLess(a[1..], b);
      assert (a + b)[1..] == a[1..] + b;
    }
  }

  lemma {:induction false} FirstDifferenceDecides(p: string, x: char, a: string, y: char, b: string)
    requires x < y
    ensures StringLess(p + [x] + a, p + [y] + b)
  {
    var s, t := p + [x] + a, p + [y] + b;
    if p == [] {
      assert s[0] == x && t[0] == y;
    } else {
      FirstDifferenceDecides(p[1..], x, a, y, b);
      assert s[1..] == p[1..] + [x] + a && t[1..] == p[1..] + [y] + b;
    }
  }

  predicate IsNumber(s: string) { ParseInt(s).Some? }

  /** Printed numbers compare by value, and strings that are no numbers compare like strings. */
  lemma NumbersCompareByValue(x: int, y: int)
    requires -LIMIT <= x < LIMIT && -LIMIT <= y < LIMIT
    ensures ValueLess(Print(x), Print(y)) <==> x < y
  {
    PrintedIsRead(x);
    PrintedIsRead(y);
  }

  /** As long as all values are numbers, or none is, the comparison is transitive. */
  lemma ValueLessIsTransitive(a: string, b: string, c: string)
    requires IsNumber(a) == IsNumber(b) == IsNumber(c)
    requires ValueLess(a, b) && ValueLess(b, c)
    ensures ValueLess(a, c)
  {
    if !IsNumber(a) {
      StringLessIsTransitive(a, b, c);
    }
  }

  lemma LetterIsNoNumber(s: string)
    requires s != [] && '0' <= s[0] <= '9' && exists c | c in s :: c > '9'
    ensures !IsNumber(s)
  {
    var c :| c in s && c > '9';
    var i :| 0 <= i < |s| && s[i] == c;
    assert !IsDigits(s);
  }

  /** Mixed values can be less than each other in a circle. */
  lemma MixedValuesRunInCircles()
    ensures ValueLess("9", "10") && ValueLess("10", "1a") && ValueLess("1a", "9")
  {
    assert Print(9) == "9" && Print(10) == Digits(1) + "0" == "10";
    NumbersCompareByValue(9, 10);
    assert 'a' in "1a";
    LetterIsNoNumber("1a");
    assert "10"[1..] == "0" && "1a"[1..] == "a";
    assert StringLess("0", "a") && StringLess("10", "1a") && StringLess("1a", "9");
  }

  // ---- Operators of node selectors -------------------------------------------

  /** In and NotIn, and Exists and DoesNotExist, are complements; an In is about one of its values. */
  lemma OperatorsAreComplements(key: string, values: seq<string>, labels: Labels)
    ensures MatchesNodeSelectorRequirement(Requirement(key, "NotIn", values), labels) <==>
            !MatchesNodeSelectorRequirement(Requirement(key, "In", values), labels)
    ensures MatchesNodeSelectorRequirement(Requirement(key, "DoesNotExist", values), labels) <==>
            !MatchesNodeSelectorRequirement(Requirement(key, "Exists", values), labels)
    ensures MatchesNodeSelectorRequirement(Requirement(key, "In", values), labels) <==>
            exists v | v in values :: key in labels && labels[key] == v
    ensures MatchesNodeSelectorRequirement(Requirement(key, "Exists", values), labels) <==> key in labels.Keys
  {
  }

  /** A number on a node is above, below or equal to a required number. */
  lemma GtAndLtCompare(key: string, x: int, y: int, labels: Labels)
    requires -LIMIT <= x < LIMIT && -LIMIT <= y < LIMIT
    ensures var on := labels[key := Print(x)];
            && (MatchesNodeSelectorRequirement(Requirement(key, "Gt", [Print(y)]), on) <==> x > y)
            && (MatchesNodeSelectorRequirement(Requirement(key, "Lt", [Print(y)]), on) <==> x < y)
    ensures forall values | key !in labels ::
              && !MatchesNodeSelectorRequirement(Requirement(key, "Gt", values), labels)
              && !MatchesNodeSelectorRequirement(Requirement(key, "Lt", values), labels)
  {
    NumbersCompareByValue(x, y);
    NumbersCompareByValue(y, x);
  }

  /** A node selector is the same as an In expression with one value for every entry. */
  lemma SelectorIsExpressions(pod: Pod, node: Node)
    ensures MatchesNodeSelector(pod, node) <==>
            forall k | k in pod.nodeSelector ::
              MatchesNodeSelectorTerm(NodeSelectorTerm([Requirement(k, "In", [pod.nodeSelector[k]])], []), node)
  {
    forall k | k in pod.nodeSelector
      ensures Labelled(node, k, pod.nodeSelector[k]) <==>
              MatchesNodeSelectorTerm(NodeSelectorTerm([Requirement(k, "In", [pod.nodeSelector[k]])], []), node)
    {
      OneExpression(Requirement(k, "In", [pod.nodeSelector[k]]), node);
    }
  }

  /** Only the name of the node is known as a field; In and NotIn compare it, and everything else is let through. */
  lemma FieldsAreNames(key: string, operator: string, values: seq<string>, node: Node)
    ensures MatchesNodeSelectorField(Requirement("metadata.name", "In", values), node) <==>
            exists v | v in values :: node.name == v
    ensures MatchesNodeSelectorField(Requirement("metadata.name", "NotIn", values), node) <==>
            !MatchesNodeSelectorField(Requirement("metadata.name", "In", values), node)
    ensures key != "metadata.name" || operator !in {"In", "NotIn"} ==>
              MatchesNodeSelectorField(Requirement(key, operator, values), node)
  {
  }

  /** An expression with an operator that is none of the six matches no node. */
  lemma UnknownOperatorsMatchNothing(req: Requirement, labels: Labels)
    requires req.operator !in {"In", "NotIn", "Exists", "DoesNotExist", "Gt", "Lt"}
    ensures !MatchesNodeSelectorRequirement(req, labels)
  {
  }

  /** A term asks for all of its parts; a pod with required node affinity for one of its terms, and nothing for none. */
  lemma TermsAndAffinity(pod: Pod, terms: seq<NodeSelectorTerm>, a: NodeSelectorTerm, b: NodeSelectorTerm, node: Node)
    ensures MatchesNodeSelectorTerm(NodeSelectorTerm(a.expressions + b.expressions, a.fields + b.fields), node) <==>
            MatchesNodeSelectorTerm(a, node) && MatchesNodeSelectorTerm(b, node)
    ensures MatchesNodeAffinity(pod.(nodeAffinity := Some(terms + [a])), node) <==>
            MatchesNodeAffinity(pod.(nodeAffinity := Some(terms)), node) || MatchesNodeSelectorTerm(a, node)
    ensures !MatchesNodeAffinity(pod.(nodeAffinity := Some([])), node)
    ensures MatchesNodeAffinity(pod.(nodeAffinity := None), node)
  {
    if MatchesNodeSelectorTerm(NodeSelectorTerm(a.expressions + b.expressions, a.fields + b.fields), node) {
      assert forall req | req in a.expressions || req in b.expressions :: req in a.expressions + b.expressions;
      assert forall req | req in a.fields || req in b.fields :: req in a.fields + b.fields;
    }
    assert forall t :: t in terms + [a] <==> t in terms || t == a;
  }

  lemma OneField(req: Requirement, node: Node)
    ensures MatchesNodeSelectorTerm(NodeSelectorTerm([], [req]), node) <==> MatchesNodeSelectorField(req, node)
  {
    assert req in [req];
  }

  lemma OneExpression(req: Requirement, node: Node)
    ensures MatchesNodeSelectorTerm(NodeSelectorTerm([req], []), node) <==>
            MatchesNodeSelectorRequirement(req, node.labels)
  {
    assert req in [req];
  }

  // ---- The two ways of matching pods -----------------------------------------

  /** An In expression that accepts the empty value, for a label that the pod lacks. */
  predicate IsInForMissing(pod: Pod, expr: Requirement) {
    expr.operator == "In" && expr.key !in pod.labels && "" in expr.values
  }

  /** Affinity terms and spread constraints read an expression alike, with that one exception. */
  lemma ExpressionsDifferIff(pod: Pod, expr: Requirement)
    ensures MatchesTermExpression(pod, expr) != MatchesSelectorExpression(pod, expr) <==> IsInForMissing(pod, expr)
  {
  }

  /**
   An affinity term for all namespaces and a spread constraint with the same label selector match the same pods, unless
   only such expressions keep a pod from matching the constraint.
   */
  lemma MatchersDifferIff(pod: Pod, selector: LabelSelector, key: string)
    ensures var byTerm := PodMatchesAffinityTerm(pod, PodAffinityTerm(Some(selector), [], key));
            var byConstraint := PodMatchesLabelSelector(pod, Some(selector));
            && (byConstraint ==> byTerm)
            && (byTerm && !byConstraint <==> byTerm && exists expr | expr in selector.expressions :: IsInForMissing(pod, expr))
  {
    forall expr | expr in selector.expressions
      ensures MatchesTermExpression(pod, expr) != MatchesSelectorExpression(pod, expr) <==> IsInForMissing(pod, expr)
    {
      ExpressionsDifferIff(pod, expr);
    }
  }

  /** For a constraint the operators are complements; for a term they are, except that a missing label is the empty one. */
  lemma PodOperatorsAreComplements(pod: Pod, key: string, values: seq<string>)
    ensures MatchesSelectorExpression(pod, Requirement(key, "NotIn", values)) <==>
            !MatchesSelectorExpression(pod, Requirement(key, "In", values))
    ensures MatchesSelectorExpression(pod, Requirement(key, "DoesNotExist", values)) <==>
            !MatchesSelectorExpression(pod, Requirement(key, "Exists", values))
    ensures MatchesSelectorExpression(pod, Requirement(key, "In", values)) <==>
            exists v | v in values :: key in pod.labels && pod.labels[key] == v
    ensures MatchesSelectorExpression(pod, Requirement(key, "Exists", values)) <==> key in pod.labels.Keys
  {
  }

  /** A term without a selector matches nothing, a constraint without one everything; a term may name namespaces. */
  lemma MissingSelectorsAndNamespaces(pod: Pod, term: PodAffinityTerm)
    ensures term.selector == None ==> !PodMatchesAffinityTerm(pod, term)
    ensures PodMatchesLabelSelector(pod, None)
    ensures PodMatchesAffinityTerm(pod, term) <==>
            && PodMatchesAffinityTerm(pod, term.(namespaces := []))
            && (term.namespaces == [] || exists ns | ns in term.namespaces :: ns == pod.namespace)
    ensures PodMatchesAffinityTerm(pod, term.(selector := Some(LabelSelector(map[], [])), namespaces := []))
  {
  }

  /** Expressions with any other operator are let through. */
  lemma UnknownOperatorsMatchPods(pod: Pod, expr: Requirement)
    requires expr.operator !in {"In", "NotIn", "Exists", "DoesNotExist"}
    ensures MatchesTermExpression(pod, expr) && MatchesSelectorExpression(pod, expr)
  {
  }

  /** A selector asks for all of its expressions. */
  lemma SelectorIsConjunction(pod: Pod, labels: Labels, a: seq<Requirement>, b: seq<Requirement>)
    ensures PodMatchesLabelSelector(pod, Some(LabelSelector(labels, a + b))) <==>
            PodMatchesLabelSelector(pod, Some(LabelSelector(labels, a))) &&
            PodMatchesLabelSelector(pod, Some(LabelSelector(labels, b)))
  {
    assert forall expr :: expr in a + b <==> expr in a || expr in b;
  }

  /** A label that is asked for is the same as an In expression, for a term always. */
  lemma LabelsAreExpressions(pod: Pod, selector: LabelSelector, k: string, v: string, key: string)
    requires k !in selector.matchLabels
    ensures PodMatchesAffinityTerm(pod, PodAffinityTerm(Some(selector.(matchLabels := selector.matchLabels[k := v])), [], key))
       <==> PodMatchesAffinityTerm(pod, PodAffinityTerm(
              Some(selector.(expressions := selector.expressions + [Requirement(k, "In", [v])])), [], key))
  {
    var with := selector.matchLabels[k := v];
    assert MatchesAllLabels(pod, with) <==> MatchesAllLabels(pod, selector.matchLabels) && LabelOf(pod, k) == v by {
      assert forall x | x in selector.matchLabels :: with[x] == selector.matchLabels[x];
    }
    assert MatchesTermExpression(pod, Requirement(k, "In", [v])) <==> LabelOf(pod, k) == v;
  }
}
