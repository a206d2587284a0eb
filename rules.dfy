/**
 * Ordered rule lists: a run of statements that each append a message when
 * a condition holds, read as a table of (condition, message) pairs.
 */
module Rules {

  datatype Rule = Rule(holds: bool, message: string)

  /** The messages of the rules that hold, in table order. */
  function Fired(rules: seq<Rule>): (r: seq<string>)
    ensures |r| <= |rules|
  {
    if rules == [] then []
    else (if rules[0].holds then [rules[0].message] else []) + Fired(rules[1..])
  }

  /** The default message when nothing was listed. */
  function OrDefault(msgs: seq<string>, default: string): (r: seq<string>)
    ensures |r| >= 1
    ensures msgs != [] ==> r == msgs
    ensures msgs == [] ==> r == [default]
  {
    if msgs == [] then [default] else msgs
  }

  /** A message is listed exactly when some rule carrying it holds. */
  lemma {:induction false} FiredIff(rules: seq<Rule>, m: string)
    ensures m in Fired(rules) <==> exists i | 0 <= i < |rules| :: rules[i].holds && rules[i].message == m
  {
    if rules != [] {
      FiredIff(rules[1..], m);
      if exists i | 0 <= i < |rules[1..]| :: rules[1..][i].holds && rules[1..][i].message == m {
        var i :| 0 <= i < |rules[1..]| && rules[1..][i].holds && rules[1..][i].message == m;
        assert rules[i + 1] == rules[1..][i];
      }
      if exists i | 0 <= i < |rules| :: rules[i].holds && rules[i].message == m {
        var i :| 0 <= i < |rules| && rules[i].holds && rules[i].message == m;
        if i > 0 {
          assert rules[1..][i - 1] == rules[i];
        }
      }
    }
  }

  /** A message only the first rule carries is listed exactly when that rule holds. */
  lemma FiredFirstOnly(rules: seq<Rule>, m: string)
    requires |rules| > 0 && rules[0].message == m
    requires forall i | 1 <= i < |rules| :: rules[i].message != m
    ensures m in Fired(rules) <==> rules[0].holds
  {
    FiredIff(rules, m);
  }

  /** When no rule holds, nothing is listed. */
  lemma {:induction false} FiredNoneHolds(rules: seq<Rule>)
    requires forall i | 0 <= i < |rules| :: !rules[i].holds
    ensures Fired(rules) == []
  {
    if rules != [] {
      FiredNoneHolds(rules[1..]);
    }
  }

  /** One conditional append: the message is added when the rule holds. */
  function Push(list: seq<string>, rule: Rule): (r: seq<string>)
    ensures rule.holds ==> r == list + [rule.message]
    ensures !rule.holds ==> r == list
  {
    if rule.holds then list + [rule.message] else list
  }

  /** Pushing rule by rule builds the fired list of the table so far. */
  lemma {:induction false} FiredSnoc(rules: seq<Rule>, rule: Rule)
    ensures Fired(rules + [rule]) == Push(Fired(rules), rule)
  {
    if rules != [] {
      assert (rules + [rule])[1..] == rules[1..] + [rule];
      FiredSnoc(rules[1..], rule);
    }
  }

  /** A five-rule table fires as five pushes in order. */
  lemma FiredOfFive(a: Rule, b: Rule, c: Rule, d: Rule, e: Rule)
    ensures Fired([a, b, c, d, e]) == Push(Push(Push(Push(Push([], a), b), c), d), e)
  {
    FiredSnoc([], a);
    assert [a] == [] + [a];
    FiredSnoc([a], b);
    assert [a, b] == [a] + [b];
    FiredSnoc([a, b], c);
    assert [a, b, c] == [a, b] + [c];
    FiredSnoc([a, b, c], d);
    assert [a, b, c, d] == [a, b, c] + [d];
    FiredSnoc([a, b, c, d], e);
    assert [a, b, c, d, e] == [a, b, c, d] + [e];
  }

  /** A six-rule table fires as six pushes in order. */
  lemma FiredOfSix(a: Rule, b: Rule, c: Rule, d: Rule, e: Rule, f: Rule)
    ensures Fired([a, b, c, d, e, f]) == Push(Push(Push(Push(Push(Push([], a), b), c), d), e), f)
  {
    FiredOfFive(a, b, c, d, e);
    FiredSnoc([a, b, c, d, e], f);
    assert [a, b, c, d, e, f] == [a, b, c, d, e] + [f];
  }
}
